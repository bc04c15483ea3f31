/** What the terms of the memory tool mean (`extensions/memory/index.ts`). */
module MemoryTerms {
  // White space, line ends, titles, dates and sizes, in their own terms.

  import opened MemoryText
  import opened MemoryDocument
  import opened MemoryFences
  import opened MemoryEdit
  import opened Wrappers

  // ------------------------------------------------------------------------- characters

  /** The white space of ECMAScript. */
  const SPACES: set<int> :=
    {9, 10, 11, 12, 13, 32, 0xA0, 0x1680, 0x2000, 0x2001, 0x2002, 0x2003, 0x2004, 0x2005, 0x2006, 0x2007, 0x2008,
     0x2009, 0x200A, 0x2028, 0x2029, 0x202F, 0x205F, 0x3000, 0xFEFF}

  lemma SpaceTable(c: char)
    ensures IsSpace(c) <==> c as int in SPACES
    ensures IsLineTerminator(c) <==> c as int in {10, 13, 0x2028, 0x2029}
  {
  }

  /** Sizes are counted in UTF-16. */
  function Utf16(s: string): seq<int> {
    if s == [] then []
    else
      var u := s[0] as int;
      (if u < 0x10000 then [u] else [0xD800 + (u - 0x10000) / 0x400, 0xDC00 + (u - 0x10000) % 0x400]) + Utf16(s[1..])
  }

  lemma {:induction false} UnitsAreUtf16(s: string)
    ensures Units(s) == |Utf16(s)|
  {
    if s != [] {
      UnitsAreUtf16(s[1..]);
    }
  }

  /** An edit is refused for its size exactly when it makes the file longer and leaves it
      longer than 12000 units. */
  lemma SizeIsRefusedExactly(before: string, title: string, content: string, date: string, lower: string -> string,
    secretish: string -> bool)
    requires Refusal(title, content, Parse(before), lower, secretish).None?
    ensures
      var after := Render(Edited(Parse(before), title, content, date, lower));
      if |Utf16(after)| > 12000 && |Utf16(after)| > |Utf16(before)|
      then Response(before, title, content, date, lower, secretish) == Rejected(TooLarge)
      else Response(before, title, content, date, lower, secretish) == Written(after)
  {
    hide Parse, Render, Refusal, Edited, Units, Utf16;
    UnitsAreUtf16(before);
    UnitsAreUtf16(Render(Edited(Parse(before), title, content, date, lower)));
  }

  // ------------------------------------------------------------------------------ dates

  predicate Decimal(s: string) {
    forall c | c in s :: c in "0123456789"
  }

  /** Four digits, two and two, with hyphens between them. */
  lemma DateMeaning(s: string)
    ensures IsDate(s) <==>
      exists year: string, month: string, day: string ::
        && |year| == 4 && |month| == 2 && |day| == 2 && Decimal(year + month + day)
        && s == year + "-" + month + "-" + day
  {
    if IsDate(s) {
      var year, month, day := s[..4], s[5..7], s[8..];
      assert s == year + "-" + month + "-" + day;
      assert Decimal(year + month + day) by {
        DigitsAreDecimal(s);
      }
    }
    if year: string, month: string, day: string :|
      |year| == 4 && |month| == 2 && |day| == 2 && Decimal(year + month + day) && s == year + "-" + month + "-" + day
    {
      forall i | 0 <= i < 10 && i != 4 && i != 7
        ensures IsDigit(s[i])
      {
        var c := s[i];
        assert c == if i < 4 then year[i] else if i < 7 then month[i - 5] else day[i - 8];
        assert c in year + month + day;
      }
    }
  }

  lemma DigitsAreDecimal(s: string)
    requires IsDate(s)
    ensures Decimal(s[..4] + s[5..7] + s[8..])
  {
    forall c | c in s[..4] + s[5..7] + s[8..]
      ensures c in "0123456789"
    {
      var k :| 0 <= k < 8 && (s[..4] + s[5..7] + s[8..])[k] == c;
      var i := if k < 4 then k else if k < 6 then k + 1 else k + 2;
      assert c == s[i] && IsDigit(s[i]);
      var digits := "0123456789";
      assert digits[c as int - '0' as int] == c;
    }
  }

  // -------------------------------------------------------------------------- line ends

  /** A line without the carriage return at its end. */
  function WithoutReturn(line: string): string {
    if line != "" && line[|line| - 1] == '\r' then line[..|line| - 1] else line
  }

  /** All lines but the last end in a line feed, and drop a carriage return before it. */
  function WithoutReturns(lines: seq<string>): seq<string> {
    if |lines| <= 1 then lines else [WithoutReturn(lines[0])] + WithoutReturns(lines[1..])
  }

  lemma {:induction false} LineEndsAreUnified(text: string)
    ensures Split(UnixLines(text)) == WithoutReturns(Split(text))
  {
    hide WithoutReturn;
    if |text| >= 2 && text[0] == '\r' && text[1] == '\n' {
      LineEndsAreUnified(text[2..]);
      var rest := Split(text[2..]);
      assert text[1..][1..] == text[2..];
      assert Split(text[1..]) == [""] + rest;
      assert ([""] + rest)[1..] == rest && ['\r'] + "" == ['\r'];
      assert Split(text) == [['\r']] + rest;
      assert (['\n'] + UnixLines(text[2..]))[1..] == UnixLines(text[2..]);
      LoneReturn();
      assert ([['\r']] + rest)[1..] == rest;
    } else if text != [] {
      LineEndsAreUnified(text[1..]);
      var rest := Split(text[1..]);
      FirstLineEnds(text[1..]);
      assert ([text[0]] + UnixLines(text[1..]))[1..] == UnixLines(text[1..]);
      PushKeeps(text[0], rest);
    }
  }

  lemma LoneReturn()
    ensures WithoutReturn(['\r']) == ""
  {
  }

  lemma FirstLineEnds(text: string)
    ensures |Split(text)| > 1 && Split(text)[0] == "" ==> text != [] && text[0] == '\n'
  {
  }

  lemma PushKeeps(c: char, lines: seq<string>)
    requires |lines| > 0 && !(c == '\r' && |lines| > 1 && lines[0] == "")
    ensures WithoutReturns(Push(c, lines)) == Push(c, WithoutReturns(lines))
  {
    hide WithoutReturn, WithoutReturns, Push;
    if c == '\n' {
      NoReturn();
      MoreLines("", lines);
      PushBreak(lines);
      LinesStay(lines);
      PushBreak(WithoutReturns(lines));
    } else if |lines| > 1 {
      var first, rest := lines[0], lines[1..];
      assert [first] + rest == lines;
      ReturnAfter(c, first);
      MoreLines(first, rest);
      MoreLines([c] + first, rest);
      PushOther(c, first, rest);
      PushOther(c, WithoutReturn(first), WithoutReturns(rest));
    } else {
      OneLineStays(lines);
      PushOther(c, lines[0], []);
      assert [lines[0]] + [] == lines;
      OneLineStays([[c] + lines[0]] + []);
    }
  }

  lemma PushBreak(lines: seq<string>)
    requires |lines| > 0
    ensures Push('\n', lines) == [""] + lines
  {
  }

  lemma PushOther(c: char, first: string, rest: seq<string>)
    requires c != '\n'
    ensures Push(c, [first] + rest) == [[c] + first] + rest
  {
    assert ([first] + rest)[1..] == rest;
  }

  lemma OneLineStays(lines: seq<string>)
    requires |lines| == 1
    ensures WithoutReturns(lines) == lines
  {
  }

  lemma {:induction false} LinesStay(lines: seq<string>)
    ensures |WithoutReturns(lines)| == |lines|
  {
    if |lines| > 1 {
      LinesStay(lines[1..]);
    }
  }

  lemma NoReturn()
    ensures WithoutReturn("") == ""
  {
  }

  lemma MoreLines(first: string, rest: seq<string>)
    requires rest != []
    ensures WithoutReturns([first] + rest) == [WithoutReturn(first)] + WithoutReturns(rest)
  {
    assert ([first] + rest)[1..] == rest;
  }

  lemma ReturnAfter(c: char, line: string)
    requires c != '\r' || line != ""
    ensures WithoutReturn([c] + line) == [c] + WithoutReturn(line)
  {
    if line != "" {
      assert ([c] + line)[|line|] == line[|line| - 1];
      assert ([c] + line)[..|line|] == [c] + line[..|line| - 1];
    }
  }

  // ---------------------------------------------------------------------- blank lines

  /** Blank lines in front of a body go; its own first line stays as it is, indented or not. */
  lemma {:induction false} LeadingBlankLinesGo(blank: seq<string>, first: string, rest: seq<string>)
    requires forall i, c | 0 <= i < |blank| && c in blank[i] :: c in " \t"
    requires exists c | c in first :: c !in " \t"
    ensures DropBlank(blank + [first] + rest) == [first] + rest
  {
    if blank == [] {
      assert blank + [first] + rest == [first] + rest;
      var c :| c in first && c !in " \t";
      SpaceOrTab(first, c);
    } else {
      var all := blank + [first] + rest;
      LeadingBlankLinesGo(blank[1..], first, rest);
      assert all[1..] == blank[1..] + [first] + rest;
      assert BlankLine(all[0]) by {
        forall i | 0 <= i < |blank[0]| ensures blank[0][i] == ' ' || blank[0][i] == '\t' {
          assert blank[0][i] in blank[0];
          OnlyThese(blank[0][i]);
        }
      }
    }
  }

  lemma OnlyThese(c: char)
    ensures c in " \t" <==> c == ' ' || c == '\t'
  {
    var both := " \t";
    assert both[0] == ' ' && both[1] == '\t';
  }

  lemma SpaceOrTab(line: string, c: char)
    requires c in line && c !in " \t"
    ensures !BlankLine(line)
  {
    OnlyThese(c);
    var i :| 0 <= i < |line| && line[i] == c;
  }

  // ----------------------------------------------------------------------------- titles

  /** How many characters stand before the first white space. */
  function VisibleRun(s: string): (n: nat)
    ensures n <= |s| && (forall i | 0 <= i < n :: !IsSpace(s[i])) && (n < |s| ==> IsSpace(s[n]))
  {
    if s != [] && !IsSpace(s[0]) then 1 + VisibleRun(s[1..]) else 0
  }

  /** The words of a text. */
  function Words(s: string): seq<string> {
    if s == [] then []
    else if IsSpace(s[0]) then Words(s[1..])
    else [s[..VisibleRun(s)]] + Words(s[VisibleRun(s)..])
  }

  /** Words with one space between them. */
  function Spaced(words: seq<string>): string {
    if |words| == 0 then "" else if |words| == 1 then words[0] else words[0] + " " + Spaced(words[1..])
  }

  lemma {:induction false} CollapsesVisible(w: string, s: string)
    requires forall i | 0 <= i < |w| :: !IsSpace(w[i])
    ensures CollapseSpace(w + s) == w + CollapseSpace(s)
  {
    if w == [] {
      assert w + s == s;
    } else {
      assert (w + s)[1..] == w[1..] + s;
      CollapsesVisible(w[1..], s);
      assert [w[0]] + (w[1..] + CollapseSpace(s)) == w + CollapseSpace(s);
    }
  }

  lemma {:induction false} CollapsesSpaces(s: string)
    requires s != [] && IsSpace(s[0])
    ensures CollapseSpace(s) == [' '] + CollapseSpace(TrimStart(s))
    ensures |TrimStart(s)| < |s| && Words(s) == Words(TrimStart(s))
  {
    hide IsSpace;
    StartsAfterSpace(s);
    if |s| > 1 && IsSpace(s[1]) {
      CollapsesSpaces(s[1..]);
    } else {
      NoSpaceToTrim(s[1..]);
    }
  }

  lemma StartsAfterSpace(s: string)
    requires s != [] && IsSpace(s[0])
    ensures TrimStart(s) == TrimStart(s[1..])
  {
    assert s[1..][SpaceRun(s[1..])..] == s[1 + SpaceRun(s[1..])..];
  }

  lemma NoSpaceToTrim(s: string)
    requires s != [] ==> !IsSpace(s[0])
    ensures TrimStart(s) == s
  {
  }

  lemma VisibleWord(s: string)
    requires s != [] && !IsSpace(s[0])
    ensures VisibleRun(s) > 0 && s == s[..VisibleRun(s)] + s[VisibleRun(s)..]
  {
  }

  /** A text that starts with a word collapses to its words, with a space at the end if it
      ends in one. */
  lemma {:induction false} CollapsedWords(s: string) returns (end: string)
    requires s != [] && !IsSpace(s[0])
    ensures (end == "" || end == " ") && CollapseSpace(s) == Spaced(Words(s)) + end
    ensures Words(s) != [] && Spaced(Words(s)) != []
    ensures !IsSpace(Spaced(Words(s))[0]) && !IsSpace(Spaced(Words(s))[|Spaced(Words(s))| - 1])
    decreases |s|
  {
    hide IsSpace, CollapseSpace, TrimStart, Spaced, Words;
    VisibleWord(s);
    FirstWord(s);
    var n := VisibleRun(s);
    var word, rest := s[..n], s[n..];
    CollapsesVisible(word, rest);
    if rest == [] {
      end := "";
      NothingCollapses();
      OneWord(word);
    } else {
      CollapsesSpaces(rest);
      var next := TrimStart(rest);
      TrimStartStarts(rest);
      if next == [] {
        end := " ";
        NothingCollapses();
        OneWord(word);
      } else {
        end := CollapsedWords(next);
        MoreWords(word, Words(next), end);
      }
    }
  }

  lemma FirstWord(s: string)
    requires s != [] && !IsSpace(s[0])
    ensures Words(s) == [s[..VisibleRun(s)]] + Words(s[VisibleRun(s)..])
  {
  }

  lemma OneWord(word: string)
    ensures Spaced([word]) == word && [word] + [] == [word]
  {
  }

  lemma MoreWords(word: string, words: seq<string>, end: string)
    requires word != [] && words != [] && Spaced(words) != []
    ensures
      var all := Spaced([word] + words);
      && word + ([' '] + (Spaced(words) + end)) == all + end
      && all[0] == word[0] && all[|all| - 1] == Spaced(words)[|Spaced(words)| - 1]
  {
    assert ([word] + words)[1..] == words;
    assert Spaced([word] + words) == word + " " + Spaced(words);
  }

  lemma NothingCollapses()
    ensures CollapseSpace("") == "" && Words("") == []
  {
  }

  lemma TrimStartStarts(s: string)
    ensures TrimStart(s) != [] ==> !IsSpace(TrimStart(s)[0])
  {
  }

  /** Collapsing and trimming leaves the words with one space between them. */
  lemma TrimmedWords(s: string)
    ensures Trim(CollapseSpace(s)) == Spaced(Words(s))
  {
    hide IsSpace, CollapseSpace, Words, Spaced, TrimEnd, SpaceRun;
    if s == "" {
      NothingCollapses();
      NothingToTrim();
    } else if SpaceFirst(s) {
      CollapsesSpaces(s);
      var rest := TrimStart(s);
      TrimStartStarts(s);
      StartsAfterSpace([' '] + CollapseSpace(rest));
      assert ([' '] + CollapseSpace(rest))[1..] == CollapseSpace(rest);
      WordsTrimmed(rest);
    } else {
      WordsTrimmed(s);
    }
  }

  predicate SpaceFirst(s: string)
    requires s != ""
  {
    IsSpace(s[0])
  }

  lemma NothingToTrim()
    ensures Trim("") == "" && Spaced([]) == ""
  {
  }

  lemma WordsTrimmed(s: string)
    requires s != [] ==> !IsSpace(s[0])
    ensures Trim(CollapseSpace(s)) == Spaced(Words(s))
  {
    hide IsSpace, CollapseSpace, Words, Spaced;
    if s == "" {
      NothingCollapses();
      NothingToTrim();
    } else {
      var end := CollapsedWords(s);
      var words := Spaced(Words(s));
      assert (words + end)[0] == words[0];
      NoSpaceToTrim(words + end);
      BlankIsSpace(end);
      TrimEndAppendSpace(words, end);
      TrimEndFixed(words);
    }
  }

  lemma BlankIsSpace(end: string)
    requires end == "" || end == " "
    ensures AllSpace(end)
  {
  }

  /** The title asked for: the words of the request, after the hashes it starts with, if it
      starts with any, with one space between them. */
  lemma TitleMeaning(n: nat, rest: string)
    requires rest != [] ==> rest[0] != '#'
    ensures TitleFrom(Some(Repeat('#', n) + rest)) == Spaced(Words(rest))
    ensures TitleFrom(None) == ""
  {
    hide IsSpace, CollapseSpace, Words, Spaced, TrimEnd;
    var hashes, collapsed := Repeat('#', n), CollapseSpace(rest);
    HashesAreVisible(n);
    CollapsesVisible(hashes, rest);
    CollapsedStart(rest);
    RunOf('#', n, collapsed);
    assert (hashes + collapsed)[n..] == collapsed;
    TrimmedWords(rest);
    TrimTwice(collapsed);
    assert n == 0 ==> hashes + collapsed == collapsed;
    NothingCollapses();
    NothingToTrim();
  }

  lemma HashesAreVisible(n: nat)
    ensures forall i | 0 <= i < n :: !IsSpace(Repeat('#', n)[i])
  {
  }

  lemma CollapsedStart(s: string)
    requires s != [] ==> s[0] != '#'
    ensures CollapseSpace(s) != [] ==> CollapseSpace(s)[0] != '#'
  {
    if s != [] && IsSpace(s[0]) {
      CollapsesSpaces(s);
    }
  }

  lemma TrimTwice(s: string)
    ensures Trim(TrimStart(s)) == Trim(s)
  {
    TrimStartStarts(s);
    NoSpaceToTrim(TrimStart(s));
  }
}
