/** Which headers give which length (`extensions/code-intel/client.ts`). */
module LspHeaders {
  import opened LspFraming
  import opened LspFramingProof
  import opened Wrappers

  const CRLF: Bytes := [13, 10]

  predicate BlankLineAt(buffer: Bytes, i: nat) {
    i + 4 <= |buffer| && buffer[i..i + 4] == CRLF + CRLF
  }

  lemma TerminatorIsBlankLine(buffer: Bytes, i: nat)
    ensures TerminatorAt(buffer, i) <==> BlankLineAt(buffer, i)
  {
    if i + 4 <= |buffer| {
      var four := buffer[i..i + 4];
      assert four[0] == buffer[i] && four[1] == buffer[i + 1] && four[2] == buffer[i + 2] && four[3] == buffer[i + 3];
      assert four == [buffer[i], buffer[i + 1], buffer[i + 2], buffer[i + 3]];
      assert CRLF + CRLF == [13, 10, 13, 10];
    }
  }

  /** A header ends at the first place where the four bytes of a blank line stand. */
  lemma EndsAtTheBlankLine(buffer: Bytes, i: nat)
    ensures IndexOf(buffer, 0) == Some(i) <==>
      BlankLineAt(buffer, i) && forall k | 0 <= k < i :: !BlankLineAt(buffer, k)
    ensures IndexOf(buffer, 0) == None <==> forall k: nat :: !BlankLineAt(buffer, k)
  {
    hide TerminatorAt, BlankLineAt;
    forall k: nat
      ensures TerminatorAt(buffer, k) <==> BlankLineAt(buffer, k)
    {
      TerminatorIsBlankLine(buffer, k);
    }
  }

  // ------------------------------------------------------------------------------ lines

  function Joined(lines: seq<Bytes>): Bytes
    requires |lines| > 0
  {
    if |lines| == 1 then lines[0] else lines[0] + CRLF + Joined(lines[1..])
  }

  predicate NoBreak(line: Bytes) {
    forall i | 0 <= i < |line| - 1 :: !(line[i] == 13 && line[i + 1] == 10)
  }

  /** The text cut at every pair of carriage return and line feed. */
  predicate Cut(text: Bytes, lines: seq<Bytes>) {
    |lines| > 0 && Joined(lines) == text && forall i | 0 <= i < |lines| :: NoBreak(lines[i])
  }

  lemma {:induction false} LinesAreCut(text: Bytes)
    ensures Cut(text, Lines(text))
  {
    if |text| >= 2 && text[0] == 13 && text[1] == 10 {
      LinesAreCut(text[2..]);
      assert ([[]] + Lines(text[2..]))[1..] == Lines(text[2..]);
      assert text == CRLF + text[2..];
    } else if text != [] {
      LinesAreCut(text[1..]);
      LongerCut(text[0], Lines(text[1..]));
      assert text == [text[0]] + text[1..];
    }
  }

  lemma LongerCut(b: Byte, lines: seq<Bytes>)
    requires |lines| > 0 && forall i | 0 <= i < |lines| :: NoBreak(lines[i])
    requires b == 13 && Joined(lines) != [] ==> Joined(lines)[0] != 10
    ensures Cut([b] + Joined(lines), [[b] + lines[0]] + lines[1..])
  {
    hide Joined, NoBreak;
    var longer := [[b] + lines[0]] + lines[1..];
    JoinedLonger(b, lines);
    StartsTheSame(lines);
    NoBreakLonger(b, lines[0]);
    forall i | 0 <= i < |longer|
      ensures NoBreak(longer[i])
    {
      assert i > 0 ==> longer[i] == lines[i];
    }
  }

  lemma JoinedLonger(b: Byte, lines: seq<Bytes>)
    requires |lines| > 0
    ensures Joined([[b] + lines[0]] + lines[1..]) == [b] + Joined(lines)
  {
    var longer := [[b] + lines[0]] + lines[1..];
    assert longer[0] == [b] + lines[0];
    if |lines| > 1 {
      assert longer[1..] == lines[1..];
      InFront([b], lines[0], CRLF, Joined(lines[1..]));
    }
  }

  lemma InFront(a: Bytes, b: Bytes, c: Bytes, d: Bytes)
    ensures a + b + c + d == a + (b + c + d)
  {
  }

  lemma NoBreakLonger(b: Byte, line: Bytes)
    requires NoBreak(line) && (b == 13 && line != [] ==> line[0] != 10)
    ensures NoBreak([b] + line)
  {
    var longer := [b] + line;
    forall i | 0 <= i < |longer| - 1
      ensures !(longer[i] == 13 && longer[i + 1] == 10)
    {
      assert longer[i + 1] == line[i];
      assert i > 0 ==> longer[i] == line[i - 1];
    }
  }

  lemma StartsTheSame(lines: seq<Bytes>)
    requires |lines| > 0
    ensures lines[0] != [] ==> Joined(lines) != [] && Joined(lines)[0] == lines[0][0]
  {
  }

  /** There is one way to cut a text. */
  lemma {:induction false} CutIsLines(text: Bytes, lines: seq<Bytes>)
    requires Cut(text, lines)
    ensures lines == Lines(text)
    decreases |text|, |lines|
  {
    var first := lines[0];
    if first == [] {
      if |lines| > 1 {
        assert text == CRLF + Joined(lines[1..]);
        assert text[2..] == Joined(lines[1..]);
        CutIsLines(text[2..], lines[1..]);
        assert lines == [[]] + lines[1..];
      } else {
        assert lines == [[]];
      }
    } else {
      var less := [first[1..]] + lines[1..];
      assert less[1..] == lines[1..];
      assert text[1..] == Joined(less) by {
        if |lines| > 1 {
          assert first + CRLF + Joined(lines[1..]) == [first[0]] + (first[1..] + CRLF + Joined(lines[1..]));
        } else {
          assert first == [first[0]] + first[1..];
        }
      }
      assert forall i | 0 < i < |less| :: less[i] == lines[i];
      assert NoBreak(less[0]);
      CutIsLines(text[1..], less);
      SecondByte(lines);
      assert [first[0]] + less[0] == first && [first] + lines[1..] == lines;
    }
  }

  lemma SecondByte(lines: seq<Bytes>)
    requires |lines| > 0 && lines[0] != [] && NoBreak(lines[0])
    ensures |Joined(lines)| >= 1 && Joined(lines)[0] == lines[0][0]
    ensures |Joined(lines)| >= 2 && Joined(lines)[0] == 13 ==> Joined(lines)[1] != 10
  {
    if |lines| > 1 {
      assert Joined(lines) == lines[0] + CRLF + Joined(lines[1..]);
    }
  }

  // ----------------------------------------------------------------------------- lengths

  function Spaces(n: nat): Bytes {
    seq(n, _ => 32)
  }

  predicate AllDigits(s: Bytes) {
    forall i | 0 <= i < |s| :: 48 <= s[i] <= 57
  }

  /** "content-length:", spaces, a number, spaces. */
  ghost predicate Gives(line: Bytes, length: nat) {
    exists a: nat, digits: Bytes, b: nat ::
      && digits != [] && AllDigits(digits) && Value(digits, 0) == length
      && line == NAME + Spaces(a) + digits + Spaces(b)
  }

  lemma {:induction false} SkipsSpaces(n: nat, rest: Bytes)
    requires rest != [] ==> rest[0] != 32
    ensures SkipSpaces(Spaces(n) + rest) == rest
  {
    if n == 0 {
      assert Spaces(n) + rest == rest;
    } else {
      assert (Spaces(n) + rest)[1..] == Spaces(n - 1) + rest;
      SkipsSpaces(n - 1, rest);
    }
  }

  lemma {:induction false} SpacesBefore(s: Bytes) returns (n: nat)
    ensures s == Spaces(n) + SkipSpaces(s) && (SkipSpaces(s) != [] ==> SkipSpaces(s)[0] != 32)
  {
    if s != [] && s[0] == 32 {
      n := SpacesBefore(s[1..]);
      n := n + 1;
      assert Spaces(n) == [32] + Spaces(n - 1);
    } else {
      n := 0;
    }
  }

  lemma {:induction false} DigitsBefore(s: Bytes, start: nat) returns (digits: Bytes)
    ensures AllDigits(digits) && s == digits + Number(s, start).1 && Value(digits, start) == Number(s, start).0
    ensures Number(s, start).1 != [] ==> !IsDigit(Number(s, start).1[0])
    ensures s != [] && IsDigit(s[0]) ==> digits != []
    decreases |s|
  {
    if s != [] && IsDigit(s[0]) {
      var rest := DigitsBefore(s[1..], 10 * start + (s[0] - 48));
      digits := [s[0]] + rest;
      assert digits[1..] == rest;
    } else {
      digits := [];
    }
  }

  lemma LineLengthMeaning(line: Bytes, length: nat)
    requires NAME <= line
    ensures LineLength(line) == Some(length) <==> Gives(line, length)
  {
    hide LineLength, Number, SkipSpaces;
    if Gives(line, length) {
      var a: nat, digits: Bytes, b: nat :|
        digits != [] && AllDigits(digits) && Value(digits, 0) == length &&
        line == NAME + Spaces(a) + digits + Spaces(b);
      WrittenLength(a, digits, b);
    }
    if LineLength(line) == Some(length) {
      ReadLength(line);
    }
  }

  lemma WrittenLength(a: nat, digits: Bytes, b: nat)
    requires digits != [] && AllDigits(digits)
    ensures
      var line := NAME + Spaces(a) + digits + Spaces(b);
      NAME <= line && LineLength(line) == Some(Value(digits, 0))
  {
    hide Number, SkipSpaces, Value;
    var line, tail := NAME + Spaces(a) + digits + Spaces(b), digits + Spaces(b);
    assert line[|NAME|..] == Spaces(a) + tail;
    assert tail[0] == digits[0];
    SkipsSpaces(a, tail);
    NumberFrom(digits, Spaces(b), 0);
    SkipsSpaces(b, []);
    assert Spaces(b) + [] == Spaces(b);
  }

  lemma ReadLength(line: Bytes)
    requires NAME <= line && LineLength(line).Some?
    ensures Gives(line, LineLength(line).value)
  {
    hide Number, SkipSpaces, Value;
    var rest := line[|NAME|..];
    var a := SpacesBefore(rest);
    var s := SkipSpaces(rest);
    var digits := DigitsBefore(s, 0);
    var b := SpacesBefore(Number(s, 0).1);
    assert Number(s, 0).1 == Spaces(b) + [] == Spaces(b);
    assert line == NAME + rest;
    assert line == NAME + Spaces(a) + digits + Spaces(b);
  }

  lemma {:induction false} LengthLinesMeaning(lines: seq<Bytes>, line: Bytes)
    ensures LengthLines(lines) == [line] <==>
      exists i | 0 <= i < |lines| ::
        lines[i] == line && NAME <= line && forall j | 0 <= j < |lines| && j != i :: !(NAME <= lines[j])
    ensures LengthLines(lines) == [] <==> forall j | 0 <= j < |lines| :: !(NAME <= lines[j])
  {
    if lines != [] {
      var first, rest := lines[0], lines[1..];
      LengthLinesMeaning(rest, line);
      assert forall j | 0 <= j < |rest| :: rest[j] == lines[j + 1];
      if NAME <= first {
        assert LengthLines(lines) == [first] + LengthLines(rest);
        if LengthLines(lines) == [line] {
          assert LengthLines(lines)[0] == first && LengthLines(lines)[1..] == LengthLines(rest);
          assert lines[0] == line;
        }
      } else {
        assert LengthLines(lines) == LengthLines(rest);
        if LengthLines(rest) == [line] {
          var i :| 0 <= i < |rest| && rest[i] == line && NAME <= line &&
            forall j | 0 <= j < |rest| && j != i :: !(NAME <= rest[j]);
          assert lines[i + 1] == line;
        }
      }
    }
  }

  /** A header, read as ASCII and in lower case, gives a length exactly when one of its lines
      is the length line, with nothing but spaces around the number, and no other line starts
      like one. */
  lemma HeaderLengthMeaning(header: Bytes, length: nat)
    ensures HeaderLength(header) == Some(length) <==>
      exists lines: seq<Bytes>, i: nat ::
        && Cut(FoldAll(header), lines) && i < |lines| && Gives(lines[i], length)
        && forall j | 0 <= j < |lines| && j != i :: !(NAME <= lines[j])
  {
    hide FoldAll, Lines, LineLength, Gives, Cut, LengthLines;
    var text := FoldAll(header);
    var cut := Lines(text);
    LinesAreCut(text);
    if HeaderLength(header) == Some(length) {
      var line := LengthLines(cut)[0];
      assert LengthLines(cut) == [line];
      LengthLinesMeaning(cut, line);
      var i :| 0 <= i < |cut| && cut[i] == line && NAME <= line &&
        forall j | 0 <= j < |cut| && j != i :: !(NAME <= cut[j]);
      LineLengthMeaning(line, length);
    }
    if lines: seq<Bytes>, i: nat :|
      Cut(text, lines) && i < |lines| && Gives(lines[i], length) &&
      forall j | 0 <= j < |lines| && j != i :: !(NAME <= lines[j])
    {
      CutIsLines(text, lines);
      GivesIsNamed(lines[i], length);
      LengthLinesMeaning(cut, lines[i]);
      LineLengthMeaning(lines[i], length);
    }
  }

  lemma GivesIsNamed(line: Bytes, length: nat)
    requires Gives(line, length)
    ensures NAME <= line
  {
  }

  /** Reading without case: of the letters of either case, and of bytes with the high bit
      set, the small letter is left. */
  lemma FoldMeaning(b: Byte, letter: Byte)
    requires 97 <= letter <= 122
    ensures Fold(b) == letter <==> b % 128 == letter || b % 128 == letter - 32
    ensures !(97 <= Fold(b) <= 122) ==> Fold(b) == b % 128
  {
  }
}
