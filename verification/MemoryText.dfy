/** Text primitives of memory documents
    (`extensions/memory/index.ts`): JavaScript white space,
    lines, code-fence markers and headings. */
module MemoryText {
  import opened Wrappers

  /** What `trim` removes and `\s` matches. */
  predicate IsSpace(c: char) {
    var u := c as int;
    (9 <= u <= 13) || u == 0x20 || u == 0xA0 || u == 0x1680 || (0x2000 <= u <= 0x200A) ||
    u == 0x2028 || u == 0x2029 || u == 0x202F || u == 0x205F || u == 0x3000 || u == 0xFEFF
  }

  /** What `.` does not match. */
  predicate IsLineTerminator(c: char) {
    c == '\n' || c == '\r' || c as int == 0x2028 || c as int == 0x2029
  }

  predicate AllSpace(s: string) {
    forall i | 0 <= i < |s| :: IsSpace(s[i])
  }

  function TrimEnd(s: string): (r: string)
    ensures r <= s && AllSpace(s[|r|..])
    ensures r == [] <==> AllSpace(s)
    ensures r != [] ==> !IsSpace(r[|r| - 1])
  {
    if s != [] && IsSpace(s[|s| - 1]) then TrimEnd(s[..|s| - 1]) else s
  }

  /** How many white-space characters a text starts with. */
  function SpaceRun(s: string): (n: nat)
    ensures n <= |s|
    ensures forall i | 0 <= i < n :: IsSpace(s[i])
    ensures n < |s| ==> !IsSpace(s[n])
  {
    if s != [] && IsSpace(s[0]) then 1 + SpaceRun(s[1..]) else 0
  }

  function TrimStart(s: string): (r: string)
    ensures |r| <= |s| && r == s[|s| - |r|..]
    ensures r != [] ==> !IsSpace(r[0])
    ensures r == [] <==> AllSpace(s)
  {
    s[SpaceRun(s)..]
  }

  function Trim(s: string): string {
    TrimEnd(TrimStart(s))
  }

  /** `text.split("\n")` */
  function Split(text: string): (lines: seq<string>)
    ensures |lines| > 0
    ensures forall i | 0 <= i < |lines| :: '\n' !in lines[i]
  {
    if text == [] then [""] else Push(text[0], Split(text[1..]))
  }

  /** The lines of a text with one more character in front. */
  function Push(c: char, lines: seq<string>): (r: seq<string>)
    requires |lines| > 0
    ensures |r| > 0
    ensures (forall i | 0 <= i < |lines| :: '\n' !in lines[i]) ==> forall i | 0 <= i < |r| :: '\n' !in r[i]
  {
    if c == '\n' then [""] + lines else [[c] + lines[0]] + lines[1..]
  }

  /** `lines.join("\n")` */
  function Unlines(lines: seq<string>): string {
    if |lines| == 0 then "" else if |lines| == 1 then lines[0] else lines[0] + "\n" + Unlines(lines[1..])
  }

  /** Nothing but spaces and tabs. */
  predicate BlankLine(line: string) {
    forall i | 0 <= i < |line| :: line[i] == ' ' || line[i] == '\t'
  }

  /** Blank lines that end in a newline are dropped from the front. */
  function DropBlank(lines: seq<string>): (r: seq<string>)
    ensures |lines| > 0 ==> |r| > 0
    ensures |r| <= |lines|
  {
    if |lines| > 1 && BlankLine(lines[0]) then DropBlank(lines[1..]) else lines
  }

  function TrimBlankLines(text: string): string {
    TrimEnd(Unlines(DropBlank(Split(text))))
  }

  // ------------------------------------------------------------------- fences

  function Run(s: string, c: char): (n: nat)
    ensures n <= |s| && (forall i | 0 <= i < n :: s[i] == c) && (n < |s| ==> s[n] != c)
  {
    if s != [] && s[0] == c then 1 + Run(s[1..], c) else 0
  }

  /** The fence marker of a line: at most three spaces, then at least three backticks
      with no further backtick on the line, or at least three tildes. */
  function Marker(line: string): (m: Option<string>)
    ensures m.Some? ==> |m.value| >= 3
  {
    var k := Run(line, ' ');
    if k > 3 || k == |line| then None
    else
      var c, rest := line[k], line[k..];
      var n := Run(rest, c);
      if c == '`' && n >= 3 && '`' !in rest[n..] then Some(rest[..n])
      else if c == '~' && n >= 3 then Some(rest[..n])
      else None
  }

  type Fence = Option<string>

  predicate Closes(fence: string, line: string)
    requires fence != []
  {
    var m := Marker(line);
    m.Some? && m.value[0] == fence[0] && |m.value| >= |fence| &&
    |m.value| <= |Trim(line)| && Trim(Trim(line)[|m.value|..]) == ""
  }

  type OpenFence = f: Fence | f.Some? ==> f.value != [] witness None

  function NextFence(fence: OpenFence, line: string): OpenFence {
    if fence.Some? then (if Closes(fence.value, line) then None else fence)
    else if Marker(line).Some? then Marker(line)
    else None
  }

  // ----------------------------------------------------------------- headings

  /** `^## (\S.*)$` */
  predicate IsHeading(line: string) {
    |line| > 3 && line[..3] == "## " && !IsSpace(line[3]) &&
    forall i | 3 <= i < |line| :: !IsLineTerminator(line[i])
  }

  /** The title of a line, if it is a heading outside a code fence. */
  function TitleOf(fence: OpenFence, line: string): Option<string> {
    if fence.None? && Marker(line).None? && IsHeading(line) then Some(Trim(line[3..])) else None
  }

  function FenceAfter(fence: OpenFence, lines: seq<string>): OpenFence
    decreases |lines|
  {
    if lines == [] then fence else FenceAfter(NextFence(fence, lines[0]), lines[1..])
  }

  // ------------------------------------------------------- lemmas about lines

  lemma UnlinesCons(first: string, rest: seq<string>)
    ensures Unlines([first] + rest) == if rest == [] then first else first + "\n" + Unlines(rest)
  {
    assert ([first] + rest)[1..] == rest;
  }

  lemma UnlinesGrow(c: char, first: string, rest: seq<string>)
    ensures Unlines([[c] + first] + rest) == [c] + Unlines([first] + rest)
  {
    hide Unlines;
    UnlinesCons([c] + first, rest);
    UnlinesCons(first, rest);
    if rest != [] {
      Associative([c], first, "\n");
      Associative([c], first + "\n", Unlines(rest));
    }
  }

  lemma UnlinesPush(c: char, lines: seq<string>)
    requires |lines| > 0
    ensures Unlines(Push(c, lines)) == [c] + Unlines(lines)
  {
    hide Unlines;
    if c == '\n' {
      UnlinesCons("", lines);
      EmptyLeft("\n");
    } else {
      UnlinesGrow(c, lines[0], lines[1..]);
      HeadTail(lines);
    }
  }

  lemma HeadTail(lines: seq<string>)
    requires |lines| > 0
    ensures [lines[0]] + lines[1..] == lines
  {
  }

  lemma EmptyLeft(s: string)
    ensures "" + s == s
  {
  }

  lemma Associative(a: string, b: string, c: string)
    ensures a + b + c == a + (b + c)
  {
  }

  lemma {:induction false} UnlinesSplit(text: string)
    ensures Unlines(Split(text)) == text
  {
    hide Unlines, Push;
    if text == [] {
      OneLineAlone("");
    } else {
      UnlinesSplit(text[1..]);
      UnlinesPush(text[0], Split(text[1..]));
    }
  }

  lemma OneLineAlone(line: string)
    ensures Unlines([line]) == line
  {
  }

  lemma {:induction false} SplitNoNewline(line: string)
    requires '\n' !in line
    ensures Split(line) == [line]
  {
    if line != [] {
      SplitNoNewline(line[1..]);
      assert [line[0]] + line[1..] == line;
    }
  }

  lemma PushAppend(c: char, a: seq<string>, b: seq<string>)
    requires |a| > 0
    ensures Push(c, a + b) == Push(c, a) + b
  {
    assert (a + b)[1..] == a[1..] + b;
  }

  lemma {:induction false} SplitAtNewline(a: string, b: string)
    ensures Split(a + "\n" + b) == Split(a) + Split(b)
  {
    var t := a + "\n" + b;
    if a == [] {
      assert t[1..] == b;
      assert Split(a) == [""];
    } else {
      assert t[0] == a[0] && t[1..] == a[1..] + "\n" + b;
      SplitAtNewline(a[1..], b);
      PushAppend(a[0], Split(a[1..]), Split(b));
    }
  }

  lemma {:induction false} SplitUnlines(lines: seq<string>)
    requires |lines| > 0 && forall i | 0 <= i < |lines| :: '\n' !in lines[i]
    ensures Split(Unlines(lines)) == lines
  {
    SplitNoNewline(lines[0]);
    if |lines| > 1 {
      SplitUnlines(lines[1..]);
      SplitAtNewline(lines[0], Unlines(lines[1..]));
    }
  }

  lemma {:induction false} UnlinesAppend(a: seq<string>, b: seq<string>)
    requires a != [] && b != []
    ensures Unlines(a + b) == Unlines(a) + "\n" + Unlines(b)
  {
    if |a| > 1 {
      UnlinesAppend(a[1..], b);
      assert (a + b)[1..] == a[1..] + b;
    } else {
      assert (a + b)[1..] == b;
    }
  }

  // ----------------------------------------------------- lemmas about trimming

  lemma {:induction false} TrimEndAppendSpace(s: string, w: string)
    requires AllSpace(w)
    ensures TrimEnd(s + w) == TrimEnd(s)
    decreases |w|
  {
    if w == [] {
      assert s + w == s;
    } else {
      var v := w[..|w| - 1];
      TrimEndAppendSpace(s, v);
      assert (s + w)[..|s + w| - 1] == s + v;
    }
  }

  lemma {:induction false} TrimEndAppend(p: string, s: string)
    requires TrimEnd(s) != []
    ensures TrimEnd(p + s) == p + TrimEnd(s)
  {
    var r := TrimEnd(s);
    assert p + s == (p + r) + s[|r|..];
    TrimEndAppendSpace(p + r, s[|r|..]);
    assert (p + r)[|p + r| - 1] == r[|r| - 1];
  }

  lemma TrimEndFixed(s: string)
    requires s == [] || !IsSpace(s[|s| - 1])
    ensures TrimEnd(s) == s
  {
  }

  lemma {:induction false} SpaceRunPrefix(s: string, n: nat)
    requires n <= |s|
    ensures SpaceRun(s[..n]) == if SpaceRun(s) <= n then SpaceRun(s) else n
  {
    hide IsSpace;
    if n > 0 && IsSpace(s[0]) {
      assert s[..n][1..] == s[1..][..n - 1];
      SpaceRunPrefix(s[1..], n - 1);
    }
  }

  lemma TrimStartPrefix(s: string, n: nat)
    requires n <= |s| && AllSpace(s[n..])
    ensures TrimEnd(TrimStart(s[..n])) == TrimEnd(TrimStart(s))
  {
    hide IsSpace, SpaceRun, TrimEnd;
    SpaceRunPrefix(s, n);
    var k := SpaceRun(s);
    if k <= n {
      assert s[..n][k..] + s[n..] == s[k..];
      TrimEndAppendSpace(s[..n][k..], s[n..]);
    } else {
      assert s[k..] == s[n..][k - n..];
      assert AllSpace(s[k..]) && AllSpace(s[..n][n..]);
    }
  }

  /** Trailing white space is invisible to `trim`. */
  lemma TrimTrimEnd(s: string)
    ensures Trim(TrimEnd(s)) == Trim(s)
  {
    TrimStartPrefix(s, |TrimEnd(s)|);
    assert s[..|TrimEnd(s)|] == TrimEnd(s);
  }

  lemma {:induction false} RunPrefix(s: string, c: char, n: nat)
    requires n <= |s|
    ensures Run(s[..n], c) == if Run(s, c) <= n then Run(s, c) else n
  {
    if n > 0 && s[0] == c {
      assert s[..n][1..] == s[1..][..n - 1];
      RunPrefix(s[1..], c, n - 1);
    }
  }

  predicate Unmarked(s: string) {
    forall i | 0 <= i < |s| :: s[i] != '`' && s[i] != '~'
  }

  lemma MarkerPrefix(line: string, n: nat)
    requires n <= |line| && (n > 0 ==> line[n - 1] != ' ') && Unmarked(line[n..])
    ensures Marker(line[..n]) == Marker(line)
  {
    var r, k := line[..n], Run(line, ' ');
    RunPrefix(line, ' ', n);
    if k >= n {
      assert n == 0;
      if k < |line| {
        assert line[0..][k] == line[k];
      }
    } else {
      var c, rest, m := line[k], line[k..], n - k;
      assert r[k..] == rest[..m];
      RunPrefix(rest, c, m);
      var q := Run(rest, c);
      if c == '`' || c == '~' {
        assert rest[m..] == line[n..];
        assert m < |rest| ==> rest[m] == rest[m..][0];
        assert rest[..m][..q] == rest[..q];
        BacktickPrefix(rest, q, m);
      }
    }
  }

  lemma BacktickPrefix(s: string, q: nat, m: nat)
    requires q <= m <= |s| && Unmarked(s[m..])
    ensures '`' in s[q..] <==> '`' in s[..m][q..]
  {
    assert s[q..] == s[..m][q..] + s[m..];
  }

  /** Nor does trailing white space matter for fence markers. */
  lemma MarkerTrimEnd(line: string)
    ensures Marker(TrimEnd(line)) == Marker(line)
  {
    var r := TrimEnd(line);
    assert line[..|r|] == r;
    assert Unmarked(line[|r|..]);
    MarkerPrefix(line, |r|);
  }

  lemma NextFenceTrimEnd(fence: OpenFence, line: string)
    ensures NextFence(fence, TrimEnd(line)) == NextFence(fence, line)
  {
    MarkerTrimEnd(line);
    TrimTrimEnd(line);
  }
}
