/** What opens and what closes a code fence (`extensions/memory/index.ts`). */
module MemoryFences {
  // The scanner's fence state, on lines written out as runs of characters.

  import opened MemoryText
  import opened MemoryDocument
  import opened Wrappers

  function Repeat(c: char, n: nat): string {
    seq(n, i => c)
  }

  /** `k` spaces, a run of `n` times `c`, and the rest of the line. */
  function RunLine(k: nat, c: char, n: nat, rest: string): string {
    Repeat(' ', k) + Repeat(c, n) + rest
  }

  /** A line that opens a fence of `n` times `c`: a backtick fence has no further backtick. */
  ghost predicate Opens(line: string, c: char, n: nat) {
    n >= 3 && exists k: nat, info: string ::
      && k <= 3 && line == RunLine(k, c, n, info) && (info != [] ==> info[0] != c)
      && (c == '~' || (c == '`' && '`' !in info))
  }

  /** A line that closes one: the same character, at least as often, and nothing after it. */
  ghost predicate ClosesRun(line: string, c: char, n: nat) {
    exists k: nat, m: nat, rest: string :: k <= 3 && m >= n && line == RunLine(k, c, m, rest) && AllSpace(rest)
  }

  // ---------------------------------------------------------------- reading a run

  lemma {:induction false} RunOf(c: char, n: nat, rest: string)
    requires rest != [] ==> rest[0] != c
    ensures Run(Repeat(c, n) + rest, c) == n
  {
    if n > 0 {
      assert (Repeat(c, n) + rest)[1..] == Repeat(c, n - 1) + rest;
      RunOf(c, n - 1, rest);
    } else {
      assert Repeat(c, n) + rest == rest;
    }
  }

  /** A line splits into its leading run and the rest. */
  lemma RunSplits(s: string, c: char)
    ensures s == Repeat(c, Run(s, c)) + s[Run(s, c)..]
  {
  }

  lemma MarkerOfRun(k: nat, c: char, n: nat, rest: string)
    requires n > 0 && c != ' ' && (rest != [] ==> rest[0] != c)
    ensures Marker(RunLine(k, c, n, rest)) ==
      if k <= 3 && n >= 3 && (c == '~' || (c == '`' && '`' !in rest)) then Some(Repeat(c, n)) else None
  {
    var line := RunLine(k, c, n, rest);
    var tail := Repeat(c, n) + rest;
    assert line == Repeat(' ', k) + tail && tail[0] == c;
    RunOf(' ', k, tail);
    assert line[k..] == tail && line[k] == c;
    RunOf(c, n, rest);
    assert tail[n..] == rest && tail[..n] == Repeat(c, n);
  }

  /** What `FENCE` matches, for every line. */
  lemma MarkerMeaning(line: string, c: char, n: nat)
    ensures Marker(line) == Some(Repeat(c, n)) && n >= 3 <==> Opens(line, c, n)
  {
    if Opens(line, c, n) {
      var k: nat, info: string :|
        k <= 3 && line == RunLine(k, c, n, info) && (info != [] ==> info[0] != c) &&
        (c == '~' || (c == '`' && '`' !in info));
      MarkerOfRun(k, c, n, info);
    }
    if Marker(line) == Some(Repeat(c, n)) && n >= 3 {
      var k, d, m, rest := Parts(line);
      MarkerOfRun(k, d, m, rest);
      assert Repeat(d, m)[0] == d && Repeat(c, n)[0] == c && |Repeat(d, m)| == m && |Repeat(c, n)| == n;
    }
  }

  /** The parts of a line with a marker. */
  lemma Parts(line: string) returns (k: nat, c: char, n: nat, rest: string)
    requires Marker(line).Some?
    ensures n > 0 && c != ' ' && (rest != [] ==> rest[0] != c) && line == RunLine(k, c, n, rest)
    ensures Marker(line) == Some(Repeat(c, n)) && k <= 3 && n >= 3 && (c == '~' || (c == '`' && '`' !in rest))
  {
    k := Run(line, ' ');
    RunSplits(line, ' ');
    var tail := line[k..];
    c, n := line[k], Run(tail, line[k]);
    rest := tail[n..];
    RunSplits(tail, c);
    assert rest != [] ==> rest[0] == tail[n];
    MarkerOfRun(k, c, n, rest);
  }

  // ----------------------------------------------------------------- closing a run

  lemma SpacesAreSpace(k: nat)
    ensures AllSpace(Repeat(' ', k))
  {
  }

  lemma {:induction false} SpaceRunOf(w: string, s: string)
    requires AllSpace(w) && (s != [] ==> !IsSpace(s[0]))
    ensures SpaceRun(w + s) == |w|
  {
    hide IsSpace;
    if w == [] {
      assert w + s == s;
    } else {
      assert (w + s)[1..] == w[1..] + s;
      SpaceRunOf(w[1..], s);
    }
  }

  /** `trim` leaves the run and what stands after it up to the last visible character. */
  lemma TrimRun(k: nat, c: char, n: nat, rest: string)
    requires n > 0 && !IsSpace(c)
    ensures
      var t := Trim(RunLine(k, c, n, rest));
      |t| >= n && t[n..] == TrimEnd(rest)
  {
    hide IsSpace, SpaceRun, TrimEnd;
    var tail := Repeat(c, n) + rest;
    SpacesAreSpace(k);
    assert RunLine(k, c, n, rest) == Repeat(' ', k) + tail && tail[0] == c;
    SpaceRunOf(Repeat(' ', k), tail);
    assert TrimStart(RunLine(k, c, n, rest)) == tail;
    if TrimEnd(rest) == [] {
      TrimEndAppendSpace(Repeat(c, n), rest);
      TrimEndFixed(Repeat(c, n));
      assert Repeat(c, n)[n..] == [];
    } else {
      TrimEndAppend(Repeat(c, n), rest);
    }
  }

  lemma TrimIsEmpty(s: string)
    ensures Trim(TrimEnd(s)) == "" <==> AllSpace(s)
  {
    TrimTrimEnd(s);
    if AllSpace(s) {
      SpaceRunAll(s);
      assert TrimEnd("") == "";
    }
  }

  lemma SpaceRunAll(s: string)
    requires AllSpace(s)
    ensures TrimStart(s) == ""
  {
  }

  lemma MarksAreVisible()
    ensures !IsSpace('`') && !IsSpace('~')
  {
  }

  lemma SameRun(c: char, n: nat, d: char, m: nat)
    requires n > 0 && m > 0
    ensures Repeat(d, m)[0] == Repeat(c, n)[0] <==> c == d
    ensures |Repeat(c, n)| == n && |Repeat(d, m)| == m
  {
  }

  /** A line that starts with a run is closed by its own reading. */
  lemma ClosesRunLine(k: nat, d: char, m: nat, rest: string, c: char, n: nat)
    requires n >= 3 && (c == '`' || c == '~') && m > 0 && d != ' ' && (rest != [] ==> rest[0] != d)
    ensures Closes(Repeat(c, n), RunLine(k, d, m, rest)) <==> k <= 3 && d == c && m >= n && AllSpace(rest)
  {
    hide IsSpace, Marker, Trim;
    MarksAreVisible();
    var line := RunLine(k, d, m, rest);
    MarkerOfRun(k, d, m, rest);
    SameRun(c, n, d, m);
    if AllSpace(rest) {
      assert '`' !in rest;
    }
    if Marker(line).Some? && d == c && m >= n {
      TrimRun(k, d, m, rest);
      TrimIsEmpty(rest);
    }
  }

  /** An open fence of `n` times `c` is closed by exactly these lines, and by no other:
      a shorter run, the other character, or text after the run leave it open. */
  lemma ClosesMeaning(line: string, c: char, n: nat)
    requires n >= 3 && (c == '`' || c == '~')
    ensures NextFence(Some(Repeat(c, n)), line) == if ClosesRun(line, c, n) then None else Some(Repeat(c, n))
  {
    hide IsSpace, Marker, Trim;
    MarksAreVisible();
    if ClosesRun(line, c, n) {
      var k: nat, m: nat, rest: string :| k <= 3 && m >= n && line == RunLine(k, c, m, rest) && AllSpace(rest);
      ClosesRunLine(k, c, m, rest, c, n);
    }
    if Closes(Repeat(c, n), line) {
      var k, d, m, rest := Parts(line);
      ClosesRunLine(k, d, m, rest, c, n);
    }
  }

  /** A fence that is not open is opened by exactly the opening lines. */
  lemma OpensMeaning(line: string, c: char, n: nat)
    requires n >= 3
    ensures NextFence(None, line) == Some(Repeat(c, n)) <==> Opens(line, c, n)
    ensures NextFence(None, line).None? <==> forall d, m :: !Opens(line, d, m)
  {
    hide Marker;
    MarkerMeaning(line, c, n);
    forall d, m | Opens(line, d, m)
      ensures Marker(line).Some?
    {
      MarkerMeaning(line, d, m);
    }
    if Marker(line).Some? {
      var k, d, m, rest := Parts(line);
      MarkerMeaning(line, d, m);
    }
  }

  // ------------------------------------------------------------------- whole blocks

  /** Inside an open fence nothing is a heading, and it stays open without a closing line. */
  lemma {:induction false} StaysOpen(body: seq<string>, c: char, n: nat)
    requires n >= 3 && (c == '`' || c == '~') && forall i | 0 <= i < |body| :: !ClosesRun(body[i], c, n)
    ensures FenceAfter(Some(Repeat(c, n)), body) == Some(Repeat(c, n))
    ensures GroupLines(Some(Repeat(c, n)), body) == Groups(body, [])
    decreases |body|
  {
    hide NextFence, ClosesRun;
    if body != [] {
      ClosesMeaning(body[0], c, n);
      StaysOpen(body[1..], c, n);
      assert [body[0]] + body[1..] == body;
    }
  }

  /** A fenced block is one piece: after its closing line no fence is open, none of its
      lines is a heading whatever they look like, and a heading below it is found. */
  lemma BlockIsOnePiece(first: string, body: seq<string>, last: string, heading: string, rest: seq<string>, c: char,
    n: nat)
    requires Opens(first, c, n) && ClosesRun(last, c, n) && IsHeading(heading)
    requires forall i | 0 <= i < |body| :: !ClosesRun(body[i], c, n)
    ensures
      var block := [first] + body + [last];
      var below := GroupLines(None, rest);
      && FenceAfter(None, [first] + body) == Some(Repeat(c, n)) && FenceAfter(None, block) == None
      && GroupLines(None, block) == Groups(block, [])
      && GroupLines(None, block + [heading] + rest) ==
           Groups(block, [Group(Trim(heading[3..]), below.before)] + below.groups)
  {
    hide NextFence, Marker, Trim, ClosesRun, Opens, IsHeading, GroupLines, TitleOf;
    var open, block := [first] + body, [first] + body + [last];
    OpensClosable(first, c, n);
    StaysOpen(body, c, n);
    ClosesMeaning(last, c, n);
    OneLine(None, first);
    OneLine(Some(Repeat(c, n)), last);
    FenceAppend(None, [first], body);
    FenceAppend(None, open, [last]);
    GroupAppend(None, [first], body);
    GroupAppend(None, open, [last]);
    HeadingIsFound(heading, rest);
    GroupAppend(None, block, [heading] + rest);
    assert block + ([heading] + rest) == block + [heading] + rest && block + [] == block;
  }

  /** Only backticks and tildes open a fence, and its first line is no heading. */
  lemma OpensClosable(line: string, c: char, n: nat)
    requires Opens(line, c, n)
    ensures n >= 3 && (c == '`' || c == '~')
    ensures NextFence(None, line) == Some(Repeat(c, n)) && TitleOf(None, line) == None
  {
    MarkerMeaning(line, c, n);
  }

  lemma OneLine(fence: OpenFence, line: string)
    requires fence.Some? || TitleOf(fence, line) == None
    ensures FenceAfter(fence, [line]) == NextFence(fence, line)
    ensures GroupLines(fence, [line]) == Groups([line], [])
  {
    hide NextFence;
    assert [line][1..] == [];
    assert GroupLines(NextFence(fence, line), []) == Groups([], []);
    assert [line] + [] == [line];
  }

  lemma HeadingIsFound(heading: string, rest: seq<string>)
    requires IsHeading(heading)
    ensures
      var below := GroupLines(None, rest);
      GroupLines(None, [heading] + rest) == Groups([], [Group(Trim(heading[3..]), below.before)] + below.groups)
  {
    var line := heading;
    assert line[0] == line[..3][0] == '#';
    assert Run(line, ' ') == 0 && line[0..] == line;
    assert Marker(line).None?;
    assert ([heading] + rest)[1..] == rest;
  }
}
