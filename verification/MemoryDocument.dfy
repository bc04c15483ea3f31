/** Parsing and printing of memory documents
    (`extensions/memory/index.ts`): sections under level-two
    headings outside code fences. */
module MemoryDocument {
  import opened MemoryText
  import opened Wrappers

  datatype Section = Section(title: string, body: string)

  datatype Document = Document(preamble: string, sections: seq<Section>, unclosedFence: bool)

  /** A heading and the lines below it. */
  datatype Group = Group(title: string, lines: seq<string>)

  datatype Groups = Groups(before: seq<string>, groups: seq<Group>)

  function GroupLines(fence: OpenFence, lines: seq<string>): Groups
    decreases |lines|
  {
    if lines == [] then Groups([], [])
    else
      var rest := GroupLines(NextFence(fence, lines[0]), lines[1..]);
      match TitleOf(fence, lines[0])
      case Some(t) => Groups([], [Group(t, rest.before)] + rest.groups)
      case None => Groups([lines[0]] + rest.before, rest.groups)
  }

  function ToSection(g: Group): Section {
    Section(g.title, TrimBlankLines(Unlines(g.lines)))
  }

  function ToSections(gs: seq<Group>): seq<Section> {
    seq(|gs|, i requires 0 <= i < |gs| => ToSection(gs[i]))
  }

  function Parse(text: string): Document {
    var lines := Split(text);
    var g := GroupLines(None, lines);
    Document(TrimBlankLines(Unlines(g.before)), ToSections(g.groups), FenceAfter(None, lines).Some?)
  }

  function RenderSection(s: Section): string {
    TrimEnd("## " + s.title + "\n" + s.body)
  }

  /** The non-empty blocks of a document. */
  function SectionBlocks(sections: seq<Section>): seq<string> {
    if sections == [] then []
    else (if RenderSection(sections[0]) == "" then [] else [RenderSection(sections[0])]) + SectionBlocks(sections[1..])
  }

  function Blocks(d: Document): seq<string> {
    (if d.preamble == "" then [] else [d.preamble]) + SectionBlocks(d.sections)
  }

  function JoinBlocks(blocks: seq<string>): string {
    if |blocks| == 0 then "" else if |blocks| == 1 then blocks[0] else blocks[0] + "\n\n" + JoinBlocks(blocks[1..])
  }

  function Render(d: Document): string {
    if Blocks(d) == [] then "" else JoinBlocks(Blocks(d)) + "\n"
  }

  // ------------------------------------------------------- grouping, in pieces

  function Attach(g: Groups, h: Groups): Groups {
    if g.groups == [] then Groups(g.before + h.before, h.groups)
    else
      var last := g.groups[|g.groups| - 1];
      Groups(g.before, g.groups[..|g.groups| - 1] + [Group(last.title, last.lines + h.before)] + h.groups)
  }

  lemma AttachCount(g: Groups, h: Groups)
    ensures |Attach(g, h).groups| == |g.groups| + |h.groups|
  {
  }

  lemma {:induction false} FenceAppend(fence: OpenFence, a: seq<string>, b: seq<string>)
    ensures FenceAfter(fence, a + b) == FenceAfter(FenceAfter(fence, a), b)
    decreases |a|
  {
    hide NextFence;
    if a == [] {
      assert a + b == b;
    } else {
      assert (a + b)[0] == a[0] && (a + b)[1..] == a[1..] + b;
      FenceAppend(NextFence(fence, a[0]), a[1..], b);
    }
  }

  lemma {:induction false} GroupAppend(fence: OpenFence, a: seq<string>, b: seq<string>)
    ensures GroupLines(fence, a + b) == Attach(GroupLines(fence, a), GroupLines(FenceAfter(fence, a), b))
    decreases |a|
  {
    hide NextFence, TitleOf;
    if a == [] {
      assert a + b == b;
      assert [] + GroupLines(fence, b).before == GroupLines(fence, b).before;
    } else {
      var next := NextFence(fence, a[0]);
      assert (a + b)[0] == a[0] && (a + b)[1..] == a[1..] + b;
      GroupAppend(next, a[1..], b);
      var g, h := GroupLines(next, a[1..]), GroupLines(FenceAfter(fence, a), b);
      AttachStep(TitleOf(fence, a[0]), a[0], g, h);
    }
  }

  function Grow(title: Option<string>, line: string, rest: Groups): Groups {
    match title
    case Some(t) => Groups([], [Group(t, rest.before)] + rest.groups)
    case None => Groups([line] + rest.before, rest.groups)
  }

  lemma AttachStep(title: Option<string>, line: string, g: Groups, h: Groups)
    ensures Attach(Grow(title, line, g), h) == Grow(title, line, Attach(g, h))
  {
    var n := |g.groups|;
    match title
    case None =>
      assert ([line] + g.before) + h.before == [line] + (g.before + h.before);
    case Some(t) =>
      if n == 0 {
        assert [Group(t, g.before)] + g.groups == [Group(t, g.before)];
      } else {
        var grown := [Group(t, g.before)] + g.groups;
        var last := g.groups[n - 1];
        assert grown[|grown| - 1] == last;
        assert grown[..|grown| - 1] == [Group(t, g.before)] + g.groups[..n - 1];
        assert grown[..|grown| - 1] + [Group(last.title, last.lines + h.before)] + h.groups ==
               [Group(t, g.before)] + (g.groups[..n - 1] + [Group(last.title, last.lines + h.before)] + h.groups);
      }
  }

  /** No line of these is a heading. */
  predicate NoTitles(fence: OpenFence, lines: seq<string>) {
    GroupLines(fence, lines).groups == []
  }

  lemma {:induction false} NoTitlesGroups(fence: OpenFence, lines: seq<string>)
    requires NoTitles(fence, lines)
    ensures GroupLines(fence, lines) == Groups(lines, [])
    decreases |lines|
  {
    hide NextFence, TitleOf;
    if lines != [] {
      NoTitlesGroups(NextFence(fence, lines[0]), lines[1..]);
    }
  }

  // ------------------------------------------------ trimming a group of lines

  /** What `trimEnd` makes of the lines of a text. */
  function TrimEndLines(lines: seq<string>): (r: seq<string>)
    requires |lines| > 0
    ensures |r| > 0
  {
    var n := |lines|;
    if n > 1 && AllSpace(lines[n - 1]) then TrimEndLines(lines[..n - 1])
    else lines[..n - 1] + [TrimEnd(lines[n - 1])]
  }

  ghost predicate OneLiners(lines: seq<string>) {
    forall i | 0 <= i < |lines| :: '\n' !in lines[i]
  }

  lemma TrimEndDropsLine(text: string, last: string)
    requires AllSpace(last)
    ensures TrimEnd(text + "\n" + last) == TrimEnd(text)
  {
    assert text + "\n" + last == text + ("\n" + last);
    assert AllSpace("\n" + last);
    TrimEndAppendSpace(text, "\n" + last);
  }

  lemma {:induction false} TrimEndOfLines(lines: seq<string>)
    requires |lines| > 0 && OneLiners(lines)
    ensures TrimEnd(Unlines(lines)) == Unlines(TrimEndLines(lines))
    ensures OneLiners(TrimEndLines(lines))
  {
    hide IsSpace, AllSpace;
    var n := |lines|;
    var front, last := lines[..n - 1], lines[n - 1];
    if n == 1 {
      assert front + [TrimEnd(last)] == [TrimEnd(last)];
    } else {
      assert lines == front + [last];
      UnlinesAppend(front, [last]);
      if AllSpace(last) {
        TrimEndOfLines(front);
        TrimEndDropsLine(Unlines(front), last);
      } else {
        TrimEndAppend(Unlines(front) + "\n", last);
        UnlinesAppend(front, [TrimEnd(last)]);
      }
    }
  }

  lemma SpaceLineIsNeutral(fence: OpenFence, line: string)
    requires AllSpace(line)
    ensures NextFence(fence, line) == fence && TitleOf(fence, line).None?
  {
    assert Unmarked(line);
    assert Marker(line).None?;
  }

  lemma {:induction false} FenceAfterTrimEnd(fence: OpenFence, lines: seq<string>)
    requires |lines| > 0
    ensures FenceAfter(fence, TrimEndLines(lines)) == FenceAfter(fence, lines)
    decreases |lines|
  {
    hide NextFence, IsSpace, AllSpace, TrimEnd, GroupLines, Attach;
    var n := |lines|;
    var front, last := lines[..n - 1], lines[n - 1];
    assert lines == front + [last];
    FenceAppend(fence, front, [last]);
    assert FenceAfter(FenceAfter(fence, front), [last]) == NextFence(FenceAfter(fence, front), last);
    if n > 1 && AllSpace(last) {
      FenceAfterTrimEnd(fence, front);
      SpaceLineIsNeutral(FenceAfter(fence, front), last);
    } else {
      FenceAppend(fence, front, [TrimEnd(last)]);
      NextFenceTrimEnd(FenceAfter(fence, front), last);
      assert FenceAfter(FenceAfter(fence, front), [TrimEnd(last)]) ==
        NextFence(FenceAfter(fence, front), TrimEnd(last));
    }
  }

  lemma BlankIsSpace(line: string)
    requires BlankLine(line)
    ensures AllSpace(line)
  {
  }

  lemma {:induction false} DropBlankIsNeutral(lines: seq<string>)
    ensures FenceAfter(None, DropBlank(lines)) == FenceAfter(None, lines)
    ensures NoTitles(None, lines) ==> NoTitles(None, DropBlank(lines))
    decreases |lines|
  {
    if |lines| > 1 && BlankLine(lines[0]) {
      BlankIsSpace(lines[0]);
      SpaceLineIsNeutral(None, lines[0]);
      DropBlankIsNeutral(lines[1..]);
    }
  }

  lemma {:induction false} DropBlankKeeps(lines: seq<string>)
    requires OneLiners(lines)
    ensures OneLiners(DropBlank(lines))
    ensures |DropBlank(lines)| > 1 ==> !BlankLine(DropBlank(lines)[0])
    decreases |lines|
  {
    if |lines| > 1 && BlankLine(lines[0]) {
      DropBlankKeeps(lines[1..]);
    }
  }

  /** The lines of a trimmed text, in terms of the lines before trimming. */
  function BodyLines(lines: seq<string>): seq<string>
    requires |lines| > 0
  {
    TrimEndLines(DropBlank(lines))
  }

  lemma SplitOfBody(lines: seq<string>)
    requires |lines| > 0 && OneLiners(lines)
    ensures Split(TrimBlankLines(Unlines(lines))) == BodyLines(lines)
  {
    SplitUnlines(lines);
    DropBlankKeeps(lines);
    TrimEndOfLines(DropBlank(lines));
    SplitUnlines(BodyLines(lines));
  }

  lemma EmptyGroup()
    ensures Unlines([]) == Unlines([""]) == "" && TrimBlankLines("") == ""
    ensures Split("") == [""] && FenceAfter(None, [""]) == None && GroupLines(None, [""]) == Groups([""], [])
  {
    SpaceLineIsNeutral(None, "");
    assert Unlines(DropBlank([""])) == "";
  }

  /** A trimmed body is its own trimmed form. */
  predicate Normal(body: string) {
    TrimBlankLines(body) == body
  }

  lemma TrimmedIsNormal(text: string)
    ensures Normal(TrimBlankLines(text))
  {
    hide IsSpace, AllSpace, TrimEnd, TrimEndLines, Unlines, Split, BlankLine;
    var lines := Split(text);
    UnlinesSplit(text);
    SplitOfBody(lines);
    DropBlankKeeps(lines);
    var ds := DropBlank(lines);
    var r := TrimEndLines(ds);
    TrimEndLinesHead(ds);
    assert DropBlank(r) == r;
    SplitUnlines(lines);
    UnlinesSplit(TrimBlankLines(text));
    TrimEndFixed(TrimBlankLines(text));
  }

  lemma {:induction false} TrimEndLinesHead(lines: seq<string>)
    requires |lines| > 0
    ensures |TrimEndLines(lines)| > 1 ==> |lines| > 1 && TrimEndLines(lines)[0] == lines[0]
    decreases |lines|
  {
    if |lines| > 1 && AllSpace(lines[|lines| - 1]) {
      TrimEndLinesHead(lines[..|lines| - 1]);
    }
  }

  lemma {:induction false} UnlinesLength(lines: seq<string>)
    ensures |Unlines(DropBlank(lines))| <= |Unlines(lines)|
    ensures |Unlines(DropBlank(lines))| == |Unlines(lines)| ==> DropBlank(lines) == lines
    decreases |lines|
  {
    if |lines| > 1 && BlankLine(lines[0]) {
      UnlinesLength(lines[1..]);
    }
  }

  lemma NormalShape(body: string)
    requires Normal(body)
    ensures DropBlank(Split(body)) == Split(body)
    ensures TrimEnd(body) == body
    ensures body != "" ==> !IsSpace(body[|body| - 1])
  {
    UnlinesSplit(body);
    UnlinesLength(Split(body));
    var t := Unlines(DropBlank(Split(body)));
    assert |TrimEnd(t)| <= |t|;
  }

  // ------------------------------------------------------- what a parse yields

  predicate TitleOk(t: string) {
    t != "" && !IsSpace(t[0]) && !IsSpace(t[|t| - 1]) && forall i | 0 <= i < |t| :: !IsLineTerminator(t[i])
  }

  predicate OneLine(s: string) {
    forall i | 0 <= i < |s| :: !IsLineTerminator(s[i])
  }

  lemma TrimOneLine(s: string)
    requires OneLine(s) && Trim(s) != ""
    ensures TitleOk(Trim(s))
  {
    hide IsSpace, IsLineTerminator, SpaceRun, AllSpace;
    var start := TrimStart(s);
    var t := TrimEnd(start);
    assert t[0] == start[0];
    forall i | 0 <= i < |t|
      ensures !IsLineTerminator(t[i])
    {
      assert t[i] == start[i] == s[|s| - |start| + i];
    }
  }

  lemma TrimNotEmpty(s: string)
    requires s != "" && !IsSpace(s[0])
    ensures Trim(s) != ""
  {
    hide IsSpace;
    assert TrimStart(s) == s;
  }

  lemma TitlesAreOk(fence: OpenFence, line: string)
    requires TitleOf(fence, line).Some?
    ensures TitleOk(TitleOf(fence, line).value) && fence.None? && NextFence(fence, line).None?
  {
    hide IsSpace, IsLineTerminator, Marker, Trim, TitleOk;
    var s := line[3..];
    assert s[0] == line[3];
    assert forall i | 0 <= i < |s| :: s[i] == line[i + 3];
    TrimNotEmpty(s);
    TrimOneLine(s);
  }

  ghost predicate GroupOk(g: Group) {
    TitleOk(g.title) && NoTitles(None, g.lines) && OneLiners(g.lines)
  }

  /** Where a fence that is still open at the end of the text must be: in the last group. */
  ghost predicate FencesOk(fence: OpenFence, g: Groups, after: OpenFence) {
    && FenceAfter(fence, g.before) == (if g.groups == [] then after else None)
    && forall i | 0 <= i < |g.groups| ::
          FenceAfter(None, g.groups[i].lines) == (if i == |g.groups| - 1 then after else None)
  }

  /** Everything the groups of a document have in common. */
  ghost predicate GroupsOk(fence: OpenFence, g: Groups, after: OpenFence) {
    && NoTitles(fence, g.before) && OneLiners(g.before)
    && (forall i | 0 <= i < |g.groups| :: GroupOk(g.groups[i]))
    && FencesOk(fence, g, after)
  }

  lemma GroupingTitle(t: string, rest: Groups, after: OpenFence)
    requires TitleOk(t) && GroupsOk(None, rest, after)
    ensures GroupsOk(None, Groups([], [Group(t, rest.before)] + rest.groups), after)
  {
    hide TitleOk, NoTitles, OneLiners;
    var grown := Groups([], [Group(t, rest.before)] + rest.groups);
    assert NoTitles(None, []) && OneLiners([]) by { NothingGrouped(); }
    assert GroupOk(grown.groups[0]);
    assert forall i | 0 < i < |grown.groups| :: grown.groups[i] == rest.groups[i - 1];
  }

  lemma NothingGrouped()
    ensures NoTitles(None, []) && OneLiners([])
  {
  }

  lemma GroupingPlain(fence: OpenFence, next: OpenFence, line: string, rest: Groups, after: OpenFence)
    requires next == NextFence(fence, line) && TitleOf(fence, line).None? && '\n' !in line
    requires GroupsOk(next, rest, after)
    ensures GroupsOk(fence, Groups([line] + rest.before, rest.groups), after)
  {
    hide TitleOf, NextFence, TitleOk;
    assert ([line] + rest.before)[1..] == rest.before;
  }

  lemma {:induction false} GroupingOk(fence: OpenFence, lines: seq<string>)
    requires OneLiners(lines)
    ensures GroupsOk(fence, GroupLines(fence, lines), FenceAfter(fence, lines))
    decreases |lines|
  {
    if lines != [] {
      hide GroupsOk, NextFence, TitleOf, TitleOk;
      var next := NextFence(fence, lines[0]);
      var rest := GroupLines(next, lines[1..]);
      GroupingOk(next, lines[1..]);
      if TitleOf(fence, lines[0]).Some? {
        TitlesAreOk(fence, lines[0]);
        GroupingTitle(TitleOf(fence, lines[0]).value, rest, FenceAfter(fence, lines));
      } else {
        GroupingPlain(fence, next, lines[0], rest, FenceAfter(fence, lines));
      }
    }
  }
}
