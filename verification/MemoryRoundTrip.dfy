/** Printing a parsed memory document and parsing it again:
    when nothing changes, and when a line that was no heading
    becomes one. */
module MemoryRoundTrip {
  import opened MemoryText
  import opened MemoryDocument
  import opened Wrappers

  function FenceIn(body: string): OpenFence {
    FenceAfter(None, Split(body))
  }

  /** How many lines of a trimmed body read as headings on their own. */
  function Headings(body: string): nat {
    |GroupLines(None, Split(body)).groups|
  }

  /** A title and a trimmed body. */
  predicate SectionOk(s: Section) {
    TitleOk(s.title) && Normal(s.body)
  }

  /** Sections whose fences are closed, except that the last one may be open. */
  predicate SectionsOk(sections: seq<Section>, open: OpenFence) {
    forall i | 0 <= i < |sections| ::
      SectionOk(sections[i]) && FenceIn(sections[i].body) == (if i == |sections| - 1 then open else None)
  }

  /** What every parsed document is like. */
  ghost predicate Settled(d: Document) {
    && Normal(d.preamble)
    && exists open: OpenFence ::
         SectionsOk(d.sections, open) && FenceIn(d.preamble) == (if d.sections == [] then open else None) &&
         (d.unclosedFence <==> open.Some?)
  }

  /** No block of the document has a line that reads as a heading by itself. */
  predicate HeadingFree(d: Document) {
    Headings(d.preamble) == 0 && forall i | 0 <= i < |d.sections| :: Headings(d.sections[i].body) == 0
  }

  // ------------------------------------------------------------ printed lines

  function BodyPart(body: string): seq<string> {
    if body == "" then [] else Split(body)
  }

  function SectionLines(s: Section): seq<string> {
    ["## " + s.title] + (BodyPart(s.body) + [""])
  }

  function TailLines(sections: seq<Section>): seq<string> {
    if sections == [] then [] else SectionLines(sections[0]) + TailLines(sections[1..])
  }

  function HeadLines(preamble: string): seq<string> {
    if preamble == "" then [] else Split(preamble) + [""]
  }

  function DocumentLines(d: Document): seq<string> {
    HeadLines(d.preamble) + TailLines(d.sections)
  }

  lemma RenderedSection(s: Section)
    requires SectionOk(s)
    ensures RenderSection(s) != ""
    ensures Split(RenderSection(s)) == ["## " + s.title] + BodyPart(s.body)
  {
    NormalShape(s.body);
    var heading := "## " + s.title;
    assert heading[|heading| - 1] == s.title[|s.title| - 1];
    assert '\n' !in heading by {
      assert forall i | 0 <= i < |s.title| :: s.title[i] != '\n';
    }
    SplitNoNewline(heading);
    if s.body == "" {
      assert heading + "\n" + s.body == heading + "\n";
      TrimEndDropsLine(heading, "");
      assert heading + "\n" + "" == heading + "\n";
      TrimEndFixed(heading);
    } else {
      var text := heading + "\n" + s.body;
      assert text[|text| - 1] == s.body[|s.body| - 1];
      TrimEndFixed(text);
      SplitAtNewline(heading, s.body);
    }
  }

  function BlockLines(blocks: seq<string>): seq<string> {
    if blocks == [] then [] else Split(blocks[0]) + [""] + BlockLines(blocks[1..])
  }

  lemma {:induction false} SplitJoined(blocks: seq<string>)
    requires blocks != []
    ensures Split(JoinBlocks(blocks) + "\n") == BlockLines(blocks)
  {
    hide Split;
    var b := blocks[0];
    assert Split("") == [""] by { SplitNoNewline(""); }
    if |blocks| == 1 {
      assert b + "\n" == b + "\n" + "";
      SplitAtNewline(b, "");
      assert BlockLines(blocks) == Split(b) + [""] + [];
    } else {
      var rest := JoinBlocks(blocks[1..]) + "\n";
      SplitJoined(blocks[1..]);
      assert JoinBlocks(blocks) + "\n" == b + "\n" + ("" + "\n" + rest);
      SplitAtNewline(b, "" + "\n" + rest);
      SplitAtNewline("", rest);
      assert Split(b) + ([""] + Split(rest)) == Split(b) + [""] + Split(rest);
    }
  }

  lemma {:induction false} SectionBlockLines(sections: seq<Section>)
    requires forall i | 0 <= i < |sections| :: SectionOk(sections[i])
    ensures BlockLines(SectionBlocks(sections)) == TailLines(sections)
    ensures SectionBlocks(sections) == [] <==> sections == []
  {
    hide SectionOk, RenderSection, BodyPart;
    if sections != [] {
      var s, rest := sections[0], SectionBlocks(sections[1..]);
      SectionBlockLines(sections[1..]);
      RenderedSection(s);
      assert SectionBlocks(sections) == [RenderSection(s)] + rest;
      FirstBlock(RenderSection(s), rest);
      assert ["## " + s.title] + BodyPart(s.body) + [""] == SectionLines(s);
    }
  }

  lemma FirstBlock(block: string, rest: seq<string>)
    ensures BlockLines([block] + rest) == Split(block) + [""] + BlockLines(rest)
  {
    assert ([block] + rest)[1..] == rest;
  }

  lemma SplitRender(d: Document)
    requires Normal(d.preamble) && forall i | 0 <= i < |d.sections| :: SectionOk(d.sections[i])
    ensures Split(Render(d)) == if DocumentLines(d) == [] then [""] else DocumentLines(d)
  {
    SectionBlockLines(d.sections);
    var blocks, rest := Blocks(d), SectionBlocks(d.sections);
    if d.preamble == "" {
      assert blocks == rest;
      assert DocumentLines(d) == TailLines(d.sections);
    } else {
      assert blocks[0] == d.preamble && blocks[1..] == rest;
      assert BlockLines(blocks) == Split(d.preamble) + [""] + BlockLines(rest);
    }
    if blocks != [] {
      SplitJoined(blocks);
    } else {
      EmptyGroup();
    }
  }

  // --------------------------------------------------------- grouped once more

  lemma HeadingLine(title: string)
    requires TitleOk(title)
    ensures TitleOf(None, "## " + title) == Some(title) && NextFence(None, "## " + title) == None
  {
    var line := "## " + title;
    assert Run(line, ' ') == 0;
    assert Run(line[0..], '#') == 2 by {
      assert line[0..] == line;
      assert line[0] == '#' && line[1] == '#' && line[2] == ' ';
    }
    assert Marker(line).None?;
    assert line[..3] == "## " && line[3..] == title;
    assert forall i | 3 <= i < |line| :: line[i] == title[i - 3];
    assert TrimStart(title) == title;
    TrimEndFixed(title);
  }

  lemma FenceInBody(body: string)
    ensures FenceAfter(None, BodyPart(body) + [""]) == FenceIn(body)
    ensures |GroupLines(None, BodyPart(body) + [""]).groups| == Headings(body)
    ensures Headings(body) == 0 ==> GroupLines(None, BodyPart(body) + [""]).before == BodyPart(body) + [""]
  {
    EmptyGroup();
    if body == "" {
      assert [] + [""] == [""];
    } else {
      var fence := FenceIn(body);
      FenceAppend(None, Split(body), [""]);
      GroupAppend(None, Split(body), [""]);
      SpaceLineIsNeutral(fence, "");
      assert GroupLines(fence, [""]) == Groups([""], []);
      if Headings(body) == 0 {
        NoTitlesGroups(None, Split(body));
      }
    }
  }

  /** The group a printed section is read back as. */
  function Reread(s: Section): Group {
    Group(s.title, BodyPart(s.body) + [""])
  }

  function Rereads(sections: seq<Section>): seq<Group> {
    seq(|sections|, i requires 0 <= i < |sections| => Reread(sections[i]))
  }

  lemma OneSectionFence(s: Section)
    requires SectionOk(s)
    ensures FenceAfter(None, SectionLines(s)) == FenceIn(s.body)
  {
    hide GroupLines, FenceIn;
    HeadingLine(s.title);
    FenceInBody(s.body);
    var lines := SectionLines(s);
    assert lines[0] == "## " + s.title && lines[1..] == BodyPart(s.body) + [""];
  }

  lemma OneSectionGroups(s: Section)
    requires SectionOk(s)
    ensures |GroupLines(None, SectionLines(s)).groups| == 1 + Headings(s.body)
    ensures Headings(s.body) == 0 ==> GroupLines(None, SectionLines(s)) == Groups([], [Reread(s)])
  {
    HeadingLine(s.title);
    FenceInBody(s.body);
    var lines := SectionLines(s);
    assert lines[0] == "## " + s.title && lines[1..] == BodyPart(s.body) + [""];
    if Headings(s.body) == 0 {
      assert [Reread(s)] + [] == [Reread(s)];
    }
  }

  function TotalHeadings(sections: seq<Section>): nat {
    if sections == [] then 0 else Headings(sections[0].body) + TotalHeadings(sections[1..])
  }

  lemma NoSections(sections: seq<Section>)
    requires sections == []
    ensures FenceAfter(None, TailLines(sections)) == None
    ensures GroupLines(None, TailLines(sections)) == Groups([], []) && Rereads(sections) == []
  {
  }

  lemma OneReread(sections: seq<Section>)
    requires |sections| == 1
    ensures Rereads(sections) == [Reread(sections[0])]
  {
  }

  lemma {:induction false} TailGroups(sections: seq<Section>, open: OpenFence)
    requires SectionsOk(sections, open)
    ensures FenceAfter(None, TailLines(sections)) == (if sections == [] then None else open)
    ensures |GroupLines(None, TailLines(sections)).groups| == |sections| + TotalHeadings(sections)
    ensures TotalHeadings(sections) == 0 ==> GroupLines(None, TailLines(sections)) == Groups([], Rereads(sections))
  {
    hide SectionLines, Headings, SectionOk, FenceIn, GroupLines, FenceAfter, Attach, Rereads, Reread;
    if sections == [] {
      NoSections(sections);
    } else {
      var s, rest := sections[0], sections[1..];
      OneSectionFence(s);
      OneSectionGroups(s);
      FenceAppend(None, SectionLines(s), TailLines(rest));
      GroupAppend(None, SectionLines(s), TailLines(rest));
      if rest == [] {
        assert SectionLines(s) + [] == SectionLines(s);
        OneReread(sections);
      } else {
        assert SectionsOk(rest, open) by {
          assert forall i | 0 <= i < |rest| :: rest[i] == sections[i + 1];
        }
        TailGroups(rest, open);
        AttachCount(GroupLines(None, SectionLines(s)), GroupLines(None, TailLines(rest)));
        AttachOne(s, sections);
      }
    }
  }

  lemma AttachOne(s: Section, sections: seq<Section>)
    requires sections != [] && s == sections[0]
    ensures Attach(Groups([], [Reread(s)]), Groups([], Rereads(sections[1..]))) == Groups([], Rereads(sections))
  {
    var g := Reread(s);
    assert g.lines + [] == g.lines;
    assert [g][..0] + [Group(g.title, g.lines + [])] == [g];
    assert Rereads(sections) == [g] + Rereads(sections[1..]);
  }

  lemma RereadBody(body: string)
    requires Normal(body)
    ensures TrimBlankLines(Unlines(BodyPart(body) + [""])) == body
  {
    EmptyGroup();
    if body == "" {
      assert [] + [""] == [""];
    } else {
      NormalShape(body);
      var lines := Split(body);
      UnlinesSplit(body);
      UnlinesAppend(lines, [""]);
      assert Unlines(lines + [""]) == body + "\n" == body + "\n" + "";
      SplitAtNewline(body, "");
      var all := lines + [""];
      assert Split(body + "\n") == all;
      FirstLineKept(body);
      TrimEndDropsLine(body, "");
    }
  }

  lemma FirstLineKept(body: string)
    requires Normal(body) && body != ""
    ensures DropBlank(Split(body) + [""]) == Split(body) + [""]
  {
    NormalShape(body);
    var lines := Split(body);
    if |lines| == 1 {
      UnlinesSplit(body);
      assert lines[0] == body;
      assert !BlankLine(body) by {
        BlankIsSpaceUnless(body);
      }
    } else {
      assert |DropBlank(lines[1..])| < |lines|;
      assert !BlankLine(lines[0]);
    }
  }

  lemma BlankIsSpaceUnless(line: string)
    requires line != "" && !IsSpace(line[|line| - 1])
    ensures !BlankLine(line)
  {
  }

  lemma RereadSections(sections: seq<Section>)
    requires forall i | 0 <= i < |sections| :: SectionOk(sections[i])
    ensures ToSections(Rereads(sections)) == sections
  {
    forall i | 0 <= i < |sections|
      ensures ToSection(Rereads(sections)[i]) == sections[i]
    {
      assert SectionOk(sections[i]);
      RereadBody(sections[i].body);
    }
  }

  // -------------------------------------------------------------- main results

  /** How the printed lines of a document are grouped when they are read again. */
  ghost predicate GroupedAgain(lines: seq<string>, preamble: string, sections: seq<Section>, open: OpenFence) {
    && FenceAfter(None, lines) == open
    && |GroupLines(None, lines).groups| == Headings(preamble) + |sections| + TotalHeadings(sections)
    && (Headings(preamble) == 0 && TotalHeadings(sections) == 0 ==>
          GroupLines(None, lines).groups == Rereads(sections) &&
          TrimBlankLines(Unlines(GroupLines(None, lines).before)) == preamble)
  }

  lemma GroupsWithoutPreamble(sections: seq<Section>, open: OpenFence)
    requires SectionsOk(sections, open)
    ensures GroupedAgain(if sections == [] then [""] else TailLines(sections), "", sections,
                         if sections == [] then None else open)
  {
    hide SectionsOk, TailLines, TrimBlankLines;
    EmptyGroup();
    TailGroups(sections, open);
  }

  lemma GroupsWithPreamble(preamble: string, sections: seq<Section>, open: OpenFence)
    requires preamble != "" && Normal(preamble) && SectionsOk(sections, open)
    requires FenceIn(preamble) == (if sections == [] then open else None)
    ensures GroupedAgain(Split(preamble) + [""] + TailLines(sections), preamble, sections, open)
  {
    hide SectionsOk, TrimBlankLines, FenceAfter, FenceIn, GroupLines, Headings, Normal;
    TailGroups(sections, open);
    FenceInBody(preamble);
    RereadBody(preamble);
    var head, tail := BodyPart(preamble) + [""], TailLines(sections);
    FenceAppend(None, head, tail);
    GroupAppend(None, head, tail);
    if sections == [] {
      assert head + tail == head;
    } else if Headings(preamble) == 0 {
      assert head + [] == head;
    }
  }

  lemma DocumentGroups(d: Document, open: OpenFence)
    requires Normal(d.preamble) && SectionsOk(d.sections, open)
    requires FenceIn(d.preamble) == (if d.sections == [] then open else None)
    ensures GroupedAgain(Split(Render(d)), d.preamble, d.sections, open)
  {
    hide SectionOk, TailLines, GroupedAgain, Render, FenceIn, Normal;
    assert forall i | 0 <= i < |d.sections| :: SectionOk(d.sections[i]);
    SplitRender(d);
    if d.preamble == "" {
      NoLinesNoSections(d.sections);
      EmptyPreambleFence();
      GroupsWithoutPreamble(d.sections, open);
      assert DocumentLines(d) == TailLines(d.sections);
    } else {
      GroupsWithPreamble(d.preamble, d.sections, open);
    }
  }

  lemma EmptyPreambleFence()
    ensures FenceIn("") == None
  {
    EmptyGroup();
  }

  lemma NoLinesNoSections(sections: seq<Section>)
    ensures TailLines(sections) == [] <==> sections == []
  {
  }

  lemma {:induction false} NoHeadingsInTotal(sections: seq<Section>)
    ensures TotalHeadings(sections) == 0 <==> forall i | 0 <= i < |sections| :: Headings(sections[i].body) == 0
  {
    hide Headings;
    if sections != [] {
      NoHeadingsInTotal(sections[1..]);
      assert forall i | 0 < i < |sections| :: sections[i] == sections[1..][i - 1];
    }
  }

  /** For every settled document: printing and parsing gives it back exactly when none
      of its blocks has a line that reads as a heading. */
  lemma SettledRoundTrip(d: Document)
    requires Settled(d)
    ensures Parse(Render(d)) == d <==> HeadingFree(d)
  {
    var open: OpenFence :| SectionsOk(d.sections, open) &&
      FenceIn(d.preamble) == (if d.sections == [] then open else None) && (d.unclosedFence <==> open.Some?);
    DocumentGroups(d, open);
    NoHeadingsInTotal(d.sections);
    if HeadingFree(d) {
      RereadSections(d.sections);
    }
  }

  lemma BodyOfGroup(lines: seq<string>)
    requires OneLiners(lines)
    ensures Normal(TrimBlankLines(Unlines(lines)))
    ensures FenceIn(TrimBlankLines(Unlines(lines))) == FenceAfter(None, lines)
  {
    EmptyGroup();
    TrimmedIsNormal(Unlines(lines));
    if lines == [] {
      assert Unlines(lines) == "";
    } else {
      SplitOfBody(lines);
      DropBlankIsNeutral(lines);
      FenceAfterTrimEnd(None, DropBlank(lines));
    }
  }

  /** Whatever is parsed is settled. */
  lemma ParsedIsSettled(text: string)
    ensures Settled(Parse(text))
  {
    var lines := Split(text);
    var g, d, open := GroupLines(None, lines), Parse(text), FenceAfter(None, lines);
    GroupingOk(None, lines);
    BodyOfGroup(g.before);
    forall i | 0 <= i < |d.sections|
      ensures SectionOk(d.sections[i]) && FenceIn(d.sections[i].body) == (if i == |d.sections| - 1 then open else None)
    {
      assert GroupOk(g.groups[i]);
      BodyOfGroup(g.groups[i].lines);
    }
    assert SectionsOk(d.sections, open);
  }

  /** The round trip, for every text whatsoever. */
  lemma RoundTrip(text: string)
    ensures Parse(Render(Parse(text))) == Parse(text) <==> HeadingFree(Parse(text))
  {
    ParsedIsSettled(text);
    SettledRoundTrip(Parse(text));
  }

  // ------------------------------------------------- texts with ordinary line ends

  predicate IsOddTerminator(c: char) {
    c != '\n' && IsLineTerminator(c)
  }

  /** No lone carriage return and no Unicode line or paragraph separator. */
  predicate Ordinary(text: string) {
    forall i | 0 <= i < |text| :: !IsOddTerminator(text[i])
  }

  predicate OrdinaryLines(lines: seq<string>) {
    forall i | 0 <= i < |lines| :: Ordinary(lines[i])
  }

  lemma {:induction false} SplitOrdinary(text: string)
    requires Ordinary(text)
    ensures OrdinaryLines(Split(text))
  {
    if text != [] {
      SplitOrdinary(text[1..]);
    }
  }

  lemma TitleTrimEnd(fence: OpenFence, line: string)
    requires Ordinary(line) && '\n' !in line && TitleOf(fence, line).None?
    ensures TitleOf(fence, TrimEnd(line)).None?
  {
    MarkerTrimEnd(line);
    var r := TrimEnd(line);
    if IsHeading(r) {
      assert line[..3] == r[..3] && line[3] == r[3];
      assert forall i | 0 <= i < |line| :: !IsLineTerminator(line[i]);
    }
  }

  lemma LastLineTitle(fence: OpenFence, front: seq<string>, last: string)
    ensures NoTitles(fence, front + [last]) <==> NoTitles(fence, front) && TitleOf(FenceAfter(fence, front), last).None?
  {
    hide TitleOf, NextFence, Attach;
    var f := FenceAfter(fence, front);
    GroupAppend(fence, front, [last]);
    AttachCount(GroupLines(fence, front), GroupLines(f, [last]));
    assert GroupLines(f, [last]).groups == [] <==> TitleOf(f, last).None?;
  }

  lemma {:induction false} TrimEndKeepsTitles(fence: OpenFence, lines: seq<string>)
    requires |lines| > 0 && OneLiners(lines) && OrdinaryLines(lines) && NoTitles(fence, lines)
    ensures NoTitles(fence, TrimEndLines(lines))
    decreases |lines|
  {
    hide IsLineTerminator, IsSpace, AllSpace, TrimEnd, TitleOf, NextFence, FenceAfter, Ordinary;
    var n := |lines|;
    var front, last := lines[..n - 1], lines[n - 1];
    var f := FenceAfter(fence, front);
    LastLineTitle(fence, front, last);
    assert lines == front + [last];
    if n > 1 && AllSpace(last) {
      TrimEndKeepsTitles(fence, front);
    } else {
      TitleTrimEnd(f, last);
      LastLineTitle(fence, front, TrimEnd(last));
    }
  }

  lemma {:induction false} GroupedLinesOrdinary(fence: OpenFence, lines: seq<string>)
    requires OrdinaryLines(lines)
    ensures OrdinaryLines(GroupLines(fence, lines).before)
    ensures forall i | 0 <= i < |GroupLines(fence, lines).groups| ::
      OrdinaryLines(GroupLines(fence, lines).groups[i].lines)
    decreases |lines|
  {
    hide TitleOf, NextFence, Ordinary;
    if lines != [] {
      GroupedLinesOrdinary(NextFence(fence, lines[0]), lines[1..]);
    }
  }

  lemma OrdinaryBody(lines: seq<string>)
    requires OneLiners(lines) && OrdinaryLines(lines) && NoTitles(None, lines)
    ensures Headings(TrimBlankLines(Unlines(lines))) == 0
  {
    EmptyGroup();
    if lines == [] {
      assert Unlines(lines) == "";
    } else {
      SplitOfBody(lines);
      DropBlankIsNeutral(lines);
      DropBlankKeeps(lines);
      DropBlankOrdinary(lines);
      TrimEndKeepsTitles(None, DropBlank(lines));
    }
  }

  lemma {:induction false} DropBlankOrdinary(lines: seq<string>)
    requires OrdinaryLines(lines)
    ensures OrdinaryLines(DropBlank(lines))
    decreases |lines|
  {
    if |lines| > 1 && BlankLine(lines[0]) {
      DropBlankOrdinary(lines[1..]);
    }
  }

  /** Reading back what was printed loses nothing, for every text with ordinary line ends. */
  lemma OrdinaryRoundTrip(text: string)
    requires Ordinary(text)
    ensures HeadingFree(Parse(text)) && Parse(Render(Parse(text))) == Parse(text)
  {
    var lines := Split(text);
    var g, d := GroupLines(None, lines), Parse(text);
    SplitOrdinary(text);
    GroupingOk(None, lines);
    GroupedLinesOrdinary(None, lines);
    OrdinaryBody(g.before);
    forall i | 0 <= i < |d.sections|
      ensures Headings(d.sections[i].body) == 0
    {
      assert GroupOk(g.groups[i]);
      OrdinaryBody(g.groups[i].lines);
    }
    RoundTrip(text);
  }

  lemma HiddenHeading()
    ensures Parse("## a\r").preamble == "## a"
  {
    hide Marker, TrimEnd, Split, NextFence, IsSpace, TitleOf;
    var text, line := "## a\r", "## a";
    SplitNoNewline(text);
    ReturnHidesHeading();
    assert GroupLines(None, [text]).before == [text] + GroupLines(NextFence(None, text), []).before == [text];
    assert DropBlank([text]) == [text];
    assert Unlines([text]) == text;
    TrimReturn();
  }

  lemma ReturnHidesHeading()
    ensures TitleOf(None, "## a\r") == None && !BlankLine("## a\r")
  {
    hide Marker;
    var text := "## a\r";
    assert IsLineTerminator(text[4]) && text[0] == '#';
  }

  lemma TrimReturn()
    ensures TrimEnd("## a\r") == "## a"
  {
    hide TrimEnd;
    var line := "## a";
    assert "## a\r" == line + "\r" && AllSpace("\r");
    TrimEndAppendSpace(line, "\r");
    TrimEndFixed(line);
  }

  lemma LetterTitle()
    ensures TitleOk("a")
  {
  }

  lemma BareHeading()
    ensures Headings("## a") == 1
  {
    hide Marker, TrimEnd, NextFence, Split, TitleOf, IsSpace;
    SplitNoNewline("## a");
    LetterTitle();
    HeadingLine("a");
    assert "## " + "a" == "## a";
    assert GroupLines(None, ["## a"]).groups == [Group("a", [])];
  }

  /** A carriage return at the end of a line hides a heading only until the text is
      trimmed: this preamble comes back as a section. */
  lemma CarriageReturnBreaksRoundTrip()
    ensures Parse(Render(Parse("## a\r"))) != Parse("## a\r")
  {
    hide Parse, Render;
    HiddenHeading();
    BareHeading();
    RoundTrip("## a\r");
  }
}
