/** Reading a memory document line by line and replacing
    one of its sections (`set_section` in
    `extensions/memory/index.ts`). */
module MemoryEdit {
  import opened MemoryText
  import opened MemoryDocument
  import opened MemoryRoundTrip
  import opened Wrappers

  const MAX_MEMORY_CHARS := 12000
  const MAX_SECTION_TITLE_CHARS := 80

  // ------------------------------------------------------------------ scanning

  /** The heading titles of the lines, each seen in the fence state that the lines
      before it leave behind. */
  method ScanHeadings(lines: seq<string>) returns (titles: seq<Option<string>>, unclosedFence: bool)
    ensures |titles| == |lines|
    ensures forall i | 0 <= i < |lines| :: titles[i] == TitleOf(FenceAfter(None, lines[..i]), lines[i])
    ensures unclosedFence <==> FenceAfter(None, lines).Some?
  {
    hide Closes, Marker, Trim, FenceAfter;
    titles := [];
    var fence: OpenFence := None;
    assert FenceAfter(None, lines[..0]) == None by { NoFenceYet(lines); }
    for i := 0 to |lines|
      invariant |titles| == i && fence == FenceAfter(None, lines[..i])
      invariant forall k | 0 <= k < i :: titles[k] == TitleOf(FenceAfter(None, lines[..k]), lines[k])
    {
      NextLineFence(lines, i);
      var line := lines[i];
      var marker := Marker(line);
      if fence.Some? {
        if Closes(fence.value, line) {
          fence := None;
        }
        titles := titles + [None];
      } else if marker.Some? {
        fence := marker;
        titles := titles + [None];
      } else {
        titles := titles + [if IsHeading(line) then Some(Trim(line[3..])) else None];
      }
    }
    assert lines[..|lines|] == lines;
    unclosedFence := fence.Some?;
  }

  lemma NoFenceYet(lines: seq<string>)
    ensures FenceAfter(None, lines[..0]) == None
  {
  }

  lemma NextLineFence(lines: seq<string>, i: nat)
    requires i < |lines|
    ensures FenceAfter(None, lines[..i + 1]) == NextFence(FenceAfter(None, lines[..i]), lines[i])
  {
    hide NextFence;
    assert lines[..i + 1] == lines[..i] + [lines[i]];
    FenceAppend(None, lines[..i], [lines[i]]);
  }

  lemma OneMoreLine(lines: seq<string>, i: nat, fence: OpenFence)
    requires i < |lines| && fence == FenceAfter(None, lines[..i])
    ensures
      GroupLines(None, lines[..i + 1]) ==
        Attach(GroupLines(None, lines[..i]), LoneLine(TitleOf(fence, lines[i]), lines[i]))
  {
    hide TitleOf, NextFence, Attach;
    assert lines[..i + 1] == lines[..i] + [lines[i]];
    GroupAppend(None, lines[..i], [lines[i]]);
    assert GroupLines(fence, [lines[i]]) == LoneLine(TitleOf(fence, lines[i]), lines[i]);
  }

  function LoneLine(title: Option<string>, line: string): Groups {
    if title.Some? then Groups([], [Group(title.value, [])]) else Groups([line], [])
  }

  ghost predicate Collected(g: Groups, preamble: seq<string>, sections: seq<Section>, bodies: seq<seq<string>>) {
    && g.before == preamble && |g.groups| == |sections| == |bodies|
    && forall k | 0 <= k < |sections| :: g.groups[k] == Group(sections[k].title, bodies[k])
  }

  lemma NothingCollected(lines: seq<string>)
    ensures Collected(GroupLines(None, lines[..0]), [], [], [])
  {
  }

  lemma CollectTitle(g: Groups, title: string, line: string, preamble: seq<string>, sections: seq<Section>,
    bodies: seq<seq<string>>)
    requires Collected(g, preamble, sections, bodies)
    ensures Collected(Attach(g, LoneLine(Some(title), line)), preamble, sections + [Section(title, "")], bodies + [[]])
  {
    var n := |g.groups|;
    if n > 0 {
      assert g.groups[..n - 1] + [g.groups[n - 1]] == g.groups;
      assert g.groups[n - 1].lines + [] == g.groups[n - 1].lines;
    }
  }

  lemma CollectLine(g: Groups, line: string, preamble: seq<string>, sections: seq<Section>, bodies: seq<seq<string>>)
    requires Collected(g, preamble, sections, bodies)
    ensures bodies == [] ==> Collected(Attach(g, LoneLine(None, line)), preamble + [line], sections, bodies)
    ensures bodies != [] ==>
      Collected(Attach(g, LoneLine(None, line)), preamble, sections,
        bodies[|bodies| - 1 := bodies[|bodies| - 1] + [line]])
  {
  }

  method FillBodies(titled: seq<Section>, bodies: seq<seq<string>>) returns (sections: seq<Section>)
    requires |titled| == |bodies|
    ensures |sections| == |titled|
    ensures forall k | 0 <= k < |titled| :: sections[k] == ToSection(Group(titled[k].title, bodies[k]))
  {
    hide TrimBlankLines, Unlines;
    sections := titled;
    for i := 0 to |titled|
      invariant |sections| == |titled|
      invariant forall k | 0 <= k < i :: sections[k] == ToSection(Group(titled[k].title, bodies[k]))
      invariant forall k | i <= k < |titled| :: sections[k] == titled[k]
    {
      sections := sections[i := Section(sections[i].title, TrimBlankLines(Unlines(bodies[i])))];
    }
  }

  method ParseDocument(document: string) returns (d: Document)
    ensures d == Parse(document)
  {
    hide Split, TitleOf, GroupLines, FenceAfter, Attach, LoneLine, TrimBlankLines, Unlines, ToSection;
    var lines := Split(document);
    var titles, unclosedFence := ScanHeadings(lines);
    var preamble: seq<string>, sections: seq<Section>, bodies: seq<seq<string>> := [], [], [];
    ghost var g := GroupLines(None, lines);
    NothingCollected(lines);
    for i := 0 to |lines|
      invariant Collected(GroupLines(None, lines[..i]), preamble, sections, bodies)
      invariant |sections| == |bodies|
    {
      hide Collected;
      OneMoreLine(lines, i, FenceAfter(None, lines[..i]));
      ghost var seen := GroupLines(None, lines[..i]);
      if titles[i].Some? {
        CollectTitle(seen, titles[i].value, lines[i], preamble, sections, bodies);
        sections, bodies := sections + [Section(titles[i].value, "")], bodies + [[]];
      } else if bodies != [] {
        CollectLine(seen, lines[i], preamble, sections, bodies);
        bodies := bodies[|bodies| - 1 := bodies[|bodies| - 1] + [lines[i]]];
      } else {
        CollectLine(seen, lines[i], preamble, sections, bodies);
        preamble := preamble + [lines[i]];
      }
    }
    assert lines[..|lines|] == lines;
    sections := FillBodies(sections, bodies);
    assert sections == ToSections(g.groups);
    d := Document(TrimBlankLines(Unlines(preamble)), sections, unclosedFence);
  }

  // ------------------------------------------------------------------ requests

  /** `replace(/\r\n/g, "\n")` */
  function UnixLines(text: string): string {
    if |text| >= 2 && text[0] == '\r' && text[1] == '\n' then ['\n'] + UnixLines(text[2..])
    else if text == [] then []
    else [text[0]] + UnixLines(text[1..])
  }

  /** Every run of white space becomes one space. */
  function CollapseSpace(s: string): (r: string)
    ensures forall i | 0 <= i < |r| :: IsSpace(r[i]) ==> r[i] == ' '
  {
    if s == [] then []
    else if !IsSpace(s[0]) then [s[0]] + CollapseSpace(s[1..])
    else if |s| > 1 && IsSpace(s[1]) then CollapseSpace(s[1..])
    else [' '] + CollapseSpace(s[1..])
  }

  /** Leading hashes, and the white space after them, are dropped. */
  function DropHashes(s: string): (r: string)
    ensures |r| <= |s| && r == s[|s| - |r|..]
  {
    var n := Run(s, '#');
    if n == 0 then s else TrimStart(s[n..])
  }

  function TitleFrom(section: Option<string>): string {
    Trim(DropHashes(CollapseSpace(if section.Some? then section.value else "")))
  }

  lemma SuffixOneLine(s: string, r: string)
    requires |r| <= |s| && r == s[|s| - |r|..] && OneLine(s)
    ensures OneLine(r)
  {
    assert forall i | 0 <= i < |r| :: r[i] == s[|s| - |r| + i];
  }

  /** A title made from a request is always a heading title, whatever was asked for. */
  lemma RequestedTitleOk(section: Option<string>)
    requires TitleFrom(section) != ""
    ensures TitleOk(TitleFrom(section))
  {
    hide Trim, IsSpace, IsLineTerminator, DropHashes, CollapseSpace, TitleOk;
    var s := CollapseSpace(if section.Some? then section.value else "");
    forall i | 0 <= i < |s|
      ensures !IsLineTerminator(s[i])
    {
      TerminatorIsSpace(s[i]);
    }
    SuffixOneLine(s, DropHashes(s));
    TrimOneLine(DropHashes(s));
  }

  lemma TerminatorIsSpace(c: char)
    ensures IsLineTerminator(c) ==> IsSpace(c) && c != ' '
  {
  }

  /** `length` counts UTF-16 units. */
  function Units(s: string): nat {
    if s == [] then 0 else (if s[0] as int >= 0x10000 then 2 else 1) + Units(s[1..])
  }

  predicate IsDigit(c: char) {
    '0' <= c <= '9'
  }

  predicate IsDate(s: string) {
    |s| == 10 && s[4] == '-' && s[7] == '-' &&
    forall i | 0 <= i < 10 && i != 4 && i != 7 :: IsDigit(s[i])
  }

  const STAMP_START := "<!-- updated: "
  const STAMP_END := " -->"

  predicate IsStamp(line: string) {
    |line| == 28 && line[..14] == STAMP_START && IsDate(line[14..24]) && line[24..] == STAMP_END
  }

  function StampLine(date: string): string {
    STAMP_START + date + STAMP_END
  }

  function Stamp(body: string, date: string): string {
    var lines := Split(body);
    if IsStamp(lines[0]) then Unlines([StampLine(date)] + lines[1..])
    else if body == "" then StampLine(date)
    else StampLine(date) + "\n" + body
  }

  datatype Rejection = NoTitle | TitleTooLong | LooksSecret | HeadingInContent | FenceOpenInContent |
    FenceOpenInMemory | NotFound | TooLarge

  datatype Edit = Rejected(why: Rejection) | Written(after: string)

  /** The first section whose title is the same up to case, or one past the end. */
  function SectionIndex(sections: seq<Section>, title: string, lower: string -> string): (i: nat)
    ensures i <= |sections|
    ensures i < |sections| ==> lower(sections[i].title) == lower(title)
    ensures forall k | 0 <= k < i :: lower(sections[k].title) != lower(title)
  {
    if sections == [] || lower(sections[0].title) == lower(title) then 0
    else 1 + SectionIndex(sections[1..], title, lower)
  }

  method FindSection(sections: seq<Section>, title: string, lower: string -> string) returns (index: int)
    ensures index == if SectionIndex(sections, title, lower) < |sections| then SectionIndex(sections, title, lower)
      else -1
  {
    for i := 0 to |sections|
      invariant forall k | 0 <= k < i :: lower(sections[k].title) != lower(title)
    {
      if lower(sections[i].title) == lower(title) {
        return i;
      }
    }
    return -1;
  }

  function EditedSections(sections: seq<Section>, title: string, content: string, date: string,
    lower: string -> string): seq<Section> {
    var i := SectionIndex(sections, title, lower);
    if content == "" then (if i < |sections| then sections[..i] + sections[i + 1..] else sections)
    else if i < |sections| then sections[i := Section(sections[i].title, Stamp(content, date))]
    else sections + [Section(title, Stamp(content, date))]
  }

  /** The document a request asks for: one section put in place, added or removed, and
      nothing else touched. */
  function Edited(d: Document, title: string, content: string, date: string, lower: string -> string): Document {
    d.(sections := EditedSections(d.sections, title, content, date, lower))
  }

  /** Why a request is refused before anything is edited, first reason first. */
  function Refusal(title: string, content: string, d: Document, lower: string -> string,
    secretish: string -> bool): Option<Rejection> {
    if title == "" then Some(NoTitle)
    else if Units(title) > MAX_SECTION_TITLE_CHARS then Some(TitleTooLong)
    else if secretish(title + "\n" + content) then Some(LooksSecret)
    else if Parse(content).sections != [] then Some(HeadingInContent)
    else if Parse(content).unclosedFence then Some(FenceOpenInContent)
    else if d.unclosedFence then Some(FenceOpenInMemory)
    else if content == "" && SectionIndex(d.sections, title, lower) == |d.sections| then Some(NotFound)
    else None
  }

  predicate Grew(before: string, after: string) {
    Units(after) > MAX_MEMORY_CHARS && Units(after) > Units(before)
  }

  /** No part of the document that the edit leaves alone has a line that reads as a
      heading by itself. */
  predicate RestHeadingFree(d: Document, title: string, lower: string -> string) {
    Headings(d.preamble) == 0 &&
    forall i | 0 <= i < |d.sections| && i != SectionIndex(d.sections, title, lower) :: Headings(d.sections[i].body) == 0
  }

  function Contents(content: Option<string>): string {
    TrimBlankLines(UnixLines(if content.Some? then content.value else ""))
  }

  /** What the tool does with a cleaned request. */
  function Response(before: string, title: string, content: string, date: string,
                    lower: string -> string, secretish: string -> bool): Edit {
    var refusal := Refusal(title, content, Parse(before), lower, secretish);
    if refusal.Some? then Rejected(refusal.value)
    else
      var after := Render(Edited(Parse(before), title, content, date, lower));
      if Grew(before, after) then Rejected(TooLarge) else Written(after)
  }

  method SetSection(before: string, section: Option<string>, content: Option<string>, date: string,
                    lower: string -> string, secretish: string -> bool)
    returns (r: Edit)
    ensures r == Response(before, TitleFrom(section), Contents(content), date, lower, secretish)
  {
    hide Parse, Render, Contents, TitleFrom, Stamp, SectionIndex, Grew;
    var title := TitleFrom(section);
    if title == "" {
      return Rejected(NoTitle);
    }
    if Units(title) > MAX_SECTION_TITLE_CHARS {
      return Rejected(TitleTooLong);
    }
    var body := Contents(content);
    if secretish(title + "\n" + body) {
      return Rejected(LooksSecret);
    }
    var contentParsed := ParseDocument(body);
    if contentParsed.sections != [] {
      return Rejected(HeadingInContent);
    }
    if contentParsed.unclosedFence {
      return Rejected(FenceOpenInContent);
    }
    var parsed := ParseDocument(before);
    if parsed.unclosedFence {
      return Rejected(FenceOpenInMemory);
    }
    var index := FindSection(parsed.sections, title, lower);
    var sections := parsed.sections;
    if body == "" {
      if index < 0 {
        return Rejected(NotFound);
      }
      sections := sections[..index] + sections[index + 1..];
    } else {
      var edited := Section(if index < 0 then title else sections[index].title, Stamp(body, date));
      if index < 0 {
        sections := sections + [edited];
      } else {
        sections := sections[index := edited];
      }
    }
    var after := Render(parsed.(sections := sections));
    if Grew(before, after) {
      return Rejected(TooLarge);
    }
    return Written(after);
  }

  // ----------------------------------------------------- why it reads back

  lemma HeadingFreeContent(content: string)
    requires Normal(content) && Parse(content).sections == [] && !Parse(content).unclosedFence
    ensures Headings(content) == 0 && FenceIn(content) == None
  {
  }

  lemma StampLineIsPlain(date: string)
    requires IsDate(date)
    ensures var line := StampLine(date);
      && '\n' !in line && IsStamp(line) && line[0] == '<' && line[|line| - 1] == '>'
      && NextFence(None, line) == None && TitleOf(None, line) == None
  {
    var line := StampLine(date);
    assert line[..14] == STAMP_START && line[14..24] == date && line[24..] == STAMP_END;
    assert line[0] == '<' && line[27] == '>';
    assert Run(line, ' ') == 0;
    assert line[0..] == line;
    assert line[..3][0] == '<';
    forall i | 0 <= i < |line|
      ensures line[i] != '\n'
    {
      if i < 14 {
        assert line[i] == STAMP_START[i];
      } else if i < 24 {
        assert line[i] == date[i - 14];
      } else {
        assert line[i] == STAMP_END[i - 24];
      }
    }
  }

  /** Putting a stamp line in front of lines changes neither fences nor headings. */
  lemma StampedLines(date: string, rest: seq<string>)
    requires IsDate(date)
    ensures FenceAfter(None, [StampLine(date)] + rest) == FenceAfter(None, rest)
    ensures |GroupLines(None, [StampLine(date)] + rest).groups| == |GroupLines(None, rest).groups|
  {
    hide StampLine, NextFence, TitleOf, IsStamp, IsDate;
    StampLineIsPlain(date);
    assert ([StampLine(date)] + rest)[1..] == rest;
  }

  lemma StampedText(date: string, rest: seq<string>, content: string)
    requires IsDate(date) && OneLiners(rest)
    requires rest != [] ==> content != "" && !IsSpace(content[|content| - 1])
    requires rest != [] ==> exists head: string :: content == head + Unlines(rest)
    requires rest != [] ==> Unlines(rest) != ""
    ensures Normal(Unlines([StampLine(date)] + rest))
    ensures Split(Unlines([StampLine(date)] + rest)) == [StampLine(date)] + rest
  {
    hide NextFence, TitleOf, IsDate, IsStamp, StampLine, IsSpace;
    StampLineIsPlain(date);
    var lines := [StampLine(date)] + rest;
    var text := Unlines(lines);
    SplitUnlines(lines);
    BracketLine(StampLine(date));
    assert DropBlank(lines) == lines;
    if rest == [] {
      assert text == StampLine(date);
      TrimEndFixed(text);
    } else {
      var head: string :| content == head + Unlines(rest);
      assert lines[1..] == rest;
      assert text == StampLine(date) + "\n" + Unlines(rest);
      assert text[|text| - 1] == content[|content| - 1];
      TrimEndFixed(text);
    }
  }

  lemma BracketLine(line: string)
    requires line != "" && line[0] == '<' && line[|line| - 1] == '>'
    ensures !BlankLine(line) && !IsSpace(line[|line| - 1])
  {
    assert line[0] != ' ' && line[0] != '\t';
  }

  /** A stamped body keeps the shape of the body it stamps. */
  lemma StampKeeps(content: string, date: string)
    requires IsDate(date) && Normal(content) && content != ""
    ensures Normal(Stamp(content, date))
    ensures FenceIn(Stamp(content, date)) == FenceIn(content)
    ensures Headings(Stamp(content, date)) == Headings(content)
  {
    hide IsDate, StampLine, FenceAfter, GroupLines, IsSpace, Normal;
    var lines := Split(content);
    NormalShape(content);
    UnlinesSplit(content);
    if IsStamp(lines[0]) {
      var rest := lines[1..];
      StampIsPlain(lines[0], rest);
      assert lines == [lines[0]] + rest;
      if rest != [] {
        UnlinesAppend([lines[0]], rest);
        RestNotEmpty(lines[0], rest, content);
      }
      StampedText(date, rest, content);
      StampedLines(date, rest);
    } else {
      assert "" + Unlines(lines) == content;
      StampedText(date, lines, content);
      StampedLines(date, lines);
      UnlinesAppend([StampLine(date)], lines);
      assert Unlines([StampLine(date)]) == StampLine(date);
    }
  }

  lemma RestNotEmpty(first: string, rest: seq<string>, content: string)
    requires content == first + "\n" + Unlines(rest) && content != "" && !IsSpace(content[|content| - 1])
    ensures Unlines(rest) != "" && exists head: string :: content == head + Unlines(rest)
  {
    TrailingNewline(first, content);
    assert content == (first + "\n") + Unlines(rest);
  }

  lemma TrailingNewline(first: string, content: string)
    ensures content == first + "\n" + "" ==> content[|content| - 1] == '\n'
  {
  }

  lemma StampIsPlain(line: string, rest: seq<string>)
    requires IsStamp(line)
    ensures FenceAfter(None, [line] + rest) == FenceAfter(None, rest)
    ensures |GroupLines(None, [line] + rest).groups| == |GroupLines(None, rest).groups|
  {
    assert line == StampLine(line[14..24]) by {
      assert line == line[..14] + line[14..24] + line[24..];
    }
    StampedLines(line[14..24], rest);
  }

  /** Sections that are well formed and close their fences. */
  predicate AllClosed(sections: seq<Section>) {
    forall i | 0 <= i < |sections| :: SectionOk(sections[i]) && FenceIn(sections[i].body) == None
  }

  lemma ClosedIsSettled(d: Document)
    requires Normal(d.preamble) && FenceIn(d.preamble) == None && AllClosed(d.sections) && !d.unclosedFence
    ensures Settled(d)
  {
    hide Normal, FenceIn, SectionOk;
    assert SectionsOk(d.sections, None);
  }

  lemma SettledIsClosed(d: Document)
    requires Settled(d) && !d.unclosedFence
    ensures Normal(d.preamble) && FenceIn(d.preamble) == None && AllClosed(d.sections)
  {
    hide Normal, FenceIn, SectionOk;
    var open: OpenFence :| SectionsOk(d.sections, open) &&
      FenceIn(d.preamble) == (if d.sections == [] then open else None) && (d.unclosedFence <==> open.Some?);
  }

  predicate NoHeadings(sections: seq<Section>, but: nat) {
    forall i | 0 <= i < |sections| && i != but :: Headings(sections[i].body) == 0
  }

  lemma RemoveKeeps(sections: seq<Section>, i: nat)
    requires i < |sections| && AllClosed(sections)
    ensures
      var rest := sections[..i] + sections[i + 1..];
      AllClosed(rest) && (NoHeadings(rest, |rest|) <==> NoHeadings(sections, i))
  {
    hide FenceIn, SectionOk, Headings;
    var rest := sections[..i] + sections[i + 1..];
    assert forall k | 0 <= k < |rest| :: rest[k] == sections[if k < i then k else k + 1];
    forall k | 0 <= k < |sections| && k != i
      ensures NoHeadings(rest, |rest|) ==> Headings(sections[k].body) == 0
    {
      assert sections[k] == rest[if k < i then k else k - 1];
    }
  }

  lemma PutKeeps(sections: seq<Section>, i: nat, s: Section)
    requires i <= |sections| && AllClosed(sections)
    requires SectionOk(s) && FenceIn(s.body) == None && Headings(s.body) == 0
    ensures
      var put := if i < |sections| then sections[i := s] else sections + [s];
      AllClosed(put) && (NoHeadings(put, |put|) <==> NoHeadings(sections, i))
  {
    hide FenceIn, SectionOk, Headings;
    var put := if i < |sections| then sections[i := s] else sections + [s];
    assert forall k | 0 <= k < |sections| && k != i :: put[k] == sections[k];
  }

  /** What is written when a request is accepted reads back as the edited document,
      exactly when the parts that were not edited have no stray heading. Every other
      title and body, and the order, are then as before. */
  lemma WrittenReadsBack(before: string, section: Option<string>, content: Option<string>, date: string,
                         lower: string -> string, secretish: string -> bool)
    requires IsDate(date)
    ensures
      var title, body, d := TitleFrom(section), Contents(content), Parse(before);
      var r := Response(before, title, body, date, lower, secretish);
      r.Written? ==>
        (Parse(r.after) == Edited(d, title, body, date, lower) <==> RestHeadingFree(d, title, lower))
  {
    hide Parse, Render, TitleFrom, TitleOk, Contents, Stamp, IsDate, SectionIndex, EditedSections, RestHeadingFree,
      Grew;
    var title, body := TitleFrom(section), Contents(content);
    if Response(before, title, body, date, lower, secretish).Written? {
      RequestedTitleOk(section);
      ContentsNormal(content);
      EditReadsBack(before, title, body, date, lower);
    }
  }

  lemma ContentsNormal(content: Option<string>)
    ensures Normal(Contents(content))
  {
    TrimmedIsNormal(UnixLines(if content.Some? then content.value else ""));
  }

  lemma EditReadsBack(before: string, title: string, content: string, date: string, lower: string -> string)
    requires IsDate(date) && TitleOk(title) && Normal(content)
    requires Parse(content).sections == [] && !Parse(content).unclosedFence && !Parse(before).unclosedFence
    requires content == "" ==> SectionIndex(Parse(before).sections, title, lower) < |Parse(before).sections|
    ensures
      var e := Edited(Parse(before), title, content, date, lower);
      Parse(Render(e)) == e <==> RestHeadingFree(Parse(before), title, lower)
  {
    hide Parse, Render, TitleOk, IsDate, Normal, Stamp, SectionIndex, FenceIn, Headings, AllClosed, Settled;
    var d := Parse(before);
    var i := SectionIndex(d.sections, title, lower);
    ParsedIsSettled(before);
    SettledIsClosed(d);
    HeadingFreeContent(content);
    if content == "" {
      RemoveKeeps(d.sections, i);
    } else {
      StampKeeps(content, date);
      SectionTitleOk(d.sections, i);
      PutKeeps(d.sections, i, Section(if i < |d.sections| then d.sections[i].title else title, Stamp(content, date)));
    }
    var e := Edited(d, title, content, date, lower);
    ClosedIsSettled(e);
    SettledRoundTrip(e);
  }

  lemma SectionTitleOk(sections: seq<Section>, i: nat)
    requires AllClosed(sections)
    ensures i < |sections| ==> TitleOk(sections[i].title)
  {
  }

  /** With ordinary line ends in the memory file, every accepted edit reads back exactly. */
  lemma OrdinaryEditReadsBack(before: string, section: Option<string>, content: Option<string>, date: string,
                              lower: string -> string, secretish: string -> bool)
    requires Ordinary(before) && IsDate(date)
    ensures
      var title, body := TitleFrom(section), Contents(content);
      var r := Response(before, title, body, date, lower, secretish);
      r.Written? ==> Parse(r.after) == Edited(Parse(before), title, body, date, lower)
  {
    hide Parse, Render, TitleFrom, Contents, Response, IsDate, SectionIndex, Headings, Edited;
    OrdinaryRoundTrip(before);
    WrittenReadsBack(before, section, content, date, lower, secretish);
  }

  /** Asking twice on the same day is the same as asking once. */
  lemma EditTwice(d: Document, title: string, content: string, date: string, lower: string -> string)
    requires content != ""
    ensures var e := Edited(d, title, content, date, lower); Edited(e, title, content, date, lower) == e
  {
    hide Stamp, SectionIndex;
    var e := Edited(d, title, content, date, lower);
    var i, j := SectionIndex(d.sections, title, lower), SectionIndex(e.sections, title, lower);
    assert forall k | 0 <= k < i :: e.sections[k] == d.sections[k];
    assert lower(e.sections[i].title) == lower(title);
    assert !(i < j) && !(j < i);
  }
}
