/** Exact, unique, simultaneous replacements in a text
    (`extensions/safe-edit/state.ts`). */
module ExactEdits {
  import opened Wrappers

  /** A UTF-16 unit. */
  type Unit = u: int | 0 <= u < 0x10000

  type Text = seq<Unit>

  datatype Edit = Edit(oldText: Text, newText: Text)

  datatype Span = Span(start: nat, end: nat, text: Text)

  datatype Rejection = BadCount | InputTooLarge | InvalidEdit | NotOnce | Overlap | ResultTooLarge | InvalidUnicode

  datatype Result = Replaced(text: Text) | Rejected(why: Rejection)

  const MAX_EDITS := 100

  predicate OccursAt(text: Text, pattern: Text, at: nat) {
    at + |pattern| <= |text| && text[at..at + |pattern|] == pattern
  }

  /** It stands between what is before it and what is after it. */
  lemma OccurrenceMeaning(text: Text, pattern: Text, at: nat)
    ensures OccursAt(text, pattern, at) <==>
      exists before: Text, after: Text :: |before| == at && text == before + pattern + after
  {
    if OccursAt(text, pattern, at) {
      var before, after := text[..at], text[at + |pattern|..];
      assert text == before + pattern + after;
    }
    if before: Text, after: Text :| |before| == at && text == before + pattern + after {
      assert (before + pattern + after)[at..at + |pattern|] == pattern;
    }
  }

  /** The first occurrence from a position on. */
  function IndexOf(text: Text, pattern: Text, from: nat): (r: Option<nat>)
    ensures r.Some? ==> from <= r.value && OccursAt(text, pattern, r.value)
    ensures forall k | from <= k < (if r.Some? then r.value else |text| + 1) :: !OccursAt(text, pattern, k)
    decreases |text| + 1 - from
  {
    if from > |text| then None
    else if OccursAt(text, pattern, from) then Some(from)
    else IndexOf(text, pattern, from + 1)
  }

  /** Occurring once, with overlapping occurrences counted. */
  ghost predicate OccursOnceAt(text: Text, pattern: Text, at: nat) {
    OccursAt(text, pattern, at) && forall k: nat | OccursAt(text, pattern, k) :: k == at
  }

  /** Where an edit goes, or why it cannot. */
  function Locate(text: Text, e: Edit): (Option<Span>, Rejection) {
    if e.oldText == [] || 0 in e.newText then (None, InvalidEdit)
    else
      var at := IndexOf(text, e.oldText, 0);
      if at.None? || IndexOf(text, e.oldText, at.value + 1).Some? then (None, NotOnce)
      else (Some(Span(at.value, at.value + |e.oldText|, e.newText)), NotOnce)
  }

  /** The first edit that cannot be placed decides. */
  function FirstProblem(text: Text, edits: seq<Edit>): Option<Rejection> {
    if edits == [] then None
    else if Locate(text, edits[0]).0.None? then Some(Locate(text, edits[0]).1)
    else FirstProblem(text, edits[1..])
  }

  function Spans(text: Text, edits: seq<Edit>): (r: seq<Span>)
    requires FirstProblem(text, edits).None?
    ensures |r| == |edits| && forall i | 0 <= i < |edits| :: Locate(text, edits[i]).0 == Some(r[i])
  {
    if edits == [] then [] else [Locate(text, edits[0]).0.value] + Spans(text, edits[1..])
  }

  // -------------------------------------------------------------------- placing

  function InsertByStart(s: Span, sorted: seq<Span>): (r: seq<Span>)
    ensures |r| == |sorted| + 1
  {
    if sorted == [] || s.start <= sorted[0].start then [s] + sorted else [sorted[0]] + InsertByStart(s, sorted[1..])
  }

  function ByStart(spans: seq<Span>): (r: seq<Span>)
    ensures |r| == |spans|
  {
    if spans == [] then [] else InsertByStart(spans[0], ByStart(spans[1..]))
  }

  predicate Sorted(spans: seq<Span>) {
    forall i, j | 0 <= i < j < |spans| :: spans[i].start <= spans[j].start
  }

  predicate Apart(spans: seq<Span>) {
    forall i | 0 < i < |spans| :: spans[i - 1].end <= spans[i].start
  }

  predicate SpanOk(text: Text, s: Span) {
    s.start < s.end <= |text|
  }

  predicate SpansOk(text: Text, spans: seq<Span>) {
    forall i | 0 <= i < |spans| :: SpanOk(text, spans[i])
  }

  /** The gaps of the original, interleaved with the replacement texts. */
  function Interleave(text: Text, spans: seq<Span>, from: nat): Text
    requires SpansOk(text, spans) && Apart(spans) && from <= |text| && (spans != [] ==> from <= spans[0].start)
    decreases |spans|
  {
    if spans == [] then text[from..]
    else
      assert forall i | 0 < i < |spans| - 1 :: spans[1..][i] == spans[i + 1] && spans[1..][i - 1] == spans[i];
      text[from..spans[0].start] + spans[0].text + Interleave(text, spans[1..], spans[0].end)
  }

  function Outcome(text: Text, edits: seq<Edit>, inputFits: seq<Edit> -> bool, resultFits: Text -> bool,
    validUnicode: Text -> bool): Result
  {
    if edits == [] || |edits| > MAX_EDITS then Rejected(BadCount)
    else if !inputFits(edits) then Rejected(InputTooLarge)
    else if FirstProblem(text, edits).Some? then Rejected(FirstProblem(text, edits).value)
    else
      var spans := ByStart(Spans(text, edits));
      if !Apart(spans) then Rejected(Overlap)
      else
        PlacedOk(text, edits);
        var result := Interleave(text, spans, 0);
        if !resultFits(result) then Rejected(ResultTooLarge)
        else if !validUnicode(result) then Rejected(InvalidUnicode)
        else Replaced(result)
  }

  /** Sorts the spans and splices them in from the last to the first. */
  method ReplaceExactly(text: Text, edits: seq<Edit>, inputFits: seq<Edit> -> bool, resultFits: Text -> bool,
    validUnicode: Text -> bool)
    returns (r: Result)
    ensures r == Outcome(text, edits, inputFits, resultFits, validUnicode)
  {
    hide IndexOf, ByStart, Interleave;
    if edits == [] || |edits| > MAX_EDITS {
      return Rejected(BadCount);
    }
    if !inputFits(edits) {
      return Rejected(InputTooLarge);
    }
    var located: seq<Span> := [];
    assert edits[0..] == edits;
    for i := 0 to |edits|
      invariant FirstProblem(text, edits) == FirstProblem(text, edits[i..])
      invariant |located| == i && forall k | 0 <= k < i :: Locate(text, edits[k]).0 == Some(located[k])
    {
      var place := Locate(text, edits[i]);
      assert edits[i..][1..] == edits[i + 1..] && edits[i..][0] == edits[i];
      if place.0.None? {
        return Rejected(place.1);
      }
      located := located + [place.0.value];
    }
    assert edits[|edits|..] == [];
    assert located == Spans(text, edits);
    var spans := ByStart(located);
    for i := 1 to |spans|
      invariant forall k | 0 < k < i :: spans[k - 1].end <= spans[k].start
    {
      if spans[i].start < spans[i - 1].end {
        return Rejected(Overlap);
      }
    }
    PlacedOk(text, edits);
    var result := SpliceAll(text, spans);
    if !resultFits(result) {
      return Rejected(ResultTooLarge);
    }
    if !validUnicode(result) {
      return Rejected(InvalidUnicode);
    }
    return Replaced(result);
  }

  method SpliceAll(text: Text, spans: seq<Span>) returns (result: Text)
    requires SpansOk(text, spans) && Apart(spans)
    ensures result == Interleave(text, spans, 0)
  {
    hide Interleave;
    result := text;
    var i := |spans|;
    NothingLeft(text, spans);
    while i > 0
      invariant 0 <= i <= |spans| && LeftOk(text, spans, i)
      invariant result == text[..LeftEnd(spans, i)] + Interleave(text, spans[i..], LeftEnd(spans, i))
    {
      i := i - 1;
      SpliceStep(text, spans, i);
      var span := spans[i];
      result := result[..span.start] + span.text + result[span.end..];
    }
    assert spans[0..] == spans && text[..0] == [];
    assert [] + Interleave(text, spans, 0) == Interleave(text, spans, 0);
  }

  // ------------------------------------------------------------------------- proofs

  /** Where the part that is not yet spliced ends. */
  function LeftEnd(spans: seq<Span>, i: nat): nat
    requires i <= |spans|
  {
    if i == 0 then 0 else spans[i - 1].end
  }

  predicate LeftOk(text: Text, spans: seq<Span>, i: nat)
    requires i <= |spans|
  {
    && LeftEnd(spans, i) <= |text| && SpansOk(text, spans[i..]) && Apart(spans[i..])
    && (i < |spans| ==> LeftEnd(spans, i) <= spans[i].start)
  }

  lemma LeftIsOk(text: Text, spans: seq<Span>, i: nat)
    requires i <= |spans| && SpansOk(text, spans) && Apart(spans)
    ensures LeftOk(text, spans, i)
  {
    var rest := spans[i..];
    assert forall k | 0 <= k < |rest| :: rest[k] == spans[i + k];
    assert i > 0 ==> SpanOk(text, spans[i - 1]);
    forall k | 0 < k < |rest|
      ensures rest[k - 1].end <= rest[k].start
    {
      assert spans[i + k - 1].end <= spans[i + k].start;
    }
  }

  lemma NothingLeft(text: Text, spans: seq<Span>)
    requires SpansOk(text, spans) && Apart(spans)
    ensures LeftOk(text, spans, |spans|)
    ensures text == text[..LeftEnd(spans, |spans|)] + Interleave(text, spans[|spans|..], LeftEnd(spans, |spans|))
  {
    LeftIsOk(text, spans, |spans|);
  }

  /** Splicing one span in front of those already in place. */
  lemma SpliceStep(text: Text, spans: seq<Span>, i: nat)
    requires i < |spans| && SpansOk(text, spans) && Apart(spans) && LeftOk(text, spans, i + 1)
    ensures LeftOk(text, spans, i) && SpanOk(text, spans[i])
    ensures
      var done := text[..LeftEnd(spans, i + 1)] + Interleave(text, spans[i + 1..], LeftEnd(spans, i + 1));
      spans[i].end <= |done| &&
      done[..spans[i].start] + spans[i].text + done[spans[i].end..] ==
        text[..LeftEnd(spans, i)] + Interleave(text, spans[i..], LeftEnd(spans, i))
  {
    LeftIsOk(text, spans, i);
    var s, from := spans[i], LeftEnd(spans, i);
    var tail := Interleave(text, spans[i + 1..], s.end);
    var done := text[..s.end] + tail;
    assert spans[i..][1..] == spans[i + 1..];
    assert Interleave(text, spans[i..], from) == text[from..s.start] + s.text + tail;
    assert done[..s.start] == text[..s.start] == text[..from] + text[from..s.start];
    assert done[s.end..] == tail;
    assert text[..from] + (text[from..s.start] + s.text + tail) == text[..from] + text[from..s.start] + s.text + tail;
  }

  lemma {:induction false} InsertKeeps(s: Span, sorted: seq<Span>)
    ensures multiset(InsertByStart(s, sorted)) == multiset(sorted) + multiset{s}
  {
    if sorted != [] && s.start > sorted[0].start {
      InsertKeeps(s, sorted[1..]);
      assert sorted == [sorted[0]] + sorted[1..];
    }
  }

  predicate NoneBefore(start: nat, spans: seq<Span>) {
    forall j | 0 <= j < |spans| :: start <= spans[j].start
  }

  lemma SortedCons(s: Span, rest: seq<Span>)
    ensures Sorted([s] + rest) <==> Sorted(rest) && NoneBefore(s.start, rest)
  {
    var all := [s] + rest;
    assert forall i | 0 <= i < |rest| :: all[i + 1] == rest[i];
    if Sorted(all) {
      forall i, j | 0 <= i < j < |rest|
        ensures rest[i].start <= rest[j].start
      {
        assert all[i + 1].start <= all[j + 1].start;
      }
      forall j | 0 <= j < |rest|
        ensures s.start <= rest[j].start
      {
        assert all[0].start <= all[j + 1].start;
      }
    }
  }

  lemma {:induction false} InsertSorted(s: Span, sorted: seq<Span>, low: nat)
    requires Sorted(sorted) && NoneBefore(low, sorted) && low <= s.start
    ensures Sorted(InsertByStart(s, sorted)) && NoneBefore(low, InsertByStart(s, sorted))
  {
    hide Sorted;
    SortedCons(s, sorted);
    if sorted != [] {
      var first, rest := sorted[0], sorted[1..];
      assert [first] + rest == sorted;
      SortedCons(first, rest);
      if s.start > first.start {
        InsertSorted(s, rest, first.start);
        SortedCons(first, InsertByStart(s, rest));
      }
    }
  }

  lemma NothingSorted()
    ensures Sorted([])
  {
  }

  lemma {:induction false} ByStartSorts(spans: seq<Span>)
    ensures Sorted(ByStart(spans)) && multiset(ByStart(spans)) == multiset(spans)
  {
    hide Sorted, InsertByStart;
    if spans == [] {
      assert Sorted([]) by { NothingSorted(); }
    } else {
      ByStartSorts(spans[1..]);
      InsertKeeps(spans[0], ByStart(spans[1..]));
      InsertSorted(spans[0], ByStart(spans[1..]), 0);
      assert spans == [spans[0]] + spans[1..];
    }
  }

  lemma LocatedOk(text: Text, e: Edit)
    requires Locate(text, e).0.Some?
    ensures SpanOk(text, Locate(text, e).0.value)
  {
  }

  lemma PlacedOk(text: Text, edits: seq<Edit>)
    requires FirstProblem(text, edits).None?
    ensures SpansOk(text, ByStart(Spans(text, edits)))
  {
    var spans := Spans(text, edits);
    var sorted := ByStart(spans);
    ByStartSorts(spans);
    forall i | 0 <= i < |sorted|
      ensures SpanOk(text, sorted[i])
    {
      assert sorted[i] in multiset(sorted);
      assert sorted[i] in spans;
      var k :| 0 <= k < |spans| && spans[k] == sorted[i];
      LocatedOk(text, edits[k]);
    }
  }

  /** An edit is placed exactly when its old text is not empty and occurs exactly once,
      overlapping occurrences counted, and then where it occurs. */
  lemma PlacedExactly(text: Text, e: Edit, at: nat)
    ensures Locate(text, e).0 == Some(Span(at, at + |e.oldText|, e.newText)) <==>
      e.oldText != [] && 0 !in e.newText && OccursOnceAt(text, e.oldText, at)
  {
    var first := IndexOf(text, e.oldText, 0);
    if first.Some? {
      var second := IndexOf(text, e.oldText, first.value + 1);
      forall k: nat | OccursAt(text, e.oldText, k) && second.None?
        ensures k == first.value
      {
        assert k <= |text|;
      }
    } else {
      assert forall k: nat :: !OccursAt(text, e.oldText, k);
    }
  }

  lemma {:induction false} NoProblem(text: Text, edits: seq<Edit>)
    ensures FirstProblem(text, edits).None? <==> forall i | 0 <= i < |edits| :: Locate(text, edits[i]).0.Some?
  {
    hide Locate;
    if edits != [] {
      NoProblem(text, edits[1..]);
      assert forall i | 0 <= i < |edits| - 1 :: edits[1..][i] == edits[i + 1];
    }
  }

  // ------------------------------------------------------------- the order of the list

  lemma {:induction false} SpansPermute(text: Text, a: seq<Edit>, b: seq<Edit>)
    requires multiset(a) == multiset(b) && FirstProblem(text, a).None?
    ensures FirstProblem(text, b).None? && multiset(Spans(text, a)) == multiset(Spans(text, b))
  {
    hide Locate;
    NoProblem(text, a);
    forall i | 0 <= i < |b|
      ensures Locate(text, b[i]).0.Some?
    {
      assert b[i] in multiset(b);
      assert b[i] in a;
    }
    NoProblem(text, b);
    SameSpans(text, a, b);
  }

  function WithoutAt<T>(s: seq<T>, k: nat): (r: seq<T>)
    requires k < |s|
    ensures |r| == |s| - 1 && forall i | 0 <= i < |r| :: r[i] == s[if i < k then i else i + 1]
  {
    s[..k] + s[k + 1..]
  }

  lemma RemovedOne<T>(s: seq<T>, k: nat)
    requires k < |s|
    ensures multiset(s) == multiset(WithoutAt(s, k)) + multiset{s[k]}
  {
    assert s == s[..k] + ([s[k]] + s[k + 1..]);
  }

  lemma SameRest<T>(a: multiset<T>, b: multiset<T>, x: T)
    requires a + multiset{x} == b + multiset{x}
    ensures a == b
  {
    assert a == a + multiset{x} - multiset{x};
    assert b == b + multiset{x} - multiset{x};
  }

  lemma SomeIndex<T>(s: seq<T>, x: T) returns (k: nat)
    requires x in multiset(s)
    ensures k < |s| && s[k] == x
  {
    k :| 0 <= k < |s| && s[k] == x;
  }

  lemma {:induction false} SameSpans(text: Text, a: seq<Edit>, b: seq<Edit>)
    requires multiset(a) == multiset(b) && FirstProblem(text, a).None? && FirstProblem(text, b).None?
    ensures multiset(Spans(text, a)) == multiset(Spans(text, b))
    decreases |a|
  {
    hide Locate, WithoutAt, FirstProblem;
    assert |multiset(a)| == |a| && |multiset(b)| == |b|;
    if a == [] {
      assert Spans(text, a) == [] == Spans(text, b);
    } else {
      RemovedOne(a, 0);
      var k := SomeIndex(b, a[0]);
      RemovedOne(b, k);
      var restA, restB := WithoutAt(a, 0), WithoutAt(b, k);
      SameRest(multiset(restA), multiset(restB), a[0]);
      RemovedSpan(text, a, 0);
      RemovedSpan(text, b, k);
      SameSpans(text, restA, restB);
      SameSpan(text, a, 0, b, k);
    }
  }

  lemma SameSpan(text: Text, a: seq<Edit>, i: nat, b: seq<Edit>, k: nat)
    requires i < |a| && k < |b| && a[i] == b[k] && FirstProblem(text, a).None? && FirstProblem(text, b).None?
    ensures Spans(text, a)[i] == Spans(text, b)[k]
  {
    hide Locate;
    assert Locate(text, a[i]).0 == Some(Spans(text, a)[i]) && Locate(text, b[k]).0 == Some(Spans(text, b)[k]);
  }

  lemma RemovedSpan(text: Text, edits: seq<Edit>, k: nat)
    requires k < |edits| && FirstProblem(text, edits).None?
    ensures FirstProblem(text, WithoutAt(edits, k)).None?
    ensures multiset(Spans(text, edits)) == multiset(Spans(text, WithoutAt(edits, k))) + multiset{Spans(text, edits)[k]}
  {
    hide Locate, FirstProblem, Spans;
    var rest := WithoutAt(edits, k);
    NoProblem(text, edits);
    NoProblem(text, rest);
    var s, r := Spans(text, edits), Spans(text, rest);
    RemovedOne(s, k);
    forall i | 0 <= i < |r|
      ensures r[i] == WithoutAt(s, k)[i]
    {
      SameSpan(text, rest, i, edits, if i < k then i else i + 1);
    }
    assert r == WithoutAt(s, k);
  }

  /** Spans that do not overlap can be put in order in one way only. */
  lemma {:induction false} OneOrder(text: Text, a: seq<Span>, b: seq<Span>)
    requires multiset(a) == multiset(b) && Sorted(a) && Sorted(b) && Apart(a) && SpansOk(text, a)
    ensures a == b
    decreases |a|
  {
    hide Sorted, Apart, SpansOk, WithoutAt;
    SameSize(a, b);
    if a != [] {
      SameFirst(text, a, b);
      RemovedOne(a, 0);
      RemovedOne(b, 0);
      WithoutFirst(a);
      WithoutFirst(b);
      SameRest(multiset(a[1..]), multiset(b[1..]), a[0]);
      RestInOrder(text, a);
      RestSorted(b);
      OneOrder(text, a[1..], b[1..]);
      assert a == [a[0]] + a[1..] && b == [b[0]] + b[1..];
    }
  }

  lemma SameSize<T>(a: seq<T>, b: seq<T>)
    requires multiset(a) == multiset(b)
    ensures |a| == |b|
  {
    assert |multiset(a)| == |a| && |multiset(b)| == |b|;
  }

  lemma WithoutFirst<T>(s: seq<T>)
    requires s != []
    ensures WithoutAt(s, 0) == s[1..]
  {
  }

  lemma RestSorted(b: seq<Span>)
    requires b != [] && Sorted(b)
    ensures Sorted(b[1..])
  {
  }

  lemma RestInOrder(text: Text, a: seq<Span>)
    requires a != [] && Sorted(a) && Apart(a) && SpansOk(text, a)
    ensures Sorted(a[1..]) && Apart(a[1..]) && SpansOk(text, a[1..])
  {
    assert forall k | 0 < k < |a| - 1 :: a[1..][k] == a[k + 1] && a[1..][k - 1] == a[k];
  }

  lemma SameFirst(text: Text, a: seq<Span>, b: seq<Span>)
    requires a != [] && b != [] && multiset(a) == multiset(b) && Sorted(a) && Sorted(b) && Apart(a) && SpansOk(text, a)
    ensures a[0] == b[0]
  {
    assert a[0] in multiset(a) && b[0] in multiset(b);
    var i := SomeIndex(a, b[0]);
    var j := SomeIndex(b, a[0]);
    assert b[0].start <= b[j].start;
    if i > 0 {
      StrictlyLater(text, a, i);
    }
  }

  lemma {:induction false} StrictlyLater(text: Text, spans: seq<Span>, i: nat)
    requires 0 < i < |spans| && Sorted(spans) && Apart(spans) && SpansOk(text, spans)
    ensures spans[0].start < spans[i].start
  {
    assert SpanOk(text, spans[0]) && spans[0].end <= spans[1].start;
  }

  /** The list of edits may come in any order: the same lists are accepted, with the same
      result. The size of the request is the same in any order. */
  lemma OrderIsIrrelevant(text: Text, a: seq<Edit>, b: seq<Edit>, inputFits: seq<Edit> -> bool,
    resultFits: Text -> bool, validUnicode: Text -> bool)
    requires multiset(a) == multiset(b) && inputFits(a) == inputFits(b)
    ensures
      var ra, rb := Outcome(text, a, inputFits, resultFits, validUnicode),
        Outcome(text, b, inputFits, resultFits, validUnicode);
      (ra.Replaced? <==> rb.Replaced?) && (ra.Replaced? ==> ra == rb)
  {
    hide Outcome;
    if Outcome(text, a, inputFits, resultFits, validUnicode).Replaced? {
      AcceptedInAnyOrder(text, a, b, inputFits, resultFits, validUnicode);
    }
    if Outcome(text, b, inputFits, resultFits, validUnicode).Replaced? {
      AcceptedInAnyOrder(text, b, a, inputFits, resultFits, validUnicode);
    }
  }

  lemma AcceptedInAnyOrder(text: Text, a: seq<Edit>, b: seq<Edit>, inputFits: seq<Edit> -> bool,
    resultFits: Text -> bool, validUnicode: Text -> bool)
    requires multiset(a) == multiset(b) && inputFits(a) == inputFits(b)
    requires Outcome(text, a, inputFits, resultFits, validUnicode).Replaced?
    ensures Outcome(text, b, inputFits, resultFits, validUnicode) ==
      Outcome(text, a, inputFits, resultFits, validUnicode)
  {
    hide Locate, Interleave, ByStart;
    assert |multiset(a)| == |a| && |multiset(b)| == |b|;
    SpansPermute(text, a, b);
    var sa, sb := Spans(text, a), Spans(text, b);
    ByStartSorts(sa);
    ByStartSorts(sb);
    PlacedOk(text, a);
    OneOrder(text, ByStart(sa), ByStart(sb));
  }

  /** What is accepted leaves every unit outside the replaced pieces as it was, moved by
      what the pieces before it grew. */
  lemma {:induction false} GapsAreKept(text: Text, spans: seq<Span>, from: nat, i: nat)
    requires SpansOk(text, spans) && Apart(spans) && from <= |text| && (spans != [] ==> from <= spans[0].start)
    requires from <= i < |text| && forall k | 0 <= k < |spans| :: !(spans[k].start <= i < spans[k].end)
    ensures
      var result, at := Interleave(text, spans, from), Shift(spans, i) + (i - from);
      0 <= at < |result| && result[at] == text[i]
    decreases |spans|
  {
    hide Interleave, Apart, SpansOk;
    if spans == [] {
      InterleaveNone(text, spans, from);
    } else {
      var s, rest := spans[0], spans[1..];
      RestApart(text, spans);
      InterleaveCons(text, spans, from);
      var head, tail := text[from..s.start], Interleave(text, rest, s.end);
      if i >= s.end {
        assert forall k | 0 <= k < |rest| :: rest[k] == spans[k + 1];
        GapsAreKept(text, rest, s.end, i);
        AfterParts(head, s.text, tail, Shift(rest, i) + (i - s.end));
        assert Shift(spans, i) + (i - from) == |head| + |s.text| + (Shift(rest, i) + (i - s.end));
      } else {
        FirstPart(head, s.text, tail, i - from);
      }
    }
  }

  lemma InterleaveNone(text: Text, spans: seq<Span>, from: nat)
    requires spans == [] && SpansOk(text, spans) && Apart(spans) && from <= |text|
    ensures Interleave(text, spans, from) == text[from..]
  {
  }

  lemma InterleaveCons(text: Text, spans: seq<Span>, from: nat)
    requires spans != [] && SpansOk(text, spans) && Apart(spans) && from <= |text| && from <= spans[0].start
    ensures from <= spans[0].start < spans[0].end <= |text| && SpansOk(text, spans[1..]) && Apart(spans[1..])
    ensures spans[1..] != [] ==> spans[0].end <= spans[1..][0].start
    ensures Interleave(text, spans, from) ==
      text[from..spans[0].start] + spans[0].text + Interleave(text, spans[1..], spans[0].end)
  {
    RestApart(text, spans);
    assert SpanOk(text, spans[0]);
  }

  lemma AfterParts(a: Text, b: Text, c: Text, at: int)
    requires 0 <= at < |c|
    ensures (a + b + c)[|a| + |b| + at] == c[at]
  {
  }

  lemma FirstPart(a: Text, b: Text, c: Text, at: nat)
    requires at < |a|
    ensures (a + b + c)[at] == a[at]
  {
  }

  lemma RestApart(text: Text, spans: seq<Span>)
    requires spans != [] && SpansOk(text, spans) && Apart(spans)
    ensures SpansOk(text, spans[1..]) && Apart(spans[1..]) && (|spans| > 1 ==> spans[0].end <= spans[1..][0].start)
  {
    assert forall k | 0 < k < |spans| - 1 :: spans[1..][k] == spans[k + 1] && spans[1..][k - 1] == spans[k];
  }

  /** How far the spans before a position move it. */
  function Shift(spans: seq<Span>, i: nat): int {
    if spans == [] || i < spans[0].end then 0
      else |spans[0].text| - (spans[0].end - spans[0].start) + Shift(spans[1..], i)
  }

  /** One edit of a text that holds its old text once puts the new text in its place, and
      nothing else. */
  lemma OneEdit(before: Text, after: Text, e: Edit, inputFits: seq<Edit> -> bool, resultFits: Text -> bool,
    validUnicode: Text -> bool)
    requires e.oldText != [] && 0 !in e.newText
    requires forall x: Text, y: Text | x + e.oldText + y == before + e.oldText + after :: |x| == |before|
    requires inputFits([e]) && resultFits(before + e.newText + after) && validUnicode(before + e.newText + after)
    ensures Outcome(before + e.oldText + after, [e], inputFits, resultFits, validUnicode) ==
      Replaced(before + e.newText + after)
  {
    hide OccursAt, IndexOf, Outcome;
    var text, at := before + e.oldText + after, |before|;
    OccurrenceMeaning(text, e.oldText, at);
    forall k: nat | OccursAt(text, e.oldText, k)
      ensures k == at
    {
      OccurrenceMeaning(text, e.oldText, k);
      var x: Text, y: Text :| |x| == k && text == x + e.oldText + y;
    }
    PlacedExactly(text, e, at);
    assert text[..at] == before && text[at + |e.oldText|..] == after;
    OneSpan(text, e, Span(at, at + |e.oldText|, e.newText), inputFits, resultFits, validUnicode);
  }

  lemma OneSpan(text: Text, e: Edit, span: Span, inputFits: seq<Edit> -> bool, resultFits: Text -> bool,
    validUnicode: Text -> bool)
    requires Locate(text, e).0 == Some(span) && SpanOk(text, span) && inputFits([e])
    requires
      var result := text[..span.start] + span.text + text[span.end..];
      resultFits(result) && validUnicode(result)
    ensures Outcome(text, [e], inputFits, resultFits, validUnicode) ==
      Replaced(text[..span.start] + span.text + text[span.end..])
  {
    hide Locate;
    assert [e][1..] == [] && [span][1..] == [];
    assert FirstProblem(text, [e]).None?;
    assert Spans(text, [e]) == [span];
    assert ByStart([span]) == [span];
    assert Interleave(text, [], span.end) == text[span.end..];
  }
}
