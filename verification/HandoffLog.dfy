/** The append-only log of a self-handoff and its reduction (`extensions/_shared/handoff-state.ts`). */
module HandoffLog {
  import opened Wrappers

  datatype Status = Prepared | ChildCreated | Received | AwaitingUser | Transferred | Cancelled | Failed

  datatype Child = Child(file: string, id: string)

  /** Every field that identifies an attempt; `goalTransferred` holds exactly when there
      is a goal. */
  datatype Request = Request(id: string, createdAt: int, originId: string, originFile: string, nonce: string,
                             kickoffHash: Option<string>, goalId: Option<string>, workPlan: bool)

  datatype AnyRecord = Record(request: Request, status: Status, child: Option<Child>, retryAllowed: bool, note: string)

  predicate NamesChild(s: Status) {
    s == ChildCreated || s == Received || s == AwaitingUser || s == Transferred
  }

  /** What the parser lets through: the later states name the child. */
  type Record = r: AnyRecord | NamesChild(r.status) ==> r.child.Some?
    witness Record(Request("", 0, "", "", "", None, None, false), Failed, None, false, "")

  datatype GoalStatus = Active | Paused | Complete | Blocked | BudgetLimited | Cleared | GoalTransferring |
    GoalTransferred

  /** A goal; `rest` stands for the objective, budget and progress log. */
  datatype Goal = Goal(id: string, status: GoalStatus, handoffId: Option<string>, childFile: Option<string>,
    rest: seq<string>)

  /** A custom entry of the log; data the parsers refuse is `None`. */
  datatype Payload = HandoffData(record: Option<Record>) | GoalData(goal: Option<Goal>) | OtherData

  datatype Entry = Entry(id: nat, parent: Option<nat>, payload: Payload)

  predicate Malformed(e: Entry) {
    e.payload.HandoffData? && e.payload.record.None?
  }

  predicate IsRecord(e: Entry) {
    e.payload.HandoffData? && e.payload.record.Some?
  }

  function RecordOf(e: Entry): Record
    requires IsRecord(e)
  {
    e.payload.record.value
  }

  /** A record about this request id. */
  predicate Concerns(e: Entry, id: string) {
    IsRecord(e) && RecordOf(e).request.id == id
  }

  // ----------------------------------------------------------------- reduction

  /** `at` is the entry that holds the record. */
  datatype Reduction = Conflict | Current(record: Option<Record>, at: Option<nat>)

  predicate Allowed(from: Status, to: Status) {
    match from
    case Prepared => to in {Prepared, ChildCreated, Cancelled, Failed}
    case ChildCreated => to in {ChildCreated, Transferred, Failed}
    case Received => to in {Received, AwaitingUser, Failed}
    case AwaitingUser => to in {AwaitingUser, Transferred, Failed}
    case Transferred => to == Transferred
    case Cancelled => to == Cancelled
    case Failed => to == Failed
  }

  predicate Terminal(s: Status) {
    s == Transferred || s == Cancelled || s == Failed
  }

  /** Whether a record may follow another one about the same request. */
  predicate Follows(earlier: Record, later: Record) {
    && later.request == earlier.request
    && (earlier.child.Some? ==> later.child == earlier.child)
    && Allowed(earlier.status, later.status)
  }

  /** One record seen after the others. */
  function Step(current: Reduction, e: Entry, request: Request): Reduction {
    if current.Conflict? || !Concerns(e, request.id) then current
    else if RecordOf(e).request != request then Conflict
    else if current.record.Some? && !Follows(current.record.value, RecordOf(e)) then Conflict
    else Current(Some(RecordOf(e)), Some(e.id))
  }

  function Fold(entries: seq<Entry>, request: Request): (r: Reduction)
    ensures r.Current? ==> (r.record.Some? <==> r.at.Some?)
    ensures r.Current? && r.record.Some? ==> r.record.value.request == request
  {
    if entries == [] then Current(None, None)
    else Step(Fold(entries[..|entries| - 1], request), entries[|entries| - 1], request)
  }

  predicate AnyMalformed(entries: seq<Entry>) {
    exists i | 0 <= i < |entries| :: Malformed(entries[i])
  }

  /** The state of a request in a log. */
  function Reduce(entries: seq<Entry>, request: Request): Reduction {
    if AnyMalformed(entries) then Conflict else Fold(entries, request)
  }

  /** One pass over the audit records, carrying the child identity on its own. */
  method ReduceSelfHandoffRequest(entries: seq<Entry>, expected: Request) returns (r: Reduction)
    ensures r == Reduce(entries, expected)
  {
    for i := 0 to |entries|
      invariant forall k | 0 <= k < i :: !Malformed(entries[k])
    {
      if Malformed(entries[i]) {
        return Conflict;
      }
    }
    var current: Option<Record> := None;
    var currentEntryId: Option<nat> := None;
    var target: Option<Child> := None;
    for i := 0 to |entries|
      invariant Fold(entries[..i], expected) == Current(current, currentEntryId)
      invariant target == if current.Some? then current.value.child else None
    {
      FoldNext(entries, i, expected);
      if !Concerns(entries[i], expected.id) {
        continue;
      }
      var record := RecordOf(entries[i]);
      if record.request != expected {
        FoldConflictAfter(entries, i + 1, expected);
        return Conflict;
      }
      if target.Some? && record.child.None? {
        FoldConflictAfter(entries, i + 1, expected);
        return Conflict;
      }
      if record.child.Some? {
        if target.Some? && target.value != record.child.value {
          FoldConflictAfter(entries, i + 1, expected);
          return Conflict;
        }
        target := record.child;
      }
      if current.Some? && !Allowed(current.value.status, record.status) {
        FoldConflictAfter(entries, i + 1, expected);
        return Conflict;
      }
      current, currentEntryId := Some(record), Some(entries[i].id);
    }
    assert entries[..|entries|] == entries;
    return Current(current, currentEntryId);
  }

  // ------------------------------------------------------------- growing a log

  lemma FoldNext(entries: seq<Entry>, i: nat, request: Request)
    requires i < |entries|
    ensures Fold(entries[..i + 1], request) == Step(Fold(entries[..i], request), entries[i], request)
  {
    assert entries[..i + 1][..i] == entries[..i];
  }

  lemma FoldAppend(entries: seq<Entry>, e: Entry, request: Request)
    ensures Fold(entries + [e], request) == Step(Fold(entries, request), e, request)
  {
    assert (entries + [e])[..|entries|] == entries;
  }

  lemma ReduceSnoc(entries: seq<Entry>, e: Entry, request: Request)
    ensures Reduce(entries + [e], request) == if Malformed(e) then Conflict
      else Step(Reduce(entries, request), e, request)
  {
    FoldAppend(entries, e, request);
    var all := entries + [e];
    assert all[|entries|] == e;
    assert forall i | 0 <= i < |entries| :: all[i] == entries[i];
    if AnyMalformed(entries) {
      var i :| 0 <= i < |entries| && Malformed(entries[i]);
      assert Malformed(all[i]);
    }
  }

  /** What stays true of a reduction while the log grows. */
  predicate Keeps(before: Reduction, after: Reduction) {
    after.Conflict? ||
    (before.Current? &&
     (before.record.Some? ==>
        && after.record.Some?
        && (before.record.value.child.Some? ==> after.record.value.child == before.record.value.child)
        && (Terminal(before.record.value.status) ==> after.record.value.status == before.record.value.status)))
  }

  lemma {:induction false} FoldKeeps(entries: seq<Entry>, more: seq<Entry>, request: Request)
    ensures Keeps(Fold(entries, request), Fold(entries + more, request))
    decreases |more|
  {
    if more == [] {
      assert entries + more == entries;
    } else {
      var front, last := more[..|more| - 1], more[|more| - 1];
      FoldKeeps(entries, front, request);
      assert entries + more == (entries + front) + [last];
      FoldAppend(entries + front, last, request);
    }
  }

  lemma FoldConflictAfter(entries: seq<Entry>, i: nat, request: Request)
    requires i <= |entries| && Fold(entries[..i], request).Conflict?
    ensures Fold(entries, request).Conflict?
  {
    FoldKeeps(entries[..i], entries[i..], request);
    assert entries[..i] + entries[i..] == entries;
  }

  /** Whatever is appended later: a conflict is permanent, a terminal state never
      changes, and the child never changes, short of a conflict. */
  lemma ReductionIsStable(entries: seq<Entry>, more: seq<Entry>, request: Request)
    ensures Keeps(Reduce(entries, request), Reduce(entries + more, request))
  {
    if AnyMalformed(entries) {
      var i :| 0 <= i < |entries| && Malformed(entries[i]);
      assert (entries + more)[i] == entries[i];
    } else if !AnyMalformed(entries + more) {
      FoldKeeps(entries, more, request);
    }
  }

  // ------------------------------------------------ what an accepted log is like

  /** The records about a request id, in order. */
  function Records(entries: seq<Entry>, id: string): seq<Record> {
    if entries == [] then []
    else
      var last := entries[|entries| - 1];
      Records(entries[..|entries| - 1], id) + (if Concerns(last, id) then [RecordOf(last)] else [])
  }

  /** All records are about this very request and each one may follow the one before. */
  predicate Consistent(records: seq<Record>, request: Request) {
    && (forall i | 0 <= i < |records| :: records[i].request == request)
    && (forall i | 0 < i < |records| :: Follows(records[i - 1], records[i]))
  }

  lemma ConsistentSnoc(records: seq<Record>, last: Record, request: Request)
    ensures Consistent(records + [last], request) <==>
      Consistent(records, request) && last.request == request &&
        (records != [] ==> Follows(records[|records| - 1], last))
  {
    var all := records + [last];
    if Consistent(all, request) {
      assert all[|records|] == last;
      assert forall i | 0 <= i < |records| :: records[i] == all[i];
    }
  }

  /** The reduction accepts a log exactly when its records are consistent, and then
      yields the last of them. */
  lemma {:induction false} FoldMeaning(entries: seq<Entry>, request: Request)
    ensures
      var records := Records(entries, request.id);
      && (Fold(entries, request).Current? <==> Consistent(records, request))
      && (Consistent(records, request) ==>
            Fold(entries, request).record == if records == [] then None else Some(records[|records| - 1]))
  {
    if entries != [] {
      var front, last := entries[..|entries| - 1], entries[|entries| - 1];
      FoldMeaning(front, request);
      if Concerns(last, request.id) {
        ConsistentSnoc(Records(front, request.id), RecordOf(last), request);
      } else {
        assert Records(front, request.id) + [] == Records(front, request.id);
      }
    }
  }

  predicate Abandons(e: Entry, request: Request) {
    Concerns(e, request.id) && (RecordOf(e).status == Failed || RecordOf(e).status == Cancelled)
  }

  predicate HasStatus(r: Reduction, s: Status) {
    r.Current? && r.record.Some? && r.record.value.status == s
  }

  /** A request that reads as transferred was never abandoned before. */
  lemma {:induction false} TransferredWasNeverAbandoned(entries: seq<Entry>, request: Request, i: nat)
    requires HasStatus(Reduce(entries, request), Transferred) && i < |entries|
    ensures !Abandons(entries[i], request)
  {
    if Abandons(entries[i], request) {
      var prefix := entries[..i + 1];
      FoldNext(entries, i, request);
      assert prefix + entries[i + 1..] == entries;
      FoldKeeps(prefix, entries[i + 1..], request);
    }
  }

  /** The record a reduction yields is in the log. */
  lemma {:induction false} ReducedEntry(entries: seq<Entry>, request: Request)
    requires Reduce(entries, request).Current? && Reduce(entries, request).record.Some?
    ensures exists i | 0 <= i < |entries| ::
      Concerns(entries[i], request.id) && RecordOf(entries[i]) == Reduce(entries, request).record.value &&
      Reduce(entries, request).at == Some(entries[i].id)
  {
    FoldEntry(entries, request);
  }

  lemma {:induction false} FoldEntry(entries: seq<Entry>, request: Request)
    requires Fold(entries, request).Current? && Fold(entries, request).record.Some?
    ensures exists i | 0 <= i < |entries| ::
      Concerns(entries[i], request.id) && RecordOf(entries[i]) == Fold(entries, request).record.value &&
      Fold(entries, request).at == Some(entries[i].id)
  {
    var front, last := entries[..|entries| - 1], entries[|entries| - 1];
    if Concerns(last, request.id) {
      assert entries[|entries| - 1] == last;
    } else {
      FoldEntry(front, request);
      var i :| 0 <= i < |front| && Concerns(front[i], request.id) &&
        RecordOf(front[i]) == Fold(front, request).record.value &&
        Fold(front, request).at == Some(front[i].id);
      assert entries[i] == front[i];
    }
  }

  /** With no record about the id there is nothing to reduce, and the other way round. */
  lemma {:induction false} FoldNone(entries: seq<Entry>, request: Request)
    ensures Fold(entries, request) == Current(None, None) <==>
      forall i | 0 <= i < |entries| :: !Concerns(entries[i], request.id)
  {
    if entries != [] {
      var front, last := entries[..|entries| - 1], entries[|entries| - 1];
      FoldNone(front, request);
      assert forall i | 0 <= i < |front| :: front[i] == entries[i];
      if Concerns(last, request.id) {
        assert Concerns(entries[|entries| - 1], request.id);
      }
    }
  }

  // ------------------------------------------------------------------ branches

  /** The path from the root to an entry; parents come before their children. */
  function Branch(entries: seq<Entry>, leaf: Option<nat>): (b: seq<Entry>)
    ensures |b| <= |entries|
  {
    if leaf.None? || entries == [] then []
    else
      var front, last := entries[..|entries| - 1], entries[|entries| - 1];
      if last.id == leaf.value then Branch(front, last.parent) + [last] else Branch(front, leaf)
  }

  /** The latest goal entry, if it is well formed. */
  function LatestGoal(entries: seq<Entry>): Option<Goal> {
    if entries == [] then None
    else
      var last := entries[|entries| - 1];
      if last.payload.GoalData? then last.payload.goal else LatestGoal(entries[..|entries| - 1])
  }

  function LatestHandoff(entries: seq<Entry>): Option<Record> {
    if entries == [] then None
    else
      var last := entries[|entries| - 1];
      if last.payload.HandoffData? then last.payload.record else LatestHandoff(entries[..|entries| - 1])
  }

  lemma {:induction false} BranchMembers(entries: seq<Entry>, leaf: Option<nat>)
    ensures forall i | 0 <= i < |Branch(entries, leaf)| :: Branch(entries, leaf)[i] in entries
  {
    if leaf.Some? && entries != [] {
      BranchMembers(entries[..|entries| - 1], entries[|entries| - 1].parent);
      BranchMembers(entries[..|entries| - 1], leaf);
      assert entries[|entries| - 1] in entries;
      assert forall e | e in entries[..|entries| - 1] :: e in entries;
    }
  }

  /** A child named once is named from then on. */
  lemma {:induction false} ChildlessSoFar(entries: seq<Entry>, request: Request, i: nat)
    requires Fold(entries, request).Current? && Fold(entries, request).record.Some?
    requires Fold(entries, request).record.value.child.None?
    requires i < |entries| && Concerns(entries[i], request.id)
    ensures RecordOf(entries[i]).child.None?
  {
    var prefix := entries[..i + 1];
    FoldNext(entries, i, request);
    assert prefix + entries[i + 1..] == entries;
    FoldKeeps(prefix, entries[i + 1..], request);
  }

  /** Appending with a new id changes no branch. */
  lemma BranchStable(entries: seq<Entry>, e: Entry, leaf: Option<nat>)
    requires leaf.Some? ==> leaf.value != e.id
    ensures Branch(entries + [e], leaf) == Branch(entries, leaf)
  {
    assert (entries + [e])[..|entries|] == entries;
  }

  lemma BranchAppend(entries: seq<Entry>, e: Entry)
    ensures Branch(entries + [e], Some(e.id)) == Branch(entries, e.parent) + [e]
  {
    assert (entries + [e])[..|entries|] == entries;
  }
}
