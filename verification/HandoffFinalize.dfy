/** The parent's side of a self-handoff (`extensions/self-handoff/index.ts`). */
module HandoffFinalize {
  // Recording the child, finalizing the transfer and confirming it, with appends that may
  // fail and processes that may die.

  import opened HandoffLog
  import opened Wrappers

  /** Entry ids are positions, and parents come first. */
  predicate Ordered(entries: seq<Entry>) {
    forall i | 0 <= i < |entries| ::
      entries[i].id == i && (entries[i].parent.Some? ==> entries[i].parent.value < i)
  }

  function Add(entries: seq<Entry>, parent: Option<nat>, payload: Payload): seq<Entry> {
    entries + [Entry(|entries|, parent, payload)]
  }

  /** What becomes of one append. */
  datatype Fate = Works | Throws | DiesBefore | DiesAfter

  datatype Outcome = Done | Refused | Failure | Death

  // ------------------------------------------------------------------ goal entries

  predicate GoalMatches(goal: Option<Goal>, status: GoalStatus, request: Request) {
    goal.Some? && goal.value.status == status && Some(goal.value.id) == request.goalId &&
    goal.value.handoffId == Some(request.id)
  }

  function HandoffStatusFor(status: GoalStatus): Status {
    if status == GoalTransferring then Prepared else ChildCreated
  }

  /** A goal entry of this attempt on a branch where the attempt is that far. */
  predicate IsTransition(entries: seq<Entry>, e: Entry, request: Request, status: GoalStatus) {
    e.payload.GoalData? && GoalMatches(e.payload.goal, status, request) &&
    HasStatus(Reduce(Branch(entries, Some(e.id)), request), HandoffStatusFor(status))
  }

  /** The last such entry among the first `n`. */
  function Transition(entries: seq<Entry>, n: nat, request: Request, status: GoalStatus): (r: Option<Entry>)
    requires n <= |entries|
    ensures r.Some? <==> exists i | 0 <= i < n :: IsTransition(entries, entries[i], request, status)
    ensures r.Some? ==> r.value in entries && IsTransition(entries, r.value, request, status)
  {
    if n == 0 then None
    else if IsTransition(entries, entries[n - 1], request, status) then Some(entries[n - 1])
    else Transition(entries, n - 1, request, status)
  }

  method ParentGoalTransition(entries: seq<Entry>, request: Request, status: GoalStatus) returns (r: Option<Entry>)
    ensures r == Transition(entries, |entries|, request, status)
  {
    var n := |entries|;
    while n > 0
      invariant 0 <= n <= |entries|
      invariant Transition(entries, |entries|, request, status) == Transition(entries, n, request, status)
    {
      n := n - 1;
      var e := entries[n];
      if e.payload.GoalData? && GoalMatches(e.payload.goal, status, request) {
        var branch := ReduceSelfHandoffRequest(Branch(entries, Some(e.id)), request);
        if HasStatus(branch, HandoffStatusFor(status)) {
          return Some(e);
        }
      }
    }
    return None;
  }

  function TransferredGoal(goal: Goal, request: Request, child: Child): Goal {
    goal.(status := GoalTransferred, handoffId := Some(request.id), childFile := Some(child.file),
      rest := goal.rest + ["transferred"])
  }

  function TransferredRecord(request: Request, child: Child): Record {
    Record(request, Transferred, Some(child), false, "transferred")
  }

  function ChildCreatedRecord(request: Request, child: Child): Record {
    Record(request, ChildCreated, Some(child), false, "child created")
  }

  // ------------------------------------------------------------------ the steps

  predicate GoalAt(entries: seq<Entry>, at: Option<nat>, request: Request, status: GoalStatus) {
    request.goalId.Some? ==> GoalMatches(LatestGoal(Branch(entries, at)), status, request)
  }

  /** The handoff is in this state, for this child, with the goal in its state. */
  predicate Stands(entries: seq<Entry>, request: Request, child: Child, status: Status, goalStatus: GoalStatus) {
    var r := Reduce(entries, request);
    HasStatus(r, status) && r.record.value.child == Some(child) && GoalAt(entries, r.at, request, goalStatus)
  }

  /** The child is recorded and the goal is suspended. */
  predicate Awaiting(entries: seq<Entry>, request: Request, child: Child) {
    Stands(entries, request, child, ChildCreated, GoalTransferring)
  }

  /** The parent confirms the completed handoff. */
  predicate Confirmed(entries: seq<Entry>, request: Request, child: Child) {
    Stands(entries, request, child, Transferred, GoalTransferred)
  }

  /** Where the transferred record goes, and what the log is by then: on the transferred
      goal that is already there, or on one that is added now. */
  function Anchor(entries: seq<Entry>, request: Request, child: Child): (seq<Entry>, Option<nat>)
    requires Awaiting(entries, request, child)
  {
    var at := Reduce(entries, request).at;
    if request.goalId.None? then (entries, at)
    else
      var found := Transition(entries, |entries|, request, GoalTransferred);
      if found.Some? then (entries, Some(found.value.id))
      else
        var goal := LatestGoal(Branch(entries, at)).value;
        (Add(entries, at, GoalData(Some(TransferredGoal(goal, request, child)))), Some(|entries|))
  }

  /** The last append of a finalization, and the restored goal when it fails. */
  function Seal(entries: seq<Entry>, from: Option<nat>, goal: Option<Goal>, request: Request, child: Child,
    record: Fate, restore: Fate):
    (r: (seq<Entry>, Outcome))
  {
    match record
    case Works => (Add(entries, from, HandoffData(Some(TransferredRecord(request, child)))), Done)
    case DiesAfter => (Add(entries, from, HandoffData(Some(TransferredRecord(request, child)))), Death)
    case DiesBefore => (entries, Death)
    case Throws =>
      if request.goalId.None? then (entries, Failure)
      else match restore
        case Works => (Add(entries, from, GoalData(goal)), Failure)
        case Throws => (entries, Failure)
        case DiesBefore => (entries, Death)
        case DiesAfter => (Add(entries, from, GoalData(goal)), Death)
  }

  /** The fates of the appends of one call, in order. */
  datatype Fates = Fates(goal: Fate, record: Fate, restore: Fate)

  /** What one call makes of the parent's log. */
  function Finalize(entries: seq<Entry>, request: Request, child: Child, fates: Fates): (r: (seq<Entry>, Outcome)) {
    if Confirmed(entries, request, child) then (entries, Done)
    else if !Awaiting(entries, request, child) then (entries, Refused)
    else
      var goal := LatestGoal(Branch(entries, Reduce(entries, request).at));
      var anchor := Anchor(entries, request, child);
      if anchor.0 == entries then Seal(entries, anchor.1, goal, request, child, fates.record, fates.restore)
      else match fates.goal
        case Works => Seal(anchor.0, anchor.1, goal, request, child, fates.record, fates.restore)
        case Throws => (entries, Failure)
        case DiesBefore => (entries, Death)
        case DiesAfter => (anchor.0, Death)
  }

  /** What recording the child makes of the log. */
  function CreateChild(entries: seq<Entry>, request: Request, child: Child, fate: Fate): (r: (seq<Entry>, Outcome)) {
    var r := Reduce(entries, request);
    if Confirmed(entries, request, child) || Awaiting(entries, request, child) then (entries, Done)
    else if !HasStatus(r, Prepared) then (entries, Refused)
    else
      var found := Transition(entries, |entries|, request, GoalTransferring);
      if request.goalId.Some? && found.None? then (entries, Refused)
      else
        var from := if request.goalId.Some? then Some(found.value.id) else r.at;
        var added := Add(entries, from, HandoffData(Some(ChildCreatedRecord(request, child))));
        match fate
        case Works => (added, Done)
        case Throws => (entries, Failure)
        case DiesBefore => (entries, Death)
        case DiesAfter => (added, Death)
  }

  /** The parent's session file and its ownership lock. */
  class ParentFile {
    var entries: seq<Entry>
    var locked: bool

    constructor ()
      ensures entries == [] && !locked
    {
      entries, locked := [], false;
    }

    method Append(parent: Option<nat>, payload: Payload, fate: Fate) returns (outcome: Outcome)
      modifies `entries
      ensures entries == if fate == Works || fate == DiesAfter then Add(old(entries), parent, payload) else old(entries)
      ensures outcome == if fate == Works then Done else if fate == Throws then Failure else Death
    {
      if fate == Works || fate == DiesAfter {
        entries := entries + [Entry(|entries|, parent, payload)];
      }
      outcome := if fate == Works then Done else if fate == Throws then Failure else Death;
    }

    /** Under the exclusive lock file; a death in between leaves the lock behind, and
        every later update is then refused. */
    method FinalizeParentTransfer(request: Request, child: Child, fates: Fates) returns (outcome: Outcome)
      modifies this
      ensures old(locked) ==> outcome == Refused && entries == old(entries) && locked
      ensures !old(locked) ==> (entries, outcome) == Finalize(old(entries), request, child, fates)
      ensures !old(locked) ==> (locked <==> outcome == Death)
    {
      hide Reduce, Branch, LatestGoal, IsTransition;
      if locked {
        return Refused;
      }
      locked := true;
      outcome := FinalizeUnlocked(request, child, fates);
      if outcome != Death {
        locked := false;
      }
    }

    method FinalizeUnlocked(request: Request, child: Child, fates: Fates) returns (outcome: Outcome)
      modifies `entries
      ensures (entries, outcome) == Finalize(old(entries), request, child, fates)
    {
      hide Reduce, Branch, LatestGoal, IsTransition, Transition, TransferredGoal;
      var reduction := ReduceSelfHandoffRequest(entries, request);
      if reduction.Conflict? || reduction.record.None? || reduction.record.value.child != Some(child) {
        return Refused;
      }
      var latest := reduction.record.value;
      var branch := Branch(entries, reduction.at);
      var parentGoal := LatestGoal(branch);
      if latest.status == Transferred {
        if request.goalId.Some? && !GoalMatches(parentGoal, GoalTransferred, request) {
          return Refused;
        }
        return Done;
      }
      if latest.status != ChildCreated {
        return Refused;
      }
      var appendFrom := reduction.at;
      if request.goalId.Some? {
        if !GoalMatches(parentGoal, GoalTransferring, request) {
          return Refused;
        }
        var found := ParentGoalTransition(entries, request, GoalTransferred);
        if found.Some? {
          appendFrom := Some(found.value.id);
        } else {
          var from := appendFrom;
          appendFrom := Some(|entries|);
          var added := Append(from, GoalData(Some(TransferredGoal(parentGoal.value, request, child))), fates.goal);
          if added != Done {
            return added;
          }
        }
      }
      outcome := Append(appendFrom, HandoffData(Some(TransferredRecord(request, child))), fates.record);
      if outcome == Failure && request.goalId.Some? {
        var restored := Append(appendFrom, GoalData(parentGoal), fates.restore);
        if restored == Death {
          return Death;
        }
      }
    }

    method VerifyParentAlreadyTransferred(request: Request, child: Child) returns (confirmed: bool)
      ensures confirmed <==> !locked && Confirmed(entries, request, child)
    {
      if locked {
        return false;
      }
      var reduction := ReduceSelfHandoffRequest(entries, request);
      if !HasStatus(reduction, Transferred) || reduction.record.value.child != Some(child) {
        return false;
      }
      return request.goalId.None? || GoalMatches(LatestGoal(Branch(entries, reduction.at)), GoalTransferred, request);
    }

    method AppendParentChildCreated(request: Request, child: Child, fate: Fate) returns (outcome: Outcome)
      modifies this
      ensures old(locked) ==> outcome == Refused && entries == old(entries) && locked
      ensures !old(locked) ==> (entries, outcome) == CreateChild(old(entries), request, child, fate)
      ensures !old(locked) ==> (locked <==> outcome == Death)
    {
      hide Reduce, Branch, LatestGoal, IsTransition, Transition;
      if locked {
        return Refused;
      }
      var reduction := ReduceSelfHandoffRequest(entries, request);
      if HasStatus(reduction, Transferred) || HasStatus(reduction, ChildCreated) {
        if reduction.record.value.child != Some(child) {
          return Refused;
        }
        var expected := if HasStatus(reduction, Transferred) then GoalTransferred else GoalTransferring;
        if request.goalId.Some? && !GoalMatches(LatestGoal(Branch(entries, reduction.at)), expected, request) {
          return Refused;
        }
        return Done;
      }
      if !HasStatus(reduction, Prepared) {
        return Refused;
      }
      var appendFrom := reduction.at;
      if request.goalId.Some? {
        var found := ParentGoalTransition(entries, request, GoalTransferring);
        if found.None? {
          return Refused;
        }
        appendFrom := Some(found.value.id);
      }
      outcome := Append(appendFrom, HandoffData(Some(ChildCreatedRecord(request, child))), fate);
      locked := outcome == Death;
    }
  }

  // ------------------------------------------------------------ appending safely

  lemma AddKeepsOrder(entries: seq<Entry>, parent: Option<nat>, payload: Payload)
    requires Ordered(entries) && (parent.Some? ==> parent.value < |entries|)
    ensures Ordered(Add(entries, parent, payload))
  {
  }

  lemma AddKeepsBranches(entries: seq<Entry>, parent: Option<nat>, payload: Payload, leaf: Option<nat>)
    requires leaf.Some? ==> leaf.value < |entries|
    ensures Branch(Add(entries, parent, payload), leaf) == Branch(entries, leaf)
  {
    BranchStable(entries, Entry(|entries|, parent, payload), leaf);
  }

  lemma {:induction false} BranchEnds(entries: seq<Entry>, i: nat)
    requires Ordered(entries) && i < |entries|
    ensures Branch(entries, Some(i)) == Branch(entries[..i], entries[i].parent) + [entries[i]]
  {
    var n := |entries|;
    if i < n - 1 {
      BranchEnds(entries[..n - 1], i);
      assert entries[..n - 1][..i] == entries[..i];
    } else {
      assert entries[..n - 1] == entries[..i];
    }
  }

  lemma ReduceAdd(entries: seq<Entry>, parent: Option<nat>, payload: Payload, request: Request)
    ensures
      var e := Entry(|entries|, parent, payload);
      Reduce(Add(entries, parent, payload), request) ==
        if Malformed(e) then Conflict else Step(Reduce(entries, request), e, request)
  {
    ReduceSnoc(entries, Entry(|entries|, parent, payload), request);
  }

  lemma {:induction false} FoldAt(entries: seq<Entry>, request: Request)
    requires Ordered(entries)
    ensures var r := Fold(entries, request); r.Current? && r.record.Some? ==> r.at.value < |entries|
  {
    if entries != [] {
      FoldAt(entries[..|entries| - 1], request);
    }
  }

  /** An append that is not about the request leaves its standing alone. */
  lemma StandsBesides(entries: seq<Entry>, parent: Option<nat>, payload: Payload, request: Request, child: Child,
    status: Status, goalStatus: GoalStatus)
    requires Ordered(entries) && Stands(entries, request, child, status, goalStatus)
    requires payload != HandoffData(None) && !Concerns(Entry(|entries|, parent, payload), request.id)
    ensures Stands(Add(entries, parent, payload), request, child, status, goalStatus)
    ensures Reduce(Add(entries, parent, payload), request) == Reduce(entries, request)
  {
    hide Branch, LatestGoal, Fold;
    ReduceAdd(entries, parent, payload, request);
    FoldAt(entries, request);
    AddKeepsBranches(entries, parent, payload, Reduce(entries, request).at);
  }

  lemma LatestGoalAppend(branch: seq<Entry>, e: Entry)
    ensures LatestGoal(branch + [e]) == if e.payload.GoalData? then e.payload.goal else LatestGoal(branch)
  {
    assert (branch + [e])[..|branch|] == branch;
  }

  /** A record that may follow, put on a branch with the right goal, moves the handoff on. */
  lemma MovesOn(entries: seq<Entry>, from: Option<nat>, record: Record, request: Request, child: Child,
    goalStatus: GoalStatus)
    requires Ordered(entries) && record.request == request && record.child == Some(child)
    requires Reduce(entries, request).Current? && Reduce(entries, request).record.Some?
    requires Follows(Reduce(entries, request).record.value, record)
    requires GoalAt(entries, from, request, goalStatus) && (from.Some? ==> from.value < |entries|)
    ensures Stands(Add(entries, from, HandoffData(Some(record))), request, child, record.status, goalStatus)
  {
    hide Branch, LatestGoal, Reduce, Ordered;
    var payload := HandoffData(Some(record));
    var e := Entry(|entries|, from, payload);
    ReduceAdd(entries, from, payload, request);
    BranchAppend(entries, e);
    LatestGoalAppend(Branch(entries, from), e);
  }

  // -------------------------------------------------------------- recording the child

  lemma TransitionGoal(entries: seq<Entry>, request: Request, status: GoalStatus)
    requires Ordered(entries) && Transition(entries, |entries|, request, status).Some?
    ensures
      var e := Transition(entries, |entries|, request, status).value;
      e.id < |entries| && entries[e.id] == e && GoalAt(entries, Some(e.id), request, status)
  {
    hide Transition, Branch, LatestGoal, IsTransition;
    var e := Transition(entries, |entries|, request, status).value;
    var i :| 0 <= i < |entries| && entries[i] == e;
    assert IsTransition(entries, e, request, status);
    TransitionIsGoal(entries, e, request, status);
    BranchEnds(entries, i);
    LatestGoalAppend(Branch(entries[..i], e.parent), e);
  }

  lemma TransitionIsGoal(entries: seq<Entry>, e: Entry, request: Request, status: GoalStatus)
    requires IsTransition(entries, e, request, status)
    ensures e.payload.GoalData? && GoalMatches(e.payload.goal, status, request)
  {
  }

  /** Recording the child of a prepared handoff leaves the parent awaiting that child, and
      recording it again changes nothing. */
  lemma ChildIsRecorded(entries: seq<Entry>, request: Request, child: Child, fate: Fate)
    requires Ordered(entries) && HasStatus(Reduce(entries, request), Prepared)
    requires Reduce(entries, request).record.value.child.None?
    ensures
      var r := CreateChild(entries, request, child, fate);
      && (r.1 == Done ==> Awaiting(r.0, request, child))
      && (r.1 == Done <==>
        fate == Works && (request.goalId.Some? ==> Transition(entries, |entries|, request, GoalTransferring).Some?))
      && (r.0 != entries ==> Awaiting(r.0, request, child) && forall again: Fate ::
        CreateChild(r.0, request, child, again) == (r.0, Done))
  {
    hide Transition, Branch, LatestGoal, Fold;
    var found := Transition(entries, |entries|, request, GoalTransferring);
    if request.goalId.None? || found.Some? {
      var from := if request.goalId.Some? then Some(found.value.id) else Reduce(entries, request).at;
      if found.Some? {
        TransitionGoal(entries, request, GoalTransferring);
      }
      FoldAt(entries, request);
      MovesOn(entries, from, ChildCreatedRecord(request, child), request, child, GoalTransferring);
    }
  }

  // ------------------------------------------------------------------ finalization

  lemma AnchorHolds(entries: seq<Entry>, request: Request, child: Child)
    requires Ordered(entries) && Awaiting(entries, request, child)
    ensures
      var a := Anchor(entries, request, child);
      && Ordered(a.0) && Awaiting(a.0, request, child)
      && GoalAt(a.0, a.1, request, GoalTransferred) && (a.1.Some? ==> a.1.value < |a.0|)
  {
    hide Transition, Branch, LatestGoal, Fold, Ordered;
    var at := Reduce(entries, request).at;
    FoldAt(entries, request);
    if request.goalId.Some? {
      if Transition(entries, |entries|, request, GoalTransferred).Some? {
        TransitionGoal(entries, request, GoalTransferred);
      } else {
        var goal := TransferredGoal(LatestGoal(Branch(entries, at)).value, request, child);
        var e := Entry(|entries|, at, GoalData(Some(goal)));
        AddKeepsOrder(entries, at, GoalData(Some(goal)));
        StandsBesides(entries, at, GoalData(Some(goal)), request, child, ChildCreated, GoalTransferring);
        BranchAppend(entries, e);
        LatestGoalAppend(Branch(entries, at), e);
      }
    }
  }

  lemma SealHolds(entries: seq<Entry>, from: Option<nat>, goal: Option<Goal>, request: Request, child: Child,
    record: Fate, restore: Fate)
    requires Ordered(entries) && Awaiting(entries, request, child)
    requires GoalAt(entries, from, request, GoalTransferred) && (from.Some? ==> from.value < |entries|)
    ensures
      var r := Seal(entries, from, goal, request, child, record, restore);
      && Ordered(r.0) && (r.1 == Done <==> record == Works)
      && (if record == Works || record == DiesAfter then Confirmed(r.0, request, child)
        else Awaiting(r.0, request, child))
  {
    hide Branch, LatestGoal, Fold;
    if record == Works || record == DiesAfter {
      AddKeepsOrder(entries, from, HandoffData(Some(TransferredRecord(request, child))));
      MovesOn(entries, from, TransferredRecord(request, child), request, child, GoalTransferred);
    } else {
      AddKeepsOrder(entries, from, GoalData(goal));
      StandsBesides(entries, from, GoalData(goal), request, child, ChildCreated, GoalTransferring);
    }
  }

  lemma AwaitingIsCurrent(entries: seq<Entry>, request: Request, child: Child)
    requires Awaiting(entries, request, child)
    ensures HasStatus(Reduce(entries, request), ChildCreated)
  {
  }

  /** Wherever a call stops, the parent still awaits the child or has confirmed it, and a
      call whose appends work confirms it. */
  lemma FinalizeProgress(entries: seq<Entry>, request: Request, child: Child, fates: Fates)
    requires Ordered(entries) && Awaiting(entries, request, child)
    ensures
      var r := Finalize(entries, request, child, fates);
      && Ordered(r.0)
      && (Awaiting(r.0, request, child) || Confirmed(r.0, request, child))
      && (r.1 == Done ==> Confirmed(r.0, request, child))
      && (fates.goal == Works && fates.record == Works ==> r.1 == Done)
  {
    hide Stands, Seal, Anchor;
    var anchor := Anchor(entries, request, child);
    AnchorHolds(entries, request, child);
    assert Reduce(entries, request).Current? by { AwaitingIsCurrent(entries, request, child); }
    var goal := LatestGoal(Branch(entries, Reduce(entries, request).at));
    SealHolds(anchor.0, anchor.1, goal, request, child, fates.record, fates.restore);
  }

  /** After success another call appends nothing. */
  lemma FinalizeIsIdempotent(entries: seq<Entry>, request: Request, child: Child, fates: Fates)
    requires Confirmed(entries, request, child)
    ensures Finalize(entries, request, child, fates) == (entries, Done)
  {
  }

  // ------------------------------------------------------------------ counting entries

  predicate IsTransferredRecord(e: Entry, request: Request) {
    Concerns(e, request.id) && RecordOf(e).status == Transferred
  }

  predicate IsTransferredGoal(e: Entry, request: Request) {
    e.payload.GoalData? && GoalMatches(e.payload.goal, GoalTransferred, request)
  }

  function RecordCount(entries: seq<Entry>, request: Request): nat {
    if entries == [] then 0
    else
      RecordCount(entries[..|entries| - 1], request) +
      if IsTransferredRecord(entries[|entries| - 1], request) then 1 else 0
  }

  function GoalCount(entries: seq<Entry>, request: Request): nat {
    if entries == [] then 0
    else
      GoalCount(entries[..|entries| - 1], request) +
      if IsTransferredGoal(entries[|entries| - 1], request) then 1 else 0
  }

  lemma CountAdd(entries: seq<Entry>, parent: Option<nat>, payload: Payload, request: Request)
    ensures
      var e, all := Entry(|entries|, parent, payload), Add(entries, parent, payload);
      && RecordCount(all, request) == RecordCount(entries, request) + (if IsTransferredRecord(e, request) then 1 else 0)
      && GoalCount(all, request) == GoalCount(entries, request) + (if IsTransferredGoal(e, request) then 1 else 0)
  {
    assert Add(entries, parent, payload)[..|entries|] == entries;
  }

  lemma TransitionStays(entries: seq<Entry>, parent: Option<nat>, payload: Payload, request: Request,
    status: GoalStatus)
    requires Ordered(entries) && Transition(entries, |entries|, request, status).Some?
    ensures Transition(Add(entries, parent, payload), |entries| + 1, request, status).Some?
  {
    hide Branch;
    var i :| 0 <= i < |entries| && IsTransition(entries, entries[i], request, status);
    AddKeepsBranches(entries, parent, payload, Some(i));
    var all := Add(entries, parent, payload);
    assert all[i] == entries[i] && IsTransition(all, all[i], request, status);
  }

  /** The child was recorded on a branch of this attempt. */
  predicate OnBranch(entries: seq<Entry>, request: Request) {
    var r := Reduce(entries, request);
    r.Current? && HasStatus(Reduce(Branch(entries, r.at), request), ChildCreated)
  }

  lemma OnBranchBesides(entries: seq<Entry>, parent: Option<nat>, payload: Payload, request: Request)
    requires Ordered(entries) && OnBranch(entries, request)
    requires Reduce(Add(entries, parent, payload), request) == Reduce(entries, request)
    ensures OnBranch(Add(entries, parent, payload), request)
  {
    hide Branch, Fold;
    FoldAt(entries, request);
    AddKeepsBranches(entries, parent, payload, Reduce(entries, request).at);
  }

  /** How far the finalization is: at most one transferred goal, which a retry will find,
      and exactly as many transferred records as the handoff is transferred. */
  predicate OnTrack(entries: seq<Entry>, request: Request, child: Child) {
    && Ordered(entries)
    && (Awaiting(entries, request, child) || Confirmed(entries, request, child))
    && (Awaiting(entries, request, child) ==> OnBranch(entries, request))
    && RecordCount(entries, request) == (if Confirmed(entries, request, child) then 1 else 0)
    && GoalCount(entries, request) <= 1
    && (GoalCount(entries, request) == 1 ==> Transition(entries, |entries|, request, GoalTransferred).Some?)
    && (request.goalId.None? ==> GoalCount(entries, request) == 0)
    && (Confirmed(entries, request, child) && request.goalId.Some? ==> GoalCount(entries, request) == 1)
  }

  /** What other writers may append meanwhile: anything that is not about this attempt. */
  predicate Foreign(payload: Payload, request: Request) {
    && payload != HandoffData(None)
    && (payload.HandoffData? ==> payload.record.value.request.id != request.id)
    && (payload.GoalData? ==> !GoalMatches(payload.goal, GoalTransferred, request))
  }

  lemma NotBoth(entries: seq<Entry>, request: Request, child: Child)
    ensures !(Awaiting(entries, request, child) && Confirmed(entries, request, child))
  {
  }

  lemma ForeignKeepsTrack(entries: seq<Entry>, parent: Option<nat>, payload: Payload, request: Request, child: Child)
    requires OnTrack(entries, request, child) && Foreign(payload, request) &&
      (parent.Some? ==> parent.value < |entries|)
    ensures OnTrack(Add(entries, parent, payload), request, child)
  {
    hide Transition, Stands, RecordCount, GoalCount, Ordered, OnBranch;
    AddKeepsOrder(entries, parent, payload);
    CountAdd(entries, parent, payload, request);
    var all := Add(entries, parent, payload);
    NotBoth(entries, request, child);
    NotBoth(all, request, child);
    if Awaiting(entries, request, child) {
      StandsBesides(entries, parent, payload, request, child, ChildCreated, GoalTransferring);
      OnBranchBesides(entries, parent, payload, request);
    } else {
      StandsBesides(entries, parent, payload, request, child, Transferred, GoalTransferred);
    }
    if GoalCount(entries, request) == 1 {
      TransitionStays(entries, parent, payload, request, GoalTransferred);
    }
  }

  /** A transferred goal added on the branch of the child record is found by a retry. */
  lemma FreshTransition(entries: seq<Entry>, goal: Goal, request: Request)
    requires OnBranch(entries, request) && GoalMatches(Some(goal), GoalTransferred, request)
    ensures
      var all := Add(entries, Reduce(entries, request).at, GoalData(Some(goal)));
      Transition(all, |all|, request, GoalTransferred).Some?
  {
    hide Branch, LatestGoal, Fold, Reduce;
    var at := Reduce(entries, request).at;
    var e := Entry(|entries|, at, GoalData(Some(goal)));
    var all := Add(entries, at, GoalData(Some(goal)));
    BranchAppend(entries, e);
    ReduceSnoc(Branch(entries, at), e, request);
    assert all[|entries|] == e && IsTransition(all, all[|entries|], request, GoalTransferred);
  }

  /** After the goal is in place and before the transferred record is. */
  predicate AtAnchor(entries: seq<Entry>, from: Option<nat>, request: Request, child: Child) {
    && OnTrack(entries, request, child) && Awaiting(entries, request, child)
    && GoalAt(entries, from, request, GoalTransferred) && (from.Some? ==> from.value < |entries|)
    && (request.goalId.Some? ==> GoalCount(entries, request) == 1)
  }

  lemma AnchorOnTrack(entries: seq<Entry>, request: Request, child: Child)
    requires OnTrack(entries, request, child) && Awaiting(entries, request, child)
    ensures AtAnchor(Anchor(entries, request, child).0, Anchor(entries, request, child).1, request, child)
  {
    hide Transition, Stands, RecordCount, GoalCount, Ordered, OnBranch, Reduce, Branch, LatestGoal;
    AnchorHolds(entries, request, child);
    AwaitingIsCurrent(entries, request, child);
    var at := Reduce(entries, request).at;
    NotBoth(Anchor(entries, request, child).0, request, child);
    if request.goalId.Some? {
      if Transition(entries, |entries|, request, GoalTransferred).Some? {
        TransitionCounted(entries, request);
      } else {
        AwaitedGoal(entries, request, child);
        var goal := TransferredGoal(LatestGoal(Branch(entries, at)).value, request, child);
        var payload := GoalData(Some(goal));
        CountAdd(entries, at, payload, request);
        StandsBesides(entries, at, payload, request, child, ChildCreated, GoalTransferring);
        OnBranchBesides(entries, at, payload, request);
        FreshTransition(entries, goal, request);
      }
    }
  }

  lemma AwaitedGoal(entries: seq<Entry>, request: Request, child: Child)
    requires Awaiting(entries, request, child) && request.goalId.Some?
    ensures GoalMatches(LatestGoal(Branch(entries, Reduce(entries, request).at)), GoalTransferring, request)
  {
  }

  lemma {:induction false} CountPositive(entries: seq<Entry>, i: nat, request: Request)
    requires i < |entries| && IsTransferredGoal(entries[i], request)
    ensures GoalCount(entries, request) >= 1
  {
    if i < |entries| - 1 {
      CountPositive(entries[..|entries| - 1], i, request);
    }
  }

  lemma TransitionCounted(entries: seq<Entry>, request: Request)
    requires Transition(entries, |entries|, request, GoalTransferred).Some?
    ensures GoalCount(entries, request) >= 1
  {
    hide Branch;
    var i :| 0 <= i < |entries| && IsTransition(entries, entries[i], request, GoalTransferred);
    CountPositive(entries, i, request);
  }

  lemma SealOnTrack(entries: seq<Entry>, from: Option<nat>, goal: Option<Goal>, request: Request, child: Child,
    record: Fate, restore: Fate)
    requires AtAnchor(entries, from, request, child) && !GoalMatches(goal, GoalTransferred, request)
    ensures OnTrack(Seal(entries, from, goal, request, child, record, restore).0, request, child)
  {
    hide Transition, Stands, RecordCount, GoalCount, Ordered, OnBranch, Reduce, GoalMatches;
    SealHolds(entries, from, goal, request, child, record, restore);
    var after := Seal(entries, from, goal, request, child, record, restore).0;
    NotBoth(after, request, child);
    NotBoth(entries, request, child);
    if record == Works || record == DiesAfter {
      CountAdd(entries, from, HandoffData(Some(TransferredRecord(request, child))), request);
      if request.goalId.Some? {
        TransitionStays(entries, from, HandoffData(Some(TransferredRecord(request, child))), request, GoalTransferred);
      }
    } else if after != entries {
      ForeignKeepsTrack(entries, from, GoalData(goal), request, child);
    }
  }

  /** One call, wherever it stops, keeps the finalization on track. */
  lemma FinalizeKeepsTrack(entries: seq<Entry>, request: Request, child: Child, fates: Fates)
    requires OnTrack(entries, request, child)
    ensures OnTrack(Finalize(entries, request, child, fates).0, request, child)
  {
    hide OnTrack, Stands, Anchor, Seal, Branch, LatestGoal, Reduce;
    if !Confirmed(entries, request, child) {
      assert Awaiting(entries, request, child) by { TrackStands(entries, request, child); }
      AwaitingIsCurrent(entries, request, child);
      var anchor := Anchor(entries, request, child);
      var goal := LatestGoal(Branch(entries, Reduce(entries, request).at));
      AnchorOnTrack(entries, request, child);
      TransferringGoalDiffers(entries, request, child);
      if request.goalId.Some? {
        SealOnTrack(anchor.0, anchor.1, goal, request, child, fates.record, fates.restore);
      } else {
        SealWithoutGoal(anchor.0, anchor.1, goal, request, child, fates.record, fates.restore);
      }
    }
  }

  lemma TrackStands(entries: seq<Entry>, request: Request, child: Child)
    requires OnTrack(entries, request, child)
    ensures Awaiting(entries, request, child) || Confirmed(entries, request, child)
  {
  }

  lemma TransferringGoalDiffers(entries: seq<Entry>, request: Request, child: Child)
    requires Awaiting(entries, request, child)
    ensures request.goalId.Some? ==>
      !GoalMatches(LatestGoal(Branch(entries, Reduce(entries, request).at)), GoalTransferred, request)
  {
  }

  lemma SealWithoutGoal(entries: seq<Entry>, from: Option<nat>, goal: Option<Goal>, request: Request, child: Child,
    record: Fate, restore: Fate)
    requires AtAnchor(entries, from, request, child) && request.goalId.None?
    ensures OnTrack(Seal(entries, from, goal, request, child, record, restore).0, request, child)
  {
    SealOnTrack(entries, from, None, request, child, record, restore);
    assert Seal(entries, from, goal, request, child, record, restore) ==
      Seal(entries, from, None, request, child, record, restore);
  }

  // ------------------------------------------------------------- whole runs of retries

  datatype Event = Call(fates: Fates) | Other(parent: Option<nat>, payload: Payload)

  function After(entries: seq<Entry>, events: seq<Event>, request: Request, child: Child): seq<Entry> {
    if events == [] then entries
    else
      var before := After(entries, events[..|events| - 1], request, child);
      match events[|events| - 1]
      case Call(fates) => Finalize(before, request, child, fates).0
      case Other(parent, payload) => Add(before, parent, payload)
  }

  /** Others append what is not about this attempt, on existing branches. */
  predicate Possible(entries: seq<Entry>, events: seq<Event>, request: Request, child: Child) {
    forall i | 0 <= i < |events| && events[i].Other? ::
      Foreign(events[i].payload, request) &&
      (events[i].parent.Some? ==> events[i].parent.value < |After(entries, events[..i], request, child)|)
  }

  lemma {:induction false} RunKeepsTrack(entries: seq<Entry>, events: seq<Event>, request: Request, child: Child)
    requires OnTrack(entries, request, child) && Possible(entries, events, request, child)
    ensures OnTrack(After(entries, events, request, child), request, child)
  {
    hide OnTrack, Finalize, Foreign;
    if events != [] {
      var n := |events| - 1;
      var front := events[..n];
      assert Possible(entries, front, request, child) by {
        assert forall i | 0 <= i < n :: front[i] == events[i] && front[..i] == events[..i];
      }
      RunKeepsTrack(entries, front, request, child);
      var before := After(entries, front, request, child);
      match events[n]
      case Call(fates) => FinalizeKeepsTrack(before, request, child, fates);
      case Other(parent, payload) => ForeignKeepsTrack(before, parent, payload, request, child);
    }
  }

  /** Crash tolerance: after any calls, each stopped by a failing append or a death at any
      point, between any other writers' appends, the next undisturbed call completes with
      exactly one transferred record and one transferred goal. */
  lemma RetryCompletes(entries: seq<Entry>, events: seq<Event>, request: Request, child: Child, fates: Fates)
    requires OnTrack(entries, request, child) && Possible(entries, events, request, child)
    requires fates.goal == Works && fates.record == Works
    ensures
      var r := Finalize(After(entries, events, request, child), request, child, fates);
      && r.1 == Done && Confirmed(r.0, request, child)
      && RecordCount(r.0, request) == 1
      && GoalCount(r.0, request) == (if request.goalId.Some? then 1 else 0)
  {
    hide Stands, RecordCount, GoalCount, Transition, OnBranch, Finalize;
    var now := After(entries, events, request, child);
    RunKeepsTrack(entries, events, request, child);
    FinalizeKeepsTrack(now, request, child, fates);
    if Confirmed(now, request, child) {
      FinalizeIsIdempotent(now, request, child, fates);
    } else {
      FinalizeProgress(now, request, child, fates);
    }
  }

  /** Unless the parent was reclaimed: then no call ever appends anything again. */
  lemma ReclaimIsFinal(entries: seq<Entry>, more: seq<Entry>, request: Request, child: Child, fates: Fates)
    requires HasStatus(Reduce(entries, request), Failed) || HasStatus(Reduce(entries, request), Cancelled)
    ensures Finalize(entries + more, request, child, fates) == (entries + more, Refused)
    ensures !Confirmed(entries + more, request, child)
  {
    ReductionIsStable(entries, more, request);
  }

  lemma {:induction false} NothingTransferredYet(entries: seq<Entry>, request: Request)
    requires Fold(entries, request).Current?
    requires Fold(entries, request).record.None? || Fold(entries, request).record.value.status != Transferred
    ensures RecordCount(entries, request) == 0
  {
    if entries != [] {
      NothingTransferredYet(entries[..|entries| - 1], request);
    }
  }

  /** Recording the child of a fresh attempt puts its finalization on track. */
  lemma RecordingIsOnTrack(entries: seq<Entry>, request: Request, child: Child)
    requires Ordered(entries) && HasStatus(Reduce(entries, request), Prepared)
    requires Reduce(entries, request).record.value.child.None? && GoalCount(entries, request) == 0
    requires request.goalId.Some? ==> Transition(entries, |entries|, request, GoalTransferring).Some?
    requires request.goalId.None? ==> HasStatus(Reduce(Branch(entries, Reduce(entries, request).at), request), Prepared)
    ensures CreateChild(entries, request, child, Works).1 == Done
    ensures OnTrack(CreateChild(entries, request, child, Works).0, request, child)
  {
    hide Transition, Branch, LatestGoal, Fold, RecordCount, GoalCount;
    ChildIsRecorded(entries, request, child, Works);
    NothingTransferredYet(entries, request);
    var found := Transition(entries, |entries|, request, GoalTransferring);
    var from := if request.goalId.Some? then Some(found.value.id) else Reduce(entries, request).at;
    if found.Some? {
      TransitionGoal(entries, request, GoalTransferring);
    }
    FoldAt(entries, request);
    assert HasStatus(Reduce(Branch(entries, from), request), Prepared) by {
      if found.Some? {
        TransitionStatus(entries, found.value, request);
      }
    }
    ChildlessBranch(entries, from, request);
    var payload := HandoffData(Some(ChildCreatedRecord(request, child)));
    AddKeepsOrder(entries, from, payload);
    CountAdd(entries, from, payload, request);
    RecordOnBranch(entries, from, request, child);
    NotBoth(Add(entries, from, payload), request, child);
  }

  lemma TransitionStatus(entries: seq<Entry>, e: Entry, request: Request)
    requires IsTransition(entries, e, request, GoalTransferring)
    ensures HasStatus(Reduce(Branch(entries, Some(e.id)), request), Prepared)
  {
  }

  lemma ChildlessBranch(entries: seq<Entry>, from: Option<nat>, request: Request)
    requires HasStatus(Reduce(entries, request), Prepared) && Reduce(entries, request).record.value.child.None?
    requires HasStatus(Reduce(Branch(entries, from), request), Prepared)
    ensures Reduce(Branch(entries, from), request).record.value.child.None?
  {
    hide Branch, Fold;
    var branch := Branch(entries, from);
    BranchMembers(entries, from);
    ReducedEntry(branch, request);
    var i :| 0 <= i < |branch| && Concerns(branch[i], request.id) &&
      RecordOf(branch[i]) == Reduce(branch, request).record.value;
    assert branch[i] in entries;
    var j :| 0 <= j < |entries| && entries[j] == branch[i];
    ChildlessSoFar(entries, request, j);
  }

  lemma RecordOnBranch(entries: seq<Entry>, from: Option<nat>, request: Request, child: Child)
    requires Ordered(entries) && HasStatus(Reduce(entries, request), Prepared)
    requires Reduce(entries, request).record.value.child.None?
    requires HasStatus(Reduce(Branch(entries, from), request), Prepared)
    requires Reduce(Branch(entries, from), request).record.value.child.None?
    ensures OnBranch(Add(entries, from, HandoffData(Some(ChildCreatedRecord(request, child)))), request)
  {
    hide Branch, Fold;
    var payload := HandoffData(Some(ChildCreatedRecord(request, child)));
    var e := Entry(|entries|, from, payload);
    ReduceAdd(entries, from, payload, request);
    BranchAppend(entries, e);
    ReduceSnoc(Branch(entries, from), e, request);
  }
}
