/** Exclusive ownership of a goal over every run of the handoff machine. */
module OwnershipProof {
  import opened HandoffLog
  import opened HandoffFinalize
  import opened GoalOwnership
  import opened Wrappers

  /** Some prefix of the log, and so the log at some moment, read as transferred. */
  ghost predicate TransferredBy(entries: seq<Entry>, request: Request) {
    exists k | 0 <= k <= |entries| :: HasStatus(Reduce(entries[..k], request), Transferred)
  }

  lemma TransferredByPrefix(entries: seq<Entry>, n: nat, request: Request)
    requires n <= |entries| && TransferredBy(entries[..n], request)
    ensures TransferredBy(entries, request)
  {
    var k :| 0 <= k <= n && HasStatus(Reduce(entries[..n][..k], request), Transferred);
    assert entries[..n][..k] == entries[..k];
  }

  /** Only a transferred record makes a log read as transferred. */
  lemma TransferredByAppend(entries: seq<Entry>, e: Entry, request: Request)
    requires !IsTransferredRecord(e, request)
    ensures TransferredBy(entries + [e], request) ==> TransferredBy(entries, request)
  {
    hide Fold;
    var all := entries + [e];
    if TransferredBy(all, request) {
      var k :| 0 <= k <= |all| && HasStatus(Reduce(all[..k], request), Transferred);
      if k <= |entries| {
        assert all[..k] == entries[..k];
      } else {
        assert all[..k] == all;
        ReduceSnoc(entries, e, request);
        assert entries[..|entries|] == entries;
      }
    }
  }

  lemma TransferredByNow(entries: seq<Entry>, request: Request)
    requires HasStatus(Reduce(entries, request), Transferred)
    ensures TransferredBy(entries, request)
  {
    assert entries[..|entries|] == entries;
  }

  /** A log that reads as anything else now never read as transferred. */
  lemma NeverTransferredYet(entries: seq<Entry>, request: Request, status: Status)
    requires HasStatus(Reduce(entries, request), status) && status != Transferred
    ensures !TransferredBy(entries, request)
  {
    hide Reduce;
    if TransferredBy(entries, request) {
      var k :| 0 <= k <= |entries| && HasStatus(Reduce(entries[..k], request), Transferred);
      assert entries[..k] + entries[k..] == entries;
      ReductionIsStable(entries[..k], entries[k..], request);
    }
  }

  lemma NoRecordNoTransfer(entries: seq<Entry>, request: Request)
    requires forall i | 0 <= i < |entries| :: !IsTransferredRecord(entries[i], request)
    ensures !TransferredBy(entries, request)
  {
    hide Fold;
    if TransferredBy(entries, request) {
      var k :| 0 <= k <= |entries| && HasStatus(Reduce(entries[..k], request), Transferred);
      ReducedEntry(entries[..k], request);
    }
  }

  // ------------------------------------------------------------------ the invariant

  predicate IdOk(id: Option<nat>, n: nat) {
    id.Some? ==> id.value < n
  }

  predicate MemoryOk(view: View, n: nat) {
    view.seen <= n && (forall i | i in view.own :: i < n) && IdOk(view.leaf, n)
  }

  predicate HasChild(s: State, request: Request) {
    request in s.attempts && s.attempts[request].phase.Replaced?
  }

  /** The parent's log only ever holds the parent's states. */
  predicate EntryOk(s: State, e: Entry) {
    !Malformed(e) &&
    (IsRecord(e) ==>
       var r := RecordOf(e);
       && r.request in s.attempts
       && r.status in {Prepared, ChildCreated, Transferred, Cancelled, Failed}
       && (r.status == Prepared ==> r.child.None?)
       && (NamesChild(r.status) ==> HasChild(s, r.request)))
  }

  predicate LogOk(s: State) {
    Ordered(s.disk) && forall i | 0 <= i < |s.disk| :: EntryOk(s, s.disk[i])
  }

  predicate ViewsOk(s: State) {
    && (forall v | v in s.views :: MemoryOk(s.views[v], |s.disk|))
    && (forall i | 0 <= i < |s.admissions| :: MemoryOk(s.admissions[i].memory, |s.disk|))
  }

  predicate AttemptsOk(s: State) {
    && (forall r | r in s.attempts :: r.originId == s.origin.id && r.originFile == s.origin.file)
    && (forall r, q | r in s.attempts && q in s.attempts && r.id == q.id :: r == q)
  }

  /** A child that was confirmed or released was so after the parent's log read as
      transferred. */
  ghost predicate ChildOk(s: State, request: Request)
    requires request in s.children
  {
    var c := s.children[request];
    HasChild(s, request) && (c.confirmed || Transferred in c.records ==> TransferredBy(s.disk, request))
  }

  ghost predicate ChildrenOk(s: State) {
    forall r | r in s.children :: ChildOk(s, r)
  }

  ghost predicate JobOk(s: State, job: Job) {
    match job
    case RecordChild(request, _, from) => HasChild(s, request) && IdOk(from, |s.disk|)
    case AddGoal(request, _, from, _) => HasChild(s, request) && IdOk(from, |s.disk|)
    case AddRecord(request, _, from, _) => HasChild(s, request) && IdOk(from, |s.disk|)
    case RestoreGoal(from, _) => IdOk(from, |s.disk|)
    case ReclaimRecord(_, request, _, _) => request in s.attempts && !TransferredBy(s.disk, request)
    case ReclaimGoal(_, _) => true
    case Finished => true
  }

  ghost predicate LockOk(s: State) {
    s.lock.Held? ==> JobOk(s, s.lock.job)
  }

  /** A handoff that is abandoned after it was transferred is abandoned by a superseding
      command, and by nothing else. */
  ghost predicate LateAt(s: State, j: nat)
    requires j < |s.disk|
  {
    (IsRecord(s.disk[j]) && Abandons(s.disk[j], RecordOf(s.disk[j]).request) &&
     TransferredBy(s.disk[..j], RecordOf(s.disk[j]).request)) ==> j in s.superseded
  }

  ghost predicate AbandonedOk(s: State) {
    forall j | 0 <= j < |s.disk| :: LateAt(s, j)
  }

  predicate AdmissionsOk(s: State) {
    forall i | 0 <= i < |s.admissions| ::
      !OutboundBlocks(Known(s.disk, s.admissions[i].memory), s.origin, s.admissions[i].goalId)
  }

  ghost predicate Inv(s: State) {
    LogOk(s) && ViewsOk(s) && AttemptsOk(s) && ChildrenOk(s) && LockOk(s) && AbandonedOk(s) && AdmissionsOk(s)
  }

  // ------------------------------------------------------------------ memories

  lemma {:induction false} KnownMembers(disk: seq<Entry>, view: View, i: nat)
    requires i < |Known(disk, view)|
    ensures exists j | 0 <= j < |disk| :: Known(disk, view)[i] == disk[j] && Knows(view, j)
  {
    var n := |disk| - 1;
    if i < |Known(disk[..n], view)| {
      KnownMembers(disk[..n], view, i);
      var j :| 0 <= j < n && Known(disk[..n], view)[i] == disk[..n][j] && Knows(view, j);
      assert disk[j] == disk[..n][j];
    } else {
      assert Known(disk, view)[i] == disk[n];
    }
  }

  lemma KnownAppend(disk: seq<Entry>, e: Entry, view: View)
    requires MemoryOk(view, |disk|)
    ensures Known(disk + [e], view) == Known(disk, view)
  {
    assert (disk + [e])[..|disk|] == disk;
    assert Known(disk, view) + [] == Known(disk, view);
  }

  /** A memory starts with everything that was on disk when it was opened. */
  lemma {:induction false} KnownStart(disk: seq<Entry>, view: View)
    requires view.seen <= |disk|
    ensures |Known(disk, view)| >= view.seen && Known(disk, view)[..view.seen] == disk[..view.seen]
  {
    var n := |disk| - 1;
    if view.seen == |disk| {
      KnownAll(disk, view);
    } else {
      KnownStart(disk[..n], view);
      assert disk[..n][..view.seen] == disk[..view.seen];
      assert Known(disk, view)[..view.seen] == Known(disk[..n], view)[..view.seen];
    }
  }

  lemma {:induction false} KnownAll(disk: seq<Entry>, view: View)
    requires |disk| <= view.seen
    ensures Known(disk, view) == disk
  {
    if disk != [] {
      KnownAll(disk[..|disk| - 1], view);
      assert disk[..|disk| - 1] + [disk[|disk| - 1]] == disk;
    }
  }

  // ------------------------------------------------------------ what a step appends

  /** What distinguishes the entries that matter, by the step that appends them. */
  ghost predicate AppendOk(s: State, t: State, e: Entry) {
    && e.id == |s.disk| && IdOk(e.parent, |s.disk|) && EntryOk(t, e)
    && (IsRecord(e) ==>
          var r := RecordOf(e);
          && (r.status == Transferred ==> s.lock.Held? && s.lock.job.AddRecord? && s.lock.job.request == r.request)
          && (Abandons(e, r.request) ==>
                || |s.disk| in t.superseded
                || !HasChild(s, r.request)
                || (s.lock.Held? && s.lock.job.ReclaimRecord? && s.lock.job.request == r.request)))
  }

  /** The log grows by at most one entry; attempts are never forgotten. */
  ghost predicate Shape(s: State, t: State) {
    && t.origin == s.origin && s.superseded <= t.superseded
    && (t.disk == s.disk || exists e :: t.disk == s.disk + [e] && AppendOk(s, t, e))
    && (forall r | r in s.attempts :: r in t.attempts && (HasChild(s, r) ==> HasChild(t, r)))
  }

  /** What every step does to the rest of the state. */
  predicate Carries(s: State, t: State) {
    && t.origin == s.origin && s.superseded <= t.superseded
    && (forall r | r in s.attempts :: r in t.attempts && (HasChild(s, r) ==> HasChild(t, r)))
  }

  lemma AppendShape(s: State, t: State, e: Entry)
    requires Carries(s, t) && t.disk == s.disk + [e] && AppendOk(s, t, e)
    ensures Shape(s, t)
  {
    hide AppendOk, HasChild;
  }

  /** An append by a view is where the view stands, and is fit for the log. */
  lemma PutShape(s: State, t: State, v: nat, payload: Payload)
    requires ViewsOk(s) && v in s.views && Carries(s, t) && t.disk == Put(s, v, payload).disk
    requires payload != HandoffData(None)
    requires payload.HandoffData? ==>
      var r := payload.record.value;
      && r.request in t.attempts && r.status in {Prepared, Cancelled, Failed}
      && (r.status == Prepared ==> r.child.None?)
      && (r.status in {Cancelled, Failed} ==>
            || |s.disk| in t.superseded || !HasChild(s, r.request)
            || (s.lock.Held? && s.lock.job.ReclaimRecord? && s.lock.job.request == r.request))
    ensures Shape(s, t)
  {
    hide Shape, Carries;
    var e := Entry(|s.disk|, s.views[v].leaf, payload);
    assert t.disk == s.disk + [e];
    assert AppendOk(s, t, e);
    AppendShape(s, t, e);
  }

  /** The request of a pending record in a memory is one of the attempts. */
  lemma PendingIsAttempt(s: State, v: nat)
    requires LogOk(s) && v in s.views && Pending(s, v).Some?
    ensures Pending(s, v).value.request in s.attempts
  {
    hide Fold, Branch, LatestHandoff, Known;
    var latest := LatestHandoff(BranchOf(s, v)).value;
    var memory := Memory(s, v);
    ReducedEntry(memory, latest.request);
    var i :| 0 <= i < |memory| && Concerns(memory[i], latest.request.id) &&
      RecordOf(memory[i]) == Reduce(memory, latest.request).record.value;
    KnownMembers(s.disk, s.views[v], i);
  }

  lemma LockedShape(s: State)
    requires LockOk(s) && ViewsOk(s) && Can(s, LockedAppend)
    ensures Shape(s, Do(s, LockedAppend))
  {
    LockedIs(s);
    hide Can, Do, Shape, ViewsOk, TransferredBy;
    var job := s.lock.job;
    var t := DoLockedAppend(s, job);
    match job
    case RecordChild(request, child, from) =>
      AppendShape(s, t, Entry(|s.disk|, from, HandoffData(Some(ChildCreatedRecord(request, child)))));
    case AddGoal(request, child, from, goal) =>
      AppendShape(s, t, Entry(|s.disk|, from, GoalData(Some(TransferredGoal(goal, request, child)))));
    case AddRecord(request, child, from, _) =>
      AppendShape(s, t, Entry(|s.disk|, from, HandoffData(Some(TransferredRecord(request, child)))));
    case RestoreGoal(from, suspended) =>
      AppendShape(s, t, Entry(|s.disk|, from, GoalData(suspended)));
    case ReclaimRecord(v, request, named, goal) =>
      PutShape(s, t, v, HandoffData(Some(Record(request, Failed, named, false, RECLAIMED))));
    case ReclaimGoal(v, goal) =>
      PutShape(s, t, v, GoalData(Some(ReclaimedGoal(goal))));
  }

  lemma LockedIs(s: State)
    requires Can(s, LockedAppend)
    ensures s.lock.Held? && s.lock.job != Finished
    ensures (s.lock.job.ReclaimRecord? || s.lock.job.ReclaimGoal?) ==> s.lock.job.view in s.views
    ensures Do(s, LockedAppend) == DoLockedAppend(s, s.lock.job)
  {
  }

  predicate ByView(a: Action) {
    a.Save? || a.Prepare? || a.Suspend? || a.Withdraw? || a.Supersede?
  }

  lemma PrepareShape(s: State, v: nat, request: Request)
    requires ViewsOk(s) && Can(s, Prepare(v, request))
    ensures Shape(s, Do(s, Prepare(v, request)))
  {
    hide Shape, ViewsOk, OutboundBlocks, BranchOf, LatestGoal, Memory;
    var t := Do(s, Prepare(v, request));
    assert request !in s.attempts;
    PutShape(s, t, v, HandoffData(Some(Record(request, Prepared, None, false, "prepared"))));
  }

  lemma SuspendShape(s: State, request: Request)
    requires ViewsOk(s) && Can(s, Suspend(request))
    ensures Shape(s, Do(s, Suspend(request)))
  {
    hide Shape, ViewsOk, OutboundBlocks, BranchOf, LatestGoal, Memory;
    var t, v := Do(s, Suspend(request)), s.attempts[request].view;
    var goal := LatestGoal(BranchOf(s, v));
    if request.goalId.Some? && goal.Some? {
      PutShape(s, t, v, GoalData(Some(SuspendedGoal(goal.value, request))));
    } else {
      QuietShape(s, t);
    }
  }

  lemma SupersedeShape(s: State, v: nat)
    requires LogOk(s) && ViewsOk(s) && Can(s, Supersede(v))
    ensures Shape(s, Do(s, Supersede(v)))
  {
    hide Shape, LogOk, ViewsOk, OutboundBlocks, BranchOf, LatestGoal, Memory, Pending;
    PendingIsAttempt(s, v);
    var prior := Pending(s, v).value;
    PutShape(s, Do(s, Supersede(v)), v,
      HandoffData(Some(Record(prior.request, Failed, prior.child, false, "superseded"))));
  }

  lemma ViewShape(s: State, a: Action)
    requires LogOk(s) && ViewsOk(s) && Can(s, a) && ByView(a)
    ensures Shape(s, Do(s, a))
  {
    hide Shape, LogOk, ViewsOk, OutboundBlocks, BranchOf, LatestGoal, Memory, Pending, FreshAttempt;
    match a
    case Save(v, payload) => PutShape(s, Do(s, a), v, payload);
    case Prepare(v, request) => PrepareShape(s, v, request);
    case Suspend(request) => SuspendShape(s, request);
    case Withdraw(request, status) =>
      PutShape(s, Do(s, a), s.attempts[request].view,
        HandoffData(Some(Record(request, status, None, false, "withdrawn"))));
    case Supersede(v) => SupersedeShape(s, v);
  }

  lemma QuietShape(s: State, t: State)
    requires Carries(s, t) && t.disk == s.disk
    ensures Shape(s, t)
  {
  }

  lemma QuietStep(s: State, a: Action)
    requires Can(s, a) && !ByView(a) && !a.LockedAppend?
    ensures Carries(s, Do(s, a)) && Do(s, a).disk == s.disk
  {
    hide Branch, Transition, Known, OutboundBlocks, LatestGoal, Reduce, Awaiting, Confirmed, Finalizing, Reclaiming,
      RecordFrom, MayReclaim;
  }

  lemma StepShape(s: State, a: Action)
    requires Inv(s) && Can(s, a)
    ensures Shape(s, Do(s, a))
  {
    hide LogOk, ViewsOk, LockOk, Can, Do, Shape, Carries;
    if a.LockedAppend? {
      LockedShape(s);
    } else if ByView(a) {
      ViewShape(s, a);
    } else {
      QuietStep(s, a);
      QuietShape(s, Do(s, a));
    }
  }

  // ------------------------------------------------------- every step keeps each part

  lemma LogKept(s: State, t: State)
    requires LogOk(s) && Shape(s, t)
    ensures LogOk(t)
  {
    forall i | 0 <= i < |t.disk|
      ensures EntryOk(t, t.disk[i]) && t.disk[i].id == i && (t.disk[i].parent.Some? ==> t.disk[i].parent.value < i)
    {
      if i < |s.disk| {
        assert t.disk[i] == s.disk[i] && EntryOk(s, s.disk[i]);
      }
    }
  }

  /** How a step may change the open views: it may append as one of them, or open, close
      or move some without appending. */
  ghost predicate ViewsMove(s: State, t: State) {
    || (t.views == s.views && |s.disk| <= |t.disk|)
    || (|t.disk| == |s.disk| + 1 &&
        exists v | v in s.views ::
          t.views == s.views[v := View(s.views[v].seen, s.views[v].own + {|s.disk|}, Some(|s.disk|))])
    || (t.disk == s.disk && forall v | v in t.views ::
      (v in s.views && t.views[v] == s.views[v]) || MemoryOk(t.views[v], |t.disk|))
  }

  lemma PutMoves(s: State, t: State, v: nat, payload: Payload)
    requires v in s.views && t.views == Put(s, v, payload).views && t.disk == Put(s, v, payload).disk
    ensures ViewsMove(s, t)
  {
  }

  lemma LockedMoves(s: State)
    requires Can(s, LockedAppend)
    ensures ViewsMove(s, Do(s, LockedAppend))
  {
    LockedIs(s);
    hide Can, Do, ViewsMove, Put;
    var t := DoLockedAppend(s, s.lock.job);
    match s.lock.job
    case ReclaimRecord(v, request, named, _) => PutMoves(s, t, v,
      HandoffData(Some(Record(request, Failed, named, false, RECLAIMED))));
    case ReclaimGoal(v, goal) => PutMoves(s, t, v, GoalData(Some(ReclaimedGoal(goal))));
    case _ => SameViews(s, t);
  }

  lemma SameViews(s: State, t: State)
    requires t.views == s.views && |s.disk| <= |t.disk|
    ensures ViewsMove(s, t)
  {
  }

  lemma ViewMoves(s: State, a: Action)
    requires Can(s, a) && ByView(a)
    ensures ViewsMove(s, Do(s, a))
  {
    hide ViewsMove, Put, OutboundBlocks, BranchOf, LatestGoal, Memory, Pending, FreshAttempt;
    var t := Do(s, a);
    match a
    case Save(v, payload) => PutMoves(s, t, v, payload);
    case Prepare(v, request) => PutMoves(s, t, v,
      HandoffData(Some(Record(request, Prepared, None, false, "prepared"))));
    case Suspend(request) =>
      var v := s.attempts[request].view;
      var goal := LatestGoal(BranchOf(s, v));
      if request.goalId.Some? && goal.Some? {
        PutMoves(s, t, v, GoalData(Some(SuspendedGoal(goal.value, request))));
      } else {
        SameViews(s, t);
      }
    case Withdraw(request, status) =>
      PutMoves(s, t, s.attempts[request].view, HandoffData(Some(Record(request, status, None, false, "withdrawn"))));
    case Supersede(v) =>
      var prior := Pending(s, v).value;
      PutMoves(s, t, v, HandoffData(Some(Record(prior.request, Failed, prior.child, false, "superseded"))));
  }

  lemma QuietMoves(s: State, a: Action)
    requires ViewsOk(s) && Can(s, a) && !ByView(a) && !a.LockedAppend?
    ensures ViewsMove(s, Do(s, a))
  {
    hide Branch, Transition, Known, OutboundBlocks, LatestGoal, Reduce, Awaiting, Confirmed, Finalizing, Reclaiming,
      RecordFrom, MayReclaim;
  }

  lemma MovedViewsOk(s: State, a: Action, t: State)
    requires ViewsOk(s) && ViewsMove(s, t) && AdmittedBy(s, a, t)
    ensures ViewsOk(t)
  {
    hide OutboundBlocks, Known;
  }

  lemma ViewsKept(s: State, a: Action)
    requires ViewsOk(s) && Can(s, a)
    ensures ViewsOk(Do(s, a))
  {
    hide Can, Do, ViewsOk, ViewsMove, AdmittedBy;
    AdmissionIs(s, a);
    if a.LockedAppend? {
      LockedMoves(s);
    } else if ByView(a) {
      ViewMoves(s, a);
    } else {
      QuietMoves(s, a);
    }
    MovedViewsOk(s, a, Do(s, a));
  }

  lemma AttemptsStay(s: State, a: Action)
    requires Can(s, a) && !a.Prepare?
    ensures Do(s, a).attempts.Keys == s.attempts.Keys && Do(s, a).origin == s.origin
  {
    hide Branch, Transition, Known, OutboundBlocks, LatestGoal, Reduce, Awaiting, Confirmed, Finalizing, Reclaiming,
      RecordFrom, MayReclaim, Pending;
  }

  lemma PreparedAttempt(s: State, v: nat, request: Request)
    requires Can(s, Prepare(v, request))
    ensures
      var t := Do(s, Prepare(v, request));
      FreshAttempt(s, request) && t.attempts.Keys == s.attempts.Keys + {request} && t.origin == s.origin
  {
    hide Branch, OutboundBlocks, LatestGoal, FreshAttempt, Known;
  }

  lemma AttemptsKept(s: State, a: Action)
    requires AttemptsOk(s) && Can(s, a)
    ensures AttemptsOk(Do(s, a))
  {
    hide Can, Do;
    if a.Prepare? {
      PreparedAttempt(s, a.view, a.request);
    } else {
      AttemptsStay(s, a);
    }
    var t := Do(s, a);
    assert forall r | r in t.attempts :: r in t.attempts.Keys;
    assert forall r | r in s.attempts.Keys :: r in s.attempts;
  }

  lemma DiskGrows(s: State, t: State)
    requires Shape(s, t)
    ensures |s.disk| <= |t.disk| && t.disk[..|s.disk|] == s.disk
  {
  }

  /** What a step may do to one child's session. */
  predicate ChildMove(s: State, t: State, r: Request)
    requires r in t.children
  {
    var c := t.children[r];
    && (r !in s.children ==> HasChild(t, r) && !c.confirmed && Transferred !in c.records)
    && (r in s.children && c.confirmed ==> s.children[r].confirmed || HasStatus(Reduce(t.disk, r), Transferred))
    && (r in s.children && Transferred in c.records ==> s.children[r].confirmed || Transferred in s.children[r].records)
  }

  lemma ChildMoves(s: State, a: Action, r: Request)
    requires Can(s, a) && r in Do(s, a).children
    ensures ChildMove(s, Do(s, a), r)
  {
    hide Branch, Transition, Known, OutboundBlocks, LatestGoal, Reduce, Awaiting, Finalizing, Reclaiming, RecordFrom,
      MayReclaim, Pending, MaySupersede, FreshAttempt, GoalAt;
  }

  lemma ChildrenKept(s: State, a: Action)
    requires ChildrenOk(s) && Can(s, a) && Shape(s, Do(s, a))
    ensures ChildrenOk(Do(s, a))
  {
    hide TransferredBy, Shape, Can, Do, ChildMove;
    var t := Do(s, a);
    DiskGrows(s, t);
    ShapeCarries(s, t);
    forall r | r in t.children
      ensures ChildOk(t, r)
    {
      ChildMoves(s, a, r);
      MovedChildOk(s, t, r);
    }
  }

  lemma MovedChildOk(s: State, t: State, r: Request)
    requires r in t.children && ChildMove(s, t, r) && (r in s.children ==> ChildOk(s, r)) && Carries(s, t)
    requires |s.disk| <= |t.disk| && t.disk[..|s.disk|] == s.disk
    ensures ChildOk(t, r)
  {
    hide TransferredBy, Reduce;
    if TransferredBy(s.disk, r) {
      TransferredByPrefix(t.disk, |s.disk|, r);
    }
    if HasStatus(Reduce(t.disk, r), Transferred) {
      TransferredByNow(t.disk, r);
    }
  }

  lemma ShapeCarries(s: State, t: State)
    requires Shape(s, t)
    ensures Carries(s, t)
  {
  }

  /** A transferred record comes from the holder of the lock that finalizes. */
  lemma JobKept(s: State, t: State, job: Job)
    requires JobOk(s, job) && s.lock == Held(job) && Shape(s, t)
    ensures JobOk(t, job)
  {
    hide TransferredBy, EntryOk;
    if job.ReclaimRecord? && t.disk != s.disk {
      var e :| t.disk == s.disk + [e] && AppendOk(s, t, e);
      TransferredByAppend(s.disk, e, job.request);
    }
  }

  lemma ReclaimJobOk(s: State, v: nat, request: Request)
    requires Can(s, TakeReclaim(v, request))
    ensures LockOk(Do(s, TakeReclaim(v, request)))
  {
    hide Branch, Known, LatestGoal, Fold, TransferredBy;
    var r := Reduce(s.disk, request);
    if r.record.value.status != Failed {
      NeverTransferredYet(s.disk, request, r.record.value.status);
    }
  }

  lemma RecordJobOk(s: State, request: Request)
    requires LogOk(s) && Can(s, TakeRecordChild(request))
    ensures LockOk(Do(s, TakeRecordChild(request)))
  {
    hide Fold, EntryOk, Transition, TransferredBy;
    FoldAt(s.disk, request);
    if request.goalId.Some? {
      TransitionGoal(s.disk, request, GoalTransferring);
    }
  }

  lemma FinalizeJobOk(s: State, request: Request)
    requires LogOk(s) && Can(s, TakeFinalize(request))
    ensures LockOk(Do(s, TakeFinalize(request)))
  {
    hide Branch, LatestGoal, Fold, EntryOk, Transition, TransferredBy;
    FoldAt(s.disk, request);
    if request.goalId.Some? && Transition(s.disk, |s.disk|, request, GoalTransferred).Some? {
      TransitionGoal(s.disk, request, GoalTransferred);
    }
  }

  lemma LockedJobOk(s: State)
    requires LockOk(s) && Can(s, LockedAppend) && Shape(s, Do(s, LockedAppend))
    ensures LockOk(Do(s, LockedAppend))
  {
    LockedIs(s);
    ShapeCarries(s, Do(s, LockedAppend));
    hide Can, Do, Shape, TransferredBy;
  }

  lemma LockIs(s: State, a: Action)
    requires Can(s, a)
    requires !a.LockedAppend? && !a.TakeRecordChild? && !a.TakeFinalize? && !a.TakeReclaim?
    ensures
      var t := Do(s, a);
      t.lock == s.lock || !t.lock.Held? ||
        (s.lock.Held? && t.disk == s.disk && t.lock == Held(AfterFailure(s.lock.job)))
  {
    hide Branch, Known, OutboundBlocks, LatestGoal, Reduce, Pending, Transition, Awaiting, Confirmed, FreshAttempt,
      Finalizing, Reclaiming, RecordFrom, MayReclaim;
  }

  lemma FailureJobOk(s: State, t: State)
    requires s.lock.Held? && JobOk(s, s.lock.job) && t.disk == s.disk
    ensures JobOk(t, AfterFailure(s.lock.job))
  {
  }

  lemma LockKept(s: State, a: Action)
    requires LogOk(s) && LockOk(s) && Can(s, a) && Shape(s, Do(s, a))
    ensures LockOk(Do(s, a))
  {
    hide Can, Do, Shape, JobOk, AfterFailure, LogOk;
    if a.LockedAppend? {
      LockedJobOk(s);
    } else if a.TakeRecordChild? {
      RecordJobOk(s, a.request);
    } else if a.TakeFinalize? {
      FinalizeJobOk(s, a.request);
    } else if a.TakeReclaim? {
      ReclaimJobOk(s, a.view, a.request);
    } else {
      var t := Do(s, a);
      LockIs(s, a);
      if t.lock.Held? {
        JobKept(s, t, s.lock.job);
        if t.lock != s.lock {
          FailureJobOk(s, t);
        }
      }
    }
  }

  /** No child yet, no transferred record yet. */
  lemma ChildlessNeverTransferred(s: State, t: State, request: Request)
    requires LogOk(s) && AttemptsOk(t) && Carries(s, t) && request in t.attempts && !HasChild(s, request)
    ensures !TransferredBy(s.disk, request)
  {
    hide TransferredBy, Ordered, Malformed;
    forall i | 0 <= i < |s.disk|
      ensures !IsTransferredRecord(s.disk[i], request)
    {
      assert EntryOk(s, s.disk[i]);
    }
    NoRecordNoTransfer(s.disk, request);
  }

  lemma AbandonedKept(s: State, t: State)
    requires LogOk(s) && LockOk(s) && AbandonedOk(s) && AttemptsOk(t) && Shape(s, t)
    ensures AbandonedOk(t)
  {
    hide TransferredBy, LogOk, AttemptsOk;
    DiskGrows(s, t);
    ShapeCarries(s, t);
    forall j | 0 <= j < |t.disk|
      ensures LateAt(t, j)
    {
      if j < |s.disk| {
        assert LateAt(s, j) && t.disk[j] == s.disk[j] && t.disk[..j] == s.disk[..j];
      } else {
        var e :| t.disk == s.disk + [e] && AppendOk(s, t, e);
        assert t.disk[j] == e && t.disk[..j] == s.disk;
        if IsRecord(e) && Abandons(e, RecordOf(e).request) && !HasChild(s, RecordOf(e).request) {
          ChildlessNeverTransferred(s, t, RecordOf(e).request);
        }
      }
    }
  }

  predicate AdmittedBy(s: State, a: Action, t: State) {
    || t.admissions == s.admissions
    || (a.Admit? && a.view in s.views && t.disk == s.disk &&
        t.admissions == s.admissions + [Admission(s.views[a.view], a.goalId)] &&
        !OutboundBlocks(Known(s.disk, s.views[a.view]), s.origin, a.goalId))
  }

  lemma AdmissionIs(s: State, a: Action)
    requires Can(s, a)
    ensures AdmittedBy(s, a, Do(s, a))
  {
    hide Branch, Known, OutboundBlocks, LatestGoal, Reduce, Pending, Transition, Awaiting, Confirmed;
  }

  lemma AdmissionsKept(s: State, a: Action)
    requires ViewsOk(s) && AdmissionsOk(s) && Can(s, a) && Shape(s, Do(s, a))
    ensures AdmissionsOk(Do(s, a))
  {
    AdmissionIs(s, a);
    var t := Do(s, a);
    ShapeCarries(s, t);
    hide Can, Do, OutboundBlocks, Known, AppendOk;
    forall i | 0 <= i < |t.admissions|
      ensures !OutboundBlocks(Known(t.disk, t.admissions[i].memory), t.origin, t.admissions[i].goalId)
    {
      if i < |s.admissions| {
        assert t.admissions[i] == s.admissions[i];
        if t.disk != s.disk {
          var e :| t.disk == s.disk + [e] && AppendOk(s, t, e);
          KnownAppend(s.disk, e, s.admissions[i].memory);
        }
      }
    }
  }

  lemma StepInv(s: State, a: Action)
    requires Inv(s) && Can(s, a)
    ensures Inv(Do(s, a))
  {
    hide Can, Do, LogOk, ViewsOk, AttemptsOk, ChildrenOk, LockOk, AbandonedOk, AdmissionsOk, Shape;
    StepShape(s, a);
    LogKept(s, Do(s, a));
    ViewsKept(s, a);
    AttemptsKept(s, a);
    ChildrenKept(s, a);
    LockKept(s, a);
    AbandonedKept(s, Do(s, a));
    AdmissionsKept(s, a);
  }

  lemma InitialInv(s: State)
    requires Initial(s)
    ensures Inv(s)
  {
  }

  lemma {:induction false} RunInv(s: State, actions: seq<Action>)
    requires Inv(s) && Legal(s, actions)
    ensures Inv(RunOf(s, actions))
    decreases |actions|
  {
    hide Inv, Can, Do;
    if actions != [] {
      StepInv(s, actions[0]);
      RunInv(Do(s, actions[0]), actions[1..]);
    }
  }

  lemma ReachableInv(s: State)
    requires Reachable(s)
    ensures Inv(s)
  {
    hide Inv, Can, Do;
    var start, actions :| Initial(start) && Legal(start, actions) && RunOf(start, actions) == s;
    InitialInv(start);
    RunInv(start, actions);
  }

  // ----------------------------------------------------------------- main results

  predicate Released(s: State, request: Request) {
    request in s.children && Transferred in s.children[request].records
  }

  predicate Remembers(disk: seq<Entry>, memory: View, request: Request) {
    exists i | 0 <= i < |disk| :: Knows(memory, i) && Concerns(disk[i], request.id)
  }

  /** The entry `j` abandons the request although the log had read as transferred. */
  ghost predicate AbandonedLate(disk: seq<Entry>, request: Request, j: nat) {
    j < |disk| && Abandons(disk[j], request) && TransferredBy(disk[..j], request)
  }

  /** Once the child is released, every record that abandons the handoff came later. */
  lemma ReleasedThenLate(s: State, request: Request, j: nat)
    requires Inv(s) && Released(s, request) && j < |s.disk| && Abandons(s.disk[j], request)
    ensures AbandonedLate(s.disk, request, j)
  {
    hide Reduce;
    assert ChildOk(s, request);
    var k :| 0 <= k <= |s.disk| && HasStatus(Reduce(s.disk[..k], request), Transferred);
    if j < k {
      TransferredWasNeverAbandoned(s.disk[..k], request, j);
    } else {
      assert s.disk[..j][..k] == s.disk[..k];
    }
  }

  /** A parent that abandons the handoff in time keeps the child from ever being released. */
  lemma TimelyAbandonShutsChildOut(s: State, request: Request, j: nat)
    requires Reachable(s) && request in s.attempts
    requires j < |s.disk| && Abandons(s.disk[j], request) && j !in s.superseded
    ensures !Released(s, request)
  {
    ReachableInv(s);
    SameRequest(s, request, j);
    assert LateAt(s, j);
    if Released(s, request) {
      ReleasedThenLate(s, request, j);
    }
  }

  lemma SameRequest(s: State, request: Request, j: nat)
    requires Inv(s) && request in s.attempts && j < |s.disk| && Concerns(s.disk[j], request.id)
    ensures RecordOf(s.disk[j]).request == request
  {
    assert EntryOk(s, s.disk[j]);
  }

  /** The gate shut the request out, unless the memory holds that it was abandoned. */
  lemma AdmittedMemory(s: State, adm: Admission, request: Request) returns (j: nat)
    requires Inv(s) && request in s.attempts && request.goalId == Some(adm.goalId)
    requires MemoryOk(adm.memory, |s.disk|) && !OutboundBlocks(Known(s.disk, adm.memory), s.origin, adm.goalId)
    requires Remembers(s.disk, adm.memory, request)
    ensures j < |s.disk| && Knows(adm.memory, j) && Abandons(s.disk[j], request)
    ensures !ShutBy(Reduce(Known(s.disk, adm.memory), request))
  {
    hide Fold, Known, TransferredBy;
    var memory := Known(s.disk, adm.memory);
    var i :| 0 <= i < |s.disk| && Knows(adm.memory, i) && Concerns(s.disk[i], request.id);
    SameRequest(s, request, i);
    var m := KnownHas(s.disk, adm.memory, i);
    assert OutboundTo(memory[m], s.origin, adm.goalId);
    assert !ShutBy(Reduce(memory, request));
    FoldNone(memory, request);
    assert Concerns(memory[m], request.id);
    ReducedEntry(memory, request);
    var n :| 0 <= n < |memory| && Concerns(memory[n], request.id) &&
      RecordOf(memory[n]) == Reduce(memory, request).record.value;
    KnownMembers(s.disk, adm.memory, n);
    j :| 0 <= j < |s.disk| && memory[n] == s.disk[j] && Knows(adm.memory, j);
    assert EntryOk(s, s.disk[j]);
  }

  lemma {:induction false} KnownHas(disk: seq<Entry>, view: View, i: nat) returns (m: nat)
    requires i < |disk| && Knows(view, i)
    ensures m < |Known(disk, view)| && Known(disk, view)[m] == disk[i]
  {
    var n := |disk| - 1;
    if i == n {
      m := |Known(disk[..n], view)|;
    } else {
      m := KnownHas(disk[..n], view, i);
    }
  }

  /** A memory that was opened after the transfer can never be talked out of it. */
  lemma OpenedAfterTransfer(disk: seq<Entry>, view: View, request: Request, k: nat)
    requires k <= view.seen <= |disk| && HasStatus(Reduce(disk[..k], request), Transferred)
    ensures ShutBy(Reduce(Known(disk, view), request))
  {
    hide Reduce, Known;
    KnownStart(disk, view);
    var memory := Known(disk, view);
    assert disk[..k] == memory[..k] by {
      assert memory[..view.seen][..k] == memory[..k] && disk[..view.seen][..k] == disk[..k];
    }
    assert memory[..k] + memory[k..] == memory;
    ReductionIsStable(memory[..k], memory[k..], request);
  }

  /** Exclusive ownership. Whenever, in whatever order, the child of a handoff was released
      and the parent's gate let work through on the same goal with the handoff in its
      memory, that very parent process had itself superseded the handoff after it was
      already transferred. */
  lemma ExclusiveOwnership(s: State, adm: Admission, request: Request)
    requires Reachable(s) && Released(s, request) && adm in s.admissions && request.goalId == Some(adm.goalId)
    requires Remembers(s.disk, adm.memory, request)
    ensures exists j :: j in adm.memory.own && j in s.superseded && AbandonedLate(s.disk, request, j)
  {
    hide Fold, Known, TransferredBy, Can, Do, Legal, RunOf;
    ReachableInv(s);
    assert ChildOk(s, request);
    var i :| 0 <= i < |s.admissions| && s.admissions[i] == adm;
    var j := AdmittedMemory(s, adm, request);
    ReleasedThenLate(s, request, j);
    if j < adm.memory.seen {
      LateIsSeen(s, adm.memory, request, j);
    }
    SameRequest(s, request, j);
    assert LateAt(s, j);
  }

  lemma LateIsSeen(s: State, memory: View, request: Request, j: nat)
    requires AbandonedLate(s.disk, request, j) && j < memory.seen <= |s.disk|
    ensures ShutBy(Reduce(Known(s.disk, memory), request))
  {
    hide Reduce;
    var k :| 0 <= k <= j && HasStatus(Reduce(s.disk[..j][..k], request), Transferred);
    assert s.disk[..j][..k] == s.disk[..k];
    OpenedAfterTransfer(s.disk, memory, request, k);
  }

  /** So a parent that remembers the handoff and has superseded nothing never works beside
      the released child. */
  lemma UpToDateParentIsShut(s: State, adm: Admission, request: Request)
    requires Reachable(s) && Released(s, request) && adm in s.admissions && request.goalId == Some(adm.goalId)
    requires adm.memory.own !! s.superseded
    ensures !Remembers(s.disk, adm.memory, request)
  {
    hide Fold, Known, TransferredBy, Can, Do, Legal, RunOf;
    if Remembers(s.disk, adm.memory, request) {
      ExclusiveOwnership(s, adm, request);
    }
  }

  /** The gate itself, for one request and any memory of a reachable log: open exactly when
      the memory holds nothing about the request or reads it as abandoned. */
  lemma GateIsExact(s: State, memory: View, request: Request)
    requires Reachable(s) && request in s.attempts && MemoryOk(memory, |s.disk|)
    ensures
      var r := Reduce(Known(s.disk, memory), request);
      !ShutBy(r) <==> !Remembers(s.disk, memory, request) || HasStatus(r, Failed) || HasStatus(r, Cancelled)
  {
    hide Known, Can, Do, Legal, RunOf;
    ReachableInv(s);
    GateIsExactHere(s, memory, request);
  }

  lemma GateIsExactHere(s: State, memory: View, request: Request)
    requires Inv(s) && request in s.attempts && MemoryOk(memory, |s.disk|)
    ensures
      var r := Reduce(Known(s.disk, memory), request);
      !ShutBy(r) <==> !Remembers(s.disk, memory, request) || HasStatus(r, Failed) || HasStatus(r, Cancelled)
  {
    hide Known, Fold;
    var known := Known(s.disk, memory);
    var r := Reduce(known, request);
    FoldNone(known, request);
    forall n | 0 <= n < |known|
      ensures !Malformed(known[n]) && (Concerns(known[n], request.id) ==> Remembers(s.disk, memory, request))
    {
      KnownMembers(s.disk, memory, n);
      var j :| 0 <= j < |s.disk| && known[n] == s.disk[j] && Knows(memory, j);
      assert EntryOk(s, s.disk[j]);
    }
    if Remembers(s.disk, memory, request) {
      var i :| 0 <= i < |s.disk| && Knows(memory, i) && Concerns(s.disk[i], request.id);
      var m := KnownHas(s.disk, memory, i);
      assert Concerns(known[m], request.id);
    }
    ReducedStatus(s, memory, request);
  }

  lemma ReducedStatus(s: State, memory: View, request: Request)
    requires LogOk(s)
    ensures
      var r := Reduce(Known(s.disk, memory), request);
      r.Current? && r.record.Some? ==> r.record.value.status in {Prepared, ChildCreated, Transferred, Cancelled, Failed}
  {
    hide Known, Fold;
    var known := Known(s.disk, memory);
    var r := Reduce(known, request);
    if r.Current? && r.record.Some? {
      ReducedEntry(known, request);
      var n :| 0 <= n < |known| && Concerns(known[n], request.id) && RecordOf(known[n]) == r.record.value;
      KnownMembers(s.disk, memory, n);
      var j :| 0 <= j < |s.disk| && known[n] == s.disk[j] && Knows(memory, j);
      assert EntryOk(s, s.disk[j]);
    }
  }
}
