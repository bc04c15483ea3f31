/** In which order a handoff goes. */
module OwnershipOrder {
  // In every run: no child before the prepared record is in the file, no transferred record
  // before the child waits for its user, no release before that record, and no second
  // handoff of a goal that is on its way.

  import opened HandoffLog
  import opened HandoffFinalize
  import opened GoalOwnership
  import opened OwnershipProof
  import opened Wrappers

  /** The log has read as prepared. */
  ghost predicate PreparedBy(entries: seq<Entry>, request: Request) {
    exists k | 0 <= k <= |entries| :: HasStatus(Reduce(entries[..k], request), Prepared)
  }

  /** The child has received the handoff and come to wait for its user. */
  predicate Waited(s: State, request: Request) {
    request in s.children && AwaitingUser in s.children[request].records
  }

  /** A child is made only of what was verified in the file. */
  ghost predicate VerifiedOk(s: State) {
    && (forall r | r in s.attempts && (s.attempts[r].phase == Durable || s.attempts[r].phase.Replaced?) ::
          PreparedBy(s.disk, r))
    && forall r | r in s.children :: r in s.attempts && s.attempts[r].phase.Replaced?
  }

  predicate JobWaited(s: State) {
    s.lock.Held? && (s.lock.job.AddGoal? || s.lock.job.AddRecord?) ==> Waited(s, s.lock.job.request)
  }

  predicate TransfersWaited(s: State) {
    forall i, r | 0 <= i < |s.disk| && r in s.attempts && IsTransferredRecord(s.disk[i], r) :: Waited(s, r)
  }

  predicate ConfirmsWaited(s: State) {
    forall r | r in s.children && (s.children[r].confirmed || Transferred in s.children[r].records) :: Waited(s, r)
  }

  // -------------------------------------------------------------------------- one step

  lemma PreparedByGrows(s: State, t: State, request: Request)
    requires Shape(s, t) && PreparedBy(s.disk, request)
    ensures PreparedBy(t.disk, request)
  {
    hide Reduce;
    DiskGrows(s, t);
    var k :| 0 <= k <= |s.disk| && HasStatus(Reduce(s.disk[..k], request), Prepared);
    assert t.disk[..k] == t.disk[..|s.disk|][..k] == s.disk[..k];
  }

  /** Where an attempt may have got to. */
  lemma PhaseMoves(s: State, a: Action, r: Request)
    requires Can(s, a) && r in Do(s, a).attempts
    ensures
      var p := Do(s, a).attempts[r].phase;
      || (r in s.attempts && p == s.attempts[r].phase)
      || p in {Appended, Suspended, Withdrawn}
      || (p == Durable && a == VerifyPrepared(r))
      || (p.Replaced? && a.Replace? && a.request == r && r in s.attempts && s.attempts[r].phase == Durable)
  {
    hide Branch, Transition, Known, OutboundBlocks, LatestGoal, Reduce, Awaiting, Confirmed, Finalizing, Reclaiming,
      RecordFrom, MayReclaim, Pending, MaySupersede, FreshAttempt, GoalAt;
  }

  lemma ReplacedStays(s: State, a: Action, r: Request)
    requires Can(s, a) && r in s.attempts && s.attempts[r].phase.Replaced?
    ensures r in Do(s, a).attempts && Do(s, a).attempts[r].phase.Replaced?
  {
    hide Branch, Transition, Known, OutboundBlocks, LatestGoal, Reduce, Awaiting, Confirmed, Finalizing, Reclaiming,
      RecordFrom, MayReclaim, Pending, MaySupersede, GoalAt;
  }

  lemma VerifyIs(s: State, r: Request)
    requires Can(s, VerifyPrepared(r))
    ensures HasStatus(Reduce(s.disk, r), Prepared) && Do(s, VerifyPrepared(r)).disk == s.disk
  {
    hide Transition, Reduce;
  }

  lemma NewChild(s: State, a: Action, r: Request)
    requires Can(s, a) && r in Do(s, a).children && r !in s.children
    ensures a.Replace? && a.request == r && r in Do(s, a).attempts && Do(s, a).attempts[r].phase.Replaced?
  {
    hide Branch, Transition, Known, OutboundBlocks, LatestGoal, Reduce, Awaiting, Confirmed, Finalizing, Reclaiming,
      RecordFrom, MayReclaim, Pending, MaySupersede, FreshAttempt, GoalAt;
  }

  lemma VerifiedKept(s: State, a: Action)
    requires Inv(s) && VerifiedOk(s) && Can(s, a)
    ensures VerifiedOk(Do(s, a))
  {
    hide Can, Do, Inv, PreparedBy, Shape, Reduce;
    var t := Do(s, a);
    ShapeHolds(s, a);
    forall r | r in t.attempts && (t.attempts[r].phase == Durable || t.attempts[r].phase.Replaced?)
      ensures PreparedBy(t.disk, r)
    {
      PhaseMoves(s, a, r);
      if a == VerifyPrepared(r) {
        VerifyIs(s, r);
        PreparedNow(t.disk, r);
      } else {
        PreparedByGrows(s, t, r);
      }
    }
    forall r | r in t.children
      ensures r in t.attempts && t.attempts[r].phase.Replaced?
    {
      if r in s.children {
        ReplacedStays(s, a, r);
      } else {
        NewChild(s, a, r);
      }
    }
  }

  lemma PreparedNow(entries: seq<Entry>, request: Request)
    requires HasStatus(Reduce(entries, request), Prepared)
    ensures PreparedBy(entries, request)
  {
    assert entries[..|entries|] == entries;
  }

  lemma ShapeHolds(s: State, a: Action)
    requires Inv(s) && Can(s, a)
    ensures Shape(s, Do(s, a))
  {
    hide Can, Do, Shape;
    StepShape(s, a);
  }

  /** A child's records only get more. */
  lemma WaitedStays(s: State, a: Action, r: Request)
    requires Can(s, a) && Waited(s, r)
    ensures Waited(Do(s, a), r)
  {
    hide Branch, Transition, Known, OutboundBlocks, LatestGoal, Reduce, Awaiting, Confirmed, Finalizing, Reclaiming,
      RecordFrom, MayReclaim, Pending, MaySupersede, FreshAttempt, GoalAt;
  }

  /** Who may add a transferred goal or record: who was about to, or one who takes the lock
      for a child that waits. */
  lemma JobMoves(s: State, a: Action)
    requires Can(s, a)
    requires
      var lock := Do(s, a).lock;
      lock.Held? && (lock.job.AddGoal? || lock.job.AddRecord?)
    ensures
      var r := Do(s, a).lock.job.request;
      || (s.lock.Held? && (s.lock.job.AddGoal? || s.lock.job.AddRecord?) && s.lock.job.request == r)
      || (a == TakeFinalize(r) && Waited(s, r))
  {
    hide Branch, Transition, Known, OutboundBlocks, LatestGoal, Reduce, Awaiting, Confirmed, RecordFrom,
      MayReclaim, Pending, MaySupersede, FreshAttempt, GoalAt;
  }

  lemma JobWaitedKept(s: State, a: Action)
    requires JobWaited(s) && Can(s, a)
    ensures JobWaited(Do(s, a))
  {
    hide Can, Do, Waited;
    var t := Do(s, a);
    if t.lock.Held? && (t.lock.job.AddGoal? || t.lock.job.AddRecord?) {
      JobMoves(s, a);
      WaitedStays(s, a, t.lock.job.request);
    }
  }

  lemma TransfersKept(s: State, a: Action)
    requires Inv(s) && JobWaited(s) && TransfersWaited(s) && Can(s, a)
    ensures TransfersWaited(Do(s, a))
  {
    hide Can, Do, Waited, EntryOk, TransferredBy;
    var t := Do(s, a);
    ShapeHolds(s, a);
    StepInv(s, a);
    forall i, r | 0 <= i < |t.disk| && r in t.attempts && IsTransferredRecord(t.disk[i], r)
      ensures Waited(t, r)
    {
      SameRequest(t, r, i);
      if i < |s.disk| {
        DiskGrows(s, t);
        assert t.disk[i] == s.disk[i];
        assert EntryOk(s, s.disk[i]);
        EntryAttempt(s, i);
        WaitedStays(s, a, r);
      } else {
        var e :| t.disk == s.disk + [e] && AppendOk(s, t, e);
        WaitedStays(s, a, r);
      }
    }
  }

  lemma EntryAttempt(s: State, i: nat)
    requires i < |s.disk| && EntryOk(s, s.disk[i]) && IsRecord(s.disk[i])
    ensures RecordOf(s.disk[i]).request in s.attempts
  {
  }

  /** A confirmation, and a release, come to a child that waits. */
  lemma ConfirmMoves(s: State, a: Action, r: Request)
    requires Can(s, a) && r in Do(s, a).children
    requires Do(s, a).children[r].confirmed || Transferred in Do(s, a).children[r].records
    ensures
      || (r in s.children && (s.children[r].confirmed || Transferred in s.children[r].records))
      || Waited(s, r)
  {
    hide Branch, Transition, Known, OutboundBlocks, LatestGoal, Reduce, Awaiting, Confirmed, Finalizing, Reclaiming,
      RecordFrom, MayReclaim, Pending, MaySupersede, FreshAttempt, GoalAt;
  }

  lemma ConfirmsKept(s: State, a: Action)
    requires ConfirmsWaited(s) && Can(s, a)
    ensures ConfirmsWaited(Do(s, a))
  {
    hide Can, Do, Waited;
    var t := Do(s, a);
    forall r | r in t.children && (t.children[r].confirmed || Transferred in t.children[r].records)
      ensures Waited(t, r)
    {
      ConfirmMoves(s, a, r);
      WaitedStays(s, a, r);
    }
  }

  // -------------------------------------------------------------------------- every run

  ghost predicate InOrder(s: State) {
    VerifiedOk(s) && JobWaited(s) && TransfersWaited(s) && ConfirmsWaited(s)
  }

  lemma {:induction false} RunInOrder(s: State, actions: seq<Action>)
    requires Inv(s) && InOrder(s) && Legal(s, actions)
    ensures InOrder(RunOf(s, actions))
    decreases |actions|
  {
    hide Can, Do, Inv, VerifiedOk, JobWaited, TransfersWaited, ConfirmsWaited;
    if actions != [] {
      var a := actions[0];
      StepInv(s, a);
      VerifiedKept(s, a);
      JobWaitedKept(s, a);
      TransfersKept(s, a);
      ConfirmsKept(s, a);
      RunInOrder(Do(s, a), actions[1..]);
    }
  }

  lemma ReachableInOrder(s: State)
    requires Reachable(s)
    ensures InOrder(s)
  {
    hide Can, Do;
    var start: State, actions: seq<Action> :| Initial(start) && Legal(start, actions) && RunOf(start, actions) == s;
    InitialInv(start);
    StartInOrder(start);
    RunInOrder(start, actions);
  }

  lemma StartInOrder(s: State)
    requires Initial(s)
    ensures InOrder(s)
  {
  }

  /** The order of a handoff, in every reachable state: a child exists only if the file has
      read as prepared; the file holds a transferred record, or the child is confirmed or
      released, only if the child has come to wait for its user; and the child is released
      only if the file has read as transferred. */
  lemma HandoffGoesInOrder(s: State, request: Request)
    requires Reachable(s) && request in s.attempts
    ensures request in s.children ==> PreparedBy(s.disk, request)
    ensures (exists i | 0 <= i < |s.disk| :: IsTransferredRecord(s.disk[i], request)) ==>
      request in s.children && AwaitingUser in s.children[request].records
    ensures Released(s, request) ==> AwaitingUser in s.children[request].records && TransferredBy(s.disk, request)
  {
    hide Reachable, PreparedBy, TransferredBy;
    ReachableInOrder(s);
    ReachableInv(s);
    if request in s.children {
      assert ChildOk(s, request);
    }
  }

  /** No second handoff: a process whose memory reads a handoff of its goal as pending or
      transferred, or whose goal is on its way, cannot prepare another. */
  lemma NoSecondHandoff(s: State, v: nat, earlier: Request, next: Request)
    requires Inv(s) && v in s.views && earlier in s.attempts && LatestGoal(BranchOf(s, v)).Some?
    requires
      var goal, r := LatestGoal(BranchOf(s, v)).value, Reduce(Memory(s, v), earlier);
      || goal.status in {GoalTransferring, GoalTransferred}
      || (earlier.goalId == Some(goal.id) &&
          (HasStatus(r, Prepared) || HasStatus(r, ChildCreated) || HasStatus(r, Transferred)))
    ensures !Can(s, Prepare(v, next))
  {
    hide Known, Branch, LatestGoal, Fold;
    var goal, memory := LatestGoal(BranchOf(s, v)).value, Memory(s, v);
    var r := Reduce(memory, earlier);
    if HasStatus(r, Prepared) || HasStatus(r, ChildCreated) || HasStatus(r, Transferred) {
      ReducedEntry(memory, earlier);
      var i :| 0 <= i < |memory| && Concerns(memory[i], earlier.id) && RecordOf(memory[i]) == r.record.value;
      ReducedIsAbout(memory, earlier);
      assert earlier.goalId == Some(goal.id) ==> OutboundTo(memory[i], s.origin, goal.id);
    }
  }

  lemma ReducedIsAbout(entries: seq<Entry>, request: Request)
    requires Reduce(entries, request).Current? && Reduce(entries, request).record.Some?
    ensures Reduce(entries, request).record.value.request == request
  {
    var r := Fold(entries, request);
  }
}
