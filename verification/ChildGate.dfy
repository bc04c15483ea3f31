/** The child's side of a self-handoff: what its own log holds back until it is released. */
module ChildGate {
  // `extensions/_shared/handoff-state.ts` and `extensions/goal/index.ts`.

  import opened HandoffLog
  import opened HandoffFinalize
  import opened GoalOwnership
  import opened OwnershipProof
  import opened OwnershipRecovery
  import opened Wrappers

  /** A record that names this session as the child of a handoff. */
  predicate Targets(e: Entry, self: Origin) {
    IsRecord(e) && RecordOf(e).child == Some(Child(self.file, self.id))
  }

  /** A record of a handoff that came here from another session. */
  predicate Inherited(e: Entry, self: Origin) {
    Targets(e, self) && RecordOf(e).request.originFile != self.file
  }

  predicate ForGoal(request: Request, goal: Option<string>) {
    goal.None? || request.goalId == goal
  }

  /** Received, but not yet released. */
  predicate Open(r: Reduction) {
    HasStatus(r, Received) || HasStatus(r, AwaitingUser)
  }

  predicate Settled(r: Reduction) {
    r.Current? && !Open(r)
  }

  predicate Candidate(e: Entry, self: Origin, goal: Option<string>) {
    Inherited(e, self) && ForGoal(RecordOf(e).request, goal)
  }

  // ---------------------------------------------------------------- the orientation

  /** Whether the session is, or may be, in its orientation. */
  predicate Orienting(entries: seq<Entry>, self: Origin, goal: Option<string>) {
    AnyMalformed(entries) ||
    exists i | 0 <= i < |entries| ::
      Candidate(entries[i], self, goal) && !Settled(Reduce(entries, RecordOf(entries[i]).request))
  }

  datatype Orientation = Nothing | Pending(awaitingUser: bool, record: Record) | Invalid

  /** The latest handoff that is not settled speaks for the session. */
  predicate Decides(entries: seq<Entry>, self: Origin, goal: Option<string>, i: nat) {
    i < |entries| && Candidate(entries[i], self, goal) && !Settled(Reduce(entries, RecordOf(entries[i]).request)) &&
    forall k | i < k < |entries| && Candidate(entries[k], self, goal) ::
      Settled(Reduce(entries, RecordOf(entries[k]).request))
  }

  /** Pending only where both the whole log and the branch say so, about this child. */
  function Verdict(entries: seq<Entry>, branch: seq<Entry>, self: Origin, request: Request): Orientation {
    var r, b := Reduce(entries, request), Reduce(branch, request);
    if Open(r) && Open(b) && b.record.value.child == Some(Child(self.file, self.id))
    then Pending(HasStatus(r, AwaitingUser), r.record.value) else Invalid
  }

  method InspectChildHandoffOrientation(entries: seq<Entry>, branch: seq<Entry>, self: Origin, goal: Option<string>)
    returns (o: Orientation)
    ensures o == Nothing <==> !Orienting(entries, self, goal)
    ensures AnyMalformed(entries) ==> o == Invalid
    ensures !AnyMalformed(entries) ==> forall i: nat | Decides(entries, self, goal, i) ::
      o == Verdict(entries, branch, self, RecordOf(entries[i]).request)
  {
    hide Reduce;
    for i := 0 to |entries|
      invariant forall k | 0 <= k < i :: !Malformed(entries[k])
    {
      if Malformed(entries[i]) {
        return Invalid;
      }
    }
    for i := |entries| downto 0
      invariant forall k | i <= k < |entries| && Candidate(entries[k], self, goal) ::
        Settled(Reduce(entries, RecordOf(entries[k]).request))
    {
      if !Candidate(entries[i], self, goal) {
        continue;
      }
      var request := RecordOf(entries[i]).request;
      var session := ReduceSelfHandoffRequest(entries, request);
      if Settled(session) {
        continue;
      }
      assert Decides(entries, self, goal, i);
      if session.Conflict? {
        return Invalid;
      }
      var there := ReduceSelfHandoffRequest(branch, request);
      if there.Conflict? || there.record.None? || !Open(there) ||
        there.record.value.child != Some(Child(self.file, self.id)) {
        return Invalid;
      }
      return Pending(HasStatus(session, AwaitingUser), session.record.value);
    }
    return Nothing;
  }

  // --------------------------------------------------------------- the goal's gate

  /** What keeps a goal with the handoff that brought it here. */
  predicate HeldBy(r: Reduction, request: Request, goal: Option<string>) {
    r.Conflict? || ((Open(r) || HasStatus(r, Failed)) && ForGoal(request, goal))
  }

  predicate Unresolved(entries: seq<Entry>, self: Origin, goal: Option<string>) {
    AnyMalformed(entries) ||
    exists i | 0 <= i < |entries| ::
      Inherited(entries[i], self) &&
        HeldBy(Reduce(entries, RecordOf(entries[i]).request), RecordOf(entries[i]).request, goal)
  }

  method UnresolvedChildOwnership(entries: seq<Entry>, self: Origin, goal: Option<string>) returns (blocked: bool)
    ensures blocked <==> Unresolved(entries, self, goal)
  {
    hide Reduce, Lookup;
    for i := 0 to |entries|
      invariant forall k | 0 <= k < i :: !Malformed(entries[k])
    {
      if Malformed(entries[i]) {
        return true;
      }
    }
    var requestIds: seq<string> := [];
    for i := 0 to |entries|
      invariant forall k | 0 <= k < i && Inherited(entries[k], self) :: RecordOf(entries[k]).request.id in requestIds
      invariant forall id | id in requestIds ::
        exists k | 0 <= k < |entries| :: Inherited(entries[k], self) && RecordOf(entries[k]).request.id == id
    {
      if Inherited(entries[i], self) && RecordOf(entries[i]).request.id !in requestIds {
        requestIds := requestIds + [RecordOf(entries[i]).request.id];
      }
    }
    for j := 0 to |requestIds|
      invariant forall k | 0 <= k < j :: !LookupHolds(entries, requestIds[k], goal)
    {
      var malformed, record := LatestHandoffForRequest(entries, requestIds[j]);
      assert requestIds[j] in requestIds;
      var k :| 0 <= k < |entries| && Inherited(entries[k], self) && RecordOf(entries[k]).request.id == requestIds[j];
      LookupIs(entries, k, requestIds[j]);
      ReducedRequest(entries, RecordOf(entries[k]).request);
      if malformed ||
         (record.Some? && record.value.status in {Received, AwaitingUser, Failed} &&
           ForGoal(record.value.request, goal)) {
        return true;
      }
    }
    forall k | 0 <= k < |entries| && Inherited(entries[k], self)
      ensures !HeldBy(Reduce(entries, RecordOf(entries[k]).request), RecordOf(entries[k]).request, goal)
    {
      LookupIs(entries, k, RecordOf(entries[k]).request.id);
      ReducedRequest(entries, RecordOf(entries[k]).request);
    }
    return false;
  }

  predicate LookupHolds(entries: seq<Entry>, id: string, goal: Option<string>) {
    var r := Lookup(entries, id);
    r.Conflict? || (r.record.Some? && HeldBy(r, r.record.value.request, goal))
  }

  lemma ReducedRequest(entries: seq<Entry>, request: Request)
    ensures var r := Reduce(entries, request); r.Current? && r.record.Some? ==> r.record.value.request == request
  {
    var r := Fold(entries, request);
  }

  /** An orientation that has not settled lets the session keep the goal it is about. */
  predicate PendingHere(entries: seq<Entry>, branch: seq<Entry>, self: Origin, goalId: string, i: nat) {
    i < |entries| && Targets(entries[i], self) &&
    var request := RecordOf(entries[i]).request;
    request.goalId == Some(goalId) && Open(Lookup(entries, request.id)) && Open(Lookup(branch, request.id))
  }

  predicate ReactivationBlocked(entries: seq<Entry>, branch: seq<Entry>, self: Origin, goalId: string) {
    OutboundBlocks(entries, self, goalId) ||
    (Unresolved(entries, self, Some(goalId)) &&
     forall i: nat | i < |entries| :: !PendingHere(entries, branch, self, goalId, i))
  }

  method ReactivationBlockReason(entries: seq<Entry>, branch: seq<Entry>, self: Origin,
    goalId: string) returns (blocked: bool)
    ensures blocked <==> ReactivationBlocked(entries, branch, self, goalId)
  {
    hide Reduce, Lookup, Unresolved;
    var outbound := OutboundGoalOwnership(entries, self, goalId);
    if outbound {
      return true;
    }
    var unresolved := UnresolvedChildOwnership(entries, self, Some(goalId));
    if !unresolved {
      return false;
    }
    for i := 0 to |entries|
      invariant forall k: nat | k < i :: !PendingHere(entries, branch, self, goalId, k)
    {
      if !Targets(entries[i], self) || RecordOf(entries[i]).request.goalId != Some(goalId) {
        continue;
      }
      var malformed, record := LatestHandoffForRequest(entries, RecordOf(entries[i]).request.id);
      if malformed || record.None? || !(record.value.status in {Received, AwaitingUser}) {
        continue;
      }
      malformed, record := LatestHandoffForRequest(branch, RecordOf(entries[i]).request.id);
      if !malformed && record.Some? && record.value.status in {Received, AwaitingUser} {
        assert PendingHere(entries, branch, self, goalId, i);
        return false;
      }
    }
    return true;
  }

  // ---------------------------------------------------------- the two gates together

  /** Autopilot goes on with a goal when it is not blocked and no orientation is on. */
  predicate MayWork(entries: seq<Entry>, branch: seq<Entry>, self: Origin, goalId: string) {
    !ReactivationBlocked(entries, branch, self, goalId) && !Orienting(entries, self, Some(goalId))
  }

  /** The exception made for a pending orientation never lets work through, except in a
      session that claims to be its own child. */
  lemma MayWorkExactly(entries: seq<Entry>, branch: seq<Entry>, self: Origin, goalId: string)
    requires forall i | 0 <= i < |entries| :: Targets(entries[i], self) ==> Inherited(entries[i], self)
    ensures MayWork(entries, branch, self, goalId) <==>
      !OutboundBlocks(entries, self, goalId) && !Unresolved(entries, self, Some(goalId))
  {
    hide Reduce, Lookup;
    forall i: nat | i < |entries| && PendingHere(entries, branch, self, goalId, i)
      ensures Orienting(entries, self, Some(goalId))
    {
      LookupIs(entries, i, RecordOf(entries[i]).request.id);
      assert Candidate(entries[i], self, Some(goalId));
    }
    if Orienting(entries, self, Some(goalId)) {
      OrientingIsUnresolved(entries, self, Some(goalId));
    }
  }

  lemma OrientingIsUnresolved(entries: seq<Entry>, self: Origin, goal: Option<string>)
    requires Orienting(entries, self, goal)
    ensures Unresolved(entries, self, goal)
  {
    hide Reduce;
    if !AnyMalformed(entries) {
      var i :| 0 <= i < |entries| && Candidate(entries[i], self, goal) &&
        !Settled(Reduce(entries, RecordOf(entries[i]).request));
      assert HeldBy(Reduce(entries, RecordOf(entries[i]).request), RecordOf(entries[i]).request, goal);
    }
  }

  // ------------------------------------------------------------------ one goal alone

  /** A record that names this session as the child of a handoff from another file. */
  predicate CameHere(e: Entry, self: Origin) {
    IsRecord(e) &&
    match RecordOf(e).child
    case Some(child) => child.id == self.id && child.file == self.file && RecordOf(e).request.originFile != child.file
    case None => false
  }

  predicate ReadsAs(r: Reduction, statuses: set<Status>) {
    r.Current? && r.record.Some? && r.record.value.status in statuses
  }

  /** When the records tell no two stories: what holds a goal is a handoff of that very goal
      to this session, received and not released, or failed. */
  lemma HeldExactly(entries: seq<Entry>, self: Origin, goalId: string)
    requires !AnyMalformed(entries)
    requires forall e | e in entries && IsRecord(e) :: Reduce(entries, RecordOf(e).request).Current?
    ensures Unresolved(entries, self, Some(goalId)) <==>
      exists e | e in entries && CameHere(e, self) ::
        RecordOf(e).request.goalId == Some(goalId) &&
        ReadsAs(Reduce(entries, RecordOf(e).request), {Received, AwaitingUser, Failed})
  {
    hide Reduce;
    if e :|
      e in entries && CameHere(e, self) && RecordOf(e).request.goalId == Some(goalId) &&
      ReadsAs(Reduce(entries, RecordOf(e).request), {Received, AwaitingUser, Failed})
    {
      var i :| 0 <= i < |entries| && entries[i] == e;
      assert Inherited(entries[i], self);
    }
    if Unresolved(entries, self, Some(goalId)) {
      var i :| 0 <= i < |entries| && Inherited(entries[i], self) &&
        HeldBy(Reduce(entries, RecordOf(entries[i]).request), RecordOf(entries[i]).request, Some(goalId));
      assert entries[i] in entries && CameHere(entries[i], self);
    }
  }

  /** So the handoffs of other goals, as long as each reads without conflict, never hold this
      one: the answer is the same when they are left out. */
  lemma OnlyThisGoalIsHeld(entries: seq<Entry>, ids: set<string>, self: Origin, goalId: string)
    requires !AnyMalformed(entries)
    requires forall e | e in entries && IsRecord(e) :: Reduce(entries, RecordOf(e).request).Current?
    requires forall e | e in entries && CameHere(e, self) && RecordOf(e).request.goalId == Some(goalId) ::
      RecordOf(e).request.id in ids
    ensures Unresolved(entries, self, Some(goalId)) <==> Unresolved(About(entries, ids), self, Some(goalId))
  {
    hide Fold, Unresolved;
    var own := About(entries, ids);
    AboutMembers(entries, ids);
    assert !AnyMalformed(own) by {
      forall i | 0 <= i < |own| ensures !Malformed(own[i]) {
        assert own[i] in entries;
      }
    }
    forall e | e in own && IsRecord(e)
      ensures e in entries && Reduce(own, RecordOf(e).request) == Reduce(entries, RecordOf(e).request)
    {
      FoldAbout(entries, ids, RecordOf(e).request);
    }
    HeldExactly(entries, self, goalId);
    HeldExactly(own, self, goalId);
  }

  predicate PendingOrConflict(r: Reduction) {
    r.Conflict? || ReadsAs(r, {Received, AwaitingUser})
  }

  /** The session is in its orientation exactly while a handoff to it, of the goal in
      question if one is, is received and not released, or reads as a conflict. */
  lemma OrientingExactly(entries: seq<Entry>, self: Origin, goal: Option<string>)
    requires !AnyMalformed(entries)
    ensures Orienting(entries, self, goal) <==>
      exists e | e in entries && CameHere(e, self) ::
        (goal.Some? ==> RecordOf(e).request.goalId == goal) &&
        PendingOrConflict(Reduce(entries, RecordOf(e).request))
  {
    hide Reduce;
    if e :|
      e in entries && CameHere(e, self) && (goal.Some? ==> RecordOf(e).request.goalId == goal) &&
      PendingOrConflict(Reduce(entries, RecordOf(e).request))
    {
      var i :| 0 <= i < |entries| && entries[i] == e;
      assert Candidate(entries[i], self, goal);
    }
    if Orienting(entries, self, goal) {
      var i :| 0 <= i < |entries| && Candidate(entries[i], self, goal) &&
        !Settled(Reduce(entries, RecordOf(entries[i]).request));
      assert entries[i] in entries && CameHere(entries[i], self);
    }
  }

  // ----------------------------------------------------------- growing the child's log

  predicate OnChildSide(r: Reduction) {
    Open(r) || HasStatus(r, Transferred) || HasStatus(r, Failed)
  }

  lemma {:induction false} ChildSideStays(entries: seq<Entry>, more: seq<Entry>, request: Request)
    requires OnChildSide(Fold(entries, request))
    ensures Fold(entries + more, request).Conflict? || OnChildSide(Fold(entries + more, request))
    ensures HasStatus(Fold(entries, request), Failed) ==>
      Fold(entries + more, request).Conflict? || HasStatus(Fold(entries + more, request), Failed)
    decreases |more|
  {
    if more == [] {
      assert entries + more == entries;
    } else {
      var front, last := more[..|more| - 1], more[|more| - 1];
      ChildSideStays(entries, front, request);
      assert entries + more == (entries + front) + [last];
      FoldAppend(entries + front, last, request);
    }
  }

  /** Whatever is appended to the child's log: an inherited goal that is held comes free
      only by a transferred record, and after a failure never. */
  lemma OnlyTheReleaseFreesTheGoal(entries: seq<Entry>, more: seq<Entry>, self: Origin, goalId: string, i: nat)
    requires i < |entries| && Inherited(entries[i], self) && RecordOf(entries[i]).request.goalId == Some(goalId)
    requires
      var r := Reduce(entries, RecordOf(entries[i]).request);
      Open(r) || HasStatus(r, Failed)
    requires !Unresolved(entries + more, self, Some(goalId))
    ensures HasStatus(Reduce(entries + more, RecordOf(entries[i]).request), Transferred)
    ensures Open(Reduce(entries, RecordOf(entries[i]).request))
  {
    hide Fold;
    var all, request := entries + more, RecordOf(entries[i]).request;
    assert all[i] == entries[i];
    assert !HeldBy(Reduce(all, request), request, Some(goalId));
    ChildSideStays(entries, more, request);
  }

  // ------------------------------------------------------ the child of the machine

  /** The child's own log, as far as it is about its handoff. */
  function ChildLog(records: seq<Status>, request: Request, child: Child): seq<Entry> {
    seq(|records|, i requires 0 <= i < |records| =>
      Entry(i, if i == 0 then None else Some(i - 1),
            HandoffData(Some(Record(request, records[i], Some(child), false, "")))))
  }

  predicate Chain(records: seq<Status>) {
    records != [] && records[0] == Received && forall i | 0 < i < |records| :: Allowed(records[i - 1], records[i])
  }

  predicate ChainsOk(s: State) {
    forall r | r in s.children :: Chain(s.children[r].records)
  }

  lemma ChainSnoc(records: seq<Status>, last: Status)
    requires Chain(records) && Allowed(records[|records| - 1], last)
    ensures Chain(records + [last])
  {
  }

  lemma StepChains(s: State, a: Action)
    requires ChainsOk(s) && Can(s, a)
    ensures ChainsOk(Do(s, a))
  {
    hide Chain, Reduce, Transition, Branch, OutboundBlocks, LatestGoal;
    var t := Do(s, a);
    forall r | r in t.children ensures Chain(t.children[r].records) {
      if r in s.children && t.children[r].records == s.children[r].records {
      } else if a.Replace? {
        StartOfChain();
      } else if !ByChild(a) {
        OthersAppendNothing(s, a, r);
      } else {
        ChildAppends(s, a, r);
        ChainSnoc(s.children[r].records, t.children[r].records[|s.children[r].records|]);
      }
    }
  }

  lemma StartOfChain()
    ensures Chain([Received])
  {
  }

  predicate ByChild(a: Action) {
    a.Retry? || a.Settle? || a.ChildFails? || a.Release?
  }

  lemma OthersAppendNothing(s: State, a: Action, r: Request)
    requires Can(s, a) && !ByChild(a) && !a.Replace? && r in Do(s, a).children
    ensures r in s.children && Do(s, a).children[r].records == s.children[r].records
  {
    hide Reduce, Transition, Branch, OutboundBlocks, LatestGoal, Fold, Known;
  }

  lemma ChildAppends(s: State, a: Action, r: Request)
    requires ChainsOk(s) && Can(s, a) && ByChild(a) && r in Do(s, a).children
    requires r in s.children ==> Do(s, a).children[r].records != s.children[r].records
    ensures r in s.children && s.children[r].records != []
    ensures
      var before, after := s.children[r].records, Do(s, a).children[r].records;
      |after| == |before| + 1 && after == before + [after[|before|]] && Allowed(before[|before| - 1], after[|before|])
  {
    hide Reduce, Transition, Branch, OutboundBlocks, LatestGoal, Fold, Known;
  }

  lemma {:induction false} RunChains(s: State, actions: seq<Action>)
    requires ChainsOk(s) && Legal(s, actions)
    ensures ChainsOk(RunOf(s, actions))
    decreases |actions|
  {
    hide Can, Do, ChainsOk;
    if actions != [] {
      StepChains(s, actions[0]);
      RunChains(Do(s, actions[0]), actions[1..]);
    }
  }

  /** A chain of records reads as its last one. */
  lemma {:induction false} ChainReads(records: seq<Status>, request: Request, child: Child)
    requires Chain(records)
    ensures HasStatus(Fold(ChildLog(records, request, child), request), records[|records| - 1])
    ensures Fold(ChildLog(records, request, child), request).record.value.child == Some(child)
    decreases |records|
  {
    var n := |records| - 1;
    var log := ChildLog(records, request, child);
    assert log[..n] == ChildLog(records[..n], request, child);
    if n == 0 {
      assert log[..n] == [];
    } else {
      ChainReads(records[..n], request, child);
    }
  }

  lemma {:induction false} ReleasedLast(records: seq<Status>, i: nat)
    requires Chain(records) && i < |records| && records[i] == Transferred
    ensures records[|records| - 1] == Transferred
    decreases |records| - i
  {
    if i + 1 < |records| {
      assert Allowed(records[i], records[i + 1]);
      ReleasedLast(records, i + 1);
    }
  }

  lemma {:induction false} ChainStatuses(records: seq<Status>, i: nat)
    requires Chain(records) && i < |records|
    ensures records[i] in {Received, AwaitingUser, Transferred, Failed}
  {
    if i > 0 {
      ChainStatuses(records, i - 1);
    }
  }

  /** In every run, the child's tools stay blocked until the orientation is over, and its
      goal stays blocked until the child is released. */
  lemma ChildGates(s: State, request: Request, child: Child, goalId: string)
    requires Reachable(s) && request in s.children && request.goalId == Some(goalId) && child.file != request.originFile
    ensures
      var log, self := ChildLog(s.children[request].records, request, child), Origin(child.id, child.file);
      && (Orienting(log, self, None) <==> ChildStatus(s, request) in {Some(Received), Some(AwaitingUser)})
      && (MayWork(log, log, self, goalId) <==> Released(s, request))
  {
    hide Can, Do, Legal, RunOf, Reduce;
    var start: State, actions: seq<Action> :| Initial(start) && Legal(start, actions) && RunOf(start, actions) == s;
    RunChains(start, actions);
    var records := s.children[request].records;
    ChainGates(records, request, child, goalId);
    assert ChildStatus(s, request) == Some(records[|records| - 1]);
    if Transferred in records {
      var i :| 0 <= i < |records| && records[i] == Transferred;
      ReleasedLast(records, i);
    }
  }

  lemma ChainGates(records: seq<Status>, request: Request, child: Child, goalId: string)
    requires Chain(records) && request.goalId == Some(goalId) && child.file != request.originFile
    ensures
      var log, self, last := ChildLog(records, request, child), Origin(child.id, child.file), records[|records| - 1];
      && (Orienting(log, self, None) <==> last in {Received, AwaitingUser})
      && (MayWork(log, log, self, goalId) <==> last == Transferred)
  {
    hide Fold;
    var log, self, n := ChildLog(records, request, child), Origin(child.id, child.file), |records|;
    assert forall i | 0 <= i < n :: Inherited(log[i], self) && RecordOf(log[i]).request == request;
    ChainReads(records, request, child);
    ChainStatuses(records, n - 1);
    MayWorkExactly(log, log, self, goalId);
    assert !OutboundBlocks(log, self, goalId);
    var r := Reduce(log, request);
    assert r == Fold(log, request);
    assert Inherited(log[0], self);
    assert Unresolved(log, self, Some(goalId)) <==> HeldBy(r, request, Some(goalId));
    assert Orienting(log, self, None) <==> !Settled(r);
  }

  /** Both gates. When the child may work on the goal and the parent's gate let work on it
      through with the handoff in its memory, then that parent process had superseded the
      handoff after it was transferred. */
  lemma BothGatesOpen(s: State, adm: Admission, request: Request, child: Child)
    requires Reachable(s) && request in s.children && request.goalId == Some(adm.goalId) &&
      child.file != request.originFile
    requires
      var log := ChildLog(s.children[request].records, request, child);
      MayWork(log, log, Origin(child.id, child.file), adm.goalId)
    requires adm in s.admissions && Remembers(s.disk, adm.memory, request)
    ensures exists j :: j in adm.memory.own && j in s.superseded && AbandonedLate(s.disk, request, j)
  {
    hide Reachable, MayWork, Remembers;
    ChildGates(s, request, child, adm.goalId);
    ExclusiveOwnership(s, adm, request);
  }

  /** A child that has received the handoff, or waits for the user, may fail; then its goal
      stays blocked and its tools come free. */
  lemma ChildMayFail(s: State, request: Request, child: Child, goalId: string)
    requires Reachable(s) && request in s.children && request.goalId == Some(goalId) && child.file != request.originFile
    requires ChildStatus(s, request) in {Some(Received), Some(AwaitingUser)}
    ensures Can(s, ChildFails(request))
    ensures
      var t := Do(s, ChildFails(request));
      && request in t.children && ChildStatus(t, request) == Some(Failed)
      && var log, self := ChildLog(t.children[request].records, request, child), Origin(child.id, child.file);
         !Orienting(log, self, None) && !MayWork(log, log, self, goalId)
  {
    hide Legal, RunOf, Reduce, MayWork, Orienting;
    var start: State, actions: seq<Action> :| Initial(start) && Legal(start, actions) && RunOf(start, actions) == s;
    RunChains(start, actions);
    var t := Do(s, ChildFails(request));
    StepChains(s, ChildFails(request));
    var records := t.children[request].records;
    ChainGates(records, request, child, goalId);
  }
}
