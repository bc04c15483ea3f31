/** Abandoning a handoff gives the goal back to the parent. */
module OwnershipRecovery {
  // The other half of exclusive ownership: the gate that a handoff shuts opens again when
  // the handoff is rolled back or reclaimed, and no handoff shuts the gate of another goal.

  import opened HandoffLog
  import opened HandoffFinalize
  import opened GoalOwnership
  import opened OwnershipProof
  import opened Wrappers

  // ------------------------------------------------------------------ one goal alone

  /** The log without the records about other request ids. */
  function About(entries: seq<Entry>, ids: set<string>): seq<Entry> {
    if entries == [] then []
    else
      var last := entries[|entries| - 1];
      About(entries[..|entries| - 1], ids) +
      (if IsRecord(last) && RecordOf(last).request.id !in ids then [] else [last])
  }

  lemma {:induction false} FoldAbout(entries: seq<Entry>, ids: set<string>, request: Request)
    requires request.id in ids
    ensures Fold(About(entries, ids), request) == Fold(entries, request)
  {
    if entries != [] {
      var front, last := entries[..|entries| - 1], entries[|entries| - 1];
      FoldAbout(front, ids, request);
      if IsRecord(last) && RecordOf(last).request.id !in ids {
        assert About(entries, ids) == About(front, ids);
      } else {
        assert About(entries, ids) == About(front, ids) + [last];
        FoldAppend(About(front, ids), last, request);
      }
    }
  }

  lemma {:induction false} AboutMembers(entries: seq<Entry>, ids: set<string>)
    ensures forall e :: e in About(entries, ids) <==> e in entries && (IsRecord(e) ==> RecordOf(e).request.id in ids)
  {
    if entries != [] {
      var front, last := entries[..|entries| - 1], entries[|entries| - 1];
      AboutMembers(front, ids);
      assert front + [last] == entries;
    }
  }

  /** The gate, by members of the log. */
  lemma GateByMembers(entries: seq<Entry>, origin: Origin, goalId: string)
    requires !AnyMalformed(entries)
    ensures OutboundBlocks(entries, origin, goalId) <==>
      exists e | e in entries :: OutboundTo(e, origin, goalId) && ShutBy(Reduce(entries, RecordOf(e).request))
  {
    hide Reduce, ShutBy;
    if e :| e in entries && OutboundTo(e, origin, goalId) && ShutBy(Reduce(entries, RecordOf(e).request)) {
      var i :| 0 <= i < |entries| && entries[i] == e;
      assert OutboundTo(entries[i], origin, goalId);
    }
  }

  /** The records of handoffs of other goals, or of other sessions, never change the gate's
      answer: it is the same when they are left out, as long as no id is used twice. */
  lemma OnlyThisGoalMatters(entries: seq<Entry>, ids: set<string>, origin: Origin, goalId: string)
    requires !AnyMalformed(entries)
    requires forall e | e in entries && IsRecord(e) ::
      var r := RecordOf(e).request;
      r.goalId == Some(goalId) && r.originId == origin.id && r.originFile == origin.file ==> r.id in ids
    ensures OutboundBlocks(entries, origin, goalId) <==> OutboundBlocks(About(entries, ids), origin, goalId)
  {
    hide Fold, ShutBy;
    var own := About(entries, ids);
    AboutMembers(entries, ids);
    assert !AnyMalformed(own) by {
      forall i | 0 <= i < |own| ensures !Malformed(own[i]) {
        assert own[i] in entries;
      }
    }
    GateByMembers(entries, origin, goalId);
    GateByMembers(own, origin, goalId);
    forall e | e in entries && OutboundTo(e, origin, goalId)
      ensures e in own && Reduce(own, RecordOf(e).request) == Reduce(entries, RecordOf(e).request)
    {
      FoldAbout(entries, ids, RecordOf(e).request);
    }
  }

  // -------------------------------------------------------------- giving the goal back

  /** Nothing but this request keeps the goal from being worked on. */
  predicate OnlyRequest(entries: seq<Entry>, origin: Origin, goalId: string, request: Request) {
    forall i | 0 <= i < |entries| && OutboundTo(entries[i], origin, goalId) ::
      RecordOf(entries[i]).request.id != request.id ==> !ShutBy(Reduce(entries, RecordOf(entries[i]).request))
  }

  /** A record that abandons what the log reads as pending is accepted. */
  lemma AbandonedReads(entries: seq<Entry>, e: Entry, request: Request, status: Status)
    requires IsRecord(e) && RecordOf(e).request == request && RecordOf(e).status == status
    requires
      var r := Reduce(entries, request);
      || (HasStatus(r, Prepared) && status in {Cancelled, Failed})
      || (HasStatus(r, ChildCreated) && status == Failed)
    requires Reduce(entries, request).record.value.child.Some? ==>
      RecordOf(e).child == Reduce(entries, request).record.value.child
    ensures HasStatus(Reduce(entries + [e], request), status) && !ShutBy(Reduce(entries + [e], request))
  {
    hide Fold;
    ReduceSnoc(entries, e, request);
  }

  /** After it the gate is open, unless another request shuts it. */
  lemma AbandonedOpens(entries: seq<Entry>, e: Entry, request: Request, origin: Origin, goalId: string)
    requires !AnyMalformed(entries + [e]) && Concerns(e, request.id)
    requires !ShutBy(Reduce(entries + [e], request)) && OnlyRequest(entries, origin, goalId, request)
    requires forall x | x in entries + [e] && Concerns(x, request.id) :: RecordOf(x).request == request
    ensures !OutboundBlocks(entries + [e], origin, goalId)
  {
    hide Fold;
    var all := entries + [e];
    forall i | 0 <= i < |all| && OutboundTo(all[i], origin, goalId)
      ensures !ShutBy(Reduce(all, RecordOf(all[i]).request))
    {
      var q := RecordOf(all[i]).request;
      if q.id != request.id {
        assert entries[i] == all[i];
        ReduceSnoc(entries, e, q);
      } else {
        assert all[i] in all;
      }
    }
  }

  /** An entry that is no record changes no reduction and no gate. */
  lemma OtherDataIsIgnored(entries: seq<Entry>, e: Entry, request: Request)
    requires !e.payload.HandoffData?
    ensures Reduce(entries + [e], request) == Reduce(entries, request)
    ensures AnyMalformed(entries + [e]) <==> AnyMalformed(entries)
  {
    hide Fold;
    ReduceSnoc(entries, e, request);
    var all := entries + [e];
    if AnyMalformed(entries) {
      var i :| 0 <= i < |entries| && Malformed(entries[i]);
      assert Malformed(all[i]);
    }
  }

  lemma OtherDataKeepsGate(entries: seq<Entry>, e: Entry, origin: Origin, goalId: string)
    requires !e.payload.HandoffData?
    ensures OutboundBlocks(entries + [e], origin, goalId) <==> OutboundBlocks(entries, origin, goalId)
  {
    hide Reduce, ShutBy;
    var all := entries + [e];
    forall request: Request
      ensures Reduce(all, request) == Reduce(entries, request)
    {
      OtherDataIsIgnored(entries, e, request);
    }
    OtherDataIsIgnored(entries, e, Request("", 0, "", "", "", None, None, false));
    assert forall i | 0 <= i < |entries| :: all[i] == entries[i];
  }

  lemma OtherDataKeepsOnly(entries: seq<Entry>, e: Entry, origin: Origin, goalId: string, request: Request)
    requires !e.payload.HandoffData? && OnlyRequest(entries, origin, goalId, request)
    ensures OnlyRequest(entries + [e], origin, goalId, request)
  {
    hide Reduce, ShutBy;
    var all := entries + [e];
    forall i | 0 <= i < |all| && OutboundTo(all[i], origin, goalId) && RecordOf(all[i]).request.id != request.id
      ensures !ShutBy(Reduce(all, RecordOf(all[i]).request))
    {
      assert all[i] == entries[i];
      OtherDataIsIgnored(entries, e, RecordOf(all[i]).request);
    }
  }

  // ---------------------------------------------------------------- memories that append

  lemma {:induction false} SameKnown(disk: seq<Entry>, a: View, b: View)
    requires forall i | 0 <= i < |disk| :: Knows(a, i) <==> Knows(b, i)
    ensures Known(disk, a) == Known(disk, b)
  {
    if disk != [] {
      SameKnown(disk[..|disk| - 1], a, b);
    }
  }

  /** What a process appends is the end of its own memory. */
  lemma PutIsRemembered(s: State, v: nat, payload: Payload)
    requires v in s.views && MemoryOk(s.views[v], |s.disk|)
    ensures
      var t := Put(s, v, payload);
      && v in t.views && MemoryOk(t.views[v], |t.disk|) && t.views[v].leaf == Some(|s.disk|)
      && Memory(t, v) == Memory(s, v) + [Entry(|s.disk|, s.views[v].leaf, payload)]
  {
    var t := Put(s, v, payload);
    assert t.disk[..|s.disk|] == s.disk;
    SameKnown(s.disk, s.views[v], t.views[v]);
  }

  /** On the branch, too. */
  lemma PutIsOnTheBranch(s: State, v: nat, payload: Payload)
    requires v in s.views && MemoryOk(s.views[v], |s.disk|)
    ensures
      var t := Put(s, v, payload);
      BranchOf(t, v) == BranchOf(s, v) + [Entry(|s.disk|, s.views[v].leaf, payload)]
  {
    hide Known;
    PutIsRemembered(s, v, payload);
    BranchAppend(Memory(s, v), Entry(|s.disk|, s.views[v].leaf, payload));
  }

  lemma LatestGoalSnoc(entries: seq<Entry>, e: Entry)
    ensures LatestGoal(entries + [e]) == if e.payload.GoalData? then e.payload.goal else LatestGoal(entries)
  {
    assert (entries + [e])[..|entries|] == entries;
  }

  /** What a memory of the log cannot hold: malformed data, or one id for two requests. */
  lemma MemoryIsSound(s: State, v: nat, request: Request)
    requires Inv(s) && v in s.views && request in s.attempts
    ensures !AnyMalformed(Memory(s, v))
    ensures forall e | e in Memory(s, v) && Concerns(e, request.id) :: RecordOf(e).request == request
    ensures HasStatus(Reduce(Memory(s, v), request), Prepared) ==>
      Reduce(Memory(s, v), request).record.value.child.None?
  {
    hide Fold, Known;
    var memory := Memory(s, v);
    forall i | 0 <= i < |memory|
      ensures !Malformed(memory[i]) && (Concerns(memory[i], request.id) ==> RecordOf(memory[i]).request == request)
      ensures Concerns(memory[i], request.id) && RecordOf(memory[i]).status == Prepared ==>
        RecordOf(memory[i]).child.None?
    {
      KnownMembers(s.disk, s.views[v], i);
      var j :| 0 <= j < |s.disk| && memory[i] == s.disk[j] && Knows(s.views[v], j);
      assert EntryOk(s, s.disk[j]);
    }
    if HasStatus(Reduce(memory, request), Prepared) {
      ReducedEntry(memory, request);
    }
  }

  /** An append of a record that abandons what the memory reads as pending. */
  lemma AppendAbandons(s: State, v: nat, request: Request, status: Status, child: Option<Child>, note: string,
    goalId: string)
    requires Inv(s) && v in s.views && request in s.attempts
    requires
      var r := Reduce(Memory(s, v), request);
      || (HasStatus(r, Prepared) && status in {Cancelled, Failed})
      || (HasStatus(r, ChildCreated) && status == Failed && child == r.record.value.child)
    requires OnlyRequest(Memory(s, v), s.origin, goalId, request)
    ensures
      var t := PutRecord(s, v, request, status, child, note);
      && HasStatus(Reduce(Memory(t, v), request), status)
      && !ShutBy(Reduce(Memory(t, v), request))
      && !OutboundBlocks(Memory(t, v), s.origin, goalId)
  {
    hide Fold, Known, ShutBy, OnlyRequest;
    var memory := Memory(s, v);
    var e := Entry(|s.disk|, s.views[v].leaf, HandoffData(Some(Record(request, status, child, false, note))));
    MemoryIsSound(s, v, request);
    PutIsRemembered(s, v, e.payload);
    AbandonedReads(memory, e, request, status);
    assert !AnyMalformed(memory + [e]) by {
      forall i | 0 <= i < |memory + [e]| ensures !Malformed((memory + [e])[i]) {
        assert i < |memory| ==> (memory + [e])[i] == memory[i];
      }
    }
    AbandonedOpens(memory, e, request, s.origin, goalId);
  }

  // The steps of the two commands.

  lemma SaveIsPut(s: State, v: nat, goal: Goal)
    requires v in s.views
    ensures Can(s, Save(v, GoalData(Some(goal))))
    ensures Do(s, Save(v, GoalData(Some(goal)))) == Put(s, v, GoalData(Some(goal)))
  {
  }

  lemma WithdrawIs(s: State, request: Request, status: Status)
    requires Can(s, Withdraw(request, status))
    ensures request in s.attempts && s.attempts[request].view in s.views && status in {Cancelled, Failed}
    ensures
      var v := s.attempts[request].view;
      Do(s, Withdraw(request, status)) ==
        SetPhase(PutRecord(s, v, request, status, None, "withdrawn"), request, Withdrawn)
  {
    hide Known, Reduce, Branch;
  }

  lemma WithdrawAfterSave(s: State, v: nat, payload: Payload, request: Request, status: Status)
    requires Can(s, Withdraw(request, status)) && v in s.views
    ensures Can(Put(s, v, payload), Withdraw(request, status))
  {
    hide Known, Reduce, Branch;
  }

  lemma TakeReclaimIs(s: State, v: nat, request: Request)
    requires Can(s, TakeReclaim(v, request)) && !HasStatus(Reduce(s.disk, request), Failed)
    ensures v in s.views && request in s.attempts && LatestGoal(BranchOf(s, v)).Some?
    ensures Some(LatestGoal(BranchOf(s, v)).value.id) == request.goalId
    ensures Reduce(s.disk, request).Current? && Reduce(s.disk, request).record.Some?
    ensures
      var named, goal := Reduce(s.disk, request).record.value.child, LatestGoal(BranchOf(s, v)).value;
      Do(s, TakeReclaim(v, request)) == s.(lock := Held(ReclaimRecord(v, request, named, goal)))
  {
    hide Known, Reduce, Branch, LatestGoal;
  }

  lemma ReclaimAppends(s: State)
    requires s.lock.Held? && (s.lock.job.ReclaimRecord? || s.lock.job.ReclaimGoal?) && s.lock.job.view in s.views
    ensures Can(s, LockedAppend) && Do(s, LockedAppend) == DoLockedAppend(s, s.lock.job)
  {
  }

  lemma UnlockIs(s: State)
    requires s.lock == Held(Finished)
    ensures Can(s, Unlock) && Do(s, Unlock) == s.(lock := Free)
  {
  }

  lemma MayAdmit(s: State, v: nat, goal: Goal)
    requires v in s.views && LatestGoal(BranchOf(s, v)) == Some(goal) && goal.status == Active
    requires !OutboundBlocks(Memory(s, v), s.origin, goal.id)
    ensures Can(s, Admit(v, goal.id))
  {
    hide Known, Reduce, Branch, LatestGoal, OutboundBlocks;
  }

  lemma AttemptKnown(s: State, a: Action)
    requires Reachable(s) && Can(s, a)
    ensures Inv(s) && Inv(Do(s, a))
  {
    hide Can, Do;
    ReachableInv(s);
    StepInv(s, a);
  }

  lemma ViewIsSound(s: State, v: nat)
    requires Inv(s) && v in s.views
    ensures MemoryOk(s.views[v], |s.disk|)
  {
  }

  /** A goal entry leaves the gate and every reading as it was, and is the latest goal. */
  lemma GoalIsPut(s: State, v: nat, goal: Goal, request: Request, goalId: string)
    requires v in s.views && MemoryOk(s.views[v], |s.disk|)
    ensures
      var t := Put(s, v, GoalData(Some(goal)));
      && LatestGoal(BranchOf(t, v)) == Some(goal)
      && Reduce(Memory(t, v), request) == Reduce(Memory(s, v), request)
      && (OnlyRequest(Memory(s, v), s.origin, goalId, request) ==> OnlyRequest(Memory(t, v), s.origin, goalId, request))
      && (OutboundBlocks(Memory(t, v), s.origin, goalId) <==> OutboundBlocks(Memory(s, v), s.origin, goalId))
  {
    hide Reduce, Known, Branch, OnlyRequest, LatestGoal, OutboundBlocks;
    var g := Entry(|s.disk|, s.views[v].leaf, GoalData(Some(goal)));
    PutIsRemembered(s, v, g.payload);
    PutIsOnTheBranch(s, v, g.payload);
    LatestGoalSnoc(BranchOf(s, v), g);
    OtherDataIsIgnored(Memory(s, v), g, request);
    OtherDataKeepsGate(Memory(s, v), g, s.origin, goalId);
    if OnlyRequest(Memory(s, v), s.origin, goalId, request) {
      OtherDataKeepsOnly(Memory(s, v), g, s.origin, goalId, request);
    }
  }

  /** A record leaves the latest goal of its branch. */
  lemma RecordKeepsGoal(s: State, v: nat, request: Request, status: Status, child: Option<Child>, note: string)
    requires v in s.views && MemoryOk(s.views[v], |s.disk|) && (NamesChild(status) ==> child.Some?)
    ensures LatestGoal(BranchOf(PutRecord(s, v, request, status, child, note), v)) == LatestGoal(BranchOf(s, v))
  {
    hide Known, Branch, LatestGoal;
    var e := Entry(|s.disk|, s.views[v].leaf, HandoffData(Some(Record(request, status, child, false, note))));
    PutIsOnTheBranch(s, v, e.payload);
    LatestGoalSnoc(BranchOf(s, v), e);
  }

  /** The same for the views of a state that differs in its lock or attempts only. */
  lemma SameMemory(s: State, t: State, v: nat)
    requires t.disk == s.disk && t.views == s.views && v in s.views
    ensures Memory(t, v) == Memory(s, v) && BranchOf(t, v) == BranchOf(s, v)
  {
  }

  /** A rollback: the command that prepared the handoff puts its goal back and withdraws
      the request. Its memory then reads the request as withdrawn, and the gate lets it work
      on the goal again, whatever happened in between. */
  lemma RollbackGivesTheGoalBack(s: State, request: Request, status: Status, goal: Goal)
    requires Reachable(s) && Can(s, Withdraw(request, status)) && goal.status == Active
    requires HasStatus(Reduce(Memory(s, s.attempts[request].view), request), Prepared)
    requires OnlyRequest(Memory(s, s.attempts[request].view), s.origin, goal.id, request)
    ensures
      var v := s.attempts[request].view;
      var rollback := [Save(v, GoalData(Some(goal))), Withdraw(request, status)];
      && Legal(s, rollback)
      && var t := RunOf(s, rollback);
         && v in t.views && HasStatus(Reduce(Memory(t, v), request), status)
         && !ShutBy(Reduce(Memory(t, v), request)) && Can(t, Admit(v, goal.id))
  {
    hide Reduce, Known, Branch, ShutBy, OnlyRequest, LatestGoal, OutboundBlocks, Can, Do, Inv, Reachable, MemoryOk;
    hide BranchOf, Memory;
    WithdrawIs(s, request, status);
    var v := s.attempts[request].view;
    var save, withdraw := Save(v, GoalData(Some(goal))), Withdraw(request, status);
    SaveIsPut(s, v, goal);
    AttemptKnown(s, save);
    ViewIsSound(s, v);
    GoalIsPut(s, v, goal, request, goal.id);
    var s1 := Do(s, save);
    WithdrawAfterSave(s, v, GoalData(Some(goal)), request, status);
    WithdrawIs(s1, request, status);
    ViewIsSound(s1, v);
    AppendAbandons(s1, v, request, status, None, "withdrawn", goal.id);
    RecordKeepsGoal(s1, v, request, status, None, "withdrawn");
    var s2, t := PutRecord(s1, v, request, status, None, "withdrawn"), Do(s1, withdraw);
    SameMemory(s2, t, v);
    MayAdmit(t, v, goal);
    TwoSteps(s, save, withdraw);
  }

  /** A reclaim: the parent takes the lock, appends a failed record and its goal, and lets
      go. If its memory still read the handoff as pending, with the child that the file
      names, it reads it as failed then, and the gate lets it work on the goal again. */
  lemma ReclaimGivesTheGoalBack(s: State, v: nat, request: Request)
    requires Reachable(s) && Can(s, TakeReclaim(v, request)) && request.goalId.Some?
    requires !HasStatus(Reduce(s.disk, request), Failed)
    requires
      var r := Reduce(Memory(s, v), request);
      || HasStatus(r, Prepared)
      || (HasStatus(r, ChildCreated) && r.record.value.child == Reduce(s.disk, request).record.value.child)
    requires OnlyRequest(Memory(s, v), s.origin, request.goalId.value, request)
    ensures
      var reclaim := [TakeReclaim(v, request), LockedAppend, LockedAppend, Unlock];
      && Legal(s, reclaim)
      && var t := RunOf(s, reclaim);
         && v in t.views && HasStatus(Reduce(Memory(t, v), request), Failed)
         && !ShutBy(Reduce(Memory(t, v), request)) && Can(t, Admit(v, request.goalId.value)) && t.lock == Free
  {
    hide Reduce, Known, Branch, ShutBy, OnlyRequest, LatestGoal, OutboundBlocks, Can, Do, Inv, Reachable, MemoryOk;
    hide BranchOf, Memory;
    TakeReclaimIs(s, v, request);
    var goal, named := LatestGoal(BranchOf(s, v)).value, Reduce(s.disk, request).record.value.child;
    AttemptKnown(s, TakeReclaim(v, request));
    var s1 := Do(s, TakeReclaim(v, request));
    SameMemory(s, s1, v);
    ViewIsSound(s1, v);
    AppendAbandons(s1, v, request, Failed, named, RECLAIMED, goal.id);
    ReclaimAppends(s1);
    var p1, s2 := PutRecord(s1, v, request, Failed, named, RECLAIMED), Do(s1, LockedAppend);
    PutIsRemembered(s1, v, HandoffData(Some(Record(request, Failed, named, false, RECLAIMED))));
    assert s2 == p1.(lock := Held(ReclaimGoal(v, goal)));
    SameMemory(p1, s2, v);
    GoalIsPut(s2, v, ReclaimedGoal(goal), request, goal.id);
    ReclaimAppends(s2);
    var p2, s3 := Put(s2, v, GoalData(Some(ReclaimedGoal(goal)))), Do(s2, LockedAppend);
    assert s3 == p2.(lock := Held(Finished));
    UnlockIs(s3);
    var t := Do(s3, Unlock);
    SameMemory(p2, t, v);
    MayAdmit(t, v, ReclaimedGoal(goal));
    FourSteps(s, TakeReclaim(v, request), LockedAppend, LockedAppend, Unlock);
  }

  lemma TwoSteps(s: State, a: Action, b: Action)
    requires Can(s, a) && Can(Do(s, a), b)
    ensures Legal(s, [a, b]) && RunOf(s, [a, b]) == Do(Do(s, a), b)
  {
    hide Can, Do;
    assert [b][1..] == [] && [a, b][1..] == [b];
    assert Legal(Do(s, a), [b]) && RunOf(Do(s, a), [b]) == Do(Do(s, a), b);
  }

  lemma FourSteps(s: State, a: Action, b: Action, c: Action, d: Action)
    requires Can(s, a) && Can(Do(s, a), b) && Can(Do(Do(s, a), b), c) && Can(Do(Do(Do(s, a), b), c), d)
    ensures Legal(s, [a, b, c, d]) && RunOf(s, [a, b, c, d]) == Do(Do(Do(Do(s, a), b), c), d)
  {
    hide Can, Do;
    var s2 := Do(Do(s, a), b);
    TwoSteps(s2, c, d);
    assert [b, c, d][1..] == [c, d] && [a, b, c, d][1..] == [b, c, d];
    assert Legal(Do(s, a), [b, c, d]) && RunOf(Do(s, a), [b, c, d]) == RunOf(s2, [c, d]);
  }

  // ----------------------------------------------------------------- dying under the lock

  /** Whoever holds the lock file may die at any moment: the file stays, and what was
      appended stays appended. */
  lemma DeathLeavesTheLock(s: State)
    requires s.lock.Held?
    ensures Can(s, Die) && Do(s, Die) == s.(lock := Leftover)
  {
  }

  /** A leftover lock file stops everything that goes by the file, until it is removed by
      hand; work on goals goes on by the memories. */
  lemma LeftoverStopsTheFile(s: State, a: Action)
    requires s.lock == Leftover && Can(s, a) && !a.RemoveLock?
    ensures Do(s, a).lock == Leftover
    ensures !a.VerifyPrepared? && !a.TakeRecordChild? && !a.TakeFinalize? && !a.TakeReclaim? && !a.Confirm?
    ensures !a.LockedAppend? && !a.LockedFailure? && !a.Unlock?
  {
    hide Reduce, Known, Branch, LatestGoal, OutboundBlocks, Pending, Transition, Awaiting, Confirmed;
  }

  lemma RemovingTheLockFreesIt(s: State)
    requires s.lock == Leftover
    ensures Can(s, RemoveLock) && Do(s, RemoveLock) == s.(lock := Free)
  {
  }
}
