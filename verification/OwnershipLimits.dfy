/** Two runs in which parent and child may both work, step
    by step from the empty log: the conditions of
    `ExclusiveOwnership` cannot be dropped. */
module OwnershipLimits {
  import opened HandoffLog
  import opened HandoffFinalize
  import opened GoalOwnership
  import opened OwnershipProof
  import opened OwnershipRecovery
  import opened Wrappers

  const PARENT := Origin("parent", "parent.jsonl")
  const CHILD := Child("child.jsonl", "child")
  const REQUEST := Request("attempt", 0, "parent", "parent.jsonl", "nonce", None, Some("goal"), false)
  const GOAL := Goal("goal", Active, None, None, [])

  const SUSPENDED := SuspendedGoal(GOAL, REQUEST)

  // The parent's log, entry by entry; every entry follows the one before it.
  const E0 := Entry(0, None, GoalData(Some(GOAL)))
  const E1 := Entry(1, Some(0), HandoffData(Some(Record(REQUEST, Prepared, None, false, "prepared"))))
  const E2 := Entry(2, Some(1), GoalData(Some(SUSPENDED)))
  const E3 := Entry(3, Some(2), HandoffData(Some(ChildCreatedRecord(REQUEST, CHILD))))
  const E4 := Entry(4, Some(3), GoalData(Some(TransferredGoal(SUSPENDED, REQUEST, CHILD))))
  const E5 := Entry(5, Some(4), HandoffData(Some(TransferredRecord(REQUEST, CHILD))))

  const D1: seq<Entry> := [] + [E0]
  const D2 := D1 + [E1]
  const D3 := D2 + [E2]
  const D4 := D3 + [E3]
  const D5 := D4 + [E4]
  const D6 := D5 + [E5]

  lemma StepReachable(s: State, a: Action)
    requires Reachable(s) && Can(s, a)
    ensures Reachable(Do(s, a))
  {
    hide Can, Do;
    var start, actions :| Initial(start) && Legal(start, actions) && RunOf(start, actions) == s;
    OneMore(start, actions, a);
  }

  lemma {:induction false} OneMore(s: State, actions: seq<Action>, a: Action)
    requires Legal(s, actions) && Can(RunOf(s, actions), a)
    ensures Legal(s, actions + [a]) && RunOf(s, actions + [a]) == Do(RunOf(s, actions), a)
    decreases |actions|
  {
    hide Can, Do;
    if actions == [] {
      assert [] + [a] == [a] && [a][1..] == [];
    } else {
      OneMore(Do(s, actions[0]), actions[1..], a);
      assert (actions + [a])[1..] == actions[1..] + [a];
    }
  }

  predicate Linear(entries: seq<Entry>) {
    forall i | 0 <= i < |entries| :: entries[i].id == i && entries[i].parent == (if i == 0 then None else Some(i - 1))
  }

  lemma {:induction false} LinearBranch(entries: seq<Entry>)
    requires Linear(entries) && entries != []
    ensures Branch(entries, Some(|entries| - 1)) == entries
  {
    var front := entries[..|entries| - 1];
    assert front + [entries[|entries| - 1]] == entries;
    if front != [] {
      LinearBranch(front);
    }
  }

  lemma StartOfLog()
    ensures Reduce([], REQUEST) == Current(None, None)
    ensures Reduce(D1, REQUEST) == Current(None, None)
    ensures Reduce(D2, REQUEST) == Current(E1.payload.record, Some(1))
    ensures Reduce(D3, REQUEST) == Current(E1.payload.record, Some(1))
  {
    hide Fold, AnyMalformed;
    assert Reduce([], REQUEST) == Current(None, None) by { EmptyLog(); }
    ReduceSnoc([], E0, REQUEST);
    ReduceSnoc(D1, E1, REQUEST);
    ReduceSnoc(D2, E2, REQUEST);
  }

  lemma EmptyLog()
    ensures Reduce([], REQUEST) == Current(None, None)
  {
  }

  lemma RestOfLog()
    ensures Reduce(D4, REQUEST) == Current(E3.payload.record, Some(3))
    ensures Reduce(D6, REQUEST) == Current(E5.payload.record, Some(5))
  {
    hide Fold, AnyMalformed;
    StartOfLog();
    ReduceSnoc(D3, E3, REQUEST);
    ReduceSnoc(D4, E4, REQUEST);
    ReduceSnoc(D5, E5, REQUEST);
  }

  lemma Branches()
    ensures Branch(D1, Some(0)) == D1 && Branch(D2, Some(1)) == D2 && Branch(D3, Some(2)) == D3
    ensures Branch(D4, Some(3)) == D4 && Branch(D6, Some(5)) == D6
  {
    hide Branch;
    LinearBranch(D1);
    LinearBranch(D2);
    LinearBranch(D3);
    LinearBranch(D4);
    LinearBranch(D6);
  }

  lemma Goals()
    ensures LatestGoal(D1) == LatestGoal(D2) == Some(GOAL)
    ensures LatestGoal(D3) == LatestGoal(D4) == Some(SUSPENDED)
    ensures LatestGoal(D6) == E4.payload.goal
  {
    LatestGoalAppend([], E0);
    LatestGoalAppend(D1, E1);
    LatestGoalAppend(D2, E2);
    LatestGoalAppend(D3, E3);
    LatestGoalAppend(D4, E4);
    LatestGoalAppend(D5, E5);
  }

  // --------------------------------------------------------------------- the states

  function At(disk: seq<Entry>, views: map<nat, View>, lock: Lock, attempts: map<Request, Attempt>,
    children: map<Request, ChildSession>): State {
    State(PARENT, disk, views, lock, attempts, children, {}, [])
  }

  const STALE := View(1, {}, Some(0))
  const LATE := View(4, {}, Some(3))
  const ATTEMPT_VIEW := View(0, {0, 1, 2}, Some(2))
  const GONE := map[REQUEST := Attempt(1, Replaced(CHILD))]

  function Views(first: View): map<nat, View> {
    map[1 := first, 2 := STALE]
  }

  const ALL_VIEWS := Views(ATTEMPT_VIEW)[3 := LATE]

  function ChildLog(records: seq<Status>, confirmed: bool): map<Request, ChildSession> {
    map[REQUEST := ChildSession(records, confirmed)]
  }

  /** A goal, and a second process that has the session open. */
  const GOAL_SET := At(D1, Views(View(0, {0}, Some(0))), Free, map[], map[])
  const PREPARED := At(D2, Views(View(0, {0, 1}, Some(1))), Free, map[REQUEST := Attempt(1, Appended)], map[])
  const GOAL_SUSPENDED := At(D3, Views(ATTEMPT_VIEW), Free, map[REQUEST := Attempt(1, Suspended)], map[])
  const VERIFIED := At(D3, Views(ATTEMPT_VIEW), Free, map[REQUEST := Attempt(1, Durable)], map[])
  const CHILD_MADE := At(D3, Views(ATTEMPT_VIEW), Free, GONE, ChildLog([Received], false))
  const RECORDING := CHILD_MADE.(lock := Held(RecordChild(REQUEST, CHILD, Some(2))))
  const CHILD_RECORDED := At(D4, Views(ATTEMPT_VIEW), Free, GONE, ChildLog([Received], false))
  /** A third process opens the session once the child is recorded. */
  const SETTLED := At(D4, ALL_VIEWS, Free, GONE, ChildLog([Received, AwaitingUser], false))
  const FINALIZING := SETTLED.(lock := Held(AddGoal(REQUEST, CHILD, Some(3), SUSPENDED)))
  const PARENT_FINAL := At(D6, ALL_VIEWS, Free, GONE, ChildLog([Received, AwaitingUser], false))
  const CHILD_RELEASED := At(D6, ALL_VIEWS, Free, GONE, ChildLog([Received, AwaitingUser, Transferred], false))

  lemma NothingYet(s: State)
    requires Initial(s)
    ensures Reachable(s)
  {
    assert Legal(s, []) && RunOf(s, []) == s;
  }

  lemma ReachGoalSet()
    ensures Reachable(GOAL_SET)
  {
    var s0 := At([], map[], Free, map[], map[]);
    NothingYet(s0);
    StepReachable(s0, Open(1));
    var s1 := Do(s0, Open(1));
    StepReachable(s1, Save(1, GoalData(Some(GOAL))));
    var s2 := Do(s1, Save(1, GoalData(Some(GOAL))));
    StepReachable(s2, Open(2));
    assert {} + {0} == {0};
    assert Do(s2, Open(2)).views == Views(View(0, {0}, Some(0)));
  }

  lemma OwnMemory()
    ensures Known(D1, View(0, {0}, Some(0))) == D1 && Known(D2, View(0, {0, 1}, Some(1))) == D2
  {
    assert D2[..1] == D1 && D1[..0] == [];
    assert Known(D1[..0], View(0, {0, 1}, Some(1))) == [];
    assert Known(D1, View(0, {0, 1}, Some(1))) == D1;
  }

  lemma GoalAloneIsFree()
    ensures !OutboundBlocks(D1, PARENT, "goal")
  {
    hide Reduce, ShutBy;
    assert D1 == [E0] && !IsRecord(E0);
  }

  lemma ReachPrepared()
    ensures Reachable(PREPARED)
  {
    hide Known, Branch, LatestGoal, OutboundBlocks;
    ReachGoalSet();
    Branches();
    Goals();
    OwnMemory();
    GoalAloneIsFree();
    StepReachable(GOAL_SET, Prepare(1, REQUEST));
    assert {0} + {1} == {0, 1};
    assert Do(GOAL_SET, Prepare(1, REQUEST)).views == PREPARED.views;
  }

  lemma ReachGoalSuspended()
    ensures Reachable(GOAL_SUSPENDED)
  {
    hide Known, Branch, LatestGoal;
    ReachPrepared();
    Branches();
    Goals();
    OwnMemory();
    StepReachable(PREPARED, Suspend(REQUEST));
    assert {0, 1} + {2} == {0, 1, 2};
    var s := Do(PREPARED, Suspend(REQUEST));
    assert s.views == GOAL_SUSPENDED.views && s.attempts == GOAL_SUSPENDED.attempts;
  }

  lemma SuspensionFound()
    ensures Transition(D3, 3, REQUEST, GoalTransferring) == Some(E2)
  {
    hide Branch, Fold;
    Branches();
    StartOfLog();
    assert D3[2] == E2 && IsTransition(D3, E2, REQUEST, GoalTransferring);
  }

  lemma ReachVerified()
    ensures Reachable(VERIFIED)
  {
    hide Transition, Reduce;
    ReachGoalSuspended();
    SuspensionFound();
    StartOfLog();
    StepReachable(GOAL_SUSPENDED, VerifyPrepared(REQUEST));
    assert Do(GOAL_SUSPENDED, VerifyPrepared(REQUEST)).attempts == VERIFIED.attempts;
  }

  lemma ReachChildMade()
    ensures Reachable(CHILD_MADE)
  {
    ReachVerified();
    StepReachable(VERIFIED, Replace(REQUEST, CHILD));
    assert Do(VERIFIED, Replace(REQUEST, CHILD)).attempts == GONE;
  }

  lemma ReachRecording()
    ensures Reachable(RECORDING)
  {
    hide Transition, Reduce;
    ReachChildMade();
    SuspensionFound();
    StartOfLog();
    StepReachable(CHILD_MADE, TakeRecordChild(REQUEST));
  }

  lemma ReachChildRecorded()
    ensures Reachable(CHILD_RECORDED)
  {
    ReachRecording();
    StepReachable(RECORDING, LockedAppend);
    StepReachable(Do(RECORDING, LockedAppend), Unlock);
  }

  lemma ReachSettled()
    ensures Reachable(SETTLED)
  {
    ReachChildRecorded();
    StepReachable(CHILD_RECORDED, Open(3));
    var s := Do(CHILD_RECORDED, Open(3));
    StepReachable(s, Settle(REQUEST));
    assert [Received] + [AwaitingUser] == [Received, AwaitingUser];
    assert Do(s, Settle(REQUEST)).children == SETTLED.children;
  }

  lemma AwaitingChild()
    ensures Awaiting(D4, REQUEST, CHILD) && Confirmed(D6, REQUEST, CHILD)
    ensures Transition(D4, 4, REQUEST, GoalTransferred) == None
  {
    hide Branch, Fold, LatestGoal;
    Branches();
    RestOfLog();
    Goals();
    assert D4 == [E0, E1, E2, E3];
    forall i | 0 <= i < 4
      ensures !IsTransition(D4, D4[i], REQUEST, GoalTransferred)
    {
    }
  }

  lemma ReachFinalizing()
    ensures Reachable(FINALIZING)
  {
    hide Transition, Reduce, Branch, LatestGoal, Stands;
    ReachSettled();
    AwaitingChild();
    Branches();
    RestOfLog();
    Goals();
    StepReachable(SETTLED, TakeFinalize(REQUEST));
  }

  lemma ReachParentFinal()
    ensures Reachable(PARENT_FINAL)
  {
    ReachFinalizing();
    StepReachable(FINALIZING, LockedAppend);
    var s := Do(FINALIZING, LockedAppend);
    StepReachable(s, LockedAppend);
    StepReachable(Do(s, LockedAppend), Unlock);
  }

  const CONFIRMED := At(D6, ALL_VIEWS, Free, GONE, ChildLog([Received, AwaitingUser], true))

  lemma ReachConfirmed()
    ensures Reachable(CONFIRMED)
  {
    hide Stands;
    ReachParentFinal();
    AwaitingChild();
    StepReachable(PARENT_FINAL, Confirm(REQUEST));
    assert Do(PARENT_FINAL, Confirm(REQUEST)).children == CONFIRMED.children;
  }

  lemma ReachChildReleased()
    ensures Reachable(CHILD_RELEASED) && Released(CHILD_RELEASED, REQUEST)
  {
    ReachConfirmed();
    var s := CONFIRMED;
    StepReachable(s, Release(REQUEST));
    assert [Received, AwaitingUser] + [Transferred] == [Received, AwaitingUser, Transferred];
    assert Do(s, Release(REQUEST)).children == CHILD_RELEASED.children;
  }

  lemma StaleMemory()
    ensures Known(D6, STALE) == D1
  {
    KnownAll(D1, STALE);
    KnownAppend(D1, E1, STALE);
    KnownAppend(D2, E2, STALE);
    KnownAppend(D3, E3, STALE);
    KnownAppend(D4, E4, STALE);
    KnownAppend(D5, E5, STALE);
  }

  /** A parent process that opened the session before the handoff, and so knows nothing
      of it, is let through beside the released child. */
  lemma StaleParentWorksToo() returns (s: State)
    ensures Reachable(s) && Released(s, REQUEST)
    ensures Admission(STALE, "goal") in s.admissions && !Remembers(s.disk, STALE, REQUEST)
  {
    hide Known, Branch, LatestGoal, OutboundBlocks;
    ReachChildReleased();
    StaleMemory();
    Branches();
    Goals();
    GoalAloneIsFree();
    StepReachable(CHILD_RELEASED, Admit(2, "goal"));
    s := Do(CHILD_RELEASED, Admit(2, "goal"));
    assert D6[0] == E0;
  }

  // ------------------------------------------------------------- rolled back, reclaimed

  lemma OnlyThisOne()
    ensures OnlyRequest(D3, PARENT, "goal", REQUEST)
  {
    hide Reduce, ShutBy;
    assert D3 == [E0, E1, E2];
  }

  /** A parent that prepared a handoff and rolls it back may work on its goal again. */
  lemma RolledBackParentWorks() returns (s: State)
    ensures Reachable(s) && Can(s, Admit(1, "goal")) && 1 in s.views
    ensures HasStatus(Reduce(Memory(s, 1), REQUEST), Cancelled)
  {
    hide Known, Branch, LatestGoal, OutboundBlocks, Reduce, OnlyRequest;
    ReachGoalSuspended();
    OwnMemory();
    AttemptMemory();
    StartOfLog();
    OnlyThisOne();
    var start := GOAL_SUSPENDED;
    assert Can(start, Withdraw(REQUEST, Cancelled));
    RollbackGivesTheGoalBack(start, REQUEST, Cancelled, GOAL);
    var rollback := [Save(1, GoalData(Some(GOAL))), Withdraw(REQUEST, Cancelled)];
    RunReachable(start, rollback);
    s := RunOf(start, rollback);
  }

  lemma AttemptMemory()
    ensures Known(D3, ATTEMPT_VIEW) == D3
  {
    assert D3 == [E0, E1, E2];
    assert D3[..2] == D2 && D2[..1] == D1 && D1[..0] == [];
    assert Known(D1, ATTEMPT_VIEW) == D1;
    assert Known(D2, ATTEMPT_VIEW) == D2;
  }

  lemma {:induction false} RunReachable(s: State, actions: seq<Action>)
    requires Reachable(s) && Legal(s, actions)
    ensures Reachable(RunOf(s, actions))
    decreases |actions|
  {
    hide Can, Do, Reachable;
    if actions != [] {
      StepReachable(s, actions[0]);
      RunReachable(Do(s, actions[0]), actions[1..]);
    }
  }

  /** A parent whose handoff is stuck may reclaim the goal and work on it again. */
  lemma ReclaimedParentWorks() returns (s: State)
    ensures Reachable(s) && Can(s, Admit(1, "goal")) && 1 in s.views
    ensures HasStatus(Reduce(Memory(s, 1), REQUEST), Failed) && s.lock == Free
  {
    hide Known, Branch, LatestGoal, OutboundBlocks, Reduce, OnlyRequest;
    ReachGoalSuspended();
    AttemptMemory();
    StartOfLog();
    Branches();
    Goals();
    OnlyThisOne();
    var start := GOAL_SUSPENDED;
    assert Can(start, TakeReclaim(1, REQUEST));
    ReclaimGivesTheGoalBack(start, 1, REQUEST);
    var reclaim := [TakeReclaim(1, REQUEST), LockedAppend, LockedAppend, Unlock];
    RunReachable(start, reclaim);
    s := RunOf(start, reclaim);
  }

  // ---------------------------------------------------- superseded after the transfer

  const E6 := Entry(6, Some(1), GoalData(None))
  const E7 := Entry(7, Some(6), HandoffData(Some(Record(REQUEST, Failed, Some(CHILD), false, "superseded"))))
  const D7 := D6 + [E6]
  const D8 := D7 + [E7]

  function Third(view: View): map<nat, View> {
    ALL_VIEWS[3 := view]
  }

  const CLEARED_VIEW := View(4, {6}, Some(6))
  const SUPERSEDED_VIEW := View(4, {6, 7}, Some(7))
  const GOAL_CLEARED := CHILD_RELEASED.(disk := D7, views := Third(CLEARED_VIEW))
  const HANDOFF_SUPERSEDED := CHILD_RELEASED.(disk := D8, views := Third(SUPERSEDED_VIEW), superseded := {7})
  const BACK_AT_GOAL := HANDOFF_SUPERSEDED.(views := Third(View(4, {6, 7}, Some(0))))

  /** The third process goes back to the prepared entry and clears the goal there. */
  lemma ReachGoalCleared()
    ensures Reachable(GOAL_CLEARED)
  {
    ReachChildReleased();
    StepReachable(CHILD_RELEASED, Navigate(3, Some(1)));
    var s := Do(CHILD_RELEASED, Navigate(3, Some(1)));
    StepReachable(s, Save(3, GoalData(None)));
    assert {} + {6} == {6};
    assert Do(s, Save(3, GoalData(None))).views == GOAL_CLEARED.views;
  }

  lemma LateMemory()
    ensures Known(D7, CLEARED_VIEW) == D4 + [E6]
    ensures Known(D8, View(4, {6, 7}, Some(0))) == D4 + [E6] + [E7]
  {
    LateStart(CLEARED_VIEW);
    LateStart(View(4, {6, 7}, Some(0)));
    assert D7[..6] == D6 && D8[..7] == D7;
  }

  lemma LateStart(view: View)
    requires view.seen == 4 && 4 !in view.own && 5 !in view.own
    ensures Known(D6, view) == D4
  {
    KnownAll(D4, view);
    assert D5[..4] == D4 && D6[..5] == D5;
    assert Known(D5, view) == D4 + [] == D4;
  }

  lemma LateBranches()
    ensures Branch(D4 + [E6], Some(6)) == D2 + [E6]
    ensures Branch(D4 + [E6] + [E7], Some(0)) == D1
  {
    BranchAppend(D4 + [], E6);
    assert D4 + [] == D4;
    BranchStable(D2, E2, Some(1));
    BranchStable(D3, E3, Some(1));
    Branches();
    BranchStable(D1, E1, Some(0));
    BranchStable(D2, E2, Some(0));
    BranchStable(D3, E3, Some(0));
    BranchStable(D4, E6, Some(0));
    BranchStable(D4 + [E6], E7, Some(0));
  }

  lemma LateReductions()
    ensures Reduce(D4 + [E6], REQUEST) == Current(E3.payload.record, Some(3))
    ensures Reduce(D4 + [E6] + [E7], REQUEST) == Current(E7.payload.record, Some(7))
  {
    hide Fold, AnyMalformed;
    RestOfLog();
    ReduceSnoc(D4, E6, REQUEST);
    ReduceSnoc(D4 + [E6], E7, REQUEST);
  }

  lemma LatePending()
    ensures Pending(GOAL_CLEARED, 3) == E3.payload.record
    ensures LatestGoal(BranchOf(GOAL_CLEARED, 3)) == None
  {
    hide Known, Branch, Reduce;
    LateMemory();
    LateBranches();
    LateReductions();
    var branch := D2 + [E6];
    LatestGoalAppend(D2, E6);
    assert branch[..2] == D2 && D2[1] == E1;
    assert LatestHandoff(D2) == E1.payload.record;
    assert LatestHandoff(branch) == LatestHandoff(D2);
  }

  lemma ReachSuperseded()
    ensures Reachable(BACK_AT_GOAL)
  {
    hide Pending, BranchOf, Memory;
    ReachGoalCleared();
    LatePending();
    StepReachable(GOAL_CLEARED, Supersede(3));
    assert {6} + {7} == {6, 7} && {} + {7} == {7};
    var s := Do(GOAL_CLEARED, Supersede(3));
    assert s.disk == D8;
    assert s.views == HANDOFF_SUPERSEDED.views;
    StepReachable(s, Navigate(3, Some(0)));
    assert Do(s, Navigate(3, Some(0))).views == BACK_AT_GOAL.views;
  }

  lemma AbandonedIsFree()
    ensures !OutboundBlocks(D4 + [E6] + [E7], PARENT, "goal")
  {
    hide Fold;
    var memory := D4 + [E6] + [E7];
    LateReductions();
    assert memory == [E0, E1, E2, E3, E6, E7];
  }

  /** A process that opened the session before the transfer, and later supersedes the
      handoff without reading the file again, is let through as well. */
  lemma SupersedingParentWorksToo() returns (s: State, memory: View)
    ensures Reachable(s) && Released(s, REQUEST)
    ensures Admission(memory, "goal") in s.admissions && Remembers(s.disk, memory, REQUEST)
  {
    hide Known, Branch, LatestGoal, OutboundBlocks;
    ReachSuperseded();
    LateMemory();
    LateBranches();
    Goals();
    AbandonedIsFree();
    memory := View(4, {6, 7}, Some(0));
    StepReachable(BACK_AT_GOAL, Admit(3, "goal"));
    s := Do(BACK_AT_GOAL, Admit(3, "goal"));
    assert D8[7] == E7 && Knows(memory, 7) && Concerns(D8[7], REQUEST.id);
  }
}
