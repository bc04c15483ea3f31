/** Who may work on a goal while it is handed to a fresh session. */
module GoalOwnership {
  // The parent's gate (`extensions/goal/index.ts`) and all processes that read and append to
  // the parent's log, as a state machine.

  import opened HandoffLog
  import opened HandoffFinalize
  import opened Wrappers

  // ---------------------------------------------------------------- the parent's gate

  /** The session that asks. */
  datatype Origin = Origin(id: string, file: string)

  predicate OutboundTo(e: Entry, origin: Origin, goalId: string) {
    IsRecord(e) &&
    var r := RecordOf(e).request;
    r.goalId == Some(goalId) && r.originId == origin.id && r.originFile == origin.file
  }

  /** Parent states in which a known goal is not the parent's to work on. */
  predicate ShutBy(r: Reduction) {
    r.Conflict? || HasStatus(r, Prepared) || HasStatus(r, ChildCreated) || HasStatus(r, Transferred)
  }

  predicate OutboundBlocks(entries: seq<Entry>, origin: Origin, goalId: string) {
    AnyMalformed(entries) ||
    exists i | 0 <= i < |entries| ::
      OutboundTo(entries[i], origin, goalId) && ShutBy(Reduce(entries, RecordOf(entries[i]).request))
  }

  /** The first record about a request id, or the length of the log. */
  function FirstAbout(entries: seq<Entry>, id: string): (i: nat)
    ensures i <= |entries| && (i < |entries| ==> Concerns(entries[i], id))
    ensures forall k | 0 <= k < i :: !Concerns(entries[k], id)
  {
    if entries == [] || Concerns(entries[0], id) then 0 else 1 + FirstAbout(entries[1..], id)
  }

  /** The state of a request known by its id alone. */
  function Lookup(entries: seq<Entry>, id: string): Reduction {
    if AnyMalformed(entries) then Conflict
    else if FirstAbout(entries, id) == |entries| then Current(None, None)
    else Reduce(entries, RecordOf(entries[FirstAbout(entries, id)]).request)
  }

  method LatestHandoffForRequest(entries: seq<Entry>, id: string) returns (malformed: bool, record: Option<Record>)
    ensures malformed <==> Lookup(entries, id).Conflict?
    ensures !malformed ==> record == Lookup(entries, id).record
  {
    hide Reduce;
    for i := 0 to |entries|
      invariant forall k | 0 <= k < i :: !Malformed(entries[k])
    {
      if Malformed(entries[i]) {
        return true, None;
      }
    }
    for i := 0 to |entries|
      invariant forall k | 0 <= k < i :: !Concerns(entries[k], id)
    {
      if Concerns(entries[i], id) {
        var reduction := ReduceSelfHandoffRequest(entries, RecordOf(entries[i]).request);
        if reduction.Conflict? {
          return true, None;
        }
        return false, reduction.record;
      }
    }
    return false, None;
  }

  /** It does not matter which of the records about an id tells the request. */
  lemma LookupIs(entries: seq<Entry>, k: nat, id: string)
    requires k < |entries| && Concerns(entries[k], id)
    ensures Lookup(entries, id) == Reduce(entries, RecordOf(entries[k]).request)
  {
    hide Fold;
    if !AnyMalformed(entries) {
      OneRequestPerId(entries, FirstAbout(entries, id), k);
    }
  }

  /** Two requests with one id are in conflict whichever is asked for. */
  lemma OneRequestPerId(entries: seq<Entry>, i: nat, k: nat)
    requires i < |entries| && k < |entries| && IsRecord(entries[i])
    requires Concerns(entries[k], RecordOf(entries[i]).request.id)
    ensures
      var a, b := RecordOf(entries[i]).request, RecordOf(entries[k]).request;
      a == b || (Reduce(entries, a).Conflict? && Reduce(entries, b).Conflict?)
  {
    var a, b := RecordOf(entries[i]).request, RecordOf(entries[k]).request;
    if a != b {
      OtherRequestConflicts(entries, a, k);
      OtherRequestConflicts(entries, b, i);
    }
  }

  lemma OtherRequestConflicts(entries: seq<Entry>, request: Request, k: nat)
    requires k < |entries| && Concerns(entries[k], request.id) && RecordOf(entries[k]).request != request
    ensures Fold(entries, request).Conflict?
  {
    FoldNext(entries, k, request);
    FoldConflictAfter(entries, k + 1, request);
  }

  /** Collects the ids of the outbound requests, then looks each of them up. */
  method OutboundGoalOwnership(entries: seq<Entry>, origin: Origin, goalId: string) returns (blocked: bool)
    ensures blocked <==> OutboundBlocks(entries, origin, goalId)
  {
    hide Reduce;
    for i := 0 to |entries|
      invariant forall k | 0 <= k < i :: !Malformed(entries[k])
    {
      if Malformed(entries[i]) {
        return true;
      }
    }
    var requestIds: seq<string> := [];
    for i := 0 to |entries|
      invariant forall k | 0 <= k < i && OutboundTo(entries[k], origin, goalId) ::
        RecordOf(entries[k]).request.id in requestIds
      invariant forall id | id in requestIds ::
        exists k | 0 <= k < |entries| :: OutboundTo(entries[k], origin, goalId) && RecordOf(entries[k]).request.id == id
    {
      if OutboundTo(entries[i], origin, goalId) && RecordOf(entries[i]).request.id !in requestIds {
        requestIds := requestIds + [RecordOf(entries[i]).request.id];
      }
    }
    for j := 0 to |requestIds|
      invariant forall k | 0 <= k < j :: !ShutBy(Lookup(entries, requestIds[k]))
    {
      var malformed, record := LatestHandoffForRequest(entries, requestIds[j]);
      assert requestIds[j] in requestIds;
      var k :| 0 <= k < |entries| && OutboundTo(entries[k], origin, goalId) &&
        RecordOf(entries[k]).request.id == requestIds[j];
      LookupIs(entries, k, requestIds[j]);
      if malformed || (record.Some? && record.value.status in {Prepared, ChildCreated, Transferred}) {
        assert ShutBy(Reduce(entries, RecordOf(entries[k]).request));
        return true;
      }
    }
    forall k | 0 <= k < |entries| && OutboundTo(entries[k], origin, goalId)
      ensures !ShutBy(Reduce(entries, RecordOf(entries[k]).request))
    {
      LookupIs(entries, k, RecordOf(entries[k]).request.id);
    }
    return false;
  }

  // -------------------------------------------------------------------- the machine

  /** A process's memory of the log: what was on disk when it opened the session, and
      what it appended itself. */
  datatype View = View(seen: nat, own: set<nat>, leaf: Option<nat>)

  predicate Knows(view: View, i: nat) {
    i < view.seen || i in view.own
  }

  function Known(disk: seq<Entry>, view: View): seq<Entry> {
    if disk == [] then []
    else
      var n := |disk| - 1;
      Known(disk[..n], view) + (if Knows(view, n) then [disk[n]] else [])
  }

  datatype Phase = Appended | Suspended | Durable | Withdrawn | Replaced(child: Child)

  datatype Attempt = Attempt(view: nat, phase: Phase)

  /** The child's own log of the handoff, and whether the parent has just confirmed. */
  datatype ChildSession = ChildSession(records: seq<Status>, confirmed: bool)

  /** What the holder of the lock file does next. */
  datatype Job =
    | RecordChild(request: Request, child: Child, from: Option<nat>)
    | AddGoal(request: Request, child: Child, from: Option<nat>, goal: Goal)
    | AddRecord(request: Request, child: Child, from: Option<nat>, suspended: Option<Goal>)
    | RestoreGoal(from: Option<nat>, suspended: Option<Goal>)
    | ReclaimRecord(view: nat, request: Request, named: Option<Child>, goal: Goal)
    | ReclaimGoal(view: nat, goal: Goal)
    | Finished

  /** A leftover lock file stays until it is removed by hand. */
  datatype Lock = Free | Held(job: Job) | Leftover

  /** A turn that the parent's gate let through, with the memory it was decided on. */
  datatype Admission = Admission(memory: View, goalId: string)

  /** `superseded` and `admissions` only record history. */
  datatype State = State(
    origin: Origin,
    disk: seq<Entry>,
    views: map<nat, View>,
    lock: Lock,
    attempts: map<Request, Attempt>,
    children: map<Request, ChildSession>,
    superseded: set<nat>,
    admissions: seq<Admission>)

  datatype Action =
    | Open(view: nat) | Close(view: nat) | Navigate(view: nat, leaf: Option<nat>)
    | Save(view: nat, payload: Payload)
    | Prepare(view: nat, request: Request) | Suspend(request: Request) | VerifyPrepared(request: Request)
    | Withdraw(request: Request, status: Status) | Supersede(view: nat)
    | Replace(request: Request, child: Child)
    | TakeRecordChild(request: Request) | TakeFinalize(request: Request) | TakeReclaim(view: nat, request: Request)
    | LockedAppend | LockedFailure | Unlock | Die | RemoveLock
    | Retry(request: Request) | Settle(request: Request) | ChildFails(request: Request)
    | Confirm(request: Request) | Lapse(request: Request) | Release(request: Request)
    | Admit(view: nat, goalId: string)

  function Memory(s: State, v: nat): seq<Entry>
    requires v in s.views
  {
    Known(s.disk, s.views[v])
  }

  function BranchOf(s: State, v: nat): seq<Entry>
    requires v in s.views
  {
    Branch(Memory(s, v), s.views[v].leaf)
  }

  function ChildStatus(s: State, request: Request): Option<Status> {
    if request in s.children && s.children[request].records != []
    then Some(s.children[request].records[|s.children[request].records| - 1]) else None
  }

  predicate FreshAttempt(s: State, request: Request) {
    (forall r | r in s.attempts :: r.id != request.id) && request.originId == s.origin.id &&
      request.originFile == s.origin.file
  }

  /** A pending record on the view's branch that still reads as pending in its memory. */
  function Pending(s: State, v: nat): Option<Record>
    requires v in s.views
  {
    var latest := LatestHandoff(BranchOf(s, v));
    if latest.None? || (latest.value.status != Prepared && latest.value.status != ChildCreated) then None
    else
      var prior := Reduce(Memory(s, v), latest.value.request);
      if HasStatus(prior, Prepared) || HasStatus(prior, ChildCreated) then prior.record else None
  }

  function ReclaimedGoal(goal: Goal): Goal {
    goal.(status := Active, handoffId := None, childFile := None, rest := goal.rest + ["reclaimed"])
  }

  function SuspendedGoal(goal: Goal, request: Request): Goal {
    goal.(status := GoalTransferring, handoffId := Some(request.id), childFile := None,
      rest := goal.rest + ["transferring"])
  }

  const RECLAIMED := "Goal reclaimed in the original parent session."

  /** The reclaim command's view of its goal, and the state on disk that it insists on. */
  predicate MayReclaim(s: State, v: nat, request: Request) {
    v in s.views && request in s.attempts && s.views[v].leaf.Some? &&
    var goal := LatestGoal(BranchOf(s, v));
    var r := Reduce(s.disk, request);
    && GoalMatches(goal, GoalTransferring, request)
    && GoalMatches(LatestGoal(Branch(s.disk, s.views[v].leaf)), GoalTransferring, request)
    && (HasStatus(r, Prepared) || HasStatus(r, ChildCreated) ||
      (HasStatus(r, Failed) && r.record.value.note == RECLAIMED))
  }

  predicate MayPrepare(s: State, v: nat, request: Request) {
    v in s.views && FreshAttempt(s, request) &&
    var goal := LatestGoal(BranchOf(s, v));
    && !(goal.Some? && (goal.value.status == GoalTransferring || goal.value.status == GoalTransferred))
    && (goal.Some? ==> !OutboundBlocks(Memory(s, v), s.origin, goal.value.id))
    && request.goalId == (if goal.Some? && goal.value.status == Active then Some(goal.value.id) else None)
  }

  predicate MaySupersede(s: State, v: nat) {
    v in s.views && Pending(s, v).Some? &&
    var goal := LatestGoal(BranchOf(s, v));
    && !(goal.Some? && (goal.value.status == GoalTransferring || goal.value.status == GoalTransferred))
    && (goal.Some? ==> !OutboundBlocks(Memory(s, v), s.origin, goal.value.id))
  }

  predicate Can(s: State, a: Action) {
    match a
    case Open(v) => v !in s.views
    case Close(v) => v in s.views &&
      !(s.lock.Held? && (s.lock.job.ReclaimRecord? || s.lock.job.ReclaimGoal?) && s.lock.job.view == v)
    case Navigate(v, leaf) => v in s.views && (leaf.Some? ==> leaf.value < |s.disk| && Knows(s.views[v], leaf.value))
    case Save(v, payload) => v in s.views && !payload.HandoffData?
    case Prepare(v, request) => MayPrepare(s, v, request)
    case Suspend(request) =>
      request in s.attempts && s.attempts[request].phase == Appended && s.attempts[request].view in s.views
    case VerifyPrepared(request) =>
      && request in s.attempts && s.attempts[request].phase == Suspended && s.lock == Free
      && HasStatus(Reduce(s.disk, request), Prepared)
      && (request.goalId.Some? ==> Transition(s.disk, |s.disk|, request, GoalTransferring).Some?)
    case Withdraw(request, status) =>
      && request in s.attempts && s.attempts[request].phase in {Suspended, Durable} &&
        s.attempts[request].view in s.views
      && (status == Failed || status == Cancelled)
    case Supersede(v) => MaySupersede(s, v)
    case Replace(request, child) =>
      request in s.attempts && s.attempts[request].phase == Durable && request !in s.children
    case TakeRecordChild(request) =>
      && s.lock == Free && request in s.attempts && s.attempts[request].phase.Replaced?
      && HasStatus(Reduce(s.disk, request), Prepared)
      && (request.goalId.Some? ==> Transition(s.disk, |s.disk|, request, GoalTransferring).Some?)
    case TakeFinalize(request) =>
      && s.lock == Free && request in s.attempts && s.attempts[request].phase.Replaced?
      && ChildStatus(s, request) == Some(AwaitingUser)
      && Awaiting(s.disk, request, s.attempts[request].phase.child)
    case TakeReclaim(v, request) => s.lock == Free && MayReclaim(s, v, request)
    case LockedAppend => s.lock.Held? && s.lock.job != Finished &&
      ((s.lock.job.ReclaimRecord? || s.lock.job.ReclaimGoal?) ==> s.lock.job.view in s.views)
    case LockedFailure => s.lock.Held? && s.lock.job != Finished
    case Unlock => s.lock == Held(Finished)
    case Die => s.lock.Held?
    case RemoveLock => s.lock == Leftover
    case Retry(request) => ChildStatus(s, request) == Some(Received)
    case Settle(request) => ChildStatus(s, request) == Some(Received)
    case ChildFails(request) => ChildStatus(s, request) in {Some(Received), Some(AwaitingUser)}
    case Confirm(request) =>
      && s.lock == Free && request in s.attempts && s.attempts[request].phase.Replaced?
      && ChildStatus(s, request) == Some(AwaitingUser)
      && Confirmed(s.disk, request, s.attempts[request].phase.child)
    case Lapse(request) => request in s.children
    case Release(request) => ChildStatus(s, request) == Some(AwaitingUser) && s.children[request].confirmed
    case Admit(v, goalId) =>
      v in s.views &&
      var goal := LatestGoal(BranchOf(s, v));
      goal.Some? && goal.value.status == Active && goal.value.id == goalId &&
        !OutboundBlocks(Memory(s, v), s.origin, goalId)
  }

  /** An append by a process that has the session open: to its memory and to the file,
      without the lock. */
  function Put(s: State, v: nat, payload: Payload): State
    requires v in s.views
  {
    var n := |s.disk|;
    s.(disk := Add(s.disk, s.views[v].leaf, payload),
       views := s.views[v := View(s.views[v].seen, s.views[v].own + {n}, Some(n))])
  }

  function PutRecord(s: State, v: nat, request: Request, status: Status, child: Option<Child>, note: string): State
    requires v in s.views && (NamesChild(status) ==> child.Some?)
  {
    Put(s, v, HandoffData(Some(Record(request, status, child, false, note))))
  }

  function SetPhase(s: State, request: Request, phase: Phase): State
    requires request in s.attempts
  {
    s.(attempts := s.attempts[request := s.attempts[request].(phase := phase)])
  }

  function ChildAdds(s: State, request: Request, status: Status): State
    requires request in s.children
  {
    s.(children := s.children[request := ChildSession(s.children[request].records + [status], false)])
  }

  function Finalizing(s: State, request: Request, child: Child): Job
    requires Awaiting(s.disk, request, child)
  {
    var at := Reduce(s.disk, request).at;
    if request.goalId.None? then AddRecord(request, child, at, None)
    else
      var goal := LatestGoal(Branch(s.disk, at)).value;
      var found := Transition(s.disk, |s.disk|, request, GoalTransferred);
      if found.Some? then AddRecord(request, child, Some(found.value.id), Some(goal))
      else AddGoal(request, child, at, goal)
  }

  function SuspendGoal(s: State, v: nat, request: Request): State
    requires v in s.views
  {
    var goal := LatestGoal(BranchOf(s, v));
    if request.goalId.Some? && goal.Some? then Put(s, v, GoalData(Some(SuspendedGoal(goal.value, request)))) else s
  }

  function RecordFrom(s: State, request: Request): Option<nat>
    requires HasStatus(Reduce(s.disk, request), Prepared)
    requires request.goalId.Some? ==> Transition(s.disk, |s.disk|, request, GoalTransferring).Some?
  {
    if request.goalId.Some? then Some(Transition(s.disk, |s.disk|, request, GoalTransferring).value.id)
    else Reduce(s.disk, request).at
  }

  function Reclaiming(s: State, v: nat, request: Request): Job
    requires MayReclaim(s, v, request)
  {
    var goal := LatestGoal(BranchOf(s, v)).value;
    var r := Reduce(s.disk, request);
    if HasStatus(r, Failed) then ReclaimGoal(v, goal) else ReclaimRecord(v, request, r.record.value.child, goal)
  }

  /** A transferred record that cannot be appended puts the suspended goal back. */
  function AfterFailure(job: Job): Job {
    if job.AddRecord? && job.suspended.Some? then RestoreGoal(job.from, job.suspended) else Finished
  }

  function DoLockedAppend(s: State, job: Job): State
    requires (job.ReclaimRecord? || job.ReclaimGoal?) ==> job.view in s.views
  {
    match job
    case RecordChild(request, child, from) =>
      s.(disk := Add(s.disk, from, HandoffData(Some(ChildCreatedRecord(request, child)))), lock := Held(Finished))
    case AddGoal(request, child, from, goal) =>
      s.(disk := Add(s.disk, from, GoalData(Some(TransferredGoal(goal, request, child)))),
         lock := Held(AddRecord(request, child, Some(|s.disk|), Some(goal))))
    case AddRecord(request, child, from, _) =>
      s.(disk := Add(s.disk, from, HandoffData(Some(TransferredRecord(request, child)))), lock := Held(Finished))
    case RestoreGoal(from, suspended) => s.(disk := Add(s.disk, from, GoalData(suspended)), lock := Held(Finished))
    case ReclaimRecord(v, request, child, goal) =>
      PutRecord(s, v, request, Failed, child, RECLAIMED).(lock := Held(ReclaimGoal(v, goal)))
    case ReclaimGoal(v, goal) => Put(s, v, GoalData(Some(ReclaimedGoal(goal)))).(lock := Held(Finished))
    case Finished => s
  }

  function Do(s: State, a: Action): State
    requires Can(s, a)
  {
    match a
    case Open(v) => s.(views := s.views[v := View(|s.disk|, {}, if s.disk == [] then None else Some(|s.disk| - 1))])
    case Close(v) => s.(views := s.views - {v})
    case Navigate(v, leaf) => s.(views := s.views[v := s.views[v].(leaf := leaf)])
    case Save(v, payload) => Put(s, v, payload)
    case Prepare(v, request) =>
      PutRecord(s, v, request, Prepared, None, "prepared").(attempts := s.attempts[request := Attempt(v, Appended)])
    case Suspend(request) =>
      SetPhase(SuspendGoal(s, s.attempts[request].view, request), request, Suspended)
    case VerifyPrepared(request) => SetPhase(s, request, Durable)
    case Withdraw(request, status) =>
      SetPhase(PutRecord(s, s.attempts[request].view, request, status, None, "withdrawn"), request, Withdrawn)
    case Supersede(v) =>
      PutRecord(s, v, Pending(s, v).value.request, Failed, Pending(s, v).value.child, "superseded")
        .(superseded := s.superseded + {|s.disk|})
    case Replace(request, child) =>
      SetPhase(s, request, Replaced(child)).(children := s.children[request := ChildSession([Received], false)])
    case TakeRecordChild(request) =>
      s.(lock := Held(RecordChild(request, s.attempts[request].phase.child, RecordFrom(s, request))))
    case TakeFinalize(request) => s.(lock := Held(Finalizing(s, request, s.attempts[request].phase.child)))
    case TakeReclaim(v, request) =>
      s.(lock := Held(Reclaiming(s, v, request)))
    case LockedAppend => DoLockedAppend(s, s.lock.job)
    case LockedFailure => s.(lock := Held(AfterFailure(s.lock.job)))
    case Unlock => s.(lock := Free)
    case Die => s.(lock := Leftover)
    case RemoveLock => s.(lock := Free)
    case Retry(request) => ChildAdds(s, request, Received)
    case Settle(request) => ChildAdds(s, request, AwaitingUser)
    case ChildFails(request) => ChildAdds(s, request, Failed)
    case Confirm(request) => s.(children := s.children[request := s.children[request].(confirmed := true)])
    case Lapse(request) => s.(children := s.children[request := s.children[request].(confirmed := false)])
    case Release(request) => ChildAdds(s, request, Transferred)
    case Admit(v, goalId) => s.(admissions := s.admissions + [Admission(s.views[v], goalId)])
  }

  predicate Legal(s: State, actions: seq<Action>)
    decreases |actions|
  {
    actions == [] || (Can(s, actions[0]) && Legal(Do(s, actions[0]), actions[1..]))
  }

  function RunOf(s: State, actions: seq<Action>): State
    requires Legal(s, actions)
    decreases |actions|
  {
    if actions == [] then s else RunOf(Do(s, actions[0]), actions[1..])
  }

  predicate Initial(s: State) {
    s.disk == [] && s.views == map[] && s.lock == Free && s.attempts == map[] && s.children == map[] &&
    s.superseded == {} && s.admissions == []
  }

  ghost predicate Reachable(s: State) {
    exists start: State, actions: seq<Action> :: Initial(start) && Legal(start, actions) && RunOf(start, actions) == s
  }
}
