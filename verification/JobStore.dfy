/** The shared store of background jobs (`extensions/_shared/job-store.ts`). */
module JobStore {
  // Stale snapshots are merged by revision, and claims, cancellations, heartbeats and pruning
  // change records in place.

  import opened Wrappers

  datatype Status = Running | AwaitingAnswer | Canceling | Completed | Failed | Canceled

  predicate Terminal(s: Status) {
    s == Completed || s == Failed || s == Canceled
  }

  /** A date as a stored text: its place among other texts, and the time it is read as, if
      it can be read. */
  datatype Date = Date(rank: int, time: Option<int>)

  function DateOf(now: int): Date {
    Date(now, Some(now))
  }

  datatype Owner = Owner(id: string, pid: nat, leaseExpiresAt: Date)

  /** A stored record; a missing revision is 0. */
  datatype Job = Job(id: string, status: Status, revision: nat, startedAt: Option<Date>, updatedAt: Option<Date>,
                     owner: Option<Owner>, cancelRequestedAt: Option<int>, question: Option<string>,
                     lastAnswered: Option<string>)

  /** A key that a snapshot may leave out. */
  datatype Field<T> = Absent | Given(value: T)

  /** A record as some process remembers it, however old. */
  datatype Snapshot = Snapshot(id: string, status: Status, revision: nat, startedAt: Field<Option<Date>>,
                               updatedAt: Field<Option<Date>>, owner: Field<Option<Owner>>,
                               cancelRequestedAt: Field<Option<int>>, question: Field<Option<string>>,
                               lastAnswered: Field<Option<string>>)

  function Pick<T>(given: Field<T>, otherwise: T): T {
    if given.Given? then given.value else otherwise
  }

  const LEGACY_LEASE_MS := 60000

  /** What reading a record drops. */
  function Normal(j: Job): Job {
    if j.status == AwaitingAnswer then j else j.(question := None)
  }

  /** The time of the last update, or of the start when there was none. */
  function LastSeen(j: Job): Option<int> {
    if j.updatedAt.Some? then j.updatedAt.value.time
    else if j.startedAt.Some? then j.startedAt.value.time
    else None
  }

  predicate OwnerStale(j: Job, now: int, alive: set<nat>) {
    !Terminal(j.status) &&
    if j.owner.Some? then
      var expiresAt := j.owner.value.leaseExpiresAt.time;
      j.owner.value.pid !in alive || expiresAt.None? || expiresAt.value <= now
    else LastSeen(j).None? || now - LastSeen(j).value > LEGACY_LEASE_MS
  }

  /** A job whose owner is gone has failed. */
  function Settled(j: Job, now: int, alive: set<nat>): Job {
    if OwnerStale(j, now, alive)
    then j.(status := Failed, question := None, revision := j.revision + 1, updatedAt := Some(DateOf(now)))
    else j
  }

  // -------------------------------------------------------------------- pruning

  /** A job without a start comes first. */
  predicate StartsNoLater(a: Job, b: Job) {
    a.startedAt.None? || (b.startedAt.Some? && a.startedAt.value.rank <= b.startedAt.value.rank)
  }

  /** In the order of their start, otherwise as they were. */
  function InsertByStart(j: Job, sorted: seq<Job>): seq<Job> {
    if sorted == [] || StartsNoLater(j, sorted[0]) then [j] + sorted else [sorted[0]] + InsertByStart(j, sorted[1..])
  }

  function ByStart(jobs: seq<Job>): seq<Job> {
    if jobs == [] then [] else InsertByStart(jobs[0], ByStart(jobs[1..]))
  }

  function AllSettled(jobs: seq<Job>, now: int, alive: set<nat>): (r: seq<Job>)
    ensures |r| == |jobs| && forall i | 0 <= i < |r| :: r[i] == Settled(Normal(jobs[i]), now, alive)
  {
    seq(|jobs|, i requires 0 <= i < |jobs| => Settled(Normal(jobs[i]), now, alive))
  }

  function Active(jobs: seq<Job>): seq<Job> {
    if jobs == [] then [] else (if Terminal(jobs[0].status) then [] else [jobs[0]]) + Active(jobs[1..])
  }

  predicate Fresh(j: Job, now: int, maxAgeMs: int) {
    LastSeen(j).None? || now - LastSeen(j).value <= maxAgeMs
  }

  function Finished(jobs: seq<Job>, now: int, maxAgeMs: int): seq<Job> {
    if jobs == [] then []
    else
      (if Terminal(jobs[0].status) && Fresh(jobs[0], now, maxAgeMs) then [jobs[0]] else []) +
      Finished(jobs[1..], now, maxAgeMs)
  }

  /** The last so many. */
  function Latest(jobs: seq<Job>, n: int): seq<Job> {
    if n <= 0 then [] else if n >= |jobs| then jobs else jobs[|jobs| - n..]
  }

  function Pruned(jobs: seq<Job>, now: int, alive: set<nat>, maxJobs: int, maxAgeMs: int): seq<Job> {
    var settled := AllSettled(jobs, now, alive);
    var active := Active(settled);
    ByStart(active + Latest(ByStart(Finished(settled, now, maxAgeMs)), maxJobs - |active|))
  }

  // ------------------------------------------------------------------ operations

  function NewJob(s: Snapshot): Job {
    Job(s.id, s.status, s.revision, Pick(s.startedAt, None), Pick(s.updatedAt, None), Pick(s.owner, None),
        Pick(s.cancelRequestedAt, None), Pick(s.question, None), Pick(s.lastAnswered, None))
  }

  function Merged(existing: Job, incoming: Snapshot): Job {
    if incoming.revision < existing.revision then existing
    else if Terminal(existing.status) && incoming.revision <= existing.revision then existing
    else if Terminal(existing.status) && !Terminal(incoming.status) then existing
    else if existing.status == Canceling && !Terminal(incoming.status) then existing
    else if incoming.revision == existing.revision && existing.status == AwaitingAnswer &&
      incoming.status == Running then existing
    else
      var cancel := Pick(incoming.cancelRequestedAt, existing.cancelRequestedAt);
      Job(existing.id, incoming.status, incoming.revision, Pick(incoming.startedAt, existing.startedAt),
          Pick(incoming.updatedAt, existing.updatedAt), Pick(incoming.owner, existing.owner),
          if cancel.None? then existing.cancelRequestedAt else cancel,
          if incoming.status == AwaitingAnswer then Pick(incoming.question, existing.question) else None,
          Pick(incoming.lastAnswered, existing.lastAnswered))
  }

  function Index(jobs: seq<Job>, id: string): (i: nat)
    ensures i <= |jobs| && (i < |jobs| ==> jobs[i].id == id)
    ensures forall k | 0 <= k < i :: jobs[k].id != id
  {
    if jobs == [] || jobs[0].id == id then 0 else 1 + Index(jobs[1..], id)
  }

  function Upserted(jobs: seq<Job>, incoming: Snapshot): seq<Job> {
    var i := Index(jobs, incoming.id);
    if i == |jobs| then jobs + [NewJob(incoming)] else jobs[i := Merged(jobs[i], incoming)]
  }

  function CanceledJob(j: Job, now: int): Job {
    if Terminal(j.status) || (j.status == Canceling && j.cancelRequestedAt.Some?) then j
    else j.(status := Canceling, question := None, revision := j.revision + 1,
            cancelRequestedAt := if j.cancelRequestedAt.Some? then j.cancelRequestedAt else Some(now),
            updatedAt := Some(DateOf(now)))
  }

  /** Only the owner answers, and only the question that is open. */
  predicate MayClaim(j: Job, owner: string, question: string) {
    && j.owner.Some? && j.owner.value.id == owner
    && j.cancelRequestedAt.None? && j.status == AwaitingAnswer && j.question == Some(question)
  }

  function ClaimedJob(j: Job, question: string, now: int): Job {
    j.(status := Running, question := None, lastAnswered := Some(question), revision := j.revision + 1,
      updatedAt := Some(DateOf(now)))
  }

  predicate Beats(j: Job, owner: string) {
    j.owner.Some? && j.owner.value.id == owner && !Terminal(j.status)
  }

  function Beaten(j: Job, owner: string, leaseMs: int, now: int): Job {
    if Beats(j, owner) then
      j.(owner := Some(j.owner.value.(leaseExpiresAt := DateOf(now + leaseMs))), updatedAt := Some(DateOf(now)))
    else j
  }

  /** The ids the owner is told to cancel. */
  function CancelAsked(jobs: seq<Job>, owner: string): set<string> {
    set j | j in jobs && Beats(j, owner) && (j.cancelRequestedAt.Some? || j.status == Canceling) :: j.id
  }

  lemma CancelAskedSnoc(jobs: seq<Job>, j: Job, owner: string)
    ensures
      CancelAsked(jobs + [j], owner) == CancelAsked(jobs, owner) +
        (if Beats(j, owner) && (j.cancelRequestedAt.Some? || j.status == Canceling) then {j.id} else {})
  {
    var told := CancelAsked(jobs, owner);
    forall id | id in CancelAsked(jobs + [j], owner) ensures id in told || id == j.id {
      var k :| k in jobs + [j] && Beats(k, owner) && (k.cancelRequestedAt.Some? || k.status == Canceling) && k.id == id;
      assert k in jobs || k == j;
    }
    forall id | id in told ensures id in CancelAsked(jobs + [j], owner) {
      var k :| k in jobs && Beats(k, owner) && (k.cancelRequestedAt.Some? || k.status == Canceling) && k.id == id;
      assert k in jobs + [j];
    }
    assert j in jobs + [j];
  }

  function AllBeaten(jobs: seq<Job>, owner: string, leaseMs: int, now: int): (r: seq<Job>)
    ensures |r| == |jobs| && forall i | 0 <= i < |r| :: r[i] == Beaten(jobs[i], owner, leaseMs, now)
  {
    seq(|jobs|, i requires 0 <= i < |jobs| => Beaten(jobs[i], owner, leaseMs, now))
  }

  function ChangedAt(jobs: seq<Job>, id: string, changed: Job -> Job): seq<Job> {
    var i := Index(jobs, id);
    if i < |jobs| then jobs[i := changed(jobs[i])] else jobs
  }

  /** The store file under its lock. */
  class Store {
    var jobs: seq<Job>
    var revision: nat

    constructor ()
      ensures jobs == [] && revision == 0
    {
      jobs, revision := [], 0;
    }

    /** A job whose owner is gone has failed. */
    method FailOrphans(now: int, alive: set<nat>)
      modifies this`jobs
      ensures jobs == AllSettled(old(jobs), now, alive)
    {
      ghost var read := jobs;
      for i := 0 to |jobs|
        invariant |jobs| == |read|
        invariant forall k | 0 <= k < i :: jobs[k] == Settled(Normal(read[k]), now, alive)
        invariant forall k | i <= k < |jobs| :: jobs[k] == read[k]
      {
        var job := Normal(jobs[i]);
        if !Terminal(job.status) && OwnerStale(job, now, alive) {
          job := job.(status := Failed, question := None, revision := job.revision + 1, updatedAt := Some(DateOf(now)));
        }
        jobs := jobs[i := job];
      }
    }

    method PruneJobs(now: int, alive: set<nat>, maxJobs: int, maxAgeMs: int)
      modifies this`jobs
      ensures jobs == Pruned(old(jobs), now, alive, maxJobs, maxAgeMs)
    {
      hide Settled, Normal, ByStart, Latest;
      FailOrphans(now, alive);
      var active: seq<Job>, terminal: seq<Job> := [], [];
      var i := |jobs|;
      assert jobs[i..] == [];
      while i > 0
        invariant 0 <= i <= |jobs|
        invariant active == Active(jobs[i..]) && terminal == Finished(jobs[i..], now, maxAgeMs)
      {
        i := i - 1;
        assert jobs[i..][1..] == jobs[i + 1..];
        if !Terminal(jobs[i].status) {
          active := [jobs[i]] + active;
        } else if Fresh(jobs[i], now, maxAgeMs) {
          terminal := [jobs[i]] + terminal;
        }
      }
      assert jobs[0..] == jobs;
      jobs := ByStart(active + Latest(ByStart(terminal), maxJobs - |active|));
    }

    method Find(id: string) returns (i: nat)
      ensures i == Index(jobs, id)
    {
      i := 0;
      while i < |jobs| && jobs[i].id != id
        invariant i <= |jobs|
        invariant forall k | 0 <= k < i :: jobs[k].id != id
      {
        i := i + 1;
      }
      var j := Index(jobs, id);
      assert !(i < j) && !(j < i);
    }

    method UpsertStoredJob(incoming: Snapshot)
      modifies this`jobs
      ensures jobs == Upserted(old(jobs), incoming)
    {
      var i := Find(incoming.id);
      if i == |jobs| {
        jobs := jobs + [NewJob(incoming)];
      } else {
        jobs := jobs[i := Merged(jobs[i], incoming)];
      }
    }

    method RequestCancellation(id: string, now: int)
      modifies this`jobs
      ensures jobs == ChangedAt(old(jobs), id, (j: Job) => CanceledJob(j, now))
    {
      var i := Find(id);
      if i < |jobs| {
        var job := jobs[i];
        if !Terminal(job.status) && !(job.status == Canceling && job.cancelRequestedAt.Some?) {
          jobs := jobs[i := job.(status := Canceling, question := None, revision := job.revision + 1,
                                 cancelRequestedAt :=
                                   if job.cancelRequestedAt.Some? then job.cancelRequestedAt else Some(now),
                                 updatedAt := Some(DateOf(now)))];
        }
      }
    }

    method ClaimStoredJobAnswer(id: string, owner: string, question: string, now: int) returns (claimed: bool)
      modifies this`jobs
      ensures claimed <==>
        Index(old(jobs), id) < |old(jobs)| && MayClaim(old(jobs)[Index(old(jobs), id)], owner, question)
      ensures jobs == if claimed then ChangedAt(old(jobs), id, (j: Job) => ClaimedJob(j, question, now)) else old(jobs)
    {
      var i := Find(id);
      if i == |jobs| {
        return false;
      }
      var job := jobs[i];
      if job.owner.None? || job.owner.value.id != owner {
        return false;
      }
      if job.cancelRequestedAt.Some? || job.status == Canceling {
        return false;
      }
      if Terminal(job.status) || job.status != AwaitingAnswer || job.question != Some(question) {
        return false;
      }
      jobs := jobs[i := job.(status := Running, question := None, lastAnswered := Some(question),
                             revision := job.revision + 1, updatedAt := Some(DateOf(now)))];
      return true;
    }

    method HeartbeatStoredJobs(owner: string, leaseMs: int, now: int) returns (cancelRequested: set<string>)
      modifies this`jobs
      ensures jobs == AllBeaten(old(jobs), owner, leaseMs, now)
      ensures cancelRequested == CancelAsked(old(jobs), owner)
    {
      ghost var before := jobs;
      cancelRequested := {};
      for i := 0 to |jobs|
        invariant |jobs| == |before|
        invariant forall k | 0 <= k < i :: jobs[k] == Beaten(before[k], owner, leaseMs, now)
        invariant forall k | i <= k < |jobs| :: jobs[k] == before[k]
        invariant cancelRequested == CancelAsked(before[..i], owner)
      {
        var job := jobs[i];
        assert before[..i + 1] == before[..i] + [job];
        CancelAskedSnoc(before[..i], job, owner);
        if job.owner.None? || job.owner.value.id != owner || Terminal(job.status) {
          continue;
        }
        jobs := jobs[i := job.(owner := Some(job.owner.value.(leaseExpiresAt := DateOf(now + leaseMs))),
          updatedAt := Some(DateOf(now)))];
        if job.cancelRequestedAt.Some? || job.status == Canceling {
          cancelRequested := cancelRequested + {job.id};
        }
      }
      assert jobs == AllBeaten(before, owner, leaseMs, now) && before[..|before|] == before;
    }
  }
}
