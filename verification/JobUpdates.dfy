/** What every change of the job store is for (`extensions/_shared/job-store.ts`). */
module JobUpdates {
  // Updates are stored, cancellations reach the owner, owners that beat keep their jobs,
  // orphans fail, and pruning keeps the newest: the other half of the fencing.

  import opened JobStore
  import opened JobFencing
  import opened Wrappers

  // ------------------------------------------------------------------------- updates

  /** When a snapshot counts: a newer one, unless it would revive a finished job or take
      back a cancellation; one of the same revision also not from a question to running,
      and never on a finished job. */
  predicate Counts(j: Job, s: Snapshot) {
    var ends := s.status in {Completed, Failed, Canceled};
    if s.revision > j.revision then ends || j.status in {Running, AwaitingAnswer}
    else
      s.revision == j.revision && j.status !in {Completed, Failed, Canceled} &&
      (ends || j.status == Running || (j.status == AwaitingAnswer && s.status != Running))
  }

  /** A given field is stored, one that is left out keeps its value. */
  predicate Stores<T(==)>(before: T, given: Field<T>, after: T) {
    match given
    case Given(value) => after == value
    case Absent => after == before
  }

  /** The record after a snapshot that counts. */
  predicate HoldsUpdate(before: Job, s: Snapshot, after: Job) {
    && after.id == before.id && after.status == s.status && after.revision == s.revision
    && Stores(before.startedAt, s.startedAt, after.startedAt)
    && Stores(before.updatedAt, s.updatedAt, after.updatedAt)
    && Stores(before.owner, s.owner, after.owner)
    && Stores(before.lastAnswered, s.lastAnswered, after.lastAnswered)
    && (if s.status == AwaitingAnswer then Stores(before.question, s.question, after.question)
        else after.question == None)
    && (if s.cancelRequestedAt.Given? && s.cancelRequestedAt.value.Some?
        then after.cancelRequestedAt == s.cancelRequestedAt.value
        else after.cancelRequestedAt == before.cancelRequestedAt)
  }

  lemma MergedStores(j: Job, s: Snapshot)
    ensures if Counts(j, s) then HoldsUpdate(j, s, Merged(j, s)) else Merged(j, s) == j
  {
  }

  /** In the store: an update that counts is stored, field by field, and any other leaves
      the record as it was. */
  lemma UpdateIsStored(jobs: seq<Job>, e: Event)
    requires UniqueIds(jobs) && e.op.Upsert? && Has(Ready(jobs, e), e.op.incoming.id)
    ensures
      var id := e.op.incoming.id;
      && Has(jobs, id) && Has(Mutate(jobs, e), id)
      && var before, after := At(Ready(jobs, e), id), At(Mutate(jobs, e), id);
         if Counts(before, e.op.incoming) then HoldsUpdate(before, e.op.incoming, after) else after == before
  {
    hide UniqueIds, Mutate, Ready, Counts, HoldsUpdate, Merged, Settled, Normal;
    var id := e.op.incoming.id;
    MutateRecord(jobs, e, id);
    ReadyRecord(jobs, e, id);
    SettledId(At(jobs, id), e.now, e.alive);
    MergedStores(At(Ready(jobs, e), id), e.op.incoming);
  }

  /** A newer snapshot of a job that runs or asks is stored, whatever it says. */
  lemma NewerUpdateIsStored(jobs: seq<Job>, e: Event)
    requires UniqueIds(jobs) && e.op.Upsert? && Has(Ready(jobs, e), e.op.incoming.id)
    requires
      var before := At(Ready(jobs, e), e.op.incoming.id);
      before.status in {Running, AwaitingAnswer} && e.op.incoming.revision > before.revision
    ensures
      var id := e.op.incoming.id;
      Has(Mutate(jobs, e), id) && HoldsUpdate(At(Ready(jobs, e), id), e.op.incoming, At(Mutate(jobs, e), id))
  {
    hide UniqueIds, Mutate, Ready, HoldsUpdate;
    UpdateIsStored(jobs, e);
  }

  /** And a newer snapshot of a finished job ends one that is being cancelled. */
  lemma CancelingJobEnds(jobs: seq<Job>, e: Event)
    requires UniqueIds(jobs) && e.op.Upsert? && Has(Ready(jobs, e), e.op.incoming.id)
    requires
      var before := At(Ready(jobs, e), e.op.incoming.id);
      before.status == Canceling && e.op.incoming.revision > before.revision
    requires e.op.incoming.status in {Completed, Failed, Canceled}
    ensures Has(Mutate(jobs, e), e.op.incoming.id)
    ensures At(Mutate(jobs, e), e.op.incoming.id).status == e.op.incoming.status
  {
    hide UniqueIds, Mutate, Ready;
    UpdateIsStored(jobs, e);
  }

  /** A snapshot of a job that is not in the store is added as it is. */
  lemma NewJobIsStored(jobs: seq<Job>, e: Event)
    requires UniqueIds(jobs) && e.op.Upsert? && !Has(Ready(jobs, e), e.op.incoming.id)
    ensures
      var s := e.op.incoming;
      && Has(Mutate(jobs, e), s.id)
      && var j := At(Mutate(jobs, e), s.id);
         && j.status == s.status && j.revision == s.revision
         && Stores(None, s.startedAt, j.startedAt) && Stores(None, s.updatedAt, j.updatedAt)
         && Stores(None, s.owner, j.owner) && Stores(None, s.cancelRequestedAt, j.cancelRequestedAt)
         && Stores(None, s.question, j.question) && Stores(None, s.lastAnswered, j.lastAnswered)
  {
    hide UniqueIds, Pruned;
    PrunedRecord(jobs, e.now, e.alive, e.maxJobs, e.maxAgeMs, e.op.incoming.id);
    ApplyRecord(Ready(jobs, e), e, e.op.incoming.id);
    AddKeeps(Ready(jobs, e), NewJob(e.op.incoming), e.op.incoming.id);
  }

  /** A job is created exactly when fewer than the allowed number are active. */
  lemma CreatedWithinCapacity(jobs: seq<Job>, e: Event)
    requires UniqueIds(jobs) && e.op.Create? && !Has(jobs, e.op.created.id)
    ensures |Active(Ready(jobs, e))| < e.op.maxActive ==>
      Has(Mutate(jobs, e), e.op.created.id) && At(Mutate(jobs, e), e.op.created.id) == NewJob(e.op.created)
    ensures |Active(Ready(jobs, e))| >= e.op.maxActive ==> Mutate(jobs, e) == Ready(jobs, e)
  {
    hide UniqueIds, Pruned;
    PrunedRecord(jobs, e.now, e.alive, e.maxJobs, e.maxAgeMs, e.op.created.id);
    AddKeeps(Ready(jobs, e), NewJob(e.op.created), e.op.created.id);
  }

  // ---------------------------------------------------------- cancelling and answering

  /** A request to cancel an unfinished job is stored: it asks nothing any more, and no
      answer can be claimed. */
  lemma CancelIsStored(jobs: seq<Job>, e: Event)
    requires UniqueIds(jobs) && e.op.Cancel? && Has(Ready(jobs, e), e.op.job)
    requires At(Ready(jobs, e), e.op.job).status in {Running, AwaitingAnswer, Canceling}
    ensures
      var before := At(Ready(jobs, e), e.op.job);
      && Has(Mutate(jobs, e), e.op.job)
      && var j := At(Mutate(jobs, e), e.op.job);
         && j.status == Canceling && j.question == None && j.owner == before.owner && j.startedAt == before.startedAt
         && j.cancelRequestedAt ==
              (if before.cancelRequestedAt.Some? then before.cancelRequestedAt else Some(e.now))
         && (before.status != Canceling ==> j.revision == before.revision + 1)
  {
    hide UniqueIds, Mutate, Ready;
    MutateRecord(jobs, e, e.op.job);
    ReadyRecord(jobs, e, e.op.job);
    SettledId(At(jobs, e.op.job), e.now, e.alive);
    SettledQuestion(At(jobs, e.op.job), e.now, e.alive, "", 0);
  }

  /** From then on the owner is told at every heartbeat, until the job has ended, and no
      answer can be claimed. */
  lemma CancelReachesTheOwner(jobs: seq<Job>, events: seq<Event>, from: nat, id: string, owner: string)
    requires UniqueIds(jobs) && FreshIds(jobs, events) && from <= |events|
    requires Retained(jobs, events, from, id) && Has(Run(jobs, events[..from]), id)
    requires At(Run(jobs, events[..from]), id).cancelRequestedAt.Some?
    ensures Has(Run(jobs, events), id)
    ensures
      var j := At(Run(jobs, events), id);
      && (j.status !in {Completed, Failed, Canceled} && j.owner.Some? && j.owner.value.id == owner ==>
            id in CancelAsked(Run(jobs, events), owner))
      && forall asker: string, question: string :: !MayClaim(j, asker, question)
  {
    hide UniqueIds, Run, Retained, FreshIds;
    RecordsOnlyMoveForward(jobs, events, from, id);
    assert At(Run(jobs, events), id) in Run(jobs, events);
  }

  /** A claimed answer lets the job run again, and is remembered. */
  lemma ClaimIsStored(jobs: seq<Job>, e: Event, id: string, question: string)
    requires UniqueIds(jobs) && Claims(jobs, e, id, question)
    ensures Has(jobs, id) && Has(Mutate(jobs, e), id)
    ensures
      var before, j := At(Ready(jobs, e), id), At(Mutate(jobs, e), id);
      && j == Job(id, Running, before.revision + 1, before.startedAt, Some(DateOf(e.now)), before.owner, None, None,
                  Some(question))
      && before.status == AwaitingAnswer && before.question == Some(question)
  {
    hide UniqueIds, Mutate, Ready;
    MutateRecord(jobs, e, id);
    ReadyRecord(jobs, e, id);
    SettledId(At(jobs, id), e.now, e.alive);
  }

  // ------------------------------------------------------------------ owners and orphans

  /** Whose owner is gone, in the fields of the record. */
  predicate Orphan(j: Job, now: int, alive: set<nat>) {
    j.status in {Running, AwaitingAnswer, Canceling} &&
    match j.owner
    case Some(o) => o.pid !in alive || o.leaseExpiresAt.time.None? || o.leaseExpiresAt.time.value <= now
    case None =>
      match (j.updatedAt, j.startedAt)
      case (Some(d), _) => d.time.None? || now > d.time.value + 60000
      case (None, Some(d)) => d.time.None? || now > d.time.value + 60000
      case (None, None) => true
  }

  /** Every change first fails the orphans, and those jobs only. */
  lemma OrphansFail(jobs: seq<Job>, e: Event, id: string)
    requires UniqueIds(jobs) && Has(Ready(jobs, e), id)
    ensures Has(jobs, id)
    ensures
      var j, found := At(jobs, id), At(Ready(jobs, e), id);
      if Orphan(j, e.now, e.alive)
      then found == j.(status := Failed, question := None, revision := j.revision + 1, updatedAt := Some(DateOf(e.now)))
      else found == if j.status == AwaitingAnswer then j else j.(question := None)
  {
    hide UniqueIds, Ready;
    ReadyRecord(jobs, e, id);
  }

  /** A job with a live owner is untouched by every change within the lease of its last
      heartbeat, but for what the change itself does to it. */
  lemma HeartbeatKeepsTheJob(jobs: seq<Job>, beat: Event, next: Event, id: string)
    requires UniqueIds(jobs) && beat.op.Heartbeat? && Has(Ready(jobs, beat), id)
    requires
      var j := At(Ready(jobs, beat), id);
      j.status in {Running, AwaitingAnswer, Canceling} && j.owner.Some? && j.owner.value.id == beat.op.beater &&
      j.owner.value.pid in next.alive
    requires next.now < beat.now + beat.op.leaseMs
    requires next.op.Create? ==> !Has(Mutate(jobs, beat), next.op.created.id)
    ensures
      var beaten := Mutate(jobs, beat);
      && UniqueIds(beaten) && Has(beaten, id) && Has(Mutate(beaten, next), id)
      && At(beaten, id).status == At(Ready(jobs, beat), id).status
      && At(beaten, id).revision == At(Ready(jobs, beat), id).revision
      && At(Mutate(beaten, next), id) == Changed(At(beaten, id), next)
  {
    hide UniqueIds, Mutate, Ready, Changed;
    MutateRecord(jobs, beat, id);
    ReadyRecord(jobs, beat, id);
    BeatenIs(At(Ready(jobs, beat), id), beat);
    SettledQuestion(At(jobs, id), beat.now, beat.alive, "", 0);
    LiveJobsAreRetained(Mutate(jobs, beat), next, id);
  }

  lemma BeatenIs(j: Job, beat: Event)
    requires beat.op.Heartbeat?
    ensures Changed(j, beat) == Beaten(j, beat.op.beater, beat.op.leaseMs, beat.now)
  {
  }

  // ------------------------------------------------------------------------- pruning

  /** The order of the stored texts, with a missing start first. */
  predicate NoLater(a: Option<Date>, b: Option<Date>) {
    match (a, b)
    case (None, _) => true
    case (Some(_), None) => false
    case (Some(x), Some(y)) => x.rank <= y.rank
  }

  predicate InOrder(jobs: seq<Job>) {
    forall i, j | 0 <= i < j < |jobs| :: NoLater(jobs[i].startedAt, jobs[j].startedAt)
  }

  lemma {:induction false} InsertInOrder(j: Job, sorted: seq<Job>)
    requires InOrder(sorted)
    ensures InOrder(InsertByStart(j, sorted))
  {
    if sorted != [] && !StartsNoLater(j, sorted[0]) {
      var rest := InsertByStart(j, sorted[1..]);
      InsertInOrder(j, sorted[1..]);
      InsertKeeps(j, sorted[1..]);
      forall k | 0 <= k < |rest|
        ensures NoLater(sorted[0].startedAt, rest[k].startedAt)
      {
        assert rest[k] in multiset(rest);
        if rest[k] != j {
          assert rest[k] in sorted[1..];
        }
      }
    }
  }

  lemma {:induction false} ByStartInOrder(jobs: seq<Job>)
    ensures InOrder(ByStart(jobs))
  {
    if jobs != [] {
      ByStartInOrder(jobs[1..]);
      InsertInOrder(jobs[0], ByStart(jobs[1..]));
    }
  }

  /** The jobs with this start, in order. */
  function StartedAt(jobs: seq<Job>, start: Option<Date>): seq<Job> {
    if jobs == [] then []
    else (if jobs[0].startedAt == start then [jobs[0]] else []) + StartedAt(jobs[1..], start)
  }

  lemma {:induction false} InsertIsStable(j: Job, sorted: seq<Job>, start: Option<Date>)
    ensures StartedAt(InsertByStart(j, sorted), start) ==
      (if j.startedAt == start then [j] else []) + StartedAt(sorted, start)
  {
    if sorted == [] || StartsNoLater(j, sorted[0]) {
      assert ([j] + sorted)[1..] == sorted;
    } else {
      InsertIsStable(j, sorted[1..], start);
      var rest := InsertByStart(j, sorted[1..]);
      assert ([sorted[0]] + rest)[1..] == rest;
    }
  }

  /** Jobs that started together stay in their order. */
  lemma {:induction false} ByStartIsStable(jobs: seq<Job>, start: Option<Date>)
    ensures StartedAt(ByStart(jobs), start) == StartedAt(jobs, start)
  {
    if jobs != [] {
      ByStartIsStable(jobs[1..], start);
      InsertIsStable(jobs[0], ByStart(jobs[1..]), start);
    }
  }

  /** Old enough to be forgotten once it has ended. */
  predicate TooOld(j: Job, now: int, maxAgeMs: int) {
    match (j.updatedAt, j.startedAt)
    case (Some(d), _) => d.time.Some? && now > d.time.value + maxAgeMs
    case (None, Some(d)) => d.time.Some? && now > d.time.value + maxAgeMs
    case (None, None) => false
  }

  lemma {:induction false} FinishedExactly(jobs: seq<Job>, now: int, maxAgeMs: int, j: Job)
    ensures j in Finished(jobs, now, maxAgeMs) <==>
      j in jobs && j.status in {Completed, Failed, Canceled} && !TooOld(j, now, maxAgeMs)
  {
    if jobs != [] {
      FinishedExactly(jobs[1..], now, maxAgeMs, j);
      assert jobs == [jobs[0]] + jobs[1..];
    }
  }

  function Least(a: int, b: int): int {
    if a <= b then a else b
  }

  /** Pruning keeps all unfinished jobs and, of the finished ones that are not too old, as
      many as there is room for: the latest ones. The result is in the order of the starts. */
  lemma PruningKeepsTheLatest(jobs: seq<Job>, now: int, alive: set<nat>, maxJobs: int, maxAgeMs: int)
    returns (kept: seq<Job>, dropped: seq<Job>)
    ensures
      var settled, pruned := AllSettled(jobs, now, alive), Pruned(jobs, now, alive, maxJobs, maxAgeMs);
      var active, ended := Active(settled), Finished(settled, now, maxAgeMs);
      && InOrder(pruned) && multiset(pruned) == multiset(active + kept)
      && multiset(ended) == multiset(dropped + kept)
      && |kept| == Least(if maxJobs > |active| then maxJobs - |active| else 0, |ended|)
    ensures forall i, k | 0 <= i < |dropped| && 0 <= k < |kept| :: NoLater(dropped[i].startedAt, kept[k].startedAt)
  {
    hide ByStart, Settled, Normal, Active, Finished, Latest, InOrder, NoLater;
    var settled := AllSettled(jobs, now, alive);
    var active, ended := Active(settled), Finished(settled, now, maxAgeMs);
    ByStartKeeps(ended);
    ByStartInOrder(ended);
    kept, dropped := CutOff(ByStart(ended), maxJobs - |active|);
    assert |ByStart(ended)| == |multiset(ByStart(ended))| == |multiset(ended)| == |ended|;
    ByStartKeeps(active + kept);
    ByStartInOrder(active + kept);
  }

  /** The last so many of an ordered list, and the others. */
  lemma CutOff(sorted: seq<Job>, n: int) returns (kept: seq<Job>, dropped: seq<Job>)
    requires InOrder(sorted)
    ensures kept == Latest(sorted, n) && sorted == dropped + kept
    ensures |kept| == Least(if n > 0 then n else 0, |sorted|)
    ensures forall i, k | 0 <= i < |dropped| && 0 <= k < |kept| :: NoLater(dropped[i].startedAt, kept[k].startedAt)
  {
    kept := Latest(sorted, n);
    dropped := sorted[..|sorted| - |kept|];
    assert sorted == dropped + kept;
    forall i, k | 0 <= i < |dropped| && 0 <= k < |kept|
      ensures NoLater(dropped[i].startedAt, kept[k].startedAt)
    {
      assert sorted[i] == dropped[i] && sorted[|dropped| + k] == kept[k];
    }
  }
}
