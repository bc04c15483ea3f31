/** What no mix of stale snapshots, claims, cancellations, heartbeats and pruning can do to a job. */
module JobFencing {
  import opened JobStore
  import opened Wrappers

  function Ids(jobs: seq<Job>): set<string> {
    set i | 0 <= i < |jobs| :: jobs[i].id
  }

  predicate UniqueIds(jobs: seq<Job>) {
    forall i, j | 0 <= i < j < |jobs| :: jobs[i].id != jobs[j].id
  }

  predicate Has(jobs: seq<Job>, id: string) {
    Index(jobs, id) < |jobs|
  }

  /** The record of a job. */
  function At(jobs: seq<Job>, id: string): (j: Job)
    requires Has(jobs, id)
    ensures j.id == id && j in jobs
  {
    jobs[Index(jobs, id)]
  }

  lemma TheOne(jobs: seq<Job>, j: Job)
    requires UniqueIds(jobs) && j in jobs
    ensures Has(jobs, j.id) && At(jobs, j.id) == j
  {
    var i :| 0 <= i < |jobs| && jobs[i] == j;
    var k := Index(jobs, j.id);
    assert !(i < k) && !(k < i);
  }

  // ----------------------------------------------------------------------- lineage

  /** What a record may become. */
  predicate Lineage(before: Job, after: Job) {
    && after.id == before.id && before.revision <= after.revision
    && (Terminal(before.status) ==> Terminal(after.status))
    && (before.cancelRequestedAt.Some? ==> after.cancelRequestedAt.Some?)
    && (before.status == Canceling ==> after.status == Canceling || Terminal(after.status))
  }

  lemma LineageTransitive(a: Job, b: Job, c: Job)
    requires Lineage(a, b) && Lineage(b, c)
    ensures Lineage(a, c)
  {
  }

  lemma SettledLineage(j: Job, now: int, alive: set<nat>)
    ensures Lineage(j, Settled(Normal(j), now, alive))
  {
  }

  /** However old the snapshot. */
  lemma MergedLineage(j: Job, incoming: Snapshot)
    requires incoming.id == j.id
    ensures Lineage(j, Merged(j, incoming))
  {
  }

  // -------------------------------------------------------------------- pruning

  lemma UniqueCons(j: Job, rest: seq<Job>)
    ensures UniqueIds([j] + rest) <==> UniqueIds(rest) && j.id !in Ids(rest)
    ensures Ids([j] + rest) == {j.id} + Ids(rest)
  {
    var all := [j] + rest;
    assert forall i | 0 <= i < |rest| :: all[i + 1] == rest[i];
    forall id | id in Ids(rest)
      ensures id in Ids(all)
    {
      var i :| 0 <= i < |rest| && rest[i].id == id;
      assert all[i + 1].id == id;
    }
    assert all[0].id == j.id;
  }

  lemma {:induction false} InsertKeeps(j: Job, sorted: seq<Job>)
    ensures multiset(InsertByStart(j, sorted)) == multiset(sorted) + multiset{j}
    ensures Ids(InsertByStart(j, sorted)) == {j.id} + Ids(sorted)
    ensures UniqueIds(sorted) && j.id !in Ids(sorted) ==> UniqueIds(InsertByStart(j, sorted))
  {
    hide Ids, UniqueIds;
    UniqueCons(j, sorted);
    if sorted != [] {
      UniqueCons(sorted[0], sorted[1..]);
      assert [sorted[0]] + sorted[1..] == sorted;
      InsertKeeps(j, sorted[1..]);
      UniqueCons(sorted[0], InsertByStart(j, sorted[1..]));
    }
  }

  lemma {:induction false} ByStartKeeps(jobs: seq<Job>)
    ensures multiset(ByStart(jobs)) == multiset(jobs) && Ids(ByStart(jobs)) == Ids(jobs)
    ensures UniqueIds(jobs) ==> UniqueIds(ByStart(jobs))
  {
    hide Ids, UniqueIds, InsertByStart;
    if jobs != [] {
      UniqueCons(jobs[0], jobs[1..]);
      assert [jobs[0]] + jobs[1..] == jobs;
      ByStartKeeps(jobs[1..]);
      InsertKeeps(jobs[0], ByStart(jobs[1..]));
    }
  }

  lemma {:induction false} FiltersKeep(jobs: seq<Job>, now: int, maxAgeMs: int)
    ensures Ids(Active(jobs)) <= Ids(jobs) && Ids(Finished(jobs, now, maxAgeMs)) <= Ids(jobs)
    ensures UniqueIds(jobs) ==>
      UniqueIds(Active(jobs)) && UniqueIds(Finished(jobs, now, maxAgeMs)) &&
        Ids(Active(jobs)) !! Ids(Finished(jobs, now, maxAgeMs))
  {
    hide Ids, UniqueIds;
    if jobs == [] {
      NoJobs(jobs);
    } else {
      var first, rest := jobs[0], jobs[1..];
      assert [first] + rest == jobs;
      UniqueCons(first, rest);
      UniqueCons(first, Active(rest));
      UniqueCons(first, Finished(rest, now, maxAgeMs));
      assert [] + Active(rest) == Active(rest) && [] + Finished(rest, now, maxAgeMs) == Finished(rest, now, maxAgeMs);
      FiltersKeep(rest, now, maxAgeMs);
    }
  }

  lemma NoJobs(jobs: seq<Job>)
    requires jobs == []
    ensures Ids(jobs) == {} && UniqueIds(jobs)
  {
  }

  lemma {:induction false} FilterMembers(jobs: seq<Job>, now: int, maxAgeMs: int, j: Job)
    ensures j in Active(jobs) <==> j in jobs && !Terminal(j.status)
    ensures j in Finished(jobs, now, maxAgeMs) ==> j in jobs && Terminal(j.status)
  {
    if jobs != [] {
      FilterMembers(jobs[1..], now, maxAgeMs, j);
      assert jobs == [jobs[0]] + jobs[1..];
    }
  }

  lemma LatestKeeps(jobs: seq<Job>, n: int)
    ensures Ids(Latest(jobs, n)) <= Ids(jobs) && (UniqueIds(jobs) ==> UniqueIds(Latest(jobs, n)))
    ensures forall j | j in Latest(jobs, n) :: j in jobs
  {
  }

  lemma UniqueConcat(a: seq<Job>, b: seq<Job>)
    requires UniqueIds(a) && UniqueIds(b) && Ids(a) !! Ids(b)
    ensures UniqueIds(a + b)
  {
    var all := a + b;
    forall i, j | 0 <= i < j < |all|
      ensures all[i].id != all[j].id
    {
      if i < |a| <= j {
        assert a[i].id in Ids(a) && b[j - |a|].id in Ids(b);
      }
    }
  }

  lemma SettledUnique(jobs: seq<Job>, now: int, alive: set<nat>)
    ensures UniqueIds(jobs) ==> UniqueIds(AllSettled(jobs, now, alive))
  {
    assert forall i | 0 <= i < |jobs| :: AllSettled(jobs, now, alive)[i].id == jobs[i].id;
  }

  /** Pruning only settles records and drops terminal ones. */
  lemma PrunedKeeps(jobs: seq<Job>, now: int, alive: set<nat>, maxJobs: int, maxAgeMs: int)
    requires UniqueIds(jobs)
    ensures UniqueIds(Pruned(jobs, now, alive, maxJobs, maxAgeMs))
    ensures forall j | j in Pruned(jobs, now, alive, maxJobs, maxAgeMs) :: j in AllSettled(jobs, now, alive)
    ensures forall j | j in AllSettled(jobs, now, alive) && !Terminal(j.status) ::
      j in Pruned(jobs, now, alive, maxJobs, maxAgeMs)
  {
    hide Ids, UniqueIds, ByStart, Latest, Active, Finished, Settled;
    var settled := AllSettled(jobs, now, alive);
    var active, finished := Active(settled), Finished(settled, now, maxAgeMs);
    var sorted := ByStart(finished);
    var latest := Latest(sorted, maxJobs - |active|);
    SettledUnique(jobs, now, alive);
    FiltersKeep(settled, now, maxAgeMs);
    ByStartKeeps(finished);
    LatestKeeps(sorted, maxJobs - |active|);
    UniqueConcat(active, latest);
    ByStartKeeps(active + latest);
    var pruned := Pruned(jobs, now, alive, maxJobs, maxAgeMs);
    forall j | j in pruned
      ensures j in settled
    {
      assert j in multiset(pruned);
      assert j in active + latest;
      FilterMembers(settled, now, maxAgeMs, j);
      if j in latest {
        assert j in multiset(sorted);
        assert j in finished;
      }
    }
    forall j | j in settled && !Terminal(j.status)
      ensures j in pruned
    {
      FilterMembers(settled, now, maxAgeMs, j);
      assert j in multiset(active + latest);
      assert j in multiset(pruned);
    }
  }

  lemma PrunedRecord(jobs: seq<Job>, now: int, alive: set<nat>, maxJobs: int, maxAgeMs: int, id: string)
    requires UniqueIds(jobs)
    ensures
      var pruned := Pruned(jobs, now, alive, maxJobs, maxAgeMs);
      && UniqueIds(pruned)
      && (Has(pruned, id) ==> Has(jobs, id) && At(pruned, id) == Settled(Normal(At(jobs, id)), now, alive))
      && (Has(jobs, id) && !Terminal(Settled(Normal(At(jobs, id)), now, alive).status) ==> Has(pruned, id))
  {
    hide UniqueIds, Pruned, Settled, Normal;
    PrunedKeeps(jobs, now, alive, maxJobs, maxAgeMs);
    var pruned, settled := Pruned(jobs, now, alive, maxJobs, maxAgeMs), AllSettled(jobs, now, alive);
    if Has(pruned, id) {
      var j := At(pruned, id);
      assert j in settled;
      var i :| 0 <= i < |settled| && settled[i] == j;
      SettledId(jobs[i], now, alive);
      TheOne(jobs, jobs[i]);
    }
    if Has(jobs, id) {
      var i := Index(jobs, id);
      SettledId(jobs[i], now, alive);
      assert settled[i] in settled;
      if settled[i] in pruned {
        TheOne(pruned, settled[i]);
      }
    }
  }

  lemma SettledId(j: Job, now: int, alive: set<nat>)
    ensures Settled(Normal(j), now, alive).id == j.id
  {
  }

  // ----------------------------------------------------------------------- mutations

  datatype Op =
    | Upsert(incoming: Snapshot)
    | Create(created: Snapshot, maxActive: nat)
    | Cancel(job: string)
    | Claim(claimed: string, owner: string, question: string)
    | Heartbeat(beater: string, leaseMs: int)

  /** One mutation of the store, which prunes first. */
  datatype Event = Event(op: Op, now: int, alive: set<nat>, maxJobs: int, maxAgeMs: int)

  function Ready(jobs: seq<Job>, e: Event): seq<Job> {
    Pruned(jobs, e.now, e.alive, e.maxJobs, e.maxAgeMs)
  }

  predicate Claims(jobs: seq<Job>, e: Event, id: string, question: string) {
    e.op.Claim? && e.op.claimed == id && e.op.question == question &&
    Has(Ready(jobs, e), id) && MayClaim(At(Ready(jobs, e), id), e.op.owner, question)
  }

  function Apply(jobs: seq<Job>, e: Event): seq<Job> {
    match e.op
    case Upsert(incoming) => Upserted(jobs, incoming)
    case Create(created, maxActive) => if |Active(jobs)| >= maxActive then jobs else jobs + [NewJob(created)]
    case Cancel(id) => ChangedAt(jobs, id, (j: Job) => CanceledJob(j, e.now))
    case Claim(id, owner, question) =>
      if Has(jobs, id) && MayClaim(At(jobs, id), owner, question)
      then ChangedAt(jobs, id, (j: Job) => ClaimedJob(j, question, e.now)) else jobs
    case Heartbeat(owner, leaseMs) => AllBeaten(jobs, owner, leaseMs, e.now)
  }

  function Mutate(jobs: seq<Job>, e: Event): seq<Job> {
    Apply(Ready(jobs, e), e)
  }

  function Run(jobs: seq<Job>, events: seq<Event>): seq<Job> {
    if events == [] then jobs else Mutate(Run(jobs, events[..|events| - 1]), events[|events| - 1])
  }

  /** Job ids are random, so a created job is a new one. */
  predicate FreshIds(jobs: seq<Job>, events: seq<Event>) {
    forall i | 0 <= i < |events| && events[i].op.Create? :: !Has(Run(jobs, events[..i]), events[i].op.created.id)
  }

  lemma ReplaceKeeps(jobs: seq<Job>, i: nat, j: Job, id: string)
    requires UniqueIds(jobs) && i < |jobs| && j.id == jobs[i].id
    ensures UniqueIds(jobs[i := j])
    ensures Has(jobs[i := j], id) <==> Has(jobs, id)
    ensures Has(jobs, id) ==> At(jobs[i := j], id) == if id == j.id then j else At(jobs, id)
  {
    var changed := jobs[i := j];
    assert forall k | 0 <= k < |jobs| :: changed[k].id == jobs[k].id;
    SameIndex(jobs, changed, id);
    if Has(jobs, id) && id == j.id {
      TheOne(changed, j);
    }
  }

  lemma SameIndex(a: seq<Job>, b: seq<Job>, id: string)
    requires |a| == |b| && forall k | 0 <= k < |a| :: a[k].id == b[k].id
    ensures Index(a, id) == Index(b, id)
  {
    var i, j := Index(a, id), Index(b, id);
    assert !(i < j) && !(j < i);
  }

  lemma AddKeeps(jobs: seq<Job>, j: Job, id: string)
    requires UniqueIds(jobs) && !Has(jobs, j.id)
    ensures UniqueIds(jobs + [j])
    ensures Has(jobs + [j], id) <==> Has(jobs, id) || id == j.id
    ensures Has(jobs + [j], id) ==> At(jobs + [j], id) == if id == j.id then j else At(jobs, id)
  {
    var all := jobs + [j];
    assert forall k | 0 <= k < |jobs| :: jobs[k].id != j.id;
    assert all[|jobs|] == j;
    if Has(jobs, id) {
      TheOne(all, all[Index(jobs, id)]);
    } else if id == j.id {
      TheOne(all, j);
    } else {
      assert forall k | 0 <= k < |all| :: all[k].id != id;
    }
  }

  /** The record that a mutation leaves, given the one it found. */
  function Changed(j: Job, e: Event): Job {
    match e.op
    case Upsert(incoming) => if incoming.id == j.id then Merged(j, incoming) else j
    case Create(_, _) => j
    case Cancel(id) => if id == j.id then CanceledJob(j, e.now) else j
    case Claim(id, owner, question) =>
      if id == j.id && MayClaim(j, owner, question) then ClaimedJob(j, question, e.now) else j
    case Heartbeat(owner, leaseMs) => Beaten(j, owner, leaseMs, e.now)
  }

  lemma ApplyRecord(jobs: seq<Job>, e: Event, id: string)
    requires UniqueIds(jobs) && (e.op.Create? ==> !Has(jobs, e.op.created.id))
    ensures UniqueIds(Apply(jobs, e))
    ensures Has(jobs, id) ==> Has(Apply(jobs, e), id) && At(Apply(jobs, e), id) == Changed(At(jobs, id), e)
    ensures !Has(jobs, id) && Has(Apply(jobs, e), id) ==>
      (e.op.Upsert? && e.op.incoming.id == id && At(Apply(jobs, e), id) == NewJob(e.op.incoming)) ||
      (e.op.Create? && e.op.created.id == id && At(Apply(jobs, e), id) == NewJob(e.op.created))
  {
    hide UniqueIds, Merged, MayClaim, Active;
    match e.op
    case Upsert(incoming) =>
      var i := Index(jobs, incoming.id);
      if i < |jobs| {
        MergedLineage(jobs[i], incoming);
        ReplaceKeeps(jobs, i, Merged(jobs[i], incoming), id);
      } else {
        AddKeeps(jobs, NewJob(incoming), id);
      }
    case Create(created, maxActive) =>
      AddKeeps(jobs, NewJob(created), id);
    case Cancel(job) =>
      var i := Index(jobs, job);
      if i < |jobs| {
        ReplaceKeeps(jobs, i, CanceledJob(jobs[i], e.now), id);
      }
    case Claim(job, owner, question) =>
      var i := Index(jobs, job);
      if i < |jobs| {
        ReplaceKeeps(jobs, i, ClaimedJob(jobs[i], question, e.now), id);
      }
    case Heartbeat(owner, leaseMs) =>
      BeatenKeeps(jobs, owner, leaseMs, e.now, id);
  }

  lemma BeatenKeeps(jobs: seq<Job>, owner: string, leaseMs: int, now: int, id: string)
    requires UniqueIds(jobs)
    ensures
      var beaten := AllBeaten(jobs, owner, leaseMs, now);
      && UniqueIds(beaten) && (Has(beaten, id) <==> Has(jobs, id))
      && (Has(jobs, id) ==> At(beaten, id) == Beaten(At(jobs, id), owner, leaseMs, now))
  {
    var beaten := AllBeaten(jobs, owner, leaseMs, now);
    assert forall k | 0 <= k < |jobs| :: beaten[k].id == jobs[k].id;
    SameIndex(jobs, beaten, id);
  }

  lemma ChangedLineage(j: Job, e: Event)
    ensures Lineage(j, Changed(j, e))
  {
    if e.op.Upsert? && e.op.incoming.id == j.id {
      MergedLineage(j, e.op.incoming);
    }
  }

  /** The record after a mutation, in terms of the one before. */
  function Next(j: Job, e: Event): Job {
    Changed(Settled(Normal(j), e.now, e.alive), e)
  }

  lemma MutateRecord(jobs: seq<Job>, e: Event, id: string)
    requires UniqueIds(jobs) && (e.op.Create? ==> !Has(jobs, e.op.created.id))
    ensures UniqueIds(Mutate(jobs, e))
    ensures Has(jobs, id) && Has(Mutate(jobs, e), id) ==>
      At(Mutate(jobs, e), id) == Next(At(jobs, id), e) || !Has(Ready(jobs, e), id)
    ensures Has(jobs, id) && !Terminal(Settled(Normal(At(jobs, id)), e.now, e.alive).status) ==> Has(Ready(jobs, e), id)
    ensures Has(Ready(jobs, e), id) ==>
      Has(jobs, id) && Has(Mutate(jobs, e), id) && At(Mutate(jobs, e), id) == Next(At(jobs, id), e)
  {
    hide UniqueIds, Changed, Apply, Pruned, Settled, Normal;
    PrunedRecord(jobs, e.now, e.alive, e.maxJobs, e.maxAgeMs, id);
    if e.op.Create? {
      PrunedRecord(jobs, e.now, e.alive, e.maxJobs, e.maxAgeMs, e.op.created.id);
    }
    ApplyRecord(Ready(jobs, e), e, id);
  }

  // -------------------------------------------------------------------- main results

  lemma {:induction false} RunUnique(jobs: seq<Job>, events: seq<Event>)
    requires UniqueIds(jobs) && FreshIds(jobs, events)
    ensures UniqueIds(Run(jobs, events))
  {
    hide UniqueIds, Mutate;
    if events != [] {
      FreshFront(jobs, events);
      RunUnique(jobs, events[..|events| - 1]);
      MutateRecord(Run(jobs, events[..|events| - 1]), events[|events| - 1], "");
    }
  }

  lemma FreshFront(jobs: seq<Job>, events: seq<Event>)
    requires events != [] && FreshIds(jobs, events)
    ensures FreshIds(jobs, events[..|events| - 1])
    ensures
      var last := events[|events| - 1];
      last.op.Create? ==> !Has(Run(jobs, events[..|events| - 1]), last.op.created.id)
  {
    hide Has, Run;
    var front := events[..|events| - 1];
    assert forall i | 0 <= i < |front| :: front[i] == events[i] && front[..i] == events[..i];
  }

  /** The record survives the pruning of every mutation from the given one on. */
  predicate Retained(jobs: seq<Job>, events: seq<Event>, from: nat, id: string)
    requires from <= |events|
  {
    forall k | from <= k < |events| :: Has(Ready(Run(jobs, events[..k]), events[k]), id)
  }

  lemma RetainedFront(jobs: seq<Job>, events: seq<Event>, from: nat, id: string)
    requires from < |events| && Retained(jobs, events, from, id)
    ensures Retained(jobs, events[..|events| - 1], from, id)
    ensures Has(Ready(Run(jobs, events[..|events| - 1]), events[|events| - 1]), id)
  {
    hide Has, Run, Ready;
    var front := events[..|events| - 1];
    assert forall i | 0 <= i < |front| :: front[i] == events[i] && front[..i] == events[..i];
  }

  /** Fencing: while a record is retained, its revision never falls, terminal stays
      terminal, and a request to cancel is never lost. */
  lemma {:induction false} RecordsOnlyMoveForward(jobs: seq<Job>, events: seq<Event>, from: nat, id: string)
    requires UniqueIds(jobs) && FreshIds(jobs, events) && from <= |events|
    requires Retained(jobs, events, from, id) && Has(Run(jobs, events[..from]), id)
    ensures Has(Run(jobs, events), id) && Lineage(At(Run(jobs, events[..from]), id), At(Run(jobs, events), id))
    decreases |events|
  {
    hide UniqueIds, Mutate, Ready, Next, Lineage;
    if from == |events| {
      assert events[..from] == events;
      SelfLineage(At(Run(jobs, events), id));
    } else {
      var n := |events| - 1;
      var front, e := events[..n], events[n];
      FreshFront(jobs, events);
      RetainedFront(jobs, events, from, id);
      assert front[..from] == events[..from];
      RecordsOnlyMoveForward(jobs, front, from, id);
      RunUnique(jobs, front);
      MutateRecord(Run(jobs, front), e, id);
      NextLineage(At(Run(jobs, front), id), e);
      LineageTransitive(At(Run(jobs, events[..from]), id), At(Run(jobs, front), id), At(Run(jobs, events), id));
    }
  }

  lemma SelfLineage(j: Job)
    ensures Lineage(j, j)
  {
  }

  lemma NextLineage(j: Job, e: Event)
    ensures Lineage(j, Next(j, e))
  {
    hide Changed, Settled, Normal, Lineage;
    var settled := Settled(Normal(j), e.now, e.alive);
    SettledLineage(j, e.now, e.alive);
    ChangedLineage(settled, e);
    LineageTransitive(j, settled, Next(j, e));
  }

  /** Only terminal records are ever dropped: a running job whose owner is alive stays. */
  lemma LiveJobsAreRetained(jobs: seq<Job>, e: Event, id: string)
    requires UniqueIds(jobs) && Has(jobs, id) && (e.op.Create? ==> !Has(jobs, e.op.created.id))
    requires !Terminal(At(jobs, id).status) && !OwnerStale(Normal(At(jobs, id)), e.now, e.alive)
    ensures Has(Mutate(jobs, e), id) && At(Mutate(jobs, e), id) == Changed(Normal(At(jobs, id)), e)
  {
    hide UniqueIds, Changed, Mutate, Ready;
    MutateRecord(jobs, e, id);
  }

  // ------------------------------------------------------------- a question's answer

  predicate Asks(j: Job, question: string) {
    j.status == AwaitingAnswer && j.question == Some(question)
  }

  /** Everybody who posts the question for this job posts it at this revision. */
  predicate PostedAt(s: Snapshot, id: string, question: string, revision: nat) {
    s.id == id && s.question == Given(Some(question)) ==> s.revision == revision
  }

  predicate AllPostedAt(events: seq<Event>, id: string, question: string, revision: nat) {
    forall i | 0 <= i < |events| ::
      (events[i].op.Upsert? ==> PostedAt(events[i].op.incoming, id, question, revision)) &&
      (events[i].op.Create? ==> PostedAt(events[i].op.created, id, question, revision))
  }

  /** The question is not open below its revision. */
  predicate NotEarly(j: Job, question: string, revision: nat) {
    Asks(j, question) ==> j.revision >= revision
  }

  /** The question is closed for good. */
  predicate Spent(j: Job, question: string, revision: nat) {
    !Asks(j, question) && j.revision > revision
  }

  lemma SettledQuestion(j: Job, now: int, alive: set<nat>, question: string, revision: nat)
    ensures
      var s := Settled(Normal(j), now, alive);
      && (s.question.Some? ==> s.status == AwaitingAnswer)
      && (NotEarly(j, question, revision) ==> NotEarly(s, question, revision))
      && (Spent(j, question, revision) ==> Spent(s, question, revision))
  {
  }

  lemma ChangedQuestion(j: Job, e: Event, question: string, revision: nat)
    requires j.question.Some? ==> j.status == AwaitingAnswer
    requires e.op.Upsert? ==> PostedAt(e.op.incoming, j.id, question, revision)
    ensures NotEarly(j, question, revision) ==> NotEarly(Changed(j, e), question, revision)
    ensures Spent(j, question, revision) ==> Spent(Changed(j, e), question, revision)
  {
  }

  lemma NextQuestion(j: Job, e: Event, question: string, revision: nat)
    requires e.op.Upsert? ==> PostedAt(e.op.incoming, j.id, question, revision)
    ensures NotEarly(j, question, revision) ==> NotEarly(Next(j, e), question, revision)
    ensures Spent(j, question, revision) ==> Spent(Next(j, e), question, revision)
  {
    hide Changed, Settled, Normal, NotEarly, Spent, PostedAt;
    SettledId(j, e.now, e.alive);
    SettledQuestion(j, e.now, e.alive, question, revision);
    ChangedQuestion(Settled(Normal(j), e.now, e.alive), e, question, revision);
  }

  /** Claiming spends the question. */
  lemma ClaimSpends(jobs: seq<Job>, e: Event, id: string, question: string, revision: nat)
    requires UniqueIds(jobs) && Claims(jobs, e, id, question) && Has(jobs, id) &&
      NotEarly(At(jobs, id), question, revision)
    ensures Has(Mutate(jobs, e), id) && Spent(At(Mutate(jobs, e), id), question, revision)
    ensures Asks(At(jobs, id), question)
  {
    hide UniqueIds, Mutate, Ready;
    var ready := Ready(jobs, e);
    MutateRecord(jobs, e, id);
    ReadyRecord(jobs, e, id);
    SettledQuestion(At(jobs, id), e.now, e.alive, question, revision);
  }

  lemma ReadyRecord(jobs: seq<Job>, e: Event, id: string)
    requires UniqueIds(jobs) && Has(Ready(jobs, e), id)
    ensures Has(jobs, id) && At(Ready(jobs, e), id) == Settled(Normal(At(jobs, id)), e.now, e.alive)
  {
    PrunedRecord(jobs, e.now, e.alive, e.maxJobs, e.maxAgeMs, id);
  }

  /** In every run from an empty store, the question is never open below its revision. */
  lemma {:induction false} NeverEarly(events: seq<Event>, id: string, question: string, revision: nat)
    requires FreshIds([], events) && AllPostedAt(events, id, question, revision) && Has(Run([], events), id)
    ensures NotEarly(At(Run([], events), id), question, revision)
  {
    hide UniqueIds, Mutate, Ready, Next, NotEarly, PostedAt;
    if events != [] {
      var n := |events| - 1;
      var front, e := events[..n], events[n];
      FreshFront([], events);
      assert AllPostedAt(front, id, question, revision) by {
        assert forall i | 0 <= i < n :: front[i] == events[i];
      }
      NoUnique();
      RunUnique([], front);
      var before := Run([], front);
      MutateRecord(before, e, id);
      assert events[n] == e;
      if Has(Ready(before, e), id) {
        NeverEarly(front, id, question, revision);
        NextQuestion(At(before, id), e, question, revision);
      } else {
        NewNotEarly(before, e, id, question, revision);
      }
    }
  }

  lemma NoUnique()
    ensures UniqueIds([])
  {
  }

  lemma NewNotEarly(jobs: seq<Job>, e: Event, id: string, question: string, revision: nat)
    requires UniqueIds(jobs) && (e.op.Create? ==> !Has(jobs, e.op.created.id))
    requires !Has(Ready(jobs, e), id) && Has(Mutate(jobs, e), id)
    requires e.op.Upsert? ==> PostedAt(e.op.incoming, id, question, revision)
    requires e.op.Create? ==> PostedAt(e.op.created, id, question, revision)
    ensures NotEarly(At(Mutate(jobs, e), id), question, revision)
  {
    hide UniqueIds, Apply, Pruned;
    PrunedRecord(jobs, e.now, e.alive, e.maxJobs, e.maxAgeMs, id);
    if e.op.Create? {
      PrunedRecord(jobs, e.now, e.alive, e.maxJobs, e.maxAgeMs, e.op.created.id);
    }
    ApplyRecord(Ready(jobs, e), e, id);
  }

  /** While the record is retained, a spent question stays spent. */
  lemma {:induction false} SpentStays(events: seq<Event>, from: nat, id: string, question: string, revision: nat)
    requires FreshIds([], events) && AllPostedAt(events, id, question, revision) && from <= |events|
    requires Retained([], events, from, id) && Has(Run([], events[..from]), id)
    requires Spent(At(Run([], events[..from]), id), question, revision)
    ensures Has(Run([], events), id) && Spent(At(Run([], events), id), question, revision)
    decreases |events|
  {
    hide UniqueIds, Mutate, Ready, Next, Spent, PostedAt;
    if from == |events| {
      assert events[..from] == events;
    } else {
      var n := |events| - 1;
      var front, e := events[..n], events[n];
      FreshFront([], events);
      RetainedFront([], events, from, id);
      assert front[..from] == events[..from];
      assert AllPostedAt(front, id, question, revision) by {
        assert forall i | 0 <= i < n :: front[i] == events[i];
      }
      SpentStays(front, from, id, question, revision);
      NoUnique();
      RunUnique([], front);
      MutateRecord(Run([], front), e, id);
      assert events[n] == e;
      NextQuestion(At(Run([], front), id), e, question, revision);
    }
  }

  /** A question that is always posted at one revision is claimed at most once, whatever
      stale snapshots come in between, as long as the record is retained. */
  lemma ClaimedAtMostOnce(events: seq<Event>, i: nat, j: nat, id: string, question: string, revision: nat)
    requires i < j < |events| && FreshIds([], events) && AllPostedAt(events, id, question, revision)
    requires Retained([], events[..j], i + 1, id)
    requires Claims(Run([], events[..i]), events[i], id, question)
    ensures !Claims(Run([], events[..j]), events[j], id, question)
  {
    hide UniqueIds, Mutate, Ready, Spent, NotEarly, PostedAt, MayClaim;
    Prefixes(events, i, j, id, question, revision);
    NoUnique();
    RunUnique([], events[..i]);
    RunUnique([], events[..j]);
    var before := Run([], events[..i]);
    ReadyRecord(before, events[i], id);
    NeverEarly(events[..i], id, question, revision);
    ClaimSpends(before, events[i], id, question, revision);
    assert events[..i + 1][..i] == events[..i];
    assert Run([], events[..i + 1]) == Mutate(before, events[i]);
    assert events[..j][..i + 1] == events[..i + 1];
    SpentStays(events[..j], i + 1, id, question, revision);
    SpentNotClaimed(Run([], events[..j]), events[j], id, question, revision);
  }

  lemma SpentNotClaimed(jobs: seq<Job>, e: Event, id: string, question: string, revision: nat)
    requires UniqueIds(jobs) && Has(jobs, id) && Spent(At(jobs, id), question, revision)
    ensures !Claims(jobs, e, id, question)
  {
    hide UniqueIds, Ready;
    if Has(Ready(jobs, e), id) {
      ReadyRecord(jobs, e, id);
      SettledQuestion(At(jobs, id), e.now, e.alive, question, revision);
    }
  }

  lemma Prefixes(events: seq<Event>, i: nat, j: nat, id: string, question: string, revision: nat)
    requires i < j < |events| && FreshIds([], events) && AllPostedAt(events, id, question, revision)
    ensures FreshIds([], events[..i]) && FreshIds([], events[..j])
    ensures AllPostedAt(events[..i], id, question, revision) && AllPostedAt(events[..j], id, question, revision)
  {
    hide Run, Has, PostedAt;
    assert forall k | 0 <= k < i :: events[..i][k] == events[k] && events[..i][..k] == events[..k];
    assert forall k | 0 <= k < j :: events[..j][k] == events[k] && events[..j][..k] == events[..k];
  }
}
