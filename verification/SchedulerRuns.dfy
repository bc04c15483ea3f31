/** Whole runs of the scheduler: polling in any order. */
module SchedulerRuns {
  import opened Scheduler
  import opened SchedulerProof

  /** Every mutation starts with pruning and reconciling. */
  function Opened(s: Shared, now: int, config: Config, alive: set<nat>): Shared {
    Reconciled(Pruned(s, now, config.leaseMs, alive), config)
  }

  // ------------------------------------------------------- heartbeats do not matter

  function Bare(waiters: seq<Waiter>): seq<Waiter> {
    if waiters == [] then [] else [waiters[0].(heartbeatAt := 0)] + Bare(waiters[1..])
  }

  lemma {:induction false} BareInsert(w: Waiter, sorted: seq<Waiter>, now: int, agingMs: int)
    ensures Bare(Insert(w, sorted, now, agingMs)) == Insert(w.(heartbeatAt := 0), Bare(sorted), now, agingMs)
  {
    BareCons(w, sorted);
    if sorted != [] {
      var first, rest := sorted[0], sorted[1..];
      assert [first] + rest == sorted;
      BareCons(first, rest);
      assert ([first.(heartbeatAt := 0)] + Bare(rest))[1..] == Bare(rest);
      BareInsert(w, rest, now, agingMs);
      BareCons(first, Insert(w, rest, now, agingMs));
    }
  }

  lemma BareCons(w: Waiter, rest: seq<Waiter>)
    ensures Bare([w] + rest) == [w.(heartbeatAt := 0)] + Bare(rest)
  {
    assert ([w] + rest)[1..] == rest;
  }

  lemma {:induction false} BareSorted(waiters: seq<Waiter>, now: int, agingMs: int)
    ensures Sorted(Bare(waiters), now, agingMs) == Bare(Sorted(waiters, now, agingMs))
  {
    hide Insert;
    if waiters != [] {
      BareSorted(waiters[1..], now, agingMs);
      BareInsert(waiters[0], Sorted(waiters[1..], now, agingMs), now, agingMs);
      assert ([waiters[0].(heartbeatAt := 0)] + Bare(waiters[1..]))[1..] == Bare(waiters[1..]);
    }
  }

  lemma {:induction false} BareGreedy(sorted: seq<Waiter>, room: int, usage: Usage, limits: Limits)
    ensures Greedy(Bare(sorted), room, usage, limits) == Greedy(sorted, room, usage, limits)
  {
    hide Exhausted, Taken;
    if sorted != [] && room > 0 {
      var first, rest := sorted[0], sorted[1..];
      var bare := first.(heartbeatAt := 0);
      assert ([bare] + Bare(rest))[1..] == Bare(rest);
      BareGreedy(rest, room, usage, limits);
      BareGreedy(rest, room - 1, Taken(usage, first.key), limits);
    }
  }

  lemma {:induction false} BareUpdate(waiters: seq<Waiter>, i: nat, now: int)
    requires i < |waiters|
    ensures Bare(waiters[i := waiters[i].(heartbeatAt := now)]) == Bare(waiters)
  {
    var changed := waiters[i := waiters[i].(heartbeatAt := now)];
    if i > 0 {
      BareUpdate(waiters[1..], i - 1, now);
      assert changed[1..] == waiters[1..][i - 1 := waiters[1..][i - 1].(heartbeatAt := now)];
    } else {
      assert changed[1..] == waiters[1..];
    }
  }

  lemma EligibleIgnoresHeartbeats(s: Shared, i: nat, now: int, agingMs: int)
    requires i < |s.waiters|
    ensures Eligible(s.(waiters := s.waiters[i := s.waiters[i].(heartbeatAt := now)]), now, agingMs) ==
      Eligible(s, now, agingMs)
  {
    hide Sorted, Greedy;
    var changed := s.waiters[i := s.waiters[i].(heartbeatAt := now)];
    BareUpdate(s.waiters, i, now);
    BareSorted(changed, now, agingMs);
    BareSorted(s.waiters, now, agingMs);
    BareGreedy(Sorted(changed, now, agingMs), Room(s), UsageOf(s.leases), s.resourceLimits);
    BareGreedy(Sorted(s.waiters, now, agingMs), Room(s), UsageOf(s.leases), s.resourceLimits);
  }

  // --------------------------------------------------------- polling in any order

  /** At this moment nothing is stale and the limits are agreed, so opening the state
      changes nothing. */
  predicate Settled(s: Shared, now: int, config: Config, alive: set<nat>) {
    && !Idle(s) && Reconciled(s, config) == s
    && (forall i | 0 <= i < |s.waiters| :: WaiterLives(s.waiters[i], now, config.leaseMs, alive))
    && (forall i | 0 <= i < |s.leases| :: LeaseLives(s.leases[i], now, alive))
  }

  lemma {:induction false} AllWaitersLive(waiters: seq<Waiter>, now: int, leaseMs: int, alive: set<nat>)
    requires forall i | 0 <= i < |waiters| :: WaiterLives(waiters[i], now, leaseMs, alive)
    ensures LiveWaiters(waiters, now, leaseMs, alive) == waiters
  {
    if waiters != [] {
      AllWaitersLive(waiters[..|waiters| - 1], now, leaseMs, alive);
      assert waiters[..|waiters| - 1] + [waiters[|waiters| - 1]] == waiters;
    }
  }

  lemma {:induction false} AllLeasesLive(leases: seq<Lease>, now: int, alive: set<nat>)
    requires forall i | 0 <= i < |leases| :: LeaseLives(leases[i], now, alive)
    ensures LiveLeases(leases, now, alive) == leases
  {
    if leases != [] {
      AllLeasesLive(leases[..|leases| - 1], now, alive);
      assert leases[..|leases| - 1] + [leases[|leases| - 1]] == leases;
    }
  }

  lemma SettledOpens(s: Shared, now: int, config: Config, alive: set<nat>)
    requires Settled(s, now, config, alive)
    ensures Opened(s, now, config, alive) == s
  {
    AllWaitersLive(s.waiters, now, config.leaseMs, alive);
    AllLeasesLive(s.leases, now, alive);
  }

  datatype Try = Try(poller: Poller, beat: bool)

  /** A process polls until it has its lease; then it no longer waits and polls no more. */
  function PollStep(s: Shared, a: Try, now: int, config: Config, alive: set<nat>): Shared {
    if a.poller.self.id in Ids(s.waiters) then Polled(Opened(s, now, config, alive), a.poller, now, config, a.beat)
      else s
  }

  function PollAll(s: Shared, tries: seq<Try>, now: int, config: Config, alive: set<nat>): Shared {
    if tries == [] then s
    else PollStep(PollAll(s, tries[..|tries| - 1], now, config, alive), tries[|tries| - 1], now, config, alive)
  }

  function PolledIds(tries: seq<Try>): set<nat> {
    set i | 0 <= i < |tries| :: tries[i].poller.self.id
  }

  function Holders(leases: seq<Lease>): set<nat> {
    set i | 0 <= i < |leases| :: leases[i].waiterId
  }

  /** Whoever still waits polls under the id and key it waits with, and is alive. */
  predicate Honest(waiters: seq<Waiter>, p: Poller, alive: set<nat>) {
    p.self.pid in alive && (p.self.id in Ids(waiters) ==> WaitsAs(waiters, p))
  }

  lemma {:induction false} WithoutMembers(waiters: seq<Waiter>, id: nat)
    ensures Ids(Without(waiters, id)) == Ids(waiters) - {id}
    ensures UniqueIds(waiters) ==> UniqueIds(Without(waiters, id))
    ensures forall i | 0 <= i < |Without(waiters, id)| :: Without(waiters, id)[i] in waiters
    ensures forall w | w in waiters && w.id != id :: w in Without(waiters, id)
  {
    hide Ids, UniqueIds;
    if waiters == [] {
      NoIds(waiters);
    } else {
      var first, rest := waiters[0], waiters[1..];
      assert [first] + rest == waiters;
      UniqueCons(first, rest);
      UniqueCons(first, Without(rest, id));
      WithoutMembers(rest, id);
      assert [] + Without(rest, id) == Without(rest, id);
    }
  }

  lemma NoIds(waiters: seq<Waiter>)
    requires waiters == []
    ensures Ids(waiters) == {} && UniqueIds(waiters)
  {
  }

  lemma HoldersSnoc(leases: seq<Lease>, l: Lease)
    ensures Holders(leases + [l]) == Holders(leases) + {l.waiterId}
  {
    var all := leases + [l];
    assert all[|leases|] == l;
    forall id | id in Holders(leases)
      ensures id in Holders(all)
    {
      var i :| 0 <= i < |leases| && leases[i].waiterId == id;
      assert all[i] == leases[i];
    }
  }

  lemma HeartbeatKeeps(waiters: seq<Waiter>, i: nat, now: int)
    requires i < |waiters|
    ensures
      var changed := waiters[i := waiters[i].(heartbeatAt := now)];
      Ids(changed) == Ids(waiters) && (UniqueIds(waiters) ==> UniqueIds(changed))
  {
    var changed := waiters[i := waiters[i].(heartbeatAt := now)];
    forall id | id in Ids(waiters)
      ensures id in Ids(changed)
    {
      var k :| 0 <= k < |waiters| && waiters[k].id == id;
      assert changed[k].id == id;
    }
  }

  lemma WaitsStill(waiters: seq<Waiter>, i: nat, now: int, p: Poller)
    requires i < |waiters| && WaitsAs(waiters, p)
    ensures WaitsAs(waiters[i := waiters[i].(heartbeatAt := now)], p)
  {
    var changed := waiters[i := waiters[i].(heartbeatAt := now)];
    var k :| 0 <= k < |waiters| && waiters[k].id == p.self.id && waiters[k].key == p.self.key;
    assert changed[k].id == p.self.id && changed[k].key == p.self.key;
  }

  lemma WaitsWithout(waiters: seq<Waiter>, id: nat, p: Poller)
    requires WaitsAs(waiters, p) && p.self.id != id
    ensures WaitsAs(Without(waiters, id), p)
  {
    WithoutMembers(waiters, id);
    var k :| 0 <= k < |waiters| && waiters[k].id == p.self.id && waiters[k].key == p.self.key;
    assert waiters[k] in Without(waiters, id);
  }

  /** What registering does to a settled state with the poller in it: at most one
      heartbeat moves. */
  lemma RegisteredKeeps(s: Shared, p: Poller, beat: bool, now: int, config: Config, alive: set<nat>)
    requires Settled(s, now, config, alive) && UniqueIds(s.waiters) && WaitsAs(s.waiters, p) && config.leaseMs > 0
    ensures
      var r := Registered(s, p, now, beat);
      && Settled(r, now, config, alive) && UniqueIds(r.waiters) && Ids(r.waiters) == Ids(s.waiters) &&
        r.leases == s.leases
      && Eligible(r, now, config.agingMs) == Eligible(s, now, config.agingMs)
      && forall q: Poller :: WaitsAs(s.waiters, q) ==> WaitsAs(r.waiters, q)
  {
    hide Eligible, WaitsAs, UniqueIds, Ids, Merged;
    FoundIndex(s.waiters, p);
    var i := Index(s.waiters, p.self.id);
    if beat {
      HeartbeatKeeps(s.waiters, i, now);
      EligibleIgnoresHeartbeats(s, i, now, config.agingMs);
      forall q: Poller | WaitsAs(s.waiters, q)
        ensures WaitsAs(s.waiters[i := s.waiters[i].(heartbeatAt := now)], q)
      {
        WaitsStill(s.waiters, i, now, q);
      }
    }
  }

  lemma FoundIndex(waiters: seq<Waiter>, p: Poller)
    requires WaitsAs(waiters, p)
    ensures Index(waiters, p.self.id) < |waiters|
  {
  }

  lemma GrantedSettled(s: Shared, p: Poller, now: int, config: Config, alive: set<nat>)
    requires Settled(s, now, config, alive) && config.leaseMs > 0 && p.self.pid in alive
    ensures Settled(Granted(s, p, now, config.leaseMs), now, config, alive)
  {
    hide Merged;
    WithoutMembers(s.waiters, p.self.id);
    var t := Granted(s, p, now, config.leaseMs);
    forall i | 0 <= i < |t.waiters|
      ensures WaiterLives(t.waiters[i], now, config.leaseMs, alive)
    {
      assert t.waiters[i] in s.waiters;
    }
  }

  /** One poll: the poller gets its lease exactly when it was eligible, and nobody else's
      eligibility changes. */
  lemma OnePoll(s: Shared, a: Try, now: int, config: Config, alive: set<nat>)
    requires Settled(s, now, config, alive) && UniqueIds(s.waiters) && config.leaseMs > 0
    requires Honest(s.waiters, a.poller, alive)
    ensures
      var t := PollStep(s, a, now, config, alive);
      var e := Eligible(s, now, config.agingMs);
      var got := e * {a.poller.self.id} * Ids(s.waiters);
      && Settled(t, now, config, alive) && UniqueIds(t.waiters)
      && Ids(t.waiters) == Ids(s.waiters) - got && Holders(t.leases) == Holders(s.leases) + got
      && Eligible(t, now, config.agingMs) == e - got
      && forall q: Poller :: Honest(s.waiters, q, alive) ==> Honest(t.waiters, q, alive)
  {
    hide Eligible, UniqueIds, Ids, Settled, WaitsAs, Registered, Holders;
    var p := a.poller;
    SettledOpens(s, now, config, alive);
    if p.self.id in Ids(s.waiters) {
      RegisteredKeeps(s, p, a.beat, now, config, alive);
      var r := Registered(s, p, now, a.beat);
      if p.self.id in Eligible(r, now, config.agingMs) {
        TakingLeavesTheOthers(r, p, now, config);
        GrantedSettled(r, p, now, config, alive);
        WithoutMembers(r.waiters, p.self.id);
        HoldersSnoc(r.leases, NewLease(p, now, config.leaseMs));
        forall q: Poller | Honest(s.waiters, q, alive)
          ensures Honest(Granted(r, p, now, config.leaseMs).waiters, q, alive)
        {
          if q.self.id in Ids(r.waiters) && q.self.id != p.self.id {
            WaitsWithout(r.waiters, p.self.id, q);
          }
        }
      }
    }
  }

  lemma EligibleWait(s: Shared, now: int, agingMs: int)
    ensures Eligible(s, now, agingMs) <= Ids(s.waiters)
  {
    hide Ids, Sorted, Greedy;
    GreedyAmong(Sorted(s.waiters, now, agingMs), Room(s), UsageOf(s.leases), s.resourceLimits);
    SortedIds(s.waiters, now, agingMs);
  }

  lemma PolledSnoc(tries: seq<Try>)
    requires tries != []
    ensures PolledIds(tries) == PolledIds(tries[..|tries| - 1]) + {tries[|tries| - 1].poller.self.id}
  {
    var n := |tries| - 1;
    assert tries == tries[..n] + [tries[n]];
    forall id | id in PolledIds(tries[..n])
      ensures id in PolledIds(tries)
    {
      var i :| 0 <= i < n && tries[..n][i].poller.self.id == id;
      assert tries[i].poller.self.id == id;
    }
  }

  ghost predicate Served(s: Shared, t: Shared, polled: set<nat>, now: int, config: Config, alive: set<nat>) {
    var e := Eligible(s, now, config.agingMs);
    && Settled(t, now, config, alive) && UniqueIds(t.waiters)
    && Ids(t.waiters) == Ids(s.waiters) - e * polled
    && Holders(t.leases) == Holders(s.leases) + e * polled
    && Eligible(t, now, config.agingMs) == e - polled
  }

  /** The order of polling never matters. Whoever polls, how often and in whatever order,
      the processes that now hold leases are exactly those among them that a central
      allocator would have chosen at the start; nobody takes a slot that was another's. */
  lemma {:induction false} PollingOrderNeverMatters(s: Shared, tries: seq<Try>, now: int, config: Config,
    alive: set<nat>)
    requires Settled(s, now, config, alive) && UniqueIds(s.waiters) && config.leaseMs > 0
    requires forall i | 0 <= i < |tries| :: Honest(s.waiters, tries[i].poller, alive)
    ensures Served(s, PollAll(s, tries, now, config, alive), PolledIds(tries), now, config, alive)
    ensures forall q: Poller :: Honest(s.waiters, q, alive) ==>
      Honest(PollAll(s, tries, now, config, alive).waiters, q, alive)
  {
    hide Eligible, UniqueIds, Ids, Settled, Honest, PollStep, Holders, PolledIds;
    if tries == [] {
      assert PolledIds(tries) == {} by { NobodyPolled(tries); }
    } else {
      var n := |tries| - 1;
      var before := PollAll(s, tries[..n], now, config, alive);
      PollingOrderNeverMatters(s, tries[..n], now, config, alive);
      OnePoll(before, tries[n], now, config, alive);
      PolledSnoc(tries);
      EligibleWait(before, now, config.agingMs);
    }
  }

  lemma NobodyPolled(tries: seq<Try>)
    requires tries == []
    ensures PolledIds(tries) == {}
  {
  }
}
