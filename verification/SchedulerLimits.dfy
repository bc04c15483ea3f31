/** Limits over runs in which processes with different configurations share the state. */
module SchedulerLimits {
  import opened Scheduler
  import opened SchedulerProof
  import opened SchedulerRuns
  import opened Wrappers

  datatype Op =
    | Poll(poller: Poller, at: int, beat: bool)
    | RemoveWaiter(id: nat)
    | Release(id: nat, owner: nat)
    | Extend(id: nat, owner: nat)

  /** One mutation under the lock, by a process with its own configuration and clock; a poll
      reads the clock once more, before it takes the lock. */
  datatype Event = Event(op: Op, now: int, config: Config, alive: set<nat>)

  function Extended(leases: seq<Lease>, id: nat, owner: nat, now: int, leaseMs: int): (r: seq<Lease>)
    ensures |r| == |leases|
    ensures forall i | 0 <= i < |leases| :: r[i].key == leases[i].key
  {
    if leases == [] then []
    else if leases[0].id == id && leases[0].owner == owner
    then [leases[0].(heartbeatAt := now, expiresAt := now + leaseMs)] + leases[1..]
    else [leases[0]] + Extended(leases[1..], id, owner, now, leaseMs)
  }

  /** `seen` records the configurations that have mutated the state since it was idle. */
  datatype World = World(shared: Shared, seen: seq<Config>)

  function Apply(s: Shared, e: Event): Shared {
    match e.op
    case Poll(p, at, beat) => Polled(s, p, at, e.config, beat)
    case RemoveWaiter(id) => s.(waiters := Without(s.waiters, id))
    case Release(id, owner) => s.(leases := WithoutLease(s.leases, id, owner))
    case Extend(id, owner) => s.(leases := Extended(s.leases, id, owner, e.now, e.config.leaseMs))
  }

  function Mutate(w: World, e: Event): World {
    var pruned := Pruned(w.shared, e.now, e.config.leaseMs, e.alive);
    World(Apply(Reconciled(pruned, e.config), e), (if Idle(pruned) then [] else w.seen) + [e.config])
  }

  function Run(w: World, events: seq<Event>): World {
    if events == [] then w else Mutate(Run(w, events[..|events| - 1]), events[|events| - 1])
  }

  function KeyLeases(leases: seq<Lease>, key: string): nat {
    if leases == [] then 0
    else KeyLeases(leases[..|leases| - 1], key) + if leases[|leases| - 1].key == Some(key) then 1 else 0
  }

  // ------------------------------------------------------------------ limits only fall

  /** At least as strict as a configuration. */
  predicate Obeys(limit: int, limits: Limits, c: Config) {
    limit <= c.maxConcurrency && forall k | k in c.resourceLimits :: k in limits && limits[k] <= c.resourceLimits[k]
  }

  predicate AtMost(a: Shared, b: Shared) {
    a.limit <= b.limit && forall k | k in b.resourceLimits ::
      k in a.resourceLimits && a.resourceLimits[k] <= b.resourceLimits[k]
  }

  lemma LimitsOnlyFall(s: Shared, config: Config)
    ensures Obeys(Reconciled(s, config).limit, Reconciled(s, config).resourceLimits, config)
    ensures !Idle(s) ==> AtMost(Reconciled(s, config), s)
  {
  }

  lemma OpKeepsLimits(s: Shared, e: Event)
    ensures Apply(s, e).limit == s.limit && Apply(s, e).resourceLimits == s.resourceLimits
  {
    hide Eligible, Index;
  }

  predicate ObeysSeen(w: World) {
    forall i | 0 <= i < |w.seen| :: Obeys(w.shared.limit, w.shared.resourceLimits, w.seen[i])
  }

  lemma StricterObeys(a: Shared, b: Shared, c: Config)
    requires AtMost(a, b) && Obeys(b.limit, b.resourceLimits, c)
    ensures Obeys(a.limit, a.resourceLimits, c)
  {
  }

  lemma MutateObeys(w: World, e: Event)
    requires ObeysSeen(w)
    ensures ObeysSeen(Mutate(w, e))
  {
    hide Obeys, Apply, AtMost, Reconciled;
    var pruned := Pruned(w.shared, e.now, e.config.leaseMs, e.alive);
    var ready := Reconciled(pruned, e.config);
    LimitsOnlyFall(pruned, e.config);
    OpKeepsLimits(ready, e);
    var t := Mutate(w, e);
    forall i | 0 <= i < |t.seen|
      ensures Obeys(t.shared.limit, t.shared.resourceLimits, t.seen[i])
    {
      if !Idle(pruned) && i < |w.seen| {
        assert t.seen[i] == w.seen[i];
        StricterObeys(ready, pruned, w.seen[i]);
      }
    }
  }

  // -------------------------------------------------------------------- every grant

  lemma {:induction false} UsageIsCount(leases: seq<Lease>, key: string)
    ensures InUse(UsageOf(leases), Some(key)) == KeyLeases(leases, key)
  {
    if leases != [] {
      UsageIsCount(leases[..|leases| - 1], key);
    }
  }

  lemma RegisteredUnique(s: Shared, p: Poller, now: int, beat: bool)
    requires UniqueIds(s.waiters)
    ensures UniqueIds(Registered(s, p, now, beat).waiters)
  {
    var i := Index(s.waiters, p.self.id);
    if i < |s.waiters| && beat {
      HeartbeatKeeps(s.waiters, i, now);
    }
  }

  /** The poller polls with the key it registered with. */
  predicate KeyMatches(waiters: seq<Waiter>, p: Poller) {
    forall i | 0 <= i < |waiters| && waiters[i].id == p.self.id :: waiters[i].key == p.self.key
  }

  lemma RegisteredWaits(s: Shared, p: Poller, now: int, beat: bool)
    requires KeyMatches(s.waiters, p)
    ensures WaitsAs(Registered(s, p, now, beat).waiters, p)
  {
    var i := Index(s.waiters, p.self.id);
    var r := Registered(s, p, now, beat);
    assert r.waiters[i].id == p.self.id && r.waiters[i].key == p.self.key;
  }

  /** A grant fits the limits in force, in all and under its key. */
  lemma GrantFits(s: Shared, p: Poller, now: int, config: Config, beat: bool)
    requires UniqueIds(s.waiters) && KeyMatches(s.waiters, p)
    requires p.self.id in Eligible(Registered(s, p, now, beat), now, config.agingMs)
    ensures
      var t := Polled(s, p, now, config, beat);
      && t.leases == s.leases + [NewLease(p, now, config.leaseMs)] && |t.leases| <= t.limit
      && (p.self.key.Some? && p.self.key.value in t.resourceLimits ==>
            KeyLeases(t.leases, p.self.key.value) <= t.resourceLimits[p.self.key.value])
  {
    hide UniqueIds, Sorted, Greedy, UsageOf, Index, KeyMatches;
    var r := Registered(s, p, now, beat);
    RegisteredUnique(s, p, now, beat);
    RegisteredWaits(s, p, now, beat);
    var i :| 0 <= i < |r.waiters| && r.waiters[i].id == p.self.id && r.waiters[i].key == p.self.key;
    SortedHas(r.waiters, r.waiters[i], now, config.agingMs);
    SortedIds(r.waiters, now, config.agingMs);
    AdmittedHadRoom(Sorted(r.waiters, now, config.agingMs), Room(r), UsageOf(r.leases), r.resourceLimits, r.waiters[i]);
    if p.self.key.Some? {
      var key := p.self.key.value;
      UsageIsCount(r.leases, key);
      KeySnoc(r.leases, NewLease(p, now, config.leaseMs), key);
    }
  }

  lemma KeySnoc(leases: seq<Lease>, l: Lease, key: string)
    ensures KeyLeases(leases + [l], key) == KeyLeases(leases, key) + if l.key == Some(key) then 1 else 0
  {
    assert (leases + [l])[..|leases|] == leases;
  }

  predicate Grants(w: World, e: Event) {
    e.op.Poll? &&
    var ready := Opened(w.shared, e.now, e.config, e.alive);
    e.op.poller.self.id in Eligible(Registered(ready, e.op.poller, e.op.at, e.op.beat), e.op.at, e.config.agingMs)
  }

  /** Ids are unique, and who polls again uses the same key; both are kept by every step
      of the code that makes ids. */
  predicate Proper(w: World, e: Event) {
    var ready := Opened(w.shared, e.now, e.config, e.alive);
    e.op.Poll? ==> KeyMatches(ready.waiters, e.op.poller)
  }

  predicate ProperRun(w: World, events: seq<Event>) {
    forall i | 0 <= i < |events| :: Proper(Run(w, events[..i]), events[i])
  }

  lemma {:induction false} LiveUnique(waiters: seq<Waiter>, now: int, leaseMs: int, alive: set<nat>)
    requires UniqueIds(waiters)
    ensures UniqueIds(LiveWaiters(waiters, now, leaseMs, alive))
    ensures forall i | 0 <= i < |LiveWaiters(waiters, now, leaseMs, alive)| ::
      LiveWaiters(waiters, now, leaseMs, alive)[i] in waiters
  {
    if waiters != [] {
      var n := |waiters| - 1;
      var live := LiveWaiters(waiters[..n], now, leaseMs, alive);
      LiveUnique(waiters[..n], now, leaseMs, alive);
      forall i | 0 <= i < |live|
        ensures live[i].id != waiters[n].id && live[i] in waiters
      {
        assert live[i] in waiters[..n];
      }
      assert waiters[n] in waiters;
    }
  }

  lemma MutateUnique(w: World, e: Event)
    requires UniqueIds(w.shared.waiters)
    ensures UniqueIds(Mutate(w, e).shared.waiters)
    ensures UniqueIds(Opened(w.shared, e.now, e.config, e.alive).waiters)
  {
    hide UniqueIds, Eligible, Registered, LiveWaiters, Ids;
    LiveUnique(w.shared.waiters, e.now, e.config.leaseMs, e.alive);
    var ready := Opened(w.shared, e.now, e.config, e.alive);
    match e.op
    case Poll(p, at, beat) =>
      RegisteredUnique(ready, p, at, beat);
      WithoutMembers(Registered(ready, p, at, beat).waiters, p.self.id);
    case RemoveWaiter(id) => WithoutMembers(ready.waiters, id);
    case Release(_, _) =>
    case Extend(_, _) =>
  }

  lemma {:induction false} RunKeeps(w: World, events: seq<Event>)
    requires ObeysSeen(w) && UniqueIds(w.shared.waiters)
    ensures ObeysSeen(Run(w, events)) && UniqueIds(Run(w, events).shared.waiters)
  {
    hide ObeysSeen, UniqueIds, Mutate;
    if events != [] {
      var n := |events| - 1;
      RunKeeps(w, events[..n]);
      MutateObeys(Run(w, events[..n]), events[n]);
      MutateUnique(Run(w, events[..n]), events[n]);
    }
  }

  /** A world before anything was stored. */
  predicate Fresh(w: World) {
    Idle(w.shared) && w.seen == []
  }

  /** Over every run with any mix of configurations, a grant never takes the leases above
      the limits of any configuration that has mutated the state since it was last idle. */
  lemma GrantsObeyEveryConfigSeen(w: World, events: seq<Event>, e: Event, i: nat)
    requires Fresh(w) && Proper(Run(w, events), e) && Grants(Run(w, events), e)
    requires i < |Mutate(Run(w, events), e).seen|
    ensures
      var t := Mutate(Run(w, events), e);
      var c, key := t.seen[i], e.op.poller.self.key;
      && |t.shared.leases| <= c.maxConcurrency
      && (key.Some? && key.value in c.resourceLimits ==>
        KeyLeases(t.shared.leases, key.value) <= c.resourceLimits[key.value])
  {
    hide ObeysSeen, UniqueIds, Eligible, Registered, Polled, KeyMatches, Opened;
    var before := Run(w, events);
    NothingSeen(w);
    RunKeeps(w, events);
    MutateObeys(before, e);
    MutateUnique(before, e);
    var ready := Opened(before.shared, e.now, e.config, e.alive);
    MutateOpens(before, e);
    GrantFits(ready, e.op.poller, e.op.at, e.config, e.op.beat);
    SeenObeyed(Mutate(before, e), i);
  }

  lemma MutateOpens(w: World, e: Event)
    ensures Mutate(w, e).shared == Apply(Opened(w.shared, e.now, e.config, e.alive), e)
  {
  }

  lemma NothingSeen(w: World)
    requires Fresh(w)
    ensures ObeysSeen(w) && UniqueIds(w.shared.waiters)
  {
  }

  lemma SeenObeyed(w: World, i: nat)
    requires ObeysSeen(w) && i < |w.seen|
    ensures Obeys(w.shared.limit, w.shared.resourceLimits, w.seen[i])
  {
  }

  // ------------------------------------------------------------ one configuration only

  /** All caps of a configuration hold. */
  predicate Capped(s: Shared, c: Config) {
    && |s.leases| <= c.maxConcurrency
    && forall k | k in c.resourceLimits :: KeyLeases(s.leases, k) <= c.resourceLimits[k]
  }

  lemma {:induction false} FewerLive(leases: seq<Lease>, now: int, alive: set<nat>, key: string)
    ensures |LiveLeases(leases, now, alive)| <= |leases|
    ensures KeyLeases(LiveLeases(leases, now, alive), key) <= KeyLeases(leases, key)
  {
    if leases != [] {
      var n := |leases| - 1;
      FewerLive(leases[..n], now, alive, key);
      KeySnoc(LiveLeases(leases[..n], now, alive), leases[n], key);
      assert LiveLeases(leases[..n], now, alive) + [] == LiveLeases(leases[..n], now, alive);
    }
  }

  lemma {:induction false} FewerWithout(leases: seq<Lease>, id: nat, owner: nat, key: string)
    ensures |WithoutLease(leases, id, owner)| <= |leases|
    ensures KeyLeases(WithoutLease(leases, id, owner), key) <= KeyLeases(leases, key)
  {
    if leases != [] {
      var n := |leases| - 1;
      FewerWithout(leases[..n], id, owner, key);
      KeySnoc(WithoutLease(leases[..n], id, owner), leases[n], key);
      assert WithoutLease(leases[..n], id, owner) + [] == WithoutLease(leases[..n], id, owner);
    }
  }

  lemma {:induction false} SameKeysSameCount(a: seq<Lease>, b: seq<Lease>, key: string)
    requires |a| == |b| && forall i | 0 <= i < |a| :: a[i].key == b[i].key
    ensures KeyLeases(a, key) == KeyLeases(b, key)
  {
    if a != [] {
      SameKeysSameCount(a[..|a| - 1], b[..|b| - 1], key);
    }
  }

  lemma OpenedCapped(s: Shared, e: Event)
    requires Capped(s, e.config)
    ensures Capped(Opened(s, e.now, e.config, e.alive), e.config)
    ensures Obeys(Opened(s, e.now, e.config, e.alive).limit, Opened(s, e.now, e.config, e.alive).resourceLimits,
      e.config)
  {
    hide Merged, LiveLeases, LiveWaiters;
    var pruned := Pruned(s, e.now, e.config.leaseMs, e.alive);
    LimitsOnlyFall(pruned, e.config);
    FewerLive(s.leases, e.now, e.alive, "");
    forall k | k in e.config.resourceLimits
      ensures KeyLeases(pruned.leases, k) <= e.config.resourceLimits[k]
    {
      FewerLive(s.leases, e.now, e.alive, k);
    }
  }

  lemma ApplyCapped(s: Shared, e: Event)
    requires Capped(s, e.config) && Obeys(s.limit, s.resourceLimits, e.config)
    requires UniqueIds(s.waiters) && (e.op.Poll? ==> KeyMatches(s.waiters, e.op.poller))
    ensures Capped(Apply(s, e), e.config)
  {
    hide UniqueIds, KeyMatches, Eligible, Registered, WithoutLease, Without;
    match e.op
    case Poll(p, at, beat) =>
      RegisteredLeases(s, p, at, beat);
      if p.self.id in Eligible(Registered(s, p, at, beat), at, e.config.agingMs) {
        GrantFits(s, p, at, e.config, beat);
        forall k | k in e.config.resourceLimits
          ensures KeyLeases(Apply(s, e).leases, k) <= e.config.resourceLimits[k]
        {
          KeySnoc(s.leases, NewLease(p, at, e.config.leaseMs), k);
        }
      }
    case RemoveWaiter(_) =>
    case Release(id, owner) =>
      FewerWithout(s.leases, id, owner, "");
      forall k | k in e.config.resourceLimits
        ensures KeyLeases(Apply(s, e).leases, k) <= e.config.resourceLimits[k]
      {
        FewerWithout(s.leases, id, owner, k);
      }
    case Extend(id, owner) =>
      forall k | k in e.config.resourceLimits
        ensures KeyLeases(Apply(s, e).leases, k) <= e.config.resourceLimits[k]
      {
        SameKeysSameCount(s.leases, Extended(s.leases, id, owner, e.now, e.config.leaseMs), k);
      }
  }

  lemma RegisteredLeases(s: Shared, p: Poller, now: int, beat: bool)
    ensures
      var r := Registered(s, p, now, beat);
      r.leases == s.leases && r.limit == s.limit && r.resourceLimits == s.resourceLimits
  {
  }

  /** With one shared configuration its caps are invariants of every run. */
  lemma {:induction false} OneConfigCaps(w: World, events: seq<Event>, c: Config)
    requires Fresh(w) && ProperRun(w, events) && (forall i | 0 <= i < |events| :: events[i].config == c)
    requires c.maxConcurrency >= 0 && forall k | k in c.resourceLimits :: c.resourceLimits[k] >= 0
    ensures Capped(Run(w, events).shared, c)
  {
    hide Mutate, Proper, Opened, Apply, UniqueIds, ObeysSeen, Obeys;
    if events == [] {
      NoLeasesCapped(w.shared, c);
    } else {
      var n := |events| - 1;
      var front, e := events[..n], events[n];
      assert ProperRun(w, front) by {
        forall i | 0 <= i < n
          ensures Proper(Run(w, front[..i]), front[i])
        {
          assert front[i] == events[i] && front[..i] == events[..i];
          assert Proper(Run(w, events[..i]), events[i]);
        }
      }
      OneConfigCaps(w, front, c);
      var before := Run(w, front);
      NothingSeen(w);
      RunKeeps(w, front);
      MutateUnique(before, e);
      MutateOpens(before, e);
      OpenedCapped(before.shared, e);
      assert Proper(Run(w, events[..n]), events[n]);
      ProperKey(before, e);
      ApplyCapped(Opened(before.shared, e.now, e.config, e.alive), e);
    }
  }

  lemma ProperKey(w: World, e: Event)
    requires Proper(w, e)
    ensures e.op.Poll? ==> KeyMatches(Opened(w.shared, e.now, e.config, e.alive).waiters, e.op.poller)
  {
  }

  lemma NoLeasesCapped(s: Shared, c: Config)
    requires Idle(s) && c.maxConcurrency >= 0 && forall k | k in c.resourceLimits :: c.resourceLimits[k] >= 0
    ensures Capped(s, c)
  {
  }
}
