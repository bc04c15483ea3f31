/** The host-wide subagent scheduler (`extensions/_shared/subagent-scheduler.ts`). */
module Scheduler {
  // Shared state in one file, changed by every process under a lock.

  import opened Wrappers

  datatype Priority = Foreground | Background

  datatype Waiter = Waiter(id: nat, owner: nat, pid: nat, requestedAt: int, heartbeatAt: int, priority: Priority,
    key: Option<string>)

  datatype Lease = Lease(id: nat, waiterId: nat, owner: nat, pid: nat, acquiredAt: int, heartbeatAt: int,
                         expiresAt: int, priority: Priority, key: Option<string>)

  type Limits = map<string, int>

  datatype Config = Config(maxConcurrency: int, resourceLimits: Limits, leaseMs: int, heartbeatMs: int, agingMs: int)

  datatype Shared = Shared(limit: int, resourceLimits: Limits, waiters: seq<Waiter>, leases: seq<Lease>)

  predicate Idle(s: Shared) {
    s.waiters == [] && s.leases == []
  }

  // ---------------------------------------------------------------------- order

  /** Foreground work, and background work that has aged, comes first. */
  function Rank(w: Waiter, now: int, agingMs: int): int {
    if w.priority == Foreground || now - w.requestedAt >= agingMs then 0 else 1
  }

  /** The comparison; ids are unique, so it is strict and total on waiters. */
  predicate Before(a: Waiter, b: Waiter, now: int, agingMs: int) {
    var ra, rb := Rank(a, now, agingMs), Rank(b, now, agingMs);
    ra < rb || (ra == rb && (a.requestedAt < b.requestedAt || (a.requestedAt == b.requestedAt && a.id < b.id)))
  }

  function Insert(w: Waiter, sorted: seq<Waiter>, now: int, agingMs: int): seq<Waiter> {
    if sorted == [] || Before(w, sorted[0], now, agingMs) then [w] + sorted
    else [sorted[0]] + Insert(w, sorted[1..], now, agingMs)
  }

  function Sorted(waiters: seq<Waiter>, now: int, agingMs: int): seq<Waiter> {
    if waiters == [] then [] else Insert(waiters[0], Sorted(waiters[1..], now, agingMs), now, agingMs)
  }

  predicate InOrder(waiters: seq<Waiter>, now: int, agingMs: int) {
    forall i, j | 0 <= i < j < |waiters| :: Before(waiters[i], waiters[j], now, agingMs)
  }

  predicate UniqueIds(waiters: seq<Waiter>) {
    forall i, j | 0 <= i < j < |waiters| :: waiters[i].id != waiters[j].id
  }

  function Ids(waiters: seq<Waiter>): set<nat> {
    set i | 0 <= i < |waiters| :: waiters[i].id
  }

  // ------------------------------------------------------------------ admission

  type Usage = map<string, int>

  function InUse(usage: Usage, key: Option<string>): int {
    if key.Some? && key.value in usage then usage[key.value] else 0
  }

  function Taken(usage: Usage, key: Option<string>): Usage {
    if key.Some? then usage[key.value := InUse(usage, key) + 1] else usage
  }

  predicate Exhausted(usage: Usage, limits: Limits, key: Option<string>) {
    key.Some? && key.value in limits && InUse(usage, key) >= limits[key.value]
  }

  function UsageOf(leases: seq<Lease>): Usage {
    if leases == [] then map[] else Taken(UsageOf(leases[..|leases| - 1]), leases[|leases| - 1].key)
  }

  /** One pass over the waiters in order, giving each a slot if there is room. */
  function Greedy(sorted: seq<Waiter>, room: int, usage: Usage, limits: Limits): set<nat> {
    if sorted == [] || room <= 0 then {}
    else if Exhausted(usage, limits, sorted[0].key) then Greedy(sorted[1..], room, usage, limits)
    else {sorted[0].id} + Greedy(sorted[1..], room - 1, Taken(usage, sorted[0].key), limits)
  }

  function Room(s: Shared): nat {
    if s.limit - |s.leases| > 0 then s.limit - |s.leases| else 0
  }

  /** The waiters that may run now. */
  function Eligible(s: Shared, now: int, agingMs: int): set<nat> {
    Greedy(Sorted(s.waiters, now, agingMs), Room(s), UsageOf(s.leases), s.resourceLimits)
  }

  // ------------------------------------------------------------- the operations

  function Without(waiters: seq<Waiter>, id: nat): seq<Waiter> {
    if waiters == [] then []
    else (if waiters[0].id == id then [] else [waiters[0]]) + Without(waiters[1..], id)
  }

  predicate WaiterLives(w: Waiter, now: int, leaseMs: int, alive: set<nat>) {
    w.pid in alive && now - w.heartbeatAt <= leaseMs
  }

  predicate LeaseLives(l: Lease, now: int, alive: set<nat>) {
    l.pid in alive && l.expiresAt > now
  }

  function LiveWaiters(waiters: seq<Waiter>, now: int, leaseMs: int, alive: set<nat>): seq<Waiter> {
    if waiters == [] then []
    else
      var last := waiters[|waiters| - 1];
      LiveWaiters(waiters[..|waiters| - 1], now, leaseMs, alive) +
        (if WaiterLives(last, now, leaseMs, alive) then [last] else [])
  }

  function LiveLeases(leases: seq<Lease>, now: int, alive: set<nat>): seq<Lease> {
    if leases == [] then []
    else
      var last := leases[|leases| - 1];
      LiveLeases(leases[..|leases| - 1], now, alive) + (if LeaseLives(last, now, alive) then [last] else [])
  }

  function Pruned(s: Shared, now: int, leaseMs: int, alive: set<nat>): Shared {
    s.(waiters := LiveWaiters(s.waiters, now, leaseMs, alive), leases := LiveLeases(s.leases, now, alive))
  }

  /** The stricter limit for each of these keys. */
  function Merged(own: Limits, other: Limits, keys: set<string>): Limits
    requires keys <= other.Keys
  {
    map k | k in own.Keys + keys :: if k in keys && (k !in own || own[k] > other[k]) then other[k] else own[k]
  }

  /** While anybody waits or runs, limits only fall; an idle state takes the limits of
      whoever comes. */
  function Reconciled(s: Shared, config: Config): Shared {
    if Idle(s) then s.(limit := config.maxConcurrency, resourceLimits := config.resourceLimits)
    else s.(limit := if s.limit > config.maxConcurrency then config.maxConcurrency else s.limit,
            resourceLimits := Merged(s.resourceLimits, config.resourceLimits, config.resourceLimits.Keys))
  }

  /** Who polls: the waiter as it would be registered, and the id of the lease it would
      get. */
  datatype Poller = Poller(self: Waiter, leaseId: nat)

  function Index(waiters: seq<Waiter>, id: nat): (i: nat)
    ensures i <= |waiters| && (i < |waiters| ==> waiters[i].id == id)
    ensures forall k | 0 <= k < i :: waiters[k].id != id
  {
    if waiters == [] || waiters[0].id == id then 0 else 1 + Index(waiters[1..], id)
  }

  /** Registers the poller, or refreshes its heartbeat when that is due. */
  function Registered(s: Shared, p: Poller, now: int, beat: bool): Shared {
    var i := Index(s.waiters, p.self.id);
    if i == |s.waiters| then s.(waiters := s.waiters + [p.self])
    else if beat then s.(waiters := s.waiters[i := s.waiters[i].(heartbeatAt := now)])
    else s
  }

  function NewLease(p: Poller, now: int, leaseMs: int): Lease {
    Lease(p.leaseId, p.self.id, p.self.owner, p.self.pid, now, now, now + leaseMs, p.self.priority, p.self.key)
  }

  function Granted(s: Shared, p: Poller, now: int, leaseMs: int): Shared {
    s.(waiters := Without(s.waiters, p.self.id), leases := s.leases + [NewLease(p, now, leaseMs)])
  }

  /** What one poll does: the poller admits itself exactly when it is eligible. */
  function Polled(s: Shared, p: Poller, now: int, config: Config, beat: bool): Shared {
    var r := Registered(s, p, now, beat);
    if p.self.id in Eligible(r, now, config.agingMs) then Granted(r, p, now, config.leaseMs) else r
  }

  function WithoutLease(leases: seq<Lease>, id: nat, owner: nat): seq<Lease> {
    if leases == [] then []
    else
      var last := leases[|leases| - 1];
      WithoutLease(leases[..|leases| - 1], id, owner) + (if last.id == id && last.owner == owner then [] else [last])
  }

  /** Filtering keeps the length only when it keeps everything. */
  lemma {:induction false} FewerUnlessSame(waiters: seq<Waiter>, leases: seq<Lease>, now: int, leaseMs: int,
    alive: set<nat>)
    ensures |LiveWaiters(waiters, now, leaseMs, alive)| <= |waiters| && |LiveLeases(leases, now, alive)| <= |leases|
    ensures |LiveWaiters(waiters, now, leaseMs, alive)| == |waiters| ==>
      LiveWaiters(waiters, now, leaseMs, alive) == waiters
    ensures |LiveLeases(leases, now, alive)| == |leases| ==> LiveLeases(leases, now, alive) == leases
    decreases |waiters| + |leases|
  {
    if waiters != [] {
      FewerUnlessSame(waiters[..|waiters| - 1], [], now, leaseMs, alive);
    }
    if leases != [] {
      FewerUnlessSame([], leases[..|leases| - 1], now, leaseMs, alive);
    }
  }

  /** The state file as one process sees it under the lock. */
  class SchedulerState {
    var limit: int
    var resourceLimits: Limits
    var waiters: seq<Waiter>
    var leases: seq<Lease>

    ghost function Value(): Shared
      reads this
    {
      Shared(limit, resourceLimits, waiters, leases)
    }

    constructor (config: Config)
      ensures Value() == Shared(config.maxConcurrency, config.resourceLimits, [], [])
    {
      limit, resourceLimits, waiters, leases := config.maxConcurrency, config.resourceLimits, [], [];
    }

    method PruneState(now: int, leaseMs: int, alive: set<nat>) returns (changed: bool)
      modifies this
      ensures Value() == Pruned(old(Value()), now, leaseMs, alive)
      ensures changed <==> Value() != old(Value())
    {
      var originalWaiters, originalLeases := |waiters|, |leases|;
      var keptWaiters: seq<Waiter>, keptLeases: seq<Lease> := [], [];
      for i := 0 to |waiters|
        invariant keptWaiters == LiveWaiters(waiters[..i], now, leaseMs, alive)
      {
        assert waiters[..i + 1][..i] == waiters[..i];
        if WaiterLives(waiters[i], now, leaseMs, alive) {
          keptWaiters := keptWaiters + [waiters[i]];
        }
      }
      for i := 0 to |leases|
        invariant keptLeases == LiveLeases(leases[..i], now, alive)
      {
        assert leases[..i + 1][..i] == leases[..i];
        if LeaseLives(leases[i], now, alive) {
          keptLeases := keptLeases + [leases[i]];
        }
      }
      assert waiters[..|waiters|] == waiters && leases[..|leases|] == leases;
      FewerUnlessSame(waiters, leases, now, leaseMs, alive);
      waiters, leases := keptWaiters, keptLeases;
      changed := |waiters| != originalWaiters || |leases| != originalLeases;
    }

    method ReconcileLimits(config: Config) returns (changed: bool)
      modifies this`limit, this`resourceLimits
      ensures Value() == Reconciled(old(Value()), config)
      ensures changed <==> Value() != old(Value())
    {
      if waiters == [] && leases == [] {
        changed := limit != config.maxConcurrency || resourceLimits != config.resourceLimits;
        limit, resourceLimits := config.maxConcurrency, config.resourceLimits;
        return;
      }
      changed := false;
      if limit > config.maxConcurrency {
        limit, changed := config.maxConcurrency, true;
      }
      var merged := MergeLimits(config.resourceLimits);
      changed := changed || merged;
    }

    method MergeLimits(other: Limits) returns (changed: bool)
      modifies this`resourceLimits
      ensures resourceLimits == Merged(old(resourceLimits), other, other.Keys)
      ensures changed <==> resourceLimits != old(resourceLimits)
    {
      changed := false;
      var rest := other.Keys;
      ghost var done := {};
      while rest != {}
        invariant done + rest == other.Keys && done !! rest
        invariant resourceLimits == Merged(old(resourceLimits), other, done)
        invariant changed <==> resourceLimits != old(resourceLimits)
      {
        var key :| key in rest;
        rest, done := rest - {key}, done + {key};
        if key !in resourceLimits || resourceLimits[key] > other[key] {
          resourceLimits := resourceLimits[key := other[key]];
          changed := true;
        }
      }
    }

    /** Counts the leases by key, then goes through the waiters in order. */
    method ComputeEligible(now: int, agingMs: int) returns (eligible: set<nat>)
      requires UniqueIds(waiters)
      ensures eligible == Eligible(Value(), now, agingMs)
    {
      hide Sorted;
      var available := if limit - |leases| > 0 then limit - |leases| else 0;
      var resourceUsage: Usage := map[];
      for i := 0 to |leases|
        invariant resourceUsage == UsageOf(leases[..i])
      {
        assert leases[..i + 1][..i] == leases[..i];
        if leases[i].key.Some? {
          resourceUsage := resourceUsage[leases[i].key.value := InUse(resourceUsage, leases[i].key) + 1];
        }
      }
      assert leases[..|leases|] == leases;
      var sortedWaiters := Sorted(waiters, now, agingMs);
      SortedIds(waiters, now, agingMs);
      eligible := PickEligible(sortedWaiters, available, resourceUsage);
    }

    method PickEligible(sortedWaiters: seq<Waiter>, available: nat, usage: Usage) returns (eligible: set<nat>)
      requires UniqueIds(sortedWaiters)
      ensures eligible == Greedy(sortedWaiters, available, usage, resourceLimits)
    {
      hide Greedy;
      eligible := {};
      var resourceUsage := usage;
      var i := 0;
      assert sortedWaiters[0..] == sortedWaiters;
      while i < |sortedWaiters|
        invariant i <= |sortedWaiters|
        invariant forall k | i <= k < |sortedWaiters| :: sortedWaiters[k].id !in eligible
        invariant Greedy(sortedWaiters, available, usage, resourceLimits) ==
          eligible + Greedy(sortedWaiters[i..], available - |eligible|, resourceUsage, resourceLimits)
      {
        GreedyStep(sortedWaiters, i, available - |eligible|, resourceUsage, resourceLimits);
        if |eligible| >= available {
          return;
        }
        var candidate := sortedWaiters[i];
        i := i + 1;
        if candidate.key.Some? && candidate.key.value in resourceLimits &&
           InUse(resourceUsage, candidate.key) >= resourceLimits[candidate.key.value] {
          continue;
        }
        eligible := eligible + {candidate.id};
        if candidate.key.Some? {
          resourceUsage := resourceUsage[candidate.key.value := InUse(resourceUsage, candidate.key) + 1];
        }
      }
      assert sortedWaiters[i..] == [];
      GreedyEnd(available - |eligible|, resourceUsage, resourceLimits);
    }

    method Poll(p: Poller, now: int, config: Config, beat: bool) returns (lease: Option<Lease>)
      requires UniqueIds(waiters)
      modifies this`waiters, this`leases
      ensures Value() == Polled(old(Value()), p, now, config, beat)
      ensures lease.Some? <==> p.self.id in Eligible(Registered(old(Value()), p, now, beat), now, config.agingMs)
      ensures lease.Some? ==> lease.value == NewLease(p, now, config.leaseMs) && lease.value in leases
    {
      var i := Find(p.self.id);
      if i == |waiters| {
        waiters := waiters + [p.self];
      } else if beat {
        waiters := waiters[i := waiters[i].(heartbeatAt := now)];
      }
      var eligible := ComputeEligible(now, config.agingMs);
      if p.self.id !in eligible {
        return None;
      }
      waiters := Without(waiters, p.self.id);
      var acquired := NewLease(p, now, config.leaseMs);
      leases := leases + [acquired];
      return Some(acquired);
    }

    method Find(id: nat) returns (i: nat)
      ensures i == Index(waiters, id)
    {
      i := 0;
      while i < |waiters| && waiters[i].id != id
        invariant i <= |waiters|
        invariant forall k | 0 <= k < i :: waiters[k].id != id
      {
        i := i + 1;
      }
      var j := Index(waiters, id);
      assert !(i < j) && !(j < i);
    }

    method Release(id: nat, owner: nat)
      modifies this`leases
      ensures Value() == old(Value()).(leases := WithoutLease(old(leases), id, owner))
    {
      var kept: seq<Lease> := [];
      for i := 0 to |leases|
        invariant kept == WithoutLease(leases[..i], id, owner)
      {
        assert leases[..i + 1][..i] == leases[..i];
        if !(leases[i].id == id && leases[i].owner == owner) {
          kept := kept + [leases[i]];
        }
      }
      assert leases[..|leases|] == leases;
      leases := kept;
    }
  }

  lemma GreedyStep(sorted: seq<Waiter>, i: nat, room: int, usage: Usage, limits: Limits)
    requires i < |sorted|
    ensures Greedy(sorted[i..], room, usage, limits) ==
      if room <= 0 then {}
      else if Exhausted(usage, limits, sorted[i].key) then Greedy(sorted[i + 1..], room, usage, limits)
      else {sorted[i].id} + Greedy(sorted[i + 1..], room - 1, Taken(usage, sorted[i].key), limits)
  {
    assert sorted[i..][1..] == sorted[i + 1..];
  }

  lemma GreedyEnd(room: int, usage: Usage, limits: Limits)
    ensures Greedy([], room, usage, limits) == {}
  {
  }

  // -------------------------------------------------------------------- sorting

  lemma UniqueCons(w: Waiter, rest: seq<Waiter>)
    ensures UniqueIds([w] + rest) <==> UniqueIds(rest) && w.id !in Ids(rest)
    ensures Ids([w] + rest) == {w.id} + Ids(rest)
  {
    var all := [w] + rest;
    assert forall i | 0 <= i < |rest| :: all[i + 1] == rest[i];
    forall id | id in Ids(rest)
      ensures id in Ids(all)
    {
      var i :| 0 <= i < |rest| && rest[i].id == id;
      assert all[i + 1].id == id;
    }
    assert all[0].id == w.id;
  }

  lemma {:induction false} InsertIds(w: Waiter, sorted: seq<Waiter>, now: int, agingMs: int)
    ensures Ids(Insert(w, sorted, now, agingMs)) == {w.id} + Ids(sorted)
    ensures UniqueIds(sorted) && w.id !in Ids(sorted) ==> UniqueIds(Insert(w, sorted, now, agingMs))
  {
    hide Ids, UniqueIds;
    UniqueCons(w, sorted);
    if sorted != [] {
      UniqueCons(sorted[0], sorted[1..]);
      assert [sorted[0]] + sorted[1..] == sorted;
      InsertIds(w, sorted[1..], now, agingMs);
      UniqueCons(sorted[0], Insert(w, sorted[1..], now, agingMs));
    }
  }

  lemma {:induction false} SortedIds(waiters: seq<Waiter>, now: int, agingMs: int)
    ensures Ids(Sorted(waiters, now, agingMs)) == Ids(waiters)
    ensures UniqueIds(waiters) ==> UniqueIds(Sorted(waiters, now, agingMs))
  {
    if waiters != [] {
      hide Ids, UniqueIds, Insert;
      SortedIds(waiters[1..], now, agingMs);
      UniqueCons(waiters[0], waiters[1..]);
      assert [waiters[0]] + waiters[1..] == waiters;
      InsertIds(waiters[0], Sorted(waiters[1..], now, agingMs), now, agingMs);
    }
  }

  lemma {:induction false} InsertKeeps(w: Waiter, sorted: seq<Waiter>, now: int, agingMs: int)
    ensures multiset(Insert(w, sorted, now, agingMs)) == multiset(sorted) + multiset{w}
  {
    hide Before;
    if sorted != [] && !Before(w, sorted[0], now, agingMs) {
      InsertKeeps(w, sorted[1..], now, agingMs);
      assert sorted == [sorted[0]] + sorted[1..];
    }
  }

  predicate BeforeAll(w: Waiter, rest: seq<Waiter>, now: int, agingMs: int) {
    forall j | 0 <= j < |rest| :: Before(w, rest[j], now, agingMs)
  }

  lemma InOrderCons(w: Waiter, rest: seq<Waiter>, now: int, agingMs: int)
    ensures InOrder([w] + rest, now, agingMs) <==> InOrder(rest, now, agingMs) && BeforeAll(w, rest, now, agingMs)
  {
    hide Before;
    var all := [w] + rest;
    assert forall i | 0 <= i < |rest| :: all[i + 1] == rest[i];
    if InOrder(all, now, agingMs) {
      forall i, j | 0 <= i < j < |rest|
        ensures Before(rest[i], rest[j], now, agingMs)
      {
        assert Before(all[i + 1], all[j + 1], now, agingMs);
      }
      forall j | 0 <= j < |rest|
        ensures Before(w, rest[j], now, agingMs)
      {
        assert Before(all[0], all[j + 1], now, agingMs);
      }
    }
  }

  lemma BeforeAllTransitive(a: Waiter, b: Waiter, rest: seq<Waiter>, now: int, agingMs: int)
    requires Before(a, b, now, agingMs) && BeforeAll(b, rest, now, agingMs)
    ensures BeforeAll(a, rest, now, agingMs)
  {
  }

  lemma BeforeTotal(a: Waiter, b: Waiter, now: int, agingMs: int)
    requires a.id != b.id
    ensures Before(a, b, now, agingMs) || Before(b, a, now, agingMs)
  {
  }

  /** Sorting really sorts: the result is in order and holds the same waiters. */
  lemma {:induction false} InsertInOrder(w: Waiter, sorted: seq<Waiter>, now: int, agingMs: int)
    requires InOrder(sorted, now, agingMs) && w.id !in Ids(sorted)
    ensures InOrder(Insert(w, sorted, now, agingMs), now, agingMs)
  {
    hide Before, InOrder, Ids, UniqueIds;
    InOrderCons(w, sorted, now, agingMs);
    if sorted == [] {
      EmptyInOrder(sorted, now, agingMs);
    } else {
      var first, rest := sorted[0], sorted[1..];
      assert [first] + rest == sorted;
      InOrderCons(first, rest, now, agingMs);
      UniqueCons(first, rest);
      if Before(w, first, now, agingMs) {
        BeforeAllTransitive(w, first, rest, now, agingMs);
        BeforeAllCons(w, first, rest, now, agingMs);
      } else {
        BeforeTotal(w, first, now, agingMs);
        InsertInOrder(w, rest, now, agingMs);
        BeforeInserted(first, w, rest, now, agingMs);
        InOrderCons(first, Insert(w, rest, now, agingMs), now, agingMs);
      }
    }
  }

  lemma EmptyInOrder(sorted: seq<Waiter>, now: int, agingMs: int)
    requires sorted == []
    ensures InOrder(sorted, now, agingMs)
  {
  }

  lemma BeforeAllCons(w: Waiter, first: Waiter, rest: seq<Waiter>, now: int, agingMs: int)
    requires Before(w, first, now, agingMs) && BeforeAll(w, rest, now, agingMs)
    ensures BeforeAll(w, [first] + rest, now, agingMs)
  {
  }

  lemma BeforeInserted(first: Waiter, w: Waiter, rest: seq<Waiter>, now: int, agingMs: int)
    requires Before(first, w, now, agingMs) && BeforeAll(first, rest, now, agingMs)
    ensures BeforeAll(first, Insert(w, rest, now, agingMs), now, agingMs)
  {
    hide Before;
    InsertKeeps(w, rest, now, agingMs);
    var r := Insert(w, rest, now, agingMs);
    forall j | 0 <= j < |r|
      ensures Before(first, r[j], now, agingMs)
    {
      assert r[j] in multiset(r);
      assert r[j] in rest || r[j] == w;
    }
  }

  lemma {:induction false} SortedIsSorted(waiters: seq<Waiter>, now: int, agingMs: int)
    requires UniqueIds(waiters)
    ensures InOrder(Sorted(waiters, now, agingMs), now, agingMs)
    ensures multiset(Sorted(waiters, now, agingMs)) == multiset(waiters)
  {
    if waiters != [] {
      hide Ids, UniqueIds, InOrder, Insert;
      assert [waiters[0]] + waiters[1..] == waiters;
      UniqueCons(waiters[0], waiters[1..]);
      SortedIsSorted(waiters[1..], now, agingMs);
      SortedIds(waiters[1..], now, agingMs);
      InsertKeeps(waiters[0], Sorted(waiters[1..], now, agingMs), now, agingMs);
      InsertInOrder(waiters[0], Sorted(waiters[1..], now, agingMs), now, agingMs);
    }
  }
}
