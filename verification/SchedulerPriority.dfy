/** Who goes first (`extensions/_shared/subagent-scheduler.ts`). */
module SchedulerPriority {
  // The order of the waiters and the admissions, in the waiters' own fields.

  import opened Scheduler
  import opened SchedulerProof
  import opened SchedulerLimits
  import opened Wrappers

  /** Background work that has not waited for the aging time. */
  predicate Young(w: Waiter, now: int, agingMs: int) {
    w.priority == Background && now < w.requestedAt + agingMs
  }

  predicate AskedEarlier(a: Waiter, b: Waiter) {
    a.requestedAt < b.requestedAt || (a.requestedAt == b.requestedAt && a.id < b.id)
  }

  /** Foreground waiters and aged ones stand by the time of their request, before all young
      ones, which stand by that time, too. */
  lemma OrderOfWaiters(waiters: seq<Waiter>, now: int, agingMs: int, i: nat, j: nat)
    requires UniqueIds(waiters) && i < j < |Sorted(waiters, now, agingMs)|
    ensures
      var a, b := Sorted(waiters, now, agingMs)[i], Sorted(waiters, now, agingMs)[j];
      || (!Young(a, now, agingMs) && Young(b, now, agingMs))
      || ((Young(a, now, agingMs) <==> Young(b, now, agingMs)) && AskedEarlier(a, b))
  {
    hide Sorted;
    SortedIsSorted(waiters, now, agingMs);
    assert Before(Sorted(waiters, now, agingMs)[i], Sorted(waiters, now, agingMs)[j], now, agingMs);
  }

  /** Young background work never stands before foreground work. */
  lemma ForegroundFirst(waiters: seq<Waiter>, now: int, agingMs: int, i: nat, j: nat)
    requires UniqueIds(waiters) && i < j < |Sorted(waiters, now, agingMs)|
    requires Young(Sorted(waiters, now, agingMs)[i], now, agingMs)
    ensures Sorted(waiters, now, agingMs)[j].priority == Background
  {
    OrderOfWaiters(waiters, now, agingMs, i, j);
  }

  /** Only who asked earlier is ahead of a waiter that has aged, whatever its priority. */
  lemma OnlyEarlierAreAhead(waiters: seq<Waiter>, now: int, agingMs: int, i: nat, j: nat)
    requires UniqueIds(waiters) && i < j < |Sorted(waiters, now, agingMs)|
    requires now - Sorted(waiters, now, agingMs)[j].requestedAt >= agingMs
    ensures AskedEarlier(Sorted(waiters, now, agingMs)[i], Sorted(waiters, now, agingMs)[j])
  {
    OrderOfWaiters(waiters, now, agingMs, i, j);
  }

  // ------------------------------------------------------------------- who is there at all

  /** Of the waiters exactly those stay whose process lives and whose heartbeat is recent,
      and of the leases those whose process lives and that have not expired. */
  lemma {:induction false} LivingExactly(waiters: seq<Waiter>, now: int, leaseMs: int, alive: set<nat>, w: Waiter)
    ensures w in LiveWaiters(waiters, now, leaseMs, alive) <==>
      w in waiters && w.pid in alive && now <= w.heartbeatAt + leaseMs
  {
    if waiters != [] {
      var front, last := waiters[..|waiters| - 1], waiters[|waiters| - 1];
      LivingExactly(front, now, leaseMs, alive, w);
      assert waiters == front + [last];
    }
  }

  lemma {:induction false} UnexpiredExactly(leases: seq<Lease>, now: int, alive: set<nat>, l: Lease)
    ensures l in LiveLeases(leases, now, alive) <==> l in leases && l.pid in alive && now < l.expiresAt
  {
    if leases != [] {
      var front, last := leases[..|leases| - 1], leases[|leases| - 1];
      UnexpiredExactly(front, now, alive, l);
      assert leases == front + [last];
    }
  }

  /** A dead process holds nothing back: after the next mutation neither its waiters nor its
      leases are there. */
  lemma TheDeadHoldNothing(s: Shared, now: int, leaseMs: int, alive: set<nat>, pid: nat)
    requires pid !in alive
    ensures forall w | w in Pruned(s, now, leaseMs, alive).waiters :: w.pid != pid
    ensures forall l | l in Pruned(s, now, leaseMs, alive).leases :: l.pid != pid
  {
    forall w | w in Pruned(s, now, leaseMs, alive).waiters ensures w.pid != pid {
      LivingExactly(s.waiters, now, leaseMs, alive, w);
    }
    forall l | l in Pruned(s, now, leaseMs, alive).leases ensures l.pid != pid {
      UnexpiredExactly(s.leases, now, alive, l);
    }
  }

  /** Who is admitted holds a lease under its own name and key, for as long as it lives and
      for the lease time, and waits no more. */
  lemma AdmissionLasts(s: Shared, p: Poller, now: int, config: Config, beat: bool, later: int, alive: set<nat>)
    requires p.self.id in Eligible(Registered(s, p, now, beat), now, config.agingMs)
    requires later < now + config.leaseMs && p.self.pid in alive
    ensures
      var t := Pruned(Polled(s, p, now, config, beat), later, config.leaseMs, alive);
      && (exists l | l in t.leases :: l.id == p.leaseId && l.waiterId == p.self.id && l.owner == p.self.owner &&
            l.pid == p.self.pid && l.key == p.self.key && l.priority == p.self.priority)
      && p.self.id !in Ids(t.waiters)
  {
    var r, l := Registered(s, p, now, beat), NewLease(p, now, config.leaseMs);
    UnexpiredExactly(r.leases + [l], later, alive, l);
    var left := Without(r.waiters, p.self.id);
    forall w | w in LiveWaiters(left, later, config.leaseMs, alive) ensures w.id != p.self.id {
      LivingExactly(left, later, config.leaseMs, alive, w);
      WithoutExactly(r.waiters, p.self.id, w);
    }
  }

  lemma {:induction false} WithoutExactly(waiters: seq<Waiter>, id: nat, w: Waiter)
    ensures w in Without(waiters, id) <==> w in waiters && w.id != id
  {
    if waiters != [] {
      WithoutExactly(waiters[1..], id, w);
      assert waiters == [waiters[0]] + waiters[1..];
    }
  }

  /** Who polls and is not admitted waits on, with the time of its first request, and with a
      fresh heartbeat when that is due. */
  lemma WaitingLasts(s: Shared, p: Poller, now: int, config: Config, beat: bool)
    requires p.self.id !in Eligible(Registered(s, p, now, beat), now, config.agingMs)
    ensures
      var t := Polled(s, p, now, config, beat);
      && t.leases == s.leases
      && (p.self.id !in Ids(s.waiters) ==> t.waiters == s.waiters + [p.self])
      && (p.self.id in Ids(s.waiters) ==>
            |t.waiters| == |s.waiters| && forall i | 0 <= i < |s.waiters| ::
              t.waiters[i] == s.waiters[i] ||
              (beat && s.waiters[i].id == p.self.id && t.waiters[i] == s.waiters[i].(heartbeatAt := now)))
      && (beat && p.self.id in Ids(s.waiters) ==>
            exists w | w in t.waiters :: w.id == p.self.id && w.heartbeatAt == now)
  {
    hide Eligible;
    var i := Index(s.waiters, p.self.id);
    if i < |s.waiters| {
      assert p.self.id in Ids(s.waiters);
      if beat {
        assert s.waiters[i := s.waiters[i].(heartbeatAt := now)][i].heartbeatAt == now;
      }
    }
  }

  // --------------------------------------------------------------------- admissions

  lemma {:induction false} CountsGrow(sorted: seq<Waiter>, i: nat, j: nat, chosen: set<nat>, key: string)
    requires i <= j <= |sorted|
    ensures ChosenCount(sorted[..i], chosen) <= ChosenCount(sorted[..j], chosen)
    ensures KeyCount(sorted[..i], chosen, key) <= KeyCount(sorted[..j], chosen, key)
  {
    if i > 0 {
      CountsFirst(sorted, i, chosen, key);
      CountsFirst(sorted, j, chosen, key);
      CountsGrow(sorted[1..], i - 1, j - 1, chosen, key);
    }
  }

  /** Who is admitted leaves everybody ahead of it admitted, too, or without room under
      their own key. */
  lemma AheadIsServed(sorted: seq<Waiter>, i: nat, j: nat, room: int, usage: Usage, limits: Limits)
    requires UniqueIds(sorted) && i < j < |sorted| && sorted[j].id in Greedy(sorted, room, usage, limits)
    ensures
      var chosen, key := Greedy(sorted, room, usage, limits), sorted[i].key;
      sorted[i].id in chosen ||
      (key.Some? && key.value in limits &&
       InUse(usage, key) + KeyCount(sorted[..i], chosen, key.value) >= limits[key.value])
  {
    hide Greedy, UniqueIds;
    var chosen := Greedy(sorted, room, usage, limits);
    GreedyMeaning(sorted, i, room, usage, limits);
    GreedyMeaning(sorted, j, room, usage, limits);
    CountsGrow(sorted, i, j, chosen, "");
  }

  /** A key is used up by its leases and by those of its waiters that are admitted. */
  predicate UsedUp(s: Shared, now: int, agingMs: int, key: Option<string>) {
    key.Some? && key.value in s.resourceLimits &&
    KeyLeases(s.leases, key.value) + KeyCount(Sorted(s.waiters, now, agingMs), Eligible(s, now, agingMs), key.value) >=
      s.resourceLimits[key.value]
  }

  lemma AheadInState(s: Shared, now: int, agingMs: int, i: nat, j: nat)
    requires UniqueIds(s.waiters) && i < j < |Sorted(s.waiters, now, agingMs)|
    requires Sorted(s.waiters, now, agingMs)[j].id in Eligible(s, now, agingMs)
    ensures
      var first := Sorted(s.waiters, now, agingMs)[i];
      first.id in Eligible(s, now, agingMs) || UsedUp(s, now, agingMs, first.key)
  {
    hide Sorted, Greedy, UniqueIds, UsageOf;
    SortedIds(s.waiters, now, agingMs);
    var sorted := Sorted(s.waiters, now, agingMs);
    AheadIsServed(sorted, i, j, Room(s), UsageOf(s.leases), s.resourceLimits);
    if sorted[i].key.Some? {
      CountsGrow(sorted, i, |sorted|, Eligible(s, now, agingMs), sorted[i].key.value);
      assert sorted[..|sorted|] == sorted;
      UsageIsCount(s.leases, sorted[i].key.value);
    }
  }

  lemma Standing(waiters: seq<Waiter>, now: int, agingMs: int, w: Waiter) returns (i: nat)
    requires UniqueIds(waiters) && w in waiters
    ensures i < |Sorted(waiters, now, agingMs)| && Sorted(waiters, now, agingMs)[i] == w
  {
    SortedIsSorted(waiters, now, agingMs);
    assert w in multiset(waiters);
    assert w in multiset(Sorted(waiters, now, agingMs));
    i :| 0 <= i < |Sorted(waiters, now, agingMs)| && Sorted(waiters, now, agingMs)[i] == w;
  }

  /** While young background work is admitted, no foreground or aged work is left waiting,
      unless its key is used up. */
  lemma NobodyIsOvertakenByYoungWork(s: Shared, now: int, agingMs: int, young: Waiter, other: Waiter)
    requires UniqueIds(s.waiters) && young in s.waiters && other in s.waiters
    requires Young(young, now, agingMs) && young.id in Eligible(s, now, agingMs)
    requires other.priority == Foreground || now - other.requestedAt >= agingMs
    ensures other.id in Eligible(s, now, agingMs) || UsedUp(s, now, agingMs, other.key)
  {
    hide Sorted, Eligible, UniqueIds, UsedUp;
    var i := Standing(s.waiters, now, agingMs, other);
    var j := Standing(s.waiters, now, agingMs, young);
    if j < i {
      OrderOfWaiters(s.waiters, now, agingMs, j, i);
    }
    AheadInState(s, now, agingMs, i, j);
  }

  /** Nobody who asked later is admitted while an aged waiter is left waiting, unless the key
      of that one is used up. */
  lemma AgedWorkIsNotOvertaken(s: Shared, now: int, agingMs: int, later: Waiter, aged: Waiter)
    requires UniqueIds(s.waiters) && later in s.waiters && aged in s.waiters
    requires now - aged.requestedAt >= agingMs && AskedEarlier(aged, later)
    requires later.id in Eligible(s, now, agingMs)
    ensures aged.id in Eligible(s, now, agingMs) || UsedUp(s, now, agingMs, aged.key)
  {
    hide Sorted, Eligible, UniqueIds, UsedUp;
    var i := Standing(s.waiters, now, agingMs, aged);
    var j := Standing(s.waiters, now, agingMs, later);
    if j < i {
      OrderOfWaiters(s.waiters, now, agingMs, j, i);
    }
    AheadInState(s, now, agingMs, i, j);
  }

  /** The waiter that asked first is served as soon as there is a slot and its key has one,
      once it has aged or when it is foreground work. */
  lemma TheOldestIsServed(s: Shared, now: int, agingMs: int, w: Waiter)
    requires UniqueIds(s.waiters) && w in s.waiters && !Young(w, now, agingMs)
    requires forall x | x in s.waiters && x != w && !Young(x, now, agingMs) :: AskedEarlier(w, x)
    requires |s.leases| < s.limit
    requires w.key.Some? && w.key.value in s.resourceLimits ==>
      KeyLeases(s.leases, w.key.value) < s.resourceLimits[w.key.value]
    ensures w.id in Eligible(s, now, agingMs)
  {
    hide Sorted, UniqueIds, UsageOf;
    var sorted := Sorted(s.waiters, now, agingMs);
    var i := Standing(s.waiters, now, agingMs, w);
    SortedIsSorted(s.waiters, now, agingMs);
    if i > 0 {
      OrderOfWaiters(s.waiters, now, agingMs, 0, i);
      assert sorted[0] in multiset(sorted);
      assert sorted[0] in s.waiters;
      SortedIds(s.waiters, now, agingMs);
      IdsDiffer(sorted, i);
      assert false;
    }
    if w.key.Some? {
      UsageIsCount(s.leases, w.key.value);
    }
  }
}
