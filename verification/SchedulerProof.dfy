/** Decentralised admission behaves like one central allocator, and keeps every limit. */
module SchedulerProof {
  import opened Scheduler
  import opened Wrappers

  // ------------------------------------------------------------- one slot is taken

  lemma TakenCommutes(usage: Usage, a: Option<string>, b: Option<string>)
    ensures Taken(Taken(usage, a), b) == Taken(Taken(usage, b), a)
  {
  }

  /** Who is admitted in the end had room from the start. */
  lemma {:induction false} AdmittedHadRoom(sorted: seq<Waiter>, room: int, usage: Usage, limits: Limits, w: Waiter)
    requires UniqueIds(sorted) && w in sorted && w.id in Greedy(sorted, room, usage, limits)
    ensures room > 0 && !Exhausted(usage, limits, w.key)
  {
    hide UniqueIds, Ids;
    var first, rest := sorted[0], sorted[1..];
    assert [first] + rest == sorted;
    UniqueCons(first, rest);
    if first != w {
      assert w in rest;
      InIds(rest, w);
      if Exhausted(usage, limits, first.key) {
        AdmittedHadRoom(rest, room, usage, limits, w);
      } else {
        AdmittedHadRoom(rest, room - 1, Taken(usage, first.key), limits, w);
      }
    } else if Exhausted(usage, limits, first.key) {
      GreedyAmong(rest, room, usage, limits);
    }
  }

  lemma InIds(waiters: seq<Waiter>, w: Waiter)
    requires w in waiters
    ensures w.id in Ids(waiters)
  {
  }

  lemma {:induction false} GreedyAmong(sorted: seq<Waiter>, room: int, usage: Usage, limits: Limits)
    ensures Greedy(sorted, room, usage, limits) <= Ids(sorted)
  {
    hide Ids;
    if sorted != [] && room > 0 {
      var first, rest := sorted[0], sorted[1..];
      assert [first] + rest == sorted;
      UniqueCons(first, rest);
      GreedyAmong(rest, room, usage, limits);
      GreedyAmong(rest, room - 1, Taken(usage, first.key), limits);
    }
  }

  lemma WithoutCons(first: Waiter, rest: seq<Waiter>, id: nat)
    ensures Without([first] + rest, id) == (if first.id == id then [] else [first]) + Without(rest, id)
  {
    assert ([first] + rest)[1..] == rest;
  }

  lemma {:induction false} WithoutNone(waiters: seq<Waiter>, id: nat)
    requires id !in Ids(waiters)
    ensures Without(waiters, id) == waiters
  {
    hide Ids;
    if waiters != [] {
      assert [waiters[0]] + waiters[1..] == waiters;
      UniqueCons(waiters[0], waiters[1..]);
      WithoutNone(waiters[1..], id);
    }
  }

  /** The heart of it: when one of the admitted takes its slot, exactly the others stay
      admitted, although room and usage have changed for everybody before it too. */
  lemma {:induction false} TakingOneSlot(sorted: seq<Waiter>, room: int, usage: Usage, limits: Limits, w: Waiter)
    requires UniqueIds(sorted) && w in sorted && w.id in Greedy(sorted, room, usage, limits)
    ensures Greedy(Without(sorted, w.id), room - 1, Taken(usage, w.key), limits) ==
      Greedy(sorted, room, usage, limits) - {w.id}
  {
    hide UniqueIds, Ids, Exhausted, Taken, Greedy, Without;
    var first, rest := sorted[0], sorted[1..];
    assert [first] + rest == sorted;
    UniqueCons(first, rest);
    WithoutCons(first, rest, w.id);
    AdmittedHadRoom(sorted, room, usage, limits, w);
    if first == w {
      WithoutNone(rest, w.id);
      assert [] + rest == rest;
      AdmittedFirst(first, rest, room, usage, limits);
      GreedyAmong(rest, room - 1, Taken(usage, first.key), limits);
    } else {
      assert w in rest;
      InIds(rest, w);
      var left := Without(rest, w.id);
      if Exhausted(usage, limits, first.key) {
        DeniedFirst(first, rest, room, usage, limits);
        TakingOneSlot(rest, room, usage, limits, w);
        StaysExhausted(usage, limits, w.key, first.key);
        DeniedFirst(first, left, room - 1, Taken(usage, w.key), limits);
      } else {
        AdmittedFirst(first, rest, room, usage, limits);
        TakingOneSlot(rest, room - 1, Taken(usage, first.key), limits, w);
        AdmittedHadRoom(rest, room - 1, Taken(usage, first.key), limits, w);
        HadRoomForBoth(usage, limits, first.key, w.key);
        TakenCommutes(usage, first.key, w.key);
        AdmittedFirst(first, left, room - 1, Taken(usage, w.key), limits);
      }
    }
  }

  lemma DeniedFirst(first: Waiter, rest: seq<Waiter>, room: int, usage: Usage, limits: Limits)
    requires Exhausted(usage, limits, first.key)
    ensures Greedy([first] + rest, room, usage, limits) == Greedy(rest, room, usage, limits)
  {
    assert ([first] + rest)[1..] == rest;
  }

  lemma AdmittedFirst(first: Waiter, rest: seq<Waiter>, room: int, usage: Usage, limits: Limits)
    requires room > 0 && !Exhausted(usage, limits, first.key)
    ensures Greedy([first] + rest, room, usage, limits) ==
      {first.id} + Greedy(rest, room - 1, Taken(usage, first.key), limits)
  {
    assert ([first] + rest)[1..] == rest;
  }

  lemma StaysExhausted(usage: Usage, limits: Limits, taken: Option<string>, key: Option<string>)
    requires Exhausted(usage, limits, key)
    ensures Exhausted(Taken(usage, taken), limits, key)
  {
  }

  lemma HadRoomForBoth(usage: Usage, limits: Limits, first: Option<string>, later: Option<string>)
    requires !Exhausted(usage, limits, first) && !Exhausted(Taken(usage, first), limits, later)
    ensures !Exhausted(Taken(usage, later), limits, first)
  {
  }

  // -------------------------------------------------- an independent meaning of greedy

  function KeyCount(sorted: seq<Waiter>, chosen: set<nat>, key: string): nat {
    if sorted == [] then 0
    else (if sorted[0].id in chosen && sorted[0].key == Some(key) then 1 else 0) + KeyCount(sorted[1..], chosen, key)
  }

  function ChosenCount(sorted: seq<Waiter>, chosen: set<nat>): nat {
    if sorted == [] then 0 else (if sorted[0].id in chosen then 1 else 0) + ChosenCount(sorted[1..], chosen)
  }

  /** A waiter is chosen exactly when those chosen before it leave it room, in all and
      under its key. */
  predicate Deserves(sorted: seq<Waiter>, i: nat, chosen: set<nat>, room: int, usage: Usage, limits: Limits)
    requires i < |sorted|
  {
    var w := sorted[i];
    && ChosenCount(sorted[..i], chosen) < room
    && (w.key.Some? && w.key.value in limits ==>
          InUse(usage, w.key) + KeyCount(sorted[..i], chosen, w.key.value) < limits[w.key.value])
  }

  lemma CountsFirst(sorted: seq<Waiter>, i: nat, chosen: set<nat>, key: string)
    requires 0 < i <= |sorted|
    ensures ChosenCount(sorted[..i], chosen) ==
      (if sorted[0].id in chosen then 1 else 0) + ChosenCount(sorted[1..][..i - 1], chosen)
    ensures KeyCount(sorted[..i], chosen, key) ==
      (if sorted[0].id in chosen && sorted[0].key == Some(key) then 1 else 0) +
        KeyCount(sorted[1..][..i - 1], chosen, key)
  {
    assert sorted[..i][1..] == sorted[1..][..i - 1];
  }

  lemma {:induction false} CountsAgree(sorted: seq<Waiter>, a: set<nat>, b: set<nat>, key: string)
    requires forall i | 0 <= i < |sorted| :: sorted[i].id in a <==> sorted[i].id in b
    ensures ChosenCount(sorted, a) == ChosenCount(sorted, b) && KeyCount(sorted, a, key) == KeyCount(sorted, b, key)
  {
    if sorted != [] {
      CountsAgree(sorted[1..], a, b, key);
    }
  }

  /** The greedy choice is the one that gives every waiter what it deserves. */
  lemma {:induction false} GreedyMeaning(sorted: seq<Waiter>, i: nat, room: int, usage: Usage, limits: Limits)
    requires UniqueIds(sorted) && i < |sorted|
    ensures
      var chosen := Greedy(sorted, room, usage, limits);
      sorted[i].id in chosen <==> Deserves(sorted, i, chosen, room, usage, limits)
  {
    hide Exhausted, UniqueIds, Ids;
    var first, rest := sorted[0], sorted[1..];
    assert [first] + rest == sorted;
    UniqueCons(first, rest);
    GreedyAmong(rest, room, usage, limits);
    GreedyAmong(rest, room - 1, Taken(usage, first.key), limits);
    var chosen := Greedy(sorted, room, usage, limits);
    if i == 0 {
      assert sorted[..0] == [];
      FirstDeserves(sorted, chosen, room, usage, limits);
    } else {
      IdsDiffer(sorted, i);
      var out := room <= 0 || Exhausted(usage, limits, first.key);
      var room', usage' := if out then room else room - 1, if out then usage else Taken(usage, first.key);
      var chosen' := Greedy(rest, room', usage', limits);
      GreedyMeaning(rest, i - 1, room', usage', limits);
      var key := if sorted[i].key.Some? then sorted[i].key.value else "";
      CountsFirst(sorted, i, chosen, key);
      var front := rest[..i - 1];
      forall j | 0 <= j < |front|
        ensures front[j].id in chosen <==> front[j].id in chosen'
      {
        IdsDiffer(sorted, j + 1);
      }
      CountsAgree(front, chosen, chosen', key);
    }
  }

  lemma FirstDeserves(sorted: seq<Waiter>, chosen: set<nat>, room: int, usage: Usage, limits: Limits)
    requires |sorted| > 0
    ensures Deserves(sorted, 0, chosen, room, usage, limits) <==> room > 0 && !Exhausted(usage, limits, sorted[0].key)
  {
    assert sorted[..0] == [];
  }

  lemma IdsDiffer(sorted: seq<Waiter>, i: nat)
    requires UniqueIds(sorted) && 0 < i < |sorted|
    ensures sorted[i].id != sorted[0].id
  {
  }

  // ------------------------------------------------------------------- whole states

  lemma {:induction false} WithoutInsert(w: Waiter, sorted: seq<Waiter>, id: nat, now: int, agingMs: int)
    requires InOrder(sorted, now, agingMs) && w.id !in Ids(sorted)
    ensures Without(Insert(w, sorted, now, agingMs), id) ==
      if w.id == id then Without(sorted, id) else Insert(w, Without(sorted, id), now, agingMs)
  {
    hide Before, InOrder, Ids;
    WithoutCons(w, sorted, id);
    assert [] + Without(sorted, id) == Without(sorted, id);
    if sorted != [] {
      var first, rest := sorted[0], sorted[1..];
      assert [first] + rest == sorted;
      UniqueCons(first, rest);
      InOrderCons(first, rest, now, agingMs);
      WithoutCons(first, rest, id);
      assert [] + Without(rest, id) == Without(rest, id);
      if Before(w, first, now, agingMs) {
        WithoutStaysBehind(w, first, rest, id, now, agingMs);
      } else {
        WithoutInsert(w, rest, id, now, agingMs);
        WithoutCons(first, Insert(w, rest, now, agingMs), id);
        if first.id != id {
          assert ([first] + Without(rest, id))[1..] == Without(rest, id);
        }
      }
    }
  }

  lemma {:induction false} WithoutSubset(rest: seq<Waiter>, id: nat, w: Waiter, now: int, agingMs: int)
    requires BeforeAll(w, rest, now, agingMs)
    ensures BeforeAll(w, Without(rest, id), now, agingMs)
  {
    hide Before;
    if rest != [] {
      WithoutSubset(rest[1..], id, w, now, agingMs);
    }
  }

  lemma WithoutStaysBehind(w: Waiter, first: Waiter, rest: seq<Waiter>, id: nat, now: int, agingMs: int)
    requires Before(w, first, now, agingMs) && BeforeAll(first, rest, now, agingMs)
    ensures
      var left := Without([first] + rest, id);
      Insert(w, left, now, agingMs) == [w] + left
  {
    hide Before;
    BeforeAllTransitive(w, first, rest, now, agingMs);
    BeforeAllCons(w, first, rest, now, agingMs);
    WithoutSubset([first] + rest, id, w, now, agingMs);
  }

  lemma {:induction false} SortedWithout(waiters: seq<Waiter>, id: nat, now: int, agingMs: int)
    requires UniqueIds(waiters)
    ensures Sorted(Without(waiters, id), now, agingMs) == Without(Sorted(waiters, now, agingMs), id)
  {
    if waiters != [] {
      hide Ids, UniqueIds, Insert, InOrder;
      var first, rest := waiters[0], waiters[1..];
      assert [first] + rest == waiters;
      UniqueCons(first, rest);
      SortedWithout(rest, id, now, agingMs);
      SortedIds(rest, now, agingMs);
      SortedIsSorted(rest, now, agingMs);
      WithoutInsert(first, Sorted(rest, now, agingMs), id, now, agingMs);
      if first.id == id {
        assert [] + Without(rest, id) == Without(rest, id);
      } else {
        assert ([first] + Without(rest, id))[1..] == Without(rest, id);
      }
    }
  }

  lemma UsageSnoc(leases: seq<Lease>, l: Lease)
    ensures UsageOf(leases + [l]) == Taken(UsageOf(leases), l.key)
  {
    assert (leases + [l])[..|leases|] == leases;
  }

  /** The poller waits under its own id and key. */
  predicate WaitsAs(waiters: seq<Waiter>, p: Poller) {
    exists i | 0 <= i < |waiters| :: waiters[i].id == p.self.id && waiters[i].key == p.self.key
  }

  lemma SortedHas(waiters: seq<Waiter>, w: Waiter, now: int, agingMs: int)
    requires UniqueIds(waiters) && w in waiters
    ensures w in Sorted(waiters, now, agingMs)
  {
    hide UniqueIds, InOrder;
    SortedIsSorted(waiters, now, agingMs);
    assert w in multiset(waiters);
  }

  /** Confluence: when one eligible waiter takes its lease, recomputing gives exactly the
      other eligible waiters. */
  lemma TakingLeavesTheOthers(s: Shared, p: Poller, now: int, config: Config)
    requires UniqueIds(s.waiters) && WaitsAs(s.waiters, p) && p.self.id in Eligible(s, now, config.agingMs)
    ensures Eligible(Granted(s, p, now, config.leaseMs), now, config.agingMs) ==
      Eligible(s, now, config.agingMs) - {p.self.id}
  {
    hide UniqueIds, Ids, Sorted, Greedy, UsageOf;
    var i :| 0 <= i < |s.waiters| && s.waiters[i].id == p.self.id && s.waiters[i].key == p.self.key;
    var w := s.waiters[i];
    var sorted := Sorted(s.waiters, now, config.agingMs);
    SortedHas(s.waiters, w, now, config.agingMs);
    SortedIds(s.waiters, now, config.agingMs);
    TakingOneSlot(sorted, Room(s), UsageOf(s.leases), s.resourceLimits, w);
    AdmittedHadRoom(sorted, Room(s), UsageOf(s.leases), s.resourceLimits, w);
    SortedWithout(s.waiters, w.id, now, config.agingMs);
    UsageSnoc(s.leases, NewLease(p, now, config.leaseMs));
  }
}
