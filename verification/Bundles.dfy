/** Loading tool bundles under a cap on active tools (`extensions/integration-bundles/index.ts`). */
module Bundles {
  import opened Wrappers

  /** A bundle; `matched` tells whether each of its patterns names a registered tool. */
  datatype Bundle = Bundle(tools: set<string>, matched: bool, loaded: bool, loadedAt: nat)

  /** What one decision depends on besides the bundles. `names` lists the bundles in the
      order they were registered. */
  datatype Policy = Policy(names: seq<string>, known: set<string>, eligible: set<string>, indirect: set<string>,
                           manual: set<string>, routerTools: set<string>, alwaysLoad: set<string>, cap: Option<nat>)

  type BundleMap = map<string, Bundle>

  ghost predicate WellFormed(p: Policy, bundles: BundleMap) {
    && (forall i, j | 0 <= i < j < |p.names| :: p.names[i] != p.names[j])
    && (forall n :: n in p.names <==> n in bundles)
  }

  predicate IsEligible(p: Policy, tool: string) {
    tool in p.eligible || tool in p.indirect
  }

  function BundleTools(bundles: BundleMap): set<string> {
    set n, t | n in bundles && t in bundles[n].tools :: t
  }

  /** Base and manual tools, and the pinned router tools. */
  function BaseTools(p: Policy, bundles: BundleMap): set<string> {
    (set t | t in p.known && t in p.eligible && (t !in BundleTools(bundles) || t in p.manual)) +
    (set t | t in p.routerTools && t in p.known && t in p.eligible)
  }

  function LoadedTools(p: Policy, bundles: BundleMap): set<string> {
    set n, t | n in bundles && bundles[n].loaded && t in bundles[n].tools && IsEligible(p, t) :: t
  }

  function Desired(p: Policy, bundles: BundleMap): set<string> {
    BaseTools(p, bundles) + LoadedTools(p, bundles)
  }

  predicate Fits(p: Policy, bundles: BundleMap) {
    p.cap.Some? ==> |Desired(p, bundles)| <= p.cap.value
  }

  function SetLoaded(bundles: BundleMap, name: string, loaded: bool): BundleMap
    requires name in bundles
  {
    bundles[name := bundles[name].(loaded := loaded)]
  }

  // ------------------------------------------------------------------- eviction

  predicate MayEvict(p: Policy, bundles: BundleMap, name: string, except: Option<string>) {
    name in bundles && bundles[name].loaded && name !in p.alwaysLoad && Some(name) != except
  }

  /** Older loads first; bundles loaded at the same time stay in their order. */
  function InsertByLoad(name: string, sorted: seq<string>, bundles: BundleMap): (r: seq<string>)
    requires name in bundles && forall n | n in sorted :: n in bundles
    ensures forall n :: n in r <==> n == name || n in sorted
    ensures |r| == |sorted| + 1
  {
    if sorted == [] || bundles[name].loadedAt <= bundles[sorted[0]].loadedAt then [name] + sorted
    else [sorted[0]] + InsertByLoad(name, sorted[1..], bundles)
  }

  /** What may be evicted, least recently loaded first. */
  function Evictable(p: Policy, names: seq<string>, bundles: BundleMap, except: Option<string>): (r: seq<string>)
    ensures forall n :: n in r <==> n in names && MayEvict(p, bundles, n, except)
  {
    if names == [] then []
    else if MayEvict(p, bundles, names[0], except) then
      InsertByLoad(names[0], Evictable(p, names[1..], bundles, except), bundles)
    else Evictable(p, names[1..], bundles, except)
  }

  /** The first so many are unloaded. */
  function Evicted(bundles: BundleMap, order: seq<string>, k: nat): (r: BundleMap)
    requires k <= |order| && forall n | n in order :: n in bundles
    ensures r.Keys == bundles.Keys
  {
    if k == 0 then bundles else SetLoaded(Evicted(bundles, order, k - 1), order[k - 1], false)
  }

  /** The shortest prefix of the order whose eviction makes the tools fit, or all of it. */
  predicate Shortest(p: Policy, bundles: BundleMap, order: seq<string>, k: nat)
    requires k <= |order| && forall n | n in order :: n in bundles
  {
    && (forall i | 0 <= i < k :: !Fits(p, Evicted(bundles, order, i)))
    && (Fits(p, Evicted(bundles, order, k)) || k == |order|)
  }

  /** Loading the bundle and evicting others, oldest load first, until the tools fit. */
  ghost predicate Preflight(p: Policy, before: BundleMap, name: string, k: nat, made: BundleMap)
    requires name in before
    ensures Preflight(p, before, name, k, made) ==> made.Keys == before.Keys
  {
    var asked := SetLoaded(before, name, true);
    var order := Evictable(p, p.names, asked, Some(name));
    k <= |order| && Shortest(p, asked, order, k) && made == Evicted(asked, order, k)
  }

  /** The load passes the preflight, but Pi does not activate all its tools. */
  ghost predicate LeavesHalfDone(p: Policy, before: BundleMap, name: string, activated: set<string> -> set<string>) {
    name in before && Unavailable(p, before[name]).None? &&
    exists k: nat, made :: Preflight(p, before, name, k, made) && Fits(p, made) &&
      !(before[name].tools <= activated(Desired(p, made)))
  }

  function Dated(bundles: BundleMap, name: string, at: nat): BundleMap
    requires name in bundles
  {
    bundles[name := bundles[name].(loadedAt := at)]
  }

  datatype Reason = Unknown | Unmatched | Excluded | CannotFit | NotActivated

  datatype Answer = Done | Failed(why: Reason)

  function Unavailable(p: Policy, b: Bundle): Option<Reason> {
    if b.tools == {} || !b.matched then Some(Unmatched)
    else if exists t | t in b.tools :: !IsEligible(p, t) then Some(Excluded)
    else None
  }

  /** The extension's bundle state. */
  class ExtensionState {
    var policy: Policy
    var bundles: BundleMap
    var loadSequence: nat
    var active: set<string>
    var overBudget: bool

    constructor (policy: Policy, bundles: BundleMap)
      ensures this.policy == policy && this.bundles == bundles && loadSequence == 0 && active == {} && !overBudget
    {
      this.policy, this.bundles, loadSequence, active, overBudget := policy, bundles, 0, {}, false;
    }

    /** Unloads along the order until the tools fit. */
    method EvictUntilFits(order: seq<string>) returns (k: nat)
      requires forall n | n in order :: n in bundles
      modifies `bundles
      ensures k <= |order| && (forall n | n in order :: n in old(bundles))
      ensures Shortest(policy, old(bundles), order, k) && bundles == Evicted(old(bundles), order, k)
    {
      hide Fits, SetLoaded;
      k := 0;
      while k < |order|
        invariant k <= |order| && bundles == Evicted(old(bundles), order, k)
        invariant forall i | 0 <= i < k :: !Fits(policy, Evicted(old(bundles), order, i))
      {
        if policy.cap.None? || |Desired(policy, bundles)| <= policy.cap.value {
          assert Fits(policy, bundles) by { FitsMeans(policy, bundles); }
          return;
        }
        assert !Fits(policy, bundles) by { FitsMeans(policy, bundles); }
        bundles := SetLoaded(bundles, order[k], false);
        k := k + 1;
      }
    }

    method EnforceModelCap() returns (evicted: nat)
      modifies `bundles
      ensures var order := Evictable(policy, policy.names, old(bundles), None);
        && evicted <= |order| && Shortest(policy, old(bundles), order, evicted)
        && bundles == Evicted(old(bundles), order, evicted)
    {
      if policy.cap.None? || |Desired(policy, bundles)| <= policy.cap.value {
        return 0;
      }
      evicted := EvictUntilFits(Evictable(policy, policy.names, bundles, None));
    }

    /** Pi activates what it is given, as far as it will. */
    method ApplyActiveSet(activated: set<string> -> set<string>)
      modifies this
      ensures policy == old(policy) && loadSequence == old(loadSequence)
      ensures var order := Evictable(policy, policy.names, old(bundles), None);
        exists k | 0 <= k <= |order| ::
          Shortest(policy, old(bundles), order, k) && bundles == Evicted(old(bundles), order, k)
      ensures active == activated(Desired(policy, bundles)) && (overBudget <==> !Fits(policy, bundles))
    {
      var evicted := EnforceModelCap();
      var desired := Desired(policy, bundles);
      overBudget := policy.cap.Some? && |desired| > policy.cap.value;
      active := activated(desired);
    }

    /** Loads the bundle and evicts others as long as that is needed, or, when that does not
        make room, puts every bundle back. */
    method PreflightLoad(name: string) returns (fits: bool, ghost k: nat, ghost made: BundleMap)
      requires name in bundles
      modifies `bundles
      ensures name in old(bundles) && Preflight(policy, old(bundles), name, k, made) && (fits <==> Fits(policy, made))
      ensures bundles == if fits then made else old(bundles)
    {
      hide Fits, Desired, Evictable, Evicted, Shortest;
      var snapshot := bundles;
      bundles := SetLoaded(bundles, name, true);
      var order := Evictable(policy, policy.names, bundles, Some(name));
      k := EvictUntilFits(order);
      made := bundles;
      FitsMeans(policy, made);
      fits := policy.cap.None? || |Desired(policy, bundles)| <= policy.cap.value;
      if !fits {
        bundles := snapshot;
      }
    }

    /** The load that fits becomes the latest one and is activated. */
    method ActivateLoad(name: string, activated: set<string> -> set<string>) returns (a: Answer)
      requires name in bundles && bundles[name].loaded && Fits(policy, bundles)
      modifies this
      ensures policy == old(policy) && loadSequence == old(loadSequence) + 1
      ensures bundles == Dated(old(bundles), name, loadSequence) &&
        Desired(policy, bundles) == Desired(policy, old(bundles))
      ensures active == activated(Desired(policy, bundles))
      ensures a == if bundles[name].tools <= active then Done else Failed(NotActivated)
    {
      hide Fits, Desired, Evictable, Evicted, Shortest;
      ghost var made := bundles;
      loadSequence := loadSequence + 1;
      bundles := Dated(bundles, name, loadSequence);
      ghost var dated := bundles;
      DateDoesNotMatter(policy, made, name, loadSequence);
      ApplyActiveSet(activated);
      NothingMoreToEvict(policy, dated, bundles);
      a := if !bundles[name].loaded || !(bundles[name].tools <= active) then Failed(NotActivated) else Done;
    }

    /** A requested load: all or nothing, unless Pi leaves the bundle inactive. */
    method RequestLoad(name: string, activated: set<string> -> set<string>) returns (a: Answer)
      requires WellFormed(policy, bundles)
      modifies this
      ensures policy == old(policy)
      ensures name !in old(bundles) ==> a == Failed(Unknown)
      ensures name in old(bundles) && Unavailable(policy, old(bundles)[name]).Some? ==>
        a == Failed(Unavailable(policy, old(bundles)[name]).value)
      ensures name in old(bundles) && Unavailable(policy, old(bundles)[name]).None? ==>
        exists k: nat, made :: Preflight(policy, old(bundles), name, k, made) &&
          if !Fits(policy, made) then a == Failed(CannotFit)
          else
            && bundles == Dated(made, name, old(loadSequence) + 1) && loadSequence == old(loadSequence) + 1
            && active == activated(Desired(policy, bundles))
            && a == (if bundles[name].tools <= active then Done else Failed(NotActivated))
      ensures a.Failed? && a.why != NotActivated ==>
        bundles == old(bundles) && active == old(active) && loadSequence == old(loadSequence)
      ensures LeavesHalfDone(old(policy), old(bundles), name, activated) <==> a == Failed(NotActivated)
      ensures LeavesHalfDone(old(policy), old(bundles), name, activated) <==>
        !(a == Done || (bundles == old(bundles) && active == old(active) && loadSequence == old(loadSequence)))
      ensures a == Done ==> name in bundles && bundles[name].loaded && bundles[name].tools <= active
      ensures a == Done && policy.cap.Some? && (forall s :: activated(s) <= s) ==> |active| <= policy.cap.value
      ensures bundles.Keys == old(bundles).Keys
      ensures forall n | n in old(bundles) && n in policy.alwaysLoad && n != name :: bundles[n] == old(bundles)[n]
    {
      hide Fits, Desired, Evictable, Evicted, Shortest, Unavailable, Preflight, LeavesHalfDone, SetLoaded;
      if name !in bundles {
        assert !LeavesHalfDone(policy, bundles, name, activated) by { NoLoadNoHalf(policy, bundles, name, activated); }
        return Failed(Unknown);
      }
      var reason := Unavailable(policy, bundles[name]);
      if reason.Some? {
        assert !LeavesHalfDone(policy, bundles, name, activated) by { NoLoadNoHalf(policy, bundles, name, activated); }
        NeverBlamesPi(policy, bundles[name]);
        return Failed(reason.value);
      }
      ghost var before := bundles;
      var fits, k, made := PreflightLoad(name);
      HalfDoneIs(policy, before, name, k, made, activated);
      if !fits {
        return Failed(CannotFit);
      }
      LoadedWithinCap(policy, before, name, k, made);
      a := ActivateLoad(name, activated);
      if forall s :: activated(s) <= s {
        SubsetSize(active, Desired(policy, made));
      }
    }
  }

  /** A load that Pi does not activate fails, and the bundle is loaded all the same. */
  method UnactivatedLoadStays() returns (a: Answer, s: ExtensionState)
    ensures a == Failed(NotActivated) && "b" in s.bundles && s.bundles["b"].loaded && s.active == {}
  {
    hide Preflight, Fits, Desired, Unavailable;
    var b := Bundle({"t"}, true, false, 0);
    var policy := Policy(["b"], {"t"}, {"t"}, {}, {}, {}, {}, None);
    s := new ExtensionState(policy, map["b" := b]);
    a := s.RequestLoad("b", _ => {});
    assert Unavailable(policy, b).None? by { Available(policy, b); }
    ghost var k: nat, made: BundleMap :| Preflight(policy, map["b" := b], "b", k, made) &&
      if !Fits(policy, made) then a == Failed(CannotFit)
      else
        s.bundles == Dated(made, "b", 1) && s.active == {} &&
        a == (if s.bundles["b"].tools <= s.active then Done else Failed(NotActivated));
    FitsMeans(policy, made);
    UnactivatedIsLoaded(policy, b, k, made);
    assert "t" in s.bundles["b"].tools;
  }

  lemma Available(p: Policy, b: Bundle)
    requires b.tools != {} && b.matched && forall t | t in b.tools :: t in p.eligible
    ensures Unavailable(p, b).None?
  {
  }

  lemma UnactivatedIsLoaded(policy: Policy, b: Bundle, k: nat, made: BundleMap)
    requires policy.cap.None? && Unavailable(policy, b).None? && Preflight(policy, map["b" := b], "b", k, made)
    ensures made["b"].loaded && made["b"].tools == b.tools
  {
    hide Preflight;
    LoadedWithinCap(policy, map["b" := b], "b", k, made);
    SameTools(policy, map["b" := b], "b", k, made);
  }

  // ------------------------------------------------------------------------- proofs

  lemma FitsMeans(p: Policy, bundles: BundleMap)
    ensures Fits(p, bundles) <==> p.cap.None? || |Desired(p, bundles)| <= p.cap.value
  {
  }

  lemma DateDoesNotMatter(p: Policy, bundles: BundleMap, name: string, at: nat)
    requires name in bundles
    ensures var dated := Dated(bundles, name, at);
      Desired(p, dated) == Desired(p, bundles) && (Fits(p, dated) <==> Fits(p, bundles))
  {
    var dated := Dated(bundles, name, at);
    assert BundleTools(dated) == BundleTools(bundles) by {
      forall t | t in BundleTools(bundles)
        ensures t in BundleTools(dated)
      {
        var n :| n in bundles && t in bundles[n].tools;
        assert n in dated && t in dated[n].tools;
      }
      forall t | t in BundleTools(dated)
        ensures t in BundleTools(bundles)
      {
        var n :| n in dated && t in dated[n].tools;
        assert n in bundles && t in bundles[n].tools;
      }
    }
    assert LoadedTools(p, dated) == LoadedTools(p, bundles) by {
      forall t | t in LoadedTools(p, bundles)
        ensures t in LoadedTools(p, dated)
      {
        var n :| n in bundles && bundles[n].loaded && t in bundles[n].tools && IsEligible(p, t);
        assert n in dated && dated[n].loaded && t in dated[n].tools;
      }
      forall t | t in LoadedTools(p, dated)
        ensures t in LoadedTools(p, bundles)
      {
        var n :| n in dated && dated[n].loaded && t in dated[n].tools && IsEligible(p, t);
        assert n in bundles && bundles[n].loaded && t in bundles[n].tools;
      }
    }
  }

  /** When the tools fit already, the shortest prefix is empty. */
  lemma NothingMoreToEvict(p: Policy, before: BundleMap, after: BundleMap)
    requires Fits(p, before)
    requires var order := Evictable(p, p.names, before, None);
      exists k | 0 <= k <= |order| :: Shortest(p, before, order, k) && after == Evicted(before, order, k)
    ensures after == before
  {
    hide Fits, Evictable;
    var order := Evictable(p, p.names, before, None);
    var k :| 0 <= k <= |order| && Shortest(p, before, order, k) && after == Evicted(before, order, k);
    assert Evicted(before, order, 0) == before;
  }

  /** Eviction unloads exactly the bundles of the prefix and changes nothing else. */
  lemma {:induction false} EvictedExactly(bundles: BundleMap, order: seq<string>, k: nat, name: string)
    requires k <= |order| && (forall n | n in order :: n in bundles) && name in bundles
    ensures
      var r := Evicted(bundles, order, k);
      r[name] == if name in order[..k] then bundles[name].(loaded := false) else bundles[name]
  {
    if k > 0 {
      EvictedExactly(bundles, order, k - 1, name);
      assert order[..k] == order[..k - 1] + [order[k - 1]];
    }
  }

  predicate ByLoad(order: seq<string>, bundles: BundleMap)
    requires forall n | n in order :: n in bundles
  {
    forall i, j | 0 <= i < j < |order| :: bundles[order[i]].loadedAt <= bundles[order[j]].loadedAt
  }

  lemma {:induction false} InsertOrdered(name: string, sorted: seq<string>, bundles: BundleMap)
    requires name in bundles && (forall n | n in sorted :: n in bundles) && ByLoad(sorted, bundles)
    ensures ByLoad(InsertByLoad(name, sorted, bundles), bundles)
  {
    if sorted != [] && bundles[name].loadedAt > bundles[sorted[0]].loadedAt {
      var rest := sorted[1..];
      InsertOrdered(name, rest, bundles);
      var r := InsertByLoad(name, rest, bundles);
      forall j | 0 <= j < |r|
        ensures bundles[sorted[0]].loadedAt <= bundles[r[j]].loadedAt
      {
        assert r[j] in r;
        if r[j] != name {
          var k :| 0 <= k < |rest| && rest[k] == r[j];
          assert bundles[sorted[0]].loadedAt <= bundles[sorted[k + 1]].loadedAt;
        }
      }
    }
  }

  /** The order of eviction is the order of loading. */
  lemma {:induction false} EvictableOrdered(p: Policy, names: seq<string>, bundles: BundleMap, except: Option<string>)
    ensures ByLoad(Evictable(p, names, bundles, except), bundles)
  {
    if names != [] {
      EvictableOrdered(p, names[1..], bundles, except);
      if MayEvict(p, bundles, names[0], except) {
        InsertOrdered(names[0], Evictable(p, names[1..], bundles, except), bundles);
      }
    }
  }

  /** What a load that fits leaves: the bundle fully active, the tools within the cap, and
      every pinned or unloaded bundle as it was. */
  lemma LoadedWithinCap(p: Policy, before: BundleMap, name: string, k: nat, made: BundleMap)
    requires name in before && Unavailable(p, before[name]).None? && Preflight(p, before, name, k, made) &&
      Fits(p, made)
    ensures made[name].loaded && before[name].tools <= Desired(p, made)
    ensures p.cap.Some? ==> |Desired(p, made)| <= p.cap.value
    ensures forall n | n in before && n in p.alwaysLoad && n != name :: made[n] == before[n]
    ensures forall n | n in before && n != name && !before[n].loaded :: made[n] == before[n]
  {
    hide Evictable, Evicted;
    var asked := SetLoaded(before, name, true);
    var order := Evictable(p, p.names, asked, Some(name));
    assert forall n | n in order[..k] :: n in order;
    forall n | n in before
      ensures made[n] == if n in order[..k] then asked[n].(loaded := false) else asked[n]
    {
      EvictedExactly(asked, order, k, n);
    }
    assert name !in order;
    forall t | t in before[name].tools
      ensures t in LoadedTools(p, made)
    {
      assert IsEligible(p, t);
      assert name in made && made[name].loaded && t in made[name].tools;
    }
  }

  /** Loading changes no bundle's tools. */
  lemma SameTools(p: Policy, before: BundleMap, name: string, k: nat, made: BundleMap)
    requires name in before && Preflight(p, before, name, k, made)
    ensures forall n | n in before :: made[n].tools == before[n].tools
  {
    hide Evicted, Shortest, Evictable;
    var asked := SetLoaded(before, name, true);
    var order := Evictable(p, p.names, asked, Some(name));
    forall n | n in before ensures made[n].tools == before[n].tools {
      EvictedExactly(asked, order, k, n);
    }
  }

  /** What goes are the oldest loads: nothing that stays was loaded before what goes. */
  lemma OnlyTheOldestGo(p: Policy, before: BundleMap, name: string, k: nat, made: BundleMap, gone: string, kept: string)
    requires name in before && Preflight(p, before, name, k, made)
    requires gone in before && kept in before && gone != name && kept != name
    requires before[gone].loaded && !made[gone].loaded
    requires before[kept].loaded && made[kept].loaded && kept in p.names && kept !in p.alwaysLoad
    ensures before[gone].loadedAt <= before[kept].loadedAt
  {
    hide Evictable, Fits;
    var asked := SetLoaded(before, name, true);
    var order := Evictable(p, p.names, asked, Some(name));
    EvictableOrdered(p, p.names, asked, Some(name));
    EvictedExactly(asked, order, k, gone);
    EvictedExactly(asked, order, k, kept);
    assert kept in order;
    var i :| 0 <= i < k && order[..k][i] == gone;
    var j :| 0 <= j < |order| && order[j] == kept;
    assert order[i] == gone;
    assert forall x | 0 <= x < k :: order[x] in order[..k];
    assert !(j < k);
  }

  /** The preflight has one outcome. */
  lemma PreflightOnce(p: Policy, before: BundleMap, name: string, j: nat, one: BundleMap, k: nat, other: BundleMap)
    requires name in before && Preflight(p, before, name, j, one) && Preflight(p, before, name, k, other)
    ensures one == other
  {
    hide Evictable, Evicted, Fits;
  }

  lemma NeverBlamesPi(p: Policy, b: Bundle)
    ensures Unavailable(p, b) != Some(NotActivated)
  {
  }

  lemma NoLoadNoHalf(p: Policy, before: BundleMap, name: string, activated: set<string> -> set<string>)
    requires name in before ==> Unavailable(p, before[name]).Some?
    ensures !LeavesHalfDone(p, before, name, activated)
  {
  }

  lemma HalfDoneIs(p: Policy, before: BundleMap, name: string, k: nat, made: BundleMap,
    activated: set<string> -> set<string>)
    requires name in before && Unavailable(p, before[name]).None? && Preflight(p, before, name, k, made)
    ensures LeavesHalfDone(p, before, name, activated) <==>
      Fits(p, made) && !(before[name].tools <= activated(Desired(p, made)))
    ensures made[name].tools == before[name].tools
  {
    hide Preflight, Fits, Desired;
    SameTools(p, before, name, k, made);
    if LeavesHalfDone(p, before, name, activated) {
      var j: nat, one :| Preflight(p, before, name, j, one) && Fits(p, one) &&
        !(before[name].tools <= activated(Desired(p, one)));
      PreflightOnce(p, before, name, j, one, k, made);
    }
  }

  lemma {:induction false} SubsetSize<T>(a: set<T>, b: set<T>)
    requires a <= b
    ensures |a| <= |b|
  {
    if a != {} {
      var x :| x in a;
      SubsetSize(a - {x}, b - {x});
    }
  }

  /** `b` is `a` with some bundles unloaded. */
  ghost predicate LoadsLess(a: BundleMap, b: BundleMap) {
    a.Keys == b.Keys && forall n | n in a :: b[n].tools == a[n].tools && (b[n].loaded ==> a[n].loaded)
  }

  /** Eviction never increases the number of tools that are wanted. */
  lemma EvictionShrinks(p: Policy, a: BundleMap, b: BundleMap)
    requires LoadsLess(a, b)
    ensures Desired(p, b) <= Desired(p, a) && |Desired(p, b)| <= |Desired(p, a)|
  {
    assert BundleTools(a) == BundleTools(b) by {
      forall t ensures t in BundleTools(a) <==> t in BundleTools(b) {
        if t in BundleTools(a) {
          var n :| n in a && t in a[n].tools;
          assert n in b && t in b[n].tools;
        }
        if t in BundleTools(b) {
          var n :| n in b && t in b[n].tools;
          assert n in a && t in a[n].tools;
        }
      }
    }
    forall t | t in LoadedTools(p, b) ensures t in LoadedTools(p, a) {
      var n :| n in b && b[n].loaded && t in b[n].tools && IsEligible(p, t);
      assert n in a && a[n].loaded && t in a[n].tools;
    }
    SubsetSize(Desired(p, b), Desired(p, a));
  }

  /** A load is refused for the budget only when no choice of evictions would make room. */
  lemma NoChoiceOfEvictionsHelps(p: Policy, before: BundleMap, name: string, k: nat, made: BundleMap, other: BundleMap)
    requires name in before && Preflight(p, before, name, k, made) && !Fits(p, made)
    requires
      var asked := SetLoaded(before, name, true);
      && LoadsLess(asked, other)
      && forall n | n in asked && asked[n].loaded && !other[n].loaded ::
        n in p.names && MayEvict(p, asked, n, Some(name))
    ensures !Fits(p, other)
  {
    hide Evictable, Evicted, Desired;
    var asked := SetLoaded(before, name, true);
    var order := Evictable(p, p.names, asked, Some(name));
    assert k == |order| && order[..k] == order;
    forall n | n in other
      ensures made[n].tools == other[n].tools && (made[n].loaded ==> other[n].loaded)
    {
      EvictedExactly(asked, order, k, n);
    }
    EvictionShrinks(p, other, made);
    FitsMeans(p, made);
    FitsMeans(p, other);
  }

  // ---------------------------------------------------------------- the terms themselves

  /** Which tools are wanted: those of loaded bundles that Pi allows or reaches by itself; and
      of the registered and allowed ones those that are in no bundle, were turned on by hand,
      or belong to the router. */
  lemma WantedExactly(p: Policy, bundles: BundleMap, tool: string)
    ensures tool in Desired(p, bundles) <==>
      || (exists n | n in bundles :: bundles[n].loaded && tool in bundles[n].tools &&
            (tool in p.eligible || tool in p.indirect))
      || (tool in p.known && tool in p.eligible &&
          (tool in p.manual || tool in p.routerTools || forall n | n in bundles :: tool !in bundles[n].tools))
  {
    assert tool in BundleTools(bundles) <==> exists n | n in bundles :: tool in bundles[n].tools;
    assert tool in LoadedTools(p, bundles) <==>
      exists n | n in bundles :: bundles[n].loaded && tool in bundles[n].tools && IsEligible(p, tool);
  }

  /** A bundle is refused before anything else exactly when it has no tools, one of its
      patterns names none, or one of its tools is excluded. */
  lemma RefusedExactly(p: Policy, b: Bundle)
    ensures Unavailable(p, b) == Some(Unmatched) <==> b.tools == {} || !b.matched
    ensures Unavailable(p, b) == None <==>
      b.tools != {} && b.matched && forall t | t in b.tools :: t in p.eligible || t in p.indirect
  {
  }
}
