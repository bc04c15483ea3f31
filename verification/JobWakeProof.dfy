/** What holds over every run of a session's hub. */
module JobWakeProof {
  // No notified outcome is left waiting for nothing, none is sent twice, and none that was
  // pending at an interrupt starts a turn.

  import opened JobWake
  import opened Wrappers

  datatype Waker = Waker(enabled: bool, stopped: bool)

  /** Why an outcome was never sent. */
  datatype Fate = Observed | Superseded | Stopped | NotListening

  datatype Gone = Gone(serial: nat, fate: Fate)

  /** One session: its hub while it exists, the wakers that share it, and history. */
  datatype World = World(hub: Option<Hub>, observed: seq<Seen>, sent: seq<Message>, wakers: map<nat, Waker>,
                         notified: set<nat>, gone: seq<Gone>)

  datatype Event =
    | Start(waker: nat, interactive: bool)
    | Notify(waker: nat, wake: Wake)
    | Fire(idle: bool)
    | End(waker: nat, reason: StopReason)
    | Settle(waker: nat)
    | Begin(waker: nat, attempt: string)
    | RollBack(waker: nat, attempt: string)
    | Stop(waker: nat)
    | Observe(id: string, at: int)

  predicate Live(s: World, w: nat) {
    w in s.wakers && s.wakers[w].enabled && !s.wakers[w].stopped && s.hub.Some?
  }

  /** An extension starts once in a session; serials are new; only an armed timer fires. */
  predicate Can(s: World, e: Event) {
    match e
    case Start(w, _) => w !in s.wakers
    case Notify(_, w) => w.serial !in s.notified
    case Fire(_) => s.hub.Some? && s.hub.value.timer.Some?
    case Stop(w) => w in s.wakers
    case _ => true
  }

  function Fates(wakes: seq<Wake>, fate: Fate): seq<Gone> {
    if wakes == [] then [] else [Gone(wakes[0].serial, fate)] + Fates(wakes[1..], fate)
  }

  function ObservedOnes(pending: seq<Wake>, observed: seq<Seen>): seq<Wake> {
    if pending == [] then []
    else (if WasObserved(observed, pending[0]) then [pending[0]] else []) + ObservedOnes(pending[1..], observed)
  }

  /** A step of the hub that may send: what left it unsent had been observed. */
  function Sent(s: World, r: (Hub, seq<Message>)): World
    requires s.hub.Some?
  {
    s.(hub := Some(r.0), sent := s.sent + r.1,
       gone := if r.0.pending == [] then s.gone + Fates(ObservedOnes(s.hub.value.pending, s.observed), Observed)
         else s.gone)
  }

  function Displaced(pending: seq<Wake>, id: string): seq<Wake> {
    var i := Index(pending, id);
    if i < |pending| then [pending[i]] else []
  }

  function Do(s: World, e: Event): World
    requires Can(s, e)
  {
    match e
    case Start(w, interactive) =>
      s.(wakers := s.wakers[w := Waker(interactive, false)],
         hub := if interactive && s.hub.None? then Some(Hub([], None, None, false)) else s.hub)
    case Notify(w, wake) =>
      var told := s.(notified := s.notified + {wake.serial});
      if !Live(s, w) then told.(gone := s.gone + [Gone(wake.serial, NotListening)])
      else told.(hub := Some(Notified(s.hub.value, w, wake)),
                 gone := s.gone + Fates(Displaced(s.hub.value.pending, wake.id), Superseded))
    case Fire(idle) =>
      var w := s.hub.value.timer.value;
      if Live(s, w) then Sent(s, Flushed(s.hub.value, w, idle, s.observed)) else s
    case End(w, reason) => if Live(s, w) then Sent(s, RunEnded(s.hub.value, reason, s.observed)) else s
    case Settle(w) => if Live(s, w) then Sent(s, RunSettled(s.hub.value, w, s.observed)) else s
    case Begin(w, attempt) => if Live(s, w) then s.(hub := Some(HandoffBegun(s.hub.value, attempt))) else s
    case RollBack(w, attempt) => if Live(s, w) then s.(hub := Some(HandoffRolledBack(s.hub.value, w, attempt))) else s
    case Stop(w) =>
      if s.wakers[w].stopped then s
      else s.(wakers := s.wakers[w := s.wakers[w].(stopped := true)], hub := None,
              gone := if s.hub.Some? then s.gone + Fates(s.hub.value.pending, Stopped) else s.gone)
    case Observe(id, at) => s.(observed := MarkObserved(s.observed, id, at))
  }

  // ------------------------------------------------------------------ conservation

  /** How often an outcome occurs. */
  function Count(wakes: seq<Wake>, x: nat): nat {
    if wakes == [] then 0 else (if wakes[0].serial == x then 1 else 0) + Count(wakes[1..], x)
  }

  function SentCount(sent: seq<Message>, x: nat): nat {
    if sent == [] then 0 else SentCount(sent[..|sent| - 1], x) + Count(sent[|sent| - 1].wakes, x)
  }

  function GoneCount(gone: seq<Gone>, x: nat): nat {
    if gone == [] then 0 else GoneCount(gone[..|gone| - 1], x) + if gone[|gone| - 1].serial == x then 1 else 0
  }

  function WaitCount(s: World, x: nat): nat {
    if s.hub.Some? then Count(s.hub.value.pending, x) else 0
  }

  /** An outcome that was notified is waiting, sent or gone, and in one place only. */
  predicate ConservedAt(s: World, x: nat) {
    WaitCount(s, x) + SentCount(s.sent, x) + GoneCount(s.gone, x) == if x in s.notified then 1 else 0
  }

  ghost predicate Conserved(s: World) {
    forall x: nat :: ConservedAt(s, x)
  }

  /** Outcomes never wait without something that will move them. */
  predicate NothingStuck(s: World) {
    s.hub.Some? && s.hub.value.pending != [] ==> s.hub.value.timer.Some? || Held(s.hub.value)
  }

  /** An armed timer belongs to a waker that can act on it. */
  predicate TimerLive(s: World) {
    s.hub.Some? && s.hub.value.timer.Some? ==> Live(s, s.hub.value.timer.value)
  }

  ghost predicate Inv(s: World) {
    Conserved(s) && NothingStuck(s) && TimerLive(s)
  }

  lemma {:induction false} CountAppend(a: seq<Wake>, b: seq<Wake>, x: nat)
    ensures Count(a + b, x) == Count(a, x) + Count(b, x)
  {
    if a == [] {
      assert a + b == b;
    } else {
      assert (a + b)[1..] == a[1..] + b;
      CountAppend(a[1..], b, x);
    }
  }

  lemma CountOne(w: Wake, x: nat)
    ensures Count([w], x) == if w.serial == x then 1 else 0
  {
    assert [w][1..] == [];
  }

  lemma SentAppend(sent: seq<Message>, m: seq<Message>, x: nat)
    requires |m| <= 1
    ensures SentCount(sent + m, x) == SentCount(sent, x) + (if m == [] then 0 else Count(m[0].wakes, x))
  {
    if m == [] {
      assert sent + m == sent;
    } else {
      assert (sent + m)[..|sent|] == sent;
    }
  }

  lemma {:induction false} GoneAppend(gone: seq<Gone>, wakes: seq<Wake>, fate: Fate, x: nat)
    ensures GoneCount(gone + Fates(wakes, fate), x) == GoneCount(gone, x) + Count(wakes, x)
    decreases |wakes|
  {
    if wakes == [] {
      assert gone + Fates(wakes, fate) == gone;
    } else {
      var first := Gone(wakes[0].serial, fate);
      assert gone + Fates(wakes, fate) == (gone + [first]) + Fates(wakes[1..], fate);
      GoneAppend(gone + [first], wakes[1..], fate, x);
      assert (gone + [first])[..|gone|] == gone;
    }
  }

  lemma {:induction false} TakenSplits(pending: seq<Wake>, observed: seq<Seen>, x: nat)
    ensures Count(Unobserved(pending, observed), x) + Count(ObservedOnes(pending, observed), x) == Count(pending, x)
  {
    hide WasObserved;
    if pending != [] {
      var rest := pending[1..];
      TakenSplits(rest, observed, x);
      CountAppend([pending[0]], Unobserved(rest, observed), x);
      CountAppend([pending[0]], ObservedOnes(rest, observed), x);
      CountOne(pending[0], x);
      assert [] + Unobserved(rest, observed) == Unobserved(rest, observed);
      assert [] + ObservedOnes(rest, observed) == ObservedOnes(rest, observed);
    }
  }

  /** Putting an outcome displaces at most the one with the same id. */
  lemma PutCount(pending: seq<Wake>, w: Wake, x: nat)
    ensures Count(Put(pending, w), x) + Count(Displaced(pending, w.id), x) ==
      Count(pending, x) + (if w.serial == x then 1 else 0)
  {
    var i := Index(pending, w.id);
    CountOne(w, x);
    if i < |pending| {
      CountOne(pending[i], x);
      CountReplace(pending, i, w, x);
    } else {
      CountAppend(pending, [w], x);
    }
  }

  lemma {:induction false} CountReplace(pending: seq<Wake>, i: nat, w: Wake, x: nat)
    requires i < |pending|
    ensures Count(pending[i := w], x) + (if pending[i].serial == x then 1 else 0) ==
      Count(pending, x) + (if w.serial == x then 1 else 0)
  {
    if i > 0 {
      assert pending[i := w][1..] == pending[1..][i - 1 := w];
      CountReplace(pending[1..], i - 1, w, x);
    } else {
      assert pending[i := w][1..] == pending[1..];
    }
  }

  /** What the hub may do with what waits: send the unobserved and be empty, or keep all. */
  predicate Accounts(h: Hub, observed: seq<Seen>, r: (Hub, seq<Message>)) {
    || (r.0.pending == [] && r.1 == Sending(Unobserved(h.pending, observed), true))
    || (r.0.pending == [] && r.1 == Sending(Unobserved(h.pending, observed), false))
    || (r.0.pending == h.pending && r.1 == [])
  }

  lemma SentConserves(s: World, r: (Hub, seq<Message>), x: nat)
    requires ConservedAt(s, x) && s.hub.Some? && Accounts(s.hub.value, s.observed, r)
    ensures ConservedAt(Sent(s, r), x)
  {
    hide Unobserved, ObservedOnes, Fates;
    var pending := s.hub.value.pending;
    TakenSplits(pending, s.observed, x);
    SentAppend(s.sent, r.1, x);
    GoneAppend(s.gone, ObservedOnes(pending, s.observed), Observed, x);
    if pending == [] {
      NothingObserved(pending, s.observed);
    }
  }

  lemma NothingObserved(pending: seq<Wake>, observed: seq<Seen>)
    requires pending == []
    ensures ObservedOnes(pending, observed) == [] == Unobserved(pending, observed)
  {
  }

  lemma HubAccounts(h: Hub, waker: nat, observed: seq<Seen>, idle: bool, reason: StopReason)
    ensures Accounts(h, observed, Flushed(h, waker, idle, observed))
    ensures Accounts(h, observed, RunEnded(h, reason, observed))
    ensures Accounts(h, observed, RunSettled(h, waker, observed))
  {
    hide Unobserved;
  }

  lemma NotifyConserves(s: World, w: nat, wake: Wake, x: nat)
    requires ConservedAt(s, x) && Can(s, Notify(w, wake))
    ensures ConservedAt(Do(s, Notify(w, wake)), x)
  {
    hide Put, Displaced, Fates;
    if Live(s, w) {
      PutCount(s.hub.value.pending, wake, x);
      GoneAppend(s.gone, Displaced(s.hub.value.pending, wake.id), Superseded, x);
    } else {
      assert (s.gone + [Gone(wake.serial, NotListening)])[..|s.gone|] == s.gone;
    }
  }

  lemma StepConserves(s: World, e: Event, x: nat)
    requires ConservedAt(s, x) && Can(s, e)
    ensures ConservedAt(Do(s, e), x)
  {
    hide Sent, Flushed, RunEnded, RunSettled, Put, SentCount, GoneCount, MarkObserved, Fates;
    match e
    case Notify(w, wake) => NotifyConserves(s, w, wake, x);
    case Fire(idle) =>
      var w := s.hub.value.timer.value;
      if Live(s, w) {
        HubAccounts(s.hub.value, w, s.observed, idle, Finished);
        SentConserves(s, Flushed(s.hub.value, w, idle, s.observed), x);
      }
    case End(w, reason) =>
      if Live(s, w) {
        HubAccounts(s.hub.value, w, s.observed, false, reason);
        SentConserves(s, RunEnded(s.hub.value, reason, s.observed), x);
      }
    case Settle(w) =>
      if Live(s, w) {
        HubAccounts(s.hub.value, w, s.observed, false, Finished);
        SentConserves(s, RunSettled(s.hub.value, w, s.observed), x);
      }
    case Stop(w) =>
      if s.hub.Some? {
        GoneAppend(s.gone, s.hub.value.pending, Stopped, x);
      }
    case _ =>
  }

  lemma StepMoves(s: World, e: Event)
    requires NothingStuck(s) && TimerLive(s) && Can(s, e)
    ensures NothingStuck(Do(s, e)) && TimerLive(Do(s, e))
  {
    hide Unobserved, ObservedOnes, Fates, MarkObserved, Displaced, Put;
    match e
    case Start(_, _) =>
    case Notify(w, wake) =>
    case Fire(_) =>
    case End(_, _) =>
    case Settle(_) =>
    case Begin(_, _) =>
    case RollBack(_, _) =>
    case Stop(_) =>
    case Observe(_, _) =>
  }

  lemma StepInv(s: World, e: Event)
    requires Inv(s) && Can(s, e)
    ensures Inv(Do(s, e))
  {
    hide Do, Can, ConservedAt;
    forall x: nat
      ensures ConservedAt(Do(s, e), x)
    {
      StepConserves(s, e, x);
    }
    StepMoves(s, e);
  }

  predicate Legal(s: World, events: seq<Event>)
    decreases |events|
  {
    events == [] || (Can(s, events[0]) && Legal(Do(s, events[0]), events[1..]))
  }

  function RunOf(s: World, events: seq<Event>): World
    requires Legal(s, events)
    decreases |events|
  {
    if events == [] then s else RunOf(Do(s, events[0]), events[1..])
  }

  predicate Initial(s: World) {
    s.hub.None? && s.sent == [] && s.wakers == map[] && s.notified == {} && s.gone == []
  }

  lemma {:induction false} RunInv(s: World, events: seq<Event>)
    requires Inv(s) && Legal(s, events)
    ensures Inv(RunOf(s, events))
    decreases |events|
  {
    hide Inv, Do, Can;
    if events != [] {
      StepInv(s, events[0]);
      RunInv(Do(s, events[0]), events[1..]);
    }
  }

  // ----------------------------------------------------------------- main results

  /** In every reachable state: pending outcomes have an armed timer of a live waker, or a
      handoff or a provider error holds them; and every notified outcome is in exactly one
      place, so none was sent twice. */
  lemma NoWakeIsLost(s: World, events: seq<Event>, x: nat)
    requires Initial(s) && Legal(s, events)
    ensures
      var t := RunOf(s, events);
      && NothingStuck(t) && TimerLive(t)
      && WaitCount(t, x) + SentCount(t.sent, x) + GoneCount(t.gone, x) == (if x in t.notified then 1 else 0)
  {
    hide Do, Can;
    InitialInv(s);
    RunInv(s, events);
    assert ConservedAt(RunOf(s, events), x);
  }

  lemma InitialInv(s: World)
    requires Initial(s)
    ensures Inv(s)
  {
  }

  /** An idle session whose timer fires empties the hub into one message that starts a turn;
      what is not in it had been observed. */
  lemma FiringDelivers(s: World, x: nat)
    requires Inv(s) && s.hub.Some? && s.hub.value.timer.Some? && !Held(s.hub.value) && WaitCount(s, x) > 0
    ensures
      var t := Do(s, Fire(true));
      && WaitCount(t, x) == 0 && t.hub.value.pending == []
      && (SentCount(t.sent, x) > 0 || Gone(x, Observed) in t.gone)
      && |t.sent| <= |s.sent| + 1 && (|t.sent| > |s.sent| ==> t.sent[|s.sent|].turn)
  {
    hide Unobserved, ObservedOnes, Fates, ConservedAt, SentCount, GoneCount;
    var pending := s.hub.value.pending;
    TakenSplits(pending, s.observed, x);
    SentAppend(s.sent, Sending(Unobserved(pending, s.observed), true), x);
    FatesMembers(ObservedOnes(pending, s.observed), Observed, x);
  }

  lemma {:induction false} FatesMembers(wakes: seq<Wake>, fate: Fate, x: nat)
    ensures Count(wakes, x) > 0 ==> Gone(x, fate) in Fates(wakes, fate)
  {
    if wakes != [] {
      FatesMembers(wakes[1..], fate, x);
    }
  }

  /** Whether some message that starts a turn carries the outcome. */
  predicate StartedTurn(sent: seq<Message>, x: nat) {
    exists i | 0 <= i < |sent| :: sent[i].turn && Count(sent[i].wakes, x) > 0
  }

  predicate Extends(s: World, t: World) {
    s.sent <= t.sent && s.gone <= t.gone
  }

  lemma StepExtends(s: World, e: Event)
    requires Can(s, e)
    ensures Extends(s, Do(s, e))
  {
    hide Flushed, RunEnded, RunSettled, Fates, MarkObserved;
  }

  lemma {:induction false} RunExtends(s: World, events: seq<Event>)
    requires Legal(s, events)
    ensures Extends(s, RunOf(s, events))
    decreases |events|
  {
    hide Do, Can;
    if events != [] {
      StepExtends(s, events[0]);
      RunExtends(Do(s, events[0]), events[1..]);
    }
  }

  lemma {:induction false} SentGrows(sent: seq<Message>, n: nat, x: nat)
    requires n <= |sent|
    ensures SentCount(sent[..n], x) <= SentCount(sent, x)
    ensures SentCount(sent[..n], x) == SentCount(sent, x) ==> forall i | n <= i < |sent| :: Count(sent[i].wakes, x) == 0
  {
    hide Count;
    var m := |sent|;
    if n == m {
      assert sent[..n] == sent;
    } else {
      SentGrows(sent[..m - 1], n, x);
      assert sent[..m - 1][..n] == sent[..n];
      assert forall i | n <= i < m - 1 :: sent[..m - 1][i] == sent[i];
    }
  }

  lemma {:induction false} GoneGrows(gone: seq<Gone>, n: nat, x: nat)
    requires n <= |gone|
    ensures GoneCount(gone[..n], x) <= GoneCount(gone, x)
  {
    var m := |gone|;
    if n == m {
      assert gone[..n] == gone;
    } else {
      GoneGrows(gone[..m - 1], n, x);
      assert gone[..m - 1][..n] == gone[..n];
    }
  }

  /** What is sent or gone is never sent again. */
  lemma NeverAgain(s: World, t: World, x: nat)
    requires ConservedAt(s, x) && ConservedAt(t, x) && Extends(s, t) && WaitCount(s, x) == 0 && x in s.notified
    ensures forall i | |s.sent| <= i < |t.sent| :: Count(t.sent[i].wakes, x) == 0
  {
    hide Count, SentCount, GoneCount;
    assert t.sent[..|s.sent|] == s.sent && t.gone[..|s.gone|] == s.gone;
    SentGrows(t.sent, |s.sent|, x);
    GoneGrows(t.gone, |s.gone|, x);
  }

  /** A quiet delivery: everything that waited goes out without starting a turn, or goes. */
  ghost predicate Quiet(s: World, t: World) {
    && Extends(s, t) && (forall x: nat :: WaitCount(t, x) == 0) && t.notified == s.notified
    && forall i | |s.sent| <= i < |t.sent| :: !t.sent[i].turn
  }

  lemma QuietForGood(s: World, t: World, events: seq<Event>, x: nat)
    requires Inv(s) && Inv(t) && Quiet(s, t) && WaitCount(s, x) > 0 && Legal(t, events)
    ensures !StartedTurn(RunOf(t, events).sent, x)
  {
    hide Do, Can, Count, SentCount, GoneCount, Legal, RunOf;
    var u := RunOf(t, events);
    RunInv(t, events);
    RunExtends(t, events);
    assert ConservedAt(s, x) && ConservedAt(t, x) && ConservedAt(u, x);
    NeverAgain(t, u, x);
    NotSentBefore(s.sent, x);
    forall i | 0 <= i < |u.sent| && u.sent[i].turn
      ensures Count(u.sent[i].wakes, x) == 0
    {
      if i < |t.sent| {
        assert u.sent[i] == t.sent[i];
        if i < |s.sent| {
          assert t.sent[i] == s.sent[i];
        }
      }
    }
  }

  lemma NotSentBefore(sent: seq<Message>, x: nat)
    requires SentCount(sent, x) == 0
    ensures forall i | 0 <= i < |sent| :: Count(sent[i].wakes, x) == 0
  {
    assert sent[..0] == [];
    SentGrows(sent, 0, x);
  }

  /** What is pending when the user interrupts a run never starts a turn, whatever happens
      later. */
  lemma InterruptedNeverStartsATurn(s: World, w: nat, before: seq<Event>, after: seq<Event>, x: nat)
    requires Initial(s) && Legal(s, before) && Live(RunOf(s, before), w) && WaitCount(RunOf(s, before), x) > 0
    requires Legal(Do(RunOf(s, before), End(w, Aborted)), after)
    ensures !StartedTurn(RunOf(Do(RunOf(s, before), End(w, Aborted)), after).sent, x)
  {
    hide Do, Can, Quiet, Inv;
    var now := RunOf(s, before);
    InitialInv(s);
    RunInv(s, before);
    RunsAlwaysEnd(now, w);
    StepInv(now, End(w, Aborted));
    AbortIsQuiet(now, w);
    QuietForGood(now, Do(now, End(w, Aborted)), after, x);
  }

  lemma RunsAlwaysEnd(s: World, w: nat)
    ensures Can(s, End(w, Aborted)) && Can(s, Settle(w))
  {
  }

  lemma AbortIsQuiet(s: World, w: nat)
    requires Live(s, w) && s.hub.value.pending != []
    ensures Quiet(s, Do(s, End(w, Aborted)))
  {
    hide Unobserved, Fates, ObservedOnes;
  }

  /** Nor does what was pending when a run failed for good. */
  lemma FailedNeverStartsATurn(s: World, w: nat, before: seq<Event>, after: seq<Event>, x: nat)
    requires Initial(s) && Legal(s, before) && Live(RunOf(s, before), w) && WaitCount(RunOf(s, before), x) > 0
    requires RunOf(s, before).hub.value.errorHeld && Legal(Do(RunOf(s, before), Settle(w)), after)
    ensures !StartedTurn(RunOf(Do(RunOf(s, before), Settle(w)), after).sent, x)
  {
    hide Do, Can, Quiet, Inv;
    var now := RunOf(s, before);
    InitialInv(s);
    RunInv(s, before);
    RunsAlwaysEnd(now, w);
    StepInv(now, Settle(w));
    FailureIsQuiet(now, w);
    QuietForGood(now, Do(now, Settle(w)), after, x);
  }

  lemma FailureIsQuiet(s: World, w: nat)
    requires Live(s, w) && s.hub.value.errorHeld
    ensures Quiet(s, Do(s, Settle(w)))
  {
    hide Unobserved, Fates, ObservedOnes;
  }
}
