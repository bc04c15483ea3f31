/** When and how a waiting outcome is told (`extensions/_shared/job-wake.ts`). */
module JobWakeDelivery {
  import opened JobWake
  import opened JobWakeProof
  import opened Wrappers

  /** The model has seen this outcome of the job, or a later one. */
  predicate Known(observed: seq<Seen>, w: Wake) {
    exists o | o in observed :: o.id == w.id && w.at <= o.at
  }

  lemma {:induction false} UnobservedExactly(pending: seq<Wake>, observed: seq<Seen>, w: Wake)
    ensures w in Unobserved(pending, observed) <==> w in pending && !Known(observed, w)
  {
    if pending != [] {
      UnobservedExactly(pending[1..], observed, w);
      assert pending == [pending[0]] + pending[1..];
      KnownIsObserved(observed, pending[0]);
    }
  }

  lemma KnownIsObserved(observed: seq<Seen>, w: Wake)
    ensures Known(observed, w) <==> WasObserved(observed, w)
  {
    if Known(observed, w) {
      var o :| o in observed && o.id == w.id && w.at <= o.at;
      var i :| 0 <= i < |observed| && observed[i] == o;
    }
  }

  /** All that waited is told in one message, but for what is known already; nothing is
      told when all of it is. */
  predicate Told(s: World, t: World, turn: bool)
    requires s.hub.Some?
  {
    && t.hub.Some? && t.hub.value.pending == [] && s.sent <= t.sent
    && |t.sent| <= |s.sent| + 1
    && (|t.sent| > |s.sent| ==> t.sent[|s.sent|].turn == turn)
    && forall w | w in s.hub.value.pending && !Known(s.observed, w) ::
         |t.sent| > |s.sent| && w in t.sent[|s.sent|].wakes
  }

  predicate OnlyTheUnknown(s: World, t: World)
    requires s.hub.Some?
  {
    forall i, w | |s.sent| <= i < |t.sent| && w in t.sent[i].wakes ::
      w in s.hub.value.pending && !Known(s.observed, w)
  }

  lemma TakingTells(s: World, r: (Hub, seq<Message>), turn: bool)
    requires s.hub.Some? && r.0.pending == [] && r.1 == Sending(Unobserved(s.hub.value.pending, s.observed), turn)
    ensures Told(s, Sent(s, r), turn) && OnlyTheUnknown(s, Sent(s, r))
  {
    var unknown := Unobserved(s.hub.value.pending, s.observed);
    var t := Sent(s, r);
    forall w ensures w in unknown <==> w in s.hub.value.pending && !Known(s.observed, w) {
      UnobservedExactly(s.hub.value.pending, s.observed, w);
    }
    assert unknown != [] ==> t.sent[|s.sent|] == Message(unknown, turn);
  }

  lemma NothingWaits(s: World, turn: bool)
    requires s.hub.Some? && s.hub.value.pending == []
    ensures forall h: Hub | h.pending == [] :: Told(s, Sent(s, (h, [])), turn) && OnlyTheUnknown(s, Sent(s, (h, [])))
  {
  }

  /** When a run finishes, what waits is told at once and starts the next turn, unless a
      handoff holds it. */
  lemma FinishedStartsATurn(s: World, w: nat)
    requires Live(s, w) && s.hub.value.handoff.None?
    ensures Told(s, Do(s, End(w, Finished)), true) && OnlyTheUnknown(s, Do(s, End(w, Finished)))
    ensures !Do(s, End(w, Finished)).hub.value.errorHeld
  {
    hide Unobserved, Told, OnlyTheUnknown;
    var r := RunEnded(s.hub.value, Finished, s.observed);
    if s.hub.value.pending == [] {
      NothingWaits(s, true);
    } else {
      TakingTells(s, r, true);
    }
  }

  /** When the user interrupts it, it is told without one, handoff or not. */
  lemma InterruptedIsToldQuietly(s: World, w: nat)
    requires Live(s, w)
    ensures Told(s, Do(s, End(w, Aborted)), false) && OnlyTheUnknown(s, Do(s, End(w, Aborted)))
  {
    hide Unobserved, Told, OnlyTheUnknown;
    var r := RunEnded(s.hub.value, Aborted, s.observed);
    if s.hub.value.pending == [] {
      NothingWaits(s, false);
    } else {
      TakingTells(s, r, false);
    }
  }

  /** A run that fails holds it; it is told quietly once the agent settles, and told with a
      turn by a retry that finishes. */
  lemma FailedIsHeldThenToldQuietly(s: World, w: nat)
    requires Live(s, w)
    ensures
      var held := Do(s, End(w, Error));
      && held.hub.Some? && held.hub.value.pending == s.hub.value.pending && held.sent == s.sent && Live(held, w)
      && held.hub.value.errorHeld && held.observed == s.observed && held.hub.value.handoff == s.hub.value.handoff
      && Told(held, Do(held, Settle(w)), false) && OnlyTheUnknown(held, Do(held, Settle(w)))
      && (s.hub.value.handoff.None? ==> Told(held, Do(held, End(w, Finished)), true))
  {
    hide Unobserved, Told, OnlyTheUnknown;
    var held := Do(s, End(w, Error));
    TakingTells(held, RunSettled(held.hub.value, w, held.observed), false);
    if s.hub.value.handoff.None? {
      FinishedStartsATurn(held, w);
    }
  }

  /** A handoff holds what waits, whatever finishes, and a rollback lets it move again. */
  lemma HandoffHoldsIt(s: World, w: nat, attempt: string)
    requires Live(s, w) && s.hub.value.pending != [] && !s.hub.value.errorHeld
    ensures
      var begun := Do(s, Begin(w, attempt));
      var ended := Do(begun, End(w, Finished));
      && Live(begun, w) && Live(ended, w) && ended.hub.Some? && ended.sent == s.sent
      && ended.hub.value.pending == s.hub.value.pending && ended.hub.value.timer.None?
      && var back := Do(ended, RollBack(w, attempt));
         back.hub.Some? && back.hub.value.timer == Some(w) && back.hub.value.pending == s.hub.value.pending
  {
    hide Unobserved;
  }

  /** An idle session is told at its timer; a busy one arms it again. */
  lemma TimerTells(s: World)
    requires s.hub.Some? && s.hub.value.timer.Some? && Live(s, s.hub.value.timer.value) && !Held(s.hub.value)
    ensures Told(s, Do(s, Fire(true)), true) && OnlyTheUnknown(s, Do(s, Fire(true)))
    ensures s.hub.value.pending != [] ==> Do(s, Fire(false)).hub == s.hub && Do(s, Fire(false)).sent == s.sent
  {
    hide Unobserved, Told, OnlyTheUnknown;
    var r := Flushed(s.hub.value, s.hub.value.timer.value, true, s.observed);
    if s.hub.value.pending == [] {
      NothingWaits(s, true);
    } else {
      TakingTells(s, r, true);
    }
  }

  // --------------------------------------------------------------------- what is known

  /** One observation for each job. */
  predicate OnePerJob(observed: seq<Seen>) {
    forall i, j | 0 <= i < j < |observed| :: observed[i].id != observed[j].id
  }

  lemma {:induction false} ForgetExactly(observed: seq<Seen>, id: string, o: Seen)
    ensures o in Forget(observed, id) <==> o in observed && o.id != id
    ensures |Forget(observed, id)| <= |observed|
    ensures OnePerJob(observed) ==> OnePerJob(Forget(observed, id))
  {
    if observed != [] {
      var first, rest := observed[0], observed[1..];
      ForgetExactly(rest, id, o);
      assert observed == [first] + rest;
      if OnePerJob(observed) {
        assert forall i | 0 <= i < |rest| :: rest[i] == observed[i + 1];
        forall i | 0 <= i < |Forget(rest, id)| ensures Forget(rest, id)[i].id != first.id {
          ForgetExactly(rest, id, Forget(rest, id)[i]);
        }
      }
    }
  }

  /** The latest observation replaces the earlier one of its job; of other jobs only the
      one that was observed longest ago is dropped, and only beyond the bound. */
  lemma ObservationsAreKept(observed: seq<Seen>, id: string, at: int, o: Seen)
    requires OnePerJob(observed) && |observed| <= MAX_OBSERVED
    ensures
      var after := MarkObserved(observed, id, at);
      && OnePerJob(after) && |after| <= MAX_OBSERVED && Seen(id, at) in after
      && (o in after ==> o == Seen(id, at) || (o in observed && o.id != id))
      && (o in observed && o.id != id && (|observed| < MAX_OBSERVED || o != observed[0]) ==> o in after)
  {
    ForgetExactly(observed, id, o);
    var kept := Forget(observed, id);
    var seen := kept + [Seen(id, at)];
    forall i | 0 <= i < |kept| ensures kept[i].id != id {
      ForgetExactly(observed, id, kept[i]);
    }
    if |seen| > MAX_OBSERVED {
      NothingForgotten(observed, id);
      assert seen[1..] == observed[1..] + [Seen(id, at)];
      assert o in observed ==> o == observed[0] || o in observed[1..];
    }
  }

  lemma {:induction false} NothingForgotten(observed: seq<Seen>, id: string)
    requires |Forget(observed, id)| == |observed|
    ensures Forget(observed, id) == observed
  {
    if observed != [] {
      ForgetExactly(observed[1..], id, observed[0]);
      NothingForgotten(observed[1..], id);
    }
  }
}
