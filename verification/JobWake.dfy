/** Wake-ups for finished background jobs: all extensions of a session share a hub that
    batches them (`extensions/_shared/job-wake.ts`). */
module JobWake {
  import opened Wrappers

  const MAX_OBSERVED := 1000

  /** One notified outcome of a job; `serial` tells notifications apart. */
  datatype Wake = Wake(serial: nat, id: string, at: int)

  /** What the model has seen of a job, oldest first. */
  datatype Seen = Seen(id: string, at: int)

  /** A delivered batch, and whether it starts a turn. */
  datatype Message = Message(wakes: seq<Wake>, turn: bool)

  /** `timer` names the waker whose timer is armed. */
  datatype Hub = Hub(pending: seq<Wake>, timer: Option<nat>, handoff: Option<string>, errorHeld: bool)

  datatype StopReason = Finished | Aborted | Error

  // ----------------------------------------------------------------- observations

  function Forget(observed: seq<Seen>, id: string): seq<Seen> {
    if observed == [] then [] else (if observed[0].id == id then [] else [observed[0]]) + Forget(observed[1..], id)
  }

  function MarkObserved(observed: seq<Seen>, id: string, at: int): seq<Seen> {
    var seen := Forget(observed, id) + [Seen(id, at)];
    if |seen| > MAX_OBSERVED then seen[1..] else seen
  }

  predicate WasObserved(observed: seq<Seen>, w: Wake) {
    exists i | 0 <= i < |observed| :: observed[i].id == w.id && observed[i].at >= w.at
  }

  // ---------------------------------------------------------------------- the hub

  function Index(pending: seq<Wake>, id: string): (i: nat)
    ensures i <= |pending| && (i < |pending| ==> pending[i].id == id)
    ensures forall k | 0 <= k < i :: pending[k].id != id
  {
    if pending == [] || pending[0].id == id then 0 else 1 + Index(pending[1..], id)
  }

  /** A map keeps the place of a key that is set again. */
  function Put(pending: seq<Wake>, w: Wake): seq<Wake> {
    var i := Index(pending, w.id);
    if i < |pending| then pending[i := w] else pending + [w]
  }

  function Unobserved(pending: seq<Wake>, observed: seq<Seen>): seq<Wake> {
    if pending == [] then []
    else (if WasObserved(observed, pending[0]) then [] else [pending[0]]) + Unobserved(pending[1..], observed)
  }

  function Sending(wakes: seq<Wake>, turn: bool): seq<Message> {
    if wakes == [] then [] else [Message(wakes, turn)]
  }

  predicate Held(h: Hub) {
    h.handoff.Some? || h.errorHeld
  }

  function Scheduled(h: Hub, waker: nat): Hub {
    if h.timer.Some? || Held(h) || h.pending == [] then h else h.(timer := Some(waker))
  }

  function Notified(h: Hub, waker: nat, w: Wake): Hub {
    Scheduled(h.(pending := Put(h.pending, w)), waker)
  }

  /** Everything leaves the hub; what was not observed is sent. */
  function Taken(h: Hub, observed: seq<Seen>, turn: bool): (Hub, seq<Message>) {
    (h.(pending := []), Sending(Unobserved(h.pending, observed), turn))
  }

  function Flushed(h: Hub, waker: nat, idle: bool, observed: seq<Seen>): (Hub, seq<Message>) {
    var fired := h.(timer := None);
    if Held(fired) || fired.pending == [] then (fired, [])
    else if !idle then (Scheduled(fired, waker), [])
    else Taken(fired, observed, true)
  }

  function RunEnded(h: Hub, reason: StopReason, observed: seq<Seen>): (Hub, seq<Message>) {
    var ended := h.(errorHeld := reason == Error);
    if ended.errorHeld || ended.pending == [] then (ended, [])
    else
      var quiet := ended.(timer := None);
      if reason == Aborted then Taken(quiet, observed, false)
      else if quiet.handoff.None? then Taken(quiet, observed, true)
      else (quiet, [])
  }

  function RunSettled(h: Hub, waker: nat, observed: seq<Seen>): (Hub, seq<Message>) {
    if h.errorHeld then Taken(h.(errorHeld := false), observed, false) else (Scheduled(h, waker), [])
  }

  function HandoffBegun(h: Hub, attempt: string): Hub {
    h.(handoff := Some(attempt), timer := None)
  }

  function HandoffRolledBack(h: Hub, waker: nat, attempt: string): Hub {
    if h.handoff == Some(attempt) then Scheduled(h.(handoff := None), waker) else h
  }

  /** What all extensions of the process share. */
  class Shared {
    var hubs: map<string, Hub>
    var observed: seq<Seen>
    var sent: seq<Message>

    constructor ()
      ensures hubs == map[] && observed == [] && sent == []
    {
      hubs, observed, sent := map[], [], [];
    }
  }

  /** One extension's handle on the hub of its session. */
  class JobWaker {
    const shared: Shared
    const self: nat
    var sessionId: Option<string>
    var enabled: bool
    var stopped: bool

    constructor (shared: Shared, self: nat)
      ensures this.shared == shared && this.self == self && sessionId == None && !enabled && !stopped
    {
      this.shared, this.self := shared, self;
      sessionId, enabled, stopped := None, false, false;
    }

    predicate Live()
      reads this, shared
    {
      enabled && !stopped && sessionId.Some? && sessionId.value in shared.hubs
    }

    function MyHub(): Hub
      requires Live()
      reads this, shared
    {
      shared.hubs[sessionId.value]
    }

    method SetHub(h: Hub)
      requires Live()
      modifies shared`hubs
      ensures shared.hubs == old(shared.hubs)[sessionId.value := h]
    {
      shared.hubs := shared.hubs[sessionId.value := h];
    }

    method SessionStart(session: string, interactive: bool)
      modifies this, shared`hubs
      ensures sessionId == Some(session) && enabled == interactive && stopped == old(stopped)
      ensures shared.hubs == if interactive && session !in old(shared.hubs) then
        old(shared.hubs)[session := Hub([], None, None, false)]
                             else old(shared.hubs)
    {
      sessionId, enabled := Some(session), interactive;
      if enabled && session !in shared.hubs {
        shared.hubs := shared.hubs[session := Hub([], None, None, false)];
      }
    }

    method Schedule()
      modifies shared`hubs
      ensures shared.hubs == if old(Live()) then
        old(shared.hubs)[sessionId.value := Scheduled(old(shared.hubs)[sessionId.value], self)]
                             else old(shared.hubs)
      ensures old(stopped || !enabled || sessionId.None?) ==> shared.hubs == old(shared.hubs)
    {
      if !Live() {
        return;
      }
      var h := MyHub();
      if h.timer.Some? || h.handoff.Some? || h.errorHeld || h.pending == [] {
        assert shared.hubs == shared.hubs[sessionId.value := h];
        return;
      }
      SetHub(h.(timer := Some(self)));
    }

    method Notify(w: Wake)
      modifies shared`hubs
      ensures shared.hubs == if old(Live()) then
        old(shared.hubs)[sessionId.value := Notified(old(shared.hubs)[sessionId.value], self, w)]
                             else old(shared.hubs)
      ensures old(stopped || !enabled || sessionId.None?) ==> shared.hubs == old(shared.hubs)
    {
      if !Live() {
        return;
      }
      var h := MyHub();
      SetHub(h.(pending := Put(h.pending, w)));
      Schedule();
    }

    method Send(wakes: seq<Wake>, turn: bool)
      modifies shared`sent
      ensures shared.sent == old(shared.sent) + Sending(wakes, turn)
    {
      if wakes == [] {
        return;
      }
      shared.sent := shared.sent + [Message(wakes, turn)];
    }

    /** Empties the hub and returns what the model has not seen. */
    method Take() returns (wakes: seq<Wake>)
      requires Live()
      modifies shared`hubs
      ensures shared.hubs == old(shared.hubs)[sessionId.value := old(MyHub()).(pending := [])]
      ensures wakes == Unobserved(old(MyHub()).pending, shared.observed)
    {
      var h := MyHub();
      wakes := [];
      var i := |h.pending|;
      assert h.pending[i..] == [];
      while i > 0
        invariant 0 <= i <= |h.pending|
        invariant wakes == Unobserved(h.pending[i..], shared.observed)
      {
        i := i - 1;
        assert h.pending[i..][1..] == h.pending[i + 1..];
        if !WasObserved(shared.observed, h.pending[i]) {
          wakes := [h.pending[i]] + wakes;
        }
      }
      assert h.pending[0..] == h.pending;
      SetHub(h.(pending := []));
    }

    method FlushIdle(idle: bool)
      modifies shared`hubs, shared`sent
      ensures !old(Live()) ==> shared.hubs == old(shared.hubs) && shared.sent == old(shared.sent)
      ensures old(Live()) ==>
        var r := Flushed(old(shared.hubs)[sessionId.value], self, idle, shared.observed);
        shared.hubs == old(shared.hubs)[sessionId.value := r.0] && shared.sent == old(shared.sent) + r.1
      ensures old(stopped || !enabled || sessionId.None?) ==>
        shared.hubs == old(shared.hubs) && shared.sent == old(shared.sent)
    {
      if !Live() {
        return;
      }
      var h := MyHub().(timer := None);
      SetHub(h);
      if h.handoff.Some? || h.errorHeld || h.pending == [] {
        return;
      }
      if !idle {
        Schedule();
        return;
      }
      var wakes := Take();
      Send(wakes, true);
    }

    method AgentEnd(reason: StopReason)
      modifies shared`hubs, shared`sent
      ensures !old(Live()) ==> shared.hubs == old(shared.hubs) && shared.sent == old(shared.sent)
      ensures old(Live()) ==>
        var r := RunEnded(old(shared.hubs)[sessionId.value], reason, shared.observed);
        shared.hubs == old(shared.hubs)[sessionId.value := r.0] && shared.sent == old(shared.sent) + r.1
      ensures old(stopped || !enabled || sessionId.None?) ==>
        shared.hubs == old(shared.hubs) && shared.sent == old(shared.sent)
    {
      if !Live() {
        return;
      }
      var h := MyHub().(errorHeld := reason == Error);
      SetHub(h);
      if h.errorHeld || h.pending == [] {
        return;
      }
      if h.timer.Some? {
        h := h.(timer := None);
        SetHub(h);
      }
      if reason == Aborted {
        var wakes := Take();
        Send(wakes, false);
      } else if h.handoff.None? {
        var wakes := Take();
        Send(wakes, true);
      }
    }

    method AgentSettled()
      modifies shared`hubs, shared`sent
      ensures !old(Live()) ==> shared.hubs == old(shared.hubs) && shared.sent == old(shared.sent)
      ensures old(Live()) ==>
        var r := RunSettled(old(shared.hubs)[sessionId.value], self, shared.observed);
        shared.hubs == old(shared.hubs)[sessionId.value := r.0] && shared.sent == old(shared.sent) + r.1
      ensures old(stopped || !enabled || sessionId.None?) ==>
        shared.hubs == old(shared.hubs) && shared.sent == old(shared.sent)
    {
      if !Live() {
        return;
      }
      var h := MyHub();
      if h.errorHeld {
        SetHub(h.(errorHeld := false));
        var wakes := Take();
        Send(wakes, false);
        return;
      }
      Schedule();
    }

    method BeginHandoff(session: string, attempt: string)
      modifies shared`hubs
      ensures shared.hubs == if old(Live()) && sessionId == Some(session)
                             then old(shared.hubs)[session := HandoffBegun(old(shared.hubs)[session], attempt)]
                             else old(shared.hubs)
      ensures old(stopped || !enabled || sessionId.None?) ==> shared.hubs == old(shared.hubs)
    {
      if !Live() || sessionId != Some(session) {
        return;
      }
      SetHub(MyHub().(handoff := Some(attempt), timer := None));
    }

    method RollBackHandoff(attempt: string)
      modifies shared`hubs
      ensures shared.hubs == if old(Live())
                             then old(shared.hubs)[sessionId.value :=
                               HandoffRolledBack(old(shared.hubs)[sessionId.value], self, attempt)]
                             else old(shared.hubs)
      ensures old(stopped || !enabled || sessionId.None?) ==> shared.hubs == old(shared.hubs)
    {
      if !Live() {
        return;
      }
      var h := MyHub();
      if h.handoff != Some(attempt) {
        assert shared.hubs == shared.hubs[sessionId.value := h];
        return;
      }
      SetHub(h.(handoff := None));
      Schedule();
    }

    /** Teardown stops the hub for every member. */
    method Stop()
      modifies `stopped, shared`hubs
      ensures stopped
      ensures shared.hubs == if old(stopped) || sessionId.None? then old(shared.hubs)
        else old(shared.hubs) - {sessionId.value}
    {
      if stopped {
        return;
      }
      if sessionId.Some? {
        shared.hubs := shared.hubs - {sessionId.value};
      }
      stopped := true;
    }
  }
}
