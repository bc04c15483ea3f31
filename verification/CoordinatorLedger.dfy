/** Claims that are granted at most once, for replies and wakes (`extensions/_shared/coordinator-state.ts`). */
module CoordinatorLedger {
  import opened Wrappers

  const MAX_CLAIMS := 100

  datatype Binding = Binding(messageId: string, senderSessionId: string, recipientSessionId: string, expiresAt: int)

  /** What a claim comes to: granted, refused, or an error that writes nothing. */
  datatype Outcome = Granted | Refused | Full | Mismatch

  /** A consumed attempt; for replies, whether the reply was confirmed as queued. */
  datatype Claim = Claim(binding: Binding, queued: bool)

  function Find(claims: seq<Claim>, id: string): (i: nat)
    ensures i <= |claims| && (i < |claims| ==> claims[i].binding.messageId == id)
    ensures forall k | 0 <= k < i :: claims[k].binding.messageId != id
  {
    if claims == [] || claims[0].binding.messageId == id then 0 else 1 + Find(claims[1..], id)
  }

  /** The claims that have not expired. */
  function Unexpired(claims: seq<Claim>, now: int): seq<Claim> {
    if claims == [] then []
    else
      var last := claims[|claims| - 1];
      Unexpired(claims[..|claims| - 1], now) + (if last.binding.expiresAt > now then [last] else [])
  }

  /** One claim; the clock is read once to check the binding and once to prune. */
  function Claimed(claims: seq<Claim>, binding: Binding, check: int, prune: int): (r: (seq<Claim>, Outcome)) {
    var i := Find(claims, binding.messageId);
    if i < |claims| && claims[i].binding != binding then (claims, Mismatch)
    else if i < |claims| || binding.expiresAt <= check then (claims, Refused)
    else if |Unexpired(claims, prune)| >= MAX_CLAIMS then (claims, Full)
    else (Unexpired(claims, prune) + [Claim(binding, false)], Granted)
  }

  /** What a sender keeps about a message it sent. */
  datatype Status = Status(responseRequested: bool, sender: string, target: string, expiresAt: int,
    answeredAt: Option<int>)

  /** By sender session and message id. */
  type Statuses = map<(string, string), Status>

  function KeyOf(binding: Binding): (string, string) {
    (binding.senderSessionId, binding.messageId)
  }

  predicate AwaitsAnswer(s: Status, binding: Binding) {
    && s.responseRequested && s.sender == binding.senderSessionId && s.target == binding.recipientSessionId
    && s.expiresAt == binding.expiresAt && s.answeredAt.None?
  }

  /** The sender learns that its request was answered, the first time only. */
  function Answered(statuses: Statuses, binding: Binding, now: int): Statuses {
    if KeyOf(binding) in statuses && AwaitsAnswer(statuses[KeyOf(binding)], binding)
    then statuses[KeyOf(binding) := statuses[KeyOf(binding)].(answeredAt := Some(now))]
    else statuses
  }

  /** The ledger file of one recipient session, changed under its lock, and the statuses
      that senders keep. */
  class Ledger {
    var claims: seq<Claim>
    var statuses: Statuses

    constructor (statuses: Statuses)
      ensures claims == [] && this.statuses == statuses
    {
      this.claims, this.statuses := [], statuses;
    }

    method Lookup(id: string) returns (i: nat)
      ensures i == Find(claims, id)
    {
      i := 0;
      while i < |claims| && claims[i].binding.messageId != id
        invariant i <= |claims|
        invariant forall k | 0 <= k < i :: claims[k].binding.messageId != id
      {
        i := i + 1;
      }
      var j := Find(claims, id);
      assert !(i < j) && !(j < i);
    }

    method Prune(now: int)
      modifies `claims
      ensures claims == Unexpired(old(claims), now)
    {
      var kept: seq<Claim> := [];
      for i := 0 to |claims|
        invariant kept == Unexpired(claims[..i], now)
      {
        assert claims[..i + 1][..i] == claims[..i];
        if claims[i].binding.expiresAt > now {
          kept := kept + [claims[i]];
        }
      }
      assert claims[..|claims|] == claims;
      claims := kept;
    }

    /** An error after pruning is thrown before the file is written, so nothing changes. */
    method ClaimRequestReply(binding: Binding, check: int, prune: int) returns (outcome: Outcome)
      modifies `claims
      ensures (claims, outcome) == Claimed(old(claims), binding, check, prune)
    {
      var stored := claims;
      var i := Lookup(binding.messageId);
      if i < |claims| && claims[i].binding != binding {
        return Mismatch;
      }
      if i < |claims| || binding.expiresAt <= check {
        return Refused;
      }
      Prune(prune);
      if |claims| >= MAX_CLAIMS {
        claims := stored;
        return Full;
      }
      claims := claims + [Claim(binding, false)];
      return Granted;
    }

    /** The same with one reading of the clock. */
    method ClaimPeerWake(binding: Binding, now: int) returns (outcome: Outcome)
      modifies `claims
      ensures (claims, outcome) == Claimed(old(claims), binding, now, now)
    {
      var stored := claims;
      var i := Lookup(binding.messageId);
      if i < |claims| && claims[i].binding != binding {
        return Mismatch;
      }
      if i < |claims| || binding.expiresAt <= now {
        return Refused;
      }
      Prune(now);
      if |claims| >= MAX_CLAIMS {
        claims := stored;
        return Full;
      }
      claims := claims + [Claim(binding, false)];
      return Granted;
    }

    /** Confirms a reply whose claim is still there; otherwise an error is thrown and the
        file is not written. */
    method MarkQueued(binding: Binding) returns (marking: Marking)
      modifies `claims
      ensures marking == MarkingOf(old(claims), binding)
      ensures claims == Marked(old(claims), binding)
    {
      var i := Lookup(binding.messageId);
      if i == |claims| {
        return NotClaimed;
      }
      if claims[i].binding != binding {
        return OtherBinding;
      }
      claims := claims[i := Claim(claims[i].binding, true)];
      return Queued;
    }

    /** Tells the sender too, unless nobody claimed the reply. */
    method MarkRequestReplyQueued(binding: Binding, now: int) returns (marking: Marking)
      modifies this
      ensures marking == MarkingOf(old(claims), binding)
      ensures claims == Marked(old(claims), binding)
      ensures statuses == if marking.Queued? then Answered(old(statuses), binding, now) else old(statuses)
    {
      marking := MarkQueued(binding);
      if !marking.Queued? || KeyOf(binding) !in statuses {
        return;
      }
      var record := statuses[KeyOf(binding)];
      if !record.responseRequested || record.sender != binding.senderSessionId ||
        record.target != binding.recipientSessionId || record.expiresAt != binding.expiresAt {
        return;
      }
      if record.answeredAt.None? {
        statuses := statuses[KeyOf(binding) := record.(answeredAt := Some(now))];
      }
    }
  }

  function MarkedAt(claims: seq<Claim>, i: nat): seq<Claim> {
    if i < |claims| then claims[i := Claim(claims[i].binding, true)] else claims
  }

  function Marked(claims: seq<Claim>, binding: Binding): seq<Claim> {
    var i := Find(claims, binding.messageId);
    if i < |claims| && claims[i].binding == binding then MarkedAt(claims, i) else claims
  }

  /** The three ways in which marking a reply ends. */
  datatype Marking = Queued | OtherBinding | NotClaimed

  function MarkingOf(claims: seq<Claim>, binding: Binding): (marking: Marking)
    ensures marking.NotClaimed? <==> forall k | 0 <= k < |claims| :: claims[k].binding.messageId != binding.messageId
    ensures marking.Queued? ==> Claim(binding, true) in Marked(claims, binding)
    ensures !marking.Queued? ==> Marked(claims, binding) == claims
  {
    var i := Find(claims, binding.messageId);
    if i == |claims| then NotClaimed
    else if claims[i].binding == binding then
      assert Marked(claims, binding)[i] == Claim(binding, true);
      Queued
    else OtherBinding
  }
  /** An answer, once recorded, keeps its time whatever is marked later, and marking one
      request tells only its own sender about that request. */
  lemma AnswerIsKept(statuses: Statuses, binding: Binding, now: int, key: (string, string))
    requires key in statuses
    ensures var after := Answered(statuses, binding, now);
      && after.Keys == statuses.Keys
      && (statuses[key].answeredAt.Some? || key != KeyOf(binding) ==> after[key] == statuses[key])
      && after[key].(answeredAt := None) == statuses[key].(answeredAt := None)
  {
    assert KeyOf(binding) in statuses ==> statuses.Keys + {KeyOf(binding)} == statuses.Keys;
  }

  // ----------------------------------------------------------------------- runs

  datatype Event = ClaimEvent(binding: Binding, check: int, prune: int) | MarkEvent(binding: Binding)

  function Run(events: seq<Event>): seq<Claim> {
    if events == [] then []
    else
      var before, last := Run(events[..|events| - 1]), events[|events| - 1];
      match last
      case ClaimEvent(binding, check, prune) => Claimed(before, binding, check, prune).0
      case MarkEvent(binding) => Marked(before, binding)
  }

  /** Whether event `i` of a run was granted this binding. */
  predicate GrantedAt(events: seq<Event>, i: nat, binding: Binding)
    requires i < |events|
  {
    var e := events[i];
    e.ClaimEvent? && e.binding == binding && Claimed(Run(events[..i]), e.binding, e.check, e.prune).1 == Granted
  }

  /** The clock never goes back between claims. */
  predicate ClockOk(events: seq<Event>) {
    forall i, j | 0 <= i < j < |events| && events[i].ClaimEvent? && events[j].ClaimEvent? ::
      events[i].prune <= events[j].check
  }

  predicate Holds(claims: seq<Claim>, binding: Binding) {
    exists i | 0 <= i < |claims| :: claims[i].binding == binding
  }

  predicate UniqueIds(claims: seq<Claim>) {
    forall i, j | 0 <= i < j < |claims| :: claims[i].binding.messageId != claims[j].binding.messageId
  }

  lemma {:induction false} UnexpiredMembers(claims: seq<Claim>, now: int)
    ensures |Unexpired(claims, now)| <= |claims|
    ensures forall i | 0 <= i < |Unexpired(claims, now)| ::
      Unexpired(claims, now)[i] in claims && Unexpired(claims, now)[i].binding.expiresAt > now
    ensures forall c | c in claims && c.binding.expiresAt > now :: c in Unexpired(claims, now)
    ensures UniqueIds(claims) ==> UniqueIds(Unexpired(claims, now))
  {
    if claims != [] {
      var front, last := claims[..|claims| - 1], claims[|claims| - 1];
      UnexpiredMembers(front, now);
      assert claims == front + [last];
      var kept := Unexpired(front, now);
      if UniqueIds(claims) {
        forall i | 0 <= i < |kept|
          ensures kept[i].binding.messageId != last.binding.messageId
        {
          assert kept[i] in front;
        }
      }
    }
  }

  /** Pruning and claiming never lose a claim that has not expired, and never let the
      ledger grow past its bound. */
  lemma ClaimKeepsGuards(claims: seq<Claim>, binding: Binding, check: int, prune: int)
    requires UniqueIds(claims) && |claims| <= MAX_CLAIMS
    ensures
      var r := Claimed(claims, binding, check, prune);
      && UniqueIds(r.0) && |r.0| <= MAX_CLAIMS
      && (forall c | c in claims && c.binding.expiresAt > prune :: c in r.0)
      && (r.1 == Granted ==> binding.expiresAt > check && Claim(binding, false) in r.0)
      && (r.1 != Granted ==> r.0 == claims)
  {
    UnexpiredMembers(claims, prune);
    var i := Find(claims, binding.messageId);
    if i == |claims| {
      forall k | 0 <= k < |Unexpired(claims, prune)|
        ensures Unexpired(claims, prune)[k].binding.messageId != binding.messageId
      {
        assert Unexpired(claims, prune)[k] in claims;
      }
    }
  }

  lemma {:induction false} RunIsSound(events: seq<Event>)
    ensures UniqueIds(Run(events)) && |Run(events)| <= MAX_CLAIMS
  {
    if events != [] {
      var before := Run(events[..|events| - 1]);
      RunIsSound(events[..|events| - 1]);
      match events[|events| - 1]
      case ClaimEvent(binding, check, prune) => ClaimKeepsGuards(before, binding, check, prune);
      case MarkEvent(_) =>
    }
  }

  /** The last reading of the clock in a run, if it had one. */
  predicate After(events: seq<Event>, now: int) {
    forall i | 0 <= i < |events| && events[i].ClaimEvent? :: events[i].prune <= now
  }

  /** A granted claim that prunes this binding, if it is there. */
  predicate PrunesAt(events: seq<Event>, k: nat, binding: Binding) {
    k < |events| && GrantedAt(events, k, events[k].binding) && binding.expiresAt <= events[k].prune
  }

  /** Whatever the clock does: from its grant on, a binding is held until some later grant
      reads a time at or past its expiry. */
  lemma {:induction false} HeldOrPruned(events: seq<Event>, i: nat, binding: Binding)
    requires i < |events| && GrantedAt(events, i, binding)
    ensures Holds(Run(events), binding) || exists k | i < k < |events| :: PrunesAt(events, k, binding)
    decreases |events|
  {
    hide UniqueIds, Claimed;
    var n := |events| - 1;
    var front, last := events[..n], events[n];
    var before := Run(front);
    RunIsSound(front);
    if i < n {
      assert front[..i] == events[..i] && front[i] == events[i];
      HeldOrPruned(front, i, binding);
      if Holds(before, binding) {
        HeldOneMore(events, binding);
      } else {
        var k :| i < k < |front| && PrunesAt(front, k, binding);
        assert front[..k] == events[..k] && front[k] == events[k];
        assert PrunesAt(events, k, binding);
      }
    } else {
      ClaimKeepsGuards(before, last.binding, last.check, last.prune);
      HoldsMember(Run(events), Claim(binding, false));
    }
  }

  lemma HeldOneMore(events: seq<Event>, binding: Binding)
    requires events != [] && Holds(Run(events[..|events| - 1]), binding)
    ensures Holds(Run(events), binding) || PrunesAt(events, |events| - 1, binding)
  {
    hide UniqueIds, Claimed;
    var n := |events| - 1;
    var before, last := Run(events[..n]), events[n];
    RunIsSound(events[..n]);
    var k :| 0 <= k < |before| && before[k].binding == binding;
    if last.ClaimEvent? {
      ClaimKeepsGuards(before, last.binding, last.check, last.prune);
      assert before[k] in before;
      if before[k] in Run(events) {
        HoldsMember(Run(events), before[k]);
      }
    } else {
      assert Run(events)[k].binding == binding;
    }
  }

  /** The only way to a second grant, for every run and every clock: in between, another
      grant read a time at or past the expiry, and then the clock read a time before it. */
  lemma GrantedAgainAfterPruning(events: seq<Event>, i: nat, j: nat, binding: Binding)
    requires i < j < |events| && GrantedAt(events, i, binding) && GrantedAt(events, j, binding)
    ensures exists k | i < k < j :: PrunesAt(events, k, binding) && events[j].check < binding.expiresAt
  {
    var front := events[..j];
    assert front[..i] == events[..i] && front[i] == events[i];
    HeldOrPruned(front, i, binding);
    if Holds(Run(front), binding) {
      HeldIsFound(Run(front), binding);
    }
    var k :| i < k < |front| && PrunesAt(front, k, binding);
    assert front[..k] == events[..k] && front[k] == events[k];
    assert PrunesAt(events, k, binding);
  }

  /** With a clock that never goes back, a binding is guarded until it has expired. */
  lemma GrantIsGuarded(events: seq<Event>, i: nat, binding: Binding, now: int)
    requires i < |events| && GrantedAt(events, i, binding) && ClockOk(events) && After(events, now)
    ensures Holds(Run(events), binding) || binding.expiresAt <= now
  {
    HeldOrPruned(events, i, binding);
  }

  lemma HoldsMember(claims: seq<Claim>, c: Claim)
    requires c in claims
    ensures Holds(claims, c.binding)
  {
  }

  lemma HeldIsFound(claims: seq<Claim>, binding: Binding)
    requires Holds(claims, binding)
    ensures Find(claims, binding.messageId) < |claims|
  {
  }

  /** The clock falls below what an earlier claim read, which is also above what a still
      earlier claim read. */
  predicate DipsAt(events: seq<Event>, i: nat, k: nat, j: nat) {
    && i < k < j < |events| && events[i].ClaimEvent? && events[k].ClaimEvent? && events[j].ClaimEvent?
    && events[i].check < events[k].prune && events[j].check < events[k].prune
  }

  ghost predicate ClockDips(events: seq<Event>) {
    exists i: nat, k: nat, j: nat :: DipsAt(events, i, k, j)
  }

  /** Without a dip no binding is ever granted twice. */
  lemma NoDipNoSecondGrant(events: seq<Event>, i: nat, j: nat, binding: Binding)
    requires i < j < |events| && GrantedAt(events, i, binding) && !ClockDips(events)
    ensures !GrantedAt(events, j, binding)
  {
    if GrantedAt(events, j, binding) {
      GrantedAgainAfterPruning(events, i, j, binding);
      var k :| i < k < j && PrunesAt(events, k, binding) && events[j].check < binding.expiresAt;
      assert DipsAt(events, i, k, j);
    }
  }

  /** At most once: over any run with a clock that never goes back, with any other claims
      in between, no binding is ever granted twice. */
  lemma GrantedAtMostOnce(events: seq<Event>, i: nat, j: nat, binding: Binding)
    requires i < j < |events| && ClockOk(events)
    requires GrantedAt(events, i, binding)
    ensures !GrantedAt(events, j, binding)
  {
    assert !ClockDips(events);
    NoDipNoSecondGrant(events, i, j, binding);
  }

  /** The ledger of every run stays within its bound, and an unexpired claim outlives every
      later event. */
  lemma UnexpiredClaimsSurvive(events: seq<Event>, i: nat, binding: Binding, now: int)
    requires i < |events| && GrantedAt(events, i, binding) && ClockOk(events) && After(events, now)
    requires binding.expiresAt > now
    ensures |Run(events)| <= MAX_CLAIMS && Holds(Run(events), binding)
  {
    RunIsSound(events);
    GrantIsGuarded(events, i, binding, now);
  }

  // --------------------------------------------- the clocks that let a grant through twice

  /** The same kinds of events at the same readings of the clock. */
  predicate SameClock(a: seq<Event>, b: seq<Event>) {
    && |a| == |b| && (forall i | 0 <= i < |a| :: a[i].ClaimEvent? == b[i].ClaimEvent?)
    && forall i | 0 <= i < |a| && a[i].ClaimEvent? :: a[i].check == b[i].check && a[i].prune == b[i].prune
  }

  ghost predicate GrantsTwice(events: seq<Event>) {
    exists i: nat, j: nat, binding :: i < j < |events| && GrantedAt(events, i, binding) && GrantedAt(events, j, binding)
  }

  lemma OneClaimOnly(c: Claim, binding: Binding, check: int, prune: int)
    requires c.binding.messageId != binding.messageId && c.binding.expiresAt <= prune && check < binding.expiresAt
    ensures Claimed([c], binding, check, prune) == ([Claim(binding, false)], Granted)
  {
    var claims := [c];
    assert claims[1..] == [] && claims[..0] == [];
    assert Unexpired(claims, prune) == [];
    assert [] + [Claim(binding, false)] == [Claim(binding, false)];
  }

  lemma FirstClaim(binding: Binding, check: int, prune: int)
    requires check < binding.expiresAt
    ensures Claimed([], binding, check, prune) == ([Claim(binding, false)], Granted)
  {
    assert Unexpired([], prune) == [];
    assert [] + [Claim(binding, false)] == [Claim(binding, false)];
  }

  lemma StillClaimable(c: Claim, binding: Binding, check: int, prune: int)
    requires c.binding.messageId != binding.messageId && check < binding.expiresAt
    ensures Claimed([c], binding, check, prune).1 == Granted
  {
    assert [c][1..] == [];
    UnexpiredMembers([c], prune);
  }

  /** A claim for an expired binding, or a confirmation nobody waits for, changes nothing. */
  lemma NothingHappens(claims: seq<Claim>, binding: Binding, check: int, prune: int)
    requires |claims| <= 1 && (claims != [] ==> claims[0].binding.messageId != binding.messageId)
    ensures binding.expiresAt <= check ==> Claimed(claims, binding, check, prune).0 == claims
    ensures Marked(claims, binding) == claims
  {
    if claims != [] {
      assert claims[1..] == [];
    }
  }

  function Victim(expiresAt: int): Binding { Binding("m", "s", "r", expiresAt) }

  function Other(expiresAt: int): Binding { Binding("n", "s", "r", expiresAt) }

  function Idle(expiresAt: int): Binding { Binding("x", "s", "r", expiresAt) }

  lemma ThreeIds(a: int, b: int, c: int)
    ensures Victim(a).messageId != Other(b).messageId
    ensures Victim(a).messageId != Idle(c).messageId && Other(b).messageId != Idle(c).messageId
  {
    assert "m"[0] != "n"[0] && "m"[0] != "x"[0] && "n"[0] != "x"[0];
  }

  /** The same readings, used to claim one binding at `i` and at `j`, another one at `k`,
      and expired ones elsewhere. */
  function Staged(events: seq<Event>, i: nat, k: nat, j: nat): (r: seq<Event>)
    requires DipsAt(events, i, k, j)
    ensures SameClock(events, r)
  {
    seq(|events|, n requires 0 <= n < |events| =>
      var e := events[n];
      if e.MarkEvent? then MarkEvent(Idle(0))
      else
        ClaimEvent(
          if n == i || n == j then Victim(events[k].prune) else if n == k then Other(e.check + 1) else Idle(e.check),
                   e.check, e.prune))
  }

  lemma {:induction false} StagedRun(events: seq<Event>, i: nat, k: nat, j: nat, n: nat)
    requires DipsAt(events, i, k, j) && n <= j
    ensures
      Run(Staged(events, i, k, j)[..n]) ==
        if n <= i then []
        else if n <= k then [Claim(Victim(events[k].prune), false)]
        else [Claim(Other(events[k].check + 1), false)]
  {
    hide Claimed, Marked, Victim, Other, Idle;
    if n > 0 {
      var staged, last := Staged(events, i, k, j), events[n - 1];
      assert staged[..n][..n - 1] == staged[..n - 1];
      StagedRun(events, i, k, j, n - 1);
      var before, expiry := Run(staged[..n - 1]), events[k].prune;
      VictimExpiry(expiry, events[k].check + 1);
      if last.MarkEvent? {
        ThreeIds(expiry, events[k].check + 1, 0);
        NothingHappens(before, Idle(0), 0, 0);
      } else if n - 1 == i {
        FirstClaim(Victim(expiry), last.check, last.prune);
      } else if n - 1 == k {
        ThreeIds(expiry, last.check + 1, 0);
        OneClaimOnly(Claim(Victim(expiry), false), Other(last.check + 1), last.check, last.prune);
      } else {
        ThreeIds(expiry, events[k].check + 1, last.check);
        IdleExpiry(last.check);
        NothingHappens(before, Idle(last.check), last.check, last.prune);
      }
    }
  }

  lemma VictimExpiry(a: int, b: int)
    ensures Victim(a).expiresAt == a && Other(b).expiresAt == b
  {
  }

  lemma IdleExpiry(a: int)
    ensures Idle(a).expiresAt == a
  {
  }

  lemma StagedGrantsTwice(events: seq<Event>, i: nat, k: nat, j: nat)
    requires DipsAt(events, i, k, j)
    ensures GrantsTwice(Staged(events, i, k, j))
  {
    hide Run, Claimed, Victim, Other;
    var staged, expiry := Staged(events, i, k, j), events[k].prune;
    VictimExpiry(expiry, events[k].check + 1);
    ThreeIds(expiry, events[k].check + 1, 0);
    StagedRun(events, i, k, j, i);
    FirstClaim(Victim(expiry), events[i].check, events[i].prune);
    StagedRun(events, i, k, j, j);
    StillClaimable(Claim(Other(events[k].check + 1), false), Victim(expiry), events[j].check, events[j].prune);
    assert GrantedAt(staged, i, Victim(expiry)) && GrantedAt(staged, j, Victim(expiry));
  }

  /** The exact condition on the clock: with these readings some binding can be granted
      twice if and only if they dip. */
  lemma TwiceExactlyWhenTheClockDips(events: seq<Event>)
    ensures (exists other: seq<Event> :: SameClock(events, other) && GrantsTwice(other)) <==> ClockDips(events)
  {
    hide Run, Claimed, Staged;
    if ClockDips(events) {
      var i: nat, k: nat, j: nat :| DipsAt(events, i, k, j);
      StagedGrantsTwice(events, i, k, j);
      assert SameClock(events, Staged(events, i, k, j));
    }
    if exists other: seq<Event> :: SameClock(events, other) && GrantsTwice(other) {
      var other: seq<Event> :| SameClock(events, other) && GrantsTwice(other);
      var i: nat, j: nat, binding :| i < j < |other| && GrantedAt(other, i, binding) && GrantedAt(other, j, binding);
      GrantedAgainAfterPruning(other, i, j, binding);
      var k :| i < k < j && PrunesAt(other, k, binding) && other[j].check < binding.expiresAt;
      assert other[i].check < binding.expiresAt by { GrantedInTime(other, i, binding); }
      assert DipsAt(events, i, k, j);
    }
  }

  lemma GrantedInTime(events: seq<Event>, i: nat, binding: Binding)
    requires i < |events| && GrantedAt(events, i, binding)
    ensures events[i].check < binding.expiresAt
  {
  }

  const EARLY := Binding("m", "s", "r", 10)
  const OTHER := Binding("n", "s", "r", 30)

  lemma RunSnoc(events: seq<Event>, e: Event)
    requires e.ClaimEvent?
    ensures Run(events + [e]) == Claimed(Run(events), e.binding, e.check, e.prune).0
  {
    assert (events + [e])[..|events|] == events;
  }

  /** One such run: when an earlier time is read after a claim was pruned, the same binding
      is let through again. */
  lemma ClockGoingBackGrantsTwice() returns (events: seq<Event>)
    ensures |events| == 3 && GrantedAt(events, 0, EARLY) && GrantedAt(events, 2, EARLY) && !ClockOk(events)
  {
    hide Claimed, Run;
    var e0, e1, e2 := ClaimEvent(EARLY, 0, 0), ClaimEvent(OTHER, 20, 20), ClaimEvent(EARLY, 5, 5);
    var one := [e0];
    var two := one + [e1];
    events := two + [e2];
    assert "m"[0] != "n"[0];
    FirstClaim(EARLY, 0, 0);
    OneClaimOnly(Claim(EARLY, false), OTHER, 20, 20);
    StillClaimable(Claim(OTHER, false), EARLY, 5, 5);
    RunSnoc([], e0);
    RunSnoc(one, e1);
    assert [] + [e0] == one;
    assert Run([]) == [] by { NoEvents(); }
    assert events[..0] == [] && events[..2] == two;
    assert events[1].prune > events[2].check;
  }

  lemma NoEvents()
    ensures Run([]) == []
  {
  }
}
