/** The inbox and receipt operations of `extensions/_shared/coordinator-state.ts`, each a
    sequence of steps of `CoordinatorInbox`.  Between two steps of one caller everybody else
    may take any number of them. */
module CoordinatorHost {
  import opened CoordinatorInbox
  import opened Wrappers

  /** A step that uses neither the lock held here nor the worker that runs here. */
  predicate ByOthers(a: Action, held: Option<nat>, worker: Option<nat>) {
    match a
    case StartWorker(w, _) => worker != Some(w)
    case StopWorker(w) => worker != Some(w)
    case Copy(w, _, _) => worker != Some(w)
    case Remove(w, _) => worker != Some(w)
    case Write(r) => held != Some(r)
    case DrainCopy(r, _, _) => held != Some(r)
    case DrainRemove(r, _) => held != Some(r)
    case RemoveInbox(r) => held != Some(r)
    case Abandon(r) => held != Some(r)
    case FindStale(p, _, _, _) => worker != Some(p)
    case GiveUp(p) => worker != Some(p)
    case BeginPrune(p) => worker != Some(p)
    case _ => true
  }

  // ------------------------------------------------------- what others leave alone

  ghost predicate KeepsAll(s: State, t: State) {
    && (forall m | Handled(s, m) :: Handled(t, m))
    && (forall m | Safe(s, m) :: Safe(t, m))
    && (forall m | Kept(s, m) :: Kept(t, m))
    && s.clock <= t.clock && t.alive <= s.alive && s.enqueued <= t.enqueued
  }

  predicate SameHolder(s: State, t: State, held: Option<nat>) {
    held.Some? && held.value in s.locks ==>
      var r := held.value;
      r in t.locks && t.locks[r] == s.locks[r] && Inbox(t, r) <= Inbox(s, r)
  }

  predicate SameWorker(s: State, t: State, worker: Option<nat>) {
    worker.Some? ==>
      var w := worker.value;
      && (w in s.workers ==> w in t.workers && t.workers[w] == s.workers[w])
      && (w in s.found <==> w in t.found) && (w in s.found ==> t.found[w] == s.found[w])
  }

  ghost predicate Steady(s: State, t: State, held: Option<nat>, worker: Option<nat>) {
    KeepsAll(s, t) && SameHolder(s, t, held) && SameWorker(s, t, worker)
  }

  lemma KeptStays(s: State, a: Action, m: Message)
    requires Inv(s) && Can(s, a) && Kept(s, m)
    ensures Kept(Do(s, a), m)
  {
    hide Can, Do, Inv, Safe;
    if Safe(s, m) {
      SafeStays(s, a, m);
    } else if m !in Inbox(Do(s, a), m.runtime) {
      LeavesSafely(s, a, m);
    }
  }

  lemma StepKeepsAll(s: State, a: Action)
    requires Inv(s) && Can(s, a)
    ensures KeepsAll(s, Do(s, a))
  {
    hide Can, Do, Inv, Handled, Safe, Kept;
    forall m | Handled(s, m) ensures Handled(Do(s, a), m) {
      HandledStays(s, a, m);
    }
    forall m | Safe(s, m) ensures Safe(Do(s, a), m) {
      SafeStays(s, a, m);
    }
    forall m | Kept(s, m) ensures Kept(Do(s, a), m) {
      KeptStays(s, a, m);
    }
    ClockEffect(s, a);
  }

  lemma HolderStays(s: State, a: Action, r: nat)
    requires Inv(s) && Can(s, a) && ByOthers(a, Some(r), None) && r in s.locks
    ensures r in Do(s, a).locks
  {
    hide Inv, MayPersist, Inbox, SetInbox, TakeOut, Persisted, FreshId, IsStale, IsOrphan, Accepts;
    hide LossesAt, UnlistedAt, WithoutReceipt;
  }

  lemma StepSameHolder(s: State, a: Action, held: Option<nat>, worker: Option<nat>)
    requires Inv(s) && Can(s, a) && ByOthers(a, held, worker)
    ensures SameHolder(s, Do(s, a), held)
  {
    hide Can, Do, Inv, Handled;
    if held.Some? && held.value in s.locks {
      var r := held.value;
      HolderStays(s, a, r);
      LockEffect(s, a, r);
      forall m | m in Inbox(Do(s, a), r) ensures m in Inbox(s, r) {
        InboxAfter(s, a, r, m);
      }
    }
  }

  lemma StepSameWorker(s: State, a: Action, held: Option<nat>, worker: Option<nat>)
    requires Can(s, a) && ByOthers(a, held, worker)
    ensures SameWorker(s, Do(s, a), worker)
  {
    hide Can, Do;
    if worker.Some? {
      if worker.value in s.workers {
        WorkerStays(s, a, worker.value, held);
      }
      FoundStays(s, a, worker.value, held);
    }
  }

  lemma WorkerStays(s: State, a: Action, w: nat, held: Option<nat>)
    requires Can(s, a) && ByOthers(a, held, Some(w)) && w in s.workers
    ensures w in Do(s, a).workers && Do(s, a).workers[w] == s.workers[w]
  {
    hide MayPersist, Inbox, SetInbox, TakeOut, Persisted, DropInbox, FreshId, IsStale, IsOrphan, Accepts;
    hide LossesAt, UnlistedAt, WithoutReceipt;
  }

  lemma FoundStays(s: State, a: Action, w: nat, held: Option<nat>)
    requires Can(s, a) && ByOthers(a, held, Some(w))
    ensures w in s.found <==> w in Do(s, a).found
    ensures w in s.found ==> Do(s, a).found[w] == s.found[w]
  {
    hide MayPersist, Inbox, SetInbox, TakeOut, Persisted, DropInbox, FreshId, IsStale, IsOrphan, Accepts;
    hide LossesAt, UnlistedAt, WithoutReceipt;
  }

  lemma SteadyTransitive(s: State, t: State, u: State, held: Option<nat>, worker: Option<nat>)
    requires Steady(s, t, held, worker) && Steady(t, u, held, worker)
    ensures Steady(s, u, held, worker)
  {
    hide Handled, Safe, Kept, Inbox;
  }

  lemma {:induction false} OthersAreSteady(s: State, actions: seq<Action>, held: Option<nat>, worker: Option<nat>)
    requires Inv(s) && Legal(s, actions) && forall i | 0 <= i < |actions| :: ByOthers(actions[i], held, worker)
    ensures Inv(RunOf(s, actions)) && Steady(s, RunOf(s, actions), held, worker)
    decreases |actions|
  {
    hide Can, Do, Inv, Handled, Kept, ByOthers;
    if actions == [] {
      assert Steady(s, s, held, worker);
    } else {
      var t := Do(s, actions[0]);
      StepInv(s, actions[0]);
      StepKeepsAll(s, actions[0]);
      StepSameHolder(s, actions[0], held, worker);
      StepSameWorker(s, actions[0], held, worker);
      OthersAreSteady(t, actions[1..], held, worker);
      SteadyTransitive(s, t, RunOf(s, actions), held, worker);
    }
  }

  lemma {:induction false} RunAppend(s: State, first: seq<Action>, rest: seq<Action>)
    requires Legal(s, first) && Legal(RunOf(s, first), rest)
    ensures Legal(s, first + rest) && RunOf(s, first + rest) == RunOf(RunOf(s, first), rest)
    decreases |first|
  {
    hide Can, Do;
    if first == [] {
      assert first + rest == rest;
    } else {
      RunAppend(Do(s, first[0]), first[1..], rest);
      assert (first + rest)[1..] == first[1..] + rest;
    }
  }

  lemma NothingChanged(s: State)
    ensures KeepsAll(s, s)
  {
  }

  lemma AllKept(s: State, t: State, u: State)
    requires KeepsAll(s, t) && KeepsAll(t, u)
    ensures KeepsAll(s, u)
  {
    hide Handled, Safe, Kept;
  }

  lemma SenderHolds(s: State, r: nat)
    requires Inv(s) && r in s.locks && s.locks[r].Sender?
    ensures s.locks[r].message !in s.enqueued && s.locks[r].message.runtime == r
  {
    assert HolderOk(s, r);
  }

  lemma InboxOf(s: State, r: nat, m: Message)
    requires Inv(s) && m in Inbox(s, r)
    ensures m.runtime == r && m in s.enqueued && Kept(s, m)
  {
    assert InboxOk(s, r, m);
  }

  /** Of what was listed for a session, all but the rest is safe with it. */
  ghost predicate SafeBut(s: State, listed: set<Message>, session: string, rest: set<Message>) {
    listed <= s.enqueued && forall m | m in listed && m.session == session && m !in rest :: Safe(s, m)
  }

  lemma SafeOn(s: State, t: State, listed: set<Message>, session: string, rest: set<Message>)
    requires KeepsAll(s, t) && SafeBut(s, listed, session, rest)
    ensures SafeBut(t, listed, session, rest)
  {
    hide Handled, Safe, Kept;
  }

  /** Whatever the dead runtimes held for the session when it began is safe with it. */
  ghost predicate Adopted(s: State, t: State, entries: seq<nat>, self: nat, session: string) {
    forall i, m | 0 <= i < |entries| && entries[i] != self && entries[i] !in s.alive ::
      m in Inbox(s, entries[i]) && m.session == session ==> Safe(t, m)
  }

  lemma AdoptedOn(s: State, t: State, u: State, entries: seq<nat>, self: nat, session: string)
    requires Adopted(s, t, entries, self, session) && KeepsAll(t, u)
    ensures Adopted(s, u, entries, self, session)
  {
    hide Handled, Safe, Kept, Inbox;
  }

  /** What was in an inbox and is not listed now is safe, or safe by now. */
  lemma ListedOrSafe(s: State, t: State, r: nat, m: Message)
    requires Inv(s) && KeepsAll(s, t) && m in Inbox(s, r)
    ensures m in Readable(t, r) || Safe(t, m)
  {
    InboxOf(s, r, m);
    assert Kept(t, m);
  }

  lemma OneMoreAdopted(s: State, t: State, u: State, entries: seq<nat>, i: nat, self: nat, session: string)
    requires Inv(s) && KeepsAll(s, t) && KeepsAll(t, u) && i < |entries| && Adopted(s, u, entries[..i], self, session)
    requires SafeBut(u, Readable(t, entries[i]), session, {})
    ensures Adopted(s, u, entries[..i + 1], self, session)
  {
    hide Handled, Safe, Kept, Inbox, Inv, Readable;
    forall k, m |
      && 0 <= k < i + 1 && entries[k] != self && entries[k] !in s.alive
      && m in Inbox(s, entries[k]) && m.session == session
      ensures Safe(u, m)
    {
      if k < i {
        assert entries[..i][k] == entries[k];
      } else {
        ListedOrSafe(s, t, entries[k], m);
      }
    }
  }

  lemma ReadableEnqueued(s: State, r: nat)
    requires Inv(s)
    ensures Readable(s, r) <= s.enqueued
  {
    forall m | m in Readable(s, r) ensures m in s.enqueued {
      InboxOf(s, r, m);
    }
  }

  lemma CopiedNow(s: State, w: nat, m: Message, known: bool)
    requires Inv(s) && w in s.workers && Can(s, Copy(w, m, known))
    ensures
      var t := Do(s, Copy(w, m, known));
      && Handled(t, m) && (!known ==> m in Receipts(t, m.session))
      && w in t.workers && t.workers[w] == s.workers[w].(carrying := s.workers[w].carrying + {m})
  {
    hide MayPersist, Handled;
    CopiedIsDelivered(s, m, known);
    HandledOn(Persisted(s, m, known), Do(s, Copy(w, m, known)), m);
  }

  lemma HandledIsSafe(s: State, m: Message)
    requires Handled(s, m)
    ensures Safe(s, m)
  {
  }

  lemma HolderPart(s: State, t: State, held: Option<nat>, worker: Option<nat>)
    requires Steady(s, t, held, worker)
    ensures KeepsAll(s, t) && SameHolder(s, t, held) && SameWorker(s, t, worker)
  {
  }

  /** After others had their turn: nothing lost, and the worker is as it was. */
  lemma Move(s0: State, s: State, t: State, held: Option<nat>, w: nat)
    requires KeepsAll(s0, s) && Steady(s, t, held, Some(w)) && w in s.workers
    ensures KeepsAll(s0, t) && w in t.workers && t.workers[w] == s.workers[w]
  {
    hide Handled, Safe, Kept;
    AllKept(s0, s, t);
  }

  lemma Settle(s0: State, s: State, t: State, held: Option<nat>, w: nat,
               listed: set<Message>, session: string, rest: set<Message>)
    requires KeepsAll(s0, s) && Steady(s, t, held, Some(w)) && w in s.workers && SafeBut(s, listed, session, rest)
    ensures KeepsAll(s0, t) && w in t.workers && t.workers[w] == s.workers[w] && SafeBut(t, listed, session, rest)
  {
    hide Handled, Safe, Kept, KeepsAll, SafeBut;
    Move(s0, s, t, held, w);
    SafeOn(s, t, listed, session, rest);
  }

  /** When the directory is gone, whatever was in it is safe. */
  lemma GoneIsSafe(s: State, t: State, r: nat)
    requires Inv(s) && KeepsAll(s, t) && r !in t.inboxes
    ensures forall m | m in Inbox(s, r) :: Safe(t, m)
  {
    hide Inv, Safe, KeepsAll;
    forall m | m in Inbox(s, r) ensures Safe(t, m) {
      InboxOf(s, r, m);
      assert Kept(t, m) by { StillKept(s, t, m); }
    }
  }

  lemma StillKept(s: State, t: State, m: Message)
    requires KeepsAll(s, t) && Kept(s, m)
    ensures Kept(t, m)
  {
    hide Kept, Handled;
  }

  lemma InboxBounded(s: State, r: nat)
    requires Inv(s)
    ensures |Inbox(s, r)| <= MAX_INBOX_MESSAGES
  {
  }

  lemma StillEnqueued(s: State, t: State, listed: set<Message>)
    requires KeepsAll(s, t) && listed <= s.enqueued
    ensures listed <= t.enqueued
  {
  }

  lemma NothingSafeYet(s: State, listed: set<Message>, session: string)
    requires listed <= s.enqueued
    ensures SafeBut(s, listed, session, {} + listed)
  {
  }

  lemma SafeWithout(s: State, listed: set<Message>, session: string, rest: set<Message>, m: Message)
    requires SafeBut(s, listed, session, rest + {m}) && Safe(s, m)
    ensures SafeBut(s, listed, session, rest)
  {
    hide Delivered;
  }

  lemma OldOnesSafe(s: State, t: State, r: nat, listed: set<Message>, session: string, left: set<Message>)
    requires Inv(s) && KeepsAll(s, t) && listed == Readable(s, r) && SafeBut(t, listed, session, left)
    ensures forall m | m in Inbox(s, r) && m.session == session :: m in left || Safe(t, m)
  {
    hide Inv, Inbox, Kept;
    forall m | m in Inbox(s, r) && m.session == session
      ensures m in left || Safe(t, m)
    {
      if m !in listed {
        assert Expired(s, m);
      }
    }
  }

  // What the steps of a lock holder are allowed to do, and do.

  lemma BeginsShutdown(s: State, r: nat, session: string, unread: bool)
    requires Inv(s) && r !in s.locks
    ensures Can(s, BeginShutdown(r, session, if unread then {} else Inbox(s, r), unread))
    ensures
      var t := Do(s, BeginShutdown(r, session, if unread then {} else Inbox(s, r), unread));
      && r in t.locks && t.locks[r].Shutdown? && t.locks[r].session == session
      && t.locks[r].unread == unread && (unread ==> t.locks[r].left == {})
  {
    hide Inv;
    InboxBounded(s, r);
  }

  lemma ListedOnly(s: State, r: nat, session: string, unread: bool)
    requires Inv(s) && r !in s.locks
    ensures Can(s, BeginShutdown(r, session, if unread then {} else Inbox(s, r), unread))
    ensures
      var t := Do(s, BeginShutdown(r, session, if unread then {} else Inbox(s, r), unread));
      r in t.locks && t.locks[r].Shutdown? && t.locks[r].left <= Inbox(s, r)
  {
    hide Inv;
    InboxBounded(s, r);
  }

  lemma RefusedIsFull(s: State, m: Message, known: bool)
    requires !MayPersist(s, m, known) && (known ==> Handled(s, m))
    ensures ReceiptsFull(m.session)(s)
  {
  }

  lemma Drains(s: State, r: nat, m: Message, remembers: bool)
    requires r in s.locks && s.locks[r].Shutdown? && s.locks[r].session == m.session && m in s.locks[r].left
    requires MayPersist(s, m, remembers)
    ensures Can(s, DrainCopy(r, m, remembers))
    ensures
      var t := Do(s, DrainCopy(r, m, remembers));
      r in t.locks && t.locks[r] == s.locks[r].(left := s.locks[r].left - {m})
  {
    hide MayPersist;
  }

  lemma DrainRemoves(s: State, r: nat, m: Message)
    requires r in s.locks && s.locks[r].Shutdown? && !s.locks[r].unread && m !in s.locks[r].left
    ensures Can(s, DrainRemove(r, m)) && Do(s, DrainRemove(r, m)).locks == s.locks
  {
  }

  lemma BeginsSend(s: State, m: Message)
    requires m.runtime !in s.locks && m.runtime in s.presences && Accepts(s, s.presences[m.runtime], m) && FreshId(s, m)
    requires |Inbox(s, m.runtime)| < MAX_INBOX_MESSAGES && m.expiresAt <= s.clock + MESSAGE_TTL_MS
    ensures Can(s, BeginSend(m))
    ensures var t := Do(s, BeginSend(m)); m.runtime in t.locks && t.locks[m.runtime] == Sender(m)
  {
  }

  lemma Writes(s: State, r: nat)
    requires r in s.locks && s.locks[r].Sender?
    ensures Can(s, Write(r))
    ensures var t := Do(s, Write(r)); s.locks[r].message in t.enqueued && s.locks[r].message in Inbox(t, r)
  {
  }

  lemma MayAbandon(s: State, r: nat)
    requires r in s.locks
    ensures Can(s, Abandon(r)) && Do(s, Abandon(r)).enqueued == s.enqueued
  {
  }

  lemma Removes(s: State, r: nat)
    requires r in s.locks && (s.locks[r].Pruner? || (s.locks[r].Shutdown? && s.locks[r].left == {}))
    ensures Can(s, RemoveInbox(r))
    ensures
      var t := Do(s, RemoveInbox(r));
      r !in t.inboxes && r !in t.locks && t.found == s.found
  {
  }

  lemma BeginsPrune(s: State, w: nat)
    requires w in s.found && s.found[w].runtime !in s.locks
    ensures Can(s, BeginPrune(w))
    ensures
      var r, t := s.found[w].runtime, Do(s, BeginPrune(w));
      r in t.locks && t.locks[r] == Pruner(s.found[w]) && w !in t.found
  {
  }

  lemma FindsStale(s: State, w: nat, r: nat, read: bool, now: int)
    requires IsStale(s, r, read, now) && w !in s.found
    ensures Can(s, FindStale(w, r, read, now))
    ensures
      var t := Do(s, FindStale(w, r, read, now));
      w in t.found && t.found[w].runtime == r && t.found[w].read == read
  {
  }

  lemma GivesUp(s: State, w: nat)
    requires w in s.found
    ensures Can(s, GiveUp(w)) && w !in Do(s, GiveUp(w)).found
  {
  }

  /** A presence that can be read is old enough for all that was sent to it to be late. */
  lemma AllLate(s: State, r: nat, now: int)
    requires Inv(s) && IsStale(s, r, true, now)
    ensures forall m | m in Inbox(s, r) :: Expired(s, m)
  {
    hide NothingLost, WorkersOk, HoldersOk, IdsOk, ReceiptsOk, FoundOk, LossesOk;
    forall m | m in Inbox(s, r) ensures Expired(s, m) {
      assert InboxOk(s, r, m);
    }
  }

  lemma StillLate(s: State, t: State, messages: set<Message>)
    requires KeepsAll(s, t) && forall m | m in messages :: Expired(s, m)
    ensures forall m | m in messages :: Expired(t, m)
  {
  }

  lemma SameFinding(s: State, t: State, w: nat, held: Option<nat>)
    requires Steady(s, t, held, Some(w))
    ensures KeepsAll(s, t) && (w in s.found <==> w in t.found) && (w in s.found ==> t.found[w] == s.found[w])
  {
  }

  lemma NoneAdopted(s: State, t: State, entries: seq<nat>, self: nat, session: string)
    ensures Adopted(s, t, entries[..0], self, session)
  {
  }

  /** A runtime that is alive now was so at the beginning. */
  lemma NotDead(s: State, t: State, entries: seq<nat>, i: nat, self: nat, session: string)
    requires KeepsAll(s, t) && i < |entries| && (entries[i] == self || entries[i] in t.alive)
    requires Adopted(s, t, entries[..i], self, session)
    ensures Adopted(s, t, entries[..i + 1], self, session)
  {
    hide Handled, Safe, Kept, Inbox;
    forall k, m |
      && 0 <= k < i + 1 && entries[k] != self && entries[k] !in s.alive
      && m in Inbox(s, entries[k]) && m.session == session
      ensures Safe(t, m)
    {
      assert k < i && entries[..i][k] == entries[k];
    }
  }

  // ---------------------------------------------------------------- the operations

  /** At some moment of a history, from a place in it on. */
  ghost predicate Was(start: State, actions: seq<Action>, from: nat, what: State -> bool) {
    exists i | from <= i <= |actions| :: Legal(start, actions[..i]) && what(RunOf(start, actions[..i]))
  }

  lemma IsNow(start: State, actions: seq<Action>, from: nat, what: State -> bool)
    requires Legal(start, actions) && from <= |actions| && what(RunOf(start, actions))
    ensures Was(start, actions, from, what)
  {
    hide Legal, RunOf;
    assert actions[..|actions|] == actions;
  }

  lemma StillWas(start: State, before: seq<Action>, after: seq<Action>, from: nat, since: nat, what: State -> bool)
    requires Was(start, before, since, what) && before <= after && from <= since
    ensures Was(start, after, from, what)
  {
    hide Legal, RunOf;
    var i :| since <= i <= |before| && Legal(start, before[..i]) && what(RunOf(start, before[..i]));
    assert after[..i] == before[..i];
  }

  /** No room for another receipt. */
  function ReceiptsFull(session: string): State -> bool {
    (s: State) => |Receipts(s, session)| >= MAX_SESSION_RECEIPTS
  }

  function Locked(r: nat): State -> bool {
    (s: State) => r in s.locks
  }

  function LockedOrUsed(r: nat, now: int): State -> bool {
    (s: State) => r in s.locks || !IsOrphan(s, r, now)
  }

  function StaleIsGone(r: nat, read: bool, now: int): State -> bool {
    (s: State) => r !in s.inboxes || r in s.locks || !IsStale(s, r, read, now)
  }

  function OrphanIsGone(r: nat, now: int): State -> bool {
    (s: State) => r !in s.inboxes || r in s.locks || !IsOrphan(s, r, now)
  }

  lemma LockedWas(start: State, actions: seq<Action>, from: nat, r: nat, read: bool, now: int)
    requires Was(start, actions, from, Locked(r))
    ensures Was(start, actions, from, StaleIsGone(r, read, now))
  {
    hide Legal, RunOf;
    var i :| from <= i <= |actions| && Legal(start, actions[..i]) && Locked(r)(RunOf(start, actions[..i]));
    assert StaleIsGone(r, read, now)(RunOf(start, actions[..i]));
  }

  lemma UsedWas(start: State, actions: seq<Action>, from: nat, r: nat, now: int)
    requires Was(start, actions, from, LockedOrUsed(r, now))
    ensures Was(start, actions, from, OrphanIsGone(r, now))
  {
    hide Legal, RunOf;
    var i :| from <= i <= |actions| && Legal(start, actions[..i]) && LockedOrUsed(r, now)(RunOf(start, actions[..i]));
    assert OrphanIsGone(r, now)(RunOf(start, actions[..i]));
  }

  class Room {
    var state: State
    ghost var start: State
    ghost var actions: seq<Action>

    /** The state is where a run of the machine has led. */
    ghost predicate Valid()
      reads this
    {
      Initial(start) && Legal(start, actions) && RunOf(start, actions) == state
    }

    /** The history only grows, and nothing is lost on the way. */
    twostate predicate Continues()
      reads this
    {
      start == old(start) && old(actions) <= actions && KeepsAll(old(state), state)
    }

    constructor (clock: int, alive: set<nat>)
      ensures Valid() && state == Start(clock, alive)
    {
      state := Start(clock, alive);
      start := Start(clock, alive);
      actions := [];
    }

    lemma ValidInv()
      requires Valid()
      ensures Inv(state)
    {
      hide Can, Do;
      RunInv(start, actions);
    }

    /** One step of the caller. */
    method Take(a: Action)
      requires Valid() && Can(state, a)
      modifies this
      ensures Valid() && Continues() && Inv(state) && state == Do(old(state), a)
    {
      hide Can, Do, Inv, KeepsAll;
      ValidInv();
      StepInv(state, a);
      StepKeepsAll(state, a);
      assert RunOf(state, [a]) == Do(state, a) by {
        assert [a][1..] == [];
      }
      RunAppend(start, actions, [a]);
      actions := actions + [a];
      state := Do(state, a);
    }

    /** Everybody else.  Nothing is promised but that only others took steps; this body
        takes none, and callers cannot tell. */
    method Interfere(held: Option<nat>, worker: Option<nat>) returns (ghost steps: seq<Action>)
      requires Valid()
      modifies this
      ensures Valid() && start == old(start) && actions == old(actions) + steps
      ensures Legal(old(state), steps) && state == RunOf(old(state), steps)
      ensures forall i | 0 <= i < |steps| :: ByOthers(steps[i], held, worker)
    {
      steps := [];
    }

    method Yield(held: Option<nat>, worker: Option<nat>)
      requires Valid()
      modifies this
      ensures Valid() && Continues() && Inv(state) && Steady(old(state), state, held, worker)
    {
      hide Can, Do, Inv, ByOthers, Delivered, Kept;
      ValidInv();
      ghost var before := state;
      ghost var steps := Interfere(held, worker);
      OthersAreSteady(before, steps, held, worker);
    }

    /** One step of the caller, counted from an earlier state. */
    method Act(a: Action, ghost from: State)
      requires Valid() && Can(state, a) && KeepsAll(from, state)
      modifies this
      ensures Valid() && Inv(state) && state == Do(old(state), a)
      ensures start == old(start) && old(actions) <= actions && KeepsAll(from, state)
    {
      hide Inv, KeepsAll, Can, Do;
      ghost var s := state;
      Take(a);
      AllKept(from, s, state);
    }

    /** Others have their turn while the caller holds a lock. */
    method Hold(r: nat, worker: Option<nat>, ghost from: State)
      requires Valid() && r in state.locks && KeepsAll(from, state)
      modifies this
      ensures Valid() && Inv(state) && r in state.locks && state.locks[r] == old(state.locks[r])
      ensures worker.Some? ==> (worker.value in state.found <==> old(worker.value in state.found))
      ensures start == old(start) && old(actions) <= actions && KeepsAll(from, state)
    {
      hide Inv, KeepsAll, Can, Do, Steady;
      ghost var s := state;
      Yield(Some(r), worker);
      HolderPart(s, state, Some(r), worker);
      AllKept(from, s, state);
    }

    /** A file operation may fail for reasons of its own. */
    method Chance() returns (b: bool) {
      b := *;
    }

    /** `unread` and `fails` say whether the presence can be read and the message written. */
    method EnqueueMessage(m: Message, unread: bool, fails: bool) returns (sent: bool)
      requires Valid() && FreshId(state, m) && m.expiresAt <= state.clock + MESSAGE_TTL_MS
      modifies this
      ensures Valid() && Continues() && Inv(state)
      ensures sent <==>
        !unread && !fails && old(m.runtime !in state.locks && m.runtime in state.presences &&
          Accepts(state, state.presences[m.runtime], m) && |Inbox(state, m.runtime)| < MAX_INBOX_MESSAGES)
      ensures sent <==> m in state.enqueued
      ensures sent ==> m in Inbox(state, m.runtime)
    {
      hide Inv, KeepsAll, Can, Do, Inbox;
      ValidInv();
      NothingChanged(state);
      var r := m.runtime;
      if r in state.locks || r !in state.presences || unread {
        return false;
      }
      var target := state.presences[r];
      if target.until <= state.clock || r !in state.alive || target.session != m.session {
        return false;
      }
      if m.asks && !target.answers {
        return false;
      }
      if |Inbox(state, r)| >= MAX_INBOX_MESSAGES {
        return false;
      }
      ghost var s0 := state;
      BeginsSend(state, m);
      Act(BeginSend(m), s0);
      Hold(r, None, s0);
      SenderHolds(state, r);
      if fails {
        MayAbandon(state, r);
        Act(Abandon(r), s0);
        return false;
      }
      Writes(state, r);
      Act(Write(r), s0);
      return true;
    }

    /** A message of the worker's session goes to the receipts, unless they are full. */
    method PersistSessionReceipt(w: nat, m: Message, remembers: bool) returns (ok: bool)
      requires Valid() && w in state.workers && m.session == state.workers[w].session && m in state.enqueued
      requires remembers ==> Handled(state, m)
      modifies this
      ensures Valid() && Continues() && Inv(state) && w in state.workers
      ensures ok ==> Safe(state, m) && (!remembers ==> m in Receipts(state, m.session))
      ensures ok ==> state.workers[w] == old(state.workers[w].(carrying := state.workers[w].carrying + {m}))
      ensures ok <==>
        remembers || old(HasReceipt(state, m.session, m.id) || |Receipts(state, m.session)| < MAX_SESSION_RECEIPTS)
      ensures !ok ==> state == old(state)
    {
      hide Inv, KeepsAll, Kept, Handled, Safe, Do;
      ValidInv();
      NothingChanged(state);
      if !remembers && !HasReceipt(state, m.session, m.id) && |Receipts(state, m.session)| >= MAX_SESSION_RECEIPTS {
        return false;
      }
      CopiedNow(state, w, m, remembers);
      Take(Copy(w, m, remembers));
      assert Safe(state, m) by { HandledIsSafe(state, m); }
      return true;
    }

    method RemoveInboxItem(w: nat, m: Message)
      requires Valid() && w in state.workers && m in state.workers[w].carrying
      modifies this
      ensures Valid() && Continues() && Inv(state) && m !in Inbox(state, m.runtime)
      ensures w in state.workers && state.workers[w].session == old(state.workers[w].session)
    {
      hide Inv, KeepsAll;
      Take(Remove(w, m));
    }

    /** Copies what was listed for the session and removes it, message by message. */
    method TakeOver(w: nat, listed: set<Message>) returns (ok: bool)
      requires Valid() && w in state.workers && listed <= state.enqueued
      modifies this
      ensures Valid() && Continues() && Inv(state)
      ensures w in state.workers && state.workers[w].session == old(state.workers[w].session)
      ensures ok ==> SafeBut(state, listed, old(state.workers[w].session), {})
      ensures !ok ==> Was(start, actions, |old(actions)|, ReceiptsFull(old(state.workers[w].session)))
    {
      hide Was;
      hide Inv, Can, Do, Kept, Handled, Safe, KeepsAll, Steady;
      ValidInv();
      NothingChanged(state);
      ghost var s0 := state;
      var session := state.workers[w].session;
      var rest := set m | m in listed && m.session == session;
      while rest != {}
        invariant Valid() && start == old(start) && old(actions) <= actions && KeepsAll(s0, state) && Inv(state)
        invariant w in state.workers && state.workers[w].session == session
        invariant rest <= listed && (forall m | m in rest :: m.session == session)
        invariant SafeBut(state, listed, session, rest)
        decreases rest
      {
        var m :| m in rest;
        ghost var s1 := state;
        Yield(None, Some(w));
        ghost var s2 := state;
        Settle(s0, s1, s2, None, w, listed, session, rest);
        ok := PersistSessionReceipt(w, m, false);
        AllKept(s0, s2, state);
        if !ok {
          IsNow(start, actions, |old(actions)|, ReceiptsFull(session));
          return;
        }
        SafeOn(s2, state, listed, session, rest);
        rest := rest - {m};
        ghost var s3 := state;
        Yield(None, Some(w));
        ghost var s4 := state;
        Settle(s0, s3, s4, None, w, listed, session, rest);
        RemoveInboxItem(w, m);
        AllKept(s0, s4, state);
        SafeOn(s4, state, listed, session, rest);
      }
      return true;
    }

    /** A successor takes over what is left in the inboxes of runtimes that are gone. */
    method AdoptSessionInboxMessages(w: nat, self: nat, entries: seq<nat>) returns (ok: bool)
      requires Valid() && w in state.workers
      modifies this
      ensures Valid() && Continues() && Inv(state)
      ensures w in state.workers && state.workers[w].session == old(state.workers[w].session)
      ensures ok ==> Adopted(old(state), state, entries, self, old(state.workers[w].session))
      ensures !ok ==> Was(start, actions, |old(actions)|, ReceiptsFull(old(state.workers[w].session)))
    {
      hide Was;
      hide Inv, Can, Do, Kept, Handled, Safe, KeepsAll, Steady, Adopted, SafeBut, Readable;
      ValidInv();
      NothingChanged(state);
      ghost var s0 := state;
      ghost var session := state.workers[w].session;
      assert Adopted(s0, state, entries[..0], self, session) by { NoneAdopted(s0, state, entries, self, session); }
      for i := 0 to |entries|
        invariant Valid() && start == old(start) && old(actions) <= actions && KeepsAll(s0, state) && Inv(state)
        invariant w in state.workers && state.workers[w].session == session
        invariant Adopted(s0, state, entries[..i], self, session)
      {
        var r := entries[i];
        ghost var s1 := state;
        Yield(None, Some(w));
        ghost var s2 := state;
        Move(s0, s1, s2, None, w);
        AdoptedOn(s0, s1, s2, entries[..i], self, session);
        var unread := Chance();
        if r == self || (r in state.presences && !unread && r in state.alive) {
          NotDead(s0, s2, entries, i, self, session);
          continue;
        }
        var listed := Readable(state, r);
        ReadableEnqueued(state, r);
        ghost var since := |actions|;
        ok := TakeOver(w, listed);
        AllKept(s0, s2, state);
        AdoptedOn(s0, s2, state, entries[..i], self, session);
        if !ok {
          StillWas(start, actions, actions, |old(actions)|, since, ReceiptsFull(session));
          return;
        }
        OneMoreAdopted(s0, s2, state, entries, i, self, session);
      }
      assert entries[..|entries|] == entries;
      return true;
    }

    /** A session reads its own inbox; what cannot be stored stays there for later. */
    method ProcessInbox(w: nat, self: nat) returns (left: set<Message>)
      requires Valid() && w in state.workers
      modifies this
      ensures Valid() && Continues() && Inv(state)
      ensures w in state.workers && state.workers[w].session == old(state.workers[w].session)
      ensures forall m | m in old(Inbox(state, self)) && m.session == old(state.workers[w].session) ::
                m in left || Safe(state, m)
      ensures forall m | m in left :: m in old(Readable(state, self))
      ensures (exists m :: m in left && m.session == old(state.workers[w].session)) ==>
        Was(start, actions, |old(actions)|, ReceiptsFull(old(state.workers[w].session)))
    {
      hide Was;
      hide Inv, Can, Do, Kept, Handled, Safe, KeepsAll, Steady, SafeBut, Readable, Inbox;
      ValidInv();
      NothingChanged(state);
      ghost var s0 := state;
      var session := state.workers[w].session;
      var listed := Readable(state, self);
      ReadableEnqueued(state, self);
      var rest := listed;
      left := {};
      assert SafeBut(state, listed, session, left + rest) by { NothingSafeYet(state, listed, session); }
      while rest != {}
        invariant Valid() && start == old(start) && old(actions) <= actions && KeepsAll(s0, state) && Inv(state)
        invariant w in state.workers && state.workers[w].session == session
        invariant rest <= listed <= state.enqueued && left <= listed
        invariant SafeBut(state, listed, session, left + rest)
        invariant (exists m :: m in left && m.session == session) ==>
          Was(start, actions, |old(actions)|, ReceiptsFull(session))
        decreases rest
      {
        ghost var past := actions;
        var m :| m in rest;
        ghost var due, s1 := left + rest, state;
        Yield(None, Some(w));
        ghost var s2 := state;
        Settle(s0, s1, s2, None, w, listed, session, due);
        StillEnqueued(s1, s2, listed);
        rest := rest - {m};
        assert due == left + rest + {m};
        var stored := false;
        if m.session == session {
          stored := PersistSessionReceipt(w, m, false);
          AllKept(s0, s2, state);
          SafeOn(s2, state, listed, session, due);
          StillEnqueued(s2, state, listed);
        }
        if stored {
          SafeWithout(state, listed, session, left + rest, m);
          ghost var s3 := state;
          RemoveInboxItem(w, m);
          AllKept(s0, s3, state);
          SafeOn(s3, state, listed, session, left + rest);
          StillEnqueued(s3, state, listed);
        } else {
          if m.session == session {
            IsNow(start, actions, |old(actions)|, ReceiptsFull(session));
          }
          left := left + {m};
          assert left + rest == due;
        }
        if Was(start, past, |old(actions)|, ReceiptsFull(session)) {
          StillWas(start, past, actions, |old(actions)|, |old(actions)|, ReceiptsFull(session));
        }
      }
      assert left + rest == left;
      OldOnesSafe(s0, state, self, listed, session, left);
    }

    /** A session that ends stops being announced, hands what it can read to its successor
        and removes its inbox, or leaves the rest for others to adopt. When the inbox cannot
        be listed it is removed as if it were empty. */
    method RemoveRuntimeState(r: nat, session: string, unread: bool) returns (done: bool)
      requires Valid()
      modifies this
      ensures Valid() && Continues() && Inv(state)
      ensures done ==> r !in state.inboxes && r !in state.locks
      ensures done ==> forall m | m in old(Inbox(state, r)) :: Safe(state, m)
      ensures !done ==>
        || old(r in state.locks) || (exists m :: m in old(Inbox(state, r)) && m.session != session)
        || Was(start, actions, |old(actions)|, ReceiptsFull(session))
    {
      hide Was;
      hide Inv, KeepsAll, Kept, Handled, Safe, Steady, Receipts, Inbox, Can, Do, MayPersist;
      ValidInv();
      NothingChanged(state);
      if r in state.locks {
        return false;
      }
      ghost var s0 := state;
      BeginsShutdown(state, r, session, unread);
      Act(BeginShutdown(r, session, if unread then {} else Inbox(state, r), unread), s0);
      var rest := state.locks[r].left;
      ListedOnly(s0, r, session, unread);
      while rest != {}
        invariant Valid() && start == old(start) && old(actions) <= actions && KeepsAll(s0, state) && Inv(state)
        invariant rest <= Inbox(s0, r)
        invariant r in state.locks && state.locks[r] == Shutdown(session, rest, unread) && (unread ==> rest == {})
        decreases rest
      {
        var m :| m in rest;
        Hold(r, None, s0);
        var remembers := Chance();
        remembers := remembers && Handled(state, m);
        if m.session != session || !MayPersist(state, m, remembers) {
          if m.session == session {
            RefusedIsFull(state, m, remembers);
            IsNow(start, actions, |old(actions)|, ReceiptsFull(session));
            assert Was(start, actions, |old(actions)|, ReceiptsFull(session));
          }
          ghost var past := actions;
          assert Can(state, Abandon(r)) by { MayAbandon(state, r); }
          Act(Abandon(r), s0);
          if m.session == session {
            StillWas(start, past, actions, |old(actions)|, |old(actions)|, ReceiptsFull(session));
          }
          return false;
        }
        Drains(state, r, m, remembers);
        Act(DrainCopy(r, m, remembers), s0);
        rest := rest - {m};
        Hold(r, None, s0);
        DrainRemoves(state, r, m);
        Act(DrainRemove(r, m), s0);
      }
      Removes(state, r);
      Act(RemoveInbox(r), s0);
      GoneIsSafe(s0, state, r);
      return true;
    }

    /** The state of a runtime that was found stale is removed, whatever became of it. */
    method RemoveFound(w: nat) returns (done: bool)
      requires Valid() && w in state.found
      modifies this
      ensures Valid() && Continues() && Inv(state) && w !in state.found
      ensures done <==> old(state.found[w].runtime !in state.locks)
      ensures done ==> old(state.found[w]).runtime !in state.inboxes
      ensures done ==> forall m | m in old(Inbox(state, state.found[w].runtime)) :: Safe(state, m)
    {
      hide Inv, KeepsAll, Kept, Handled, Safe, Steady, Inbox, Can, Do;
      ValidInv();
      NothingChanged(state);
      ghost var s0 := state;
      var r := state.found[w].runtime;
      if r in state.locks {
        GivesUp(state, w);
        Act(GiveUp(w), s0);
        return false;
      }
      BeginsPrune(state, w);
      Act(BeginPrune(w), s0);
      Hold(r, Some(w), s0);
      Removes(state, r);
      Act(RemoveInbox(r), s0);
      GoneIsSafe(s0, state, r);
      return true;
    }

    /** Removes what a runtime left behind that is dead and long unannounced, or whose old
        presence cannot be read. It is not looked at again under the lock. */
    method PruneStale(w: nat, r: nat, read: bool, now: int) returns (done: bool)
      requires Valid() && w !in state.found
      modifies this
      ensures Valid() && Continues() && Inv(state) && w !in state.found
      ensures done ==> old(IsStale(state, r, read, now))
      ensures !done ==> !old(IsStale(state, r, read, now)) || Was(start, actions, |old(actions)|, Locked(r))
      ensures done ==> r !in state.inboxes && forall m | m in old(Inbox(state, r)) :: Safe(state, m)
      ensures done && read ==> forall m | m in old(Inbox(state, r)) :: Expired(state, m)
    {
      hide Was;
      hide Inv, KeepsAll, Kept, Handled, Safe, Steady, Inbox, Can, Do, Expired, IsStale;
      ValidInv();
      NothingChanged(state);
      ghost var s0 := state;
      if !IsStale(state, r, read, now) {
        return false;
      }
      if read {
        AllLate(s0, r, now);
      }
      FindsStale(state, w, r, read, now);
      Act(FindStale(w, r, read, now), s0);
      ghost var s1 := state;
      Yield(None, Some(w));
      SameFinding(s1, state, w, None);
      ghost var s2 := state;
      AllKept(s0, s1, s2);
      ghost var past := actions;
      if r in state.locks {
        IsNow(start, actions, |old(actions)|, Locked(r));
      }
      done := RemoveFound(w);
      AllKept(s0, s2, state);
      if !done {
        StillWas(start, past, actions, |old(actions)|, |old(actions)|, Locked(r));
      }
      if done {
        GoneIsSafe(s0, state, r);
      }
      if read {
        StillLate(s0, state, Inbox(s0, r));
      }
    }

    /** Removes an inbox that belongs to nobody and that nobody touched for long. */
    method PruneOrphanInbox(r: nat, now: int) returns (done: bool)
      requires Valid()
      modifies this
      ensures Valid() && Continues() && Inv(state)
      ensures !done ==> Was(start, actions, |old(actions)|, LockedOrUsed(r, now))
      ensures done ==> r !in state.inboxes && forall m | m in old(Inbox(state, r)) :: Safe(state, m)
    {
      hide Was;
      hide Inv, KeepsAll, Kept, Handled, Safe, Steady, Inbox;
      ValidInv();
      NothingChanged(state);
      ghost var s0 := state;
      if !IsOrphan(state, r, now) {
        IsNow(start, actions, |old(actions)|, LockedOrUsed(r, now));
        return false;
      }
      Yield(None, None);
      AllKept(s0, s0, state) by { HolderPart(s0, state, None, None); }
      if r in state.locks || !IsOrphan(state, r, now) {
        IsNow(start, actions, |old(actions)|, LockedOrUsed(r, now));
        return false;
      }
      Act(PruneOrphan(r, now), s0);
      GoneIsSafe(s0, state, r);
      return true;
    }

    /** Whichever presences and directories it comes across, with the time at which it
        began, pruning loses only what a harmful finding allows, and whatever it leaves was
        in use: `readable` says which presences can be read. */
    method PruneRoom(w: nat, presences: seq<nat>, readable: seq<bool>, inboxes: seq<nat>)
      requires Valid() && w !in state.found && |readable| == |presences|
      modifies this
      ensures Valid() && Continues() && Inv(state)
      ensures forall i | 0 <= i < |presences| ::
        Was(start, actions, |old(actions)|, StaleIsGone(presences[i], readable[i], old(state.clock)))
      ensures forall i | 0 <= i < |inboxes| ::
        Was(start, actions, |old(actions)|, OrphanIsGone(inboxes[i], old(state.clock)))
    {
      hide Inv, KeepsAll, Can, Do, Was, StaleIsGone, OrphanIsGone;
      ValidInv();
      NothingChanged(state);
      ghost var s0 := state;
      var now := state.clock;
      for i := 0 to |presences|
        invariant Valid() && start == old(start) && old(actions) <= actions && KeepsAll(s0, state) && Inv(state)
        invariant w !in state.found
        invariant forall k | 0 <= k < i ::
          Was(start, actions, |old(actions)|, StaleIsGone(presences[k], readable[k], now))
      {
        ghost var past := actions;
        PruneOne(w, presences[i], readable[i], now, s0);
        StillWas(start, actions, actions, |old(actions)|, |past|, StaleIsGone(presences[i], readable[i], now));
        forall k | 0 <= k < i
          ensures Was(start, actions, |old(actions)|, StaleIsGone(presences[k], readable[k], now))
        {
          StillWas(start, past, actions, |old(actions)|, |old(actions)|, StaleIsGone(presences[k], readable[k], now));
        }
      }
      for i := 0 to |inboxes|
        invariant Valid() && start == old(start) && old(actions) <= actions && KeepsAll(s0, state) && Inv(state)
        invariant forall k | 0 <= k < |presences| ::
          Was(start, actions, |old(actions)|, StaleIsGone(presences[k], readable[k], now))
        invariant forall k | 0 <= k < i :: Was(start, actions, |old(actions)|, OrphanIsGone(inboxes[k], now))
      {
        ghost var past := actions;
        PruneOneOrphan(inboxes[i], now, s0);
        StillWas(start, actions, actions, |old(actions)|, |past|, OrphanIsGone(inboxes[i], now));
        forall k | 0 <= k < |presences|
          ensures Was(start, actions, |old(actions)|, StaleIsGone(presences[k], readable[k], now))
        {
          StillWas(start, past, actions, |old(actions)|, |old(actions)|, StaleIsGone(presences[k], readable[k], now));
        }
        forall k | 0 <= k < i
          ensures Was(start, actions, |old(actions)|, OrphanIsGone(inboxes[k], now))
        {
          StillWas(start, past, actions, |old(actions)|, |old(actions)|, OrphanIsGone(inboxes[k], now));
        }
      }
    }

    /** One presence of the room: stale and gone, in use, or locked. */
    method PruneOne(w: nat, r: nat, read: bool, now: int, ghost from: State)
      requires Valid() && w !in state.found && KeepsAll(from, state)
      modifies this
      ensures Valid() && Inv(state) && w !in state.found && start == old(start) && old(actions) <= actions
      ensures KeepsAll(from, state) && Was(start, actions, |old(actions)|, StaleIsGone(r, read, now))
    {
      hide Inv, KeepsAll, Can, Do, Was, IsStale;
      ghost var s, past := state, actions;
      if !IsStale(state, r, read, now) {
        IsNow(start, actions, |past|, StaleIsGone(r, read, now));
      }
      var done := PruneStale(w, r, read, now);
      AllKept(from, s, state);
      if done {
        IsNow(start, actions, |past|, StaleIsGone(r, read, now));
      } else if IsStale(s, r, read, now) {
        LockedWas(start, actions, |past|, r, read, now);
      } else {
        StillWas(start, past, actions, |past|, |past|, StaleIsGone(r, read, now));
      }
    }

    method PruneOneOrphan(r: nat, now: int, ghost from: State)
      requires Valid() && KeepsAll(from, state)
      modifies this
      ensures Valid() && Inv(state) && start == old(start) && old(actions) <= actions
      ensures KeepsAll(from, state) && Was(start, actions, |old(actions)|, OrphanIsGone(r, now))
    {
      hide Inv, KeepsAll, Can, Do, Was, IsOrphan;
      ghost var s, past := state, actions;
      var done := PruneOrphanInbox(r, now);
      AllKept(from, s, state);
      if done {
        IsNow(start, actions, |past|, OrphanIsGone(r, now));
      } else {
        UsedWas(start, actions, |past|, r, now);
      }
    }
  }
}
