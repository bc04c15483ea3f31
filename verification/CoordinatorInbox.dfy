/** No unexpired peer message is lost, unless a read fails (`extensions/_shared/coordinator-state.ts`). */
module CoordinatorInbox {
  // Inboxes, session receipts, adoption by a successor, shutdown and pruning, with processes
  // that may stop between any two steps and reads that may fail.

  import opened Wrappers

  const MESSAGE_TTL_MS := 24 * 60 * 60 * 1000
  const STALE_RETENTION_MS := 24 * 60 * 60 * 1000
  const MAX_INBOX_MESSAGES := 100
  const MAX_SESSION_RECEIPTS := 100

  /** An envelope with an exact target session, addressed to a runtime's inbox; `asks` for a
      response. */
  datatype Message = Message(id: string, runtime: nat, session: string, asks: bool, expiresAt: int)

  /** The presence file of a runtime: when it was written, how long it announces the
      runtime, for which session, and whether that one answers requests. */
  datatype Presence = Presence(written: int, until: int, session: string, answers: bool)

  /** A process that copies messages of a session out of inboxes: what it has copied and
      not yet removed. */
  datatype Worker = Worker(session: string, carrying: set<Message>)

  /** What a pruner has seen: which runtime is stale as of which time, whether it could
      read the presence, and when that file was written. */
  datatype Finding = Finding(runtime: nat, read: bool, written: int, at: int)

  /** The holder of an inbox lock: a sender that found its target live, a shutdown that
      drains for its session, or a pruner with what it found. `left` is what the shutdown
      has read and not yet copied, `unread` says that it could not list the inbox. */
  datatype Holder =
    | Sender(message: Message)
    | Shutdown(session: string, left: set<Message>, unread: bool)
    | Pruner(finding: Finding)

  /** A message that a pruner removed and that had not been delivered: what the pruner had
      found, the last announcement of the runtime, and the time. */
  datatype Loss = Loss(message: Message, finding: Finding, announced: Presence, at: int)

  /** `found` is what each pruner has found and not yet acted on. The rest is history:
      `last` are the latest announcements, `misread` the messages whose file or directory
      could not be read by one that then removes it, and `losses` what pruners took. */
  datatype State = State(
    clock: int,
    alive: set<nat>,
    presences: map<nat, Presence>,
    inboxes: map<nat, set<Message>>,
    changed: map<nat, int>,
    receipts: map<string, set<Message>>,
    locks: map<nat, Holder>,
    found: map<nat, Finding>,
    workers: map<nat, Worker>,
    enqueued: set<Message>,
    consumed: set<Message>,
    last: map<nat, Presence>,
    misread: set<Message>,
    losses: set<Loss>)

  /** Nothing is there, nobody has announced itself. */
  function Start(clock: int, alive: set<nat>): State {
    State(clock, alive, map[], map[], map[], map[], map[], map[], map[], {}, {}, map[], {}, {})
  }

  function Inbox(s: State, r: nat): set<Message> {
    if r in s.inboxes then s.inboxes[r] else {}
  }

  function Receipts(s: State, session: string): set<Message> {
    if session in s.receipts then s.receipts[session] else {}
  }

  /** Receipts are files named by the id of the message. */
  predicate HasReceipt(s: State, session: string, id: string) {
    exists x | x in Receipts(s, session) :: x.id == id
  }

  predicate Expired(s: State, m: Message) {
    m.expiresAt <= s.clock
  }

  /** What a reader sees of an inbox: expired messages are dropped on the way. */
  function Readable(s: State, r: nat): set<Message> {
    set m | m in Inbox(s, r) && !Expired(s, m)
  }

  /** `read` and `unread` say whether the file in question could be read. */
  datatype Action =
    | Tick(time: int)
    | Die(runtime: nat)
    | WritePresence(runtime: nat, session: string, answers: bool, until: int)
    | BeginSend(message: Message)
    | Write(runtime: nat)
    | Discard(runtime: nat, message: Message, unread: bool)
    | StartWorker(worker: nat, session: string)
    | StopWorker(worker: nat)
    | Copy(worker: nat, message: Message, known: bool)
    | Remove(worker: nat, message: Message)
    | BeginShutdown(runtime: nat, session: string, listed: set<Message>, unread: bool)
    | DrainCopy(runtime: nat, message: Message, known: bool)
    | DrainRemove(runtime: nat, message: Message)
    | RemoveInbox(runtime: nat)
    | Abandon(runtime: nat)
    | FindStale(pruner: nat, runtime: nat, read: bool, now: int)
    | GiveUp(pruner: nat)
    | BeginPrune(pruner: nat)
    | PruneOrphan(runtime: nat, now: int)
    | Consume(session: string, message: Message)
    | DropReceipt(session: string, message: Message, unread: bool)

  /** Safe with the session: copied, already consumed, or too late to matter. */
  predicate Delivered(s: State, m: Message) {
    m in Receipts(s, m.session) || m in s.consumed || Expired(s, m)
  }

  /** Delivered, or discarded because it could not be read. */
  predicate Handled(s: State, m: Message) {
    Delivered(s, m) || m in s.misread
  }

  /** Persisting a receipt: it is already there, or there is room for it. A process skips
      this for a message it remembers persisting. */
  predicate MayPersist(s: State, m: Message, known: bool) {
    if known then Handled(s, m)
    else HasReceipt(s, m.session, m.id) || |Receipts(s, m.session)| < MAX_SESSION_RECEIPTS
  }

  /** The target is live, in the session that is meant, and answers if it is asked to. */
  predicate Accepts(s: State, p: Presence, m: Message) {
    p.until > s.clock && m.runtime in s.alive && p.session == m.session && (m.asks ==> p.answers)
  }

  /** The id of an envelope is new: it was not sent, and nobody else is sending it. */
  predicate FreshId(s: State, m: Message) {
    && (forall x | x in s.enqueued :: x.id != m.id)
    && forall r | r in s.locks && s.locks[r].Sender? :: s.locks[r].message.id != m.id
  }

  /** Dead and unannounced for the retention time; or the file cannot be read and was
      written that long ago. */
  predicate IsStale(s: State, r: nat, read: bool, now: int) {
    r in s.presences && now <= s.clock &&
    var limit := now - STALE_RETENTION_MS;
    if read then s.presences[r].until < limit && r !in s.alive else s.presences[r].written < limit
  }

  /** An inbox that belongs to nobody and that nobody touched for the retention time. */
  predicate IsOrphan(s: State, r: nat, now: int) {
    r !in s.presences && now <= s.clock && r in s.changed && now - s.changed[r] > STALE_RETENTION_MS
  }

  predicate Can(s: State, a: Action) {
    match a
    case Tick(time) => time >= s.clock
    case Die(r) => r in s.alive
    case WritePresence(r, _, _, until) => r in s.alive && until > s.clock && (r in s.last ==> s.last[r].until <= until)
    case BeginSend(m) =>
      && m.runtime !in s.locks && m.runtime in s.presences && Accepts(s, s.presences[m.runtime], m)
      && |Inbox(s, m.runtime)| < MAX_INBOX_MESSAGES && m.expiresAt <= s.clock + MESSAGE_TTL_MS && FreshId(s, m)
    case Write(r) => r in s.locks && s.locks[r].Sender?
    case Discard(r, m, unread) => m in Inbox(s, r) && (Expired(s, m) || unread)
    case StartWorker(w, _) => w !in s.workers
    case StopWorker(w) => w in s.workers
    case Copy(w, m, known) =>
      w in s.workers && m.session == s.workers[w].session && m in s.enqueued && MayPersist(s, m, known)
    case Remove(w, m) => w in s.workers && m in s.workers[w].carrying
    case BeginShutdown(r, session, listed, unread) =>
      r !in s.locks && listed <= Inbox(s, r) &&
      |listed| == if unread then 0 else if |Inbox(s, r)| < MAX_INBOX_MESSAGES then |Inbox(s, r)| else MAX_INBOX_MESSAGES
    case DrainCopy(r, m, known) =>
      && r in s.locks && s.locks[r].Shutdown? && m in s.locks[r].left && m.session == s.locks[r].session
      && MayPersist(s, m, known)
    case DrainRemove(r, m) =>
      r in s.locks && s.locks[r].Shutdown? && !s.locks[r].unread && m !in s.locks[r].left
    case RemoveInbox(r) => r in s.locks && (s.locks[r].Pruner? || (s.locks[r].Shutdown? && s.locks[r].left == {}))
    case Abandon(r) => r in s.locks
    case FindStale(p, r, read, now) => p !in s.found && IsStale(s, r, read, now)
    case GiveUp(p) => p in s.found
    case BeginPrune(p) => p in s.found && s.found[p].runtime !in s.locks
    case PruneOrphan(r, now) => r !in s.locks && IsOrphan(s, r, now)
    case Consume(session, m) => m in Receipts(s, session)
    case DropReceipt(session, m, unread) => m in Receipts(s, session) && (Expired(s, m) || unread)
  }

  /** Writing or removing a message touches the inbox directory. */
  function SetInbox(s: State, r: nat, messages: set<Message>): (t: State)
    ensures t == s.(inboxes := t.inboxes, changed := t.changed)
  {
    s.(inboxes := s.inboxes[r := messages], changed := s.changed[r := s.clock])
  }

  /** Removing a file that is gone already changes nothing. */
  function TakeOut(s: State, r: nat, m: Message): (t: State)
    ensures t == s.(inboxes := t.inboxes, changed := t.changed)
  {
    if m in Inbox(s, r) then SetInbox(s, r, Inbox(s, r) - {m}) else s
  }

  function Persisted(s: State, m: Message, known: bool): (t: State)
    ensures t == s.(receipts := t.receipts)
  {
    if known || HasReceipt(s, m.session, m.id) then s
    else s.(receipts := s.receipts[m.session := Receipts(s, m.session) + {m}])
  }

  function DropInbox(s: State, r: nat): (t: State)
    ensures t == s.(inboxes := t.inboxes, changed := t.changed, locks := t.locks)
  {
    s.(inboxes := s.inboxes - {r}, changed := s.changed - {r}, locks := s.locks - {r})
  }

  function WithoutReceipt(s: State, session: string, m: Message): (t: State)
    ensures t == s.(receipts := t.receipts)
  {
    s.(receipts := s.receipts[session := Receipts(s, session) - {m}])
  }

  /** What is lost when a pruner removes the inbox of a runtime. */
  function LossesAt(s: State, r: nat): set<Loss> {
    if r in s.locks && s.locks[r].Pruner? && r in s.last then
      set m | m in Inbox(s, r) && !Delivered(s, m) :: Loss(m, s.locks[r].finding, s.last[r], s.clock)
    else {}
  }

  /** What is removed unread by a shutdown that could not list the inbox. */
  function UnlistedAt(s: State, r: nat): set<Message> {
    if r in s.locks && s.locks[r].Shutdown? && s.locks[r].unread then Inbox(s, r) else {}
  }

  function Do(s: State, a: Action): State
    requires Can(s, a)
  {
    match a
    case Tick(time) => s.(clock := time)
    case Die(r) => s.(alive := s.alive - {r})
    case WritePresence(r, session, answers, until) =>
      var p := Presence(s.clock, until, session, answers);
      s.(presences := s.presences[r := p], last := s.last[r := p])
    case BeginSend(m) => s.(locks := s.locks[m.runtime := Sender(m)])
    case Write(r) =>
      SetInbox(s, r, Inbox(s, r) + {s.locks[r].message})
        .(enqueued := s.enqueued + {s.locks[r].message}, locks := s.locks - {r})
    case Discard(r, m, unread) => TakeOut(s, r, m).(misread := if unread then s.misread + {m} else s.misread)
    case StartWorker(w, session) => s.(workers := s.workers[w := Worker(session, {})])
    case StopWorker(w) => s.(workers := s.workers - {w})
    case Copy(w, m, known) =>
      Persisted(s, m, known)
        .(workers := s.workers[w := s.workers[w].(carrying := s.workers[w].carrying + {m})])
    case Remove(w, m) =>
      TakeOut(s, m.runtime, m)
        .(workers := s.workers[w := s.workers[w].(carrying := s.workers[w].carrying - {m})])
    case BeginShutdown(r, session, listed, unread) =>
      s.(presences := s.presences - {r},
         locks := s.locks[r := Shutdown(session, (set m | m in listed && !Expired(s, m)), unread)])
    case DrainCopy(r, m, known) =>
      Persisted(s, m, known).(locks := s.locks[r := s.locks[r].(left := s.locks[r].left - {m})])
    case DrainRemove(r, m) => TakeOut(s, r, m)
    case RemoveInbox(r) =>
      DropInbox(s, r).(losses := s.losses + LossesAt(s, r), misread := s.misread + UnlistedAt(s, r))
    case Abandon(r) => s.(locks := s.locks - {r})
    case FindStale(p, r, read, now) => s.(found := s.found[p := Finding(r, read, s.presences[r].written, now)])
    case GiveUp(p) => s.(found := s.found - {p})
    case BeginPrune(p) =>
      var r := s.found[p].runtime;
      s.(found := s.found - {p}, presences := s.presences - {r}, locks := s.locks[r := Pruner(s.found[p])])
    case PruneOrphan(r, _) => DropInbox(s, r)
    case Consume(session, m) => WithoutReceipt(s, session, m).(consumed := s.consumed + {m})
    case DropReceipt(session, m, unread) =>
      WithoutReceipt(s, session, m).(misread := if unread then s.misread + {m} else s.misread)
  }

  // ------------------------------------------------------------------ the invariant

  /** When a pruner can take an undelivered message: it could not read the presence, which
      was written long ago, and at the removal a message sent to the last announcement --
      that same one, or a later one -- may not have expired. */
  predicate Harmful(f: Finding, p: Presence, at: int) {
    && !f.read && f.written + STALE_RETENTION_MS < f.at <= at
    && (p.written == f.written || f.at <= p.written <= at)
    && p.written < p.until && at + 1 < p.until + MESSAGE_TTL_MS
  }

  predicate Lost(s: State, m: Message) {
    exists x | x in s.losses :: x.message == m
  }

  /** Delivered, or out of reach after a read that failed. */
  predicate Safe(s: State, m: Message) {
    Handled(s, m) || Lost(s, m)
  }

  predicate Kept(s: State, m: Message) {
    m in Inbox(s, m.runtime) || Safe(s, m)
  }

  predicate NothingLost(s: State) {
    forall m | m in s.enqueued :: Kept(s, m)
  }

  /** A message that was sent to a runtime while it was announced. */
  predicate Timely(s: State, r: nat, m: Message) {
    && m.runtime == r && m.expiresAt <= s.clock + MESSAGE_TTL_MS
    && r in s.last && m.expiresAt < s.last[r].until + MESSAGE_TTL_MS
  }

  predicate InboxOk(s: State, r: nat, m: Message) {
    Timely(s, r, m) && m in s.enqueued && r in s.changed && m.expiresAt <= s.changed[r] + MESSAGE_TTL_MS
  }

  predicate InboxesOk(s: State) {
    && (forall r | r in s.inboxes :: |s.inboxes[r]| <= MAX_INBOX_MESSAGES)
    && (forall r, m | r in s.inboxes && m in s.inboxes[r] :: InboxOk(s, r, m))
  }

  predicate ClocksOk(s: State) {
    && (forall r | r in s.changed :: s.changed[r] <= s.clock)
    && (forall r | r in s.last :: s.last[r].written <= s.clock && s.last[r].written < s.last[r].until)
    && forall r | r in s.presences :: r in s.last && s.presences[r] == s.last[r]
  }

  predicate WorkersOk(s: State) {
    forall w, m | w in s.workers && m in s.workers[w].carrying :: Handled(s, m)
  }

  /** A presence that was read was that of a dead process; the other kind may be announced
      again. */
  predicate FindingOk(s: State, f: Finding) {
    && f.runtime in s.last && f.at <= s.clock
    && (s.last[f.runtime].written == f.written || f.at <= s.last[f.runtime].written)
    && if f.read then f.runtime !in s.alive && s.last[f.runtime].until < f.at - STALE_RETENTION_MS
       else f.written + STALE_RETENTION_MS < f.at
  }

  predicate FoundOk(s: State) {
    forall p | p in s.found :: FindingOk(s, s.found[p])
  }

  predicate HolderOk(s: State, r: nat)
    requires r in s.locks
  {
    match s.locks[r]
    case Sender(m) =>
      Timely(s, r, m) && (forall x | x in s.enqueued :: x.id != m.id) && |Inbox(s, r)| < MAX_INBOX_MESSAGES
    case Shutdown(session, left, unread) =>
      left <= s.enqueued && (!unread ==> forall m | m in Inbox(s, r) :: m in left || Handled(s, m))
    case Pruner(f) => f.runtime == r && FindingOk(s, f)
  }

  predicate HoldersOk(s: State) {
    forall r | r in s.locks :: HolderOk(s, r)
  }

  /** No two messages share an id, sent or on their way. */
  predicate IdsOk(s: State) {
    && (forall a, b | a in s.enqueued && b in s.enqueued && a.id == b.id :: a == b)
    && forall r, q | r in s.locks && q in s.locks && r != q && s.locks[r].Sender? && s.locks[q].Sender? ::
         s.locks[r].message.id != s.locks[q].message.id
  }

  predicate ReceiptsOk(s: State) {
    forall session | session in s.receipts ::
      s.receipts[session] <= s.enqueued && |s.receipts[session]| <= MAX_SESSION_RECEIPTS
  }

  predicate LossesOk(s: State) {
    forall x | x in s.losses :: Harmful(x.finding, x.announced, x.at)
  }

  predicate Inv(s: State) {
    && NothingLost(s) && InboxesOk(s) && ClocksOk(s) && WorkersOk(s) && HoldersOk(s) && IdsOk(s) && ReceiptsOk(s)
    && FoundOk(s) && LossesOk(s)
  }

  predicate Initial(s: State) {
    s == Start(s.clock, s.alive)
  }

  // ------------------------------------------------------------------------- proofs

  // What a step does to one part of the state.

  lemma ClockEffect(s: State, a: Action)
    requires Can(s, a)
    ensures Do(s, a).clock >= s.clock && s.enqueued <= Do(s, a).enqueued
    ensures Do(s, a).alive <= s.alive && s.misread <= Do(s, a).misread && s.losses <= Do(s, a).losses
  {
    hide MayPersist, Inbox, SetInbox, TakeOut, Persisted, DropInbox, FreshId, IsStale, IsOrphan;
    hide LossesAt, UnlistedAt, WithoutReceipt;
  }

  /** A live runtime is announced anew, and no shorter than before; otherwise nothing changes. */
  lemma LastEffect(s: State, a: Action, r: nat)
    requires Can(s, a)
    ensures
      var t := Do(s, a);
      || (r in s.last && r in t.last && t.last[r] == s.last[r])
      || (r !in s.last && r !in t.last)
      || (r in t.last && r in s.alive && t.last[r].written == s.clock == t.clock && t.last[r].until > s.clock &&
          (r in s.last ==> s.last[r].until <= t.last[r].until))
  {
    hide MayPersist, Inbox, SetInbox, TakeOut, Persisted, DropInbox, FreshId, IsStale, IsOrphan;
    hide LossesAt, UnlistedAt, WithoutReceipt;
  }

  lemma PresenceEffect(s: State, a: Action, r: nat)
    requires Can(s, a) && r in Do(s, a).presences
    ensures
      var t := Do(s, a);
      (r in t.last && t.presences[r] == t.last[r]) ||
      (r in s.presences && t.presences[r] == s.presences[r] && (r in s.last ==> r in t.last && t.last[r] == s.last[r]))
  {
    hide MayPersist, Inbox, SetInbox, TakeOut, Persisted, DropInbox, FreshId, IsStale, IsOrphan;
    hide LossesAt, UnlistedAt, WithoutReceipt;
  }

  lemma ChangedEffect(s: State, a: Action, r: nat)
    requires Can(s, a) && r in Do(s, a).changed
    ensures (r in s.changed && Do(s, a).changed[r] == s.changed[r]) || Do(s, a).changed[r] == s.clock
  {
    hide MayPersist, Inbox, Persisted, IsStale, IsOrphan, FreshId;
    hide LossesAt, UnlistedAt, WithoutReceipt;
  }

  lemma UnchangedEffect(s: State, a: Action, r: nat)
    requires Can(s, a) && r in s.changed && r !in Do(s, a).changed
    ensures (a.RemoveInbox? || a.PruneOrphan?) && a.runtime == r && r !in Do(s, a).inboxes
  {
    hide MayPersist, Inbox, Persisted, IsStale, IsOrphan, FreshId;
    hide LossesAt, UnlistedAt, WithoutReceipt;
  }

  /** A receipt of the same id is a receipt of the same message. */
  lemma CopiedIsDelivered(s: State, m: Message, known: bool)
    requires IdsOk(s) && ReceiptsOk(s) && m in s.enqueued && MayPersist(s, m, known)
    ensures Handled(Persisted(s, m, known), m)
    ensures !known ==> m in Receipts(Persisted(s, m, known), m.session)
  {
    if !known && HasReceipt(s, m.session, m.id) {
      var x :| x in Receipts(s, m.session) && x.id == m.id;
      assert x in s.enqueued;
    }
  }

  lemma HandledOn(s: State, t: State, m: Message)
    requires Handled(s, m) && s.receipts == t.receipts && s.clock <= t.clock && s.consumed <= t.consumed
    requires s.misread <= t.misread
    ensures Handled(t, m)
  {
  }

  lemma LockEffect(s: State, a: Action, r: nat)
    requires Inv(s) && Can(s, a) && r in s.locks && r in Do(s, a).locks
    ensures
      var t := Do(s, a);
      t.locks[r] == s.locks[r] ||
      (a.DrainCopy? && a.runtime == r && s.locks[r].Shutdown? && Handled(t, a.message) &&
       t.locks[r] == s.locks[r].(left := s.locks[r].left - {a.message}))
  {
    hide NothingLost, InboxesOk, ClocksOk, WorkersOk, FoundOk, LossesOk, IdsOk, ReceiptsOk, Handled;
    hide MayPersist, Persisted, Inbox, SetInbox, TakeOut, FreshId, IsStale, IsOrphan, Accepts;
    hide LossesAt, UnlistedAt, WithoutReceipt;
    if a.DrainCopy? {
      assert HolderOk(s, a.runtime);
      CopiedIsDelivered(s, a.message, a.known);
      HandledOn(Persisted(s, a.message, a.known), Do(s, a), a.message);
    }
  }

  /** Only a receipt that could not be read takes a delivered message back. */
  lemma DeliveredStays(s: State, a: Action, m: Message)
    requires Can(s, a) && Delivered(s, m)
    ensures Delivered(Do(s, a), m) || a == DropReceipt(m.session, m, true)
  {
    hide MayPersist, Inbox, SetInbox, TakeOut, DropInbox, IsStale, IsOrphan, FreshId, LossesAt;
  }

  lemma HandledStays(s: State, a: Action, m: Message)
    requires Can(s, a) && Handled(s, m)
    ensures Handled(Do(s, a), m)
  {
    ClockEffect(s, a);
    if Delivered(s, m) {
      DeliveredStays(s, a, m);
    }
    hide MayPersist, Inbox, SetInbox, TakeOut, DropInbox, IsStale, IsOrphan, FreshId;
    hide LossesAt, Delivered, WithoutReceipt;
  }

  lemma SafeStays(s: State, a: Action, m: Message)
    requires Can(s, a) && Safe(s, m)
    ensures Safe(Do(s, a), m)
  {
    hide Can, Do, Handled;
    ClockEffect(s, a);
    if Handled(s, m) {
      HandledStays(s, a, m);
    } else {
      var x :| x in s.losses && x.message == m;
      assert x in Do(s, a).losses;
    }
  }

  lemma AllListed(a: set<Message>, b: set<Message>)
    requires a <= b && |a| == |b|
    ensures a == b
  {
    if a != b {
      var x :| x in b && x !in a;
      assert a <= b - {x};
      Smaller(a, b - {x});
    }
  }

  lemma Smaller(a: set<Message>, b: set<Message>)
    requires a <= b
    ensures |a| <= |b|
  {
    if a != {} {
      var x :| x in a;
      Smaller(a - {x}, b - {x});
    }
  }

  /** Where messages may be after a step: the inboxes only shrink, but for an enqueued one. */
  lemma InboxAfter(s: State, a: Action, r: nat, m: Message)
    requires Can(s, a) && m in Inbox(Do(s, a), r)
    ensures m in Inbox(s, r) || (a == Write(r) && s.locks[r] == Sender(m))
  {
    hide MayPersist, Persisted, IsStale, IsOrphan, FreshId;
    hide LossesAt, UnlistedAt, WithoutReceipt;
  }

  predicate TakesOut(s: State, a: Action, m: Message) {
    || (a.Discard? && a.runtime == m.runtime && a.message == m && (Expired(s, m) || a.unread))
    || (a.Remove? && a.worker in s.workers && m in s.workers[a.worker].carrying)
    || (a.DrainRemove? && a.runtime in s.locks && s.locks[a.runtime].Shutdown? && a.runtime == m.runtime &&
        !s.locks[m.runtime].unread && m !in s.locks[m.runtime].left)
    || (a.RemoveInbox? && a.runtime == m.runtime && a.runtime in s.locks &&
        (s.locks[m.runtime].Pruner? || (s.locks[m.runtime].Shutdown? && s.locks[m.runtime].left == {})))
    || (a.PruneOrphan? && a.runtime == m.runtime)
  }

  lemma OnlyTheseTakeOut(s: State, a: Action, m: Message)
    requires Can(s, a) && m in Inbox(s, m.runtime) && m !in Inbox(Do(s, a), m.runtime)
    ensures TakesOut(s, a, m)
  {
    hide MayPersist, Persisted, IsStale, IsOrphan, FreshId;
    hide LossesAt, UnlistedAt, WithoutReceipt;
  }

  /** A pruner takes the inbox of the runtime, after a finding that allows for a loss. */
  predicate HarmfulPrune(s: State, a: Action, r: nat) {
    a == RemoveInbox(r) && r in s.locks && s.locks[r].Pruner? && r in s.last &&
    Harmful(s.locks[r].finding, s.last[r], s.clock)
  }

  /** A message, or its directory, could not be read by one that then removes it. */
  predicate RemovedUnread(s: State, a: Action, m: Message) {
    || a == Discard(m.runtime, m, true)
    || (a == RemoveInbox(m.runtime) && m.runtime in s.locks && s.locks[m.runtime].Shutdown? &&
        s.locks[m.runtime].unread)
  }

  /** What takes a message out of its inbox, and exactly when it leaves undelivered. */
  lemma LeavesSafely(s: State, a: Action, m: Message)
    requires Inv(s) && Can(s, a) && m in Inbox(s, m.runtime) && m !in Inbox(Do(s, a), m.runtime)
    ensures Safe(Do(s, a), m)
    ensures m !in s.misread && !Delivered(s, m) ==> RemovedUnread(s, a, m) || HarmfulPrune(s, a, m.runtime)
    ensures Delivered(Do(s, a), m) <==> Delivered(s, m)
  {
    hide Can, Do, NothingLost, InboxesOk, IdsOk, ReceiptsOk, FoundOk, LossesOk, Delivered, Handled, FindingOk;
    OnlyTheseTakeOut(s, a, m);
    SameDelivery(s, a, m);
    if RemovedUnread(s, a, m) {
      Misread(s, a, m);
    } else if a.RemoveInbox? && s.locks[m.runtime].Pruner? {
      if Delivered(s, m) {
        ByDelivery(s, m);
      } else {
        PrunerTakes(s, m);
      }
    } else {
      assert Handled(s, m) by {
        if a.PruneOrphan? {
          OrphanExpired(s, m.runtime, a.now, m);
        } else if a.Discard? {
          ByExpiry(s, m);
        } else if a.DrainRemove? || a.RemoveInbox? {
          assert HolderOk(s, m.runtime);
        }
      }
      assert m in s.misread || Delivered(s, m) by { HowHandled(s, m); }
    }
    if Handled(s, m) {
      HandledStays(s, a, m);
    }
  }

  /** Taking messages out neither stores nor consumes one, and does not take time. */
  lemma SameDelivery(s: State, a: Action, m: Message)
    requires Can(s, a) && TakesOut(s, a, m)
    ensures Delivered(Do(s, a), m) <==> Delivered(s, m)
  {
    hide MayPersist, Inbox, SetInbox, TakeOut, DropInbox, IsStale, IsOrphan, FreshId, LossesAt, UnlistedAt, Persisted;
  }

  lemma HowHandled(s: State, m: Message)
    requires Handled(s, m)
    ensures m in s.misread || Delivered(s, m)
  {
  }

  lemma ByDelivery(s: State, m: Message)
    requires Delivered(s, m)
    ensures Handled(s, m)
  {
  }

  lemma ByExpiry(s: State, m: Message)
    requires Expired(s, m)
    ensures Handled(s, m)
  {
  }

  lemma Misread(s: State, a: Action, m: Message)
    requires Can(s, a) && m in Inbox(s, m.runtime) && RemovedUnread(s, a, m)
    ensures Handled(Do(s, a), m)
  {
    hide MayPersist, TakeOut, DropInbox, IsStale, IsOrphan, FreshId, LossesAt, Delivered;
  }

  /** What a pruner takes undelivered was sent to an announcement that it could not read. */
  lemma PrunerTakes(s: State, m: Message)
    requires Inv(s) && Can(s, RemoveInbox(m.runtime)) && s.locks[m.runtime].Pruner?
    requires m in Inbox(s, m.runtime) && !Delivered(s, m)
    ensures HarmfulPrune(s, RemoveInbox(m.runtime), m.runtime) && Lost(Do(s, RemoveInbox(m.runtime)), m)
  {
    hide NothingLost, WorkersOk, IdsOk, ReceiptsOk, FoundOk, LossesOk, IsStale, IsOrphan, FreshId, MayPersist;
    var r := m.runtime;
    assert InboxOk(s, r, m);
    assert HolderOk(s, r);
    var x := Loss(m, s.locks[r].finding, s.last[r], s.clock);
    assert x in LossesAt(s, r);
    assert x in Do(s, RemoveInbox(r)).losses;
  }

  /** A directory nobody has touched for the whole retention time holds nothing fresh. */
  lemma OrphanExpired(s: State, r: nat, now: int, m: Message)
    requires Inv(s) && Can(s, PruneOrphan(r, now)) && m in Inbox(s, r)
    ensures Expired(s, m) && Handled(s, m)
  {
    assert InboxOk(s, r, m);
  }

  lemma NothingLostKept(s: State, a: Action)
    requires Inv(s) && Can(s, a)
    ensures NothingLost(Do(s, a))
  {
    hide Can, Do, Safe, IdsOk, ReceiptsOk, InboxesOk, ClocksOk, WorkersOk, HoldersOk, FoundOk, LossesOk;
    var t := Do(s, a);
    forall m | m in t.enqueued
      ensures Kept(t, m)
    {
      EnqueuedAfter(s, a, m);
      if m in s.enqueued && m !in Inbox(t, m.runtime) {
        if Safe(s, m) {
          SafeStays(s, a, m);
        } else {
          LeavesSafely(s, a, m);
        }
      }
    }
  }

  lemma EnqueuedAfter(s: State, a: Action, m: Message)
    requires HoldersOk(s) && Can(s, a) && m in Do(s, a).enqueued
    ensures m in s.enqueued || m in Inbox(Do(s, a), m.runtime)
  {
    if a.Write? {
      assert HolderOk(s, a.runtime);
    }
    hide MayPersist, TakeOut, Persisted, DropInbox, IsStale, IsOrphan, FreshId;
    hide LossesAt, UnlistedAt, WithoutReceipt;
  }

  lemma SizesKept(s: State, a: Action, r: nat)
    requires InboxesOk(s) && HoldersOk(s) && Can(s, a) && r in Do(s, a).inboxes
    ensures |Do(s, a).inboxes[r]| <= MAX_INBOX_MESSAGES
  {
    hide MayPersist, InboxOk, HolderOk, IsStale, IsOrphan, FreshId;
    hide LossesAt, UnlistedAt, WithoutReceipt;
    var t := Do(s, a);
    if a.Write? {
      WrittenSize(s, a.runtime, r);
    } else {
      forall m | m in t.inboxes[r]
        ensures m in Inbox(s, r)
      {
        InboxAfter(s, a, r, m);
      }
      Smaller(t.inboxes[r], Inbox(s, r));
    }
  }

  lemma WrittenSize(s: State, w: nat, r: nat)
    requires InboxesOk(s) && HoldersOk(s) && Can(s, Write(w)) && r in Do(s, Write(w)).inboxes
    ensures |Do(s, Write(w)).inboxes[r]| <= MAX_INBOX_MESSAGES
  {
    hide InboxOk;
    assert HolderOk(s, w);
  }

  lemma InboxesKept(s: State, a: Action)
    requires InboxesOk(s) && ClocksOk(s) && HoldersOk(s) && Can(s, a)
    ensures InboxesOk(Do(s, a))
  {
    hide Can, Do, InboxOk, HoldersOk, ClocksOk;
    var t := Do(s, a);
    forall r | r in t.inboxes
      ensures |t.inboxes[r]| <= MAX_INBOX_MESSAGES
    {
      SizesKept(s, a, r);
    }
    forall r, m | r in t.inboxes && m in t.inboxes[r]
      ensures InboxOk(t, r, m)
    {
      InboxAfter(s, a, r, m);
      if m in Inbox(s, r) {
        InboxOkKept(s, a, r, m);
      } else {
        WrittenOk(s, r, m);
      }
    }
  }

  lemma TimelyStays(s: State, a: Action, r: nat, m: Message)
    requires Can(s, a) && Timely(s, r, m)
    ensures Timely(Do(s, a), r, m)
  {
    hide Can, Do;
    ClockEffect(s, a);
    LastEffect(s, a, r);
  }

  lemma InboxOkKept(s: State, a: Action, r: nat, m: Message)
    requires Can(s, a) && InboxOk(s, r, m) && ClocksOk(s) && m in Inbox(s, r) && m in Inbox(Do(s, a), r)
    ensures InboxOk(Do(s, a), r, m)
  {
    hide Can, Do;
    ClockEffect(s, a);
    TimelyStays(s, a, r, m);
    if r in Do(s, a).changed {
      ChangedEffect(s, a, r);
    } else {
      UnchangedEffect(s, a, r);
    }
  }

  lemma WrittenOk(s: State, r: nat, m: Message)
    requires HoldersOk(s) && Can(s, Write(r)) && s.locks[r] == Sender(m)
    ensures InboxOk(Do(s, Write(r)), r, m)
  {
    assert HolderOk(s, r);
  }

  lemma ClocksKept(s: State, a: Action)
    requires ClocksOk(s) && Can(s, a)
    ensures ClocksOk(Do(s, a))
  {
    hide Can, Do;
    ClockEffect(s, a);
    forall r | r in Do(s, a).changed
      ensures Do(s, a).changed[r] <= Do(s, a).clock
    {
      ChangedEffect(s, a, r);
    }
    forall r | r in Do(s, a).last
      ensures Do(s, a).last[r].written <= Do(s, a).clock && Do(s, a).last[r].written < Do(s, a).last[r].until
    {
      LastEffect(s, a, r);
    }
    forall r | r in Do(s, a).presences
      ensures r in Do(s, a).last && Do(s, a).presences[r] == Do(s, a).last[r]
    {
      PresenceEffect(s, a, r);
    }
  }

  lemma WorkersKept(s: State, a: Action)
    requires Inv(s) && Can(s, a)
    ensures WorkersOk(Do(s, a))
  {
    hide Can, Do, Handled, NothingLost, InboxesOk, ClocksOk, HoldersOk, IdsOk, ReceiptsOk, FoundOk, LossesOk;
    var t := Do(s, a);
    forall w, m | w in t.workers && m in t.workers[w].carrying
      ensures Handled(t, m)
    {
      if w in s.workers && m in s.workers[w].carrying {
        HandledStays(s, a, m);
      } else {
        CopiedHere(s, a, w, m);
      }
    }
  }

  lemma CopiedHere(s: State, a: Action, w: nat, m: Message)
    requires IdsOk(s) && ReceiptsOk(s) && Can(s, a) && w in Do(s, a).workers && m in Do(s, a).workers[w].carrying
    requires !(w in s.workers && m in s.workers[w].carrying)
    ensures Handled(Do(s, a), m)
  {
    hide IdsOk, ReceiptsOk, MayPersist, Inbox, SetInbox, TakeOut, DropInbox, Persisted, FreshId, IsStale, IsOrphan;
    hide Handled;
    hide LossesAt, UnlistedAt, WithoutReceipt;
    if a.Copy? {
      CopiedIsDelivered(s, a.message, a.known);
      HandledOn(Persisted(s, a.message, a.known), Do(s, a), m);
    }
  }

  /** A finding stays true: the dead stay dead, and who is announced again is so later. */
  lemma FindingStays(s: State, a: Action, f: Finding)
    requires Can(s, a) && FindingOk(s, f)
    ensures FindingOk(Do(s, a), f)
  {
    hide Can, Do;
    ClockEffect(s, a);
    LastEffect(s, a, f.runtime);
  }

  lemma FoundEffect(s: State, a: Action, p: nat)
    requires Can(s, a) && p in Do(s, a).found
    ensures (p in s.found && Do(s, a).found[p] == s.found[p]) || (a.FindStale? && a.pruner == p)
  {
    hide MayPersist, Inbox, SetInbox, TakeOut, Persisted, DropInbox, IsStale, IsOrphan, FreshId;
    hide LossesAt, UnlistedAt, WithoutReceipt;
  }

  lemma FoundKept(s: State, a: Action)
    requires FoundOk(s) && ClocksOk(s) && Can(s, a)
    ensures FoundOk(Do(s, a))
  {
    hide Can, Do, FindingOk, ClocksOk;
    forall p | p in Do(s, a).found
      ensures FindingOk(Do(s, a), Do(s, a).found[p])
    {
      FoundEffect(s, a, p);
      if a.FindStale? && a.pruner == p {
        FoundNow(s, p, a.runtime, a.read, a.now);
      } else {
        FindingStays(s, a, s.found[p]);
      }
    }
  }

  lemma FoundNow(s: State, p: nat, r: nat, read: bool, now: int)
    requires ClocksOk(s) && Can(s, FindStale(p, r, read, now))
    ensures
      var t := Do(s, FindStale(p, r, read, now));
      p in t.found && t.found[p].runtime == r && FindingOk(t, t.found[p])
  {
  }

  /** A sender that holds the lock held it before, or has just found its target live. */
  lemma SenderBefore(s: State, a: Action, r: nat)
    requires Can(s, a) && r in Do(s, a).locks && Do(s, a).locks[r].Sender?
    ensures
      || (r in s.locks && s.locks[r] == Do(s, a).locks[r])
      || (a == BeginSend(Do(s, a).locks[r].message) && r == a.message.runtime)
  {
    hide MayPersist, Inbox, SetInbox, TakeOut, Persisted, FreshId, IsStale, IsOrphan, Accepts;
    hide LossesAt, UnlistedAt, WithoutReceipt;
  }

  lemma HoldersKept(s: State, a: Action, r: nat)
    requires Inv(s) && Can(s, a) && r in Do(s, a).locks
    ensures HolderOk(Do(s, a), r)
  {
    hide Can, Do, Inv, Delivered, Handled, HolderOk;
    var t := Do(s, a);
    if t.locks[r].Sender? {
      SenderKept(s, a, r);
    } else if r in s.locks {
      HeldStill(s, a, r);
    } else {
      NewHolder(s, a, r);
    }
  }

  lemma SenderKept(s: State, a: Action, r: nat)
    requires Inv(s) && Can(s, a) && r in Do(s, a).locks && Do(s, a).locks[r].Sender?
    ensures HolderOk(Do(s, a), r)
  {
    hide Can, Do, Inv, Timely;
    var t := Do(s, a);
    SenderBefore(s, a, r);
    if r in s.locks && s.locks[r] == t.locks[r] {
      assert HolderOk(s, r) by { hide HolderOk; assert Inv(s); InvHolder(s, r); }
      SenderStays(s, a, r);
      forall m | m in Inbox(t, r)
        ensures m in Inbox(s, r)
      {
        InboxAfter(s, a, r, m);
      }
      Smaller(Inbox(t, r), Inbox(s, r));
      TimelyStays(s, a, r, t.locks[r].message);
    } else {
      SenderBegins(s, a.message);
    }
  }

  lemma InvHolder(s: State, r: nat)
    requires Inv(s) && r in s.locks
    ensures HolderOk(s, r)
  {
    hide HolderOk;
  }

  lemma EnqueuedEffect(s: State, a: Action, x: Message)
    requires Can(s, a) && x in Do(s, a).enqueued
    ensures x in s.enqueued || (a.Write? && a.runtime in s.locks && s.locks[a.runtime] == Sender(x))
  {
    hide MayPersist, Inbox, SetInbox, TakeOut, Persisted, DropInbox, FreshId, IsStale, IsOrphan, Accepts;
    hide LossesAt, UnlistedAt, WithoutReceipt;
  }

  /** Who writes lets go of the lock. */
  lemma WriterLetsGo(s: State, a: Action, r: nat)
    requires Can(s, a) && r in s.locks && r in Do(s, a).locks
    ensures a != Write(r)
  {
    hide MayPersist, Inbox, SetInbox, TakeOut, Persisted, DropInbox, FreshId, IsStale, IsOrphan, Accepts;
    hide LossesAt, UnlistedAt, WithoutReceipt;
  }

  lemma SenderStays(s: State, a: Action, r: nat)
    requires Inv(s) && Can(s, a) && r in s.locks && s.locks[r].Sender? && r in Do(s, a).locks
    ensures !(a.Write? && a.runtime == r)
    ensures forall x | x in Do(s, a).enqueued :: x.id != s.locks[r].message.id
  {
    hide Can, Do, NothingLost, InboxesOk, ClocksOk, WorkersOk, ReceiptsOk, FoundOk, LossesOk;
    assert HolderOk(s, r);
    WriterLetsGo(s, a, r);
    forall x | x in Do(s, a).enqueued ensures x.id != s.locks[r].message.id {
      EnqueuedEffect(s, a, x);
    }
  }

  lemma SenderBegins(s: State, m: Message)
    requires Inv(s) && Can(s, BeginSend(m))
    ensures HolderOk(Do(s, BeginSend(m)), m.runtime)
  {
    hide NothingLost, InboxesOk, HoldersOk, WorkersOk, IdsOk, ReceiptsOk, FoundOk, LossesOk;
  }

  /** While the lock is held, what the holder has not yet copied only gets less by copying. */
  lemma HeldStill(s: State, a: Action, r: nat)
    requires Inv(s) && Can(s, a) && r in s.locks && r in Do(s, a).locks && !Do(s, a).locks[r].Sender?
    ensures HolderOk(Do(s, a), r)
  {
    hide Can, Do, NothingLost, InboxesOk, ClocksOk, WorkersOk, FoundOk, LossesOk, Handled, IdsOk, ReceiptsOk, FindingOk;
    var t := Do(s, a);
    assert HolderOk(s, r);
    LockEffect(s, a, r);
    ClockEffect(s, a);
    if s.locks[r].Pruner? {
      FindingStays(s, a, s.locks[r].finding);
    }
    forall m | m in Inbox(t, r)
      ensures m in Inbox(s, r) && (Handled(s, m) ==> Handled(t, m))
    {
      InboxAfter(s, a, r, m);
      if Handled(s, m) {
        HandledStays(s, a, m);
      }
    }
  }

  lemma NewHolder(s: State, a: Action, r: nat)
    requires Inv(s) && Can(s, a) && r !in s.locks && r in Do(s, a).locks && !Do(s, a).locks[r].Sender?
    ensures HolderOk(Do(s, a), r)
  {
    hide Can, Do, Inv, HolderOk;
    NewLock(s, a, r);
    if a.BeginShutdown? {
      ShutdownHolds(s, r, a.session, a.listed, a.unread);
    } else {
      PrunerHolds(s, a.pruner);
    }
  }

  lemma NewLock(s: State, a: Action, r: nat)
    requires Can(s, a) && r !in s.locks && r in Do(s, a).locks && !Do(s, a).locks[r].Sender?
    ensures
      || (a.BeginShutdown? && a.runtime == r)
      || (a.BeginPrune? && a.pruner in s.found && s.found[a.pruner].runtime == r)
  {
    hide MayPersist, Inbox, SetInbox, TakeOut, Persisted, FreshId, IsStale, IsOrphan, Accepts;
    hide LossesAt, UnlistedAt, WithoutReceipt;
  }

  /** A shutdown that can list the inbox reads all of it. */
  lemma ShutdownHolds(s: State, r: nat, session: string, listed: set<Message>, unread: bool)
    requires Inv(s) && Can(s, BeginShutdown(r, session, listed, unread))
    ensures HolderOk(Do(s, BeginShutdown(r, session, listed, unread)), r)
  {
    hide NothingLost, ClocksOk, WorkersOk, IdsOk, ReceiptsOk, HoldersOk, FoundOk, LossesOk;
    if !unread {
      AllListed(listed, Inbox(s, r));
    }
    forall m | m in Inbox(s, r) ensures m in s.enqueued {
      assert InboxOk(s, r, m);
    }
    var t := Do(s, BeginShutdown(r, session, listed, unread));
    assert t.locks[r] == Shutdown(session, (set m | m in listed && !Expired(s, m)), unread);
    assert Inbox(t, r) == Inbox(s, r) && t.enqueued == s.enqueued;
    if !unread {
      assert forall m | m in Inbox(t, r) :: m in t.locks[r].left || Expired(t, m);
    }
  }

  lemma PrunerHolds(s: State, p: nat)
    requires Inv(s) && Can(s, BeginPrune(p))
    ensures HolderOk(Do(s, BeginPrune(p)), s.found[p].runtime)
  {
    hide NothingLost, ClocksOk, WorkersOk, IdsOk, ReceiptsOk, HoldersOk, InboxesOk, LossesOk;
    assert FindingOk(s, s.found[p]);
  }

  lemma IdsKept(s: State, a: Action)
    requires Inv(s) && Can(s, a)
    ensures IdsOk(Do(s, a))
  {
    hide NothingLost, InboxesOk, ClocksOk, WorkersOk, ReceiptsOk, FoundOk, LossesOk;
    hide MayPersist, Inbox, SetInbox, TakeOut, Persisted, IsStale, IsOrphan, Accepts;
    hide LossesAt, UnlistedAt, WithoutReceipt;
    hide FindingOk, Handled;
    if a.Write? {
      assert HolderOk(s, a.runtime);
    }
  }

  lemma ReceiptsEffect(s: State, a: Action)
    requires Can(s, a)
    ensures Do(s, a).receipts ==
      if a.Copy? || a.DrainCopy? then Persisted(s, a.message, a.known).receipts
      else if a.Consume? || a.DropReceipt? then WithoutReceipt(s, a.session, a.message).receipts
      else s.receipts
  {
    hide MayPersist, Inbox, Receipts, FreshId, IsStale, IsOrphan, Accepts, LossesAt, UnlistedAt, Persisted;
    hide SetInbox, TakeOut, DropInbox, WithoutReceipt;
  }

  lemma ReceiptsKept(s: State, a: Action)
    requires Inv(s) && Can(s, a)
    ensures ReceiptsOk(Do(s, a))
  {
    hide Do, NothingLost, InboxesOk, ClocksOk, WorkersOk, IdsOk, FoundOk, LossesOk, HoldersOk, ReceiptsOk, MayPersist;
    hide Inbox, Persisted, FreshId, IsStale, IsOrphan, Accepts, WithoutReceipt;
    ReceiptsEffect(s, a);
    ClockEffect(s, a);
    if a.Copy? || a.DrainCopy? {
      if a.DrainCopy? {
        DrainsEnqueued(s, a.runtime, a.message);
      }
      PersistedOk(s, a.message, a.known);
      ReceiptsOn(Persisted(s, a.message, a.known), Do(s, a));
    } else if a.Consume? || a.DropReceipt? {
      TakenOk(s, a.session, a.message);
      ReceiptsOn(WithoutReceipt(s, a.session, a.message), Do(s, a));
    } else {
      ReceiptsOn(s, Do(s, a));
    }
  }

  lemma DrainsEnqueued(s: State, r: nat, m: Message)
    requires HoldersOk(s) && r in s.locks && s.locks[r].Shutdown? && m in s.locks[r].left
    ensures m in s.enqueued
  {
    assert HolderOk(s, r);
  }

  lemma ReceiptsOn(s: State, t: State)
    requires ReceiptsOk(s) && t.receipts == s.receipts && s.enqueued <= t.enqueued
    ensures ReceiptsOk(t)
  {
  }

  lemma PersistedOk(s: State, m: Message, known: bool)
    requires ReceiptsOk(s) && m in s.enqueued && MayPersist(s, m, known)
    ensures ReceiptsOk(Persisted(s, m, known)) && Persisted(s, m, known).enqueued == s.enqueued
  {
  }

  lemma TakenOk(s: State, session: string, m: Message)
    requires ReceiptsOk(s) && m in Receipts(s, session)
    ensures ReceiptsOk(WithoutReceipt(s, session, m))
  {
    Smaller(Receipts(s, session) - {m}, Receipts(s, session));
  }

  lemma LossesEffect(s: State, a: Action)
    requires Can(s, a)
    ensures Do(s, a).losses == if a.RemoveInbox? then s.losses + LossesAt(s, a.runtime) else s.losses
  {
    hide MayPersist, Inbox, SetInbox, TakeOut, Persisted, DropInbox, FreshId, IsStale, IsOrphan, Accepts;
    hide LossesAt, UnlistedAt, WithoutReceipt;
  }

  lemma LossesKept(s: State, a: Action)
    requires Inv(s) && Can(s, a)
    ensures LossesOk(Do(s, a))
  {
    hide Do, NothingLost, InboxesOk, ClocksOk, WorkersOk, IdsOk, FoundOk, HoldersOk, ReceiptsOk, Harmful, MayPersist;
    hide FreshId, IsStale, IsOrphan, Accepts;
    LossesEffect(s, a);
    forall x | x in Do(s, a).losses ensures Harmful(x.finding, x.announced, x.at) {
      if x !in s.losses {
        var r := a.runtime;
        assert x.message in Inbox(s, r) && !Delivered(s, x.message);
        InboxOfIsHere(s, r, x.message);
        PrunerTakes(s, x.message);
      }
    }
  }

  lemma InboxOfIsHere(s: State, r: nat, m: Message)
    requires Inv(s) && m in Inbox(s, r)
    ensures m.runtime == r && m in s.enqueued && Kept(s, m)
  {
    assert InboxOk(s, r, m);
  }

  lemma StepInv(s: State, a: Action)
    requires Inv(s) && Can(s, a)
    ensures Inv(Do(s, a))
  {
    hide Can, Do, NothingLost, InboxesOk, ClocksOk, WorkersOk, FoundOk, LossesOk, HolderOk, IdsOk, ReceiptsOk;
    NothingLostKept(s, a);
    InboxesKept(s, a);
    ClocksKept(s, a);
    WorkersKept(s, a);
    IdsKept(s, a);
    ReceiptsKept(s, a);
    FoundKept(s, a);
    LossesKept(s, a);
    forall r | r in Do(s, a).locks
      ensures HolderOk(Do(s, a), r)
    {
      HoldersKept(s, a, r);
    }
  }

  /** At most one receipt per id, and storing the same message again changes nothing. */
  lemma AdoptionIsIdempotent(s: State, m: Message, again: bool)
    requires Inv(s) && m in s.enqueued && MayPersist(s, m, false)
    ensures
      var t := Persisted(s, m, false);
      && m in Receipts(t, m.session) && Persisted(t, m, again) == t
      && forall x | x in Receipts(t, m.session) && x.id == m.id :: x == m
  {
    hide NothingLost, InboxesOk, ClocksOk, WorkersOk, HoldersOk, FoundOk, LossesOk, MayPersist;
    if HasReceipt(s, m.session, m.id) {
      var x :| x in Receipts(s, m.session) && x.id == m.id;
      assert x in s.enqueued;
    }
    forall x | x in Receipts(Persisted(s, m, false), m.session) && x.id == m.id ensures x == m {
      assert x in s.enqueued;
    }
  }

  predicate Legal(s: State, actions: seq<Action>)
    decreases |actions|
  {
    actions == [] || (Can(s, actions[0]) && Legal(Do(s, actions[0]), actions[1..]))
  }

  function RunOf(s: State, actions: seq<Action>): State
    requires Legal(s, actions)
    decreases |actions|
  {
    if actions == [] then s else RunOf(Do(s, actions[0]), actions[1..])
  }

  lemma {:induction false} RunInv(s: State, actions: seq<Action>)
    requires Inv(s) && Legal(s, actions)
    ensures Inv(RunOf(s, actions))
    decreases |actions|
  {
    hide Inv, Can, Do;
    if actions != [] {
      StepInv(s, actions[0]);
      RunInv(Do(s, actions[0]), actions[1..]);
    }
  }

  lemma InitialInv(s: State)
    requires Initial(s)
    ensures Inv(s)
  {
  }

  /** In every run, between any two steps: an enqueued message that has not expired and
      was not consumed is in its inbox or among its session's receipts, unless a read of
      its own file or directory failed, or a pruner took it. */
  lemma NoUnexpiredMessageIsLost(s: State, actions: seq<Action>, m: Message)
    requires Initial(s) && Legal(s, actions)
    ensures
      var t := RunOf(s, actions);
      m in t.enqueued && m !in t.consumed && !Expired(t, m) && m !in t.misread && !Lost(t, m) ==>
        m in Inbox(t, m.runtime) || m in Receipts(t, m.session)
  {
    hide Can, Do;
    InitialInv(s);
    RunInv(s, actions);
    var t := RunOf(s, actions);
    if m in t.enqueued {
      assert Kept(t, m);
    }
  }

  /** Pruning a stale runtime removes its directory with everything in it, but never a
      message that could still be delivered, unless it could not read the presence and an
      announcement is young enough; nor does a shutdown that could list the inbox. */
  lemma PruningIsHarmless(s: State, actions: seq<Action>, a: Action, m: Message)
    requires Initial(s) && Legal(s, actions) && Can(RunOf(s, actions), a)
    requires a.RemoveInbox? || a.PruneOrphan?
    ensures
      var t := RunOf(s, actions);
      m in Inbox(t, a.runtime) && m !in Inbox(Do(t, a), a.runtime) ==>
        Handled(t, m) || RemovedUnread(t, a, m) || HarmfulPrune(t, a, a.runtime)
  {
    hide Can, Do, HarmfulPrune;
    InitialInv(s);
    RunInv(s, actions);
    var t := RunOf(s, actions);
    if m in Inbox(t, a.runtime) {
      assert InboxOk(t, a.runtime, m);
      RemovedIsSafe(t, a, m);
    }
  }

  lemma RemovedIsSafe(s: State, a: Action, m: Message)
    requires Inv(s) && Can(s, a) && (a.RemoveInbox? || a.PruneOrphan?)
    requires m in Inbox(s, a.runtime) && m.runtime == a.runtime
    ensures Handled(s, m) || RemovedUnread(s, a, m) || HarmfulPrune(s, a, a.runtime)
  {
    hide NothingLost, ClocksOk, WorkersOk, IdsOk, ReceiptsOk, FoundOk, LossesOk, FindingOk;
    hide IsStale, IsOrphan, FreshId, MayPersist;
    if a.PruneOrphan? {
      OrphanExpired(s, a.runtime, a.now, m);
    } else if s.locks[a.runtime].Pruner? {
      if !Delivered(s, m) {
        PrunerTakes(s, m);
      }
    } else {
      assert HolderOk(s, a.runtime);
    }
  }

  // ------------------------------------------------------------------ a message arrives

  /** A worker of its session can always bring a message home, unless the receipts are full:
      it is stored, leaves the inbox, and is consumed, and nothing else is touched. */
  lemma AMessageArrives(s: State, w: nat, m: Message)
    requires Inv(s) && m in Inbox(s, m.runtime) && w in s.workers && s.workers[w].session == m.session
    requires |Receipts(s, m.session)| < MAX_SESSION_RECEIPTS || m in Receipts(s, m.session)
    ensures
      var steps := [Copy(w, m, false), Remove(w, m), Consume(m.session, m)];
      && Legal(s, steps)
      && var t := RunOf(s, steps);
         && m in t.consumed && m !in Inbox(t, m.runtime) && m !in Receipts(t, m.session)
         && (forall x | x != m && x in Inbox(s, x.runtime) :: x in Inbox(t, x.runtime))
         && (forall x | x != m && x in Receipts(s, x.session) :: x in Receipts(t, x.session))
         && t.losses == s.losses && t.misread == s.misread
  {
    hide Can, Do, Inv, Persisted, TakeOut, WithoutReceipt;
    var a, b, c := Copy(w, m, false), Remove(w, m), Consume(m.session, m);
    InboxOfIsHere(s, m.runtime, m);
    MayStore(s, m);
    CopyIs(s, w, m);
    var s1 := Do(s, a);
    RemoveIs(s1, w, m);
    var s2 := Do(s1, b);
    ConsumeIs(s2, m);
    ThreeSteps(s, a, b, c);
    forall x | x != m && x in Inbox(s, x.runtime)
      ensures x in Inbox(Do(s2, c), x.runtime)
    {
      assert x in Inbox(s1, x.runtime);
      assert x in Inbox(s2, x.runtime);
    }
  }

  lemma ThreeSteps(s: State, a: Action, b: Action, c: Action)
    requires Can(s, a) && Can(Do(s, a), b) && Can(Do(Do(s, a), b), c)
    ensures Legal(s, [a, b, c]) && RunOf(s, [a, b, c]) == Do(Do(Do(s, a), b), c)
  {
    hide Can, Do;
    var s1, s2 := Do(s, a), Do(Do(s, a), b);
    assert [c][1..] == [] && [b, c][1..] == [c] && [a, b, c][1..] == [b, c];
    assert Legal(s2, [c]) && RunOf(s2, [c]) == Do(s2, c);
    assert Legal(s1, [b, c]) && RunOf(s1, [b, c]) == Do(s2, c);
  }

  lemma CopyIs(s: State, w: nat, m: Message)
    requires Inv(s) && w in s.workers && s.workers[w].session == m.session && m in s.enqueued && MayPersist(s, m, false)
    ensures Can(s, Copy(w, m, false))
    ensures
      var t := Do(s, Copy(w, m, false));
      && t == s.(receipts := t.receipts, workers := t.workers)
      && m in Receipts(t, m.session) && w in t.workers && m in t.workers[w].carrying
      && forall session :: Receipts(s, session) <= Receipts(t, session)
  {
    hide Inv, MayPersist, Persisted, Receipts;
    PersistedGrows(s, m);
    var p := Persisted(s, m, false);
    assert Do(s, Copy(w, m, false)) ==
      p.(workers := s.workers[w := s.workers[w].(carrying := s.workers[w].carrying + {m})]);
    SameReceipts(p, Do(s, Copy(w, m, false)));
  }

  lemma PersistedGrows(s: State, m: Message)
    requires Inv(s) && m in s.enqueued && MayPersist(s, m, false)
    ensures
      var p := Persisted(s, m, false);
      m in Receipts(p, m.session) && forall session :: Receipts(s, session) <= Receipts(p, session)
  {
    hide NothingLost, InboxesOk, ClocksOk, WorkersOk, HoldersOk, FoundOk, LossesOk;
    CopiedIsDelivered(s, m, false);
  }

  lemma SameReceipts(s: State, t: State)
    requires s.receipts == t.receipts
    ensures forall session :: Receipts(s, session) == Receipts(t, session)
  {
  }

  lemma RemoveIs(s: State, w: nat, m: Message)
    requires w in s.workers && m in s.workers[w].carrying
    ensures Can(s, Remove(w, m))
    ensures
      var t := Do(s, Remove(w, m));
      && t == s.(inboxes := t.inboxes, changed := t.changed, workers := t.workers)
      && m !in Inbox(t, m.runtime) && forall r, x | x in Inbox(s, r) && x != m :: x in Inbox(t, r)
  {
  }

  lemma ConsumeIs(s: State, m: Message)
    requires m in Receipts(s, m.session)
    ensures Can(s, Consume(m.session, m))
    ensures
      var t := Do(s, Consume(m.session, m));
      && t == s.(receipts := t.receipts, consumed := s.consumed + {m})
      && m !in Receipts(t, m.session)
      && forall session, x | x in Receipts(s, session) && x != m :: x in Receipts(t, session)
  {
  }

  lemma MayStore(s: State, m: Message)
    requires |Receipts(s, m.session)| < MAX_SESSION_RECEIPTS || m in Receipts(s, m.session)
    ensures MayPersist(s, m, false)
  {
  }

  // -------------------------------------------------------------- when reads succeed

  predicate Reads(a: Action) {
    match a
    case FindStale(_, _, read, _) => read
    case Discard(_, _, unread) => !unread
    case DropReceipt(_, _, unread) => !unread
    case BeginShutdown(_, _, _, unread) => !unread
    case _ => true
  }

  /** Nothing was misread so far. */
  predicate AllRead(s: State) {
    && s.misread == {} && s.losses == {} && (forall p | p in s.found :: s.found[p].read)
    && (forall r | r in s.locks && s.locks[r].Pruner? :: s.locks[r].finding.read)
    && forall r | r in s.locks && s.locks[r].Shutdown? :: !s.locks[r].unread
  }

  lemma StepAllRead(s: State, a: Action)
    requires Inv(s) && AllRead(s) && Can(s, a) && Reads(a)
    ensures AllRead(Do(s, a))
  {
    hide Inv, MayPersist, Inbox, SetInbox, TakeOut, Persisted, FreshId, IsStale, IsOrphan, Accepts, LossesAt;
    hide WithoutReceipt;
    LossesEffect(s, a);
    if a.RemoveInbox? {
      ReaderTakesNothing(s, a.runtime);
    }
  }

  lemma ReaderTakesNothing(s: State, r: nat)
    requires Inv(s) && AllRead(s) && Can(s, RemoveInbox(r))
    ensures LossesAt(s, r) == {}
  {
    hide Inv;
    LossesKept(s, RemoveInbox(r));
    LossesEffect(s, RemoveInbox(r));
    assert LossesAt(s, r) <= Do(s, RemoveInbox(r)).losses;
    assert forall x | x in LossesAt(s, r) :: Harmful(x.finding, x.announced, x.at);
  }

  lemma {:induction false} RunAllRead(s: State, actions: seq<Action>)
    requires Inv(s) && AllRead(s) && Legal(s, actions) && forall i | 0 <= i < |actions| :: Reads(actions[i])
    ensures AllRead(RunOf(s, actions))
    decreases |actions|
  {
    hide Inv, Can, Do, AllRead, Reads;
    if actions != [] {
      StepInv(s, actions[0]);
      StepAllRead(s, actions[0]);
      RunAllRead(Do(s, actions[0]), actions[1..]);
    }
  }

  /** As long as every read succeeds, no unexpired message is ever lost. */
  lemma ReadingLosesNothing(s: State, actions: seq<Action>, m: Message)
    requires Initial(s) && Legal(s, actions) && forall i | 0 <= i < |actions| :: Reads(actions[i])
    ensures
      var t := RunOf(s, actions);
      m in t.enqueued && m !in t.consumed && !Expired(t, m) ==>
        m in Inbox(t, m.runtime) || m in Receipts(t, m.session)
  {
    hide Can, Do, Reads;
    InitialInv(s);
    RunAllRead(s, actions);
    NoUnexpiredMessageIsLost(s, actions, m);
  }

  // ----------------------------------------------------- exactly when a pruner can lose

  ghost predicate Reachable(s: State) {
    exists start, actions :: Initial(start) && Legal(start, actions) && RunOf(start, actions) == s
  }

  lemma StepReachable(s: State, a: Action)
    requires Reachable(s) && Can(s, a)
    ensures Reachable(Do(s, a))
  {
    hide Can, Do;
    var start, actions :| Initial(start) && Legal(start, actions) && RunOf(start, actions) == s;
    OneMore(start, actions, a);
  }

  lemma {:induction false} OneMore(s: State, actions: seq<Action>, a: Action)
    requires Legal(s, actions) && Can(RunOf(s, actions), a)
    ensures Legal(s, actions + [a]) && RunOf(s, actions + [a]) == Do(RunOf(s, actions), a)
    decreases |actions|
  {
    hide Can, Do;
    if actions == [] {
      assert [] + [a] == [a] && [a][1..] == [];
    } else {
      OneMore(Do(s, actions[0]), actions[1..], a);
      assert (actions + [a])[1..] == actions[1..] + [a];
    }
  }

  lemma ReachableInv(s: State)
    requires Reachable(s)
    ensures Inv(s)
  {
    hide Can, Do, Inv;
    var start, actions :| Initial(start) && Legal(start, actions) && RunOf(start, actions) == s;
    InitialInv(start);
    RunInv(start, actions);
  }

  /** A loss of that kind, in some run. */
  ghost predicate CanLose(f: Finding, p: Presence, at: int) {
    exists s, x :: Reachable(s) && x in s.losses && x.finding == f && x.announced == p && x.at == at
  }

  /** The exact condition, in what the pruner has seen, the announcement that is in force
      when it has the lock, and the time: some run loses a message that way if and only if
      the finding is harmful. */
  lemma LostExactlyWhenHarmful(f: Finding, p: Presence, at: int)
    ensures CanLose(f, p, at) <==> Harmful(f, p, at)
  {
    hide Inv, Harmful;
    if CanLose(f, p, at) {
      var s, x :| Reachable(s) && x in s.losses && x.finding == f && x.announced == p && x.at == at;
      ReachableInv(s);
      assert LossesOk(s) by { LossesOfInv(s); }
    }
    if Harmful(f, p, at) {
      var s, m := HarmfulRun(f, p, at);
      assert Loss(m, f, p, at) in s.losses;
    }
  }

  lemma LossesOfInv(s: State)
    requires Inv(s)
    ensures LossesOk(s)
  {
  }

  /** A runtime that announced itself, and nothing else. */
  function Announced(r: nat, p: Presence, clock: int): State {
    Start(clock, {r}).(presences := map[r := p], last := map[r := p])
  }

  /** The same with a message sent at that time. */
  function Sent(s: State, m: Message, at: int): State {
    s.(clock := at, inboxes := map[m.runtime := {m}], changed := map[m.runtime := at], enqueued := {m})
  }

  function Found(s: State, f: Finding): State {
    s.(clock := f.at, found := map[0 := f])
  }

  lemma ReachTick(s: State, time: int)
    requires Reachable(s) && s.clock <= time
    ensures Reachable(s.(clock := time))
  {
    StepReachable(s, Tick(time));
  }

  lemma ReachAnnounced(r: nat, p: Presence)
    requires p.written < p.until
    ensures Reachable(Announced(r, p, p.written))
  {
    var s := Start(p.written, {r});
    assert Legal(s, []) && RunOf(s, []) == s;
    StepReachable(s, WritePresence(r, p.session, p.answers, p.until));
  }

  /** The runtime is announced again; nobody else notices. */
  lemma ReachAnnouncedAgain(s: State, r: nat, p: Presence)
    requires Reachable(s) && s.alive == {r} && s.last.Keys == s.presences.Keys == {r}
    requires s.clock <= p.written < p.until && s.last[r].until <= p.until
    ensures Reachable(s.(clock := p.written, presences := map[r := p], last := map[r := p]))
  {
    ReachTick(s, p.written);
    var t := s.(clock := p.written);
    StepReachable(t, WritePresence(r, p.session, p.answers, p.until));
    assert t.presences[r := p] == map[r := p] && t.last[r := p] == map[r := p];
  }

  lemma ReachSent(s: State, p: Presence, m: Message, at: int)
    requires Reachable(s) && s.locks == map[] && s.inboxes == map[] && s.changed == map[] && s.enqueued == {}
    requires m.runtime in s.alive && s.presences == map[m.runtime := p]
    requires s.clock <= at < p.until && p.session == m.session && !m.asks && m.expiresAt <= at + MESSAGE_TTL_MS
    ensures Reachable(Sent(s, m, at))
  {
    var r := m.runtime;
    ReachTick(s, at);
    var t := s.(clock := at);
    StepReachable(t, BeginSend(m));
    var u := Do(t, BeginSend(m));
    assert u == t.(locks := map[r := Sender(m)]);
    StepReachable(u, Write(r));
    var v := Do(u, Write(r));
    assert Inbox(u, r) + {m} == {m} && u.enqueued + {m} == {m} && u.locks - {r} == map[];
    assert v.inboxes == map[r := {m}] && v.changed == map[r := at] && v.enqueued == {m} && v.locks == map[];
    assert v == Sent(s, m, at);
  }

  lemma ReachFound(s: State, f: Finding)
    requires Reachable(s) && s.found == map[] && s.clock <= f.at && !f.read
    requires f.runtime in s.presences && s.presences[f.runtime].written == f.written
    requires f.written + STALE_RETENTION_MS < f.at
    ensures Reachable(Found(s, f))
  {
    ReachTick(s, f.at);
    var t := s.(clock := f.at);
    StepReachable(t, FindStale(0, f.runtime, false, f.at));
    assert Do(t, FindStale(0, f.runtime, false, f.at)).found == map[0 := f];
  }

  /** The pruner gets the lock, and the message is gone. */
  lemma ReachRemoved(s: State, f: Finding, p: Presence, m: Message, at: int) returns (t: State)
    requires Reachable(s) && s.found == map[0 := f] && s.clock <= at && f.runtime == m.runtime && s.locks == map[]
    requires s.last == map[m.runtime := p] && s.inboxes == map[m.runtime := {m}]
    requires s.receipts == map[] && s.consumed == {}
    requires at < m.expiresAt && s.misread == {}
    ensures Reachable(t) && Loss(m, f, p, at) in t.losses
    ensures t.clock == at && t.alive == s.alive && t.last == s.last && t.enqueued == s.enqueued
    ensures m !in Inbox(t, m.runtime) && !Handled(t, m)
  {
    hide Do, Can, Reachable;
    var r := m.runtime;
    ReachTick(s, at);
    var u := s.(clock := at);
    assert Can(u, BeginPrune(0)) && Do(u, BeginPrune(0)).locks == map[r := Pruner(f)] by { Prunes(u, f); }
    StepReachable(u, BeginPrune(0));
    var v := Do(u, BeginPrune(0));
    assert v == u.(found := v.found, presences := v.presences, locks := map[r := Pruner(f)]) by { Prunes(u, f); }
    assert Can(v, RemoveInbox(r)) by { Takes(v, f); }
    StepReachable(v, RemoveInbox(r));
    t := Do(v, RemoveInbox(r));
    Takes(v, f);
    assert m in Inbox(v, r) && !Delivered(v, m);
    assert Loss(m, f, p, at) in LossesAt(v, r);
  }

  lemma Prunes(s: State, f: Finding)
    requires s.found == map[0 := f] && s.locks == map[]
    ensures Can(s, BeginPrune(0))
    ensures
      var t := Do(s, BeginPrune(0));
      t == s.(found := t.found, presences := t.presences, locks := map[f.runtime := Pruner(f)])
  {
  }

  lemma Takes(s: State, f: Finding)
    requires s.locks == map[f.runtime := Pruner(f)]
    ensures Can(s, RemoveInbox(f.runtime))
    ensures
      var t := Do(s, RemoveInbox(f.runtime));
      && t == s.(inboxes := t.inboxes, changed := t.changed, locks := t.locks, losses := t.losses)
      && t.losses == s.losses + LossesAt(s, f.runtime) && Inbox(t, f.runtime) == {}
  {
    hide LossesAt;
    assert UnlistedAt(s, f.runtime) == {};
  }

  function Earlier(a: int, b: int): int {
    if a <= b then a else b
  }

  /** Whatever a harmful finding is: the message is sent as late as possible, to the
      announcement that the pruner could not read or to the one after it. */
  lemma HarmfulRun(f: Finding, p: Presence, at: int) returns (t: State, m: Message)
    requires Harmful(f, p, at)
    ensures Reachable(t) && Loss(m, f, p, at) in t.losses
    ensures t.clock == at && t.alive == {f.runtime} && t.last == map[f.runtime := p]
    ensures m.runtime == f.runtime && m.session == p.session && m in t.enqueued
    ensures m !in Inbox(t, m.runtime) && !Handled(t, m)
  {
    hide Reachable, Can, Do;
    var r := f.runtime;
    var sent := Earlier(at, p.until - 1);
    m := Message("m", r, p.session, false, sent + MESSAGE_TTL_MS);
    ghost var s: State;
    if p.written == f.written {
      ReachAnnounced(r, p);
      s := Announced(r, p, p.written);
      if sent < f.at {
        ReachSent(s, p, m, sent);
        ReachFound(Sent(s, m, sent), f);
        s := Found(Sent(s, m, sent), f);
      } else {
        ReachFound(s, f);
        ReachSent(Found(s, f), p, m, sent);
        s := Sent(Found(s, f), m, sent);
      }
    } else {
      var first := Presence(f.written, f.written + p.until - p.written, p.session, p.answers);
      ReachAnnounced(r, first);
      s := Announced(r, first, first.written);
      ReachFound(s, f);
      s := Found(s, f);
      ReachAnnouncedAgain(s, r, p);
      s := s.(clock := p.written, presences := map[r := p], last := map[r := p]);
      ReachSent(s, p, m, sent);
      s := Sent(s, m, sent);
    }
    t := ReachRemoved(s, f, p, m, at);
  }

  const LATE := STALE_RETENTION_MS + 1

  /** The shortest of them: a message is sent at 5 to a runtime announced at 0 for 10; a day
      later one read of that presence fails, and the message is gone a moment before it
      expires. Nobody was announced again. */
  lemma FailedReadLosesAMessage() returns (t: State, m: Message)
    ensures Reachable(t) && m in t.enqueued && m !in t.consumed && !Expired(t, m) && m !in t.misread
    ensures m !in Inbox(t, 0) && m !in Receipts(t, "s") && m.runtime == 0 && m.session == "s"
    ensures t.last == map[0 := Presence(0, 10, "s", false)] && 0 !in t.alive
  {
    hide Reachable;
    var p := Presence(0, 10, "s", false);
    var f := Finding(0, false, 0, LATE);
    m := Message("m", 0, "s", false, 5 + MESSAGE_TTL_MS);
    ReachAnnounced(0, p);
    ghost var s := Announced(0, p, 0);
    ReachSent(s, p, m, 5);
    s := Sent(s, m, 5);
    StepReachable(s, Die(0));
    s := s.(alive := {});
    assert Do(Sent(Announced(0, p, 0), m, 5), Die(0)) == s;
    ReachFound(s, f);
    s := Found(s, f);
    t := ReachRemoved(s, f, p, m, LATE);
  }

  /** A reader that cannot read a message file removes it. */
  lemma FailedReadOfAMessageLosesIt() returns (t: State, m: Message)
    ensures Reachable(t) && m in t.enqueued && m !in t.consumed && !Expired(t, m) && t.losses == {}
    ensures m !in Inbox(t, 0) && m !in Receipts(t, "s") && m.runtime == 0 && m.session == "s" && 0 in t.alive
  {
    hide Reachable;
    var p := Presence(0, 10, "s", false);
    m := Message("m", 0, "s", false, MESSAGE_TTL_MS);
    ReachAnnounced(0, p);
    ReachSent(Announced(0, p, 0), p, m, 0);
    var s := Sent(Announced(0, p, 0), m, 0);
    StepReachable(s, Discard(0, m, true));
    t := Do(s, Discard(0, m, true));
  }

  /** The other kind: a live runtime whose old presence could not be read once is announced
      again, is sent a message, and only then is removed, although it is alive. */
  lemma RevivedRuntimeLosesAMessage() returns (t: State, m: Message)
    ensures Reachable(t) && m in t.enqueued && m !in t.consumed && !Expired(t, m) && m !in t.misread
    ensures m !in Inbox(t, 0) && m !in Receipts(t, "s") && m.runtime == 0 && m.session == "s"
    ensures 0 in t.alive && 0 in t.last && t.last[0].written == t.clock
  {
    hide Reachable;
    var f := Finding(0, false, 0, LATE);
    var p := Presence(LATE, LATE + 10, "s", false);
    t, m := HarmfulRun(f, p, LATE);
  }
}
