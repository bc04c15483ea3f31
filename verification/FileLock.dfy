/** The interprocess lock of `extensions/_shared/file-lock.ts` as a state machine. */
module LockProtocol {
  // Every system call is one atomic step, and any number of calls, made by any number of
  // processes, interleave and crash.
  //
  // A lock is a directory.  Its owner publishes a uniquely named marker in it.  Nothing here
  // looks at a clock: the age test of a reclaimer is a free choice, so no property below
  // depends on `staleMs`.

  /** One incarnation of an operating-system process.  A reused PID is a new one. */
  type Process = nat

  type CallId = nat

  /** `ino` stands for the (device, inode) pair that `stat` reports. */
  type Ino = nat

  /** A directory entry: an owner marker, the legacy `owner.json`, or anything else. */
  datatype Name = Owner(pid: Process, token: nat) | Legacy | Foreign(id: nat)

  /** The directory at the lock path.  `gen` tells generations apart even when the
      file system hands out an inode number for the second time. */
  datatype Dir = Dir(gen: nat, ino: Ino, names: set<Name>)

  datatype Slot = Absent | Present(dir: Dir)

  /** An open directory handle: it pins `ino` until it is closed. */
  datatype Handle = Handle(gen: nat, ino: Ino)

  /** Where one call of `withInterprocessLock` is. */
  datatype Pc =
    | Ready                                  // before mkdir, with a fresh marker name
    | Made                                   // mkdir succeeded
    | Pinned(handle: Handle)                 // directory opened, `before` taken
    | Published(handle: Handle)              // marker written
    | Compared(handle: Handle, after: Ino)   // path stat taken
    | Scanning(handle: Handle, after: Ino, gen: nat, start: set<Name>)  // readdir opened
    | Closing(handle: Handle)                // acquired = true, handle still open
    | Critical                               // the caller's function runs
    | Releasing                              // about to unlink the marker, after the function
    | Leaked                                 // acquired, but close or unlink threw
    | Retracting(retry: bool)                // acquisition failed, about to unlink the marker
    | Removing(retry: bool)                  // about to rmdir
    | Stale                                  // acquisition refused, about to inspect the lock
    | Reclaiming(pending: set<Name>)         // going through a listing
    | Doomed(name: Name, pending: set<Name>) // owner found dead, about to unlink
    | Waiting                                // between two attempts
    | Finished

  datatype Call = Call(pid: Process, name: Name, pc: Pc)

  datatype State = State(
    slot: Slot,
    calls: map<CallId, Call>,
    dead: set<Process>,
    used: set<Name>,
    nextGen: nat)

  /** What one call does next.  The arguments are what the environment chooses. */
  datatype Action =
    | Mkdir(ino: Ino)
    | MkdirExists
    | Open
    | Publish
    | StatPath
    | OpenDir
    | ReadDir(seen: set<Name>)
    | Close
    | CloseFails
    | Fail(again: bool)
    | BeginRelease
    | Unlink
    | UnlinkFails
    | Rmdir
    | RmdirFails
    | SkipReclaim
    | List(listing: set<Name>)
    | Keep(kept: Name)
    | Judge(judged: Name)
    | UnlinkDoomed
    | Collapse
    | AbandonReclaim
    | Retry(token: nat)
    | GiveUp

  datatype Event =
    | Begin(id: CallId, pid: Process, token: nat)
    | Act(caller: CallId, action: Action)
    | Crash(process: Process)

  // ---------------------------------------------------------------- predicates

  predicate Alive(s: State, c: CallId) {
    c in s.calls && s.calls[c].pid !in s.dead
  }

  predicate HoldsHandle(pc: Pc) {
    pc.Pinned? || pc.Published? || pc.Compared? || pc.Scanning? || pc.Closing?
  }

  /** The flag `acquired` is true and the owner has not removed its marker yet. */
  predicate Acquired(pc: Pc) {
    pc.Closing? || pc.Critical? || pc.Releasing? || pc.Leaked?
  }

  /** The marker has been published and its owner has not decided to take it back. */
  predicate Marked(pc: Pc) {
    pc.Published? || pc.Compared? || pc.Scanning? || Acquired(pc)
  }

  /** The marker has not been published yet, or has been taken back. */
  predicate Unmarked(pc: Pc) {
    pc.Ready? || pc.Made? || pc.Pinned? || pc.Removing? || pc.Stale? || pc.Reclaiming? || pc.Doomed? || pc.Waiting?
  }

  /** An inode number stays out of circulation while a live process pins it. */
  predicate IsPinned(s: State, ino: Ino) {
    exists c :: c in s.calls && Alive(s, c) && HoldsHandle(s.calls[c].pc) && s.calls[c].pc.handle.ino == ino
  }

  function SetPc(s: State, c: CallId, pc: Pc): State
    requires c in s.calls
  {
    s.(calls := s.calls[c := s.calls[c].(pc := pc)])
  }

  function AddName(slot: Slot, n: Name): Slot {
    match slot
    case Absent => Absent
    case Present(d) => Present(d.(names := d.names + {n}))
  }

  /** `unlink(path.join(lockPath, n))`: resolved through whatever directory is there now. */
  function RemoveName(slot: Slot, n: Name): Slot {
    match slot
    case Absent => Absent
    case Present(d) => Present(d.(names := d.names - {n}))
  }

  /** `rmdir(lockPath)`: succeeds only on an empty directory. */
  function RemoveEmpty(slot: Slot): Slot {
    if slot.Present? && slot.dir.names == {} then Absent else slot
  }

  /** What a directory scan is bound to report: every entry that was there when it
      began and still is.  Marker names are never reused, so such an entry was
      there throughout; about any other entry the scan may report anything. */
  function MustSee(s: State, gen: nat, start: set<Name>): set<Name> {
    if s.slot.Present? && s.slot.dir.gen == gen then start * s.slot.dir.names else {}
  }

  // --------------------------------------------------------------- transitions

  predicate Enabled(s: State, c: CallId, a: Action)
    requires c in s.calls
  {
    var pc := s.calls[c].pc;
    match a
    case Mkdir(ino) => pc.Ready? && s.slot.Absent? && !IsPinned(s, ino)
    case MkdirExists => pc.Ready? && s.slot.Present?
    case Open => pc.Made? && s.slot.Present?
    case Publish => pc.Pinned? && s.slot.Present? && s.calls[c].name !in s.slot.dir.names
    case StatPath => pc.Published? && s.slot.Present?
    case OpenDir => pc.Compared? && s.slot.Present?
    case ReadDir(seen) => pc.Scanning? && MustSee(s, pc.gen, pc.start) <= seen
    case Close => pc.Closing?
    case CloseFails => pc.Closing?
    case Fail(_) => pc.Made? || pc.Pinned? || pc.Published? || pc.Compared? || pc.Scanning?
    case BeginRelease => pc.Critical?
    case Unlink => pc.Releasing? || pc.Retracting?
    case UnlinkFails => pc.Releasing? || pc.Retracting?
    case Rmdir => pc.Removing?
    case RmdirFails => pc.Removing?
    case SkipReclaim => pc.Stale?
    case List(_) => pc.Stale?
    case Keep(n) => pc.Reclaiming? && n in pc.pending
    // A live owner is always found alive; a dead one may look alive (PID reuse).
    // The legacy file names its owner only inside, which is not modelled.
    case Judge(n) => pc.Reclaiming? && n in pc.pending && (n.Legacy? || (n.Owner? && n.pid in s.dead))
    case UnlinkDoomed => pc.Doomed?
    case Collapse => pc.Reclaiming? && pc.pending == {}
    case AbandonReclaim => pc.Reclaiming? || pc.Doomed?
    case Retry(token) => pc.Waiting? && Owner(s.calls[c].pid, token) !in s.used
    case GiveUp => pc.Ready? || pc.Waiting?
  }

  function NextPc(s: State, c: CallId, a: Action): Pc
    requires c in s.calls && Enabled(s, c, a)
  {
    var pc := s.calls[c].pc;
    match a
    case Mkdir(_) => Made
    case MkdirExists => Stale
    case Open => Pinned(Handle(s.slot.dir.gen, s.slot.dir.ino))
    case Publish => Published(pc.handle)
    case StatPath => Compared(pc.handle, s.slot.dir.ino)
    case OpenDir => Scanning(pc.handle, pc.after, s.slot.dir.gen, s.slot.dir.names)
    case ReadDir(seen) =>
      if pc.handle.ino == pc.after && seen == {s.calls[c].name} then Closing(pc.handle) else Retracting(true)
    case Close => Critical
    case CloseFails => Leaked
    case Fail(again) => Retracting(again)
    case BeginRelease => Releasing
    case Unlink => Removing(pc.Retracting? && pc.retry)
    case UnlinkFails => if pc.Releasing? then Leaked else Finished
    case Rmdir => if pc.retry then Stale else Finished
    case RmdirFails => Finished
    case SkipReclaim => Waiting
    case List(listing) => Reclaiming(listing)
    case Keep(n) => Reclaiming(pc.pending - {n})
    case Judge(n) => Doomed(n, pc.pending - {n})
    case UnlinkDoomed => Reclaiming(pc.pending)
    case Collapse => Waiting
    case AbandonReclaim => Waiting
    case Retry(_) => Ready
    case GiveUp => Finished
  }

  function NextSlot(s: State, c: CallId, a: Action): Slot
    requires c in s.calls && Enabled(s, c, a)
  {
    match a
    case Mkdir(ino) => Present(Dir(s.nextGen, ino, {}))
    case Publish => AddName(s.slot, s.calls[c].name)
    case Unlink => RemoveName(s.slot, s.calls[c].name)
    case UnlinkDoomed => RemoveName(s.slot, s.calls[c].pc.name)
    case Rmdir => RemoveEmpty(s.slot)
    case Collapse => RemoveEmpty(s.slot)
    case _ => s.slot
  }

  function Perform(s: State, c: CallId, a: Action): State
    requires c in s.calls && Enabled(s, c, a)
  {
    var me := s.calls[c];
    var name := if a.Retry? then Owner(me.pid, a.token) else me.name;
    State(NextSlot(s, c, a),
          s.calls[c := Call(me.pid, name, NextPc(s, c, a))],
          s.dead,
          if a.Retry? then s.used + {name} else s.used,
          if a.Mkdir? then s.nextGen + 1 else s.nextGen)
  }

  ghost predicate Step(s: State, e: Event, t: State) {
    match e
    case Begin(c, pid, token) =>
      && c !in s.calls && pid !in s.dead && Owner(pid, token) !in s.used
      && t == s.(calls := s.calls[c := Call(pid, Owner(pid, token), Ready)], used := s.used + {Owner(pid, token)})
    case Act(c, a) => Alive(s, c) && Enabled(s, c, a) && t == Perform(s, c, a)
    case Crash(p) => t == s.(dead := s.dead + {p})
  }

  /** Initially there are no calls; the lock path may hold anything an earlier run left. */
  ghost predicate Initial(s: State) {
    && s.calls == map[]
    && (s.slot.Present? ==> s.slot.dir.names <= s.used && s.slot.dir.gen < s.nextGen)
  }

  ghost predicate StepAt(states: seq<State>, events: seq<Event>, i: nat)
    requires i < |events| < |states|
  {
    Step(states[i], events[i], states[i + 1])
  }

  /** A finite run: `states[i]` goes to `states[i+1]` by `events[i]`. */
  ghost predicate IsRun(states: seq<State>, events: seq<Event>) {
    && |states| == |events| + 1
    && Initial(states[0])
    && forall i: nat | i < |events| :: StepAt(states, events, i)
  }

  lemma ExtendRun(states: seq<State>, events: seq<Event>, e: Event, t: State)
    requires IsRun(states, events) && Step(states[|states| - 1], e, t)
    ensures IsRun(states + [t], events + [e])
  {
    var states', events' := states + [t], events + [e];
    forall i: nat | i < |events'|
      ensures StepAt(states', events', i)
    {
      if i < |events| {
        assert StepAt(states, events, i);
      }
    }
  }

  // ---------------------------------------------------------------- invariants

  ghost predicate MarkerPresent(s: State, c: CallId)
    requires c in s.calls
  {
    s.slot.Present? && s.calls[c].name in s.slot.dir.names
  }

  /** What holds of every call on its own: its name is its own kind of marker; a
      reclaimer dooms dead processes' markers only; and, for a live call, a
      published marker is in the directory at the lock path and a withdrawn one is
      not, a scan still looks at that directory, and a pinned inode number names one generation only. */
  ghost predicate CallOk(s: State, c: CallId)
    requires c in s.calls
  {
    var me := s.calls[c];
    && me.name.Owner? && me.name.pid == me.pid && me.name in s.used
    && (me.pc.Doomed? ==> me.pc.name.Legacy? || (me.pc.name.Owner? && me.pc.name.pid in s.dead))
    && (Alive(s, c) ==>
          && (Marked(me.pc) ==> MarkerPresent(s, c))
          && (Unmarked(me.pc) ==> !MarkerPresent(s, c))
          && (me.pc.Scanning? ==> me.pc.gen == s.slot.dir.gen)
          && (me.pc.Compared? || me.pc.Scanning? ==> me.pc.after == s.slot.dir.ino)
          && (HoldsHandle(me.pc) ==>
                me.pc.handle.gen < s.nextGen &&
                (s.slot.Present? && s.slot.dir.ino == me.pc.handle.ino ==> s.slot.dir.gen == me.pc.handle.gen))
          && (me.pc.Closing? ==> me.pc.handle.gen == s.slot.dir.gen))
  }

  /** What holds of two different calls: different names; and, if both live, one
      of two scanners saw the other's marker when its scan began, a scanner began
      after the marker of every acquired call was there, and they are not both
      acquired. */
  ghost predicate PairOk(s: State, c: CallId, d: CallId)
    requires c in s.calls && d in s.calls
  {
    var me, other := s.calls[c], s.calls[d];
    && me.name != other.name
    && (Alive(s, c) && Alive(s, d) ==>
          && (me.pc.Scanning? && other.pc.Scanning? ==>
                me.name in other.pc.start || other.name in me.pc.start)
          && (me.pc.Scanning? && Acquired(other.pc) ==> other.name in me.pc.start)
          && (other.pc.Scanning? && Acquired(me.pc) ==> me.name in other.pc.start)
          && !(Acquired(me.pc) && Acquired(other.pc)))
  }

  ghost predicate Inv(s: State) {
    && (s.slot.Present? ==> s.slot.dir.gen < s.nextGen && s.slot.dir.names <= s.used)
    && (forall c | c in s.calls :: CallOk(s, c))
    && (forall c, d | c in s.calls && d in s.calls && c != d :: PairOk(s, c, d))
  }

  lemma ActSelf(s: State, c: CallId, a: Action)
    requires Inv(s) && Alive(s, c) && Enabled(s, c, a)
    ensures CallOk(Perform(s, c, a), c)
  {
    assert CallOk(s, c);
  }

  lemma ActOther(s: State, c: CallId, a: Action, x: CallId)
    requires Inv(s) && Alive(s, c) && Enabled(s, c, a) && x in s.calls && x != c
    ensures CallOk(Perform(s, c, a), x)
  {
    assert CallOk(s, c) && CallOk(s, x) && PairOk(s, c, x);
  }

  /** The heart of the protocol: a scan that reports the caller's own marker alone
      rules out every live acquired call, and every live scanner began after the
      caller had published. */
  lemma AloneInScan(s: State, c: CallId, seen: set<Name>, y: CallId)
    requires Inv(s) && Alive(s, c) && Enabled(s, c, ReadDir(seen)) && seen == {s.calls[c].name}
    requires Alive(s, y) && y != c
    ensures !Acquired(s.calls[y].pc)
    ensures s.calls[y].pc.Scanning? ==> s.calls[c].name in s.calls[y].pc.start
  {
    assert CallOk(s, c) && CallOk(s, y) && PairOk(s, c, y);
    var other := s.calls[y].name;
    assert other !in MustSee(s, s.calls[c].pc.gen, s.calls[c].pc.start);
  }

  lemma ActPair(s: State, c: CallId, a: Action, x: CallId, y: CallId)
    requires Inv(s) && Alive(s, c) && Enabled(s, c, a) && x in s.calls && y in s.calls && x != y
    ensures PairOk(Perform(s, c, a), x, y)
  {
    assert CallOk(s, x) && CallOk(s, y) && PairOk(s, x, y) && PairOk(s, y, x);
    if a.ReadDir? && Acquired(Perform(s, c, a).calls[c].pc) {
      if x == c && Alive(s, y) {
        AloneInScan(s, c, a.seen, y);
      } else if y == c && Alive(s, x) {
        AloneInScan(s, c, a.seen, x);
      }
    }
  }

  lemma ActInv(s: State, c: CallId, a: Action)
    requires Inv(s) && Alive(s, c) && Enabled(s, c, a)
    ensures Inv(Perform(s, c, a))
  {
    var t := Perform(s, c, a);
    forall x | x in t.calls
      ensures CallOk(t, x)
    {
      if x == c {
        ActSelf(s, c, a);
      } else {
        ActOther(s, c, a, x);
      }
    }
    forall x, y | x in t.calls && y in t.calls && x != y
      ensures PairOk(t, x, y)
    {
      ActPair(s, c, a, x, y);
    }
  }

  lemma BeginInv(s: State, e: Event, t: State)
    requires Inv(s) && e.Begin? && Step(s, e, t)
    ensures Inv(t)
  {
    forall c | c in t.calls
      ensures CallOk(t, c)
    {
      if c in s.calls {
        assert CallOk(s, c);
      }
    }
    forall c, d | c in t.calls && d in t.calls && c != d
      ensures PairOk(t, c, d)
    {
      if c in s.calls && d in s.calls {
        assert PairOk(s, c, d);
      } else if c in s.calls {
        assert CallOk(s, c);
      } else {
        assert CallOk(s, d);
      }
    }
  }

  lemma CrashInv(s: State, e: Event, t: State)
    requires Inv(s) && e.Crash? && Step(s, e, t)
    ensures Inv(t)
  {
    assert forall c | c in t.calls :: CallOk(s, c) && CallOk(t, c);
    assert forall c, d | c in t.calls && d in t.calls && c != d :: PairOk(s, c, d) && PairOk(t, c, d);
  }

  lemma StepInv(s: State, e: Event, t: State)
    requires Inv(s) && Step(s, e, t)
    ensures Inv(t)
  {
    match e
    case Begin(_, _, _) => BeginInv(s, e, t);
    case Act(c, a) => ActInv(s, c, a);
    case Crash(_) => CrashInv(s, e, t);
  }

  lemma RunInv(states: seq<State>, events: seq<Event>, k: nat)
    requires IsRun(states, events) && k < |states|
    ensures Inv(states[k])
  {
    if k > 0 {
      RunInv(states, events, k - 1);
      assert StepAt(states, events, k - 1);
      StepInv(states[k - 1], events[k - 1], states[k]);
    }
  }

  // -------------------------------------------------------------- main results

  /** In every state of every run, at most one live call has acquired the lock. */
  lemma MutualExclusion(states: seq<State>, events: seq<Event>, k: nat, c: CallId, d: CallId)
    requires IsRun(states, events) && k < |states|
    requires c != d && Alive(states[k], c) && Alive(states[k], d)
    ensures !(Acquired(states[k].calls[c].pc) && Acquired(states[k].calls[d].pc))
  {
    RunInv(states, events, k);
    assert PairOk(states[k], c, d);
  }

  /** A live call whose release failed still keeps everybody else out. */
  lemma LeakedLockStaysShut(states: seq<State>, events: seq<Event>, k: nat, c: CallId, d: CallId)
    requires IsRun(states, events) && k < |states| && c != d && Alive(states[k], c) && Alive(states[k], d)
    requires states[k].calls[c].pc.Leaked?
    ensures var pc := states[k].calls[d].pc; !pc.Closing? && !pc.Critical? && !pc.Releasing? && !pc.Leaked?
    ensures MarkerPresent(states[k], c)
  {
    RunInv(states, events, k);
    var s := states[k];
    assert Inv(s) && PairOk(s, c, d) && CallOk(s, c);
  }

  /** Whatever step is taken by anyone but a live call itself, the call's marker
      stays in the directory and the directory keeps its generation: reclaimers
      neither unlink it nor remove or replace the directory around it. */
  lemma OnlyTheOwnerUnpublishes(s: State, e: Event, t: State, d: CallId)
    requires Inv(s) && Step(s, e, t) && Alive(t, d) && d in s.calls && MarkerPresent(s, d)
    requires e.Act? && e.caller == d ==> !e.action.Unlink? && !e.action.Retry?
    ensures MarkerPresent(t, d) && t.slot.dir.gen == s.slot.dir.gen
  {
    assert CallOk(s, d);
    if e.Act? {
      assert CallOk(s, e.caller);
      if e.caller != d {
        assert PairOk(s, e.caller, d);
      }
    }
  }

  /** As long as a live call stays between publishing and releasing, the lock path
      names one and the same directory, and its marker is in it. */
  lemma {:induction false} LiveGenerationStays(states: seq<State>, events: seq<Event>, i: nat, j: nat, c: CallId)
    requires IsRun(states, events) && i <= j < |states| && Alive(states[j], c)
    requires forall k | i <= k <= j :: Alive(states[k], c) && Marked(states[k].calls[c].pc)
    ensures states[i].slot.Present? && states[j].slot.Present?
    ensures states[i].slot.dir.gen == states[j].slot.dir.gen
    ensures states[j].calls[c].name in states[j].slot.dir.names
  {
    RunInv(states, events, j);
    assert CallOk(states[j], c);
    if i < j {
      LiveGenerationStays(states, events, i, j - 1, c);
      RunInv(states, events, j - 1);
      assert StepAt(states, events, j - 1);
      OnlyTheOwnerUnpublishes(states[j - 1], events[j - 1], states[j], c);
    }
  }

  /** The pinned inode comparison means what it is for: a call that acquires does so
      in the very generation it had open before publishing, although inode numbers
      are reused. */
  lemma AcquiresItsPinnedGeneration(states: seq<State>, events: seq<Event>, k: nat, c: CallId)
    requires IsRun(states, events) && k < |states|
    requires Alive(states[k], c) && states[k].calls[c].pc.Closing?
    ensures states[k].slot.Present?
    ensures states[k].slot.dir.gen == states[k].calls[c].pc.handle.gen
  {
    RunInv(states, events, k);
    assert CallOk(states[k], c);
  }

  // ------------------------------------------------------------------ recovery

  /** `c` alone can take these actions one after the other. */
  predicate CanFollow(s: State, c: CallId, actions: seq<Action>)
    decreases |actions|
  {
    actions == [] ||
    (Alive(s, c) && Enabled(s, c, actions[0]) && CanFollow(Perform(s, c, actions[0]), c, actions[1..]))
  }

  function Follow(s: State, c: CallId, actions: seq<Action>): State
    requires CanFollow(s, c, actions)
    decreases |actions|
  {
    if actions == [] then s else Follow(Perform(s, c, actions[0]), c, actions[1..])
  }

  lemma {:induction false} FollowConcat(s: State, c: CallId, a: seq<Action>, b: seq<Action>)
    requires CanFollow(s, c, a) && CanFollow(Follow(s, c, a), c, b)
    ensures CanFollow(s, c, a + b) && Follow(s, c, a + b) == Follow(Follow(s, c, a), c, b)
    decreases |a|
  {
    if a == [] {
      assert a + b == b;
    } else {
      FollowConcat(Perform(s, c, a[0]), c, a[1..], b);
      assert (a + b)[1..] == a[1..] + b;
    }
  }

  /** Only markers of dead processes, or the legacy file, are left in the directory. */
  predicate OnlyDeadMarkers(s: State, names: set<Name>) {
    forall n | n in names :: n.Legacy? || (n.Owner? && n.pid in s.dead)
  }

  lemma {:induction false} EmptiesDeadLock(s: State, c: CallId) returns (actions: seq<Action>)
    requires Alive(s, c) && s.calls[c].pc.Reclaiming? && s.slot.Present?
    requires s.slot.dir.names == s.calls[c].pc.pending && OnlyDeadMarkers(s, s.slot.dir.names)
    ensures CanFollow(s, c, actions)
    ensures Follow(s, c, actions) == SetPc(s.(slot := Absent), c, Waiting)
    decreases s.slot.dir.names
  {
    if s.slot.dir.names == {} {
      actions := [Collapse];
      assert actions[1..] == [];
    } else {
      var n :| n in s.slot.dir.names;
      var s1 := Perform(s, c, Judge(n));
      var s2 := Perform(s1, c, UnlinkDoomed);
      var rest := EmptiesDeadLock(s2, c);
      actions := [Judge(n), UnlinkDoomed] + rest;
      assert actions[1..] == [UnlinkDoomed] + rest && ([UnlinkDoomed] + rest)[1..] == rest;
      assert SetPc(s2.(slot := Absent), c, Waiting) == SetPc(s.(slot := Absent), c, Waiting);
    }
  }

  lemma SomeTokenUnused(used: set<Name>, pid: Process) returns (token: nat)
    ensures Owner(pid, token) !in used
  {
    var tokens := set n | n in used && n.Owner? :: n.token;
    token := SomeNatOutside(tokens);
    assert forall n | n in used && n.Owner? :: n.token in tokens;
  }

  lemma SomeNatOutside(taken: set<nat>) returns (n: nat)
    ensures n !in taken
  {
    n := 0;
    var rest := taken;
    while exists m :: m in rest && m >= n
      invariant forall m | m in taken && m >= n :: m in rest
      decreases |rest|
    {
      var m :| m in rest && m >= n;
      rest := rest - {m};
      n := m + 1;
    }
  }

  lemma SomeInoUnpinned(s: State) returns (ino: Ino)
    ensures !IsPinned(s, ino)
  {
    var pinned := set c | c in s.calls && HoldsHandle(s.calls[c].pc) :: s.calls[c].pc.handle.ino;
    ino := SomeNatOutside(pinned);
  }

  /** A lock left behind by crashed owners is not lost: a refused call can clear it
      and go on to acquire it. */
  lemma DeadLockIsRecovered(s: State, c: CallId)
    requires Inv(s) && Alive(s, c) && s.calls[c].pc.Stale?
    requires s.slot.Present?
    requires forall n | n in s.slot.dir.names :: n.Legacy? || (n.Owner? && n.pid in s.dead)
    ensures exists actions ::
              CanFollow(s, c, actions) && c in Follow(s, c, actions).calls &&
              Follow(s, c, actions).calls[c].pc.Critical?
  {
    var s1 := Perform(s, c, List(s.slot.dir.names));
    var clear := EmptiesDeadLock(s1, c);
    assert CanFollow(s, c, [List(s.slot.dir.names)]);
    FollowConcat(s, c, [List(s.slot.dir.names)], clear);
    var s2 := Follow(s1, c, clear);
    var token := SomeTokenUnused(s2.used, s2.calls[c].pid);
    var s3 := Perform(s2, c, Retry(token));
    var ino := SomeInoUnpinned(s3);
    var name := Owner(s2.calls[c].pid, token);
    var acquire := [Retry(token)] + AcquireActions(name, ino);
    FreshAcquire(s2, c, token, ino);
    FollowConcat(s, c, [List(s.slot.dir.names)] + clear, acquire);
  }

  lemma ScanAlone(s: State, c: CallId)
    requires Alive(s, c) && s.calls[c].pc.Compared? && s.slot.Present?
    requires s.slot.dir.names == {s.calls[c].name} && s.calls[c].pc.handle.ino == s.calls[c].pc.after
    ensures
      var scan := [OpenDir, ReadDir({s.calls[c].name}), Close];
      CanFollow(s, c, scan) && Follow(s, c, scan) == SetPc(s, c, Critical)
  {
    var name, h, after := s.calls[c].name, s.calls[c].pc.handle, s.calls[c].pc.after;
    var s1 := SetPc(s, c, Scanning(h, after, s.slot.dir.gen, {name}));
    var s2 := SetPc(s, c, Closing(h));
    assert s1 == Perform(s, c, OpenDir);
    assert s2 == Perform(s1, c, ReadDir({name}));
    FollowCons(s2, c, Close, []);
    FollowCons(s1, c, ReadDir({name}), [Close]);
    FollowCons(s, c, OpenDir, [ReadDir({name}), Close]);
  }

  lemma ConfirmAlone(s: State, c: CallId)
    requires Alive(s, c) && s.calls[c].pc.Published? && s.slot.Present?
    requires s.slot.dir.names == {s.calls[c].name} && s.slot.dir.ino == s.calls[c].pc.handle.ino
    ensures
      var confirm := [StatPath, OpenDir, ReadDir({s.calls[c].name}), Close];
      CanFollow(s, c, confirm) && Follow(s, c, confirm) == SetPc(s, c, Critical)
  {
    var s1 := Perform(s, c, StatPath);
    ScanAlone(s1, c);
    FollowCons(s, c, StatPath, [OpenDir, ReadDir({s.calls[c].name}), Close]);
    assert SetPc(s1, c, Critical) == SetPc(s, c, Critical);
  }

  /** The system calls of an acquisition that nobody disturbs. */
  function AcquireActions(name: Name, ino: Ino): seq<Action> {
    [Mkdir(ino)] + ([Open] + ([Publish] + [StatPath, OpenDir, ReadDir({name}), Close]))
  }

  lemma AcquireFromReady(s: State, c: CallId, ino: Ino)
    requires Alive(s, c) && s.slot.Absent? && s.calls[c].pc.Ready? && !IsPinned(s, ino)
    ensures
      var acquire := AcquireActions(s.calls[c].name, ino);
      && CanFollow(s, c, acquire)
      && c in Follow(s, c, acquire).calls && Follow(s, c, acquire).calls[c].pc.Critical?
  {
    var name := s.calls[c].name;
    var s1 := Perform(s, c, Mkdir(ino));
    var s2 := Perform(s1, c, Open);
    var s3 := Perform(s2, c, Publish);
    var confirm := [StatPath, OpenDir, ReadDir({name}), Close];
    ConfirmAlone(s3, c);
    FollowCons(s2, c, Publish, confirm);
    FollowCons(s1, c, Open, [Publish] + confirm);
    FollowCons(s, c, Mkdir(ino), [Open] + ([Publish] + confirm));
  }

  lemma FreshAcquire(s: State, c: CallId, token: nat, ino: Ino)
    requires Alive(s, c) && s.slot.Absent? && s.calls[c].pc.Waiting?
    requires Owner(s.calls[c].pid, token) !in s.used
    requires !IsPinned(Perform(s, c, Retry(token)), ino)
    ensures
      var acquire := [Retry(token)] + AcquireActions(Owner(s.calls[c].pid, token), ino);
      && CanFollow(s, c, acquire)
      && c in Follow(s, c, acquire).calls && Follow(s, c, acquire).calls[c].pc.Critical?
  {
    var s1 := Perform(s, c, Retry(token));
    AcquireFromReady(s1, c, ino);
    FollowCons(s, c, Retry(token), AcquireActions(Owner(s.calls[c].pid, token), ino));
  }

  /** Releasing takes the call's own marker out of the directory and no other, and removes
      the directory exactly when that leaves it empty. */
  lemma ReleaseRemovesItsMarker(s: State, c: CallId)
    requires Inv(s) && Alive(s, c) && s.calls[c].pc.Critical?
    ensures s.slot.Present?
    ensures
      var rest := s.slot.dir.names - {s.calls[c].name};
      && CanFollow(s, c, [BeginRelease, Unlink, Rmdir])
      && Follow(s, c, [BeginRelease, Unlink, Rmdir]) ==
           SetPc(s.(slot := if rest == {} then Absent else Present(s.slot.dir.(names := rest))), c, Finished)
  {
    assert CallOk(s, c);
    var s1 := Perform(s, c, BeginRelease);
    var s2 := Perform(s1, c, Unlink);
    FollowCons(s2, c, Rmdir, []);
    FollowCons(s1, c, Unlink, [Rmdir]);
    FollowCons(s, c, BeginRelease, [Unlink, Rmdir]);
  }

  /** A released lock is free: when the holder's marker is the only one, releasing leaves
      no lock directory, and any other live call that is about to try, or to try again,
      can then acquire the lock on its own. */
  lemma ReleaseFreesTheLock(s: State, c: CallId, d: CallId) returns (t: State)
    requires Inv(s) && Alive(s, c) && s.calls[c].pc.Critical?
    requires s.slot.Present? && s.slot.dir.names == {s.calls[c].name}
    requires c != d && Alive(s, d) && (s.calls[d].pc.Ready? || s.calls[d].pc.Waiting?)
    ensures CanFollow(s, c, [BeginRelease, Unlink, Rmdir]) && t == Follow(s, c, [BeginRelease, Unlink, Rmdir])
    ensures t.slot.Absent? && t.calls[c].pc.Finished?
    ensures exists actions ::
              CanFollow(t, d, actions) && d in Follow(t, d, actions).calls &&
              Follow(t, d, actions).calls[d].pc.Critical?
  {
    ReleaseRemovesItsMarker(s, c);
    t := Follow(s, c, [BeginRelease, Unlink, Rmdir]);
    assert {s.calls[c].name} - {s.calls[c].name} == {};
    if t.calls[d].pc.Ready? {
      var ino := SomeInoUnpinned(t);
      AcquireFromReady(t, d, ino);
    } else {
      var token := SomeTokenUnused(t.used, t.calls[d].pid);
      var ino := SomeInoUnpinned(Perform(t, d, Retry(token)));
      FreshAcquire(t, d, token, ino);
    }
  }

  lemma FollowCons(s: State, c: CallId, a: Action, rest: seq<Action>)
    requires Alive(s, c) && Enabled(s, c, a) && CanFollow(Perform(s, c, a), c, rest)
    ensures CanFollow(s, c, [a] + rest) && Follow(s, c, [a] + rest) == Follow(Perform(s, c, a), c, rest)
  {
    assert ([a] + rest)[1..] == rest;
  }
}
