/** The functions of `extensions/_shared/file-lock.ts`, each a sequence of system calls on a shared host. */
module InterprocessLock {
  // Between two calls of one caller the rest of the machine may take any number of protocol
  // steps; the host records everything that happened, so that what the functions do is a run
  // of `LockProtocol`.

  import opened LockProtocol

  /** A step that does not come from call `c` and does not kill its process. */
  predicate ByOthers(e: Event, c: CallId, pid: Process) {
    match e
    case Begin(id, _, _) => id != c
    case Act(caller, _) => caller != c
    case Crash(p) => p != pid
  }

  /** Nobody else that is alive has the lock. */
  ghost predicate SoleHolder(s: State, c: CallId) {
    Alive(s, c) && Acquired(s.calls[c].pc) &&
    forall d | Alive(s, d) && d != c :: !Acquired(s.calls[d].pc)
  }

  lemma AcquiredIsSole(s: State, c: CallId)
    requires Inv(s) && Alive(s, c) && Acquired(s.calls[c].pc)
    ensures SoleHolder(s, c)
  {
    forall d | Alive(s, d) && d != c
      ensures !Acquired(s.calls[d].pc)
    {
      assert PairOk(s, c, d);
    }
  }

  lemma WithdrawnIsGone(s: State, c: CallId)
    requires Inv(s) && Alive(s, c) && s.calls[c].pc.Removing?
    ensures !MarkerPresent(s, c) && Enabled(s, c, Rmdir) && Enabled(s, c, RmdirFails)
  {
    assert CallOk(s, c);
  }

  lemma WithdrawIsEnabled(s: State, c: CallId)
    requires c in s.calls && (s.calls[c].pc.Releasing? || s.calls[c].pc.Retracting?)
    ensures Enabled(s, c, Unlink) && Enabled(s, c, UnlinkFails)
  {
  }

  lemma {:induction false} OthersLeaveCall(states: seq<State>, events: seq<Event>, i: nat, j: nat, c: CallId)
    requires IsRun(states, events) && i <= j < |states| && Alive(states[i], c)
    requires forall k | i <= k < j :: ByOthers(events[k], c, states[i].calls[c].pid)
    ensures Alive(states[j], c) && states[j].calls[c] == states[i].calls[c]
  {
    if i < j {
      OthersLeaveCall(states, events, i, j - 1, c);
      assert StepAt(states, events, j - 1);
    }
  }

  /** Where a call stands after so many steps of publishing in a directory of its own. */
  predicate AsPublished(s: State, c: CallId, i: nat)
    requires c in s.calls
  {
    var pc, name := s.calls[c].pc, s.calls[c].name;
    && s.slot.Present? && s.slot.dir.names == (if i < 2 then {} else {name})
    && (HoldsHandle(pc) ==> pc.handle.ino == s.slot.dir.ino)
    && (pc.Compared? || pc.Scanning? ==> pc.after == s.slot.dir.ino)
    && (pc.Scanning? ==> pc.start == {name})
  }

  /** The system calls of a publication. */
  const PLAN: seq<Action> := [Open, Publish, StatPath, OpenDir]

  predicate AtStep(pc: Pc, n: nat) {
    match pc
    case Made => n == 0
    case Pinned(_) => n == 1
    case Published(_) => n == 2
    case Compared(_, _) => n == 3
    case Scanning(_, _, _, _) => n == 4
    case _ => false
  }

  class Host {
    var state: State
    ghost var states: seq<State>
    ghost var events: seq<Event>
    ghost var disturbances: nat

    ghost predicate Valid()
      reads this
    {
      IsRun(states, events) && state == states[|states| - 1]
    }

    /** A host whose lock path holds whatever `slot` says, with no call in progress. */
    constructor (slot: Slot, dead: set<Process>, used: set<Name>, nextGen: nat)
      requires slot.Present? ==> slot.dir.names <= used && slot.dir.gen < nextGen
      ensures Valid() && state == State(slot, map[], dead, used, nextGen)
    {
      state := State(slot, map[], dead, used, nextGen);
      states := [State(slot, map[], dead, used, nextGen)];
      events := [];
      disturbances := 0;
    }

    /** The history only grows. */
    twostate predicate Continues()
      reads this
    {
      old(states) <= states && old(events) <= events && old(disturbances) <= disturbances
    }

    /** Nothing failed, and nobody else took a step. */
    twostate predicate Undisturbed()
      reads this
    {
      disturbances == old(disturbances)
    }

    /** Dead owners may have left markers in the lock directory, and nobody else. */
    predicate OnlyDeadLeft()
      reads this
    {
      state.slot.Present? ==> OnlyDeadMarkers(state, state.slot.dir.names)
    }

    /** The lock directory holds just these names. */
    predicate Holds(names: set<Name>)
      reads this
    {
      state.slot.Present? && state.slot.dir.names == names
    }

    /** One system call of `c`. */
    method Do(c: CallId, a: Action)
      requires Valid() && Alive(state, c) && Enabled(state, c, a)
      modifies this
      ensures Valid() && Continues() && state == Perform(old(state), c, a)
      ensures Undisturbed()
    {
      ExtendRun(states, events, Act(c, a), Perform(state, c, a));
      state := Perform(state, c, a);
      states := states + [state];
      events := events + [Act(c, a)];
    }

    /** The same, keeping only what a caller relies on. */
    method Move(c: CallId, a: Action)
      requires Valid() && Alive(state, c) && Enabled(state, c, a) && !a.Retry?
      modifies this
      ensures Valid() && Continues() && Inv(state) && Alive(state, c)
      ensures state.calls[c] == old(state.calls[c].(pc := NextPc(state, c, a)))
      ensures state.slot == old(NextSlot(state, c, a)) && state.dead == old(state.dead)
      ensures Undisturbed()
    {
      Do(c, a);
      RunInv(states, events, |states| - 1);
    }

    /** Everybody else.  Nothing is promised but that only others took steps; this
        body takes none, and callers cannot tell. */
    method Interfere(c: CallId)
      requires Valid() && Alive(state, c)
      modifies this
      ensures Valid() && Continues() && disturbances - old(disturbances) == |events| - |old(events)|
      ensures forall k | |old(events)| <= k < |events| :: ByOthers(events[k], c, old(state.calls[c].pid))
    {
    }

    method Yield(c: CallId)
      requires Valid() && Alive(state, c)
      modifies this
      ensures Valid() && Continues() && Inv(state)
      ensures Alive(state, c) && state.calls[c] == old(state.calls[c])
      ensures Undisturbed() ==> state == old(state)
    {
      ghost var now := |states| - 1;
      Interfere(c);
      OthersLeaveCall(states, events, now, |states| - 1, c);
      RunInv(states, events, |states| - 1);
    }

    /** A system call may fail for reasons of its own. */
    method Chance() returns (fails: bool)
      modifies this`disturbances
      ensures disturbances == old(disturbances) + if fails then 1 else 0
    {
      fails := *;
      disturbances := disturbances + if fails then 1 else 0;
    }

    /** Reading the directory reports every name that is there throughout; to report
        anything else counts as a failure. */
    method Names(there: set<Name>) returns (seen: set<Name>)
      modifies this`disturbances
      ensures disturbances == old(disturbances) + if seen == there then 0 else 1
    {
      seen := *;
      disturbances := disturbances + if seen == there then 0 else 1;
    }

    method PickInode() returns (ino: Ino)
      ensures !IsPinned(state, ino)
    {
      ghost var free := SomeInoUnpinned(state);
      ino :| !IsPinned(state, ino);
    }

    /** Unlink the caller's own marker. */
    method Withdraw(c: CallId, fails: bool)
      requires Valid() && Alive(state, c) && (state.calls[c].pc.Releasing? || state.calls[c].pc.Retracting?)
      modifies this
      ensures Valid() && Continues() && Inv(state) && Alive(state, c)
      ensures state.calls[c] ==
              old(state.calls[c].(pc := NextPc(state, c, if fails then UnlinkFails else Unlink)))
      ensures !fails ==> !MarkerPresent(state, c)
      ensures state.slot == if fails then old(state.slot) else old(RemoveName(state.slot, state.calls[c].name))
      ensures Undisturbed()
    {
      Do(c, if fails then UnlinkFails else Unlink);
      RunInv(states, events, |states| - 1);
      assert CallOk(state, c);
    }

    /** Remove the directory if it is empty. */
    method RemoveEmptyLock(c: CallId, fails: bool)
      requires Valid() && Alive(state, c) && state.calls[c].pc.Removing? && !MarkerPresent(state, c)
      modifies this
      ensures Valid() && Continues() && Inv(state) && Alive(state, c)
      ensures state.calls[c] ==
              old(state.calls[c].(pc := NextPc(state, c, if fails then RmdirFails else Rmdir)))
      ensures state.slot == if fails then old(state.slot) else RemoveEmpty(old(state.slot))
      ensures !MarkerPresent(state, c) && Undisturbed()
    {
      Do(c, if fails then RmdirFails else Rmdir);
      RunInv(states, events, |states| - 1);
    }

    /** Unlink the caller's own marker and remove the directory if that emptied it. When no
        system call fails the marker is gone and the directory, too, unless others are in it. */
    method ReleaseLock(c: CallId, unlinkFails: bool, rmdirFails: bool)
      requires Valid() && Alive(state, c) && (state.calls[c].pc.Releasing? || state.calls[c].pc.Retracting?)
      modifies this
      ensures Valid() && Continues() && Inv(state)
      ensures Alive(state, c) && state.calls[c].name == old(state.calls[c].name)
      ensures state.calls[c].pid == old(state.calls[c].pid)
      ensures state.calls[c].pc == if unlinkFails && old(state.calls[c].pc.Releasing?) then Leaked
                                   else if !unlinkFails && !rmdirFails && old(state.calls[c].pc) == Retracting(true)
                                   then Stale
                                   else Finished
      ensures !unlinkFails ==> !MarkerPresent(state, c)
      ensures !unlinkFails && !rmdirFails ==> state.slot.Absent? || state.slot.dir.names != {}
      ensures !unlinkFails && !rmdirFails && Undisturbed() && old(Holds({state.calls[c].name})) ==> state.slot.Absent?
    {
      hide Inv, MarkerPresent, IsRun, Enabled;
      Yield(c);
      WithdrawIsEnabled(state, c);
      Withdraw(c, unlinkFails);
      if !unlinkFails {
        Yield(c);
        WithdrawnIsGone(state, c);
        RemoveEmptyLock(c, rmdirFails);
      }
    }

    /** One system call on the way to publication, which may fail. */
    method Attempt(c: CallId, n: nat) returns (done: bool)
      requires Valid() && Alive(state, c) && n < |PLAN| && AtStep(state.calls[c].pc, n)
      modifies this
      ensures Valid() && Continues() && Inv(state) && Alive(state, c)
      ensures state.calls[c].name == old(state.calls[c].name) && state.calls[c].pid == old(state.calls[c].pid)
      ensures if done then AtStep(state.calls[c].pc, n + 1) else state.calls[c].pc.Retracting?
      ensures Undisturbed() && old(AsPublished(state, c, n)) ==> done && AsPublished(state, c, n + 1)
    {
      hide Inv, IsRun, MarkerPresent;
      Yield(c);
      var fails := Chance();
      done := !fails && Enabled(state, c, PLAN[n]);
      if done {
        Move(c, PLAN[n]);
      } else {
        var retry := Chance();
        Move(c, Fail(retry));
      }
    }

    /** The second look: the directory must be the pinned one and hold just this marker. */
    method Confirm(c: CallId) returns (acquired: bool)
      requires Valid() && Alive(state, c) && state.calls[c].pc.Scanning?
      modifies this
      ensures Valid() && Continues() && Inv(state) && Alive(state, c)
      ensures state.calls[c].name == old(state.calls[c].name) && state.calls[c].pid == old(state.calls[c].pid)
      ensures state.calls[c].pc == if acquired then Closing(old(state.calls[c].pc.handle)) else Retracting(true)
      ensures Undisturbed() && old(AsPublished(state, c, |PLAN|)) ==> acquired && Holds({state.calls[c].name})
    {
      hide Inv, IsRun, MarkerPresent;
      acquired := false;
      Yield(c);
      var must := MustSee(state, state.calls[c].pc.gen, state.calls[c].pc.start);
      var seen := Names(if state.slot.Present? then state.slot.dir.names else {});
      if !(must <= seen) {
        Move(c, Fail(true));  // the directory could not be read
      } else {
        acquired := state.calls[c].pc.handle.ino == state.calls[c].pc.after && seen == {state.calls[c].name};
        Move(c, ReadDir(seen));
      }
    }

    /** The body of the `try` block: publish in a pinned directory, then look again. */
    method PublishAndConfirm(c: CallId) returns (acquired: bool)
      requires Valid() && Alive(state, c) && state.calls[c].pc.Made?
      modifies this
      ensures Valid() && Continues() && Inv(state)
      ensures Alive(state, c) && state.calls[c].name == old(state.calls[c].name)
      ensures state.calls[c].pid == old(state.calls[c].pid)
      ensures if acquired then state.calls[c].pc.Closing? else state.calls[c].pc.Retracting?
      ensures Undisturbed() && old(Holds({})) ==> acquired && Holds({state.calls[c].name})
    {
      hide Inv, IsRun, MarkerPresent;
      for i := 0 to |PLAN|
        invariant Valid() && Continues() && Alive(state, c) && AtStep(state.calls[c].pc, i)
        invariant state.calls[c].name == old(state.calls[c].name) && state.calls[c].pid == old(state.calls[c].pid)
        invariant Undisturbed() && old(Holds({})) ==> AsPublished(state, c, i)
      {
        var done := Attempt(c, i);
        if !done {
          return false;
        }
      }
      acquired := Confirm(c);
    }

    /** The handle is closed; then the lock is held. */
    method CloseHandle(c: CallId) returns (closed: bool)
      requires Valid() && Alive(state, c) && state.calls[c].pc.Closing?
      modifies this
      ensures Valid() && Continues() && Inv(state) && Alive(state, c)
      ensures state.calls[c] == old(state.calls[c]).(pc := if closed then Critical else Leaked)
      ensures closed ==> SoleHolder(state, c)
      ensures Undisturbed() ==> closed && state.slot == old(state.slot)
    {
      hide Inv, IsRun, MarkerPresent;
      Yield(c);
      var fails := Chance();
      closed := !fails;
      if fails {
        Move(c, CloseFails);
      } else {
        Move(c, Close);
        AcquiredIsSole(state, c);
      }
    }

    /** Make the directory, unless it is there. */
    method MakeDirectory(c: CallId) returns (made: bool)
      requires Valid() && Alive(state, c) && state.calls[c].pc.Ready?
      modifies this
      ensures Valid() && Continues() && Inv(state) && Alive(state, c)
      ensures state.calls[c].name == old(state.calls[c].name) && state.calls[c].pid == old(state.calls[c].pid)
      ensures var pc := state.calls[c].pc; if made then pc.Made? else pc.Stale? || pc.Finished?
      ensures Undisturbed() && old(state.slot.Absent?) ==> made && Holds({})
      ensures Undisturbed() && old(state.slot.Present?) ==> state.calls[c].pc.Stale? && state.slot == old(state.slot)
      ensures Undisturbed() ==> state.dead == old(state.dead)
    {
      hide Inv, IsRun, MarkerPresent;
      Yield(c);
      made := false;
      if state.slot.Present? {
        Move(c, MkdirExists);
        return;
      }
      var fails := Chance();
      if fails {
        Move(c, GiveUp);
        return;
      }
      var ino := PickInode();
      Move(c, Mkdir(ino));
      made := true;
    }

    /** One attempt.  `true` means that the caller holds the lock alone; otherwise its
        marker is withdrawn and it may look for a stale lock, or an error ended it.  An
        absent lock is acquired when nothing fails and nobody else takes a step. */
    method TryAcquireLock(c: CallId) returns (acquired: bool)
      requires Valid() && Alive(state, c) && state.calls[c].pc.Ready?
      modifies this
      ensures Valid() && Continues() && Inv(state)
      ensures Alive(state, c) && state.calls[c].name == old(state.calls[c].name)
      ensures state.calls[c].pid == old(state.calls[c].pid)
      ensures acquired ==> state.calls[c].pc.Critical? && SoleHolder(state, c)
      ensures !acquired ==> var pc := state.calls[c].pc; pc.Stale? || pc.Finished? || pc.Leaked?
      ensures Undisturbed() && old(state.slot.Absent?) ==> acquired && Holds({state.calls[c].name})
      ensures Undisturbed() && old(state.slot.Present?) ==>
        state.calls[c].pc.Stale? && state.slot == old(state.slot) && state.dead == old(state.dead)
    {
      hide Inv, IsRun, MarkerPresent;
      var made := MakeDirectory(c);
      if !made {
        return false;
      }
      acquired := PublishAndConfirm(c);
      if acquired {
        acquired := CloseHandle(c);
      } else {
        var unlinkFails := Chance();
        var rmdirFails := Chance();
        ReleaseLock(c, unlinkFails, rmdirFails);
      }
    }

    /** Unlink a marker whose owner was found dead. */
    method UnlinkDead(c: CallId) returns (gaveUp: bool)
      requires Valid() && Alive(state, c) && state.calls[c].pc.Doomed?
      modifies this
      ensures Valid() && Continues() && Inv(state) && Alive(state, c)
      ensures state.calls[c] ==
              old(state.calls[c]).(pc := if gaveUp then Waiting else Reclaiming(old(state.calls[c].pc.pending)))
      ensures Undisturbed() ==>
        !gaveUp && state.slot == old(RemoveName(state.slot, state.calls[c].pc.name)) && state.dead == old(state.dead)
    {
      hide Inv, IsRun, MarkerPresent;
      Yield(c);
      gaveUp := Chance();
      if gaveUp {
        Move(c, AbandonReclaim);
      } else {
        Move(c, UnlinkDoomed);
      }
    }

    /** One name of the listing: keep it, or unlink it because its owner is dead. */
    method ReclaimOne(c: CallId, n: Name) returns (gaveUp: bool)
      requires Valid() && Alive(state, c) && state.calls[c].pc.Reclaiming? && n in state.calls[c].pc.pending
      modifies this
      ensures Valid() && Continues() && Inv(state) && Alive(state, c)
      ensures state.calls[c] ==
              old(state.calls[c]).(pc := if gaveUp then Waiting else Reclaiming(old(state.calls[c].pc.pending) - {n}))
      ensures Undisturbed() && old(OnlyDeadMarkers(state, {n})) ==>
        !gaveUp && state.slot == old(RemoveName(state.slot, n)) && state.dead == old(state.dead)
    {
      hide Inv, IsRun, MarkerPresent;
      gaveUp := false;
      Yield(c);
      var looksAlive := Chance();
      if !looksAlive && Enabled(state, c, Judge(n)) {
        Move(c, Judge(n));
        gaveUp := UnlinkDead(c);
      } else {
        Move(c, Keep(n));
      }
    }

    /** Go through a listing, which may be out of date from the start. */
    method ReclaimListed(c: CallId) returns (gaveUp: bool)
      requires Valid() && Alive(state, c) && state.calls[c].pc.Reclaiming?
      modifies this
      ensures Valid() && Continues() && Inv(state) && Alive(state, c)
      ensures state.calls[c] == old(state.calls[c]).(pc := if gaveUp then Waiting else Reclaiming({}))
      ensures Undisturbed() && old(OnlyDeadLeft() && Holds(state.calls[c].pc.pending)) ==> !gaveUp && Holds({})
    {
      hide Inv, IsRun, MarkerPresent;
      gaveUp := false;
      Yield(c);
      while state.calls[c].pc.pending != {}
        invariant Valid() && Continues() && Inv(state) && Alive(state, c) && state.calls[c].pc.Reclaiming?
        invariant state.calls[c].name == old(state.calls[c].name) && state.calls[c].pid == old(state.calls[c].pid)
        invariant Undisturbed() && old(OnlyDeadLeft() && Holds(state.calls[c].pc.pending)) ==>
          OnlyDeadLeft() && Holds(state.calls[c].pc.pending)
        decreases state.calls[c].pc.pending
      {
        var n :| n in state.calls[c].pc.pending;
        gaveUp := ReclaimOne(c, n);
        if gaveUp {
          return;
        }
      }
    }

    /** Remove markers of dead owners one by one, then the directory if it is empty. */
    method BreakStaleLock(c: CallId)
      requires Valid() && Alive(state, c) && state.calls[c].pc.Stale?
      modifies this
      ensures Valid() && Continues() && Inv(state) && Alive(state, c)
      ensures state.calls[c].name == old(state.calls[c].name) && state.calls[c].pid == old(state.calls[c].pid)
      ensures state.calls[c].pc.Waiting?
      ensures Undisturbed() && old(OnlyDeadLeft()) ==> state.slot.Absent?
    {
      hide Inv, IsRun, MarkerPresent;
      var listed := ListStaleLock(c);
      if listed {
        var gaveUp := ReclaimListed(c);
        if !gaveUp {
          CollapseLock(c);
        }
      }
    }

    /** Look at the lock directory, unless it is gone or too young. */
    method ListStaleLock(c: CallId) returns (listed: bool)
      requires Valid() && Alive(state, c) && state.calls[c].pc.Stale?
      modifies this
      ensures Valid() && Continues() && Inv(state) && Alive(state, c)
      ensures state.calls[c].name == old(state.calls[c].name) && state.calls[c].pid == old(state.calls[c].pid)
      ensures if listed then state.calls[c].pc.Reclaiming? else state.calls[c].pc.Waiting?
      ensures Undisturbed() ==>
        && (listed <==> state.slot.Present?) && state.slot == old(state.slot) && state.dead == old(state.dead)
        && (listed ==> state.calls[c].pc.pending == state.slot.dir.names)
    {
      hide Inv, IsRun, MarkerPresent;
      Yield(c);
      var tooYoung := Chance();
      listed := state.slot.Present? && !tooYoung;
      if !listed {
        Move(c, SkipReclaim);
        return;
      }
      Yield(c);
      var listing := Names(if state.slot.Present? then state.slot.dir.names else {});
      Move(c, List(listing));
    }

    /** Remove the directory if it is empty now. */
    method CollapseLock(c: CallId)
      requires Valid() && Alive(state, c) && state.calls[c].pc == Reclaiming({})
      modifies this
      ensures Valid() && Continues() && Inv(state) && Alive(state, c)
      ensures state.calls[c] == old(state.calls[c]).(pc := Waiting)
      ensures Undisturbed() ==> state.slot == old(RemoveEmpty(state.slot))
    {
      hide Inv, IsRun, MarkerPresent;
      Yield(c);
      Move(c, Collapse);
    }

    /** The acquisition loop.  `attempts` is how many retries fit before the timeout. */
    method AcquireWithRetries(c: CallId, attempts: nat) returns (acquired: bool)
      requires Valid() && Alive(state, c) && state.calls[c].pc.Ready?
      modifies this
      ensures Valid() && Continues() && Inv(state) && Alive(state, c)
      ensures acquired ==> state.calls[c].pc.Critical? && SoleHolder(state, c)
      ensures !acquired ==> state.calls[c].pc.Finished? || state.calls[c].pc.Leaked?
      ensures Undisturbed() && old(OnlyDeadLeft()) && (attempts > 0 || old(state.slot.Absent?)) ==>
        acquired && Holds({state.calls[c].name})
    {
      hide Inv, IsRun, MarkerPresent, SoleHolder;
      acquired := TryAcquireLock(c);
      var left := attempts;
      while !acquired && state.calls[c].pc.Stale?
        invariant Valid() && Continues() && Inv(state) && Alive(state, c)
        invariant acquired ==> state.calls[c].pc.Critical? && SoleHolder(state, c)
        invariant !acquired ==> var pc := state.calls[c].pc; pc.Stale? || pc.Finished? || pc.Leaked?
        invariant Undisturbed() && old(OnlyDeadLeft()) && (attempts > 0 || old(state.slot.Absent?)) ==>
          if acquired then Holds({state.calls[c].name})
          else OnlyDeadLeft() && state.calls[c].pc.Stale? && left == attempts > 0
        decreases left
      {
        BreakStaleLock(c);
        if left == 0 {
          Move(c, GiveUp);
          return;
        }
        left := left - 1;
        Renew(c);
        acquired := TryAcquireLock(c);
      }
    }

    /** Acquire, run the caller's function, release.  If the function ran, there is a
        recorded state in which the call was inside it as the only live holder. Unless the
        release fails the lock then holds no marker of this call any more. */
    method WithInterprocessLock(c: CallId, pid: Process, attempts: nat, unlinkFails: bool, rmdirFails: bool)
      returns (ran: bool)
      requires Valid() && c !in state.calls && pid !in state.dead
      modifies this
      ensures Valid() && Continues() && Inv(state) && Alive(state, c)
      ensures state.calls[c].pc.Finished? || state.calls[c].pc.Leaked?
      ensures ran ==> exists k ::
        |old(states)| <= k < |states| && SoleHolder(states[k], c) && states[k].calls[c].pc.Critical?
      ensures ran && unlinkFails ==> state.calls[c].pc.Leaked?
      ensures ran && !unlinkFails ==> state.calls[c].pc.Finished? && !MarkerPresent(state, c)
      ensures ran && !unlinkFails && !rmdirFails ==> state.slot.Absent? || state.slot.dir.names != {}
      ensures Undisturbed() && old(OnlyDeadLeft()) && (attempts > 0 || old(state.slot.Absent?)) ==> ran
      ensures Undisturbed() && old(OnlyDeadLeft()) && (attempts > 0 || old(state.slot.Absent?)) ==>
        unlinkFails || rmdirFails || state.slot.Absent?
    {
      hide Inv, IsRun, MarkerPresent;
      Start(c, pid);
      ran := AcquireWithRetries(c, attempts);
      if ran {
        ghost var inside := |states| - 1;
        Yield(c);  // the caller's function
        Move(c, BeginRelease);
        ReleaseLock(c, unlinkFails, rmdirFails);
        assert SoleHolder(states[inside], c) && states[inside].calls[c].pc.Critical?;
      }
    }

    /** A new attempt publishes under a new name. */
    method Renew(c: CallId)
      requires Valid() && Alive(state, c) && state.calls[c].pc.Waiting?
      modifies this
      ensures Valid() && Continues() && Alive(state, c) && state.calls[c].pc.Ready?
      ensures state.calls[c].name !in old(state.used)
      ensures Undisturbed() && state.slot == old(state.slot) && state.dead == old(state.dead)
    {
      ghost var unused := SomeTokenUnused(state.used, state.calls[c].pid);
      var token :| Owner(state.calls[c].pid, token) !in state.used;
      Do(c, Retry(token));
    }

    method Start(c: CallId, pid: Process)
      requires Valid() && c !in state.calls && pid !in state.dead
      modifies this
      ensures Valid() && Continues() && |states| == |old(states)| + 1
      ensures Alive(state, c) && state.calls[c].pid == pid && state.calls[c].pc.Ready?
      ensures state.calls[c].name !in old(state.used)
      ensures Undisturbed() && state.slot == old(state.slot) && state.dead == old(state.dead)
    {
      ghost var free := SomeTokenUnused(state.used, pid);
      var token :| Owner(pid, token) !in state.used;
      state := state.(calls := state.calls[c := Call(pid, Owner(pid, token), Ready)],
                      used := state.used + {Owner(pid, token)});
      ExtendRun(states, events, Begin(c, pid, token), state);
      states := states + [state];
      events := events + [Begin(c, pid, token)];
    }
  }
}
