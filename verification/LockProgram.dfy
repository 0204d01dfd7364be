/**
 withFileMutationLock and its helpers as a program: one call, written in the control flow of the
 source, with an arbitrary schedule of everybody else's steps played at every await.  Each
 method is proved to lead from state to state along runs of the FileMutationLock machine.
 */
module LockProgram {
  import opened Common
  import opened FileMutationLock
  import opened LockSafety
  import Runs

  /** What happens during one await: steps of other callers, and the answer this caller gets. */
  datatype Turn = Turn(others: seq<Event>, choice: bool)

  /** Unfinished: the schedule ended before the call returned. */
  datatype Outcome = Completed | TimedOut | Unfinished

  /** No deadline passes and no probe is denied. */
  predicate Patient(turns: seq<Turn>) {
    forall i :: 0 <= i < |turns| ==> !turns[i].choice
  }

  ghost predicate Sound(s: State) {
    FileInv(s) && TailInv(s)
  }

  /** No other live caller is in the protected section, and the lock file is the caller's. */
  ghost predicate Alone(s: State, me: Caller) {
    && Awake(s, me) && s.pc[me] == Running && s.lock == Some(LockFile(me, true))
    && forall c :: Awake(s, c) && s.pc[c] == Running ==> c == me
  }

  lemma RunningIsAlone(s: State, me: Caller)
    requires Sound(s) && Awake(s, me) && s.pc[me] == Running
    ensures Alone(s, me)
  {
    OneHolder(s);
    assert CallerInv(s, me);
  }

  predicate OwnTurn(e: Event, me: Caller) {
    || (e.Move? && e.caller == me)
    || (e.Exit? && e.process == me.process)
  }

  /** A step of somebody else leaves this caller where it is. */
  lemma OthersStep(s: State, e: Event, me: Caller)
    requires Sound(s) && me in s.previous && Awake(s, me) && Allowed(false, s, e) && !OwnTurn(e, me)
    ensures var t := Apply(s, e);
      && Sound(t) && Awake(t, me) && t.pc[me] == s.pc[me]
      && me in s.previous && me in t.previous && t.previous[me] == s.previous[me]
    ensures Enabled(s, e)
  {
    InvStep(s, e);
    OthersKeepPlace(s, e, me);
  }

  lemma OthersKeepPlace(s: State, e: Event, me: Caller)
    requires Enabled(s, e) && Awake(s, me) && !OwnTurn(e, me) && me in s.previous
    ensures var t := Apply(s, e);
      && Awake(t, me) && t.pc[me] == s.pc[me] && me in t.previous && t.previous[me] == s.previous[me]
  {
  }

  /**
   Where a step of the call takes it.  A caller that compares the token on release always finds
   its own: nobody reclaims the lock of a live owner.
   */
  predicate Follows(pc: PC, next: PC) {
    match pc
    case Waiting => next == Opening
    case Opening => next == Writing || next == Statting(false)
    case Writing => next == Running
    case Statting(guarded) => next == Reading(guarded) || next == (if guarded then DroppingGuard(false) else Backoff)
    case Reading(guarded) =>
      || (next.Probing? && next.guarded == guarded)
      || next == (if guarded then DroppingGuard(false) else Backoff)
    case Probing(_, guarded) =>
      || next == (if guarded then Unlinking else Guarding)
      || next == (if guarded then DroppingGuard(false) else Backoff)
    case Guarding => next == Statting(true) || next == Backoff
    case Unlinking => next == DroppingGuard(true)
    case DroppingGuard(reclaimed) => next == if reclaimed then Opening else Backoff
    case Backoff => next == Leaving || next == Opening
    case Running => next == Releasing
    case Releasing => next == Unlocking
    case Unlocking => next == Leaving
    case Leaving => next == Done
    case Done => false
  }

  lemma OwnStep(s: State, me: Caller, choice: bool)
    requires Sound(s) && Awake(s, me) && !s.pc[me].Done?
    requires s.pc[me].Waiting? ==> me in s.previous && PreviousReleased(s, me)
    ensures Allowed(false, s, Move(me, choice))
    ensures var t := Apply(s, Move(me, choice)); Sound(t) && Awake(t, me) && Follows(s.pc[me], t.pc[me])
  {
    assert CallerInv(s, me);
    InvStep(s, Move(me, choice));
  }

  lemma OwnCall(s: State, me: Caller)
    requires Sound(s) && me.process in s.live && me.id == s.nextId
    ensures Allowed(false, s, Call(me))
    ensures var t := Apply(s, Call(me)); Sound(t) && Awake(t, me) && t.pc[me] == Waiting && me in t.previous
  {
    assert me !in s.pc;
    InvStep(s, Call(me));
  }

  lemma LeavesNothingBehind(s: State, me: Caller)
    requires Sound(s) && Awake(s, me) && s.pc[me] == Done
    ensures s.lock.Some? ==> s.lock.value.creator != me
  {
    assert CallerInv(s, me);
  }

  class LockPath {
    var state: State
    var turns: seq<Turn>

    constructor (turns: seq<Turn>)
      ensures state == EMPTY && this.turns == turns
      ensures Sound(state)
    {
      state := EMPTY;
      this.turns := turns;
    }

    ghost predicate At(me: Caller, pc: PC)
      reads this
    {
      Sound(state) && Awake(state, me) && state.pc[me] == pc
    }

    /** Everybody else moves; events that are not possible where they come up are skipped. */
    method Others(me: Caller, events: seq<Event>)
      requires Sound(state) && Awake(state, me) && me in state.previous
      modifies this`state
      ensures At(me, old(state.pc[me])) && Runs.Leads(Steps(false), old(state), state)
      ensures me in state.previous && state.previous[me] == old(state.previous[me])
      ensures events == [] ==> state == old(state)
    {
      hide Sound, Apply, Allowed, Runs.Leads, Steps, Enabled;
      Runs.Stays(Steps(false), state);
      for i := 0 to |events|
        invariant At(me, old(state.pc[me])) && Runs.Leads(Steps(false), old(state), state)
        invariant me in state.previous && state.previous[me] == old(state.previous[me])
        invariant i == 0 ==> state == old(state)
      {
        var e := events[i];
        if Allowed(false, state, e) && !OwnTurn(e, me) {
          OthersStep(state, e, me);
          Then(false, old(state), state, e);
          state := Apply(state, e);
        }
      }
    }

    /**
     One await: the others move up to the state `met`, then this caller takes its step there.
     `alive` is false at the end of the schedule.
     */
    method Play(me: Caller) returns (alive: bool, ghost met: State, ghost choice: bool)
      requires Sound(state) && Awake(state, me) && !state.pc[me].Done? && !state.pc[me].Waiting?
      modifies this
      ensures alive ==>
        && Sound(state) && Awake(state, me) && Follows(old(state.pc[me]), state.pc[me])
        && Runs.Leads(Steps(false), old(state), state) && |turns| < |old(turns)|
      ensures alive ==>
        && Runs.Leads(Steps(false), old(state), met) && Runs.Leads(Steps(false), met, state)
        && Enabled(met, Move(me, choice))
        && met.pc[me] == old(state.pc[me]) && state == Apply(met, Move(me, choice))
        && choice == old(turns)[0].choice && turns == old(turns)[1..]
        && (old(turns)[0].others == [] ==> met == old(state))
      ensures alive <==> old(turns) != []
      ensures !alive ==> state == old(state) && turns == old(turns) == []
      ensures Patient(old(turns)) ==> Patient(turns)
    {
      hide FileInv, TailInv, Apply, Allowed, Runs.Leads, Steps, Follows;
      met, choice := state, false;
      if |turns| == 0 {
        return false, met, choice;
      }
      var turn := turns[0];
      turns := turns[1..];
      OwnStep(state, me, turn.choice);
      assert me in state.previous by { KnowsPrevious(state, me); }
      Others(me, turn.others);
      OwnStep(state, me, turn.choice);
      met, choice := state, turn.choice;
      Runs.Stays(Steps(false), met);
      Then(false, met, met, Move(me, choice));
      Then(false, old(state), met, Move(me, choice));
      state := Apply(state, Move(me, turn.choice));
      return true, met, choice;
    }

    method Step(me: Caller) returns (alive: bool)
      requires Sound(state) && Awake(state, me) && !state.pc[me].Done? && !state.pc[me].Waiting?
      modifies this
      ensures alive ==>
        && Sound(state) && Awake(state, me) && Follows(old(state.pc[me]), state.pc[me])
        && Runs.Leads(Steps(false), old(state), state) && |turns| < |old(turns)|
      ensures !alive ==> turns == []
      ensures alive && Patient(old(turns)) && old(state.pc[me]) == Backoff ==> state.pc[me] == Opening
      ensures alive <==> old(turns) != []
      ensures alive ==> |turns| == |old(turns)| - 1
      ensures alive && old(turns)[0].others == [] && old(state.pc[me]) == Opening && old(state.lock).None? ==> state.pc[me] == Writing
      ensures Patient(old(turns)) ==> Patient(turns)
    {
      hide Sound, Runs.Leads, Steps, Follows, Enabled;
      ghost var met, choice;
      alive, met, choice := Play(me);
    }

    /**
     Finds the lock file in the state `found`, reads its owner in a later state `seen`, and probes it in
     a still later one, `probed`.  The answer is yes exactly if there was a file, what was read of it
     named an owner of this host, and nobody had that pid when it was probed.
     */
    method StaleLockCanBeRemoved(me: Caller, guarded: bool)
      returns (alive: bool, stale: bool, ghost found: State, ghost seen: State, ghost probed: State, ghost denied: bool)
      requires At(me, Statting(guarded))
      modifies this
      ensures alive ==> Runs.Leads(Steps(false), old(state), state) && |turns| < |old(turns)|
      ensures alive ==> Runs.Leads(Steps(false), old(state), found)
      ensures alive ==> Runs.Leads(Steps(false), found, seen) && Runs.Leads(Steps(false), seen, probed)
      ensures alive ==>
        (stale <==>
          && found.lock.Some? && seen.lock.Some? && seen.lock.value.written && seen.lock.value.creator.process.host == me.process.host
          && !PidInUse(probed, me.process.host, seen.lock.value.creator.process.pid)
          && !denied)
      ensures alive && stale ==> At(me, if guarded then Unlinking else Guarding)
      ensures alive && !stale ==> At(me, if guarded then DroppingGuard(false) else Backoff)
      ensures !alive ==> turns == []
      ensures Patient(old(turns)) ==> Patient(turns)
    {
      hide Sound, Runs.Leads, Steps, PidInUse, Patient;
      stale, found, seen, probed, denied := false, state, state, state, false;
      alive, found, denied := Play(me);
      if !alive { return; }
      seen, probed := found, found;
      Runs.Stays(Steps(false), found);
      if !state.pc[me].Reading? {
        return;
      }
      ghost var first := state;
      alive, seen, denied := Play(me);
      if !alive { return; }
      probed := seen;
      Runs.Stays(Steps(false), seen);
      Runs.Through(Steps(false), old(state), first, state);
      Runs.Through(Steps(false), found, first, seen);
      if !state.pc[me].Probing? {
        return;
      }
      ghost var second := state;
      alive, probed, denied := Play(me);
      if !alive { return; }
      Runs.Through(Steps(false), old(state), second, state);
      Runs.Through(Steps(false), seen, second, probed);
      stale := state.pc[me].Unlinking? || state.pc[me].Guarding?;
    }

    /** The same check, for where the caller goes from there. */
    method Recheck(me: Caller, guarded: bool) returns (alive: bool, stale: bool)
      requires At(me, Statting(guarded))
      modifies this
      ensures alive ==> Runs.Leads(Steps(false), old(state), state) && |turns| < |old(turns)|
      ensures alive ==> At(me, if stale then if guarded then Unlinking else Guarding else if guarded then DroppingGuard(false) else Backoff)
      ensures !alive ==> turns == []
      ensures Patient(old(turns)) ==> Patient(turns)
    {
      hide Sound, Runs.Leads, Steps, Patient;
      ghost var found, seen, probed, denied;
      alive, stale, found, seen, probed, denied := StaleLockCanBeRemoved(me, guarded);
    }

    /** Takes the guard, rechecks, unlinks, drops the guard. */
    method ReclaimDeadLocalLock(me: Caller) returns (alive: bool, reclaimed: bool)
      requires At(me, Guarding)
      modifies this
      ensures alive ==> Runs.Leads(Steps(false), old(state), state) && |turns| < |old(turns)|
      ensures alive ==> At(me, if reclaimed then Opening else Backoff)
      ensures !alive ==> turns == []
      ensures Patient(old(turns)) ==> Patient(turns)
    {
      hide Sound, Runs.Leads, Steps, Patient;
      alive := Step(me);
      if !alive { return false, false; }
      if state.pc[me].Backoff? {
        return true, false;
      }
      ghost var s1 := state;
      var stale;
      alive, stale := Recheck(me, true);
      if !alive { return false, false; }
      Runs.Through(Steps(false), old(state), s1, state);
      if stale {
        ghost var s2 := state;
        alive := Step(me);
        if !alive { return false, false; }
        Runs.Through(Steps(false), old(state), s2, state);
      }
      ghost var s3 := state;
      alive := Step(me);
      if !alive { return false, false; }
      Runs.Through(Steps(false), old(state), s3, state);
      return true, stale;
    }

    /** One round of the retry loop; `entered` ends it, `false` with an Opening caller tries again. */
    method TryLockFile(me: Caller) returns (alive: bool)
      requires At(me, Opening)
      modifies this
      ensures alive ==> Runs.Leads(Steps(false), old(state), state) && |turns| < |old(turns)|
      ensures alive ==> Sound(state) && Awake(state, me) && state.pc[me] in {Running, Opening, Leaving}
      ensures !alive ==> turns == []
      ensures Patient(old(turns)) ==> Patient(turns) && (alive ==> state.pc[me] != Leaving)
      ensures old(state.lock).None? && |old(turns)| >= 2 && old(turns)[0].others == [] ==> alive && state.pc[me] == Running
    {
      hide Sound, Runs.Leads, Steps, Patient;
      alive := Step(me);                                  // exclusive create
      if !alive { return; }
      ghost var s1 := state;
      if state.pc[me].Writing? {
        alive := Step(me);                                // owner metadata
        if alive { Runs.Through(Steps(false), old(state), s1, state); }
        return;
      }
      var stale, reclaimed := false, false;
      alive, stale := Recheck(me, false);
      if !alive { return; }
      Runs.Through(Steps(false), old(state), s1, state);
      if stale {
        ghost var s2 := state;
        alive, reclaimed := ReclaimDeadLocalLock(me);
        if !alive { return; }
        Runs.Through(Steps(false), old(state), s2, state);
      }
      if !reclaimed {
        ghost var s3 := state;
        alive := Step(me);                                // deadline, delay
        if alive { Runs.Through(Steps(false), old(state), s3, state); }
      }
    }

    /** withCrossProcessLock up to entering the protected section or giving up. */
    method AcquireLockFile(me: Caller) returns (outcome: Outcome)
      requires At(me, Opening)
      modifies this
      ensures !outcome.Unfinished? ==> Runs.Leads(Steps(false), old(state), state)
      ensures outcome.Completed? ==> At(me, Running)
      ensures outcome.TimedOut? ==> At(me, Leaving)
      ensures outcome.Unfinished? ==> turns == []
      ensures outcome.TimedOut? ==> !Patient(old(turns))
      ensures old(state.lock).None? && |old(turns)| >= 2 && old(turns)[0].others == [] ==> outcome.Completed?
    {
      hide Sound, Runs.Leads, Steps, Patient;
      Runs.Stays(Steps(false), state);
      while state.pc[me].Opening?
        invariant Sound(state) && Awake(state, me) && state.pc[me] in {Running, Opening, Leaving}
        invariant Runs.Leads(Steps(false), old(state), state)
        invariant Patient(old(turns)) ==> Patient(turns) && state.pc[me] != Leaving
        invariant old(state.lock).None? && |old(turns)| >= 2 && old(turns)[0].others == [] ==>
          state.pc[me] == Running || (state == old(state) && turns == old(turns))
        decreases |turns|
      {
        ghost var before := state;
        var alive := TryLockFile(me);
        if !alive { return Unfinished; }
        Runs.Through(Steps(false), old(state), before, state);
      }
      return if state.pc[me].Running? then Completed else TimedOut;
    }

    /** Reads the lock file, finds its own token and unlinks it. */
    method ReleaseOwnedLock(me: Caller) returns (alive: bool)
      requires At(me, Running)
      modifies this
      ensures alive ==> At(me, Leaving) && Runs.Leads(Steps(false), old(state), state)
      ensures !alive ==> turns == []
    {
      hide Sound, Runs.Leads, Steps, Patient;
      alive := Step(me);                                  // run() returns
      if !alive { return; }
      ghost var s1 := state;
      alive := Step(me);
      if !alive { return; }
      Runs.Through(Steps(false), old(state), s1, state);
      ghost var s2 := state;
      alive := Step(me);
      if !alive { return; }
      Runs.Through(Steps(false), old(state), s2, state);
    }

    /** Joins the in-process queue and waits for the caller before it. */
    method AwaitTurn(process: Process) returns (me: Caller, alive: bool)
      requires Sound(state) && process in state.live
      modifies this
      ensures me == Caller(old(state.nextId), process)
      ensures alive ==> At(me, Opening) && Runs.Leads(Steps(false), old(state), state)
      ensures !alive ==> turns == []
      ensures Patient(old(turns)) ==> Patient(turns)
    {
      hide Sound, Apply, Allowed, Runs.Leads, Steps, PreviousReleased;
      me := Caller(state.nextId, process);
      Runs.Stays(Steps(false), state);
      OwnCall(state, me);
      Then(false, state, state, Call(me));
      state := Apply(state, Call(me));
      while !PreviousReleased(state, me)
        invariant At(me, Waiting) && Runs.Leads(Steps(false), old(state), state) && me in state.previous
        invariant Patient(old(turns)) ==> Patient(turns)
        decreases |turns|
      {
        if |turns| == 0 { return me, false; }
        var turn := turns[0];
        turns := turns[1..];
        ghost var before := state;
        Others(me, turn.others);
        Runs.Through(Steps(false), old(state), before, state);
      }
      OwnStep(state, me, false);
      Then(false, old(state), state, Move(me, false));
      state := Apply(state, Move(me, false));
      return me, true;
    }

    /**
     One call of withFileMutationLock.  `inside` is the state in which the protected section was
     entered: there the caller is alone.  A call that returns, normally or by time-out, has left
     the in-process queue and no lock file of its own behind.  It only times out if its deadline passes,
     and is only unfinished if the schedule ends.
     */
    method WithFileMutationLock(process: Process) returns (me: Caller, outcome: Outcome, ghost inside: Option<State>)
      requires Sound(state) && process in state.live
      modifies this
      ensures me == Caller(old(state.nextId), process)
      ensures !outcome.Unfinished? ==> Runs.Leads(Steps(false), old(state), state) && At(me, Done)
      ensures !outcome.Unfinished? ==> (state.lock.Some? ==> state.lock.value.creator != me)
      ensures inside.Some? ==> Alone(inside.value, me) && Runs.Leads(Steps(false), old(state), inside.value)
      ensures outcome.Completed? ==> inside.Some?
      ensures outcome.TimedOut? ==> inside.None?
      ensures outcome.Unfinished? ==> turns == []
      ensures outcome.TimedOut? ==> !Patient(old(turns))
    {
      hide Sound, Apply, Allowed, Runs.Leads, Steps, Alone;
      inside := None;
      var alive;
      me, alive := AwaitTurn(process);
      if !alive { return me, Unfinished, None; }
      ghost var s1 := state;
      outcome := AcquireLockFile(me);
      if outcome.Unfinished? { return; }
      Runs.Through(Steps(false), old(state), s1, state);
      if outcome.Completed? {
        RunningIsAlone(state, me);
        inside := Some(state);
        ghost var s2 := state;
        alive := ReleaseOwnedLock(me);
        if !alive { return me, Unfinished, inside; }
        Runs.Through(Steps(false), old(state), s2, state);
      }
      OwnStep(state, me, false);
      Then(false, old(state), state, Move(me, false));
      state := Apply(state, Move(me, false));
      LeavesNothingBehind(state, me);
    }
  }

  lemma KnowsPrevious(s: State, me: Caller)
    requires Sound(s) && me in s.pc
    ensures me in s.previous
  {
  }
}
