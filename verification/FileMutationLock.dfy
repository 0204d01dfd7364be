/**
 Model of src/file-mutation-lock.ts: the in-process tail queue and the cross-process lock
 file with dead-owner reclaim, as an interleaved machine over file-system steps.

 One machine describes one lock path.  Every `await` of the source is a point at which any
 other process may move, exit or start; a step below is what happens between two awaits.
 */
module FileMutationLock {
  import opened Common
  import Runs

  /** One incarnation of an operating-system process; a dead pid may be used again. */
  datatype Process = Process(host: nat, pid: nat, boot: nat)

  /** One call of withFileMutationLock; `id` stands for its random token and its arrival order. */
  datatype Caller = Caller(id: nat, process: Process)

  /** The lock file: created empty, its owner metadata is written in a second step. */
  datatype LockFile = LockFile(creator: Caller, written: bool)

  datatype PC =
    | Waiting                                  // awaits the previous caller of this process
    | Opening                                  // about to create the lock file exclusively
    | Writing                                  // created it, about to write the owner metadata
    | Statting(guarded: bool)                  // about to look whether the lock file is there
    | Reading(guarded: bool)                   // about to read its owner
    | Probing(owner: Caller, guarded: bool)    // has read `owner`, about to probe its pid
    | Guarding                                 // about to create the reclaim guard exclusively
    | Unlinking                                // the recheck found a dead owner
    | DroppingGuard(reclaimed: bool)
    | Backoff                                  // compares the deadline, then sleeps
    | Running                                  // inside the protected section
    | Releasing                                // about to compare the owner token
    | Unlocking                                // token matched, about to unlink
    | Leaving                                  // about to wake the next caller of this process
    | Done

  datatype State = State(
    live: set<Process>,
    started: set<Process>,
    nextId: nat,
    pc: map<Caller, PC>,
    previous: map<Caller, Option<Caller>>,
    tails: map<Process, Caller>,
    lock: Option<LockFile>,
    guard: Option<Caller>)

  const EMPTY := State({}, {}, 0, map[], map[], map[], None, None)

  datatype Event =
    | Boot(process: Process)
    | Exit(process: Process)
    | Call(caller: Caller)
    | Move(caller: Caller, choice: bool)       // `choice`: the probe is denied, or the deadline passed

  /** What signalling pid 0 reports: some process with that pid runs on that host. */
  predicate PidInUse(s: State, host: nat, pid: nat) {
    exists p :: p in s.live && p.host == host && p.pid == pid
  }

  predicate Awake(s: State, c: Caller) {
    c in s.pc && c.process in s.live
  }

  predicate Enabled(s: State, e: Event) {
    match e
    case Boot(p) => p !in s.started && !PidInUse(s, p.host, p.pid)
    case Exit(p) => p in s.live
    case Call(c) => c.process in s.live && c.id == s.nextId && c !in s.pc
    case Move(c, _) =>
      && Awake(s, c)
      && c in s.previous
      && s.pc[c] != Done
      && (s.pc[c] == Waiting ==> PreviousReleased(s, c))
  }

  predicate PreviousReleased(s: State, c: Caller)
    requires c in s.previous
  {
    s.previous[c].None? || (s.previous[c].value in s.pc && s.pc[s.previous[c].value] == Done)
  }

  /** Only a complete owner record of this host can be probed. */
  predicate NamesOwner(lock: Option<LockFile>, host: nat) {
    lock.Some? && lock.value.written && lock.value.creator.process.host == host
  }

  /** staleLockCanBeRemoved, what it has read: nothing if the file vanished since. */
  function AfterRead(s: State, c: Caller, guarded: bool): PC {
    if NamesOwner(s.lock, c.process.host)
    then Probing(s.lock.value.creator, guarded)
    else if guarded then DroppingGuard(false) else Backoff
  }

  function AfterProbe(s: State, owner: Caller, guarded: bool, denied: bool): PC {
    if !denied && !PidInUse(s, owner.process.host, owner.process.pid)
    then if guarded then Unlinking else Guarding
    else if guarded then DroppingGuard(false) else Backoff
  }

  function MoveOf(s: State, c: Caller, choice: bool): State
    requires Awake(s, c)
  {
    match s.pc[c]
    case Waiting => s.(pc := s.pc[c := Opening])
    case Opening =>
      if s.lock.None? then s.(lock := Some(LockFile(c, false)), pc := s.pc[c := Writing])
      else s.(pc := s.pc[c := Statting(false)])
    case Writing =>
      // The write goes through the open handle: it reaches the path only while the file is still there.
      s.(lock := if s.lock == Some(LockFile(c, false)) then Some(LockFile(c, true)) else s.lock,
         pc := s.pc[c := Running])
    case Statting(guarded) =>
      // A vanished lock is not a stale one: somebody else may create it at once.
      s.(pc := s.pc[c := if s.lock.Some? then Reading(guarded) else if guarded then DroppingGuard(false) else Backoff])
    case Reading(guarded) => s.(pc := s.pc[c := AfterRead(s, c, guarded)])
    case Probing(owner, guarded) => s.(pc := s.pc[c := AfterProbe(s, owner, guarded, choice)])
    case Guarding =>
      if s.guard.None? then s.(guard := Some(c), pc := s.pc[c := Statting(true)])
      else s.(pc := s.pc[c := Backoff])
    case Unlinking => s.(lock := None, pc := s.pc[c := DroppingGuard(true)])
    case DroppingGuard(reclaimed) =>
      s.(guard := None, pc := s.pc[c := if reclaimed then Opening else Backoff])
    case Backoff => s.(pc := s.pc[c := if choice then Leaving else Opening])
    case Running => s.(pc := s.pc[c := Releasing])
    case Releasing =>
      s.(pc := s.pc[c := if s.lock.Some? && s.lock.value.written && s.lock.value.creator.id == c.id
                         then Unlocking else Leaving])
    case Unlocking => s.(lock := None, pc := s.pc[c := Leaving])
    case Leaving =>
      s.(pc := s.pc[c := Done],
         tails := if c.process in s.tails && s.tails[c.process] == c then s.tails - {c.process} else s.tails)
    case Done => s
  }

  function Apply(s: State, e: Event): State
    requires Enabled(s, e)
  {
    match e
    case Boot(p) => s.(live := s.live + {p}, started := s.started + {p})
    case Exit(p) => s.(live := s.live - {p})
    case Call(c) =>
      s.(nextId := s.nextId + 1,
         pc := s.pc[c := Waiting],
         previous := s.previous[c := if c.process in s.tails then Some(s.tails[c.process]) else None],
         tails := s.tails[c.process := c])
    case Move(c, choice) => MoveOf(s, c, choice)
  }

  /**
   The gap the source leaves between reading an owner and probing its pid.  A guard holder has
   read an owner of process `p`; once `p` exits the probe will report a dead pid.  That misleads
   the guard holder unless the lock file it is going to unlink then belongs to a dead process.
   */
  predicate MisleadsProbe(s: State, e: Event) {
    && e.Exit?
    && (s.lock.Some? ==> s.lock.value.creator.process in s.live - {e.process})
    && exists c :: c in s.pc && Awake(s, c) && c.process != e.process && ReadUnderGuard(s, c, e.process)
  }

  predicate ReadUnderGuard(s: State, c: Caller, p: Process)
    requires c in s.pc
  {
    s.pc[c].Probing? && s.pc[c].guarded && s.pc[c].owner.process == p
  }

  /** All events that can happen; without `misleading` ones, those no guard holder is misled by. */
  predicate Allowed(misleading: bool, s: State, e: Event) {
    Enabled(s, e) && (misleading || !MisleadsProbe(s, e))
  }

  /** One step of the machine. */
  ghost function Steps(misleading: bool): (State, State) -> bool {
    (s: State, t: State) => exists e :: Allowed(misleading, s, e) && t == Apply(s, e)
  }

  ghost predicate Reachable(misleading: bool, s: State) {
    Runs.Leads(Steps(misleading), EMPTY, s)
  }
}
