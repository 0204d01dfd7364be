/** What the lock of FileMutationLock guarantees over all runs, and where it does not. */
module LockSafety {
  import opened Common
  import opened FileMutationLock
  import Runs

  // ---------------------------------------------------------------------------------------
  // Safety

  ghost predicate MutualExclusion(s: State) {
    forall c, d :: Awake(s, c) && Awake(s, d) && s.pc[c] == Running && s.pc[d] == Running ==> c == d
  }

  /** Wherever a reclaimer is about to unlink the lock, its creator is dead. */
  ghost predicate ReclaimsOnlyDeadOwners(s: State) {
    forall c :: Awake(s, c) && s.pc[c] == Unlinking ==>
      s.lock.Some? && s.lock.value.creator.process !in s.live
  }

  /** Between waiting and leaving, a process has at most one caller on the path. */
  ghost predicate OnePerProcess(s: State) {
    forall c, d | c in s.pc && d in s.pc && c.process == d.process && Inside(s.pc[c]) && Inside(s.pc[d]) :: c == d
  }

  predicate Inside(pc: PC) {
    !pc.Waiting? && !pc.Done?
  }

  predicate Holds(pc: PC) {
    pc.Writing? || pc.Running? || pc.Releasing? || pc.Unlocking?
  }

  predicate HasGuard(pc: PC) {
    pc.Unlinking? || pc.DroppingGuard? || (pc.Statting? && pc.guarded) || (pc.Reading? && pc.guarded) || (pc.Probing? && pc.guarded)
  }

  ghost predicate ProcessInv(s: State) {
    && s.live <= s.started
    && (forall p, q :: p in s.live && q in s.live && p.host == q.host && p.pid == q.pid ==> p == q)
    && (forall c :: c in s.pc ==> c.process in s.started && c.id < s.nextId && c in s.previous)
    && (forall c, d :: c in s.pc && d in s.pc && c.id == d.id ==> c == d)
  }

  /** What the files look like to one live caller, depending on where it is. */
  ghost predicate CallerInv(s: State, c: Caller)
    requires Awake(s, c)
  {
    && (Holds(s.pc[c]) ==> s.lock == Some(LockFile(c, !s.pc[c].Writing?)))
    && (HasGuard(s.pc[c]) ==> s.guard == Some(c))
    && (s.pc[c].Probing? && s.pc[c].guarded ==>
          || s.pc[c].owner.process in s.live
          || (s.lock.Some? && s.lock.value.creator.process !in s.live))
    && (s.pc[c].Unlinking? ==> s.lock.Some? && s.lock.value.creator.process !in s.live)
    && (!Holds(s.pc[c]) && s.lock.Some? ==> s.lock.value.creator != c)
  }

  ghost predicate FileInv(s: State) {
    && ProcessInv(s)
    && (s.lock.Some? ==> s.lock.value.creator in s.pc)
    && (forall c {:trigger CallerInv(s, c)} :: Awake(s, c) ==> CallerInv(s, c))
  }

  /** The tail queue as seen by one caller `c` and an earlier caller `d` of the same process. */
  ghost predicate QueuedBehind(s: State, c: Caller, d: Caller)
    requires c in s.pc && c in s.previous && d in s.pc
  {
    && (!s.pc[c].Waiting? ==> s.pc[d] == Done)
    && (s.previous[c].None? ==> s.pc[d] == Done)
    && (s.previous[c].Some? ==> d.id <= s.previous[c].value.id)
  }

  ghost predicate LinkInv(s: State, c: Caller)
    requires c in s.pc && c in s.previous
  {
    && (s.previous[c].Some? ==>
          && s.previous[c].value in s.pc
          && s.previous[c].value.process == c.process
          && s.previous[c].value.id < c.id)
    && (if c.process in s.tails then c.id <= s.tails[c.process].id else s.pc[c] == Done)
  }

  ghost predicate TailInv(s: State) {
    && s.pc.Keys <= s.previous.Keys
    && (forall c {:trigger LinkInv(s, c)} :: c in s.pc ==> LinkInv(s, c))
    && (forall p :: p in s.tails ==> s.tails[p] in s.pc && s.tails[p].process == p)
    && (forall c, d {:trigger QueuedBehind(s, c, d)} :: c in s.pc && d in s.pc && c.process == d.process && d.id < c.id ==> QueuedBehind(s, c, d))
  }

  /** What every move of `c` leaves alone, and how it may change the tail queue. */
  ghost predicate MoveFrame(s: State, t: State, c: Caller) {
    && Awake(s, c) && c in s.previous
    && t.live == s.live && t.started == s.started && t.nextId == s.nextId && t.previous == s.previous
    && c in t.pc && t.pc == s.pc[c := t.pc[c]]
    && s.pc[c] != Done && !t.pc[c].Waiting?
    && (s.pc[c].Waiting? ==> PreviousReleased(s, c))
    && (t.pc[c].Done? <==> s.pc[c].Leaving?)
    && t.tails == if s.pc[c].Leaving? && c.process in s.tails && s.tails[c.process] == c
                  then s.tails - {c.process} else s.tails
  }

  lemma MovesFrame(s: State, c: Caller, choice: bool)
    requires Enabled(s, Move(c, choice))
    ensures MoveFrame(s, MoveOf(s, c, choice), c)
  {
  }

  lemma ProcessStep(s: State, t: State, c: Caller)
    requires ProcessInv(s) && MoveFrame(s, t, c)
    ensures ProcessInv(t)
  {
    assert t.pc.Keys == s.pc.Keys;
    assert forall x :: x in t.pc <==> x in s.pc;
  }

  /** Everyone queued before a caller that has been woken is done. */
  lemma EarlierDone(s: State, t: State, c: Caller, d: Caller)
    requires ProcessInv(s) && TailInv(s) && MoveFrame(s, t, c)
    requires d in s.pc && d.process == c.process && d.id < c.id
    ensures s.pc[d] == Done
  {
    assert QueuedBehind(s, c, d);
    if s.pc[c].Waiting? && s.previous[c].Some? {
      var p := s.previous[c].value;
      assert LinkInv(s, c);
      if d.id < p.id {
        assert QueuedBehind(s, p, d);
      } else {
        assert d == p;
      }
    }
  }

  lemma TailStep(s: State, t: State, c: Caller)
    requires ProcessInv(s) && TailInv(s) && MoveFrame(s, t, c)
    ensures TailInv(t)
  {
    hide LinkInv, QueuedBehind, ProcessInv;
    assert forall x :: x in t.pc <==> x in s.pc;
    forall x | x in t.pc
      ensures LinkInv(t, x)
    {
      LinkStays(s, t, c, x);
    }
    forall x, y | x in t.pc && y in t.pc && x.process == y.process && y.id < x.id
      ensures QueuedBehind(t, x, y)
    {
      OrderStays(s, t, c, x, y);
    }
  }

  lemma LinkStays(s: State, t: State, c: Caller, x: Caller)
    requires ProcessInv(s) && TailInv(s) && MoveFrame(s, t, c) && x in s.pc
    ensures x in t.pc && x in t.previous && LinkInv(t, x)
  {
    hide QueuedBehind;
    assert LinkInv(s, x);
    if s.pc[c].Leaving? && x.process == c.process && c.process in s.tails && s.tails[c.process] == c && x != c {
      EarlierDone(s, t, c, x);
    }
  }

  lemma OrderStays(s: State, t: State, c: Caller, x: Caller, y: Caller)
    requires ProcessInv(s) && TailInv(s) && MoveFrame(s, t, c)
    requires x in s.pc && y in s.pc && x.process == y.process && y.id < x.id
    ensures x in t.pc && x in t.previous && y in t.pc && QueuedBehind(t, x, y)
  {
    hide LinkInv;
    assert QueuedBehind(s, x, y);
    if x == c {
      EarlierDone(s, t, c, y);
    }
  }

  lemma CallKeepsProcesses(s: State, c: Caller)
    requires ProcessInv(s) && Enabled(s, Call(c))
    ensures ProcessInv(Apply(s, Call(c)))
  {
    var t := Apply(s, Call(c));
    assert t.pc.Keys == s.pc.Keys + {c};
    forall x, y | x in t.pc && y in t.pc && x.id == y.id
      ensures x == y
    {
      assert (x == c || x in s.pc) && (y == c || y in s.pc);
    }
  }

  lemma CallKeepsLinks(s: State, c: Caller, x: Caller)
    requires ProcessInv(s) && TailInv(s) && Enabled(s, Call(c))
    requires x in s.pc || x == c
    ensures LinkInv(Apply(s, Call(c)), x)
  {
    if x != c { assert LinkInv(s, x); }
  }

  lemma CallKeepsOrder(s: State, c: Caller, x: Caller, y: Caller)
    requires ProcessInv(s) && TailInv(s) && Enabled(s, Call(c))
    requires (x in s.pc || x == c) && y in s.pc && x.process == y.process && y.id < x.id
    ensures QueuedBehind(Apply(s, Call(c)), x, y)
  {
    assert LinkInv(s, y);
    if x != c { assert QueuedBehind(s, x, y); }
  }

  lemma CallStep(s: State, c: Caller)
    requires ProcessInv(s) && TailInv(s) && Enabled(s, Call(c))
    ensures TailInv(Apply(s, Call(c)))
  {
    var t := Apply(s, Call(c));
    assert t.pc.Keys == s.pc.Keys + {c};
    forall x | x in t.pc
      ensures LinkInv(t, x)
    {
      CallKeepsLinks(s, c, x);
    }
    forall x, y | x in t.pc && y in t.pc && x.process == y.process && y.id < x.id
      ensures QueuedBehind(t, x, y)
    {
      assert y != c;
      CallKeepsOrder(s, c, x, y);
    }
  }

  /** A move of `c` keeps what it relies on itself. */
  lemma MoveKeepsSelf(s: State, c: Caller, choice: bool)
    requires Enabled(s, Move(c, choice)) && CallerInv(s, c)
    ensures CallerInv(MoveOf(s, c, choice), c)
  {
    hide PidInUse;
    match s.pc[c]
    case Opening =>
    case Probing(owner, guarded) =>
      ProbeTells(s, owner.process);
    case Statting(_) | Reading(_) | Waiting | Writing | Guarding | Unlinking | DroppingGuard(_) | Backoff | Running =>
    case Releasing | Unlocking | Leaving =>
  }

  lemma ProbeTells(s: State, p: Process)
    ensures !PidInUse(s, p.host, p.pid) ==> p !in s.live
  {
  }

  /** A move of `c` keeps what any other live caller relies on. */
  lemma MoveKeepsOther(s: State, c: Caller, choice: bool, x: Caller)
    requires Enabled(s, Move(c, choice)) && Awake(s, x) && x != c
    requires CallerInv(s, c) && CallerInv(s, x)
    ensures CallerInv(MoveOf(s, c, choice), x)
  {
    assert MoveOf(s, c, choice).pc[x] == s.pc[x];
    match s.pc[c]
    case Opening =>
    case Writing =>
    case Guarding | DroppingGuard(_) =>
    case Unlinking | Unlocking =>
    case Statting(_) | Reading(_) | Waiting | Probing(_, _) | Backoff | Running | Releasing | Leaving =>
  }

  lemma MoveStep(s: State, c: Caller, choice: bool)
    requires FileInv(s) && Enabled(s, Move(c, choice)) && s.pc.Keys <= s.previous.Keys
    ensures FileInv(MoveOf(s, c, choice))
  {
    var t := MoveOf(s, c, choice);
    MovesFrame(s, c, choice);
    ProcessStep(s, t, c);
    forall x | Awake(t, x)
      ensures CallerInv(t, x)
    {
      assert CallerInv(s, c) && CallerInv(s, x);
      if x == c { MoveKeepsSelf(s, c, choice); } else { MoveKeepsOther(s, c, choice, x); }
    }
  }

  lemma ProcessesComeAndGo(s: State, e: Event)
    requires FileInv(s) && Allowed(false, s, e) && (e.Boot? || e.Exit?)
    ensures FileInv(Apply(s, e))
  {
    var t := Apply(s, e);
    forall x | Awake(t, x)
      ensures CallerInv(t, x)
    {
      assert Awake(s, x) && CallerInv(s, x);
    }
  }

  lemma CallFileStep(s: State, c: Caller)
    requires FileInv(s) && Enabled(s, Call(c))
    ensures FileInv(Apply(s, Call(c)))
  {
    var t := Apply(s, Call(c));
    CallKeepsProcesses(s, c);
    forall x | Awake(t, x)
      ensures CallerInv(t, x)
    {
      if x != c { assert CallerInv(s, x); }
    }
  }

  lemma BootOrExitKeepsTails(s: State, e: Event)
    requires TailInv(s) && Enabled(s, e) && (e.Boot? || e.Exit?)
    ensures TailInv(Apply(s, e))
  {
    var t := Apply(s, e);
    forall c | c in t.pc ensures LinkInv(t, c) { assert LinkInv(s, c); }
    forall c, d | c in t.pc && d in t.pc && c.process == d.process && d.id < c.id
      ensures QueuedBehind(t, c, d)
    {
      assert QueuedBehind(s, c, d);
    }
  }

  lemma InvStep(s: State, e: Event)
    requires FileInv(s) && TailInv(s) && Allowed(false, s, e)
    ensures FileInv(Apply(s, e)) && TailInv(Apply(s, e))
  {
    match e
    case Boot(_) | Exit(_) =>
      ProcessesComeAndGo(s, e);
      BootOrExitKeepsTails(s, e);
    case Call(c) =>
      CallFileStep(s, c);
      CallStep(s, c);
    case Move(c, choice) =>
      MoveStep(s, c, choice);
      MovesFrame(s, c, choice);
      TailStep(s, Apply(s, e), c);
  }

  lemma OneHolder(s: State)
    requires FileInv(s)
    ensures MutualExclusion(s) && ReclaimsOnlyDeadOwners(s)
  {
    forall c, d | Awake(s, c) && Awake(s, d) && s.pc[c] == Running && s.pc[d] == Running
      ensures c == d
    {
      assert CallerInv(s, c) && CallerInv(s, d);
    }
    forall c | Awake(s, c) && s.pc[c] == Unlinking
      ensures s.lock.Some? && s.lock.value.creator.process !in s.live
    {
      assert CallerInv(s, c);
    }
  }

  lemma EarlierIsDone(s: State, c: Caller, d: Caller)
    requires TailInv(s) && c in s.pc && d in s.pc && c.process == d.process
    requires d.id < c.id && !s.pc[c].Waiting?
    ensures s.pc[d] == Done
  {
    assert QueuedBehind(s, c, d);
  }

  lemma OneInside(s: State)
    requires ProcessInv(s) && TailInv(s)
    ensures OnePerProcess(s)
  {
    forall c, d | c in s.pc && d in s.pc && c.process == d.process && Inside(s.pc[c]) && Inside(s.pc[d])
      ensures c == d
    {
      if c.id < d.id {
        EarlierIsDone(s, d, c);
      } else if d.id < c.id {
        EarlierIsDone(s, c, d);
      }
    }
  }

  /**
   Over every interleaving of calls, file steps, process starts and crashes in which no exit
   misleads a guard holder's probe: at most one live caller is in the protected section, a
   reclaimer unlinks only the lock of a dead owner, and the in-process queue lets one caller of
   a process through at a time.
   */
  lemma {:induction false} ReachableIsSafe(s: State)
    requires Reachable(false, s)
    ensures MutualExclusion(s) && ReclaimsOnlyDeadOwners(s) && OnePerProcess(s)
  {
    ReachableIsSound(s);
    OneHolder(s);
    OneInside(s);
  }

  lemma ReachableIsSound(s: State)
    requires Reachable(false, s)
    ensures FileInv(s) && TailInv(s)
  {
    var inv := (x: State) => FileInv(x) && TailInv(x);
    forall x, y | inv(x) && Steps(false)(x, y)
      ensures inv(y)
    {
      var e :| Allowed(false, x, e) && y == Apply(x, e);
      InvStep(x, e);
    }
    Runs.Preserved(Steps(false), inv, EMPTY, s);
  }

  // ---------------------------------------------------------------------------------------
  // Which exits break exclusion

  lemma Then(w: bool, s: State, t: State, e: Event)
    requires Runs.Leads(Steps(w), s, t) && Allowed(w, t, e)
    ensures Runs.Leads(Steps(w), s, Apply(t, e))
  {
    hide Apply, Enabled;
    Runs.Then(Steps(w), s, t, Apply(t, e));
  }

  lemma Acquires(r: State, s: State, c: Caller)
    requires Runs.Leads(Steps(false), r, s)
    requires Awake(s, c) && c in s.previous && s.pc[c] == Opening && s.lock.None?
    ensures Runs.Leads(Steps(false), r, s.(lock := Some(LockFile(c, true)), pc := s.pc[c := Running]))
  {
    hide Runs.Leads, Steps;
    var t := s.(lock := Some(LockFile(c, false)), pc := s.pc[c := Writing]);
    Then(false, r, s, Move(c, false));
    Then(false, r, t, Move(c, false));
    assert t.pc[c := Running] == s.pc[c := Running];
  }

  /** From the first step of its release on, or from the second one if it has compared its token. */
  lemma Releases(r: State, s: State, c: Caller)
    requires Runs.Leads(Steps(false), r, s)
    requires Awake(s, c) && c in s.previous && (s.pc[c] == Releasing || s.pc[c] == Unlocking)
    requires s.lock == Some(LockFile(c, true))
    ensures Runs.Leads(Steps(false), r, s.(lock := None, pc := s.pc[c := Leaving]))
  {
    hide Runs.Leads, Steps;
    var u := s.(pc := s.pc[c := Unlocking]);
    if s.pc[c] == Releasing {
      Then(false, r, s, Move(c, false));
    } else {
      assert u.pc == s.pc;
    }
    Then(false, r, u, Move(c, false));
    assert u.pc[c := Leaving] == s.pc[c := Leaving];
  }

  /** A caller that finds the lock of a dead owner of its host goes for the reclaim guard. */
  lemma FindsDeadOwner(r: State, s: State, c: Caller, d: Caller)
    requires Runs.Leads(Steps(false), r, s) && Awake(s, c) && c in s.previous && s.pc[c] == Opening
    requires s.lock == Some(LockFile(d, true)) && d.process.host == c.process.host
    requires !PidInUse(s, d.process.host, d.process.pid)
    ensures Runs.Leads(Steps(false), r, s.(pc := s.pc[c := Guarding]))
  {
    hide Runs.Leads, Steps;
    var found := s.(pc := s.pc[c := Statting(false)]);
    var t := s.(pc := s.pc[c := Reading(false)]);
    var u := s.(pc := s.pc[c := Probing(d, false)]);
    Then(false, r, s, Move(c, false));
    Then(false, r, found, Move(c, false));
    assert found.pc[c := Reading(false)] == t.pc;
    Then(false, r, t, Move(c, false));
    assert t.pc[c := Probing(d, false)] == u.pc;
    assert u.live == s.live && !PidInUse(u, d.process.host, d.process.pid);
    Then(false, r, u, Move(c, false));
    assert u.pc[c := Guarding] == s.pc[c := Guarding];
  }

  /** Under the guard it reads the owner again, whoever that is now. */
  lemma ReadsUnderGuard(r: State, s: State, c: Caller, d: Caller)
    requires Runs.Leads(Steps(false), r, s) && Awake(s, c) && c in s.previous && s.pc[c] == Guarding && s.guard.None?
    requires s.lock == Some(LockFile(d, true)) && d.process.host == c.process.host
    ensures Runs.Leads(Steps(false), r, s.(guard := Some(c), pc := s.pc[c := Probing(d, true)]))
  {
    hide Runs.Leads, Steps;
    var found := s.(guard := Some(c), pc := s.pc[c := Statting(true)]);
    var t := s.(guard := Some(c), pc := s.pc[c := Reading(true)]);
    Then(false, r, s, Move(c, false));
    Then(false, r, found, Move(c, false));
    assert found.pc[c := Reading(true)] == t.pc;
    Then(false, r, t, Move(c, false));
    assert t.pc[c := Probing(d, true)] == s.pc[c := Probing(d, true)];
  }

  /** A dead pid makes it unlink whatever lock file is there, drop the guard and try again. */
  lemma UnlinksUnderGuard(r: State, s: State, c: Caller, d: Caller)
    requires Runs.Leads(Steps(false), r, s) && Awake(s, c) && c in s.previous && s.pc[c] == Probing(d, true)
    requires !PidInUse(s, d.process.host, d.process.pid)
    ensures Runs.Leads(Steps(false), r, s.(lock := None, guard := None, pc := s.pc[c := Opening]))
  {
    hide Runs.Leads, Steps;
    var t := s.(pc := s.pc[c := Unlinking]);
    var u := s.(lock := None, pc := s.pc[c := DroppingGuard(true)]);
    Then(false, r, s, Move(c, false));
    Then(false, r, t, Move(c, false));
    assert t.pc[c := DroppingGuard(true)] == u.pc;
    Then(false, r, u, Move(c, false));
    assert u.pc[c := Opening] == s.pc[c := Opening];
  }

  /** A new caller of an idle process gets as far as trying to create the lock. */
  lemma Arrives(r: State, s: State, c: Caller)
    requires Runs.Leads(Steps(false), r, s) && Enabled(s, Call(c)) && c.process !in s.tails
    ensures Runs.Leads(Steps(false), r, s.(nextId := s.nextId + 1, pc := s.pc[c := Opening],
                                           previous := s.previous[c := None], tails := s.tails[c.process := c]))
  {
    hide Runs.Leads, Steps;
    var t := Apply(s, Call(c));
    Then(false, r, s, Call(c));
    Then(false, r, t, Move(c, false));
    assert t.pc[c := Opening] == s.pc[c := Opening];
  }

  /** In any state, misled or not: on release a caller goes on to unlink the lock file exactly if that names the caller as its owner. */
  lemma ReleaseIsForOwner(s: State, c: Caller, choice: bool)
    requires Awake(s, c) && s.pc[c] == Releasing
    ensures var t := MoveOf(s, c, choice);
      && t.lock == s.lock && (t.pc[c] == Unlocking <==> s.lock.Some? && s.lock.value.written && s.lock.value.creator.id == c.id)
      && (t.pc[c] != Unlocking ==> t.pc[c] == Leaving)
  {
  }

  /** Nobody keeps a lock whose owner is dead: a caller that finds it, with the guard free, reclaims it and gets inside. */
  lemma DeadOwnerIsReclaimed(s: State, c: Caller, d: Caller)
    requires Awake(s, c) && c in s.previous && s.pc[c] == Opening && s.guard.None?
    requires s.lock == Some(LockFile(d, true)) && d.process.host == c.process.host
    requires forall p :: p in s.live ==> !(p.host == d.process.host && p.pid == d.process.pid)
    ensures Runs.Leads(Steps(false), s, s.(lock := Some(LockFile(c, true)), pc := s.pc[c := Running]))
  {
    hide Runs.Leads, Steps;
    Runs.Stays(Steps(false), s);
    FindsDeadOwner(s, s, c, d);
    var s1 := s.(pc := s.pc[c := Guarding]);
    assert s1.live == s.live;
    ReadsUnderGuard(s, s1, c, d);
    var s2 := s.(guard := Some(c), pc := s.pc[c := Probing(d, true)]);
    assert s1.pc[c := Probing(d, true)] == s2.pc;
    UnlinksUnderGuard(s, s2, c, d);
    var s3 := s.(lock := None, pc := s.pc[c := Opening]);
    assert s2.pc[c := Opening] == s3.pc;
    Acquires(s, s3, c);
    assert s3.pc[c := Running] == s.pc[c := Running];
  }

  /** Some process has never been started, and its pid has never been used. */
  lemma {:induction false} NewProcess(started: set<Process>) returns (q: Process)
    ensures forall p :: p in started ==> p.pid < q.pid
  {
    if started == {} {
      q := Process(0, 0, 0);
    } else {
      var p :| p in started;
      q := NewProcess(started - {p});
      q := Process(0, q.pid + p.pid + 1, 0);
    }
  }

  /** A caller that is misled: it is about to probe a dead owner of a lock that a live one may take. */
  ghost predicate Misled(s: State, c: Caller, d: Caller) {
    && ProcessInv(s) && TailInv(s)
    && Awake(s, c) && s.pc[c] == Probing(d, true)
    && d.process in s.started && d.process.pid !in PidsAlive(s, d.process.host)
    && (s.lock.Some? ==>
          && Awake(s, s.lock.value.creator) && CallerInv(s, s.lock.value.creator)
          && s.lock.value.creator != c)
  }

  function PidsAlive(s: State, host: nat): set<nat> {
    set p | p in s.live && p.host == host :: p.pid
  }

  lemma DeadPid(s: State, d: Caller)
    requires d.process.pid !in PidsAlive(s, d.process.host)
    ensures !PidInUse(s, d.process.host, d.process.pid)
  {
    forall p | p in s.live && p.host == d.process.host
      ensures p.pid != d.process.pid
    {
      assert p.pid in PidsAlive(s, p.host);
    }
  }

  /** It unlinks the file of the caller that runs by then, and enters as well. */
  lemma BothEnter(r: State, s: State, c: Caller, d: Caller, o: Caller) returns (t: State)
    requires Runs.Leads(Steps(false), r, s)
    requires Awake(s, c) && c in s.previous && s.pc[c] == Probing(d, true) && d.process.pid !in PidsAlive(s, d.process.host)
    requires Awake(s, o) && s.pc[o] == Running
    ensures Runs.Leads(Steps(false), r, t) && !MutualExclusion(t)
  {
    hide Runs.Leads, Steps;
    DeadPid(s, d);
    UnlinksUnderGuard(r, s, c, d);
    var u := s.(lock := None, guard := None, pc := s.pc[c := Opening]);
    Acquires(r, u, c);
    t := u.(lock := Some(LockFile(c, true)), pc := u.pc[c := Running]);
    assert Awake(t, c) && Awake(t, o) && t.pc[c] == Running && t.pc[o] == Running && c != o;
  }

  /** With no lock file a caller of a new process takes the lock first. */
  lemma NewcomerEnters(r: State, s: State, c: Caller, d: Caller) returns (t: State)
    requires Runs.Leads(Steps(false), r, s) && Misled(s, c, d) && s.lock.None?
    ensures Runs.Leads(Steps(false), r, t) && !MutualExclusion(t)
  {
    hide Runs.Leads, Steps, LinkInv, QueuedBehind;
    var q := NewProcess(s.started);
    var o := Caller(s.nextId, q);
    assert q !in s.started;
    assert forall p :: p in s.tails ==> s.tails[p] in s.pc && s.tails[p].process == p;
    Then(false, r, s, Boot(q));
    var s1 := s.(live := s.live + {q}, started := s.started + {q});
    assert o !in s.pc;
    Arrives(r, s1, o);
    var s2 := s1.(nextId := s1.nextId + 1, pc := s1.pc[o := Opening], previous := s1.previous[o := None], tails := s1.tails[q := o]);
    Acquires(r, s2, o);
    var s3 := s2.(lock := Some(LockFile(o, true)), pc := s2.pc[o := Running]);
    assert PidsAlive(s3, d.process.host) <= PidsAlive(s, d.process.host) + {q.pid};
    t := BothEnter(r, s3, c, d, o);
  }

  /** Whoever holds the lock is running, will run, or will leave it to a newcomer. */
  lemma MisledEnters(r: State, s: State, c: Caller, d: Caller) returns (t: State)
    requires Runs.Leads(Steps(false), r, s) && Misled(s, c, d)
    ensures Runs.Leads(Steps(false), r, t) && !MutualExclusion(t)
  {
    hide Runs.Leads, Steps, LinkInv, QueuedBehind;
    if s.lock.None? {
      t := NewcomerEnters(r, s, c, d);
      return;
    }
    var o := s.lock.value.creator;
    if s.pc[o].Running? {
      t := BothEnter(r, s, c, d, o);
    } else if s.pc[o].Writing? {
      Then(false, r, s, Move(o, false));
      t := BothEnter(r, MoveOf(s, o, false), c, d, o);
    } else {
      Releases(r, s, o);
      var u := s.(lock := None, pc := s.pc[o := Leaving]);
      ReleaseKeeps(s, o);
      t := NewcomerEnters(r, u, c, d);
    }
  }

  lemma ReleaseKeeps(s: State, o: Caller)
    requires ProcessInv(s) && TailInv(s) && Awake(s, o) && (s.pc[o] == Releasing || s.pc[o] == Unlocking)
    ensures ProcessInv(s.(lock := None, pc := s.pc[o := Leaving]))
    ensures TailInv(s.(lock := None, pc := s.pc[o := Leaving]))
  {
    hide LinkInv, QueuedBehind;
    var u := s.(lock := None, pc := s.pc[o := Leaving]);
    ProcessStep(s, u, o);
    TailStep(s, u, o);
  }

  /**
   From any state that can be reached without misleading exits, an exit makes it possible for
   two live callers to get inside, without any further misleading exit, if and only if it is
   itself misleading.
   */
  lemma ExitBreaksExclusionIff(s: State, p: Process)
    requires Reachable(false, s) && Enabled(s, Exit(p))
    ensures (exists t :: Runs.Leads(Steps(false), Apply(s, Exit(p)), t) && !MutualExclusion(t)) <==> MisleadsProbe(s, Exit(p))
  {
    var u := Apply(s, Exit(p));
    if MisleadsProbe(s, Exit(p)) {
      var t := ExitMisleads(s, p);
    } else {
      Then(false, EMPTY, s, Exit(p));
      forall t | Runs.Leads(Steps(false), u, t)
        ensures MutualExclusion(t)
      {
        Runs.Through(Steps(false), EMPTY, u, t);
        ReachableIsSafe(t);
      }
    }
  }

  lemma ExitMisleads(s: State, p: Process) returns (t: State)
    requires Reachable(false, s) && Enabled(s, Exit(p)) && MisleadsProbe(s, Exit(p))
    ensures Runs.Leads(Steps(false), Apply(s, Exit(p)), t) && !MutualExclusion(t)
  {
    hide Runs.Leads, Steps, LinkInv, QueuedBehind;
    var u := Apply(s, Exit(p));
    var c :| Awake(s, c) && c.process != p && ReadUnderGuard(s, c, p);
    ReachableIsSound(s);
    BootOrExitKeepsTails(s, Exit(p));
    assert CallerInv(s, c);
    if s.lock.Some? { assert CallerInv(s, s.lock.value.creator); }
    Runs.Stays(Steps(false), u);
    t := MisledEnters(u, u, c, s.pc[c].owner);
  }

  /** Every run that breaks exclusion has a misleading exit, after a beginning without any. */
  lemma BrokenByMisleadingExit(s: State) returns (u: State, p: Process)
    requires Reachable(true, s) && !MutualExclusion(s)
    ensures Reachable(false, u) && Enabled(u, Exit(p)) && MisleadsProbe(u, Exit(p))
    ensures Runs.Leads(Steps(true), Apply(u, Exit(p)), s)
  {
    hide MutualExclusion, Apply, Enabled, MisleadsProbe;
    if Reachable(false, s) { ReachableIsSafe(s); }
    Runs.Stays(Steps(false), EMPTY);
    var v;
    u, v := Runs.Crossing(Steps(true), (x: State) => Reachable(false, x), EMPTY, s);
    var e :| Allowed(true, u, e) && v == Apply(u, e);
    if !MisleadsProbe(u, e) {
      Then(false, EMPTY, u, e);
    }
    assert e.Exit? by { OnlyExitsMislead(u, e); }
    p := e.process;
  }

  lemma OnlyExitsMislead(s: State, e: Event)
    requires MisleadsProbe(s, e)
    ensures e.Exit?
  {
  }

  lemma StepOf(s: State, t: State) returns (e: Event)
    requires Steps(false)(s, t)
    ensures Allowed(false, s, e) && t == Apply(s, e)
  {
    e :| Allowed(false, s, e) && t == Apply(s, e);
  }

  lemma AlsoAnyRun(s: State, t: State)
    requires Runs.Leads(Steps(false), s, t)
    ensures Runs.Leads(Steps(true), s, t)
  {
    hide Apply, Enabled, Runs.Leads;
    forall a, b | Steps(false)(a, b)
      ensures Steps(true)(a, b)
    {
      var e := StepOf(a, b);
      assert Allowed(true, a, e);
    }
    Runs.Wider(Steps(false), Steps(true), s, t);
  }

  // ---------------------------------------------------------------------------------------
  // A run with a misleading exit

  const DEAD := Process(0, 1, 0)
  const FIRST := Process(0, 2, 0)
  const SECOND := Process(0, 3, 0)
  const D := Caller(0, DEAD)
  const C := Caller(1, FIRST)
  const R := Caller(2, SECOND)

  /** `C` and `R` have both seen the lock that `D` left behind when its process died. */
  function TwoReclaimers(): State {
    State({FIRST, SECOND}, {DEAD, FIRST, SECOND}, 3,
          map[D := Running, C := Guarding, R := Guarding], map[D := None, C := None, R := None],
          map[DEAD := D, FIRST := C, SECOND := R], Some(LockFile(D, true)), None)
  }

  const BOOTED := EMPTY.(live := {DEAD, FIRST, SECOND}, started := {DEAD, FIRST, SECOND})

  lemma AllBoot()
    ensures Reachable(false, BOOTED)
  {
    var s1 := EMPTY.(live := {DEAD}, started := {DEAD});
    var s2 := EMPTY.(live := {DEAD, FIRST}, started := {DEAD, FIRST});
    Runs.Stays(Steps(false), EMPTY);
    Then(false, EMPTY, EMPTY, Boot(DEAD));
    assert Apply(EMPTY, Boot(DEAD)) == s1;
    Then(false, EMPTY, s1, Boot(FIRST));
    assert Apply(s1, Boot(FIRST)) == s2;
    Then(false, EMPTY, s2, Boot(SECOND));
    assert Apply(s2, Boot(SECOND)) == BOOTED;
  }

  lemma DeadOwnerLeavesLock()
    ensures Reachable(false, State({FIRST, SECOND}, {DEAD, FIRST, SECOND}, 1,
                                   map[D := Running], map[D := None], map[DEAD := D], Some(LockFile(D, true)), None))
  {
    AllBoot();
    Arrives(EMPTY, BOOTED, D);
    var s5 := BOOTED.(nextId := 1, pc := map[D := Opening], previous := map[D := None], tails := map[DEAD := D]);
    Acquires(EMPTY, s5, D);
    var s6 := s5.(pc := map[D := Running], lock := Some(LockFile(D, true)));
    assert s5.pc[D := Running] == s6.pc;
    Then(false, EMPTY, s6, Exit(DEAD));
    assert s6.live - {DEAD} == {FIRST, SECOND};
  }

  lemma TwoCallersReachGuard()
    ensures Reachable(false, TwoReclaimers())
  {
    DeadOwnerLeavesLock();
    var s0 := TwoReclaimers().(nextId := 1, pc := map[D := Running], previous := map[D := None], tails := map[DEAD := D]);
    Arrives(EMPTY, s0, C);
    var s1 := s0.(nextId := 2, pc := map[D := Running, C := Opening], previous := map[D := None, C := None],
                  tails := map[DEAD := D, FIRST := C]);
    assert s0.pc[C := Opening] == s1.pc;
    FindsDeadOwner(EMPTY, s1, C, D);
    var s2 := s1.(pc := map[D := Running, C := Guarding]);
    assert s1.pc[C := Guarding] == s2.pc;
    Arrives(EMPTY, s2, R);
    var s3 := TwoReclaimers().(pc := map[D := Running, C := Guarding, R := Opening]);
    assert s2.pc[R := Opening] == s3.pc;
    assert s2.previous[R := None] == s3.previous;
    FindsDeadOwner(EMPTY, s3, R, D);
    assert s3.pc[R := Guarding] == TwoReclaimers().pc;
  }

  /** `C` reclaims and enters; `R` takes the guard next and reads `C` as the owner. */
  function ReadBeforeExit(): State {
    TwoReclaimers().(pc := map[D := Running, C := Running, R := Probing(C, true)],
                     lock := Some(LockFile(C, true)), guard := Some(R))
  }

  lemma ReclaimerReadsLiveOwner()
    ensures Reachable(false, ReadBeforeExit())
  {
    TwoCallersReachGuard();
    var s0 := TwoReclaimers();
    ReadsUnderGuard(EMPTY, s0, C, D);
    var s1 := s0.(guard := Some(C), pc := map[D := Running, C := Probing(D, true), R := Guarding]);
    assert s0.pc[C := Probing(D, true)] == s1.pc;
    UnlinksUnderGuard(EMPTY, s1, C, D);
    var s2 := s0.(lock := None, pc := map[D := Running, C := Opening, R := Guarding]);
    assert s1.pc[C := Opening] == s2.pc;
    Acquires(EMPTY, s2, C);
    var s3 := s0.(lock := Some(LockFile(C, true)), pc := map[D := Running, C := Running, R := Guarding]);
    assert s2.pc[C := Running] == s3.pc;
    ReadsUnderGuard(EMPTY, s3, R, C);
    assert s3.pc[R := Probing(C, true)] == ReadBeforeExit().pc;
  }

  /** `C` releases and its process exits before `R` probes it: a newcomer and `R` both enter. */
  lemma TwoInside() returns (s: State)
    ensures Reachable(true, s) && !MutualExclusion(s)
  {
    ReclaimerReadsLiveOwner();
    var s0 := ReadBeforeExit();
    var s1 := s0.(pc := s0.pc[C := Releasing]);
    Then(false, EMPTY, s0, Move(C, false));
    Releases(EMPTY, s1, C);
    var s2 := s0.(lock := None, pc := map[D := Running, C := Leaving, R := Probing(C, true)]);
    assert s1.pc[C := Leaving] == s2.pc;
    assert Awake(s2, R) && ReadUnderGuard(s2, R, FIRST);
    s := ExitMisleads(s2, FIRST);
    AlsoAnyRun(EMPTY, s2);
    Then(true, EMPTY, s2, Exit(FIRST));
    AlsoAnyRun(Apply(s2, Exit(FIRST)), s);
    Runs.Through(Steps(true), EMPTY, Apply(s2, Exit(FIRST)), s);
  }
}
