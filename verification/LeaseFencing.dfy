/**
 What leases guarantee over all runs of the job ledger: credentials of an older lease generation
 are rejected, and completed and ambiguous jobs stay what they are.
 */
module LeaseFencing {
  import opened Common
  import opened JobLedger

  /** Only the retirement fields differ. */
  ghost predicate SameButRetirement(a: Job, b: Job) {
    a == b.(retirement := a.retirement, retirementGeneration := a.retirementGeneration, retirementOperation := a.retirementOperation)
  }

  // ---------------------------------------------------------------------------------------
  // Invariant

  /** Identities are unique and older than the next one. */
  ghost predicate Identities(s: State) {
    && (forall i :: 0 <= i < |s.jobs| ==> s.jobs[i].id < s.next)
    && (forall i, j :: 0 <= i < j < |s.jobs| ==> s.jobs[i].id != s.jobs[j].id)
    && (forall id :: id in s.issued ==> id < s.next)
    && (forall g :: g in s.retiring ==> g < s.next)
  }

  /** The credentials handed out for one job, oldest first. */
  ghost predicate LeaseInv(job: Job, issued: seq<Credential>, next: nat) {
    && |issued| == job.attempts
    && (job.status == Leased ==>
          && |issued| > 0 && job.leasedUntil.Some?
          && job.leasedBy == Some(issued[|issued| - 1].owner) && job.leaseToken == issued[|issued| - 1].token)
    && (job.status != Leased ==> job.leaseToken.None? && job.leasedBy.None? && job.leasedUntil.None?)
    && (forall i :: 0 < i < |issued| ==> issued[i].token.Some?)
    && (forall i :: 0 <= i < |issued| && issued[i].token.Some? ==> issued[i].token.value < next)
    && (forall i, j :: 0 <= i < j < |issued| && issued[i].token.Some? ==> issued[i].token != issued[j].token)
  }

  /** A retirement call remembers completed records of its own memory. */
  ghost predicate RetiringInv(r: Retiring) {
    forall id :: id in r.previous ==>
      && r.previous[id].id == id && IsRevision(r.previous[id], r.account, r.memory)
      && r.previous[id].retirement != Some(RetirementPending)
  }

  /** The remembered record is the present one but for the retirement fields. */
  ghost predicate Remembers(r: Retiring, job: Job) {
    job.id in r.previous ==> job.status == Completed && SameButRetirement(r.previous[job.id], job)
  }

  ghost predicate LeasesInv(s: State) {
    forall i {:trigger s.jobs[i]} :: 0 <= i < |s.jobs| ==> LeaseInv(s.jobs[i], IssuedTo(s, s.jobs[i].id), s.next)
  }

  ghost predicate RetirementsInv(s: State) {
    forall g {:trigger s.retiring[g]} :: g in s.retiring ==>
      && RetiringInv(s.retiring[g])
      && (forall id :: id in s.retiring[g].previous ==> id < s.next)
      && (forall i {:trigger s.jobs[i]} :: 0 <= i < |s.jobs| ==> Remembers(s.retiring[g], s.jobs[i]))
  }

  ghost predicate Inv(s: State) {
    Identities(s) && LeasesInv(s) && RetirementsInv(s)
  }

  // ---------------------------------------------------------------------------------------
  // Per-job steps

  lemma LeaseKeeps(job: Job, issued: seq<Credential>, r: LeaseRequest, next: nat)
    requires LeaseInv(job, issued, next) && Leasable(job, r)
    ensures LeaseInv(LeasedJob(job, r, next), issued + [CredentialOf(r, next)], next + 1)
  {
    var all := issued + [CredentialOf(r, next)];
    forall i, j | 0 <= i < j < |all| && all[i].token.Some?
      ensures all[i].token != all[j].token
    {
      assert i < |issued| && all[i] == issued[i];
      if j < |issued| { assert all[j] == issued[j]; }
    }
  }

  lemma WorkKeeps(job: Job, issued: seq<Credential>, w: Work, next: nat)
    requires LeaseInv(job, issued, next) && Worked(job, w).Some?
    ensures LeaseInv(Worked(job, w).value, issued, next)
    ensures Worked(job, w).value.id == job.id
  {
  }

  /**
   Fencing, for one job: a credential that is not the job's latest is rejected by every check,
   at whatever time.
   */
  lemma OldCredentialRejected(job: Job, issued: seq<Credential>, next: nat, i: nat, now: int)
    requires LeaseInv(job, issued, next) && i < |issued| - 1
    ensures !ActiveLease(job, issued[i], now) && !SameGeneration(job, issued[i], now)
  {
    var last := issued[|issued| - 1];
    assert last.token.Some?;
    if issued[i].token.Some? {
      assert issued[i].token != last.token;
    }
  }

  // ---------------------------------------------------------------------------------------
  // What a job keeps

  /**
   The present record `a` of a job and a later one `b`: identity and evidence never change, a
   completed job keeps everything but its retirement, a deleted one keeps that too, and an
   ambiguous failure stays one.
   */
  ghost predicate JobKeeps(a: Job, b: Job) {
    && b.id == a.id && b.account == a.account && b.target == a.target && b.project == a.project
    && b.evidence == a.evidence && b.hash == a.hash && b.createdAt == a.createdAt && a.attempts <= b.attempts
    && (a.status == Completed ==> SameButRetirement(b, a))
    && (a.status == Completed && a.retirement == Some(Retired(Deleted)) ==> b.retirement == Some(Retired(Deleted)))
    && (a.status == Failed && a.failureKind == Some(AmbiguousCommit) ==>
          b.status == Failed && b.failureKind == Some(AmbiguousCommit) && b.attempts == a.attempts)
  }

  lemma JobKeepsThrough(a: Job, b: Job, c: Job)
    requires JobKeeps(a, b) && JobKeeps(b, c)
    ensures JobKeeps(a, c)
  {
  }

  ghost predicate Keeps(s: State, t: State) {
    && |s.jobs| <= |t.jobs| && s.next <= t.next
    && (forall i :: 0 <= i < |s.jobs| ==> JobKeeps(s.jobs[i], t.jobs[i]))
    && (forall id :: id in s.issued ==> id in t.issued && s.issued[id] <= t.issued[id])
    && s.enqueued <= t.enqueued
  }

  lemma KeepsThrough(s: State, t: State, u: State)
    requires Keeps(s, t) && Keeps(t, u)
    ensures Keeps(s, u)
  {
    hide JobKeeps;
    forall i | 0 <= i < |s.jobs|
      ensures JobKeeps(s.jobs[i], u.jobs[i])
    {
      JobKeepsThrough(s.jobs[i], t.jobs[i], u.jobs[i]);
    }
  }

  // ---------------------------------------------------------------------------------------
  // Each operation

  lemma LeaseStep(s: State, r: LeaseRequest)
    requires Inv(s)
    ensures Inv(ApplyLease(s, r)) && Keeps(s, ApplyLease(s, r))
  {
    hide LeaseInv, Leasable, LeasedJob, RetirementsInv, Clamp;
    var t := ApplyLease(s, r);
    var found := Find(s.jobs, (job: Job) => Leasable(job, r));
    if found.Some? {
      var i := found.value;
      var job := s.jobs[i];
      LeaseShape(job, r, s.next);
      LeaseKeeps(job, IssuedTo(s, job.id), r, s.next);
      LeaseRemembered(s, r);
      forall k | 0 <= k < |t.jobs|
        ensures LeaseInv(t.jobs[k], IssuedTo(t, t.jobs[k].id), t.next)
      {
        if k != i {
          LeaseInvLater(s.jobs[k], IssuedTo(s, s.jobs[k].id), s.next, t.next);
        }
      }
    }
  }

  /** The job that is leased was not completed, so no retirement call remembers it. */
  lemma LeaseRemembered(s: State, r: LeaseRequest)
    requires Inv(s)
    ensures RetirementsInv(ApplyLease(s, r))
  {
    hide LeaseInv, Leasable, LeasedJob, RetiringInv, LeasesInv;
    var t := ApplyLease(s, r);
    var found := Find(s.jobs, (job: Job) => Leasable(job, r));
    if found.Some? {
      LeaseShape(s.jobs[found.value], r, s.next);
      forall g, k | g in t.retiring && 0 <= k < |t.jobs|
        ensures Remembers(t.retiring[g], t.jobs[k])
      {
        assert Remembers(s.retiring[g], s.jobs[k]);
      }
    }
  }

  lemma LeaseShape(job: Job, r: LeaseRequest, token: Token)
    requires Leasable(job, r)
    ensures JobKeeps(job, LeasedJob(job, r, token)) && job.status != Completed
  {
  }

  lemma LeaseInvLater(job: Job, issued: seq<Credential>, next: nat, later: nat)
    requires LeaseInv(job, issued, next) && next <= later
    ensures LeaseInv(job, issued, later)
  {
  }

  lemma WorkShape(job: Job, w: Work)
    requires Worked(job, w).Some?
    ensures JobKeeps(job, Worked(job, w).value) && job.status != Completed
  {
  }

  lemma OnJobStep(s: State, account: string, id: JobId, w: Work)
    requires Inv(s)
    ensures Inv(ApplyOnJob(s, account, id, w)) && Keeps(s, ApplyOnJob(s, account, id, w))
  {
    hide LeaseInv, Worked, RetiringInv;
    var found := Find(s.jobs, (job: Job) => job.id == id && job.account == account);
    if found.Some? && Worked(s.jobs[found.value], w).Some? {
      WorkShape(s.jobs[found.value], w);
      WorkKeeps(s.jobs[found.value], IssuedTo(s, s.jobs[found.value].id), w, s.next);
    }
  }

  /** A job whose number is new is appended, without any lease. */
  lemma AppendStep(s: State, job: Job, t: State)
    requires Inv(s) && job.id == s.next && job.attempts == 0 && job.status != Leased
    requires job.leaseToken.None? && job.leasedBy.None? && job.leasedUntil.None?
    requires t.jobs == s.jobs + [job] && t.next == s.next + 1 && t.issued == s.issued && t.retiring == s.retiring
    requires s.enqueued <= t.enqueued
    ensures Inv(t) && Keeps(s, t)
  {
    hide LeaseInv, RetiringInv;
    assert IssuedTo(t, job.id) == [];
    NoLease(job, t.next);
    forall k | 0 <= k < |t.jobs|
      ensures LeaseInv(t.jobs[k], IssuedTo(t, t.jobs[k].id), t.next)
    {
      if k < |s.jobs| {
        LeaseInvLater(s.jobs[k], IssuedTo(s, s.jobs[k].id), s.next, t.next);
      }
    }
  }

  lemma NoLease(job: Job, next: nat)
    requires job.attempts == 0 && job.status != Leased && job.leaseToken.None? && job.leasedBy.None? && job.leasedUntil.None?
    ensures LeaseInv(job, [], next)
  {
  }

  lemma EnqueueStep(s: State, account: string, target: Target, project: Option<string>, items: seq<Evidence>, now: int)
    requires Inv(s)
    ensures Inv(ApplyEnqueue(s, account, target, project, items, now))
    ensures Keeps(s, ApplyEnqueue(s, account, target, project, items, now))
  {
    hide Inv, Keeps, Clashes, Canonical, AllRefsText;
    var t := ApplyEnqueue(s, account, target, project, items, now);
    KeepsStays(s);
    if t != s {
      AppendStep(s, NewJob(s.next, account, target, project, Canonical(items), now), t);
    }
  }

  lemma KeepsStays(s: State)
    ensures Keeps(s, s)
  {
  }

  lemma RecordStep(s: State, op: Op)
    requires Inv(s) && op.Record?
    ensures Inv(ApplyRecord(s, op)) && Keeps(s, ApplyRecord(s, op))
  {
    hide Inv, Keeps, SameRevision, Canonical, AllRefsText, RecordAllowed;
    var t := ApplyRecord(s, op);
    KeepsStays(s);
    if t != s {
      AppendStep(s, RevisionJob(s.next, op.account, op.target, op.project, Canonical(op.items), Trim(op.memory), Trim(op.body),
                                op.committedAt, op.commit, op.coreBody), t);
    }
  }

  predicate Remembered(jobs: seq<Job>, job: Job, account: string, memory: string, operation: Operation) {
    && job in jobs && ActiveRevision(job, account, memory, operation) && job.retirement != Some(RetirementPending)
  }

  lemma {:induction false} PreviousHolds(jobs: seq<Job>, account: string, memory: string, operation: Operation)
    ensures forall id :: id in PreviousOf(jobs, account, memory, operation) ==>
      && PreviousOf(jobs, account, memory, operation)[id].id == id
      && Remembered(jobs, PreviousOf(jobs, account, memory, operation)[id], account, memory, operation)
  {
    if |jobs| > 0 {
      PreviousHolds(jobs[1..], account, memory, operation);
      assert jobs == [jobs[0]] + jobs[1..];
    }
  }

  lemma SameLeases(a: Job, b: Job, issued: seq<Credential>, next: nat)
    requires LeaseInv(a, issued, next) && b.id == a.id && b.status == a.status && b.attempts == a.attempts
    requires b.leasedUntil == a.leasedUntil && b.leasedBy == a.leasedBy && b.leaseToken == a.leaseToken
    ensures LeaseInv(b, issued, next)
  {
  }

  /** Some jobs change in their retirement fields only; the calls under way may shrink or grow by one. */
  lemma RetirementChange(s: State, t: State)
    requires Inv(s) && |t.jobs| == |s.jobs| && t.issued == s.issued && t.enqueued == s.enqueued && s.next <= t.next
    requires forall i :: 0 <= i < |s.jobs| ==> SameButRetirement(t.jobs[i], s.jobs[i]) && JobKeeps(s.jobs[i], t.jobs[i])
    ensures LeasesInv(t) && Keeps(s, t)
    ensures forall g {:trigger s.retiring[g]} :: g in s.retiring ==>
      && RetiringInv(s.retiring[g])
      && (forall id :: id in s.retiring[g].previous ==> id < t.next)
      && (forall i {:trigger t.jobs[i]} :: 0 <= i < |t.jobs| ==> Remembers(s.retiring[g], t.jobs[i]))
  {
    hide LeaseInv, RetiringInv, JobKeeps;
    forall i | 0 <= i < |t.jobs|
      ensures LeaseInv(t.jobs[i], IssuedTo(t, t.jobs[i].id), t.next)
    {
      LeaseInvLater(s.jobs[i], IssuedTo(s, s.jobs[i].id), s.next, t.next);
      SameLeases(s.jobs[i], t.jobs[i], IssuedTo(s, s.jobs[i].id), t.next);
    }
    forall g | g in s.retiring
      ensures RetiringInv(s.retiring[g]) && (forall id :: id in s.retiring[g].previous ==> id < t.next)
      ensures forall i {:trigger t.jobs[i]} :: 0 <= i < |t.jobs| ==> Remembers(s.retiring[g], t.jobs[i])
    {
      forall i | 0 <= i < |t.jobs|
        ensures Remembers(s.retiring[g], t.jobs[i])
      {
        assert Remembers(s.retiring[g], s.jobs[i]);
      }
    }
  }

  lemma MarkedShape(jobs: seq<Job>, i: nat, account: string, memory: string, operation: Operation, generation: Generation)
    requires i < |jobs| && !RetireConflict(jobs, account, memory, operation)
    ensures var marked := Marked(jobs[i], account, memory, operation, generation);
      SameButRetirement(marked, jobs[i]) && JobKeeps(jobs[i], marked)
  {
  }

  /** A new retirement call remembers the store as it finds it. */
  lemma NewCallRemembers(s: State, account: string, memory: string, operation: Operation)
    requires Identities(s)
    ensures var t := ApplyRetireBegin(s, account, memory, operation);
      !RetireConflict(s.jobs, account, memory, operation) && !AllRetired(s.jobs, account, memory, operation) ==>
        && s.next in t.retiring
        && RetiringInv(t.retiring[s.next])
        && (forall id :: id in t.retiring[s.next].previous ==> id < s.next)
        && (forall i :: 0 <= i < |s.jobs| ==> Remembers(t.retiring[s.next], s.jobs[i]))
  {
    hide RetireConflict, AllRetired, Retrying, Marked;
    PreviousHolds(s.jobs, account, memory, operation);
  }

  lemma RetireBeginStep(s: State, account: string, memory: string, operation: Operation)
    requires Inv(s)
    ensures Inv(ApplyRetireBegin(s, account, memory, operation))
    ensures Keeps(s, ApplyRetireBegin(s, account, memory, operation))
  {
    hide LeaseInv, RetiringInv, JobKeeps, AllRetired, RetireConflict, Marked, SameButRetirement, Retrying, ActiveIds;
    var t := ApplyRetireBegin(s, account, memory, operation);
    if RetireConflict(s.jobs, account, memory, operation) || AllRetired(s.jobs, account, memory, operation) {
      forall i | 0 <= i < |s.jobs|
        ensures SameButRetirement(t.jobs[i], s.jobs[i]) && JobKeeps(s.jobs[i], t.jobs[i])
      {
        Unchanged(s.jobs[i]);
      }
      RetirementChange(s, t);
    } else {
      forall i | 0 <= i < |s.jobs|
        ensures SameButRetirement(t.jobs[i], s.jobs[i]) && JobKeeps(s.jobs[i], t.jobs[i])
      {
        MarkedShape(s.jobs, i, account, memory, operation, s.next);
      }
      RetirementChange(s, t);
      NewCallRemembers(s, account, memory, operation);
      forall i | 0 <= i < |t.jobs|
        ensures Remembers(t.retiring[s.next], t.jobs[i])
      {
        SameRemembers(t.retiring[s.next], s.jobs[i], t.jobs[i]);
      }
      IdentitiesStay(s, t);
      assert forall g :: g in t.retiring && g != s.next ==> g in s.retiring && t.retiring[g] == s.retiring[g];
    }
  }

  lemma Unchanged(job: Job)
    ensures SameButRetirement(job, job) && JobKeeps(job, job)
  {
  }

  lemma SameRemembers(r: Retiring, a: Job, b: Job)
    requires Remembers(r, a) && SameButRetirement(b, a)
    ensures Remembers(r, b)
  {
  }

  lemma IdentitiesStay(s: State, t: State)
    requires Identities(s) && |t.jobs| == |s.jobs| && s.next <= t.next && t.issued == s.issued
    requires forall i :: 0 <= i < |s.jobs| ==> SameButRetirement(t.jobs[i], s.jobs[i])
    requires forall g :: g in t.retiring ==> g in s.retiring || g == s.next
    requires s.next in t.retiring ==> s.next < t.next
    ensures Identities(t)
  {
    assert forall i :: 0 <= i < |s.jobs| ==> t.jobs[i].id == s.jobs[i].id;
  }

  lemma FinishShape(job: Job, r: Retiring, generation: Generation)
    requires Remembers(r, job)
    ensures SameButRetirement(Finalized(job, r, generation), job) && JobKeeps(job, Finalized(job, r, generation))
    ensures SameButRetirement(RolledBack(job, r, generation), job) && JobKeeps(job, RolledBack(job, r, generation))
  {
  }

  lemma RetireFinishStep(s: State, generation: Generation, outcome: Outcome)
    requires Inv(s)
    ensures Inv(ApplyRetireFinish(s, generation, outcome))
    ensures Keeps(s, ApplyRetireFinish(s, generation, outcome))
  {
    hide LeaseInv, RetiringInv, JobKeeps, Finalized, RolledBack, SameButRetirement, AllOwned, Remembers, RollsBack, Finalizes;
    var t := ApplyRetireFinish(s, generation, outcome);
    KeepsStays(s);
    if generation in s.retiring {
      forall i | 0 <= i < |s.jobs|
        ensures SameButRetirement(t.jobs[i], s.jobs[i]) && JobKeeps(s.jobs[i], t.jobs[i])
      {
        Unchanged(s.jobs[i]);
        FinishShape(s.jobs[i], s.retiring[generation], generation);
      }
      RetirementChange(s, t);
      IdentitiesStay(s, t);
      assert forall g :: g in t.retiring ==> g in s.retiring && t.retiring[g] == s.retiring[g];
    }
  }

  lemma Step(s: State, op: Op)
    requires Inv(s)
    ensures Inv(Apply(s, op)) && Keeps(s, Apply(s, op))
  {
    hide Inv, Keeps;
    match op
    case Lease(r) => LeaseStep(s, r);
    case OnJob(account, id, w) => OnJobStep(s, account, id, w);
    case Enqueue(account, target, project, items, now) => EnqueueStep(s, account, target, project, items, now);
    case Record(_, _, _, _, _, _, _, _, _) => RecordStep(s, op);
    case RetireBegin(account, memory, operation) => RetireBeginStep(s, account, memory, operation);
    case RetireFinish(generation, outcome) => RetireFinishStep(s, generation, outcome);
  }

  lemma {:induction false} ReplayKeeps(s: State, ops: seq<Op>)
    requires Inv(s)
    ensures Inv(Replay(s, ops)) && Keeps(s, Replay(s, ops))
    decreases |ops|
  {
    hide Inv, Keeps, Apply;
    if |ops| == 0 {
      KeepsStays(s);
    } else {
      Step(s, ops[0]);
      ReplayKeeps(Apply(s, ops[0]), ops[1..]);
      KeepsThrough(s, Apply(s, ops[0]), Replay(s, ops));
    }
  }

  lemma ReachableInv(s: State)
    requires Reachable(s)
    ensures Inv(s)
  {
    hide Apply, Keeps;
    var ops :| s == Replay(EMPTY, ops);
    ReplayKeeps(EMPTY, ops);
  }

  // ---------------------------------------------------------------------------------------
  // Main results

  /** The credential a piece of work presents, and the time at which it does. */
  function Presents(w: Work): Option<Credential> {
    match w
    case Complete(cred, _, _, _, _) => Some(cred)
    case CompleteAfterCommit(cred, _, _, _, _, _, _) => Some(cred)
    case Fail(cred, _, _) => Some(cred)
    case FailGeneration(cred, _, _, _) => Some(cred)
    case Renew(cred, _, _) => Some(cred)
    case Prepare(cred, _, _) => Some(cred)
    case StampQuarantine(_) | Retry => None
  }

  /**
   Lease fencing over all runs: whatever was handed out for a job before its latest lease, with a
   token or without, passes neither the active-lease check nor the post-commit generation check,
   at any time; so every completion, failure, renewal and pre-write extension that presents it is
   refused.
   */
  lemma {:induction false} OldGenerationsAreFenced(s: State, k: nat, i: nat, now: int)
    requires Reachable(s) && k < |s.jobs| && i < |IssuedTo(s, s.jobs[k].id)| - 1
    ensures !ActiveLease(s.jobs[k], IssuedTo(s, s.jobs[k].id)[i], now)
    ensures !SameGeneration(s.jobs[k], IssuedTo(s, s.jobs[k].id)[i], now)
    ensures forall w :: Presents(w) == Some(IssuedTo(s, s.jobs[k].id)[i]) ==> Worked(s.jobs[k], w).None?
  {
    hide LeaseInv;
    var ops :| s == Replay(EMPTY, ops);
    ReplayKeeps(EMPTY, ops);
    OldCredentialRejected(s.jobs[k], IssuedTo(s, s.jobs[k].id), s.next, i, now);
    forall w | Presents(w) == Some(IssuedTo(s, s.jobs[k].id)[i])
      ensures Worked(s.jobs[k], w).None?
    {
      if !w.StampQuarantine? && !w.Retry? {
        OldCredentialRejected(s.jobs[k], IssuedTo(s, s.jobs[k].id), s.next, i, w.now);
      }
    }
  }

  /** The clock of an operation that reads one does not show more than `latest`. */
  predicate NotAfter(op: Op, latest: int) {
    match op
    case Lease(r) => r.now <= latest
    case OnJob(_, _, Renew(_, _, now)) => now <= latest
    case OnJob(_, _, Prepare(_, _, now)) => now <= latest
    case _ => true
  }

  predicate EndsBy(job: Job, latest: int) {
    job.leasedUntil.Some? ==> job.leasedUntil.value <= latest + 900 * 1000
  }

  lemma LeaseEndsBy(job: Job, r: LeaseRequest, token: Token, latest: int)
    requires r.now <= latest
    ensures EndsBy(LeasedJob(job, r, token), latest)
  {
  }

  lemma WorkEndsBy(job: Job, account: string, id: JobId, w: Work, latest: int)
    requires EndsBy(job, latest) && NotAfter(OnJob(account, id, w), latest) && Worked(job, w).Some?
    ensures EndsBy(Worked(job, w).value, latest)
  {
  }

  lemma RetirementEndsBy(a: Job, b: Job, latest: int)
    requires EndsBy(a, latest) && SameButRetirement(b, a)
    ensures EndsBy(b, latest)
  {
  }

  lemma EndsByStep(s: State, op: Op, latest: int)
    requires Inv(s) && NotAfter(op, latest) && forall job :: job in s.jobs ==> EndsBy(job, latest)
    ensures forall job :: job in Apply(s, op).jobs ==> EndsBy(job, latest)
  {
    hide EndsBy, NotAfter, Inv, Leasable, LeasedJob, Worked, Clashes, Canonical, SameRevision, AllRefsText, RecordAllowed, Trim;
    match op
    case Lease(r) =>
      var found := Find(s.jobs, (job: Job) => Leasable(job, r));
      if found.Some? { LeaseEndsBy(s.jobs[found.value], r, s.next, latest) by { ClockOf(op, latest); } }
    case OnJob(account, id, w) =>
      var found := Find(s.jobs, (job: Job) => job.id == id && job.account == account);
      if found.Some? && Worked(s.jobs[found.value], w).Some? {
        WorkEndsBy(s.jobs[found.value], account, id, w, latest);
      }
    case Enqueue(account, target, project, items, now) =>
      Unleasable(NewJob(s.next, account, target, project, Canonical(items), now), latest);
    case Record(_, _, _, _, _, _, _, _, _) =>
      Unleasable(RevisionJob(s.next, op.account, op.target, op.project, Canonical(op.items), Trim(op.memory), Trim(op.body),
                             op.committedAt, op.commit, op.coreBody), latest);
    case RetireBegin(_, _, _) | RetireFinish(_, _) =>
      forall a, b | EndsBy(a, latest) && SameButRetirement(b, a) ensures EndsBy(b, latest) { RetirementEndsBy(a, b, latest); }
      RetirementKeepsEach(s, op, (job: Job) => EndsBy(job, latest));
  }

  lemma ClockOf(op: Op, latest: int)
    requires op.Lease? && NotAfter(op, latest)
    ensures op.request.now <= latest
  {
  }

  lemma Unleasable(job: Job, latest: int)
    requires job.leasedUntil.None?
    ensures EndsBy(job, latest)
  {
  }

  /** What does not depend on the retirement fields is kept of all jobs by both halves of a retirement. */
  lemma RetirementKeepsEach(s: State, op: Op, p: Job -> bool)
    requires Inv(s) && (op.RetireBegin? || op.RetireFinish?) && forall job :: job in s.jobs ==> p(job)
    requires forall a, b :: p(a) && SameButRetirement(b, a) ==> p(b)
    ensures forall job :: job in Apply(s, op).jobs ==> p(job)
  {
    hide LeaseInv, LeasesInv, RetiringInv, JobKeeps, Finalized, RolledBack, SameButRetirement, AllOwned, Remembers, RollsBack,
      Finalizes, RetireConflict, AllRetired, Retrying, ActiveIds, PreviousOf, Marked;
    var t := Apply(s, op);
    assert |t.jobs| == |s.jobs|;
    forall i | 0 <= i < |t.jobs|
      ensures p(t.jobs[i])
    {
      assert s.jobs[i] in s.jobs;
      match op
      case RetireBegin(account, memory, operation) =>
        if !RetireConflict(s.jobs, account, memory, operation) {
          MarkedShape(s.jobs, i, account, memory, operation, s.next);
        }
      case RetireFinish(generation, _) =>
        if generation in s.retiring {
          FinishShape(s.jobs[i], s.retiring[generation], generation);
        }
    }
  }

  lemma {:induction false} EndsByReplay(s: State, ops: seq<Op>, latest: int)
    requires Inv(s) && (forall op :: op in ops ==> NotAfter(op, latest)) && forall job :: job in s.jobs ==> EndsBy(job, latest)
    ensures Inv(Replay(s, ops)) && forall job :: job in Replay(s, ops).jobs ==> EndsBy(job, latest)
    decreases |ops|
  {
    hide Inv, Apply, EndsBy, NotAfter;
    if |ops| > 0 {
      Step(s, ops[0]);
      EndsByStep(s, ops[0], latest);
      EndsByReplay(Apply(s, ops[0]), ops[1..], latest);
    }
  }

  /**
   No lease holds a job for good: after any operations by clocks that show at most `latest`, with
   any requested durations, every leased job can be leased again with a token 15 minutes later.
   */
  lemma {:induction false} LeasesEnd(ops: seq<Op>, latest: int, job: Job, harness: string, seconds: int)
    requires (forall op :: op in ops ==> NotAfter(op, latest)) && job in Replay(EMPTY, ops).jobs && job.status == Leased
    ensures Leasable(job, LeaseRequest(job.account, None, None, harness, seconds, true, latest + 900 * 1000))
  {
    hide NotAfter;
    EndsByReplay(EMPTY, ops, latest);
    var s := Replay(EMPTY, ops);
    var i :| 0 <= i < |s.jobs| && s.jobs[i] == job;
    assert LeaseInv(s.jobs[i], IssuedTo(s, s.jobs[i].id), s.next);
  }

  /** A lease without a token is only ever the first one of its job. */
  lemma {:induction false} TokenlessLeaseIsFirst(s: State, k: nat, i: nat)
    requires Reachable(s) && k < |s.jobs| && i < |IssuedTo(s, s.jobs[k].id)|
    requires IssuedTo(s, s.jobs[k].id)[i].token.None?
    ensures i == 0
  {
    var ops :| s == Replay(EMPTY, ops);
    ReplayKeeps(EMPTY, ops);
    assert LeaseInv(s.jobs[k], IssuedTo(s, s.jobs[k].id), s.next);
  }

  /**
   Whatever happens after a reachable state: jobs stay in their place with their identity and
   evidence; a completed one keeps status, result and evidence for good; a deleted one stays
   deleted; an ambiguous failure is never leased again.
   */
  lemma {:induction false} SettledForGood(s: State, later: seq<Op>, k: nat)
    requires Reachable(s) && k < |s.jobs|
    ensures var t := Replay(s, later); k < |t.jobs| && JobKeeps(s.jobs[k], t.jobs[k])
  {
    hide JobKeeps;
    var ops :| s == Replay(EMPTY, ops);
    ReplayKeeps(EMPTY, ops);
    ReplayKeeps(s, later);
  }
}
