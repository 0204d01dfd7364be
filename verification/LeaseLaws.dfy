/**
 What leases of src/distillation-jobs.ts admit, job by job: whom a job is handed to, what its holder
 may do with it and what then is stored, and that nobody else gets at it while the lease lasts.
 */
module LeaseLaws {
  import opened Common
  import opened JobLedger
  import LeaseFencing
  import Retirement

  // ---------------------------------------------------------------------------------------
  // Who gets a job

  /** The reasons for which a request does not get a job. */
  predicate Withheld(job: Job, r: LeaseRequest) {
    || job.account != r.account
    || job.status == Completed || job.status == Failed
    || (job.status == Leased && (job.leasedUntil.None? || r.now < job.leasedUntil.value))
    || (r.project.Some? && job.project != r.project.value)
    || (r.target.Some? && job.target != r.target.value)
    || (!r.useToken && (job.status == Leased || job.leaseToken.Some? || job.attempts > 0))
  }

  lemma LeasableUnlessWithheld(job: Job, r: LeaseRequest)
    ensures Leasable(job, r) <==> !Withheld(job, r)
  {
  }

  /** A request changes the first job that nothing withholds from it, and no other. */
  lemma LeaseTakesFirst(s: State, r: LeaseRequest, i: nat)
    requires i < |s.jobs| && !Withheld(s.jobs[i], r) && forall j :: 0 <= j < i ==> Withheld(s.jobs[j], r)
    ensures var t := Apply(s, Lease(r));
      && |t.jobs| == |s.jobs| && (forall j :: 0 <= j < |s.jobs| && j != i ==> t.jobs[j] == s.jobs[j])
      && t.jobs[i].id == s.jobs[i].id && t.jobs[i].status == Leased && t.jobs[i].attempts == s.jobs[i].attempts + 1
      && t.jobs[i].leasedBy == Some(r.harness)
      && t.jobs[i].leaseToken == (if r.useToken then Some(s.next) else None)
      && t.jobs[i].leasedUntil.Some?
      && (30 <= r.seconds <= 900 ==> t.jobs[i].leasedUntil == Some(r.now + 1000 * r.seconds))
      && (r.seconds < 30 ==> t.jobs[i].leasedUntil == Some(r.now + 30000))
      && (r.seconds > 900 ==> t.jobs[i].leasedUntil == Some(r.now + 900000))
  {
    var found := Find(s.jobs, (job: Job) => Leasable(job, r));
    LeasableUnlessWithheld(s.jobs[i], r);
    if found.Some? && found.value < i { LeasableUnlessWithheld(s.jobs[found.value], r); }
  }

  // ---------------------------------------------------------------------------------------
  // Nobody else gets at a job under a live lease

  /** The job is leased, and the lease lasts up to `until`. */
  predicate LeasedUntil(job: Job, until: int) {
    job.status == Leased && job.leasedUntil == Some(until)
  }

  /** Any operation but one on this very job, by a clock at which the lease has not run out. */
  predicate Elsewhere(op: Op, id: JobId, until: int) {
    match op
    case Lease(r) => r.now < until
    case OnJob(_, other, _) => other != id
    case _ => true
  }

  lemma LiveStep(s: State, op: Op, k: nat, until: int)
    requires Retirement.Inv(s) && k < |s.jobs| && LeasedUntil(s.jobs[k], until) && Elsewhere(op, s.jobs[k].id, until)
    ensures k < |Apply(s, op).jobs| && Apply(s, op).jobs[k] == s.jobs[k]
  {
    hide Canonical, Clashes, SameRevision, AllRefsText, RecordAllowed, Worked, LeasedJob, LeaseFencing.LeasesInv, LeaseFencing.Identities,
      AllRetired, RetireConflict, AllOwned, Retrying, PreviousOf, ActiveIds, Finalizes, RollsBack, Trim, Leasable;
    match op
    case Lease(r) =>
      LeasableUnlessWithheld(s.jobs[k], r);
    case RetireFinish(generation, _) =>
      assert Retirement.PendingInv(s.jobs[k], s.retiring, s.next);
    case _ =>
  }

  /**
   Over every run: until a lease runs out nothing changes its job but its own worker's operations on
   it, whatever leases others ask for, and whatever they queue, record, complete or retire.
   */
  lemma {:induction false} LiveLeaseIsExclusive(s: State, ops: seq<Op>, k: nat, until: int)
    requires Reachable(s) && k < |s.jobs| && LeasedUntil(s.jobs[k], until)
    requires forall op :: op in ops ==> Elsewhere(op, s.jobs[k].id, until)
    ensures k < |Replay(s, ops).jobs| && Replay(s, ops).jobs[k] == s.jobs[k]
  {
    hide Retirement.Inv, Reachable;
    Retirement.ReachableInv(s);
    LiveReplay(s, ops, k, until);
  }

  lemma {:induction false} LiveReplay(s: State, ops: seq<Op>, k: nat, until: int)
    requires Retirement.Inv(s) && k < |s.jobs| && LeasedUntil(s.jobs[k], until)
    requires forall op :: op in ops ==> Elsewhere(op, s.jobs[k].id, until)
    ensures k < |Replay(s, ops).jobs| && Replay(s, ops).jobs[k] == s.jobs[k]
    decreases |ops|
  {
    hide Retirement.Inv, Apply, Elsewhere, LeasedUntil;
    if |ops| > 0 {
      LiveStep(s, ops[0], k, until);
      Retirement.Step(s, ops[0]);
      LiveReplay(Apply(s, ops[0]), ops[1..], k, until);
    }
  }

  // ---------------------------------------------------------------------------------------
  // What a worker may do, and what then is stored

  /** The worker holds the job under the credential that its lease handed out. */
  predicate HeldBy(job: Job, cred: Credential) {
    job.status == Leased && job.leasedBy == Some(cred.owner) && job.leaseToken == cred.token
  }

  /** Its lease has not run out. */
  predicate InTime(job: Job, now: int) {
    job.leasedUntil.Some? && now < job.leasedUntil.value
  }

  /**
   Exactly who may do what: work in time is the holder's; after a Core write the holder's token outlives
   the deadline; a lease is only extended under a token; and only a failure that is neither an ambiguous
   commit nor invalid evidence is retried.
   */
  lemma WorkIsAllowedIff(job: Job, cred: Credential, now: int)
    ensures forall kind, id, content :: Worked(job, Complete(cred, kind, id, content, now)).Some? <==> HeldBy(job, cred) && InTime(job, now)
    ensures forall message :: Worked(job, Fail(cred, message, now)).Some? <==> HeldBy(job, cred) && InTime(job, now)
    ensures forall kind, memory, body, at, core :: Worked(job, CompleteAfterCommit(cred, kind, memory, body, at, core, now)).Some? <==>
      HeldBy(job, cred) && (cred.token.Some? || InTime(job, now))
    ensures forall message, kind :: Worked(job, FailGeneration(cred, message, kind, now)).Some? <==>
      HeldBy(job, cred) && (cred.token.Some? || InTime(job, now))
    ensures forall seconds :: Worked(job, Renew(cred, seconds, now)).Some? <==> HeldBy(job, cred) && InTime(job, now) && cred.token.Some?
    ensures forall seconds :: 30 <= seconds <= 900 ==>
      (Worked(job, Prepare(cred, seconds, now)).Some? <==>
        HeldBy(job, cred) && InTime(job, now) && (cred.token.Some? || job.leasedUntil.value - now >= 1000 * seconds))
    ensures forall at :: Worked(job, StampQuarantine(at)).Some? <==> job.status == Failed && job.failureKind == Some(AmbiguousCommit)
    ensures Worked(job, Retry).Some? <==>
      job.status == Failed && job.failureKind != Some(AmbiguousCommit) && job.failureKind != Some(InvalidLegacyEvidence)
  {
  }

  /** What is left of a job that has no lease any more. */
  predicate Released(job: Job) {
    job.leasedUntil.None? && job.leasedBy.None? && job.leaseToken.None?
  }

  /** Identity, target and evidence of a job, and how often it was leased. */
  predicate SameTask(a: Job, b: Job) {
    && b.id == a.id && b.account == a.account && b.target == a.target && b.project == a.project
    && b.createdAt == a.createdAt && b.attempts == a.attempts && b.evidence == a.evidence && b.hash == a.hash
    && b.retirement == a.retirement && b.retirementGeneration == a.retirementGeneration
    && b.retirementOperation == a.retirementOperation && b.operationId == a.operationId
  }

  /** What a completed job is: the kind, and an id and a content if they are given; no failure is left. */
  predicate CompletedFrom(job: Job, done: Job, kind: ResultKind, id: Option<string>, content: Option<string>, now: int) {
    && SameTask(job, done) && Released(done) && done.status == Completed && done.failure.None?
    && done.resultKind == Some(kind) && done.completedAt == Some(Stamp(now, true))
    && done.resultId == (if id.Some? && id.value != "" then id else job.resultId)
    && done.resultContent == (if content.Some? && content.value != "" then content else job.resultContent)
  }

  /** A failed one: at most 2000 characters of the message, and the results as they were. */
  predicate FailedFrom(job: Job, failed: Job, message: string, kind: FailureKind) {
    && SameTask(job, failed) && Released(failed) && failed.status == Failed && failed.failureKind == Some(kind)
    && failed.failure.Some? && failed.failure.value <= message
    && |failed.failure.value| == (if |message| < 2000 then |message| else 2000)
    && failed.resultKind == job.resultKind && failed.resultId == job.resultId && failed.resultContent == job.resultContent
  }

  /** The end of the lease moves to `seconds` from now, at least 30 and at most 900, but never back; nothing else changes. */
  predicate ExtendedFrom(job: Job, extended: Job, seconds: int, now: int) {
    && job.leasedUntil.Some? && extended.leasedUntil.Some? && extended == job.(leasedUntil := extended.leasedUntil)
    && extended.leasedUntil.value >= job.leasedUntil.value
    && var asked := now + 1000 * (if seconds < 30 then 30 else if seconds > 900 then 900 else seconds);
       extended.leasedUntil.value >= asked && (extended.leasedUntil == job.leasedUntil || extended.leasedUntil.value == asked)
  }

  lemma CommitStores(job: Job, cred: Credential, kind: ResultKind, memory: string, body: string, at: Stamp, core: Option<string>, now: int)
    requires HeldBy(job, cred) && (cred.token.Some? || InTime(job, now)) && memory != "" && body != ""
    ensures var done := Worked(job, CompleteAfterCommit(cred, kind, memory, body, at, core, now)).value;
      && CompletedFrom(job, done, kind, Some(memory), Some(body), now) && done.resultCommittedAt == Some(at)
      && done.coreBody == (if core.Some? then core else job.coreBody)
  {
  }

  /**
   A worker whose lease lasts finishes its job, whatever everybody else did meanwhile: its completion is
   accepted and its result stored.
   */
  lemma HolderFinishes(s: State, ops: seq<Op>, k: nat, cred: Credential, until: int, memory: string, body: string, at: Stamp, now: int)
    requires Reachable(s) && k < |s.jobs| && LeasedUntil(s.jobs[k], until) && HeldBy(s.jobs[k], cred) && now < until && memory != "" && body != ""
    requires forall op :: op in ops ==> Elsewhere(op, s.jobs[k].id, until)
    ensures var t := Replay(s, ops);
      var u := Apply(t, OnJob(s.jobs[k].account, s.jobs[k].id, CompleteAfterCommit(cred, Of(s.jobs[k].target), memory, body, at, None, now)));
      && k < |u.jobs| == |t.jobs| && u.jobs[k].status == Completed
      && u.jobs[k].resultId == Some(memory) && u.jobs[k].resultContent == Some(body) && u.jobs[k].resultCommittedAt == Some(at)
  {
    hide Reachable, Replay, Worked, LeaseFencing.LeasesInv, LeaseFencing.RetirementsInv;
    LiveLeaseIsExclusive(s, ops, k, until);
    var t, job := Replay(s, ops), s.jobs[k];
    IdsAreDistinct(s, ops);
    var found := Find(t.jobs, (j: Job) => j.id == job.id && j.account == job.account);
    assert t.jobs[k] == job;
    assert found == Some(k);
    WorkIsAllowedIff(job, cred, now);
    CommitStores(job, cred, Of(job.target), memory, body, at, None, now);
  }

  lemma IdsAreDistinct(s: State, ops: seq<Op>)
    requires Reachable(s)
    ensures var t := Replay(s, ops); forall i, j :: 0 <= i < j < |t.jobs| ==> t.jobs[i].id != t.jobs[j].id
  {
    hide LeaseFencing.LeasesInv, LeaseFencing.RetirementsInv, LeaseFencing.Keeps, Reachable;
    LeaseFencing.ReachableInv(s);
    LeaseFencing.ReplayKeeps(s, ops);
  }
}
