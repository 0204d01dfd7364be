/**
 The operations of src/distillation-jobs.ts as methods over the stored list of jobs: each loads,
 searches, changes records field by field and saves.  Each locked part is one operation of the
 JobLedger machine, or leaves the store alone if it throws.
 */
module JobProgram {
  import opened Common
  import opened JobLedger
  import Enqueueing
  import LeaseFencing
  import opened LeaseLaws
  import RetirementLaws
  import Retirement

  datatype RetireResult = WasRetired | NothingToDo | Conflict | CoreFailed | GenerationChanged

  class JobStore {
    var jobs: seq<Job>
    var next: nat
    // Not stored: the retirement calls under way, and the history of leases and enqueues.
    var retiring: map<Generation, Retiring>
    var issued: map<JobId, seq<Credential>>
    var enqueued: set<JobId>

    constructor ()
      ensures Store() == EMPTY
    {
      jobs, next, retiring, issued, enqueued := [], 0, map[], map[], {};
    }

    /** The state of the machine that this store stands for. */
    function Store(): State
      reads this
    {
      State(jobs, next, retiring, issued, enqueued)
    }

    /**
     leaseDistillationJob: hands out the first job that nothing withholds from the request, for the
     seconds asked for but at least 30 and at most 900, and leaves all other jobs alone.
     */
    method LeaseDistillationJob(r: LeaseRequest) returns (leased: Option<Job>)
      modifies this
      ensures Store() == Apply(old(Store()), Lease(r))
      ensures leased.None? <==> forall i :: 0 <= i < |old(jobs)| ==> Withheld(old(jobs)[i], r)
      ensures leased.None? ==> jobs == old(jobs)
      ensures leased.Some? ==>
        exists i :: 0 <= i < |old(jobs)| && !Withheld(old(jobs)[i], r) && (forall j :: 0 <= j < i ==> Withheld(old(jobs)[j], r))
          && jobs == old(jobs)[i := leased.value]
          && leased.value == old(jobs)[i].(
               status := Leased, attempts := old(jobs)[i].attempts + 1, leasedBy := Some(r.harness),
               leaseToken := leased.value.leaseToken, leasedUntil := leased.value.leasedUntil)
      ensures leased.Some? ==>
        && leased.value.leaseToken == (if r.useToken then Some(old(next)) else None)
        && leased.value.leasedUntil == Some(r.now + 1000 * (if r.seconds < 30 then 30 else if r.seconds > 900 then 900 else r.seconds))
    {
      hide Leasable, Withheld;
      var found := Find(jobs, (job: Job) => Leasable(job, r));
      forall i | 0 <= i < |jobs| ensures Leasable(jobs[i], r) <==> !Withheld(jobs[i], r) { LeasableUnlessWithheld(jobs[i], r); }
      if found.None? { return None; }
      var job := jobs[found.value];
      var seconds := Clamp(30, 900, r.seconds);
      job := job.(status := Leased);
      job := job.(attempts := job.attempts + 1);
      job := job.(leasedBy := Some(r.harness));
      if r.useToken {
        job := job.(leaseToken := Some(next));
      } else {
        job := job.(leaseToken := None);
      }
      job := job.(leasedUntil := Some(r.now + seconds * 1000));
      issued := issued[job.id := IssuedTo(Store(), job.id) + [CredentialOf(r, next)]];
      jobs := jobs[found.value := job];
      next := next + 1;
      return Some(job);
    }

    /** mutateJob with the change `w`: finds the account's job and replaces it, or throws. */
    method MutateJob(account: string, id: JobId, w: Work) returns (changed: Option<Job>)
      modifies this`jobs
      ensures Store() == Apply(old(Store()), OnJob(account, id, w))
      ensures changed.Some? ==> changed.value in jobs && changed.value.id == id && changed.value.account == account
      ensures changed.None? ==> jobs == old(jobs)
      ensures changed.Some? <==> exists i :: 0 <= i < |old(jobs)| && IsFirst(old(jobs), account, id, i) && Worked(old(jobs)[i], w).Some?
    {
      hide Worked;
      var found := Find(jobs, (job: Job) => job.id == id && job.account == account);
      if found.None? { return None; }
      assert IsFirst(jobs, account, id, found.value);
      var job := jobs[found.value];
      WorkedKeepsIdentity(job, w);
      changed := Worked(job, w);
      if changed.Some? {
        jobs := jobs[found.value := changed.value];
        assert jobs[found.value] == changed.value;
      }
    }

    /** completeDistillationJob: the holder's, and only in time. */
    method CompleteDistillationJob(account: string, id: JobId, cred: Credential, kind: ResultKind, resultId: Option<string>,
                                   content: Option<string>, now: int) returns (completed: Option<Job>)
      modifies this`jobs
      ensures Store() == Apply(old(Store()), OnJob(account, id, Complete(cred, kind, resultId, content, now)))
      ensures completed.Some? <==>
        exists i :: 0 <= i < |old(jobs)| && IsFirst(old(jobs), account, id, i) && HeldBy(old(jobs)[i], cred) && InTime(old(jobs)[i], now)
      ensures completed.Some? ==>
        exists i :: 0 <= i < |old(jobs)| && IsFirst(old(jobs), account, id, i) && jobs == old(jobs)[i := completed.value]
          && CompletedFrom(old(jobs)[i], completed.value, kind, resultId, content, now)
    {
      hide Apply;
      ghost var work := Complete(cred, kind, resultId, content, now);
      var found := Find(jobs, (job: Job) => job.id == id && job.account == account);
      if found.None? { NoFirst(Store(), account, id, work); return None; }
      assert IsFirst(jobs, account, id, found.value);
      WorkOnFirst(Store(), account, id, found.value, work);
      var job := jobs[found.value];
      // assertActiveDistillationLease
      if job.status != Leased || job.leasedUntil.None? || job.leasedUntil.value <= now { return None; }
      if job.leasedBy != Some(cred.owner) || job.leaseToken != cred.token { return None; }
      job := job.(status := Completed);
      job := job.(completedAt := Some(Stamp(now, true)));
      job := job.(resultKind := Some(kind));
      job := job.(resultId := if Text(resultId) then resultId else job.resultId);
      job := job.(resultContent := if Text(content) then content else job.resultContent);
      job := job.(leasedUntil := None, leasedBy := None, leaseToken := None);
      job := job.(failure := None);
      assert CompletedFrom(jobs[found.value], job, kind, resultId, content, now);
      assert Worked(jobs[found.value], work) == Some(job);
      jobs := jobs[found.value := job];
      return Some(job);
    }

    /** completeDistillationJobAfterCoreCommit: the holder's token outlives its deadline. */
    method CompleteAfterCoreCommit(account: string, id: JobId, cred: Credential, kind: ResultKind, memory: string, body: string,
                                   committedAt: Stamp, coreBody: Option<string>, now: int) returns (completed: Option<Job>)
      modifies this`jobs
      ensures Store() == Apply(old(Store()), OnJob(account, id, CompleteAfterCommit(cred, kind, memory, body, committedAt, coreBody, now)))
      ensures completed.Some? <==>
        exists i :: 0 <= i < |old(jobs)| && IsFirst(old(jobs), account, id, i)
          && HeldBy(old(jobs)[i], cred) && (cred.token.Some? || InTime(old(jobs)[i], now))
      ensures completed.Some? ==>
        exists i :: 0 <= i < |old(jobs)| && IsFirst(old(jobs), account, id, i) && jobs == old(jobs)[i := completed.value]
          && SameTask(old(jobs)[i], completed.value)
          && completed.value.coreBody == if coreBody.Some? then coreBody else old(jobs)[i].coreBody
      ensures completed.Some? ==>
        && Released(completed.value) && completed.value.status == Completed && completed.value.failure.None?
        && completed.value.resultKind == Some(kind) && completed.value.completedAt == Some(Stamp(now, true))
        && completed.value.resultId == Some(memory) && completed.value.resultContent == Some(body)
        && completed.value.resultCommittedAt == Some(committedAt)
    {
      hide Apply;
      ghost var work := CompleteAfterCommit(cred, kind, memory, body, committedAt, coreBody, now);
      var found := Find(jobs, (job: Job) => job.id == id && job.account == account);
      if found.None? { NoFirst(Store(), account, id, work); return None; }
      assert IsFirst(jobs, account, id, found.value);
      WorkOnFirst(Store(), account, id, found.value, work);
      var job := jobs[found.value];
      // assertPostCoreCommitLeaseGeneration
      if job.status != Leased || job.leasedBy != Some(cred.owner) || job.leaseToken != cred.token { return None; }
      if job.leaseToken.None? && (job.leasedUntil.None? || job.leasedUntil.value <= now) { return None; }
      job := job.(status := Completed);
      job := job.(completedAt := Some(Stamp(now, true)));
      job := job.(resultKind := Some(kind));
      job := job.(resultId := Some(memory));
      job := job.(resultContent := Some(body));
      job := job.(resultCommittedAt := Some(committedAt));
      if coreBody.Some? {
        job := job.(coreBody := coreBody);
      }
      job := job.(leasedUntil := None, leasedBy := None, leaseToken := None);
      job := job.(failure := None);
      assert Worked(jobs[found.value], work) == Some(job);
      jobs := jobs[found.value := job];
      return Some(job);
    }

    /** failDistillationJob, and with `afterCommit` failDistillationJobForLeaseGeneration. */
    method FailDistillationJob(account: string, id: JobId, cred: Credential, message: string, kind: FailureKind, afterCommit: bool, now: int)
      returns (failed: Option<Job>)
      requires afterCommit || kind == CoreError
      modifies this`jobs
      ensures Store() == Apply(old(Store()), OnJob(account, id, if afterCommit then FailGeneration(cred, message, kind, now) else Fail(cred, message, now)))
      ensures failed.Some? <==>
        exists i :: 0 <= i < |old(jobs)| && IsFirst(old(jobs), account, id, i)
          && HeldBy(old(jobs)[i], cred) && ((afterCommit && cred.token.Some?) || InTime(old(jobs)[i], now))
      ensures failed.Some? ==>
        exists i :: 0 <= i < |old(jobs)| && IsFirst(old(jobs), account, id, i) && jobs == old(jobs)[i := failed.value]
          && FailedFrom(old(jobs)[i], failed.value, message, kind)
    {
      hide Apply;
      ghost var work := if afterCommit then FailGeneration(cred, message, kind, now) else Fail(cred, message, now);
      var found := Find(jobs, (job: Job) => job.id == id && job.account == account);
      if found.None? { NoFirst(Store(), account, id, work); return None; }
      assert IsFirst(jobs, account, id, found.value);
      WorkOnFirst(Store(), account, id, found.value, work);
      var job := jobs[found.value];
      if job.status != Leased || job.leasedBy != Some(cred.owner) || job.leaseToken != cred.token { return None; }
      if (!afterCommit || job.leaseToken.None?) && (job.leasedUntil.None? || job.leasedUntil.value <= now) { return None; }
      job := job.(status := Failed);
      job := job.(failure := Some(Take(message, 2000)));
      job := job.(failureKind := Some(kind));
      job := job.(leasedUntil := None, leasedBy := None, leaseToken := None);
      assert Worked(jobs[found.value], work) == Some(job);
      jobs := jobs[found.value := job];
      return Some(job);
    }

    /** renewDistillationJobLease: only under a token. */
    method RenewDistillationJobLease(account: string, id: JobId, cred: Credential, seconds: int, now: int) returns (renewed: Option<Job>)
      modifies this`jobs
      ensures Store() == Apply(old(Store()), OnJob(account, id, Renew(cred, seconds, now)))
      ensures renewed.Some? <==>
        exists i :: 0 <= i < |old(jobs)| && IsFirst(old(jobs), account, id, i)
          && HeldBy(old(jobs)[i], cred) && InTime(old(jobs)[i], now) && cred.token.Some?
      ensures renewed.Some? ==>
        exists i :: 0 <= i < |old(jobs)| && IsFirst(old(jobs), account, id, i) && jobs == old(jobs)[i := renewed.value]
          && ExtendedFrom(old(jobs)[i], renewed.value, seconds, now)
    {
      var found := Find(jobs, (job: Job) => job.id == id && job.account == account);
      if found.None? { return None; }
      assert IsFirst(jobs, account, id, found.value);
      var job := jobs[found.value];
      if job.status != Leased || job.leasedUntil.None? || job.leasedUntil.value <= now { return None; }
      if job.leasedBy != Some(cred.owner) || job.leaseToken != cred.token || job.leaseToken.None? { return None; }
      var until := now + Clamp(30, 900, seconds) * 1000;
      if until > job.leasedUntil.value {
        job := job.(leasedUntil := Some(until));
      }
      jobs := jobs[found.value := job];
      return Some(job);
    }

    /** prepareDistillationLeaseForExternalWrite: without a token enough time has to be left. */
    method PrepareForExternalWrite(account: string, id: JobId, cred: Credential, seconds: int, now: int) returns (prepared: Option<Job>)
      modifies this`jobs
      ensures Store() == Apply(old(Store()), OnJob(account, id, Prepare(cred, seconds, now)))
      ensures prepared.Some? ==>
        exists i :: 0 <= i < |old(jobs)| && IsFirst(old(jobs), account, id, i) && jobs == old(jobs)[i := prepared.value]
          && HeldBy(old(jobs)[i], cred) && InTime(old(jobs)[i], now)
          && ExtendedFrom(old(jobs)[i], prepared.value, seconds, now) && (cred.token.None? ==> prepared.value == old(jobs)[i])
      ensures prepared.None? ==> jobs == old(jobs)
      ensures prepared.None? ==> forall i :: 0 <= i < |old(jobs)| && IsFirst(old(jobs), account, id, i) ==>
        || !HeldBy(old(jobs)[i], cred) || !InTime(old(jobs)[i], now)
        || (cred.token.None? && !ExtendedFrom(old(jobs)[i], old(jobs)[i], seconds, now))
    {
      var found := Find(jobs, (job: Job) => job.id == id && job.account == account);
      if found.None? { return None; }
      assert IsFirst(jobs, account, id, found.value);
      var job := jobs[found.value];
      if job.status != Leased || job.leasedUntil.None? || job.leasedUntil.value <= now { return None; }
      if job.leasedBy != Some(cred.owner) || job.leaseToken != cred.token { return None; }
      var minimum := Clamp(30, 900, seconds) * 1000;
      var remaining := job.leasedUntil.value - now;
      if job.leaseToken.None? && remaining < minimum { return None; }
      if remaining < minimum {
        job := job.(leasedUntil := Some(now + minimum));
      }
      jobs := jobs[found.value := job];
      return Some(job);
    }

    /** retryDistillationJob: never an ambiguous commit, nor invalid evidence. */
    method RetryDistillationJob(account: string, id: JobId) returns (retried: Option<Job>)
      modifies this`jobs
      ensures Store() == Apply(old(Store()), OnJob(account, id, Retry))
      ensures retried.Some? <==>
        exists i :: 0 <= i < |old(jobs)| && IsFirst(old(jobs), account, id, i) && old(jobs)[i].status == Failed
          && old(jobs)[i].failureKind != Some(AmbiguousCommit) && old(jobs)[i].failureKind != Some(InvalidLegacyEvidence)
      ensures retried.Some? ==>
        exists i :: 0 <= i < |old(jobs)| && IsFirst(old(jobs), account, id, i) && jobs == old(jobs)[i := retried.value]
          && SameTask(old(jobs)[i], retried.value)
      ensures retried.Some? ==>
        Released(retried.value) && retried.value.status == Pending && retried.value.failure.None? && retried.value.failureKind.None?
    {
      var found := Find(jobs, (job: Job) => job.id == id && job.account == account);
      if found.None? { return None; }
      assert IsFirst(jobs, account, id, found.value);
      var job := jobs[found.value];
      if job.status != Failed { return None; }
      if job.failureKind == Some(AmbiguousCommit) || job.failureKind == Some(InvalidLegacyEvidence) { return None; }
      job := job.(status := Pending);
      job := job.(failure := None, failureKind := None);
      job := job.(leasedUntil := None, leasedBy := None, leaseToken := None);
      jobs := jobs[found.value := job];
      return Some(job);
    }

    /** enqueueJob: the equal batch if there is one, else for L2 a batch that overlaps, else a new job. */
    method EnqueueJob(account: string, target: Target, project: Option<string>, items: seq<Evidence>, now: int)
      returns (created: bool, job: Option<Job>)
      modifies this
      ensures Store() == ApplyEnqueue(old(Store()), account, target, project, items, now)
      ensures job.None? <==> !AllRefsText(items)
      ensures job.Some? ==> job.value == QueueAnswer(old(Store()), account, target, project, Canonical(items), now)
      ensures created <==> job.Some? && NoBatchFor(old(jobs), account, target, project, Canonical(items))
      ensures created ==> job == Some(NewJob(old(next), account, target, project, Canonical(items), now)) && jobs == old(jobs) + [job.value]
      ensures !created ==> jobs == old(jobs)
      ensures job.Some? && !created ==> job.value in jobs && Clashes(job.value, account, target, project, Canonical(items))
      ensures job.Some? && HasBatch(old(jobs), account, target, project, Canonical(items)) ==>
        !created && SameBatch(job.value, account, target, project, Canonical(items))
    {
      hide Canonical, Clashes, AllRefsText, SameBatch, SharesTurn, NewJob;
      var evidence := Enqueueing.UniqueEvidence(items);
      if evidence.None? { return false, None; }
      var existing := Find(jobs, (j: Job) => SameBatch(j, account, target, project, evidence.value));
      if existing.Some? {
        ClashFound(jobs, existing.value, account, target, project, evidence.value);
        return false, Some(jobs[existing.value]);
      }
      if target == L2 {
        var overlap := Find(jobs, (j: Job) => SharesTurn(j, account, project, evidence.value));
        if overlap.Some? {
          ClashFound(jobs, overlap.value, account, target, project, evidence.value);
          return false, Some(jobs[overlap.value]);
        }
      }
      NoClashFound(jobs, account, target, project, evidence.value);
      var queued := NewJob(next, account, target, project, evidence.value, now);
      enqueued := enqueued + {next};
      next := next + 1;
      jobs := jobs + [queued];
      return true, Some(queued);
    }

    /** What other callers do to the store between two locked phases. */
    method Others(ops: seq<Op>)
      requires Retirement.Inv(Store())
      modifies this
      ensures Store() == Replay(old(Store()), ops)
      ensures Retirement.Inv(Store()) && LeaseFencing.Keeps(old(Store()), Store())
    {
      hide Apply, Retirement.Inv, LeaseFencing.Keeps;
      Retirement.ReplayKeeps(Store(), ops);
      InvFences(Store());
      LeaseFencing.ReplayKeeps(Store(), ops);
      var after := Replay(Store(), ops);
      jobs, next, retiring, issued, enqueued := after.jobs, after.next, after.retiring, after.issued, after.enqueued;
    }

    /**
     quarantineDistillationJobAfterCoreCommit: two separate mutations with others in between.  Once
     the first succeeds the job is an ambiguous failure, nothing done in between changes that, and
     the second mutation finds it so and records the time.
     */
    method QuarantineAfterCoreCommit(account: string, id: JobId, cred: Credential, message: string, committedAt: Option<Stamp>,
                                     between: seq<Op>, now: int) returns (ok: bool)
      requires Retirement.Inv(Store())
      modifies this
      ensures Retirement.Inv(Store())
      ensures ok ==> exists i :: 0 <= i < |jobs| && Quarantined(jobs[i], account, id) && (committedAt.Some? ==> jobs[i].resultCommittedAt == committedAt)
      ensures ok <==>
        exists i :: 0 <= i < |old(jobs)| && IsFirst(old(jobs), account, id, i) && HeldBy(old(jobs)[i], cred) && (cred.token.Some? || InTime(old(jobs)[i], now))
      ensures !ok ==> jobs == old(jobs)
    {
      hide Worked, Retirement.Inv, Apply, LeaseFencing.Keeps, Quarantined, HeldBy, InTime;
      ghost var start := Store();
      var w := FailGeneration(cred, message, AmbiguousCommit, now);
      Retirement.Step(start, OnJob(account, id, w));
      forall i | 0 <= i < |jobs|
        ensures Worked(jobs[i], w).Some? <==> HeldBy(jobs[i], cred) && (cred.token.Some? || InTime(jobs[i], now))
      {
        WorkIsAllowedIff(jobs[i], cred, now);
      }
      var failed := MutateJob(account, id, w);
      if failed.None? { return false; }
      ghost var i := QuarantinedNow(start, account, id, w, Store());
      ghost var before := Store();
      Others(between);
      StaysQuarantined(before, Store(), i, account, id);
      if committedAt.Some? {
        Retirement.Step(Store(), OnJob(account, id, StampQuarantine(committedAt.value)));
        StampSucceeds(Store(), i, account, id, committedAt.value);
        var stamped := MutateJob(account, id, StampQuarantine(committedAt.value));
      }
      return true;
    }

    /**
     recordCompletedDistillationRevision: an equal live revision is returned, otherwise one is
     appended; its id and body are the trimmed ones, which have to be text.
     */
    method RecordCompletedRevision(account: string, target: Target, project: Option<string>, items: seq<Evidence>,
                                   memory: string, body: string, committedAt: int, commit: Option<nat>, coreBody: Option<string>)
      returns (job: Option<Job>)
      modifies this
      ensures Store() == ApplyRecord(old(Store()), Record(account, target, project, items, memory, body, committedAt, commit, coreBody))
      ensures job.Some? <==>
        && target != Skill && (if target == L4 then project == None || project == Some("") else project.Some? && project != Some(""))
        && items != [] && (forall i :: 0 <= i < |items| ==> !Blank(items[i].ref)) && Trim(memory) != "" && Trim(body) != ""
      ensures job.None? ==> jobs == old(jobs)
      ensures job.Some? ==>
        && job.value.account == account && job.value.target == target && job.value.project == project
        && job.value.status == Completed && job.value.retirement.None? && job.value.resultKind == Some(Of(target))
        && job.value.resultId == Some(Trim(memory)) && job.value.resultContent == Some(Trim(body))
        && (commit.Some? ==> job.value.operationId == commit) && job.value.hash == Hash(target, project, Canonical(items))
      ensures job.Some? ==> jobs == old(jobs) || jobs == old(jobs) + [job.value]
      ensures job.Some? && jobs != old(jobs) ==>
        && job.value.evidence == Canonical(items) && job.value.coreBody == coreBody && job.value.resultCommittedAt == Some(Stamp(committedAt, true))
        && forall j :: 0 <= j < |old(jobs)| ==> !SameRevision(old(jobs)[j], account, target, project, Canonical(items), Trim(memory), Trim(body), commit)
      ensures job.Some? ==> job.value in jobs
    {
      hide Canonical, Blank, Trim, SameRevision, ApplyRecord, RevisionJob, RecordAllowed, NewJob;
      var resultId, content := Trim(memory), Trim(body);
      RecordApplies(Store(), Record(account, target, project, items, memory, body, committedAt, commit, coreBody));
      if resultId == "" || content == "" { return None; }
      if target == Skill || (target == L4) != !Text(project) || |items| == 0 { return None; }
      var evidence := Enqueueing.UniqueEvidence(items);
      if evidence.None? { return None; }
      var existing := Find(jobs, (j: Job) => SameRevision(j, account, target, project, evidence.value, resultId, content, commit));
      if existing.Some? {
        SameRevisionMeans(jobs[existing.value], account, target, project, evidence.value, resultId, content, commit);
        return Some(jobs[existing.value]);
      }
      var revision := RevisionJob(next, account, target, project, evidence.value, resultId, content, committedAt, commit, coreBody);
      RevisionMeans(next, account, target, project, evidence.value, resultId, content, committedAt, commit, coreBody);
      jobs := jobs + [revision];
      next := next + 1;
      assert jobs[|jobs| - 1] == revision;
      return Some(revision);
    }

    /**
     The first phase of retireDistillationMemory.  `active` are the places of the revisions it
     marks, `previous` the records of those that were not pending.
     */
    method BeginRetirement(account: string, memory: string, operation: Operation)
      returns (refused: Option<RetireResult>, active: seq<nat>, previous: seq<Job>)
      modifies this
      ensures Store() == ApplyRetireBegin(old(Store()), account, memory, operation)
      ensures refused.Some? ==> jobs == old(jobs)
      ensures refused == Some(Conflict) <==> RetirementLaws.Conflicts(old(jobs), account, memory, operation)
      ensures refused == Some(NothingToDo) <==> RetirementLaws.NothingLeft(old(jobs), account, memory, operation)
      ensures refused.None? || refused.value in {Conflict, NothingToDo}
      ensures refused.None? ==> Increasing(active) && forall i :: i in active <==> 0 <= i < |old(jobs)| && ActiveRevision(old(jobs)[i], account, memory, operation)
      ensures refused.None? ==> forall job :: job in previous <==> job in old(jobs) && Saved(job, account, memory, operation)
    {
      hide ActiveRevision, ActiveIds, PreviousOf, RetireConflict, AllRetired, Retrying, RetirementLaws.Conflicts, RetirementLaws.NothingLeft;
      var generation := next;
      next := next + 1;
      active, previous := [], [];
      RetirementLaws.ConflictIff(jobs, account, memory, operation);
      RetirementLaws.AllRetiredIff(jobs, account, memory, operation);
      RetirementLaws.NothingLeftIsNoConflict(jobs, account, memory, operation);
      ConflictCases(jobs, account, memory, operation);
      if operation == Archived && exists i :: 0 <= i < |jobs| && Clash(jobs[i], account, memory, Deleted) { return Some(Conflict), [], []; }
      if AllRetired(jobs, account, memory, operation) { return Some(NothingToDo), [], []; }
      if exists i :: 0 <= i < |jobs| && PendingOther(jobs[i], account, memory, operation) { return Some(Conflict), [], []; }
      for i := 0 to |jobs|
        modifies {}
        invariant Increasing(active) && forall k :: k in active <==> 0 <= k < i && ActiveRevision(jobs[k], account, memory, operation)
        invariant forall job :: job in previous <==> job in jobs[..i] && Saved(job, account, memory, operation)
      {
        assert jobs[..i + 1] == jobs[..i] + [jobs[i]];
        if ActiveRevision(jobs[i], account, memory, operation) {
          IncreasingAppend(active, i);
          active := active + [i];
          if jobs[i].retirement != Some(RetirementPending) {
            previous := previous + [jobs[i]];
          }
        }
      }
      assert jobs[..|jobs|] == jobs;
      var retrying := Retrying(jobs, account, memory, operation);
      retiring := retiring[generation := Retiring(account, memory, operation, ActiveIds(jobs, account, memory, operation), retrying,
                                                  PreviousOf(jobs, account, memory, operation))];
      MarkRevisions(active, operation, generation);
      assert jobs == ApplyRetireBegin(old(Store()), account, memory, operation).jobs;
      return None, active, previous;
    }

    /** Marks the active revisions, one after the other. */
    method MarkRevisions(active: seq<nat>, operation: Operation, generation: Generation)
      requires Increasing(active) && forall k :: k in active ==> k < |jobs|
      modifies this`jobs
      ensures |jobs| == |old(jobs)|
      ensures forall k :: 0 <= k < |jobs| ==> jobs[k] == if k in active then Mark(old(jobs)[k], operation, generation) else old(jobs)[k]
    {
      for n := 0 to |active|
        invariant |jobs| == |old(jobs)|
        invariant forall k :: 0 <= k < |jobs| ==>
          jobs[k] == if k in active[..n] then Mark(old(jobs)[k], operation, generation) else old(jobs)[k]
      {
        IncreasingAt(active, n, |jobs|);
        var job := jobs[active[n]];
        assert active[n] !in active[..n] by { IncreasingHasNoRepeats(active, n); }
        job := job.(retirement := Some(RetirementPending));
        job := job.(retirementGeneration := Some(generation));
        job := job.(retirementOperation := Some(operation));
        jobs := jobs[active[n] := job];
        assert active[..n + 1] == active[..n] + [active[n]];
      }
      assert active[..|active|] == active;
    }

    /** Core refused: restores the remembered records of the revisions this call still owns. */
    method RollBack(r: Retiring, generation: Generation, previous: seq<Job>)
      requires LeaseFencing.Identities(Store())
      requires KnownPrevious(r, previous)
      modifies this`jobs
      ensures jobs == MapJobs(old(jobs), (job: Job) => RolledBack(job, r, generation))
    {
      hide Owned, RestoredTo, KnownPrevious;
      ghost var before := jobs;
      forall k | 0 <= k < |jobs|
        ensures jobs[k] == RestoredTo([], r, generation, jobs[k])
      {
        NothingRestored(r, generation, jobs[k]);
      }
      assert previous[..0] == [];
      for n := 0 to |previous|
        invariant |jobs| == |before|
        invariant forall k :: 0 <= k < |jobs| ==> jobs[k] == RestoredTo(previous[..n], r, generation, before[k])
      {
        var restored := previous[n];
        var index := Find(jobs, (job: Job) => job.id == restored.id && Owned(job, r, generation));
        ghost var at := jobs;
        if index.Some? {
          jobs := jobs[index.value := restored];
        }
        KnownAt(r, previous, n);
        assert previous[..n + 1] == previous[..n] + [restored];
        forall k | 0 <= k < |at|
          ensures at[k].id == before[k].id
        {
          RestoredKeepsId(previous[..n], r, generation, before[k]);
        }
        forall k | 0 <= k < |jobs|
          ensures jobs[k] == RestoredTo(previous[..n + 1], r, generation, before[k])
        {
          HitAt(before, at, restored.id, r, generation, index, k);
          RestoredElement(previous[..n], restored, r, generation, before[k], at[k], index == Some(k));
        }
      }
      assert previous[..|previous|] == previous;
      forall k | 0 <= k < |jobs|
        ensures jobs[k] == RolledBack(before[k], r, generation)
      {
        RestoredByAll(previous, r, generation, before[k]);
      }
    }

    /** Core confirmed: retires the marked revisions if this call still owns every one of them. */
    method Finalize(r: Retiring, generation: Generation, active: seq<nat>) returns (ok: bool)
      requires LeaseFencing.Identities(Store()) && Increasing(active) && (forall n :: 0 <= n < |active| ==> active[n] < |jobs|)
      requires r.revisions == set n | 0 <= n < |active| :: jobs[active[n]].id
      modifies this`jobs
      ensures ok <==> AllOwned(old(jobs), r, generation)
      ensures jobs == if ok then MapJobs(old(jobs), (job: Job) => Finalized(job, r, generation)) else old(jobs)
    {
      hide Owned;
      var matching: seq<nat> := [];
      for i := 0 to |jobs|
        modifies {}
        invariant Increasing(matching) && forall k :: k in matching <==> 0 <= k < i && Matches(jobs[k], r, generation)
      {
        if jobs[i].id in r.revisions && Owned(jobs[i], r, generation) {
          IncreasingAppend(matching, i);
          matching := matching + [i];
        }
      }
      MatchingIsAll(Store(), r, generation, active, matching);
      if |matching| != |active| { return false; }
      RetireMatching(matching, r.operation);
      return true;
    }

    method RetireMatching(matching: seq<nat>, operation: Operation)
      requires Increasing(matching) && forall k :: k in matching ==> k < |jobs|
      modifies this`jobs
      ensures |jobs| == |old(jobs)|
      ensures forall k :: 0 <= k < |jobs| ==>
        jobs[k] == if k in matching then old(jobs)[k].(retirement := Some(Retired(operation))) else old(jobs)[k]
    {
      for n := 0 to |matching|
        invariant |jobs| == |old(jobs)|
        invariant forall k :: 0 <= k < |jobs| ==>
          jobs[k] == if k in matching[..n] then old(jobs)[k].(retirement := Some(Retired(operation))) else old(jobs)[k]
      {
        IncreasingAt(matching, n, |jobs|);
        assert matching[n] !in matching[..n] by { IncreasingHasNoRepeats(matching, n); }
        assert matching[..n + 1] == matching[..n] + [matching[n]];
        jobs := jobs[matching[n] := jobs[matching[n]].(retirement := Some(Retired(operation)))];
      }
      assert matching[..|matching|] == matching;
    }

    /**
     retireDistillationMemory: mark, let Core act, then finalize or roll back.  `during` is what
     other callers do to the store while Core is at work, and `outcome` how Core answers.
     */
    method RetireDistillationMemory(account: string, memory: string, operation: Operation, during: seq<Op>, outcome: Outcome)
      returns (result: RetireResult)
      requires Retirement.Inv(Store())
      requires forall i :: 0 <= i < |during| ==> !Finishes(during[i], next)
      modifies this
      ensures Retirement.Inv(Store())
      ensures result == Conflict <==> RetirementLaws.Conflicts(old(jobs), account, memory, operation)
      ensures result == NothingToDo <==> RetirementLaws.NothingLeft(old(jobs), account, memory, operation)
      ensures result in {Conflict, NothingToDo} ==> Store() == Apply(old(Store()), RetireBegin(account, memory, operation)) && jobs == old(jobs)
      ensures result !in {Conflict, NothingToDo} ==>
        Store() == Apply(Replay(Apply(old(Store()), RetireBegin(account, memory, operation)), during), RetireFinish(old(next), outcome))
      ensures |old(jobs)| <= |jobs|
      ensures result == WasRetired ==>
        forall i :: 0 <= i < |old(jobs)| && RetirementLaws.Left(old(jobs)[i], account, memory, operation) ==>
          jobs[i].retirement == Some(Retired(operation))
      ensures outcome.CoreDone? ==> result != CoreFailed
      ensures outcome.CoreDone? && during == [] ==> result != GenerationChanged
      ensures result in {WasRetired, GenerationChanged} ==> outcome.CoreDone? || (operation == Deleted && outcome == CoreHttp(404))
    {
      hide Retirement.Inv, LeaseFencing.LeasesInv, LeaseFencing.RetirementsInv, LeaseFencing.Identities, LeaseFencing.JobKeeps, Apply, ApplyRetireBegin,
        RetireConflict, AllRetired, ActiveRevision, AllOwned, Owned, Replay, Saved,
        RetirementLaws.Left, RetirementLaws.Conflicts, RetirementLaws.NothingLeft;
      ghost var s0 := Store();
      var generation := next;
      Retirement.Step(s0, RetireBegin(account, memory, operation));
      var refused, active, previous := BeginRetirement(account, memory, operation);
      BeginIsOp(s0, account, memory, operation);
      RetirementLaws.ConflictIff(s0.jobs, account, memory, operation);
      RetirementLaws.AllRetiredIff(s0.jobs, account, memory, operation);
      RetirementLaws.ActiveIff(s0.jobs, account, memory, operation);
      if refused.Some? { return refused.value; }
      ghost var s1 := Store();
      Retirement.AllMarked(s0, account, memory, operation);
      NoOthers(s1);
      CallBegun(s0, account, memory, operation, active, previous);
      Others(during);
      ghost var s2 := Store();
      CallStillKnown(s1, during, generation);
      KeptPlaces(s1, s2, active);
      InvFences(s2);
      Retirement.Step(s2, RetireFinish(generation, outcome));
      var r := retiring[generation];
      if outcome.CoreDone? || (r.retrying && operation == Deleted && outcome == CoreHttp(404)) {
        var ok := Finalize(r, generation, active);
        retiring := retiring - {generation};
        FinishIsOp(s2, generation, outcome, Store());
        if ok {
          ActiveRetired(s0, s2, active, r, generation, account, memory, operation, jobs);
        }
        return if ok then WasRetired else GenerationChanged;
      }
      if |previous| > 0 && outcome.CoreHttp? && 400 <= outcome.status < 600 {
        RollBack(r, generation, previous);
      }
      retiring := retiring - {generation};
      NonemptyPrevious(r, previous);
      FinishIsOp(s2, generation, outcome, Store());
      return CoreFailed;
    }
  }

  // ---------------------------------------------------------------------------------------
  // Proofs

  predicate IsFirst(jobs: seq<Job>, account: string, id: JobId, i: int)
    requires 0 <= i < |jobs|
  {
    jobs[i].id == id && jobs[i].account == account && forall j :: 0 <= j < i ==> !(jobs[j].id == id && jobs[j].account == account)
  }

  lemma WorkOnFirst(s: State, account: string, id: JobId, i: nat, w: Work)
    requires i < |s.jobs| && IsFirst(s.jobs, account, id, i)
    ensures Apply(s, OnJob(account, id, w)) == if Worked(s.jobs[i], w).None? then s else s.(jobs := s.jobs[i := Worked(s.jobs[i], w).value])
  {
    hide Worked;
    var found := Find(s.jobs, (job: Job) => job.id == id && job.account == account);
    assert found == Some(i);
  }

  lemma NoFirst(s: State, account: string, id: JobId, w: Work)
    requires forall i :: 0 <= i < |s.jobs| ==> !(s.jobs[i].id == id && s.jobs[i].account == account)
    ensures Apply(s, OnJob(account, id, w)) == s
  {
    hide Worked;
    var found := Find(s.jobs, (job: Job) => job.id == id && job.account == account);
  }

  /** What recording a revision does, with the lookup named. */
  lemma RecordApplies(s: State, op: Op)
    requires op.Record?
    ensures var evidence, memory, body := Canonical(op.items), Trim(op.memory), Trim(op.body);
      ApplyRecord(s, op) ==
      if op.target == Skill || op.items == [] || !AllRefsText(op.items) || memory == "" || body == "" || (op.target == L4) == Text(op.project)
        || Find(s.jobs, (job: Job) => SameRevision(job, op.account, op.target, op.project, evidence, memory, body, op.commit)).Some? then s
      else s.(jobs := s.jobs + [RevisionJob(s.next, op.account, op.target, op.project, evidence, memory, body,
                                            op.committedAt, op.commit, op.coreBody)],
              next := s.next + 1)
  {
    hide Canonical, Trim, SameRevision, RevisionJob, AllRefsText;
  }

  lemma SameRevisionMeans(job: Job, account: string, target: Target, project: Option<string>, evidence: seq<Evidence>,
                          memory: string, body: string, commit: Option<nat>)
    ensures SameRevision(job, account, target, project, evidence, memory, body, commit) <==>
      && job.account == account && job.target == target && job.project == project
      && job.status == Completed && job.retirement.None? && job.resultKind == Some(Of(target))
      && job.resultId == Some(memory) && job.resultContent == Some(body)
      && (commit.None? || job.operationId == commit) && job.hash == Hash(target, project, evidence)
  {}

  lemma RevisionMeans(id: JobId, account: string, target: Target, project: Option<string>, evidence: seq<Evidence>,
                      memory: string, body: string, committedAt: int, commit: Option<nat>, coreBody: Option<string>)
    ensures var job := RevisionJob(id, account, target, project, evidence, memory, body, committedAt, commit, coreBody);
      && SameRevision(job, account, target, project, evidence, memory, body, commit)
      && job.account == account && job.target == target && job.project == project
      && job.status == Completed && job.retirement.None? && job.resultKind == Some(Of(target))
      && job.resultId == Some(memory) && job.resultContent == Some(body)
      && job.operationId == commit && job.hash == Hash(target, project, evidence)
      && job.evidence == evidence && job.coreBody == coreBody && job.resultCommittedAt == Some(Stamp(committedAt, true))
  {}

  predicate SameBatch(job: Job, account: string, target: Target, project: Option<string>, evidence: seq<Evidence>) {
    job.account == account && job.target == target && job.project == project && job.hash == Hash(target, project, evidence)
  }

  predicate SharesTurn(job: Job, account: string, project: Option<string>, evidence: seq<Evidence>) {
    job.account == account && job.target == L2 && job.project == project && Overlaps(job, evidence)
  }

  predicate NoBatchFor(jobs: seq<Job>, account: string, target: Target, project: Option<string>, evidence: seq<Evidence>) {
    && Find(jobs, (j: Job) => SameBatch(j, account, target, project, evidence)).None?
    && (target == L2 ==> Find(jobs, (j: Job) => SharesTurn(j, account, project, evidence)).None?)
  }

  /** The job an enqueue answers with: the equal batch, the overlapping one, or the new one. */
  function QueueAnswer(s: State, account: string, target: Target, project: Option<string>, evidence: seq<Evidence>, now: int): Job {
    var existing := Find(s.jobs, (j: Job) => SameBatch(j, account, target, project, evidence));
    var overlap := Find(s.jobs, (j: Job) => SharesTurn(j, account, project, evidence));
    if existing.Some? then s.jobs[existing.value]
    else if target == L2 && overlap.Some? then s.jobs[overlap.value]
    else NewJob(s.next, account, target, project, evidence, now)
  }

  lemma ClashFound(jobs: seq<Job>, i: nat, account: string, target: Target, project: Option<string>, evidence: seq<Evidence>)
    requires i < |jobs|
    requires SameBatch(jobs[i], account, target, project, evidence) || (target == L2 && SharesTurn(jobs[i], account, project, evidence))
    ensures Clashes(jobs[i], account, target, project, evidence) && jobs[i] in jobs
    ensures Find(jobs, (job: Job) => Clashes(job, account, target, project, evidence)).Some?
  {
    hide Overlaps;
    var found := Find(jobs, (job: Job) => Clashes(job, account, target, project, evidence));
  }

  lemma NoClashFound(jobs: seq<Job>, account: string, target: Target, project: Option<string>, evidence: seq<Evidence>)
    requires forall i :: 0 <= i < |jobs| ==> !SameBatch(jobs[i], account, target, project, evidence)
    requires target == L2 ==> forall i :: 0 <= i < |jobs| ==> !SharesTurn(jobs[i], account, project, evidence)
    ensures Find(jobs, (job: Job) => Clashes(job, account, target, project, evidence)).None?
  {
    hide Overlaps;
    var found := Find(jobs, (job: Job) => Clashes(job, account, target, project, evidence));
    if found.Some? {
      NoClash(jobs[found.value], account, target, project, evidence);
    }
  }

  lemma NoClash(job: Job, account: string, target: Target, project: Option<string>, evidence: seq<Evidence>)
    requires !SameBatch(job, account, target, project, evidence) && (target == L2 ==> !SharesTurn(job, account, project, evidence))
    ensures !Clashes(job, account, target, project, evidence)
  {
  }

  predicate HasBatch(jobs: seq<Job>, account: string, target: Target, project: Option<string>, evidence: seq<Evidence>) {
    exists i :: 0 <= i < |jobs| && SameBatch(jobs[i], account, target, project, evidence)
  }

  lemma WorkedKeepsIdentity(job: Job, w: Work)
    ensures Worked(job, w).Some? ==> Worked(job, w).value.id == job.id && Worked(job, w).value.account == job.account
  {
  }

  lemma InvFences(s: State)
    requires Retirement.Inv(s)
    ensures LeaseFencing.Inv(s)
  {
  }

  ghost predicate Quarantined(job: Job, account: string, id: JobId) {
    job.id == id && job.account == account && job.status == Failed && job.failureKind == Some(AmbiguousCommit)
  }

  lemma QuarantinedNow(s: State, account: string, id: JobId, w: Work, t: State) returns (i: nat)
    requires w.FailGeneration? && w.failureKind == AmbiguousCommit && t == Apply(s, OnJob(account, id, w))
    requires exists i :: 0 <= i < |s.jobs| && IsFirst(s.jobs, account, id, i) && Worked(s.jobs[i], w).Some?
    ensures i < |t.jobs| && Quarantined(t.jobs[i], account, id)
  {
    var found := Find(s.jobs, (job: Job) => job.id == id && job.account == account);
    i :| 0 <= i < |s.jobs| && IsFirst(s.jobs, account, id, i) && Worked(s.jobs[i], w).Some?;
    assert found == Some(i);
  }

  lemma StaysQuarantined(s: State, t: State, i: nat, account: string, id: JobId)
    requires LeaseFencing.Keeps(s, t) && i < |s.jobs| && Quarantined(s.jobs[i], account, id)
    ensures i < |t.jobs| && Quarantined(t.jobs[i], account, id)
  {
    assert LeaseFencing.JobKeeps(s.jobs[i], t.jobs[i]);
  }

  lemma StampSucceeds(s: State, i: nat, account: string, id: JobId, committedAt: Stamp)
    requires Retirement.Inv(s) && i < |s.jobs| && Quarantined(s.jobs[i], account, id)
    ensures var t := Apply(s, OnJob(account, id, StampQuarantine(committedAt)));
      i < |t.jobs| && Quarantined(t.jobs[i], account, id) && t.jobs[i].resultCommittedAt == Some(committedAt)
  {
    hide LeaseFencing.LeasesInv, LeaseFencing.RetirementsInv, Retirement.PendingInv;
    var found := Find(s.jobs, (job: Job) => job.id == id && job.account == account);
    assert found == Some(i);
  }

  predicate Increasing(s: seq<nat>) {
    forall i, j :: 0 <= i < j < |s| ==> s[i] < s[j]
  }

  lemma IncreasingHasNoRepeats(s: seq<nat>, n: nat)
    requires Increasing(s) && n < |s|
    ensures s[n] !in s[..n]
  {
  }

  predicate Saved(job: Job, account: string, memory: string, operation: Operation) {
    ActiveRevision(job, account, memory, operation) && job.retirement != Some(RetirementPending)
  }

  predicate Clash(job: Job, account: string, memory: string, operation: Operation) {
    IsRevision(job, account, memory) && job.retirement == Some(Retired(operation))
  }

  predicate PendingOther(job: Job, account: string, memory: string, operation: Operation) {
    && IsRevision(job, account, memory) && job.retirement == Some(RetirementPending)
    && job.retirementOperation.Some? && job.retirementOperation != Some(operation)
  }

  function Mark(job: Job, operation: Operation, generation: Generation): Job {
    job.(retirement := Some(RetirementPending), retirementGeneration := Some(generation), retirementOperation := Some(operation))
  }

  /** The three checks in their order throw exactly on a conflict. */
  lemma ConflictCases(jobs: seq<Job>, account: string, memory: string, operation: Operation)
    ensures RetireConflict(jobs, account, memory, operation) <==>
      || (operation == Archived && exists i :: 0 <= i < |jobs| && Clash(jobs[i], account, memory, Deleted))
      || (exists i :: 0 <= i < |jobs| && PendingOther(jobs[i], account, memory, operation))
    ensures AllRetired(jobs, account, memory, operation) ==>
      forall i :: 0 <= i < |jobs| ==> !PendingOther(jobs[i], account, memory, operation)
  {
    if RetireConflict(jobs, account, memory, operation) {
      var i :| 0 <= i < |jobs| && IsRevision(jobs[i], account, memory) &&
        ((operation == Archived && jobs[i].retirement == Some(Retired(Deleted)))
         || (jobs[i].retirement == Some(RetirementPending) && jobs[i].retirementOperation.Some?
             && jobs[i].retirementOperation != Some(operation)));
      assert (operation == Archived && Clash(jobs[i], account, memory, Deleted)) || PendingOther(jobs[i], account, memory, operation);
    }
  }

  predicate RestoredBy(previous: seq<Job>, job: Job) {
    exists n :: 0 <= n < |previous| && previous[n].id == job.id
  }

  /** What a job is after the records in `previous` have been restored. */
  function RestoredTo(previous: seq<Job>, r: Retiring, g: Generation, job: Job): Job {
    if RestoredBy(previous, job) && Owned(job, r, g) && job.id in r.previous then r.previous[job.id] else job
  }

  lemma KnownAt(r: Retiring, previous: seq<Job>, n: nat)
    requires KnownPrevious(r, previous) && n < |previous|
    ensures previous[n].id in r.previous && r.previous[previous[n].id] == previous[n]
    ensures forall id :: id in r.previous ==> r.previous[id].id == id
  {
    assert previous[n] in previous;
  }

  lemma NothingRestored(r: Retiring, g: Generation, job: Job)
    ensures RestoredTo([], r, g, job) == job
  {
  }

  lemma RestoredByAll(previous: seq<Job>, r: Retiring, g: Generation, job: Job)
    requires KnownPrevious(r, previous)
    ensures RestoredTo(previous, r, g, job) == RolledBack(job, r, g)
  {
    hide Owned;
    if job.id in r.previous {
      assert r.previous[job.id] in previous;
    }
    if RestoredBy(previous, job) {
      var n :| 0 <= n < |previous| && previous[n].id == job.id;
      assert previous[n] in previous;
    }
  }

  lemma RestoredMore(previous: seq<Job>, restored: Job, r: Retiring, g: Generation, job: Job)
    requires restored.id in r.previous && r.previous[restored.id] == restored
    ensures job.id != restored.id ==> RestoredTo(previous + [restored], r, g, job) == RestoredTo(previous, r, g, job)
    ensures job.id == restored.id && Owned(job, r, g) ==> RestoredTo(previous + [restored], r, g, job) == restored
    ensures !Owned(job, r, g) ==> RestoredTo(previous + [restored], r, g, job) == job
    ensures RestoredTo(previous, r, g, job) == job || (job.id in r.previous && Owned(job, r, g) && RestoredTo(previous, r, g, job) == r.previous[job.id])
  {
    hide Owned, RestoredBy;
    RestoredByOneMore(previous, restored, job);
  }

  /** One round of the rollback loop, seen at one place: `hit` tells whether the search stops there. */
  lemma RestoredElement(previous: seq<Job>, restored: Job, r: Retiring, g: Generation, before: Job, at: Job, hit: bool)
    requires restored.id in r.previous && r.previous[restored.id] == restored
    requires at == RestoredTo(previous, r, g, before) && at.id == before.id
    requires hit <==> at.id == restored.id && Owned(at, r, g)
    ensures (if hit then restored else at) == RestoredTo(previous + [restored], r, g, before)
  {
    hide Owned, RestoredTo;
    RestoredMore(previous, restored, r, g, before);
  }

  lemma RestoredKeepsId(previous: seq<Job>, r: Retiring, g: Generation, job: Job)
    requires forall id :: id in r.previous ==> r.previous[id].id == id
    ensures RestoredTo(previous, r, g, job).id == job.id
  {
  }

  /** Ids are unique, so the search can stop at one place only. */
  lemma HitAt(before: seq<Job>, at: seq<Job>, id: JobId, r: Retiring, g: Generation, index: Option<nat>, k: nat)
    requires |at| == |before| && k < |before|
    requires forall i, j :: 0 <= i < j < |before| ==> before[i].id != before[j].id
    requires forall i :: 0 <= i < |at| ==> at[i].id == before[i].id
    requires index == Find(at, (job: Job) => job.id == id && Owned(job, r, g))
    ensures index == Some(k) <==> at[k].id == id && Owned(at[k], r, g)
  {
    hide Owned;
    if index.Some? && index.value != k {
      assert before[index.value].id != before[k].id;
    }
  }

  lemma RestoredByOneMore(previous: seq<Job>, restored: Job, job: Job)
    ensures RestoredBy(previous + [restored], job) <==> RestoredBy(previous, job) || restored.id == job.id
  {
    if RestoredBy(previous, job) {
      var n :| 0 <= n < |previous| && previous[n].id == job.id;
      assert (previous + [restored])[n].id == job.id;
    }
    assert (previous + [restored])[|previous|] == restored;
  }

  predicate Matches(job: Job, r: Retiring, generation: Generation) {
    job.id in r.revisions && Owned(job, r, generation)
  }

  lemma {:induction false} SubsetOfSameLength(a: seq<nat>, b: seq<nat>)
    requires Increasing(a) && Increasing(b) && (forall x :: x in a ==> x in b)
    ensures |a| <= |b|
    ensures |a| == |b| <==> forall x :: x in b ==> x in a
  {
    if |a| == 0 {
      if |b| > 0 { assert b[0] in b; }
    } else {
      assert a[0] in b;
      var i :| 0 <= i < |b| && b[i] == a[0];
      var rest := b[i + 1..];
      forall x | x in a[1..]
        ensures x in rest
      {
        assert x in a && x in b;
        var j :| 0 <= j < |b| && b[j] == x;
        assert b[j] > b[i];
      }
      SubsetOfSameLength(a[1..], rest);
      assert a == [a[0]] + a[1..];
      if |a| == |b| {
        assert b == [a[0]] + rest;
      }
      if forall x :: x in b ==> x in a {
        NothingBelow(a, b, i);
        TailIncluded(a, b);
      }
    }
  }

  lemma TailIncluded(a: seq<nat>, b: seq<nat>)
    requires Increasing(b) && |a| > 0 && |b| > 0 && a[0] == b[0] && forall x :: x in b ==> x in a
    ensures forall x :: x in b[1..] ==> x in a[1..]
  {
    forall x | x in b[1..]
      ensures x in a[1..]
    {
      assert x in b;
      var j :| 0 <= j < |a| && a[j] == x;
    }
  }

  lemma NothingBelow(a: seq<nat>, b: seq<nat>, i: nat)
    requires Increasing(a) && Increasing(b) && |a| > 0 && i < |b| && b[i] == a[0] && forall x :: x in b ==> x in a
    ensures i == 0
  {
    assert b[0] in a;
    var j :| 0 <= j < |a| && a[j] == b[0];
  }

  lemma IncreasingAppend(s: seq<nat>, i: nat)
    requires Increasing(s) && forall k :: k in s ==> k < i
    ensures Increasing(s + [i]) && forall k :: k in s + [i] <==> k in s || k == i
  {
    var t := s + [i];
    forall m, n | 0 <= m < n < |t|
      ensures t[m] < t[n]
    {
      assert t[m] == s[m] && s[m] in s;
    }
  }

  lemma IncreasingAt(s: seq<nat>, n: nat, bound: nat)
    requires n < |s| && forall k :: k in s ==> k < bound
    ensures s[n] < bound && s[n] in s
  {
    assert s[n] in s;
  }

  /** Counting the matching revisions tells whether the call owns all it marked. */
  lemma MatchingIsAll(s: State, r: Retiring, g: Generation, active: seq<nat>, matching: seq<nat>)
    requires LeaseFencing.Identities(s) && Increasing(active) && (forall n :: 0 <= n < |active| ==> active[n] < |s.jobs|)
    requires r.revisions == set n | 0 <= n < |active| :: s.jobs[active[n]].id
    requires Increasing(matching) && forall k :: k in matching <==> 0 <= k < |s.jobs| && Matches(s.jobs[k], r, g)
    ensures |matching| == |active| <==> AllOwned(s.jobs, r, g)
  {
    hide Owned;
    forall k | k in matching
      ensures k in active
    {
      var n :| 0 <= n < |active| && s.jobs[active[n]].id == s.jobs[k].id;
      assert active[n] == k;
    }
    SubsetOfSameLength(matching, active);
    if AllOwned(s.jobs, r, g) {
      forall k | k in active
        ensures k in matching
      {
        assert s.jobs[k].id in r.revisions;
        Retirement.OwnedAt(s, r, g, k);
      }
    }
    if forall k :: k in active ==> k in matching {
      OwnsAll(s, r, g, active);
    }
  }

  lemma OwnsAll(s: State, r: Retiring, g: Generation, active: seq<nat>)
    requires forall n :: 0 <= n < |active| ==> active[n] < |s.jobs|
    requires r.revisions == set n | 0 <= n < |active| :: s.jobs[active[n]].id
    requires forall k :: k in active ==> k < |s.jobs| && Matches(s.jobs[k], r, g)
    ensures AllOwned(s.jobs, r, g)
  {
    forall id | id in r.revisions
      ensures exists i :: 0 <= i < |s.jobs| && s.jobs[i].id == id && Owned(s.jobs[i], r, g)
    {
      var n :| 0 <= n < |active| && s.jobs[active[n]].id == id;
      assert active[n] in active;
      assert Matches(s.jobs[active[n]], r, g);
    }
  }

  predicate Finishes(op: Op, generation: Generation) {
    op.RetireFinish? && op.generation == generation
  }

  lemma NoOthers(s: State)
    ensures Replay(s, []) == s
  {
  }

  lemma BeginIsOp(s: State, account: string, memory: string, operation: Operation)
    ensures Apply(s, RetireBegin(account, memory, operation)) == ApplyRetireBegin(s, account, memory, operation)
  {
    hide ApplyRetireBegin;
  }

  ghost predicate KnownPrevious(r: Retiring, previous: seq<Job>) {
    && (forall job :: job in previous <==> job.id in r.previous && r.previous[job.id] == job)
    && (forall id :: id in r.previous ==> r.previous[id].id == id)
  }

  /** What the machine remembers of a call is what the call itself holds. */
  lemma CallBegun(s: State, account: string, memory: string, operation: Operation, active: seq<nat>, previous: seq<Job>)
    requires Retirement.Inv(s) && !RetireConflict(s.jobs, account, memory, operation) && !AllRetired(s.jobs, account, memory, operation)
    requires Increasing(active) && forall i :: i in active <==> 0 <= i < |s.jobs| && ActiveRevision(s.jobs[i], account, memory, operation)
    requires forall job :: job in previous <==> job in s.jobs && Saved(job, account, memory, operation)
    ensures var t := ApplyRetireBegin(s, account, memory, operation);
      && s.next in t.retiring && s.next < t.next && |t.jobs| == |s.jobs|
      && t.retiring[s.next].operation == operation
      && (forall n :: 0 <= n < |active| ==> active[n] < |t.jobs|)
      && t.retiring[s.next].revisions == (set n | 0 <= n < |active| :: t.jobs[active[n]].id)
      && KnownPrevious(t.retiring[s.next], previous)
  {
    hide RetireConflict, AllRetired, ActiveRevision, Retrying, LeaseFencing.LeasesInv, LeaseFencing.RetirementsInv, Retirement.PendingInv;
    var t := ApplyRetireBegin(s, account, memory, operation);
    var r := t.retiring[s.next];
    forall n | 0 <= n < |active|
      ensures active[n] < |s.jobs| && ActiveRevision(s.jobs[active[n]], account, memory, operation)
    {
      assert active[n] in active;
    }
    forall id | id in r.revisions
      ensures exists n :: 0 <= n < |active| && t.jobs[active[n]].id == id
    {
      var i :| 0 <= i < |s.jobs| && ActiveRevision(s.jobs[i], account, memory, operation) && s.jobs[i].id == id;
      assert i in active;
      var n :| 0 <= n < |active| && active[n] == i;
    }
    LeaseFencing.PreviousHolds(s.jobs, account, memory, operation);
    forall job
      ensures job in previous <==> job.id in r.previous && r.previous[job.id] == job
    {
      if job in previous {
        var i :| 0 <= i < |s.jobs| && s.jobs[i] == job;
        Retirement.PreviousAt(s.jobs, account, memory, operation, i);
      }
    }
  }

  lemma {:induction false} CallStillKnown(s: State, ops: seq<Op>, g: Generation)
    requires Retirement.Inv(s) && g in s.retiring && forall i :: 0 <= i < |ops| ==> !Finishes(ops[i], g)
    ensures g in Replay(s, ops).retiring && Replay(s, ops).retiring[g] == s.retiring[g]
    decreases |ops|
  {
    hide Retirement.Inv, Apply;
    if |ops| > 0 {
      Retirement.Step(s, ops[0]);
      CallStillKnownStep(s, ops[0], g);
      CallStillKnown(Apply(s, ops[0]), ops[1..], g);
    }
  }

  lemma CallStillKnownStep(s: State, op: Op, g: Generation)
    requires Retirement.Inv(s) && g in s.retiring && !Finishes(op, g)
    ensures g in Apply(s, op).retiring && Apply(s, op).retiring[g] == s.retiring[g]
  {
    hide Canonical, Clashes, SameRevision, AllRefsText, RecordAllowed, Leasable, Worked, RetireConflict, AllRetired, AllOwned,
      Retrying, PreviousOf, ActiveIds, Finalizes, RollsBack, LeaseFencing.LeasesInv, LeaseFencing.RetirementsInv, Retirement.PendingInv;
  }

  lemma KeptPlaces(s: State, t: State, active: seq<nat>)
    requires LeaseFencing.Keeps(s, t) && forall n :: 0 <= n < |active| ==> active[n] < |s.jobs|
    ensures |s.jobs| <= |t.jobs| && forall n :: 0 <= n < |active| ==> active[n] < |t.jobs| && t.jobs[active[n]].id == s.jobs[active[n]].id
    ensures (set n | 0 <= n < |active| :: t.jobs[active[n]].id) == (set n | 0 <= n < |active| :: s.jobs[active[n]].id)
  {
    forall n | 0 <= n < |active|
      ensures active[n] < |t.jobs| && t.jobs[active[n]].id == s.jobs[active[n]].id
    {
      assert LeaseFencing.JobKeeps(s.jobs[active[n]], t.jobs[active[n]]);
    }
  }

  lemma FinishIsOp(s: State, g: Generation, outcome: Outcome, t: State)
    requires g in s.retiring && t.retiring == s.retiring - {g} && t.next == s.next && t.issued == s.issued && t.enqueued == s.enqueued
    requires var r := s.retiring[g];
      && (Finalizes(r, outcome) ==>
            t.jobs == if AllOwned(s.jobs, r, g) then MapJobs(s.jobs, (job: Job) => Finalized(job, r, g)) else s.jobs)
      && (!Finalizes(r, outcome) && RollsBack(r, outcome) ==> t.jobs == MapJobs(s.jobs, (job: Job) => RolledBack(job, r, g)))
      && (!Finalizes(r, outcome) && !RollsBack(r, outcome) ==> t.jobs == s.jobs)
    ensures t == Apply(s, RetireFinish(g, outcome))
  {
    hide AllOwned, Finalizes, RollsBack, Finalized, RolledBack;
    var u := Apply(s, RetireFinish(g, outcome));
    assert |t.jobs| == |u.jobs| && forall k :: 0 <= k < |t.jobs| ==> t.jobs[k] == u.jobs[k];
  }

  lemma NonemptyPrevious(r: Retiring, previous: seq<Job>)
    requires KnownPrevious(r, previous)
    ensures |previous| > 0 <==> r.previous != map[]
  {
    if |previous| > 0 {
      assert previous[0] in previous;
    }
    if r.previous != map[] {
      var id :| id in r.previous;
      assert r.previous[id] in previous;
    }
  }

  lemma ActiveRetired(s0: State, s2: State, active: seq<nat>, r: Retiring, g: Generation,
                      account: string, memory: string, operation: Operation, jobs: seq<Job>)
    requires |s0.jobs| <= |s2.jobs| && LeaseFencing.Identities(s2) && AllOwned(s2.jobs, r, g) && r.operation == operation
    requires forall i :: i in active <==> 0 <= i < |s0.jobs| && ActiveRevision(s0.jobs[i], account, memory, operation)
    requires (forall n :: 0 <= n < |active| ==> active[n] < |s2.jobs|) && r.revisions == set n | 0 <= n < |active| :: s2.jobs[active[n]].id
    requires jobs == MapJobs(s2.jobs, (job: Job) => Finalized(job, r, g))
    ensures forall i :: 0 <= i < |s0.jobs| && ActiveRevision(s0.jobs[i], account, memory, operation) ==>
      jobs[i].retirement == Some(Retired(operation))
  {
    hide ActiveRevision, AllOwned;
    forall i | 0 <= i < |s0.jobs| && ActiveRevision(s0.jobs[i], account, memory, operation)
      ensures jobs[i].retirement == Some(Retired(operation))
    {
      assert i in active;
      var n :| 0 <= n < |active| && active[n] == i;
      assert s2.jobs[active[n]].id in r.revisions;
      Retirement.OwnedAt(s2, r, g, i);
    }
  }
}
