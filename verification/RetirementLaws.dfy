/**
 What retireDistillationMemory of src/distillation-jobs.ts does, revision by revision: when a call is
 refused, which jobs it touches, and how a deletion that Core left unanswered is brought to its end.
 */
module RetirementLaws {
  import opened Common
  import opened JobLedger
  import LeaseFencing
  import opened Retirement

  /** A completed result of the account that is stored under this memory id. */
  predicate OfMemory(job: Job, account: string, memory: string) {
    job.account == account && job.status == Completed && job.resultId == Some(memory)
  }

  /** Deleted for good while the call wants to archive, or still pending under the other operation. */
  predicate InTheWay(job: Job, operation: Operation) {
    || (operation == Archived && job.retirement == Some(Retired(Deleted)))
    || (job.retirement == Some(RetirementPending) && job.retirementOperation.Some? && job.retirementOperation.value != operation)
  }

  predicate Done(job: Job, operation: Operation) {
    job.retirement == Some(Retired(operation))
  }

  /** A revision the call has to retire. */
  predicate Left(job: Job, account: string, memory: string, operation: Operation) {
    OfMemory(job, account, memory) && !Done(job, operation)
  }

  /** Some revision is in the way. */
  ghost predicate Conflicts(jobs: seq<Job>, account: string, memory: string, operation: Operation) {
    exists job :: job in jobs && OfMemory(job, account, memory) && InTheWay(job, operation)
  }

  /** There are revisions, and all of them are retired this way. */
  ghost predicate NothingLeft(jobs: seq<Job>, account: string, memory: string, operation: Operation) {
    && (exists job :: job in jobs && OfMemory(job, account, memory))
    && (forall job :: job in jobs && OfMemory(job, account, memory) ==> Done(job, operation))
  }

  // ---------------------------------------------------------------------------------------
  // Which calls begin, and what they touch

  lemma ConflictIff(jobs: seq<Job>, account: string, memory: string, operation: Operation)
    ensures RetireConflict(jobs, account, memory, operation) <==> Conflicts(jobs, account, memory, operation)
  {
    if RetireConflict(jobs, account, memory, operation) {
      var i :| 0 <= i < |jobs| && IsRevision(jobs[i], account, memory) &&
        ((operation == Archived && jobs[i].retirement == Some(Retired(Deleted)))
         || (jobs[i].retirement == Some(RetirementPending) && jobs[i].retirementOperation.Some?
             && jobs[i].retirementOperation != Some(operation)));
      assert jobs[i] in jobs && OfMemory(jobs[i], account, memory) && InTheWay(jobs[i], operation);
    }
  }

  lemma AllRetiredIff(jobs: seq<Job>, account: string, memory: string, operation: Operation)
    ensures AllRetired(jobs, account, memory, operation) <==> NothingLeft(jobs, account, memory, operation)
  {
    forall i | 0 <= i < |jobs|
      ensures jobs[i] in jobs && (OfMemory(jobs[i], account, memory) <==> IsRevision(jobs[i], account, memory))
    {
    }
  }

  lemma NothingLeftIsNoConflict(jobs: seq<Job>, account: string, memory: string, operation: Operation)
    ensures !(NothingLeft(jobs, account, memory, operation) && Conflicts(jobs, account, memory, operation))
  {
  }

  lemma ActiveIff(jobs: seq<Job>, account: string, memory: string, operation: Operation)
    ensures forall i :: 0 <= i < |jobs| ==>
      (ActiveRevision(jobs[i], account, memory, operation) <==> Left(jobs[i], account, memory, operation))
  {
  }

  /** Exactly the memory's revisions that are not retired this way yet become pending, under the new generation. */
  lemma BeginMarks(s: State, account: string, memory: string, operation: Operation, i: nat)
    requires i < |s.jobs|
    requires forall job :: job in s.jobs && OfMemory(job, account, memory) ==> !InTheWay(job, operation)
    ensures var t := Apply(s, RetireBegin(account, memory, operation));
      && |t.jobs| == |s.jobs|
      && t.jobs[i] ==
         if Left(s.jobs[i], account, memory, operation)
         then s.jobs[i].(retirement := Some(RetirementPending), retirementGeneration := Some(s.next), retirementOperation := Some(operation))
         else s.jobs[i]
  {
    hide RetireConflict, AllRetired, ActiveIds, Retrying, PreviousOf;
    ConflictIff(s.jobs, account, memory, operation);
    AllRetiredIff(s.jobs, account, memory, operation);
    assert s.jobs[i] in s.jobs;
  }

  /** The end of a call touches only what is still pending under its own generation. */
  lemma FinishSparesOthers(s: State, generation: Generation, outcome: Outcome, i: nat)
    requires i < |s.jobs| && !(s.jobs[i].retirement == Some(RetirementPending) && s.jobs[i].retirementGeneration == Some(generation))
    ensures var t := Apply(s, RetireFinish(generation, outcome)); |t.jobs| == |s.jobs| && t.jobs[i] == s.jobs[i]
  {
    hide AllOwned, Finalizes, RollsBack;
  }

  // ---------------------------------------------------------------------------------------
  // A call that Core left unanswered

  /** A whole call with nothing in between. */
  function Called(s: State, account: string, memory: string, operation: Operation, outcome: Outcome): State {
    Apply(Apply(s, RetireBegin(account, memory, operation)), RetireFinish(s.next, outcome))
  }

  /** Nothing is in the way of the call, and there is something to retire. */
  predicate Begins(jobs: seq<Job>, account: string, memory: string, operation: Operation) {
    && (forall job :: job in jobs && OfMemory(job, account, memory) ==> !InTheWay(job, operation))
    && (exists job :: job in jobs && Left(job, account, memory, operation))
  }

  lemma BeginsIff(jobs: seq<Job>, account: string, memory: string, operation: Operation)
    ensures Begins(jobs, account, memory, operation) ==>
      !RetireConflict(jobs, account, memory, operation) && !AllRetired(jobs, account, memory, operation)
  {
    hide RetireConflict, AllRetired, InTheWay, OfMemory, Done;
    ConflictIff(jobs, account, memory, operation);
    AllRetiredIff(jobs, account, memory, operation);
  }

  /** Without an answer the marks stay. */
  lemma SilenceLeavesMarks(s: State, account: string, memory: string, operation: Operation, i: nat)
    requires Begins(s.jobs, account, memory, operation) && i < |s.jobs|
    ensures var t := Called(s, account, memory, operation, CoreSilent);
      |t.jobs| == |s.jobs| && t.jobs[i] == Apply(s, RetireBegin(account, memory, operation)).jobs[i]
  {
    hide RetireConflict, AllRetired, ActiveIds, Retrying, PreviousOf, Begins;
    BeginsIff(s.jobs, account, memory, operation);
    AllMarked(s, account, memory, operation);
    FinishAt(Apply(s, RetireBegin(account, memory, operation)), s.next, CoreSilent, i);
  }

  /** After such a call exactly the same operation can be called again. */
  lemma OnlyTheSameAgain(s: State, account: string, memory: string, operation: Operation, again: Operation)
    requires Begins(s.jobs, account, memory, operation)
    ensures Begins(Called(s, account, memory, operation, CoreSilent).jobs, account, memory, again) <==> again == operation
  {
    hide Apply;
    var t := Called(s, account, memory, operation, CoreSilent);
    forall i | 0 <= i < |s.jobs|
      ensures |t.jobs| == |s.jobs| && t.jobs[i] ==
         if Left(s.jobs[i], account, memory, operation)
         then s.jobs[i].(retirement := Some(RetirementPending), retirementGeneration := Some(s.next), retirementOperation := Some(operation))
         else s.jobs[i]
    {
      SilenceLeavesMarks(s, account, memory, operation, i);
      BeginMarks(s, account, memory, operation, i);
    }
    var job :| job in s.jobs && Left(job, account, memory, operation);
    var k :| 0 <= k < |s.jobs| && s.jobs[k] == job;
    assert t.jobs[k] in t.jobs;
  }

  /**
   A deletion Core never answered ends when it is called again, even if Core then no longer finds
   the memory; for an archival that answer settles nothing, and a first call takes it as a refusal.
   */
  lemma {:induction false} RetriedDeletionEnds(s: State, account: string, memory: string, operation: Operation, i: nat)
    requires Inv(s) && Begins(s.jobs, account, memory, operation)
    requires i < |s.jobs| && OfMemory(s.jobs[i], account, memory)
    ensures var t := Called(Called(s, account, memory, operation, CoreSilent), account, memory, operation, CoreHttp(404));
      && |t.jobs| == |s.jobs|
      && (operation == Deleted ==> t.jobs[i].retirement == Some(Retired(Deleted)))
      && (operation == Archived ==>
            t.jobs[i].retirement == if Done(s.jobs[i], Archived) then Some(Retired(Archived)) else Some(RetirementPending))
  {
    hide Inv, Apply, Begins, RetireConflict, AllRetired, Finalizes, RollsBack, Retrying;
    var a := Called(s, account, memory, operation, CoreSilent);
    var b := Apply(a, RetireBegin(account, memory, operation));
    OnlyTheSameAgain(s, account, memory, operation, operation);
    BeginsIff(a.jobs, account, memory, operation);
    RetryIsKnown(s, account, memory, operation);
    AllMarked(a, account, memory, operation);
    SilenceLeavesMarks(s, account, memory, operation, i);
    MarksAt(s, account, memory, operation, i);
    MarksAt(a, account, memory, operation, i);
    FinishAt(b, a.next, CoreHttp(404), i);
    EndOfRetry(b.retiring[a.next], operation);
    if !Done(s.jobs[i], operation) {
      assert ActiveRevision(a.jobs[i], account, memory, operation);
      MarkedIsOwned(a.jobs[i], account, memory, operation, a.next, b.retiring[a.next]);
    }
  }

  lemma EndOfRetry(r: Retiring, operation: Operation)
    requires r.retrying && r.previous == map[] && r.operation == operation
    ensures Finalizes(r, CoreHttp(404)) <==> operation == Deleted
    ensures !RollsBack(r, CoreHttp(404))
  {
  }

  lemma MarksAt(s: State, account: string, memory: string, operation: Operation, i: nat)
    requires Begins(s.jobs, account, memory, operation) && i < |s.jobs|
    ensures var t := Apply(s, RetireBegin(account, memory, operation));
      && |t.jobs| == |s.jobs|
      && t.jobs[i] ==
         if Left(s.jobs[i], account, memory, operation)
         then s.jobs[i].(retirement := Some(RetirementPending), retirementGeneration := Some(s.next), retirementOperation := Some(operation))
         else s.jobs[i]
  {
    BeginMarks(s, account, memory, operation, i);
  }

  /** The second call knows that it retries, and has nothing to restore. */
  lemma RetryIsKnown(s: State, account: string, memory: string, operation: Operation)
    requires Begins(s.jobs, account, memory, operation)
    ensures var a := Called(s, account, memory, operation, CoreSilent);
      var b := Apply(a, RetireBegin(account, memory, operation));
      a.next in b.retiring && b.retiring[a.next].retrying && b.retiring[a.next].previous == map[]
  {
    hide Apply, RetireConflict, AllRetired, ActiveIds;
    var a := Called(s, account, memory, operation, CoreSilent);
    forall i | 0 <= i < |a.jobs| && ActiveRevision(a.jobs[i], account, memory, operation)
      ensures a.jobs[i].retirement == Some(RetirementPending) && a.jobs[i].retirementOperation == Some(operation)
    {
      AsLong(s, account, memory, operation);
      SilenceLeavesMarks(s, account, memory, operation, i);
      MarksAt(s, account, memory, operation, i);
    }
    OnlyTheSameAgain(s, account, memory, operation, operation);
    BeginsIff(a.jobs, account, memory, operation);
    var job :| job in a.jobs && Left(job, account, memory, operation);
    var k :| 0 <= k < |a.jobs| && a.jobs[k] == job;
    assert ActiveRevision(a.jobs[k], account, memory, operation);
    NothingToRestore(a.jobs, account, memory, operation);
    BegunAs(a, account, memory, operation);
  }

  lemma AsLong(s: State, account: string, memory: string, operation: Operation)
    requires Begins(s.jobs, account, memory, operation)
    ensures |Called(s, account, memory, operation, CoreSilent).jobs| == |s.jobs|
  {
    hide Apply;
    var job :| job in s.jobs && Left(job, account, memory, operation);
    var k :| 0 <= k < |s.jobs| && s.jobs[k] == job;
    SilenceLeavesMarks(s, account, memory, operation, k);
  }

  lemma BegunAs(s: State, account: string, memory: string, operation: Operation)
    requires !RetireConflict(s.jobs, account, memory, operation) && !AllRetired(s.jobs, account, memory, operation)
    ensures var b := Apply(s, RetireBegin(account, memory, operation));
      && s.next in b.retiring && b.retiring[s.next].retrying == Retrying(s.jobs, account, memory, operation)
      && b.retiring[s.next].previous == PreviousOf(s.jobs, account, memory, operation)
  {
    hide RetireConflict, AllRetired, Retrying, PreviousOf, ActiveIds;
  }

  lemma {:induction false} NothingToRestore(jobs: seq<Job>, account: string, memory: string, operation: Operation)
    requires forall i :: 0 <= i < |jobs| && ActiveRevision(jobs[i], account, memory, operation) ==> IsPending(jobs[i])
    ensures PreviousOf(jobs, account, memory, operation) == map[]
  {
    hide ActiveRevision;
    if |jobs| > 0 {
      NothingToRestore(jobs[1..], account, memory, operation);
    }
  }
}
