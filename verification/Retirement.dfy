/**
 The three-phase retirement of a memory: what a pending revision may become, under any
 interleaving of retirement calls and any answer of Core.
 */
module Retirement {
  import opened Common
  import opened JobLedger
  import LeaseFencing

  predicate IsPending(job: Job) {
    job.retirement == Some(RetirementPending)
  }

  /** Core answered with an HTTP error status. */
  predicate Refused(outcome: Outcome) {
    outcome.CoreHttp? && 400 <= outcome.status < 600
  }

  predicate NonePending(jobs: seq<Job>, account: string, memory: string) {
    forall i :: 0 <= i < |jobs| && IsRevision(jobs[i], account, memory) ==> !IsPending(jobs[i])
  }

  /** A pending revision names its call; if that call is under way, it is about this revision. */
  ghost predicate PendingInv(job: Job, retiring: map<Generation, Retiring>, next: nat) {
    IsPending(job) ==>
      && job.status == Completed && job.retirementGeneration.Some? && job.retirementOperation.Some?
      && job.retirementGeneration.value < next
      && (job.retirementGeneration.value in retiring ==>
            var r := retiring[job.retirementGeneration.value];
            && job.id in r.revisions && r.operation == job.retirementOperation.value
            && r.account == job.account && Some(r.memory) == job.resultId)
  }

  ghost predicate Inv(s: State) {
    LeaseFencing.Inv(s) && forall i {:trigger s.jobs[i]} :: 0 <= i < |s.jobs| ==> PendingInv(s.jobs[i], s.retiring, s.next)
  }

  lemma NotPendingHolds(job: Job, retiring: map<Generation, Retiring>, next: nat)
    requires !IsPending(job)
    ensures PendingInv(job, retiring, next)
  {
  }

  /** Operations other than those of a retirement keep a job's retirement fields and identity. */
  lemma OtherOpsKeep(s: State, op: Op, i: nat)
    requires LeaseFencing.Inv(s) && i < |s.jobs| && !op.RetireBegin? && !op.RetireFinish?
    ensures i < |Apply(s, op).jobs|
    ensures IsPending(s.jobs[i]) && s.jobs[i].status == Completed ==> Apply(s, op).jobs[i] == s.jobs[i]
    ensures !IsPending(s.jobs[i]) ==> !IsPending(Apply(s, op).jobs[i])
    ensures Apply(s, op).retiring == s.retiring && s.next <= Apply(s, op).next
  {
    hide Canonical, Clashes, SameRevision, AllRefsText, RecordAllowed, LeaseFencing.LeasesInv, LeaseFencing.RetirementsInv,
      LeaseFencing.Identities, Clamp;
  }

  lemma AppendedIsNotPending(s: State, op: Op, i: nat)
    requires !op.RetireBegin? && !op.RetireFinish? && |s.jobs| <= i < |Apply(s, op).jobs|
    ensures !IsPending(Apply(s, op).jobs[i])
  {
    hide Canonical, Clashes, SameRevision, AllRefsText, RecordAllowed, Leasable, Worked;
  }

  lemma BeginKeeps(s: State, account: string, memory: string, operation: Operation, i: nat)
    requires Inv(s) && i < |s.jobs|
    ensures var t := ApplyRetireBegin(s, account, memory, operation);
      |t.jobs| == |s.jobs| && PendingInv(t.jobs[i], t.retiring, t.next)
  {
    hide LeaseFencing.LeasesInv, LeaseFencing.RetirementsInv, RetireConflict, AllRetired, Retrying, PreviousOf;
    var job := s.jobs[i];
    assert PendingInv(job, s.retiring, s.next);
    if ActiveRevision(job, account, memory, operation) {
      assert job.id in ActiveIds(s.jobs, account, memory, operation);
    }
  }

  lemma FinishKeeps(s: State, generation: Generation, outcome: Outcome, i: nat)
    requires Inv(s) && i < |s.jobs|
    ensures var t := ApplyRetireFinish(s, generation, outcome);
      |t.jobs| == |s.jobs| && PendingInv(t.jobs[i], t.retiring, t.next)
  {
    hide LeaseFencing.LeasesInv, LeaseFencing.Identities, AllOwned, Finalizes, RollsBack;
    assert PendingInv(s.jobs[i], s.retiring, s.next);
    if generation in s.retiring {
      assert LeaseFencing.RetiringInv(s.retiring[generation]);
    }
  }

  lemma Step(s: State, op: Op)
    requires Inv(s)
    ensures Inv(Apply(s, op))
  {
    hide LeaseFencing.Inv, PendingInv, Apply, ApplyRetireBegin, ApplyRetireFinish;
    LeaseFencing.Step(s, op);
    var t := Apply(s, op);
    forall i | 0 <= i < |t.jobs|
      ensures PendingInv(t.jobs[i], t.retiring, t.next)
    {
      StepAt(s, op, i);
    }
  }

  lemma StepAt(s: State, op: Op, i: nat)
    requires Inv(s) && i < |Apply(s, op).jobs|
    ensures PendingInv(Apply(s, op).jobs[i], Apply(s, op).retiring, Apply(s, op).next)
  {
    hide LeaseFencing.Inv, PendingInv, ApplyLease, ApplyOnJob, ApplyEnqueue, ApplyRecord;
    match op
    case RetireBegin(account, memory, operation) => BeginKeeps(s, account, memory, operation, i);
    case RetireFinish(generation, outcome) => FinishKeeps(s, generation, outcome, i);
    case _ => OtherStepAt(s, op, i);
  }

  lemma OtherStepAt(s: State, op: Op, i: nat)
    requires Inv(s) && i < |Apply(s, op).jobs| && !op.RetireBegin? && !op.RetireFinish?
    ensures PendingInv(Apply(s, op).jobs[i], Apply(s, op).retiring, Apply(s, op).next)
  {
    hide LeaseFencing.Inv, Apply;
    var t := Apply(s, op);
    if i < |s.jobs| {
      assert PendingInv(s.jobs[i], s.retiring, s.next);
      OtherOpsKeep(s, op, i);
    } else {
      AppendedIsNotPending(s, op, i);
      NotPendingHolds(t.jobs[i], t.retiring, t.next);
    }
  }

  lemma {:induction false} ReplayKeeps(s: State, ops: seq<Op>)
    requires Inv(s)
    ensures Inv(Replay(s, ops))
    decreases |ops|
  {
    hide Inv, Apply;
    if |ops| > 0 {
      Step(s, ops[0]);
      ReplayKeeps(Apply(s, ops[0]), ops[1..]);
    }
  }

  lemma ReachableInv(s: State)
    requires Reachable(s)
    ensures Inv(s)
  {
    hide Apply;
    var ops :| s == Replay(EMPTY, ops);
    ReplayKeeps(EMPTY, ops);
  }

  // ---------------------------------------------------------------------------------------
  // Main results

  /** What the end of the call `generation` may make of a pending revision that it owns. */
  ghost predicate Settles(s: State, t: State, k: nat, generation: Generation, outcome: Outcome)
    requires k < |s.jobs| && |t.jobs| == |s.jobs| && generation in s.retiring
  {
    var r := s.retiring[generation];
    var gone := outcome.CoreDone? || (r.retrying && r.operation == Deleted && outcome == CoreHttp(404));
    || (gone && t.jobs[k] == s.jobs[k].(retirement := Some(Retired(r.operation))))
    || (!gone && Refused(outcome)
        && s.jobs[k].id in r.previous && t.jobs[k] == r.previous[s.jobs[k].id])
  }

  /**
   In every reachable store and for every operation: a pending revision stays exactly as it is, or
   is taken over by a later call for the same operation, or leaves pending through the call that
   owns its current generation.  That call either retires it with the operation it recorded, or
   restores the record it remembers because Core answered with an HTTP status of 400 to 599.
   */
  lemma {:induction false} PendingLeavesThroughItsOwner(s: State, op: Op, k: nat)
    requires Reachable(s) && k < |s.jobs| && IsPending(s.jobs[k])
    ensures var t := Apply(s, op); var a := s.jobs[k];
      && k < |t.jobs|
      && a.retirementGeneration.Some? && a.retirementOperation.Some?
      && (|| t.jobs[k] == a
          || (&& op.RetireBegin? && a.retirementOperation == Some(op.operation)
              && t.jobs[k] == a.(retirementGeneration := Some(s.next)))
          || (&& op.RetireFinish? && a.retirementGeneration == Some(op.generation) && op.generation in s.retiring
              && a.retirementOperation == Some(s.retiring[op.generation].operation)
              && |t.jobs| == |s.jobs| && Settles(s, t, k, op.generation, op.outcome)))
  {
    hide LeaseFencing.Inv, Apply, Retrying, PreviousOf;
    ReachableInv(s);
    assert PendingInv(s.jobs[k], s.retiring, s.next);
    match op
    case RetireBegin(account, memory, operation) => BeginTakesOver(s, account, memory, operation, k);
    case RetireFinish(generation, outcome) => FinishSettles(s, generation, outcome, k);
    case _ => OtherOpsKeep(s, op, k);
  }

  lemma BeginTakesOver(s: State, account: string, memory: string, operation: Operation, k: nat)
    requires k < |s.jobs| && PendingInv(s.jobs[k], s.retiring, s.next) && IsPending(s.jobs[k])
    ensures var t := Apply(s, RetireBegin(account, memory, operation)); var a := s.jobs[k];
      && |t.jobs| == |s.jobs|
      && (t.jobs[k] == a || (a.retirementOperation == Some(operation) && t.jobs[k] == a.(retirementGeneration := Some(s.next))))
  {
    hide AllRetired, Retrying, PreviousOf, ActiveIds;
  }

  lemma FinishSettles(s: State, generation: Generation, outcome: Outcome, k: nat)
    requires k < |s.jobs| && PendingInv(s.jobs[k], s.retiring, s.next) && IsPending(s.jobs[k])
    ensures var t := Apply(s, RetireFinish(generation, outcome)); var a := s.jobs[k];
      && |t.jobs| == |s.jobs|
      && (t.jobs[k] == a
          || (generation in s.retiring && a.retirementGeneration == Some(generation)
              && a.retirementOperation == Some(s.retiring[generation].operation)
              && Settles(s, t, k, generation, outcome)))
  {
    hide AllOwned;
  }

  /**
   Finalizing is all or nothing: either every revision the call marked is retired and no other job
   changes, or the store is as it was; and it is the former exactly if every one is still pending
   under the call's generation.
   */
  lemma {:induction false} FinalizeIsAllOrNothing(s: State, generation: Generation, outcome: Outcome)
    requires Reachable(s) && generation in s.retiring && Finalizes(s.retiring[generation], outcome)
    ensures var t := Apply(s, RetireFinish(generation, outcome)); var r := s.retiring[generation];
      && |t.jobs| == |s.jobs|
      && (AllOwned(s.jobs, r, generation) ==>
            forall i :: 0 <= i < |s.jobs| ==>
              t.jobs[i] == if s.jobs[i].id in r.revisions then s.jobs[i].(retirement := Some(Retired(r.operation))) else s.jobs[i])
      && (!AllOwned(s.jobs, r, generation) ==> t.jobs == s.jobs)
  {
    ReachableInv(s);
    var r := s.retiring[generation];
    if AllOwned(s.jobs, r, generation) {
      forall i | 0 <= i < |s.jobs| && s.jobs[i].id in r.revisions
        ensures Owned(s.jobs[i], r, generation)
      {
        OwnedAt(s, r, generation, i);
      }
    }
  }

  lemma OwnedAt(s: State, r: Retiring, generation: Generation, i: nat)
    requires LeaseFencing.Identities(s) && AllOwned(s.jobs, r, generation) && i < |s.jobs| && s.jobs[i].id in r.revisions
    ensures Owned(s.jobs[i], r, generation)
  {
    var j :| 0 <= j < |s.jobs| && s.jobs[j].id == s.jobs[i].id && Owned(s.jobs[j], r, generation);
    assert i == j;
  }

  /** A call's memory of the store does not change until the call ends. */
  lemma RetiringStays(s: State, op: Op, generation: Generation)
    requires LeaseFencing.Identities(s) && generation < s.next && generation in Apply(s, op).retiring
    ensures generation in s.retiring && Apply(s, op).retiring[generation] == s.retiring[generation] && s.next <= Apply(s, op).next
  {
    hide Canonical, Clashes, SameRevision, AllRefsText, RecordAllowed, Leasable, Worked, RetireConflict, AllRetired, AllOwned,
      Retrying, PreviousOf, ActiveIds, Finalizes, RollsBack;
  }

  lemma {:induction false} RetiringStaysOverRuns(s: State, ops: seq<Op>, generation: Generation)
    requires LeaseFencing.Inv(s) && generation < s.next && generation in Replay(s, ops).retiring
    ensures generation in s.retiring && Replay(s, ops).retiring[generation] == s.retiring[generation]
    decreases |ops|
  {
    hide LeaseFencing.LeasesInv, LeaseFencing.RetirementsInv, LeaseFencing.Identities, Apply, LeaseFencing.Keeps;
    if |ops| > 0 {
      var t := Apply(s, ops[0]);
      LeaseFencing.Step(s, ops[0]);
      LaterNext(s, t);
      RetiringStaysOverRuns(t, ops[1..], generation);
      RetiringStays(s, ops[0], generation);
    }
  }

  lemma LaterNext(s: State, t: State)
    requires LeaseFencing.Keeps(s, t)
    ensures s.next <= t.next && |s.jobs| <= |t.jobs|
  {
  }

  /**
   A rollback restores exactly what the call found, whatever other operations ran since it began:
   a revision still owned by the call that was not pending then has its record of that time
   again, and one that was already pending stays pending.
   */
  lemma {:induction false} RollbackRestoresWhatTheCallFound(
      s: State, account: string, memory: string, operation: Operation, ops: seq<Op>, outcome: Outcome, k: nat)
    requires Reachable(s) && k < |s.jobs| && ActiveRevision(s.jobs[k], account, memory, operation)
    requires !RetireConflict(s.jobs, account, memory, operation) && !AllRetired(s.jobs, account, memory, operation)
    requires var t := Replay(Apply(s, RetireBegin(account, memory, operation)), ops);
      && s.next in t.retiring && RollsBack(t.retiring[s.next], outcome)
      && k < |t.jobs| && IsPending(t.jobs[k]) && t.jobs[k].retirementGeneration == Some(s.next)
    ensures var t := Replay(Apply(s, RetireBegin(account, memory, operation)), ops);
      var u := Apply(t, RetireFinish(s.next, outcome));
      && k < |u.jobs|
      && u.jobs[k] == if IsPending(s.jobs[k]) then t.jobs[k] else s.jobs[k]
  {
    hide Apply, Retrying, ActiveIds, RetireConflict, AllRetired, Finalizes, RollsBack;
    ReachableInv(s);
    var g := s.next;
    var begun := Apply(s, RetireBegin(account, memory, operation));
    LeaseFencing.Step(s, RetireBegin(account, memory, operation));
    BeginRemembers(s, account, memory, operation, k);
    LeaseFencing.ReplayKeeps(begun, ops);
    RetiringStaysOverRuns(begun, ops, g);
    var t := Replay(begun, ops);
    assert LeaseFencing.JobKeeps(begun.jobs[k], t.jobs[k]);
    RollbackAt(t, g, outcome, k);
  }

  lemma BeginRemembers(s: State, account: string, memory: string, operation: Operation, k: nat)
    requires LeaseFencing.Identities(s) && k < |s.jobs| && ActiveRevision(s.jobs[k], account, memory, operation)
    requires !RetireConflict(s.jobs, account, memory, operation) && !AllRetired(s.jobs, account, memory, operation)
    ensures var t := Apply(s, RetireBegin(account, memory, operation));
      && t.next == s.next + 1 && |t.jobs| == |s.jobs| && s.next in t.retiring
      && t.jobs[k].id == s.jobs[k].id && t.jobs[k].account == account && t.jobs[k].resultId == Some(memory)
      && t.jobs[k].status == Completed
      && t.retiring[s.next].account == account && t.retiring[s.next].memory == memory
      && (s.jobs[k].id in t.retiring[s.next].previous <==> !IsPending(s.jobs[k]))
      && (!IsPending(s.jobs[k]) ==> t.retiring[s.next].previous[s.jobs[k].id] == s.jobs[k])
  {
    hide RetireConflict, AllRetired, Retrying, ActiveIds;
    PreviousAt(s.jobs, account, memory, operation, k);
  }

  lemma {:induction false} PreviousAt(jobs: seq<Job>, account: string, memory: string, operation: Operation, k: nat)
    requires k < |jobs| && ActiveRevision(jobs[k], account, memory, operation)
    requires forall i, j :: 0 <= i < j < |jobs| ==> jobs[i].id != jobs[j].id
    ensures var previous := PreviousOf(jobs, account, memory, operation);
      && (jobs[k].id in previous <==> !IsPending(jobs[k]))
      && (!IsPending(jobs[k]) ==> previous[jobs[k].id] == jobs[k])
  {
    hide IsRevision;
    if k > 0 {
      PreviousAt(jobs[1..], account, memory, operation, k - 1);
      assert jobs[0].id != jobs[k].id;
    } else {
      NotRemembered(jobs[1..], account, memory, operation, jobs[0].id);
    }
  }

  lemma {:induction false} NotRemembered(jobs: seq<Job>, account: string, memory: string, operation: Operation, id: JobId)
    requires forall i :: 0 <= i < |jobs| ==> jobs[i].id != id
    ensures id !in PreviousOf(jobs, account, memory, operation)
  {
    if |jobs| > 0 {
      NotRemembered(jobs[1..], account, memory, operation, id);
    }
  }

  lemma RollbackAt(t: State, generation: Generation, outcome: Outcome, k: nat)
    requires generation in t.retiring && RollsBack(t.retiring[generation], outcome) && k < |t.jobs|
    ensures var u := Apply(t, RetireFinish(generation, outcome));
      |u.jobs| == |t.jobs| && u.jobs[k] == RolledBack(t.jobs[k], t.retiring[generation], generation)
  {
  }

  /**
   A retirement nobody interferes with, from its two ends: when Core confirms, all revisions of
   the memory are retired with the operation; when Core refuses with an HTTP status and no
   revision was pending before, the jobs are exactly those of before; when Core is silent, every
   revision that was not yet retired this way is left pending.
   */
  lemma {:induction false} QuietRetirement(s: State, account: string, memory: string, operation: Operation, outcome: Outcome)
    requires Reachable(s)
    requires !RetireConflict(s.jobs, account, memory, operation) && !AllRetired(s.jobs, account, memory, operation)
    ensures var t := Apply(Apply(s, RetireBegin(account, memory, operation)), RetireFinish(s.next, outcome));
      && |t.jobs| == |s.jobs|
      && (outcome.CoreDone? ==>
            forall i :: 0 <= i < |s.jobs| && IsRevision(s.jobs[i], account, memory) ==> t.jobs[i].retirement == Some(Retired(operation)))
      && (Refused(outcome) && NonePending(s.jobs, account, memory) ==> t.jobs == s.jobs)
      && (outcome.CoreSilent? ==>
            forall i :: 0 <= i < |s.jobs| && ActiveRevision(s.jobs[i], account, memory, operation) ==> IsPending(t.jobs[i]))
      && (forall i :: 0 <= i < |s.jobs| && !IsRevision(s.jobs[i], account, memory) ==> t.jobs[i] == s.jobs[i])
  {
    hide RetireConflict, AllRetired, PreviousOf, AllOwned, Retrying, RollsBack, Finalizes;
    ReachableInv(s);
    var b := Apply(s, RetireBegin(account, memory, operation));
    var t := Apply(b, RetireFinish(s.next, outcome));
    var r := b.retiring[s.next];
    AllMarked(s, account, memory, operation);
    QuietOutcome(s, account, memory, operation, outcome);
    forall i | 0 <= i < |s.jobs|
      ensures IsRevision(s.jobs[i], account, memory) && outcome.CoreDone? ==> t.jobs[i].retirement == Some(Retired(operation))
      ensures ActiveRevision(s.jobs[i], account, memory, operation) && outcome.CoreSilent? ==> IsPending(t.jobs[i])
      ensures !IsRevision(s.jobs[i], account, memory) ==> t.jobs[i] == s.jobs[i]
      ensures Refused(outcome) && NonePending(s.jobs, account, memory) ==> t.jobs[i] == s.jobs[i]
    {
      QuietAt(s, account, memory, operation, outcome, i);
    }
  }

  /** How the two phases put together act on one job. */
  lemma QuietAt(s: State, account: string, memory: string, operation: Operation, outcome: Outcome, i: nat)
    requires LeaseFencing.Identities(s) && i < |s.jobs|
    requires !RetireConflict(s.jobs, account, memory, operation) && !AllRetired(s.jobs, account, memory, operation)
    requires PendingInv(s.jobs[i], s.retiring, s.next)
    ensures var t := Apply(Apply(s, RetireBegin(account, memory, operation)), RetireFinish(s.next, outcome));
      && |t.jobs| == |s.jobs|
      && (IsRevision(s.jobs[i], account, memory) && outcome.CoreDone? ==> t.jobs[i].retirement == Some(Retired(operation)))
      && (ActiveRevision(s.jobs[i], account, memory, operation) && outcome.CoreSilent? ==> IsPending(t.jobs[i]))
      && (!IsRevision(s.jobs[i], account, memory) ==> t.jobs[i] == s.jobs[i])
      && (Refused(outcome) && NonePending(s.jobs, account, memory) ==> t.jobs[i] == s.jobs[i])
  {
    hide RetireConflict, AllRetired, PreviousOf, AllOwned, Retrying, RollsBack, Finalizes;
    AllMarked(s, account, memory, operation);
    QuietOutcome(s, account, memory, operation, outcome);
    var g := s.next;
    var b := Apply(s, RetireBegin(account, memory, operation));
    var r := b.retiring[g];
    if ActiveRevision(s.jobs[i], account, memory, operation) {
      BeginRemembers(s, account, memory, operation, i);
      assert s.jobs[i].id in r.revisions;
    }
    FinishAt(b, g, outcome, i);
  }

  lemma FinishAt(b: State, g: Generation, outcome: Outcome, i: nat)
    requires g in b.retiring && i < |b.jobs|
    ensures var t := Apply(b, RetireFinish(g, outcome)); var r := b.retiring[g];
      && |t.jobs| == |b.jobs|
      && t.jobs[i] == (if Finalizes(r, outcome) then (if AllOwned(b.jobs, r, g) then Finalized(b.jobs[i], r, g) else b.jobs[i])
                       else if RollsBack(r, outcome) then RolledBack(b.jobs[i], r, g) else b.jobs[i])
  {
  }

  /** Right after the marking, the call owns every revision it marked. */
  lemma AllMarked(s: State, account: string, memory: string, operation: Operation)
    requires !RetireConflict(s.jobs, account, memory, operation) && !AllRetired(s.jobs, account, memory, operation)
    ensures var b := Apply(s, RetireBegin(account, memory, operation));
      && s.next in b.retiring && |b.jobs| == |s.jobs|
      && AllOwned(b.jobs, b.retiring[s.next], s.next)
      && (forall i :: 0 <= i < |s.jobs| ==> b.jobs[i] == Marked(s.jobs[i], account, memory, operation, s.next))
      && b.retiring[s.next].account == account && b.retiring[s.next].memory == memory && b.retiring[s.next].operation == operation
      && b.retiring[s.next].revisions == ActiveIds(s.jobs, account, memory, operation)
  {
    hide RetireConflict, AllRetired, PreviousOf, Retrying, Marked;
    var b := Apply(s, RetireBegin(account, memory, operation));
    var r := b.retiring[s.next];
    forall id | id in r.revisions
      ensures exists i :: 0 <= i < |b.jobs| && b.jobs[i].id == id && Owned(b.jobs[i], r, s.next)
    {
      var i :| 0 <= i < |s.jobs| && ActiveRevision(s.jobs[i], account, memory, operation) && s.jobs[i].id == id;
      MarkedIsOwned(s.jobs[i], account, memory, operation, s.next, r);
      assert b.jobs[i] == Marked(s.jobs[i], account, memory, operation, s.next);
    }
  }

  lemma MarkedIsOwned(job: Job, account: string, memory: string, operation: Operation, g: Generation, r: Retiring)
    requires ActiveRevision(job, account, memory, operation) && r.account == account && r.memory == memory
    ensures Owned(Marked(job, account, memory, operation, g), r, g) && Marked(job, account, memory, operation, g).id == job.id
  {
  }

  lemma QuietOutcome(s: State, account: string, memory: string, operation: Operation, outcome: Outcome)
    requires LeaseFencing.Identities(s)
    requires !RetireConflict(s.jobs, account, memory, operation) && !AllRetired(s.jobs, account, memory, operation)
    ensures var r := Apply(s, RetireBegin(account, memory, operation)).retiring[s.next];
      && (outcome.CoreDone? ==> Finalizes(r, outcome))
      && (outcome.CoreSilent? ==> !Finalizes(r, outcome) && !RollsBack(r, outcome))
      && (Refused(outcome)
          && (exists i :: 0 <= i < |s.jobs| && ActiveRevision(s.jobs[i], account, memory, operation) && !IsPending(s.jobs[i])) ==>
            !Finalizes(r, outcome) && RollsBack(r, outcome))
  {
    hide RetireConflict, AllRetired, ActiveIds, Marked, IsRevision, PreviousOf;
    var r := Apply(s, RetireBegin(account, memory, operation)).retiring[s.next];
    if i :| 0 <= i < |s.jobs| && ActiveRevision(s.jobs[i], account, memory, operation) && !IsPending(s.jobs[i]) {
      PreviousAt(s.jobs, account, memory, operation, i);
      assert s.jobs[i].id in r.previous;
      assert !r.retrying;
    }
  }
}
