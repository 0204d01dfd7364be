/**
 submitDistillationControl, reconcileDistillationCommit and the record half of
 pruneDistillationCommitRecords as programs over one artifact's commit record.  Every method
 runs under the record lock, takes its durable actions one at a time, and may be cut off before
 any of them; each is proved to follow a run of the ArtifactCommit machine.
 */
module CommitProgram {
  import opened Common
  import opened ArtifactCommit
  import opened CommitSafety
  import Runs

  /**
   One durable action: what other workers do to the ledger before it, what Core answers, and
   whether a check of the surroundings (lease, evidence, liveness, ledger) passes.
   */
  datatype Turn = Turn(ledger: seq<JobId>, reply: Reply, commits: bool, passes: bool)

  datatype Outcome =
    | Responded(memory: CoreValue)
    | DryRun
    | Failed
    | CutOff

  lemma LeadsStep(s: State, e: Event)
    requires Enabled(s, e)
    ensures Runs.Leads(Steps(Any), s, Apply(s, e))
  {
    hide Apply;
    Runs.Stays(Steps(Any), s);
    Then(Any, s, s, e);
  }

  /** The ledger is all that other workers touch. */
  ghost predicate OnlyLedger(s: State, t: State) {
    t == s.(jobs := t.jobs)
  }

  lemma HoldingCall(s: State)
    requires Inv(s) && s.call.Some? && s.call.value.phase.Holding?
    ensures s.record.Some? && !s.call.value.byOperator
  {
  }

  /** What a request without a write hears: Core reports a success only for a write it has executed. */
  function Heard(executed: bool, reply: Reply): Reply {
    if reply.Answered? && !executed then Silent else reply
  }

  /**
   What becomes of an open record, and what the call answers, once Core has replied: an answer with an
   id is the response if the ledger accepts it, any answer is kept; a refusal with one of five statuses
   closes the record; everything else leaves it as it is.
   */
  predicate Settles(record: Record, reply: Reply, accepted: bool, after: Record, outcome: Outcome) {
    match reply
    case Answered(result) =>
      if result.Some? && result.value.id.Some? && accepted
      then after == record.(coreResult := result, response := result) && outcome == Responded(result.value)
      else after == record.(coreResult := result) && outcome == Failed
    case Refused(status) =>
      && after == record.(rejected := status == 400 || status == 401 || status == 403 || status == 409 || status == 422)
      && outcome == Failed
    case Silent => after == record && outcome == Failed
  }

  /** A record newly minted under the generation, marked as sent. */
  function Sent(candidate: Candidate, generation: Generation): Record {
    Record(candidate, generation, Payload(candidate, generation), true, None, false, None)
  }

  /** An unresolved record of another candidate stands in the way. */
  predicate Blocked(record: Option<Record>, candidate: Candidate) {
    record.Some? && record.value.response.None? && !record.value.rejected && record.value.candidate != candidate
  }

  /** The candidate's own record, not given up, is taken up again. */
  predicate Resumes(record: Option<Record>, candidate: Candidate) {
    record.Some? && record.value.candidate == candidate && !record.value.rejected
  }

  /** The generation under which the candidate is written, or has been. */
  function GenerationFor(s: State, candidate: Candidate): Generation {
    if Resumes(s.record, candidate) then s.record.value.generation else s.nextGeneration
  }

  /** After a rejection, and after a response to another candidate, any candidate can be frozen; an unresolved record only admits its own. */
  lemma FreezesIff(s: State, candidate: Candidate)
    requires s.call.None?
    ensures Enabled(s, Freeze(candidate)) <==>
      !Blocked(s.record, candidate) && !(Resumes(s.record, candidate) && s.record.value.response.Some?)
    ensures s.record.Some? && s.record.value.rejected ==> Enabled(s, Freeze(candidate)) && !Resumes(s.record, candidate)
  {
  }

  /** The candidate's job is completed, or its revision recorded, once it is answered; a skill has no entry, and nobody else's changes. */
  ghost predicate InLedger(was: State, now: State, candidate: Candidate, generation: Generation, answered: bool) {
    && (answered && candidate.job.Some? ==> candidate.job.value in now.jobs && now.jobs[candidate.job.value] == Completed)
    && was.revisions <= now.revisions <= was.revisions + {generation}
    && (candidate.job.Some? || candidate.skill ==> now.revisions == was.revisions)
    && (answered && candidate.job.None? && !candidate.skill ==> generation in now.revisions)
  }

  lemma AnsweredIsDone(s: State)
    requires Inv(s) && s.record.Some? && s.record.value.response.Some?
    ensures var candidate := s.record.value.candidate;
      && (candidate.job.Some? ==> candidate.job.value in s.jobs && s.jobs[candidate.job.value] == Completed)
      && (candidate.job.None? && !candidate.skill ==> s.record.value.generation in s.revisions)
  {
  }

  class CommitStore {
    var state: State
    var turns: seq<Turn>

    constructor (turns: seq<Turn>)
      ensures state == EMPTY && this.turns == turns && Inv(state)
    {
      state := EMPTY;
      this.turns := turns;
    }

    /** The record lock is free. */
    ghost predicate Idle()
      reads this
    {
      Inv(state) && state.call.None?
    }

    /** Starts the next action: the other workers have had their turn.  At the end of the turns the call stops. */
    method Await() returns (turn: Turn, alive: bool)
      requires Inv(state)
      modifies this
      ensures Inv(state) && Runs.Leads(Steps(Any), old(state), state)
      ensures alive <==> old(turns) != []
      ensures alive ==> OnlyLedger(old(state), state) && turn == old(turns)[0] && turns == old(turns)[1..]
      ensures !alive ==> state == old(state).(call := None) && turns == []
    {
      hide Inv, Apply, Steps, Runs.Leads;
      Runs.Stays(Steps(Any), state);
      if |turns| == 0 {
        if state.call.Some? {
          LeadsStep(state, Stop);
          InvStep(state, Stop);
          StopClears(state);
          state := Apply(state, Stop);
        }
        return Turn([], Silent, false, false), false;
      }
      turn := turns[0];
      turns := turns[1..];
      for i := 0 to |turn.ledger|
        invariant Inv(state) && Runs.Leads(Steps(Any), old(state), state) && OnlyLedger(old(state), state)
        invariant turns == old(turns)[1..]
      {
        var e := Ledger(turn.ledger[i]);
        LedgerOnly(state, turn.ledger[i]);
        InvStep(state, e);
        LeadsStep(state, e);
        Runs.Through(Steps(Any), old(state), state, Apply(state, e));
        state := Apply(state, e);
      }
      return turn, true;
    }

    /** Takes one durable action of the machine. */
    method Act(e: Event)
      requires Inv(state) && Enabled(state, e)
      modifies this`state
      ensures Inv(state) && Runs.Leads(Steps(Any), old(state), state) && state == Apply(old(state), e)
    {
      hide Inv, Apply, Steps, Runs.Leads;
      InvStep(state, e);
      LeadsStep(state, e);
      state := Apply(state, e);
    }

    /** The request to Core: a plain write for a generation this call minted, otherwise a reconciliation. */
    method AskCore(replay: bool) returns (reply: Reply, alive: bool)
      requires Inv(state) && state.record.Some? && state.record.value.coreResult.None?
      requires state.call == Some(Call(!replay, false, Frozen))
      modifies this
      ensures Inv(state) && Runs.Leads(Steps(Any), old(state), state)
      ensures alive <==> |old(turns)| >= if replay then 1 else 2
      ensures !alive ==> state.call.None? && turns == []
      ensures state.revisions == old(state.revisions)
      ensures alive ==> InPhase(state, Replied(reply)) && !state.call.value.byOperator
      ensures alive && replay ==>
        && turns == old(turns)[1..] && state.record == old(state.record) && state.writes == old(state.writes)
        && reply == Heard(old(state.record.value.payload) in old(state.committed), old(turns)[0].reply)
      ensures alive && !replay ==>
        && turns == old(turns)[2..] && state.record == Some(old(state.record.value).(sent := true))
        && state.writes == old(state.writes) + [old(state.record.value.payload)] && reply == old(turns)[1].reply
      ensures state.record.Some? && state.record.value.candidate == old(state.record.value.candidate)
      ensures state.record.value == old(state.record.value).(sent := state.record.value.sent)
      ensures state.writes == old(state.writes)
        || (!replay && state.writes == old(state.writes) + [old(state.record.value.payload)])
    {
      hide Inv, Steps, Runs.Leads;
      ghost var s0 := state;
      var turn;
      turn, alive := Await();
      if !alive { return Silent, false; }
      ghost var s1 := state;
      if replay {
        reply := Heard(state.record.value.payload in state.committed, turn.reply);
        Act(Reconcile(reply));
        Runs.Through(Steps(Any), s0, s1, state);
      } else {
        Act(MarkSent);
        Runs.Through(Steps(Any), s0, s1, state);
        ghost var s2 := state;
        turn, alive := Await();
        Runs.Through(Steps(Any), s0, s2, state);
        if !alive { return Silent, false; }
        ghost var s3 := state;
        reply := turn.reply;
        Act(Write(reply, reply.Answered? || (turn.commits && !Definitive(reply))));
        Runs.Through(Steps(Any), s0, s3, state);
      }
    }

    /** From a durable Core result to the stored response. */
    method Finish() returns (outcome: Outcome)
      requires Inv(state) && state.call.Some? && state.call.value.phase.Holding?
      modifies this
      ensures Idle() && Runs.Leads(Steps(Any), old(state), state)
      ensures state.writes == old(state.writes) && state.record.Some?
      ensures state.record.value == old(state.record.value).(response := state.record.value.response)
      ensures outcome.Responded? ==> state.record.value.response == Some(outcome.memory)
      ensures !outcome.Responded? ==> state.record.value == old(state.record.value)
      ensures outcome.Responded? || outcome.Failed? || outcome.CutOff?
      ensures outcome.CutOff? ==> turns == [] && |old(turns)| < 2
      ensures old(state.record).Some? && InLedger(old(state), state, old(state.record.value.candidate), old(state.record.value.generation), outcome.Responded?)
      ensures outcome.Responded? ==> old(state.call.value.phase.result) == Some(outcome.memory)
      ensures |old(turns)| >= 1 ==>
        (outcome.Failed? <==> !(HasId(old(state.call.value.phase.result)) && old(turns)[0].passes))
    {
      hide Runs.Leads, Steps, Inv;
      HoldingCall(state);
      ghost var s0 := state;
      var result := state.call.value.phase.result;
      var turn, alive := Await();
      if !alive { return CutOff; }
      ghost var s1 := state;
      if !HasId(result) || !turn.passes {
        Act(Stop);
        Runs.Through(Steps(Any), s0, s1, state);
        return Failed;
      }
      Act(RecordRevision);
      Runs.Through(Steps(Any), s0, s1, state);
      ghost var s2 := state;
      turn, alive := Await();
      Runs.Through(Steps(Any), s0, s2, state);
      if !alive { return CutOff; }
      ghost var s3 := state;
      Act(StoreResponse);
      AnsweredIsDone(state);
      Runs.Through(Steps(Any), s0, s3, state);
      return Responded(result.value);
    }

    /**
     Freezes or reopens the record, asks Core unless the result is already durable, finishes.  With
     enough turns the outcome is settled by Core's reply and by whether the ledger accepts the result.
     */
    method Commit(candidate: Candidate) returns (outcome: Outcome)
      requires Idle() && Enabled(state, Freeze(candidate))
      modifies this
      ensures Idle() && Runs.Leads(Steps(Any), old(state), state)
      ensures outcome.Responded? ==> state.record.Some? && state.record.value.response == Some(outcome.memory)
      ensures outcome.Responded? ==> state.record.value.candidate == candidate
      ensures outcome.Responded? || outcome.Failed? || outcome.CutOff?
      ensures state.writes == old(state.writes)
        || (!Replays(old(state.record), candidate)
            && state.writes == old(state.writes) + [Payload(candidate, old(state.nextGeneration))])
      ensures outcome.CutOff? ==> turns == [] && |old(turns)| < 5
      ensures InLedger(old(state), state, candidate, GenerationFor(old(state), candidate), outcome.Responded?)
      ensures !Resumes(old(state.record), candidate) && |old(turns)| >= 5 ==>
        && state.writes == old(state.writes) + [Payload(candidate, old(state.nextGeneration))] && state.record.Some?
        && Settles(Sent(candidate, old(state.nextGeneration)), old(turns)[1].reply, old(turns)[3].passes, state.record.value, outcome)
      ensures Resumes(old(state.record), candidate) && old(state.record.value.coreResult).None? && |old(turns)| >= 4 ==>
        && state.writes == old(state.writes) && state.record.Some?
        && Settles(old(state.record.value), Heard(old(state.record.value.payload) in old(state.committed), old(turns)[0].reply),
                   old(turns)[2].passes, state.record.value, outcome)
      ensures Resumes(old(state.record), candidate) && old(state.record.value.coreResult).Some? && |old(turns)| >= 2 ==>
        && state.writes == old(state.writes) && state.record.Some?
        && Settles(old(state.record.value), Answered(old(state.record.value.coreResult)), old(turns)[0].passes, state.record.value, outcome)
    {
      hide Runs.Leads, Steps, Inv;
      ghost var s0 := state;
      var replay := Replays(state.record, candidate);
      Act(Freeze(candidate));
      Runs.Through(Steps(Any), s0, s0, state) by { Runs.Stays(Steps(Any), s0); }
      ghost var s1 := state;
      var turn, alive;
      if state.record.value.coreResult.None? {
        var reply;
        reply, alive := AskCore(replay);
        Runs.Through(Steps(Any), s0, s1, state);
        if !alive { return CutOff; }
        ghost var s2 := state;
        turn, alive := Await();
        Runs.Through(Steps(Any), s0, s2, state);
        if !alive { return CutOff; }
        ghost var s3 := state;
        if !reply.Answered? {
          Act(if Definitive(reply) then StoreRefusal else Stop);
          Runs.Through(Steps(Any), s0, s3, state);
          return Failed;
        }
        Act(StoreResult);
        Runs.Through(Steps(Any), s0, s3, state);
      } else {
        Act(StoreResult);
        Runs.Through(Steps(Any), s0, s1, state);
      }
      ghost var s4 := state;
      outcome := Finish();
      Runs.Through(Steps(Any), s0, s4, state);
    }

    /**
     One submit of a candidate.  It sends at most one plain Core write, only under a generation
     it minted itself; a recorded response is only ever returned, an unresolved record of another
     candidate is left alone, and a dry run changes nothing durable.  Unless the turns run out the
     outcome is settled: it fails exactly on a failed check, on another candidate's unresolved record, and
     where Core's reply settles it so.
     */
    method Submit(candidate: Candidate, dryRun: bool) returns (outcome: Outcome)
      requires Idle()
      modifies this
      ensures Idle() && Runs.Leads(Steps(Any), old(state), state)
      ensures outcome.Responded? ==> state.record.Some? && state.record.value.response == Some(outcome.memory)
      ensures outcome.Responded? ==> state.record.value.candidate == candidate
      ensures state.writes == old(state.writes)
        || (!Replays(old(state.record), candidate)
            && state.writes == old(state.writes) + [Payload(candidate, old(state.nextGeneration))])
      ensures dryRun ==> OnlyLedger(old(state), state)
      ensures old(state.record).Some? && !Terminal(old(state.record.value)) && old(state.record.value.candidate) != candidate ==>
        OnlyLedger(old(state), state)
      ensures Replays(old(state.record), candidate) && old(state.record.value.response).Some? ==> OnlyLedger(old(state), state)
      ensures outcome.CutOff? ==> turns == [] && |old(turns)| < 6
      ensures InLedger(old(state), state, candidate, GenerationFor(old(state), candidate), outcome.Responded?)
      ensures |old(turns)| >= 1 && (!old(turns)[0].passes || Blocked(old(state.record), candidate)) ==>
        outcome == Failed && OnlyLedger(old(state), state)
      ensures |old(turns)| >= 1 && old(turns)[0].passes && !Blocked(old(state.record), candidate) && dryRun ==> outcome == DryRun
      ensures |old(turns)| >= 1 && old(turns)[0].passes && !dryRun ==>
        Resumes(old(state.record), candidate) && old(state.record.value.response).Some? ==>
          outcome == Responded(old(state.record.value.response).value)
      ensures |old(turns)| >= 6 && old(turns)[0].passes && !dryRun && !Blocked(old(state.record), candidate) ==>
        && (!Resumes(old(state.record), candidate) ==>
              && state.writes == old(state.writes) + [Payload(candidate, old(state.nextGeneration))] && state.record.Some?
              && Settles(Sent(candidate, old(state.nextGeneration)), old(turns)[2].reply, old(turns)[4].passes, state.record.value, outcome))
        && (Resumes(old(state.record), candidate) && old(state.record.value.response).None? ==>
              && state.writes == old(state.writes) && state.record.Some?
              && (old(state.record.value.coreResult).None? ==>
                    Settles(old(state.record.value), Heard(old(state.record.value.payload) in old(state.committed), old(turns)[1].reply),
                            old(turns)[3].passes, state.record.value, outcome))
              && (old(state.record.value.coreResult).Some? ==>
                    Settles(old(state.record.value), Answered(old(state.record.value.coreResult)), old(turns)[1].passes,
                            state.record.value, outcome)))
    {
      hide Runs.Leads, Steps, Inv;
      ghost var s0 := state;
      var turn, alive := Await();
      if !alive { return CutOff; }
      var replay := Replays(state.record, candidate);
      if replay && state.record.value.response.Some? && !dryRun {
        // The recorded answer is returned only while the memory it names is still live.
        AnsweredIsDone(state);
        return if turn.passes then Responded(state.record.value.response.value) else Failed;
      }
      if state.record.Some? && !Terminal(state.record.value) && !replay {
        return Failed;
      }
      if !turn.passes {
        return Failed;
      }
      if dryRun {
        return DryRun;
      }
      ghost var s1 := state;
      outcome := Commit(candidate);
      Runs.Through(Steps(Any), s0, s1, state);
    }

    /**
     The operator asks Core for the outcome of an unresolved record, naming the generation
     inspected before; Core is never written.
     */
    method ReconcileByOperator(generation: Generation) returns (outcome: Outcome)
      requires Idle()
      modifies this
      ensures Idle() && Runs.Leads(Steps(Any), old(state), state)
      ensures state.writes == old(state.writes) && state.committed == old(state.committed)
      ensures outcome.Responded? ==> state.record.Some? && state.record.value.coreResult == Some(outcome.memory)
      ensures outcome.Responded? ==> outcome.memory.id.Some? && !Terminal(state.record.value)
      ensures !outcome.Responded? ==> state.record == old(state.record)
      ensures old(state.record).None? || old(state.record.value.generation) != generation || Terminal(old(state.record.value)) ==>
        !outcome.Responded? && OnlyLedger(old(state), state)
      ensures outcome.Responded? ==> state.record == Some(old(state.record.value).(coreResult := Some(outcome.memory)))
      ensures outcome.CutOff? ==> turns == [] && |old(turns)| < 2
      ensures |old(turns)| >= 2 && old(state.record).Some? && old(state.record.value.generation) == generation && !Terminal(old(state.record.value)) ==>
        var reply := if old(state.record.value.coreResult).Some? then Answered(old(state.record.value.coreResult))
                     else Heard(old(state.record.value.payload) in old(state.committed), old(turns)[1].reply);
        if reply.Answered? && HasId(reply.result) then outcome == Responded(reply.result.value) else outcome == Failed
    {
      hide Runs.Leads, Steps, Inv;
      ghost var s0 := state;
      var turn, alive := Await();
      if !alive { return CutOff; }
      if state.record.None? || state.record.value.generation != generation || Terminal(state.record.value) { return Failed; }
      ghost var s1 := state;
      Act(Inspect);
      Runs.Through(Steps(Any), s0, s1, state);
      ghost var s2 := state;
      if state.record.value.coreResult.None? {
        turn, alive := Await();
        Runs.Through(Steps(Any), s0, s2, state);
        if !alive { return CutOff; }
        ghost var s3 := state;
        var reply := Heard(state.record.value.payload in state.committed, turn.reply);
        Act(Reconcile(reply));
        Runs.Through(Steps(Any), s0, s3, state);
        ghost var s4 := state;
        if !reply.Answered? || !HasId(reply.result) {
          Act(Stop);
          Runs.Through(Steps(Any), s0, s4, state);
          return Failed;
        }
        Act(StoreResult);
        Runs.Through(Steps(Any), s0, s4, state);
        return Responded(reply.result.value);
      }
      if !HasId(state.record.value.coreResult) {
        Act(Stop);
        Runs.Through(Steps(Any), s0, s2, state);
        return Failed;
      }
      Act(StoreResult);
      Runs.Through(Steps(Any), s0, s2, state);
      return Responded(state.record.value.coreResult.value);
    }

    /** The operator gives an unresolved record up, naming the generation inspected before. */
    method AbandonByOperator(generation: Generation, confirmed: bool) returns (abandoned: bool)
      requires Idle()
      modifies this
      ensures Idle() && Runs.Leads(Steps(Any), old(state), state)
      ensures abandoned <==>
        confirmed && old(state.record).Some? && old(state.record.value.generation) == generation && !Terminal(old(state.record.value))
      ensures state == if abandoned then old(state).(record := Some(old(state.record.value).(rejected := true))) else old(state)
    {
      hide Runs.Leads, Steps;
      Runs.Stays(Steps(Any), state);
      if state.record.None? || state.record.value.generation != generation || Terminal(state.record.value) || !confirmed {
        return false;
      }
      Act(Abandon);
      return true;
    }

    /** Collects the record if it still is the answered or rejected generation seen earlier. */
    method PruneRecord(generation: Generation) returns (removed: bool)
      requires Idle()
      modifies this
      ensures Idle() && Runs.Leads(Steps(Any), old(state), state)
      ensures removed <==>
        old(state.record).Some? && old(state.record.value.generation) == generation && Terminal(old(state.record.value))
      ensures state == if removed then old(state).(record := None) else old(state)
    {
      hide Runs.Leads, Steps;
      Runs.Stays(Steps(Any), state);
      if state.record.None? || state.record.value.generation != generation || !Terminal(state.record.value) {
        return false;
      }
      Act(Prune);
      return true;
    }
  }

  lemma StopClears(s: State)
    requires s.call.Some?
    ensures Apply(s, Stop) == s.(call := None)
  {
  }

  lemma LedgerOnly(s: State, job: JobId)
    ensures OnlyLedger(s, Apply(s, Ledger(job)))
  {
  }
}
