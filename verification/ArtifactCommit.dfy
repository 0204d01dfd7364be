/**
 Model of the artifact commit record of src/distillation-submit.ts: the write-ahead record that
 keeps an external Memory Core write from being sent twice.

 One machine describes one canonical artifact, whose record file is only touched under its own
 lock.  Each step below is one durable action (a record save, a Core request, a ledger write);
 the process may crash between any two of them.  Hashes are injective, so a candidate stands for
 its own hash and a generation for the random identity minted with it.
 */
module ArtifactCommit {
  import opened Common
  import Runs

  type Generation = nat
  type JobId = nat

  datatype Candidate = Candidate(job: Option<JobId>, skill: bool, content: nat)

  /** The frozen request: the candidate, tagged with the generation that minted it. */
  datatype Payload = Payload(candidate: Candidate, generation: Generation)

  datatype CoreValue = CoreValue(id: Option<nat>)

  /** What Core answers.  A success may have an empty body; Silent is every ambiguous failure. */
  datatype Reply = Answered(result: Option<CoreValue>) | Refused(status: nat) | Silent

  datatype Record = Record(
    candidate: Candidate,
    generation: Generation,
    payload: Payload,
    sent: bool,
    coreResult: Option<CoreValue>,
    rejected: bool,
    response: Option<CoreValue>)

  datatype JobStatus = Open | Completed

  /** How far the call that holds the record lock has come. */
  datatype Phase =
    | Frozen                                   // the record with its payload is durable
    | Marked                                   // the send mark is durable
    | Replied(reply: Reply)                    // Core has answered, nothing stored yet
    | Holding(result: Option<CoreValue>)       // what the record holds is the result
    | Recorded(memory: CoreValue)              // the local ledger has the revision

  /** `minted`: this call minted the generation.  `byOperator`: a reconciliation by the operator. */
  datatype Call = Call(minted: bool, byOperator: bool, phase: Phase)

  datatype State = State(
    record: Option<Record>,
    nextGeneration: Generation,
    call: Option<Call>,
    writes: seq<Payload>,                      // plain writes sent to Core, in order
    committed: set<Payload>,                   // writes Core has executed
    jobs: map<JobId, JobStatus>,
    revisions: set<Generation>,                // revisions recorded without a job
    stored: set<Generation>)                   // history: generations whose Core result became durable

  const EMPTY := State(None, 0, None, [], {}, map[], {}, {})

  datatype Event =
    | Freeze(candidate: Candidate)             // replay of the record, or a new generation
    | MarkSent
    | Write(reply: Reply, commits: bool)       // the plain Core write
    | Reconcile(reply: Reply)                  // asks Core for the outcome without writing
    | StoreResult
    | StoreRefusal
    | RecordRevision
    | StoreResponse
    | Stop                                     // crash, or an error thrown to the caller
    | Inspect                                  // the operator opens an unresolved record
    | Abandon                                  // the operator gives an unresolved record up
    | Prune
    | Ledger(job: JobId)                       // another worker completes or adds a job

  /** Only these answers of Core count as a refusal; every other failure is ambiguous. */
  predicate Definitive(reply: Reply) {
    reply.Refused? && reply.status in {400, 401, 403, 409, 422}
  }

  predicate Terminal(record: Record) {
    record.response.Some? || record.rejected
  }

  predicate Replays(record: Option<Record>, candidate: Candidate) {
    record.Some? && record.value.candidate == candidate && !record.value.rejected
  }

  predicate LedgerDone(s: State, candidate: Candidate, generation: Generation) {
    match candidate.job
    case Some(job) => job in s.jobs && s.jobs[job] == Completed
    case None => candidate.skill || generation in s.revisions
  }

  predicate InPhase(s: State, phase: Phase) {
    s.call.Some? && s.record.Some? && s.call.value.phase == phase
  }

  predicate Enabled(s: State, e: Event) {
    match e
    case Freeze(candidate) =>
      && s.call.None?
      && (if Replays(s.record, candidate) then s.record.value.response.None?
          else s.record.None? || Terminal(s.record.value))
    case MarkSent =>
      InPhase(s, Frozen) && s.call.value.minted && s.record.value.coreResult.None?
    case Write(reply, commits) =>
      // Core is honest: a success has been executed, a definitive refusal has not.
      && InPhase(s, Marked)
      && (reply.Answered? ==> commits)
      && (Definitive(reply) ==> !commits)
    case Reconcile(reply) =>
      // It reports success only for a write Core has executed; it may fail at any time.
      && InPhase(s, Frozen) && !s.call.value.minted && s.record.value.coreResult.None?
      && (reply.Answered? ==> s.record.value.payload in s.committed)
    case StoreResult =>
      && s.call.Some? && s.record.Some?
      && (|| (s.call.value.phase.Replied? && s.call.value.phase.reply.Answered?
              && (s.call.value.byOperator ==> HasId(s.call.value.phase.reply.result)))
          || (s.call.value.phase.Frozen? && s.record.value.coreResult.Some?
              && (s.call.value.byOperator ==> HasId(s.record.value.coreResult))))
    case StoreRefusal =>
      && s.call.Some? && s.record.Some? && s.call.value.phase.Replied? && Definitive(s.call.value.phase.reply)
      && !s.call.value.byOperator
    case RecordRevision =>
      && s.call.Some? && s.record.Some? && !s.call.value.byOperator
      && s.call.value.phase.Holding? && HasId(s.call.value.phase.result)
    case StoreResponse => s.call.Some? && s.record.Some? && s.call.value.phase.Recorded?
    case Stop => s.call.Some?
    case Inspect => s.call.None? && s.record.Some? && !Terminal(s.record.value)
    case Abandon => s.call.None? && s.record.Some? && !Terminal(s.record.value)
    case Prune => s.call.None? && s.record.Some? && Terminal(s.record.value)
    case Ledger(_) => true
  }

  predicate HasId(result: Option<CoreValue>) {
    result.Some? && result.value.id.Some?
  }

  function Mint(s: State, candidate: Candidate): Record {
    Record(candidate, s.nextGeneration, Payload(candidate, s.nextGeneration), false, None, false, None)
  }

  function Apply(s: State, e: Event): State
    requires Enabled(s, e)
  {
    match e
    case Freeze(candidate) =>
      if Replays(s.record, candidate) then s.(call := Some(Call(false, false, Frozen)))
      else s.(record := Some(Mint(s, candidate)),
              nextGeneration := s.nextGeneration + 1,
              call := Some(Call(true, false, Frozen)))
    case MarkSent =>
      s.(record := Some(s.record.value.(sent := true)), call := Some(s.call.value.(phase := Marked)))
    case Write(reply, commits) =>
      s.(writes := s.writes + [s.record.value.payload],
         committed := if commits then s.committed + {s.record.value.payload} else s.committed,
         call := Some(s.call.value.(phase := Replied(reply))))
    case Reconcile(reply) => s.(call := Some(s.call.value.(phase := Replied(reply))))
    case StoreResult =>
      var result := if s.call.value.phase.Frozen? then s.record.value.coreResult else s.call.value.phase.reply.result;
      s.(record := Some(s.record.value.(coreResult := result)),
         stored := if result.Some? then s.stored + {s.record.value.generation} else s.stored,
         call := if s.call.value.byOperator then None else Some(s.call.value.(phase := Holding(result))))
    case StoreRefusal => s.(record := Some(s.record.value.(rejected := true)), call := None)
    case RecordRevision =>
      var r := s.record.value;
      s.(jobs := if r.candidate.job.Some? then s.jobs[r.candidate.job.value := Completed] else s.jobs,
         revisions := if r.candidate.job.None? && !r.candidate.skill then s.revisions + {r.generation} else s.revisions,
         call := Some(s.call.value.(phase := Recorded(s.call.value.phase.result.value))))
    case StoreResponse =>
      s.(record := Some(s.record.value.(response := Some(s.call.value.phase.memory))), call := None)
    case Stop => s.(call := None)
    case Inspect => s.(call := Some(Call(false, true, Frozen)))
    case Abandon => s.(record := Some(s.record.value.(rejected := true)))
    case Prune => s.(record := None)
    case Ledger(job) => s.(jobs := if job in s.jobs then s.jobs[job := Completed] else s.jobs[job := Open])
  }

  /** The write may have been executed: it was marked as sent and no result of it is durable. */
  predicate Unresolved(record: Record) {
    record.sent && record.coreResult.None?
  }

  /** An abandonment, or a reconciliation that is itself refused, closes a record in that state. */
  predicate ClosesUnresolved(s: State, e: Event)
    requires Enabled(s, e)
  {
    (e.Abandon? || (e.StoreRefusal? && !s.call.value.minted)) && Unresolved(s.record.value)
  }

  /** Anything that can happen, or all but the closing of unresolved records. */
  datatype Policy = Any | Careful

  predicate Allowed(policy: Policy, s: State, e: Event) {
    Enabled(s, e) && (policy == Careful ==> !ClosesUnresolved(s, e))
  }

  /** One step of the machine. */
  ghost function Steps(policy: Policy): (State, State) -> bool {
    (s: State, t: State) => exists e :: Allowed(policy, s, e) && t == Apply(s, e)
  }

  ghost predicate Reachable(policy: Policy, s: State) {
    Runs.Leads(Steps(policy), EMPTY, s)
  }
}
