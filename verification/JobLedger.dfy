/**
 Model of the distillation job ledger of src/distillation-jobs.ts: leases with opaque tokens,
 completion and failure, enqueueing with overlap rejection, direct revisions, and the three-phase
 retirement of a memory.

 Every operation is one locked load-change-save of the whole store; an operation that throws
 leaves the store as it was.  A remote mutation during retirement happens between two of them.
 Random identities are fresh numbers, time is an integer, hashes are injective.
 */
module JobLedger {
  import opened Common
  import Sorting

  type JobId = nat
  type Token = nat
  type Generation = nat

  datatype Target = L2 | L3 | L4 | Skill

  datatype ResultKind = Of(target: Target) | Noop

  datatype EvidenceKind = Turn | Memory | Artifact

  /** A timestamp string: its place in string order, and whether Date.parse accepts it. */
  datatype Stamp = Stamp(at: int, valid: bool)

  /** One item of evidence; its layer is None below L2. */
  datatype Evidence = Evidence(
    ref: string, kind: EvidenceKind, timestamp: Stamp, project: Option<string>, layer: Option<Target>,
    title: string, content: string)

  /** The evidence hash, which is injective in what is hashed. */
  datatype Hash = Hash(target: Target, project: Option<string>, evidence: seq<Evidence>)

  datatype Status = Pending | Leased | Completed | Failed

  datatype FailureKind = CoreError | AmbiguousCommit | InvalidLegacyEvidence

  datatype Operation = Archived | Deleted

  datatype Retirement = RetirementPending | Retired(operation: Operation)

  datatype Job = Job(
    id: JobId,
    account: string,
    target: Target,
    project: Option<string>,
    status: Status,
    createdAt: int,
    leasedUntil: Option<int>,
    leasedBy: Option<string>,
    leaseToken: Option<Token>,
    attempts: nat,
    failure: Option<string>,
    failureKind: Option<FailureKind>,
    completedAt: Option<Stamp>,
    resultKind: Option<ResultKind>,
    resultId: Option<string>,
    resultContent: Option<string>,
    resultCommittedAt: Option<Stamp>,
    coreBody: Option<string>,
    operationId: Option<nat>,
    retirement: Option<Retirement>,
    retirementGeneration: Option<Generation>,
    retirementOperation: Option<Operation>,
    evidence: seq<Evidence>,
    hash: Hash)

  /** What a lease hands to its worker. */
  datatype Credential = Credential(owner: string, token: Option<Token>)

  /** The volatile part of one retireDistillationMemory call, between its locked phases. */
  datatype Retiring = Retiring(
    account: string, memory: string, operation: Operation,
    revisions: set<JobId>, retrying: bool, previous: map<JobId, Job>)

  /**
   The store, the source of fresh identities, the retirement calls under way, and two history
   variables: the credentials each job's leases handed out, and the jobs enqueueJob appended.
   */
  datatype State = State(
    jobs: seq<Job>,
    next: nat,
    retiring: map<Generation, Retiring>,
    issued: map<JobId, seq<Credential>>,
    enqueued: set<JobId>)

  const EMPTY := State([], 0, map[], map[], {})

  datatype LeaseRequest = LeaseRequest(
    account: string, project: Option<Option<string>>, target: Option<Target>, harness: string, seconds: int, useToken: bool, now: int)

  /** Changes of one job by its id. */
  datatype Work =
    | Complete(cred: Credential, kind: ResultKind, resultId: Option<string>, content: Option<string>, now: int)
    | CompleteAfterCommit(cred: Credential, kind: ResultKind, memory: string, body: string, committedAt: Stamp, coreBody: Option<string>, now: int)
    | Fail(cred: Credential, message: string, now: int)
    | FailGeneration(cred: Credential, message: string, failureKind: FailureKind, now: int)
    | StampQuarantine(committedAt: Stamp)
    | Renew(cred: Credential, seconds: int, now: int)
    | Prepare(cred: Credential, minimumSeconds: int, now: int)
    | Retry

  datatype Outcome = CoreDone | CoreHttp(status: nat) | CoreSilent

  datatype Op =
    | Lease(request: LeaseRequest)
    | OnJob(account: string, id: JobId, work: Work)
    | Enqueue(account: string, target: Target, project: Option<string>, items: seq<Evidence>, now: int)
    | Record(account: string, target: Target, project: Option<string>, items: seq<Evidence>,
             memory: string, body: string, committedAt: int, commit: Option<nat>, coreBody: Option<string>)
    | RetireBegin(account: string, memory: string, operation: Operation)
    | RetireFinish(generation: Generation, outcome: Outcome)

  // ---------------------------------------------------------------------------------------
  // Lookups

  /** Array.prototype.find: the first job that satisfies `p`. */
  function Find(jobs: seq<Job>, p: Job -> bool): (r: Option<nat>)
    ensures r.Some? ==> r.value < |jobs| && p(jobs[r.value]) && forall i :: 0 <= i < r.value ==> !p(jobs[i])
    ensures r.None? ==> forall i :: 0 <= i < |jobs| ==> !p(jobs[i])
  {
    if |jobs| == 0 then None
    else if p(jobs[0]) then Some(0)
    else match Find(jobs[1..], p)
         case Some(i) => Some(i + 1)
         case None => None
  }

  /** listDistillationJobs of one account, retired results left out; in store order. */
  function Listed(jobs: seq<Job>, account: string): (r: seq<Job>)
    ensures forall job :: job in r <==> job in jobs && job.account == account && job.retirement.None?
  {
    if |jobs| == 0 then []
    else
      assert jobs == [jobs[0]] + jobs[1..];
      if jobs[0].account == account && jobs[0].retirement.None? then [jobs[0]] + Listed(jobs[1..], account)
      else Listed(jobs[1..], account)
  }

  // ---------------------------------------------------------------------------------------
  // Leases

  function Clamp(lo: int, hi: int, x: int): int {
    if x < lo then lo else if x > hi then hi else x
  }

  predicate Leasable(job: Job, r: LeaseRequest) {
    && job.account == r.account
    && (job.status == Pending || (job.status == Leased && job.leasedUntil.Some? && job.leasedUntil.value <= r.now))
    && (r.project.Some? ==> job.project == r.project.value)
    && (r.target.Some? ==> job.target == r.target.value)
    // Owner-only leases are single-use; every reassignment requires a token.
    && (r.useToken || (job.status == Pending && job.leaseToken.None? && job.attempts == 0))
  }

  function CredentialOf(r: LeaseRequest, token: Token): Credential {
    Credential(r.harness, if r.useToken then Some(token) else None)
  }

  function LeasedJob(job: Job, r: LeaseRequest, token: Token): Job {
    job.(status := Leased, attempts := job.attempts + 1, leasedBy := Some(r.harness),
         leaseToken := if r.useToken then Some(token) else None,
         leasedUntil := Some(r.now + Clamp(30, 900, r.seconds) * 1000))
  }

  /** assertActiveDistillationLease. */
  predicate ActiveLease(job: Job, cred: Credential, now: int) {
    && job.status == Leased
    && job.leasedUntil.Some? && job.leasedUntil.value > now
    && job.leasedBy == Some(cred.owner)
    && job.leaseToken == cred.token
  }

  /** assertPostCoreCommitLeaseGeneration: a token outlives its deadline until the job is reassigned. */
  predicate SameGeneration(job: Job, cred: Credential, now: int) {
    && job.status == Leased
    && job.leasedBy == Some(cred.owner)
    && job.leaseToken == cred.token
    && (job.leaseToken.Some? || (job.leasedUntil.Some? && job.leasedUntil.value > now))
  }

  predicate Retryable(job: Job) {
    job.status == Failed && job.failureKind != Some(AmbiguousCommit) && job.failureKind != Some(InvalidLegacyEvidence)
  }

  function Unleased(job: Job): Job {
    job.(leasedUntil := None, leasedBy := None, leaseToken := None)
  }

  function Take(s: string, n: nat): string {
    if |s| <= n then s else s[..n]
  }

  predicate Text(s: Option<string>) {
    s.Some? && |s.value| > 0
  }

  /** The new record of the job, or None where the source throws. */
  function Worked(job: Job, w: Work): Option<Job> {
    match w
    case Complete(cred, kind, resultId, content, now) =>
      if !ActiveLease(job, cred, now) then None
      else Some(Unleased(job).(status := Completed, completedAt := Some(Stamp(now, true)), resultKind := Some(kind),
                               resultId := if Text(resultId) then resultId else job.resultId,
                               resultContent := if Text(content) then content else job.resultContent,
                               failure := None))
    case CompleteAfterCommit(cred, kind, memory, body, committedAt, coreBody, now) =>
      if !SameGeneration(job, cred, now) then None
      else Some(Unleased(job).(status := Completed, completedAt := Some(Stamp(now, true)), resultKind := Some(kind),
                               resultId := Some(memory), resultContent := Some(body), resultCommittedAt := Some(committedAt),
                               coreBody := if coreBody.Some? then coreBody else job.coreBody,
                               failure := None))
    case Fail(cred, message, now) =>
      if !ActiveLease(job, cred, now) then None
      else Some(Unleased(job).(status := Failed, failure := Some(Take(message, 2000)), failureKind := Some(CoreError)))
    case FailGeneration(cred, message, failureKind, now) =>
      if !SameGeneration(job, cred, now) then None
      else Some(Unleased(job).(status := Failed, failure := Some(Take(message, 2000)), failureKind := Some(failureKind)))
    case StampQuarantine(committedAt) =>
      if job.status != Failed || job.failureKind != Some(AmbiguousCommit) then None
      else Some(job.(resultCommittedAt := Some(committedAt)))
    case Renew(cred, seconds, now) =>
      if !ActiveLease(job, cred, now) || job.leaseToken.None? then None
      else
        var until := now + Clamp(30, 900, seconds) * 1000;
        Some(job.(leasedUntil := Some(if until > job.leasedUntil.value then until else job.leasedUntil.value)))
    case Prepare(cred, minimumSeconds, now) =>
      if !ActiveLease(job, cred, now) then None
      else
        var minimum := Clamp(30, 900, minimumSeconds) * 1000;
        if job.leasedUntil.value - now >= minimum then Some(job)
        else if job.leaseToken.None? then None
        else Some(job.(leasedUntil := Some(now + minimum)))
    case Retry =>
      if !Retryable(job) then None
      else Some(Unleased(job).(status := Pending, failure := None, failureKind := None))
  }

  // ---------------------------------------------------------------------------------------
  // Enqueueing

  predicate BlankChar(c: char) {
    c == ' ' || c == '\t' || c == '\n' || c == '\r'
  }

  /** `!value.trim()` */
  predicate Blank(s: string) {
    forall i :: 0 <= i < |s| ==> BlankChar(s[i])
  }

  /** value.trim() */
  function Trim(s: string): string {
    if |s| > 0 && BlankChar(s[0]) then Trim(s[1..])
    else if |s| > 0 && BlankChar(s[|s| - 1]) then Trim(s[..|s| - 1])
    else s
  }

  /** Evidence is ordered by timestamp, then by reference. */
  predicate Before(a: Evidence, b: Evidence) {
    a.timestamp.at < b.timestamp.at || (a.timestamp.at == b.timestamp.at && Sorting.Less(a.ref, b.ref))
  }

  predicate HasRef(items: seq<Evidence>, ref: string) {
    exists i :: 0 <= i < |items| && items[i].ref == ref
  }

  /** Of several items with one reference the last one counts. */
  function LastByRef(items: seq<Evidence>): seq<Evidence> {
    if |items| == 0 then []
    else if HasRef(items[1..], items[0].ref) then LastByRef(items[1..])
    else [items[0]] + LastByRef(items[1..])
  }

  /** uniqueEvidence: the canonical list of a batch. */
  function Canonical(items: seq<Evidence>): seq<Evidence> {
    Sorting.Sort(Before, LastByRef(items))
  }

  predicate AllRefsText(items: seq<Evidence>) {
    forall i :: 0 <= i < |items| ==> !Blank(items[i].ref)
  }

  predicate Overlaps(job: Job, evidence: seq<Evidence>) {
    exists i :: 0 <= i < |evidence| && HasRef(job.evidence, evidence[i].ref)
  }

  /** An enqueue finds an equal batch, or for L2 one that shares a reference. */
  predicate Clashes(job: Job, account: string, target: Target, project: Option<string>, evidence: seq<Evidence>) {
    && job.account == account && job.target == target && job.project == project
    && (job.hash == Hash(target, project, evidence) || (target == L2 && Overlaps(job, evidence)))
  }

  function NewJob(id: JobId, account: string, target: Target, project: Option<string>, evidence: seq<Evidence>, now: int): Job {
    Job(id, account, target, project, Pending, now, None, None, None, 0, None, None, None, None, None, None, None, None, None,
        None, None, None, evidence, Hash(target, project, evidence))
  }

  predicate SameRevision(job: Job, account: string, target: Target, project: Option<string>, evidence: seq<Evidence>,
                         memory: string, body: string, operation: Option<nat>) {
    && job.account == account && job.target == target && job.project == project
    && job.status == Completed && job.retirement.None?
    && job.resultKind == Some(Of(target)) && job.resultId == Some(memory) && job.resultContent == Some(body)
    && (operation.Some? ==> job.operationId == operation)
    && job.hash == Hash(target, project, evidence)
  }

  function RevisionJob(id: JobId, account: string, target: Target, project: Option<string>, evidence: seq<Evidence>,
                       memory: string, body: string, committedAt: int, operation: Option<nat>, coreBody: Option<string>): Job {
    NewJob(id, account, target, project, evidence, committedAt).(
      status := Completed, completedAt := Some(Stamp(committedAt, true)), resultKind := Some(Of(target)),
      resultId := Some(memory), resultContent := Some(body), resultCommittedAt := Some(Stamp(committedAt, true)),
      coreBody := coreBody, operationId := operation)
  }

  predicate RecordAllowed(target: Target, project: Option<string>, items: seq<Evidence>, memory: string, body: string) {
    && target != Skill && |items| > 0 && AllRefsText(items) && Trim(memory) != "" && Trim(body) != ""
    && (target == L4 <==> !Text(project))
  }

  // ---------------------------------------------------------------------------------------
  // Retirement

  predicate IsRevision(job: Job, account: string, memory: string) {
    job.account == account && job.status == Completed && job.resultId == Some(memory)
  }

  predicate RetireConflict(jobs: seq<Job>, account: string, memory: string, operation: Operation) {
    exists i :: 0 <= i < |jobs| && IsRevision(jobs[i], account, memory) &&
      ((operation == Archived && jobs[i].retirement == Some(Retired(Deleted)))
       || (jobs[i].retirement == Some(RetirementPending) && jobs[i].retirementOperation.Some?
           && jobs[i].retirementOperation != Some(operation)))
  }

  /** The revisions a retirement still has to retire. */
  predicate ActiveRevision(job: Job, account: string, memory: string, operation: Operation) {
    IsRevision(job, account, memory) && job.retirement != Some(Retired(operation))
  }

  predicate AllRetired(jobs: seq<Job>, account: string, memory: string, operation: Operation) {
    && (exists i :: 0 <= i < |jobs| && IsRevision(jobs[i], account, memory))
    && (forall i :: 0 <= i < |jobs| && IsRevision(jobs[i], account, memory) ==> jobs[i].retirement == Some(Retired(operation)))
  }

  function Marked(job: Job, account: string, memory: string, operation: Operation, generation: Generation): Job {
    if ActiveRevision(job, account, memory, operation)
    then job.(retirement := Some(RetirementPending), retirementGeneration := Some(generation), retirementOperation := Some(operation))
    else job
  }

  function ActiveIds(jobs: seq<Job>, account: string, memory: string, operation: Operation): set<JobId> {
    set i | 0 <= i < |jobs| && ActiveRevision(jobs[i], account, memory, operation) :: jobs[i].id
  }

  predicate Retrying(jobs: seq<Job>, account: string, memory: string, operation: Operation) {
    && (exists i :: 0 <= i < |jobs| && ActiveRevision(jobs[i], account, memory, operation))
    && forall i :: 0 <= i < |jobs| && ActiveRevision(jobs[i], account, memory, operation) ==>
         jobs[i].retirement == Some(RetirementPending) && jobs[i].retirementOperation == Some(operation)
  }

  /** The records to restore if Core refuses: those that were not pending before. */
  function PreviousOf(jobs: seq<Job>, account: string, memory: string, operation: Operation): map<JobId, Job> {
    if |jobs| == 0 then map[]
    else
      var rest := PreviousOf(jobs[1..], account, memory, operation);
      if ActiveRevision(jobs[0], account, memory, operation) && jobs[0].retirement != Some(RetirementPending)
      then rest[jobs[0].id := jobs[0]] else rest
  }

  /** The job is still pending under the call's own generation. */
  predicate Owned(job: Job, r: Retiring, generation: Generation) {
    && job.account == r.account && job.resultId == Some(r.memory)
    && job.retirement == Some(RetirementPending) && job.retirementGeneration == Some(generation)
  }

  predicate AllOwned(jobs: seq<Job>, r: Retiring, generation: Generation) {
    forall id :: id in r.revisions ==> exists i :: 0 <= i < |jobs| && jobs[i].id == id && Owned(jobs[i], r, generation)
  }

  function Finalized(job: Job, r: Retiring, generation: Generation): Job {
    if job.id in r.revisions && Owned(job, r, generation) then job.(retirement := Some(Retired(r.operation))) else job
  }

  function RolledBack(job: Job, r: Retiring, generation: Generation): Job {
    if job.id in r.previous && Owned(job, r, generation) then r.previous[job.id] else job
  }

  predicate Finalizes(r: Retiring, outcome: Outcome) {
    outcome.CoreDone? || (r.retrying && r.operation == Deleted && outcome == CoreHttp(404))
  }

  predicate RollsBack(r: Retiring, outcome: Outcome) {
    !Finalizes(r, outcome) && r.previous != map[] && outcome.CoreHttp? && 400 <= outcome.status < 600
  }

  function MapJobs(jobs: seq<Job>, f: Job -> Job): (r: seq<Job>)
    ensures |r| == |jobs| && forall i :: 0 <= i < |jobs| ==> r[i] == f(jobs[i])
  {
    seq(|jobs|, i requires 0 <= i < |jobs| => f(jobs[i]))
  }

  // ---------------------------------------------------------------------------------------
  // The machine

  function IssuedTo(s: State, id: JobId): seq<Credential> {
    if id in s.issued then s.issued[id] else []
  }

  function ApplyLease(s: State, r: LeaseRequest): State {
    match Find(s.jobs, (job: Job) => Leasable(job, r))
    case None => s
    case Some(i) =>
      var job := s.jobs[i];
      s.(jobs := s.jobs[i := LeasedJob(job, r, s.next)], next := s.next + 1,
         issued := s.issued[job.id := IssuedTo(s, job.id) + [CredentialOf(r, s.next)]])
  }

  function ApplyOnJob(s: State, account: string, id: JobId, w: Work): State {
    match Find(s.jobs, (job: Job) => job.id == id && job.account == account)
    case None => s
    case Some(i) =>
      match Worked(s.jobs[i], w)
      case None => s
      case Some(job) => s.(jobs := s.jobs[i := job])
  }

  function ApplyEnqueue(s: State, account: string, target: Target, project: Option<string>, items: seq<Evidence>, now: int): State {
    var evidence := Canonical(items);
    if !AllRefsText(items) || Find(s.jobs, (job: Job) => Clashes(job, account, target, project, evidence)).Some? then s
    else s.(jobs := s.jobs + [NewJob(s.next, account, target, project, evidence, now)], next := s.next + 1,
            enqueued := s.enqueued + {s.next})
  }

  /** The id and the body are stored trimmed, but the body Core confirmed is hashed as it came. */
  function ApplyRecord(s: State, op: Op): State
    requires op.Record?
  {
    var evidence := Canonical(op.items);
    var memory, body := Trim(op.memory), Trim(op.body);
    if !RecordAllowed(op.target, op.project, op.items, op.memory, op.body)
      || Find(s.jobs, (job: Job) => SameRevision(job, op.account, op.target, op.project, evidence, memory, body, op.commit)).Some?
    then s
    else s.(jobs := s.jobs + [RevisionJob(s.next, op.account, op.target, op.project, evidence, memory, body,
                                          op.committedAt, op.commit, op.coreBody)],
            next := s.next + 1)
  }

  function ApplyRetireBegin(s: State, account: string, memory: string, operation: Operation): State {
    if RetireConflict(s.jobs, account, memory, operation) || AllRetired(s.jobs, account, memory, operation)
    then s.(next := s.next + 1)
    else s.(jobs := MapJobs(s.jobs, (job: Job) => Marked(job, account, memory, operation, s.next)),
            next := s.next + 1,
            retiring := s.retiring[s.next := Retiring(account, memory, operation,
                                                      ActiveIds(s.jobs, account, memory, operation),
                                                      Retrying(s.jobs, account, memory, operation),
                                                      PreviousOf(s.jobs, account, memory, operation))])
  }

  function ApplyRetireFinish(s: State, generation: Generation, outcome: Outcome): State {
    if generation !in s.retiring then s
    else
      var r := s.retiring[generation];
      var jobs :=
        if Finalizes(r, outcome) then
          if AllOwned(s.jobs, r, generation) then MapJobs(s.jobs, (job: Job) => Finalized(job, r, generation)) else s.jobs
        else if RollsBack(r, outcome) then MapJobs(s.jobs, (job: Job) => RolledBack(job, r, generation))
        else s.jobs;
      s.(jobs := jobs, retiring := s.retiring - {generation})
  }

  function Apply(s: State, op: Op): State {
    match op
    case Lease(r) => ApplyLease(s, r)
    case OnJob(account, id, w) => ApplyOnJob(s, account, id, w)
    case Enqueue(account, target, project, items, now) => ApplyEnqueue(s, account, target, project, items, now)
    case Record(_, _, _, _, _, _, _, _, _) => ApplyRecord(s, op)
    case RetireBegin(account, memory, operation) => ApplyRetireBegin(s, account, memory, operation)
    case RetireFinish(generation, outcome) => ApplyRetireFinish(s, generation, outcome)
  }

  /** The store after any sequence of operations, by whichever workers, in any order. */
  function Replay(s: State, ops: seq<Op>): State
    decreases |ops|
  {
    if |ops| == 0 then s else Replay(Apply(s, ops[0]), ops[1..])
  }

  ghost predicate Reachable(s: State) {
    exists ops :: s == Replay(EMPTY, ops)
  }
}
