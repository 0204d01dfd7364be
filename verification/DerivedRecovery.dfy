/**
 Rebuilding missing queue claims from completed results: src/distillation-derived-recovery.ts.
 */
module DerivedRecovery {
  import opened Common
  import opened CurrentL3
  import opened DerivedProvenance
  import opened JobLedger
  import opened JobProgram
  import Enqueueing
  import LeaseFencing
  import Retirement
  import Sorting

  datatype Failure =
    | SourceMissing | SourceIncomplete | ClaimConflict(reason: Reason) | ProvenanceChanged | NoProject | QueueConflict
    | TooFewProjects | NotCurrent | ManyClaims | EvidenceDiffers | SnapshotChanged

  datatype Reconciled = Reconciled(alreadyQueued: bool, derived: Option<JobId>)

  type Answer = Result<Reconciled, Failure>

  function FindById(jobs: seq<Job>, id: JobId): (r: Option<Job>)
    ensures r.Some? ==> r.value in jobs && r.value.id == id
    ensures r.None? ==> forall job :: job in jobs ==> job.id != id
  {
    match Find(jobs, (job: Job) => job.id == id)
    case Some(i) => Some(jobs[i])
    case None => None
  }

  // ---------------------------------------------------------------------------------------
  // L2 to L3

  /** checkedSource, once the job is found. */
  predicate SourceOk(job: Job, project: string) {
    CompletedL2(job, Some(project)) && job.resultKind == Some(Of(L2)) && |job.evidence| > 0
  }

  /** A finished L2 result of the project that came from evidence. */
  predicate IsSource(job: Job, project: string) {
    IsL2Result(job, Some(project)) && job.resultKind == Some(Of(L2)) && job.evidence != []
  }

  lemma SourceOkIff(job: Job, project: string)
    ensures SourceOk(job, project) <==> IsSource(job, project)
  {
    if job.resultId.Some? { TextIsNotBlank(job.resultId.value); }
    if job.resultContent.Some? { TextIsNotBlank(job.resultContent.value); }
  }

  /** The job has an exact record of the source. */
  ghost predicate HasRecord(canon: Canon, job: Job, source: Job) {
    exists item :: item in job.evidence && Records(canon, item, source)
  }

  lemma ExactIsRecord(canon: Canon, job: Job, source: Job, project: string)
    requires SourceOk(source, project)
    ensures HasExact(canon, job, source) <==> HasRecord(canon, job, source)
  {
    hide Exact, Records, IsL2Result, CompletedL2;
    forall i | 0 <= i < |job.evidence|
      ensures job.evidence[i] in job.evidence && (Exact(canon, job.evidence[i], source) <==> Records(canon, job.evidence[i], source))
    {
      ExactRecords(canon, job.evidence[i], source, Some(project));
    }
  }

  /** Id, body and time of a result are still the same. */
  predicate SameResult(a: Job, b: Job) {
    && a.resultId == b.resultId && a.resultContent == b.resultContent
    && (if a.resultCommittedAt.Some? && a.resultCommittedAt.value.valid then a.resultCommittedAt else a.completedAt)
       == (if b.resultCommittedAt.Some? && b.resultCommittedAt.value.valid then b.resultCommittedAt else b.completedAt)
  }

  function L2Item(source: Job, project: string): Evidence
    requires SourceOk(source, project)
  {
    Evidence(L2Ref(source), Artifact, ResultStamp(source).value, Some(project), Some(L2),
             "Project Timeline · " + project, source.resultContent.value)
  }

  /** What the item says: the revision by memory and job, its project and body, and when it became effective. */
  lemma L2EvidenceSays(source: Job, project: string)
    requires SourceOk(source, project)
    ensures var item := L2Item(source, project);
      && item.ref == "l2:" + source.resultId.value + ":" + IdText(source.id) && item.kind == Artifact && item.layer == Some(L2)
      && item.project == Some(project) == source.project && Some(item.content) == source.resultContent && item.timestamp.valid
      && (if source.resultCommittedAt.Some? && source.resultCommittedAt.value.valid then source.resultCommittedAt == Some(item.timestamp)
          else source.completedAt == Some(item.timestamp))
  {
    assert "l2" + ":" + source.resultId.value + ":" + IdText(source.id) == "l2:" + source.resultId.value + ":" + IdText(source.id);
  }

  predicate SameProvenance(a: Job, b: Job) {
    a.resultId == b.resultId && a.resultContent == b.resultContent && ResultStamp(a) == ResultStamp(b)
  }

  /** The checks on the job the queue answered with. */
  predicate Answers(canon: Canon, queued: Job, jobs: seq<Job>, source: Job, project: string) {
    queued.project == Some(project) && ValidBatch(canon, queued, jobs + [queued]) && HasExact(canon, queued, source)
  }

  /** Why they failed: a conflict, or the error thrown while the evidence is checked. */
  function Unanswered(canon: Canon, queued: Job, jobs: seq<Job>, source: Job, project: string): Failure {
    if queued.project == Some(project) && ClaimFailure(canon, queued, jobs + [queued], source) == Some(BodyContradictsHash)
    then ClaimConflict(BodyContradictsHash)
    else QueueConflict
  }

  /** The error of a contradicting body is only reported where there is one. */
  lemma IntactConflictIsTheQueues(canon: Canon, queued: Job, jobs: seq<Job>, source: Job, project: string)
    requires Intact(source) && Intact(queued) && forall job :: job in jobs ==> Intact(job)
    ensures Unanswered(canon, queued, jobs, source, project) == QueueConflict
  {
    hide Intact;
    ItemsNeverThrow(canon, queued.evidence, queued.project, jobs + [queued]);
    SearchNeverThrows(canon, queued.evidence, source);
  }

  /**
   reconcileCompletedL2DerivedJob.  `between` and `beforeQueue` are what other callers do between its
   reads and its enqueue.  If it answers with a derived job, that job is in the ledger and consists of
   exact evidence, the source's among it.
   */
  method ReconcileCompletedL2(store: JobStore, canon: Canon, account: string, id: JobId, project: string, dryRun: bool,
                              between: seq<Op>, beforeQueue: seq<Op>, now: int) returns (r: Answer)
    requires Retirement.Inv(store.Store())
    modifies store
    ensures r.Ok? && r.value.derived.Some? ==>
      exists source, queued :: source in Listed(old(store.jobs), account) && source.id == id && IsSource(source, project)
        && queued in store.jobs && queued.id == r.value.derived.value && queued.target == L3 && queued.project == Some(project)
        && HasRecord(canon, queued, source)
    ensures r.Ok? && !r.value.alreadyQueued && !dryRun ==>
      exists before, after :: before in Listed(old(store.jobs), account) && before.id == id
        && after in Listed(Replay(old(store.Store()), between).jobs, account) && after.id == id
        && IsSource(after, project) && SameResult(before, after)
    ensures (forall job :: job in Listed(old(store.jobs), account) && job.id == id ==> !IsSource(job, project)) ==>
      r in {Err(SourceMissing), Err(SourceIncomplete)} && store.Store() == old(store.Store())
    ensures r.Ok? ==> (r.value.derived.None? <==> dryRun && !r.value.alreadyQueued)
    ensures dryRun ==> store.Store() == old(store.Store())
    ensures between == [] && beforeQueue == [] ==>
      (store.Store(), r) == QuietL2(canon, old(store.Store()), account, id, project, dryRun, now)
  {
    hide Retirement.Inv, LeaseFencing.Keeps, CompletedL2, Inspect, Exact, ValidBatch, HasExact, Canonical, Clashes, AllRefsText, Replay,
      IsSource, HasRecord, SameResult,
      LeaseFencing.Identities;
    ghost var s0 := store.Store();
    var jobs := Listed(store.jobs, account);
    var found := FindById(jobs, id);
    if found.None? { return Err(SourceMissing); }
    var source := found.value;
    SourceOkIff(source, project);
    if !SourceOk(source, project) { return Err(SourceIncomplete); }
    SourceHasId(source, project);
    var claim := Inspect(canon, jobs, source);
    if claim.Conflict? { return Err(ClaimConflict(claim.reason)); }
    if claim.Valid? {
      ValidClaimIsThere(canon, jobs, source, project);
      ExactIsRecord(canon, claim.representative, source, project);
      return Ok(Reconciled(true, Some(claim.representative.id)));
    }
    if dryRun { return Ok(Reconciled(false, None)); }
    store.Others(between);
    NothingElse(s0, between);
    var latest := FindById(Listed(store.jobs, account), id);
    if latest.None? { return Err(SourceMissing); }
    SourceOkIff(latest.value, project);
    if !SourceOk(latest.value, project) { return Err(SourceIncomplete); }
    if !SameProvenance(latest.value, source) { return Err(ProvenanceChanged); }
    SameProvenanceIsSame(source, latest.value, project);
    ghost var s1 := store.Store();
    store.Others(beforeQueue);
    NothingElse(s1, beforeQueue);
    if |project| == 0 { return Err(NoProject); }
    OneItem(L2Item(source, project));
    L2ItemHasRef(source, project);
    var created, queued := store.EnqueueJob(account, L3, Some(project), [L2Item(source, project)], now);
    if !Answers(canon, queued.value, jobs, source, project) { return Err(Unanswered(canon, queued.value, jobs, source, project)); }
    AnswerIsL3(canon, queued.value, jobs, source, project);
    ExactIsRecord(canon, queued.value, source, project);
    return Ok(Reconciled(!created, Some(queued.value.id)));
  }

  lemma SameProvenanceIsSame(a: Job, b: Job, project: string)
    requires SourceOk(a, project) && SourceOk(b, project)
    ensures SameProvenance(a, b) <==> SameResult(a, b)
  {
  }

  lemma NothingElse(s: State, ops: seq<Op>)
    ensures ops == [] ==> Replay(s, ops) == s
  {
  }

  lemma SourceHasId(source: Job, project: string)
    requires SourceOk(source, project)
    ensures source.resultId.Some? && source.project == Some(project) && HasText(source.resultId)
    ensures source.resultContent.Some? && ResultStamp(source).Some?
  {
  }

  lemma AnswerIsL3(canon: Canon, queued: Job, jobs: seq<Job>, source: Job, project: string)
    requires Answers(canon, queued, jobs, source, project)
    ensures queued.target == L3 && queued.project == Some(project)
  {
  }

  lemma L2ItemHasRef(source: Job, project: string)
    requires SourceOk(source, project)
    ensures AllRefsText([L2Item(source, project)])
  {
    assert L2Item(source, project).ref[0] == 'l';
  }

  lemma ValidClaimIsThere(canon: Canon, jobs: seq<Job>, source: Job, project: string)
    requires SourceOk(source, project) && source.resultId.Some? && Inspect(canon, jobs, source).Valid?
    ensures var claim := Inspect(canon, jobs, source);
      && claim.representative in jobs && claim.representative.target == L3
      && claim.representative.project == Some(project) && HasExact(canon, claim.representative, source)
  {
    hide ValidBatch, HasExact, OneLineage;
    ValidMeans(canon, jobs, source);
    var matches := Inspect(canon, jobs, source).claims;
    var i :| 0 <= i < |matches| && matches[i] == Inspect(canon, jobs, source).representative;
    assert GoodClaim(canon, matches[i], jobs, source);
    assert matches[i] in matches;
  }

  /** The reconciliation without interference, as a function of the ledger. */
  function QuietL2(canon: Canon, s: State, account: string, id: JobId, project: string, dryRun: bool, now: int): (State, Answer) {
    var jobs := Listed(s.jobs, account);
    var found := FindById(jobs, id);
    if found.None? then (s, Err(SourceMissing))
    else if !SourceOk(found.value, project) then (s, Err(SourceIncomplete))
    else
      var source := found.value;
      match Inspect(canon, jobs, source)
      case Conflict(_, reason) => (s, Err(ClaimConflict(reason)))
      case Valid(_, representative) => (s, Ok(Reconciled(true, Some(representative.id))))
      case Missing =>
        if dryRun then (s, Ok(Reconciled(false, None)))
        else if |project| == 0 then (s, Err(NoProject))
        else
          var item := [L2Item(source, project)];
          var queued := QueueAnswer(s, account, L3, Some(project), item, now);
          var t := ApplyEnqueue(s, account, L3, Some(project), item, now);
          if !Answers(canon, queued, jobs, source, project) then (t, Err(Unanswered(canon, queued, jobs, source, project)))
          else (t, Ok(Reconciled(!NoBatchFor(s.jobs, account, L3, Some(project), item), Some(queued.id))))
  }

  lemma {:induction false} ListedAppend(jobs: seq<Job>, job: Job, account: string)
    ensures Listed(jobs + [job], account) ==
      if job.account == account && job.retirement.None? then Listed(jobs, account) + [job] else Listed(jobs, account)
  {
    if |jobs| == 0 {
      assert jobs + [job] == [job];
    } else {
      assert (jobs + [job])[1..] == jobs[1..] + [job];
      ListedAppend(jobs[1..], job, account);
    }
  }

  lemma {:induction false} ClaimsAppend(jobs: seq<Job>, job: Job, ref: string)
    ensures ClaimsOf(jobs + [job], ref) ==
      if job.target == L3 && HasRef(job.evidence, ref) then ClaimsOf(jobs, ref) + [job] else ClaimsOf(jobs, ref)
  {
    hide HasRef;
    if |jobs| == 0 {
      assert jobs + [job] == [job];
    } else {
      assert (jobs + [job])[1..] == jobs[1..] + [job];
      ClaimsAppend(jobs[1..], job, ref);
    }
  }

  /** A claim that was missing and has just been queued is the one valid claim. */
  lemma QueuedIsValid(canon: Canon, jobs: seq<Job>, queued: Job, source: Job, project: string)
    requires SourceOk(source, project) && source.resultId.Some? && Inspect(canon, jobs, source).Missing?
    requires queued.target == L3 && queued.evidence == [L2Item(source, project)] && Answers(canon, queued, jobs, source, project)
    ensures Inspect(canon, jobs + [queued], source) == Valid([queued], queued)
  {
    hide Inspect, ValidBatch, HasExact, CompletedL2, OneLineage, HasText;
    SourceHasId(source, project);
    assert queued.evidence[0].ref == L2Ref(source);
    ValidMeans(canon, jobs, source);
    ClaimsAppend(jobs, queued, L2Ref(source));
    assert ClaimsOf(jobs + [queued], L2Ref(source)) == [queued];
    assert GoodClaim(canon, queued, jobs + [queued], source);
    ValidMeans(canon, jobs + [queued], source);
  }

  /** A live job that references the source would have been a claim. */
  lemma LiveIsClaim(canon: Canon, s: State, account: string, queued: Job, source: Job, project: string)
    requires SourceOk(source, project) && source.resultId.Some? && Inspect(canon, Listed(s.jobs, account), source).Missing?
    requires queued in s.jobs && queued.account == account && queued.target == L3 && queued.evidence == [L2Item(source, project)]
    ensures queued.retirement.Some?
  {
    hide Inspect, ValidBatch, HasExact, CompletedL2, OneLineage, HasText;
    var jobs := Listed(s.jobs, account);
    assert queued.evidence[0].ref == L2Ref(source);
    if queued.retirement.None? {
      ClaimFound(jobs, queued, L2Ref(source));
    }
    ValidMeans(canon, jobs, source);
  }

  lemma ClaimFound(jobs: seq<Job>, job: Job, ref: string)
    requires job in jobs && job.target == L3 && HasRef(job.evidence, ref)
    ensures ClaimsOf(jobs, ref) != []
  {
    assert job in ClaimsOf(jobs, ref);
  }

  /** What one uninterrupted call that found no claim does to the ledger. */
  lemma QueueCases(canon: Canon, s: State, account: string, source: Job, project: string, now: int)
    requires Reachable(s) && SourceOk(source, project) && source.resultId.Some?
    requires Inspect(canon, Listed(s.jobs, account), source).Missing?
    ensures var item := [L2Item(source, project)];
      var queued := QueueAnswer(s, account, L3, Some(project), item, now);
      var t := ApplyEnqueue(s, account, L3, Some(project), item, now);
      && queued in t.jobs && queued.target == L3 && queued.evidence == item && queued.account == account
      && (NoBatchFor(s.jobs, account, L3, Some(project), item) ==>
            t.jobs == s.jobs + [queued] && queued.retirement.None? && queued.id == s.next)
      && (!NoBatchFor(s.jobs, account, L3, Some(project), item) ==> t == s && queued.retirement.Some?)
  {
    hide CompletedL2, L2Item, Inspect, Canonical, AllRefsText, Reachable, SharesTurn;
    var item := [L2Item(source, project)];
    OneItem(L2Item(source, project));
    L2ItemHasRef(source, project);
    var existing := Find(s.jobs, (j: Job) => SameBatch(j, account, L3, Some(project), item));
    if existing.Some? {
      ClashFound(s.jobs, existing.value, account, L3, Some(project), item);
      HashTellsEvidence(s, existing.value);
      LiveIsClaim(canon, s, account, s.jobs[existing.value], source, project);
    } else {
      NoClashFound(s.jobs, account, L3, Some(project), item);
    }
  }

  lemma HashTellsEvidence(s: State, i: nat)
    requires Reachable(s) && i < |s.jobs|
    ensures s.jobs[i].hash == Hash(s.jobs[i].target, s.jobs[i].project, s.jobs[i].evidence)
  {
    hide Apply;
    var ops :| s == Replay(EMPTY, ops);
    Enqueueing.ReplayKeeps(EMPTY, ops);
  }

  /**
   What a caller can see before the call: one that answers ok leaves the claim valid exactly if it
   was valid already or no job, retired ones included, has the very batch of this source.
   */
  lemma {:induction false} OkIsValidIffBatchIsNew(canon: Canon, s: State, account: string, id: JobId, project: string, now: int)
    requires Reachable(s) && QuietL2(canon, s, account, id, project, false, now).1.Ok?
    ensures var t := QuietL2(canon, s, account, id, project, false, now).0;
      var source := FindById(Listed(s.jobs, account), id);
      && source.Some? && SourceOk(source.value, project)
      && (Inspect(canon, Listed(t.jobs, account), source.value).Valid? <==>
            || Inspect(canon, Listed(s.jobs, account), source.value).Valid?
            || NoBatchFor(s.jobs, account, L3, Some(project), [L2Item(source.value, project)]))
  {
    hide CompletedL2, Inspect, ValidBatch, HasExact, Canonical, AllRefsText, NoBatchFor, Reachable, ApplyEnqueue, QueueAnswer, L2Item;
    var t := QuietL2(canon, s, account, id, project, false, now).0;
    var jobs := Listed(s.jobs, account);
    var source := FindById(jobs, id).value;
    SourceHasId(source, project);
    if Inspect(canon, jobs, source).Missing? {
      var item := [L2Item(source, project)];
      QueueCases(canon, s, account, source, project, now);
      var queued := QueueAnswer(s, account, L3, Some(project), item, now);
      if NoBatchFor(s.jobs, account, L3, Some(project), item) {
        ListedAppend(s.jobs, queued, account);
        QueuedIsValid(canon, jobs, queued, source, project);
      }
    }
  }

  lemma {:induction false} ReplayOneMore(s: State, ops: seq<Op>, op: Op)
    ensures Replay(s, ops + [op]) == Apply(Replay(s, ops), op)
    decreases |ops|
  {
    hide Apply;
    if |ops| == 0 {
      assert ops + [op] == [op];
    } else {
      assert (ops + [op])[1..] == ops[1..] + [op];
      ReplayOneMore(Apply(s, ops[0]), ops[1..], op);
    }
  }

  /** A second call after one that answered ok changes nothing and names the same job. */
  lemma {:induction false} SecondCallAddsNothing(canon: Canon, s: State, account: string, id: JobId, project: string, now: int, later: int)
    requires Reachable(s)
    requires QuietL2(canon, s, account, id, project, false, now).1.Ok?
    ensures var (t, r) := QuietL2(canon, s, account, id, project, false, now);
      QuietL2(canon, t, account, id, project, false, later) == (t, Ok(Reconciled(true, r.value.derived)))
  {
    hide CompletedL2, Inspect, ValidBatch, HasExact, Canonical, AllRefsText, Reachable, ApplyEnqueue, L2Item, SharesTurn;
    var (t, r) := QuietL2(canon, s, account, id, project, false, now);
    var jobs := Listed(s.jobs, account);
    var source := FindById(jobs, id).value;
    SourceHasId(source, project);
    if Inspect(canon, jobs, source).Missing? {
      var item := [L2Item(source, project)];
      QueueCases(canon, s, account, source, project, now);
      var queued := QueueAnswer(s, account, L3, Some(project), item, now);
      if NoBatchFor(s.jobs, account, L3, Some(project), item) {
        ListedAppend(s.jobs, queued, account);
        QueuedIsValid(canon, jobs, queued, source, project);
        FindAppend(jobs, queued, id, source);
      } else {
        QueueCases(canon, s, account, source, project, later);
      }
    }
  }

  lemma FindAppend(jobs: seq<Job>, job: Job, id: JobId, found: Job)
    requires FindById(jobs, id) == Some(found)
    ensures FindById(jobs + [job], id) == Some(found)
  {
    var all := jobs + [job];
    var i := Find(jobs, (j: Job) => j.id == id);
    var k := Find(all, (j: Job) => j.id == id);
    assert all[i.value] == jobs[i.value];
    assert forall m :: 0 <= m < |jobs| ==> all[m] == jobs[m];
  }

  lemma ItemIsExactIffIntact(canon: Canon, source: Job, project: string)
    requires SourceOk(source, project)
    ensures Exact(canon, L2Item(source, project), source) <==> Intact(source)
  {
  }

  lemma BackedBySource(canon: Canon, jobs: seq<Job>, queued: Job, source: Job, project: string)
    requires DistinctIds(jobs) && source in jobs && SourceOk(source, project) && queued.target == L3
    ensures SourceByRef(jobs + [queued], Some(project), L2Ref(source)) == Some(source)
  {
    SourceIsTheOne(jobs, Some(project), L2Ref(source), source);
    assert (jobs + [queued])[..|jobs|] == jobs;
  }

  /**
   A missing claim of a checked source is rebuilt exactly if the source's body agrees with what Core
   confirmed; a batch found in a retired job counts as rebuilt too.
   */
  lemma {:induction false} MissingIsRebuiltIffIntact(canon: Canon, s: State, account: string, id: JobId, project: string, now: int, source: Job)
    requires Reachable(s) && FindById(Listed(s.jobs, account), id) == Some(source)
    requires SourceOk(source, project) && source.resultId.Some? && |project| > 0
    requires Inspect(canon, Listed(s.jobs, account), source).Missing?
    ensures QuietL2(canon, s, account, id, project, false, now).1.Ok? <==> Intact(source)
  {
    hide CompletedL2, Inspect, Exact, Canonical, AllRefsText, Reachable, ApplyEnqueue, L2Item, SharesTurn, LeaseFencing.LeasesInv,
      LeaseFencing.RetirementsInv, NoBatchFor, QueueAnswer, SourceByRef;
    var jobs := Listed(s.jobs, account);
    var item := [L2Item(source, project)];
    var queued := QueueAnswer(s, account, L3, Some(project), item, now);
    SourceHasId(source, project);
    QueueCases(canon, s, account, source, project, now);
    AnswerHasProject(s, account, project, item, now);
    LeaseFencing.ReachableInv(s);
    ListedDistinct(s.jobs, account);
    BackedBySource(canon, jobs, queued, source, project);
    ItemIsExactIffIntact(canon, source, project);
    ItemHasRef(source, project);
    assert queued.evidence[0] == item[0];
    assert Backed(canon, item[0], Some(project), jobs + [queued]) <==> Intact(source);
  }

  lemma ItemHasRef(source: Job, project: string)
    requires SourceOk(source, project)
    ensures L2Item(source, project).ref == L2Ref(source)
  {
  }

  lemma AnswerHasProject(s: State, account: string, project: string, item: seq<Evidence>, now: int)
    ensures QueueAnswer(s, account, L3, Some(project), item, now).project == Some(project)
  {
    hide SharesTurn;
  }

  /**
   Direct revisions store the trimmed body beside the hash of the body as Core confirmed it.  So a
   direct L2 result is rebuilt exactly if that body has nothing to trim.
   */
  lemma {:induction false} DirectIsRebuiltIffTrimmed(canon: Canon, s: State, op: Op, project: string, now: int)
    requires Reachable(s) && DirectL2(op, project) && Apply(s, op) != s
    requires Inspect(canon, Listed(Apply(s, op).jobs, op.account), DirectJob(s, op)).Missing?
    ensures QuietL2(canon, Apply(s, op), op.account, s.next, project, false, now).1.Ok? <==> Trim(op.body) == op.body
  {
    hide CompletedL2, Inspect, Canonical, AllRefsText, Reachable, DirectL2, QuietL2, Trim, RecordAllowed;
    var t := Apply(s, op);
    DirectIsListed(s, op, project);
    ReachableNext(s, op);
    ProjectIsText(op, project);
    MissingIsRebuiltIffIntact(canon, t, op.account, s.next, project, now, DirectJob(s, op));
  }

  /** A direct L2 submit whose Core answer had a body. */
  predicate DirectL2(op: Op, project: string) {
    && op.Record? && op.target == L2 && op.project == Some(project) && op.coreBody == Some(op.body)
    && RecordAllowed(L2, Some(project), op.items, op.memory, op.body)
  }

  function DirectJob(s: State, op: Op): (r: Job)
    requires op.Record?
    ensures r.resultId == Some(Trim(op.memory)) && r.id == s.next
    ensures r.coreBody == op.coreBody && r.resultContent == Some(Trim(op.body))
  {
    RevisionJob(s.next, op.account, op.target, op.project, Canonical(op.items), Trim(op.memory), Trim(op.body),
                op.committedAt, op.commit, op.coreBody)
  }

  lemma ProjectIsText(op: Op, project: string)
    requires DirectL2(op, project)
    ensures |project| > 0 && op.coreBody == Some(op.body) && op.Record?
  {
  }

  lemma ReachableNext(s: State, op: Op)
    requires Reachable(s)
    ensures Reachable(Apply(s, op))
  {
    hide Apply;
    var ops :| s == Replay(EMPTY, ops);
    ReplayOneMore(EMPTY, ops, op);
  }

  lemma DirectIsListed(s: State, op: Op, project: string)
    requires Reachable(s) && DirectL2(op, project) && Apply(s, op) != s
    ensures var t := Apply(s, op);
      FindById(Listed(t.jobs, op.account), s.next) == Some(DirectJob(s, op)) && SourceOk(DirectJob(s, op), project)
  {
    hide Reachable, CompletedL2, Canonical, Trim, SameRevision, LeaseFencing.LeasesInv, LeaseFencing.RetirementsInv;
    var job := DirectJob(s, op);
    var t := Apply(s, op);
    assert t.jobs == s.jobs + [job];
    ListedAppend(s.jobs, job, op.account);
    LeaseFencing.ReachableInv(s);
    NewIsFound(Listed(s.jobs, op.account), job);
    DirectIsSource(s, op, project);
  }

  lemma NewIsFound(jobs: seq<Job>, job: Job)
    requires forall other :: other in jobs ==> other.id != job.id
    ensures FindById(jobs + [job], job.id) == Some(job)
  {
    var found := FindById(jobs + [job], job.id);
    assert (jobs + [job])[|jobs|] == job;
  }

  lemma DirectIsSource(s: State, op: Op, project: string)
    requires DirectL2(op, project)
    ensures SourceOk(DirectJob(s, op), project)
  {
    hide Canonical, Trim, Blank;
    TrimmedHasText(op.memory);
    TrimmedHasText(op.body);
    CanonicalNotEmpty(op.items);
  }

  lemma CanonicalNotEmpty(items: seq<Evidence>)
    requires |items| > 0
    ensures |Canonical(items)| > 0
  {
    Enqueueing.CanonicalList(items);
    assert HasRef(items, items[0].ref);
  }

  // ---------------------------------------------------------------------------------------
  // Two stores, replayed from the empty one

  const TURN := Evidence("turn:1", EvidenceKind.Turn, Stamp(0, true), Some("p"), None, "", "what was said")

  /** A direct L2 result, and the job it leaves in an empty ledger. */
  function DirectOp(body: string, coreBody: Option<string>): Op {
    Record("account", L2, Some("p"), [TURN], "m", body, 1, None, coreBody)
  }

  function Timeline(coreBody: Option<string>): Job {
    RevisionJob(0, "account", L2, Some("p"), [TURN], "m", "timeline", 1, None, coreBody)
  }

  lemma TimelineRecorded(body: string, coreBody: Option<string>)
    requires body == "timeline" || body == "timeline\n"
    ensures Apply(EMPTY, DirectOp(body, coreBody)) == EMPTY.(jobs := [Timeline(coreBody)], next := 1)
    ensures Reachable(EMPTY.(jobs := [Timeline(coreBody)], next := 1))
  {
    hide Canonical, Apply;
    TimelineTrimmed(body);
    NothingToTrim("m");
    OneItem(TURN);
    assert TURN.ref[0] == 't';
    RecordedFirst(DirectOp(body, coreBody));
    ReplayFirst(EMPTY, DirectOp(body, coreBody), []);
    assert [DirectOp(body, coreBody)] + [] == [DirectOp(body, coreBody)];
  }

  lemma TimelineTrimmed(body: string)
    requires body == "timeline" || body == "timeline\n"
    ensures Trim(body) == "timeline"
  {
    assert "timeline"[0] == 't' && "timeline"[7] == 'e';
    NothingToTrim("timeline");
    if body == "timeline\n" {
      assert body[0] == 't' && body[|body| - 1] == '\n' && body[..|body| - 1] == "timeline";
    }
  }

  lemma TimelineIsSource(coreBody: Option<string>)
    ensures SourceOk(Timeline(coreBody), "p") && FindById([Timeline(coreBody)], 0) == Some(Timeline(coreBody))
    ensures Listed([Timeline(coreBody)], "account") == [Timeline(coreBody)]
  {
    assert "m"[0] == 'm' && "timeline"[0] == 't';
  }

  lemma NoClaims(canon: Canon, jobs: seq<Job>, source: Job)
    requires source.resultId.Some? && forall job :: job in jobs ==> job.target != L3
    ensures Inspect(canon, jobs, source).Missing?
  {
    hide ValidBatch, HasExact, OneLineage, L2Ref;
    NoneReferences(jobs, L2Ref(source));
  }

  lemma {:induction false} NoneReferences(jobs: seq<Job>, ref: string)
    requires forall job :: job in jobs ==> job.target != L3
    ensures ClaimsOf(jobs, ref) == []
  {
    if |jobs| > 0 {
      NoneReferences(jobs[1..], ref);
    }
  }

  /** Where the body was changed, an L3 job is queued all the same, and then its check fails with an error. */
  lemma QueuedThenRefused(canon: Canon, s: State, account: string, id: JobId, project: string, now: int, source: Job)
    requires Reachable(s) && FindById(Listed(s.jobs, account), id) == Some(source)
    requires SourceOk(source, project) && source.resultId.Some? && |project| > 0 && !Intact(source)
    requires forall job :: job in s.jobs ==> job.target != L3
    ensures var (t, r) := QuietL2(canon, s, account, id, project, false, now);
      r == Err(ClaimConflict(BodyContradictsHash)) && |t.jobs| == |s.jobs| + 1 && t.jobs[|s.jobs|].target == L3
  {
    hide CompletedL2, Inspect, Answers, Unanswered, Canonical, AllRefsText, Reachable, ApplyEnqueue, L2Item, SharesTurn, QueueAnswer;
    NoClaims(canon, Listed(s.jobs, account), source);
    QueueCases(canon, s, account, source, project, now);
    MissingIsRebuiltIffIntact(canon, s, account, id, project, now, source);
    var queued := QueueAnswer(s, account, L3, Some(project), [L2Item(source, project)], now);
    AnswerHasProject(s, account, project, [L2Item(source, project)], now);
    LeaseFencing.ReachableInv(s) by { hide LeaseFencing.LeasesInv, LeaseFencing.RetirementsInv; }
    ListedDistinct(s.jobs, account);
    ItemThrows(canon, Listed(s.jobs, account), queued, source, project);
  }

  lemma ItemThrows(canon: Canon, jobs: seq<Job>, queued: Job, source: Job, project: string)
    requires DistinctIds(jobs) && source in jobs && SourceOk(source, project) && |project| > 0 && !Intact(source)
    requires queued.target == L3 && queued.evidence == [L2Item(source, project)] && queued.project == Some(project)
    ensures Unanswered(canon, queued, jobs, source, project) == ClaimConflict(BodyContradictsHash)
  {
    hide SourceByRef;
    BackedBySource(canon, jobs, queued, source, project);
    ItemHasRef(source, project);
    ItemIsExactIffIntact(canon, source, project);
    assert queued.evidence[0] == L2Item(source, project);
  }

  /**
   A reachable store: Core confirmed a body that ends in a line break, so the reconciliation queues
   the missing L3 job and then fails.
   */
  lemma UntrimmedIsRefused(canon: Canon, now: int)
    ensures var s := Apply(EMPTY, DirectOp("timeline\n", Some("timeline\n")));
      && Reachable(s) && FindById(Listed(s.jobs, "account"), 0).Some?
      && var (t, r) := QuietL2(canon, s, "account", 0, "p", false, now);
      r == Err(ClaimConflict(BodyContradictsHash)) && |t.jobs| == |s.jobs| + 1 && t.jobs[|s.jobs|].target == L3
  {
    hide Apply, SourceOk, QuietL2, Reachable, Listed;
    var core := Some("timeline\n");
    TimelineRecorded("timeline\n", core);
    TimelineIsSource(core);
    assert |"timeline\n"| == 9 && |"timeline"| == 8;
    QueuedThenRefused(canon, Apply(EMPTY, DirectOp("timeline\n", core)), "account", 0, "p", now, Timeline(core));
  }

  const PROFILE := DoneL3(1, "account", "p", ProfileItem(), "n", "profile", Stamp(3, true), 3)

  function ProfileItem(): Evidence {
    Evidence(RevisionRef("l2", "m", 0), Artifact, Stamp(1, true), Some("p"), Some(L2), "Project Timeline · " + "p", "timeline")
  }

  lemma ItemOfTimeline()
    ensures SourceOk(Timeline(None), "p") && L2Item(Timeline(None), "p") == ProfileItem()
  {
    TimelineIsSource(None);
  }

  /** The claim of the direct result is queued, consolidated into an L3 result, and that is archived. */
  function ArchivedOps(): seq<Op> {
    ThreeSteps("account", "p", ProfileItem(), 1, "n", "profile", Stamp(3, true), 3)
  }

  const ARCHIVED := PROFILE.(retirement := Some(Retired(Archived)), retirementGeneration := Some(3), retirementOperation := Some(Archived))

  ghost predicate InArchive(s: State) {
    Reachable(s) && s.jobs == [Timeline(None), ARCHIVED]
  }

  lemma ArchivedStore() returns (s: State)
    ensures InArchive(s)
  {
    hide Apply, Reachable, L2Item, ProfileItem, Canonical, DoneL3;
    TimelineRecorded("timeline", None);
    var s0 := EMPTY.(jobs := [Timeline(None)], next := 1);
    ItemOfTimeline();
    L2ItemHasRef(Timeline(None), "p");
    OneItem(ProfileItem());
    QueuedAndCompleted(s0, Timeline(None), "account", "p", ProfileItem(), "n", "profile", Stamp(3, true), 3);
    ReachableAfter(s0, ArchivedOps());
    var s1 := Replay(s0, ArchivedOps());
    s := Archives(s1);
  }

  lemma ReachableAfter(s: State, ops: seq<Op>)
    requires Reachable(s)
    ensures Reachable(Replay(s, ops))
    decreases |ops|
  {
    hide Apply, Reachable;
    if |ops| > 0 {
      ReachableNext(s, ops[0]);
      ReachableAfter(Apply(s, ops[0]), ops[1..]);
    }
  }

  lemma Archives(s: State) returns (t: State)
    requires Reachable(s) && s.jobs == [Timeline(None), PROFILE] && s.next == 3 && s.retiring == map[]
    ensures InArchive(t)
  {
    var begin := RetireBegin("account", "n", Archived);
    var finish := RetireFinish(3, CoreDone);
    ReachableNext(s, begin);
    ReachableNext(Apply(s, begin), finish);
    Marks(s);
    Finishes(Apply(s, begin));
    t := Apply(Apply(s, begin), finish);
  }

  lemma Marks(s: State)
    requires s.jobs == [Timeline(None), PROFILE] && s.next == 3 && s.retiring == map[]
    ensures var t := Apply(s, RetireBegin("account", "n", Archived));
      && t.jobs == [Timeline(None), PROFILE.(retirement := Some(RetirementPending), retirementGeneration := Some(3),
                                             retirementOperation := Some(Archived))]
      && 3 in t.retiring && t.retiring[3].account == "account" && t.retiring[3].memory == "n"
      && t.retiring[3].operation == Archived && t.retiring[3].revisions == {1}
  {
    hide ProfileItem;
    assert "m"[0] != "n"[0];
    assert !IsRevision(Timeline(None), "account", "n");
    assert ActiveRevision(s.jobs[1], "account", "n", Archived);
    assert !RetireConflict(s.jobs, "account", "n", Archived);
    assert !AllRetired(s.jobs, "account", "n", Archived);
  }

  lemma Finishes(s: State)
    requires s.jobs == [Timeline(None), PROFILE.(retirement := Some(RetirementPending), retirementGeneration := Some(3),
                                                 retirementOperation := Some(Archived))]
    requires 3 in s.retiring && s.retiring[3].account == "account" && s.retiring[3].memory == "n"
    requires s.retiring[3].operation == Archived && s.retiring[3].revisions == {1}
    ensures Apply(s, RetireFinish(3, CoreDone)).jobs == [Timeline(None), ARCHIVED]
  {
    hide ProfileItem;
    var r := s.retiring[3];
    assert Owned(s.jobs[1], r, 3);
    assert AllOwned(s.jobs, r, 3);
  }

  /**
   A reachable store in which the call answers ok although the claim is and stays missing: the very
   batch is found in a retired job.
   */
  lemma OkOverMissingClaim(canon: Canon, now: int) returns (s: State)
    ensures Reachable(s) && FindById(Listed(s.jobs, "account"), 0) == Some(Timeline(None))
    ensures var (t, r) := QuietL2(canon, s, "account", 0, "p", false, now);
      r.Ok? && t == s && Inspect(canon, Listed(t.jobs, "account"), Timeline(None)).Missing?
  {
    hide CompletedL2, Inspect, Answers, Canonical, AllRefsText, Reachable, ApplyEnqueue, L2Item, ProfileItem, SharesTurn, QueueAnswer, SourceOk;
    s := ArchivedStore();
    TimelineIsSource(None);
    ArchivedListing();
    NoClaims(canon, Listed(s.jobs, "account"), Timeline(None));
    QueueCases(canon, s, "account", Timeline(None), "p", now);
    MissingIsRebuiltIffIntact(canon, s, "account", 0, "p", now, Timeline(None));
    ItemOfTimeline();
    assert SameBatch(s.jobs[1], "account", L3, Some("p"), [L2Item(Timeline(None), "p")]);
  }

  lemma ArchivedListing()
    ensures Listed([Timeline(None), ARCHIVED], "account") == [Timeline(None)]
  {
    hide ProfileItem;
    TimelineIsSource(None);
    ListedAppend([Timeline(None)], ARCHIVED, "account");
    assert [Timeline(None)] + [ARCHIVED] == [Timeline(None), ARCHIVED];
  }
}
