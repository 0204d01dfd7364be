/**
 The L4 job over the current L3 results of all projects, queued by submit (src/distillation-submit.ts)
 and rebuilt by the reconciliation (src/distillation-derived-recovery.ts).
 */
module L4Recovery {
  import opened Common
  import opened CurrentL3
  import opened DerivedRecovery
  import opened JobLedger
  import opened JobProgram
  import DerivedProvenance
  import Enqueueing
  import LeaseFencing
  import Retirement
  import Sorting

  /** checkedL3Source, once the job is found. */
  predicate L3SourceOk(job: Job) {
    && job.target == L3 && job.resultKind == Some(Of(L3)) && job.status == Completed && Text(job.project)
    && HasText(job.resultId) && HasText(job.resultContent) && |job.evidence| > 0 && ResultStamp(job).Some?
  }

  /** A finished and attributable L3 result that came from evidence. */
  predicate IsSource(job: Job) {
    && job.target == L3 && job.status == Completed && job.resultKind == Some(Of(L3)) && job.project.Some? && job.project != Some("")
    && job.resultId.Some? && Trim(job.resultId.value) != "" && job.resultContent.Some? && Trim(job.resultContent.value) != ""
    && job.evidence != []
    && ((job.resultCommittedAt.Some? && job.resultCommittedAt.value.valid) || (job.completedAt.Some? && job.completedAt.value.valid))
  }

  lemma SourceOkIff(job: Job)
    ensures L3SourceOk(job) <==> IsSource(job)
  {
    if job.resultId.Some? { TextIsNotBlank(job.resultId.value); }
    if job.resultContent.Some? { TextIsNotBlank(job.resultContent.value); }
  }

  function RefsOf(items: seq<Evidence>): (r: seq<string>)
    ensures |r| == |items| && forall i :: 0 <= i < |r| ==> r[i] == items[i].ref
  {
    seq(|items|, i requires 0 <= i < |items| => items[i].ref)
  }

  /** An L4 job over the same references, in whatever order. */
  predicate SameRefs(job: Job, items: seq<Evidence>) {
    job.target == L4 && multiset(RefsOf(job.evidence)) == multiset(RefsOf(items))
  }

  predicate SameItem(expected: Evidence, actual: Evidence) {
    && actual.ref == expected.ref && actual.kind == expected.kind && actual.layer == expected.layer
    && actual.project == expected.project && actual.content == expected.content && actual.timestamp == expected.timestamp
  }

  /** The job is account-scoped and has every item of the evidence. */
  predicate Agrees(job: Job, items: seq<Evidence>) {
    && job.project.None? && |job.evidence| == |items|
    && forall i :: 0 <= i < |items| ==> HasItem(job, items[i])
  }

  predicate HasItem(job: Job, item: Evidence) {
    exists j :: 0 <= j < |job.evidence| && SameItem(item, job.evidence[j])
  }

  function Filtered(jobs: seq<Job>, items: seq<Evidence>): (r: seq<Job>)
    ensures forall job :: job in r <==> job in jobs && SameRefs(job, items)
  {
    if |jobs| == 0 then []
    else
      assert jobs == [jobs[0]] + jobs[1..];
      if SameRefs(jobs[0], items) then [jobs[0]] + Filtered(jobs[1..], items) else Filtered(jobs[1..], items)
  }

  /** Some listed L4 job has exactly the references of the current L3 evidence. */
  ghost predicate Claimed(jobs: seq<Job>) {
    exists job :: job in jobs && SameRefs(job, ReconcileEvidence(Snapshot(jobs)))
  }

  /** The item is an exact record of the L3 result. */
  predicate RecordsL3(item: Evidence, job: Job) {
    && job.resultId.Some? && job.completedAt.Some?
    && item.ref == "l3:" + job.resultId.value + ":" + IdText(job.id) && item.kind == Artifact && item.layer == Some(L3)
    && item.project == job.project && Some(item.content) == job.resultContent
    && item.timestamp.valid && item.timestamp.at == EffectiveTime(job)
  }

  /** An account-scoped job with one exact record of each result of the snapshot, and nothing else. */
  ghost predicate RecordsAll(job: Job, snapshot: seq<Job>) {
    && job.project.None? && |job.evidence| == |snapshot|
    && forall i :: 0 <= i < |snapshot| ==> RecordedIn(job, snapshot[i])
  }

  ghost predicate RecordedIn(job: Job, result: Job) {
    exists item :: item in job.evidence && RecordsL3(item, result)
  }

  lemma AgreesIff(job: Job, snapshot: seq<Job>)
    requires forall i :: 0 <= i < |snapshot| ==> Qualifies(snapshot[i])
    ensures Agrees(job, ReconcileEvidence(snapshot)) <==> RecordsAll(job, snapshot)
  {
    hide Qualifies, RecordsL3, SameItem;
    forall i | 0 <= i < |snapshot|
      ensures HasItem(job, ReconcileEvidence(snapshot)[i]) <==> RecordedIn(job, snapshot[i])
    {
      forall j | 0 <= j < |job.evidence|
        ensures job.evidence[j] in job.evidence
        ensures SameItem(ReconcileEvidence(snapshot)[i], job.evidence[j]) <==> RecordsL3(job.evidence[j], snapshot[i])
      {
        SameItemRecords(snapshot, i, job.evidence[j]);
      }
    }
  }

  lemma SameItemRecords(snapshot: seq<Job>, i: nat, item: Evidence)
    requires (forall k :: 0 <= k < |snapshot| ==> Qualifies(snapshot[k])) && i < |snapshot|
    ensures SameItem(ReconcileEvidence(snapshot)[i], item) <==> RecordsL3(item, snapshot[i])
  {
    L4EvidenceSays(snapshot, i);
  }

  /** `job` records exactly the current results of all projects, at least two and the source among them. */
  ghost predicate Aggregates(job: Job, jobs: seq<Job>, id: JobId) {
    && |Snapshot(jobs)| >= 2 && (exists i :: 0 <= i < |Snapshot(jobs)| && Snapshot(jobs)[i].id == id)
    && job.target == L4 && RecordsAll(job, Snapshot(jobs))
  }

  lemma AgreedAggregates(job: Job, jobs: seq<Job>, id: JobId)
    requires |Snapshot(jobs)| >= 2 && exists i :: 0 <= i < |Snapshot(jobs)| && Snapshot(jobs)[i].id == id
    requires forall i :: 0 <= i < |Snapshot(jobs)| ==> Qualifies(Snapshot(jobs)[i])
    ensures SameRefs(job, ReconcileEvidence(Snapshot(jobs))) && Agrees(job, ReconcileEvidence(Snapshot(jobs))) ==> Aggregates(job, jobs, id)
  {
    hide Qualifies, Agrees, RecordsAll, IsSnapshot;
    AgreesIff(job, Snapshot(jobs));
  }

  /** The source is the current result of its project. */
  predicate IsCurrent(snapshot: seq<Job>, source: Job) {
    var current := Find(snapshot, (job: Job) => job.project == source.project);
    current.Some? && snapshot[current.value].id == source.id
  }

  /** The reconciliation as a function of the ledger and of what others do between its reads and its enqueue. */
  ghost function ReconcileL4(s: State, account: string, id: JobId, dryRun: bool, between: seq<Op>, beforeQueue: seq<Op>, now: int): (State, Answer) {
    var jobs := Listed(s.jobs, account);
    var found := FindById(jobs, id);
    var snapshot := Snapshot(jobs);
    if found.None? then (s, Err(SourceMissing))
    else if !L3SourceOk(found.value) then (s, Err(SourceIncomplete))
    else if |snapshot| < 2 then (s, Err(TooFewProjects))
    else if !IsCurrent(snapshot, found.value) then (s, Err(NotCurrent))
    else
      var evidence := ReconcileEvidence(snapshot);
      var matches := Filtered(jobs, evidence);
      if |matches| > 1 then (s, Err(ManyClaims))
      else if |matches| == 1 then (s, if Agrees(matches[0], evidence) then Ok(Reconciled(true, Some(matches[0].id))) else Err(EvidenceDiffers))
      else if dryRun then (s, Ok(Reconciled(false, None)))
      else
        var s1 := Replay(s, between);
        if ReconcileEvidence(Snapshot(Listed(s1.jobs, account))) != evidence then (s1, Err(SnapshotChanged))
        else Queueing(Replay(s1, beforeQueue), account, evidence, now)
  }

  function Queueing(s: State, account: string, evidence: seq<Evidence>, now: int): (State, Answer) {
    var queued := QueueAnswer(s, account, L4, None, Canonical(evidence), now);
    (ApplyEnqueue(s, account, L4, None, evidence, now),
     if SameRefs(queued, evidence) && Agrees(queued, evidence)
     then Ok(Reconciled(!NoBatchFor(s.jobs, account, L4, None, Canonical(evidence)), Some(queued.id)))
     else Err(QueueConflict))
  }

  /**
   reconcileCurrentL4DerivedJob.  A derived job it names aggregates the current result of every
   project, the source among them; it never queues one while an L4 job with the same references is
   listed; and it queues only if the snapshot did not change since its first read.
   */
  method ReconcileCurrentL4(store: JobStore, account: string, id: JobId, dryRun: bool, between: seq<Op>, beforeQueue: seq<Op>, now: int)
    returns (r: Answer)
    requires Retirement.Inv(store.Store())
    modifies store
    ensures (store.Store(), r) == ReconcileL4(old(store.Store()), account, id, dryRun, between, beforeQueue, now)
    ensures dryRun || Claimed(Listed(old(store.jobs), account)) ==> store.Store() == old(store.Store())
    ensures r.Ok? && !r.value.alreadyQueued && !dryRun ==>
      ReconcileEvidence(Snapshot(Listed(Replay(old(store.Store()), between).jobs, account))) == ReconcileEvidence(Snapshot(Listed(old(store.jobs), account)))
    ensures (forall job :: job in Listed(old(store.jobs), account) && job.id == id ==> !IsSource(job)) ==>
      r in {Err(SourceMissing), Err(SourceIncomplete)} && store.Store() == old(store.Store())
    ensures r.Ok? ==> (r.value.derived.None? <==> dryRun && !r.value.alreadyQueued)
    ensures r.Ok? && r.value.derived.Some? ==>
      exists job :: job in store.jobs && job.id == r.value.derived.value && Aggregates(job, Listed(old(store.jobs), account), id)
  {
    hide Retirement.Inv, LeaseFencing.Keeps, Qualifies, Canonical, Clashes, AllRefsText, Replay, LeaseFencing.Identities, IsSnapshot,
      SameRefs, Agrees, HasText, SameBatch, Claimed, ApplyEnqueue, L3SourceOk, IsSource, Aggregates;
    var jobs := Listed(store.jobs, account);
    var found := FindById(jobs, id);
    if found.None? { return Err(SourceMissing); }
    var source := found.value;
    SourceOkIff(source);
    if !L3SourceOk(source) { return Err(SourceIncomplete); }
    var snapshot := LatestCompletedL3ByProject(jobs);
    OneSnapshot(jobs, snapshot, Snapshot(jobs));
    if |snapshot| < 2 { return Err(TooFewProjects); }
    var current := Find(snapshot, (job: Job) => job.project == source.project);
    if current.None? || snapshot[current.value].id != source.id { return Err(NotCurrent); }
    var evidence := ReconcileEvidence(snapshot);
    var matches := Filtered(jobs, evidence);
    ClaimedMeansMatch(jobs);
    if |matches| > 1 { return Err(ManyClaims); }
    if |matches| == 1 {
      assert matches[0] in matches;
      AgreedAggregates(matches[0], jobs, id);
      if !Agrees(matches[0], evidence) { return Err(EvidenceDiffers); }
      return Ok(Reconciled(true, Some(matches[0].id)));
    }
    if dryRun { return Ok(Reconciled(false, None)); }
    store.Others(between);
    var latest := LatestCompletedL3ByProject(Listed(store.jobs, account));
    OneSnapshot(Listed(store.jobs, account), latest, Snapshot(Listed(store.jobs, account)));
    if ReconcileEvidence(latest) != evidence { return Err(SnapshotChanged); }
    store.Others(beforeQueue);
    RefsHaveText(snapshot);
    var created, queued := store.EnqueueJob(account, L4, None, evidence, now);
    AgreedAggregates(queued.value, jobs, id);
    if !SameRefs(queued.value, evidence) || !Agrees(queued.value, evidence) { return Err(QueueConflict); }
    return Ok(Reconciled(!created, Some(queued.value.id)));
  }

  lemma ClaimedMeansMatch(jobs: seq<Job>)
    ensures Claimed(jobs) ==> |Filtered(jobs, ReconcileEvidence(Snapshot(jobs)))| > 0
  {
    hide SameRefs, Qualifies, IsSnapshot;
    if Claimed(jobs) {
      var job :| job in jobs && SameRefs(job, ReconcileEvidence(Snapshot(jobs)));
      assert job in Filtered(jobs, ReconcileEvidence(Snapshot(jobs)));
    }
  }

  /** What a submit of an L3 result does after it has completed its job: it lists, and then queues without looking for claims. */
  ghost function SubmitL4(s: State, account: string, between: seq<Op>, now: int): State {
    var snapshot := Snapshot(Listed(s.jobs, account));
    if |snapshot| < 2 then s else ApplyEnqueue(Replay(s, between), account, L4, None, SubmitEvidence(snapshot), now)
  }

  /** The L4 part of submitDistillationControl; `between` is what others do between its listing and its enqueue. */
  method QueueNextL4(store: JobStore, account: string, between: seq<Op>, now: int)
    requires Retirement.Inv(store.Store())
    modifies store
    ensures store.Store() == SubmitL4(old(store.Store()), account, between, now)
  {
    hide Retirement.Inv, LeaseFencing.Keeps, Qualifies, Canonical, Replay, IsSnapshot, ApplyEnqueue;
    var jobs := Listed(store.jobs, account);
    var latestByProject := LatestCompletedL3ByProject(jobs);
    OneSnapshot(jobs, latestByProject, Snapshot(jobs));
    if |latestByProject| >= 2 {
      store.Others(between);
      var created, queued := store.EnqueueJob(account, L4, None, SubmitEvidence(latestByProject), now);
    }
  }

  // ---------------------------------------------------------------------------------------
  // What the two paths queue

  lemma RefsWithout(items: seq<Evidence>, j: nat) returns (rest: seq<Evidence>)
    requires j < |items|
    ensures |rest| == |items| - 1 && multiset(rest) == multiset(items) - multiset{items[j]}
    ensures multiset(RefsOf(items)) == multiset(RefsOf(rest)) + multiset{items[j].ref}
  {
    rest := items[..j] + items[j + 1..];
    assert items == items[..j] + [items[j]] + items[j + 1..];
    var refs := RefsOf(items);
    assert refs == refs[..j] + [refs[j]] + refs[j + 1..];
    assert RefsOf(rest) == refs[..j] + refs[j + 1..];
  }

  lemma {:induction false} RefsPermute(a: seq<Evidence>, b: seq<Evidence>)
    requires multiset(a) == multiset(b)
    ensures multiset(RefsOf(a)) == multiset(RefsOf(b))
    decreases |a|
  {
    hide RefsOf;
    assert |a| == |multiset(a)| == |b|;
    if |a| > 0 {
      assert a[0] in multiset(b);
      var j := PlaceOf(b, a[0]);
      var restOfA := RefsWithout(a, 0);
      var restOfB := RefsWithout(b, j);
      RefsPermute(restOfA, restOfB);
    } else {
      assert a == b;
    }
  }

  lemma PlaceOf(items: seq<Evidence>, item: Evidence) returns (j: nat)
    requires item in multiset(items)
    ensures j < |items| && items[j] == item
  {
    assert item in items;
    j :| 0 <= j < |items| && items[j] == item;
  }

  /** The canonical list of evidence without repetition is a permutation of it. */
  lemma CanonicalPermutes(items: seq<Evidence>)
    requires Enqueueing.DistinctRefs(items)
    ensures multiset(Canonical(items)) == multiset(items) && |Canonical(items)| == |items|
    ensures forall x :: x in Canonical(items) <==> x in items
  {
    Enqueueing.DistinctRefsStay(items);
    assert |multiset(Canonical(items))| == |multiset(items)|;
    forall x
      ensures x in Canonical(items) <==> x in items
    {
      Sorting.InMultiset(Canonical(items), x);
      Sorting.InMultiset(items, x);
    }
  }

  lemma CurrentIds(s: State, account: string)
    requires Reachable(s)
    ensures var snapshot := Snapshot(Listed(s.jobs, account));
      && DistinctIds(Listed(s.jobs, account)) && DistinctIds(snapshot)
      && Enqueueing.DistinctRefs(SubmitEvidence(snapshot)) && Enqueueing.DistinctRefs(ReconcileEvidence(snapshot))
  {
    hide Reachable, LeaseFencing.LeasesInv, LeaseFencing.RetirementsInv, Qualifies, IsSnapshot;
    LeaseFencing.ReachableInv(s);
    DerivedProvenance.ListedDistinct(s.jobs, account);
    SnapshotIds(Listed(s.jobs, account), Snapshot(Listed(s.jobs, account)));
    SnapshotEvidenceDistinct(Listed(s.jobs, account), Snapshot(Listed(s.jobs, account)));
  }

  /** A job queued from the submit's evidence has the references of the reconciliation's, and agrees with it exactly if all times are valid. */
  lemma AgreesIffTimesValid(snapshot: seq<Job>, job: Job)
    requires DistinctIds(snapshot) && (forall i :: 0 <= i < |snapshot| ==> Qualifies(snapshot[i]))
    requires Enqueueing.DistinctRefs(SubmitEvidence(snapshot))
    requires job.target == L4 && job.project.None? && job.evidence == Canonical(SubmitEvidence(snapshot))
    ensures SameRefs(job, ReconcileEvidence(snapshot))
    ensures Agrees(job, ReconcileEvidence(snapshot)) <==> TimesValid(snapshot)
  {
    hide Qualifies, Canonical, SameRefs, ResultStamp;
    CanonicalPermutes(SubmitEvidence(snapshot));
    ClaimsSnapshot(snapshot, job);
    if TimesValid(snapshot) {
      PathsAgreeIffTimesValid(snapshot);
      AllThere(job, SubmitEvidence(snapshot));
    } else {
      var i :| 0 <= i < |snapshot| && snapshot[i].resultCommittedAt.Some? && !snapshot[i].resultCommittedAt.value.valid;
      NoSameItem(snapshot, job, i);
    }
  }

  lemma AllThere(job: Job, items: seq<Evidence>)
    requires job.project.None? && |job.evidence| == |items| && forall x :: x in items ==> x in job.evidence
    ensures Agrees(job, items)
  {
    forall i | 0 <= i < |items|
      ensures HasItem(job, items[i])
    {
      assert items[i] in job.evidence;
      var j :| 0 <= j < |job.evidence| && job.evidence[j] == items[i];
      assert SameItem(items[i], job.evidence[j]);
    }
  }

  lemma ClaimsSnapshot(snapshot: seq<Job>, job: Job)
    requires forall i :: 0 <= i < |snapshot| ==> Qualifies(snapshot[i])
    requires job.target == L4 && multiset(job.evidence) == multiset(SubmitEvidence(snapshot))
    ensures SameRefs(job, ReconcileEvidence(snapshot))
  {
    hide Qualifies, ResultStamp;
    RefsPermute(job.evidence, SubmitEvidence(snapshot));
    assert RefsOf(SubmitEvidence(snapshot)) == RefsOf(ReconcileEvidence(snapshot));
  }

  lemma NoSameItem(snapshot: seq<Job>, job: Job, i: nat)
    requires DistinctIds(snapshot) && (forall k :: 0 <= k < |snapshot| ==> Qualifies(snapshot[k]))
    requires i < |snapshot| && snapshot[i].resultCommittedAt.Some? && !snapshot[i].resultCommittedAt.value.valid
    requires forall x :: x in job.evidence ==> x in SubmitEvidence(snapshot)
    ensures !Agrees(job, ReconcileEvidence(snapshot))
  {
    hide Qualifies, ResultStamp, SubmitItem, ReconcileItem;
    var items := ReconcileEvidence(snapshot);
    assert !HasItem(job, items[i]) ==> !Agrees(job, items);
    forall j | 0 <= j < |job.evidence|
      ensures !SameItem(items[i], job.evidence[j])
    {
      assert job.evidence[j] in SubmitEvidence(snapshot);
      var k :| 0 <= k < |snapshot| && SubmitEvidence(snapshot)[k] == job.evidence[j];
      if k == i { TimesDiffer(snapshot[i]); } else { OtherRef(snapshot[k], snapshot[i]); }
    }
  }

  lemma TimesDiffer(job: Job)
    requires Qualifies(job) && job.resultCommittedAt.Some? && !job.resultCommittedAt.value.valid
    ensures SubmitItem(job).timestamp != ReconcileItem(job).timestamp
  {
  }

  /** The enqueue adds a job exactly if none has the batch. */
  lemma EnqueueAddsIff(s: State, account: string, items: seq<Evidence>, now: int)
    requires AllRefsText(items)
    ensures var t := ApplyEnqueue(s, account, L4, None, items, now);
      && (t != s <==> !HasBatch(s.jobs, account, L4, None, Canonical(items)))
      && (t != s ==> t.jobs == s.jobs + [NewJob(s.next, account, L4, None, Canonical(items), now)])
  {
    hide Canonical, AllRefsText;
    var found := Find(s.jobs, (job: Job) => Clashes(job, account, L4, None, Canonical(items)));
  }

  lemma HasBatchAppended(jobs: seq<Job>, job: Job, account: string, evidence: seq<Evidence>)
    ensures HasBatch(jobs + [job], account, L4, None, evidence) <==>
      HasBatch(jobs, account, L4, None, evidence) || SameBatch(job, account, L4, None, evidence)
  {
    hide SameBatch;
    var all := jobs + [job];
    if i :| 0 <= i < |jobs| && SameBatch(jobs[i], account, L4, None, evidence) {
      assert all[i] == jobs[i];
    }
    assert all[|jobs|] == job;
    if i :| 0 <= i < |all| && SameBatch(all[i], account, L4, None, evidence) {
      assert i < |jobs| ==> all[i] == jobs[i];
    }
  }

  lemma {:induction false} FilteredAppend(jobs: seq<Job>, job: Job, items: seq<Evidence>)
    ensures Filtered(jobs + [job], items) == Filtered(jobs, items) + if SameRefs(job, items) then [job] else []
  {
    hide SameRefs;
    if |jobs| == 0 {
      assert jobs + [job] == [job];
    } else {
      assert (jobs + [job])[1..] == jobs[1..] + [job];
      FilteredAppend(jobs[1..], job, items);
    }
  }

  /** A job that was just queued changes neither what is current nor who the sources are. */
  lemma QueuedIsListed(s: State, t: State, account: string, job: Job)
    requires t.jobs == s.jobs + [job] && job.account == account && job.retirement.None? && job.status == Pending
    ensures Listed(t.jobs, account) == Listed(s.jobs, account) + [job]
    ensures Snapshot(Listed(t.jobs, account)) == Snapshot(Listed(s.jobs, account))
  {
    hide IsSnapshot, Snapshot;
    ListedAppend(s.jobs, job, account);
    SnapshotIgnores(Listed(s.jobs, account), job);
  }

  // ---------------------------------------------------------------------------------------
  // A reconciliation after a submit

  lemma CurrentSource(s: State, account: string, source: Job)
    requires Reachable(s) && source in Snapshot(Listed(s.jobs, account))
    ensures FindById(Listed(s.jobs, account), source.id) == Some(source) && IsCurrent(Snapshot(Listed(s.jobs, account)), source)
  {
    hide Reachable, Qualifies, IsSnapshot, FindById, IsCurrent;
    var jobs := Listed(s.jobs, account);
    var snapshot := Snapshot(jobs);
    CurrentIds(s, account);
    SnapshotOrdered(jobs, snapshot);
    var i :| 0 <= i < |snapshot| && snapshot[i] == source;
    SnapshotMember(jobs, snapshot, i);
    FoundById(jobs, source);
    FoundByProject(snapshot, i);
  }

  lemma FoundById(jobs: seq<Job>, source: Job)
    requires DistinctIds(jobs) && source in jobs
    ensures FindById(jobs, source.id) == Some(source)
  {
    var j :| 0 <= j < |jobs| && jobs[j] == source;
    var found := Find(jobs, (job: Job) => job.id == source.id);
    assert jobs[j].id == source.id;
  }

  lemma FoundByProject(snapshot: seq<Job>, i: nat)
    requires i < |snapshot| && forall j, k :: 0 <= j < k < |snapshot| ==> snapshot[j].project != snapshot[k].project
    ensures IsCurrent(snapshot, snapshot[i])
  {
    var source := snapshot[i];
    var current := Find(snapshot, (job: Job) => job.project == source.project);
    assert snapshot[i].project == source.project;
  }

  /**
   An undisturbed submit that queued the snapshot: no reconciliation after it, for whatever source and
   whatever others do meanwhile, adds a job.  For a source of the snapshot its answer is the queued job
   exactly if all times are valid, unless an older claim with the same references is listed too.
   */
  lemma ReconcileAfterSubmit(s: State, account: string, now: int, source: Job, dryRun: bool, between: seq<Op>, beforeQueue: seq<Op>, later: int)
    requires Reachable(s) && SubmitL4(s, account, [], now) != s
    ensures var t := SubmitL4(s, account, [], now);
      forall id :: ReconcileL4(t, account, id, dryRun, between, beforeQueue, later).0 == t
    ensures var t, snapshot := SubmitL4(s, account, [], now), Snapshot(Listed(s.jobs, account));
      source in snapshot && L3SourceOk(source) ==>
        ReconcileL4(t, account, source.id, dryRun, between, beforeQueue, later).1 ==
          if |Filtered(Listed(s.jobs, account), ReconcileEvidence(snapshot))| > 0 then Err(ManyClaims)
          else if TimesValid(snapshot) then Ok(Reconciled(true, Some(s.next)))
          else Err(EvidenceDiffers)
  {
    hide Reachable, ApplyEnqueue, Qualifies, IsSnapshot, Canonical, SameRefs, Agrees, TimesValid, AllRefsText, Queueing, L3SourceOk, IsCurrent,
      SubmitL4, Filtered, FindById, Snapshot;
    var t, jobs := SubmitL4(s, account, [], now), Listed(s.jobs, account);
    var snapshot := Snapshot(jobs);
    var a := NewJob(s.next, account, L4, None, Canonical(SubmitEvidence(snapshot)), now);
    SubmitQueues(s, account, now);
    CurrentIds(s, account);
    QueuedIsListed(s, t, account, a);
    AgreesIffTimesValid(snapshot, a);
    FilteredAppend(jobs, a, ReconcileEvidence(snapshot));
    if source in snapshot {
      CurrentSource(s, account, source);
      FindAppend(jobs, a, source.id, source);
    }
  }

  lemma SubmitQueues(s: State, account: string, now: int)
    requires SubmitL4(s, account, [], now) != s
    ensures var snapshot := Snapshot(Listed(s.jobs, account));
      && |snapshot| >= 2
      && SubmitL4(s, account, [], now).jobs == s.jobs + [NewJob(s.next, account, L4, None, Canonical(SubmitEvidence(snapshot)), now)]
  {
    hide Qualifies, IsSnapshot, Canonical, AllRefsText, ApplyEnqueue;
    var snapshot := Snapshot(Listed(s.jobs, account));
    RefsHaveText(snapshot);
    EnqueueAddsIff(s, account, SubmitEvidence(snapshot), now);
  }

  // ---------------------------------------------------------------------------------------
  // A submit after a reconciliation, or inside one

  /** An undisturbed reconciliation that changes the ledger queued the snapshot, which nobody had. */
  lemma ReconcileQueues(s: State, account: string, id: JobId, now: int)
    requires Reachable(s) && ReconcileL4(s, account, id, false, [], [], now).0 != s
    ensures var evidence := ReconcileEvidence(Snapshot(Listed(s.jobs, account)));
      var a := NewJob(s.next, account, L4, None, Canonical(evidence), now);
      && |Snapshot(Listed(s.jobs, account))| >= 2
      && Filtered(Listed(s.jobs, account), evidence) == []
      && !HasBatch(s.jobs, account, L4, None, Canonical(evidence))
      && ReconcileL4(s, account, id, false, [], [], now) == (Apply(s, Enqueue(account, L4, None, evidence, now)), Ok(Reconciled(false, Some(s.next))))
      && Apply(s, Enqueue(account, L4, None, evidence, now)).jobs == s.jobs + [a]
  {
    hide Reachable, Qualifies, IsSnapshot, Canonical, SameRefs, Agrees, AllRefsText, ApplyEnqueue, L3SourceOk, IsCurrent, QueueAnswer;
    var snapshot := Snapshot(Listed(s.jobs, account));
    var evidence := ReconcileEvidence(snapshot);
    assert Replay(s, []) == s;
    RefsHaveText(snapshot);
    EnqueueAddsIff(s, account, evidence, now);
    CurrentIds(s, account);
    AnswerOfNew(s, account, evidence, now);
    ReconciledAgrees(NewJob(s.next, account, L4, None, Canonical(evidence), now), evidence);
  }

  lemma AnswerOfNew(s: State, account: string, evidence: seq<Evidence>, now: int)
    ensures !HasBatch(s.jobs, account, L4, None, Canonical(evidence)) ==>
      && QueueAnswer(s, account, L4, None, Canonical(evidence), now) == NewJob(s.next, account, L4, None, Canonical(evidence), now)
      && NoBatchFor(s.jobs, account, L4, None, Canonical(evidence))
  {
    hide Canonical, SameBatch;
    var found := Find(s.jobs, (j: Job) => SameBatch(j, account, L4, None, Canonical(evidence)));
  }

  lemma ReconciledAgrees(job: Job, evidence: seq<Evidence>)
    requires Enqueueing.DistinctRefs(evidence) && job.evidence == Canonical(evidence) && job.target == L4 && job.project.None?
    ensures SameRefs(job, evidence) && Agrees(job, evidence)
  {
    hide Canonical, Agrees;
    CanonicalPermutes(evidence);
    RefsPermute(job.evidence, evidence);
    AllThere(job, evidence);
  }

  /**
   A reconciliation has just queued the snapshot.  A submit after it, whether it listed before or after
   the reconciliation, queues a second job for the same snapshot exactly if some commit time in it is
   not a date and no job, which could only be a retired one, has the submit's batch.
   */
  lemma SubmitAfterReconcile(s: State, account: string, id: JobId, now: int, later: int)
    requires Reachable(s) && ReconcileL4(s, account, id, false, [], [], now).0 != s
    ensures var t, snapshot := ReconcileL4(s, account, id, false, [], [], now).0, Snapshot(Listed(s.jobs, account));
      var u := SubmitL4(t, account, [], later);
      && Snapshot(Listed(t.jobs, account)) == snapshot
      && SubmitL4(s, account, [Enqueue(account, L4, None, ReconcileEvidence(snapshot), now)], later) == u
      && (u != t <==> !TimesValid(snapshot) && !HasBatch(s.jobs, account, L4, None, Canonical(SubmitEvidence(snapshot))))
      && (u != t ==> u.jobs == t.jobs + [NewJob(t.next, account, L4, None, Canonical(SubmitEvidence(snapshot)), later)])
  {
    hide Reachable, Qualifies, IsSnapshot, Canonical, AllRefsText, ApplyEnqueue, ReconcileL4, SameBatch, TimesValid;
    ReconcileQueues(s, account, id, now);
    var snapshot := Snapshot(Listed(s.jobs, account));
    var evidence := ReconcileEvidence(snapshot);
    var op := Enqueue(account, L4, None, evidence, now);
    var t := Apply(s, op);
    var a := NewJob(s.next, account, L4, None, Canonical(evidence), now);
    QueuedIsListed(s, t, account, a);
    ReplayOne(s, op);
    RefsHaveText(snapshot);
    EnqueueAddsIff(t, account, SubmitEvidence(snapshot), later);
    HasBatchAppended(s.jobs, a, account, Canonical(SubmitEvidence(snapshot)));
    SameBatchIffTimesValid(s, account, a);
    assert Replay(t, []) == t;
  }

  lemma ReplayOne(s: State, op: Op)
    ensures Replay(s, [op]) == Apply(s, op)
  {
    hide Apply;
    assert [op][1..] == [];
  }

  /** The reconciliation's job has the submit's batch exactly if all times are valid; then both batches are the same. */
  lemma SameBatchIffTimesValid(s: State, account: string, a: Job)
    requires Reachable(s) && a.account == account && a.target == L4 && a.project.None?
    requires a.hash == Hash(L4, None, Canonical(ReconcileEvidence(Snapshot(Listed(s.jobs, account)))))
    ensures var snapshot := Snapshot(Listed(s.jobs, account));
      && (SameBatch(a, account, L4, None, Canonical(SubmitEvidence(snapshot))) <==> TimesValid(snapshot))
      && (TimesValid(snapshot) <==> Canonical(SubmitEvidence(snapshot)) == Canonical(ReconcileEvidence(snapshot)))
  {
    hide Reachable, Qualifies, IsSnapshot, Canonical, ResultStamp;
    var snapshot := Snapshot(Listed(s.jobs, account));
    CurrentIds(s, account);
    if TimesValid(snapshot) {
      PathsAgreeIffTimesValid(snapshot);
    } else {
      OtherCanonical(snapshot);
    }
  }

  /**
   A submit inside a reconciliation that would have queued the snapshot undisturbed, before its second
   read or after it: two jobs come about exactly if some commit time is not a date.
   */
  lemma SubmitInsideReconcile(s: State, account: string, id: JobId, now: int, later: int)
    requires Reachable(s) && ReconcileL4(s, account, id, false, [], [], later).0 != s
    ensures var snapshot := Snapshot(Listed(s.jobs, account));
      var submit := Enqueue(account, L4, None, SubmitEvidence(snapshot), now);
      var t := Apply(s, submit);
      && t == SubmitL4(s, account, [], now)
      && ReconcileL4(s, account, id, false, [submit], [], later).0 == ReconcileL4(s, account, id, false, [], [submit], later).0
      && (ReconcileL4(s, account, id, false, [submit], [], later).0 != t <==> !TimesValid(snapshot))
  {
    hide Reachable, Qualifies, IsSnapshot, Canonical, AllRefsText, ApplyEnqueue, SameRefs, Agrees, SameBatch, TimesValid, QueueAnswer, L3SourceOk, IsCurrent;
    ReconcileQueues(s, account, id, later);
    var snapshot := Snapshot(Listed(s.jobs, account));
    var evidence := ReconcileEvidence(snapshot);
    var submit := Enqueue(account, L4, None, SubmitEvidence(snapshot), now);
    var t := Apply(s, submit);
    ReplayOne(s, submit);
    assert Replay(s, []) == s && Replay(t, []) == t;
    RefsHaveText(snapshot);
    EnqueueAddsIff(s, account, SubmitEvidence(snapshot), now);
    EnqueueAddsIff(t, account, evidence, later);
    var b := NewJob(s.next, account, L4, None, Canonical(SubmitEvidence(snapshot)), now);
    if t != s {
      QueuedIsListed(s, t, account, b);
      HasBatchAppended(s.jobs, b, account, Canonical(evidence));
    }
    BatchOfEither(s, account, b);
  }

  lemma BatchOfEither(s: State, account: string, b: Job)
    requires Reachable(s) && b.account == account && b.target == L4 && b.project.None?
    requires b.hash == Hash(L4, None, Canonical(SubmitEvidence(Snapshot(Listed(s.jobs, account)))))
    ensures var snapshot := Snapshot(Listed(s.jobs, account));
      && (SameBatch(b, account, L4, None, Canonical(ReconcileEvidence(snapshot))) <==> TimesValid(snapshot))
      && (TimesValid(snapshot) ==> (HasBatch(s.jobs, account, L4, None, Canonical(SubmitEvidence(snapshot)))
                                    <==> HasBatch(s.jobs, account, L4, None, Canonical(ReconcileEvidence(snapshot)))))
  {
    hide Reachable, Qualifies, IsSnapshot, Canonical, TimesValid;
    var a := b.(hash := Hash(L4, None, Canonical(ReconcileEvidence(Snapshot(Listed(s.jobs, account))))));
    SameBatchIffTimesValid(s, account, a);
  }

  lemma QueuesIfUnclaimed(s: State, account: string, source: Job, now: int)
    requires Reachable(s) && source in Snapshot(Listed(s.jobs, account)) && L3SourceOk(source)
    requires |Snapshot(Listed(s.jobs, account))| >= 2 && forall job :: job in s.jobs ==> job.target != L4
    ensures ReconcileL4(s, account, source.id, false, [], [], now).0 != s
  {
    hide Reachable, Qualifies, IsSnapshot, Canonical, AllRefsText, ApplyEnqueue, L3SourceOk, IsCurrent, QueueAnswer;
    var jobs := Listed(s.jobs, account);
    var evidence := ReconcileEvidence(Snapshot(jobs));
    CurrentSource(s, account, source);
    assert Replay(s, []) == s;
    NoneFiltered(jobs, evidence);
    RefsHaveText(Snapshot(jobs));
    EnqueueAddsIff(s, account, evidence, now);
  }

  lemma {:induction false} NoneFiltered(jobs: seq<Job>, items: seq<Evidence>)
    requires forall job :: job in jobs ==> job.target != L4
    ensures Filtered(jobs, items) == []
  {
    if |jobs| > 0 {
      NoneFiltered(jobs[1..], items);
    }
  }

  /** A reachable store on which a reconciliation and then a submit queue two L4 jobs for one snapshot. */
  lemma TwoL4JobsForOneSnapshot(now: int, later: int)
    ensures var s := Replay(EMPTY, UndatedOps());
      var (t, r) := ReconcileL4(s, "account", LATE.id, false, [], [], now);
      var u := SubmitL4(t, "account", [], later);
      && Snapshot(Listed(s.jobs, "account")) == Snapshot(Listed(t.jobs, "account")) == [EARLY, LATE]
      && r == Ok(Reconciled(false, Some(s.next))) && |t.jobs| == |s.jobs| + 1 && |u.jobs| == |s.jobs| + 2
  {
    hide Replay, Qualifies, IsSnapshot, Canonical, ReconcileL4, SubmitL4, Snapshot, Listed, TimesValid, Reachable, UndatedOps;
    var s := Replay(EMPTY, UndatedOps());
    UndatedSnapshot();
    QueuesIfUnclaimed(s, "account", LATE, now);
    ReconcileQueues(s, "account", LATE.id, now);
    SubmitAfterReconcile(s, "account", LATE.id, now, later);
  }

  lemma UndatedSnapshot()
    ensures var s := Replay(EMPTY, UndatedOps());
      && Reachable(s) && s.jobs == [LATE, EARLY] && Snapshot(Listed(s.jobs, "account")) == [EARLY, LATE]
      && LATE in Snapshot(Listed(s.jobs, "account")) && L3SourceOk(LATE) && !TimesValid([EARLY, LATE])
      && !HasBatch(s.jobs, "account", L4, None, Canonical(SubmitEvidence(Snapshot(Listed(s.jobs, "account")))))
  {
    hide Replay, Qualifies, IsSnapshot, Canonical, Snapshot, Listed, UndatedOps;
    UndatedStore();
    BothListed();
    PairSnapshot();
    EarlyAndLateQualify();
    OneSnapshot([LATE, EARLY], [EARLY, LATE], Snapshot([LATE, EARLY]));
    assert "n"[0] == 'n' && "rules of q"[0] == 'r';
    assert [EARLY, LATE][1] == LATE;
    assert [EARLY, LATE][0].resultCommittedAt == Some(Stamp(0, false));
  }

  // ---------------------------------------------------------------------------------------
  // Stores whose commit times are dates

  /** The operation records no commit time that is not a date; submit itself only ever passes the present time. */
  predicate StampsValid(op: Op) {
    match op
    case OnJob(_, _, CompleteAfterCommit(_, _, _, _, committedAt, _, _)) => committedAt.valid
    case OnJob(_, _, StampQuarantine(committedAt)) => committedAt.valid
    case _ => true
  }

  predicate Dated(job: Job) {
    job.resultCommittedAt.Some? ==> job.resultCommittedAt.value.valid
  }

  lemma DatedStep(s: State, op: Op)
    requires LeaseFencing.Inv(s) && StampsValid(op) && forall job :: job in s.jobs ==> Dated(job)
    ensures forall job :: job in Apply(s, op).jobs ==> Dated(job)
  {
    hide Dated, StampsValid, LeaseFencing.Inv, Leasable, LeasedJob, Worked, Clashes, Canonical, SameRevision, AllRefsText, RecordAllowed, Trim;
    match op
    case Lease(r) =>
      var found := Find(s.jobs, (job: Job) => Leasable(job, r));
      if found.Some? { LeaseIsDated(s.jobs[found.value], r, s.next); }
    case OnJob(account, id, w) =>
      var found := Find(s.jobs, (job: Job) => job.id == id && job.account == account);
      if found.Some? && Worked(s.jobs[found.value], w).Some? {
        WorkIsDated(s.jobs[found.value], account, id, w);
      }
    case Enqueue(account, target, project, items, now) =>
      NewIsDated(NewJob(s.next, account, target, project, Canonical(items), now));
    case Record(_, _, _, _, _, _, _, _, _) =>
      NewIsDated(RevisionJob(s.next, op.account, op.target, op.project, Canonical(op.items), Trim(op.memory), Trim(op.body),
                             op.committedAt, op.commit, op.coreBody));
    case RetireBegin(_, _, _) | RetireFinish(_, _) =>
      forall a, b | Dated(a) && LeaseFencing.SameButRetirement(b, a) ensures Dated(b) { RetiredIsDated(a, b); }
      LeaseFencing.RetirementKeepsEach(s, op, Dated);
  }

  lemma LeaseIsDated(job: Job, r: LeaseRequest, token: Token)
    requires Dated(job)
    ensures Dated(LeasedJob(job, r, token))
  {
    hide Clamp;
  }

  lemma WorkIsDated(job: Job, account: string, id: JobId, w: Work)
    requires Dated(job) && StampsValid(OnJob(account, id, w)) && Worked(job, w).Some?
    ensures Dated(Worked(job, w).value)
  {
    hide Clamp;
  }

  lemma NewIsDated(job: Job)
    requires job.resultCommittedAt.Some? ==> job.resultCommittedAt.value.valid
    ensures Dated(job)
  {
  }

  lemma RetiredIsDated(a: Job, b: Job)
    requires Dated(a) && LeaseFencing.SameButRetirement(b, a)
    ensures Dated(b)
  {
  }

  lemma {:induction false} DatedReplay(s: State, ops: seq<Op>)
    requires LeaseFencing.Inv(s) && (forall op :: op in ops ==> StampsValid(op)) && forall job :: job in s.jobs ==> Dated(job)
    ensures forall job :: job in Replay(s, ops).jobs ==> Dated(job)
    decreases |ops|
  {
    hide LeaseFencing.Inv, Apply, Dated, StampsValid;
    if |ops| > 0 {
      LeaseFencing.Step(s, ops[0]);
      DatedStep(s, ops[0]);
      DatedReplay(Apply(s, ops[0]), ops[1..]);
    }
  }

  /**
   Where every recorded commit time is a date, the two paths never queue two L4 jobs for one snapshot:
   after either of them has queued it, and whatever happens then, the other one's enqueue adds nothing.
   */
  lemma {:induction false} DatedStoresOneL4Job(ops: seq<Op>, account: string, more: seq<Op>, now: int, later: int)
    requires forall op :: op in ops ==> StampsValid(op)
    ensures var s := Replay(EMPTY, ops);
      var snapshot := Snapshot(Listed(s.jobs, account));
      var submit, reconcile := Enqueue(account, L4, None, SubmitEvidence(snapshot), now), Enqueue(account, L4, None, ReconcileEvidence(snapshot), now);
      && TimesValid(snapshot)
      && Apply(Replay(Apply(s, submit), more), reconcile.(now := later)) == Replay(Apply(s, submit), more)
      && Apply(Replay(Apply(s, reconcile), more), submit.(now := later)) == Replay(Apply(s, reconcile), more)
  {
    hide Apply, Qualifies, IsSnapshot, Reachable, Replay;
    var s := Replay(EMPTY, ops);
    var jobs := Listed(s.jobs, account);
    var snapshot := Snapshot(jobs);
    EmptyIsSound();
    DatedReplay(EMPTY, ops);
    IsReachable(ops);
    CurrentIds(s, account);
    forall i | 0 <= i < |snapshot|
      ensures Dated(snapshot[i])
    {
      SnapshotMember(jobs, snapshot, i);
    }
    SameRevisionsOneL4Job(s, account, jobs, jobs, snapshot, snapshot, more, now, later);
  }

  lemma IsReachable(ops: seq<Op>)
    ensures Reachable(Replay(EMPTY, ops))
  {
  }

  lemma EmptyIsSound()
    ensures LeaseFencing.Inv(EMPTY)
  {
  }
}
