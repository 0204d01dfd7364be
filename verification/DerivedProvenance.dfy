/**
 Whether the L3 jobs that consolidate a completed L2 result do so with exact evidence.
 src/distillation-derived-provenance.ts.  The ledger's evidence_refs are the references of its
 evidence; `canon` stands for canonicalDistillationBody.
 */
module DerivedProvenance {
  import opened Common
  import opened CurrentL3
  import opened JobLedger
  import Enqueueing
  import LeaseFencing
  import Sorting

  type Canon = string -> string

  /** BodyContradictsHash is an error thrown while the evidence is checked, not a result of the inspection. */
  datatype Reason = ProjectMismatch | EvidenceMismatch | BodyContradictsHash | MultipleClaims

  datatype Claim =
    | Missing
    | Valid(claims: seq<Job>, representative: Job)
    | Conflict(claims: seq<Job>, reason: Reason)

  /** completedL2EvidenceRef */
  function L2Ref(source: Job): string
    requires source.resultId.Some?
  {
    RevisionRef("l2", source.resultId.value, source.id)
  }

  predicate BodyMatches(canon: Canon, content: string, source: Job)
    requires source.resultContent.Some?
  {
    if source.coreBody.Some?
    then source.coreBody == source.resultContent && content == source.resultContent.value
    else canon(content) == canon(source.resultContent.value)
  }

  /** exactCompletedL2Evidence */
  predicate Exact(canon: Canon, item: Evidence, source: Job) {
    && HasText(source.resultId) && item.ref == L2Ref(source)
    && item.kind == Artifact && item.layer == Some(L2) && item.project == source.project
    && source.resultContent.Some? && BodyMatches(canon, item.content, source)
    && ResultStamp(source) == Some(item.timestamp)
  }

  predicate HasExact(canon: Canon, job: Job, source: Job) {
    exists i :: 0 <= i < |job.evidence| && Exact(canon, job.evidence[i], source)
  }

  /** A completed L2 revision of the project. */
  predicate CompletedL2(job: Job, project: Option<string>) {
    && job.target == L2 && job.status == Completed && job.project == project
    && HasText(job.resultId) && HasText(job.resultContent) && ResultStamp(job).Some?
  }

  /** The entry for `ref` in the map that validL3EvidenceBatch fills. */
  function SourceByRef(jobs: seq<Job>, project: Option<string>, ref: string): (r: Option<Job>)
    ensures r.Some? ==> r.value in jobs && CompletedL2(r.value, project) && L2Ref(r.value) == ref
  {
    if |jobs| == 0 then None
    else
      var job := jobs[|jobs| - 1];
      if CompletedL2(job, project) && L2Ref(job) == ref then Some(job) else SourceByRef(jobs[..|jobs| - 1], project, ref)
  }

  /** Every item of the batch is an exact completed L2 revision of the project, each one once. */
  predicate ValidBatch(canon: Canon, child: Job, jobs: seq<Job>) {
    && child.target == L3 && Text(child.project)
    && |child.evidence| > 0 && RefsDistinct(child.evidence)
    && forall i :: 0 <= i < |child.evidence| ==> Backed(canon, child.evidence[i], child.project, jobs)
  }

  predicate RefsDistinct(items: seq<Evidence>) {
    forall i, j :: 0 <= i < j < |items| ==> items[i].ref != items[j].ref
  }

  predicate Backed(canon: Canon, item: Evidence, project: Option<string>, jobs: seq<Job>) {
    var source := SourceByRef(jobs, project, item.ref);
    source.Some? && Exact(canon, item, source.value)
  }

  /** validL3EvidenceBatch with its map. */
  method ValidL3EvidenceBatch(canon: Canon, child: Job, jobs: seq<Job>) returns (ok: bool)
    ensures ok <==> ValidBatch(canon, child, jobs)
  {
    hide CompletedL2, Exact, L2Ref;
    if child.target != L3 || !Text(child.project) { return false; }
    if |child.evidence| == 0 || !RefsDistinct(child.evidence) { return false; }
    var completedL2ByRef: map<string, Job> := map[];
    for i := 0 to |jobs|
      invariant forall ref :: ref in completedL2ByRef <==> SourceByRef(jobs[..i], child.project, ref).Some?
      invariant forall ref :: ref in completedL2ByRef ==> SourceByRef(jobs[..i], child.project, ref) == Some(completedL2ByRef[ref])
    {
      assert jobs[..i + 1][..i] == jobs[..i];
      CompletedHasId(jobs[i], child.project);
      if CompletedL2(jobs[i], child.project) {
        completedL2ByRef := completedL2ByRef[L2Ref(jobs[i]) := jobs[i]];
      }
    }
    assert jobs[..|jobs|] == jobs;
    for i := 0 to |child.evidence|
      invariant forall k :: 0 <= k < i ==> Backed(canon, child.evidence[k], child.project, jobs)
    {
      var item := child.evidence[i];
      if item.ref !in completedL2ByRef || !Exact(canon, item, completedL2ByRef[item.ref]) {
        assert !Backed(canon, item, child.project, jobs);
        return false;
      }
    }
    return true;
  }

  lemma CompletedHasId(job: Job, project: Option<string>)
    ensures CompletedL2(job, project) ==> job.resultId.Some?
  {
  }

  /** The L3 jobs that reference the source. */
  function ClaimsOf(jobs: seq<Job>, ref: string): (r: seq<Job>)
    ensures forall job :: job in r <==> job in jobs && job.target == L3 && HasRef(job.evidence, ref)
  {
    if |jobs| == 0 then []
    else
      assert jobs == [jobs[0]] + jobs[1..];
      if jobs[0].target == L3 && HasRef(jobs[0].evidence, ref) then [jobs[0]] + ClaimsOf(jobs[1..], ref) else ClaimsOf(jobs[1..], ref)
  }

  /** Completed revisions of one stable L3 artifact. */
  predicate OneLineage(claims: seq<Job>) {
    && (forall i :: 0 <= i < |claims| ==> claims[i].status == Completed && claims[i].resultKind == Some(Of(L3)) && HasText(claims[i].resultId))
    && (forall i, j :: 0 <= i < j < |claims| ==> Trim(claims[i].resultId.value) == Trim(claims[j].resultId.value))
  }

  function ClaimTime(job: Job): int {
    if ResultStamp(job).Some? then ResultStamp(job).value.at else job.createdAt
  }

  /** The claim with the latest result, the first of them if several tie. */
  function Representative(claims: seq<Job>): (r: Job)
    requires |claims| > 0
    ensures r in claims && forall job :: job in claims ==> ClaimTime(job) <= ClaimTime(r)
  {
    if |claims| == 1 then claims[0]
    else
      var rest := Representative(claims[1..]);
      assert claims == [claims[0]] + claims[1..];
      if ClaimTime(claims[0]) >= ClaimTime(rest) then claims[0] else rest
  }

  /** The stored body is the one Core confirmed, or there is no such record. */
  predicate Intact(source: Job) {
    source.coreBody.Some? ==> source.coreBody == source.resultContent
  }

  /** All that is compared before the bodies agrees, and then the source's body contradicts its recorded hash. */
  predicate Throws(item: Evidence, source: Job) {
    && HasText(source.resultId) && item.ref == L2Ref(source)
    && item.kind == Artifact && item.layer == Some(L2) && item.project == source.project
    && source.resultContent.Some? && !Intact(source)
  }

  /** What ends the check of the items of one claim, in order, if anything does. */
  function ItemsFailure(canon: Canon, items: seq<Evidence>, project: Option<string>, jobs: seq<Job>): Option<Reason> {
    if |items| == 0 then None
    else if Backed(canon, items[0], project, jobs) then ItemsFailure(canon, items[1..], project, jobs)
    else
      var source := SourceByRef(jobs, project, items[0].ref);
      Some(if source.Some? && Throws(items[0], source.value) then BodyContradictsHash else EvidenceMismatch)
  }

  /** What ends the search for an exact item of the source, in order, if nothing is found. */
  function SearchFailure(canon: Canon, items: seq<Evidence>, source: Job): Option<Reason> {
    if |items| == 0 then Some(EvidenceMismatch)
    else if Exact(canon, items[0], source) then None
    else if Throws(items[0], source) then Some(BodyContradictsHash)
    else SearchFailure(canon, items[1..], source)
  }

  function ClaimFailure(canon: Canon, claim: Job, jobs: seq<Job>, source: Job): Option<Reason> {
    if !(claim.target == L3 && Text(claim.project) && |claim.evidence| > 0 && RefsDistinct(claim.evidence)) then Some(EvidenceMismatch)
    else
      var items := ItemsFailure(canon, claim.evidence, claim.project, jobs);
      if items.Some? then items else SearchFailure(canon, claim.evidence, source)
  }

  /** The first claim that fails decides between a conflict and the error. */
  function FirstFailure(canon: Canon, claims: seq<Job>, jobs: seq<Job>, source: Job): Reason {
    if |claims| == 0 then EvidenceMismatch
    else
      var failure := ClaimFailure(canon, claims[0], jobs, source);
      if failure.Some? then failure.value else FirstFailure(canon, claims[1..], jobs, source)
  }

  /** inspectDerivedL3Claims */
  function Inspect(canon: Canon, jobs: seq<Job>, source: Job): Claim
    requires source.resultId.Some?
  {
    var matches := ClaimsOf(jobs, L2Ref(source));
    if |matches| == 0 then Missing
    else if exists i :: 0 <= i < |matches| && matches[i].project != source.project then Conflict(matches, ProjectMismatch)
    else if exists i :: 0 <= i < |matches| && !(ValidBatch(canon, matches[i], jobs) && HasExact(canon, matches[i], source))
    then Conflict(matches, FirstFailure(canon, matches, jobs, source))
    else if |matches| > 1 && !OneLineage(matches) then Conflict(matches, MultipleClaims)
    else Valid(matches, Representative(matches))
  }

  // ---------------------------------------------------------------------------------------
  // Sources are found by reference

  lemma {:induction false} SourceIsTheOne(jobs: seq<Job>, project: Option<string>, ref: string, source: Job)
    requires DistinctIds(jobs) && source in jobs && CompletedL2(source, project) && L2Ref(source) == ref
    ensures SourceByRef(jobs, project, ref) == Some(source)
  {
    hide CompletedL2;
    SourceFound(jobs, project, ref, source);
    CompletedHasId(source, project);
    var found := SourceByRef(jobs, project, ref).value;
    CompletedHasId(found, project);
    RevisionRefNamesJob("l2", found.resultId.value, found.id, source.resultId.value, source.id);
    var i :| 0 <= i < |jobs| && jobs[i] == found;
    var j :| 0 <= j < |jobs| && jobs[j] == source;
    assert i == j;
  }

  lemma {:induction false} SourceFound(jobs: seq<Job>, project: Option<string>, ref: string, source: Job)
    requires source in jobs && CompletedL2(source, project) && L2Ref(source) == ref
    ensures SourceByRef(jobs, project, ref).Some?
  {
    hide CompletedL2, L2Ref;
    if |jobs| > 0 && jobs[|jobs| - 1] != source {
      assert jobs == jobs[..|jobs| - 1] + [jobs[|jobs| - 1]];
      SourceFound(jobs[..|jobs| - 1], project, ref, source);
    }
  }

  // ---------------------------------------------------------------------------------------
  // A claim outlives work on the queue

  /** `b` is `a` after work that does not touch retirements. */
  ghost predicate Follows(a: seq<Job>, b: seq<Job>) {
    |b| == |a| && forall i :: 0 <= i < |a| ==> FollowsJob(a[i], b[i])
  }

  ghost predicate FollowsJob(a: Job, b: Job) {
    && b.id == a.id && b.account == a.account && b.target == a.target && b.project == a.project && b.evidence == a.evidence
    && b.retirement == a.retirement && (a.status == Completed ==> b == a)
  }

  lemma FollowsListing(a: Job, b: Job)
    requires FollowsJob(a, b)
    ensures b.account == a.account && b.retirement == a.retirement && b.target == a.target && b.evidence == a.evidence
  {
  }

  lemma FollowsCons(x: Job, y: Job, a: seq<Job>, b: seq<Job>)
    requires FollowsJob(x, y) && Follows(a, b)
    ensures Follows([x] + a, [y] + b)
  {
    hide FollowsJob;
  }

  lemma {:induction false} ListedFollows(a: seq<Job>, b: seq<Job>, account: string)
    requires Follows(a, b)
    ensures Follows(Listed(a, account), Listed(b, account))
  {
    hide FollowsJob;
    if |a| > 0 {
      ListedFollows(a[1..], b[1..], account);
      FollowsListing(a[0], b[0]);
      FollowsCons(a[0], b[0], Listed(a[1..], account), Listed(b[1..], account));
    }
  }

  lemma {:induction false} ClaimsFollow(a: seq<Job>, b: seq<Job>, ref: string)
    requires Follows(a, b)
    ensures Follows(ClaimsOf(a, ref), ClaimsOf(b, ref))
  {
    hide FollowsJob;
    if |a| > 0 {
      ClaimsFollow(a[1..], b[1..], ref);
      FollowsListing(a[0], b[0]);
      FollowsCons(a[0], b[0], ClaimsOf(a[1..], ref), ClaimsOf(b[1..], ref));
    }
  }

  lemma BatchFollows(canon: Canon, x: Job, y: Job, a: seq<Job>, b: seq<Job>)
    requires Follows(a, b) && FollowsJob(x, y) && DistinctIds(b) && ValidBatch(canon, x, a)
    ensures ValidBatch(canon, y, b)
  {
    hide CompletedL2, Exact;
    forall i | 0 <= i < |y.evidence|
      ensures Backed(canon, y.evidence[i], y.project, b)
    {
      var item := x.evidence[i];
      assert Backed(canon, item, x.project, a);
      var source := SourceByRef(a, x.project, item.ref).value;
      var k :| 0 <= k < |a| && a[k] == source;
      assert FollowsJob(a[k], b[k]);
      CompletedIs(source, x.project);
      SourceIsTheOne(b, x.project, item.ref, source);
    }
  }

  lemma CompletedIs(job: Job, project: Option<string>)
    requires CompletedL2(job, project)
    ensures job.status == Completed
  {
  }

  /** A claim of the right project whose whole batch is exact, this source included. */
  predicate GoodClaim(canon: Canon, claim: Job, jobs: seq<Job>, source: Job) {
    claim.project == source.project && ValidBatch(canon, claim, jobs) && HasExact(canon, claim, source)
  }

  lemma ValidMeans(canon: Canon, jobs: seq<Job>, source: Job)
    requires source.resultId.Some?
    ensures var matches := ClaimsOf(jobs, L2Ref(source));
      && (Inspect(canon, jobs, source).Valid? <==>
            |matches| > 0 && (forall i :: 0 <= i < |matches| ==> GoodClaim(canon, matches[i], jobs, source))
            && (|matches| > 1 ==> OneLineage(matches)))
      && (Inspect(canon, jobs, source).Valid? ==>
            Inspect(canon, jobs, source).claims == matches && Inspect(canon, jobs, source).representative in matches)
      && (Inspect(canon, jobs, source).Missing? <==> matches == [])
  {
    hide ValidBatch, HasExact, OneLineage, ClaimsOf, Representative;
    var matches := ClaimsOf(jobs, L2Ref(source));
    assert forall i :: 0 <= i < |matches| ==> (GoodClaim(canon, matches[i], jobs, source) <==>
      matches[i].project == source.project && ValidBatch(canon, matches[i], jobs) && HasExact(canon, matches[i], source));
  }

  lemma {:induction false} ItemsFailWhenNotBacked(canon: Canon, items: seq<Evidence>, project: Option<string>, jobs: seq<Job>)
    ensures ItemsFailure(canon, items, project, jobs).None? <==> forall i :: 0 <= i < |items| ==> Backed(canon, items[i], project, jobs)
  {
    hide Backed, Throws;
    if |items| > 0 {
      ItemsFailWhenNotBacked(canon, items[1..], project, jobs);
      assert forall i :: 0 < i < |items| ==> items[i] == items[1..][i - 1];
    }
  }

  /** An exact item comes before any that throws: all items with the source's reference compare alike. */
  lemma {:induction false} SearchFailsWhenNotExact(canon: Canon, items: seq<Evidence>, source: Job)
    ensures SearchFailure(canon, items, source).None? <==> exists i :: 0 <= i < |items| && Exact(canon, items[i], source)
  {
    if |items| > 0 {
      SearchFailsWhenNotExact(canon, items[1..], source);
      if i :| 0 <= i < |items| && Exact(canon, items[i], source) {
        assert i > 0 ==> items[i] == items[1..][i - 1];
      }
      if i :| 0 <= i < |items[1..]| && Exact(canon, items[1..][i], source) {
        assert Exact(canon, items[i + 1], source);
      }
    }
  }

  /** Without the error, a claim is accepted exactly if it is a good one. */
  lemma ClaimFailsUnlessGood(canon: Canon, claim: Job, jobs: seq<Job>, source: Job)
    ensures ClaimFailure(canon, claim, jobs, source).None? <==> ValidBatch(canon, claim, jobs) && HasExact(canon, claim, source)
  {
    ItemsFailWhenNotBacked(canon, claim.evidence, claim.project, jobs);
    SearchFailsWhenNotExact(canon, claim.evidence, source);
  }

  /** In a ledger whose bodies agree with what Core confirmed, the inspection never throws. */
  lemma {:induction false} IntactNeverThrows(canon: Canon, claims: seq<Job>, jobs: seq<Job>, source: Job)
    requires Intact(source) && forall job :: job in jobs ==> Intact(job)
    ensures FirstFailure(canon, claims, jobs, source) == EvidenceMismatch
  {
    hide Backed, Exact, RefsDistinct;
    if |claims| > 0 {
      ItemsNeverThrow(canon, claims[0].evidence, claims[0].project, jobs);
      SearchNeverThrows(canon, claims[0].evidence, source);
      IntactNeverThrows(canon, claims[1..], jobs, source);
    }
  }

  lemma {:induction false} ItemsNeverThrow(canon: Canon, items: seq<Evidence>, project: Option<string>, jobs: seq<Job>)
    requires forall job :: job in jobs ==> Intact(job)
    ensures ItemsFailure(canon, items, project, jobs) in {None, Some(EvidenceMismatch)}
  {
    hide Backed;
    if |items| > 0 {
      ItemsNeverThrow(canon, items[1..], project, jobs);
    }
  }

  lemma {:induction false} SearchNeverThrows(canon: Canon, items: seq<Evidence>, source: Job)
    requires Intact(source)
    ensures SearchFailure(canon, items, source) in {None, Some(EvidenceMismatch)}
  {
    if |items| > 0 {
      SearchNeverThrows(canon, items[1..], source);
    }
  }

  lemma ClaimStays(canon: Canon, a: seq<Job>, b: seq<Job>, source: Job)
    requires Follows(a, b) && DistinctIds(b) && source.resultId.Some? && Inspect(canon, a, source).Valid?
    ensures Inspect(canon, b, source).Valid?
    ensures Follows(Inspect(canon, a, source).claims, Inspect(canon, b, source).claims)
  {
    hide Inspect, GoodClaim, OneLineage, ClaimsOf, FollowsJob;
    var x, y := ClaimsOf(a, L2Ref(source)), ClaimsOf(b, L2Ref(source));
    ClaimsFollow(a, b, L2Ref(source));
    ValidMeans(canon, a, source);
    ValidMeans(canon, b, source);
    forall i | 0 <= i < |y|
      ensures GoodClaim(canon, y[i], b, source)
    {
      GoodClaimFollows(canon, x[i], y[i], a, b, source);
    }
    if |y| > 1 {
      LineageFollows(x, y);
    }
  }

  lemma GoodClaimFollows(canon: Canon, x: Job, y: Job, a: seq<Job>, b: seq<Job>, source: Job)
    requires Follows(a, b) && FollowsJob(x, y) && DistinctIds(b) && GoodClaim(canon, x, a, source)
    ensures GoodClaim(canon, y, b, source)
  {
    hide ValidBatch, HasExact;
    BatchFollows(canon, x, y, a, b);
    SameExact(canon, x, y, source);
  }

  lemma SameExact(canon: Canon, x: Job, y: Job, source: Job)
    requires x.evidence == y.evidence && HasExact(canon, x, source)
    ensures HasExact(canon, y, source)
  {
  }

  lemma LineageFollows(x: seq<Job>, y: seq<Job>)
    requires Follows(x, y) && OneLineage(x)
    ensures x == y
  {
    forall i | 0 <= i < |x|
      ensures x[i] == y[i]
    {
      assert FollowsJob(x[i], y[i]);
    }
  }

  predicate Works(op: Op) {
    op.Lease? || op.OnJob?
  }

  lemma WorkFollows(s: State, op: Op)
    requires Works(op)
    ensures Follows(s.jobs, Apply(s, op).jobs)
  {
    hide FollowsJob, Leasable, LeasedJob, Worked;
    FollowsSelf(s.jobs);
    match op
    case Lease(r) =>
      var found := Find(s.jobs, (job: Job) => Leasable(job, r));
      if found.Some? {
        LeaseFollows(s.jobs[found.value], r, s.next);
      }
    case OnJob(account, id, w) =>
      var found := Find(s.jobs, (job: Job) => job.id == id && job.account == account);
      if found.Some? && Worked(s.jobs[found.value], w).Some? {
        WorkedFollows(s.jobs[found.value], w);
      }
  }

  lemma LeaseFollows(job: Job, r: LeaseRequest, token: Token)
    requires Leasable(job, r)
    ensures FollowsJob(job, LeasedJob(job, r, token))
  {
    hide Clamp;
  }

  lemma WorkedFollows(job: Job, w: Work)
    requires Worked(job, w).Some?
    ensures FollowsJob(job, Worked(job, w).value)
  {
    hide Clamp;
  }

  lemma FollowsThrough(a: seq<Job>, b: seq<Job>, c: seq<Job>)
    requires Follows(a, b) && Follows(b, c)
    ensures Follows(a, c)
  {
    forall i | 0 <= i < |a|
      ensures FollowsJob(a[i], c[i])
    {
      assert FollowsJob(a[i], b[i]) && FollowsJob(b[i], c[i]);
    }
  }

  lemma {:induction false} ReplayFollows(s: State, ops: seq<Op>)
    requires forall i :: 0 <= i < |ops| ==> Works(ops[i])
    ensures Follows(s.jobs, Replay(s, ops).jobs)
    decreases |ops|
  {
    hide Apply, FollowsJob;
    if |ops| == 0 {
      FollowsSelf(s.jobs);
    } else {
      WorkFollows(s, ops[0]);
      ReplayFollows(Apply(s, ops[0]), ops[1..]);
      FollowsThrough(s.jobs, Apply(s, ops[0]).jobs, Replay(s, ops).jobs);
    }
  }

  lemma FollowsSelf(a: seq<Job>)
    ensures Follows(a, a)
  {
  }

  lemma {:induction false} ListedDistinct(jobs: seq<Job>, account: string)
    requires DistinctIds(jobs)
    ensures DistinctIds(Listed(jobs, account))
  {
    if |jobs| > 0 {
      ListedDistinct(jobs[1..], account);
      var rest := Listed(jobs[1..], account);
      forall k | 0 <= k < |rest|
        ensures rest[k].id != jobs[0].id
      {
        assert rest[k] in rest;
        var j :| 0 <= j < |jobs[1..]| && jobs[1..][j] == rest[k];
        assert jobs[j + 1].id != jobs[0].id;
      }
    }
  }

  /**
   A valid claim stays valid through any sequence of leases, renewals, completions, failures and
   retries by any workers: its evidence and its sources do not change.
   */
  lemma {:induction false} ClaimOutlivesWork(canon: Canon, s: State, account: string, source: Job, ops: seq<Op>)
    requires Reachable(s) && source.resultId.Some? && (forall i :: 0 <= i < |ops| ==> Works(ops[i]))
    requires Inspect(canon, Listed(s.jobs, account), source).Valid?
    ensures Inspect(canon, Listed(Replay(s, ops).jobs, account), source).Valid?
    ensures Follows(Inspect(canon, Listed(s.jobs, account), source).claims,
                    Inspect(canon, Listed(Replay(s, ops).jobs, account), source).claims)
  {
    hide Apply, Inspect, LeaseFencing.LeasesInv, LeaseFencing.RetirementsInv, LeaseFencing.Keeps;
    var t := Replay(s, ops);
    LeaseFencing.ReachableInv(s);
    LeaseFencing.ReplayKeeps(s, ops);
    ReplayFollows(s, ops);
    ListedFollows(s.jobs, t.jobs, account);
    ListedDistinct(t.jobs, account);
    ClaimStays(canon, Listed(s.jobs, account), Listed(t.jobs, account), source);
  }

  // ---------------------------------------------------------------------------------------
  // What a valid claim is, by the fields of the jobs

  /** A finished L2 result of the project with a time of its own. */
  predicate IsL2Result(job: Job, project: Option<string>) {
    && job.target == L2 && job.status == Completed && job.project == project
    && job.resultId.Some? && Trim(job.resultId.value) != "" && job.resultContent.Some? && Trim(job.resultContent.value) != ""
    && ((job.resultCommittedAt.Some? && job.resultCommittedAt.value.valid) || (job.completedAt.Some? && job.completedAt.value.valid))
  }

  /**
   The item is an exact record of the L2 result: it names it, is an L2 artifact of its project, bears
   its time, and has its body.  A body Core confirmed counts to the letter, any other up to its
   canonical form.
   */
  predicate Records(canon: Canon, item: Evidence, source: Job) {
    && source.resultId.Some? && source.resultContent.Some?
    && item.ref == RevisionRef("l2", source.resultId.value, source.id)
    && item.kind == Artifact && item.layer == Some(L2) && item.project == source.project
    && item.timestamp.valid
    && (if source.resultCommittedAt.Some? && source.resultCommittedAt.value.valid then source.resultCommittedAt == Some(item.timestamp)
        else source.completedAt == Some(item.timestamp))
    && (source.coreBody.None? ==> canon(item.content) == canon(source.resultContent.value))
    && (source.coreBody.Some? ==> item.content == source.resultContent.value == source.coreBody.value)
  }

  lemma ExactRecords(canon: Canon, item: Evidence, source: Job, project: Option<string>)
    ensures CompletedL2(source, project) <==> IsL2Result(source, project)
    ensures IsL2Result(source, project) ==> (Exact(canon, item, source) <==> Records(canon, item, source))
  {
    if source.resultId.Some? { TextIsNotBlank(source.resultId.value); }
    if source.resultContent.Some? { TextIsNotBlank(source.resultContent.value); }
  }

  /** The check throws exactly where the stored body is not the one Core confirmed and the item would, but for body and time, record it. */
  lemma ThrowsIff(canon: Canon, item: Evidence, source: Job)
    requires IsL2Result(source, source.project)
    ensures Throws(item, source) <==>
      && source.coreBody.Some? && source.coreBody != source.resultContent
      && Records(canon, item.(content := source.resultContent.value, timestamp := ResultStamp(source).value), source.(coreBody := None))
  {
    TextIsNotBlank(source.resultId.value);
  }

  /** Some L2 result of the project among the jobs is what the item records. */
  ghost predicate RecordsOne(canon: Canon, item: Evidence, project: Option<string>, jobs: seq<Job>) {
    exists source :: source in jobs && IsL2Result(source, project) && Records(canon, item, source)
  }

  lemma BackedRecordsOne(canon: Canon, item: Evidence, project: Option<string>, jobs: seq<Job>)
    requires DistinctIds(jobs)
    ensures Backed(canon, item, project, jobs) <==> RecordsOne(canon, item, project, jobs)
  {
    hide CompletedL2, Exact, IsL2Result, Records;
    if Backed(canon, item, project, jobs) {
      ExactRecords(canon, item, SourceByRef(jobs, project, item.ref).value, project);
    }
    if source :| source in jobs && IsL2Result(source, project) && Records(canon, item, source) {
      ExactRecords(canon, item, source, project);
      ExactHasRef(canon, item, source);
      SourceIsTheOne(jobs, project, item.ref, source);
    }
  }

  lemma ExactHasRef(canon: Canon, item: Evidence, source: Job)
    requires Exact(canon, item, source)
    ensures source.resultId.Some? && L2Ref(source) == item.ref
  {
  }

  /** An L3 job of the source's project whose items each record a result of that project once, the source among them. */
  ghost predicate Consolidates(canon: Canon, claim: Job, jobs: seq<Job>, source: Job) {
    && claim.target == L3 && claim.project == source.project && claim.project.Some? && claim.project != Some("")
    && (forall i, j :: 0 <= i < j < |claim.evidence| ==> claim.evidence[i].ref != claim.evidence[j].ref)
    && (forall item :: item in claim.evidence ==> RecordsOne(canon, item, claim.project, jobs))
    && (exists item :: item in claim.evidence && Records(canon, item, source))
  }

  lemma {:induction false} GoodConsolidates(canon: Canon, claim: Job, jobs: seq<Job>, source: Job)
    requires DistinctIds(jobs) && IsL2Result(source, source.project)
    ensures GoodClaim(canon, claim, jobs, source) <==> Consolidates(canon, claim, jobs, source)
  {
    hide Exact, IsL2Result, Records, Backed, RecordsOne;
    forall i | 0 <= i < |claim.evidence|
      ensures claim.evidence[i] in claim.evidence
      ensures Backed(canon, claim.evidence[i], claim.project, jobs) <==> RecordsOne(canon, claim.evidence[i], claim.project, jobs)
      ensures Exact(canon, claim.evidence[i], source) <==> Records(canon, claim.evidence[i], source)
    {
      BackedRecordsOne(canon, claim.evidence[i], claim.project, jobs);
      ExactRecords(canon, claim.evidence[i], source, source.project);
    }
  }

  /** Two finished L3 results under one id. */
  predicate SameArtifact(a: Job, b: Job) {
    && a.status == Completed && a.resultKind == Some(Of(L3)) && a.resultId.Some? && Trim(a.resultId.value) != ""
    && b.status == Completed && b.resultKind == Some(Of(L3)) && b.resultId.Some? && Trim(b.resultId.value) == Trim(a.resultId.value)
  }

  lemma LineageIff(claims: seq<Job>)
    requires |claims| > 1 && forall i, j :: 0 <= i < j < |claims| ==> claims[i] != claims[j]
    ensures OneLineage(claims) <==> forall a, b :: a in claims && b in claims && a != b ==> SameArtifact(a, b)
  {
    forall i | 0 <= i < |claims|
      ensures claims[i].resultId.Some? ==> (Trim(claims[i].resultId.value) != "" <==> !Blank(claims[i].resultId.value))
    {
      if claims[i].resultId.Some? { TextIsNotBlank(claims[i].resultId.value); }
    }
    if OneLineage(claims) {
      forall a, b | a in claims && b in claims && a != b
        ensures SameArtifact(a, b)
      {
        var i :| 0 <= i < |claims| && claims[i] == a;
        var j :| 0 <= j < |claims| && claims[j] == b;
        assert i < j || j < i;
      }
    }
    if forall a, b :: a in claims && b in claims && a != b ==> SameArtifact(a, b) {
      forall i | 0 <= i < |claims|
        ensures claims[i].status == Completed && claims[i].resultKind == Some(Of(L3)) && HasText(claims[i].resultId)
      {
        var j := if i == 0 then 1 else 0;
        assert claims[if i < j then i else j] != claims[if i < j then j else i];
        assert SameArtifact(claims[i], claims[j]);
      }
      forall i, j | 0 <= i < j < |claims|
        ensures Trim(claims[i].resultId.value) == Trim(claims[j].resultId.value)
      {
        assert claims[i] != claims[j] && SameArtifact(claims[i], claims[j]);
      }
    }
  }

  /** An L3 job with the source among its references. */
  ghost predicate RefersTo(job: Job, source: Job)
    requires source.resultId.Some?
  {
    job.target == L3 && exists item :: item in job.evidence && item.ref == RevisionRef("l2", source.resultId.value, source.id)
  }

  lemma ClaimsRefer(jobs: seq<Job>, source: Job)
    requires source.resultId.Some?
    ensures forall job :: job in ClaimsOf(jobs, L2Ref(source)) <==> job in jobs && RefersTo(job, source)
  {
    forall job: Job
      ensures HasRef(job.evidence, L2Ref(source)) <==>
        exists item :: item in job.evidence && item.ref == RevisionRef("l2", source.resultId.value, source.id)
    {
      if HasRef(job.evidence, L2Ref(source)) {
        var i :| 0 <= i < |job.evidence| && job.evidence[i].ref == L2Ref(source);
        assert job.evidence[i] in job.evidence;
      }
    }
  }

  lemma {:induction false} ClaimsDiffer(jobs: seq<Job>, ref: string)
    requires DistinctIds(jobs)
    ensures forall i, j :: 0 <= i < j < |ClaimsOf(jobs, ref)| ==> ClaimsOf(jobs, ref)[i] != ClaimsOf(jobs, ref)[j]
  {
    if |jobs| > 0 {
      ClaimsDiffer(jobs[1..], ref);
      assert jobs[0] !in jobs[1..];
    }
  }

  /**
   The inspection misses a claim exactly if no L3 job refers to the source.  The claim is valid
   exactly if each job that does consolidates the source from exact records, and any two of them
   are finished results under one id.
   */
  lemma {:induction false} ValidIff(canon: Canon, jobs: seq<Job>, source: Job)
    requires DistinctIds(jobs) && source.resultId.Some? && IsL2Result(source, source.project)
    ensures Inspect(canon, jobs, source).Missing? <==> forall job :: job in jobs ==> !RefersTo(job, source)
    ensures Inspect(canon, jobs, source).Valid? <==>
      && (exists job :: job in jobs && RefersTo(job, source))
      && (forall job :: job in jobs && RefersTo(job, source) ==> Consolidates(canon, job, jobs, source))
      && (forall a, b :: a in jobs && b in jobs && RefersTo(a, source) && RefersTo(b, source) && a != b ==> SameArtifact(a, b))
  {
    hide GoodClaim, Consolidates, OneLineage, SameArtifact, RefersTo, IsL2Result, ClaimsOf, Inspect;
    var claims := ClaimsOf(jobs, L2Ref(source));
    ClaimsRefer(jobs, source);
    ClaimsDiffer(jobs, L2Ref(source));
    ValidMeans(canon, jobs, source);
    if |claims| > 1 { LineageIff(claims); }
    forall i | 0 <= i < |claims|
      ensures claims[i] in claims
      ensures GoodClaim(canon, claims[i], jobs, source) <==> Consolidates(canon, claims[i], jobs, source)
    {
      GoodConsolidates(canon, claims[i], jobs, source);
    }
    if |claims| > 0 { assert claims[0] in claims; }
  }

  /** When a claim got its result, or else was queued. */
  function ClaimedAt(job: Job): int {
    if job.resultCommittedAt.Some? && job.resultCommittedAt.value.valid then job.resultCommittedAt.value.at
    else if job.completedAt.Some? && job.completedAt.value.valid then job.completedAt.value.at
    else job.createdAt
  }

  /** The claim at i is later than those before it, and no earlier than those after it. */
  ghost predicate LatestAt(claims: seq<Job>, i: nat) {
    && i < |claims|
    && (forall j :: 0 <= j < i ==> ClaimedAt(claims[j]) < ClaimedAt(claims[i]))
    && (forall j :: i < j < |claims| ==> ClaimedAt(claims[j]) <= ClaimedAt(claims[i]))
  }

  /** Of several claims the latest one stands for all, the first of them if there is a tie. */
  lemma {:induction false} RepresentativeIsLatest(claims: seq<Job>) returns (i: nat)
    requires |claims| > 0
    ensures LatestAt(claims, i) && Representative(claims) == claims[i]
  {
    i := 0;
    if |claims| > 1 {
      var rest := claims[1..];
      var k := RepresentativeIsLatest(rest);
      assert forall j :: 0 < j < |claims| ==> claims[j] == rest[j - 1];
      i := if ClaimedAt(claims[0]) >= ClaimedAt(rest[k]) then 0 else k + 1;
      assert ClaimTime(claims[0]) == ClaimedAt(claims[0]) && ClaimTime(rest[k]) == ClaimedAt(rest[k]);
      hide ClaimedAt, ClaimTime;
    }
  }
}
