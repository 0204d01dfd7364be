/**
 The current L3 artifact of every project, and the L4 evidence built from them.
 src/distillation-jobs.ts:202-238, src/distillation-derived-recovery.ts:94-225,
 src/distillation-submit.ts:297-317.
 */
module CurrentL3 {
  import opened Common
  import opened JobLedger
  import Enqueueing
  import LeaseFencing
  import Retirement
  import Sorting

  // ---------------------------------------------------------------------------------------
  // Reference texts

  /** A job number as text; job ids never contain a colon. */
  function IdText(id: nat): (r: string)
    ensures |r| > 0 && forall i :: 0 <= i < |r| ==> '0' <= r[i] <= '9'
  {
    if id < 10 then [Digit(id)] else IdText(id / 10) + [Digit(id % 10)]
  }

  function Digit(d: nat): (c: char)
    requires d < 10
    ensures '0' <= c <= '9'
  {
    '0' + d as char
  }

  lemma {:induction false} IdTextInjective(a: nat, b: nat)
    requires IdText(a) == IdText(b)
    ensures a == b
  {
    var s := IdText(a);
    assert s[|s| - 1] == Digit(a % 10) && s[|s| - 1] == Digit(b % 10);
    if a >= 10 && b >= 10 {
      assert s[..|s| - 1] == IdText(a / 10) && s[..|s| - 1] == IdText(b / 10);
      IdTextInjective(a / 10, b / 10);
    }
  }

  /** A completed revision as an evidence reference: layer, stable memory id and job id. */
  function RevisionRef(prefix: string, memory: string, id: JobId): string {
    prefix + ":" + memory + ":" + IdText(id)
  }

  /** A reference names one job, whatever colons the memory id holds. */
  lemma RevisionRefNamesJob(prefix: string, a: string, i: JobId, b: string, j: JobId)
    requires RevisionRef(prefix, a, i) == RevisionRef(prefix, b, j)
    ensures i == j
  {
    var s := RevisionRef(prefix, a, i);
    var x, y := IdText(i), IdText(j);
    assert s[|s| - |x| - 1] == ':' && s[|s| - |y| - 1] == ':';
    assert forall k :: |s| - |x| <= k < |s| ==> s[k] == x[k - (|s| - |x|)];
    assert forall k :: |s| - |y| <= k < |s| ==> s[k] == y[k - (|s| - |y|)];
    assert |x| == |y|;
    assert x == s[|s| - |x|..] && y == s[|s| - |y|..];
    IdTextInjective(i, j);
  }

  // ---------------------------------------------------------------------------------------
  // The current artifact of a project

  /** distillationResultTimestamp. */
  function ResultStamp(job: Job): Option<Stamp> {
    if job.resultCommittedAt.Some? && job.resultCommittedAt.value.valid then job.resultCommittedAt
    else if job.completedAt.Some? && job.completedAt.value.valid then job.completedAt
    else None
  }

  predicate HasText(s: Option<string>) {
    s.Some? && !Blank(s.value)
  }

  /** A completed, attributable L3 result. */
  predicate Qualifies(job: Job) {
    && job.status == Completed && job.resultKind == Some(Of(L3)) && Text(job.project)
    && HasText(job.resultId) && HasText(job.resultContent)
    && job.completedAt.Some? && job.completedAt.value.valid
  }

  /** compareCompletedRevision(a, b) > 0 */
  predicate Newer(a: Job, b: Job)
    requires Qualifies(a) && Qualifies(b)
  {
    var x, y := ResultStamp(a).value.at, ResultStamp(b).value.at;
    x > y || (x == y && (a.createdAt > b.createdAt || (a.createdAt == b.createdAt && a.id > b.id)))
  }

  predicate Candidate(job: Job, project: string) {
    Qualifies(job) && job.project == Some(project)
  }

  /** The entry the map holds for a project once it has gone through `jobs`. */
  function LatestOf(jobs: seq<Job>, project: string): (r: Option<Job>)
    ensures r.Some? ==> Candidate(r.value, project)
  {
    if |jobs| == 0 then None
    else
      var job := jobs[|jobs| - 1];
      var previous := LatestOf(jobs[..|jobs| - 1], project);
      if Candidate(job, project) && (previous.None? || Newer(job, previous.value)) then Some(job) else previous
  }

  ghost predicate DistinctIds(jobs: seq<Job>) {
    forall i, j :: 0 <= i < j < |jobs| ==> jobs[i].id != jobs[j].id
  }

  /** `job` is the one revision of the project that is newer than all others. */
  ghost predicate IsMaximum(jobs: seq<Job>, project: string, job: Job) {
    && job in jobs && Candidate(job, project)
    && forall other :: other in jobs && Candidate(other, project) && other != job ==> Newer(job, other)
  }

  /** The loop's choice is exactly the unique maximum. */
  lemma {:induction false} LatestIsMaximum(jobs: seq<Job>, project: string, job: Job)
    requires DistinctIds(jobs)
    ensures LatestOf(jobs, project) == Some(job) <==> IsMaximum(jobs, project, job)
    ensures LatestOf(jobs, project).None? <==> forall other :: other in jobs ==> !Candidate(other, project)
  {
    LatestIsBest(jobs, project);
  }

  lemma {:induction false} LatestIsBest(jobs: seq<Job>, project: string)
    requires DistinctIds(jobs)
    ensures var r := LatestOf(jobs, project);
      && (r.None? ==> forall other :: other in jobs ==> !Candidate(other, project))
      && (r.Some? ==> IsMaximum(jobs, project, r.value))
  {
    hide Qualifies;
    if |jobs| > 0 {
      var job, rest := jobs[|jobs| - 1], jobs[..|jobs| - 1];
      LatestIsBest(rest, project);
      assert jobs == rest + [job];
      var previous := LatestOf(rest, project);
      if Candidate(job, project) && previous.Some? {
        var i :| 0 <= i < |rest| && rest[i] == previous.value;
        assert jobs[i].id != jobs[|jobs| - 1].id;
        NewerOrders(job, previous.value);
        if Newer(job, previous.value) {
          forall other | other in jobs && Candidate(other, project) && other != job
            ensures Newer(job, other)
          {
            if other != previous.value {
              NewerTransitive(job, previous.value, other);
            }
          }
        }
      }
    }
  }

  lemma NewerOrders(a: Job, b: Job)
    requires Qualifies(a) && Qualifies(b) && a.id != b.id
    ensures Newer(a, b) != Newer(b, a)
  {
  }

  lemma NewerTransitive(a: Job, b: Job, c: Job)
    requires Qualifies(a) && Qualifies(b) && Qualifies(c) && Newer(a, b) && Newer(b, c)
    ensures Newer(a, c)
  {
  }

  // ---------------------------------------------------------------------------------------
  // The snapshot

  predicate ByProject(a: Job, b: Job) {
    a.project.Some? && b.project.Some? && Sorting.Less(a.project.value, b.project.value)
  }

  /** One current artifact for each project that has any, in project order. */
  ghost predicate IsSnapshot(jobs: seq<Job>, r: seq<Job>) {
    && Sorting.Sorted(ByProject, r)
    && forall job :: job in r <==> job.project.Some? && LatestOf(jobs, job.project.value) == Some(job)
  }

  /** The snapshot as a value; there is exactly one (OneSnapshot). */
  ghost function Snapshot(jobs: seq<Job>): (r: seq<Job>)
    ensures IsSnapshot(jobs, r) && forall i :: 0 <= i < |r| ==> Qualifies(r[i])
  {
    SnapshotExists(jobs);
    var r :| IsSnapshot(jobs, r);
    SnapshotOrdered(jobs, r);
    r
  }

  lemma SnapshotExists(jobs: seq<Job>)
    ensures exists r :: IsSnapshot(jobs, r)
  {
    hide IsSnapshot, LatestOf;
    var projects := set job | job in jobs && job.project.Some? && LatestOf(jobs, job.project.value).Some? :: job.project.value;
    forall p
      ensures p in projects <==> LatestOf(jobs, p).Some?
    {
      LatestIsMember(jobs, p);
    }
    var latest := map p | p in projects :: LatestOf(jobs, p).value;
    var order := Enumerated(projects);
    ValuesByProject(jobs, latest, order, seq(|order|, i requires 0 <= i < |order| && order[i] in latest => latest[order[i]]));
  }

  lemma {:induction false} LatestIsMember(jobs: seq<Job>, project: string)
    ensures LatestOf(jobs, project).Some? ==> LatestOf(jobs, project).value in jobs && LatestOf(jobs, project).value.project == Some(project)
  {
    hide Qualifies, Newer;
    if |jobs| > 0 {
      LatestIsMember(jobs[..|jobs| - 1], project);
      assert jobs == jobs[..|jobs| - 1] + [jobs[|jobs| - 1]];
    }
  }

  lemma {:induction false} Enumerated(names: set<string>) returns (order: seq<string>)
    ensures Sorting.Distinct(order) && forall p :: p in order <==> p in names
  {
    order := [];
    if names != {} {
      var p :| p in names;
      order := Enumerated(names - {p});
      order := order + [p];
    }
  }

  /** All snapshots of one list are the same. */
  lemma OneSnapshot(jobs: seq<Job>, a: seq<Job>, b: seq<Job>)
    requires IsSnapshot(jobs, a) && IsSnapshot(jobs, b)
    ensures a == b
  {
    hide Qualifies, Newer, LatestOf;
    SnapshotOrdered(jobs, a);
    SnapshotOrdered(jobs, b);
    Sorting.SameElements(a, b);
    Sorting.OrdersAsymmetric(ByProject, a);
    Sorting.SortedUnique(ByProject, a, b);
  }

  /** A job that is no candidate does not change the snapshot. */
  lemma SnapshotIgnores(jobs: seq<Job>, job: Job)
    requires !Qualifies(job)
    ensures Snapshot(jobs + [job]) == Snapshot(jobs)
  {
    hide Qualifies, Newer;
    assert (jobs + [job])[..|jobs|] == jobs;
    forall p
      ensures LatestOf(jobs + [job], p) == LatestOf(jobs, p)
    {
    }
    OneSnapshot(jobs, Snapshot(jobs + [job]), Snapshot(jobs));
  }

  /** A finished L3 result of the project that can be attributed: by the fields a job has to have. */
  predicate IsL3Result(job: Job, project: string) {
    && job.status == Completed && job.resultKind == Some(Of(L3)) && project != "" && job.project == Some(project)
    && job.resultId.Some? && Trim(job.resultId.value) != "" && job.resultContent.Some? && Trim(job.resultContent.value) != ""
    && job.completedAt.Some? && job.completedAt.value.valid
  }

  /** When the result was committed to Core, or completed if that is not known. */
  function EffectiveTime(job: Job): int
    requires job.completedAt.Some?
  {
    if job.resultCommittedAt.Some? && job.resultCommittedAt.value.valid then job.resultCommittedAt.value.at else job.completedAt.value.at
  }

  /** `a` is no later a result than `b`: by effective time, then by creation, then by number. */
  predicate NoLater(a: Job, b: Job) {
    && a.completedAt.Some? && b.completedAt.Some?
    && EffectiveTime(a) <= EffectiveTime(b)
    && (EffectiveTime(a) == EffectiveTime(b) ==> a.createdAt <= b.createdAt)
    && (EffectiveTime(a) == EffectiveTime(b) && a.createdAt == b.createdAt ==> a.id <= b.id)
  }

  /** One result for each project that has any, and no result of its project is later. */
  ghost predicate AreLatest(jobs: seq<Job>, r: seq<Job>) {
    && (forall i :: 0 <= i < |r| ==> r[i] in jobs && r[i].project.Some? && IsL3Result(r[i], r[i].project.value))
    && (forall i, j :: 0 <= i < j < |r| ==> r[i].project.Some? && r[j].project.Some? && Sorting.Less(r[i].project.value, r[j].project.value))
    && (forall job, project :: job in jobs && IsL3Result(job, project) ==>
          HasNoEarlier(r, project, job))
  }

  /** The project's result in `r` is no earlier than the job. */
  ghost predicate HasNoEarlier(r: seq<Job>, project: string, job: Job) {
    exists i :: 0 <= i < |r| && r[i].project == Some(project) && NoLater(job, r[i])
  }

  /** Trimming takes the blanks at both ends away, all of them, and nothing else. */
  lemma {:induction false} TrimTakesBlanks(s: string) returns (i: nat, j: nat)
    ensures i <= j <= |s| && Trim(s) == s[i..j]
    ensures (forall k :: 0 <= k < i ==> s[k] in " \t\n\r") && (forall k :: j <= k < |s| ==> s[k] in " \t\n\r")
    ensures i < j ==> s[i] !in " \t\n\r" && s[j - 1] !in " \t\n\r"
  {
    i, j := 0, |s|;
    if |s| > 0 && BlankChar(s[0]) {
      i, j := TrimTakesBlanks(s[1..]);
      assert s[1..][i..j] == s[i + 1..j + 1];
      assert forall k :: 0 < k < |s| ==> s[k] == s[1..][k - 1];
      i, j := i + 1, j + 1;
    } else if |s| > 0 && BlankChar(s[|s| - 1]) {
      i, j := TrimTakesBlanks(s[..|s| - 1]);
      assert s[..|s| - 1][i..j] == s[i..j];
      assert forall k :: 0 <= k < |s| - 1 ==> s[k] == s[..|s| - 1][k];
    }
  }

  lemma TextIsNotBlank(s: string)
    ensures Trim(s) != "" <==> !Blank(s)
  {
    if Trim(s) != "" { TrimmedHasText(s); } else { TrimmedBlank(s); }
  }

  lemma {:induction false} TrimmedBlank(s: string)
    requires Trim(s) == ""
    ensures Blank(s)
  {
    if |s| > 0 && BlankChar(s[0]) {
      TrimmedBlank(s[1..]);
      assert forall i :: 0 < i < |s| ==> s[i] == s[1..][i - 1];
    } else if |s| > 0 && BlankChar(s[|s| - 1]) {
      TrimmedBlank(s[..|s| - 1]);
    }
  }

  lemma {:induction false} TrimmedHasText(s: string)
    requires Trim(s) != ""
    ensures !Blank(Trim(s)) && !Blank(s)
  {
    if BlankChar(s[0]) {
      TrimmedHasText(s[1..]);
      assert forall i :: 0 < i < |s| ==> s[i] == s[1..][i - 1];
    } else if BlankChar(s[|s| - 1]) {
      TrimmedHasText(s[..|s| - 1]);
      assert forall i :: 0 <= i < |s| - 1 ==> s[i] == s[..|s| - 1][i];
    }
  }

  lemma CandidateIsResult(job: Job, project: string)
    ensures Candidate(job, project) <==> IsL3Result(job, project)
  {
    hide Blank, Trim;
    if job.resultId.Some? { TextIsNotBlank(job.resultId.value); }
    if job.resultContent.Some? { TextIsNotBlank(job.resultContent.value); }
  }

  lemma NewerIsLater(a: Job, b: Job)
    requires Qualifies(a) && Qualifies(b)
    ensures Newer(a, b) ==> NoLater(b, a)
    ensures a.id != b.id && NoLater(b, a) ==> Newer(a, b)
  {
  }

  /** In a ledger the snapshot has of every project the result that is the latest. */
  lemma SnapshotIsLatest(jobs: seq<Job>, r: seq<Job>)
    requires DistinctIds(jobs) && IsSnapshot(jobs, r)
    ensures AreLatest(jobs, r)
  {
    hide Qualifies, Newer, NoLater, IsL3Result;
    SnapshotOrdered(jobs, r);
    forall i | 0 <= i < |r|
      ensures r[i] in jobs && r[i].project.Some? && IsL3Result(r[i], r[i].project.value)
    {
      SnapshotMember(jobs, r, i);
      CandidateIsResult(r[i], r[i].project.value);
    }
    forall job, project | job in jobs && IsL3Result(job, project)
      ensures HasNoEarlier(r, project, job)
    {
      CandidateIsResult(job, project);
      LatestIsLater(jobs, project, job);
      var latest := LatestOf(jobs, project).value;
      LatestHasProject(jobs, project);
      assert latest in r;
      var i :| 0 <= i < |r| && r[i] == latest;
    }
  }

  lemma LatestIsLater(jobs: seq<Job>, project: string, job: Job)
    requires DistinctIds(jobs) && job in jobs && Candidate(job, project)
    ensures LatestOf(jobs, project).Some? && NoLater(job, LatestOf(jobs, project).value)
  {
    hide Newer, NoLater;
    LatestIsBest(jobs, project);
    var latest := LatestOf(jobs, project).value;
    if job == latest {
      NoLaterThanItself(job);
    } else {
      NewerIsLater(latest, job);
    }
  }

  lemma NoLaterThanItself(job: Job)
    requires job.completedAt.Some?
    ensures NoLater(job, job)
  {
  }

  /** A revision committed later than all others of its project is the one in the snapshot. */
  lemma LastCommittedIsCurrent(jobs: seq<Job>, r: seq<Job>, job: Job, project: string)
    requires DistinctIds(jobs) && IsSnapshot(jobs, r) && job in jobs && IsL3Result(job, project)
    requires forall other :: other in jobs && other != job && IsL3Result(other, project) ==> EffectiveTime(other) < EffectiveTime(job)
    ensures job in r
  {
    hide Qualifies, Newer, IsL3Result, IsSnapshot, NoLater;
    SnapshotIsLatest(jobs, r);
    assert HasNoEarlier(r, project, job);
    var i :| 0 <= i < |r| && r[i].project == Some(project) && NoLater(job, r[i]);
    assert r[i] in jobs && IsL3Result(r[i], project);
    NoLaterInTime(job, r[i]);
  }

  lemma NoLaterInTime(a: Job, b: Job)
    requires NoLater(a, b)
    ensures a.completedAt.Some? && b.completedAt.Some? && EffectiveTime(a) <= EffectiveTime(b)
  {
  }

  /** latestCompletedL3ByProject: the map filled by one pass over the jobs, then sorted by project. */
  method LatestCompletedL3ByProject(jobs: seq<Job>) returns (r: seq<Job>)
    ensures IsSnapshot(jobs, r)
    ensures DistinctIds(jobs) ==> AreLatest(jobs, r)
  {
    hide Qualifies, Newer, AreLatest;
    var latest: map<string, Job> := map[];
    var order: seq<string> := [];
    for i := 0 to |jobs|
      invariant Sorting.Distinct(order) && (forall p :: p in order <==> p in latest)
      invariant forall p :: p in latest <==> LatestOf(jobs[..i], p).Some?
      invariant forall p :: p in latest ==> LatestOf(jobs[..i], p) == Some(latest[p])
    {
      var job := jobs[i];
      assert jobs[..i + 1][..i] == jobs[..i];
      QualifiesHasProject(job);
      if Qualifies(job) {
        var project := job.project.value;
        if project !in latest || Newer(job, latest[project]) {
          if project !in latest {
            order := order + [project];
          }
          latest := latest[project := job];
        }
      }
    }
    assert jobs[..|jobs|] == jobs;
    var values := seq(|order|, i requires 0 <= i < |order| && order[i] in latest => latest[order[i]]);
    ValuesByProject(jobs, latest, order, values);
    r := Sorting.Sort(ByProject, values);
    if DistinctIds(jobs) { SnapshotIsLatest(jobs, r); }
  }

  lemma QualifiesHasProject(job: Job)
    ensures Qualifies(job) ==> job.project.Some?
  {
  }

  lemma ProjectsOrdered(values: seq<Job>)
    requires forall i :: 0 <= i < |values| ==> values[i].project.Some?
    requires forall i, j :: 0 <= i < j < |values| ==> values[i].project != values[j].project
    ensures Sorting.Orders(ByProject, values) && Sorting.Distinct(values)
  {
    forall a | a in values
      ensures !ByProject(a, a)
    {
      Sorting.LessIrreflexive(a.project.value);
    }
    forall a, b, c | a in values && b in values && c in values && ByProject(a, b) && ByProject(b, c)
      ensures ByProject(a, c)
    {
      Sorting.LessTransitive(a.project.value, b.project.value, c.project.value);
    }
    forall a, b | a in values && b in values
      ensures a == b || ByProject(a, b) || ByProject(b, a)
    {
      Sorting.LessTotal(a.project.value, b.project.value);
    }
  }

  lemma ValuesByProject(jobs: seq<Job>, latest: map<string, Job>, order: seq<string>, values: seq<Job>)
    requires Sorting.Distinct(order) && (forall p :: p in order <==> p in latest)
    requires forall p :: p in latest <==> LatestOf(jobs, p).Some?
    requires forall p :: p in latest ==> LatestOf(jobs, p) == Some(latest[p])
    requires |values| == |order| && forall i :: 0 <= i < |order| ==> values[i] == latest[order[i]]
    ensures IsSnapshot(jobs, Sorting.Sort(ByProject, values))
  {
    hide LatestOf, ByProject, Candidate;
    forall i | 0 <= i < |values|
      ensures values[i].project == Some(order[i])
    {
      assert order[i] in order;
      LatestHasProject(jobs, order[i]);
    }
    ValuesSorted(order, values);
    var r := Sorting.Sort(ByProject, values);
    forall job
      ensures job in r <==> job.project.Some? && LatestOf(jobs, job.project.value) == Some(job)
    {
      Sorting.InMultiset(r, job);
      Sorting.InMultiset(values, job);
      ValueOf(jobs, latest, order, values, job);
    }
  }

  lemma LatestHasProject(jobs: seq<Job>, project: string)
    ensures LatestOf(jobs, project).Some? ==> LatestOf(jobs, project).value.project == Some(project)
  {
  }

  lemma ValuesSorted(order: seq<string>, values: seq<Job>)
    requires Sorting.Distinct(order)
    requires |values| == |order| && forall i :: 0 <= i < |order| ==> values[i].project == Some(order[i])
    ensures Sorting.Sorted(ByProject, Sorting.Sort(ByProject, values))
  {
    hide ByProject;
    ProjectsOrdered(values);
    Sorting.SortSorted(ByProject, values);
  }

  lemma ValueOf(jobs: seq<Job>, latest: map<string, Job>, order: seq<string>, values: seq<Job>, job: Job)
    requires forall p :: p in order <==> p in latest
    requires forall p :: p in latest <==> LatestOf(jobs, p).Some?
    requires forall p :: p in latest ==> LatestOf(jobs, p) == Some(latest[p])
    requires |values| == |order| && forall i :: 0 <= i < |order| ==> values[i] == latest[order[i]] && values[i].project == Some(order[i])
    ensures job in values <==> job.project.Some? && LatestOf(jobs, job.project.value) == Some(job)
  {
    hide Candidate, LatestOf;
    if job in values {
      var i :| 0 <= i < |values| && values[i] == job;
      assert order[i] in order;
    }
    if job.project.Some? && LatestOf(jobs, job.project.value) == Some(job) {
      var i :| 0 <= i < |order| && order[i] == job.project.value;
      assert values[i] == job;
    }
  }

  /** The snapshot does not depend on the order the jobs are listed in. */
  lemma SnapshotForgetsOrder(a: seq<Job>, b: seq<Job>, ra: seq<Job>, rb: seq<Job>)
    requires DistinctIds(a) && DistinctIds(b) && (forall job :: job in a <==> job in b)
    requires IsSnapshot(a, ra) && IsSnapshot(b, rb)
    ensures ra == rb
  {
    hide Qualifies, Newer;
    forall job
      ensures job in ra <==> job in rb
    {
      if job.project.Some? {
        LatestIsMaximum(a, job.project.value, job);
        LatestIsMaximum(b, job.project.value, job);
        SameMaximum(a, b, job.project.value, job);
      }
    }
    SnapshotOrdered(a, ra);
    SnapshotOrdered(b, rb);
    Sorting.SameElements(ra, rb);
    Sorting.OrdersAsymmetric(ByProject, ra);
    Sorting.SortedUnique(ByProject, ra, rb);
  }

  lemma SameMaximum(a: seq<Job>, b: seq<Job>, project: string, job: Job)
    requires forall other :: other in a <==> other in b
    ensures IsMaximum(a, project, job) <==> IsMaximum(b, project, job)
  {
  }

  lemma SnapshotOrdered(jobs: seq<Job>, r: seq<Job>)
    requires IsSnapshot(jobs, r)
    ensures Sorting.Orders(ByProject, r) && Sorting.Distinct(r)
    ensures forall i, j :: 0 <= i < j < |r| ==> r[i].project != r[j].project
    ensures forall i :: 0 <= i < |r| ==> Qualifies(r[i]) && r[i].project.Some?
  {
    hide Newer;
    forall i | 0 <= i < |r|
      ensures Qualifies(r[i]) && r[i].project.Some?
    {
      assert r[i] in r;
      assert Candidate(r[i], r[i].project.value);
    }
    forall i, j | 0 <= i < j < |r|
      ensures r[i].project != r[j].project
    {
      assert ByProject(r[i], r[j]);
      Sorting.LessIrreflexive(r[i].project.value);
    }
    ProjectsOrdered(r);
  }

  // ---------------------------------------------------------------------------------------
  // L4 evidence

  function L3Item(job: Job, timestamp: Stamp): Evidence
    requires Qualifies(job)
  {
    Evidence(RevisionRef("l3", job.resultId.value, job.id), Artifact, timestamp, job.project, Some(L3),
             "Project Rules & Experience · " + job.project.value, job.resultContent.value)
  }

  /** What the reconciliation takes as the time of a result. */
  function ReconcileItem(job: Job): Evidence
    requires Qualifies(job)
  {
    L3Item(job, ResultStamp(job).value)
  }

  /** What the submit path takes: the commit time even if it is not a valid date. */
  function SubmitItem(job: Job): Evidence
    requires Qualifies(job)
  {
    L3Item(job, if job.resultCommittedAt.Some? then job.resultCommittedAt.value else job.completedAt.value)
  }

  function ReconcileEvidence(snapshot: seq<Job>): (r: seq<Evidence>)
    requires forall i :: 0 <= i < |snapshot| ==> Qualifies(snapshot[i])
    ensures |r| == |snapshot| && forall i :: 0 <= i < |r| ==> r[i] == ReconcileItem(snapshot[i])
  {
    seq(|snapshot|, i requires 0 <= i < |snapshot| => ReconcileItem(snapshot[i]))
  }

  function SubmitEvidence(snapshot: seq<Job>): (r: seq<Evidence>)
    requires forall i :: 0 <= i < |snapshot| ==> Qualifies(snapshot[i])
    ensures |r| == |snapshot| && forall i :: 0 <= i < |r| ==> r[i] == SubmitItem(snapshot[i])
  {
    seq(|snapshot|, i requires 0 <= i < |snapshot| => SubmitItem(snapshot[i]))
  }

  /** What an item of L4 evidence says: the revision by memory and job, its project and body, and when it became effective. */
  lemma L4EvidenceSays(snapshot: seq<Job>, i: nat)
    requires (forall k :: 0 <= k < |snapshot| ==> Qualifies(snapshot[k])) && i < |snapshot|
    ensures var item, job := ReconcileEvidence(snapshot)[i], snapshot[i];
      && item.ref == "l3:" + job.resultId.value + ":" + IdText(job.id) && item.kind == Artifact && item.layer == Some(L3)
      && item.project == job.project && Some(item.content) == job.resultContent
      && item.timestamp.valid && item.timestamp.at == EffectiveTime(job)
  {
    var job := snapshot[i];
    assert "l3" + ":" + job.resultId.value + ":" + IdText(job.id) == "l3:" + job.resultId.value + ":" + IdText(job.id);
  }

  /**
   The two paths build the same evidence from a snapshot exactly if no revision in it has a commit
   time that is present but not a valid date.
   */
  lemma PathsAgreeIffTimesValid(snapshot: seq<Job>)
    requires forall i :: 0 <= i < |snapshot| ==> Qualifies(snapshot[i])
    ensures ReconcileEvidence(snapshot) == SubmitEvidence(snapshot) <==>
      forall i :: 0 <= i < |snapshot| && snapshot[i].resultCommittedAt.Some? ==> snapshot[i].resultCommittedAt.value.valid
  {
    forall i | 0 <= i < |snapshot|
      ensures ReconcileItem(snapshot[i]) == SubmitItem(snapshot[i]) <==>
        (snapshot[i].resultCommittedAt.Some? ==> snapshot[i].resultCommittedAt.value.valid)
    {
    }
    if ReconcileEvidence(snapshot) == SubmitEvidence(snapshot) {
      forall i | 0 <= i < |snapshot|
        ensures ReconcileItem(snapshot[i]) == SubmitItem(snapshot[i])
      {
        assert ReconcileEvidence(snapshot)[i] == SubmitEvidence(snapshot)[i];
      }
    }
  }

  /** The evidence of a snapshot has no reference twice. */
  lemma SnapshotEvidenceDistinct(jobs: seq<Job>, r: seq<Job>)
    requires IsSnapshot(jobs, r)
    ensures forall i :: 0 <= i < |r| ==> Qualifies(r[i])
    ensures Enqueueing.DistinctRefs(ReconcileEvidence(r)) || !DistinctIds(r)
    ensures DistinctIds(r) ==> Enqueueing.DistinctRefs(SubmitEvidence(r))
  {
    hide Qualifies;
    SnapshotOrdered(jobs, r);
    if DistinctIds(r) {
      forall i, j | 0 <= i < j < |r|
        ensures ReconcileItem(r[i]).ref != ReconcileItem(r[j]).ref && SubmitItem(r[i]).ref != SubmitItem(r[j]).ref
      {
        DistinctItems(r[i], r[j]);
      }
    }
  }

  lemma DistinctItems(a: Job, b: Job)
    requires Qualifies(a) && Qualifies(b) && a.id != b.id
    ensures ReconcileItem(a).ref != ReconcileItem(b).ref && SubmitItem(a).ref != SubmitItem(b).ref
  {
    if ReconcileItem(a).ref == ReconcileItem(b).ref {
      RevisionRefNamesJob("l3", a.resultId.value, a.id, b.resultId.value, b.id);
    }
  }

  // ---------------------------------------------------------------------------------------
  // One L4 job for one snapshot

  predicate TimesValid(snapshot: seq<Job>) {
    forall i :: 0 <= i < |snapshot| && snapshot[i].resultCommittedAt.Some? ==> snapshot[i].resultCommittedAt.value.valid
  }

  /**
   Submit and reconciliation that see the same revisions, with valid times and in whatever order
   of listing, never queue two L4 jobs for them, whatever happens to the store in between.
   */
  lemma {:induction false} SameRevisionsOneL4Job(s: State, account: string, a: seq<Job>, b: seq<Job>, ra: seq<Job>, rb: seq<Job>,
                                                 ops: seq<Op>, now: int, later: int)
    requires Reachable(s) && DistinctIds(a) && DistinctIds(b) && (forall job :: job in a <==> job in b)
    requires IsSnapshot(a, ra) && IsSnapshot(b, rb) && TimesValid(ra)
    ensures (forall i :: 0 <= i < |ra| ==> Qualifies(ra[i])) && forall i :: 0 <= i < |rb| ==> Qualifies(rb[i])
    ensures var submitted := Replay(Apply(s, Enqueue(account, L4, None, SubmitEvidence(ra), now)), ops);
      Apply(submitted, Enqueue(account, L4, None, ReconcileEvidence(rb), later)) == submitted
    ensures var reconciled := Replay(Apply(s, Enqueue(account, L4, None, ReconcileEvidence(ra), now)), ops);
      Apply(reconciled, Enqueue(account, L4, None, SubmitEvidence(rb), later)) == reconciled
  {
    hide Qualifies, Apply, Replay, Reachable;
    SnapshotForgetsOrder(a, b, ra, rb);
    SnapshotOrdered(a, ra);
    SnapshotIds(a, ra);
    SnapshotEvidenceDistinct(a, ra);
    PathsAgreeIffTimesValid(ra);
    var items := ReconcileEvidence(ra);
    Enqueueing.QueuedOnceForGood(s, account, L4, None, ops, items, items, now, later);
  }

  lemma SnapshotIds(jobs: seq<Job>, r: seq<Job>)
    requires DistinctIds(jobs) && IsSnapshot(jobs, r)
    ensures DistinctIds(r)
  {
    hide Newer, Qualifies;
    SnapshotOrdered(jobs, r);
    forall i, j | 0 <= i < j < |r|
      ensures r[i].id != r[j].id
    {
      SnapshotMember(jobs, r, i);
      SnapshotMember(jobs, r, j);
      assert r[i].project != r[j].project;
      var k :| 0 <= k < |jobs| && jobs[k] == r[i];
      var l :| 0 <= l < |jobs| && jobs[l] == r[j];
      assert k != l;
    }
  }

  lemma SnapshotMember(jobs: seq<Job>, r: seq<Job>, i: nat)
    requires DistinctIds(jobs) && IsSnapshot(jobs, r) && i < |r|
    ensures r[i] in jobs
  {
    assert r[i] in r;
    LatestIsMaximum(jobs, r[i].project.value, r[i]);
  }

  lemma SameCanonicalSameItems(a: seq<Evidence>, b: seq<Evidence>)
    requires Enqueueing.DistinctRefs(a) && Enqueueing.DistinctRefs(b) && Canonical(a) == Canonical(b)
    ensures forall x :: x in a <==> x in b
  {
    Enqueueing.DistinctRefsStay(a);
    Enqueueing.DistinctRefsStay(b);
    forall x
      ensures x in a <==> x in b
    {
      Sorting.InMultiset(a, x);
      Sorting.InMultiset(b, x);
    }
  }

  /** A revision's item differs between the paths: then the two evidence lists have no common item for it. */
  lemma DifferentItems(snapshot: seq<Job>, i: nat)
    requires DistinctIds(snapshot) && (forall k :: 0 <= k < |snapshot| ==> Qualifies(snapshot[k]))
    requires i < |snapshot| && SubmitItem(snapshot[i]) != ReconcileItem(snapshot[i])
    ensures SubmitItem(snapshot[i]) !in ReconcileEvidence(snapshot)
  {
    hide Qualifies, SubmitItem, ReconcileItem;
    var items := ReconcileEvidence(snapshot);
    forall k | 0 <= k < |items|
      ensures items[k] != SubmitItem(snapshot[i])
    {
      if k != i {
        OtherRef(snapshot[i], snapshot[k]);
      }
    }
  }

  lemma OtherRef(a: Job, b: Job)
    requires Qualifies(a) && Qualifies(b) && a.id != b.id
    ensures SubmitItem(a).ref != ReconcileItem(b).ref
  {
    if SubmitItem(a).ref == ReconcileItem(b).ref {
      RevisionRefNamesJob("l3", a.resultId.value, a.id, b.resultId.value, b.id);
    }
  }

  /** With an invalid time the two paths' batches differ, and so do their hashes. */
  lemma OtherCanonical(r: seq<Job>)
    requires DistinctIds(r) && (forall i :: 0 <= i < |r| ==> Qualifies(r[i])) && !TimesValid(r)
    requires Enqueueing.DistinctRefs(SubmitEvidence(r)) && Enqueueing.DistinctRefs(ReconcileEvidence(r))
    ensures Canonical(SubmitEvidence(r)) != Canonical(ReconcileEvidence(r))
  {
    hide Qualifies, ResultStamp, SubmitItem, ReconcileItem, Canonical;
    var i :| 0 <= i < |r| && r[i].resultCommittedAt.Some? && !r[i].resultCommittedAt.value.valid;
    ItemsDiffer(r[i]);
    DifferentItems(r, i);
    assert SubmitEvidence(r)[i] == SubmitItem(r[i]);
    if Canonical(SubmitEvidence(r)) == Canonical(ReconcileEvidence(r)) {
      SameCanonicalSameItems(SubmitEvidence(r), ReconcileEvidence(r));
    }
  }

  lemma ItemsDiffer(job: Job)
    requires Qualifies(job) && job.resultCommittedAt.Some? && !job.resultCommittedAt.value.valid
    ensures SubmitItem(job) != ReconcileItem(job)
  {
  }

  lemma RefsHaveText(r: seq<Job>)
    requires forall i :: 0 <= i < |r| ==> Qualifies(r[i])
    ensures AllRefsText(SubmitEvidence(r)) && AllRefsText(ReconcileEvidence(r))
  {
    hide Qualifies;
    forall i | 0 <= i < |r|
      ensures !Blank(SubmitItem(r[i]).ref) && !Blank(ReconcileItem(r[i]).ref)
    {
      assert SubmitItem(r[i]).ref[0] == 'l';
    }
  }

  // ---------------------------------------------------------------------------------------
  // A store in which it happens

  /** A worker's lease of a pending L3 job and what it becomes when its Core write is recorded. */
  function LeaseOfL3(account: string, now: int): Op {
    Lease(LeaseRequest(account, None, Some(L3), "worker", 60, true, now))
  }

  function CompletionOf(account: string, id: JobId, token: Token, memory: string, body: string, committedAt: Stamp, now: int): Op {
    OnJob(account, id, CompleteAfterCommit(Credential("worker", Some(token)), Of(L3), memory, body, committedAt, None, now))
  }

  function DoneL3(id: JobId, account: string, project: string, item: Evidence, memory: string, body: string, committedAt: Stamp, now: int): Job {
    NewJob(id, account, L3, Some(project), [item], now).(
      status := Completed, attempts := 1, completedAt := Some(Stamp(now, true)), resultKind := Some(Of(L3)),
      resultId := Some(memory), resultContent := Some(body), resultCommittedAt := Some(committedAt))
  }

  function QueuedL3(id: JobId, account: string, project: string, item: Evidence, now: int): Job {
    NewJob(id, account, L3, Some(project), [item], now)
  }

  function LeasedL3(id: JobId, account: string, project: string, item: Evidence, now: int): Job {
    QueuedL3(id, account, project, item, now).(
      status := Leased, attempts := 1, leasedBy := Some("worker"), leaseToken := Some(id + 1), leasedUntil := Some(now + 60000))
  }

  lemma Queued(s: State, first: Job, account: string, project: string, item: Evidence, now: int)
    requires s.jobs == [first] && !Clashes(first, account, L3, Some(project), [item])
    requires AllRefsText([item]) && Canonical([item]) == [item]
    ensures Apply(s, Enqueue(account, L3, Some(project), [item], now)) ==
      s.(jobs := [first, QueuedL3(s.next, account, project, item, now)], next := s.next + 1, enqueued := s.enqueued + {s.next})
  {
    hide Canonical, AllRefsText, Clashes;
    var found := Find(s.jobs, (job: Job) => Clashes(job, account, L3, Some(project), [item]));
  }

  lemma LeasedNext(s: State, first: Job, id: JobId, account: string, project: string, item: Evidence, now: int)
    requires s.jobs == [first, QueuedL3(id, account, project, item, now)] && s.next == id + 1
    requires first.status == Completed && s.issued == map[]
    ensures Apply(s, LeaseOfL3(account, now)) ==
      s.(jobs := [first, LeasedL3(id, account, project, item, now)], next := id + 2,
         issued := map[id := [Credential("worker", Some(id + 1))]])
  {
    var r := LeaseOfL3(account, now).request;
    var found := Find(s.jobs, (job: Job) => Leasable(job, r));
    assert !Leasable(first, r) && Leasable(s.jobs[1], r);
    assert found == Some(1);
    assert s.jobs[1 := LeasedL3(id, account, project, item, now)] == [first, LeasedL3(id, account, project, item, now)];
    assert IssuedTo(s, id) + [Credential("worker", Some(id + 1))] == [Credential("worker", Some(id + 1))];
  }

  lemma CompletedNext(s: State, first: Job, id: JobId, account: string, project: string, item: Evidence,
                      memory: string, body: string, committedAt: Stamp, now: int)
    requires s.jobs == [first, LeasedL3(id, account, project, item, now)] && first.id != id
    ensures Apply(s, CompletionOf(account, id, id + 1, memory, body, committedAt, now)) ==
      s.(jobs := [first, DoneL3(id, account, project, item, memory, body, committedAt, now)])
  {
    var done := DoneL3(id, account, project, item, memory, body, committedAt, now);
    var work := CompletionOf(account, id, id + 1, memory, body, committedAt, now).work;
    var found := Find(s.jobs, (job: Job) => job.id == id && job.account == account);
    assert s.jobs[1].id == id && s.jobs[1].account == account;
    assert found == Some(1);
    assert Worked(s.jobs[1], work) == Some(done);
    assert s.jobs[1 := done] == [first, done];
  }

  function ThreeSteps(account: string, project: string, item: Evidence, id: JobId,
                      memory: string, body: string, committedAt: Stamp, now: int): seq<Op> {
    [Enqueue(account, L3, Some(project), [item], now), LeaseOfL3(account, now),
     CompletionOf(account, id, id + 1, memory, body, committedAt, now)]
  }

  /** The queue, a worker and its Core write turn one item into a completed L3 result. */
  lemma QueuedAndCompleted(s: State, first: Job, account: string, project: string, item: Evidence,
                           memory: string, body: string, committedAt: Stamp, now: int)
    requires s.jobs == [first] && first.status == Completed && s.issued == map[]
    requires first.id != s.next && !Clashes(first, account, L3, Some(project), [item])
    requires AllRefsText([item]) && Canonical([item]) == [item]
    ensures Replay(s, ThreeSteps(account, project, item, s.next, memory, body, committedAt, now)) ==
      s.(jobs := [first, DoneL3(s.next, account, project, item, memory, body, committedAt, now)], next := s.next + 2,
         issued := map[s.next := [Credential("worker", Some(s.next + 1))]], enqueued := s.enqueued + {s.next})
  {
    hide Canonical, AllRefsText, Clashes, Replay, Apply, QueuedL3, LeasedL3, DoneL3;
    var n := s.next;
    var enqueue, lease := Enqueue(account, L3, Some(project), [item], now), LeaseOfL3(account, now);
    var complete := CompletionOf(account, n, n + 1, memory, body, committedAt, now);
    Queued(s, first, account, project, item, now);
    var s1 := Apply(s, enqueue);
    LeasedNext(s1, first, n, account, project, item, now);
    var s2 := Apply(s1, lease);
    CompletedNext(s2, first, n, account, project, item, memory, body, committedAt, now);
    ReplayThree(s, enqueue, lease, complete);
  }

  lemma ReplayThree(s: State, a: Op, b: Op, c: Op)
    ensures Replay(s, [a, b, c]) == Apply(Apply(Apply(s, a), b), c)
  {
    hide Apply;
    assert [a, b, c][1..] == [b, c] && [b, c][1..] == [c] && [c][1..] == [];
    assert Replay(s, [a, b, c]) == Replay(Apply(s, a), [b, c]);
    assert Replay(Apply(s, a), [b, c]) == Replay(Apply(Apply(s, a), b), [c]);
  }

  lemma RecordedFirst(op: Op)
    requires op.Record? && RecordAllowed(op.target, op.project, op.items, op.memory, op.body)
    ensures Apply(EMPTY, op) ==
      EMPTY.(jobs := [RevisionJob(0, op.account, op.target, op.project, Canonical(op.items), Trim(op.memory), Trim(op.body),
                                  op.committedAt, op.commit, op.coreBody)], next := 1)
  {
    hide Canonical, AllRefsText, RecordAllowed, RevisionJob, Trim;
    assert EMPTY.jobs + [] == [];
  }

  lemma OneItem(item: Evidence)
    ensures Canonical([item]) == [item]
  {
    Enqueueing.DistinctRefsStay([item]);
  }

  lemma {:induction false} NothingToTrim(s: string)
    requires |s| > 0 && !BlankChar(s[0]) && !BlankChar(s[|s| - 1])
    ensures Trim(s) == s
  {
  }

  const EVIDENCE := Evidence("l2:k:9", Artifact, Stamp(0, true), None, Some(L2), "Timeline", "what happened")

  /** A direct result of one project and a queued one of another, whose recorded commit time is not a date. */
  const DIRECT: Op := Record("account", L3, Some("q"), [EVIDENCE], "n", "rules of q", 1, None, None)
  const LATE := RevisionJob(0, "account", L3, Some("q"), [EVIDENCE], "n", "rules of q", 1, None, None)
  const EARLY := DoneL3(1, "account", "p", EVIDENCE, "m", "rules of p", Stamp(0, false), 2)

  function UndatedOps(): seq<Op> {
    [DIRECT] + ThreeSteps("account", "p", EVIDENCE, 1, "m", "rules of p", Stamp(0, false), 2)
  }

  lemma UndatedStore()
    ensures Replay(EMPTY, UndatedOps()).jobs == [LATE, EARLY]
  {
    hide Replay, Canonical, ThreeSteps;
    assert "l2:k:9"[0] == 'l';
    assert "n"[0] == 'n' && "rules of q"[0] == 'r' && "rules of q"[9] == 'q';
    NothingToTrim("n");
    NothingToTrim("rules of q");
    OneItem(EVIDENCE);
    RecordedFirst(DIRECT);
    var s := Apply(EMPTY, DIRECT);
    assert "q"[0] != "p"[0];
    QueuedAndCompleted(s, LATE, "account", "p", EVIDENCE, "m", "rules of p", Stamp(0, false), 2);
    ReplayFirst(EMPTY, DIRECT, ThreeSteps("account", "p", EVIDENCE, 1, "m", "rules of p", Stamp(0, false), 2));
  }

  lemma ReplayFirst(s: State, op: Op, ops: seq<Op>)
    ensures Replay(s, [op] + ops) == Replay(Apply(s, op), ops)
  {
    hide Apply;
    assert ([op] + ops)[1..] == ops;
  }

  lemma EarlyAndLateQualify()
    ensures Qualifies(EARLY) && Qualifies(LATE)
  {
    assert "m"[0] == 'm' && "n"[0] == 'n' && "rules of p"[0] == 'r' && "rules of q"[0] == 'r';
  }

  lemma BothListed()
    ensures Listed([LATE, EARLY], "account") == [LATE, EARLY]
  {
    assert [LATE, EARLY][1..] == [EARLY];
    assert Listed([EARLY], "account") == [EARLY];
  }

  lemma PairIds()
    ensures DistinctIds([EARLY, LATE]) && DistinctIds([LATE, EARLY])
  {
  }

  lemma PairSnapshot()
    ensures IsSnapshot([LATE, EARLY], [EARLY, LATE])
    ensures IsSnapshot([EARLY, LATE], [EARLY, LATE])
  {
    hide Qualifies;
    EarlyAndLateQualify();
    PairIds();
    assert "p"[0] == 'p' && "q"[0] == 'q';
    assert "p" != "q";
    assert ByProject(EARLY, LATE);
    var pair := [EARLY, LATE];
    var listed := [LATE, EARLY];
    forall job
      ensures job in pair <==> job.project.Some? && LatestOf(pair, job.project.value) == Some(job)
      ensures job in pair <==> job.project.Some? && LatestOf(listed, job.project.value) == Some(job)
    {
      if job.project.Some? {
        LatestIsMaximum(pair, job.project.value, job);
        LatestIsMaximum(listed, job.project.value, job);
      }
    }
  }
}
