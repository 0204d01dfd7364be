/**
 What enqueueJob guarantees over all runs of the job ledger: batches of one project do not share
 a turn, no batch is queued twice, and the order evidence arrives in does not matter.
 */
module Enqueueing {
  import opened Common
  import opened JobLedger
  import LeaseFencing
  import Sorting

  // ---------------------------------------------------------------------------------------
  // The canonical list

  lemma {:induction false} LastByRefKeeps(items: seq<Evidence>)
    ensures forall x :: x in LastByRef(items) ==> x in items
    ensures forall ref :: HasRef(LastByRef(items), ref) <==> HasRef(items, ref)
  {
    if |items| > 0 {
      LastByRefKeeps(items[1..]);
      var rest := LastByRef(items[1..]);
      forall ref
        ensures HasRef(LastByRef(items), ref) <==> HasRef(items, ref)
      {
        HasRefCons(items[0], items[1..], ref);
        HasRefCons(items[0], rest, ref);
        assert items == [items[0]] + items[1..];
      }
    }
  }

  lemma HasRefCons(item: Evidence, rest: seq<Evidence>, ref: string)
    ensures HasRef([item] + rest, ref) <==> item.ref == ref || HasRef(rest, ref)
  {
    if HasRef(rest, ref) {
      var i :| 0 <= i < |rest| && rest[i].ref == ref;
      assert ([item] + rest)[i + 1].ref == ref;
    }
    if item.ref == ref {
      assert ([item] + rest)[0].ref == ref;
    }
  }

  ghost predicate DistinctRefs(items: seq<Evidence>) {
    forall i, j :: 0 <= i < j < |items| ==> items[i].ref != items[j].ref
  }

  lemma {:induction false} LastByRefDistinct(items: seq<Evidence>)
    ensures DistinctRefs(LastByRef(items))
  {
    if |items| > 0 {
      LastByRefDistinct(items[1..]);
      LastByRefKeeps(items[1..]);
    }
  }

  lemma {:induction false} DistinctRefsStay(items: seq<Evidence>)
    requires DistinctRefs(items)
    ensures LastByRef(items) == items
  {
    if |items| > 0 {
      DistinctRefsStay(items[1..]);
      assert items == [items[0]] + items[1..];
    }
  }

  lemma BeforeIsTransitive(a: Evidence, b: Evidence, c: Evidence)
    requires Before(a, b) && Before(b, c)
    ensures Before(a, c)
  {
    if a.timestamp.at == b.timestamp.at == c.timestamp.at {
      Sorting.LessTransitive(a.ref, b.ref, c.ref);
    }
  }

  lemma BeforeIsTotal(a: Evidence, b: Evidence)
    requires a.ref != b.ref
    ensures Before(a, b) != Before(b, a)
  {
    Sorting.LessTotal(a.ref, b.ref);
    if a.timestamp.at == b.timestamp.at && Sorting.Less(a.ref, b.ref) && Sorting.Less(b.ref, a.ref) {
      Sorting.LessTransitive(a.ref, b.ref, a.ref);
      Sorting.LessIrreflexive(a.ref);
    }
  }

  /** Evidence of distinct references is strictly ordered: the reference breaks every tie. */
  lemma BeforeOrders(items: seq<Evidence>)
    requires DistinctRefs(items)
    ensures Sorting.Orders(Before, items) && Sorting.Distinct(items)
  {
    forall a | a in items
      ensures !Before(a, a)
    {
      Sorting.LessIrreflexive(a.ref);
    }
    forall a, b, c | a in items && b in items && c in items && Before(a, b) && Before(b, c)
      ensures Before(a, c)
    {
      BeforeIsTransitive(a, b, c);
    }
    forall a, b | a in items && b in items
      ensures a == b || Before(a, b) || Before(b, a)
    {
      if a != b {
        var i :| 0 <= i < |items| && items[i] == a;
        var j :| 0 <= j < |items| && items[j] == b;
        BeforeIsTotal(a, b);
      }
    }
  }

  /** The canonical list is strictly ordered, has each reference once, and adds nothing. */
  lemma CanonicalList(items: seq<Evidence>)
    ensures Sorting.Sorted(Before, Canonical(items)) && DistinctRefs(Canonical(items))
    ensures forall x :: x in Canonical(items) ==> x in items
    ensures forall ref :: HasRef(Canonical(items), ref) <==> HasRef(items, ref)
  {
    var last := LastByRef(items);
    LastByRefKeeps(items);
    LastByRefDistinct(items);
    BeforeOrders(last);
    Sorting.SortSorted(Before, last);
    forall x
      ensures x in Canonical(items) <==> x in last
    {
      Sorting.InMultiset(last, x);
      Sorting.InMultiset(Canonical(items), x);
    }
    SortedByRef(Canonical(items), last);
    forall ref
      ensures HasRef(Canonical(items), ref) <==> HasRef(items, ref)
    {
      HasRefByElement(Canonical(items), ref);
      HasRefByElement(last, ref);
    }
  }

  lemma HasRefByElement(items: seq<Evidence>, ref: string)
    ensures HasRef(items, ref) <==> exists x :: x in items && x.ref == ref
  {
    if HasRef(items, ref) {
      var i :| 0 <= i < |items| && items[i].ref == ref;
      assert items[i] in items;
    }
  }

  lemma SortedByRef(sorted: seq<Evidence>, items: seq<Evidence>)
    requires Sorting.Sorted(Before, sorted) && DistinctRefs(items)
    requires forall x :: x in sorted ==> x in items
    ensures DistinctRefs(sorted)
  {
    forall i, j | 0 <= i < j < |sorted|
      ensures sorted[i].ref != sorted[j].ref
    {
      assert sorted[i] in items && sorted[j] in items;
      var k :| 0 <= k < |items| && items[k] == sorted[i];
      var l :| 0 <= l < |items| && items[l] == sorted[j];
      assert Before(sorted[i], sorted[j]);
      Sorting.LessIrreflexive(sorted[i].ref);
    }
  }

  /** Any permutation of duplicate-free evidence has the same canonical list, and so the same hash. */
  lemma PermutationsAgree(a: seq<Evidence>, b: seq<Evidence>)
    requires DistinctRefs(a) && DistinctRefs(b) && multiset(a) == multiset(b)
    ensures Canonical(a) == Canonical(b)
  {
    DistinctRefsStay(a);
    DistinctRefsStay(b);
    BeforeOrders(a);
    BeforeOrders(b);
    Sorting.SortForgetsOrder(Before, a, b);
  }

  /** uniqueEvidence as the source has it: a map filled by reference, then sorted. */
  method UniqueEvidence(items: seq<Evidence>) returns (r: Option<seq<Evidence>>)
    ensures r.Some? <==> AllRefsText(items)
    ensures r.Some? ==> r.value == Canonical(items)
  {
    var byRef: map<string, Evidence> := map[];
    var order: seq<string> := [];
    for i := 0 to |items|
      invariant AllRefsText(items[..i])
      invariant Sorting.Distinct(order) && (forall ref :: ref in order <==> ref in byRef)
      invariant forall ref :: ref in byRef ==> byRef[ref].ref == ref
      invariant forall ref :: ref in byRef <==> HasRef(items[..i], ref)
      invariant forall ref :: ref in byRef ==> LastOf(items[..i], byRef[ref])
    {
      if Blank(items[i].ref) {
        assert !AllRefsText(items);
        return None;
      }
      var item := items[i];
      assert items[..i + 1] == items[..i] + [item];
      Appended(items[..i], item);
      if item.ref !in byRef {
        order := order + [item.ref];
      }
      byRef := byRef[item.ref := item];
    }
    assert items[..|items|] == items;
    var values := seq(|order|, i requires 0 <= i < |order| && order[i] in byRef => byRef[order[i]]);
    SameValues(items, values, byRef, order);
    return Some(Sorting.Sort(Before, values));
  }

  /** `x` is the last item with its reference. */
  ghost predicate LastOf(items: seq<Evidence>, x: Evidence) {
    exists i :: 0 <= i < |items| && items[i] == x && forall j :: i < j < |items| ==> items[j].ref != x.ref
  }

  lemma Appended(items: seq<Evidence>, item: Evidence)
    ensures forall ref :: HasRef(items + [item], ref) <==> HasRef(items, ref) || ref == item.ref
    ensures LastOf(items + [item], item)
    ensures forall x :: LastOf(items, x) && x.ref != item.ref ==> LastOf(items + [item], x)
  {
    var all := items + [item];
    assert all[|items|] == item;
    forall ref
      ensures HasRef(all, ref) <==> HasRef(items, ref) || ref == item.ref
    {
      if HasRef(items, ref) {
        var i :| 0 <= i < |items| && items[i].ref == ref;
        assert all[i].ref == ref;
      }
    }
    forall x | LastOf(items, x) && x.ref != item.ref
      ensures LastOf(all, x)
    {
      var i :| 0 <= i < |items| && items[i] == x && forall j :: i < j < |items| ==> items[j].ref != x.ref;
      assert all[i] == x;
    }
  }

  lemma {:induction false} LastByRefIsLast(items: seq<Evidence>, x: Evidence)
    ensures x in LastByRef(items) <==> LastOf(items, x)
  {
    if |items| > 0 {
      var rest := items[1..];
      LastByRefIsLast(rest, x);
      if LastOf(rest, x) {
        var i :| 0 <= i < |rest| && rest[i] == x && forall j :: i < j < |rest| ==> rest[j].ref != x.ref;
        assert items[i + 1] == x && forall j :: i + 1 < j < |items| ==> items[j] == rest[j - 1];
      }
      if LastOf(items, x) {
        var i :| 0 <= i < |items| && items[i] == x && forall j :: i < j < |items| ==> items[j].ref != x.ref;
        if i > 0 {
          assert rest[i - 1] == x && forall j :: i - 1 < j < |rest| ==> rest[j] == items[j + 1];
        } else {
          assert forall j :: 0 <= j < |rest| ==> rest[j] == items[j + 1];
        }
      }
      if !HasRef(rest, items[0].ref) && x == items[0] {
        assert forall j :: 0 < j < |items| ==> items[j] == rest[j - 1];
      }
    }
  }

  lemma SameValues(items: seq<Evidence>, values: seq<Evidence>, byRef: map<string, Evidence>, order: seq<string>)
    requires Sorting.Distinct(order) && (forall ref :: ref in order <==> ref in byRef)
    requires forall ref :: ref in byRef ==> byRef[ref].ref == ref
    requires forall ref :: ref in byRef <==> HasRef(items, ref)
    requires forall ref :: ref in byRef ==> LastOf(items, byRef[ref])
    requires |values| == |order| && forall i :: 0 <= i < |order| ==> values[i] == byRef[order[i]]
    ensures Sorting.Sort(Before, values) == Canonical(items)
  {
    hide LastOf, HasRef;
    var last := LastByRef(items);
    LastByRefDistinct(items);
    assert DistinctRefs(values);
    forall x
      ensures x in values <==> x in last
    {
      LastByRefIsLast(items, x);
      if x in last {
        LastHasRef(items, x);
        var k :| 0 <= k < |order| && order[k] == x.ref;
        OneLast(items, x, byRef[x.ref]);
        assert values[k] == x;
      }
    }
    SortDistinctRefs(values, last);
  }

  lemma SortDistinctRefs(a: seq<Evidence>, b: seq<Evidence>)
    requires DistinctRefs(a) && DistinctRefs(b) && forall x :: x in a <==> x in b
    ensures Sorting.Sort(Before, a) == Sorting.Sort(Before, b)
  {
    BeforeOrders(a);
    BeforeOrders(b);
    Sorting.SameElements(a, b);
    Sorting.SortForgetsOrder(Before, a, b);
  }

  lemma LastHasRef(items: seq<Evidence>, x: Evidence)
    requires LastOf(items, x)
    ensures HasRef(items, x.ref)
  {
  }

  lemma OneLast(items: seq<Evidence>, x: Evidence, y: Evidence)
    requires LastOf(items, x) && LastOf(items, y) && x.ref == y.ref
    ensures x == y
  {
  }

  // ---------------------------------------------------------------------------------------
  // Over all runs

  ghost predicate ShareRef(a: Job, b: Job) {
    exists ref :: HasRef(a.evidence, ref) && HasRef(b.evidence, ref)
  }

  /** Two jobs that enqueueJob must keep apart. */
  ghost predicate Apart(a: Job, b: Job) {
    a.account == b.account && a.target == b.target && a.project == b.project ==>
      && a.hash != b.hash
      && a.evidence != b.evidence
      && (a.target == L2 ==> !ShareRef(a, b))
  }

  ghost predicate EnqueueInv(s: State) {
    && (forall i {:trigger s.jobs[i]} :: 0 <= i < |s.jobs| ==>
          s.jobs[i].hash == Hash(s.jobs[i].target, s.jobs[i].project, s.jobs[i].evidence))
    && (forall i, j {:trigger s.jobs[i], s.jobs[j]} :: 0 <= i < j < |s.jobs| && s.jobs[j].id in s.enqueued ==>
          Apart(s.jobs[i], s.jobs[j]))
  }

  lemma KeptApart(s: State, t: State)
    requires EnqueueInv(s) && LeaseFencing.Keeps(s, t) && |t.jobs| == |s.jobs| && t.enqueued == s.enqueued
    ensures EnqueueInv(t)
  {
    assert forall i :: 0 <= i < |s.jobs| ==> LeaseFencing.JobKeeps(s.jobs[i], t.jobs[i]);
    forall i, j | 0 <= i < j < |t.jobs| && t.jobs[j].id in t.enqueued
      ensures Apart(t.jobs[i], t.jobs[j])
    {
      assert Apart(s.jobs[i], s.jobs[j]);
    }
  }

  lemma NoClashIsApart(job: Job, queued: Job)
    requires job.hash == Hash(job.target, job.project, job.evidence)
    requires queued.hash == Hash(queued.target, queued.project, queued.evidence)
    requires !Clashes(job, queued.account, queued.target, queued.project, queued.evidence)
    ensures Apart(job, queued)
  {
    SharedRefOverlaps(job, queued);
  }

  lemma SharedRefOverlaps(a: Job, b: Job)
    ensures ShareRef(a, b) ==> Overlaps(a, b.evidence)
  {
    if ShareRef(a, b) {
      var ref :| HasRef(a.evidence, ref) && HasRef(b.evidence, ref);
      var i :| 0 <= i < |b.evidence| && b.evidence[i].ref == ref;
    }
  }

  lemma EnqueueKeepsApart(s: State, account: string, target: Target, project: Option<string>, items: seq<Evidence>, now: int)
    requires EnqueueInv(s) && LeaseFencing.Identities(s)
    ensures EnqueueInv(ApplyEnqueue(s, account, target, project, items, now))
  {
    hide Apart, Clashes, Canonical, AllRefsText;
    var t := ApplyEnqueue(s, account, target, project, items, now);
    if t != s {
      var evidence := Canonical(items);
      var job := NewJob(s.next, account, target, project, evidence, now);
      forall i, j | 0 <= i < j < |t.jobs| && t.jobs[j].id in t.enqueued
        ensures Apart(t.jobs[i], t.jobs[j])
      {
        if j == |s.jobs| {
          assert !Clashes(s.jobs[i], account, target, project, evidence);
          NoClashIsApart(s.jobs[i], job);
        } else {
          assert s.jobs[j].id != s.next;
        }
      }
    }
  }

  lemma RecordKeepsApart(s: State, op: Op)
    requires EnqueueInv(s) && LeaseFencing.Identities(s) && op.Record?
    requires s.next !in s.enqueued
    ensures EnqueueInv(ApplyRecord(s, op))
  {
    hide Apart, SameRevision, Canonical, RecordAllowed;
    var t := ApplyRecord(s, op);
    if t != s {
      forall i, j | 0 <= i < j < |t.jobs| && t.jobs[j].id in t.enqueued
        ensures Apart(t.jobs[i], t.jobs[j])
      {
        assert j < |s.jobs|;
      }
    }
  }

  ghost predicate OldNumbers(s: State) {
    forall id :: id in s.enqueued ==> id < s.next
  }

  lemma Step(s: State, op: Op)
    requires LeaseFencing.Inv(s) && EnqueueInv(s) && OldNumbers(s)
    ensures EnqueueInv(Apply(s, op)) && OldNumbers(Apply(s, op))
  {
    hide EnqueueInv, Leasable, LeasedJob, Worked, Canonical, Clashes, SameRevision, RecordAllowed, RetireConflict, AllRetired,
      AllOwned, LeaseFencing.LeasesInv, LeaseFencing.RetirementsInv, LeaseFencing.Keeps, AllRefsText;
    LeaseFencing.Step(s, op);
    match op
    case Lease(_) => KeptApart(s, Apply(s, op));
    case OnJob(_, _, _) => KeptApart(s, Apply(s, op));
    case Enqueue(account, target, project, items, now) => EnqueueKeepsApart(s, account, target, project, items, now);
    case Record(_, _, _, _, _, _, _, _, _) => RecordKeepsApart(s, op);
    case RetireBegin(_, _, _) => KeptApart(s, Apply(s, op));
    case RetireFinish(_, _) => KeptApart(s, Apply(s, op));
  }

  lemma {:induction false} ReplayKeeps(s: State, ops: seq<Op>)
    requires LeaseFencing.Inv(s) && EnqueueInv(s) && OldNumbers(s)
    ensures EnqueueInv(Replay(s, ops))
    decreases |ops|
  {
    hide EnqueueInv, LeaseFencing.Inv, Apply, OldNumbers;
    if |ops| > 0 {
      LeaseFencing.Step(s, ops[0]);
      Step(s, ops[0]);
      ReplayKeeps(Apply(s, ops[0]), ops[1..]);
    }
  }

  /**
   When an enqueue adds a job, by what the jobs hold: exactly if all references have text and no job of
   the account, target and project has the very evidence, or, for L2, any of its references.
   */
  lemma {:induction false} AddsJobIff(s: State, account: string, target: Target, project: Option<string>, items: seq<Evidence>, now: int)
    requires Reachable(s)
    ensures var t := ApplyEnqueue(s, account, target, project, items, now);
      && (t != s <==>
            && (forall i :: 0 <= i < |items| ==> !Blank(items[i].ref))
            && forall i :: 0 <= i < |s.jobs| ==> !Stops(s.jobs[i], account, target, project, items))
      && (t != s ==> |t.jobs| == |s.jobs| + 1 && t.jobs[..|s.jobs|] == s.jobs && IsQueued(t.jobs[|s.jobs|], account, target, project, items, now))
  {
    hide Canonical, Blank, Apply, Stops;
    var ops :| s == Replay(EMPTY, ops);
    ReplayKeeps(EMPTY, ops);
    var evidence := Canonical(items);
    var found := Find(s.jobs, (job: Job) => Clashes(job, account, target, project, evidence));
    forall i | 0 <= i < |s.jobs|
      ensures Clashes(s.jobs[i], account, target, project, evidence) <==> Stops(s.jobs[i], account, target, project, items)
    {
      assert s.jobs[i].hash == Hash(s.jobs[i].target, s.jobs[i].project, s.jobs[i].evidence);
      StopsIff(s.jobs[i], account, target, project, items);
    }
  }

  /** The job keeps the batch from being queued. */
  ghost predicate Stops(job: Job, account: string, target: Target, project: Option<string>, items: seq<Evidence>) {
    && job.account == account && job.target == target && job.project == project
    && (job.evidence == Canonical(items) || (target == L2 && exists ref :: HasRef(items, ref) && HasRef(job.evidence, ref)))
  }

  /** A pending job over the canonical evidence, which nobody has leased. */
  predicate IsQueued(job: Job, account: string, target: Target, project: Option<string>, items: seq<Evidence>, now: int) {
    && job.account == account && job.target == target && job.project == project && job.evidence == Canonical(items)
    && job.status == Pending && job.createdAt == now && job.attempts == 0 && job.leaseToken.None? && job.leasedUntil.None?
    && job.resultId.None? && job.retirement.None?
  }

  lemma StopsIff(job: Job, account: string, target: Target, project: Option<string>, items: seq<Evidence>)
    requires job.hash == Hash(job.target, job.project, job.evidence)
    ensures Clashes(job, account, target, project, Canonical(items)) <==> Stops(job, account, target, project, items)
  {
    hide Canonical, HasRef;
    CanonicalList(items);
    var evidence := Canonical(items);
    forall i | 0 <= i < |evidence| ensures HasRef(evidence, evidence[i].ref) { RefThere(evidence, i); }
    if ref :| HasRef(items, ref) && HasRef(job.evidence, ref) {
      assert HasRef(evidence, ref);
      var i := PlaceOfRef(evidence, ref);
      assert HasRef(job.evidence, evidence[i].ref);
    }
  }

  lemma RefThere(items: seq<Evidence>, i: nat)
    requires i < |items|
    ensures HasRef(items, items[i].ref)
  {
  }

  lemma PlaceOfRef(items: seq<Evidence>, ref: string) returns (i: nat)
    requires HasRef(items, ref)
    ensures i < |items| && items[i].ref == ref
  {
    i :| 0 <= i < |items| && items[i].ref == ref;
  }

  /**
   In every reachable store, a job appended by enqueueJob differs in evidence and hash from every
   earlier job of its account, target and project, and if it is an L2 job it has no evidence
   reference in common with them, however enqueues raced and whatever became of the jobs since.
   */
  lemma {:induction false} EnqueuedBatchesAreDisjoint(s: State, i: nat, j: nat)
    requires Reachable(s) && i < j < |s.jobs| && s.jobs[j].id in s.enqueued
    ensures Apart(s.jobs[i], s.jobs[j])
  {
    var ops :| s == Replay(EMPTY, ops);
    ReplayKeeps(EMPTY, ops);
  }

  /** A permutation of evidence that is already queued finds its job and changes nothing. */
  lemma PermutedBatchIsNotQueuedTwice(s: State, account: string, target: Target, project: Option<string>,
                                      a: seq<Evidence>, b: seq<Evidence>, now: int, later: int)
    requires DistinctRefs(a) && DistinctRefs(b) && multiset(a) == multiset(b)
    ensures var t := ApplyEnqueue(s, account, target, project, a, now);
      ApplyEnqueue(t, account, target, project, b, later) == t
  {
    PermutationsAgree(a, b);
    var t := ApplyEnqueue(s, account, target, project, a, now);
    var evidence := Canonical(a);
    if AllRefsText(a) {
      if t != s {
        assert Clashes(t.jobs[|s.jobs|], account, target, project, evidence);
      } else {
        var found := Find(s.jobs, (job: Job) => Clashes(job, account, target, project, evidence));
      }
    } else if AllRefsText(b) {
      SameTexts(a, b);
    }
  }

  lemma SameTexts(a: seq<Evidence>, b: seq<Evidence>)
    requires multiset(a) == multiset(b) && AllRefsText(b)
    ensures AllRefsText(a)
  {
    forall i | 0 <= i < |a|
      ensures !Blank(a[i].ref)
    {
      assert a[i] in multiset(a);
      assert a[i] in b;
    }
  }

  /**
   A batch is queued once for good: whatever happens to the store after it was enqueued, enqueueing
   the same evidence again, in whatever order, changes nothing.
   */
  lemma {:induction false} QueuedOnceForGood(s: State, account: string, target: Target, project: Option<string>, ops: seq<Op>,
                                             a: seq<Evidence>, b: seq<Evidence>, now: int, later: int)
    requires Reachable(s) && DistinctRefs(a) && DistinctRefs(b) && multiset(a) == multiset(b)
    ensures var t := Replay(Apply(s, Enqueue(account, target, project, a, now)), ops);
      Apply(t, Enqueue(account, target, project, b, later)) == t
  {
    hide Canonical, AllRefsText, LeaseFencing.Inv, LeaseFencing.JobKeeps, Apply, Clashes;
    PermutationsAgree(a, b);
    if AllRefsText(b) {
      SameTexts(a, b);
      LeaseFencing.ReachableInv(s);
      LeaseFencing.Step(s, Enqueue(account, target, project, a, now));
      var queued := Apply(s, Enqueue(account, target, project, a, now));
      LeaseFencing.ReplayKeeps(queued, ops);
      var t := Replay(queued, ops);
      var i := HasBatchAfter(s, account, target, project, a, now);
      KeptBatchFound(queued, t, i, account, target, project, b, later);
    } else {
      NothingQueued(Replay(Apply(s, Enqueue(account, target, project, a, now)), ops), account, target, project, b, later);
    }
  }

  lemma NothingQueued(t: State, account: string, target: Target, project: Option<string>, b: seq<Evidence>, later: int)
    requires !AllRefsText(b)
    ensures Apply(t, Enqueue(account, target, project, b, later)) == t
  {
  }

  lemma HasBatchAfter(s: State, account: string, target: Target, project: Option<string>, a: seq<Evidence>, now: int) returns (i: nat)
    requires AllRefsText(a)
    ensures var t := Apply(s, Enqueue(account, target, project, a, now));
      i < |t.jobs| && Clashes(t.jobs[i], account, target, project, Canonical(a))
  {
    hide Canonical;
    var found := Find(s.jobs, (job: Job) => Clashes(job, account, target, project, Canonical(a)));
    i := if found.Some? then found.value else |s.jobs|;
  }

  lemma KeptBatchFound(s: State, t: State, i: nat, account: string, target: Target, project: Option<string>, b: seq<Evidence>, later: int)
    requires LeaseFencing.Keeps(s, t) && i < |s.jobs| && Clashes(s.jobs[i], account, target, project, Canonical(b))
    ensures Apply(t, Enqueue(account, target, project, b, later)) == t
  {
    hide Canonical, Overlaps;
    assert LeaseFencing.JobKeeps(s.jobs[i], t.jobs[i]);
    SameOverlaps(s.jobs[i], t.jobs[i], Canonical(b));
    var found := Find(t.jobs, (job: Job) => Clashes(job, account, target, project, Canonical(b)));
  }

  lemma SameOverlaps(a: Job, b: Job, evidence: seq<Evidence>)
    requires a.evidence == b.evidence
    ensures Overlaps(a, evidence) <==> Overlaps(b, evidence)
  {
  }
}
