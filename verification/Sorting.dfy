/** Sorting by a strict total order: the result depends only on which elements there are. */
module Sorting {
  /** `less` is a strict total order of the elements of `s`. */
  ghost predicate Orders<T>(less: (T, T) -> bool, s: seq<T>) {
    && (forall a :: a in s ==> !less(a, a))
    && (forall a, b, c :: a in s && b in s && c in s && less(a, b) && less(b, c) ==> less(a, c))
    && (forall a, b :: a in s && b in s ==> a == b || less(a, b) || less(b, a))
  }

  ghost predicate Sorted<T>(less: (T, T) -> bool, s: seq<T>) {
    forall i, j :: 0 <= i < j < |s| ==> less(s[i], s[j])
  }

  ghost predicate Distinct<T>(s: seq<T>) {
    forall i, j :: 0 <= i < j < |s| ==> s[i] != s[j]
  }

  function Insert<T>(less: (T, T) -> bool, x: T, s: seq<T>): (r: seq<T>)
    ensures multiset(r) == multiset([x] + s)
  {
    if |s| == 0 then [x]
    else if less(x, s[0]) then [x] + s
    else
      assert s == [s[0]] + s[1..];
      assert multiset([s[0]] + Insert(less, x, s[1..])) == multiset{s[0]} + multiset([x] + s[1..]);
      [s[0]] + Insert(less, x, s[1..])
  }

  /** Array.prototype.sort with the comparison `less`. */
  function Sort<T>(less: (T, T) -> bool, s: seq<T>): (r: seq<T>)
    ensures multiset(r) == multiset(s)
  {
    if |s| == 0 then []
    else
      assert s == [s[0]] + s[1..];
      Insert(less, s[0], Sort(less, s[1..]))
  }

  lemma InMultiset<T>(s: seq<T>, x: T)
    ensures x in multiset(s) <==> x in s
  {
  }

  lemma {:induction false} InsertSorted<T>(less: (T, T) -> bool, x: T, s: seq<T>)
    requires Orders(less, [x] + s) && Sorted(less, s) && x !in s
    ensures Sorted(less, Insert(less, x, s))
  {
    if |s| > 0 {
      assert x in [x] + s && s[0] in [x] + s;
      assert forall y :: y in s ==> y in [x] + s;
      if less(x, s[0]) {
        forall k | 0 <= k < |s|
          ensures less(x, s[k])
        {
          assert s[k] in [x] + s;
        }
      } else {
        assert forall y :: y in [x] + s[1..] ==> y in [x] + s;
        InsertSorted(less, x, s[1..]);
        var rest := Insert(less, x, s[1..]);
        forall k | 0 <= k < |rest|
          ensures less(s[0], rest[k])
        {
          assert rest[k] in multiset(rest);
          assert rest[k] in multiset([x] + s[1..]);
          assert rest[k] == x || rest[k] in s[1..];
        }
      }
    }
  }

  lemma {:induction false} SortSorted<T>(less: (T, T) -> bool, s: seq<T>)
    requires Orders(less, s) && Distinct(s)
    ensures Sorted(less, Sort(less, s))
  {
    if |s| > 0 {
      SortSorted(less, s[1..]);
      var rest := Sort(less, s[1..]);
      InMultiset(rest, s[0]);
      InMultiset(s[1..], s[0]);
      forall y | y in [s[0]] + rest
        ensures y in s
      {
        if y in rest { InMultiset(rest, y); InMultiset(s[1..], y); }
      }
      InsertSorted(less, s[0], rest);
    }
  }

  ghost predicate Asymmetric<T>(less: (T, T) -> bool, s: seq<T>) {
    forall a, b :: a in s && b in s && less(a, b) ==> !less(b, a)
  }

  lemma OrdersAsymmetric<T>(less: (T, T) -> bool, s: seq<T>)
    requires Orders(less, s)
    ensures Asymmetric(less, s)
  {
    forall a, b | a in s && b in s && less(a, b)
      ensures !less(b, a)
    {
      assert !less(a, a);
    }
  }

  lemma SameHead<T>(less: (T, T) -> bool, a: seq<T>, b: seq<T>)
    requires Asymmetric(less, a) && Sorted(less, a) && Sorted(less, b) && multiset(a) == multiset(b) && |a| > 0
    ensures |b| == |a| && a[0] == b[0]
  {
    assert |multiset(b)| == |a|;
    InMultiset(a, a[0]);
    InMultiset(b, a[0]);
    InMultiset(b, b[0]);
    InMultiset(a, b[0]);
    var i :| 0 <= i < |b| && b[i] == a[0];
    var j :| 0 <= j < |a| && a[j] == b[0];
  }

  /** A strictly sorted sequence is determined by its elements. */
  lemma {:induction false} SortedUnique<T>(less: (T, T) -> bool, a: seq<T>, b: seq<T>)
    requires Asymmetric(less, a) && Sorted(less, a) && Sorted(less, b) && multiset(a) == multiset(b)
    ensures a == b
    decreases |a|
  {
    if |a| == 0 {
      assert |multiset(b)| == 0;
    } else {
      SameHead(less, a, b);
      SameTails(a, b);
      SortedUnique(less, a[1..], b[1..]);
      assert a == [a[0]] + a[1..] && b == [b[0]] + b[1..];
    }
  }

  lemma SameTails<T>(a: seq<T>, b: seq<T>)
    requires |a| > 0 && |b| > 0 && a[0] == b[0] && multiset(a) == multiset(b)
    ensures multiset(a[1..]) == multiset(b[1..])
  {
    assert a == [a[0]] + a[1..] && b == [b[0]] + b[1..];
    assert multiset(a[1..]) == multiset(a) - multiset{a[0]};
    assert multiset(b[1..]) == multiset(b) - multiset{b[0]};
  }

  lemma OrdersPermuted<T>(less: (T, T) -> bool, a: seq<T>, b: seq<T>)
    requires Orders(less, a) && multiset(a) == multiset(b)
    ensures Orders(less, b)
  {
    forall x | x in b
      ensures x in a
    {
      InMultiset(a, x);
      InMultiset(b, x);
    }
  }

  /** Sorting forgets the order its argument came in. */
  lemma SortForgetsOrder<T>(less: (T, T) -> bool, a: seq<T>, b: seq<T>)
    requires Orders(less, a) && Distinct(a) && Distinct(b) && multiset(a) == multiset(b)
    ensures Sort(less, a) == Sort(less, b)
  {
    hide Orders, Asymmetric;
    OrdersPermuted(less, a, b);
    SortSorted(less, a);
    SortSorted(less, b);
    OrdersPermuted(less, a, Sort(less, a));
    OrdersAsymmetric(less, Sort(less, a));
    SortedUnique(less, Sort(less, a), Sort(less, b));
  }

  /** Two duplicate-free sequences with the same elements are permutations of each other. */
  lemma {:induction false} SameElements<T>(a: seq<T>, b: seq<T>)
    requires Distinct(a) && Distinct(b) && (forall x :: x in a <==> x in b)
    ensures multiset(a) == multiset(b)
  {
    forall x
      ensures multiset(a)[x] == multiset(b)[x]
    {
      DistinctCounts(a, x);
      DistinctCounts(b, x);
    }
  }

  lemma {:induction false} DistinctCounts<T>(s: seq<T>, x: T)
    requires Distinct(s)
    ensures multiset(s)[x] == if x in s then 1 else 0
  {
    if |s| > 0 {
      assert s == [s[0]] + s[1..];
      DistinctCounts(s[1..], x);
      assert s[0] !in s[1..];
    }
  }

  // ---------------------------------------------------------------------------------------
  // Strings

  /** localeCompare < 0, as the strict total order by character codes. */
  predicate Less(a: string, b: string) {
    if |b| == 0 then false
    else if |a| == 0 then true
    else a[0] < b[0] || (a[0] == b[0] && Less(a[1..], b[1..]))
  }

  lemma {:induction false} LessIrreflexive(a: string)
    ensures !Less(a, a)
  {
    if |a| > 0 { LessIrreflexive(a[1..]); }
  }

  lemma {:induction false} LessTransitive(a: string, b: string, c: string)
    requires Less(a, b) && Less(b, c)
    ensures Less(a, c)
  {
    if |a| > 0 && a[0] == b[0] && b[0] == c[0] { LessTransitive(a[1..], b[1..], c[1..]); }
  }

  lemma {:induction false} LessTotal(a: string, b: string)
    ensures a == b || Less(a, b) || Less(b, a)
  {
    if |a| > 0 && |b| > 0 && a[0] == b[0] {
      LessTotal(a[1..], b[1..]);
      assert a == [a[0]] + a[1..] && b == [b[0]] + b[1..];
    }
  }
}
