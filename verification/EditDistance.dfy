/**
 The in-place edit distance and the similarity of project names: src/project-registry.ts:472-498.
 */
module EditDistance {

  function Min(a: nat, b: nat): nat {
    if a <= b then a else b
  }

  function Max(a: nat, b: nat): nat {
    if a >= b then a else b
  }

  function Mismatch(a: string, b: string): nat
    requires |a| > 0 && |b| > 0
  {
    if a[|a| - 1] == b[|b| - 1] then 0 else 1
  }

  function Init(a: string): string
    requires |a| > 0
  {
    a[..|a| - 1]
  }

  /** The edit distance by its recursion on the last characters. */
  function Distance(a: string, b: string): nat
    decreases |a| + |b|
  {
    if |a| == 0 then |b|
    else if |b| == 0 then |a|
    else Min(Min(Distance(Init(a), b) + 1, Distance(a, Init(b)) + 1), Distance(Init(a), Init(b)) + Mismatch(a, b))
  }

  /** levenshtein: one row, overwritten in place, with the diagonal saved before it is lost. */
  method Levenshtein(left: string, right: string) returns (d: nat)
    ensures d == Distance(left, right)
  {
    hide Distance;
    var previous := new nat[|right| + 1](index => index);
    RowZero(right);
    assert left[..0] == "" && right[..0] == "";
    for i := 1 to |left| + 1
      invariant forall j :: 0 <= j <= |right| ==> previous[j] == Distance(left[..i - 1], right[..j])
    {
      var diagonal := previous[0];
      FirstColumn(left, i);
      previous[0] := i;
      for j := 1 to |right| + 1
        invariant diagonal == Distance(left[..i - 1], right[..j - 1])
        invariant forall k :: 0 <= k < j ==> previous[k] == Distance(left[..i], right[..k])
        invariant forall k :: j <= k <= |right| ==> previous[k] == Distance(left[..i - 1], right[..k])
      {
        var above := previous[j];
        CellStep(left, right, i, j);
        previous[j] := Min(Min(previous[j] + 1, previous[j - 1] + 1), diagonal + (if left[i - 1] == right[j - 1] then 0 else 1));
        diagonal := above;
      }
    }
    assert left[..|left|] == left && right[..|right|] == right;
    return previous[|right|];
  }

  lemma RowZero(right: string)
    ensures forall j :: 0 <= j <= |right| ==> Distance("", right[..j]) == j
  {
  }

  lemma CellStep(left: string, right: string, i: nat, j: nat)
    requires 0 < i <= |left| && 0 < j <= |right|
    ensures Distance(left[..i], right[..j]) ==
      Min(Min(Distance(left[..i - 1], right[..j]) + 1, Distance(left[..i], right[..j - 1]) + 1),
          Distance(left[..i - 1], right[..j - 1]) + (if left[i - 1] == right[j - 1] then 0 else 1))
  {
    hide Distance;
    var a, b := left[..i], right[..j];
    DistanceStep(a, b, Distance(Init(a), b), Distance(a, Init(b)), Distance(Init(a), Init(b)));
    assert Init(a) == left[..i - 1] && Init(b) == right[..j - 1];
    assert a[|a| - 1] == left[i - 1] && b[|b| - 1] == right[j - 1];
  }

  lemma DistanceStep(a: string, b: string, x: nat, y: nat, z: nat)
    requires |a| > 0 && |b| > 0
    requires x == Distance(Init(a), b) && y == Distance(a, Init(b)) && z == Distance(Init(a), Init(b))
    ensures Distance(a, b) == Min(Min(x + 1, y + 1), z + Mismatch(a, b))
  {
  }

  lemma FirstColumn(left: string, i: nat)
    requires i <= |left|
    ensures Distance(left[..i], "") == i
  {
  }

  // ---------------------------------------------------------------------------------------
  // The distance is the cost of the cheapest edit script

  datatype Edit = Keep | Substitute | Insert | Delete

  function Cost(script: seq<Edit>): nat {
    if |script| == 0 then 0 else Cost(script[..|script| - 1]) + if script[|script| - 1] == Keep then 0 else 1
  }

  /** The script turns `a` into `b`, one edit for each kept, replaced, inserted or deleted character. */
  predicate Turns(script: seq<Edit>, a: string, b: string) {
    if |script| == 0 then |a| == 0 && |b| == 0
    else
      var rest := script[..|script| - 1];
      match script[|script| - 1]
      case Keep => |a| > 0 && |b| > 0 && a[|a| - 1] == b[|b| - 1] && Turns(rest, Init(a), Init(b))
      case Substitute => |a| > 0 && |b| > 0 && Turns(rest, Init(a), Init(b))
      case Insert => |b| > 0 && Turns(rest, a, Init(b))
      case Delete => |a| > 0 && Turns(rest, Init(a), b)
  }

  /** No script is cheaper than the distance. */
  lemma {:induction false} NoCheaperScript(script: seq<Edit>, a: string, b: string)
    requires Turns(script, a, b)
    ensures Distance(a, b) <= Cost(script)
  {
    if |script| > 0 {
      var rest := script[..|script| - 1];
      match script[|script| - 1]
      case Keep => NoCheaperScript(rest, Init(a), Init(b));
      case Substitute => NoCheaperScript(rest, Init(a), Init(b));
      case Insert => NoCheaperScript(rest, a, Init(b)); OneMore(a, b);
      case Delete => NoCheaperScript(rest, Init(a), b); OneMore(a, b);
    }
  }

  /** Dropping the last character changes the distance by at most one. */
  lemma {:induction false} OneMore(a: string, b: string)
    ensures |a| > 0 ==> Distance(a, b) <= Distance(Init(a), b) + 1
    ensures |b| > 0 ==> Distance(a, b) <= Distance(a, Init(b)) + 1
  {
    if |b| == 0 && |a| > 1 { OneMore(Init(a), b); }
    if |a| == 0 && |b| > 1 { OneMore(a, Init(b)); }
  }

  /** Some script costs exactly the distance. */
  lemma {:induction false} CheapestScript(a: string, b: string) returns (script: seq<Edit>)
    ensures Turns(script, a, b) && Cost(script) == Distance(a, b)
    decreases |a| + |b|
  {
    if |a| == 0 && |b| == 0 {
      return [];
    }
    var rest, last;
    if |a| > 0 && Distance(a, b) == Distance(Init(a), b) + 1 {
      rest := CheapestScript(Init(a), b);
      last := Delete;
    } else if |b| > 0 && Distance(a, b) == Distance(a, Init(b)) + 1 {
      rest := CheapestScript(a, Init(b));
      last := Insert;
    } else {
      BothHaveLast(a, b);
      rest := CheapestScript(Init(a), Init(b));
      last := if Mismatch(a, b) == 0 then Keep else Substitute;
    }
    script := rest + [last];
    assert script[..|script| - 1] == rest;
  }

  lemma BothHaveLast(a: string, b: string)
    requires |a| > 0 || |b| > 0
    requires |a| > 0 ==> Distance(a, b) != Distance(Init(a), b) + 1
    requires |b| > 0 ==> Distance(a, b) != Distance(a, Init(b)) + 1
    ensures |a| > 0 && |b| > 0
  {
  }

  // ---------------------------------------------------------------------------------------
  // The distance is a metric

  lemma {:induction false} Symmetric(a: string, b: string)
    ensures Distance(a, b) == Distance(b, a)
    decreases |a| + |b|
  {
    if |a| > 0 && |b| > 0 {
      Symmetric(Init(a), b);
      Symmetric(a, Init(b));
      Symmetric(Init(a), Init(b));
    }
  }

  lemma {:induction false} Bounds(a: string, b: string)
    ensures Distance(a, b) <= Max(|a|, |b|) && |a| <= Distance(a, b) + |b| && |b| <= Distance(a, b) + |a|
    decreases |a| + |b|
  {
    if |a| > 0 && |b| > 0 {
      Bounds(Init(a), b);
      Bounds(a, Init(b));
      Bounds(Init(a), Init(b));
    }
  }

  lemma {:induction false} ZeroIffEqual(a: string, b: string)
    ensures Distance(a, b) == 0 <==> a == b
    decreases |a| + |b|
  {
    if |a| > 0 && |b| > 0 {
      ZeroIffEqual(Init(a), Init(b));
      assert a == Init(a) + [a[|a| - 1]] && b == Init(b) + [b[|b| - 1]];
    }
  }

  lemma {:induction false} Triangle(a: string, b: string, c: string)
    ensures Distance(a, c) <= Distance(a, b) + Distance(b, c)
    decreases |a| + |b| + |c|
  {
    Bounds(b, c);
    Bounds(a, b);
    if |a| > 0 && |c| > 0 {
      OneMore(a, c);
      Triangle(Init(a), b, c);
      Triangle(a, b, Init(c));
      if |b| > 0 {
        Triangle(a, Init(b), c);
        Triangle(Init(a), Init(b), c);
        Triangle(a, Init(b), Init(c));
        Triangle(Init(a), Init(b), Init(c));
      }
    }
  }

  // ---------------------------------------------------------------------------------------
  // Similarity of two normalised keys

  predicate Includes(a: string, b: string) {
    exists i :: 0 <= i <= |a| && b <= a[i..]
  }

  lemma IncludesIff(a: string, b: string)
    ensures Includes(a, b) <==> exists u, v :: a == u + b + v
  {
    if u, v :| a == u + b + v {
      assert a[|u|..] == b + v;
    }
    if i :| 0 <= i <= |a| && b <= a[i..] {
      assert a == a[..i] + b + a[i + |b|..];
    }
  }

  function MaxReal(a: real, b: real): real {
    if a >= b then a else b
  }

  /** One less the share of the longer key that has to be edited. */
  function Closeness(a: string, b: string): real
    requires a != "" || b != ""
  {
    1.0 - Distance(a, b) as real / Max(|a|, |b|) as real
  }

  /** Closeness, at a discount where one key is only a part of the other; nothing is similar to an empty key. */
  function SimilarityOf(a: string, b: string): real {
    if a == "" || b == "" then 0.0
    else Closeness(a, b) * if a != b && (Includes(a, b) || Includes(b, a)) then 0.92 else 1.0
  }

  lemma {:induction false} MoreBehind(a: string, y: string)
    ensures Distance(a + y, a) <= |y|
    decreases |y|
  {
    if y == "" {
      ZeroIffEqual(a + y, a);
    } else {
      assert Init(a + y) == a + Init(y);
      MoreBehind(a, Init(y));
      OneMore(a + y, a);
    }
  }

  lemma {:induction false} MoreInFront(x: string, a: string)
    ensures Distance(x + a, a) <= |x|
    decreases |a|
  {
    if a == "" {
      Bounds(x + a, a);
    } else {
      assert Init(x + a) == x + Init(a);
      MoreInFront(x, Init(a));
    }
  }

  /** From a text to a part of it the cheapest way is to delete the rest. */
  lemma PartDistance(a: string, b: string)
    requires Includes(a, b)
    ensures Distance(a, b) == |a| - |b|
  {
    var i :| 0 <= i <= |a| && b <= a[i..];
    var front, behind := a[..i], a[i + |b|..];
    assert a == front + (b + behind);
    MoreInFront(front, b + behind);
    MoreBehind(b, behind);
    Triangle(a, b + behind, b);
    Bounds(a, b);
  }

  /** projectSimilarity, once both names are normalised. */
  method Similarity(a: string, b: string) returns (r: real)
    ensures r == SimilarityOf(a, b)
    ensures 0.0 <= r <= 1.0 && (r == 1.0 <==> a == b && a != "")
    ensures a == "" || b == "" ==> r == 0.0
    ensures a != "" && b != "" && a != b ==>
      var shorter, longer := if |a| < |b| then |a| else |b|, if |a| < |b| then |b| else |a|;
      if Includes(a, b) || Includes(b, a)
      then 100.0 * r * longer as real == 92.0 * shorter as real
      else r * longer as real == (longer - Distance(a, b)) as real
  {
    hide Includes, Distance;
    SimilarityRange(a, b);
    if |a| == 0 || |b| == 0 { return 0.0; }
    ZeroIffEqual(a, b);
    if a == b { return 1.0; }
    if Includes(a, b) || Includes(b, a) {
      PartSimilarity(a, b);
      TimesLonger(Min(|a|, |b|), Max(|a|, |b|));
      return Min(|a|, |b|) as real / Max(|a|, |b|) as real * 0.92;
    }
    var distance := Levenshtein(a, b);
    Bounds(a, b);
    Ratio(distance, Max(|a|, |b|));
    TimesLonger(distance, Max(|a|, |b|));
    return MaxReal(0.0, 1.0 - distance as real / Max(|a|, |b|) as real);
  }

  lemma PartSimilarity(a: string, b: string)
    requires a != "" && b != "" && (Includes(a, b) || Includes(b, a))
    ensures Closeness(a, b) == Min(|a|, |b|) as real / Max(|a|, |b|) as real
  {
    hide Includes, Distance;
    if Includes(a, b) { PartDistance(a, b); } else { PartDistance(b, a); }
    Symmetric(a, b);
    Bounds(a, b);
    var x, y := Min(|a|, |b|), Max(|a|, |b|);
    assert Distance(a, b) == y - x;
    Complement(x, y);
  }

  lemma TimesLonger(x: nat, y: nat)
    requires x <= y && y > 0
    ensures 100.0 * (x as real / y as real * 0.92) * y as real == 92.0 * x as real
    ensures (1.0 - x as real / y as real) * y as real == (y - x) as real
  {
    var share := x as real / y as real;
    assert share * y as real == x as real;
  }

  lemma Shares(x: real, z: real, y: real)
    requires y > 0.0 && x + z == y
    ensures x / y + z / y == 1.0
  {
    assert x / y + z / y == (x + z) / y;
  }

  lemma Complement(x: nat, y: nat)
    requires x <= y && y > 0
    ensures 1.0 - (y - x) as real / y as real == x as real / y as real
  {
    Shares(x as real, (y - x) as real, y as real);
  }

  lemma Ratio(x: nat, y: nat)
    requires x <= y && y > 0
    ensures 0.0 <= x as real / y as real <= 1.0
    ensures x as real / y as real == 0.0 <==> x == 0
  {
  }

  /** A similarity is between 0 and 1, symmetric, and 1 exactly for equal keys that are not empty. */
  lemma SimilarityRange(a: string, b: string)
    ensures 0.0 <= SimilarityOf(a, b) <= 1.0
    ensures SimilarityOf(a, b) == 1.0 <==> a == b && a != ""
    ensures SimilarityOf(a, b) == SimilarityOf(b, a)
  {
    Symmetric(a, b);
    Bounds(a, b);
    ZeroIffEqual(a, b);
    if |a| > 0 && |b| > 0 {
      Ratio(Min(|a|, |b|), Max(|a|, |b|));
      Ratio(Distance(a, b), Max(|a|, |b|));
    }
  }
}
