/** Runs of a machine: states each of which is one step from the one before. */
module Runs {
  ghost predicate IsRun<S(!new)>(step: (S, S) -> bool, states: seq<S>) {
    && |states| > 0
    && forall i :: 0 < i < |states| ==> step(states[i - 1], states[i])
  }

  /** Some run leads from `s` to `t`. */
  ghost predicate Leads<S(!new)>(step: (S, S) -> bool, s: S, t: S) {
    exists states :: IsRun(step, states) && states[0] == s && states[|states| - 1] == t
  }

  lemma Stays<S(!new)>(step: (S, S) -> bool, s: S)
    ensures Leads(step, s, s)
  {
    assert IsRun(step, [s]);
  }

  lemma Through<S(!new)>(step: (S, S) -> bool, s: S, t: S, u: S)
    requires Leads(step, s, t) && Leads(step, t, u)
    ensures Leads(step, s, u)
  {
    var first :| IsRun(step, first) && first[0] == s && first[|first| - 1] == t;
    var second :| IsRun(step, second) && second[0] == t && second[|second| - 1] == u;
    var states := first + second[1..];
    forall i | 0 < i < |states|
      ensures step(states[i - 1], states[i])
    {
      if i >= |first| {
        var j := i - |first| + 1;
        assert states[i] == second[j] && states[i - 1] == second[j - 1];
      }
    }
    assert IsRun(step, states);
  }

  lemma Then<S(!new)>(step: (S, S) -> bool, s: S, t: S, u: S)
    requires Leads(step, s, t) && step(t, u)
    ensures Leads(step, s, u)
  {
    assert IsRun(step, [t, u]);
    Through(step, s, t, u);
  }

  /** A run of a machine is one of every machine that can do more. */
  lemma Wider<S(!new)>(step: (S, S) -> bool, more: (S, S) -> bool, s: S, t: S)
    requires Leads(step, s, t) && forall a, b :: step(a, b) ==> more(a, b)
    ensures Leads(more, s, t)
  {
    var states :| IsRun(step, states) && states[0] == s && states[|states| - 1] == t;
    assert IsRun(more, states);
  }

  /** What every step keeps holds at the end of every run. */
  lemma Preserved<S(!new)>(step: (S, S) -> bool, inv: S -> bool, s: S, t: S)
    requires Leads(step, s, t) && inv(s)
    requires forall a, b :: inv(a) && step(a, b) ==> inv(b)
    ensures inv(t)
  {
    var states :| IsRun(step, states) && states[0] == s && states[|states| - 1] == t;
    PreservedAt(step, inv, states, |states| - 1);
  }

  lemma {:induction false} PreservedAt<S(!new)>(step: (S, S) -> bool, inv: S -> bool, states: seq<S>, n: nat)
    requires IsRun(step, states) && inv(states[0]) && n < |states|
    requires forall a, b :: inv(a) && step(a, b) ==> inv(b)
    ensures inv(states[n])
  {
    if n > 0 {
      PreservedAt(step, inv, states, n - 1);
      assert step(states[n - 1], states[n]);
    }
  }

  /** A preorder that every step respects relates the ends of every run. */
  lemma Related<S(!new)>(step: (S, S) -> bool, inv: S -> bool, rel: (S, S) -> bool, s: S, t: S)
    requires Leads(step, s, t) && inv(s)
    requires forall a, b :: inv(a) && step(a, b) ==> inv(b) && rel(a, b)
    requires forall a :: rel(a, a)
    requires forall a, b, c :: inv(a) && rel(a, b) && rel(b, c) ==> rel(a, c)
    ensures rel(s, t)
  {
    var states :| IsRun(step, states) && states[0] == s && states[|states| - 1] == t;
    RelatedAt(step, inv, rel, states, |states| - 1);
  }

  lemma {:induction false} RelatedAt<S(!new)>(step: (S, S) -> bool, inv: S -> bool, rel: (S, S) -> bool, states: seq<S>, n: nat)
    requires IsRun(step, states) && inv(states[0]) && n < |states|
    requires forall a, b :: inv(a) && step(a, b) ==> inv(b) && rel(a, b)
    requires forall a :: rel(a, a)
    requires forall a, b, c :: inv(a) && rel(a, b) && rel(b, c) ==> rel(a, c)
    ensures inv(states[n]) && rel(states[0], states[n])
  {
    if n > 0 {
      RelatedAt(step, inv, rel, states, n - 1);
      assert step(states[n - 1], states[n]);
    }
  }

  /** A run on which something ceases to hold has a step at which it does. */
  lemma Crossing<S(!new)>(step: (S, S) -> bool, p: S -> bool, s: S, t: S) returns (u: S, v: S)
    requires Leads(step, s, t) && p(s) && !p(t)
    ensures Leads(step, s, u) && p(u) && step(u, v) && !p(v) && Leads(step, v, t)
  {
    var states :| IsRun(step, states) && states[0] == s && states[|states| - 1] == t;
    var n := CrossingAt(step, p, states);
    u, v := states[n], states[n + 1];
    assert IsRun(step, states[..n + 1]) && IsRun(step, states[n + 1..]);
  }

  lemma {:induction false} CrossingAt<S(!new)>(step: (S, S) -> bool, p: S -> bool, states: seq<S>) returns (n: nat)
    requires IsRun(step, states) && p(states[0]) && !p(states[|states| - 1])
    ensures n + 1 < |states| && p(states[n]) && !p(states[n + 1])
    decreases |states|
  {
    if !p(states[1]) {
      n := 0;
    } else {
      var rest := states[1..];
      assert IsRun(step, rest);
      n := CrossingAt(step, p, rest);
      n := n + 1;
    }
  }
}
