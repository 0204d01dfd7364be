/** What the commit record of ArtifactCommit guarantees over all runs. */
module CommitSafety {
  import opened ArtifactCommit
  import opened Common
  import Runs

  // ---------------------------------------------------------------------------------------
  // The invariant of every reachable state

  ghost predicate Generations(s: State) {
    && (s.record.Some? ==>
          && s.record.value.generation < s.nextGeneration
          && s.record.value.payload == Payload(s.record.value.candidate, s.record.value.generation))
    && (forall i :: 0 <= i < |s.writes| ==> s.writes[i].generation < s.nextGeneration)
    && (forall i :: 0 <= i < |s.writes| && s.record.Some? && s.writes[i].generation == s.record.value.generation ==>
          s.writes[i] == s.record.value.payload)
    && (forall i, j :: 0 <= i < j < |s.writes| ==> s.writes[i].generation != s.writes[j].generation)
    && (forall p :: p in s.committed ==> p in s.writes)
  }

  /** What the lock holder knows about the record. */
  ghost predicate CallInv(s: State) {
    s.call.Some? ==>
      && s.record.Some? && !Terminal(s.record.value)
      && (s.call.value.minted ==> !s.call.value.byOperator)
      && match s.call.value.phase
         case Frozen => s.call.value.minted ==> Unsent(s)
         case Marked => s.call.value.minted && Unsent(s)
         case Replied(reply) =>
           && s.record.value.coreResult.None?
           && (reply.Answered? ==> s.record.value.payload in s.committed)
         case Holding(result) => s.record.value.coreResult == result && !s.call.value.byOperator
         case Recorded(result) =>
           && s.record.value.coreResult == Some(result) && result.id.Some? && !s.call.value.byOperator
           && LedgerDone(s, s.record.value.candidate, s.record.value.generation)
  }

  ghost predicate Unsent(s: State)
    requires s.record.Some?
  {
    && s.record.value.coreResult.None?
    && forall i :: 0 <= i < |s.writes| ==> s.writes[i].generation != s.record.value.generation
  }

  ghost predicate RecordInv(s: State) {
    s.record.Some? ==>
      && (s.record.value.coreResult.Some? ==> s.record.value.payload in s.committed)
      && (s.record.value.response.Some? ==>
            && s.record.value.response == s.record.value.coreResult
            && HasId(s.record.value.response)
            && LedgerDone(s, s.record.value.candidate, s.record.value.generation))
  }

  ghost predicate Inv(s: State) {
    Generations(s) && CallInv(s) && RecordInv(s)
  }

  lemma InvStep(s: State, e: Event)
    requires Inv(s) && Enabled(s, e)
    ensures Inv(Apply(s, e))
  {
    var t := Apply(s, e);
    match e
    case Write(reply, commits) =>
      assert t.writes == s.writes + [s.record.value.payload];
      assert s.record.value.payload in t.writes by { assert t.writes[|s.writes|] == s.record.value.payload; }
      assert forall p :: p in s.writes ==> p in t.writes;
    case Freeze(_) | MarkSent | Reconcile(_) | StoreResult | StoreRefusal =>
    case RecordRevision | StoreResponse | Stop | Inspect | Abandon | Prune | Ledger(_) =>
  }

  lemma InvStays(policy: Policy, s: State, t: State)
    requires Inv(s) && Runs.Leads(Steps(policy), s, t)
    ensures Inv(t)
  {
    hide Allowed, Apply, Enabled;
    forall x, y | Inv(x) && Steps(policy)(x, y)
      ensures Inv(y)
    {
      var e := StepOf(policy, x, y);
      InvStep(x, e);
    }
    Runs.Preserved(Steps(policy), Inv, s, t);
  }

  lemma StepOf(policy: Policy, s: State, t: State) returns (e: Event)
    requires Steps(policy)(s, t)
    ensures Allowed(policy, s, e) && Enabled(s, e) && t == Apply(s, e)
  {
    e :| Allowed(policy, s, e) && t == Apply(s, e);
  }

  /**
   Over all runs, with a crash possible before every durable action: no generation is ever
   written twice by a plain Core write, what Core executed was frozen in a write, and a stored
   response is the stored Core result, has an identity and its revision is in the ledger.
   */
  lemma {:induction false} AtMostOneWritePerGeneration(policy: Policy, s: State)
    requires Reachable(policy, s)
    ensures forall i, j :: 0 <= i < j < |s.writes| ==> s.writes[i].generation != s.writes[j].generation
    ensures forall p :: p in s.committed ==> p in s.writes
    ensures s.record.Some? && s.record.value.response.Some? ==>
      && s.record.value.response == s.record.value.coreResult
      && HasId(s.record.value.coreResult)
      && s.record.value.payload in s.committed
      && LedgerDone(s, s.record.value.candidate, s.record.value.generation)
  {
    InvStays(policy, EMPTY, s);
  }

  // ---------------------------------------------------------------------------------------
  // What is frozen stays frozen

  /** Everything that is durable in `s` is still so in `t`. */
  ghost predicate Keeps(s: State, t: State) {
    && s.nextGeneration <= t.nextGeneration
    && s.writes <= t.writes && s.committed <= t.committed && s.stored <= t.stored
    && (s.record.Some? && t.record.Some? && s.record.value.generation == t.record.value.generation ==>
          && t.record.value.candidate == s.record.value.candidate
          && t.record.value.payload == s.record.value.payload
          && (s.record.value.coreResult.Some? ==> t.record.value.coreResult == s.record.value.coreResult)
          && (s.record.value.response.Some? ==> t.record.value.response == s.record.value.response)
          && (s.record.value.rejected ==> t.record.value.rejected))
    && (t.record.Some? && (s.record.None? || s.record.value.generation != t.record.value.generation) ==>
          t.record.value.generation >= s.nextGeneration)
  }

  lemma KeepsStep(s: State, e: Event)
    requires Inv(s) && Enabled(s, e)
    ensures Keeps(s, Apply(s, e))
  {
  }

  lemma KeepsThrough(s: State, t: State, u: State)
    requires Inv(s) && Keeps(s, t) && Keeps(t, u)
    ensures Keeps(s, u)
  {
  }

  /**
   A later state of any run keeps the frozen payload, the stored Core result and the stored
   response of a generation, and a record of another generation is a newly minted one.
   */
  lemma FrozenForGood(policy: Policy, s: State, t: State)
    requires Inv(s) && Runs.Leads(Steps(policy), s, t)
    ensures Keeps(s, t)
  {
    hide Inv, Keeps, Allowed, Apply, Enabled;
    forall x, y | Inv(x) && Steps(policy)(x, y)
      ensures Inv(y) && Keeps(x, y)
    {
      var e := StepOf(policy, x, y);
      InvStep(x, e);
      KeepsStep(x, e);
    }
    forall x ensures Keeps(x, x) { KeepsItself(x); }
    forall x, y, z | Inv(x) && Keeps(x, y) && Keeps(y, z) ensures Keeps(x, z) { KeepsThrough(x, y, z); }
    Runs.Related(Steps(policy), Inv, Keeps, s, t);
  }

  lemma KeepsItself(s: State)
    ensures Keeps(s, s)
  {
  }

  /**
   A generation gives way to another record, or to none, only after its own record was answered
   or rejected: on every run there is a state in between in which it was.
   */
  lemma ReplacedOnlyWhenTerminal(policy: Policy, s: State, t: State) returns (u: State)
    requires Inv(s) && Runs.Leads(Steps(policy), s, t)
    requires s.record.Some? && (t.record.None? || t.record.value.generation != s.record.value.generation)
    ensures Runs.Leads(Steps(policy), s, u) && Runs.Leads(Steps(policy), u, t)
    ensures u.record.Some? && u.record.value.generation == s.record.value.generation && Terminal(u.record.value)
  {
    hide Inv, Allowed, Apply, Enabled;
    var next;
    u, next := Runs.Crossing(Steps(policy), (x: State) => x.record.Some? && x.record.value.generation == s.record.value.generation, s, t);
    InvStays(policy, s, u);
    var e := StepOf(policy, u, next);
    LeavesWhenTerminal(u, e);
    Runs.Stays(Steps(policy), u);
    Runs.Then(Steps(policy), u, u, next);
    Runs.Through(Steps(policy), u, next, t);
  }

  lemma LeavesWhenTerminal(s: State, e: Event)
    requires Inv(s) && Enabled(s, e) && s.record.Some?
    requires Apply(s, e).record.None? || Apply(s, e).record.value.generation != s.record.value.generation
    ensures Terminal(s.record.value)
  {
  }

  // ---------------------------------------------------------------------------------------
  // What is forgotten of what Core has executed

  /** The record still stands for the payload: it can be asked for again. */
  predicate Current(s: State, p: Payload) {
    s.record.Some? && p.generation == s.record.value.generation && !s.record.value.rejected
  }

  /** Core has executed these, no record stands for them and no result was ever stored. */
  ghost function Forgotten(s: State): set<Payload> {
    set p | p in s.committed && !Current(s, p) && p.generation !in s.stored
  }

  ghost predicate StoredInv(s: State) {
    s.record.Some? && s.record.value.coreResult.Some? ==> s.record.value.generation in s.stored
  }

  /** What the send mark says about the writes, and a refusal about what Core has executed. */
  ghost predicate SentInv(s: State) {
    && StoredInv(s)
    && (s.record.Some? && !s.record.value.sent ==> forall i :: 0 <= i < |s.writes| ==> s.writes[i].generation != s.record.value.generation)
    && (s.call.Some? && s.record.Some? ==>
          && (s.call.value.phase.Marked? ==> s.record.value.sent)
          && (s.call.value.phase.Replied? && s.call.value.minted && Definitive(s.call.value.phase.reply) ==>
                s.record.value.payload !in s.committed))
  }

  lemma SentStep(s: State, e: Event)
    requires Inv(s) && SentInv(s) && Enabled(s, e)
    ensures SentInv(Apply(s, e))
  {
    match e
    case Write(reply, commits) =>
      assert forall i :: 0 <= i < |s.writes| ==> s.writes[i].generation != s.record.value.generation;
    case Freeze(_) | MarkSent | Reconcile(_) | StoreResult | StoreRefusal =>
    case RecordRevision | StoreResponse | Stop | Inspect | Abandon | Prune | Ledger(_) =>
  }

  lemma SentStays(policy: Policy, s: State)
    requires Reachable(policy, s)
    ensures Inv(s) && SentInv(s)
  {
    hide Inv, SentInv, Allowed, Apply, Enabled;
    var inv := (x: State) => Inv(x) && SentInv(x);
    forall x, y | inv(x) && Steps(policy)(x, y)
      ensures inv(y)
    {
      var e := StepOf(policy, x, y);
      InvStep(x, e);
      SentStep(x, e);
    }
    EmptyIsSound();
    Runs.Preserved(Steps(policy), inv, EMPTY, s);
  }

  lemma EmptyIsSound()
    ensures Inv(EMPTY) && SentInv(EMPTY) && Forgotten(EMPTY) == {}
  {
  }

  predicate Closes(e: Event) {
    e.Abandon? || e.StoreRefusal?
  }

  /** The closed record's payload was executed and no result of it is stored. */
  predicate LosesItsPayload(s: State)
    requires s.record.Some?
  {
    s.record.value.payload in s.committed && s.record.value.generation !in s.stored
  }

  /**
   Exactly what each step forgets: a closing forgets the payload of the closed record if that was
   executed and its result not stored; nothing else ever adds to or takes from what is forgotten.
   */
  lemma ForgottenByClosing(policy: Policy, s: State, e: Event)
    requires Reachable(policy, s) && Enabled(s, e)
    ensures Forgotten(Apply(s, e)) ==
            Forgotten(s) + if Closes(e) && LosesItsPayload(s) then {s.record.value.payload} else {}
  {
    SentStays(policy, s);
    if Closes(e) { ClosingForgets(s, e); } else { OthersForgetNothing(s, e); }
  }

  lemma ClosingForgets(s: State, e: Event)
    requires Inv(s) && StoredInv(s) && Enabled(s, e) && Closes(e)
    ensures Forgotten(Apply(s, e)) == Forgotten(s) + if LosesItsPayload(s) then {s.record.value.payload} else {}
  {
    var t := Apply(s, e);
    forall p | p in s.committed && p.generation == s.record.value.generation
      ensures p == s.record.value.payload
    {
      assert p in s.writes;
    }
    assert forall p :: p in Forgotten(t) <==>
      p in s.committed && (!Current(s, p) || p.generation == s.record.value.generation) && p.generation !in s.stored;
  }

  lemma OthersForgetNothing(s: State, e: Event)
    requires Inv(s) && StoredInv(s) && Enabled(s, e) && !Closes(e)
    ensures Forgotten(Apply(s, e)) == Forgotten(s)
  {
    var t := Apply(s, e);
    forall p | p in s.committed
      ensures p in Forgotten(t) <==> p in Forgotten(s)
    {
      assert p in s.writes && p.generation < s.nextGeneration;
      StaysForgotten(s, e, p);
    }
    forall p | p in t.committed && p !in s.committed
      ensures p !in Forgotten(t)
    {
      NewIsCurrent(s, e, p);
    }
  }

  lemma StaysForgotten(s: State, e: Event, p: Payload)
    requires Inv(s) && StoredInv(s) && Enabled(s, e) && !Closes(e) && p in s.committed && p.generation < s.nextGeneration
    ensures p in Forgotten(Apply(s, e)) <==> p in Forgotten(s)
  {
  }

  lemma NewIsCurrent(s: State, e: Event, p: Payload)
    requires Inv(s) && Enabled(s, e) && p !in s.committed && p in Apply(s, e).committed
    ensures Current(Apply(s, e), p)
  {
  }

  /** While no unresolved record is closed, nothing Core has executed is forgotten. */
  lemma {:induction false} NothingForgotten(s: State)
    requires Reachable(Careful, s)
    ensures Forgotten(s) == {}
  {
    hide Inv, SentInv, Allowed, Apply, Enabled, Forgotten;
    var inv := (x: State) => Reachable(Careful, x) && Forgotten(x) == {};
    forall x, y | inv(x) && Steps(Careful)(x, y)
      ensures inv(y)
    {
      var e := StepOf(Careful, x, y);
      Then(Careful, EMPTY, x, e);
      CarefulForgetsNothing(x, e);
    }
    EmptyIsSound();
    Runs.Stays(Steps(Careful), EMPTY);
    Runs.Preserved(Steps(Careful), inv, EMPTY, s);
  }

  lemma CarefulForgetsNothing(s: State, e: Event)
    requires Reachable(Careful, s) && Allowed(Careful, s, e) && Forgotten(s) == {}
    ensures Forgotten(Apply(s, e)) == {}
  {
    hide Forgotten;
    SentStays(Careful, s);
    ForgottenByClosing(Careful, s, e);
    if Closes(e) { HarmlessClosing(s, e); }
  }

  lemma HarmlessClosing(s: State, e: Event)
    requires Inv(s) && SentInv(s) && Allowed(Careful, s, e) && Closes(e)
    ensures !LosesItsPayload(s)
  {
    assert s.record.value.payload in s.committed ==> s.record.value.payload in s.writes;
  }

  /** Whatever is forgotten was so since its own record, marked as sent, was closed without a result. */
  lemma LostByClosing(s: State, p: Payload) returns (u: State, e: Event)
    requires Reachable(Any, s) && p in Forgotten(s)
    ensures Reachable(Any, u) && Enabled(u, e) && Runs.Leads(Steps(Any), Apply(u, e), s)
    ensures Closes(e) && ClosesUnresolved(u, e) && LosesItsPayload(u) && u.record.value.payload == p
  {
    hide Inv, SentInv, Apply, Enabled, Forgotten, Allowed, ClosesUnresolved;
    EmptyIsSound();
    var v;
    u, v := Runs.Crossing(Steps(Any), (x: State) => p !in Forgotten(x), EMPTY, s);
    e := StepOf(Any, u, v);
    SentStays(Any, u);
    ForgottenByClosing(Any, u, e);
    LosingIsUnresolved(u, e);
  }

  lemma LosingIsUnresolved(s: State, e: Event)
    requires Inv(s) && SentInv(s) && Enabled(s, e) && Closes(e) && LosesItsPayload(s)
    ensures ClosesUnresolved(s, e)
  {
    assert s.record.value.payload in s.writes;
  }

  lemma Then(policy: Policy, s: State, t: State, e: Event)
    requires Runs.Leads(Steps(policy), s, t) && Allowed(policy, t, e)
    ensures Runs.Leads(Steps(policy), s, Apply(t, e))
  {
    hide Apply, Enabled;
    Runs.Then(Steps(policy), s, t, Apply(t, e));
  }

  // ---------------------------------------------------------------------------------------
  // When closing a record is safe, as far as record and call tell

  const CANDIDATE := Candidate(None, false, 0)

  /** Records given up before they were sent leave nothing but a higher next generation. */
  lemma {:induction false} ManyAbandoned(n: nat)
    ensures Reachable(Careful, EMPTY.(nextGeneration := n))
  {
    if n == 0 {
      assert EMPTY == EMPTY.(nextGeneration := 0);
      Runs.Stays(Steps(Careful), EMPTY);
    } else {
      ManyAbandoned(n - 1);
      var s0 := EMPTY.(nextGeneration := n - 1);
      var frozen := Record(CANDIDATE, n - 1, Payload(CANDIDATE, n - 1), false, None, false, None);
      var s1 := s0.(record := Some(frozen), nextGeneration := n, call := Some(Call(true, false, Frozen)));
      Then(Careful, EMPTY, s0, Freeze(CANDIDATE));
      Then(Careful, EMPTY, s1, Stop);
      Then(Careful, EMPTY, s1.(call := None), Abandon);
      Then(Careful, EMPTY, s1.(call := None, record := Some(frozen.(rejected := true))), Prune);
    }
  }

  /** A first write under generation `n` that was executed but whose answer was lost. */
  function Ambiguous(candidate: Candidate, n: Generation): State {
    EMPTY.(record := Some(Record(candidate, n, Payload(candidate, n), true, None, false, None)),
           nextGeneration := n + 1, writes := [Payload(candidate, n)], committed := {Payload(candidate, n)})
  }

  lemma AmbiguousIsReachable(candidate: Candidate, n: Generation)
    ensures Reachable(Careful, Ambiguous(candidate, n))
  {
    ManyAbandoned(n);
    var s0 := EMPTY.(nextGeneration := n);
    var frozen := Record(candidate, n, Payload(candidate, n), false, None, false, None);
    var s1 := s0.(record := Some(frozen), nextGeneration := n + 1, call := Some(Call(true, false, Frozen)));
    var s2 := s1.(record := Some(frozen.(sent := true)), call := Some(Call(true, false, Marked)));
    var s3 := Ambiguous(candidate, n).(call := Some(Call(true, false, Replied(Silent))));
    Then(Careful, EMPTY, s0, Freeze(candidate));
    assert Apply(s0, Freeze(candidate)) == s1;
    Then(Careful, EMPTY, s1, MarkSent);
    assert Apply(s1, MarkSent) == s2;
    Then(Careful, EMPTY, s2, Write(Silent, true));
    assert s2.writes + [Payload(candidate, n)] == [Payload(candidate, n)];
    assert Apply(s2, Write(Silent, true)) == s3;
    Then(Careful, EMPTY, s3, Stop);
    assert Apply(s3, Stop) == Ambiguous(candidate, n);
  }

  lemma RefusedIsReachable(candidate: Candidate, n: Generation, reply: Reply)
    requires Definitive(reply)
    ensures Reachable(Careful, Ambiguous(candidate, n).(call := Some(Call(false, false, Replied(reply)))))
  {
    var s := Ambiguous(candidate, n);
    AmbiguousIsReachable(candidate, n);
    Then(Careful, EMPTY, s, Freeze(candidate));
    Then(Careful, EMPTY, s.(call := Some(Call(false, false, Frozen))), Reconcile(reply));
  }

  /** Two states that neither the operator nor the call can tell apart. */
  ghost predicate LooksLike(s: State, u: State) {
    u.record == s.record && u.call == s.call
  }

  /**
   Closing a record can be told to be safe from the record and the call alone exactly if it is
   not unresolved: otherwise some run that closed no unresolved record before ends in a state
   that looks the same, and in which the closing forgets an executed write.
   */
  lemma ClosingIsSafeIff(s: State, e: Event)
    requires Reachable(Careful, s) && Enabled(s, e) && Closes(e)
    ensures (forall u :: Reachable(Careful, u) && LooksLike(s, u) ==> Enabled(u, e) && Forgotten(Apply(u, e)) == {})
            <==> !ClosesUnresolved(s, e)
  {
    hide Inv, Forgotten;
    if ClosesUnresolved(s, e) {
      var u := Indistinguishable(s, e);
    } else {
      forall u | Reachable(Careful, u) && LooksLike(s, u)
        ensures Enabled(u, e) && Forgotten(Apply(u, e)) == {}
      {
        NothingForgotten(u);
        CarefulForgetsNothing(u, e);
      }
    }
  }

  lemma Indistinguishable(s: State, e: Event) returns (u: State)
    requires Reachable(Careful, s) && Enabled(s, e) && Closes(e) && ClosesUnresolved(s, e)
    ensures Reachable(Careful, u) && LooksLike(s, u) && Enabled(u, e) && Forgotten(Apply(u, e)) != {}
  {
    hide Forgotten;
    SentStays(Careful, s);
    var r := s.record.value;
    u := Ambiguous(r.candidate, r.generation).(call := s.call);
    assert u.record == s.record;
    if e.Abandon? {
      AmbiguousIsReachable(r.candidate, r.generation);
    } else {
      RefusedIsReachable(r.candidate, r.generation, s.call.value.phase.reply);
    }
    ForgottenByClosing(Careful, u, e);
    assert r.payload in Forgotten(Apply(u, e));
  }

  /** A closed record opens the artifact again: the same candidate is executed a second time. */
  lemma ExecutedTwice(refused: bool) returns (s: State)
    ensures Reachable(Any, s) && Forgotten(s) == {Payload(CANDIDATE, 0)}
    ensures {Payload(CANDIDATE, 0), Payload(CANDIDATE, 1)} <= s.committed && s.stored == {}
  {
    var s0 := Ambiguous(CANDIDATE, 0);
    var closed := s0.(record := Some(s0.record.value.(rejected := true)));
    AmbiguousIsReachable(CANDIDATE, 0);
    AlsoAnyRun(EMPTY, s0);
    if refused {
      var asked := s0.(call := Some(Call(false, false, Replied(Refused(401)))));
      RefusedIsReachable(CANDIDATE, 0, Refused(401));
      AlsoAnyRun(EMPTY, asked);
      Then(Any, EMPTY, asked, StoreRefusal);
    } else {
      Then(Any, EMPTY, s0, Abandon);
    }
    var s1 := Apply(closed, Freeze(CANDIDATE));
    var s2 := Apply(s1, MarkSent);
    Then(Any, EMPTY, closed, Freeze(CANDIDATE));
    Then(Any, EMPTY, s1, MarkSent);
    Then(Any, EMPTY, s2, Write(Silent, true));
    s := Apply(s2, Write(Silent, true));
  }

  lemma AlsoAnyRun(s: State, t: State)
    requires Runs.Leads(Steps(Careful), s, t)
    ensures Runs.Leads(Steps(Any), s, t)
  {
    hide Apply, Enabled, Runs.Leads;
    forall a, b | Steps(Careful)(a, b)
      ensures Steps(Any)(a, b)
    {
      var e := StepOf(Careful, a, b);
      assert Allowed(Any, a, e);
    }
    Runs.Wider(Steps(Careful), Steps(Any), s, t);
  }
}
