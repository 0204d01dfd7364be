/**
 storeCaptureEvent, markCaptureIngested, withCaptureIngestAttempt and recoverCaptureIndex as
 programs over the capture store.  Every durable write is one action of the CaptureStore machine
 and the process may be cut off before any of them.
 */
module CaptureProgram {
  import opened Common
  import opened CaptureStore
  import opened CaptureSafety
  import Runs
  import M = CaptureMerge

  datatype Outcome = Created | Updated | Unchanged | Rejected | CutOff

  datatype Ingestion = Ingested | AlreadyIngested | NotComplete | Failed | Cut

  /** The parts of the state the decision to store depends on. */
  ghost predicate SameCaptures(s: State, t: State) {
    t.files == s.files && t.markers == s.markers && t.intents == s.intents
  }

  lemma EarlyIsStored(s: State, key: Key)
    requires Inv(s)
    ensures key in s.early ==> key in s.files
  {
    hide FilesInv, IntentsInv, Agrees, HolderInv, AttemptsInv, SentInv;
  }

  lemma SamePlan(s: State, t: State, key: Key, incoming: Stored)
    requires SameCaptures(s, t)
    ensures PlanStore(t, key, incoming) == PlanStore(s, key, incoming)
  {
  }

  /** Once an account is settled a reader is not refused, and what it gets is the account's scan unless an event was stored after its marker. */
  lemma SettledReads(s: State, account: string)
    requires Inv(s) && Settled(s, account)
    ensures Read(s, s, s, account).Rows?
    ensures Read(s, s, s, account).rows == Scan(s, account) <==> forall k :: k in s.early ==> k.account != account
  {
    hide HolderInv, Agrees, RowAgrees;
    Runs.Stays(Steps, s);
    ReaderSeesScan(s, s, s, account);
  }

  /** A complete event without both texts that is not excluded from memory. */
  predicate LacksText(e: M.Event) {
    && e.status == M.Complete && !(M.UserText in e.fields && M.AssistantText in e.fields)
    && !(e.provenance.Some? && "memhub_privacy" in e.provenance.value && e.provenance.value["memhub_privacy"] == "fully_excluded")
  }

  /** An ingestion has been attempted with another payload, or may have been. */
  predicate AttemptedOtherwise(s: State, key: Key, stored: Stored) {
    key in s.intents && s.intents[key] != Whole(stored)
  }

  /**
   Why a delivery is refused: a new event lacks text; a known one is of another actor or in conflict, or
   would change although it is marked, was attempted otherwise, or would lack text; or it would not
   change but was attempted otherwise.
   */
  predicate Refuses(s: State, key: Key, incoming: Stored) {
    if key !in s.files then LacksText(incoming.event)
    else
      var existing := s.files[key];
      var merged := M.Merged(existing.event, incoming.event);
      || incoming.actor != existing.actor || !M.Compatible(existing.event, incoming.event)
      || (if M.SameContent(merged, existing.event) then AttemptedOtherwise(s, key, existing)
          else key in s.markers || LacksText(merged) || AttemptedOtherwise(s, key, existing.(event := merged)))
  }

  lemma RejectsIff(s: State, key: Key, incoming: Stored)
    ensures PlanStore(s, key, incoming).Reject? <==> Refuses(s, key, incoming)
    ensures PlanStore(s, key, incoming).Keep? ==> key in s.files && M.SameContent(M.Merged(s.files[key].event, incoming.event), s.files[key].event)
  {
    hide M.Merged, M.Compatible, M.SameContent;
  }

  class CaptureDirectory {
    var state: State
    var budget: nat                            // durable actions left before the process is cut off

    constructor (start: State, budget: nat)
      requires Init(start)
      ensures state == start && this.budget == budget && Inv(state)
    {
      state := start;
      this.budget := budget;
    }

    ghost predicate Idle()
      reads this
    {
      Inv(state) && state.holder.None?
    }

    /** Takes one durable action of the machine, or is cut off before it. */
    method Act(e: Event) returns (alive: bool)
      requires Inv(state) && Enabled(state, e)
      modifies this
      ensures Inv(state) && Runs.Leads(Steps, old(state), state)
      ensures state == if alive then Apply(old(state), e) else old(state).(holder := None)
      ensures !alive ==> budget == 0
    {
      hide Inv, Apply, Steps, Runs.Leads, Enabled;
      Runs.Stays(Steps, state);
      if budget == 0 {
        if state.holder.Some? {
          StopClears(state);
          InvStep(state, Stop);
          Then(state, state, Stop);
          state := Apply(state, Stop);
        }
        return false;
      }
      budget := budget - 1;
      InvStep(state, e);
      Then(state, state, e);
      state := Apply(state, e);
      return true;
    }

    /** Takes the lock and makes sure the account's index is known and clean. */
    method Enter(job: Job) returns (alive: bool)
      requires Idle() && Enabled(state, Begin(job)) && !job.Recover?
      modifies this
      ensures Inv(state) && Runs.Leads(Steps, old(state), state) && SameCaptures(old(state), state)
      ensures state.attempts == old(state.attempts) && state.sent == old(state.sent)
      ensures alive ==> Busy(state, Ensured) && state.holder.value.job == job
      ensures !alive ==> state.holder.None?
      ensures !alive ==> budget == 0
    {
      hide Inv, Steps, Runs.Leads, Rebuilt, PlanStore;
      alive := Act(Begin(job));
      if !alive { return; }
      ghost var s1 := state;
      alive := Act(Ensure(job.key.account));
      Runs.Through(Steps, old(state), s1, state);
    }

    /** Releases the lock without checkpointing, as an error does. */
    method Throw()
      requires Inv(state) && state.holder.Some?
      modifies this`state
      ensures Idle() && Runs.Leads(Steps, old(state), state) && state == old(state).(holder := None)
    {
      hide Inv, Apply, Steps, Runs.Leads, Enabled;
      StopClears(state);
      InvStep(state, Stop);
      Runs.Stays(Steps, state);
      Then(state, state, Stop);
      state := Apply(state, Stop);
    }

    method Finish() returns (alive: bool)
      requires Inv(state) && Busy(state, Finishing) && Changes(state.holder.value.job)
      modifies this
      ensures Idle() && Runs.Leads(Steps, old(state), state) && SameCaptures(old(state), state)
      ensures alive ==> state == old(state).(uncheckpointed := false, holder := None)
      ensures state.attempts == old(state.attempts) && state.sent == old(state.sent)
      ensures !alive ==> budget == 0
    {
      hide Inv, Steps, Runs.Leads;
      alive := Act(CaptureStore.Event.Finish);
    }

    /** The durable writes of a change: dirty sentinel, file or marker, row, clean, checkpoint. */
    method Change() returns (alive: bool)
      requires Inv(state) && Enabled(state, Dirty)
      modifies this
      ensures Idle() && Runs.Leads(Steps, old(state), state) && state.intents == old(state.intents)
      ensures var job := old(state.holder.value.job);
        var put := if job.Store? then
                     old(state).files[job.key := PlanStore(old(state), job.key, job.incoming).stored]
                   else old(state.files);
        var marked := if job.Mark? && job.key !in old(state.markers) then old(state.markers)[job.key := job.now]
                      else old(state.markers);
        if alive then state.files == put && state.markers == marked && Settled(state, job.key.account)
        else (state.files == put || state.files == old(state.files))
             && (state.markers == marked || state.markers == old(state.markers))
      ensures alive ==>
        (old(state.holder.value.job.key) in state.early <==>
          old(state.holder.value.job).Store? && (old(state.holder.value.job.key) in old(state.early) + old(state.markers).Keys))
      ensures state.attempts == old(state.attempts) && state.sent == old(state.sent)
      ensures !alive ==> budget == 0
    {
      hide Inv, Steps, Runs.Leads, PlanStore, RowAgrees, Entry, NeedsRebuild, WithRow, Rebuilt, AccountsToRecover, KeyOf;
      ghost var s0 := state;
      alive := Act(Dirty);
      if !alive { return; }
      ghost var s1 := state;
      alive := Act(Put);
      Runs.Through(Steps, s0, s1, state);
      if !alive { return; }
      ghost var s2 := state;
      alive := Act(WriteRow);
      Runs.Through(Steps, s0, s2, state);
      if !alive { return; }
      ghost var s3 := state;
      OnlyKeyWasDirty(state);
      alive := Act(Clean);
      Runs.Through(Steps, s0, s3, state);
      if !alive { return; }
      ghost var s4 := state;
      alive := Finish();
      Runs.Through(Steps, s0, s4, state);
    }

    /** Nothing to store: the row is written again. */
    method Rewrite() returns (alive: bool)
      requires Inv(state) && Enabled(state, KeepRow)
      modifies this
      ensures Idle() && Runs.Leads(Steps, old(state), state) && SameCaptures(old(state), state)
      ensures alive ==> Settled(state, old(state.holder.value.job.key.account))
      ensures !alive ==> budget == 0
    {
      hide Inv, Steps, Runs.Leads, NeedsRebuild, PlanStore, Entry;
      ghost var s0 := state;
      KeepsClean(state);
      alive := Act(KeepRow);
      if alive {
        ghost var s1 := state;
        alive := Finish();
        Runs.Through(Steps, s0, s1, state);
      }
    }

    /**
     storeCaptureEvent.  The outcome is the one planned on the stored files, intents and markers;
     the only file that changes is the event's own, and a call that returns leaves the account's
     index readable.  A new event is then shown with the right ingested flag unless it was marked before.
     */
    method StoreCaptureEvent(incoming: Stored) returns (outcome: Outcome)
      requires Idle()
      modifies this
      ensures Idle() && Runs.Leads(Steps, old(state), state)
      ensures outcome.Created? || outcome.Updated? || outcome.Unchanged? ==> Settled(state, incoming.account)
      ensures outcome.Created? ==> (KeyOf(incoming) in state.early <==> KeyOf(incoming) in state.markers)
      ensures state.markers == old(state.markers) && state.intents == old(state.intents)
      ensures var plan := PlanStore(old(state), KeyOf(incoming), incoming);
        match outcome
        case Created => KeyOf(incoming) !in old(state.files) && plan == Plan.Change(incoming)
        case Updated =>
          && KeyOf(incoming) in old(state.files)
          && plan == Plan.Change(old(state).files[KeyOf(incoming)].(
                       event := M.Merged(old(state).files[KeyOf(incoming)].event, incoming.event)))
        case Unchanged => plan == Keep
        case Rejected => plan == Reject
        case CutOff => true
      ensures var plan := PlanStore(old(state), KeyOf(incoming), incoming);
        var put := if plan.Change? then old(state).files[KeyOf(incoming) := plan.stored] else old(state.files);
        state.files == put || (outcome.CutOff? && state.files == old(state.files))
      ensures outcome.CutOff? ==> budget == 0
      ensures !outcome.CutOff? ==> (outcome.Rejected? <==> Refuses(old(state), KeyOf(incoming), incoming))
      ensures outcome.Unchanged? ==>
        && KeyOf(incoming) in old(state.files)
        && M.SameContent(M.Merged(old(state.files[KeyOf(incoming)]).event, incoming.event), old(state.files[KeyOf(incoming)]).event)
    {
      hide Inv, Steps, Runs.Leads, NeedsRebuild, PlanStore, Refuses;
      var key := KeyOf(incoming);
      ghost var s0 := state;
      var alive := Enter(Store(key, incoming));
      if !alive { return CutOff; }
      SamePlan(s0, state, key, incoming);
      PlanShape(s0, key, incoming);
      RejectsIff(s0, key, incoming);
      ghost var s1 := state;
      var plan := PlanStore(state, key, incoming);
      var isNew := key !in state.files;
      EarlyIsStored(state, key);
      match plan
      case Reject =>
        Throw();
        Runs.Through(Steps, s0, s1, state);
        return Rejected;
      case Keep =>
        alive := Rewrite();
        Runs.Through(Steps, s0, s1, state);
        return if alive then Unchanged else CutOff;
      case Change(_) =>
        alive := Change();
        Runs.Through(Steps, s0, s1, state);
        return if !alive then CutOff else if isNew then Created else Updated;
    }

    /** markCaptureIngested for any event: the marker is written once and its time kept. */
    method MarkCaptureIngested(key: Key, now: int) returns (alive: bool)
      requires Idle()
      modifies this
      ensures Idle() && Runs.Leads(Steps, old(state), state)
      ensures state.files == old(state.files) && state.intents == old(state.intents)
      ensures state.attempts == old(state.attempts) && state.sent == old(state.sent)
      ensures key in old(state.markers) ==> state.markers == old(state.markers)
      ensures key !in old(state.markers) ==> state.markers == old(state.markers) || state.markers == old(state.markers)[key := now]
      ensures alive ==> key in state.markers && Settled(state, key.account) && key !in state.early
      ensures !alive ==> budget == 0
    {
      hide Inv, Steps, Runs.Leads, NeedsRebuild, PlanStore;
      ghost var s0 := state;
      alive := Enter(Mark(key, now));
      if !alive { return; }
      ghost var s1 := state;
      alive := Change();
      Runs.Through(Steps, s0, s1, state);
    }

    /** What everybody else does while this process does not hold the lock; attempts on `key` are its own. */
    method Others(key: Key, events: seq<Event>)
      requires Idle()
      modifies this`state
      ensures Idle() && Runs.Leads(Steps, old(state), state)
      ensures key in state.attempts <==> key in old(state.attempts)
      ensures key in state.attempts ==> state.attempts[key] == old(state.attempts[key])
    {
      hide Inv, Steps, Runs.Leads, Apply, Enabled;
      Runs.Stays(Steps, state);
      for i := 0 to |events|
        invariant Inv(state) && Runs.Leads(Steps, old(state), state) && OthersHold(state, key)
        invariant key in state.attempts <==> key in old(state.attempts)
        invariant key in state.attempts ==> state.attempts[key] == old(state.attempts[key])
      {
        var e := events[i];
        if Enabled(state, e) && !Attempts(e, key) {
          InvStep(state, e);
          Then(old(state), state, e);
          AttemptKept(state, e, key);
          state := Apply(state, e);
        }
      }
      if state.holder.Some? {
        StopClears(state);
        InvStep(state, Stop);
        Then(old(state), state, Stop);
        state := Apply(state, Stop);
      }
    }

    /** The first locked part of an attempt: check the event, freeze its payload, take the snapshot. */
    method Freeze(key: Key, expected: Stored) returns (outcome: Option<Ingestion>)
      requires Idle()
      modifies this
      ensures Idle() && Runs.Leads(Steps, old(state), state)
      ensures state.files == old(state.files) && state.markers == old(state.markers) && state.sent == old(state.sent)
      ensures outcome.None? ==>
        && key in state.attempts && state.attempts[key] == expected
        && key in state.files && state.files[key] == expected && key !in state.markers
        && (expected.event.status == M.Complete ==> key in state.intents && state.intents[key] == Whole(expected))
      ensures outcome.Some? ==> outcome.value in {AlreadyIngested, Failed, Cut}
      ensures outcome == Some(AlreadyIngested) ==> key in state.markers
      ensures outcome == Some(Cut) ==> budget == 0
      ensures outcome == Some(Failed) ==>
        || key !in old(state.files) || old(state.files[key]) != expected
        || (expected.event.status == M.Complete && key !in old(state.markers)
            && key in old(state.intents) && old(state.intents[key]) != Whole(expected))
    {
      hide Inv, Steps, Runs.Leads, NeedsRebuild, PlanStore, WritesCore, Entry, KeyOf, WithRow, Rebuilt, AccountsToRecover;
      ghost var s0 := state;
      var alive := Enter(Attempt(key, expected));
      if !alive { return Some(Cut); }
      ghost var s1 := state;
      if !AttemptMatches(state) {
        Throw();
        Runs.Through(Steps, s0, s1, state);
        return Some(Failed);
      }
      var ingested := key in state.markers;
      if NeedsIntent(state) && key !in state.intents {
        alive := Act(CreateIntent);
        Runs.Through(Steps, s0, s1, state);
        if !alive { return Some(Cut); }
        ghost var s2 := state;
        alive := Act(FillIntent);
        Runs.Through(Steps, s0, s2, state);
        if !alive { return Some(Cut); }
      } else {
        if NeedsIntent(state) && state.intents[key] != Whole(expected) {
          Throw();
          Runs.Through(Steps, s0, s1, state);
          return Some(Failed);
        }
        alive := Act(KeepIntent);
        Runs.Through(Steps, s0, s1, state);
        if !alive { return Some(Cut); }
      }
      ghost var s3 := state;
      alive := Act(CaptureStore.Event.Finish);
      Runs.Through(Steps, s0, s3, state);
      return if !alive then Some(Cut) else if ingested then Some(AlreadyIngested) else None;
    }

    /**
     withCaptureIngestAttempt around ingestCaptureIntoMemory.  An ingestion that succeeds sent
     Core exactly the expected stored event, which is still the stored event and now marked.
     */
    method WithCaptureIngestAttempt(key: Key, expected: Stored, before: seq<Event>, accepted: bool, after: seq<Event>, now: int)
      returns (outcome: Ingestion)
      requires Idle()
      modifies this
      ensures Idle() && Runs.Leads(Steps, old(state), state)
      ensures outcome.Ingested? ==>
        && key in state.markers && key in state.files && state.files[key] == expected
        && WritesCore(expected.event) && (key, expected) in state.sent
      ensures outcome.AlreadyIngested? ==> key in state.markers
      ensures outcome.NotComplete? ==> !WritesCore(expected.event)
      ensures outcome.Cut? ==> budget == 0
      ensures outcome.Failed? ==>
        || !accepted || key !in old(state.files) || old(state.files[key]) != expected
        || (expected.event.status == M.Complete && key !in old(state.markers)
            && key in old(state.intents) && old(state.intents[key]) != Whole(expected))
      ensures outcome.Ingested? || outcome.NotComplete? ==>
        (outcome.Ingested? <==> expected.event.status == M.Complete && M.UserText in expected.event.fields && M.AssistantText in expected.event.fields)
    {
      hide Inv, Steps, Runs.Leads, NeedsRebuild, PlanStore;
      ghost var s0 := state;
      var early := Freeze(key, expected);
      if early.Some? { return early.value; }
      ghost var s1 := state;
      Others(key, before);
      Runs.Through(Steps, s0, s1, state);
      ghost var s2 := state;
      if !WritesCore(expected.event) {
        var dropped := Act(Drop(key));
        Runs.Through(Steps, s0, s2, state);
        return NotComplete;
      }
      var alive := Act(Send(key));
      Runs.Through(Steps, s0, s2, state);
      if !alive { return Cut; }
      assert state.sent[|s2.sent|] == (key, expected);
      ghost var s3 := state;
      Others(key, after);
      Runs.Through(Steps, s0, s3, state);
      SentStays(s3, state, key, expected);
      ghost var s4 := state;
      if !accepted {
        alive := Act(Drop(key));
        Runs.Through(Steps, s0, s4, state);
        return if alive then Failed else Cut;
      }
      alive := MarkCaptureIngested(key, now);
      Runs.Through(Steps, s0, s4, state);
      if !alive { return Cut; }
      ghost var s5 := state;
      alive := Act(Drop(key));
      Runs.Through(Steps, s0, s5, state);
      return if alive then Ingested else Cut;
    }

    /** recoverCaptureIndex: from whatever a crash left behind to a clean index that agrees with the files. */
    method RecoverCaptureIndex() returns (alive: bool)
      requires Idle()
      modifies this
      ensures Idle() && Runs.Leads(Steps, old(state), state) && SameCaptures(old(state), state)
      ensures alive ==> CleanIndex(state) || (state.index.None? && state.files == map[])
      ensures !alive ==> budget == 0
    {
      hide Inv, Steps, Runs.Leads, NeedsRebuild, PlanStore, RecoveryCovers, Rebuilt, CleanIndex, AccountsToRecover;
      ghost var s0 := state;
      Runs.Stays(Steps, state);
      if state.index.None? && AccountsToRecover(state) == {} {
        NoAccounts(state);
        return true;
      }
      RecoveryStep(state, Begin(Recover)) by { NobodyRecovers(state); }
      alive := Act(Begin(Recover));
      if !alive { return; }
      while state.holder.value.todo != {}
        invariant Inv(state) && Runs.Leads(Steps, s0, state) && SameCaptures(s0, state) && RecoveryCovers(state)
        invariant state.holder.Some? && state.holder.value.job == Recover && state.holder.value.phase == Entered && state.index.Some?
        decreases state.holder.value.todo
      {
        var account :| account in state.holder.value.todo;
        ghost var s1 := state;
        RecoveryStep(state, Ensure(account));
        alive := Act(Ensure(account));
        Runs.Through(Steps, s0, s1, state);
        if !alive { return; }
      }
      ghost var s2 := state;
      RecoveryRestores(state);
      alive := Act(CaptureStore.Event.Finish);
      Runs.Through(Steps, s0, s2, state);
    }
  }

  /** An event that belongs to an attempt on this key. */
  predicate Attempts(e: Event, key: Key) {
    || (e.Begin? && e.job.Attempt? && e.job.key == key)
    || (e.Drop? && e.key == key)
  }

  predicate OthersHold(s: State, key: Key) {
    s.holder.Some? ==> !(s.holder.value.job.Attempt? && s.holder.value.job.key == key)
  }

  lemma AttemptKept(s: State, e: Event, key: Key)
    requires Enabled(s, e) && !Attempts(e, key) && OthersHold(s, key)
    ensures OthersHold(Apply(s, e), key)
    ensures key in Apply(s, e).attempts <==> key in s.attempts
    ensures key in s.attempts ==> Apply(s, e).attempts[key] == s.attempts[key]
  {
    hide PlanStore, Entry, Rebuilt, AccountsToRecover;
  }

  /** What was sent once stays on record, and its event stays stored. */
  lemma SentStays(s: State, t: State, key: Key, stored: Stored)
    requires Inv(s) && Runs.Leads(Steps, s, t) && (key, stored) in s.sent
    ensures (key, stored) in t.sent && key in t.files && t.files[key] == stored
  {
    hide Apply, Enabled;
    FrozenForGood(s, t);
    InvStays(s, t);
    var i :| 0 <= i < |s.sent| && s.sent[i] == (key, stored);
    assert t.sent[i] == (key, stored);
  }

  lemma NoAccounts(s: State)
    requires AccountsToRecover(s) == {}
    ensures s.files == map[]
  {
    assert forall k :: k in s.files ==> k.account in AccountsToRecover(s);
  }

  lemma NobodyRecovers(s: State)
    requires s.holder.None?
    ensures RecoveryCovers(s)
  {
  }

  lemma StopClears(s: State)
    requires s.holder.Some?
    ensures Enabled(s, Stop) && Apply(s, Stop) == s.(holder := None)
  {
  }

  lemma PlanShape(s: State, key: Key, incoming: Stored)
    ensures var plan := PlanStore(s, key, incoming);
      && (plan == Keep ==> key in s.files)
      && (plan.Change? && key !in s.files ==> plan.stored == incoming)
      && (plan.Change? && key in s.files ==>
            key !in s.markers && plan.stored == s.files[key].(event := M.Merged(s.files[key].event, incoming.event)))
  {
  }

  /** Writing an unchanged row again leaves the clean index as it is. */
  lemma KeepsClean(s: State)
    requires Inv(s) && Enabled(s, KeepRow)
    ensures !NeedsRebuild(Apply(s, KeepRow).index.value, s.holder.value.job.key.account)
  {
    hide RowAgrees, FilesInv, IntentsInv, AttemptsInv, SentInv, PlanStore, Entry;
  }
}
