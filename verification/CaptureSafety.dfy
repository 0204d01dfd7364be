/** What the capture store of CaptureStore guarantees over all runs. */
module CaptureSafety {
  import opened CaptureStore
  import opened Common
  import M = CaptureMerge
  import Runs

  // ---------------------------------------------------------------------------------------
  // Each durable write keeps the invariant

  lemma EmptyIndexAgrees(files: map<Key, Stored>, markers: map<Key, int>)
    ensures Agrees(files, markers, Index({}, map[], {}))
  {
  }

  lemma RebuildAgrees(s: State, index: Index, account: string)
    requires Agrees(s.files, Shown(s), index) && EarlyInv(s)
    ensures Agrees(s.files, Shown(s.(early := Others(s.early, account))), Rebuilt(s, index, account))
    ensures !NeedsRebuild(Rebuilt(s, index, account), account)
  {
    var rebuilt, shown := Rebuilt(s, index, account), Shown(s.(early := Others(s.early, account)));
    forall k: Key | k.account in rebuilt.known && k !in rebuilt.dirty
      ensures RowAgrees(s.files, shown, rebuilt.rows, k)
    {
      if k.account != account {
        assert k.account in index.known && k !in index.dirty;
        assert RowAgrees(s.files, Shown(s), index.rows, k);
      }
    }
  }

  /** One key's file, marker, row or dirty mark changes: the key itself is dirty or agrees afterwards. */
  lemma OneKeyChanges(files: map<Key, Stored>, markers: map<Key, int>, index: Index,
                      newFiles: map<Key, Stored>, newMarkers: map<Key, int>, newIndex: Index, key: Key)
    requires Agrees(files, markers, index)
    requires newFiles - {key} == files - {key} && newMarkers - {key} == markers - {key}
    requires newIndex.rows - {key} == index.rows - {key} && newIndex.dirty - {key} == index.dirty - {key}
    requires newIndex.known == index.known && key.account in index.known
    requires key in newIndex.dirty || RowAgrees(newFiles, newMarkers, newIndex.rows, key)
    ensures Agrees(newFiles, newMarkers, newIndex)
  {
    forall k: Key | k.account in newIndex.known && k !in newIndex.dirty
      ensures RowAgrees(newFiles, newMarkers, newIndex.rows, k)
    {
      if k != key {
        assert k in files - {key} <==> k in newFiles - {key};
        assert k in markers - {key} <==> k in newMarkers - {key};
        assert k in index.rows - {key} <==> k in newIndex.rows - {key};
        assert k in index.dirty - {key} <==> k in newIndex.dirty - {key};
        if k in files { assert (files - {key})[k] == (newFiles - {key})[k]; }
        if k in index.rows { assert (index.rows - {key})[k] == (newIndex.rows - {key})[k]; }
        assert RowAgrees(files, markers, index.rows, k);
      }
    }
    forall k | k in newIndex.dirty || k in newIndex.rows
      ensures k.account in newIndex.known
    {
      if k != key {
        assert k in newIndex.dirty ==> k in index.dirty - {key} by { assert k in newIndex.dirty ==> k in newIndex.dirty - {key}; }
        assert k in newIndex.rows ==> k in index.rows - {key} by { assert k in newIndex.rows ==> k in newIndex.rows - {key}; }
      }
    }
  }

  lemma BeginStep(s: State, job: Job)
    requires Inv(s) && Enabled(s, Begin(job))
    ensures Inv(Apply(s, Begin(job)))
  {
    hide Agrees, FilesInv, IntentsInv, AttemptsInv, SentInv, AccountsToRecover;
    EmptyIndexAgrees(s.files, Shown(s));
  }

  lemma EnsureStep(s: State, account: string)
    requires Inv(s) && Enabled(s, Ensure(account))
    ensures Inv(Apply(s, Ensure(account)))
  {
    hide Agrees, FilesInv, IntentsInv, AttemptsInv, SentInv, Rebuilt;
    RebuildAgrees(s, s.index.value, account);
  }

  lemma CleanAccountAgrees(s: State, key: Key)
    requires Inv(s) && s.index.Some? && !NeedsRebuild(s.index.value, key.account)
    ensures RowAgrees(s.files, Shown(s), s.index.value.rows, key)
    ensures key.account in s.index.value.known && key !in s.index.value.dirty
  {
    hide FilesInv, IntentsInv, AttemptsInv, SentInv, HolderInv, RowAgrees;
    assert key.account in s.index.value.known;
    assert key !in s.index.value.dirty;
  }

  lemma KeepRowStep(s: State)
    requires Inv(s) && Enabled(s, KeepRow)
    ensures Inv(Apply(s, KeepRow))
  {
    hide PlanStore, Agrees, FilesInv, IntentsInv, AttemptsInv, SentInv, NeedsRebuild, Entry;
    var key := s.holder.value.job.key;
    CleanAccountAgrees(s, key);
    var t := Apply(s, KeepRow);
    assert t.index.value.known == s.index.value.known;
    assert Shown(t) - {key} == Shown(s) - {key};
    OneKeyChanges(s.files, Shown(s), s.index.value, t.files, Shown(t), t.index.value, key);
  }

  lemma PlanMayPut(s: State, key: Key, incoming: Stored)
    requires FilesInv(s.files) && IntentsInv(s.files, s.intents)
    requires KeyOf(incoming) == key && PlanStore(s, key, incoming).Change?
    ensures MayPut(s, key, PlanStore(s, key, incoming).stored)
  {
  }

  lemma DirtyStep(s: State)
    requires Inv(s) && Enabled(s, Dirty)
    ensures Inv(Apply(s, Dirty))
  {
    hide PlanStore, Agrees, FilesInv, IntentsInv, AttemptsInv, SentInv, MayPut, RowAgrees, KeyOf;
    var job := s.holder.value.job;
    CleanAccountAgrees(s, job.key);
    if job.Store? {
      PlanMayPut(s, job.key, job.incoming);
      MayPutFrame(s, Apply(s, Dirty), job.key, PlanStore(s, job.key, job.incoming).stored);
    }
    var t := Apply(s, Dirty);
    OneKeyChanges(s.files, Shown(s), s.index.value, t.files, Shown(t), t.index.value, job.key) by {
      assert t.index.value.dirty - {job.key} == s.index.value.dirty - {job.key};
    }
  }

  lemma MayPutFrame(s: State, t: State, key: Key, stored: Stored)
    requires MayPut(s, key, stored) && t.files == s.files && t.markers == s.markers && t.intents == s.intents
    ensures MayPut(t, key, stored)
  {
  }

  /** Putting an event that nothing forbids leaves every frozen event as it was. */
  lemma PutFreezes(s: State, key: Key, stored: Stored)
    requires FilesInv(s.files) && IntentsInv(s.files, s.intents) && MayPut(s, key, stored)
    requires AttemptsInv(s.files, s.intents, s.markers, s.attempts) && SentInv(s.files, s.intents, s.markers, s.sent)
    ensures var files := s.files[key := stored];
      && FilesInv(files) && IntentsInv(files, s.intents)
      && AttemptsInv(files, s.intents, s.markers, s.attempts) && SentInv(files, s.intents, s.markers, s.sent)
  {
    assert key in s.intents ==> s.files[key := stored] == s.files;
  }

  lemma StoreStep(s: State)
    requires Inv(s) && Enabled(s, Put) && s.holder.value.job.Store?
    ensures Inv(Apply(s, Put))
  {
    hide PlanStore, Agrees, FilesInv, IntentsInv, AttemptsInv, SentInv, KeyOf;
    var key := s.holder.value.job.key;
    var stored := s.holder.value.phase.stored;
    var t := Apply(s, Put);
    PutFreezes(s, key, stored);
    StillDirty(s, key);
    OneKeyChanges(s.files, Shown(s), s.index.value, t.files, Shown(t), t.index.value, key);
  }

  lemma StillDirty(s: State, key: Key)
    requires s.index.Some? && Agrees(s.files, Shown(s), s.index.value) && OnlyDirty(s.index.value, key)
    ensures key.account in s.index.value.known && key in s.index.value.dirty
  {
  }

  lemma MarkFreezes(s: State, key: Key, now: int)
    requires AttemptsInv(s.files, s.intents, s.markers, s.attempts) && SentInv(s.files, s.intents, s.markers, s.sent)
    ensures var markers := s.markers[key := now];
      && AttemptsInv(s.files, s.intents, markers, s.attempts) && SentInv(s.files, s.intents, markers, s.sent)
  {
  }

  lemma MarkStep(s: State)
    requires Inv(s) && Enabled(s, Put) && s.holder.value.job.Mark?
    ensures Inv(Apply(s, Put))
  {
    hide PlanStore, Agrees, FilesInv, IntentsInv, AttemptsInv, SentInv, KeyOf;
    var key := s.holder.value.job.key;
    var t := Apply(s, Put);
    MarkFreezes(s, key, s.holder.value.job.now);
    StillDirty(s, key);
    OneKeyChanges(s.files, Shown(s), s.index.value, t.files, Shown(t), t.index.value, key);
  }

  lemma WriteRowStep(s: State)
    requires Inv(s) && Enabled(s, WriteRow)
    ensures Inv(Apply(s, WriteRow))
  {
    hide Apply, HolderInv, PlanStore, Agrees, FilesInv, IntentsInv, AttemptsInv, SentInv, RowAgrees, Shown, EarlyInv;
    RowWritten(s);
    var t := Apply(s, WriteRow);
    OneKeyChanges(s.files, Shown(s), s.index.value, t.files, Shown(t), t.index.value, s.holder.value.job.key);
  }

  lemma RowWritten(s: State)
    requires Inv(s) && Enabled(s, WriteRow)
    ensures var t := Apply(s, WriteRow); var key := s.holder.value.job.key;
      && t == s.(index := t.index, early := t.early, holder := t.holder, uncheckpointed := t.uncheckpointed)
      && t.index.Some? && t.holder.Some? && HolderInv(t, t.holder.value) && EarlyInv(t)
      && Shown(t) - {key} == Shown(s) - {key} && RowAgrees(t.files, Shown(t), t.index.value.rows, key)
      && t.index.value.rows - {key} == s.index.value.rows - {key} && t.index.value.dirty == s.index.value.dirty
      && t.index.value.known == s.index.value.known && key.account in s.index.value.known
  {
    hide PlanStore, Agrees, FilesInv, IntentsInv, AttemptsInv, SentInv, KeyOf, NeedsRebuild, Rebuilt, AccountsToRecover, AttemptMatches, NeedsIntent, WritesCore;
    StillDirty(s, s.holder.value.job.key);
  }

  lemma CleanStep(s: State)
    requires Inv(s) && Enabled(s, Clean)
    ensures Inv(Apply(s, Clean))
  {
    hide PlanStore, Agrees, FilesInv, IntentsInv, AttemptsInv, SentInv, KeyOf, RowAgrees;
    var key := s.holder.value.job.key;
    var t := Apply(s, Clean);
    StillDirty(s, key);
    OneKeyChanges(s.files, Shown(s), s.index.value, t.files, Shown(t), t.index.value, key);
  }

  lemma IntentFreezes(s: State, key: Key, intent: Intent)
    requires FilesInv(s.files) && IntentsInv(s.files, s.intents)
    requires key in s.files && s.files[key].event.status == M.Complete
    requires intent == Empty || intent == Whole(s.files[key])
    requires AttemptsInv(s.files, s.intents, s.markers, s.attempts) && SentInv(s.files, s.intents, s.markers, s.sent)
    ensures var intents := s.intents[key := intent];
      && IntentsInv(s.files, intents)
      && AttemptsInv(s.files, intents, s.markers, s.attempts) && SentInv(s.files, intents, s.markers, s.sent)
  {
  }

  lemma IntentStep(s: State, e: Event)
    requires Inv(s) && Enabled(s, e) && (e.CreateIntent? || e.FillIntent? || e.KeepIntent?)
    ensures Inv(Apply(s, e))
  {
    hide PlanStore, Agrees, FilesInv, AttemptsInv, SentInv, KeyOf, RowAgrees, ChangeInv;
    var key := s.holder.value.job.key;
    if e.CreateIntent? {
      IntentFreezes(s, key, Empty);
    } else if e.FillIntent? {
      IntentFreezes(s, key, Whole(s.files[key]));
    }
  }

  lemma FinishStep(s: State)
    requires Inv(s) && Enabled(s, Finish)
    ensures Inv(Apply(s, Finish))
  {
    hide PlanStore, Agrees, FilesInv, IntentsInv, SentInv, ChangeInv;
  }

  lemma CoreStep(s: State, e: Event)
    requires Inv(s) && Enabled(s, e) && (e.Send? || e.Drop? || e.Stop?)
    ensures Inv(Apply(s, e))
  {
    hide PlanStore, Agrees, FilesInv, IntentsInv, ChangeInv;
    var t := Apply(s, e);
    if e.Send? {
      forall i | 0 <= i < |t.sent|
        ensures t.sent[i].0 in t.files && t.files[t.sent[i].0] == t.sent[i].1 && Frozen(t.intents, t.markers, t.sent[i].0)
      {
        assert i < |s.sent| ==> t.sent[i] == s.sent[i];
      }
    }
    if s.holder.Some? && t.holder.Some? { HolderFrame(s, t, s.holder.value); }
  }

  lemma HolderFrame(s: State, t: State, h: Holder)
    requires HolderInv(s, h)
    requires t.files == s.files && t.markers == s.markers && t.intents == s.intents && t.index == s.index && t.early == s.early
    ensures HolderInv(t, h)
  {
    hide RowAgrees, NeedsRebuild, OnlyDirty, Entry;
  }

  lemma InvStep(s: State, e: Event)
    requires Inv(s) && Enabled(s, e)
    ensures Inv(Apply(s, e))
  {
    hide Inv, Apply;
    assert Enabled(s, e);
    match e
    case Begin(job) => BeginStep(s, job);
    case Ensure(account) => EnsureStep(s, account);
    case KeepRow => KeepRowStep(s);
    case Dirty => DirtyStep(s);
    case Put => if s.holder.value.job.Store? { StoreStep(s); } else { MarkStep(s); }
    case WriteRow => WriteRowStep(s);
    case Clean => CleanStep(s);
    case CreateIntent | FillIntent | KeepIntent => IntentStep(s, e);
    case Finish => FinishStep(s);
    case Stop | Send(_) | Drop(_) => CoreStep(s, e);
  }

  lemma StepOf(s: State, t: State) returns (e: Event)
    requires Steps(s, t)
    ensures Enabled(s, e) && t == Apply(s, e)
  {
    hide Apply;
    e :| Enabled(s, e) && t == Apply(s, e);
  }

  lemma InvStays(s: State, t: State)
    requires Inv(s) && Runs.Leads(Steps, s, t)
    ensures Inv(t)
  {
    hide Inv, Apply, Enabled;
    forall x, y | Inv(x) && Steps(x, y)
      ensures Inv(y)
    {
      var e := StepOf(x, y);
      InvStep(x, e);
    }
    Runs.Preserved(Steps, Inv, s, t);
  }

  // ---------------------------------------------------------------------------------------
  // Readers

  /** A read-only scan of one account's event files and markers. */
  function Scan(s: State, account: string): map<Key, Row> {
    map k | k in s.files && k.account == account :: Entry(s.files[k], k in s.markers)
  }

  /** The row repeats what the event says. */
  predicate RowSays(row: Row, e: M.Event) {
    && row.conversation == e.conversation && row.continuity == e.continuity && row.timestamp == e.timestamp && row.status == e.status
    && (row.projectHint.Some? <==> M.ProjectHint in e.fields) && (row.projectHint.Some? ==> row.projectHint.value == e.fields[M.ProjectHint])
  }

  lemma ScanSays(s: State, account: string)
    ensures forall k :: k in Scan(s, account) <==> k in s.files && k.account == account
    ensures forall k :: k in Scan(s, account) ==> RowSays(Scan(s, account)[k], s.files[k].event) && (Scan(s, account)[k].ingested <==> k in s.markers)
  {
  }

  /** What the rows of a clean index show: the scan, but for the ingested flags of events stored after their marker. */
  function ShownRows(s: State, account: string): map<Key, Row> {
    map k | k in s.files && k.account == account :: Entry(s.files[k], k in Shown(s))
  }

  /** It is the scan exactly if the account has no such event; otherwise it differs in their ingested flags only. */
  lemma ShownIsScanIff(s: State, account: string)
    requires EarlyInv(s)
    ensures ShownRows(s, account) == Scan(s, account) <==> forall k :: k in s.early ==> k.account != account
    ensures ShownRows(s, account).Keys == Scan(s, account).Keys
    ensures forall k :: k in Scan(s, account) ==>
      ShownRows(s, account)[k] == Scan(s, account)[k].(ingested := k in s.markers && k !in s.early)
  {
    forall k | k in s.early && k.account == account
      ensures k in Scan(s, account) && ShownRows(s, account)[k] != Scan(s, account)[k]
    {
    }
  }

  predicate HasFiles(s: State, account: string) {
    exists k :: k in s.files && k.account == account
  }

  datatype ReadResult = Refused | Rows(rows: map<Key, Row>)

  /**
   withReadonlyCaptureIndex for one account, whose three looks at the disk may be separated by
   writes: `first` finds the index and its known accounts, `second` lists the account's files,
   `third` is the checkpointed image that is queried.
   */
  function Read(first: State, second: State, third: State, account: string): ReadResult {
    if first.index.None? then
      if HasFiles(second, account) then Refused else Rows(map[])
    else if first.uncheckpointed || (account !in first.index.value.known && HasFiles(second, account)) then Refused
    else if third.index.None? || third.uncheckpointed || exists k :: k in third.index.value.dirty && k.account == account
      then Refused
    else Rows(map k | k in third.index.value.rows && k.account == account :: third.index.value.rows[k])
  }

  /**
   When a reader is refused: the first look finds writes not checkpointed yet, or events of an account
   the index does not know, or no index but events; or by the query the index is gone, not checkpointed
   or dirty for the account.
   */
  lemma ReaderIsRefusedIff(first: State, second: State, third: State, account: string)
    ensures var files := exists k :: k in second.files && k.account == account;
      Read(first, second, third, account).Refused? <==>
        || (files && (first.index.None? || account !in first.index.value.known))
        || (first.index.Some?
            && (first.uncheckpointed || third.uncheckpointed || third.index.None? || exists k :: k in third.index.value.dirty && k.account == account))
  {
  }

  /** Files of an account only come into being while the account is known to the index. */
  ghost predicate KnownOrEmpty(s: State, account: string) {
    HasFiles(s, account) ==> s.index.Some? && account in s.index.value.known
  }

  lemma KnownOrEmptyStep(s: State, e: Event, account: string)
    requires Inv(s) && Enabled(s, e)
    ensures KnownOrEmpty(s, account) ==> KnownOrEmpty(Apply(s, e), account)
    ensures s.index.Some? && account in s.index.value.known ==>
      Apply(s, e).index.Some? && account in Apply(s, e).index.value.known
    ensures s.index.Some? ==> Apply(s, e).index.Some?
  {
    hide Inv, Apply, Enabled;
    if e.Put? {
      PutKnown(s, account);
    } else {
      KnownStays(s, e, account);
    }
  }

  /** Writing a file marks its account known: it was marked dirty before. */
  lemma PutKnown(s: State, account: string)
    requires Inv(s) && Enabled(s, Put)
    ensures KnownOrEmpty(s, account) ==> KnownOrEmpty(Apply(s, Put), account)
    ensures Apply(s, Put).index == s.index && s.index.Some?
  {
    hide PlanStore, FilesInv, IntentsInv, AttemptsInv, SentInv, RowAgrees, Entry, KeyOf;
    var key := s.holder.value.job.key;
    StillDirty(s, key);
    assert Apply(s, Put).files.Keys <= s.files.Keys + {key};
  }

  lemma KnownStays(s: State, e: Event, account: string)
    requires Enabled(s, e) && !e.Put?
    ensures KnownOrEmpty(s, account) ==> KnownOrEmpty(Apply(s, e), account)
    ensures s.index.Some? && account in s.index.value.known ==>
      Apply(s, e).index.Some? && account in Apply(s, e).index.value.known
    ensures s.index.Some? ==> Apply(s, e).index.Some?
  {
    hide PlanStore, Entry, KeyOf, AccountsToRecover, NeedsRebuild;
  }

  /** What a reader relies on between its looks at the index. */
  ghost predicate KnowsMore(account: string, s: State, t: State) {
    && (KnownOrEmpty(s, account) ==> KnownOrEmpty(t, account))
    && (s.index.Some? && account in s.index.value.known ==> t.index.Some? && account in t.index.value.known)
    && (s.index.Some? ==> t.index.Some?)
  }

  lemma KnowsMoreLater(s: State, t: State, account: string)
    requires Inv(s) && Runs.Leads(Steps, s, t)
    ensures KnowsMore(account, s, t)
  {
    hide Inv, Apply, Enabled, KnownOrEmpty;
    var more := (x: State, y: State) => KnowsMore(account, x, y);
    forall x, y | Inv(x) && Steps(x, y)
      ensures Inv(y) && more(x, y)
    {
      var e := StepOf(x, y);
      InvStep(x, e);
      KnownOrEmptyStep(x, e, account);
    }
    Runs.Related(Steps, Inv, more, s, t);
  }

  lemma CleanRowsAreShown(s: State, account: string)
    requires s.index.Some? && Agrees(s.files, Shown(s), s.index.value)
    requires forall k :: k in s.index.value.dirty ==> k.account != account
    requires account in s.index.value.known || !HasFiles(s, account)
    ensures (map k | k in s.index.value.rows && k.account == account :: s.index.value.rows[k]) == ShownRows(s, account)
  {
    forall k: Key | k.account == account
      ensures k in s.index.value.rows <==> k in s.files
      ensures k in s.files ==> s.index.value.rows[k] == Entry(s.files[k], k in Shown(s))
    {
      if account in s.index.value.known {
        assert RowAgrees(s.files, Shown(s), s.index.value.rows, k);
      }
    }
  }

  /** The moment a reader's answer is about. */
  function Moment(first: State, second: State, third: State): State {
    if first.index.None? then second else third
  }

  /**
   A reader is refused, or gets at the moment of its query exactly the account's files, each with the
   row that a scan of files and markers gives, whatever mutators do or whenever they crash in between;
   only an event that was stored after its marker may still be shown as not ingested.
   */
  lemma ReaderSeesScan(first: State, second: State, third: State, account: string)
    requires Inv(first) && Runs.Leads(Steps, first, second) && Runs.Leads(Steps, second, third)
    ensures var r, moment := Read(first, second, third, account), Moment(first, second, third);
      r.Rows? ==>
        && r.rows.Keys == Scan(moment, account).Keys
        && (forall k :: k in r.rows ==> r.rows[k] == Scan(moment, account)[k].(ingested := k in moment.markers && k !in moment.early))
        && (r.rows == Scan(moment, account) <==> forall k :: k in moment.early ==> k.account != account)
  {
    hide RowAgrees, Apply, Enabled, Entry;
    InvStays(first, second);
    InvStays(second, third);
    KnowsMoreLater(first, second, account);
    KnowsMoreLater(second, third, account);
    var moment := Moment(first, second, third);
    if Read(first, second, third, account).Rows? {
      ShownIsScanIff(moment, account);
      if first.index.Some? {
        if account !in third.index.value.known {
          assert account !in first.index.value.known;
          assert !HasFiles(second, account);
          assert KnownOrEmpty(second, account);
        }
        CleanRowsAreShown(third, account);
      } else {
        assert ShownRows(second, account) == map[];
      }
    }
  }

  /** So what a reader gets repeats the account's events of that moment, one row for each. */
  lemma ReaderSeesEvents(first: State, second: State, third: State, account: string)
    requires Inv(first) && Runs.Leads(Steps, first, second) && Runs.Leads(Steps, second, third)
    ensures var r, moment := Read(first, second, third, account), Moment(first, second, third);
      r.Rows? ==>
        && (forall k :: k in r.rows <==> k in moment.files && k.account == account)
        && (forall k :: k in r.rows ==>
              RowSays(r.rows[k], moment.files[k].event) && (r.rows[k].ingested <==> k in moment.markers && k !in moment.early))
  {
    hide Inv, Read, Moment, Scan, Entry;
    ReaderSeesScan(first, second, third, account);
    ScanSays(Moment(first, second, third), account);
  }

  // ---------------------------------------------------------------------------------------
  // Recovery

  /** A recovery still has to look at every account that is unknown or dirty. */
  ghost predicate RecoveryCovers(s: State) {
    s.holder.Some? && s.holder.value.job.Recover? ==>
      && s.index.Some?
      && (forall k :: k in s.files && NeedsRebuild(s.index.value, k.account) ==> k.account in s.holder.value.todo)
      && (forall k :: k in s.index.value.dirty ==> k.account in s.holder.value.todo)
  }

  lemma RecoveryStep(s: State, e: Event)
    requires Inv(s) && Enabled(s, e) && RecoveryCovers(s)
    ensures RecoveryCovers(Apply(s, e))
  {
    hide PlanStore, Agrees, FilesInv, IntentsInv, AttemptsInv, SentInv, RowAgrees, Entry, KeyOf, ChangeInv;
    match e
    case Begin(job) =>
      if s.index.Some? && job.Recover? {
        assert forall k :: k in s.index.value.dirty ==> k.account in AccountsToRecover(s);
      }
    case _ =>
  }

  lemma RecoveryRun(s: State, t: State)
    requires Inv(s) && RecoveryCovers(s) && Runs.Leads(Steps, s, t)
    ensures Inv(t) && RecoveryCovers(t)
  {
    hide Inv, Apply, Enabled, RecoveryCovers;
    var inv := (x: State) => Inv(x) && RecoveryCovers(x);
    forall x, y | inv(x) && Steps(x, y)
      ensures inv(y)
    {
      var e := StepOf(x, y);
      InvStep(x, e);
      RecoveryStep(x, e);
    }
    Runs.Preserved(Steps, inv, s, t);
  }

  /** Checkpointed, nothing dirty, every account with files known, and the rows are what the index shows of all files. */
  ghost predicate CleanIndex(s: State) {
    && s.index.Some? && !s.uncheckpointed && s.index.value.dirty == {}
    && (forall k :: k in s.files ==> k.account in s.index.value.known)
    && s.index.value.rows == map k | k in s.files :: Entry(s.files[k], k in Shown(s))
  }

  /**
   A recovery that runs to its end leaves a clean index that agrees with the files, but for events that
   were stored after their marker: it does not rebuild an account that is clean.
   */
  lemma RecoveryRestores(s: State)
    requires Inv(s) && RecoveryCovers(s) && Enabled(s, Finish) && s.holder.value.job.Recover?
    requires s.holder.value.todo == {}
    ensures CleanIndex(Apply(s, Finish))
  {
    hide FilesInv, IntentsInv, AttemptsInv, SentInv, RowAgrees, Entry, ChangeInv, NeedsRebuild;
    var t := Apply(s, Finish);
    assert s.index.value.dirty == {};
    assert forall k :: k in s.files ==> !NeedsRebuild(s.index.value, k.account);
    assert forall k :: k in s.files ==> k.account in s.index.value.known by {
      forall k | k in s.files ensures k.account in s.index.value.known { NotNeeded(s.index.value, k.account); }
    }
    AllRowsAgree(s);
  }

  lemma NotNeeded(index: Index, account: string)
    requires !NeedsRebuild(index, account)
    ensures account in index.known
  {
  }

  lemma AllRowsAgree(s: State)
    requires s.index.Some? && Agrees(s.files, Shown(s), s.index.value) && s.index.value.dirty == {}
    requires forall k :: k in s.files ==> k.account in s.index.value.known
    ensures s.index.value.rows == map k | k in s.files :: Entry(s.files[k], k in Shown(s))
  {
    forall k: Key
      ensures k in s.index.value.rows <==> k in s.files
      ensures k in s.files ==> s.index.value.rows[k] == Entry(s.files[k], k in Shown(s))
    {
      if k in s.files || k in s.index.value.rows {
        assert RowAgrees(s.files, Shown(s), s.index.value.rows, k);
      }
    }
  }

  // ---------------------------------------------------------------------------------------
  // Frozen payloads

  /** An intent or a marker freezes the stored event, and a marker keeps its timestamp. */
  ghost predicate Keeps(s: State, t: State) {
    && (forall k :: k in s.intents ==> k in t.intents)
    && (forall k :: k in s.markers ==> k in t.markers && t.markers[k] == s.markers[k])
    && (forall k :: k in s.files ==> k in t.files)
    && (forall k :: k in s.files && Frozen(s.intents, s.markers, k) ==> t.files[k] == s.files[k])
    && s.sent <= t.sent
  }

  lemma KeepsStep(s: State, e: Event)
    requires Inv(s) && Enabled(s, e)
    ensures Keeps(s, Apply(s, e))
  {
    hide Inv, Apply, Enabled, Keeps;
    if e.Put? {
      PutKeeps(s);
    } else {
      OthersKeep(s, e);
      SameFilesKeep(s, Apply(s, e));
    }
  }

  lemma PutKeeps(s: State)
    requires Inv(s) && Enabled(s, Put)
    ensures Keeps(s, Apply(s, Put))
  {
    hide PlanStore, Agrees, AttemptsInv, SentInv, RowAgrees, Entry, KeyOf, NeedsRebuild, Rebuilt, OnlyDirty, AccountsToRecover, AttemptMatches, NeedsIntent, WritesCore, WithRow;
  }

  /** Files, markers and sends are kept, and no intent disappears. */
  ghost predicate SameFiles(s: State, t: State) {
    t.files == s.files && t.markers == s.markers && s.intents.Keys <= t.intents.Keys && s.sent <= t.sent
  }

  /** Only Put changes files and markers; intents are only created or filled. */
  lemma OthersKeep(s: State, e: Event)
    requires Enabled(s, e) && !e.Put?
    ensures SameFiles(s, Apply(s, e))
  {
    hide Apply, Enabled, SameFiles;
    if e.Begin? || e.Ensure? || e.KeepRow? {
      EnteringKeeps(s, e);
    } else if e.Dirty? {
      DirtyKeeps(s);
    } else if e.WriteRow? {
      WriteRowKeeps(s);
    } else if e.Clean? {
      CleanKeeps(s);
    } else {
      EndingKeeps(s, e);
    }
  }

  lemma EnteringKeeps(s: State, e: Event)
    requires Enabled(s, e) && (e.Begin? || e.Ensure? || e.KeepRow?)
    ensures SameFiles(s, Apply(s, e))
  {
    hide PlanStore, Entry, KeyOf, NeedsRebuild, Rebuilt, AccountsToRecover;
  }

  lemma DirtyKeeps(s: State)
    requires Enabled(s, Dirty)
    ensures SameFiles(s, Apply(s, Dirty))
  {
    hide PlanStore;
  }

  lemma WriteRowKeeps(s: State)
    requires Enabled(s, WriteRow)
    ensures SameFiles(s, Apply(s, WriteRow))
  {
    hide Entry, KeyOf, PlanStore, WithRow;
    var job := s.holder.value.job;
    if job.Store? {
      WithRowFrame(s, job.key, Entry(s.holder.value.phase.stored, job.key in s.index.value.rows && s.index.value.rows[job.key].ingested));
    } else if job.key in s.index.value.rows {
      WithRowFrame(s, job.key, s.index.value.rows[job.key].(ingested := true));
    }
  }

  lemma WithRowFrame(s: State, key: Key, row: Row)
    requires s.index.Some?
    ensures var t := WithRow(s, key, row);
      t.files == s.files && t.markers == s.markers && t.intents == s.intents && t.sent == s.sent && t.holder == s.holder
  {
  }

  lemma CleanKeeps(s: State)
    requires Enabled(s, Clean)
    ensures SameFiles(s, Apply(s, Clean))
  {
  }

  lemma EndingKeeps(s: State, e: Event)
    requires Enabled(s, e) && !(e.Begin? || e.Ensure? || e.KeepRow? || e.Dirty? || e.WriteRow? || e.Clean? || e.Put?)
    ensures SameFiles(s, Apply(s, e))
  {
    hide PlanStore, Entry, KeyOf, NeedsRebuild, Rebuilt, AccountsToRecover, WritesCore;
  }

  lemma SameFilesKeep(s: State, t: State)
    requires SameFiles(s, t)
    ensures Keeps(s, t)
  {
    assert forall k :: k in s.intents ==> k in s.intents.Keys;
  }

  /**
   Over any run from a state in order: once an intent or a marker exists the stored event never
   changes, markers keep their timestamps, and nothing that was stored disappears.
   */
  lemma FrozenForGood(s: State, t: State)
    requires Inv(s) && Runs.Leads(Steps, s, t)
    ensures Keeps(s, t)
  {
    hide Inv, Apply, Enabled, Frozen, Keeps;
    forall x, y | Inv(x) && Steps(x, y)
      ensures Inv(y) && Keeps(x, y)
    {
      var e := StepOf(x, y);
      InvStep(x, e);
      KeepsStep(x, e);
    }
    forall x
      ensures Keeps(x, x)
    {
      SameFilesKeep(x, x);
    }
    forall x, y, z | Inv(x) && Keeps(x, y) && Keeps(y, z)
      ensures Keeps(x, z)
    {
      KeepsThrough(x, y, z);
    }
    Runs.Related(Steps, Inv, Keeps, s, t);
  }

  lemma KeepsThrough(s: State, t: State, u: State)
    requires Keeps(s, t) && Keeps(t, u)
    ensures Keeps(s, u)
  {
  }

  /** In every reachable state, all Core writes for one event carried the same stored event. */
  lemma {:induction false} CoreSeesOnePayload(s: State, i: nat, j: nat)
    requires Reachable(s) && i < |s.sent| && j < |s.sent| && s.sent[i].0 == s.sent[j].0
    ensures s.sent[i].0 in s.files && s.sent[i].1 == s.sent[j].1 == s.files[s.sent[i].0]
    ensures s.sent[i].0 in s.intents && s.intents[s.sent[i].0].Whole? ==> s.intents[s.sent[i].0].payload == s.sent[i].1
  {
    ReachableInv(s);
  }

  /** Only finished turns with both texts are ever sent to Core. */
  lemma {:induction false} OnlyTurnsAreSent(s: State, i: nat)
    requires Reachable(s) && i < |s.sent|
    ensures var e := s.sent[i].1.event; e.status == M.Complete && M.UserText in e.fields && M.AssistantText in e.fields
  {
    hide Apply, Enabled;
    var start :| Init(start) && Runs.Leads(Steps, start, s);
    forall x, y | AllTurns(x) && Steps(x, y)
      ensures AllTurns(y)
    {
      var e := StepOf(x, y);
      TurnsStep(x, e);
    }
    Runs.Preserved(Steps, AllTurns, start, s);
    assert IsTurn(s.sent[i].1.event);
  }

  predicate IsTurn(e: M.Event) {
    e.status == M.Complete && M.UserText in e.fields && M.AssistantText in e.fields
  }

  ghost predicate AllTurns(s: State) {
    forall i :: 0 <= i < |s.sent| ==> IsTurn(s.sent[i].1.event)
  }

  lemma TurnsStep(s: State, e: Event)
    requires AllTurns(s) && Enabled(s, e)
    ensures AllTurns(Apply(s, e))
  {
    hide PlanStore, Entry, KeyOf, NeedsRebuild, Rebuilt, AccountsToRecover, WithRow, FullyExcluded;
    var t := Apply(s, e);
    if e.Send? {
      assert t.sent == s.sent + [(e.key, s.attempts[e.key])];
    } else {
      assert t.sent == s.sent;
    }
  }

  // ---------------------------------------------------------------------------------------
  // Markers that come before their event

  /** The account's index is known, clean and checkpointed, and nobody holds the lock. */
  ghost predicate Settled(s: State, account: string) {
    s.index.Some? && !s.uncheckpointed && s.holder.None? && !NeedsRebuild(s.index.value, account)
  }

  /** A clean index that disagrees with the files about one event. */
  ghost predicate Lies(s: State, key: Key) {
    Settled(s, key.account) && !RowAgrees(s.files, s.markers, s.index.value.rows, key)
  }

  /** In every reachable state a clean index lies exactly about the events that were stored after their marker. */
  lemma LiesIff(s: State, key: Key)
    requires Inv(s) && Settled(s, key.account)
    ensures Lies(s, key) <==> key in s.early
    ensures Lies(s, key) ==> key in s.files && key in s.index.value.rows && s.index.value.rows[key] == Entry(s.files[key], false)
  {
    hide Agrees, FilesInv, IntentsInv, AttemptsInv, SentInv, HolderInv, NeedsRebuild;
    CleanAccountAgrees(s, key);
  }

  lemma Then(r: State, s: State, e: Event)
    requires Runs.Leads(Steps, r, s) && Enabled(s, e)
    ensures Runs.Leads(Steps, r, Apply(s, e))
  {
    hide Apply, Enabled;
    Runs.Then(Steps, r, s, Apply(s, e));
  }

  /** A step that stores no event after its marker. */
  ghost predicate Quiet(s: State, t: State) {
    Steps(s, t) && t.early <= s.early
  }

  lemma QuietThen(r: State, s: State, e: Event)
    requires Runs.Leads(Quiet, r, s) && Enabled(s, e) && Apply(s, e).early <= s.early
    ensures Runs.Leads(Quiet, r, Apply(s, e))
  {
    hide Apply, Enabled;
    Runs.Then(Quiet, r, s, Apply(s, e));
  }

  lemma OnlyKeyWasDirty(s: State)
    requires Inv(s) && Enabled(s, Clean)
    ensures !NeedsRebuild(Apply(s, Clean).index.value, s.holder.value.job.key.account)
  {
    hide RowAgrees, FilesInv, IntentsInv, AttemptsInv, SentInv;
    StillDirty(s, s.holder.value.job.key);
  }

  /** The change goes on undisturbed: a new event's row says that it is not ingested. */
  lemma MarkedIsStored(s: State) returns (t: State)
    requires Inv(s) && Enabled(s, Put) && s.holder.value.job.Store? && s.holder.value.job.key in s.markers
    ensures Runs.Leads(Quiet, Apply(s, Put), t) && Runs.Leads(Steps, Apply(s, Put), t) && Lies(t, s.holder.value.job.key)
  {
    hide Inv, Runs.Leads, Steps, Quiet, Entry, WithRow, Lies;
    var key := s.holder.value.job.key;
    var s1 := Apply(s, Put);
    var s2 := Apply(s1, WriteRow);
    var s3 := Apply(s2, Clean);
    t := Apply(s3, Finish);
    InvStep(s, Put);
    InvStep(s1, WriteRow);
    InvStep(s2, Clean);
    InvStep(s3, Finish);
    Runs.Stays(Quiet, s1);
    QuietThen(s1, s1, WriteRow);
    QuietThen(s1, s2, Clean);
    QuietThen(s1, s3, Finish);
    AlsoAnyRun(s1, t);
    OnlyKeyWasDirty(s2);
    LiesIff(t, key);
  }

  lemma AlsoAnyRun(s: State, t: State)
    requires Runs.Leads(Quiet, s, t)
    ensures Runs.Leads(Steps, s, t)
  {
    Runs.Wider(Quiet, Steps, s, t);
  }

  /**
   In every reachable state in which a change is about to write its file or marker: a clean index that
   lies about its event, if none does already, becomes possible without storing any other event after
   its marker if and only if the change stores an event that was marked before.
   */
  lemma StoringMarkedLiesIff(s: State)
    requires Reachable(s) && Enabled(s, Put) && s.holder.value.job.key !in s.early
    ensures var job := s.holder.value.job;
      (exists t :: Runs.Leads(Quiet, Apply(s, Put), t) && Lies(t, job.key)) <==> job.Store? && job.key in s.markers
  {
    hide Inv, Lies, Runs.Leads, Steps, Quiet, PlanStore;
    var job := s.holder.value.job;
    ReachableInv(s);
    if job.Store? && job.key in s.markers {
      var t := MarkedIsStored(s);
    } else {
      InvStep(s, Put);
      forall t | Runs.Leads(Quiet, Apply(s, Put), t)
        ensures !Lies(t, job.key)
      {
        StaysHonest(Apply(s, Put), t, job.key);
      }
    }
  }

  lemma StaysHonest(s: State, t: State, key: Key)
    requires Inv(s) && key !in s.early && Runs.Leads(Quiet, s, t)
    ensures !Lies(t, key)
  {
    hide Inv, Apply, Enabled, RowAgrees;
    var inv := (x: State) => Inv(x) && key !in x.early;
    forall x, y | inv(x) && Quiet(x, y)
      ensures inv(y)
    {
      var e := StepOf(x, y);
      InvStep(x, e);
    }
    Runs.Preserved(Quiet, inv, s, t);
    if Lies(t, key) { LiesIff(t, key); }
  }

  lemma ReachableInv(s: State)
    requires Reachable(s)
    ensures Inv(s)
  {
    hide Inv, Apply, Enabled;
    var start :| Init(start) && Runs.Leads(Steps, start, s);
    InitIsSound(start);
    InvStays(start, s);
  }

  lemma InitIsSound(s: State)
    requires Init(s)
    ensures Inv(s)
  {
  }

  const STRAY := Key("a", "e")

  const TURN := Stored("a", "h", 0, M.Event("e", "h", "c", "c", "t", map[], map[], M.Open, None))

  const START := State(map[], map[], map[], None, false, None, map[], [], {})

  /** The marker of an event that was never stored. */
  function Marked(): State {
    START.(markers := map[STRAY := 0], index := Some(Index({"a"}, map[], {})))
  }

  function Marking(phase: Phase): State {
    START.(index := Some(Index({"a"}, map[], if phase.Ensured? || phase.Finishing? then {} else {STRAY})),
           markers := if phase.Written? || phase.Rowed? || phase.Finishing? then map[STRAY := 0] else map[],
           uncheckpointed := true, holder := Some(Holder(Mark(STRAY, 0), phase, {})))
  }

  ghost predicate FromStart(s: State) {
    Runs.Leads(Steps, START, s)
  }

  lemma MarkingIsReachable()
    ensures FromStart(Marking(Ensured))
  {
    hide PlanStore, Entry;
    var s1 := START.(index := Some(Index({}, map[], {})), uncheckpointed := true, holder := Some(Holder(Mark(STRAY, 0), Entered, {})));
    Runs.Stays(Steps, START);
    Then(START, START, Begin(Mark(STRAY, 0)));
    assert Apply(START, Begin(Mark(STRAY, 0))) == s1;
    var rebuilt := Rebuilt(s1, s1.index.value, "a");
    assert rebuilt.known == {"a"} && rebuilt.rows == map[] && rebuilt.dirty == {};
    Then(START, s1, Ensure("a"));
    assert Apply(s1, Ensure("a")) == Marking(Ensured);
  }

  lemma MarkerIsWritten()
    ensures FromStart(Marking(Written(BLANK)))
  {
    hide PlanStore, Entry, Rebuilt;
    MarkingIsReachable();
    Then(START, Marking(Ensured), Dirty);
    assert {} + {STRAY} == {STRAY};
    assert Apply(Marking(Ensured), Dirty) == Marking(Dirtied(BLANK));
    Then(START, Marking(Dirtied(BLANK)), Put);
    assert Apply(Marking(Dirtied(BLANK)), Put) == Marking(Written(BLANK));
  }

  lemma MarkedIsReachable()
    ensures FromStart(Marked())
  {
    hide PlanStore, Entry, Rebuilt;
    MarkerIsWritten();
    Then(START, Marking(Written(BLANK)), WriteRow);
    assert Apply(Marking(Written(BLANK)), WriteRow) == Marking(Rowed);
    Then(START, Marking(Rowed), Clean);
    assert {STRAY} - {STRAY} == {};
    assert Apply(Marking(Rowed), Clean) == Marking(Finishing);
    Then(START, Marking(Finishing), Finish);
    assert Apply(Marking(Finishing), Finish) == Marked();
  }

  lemma PlansNewEvent(s: State)
    requires STRAY !in s.files
    ensures PlanStore(s, STRAY, TURN) == Change(TURN)
  {
  }

  /** Storing that event later gives a clean index that calls it not ingested. */
  lemma StrayMarkerLies() returns (s: State)
    ensures Reachable(s) && Lies(s, STRAY)
  {
    hide PlanStore, Entry, Rebuilt, Lies;
    MarkedIsReachable();
    var job := Store(STRAY, TURN);
    var s1 := Marked().(holder := Some(Holder(job, Entered, {})));
    var s2 := Marked().(holder := Some(Holder(job, Ensured, {})));
    PlansNewEvent(s2);
    Then(START, Marked(), Begin(job));
    assert Apply(Marked(), Begin(job)) == s1;
    Then(START, s1, Ensure("a"));
    assert Apply(s1, Ensure("a")) == s2;
    Then(START, s2, Dirty);
    var s3 := Apply(s2, Dirty);
    Then(START, s3, Put);
    InitIsSound(START);
    InvStays(START, s3);
    s := MarkedIsStored(s3);
    Runs.Through(Steps, START, Apply(s3, Put), s);
    assert Init(START);
  }
}
