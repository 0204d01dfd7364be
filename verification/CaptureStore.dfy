/**
 Model of the capture store of src/capture.ts: event files, ingest intents, ingestion markers and
 the rebuildable index with its dirty sentinel, as a machine over durable writes.

 Mutators hold one cross-process lock, so at most one of them is under way; it may crash between
 any two durable writes.  Core attempts go on outside that lock.  Hashes are injective: an intent
 holds the event it was computed from.
 */
module CaptureStore {
  import opened Common
  import Runs
  import M = CaptureMerge

  datatype Key = Key(account: string, event: string)

  datatype Stored = Stored(account: string, actor: string, received: int, event: M.Event)

  /** A capture_index row. */
  datatype Row = Row(
    conversation: string, continuity: string, timestamp: string, projectHint: Option<string>,
    status: M.Status, ingested: bool)

  /** An intent file is created first and filled in a second step. */
  datatype Intent = Empty | Whole(payload: Stored)

  datatype Index = Index(known: set<string>, rows: map<Key, Row>, dirty: set<Key>)

  datatype Job =
    | Store(key: Key, incoming: Stored)
    | Mark(key: Key, now: int)
    | Attempt(key: Key, expected: Stored)
    | Recover

  datatype Phase =
    | Entered                                  // holds the lock
    | Ensured                                  // the account's index is known and clean
    | Dirtied(stored: Stored)                  // the dirty sentinel is durable
    | Written(stored: Stored)                  // the event file or the marker is durable
    | Rowed                                    // the row is durable
    | Intending                                // the empty intent file is durable
    | Finishing                                // about to checkpoint and release

  /** `todo`: the accounts a recovery still has to look at. */
  datatype Holder = Holder(job: Job, phase: Phase, todo: set<string>)

  datatype State = State(
    files: map<Key, Stored>,
    intents: map<Key, Intent>,
    markers: map<Key, int>,
    index: Option<Index>,
    uncheckpointed: bool,
    holder: Option<Holder>,
    attempts: map<Key, Stored>,                // Core attempts under way, with their snapshot
    sent: seq<(Key, Stored)>,                  // history: what was sent to Core for which event
    early: set<Key>)                           // history: events stored after their marker, until a row shows it

  datatype Event =
    | Begin(job: Job)
    | Ensure(account: string)                  // rebuild the account's index if unknown or dirty
    | KeepRow                                  // nothing to store: the row is written again
    | Dirty | Put | WriteRow | Clean           // the four durable writes of a change
    | CreateIntent | FillIntent | KeepIntent
    | Finish
    | Stop                                     // crash, or an error thrown to the caller
    | Send(key: Key) | Drop(key: Key)          // a Core attempt writes, or ends

  const EXCLUDED: string := "memhub_privacy"

  /** captureIsFullyExcludedFromMemory; the privacy summary is one provenance value. */
  predicate FullyExcluded(e: M.Event) {
    EXCLUDED in M.ProvenanceOf(e) && M.ProvenanceOf(e)[EXCLUDED] == "fully_excluded"
  }

  predicate CompleteEnough(e: M.Event) {
    e.status == M.Complete ==> M.HasTexts(e) || FullyExcluded(e)
  }

  /** ingestCaptureIntoMemory writes Core only for a complete turn with both texts. */
  predicate WritesCore(e: M.Event) {
    e.status == M.Complete && M.HasTexts(e)
  }

  function Entry(stored: Stored, ingested: bool): Row {
    var e := stored.event;
    Row(e.conversation, e.continuity, e.timestamp,
        if M.ProjectHint in e.fields then Some(e.fields[M.ProjectHint]) else None, e.status, ingested)
  }

  function KeyOf(stored: Stored): Key {
    Key(stored.account, stored.event.eventId)
  }

  /** What storeCaptureEvent decides once the index is clean. */
  datatype Plan = Reject | Keep | Change(stored: Stored)

  predicate IntentAllows(s: State, key: Key, stored: Stored) {
    key in s.intents ==> s.intents[key] == Whole(stored)
  }

  function PlanStore(s: State, key: Key, incoming: Stored): Plan {
    if key !in s.files then
      if CompleteEnough(incoming.event) then Change(incoming) else Reject
    else
      var existing := s.files[key];
      if existing.actor != incoming.actor || !M.Compatible(existing.event, incoming.event) then Reject
      else
        var merged := M.Merged(existing.event, incoming.event);
        if M.SameContent(merged, existing.event) then
          if IntentAllows(s, key, existing) then Keep else Reject
        else
          var stored := existing.(event := merged);
          if key in s.markers || !CompleteEnough(merged) || !IntentAllows(s, key, stored) then Reject
          else Change(stored)
  }

  function Others(keys: set<Key>, account: string): set<Key> {
    set k | k in keys && k.account != account
  }

  predicate NeedsRebuild(index: Index, account: string) {
    account !in index.known || exists k :: k in index.dirty && k.account == account
  }

  /** rebuildCaptureIndexUnlocked: one transaction from the files and markers. */
  function Rebuilt(s: State, index: Index, account: string): Index {
    Index(index.known + {account},
          (map k | k in index.rows && k.account != account :: index.rows[k])
            + (map k | k in s.files && k.account == account :: Entry(s.files[k], k in s.markers)),
          set k | k in index.dirty && k.account != account)
  }

  /** The accounts recoverCaptureIndex visits: in the index, marked dirty, or found on disk. */
  function AccountsToRecover(s: State): set<string> {
    (if s.index.Some? then s.index.value.known + (set k | k in s.index.value.dirty :: k.account) else {})
      + (set k | k in s.files :: k.account)
  }

  predicate Busy(s: State, phase: Phase) {
    s.holder.Some? && s.index.Some? && s.holder.value.phase == phase
  }

  predicate Enabled(s: State, e: Event) {
    match e
    case Begin(job) =>
      && s.holder.None?
      && (job.Store? ==> KeyOf(job.incoming) == job.key)
      && (job.Recover? ==> s.index.Some? || AccountsToRecover(s) != {})
    case Ensure(account) =>
      && Busy(s, Entered)
      && (if s.holder.value.job.Recover? then account in s.holder.value.todo else account == s.holder.value.job.key.account)
    case KeepRow =>
      && Busy(s, Ensured) && s.holder.value.job.Store?
      && PlanStore(s, s.holder.value.job.key, s.holder.value.job.incoming) == Keep
      && s.holder.value.job.key in s.files
    case Dirty =>
      && Busy(s, Ensured)
      && match s.holder.value.job {
           case Store(key, incoming) => PlanStore(s, key, incoming).Change?
           case Mark(_, _) => true
           case _ => false
         }
    case Put => s.holder.Some? && s.index.Some? && s.holder.value.phase.Dirtied? && Changes(s.holder.value.job)
    case WriteRow => s.holder.Some? && s.index.Some? && s.holder.value.phase.Written? && Changes(s.holder.value.job)
    case Clean => Busy(s, Rowed) && Changes(s.holder.value.job)
    case CreateIntent => AttemptMatches(s) && NeedsIntent(s) && s.holder.value.job.key !in s.intents
    case FillIntent => Busy(s, Intending) && s.holder.value.job.Attempt? && s.holder.value.job.key in s.files
    case KeepIntent =>
      AttemptMatches(s) && (NeedsIntent(s) ==>
        s.holder.value.job.key in s.intents && s.intents[s.holder.value.job.key] == Whole(s.files[s.holder.value.job.key]))
    case Finish =>
      || Busy(s, Finishing)
      || (Busy(s, Entered) && s.holder.value.job.Recover? && s.holder.value.todo == {})
    case Stop => s.holder.Some?
    case Send(key) => key in s.attempts && WritesCore(s.attempts[key].event)
    case Drop(key) => key in s.attempts
  }

  predicate Changes(job: Job) {
    job.Store? || job.Mark?
  }

  predicate AttemptMatches(s: State) {
    && Busy(s, Ensured) && s.holder.value.job.Attempt?
    && s.holder.value.job.key in s.files && s.files[s.holder.value.job.key] == s.holder.value.job.expected
  }

  predicate NeedsIntent(s: State)
    requires AttemptMatches(s)
  {
    && s.holder.value.job.key !in s.markers
    && s.files[s.holder.value.job.key].event.status == M.Complete
  }

  function To(s: State, phase: Phase): Option<Holder>
    requires s.holder.Some?
  {
    Some(s.holder.value.(phase := phase))
  }

  function Apply(s: State, e: Event): State
    requires Enabled(s, e)
  {
    match e
    case Begin(job) =>
      s.(holder := Some(Holder(job, Entered, if job.Recover? then AccountsToRecover(s) else {})),
         index := if s.index.None? then Some(Index({}, map[], {})) else s.index,
         uncheckpointed := s.uncheckpointed || s.index.None?)
    case Ensure(account) =>
      var rebuild := NeedsRebuild(s.index.value, account);
      s.(index := if rebuild then Some(Rebuilt(s, s.index.value, account)) else s.index,
         uncheckpointed := s.uncheckpointed || rebuild,
         early := if rebuild then Others(s.early, account) else s.early,
         holder := if s.holder.value.job.Recover? then Some(s.holder.value.(todo := s.holder.value.todo - {account}))
                   else To(s, Ensured))
    case KeepRow =>
      var key := s.holder.value.job.key;
      WithRow(s, key, Entry(s.files[key], key in s.markers)).(holder := To(s, Finishing), early := s.early - {key})
    case Dirty =>
      var job := s.holder.value.job;
      var stored := if job.Store? then PlanStore(s, job.key, job.incoming).stored
                    else if job.key in s.files then s.files[job.key] else BLANK;
      s.(index := Some(s.index.value.(dirty := s.index.value.dirty + {job.key})), uncheckpointed := true,
         holder := To(s, Dirtied(stored)))
    case Put =>
      var job := s.holder.value.job;
      var stored := s.holder.value.phase.stored;
      match job {
        case Store(key, _) =>
          s.(files := s.files[key := stored], early := if key in s.markers then s.early + {key} else s.early,
             holder := To(s, Written(stored)))
        case Mark(key, now) =>
          s.(markers := if key in s.markers then s.markers else s.markers[key := now], holder := To(s, Written(stored)))
        case _ => s
      }
    case WriteRow =>
      var job := s.holder.value.job;
      match job {
        case Store(key, _) =>
          // A new event is not ingested; a changed one keeps the flag of its row.
          var prior := key in s.index.value.rows && s.index.value.rows[key].ingested;
          WithRow(s, key, Entry(s.holder.value.phase.stored, prior)).(holder := To(s, Rowed))
        case Mark(key, _) =>
          (if key in s.index.value.rows then WithRow(s, key, s.index.value.rows[key].(ingested := true)) else s)
            .(holder := To(s, Rowed), early := s.early - {key})
        case _ => s
      }
    case Clean =>
      s.(index := Some(s.index.value.(dirty := s.index.value.dirty - {s.holder.value.job.key})), uncheckpointed := true,
         holder := To(s, Finishing))
    case CreateIntent =>
      s.(intents := s.intents[s.holder.value.job.key := Empty], holder := To(s, Intending))
    case FillIntent =>
      s.(intents := s.intents[s.holder.value.job.key := Whole(s.files[s.holder.value.job.key])], holder := To(s, Finishing))
    case KeepIntent => s.(holder := To(s, Finishing))
    case Finish =>
      var job := s.holder.value.job;
      s.(uncheckpointed := false, holder := None,
         attempts := if job.Attempt? && job.key in s.files && job.key !in s.markers
                     then s.attempts[job.key := s.files[job.key]] else s.attempts)
    case Stop => s.(holder := None)
    case Send(key) => s.(sent := s.sent + [(key, s.attempts[key])])
    case Drop(key) => s.(attempts := s.attempts - {key})
  }

  const BLANK := Stored("", "", 0, M.Event("", "", "", "", "", map[], map[], M.Open, None))

  function WithRow(s: State, key: Key, row: Row): (r: State)
    requires s.index.Some?
    ensures r.index.Some? && r == s.(index := r.index, uncheckpointed := true)
  {
    s.(index := Some(s.index.value.(rows := s.index.value.rows[key := row], known := s.index.value.known + {key.account})),
       uncheckpointed := true)
  }

  /** One step of the machine. */
  ghost predicate Steps(s: State, t: State) {
    exists e :: Enabled(s, e) && t == Apply(s, e)
  }

  /** A state root as it may be found: files and intents in order, any markers, no index yet. */
  ghost predicate Init(s: State) {
    && s.index.None? && s.holder.None? && s.attempts == map[] && s.sent == [] && s.early == {}
    && FilesInv(s.files) && IntentsInv(s.files, s.intents)
  }

  ghost predicate Reachable(s: State) {
    exists start :: Init(start) && Runs.Leads(Steps, start, s)
  }

  // ---------------------------------------------------------------------------------------
  // Invariant

  ghost predicate FilesInv(files: map<Key, Stored>) {
    forall k :: k in files ==> KeyOf(files[k]) == k
  }

  ghost predicate IntentsInv(files: map<Key, Stored>, intents: map<Key, Intent>) {
    forall k :: k in intents ==>
      && k in files && files[k].event.status == M.Complete
      && (intents[k].Whole? ==> intents[k].payload == files[k])
  }

  /** The markers that the rows take into account: all but those of events stored after them. */
  function Shown(s: State): map<Key, int> {
    s.markers - s.early
  }

  /** An event stored after its marker has both. */
  ghost predicate EarlyInv(s: State) {
    forall k :: k in s.early ==> k in s.files && k in s.markers
  }

  /** What a scan of the files and markers says about one key is what the row says. */
  ghost predicate RowAgrees(files: map<Key, Stored>, markers: map<Key, int>, rows: map<Key, Row>, k: Key) {
    && (k in rows <==> k in files)
    && (k in files ==> k in rows && rows[k] == Entry(files[k], k in markers))
  }

  /** Keys of known accounts agree unless they are marked dirty; other accounts have no rows. */
  ghost predicate Agrees(files: map<Key, Stored>, markers: map<Key, int>, index: Index) {
    && (forall k: Key {:trigger RowAgrees(files, markers, index.rows, k)} ::
          k.account in index.known && k !in index.dirty ==> RowAgrees(files, markers, index.rows, k))
    && (forall k :: k in index.dirty ==> k.account in index.known)
    && (forall k :: k in index.rows ==> k.account in index.known)
  }

  ghost predicate OnlyDirty(index: Index, key: Key) {
    && key in index.dirty
    && forall k :: k in index.dirty && k.account == key.account ==> k == key
  }

  predicate Frozen(intents: map<Key, Intent>, markers: map<Key, int>, key: Key) {
    key in intents || key in markers
  }

  /** A stored event may be written: nothing has frozen another one. */
  ghost predicate MayPut(s: State, key: Key, stored: Stored) {
    && KeyOf(stored) == key && (key in s.markers ==> key !in s.files)
    && (key in s.intents ==> key in s.files && s.files[key] == stored)
  }

  /** What the lock holder may rely on in each phase of a change. */
  ghost predicate ChangeInv(s: State, index: Index, job: Job, phase: Phase)
    requires Changes(job)
  {
    var key := job.key;
    match phase
    case Dirtied(stored) =>
      && OnlyDirty(index, key) && RowAgrees(s.files, Shown(s), index.rows, key)
      && (job.Store? ==> MayPut(s, key, stored))
    case Written(stored) =>
      && OnlyDirty(index, key)
      && (job.Store? ==>
            key in s.files && s.files[key] == stored && key !in Shown(s) && (key in index.rows ==> !index.rows[key].ingested))
      && (job.Mark? ==>
            && key in s.markers && (key in index.rows <==> key in s.files)
            && (key in s.files ==> index.rows[key].(ingested := true) == Entry(s.files[key], true)))
    case Rowed => OnlyDirty(index, key) && RowAgrees(s.files, Shown(s), index.rows, key)
    case _ => true
  }

  ghost predicate HolderInv(s: State, h: Holder) {
    && s.index.Some?
    && (h.job.Store? ==> KeyOf(h.job.incoming) == h.job.key)
    && (h.phase.Dirtied? || h.phase.Written? || h.phase.Rowed? ==> Changes(h.job))
    && (Changes(h.job) ==> ChangeInv(s, s.index.value, h.job, h.phase))
    && (h.phase.Ensured? ==> !h.job.Recover? && !NeedsRebuild(s.index.value, h.job.key.account))
    && (h.phase.Intending? ==> h.job.Attempt? && h.job.key in s.intents)
    && (h.phase.Finishing? && h.job.Attempt? && h.job.key in s.files && s.files[h.job.key].event.status == M.Complete ==>
          Frozen(s.intents, s.markers, h.job.key))
  }

  ghost predicate AttemptsInv(files: map<Key, Stored>, intents: map<Key, Intent>, markers: map<Key, int>, attempts: map<Key, Stored>) {
    forall k :: k in attempts && attempts[k].event.status == M.Complete ==>
      k in files && files[k] == attempts[k] && Frozen(intents, markers, k)
  }

  ghost predicate SentInv(files: map<Key, Stored>, intents: map<Key, Intent>, markers: map<Key, int>, sent: seq<(Key, Stored)>) {
    forall i :: 0 <= i < |sent| ==>
      sent[i].0 in files && files[sent[i].0] == sent[i].1 && Frozen(intents, markers, sent[i].0)
  }

  ghost predicate Inv(s: State) {
    && FilesInv(s.files) && IntentsInv(s.files, s.intents) && EarlyInv(s)
    && (s.index.Some? ==> Agrees(s.files, Shown(s), s.index.value))
    && (s.holder.Some? ==> HolderInv(s, s.holder.value))
    && AttemptsInv(s.files, s.intents, s.markers, s.attempts)
    && SentInv(s.files, s.intents, s.markers, s.sent)
  }
}
