/**
 The read cache of the project registry under concurrent reads, shared fills and atomic
 replacements of the file: src/project-registry.ts:400-456.

 Each event is what one call does between two awaits.  A write replaces the file by a rename; an
 open handle keeps the version it opened.  `disk` is the history of the file, its last entry the
 present version, None where the file is absent.
 */
module RegistryCache {
  import opened Common
  import Runs

  /** mtime, ctime, size and inode, the fingerprint of a version. */
  type Mark = nat
  type ReadId = nat
  type FillId = nat

  datatype Version = Version(mark: Mark, file: Option<string>)

  /** An index into `disk` says which version a value came from, or which one a read has seen; the code does not have it. */
  datatype Cached = Cached(key: Mark, file: Option<string>, version: nat)

  datatype Read =
    | Statting(start: nat)
    | Deciding(start: nat, key: Mark, seen: nat)
    | Awaiting(start: nat, seen: nat, fill: FillId)
    | Returned(start: nat, file: Option<string>, version: nat, end: nat)

  datatype Fill =
    | Opening(key: Mark)
    | Opened(key: Mark, version: nat)
    | Rereading(key: Mark, inner: ReadId)                       // readDisk returned this.read()
    | Loading(key: Mark, version: nat)
    | Loaded(key: Mark, file: Option<string>, version: nat)
    | Redoing(key: Mark, inner: ReadId)                         // fillCache returned this.read()
    | Resolved(key: Mark, file: Option<string>, version: nat)
    | Rejected(key: Mark, version: nat)

  datatype State = State(
    disk: seq<Version>, cache: Option<Cached>, filling: Option<FillId>,
    calls: map<ReadId, Read>, fills: map<FillId, Fill>, next: nat)

  const START := State([Version(0, None)], None, None, map[], map[], 0)

  datatype Event =
    | Replace(version: Version)        // a rename by any process, or a removal
    | Clear                            // write drops the cache, before and after its rename
    | Call                             // a read begins
    | Stat(read: ReadId)
    | Decide(read: ReadId)
    | Deliver(read: ReadId)
    | Open(fill: FillId)
    | Check(fill: FillId)
    | Load(fill: FillId)
    | Resume(fill: FillId)
    | Finish(fill: FillId)
    | Forget(fill: FillId)

  function Now(s: State): nat {
    if |s.disk| == 0 then 0 else |s.disk| - 1
  }

  function Current(s: State): Version {
    if |s.disk| == 0 then Version(0, None) else s.disk[|s.disk| - 1]
  }

  /** What the fill has, or is going to have, was taken from a version with its fingerprint or later, and can still be served under it. */
  predicate Serves(s: State, f: FillId)
    requires f in s.fills
  {
    match s.fills[f]
    case Opening(_) => false
    case Opened(key, version) => version < |s.disk| && s.disk[version].mark == key
    case Rereading(_, inner) => HasSeen(s, inner)
    case Loading(_, _) | Loaded(_, _, _) => true
    case Redoing(_, inner) => s.filling == Some(f) && HasSeen(s, inner)
    case Resolved(_, _, _) | Rejected(_, _) => s.filling == Some(f)
  }

  /** The read has got past its stat. */
  predicate HasSeen(s: State, r: ReadId) {
    r in s.calls && !s.calls[r].Statting?
  }

  /** What the read returns is not going to be older than this version. */
  function Bound(read: Read): nat
    requires !read.Statting?
  {
    match read
    case Deciding(_, _, seen) => seen
    case Awaiting(_, seen, _) => seen
    case Returned(_, _, version, _) => version
  }

  /** The cache, or a fill that may still be cached or joined, serves the fingerprint. */
  predicate Held(s: State, mark: Mark) {
    || (s.cache.Some? && s.cache.value.key == mark)
    || (exists f :: f in s.fills && s.fills[f].key == mark && Serves(s, f))
  }

  predicate Enabled(s: State, e: Event) {
    match e
    case Replace(_) | Clear | Call => true
    case Stat(r) => r in s.calls && s.calls[r].Statting?
    case Decide(r) => r in s.calls && s.calls[r].Deciding?
    case Deliver(r) => r in s.calls && s.calls[r].Awaiting? && s.calls[r].fill in s.fills
                       && (s.fills[s.calls[r].fill].Resolved? || s.fills[s.calls[r].fill].Rejected?)
    case Open(f) => f in s.fills && s.fills[f].Opening?
    case Check(f) => f in s.fills && s.fills[f].Opened?
    case Load(f) => f in s.fills && s.fills[f].Loading? && s.fills[f].version < |s.disk|
    case Resume(f) => f in s.fills && (s.fills[f].Rereading? || s.fills[f].Redoing?)
                      && s.fills[f].inner in s.calls && s.calls[s.fills[f].inner].Returned?
    case Finish(f) => f in s.fills && s.fills[f].Loaded?
    case Forget(f) => f in s.fills && (s.fills[f].Resolved? || s.fills[f].Rejected?)
  }

  /** With `reuse`, a replaced file may show a fingerprint that somebody still holds. */
  predicate Allowed(reuse: bool, s: State, e: Event) {
    Enabled(s, e) && (e.Replace? && e.version.file.Some? && !reuse ==> !Held(s, e.version.mark))
  }

  function ApplyStat(s: State, r: ReadId): State
    requires Enabled(s, Stat(r))
  {
    var start := s.calls[r].start;
    if Current(s).file.None? then s.(cache := None, calls := s.calls[r := Returned(start, None, Now(s), Now(s))])
    else s.(calls := s.calls[r := Deciding(start, Current(s).mark, Now(s))])
  }

  function ApplyDecide(s: State, r: ReadId): State
    requires Enabled(s, Decide(r))
  {
    var Deciding(start, key, seen) := s.calls[r];
    if s.cache.Some? && s.cache.value.key == key
    then s.(calls := s.calls[r := Returned(start, s.cache.value.file, s.cache.value.version, Now(s))])
    else if s.filling.None? || s.filling.value !in s.fills || s.fills[s.filling.value].key != key
    then s.(fills := s.fills[s.next := Opening(key)], filling := Some(s.next), next := s.next + 1,
            calls := s.calls[r := Awaiting(start, seen, s.next)])
    else s.(calls := s.calls[r := Awaiting(start, seen, s.filling.value)])
  }

  function ApplyDeliver(s: State, r: ReadId): State
    requires Enabled(s, Deliver(r))
  {
    match s.fills[s.calls[r].fill]
    case Resolved(_, file, version) => s.(calls := s.calls[r := Returned(s.calls[r].start, file, version, Now(s))])
    case Rejected(_, version) => s.(cache := None, calls := s.calls[r := Returned(s.calls[r].start, None, version, Now(s))])
    case _ => s
  }

  function ApplyOpen(s: State, f: FillId): State
    requires Enabled(s, Open(f))
  {
    var Opening(key) := s.fills[f];
    s.(fills := s.fills[f := if Current(s).file.None? then Rejected(key, Now(s)) else Opened(key, Now(s))])
  }

  function ApplyCheck(s: State, f: FillId): State
    requires Enabled(s, Check(f))
  {
    var Opened(key, version) := s.fills[f];
    if version < |s.disk| && s.disk[version].mark == key then s.(fills := s.fills[f := Loading(key, version)])
    else s.(calls := s.calls[s.next := Statting(Now(s))], next := s.next + 1, fills := s.fills[f := Rereading(key, s.next)])
  }

  function ApplyLoad(s: State, f: FillId): State
    requires Enabled(s, Load(f))
  {
    var Loading(key, version) := s.fills[f];
    s.(fills := s.fills[f := Loaded(key, s.disk[version].file, version)])
  }

  function ApplyResume(s: State, f: FillId): State
    requires Enabled(s, Resume(f))
  {
    var Returned(_, file, version, _) := s.calls[s.fills[f].inner];
    var fill := s.fills[f];
    s.(fills := s.fills[f := if fill.Rereading? then Loaded(fill.key, file, version) else Resolved(fill.key, file, version)])
  }

  function ApplyFinish(s: State, f: FillId): State
    requires Enabled(s, Finish(f))
  {
    var Loaded(key, file, version) := s.fills[f];
    if Current(s).file.None? then s.(fills := s.fills[f := Rejected(key, Now(s))])
    else if Current(s).mark != key
    then s.(calls := s.calls[s.next := Statting(Now(s))], next := s.next + 1, fills := s.fills[f := Redoing(key, s.next)])
    else s.(cache := Some(Cached(key, file, version)), fills := s.fills[f := Resolved(key, file, version)])
  }

  function Apply(s: State, e: Event): State
    requires Enabled(s, e)
  {
    match e
    case Replace(version) => s.(disk := s.disk + [version])
    case Clear => s.(cache := None)
    case Call => s.(calls := s.calls[s.next := Statting(Now(s))], next := s.next + 1)
    case Stat(r) => ApplyStat(s, r)
    case Decide(r) => ApplyDecide(s, r)
    case Deliver(r) => ApplyDeliver(s, r)
    case Open(f) => ApplyOpen(s, f)
    case Check(f) => ApplyCheck(s, f)
    case Load(f) => ApplyLoad(s, f)
    case Resume(f) => ApplyResume(s, f)
    case Finish(f) => ApplyFinish(s, f)
    case Forget(f) => if s.filling == Some(f) then s.(filling := None) else s
  }

  /** One step of the machine. */
  ghost function Steps(reuse: bool): (State, State) -> bool {
    (s: State, t: State) => exists e :: Allowed(reuse, s, e) && t == Apply(s, e)
  }

  ghost predicate Reachable(reuse: bool, s: State) {
    Runs.Leads(Steps(reuse), START, s)
  }

  /** A finished fill is not joined any more, and another one under way still is. */
  lemma ForgottenIsNotJoined(s: State, f: FillId)
    requires Enabled(s, Forget(f))
    ensures var t := Apply(s, Forget(f));
      t.filling != Some(f) && (s.filling != Some(f) ==> t.filling == s.filling) && t == s.(filling := t.filling)
  {
  }

  // ---------------------------------------------------------------------------------------
  // Invariant, while no held fingerprint is reused

  ghost predicate Holds(s: State, file: Option<string>, version: nat) {
    version < |s.disk| && s.disk[version].file == file
  }

  /** No version after `v` has the fingerprint. */
  ghost predicate NoneAfter(s: State, key: Mark, v: int) {
    forall i :: v < i < |s.disk| && i >= 0 && s.disk[i].file.Some? ==> s.disk[i].mark != key
  }

  ghost predicate CacheInv(s: State) {
    s.cache.Some? ==>
      && Holds(s, s.cache.value.file, s.cache.value.version) && NoneAfter(s, s.cache.value.key, s.cache.value.version)
      && s.disk[s.cache.value.version].mark == s.cache.value.key
  }

  ghost predicate ReadInv(s: State, read: Read) {
    read.start < |s.disk| &&
    match read
    case Statting(_) => true
    case Deciding(start, key, seen) => start <= seen < |s.disk| && s.disk[seen].mark == key && s.disk[seen].file.Some?
    case Awaiting(start, seen, fill) => start <= seen < |s.disk| && fill in s.fills && NotOlder(s, fill, seen)
    case Returned(start, file, version, end) => start <= version <= end < |s.disk| && Holds(s, file, version)
  }

  /** What the fill is going to have is no older than `start`. */
  ghost predicate NotOlder(s: State, f: FillId, start: nat)
    requires f in s.fills
  {
    match s.fills[f]
    case Opening(_) => true
    case Opened(key, version) => version < |s.disk| && s.disk[version].mark == key ==> start <= version
    case Rereading(_, inner) => inner in s.calls && (HasSeen(s, inner) ==> start <= Bound(s.calls[inner]))
    case Loading(_, version) => start <= version
    case Loaded(_, _, version) => start <= version
    case Redoing(_, inner) => inner in s.calls && (HasSeen(s, inner) ==> start <= Bound(s.calls[inner]))
    case Resolved(_, _, version) => start <= version
    case Rejected(_, version) => start <= version
  }

  ghost predicate FillInv(s: State, f: FillId)
    requires f in s.fills
  {
    match s.fills[f]
    case Opening(_) => true
    case Opened(_, version) => version < |s.disk| && s.disk[version].file.Some?
    case Rereading(_, inner) => inner in s.calls
    case Loading(_, version) => version < |s.disk|
    case Loaded(_, file, version) => Holds(s, file, version)
    case Redoing(_, inner) => inner in s.calls
    case Resolved(_, file, version) => Holds(s, file, version)
    case Rejected(_, version) => Holds(s, None, version)
  }

  /** What a fill that serves its fingerprint has is no older than the last version with it. */
  ghost predicate ServesLast(s: State, f: FillId)
    requires f in s.fills
  {
    Serves(s, f) ==>
      match s.fills[f]
      case Opening(_) => true
      case Opened(key, version) => NoneAfter(s, key, version)
      case Rereading(key, inner) => NoneAfter(s, key, Bound(s.calls[inner]))
      case Loading(key, version) => NoneAfter(s, key, version)
      case Loaded(key, _, version) => NoneAfter(s, key, version)
      case Redoing(key, inner) => NoneAfter(s, key, Bound(s.calls[inner]))
      case Resolved(key, _, version) => NoneAfter(s, key, version)
      case Rejected(key, version) => NoneAfter(s, key, version)
  }

  ghost predicate FillAt(s: State, f: FillId)
    requires f in s.fills
  {
    FillInv(s, f) && ServesLast(s, f)
  }

  ghost predicate Inv(s: State) {
    && |s.disk| > 0 && CacheInv(s)
    && (forall r {:trigger s.calls[r]} :: r in s.calls ==> r < s.next && ReadInv(s, s.calls[r]))
    && (forall f {:trigger s.fills[f]} :: f in s.fills ==> f < s.next && FillAt(s, f))
  }

  /** What later states keep: where reads began and what fills are for, and nothing awaited gets older. */
  ghost predicate Grows(s: State, t: State) {
    && (forall r :: r in s.calls ==> r in t.calls && Advances(s, s.calls[r], t.calls[r]))
    && (forall f :: f in s.fills ==> f in t.fills && t.fills[f].key == s.fills[f].key)
  }

  ghost predicate Advances(s: State, a: Read, b: Read) {
    && b.start == a.start
    && (!a.Statting? ==> !b.Statting? && Bound(a) <= Bound(b))
    && (a.Statting? && !b.Statting? ==> Bound(b) == Now(s))
  }

  /** A fill that is left alone is no older than before: a read it waits for may have seen something. */
  lemma WaitingStays(s: State, t: State, f: FillId, start: nat)
    requires f in s.fills && f in t.fills && t.fills[f] == s.fills[f] && NotOlder(s, f, start) && Grows(s, t)
    requires t.disk == s.disk && start < |s.disk|
    ensures NotOlder(t, f, start)
  {
  }

  lemma ReadStays(s: State, t: State, read: Read, f: Option<FillId>)
    requires ReadInv(s, read) && Grows(s, t) && t.disk == s.disk
    requires forall k :: k in t.fills ==> Some(k) == f || (k in s.fills && t.fills[k] == s.fills[k])
    requires f.Some? && f.value in s.fills ==> Younger(s, t, f.value)
    ensures ReadInv(t, read)
  {
    hide NotOlder;
    if read.Awaiting? && Some(read.fill) != f { WaitingStays(s, t, read.fill, read.seen); }
  }

  /** Whatever awaits the fill may go on awaiting it. */
  ghost predicate Younger(s: State, t: State, f: FillId)
    requires f in s.fills
  {
    f in t.fills && forall start: nat {:trigger NotOlder(s, f, start)} :: start < |s.disk| && NotOlder(s, f, start) ==> NotOlder(t, f, start)
  }

  lemma FillStays(s: State, t: State, f: FillId)
    requires f in s.fills && f in t.fills && t.fills[f] == s.fills[f] && FillAt(s, f) && Grows(s, t) && t.disk == s.disk && |s.disk| > 0
    requires t.filling == Some(f) ==> s.filling == Some(f)
    ensures FillAt(t, f)
  {
  }

  lemma CacheStays(s: State, t: State)
    requires CacheInv(s) && t.disk == s.disk && (t.cache == s.cache || t.cache.None?)
    ensures CacheInv(t)
  {
  }

  /** A step that changes one read, or one fill, or neither, and not the file. */
  lemma StepInv(s: State, t: State, r: Option<ReadId>, f: Option<FillId>)
    requires Inv(s) && Grows(s, t) && t.disk == s.disk && CacheInv(t) && s.next <= t.next
    requires t.filling == s.filling || t.filling.None? || t.filling == f
    requires forall k :: k in t.calls ==> Some(k) == r || (k in s.calls && t.calls[k] == s.calls[k])
    requires forall k :: k in t.fills ==> Some(k) == f || (k in s.fills && t.fills[k] == s.fills[k])
    requires f.Some? && f.value in s.fills ==> Younger(s, t, f.value)
    requires r.Some? && r.value in t.calls ==> r.value < t.next && ReadInv(t, t.calls[r.value])
    requires f.Some? && f.value in t.fills ==> f.value < t.next && FillAt(t, f.value)
    ensures Inv(t)
  {
    hide ReadInv, FillAt, CacheInv, Younger;
    forall k | k in t.calls
      ensures k < t.next && ReadInv(t, t.calls[k])
    {
      if Some(k) != r { ReadStays(s, t, s.calls[k], f); }
    }
    forall k | k in t.fills
      ensures k < t.next && FillAt(t, k)
    {
      if Some(k) != f {
        assert FillAt(s, k);
        FillStays(s, t, k);
      }
    }
  }

  /** A replacement leaves what is said of every other fingerprint. */
  lemma NoneAfterReplace(s: State, version: Version, key: Mark, v: int)
    requires NoneAfter(s, key, v) && (version.file.None? || version.mark != key)
    ensures NoneAfter(Apply(s, Replace(version)), key, v)
  {
  }

  lemma FillAfterReplace(s: State, version: Version, f: FillId)
    requires f in s.fills && FillAt(s, f) && (Serves(s, f) && version.file.Some? ==> version.mark != s.fills[f].key)
    ensures FillAt(Apply(s, Replace(version)), f)
  {
    hide NoneAfter;
    var t := Apply(s, Replace(version));
    assert Serves(t, f) <==> Serves(s, f);
    if Serves(s, f) {
      var key := s.fills[f].key;
      match s.fills[f]
      case Opening(_) =>
      case Opened(_, v) => NoneAfterReplace(s, version, key, v);
      case Rereading(_, inner) => NoneAfterReplace(s, version, key, Bound(s.calls[inner]));
      case Loading(_, v) => NoneAfterReplace(s, version, key, v);
      case Loaded(_, _, v) => NoneAfterReplace(s, version, key, v);
      case Redoing(_, inner) => NoneAfterReplace(s, version, key, Bound(s.calls[inner]));
      case Resolved(_, _, v) => NoneAfterReplace(s, version, key, v);
      case Rejected(_, v) => NoneAfterReplace(s, version, key, v);
    }
  }

  lemma ReadAfterReplace(s: State, version: Version, read: Read)
    requires ReadInv(s, read) && forall f :: f in s.fills ==> FillAt(s, f)
    ensures ReadInv(Apply(s, Replace(version)), read)
  {
    hide ServesLast;
    if read.Awaiting? { assert FillAt(s, read.fill); }
  }

  lemma ReplaceStep(s: State, version: Version)
    requires Inv(s) && Allowed(false, s, Replace(version))
    ensures Inv(Apply(s, Replace(version))) && Grows(s, Apply(s, Replace(version)))
  {
    hide NoneAfter, FillAt, ReadInv, Serves;
    var t := Apply(s, Replace(version));
    if s.cache.Some? { NoneAfterReplace(s, version, s.cache.value.key, s.cache.value.version); }
    forall r | r in t.calls
      ensures r < t.next && ReadInv(t, t.calls[r])
    {
      ReadAfterReplace(s, version, s.calls[r]);
    }
    forall f | f in t.fills
      ensures f < t.next && FillAt(t, f)
    {
      FillAfterReplace(s, version, f);
    }
  }

  lemma CallStep(s: State)
    requires Inv(s)
    ensures Inv(Apply(s, Call)) && Grows(s, Apply(s, Call))
  {
    var t := Apply(s, Call);
    CacheStays(s, t);
    StepInv(s, t, Some(s.next), None);
  }

  lemma StatStep(s: State, r: ReadId)
    requires Inv(s) && Enabled(s, Stat(r))
    ensures Inv(ApplyStat(s, r)) && Grows(s, ApplyStat(s, r))
  {
    var t := ApplyStat(s, r);
    assert ReadInv(s, s.calls[r]);
    CacheStays(s, t);
    StepInv(s, t, Some(r), None);
  }

  lemma DecideStep(s: State, r: ReadId)
    requires Inv(s) && Enabled(s, Decide(r))
    ensures Inv(ApplyDecide(s, r)) && Grows(s, ApplyDecide(s, r))
  {
    hide ReadInv, FillAt;
    var t := ApplyDecide(s, r);
    assert ReadInv(s, s.calls[r]);
    if s.filling.Some? && s.filling.value in s.fills { assert FillAt(s, s.filling.value); }
    CacheStays(s, t);
    DecidedRead(s, r);
    StepInv(s, t, Some(r), Some(s.next));
  }

  /** What a read finds in the cache, or joins, is no older than what it has seen. */
  lemma DecidedRead(s: State, r: ReadId)
    requires CacheInv(s) && Enabled(s, Decide(r)) && ReadInv(s, s.calls[r]) && s.next !in s.fills
    requires s.filling.Some? && s.filling.value in s.fills ==> FillAt(s, s.filling.value)
    ensures var t := ApplyDecide(s, r);
      && r in t.calls && ReadInv(t, t.calls[r]) && Advances(s, s.calls[r], t.calls[r])
      && (s.next in t.fills ==> FillAt(t, s.next))
  {
  }

  lemma DeliverStep(s: State, r: ReadId)
    requires Inv(s) && Enabled(s, Deliver(r))
    ensures Inv(ApplyDeliver(s, r)) && Grows(s, ApplyDeliver(s, r))
  {
    var t := ApplyDeliver(s, r);
    assert ReadInv(s, s.calls[r]) && FillAt(s, s.calls[r].fill);
    CacheStays(s, t);
    StepInv(s, t, Some(r), None);
  }

  lemma OpenStep(s: State, f: FillId)
    requires Inv(s) && Enabled(s, Open(f))
    ensures Inv(ApplyOpen(s, f)) && Grows(s, ApplyOpen(s, f))
  {
    var t := ApplyOpen(s, f);
    assert FillAt(s, f);
    CacheStays(s, t);
    StepInv(s, t, None, Some(f));
  }

  lemma CheckStep(s: State, f: FillId)
    requires Inv(s) && Enabled(s, Check(f))
    ensures Inv(ApplyCheck(s, f)) && Grows(s, ApplyCheck(s, f))
  {
    var t := ApplyCheck(s, f);
    assert FillAt(s, f);
    CacheStays(s, t);
    StepInv(s, t, Some(s.next), Some(f));
  }

  lemma LoadStep(s: State, f: FillId)
    requires Inv(s) && Enabled(s, Load(f))
    ensures Inv(ApplyLoad(s, f)) && Grows(s, ApplyLoad(s, f))
  {
    var t := ApplyLoad(s, f);
    assert FillAt(s, f);
    CacheStays(s, t);
    StepInv(s, t, None, Some(f));
  }

  lemma ResumeStep(s: State, f: FillId)
    requires Inv(s) && Enabled(s, Resume(f))
    ensures Inv(ApplyResume(s, f)) && Grows(s, ApplyResume(s, f))
  {
    var t := ApplyResume(s, f);
    assert FillAt(s, f) && ReadInv(s, s.calls[s.fills[f].inner]);
    CacheStays(s, t);
    StepInv(s, t, None, Some(f));
  }

  /** A file loaded for a key that is still the present one is the present file. */
  lemma LoadedIsPresent(s: State, fill: Fill)
    requires |s.disk| > 0 && fill.Loaded? && Holds(s, fill.file, fill.version) && NoneAfter(s, fill.key, fill.version)
    requires Current(s).file.Some? && Current(s).mark == fill.key
    ensures fill.version == Now(s)
  {
  }

  lemma FinishStep(s: State, f: FillId)
    requires Inv(s) && Enabled(s, Finish(f))
    ensures Inv(ApplyFinish(s, f)) && Grows(s, ApplyFinish(s, f))
  {
    hide ReadInv;
    var t := ApplyFinish(s, f);
    var fill := s.fills[f];
    assert FillAt(s, f);
    if Current(s).file.Some? && Current(s).mark == fill.key {
      LoadedIsPresent(s, fill);
    } else {
      CacheStays(s, t);
    }
    FinishedFill(s, f);
    NewRead(t, Now(s));
    StepInv(s, t, Some(s.next), Some(f));
  }

  lemma NewRead(t: State, start: nat)
    requires start < |t.disk|
    ensures ReadInv(t, Statting(start))
  {
  }

  lemma FinishedFill(s: State, f: FillId)
    requires |s.disk| > 0 && Enabled(s, Finish(f)) && FillAt(s, f)
    ensures f in ApplyFinish(s, f).fills && FillAt(ApplyFinish(s, f), f)
  {
  }

  lemma Step(s: State, e: Event)
    requires Inv(s) && Allowed(false, s, e)
    ensures Inv(Apply(s, e)) && Grows(s, Apply(s, e))
  {
    hide Inv, Grows, ApplyStat, ApplyDecide, ApplyDeliver, ApplyOpen, ApplyCheck, ApplyLoad, ApplyResume, ApplyFinish;
    match e
    case Replace(version) => ReplaceStep(s, version);
    case Clear => OtherStep(s, e);
    case Call => CallStep(s);
    case Stat(r) => StatStep(s, r);
    case Decide(r) => DecideStep(s, r);
    case Deliver(r) => DeliverStep(s, r);
    case Open(f) => OpenStep(s, f);
    case Check(f) => CheckStep(s, f);
    case Load(f) => LoadStep(s, f);
    case Resume(f) => ResumeStep(s, f);
    case Finish(f) => FinishStep(s, f);
    case Forget(f) => OtherStep(s, e);
  }

  lemma OtherStep(s: State, e: Event)
    requires Inv(s) && Enabled(s, e) && (e.Clear? || e.Forget?)
    ensures Inv(Apply(s, e)) && Grows(s, Apply(s, e))
  {
    CacheStays(s, Apply(s, e));
    StepInv(s, Apply(s, e), None, None);
  }

  lemma InvStays(s: State, t: State)
    requires Inv(s) && Runs.Leads(Steps(false), s, t)
    ensures Inv(t)
  {
    hide Inv, Apply, Enabled, Grows;
    forall x, y | Inv(x) && Steps(false)(x, y)
      ensures Inv(y)
    {
      var e :| Allowed(false, x, e) && y == Apply(x, e);
      Step(x, e);
    }
    Runs.Preserved(Steps(false), Inv, s, t);
  }

  // ---------------------------------------------------------------------------------------
  // Main results

  /**
   A read that returned is right: what it returned is the file of a version that was present at some
   instant between its call and its return, `start` and `end` being the present versions at those two.
   */
  ghost predicate RightRead(s: State, read: Read) {
    read.Returned? ==> read.start <= read.version <= read.end && Holds(s, read.file, read.version)
  }

  /** The cache pairs a fingerprint with the file of the version that has it. */
  ghost predicate RightCache(s: State) {
    s.cache.Some? ==> exists v :: 0 <= v < |s.disk| && s.disk[v] == Version(s.cache.value.key, s.cache.value.file)
  }

  /** In every interleaving of calls, shared fills and replacements whose fingerprints nobody holds. */
  lemma {:induction false} ReadsAreLinear(s: State, r: ReadId)
    requires Reachable(false, s) && r in s.calls
    ensures RightCache(s) && RightRead(s, s.calls[r])
  {
    hide Apply, Enabled;
    InvStays(START, s);
    CacheIsRight(s);
    assert ReadInv(s, s.calls[r]);
  }

  lemma CacheIsRight(s: State)
    requires Inv(s)
    ensures RightCache(s)
  {
    if s.cache.Some? {
      assert s.disk[s.cache.value.version] == Version(s.cache.value.key, s.cache.value.file);
    }
  }

  lemma Then(reuse: bool, s: State, t: State, e: Event)
    requires Runs.Leads(Steps(reuse), s, t) && Allowed(reuse, t, e)
    ensures Runs.Leads(Steps(reuse), s, Apply(t, e))
  {
    hide Apply, Enabled;
    Runs.Then(Steps(reuse), s, t, Apply(t, e));
  }

  const OLD := Version(7, Some("old"))
  const NEW := Version(7, Some("new"))

  /** The cache holds the old file under the fingerprint 7. */
  const CACHED := State([Version(0, None), OLD], Some(Cached(7, Some("old"), 1)), Some(1),
                        map[0 := Awaiting(1, 1, 1)], map[1 := Resolved(7, Some("old"), 1)], 2)

  lemma CachedIsReachable()
    ensures Reachable(false, CACHED)
  {
    hide Runs.Leads, Steps;
    Runs.Stays(Steps(false), START);
    var disk := [Version(0, None), OLD];
    var s1 := START.(disk := disk);
    assert START.disk + [OLD] == disk;
    Then(false, START, START, Replace(OLD));
    var s2 := s1.(calls := map[0 := Statting(1)], next := 1);
    Then(false, START, s1, Call);
    var s3 := s2.(calls := map[0 := Deciding(1, 7, 1)]);
    assert ApplyStat(s2, 0).calls == s3.calls;
    Then(false, START, s2, Stat(0));
    var s4 := State(disk, None, Some(1), map[0 := Awaiting(1, 1, 1)], map[1 := Opening(7)], 2);
    assert ApplyDecide(s3, 0).calls == s4.calls;
    Then(false, START, s3, Decide(0));
    FillCaches(s4);
  }

  lemma FillCaches(s4: State)
    requires Reachable(false, s4)
    requires s4 == State([Version(0, None), OLD], None, Some(1), map[0 := Awaiting(1, 1, 1)], map[1 := Opening(7)], 2)
    ensures Reachable(false, CACHED)
  {
    hide Runs.Leads, Steps;
    var s5 := s4.(fills := map[1 := Opened(7, 1)]);
    assert ApplyOpen(s4, 1).fills == s5.fills;
    Then(false, START, s4, Open(1));
    var s6 := s4.(fills := map[1 := Loading(7, 1)]);
    assert ApplyCheck(s5, 1).fills == s6.fills;
    Then(false, START, s5, Check(1));
    var s7 := s4.(fills := map[1 := Loaded(7, Some("old"), 1)]);
    assert ApplyLoad(s6, 1).fills == s7.fills;
    Then(false, START, s6, Load(1));
    assert ApplyFinish(s7, 1).fills == CACHED.fills;
    Then(false, START, s7, Finish(1));
  }

  /** A read got something that was not the file at any time between its call and its return. */
  ghost predicate Misled(s: State, r: ReadId) {
    && r in s.calls && s.calls[r].Returned? && s.calls[r].start <= s.calls[r].end < |s.disk|
    && forall v :: s.calls[r].start <= v <= s.calls[r].end ==> s.disk[v].file != s.calls[r].file
  }

  lemma MisledIsWrong(s: State, r: ReadId)
    requires Misled(s, r)
    ensures !RightRead(s, s.calls[r])
  {
  }

  /** What is served under the present fingerprint by the cache is not the present file: the next read is misled. */
  lemma CacheMisleads(u: State, s: State) returns (t: State, r: ReadId)
    requires Runs.Leads(Steps(false), u, s) && |s.disk| > 0 && Current(s).file.Some?
    requires s.cache.Some? && s.cache.value.key == Current(s).mark && s.cache.value.file != Current(s).file
    ensures Runs.Leads(Steps(false), u, t) && Misled(t, r)
  {
    hide Runs.Leads, Steps;
    r := s.next;
    Then(false, u, s, Call);
    var s1 := Apply(s, Call);
    Then(false, u, s1, Stat(r));
    var s2 := Apply(s1, Stat(r));
    Then(false, u, s2, Decide(r));
    t := Apply(s2, Decide(r));
  }

  /** A fill has loaded another file for the present fingerprint, and caches it. */
  lemma LoadedMisleads(u: State, s: State, f: FillId) returns (t: State, r: ReadId)
    requires Runs.Leads(Steps(false), u, s) && |s.disk| > 0 && Current(s).file.Some?
    requires f in s.fills && s.fills[f].Loaded? && s.fills[f].key == Current(s).mark && s.fills[f].file != Current(s).file
    ensures Runs.Leads(Steps(false), u, t) && Misled(t, r)
  {
    hide Runs.Leads, Steps, Misled;
    Then(false, u, s, Finish(f));
    t, r := CacheMisleads(u, Apply(s, Finish(f)));
  }

  lemma LoadingMisleads(u: State, s: State, f: FillId) returns (t: State, r: ReadId)
    requires Runs.Leads(Steps(false), u, s) && |s.disk| > 0 && Current(s).file.Some?
    requires f in s.fills && s.fills[f].Loading? && s.fills[f].key == Current(s).mark
    requires s.fills[f].version < |s.disk| && s.disk[s.fills[f].version].file != Current(s).file
    ensures Runs.Leads(Steps(false), u, t) && Misled(t, r)
  {
    hide Runs.Leads, Steps, Misled;
    Then(false, u, s, Load(f));
    t, r := LoadedMisleads(u, Apply(s, Load(f)), f);
  }

  /** The shared fill has another file, or none, for the present fingerprint, and the cache does not have it. */
  lemma SharedMisleads(u: State, s: State, f: FillId) returns (t: State, r: ReadId)
    requires Runs.Leads(Steps(false), u, s) && |s.disk| > 0 && Current(s).file.Some?
    requires f in s.fills && s.filling == Some(f) && s.fills[f].key == Current(s).mark
    requires s.fills[f].Rejected? || (s.fills[f].Resolved? && s.fills[f].file != Current(s).file)
    requires s.cache.Some? ==> s.cache.value.key != Current(s).mark
    ensures Runs.Leads(Steps(false), u, t) && Misled(t, r)
  {
    hide Runs.Leads, Steps;
    r := s.next;
    Then(false, u, s, Call);
    var s1 := Apply(s, Call);
    Then(false, u, s1, Stat(r));
    var s2 := Apply(s1, Stat(r));
    Then(false, u, s2, Decide(r));
    var s3 := Apply(s2, Decide(r));
    Then(false, u, s3, Deliver(r));
    t := Apply(s3, Deliver(r));
  }

  /** The file a fill has, or has come to, unless it waits for a read that has not returned. */
  function Content(s: State, f: FillId): Option<string>
    requires f in s.fills && Serves(s, f) && !Waits(s, f)
    requires s.fills[f].Loading? ==> s.fills[f].version < |s.disk|
  {
    match s.fills[f]
    case Opening(_) => None
    case Opened(_, version) => s.disk[version].file
    case Rereading(_, inner) => s.calls[inner].file
    case Loading(_, version) => s.disk[version].file
    case Loaded(_, file, _) => file
    case Redoing(_, inner) => s.calls[inner].file
    case Resolved(_, file, _) => file
    case Rejected(_, _) => None
  }

  /** The fill waits for a read of its own that has seen some version and has not returned. */
  predicate Waits(s: State, f: FillId)
    requires f in s.fills
  {
    && (s.fills[f].Rereading? || s.fills[f].Redoing?)
    && HasSeen(s, s.fills[f].inner) && !s.calls[s.fills[f].inner].Returned?
  }

  /** The file is none that the cache, or a fill that has one to serve, has under the fingerprint; none of those fills waits. */
  ghost predicate NewContent(s: State, version: Version) {
    && version.file.Some?
    && (s.cache.Some? && s.cache.value.key == version.mark ==> s.cache.value.file != version.file)
    && (forall f :: f in s.fills && s.fills[f].key == version.mark && Serves(s, f) ==>
          && !Waits(s, f) && (s.fills[f].Loading? ==> s.fills[f].version < |s.disk|)
          && Content(s, f) != version.file)
  }

  lemma FillMisleads(s: State, version: Version, f: FillId) returns (t: State, r: ReadId)
    requires Inv(s) && NewContent(s, version) && f in s.fills && s.fills[f].key == version.mark && Serves(s, f)
    requires s.cache.Some? ==> s.cache.value.key != version.mark
    ensures Runs.Leads(Steps(false), Apply(s, Replace(version)), t) && Misled(t, r)
  {
    hide Runs.Leads, Steps, Misled, ReadInv, CacheInv;
    var u := Apply(s, Replace(version));
    Runs.Stays(Steps(false), u);
    assert FillAt(s, f);
    match s.fills[f]
    case Opened(_, v) =>
      Then(false, u, u, Check(f));
      t, r := LoadingMisleads(u, Apply(u, Check(f)), f);
    case Rereading(_, inner) =>
      Then(false, u, u, Resume(f));
      t, r := LoadedMisleads(u, Apply(u, Resume(f)), f);
    case Loading(_, v) => t, r := LoadingMisleads(u, u, f);
    case Loaded(_, _, _) => t, r := LoadedMisleads(u, u, f);
    case Redoing(_, inner) =>
      Then(false, u, u, Resume(f));
      t, r := SharedMisleads(u, Apply(u, Resume(f)), f);
    case Resolved(_, _, _) | Rejected(_, _) => t, r := SharedMisleads(u, u, f);
  }

  lemma HeldMisleads(s: State, version: Version) returns (t: State, r: ReadId)
    requires Inv(s) && NewContent(s, version) && Held(s, version.mark)
    ensures Runs.Leads(Steps(false), Apply(s, Replace(version)), t) && Misled(t, r)
  {
    hide Runs.Leads, Steps, Misled, Inv;
    var u := Apply(s, Replace(version));
    if s.cache.Some? && s.cache.value.key == version.mark {
      Runs.Stays(Steps(false), u);
      t, r := CacheMisleads(u, u);
    } else {
      var f :| f in s.fills && s.fills[f].key == version.mark && Serves(s, f);
      t, r := FillMisleads(s, version, f);
    }
  }

  /**
   Whatever reads and fills are under way: a replacement by a content that nobody serves under its
   fingerprint makes it possible that a read is misled, in a run that reuses no served fingerprint after
   it, if and only if the fingerprint is served: by the cache, by a fill that has opened the version
   with it, loaded it or got it from a read of its own, or by the shared fill after its last stat.
   Reads that have not decided yet, fills that have not opened the file, and fills whose own read has
   not looked at the file yet do no harm.
   */
  lemma ReplacementMisleadsIff(s: State, version: Version)
    requires Reachable(false, s) && NewContent(s, version)
    ensures (exists t, r :: Runs.Leads(Steps(false), Apply(s, Replace(version)), t) && Misled(t, r)) <==> Held(s, version.mark)
  {
    hide Runs.Leads, Steps, Inv, Misled, RightRead, RightCache, NewContent, Held;
    InvStays(START, s) by { EmptyIsSound(); }
    if Held(s, version.mark) {
      var t, r := HeldMisleads(s, version);
    } else {
      Then(false, START, s, Replace(version));
      var u := Apply(s, Replace(version));
      forall t, r | Runs.Leads(Steps(false), u, t)
        ensures !Misled(t, r)
      {
        Runs.Through(Steps(false), START, u, t);
        NobodyMisled(t, r);
      }
    }
  }

  lemma EmptyIsSound()
    ensures Inv(START)
  {
  }

  lemma NobodyMisled(s: State, r: ReadId)
    requires Reachable(false, s)
    ensures !Misled(s, r)
  {
    hide RightRead;
    ReachableIsRight(s);
    if Misled(s, r) { MisledIsWrong(s, r); }
  }

  /** A run in which a read is misled. */
  lemma RepeatedMarkServesOldFile() returns (s: State, r: ReadId)
    ensures Reachable(true, s) && Misled(s, r)
  {
    hide Runs.Leads, Steps, Misled;
    CachedIsReachable();
    InvStays(START, CACHED) by { EmptyIsSound(); }
    Runs.Stays(Steps(false), Apply(CACHED, Replace(NEW)));
    s, r := CacheMisleads(Apply(CACHED, Replace(NEW)), Apply(CACHED, Replace(NEW)));
    AlsoAnyRun(START, CACHED);
    Then(true, START, CACHED, Replace(NEW));
    AlsoAnyRun(Apply(CACHED, Replace(NEW)), s);
    Runs.Through(Steps(true), START, Apply(CACHED, Replace(NEW)), s);
  }

  lemma StepOf(s: State, t: State) returns (e: Event)
    requires Steps(false)(s, t)
    ensures Allowed(false, s, e) && t == Apply(s, e)
  {
    e :| Allowed(false, s, e) && t == Apply(s, e);
  }

  lemma AlsoAnyRun(s: State, t: State)
    requires Runs.Leads(Steps(false), s, t)
    ensures Runs.Leads(Steps(true), s, t)
  {
    hide Apply, Enabled, Runs.Leads;
    forall a, b | Steps(false)(a, b)
      ensures Steps(true)(a, b)
    {
      var e := StepOf(a, b);
      assert Allowed(true, a, e);
    }
    Runs.Wider(Steps(false), Steps(true), s, t);
  }

  lemma ReachableIsRight(s: State)
    requires Reachable(false, s)
    ensures RightCache(s) && forall r :: r in s.calls ==> RightRead(s, s.calls[r])
  {
    hide Apply, Enabled;
    InvStays(START, s);
    CacheIsRight(s);
    forall r | r in s.calls
      ensures RightRead(s, s.calls[r])
    {
      ReadsAreLinear(s, r);
    }
  }

  // ---------------------------------------------------------------------------------------
  // The registry object, from await to await

  /** The fields `cache` and `filling`, the file, and the calls and fills under way. */
  class CachingReader {
    var disk: seq<Version>
    var cache: Option<Cached>
    var filling: Option<FillId>
    var calls: map<ReadId, Read>
    var fills: map<FillId, Fill>
    var next: nat

    constructor ()
      ensures Machine() == START
    {
      disk, cache, filling, calls, fills, next := [Version(0, None)], None, None, map[], map[], 0;
    }

    function Machine(): State
      reads this
    {
      State(disk, cache, filling, calls, fills, next)
    }

    /** read, from its stat to the await of the fill: the file if it is cached, else a fill, shared if there is one. */
    method AfterStat(id: ReadId) returns (returned: bool)
      requires Enabled(Machine(), Decide(id))
      modifies this
      ensures Machine() == Apply(old(Machine()), Decide(id))
      ensures returned <==> calls[id].Returned?
      ensures returned <==> old(cache).Some? && old(cache.value.key) == old(calls[id].key)
      ensures returned ==> calls[id].file == old(cache.value.file) && fills == old(fills)
      ensures !returned ==>
        && filling.Some? && calls[id] == Awaiting(old(calls[id].start), old(calls[id].seen), filling.value)
        && filling.value in fills && fills[filling.value].key == old(calls[id].key)
        && (if old(filling).Some? && old(filling.value) in old(fills) && old(fills[filling.value].key) == old(calls[id].key)
            then filling == old(filling) && fills == old(fills)
            else fills == old(fills)[old(next) := Opening(old(calls[id].key))] && filling == Some(old(next)))
    {
      var Deciding(start, key, seen) := calls[id];
      if cache.Some? && cache.value.key == key {
        calls := calls[id := Returned(start, cache.value.file, cache.value.version, Now(Machine()))];
        return true;
      }
      if filling.None? || filling.value !in fills || fills[filling.value].key != key {
        fills := fills[next := Opening(key)];
        filling := Some(next);
        next := next + 1;
      }
      calls := calls[id := Awaiting(start, seen, filling.value)];
      return false;
    }

    /** read again after the fill: its file, or nothing and no cache if the file was gone. */
    method AfterFill(id: ReadId)
      requires Enabled(Machine(), Deliver(id))
      modifies this
      ensures Machine() == Apply(old(Machine()), Deliver(id))
      ensures calls[id].Returned? && calls[id].start == old(calls[id].start)
      ensures var fill := old(fills[calls[id].fill]);
        && (fill.Resolved? ==> calls[id].file == fill.file && cache == old(cache))
        && (fill.Rejected? ==> calls[id].file.None? && cache.None?)
    {
      var Awaiting(start, _, fill) := calls[id];
      match fills[fill] {
        case Resolved(_, file, version) =>
          calls := calls[id := Returned(start, file, version, Now(Machine()))];
        case Rejected(_, version) =>
          cache := None;
          calls := calls[id := Returned(start, None, version, Now(Machine()))];
      }
    }

    /** fillCache after its last stat: caches the file if its version is still the present one. */
    method AfterLastStat(fill: FillId)
      requires Enabled(Machine(), Finish(fill))
      modifies this
      ensures Machine() == Apply(old(Machine()), Finish(fill))
      ensures cache == old(cache) || (cache.Some? && cache.value.key == Current(Machine()).mark)
      ensures var present := Current(old(Machine()));
        var loaded := old(fills[fill]);
        if present.file.Some? && present.mark == loaded.key
        then cache == Some(Cached(loaded.key, loaded.file, loaded.version)) && fills[fill] == Resolved(loaded.key, loaded.file, loaded.version)
        else cache == old(cache) && (if present.file.None? then fills[fill].Rejected? else fills[fill] == Redoing(loaded.key, old(next)))
    {
      var Loaded(key, file, version) := fills[fill];
      var info := Current(Machine());
      if info.file.None? {
        fills := fills[fill := Rejected(key, Now(Machine()))];
        return;
      }
      if key != info.mark {
        calls := calls[next := Statting(Now(Machine()))];
        fills := fills[fill := Redoing(key, next)];
        next := next + 1;
        return;
      }
      cache := Some(Cached(key, file, version));
      fills := fills[fill := Resolved(key, file, version)];
    }

    /** write: drops the cache, replaces the file, drops the cache again; `between` is what runs meanwhile. */
    method Write(file: string, mark: Mark, between: seq<Event>)
      requires Inv(Machine()) && Unused(Machine(), mark) && forall i :: 0 <= i < |between| ==> !between[i].Replace?
      modifies this
      ensures Inv(Machine()) && Runs.Leads(Steps(false), old(Machine()), Machine())
      ensures cache.None? && Current(Machine()) == Version(mark, Some(file)) && disk == old(disk) + [Version(mark, Some(file))]
    {
      hide Inv, Steps, Runs.Leads, Apply, Enabled, Unused, Grows;
      ghost var s0 := Machine();
      Runs.Stays(Steps(false), s0);
      ClearLeads(s0, s0);
      cache := None;
      for i := 0 to |between|
        invariant Inv(Machine()) && Runs.Leads(Steps(false), s0, Machine()) && disk == old(disk) && Unused(Machine(), mark)
      {
        if Enabled(Machine(), between[i]) {
          OthersStep(s0, Machine(), between[i]);
          StaysUnused(Machine(), between[i], mark);
          var after := Apply(Machine(), between[i]);
          disk, cache, filling, calls, fills, next := after.disk, after.cache, after.filling, after.calls, after.fills, after.next;
        }
      }
      ReplaceLeads(s0, Machine(), Version(mark, Some(file)));
      disk := disk + [Version(mark, Some(file))];
      ClearLeads(s0, Machine());
      cache := None;
    }
  }

  /** Nobody mentions the fingerprint: neither the present version, nor cache, reads, or fills under way. */
  predicate Unused(s: State, mark: Mark) {
    && (Current(s).file.Some? ==> Current(s).mark != mark)
    && (s.cache.Some? ==> s.cache.value.key != mark)
    && (forall r :: r in s.calls && s.calls[r].Deciding? ==> s.calls[r].key != mark)
    && (forall f :: f in s.fills && s.fills[f].key == mark ==> Over(s.fills[f]) && s.filling != Some(f))
  }

  /** The fill has got past its last stat. */
  predicate Over(fill: Fill) {
    fill.Redoing? || fill.Resolved? || fill.Rejected?
  }

  lemma UnusedIsFree(s: State, mark: Mark)
    requires Unused(s, mark)
    ensures !Held(s, mark)
  {
  }

  /** Only a stat of the file makes somebody mention a fingerprint. */
  lemma StaysUnused(s: State, e: Event, mark: Mark)
    requires Enabled(s, e) && !e.Replace? && Unused(s, mark)
    ensures Unused(Apply(s, e), mark)
  {
  }

  lemma ClearLeads(s: State, t: State)
    requires Runs.Leads(Steps(false), s, t) && Inv(t)
    ensures Runs.Leads(Steps(false), s, t.(cache := None)) && Inv(t.(cache := None))
    ensures forall mark :: Unused(t, mark) ==> Unused(t.(cache := None), mark)
  {
    hide Runs.Leads, Steps;
    Then(false, s, t, Clear);
    OtherStep(t, Clear);
  }

  lemma ReplaceLeads(s: State, t: State, version: Version)
    requires Runs.Leads(Steps(false), s, t) && Inv(t) && Unused(t, version.mark)
    ensures Runs.Leads(Steps(false), s, t.(disk := t.disk + [version])) && Inv(t.(disk := t.disk + [version]))
  {
    hide Runs.Leads, Steps, Held, Unused;
    UnusedIsFree(t, version.mark);
    Then(false, s, t, Replace(version));
    ReplaceStep(t, version);
  }

  lemma OthersStep(s: State, t: State, e: Event)
    requires Runs.Leads(Steps(false), s, t) && Inv(t) && Enabled(t, e) && !e.Replace?
    ensures Runs.Leads(Steps(false), s, Apply(t, e)) && Inv(Apply(t, e)) && Apply(t, e).disk == t.disk
  {
    hide Runs.Leads, Steps, Inv;
    Then(false, s, t, e);
    Step(t, e);
  }
}
