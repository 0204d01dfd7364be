/**
 The project registry as a merge forest: src/project-registry.ts:69-225 and 310-394.
 Aliases are sets; `key` stands for normalizeProjectKey.  Descriptions and todos are left out.
 */
module ProjectRegistry {
  import opened Common

  type Key = string -> string

  datatype ProjectState = Active | Archived | Merged | Deleted

  /** `mergedAt` is a history variable: which merge of the registry retired the project. */
  datatype Project = Project(account: string, id: string, name: string, aliases: set<string>, state: ProjectState,
                             mergedInto: Option<string>, mergedAt: nat)

  datatype Registry = Registry(projects: seq<Project>, merges: nat)

  const EMPTY := Registry([], 0)

  /** What one locked mutation is asked to do; the ids were resolved before the lock was taken. */
  datatype Change =
    | Create(account: string, id: string, name: string, aliases: set<string>)
    | Update(account: string, id: string, newName: Option<string>, newAliases: Option<set<string>>)
    | Merge(account: string, source: string, target: string)
    | Move(account: string, id: string, from: ProjectState, to: ProjectState)

  const ARCHIVING := (Active, Archived)
  const UNARCHIVING := (Archived, Active)
  const DELETING := (Active, Deleted)

  // ---------------------------------------------------------------------------------------
  // Lookups

  function Find(projects: seq<Project>, p: Project -> bool): (r: Option<nat>)
    ensures r.Some? ==> r.value < |projects| && p(projects[r.value]) && forall i :: 0 <= i < r.value ==> !p(projects[i])
    ensures r.None? ==> forall i :: 0 <= i < |projects| ==> !p(projects[i])
  {
    if |projects| == 0 then None
    else if p(projects[0]) then Some(0)
    else match Find(projects[1..], p)
         case Some(i) => Some(i + 1)
         case None => None
  }

  /** requireActive and requireArchived. */
  function Require(projects: seq<Project>, account: string, id: string, state: ProjectState): (r: Option<nat>)
    ensures r.Some? ==> r.value < |projects| && projects[r.value].account == account && projects[r.value].id == id && projects[r.value].state == state
  {
    Find(projects, (p: Project) => p.account == account && p.id == id && p.state == state)
  }

  function Names(p: Project): set<string> {
    {p.id, p.name} + p.aliases
  }

  predicate HasKey(p: Project, key: Key, k: string) {
    exists value :: value in Names(p) && key(value) == k
  }

  /** The account already has a project that goes by the new id. */
  predicate Taken(projects: seq<Project>, key: Key, account: string, id: string) {
    exists i :: 0 <= i < |projects| && projects[i].account == account && HasKey(projects[i], key, key(id))
  }

  /** ensureAliasesAvailable would throw. */
  predicate AliasTaken(projects: seq<Project>, key: Key, account: string, id: string, aliases: set<string>) {
    exists i :: 0 <= i < |projects| && Collides(projects[i], key, account, id, aliases)
  }

  predicate Collides(p: Project, key: Key, account: string, id: string, aliases: set<string>) {
    p.account == account && p.id != id && p.state == Active && exists value :: value in Names(p) && key(value) in KeysOf(key, aliases)
  }

  function KeysOf(key: Key, aliases: set<string>): set<string> {
    set value | value in aliases :: key(value)
  }

  /** unique: duplicates and empty texts are dropped. */
  function NonEmpty(values: set<string>): set<string> {
    values - {""}
  }

  /** The aliases asked for that are not just another spelling of the id. */
  function Wanted(key: Key, id: string, aliases: set<string>): set<string> {
    set value | value in NonEmpty(aliases) && key(value) != key(id) :: value
  }

  predicate MergedDirectly(p: Project, account: string, id: string) {
    p.account == account && p.state == Merged && p.mergedInto == Some(id)
  }

  /** Names of the projects merged directly into the given one. */
  function Historical(projects: seq<Project>, account: string, id: string): set<string> {
    if |projects| == 0 then {}
    else
      var rest := Historical(projects[1..], account, id);
      if MergedDirectly(projects[0], account, id) then Names(projects[0]) + rest else rest
  }

  lemma {:induction false} HistoricalHas(projects: seq<Project>, account: string, id: string, i: nat)
    requires i < |projects| && MergedDirectly(projects[i], account, id)
    ensures Names(projects[i]) <= Historical(projects, account, id)
  {
    hide Names;
    if i > 0 {
      HistoricalHas(projects[1..], account, id, i - 1);
    }
  }

  /** storageIds: where the memories of a project may be stored. */
  function StorageIds(projects: seq<Project>, account: string, id: string): set<string> {
    var target := Find(projects, (p: Project) => p.account == account && p.id == id && (p.state == Active || p.state == Archived));
    if target.None? then {id}
    else NonEmpty({projects[target.value].id} + projects[target.value].aliases + Historical(projects, account, id))
  }

  // ---------------------------------------------------------------------------------------
  // Changes

  function Renamed(p: Project, name: Option<string>): Project {
    if name.Some? then p.(name := name.value) else p
  }

  function Realiased(key: Key, projects: seq<Project>, p: Project, aliases: Option<set<string>>): Project {
    if aliases.None? then p
    else p.(aliases := NonEmpty(Wanted(key, p.id, aliases.value) + Historical(projects, p.account, p.id)) - {p.id})
  }

  function Absorbed(target: Project, source: Project): Project {
    target.(aliases := NonEmpty(target.aliases + Names(source)) - {target.id})
  }

  /** The registry after one locked mutation, or None where it throws and nothing is written. */
  function Changed(key: Key, r: Registry, c: Change): Option<Registry> {
    match c
    case Create(account, id, name, aliases) =>
      var wanted := Wanted(key, id, aliases);
      if id == "" || Taken(r.projects, key, account, id) || AliasTaken(r.projects, key, account, id, wanted) then None
      else Some(r.(projects := r.projects + [Project(account, id, if name == "" then id else name, wanted, Active, None, 0)]))
    case Update(account, id, name, aliases) =>
      (match Require(r.projects, account, id, Active)
       case None => None
       case Some(i) =>
         if name == Some("") then None
         else
           var p := Renamed(r.projects[i], name);
           if aliases.Some? && AliasTaken(r.projects, key, account, id, Wanted(key, id, aliases.value)) then None
           else Some(r.(projects := r.projects[i := Realiased(key, r.projects, p, aliases)])))
    case Merge(account, source, target) =>
      if source == target then None
      else
        var i, j := Require(r.projects, account, source, Active), Require(r.projects, account, target, Active);
        if i.None? || j.None? then None
        else
          var from, into := r.projects[i.value], r.projects[j.value];
          Some(Registry(r.projects[j.value := Absorbed(into, from)]
                          [i.value := from.(state := Merged, mergedInto := Some(target), mergedAt := r.merges)], r.merges + 1))
    case Move(account, id, from, to) =>
      if (from, to) !in {ARCHIVING, UNARCHIVING, DELETING} then None
      else match Require(r.projects, account, id, from)
           case None => None
           case Some(i) => Some(r.(projects := r.projects[i := r.projects[i].(state := to)]))
  }

  function Apply(key: Key, r: Registry, c: Change): Registry {
    match Changed(key, r, c)
    case Some(t) => t
    case None => r
  }

  function Replay(key: Key, r: Registry, changes: seq<Change>): Registry
    decreases |changes|
  {
    if |changes| == 0 then r else Replay(key, Apply(key, r, changes[0]), changes[1..])
  }

  ghost predicate Reachable(key: Key, r: Registry) {
    exists changes :: r == Replay(key, EMPTY, changes)
  }

  // ---------------------------------------------------------------------------------------
  // Invariant

  ghost predicate UniqueIds(r: Registry) {
    forall i, j :: 0 <= i < j < |r.projects| ==> !(r.projects[i].account == r.projects[j].account && r.projects[i].id == r.projects[j].id)
  }

  /** A project is merged exactly if it links to a target. */
  ghost predicate LinkInv(p: Project, merges: nat) {
    && p.id != ""
    && (p.state == Merged <==> p.mergedInto.Some?)
    && (p.state == Merged ==> p.mergedAt < merges)
  }

  /** `q` links to `p`: then `p` was not merged before and knows all of the names of `q`. */
  ghost predicate Linked(q: Project, p: Project) {
    && q.account == p.account && q.mergedInto == Some(p.id)
  }

  ghost predicate TargetInv(q: Project, p: Project) {
    Linked(q, p) ==>
      && q.id != p.id
      && (p.state == Merged ==> q.mergedAt < p.mergedAt)
      && q.id in p.aliases && Names(q) - {p.id, ""} <= p.aliases
  }

  ghost predicate HasTarget(projects: seq<Project>, q: Project) {
    q.mergedInto.Some? ==> exists j :: 0 <= j < |projects| && Linked(q, projects[j])
  }

  ghost predicate Inv(r: Registry) {
    && UniqueIds(r)
    && (forall i :: 0 <= i < |r.projects| ==> LinkInv(r.projects[i], r.merges))
    && (forall i :: 0 <= i < |r.projects| ==> HasTarget(r.projects, r.projects[i]))
    && (forall i, j :: 0 <= i < |r.projects| && 0 <= j < |r.projects| ==> TargetInv(r.projects[i], r.projects[j]))
  }

  /** A merged project never changes again, and no project ever loses its identity. */
  ghost predicate ProjectKeeps(a: Project, b: Project) {
    b.account == a.account && b.id == a.id && (a.state == Merged ==> b == a)
  }

  ghost predicate Keeps(r: Registry, t: Registry) {
    && |r.projects| <= |t.projects| && r.merges <= t.merges
    && forall i :: 0 <= i < |r.projects| ==> ProjectKeeps(r.projects[i], t.projects[i])
  }

  /** The ids stay in place, so targets stay found. */
  lemma TargetsStay(r: Registry, t: Registry)
    requires Inv(r) && Keeps(r, t)
    ensures forall i :: 0 <= i < |r.projects| && t.projects[i].mergedInto == r.projects[i].mergedInto ==> HasTarget(t.projects, t.projects[i])
  {
    forall i | 0 <= i < |r.projects| && t.projects[i].mergedInto == r.projects[i].mergedInto
      ensures HasTarget(t.projects, t.projects[i])
    {
      assert ProjectKeeps(r.projects[i], t.projects[i]);
      assert HasTarget(r.projects, r.projects[i]);
      if r.projects[i].mergedInto.Some? {
        var j :| 0 <= j < |r.projects| && Linked(r.projects[i], r.projects[j]);
        assert ProjectKeeps(r.projects[j], t.projects[j]);
        assert Linked(t.projects[i], t.projects[j]);
      }
    }
  }

  lemma TakenBySameId(projects: seq<Project>, key: Key, account: string, id: string, i: nat)
    requires i < |projects| && projects[i].account == account && projects[i].id == id
    ensures Taken(projects, key, account, id)
  {
    assert id in Names(projects[i]);
    assert HasKey(projects[i], key, key(id));
  }

  lemma CreateStep(key: Key, r: Registry, c: Change)
    requires Inv(r) && c.Create? && Changed(key, r, c).Some?
    ensures Inv(Changed(key, r, c).value) && Keeps(r, Changed(key, r, c).value)
  {
    hide Wanted, AliasTaken, Taken;
    var t := Changed(key, r, c).value;
    var n := |r.projects|;
    forall i | 0 <= i < n
      ensures !(r.projects[i].account == c.account && r.projects[i].id == c.id)
    {
      if r.projects[i].account == c.account && r.projects[i].id == c.id {
        TakenBySameId(r.projects, key, c.account, c.id, i);
      }
    }
    assert Keeps(r, t);
    TargetsStay(r, t);
    forall i, j | 0 <= i < |t.projects| && 0 <= j < |t.projects|
      ensures TargetInv(t.projects[i], t.projects[j])
    {
      if i < n && j < n {
        assert TargetInv(r.projects[i], r.projects[j]);
      } else if i < n && r.projects[i].mergedInto.Some? {
        assert HasTarget(r.projects, r.projects[i]);
      }
    }
  }

  lemma UpdateStep(key: Key, r: Registry, c: Change)
    requires Inv(r) && c.Update? && Changed(key, r, c).Some?
    ensures Inv(Changed(key, r, c).value) && Keeps(r, Changed(key, r, c).value)
  {
    hide Realiased, Renamed, AliasTaken, TargetInv, HasTarget;
    var t := Changed(key, r, c).value;
    var k := Require(r.projects, c.account, c.id, Active).value;
    UpdatedShape(key, r, c.newName, c.newAliases, k);
    assert LinkInv(r.projects[k], r.merges);
    assert Keeps(r, t);
    TargetsStay(r, t);
    forall i, j | 0 <= i < |t.projects| && 0 <= j < |t.projects|
      ensures TargetInv(t.projects[i], t.projects[j])
    {
      UpdateTarget(key, r, c.newName, c.newAliases, k, i, j);
    }
  }

  lemma UpdatedShape(key: Key, r: Registry, name: Option<string>, aliases: Option<set<string>>, k: nat)
    requires k < |r.projects|
    ensures var p := Realiased(key, r.projects, Renamed(r.projects[k], name), aliases);
      p == r.projects[k].(name := p.name, aliases := p.aliases)
  {
  }

  lemma UpdateTarget(key: Key, r: Registry, name: Option<string>, aliases: Option<set<string>>, k: nat, i: nat, j: nat)
    requires Inv(r) && k < |r.projects| && i < |r.projects| && j < |r.projects| && r.projects[k].state == Active
    ensures var t := r.projects[k := Realiased(key, r.projects, Renamed(r.projects[k], name), aliases)];
      TargetInv(t[i], t[j])
  {
    hide Wanted, Historical, HasTarget;
    assert TargetInv(r.projects[i], r.projects[j]);
    assert LinkInv(r.projects[i], r.merges) && LinkInv(r.projects[k], r.merges);
    if j == k && i != k && Linked(r.projects[i], r.projects[k]) {
      HistoricalHas(r.projects, r.projects[k].account, r.projects[k].id, i);
    }
  }

  lemma MergeStep(key: Key, r: Registry, c: Change)
    requires Inv(r) && c.Merge? && Changed(key, r, c).Some?
    ensures Inv(Changed(key, r, c).value) && Keeps(r, Changed(key, r, c).value)
  {
    hide TargetInv, HasTarget, Names;
    var t := Changed(key, r, c).value;
    var i, j := Require(r.projects, c.account, c.source, Active).value, Require(r.projects, c.account, c.target, Active).value;
    assert LinkInv(r.projects[i], r.merges) && LinkInv(r.projects[j], r.merges);
    assert Keeps(r, t);
    TargetsStay(r, t);
    SourceHasTarget(t.projects, i, j);
    forall k, l | 0 <= k < |t.projects| && 0 <= l < |t.projects|
      ensures TargetInv(t.projects[k], t.projects[l])
    {
      MergeTarget(key, r, c, i, j, k, l);
    }
  }

  lemma SourceHasTarget(projects: seq<Project>, i: nat, j: nat)
    requires i < |projects| && j < |projects| && Linked(projects[i], projects[j])
    ensures HasTarget(projects, projects[i])
  {
  }

  lemma MergeTarget(key: Key, r: Registry, c: Change, i: nat, j: nat, k: nat, l: nat)
    requires Inv(r) && c.Merge? && Changed(key, r, c).Some?
    requires Require(r.projects, c.account, c.source, Active) == Some(i) && Require(r.projects, c.account, c.target, Active) == Some(j)
    requires k < |r.projects| && l < |r.projects|
    ensures var t := Changed(key, r, c).value; |t.projects| == |r.projects| && TargetInv(t.projects[k], t.projects[l])
  {
    assert TargetInv(r.projects[k], r.projects[l]);
    assert LinkInv(r.projects[k], r.merges) && LinkInv(r.projects[i], r.merges) && LinkInv(r.projects[j], r.merges);
  }

  lemma MoveStep(key: Key, r: Registry, c: Change)
    requires Inv(r) && c.Move? && Changed(key, r, c).Some?
    ensures Inv(Changed(key, r, c).value) && Keeps(r, Changed(key, r, c).value)
  {
    var t := Changed(key, r, c).value;
    var k := Require(r.projects, c.account, c.id, c.from).value;
    assert LinkInv(r.projects[k], r.merges);
    assert Keeps(r, t);
    TargetsStay(r, t);
    forall i, j | 0 <= i < |t.projects| && 0 <= j < |t.projects|
      ensures TargetInv(t.projects[i], t.projects[j])
    {
      assert TargetInv(r.projects[i], r.projects[j]);
    }
  }

  lemma KeepsStays(r: Registry)
    ensures Keeps(r, r)
  {
  }

  lemma Step(key: Key, r: Registry, c: Change)
    requires Inv(r)
    ensures Inv(Apply(key, r, c)) && Keeps(r, Apply(key, r, c))
  {
    hide Inv, Keeps, Changed;
    KeepsStays(r);
    if Changed(key, r, c).Some? {
      match c
      case Create(_, _, _, _) => CreateStep(key, r, c);
      case Update(_, _, _, _) => UpdateStep(key, r, c);
      case Merge(_, _, _) => MergeStep(key, r, c);
      case Move(_, _, _, _) => MoveStep(key, r, c);
    }
  }

  lemma KeepsThrough(r: Registry, t: Registry, u: Registry)
    requires Keeps(r, t) && Keeps(t, u)
    ensures Keeps(r, u)
  {
    forall i | 0 <= i < |r.projects|
      ensures ProjectKeeps(r.projects[i], u.projects[i])
    {
      assert ProjectKeeps(r.projects[i], t.projects[i]) && ProjectKeeps(t.projects[i], u.projects[i]);
    }
  }

  lemma {:induction false} ReplayKeeps(key: Key, r: Registry, changes: seq<Change>)
    requires Inv(r)
    ensures Inv(Replay(key, r, changes)) && Keeps(r, Replay(key, r, changes))
    decreases |changes|
  {
    hide Inv, Keeps, Apply;
    if |changes| == 0 {
      KeepsStays(r);
    } else {
      Step(key, r, changes[0]);
      ReplayKeeps(key, Apply(key, r, changes[0]), changes[1..]);
      KeepsThrough(r, Apply(key, r, changes[0]), Replay(key, r, changes));
    }
  }

  lemma ReachableInv(key: Key, r: Registry)
    requires Reachable(key, r)
    ensures Inv(r)
  {
    hide Apply, Keeps;
    var changes :| r == Replay(key, EMPTY, changes);
    ReplayKeeps(key, EMPTY, changes);
  }

  // ---------------------------------------------------------------------------------------
  // The forest

  /** Projects of the registry, each merged into the next. */
  ghost predicate IsPath(r: Registry, path: seq<Project>) {
    && |path| > 0 && (forall i :: 0 <= i < |path| ==> path[i] in r.projects)
    && forall i :: 0 <= i < |path| - 1 ==> Linked(path[i], path[i + 1])
  }

  /** The walk along mergedInto links from a project, up to one that is not merged. */
  function Walk(r: Registry, p: Project): (path: seq<Project>)
    requires Inv(r) && p in r.projects
    ensures IsPath(r, path) && path[0] == p && path[|path| - 1].state != Merged
    decreases if p.state == Merged then r.merges - p.mergedAt else 0
  {
    var i := Find(r.projects, (q: Project) => q == p).value;
    assert LinkInv(p, r.merges);
    if p.state != Merged then [p]
    else
      assert HasTarget(r.projects, r.projects[i]);
      var j := Find(r.projects, (q: Project) => q.account == p.account && Some(q.id) == p.mergedInto).value;
      assert TargetInv(r.projects[i], r.projects[j]);
      assert LinkInv(r.projects[j], r.merges);
      [p] + Walk(r, r.projects[j])
  }

  lemma PathLink(key: Key, r: Registry, path: seq<Project>, n: nat)
    requires Inv(r) && IsPath(r, path) && n < |path| - 1
    ensures TargetInv(path[n], path[n + 1]) && LinkInv(path[n], r.merges) && path[n].state == Merged
    ensures path[n].account == path[n + 1].account
  {
    assert Linked(path[n], path[n + 1]);
    var i :| 0 <= i < |r.projects| && r.projects[i] == path[n];
    var j :| 0 <= j < |r.projects| && r.projects[j] == path[n + 1];
    assert TargetInv(r.projects[i], r.projects[j]);
  }

  /** Along a path the merges happened in order. */
  lemma {:induction false} PathIncreases(key: Key, r: Registry, path: seq<Project>, n: nat)
    requires Inv(r) && IsPath(r, path) && 0 < n < |path|
    ensures path[0].state == Merged && path[0].account == path[n].account
    ensures path[n].state == Merged ==> path[0].mergedAt < path[n].mergedAt
  {
    hide Inv, TargetInv;
    PathLink(key, r, path, n - 1);
    LinkOrders(path[n - 1], path[n]);
    if n > 1 {
      PathIncreases(key, r, path, n - 1);
    }
  }

  lemma LinkOrders(q: Project, p: Project)
    requires TargetInv(q, p) && Linked(q, p)
    ensures p.state == Merged ==> q.mergedAt < p.mergedAt
  {
  }

  /** In every reachable registry, following mergedInto never comes back to where it started. */
  lemma {:induction false} MergesAreAcyclic(key: Key, r: Registry, path: seq<Project>)
    requires Reachable(key, r) && IsPath(r, path) && |path| > 1
    ensures path[0] != path[|path| - 1] && path[0].id != path[|path| - 1].id
  {
    hide Reachable;
    ReachableInv(key, r);
    PathIncreases(key, r, path, |path| - 1);
    var i :| 0 <= i < |r.projects| && r.projects[i] == path[0];
    var j :| 0 <= j < |r.projects| && r.projects[j] == path[|path| - 1];
    DifferentIds(r, i, j);
  }

  lemma DifferentIds(r: Registry, i: nat, j: nat)
    requires UniqueIds(r) && i < |r.projects| && j < |r.projects| && i != j
    requires r.projects[i].account == r.projects[j].account
    ensures r.projects[i].id != r.projects[j].id
  {
  }

  lemma SameProject(r: Registry, i: nat, j: nat)
    requires UniqueIds(r) && i < |r.projects| && j < |r.projects|
    requires r.projects[i].account == r.projects[j].account && r.projects[i].id == r.projects[j].id
    ensures i == j
  {
  }

  /** The end of a path knows the id of its start by its aliases. */
  lemma {:induction false} PathIsKnown(key: Key, r: Registry, path: seq<Project>)
    requires Reachable(key, r) && IsPath(r, path) && |path| > 1
    ensures path[0].id in path[|path| - 1].aliases
    decreases |path|
  {
    hide Reachable, Inv;
    ReachableInv(key, r);
    var n := |path| - 1;
    PathLink(key, r, path, n - 1);
    PathLink(key, r, path, 0);
    MergesAreAcyclic(key, r, path);
    if n > 1 {
      assert IsPath(r, path[..n]);
      PathIsKnown(key, r, path[..n]);
      assert path[..n][n - 1] == path[n - 1];
    }
    assert Linked(path[n - 1], path[n]);
  }

  /**
   In every reachable registry, however aliases were updated since: the storage ids of an active
   or archived project contain the id of every project merged into it, directly or through others.
   */
  lemma {:induction false} StorageIdsCoverMerges(key: Key, r: Registry, path: seq<Project>)
    requires Reachable(key, r) && IsPath(r, path)
    requires path[|path| - 1].state == Active || path[|path| - 1].state == Archived
    ensures path[0].id in StorageIds(r.projects, path[|path| - 1].account, path[|path| - 1].id)
  {
    hide Reachable, Historical;
    ReachableInv(key, r);
    var last := path[|path| - 1];
    if |path| > 1 {
      PathIsKnown(key, r, path);
    }
    var i :| 0 <= i < |r.projects| && r.projects[i] == path[0];
    assert LinkInv(r.projects[i], r.merges);
    var j :| 0 <= j < |r.projects| && r.projects[j] == last;
    var found := Find(r.projects, (p: Project) => p.account == last.account && p.id == last.id && (p.state == Active || p.state == Archived));
    SameProject(r, found.value, j);
  }

  /** So where the walk from a project ends in a live one, that one's storage ids have the project. */
  lemma {:induction false} WalkEndKnowsStart(key: Key, r: Registry, p: Project)
    requires Reachable(key, r) && Inv(r) && p in r.projects
    ensures var root := Walk(r, p)[|Walk(r, p)| - 1];
      && root.state != Merged
      && (root.state == Active || root.state == Archived ==> p.id in StorageIds(r.projects, root.account, root.id))
  {
    hide Reachable, Inv, StorageIds;
    var path := Walk(r, p);
    if path[|path| - 1].state != Deleted {
      StorageIdsCoverMerges(key, r, path);
    }
  }

  /** Once merged, a project keeps its link, its names and its place for good. */
  lemma {:induction false} MergedForGood(key: Key, r: Registry, later: seq<Change>, i: nat)
    requires Reachable(key, r) && i < |r.projects|
    ensures var t := Replay(key, r, later);
      i < |t.projects| && t.projects[i].id == r.projects[i].id && (r.projects[i].state == Merged ==> t.projects[i] == r.projects[i])
  {
    hide Reachable, Inv, Replay;
    ReachableInv(key, r);
    ReplayKeeps(key, r, later);
    assert ProjectKeeps(r.projects[i], Replay(key, r, later).projects[i]);
  }

  // ---------------------------------------------------------------------------------------
  // The registry object

  /** resolve: an exact name, else a spelling of one, else a merged project's live target. */
  function Resolve(key: Key, projects: seq<Project>, account: string, ref: string, includeArchived: bool): (r: Option<string>)
    ensures r.Some? ==> exists i :: 0 <= i < |projects| && projects[i].account == account && projects[i].id == r.value && Routable(projects[i], includeArchived)
  {
    var exact := Find(projects, (p: Project) => p.account == account && Routable(p, includeArchived) && ref in Names(p));
    var spelled := Find(projects, (p: Project) => p.account == account && Routable(p, includeArchived) && HasKey(p, key, key(ref)));
    var historical := Find(projects, (p: Project) => p.account == account && p.state == Merged && (ref in Names(p) || HasKey(p, key, key(ref))));
    if exact.Some? then Some(projects[exact.value].id)
    else if spelled.Some? then Some(projects[spelled.value].id)
    else if historical.None? || projects[historical.value].mergedInto.None? then None
    else
      var target := Find(projects, (p: Project) => p.account == account && Some(p.id) == projects[historical.value].mergedInto && Routable(p, includeArchived));
      if target.None? then None else Some(projects[target.value].id)
  }

  predicate Routable(p: Project, includeArchived: bool) {
    p.state == Active || (includeArchived && p.state == Archived)
  }

  /** Whatever the start of a path goes by, its end goes by. */
  lemma {:induction false} NamesReachEnd(key: Key, r: Registry, path: seq<Project>, name: string)
    requires Inv(r) && IsPath(r, path) && name in Names(path[0]) && name != ""
    ensures name in Names(path[|path| - 1])
    decreases |path|
  {
    hide Inv, LinkInv;
    var n := |path| - 1;
    if n > 0 {
      assert IsPath(r, path[..n]);
      NamesReachEnd(key, r, path[..n], name);
      PathLink(key, r, path, n - 1);
    }
  }

  /**
   Merging never takes a name away: in every reachable registry, as long as the project at the end of
   the merges is live, every name of a project merged into it, directly or through others, still
   resolves, to a project that goes by that name; and to the end of the merges itself if no other live
   project of the account goes by it.
   */
  lemma {:induction false} MergedNameResolves(key: Key, r: Registry, path: seq<Project>, name: string, includeArchived: bool)
    requires Reachable(key, r) && IsPath(r, path) && name in Names(path[0]) && name != ""
    requires Routable(path[|path| - 1], includeArchived)
    ensures var last := path[|path| - 1];
      var id := Resolve(key, r.projects, last.account, name, includeArchived);
      && id.Some?
      && (exists q :: q in r.projects && q.account == last.account && q.id == id.value && Routable(q, includeArchived) && name in Names(q))
      && ((forall q :: q in r.projects && q.account == last.account && Routable(q, includeArchived) && name in Names(q) ==> q == last) ==>
            id.value == last.id)
  {
    hide Reachable, Inv, Names, HasKey;
    ReachableInv(key, r);
    NamesReachEnd(key, r, path, name);
    var last := path[|path| - 1];
    var exact := Find(r.projects, (p: Project) => p.account == last.account && Routable(p, includeArchived) && name in Names(p));
    var j :| 0 <= j < |r.projects| && r.projects[j] == last;
    assert exact.Some?;
    assert r.projects[exact.value] in r.projects;
  }

  /** Some name of the project is spelled like the text. */
  predicate GoesBy(key: Key, p: Project, text: string) {
    key(p.id) == key(text) || key(p.name) == key(text) || exists a :: a in p.aliases && key(a) == key(text)
  }

  /** What a reference means: the project it names. */
  predicate Means(key: Key, p: Project, account: string, ref: string, includeArchived: bool) {
    p.account == account && (p.state == Active || (includeArchived && p.state == Archived)) && (p.id == ref || p.name == ref || ref in p.aliases)
  }

  /** Or, where it names none, one with a name that is spelled like it. */
  predicate Resembles(key: Key, p: Project, account: string, ref: string, includeArchived: bool) {
    p.account == account && (p.state == Active || (includeArchived && p.state == Archived)) && GoesBy(key, p, ref)
  }

  /** Or, failing that, the live target of a merged project that goes by it. */
  ghost predicate IsTargetOf(key: Key, projects: seq<Project>, p: Project, account: string, ref: string, includeArchived: bool) {
    && p.account == account && (p.state == Active || (includeArchived && p.state == Archived))
    && exists q :: q in projects && q.account == account && q.state == Merged && q.mergedInto == Some(p.id) && GoesBy(key, q, ref)
  }

  lemma HasKeyIsGoesBy(key: Key, p: Project, text: string)
    ensures HasKey(p, key, key(text)) <==> GoesBy(key, p, text)
  {
    assert p.id in Names(p) && p.name in Names(p);
  }

  /** A reference resolves to a project it means, else to one it resembles, else to a target of a merged one; else to nothing. */
  lemma ResolvePrefers(key: Key, projects: seq<Project>, account: string, ref: string, includeArchived: bool)
    ensures var r := Resolve(key, projects, account, ref, includeArchived);
      && ((exists p :: p in projects && Means(key, p, account, ref, includeArchived)) ==>
            r.Some? && exists p :: p in projects && Means(key, p, account, ref, includeArchived) && p.id == r.value)
      && ((forall p :: p in projects ==> !Means(key, p, account, ref, includeArchived))
          && (exists p :: p in projects && Resembles(key, p, account, ref, includeArchived)) ==>
            r.Some? && exists p :: p in projects && Resembles(key, p, account, ref, includeArchived) && p.id == r.value)
      && ((forall p :: p in projects ==> !Resembles(key, p, account, ref, includeArchived)) && r.Some? ==>
            exists p :: p in projects && IsTargetOf(key, projects, p, account, ref, includeArchived) && p.id == r.value)
  {
    hide HasKey, GoesBy, Names;
    forall p ensures HasKey(p, key, key(ref)) <==> GoesBy(key, p, ref) { HasKeyIsGoesBy(key, p, ref); }
    forall p ensures ref in Names(p) <==> p.id == ref || p.name == ref || ref in p.aliases { NamesAre(p, ref); }
    forall p | ref in Names(p) ensures HasKey(p, key, key(ref)) { NamesHaveKeys(key, p, ref); }
    var exact := Find(projects, (p: Project) => p.account == account && Routable(p, includeArchived) && ref in Names(p));
    var spelled := Find(projects, (p: Project) => p.account == account && Routable(p, includeArchived) && HasKey(p, key, key(ref)));
    var historical := Find(projects, (p: Project) => p.account == account && p.state == Merged && (ref in Names(p) || HasKey(p, key, key(ref))));
    if exact.Some? {
      assert projects[exact.value] in projects && Means(key, projects[exact.value], account, ref, includeArchived);
      assert Resembles(key, projects[exact.value], account, ref, includeArchived);
    } else if spelled.Some? {
      assert projects[spelled.value] in projects && Resembles(key, projects[spelled.value], account, ref, includeArchived);
    } else if historical.Some? && projects[historical.value].mergedInto.Some? {
      var q := projects[historical.value];
      assert q in projects;
      var target := Find(projects, (p: Project) => p.account == account && Some(p.id) == q.mergedInto && Routable(p, includeArchived));
      if target.Some? { assert projects[target.value] in projects && IsTargetOf(key, projects, projects[target.value], account, ref, includeArchived); }
    }
  }

  lemma NamesAre(p: Project, name: string)
    ensures name in Names(p) <==> p.id == name || p.name == name || name in p.aliases
  {
  }

  lemma NamesHaveKeys(key: Key, p: Project, name: string)
    requires name in Names(p)
    ensures HasKey(p, key, key(name))
  {
  }

  /** Whatever is among a project's storage ids is its id, one of its aliases, or a name of a project merged directly into it. */
  lemma StorageIdsAreNames(projects: seq<Project>, account: string, id: string, storage: string)
    requires storage in StorageIds(projects, account, id)
    ensures storage == id
      || (exists p :: p in projects && p.account == account && p.id == id && (p.state == Active || p.state == Archived) && storage in p.aliases)
      || (exists q :: q in projects && q.account == account && q.state == Merged && q.mergedInto == Some(id)
            && (storage == q.id || storage == q.name || storage in q.aliases))
  {
    var target := Find(projects, (p: Project) => p.account == account && p.id == id && (p.state == Active || p.state == Archived));
    if target.Some? {
      assert projects[target.value] in projects;
      if storage in Historical(projects, account, id) {
        var q := HistoricalSource(projects, account, id, storage);
      }
    }
  }

  lemma {:induction false} HistoricalSource(projects: seq<Project>, account: string, id: string, name: string) returns (q: Project)
    requires name in Historical(projects, account, id)
    ensures q in projects && q.account == account && q.state == Merged && q.mergedInto == Some(id)
    ensures name == q.id || name == q.name || name in q.aliases
  {
    if MergedDirectly(projects[0], account, id) && name in Names(projects[0]) {
      q := projects[0];
    } else {
      q := HistoricalSource(projects[1..], account, id, name);
    }
  }

  /** An active project other than the given one goes by the text. */
  ghost predicate Occupied(key: Key, projects: seq<Project>, account: string, id: string, text: string) {
    exists p :: p in projects && p.account == account && p.id != id && p.state == Active && GoesBy(key, p, text)
  }

  lemma AliasTakenIff(key: Key, projects: seq<Project>, account: string, id: string, aliases: set<string>)
    ensures AliasTaken(projects, key, account, id, aliases) <==> exists a :: a in aliases && Occupied(key, projects, account, id, a)
  {
    hide GoesBy;
    forall p, a ensures HasKey(p, key, key(a)) <==> GoesBy(key, p, a) { HasKeyIsGoesBy(key, p, a); }
    if i :| 0 <= i < |projects| && Collides(projects[i], key, account, id, aliases) {
      var value :| value in Names(projects[i]) && key(value) in KeysOf(key, aliases);
      var a :| a in aliases && key(a) == key(value);
      assert HasKey(projects[i], key, key(a));
      assert projects[i] in projects && Occupied(key, projects, account, id, a);
    }
    if a :| a in aliases && Occupied(key, projects, account, id, a) {
      var p :| p in projects && p.account == account && p.id != id && p.state == Active && GoesBy(key, p, a);
      var i :| 0 <= i < |projects| && projects[i] == p;
      assert HasKey(p, key, key(a));
      var value :| value in Names(p) && key(value) == key(a);
      assert key(value) in KeysOf(key, aliases);
      assert Collides(projects[i], key, account, id, aliases);
    }
  }

  lemma TakenIff(key: Key, projects: seq<Project>, account: string, id: string)
    ensures Taken(projects, key, account, id) <==> exists p :: p in projects && p.account == account && GoesBy(key, p, id)
  {
    hide GoesBy, HasKey;
    forall p ensures HasKey(p, key, key(id)) <==> GoesBy(key, p, id) { HasKeyIsGoesBy(key, p, id); }
    if i :| 0 <= i < |projects| && projects[i].account == account && HasKey(projects[i], key, key(id)) {
      assert projects[i] in projects;
    }
  }

  /** The aliases that are kept of those asked for: the texts that are not just another spelling of the id. */
  function Kept(key: Key, id: string, aliases: set<string>): set<string> {
    set a | a in aliases && a != "" && key(a) != key(id)
  }

  lemma KeptIsWanted(key: Key, id: string, aliases: set<string>)
    ensures Wanted(key, id, aliases) == Kept(key, id, aliases)
  {
  }

  /** The project with the id in that state, which is there once. */
  predicate IsThe(p: Project, account: string, id: string, state: ProjectState) {
    p.account == account && p.id == id && p.state == state
  }

  lemma NoneIsThe(projects: seq<Project>, account: string, id: string, state: ProjectState)
    requires Require(projects, account, id, state).None?
    ensures forall p :: p in projects ==> !IsThe(p, account, id, state)
  {
  }

  /** The active project `source` at i points to the active `target` at j, which goes by all its names; nothing else changed. */
  ghost predicate MergedAt(was: seq<Project>, now: seq<Project>, i: int, j: int, account: string, source: string, target: string, at: nat) {
    && 0 <= i < |was| && 0 <= j < |was| && |now| == |was|
    && IsThe(was[i], account, source, Active) && IsThe(was[j], account, target, Active)
    && (forall k :: 0 <= k < |was| && k != i && k != j ==> now[k] == was[k])
    && now[i] == was[i].(state := Merged, mergedInto := Some(target), mergedAt := at)
    && now[j] == was[j].(aliases := was[j].aliases + {source, was[i].name} + was[i].aliases - {"", target})
  }

  /** The aliases asked for, and the names of what was merged directly into the project; never its id, and no empty text. */
  ghost predicate HasAliases(key: Key, projects: seq<Project>, p: Project, aliases: set<string>) {
    forall a :: a in p.aliases <==>
      && a != "" && a != p.id
      && (a in Kept(key, p.id, aliases)
          || exists q :: q in projects && q.account == p.account && q.state == Merged && q.mergedInto == Some(p.id) && a in {q.id, q.name} + q.aliases)
  }

  lemma AliasesAre(key: Key, projects: seq<Project>, p: Project, aliases: set<string>)
    requires p.aliases == NonEmpty(Wanted(key, p.id, aliases) + Historical(projects, p.account, p.id)) - {p.id}
    ensures HasAliases(key, projects, p, aliases)
  {
    hide Wanted, Historical;
    KeptIsWanted(key, p.id, aliases);
    forall a
      ensures a in Historical(projects, p.account, p.id) <==>
        exists q :: q in projects && q.account == p.account && q.state == Merged && q.mergedInto == Some(p.id) && a in {q.id, q.name} + q.aliases
    {
      if a in Historical(projects, p.account, p.id) {
        var q := HistoricalSource(projects, p.account, p.id, a);
      }
      if q :| q in projects && q.account == p.account && q.state == Merged && q.mergedInto == Some(p.id) && a in {q.id, q.name} + q.aliases {
        var i :| 0 <= i < |projects| && projects[i] == q;
        HistoricalHas(projects, p.account, p.id, i);
      }
    }
  }

  /** JsonProjectRegistry.  `seen` is the version of the file that the unlocked read of a method saw. */
  class JsonProjectRegistry {
    const key: Key
    var projects: seq<Project>
    var merges: nat                             // history only

    constructor (key: Key)
      ensures File() == EMPTY && this.key == key
    {
      this.key := key;
      projects, merges := [], 0;
    }

    function File(): Registry
      reads this
    {
      Registry(projects, merges)
    }

    method EnsureAliasesAvailable(account: string, id: string, aliases: set<string>) returns (ok: bool)
      ensures ok <==> !AliasTaken(projects, key, account, id, aliases)
      ensures ok <==> forall a :: a in aliases ==> !Occupied(key, projects, account, id, a)
    {
      AliasTakenIff(key, projects, account, id, aliases);
      for i := 0 to |projects|
        invariant forall k :: 0 <= k < i ==> !Collides(projects[k], key, account, id, aliases)
      {
        if projects[i].account != account || projects[i].id == id || projects[i].state != Active { continue; }
        if exists value :: value in Names(projects[i]) && key(value) in KeysOf(key, aliases) {
          assert Collides(projects[i], key, account, id, aliases);
          return false;
        }
      }
      return true;
    }

    method Create(account: string, id: string, name: string, aliases: set<string>) returns (ok: bool)
      modifies this`projects
      ensures File() == Apply(key, old(File()), Change.Create(account, id, name, aliases))
      ensures ok <==> Changed(key, old(File()), Change.Create(account, id, name, aliases)).Some?
      ensures ok <==>
        && id != "" && (forall p :: p in old(projects) && p.account == account ==> !GoesBy(key, p, id))
        && forall a :: a in Kept(key, id, aliases) ==> !Occupied(key, old(projects), account, id, a)
      ensures ok ==> projects == old(projects) + [Project(account, id, if name == "" then id else name, Kept(key, id, aliases), Active, None, 0)]
      ensures !ok ==> projects == old(projects)
    {
      hide AliasTaken, Taken, Wanted, GoesBy;
      KeptIsWanted(key, id, aliases);
      TakenIff(key, projects, account, id);
      if id == "" { return false; }
      var wanted := Wanted(key, id, aliases);
      if Taken(projects, key, account, id) { return false; }
      ok := EnsureAliasesAvailable(account, id, wanted);
      if ok {
        projects := projects + [Project(account, id, if name == "" then id else name, wanted, Active, None, 0)];
      }
    }

    method Update(account: string, ref: string, name: Option<string>, aliases: Option<set<string>>, seen: seq<Project>) returns (ok: bool)
      modifies this`projects
      ensures var id := Resolve(key, seen, account, ref, false);
        && (id.None? ==> !ok && File() == old(File()))
        && (id.Some? ==>
              File() == Apply(key, old(File()), Change.Update(account, id.value, name, aliases))
              && (ok <==> Changed(key, old(File()), Change.Update(account, id.value, name, aliases)).Some?))
      ensures var id := Resolve(key, seen, account, ref, false);
        ok <==>
          && id.Some? && (exists p :: p in old(projects) && IsThe(p, account, id.value, Active)) && name != Some("")
          && (aliases.Some? ==> forall a :: a in Kept(key, id.value, aliases.value) ==> !Occupied(key, old(projects), account, id.value, a))
      ensures !ok ==> projects == old(projects)
      ensures ok ==>
        exists i :: 0 <= i < |old(projects)| && IsThe(old(projects)[i], account, Resolve(key, seen, account, ref, false).value, Active)
          && |projects| == |old(projects)| && projects == old(projects)[i := projects[i]]
          && projects[i].name == (if name.Some? then name.value else old(projects)[i].name)
          && projects[i] == old(projects)[i].(name := projects[i].name, aliases := projects[i].aliases)
          && (aliases.None? ==> projects[i].aliases == old(projects)[i].aliases)
          && (aliases.Some? ==> HasAliases(key, old(projects), projects[i], aliases.value))
    {
      hide AliasTaken, Wanted, Historical, Resolve, HasAliases;
      var id := Resolve(key, seen, account, ref, false);
      if id.None? { return false; }
      var i := Require(projects, account, id.value, Active);
      if i.None? { NoneIsThe(projects, account, id.value, Active); return false; }
      var project := projects[i.value];
      assert project in projects && IsThe(project, account, id.value, Active);
      if aliases.Some? { KeptIsWanted(key, project.id, aliases.value); }
      if name.Some? {
        if name.value == "" { return false; }
        project := project.(name := name.value);
      }
      if aliases.Some? {
        var wanted := Wanted(key, project.id, aliases.value);
        var free := EnsureAliasesAvailable(account, project.id, wanted);
        if !free { return false; }
        var historicalAliases := Historical(projects, account, project.id);
        project := project.(aliases := NonEmpty(wanted + historicalAliases) - {project.id});
        AliasesAre(key, projects, project, aliases.value);
      }
      projects := projects[i.value := project];
      return true;
    }

    method Merge(account: string, sourceRef: string, targetRef: string, seen: seq<Project>, seenLater: seq<Project>) returns (ok: bool)
      modifies this
      ensures var source, target := Resolve(key, seen, account, sourceRef, false), Resolve(key, seenLater, account, targetRef, false);
        && (source.None? || target.None? ==> !ok && File() == old(File()))
        && (source.Some? && target.Some? ==>
              File() == Apply(key, old(File()), Change.Merge(account, source.value, target.value))
              && (ok <==> Changed(key, old(File()), Change.Merge(account, source.value, target.value)).Some?))
      ensures var source, target := Resolve(key, seen, account, sourceRef, false), Resolve(key, seenLater, account, targetRef, false);
        ok <==>
          && source.Some? && target.Some? && source != target
          && (exists p :: p in old(projects) && IsThe(p, account, source.value, Active))
          && (exists p :: p in old(projects) && IsThe(p, account, target.value, Active))
      ensures !ok ==> projects == old(projects)
      ensures ok ==>
        var source, target := Resolve(key, seen, account, sourceRef, false).value, Resolve(key, seenLater, account, targetRef, false).value;
        exists i, j :: MergedAt(old(projects), projects, i, j, account, source, target, old(merges))
    {
      hide Resolve;
      var sourceId := Resolve(key, seen, account, sourceRef, false);
      var targetId := Resolve(key, seenLater, account, targetRef, false);
      if sourceId.None? || targetId.None? || sourceId == targetId { return false; }
      var i := Require(projects, account, sourceId.value, Active);
      var j := Require(projects, account, targetId.value, Active);
      if i.None? { NoneIsThe(projects, account, sourceId.value, Active); }
      if j.None? { NoneIsThe(projects, account, targetId.value, Active); }
      if i.None? || j.None? { return false; }
      var source, target := projects[i.value], projects[j.value];
      assert source in projects && target in projects;
      assert target.aliases + {source.id, source.name} + source.aliases == target.aliases + Names(source);
      target := target.(aliases := NonEmpty(target.aliases + {source.id, source.name} + source.aliases) - {target.id});
      source := source.(state := Merged);
      source := source.(mergedInto := Some(target.id));
      source := source.(mergedAt := merges);
      projects := projects[j.value := target];
      projects := projects[i.value := source];
      merges := merges + 1;
      assert MergedAt(old(projects), projects, i.value, j.value, account, sourceId.value, targetId.value, old(merges));
      return true;
    }

    /** archive, unarchive and delete. */
    method ChangeState(account: string, ref: string, from: ProjectState, to: ProjectState, seen: seq<Project>) returns (ok: bool)
      requires (from, to) in {ARCHIVING, UNARCHIVING, DELETING}
      modifies this`projects
      ensures var id := Resolve(key, seen, account, ref, from == Archived);
        && (id.None? ==> !ok && File() == old(File()))
        && (id.Some? ==>
              File() == Apply(key, old(File()), Move(account, id.value, from, to))
              && (ok <==> Changed(key, old(File()), Move(account, id.value, from, to)).Some?))
      ensures var id := Resolve(key, seen, account, ref, from == Archived);
        ok <==> id.Some? && exists p :: p in old(projects) && IsThe(p, account, id.value, from)
      ensures !ok ==> projects == old(projects)
      ensures ok ==>
        exists i :: 0 <= i < |old(projects)| && IsThe(old(projects)[i], account, Resolve(key, seen, account, ref, from == Archived).value, from)
          && projects == old(projects)[i := old(projects)[i].(state := to)]
    {
      hide Resolve;
      var id := Resolve(key, seen, account, ref, from == Archived);
      if id.None? { return false; }
      var i := Require(projects, account, id.value, from);
      if i.None? { NoneIsThe(projects, account, id.value, from); return false; }
      assert projects[i.value] in projects;
      projects := projects[i.value := projects[i.value].(state := to)];
      return true;
    }
  }
}
