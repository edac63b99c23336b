/** What a push guarantees about the vault, and how it fits with the pull before it and the retry after it. */
module PushProofs {
  import opened Basics
  import opened Paths
  import opened HostFiles
  import opened Merge
  import opened Manifest
  import opened Steps
  import opened Apply
  import opened Push
  import opened ApplyProofs
  import Pull

  function RequestOf(plan: PushPlan): Request {
    Request(plan.writes, plan.deletes, plan.createDirectories, plan.deleteDirectories, false)
  }

  /** A plan made against an undisturbed vault: s is a snapshot of it, in the manifest's scope. */
  ghost predicate Planned(state: SyncState, s: Snapshot, vault: Tree, local: Tree, delete: bool, plan: PushPlan) {
    && Trusted(state) && state.scope.Named() && s.scope == state.scope && vault.Valid() && local.Valid()
    && IsSnapshotOf(s, vault)
    && IsPushPlan(state, s, local, delete, plan)
  }

  /** A path of the scope is a version conflict exactly when the vault holds neither the pulled nor the local
      version; without --delete, local deletions are not compared. */
  lemma VersionConflictExactly(state: SyncState, s: Snapshot, vault: Tree, local: Tree, delete: bool, plan: PushPlan,
                               p: Path)
    requires Planned(state, s, vault, local, delete, plan) && state.scope.Contains(p)
    ensures (exists c :: c in plan.conflicts && c.path == p && IsVersionReason(c.reason)) <==>
              vault.Version(p) != At(state.Base(), p) && vault.Version(p) != local.Version(p) &&
              (delete || p in local.files || p !in state.Base())
  {
    SnapshotRemote(s, vault);
    PushIsFastForward(At(state.Base(), p), local.Version(p), At(s.Remote(), p), delete);
    PushReasons(At(state.Base(), p), local.Version(p), At(s.Remote(), p), delete);
    var choice := PushAt(state.Base(), local.files, s.Remote(), p, delete);
    if choice.Clash? {
      var c: Issue := Pull.Issue(p, choice.reason);
      assert PushConflict(state, s, local, delete, c);
      assert c in plan.conflicts;
    }
    if c :| c in plan.conflicts && c.path == p && IsVersionReason(c.reason) {
      assert PushConflict(state, s, local, delete, c);
    }
  }

  predicate IsVersionReason(r: Reason) {
    r in {NewLocalCollides, VaultFileDeleted, VaultFileChanged, BothChanged, LocallyDeletedVaultChanged, NewVaultFile}
  }

  predicate IsVaultSide(r: Reason) {
    IsVersionReason(r) || r.VaultDirectoryDeleted? || r.NewVaultDirectory?
  }

  /** Without conflicts every path of the scope is settled by its choice. */
  lemma NoClash(state: SyncState, s: Snapshot, vault: Tree, local: Tree, delete: bool, plan: PushPlan, p: Path)
    requires Planned(state, s, vault, local, delete, plan) && plan.conflicts == {} && state.scope.Contains(p)
    ensures !PushAt(state.Base(), local.files, s.Remote(), p, delete).Clash?
  {
    PushReasons(At(state.Base(), p), local.Version(p), At(s.Remote(), p), delete);
    var choice := PushAt(state.Base(), local.files, s.Remote(), p, delete);
    var c: Issue := Pull.Issue(p, if choice.Clash? then choice.reason else NewVaultFile);
    assert PushConflict(state, s, local, delete, c) && !c.reason.LocalCaseCollision? ==> c in plan.conflicts;
  }

  /** The versions a plan expects are the vault's own. */
  lemma PlanMatchesVault(state: SyncState, s: Snapshot, vault: Tree, local: Tree, delete: bool, plan: PushPlan)
    requires Planned(state, s, vault, local, delete, plan)
    ensures VersionsMatch(vault, RequestOf(plan))
    ensures forall d | d in plan.deletes :: state.scope.Contains(d.path)
  {
    SnapshotRemote(s, vault);
    forall w | w in plan.writes
      ensures vault.Version(w.path) == w.expected
    {
      PushIsFastForward(At(state.Base(), w.path), local.Version(w.path), At(s.Remote(), w.path), delete);
    }
    forall d | d in plan.deletes
      ensures vault.Version(d.path) == Some(d.version) && state.scope.Contains(d.path)
    {
      PushIsFastForward(At(state.Base(), d.path), local.Version(d.path), At(s.Remote(), d.path), delete);
    }
  }

  /** The vault version that a plan asks for at p. */
  ghost function Target(state: SyncState, s: Snapshot, vault: Tree, local: Tree, delete: bool,
                        p: Path): Option<Content> {
    if state.scope.Contains(p)
    then AfterPush(PushAt(state.Base(), local.files, s.Remote(), p, delete), local.Version(p), vault.Version(p))
    else vault.Version(p)
  }

  lemma PlanAt(state: SyncState, s: Snapshot, vault: Tree, local: Tree, delete: bool, plan: PushPlan, p: Path)
    requires Planned(state, s, vault, local, delete, plan)
    ensures forall w | w in plan.writes && w.path == p :: Some(w.content) == Target(state, s, vault, local, delete, p)
    ensures forall d | d in plan.deletes && d.path == p :: Target(state, s, vault, local, delete, p) == None
    ensures p in WritePaths(plan.writes) || p in DeletePaths(plan.deletes) ||
              Target(state, s, vault, local, delete, p) == vault.Version(p)
    ensures p in plan.deleteDirectories ==> p in vault.dirs
  {
    SnapshotRemote(s, vault);
    PushIsFastForward(At(state.Base(), p), local.Version(p), At(s.Remote(), p), delete);
    var choice := PushAt(state.Base(), local.files, s.Remote(), p, delete);
    if state.scope.Contains(p) && choice.Copy? {
      assert Write(p, local.files[p], choice.expected) in plan.writes;
    }
    if choice.Erase? {
      assert Deletion(p, choice.version) in plan.deletes;
    }
    PlanMatchesVault(state, s, vault, local, delete, plan);
  }

  /** An uninterfered push whose request is accepted is applied in full, and then every path of the scope holds the
      version the plan asked for, while nothing outside the scope has changed. */
  lemma PushApplies(w: World, entries: seq<TreeEntry>, state: SyncState, s: Snapshot, vault: Tree, local: Tree,
                    delete: bool, plan: PushPlan)
    requires Planned(state, s, vault, local, delete, plan)
    requires w.turns == [] && w.tree == vault && RequestOf(plan).ValidPaths()
    requires IsListing(entries, vault) && Accepted(entries, vault, RequestOf(plan))
    ensures var r := ApplyRun(w, vault, RequestOf(plan));
            && ResultOf(r).outcome.Applied? && r.world.tree == Expected(vault, RequestOf(plan)) && r.world.tree.Valid()
            && forall p :: r.world.tree.Version(p) == Target(state, s, vault, local, delete, p)
  {
    var req := RequestOf(plan);
    PlanMatchesVault(state, s, vault, local, delete, plan);
    UndisturbedApply(w, vault, entries, req);
    forall d | d in plan.deleteDirectories
      ensures d !in vault.files && !vault.BeneathFile(d)
    {
      PlanAt(state, s, vault, local, delete, plan, d);
      NotBeneathFile(vault, d);
    }
    forall p
      ensures Expected(vault, req).Version(p) == Target(state, s, vault, local, delete, p)
    {
      ExpectedIsTarget(entries, state, s, vault, local, delete, plan, p);
    }
  }

  lemma ExpectedIsTarget(entries: seq<TreeEntry>, state: SyncState, s: Snapshot, vault: Tree, local: Tree,
                         delete: bool, plan: PushPlan, p: Path)
    requires Planned(state, s, vault, local, delete, plan)
    requires IsListing(entries, vault) && Accepted(entries, vault, RequestOf(plan))
    ensures Expected(vault, RequestOf(plan)).Version(p) == Target(state, s, vault, local, delete, p)
  {
    DistinctRequest(RequestOf(plan));
    WrittenLookup(vault.files, plan.writes);
    PlanAt(state, s, vault, local, delete, plan, p);
    AcceptedFacts(vault, entries, RequestOf(plan));
  }

  lemma NotBeneathFile(t: Tree, p: Path)
    requires t.Valid() && p in t.Paths()
    ensures !t.BeneathFile(p)
  {
    assert forall q :: q in Parents(p) ==> q in t.dirs;
    assert [] !in t.Paths();
  }

  /** With --delete and no conflict, an uninterfered push leaves the scope's files exactly as the workspace has them. */
  lemma PushedEqualsWorkspace(state: SyncState, s: Snapshot, vault: Tree, local: Tree, plan: PushPlan, p: Path)
    requires Planned(state, s, vault, local, true, plan) && plan.conflicts == {} && state.scope.Contains(p)
    ensures Target(state, s, vault, local, true, p) == local.Version(p)
  {
    SnapshotRemote(s, vault);
    NoClash(state, s, vault, local, true, plan, p);
    PushIsFastForward(At(state.Base(), p), local.Version(p), At(s.Remote(), p), true);
  }

  /** And its directories too, except that a pulled folder's own root is kept. */
  lemma PushedDirectories(state: SyncState, s: Snapshot, vault: Tree, local: Tree, plan: PushPlan, d: Path)
    requires Planned(state, s, vault, local, true, plan) && plan.conflicts == {} && state.scope.Contains(d)
    ensures d in Expected(vault, RequestOf(plan)).dirs <==>
              d in local.dirs || (state.scope == Folder(d) && d in vault.dirs && d in state.directories)
  {
    var req := RequestOf(plan);
    NoDirectoryConflict(state, s, local, true, plan, d);
    ImpliedParentsAreLocal(state, s, vault, local, true, plan, d);
    assert d in vault.dirs <==> d in s.directories;
  }

  lemma NoDirectoryConflict(state: SyncState, s: Snapshot, local: Tree, delete: bool, plan: PushPlan, d: Path)
    requires IsPushPlan(state, s, local, delete, plan) && plan.conflicts == {}
    ensures d in local.dirs && d in state.directories ==> d in s.directories
    ensures d in s.directories && d !in state.directories ==> d in local.dirs
  {
    var deleted: Issue, added: Issue := Pull.Issue(d, VaultDirectoryDeleted), Pull.Issue(d, NewVaultDirectory);
    assert PushConflict(state, s, local, delete, deleted) ==> deleted in plan.conflicts;
    assert PushConflict(state, s, local, delete, added) ==> added in plan.conflicts;
  }

  lemma ImpliedParentsAreLocal(state: SyncState, s: Snapshot, vault: Tree, local: Tree, delete: bool, plan: PushPlan,
                               d: Path)
    requires Planned(state, s, vault, local, delete, plan)
    ensures d in ParentsOfAll(ToSet(plan.createDirectories)) || d in ParentsOfAll(WritePaths(plan.writes)) ||
              d in plan.createDirectories ==>
              d in local.dirs
  {
    assert forall w | w in plan.writes :: w.path in local.files;
    assert forall x | x in plan.createDirectories :: x in local.dirs;
    if x :| (x in ToSet(plan.createDirectories) || x in WritePaths(plan.writes)) && d in Parents(x) {
      assert x in local.Paths();
    }
  }

  /** A folder made on the way to something in scope is in scope itself, or lies above the scope and exists. */
  lemma ImpliedParentsInScope(state: SyncState, s: Snapshot, vault: Tree, local: Tree, delete: bool, plan: PushPlan,
                              d: Path)
    requires Planned(state, s, vault, local, delete, plan) && ScopeExists(vault, state.scope)
    ensures d in ParentsOfAll(ToSet(plan.createDirectories)) || d in ParentsOfAll(WritePaths(plan.writes)) ||
              d in plan.createDirectories ==>
              state.scope.Contains(d) || d in vault.dirs
  {
    assert forall w | w in plan.writes :: state.scope.Contains(w.path);
    assert forall x | x in plan.createDirectories :: state.scope.Contains(x);
    if x :| (x in ToSet(plan.createDirectories) || x in WritePaths(plan.writes)) && d in Parents(x) {
      AboveScope(vault, state.scope, x, d);
    }
  }

  lemma PrefixesCompare(a: Path, b: Path, x: Path)
    requires a <= x && b <= x
    ensures a < b || b <= a
  {
    assert a == x[..|a|] && b == x[..|b|];
  }

  lemma AboveScope(vault: Tree, scope: Scope, x: Path, d: Path)
    requires vault.Valid() && scope.Named() && ScopeExists(vault, scope) && scope.Contains(x) && d in Parents(x)
    ensures scope.Contains(d) || d in vault.dirs
  {
    if !scope.All? && !scope.Contains(d) {
      var q :| q in vault.Paths() && scope.path <= q;
      PrefixesCompare(d, scope.path, x);
      assert d < q && d in Parents(q);
    }
  }

  // ---- after the push: the refreshed snapshot ----

  /** Everything in scope of the pushed vault is an entry that passed validation, so no two differ only in case. */
  lemma PushedCaseDistinct(entries: seq<TreeEntry>, state: SyncState, s: Snapshot, vault: Tree, local: Tree,
                           delete: bool, plan: PushPlan)
    requires Planned(state, s, vault, local, delete, plan) && plan.conflicts == {}
    requires IsListing(entries, vault) && Accepted(entries, vault, RequestOf(plan))
    requires Expected(vault, RequestOf(plan)).Valid()
    ensures CaseDistinct(Expected(vault, RequestOf(plan)), state.scope)
  {
    var t, req := Expected(vault, RequestOf(plan)), RequestOf(plan);
    var future := FutureEntries(entries, vault, req);
    forall p, q | p in t.Paths() && q in t.Paths() && state.scope.Contains(p) && state.scope.Contains(q) &&
        Fold(p) == Fold(q)
      ensures p == q
    {
      PushedInFuture(entries, state, s, vault, local, delete, plan, TreeEntry(p, p in t.files));
      PushedInFuture(entries, state, s, vault, local, delete, plan, TreeEntry(q, q in t.files));
      var i :| 0 <= i < |future| && future[i] == TreeEntry(p, p in t.files);
      var j :| 0 <= j < |future| && future[j] == TreeEntry(q, q in t.files);
      assert i == j;
    }
  }

  lemma PushedInFuture(entries: seq<TreeEntry>, state: SyncState, s: Snapshot, vault: Tree, local: Tree,
                       delete: bool, plan: PushPlan, e: TreeEntry)
    requires Planned(state, s, vault, local, delete, plan) && plan.conflicts == {}
    requires IsListing(entries, vault) && Accepted(entries, vault, RequestOf(plan))
    requires state.scope.Contains(e.path)
    requires e.path in if e.isFile then Expected(vault, RequestOf(plan)).files.Keys
               else Expected(vault, RequestOf(plan)).dirs
    ensures e in FutureEntries(entries, vault, RequestOf(plan))
  {
    var req := RequestOf(plan);
    ExpectedIsFuture(vault, entries, req, e);
    ImpliedParentsAreLocal(state, s, vault, local, delete, plan, e.path);
    FutureEntryKinds(entries, vault, req, e);
    var c: Issue := Pull.Issue(e.path, VaultDirectoryDeleted);
    assert PushConflict(state, s, local, delete, c) ==> c in plan.conflicts;
  }

  /** The scope's own path is a file of the vault, and the push deletes it. */
  ghost predicate LosesScope(state: SyncState, vault: Tree, plan: PushPlan) {
    !state.scope.All? && state.scope.path in vault.files && state.scope.path in DeletePaths(plan.deletes)
  }

  /** So the refreshed snapshot can be taken, unless the scope's path was a file and the push has just deleted it: then
      the push fails after it was applied, and so does every later pull and push of that workspace. */
  lemma RefreshExactly(entries: seq<TreeEntry>, state: SyncState, s: Snapshot, vault: Tree, local: Tree,
                       delete: bool, plan: PushPlan)
    requires Planned(state, s, vault, local, delete, plan) && ScopeExists(vault, state.scope)
    requires IsListing(entries, vault) && Accepted(entries, vault, RequestOf(plan))
    requires Expected(vault, RequestOf(plan)).Valid()
    ensures ScopeExists(Expected(vault, RequestOf(plan)), state.scope) <==> !LosesScope(state, vault, plan)
  {
    var t, req := Expected(vault, RequestOf(plan)), RequestOf(plan);
    if !state.scope.All? {
      var f := state.scope.path;
      DistinctRequest(req);
      WrittenLookup(vault.files, plan.writes);
      if f in vault.files {
        if f in DeletePaths(plan.deletes) {
          GoneWithScope(vault, req, f);
        } else {
          assert f in t.files;
        }
      } else if state.scope.Folder? {
        FolderKept(state, s, vault, local, delete, plan, f);
      }
    }
  }

  /** A folder scope is never deleted itself. */
  lemma FolderKept(state: SyncState, s: Snapshot, vault: Tree, local: Tree, delete: bool, plan: PushPlan, f: Path)
    requires Planned(state, s, vault, local, delete, plan) && ScopeExists(vault, state.scope)
    requires state.scope == Folder(f) && f !in vault.files
    ensures ScopeExists(Expected(vault, RequestOf(plan)), state.scope)
  {
    var q :| q in vault.Paths() && state.scope.Contains(q);
    assert f in vault.dirs by {
      assert f == q || f in Parents(q);
    }
    assert f !in plan.deleteDirectories;
    assert f in Expected(vault, RequestOf(plan)).Paths() && state.scope.Contains(f);
  }

  lemma NothingBeneathDelete(req: Request, f: Path)
    requires ValidEntries(RequestEntries(req)) && f in DeletePaths(req.deletes)
    ensures f !in req.directories && forall x | x in req.directories :: !(f < x)
    ensures forall x | x in WritePaths(req.writes) :: !(f < x)
  {
    ValidIsSound(RequestEntries(req));
    RequestEntryKinds(req, TreeEntry(f, true));
    forall x | x in req.directories
      ensures x != f && !(f < x)
    {
      RequestEntryKinds(req, TreeEntry(x, false));
    }
    forall x | x in WritePaths(req.writes)
      ensures !(f < x)
    {
      RequestEntryKinds(req, TreeEntry(x, true));
    }
  }

  /** A deleted file leaves nothing at or beneath its path. */
  lemma GoneWithScope(vault: Tree, req: Request, f: Path)
    requires vault.files.Keys !! vault.dirs && f in vault.files && f in DeletePaths(req.deletes) && f != []
    requires ValidEntries(RequestEntries(req)) && Expected(vault, req).Valid()
    ensures f !in Expected(vault, req).Paths()
    ensures forall q :: q in Expected(vault, req).Paths() ==> !(f < q)
  {
    var t := Expected(vault, req);
    NothingBeneathDelete(req, f);
    assert f !in t.dirs;
    forall q | q in t.Paths()
      ensures !(f < q)
    {
      assert f in Parents(q) ==> f in t.dirs;
    }
  }

  // ---- pull, then push ----

  /** After a pull, as long as the vault stays as it was, no push reports a vault-side conflict, whatever happened
      to the workspace in the meantime. */
  lemma PullThenPush(pulled: Snapshot, s: Snapshot, vault: Tree, local: Tree, delete: bool, plan: PushPlan)
    requires IsSnapshotOf(pulled, vault) && IsSnapshotOf(s, vault) && s.scope == pulled.scope
    requires IsPushPlan(StateFromSnapshot(pulled), s, local, delete, plan)
    ensures forall c | c in plan.conflicts :: !IsVaultSide(c.reason)
  {
    SnapshotStateRoundTrip(pulled, vault);
    SnapshotRemote(pulled, vault);
    SnapshotRemote(s, vault);
    forall c | c in plan.conflicts
      ensures !IsVaultSide(c.reason)
    {
      var state := StateFromSnapshot(pulled);
      assert !c.reason.LocalCaseCollision? ==> PushConflict(state, s, local, delete, c);
      NoVaultSideConflict(state, s, local, delete, c);
    }
  }

  lemma NoVaultSideConflict(state: SyncState, s: Snapshot, local: Tree, delete: bool, c: Issue)
    requires At(state.Base(), c.path) == At(s.Remote(), c.path)
    requires c.path in state.directories <==> c.path in s.directories
    requires !c.reason.LocalCaseCollision? ==> PushConflict(state, s, local, delete, c)
    ensures !IsVaultSide(c.reason)
  {
    PushIsFastForward(At(state.Base(), c.path), local.Version(c.path), At(s.Remote(), c.path), delete);
  }

  // ---- a push cut short, then planned again ----

  /** How far an interrupted push can have got: each file at its old or its target version, directories in between. */
  ghost predicate PartlyPushed(state: SyncState, s: Snapshot, vault: Tree, local: Tree, delete: bool, plan: PushPlan,
                               now: Tree) {
    && now.Valid()
    && (forall p :: now.Version(p) == vault.Version(p) || now.Version(p) == Target(state, s, vault, local, delete, p))
    && (forall d :: d in now.dirs ==> d in vault.dirs || (d in local.dirs && state.scope.Contains(d)))
    && (forall d :: d in vault.dirs && d !in plan.deleteDirectories ==> d in now.dirs)
  }

  lemma {:induction false} MkdirsWhenAlone(r: Run, t: Tree, ds: seq<Path>)
    requires Alone(r.world)
    ensures var now := MkdirRun(r, t, ds).world;
            && Alone(now) && now.tree.files == r.world.tree.files
            && r.world.tree.dirs <= now.tree.dirs <= r.world.tree.dirs + ToSet(ds) + ParentsOfAll(ToSet(ds))
    decreases |ds|
  {
    if ds == [] {
    } else {
      var r1 := MkdirStep(r, t, ds[0]);
      assert Alone(Tick(r.world));
      MkdirsWhenAlone(r1, t, ds[1..]);
      assert forall d :: d in ds <==> d == ds[0] || d in ds[1..];
      assert ds[0] in ToSet(ds);
    }
  }

  lemma {:induction false} WritesWhenAlone(r: Run, writes: seq<Write>, p: Path, target: Option<Content>)
    requires Alone(r.world)
    requires forall w | w in writes && w.path == p :: Some(w.content) == target
    ensures var now := WriteRun(r, writes).world;
            && Alone(now) && (now.tree.Version(p) == r.world.tree.Version(p) || now.tree.Version(p) == target)
            && (p !in WritePaths(writes) ==> now.tree.Version(p) == r.world.tree.Version(p))
            && r.world.tree.dirs <= now.tree.dirs <= r.world.tree.dirs + ParentsOfAll(WritePaths(writes))
    decreases |writes|
  {
    if writes == [] {
    } else {
      var w, r1 := writes[0], WriteStep(r, writes[0]);
      assert w in writes && w.path in WritePaths(writes);
      assert Alone(Tick(r.world)) && Alone(Tick(Tick(r.world)));
      assert r1.world.tree == r.world.tree ||
          r1.world.tree == Tree(r.world.tree.files[w.path := w.content], r.world.tree.dirs + Parents(w.path));
      WritesWhenAlone(r1, writes[1..], p, target);
      assert forall x :: x in writes <==> x == w || x in writes[1..];
      assert WritePaths(writes) == {w.path} + WritePaths(writes[1..]);
    }
  }

  lemma {:induction false} DeletesWhenAlone(r: Run, deletes: seq<Deletion>, p: Path)
    requires Alone(r.world)
    ensures var now := DeleteRun(r, deletes).world;
            && Alone(now) && (now.tree.Version(p) == r.world.tree.Version(p) ||
                   (now.tree.Version(p) == None && p in DeletePaths(deletes)))
            && now.tree.dirs <= r.world.tree.dirs
            && (forall d | d in r.world.tree.dirs && d !in DeletePaths(deletes) :: d in now.tree.dirs)
    decreases |deletes|
  {
    if deletes == [] {
    } else {
      var x, r1 := deletes[0], DeleteStep(r, deletes[0]);
      assert x in deletes && x.path in DeletePaths(deletes);
      assert Alone(Tick(r.world)) && Alone(Tick(Tick(r.world)));
      DeletesWhenAlone(r1, deletes[1..], p);
      assert DeletePaths(deletes) == {x.path} + DeletePaths(deletes[1..]);
    }
  }

  lemma PruneWhenAlone(r: Run, d: Path)
    requires Alone(r.world)
    ensures var t, now := r.world.tree, PruneStep(r, d).world;
            && Alone(now) && now.tree.dirs <= t.dirs <= now.tree.dirs + {d}
            && (forall p :: now.tree.Version(p) == t.Version(p) || (now.tree.Version(p) == None && p == d))
  {
    assert Alone(Tick(r.world));
  }

  lemma {:induction false} PrunesWhenAlone(r: Run, ds: seq<Path>, p: Path)
    requires Alone(r.world)
    ensures var now := PruneRun(r, ds).world;
            && (now.tree.Version(p) == r.world.tree.Version(p) || (now.tree.Version(p) == None && p in ds))
            && now.tree.dirs <= r.world.tree.dirs
            && (forall d | d in r.world.tree.dirs && d !in ds :: d in now.tree.dirs)
            && Alone(now)
    decreases |ds|
  {
    if ds == [] {
    } else {
      assert ds[0] in ds;
      PruneWhenAlone(r, ds[0]);
      PrunesWhenAlone(PruneStep(r, ds[0]), ds[1..], p);
    }
  }

  // Each loop keeps a real directory tree.

  lemma {:induction false} MkdirsKeepValid(r: Run, t: Tree, ds: seq<Path>)
    requires Alone(r.world) && r.world.tree.Valid()
    ensures Alone(MkdirRun(r, t, ds).world) && MkdirRun(r, t, ds).world.tree.Valid()
    decreases |ds|
  {
    if ds == [] {
    } else {
      assert Alone(Tick(r.world));
      CommandsKeepValid(r.world.tree, ds[0], "", None);
      MkdirsKeepValid(MkdirStep(r, t, ds[0]), t, ds[1..]);
    }
  }

  lemma {:induction false} WritesKeepValid(r: Run, writes: seq<Write>)
    requires Alone(r.world) && r.world.tree.Valid()
    ensures Alone(WriteRun(r, writes).world) && WriteRun(r, writes).world.tree.Valid()
    decreases |writes|
  {
    if writes == [] {
    } else {
      var w := writes[0];
      assert Alone(Tick(r.world)) && Alone(Tick(Tick(r.world)));
      CommandsKeepValid(r.world.tree, w.path, w.content, w.expected);
      WritesKeepValid(WriteStep(r, w), writes[1..]);
    }
  }

  lemma {:induction false} DeletesKeepValid(r: Run, deletes: seq<Deletion>)
    requires Alone(r.world) && r.world.tree.Valid()
    ensures Alone(DeleteRun(r, deletes).world) && DeleteRun(r, deletes).world.tree.Valid()
    decreases |deletes|
  {
    if deletes == [] {
    } else {
      assert Alone(Tick(r.world)) && Alone(Tick(Tick(r.world)));
      CommandsKeepValid(r.world.tree, deletes[0].path, "", None);
      DeletesKeepValid(DeleteStep(r, deletes[0]), deletes[1..]);
    }
  }

  lemma {:induction false} RemovalsKeepValid(r: Run, ds: seq<Path>)
    requires Alone(r.world) && r.world.tree.Valid()
    ensures Alone(PruneRun(r, ds).world) && PruneRun(r, ds).world.tree.Valid()
    decreases |ds|
  {
    if ds == [] {
    } else {
      assert Alone(Tick(r.world));
      CommandsKeepValid(r.world.tree, ds[0], "", None);
      RemovalsKeepValid(PruneStep(r, ds[0]), ds[1..]);
    }
  }

  lemma ApplyKeepsValid(w: World, t: Tree, req: Request)
    requires Alone(w) && w.tree.Valid()
    ensures Alone(ApplyRun(w, t, req).world) && ApplyRun(w, t, req).world.tree.Valid()
  {
    var made := MkdirRun(Run(w, [], [], [], [], [], []), t, Sorted(req.directories));
    var wrote := WriteRun(made, req.writes);
    var deleted := DeleteRun(wrote, req.deletes);
    MkdirsKeepValid(Run(w, [], [], [], [], [], []), t, Sorted(req.directories));
    WritesKeepValid(made, req.writes);
    DeletesKeepValid(wrote, req.deletes);
    RemovalsKeepValid(deleted, DeepestFirst(req.deleteDirectories));
  }

  /** With no other writer, wherever failures strike, a push gets only so far. */
  lemma InterruptedPush(w: World, state: SyncState, s: Snapshot, vault: Tree, local: Tree, delete: bool, plan: PushPlan)
    requires Planned(state, s, vault, local, delete, plan) && ScopeExists(vault, state.scope) && Alone(w)
    requires w.tree == vault
    ensures var now := ApplyRun(w, vault, RequestOf(plan)).world;
            Alone(now) && PartlyPushed(state, s, vault, local, delete, plan, now.tree)
  {
    ApplyKeepsValid(w, vault, RequestOf(plan));
    forall p
      ensures var now := ApplyRun(w, vault, RequestOf(plan)).world.tree;
              && (now.Version(p) == vault.Version(p) || now.Version(p) == Target(state, s, vault, local, delete, p))
              && (p in now.dirs ==> p in vault.dirs || (p in local.dirs && state.scope.Contains(p)))
              && (p in vault.dirs && p !in plan.deleteDirectories ==> p in now.dirs)
    {
      InterruptedAt(w, state, s, vault, local, delete, plan, p);
    }
  }

  lemma InterruptedAt(w: World, state: SyncState, s: Snapshot, vault: Tree, local: Tree, delete: bool, plan: PushPlan,
                      p: Path)
    requires Planned(state, s, vault, local, delete, plan) && ScopeExists(vault, state.scope) && Alone(w)
    requires w.tree == vault
    ensures var now := ApplyRun(w, vault, RequestOf(plan)).world.tree;
            && (now.Version(p) == vault.Version(p) || now.Version(p) == Target(state, s, vault, local, delete, p))
            && (p in now.dirs ==> p in vault.dirs || (p in local.dirs && state.scope.Contains(p)))
            && (p in vault.dirs && p !in plan.deleteDirectories ==> p in now.dirs)
  {
    PlanAt(state, s, vault, local, delete, plan, p);
    assert p in DeletePaths(plan.deletes) ==> p in vault.files by {
      PlanMatchesVault(state, s, vault, local, delete, plan);
    }
    AppliedSoFar(w, vault, plan, p, Target(state, s, vault, local, delete, p));
    ImpliedParentsAreLocal(state, s, vault, local, delete, plan, p);
    ImpliedParentsInScope(state, s, vault, local, delete, plan, p);
  }

  lemma AppliedSoFar(w: World, vault: Tree, plan: PushPlan, p: Path, target: Option<Content>)
    requires Alone(w) && w.tree == vault && forall x | x in plan.writes && x.path == p :: Some(x.content) == target
    ensures var now := ApplyRun(w, vault, RequestOf(plan)).world.tree;
            && (|| now.Version(p) == vault.Version(p)
                || now.Version(p) == target
                || (now.Version(p) == None && (p in DeletePaths(plan.deletes) || p in plan.deleteDirectories)))
            && (p in now.dirs ==>
                  || p in vault.dirs || p in plan.createDirectories
                  || p in ParentsOfAll(ToSet(plan.createDirectories)) || p in ParentsOfAll(WritePaths(plan.writes)))
            && (p in vault.dirs && p !in plan.deleteDirectories && p !in DeletePaths(plan.deletes) ==> p in now.dirs)
  {
    var made := MkdirRun(Run(w, [], [], [], [], [], []), vault, Sorted(plan.createDirectories));
    var wrote := WriteRun(made, plan.writes);
    var deleted := DeleteRun(wrote, plan.deletes);
    MkdirsWhenAlone(Run(w, [], [], [], [], [], []), vault, Sorted(plan.createDirectories));
    assert ToSet(Sorted(plan.createDirectories)) == ToSet(plan.createDirectories);
    WritesWhenAlone(made, plan.writes, p, target);
    DeletesWhenAlone(wrote, plan.deletes, p);
    PrunesWhenAlone(deleted, DeepestFirst(plan.deleteDirectories), p);
  }

  /** A second plan, made from the old manifest and the partly pushed vault. */
  ghost predicate Replanned(state: SyncState, s: Snapshot, vault: Tree, local: Tree, delete: bool, plan: PushPlan,
                            now: Tree, again: Snapshot, retry: PushPlan) {
    && Planned(state, s, vault, local, delete, plan) && plan.conflicts == {}
    && PartlyPushed(state, s, vault, local, delete, plan, now)
    && IsSnapshotOf(again, now) && again.scope == state.scope && IsPushPlan(state, again, local, delete, retry)
  }

  lemma RetryChoice(state: SyncState, s: Snapshot, vault: Tree, local: Tree, delete: bool, plan: PushPlan,
                    now: Tree, again: Snapshot, retry: PushPlan, p: Path)
    requires Replanned(state, s, vault, local, delete, plan, now, again, retry)
    ensures state.scope.Contains(p) ==>
              !PushAt(state.Base(), local.files, again.Remote(), p, delete).Clash? &&
              PushAt(state.Base(), local.files, again.Remote(), p, delete) ==
              if now.Version(p) == vault.Version(p) then PushAt(state.Base(), local.files, s.Remote(), p, delete)
                  else Keep
  {
    if state.scope.Contains(p) {
      SnapshotRemote(s, vault);
      SnapshotRemote(again, now);
      NoClash(state, s, vault, local, delete, plan, p);
      PushRetry(At(state.Base(), p), local.Version(p), vault.Version(p), now.Version(p), delete);
    }
  }

  lemma RetryDirectory(state: SyncState, s: Snapshot, vault: Tree, local: Tree, delete: bool, plan: PushPlan,
                       now: Tree, again: Snapshot, retry: PushPlan, d: Path)
    requires Replanned(state, s, vault, local, delete, plan, now, again, retry)
    ensures d in local.dirs && d in state.directories ==> d in again.directories
    ensures d in again.directories && d !in state.directories ==> d in local.dirs
    ensures d in retry.createDirectories <==> d in plan.createDirectories && d !in now.dirs
    ensures d in retry.deleteDirectories <==> d in plan.deleteDirectories && d in now.dirs
  {
    NoDirectoryConflict(state, s, local, delete, plan, d);
    assert d in state.directories ==> state.scope.Contains(d);
    assert d in s.directories <==> d in vault.dirs && state.scope.Contains(d);
    assert d in again.directories <==> d in now.dirs && state.scope.Contains(d);
  }

  lemma RetryConflict(state: SyncState, s: Snapshot, vault: Tree, local: Tree, delete: bool, plan: PushPlan,
                      now: Tree, again: Snapshot, retry: PushPlan, c: Issue)
    requires Replanned(state, s, vault, local, delete, plan, now, again, retry)
    ensures c !in retry.conflicts
  {
    RetryChoice(state, s, vault, local, delete, plan, now, again, retry, c.path);
    RetryDirectory(state, s, vault, local, delete, plan, now, again, retry, c.path);
    assert PushConflict(state, s, local, delete, c) && !c.reason.LocalCaseCollision? ==> c in plan.conflicts;
  }

  /** At a planned mutation the vault holds the old version or the target, which differ. */
  lemma MutationDoneOrNot(state: SyncState, s: Snapshot, vault: Tree, local: Tree, delete: bool, plan: PushPlan,
                          now: Tree, p: Path)
    requires Planned(state, s, vault, local, delete, plan) && PartlyPushed(state, s, vault, local, delete, plan, now)
    ensures forall w | w in plan.writes && w.path == p :: now.Version(p) == vault.Version(p) <==>
              now.Version(p) != Some(w.content)
    ensures forall d | d in plan.deletes && d.path == p :: now.Version(p) == vault.Version(p) <==>
              now.Version(p) != None
    ensures p !in WritePaths(plan.writes) && p !in DeletePaths(plan.deletes) ==> now.Version(p) == vault.Version(p)
  {
    SnapshotRemote(s, vault);
    PlanAt(state, s, vault, local, delete, plan, p);
    PlanMatchesVault(state, s, vault, local, delete, plan);
    PushIsFastForward(At(state.Base(), p), local.Version(p), At(s.Remote(), p), delete);
  }

  lemma RetryWrite(state: SyncState, s: Snapshot, vault: Tree, local: Tree, delete: bool, plan: PushPlan,
                   now: Tree, again: Snapshot, retry: PushPlan, w: Write)
    requires Replanned(state, s, vault, local, delete, plan, now, again, retry)
    ensures w in retry.writes <==> w in plan.writes && now.Version(w.path) != Some(w.content)
  {
    RetryChoice(state, s, vault, local, delete, plan, now, again, retry, w.path);
    MutationDoneOrNot(state, s, vault, local, delete, plan, now, w.path);
  }

  lemma RetryDelete(state: SyncState, s: Snapshot, vault: Tree, local: Tree, delete: bool, plan: PushPlan,
                    now: Tree, again: Snapshot, retry: PushPlan, d: Deletion)
    requires Replanned(state, s, vault, local, delete, plan, now, again, retry)
    ensures d in retry.deletes <==> d in plan.deletes && now.Version(d.path) != None
  {
    SnapshotRemote(again, now);
    PushIsFastForward(At(state.Base(), d.path), local.Version(d.path), At(again.Remote(), d.path), delete);
    PlanMatchesVault(state, s, vault, local, delete, plan);
    RetryChoice(state, s, vault, local, delete, plan, now, again, retry, d.path);
    MutationDoneOrNot(state, s, vault, local, delete, plan, now, d.path);
  }

  /** From any snapshot of the partly pushed vault and the old manifest, a push meets no conflict and asks for exactly
      what is missing. When there is such a snapshot is the subject of PushRerun. */
  lemma PushResumes(state: SyncState, s: Snapshot, vault: Tree, local: Tree, delete: bool, plan: PushPlan,
                    now: Tree, again: Snapshot, retry: PushPlan)
    requires Replanned(state, s, vault, local, delete, plan, now, again, retry)
    ensures retry.conflicts == {}
    ensures forall w :: w in retry.writes <==> w in plan.writes && now.Version(w.path) != Some(w.content)
    ensures forall d :: d in retry.deletes <==> d in plan.deletes && now.Version(d.path) != None
    ensures forall d :: d in retry.createDirectories <==> d in plan.createDirectories && d !in now.dirs
    ensures forall d :: d in retry.deleteDirectories <==> d in plan.deleteDirectories && d in now.dirs
  {
    forall c: Issue
      ensures c !in retry.conflicts
    {
      RetryConflict(state, s, vault, local, delete, plan, now, again, retry, c);
    }
    forall w: Write
      ensures w in retry.writes <==> w in plan.writes && now.Version(w.path) != Some(w.content)
    {
      RetryWrite(state, s, vault, local, delete, plan, now, again, retry, w);
    }
    forall d: Deletion
      ensures d in retry.deletes <==> d in plan.deletes && now.Version(d.path) != None
    {
      RetryDelete(state, s, vault, local, delete, plan, now, again, retry, d);
    }
    forall d: Path
      ensures d in retry.createDirectories <==> d in plan.createDirectories && d !in now.dirs
      ensures d in retry.deleteDirectories <==> d in plan.deleteDirectories && d in now.dirs
    {
      RetryDirectory(state, s, vault, local, delete, plan, now, again, retry, d);
    }
  }
}
