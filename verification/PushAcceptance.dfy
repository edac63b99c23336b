/** When the vault accepts a push, and what that says of a push planned again after an interruption. */
module PushAcceptance {
  import opened Basics
  import opened Paths
  import opened HostFiles
  import opened Merge
  import opened Manifest
  import opened Steps
  import opened Apply
  import opened Push
  import opened PushProofs
  import Pull
  import ApplyProofs

  // ---- validity of a listing, element by element ----

  /** Two entries that cannot be in one valid tree. */
  predicate Collide(a: TreeEntry, b: TreeEntry) {
    (a != b && Fold(a.path) == Fold(b.path)) || (a.isFile && Fold(a.path) < Fold(b.path))
  }

  ghost predicate NoneTwice(es: seq<TreeEntry>) {
    forall i, j | 0 <= i < j < |es| :: es[i] != es[j]
  }

  lemma ValidByElements(es: seq<TreeEntry>)
    ensures ValidEntries(es) <==> NoneTwice(es) && forall a, b | a in es && b in es :: !Collide(a, b)
  {
    if ValidEntries(es) {
      forall a, b | a in es && b in es
        ensures !Collide(a, b)
      {
        var i :| 0 <= i < |es| && es[i] == a;
        var j :| 0 <= j < |es| && es[j] == b;
        assert i != j ==> Fold(es[i].path) != Fold(es[j].path);
      }
    }
    if NoneTwice(es) && forall a, b | a in es && b in es :: !Collide(a, b) {
      forall i, j | 0 <= i < |es| && 0 <= j < |es|
        ensures !Collide(es[i], es[j])
      {
        assert es[i] in es && es[j] in es;
      }
    }
  }

  // ---- the union of both sides ----

  /** An entry of the vault, or an entry of the workspace that lies in scope. */
  ghost predicate InUnion(scope: Scope, vault: Tree, local: Tree, e: TreeEntry) {
    InTree(vault, e) || (scope.Contains(e.path) && InTree(local, e))
  }

  predicate InTree(t: Tree, e: TreeEntry) {
    e.path in if e.isFile then t.files.Keys else t.dirs
  }

  /** Vault and workspace together would still be one valid tree. */
  ghost predicate Compatible(scope: Scope, vault: Tree, local: Tree) {
    forall a, b | InUnion(scope, vault, local, a) && InUnion(scope, vault, local, b) :: !Collide(a, b)
  }

  /** A plan without conflicts, against a vault that has the scope. */
  ghost predicate Ready(state: SyncState, s: Snapshot, vault: Tree, local: Tree, delete: bool, plan: PushPlan) {
    Planned(state, s, vault, local, delete, plan) && plan.conflicts == {} && ScopeExists(vault, state.scope)
  }

  // ---- what the request and the resulting tree consist of ----

  lemma RequestInUnion(state: SyncState, s: Snapshot, vault: Tree, local: Tree, delete: bool, plan: PushPlan,
                       e: TreeEntry)
    requires Ready(state, s, vault, local, delete, plan) && e in RequestEntries(RequestOf(plan))
    ensures InUnion(state.scope, vault, local, e)
  {
    RequestEntryKinds(RequestOf(plan), e);
    PlanMatchesVault(state, s, vault, local, delete, plan);
    if e.isFile {
      assert e.path in WritePaths(plan.writes) ==> e.path in local.files && state.scope.Contains(e.path);
      assert e.path in DeletePaths(plan.deletes) ==> e.path in vault.files;
    }
  }

  lemma FutureInUnion(entries: seq<TreeEntry>, state: SyncState, s: Snapshot, vault: Tree, local: Tree, delete: bool,
                      plan: PushPlan, e: TreeEntry)
    requires Ready(state, s, vault, local, delete, plan) && IsListing(entries, vault)
    requires e in FutureEntries(entries, vault, RequestOf(plan))
    ensures InUnion(state.scope, vault, local, e)
  {
    FutureEntryKinds(entries, vault, RequestOf(plan), e);
    assert e.path in WritePaths(plan.writes) ==> e.path in local.files && state.scope.Contains(e.path);
  }

  /** What only the workspace has is requested, and part of the result. */
  lemma NewIsRequested(entries: seq<TreeEntry>, state: SyncState, s: Snapshot, vault: Tree, local: Tree, delete: bool,
                       plan: PushPlan, e: TreeEntry)
    requires Ready(state, s, vault, local, delete, plan) && IsListing(entries, vault)
    requires state.scope.Contains(e.path) && InTree(local, e) && !InTree(vault, e)
    ensures e in RequestEntries(RequestOf(plan)) && e in FutureEntries(entries, vault, RequestOf(plan))
  {
    var req := RequestOf(plan);
    RequestEntryKinds(req, e);
    FutureEntryKinds(entries, vault, req, e);
    if e.isFile {
      SnapshotRemote(s, vault);
      NoClash(state, s, vault, local, delete, plan, e.path);
      PushIsFastForward(At(state.Base(), e.path), local.Version(e.path), At(s.Remote(), e.path), delete);
      assert PushAt(state.Base(), local.files, s.Remote(), e.path, delete) == Copy(None);
      assert Write(e.path, local.files[e.path], None) in plan.writes;
    } else {
      NoDirectoryConflict(state, s, local, delete, plan, e.path);
      assert e.path in plan.createDirectories;
    }
  }

  /** What only the vault has is either removed by the request or part of the result. */
  lemma OldIsRemovedOrStays(entries: seq<TreeEntry>, state: SyncState, s: Snapshot, vault: Tree, local: Tree,
                            delete: bool,
                            plan: PushPlan, e: TreeEntry)
    requires Ready(state, s, vault, local, delete, plan) && IsListing(entries, vault)
    requires InTree(vault, e) && !(state.scope.Contains(e.path) && InTree(local, e))
    ensures e in RequestEntries(RequestOf(plan)) || e in FutureEntries(entries, vault, RequestOf(plan))
  {
    var req := RequestOf(plan);
    RequestEntryKinds(req, e);
    FutureEntryKinds(entries, vault, req, e);
    assert e in entries;
    assert e.path in WritePaths(plan.writes) ==> e.path in local.files && state.scope.Contains(e.path);
  }

  // ---- a compatible push is accepted ----

  lemma {:induction false} RetainedNoneTwice(current: seq<TreeEntry>, req: Request)
    requires NoneTwice(current)
    ensures NoneTwice(Retained(current, req))
  {
    if current == [] {
    } else {
      var rest := Retained(current[1..], req);
      RetainedNoneTwice(current[1..], req);
      forall e | e in rest
        ensures e != current[0]
      {
        var i :| 0 <= i < |current[1..]| && current[1..][i] == e;
        assert current[i + 1] == e;
      }
    }
  }

  lemma {:induction false} NewDirectoriesDistinct(ds: seq<Path>, t: Tree)
    requires Distinct(ds)
    ensures Distinct(NewDirectories(ds, t))
  {
    if ds == [] {
    } else {
      var rest := NewDirectories(ds[1..], t);
      NewDirectoriesDistinct(ds[1..], t);
      forall d | d in rest
        ensures d != ds[0]
      {
        var i :| 0 <= i < |ds[1..]| && ds[1..][i] == d;
        assert ds[i + 1] == d;
      }
    }
  }

  lemma NoneTwiceConcat(a: seq<TreeEntry>, b: seq<TreeEntry>)
    requires NoneTwice(a) && NoneTwice(b) && forall e | e in a :: e !in b
    ensures NoneTwice(a + b)
  {
    forall i, j | 0 <= i < j < |a + b|
      ensures (a + b)[i] != (a + b)[j]
    {
      if i < |a| && j >= |a| {
        assert a[i] in a && b[j - |a|] in b;
      }
    }
  }

  lemma RequestNoneTwice(state: SyncState, s: Snapshot, vault: Tree, local: Tree, delete: bool, plan: PushPlan)
    requires Ready(state, s, vault, local, delete, plan) && Distinct(plan.deleteDirectories)
    ensures NoneTwice(RequestEntries(RequestOf(plan)))
  {
    var w, d := FileEntries(PathsOfWrites(plan.writes)), FileEntries(PathsOfDeletes(plan.deletes));
    var c, r := DirEntries(plan.createDirectories), DirEntries(plan.deleteDirectories);
    forall e | e in w
      ensures e !in d && e.isFile
    {
      WriteIsNotDeleted(state, s, vault, local, delete, plan, e);
    }
    assert forall e | e in d :: e.isFile;
    assert forall e | e in c :: !e.isFile && e.path in plan.createDirectories;
    assert forall e | e in r :: !e.isFile && e.path in plan.deleteDirectories;
    NoneTwiceConcat(w, d);
    NoneTwiceConcat(w + d, c);
    NoneTwiceConcat(w + d + c, r);
  }

  lemma WriteIsNotDeleted(state: SyncState, s: Snapshot, vault: Tree, local: Tree, delete: bool, plan: PushPlan,
                          e: TreeEntry)
    requires Ready(state, s, vault, local, delete, plan) && e in FileEntries(PathsOfWrites(plan.writes))
    ensures e !in FileEntries(PathsOfDeletes(plan.deletes))
  {
    var i :| 0 <= i < |plan.writes| && e == TreeEntry(plan.writes[i].path, true);
    forall j | 0 <= j < |plan.deletes|
      ensures plan.deletes[j].path != e.path
    {
      EitherWrittenOrDeleted(state, s, local, delete, plan, plan.writes[i], plan.deletes[j]);
    }
  }

  lemma EitherWrittenOrDeleted(state: SyncState, s: Snapshot, local: Tree, delete: bool, plan: PushPlan,
                               w: Write, d: Deletion)
    requires IsPushPlan(state, s, local, delete, plan) && w in plan.writes && d in plan.deletes
    ensures w.path != d.path
  {}

  lemma FutureNoneTwice(entries: seq<TreeEntry>, state: SyncState, s: Snapshot, vault: Tree, local: Tree,
                        delete: bool, plan: PushPlan)
    requires Ready(state, s, vault, local, delete, plan) && IsListing(entries, vault)
    ensures NoneTwice(FutureEntries(entries, vault, RequestOf(plan)))
  {
    var req := RequestOf(plan);
    var kept, made := Retained(entries, req), DirEntries(NewDirectories(req.directories, vault));
    var written := FileEntries(PathsOfWrites(req.writes));
    RetainedNoneTwice(entries, req);
    NewDirectoriesDistinct(req.directories, vault);
    assert forall e | e in made :: !e.isFile && e.path !in vault.dirs;
    NoneTwiceConcat(kept, made);
    forall e | e in written
      ensures e.isFile && e.path in WritePaths(req.writes)
    {
      WriteEntryKinds(req.writes, e);
    }
    NoneTwiceConcat(kept + made, written);
  }

  /** Nothing is created beneath a directory to delete, and everything beneath it goes too. */
  lemma DeletedIsEmptied(state: SyncState, s: Snapshot, vault: Tree, local: Tree, delete: bool, plan: PushPlan, d: Path)
    requires Ready(state, s, vault, local, delete, plan) && d in plan.deleteDirectories
    ensures Untouched(RequestOf(plan), d) && Emptied(vault, RequestOf(plan), d)
  {
    assert d != [] && [] !in vault.Paths();
    forall e | e in local.Paths()
      ensures !(d < e)
    {
      assert d < e ==> d in Parents(e);
    }
    assert forall w | w in plan.writes :: w.path in local.Paths();
    forall e | e in vault.Paths() && d < e
      ensures e in DeletePaths(plan.deletes) || e in plan.deleteDirectories
    {
      GoesWithDirectory(state, s, vault, local, delete, plan, d, e);
    }
  }

  lemma GoesWithDirectory(state: SyncState, s: Snapshot, vault: Tree, local: Tree, delete: bool, plan: PushPlan,
                          d: Path, e: Path)
    requires Ready(state, s, vault, local, delete, plan) && d in plan.deleteDirectories
    requires e in vault.Paths() && d < e && e !in local.Paths()
    ensures e in DeletePaths(plan.deletes) || e in plan.deleteDirectories
  {
    assert d in vault.dirs && state.scope.Contains(d);
    assert !state.scope.File?;
    assert state.scope.Contains(e) && state.scope != Folder(e);
    if e in vault.files {
      FileGoes(state, s, vault, local, plan, e);
    } else {
      NoDirectoryConflict(state, s, local, delete, plan, e);
      assert e in s.directories;
    }
  }

  lemma ErasedWhenGone(base: Version, remote: Content)
    ensures var choice := PushChoice(base, None, Some(remote), true); choice.Clash? || choice.Erase?
  {}

  lemma FileGoes(state: SyncState, s: Snapshot, vault: Tree, local: Tree, plan: PushPlan, e: Path)
    requires Ready(state, s, vault, local, true, plan) && state.scope.Contains(e) && e in vault.files
    requires e !in local.files
    ensures e in DeletePaths(plan.deletes)
  {
    SnapshotRemote(s, vault);
    NoClash(state, s, vault, local, true, plan, e);
    var choice := PushAt(state.Base(), local.files, s.Remote(), e, true);
    ErasedWhenGone(At(state.Base(), e), vault.files[e]);
    assert Deletion(e, choice.version) in plan.deletes;
  }

  lemma CompatibleIsAccepted(entries: seq<TreeEntry>, state: SyncState, s: Snapshot, vault: Tree, local: Tree,
                             delete: bool, plan: PushPlan)
    requires Ready(state, s, vault, local, delete, plan) && IsListing(entries, vault)
    requires Distinct(plan.deleteDirectories) && Compatible(state.scope, vault, local)
    ensures Accepted(entries, vault, RequestOf(plan))
  {
    var req := RequestOf(plan);
    var future := FutureEntries(entries, vault, req);
    forall e | e in RequestEntries(req)
      ensures InUnion(state.scope, vault, local, e)
    {
      RequestInUnion(state, s, vault, local, delete, plan, e);
    }
    forall e | e in future
      ensures InUnion(state.scope, vault, local, e)
    {
      FutureInUnion(entries, state, s, vault, local, delete, plan, e);
    }
    assert forall e | e in entries :: InUnion(state.scope, vault, local, e);
    RequestNoneTwice(state, s, vault, local, delete, plan);
    FutureNoneTwice(entries, state, s, vault, local, delete, plan);
    ValidByElements(RequestEntries(req));
    ValidByElements(entries);
    ValidByElements(future);
    forall d | d in req.deleteDirectories
      ensures Untouched(req, d) && Emptied(vault, req, d)
    {
      DeletedIsEmptied(state, s, vault, local, delete, plan, d);
    }
  }

  // ---- an accepted push is compatible ----

  lemma FoldedAncestor(a: Path, p: Path) returns (q: Path)
    requires a != [] && Fold(a) < Fold(p)
    ensures q in Parents(p) && Fold(q) == Fold(a)
  {
    q := p[..|a|];
    assert forall i | 0 <= i < |a| :: Fold(a)[i] == Fold(p)[i];
    assert forall i | 0 <= i < |a| :: Fold(q)[i] == Fold(p)[i];
  }

  /** The workspace alone is valid: it is a tree, and a case collision in it would have been a conflict. */
  lemma LocalsDoNotCollide(state: SyncState, s: Snapshot, vault: Tree, local: Tree, delete: bool, plan: PushPlan,
                           a: TreeEntry, b: TreeEntry)
    requires Ready(state, s, vault, local, delete, plan) && InTree(local, a) && InTree(local, b)
    ensures !Collide(a, b)
  {
    assert forall p, q | p in local.Paths() && q in local.Paths() && Fold(p) == Fold(q) :: p == q;
    if a.isFile && Fold(a.path) < Fold(b.path) {
      assert [] !in local.Paths();
      var q := FoldedAncestor(a.path, b.path);
    }
  }

  lemma NewCollidesWithNone(entries: seq<TreeEntry>, state: SyncState, s: Snapshot, vault: Tree, local: Tree,
                            delete: bool,
                            plan: PushPlan, a: TreeEntry, b: TreeEntry)
    requires Ready(state, s, vault, local, delete, plan) && IsListing(entries, vault)
    requires Accepted(entries, vault, RequestOf(plan))
    requires InTree(vault, a) && !(state.scope.Contains(a.path) && InTree(local, a))
    requires state.scope.Contains(b.path) && InTree(local, b) && !InTree(vault, b)
    ensures !Collide(a, b) && !Collide(b, a)
  {
    var req := RequestOf(plan);
    NewIsRequested(entries, state, s, vault, local, delete, plan, b);
    OldIsRemovedOrStays(entries, state, s, vault, local, delete, plan, a);
    ValidByElements(RequestEntries(req));
    ValidByElements(FutureEntries(entries, vault, req));
  }

  lemma AcceptedIsCompatible(entries: seq<TreeEntry>, state: SyncState, s: Snapshot, vault: Tree, local: Tree,
                             delete: bool, plan: PushPlan)
    requires Ready(state, s, vault, local, delete, plan) && IsListing(entries, vault)
    requires Accepted(entries, vault, RequestOf(plan))
    ensures Compatible(state.scope, vault, local)
  {
    ValidByElements(entries);
    forall a, b | InUnion(state.scope, vault, local, a) && InUnion(state.scope, vault, local, b)
      ensures !Collide(a, b)
    {
      var inA := state.scope.Contains(a.path) && InTree(local, a);
      var inB := state.scope.Contains(b.path) && InTree(local, b);
      if inA && inB {
        LocalsDoNotCollide(state, s, vault, local, delete, plan, a, b);
      } else if InTree(vault, a) && InTree(vault, b) {
        assert a in entries && b in entries;
      } else if InTree(vault, a) {
        NewCollidesWithNone(entries, state, s, vault, local, delete, plan, a, b);
      } else {
        NewCollidesWithNone(entries, state, s, vault, local, delete, plan, b, a);
      }
    }
  }

  lemma AcceptedIsDistinct(entries: seq<TreeEntry>, vault: Tree, plan: PushPlan)
    requires Accepted(entries, vault, RequestOf(plan))
    ensures Distinct(plan.deleteDirectories)
  {
    var es := RequestEntries(RequestOf(plan));
    var n := |es| - |plan.deleteDirectories|;
    forall i, j | 0 <= i < j < |plan.deleteDirectories|
      ensures plan.deleteDirectories[i] != plan.deleteDirectories[j]
    {
      assert es[n + i].path == plan.deleteDirectories[i] && es[n + j].path == plan.deleteDirectories[j];
    }
  }

  /** A conflict-free push is accepted if and only if vault and workspace, laid over each other, are still one valid
      tree (no two entries that fold together, nothing beneath a file), and the manifest lists no directory to delete
      twice. */
  lemma AcceptedExactly(entries: seq<TreeEntry>, state: SyncState, s: Snapshot, vault: Tree, local: Tree,
                        delete: bool, plan: PushPlan)
    requires Ready(state, s, vault, local, delete, plan) && IsListing(entries, vault)
    ensures Accepted(entries, vault, RequestOf(plan)) <==>
              Distinct(plan.deleteDirectories) && Compatible(state.scope, vault, local)
  {
    if Accepted(entries, vault, RequestOf(plan)) {
      AcceptedIsDistinct(entries, vault, plan);
      AcceptedIsCompatible(entries, state, s, vault, local, delete, plan);
    }
    if Distinct(plan.deleteDirectories) && Compatible(state.scope, vault, local) {
      CompatibleIsAccepted(entries, state, s, vault, local, delete, plan);
    }
  }

  /** In particular, what became a folder, or a file, can never be pushed over what it was, with or without --delete. */
  lemma KindChangeIsRefused(entries: seq<TreeEntry>, state: SyncState, s: Snapshot, vault: Tree, local: Tree,
                            delete: bool,
                            plan: PushPlan, p: Path)
    requires Ready(state, s, vault, local, delete, plan) && IsListing(entries, vault) && state.scope.Contains(p)
    requires (p in vault.files && p in local.dirs) || (p in vault.dirs && p in local.files)
    ensures !Accepted(entries, vault, RequestOf(plan))
  {
    AcceptedExactly(entries, state, s, vault, local, delete, plan);
    assert InUnion(state.scope, vault, local, TreeEntry(p, true)) &&
        InUnion(state.scope, vault, local, TreeEntry(p, false));
    assert Collide(TreeEntry(p, true), TreeEntry(p, false));
  }

  /** An accepted request names no path that cannot be read. */
  lemma AcceptedIsReadable(entries: seq<TreeEntry>, t: Tree, req: Request)
    requires t.Valid() && IsListing(entries, t) && Accepted(entries, t, req) && VersionsMatch(t, req)
    ensures Readable(t, req)
  {
    ApplyProofs.AcceptedFacts(t, entries, req);
    forall e | e in Expectations(req)
      ensures ReadTree(t, e.0) != HostFiles.Unreadable
    {
      var i :| 0 <= i < |Expectations(req)| && Expectations(req)[i] == e;
      if i < |req.writes| {
        assert req.writes[i] in req.writes;
      } else {
        assert req.deletes[i - |req.writes|] in req.deletes;
        NotBeneathFile(t, e.0);
      }
    }
  }

  // ---- planned again ----

  /** Laid over the workspace, a partly pushed vault adds nothing to what the vault added before. */
  lemma PartlyPushedStaysCompatible(state: SyncState, s: Snapshot, vault: Tree, local: Tree, delete: bool,
                                    plan: PushPlan, now: Tree)
    requires Planned(state, s, vault, local, delete, plan) && PartlyPushed(state, s, vault, local, delete, plan, now)
    requires Compatible(state.scope, vault, local)
    ensures Compatible(state.scope, now, local)
  {
    forall e | InUnion(state.scope, now, local, e)
      ensures InUnion(state.scope, vault, local, e)
    {
      if e.isFile && InTree(now, e) {
        assert now.Version(e.path) == vault.Version(e.path) ||
               now.Version(e.path) == Target(state, s, vault, local, delete, e.path);
        assert now.Version(e.path).Some?;
      }
    }
  }

  lemma {:induction false} DistinctCountsOne(ds: seq<Path>)
    requires Distinct(ds)
    ensures forall d | d in ds :: multiset(ds)[d] == 1
  {
    if ds == [] {
    } else {
      var first, rest := ds[0], ds[1..];
      assert forall i | 0 <= i < |rest| :: rest[i] == ds[i + 1] && rest[i] != first;
      DistinctCountsOne(rest);
      assert ds == [first] + rest;
      assert first !in multiset(rest);
    }
  }

  lemma {:induction false} CountsOneDistinct(ds: seq<Path>)
    requires forall d | d in ds :: multiset(ds)[d] == 1
    ensures Distinct(ds)
  {
    if ds == [] {
    } else {
      var first, rest := ds[0], ds[1..];
      assert ds == [first] + rest;
      assert multiset(ds) == multiset{first} + multiset(rest);
      forall d | d in rest
        ensures d != first && multiset(rest)[d] == 1
      {
        assert d in ds && d in multiset(rest);
      }
      CountsOneDistinct(rest);
      forall i, j | 0 <= i < j < |ds|
        ensures ds[i] != ds[j]
      {
        assert ds[j] == rest[j - 1] && rest[j - 1] in rest;
        assert i > 0 ==> ds[i] == rest[i - 1];
      }
    }
  }

  lemma FewerStayDistinct(some: seq<Path>, more: seq<Path>, all: seq<Path>)
    requires AsOften(some, all) && AsOften(more, all) && Distinct(more) && forall d | d in some :: d in more
    ensures Distinct(some)
  {
    DistinctCountsOne(more);
    CountsOneDistinct(some);
  }
}
