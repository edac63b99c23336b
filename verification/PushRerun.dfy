/** When a push that was cut short can be planned again, and what the second attempt then does. */
module PushRerun {
  import opened Basics
  import opened Paths
  import opened HostFiles
  import opened Merge
  import opened Manifest
  import opened Steps
  import opened Apply
  import opened Push
  import opened PushProofs
  import opened PushAcceptance
  import ApplyProofs

  lemma RequestPathsAreValid(state: SyncState, s: Snapshot, vault: Tree, local: Tree, delete: bool, plan: PushPlan)
    requires Planned(state, s, vault, local, delete, plan) && AllVaultPaths(vault) && AllVaultPaths(local)
    ensures RequestOf(plan).ValidPaths()
  {
    PlanMatchesVault(state, s, vault, local, delete, plan);
    assert forall w | w in plan.writes :: w.path in local.Paths();
    assert forall d | d in plan.deletes :: d.path in vault.Paths();
    assert forall d | d in plan.createDirectories :: d in local.Paths();
    assert forall d | d in plan.deleteDirectories :: d in vault.Paths();
  }

  lemma NothingPushed(state: SyncState, s: Snapshot, vault: Tree, local: Tree, delete: bool, plan: PushPlan)
    requires vault.Valid()
    ensures PartlyPushed(state, s, vault, local, delete, plan, vault)
  {}

  /** What is true of the vault once an undisturbed request has been applied. */
  ghost predicate Settled(state: SyncState, s: Snapshot, vault: Tree, local: Tree, delete: bool, plan: PushPlan,
                          now: Tree) {
    && now.Valid()
    && (forall p :: now.Version(p) == Target(state, s, vault, local, delete, p))
    && CaseDistinct(now, state.scope)
    && (ScopeExists(now, state.scope) <==> !LosesScope(state, vault, plan))
  }

  lemma AppliedSettles(w: World, entries: seq<TreeEntry>, state: SyncState, s: Snapshot, local: Tree, delete: bool,
                       plan: PushPlan)
    requires Planned(state, s, w.tree, local, delete, plan) && plan.conflicts == {} && ScopeExists(w.tree, state.scope)
    requires w.turns == [] && RequestOf(plan).ValidPaths() && IsListing(entries, w.tree)
    requires Accepted(entries, w.tree, RequestOf(plan))
    ensures VersionsMatch(w.tree, RequestOf(plan))
    ensures var run := ApplyRun(w, w.tree, RequestOf(plan));
            ResultOf(run).outcome.Applied? && Settled(state, s, w.tree, local, delete, plan, run.world.tree)
    ensures ApplyRun(w, w.tree, RequestOf(plan)).world.turns == []
  {
    PlanMatchesVault(state, s, w.tree, local, delete, plan);
    PushApplies(w, entries, state, s, w.tree, local, delete, plan);
    PushedCaseDistinct(entries, state, s, w.tree, local, delete, plan);
    RefreshExactly(entries, state, s, w.tree, local, delete, plan);
    ApplyProofs.FrontLoops(w, w.tree, entries, RequestOf(plan));
    PrunesStayQuiet(DeleteRun(WriteRun(MkdirRun(Run(w, [], [], [], [], [], []), w.tree,
        Sorted(plan.createDirectories)), plan.writes), plan.deletes),
                    DeepestFirst(plan.deleteDirectories));
  }

  lemma {:induction false} PrunesStayQuiet(r: Run, ds: seq<Path>)
    requires r.world.turns == []
    ensures PruneRun(r, ds).world.turns == []
    decreases |ds|
  {
    if ds != [] { PrunesStayQuiet(PruneStep(r, ds[0]), ds[1..]); }
  }

  // ---- the first attempt, and what it can leave behind ----

  /** A push planned once: manifest, snapshot, vault, workspace, --delete and plan. */
  datatype Attempt = Attempt(state: SyncState, s: Snapshot, vault: Tree, local: Tree, delete: bool, plan: PushPlan) {
    function Scope(): Scope { state.scope }

    /** A plan without conflicts, made from an undisturbed snapshot of this vault. */
    ghost predicate Fits(t: Tree) {
      t == vault && Ready(state, s, vault, local, delete, plan) && CanSnapshot(vault, state.scope)
    }

    /** Vault and workspace fit together: see AcceptedExactly. */
    ghost predicate Acceptable() {
      Distinct(plan.deleteDirectories) && Compatible(state.scope, vault, local)
    }

    /** The plan has no conflicts, and the vault accepts its request. */
    ghost predicate Sound() {
      Ready(state, s, vault, local, delete, plan) && Acceptable() && RequestOf(plan).ValidPaths()
    }

    ghost predicate Settles(now: Tree) { Settled(state, s, vault, local, delete, plan, now) }

    ghost predicate Loses() { LosesScope(state, vault, plan) }

    ghost predicate Reaches(now: Tree) { PartlyPushed(state, s, vault, local, delete, plan, now) }

    /** The vault as a run of the request leaves it. */
    function Left(w: World): Tree { ApplyRun(w, vault, RequestOf(plan)).world.tree }

    /** A second plan, from the old manifest, the same workspace and what is now in the vault. */
    ghost predicate Again(now: Tree, again: Snapshot, listed: seq<TreeEntry>, retry: PushPlan) {
      && IsSnapshotOf(again, now) && again.scope == state.scope && IsListing(listed, now)
      && IsPushPlan(state, again, local, delete, retry)
    }

    /** Undisturbed, the second attempt is applied, takes every path where the first would have taken it, and the
        manifest can be refreshed afterwards. */
    ghost predicate Completes(now: Tree, retry: PushPlan) {
      forall w: World | w.turns == [] && w.tree == now ::
        var run := ApplyRun(w, now, RequestOf(retry));
        && ResultOf(run).outcome.Applied? && CanSnapshot(run.world.tree, state.scope)
        && forall p :: run.world.tree.Version(p) == Target(state, s, vault, local, delete, p)
    }

    /** The vault can be scanned, and whatever is planned then is conflict-free, accepted, and completes. */
    ghost predicate Recovers(now: Tree) {
      && CanSnapshot(now, state.scope)
      && forall again, listed, retry | Again(now, again, listed, retry) ::
           && retry.conflicts == {} && RequestOf(retry).ValidPaths() && Accepted(listed, now, RequestOf(retry))
           && Completes(now, retry)
    }
  }

  // ---- can the vault be scanned? ----

  lemma CompatibleIsCaseDistinct(scope: Scope, vault: Tree, local: Tree)
    requires Compatible(scope, vault, local)
    ensures CaseDistinct(vault, scope)
  {
    forall p, q | p in vault.Paths() && q in vault.Paths() && Fold(p) == Fold(q)
      ensures p == q
    {
      var a, b := TreeEntry(p, p in vault.files), TreeEntry(q, q in vault.files);
      assert InUnion(scope, vault, local, a) && InUnion(scope, vault, local, b);
      assert !Collide(a, b);
    }
  }

  /** A file that is not deleted is still there. */
  lemma FileStays(x: Attempt, now: Tree, f: Path)
    requires x.Sound() && x.Reaches(now) && f in x.vault.files && f !in DeletePaths(x.plan.deletes)
    ensures f in now.files
  {
    PlanAt(x.state, x.s, x.vault, x.local, x.delete, x.plan, f);
    MutationDoneOrNot(x.state, x.s, x.vault, x.local, x.delete, x.plan, now, f);
    assert now.Version(f) == x.vault.Version(f) ||
           now.Version(f) == Target(x.state, x.s, x.vault, x.local, x.delete, f);
  }

  /** Where the vault had a file, an accepted push makes no folder. */
  lemma NoFolderForFile(x: Attempt, now: Tree, f: Path)
    requires x.Sound() && x.Reaches(now) && x.Scope().Contains(f) && f in x.vault.files
    ensures f !in now.dirs
  {
    var file, folder := TreeEntry(f, true), TreeEntry(f, false);
    assert InUnion(x.Scope(), x.vault, x.local, file) && Collide(file, folder);
    assert f in x.local.dirs ==> InUnion(x.Scope(), x.vault, x.local, folder);
  }

  lemma FolderStays(x: Attempt, now: Tree, f: Path)
    requires x.Sound() && x.Reaches(now) && x.Scope() == Folder(f) && f !in x.vault.files
    ensures ScopeExists(now, x.Scope())
  {
    var q :| q in x.vault.Paths() && x.Scope().Contains(q);
    assert f in x.vault.dirs by {
      assert f == q || f in Parents(q);
    }
    assert f !in x.plan.deleteDirectories;
    assert f in now.Paths() && x.Scope().Contains(f);
  }

  /** A partly pushed vault can be scanned exactly as long as the file its scope names has not been deleted. */
  lemma ScanExactly(x: Attempt, now: Tree)
    requires x.Sound() && x.Reaches(now)
    ensures CanSnapshot(now, x.Scope()) <==> (x.Loses() ==> x.Scope().path in now.files)
  {
    PartlyPushedStaysCompatible(x.state, x.s, x.vault, x.local, x.delete, x.plan, now);
    CompatibleIsCaseDistinct(x.Scope(), now, x.local);
    if !x.Scope().All? {
      var f := x.Scope().path;
      if f in x.vault.files {
        assert x.Scope().Contains(f);
        NoFolderForFile(x, now, f);
        if f !in DeletePaths(x.plan.deletes) { FileStays(x, now, f); }
        ScopeIsItsFile(now, x.Scope(), f);
      } else {
        FolderStays(x, now, f);
      }
    }
  }

  /** Without a folder at the scope's path, the scope is that one file. */
  lemma ScopeIsItsFile(t: Tree, scope: Scope, f: Path)
    requires t.Valid() && !scope.All? && scope.path == f && f !in t.dirs && scope.Contains(f) && f != []
    ensures ScopeExists(t, scope) <==> f in t.files
  {
    assert f in t.files ==> f in t.Paths();
    forall q | q in t.Paths() && scope.Contains(q)
      ensures q == f
    {
      assert q != f ==> f in Parents(q);
    }
  }

  // ---- the second attempt ----

  /** If the first request was acceptable, so is the retried one. */
  lemma RetryIsAccepted(x: Attempt, now: Tree, again: Snapshot, listed: seq<TreeEntry>, retry: PushPlan)
    requires x.Sound() && x.Reaches(now) && !x.Loses() && x.Again(now, again, listed, retry)
    ensures retry.conflicts == {} && RequestOf(retry).ValidPaths() && Accepted(listed, now, RequestOf(retry))
    ensures Ready(x.state, again, now, x.local, x.delete, retry) && !LosesScope(x.state, now, retry)
  {
    ScanExactly(x, now);
    PushResumes(x.state, x.s, x.vault, x.local, x.delete, x.plan, now, again, retry);
    PartlyPushedStaysCompatible(x.state, x.s, x.vault, x.local, x.delete, x.plan, now);
    FewerStayDistinct(retry.deleteDirectories, x.plan.deleteDirectories, x.state.directories);
    AcceptedExactly(listed, x.state, again, now, x.local, x.delete, retry);
    assert DeletePaths(retry.deletes) <= DeletePaths(x.plan.deletes);
    PlanMatchesVault(x.state, x.s, x.vault, x.local, x.delete, x.plan);
  }

  /** The retried push asks for the versions the first one asked for. */
  lemma RetryTarget(x: Attempt, now: Tree, again: Snapshot, listed: seq<TreeEntry>, retry: PushPlan, p: Path)
    requires x.Sound() && x.Reaches(now) && x.Again(now, again, listed, retry)
    ensures Target(x.state, again, now, x.local, x.delete, p) ==
              Target(x.state, x.s, x.vault, x.local, x.delete, p)
  {
    RetryChoice(x.state, x.s, x.vault, x.local, x.delete, x.plan, now, again, retry, p);
  }

  /** So an undisturbed retry is applied, brings every path where the first attempt would have brought it, and can
      refresh its manifest. */
  lemma RetryCompletes(x: Attempt, now: Tree, again: Snapshot, listed: seq<TreeEntry>, retry: PushPlan)
    requires x.Sound() && x.Reaches(now) && !x.Loses() && x.Again(now, again, listed, retry)
    ensures x.Completes(now, retry)
  {
    RetryIsAccepted(x, now, again, listed, retry);
    forall w: World | w.turns == [] && w.tree == now
      ensures var run := ApplyRun(w, now, RequestOf(retry));
              && ResultOf(run).outcome.Applied? && CanSnapshot(run.world.tree, x.Scope())
              && forall p :: run.world.tree.Version(p) == Target(x.state, x.s, x.vault, x.local, x.delete, p)
    {
      AppliedSettles(w, listed, x.state, again, x.local, x.delete, retry);
      forall p
        ensures Target(x.state, again, now, x.local, x.delete, p) ==
                  Target(x.state, x.s, x.vault, x.local, x.delete, p)
      {
        RetryTarget(x, now, again, listed, retry, p);
      }
    }
  }

  lemma RecoversFrom(x: Attempt, now: Tree)
    requires x.Sound() && x.Reaches(now) && !x.Loses()
    ensures x.Recovers(now)
  {
    ScanExactly(x, now);
    forall again, listed, retry | x.Again(now, again, listed, retry)
      ensures retry.conflicts == {} && RequestOf(retry).ValidPaths()
      ensures Accepted(listed, now, RequestOf(retry)) && x.Completes(now, retry)
    {
      RetryIsAccepted(x, now, again, listed, retry);
      RetryCompletes(x, now, again, listed, retry);
    }
  }

  // ---- the main result ----

  lemma {:induction false} ListingOf(left: set<TreeEntry>) returns (entries: seq<TreeEntry>)
    ensures (forall e :: e in entries <==> e in left) && NoneTwice(entries)
    decreases |left|
  {
    if left == {} {
      entries := [];
    } else {
      var e :| e in left;
      var rest := ListingOf(left - {e});
      entries := [e] + rest;
    }
  }

  lemma SomeListing(t: Tree) returns (entries: seq<TreeEntry>)
    ensures IsListing(entries, t)
  {
    entries := ListingOf((set p | p in t.files :: TreeEntry(p, true)) + (set p | p in t.dirs :: TreeEntry(p, false)));
  }

  /** Wherever failures cut it off, an accepted push can be planned again with the old manifest, meets no conflict, is
      accepted, and completes to the same versions, if and only if it does not delete the file its scope names. */
  lemma PushRerunExactly(x: Attempt)
    requires x.Sound()
    ensures (forall w: World | Alone(w) && w.tree == x.vault :: x.Recovers(x.Left(w))) <==> !x.Loses()
  {
    if x.Loses() {
      var w := World(x.vault, [], []);
      var entries := SomeListing(x.vault);
      AcceptedExactly(entries, x.state, x.s, x.vault, x.local, x.delete, x.plan);
      AppliedSettles(w, entries, x.state, x.s, x.local, x.delete, x.plan);
      assert Alone(w) && !x.Recovers(x.Left(w));
    } else {
      forall w: World | Alone(w) && w.tree == x.vault
        ensures x.Recovers(x.Left(w))
      {
        InterruptedPush(w, x.state, x.s, x.vault, x.local, x.delete, x.plan);
        RecoversFrom(x, x.Left(w));
      }
    }
  }

  // ---- a push that cannot be rerun ----

  /** A workspace that holds one pulled file, deleted locally, and a push of it with --delete. */
  function OneFilePush(): Attempt {
    var a := ["a"];
    Attempt(SyncState("v", File(a), [ManifestEntry(a, a, "0")], []), Snapshot("v", File(a), [Entry(a, "0")], []),
            Tree(map[a := "0"], {}), Tree(map[], {}), true, PushPlan([], [Deletion(a, "0")], [], [], {}, {}))
  }

  lemma OneFileBase()
    ensures OneFilePush().state.Base() == map[["a"] := "0"] && OneFilePush().s.Remote() == map[["a"] := "0"]
  {
    assert OneFilePush().s.Remote() == ToMap([Entry(["a"], "0")]);
  }

  lemma OneFileSides()
    ensures var x := OneFilePush();
            Trusted(x.state) && x.vault.Valid() && x.local.Valid() && IsSnapshotOf(x.s, x.vault)
  {
    assert Parents(["a"]) == {};
  }

  lemma OneFilePlan()
    ensures IsPushPlan(OneFilePush().state, OneFilePush().s, OneFilePush().local, true, OneFilePush().plan)
  {
    OneFileBase();
  }

  lemma OneFileTarget(p: Path)
    ensures var x := OneFilePush(); Target(x.state, x.s, x.vault, x.local, x.delete, p) == None
  {
    OneFileBase();
  }

  lemma OneFileFits()
    ensures OneFilePush().Acceptable() && RequestOf(OneFilePush().plan).ValidPaths()
  {
    var x := OneFilePush();
    assert forall e | InUnion(x.Scope(), x.vault, x.local, e) :: e == TreeEntry(["a"], true);
  }

  /** Cut off after the deletion, the vault cannot be scanned in that scope any more, so no retry gets to a plan. */
  lemma InterruptedPushCannotRerun()
    ensures var x, now := OneFilePush(), Tree(map[], {});
            x.Sound() && x.Loses() && x.Reaches(now) && !CanSnapshot(now, x.Scope())
  {
    var x := OneFilePush();
    OneFileSides();
    OneFilePlan();
    OneFileFits();
    assert x.Loses() by {
      assert x.plan.deletes[0].path == ["a"];
    }
    forall p
      ensures Tree(map[], {}).Version(p) == Target(x.state, x.s, x.vault, x.local, x.delete, p)
    {
      OneFileTarget(p);
    }
  }
}
