/** What a pull does to the workspace files, for every plan, interruption and rerun. */
module PullProofs {
  import opened Basics
  import opened Paths
  import opened HostFiles
  import opened Merge
  import opened Manifest
  import opened Steps
  import opened Pull

  type Files = map<Path, Content>

  /** The merge at one path, from the workspace as the pull found it. */
  ghost function MergeAt(base: Files, local: Tree, remote: Files, p: Path): Option<Option<Content>> {
    ThreeWay(At(base, p), local.Version(p), At(remote, p))
  }

  /** A conflict-free plan made from what an undisturbed workspace holds. */
  ghost predicate CleanPlan(base: Files, local: Tree, seen: Files, remote: Files, plan: PullPlan) {
    && IsPullPlan(base, seen, remote, plan)
    && plan.conflicts == []
    && forall p | p in base.Keys + remote.Keys :: At(seen, p) == local.Version(p)
  }

  /** Pull stops with a conflict exactly when some path has three different versions. */
  lemma ConflictExactly(base: Files, local: Tree, seen: Files, remote: Files, plan: PullPlan)
    requires IsPullPlan(base, seen, remote, plan)
    requires forall p | p in base.Keys + remote.Keys :: At(seen, p) == local.Version(p)
    ensures plan.conflicts != [] <==> exists p :: AllDiffer(At(base, p), local.Version(p), At(remote, p))
    ensures plan.conflicts != [] <==> exists p :: MergeAt(base, local, remote, p).None?
  {
    forall p
      ensures ChoiceAt(base, seen, remote, p).Clash? <==> AllDiffer(At(base, p), local.Version(p), At(remote, p))
      ensures AllDiffer(At(base, p), local.Version(p), At(remote, p)) <==> MergeAt(base, local, remote, p).None?
    {
      PullIsThreeWay(At(base, p), At(seen, p), At(remote, p));
    }
    if plan.conflicts != [] {
      var c := plan.conflicts[0];
      assert c in plan.conflicts;
      assert AllDiffer(At(base, c.path), local.Version(c.path), At(remote, c.path));
      assert MergeAt(base, local, remote, c.path).None?;
    }
    if p :| AllDiffer(At(base, p), local.Version(p), At(remote, p)) {
      assert Issue(p, ChoiceAt(base, seen, remote, p).reason) in plan.conflicts;
    }
  }

  lemma CleanMerge(base: Files, local: Tree, seen: Files, remote: Files, plan: PullPlan, p: Path)
    requires CleanPlan(base, local, seen, remote, plan)
    ensures MergeAt(base, local, remote, p).Some?
    ensures forall w | w in plan.writes && w.path == p ::
              MergeAt(base, local, remote, p) == Some(Some(w.content)) && w.expected == local.Version(p)
    ensures forall d | d in plan.deletes && d.path == p ::
              MergeAt(base, local, remote, p) == Some(None) && local.Version(p) == Some(d.version)
    ensures (exists w :: w in plan.writes && w.path == p) || (exists d :: d in plan.deletes && d.path == p) ||
            MergeAt(base, local, remote, p) == Some(local.Version(p))
  {
    ConflictExactly(base, local, seen, remote, plan);
    PullIsThreeWay(At(base, p), At(seen, p), At(remote, p));
    if p in base.Keys + remote.Keys {
      match ChoiceAt(base, seen, remote, p) {
        case Copy(e) => assert Write(p, remote[p], e) in plan.writes;
        case Erase(v) => assert Deletion(p, v) in plan.deletes;
        case _ =>
      }
    }
  }

  /** Before directories are removed, a path holds its old version or the merged one, and finally the merged one. */
  lemma FrontVersion(base: Files, local: Tree, seen: Files, remote: Files, plan: PullPlan, dirs: seq<Path>, k: nat,
                     p: Path)
    requires CleanPlan(base, local, seen, remote, plan)
    requires k <= |PullFront(dirs, plan)| && Replay(local, PullFront(dirs, plan)[..k]).ok
    ensures var v := Replay(local, PullFront(dirs, plan)[..k]).tree.Version(p);
            && (v == local.Version(p) || Some(v) == MergeAt(base, local, remote, p))
            && (k == |PullFront(dirs, plan)| ==> Some(v) == MergeAt(base, local, remote, p))
  {
    var front := PullFront(dirs, plan);
    var steps := front[..k];
    CleanMerge(base, local, seen, remote, plan, p);
    forall s | s in front
      ensures s.MakeDir? || (s.Put? && s.write in plan.writes) || (s.Drop? && s.deletion in plan.deletes)
    {
      assert s in MakeSteps([[]] + dirs) || s in PutSteps(plan.writes) || s in DropSteps(plan.deletes);
    }
    assert forall s | s in steps :: s in front;
    PathAfter(local, steps, p, MergeAt(base, local, remote, p).value);
    if k == |front| {
      assert steps == front;
      if w :| w in plan.writes && w.path == p {
        PutIn(plan, dirs, w);
        assert Touches(Put(w), p);
      }
      if d :| d in plan.deletes && d.path == p {
        DropIn(plan, dirs, d);
        assert Touches(Drop(d), p);
      }
    }
  }

  lemma PutIn(plan: PullPlan, dirs: seq<Path>, w: Write)
    requires w in plan.writes
    ensures Put(w) in PullFront(dirs, plan)
  {
    var i :| 0 <= i < |plan.writes| && plan.writes[i] == w;
    assert PutSteps(plan.writes)[i] == Put(w);
  }

  lemma DropIn(plan: PullPlan, dirs: seq<Path>, d: Deletion)
    requires d in plan.deletes
    ensures Drop(d) in PullFront(dirs, plan)
  {
    var i :| 0 <= i < |plan.deletes| && plan.deletes[i] == d;
    assert DropSteps(plan.deletes)[i] == Drop(d);
  }

  /** After any prefix of the mutations, every path holds its old or its merged version; only the paths
      listed as removed directories may have lost theirs. */
  lemma PrefixVersion(base: Files, local: Tree, seen: Files, remote: Files, plan: PullPlan, dirs: seq<Path>,
                      removed: seq<Path>, k: nat, p: Path)
    requires CleanPlan(base, local, seen, remote, plan)
    requires k <= |PullSteps(dirs, plan, removed)| && Replay(local, PullSteps(dirs, plan, removed)[..k]).ok
    ensures var v := Replay(local, PullSteps(dirs, plan, removed)[..k]).tree.Version(p);
            && (v == local.Version(p) || Some(v) == MergeAt(base, local, remote, p) || (p in removed && v == None))
            && (k == |PullSteps(dirs, plan, removed)| ==>
                  Some(v) == if p in removed then Some(None) else MergeAt(base, local, remote, p))
  {
    var front, order := PullFront(dirs, plan), DeepestFirst(removed);
    var all := PullSteps(dirs, plan, removed);
    if k <= |front| {
      assert all[..k] == front[..k];
      FrontVersion(base, local, seen, remote, plan, dirs, k, p);
      if k == |all| {
        assert |order| == 0;
        assert forall d :: d in removed ==> d in order;
      }
    } else {
      var j := k - |front|;
      var back := PruneSteps(order)[..j];
      assert all[..k] == front + back;
      assert front[..|front|] == front;
      ReplayConcat(local, front, back);
      FrontVersion(base, local, seen, remote, plan, dirs, |front|, p);
      PrunedVersion(Replay(local, front).tree, order, j, p);
    }
  }

  /** What the removal of directories can do to a file. */
  lemma PrunedVersion(t: Tree, order: seq<Path>, j: nat, p: Path)
    requires j <= |order| && Replay(t, PruneSteps(order)[..j]).ok
    ensures var v := Replay(t, PruneSteps(order)[..j]).tree.Version(p);
            && (v == t.Version(p) || (p in order && v == None))
            && (j == |order| && p in order ==> v == None)
  {
    var back := PruneSteps(order)[..j];
    assert forall s | s in back :: s.Prune? && s.dir in order;
    PathAfter(t, back, p, None);
    if j == |order| && p in order {
      var i :| 0 <= i < |order| && order[i] == p;
      assert back[i] == Prune(p);
      assert Touches(back[i], p) && back[i] in back;
    }
  }

  /** Pull as a three-way merge: with no other writer, wherever it fails, each path holds its old or its merged
      version; a pull that completes leaves exactly the merge, less the paths of removed directories. */
  lemma PullIsMerge(w: World, base: Files, seen: Files, remote: Files, plan: PullPlan, dirs: seq<Path>,
                    removed: seq<Path>)
    requires Alone(w) && CleanPlan(base, w.tree, seen, remote, plan)
    ensures var ran := StrictRun(w, PullSteps(dirs, plan, removed));
            forall p :: InterruptedAt(base, w.tree, remote, removed, ran.world.tree, p)
    ensures var ran := StrictRun(w, PullSteps(dirs, plan, removed));
            ran.ok ==> forall p :: PulledAt(base, w.tree, remote, removed, ran.world.tree, p)
  {
    var steps := PullSteps(dirs, plan, removed);
    var ran := StrictRun(w, steps);
    var k := StrictRunIsPrefix(w, steps);
    forall p
      ensures InterruptedAt(base, w.tree, remote, removed, ran.world.tree, p)
      ensures ran.ok ==> PulledAt(base, w.tree, remote, removed, ran.world.tree, p)
    {
      PrefixVersion(base, w.tree, seen, remote, plan, dirs, removed, k, p);
    }
  }

  ghost predicate InterruptedAt(base: Files, local: Tree, remote: Files, removed: seq<Path>, after: Tree, p: Path) {
    || after.Version(p) == local.Version(p)
    || Some(after.Version(p)) == MergeAt(base, local, remote, p)
    || (p in removed && after.Version(p) == None)
  }

  ghost predicate PulledAt(base: Files, local: Tree, remote: Files, removed: seq<Path>, after: Tree, p: Path) {
    Some(after.Version(p)) == if p in removed then Some(None) else MergeAt(base, local, remote, p)
  }

  /** When is a completed pull exactly the merge? If and only if no removed directory's path is now a file,
      in the vault or in the workspace. (A manifest never lists one path as both file and directory.) */
  lemma MergeExactly(w: World, base: Files, seen: Files, remote: Files, plan: PullPlan, dirs: seq<Path>,
                     removed: seq<Path>)
    requires Alone(w) && CleanPlan(base, w.tree, seen, remote, plan)
    requires forall d | d in removed :: d !in base
    requires StrictRun(w, PullSteps(dirs, plan, removed)).ok
    ensures var after := StrictRun(w, PullSteps(dirs, plan, removed)).world.tree;
            (forall p :: Some(after.Version(p)) == MergeAt(base, w.tree, remote, p)) <==>
            (forall d | d in removed :: d !in remote && d !in w.tree.files)
  {
    var after := StrictRun(w, PullSteps(dirs, plan, removed)).world.tree;
    PullIsMerge(w, base, seen, remote, plan, dirs, removed);
    forall p
      ensures Some(after.Version(p)) == MergeAt(base, w.tree, remote, p) <==>
                (p in removed ==> p !in remote && p !in w.tree.files)
    {
      assert PulledAt(base, w.tree, remote, removed, after, p);
      CleanMerge(base, w.tree, seen, remote, plan, p);
    }
  }

  /** The files after an interruption: if a rerun with the old manifest can be planned at all, it finds no conflict, and
      completing it asks for the files the first attempt would have left. When it can be planned, and that it then does
      complete, is the subject of PullRerun. */
  lemma PullResumes(base: Files, local: Tree, remote: Files, removed: seq<Path>, now: Tree, seen: Files, plan: PullPlan)
    requires forall p :: MergeAt(base, local, remote, p).Some?
    requires forall d | d in removed :: d !in base
    requires forall p :: InterruptedAt(base, local, remote, removed, now, p)
    requires IsPullPlan(base, seen, remote, plan)
    requires forall p | p in base.Keys + remote.Keys :: At(seen, p) == now.Version(p)
    ensures plan.conflicts == []
    ensures forall after: Tree, p :: PulledAt(base, now, remote, removed, after, p) <==>
              PulledAt(base, local, remote, removed, after, p)
  {
    forall p
      ensures MergeAt(base, now, remote, p).Some?
      ensures p !in removed ==> MergeAt(base, now, remote, p) == MergeAt(base, local, remote, p)
    {
      assert MergeAt(base, local, remote, p).Some?;
      assert InterruptedAt(base, local, remote, removed, now, p);
      MergedPathIsSettled(At(base, p), local.Version(p), At(remote, p));
    }
    ConflictExactly(base, now, seen, remote, plan);
  }

  // ---- when does an undisturbed pull complete? ----

  /** The tree a pull has built when it comes to removing directories. */
  ghost function BeforePrune(t: Tree, dirs: seq<Path>, plan: PullPlan): Tree {
    Tree(Written(t.files, plan.writes) - DeletePaths(plan.deletes),
         t.dirs + (ToSet([[]] + dirs) - {[]}) + ParentsOfAll(ToSet([[]] + dirs)) +
             ParentsOfAll(WritePaths(plan.writes)))
  }

  /** Nothing stands in the way of removing d: no file will lie above it, and whatever lies beneath it goes too. */
  ghost predicate CanGo(base: Files, t: Tree, remote: Files, removed: seq<Path>, d: Path) {
    && (forall q :: q < d ==> MergeAt(base, t, remote, q) == Some(None))
    && (d in t.dirs ==> forall e :: d < e && e !in removed ==>
           MergeAt(base, t, remote, e) == Some(None) && e !in t.dirs)
  }

  lemma SnapshotDirectories(vault: Tree, s: Snapshot)
    requires vault.Valid() && IsSnapshotOf(s, vault)
    ensures (ToSet([[]] + s.directories) - {[]}) + ParentsOfAll(ToSet([[]] + s.directories)) <= vault.dirs
  {
    forall q | q in ParentsOfAll(ToSet([[]] + s.directories))
      ensures q in vault.dirs
    {
      var d :| d in ToSet([[]] + s.directories) && q in Parents(d);
      assert d in vault.Paths();
    }
  }

  lemma WriteIsReady(t: Tree, vault: Tree, s: Snapshot, base: Files, seen: Files, plan: PullPlan, w: Write)
    requires IsSnapshotOf(s, vault) && AllReadable(t, base, s.Remote()) && CleanPlan(base, t, seen, s.Remote(), plan)
    requires w in plan.writes
    ensures w.path in vault.files && w.path !in t.dirs && !t.BeneathFile(w.path) && t.Version(w.path) == w.expected
  {
    SnapshotRemote(s, vault);
    CleanMerge(base, t, seen, s.Remote(), plan, w.path);
    assert w.path in s.Remote();
    assert ReadTree(t, w.path) != Unreadable;
  }

  lemma WritesAreReady(t: Tree, vault: Tree, s: Snapshot, base: Files, seen: Files, plan: PullPlan)
    requires t.Valid() && vault.Valid() && IsSnapshotOf(s, vault)
    requires AllReadable(t, base, s.Remote()) && CleanPlan(base, t, seen, s.Remote(), plan)
    ensures WritesReady(t.(dirs := t.dirs + (ToSet([[]] + s.directories) - {[]}) +
              ParentsOfAll(ToSet([[]] + s.directories))), plan.writes)
  {
    var t1 := t.(dirs := t.dirs + (ToSet([[]] + s.directories) - {[]}) + ParentsOfAll(ToSet([[]] + s.directories)));
    SnapshotDirectories(vault, s);
    forall w | w in plan.writes
      ensures w.path in vault.files
      ensures w.path != [] && w.path !in t1.dirs && !t1.BeneathFile(w.path) && t1.Version(w.path) == w.expected
    {
      WriteIsReady(t, vault, s, base, seen, plan, w);
      assert w.path in vault.Paths();
    }
    forall i, j | 0 <= i < |plan.writes| && 0 <= j < |plan.writes| && i != j
      ensures plan.writes[i].path != plan.writes[j].path && !(plan.writes[i].path < plan.writes[j].path)
    {
      assert plan.writes[i] in plan.writes && plan.writes[j] in plan.writes;
      assert forall q :: q in Parents(plan.writes[j].path) ==> q in vault.dirs;
    }
  }

  lemma DeletesAreReady(t: Tree, t2: Tree, base: Files, seen: Files, remote: Files, plan: PullPlan)
    requires t.Valid() && t2.Valid() && CleanPlan(base, t, seen, remote, plan)
    requires t2.files == Written(t.files, plan.writes)
    ensures DeletesReady(t2, plan.deletes)
  {
    WrittenLookup(t.files, plan.writes);
    forall d | d in plan.deletes
      ensures t2.Version(d.path) == Some(d.version) && d.path !in t2.dirs && !t2.BeneathFile(d.path)
    {
      CleanMerge(base, t, seen, remote, plan, d.path);
      assert d.path in t.files && d.path !in WritePaths(plan.writes);
      assert d.path in t2.Paths();
      assert forall q :: q in Parents(d.path) ==> q in t2.dirs;
    }
  }

  lemma BuiltTree(t: Tree, vault: Tree, s: Snapshot, base: Files, seen: Files, plan: PullPlan)
    requires t.Valid() && vault.Valid() && IsSnapshotOf(s, vault)
    requires AllReadable(t, base, s.Remote()) && CleanPlan(base, t, seen, s.Remote(), plan)
    ensures Replay(t, PullFront(s.directories, plan)).ok <==> forall d | d in s.directories :: !MakeBlocked(t, d)
    ensures Replay(t, PullFront(s.directories, plan)).ok ==>
              Replay(t, PullFront(s.directories, plan)).tree == BeforePrune(t, s.directories, plan) &&
              BeforePrune(t, s.directories, plan).Valid()
  {
    var ds := [[]] + s.directories;
    assert forall d :: d in ds <==> d == [] || d in s.directories;
    MakesRun(t, ds);
    ReplayConcat(t, MakeSteps(ds), PutSteps(plan.writes));
    ReplayConcat(t, MakeSteps(ds) + PutSteps(plan.writes), DropSteps(plan.deletes));
    assert !MakeBlocked(t, []);
    if Replay(t, MakeSteps(ds)).ok {
      var t1 := Replay(t, MakeSteps(ds)).tree;
      ReplayKeepsValid(t, PullFront(s.directories, plan));
      ReplayKeepsValid(t, MakeSteps(ds) + PutSteps(plan.writes));
      WritesAreReady(t, vault, s, base, seen, plan);
      WritesRun(t1, plan.writes);
      var t2 := Replay(t1, PutSteps(plan.writes)).tree;
      DeletesAreReady(t, t2, base, seen, s.Remote(), plan);
      DeletesRun(t2, plan.deletes);
    }
  }

  /** Nothing a snapshot names lies in, or is, a directory the vault no longer has. */
  lemma SnapshotAvoidsRemoved(vault: Tree, s: Snapshot, plan: PullPlan, d: Path)
    requires vault.Valid() && IsSnapshotOf(s, vault)
    requires forall w | w in plan.writes :: w.path in s.Remote()
    requires s.scope.Contains(d) && d !in s.directories && d != []
    ensures forall x :: x in ToSet([[]] + s.directories) - {[]} || x in s.Remote() ==> !(d < x)
    ensures d !in ToSet([[]] + s.directories) - {[]}
    ensures forall x :: x in ParentsOfAll(ToSet([[]] + s.directories)) ==> x != d && !(d < x)
    ensures forall x :: x in ParentsOfAll(WritePaths(plan.writes)) ==> x != d && !(d < x)
  {
    SnapshotRemote(s, vault);
    assert d !in vault.dirs;
    forall x | x in vault.Paths()
      ensures !(d < x)
    {
      assert d !in Parents(x);
    }
    forall x | x in ParentsOfAll(ToSet([[]] + s.directories)) || x in ParentsOfAll(WritePaths(plan.writes))
      ensures x != d && !(d < x)
    {
      var y :| y in vault.Paths() && x in Parents(y);
      assert x in vault.dirs;
    }
  }

  /** Seen from the tree the pull has built, a removed directory is prunable exactly when it could be foreseen to go. */
  lemma PrunableExactly(t: Tree, vault: Tree, s: Snapshot, base: Files, seen: Files, plan: PullPlan,
                        removed: seq<Path>, d: Path)
    requires t.Valid() && vault.Valid() && IsSnapshotOf(s, vault)
    requires CleanPlan(base, t, seen, s.Remote(), plan)
    requires forall x | x in removed :: s.scope.Contains(x) && x !in s.directories && x != []
    requires d in removed
    ensures Prunable(BeforePrune(t, s.directories, plan), ToSet(removed), d) <==> CanGo(base, t, s.Remote(), removed, d)
  {
    var b := BeforePrune(t, s.directories, plan);
    forall q
      ensures q in b.files <==> MergeAt(base, t, s.Remote(), q) != Some(None)
    {
      BuiltFiles(t, base, seen, s.Remote(), plan, s.directories, q);
    }
    BuiltDirs(t, vault, s, base, seen, plan, d);
    PrunableByFiles(base, t, b, s.Remote(), removed, d);
  }

  /** At and beneath a folder the vault no longer has, the pull makes no folder. */
  lemma BuiltDirs(t: Tree, vault: Tree, s: Snapshot, base: Files, seen: Files, plan: PullPlan, d: Path)
    requires vault.Valid() && IsSnapshotOf(s, vault) && CleanPlan(base, t, seen, s.Remote(), plan)
    requires s.scope.Contains(d) && d !in s.directories && d != []
    ensures forall e | d == e || d < e :: e in BeforePrune(t, s.directories, plan).dirs <==> e in t.dirs
  {
    assert forall w | w in plan.writes :: w.path in s.Remote();
    SnapshotAvoidsRemoved(vault, s, plan, d);
  }

  lemma PrunableByFiles(base: Files, t: Tree, b: Tree, remote: Files, removed: seq<Path>, d: Path)
    requires forall q :: q in b.files <==> MergeAt(base, t, remote, q) != Some(None)
    requires forall e | d == e || d < e :: e in b.dirs <==> e in t.dirs
    ensures Prunable(b, ToSet(removed), d) <==> CanGo(base, t, remote, removed, d)
  {
    assert forall e :: e in ToSet(removed) <==> e in removed;
    assert d in b.dirs <==> d in t.dirs;
    if Prunable(b, ToSet(removed), d) {
      forall q | q < d
        ensures MergeAt(base, t, remote, q) == Some(None)
      {
        assert q !in b.files;
      }
      if d in t.dirs {
        forall e | d < e && e !in removed
          ensures MergeAt(base, t, remote, e) == Some(None) && e !in t.dirs
        {
          assert e !in b.Paths();
        }
      }
    }
  }

  lemma BuiltFiles(t: Tree, base: Files, seen: Files, remote: Files, plan: PullPlan, dirs: seq<Path>, p: Path)
    requires CleanPlan(base, t, seen, remote, plan)
    ensures Some(BeforePrune(t, dirs, plan).Version(p)) == MergeAt(base, t, remote, p)
  {
    CleanMerge(base, t, seen, remote, plan, p);
    WrittenLookup(t.files, plan.writes);
    if p in DeletePaths(plan.deletes) {
    } else if p in WritePaths(plan.writes) {
    }
  }

  /** When does an undisturbed, conflict-free pull complete? If and only if no vault directory is blocked by a
      workspace file and every removed directory can go. Otherwise it ends `partial`. */
  lemma PullCompletesExactly(t: Tree, vault: Tree, s: Snapshot, base: Files, seen: Files, plan: PullPlan,
                             removed: seq<Path>)
    requires t.Valid() && vault.Valid() && IsSnapshotOf(s, vault)
    requires AllReadable(t, base, s.Remote()) && CleanPlan(base, t, seen, s.Remote(), plan)
    requires forall x | x in removed :: s.scope.Contains(x) && x !in s.directories && x != []
    ensures Replay(t, PullSteps(s.directories, plan, removed)).ok <==>
              (forall d | d in s.directories :: !MakeBlocked(t, d)) &&
              (forall d | d in removed :: CanGo(base, t, s.Remote(), removed, d))
  {
    var front, order := PullFront(s.directories, plan), DeepestFirst(removed);
    ReplayConcat(t, front, PruneSteps(order));
    BuiltTree(t, vault, s, base, seen, plan);
    if Replay(t, front).ok {
      var b := BeforePrune(t, s.directories, plan);
      PrunesRun(b, order);
      assert ToSet(order) == ToSet(removed);
      forall d | d in removed
        ensures Prunable(b, ToSet(order), d) <==> CanGo(base, t, s.Remote(), removed, d)
      {
        PrunableExactly(t, vault, s, base, seen, plan, removed, d);
      }
    }
  }

  // ---- two places where the code falls short of its documentation ----

  /** A folder pulled earlier is now a file in the vault, and the user has removed the local folder: pull writes the
      file, then removes it again with the removed directories, and still completes. The next push with --delete takes
      the absence for the user's and erases the file in the vault. */
  lemma PulledFileIsLost()
    ensures var base, seen: Files, remote := map[], map[], map[["a"] := "new"];
            var local, plan := Tree(map[], {}), PullPlan([Write(["a"], "new", None)], [], []);
            && local.Valid() && CleanPlan(base, local, seen, remote, plan)
            && MergeAt(base, local, remote, ["a"]) == Some(Some("new"))
            && Replay(local, PullSteps([], plan, [["a"]])) == Stepped(local, true)
            && PushChoice(Some("new"), local.Version(["a"]), Some("new"), true) == Erase("new")
  {
    var local, plan := Tree(map[], {}), PullPlan([Write(["a"], "new", None)], [], []);
    var written := Tree(map[["a"] := "new"], {});
    var order := DeepestFirst([["a"]]);
    assert |order| == 1 && order[0] == ["a"] by {
      assert |multiset(order)| == |multiset([["a"]])|;
      assert order[0] in multiset(order);
    }
    assert Parents(["a"]) == {};
    var steps := PullSteps([], plan, [["a"]]);
    assert steps == [MakeDir([]), Put(Write(["a"], "new", None)), Prune(["a"])];
    assert TreeStep(local, steps[0]) == Stepped(local, true);
    assert TreeStep(local, steps[1]) == Stepped(written, true);
    assert TreeStep(written, steps[2]) == Stepped(local, true);
    var last := [steps[2]];
    assert last[1..] == [] && Replay(written, last) == Stepped(local, true);
    var rest := [steps[1], steps[2]];
    assert rest[1..] == last && Replay(local, rest) == Stepped(local, true);
    assert steps[1..] == rest;
  }

  /** A write of a pull replaces the version its plan saw; only what it is to remove is removed. */
  ghost predicate PullKeeps(from: seq<Effect>, to: seq<Effect>, plan: PullPlan, removed: seq<Path>) {
    from <= to && forall i | |from| <= i < |to| :: AsPlanned(to[i], plan, removed)
  }

  ghost predicate AsPlanned(e: Effect, plan: PullPlan, removed: seq<Path>) {
    match e
    case Replaced(p, expected, before) =>
      before == expected && exists x :: x in plan.writes && x.path == p && x.expected == expected
    case Removed(p, _) => p in DeletePaths(plan.deletes) || p in removed
  }

  /** Among any other writers and failures. */
  lemma PullLosesNoUpdate(w: World, directories: seq<Path>, plan: PullPlan, removed: seq<Path>)
    ensures PullKeeps(w.log, StrictRun(w, PullSteps(directories, plan, removed)).world.log, plan, removed)
  {
    var steps := PullSteps(directories, plan, removed);
    var log := StrictRun(w, steps).world.log;
    StrictRunLog(w, steps);
    forall i | |w.log| <= i < |log|
      ensures AsPlanned(log[i], plan, removed)
    {
      assert Explained(steps, log[i]);
      var s :| s in steps && Explains(s, log[i]);
      StepOfPull(directories, plan, removed, s);
    }
  }

  lemma StepOfPull(directories: seq<Path>, plan: PullPlan, removed: seq<Path>, s: Step)
    requires s in PullSteps(directories, plan, removed)
    ensures s.Put? ==> s.write in plan.writes
    ensures s.Drop? ==> s.deletion in plan.deletes
    ensures s.Prune? ==> s.dir in removed
  {
    assert s.Prune? ==> s in PruneSteps(DeepestFirst(removed));
  }

  /** A delete of a pull re-reads, then removes. What a successful one removes is the version the plan saw exactly when
      no other writer changed that file in between. */
  lemma PullDeleteTakesNamedVersion(w: World, d: Deletion)
    requires StrictStep(w, Drop(d)).ok
    ensures var between, log := Tick(Tick(w)).tree, StrictStep(w, Drop(d)).world.log;
            && |log| == |w.log| + 1 && w.log <= log
            && (log[|w.log|] == Removed(d.path, Some(d.version)) <==> between.Version(d.path) == Some(d.version))
  {
    var c := RemoveTree(Tick(Tick(w)).tree, d.path);
    assert |c.effects| == 1;
  }

  /** An edit made in the workspace between the two is lost, and the pull goes on. */
  lemma PullDeleteCanLoseAnUpdate()
    ensures var p := ["a"];
            var w := World(Tree(map[p := "old"], {}),
                [Turn(None, Fine), Turn(Some(Tree(map[p := "edited"], {})), Fine)], []);
            var ran := StrictStep(w, Drop(Deletion(p, "old")));
            ran.ok && ran.world.tree.files == map[] && ran.world.log == [Removed(p, Some("edited"))]
  {
    var p := ["a"];
    var edited := Tree(map[p := "edited"], {});
    var w := World(Tree(map[p := "old"], {}), [Turn(None, Fine), Turn(Some(edited), Fine)], []);
    var w1 := World(w.tree, [Turn(Some(edited), Fine)], []);
    assert Tick(w) == w1 && Tick(w1) == World(edited, [], []);
    assert ReadCall(w, p) == ReadCalled(w1, Found("old"));
    assert edited.files - {p} == map[];
  }

  /** What the log may say of one step. */
  predicate Explains(s: Step, e: Effect) {
    match e
    case Replaced(p, expected, before) =>
      s.Put? && s.write.path == p && s.write.expected == expected && before == expected
    case Removed(p, _) => (s.Drop? && s.deletion.path == p) || (s.Prune? && s.dir == p)
  }

  ghost predicate Explained(steps: seq<Step>, e: Effect) {
    exists s :: s in steps && Explains(s, e)
  }

  ghost predicate LogExplained(from: seq<Effect>, to: seq<Effect>, steps: seq<Step>) {
    from <= to && forall i | |from| <= i < |to| :: Explained(steps, to[i])
  }

  lemma StrictStepLog(w: World, s: Step)
    ensures var log := StrictStep(w, s).world.log;
            w.log <= log && |log| <= |w.log| + 1 && (|log| > |w.log| ==> Explains(s, log[|w.log|]))
  {}

  lemma {:induction false} StrictRunLog(w: World, steps: seq<Step>)
    ensures LogExplained(w.log, StrictRun(w, steps).world.log, steps)
    decreases |steps|
  {
    if steps == [] {
    } else {
      var ran := StrictStep(w, steps[0]);
      StrictStepLog(w, steps[0]);
      assert steps[0] in steps;
      if ran.ok {
        StrictRunLog(ran.world, steps[1..]);
        LogExplainedBoth(w.log, ran.world.log, StrictRun(w, steps).world.log, steps);
      }
    }
  }

  lemma LogExplainedBoth(a: seq<Effect>, b: seq<Effect>, c: seq<Effect>, steps: seq<Step>)
    requires steps != [] && LogExplained(a, b, steps) && LogExplained(b, c, steps[1..])
    ensures LogExplained(a, c, steps)
  {
    forall i | |a| <= i < |c|
      ensures Explained(steps, c[i])
    {
      if i < |b| {
        assert c[i] == b[i];
      } else {
        assert Explained(steps[1..], c[i]);
        var s :| s in steps[1..] && Explains(s, c[i]);
        assert s in steps;
      }
    }
  }

  /** A file the user adds to a folder that the vault has deleted: the merge keeps it, so the folder cannot be
      removed, and the pull ends `partial` however often it is rerun. */
  lemma AddedFileBlocksPull()
    ensures var base, seen, remote: Files := map[], map[], map[];
            var local := Tree(map[["a", "mine"] := "x"], {["a"]});
            var plan := PullPlan([], [], []);
            && local.Valid() && CleanPlan(base, local, seen, remote, plan)
            && Replay(local, PullSteps([], plan, [["a"]])) == Stepped(local, false)
  {
    var local, plan := Tree(map[["a", "mine"] := "x"], {["a"]}), PullPlan([], [], []);
    var order := DeepestFirst([["a"]]);
    assert |order| == 1 && order[0] == ["a"] by {
      assert |multiset(order)| == |multiset([["a"]])|;
      assert order[0] in multiset(order);
    }
    assert local.Valid() by {
      assert Parents(["a"]) == {};
      assert forall q :: q in Parents(["a", "mine"]) ==> q == ["a"];
    }
    var steps := PullSteps([], plan, [["a"]]);
    assert steps == [MakeDir([]), Prune(["a"])];
    assert TreeStep(local, steps[0]) == Stepped(local, true) by {
      assert local.dirs + Parents([]) + {} == local.dirs;
    }
    assert ["a"] < ["a", "mine"] && ["a", "mine"] in local.Paths();
    assert TreeStep(local, steps[1]) == Stepped(local, false);
    assert steps[1..] == [steps[1]];
  }
}
