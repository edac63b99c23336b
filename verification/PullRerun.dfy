/** Rerunning an interrupted pull with the old manifest: when it can be planned again, and that it then completes. */
module PullRerun {
  import opened Basics
  import opened Paths
  import opened HostFiles
  import opened Merge
  import opened Manifest
  import opened Steps
  import opened Pull
  import opened PullProofs

  /** What stays the same from one attempt to the next. */
  datatype Setting = Setting(base: Files, vault: Tree, s: Snapshot, removed: seq<Path>) {
    function Remote(): Files { s.Remote() }

    function StepsOf(plan: PullPlan): seq<Step> {
      PullSteps(s.directories, plan, removed)
    }

    /** A real vault, its snapshot, and a manifest of the same scope that lists no path as both file and directory. */
    ghost predicate Sane() {
      && vault.Valid() && IsSnapshotOf(s, vault)
      && (forall p | p in base :: s.scope.Contains(p))
      && (forall d | d in removed :: s.scope.Contains(d) && d !in s.directories && d != [] && d !in base)
    }

    /** A plan made from what the workspace holds now. */
    ghost predicate PlanFrom(now: Tree, seen: Files, plan: PullPlan) {
      && IsPullPlan(base, seen, Remote(), plan)
      && forall p | p in base.Keys + Remote().Keys :: At(seen, p) == now.Version(p)
    }

    /** A tracked path the vault no longer has, where the vault now has a folder, or above which it has a new file. */
    ghost predicate Tangled(p: Path) {
      p in base && p !in Remote() && (p in vault.dirs || exists q :: q in Remote() && q !in base && q < p)
    }
  }

  /** The first attempt: a conflict-free plan that would complete if nothing cut it short. */
  ghost predicate FirstTry(x: Setting, t: Tree, seen: Files, plan: PullPlan) {
    && x.Sane() && t.Valid() && AllReadable(t, x.base, x.Remote())
    && CleanPlan(x.base, t, seen, x.Remote(), plan) && Replay(t, x.StepsOf(plan)).ok
  }

  /** A rerun from this tree can read all it needs, meets no conflict, completes, and ends with the same files. */
  ghost predicate Recovers(x: Setting, now: Tree, goal: Tree) {
    && AllReadable(now, x.base, x.Remote())
    && forall seen, plan | x.PlanFrom(now, seen, plan) ::
         plan.conflicts == [] && Replay(now, x.StepsOf(plan)).ok &&
             Replay(now, x.StepsOf(plan)).tree.files == goal.files
  }

  // ---- how far an interrupted pull can have got ----

  predicate StaysWithin(s: Step, files: set<Path>, dirs: set<Path>) {
    match s
    case MakeDir(d) => Parents(d) + ({d} - {[]}) <= dirs
    case Put(x) => x.path in files && Parents(x.path) <= dirs
    case _ => true
  }

  lemma {:induction false} ReplayStaysWithin(t: Tree, steps: seq<Step>, files: set<Path>, dirs: set<Path>)
    requires forall s | s in steps :: StaysWithin(s, files, dirs)
    ensures Replay(t, steps).tree.files.Keys <= t.files.Keys + files
    ensures Replay(t, steps).tree.dirs <= t.dirs + dirs
    decreases |steps|
  {
    if steps == [] {
    } else {
      assert StaysWithin(steps[0], files, dirs);
      if TreeStep(t, steps[0]).ok {
        ReplayStaysWithin(TreeStep(t, steps[0]).tree, steps[1..], files, dirs);
      }
    }
  }

  lemma {:induction false} PrefixIsOk(t: Tree, steps: seq<Step>, k: nat)
    requires k <= |steps| && Replay(t, steps).ok
    ensures Replay(t, steps[..k]).ok
  {
    assert steps == steps[..k] + steps[k..];
    ReplayConcat(t, steps[..k], steps[k..]);
  }

  /** After any prefix: a real tree, with no file or directory that was not there before or in the vault. */
  lemma PrefixBounds(x: Setting, t: Tree, seen: Files, plan: PullPlan, k: nat)
    requires FirstTry(x, t, seen, plan) && k <= |x.StepsOf(plan)|
    ensures var now := Replay(t, x.StepsOf(plan)[..k]).tree;
            && now.Valid() && now.files.Keys <= t.files.Keys + WritePaths(plan.writes)
            && now.dirs <= t.dirs + x.vault.dirs
    ensures Replay(t, x.StepsOf(plan)[..k]).ok
  {
    var steps := x.StepsOf(plan);
    var files := WritePaths(plan.writes);
    forall w | w in plan.writes
      ensures Parents(w.path) <= x.vault.dirs
    {
      WriteIsReady(t, x.vault, x.s, x.base, seen, plan, w);
      assert w.path in x.vault.Paths();
    }
    forall d | d in x.s.directories
      ensures Parents(d) + {d} <= x.vault.dirs
    {
      assert d in x.vault.Paths();
    }
    forall s | s in steps
      ensures StaysWithin(s, files, x.vault.dirs)
    {
      StepKinds(x, plan, s);
    }
    assert forall s | s in steps[..k] :: s in steps;
    ReplayStaysWithin(t, steps[..k], files, x.vault.dirs);
    ReplayKeepsValid(t, steps[..k]);
    PrefixIsOk(t, steps, k);
  }

  lemma StepKinds(x: Setting, plan: PullPlan, s: Step)
    requires s in x.StepsOf(plan)
    ensures s.MakeDir? ==> s.dir == [] || s.dir in x.s.directories
    ensures s.Put? ==> s.write in plan.writes
  {
    var makes, puts, drops := MakeSteps([[]] + x.s.directories), PutSteps(plan.writes), DropSteps(plan.deletes);
    var prunes := PruneSteps(DeepestFirst(x.removed));
    assert x.StepsOf(plan) == makes + puts + drops + prunes;
    if i :| 0 <= i < |makes| && makes[i] == s {
      assert s.dir == ([[]] + x.s.directories)[i];
    } else if i :| 0 <= i < |puts| && puts[i] == s {
      assert s.write == plan.writes[i];
    } else {
      assert s in drops || s in prunes;
    }
  }

  // ---- planning again ----

  /** Whatever the first attempt wrote over or made, an untangled path can still be read. */
  lemma StillReadable(x: Setting, t: Tree, seen: Files, plan: PullPlan, now: Tree, p: Path)
    requires FirstTry(x, t, seen, plan) && p in x.base.Keys + x.Remote().Keys && !x.Tangled(p)
    requires now.files.Keys <= t.files.Keys + WritePaths(plan.writes) && now.dirs <= t.dirs + x.vault.dirs
    ensures ReadTree(now, p) != Unreadable
  {
    assert ReadTree(t, p) != Unreadable;
    assert p !in x.vault.dirs by {
      SnapshotRemote(x.s, x.vault);
    }
    forall q | q in WritePaths(plan.writes) && q !in t.files
      ensures !(q < p)
    {
      var w :| w in plan.writes && w.path == q;
      NewFileNotAbove(x, t, seen, plan, w, p);
    }
    GrowingStaysReadable(t, now, WritePaths(plan.writes), x.vault.dirs, p);
  }

  lemma GrowingStaysReadable(t: Tree, now: Tree, files: set<Path>, dirs: set<Path>, p: Path)
    requires ReadTree(t, p) != Unreadable
    requires now.files.Keys <= t.files.Keys + files && now.dirs <= t.dirs + dirs
    requires p !in dirs && forall q | q in files && q !in t.files :: !(q < p)
    ensures ReadTree(now, p) != Unreadable
  {}

  lemma NewFileNotAbove(x: Setting, t: Tree, seen: Files, plan: PullPlan, w: Write, p: Path)
    requires FirstTry(x, t, seen, plan) && p in x.base.Keys + x.Remote().Keys && !x.Tangled(p)
    requires w in plan.writes && w.path !in t.files
    ensures !(w.path < p)
  {
    SnapshotRemote(x.s, x.vault);
    NewFile(x, t, seen, plan, w);
    assert w.path < p && p in x.Remote() ==> w.path in Parents(p) && p in x.vault.Paths();
  }

  lemma NewFile(x: Setting, t: Tree, seen: Files, plan: PullPlan, w: Write)
    requires FirstTry(x, t, seen, plan) && w in plan.writes && w.path !in t.files
    ensures w.path in x.Remote() && w.path !in x.base && w.path != [] && w.path in x.vault.files
  {
    SnapshotRemote(x.s, x.vault);
    assert ChoiceAt(x.base, seen, x.Remote(), w.path) == Copy(w.expected);
    assert w.path in x.Remote();
    assert At(seen, w.path) == None;
    assert w.path in x.vault.Paths();
  }

  /** At a removed directory's own path, where the first attempt may have taken a file away, the merge is still
      settled. */
  lemma MergeAgain(x: Setting, t: Tree, now: Tree, p: Path)
    requires x.Sane() && MergeAt(x.base, t, x.Remote(), p).Some?
    requires InterruptedAt(x.base, t, x.Remote(), x.removed, now, p)
    ensures MergeAt(x.base, now, x.Remote(), p).Some?
    ensures p !in x.removed ==> MergeAt(x.base, now, x.Remote(), p) == MergeAt(x.base, t, x.Remote(), p)
    ensures MergeAt(x.base, t, x.Remote(), p) == Some(None) ==> MergeAt(x.base, now, x.Remote(), p) == Some(None)
  {
    MergedPathIsSettled(At(x.base, p), t.Version(p), At(x.Remote(), p));
  }

  /** A removed directory that could go still can. */
  lemma StillCanGo(x: Setting, t: Tree, now: Tree, d: Path)
    requires x.Sane() && d in x.removed && CanGo(x.base, t, x.Remote(), x.removed, d)
    requires forall p :: MergeAt(x.base, t, x.Remote(), p).Some?
    requires forall p :: InterruptedAt(x.base, t, x.Remote(), x.removed, now, p)
    requires now.dirs <= t.dirs + x.vault.dirs
    ensures CanGo(x.base, now, x.Remote(), x.removed, d)
  {
    forall p
      ensures MergeAt(x.base, t, x.Remote(), p) == Some(None) ==> MergeAt(x.base, now, x.Remote(), p) == Some(None)
    {
      assert MergeAt(x.base, t, x.Remote(), p).Some?;
      MergeAgain(x, t, now, p);
    }
    assert d !in x.vault.dirs;
    forall e | d < e
      ensures e !in x.vault.dirs
    {
      assert d in Parents(e);
    }
  }

  lemma StillUnblocked(x: Setting, t: Tree, seen: Files, plan: PullPlan, now: Tree, d: Path)
    requires FirstTry(x, t, seen, plan) && d in x.s.directories && !MakeBlocked(t, d)
    requires now.files.Keys <= t.files.Keys + WritePaths(plan.writes)
    ensures !MakeBlocked(now, d)
  {
    forall q | q in now.files
      ensures q != d && !(q < d)
    {
      if q !in t.files {
        var w :| w in plan.writes && w.path == q;
        NewFile(x, t, seen, plan, w);
        assert d in x.vault.dirs;
        assert q < d ==> q in Parents(d) && d in x.vault.Paths();
      }
    }
  }

  /** The front half of the main result: from a tree within the bounds, a rerun recovers. */
  lemma RecoversFrom(x: Setting, t: Tree, seen: Files, plan: PullPlan, k: nat, seen': Files, plan': PullPlan)
    requires FirstTry(x, t, seen, plan) && k <= |x.StepsOf(plan)|
    requires var now := Replay(t, x.StepsOf(plan)[..k]).tree;
             AllReadable(now, x.base, x.Remote()) && x.PlanFrom(now, seen', plan')
    ensures var now, goal := Replay(t, x.StepsOf(plan)[..k]).tree, Replay(t, x.StepsOf(plan)).tree;
            plan'.conflicts == [] && Replay(now, x.StepsOf(plan')).ok &&
                Replay(now, x.StepsOf(plan')).tree.files == goal.files
  {
    var now := Replay(t, x.StepsOf(plan)[..k]).tree;
    PrefixBounds(x, t, seen, plan, k);
    forall p
      ensures MergeAt(x.base, t, x.Remote(), p).Some? && InterruptedAt(x.base, t, x.Remote(), x.removed, now, p)
    {
      CleanMerge(x.base, t, seen, x.Remote(), plan, p);
      PrefixVersion(x.base, t, seen, x.Remote(), plan, x.s.directories, x.removed, k, p);
    }
    PullResumes(x.base, t, x.Remote(), x.removed, now, seen', plan');
    CompletesAgain(x, t, seen, plan, now, seen', plan');
    SameFiles(x, t, seen, plan, now, seen', plan');
  }

  lemma CompletesAgain(x: Setting, t: Tree, seen: Files, plan: PullPlan, now: Tree, seen': Files, plan': PullPlan)
    requires FirstTry(x, t, seen, plan) && now.Valid() && AllReadable(now, x.base, x.Remote())
    requires now.files.Keys <= t.files.Keys + WritePaths(plan.writes) && now.dirs <= t.dirs + x.vault.dirs
    requires forall p :: MergeAt(x.base, t, x.Remote(), p).Some?
    requires forall p :: InterruptedAt(x.base, t, x.Remote(), x.removed, now, p)
    requires x.PlanFrom(now, seen', plan') && plan'.conflicts == []
    ensures Replay(now, x.StepsOf(plan')).ok
  {
    PullCompletesExactly(t, x.vault, x.s, x.base, seen, plan, x.removed);
    PullCompletesExactly(now, x.vault, x.s, x.base, seen', plan', x.removed);
    forall d | d in x.s.directories
      ensures !MakeBlocked(now, d)
    {
      StillUnblocked(x, t, seen, plan, now, d);
    }
    forall d | d in x.removed
      ensures CanGo(x.base, now, x.Remote(), x.removed, d)
    {
      StillCanGo(x, t, now, d);
    }
  }

  lemma SameFiles(x: Setting, t: Tree, seen: Files, plan: PullPlan, now: Tree, seen': Files, plan': PullPlan)
    requires FirstTry(x, t, seen, plan)
    requires forall p :: MergeAt(x.base, t, x.Remote(), p).Some?
    requires forall p :: InterruptedAt(x.base, t, x.Remote(), x.removed, now, p)
    requires x.PlanFrom(now, seen', plan') && plan'.conflicts == [] && Replay(now, x.StepsOf(plan')).ok
    ensures Replay(now, x.StepsOf(plan')).tree.files == Replay(t, x.StepsOf(plan)).tree.files
  {
    var a, b := Replay(t, x.StepsOf(plan)).tree, Replay(now, x.StepsOf(plan')).tree;
    PullResumes(x.base, t, x.Remote(), x.removed, now, seen', plan');
    forall p
      ensures a.Version(p) == b.Version(p)
    {
      CompletedVersion(x, t, seen, plan, p);
      CompletedVersion(x, now, seen', plan', p);
      assert PulledAt(x.base, now, x.Remote(), x.removed, b, p);
      assert PulledAt(x.base, t, x.Remote(), x.removed, b, p);
    }
    SameVersions(a, b);
  }

  lemma SameVersions(a: Tree, b: Tree)
    requires forall p :: a.Version(p) == b.Version(p)
    ensures a.files == b.files
  {
    assert forall p :: p in a.files <==> a.Version(p).Some?;
    assert forall p :: p in b.files <==> b.Version(p).Some?;
    assert forall p | p in a.files :: a.Version(p) == b.Version(p);
  }

  lemma CompletedVersion(x: Setting, t: Tree, seen: Files, plan: PullPlan, p: Path)
    requires CleanPlan(x.base, t, seen, x.Remote(), plan) && Replay(t, x.StepsOf(plan)).ok
    ensures PulledAt(x.base, t, x.Remote(), x.removed, Replay(t, x.StepsOf(plan)).tree, p)
  {
    var steps := x.StepsOf(plan);
    assert steps[..|steps|] == steps;
    PrefixVersion(x.base, t, seen, x.Remote(), plan, x.s.directories, x.removed, |steps|, p);
  }

  // ---- the tangled case ----

  /** Once the vault's folders have been made, or its files written, a tangled path cannot be read any more. */
  lemma TangledStops(x: Setting, t: Tree, seen: Files, plan: PullPlan, p: Path) returns (k: nat)
    requires FirstTry(x, t, seen, plan) && x.Tangled(p)
    ensures k <= |x.StepsOf(plan)| && !AllReadable(Replay(t, x.StepsOf(plan)[..k]).tree, x.base, x.Remote())
  {
    if p in x.vault.dirs {
      k := FolderStops(x, t, seen, plan, p);
    } else {
      var q :| q in x.Remote() && q !in x.base && q < p;
      k := FileAboveStops(x, t, seen, plan, q, p);
    }
  }

  lemma FolderStops(x: Setting, t: Tree, seen: Files, plan: PullPlan, p: Path) returns (k: nat)
    requires FirstTry(x, t, seen, plan) && p in x.base && p in x.vault.dirs
    ensures k <= |x.StepsOf(plan)| && ReadTree(Replay(t, x.StepsOf(plan)[..k]).tree, p) == Unreadable
  {
    var steps, ds := x.StepsOf(plan), [[]] + x.s.directories;
    k := |MakeSteps(ds)|;
    assert steps[..k] == MakeSteps(ds);
    PrefixIsOk(t, steps, k);
    MakesRun(t, ds);
    assert p in ToSet(ds) && p != [];
  }

  lemma FileAboveStops(x: Setting, t: Tree, seen: Files, plan: PullPlan, q: Path, p: Path) returns (k: nat)
    requires FirstTry(x, t, seen, plan) && p in x.base && q in x.Remote() && q !in x.base && q < p
    ensures k <= |x.StepsOf(plan)| && ReadTree(Replay(t, x.StepsOf(plan)[..k]).tree, p) == Unreadable
  {
    var front := PullFront(x.s.directories, plan);
    k := |front|;
    assert x.StepsOf(plan)[..k] == front && front[..k] == front;
    PrefixIsOk(t, x.StepsOf(plan), k);
    assert ReadTree(t, p) != Unreadable && q !in t.files;
    assert MergeAt(x.base, t, x.Remote(), q) == Some(Some(x.Remote()[q]));
    FrontVersion(x.base, t, seen, x.Remote(), plan, x.s.directories, k, q);
    assert q in Replay(t, front).tree.files;
  }

  // ---- the main result ----

  /** Cut off anywhere, a pull that would have completed can be planned again with the old manifest and completes to the
      same files, if and only if no tracked path the vault has lost is now a vault folder or lies beneath a file new in
      the vault. */
  lemma PullRerunExactly(x: Setting, t: Tree, seen: Files, plan: PullPlan)
    requires FirstTry(x, t, seen, plan)
    ensures (forall k | 0 <= k <= |x.StepsOf(plan)| ::
               Recovers(x, Replay(t, x.StepsOf(plan)[..k]).tree, Replay(t, x.StepsOf(plan)).tree)) <==>
            (forall p :: !x.Tangled(p))
  {
    var goal := Replay(t, x.StepsOf(plan)).tree;
    if p :| x.Tangled(p) {
      var k := TangledStops(x, t, seen, plan, p);
      assert !Recovers(x, Replay(t, x.StepsOf(plan)[..k]).tree, goal);
    } else {
      forall k | 0 <= k <= |x.StepsOf(plan)|
        ensures Recovers(x, Replay(t, x.StepsOf(plan)[..k]).tree, goal)
      {
        RecoversUntangled(x, t, seen, plan, k);
      }
    }
  }

  lemma RecoversUntangled(x: Setting, t: Tree, seen: Files, plan: PullPlan, k: nat)
    requires FirstTry(x, t, seen, plan) && k <= |x.StepsOf(plan)| && forall p :: !x.Tangled(p)
    ensures Recovers(x, Replay(t, x.StepsOf(plan)[..k]).tree, Replay(t, x.StepsOf(plan)).tree)
  {
    var now, goal := Replay(t, x.StepsOf(plan)[..k]).tree, Replay(t, x.StepsOf(plan)).tree;
    PrefixBounds(x, t, seen, plan, k);
    forall p | p in x.base.Keys + x.Remote().Keys
      ensures ReadTree(now, p) != Unreadable
    {
      StillReadable(x, t, seen, plan, now, p);
    }
    forall seen', plan' | x.PlanFrom(now, seen', plan')
      ensures plan'.conflicts == [] && Replay(now, x.StepsOf(plan')).ok
      ensures Replay(now, x.StepsOf(plan')).tree.files == goal.files
    {
      RecoversFrom(x, t, seen, plan, k, seen', plan');
    }
  }

  /** The same with failures anywhere and no other writer: whatever the first run left, the rerun recovers. */
  lemma InterruptedRunRecovers(w: World, x: Setting, seen: Files, plan: PullPlan)
    requires Alone(w) && FirstTry(x, w.tree, seen, plan) && forall p :: !x.Tangled(p)
    ensures Recovers(x, StrictRun(w, x.StepsOf(plan)).world.tree, Replay(w.tree, x.StepsOf(plan)).tree)
  {
    var k := StrictRunIsPrefix(w, x.StepsOf(plan));
    RecoversUntangled(x, w.tree, seen, plan, k);
  }

  /** In a manifest that a pull wrote, no tracked path lies above another or is a tracked directory; there a path is
      tangled exactly when the vault now has a folder there or any file above. */
  lemma TangledInWrittenManifest(pulled: Snapshot, earlier: Tree, x: Setting, p: Path)
    requires earlier.Valid() && IsSnapshotOf(pulled, earlier) && x.base == StateFromSnapshot(pulled).Base()
    ensures forall d | d in pulled.directories :: d !in x.base
    ensures x.Tangled(p) <==>
              p in x.base && p !in x.Remote() && (p in x.vault.dirs || exists q :: q in x.Remote() && q < p)
  {
    SnapshotStateRoundTrip(pulled, earlier);
    SnapshotRemote(pulled, earlier);
    forall q | q in x.base && p in x.base
      ensures !(q < p)
    {
      assert p in earlier.Paths() && q in earlier.Paths();
      assert q < p ==> q in Parents(p);
    }
  }

  /** A tracked file, deleted locally, that became a folder in the vault: the pull completes if it is not interrupted,
      but once it has made the folder every rerun fails to read the tracked path. */
  lemma InterruptedPullCannotRerun()
    ensures var a, ax := ["a"], ["a", "x"];
            var vault := Tree(map[ax := "1"], {a});
            var x := Setting(map[a := "0"], vault, Snapshot("v", All, [Entry(ax, "1")], [a]), []);
            var t, seen: Files, plan := Tree(map[], {}), map[], PullPlan([Write(ax, "1", None)], [], []);
            && FirstTry(x, t, seen, plan) && x.Tangled(a)
            && Replay(t, x.StepsOf(plan)[..2]).tree == Tree(map[], {a})
            && !AllReadable(Tree(map[], {a}), x.base, x.Remote())
  {
    var a, ax := ["a"], ["a", "x"];
    var x := Setting(map[a := "0"], Tree(map[ax := "1"], {a}), Snapshot("v", All, [Entry(ax, "1")], [a]), []);
    var plan := PullPlan([Write(ax, "1", None)], [], []);
    TangledExampleIsSane();
    assert DeepestFirst([]) == [];
    var steps := [MakeDir([]), MakeDir(a), Put(plan.writes[0])];
    assert x.StepsOf(plan) == steps;
    TangledExampleRuns();
    assert a in x.base && ReadTree(Tree(map[], {a}), a) == Unreadable;
  }

  lemma TangledExampleIsSane()
    ensures var a, ax := ["a"], ["a", "x"];
            var x := Setting(map[a := "0"], Tree(map[ax := "1"], {a}), Snapshot("v", All, [Entry(ax, "1")], [a]), []);
            var t, seen: Files, plan := Tree(map[], {}), map[], PullPlan([Write(ax, "1", None)], [], []);
            && x.Sane() && t.Valid() && AllReadable(t, x.base, x.Remote())
            && CleanPlan(x.base, t, seen, x.Remote(), plan)
            && x.Remote() == map[ax := "1"]
  {
    var a, ax := ["a"], ["a", "x"];
    assert ax[..1] == a;
    assert Parents(a) == {} && Parents(ax) == {a};
    assert ToMap([Entry(ax, "1")][..0]) == map[];
    assert Snapshot("v", All, [Entry(ax, "1")], [a]).Remote() == map[ax := "1"];
  }

  lemma TangledExampleRuns()
    ensures var a, ax := ["a"], ["a", "x"];
            var t, steps := Tree(map[], {}), [MakeDir([]), MakeDir(a), Put(Write(ax, "1", None))];
            Replay(t, steps).ok && Replay(t, steps[..2]).tree == Tree(map[], {a})
  {
    var a, ax := ["a"], ["a", "x"];
    var t, made, steps := Tree(map[], {}), Tree(map[], {a}), [MakeDir([]), MakeDir(a), Put(Write(ax, "1", None))];
    assert Parents(a) == {} && Parents([]) == {};
    assert TreeStep(t, steps[0]) == Stepped(t, true);
    assert TreeStep(t, steps[1]) == Stepped(made, true);
    assert TreeStep(made, steps[2]).ok;
    var two := steps[1..];
    assert two[1..] == [steps[2]] && [steps[2]][1..] == [];
    assert Replay(made, [steps[2]]).ok && Replay(t, two).ok && Replay(t, steps).ok;
    var front := steps[..2];
    assert front[1..] == [steps[1]] && [steps[1]][1..] == [];
    assert Replay(t, [steps[1]]) == Stepped(made, true);
  }
}
