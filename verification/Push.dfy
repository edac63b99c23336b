/** `bb docs push`: plan against the manifest and the current vault, then apply. */
module Push {
  import opened Basics
  import opened Paths
  import opened HostFiles
  import opened Merge
  import opened Manifest
  import opened Steps
  import opened Apply
  import Pull

  type Files = map<Path, Content>
  type Issue = Pull.Issue

  function PushAt(base: Files, local: Files, remote: Files, p: Path, delete: bool): Choice {
    PushChoice(At(base, p), At(local, p), At(remote, p), delete)
  }

  // ---- what a plan is ----

  datatype PushPlan = PushPlan(
    writes: seq<Write>,
    deletes: seq<Deletion>,
    createDirectories: seq<Path>,
    deleteDirectories: seq<Path>,
    conflicts: set<Issue>,
    warnings: set<Warning>)

  /** What is gone locally but stays in the vault: for want of --delete, or because it is the pulled folder itself. */
  datatype Warning = FileKept(path: Path) | DirectoryKept(path: Path) | RootKept(path: Path)

  ghost predicate PushWarning(state: SyncState, s: Snapshot, local: Tree, delete: bool, w: Warning) {
    match w
    case FileKept(p) => !delete && p in state.Base() && p !in local.files && p in s.Remote()
    case DirectoryKept(d) => !delete && state.scope != Folder(d) && DirectoryGone(state, s, local.dirs, d)
    case RootKept(d) => state.scope == Folder(d) && DirectoryGone(state, s, local.dirs, d)
  }

  predicate DirectoryGone(state: SyncState, s: Snapshot, localDirs: set<Path>, d: Path) {
    d in state.directories && d !in localDirs && d in s.directories
  }

  /** A folder above the scope: it may exist locally without being part of the scope. */
  predicate StructuralAncestor(scope: Scope, d: Path) {
    !scope.All? && d < scope.path
  }

  /** When a conflict is reported, by its reason; a version conflict is a clash of the push choice. */
  ghost predicate PushConflict(state: SyncState, s: Snapshot, local: Tree, delete: bool, c: Issue) {
    match c.reason
    case FileOutsideScope => c.path in local.files && !state.scope.Contains(c.path)
    case DirectoryOutsideScope =>
        c.path in local.dirs && !state.scope.Contains(c.path) && !StructuralAncestor(state.scope, c.path)
    case VaultDirectoryDeleted => c.path in local.dirs && c.path in state.directories && c.path !in s.directories
    case NewVaultDirectory => c.path in s.directories && c.path !in state.directories && c.path !in local.dirs
    case LocalCaseCollision => IsCollision(local.Paths(), c)
    case _ =>
        state.scope.Contains(c.path) && PushAt(state.Base(), local.files, s.Remote(), c.path, delete) == Clash(c.reason)
  }

  /** What is kept of a list is kept as often as it was there. */
  ghost predicate AsOften(kept: seq<Path>, all: seq<Path>) {
    forall d | d in kept :: multiset(kept)[d] == multiset(all)[d]
  }

  ghost predicate IsCollision(paths: set<Path>, c: Issue) {
    c.reason.LocalCaseCollision? && c.path in paths &&
    exists q :: q in paths && q != c.path && Fold(q) == Fold(c.path)
  }

  /** Of two paths that differ only in case, at least one is reported. */
  ghost predicate CollisionsReported(paths: set<Path>, conflicts: set<Issue>) {
    forall p, q | p in paths && q in paths && p != q && Fold(p) == Fold(q) ::
      Pull.Issue(p, LocalCaseCollision) in conflicts || Pull.Issue(q, LocalCaseCollision) in conflicts
  }

  /** The writes and deletes are the choices made, each once. */
  ghost predicate PlansFiles(state: SyncState, s: Snapshot, local: Files, delete: bool, writes: seq<Write>,
                             deletes: seq<Deletion>) {
    && Pull.DistinctWrites(writes) && Pull.DistinctDeletes(deletes)
    && (forall w :: w in writes <==>
          state.scope.Contains(w.path) && At(local, w.path) == Some(w.content) &&
          PushAt(state.Base(), local, s.Remote(), w.path, delete) == Copy(w.expected))
    && (forall d :: d in deletes <==>
          PushAt(state.Base(), local, s.Remote(), d.path, delete) == Erase(d.version))
  }

  ghost predicate PlansDirectories(state: SyncState, s: Snapshot, localDirs: set<Path>, delete: bool,
                                   creates: seq<Path>, deletes: seq<Path>) {
    && (forall d :: d in creates <==>
          d in localDirs && state.scope.Contains(d) && d !in s.directories && d !in state.directories)
    && (forall d :: d in deletes <==>
          d in state.directories && d !in localDirs && d in s.directories && delete && state.scope != Folder(d))
    && Distinct(creates) && AsOften(deletes, state.directories)
  }

  ghost predicate ReportsConflicts(state: SyncState, s: Snapshot, local: Tree, delete: bool, conflicts: set<Issue>) {
    && (forall c :: c in conflicts ==> PushConflict(state, s, local, delete, c))
    && (forall c :: PushConflict(state, s, local, delete, c) && !c.reason.LocalCaseCollision? ==> c in conflicts)
    && CollisionsReported(local.Paths(), conflicts)
  }

  ghost predicate Warns(state: SyncState, s: Snapshot, local: Tree, delete: bool, warnings: set<Warning>) {
    forall w :: w in warnings <==> PushWarning(state, s, local, delete, w)
  }

  /** The plan carries out the choice made for every path in scope, each once, reports every conflict, and warns of all
      that is kept. */
  ghost predicate IsPushPlan(state: SyncState, s: Snapshot, local: Tree, delete: bool, plan: PushPlan) {
    && PlansFiles(state, s, local.files, delete, plan.writes, plan.deletes)
    && PlansDirectories(state, s, local.dirs, delete, plan.createDirectories, plan.deleteDirectories)
    && ReportsConflicts(state, s, local, delete, plan.conflicts)
    && Warns(state, s, local, delete, plan.warnings)
  }

  // ---- the conflicts each loop reports ----

  ghost predicate LocalFileConflict(scope: Scope, base: Files, local: Files, remote: Files, c: Issue) {
    c.path in local &&
    if !scope.Contains(c.path) then c.reason == FileOutsideScope
    else PushPresent(At(base, c.path), local[c.path], At(remote, c.path)) == Clash(c.reason)
  }

  ghost predicate MissingConflict(base: Files, local: Files, remote: Files, delete: bool, c: Issue) {
    c.path in base && c.path !in local && PushGone(base[c.path], At(remote, c.path), delete) == Clash(c.reason)
  }

  ghost predicate NewFileConflict(base: Files, local: Files, remote: Files, c: Issue) {
    c.path in remote && c.path !in base && c.path !in local && c.reason == NewVaultFile
  }

  ghost predicate LocalDirectoryConflict(state: SyncState, s: Snapshot, localDirs: set<Path>, c: Issue) {
    c.path in localDirs &&
    (|| (c.reason == DirectoryOutsideScope && !state.scope.Contains(c.path) && !StructuralAncestor(state.scope, c.path))
     || (c.reason == VaultDirectoryDeleted && c.path in state.directories && c.path !in s.directories))
  }

  ghost predicate NewDirectoryConflict(state: SyncState, directories: seq<Path>, localDirs: set<Path>, c: Issue) {
    c.reason == NewVaultDirectory && c.path in directories && c.path !in state.directories && c.path !in localDirs
  }

  // ---- the planning loops ----

  /** Local paths that differ only in case. */
  method CaseCollisions(paths: set<Path>) returns (conflicts: set<Issue>)
    ensures forall c | c in conflicts :: IsCollision(paths, c)
    ensures CollisionsReported(paths, conflicts)
  {
    conflicts := {};
    var folded: map<Path, Path> := map[];
    var todo := paths;
    while todo != {}
      invariant todo <= paths
      invariant forall c | c in conflicts :: IsCollision(paths, c)
      invariant forall k | k in folded :: folded[k] in paths && folded[k] !in todo && Fold(folded[k]) == k
      invariant forall p | p in paths && p !in todo :: Fold(p) in folded
      invariant forall p | p in paths && p !in todo ::
                  folded[Fold(p)] == p || Pull.Issue(folded[Fold(p)], LocalCaseCollision) in conflicts
      invariant CollisionsReported(paths - todo, conflicts)
      decreases todo
    {
      var p :| p in todo;
      todo := todo - {p};
      if Fold(p) in folded && folded[Fold(p)] != p {
        conflicts := conflicts + {Pull.Issue(p, LocalCaseCollision)};
      }
      folded := folded[Fold(p) := p];
    }
  }

  /** First loop: every local file. */
  method PlanLocalFiles(state: SyncState, base: Files, remote: Files, local: Files)
    returns (writes: seq<Write>, conflicts: set<Issue>)
    ensures Pull.DistinctWrites(writes)
    ensures forall w :: w in writes <==>
              state.scope.Contains(w.path) && At(local, w.path) == Some(w.content) &&
              PushPresent(At(base, w.path), w.content, At(remote, w.path)) == Copy(w.expected)
    ensures forall c :: c in conflicts <==> LocalFileConflict(state.scope, base, local, remote, c)
  {
    writes, conflicts := [], {};
    var todo := local.Keys;
    while todo != {}
      invariant todo <= local.Keys
      invariant Pull.DistinctWrites(writes)
      invariant forall w :: w in writes <==>
          w.path !in todo && state.scope.Contains(w.path) && At(local, w.path) == Some(w.content) &&
          PushPresent(At(base, w.path), w.content, At(remote, w.path)) == Copy(w.expected)
      invariant forall c :: c in conflicts <==>
                  c.path !in todo && LocalFileConflict(state.scope, base, local, remote, c)
      decreases todo
    {
      var p :| p in todo;
      todo := todo - {p};
      if !state.scope.Contains(p) {
        conflicts := conflicts + {Pull.Issue(p, FileOutsideScope)};
      } else {
        match PushPresent(At(base, p), local[p], At(remote, p)) {
          case Copy(e) => writes := writes + [Write(p, local[p], e)];
          case Clash(reason) => conflicts := conflicts + {Pull.Issue(p, reason)};
          case _ =>
        }
      }
    }
  }

  /** Second loop: the manifest entries without a local file. */
  method PlanMissing(entries: seq<ManifestEntry>, ghost base: Files, remote: Files, local: Files, delete: bool)
    returns (deletes: seq<Deletion>, conflicts: set<Issue>, warnings: set<Warning>)
    requires EntriesOf(base, entries)
    ensures Pull.DistinctDeletes(deletes)
    ensures forall d :: d in deletes <==>
              d.path in base && d.path !in local && PushGone(base[d.path], At(remote, d.path), delete) ==
                  Erase(d.version)
    ensures forall c :: c in conflicts <==> MissingConflict(base, local, remote, delete, c)
    ensures forall w :: w in warnings <==>
              w.FileKept? && w.path in base && w.path !in local && w.path in remote && !delete
  {
    deletes, conflicts, warnings := [], {}, {};
    ghost var done: set<Path> := {};
    for i := 0 to |entries|
      invariant forall p :: p in done <==> exists k :: 0 <= k < i && entries[k].remotePath == p
      invariant Pull.DistinctDeletes(deletes)
      invariant forall d :: d in deletes <==>
          d.path in done && d.path in base && d.path !in local &&
              PushGone(base[d.path], At(remote, d.path), delete) == Erase(d.version)
      invariant forall c :: c in conflicts <==> c.path in done && MissingConflict(base, local, remote, delete, c)
      invariant forall w :: w in warnings <==>
          w.path in done && w.FileKept? && w.path in base && w.path !in local && w.path in remote && !delete
    {
      var entry := entries[i];
      var d, c, w := LookAtMissing(entry, remote, local, delete);
      deletes, conflicts, warnings := deletes + d, conflicts + c, warnings + w;
      done := done + {entry.remotePath};
    }
    assert forall p :: p in base ==> p in done;
  }

  /** The trusted entries of a manifest and the map made of them. */
  ghost predicate EntriesOf(base: Files, entries: seq<ManifestEntry>) {
    && (forall i | 0 <= i < |entries| :: entries[i].localPath == entries[i].remotePath &&
           At(base, entries[i].remotePath) == Some(entries[i].version))
    && (forall i, j | 0 <= i < j < |entries| :: entries[i].remotePath != entries[j].remotePath)
    && (forall p | p in base :: exists i :: 0 <= i < |entries| && entries[i].remotePath == p)
  }

  lemma TrustedEntries(state: SyncState)
    requires Trusted(state)
    ensures EntriesOf(state.Base(), state.entries)
  {
    Pull.BaseLookup(state);
    forall i | 0 <= i < |state.entries|
      ensures state.entries[i].localPath == state.entries[i].remotePath
      ensures At(state.Base(), state.entries[i].remotePath) == Some(state.entries[i].version)
    {
      assert state.entries[i] in state.entries;
    }
  }

  /** One manifest entry: at most one delete, conflict or warning. */
  method LookAtMissing(entry: ManifestEntry, remote: Files, local: Files, delete: bool)
    returns (deletes: seq<Deletion>, conflicts: set<Issue>, warnings: set<Warning>)
    requires entry.localPath == entry.remotePath
    ensures |deletes| <= 1
    ensures forall d :: d in deletes <==>
              d.path == entry.remotePath && d.path !in local &&
                  PushGone(entry.version, At(remote, d.path), delete) == Erase(d.version)
    ensures forall c :: c in conflicts <==>
              c.path == entry.remotePath && c.path !in local &&
                  PushGone(entry.version, At(remote, c.path), delete) == Clash(c.reason)
    ensures forall w :: w in warnings <==>
              w == FileKept(entry.remotePath) && w.path !in local && w.path in remote && !delete
  {
    deletes, conflicts, warnings := [], {}, {};
    if entry.localPath in local || entry.remotePath !in remote {
      return;
    }
    if !delete {
      warnings := {FileKept(entry.remotePath)};
    } else if remote[entry.remotePath] != entry.version {
      conflicts := {Pull.Issue(entry.remotePath, LocallyDeletedVaultChanged)};
    } else {
      deletes := [Deletion(entry.remotePath, entry.version)];
    }
  }

  /** Third loop: vault files that are neither tracked nor present locally. */
  method PlanNewVaultFiles(base: Files, files: seq<Entry>, local: Files) returns (conflicts: set<Issue>)
    ensures forall c :: c in conflicts <==> NewFileConflict(base, local, ToMap(files), c)
  {
    conflicts := {};
    for i := 0 to |files|
      invariant forall c :: c in conflicts <==>
          (exists k :: 0 <= k < i && files[k].path == c.path) && c.path !in base && c.path !in local &&
              c.reason == NewVaultFile
    {
      if files[i].path !in base && files[i].path !in local {
        conflicts := conflicts + {Pull.Issue(files[i].path, NewVaultFile)};
      }
    }
  }

  lemma OneMoreOften(kept: seq<Path>, all: seq<Path>, d: Path)
    requires AsOften(kept, all)
    ensures d !in kept ==> AsOften(kept, all + [d])
    ensures (d in all ==> d in kept) ==> AsOften(kept + [d], all + [d])
  {
  }

  /** The directory loops. */
  method PlanDirectories(state: SyncState, s: Snapshot, localDirs: set<Path>, delete: bool)
    returns (creates: seq<Path>, deletes: seq<Path>, conflicts: set<Issue>, warnings: set<Warning>)
    requires Trusted(state)
    ensures PlansDirectories(state, s, localDirs, delete, creates, deletes)
    ensures forall w :: w in warnings <==>
              !w.FileKept? && DirectoryGone(state, s, localDirs, w.path) &&
              (if w.RootKept? then state.scope == Folder(w.path) else !delete && state.scope != Folder(w.path))
    ensures forall c :: c in conflicts <==>
              LocalDirectoryConflict(state, s, localDirs, c) || NewDirectoryConflict(state, s.directories, localDirs, c)
  {
    creates, deletes, conflicts, warnings := [], [], {}, {};
    var todo := localDirs;
    while todo != {}
      invariant todo <= localDirs
      invariant forall d :: d in creates <==>
          d in localDirs && d !in todo && state.scope.Contains(d) && d !in s.directories && d !in state.directories
      invariant Distinct(creates)
      invariant forall c :: c in conflicts <==> c.path !in todo && LocalDirectoryConflict(state, s, localDirs, c)
      decreases todo
    {
      var d :| d in todo;
      todo := todo - {d};
      if state.scope.Contains(d) {
        if d in state.directories && d !in s.directories {
          conflicts := conflicts + {Pull.Issue(d, VaultDirectoryDeleted)};
        } else if d !in s.directories {
          creates := creates + [d];
        }
      } else if !StructuralAncestor(state.scope, d) {
        conflicts := conflicts + {Pull.Issue(d, DirectoryOutsideScope)};
      }
    }
    for i := 0 to |state.directories|
      invariant forall d :: d in deletes <==>
          d in state.directories[..i] && d !in localDirs && d in s.directories && delete && state.scope != Folder(d)
      invariant AsOften(deletes, state.directories[..i])
      invariant forall w :: w in warnings <==>
          !w.FileKept? && w.path in state.directories[..i] && w.path !in localDirs && w.path in s.directories &&
          (if w.RootKept? then state.scope == Folder(w.path) else !delete && state.scope != Folder(w.path))
    {
      var d := state.directories[i];
      assert state.directories[..i + 1] == state.directories[..i] + [d];
      OneMoreOften(deletes, state.directories[..i], d);
      if d in localDirs || d !in s.directories {
        continue;
      }
      if state.scope == Folder(d) {
        warnings := warnings + {RootKept(d)};
      } else if !delete {
        warnings := warnings + {DirectoryKept(d)};
      } else {
        deletes := deletes + [d];
      }
    }
    assert state.directories[..|state.directories|] == state.directories;
    for i := 0 to |s.directories|
      invariant forall c :: c in conflicts <==>
          LocalDirectoryConflict(state, s, localDirs, c) ||
              NewDirectoryConflict(state, s.directories[..i], localDirs, c)
    {
      var d := s.directories[i];
      assert s.directories[..i + 1] == s.directories[..i] + [d];
      if d !in state.directories && d !in localDirs {
        conflicts := conflicts + {Pull.Issue(d, NewVaultDirectory)};
      }
    }
    assert s.directories[..|s.directories|] == s.directories;
  }

  method PlanPush(state: SyncState, s: Snapshot, local: Tree, delete: bool) returns (plan: PushPlan)
    requires Trusted(state) && s.scope == state.scope
    requires forall p | p in s.Remote() :: s.scope.Contains(p)
    ensures IsPushPlan(state, s, local, delete, plan)
  {
    var base, remote := state.Base(), s.Remote();
    TrustedEntries(state);
    var cases := CaseCollisions(local.Paths());
    var writes, clashes := PlanLocalFiles(state, base, remote, local.files);
    var deletes, missing, warnings := PlanMissing(state.entries, base, remote, local.files, delete);
    var added := PlanNewVaultFiles(base, s.files, local.files);
    var creates, removes, dirs, dirWarnings := PlanDirectories(state, s, local.dirs, delete);
    plan := PushPlan(writes, deletes, creates, removes,
                     cases + clashes + missing + added + dirs, warnings + dirWarnings);
    BaseInScope(state);
    ConflictsAreReported(state, s, local, delete, base, plan.conflicts, cases, clashes, missing, added, dirs);
    FilesPlanned(state, s, local.files, delete, writes, deletes);
    KeptIsWarned(state, s, local, delete, warnings, dirWarnings);
  }

  lemma FilesPlanned(state: SyncState, s: Snapshot, local: Files, delete: bool, writes: seq<Write>,
                     deletes: seq<Deletion>)
    requires Pull.DistinctWrites(writes) && Pull.DistinctDeletes(deletes)
    requires forall w :: w in writes <==>
               state.scope.Contains(w.path) && At(local, w.path) == Some(w.content) &&
               PushPresent(At(state.Base(), w.path), w.content, At(s.Remote(), w.path)) == Copy(w.expected)
    requires forall d :: d in deletes <==>
               d.path in state.Base() && d.path !in local &&
               PushGone(state.Base()[d.path], At(s.Remote(), d.path), delete) == Erase(d.version)
    ensures PlansFiles(state, s, local, delete, writes, deletes)
  {
    WritesAndDeletes(state.Base(), s.Remote(), local, delete);
  }

  lemma KeptIsWarned(state: SyncState, s: Snapshot, local: Tree, delete: bool, files: set<Warning>, dirs: set<Warning>)
    requires forall w :: w in files <==>
               w.FileKept? && w.path in state.Base() && w.path !in local.files && w.path in s.Remote() && !delete
    requires forall w :: w in dirs <==>
               !w.FileKept? && DirectoryGone(state, s, local.dirs, w.path) &&
               (if w.RootKept? then state.scope == Folder(w.path) else !delete && state.scope != Folder(w.path))
    ensures Warns(state, s, local, delete, files + dirs)
  {}

  /** Only local files are written, and only tracked files gone locally are deleted. */
  lemma WritesAndDeletes(base: Files, remote: Files, local: Files, delete: bool)
    ensures forall p :: PushAt(base, local, remote, p, delete).Copy? ==> p in local
    ensures forall p :: PushAt(base, local, remote, p, delete).Erase? ==> p in base && p !in local
  {
    forall p
      ensures PushAt(base, local, remote, p, delete).Copy? ==> p in local
      ensures PushAt(base, local, remote, p, delete).Erase? ==> p in base && p !in local
    {
      PushIsFastForward(At(base, p), At(local, p), At(remote, p), delete);
    }
  }

  lemma BaseInScope(state: SyncState)
    requires Trusted(state)
    ensures forall p | p in state.Base() :: state.scope.Contains(p)
  {
    Pull.BaseLookup(state);
    forall p | p in state.Base()
      ensures state.scope.Contains(p)
    {
      var i :| 0 <= i < |state.entries| && state.entries[i].remotePath == p;
      assert state.entries[i] in state.entries;
    }
  }

  /** None of the file and directory loops reports a case collision. */
  lemma OtherReasons(state: SyncState, s: Snapshot, local: Tree, delete: bool, base: Files, c: Issue)
    requires c.reason.LocalCaseCollision?
    ensures !LocalFileConflict(state.scope, base, local.files, s.Remote(), c)
    ensures !MissingConflict(base, local.files, s.Remote(), delete, c)
    ensures !NewFileConflict(base, local.files, s.Remote(), c)
    ensures !LocalDirectoryConflict(state, s, local.dirs, c)
    ensures !NewDirectoryConflict(state, s.directories, local.dirs, c)
  {}

  /** Together the three file loops report exactly the clashes of the push choice, in scope. */
  lemma FileConflicts(scope: Scope, base: Files, local: Files, remote: Files, delete: bool, c: Issue)
    requires c.path in base || c.path in remote ==> scope.Contains(c.path)
    requires !c.reason.FileOutsideScope?
    ensures (|| LocalFileConflict(scope, base, local, remote, c)
             || MissingConflict(base, local, remote, delete, c)
             || NewFileConflict(base, local, remote, c)) <==>
            (scope.Contains(c.path) && PushAt(base, local, remote, c.path, delete) == Clash(c.reason))
  {}

  lemma ConflictsAreReported(state: SyncState, s: Snapshot, local: Tree, delete: bool, base: Files, all: set<Issue>,
                             cases: set<Issue>, clashes: set<Issue>, missing: set<Issue>, added: set<Issue>,
                             dirs: set<Issue>)
    requires base == state.Base() && s.scope == state.scope && all == cases + clashes + missing + added + dirs
    requires forall p | p in base || p in s.Remote() :: state.scope.Contains(p)
    requires forall c | c in cases :: IsCollision(local.Paths(), c)
    requires CollisionsReported(local.Paths(), cases)
    requires forall c :: c in clashes <==> LocalFileConflict(state.scope, base, local.files, s.Remote(), c)
    requires forall c :: c in missing <==> MissingConflict(base, local.files, s.Remote(), delete, c)
    requires forall c :: c in added <==> NewFileConflict(base, local.files, s.Remote(), c)
    requires forall c :: c in dirs <==>
               LocalDirectoryConflict(state, s, local.dirs, c) ||
                   NewDirectoryConflict(state, s.directories, local.dirs, c)
    ensures ReportsConflicts(state, s, local, delete, all)
  {
    forall c: Issue
      ensures c in all ==> PushConflict(state, s, local, delete, c)
      ensures PushConflict(state, s, local, delete, c) && !c.reason.LocalCaseCollision? ==> c in all
    {
      if c.reason.LocalCaseCollision? {
        OtherReasons(state, s, local, delete, base, c);
      } else {
        OneLoopReports(state, s, local, delete, base, c);
      }
    }
  }

  /** A reason other than a case collision is reported by one of the loops exactly when it holds. */
  lemma OneLoopReports(state: SyncState, s: Snapshot, local: Tree, delete: bool, base: Files, c: Issue)
    requires base == state.Base() && s.scope == state.scope && !c.reason.LocalCaseCollision?
    requires c.path in base || c.path in s.Remote() ==> state.scope.Contains(c.path)
    ensures PushConflict(state, s, local, delete, c) <==>
              || LocalFileConflict(state.scope, base, local.files, s.Remote(), c)
              || MissingConflict(base, local.files, s.Remote(), delete, c)
              || NewFileConflict(base, local.files, s.Remote(), c)
              || LocalDirectoryConflict(state, s, local.dirs, c)
              || NewDirectoryConflict(state, s.directories, local.dirs, c)
  {
    if !c.reason.FileOutsideScope? {
      FileConflicts(state.scope, base, local.files, s.Remote(), delete, c);
    }
    PushReasons(At(base, c.path), At(local.files, c.path), At(s.Remote(), c.path), delete);
  }
}
