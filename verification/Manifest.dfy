/** Scopes, vault snapshots and the manifest kept at the root of a pulled workspace. */
module Manifest {
  import opened Basics
  import opened Paths
  import opened HostFiles

  datatype Scope = All | File(path: Path) | Folder(path: Path) {
    /** The path of a scope has been through the vault-path parser. */
    predicate Named() { All? || path != [] }

    predicate Contains(p: Path) {
      match this
      case All => true
      case File(q) => p == q
      case Folder(q) => p == q || q < p
    }
  }

  /** On names: everything, the file itself, or the folder and whatever starts with the folder and a slash. */
  lemma ContainsOnNames(scope: Scope, p: Path)
    requires p != [] && forall i | 0 <= i < |p| :: '/' !in p[i]
    requires scope.Named() && (!scope.All? ==> forall i | 0 <= i < |scope.path| :: '/' !in scope.path[i])
    ensures scope.Contains(p) <==>
              match scope
              case All => true
              case File(q) => Join(p) == Join(q)
              case Folder(q) => Join(p) == Join(q) || Join(q) + "/" <= Join(p)
  {
    if !scope.All? {
      SplitJoin(p);
      SplitJoin(scope.path);
      StartsWithIsPrefix(scope.path, p);
    }
  }

  datatype Entry = Entry(path: Path, content: Content)

  datatype Snapshot = Snapshot(vault: string, scope: Scope, files: seq<Entry>, directories: seq<Path>) {
    function Remote(): map<Path, Content> { ToMap(files) }
  }

  datatype ManifestEntry = ManifestEntry(remotePath: Path, localPath: Path, version: Content)

  datatype SyncState =
    SyncState(vault: string, scope: Scope, entries: seq<ManifestEntry>, directories: seq<Path>)
  {
    function Base(): map<Path, Content> {
      ToMap(seq(|entries|, i requires 0 <= i < |entries| => Entry(entries[i].remotePath, entries[i].version)))
    }
  }

  ghost predicate DistinctPaths(files: seq<Entry>) {
    forall i, j | 0 <= i < j < |files| :: files[i].path != files[j].path
  }

  ghost predicate Distinct(ps: seq<Path>) {
    forall i, j | 0 <= i < j < |ps| :: ps[i] != ps[j]
  }

  function ToSet<T>(s: seq<T>): set<T> {
    set x | x in s
  }

  /** new Map(entries): a later entry for the same path wins. */
  function ToMap(files: seq<Entry>): (m: map<Path, Content>)
    ensures forall p :: p in m <==> exists i :: 0 <= i < |files| && files[i].path == p
  {
    if files == [] then map[]
    else
      var last := files[|files| - 1];
      assert files == files[..|files| - 1] + [last];
      assert forall i | 0 <= i < |files| - 1 :: files[..|files| - 1][i] == files[i];
      ToMap(files[..|files| - 1])[last.path := last.content]
  }

  lemma {:induction false} ToMapLookup(files: seq<Entry>)
    requires DistinctPaths(files)
    ensures forall e :: e in files <==> e.path in ToMap(files) && ToMap(files)[e.path] == e.content
  {
    if files == [] {
    } else {
      var init, last := files[..|files| - 1], files[|files| - 1];
      assert files == init + [last];
      ToMapLookup(init);
      assert last.path !in ToMap(init);
    }
  }

  // ---- reading and writing the manifest ----

  datatype StateError = DuplicateIdentity | OutsideScope | OtherVaultOrScope

  /** The checks made on a parsed manifest before it is trusted. */
  ghost predicate Trusted(state: SyncState) {
    && (forall i, j | 0 <= i < j < |state.entries| ::
          state.entries[i].remotePath != state.entries[j].remotePath &&
          state.entries[i].localPath != state.entries[j].localPath)
    && (forall e | e in state.entries ::
          e.localPath == e.remotePath && state.scope.Contains(e.remotePath))
    && (forall d | d in state.directories :: state.scope.Contains(d))
  }

  method ReadSyncState(state: SyncState) returns (r: Result<SyncState, StateError>)
    ensures r.Ok? <==> Trusted(state)
    ensures r.Ok? ==> r.value == state
    ensures r == Err(DuplicateIdentity) <==>
              exists i, j | 0 <= i < j < |state.entries| ::
                state.entries[i].remotePath == state.entries[j].remotePath ||
                state.entries[i].localPath == state.entries[j].localPath
  {
    var remotePaths: set<Path>, localPaths: set<Path> := {}, {};
    for i := 0 to |state.entries|
      invariant forall p :: p in remotePaths <==> exists k :: 0 <= k < i && state.entries[k].remotePath == p
      invariant forall p :: p in localPaths <==> exists k :: 0 <= k < i && state.entries[k].localPath == p
      invariant forall k, j | 0 <= k < j < i ::
          state.entries[k].remotePath != state.entries[j].remotePath &&
          state.entries[k].localPath != state.entries[j].localPath
    {
      if state.entries[i].remotePath in remotePaths || state.entries[i].localPath in localPaths {
        return Err(DuplicateIdentity);
      }
      remotePaths := remotePaths + {state.entries[i].remotePath};
      localPaths := localPaths + {state.entries[i].localPath};
    }
    if (exists e :: e in state.entries && (e.localPath != e.remotePath || !state.scope.Contains(e.remotePath)))
       || (exists d :: d in state.directories && !state.scope.Contains(d)) {
      return Err(OutsideScope);
    }
    return Ok(state);
  }

  function StateFromSnapshot(s: Snapshot): SyncState {
    SyncState(s.vault, s.scope,
              seq(|s.files|, i requires 0 <= i < |s.files| =>
                ManifestEntry(s.files[i].path, s.files[i].path, s.files[i].content)),
              s.directories)
  }

  // ---- snapshots ----

  /** What a snapshot of an undisturbed vault is: exactly the files and directories in scope, each once. */
  ghost predicate IsSnapshotOf(s: Snapshot, t: Tree) {
    && DistinctPaths(s.files)
    && Distinct(s.directories)
    && (forall e :: e in s.files <==> e.path in t.files && s.scope.Contains(e.path) && e.content == t.files[e.path])
    && (forall d :: d in s.directories <==> d in t.dirs && s.scope.Contains(d))
  }

  /** No two entries in scope differ only in case. */
  ghost predicate CaseDistinct(t: Tree, scope: Scope) {
    forall p, q :: p in t.Paths() && q in t.Paths() && scope.Contains(p) && scope.Contains(q) && Fold(p) == Fold(q) ==>
        p == q
  }

  /** A vault with two names of one file but for case cannot be scanned. */
  lemma ReadmeCollides()
    ensures var t := Tree(map[["README.md"] := "1", ["readme.md"] := "2"], {}); t.Valid() && !CanSnapshot(t, All)
  {
    var t := Tree(map[["README.md"] := "1", ["readme.md"] := "2"], {});
    var upper, lower := ["README.md"], ["readme.md"];
    assert Parents(upper) == {} && Parents(lower) == {};
    FoldExactly(upper, lower);
    assert "README.md"[0] != "readme.md"[0];
  }

  /** What a snapshot of a real tree needs: see SyncSnapshot. */
  ghost predicate CanSnapshot(t: Tree, scope: Scope) {
    ScopeExists(t, scope) && CaseDistinct(t, scope)
  }

  ghost predicate ScopeExists(t: Tree, scope: Scope) {
    match scope
    case All => true
    case File(p) => p in t.files
    case Folder(p) => exists q :: q in t.Paths() && scope.Contains(q)
  }

  /** A manifest written from a snapshot is trusted when read back, and its base is the snapshot. */
  lemma {:induction false} SnapshotStateRoundTrip(s: Snapshot, t: Tree)
    requires IsSnapshotOf(s, t)
    ensures Trusted(StateFromSnapshot(s))
    ensures StateFromSnapshot(s).Base() == s.Remote()
    ensures ToSet(StateFromSnapshot(s).directories) == ToSet(s.directories)
  {
    var state := StateFromSnapshot(s);
    assert forall e | e in state.entries :: Entry(e.remotePath, e.version) in s.files && e.localPath == e.remotePath;
    assert seq(|state.entries|, i requires 0 <= i < |state.entries| =>
             Entry(state.entries[i].remotePath, state.entries[i].version)) == s.files;
  }

  /** A snapshot's map agrees with the vault on every path in scope. */
  lemma SnapshotRemote(s: Snapshot, t: Tree)
    requires IsSnapshotOf(s, t)
    ensures forall p :: p in s.Remote() <==> p in t.files && s.scope.Contains(p)
    ensures forall p :: p in s.Remote() ==> s.Remote()[p] == t.files[p]
  {
    ToMapLookup(s.files);
    forall p | p in t.files && s.scope.Contains(p)
      ensures p in s.Remote() && s.Remote()[p] == t.files[p]
    {
      assert Entry(p, t.files[p]) in s.files;
    }
    forall p | p in s.Remote()
      ensures p in t.files && s.scope.Contains(p)
    {
      assert Entry(p, s.Remote()[p]) in s.files;
    }
  }

  datatype SnapshotError = Unlisted | FolderMissing | UnreadableFile | CaseCollision

  method SyncSnapshot(host: Host, vault: string, scope: Scope) returns (r: Result<Snapshot, SnapshotError>)
    modifies host
    ensures OnlyRead(old(host.Now()), host.Now())
    ensures r.Ok? ==> r.value.vault == vault && r.value.scope == scope && DistinctPaths(r.value.files)
    ensures r.Ok? ==> forall p | p in r.value.Remote() :: scope.Contains(p)
    ensures Alone(old(host.Now())) && host.tree.Valid() && r.Ok? ==>
              IsSnapshotOf(r.value, host.tree) && CanSnapshot(host.tree, scope)
    ensures old(host.turns) == [] && host.tree.Valid() ==>
              && (r.Ok? <==> CanSnapshot(host.tree, scope))
              && (r == Err(CaseCollision) <==> ScopeExists(host.tree, scope) && !CaseDistinct(host.tree, scope))
              && (r == Err(FolderMissing) <==> scope.Folder? && !ScopeExists(host.tree, scope))
    ensures r == Err(Unlisted) ==> old(host.turns) != [] && !scope.File?
    ensures r == Err(UnreadableFile) && host.tree.Valid() ==> old(host.turns) != [] || scope.File?
    ensures Alone(old(host.Now())) && host.tree.Valid() ==>
              && (r == Err(CaseCollision) ==> !CaseDistinct(host.tree, scope))
              && (r == Err(FolderMissing) ==> !ScopeExists(host.tree, scope))
  {
    var files: seq<Entry> := [];
    var directories: seq<Path> := [];
    if scope.File? {
      var reply := host.Read(scope.path);
      if !reply.Found? { return Err(UnreadableFile); }
      files := [Entry(scope.path, reply.content)];
    } else {
      var listing := host.List();
      if listing.None? { return Err(Unlisted); }
      var accessible := set p | p in listing.value.Paths() && scope.Contains(p);
      if scope.Folder? && accessible == {} {
        assert forall q :: q in listing.value.Paths() && scope.Contains(q) ==> q in accessible;
        return Err(FolderMissing);
      }
      var read := ReadListed(host, listing.value, accessible);
      if read.Err? { return Err(UnreadableFile); }
      files, directories := read.value.0, read.value.1;
      assert Alone(old(host.Now())) && host.tree.Valid() && scope.Folder? ==> ScopeExists(host.tree, scope) by {
        if scope.Folder? {
          var p :| p in accessible;
        }
      }
    }
    if Alone(old(host.Now())) && host.tree.Valid() {
      SnapshotPaths(host.tree, scope, files, directories);
    }
    r := CheckCase(files, directories, Snapshot(vault, scope, files, directories));
  }

  /** Reads the accessible files of a listing, in any order. */
  method ReadListed(host: Host, listing: Tree, accessible: set<Path>) returns (r: Result<(seq<Entry>, seq<Path>), Path>)
    modifies host
    ensures OnlyRead(old(host.Now()), host.Now())
    ensures r.Ok? ==> DistinctPaths(r.value.0) && Distinct(r.value.1)
    ensures r.Ok? ==> forall e | e in r.value.0 :: e.path in accessible
    ensures r.Ok? ==> (forall d :: d in r.value.1 <==> d in listing.dirs && d in accessible)
    ensures Alone(old(host.Now())) && host.tree.Valid() && listing == host.tree && accessible <= listing.Paths() ==>
              && (old(host.turns) == [] ==> r.Ok?)
              && (r.Ok? ==> forall e :: e in r.value.0 <==>
                    e.path in host.tree.files && e.path in accessible && e.content == host.tree.files[e.path])
  {
    ghost var quiet := Alone(host.Now()) && host.tree.Valid() && listing == host.tree && accessible <= listing.Paths();
    var files: seq<Entry>, directories: seq<Path> := [], [];
    var todo := accessible;
    while todo != {}
      invariant todo <= accessible
      invariant OnlyRead(old(host.Now()), host.Now())
      invariant DistinctPaths(files) && Distinct(directories)
      invariant forall e | e in files :: e.path in accessible && e.path !in todo
      invariant forall d :: d in directories <==> d in listing.dirs && d in accessible && d !in todo
      invariant quiet ==> forall e :: e in files <==>
                  e.path in listing.files && e.path in accessible && e.path !in todo &&
                      e.content == listing.files[e.path]
      decreases todo
    {
      var p :| p in todo;
      todo := todo - {p};
      if p in listing.dirs {
        directories := directories + [p];
      } else {
        if quiet { EntryIsReadable(listing, p); }
        var reply := host.Read(p);
        if !reply.Found? { return Err(p); }
        files := files + [Entry(p, reply.content)];
      }
    }
    return Ok((files, directories));
  }

  lemma EntryIsReadable(t: Tree, p: Path)
    requires t.Valid() && p in t.files
    ensures ReadTree(t, p) == Found(t.files[p])
  {
    assert forall q :: q in Parents(p) ==> q in t.dirs;
    assert [] !in t.Paths();
  }

  lemma SnapshotPaths(t: Tree, scope: Scope, files: seq<Entry>, directories: seq<Path>)
    requires forall e :: e in files <==> e.path in t.files && scope.Contains(e.path) && e.content == t.files[e.path]
    requires forall d :: d in directories <==> d in t.dirs && scope.Contains(d)
    ensures forall p :: p in EntryPaths(files, directories) <==> p in t.Paths() && scope.Contains(p)
  {
    EntryPathsMembers(files, directories);
    forall p | p in t.Paths() && scope.Contains(p)
      ensures p in EntryPaths(files, directories)
    {
      if p in t.files {
        assert Entry(p, t.files[p]) in files;
      }
    }
  }

  /** The case-folding pass at the end of a snapshot. */
  method CheckCase(files: seq<Entry>, directories: seq<Path>, s: Snapshot) returns (r: Result<Snapshot, SnapshotError>)
    ensures r.Ok? <==> forall p, q | p in EntryPaths(files, directories) && q in EntryPaths(files, directories) ::
              Fold(p) == Fold(q) ==> p == q
    ensures r == if r.Ok? then Ok(s) else Err(CaseCollision)
  {
    var entries := EntryPaths(files, directories);
    var folded: map<Path, Path> := map[];
    for i := 0 to |entries|
      invariant forall k :: k in folded ==> folded[k] in entries[..i] && Fold(folded[k]) == k
      invariant forall k | 0 <= k < i :: Fold(entries[k]) in folded && folded[Fold(entries[k])] == entries[k]
    {
      var key := Fold(entries[i]);
      if key in folded && folded[key] != entries[i] {
        return Err(CaseCollision);
      }
      folded := folded[key := entries[i]];
    }
    return Ok(s);
  }

  lemma EntryPathsMembers(files: seq<Entry>, directories: seq<Path>)
    ensures forall p :: p in EntryPaths(files, directories) <==>
              p in directories || exists e :: e in files && e.path == p
  {
    var tail := seq(|files|, i requires 0 <= i < |files| => files[i].path);
    forall e | e in files
      ensures e.path in tail
    {
      var i :| 0 <= i < |files| && files[i] == e;
      assert tail[i] == e.path;
    }
  }

  function EntryPaths(files: seq<Entry>, directories: seq<Path>): seq<Path> {
    directories + seq(|files|, i requires 0 <= i < |files| => files[i].path)
  }
}
