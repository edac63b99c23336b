/** `sync/apply`: validate the request and the resulting tree, check every version, then mutate the vault,
    collecting conflicts and errors instead of stopping at the first. */
module Apply {
  import opened Basics
  import opened Paths
  import opened HostFiles
  import opened Manifest
  import opened Steps

  datatype Request =
    Request(writes: seq<Write>, deletes: seq<Deletion>, directories: seq<Path>, deleteDirectories: seq<Path>,
        dryRun: bool)
  {
    predicate ValidPaths() {
      && (forall w | w in writes :: VaultPath(w.path))
      && (forall d | d in deletes :: VaultPath(d.path))
      && (forall d | d in directories :: VaultPath(d))
      && (forall d | d in deleteDirectories :: VaultPath(d))
    }
  }

  // ---- tree validity ----

  datatype TreeEntry = TreeEntry(path: Path, isFile: bool)

  /** No two entries share a case-folded path, and none lies beneath a file, case-folded. */
  ghost predicate ValidEntries(entries: seq<TreeEntry>) {
    && (forall i, j | 0 <= i < j < |entries| :: Fold(entries[i].path) != Fold(entries[j].path))
    && (forall i, j | 0 <= i < |entries| && 0 <= j < |entries| && entries[i].isFile ::
          !(Fold(entries[i].path) < Fold(entries[j].path)))
  }

  /** First pass: the folded paths, all different; the folded file paths are kept. */
  method FoldEntries(entries: seq<TreeEntry>) returns (ok: bool, files: set<Path>)
    ensures ok <==> forall i, j | 0 <= i < j < |entries| :: Fold(entries[i].path) != Fold(entries[j].path)
    ensures ok ==> forall k :: k in files <==>
              exists j :: 0 <= j < |entries| && entries[j].isFile && Fold(entries[j].path) == k
  {
    var folded: set<Path> := {};
    files := {};
    for i := 0 to |entries|
      invariant forall k :: k in folded <==> exists j :: 0 <= j < i && Fold(entries[j].path) == k
      invariant forall k :: k in files <==> exists j :: 0 <= j < i && entries[j].isFile && Fold(entries[j].path) == k
      invariant forall j, k | 0 <= j < k < i :: Fold(entries[j].path) != Fold(entries[k].path)
    {
      var key := Fold(entries[i].path);
      if key in folded { return false, files; }
      folded := folded + {key};
      if entries[i].isFile { files := files + {key}; }
    }
    ok := true;
  }

  /** Is some folder above `parts` one of the files? */
  method AncestorIn(parts: Path, files: set<Path>) returns (found: bool)
    ensures found <==> exists f :: f in files && f != [] && f < parts
  {
    var index := 1;
    while index < |parts|
      invariant 1 <= index
      invariant forall k | 1 <= k < index && k < |parts| :: parts[..k] !in files
    {
      if parts[..index] in files { return true; }
      index := index + 1;
    }
    assert forall f: Path | f < parts :: f == parts[..|f|];
    found := false;
  }

  method AssertValidTree(entries: seq<TreeEntry>) returns (ok: bool)
    requires forall i | 0 <= i < |entries| :: entries[i].path != []
    ensures ok <==> ValidEntries(entries)
  {
    var files: set<Path>;
    ok, files := FoldEntries(entries);
    if !ok { return; }
    for i := 0 to |entries|
      invariant forall k | 0 <= k < i :: !exists f :: f in files && f != [] && f < Fold(entries[k].path)
    {
      var nested := AncestorIn(Fold(entries[i].path), files);
      if nested {
        var f :| f in files && f != [] && f < Fold(entries[i].path);
        return false;
      }
    }
    forall j, k | 0 <= j < |entries| && 0 <= k < |entries| && entries[j].isFile
      ensures !(Fold(entries[j].path) < Fold(entries[k].path))
    {
      assert Fold(entries[j].path) in files;
    }
  }

  /** The same facts about elements, on exact paths. */
  ghost predicate Sound(entries: seq<TreeEntry>) {
    && (forall a, b | a in entries && b in entries && a != b :: a.path != b.path)
    && (forall a, b | a in entries && b in entries && a.isFile :: !(a.path < b.path))
  }

  lemma ValidIsSound(entries: seq<TreeEntry>)
    requires ValidEntries(entries)
    ensures Sound(entries)
  {
    forall a, b | a in entries && b in entries
      ensures a != b ==> a.path != b.path
      ensures a.isFile ==> !(a.path < b.path)
    {
      var i :| 0 <= i < |entries| && entries[i] == a;
      var j :| 0 <= j < |entries| && entries[j] == b;
      if i != j {
        assert Fold(entries[i].path) != Fold(entries[j].path);
      }
      if a.path < b.path {
        FoldKeepsPrefix(a.path, b.path);
      }
    }
  }

  // ---- the checks before any mutation ----

  datatype ApplyError =
    | InvalidPath | CollidingRequest | Unlisted | CollidingVault | CreatesBeneathDeleted | NotEmptied
    | CollidingResult | UnreadableFile

  function FileEntries(ps: seq<Path>): seq<TreeEntry> { seq(|ps|, i requires 0 <= i < |ps| => TreeEntry(ps[i], true)) }

  function DirEntries(ps: seq<Path>): seq<TreeEntry> { seq(|ps|, i requires 0 <= i < |ps| => TreeEntry(ps[i], false)) }

  function PathsOfWrites(ws: seq<Write>): seq<Path> { seq(|ws|, i requires 0 <= i < |ws| => ws[i].path) }

  function PathsOfDeletes(ds: seq<Deletion>): seq<Path> { seq(|ds|, i requires 0 <= i < |ds| => ds[i].path) }

  function RequestEntries(req: Request): seq<TreeEntry> {
    FileEntries(PathsOfWrites(req.writes)) + FileEntries(PathsOfDeletes(req.deletes)) +
    DirEntries(req.directories) + DirEntries(req.deleteDirectories)
  }

  ghost predicate IsListing(entries: seq<TreeEntry>, t: Tree) {
    && (forall e :: e in entries <==> e.path in if e.isFile then t.files.Keys else t.dirs)
    && (forall i, j | 0 <= i < j < |entries| :: entries[i] != entries[j])
  }

  function Retained(current: seq<TreeEntry>, req: Request): (r: seq<TreeEntry>)
    ensures forall e :: e in r <==> e in current && Stays(e, req)
  {
    if current == [] then []
    else (if Stays(current[0], req) then [current[0]] else []) + Retained(current[1..], req)
  }

  predicate Stays(e: TreeEntry, req: Request) {
    if e.isFile then e.path !in DeletePaths(req.deletes) && e.path !in WritePaths(req.writes)
    else e.path !in req.deleteDirectories
  }

  function NewDirectories(ds: seq<Path>, t: Tree): (r: seq<Path>)
    ensures forall d :: d in r <==> d in ds && d !in t.dirs
  {
    if ds == [] then []
    else (if ds[0] in t.dirs then [] else [ds[0]]) + NewDirectories(ds[1..], t)
  }

  function FutureEntries(entries: seq<TreeEntry>, t: Tree, req: Request): seq<TreeEntry> {
    Retained(entries, req) + DirEntries(NewDirectories(req.directories, t)) + FileEntries(PathsOfWrites(req.writes))
  }

  /** A deleted directory gets nothing new and keeps nothing old. */
  predicate Emptied(t: Tree, req: Request, d: Path) {
    forall e :: e in t.Paths() && d < e ==> e in DeletePaths(req.deletes) || e in req.deleteDirectories
  }

  predicate Untouched(req: Request, d: Path) {
    && (forall w | w in req.writes :: !(d < w.path))
    && (forall x | x in req.directories :: x != d && !(d < x))
  }

  ghost predicate Accepted(entries: seq<TreeEntry>, t: Tree, req: Request) {
    && ValidEntries(RequestEntries(req))
    && ValidEntries(entries)
    && (forall d | d in req.deleteDirectories :: Untouched(req, d) && Emptied(t, req, d))
    && ValidEntries(FutureEntries(entries, t, req))
  }

  /** Every path a request names anywhere goes through the path parser. */
  lemma ValidPathsExactly(req: Request)
    ensures req.ValidPaths() <==> forall e | e in RequestEntries(req) :: VaultPath(e.path)
  {
    forall p: Path, isFile: bool
      ensures TreeEntry(p, isFile) in RequestEntries(req) <==>
                if isFile then p in WritePaths(req.writes) || p in DeletePaths(req.deletes)
                else p in req.directories || p in req.deleteDirectories
    {
      RequestEntryKinds(req, TreeEntry(p, isFile));
    }
    if forall e | e in RequestEntries(req) :: VaultPath(e.path) {
      assert forall w | w in req.writes :: TreeEntry(w.path, true) in RequestEntries(req);
      assert forall d | d in req.deletes :: TreeEntry(d.path, true) in RequestEntries(req);
      assert forall d | d in req.directories :: TreeEntry(d, false) in RequestEntries(req);
      assert forall d | d in req.deleteDirectories :: TreeEntry(d, false) in RequestEntries(req);
    }
  }

  lemma RequestEntryKinds(req: Request, e: TreeEntry)
    ensures e in RequestEntries(req) <==>
              if e.isFile then e.path in WritePaths(req.writes) || e.path in DeletePaths(req.deletes)
              else e.path in req.directories || e.path in req.deleteDirectories
  {
    var a, b := FileEntries(PathsOfWrites(req.writes)), FileEntries(PathsOfDeletes(req.deletes));
    var c, d := DirEntries(req.directories), DirEntries(req.deleteDirectories);
    assert e in RequestEntries(req) <==> e in a || e in b || e in c || e in d;
    WriteEntryKinds(req.writes, e);
    DirEntryKinds(req.directories, e);
    DirEntryKinds(req.deleteDirectories, e);
    forall x | x in req.deletes
      ensures TreeEntry(x.path, true) in b
    {
      var i :| 0 <= i < |req.deletes| && req.deletes[i] == x;
      assert b[i] == TreeEntry(x.path, true);
    }
  }

  lemma WriteEntryKinds(writes: seq<Write>, e: TreeEntry)
    ensures e in FileEntries(PathsOfWrites(writes)) <==> e.isFile && e.path in WritePaths(writes)
  {
    forall x | x in writes
      ensures TreeEntry(x.path, true) in FileEntries(PathsOfWrites(writes))
    {
      var i :| 0 <= i < |writes| && writes[i] == x;
      assert FileEntries(PathsOfWrites(writes))[i] == TreeEntry(x.path, true);
    }
  }

  lemma DirEntryKinds(ds: seq<Path>, e: TreeEntry)
    ensures e in DirEntries(ds) <==> !e.isFile && e.path in ds
  {
    forall x | x in ds
      ensures TreeEntry(x, false) in DirEntries(ds)
    {
      var i :| 0 <= i < |ds| && ds[i] == x;
      assert DirEntries(ds)[i] == TreeEntry(x, false);
    }
  }

  lemma FutureEntryKinds(entries: seq<TreeEntry>, t: Tree, req: Request, e: TreeEntry)
    ensures e in FutureEntries(entries, t, req) <==>
              || (e in entries && Stays(e, req))
              || (if e.isFile then e.path in WritePaths(req.writes) else e.path in req.directories && e.path !in t.dirs)
  {
    WriteEntryKinds(req.writes, e);
    DirEntryKinds(NewDirectories(req.directories, t), e);
  }

  ghost predicate MayGo(t: Tree, req: Request, d: Path) {
    Untouched(req, d) && Emptied(t, req, d)
  }

  /** Which error a request that is not accepted gets: the first check that fails, and of the directories to delete the
      first one that cannot go. */
  ghost predicate Refuses(e: ApplyError, entries: seq<TreeEntry>, t: Tree, req: Request) {
    if !ValidEntries(RequestEntries(req)) then e.CollidingRequest?
    else if !ValidEntries(entries) then e.CollidingVault?
    else if exists d :: d in req.deleteDirectories && !MayGo(t, req, d) then
      exists k :: 0 <= k < |req.deleteDirectories| && !MayGo(t, req, req.deleteDirectories[k]) &&
        (forall j | 0 <= j < k :: MayGo(t, req, req.deleteDirectories[j])) &&
        if Untouched(req, req.deleteDirectories[k]) then e.NotEmptied? else e.CreatesBeneathDeleted?
    else e.CollidingResult?
  }

  method Enumerate(t: Tree) returns (entries: seq<TreeEntry>)
    ensures IsListing(entries, t)
  {
    entries := [];
    var files, dirs := t.files.Keys, t.dirs;
    while files != {}
      invariant files <= t.files.Keys
      invariant forall e :: e in entries <==> e.isFile && e.path in t.files && e.path !in files
      invariant forall i, j | 0 <= i < j < |entries| :: entries[i] != entries[j]
      decreases files
    {
      var p :| p in files;
      files := files - {p};
      entries := entries + [TreeEntry(p, true)];
    }
    while dirs != {}
      invariant dirs <= t.dirs
      invariant forall e :: e in entries <==>
                  if e.isFile then e.path in t.files else e.path in t.dirs && e.path !in dirs
      invariant forall i, j | 0 <= i < j < |entries| :: entries[i] != entries[j]
      decreases dirs
    {
      var p :| p in dirs;
      dirs := dirs - {p};
      entries := entries + [TreeEntry(p, false)];
    }
  }

  /** Everything that is checked before versions are compared; None means accepted. */
  method CheckRequest(t: Tree, req: Request) returns (error: Option<ApplyError>, entries: seq<TreeEntry>)
    requires req.ValidPaths() && forall p | p in t.Paths() :: p != []
    ensures IsListing(entries, t)
    ensures error.None? <==> Accepted(entries, t, req)
    ensures error.Some? ==> Refuses(error.value, entries, t, req)
  {
    entries := Enumerate(t);
    forall e | e in RequestEntries(req)
      ensures e.path != []
    {
      RequestEntryKinds(req, e);
    }
    assert forall e | e in entries :: e.path in t.Paths();
    var ok := AssertValidTree(RequestEntries(req));
    if !ok { return Some(CollidingRequest), entries; }
    ok := AssertValidTree(entries);
    if !ok { return Some(CollidingVault), entries; }
    for i := 0 to |req.deleteDirectories|
      invariant forall k | 0 <= k < i :: MayGo(t, req, req.deleteDirectories[k])
    {
      assert req.deleteDirectories[i] in req.deleteDirectories;
      if !Untouched(req, req.deleteDirectories[i]) { return Some(CreatesBeneathDeleted), entries; }
      if !Emptied(t, req, req.deleteDirectories[i]) { return Some(NotEmptied), entries; }
    }
    forall e | e in FutureEntries(entries, t, req)
      ensures e.path != []
    {
      FutureEntryKinds(entries, t, req, e);
    }
    ok := AssertValidTree(FutureEntries(entries, t, req));
    if !ok { return Some(CollidingResult), entries; }
    return None, entries;
  }

  // ---- the mutation loops ----

  datatype VersionConflict = VersionConflict(path: Path, expected: Option<Content>, current: Option<Content>)

  /** The vault and the result lists as the loops build them. */
  datatype Run = Run(
    world: World,
    written: seq<Entry>,
    deleted: seq<Path>,
    created: seq<Path>,
    pruned: seq<Path>,
    conflicts: seq<VersionConflict>,
    errors: seq<Path>)

  function MkdirStep(r: Run, t: Tree, d: Path): Run {
    if d in t.dirs then r
    else
      var c := MkdirCall(r.world, d);
      if c.reply.Done? then r.(world := c.world, created := r.created + [d])
      else r.(world := c.world, errors := r.errors + [d])
  }

  function WriteStep(r: Run, w: Write): Run {
    var c := WriteCall(r.world, w.path, w.content, w.expected);
    match c.reply
    case Conflict(current) =>
      r.(world := c.world, conflicts := r.conflicts + [VersionConflict(w.path, w.expected, current)])
    case Done =>
      var refreshed := ReadCall(c.world, w.path);
      if refreshed.reply.Found?
      then r.(world := refreshed.world, written := r.written + [Entry(w.path, refreshed.reply.content)])
      else r.(world := refreshed.world, errors := r.errors + [w.path])
    case _ => r.(world := c.world, errors := r.errors + [w.path])
  }

  function DeleteStep(r: Run, d: Deletion): Run {
    var current := ReadCall(r.world, d.path);
    match current.reply
    case Unreadable => r.(world := current.world, errors := r.errors + [d.path])
    case Absent =>
      r.(world := current.world, conflicts := r.conflicts + [VersionConflict(d.path, Some(d.version), None)])
    case Found(v) =>
      if v != d.version
      then r.(world := current.world, conflicts := r.conflicts + [VersionConflict(d.path, Some(d.version), Some(v))])
      else
        var c := RemoveCall(current.world, d.path);
        if c.reply.Done? then r.(world := c.world, deleted := r.deleted + [d.path])
        else r.(world := c.world, errors := r.errors + [d.path])
  }

  function PruneStep(r: Run, d: Path): Run {
    var c := RemoveCall(r.world, d);
    match c.reply
    case Done => r.(world := c.world, pruned := r.pruned + [d])
    case Missing => r.(world := c.world)
    case _ => r.(world := c.world, errors := r.errors + [d])
  }

  function MkdirRun(r: Run, t: Tree, ds: seq<Path>): Run
    decreases |ds|
  {
    if ds == [] then r else MkdirRun(MkdirStep(r, t, ds[0]), t, ds[1..])
  }

  function WriteRun(r: Run, writes: seq<Write>): Run
    decreases |writes|
  {
    if writes == [] then r else WriteRun(WriteStep(r, writes[0]), writes[1..])
  }

  function DeleteRun(r: Run, deletes: seq<Deletion>): Run
    decreases |deletes|
  {
    if deletes == [] then r else DeleteRun(DeleteStep(r, deletes[0]), deletes[1..])
  }

  function PruneRun(r: Run, ds: seq<Path>): Run
    decreases |ds|
  {
    if ds == [] then r else PruneRun(PruneStep(r, ds[0]), ds[1..])
  }

  /** All four loops; t is the vault as it was listed. */
  function ApplyRun(w: World, t: Tree, req: Request): Run {
    var made := MkdirRun(Run(w, [], [], [], [], [], []), t, Sorted(req.directories));
    var wrote := WriteRun(made, req.writes);
    var deleted := DeleteRun(wrote, req.deletes);
    PruneRun(deleted, DeepestFirst(req.deleteDirectories))
  }

  datatype Outcome = Applied | Conflicted | PartlyApplied

  function OutcomeOf(r: Run): Outcome {
    var count := |r.written| + |r.deleted| + |r.created| + |r.pruned|;
    if |r.errors| > 0 || (|r.conflicts| > 0 && count > 0) then PartlyApplied
    else if |r.conflicts| > 0 then Conflicted
    else Applied
  }

  datatype ApplyResult = ApplyResult(outcome: Outcome, written: seq<Entry>, deleted: seq<Path>, created: seq<Path>,
                                     pruned: seq<Path>, conflicts: seq<VersionConflict>, errors: seq<Path>)

  function ResultOf(r: Run): (result: ApplyResult)
    ensures result.outcome.Applied? <==> result.conflicts == [] && result.errors == []
    ensures result.outcome.Conflicted? <==>
              && result.conflicts != [] && result.errors == []
              && result.written == [] && result.deleted == [] && result.created == [] && result.pruned == []
  {
    ApplyResult(OutcomeOf(r), r.written, r.deleted, r.created, r.pruned, r.conflicts, r.errors)
  }

  /** Versions expected by the writes, then by the deletes. */
  function Expectations(req: Request): seq<(Path, Option<Content>)> {
    seq(|req.writes|, i requires 0 <= i < |req.writes| => (req.writes[i].path, req.writes[i].expected)) +
    seq(|req.deletes|, i requires 0 <= i < |req.deletes| => (req.deletes[i].path, Some(req.deletes[i].version)))
  }

  /** A conflict names a requested mutation, the version it expects, and one that differs from it. */
  ghost predicate RealConflict(req: Request, c: VersionConflict) {
    (c.path, c.expected) in Expectations(req) && c.current != c.expected
  }

  ghost predicate AllReal(req: Request, conflicts: seq<VersionConflict>) {
    forall c | c in conflicts :: RealConflict(req, c)
  }

  ghost predicate PathsOnce(conflicts: seq<VersionConflict>) {
    forall i, j | 0 <= i < j < |conflicts| :: conflicts[i].path != conflicts[j].path
  }

  /** readExistingFile: the version at a path, None when there is no file. */
  method CurrentVersion(host: Host, p: Path) returns (r: Result<Option<Content>, ()>)
    modifies host
    ensures OnlyRead(old(host.Now()), host.Now())
    ensures old(host.turns) == [] ==> (r.Err? <==> ReadTree(host.tree, p) == HostFiles.Unreadable)
    ensures Alone(old(host.Now())) && r.Ok? ==> r.value == host.tree.Version(p)
  {
    var reply := host.Read(p);
    if reply.Unreadable? { return Err(()); }
    return Ok(if reply.Found? then Some(reply.content) else None);
  }

  /** Reads every file the request names; Err when one cannot be read. On a vault nobody else writes, the conflicts are
      exactly the mutations whose expected version is not the current one, with both versions. */
  method Preflight(host: Host, req: Request) returns (r: Result<seq<VersionConflict>, ApplyError>)
    modifies host
    ensures OnlyRead(old(host.Now()), host.Now())
    ensures old(host.turns) == [] ==>
              (r.Err? <==> exists e :: e in Expectations(req) && ReadTree(host.tree, e.0) == HostFiles.Unreadable)
    ensures Alone(old(host.Now())) && r.Ok? ==>
              forall c :: c in r.value <==> RealConflict(req, c) && c.current == host.tree.Version(c.path)
    ensures r.Err? ==> r.error.UnreadableFile?
    ensures r.Ok? ==> AllReal(req, r.value)
    ensures r.Ok? && ValidEntries(RequestEntries(req)) ==> PathsOnce(r.value)
  {
    var mutations := Expectations(req);
    var conflicts: seq<VersionConflict> := [];
    for i := 0 to |mutations|
      invariant OnlyRead(old(host.Now()), host.Now())
      invariant old(host.turns) == [] ==>
                  forall k | 0 <= k < i :: ReadTree(host.tree, mutations[k].0) != HostFiles.Unreadable
      invariant Noted(req, i, conflicts)
      invariant Alone(old(host.Now())) ==> FoundSoFar(host.tree, mutations[..i], conflicts)
    {
      assert mutations[i] in mutations;
      var found := CurrentVersion(host, mutations[i].0);
      if found.Err? { return Err(ApplyError.UnreadableFile); }
      var current := found.value;
      NoteOneMore(req, i, conflicts, current);
      if Alone(old(host.Now())) { FindOneMore(host.tree, mutations, i, conflicts); }
      if current != mutations[i].1 {
        conflicts := conflicts + [VersionConflict(mutations[i].0, mutations[i].1, current)];
      }
    }
    assert mutations[..|mutations|] == mutations;
    return Ok(conflicts);
  }

  /** The conflicts noted so far are real, among the mutations looked at, and no path is noted twice. */
  ghost predicate Noted(req: Request, i: nat, conflicts: seq<VersionConflict>)
    requires i <= |Expectations(req)|
  {
    && (forall c | c in conflicts :: (c.path, c.expected) in Expectations(req)[..i] && c.current != c.expected)
    && (ValidEntries(RequestEntries(req)) ==> PathsOnce(conflicts))
  }

  ghost predicate FoundSoFar(t: Tree, es: seq<(Path, Option<Content>)>, conflicts: seq<VersionConflict>) {
    forall c :: c in conflicts <==>
      (c.path, c.expected) in es && c.current != c.expected && c.current == t.Version(c.path)
  }

  lemma NoteOneMore(req: Request, i: nat, conflicts: seq<VersionConflict>, current: Option<Content>)
    requires i < |Expectations(req)| && Noted(req, i, conflicts)
    ensures var e := Expectations(req)[i];
            var more := if current != e.1 then conflicts + [VersionConflict(e.0, e.1, current)] else conflicts;
            Noted(req, i + 1, more)
  {
    var es := Expectations(req);
    assert es[..i + 1] == es[..i] + [es[i]];
    if ValidEntries(RequestEntries(req)) {
      ExpectedOnce(req, i);
      assert forall k | 0 <= k < |conflicts| :: conflicts[k] in conflicts;
    }
  }

  lemma FindOneMore(t: Tree, es: seq<(Path, Option<Content>)>, i: nat, conflicts: seq<VersionConflict>)
    requires i < |es| && FoundSoFar(t, es[..i], conflicts)
    ensures var e, current := es[i], t.Version(es[i].0);
            var more := if current != e.1 then conflicts + [VersionConflict(e.0, e.1, current)] else conflicts;
            FoundSoFar(t, es[..i + 1], more)
  {
    assert es[..i + 1] == es[..i] + [es[i]];
  }

  lemma ExpectedOnce(req: Request, i: nat)
    requires ValidEntries(RequestEntries(req)) && i < |Expectations(req)|
    ensures forall e | e in Expectations(req)[..i] :: e.0 != Expectations(req)[i].0
  {
    var all, es := RequestEntries(req), Expectations(req);
    forall k | 0 <= k < i
      ensures es[k].0 != es[i].0
    {
      assert all[k].path == es[k].0 && all[i].path == es[i].0;
    }
  }

  lemma WriteConflictsAreReal(r: Run, w: Write, req: Request)
    requires AllReal(req, r.conflicts) && w in req.writes
    ensures AllReal(req, WriteStep(r, w).conflicts)
  {
    var i :| 0 <= i < |req.writes| && req.writes[i] == w;
    assert Expectations(req)[i] == (w.path, w.expected);
  }

  lemma DeleteConflictsAreReal(r: Run, d: Deletion, req: Request)
    requires AllReal(req, r.conflicts) && d in req.deletes
    ensures AllReal(req, DeleteStep(r, d).conflicts)
  {
    var i :| 0 <= i < |req.deletes| && req.deletes[i] == d;
    assert Expectations(req)[|req.writes| + i] == (d.path, Some(d.version));
  }

  lemma {:induction false} WritesRealConflicts(r: Run, writes: seq<Write>, req: Request)
    requires AllReal(req, r.conflicts) && forall w | w in writes :: w in req.writes
    ensures AllReal(req, WriteRun(r, writes).conflicts)
    decreases |writes|
  {
    if writes == [] {
    } else {
      assert writes[0] in writes;
      WriteConflictsAreReal(r, writes[0], req);
      WritesRealConflicts(WriteStep(r, writes[0]), writes[1..], req);
    }
  }

  lemma {:induction false} DeletesRealConflicts(r: Run, deletes: seq<Deletion>, req: Request)
    requires AllReal(req, r.conflicts) && forall d | d in deletes :: d in req.deletes
    ensures AllReal(req, DeleteRun(r, deletes).conflicts)
    decreases |deletes|
  {
    if deletes == [] {
    } else {
      assert deletes[0] in deletes;
      DeleteConflictsAreReal(r, deletes[0], req);
      DeletesRealConflicts(DeleteStep(r, deletes[0]), deletes[1..], req);
    }
  }

  lemma {:induction false} MkdirNoConflicts(r: Run, t: Tree, ds: seq<Path>)
    ensures MkdirRun(r, t, ds).conflicts == r.conflicts
    decreases |ds|
  {
    if ds == [] {
    } else {
      MkdirNoConflicts(MkdirStep(r, t, ds[0]), t, ds[1..]);
    }
  }

  lemma {:induction false} PruneNoConflicts(r: Run, ds: seq<Path>)
    ensures PruneRun(r, ds).conflicts == r.conflicts
    decreases |ds|
  {
    if ds == [] {
    } else {
      PruneNoConflicts(PruneStep(r, ds[0]), ds[1..]);
    }
  }

  /** Among any other writers and failures, every conflict the loops report is real. */
  lemma ConflictsAreReal(w: World, t: Tree, req: Request)
    ensures AllReal(req, ApplyRun(w, t, req).conflicts)
  {
    var made := MkdirRun(Run(w, [], [], [], [], [], []), t, Sorted(req.directories));
    var wrote := WriteRun(made, req.writes);
    var deleted := DeleteRun(wrote, req.deletes);
    MkdirNoConflicts(Run(w, [], [], [], [], [], []), t, Sorted(req.directories));
    WritesRealConflicts(made, req.writes, req);
    DeletesRealConflicts(wrote, req.deletes, req);
    PruneNoConflicts(deleted, DeepestFirst(req.deleteDirectories));
  }

  /** The four loops, on the vault itself. */
  method ApplyLoops(host: Host, t: Tree, req: Request) returns (ghost run: Run, result: ApplyResult)
    modifies host
    ensures run == ApplyRun(old(host.Now()), t, req)
    ensures host.Now() == run.world && result == ResultOf(run)
  {
    var written: seq<Entry> := [];
    var deleted: seq<Path>, created: seq<Path>, pruned: seq<Path>, errors: seq<Path> := [], [], [], [];
    var conflicts: seq<VersionConflict> := [];
    ghost var start := Run(host.Now(), written, deleted, created, pruned, conflicts, errors);
    var makes := Sorted(req.directories);
    for i := 0 to |makes|
      invariant MkdirRun(start, t, makes) ==
                MkdirRun(Run(host.Now(), written, deleted, created, pruned, conflicts, errors), t, makes[i..])
    {
      var d := makes[i];
      if d !in t.dirs {
        var reply := host.Mkdir(d);
        if reply.Done? { created := created + [d]; } else { errors := errors + [d]; }
      }
    }
    ghost var made := Run(host.Now(), written, deleted, created, pruned, conflicts, errors);
    for i := 0 to |req.writes|
      invariant WriteRun(made, req.writes) ==
                WriteRun(Run(host.Now(), written, deleted, created, pruned, conflicts, errors), req.writes[i..])
    {
      var w := req.writes[i];
      var reply := host.Write(w.path, w.content, w.expected);
      if reply.Conflict? {
        conflicts := conflicts + [VersionConflict(w.path, w.expected, reply.current)];
      } else if reply.Done? {
        var refreshed := host.Read(w.path);
        if refreshed.Found? { written := written + [Entry(w.path, refreshed.content)]; }
        else { errors := errors + [w.path]; }
      } else {
        errors := errors + [w.path];
      }
    }
    ghost var wrote := Run(host.Now(), written, deleted, created, pruned, conflicts, errors);
    for i := 0 to |req.deletes|
      invariant DeleteRun(wrote, req.deletes) ==
                DeleteRun(Run(host.Now(), written, deleted, created, pruned, conflicts, errors), req.deletes[i..])
    {
      var d := req.deletes[i];
      var current := host.Read(d.path);
      if current.Unreadable? {
        errors := errors + [d.path];
      } else if current != Found(d.version) {
        var found := if current.Found? then Some(current.content) else None;
        conflicts := conflicts + [VersionConflict(d.path, Some(d.version), found)];
      } else {
        var reply := host.Remove(d.path);
        if reply.Done? { deleted := deleted + [d.path]; } else { errors := errors + [d.path]; }
      }
    }
    ghost var gone := Run(host.Now(), written, deleted, created, pruned, conflicts, errors);
    var order := DeepestFirst(req.deleteDirectories);
    for i := 0 to |order|
      invariant PruneRun(gone, order) ==
                PruneRun(Run(host.Now(), written, deleted, created, pruned, conflicts, errors), order[i..])
    {
      var reply := host.Remove(order[i]);
      if reply.Done? {
        pruned := pruned + [order[i]];
      } else if !reply.Missing? {
        errors := errors + [order[i]];
      }
    }
    run := Run(host.Now(), written, deleted, created, pruned, conflicts, errors);
    var count := |written| + |deleted| + |created| + |pruned|;
    var outcome := if |errors| > 0 || (|conflicts| > 0 && count > 0) then PartlyApplied
                   else if |conflicts| > 0 then Conflicted
                   else Applied;
    result := ApplyResult(outcome, written, deleted, created, pruned, conflicts, errors);
  }

  function NothingApplied(outcome: Outcome, conflicts: seq<VersionConflict>): ApplyResult {
    ApplyResult(outcome, [], [], [], [], conflicts, [])
  }

  /** Every version the request names, compared with an undisturbed vault. */
  ghost predicate VersionsMatch(t: Tree, req: Request) {
    && (forall w | w in req.writes :: t.Version(w.path) == w.expected)
    && (forall d | d in req.deletes :: t.Version(d.path) == Some(d.version))
  }

  /** Every file the request names can be read, or is absent. */
  ghost predicate Readable(t: Tree, req: Request) {
    forall e | e in Expectations(req) :: ReadTree(t, e.0) != HostFiles.Unreadable
  }

  predicate AllVaultPaths(t: Tree) {
    forall p | p in t.Paths() :: VaultPath(p)
  }

  lemma ExpectationsMatch(t: Tree, req: Request)
    ensures VersionsMatch(t, req) <==> forall e | e in Expectations(req) :: t.Version(e.0) == e.1
  {
    var es := Expectations(req);
    forall w | w in req.writes
      ensures (w.path, w.expected) in es
    {
      var i :| 0 <= i < |req.writes| && req.writes[i] == w;
      assert es[i] == (w.path, w.expected);
    }
    forall d | d in req.deletes
      ensures (d.path, Some(d.version)) in es
    {
      var i :| 0 <= i < |req.deletes| && req.deletes[i] == d;
      assert es[|req.writes| + i] == (d.path, Some(d.version));
    }
  }

  lemma MatchIsNoConflict(t: Tree, req: Request)
    ensures VersionsMatch(t, req) <==> forall c :: !(RealConflict(req, c) && c.current == t.Version(c.path))
  {
    ExpectationsMatch(t, req);
    if e :| e in Expectations(req) && t.Version(e.0) != e.1 {
      assert RealConflict(req, VersionConflict(e.0, e.1, t.Version(e.0)));
    }
  }

  lemma EmptyOrNot<T(!new)>(s: seq<T>)
    ensures s == [] || exists x :: x in s
  {
    if s != [] { assert s[0] in s; }
  }

  method SyncApply(host: Host, req: Request) returns (r: Result<ApplyResult, ApplyError>, ghost entries: seq<TreeEntry>)
    modifies host
    // an error or a dry run changes nothing of the vault
    ensures r.Err? || req.dryRun ==> OnlyRead(old(host.Now()), host.Now())
    ensures r.Ok? && req.dryRun ==> r.value == NothingApplied(r.value.outcome, r.value.conflicts)
    // which requests are refused
    ensures r.Ok? ==> req.ValidPaths() && ValidEntries(RequestEntries(req))
    ensures Alone(old(host.Now())) && r.Ok? ==>
              IsListing(entries, old(host.tree)) && Accepted(entries, old(host.tree), req)
    ensures old(host.turns) == [] && req.ValidPaths() && AllVaultPaths(old(host.tree)) ==>
              && IsListing(entries, old(host.tree))
              && (r.Ok? <==> Accepted(entries, old(host.tree), req) && Readable(old(host.tree), req))
              && (r.Err? ==> if Accepted(entries, old(host.tree), req) then r.error.UnreadableFile?
                             else Refuses(r.error, entries, old(host.tree), req))
    ensures r == Err(InvalidPath) ==> !req.ValidPaths() || (Alone(old(host.Now())) ==> !AllVaultPaths(old(host.tree)))
    ensures old(host.turns) == [] && !(req.ValidPaths() && AllVaultPaths(old(host.tree))) ==> r == Err(InvalidPath)
    // accepted requests run the loops exactly when every version matches
    ensures Alone(old(host.Now())) && r.Ok? && !VersionsMatch(old(host.tree), req) ==>
              && r.value.outcome.Conflicted? && OnlyRead(old(host.Now()), host.Now())
              && PathsOnce(r.value.conflicts)
              && forall c :: c in r.value.conflicts <==>
                   RealConflict(req, c) && c.current == old(host.tree).Version(c.path)
    ensures r.Ok? ==> AllReal(req, r.value.conflicts)
    ensures old(host.turns) == [] && r.Ok? && !req.dryRun && VersionsMatch(old(host.tree), req) ==>
              var run := ApplyRun(old(host.Now()), old(host.tree), req);
              host.Now() == run.world && r.value == ResultOf(run)
    // disturbed or not: either nothing was done, or the loops ran on what the vault had become
    ensures r.Ok? ==>
              || (OnlyRead(old(host.Now()), host.Now()) && (req.dryRun || r.value.outcome.Conflicted?) &&
                     r.value == NothingApplied(r.value.outcome, r.value.conflicts))
              || exists w: World, t: Tree :: w.log == old(host.log) && SameAlone(old(host.Now()), w) &&
                   (Alone(old(host.Now())) ==> t == w.tree) &&
                   host.Now() == ApplyRun(w, t, req).world && r.value == ResultOf(ApplyRun(w, t, req))
    ensures r.Ok? ==> (r.value.outcome.Applied? <==> r.value.conflicts == [] && r.value.errors == [])
  {
    entries := [];
    if !req.ValidPaths() { return Err(InvalidPath), entries; }
    var listing := host.List();
    if listing.None? { return Err(ApplyError.Unlisted), entries; }
    if !AllVaultPaths(listing.value) { return Err(InvalidPath), entries; }
    var error, listed := CheckRequest(listing.value, req);
    entries := listed;
    if error.Some? { return Err(error.value), entries; }
    var preflight := Preflight(host, req);
    if preflight.Err? { return Err(preflight.error), entries; }
    MatchIsNoConflict(old(host.tree), req);
    EmptyOrNot(preflight.value);
    if preflight.value != [] {
      return Ok(NothingApplied(Conflicted, preflight.value)), entries;
    }
    if req.dryRun {
      return Ok(NothingApplied(Applied, [])), entries;
    }
    ghost var before := host.Now();
    ConflictsAreReal(before, listing.value, req);
    var run, result := ApplyLoops(host, listing.value, req);
    assert before.log == old(host.log) && run == ApplyRun(before, listing.value, req);
    return Ok(result), entries;
  }
}
