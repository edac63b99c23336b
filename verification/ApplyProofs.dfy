/** What `sync/apply` guarantees: nothing overwritten unseen, every mutation accounted for, and exactly the
    validated tree when nobody interferes. */
module ApplyProofs {
  import opened Basics
  import opened Paths
  import opened HostFiles
  import opened Manifest
  import opened Steps
  import opened Apply

  // ---- no lost update, under any interleaving with other writers and failures ----

  /** A write effect is one of the requested writes, and the version it replaced is the one it named. */
  ghost predicate Guarded(req: Request, e: Effect) {
    e.Replaced? ==>
        e.before == e.expected && exists w :: w in req.writes && w.path == e.path && w.expected == e.expected
  }

  /** A removal is a requested file delete or a requested directory delete, and nothing else goes. */
  ghost predicate Requested(req: Request, e: Effect) {
    e.Removed? ==> e.path in DeletePaths(req.deletes) || e.path in req.deleteDirectories
  }

  ghost predicate LogKeeps(from: seq<Effect>, to: seq<Effect>, req: Request) {
    && from <= to
    && forall i | |from| <= i < |to| :: Guarded(req, to[i]) && Requested(req, to[i])
  }

  lemma LogKeepsTrans(a: seq<Effect>, b: seq<Effect>, c: seq<Effect>, req: Request)
    requires LogKeeps(a, b, req) && LogKeeps(b, c, req)
    ensures LogKeeps(a, c, req)
  {
    assert forall i | |a| <= i < |b| :: c[i] == b[i];
  }

  lemma {:induction false} MkdirLog(r: Run, t: Tree, ds: seq<Path>)
    ensures MkdirRun(r, t, ds).world.log == r.world.log
    decreases |ds|
  {
    if ds != [] { MkdirLog(MkdirStep(r, t, ds[0]), t, ds[1..]); }
  }

  lemma {:induction false} WriteLog(r: Run, writes: seq<Write>, req: Request)
    requires forall w | w in writes :: w in req.writes
    ensures LogKeeps(r.world.log, WriteRun(r, writes).world.log, req)
    decreases |writes|
  {
    if writes == [] {
    } else {
      assert writes[0] in writes;
      var r1 := WriteStep(r, writes[0]);
      assert LogKeeps(r.world.log, r1.world.log, req);
      WriteLog(r1, writes[1..], req);
      LogKeepsTrans(r.world.log, r1.world.log, WriteRun(r, writes).world.log, req);
    }
  }

  lemma {:induction false} DeleteLog(r: Run, deletes: seq<Deletion>, req: Request)
    requires forall d | d in deletes :: d in req.deletes
    ensures LogKeeps(r.world.log, DeleteRun(r, deletes).world.log, req)
    decreases |deletes|
  {
    if deletes == [] {
    } else {
      assert deletes[0] in deletes;
      var r1 := DeleteStep(r, deletes[0]);
      assert LogKeeps(r.world.log, r1.world.log, req);
      DeleteLog(r1, deletes[1..], req);
      LogKeepsTrans(r.world.log, r1.world.log, DeleteRun(r, deletes).world.log, req);
    }
  }

  lemma {:induction false} PruneLog(r: Run, ds: seq<Path>, req: Request)
    requires forall d | d in ds :: d in req.deleteDirectories
    ensures LogKeeps(r.world.log, PruneRun(r, ds).world.log, req)
    decreases |ds|
  {
    if ds == [] {
    } else {
      assert ds[0] in ds;
      var r1 := PruneStep(r, ds[0]);
      assert LogKeeps(r.world.log, r1.world.log, req);
      PruneLog(r1, ds[1..], req);
      LogKeepsTrans(r.world.log, r1.world.log, PruneRun(r, ds).world.log, req);
    }
  }

  /** Whatever other writers do between any two calls, each write replaces exactly the version it named. */
  lemma NoLostUpdate(w: World, t: Tree, req: Request)
    ensures LogKeeps(w.log, ApplyRun(w, t, req).world.log, req)
  {
    var made := MkdirRun(Run(w, [], [], [], [], [], []), t, Sorted(req.directories));
    var wrote := WriteRun(made, req.writes);
    var deleted := DeleteRun(wrote, req.deletes);
    MkdirLog(Run(w, [], [], [], [], [], []), t, Sorted(req.directories));
    WriteLog(made, req.writes, req);
    DeleteLog(wrote, req.deletes, req);
    PruneLog(deleted, DeepestFirst(req.deleteDirectories), req);
    LogKeepsTrans(w.log, wrote.world.log, deleted.world.log, req);
    LogKeepsTrans(w.log, deleted.world.log, ApplyRun(w, t, req).world.log, req);
  }

  /** A file delete re-reads, then removes. What it removes is the version it named exactly when no other writer
      changed that file in between. */
  lemma DeleteTakesNamedVersion(r: Run, d: Deletion)
    requires DeleteStep(r, d).deleted != r.deleted
    ensures var between := Tick(ReadCall(r.world, d.path).world).tree;
            && |DeleteStep(r, d).world.log| == |r.world.log| + 1
            && (DeleteStep(r, d).world.log[|r.world.log|] == Removed(d.path, Some(d.version)) <==>
                between.Version(d.path) == Some(d.version))
  {}

  /** What other writers have made of a file between the re-read and the removal. */
  function Between(r: Run, d: Deletion): Option<Content> {
    Tick(ReadCall(r.world, d.path).world).tree.Version(d.path)
  }

  /** At every delete that takes effect, the file is still as it was re-read. */
  ghost predicate NothingSlipsIn(r: Run, deletes: seq<Deletion>)
    decreases |deletes|
  {
    deletes == [] ||
    (var d := deletes[0];
     && (DeleteStep(r, d).world.log != r.world.log ==> Between(r, d) == Some(d.version))
     && NothingSlipsIn(DeleteStep(r, d), deletes[1..]))
  }

  ghost predicate Named(deletes: seq<Deletion>, e: Effect) {
    exists d :: d in deletes && e == Removed(d.path, Some(d.version))
  }

  ghost predicate AllNamed(deletes: seq<Deletion>, from: seq<Effect>, to: seq<Effect>) {
    from <= to && forall i | |from| <= i < |to| :: Named(deletes, to[i])
  }

  lemma DeleteStepEffect(r: Run, d: Deletion)
    ensures var log := DeleteStep(r, d).world.log;
            log == r.world.log || log == r.world.log + [Removed(d.path, Between(r, d))]
  {}

  /** Over a whole loop of file deletes, among any other writers and failures: every version removed is one that was
      named, if and only if nothing slips in between a re-read and its removal. */
  lemma {:induction false} DeletesTakeNamedVersionsExactly(r: Run, deletes: seq<Deletion>)
    requires forall i, j | 0 <= i < j < |deletes| :: deletes[i].path != deletes[j].path
    ensures AllNamed(deletes, r.world.log, DeleteRun(r, deletes).world.log) <==> NothingSlipsIn(r, deletes)
    decreases |deletes|
  {
    if deletes == [] {
    } else {
      var d, r1, end := deletes[0], DeleteStep(r, deletes[0]), DeleteRun(r, deletes).world.log;
      DeleteStepEffect(r, d);
      DeletesTakeNamedVersionsExactly(r1, deletes[1..]);
      RemovedAreListed(r1, deletes[1..]);
      assert r1.world.log != r.world.log ==> end[|r.world.log|] == Removed(d.path, Between(r, d));
      NamedFirst(deletes, Removed(d.path, Between(r, d)));
      forall i | |r1.world.log| <= i < |end|
        ensures Named(deletes, end[i]) <==> Named(deletes[1..], end[i])
      {
        NamedRest(deletes, end[i]);
      }
    }
  }

  lemma {:induction false} RemovedAreListed(r: Run, deletes: seq<Deletion>)
    ensures var end := DeleteRun(r, deletes).world.log;
            && r.world.log <= end
            && forall i | |r.world.log| <= i < |end| :: end[i].Removed? && end[i].path in DeletePaths(deletes)
    decreases |deletes|
  {
    if deletes == [] {
    } else {
      DeleteStepEffect(r, deletes[0]);
      RemovedAreListed(DeleteStep(r, deletes[0]), deletes[1..]);
      assert deletes[0] in deletes;
    }
  }

  lemma NamedFirst(deletes: seq<Deletion>, e: Effect)
    requires deletes != [] && e.Removed? && e.path == deletes[0].path
    requires forall i, j | 0 <= i < j < |deletes| :: deletes[i].path != deletes[j].path
    ensures Named(deletes, e) <==> e.before == Some(deletes[0].version)
  {
    assert deletes[0] in deletes;
  }

  lemma NamedRest(deletes: seq<Deletion>, e: Effect)
    requires deletes != [] && e.Removed? && e.path in DeletePaths(deletes[1..])
    requires forall i, j | 0 <= i < j < |deletes| :: deletes[i].path != deletes[j].path
    ensures Named(deletes, e) <==> Named(deletes[1..], e)
  {
    var d :| d in deletes[1..] && d.path == e.path;
    assert d != deletes[0] && forall x :: x in deletes <==> x == deletes[0] || x in deletes[1..];
  }

  /** Without other writers nothing slips in, whatever fails. */
  lemma {:induction false} NobodySlipsIn(r: Run, deletes: seq<Deletion>)
    requires Alone(r.world)
    ensures NothingSlipsIn(r, deletes)
    decreases |deletes|
  {
    if deletes == [] {
    } else {
      assert Alone(Tick(r.world)) && Alone(Tick(Tick(r.world)));
      NobodySlipsIn(DeleteStep(r, deletes[0]), deletes[1..]);
    }
  }

  /** The re-read and the removal are separate calls, so a write in between is lost. */
  lemma DeleteCanLoseAnUpdate()
    ensures var before, raced := Tree(map[["a"] := "old"], {}), Tree(map[["a"] := "new"], {});
            var w := World(before, [Turn(None, Fine), Turn(Some(raced), Fine)], []);
            var r := DeleteStep(Run(w, [], [], [], [], [], []), Deletion(["a"], "old"));
            r.deleted == [["a"]] && r.conflicts == [] && r.world.log == [Removed(["a"], Some("new"))]
  {
    var before, raced := Tree(map[["a"] := "old"], {}), Tree(map[["a"] := "new"], {});
    var w := World(before, [Turn(None, Fine), Turn(Some(raced), Fine)], []);
    var current := ReadCall(w, ["a"]);
    assert current.reply == Found("old") by {
      assert !before.BeneathFile(["a"]);
    }
    assert !raced.BeneathFile(["a"]);
    assert RemoveCall(current.world, ["a"]).reply == Done;
  }

  // ---- every requested mutation ends in exactly one list ----

  function EntryPathsOf(es: seq<Entry>): seq<Path> { seq(|es|, i requires 0 <= i < |es| => es[i].path) }

  function ConflictPathsOf(cs: seq<VersionConflict>): seq<Path> { seq(|cs|, i requires 0 <= i < |cs| => cs[i].path) }

  /** How often p is reported as written, deleted, in conflict or in error. */
  function Reported(r: ApplyResult, p: Path): nat {
    multiset(EntryPathsOf(r.written))[p] + multiset(r.deleted)[p] + multiset(ConflictPathsOf(r.conflicts))[p] +
        multiset(r.errors)[p]
  }

  function Tally(r: Run, p: Path): nat { Reported(ResultOf(r), p) }

  /** Either nothing was done because of conflicts, or each requested write and file delete is reported exactly once. */
  ghost predicate Accounted(r: ApplyResult, req: Request) {
    || (r.outcome.Conflicted? && r == NothingApplied(Conflicted, r.conflicts))
    || forall p | p in WritePaths(req.writes) || p in DeletePaths(req.deletes) :: Reported(r, p) == 1
  }

  lemma TallyOneMore(r: Run, r': Run, q: Path, p: Path)
    requires
      || (exists c :: r'.written == r.written + [Entry(q, c)] && r'.deleted == r.deleted &&
             r'.conflicts == r.conflicts && r'.errors == r.errors)
      || (r'.written == r.written && r'.deleted == r.deleted + [q] && r'.conflicts == r.conflicts &&
             r'.errors == r.errors)
      || (exists e, c :: r'.written == r.written && r'.deleted == r.deleted &&
             r'.conflicts == r.conflicts + [VersionConflict(q, e, c)] && r'.errors == r.errors)
      || (r'.written == r.written && r'.deleted == r.deleted && r'.conflicts == r.conflicts &&
             r'.errors == r.errors + [q])
    ensures Tally(r', p) == Tally(r, p) + if p == q then 1 else 0
  {
    if c :| r'.written == r.written + [Entry(q, c)] {
      assert EntryPathsOf(r'.written) == EntryPathsOf(r.written) + [q];
    }
    if e, c :| r'.conflicts == r.conflicts + [VersionConflict(q, e, c)] {
      assert ConflictPathsOf(r'.conflicts) == ConflictPathsOf(r.conflicts) + [q];
    }
  }

  lemma CountFirst(s: seq<Path>, first: Path, rest: seq<Path>, p: Path)
    requires |s| == 1 + |rest| && s[0] == first && forall i | 0 <= i < |rest| :: s[i + 1] == rest[i]
    ensures multiset(s)[p] == multiset(rest)[p] + if p == first then 1 else 0
  {
    assert s == [first] + rest;
  }

  lemma WriteStepTally(r: Run, w: Write, p: Path)
    ensures Tally(WriteStep(r, w), p) == Tally(r, p) + if p == w.path then 1 else 0
  {
    TallyOneMore(r, WriteStep(r, w), w.path, p);
  }

  lemma DeleteStepTally(r: Run, d: Deletion, p: Path)
    ensures Tally(DeleteStep(r, d), p) == Tally(r, p) + if p == d.path then 1 else 0
  {
    TallyOneMore(r, DeleteStep(r, d), d.path, p);
  }

  lemma {:induction false} WriteTally(r: Run, writes: seq<Write>, p: Path)
    ensures Tally(WriteRun(r, writes), p) == Tally(r, p) + multiset(PathsOfWrites(writes))[p]
    decreases |writes|
  {
    if writes == [] {
    } else {
      WriteStepTally(r, writes[0], p);
      WriteTally(WriteStep(r, writes[0]), writes[1..], p);
      CountFirst(PathsOfWrites(writes), writes[0].path, PathsOfWrites(writes[1..]), p);
    }
  }

  lemma {:induction false} DeleteTally(r: Run, deletes: seq<Deletion>, p: Path)
    ensures Tally(DeleteRun(r, deletes), p) == Tally(r, p) + multiset(PathsOfDeletes(deletes))[p]
    decreases |deletes|
  {
    if deletes == [] {
    } else {
      DeleteStepTally(r, deletes[0], p);
      DeleteTally(DeleteStep(r, deletes[0]), deletes[1..], p);
      CountFirst(PathsOfDeletes(deletes), deletes[0].path, PathsOfDeletes(deletes[1..]), p);
    }
  }

  lemma {:induction false} MkdirTally(r: Run, t: Tree, ds: seq<Path>, p: Path)
    requires p !in ds
    ensures Tally(MkdirRun(r, t, ds), p) == Tally(r, p)
    decreases |ds|
  {
    if ds == [] {
    } else {
      assert ds[0] in ds;
      MkdirTally(MkdirStep(r, t, ds[0]), t, ds[1..], p);
    }
  }

  lemma {:induction false} PruneTally(r: Run, ds: seq<Path>, p: Path)
    requires p !in ds
    ensures Tally(PruneRun(r, ds), p) == Tally(r, p)
    decreases |ds|
  {
    if ds == [] {
    } else {
      assert ds[0] in ds;
      PruneTally(PruneStep(r, ds[0]), ds[1..], p);
    }
  }

  /** Under any interleaving, each requested write and file delete is reported exactly once. */
  lemma EachMutationOnce(w: World, t: Tree, req: Request, p: Path)
    requires ValidEntries(RequestEntries(req))
    requires p in WritePaths(req.writes) || p in DeletePaths(req.deletes)
    ensures Tally(ApplyRun(w, t, req), p) == 1
  {
    var start := Run(w, [], [], [], [], [], []);
    var made := MkdirRun(start, t, Sorted(req.directories));
    var wrote := WriteRun(made, req.writes);
    var deleted := DeleteRun(wrote, req.deletes);
    ValidIsSound(RequestEntries(req));
    RequestEntryKinds(req, TreeEntry(p, true));
    RequestEntryKinds(req, TreeEntry(p, false));
    assert p !in req.directories && p !in req.deleteDirectories;
    MkdirTally(start, t, Sorted(req.directories), p);
    WriteTally(made, req.writes, p);
    DeleteTally(wrote, req.deletes, p);
    PruneTally(deleted, DeepestFirst(req.deleteDirectories), p);
    RequestedOnce(req, p);
  }

  lemma RequestedOnce(req: Request, p: Path)
    requires ValidEntries(RequestEntries(req))
    requires p in WritePaths(req.writes) || p in DeletePaths(req.deletes)
    ensures multiset(PathsOfWrites(req.writes))[p] + multiset(PathsOfDeletes(req.deletes))[p] == 1
  {
    var a, b := PathsOfWrites(req.writes), PathsOfDeletes(req.deletes);
    var ab := a + b;
    var es := RequestEntries(req);
    forall i, j | 0 <= i < j < |ab|
      ensures ab[i] != ab[j]
    {
      assert es[i].path == ab[i] && es[j].path == ab[j];
      assert Fold(es[i].path) != Fold(es[j].path);
    }
    assert multiset(ab) == multiset(a) + multiset(b);
    assert p in ab by {
      if w :| w in req.writes && w.path == p {
        var i :| 0 <= i < |req.writes| && req.writes[i] == w;
        assert ab[i] == p;
      } else {
        var d :| d in req.deletes && d.path == p;
        var i :| 0 <= i < |req.deletes| && req.deletes[i] == d;
        assert ab[|a| + i] == p;
      }
    }
    DistinctCount(ab, p);
  }

  lemma {:induction false} DistinctCount(s: seq<Path>, p: Path)
    requires Distinct(s) && p in s
    ensures multiset(s)[p] == 1
  {
    assert s == [s[0]] + s[1..];
    if p == s[0] {
      assert p !in s[1..];
    } else {
      DistinctCount(s[1..], p);
    }
  }

  // ---- an undisturbed apply produces exactly the validated tree ----

  /** The checks in terms of exact paths: what each kind of requested path cannot meet. */
  lemma AcceptedFacts(t: Tree, entries: seq<TreeEntry>, req: Request)
    requires IsListing(entries, t) && Accepted(entries, t, req)
    ensures forall d | d in req.directories && d !in t.dirs :: !MakeBlocked(t, d)
    ensures forall w | w in req.writes :: w.path !in t.dirs && !t.BeneathFile(w.path) && w.path !in req.directories
    ensures forall w, d | w in req.writes && d in req.directories :: !(w.path < d)
    ensures forall w, x | w in req.writes && x in req.writes :: !(w.path < x.path)
    ensures WritePaths(req.writes) !! DeletePaths(req.deletes)
    ensures forall d | d in req.deleteDirectories :: d !in WritePaths(req.writes) && d !in DeletePaths(req.deletes)
  {
    var future := FutureEntries(entries, t, req);
    ValidIsSound(RequestEntries(req));
    ValidIsSound(future);
    forall e
      ensures e in RequestEntries(req) <==>
              if e.isFile then e.path in WritePaths(req.writes) || e.path in DeletePaths(req.deletes)
              else e.path in req.directories || e.path in req.deleteDirectories
      ensures e in future <==>
              || (e in entries && Stays(e, req))
              || (if e.isFile then e.path in WritePaths(req.writes) else e.path in req.directories && e.path !in t.dirs)
    {
      RequestEntryKinds(req, e);
      FutureEntryKinds(entries, t, req, e);
    }
    forall q, p | q in t.files && (p in WritePaths(req.writes) || (p in req.directories && p !in t.dirs))
      ensures !(q < p)
    {
      SoundPair(RequestEntries(req), future, t, entries, req, q, p);
    }
    forall d | d in req.directories && d !in t.dirs
      ensures d !in t.files
    {
      assert TreeEntry(d, false) in RequestEntries(req) && TreeEntry(d, false) in future;
      assert TreeEntry(d, true) !in RequestEntries(req) && TreeEntry(d, true) !in future;
      assert d in t.files ==> TreeEntry(d, true) in entries;
    }
    forall w | w in req.writes
      ensures w.path !in t.dirs && w.path !in req.directories
    {
      assert TreeEntry(w.path, true) in RequestEntries(req) && TreeEntry(w.path, true) in future;
      assert TreeEntry(w.path, false) !in RequestEntries(req) && TreeEntry(w.path, false) !in future;
      assert w.path in t.dirs ==> TreeEntry(w.path, false) in entries;
    }
    forall w, d | w in req.writes && d in req.directories
      ensures !(w.path < d)
    {
      assert TreeEntry(w.path, true) in RequestEntries(req) && TreeEntry(d, false) in RequestEntries(req);
    }
    forall w, x | w in req.writes && x in req.writes
      ensures !(w.path < x.path)
    {
      assert TreeEntry(w.path, true) in RequestEntries(req) && TreeEntry(x.path, true) in RequestEntries(req);
    }
    forall d | d in req.deleteDirectories
      ensures d !in WritePaths(req.writes) && d !in DeletePaths(req.deletes)
    {
      assert TreeEntry(d, false) in RequestEntries(req);
      assert TreeEntry(d, true) !in RequestEntries(req);
    }
    assert WritePaths(req.writes) !! DeletePaths(req.deletes) by {
      forall p | p in WritePaths(req.writes)
        ensures p !in DeletePaths(req.deletes)
      {
        if p in DeletePaths(req.deletes) {
          RequestedOnce(req, p);
          TwiceRequested(req, p);
        }
      }
    }
  }

  lemma TwiceRequested(req: Request, p: Path)
    requires p in WritePaths(req.writes) && p in DeletePaths(req.deletes)
    ensures multiset(PathsOfWrites(req.writes))[p] + multiset(PathsOfDeletes(req.deletes))[p] >= 2
  {
    var w :| w in req.writes && w.path == p;
    var i :| 0 <= i < |req.writes| && req.writes[i] == w;
    assert PathsOfWrites(req.writes)[i] == p;
    var d :| d in req.deletes && d.path == p;
    var j :| 0 <= j < |req.deletes| && req.deletes[j] == d;
    assert PathsOfDeletes(req.deletes)[j] == p;
  }

  /** A current file above something new would show up in the request or in the resulting tree. */
  lemma SoundPair(request: seq<TreeEntry>, future: seq<TreeEntry>, t: Tree, entries: seq<TreeEntry>, req: Request,
                  q: Path, p: Path)
    requires request == RequestEntries(req) && future == FutureEntries(entries, t, req)
    requires IsListing(entries, t) && Sound(request) && Sound(future)
    requires q in t.files && (p in WritePaths(req.writes) || (p in req.directories && p !in t.dirs))
    ensures !(q < p)
  {
    var file, added := TreeEntry(q, true), TreeEntry(p, p in WritePaths(req.writes));
    RequestEntryKinds(req, file);
    RequestEntryKinds(req, added);
    FutureEntryKinds(entries, t, req, file);
    FutureEntryKinds(entries, t, req, added);
    assert file in entries;
    assert file in request || file in future;
  }

  // Collecting runs that meet no obstacle do what replaying the steps does.

  lemma {:induction false} QuietMkdirs(r: Run, t: Tree, ds: seq<Path>)
    requires r.world.turns == [] && Replay(r.world.tree, MakeSteps(NewDirectories(ds, t))).ok
    ensures var r' := MkdirRun(r, t, ds);
            && r'.world.tree == Replay(r.world.tree, MakeSteps(NewDirectories(ds, t))).tree && r'.world.turns == []
            && r'.conflicts == r.conflicts && r'.errors == r.errors
    decreases |ds|
  {
    if ds == [] {
    } else {
      var added := NewDirectories(ds, t);
      if ds[0] !in t.dirs {
        assert MakeSteps(added)[1..] == MakeSteps(NewDirectories(ds[1..], t));
      } else {
        assert added == NewDirectories(ds[1..], t);
      }
      QuietMkdirs(MkdirStep(r, t, ds[0]), t, ds[1..]);
    }
  }

  lemma {:induction false} QuietWrites(r: Run, writes: seq<Write>)
    requires r.world.turns == [] && Replay(r.world.tree, PutSteps(writes)).ok
    ensures var r' := WriteRun(r, writes);
            && r'.world.tree == Replay(r.world.tree, PutSteps(writes)).tree && r'.world.turns == []
            && r'.conflicts == r.conflicts && r'.errors == r.errors
    decreases |writes|
  {
    if writes == [] {
    } else {
      var t, w := r.world.tree, writes[0];
      assert PutSteps(writes)[1..] == PutSteps(writes[1..]);
      var t1 := TreeStep(t, Put(w)).tree;
      assert !t1.BeneathFile(w.path) by {
        assert forall q | q in t1.files :: q in t.files || q == w.path;
      }
      assert ReadTree(t1, w.path) == Found(w.content);
      QuietWrites(WriteStep(r, w), writes[1..]);
    }
  }

  lemma {:induction false} QuietDeletes(r: Run, deletes: seq<Deletion>)
    requires r.world.turns == [] && Replay(r.world.tree, DropSteps(deletes)).ok
    ensures var r' := DeleteRun(r, deletes);
            && r'.world.tree == Replay(r.world.tree, DropSteps(deletes)).tree && r'.world.turns == []
            && r'.conflicts == r.conflicts && r'.errors == r.errors
    decreases |deletes|
  {
    if deletes == [] {
    } else {
      assert DropSteps(deletes)[1..] == DropSteps(deletes[1..]);
      QuietDeletes(DeleteStep(r, deletes[0]), deletes[1..]);
    }
  }

  ghost predicate OnlyListedBeneath(t: Tree, S: set<Path>, d: Path) {
    d in t.dirs ==> forall e :: e in t.Paths() && d < e ==> e in S
  }

  /** Removing directories deepest first takes exactly the listed paths, and errs exactly on those beneath a file. */
  lemma {:induction false} QuietPrunes(r: Run, ds: seq<Path>)
    requires r.world.turns == [] && r.world.tree.Valid() && DeepestFirstOrder(ds)
    requires forall d | d in ds :: OnlyListedBeneath(r.world.tree, ToSet(ds), d)
    ensures var r' := PruneRun(r, ds);
            && r'.world.tree == Without(r.world.tree, ToSet(ds)) && r'.world.turns == []
            && r'.conflicts == r.conflicts
            && (r'.errors == r.errors <==> forall d | d in ds :: !r.world.tree.BeneathFile(d))
            && r.errors <= r'.errors
    decreases |ds|
  {
    var t := r.world.tree;
    if ds == [] {
      assert Without(t, ToSet(ds)) == t;
    } else {
      var d0, rest, r1 := ds[0], ds[1..], PruneStep(r, ds[0]);
      assert ToSet(ds) == {d0} + ToSet(rest);
      FirstQuietPrune(r, ds);
      QuietPrunes(r1, rest);
      assert Without(Without(t, {d0}), ToSet(rest)) == Without(t, ToSet(ds));
      assert forall d :: d in ds <==> d == d0 || d in rest;
    }
  }

  lemma FirstQuietPrune(r: Run, ds: seq<Path>)
    requires ds != [] && r.world.turns == [] && r.world.tree.Valid() && DeepestFirstOrder(ds)
    requires forall d | d in ds :: OnlyListedBeneath(r.world.tree, ToSet(ds), d)
    ensures var t, r1 := r.world.tree, PruneStep(r, ds[0]);
            && r1.world.tree == Without(t, {ds[0]}) && r1.world.turns == [] && r1.world.tree.Valid()
            && r1.conflicts == r.conflicts
            && r1.errors == (if t.BeneathFile(ds[0]) then r.errors + [ds[0]] else r.errors)
            && (forall d | d in ds[1..] :: OnlyListedBeneath(r1.world.tree, ToSet(ds[1..]), d))
            && (forall d | d in ds[1..] :: t.BeneathFile(d) <==> r1.world.tree.BeneathFile(d))
  {
    var t, d0, rest := r.world.tree, ds[0], ToSet(ds[1..]);
    var t1 := Without(t, {d0});
    assert ToSet(ds) == {d0} + rest && d0 in ds;
    assert forall x | x in ds :: |x| <= |d0|;
    if t.BeneathFile(d0) {
      var f :| f in t.files && f < d0;
      assert d0 !in t.Paths() by {
        assert f != [] by { assert [] !in t.Paths(); }
        assert f in Parents(d0);
      }
      assert t1 == t;
    } else if d0 in t.dirs {
      assert t.IsEmpty(d0);
      assert t1.files == t.files;
    } else {
      assert t1.dirs == t.dirs;
      assert d0 !in t.files ==> t1 == t;
    }
    assert PruneStep(r, d0).world.tree == t1;
    CommandsKeepValid(t, d0, "", None);
    forall d | d in ds[1..]
      ensures OnlyListedBeneath(t1, rest, d)
      ensures t.BeneathFile(d) <==> t1.BeneathFile(d)
    {
      assert d in ds;
      assert OnlyListedBeneath(t, ToSet(ds), d);
      WithoutDeepest(t, d0, d);
    }
  }

  /** Taking away a path that lies above nothing in question changes nothing for the others. */
  lemma WithoutDeepest(t: Tree, d0: Path, d: Path)
    requires |d| <= |d0|
    ensures t.BeneathFile(d) <==> Without(t, {d0}).BeneathFile(d)
  {
    if f :| f in t.files && f < d {
      assert f in Without(t, {d0}).files;
    }
  }

  /** The validated future: the retained entries, the writes and the new directories, with their parents. */
  ghost function Expected(t: Tree, req: Request): Tree {
    Tree(Written(t.files, req.writes) - DeletePaths(req.deletes),
         (t.dirs - ToSet(req.deleteDirectories)) + ToSet(req.directories) +
         ParentsOfAll(ToSet(req.directories)) + ParentsOfAll(WritePaths(req.writes)))
  }

  /** Up to implied parents, the expected tree is the list of entries that passed validation. */
  lemma ExpectedIsFuture(t: Tree, entries: seq<TreeEntry>, req: Request, e: TreeEntry)
    requires IsListing(entries, t) && Accepted(entries, t, req)
    ensures e in FutureEntries(entries, t, req) ==> e.path in if e.isFile then Expected(t, req).files.Keys
              else Expected(t, req).dirs
    ensures e.isFile && e.path in Expected(t, req).files ==> e in FutureEntries(entries, t, req)
    ensures !e.isFile && e.path in Expected(t, req).dirs ==>
              || e in FutureEntries(entries, t, req)
              || e.path in ParentsOfAll(ToSet(req.directories)) || e.path in ParentsOfAll(WritePaths(req.writes))
  {
    FutureEntryKinds(entries, t, req, e);
    AcceptedFacts(t, entries, req);
    DistinctRequest(req);
    WrittenLookup(t.files, req.writes);
    assert forall d | d in req.deleteDirectories :: Untouched(req, d);
  }

  lemma DistinctRequest(req: Request)
    requires ValidEntries(RequestEntries(req))
    ensures forall i, j | 0 <= i < j < |req.writes| :: req.writes[i].path != req.writes[j].path
    ensures forall i, j | 0 <= i < j < |req.deletes| :: req.deletes[i].path != req.deletes[j].path
  {
    var es, n := RequestEntries(req), |req.writes|;
    forall i, j | 0 <= i < j < |req.writes|
      ensures req.writes[i].path != req.writes[j].path
    {
      assert es[i].path == req.writes[i].path && es[j].path == req.writes[j].path;
    }
    forall i, j | 0 <= i < j < |req.deletes|
      ensures req.deletes[i].path != req.deletes[j].path
    {
      assert es[n + i].path == req.deletes[i].path && es[n + j].path == req.deletes[j].path;
    }
  }

  /** What the first three loops leave of an undisturbed vault. */
  ghost function Built(t: Tree, req: Request): Tree {
    Tree(Written(t.files, req.writes) - DeletePaths(req.deletes),
         t.dirs + ToSet(req.directories) + ParentsOfAll(ToSet(req.directories)) + ParentsOfAll(WritePaths(req.writes)))
  }

  lemma MkdirsBuild(t: Tree, entries: seq<TreeEntry>, req: Request)
    requires t.Valid() && req.ValidPaths() && IsListing(entries, t) && Accepted(entries, t, req)
    ensures Replay(t, MakeSteps(NewDirectories(Sorted(req.directories), t))) ==
            Stepped(t.(dirs := t.dirs + ToSet(req.directories) + ParentsOfAll(ToSet(req.directories))), true)
  {
    var ds := NewDirectories(Sorted(req.directories), t);
    AcceptedFacts(t, entries, req);
    MakesRun(t, ds);
    assert t.dirs + (ToSet(ds) - {[]}) + ParentsOfAll(ToSet(ds)) ==
           t.dirs + ToSet(req.directories) + ParentsOfAll(ToSet(req.directories));
  }

  lemma WritesBuild(t: Tree, t1: Tree, entries: seq<TreeEntry>, req: Request)
    requires t.Valid() && req.ValidPaths() && IsListing(entries, t) && Accepted(entries, t, req)
    requires VersionsMatch(t, req)
    requires t1 == t.(dirs := t.dirs + ToSet(req.directories) + ParentsOfAll(ToSet(req.directories)))
    ensures WritesReady(t1, req.writes)
  {
    AcceptedFacts(t, entries, req);
    DistinctRequest(req);
    forall w | w in req.writes
      ensures w.path !in t1.dirs
    {
    }
    forall i, j | 0 <= i < |req.writes| && 0 <= j < |req.writes| && i != j
      ensures req.writes[i].path != req.writes[j].path && !(req.writes[i].path < req.writes[j].path)
    {
      assert req.writes[i] in req.writes && req.writes[j] in req.writes;
      assert i < j || j < i;
    }
  }

  lemma DeletesBuild(t: Tree, t2: Tree, entries: seq<TreeEntry>, req: Request)
    requires t2.Valid() && IsListing(entries, t) && Accepted(entries, t, req) && VersionsMatch(t, req)
    requires t2.files == Written(t.files, req.writes)
    ensures DeletesReady(t2, req.deletes)
  {
    AcceptedFacts(t, entries, req);
    DistinctRequest(req);
    WrittenLookup(t.files, req.writes);
    forall d | d in req.deletes
      ensures t2.Version(d.path) == Some(d.version) && d.path !in t2.dirs && !t2.BeneathFile(d.path)
    {
      assert d.path in DeletePaths(req.deletes);
      assert d.path in t.files && d.path !in WritePaths(req.writes);
      assert d.path in t2.Paths();
      assert forall q :: q in Parents(d.path) ==> q in t2.dirs;
      assert [] !in t2.Paths();
    }
  }

  /** The first three loops succeed outright. */
  lemma FrontLoops(w: World, t: Tree, entries: seq<TreeEntry>, req: Request)
    requires w.turns == [] && w.tree == t && t.Valid() && req.ValidPaths()
    requires IsListing(entries, t) && Accepted(entries, t, req) && VersionsMatch(t, req)
    ensures var r := DeleteRun(WriteRun(MkdirRun(Run(w, [], [], [], [], [], []), t, Sorted(req.directories)),
              req.writes), req.deletes);
            r.world.tree == Built(t, req) && r.world.turns == [] && r.world.tree.Valid() && r.conflicts == [] &&
                r.errors == []
  {
    var start := Run(w, [], [], [], [], [], []);
    var made := MkdirRun(start, t, Sorted(req.directories));
    var wrote := WriteRun(made, req.writes);
    MkdirsBuild(t, entries, req);
    QuietMkdirs(start, t, Sorted(req.directories));
    ReplayKeepsValid(t, MakeSteps(NewDirectories(Sorted(req.directories), t)));
    WritesBuild(t, made.world.tree, entries, req);
    WritesRun(made.world.tree, req.writes);
    QuietWrites(made, req.writes);
    ReplayKeepsValid(made.world.tree, PutSteps(req.writes));
    DeletesBuild(t, wrote.world.tree, entries, req);
    DeletesRun(wrote.world.tree, req.deletes);
    QuietDeletes(wrote, req.deletes);
    ReplayKeepsValid(wrote.world.tree, DropSteps(req.deletes));
  }

  lemma BuiltPrunes(t: Tree, entries: seq<TreeEntry>, req: Request, d: Path)
    requires t.files.Keys !! t.dirs && VersionsMatch(t, req)
    requires IsListing(entries, t) && Accepted(entries, t, req) && d in req.deleteDirectories
    ensures OnlyListedBeneath(Built(t, req), ToSet(req.deleteDirectories), d)
    ensures Built(t, req).BeneathFile(d) <==> t.BeneathFile(d)
    ensures d in Built(t, req).files <==> d in t.files
    ensures d !in ToSet(req.directories) && d !in ParentsOfAll(ToSet(req.directories))
    ensures d !in ParentsOfAll(WritePaths(req.writes))
  {
    AcceptedFacts(t, entries, req);
    BuiltFilesOf(t, req);
    DeletedNotBeneathRequest(req, d);
    NothingNewBeneath(req, d);
    BuiltBeneath(t, req, d);
    forall e | e in Built(t, req).dirs && d < e
      ensures e !in DeletePaths(req.deletes)
    {
      assert e in t.dirs;
    }
  }

  lemma BuiltBeneath(t: Tree, req: Request, d: Path)
    requires Emptied(t, req, d) && Untouched(req, d)
    requires Built(t, req).files.Keys == t.files.Keys + WritePaths(req.writes) - DeletePaths(req.deletes)
    requires forall q | q in WritePaths(req.writes) || q in DeletePaths(req.deletes) :: !(q < d)
    requires d !in DeletePaths(req.deletes) && d !in WritePaths(req.writes)
    ensures Built(t, req).BeneathFile(d) <==> t.BeneathFile(d)
    ensures d in Built(t, req).files <==> d in t.files
    ensures forall e :: e in Built(t, req).Paths() && d < e ==>
              e in t.dirs || (e in t.files && e !in DeletePaths(req.deletes))
    ensures (forall e :: e in Built(t, req).dirs && d < e ==> e !in DeletePaths(req.deletes)) ==>
              OnlyListedBeneath(Built(t, req), ToSet(req.deleteDirectories), d)
  {
    NothingNewBeneath(req, d);
    var b := Built(t, req);
    assert forall q | q < d :: q in b.files <==> q in t.files;
  }

  lemma BuiltFilesOf(t: Tree, req: Request)
    requires ValidEntries(RequestEntries(req))
    ensures Built(t, req).files.Keys == t.files.Keys + WritePaths(req.writes) - DeletePaths(req.deletes)
  {
    DistinctRequest(req);
    WrittenLookup(t.files, req.writes);
  }

  /** A directory to delete neither is, nor lies above, anything the request creates or implies. */
  lemma NothingNewBeneath(req: Request, d: Path)
    requires Untouched(req, d)
    ensures forall e | e in ToSet(req.directories) || e in ParentsOfAll(ToSet(req.directories)) :: e != d && !(d < e)
    ensures forall e | e in ParentsOfAll(WritePaths(req.writes)) :: e != d && !(d < e)
    ensures forall e | e in WritePaths(req.writes) :: !(d < e)
  {
    assert forall w | w in WritePaths(req.writes) :: !(d < w);
    assert forall x | x in ToSet(req.directories) :: !(d < x);
  }

  lemma DeletedNotBeneathRequest(req: Request, d: Path)
    requires ValidEntries(RequestEntries(req)) && d in req.deleteDirectories
    ensures forall q | q in WritePaths(req.writes) || q in DeletePaths(req.deletes) :: !(q < d)
  {
    ValidIsSound(RequestEntries(req));
    RequestEntryKinds(req, TreeEntry(d, false));
    forall q | q in WritePaths(req.writes) || q in DeletePaths(req.deletes)
      ensures !(q < d)
    {
      RequestEntryKinds(req, TreeEntry(q, true));
    }
  }

  /** Undisturbed, an accepted request meets no conflict and leaves the expected tree less any file named as a
      directory to delete. It is reported `applied` if and only if no such directory lies beneath a current file,
      and it leaves exactly the expected tree if and only if none of them is a current file. */
  lemma UndisturbedApply(w: World, t: Tree, entries: seq<TreeEntry>, req: Request)
    requires w.turns == [] && w.tree == t && t.Valid() && req.ValidPaths()
    requires IsListing(entries, t) && Accepted(entries, t, req) && VersionsMatch(t, req)
    ensures var r := ApplyRun(w, t, req);
            && r.world.tree == Without(Expected(t, req), ToSet(req.deleteDirectories))
            && r.world.tree.Valid()
            && (ResultOf(r).outcome.Applied? <==> forall d | d in req.deleteDirectories :: !t.BeneathFile(d))
            && (r.world.tree == Expected(t, req) <==> forall d | d in req.deleteDirectories :: d !in t.files)
  {
    var dd, order := ToSet(req.deleteDirectories), DeepestFirst(req.deleteDirectories);
    var front := DeleteRun(WriteRun(MkdirRun(Run(w, [], [], [], [], [], []), t, Sorted(req.directories)), req.writes),
        req.deletes);
    FrontLoops(w, t, entries, req);
    assert ToSet(order) == dd;
    forall d | d in req.deleteDirectories
      ensures OnlyListedBeneath(Built(t, req), dd, d)
      ensures Built(t, req).BeneathFile(d) <==> t.BeneathFile(d)
      ensures d in Built(t, req).files <==> d in t.files
      ensures d !in ToSet(req.directories) && d !in ParentsOfAll(ToSet(req.directories))
      ensures d !in ParentsOfAll(WritePaths(req.writes))
    {
      BuiltPrunes(t, entries, req, d);
    }
    QuietPrunes(front, order);
    PrunesKeepValid(front, order);
    PrunedBuilt(t, req);
  }

  /** Taking the directories to delete from the built tree, and comparing with the expected one. */
  lemma PrunedBuilt(t: Tree, req: Request)
    requires forall d | d in req.deleteDirectories ::
               && (d in Built(t, req).files <==> d in t.files)
               && d !in ToSet(req.directories) && d !in ParentsOfAll(ToSet(req.directories))
               && d !in ParentsOfAll(WritePaths(req.writes))
    ensures var dd := ToSet(req.deleteDirectories);
            && Without(Built(t, req), dd) == Without(Expected(t, req), dd)
            && (Without(Built(t, req), dd) == Expected(t, req) <==>
                   forall d | d in req.deleteDirectories :: d !in t.files)
  {
    var dd := ToSet(req.deleteDirectories);
    assert Without(Built(t, req), dd) == Without(Expected(t, req), dd);
    assert Expected(t, req).dirs - dd == Expected(t, req).dirs;
    if forall d | d in req.deleteDirectories :: d !in t.files {
      assert Expected(t, req).files - dd == Expected(t, req).files;
    }
  }

  lemma {:induction false} PrunesKeepValid(r: Run, ds: seq<Path>)
    requires r.world.turns == [] && r.world.tree.Valid()
    ensures PruneRun(r, ds).world.tree.Valid()
    decreases |ds|
  {
    if ds == [] {
    } else {
      CommandsKeepValid(r.world.tree, ds[0], "", None);
      PrunesKeepValid(PruneStep(r, ds[0]), ds[1..]);
    }
  }

  /** Any accepted request does this with a current file named as its only directory to delete. */
  lemma RemovesNamedFile(t: Tree, entries: seq<TreeEntry>, req: Request, f: Path)
    requires t.Valid() && req == Request([], [], [], [f], false) && req.ValidPaths() && f in t.files
    requires !t.BeneathFile(f)
    requires IsListing(entries, t) && Accepted(entries, t, req) && VersionsMatch(t, req)
    ensures var r := ApplyRun(World(t, [], []), t, req);
            f in Expected(t, req).files && f !in r.world.tree.files && ResultOf(r).outcome.Applied?
  {
    UndisturbedApply(World(t, [], []), t, entries, req);
    assert f in ToSet(req.deleteDirectories);
    assert Written(t.files, []) == t.files;
  }

  lemma FileNamedForRemovalPasses()
    ensures var t, req := Tree(map[["a"] := "text"], {}), Request([], [], [], [["a"]], false);
            Accepted([TreeEntry(["a"], true)], t, req)
  {
    var t, req := Tree(map[["a"] := "text"], {}), Request([], [], [], [["a"]], false);
    var entries := [TreeEntry(["a"], true)];
    assert RequestEntries(req) == [TreeEntry(["a"], false)];
    assert Retained(entries[1..], req) == [];
    assert Retained(entries, req) == entries;
    assert FutureEntries(entries, t, req) == entries;
  }

  lemma OneFileVault()
    ensures var t := Tree(map[["a"] := "text"], {});
            t.Valid() && IsListing([TreeEntry(["a"], true)], t) && !t.BeneathFile(["a"]) && VaultPath(["a"])
  {
    assert Parents(["a"]) == {};
  }

  /** A request may name a current file among the directories to delete: it passes every check, and the file is
      removed without its version being compared. */
  lemma FileDeletedAsDirectory()
    ensures var t, req := Tree(map[["a"] := "text"], {}), Request([], [], [], [["a"]], false);
            && Accepted([TreeEntry(["a"], true)], t, req) && VersionsMatch(t, req)
            && ["a"] in Expected(t, req).files
            && ["a"] !in ApplyRun(World(t, [], []), t, req).world.tree.files
            && ResultOf(ApplyRun(World(t, [], []), t, req)).outcome.Applied?
  {
    var t, req := Tree(map[["a"] := "text"], {}), Request([], [], [], [["a"]], false);
    var entries := [TreeEntry(["a"], true)];
    FileNamedForRemovalPasses();
    OneFileVault();
    RemovesNamedFile(t, entries, req, ["a"]);
  }
}
