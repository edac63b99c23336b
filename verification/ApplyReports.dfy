/** What the result of `sync/apply` tells its caller about the vault. */
module ApplyReports {
  import opened Basics
  import opened Paths
  import opened HostFiles
  import opened Manifest
  import opened Steps
  import opened Apply
  import opened ApplyProofs
  import PushAcceptance

  // ---- undisturbed ----

  /** Undisturbed, the lists are exactly what was asked for: every write with its content, every file delete, the
      directories that were missing, in name order, and of the directories to delete those that were there. */
  ghost predicate ExactReport(result: ApplyResult, t: Tree, req: Request) {
    && result.written == EntriesOf(req.writes) && result.deleted == PathsOfDeletes(req.deletes)
    && result.created == NewDirectories(Sorted(req.directories), t) && result.conflicts == []
    && (forall d :: d in result.pruned <==> d in req.deleteDirectories && d in t.Paths())
  }

  lemma UndisturbedReport(w: World, t: Tree, entries: seq<TreeEntry>, req: Request)
    requires w.turns == [] && w.tree == t && t.Valid() && req.ValidPaths()
    requires IsListing(entries, t) && Accepted(entries, t, req) && VersionsMatch(t, req)
    ensures ExactReport(ResultOf(ApplyRun(w, t, req)), t, req)
  {
    var front := DeleteRun(WriteRun(MkdirRun(Run(w, [], [], [], [], [], []), t, Sorted(req.directories)), req.writes),
                           req.deletes);
    FrontLoops(w, t, entries, req);
    FrontReport(w, t, entries, req);
    assert ToSet(DeepestFirst(req.deleteDirectories)) == ToSet(req.deleteDirectories);
    ToRemove(t, entries, req);
    RemovalReport(front, t, req);
    assert ApplyRun(w, t, req) == PruneRun(front, DeepestFirst(req.deleteDirectories));
    UndisturbedConflicts(w, t, entries, req);
  }

  lemma UndisturbedConflicts(w: World, t: Tree, entries: seq<TreeEntry>, req: Request)
    requires w.turns == [] && w.tree == t && t.Valid() && req.ValidPaths()
    requires IsListing(entries, t) && Accepted(entries, t, req) && VersionsMatch(t, req)
    ensures ApplyRun(w, t, req).conflicts == []
  {
    var front := DeleteRun(WriteRun(MkdirRun(Run(w, [], [], [], [], [], []), t, Sorted(req.directories)), req.writes),
                           req.deletes);
    FrontLoops(w, t, entries, req);
    PruneNoConflicts(front, DeepestFirst(req.deleteDirectories));
  }

  lemma RemovalReport(front: Run, t: Tree, req: Request)
    requires front.world.turns == [] && front.world.tree.Valid() && front.world.tree == Built(t, req)
    requires var order := DeepestFirst(req.deleteDirectories);
             && Distinct(order)
             && (forall d :: d in order <==> d in req.deleteDirectories)
             && (forall d | d in order :: OnlyListedBeneath(Built(t, req), ToSet(order), d))
             && (forall d | d in order :: d in Built(t, req).Paths() <==> d in t.Paths())
    ensures var end := PruneRun(front, DeepestFirst(req.deleteDirectories));
            && ListsOf(end) == ListsOf(front).(pruned := end.pruned)
            && (forall d :: d in end.pruned <==>
                  d in front.pruned || (d in req.deleteDirectories && d in t.Paths()))
  {
    PruneReport(front, DeepestFirst(req.deleteDirectories));
  }

  /** The directories to delete are as PruneReport needs them, and are there exactly if they were before. */
  lemma ToRemove(t: Tree, entries: seq<TreeEntry>, req: Request)
    requires t.files.Keys !! t.dirs && IsListing(entries, t) && Accepted(entries, t, req) && VersionsMatch(t, req)
    ensures var order := DeepestFirst(req.deleteDirectories);
            && Distinct(order)
            && (forall d :: d in order <==> d in req.deleteDirectories)
            && (forall d | d in order :: OnlyListedBeneath(Built(t, req), ToSet(order), d))
            && (forall d | d in order :: d in Built(t, req).Paths() <==> d in t.Paths())
  {
    var order := DeepestFirst(req.deleteDirectories);
    assert ToSet(order) == ToSet(req.deleteDirectories);
    OnceToRemove(t, entries, req);
    forall d | d in req.deleteDirectories
      ensures OnlyListedBeneath(Built(t, req), ToSet(order), d)
      ensures d in Built(t, req).Paths() <==> d in t.Paths()
    {
      BuiltPrunes(t, entries, req, d);
      NotDeletedAsFile(t, entries, req, d);
    }
  }

  lemma OnceToRemove(t: Tree, entries: seq<TreeEntry>, req: Request)
    requires IsListing(entries, t) && Accepted(entries, t, req)
    ensures Distinct(DeepestFirst(req.deleteDirectories))
  {
    var ds := req.deleteDirectories;
    forall i, j | 0 <= i < j < |ds|
      ensures ds[i] != ds[j]
    {
      RemovalEntry(req, i);
      RemovalEntry(req, j);
    }
    SameCounts(ds, DeepestFirst(ds));
  }

  lemma RemovalEntry(req: Request, i: nat)
    requires i < |req.deleteDirectories|
    ensures var es := RequestEntries(req);
            var k := |es| - |req.deleteDirectories| + i;
            0 <= k < |es| && es[k].path == req.deleteDirectories[i]
  {}

  lemma SameCounts(a: seq<Path>, b: seq<Path>)
    requires Distinct(a) && multiset(a) == multiset(b)
    ensures Distinct(b)
  {
    PushAcceptance.DistinctCountsOne(a);
    forall d | d in b
      ensures multiset(b)[d] == 1
    {
      assert d in multiset(b) && d in multiset(a);
    }
    PushAcceptance.CountsOneDistinct(b);
  }

  /** What applying these writes reports. */
  function EntriesOf(writes: seq<Write>): seq<Entry> {
    seq(|writes|, i requires 0 <= i < |writes| => Entry(writes[i].path, writes[i].content))
  }

  /** The lists a run has built up. */
  datatype Lists = Lists(written: seq<Entry>, deleted: seq<Path>, created: seq<Path>, pruned: seq<Path>)

  function ListsOf(r: Run): Lists { Lists(r.written, r.deleted, r.created, r.pruned) }

  lemma {:induction false} MkdirKeepsLists(r: Run, t: Tree, ds: seq<Path>)
    ensures ListsOf(MkdirRun(r, t, ds)) == ListsOf(r).(created := MkdirRun(r, t, ds).created)
    decreases |ds|
  {
    if ds == [] {
    } else {
      MkdirKeepsLists(MkdirStep(r, t, ds[0]), t, ds[1..]);
    }
  }

  ghost predicate CanMake(w: World, t: Tree, ds: seq<Path>) {
    w.turns == [] && Replay(w.tree, MakeSteps(NewDirectories(ds, t))).ok
  }

  lemma {:induction false} MkdirReport(r: Run, t: Tree, ds: seq<Path>)
    requires CanMake(r.world, t, ds)
    ensures MkdirRun(r, t, ds).created == r.created + NewDirectories(ds, t)
    decreases |ds|
  {
    if ds == [] {
    } else {
      var next := MkdirOneReport(r, t, ds);
      MkdirReport(next, t, ds[1..]);
    }
  }

  lemma MkdirOneReport(r: Run, t: Tree, ds: seq<Path>) returns (next: Run)
    requires ds != [] && CanMake(r.world, t, ds)
    ensures MkdirRun(r, t, ds) == MkdirRun(next, t, ds[1..])
    ensures next.created + NewDirectories(ds[1..], t) == r.created + NewDirectories(ds, t)
    ensures CanMake(next.world, t, ds[1..])
  {
    next := MkdirStep(r, t, ds[0]);
    var added := NewDirectories(ds, t);
    if ds[0] !in t.dirs {
      assert MakeSteps(added)[1..] == MakeSteps(NewDirectories(ds[1..], t));
      assert r.created + [ds[0]] + NewDirectories(ds[1..], t) == r.created + added;
    } else {
      assert added == NewDirectories(ds[1..], t);
    }
  }

  lemma {:induction false} WriteReport(r: Run, writes: seq<Write>)
    requires r.world.turns == [] && Replay(r.world.tree, PutSteps(writes)).ok
    ensures ListsOf(WriteRun(r, writes)) == ListsOf(r).(written := r.written + EntriesOf(writes))
    decreases |writes|
  {
    if writes == [] {
    } else {
      WriteOneReport(r, writes);
      WriteReport(WriteStep(r, writes[0]), writes[1..]);
      assert EntriesOf(writes) == [Entry(writes[0].path, writes[0].content)] + EntriesOf(writes[1..]);
    }
  }

  lemma WriteOneReport(r: Run, writes: seq<Write>)
    requires writes != [] && r.world.turns == [] && Replay(r.world.tree, PutSteps(writes)).ok
    ensures var w, r' := writes[0], WriteStep(r, writes[0]);
            && ListsOf(r') == ListsOf(r).(written := r.written + [Entry(w.path, w.content)])
            && r'.world.turns == [] && Replay(r'.world.tree, PutSteps(writes[1..])).ok
  {
    var t, w := r.world.tree, writes[0];
    assert PutSteps(writes)[1..] == PutSteps(writes[1..]);
    var t1 := TreeStep(t, Put(w)).tree;
    assert !t1.BeneathFile(w.path) by {
      assert forall q | q in t1.files :: q in t.files || q == w.path;
    }
    assert ReadTree(t1, w.path) == Found(w.content);
  }

  lemma {:induction false} DeleteReport(r: Run, deletes: seq<Deletion>)
    requires r.world.turns == [] && Replay(r.world.tree, DropSteps(deletes)).ok
    ensures ListsOf(DeleteRun(r, deletes)) == ListsOf(r).(deleted := r.deleted + PathsOfDeletes(deletes))
    decreases |deletes|
  {
    if deletes == [] {
    } else {
      assert DropSteps(deletes)[1..] == DropSteps(deletes[1..]);
      DeleteReport(DeleteStep(r, deletes[0]), deletes[1..]);
      assert PathsOfDeletes(deletes) == [deletes[0].path] + PathsOfDeletes(deletes[1..]);
    }
  }

  lemma {:induction false} PruneReport(r: Run, ds: seq<Path>)
    requires r.world.turns == [] && r.world.tree.Valid() && DeepestFirstOrder(ds) && Distinct(ds)
    requires forall d | d in ds :: OnlyListedBeneath(r.world.tree, ToSet(ds), d)
    ensures var r' := PruneRun(r, ds);
            && ListsOf(r') == ListsOf(r).(pruned := r'.pruned)
            && (forall d :: d in r'.pruned <==> d in r.pruned || (d in ds && d in r.world.tree.Paths()))
    decreases |ds|
  {
    if ds == [] {
    } else {
      var d0, rest, r1 := ds[0], ds[1..], PruneStep(r, ds[0]);
      FirstQuietPrune(r, ds);
      PruneOneReport(r, d0);
      assert forall i | 0 <= i < |rest| :: rest[i] == ds[i + 1] && rest[i] != d0;
      PruneReport(r1, rest);
      assert forall d :: d in ds <==> d == d0 || d in rest;
    }
  }

  lemma PruneOneReport(r: Run, d: Path)
    requires r.world.turns == [] && r.world.tree.Valid()
    requires PruneStep(r, d).world.tree == Without(r.world.tree, {d})
    ensures ListsOf(PruneStep(r, d)) ==
              ListsOf(r).(pruned := if d in r.world.tree.Paths() then r.pruned + [d] else r.pruned)
  {
    assert d in r.world.tree.files && r.world.tree.BeneathFile(d) ==> PruneStep(r, d).world.tree == r.world.tree;
    assert d in r.world.tree.dirs ==> d !in PruneStep(r, d).world.tree.dirs;
  }

  lemma FrontReport(w: World, t: Tree, entries: seq<TreeEntry>, req: Request)
    requires w.turns == [] && w.tree == t && t.Valid() && req.ValidPaths()
    requires IsListing(entries, t) && Accepted(entries, t, req) && VersionsMatch(t, req)
    ensures ListsOf(DeleteRun(WriteRun(MkdirRun(Run(w, [], [], [], [], [], []), t, Sorted(req.directories)),
                                       req.writes), req.deletes)) ==
              Lists(EntriesOf(req.writes), PathsOfDeletes(req.deletes),
                    NewDirectories(Sorted(req.directories), t), [])
  {
    var start := Run(w, [], [], [], [], [], []);
    var made := MkdirRun(start, t, Sorted(req.directories));
    FrontReady(w, t, entries, req);
    MkdirKeepsLists(start, t, Sorted(req.directories));
    MkdirReport(start, t, Sorted(req.directories));
    WriteReport(made, req.writes);
    DeleteReport(WriteRun(made, req.writes), req.deletes);
  }

  lemma FrontReady(w: World, t: Tree, entries: seq<TreeEntry>, req: Request)
    requires w.turns == [] && w.tree == t && t.Valid() && req.ValidPaths()
    requires IsListing(entries, t) && Accepted(entries, t, req) && VersionsMatch(t, req)
    ensures Replay(t, MakeSteps(NewDirectories(Sorted(req.directories), t))).ok
    ensures var made := MkdirRun(Run(w, [], [], [], [], [], []), t, Sorted(req.directories));
            var wrote := WriteRun(made, req.writes);
            && made.world.turns == [] && Replay(made.world.tree, PutSteps(req.writes)).ok
            && wrote.world.turns == [] && Replay(wrote.world.tree, DropSteps(req.deletes)).ok
  {
    var start := Run(w, [], [], [], [], [], []);
    var made := MkdirRun(start, t, Sorted(req.directories));
    MkdirsBuild(t, entries, req);
    var wrote := WriteRun(made, req.writes);
    QuietMkdirs(start, t, Sorted(req.directories));
    ReplayKeepsValid(t, MakeSteps(NewDirectories(Sorted(req.directories), t)));
    WritesBuild(t, made.world.tree, entries, req);
    WritesRun(made.world.tree, req.writes);
    QuietWrites(made, req.writes);
    ReplayKeepsValid(made.world.tree, PutSteps(req.writes));
    DeletesBuild(t, wrote.world.tree, entries, req);
    DeletesRun(wrote.world.tree, req.deletes);
  }

  lemma NotDeletedAsFile(t: Tree, entries: seq<TreeEntry>, req: Request, d: Path)
    requires t.files.Keys !! t.dirs && IsListing(entries, t) && Accepted(entries, t, req) && VersionsMatch(t, req)
    requires d in req.deleteDirectories
    ensures d in Built(t, req).dirs <==> d in t.dirs
  {
    AcceptedFacts(t, entries, req);
    BuiltPrunes(t, entries, req, d);
  }

  // ---- among other writers and failures ----

  predicate Touches(e: Effect, p: Path, removes: bool) {
    e.path == p && e.Removed? == removes
  }

  /** Some command of ours since `from` has taken effect at p. */
  ghost predicate Did(from: nat, log: seq<Effect>, p: Path, removes: bool) {
    exists i :: from <= i < |log| && Touches(log[i], p, removes)
  }

  /** What is reported as done was done, and what was done is reported, as done or as an error. */
  ghost predicate Honest(from: nat, log: seq<Effect>, result: ApplyResult, dirs: seq<Path>) {
    && from <= |log| && (forall p | p in result.pruned :: p in dirs)
    && (forall e | e in result.written :: Did(from, log, e.path, false))
    && (forall p | p in result.deleted || p in result.pruned :: Did(from, log, p, true))
    && (forall i | from <= i < |log| :: Told(result, log[i]))
  }

  ghost predicate Told(result: ApplyResult, e: Effect) {
    || e.path in result.errors
    || (if e.Removed? then e.path in result.deleted || e.path in result.pruned
        else e.path in EntryPathsOf(result.written))
  }

  ghost predicate Truthful(from: nat, r: Run, dirs: seq<Path>) {
    Honest(from, r.world.log, ResultOf(r), dirs)
  }

  /** One step: at most one effect, at the path that goes into one of the lists. */
  lemma StepStaysTruthful(from: nat, r: Run, r': Run, p: Path, removes: bool, dirs: seq<Path>)
    requires Truthful(from, r, dirs)
    requires r'.world.log == r.world.log ||
             exists e :: Touches(e, p, removes) && r'.world.log == r.world.log + [e]
    requires r.written <= r'.written && r.deleted <= r'.deleted && r.pruned <= r'.pruned && r.errors <= r'.errors
    requires forall q | q in r'.pruned && q !in r.pruned :: q in dirs
    requires forall e | e in r'.written && e !in r.written :: e.path == p && !removes && r'.world.log != r.world.log
    requires forall q | (q in r'.deleted && q !in r.deleted) || (q in r'.pruned && q !in r.pruned) ::
               q == p && removes && r'.world.log != r.world.log
    requires r'.world.log != r.world.log ==>
               p in r'.errors ||
               (if removes then p in r'.deleted || p in r'.pruned else p in EntryPathsOf(r'.written))
    ensures Truthful(from, r', dirs)
  {
    var log, log' := r.world.log, r'.world.log;
    if log' != log {
      var last :| Touches(last, p, removes) && log' == log + [last];
      assert Did(from, log', p, removes) by { assert Touches(log'[|log|], p, removes); }
    }
    forall q, b | Did(from, log, q, b)
      ensures Did(from, log', q, b)
    {
      var i :| from <= i < |log| && Touches(log[i], q, b);
      assert Touches(log'[i], q, b);
    }
    MoreEntries(r.written, r'.written);
    forall i | from <= i < |log'|
      ensures Told(ResultOf(r'), log'[i])
    {
      if i < |log| { assert log'[i] == log[i] && Told(ResultOf(r), log[i]); }
    }
  }

  lemma MoreEntries(some: seq<Entry>, more: seq<Entry>)
    requires some <= more
    ensures forall p | p in EntryPathsOf(some) :: p in EntryPathsOf(more)
  {
    forall p | p in EntryPathsOf(some)
      ensures p in EntryPathsOf(more)
    {
      var i :| 0 <= i < |some| && EntryPathsOf(some)[i] == p;
      assert EntryPathsOf(more)[i] == p;
    }
  }

  lemma WriteStaysTruthful(from: nat, r: Run, w: Write, dirs: seq<Path>)
    requires Truthful(from, r, dirs)
    ensures Truthful(from, WriteStep(r, w), dirs)
  {
    var r' := WriteStep(r, w);
    assert r'.world.log == r.world.log || r'.world.log == r.world.log + [r'.world.log[|r.world.log|]];
    if r'.written != r.written {
      assert EntryPathsOf(r'.written)[|r.written|] == w.path;
    }
    StepStaysTruthful(from, r, r', w.path, false, dirs);
  }

  lemma DeleteStaysTruthful(from: nat, r: Run, d: Deletion, dirs: seq<Path>)
    requires Truthful(from, r, dirs)
    ensures Truthful(from, DeleteStep(r, d), dirs)
  {
    DeleteStepEffect(r, d);
    assert Touches(Removed(d.path, Between(r, d)), d.path, true);
    StepStaysTruthful(from, r, DeleteStep(r, d), d.path, true, dirs);
  }

  lemma PruneStaysTruthful(from: nat, r: Run, d: Path, dirs: seq<Path>)
    requires Truthful(from, r, dirs) && d in dirs
    ensures Truthful(from, PruneStep(r, d), dirs)
  {
    var r' := PruneStep(r, d);
    assert r'.world.log == r.world.log || r'.world.log == r.world.log + [r'.world.log[|r.world.log|]];
    StepStaysTruthful(from, r, r', d, true, dirs);
  }

  lemma {:induction false} MkdirsStayTruthful(from: nat, r: Run, t: Tree, ds: seq<Path>, dirs: seq<Path>)
    requires Truthful(from, r, dirs)
    ensures Truthful(from, MkdirRun(r, t, ds), dirs)
    decreases |ds|
  {
    if ds == [] {
    } else {
      assert MkdirStep(r, t, ds[0]).world.log == r.world.log;
      StepStaysTruthful(from, r, MkdirStep(r, t, ds[0]), ds[0], false, dirs);
      MkdirsStayTruthful(from, MkdirStep(r, t, ds[0]), t, ds[1..], dirs);
    }
  }

  lemma {:induction false} WritesStayTruthful(from: nat, r: Run, writes: seq<Write>, dirs: seq<Path>)
    requires Truthful(from, r, dirs)
    ensures Truthful(from, WriteRun(r, writes), dirs)
    decreases |writes|
  {
    if writes == [] {
    } else {
      WriteStaysTruthful(from, r, writes[0], dirs);
      WritesStayTruthful(from, WriteStep(r, writes[0]), writes[1..], dirs);
    }
  }

  lemma {:induction false} DeletesStayTruthful(from: nat, r: Run, deletes: seq<Deletion>, dirs: seq<Path>)
    requires Truthful(from, r, dirs)
    ensures Truthful(from, DeleteRun(r, deletes), dirs)
    decreases |deletes|
  {
    if deletes == [] {
    } else {
      DeleteStaysTruthful(from, r, deletes[0], dirs);
      DeletesStayTruthful(from, DeleteStep(r, deletes[0]), deletes[1..], dirs);
    }
  }

  lemma {:induction false} PrunesStayTruthful(from: nat, r: Run, ds: seq<Path>, dirs: seq<Path>)
    requires Truthful(from, r, dirs) && forall d | d in ds :: d in dirs
    ensures Truthful(from, PruneRun(r, ds), dirs)
    decreases |ds|
  {
    if ds == [] {
    } else {
      assert ds[0] in ds;
      PruneStaysTruthful(from, r, ds[0], dirs);
      PrunesStayTruthful(from, PruneStep(r, ds[0]), ds[1..], dirs);
    }
  }

  /** Among any other writers and failures: what the result lists as written, deleted or pruned was done, and whatever
      was done is listed there or among the errors. */
  lemma ReportIsTruthful(w: World, t: Tree, req: Request)
    ensures Truthful(|w.log|, ApplyRun(w, t, req), req.deleteDirectories)
  {
    var made := MkdirRun(Run(w, [], [], [], [], [], []), t, Sorted(req.directories));
    var wrote := WriteRun(made, req.writes);
    MkdirsStayTruthful(|w.log|, Run(w, [], [], [], [], [], []), t, Sorted(req.directories), req.deleteDirectories);
    WritesStayTruthful(|w.log|, made, req.writes, req.deleteDirectories);
    DeletesStayTruthful(|w.log|, wrote, req.deletes, req.deleteDirectories);
    PrunesStayTruthful(|w.log|, DeleteRun(wrote, req.deletes), DeepestFirst(req.deleteDirectories),
                       req.deleteDirectories);
  }

  /** So a mutation reported as a conflict has done nothing. */
  lemma ConflictDidNothing(w: World, t: Tree, req: Request, c: VersionConflict)
    requires ValidEntries(RequestEntries(req)) && c in ApplyRun(w, t, req).conflicts
    ensures var log := ApplyRun(w, t, req).world.log;
            forall i | |w.log| <= i < |log| :: log[i].path != c.path
  {
    var r := ApplyRun(w, t, req);
    ReportIsTruthful(w, t, req);
    ConflictsAreReal(w, t, req);
    NotForRemoval(req, c);
    EachMutationOnce(w, t, req, c.path);
    OnlyConflict(r, c);
    forall i | |w.log| <= i < |r.world.log|
      ensures r.world.log[i].path != c.path
    {
      assert Told(ResultOf(r), r.world.log[i]);
    }
  }

  lemma NotForRemoval(req: Request, c: VersionConflict)
    requires ValidEntries(RequestEntries(req)) && RealConflict(req, c)
    ensures (c.path in WritePaths(req.writes) || c.path in DeletePaths(req.deletes)) && c.path !in req.deleteDirectories
  {
    var i :| 0 <= i < |Expectations(req)| && Expectations(req)[i] == (c.path, c.expected);
    if i < |req.writes| {
      assert req.writes[i] in req.writes;
    } else {
      assert req.deletes[i - |req.writes|] in req.deletes;
    }
    ValidIsSound(RequestEntries(req));
    RequestEntryKinds(req, TreeEntry(c.path, true));
    RequestEntryKinds(req, TreeEntry(c.path, false));
  }

  /** What is reported once, as a conflict, is in no other list. */
  lemma OnlyConflict(r: Run, c: VersionConflict)
    requires c in r.conflicts && Tally(r, c.path) == 1
    ensures c.path !in EntryPathsOf(r.written) && c.path !in r.deleted && c.path !in r.errors
  {
    var k :| 0 <= k < |r.conflicts| && r.conflicts[k] == c;
    assert ConflictPathsOf(r.conflicts)[k] == c.path;
    assert c.path in multiset(ConflictPathsOf(r.conflicts));
    assert c.path in EntryPathsOf(r.written) ==> c.path in multiset(EntryPathsOf(r.written));
    assert c.path in r.deleted ==> c.path in multiset(r.deleted);
    assert c.path in r.errors ==> c.path in multiset(r.errors);
  }

  // ---- directories ----

  /** How often d is reported as created, pruned or in error. */
  function DirTally(r: Run, d: Path): nat {
    multiset(r.created)[d] + multiset(r.pruned)[d] + multiset(r.errors)[d]
  }

  lemma {:induction false} MkdirDirTally(r: Run, t: Tree, ds: seq<Path>, d: Path)
    ensures DirTally(MkdirRun(r, t, ds), d) == DirTally(r, d) + multiset(NewDirectories(ds, t))[d]
    decreases |ds|
  {
    if ds == [] {
    } else {
      MkdirStepDirTally(r, t, ds[0], d);
      MkdirDirTally(MkdirStep(r, t, ds[0]), t, ds[1..], d);
    }
  }

  lemma MkdirStepDirTally(r: Run, t: Tree, made: Path, d: Path)
    ensures DirTally(MkdirStep(r, t, made), d) == DirTally(r, d) + if made == d && d !in t.dirs then 1 else 0
  {}

  lemma {:induction false} WriteDirTally(r: Run, writes: seq<Write>, d: Path)
    requires d !in WritePaths(writes)
    ensures DirTally(WriteRun(r, writes), d) == DirTally(r, d)
    decreases |writes|
  {
    if writes == [] {
    } else {
      assert writes[0] in writes;
      WriteStepDirTally(r, writes[0], d);
      WriteDirTally(WriteStep(r, writes[0]), writes[1..], d);
    }
  }

  lemma WriteStepDirTally(r: Run, w: Write, d: Path)
    requires d != w.path
    ensures DirTally(WriteStep(r, w), d) == DirTally(r, d)
  {}

  lemma DeleteStepDirTally(r: Run, x: Deletion, d: Path)
    requires d != x.path
    ensures DirTally(DeleteStep(r, x), d) == DirTally(r, d)
  {}

  lemma {:induction false} DeleteDirTally(r: Run, deletes: seq<Deletion>, d: Path)
    requires d !in DeletePaths(deletes)
    ensures DirTally(DeleteRun(r, deletes), d) == DirTally(r, d)
    decreases |deletes|
  {
    if deletes == [] {
    } else {
      assert deletes[0] in deletes;
      DeleteStepDirTally(r, deletes[0], d);
      DeleteDirTally(DeleteStep(r, deletes[0]), deletes[1..], d);
    }
  }

  /** A directory to delete is reported as pruned or in error, unless nothing is there when its turn comes. */
  lemma PruneStepDirTally(r: Run, d: Path, p: Path)
    ensures DirTally(PruneStep(r, d), p) ==
            DirTally(r, p) + if p == d && RemoveCall(r.world, d).reply != Missing then 1 else 0
    ensures RemoveCall(r.world, d).reply == Missing ==> d !in Tick(r.world).tree.Paths()
  {}

  lemma {:induction false} PruneDirTally(r: Run, ds: seq<Path>, d: Path)
    ensures d !in ds ==> DirTally(PruneRun(r, ds), d) == DirTally(r, d)
    ensures Distinct(ds) && d in ds ==> DirTally(PruneRun(r, ds), d) <= DirTally(r, d) + 1
    decreases |ds|
  {
    if ds == [] {
    } else {
      var rest := ds[1..];
      PruneStepDirTally(r, ds[0], d);
      PruneDirTally(PruneStep(r, ds[0]), rest, d);
      assert forall i | 0 <= i < |rest| :: rest[i] == ds[i + 1];
    }
  }

  /** Under any interleaving, each requested directory that was missing is reported exactly once, as created or in
      error, and one that was there is not reported. */
  lemma EachDirectoryOnce(w: World, t: Tree, req: Request, d: Path)
    requires ValidEntries(RequestEntries(req)) && d in req.directories
    ensures DirTally(ApplyRun(w, t, req), d) == if d in t.dirs then 0 else 1
  {
    var start := Run(w, [], [], [], [], [], []);
    var makes := Sorted(req.directories);
    var made := MkdirRun(start, t, makes);
    var wrote := WriteRun(made, req.writes);
    ValidIsSound(RequestEntries(req));
    RequestEntryKinds(req, TreeEntry(d, true));
    RequestEntryKinds(req, TreeEntry(d, false));
    CreateOnce(req, t, d);
    MkdirDirTally(start, t, makes, d);
    WriteDirTally(made, req.writes, d);
    DeleteDirTally(wrote, req.deletes, d);
    NotBothWays(req, d);
    PruneDirTally(DeleteRun(wrote, req.deletes), DeepestFirst(req.deleteDirectories), d);
  }

  lemma NotBothWays(req: Request, d: Path)
    requires ValidEntries(RequestEntries(req)) && d in req.directories
    ensures d !in req.deleteDirectories
  {
    var es := RequestEntries(req);
    var k := |req.writes| + |req.deletes|;
    var i :| 0 <= i < |req.directories| && req.directories[i] == d;
    forall j | 0 <= j < |req.deleteDirectories|
      ensures req.deleteDirectories[j] != d
    {
      RemovalEntry(req, j);
      assert es[k + i].path == d;
    }
  }

  lemma CreateOnce(req: Request, t: Tree, d: Path)
    requires ValidEntries(RequestEntries(req)) && d in req.directories
    ensures multiset(NewDirectories(Sorted(req.directories), t))[d] == if d in t.dirs then 0 else 1
  {
    var es, ds, k := RequestEntries(req), req.directories, |req.writes| + |req.deletes|;
    forall i, j | 0 <= i < j < |ds|
      ensures ds[i] != ds[j]
    {
      assert es[k + i].path == ds[i] && es[k + j].path == ds[j];
      assert Fold(es[k + i].path) != Fold(es[k + j].path);
    }
    SameCounts(ds, Sorted(ds));
    NewCount(Sorted(ds), t, d);
  }

  lemma {:induction false} NewCount(ds: seq<Path>, t: Tree, d: Path)
    requires Distinct(ds)
    ensures multiset(NewDirectories(ds, t))[d] == if d in ds && d !in t.dirs then 1 else 0
    decreases |ds|
  {
    if ds == [] {
    } else {
      var rest := ds[1..];
      assert forall i | 0 <= i < |rest| :: rest[i] == ds[i + 1] && rest[i] != ds[0];
      NewCount(rest, t, d);
    }
  }
}
