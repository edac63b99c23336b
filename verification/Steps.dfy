/** The mutations a sync performs, alone and in sequence, and what a whole sequence leaves behind. */
module Steps {
  import opened Basics
  import opened Paths
  import opened HostFiles
  import opened Manifest

  datatype Write = Write(path: Path, content: Content, expected: Option<Content>)

  datatype Deletion = Deletion(path: Path, version: Content)

  datatype Step = MakeDir(dir: Path) | Put(write: Write) | Drop(deletion: Deletion) | Prune(dir: Path)

  // ---- one step on an undisturbed tree ----

  datatype Stepped = Stepped(tree: Tree, ok: bool)

  function TreeStep(t: Tree, s: Step): Stepped {
    match s
    case MakeDir(d) => var c := MkdirTree(t, d); Stepped(c.tree, c.reply.Done?)
    case Put(x) => var c := WriteTree(t, x.path, x.content, x.expected); Stepped(c.tree, c.reply.Done?)
    case Drop(x) =>
      if ReadTree(t, x.path) != Found(x.version) then Stepped(t, false)
      else var c := RemoveTree(t, x.path); Stepped(c.tree, c.reply.Done?)
    case Prune(d) => var c := RemoveTree(t, d); Stepped(c.tree, c.reply.Done? || c.reply.Missing?)
  }

  /** Performs the steps up to the first that fails. */
  function Replay(t: Tree, steps: seq<Step>): Stepped
    decreases |steps|
  {
    if steps == [] then Stepped(t, true)
    else if !TreeStep(t, steps[0]).ok then TreeStep(t, steps[0])
    else Replay(TreeStep(t, steps[0]).tree, steps[1..])
  }

  lemma {:induction false} ReplayConcat(t: Tree, a: seq<Step>, b: seq<Step>)
    ensures Replay(t, a + b) == if Replay(t, a).ok then Replay(Replay(t, a).tree, b) else Replay(t, a)
    decreases |a|
  {
    if a == [] {
      assert a + b == b;
    } else {
      assert (a + b)[0] == a[0] && (a + b)[1..] == a[1..] + b;
      if TreeStep(t, a[0]).ok {
        ReplayConcat(TreeStep(t, a[0]).tree, a[1..], b);
      }
    }
  }

  // ---- the same steps among other writers and failures, stopping at the first failure ----

  datatype Ran = Ran(world: World, ok: bool)

  function StrictStep(w: World, s: Step): Ran {
    match s
    case MakeDir(d) => var c := MkdirCall(w, d); Ran(c.world, c.reply.Done?)
    case Put(x) => var c := WriteCall(w, x.path, x.content, x.expected); Ran(c.world, c.reply.Done?)
    case Drop(x) =>
      var r := ReadCall(w, x.path);
      if r.reply != Found(x.version) then Ran(r.world, false)
      else var c := RemoveCall(r.world, x.path); Ran(c.world, c.reply.Done?)
    case Prune(d) => var c := RemoveCall(w, d); Ran(c.world, c.reply.Done? || c.reply.Missing?)
  }

  function StrictRun(w: World, steps: seq<Step>): Ran
    decreases |steps|
  {
    if steps == [] then Ran(w, true)
    else if !StrictStep(w, steps[0]).ok then StrictStep(w, steps[0])
    else StrictRun(StrictStep(w, steps[0]).world, steps[1..])
  }

  lemma {:induction false} StrictRunConcat(w: World, a: seq<Step>, b: seq<Step>)
    ensures StrictRun(w, a + b) == if StrictRun(w, a).ok then StrictRun(StrictRun(w, a).world, b) else StrictRun(w, a)
    decreases |a|
  {
    if a == [] {
      assert a + b == b;
    } else {
      assert (a + b)[0] == a[0] && (a + b)[1..] == a[1..] + b;
      if StrictStep(w, a[0]).ok {
        StrictRunConcat(StrictStep(w, a[0]).world, a[1..], b);
      }
    }
  }

  /** With no other writers, wherever failures strike, a run leaves exactly what some prefix of its steps leaves. */
  lemma {:induction false} StrictRunIsPrefix(w: World, steps: seq<Step>) returns (k: nat)
    requires Alone(w)
    ensures k <= |steps| && Replay(w.tree, steps[..k]) == Stepped(StrictRun(w, steps).world.tree, true)
    ensures StrictRun(w, steps).ok ==> k == |steps|
    decreases |steps|
  {
    k := 0;
    if steps == [] {
    } else {
      var s, ran := steps[0], StrictStep(w, steps[0]);
      assert Alone(Tick(w));
      assert steps[..1] == [s];
      if ran.ok {
        assert TreeStep(w.tree, s) == Stepped(ran.world.tree, true);
        var j := StrictRunIsPrefix(ran.world, steps[1..]);
        k := j + 1;
        assert steps[..k][0] == s && steps[..k][1..] == steps[1..][..j];
      } else if ran.world.tree != w.tree {
        assert TreeStep(w.tree, s) == Stepped(ran.world.tree, true);
        k := 1;
        assert Replay(ran.world.tree, steps[..1][1..]) == Stepped(ran.world.tree, true);
      }
    }
  }

  /** With neither other writers nor failures, a run is the replay. */
  lemma {:induction false} QuietRunIsReplay(w: World, steps: seq<Step>)
    requires w.turns == []
    ensures StrictRun(w, steps).ok == Replay(w.tree, steps).ok
    ensures StrictRun(w, steps).world.tree == Replay(w.tree, steps).tree
    decreases |steps|
  {
    if steps != [] && StrictStep(w, steps[0]).ok {
      QuietRunIsReplay(StrictStep(w, steps[0]).world, steps[1..]);
    }
  }

  // ---- what a sequence does to one path ----

  predicate Touches(s: Step, p: Path) {
    match s
    case MakeDir(_) => false
    case Put(x) => p == x.path
    case Drop(x) => p == x.path
    case Prune(q) => p == q
  }

  function Sets(s: Step): Option<Content> {
    if s.Put? then Some(s.write.content) else None
  }

  /** If every step that touches p asks for the same version, p ends at its old version or at that one. */
  lemma {:induction false} PathAfter(t: Tree, steps: seq<Step>, p: Path, target: Option<Content>)
    requires Replay(t, steps).ok
    requires forall s | s in steps :: Touches(s, p) ==> Sets(s) == target
    ensures Replay(t, steps).tree.Version(p) == if exists s :: s in steps && Touches(s, p) then target else t.Version(p)
    decreases |steps|
  {
    if steps == [] {
    } else {
      assert forall s :: s in steps <==> s == steps[0] || s in steps[1..];
      var t1 := TreeStep(t, steps[0]).tree;
      assert t1.Version(p) == if Touches(steps[0], p) then target else t.Version(p);
      PathAfter(t1, steps[1..], p, target);
    }
  }

  // ---- each phase of a sync, on an undisturbed tree ----

  function MakeSteps(ds: seq<Path>): seq<Step> {
    seq(|ds|, i requires 0 <= i < |ds| => MakeDir(ds[i]))
  }

  function PutSteps(writes: seq<Write>): seq<Step> {
    seq(|writes|, i requires 0 <= i < |writes| => Put(writes[i]))
  }

  function DropSteps(deletes: seq<Deletion>): seq<Step> {
    seq(|deletes|, i requires 0 <= i < |deletes| => Drop(deletes[i]))
  }

  function PruneSteps(ds: seq<Path>): seq<Step> {
    seq(|ds|, i requires 0 <= i < |ds| => Prune(ds[i]))
  }

  predicate MakeBlocked(t: Tree, d: Path) {
    d in t.files || t.BeneathFile(d)
  }

  /** Creating directories succeeds exactly when none of them is, or lies beneath, a file. */
  lemma {:induction false} MakesRun(t: Tree, ds: seq<Path>)
    ensures Replay(t, MakeSteps(ds)).ok <==> forall d | d in ds :: !MakeBlocked(t, d)
    ensures Replay(t, MakeSteps(ds)).ok ==>
              Replay(t, MakeSteps(ds)).tree == t.(dirs := t.dirs + (ToSet(ds) - {[]}) + ParentsOfAll(ToSet(ds)))
    decreases |ds|
  {
    if ds != [] {
      var t1 := TreeStep(t, MakeDir(ds[0])).tree;
      assert MakeSteps(ds)[1..] == MakeSteps(ds[1..]);
      assert forall d :: d in ds <==> d == ds[0] || d in ds[1..];
      assert forall d :: MakeBlocked(t1, d) <==> MakeBlocked(t, d);
      assert ds[0] in ds && (TreeStep(t, MakeDir(ds[0])).ok <==> !MakeBlocked(t, ds[0]));
      MakesRun(t1, ds[1..]);
      if TreeStep(t, MakeDir(ds[0])).ok {
        MadeFirst(t, ds);
      }
    } else {
      assert t.dirs == t.dirs + (ToSet(ds) - {[]}) + ParentsOfAll(ToSet(ds));
    }
  }

  lemma MadeFirst(t: Tree, ds: seq<Path>)
    requires ds != [] && TreeStep(t, MakeDir(ds[0])).ok
    ensures TreeStep(t, MakeDir(ds[0])).tree.dirs + (ToSet(ds[1..]) - {[]}) + ParentsOfAll(ToSet(ds[1..])) ==
            t.dirs + (ToSet(ds) - {[]}) + ParentsOfAll(ToSet(ds))
  {
    assert ToSet(ds) == {ds[0]} + ToSet(ds[1..]);
    assert ParentsOfAll(ToSet(ds)) == Parents(ds[0]) + ParentsOfAll(ToSet(ds[1..]));
  }

  function WritePaths(writes: seq<Write>): set<Path> {
    set w | w in writes :: w.path
  }

  ghost predicate WritesReady(t: Tree, writes: seq<Write>) {
    && (forall w | w in writes ::
          w.path != [] && w.path !in t.dirs && !t.BeneathFile(w.path) && t.Version(w.path) == w.expected)
    && (forall i, j | 0 <= i < |writes| && 0 <= j < |writes| && i != j ::
          writes[i].path != writes[j].path && !(writes[i].path < writes[j].path))
  }

  function Written(files: map<Path, Content>, writes: seq<Write>): map<Path, Content>
    decreases |writes|
  {
    if writes == [] then files
    else Written(files[writes[0].path := writes[0].content], writes[1..])
  }

  /** Guarded writes of distinct, un-nested paths whose expectations hold all succeed. */
  lemma {:induction false} WritesRun(t: Tree, writes: seq<Write>)
    requires WritesReady(t, writes)
    ensures Replay(t, PutSteps(writes)) ==
            Stepped(Tree(Written(t.files, writes), t.dirs + ParentsOfAll(WritePaths(writes))), true)
    decreases |writes|
  {
    if writes == [] {
      assert t.dirs == t.dirs + ParentsOfAll(WritePaths(writes));
    } else {
      var w, t1 := writes[0], TreeStep(t, Put(writes[0])).tree;
      assert w in writes;
      assert PutSteps(writes)[1..] == PutSteps(writes[1..]);
      WritesStayReady(t, writes);
      WritesRun(t1, writes[1..]);
      assert forall x :: x in writes <==> x == w || x in writes[1..];
      assert WritePaths(writes) == WritePaths(writes[1..]) + {w.path};
      assert ParentsOfAll(WritePaths(writes)) == Parents(w.path) + ParentsOfAll(WritePaths(writes[1..]));
      assert t1.dirs + ParentsOfAll(WritePaths(writes[1..])) == t.dirs + ParentsOfAll(WritePaths(writes));
    }
  }

  lemma WritesStayReady(t: Tree, writes: seq<Write>)
    requires WritesReady(t, writes) && writes != []
    ensures WritesReady(TreeStep(t, Put(writes[0])).tree, writes[1..])
  {
    var w, rest := writes[0], writes[1..];
    assert w in writes;
    var t1 := TreeStep(t, Put(w)).tree;
    forall i | 0 <= i < |rest|
      ensures rest[i].path != [] && rest[i].path !in t1.dirs
      ensures !t1.BeneathFile(rest[i].path) && t1.Version(rest[i].path) == rest[i].expected
    {
      assert rest[i] == writes[i + 1] && rest[i] in writes;
      assert writes[0].path != writes[i + 1].path;
      assert forall q | q in t1.files :: q in t.files || q == w.path;
    }
    forall i, j | 0 <= i < |rest| && 0 <= j < |rest| && i != j
      ensures rest[i].path != rest[j].path && !(rest[i].path < rest[j].path)
    {
      assert rest[i] == writes[i + 1] && rest[j] == writes[j + 1];
    }
  }

  lemma {:induction false} WrittenLookup(files: map<Path, Content>, writes: seq<Write>)
    requires forall i, j | 0 <= i < j < |writes| :: writes[i].path != writes[j].path
    ensures Written(files, writes).Keys == files.Keys + WritePaths(writes)
    ensures forall w | w in writes :: w.path in Written(files, writes) && Written(files, writes)[w.path] == w.content
    ensures forall p | p in files && p !in WritePaths(writes) :: Written(files, writes)[p] == files[p]
    decreases |writes|
  {
    if writes == [] {
    } else {
      var w, rest := writes[0], writes[1..];
      forall x | x in rest
        ensures x.path != w.path
      {
        var i :| 0 <= i < |rest| && rest[i] == x;
        assert writes[i + 1] == x;
      }
      WrittenLookup(files[w.path := w.content], rest);
      assert forall x :: x in writes <==> x == w || x in rest;
      assert WritePaths(writes) == WritePaths(rest) + {w.path};
    }
  }

  function DeletePaths(deletes: seq<Deletion>): set<Path> {
    set d | d in deletes :: d.path
  }

  ghost predicate DeletesReady(t: Tree, deletes: seq<Deletion>) {
    && (forall d | d in deletes :: t.Version(d.path) == Some(d.version) && d.path !in t.dirs && !t.BeneathFile(d.path))
    && (forall i, j | 0 <= i < j < |deletes| :: deletes[i].path != deletes[j].path)
  }

  lemma {:induction false} DeletesRun(t: Tree, deletes: seq<Deletion>)
    requires DeletesReady(t, deletes)
    ensures Replay(t, DropSteps(deletes)) == Stepped(t.(files := t.files - DeletePaths(deletes)), true)
    decreases |deletes|
  {
    if deletes == [] {
      assert t.files == t.files - DeletePaths(deletes);
    } else {
      var d, rest, t1 := deletes[0], deletes[1..], TreeStep(t, Drop(deletes[0])).tree;
      assert d in deletes;
      assert DropSteps(deletes)[1..] == DropSteps(rest);
      forall x | x in rest
        ensures x.path != d.path
      {
        var i :| 0 <= i < |rest| && rest[i] == x;
        assert deletes[i + 1] == x;
      }
      assert forall x :: x in deletes <==> x == d || x in rest;
      DeletesRun(t1, rest);
      assert DeletePaths(deletes) == DeletePaths(rest) + {d.path};
      assert t1.files - DeletePaths(rest) == t.files - DeletePaths(deletes);
    }
  }

  /** Whole sequences keep a real directory tree. */
  lemma {:induction false} ReplayKeepsValid(t: Tree, steps: seq<Step>)
    requires t.Valid()
    ensures Replay(t, steps).tree.Valid()
    decreases |steps|
  {
    if steps == [] {
    } else {
      var s := steps[0];
      match s {
        case MakeDir(d) => CommandsKeepValid(t, d, "", None);
        case Put(x) => CommandsKeepValid(t, x.path, x.content, x.expected);
        case Drop(x) => CommandsKeepValid(t, x.path, "", None);
        case Prune(d) => CommandsKeepValid(t, d, "", None);
      }
      ReplayKeepsValid(TreeStep(t, s).tree, steps[1..]);
    }
  }

  // ---- creating directories, in string order ----

  /** The order of Array.sort() on strings, by code unit. */
  predicate ComesBefore(a: string, b: string) {
    b != "" && (a == "" || a[0] < b[0] || (a[0] == b[0] && ComesBefore(a[1..], b[1..])))
  }

  lemma {:induction false} ComesBeforeIsOneWay(a: string, b: string)
    requires ComesBefore(a, b)
    ensures !ComesBefore(b, a)
  {
    if a == "" || a[0] < b[0] {
    } else {
      ComesBeforeIsOneWay(a[1..], b[1..]);
    }
  }

  ghost predicate AscendingOrder(ds: seq<Path>) {
    forall i | 0 < i < |ds| :: !ComesBefore(Join(ds[i]), Join(ds[i - 1]))
  }

  lemma ConsByName(h: Path, ds: seq<Path>, rest: seq<Path>)
    requires AscendingOrder([h] + ds)
    ensures AscendingOrder(ds)
    ensures AscendingOrder(rest) && (rest == [] || !ComesBefore(Join(rest[0]), Join(h))) ==> AscendingOrder([h] + rest)
  {
    forall i | 0 < i < |ds|
      ensures !ComesBefore(Join(ds[i]), Join(ds[i - 1]))
    {
      var all := [h] + ds;
      assert all[i + 1] == ds[i] && all[i + 1 - 1] == ds[i - 1];
    }
  }

  function InsertByName(d: Path, ds: seq<Path>): (r: seq<Path>)
    requires AscendingOrder(ds)
    ensures AscendingOrder(r) && multiset(r) == multiset{d} + multiset(ds)
    ensures forall x :: x in r <==> x == d || x in ds
    ensures r[0] == d || (ds != [] && r[0] == ds[0])
    decreases |ds|
  {
    if ds == [] || !ComesBefore(Join(ds[0]), Join(d)) then
      assert multiset([d] + ds) == multiset{d} + multiset(ds);
      [d] + ds
    else
      assert ds == [ds[0]] + ds[1..];
      ConsByName(ds[0], ds[1..], []);
      ComesBeforeIsOneWay(Join(ds[0]), Join(d));
      var rest := InsertByName(d, ds[1..]);
      ConsByName(ds[0], ds[1..], rest);
      [ds[0]] + rest
  }

  function Sorted(ds: seq<Path>): (r: seq<Path>)
    ensures AscendingOrder(r) && multiset(r) == multiset(ds)
    ensures forall x :: x in r <==> x in ds
  {
    if ds == [] then []
    else
      assert ds == [ds[0]] + ds[1..];
      InsertByName(ds[0], Sorted(ds[1..]))
  }

  // ---- removing directories, deepest first ----

  ghost predicate DeepestFirstOrder(ds: seq<Path>) {
    forall i, j | 0 <= i < j < |ds| :: |ds[i]| >= |ds[j]|
  }

  function InsertByDepth(d: Path, ds: seq<Path>): (r: seq<Path>)
    requires DeepestFirstOrder(ds)
    ensures DeepestFirstOrder(r) && multiset(r) == multiset{d} + multiset(ds)
    ensures forall x :: x in r <==> x == d || x in ds
    decreases |ds|
  {
    if ds == [] || |d| >= |ds[0]| then
      assert multiset([d] + ds) == multiset{d} + multiset(ds);
      [d] + ds
    else
      var rest := InsertByDepth(d, ds[1..]);
      ConsByDepth(d, ds[0], ds[1..], rest);
      assert ds == [ds[0]] + ds[1..];
      [ds[0]] + rest
  }

  lemma ConsByDepth(d: Path, first: Path, rest: seq<Path>, longer: seq<Path>)
    requires DeepestFirstOrder([first] + rest) && DeepestFirstOrder(longer) && |d| <= |first|
    requires multiset(longer) == multiset{d} + multiset(rest)
    requires forall x :: x in longer <==> x == d || x in rest
    ensures DeepestFirstOrder([first] + longer)
    ensures multiset([first] + longer) == multiset{d} + multiset([first] + rest)
    ensures forall x :: x in [first] + longer <==> x == d || x in [first] + rest
  {
    forall x | x in rest
      ensures |x| <= |first|
    {
      var i :| 0 <= i < |rest| && rest[i] == x;
      assert ([first] + rest)[0] == first && ([first] + rest)[i + 1] == x;
    }
    assert forall i | 0 <= i < |longer| :: longer[i] in longer;
  }

  /** The order in which directories are removed: most segments first. */
  function DeepestFirst(ds: seq<Path>): (r: seq<Path>)
    ensures DeepestFirstOrder(r) && multiset(r) == multiset(ds)
    ensures forall x :: x in r <==> x in ds
  {
    if ds == [] then []
    else
      assert ds == [ds[0]] + ds[1..];
      InsertByDepth(ds[0], DeepestFirst(ds[1..]))
  }

  /** d can go once everything in S that lies beneath it has gone. */
  ghost predicate Prunable(t: Tree, S: set<Path>, d: Path) {
    && !t.BeneathFile(d)
    && (d in t.dirs ==> forall e :: e in t.Paths() && d < e ==> e in S)
  }

  function Without(t: Tree, S: set<Path>): Tree {
    Tree(t.files - S, t.dirs - S)
  }

  ghost predicate AllPrunable(t: Tree, ds: seq<Path>) {
    forall d | d in ds :: Prunable(t, ToSet(ds), d)
  }

  /** Deepest first, the non-recursive removals all succeed exactly when each directory holds
      nothing but other directories of the list; then precisely the listed paths are gone. */
  lemma {:induction false} PrunesRun(t: Tree, ds: seq<Path>)
    requires DeepestFirstOrder(ds) && t.files.Keys !! t.dirs
    ensures Replay(t, PruneSteps(ds)).ok <==> AllPrunable(t, ds)
    ensures Replay(t, PruneSteps(ds)).ok ==> Replay(t, PruneSteps(ds)).tree == Without(t, ToSet(ds))
    decreases |ds|
  {
    if ds == [] {
      assert Without(t, ToSet(ds)) == t;
    } else {
      assert PruneSteps(ds)[1..] == PruneSteps(ds[1..]);
      FirstPrune(t, ds);
      if TreeStep(t, Prune(ds[0])).ok {
        PrunesRun(Without(t, {ds[0]}), ds[1..]);
        assert Without(Without(t, {ds[0]}), ToSet(ds[1..])) == Without(t, ToSet(ds)) by {
          assert ToSet(ds) == {ds[0]} + ToSet(ds[1..]);
        }
      }
    }
  }

  lemma FirstPrune(t: Tree, ds: seq<Path>)
    requires ds != [] && DeepestFirstOrder(ds) && t.files.Keys !! t.dirs
    ensures !TreeStep(t, Prune(ds[0])).ok ==> !AllPrunable(t, ds)
    ensures TreeStep(t, Prune(ds[0])).ok ==>
              TreeStep(t, Prune(ds[0])).tree == Without(t, {ds[0]}) &&
              (AllPrunable(t, ds) <==> AllPrunable(Without(t, {ds[0]}), ds[1..]))
  {
    var d0, rest := ds[0], ToSet(ds[1..]);
    assert ToSet(ds) == {d0} + rest;
    assert forall x | x in ds :: |x| <= |d0|;
    assert d0 in ds;
    if TreeStep(t, Prune(d0)).ok {
      assert TreeStep(t, Prune(d0)).tree.files == t.files - {d0};
      assert TreeStep(t, Prune(d0)).tree.dirs == t.dirs - {d0};
      PrunableAfterFirst(t, d0, rest);
      assert forall d :: d in ds <==> d == d0 || d in ds[1..];
      assert forall d :: d in ds[1..] <==> d in rest;
      assert Prunable(t, ToSet(ds), d0);
    }
  }

  lemma PrunableAfterFirst(t: Tree, d0: Path, rest: set<Path>)
    requires t.files.Keys !! t.dirs
    requires TreeStep(t, Prune(d0)).ok
    requires forall d | d in rest :: |d| <= |d0|
    ensures forall d | d in rest :: Prunable(t, {d0} + rest, d) <==> Prunable(Without(t, {d0}), rest, d)
  {
    var t1 := Without(t, {d0});
    forall d | d in rest
      ensures Prunable(t, {d0} + rest, d) <==> Prunable(t1, rest, d)
    {
      assert forall q | q in t1.files :: q in t.files;
      assert forall q | q in t.files :: q in t1.files || q == d0;
      assert t.BeneathFile(d) <==> t1.BeneathFile(d);
      assert t.Paths() == t1.Paths() + ({d0} * t.Paths());
    }
  }
}
