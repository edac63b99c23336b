/** `bb docs pull`: plan by three-way comparison, then change the workspace step by step. */
module Pull {
  import opened Basics
  import opened Paths
  import opened HostFiles
  import opened Merge
  import opened Manifest
  import opened Steps

  datatype Issue = Issue(path: Path, reason: Reason)

  // ---- planning ----

  datatype PullPlan = PullPlan(writes: seq<Write>, deletes: seq<Deletion>, conflicts: seq<Issue>)

  function ChoiceAt(base: map<Path, Content>, local: map<Path, Content>, remote: map<Path, Content>, p: Path): Choice {
    PullChoice(At(base, p), At(local, p), At(remote, p))
  }

  ghost predicate DistinctWrites(writes: seq<Write>) {
    forall i, j | 0 <= i < j < |writes| :: writes[i].path != writes[j].path
  }

  ghost predicate DistinctDeletes(deletes: seq<Deletion>) {
    forall i, j | 0 <= i < j < |deletes| :: deletes[i].path != deletes[j].path
  }

  /** The plan carries out the choice made for every path, each once, and nothing else. */
  ghost predicate IsPullPlan(base: map<Path, Content>, local: map<Path, Content>, remote: map<Path, Content>,
                             plan: PullPlan) {
    && DistinctWrites(plan.writes) && DistinctDeletes(plan.deletes)
    && (forall w :: w in plan.writes <==>
          ChoiceAt(base, local, remote, w.path) == Copy(w.expected) && At(remote, w.path) == Some(w.content))
    && (forall d :: d in plan.deletes <==> ChoiceAt(base, local, remote, d.path) == Erase(d.version))
    && (forall c :: c in plan.conflicts <==> ChoiceAt(base, local, remote, c.path) == Clash(c.reason))
  }

  /** The part of a plan that concerns the paths looked at so far. */
  ghost predicate PlannedFor(done: set<Path>, base: map<Path, Content>, local: map<Path, Content>,
                             remote: map<Path, Content>, plan: PullPlan) {
    && DistinctWrites(plan.writes) && DistinctDeletes(plan.deletes)
    && (forall w :: w in plan.writes <==>
          w.path in done && ChoiceAt(base, local, remote, w.path) == Copy(w.expected) &&
              At(remote, w.path) == Some(w.content))
    && (forall d :: d in plan.deletes <==> d.path in done && ChoiceAt(base, local, remote, d.path) == Erase(d.version))
    && (forall c :: c in plan.conflicts <==> c.path in done && ChoiceAt(base, local, remote, c.path) == Clash(c.reason))
  }

  function Record(seen: map<Path, Content>, p: Path, reply: ReadReply): map<Path, Content> {
    if reply.Found? then seen[p := reply.content] else seen
  }

  function AddChoice(plan: PullPlan, p: Path, choice: Choice, remote: Option<Content>): PullPlan {
    match choice
    case Keep => plan
    case Copy(e) => if remote.Some? then plan.(writes := plan.writes + [Write(p, remote.value, e)]) else plan
    case Erase(v) => plan.(deletes := plan.deletes + [Deletion(p, v)])
    case Clash(r) => plan.(conflicts := plan.conflicts + [Issue(p, r)])
  }

  lemma PlanOneMore(done: set<Path>, base: map<Path, Content>, seen: map<Path, Content>, remote: map<Path, Content>,
                    plan: PullPlan, p: Path, reply: ReadReply)
    requires PlannedFor(done, base, seen, remote, plan) && p !in done && p !in seen
    ensures PlannedFor(done + {p}, base, Record(seen, p, reply), remote,
                       AddChoice(plan, p, ChoiceAt(base, Record(seen, p, reply), remote, p), At(remote, p)))
  {
    var seen1 := Record(seen, p, reply);
    forall q | q != p
      ensures ChoiceAt(base, seen1, remote, q) == ChoiceAt(base, seen, remote, q)
    {
    }
    assert PlannedFor(done, base, seen1, remote, plan);
    AddOneMore(done, base, seen1, remote, plan, p);
  }

  lemma AddOneMore(done: set<Path>, base: map<Path, Content>, seen: map<Path, Content>, remote: map<Path, Content>,
                   plan: PullPlan, p: Path)
    requires PlannedFor(done, base, seen, remote, plan) && p !in done
    ensures PlannedFor(done + {p}, base, seen, remote,
              AddChoice(plan, p, ChoiceAt(base, seen, remote, p), At(remote, p)))
  {}

  /** What reading the paths in `done` on an undisturbed workspace found. */
  ghost predicate SeenAre(t: Tree, done: set<Path>, seen: map<Path, Content>) {
    forall p | p in done :: At(seen, p) == t.Version(p) && ReadTree(t, p) != Unreadable
  }

  /** Looks at one file of the vault. */
  method LookAtPresent(host: Host, base: map<Path, Content>, ghost remote: map<Path, Content>, file: Entry,
                       plan: PullPlan, seen: map<Path, Content>, ghost done: set<Path>)
    returns (ok: bool, plan': PullPlan, seen': map<Path, Content>)
    requires PlannedFor(done, base, seen, remote, plan) && seen.Keys <= done && file.path !in done
    requires At(remote, file.path) == Some(file.content)
    modifies host
    ensures OnlyRead(old(host.Now()), host.Now())
    ensures ok ==> PlannedFor(done + {file.path}, base, seen', remote, plan') && seen'.Keys <= done + {file.path}
    ensures old(host.turns) == [] ==> (ok <==> ReadTree(host.tree, file.path) != Unreadable)
    ensures Alone(old(host.Now())) && ok && SeenAre(host.tree, done, seen) ==>
              SeenAre(host.tree, done + {file.path}, seen')
  {
    var reply := host.Read(file.path);
    if reply.Unreadable? { return false, plan, seen; }
    var local := if reply.Found? then Some(reply.content) else None;
    PlanOneMore(done, base, seen, remote, plan, file.path, reply);
    ok, plan', seen' := true,
      AddChoice(plan, file.path, PullPresent(At(base, file.path), local, file.content), Some(file.content)),
      Record(seen, file.path, reply);
  }

  /** Looks at one manifest entry the vault no longer has. */
  method LookAtGone(host: Host, ghost base: map<Path, Content>, ghost remote: map<Path, Content>, entry: ManifestEntry,
                    plan: PullPlan, seen: map<Path, Content>, ghost done: set<Path>)
    returns (ok: bool, plan': PullPlan, seen': map<Path, Content>)
    requires PlannedFor(done, base, seen, remote, plan) && seen.Keys <= done && entry.localPath !in done
    requires At(base, entry.localPath) == Some(entry.version) && entry.localPath !in remote
    modifies host
    ensures OnlyRead(old(host.Now()), host.Now())
    ensures ok ==>
              PlannedFor(done + {entry.localPath}, base, seen', remote, plan') && seen'.Keys <= done + {entry.localPath}
    ensures old(host.turns) == [] ==> (ok <==> ReadTree(host.tree, entry.localPath) != Unreadable)
    ensures Alone(old(host.Now())) && ok && SeenAre(host.tree, done, seen) ==>
              SeenAre(host.tree, done + {entry.localPath}, seen')
  {
    var reply := host.Read(entry.localPath);
    if reply.Unreadable? { return false, plan, seen; }
    var local := if reply.Found? then Some(reply.content) else None;
    PlanOneMore(done, base, seen, remote, plan, entry.localPath, reply);
    ok, plan', seen' := true,
      AddChoice(plan, entry.localPath, PullGone(entry.version, local), None),
      Record(seen, entry.localPath, reply);
  }

  /** First loop: every file of the vault. */
  method PlanPresent(host: Host, base: map<Path, Content>, files: seq<Entry>)
    returns (unreadable: Option<Path>, plan: PullPlan, seen: map<Path, Content>)
    requires DistinctPaths(files)
    modifies host
    ensures OnlyRead(old(host.Now()), host.Now())
    ensures unreadable.None? ==>
              PlannedFor(ToMap(files).Keys, base, seen, ToMap(files), plan) && seen.Keys <= ToMap(files).Keys
    ensures Alone(old(host.Now())) && unreadable.None? ==> SeenAre(host.tree, ToMap(files).Keys, seen)
    ensures old(host.turns) == [] && unreadable.Some? ==>
              unreadable.value in ToMap(files) && ReadTree(host.tree, unreadable.value) == Unreadable
  {
    var remote := ToMap(files);
    plan, seen := PullPlan([], [], []), map[];
    ghost var done: set<Path> := {};
    for i := 0 to |files|
      invariant PlannedFor(done, base, seen, remote, plan) && seen.Keys <= done
      invariant done == FilePaths(files[..i])
      invariant OnlyRead(old(host.Now()), host.Now())
      invariant Alone(old(host.Now())) ==> SeenAre(host.tree, done, seen)
    {
      var file := files[i];
      FileIsNew(files, i);
      var ok;
      ok, plan, seen := LookAtPresent(host, base, remote, file, plan, seen, done);
      if !ok { return Some(file.path), plan, seen; }
      done := done + {file.path};
    }
    FileKeys(files);
    unreadable := None;
  }

  function FilePaths(files: seq<Entry>): set<Path> {
    set e | e in files :: e.path
  }

  lemma FileIsNew(files: seq<Entry>, i: nat)
    requires DistinctPaths(files) && i < |files|
    ensures files[i].path !in FilePaths(files[..i])
    ensures FilePaths(files[..i + 1]) == FilePaths(files[..i]) + {files[i].path}
    ensures At(ToMap(files), files[i].path) == Some(files[i].content)
  {
    NotAmongEarlier(files, i);
    OneMorePath(files[..i], files[i], files[..i + 1]);
    assert At(ToMap(files), files[i].path) == Some(files[i].content) by {
      ToMapLookup(files);
      assert files[i] in files;
    }
  }

  lemma OneMorePath(files: seq<Entry>, file: Entry, more: seq<Entry>)
    requires more == files + [file]
    ensures FilePaths(more) == FilePaths(files) + {file.path}
  {
    assert forall e :: e in more <==> e in files || e == file;
  }

  lemma NotAmongEarlier(files: seq<Entry>, i: nat)
    requires DistinctPaths(files) && i < |files|
    ensures forall e | e in files[..i] :: e.path != files[i].path
  {
    forall e | e in files[..i]
      ensures e.path != files[i].path
    {
      var k :| 0 <= k < i && files[..i][k] == e;
      assert files[k] == e;
    }
  }

  lemma FileKeys(files: seq<Entry>)
    ensures FilePaths(files[..|files|]) == ToMap(files).Keys
  {
    assert files[..|files|] == files;
    forall p | p in ToMap(files)
      ensures p in FilePaths(files)
    {
      var i :| 0 <= i < |files| && files[i].path == p;
      assert files[i] in files;
    }
  }

  function RemotePaths(entries: seq<ManifestEntry>): set<Path> {
    set e | e in entries :: e.remotePath
  }

  lemma EntryIsNew(state: SyncState, i: nat)
    requires Trusted(state) && i < |state.entries|
    ensures var e := state.entries[i];
            && e.localPath == e.remotePath && e.remotePath !in RemotePaths(state.entries[..i])
            && RemotePaths(state.entries[..i + 1]) == RemotePaths(state.entries[..i]) + {e.remotePath}
            && At(state.Base(), e.remotePath) == Some(e.version)
  {
    BaseLookup(state);
    var e := state.entries[i];
    assert e in state.entries;
    RemotePathsGrow(state.entries, i);
    forall x | x in state.entries[..i]
      ensures x.remotePath != e.remotePath
    {
      var k :| 0 <= k < i && state.entries[..i][k] == x;
      assert state.entries[k] == x;
    }
  }

  lemma RemotePathsGrow(entries: seq<ManifestEntry>, i: nat)
    requires i < |entries|
    ensures RemotePaths(entries[..i + 1]) == RemotePaths(entries[..i]) + {entries[i].remotePath}
  {
    assert entries[..i + 1] == entries[..i] + [entries[i]];
  }

  lemma BaseKeys(state: SyncState)
    requires Trusted(state)
    ensures RemotePaths(state.entries[..|state.entries|]) == state.Base().Keys
  {
    BaseLookup(state);
    assert state.entries[..|state.entries|] == state.entries;
    forall p | p in state.Base()
      ensures p in RemotePaths(state.entries)
    {
      var i :| 0 <= i < |state.entries| && state.entries[i].remotePath == p;
      assert state.entries[i] in state.entries;
    }
  }

  /** An entry still in the vault has been looked at already. */
  method LookIfGone(host: Host, ghost base: map<Path, Content>, remote: map<Path, Content>, entry: ManifestEntry,
                    plan: PullPlan, seen: map<Path, Content>, ghost done: set<Path>)
    returns (ok: bool, plan': PullPlan, seen': map<Path, Content>)
    requires PlannedFor(done, base, seen, remote, plan) && seen.Keys <= done
    requires entry.localPath == entry.remotePath && (entry.localPath in remote <==> entry.localPath in done)
    requires At(base, entry.localPath) == Some(entry.version)
    modifies host
    ensures OnlyRead(old(host.Now()), host.Now())
    ensures ok ==>
              PlannedFor(done + {entry.localPath}, base, seen', remote, plan') && seen'.Keys <= done + {entry.localPath}
    ensures old(host.turns) == [] && !ok ==> ReadTree(host.tree, entry.localPath) == Unreadable
    ensures Alone(old(host.Now())) && ok && SeenAre(host.tree, done, seen) ==>
              SeenAre(host.tree, done + {entry.localPath}, seen')
  {
    if entry.remotePath in remote {
      assert done + {entry.localPath} == done;
      return true, plan, seen;
    }
    ok, plan', seen' := LookAtGone(host, base, remote, entry, plan, seen, done);
  }

  /** Entry i is listed once, and the base map holds it. */
  ghost predicate FreshEntry(entries: seq<ManifestEntry>, base: map<Path, Content>, i: nat)
    requires i < |entries|
  {
    var e := entries[i];
    && e.localPath == e.remotePath && e.remotePath !in RemotePaths(entries[..i])
    && RemotePaths(entries[..i + 1]) == RemotePaths(entries[..i]) + {e.remotePath}
    && At(base, e.remotePath) == Some(e.version)
  }

  /** Second loop: the manifest entries the vault no longer has. */
  method PlanGone(host: Host, entries: seq<ManifestEntry>, ghost base: map<Path, Content>, remote: map<Path, Content>,
                  plan0: PullPlan, seen0: map<Path, Content>)
    returns (unreadable: Option<Path>, plan: PullPlan, seen: map<Path, Content>)
    requires forall i | 0 <= i < |entries| :: FreshEntry(entries, base, i)
    requires RemotePaths(entries[..|entries|]) == base.Keys
    requires PlannedFor(remote.Keys, base, seen0, remote, plan0) && seen0.Keys <= remote.Keys
    modifies host
    ensures OnlyRead(old(host.Now()), host.Now())
    ensures unreadable.None? ==> PlannedFor(remote.Keys + base.Keys, base, seen, remote, plan)
    ensures Alone(old(host.Now())) && unreadable.None? && SeenAre(host.tree, remote.Keys, seen0) ==>
              SeenAre(host.tree, remote.Keys + base.Keys, seen)
    ensures old(host.turns) == [] && unreadable.Some? ==>
              unreadable.value in base && ReadTree(host.tree, unreadable.value) == Unreadable
  {
    plan, seen := plan0, seen0;
    ghost var done := remote.Keys;
    for i := 0 to |entries|
      invariant PlannedFor(done, base, seen, remote, plan) && seen.Keys <= done
      invariant done == remote.Keys + RemotePaths(entries[..i])
      invariant OnlyRead(old(host.Now()), host.Now())
      invariant Alone(old(host.Now())) && SeenAre(host.tree, remote.Keys, seen0) ==> SeenAre(host.tree, done, seen)
    {
      assert FreshEntry(entries, base, i);
      var ok;
      ok, plan, seen := LookIfGone(host, base, remote, entries[i], plan, seen, done);
      if !ok { return Some(entries[i].localPath), plan, seen; }
      done := done + {entries[i].localPath};
    }
    unreadable := None;
  }

  lemma TrustedEntriesAreFresh(state: SyncState)
    requires Trusted(state)
    ensures forall i | 0 <= i < |state.entries| :: FreshEntry(state.entries, state.Base(), i)
    ensures RemotePaths(state.entries[..|state.entries|]) == state.Base().Keys
  {
    forall i | 0 <= i < |state.entries|
      ensures FreshEntry(state.entries, state.Base(), i)
    {
      EntryIsNew(state, i);
    }
    BaseKeys(state);
  }

  lemma PlannedForAll(base: map<Path, Content>, seen: map<Path, Content>, remote: map<Path, Content>, plan: PullPlan)
    requires PlannedFor(remote.Keys + base.Keys, base, seen, remote, plan)
    ensures IsPullPlan(base, seen, remote, plan)
  {}

  /** Reads the workspace copy of every tracked or remote path once; `seen` is what those reads found. */
  method PlanPull(host: Host, existing: Option<SyncState>, snapshot: Snapshot)
    returns (r: Result<PullPlan, Path>, seen: map<Path, Content>)
    requires existing.Some? ==> Trusted(existing.value)
    requires DistinctPaths(snapshot.files)
    modifies host
    ensures OnlyRead(old(host.Now()), host.Now())
    ensures r.Ok? ==> IsPullPlan(BaseOf(existing), seen, snapshot.Remote(), r.value)
    ensures old(host.turns) == [] ==>
              && (r.Ok? <==> AllReadable(host.tree, BaseOf(existing), snapshot.Remote()))
              && (r.Err? ==>
                    ReadTree(host.tree, r.error) == Unreadable &&
                    r.error in BaseOf(existing).Keys + snapshot.Remote().Keys)
    ensures Alone(old(host.Now())) && r.Ok? ==>
              forall p | p in BaseOf(existing).Keys + snapshot.Remote().Keys :: At(seen, p) == host.tree.Version(p)
  {
    var base := BaseOf(existing);
    var unreadable, plan, looked := PlanPresent(host, base, snapshot.files);
    seen := looked;
    if unreadable.Some? { return Err(unreadable.value), seen; }
    if existing.Some? {
      TrustedEntriesAreFresh(existing.value);
      unreadable, plan, seen := PlanGone(host, existing.value.entries, base, snapshot.Remote(), plan, seen);
      if unreadable.Some? { return Err(unreadable.value), seen; }
    }
    assert PlannedFor(snapshot.Remote().Keys + base.Keys, base, seen, snapshot.Remote(), plan) by {
      if existing.None? {
        assert snapshot.Remote().Keys + base.Keys == snapshot.Remote().Keys;
      }
    }
    PlannedForAll(base, seen, snapshot.Remote(), plan);
    return Ok(plan), seen;
  }

  function BaseOf(existing: Option<SyncState>): map<Path, Content> {
    if existing.Some? then existing.value.Base() else map[]
  }

  lemma BaseLookup(state: SyncState)
    requires Trusted(state)
    ensures forall p :: p in state.Base() <==> exists i :: 0 <= i < |state.entries| && state.entries[i].remotePath == p
    ensures forall e | e in state.entries :: e.remotePath in state.Base() && state.Base()[e.remotePath] == e.version
  {
    var files := seq(|state.entries|, i requires 0 <= i < |state.entries| => Entry(state.entries[i].remotePath,
        state.entries[i].version));
    ToMapLookup(files);
    forall i | 0 <= i < |state.entries|
      ensures state.entries[i].remotePath in state.Base()
      ensures state.Base()[state.entries[i].remotePath] == state.entries[i].version
    {
      assert files[i] in files;
    }
    forall p | p in state.Base()
      ensures exists i :: 0 <= i < |state.entries| && state.entries[i].remotePath == p
    {
      var i :| 0 <= i < |files| && files[i].path == p;
    }
  }

  /** Every path the plan looks at can be read: it is neither a directory nor beneath a file. */
  ghost predicate AllReadable(t: Tree, base: map<Path, Content>, remote: map<Path, Content>) {
    forall p | p in base.Keys + remote.Keys :: ReadTree(t, p) != Unreadable
  }

  // ---- executing ----

  /** Manifest directories that the vault no longer has. */
  function RemovedDirectories(existing: Option<SyncState>, snapshot: Snapshot): (r: seq<Path>)
    ensures forall d :: d in r <==> existing.Some? && d in existing.value.directories && d !in snapshot.directories
  {
    if existing.None? then [] else Outside(existing.value.directories, snapshot.directories)
  }

  function Outside(ds: seq<Path>, kept: seq<Path>): (r: seq<Path>)
    ensures forall d :: d in r <==> d in ds && d !in kept
  {
    if ds == [] then []
    else (if ds[0] in kept then [] else [ds[0]]) + Outside(ds[1..], kept)
  }

  /** The mutations of a pull, in order: the root and the vault's directories, writes, deletes, removed directories. */
  function PullSteps(directories: seq<Path>, plan: PullPlan, removed: seq<Path>): seq<Step> {
    PullFront(directories, plan) + PruneSteps(DeepestFirst(removed))
  }

  function PullFront(directories: seq<Path>, plan: PullPlan): seq<Step> {
    MakeSteps([[]] + directories) + PutSteps(plan.writes) + DropSteps(plan.deletes)
  }

  /** What is listed is what was done, in order; only the last command, if it failed after taking effect, is missing. */
  ghost predicate Lists(from: seq<Effect>, to: seq<Effect>, removes: bool, paths: seq<Path>) {
    && from <= to && |from| + |paths| <= |to| <= |from| + |paths| + 1
    && forall i | 0 <= i < |paths| :: to[|from| + i].path == paths[i] && to[|from| + i].Removed? == removes
  }

  /** The same for the three lists of a pull. */
  ghost predicate ReportsAll(from: seq<Effect>, to: seq<Effect>, written: seq<Path>, removed: seq<Path>) {
    && from <= to && |from| + |written| + |removed| <= |to| <= |from| + |written| + |removed| + 1
    && (forall i | 0 <= i < |written| :: to[|from| + i].path == written[i] && to[|from| + i].Replaced?)
    && (forall i | 0 <= i < |removed| ::
          to[|from| + |written| + i].path == removed[i] && to[|from| + |written| + i].Removed?)
  }

  lemma OnlyWritten(from: seq<Effect>, to: seq<Effect>, written: seq<Path>)
    requires Lists(from, to, false, written)
    ensures ReportsAll(from, to, written, [])
  {
    forall i | 0 <= i < |written|
      ensures to[|from| + i].path == written[i] && to[|from| + i].Replaced?
    {
      assert to[|from| + i].path == written[i];
      assert !to[|from| + i].Removed?;
      match to[|from| + i]
      case Replaced(_, _, _) =>
      case Removed(_, _) =>
    }
  }

  lemma MoreReported(from: seq<Effect>, middle: seq<Effect>, to: seq<Effect>, written: seq<Path>, removed: seq<Path>,
                     more: seq<Path>)
    requires ReportsAll(from, middle, written, removed) && |middle| == |from| + |written| + |removed|
    requires Lists(middle, to, true, more)
    ensures ReportsAll(from, to, written, removed + more)
  {
    forall i | 0 <= i < |removed + more|
      ensures to[|from| + |written| + i].path == (removed + more)[i] && to[|from| + |written| + i].Removed?
    {
      if i >= |removed| {
        assert to[|middle| + (i - |removed|)].path == more[i - |removed|];
      }
    }
  }

  method MakeAll(host: Host, ds: seq<Path>) returns (ok: bool)
    modifies host
    ensures host.log == old(host.log)
    ensures Ran(host.Now(), ok) == StrictRun(old(host.Now()), MakeSteps(ds))
  {
    for i := 0 to |ds|
      invariant host.log == old(host.log)
      invariant StrictRun(old(host.Now()), MakeSteps(ds)) == StrictRun(host.Now(), MakeSteps(ds[i..]))
    {
      assert MakeSteps(ds[i..])[1..] == MakeSteps(ds[i + 1..]);
      var reply := host.Mkdir(ds[i]);
      if !reply.Done? { return false; }
    }
    return true;
  }

  ghost predicate Grows(from: seq<Effect>, to: seq<Effect>, removes: bool, done: seq<Path>, ok: bool) {
    Lists(from, to, removes, done) && (ok ==> |to| == |from| + |done|)
  }

  lemma GrowsMore(a: seq<Effect>, b: seq<Effect>, c: seq<Effect>, removes: bool, done: seq<Path>, last: seq<Path>,
                  ok: bool)
    requires Grows(a, b, removes, done, true) && Grows(b, c, removes, last, ok)
    ensures Grows(a, c, removes, done + last, ok)
  {
    forall i | 0 <= i < |done + last|
      ensures c[|a| + i].path == (done + last)[i] && c[|a| + i].Removed? == removes
    {
      if i < |done| {
        assert c[|a| + i] == b[|a| + i];
      } else {
        assert c[|b| + (i - |done|)].path == last[i - |done|];
      }
    }
  }

  method WriteOne(host: Host, w: Write) returns (ok: bool)
    modifies host
    ensures Ran(host.Now(), ok) == StrictStep(old(host.Now()), Put(w))
    ensures Grows(old(host.log), host.log, false, if ok then [w.path] else [], ok)
  {
    var reply := host.Write(w.path, w.content, w.expected);
    ok := reply.Done?;
  }

  method DeleteOne(host: Host, d: Deletion) returns (ok: bool)
    modifies host
    ensures Ran(host.Now(), ok) == StrictStep(old(host.Now()), Drop(d))
    ensures Grows(old(host.log), host.log, true, if ok then [d.path] else [], ok)
  {
    var current := host.Read(d.path);
    if current != Found(d.version) { return false; }
    var reply := host.Remove(d.path);
    ok := reply.Done?;
  }

  /** A directory that is already missing is passed over. */
  method PruneOne(host: Host, d: Path) returns (ok: bool, gone: seq<Path>)
    modifies host
    ensures Ran(host.Now(), ok) == StrictStep(old(host.Now()), Prune(d))
    ensures gone == [] || gone == [d]
    ensures Grows(old(host.log), host.log, true, gone, ok)
  {
    var reply := host.Remove(d);
    ok := reply.Done? || reply.Missing?;
    gone := if reply.Done? then [d] else [];
  }

  method WriteAll(host: Host, writes: seq<Write>) returns (ok: bool, written: seq<Path>)
    modifies host
    ensures Ran(host.Now(), ok) == StrictRun(old(host.Now()), PutSteps(writes))
    ensures |written| <= |writes| && (ok ==> |written| == |writes|)
    ensures forall i | 0 <= i < |written| :: written[i] == writes[i].path
    ensures Grows(old(host.log), host.log, false, written, ok)
  {
    written := [];
    for i := 0 to |writes|
      invariant StrictRun(old(host.Now()), PutSteps(writes)) == StrictRun(host.Now(), PutSteps(writes[i..]))
      invariant |written| == i && forall k | 0 <= k < i :: written[k] == writes[k].path
      invariant Grows(old(host.log), host.log, false, written, true)
    {
      assert PutSteps(writes[i..])[1..] == PutSteps(writes[i + 1..]);
      ghost var before := host.log;
      ok := WriteOne(host, writes[i]);
      GrowsMore(old(host.log), before, host.log, false, written, if ok then [writes[i].path] else [], ok);
      assert written + [] == written;
      if !ok { return; }
      written := written + [writes[i].path];
    }
    ok := true;
  }

  method DeleteAll(host: Host, deletes: seq<Deletion>) returns (ok: bool, deleted: seq<Path>)
    modifies host
    ensures Ran(host.Now(), ok) == StrictRun(old(host.Now()), DropSteps(deletes))
    ensures |deleted| <= |deletes| && (ok ==> |deleted| == |deletes|)
    ensures forall i | 0 <= i < |deleted| :: deleted[i] == deletes[i].path
    ensures Grows(old(host.log), host.log, true, deleted, ok)
  {
    deleted := [];
    for i := 0 to |deletes|
      invariant StrictRun(old(host.Now()), DropSteps(deletes)) == StrictRun(host.Now(), DropSteps(deletes[i..]))
      invariant |deleted| == i && forall k | 0 <= k < i :: deleted[k] == deletes[k].path
      invariant Grows(old(host.log), host.log, true, deleted, true)
    {
      assert DropSteps(deletes[i..])[1..] == DropSteps(deletes[i + 1..]);
      ghost var before := host.log;
      ok := DeleteOne(host, deletes[i]);
      GrowsMore(old(host.log), before, host.log, true, deleted, if ok then [deletes[i].path] else [], ok);
      assert deleted + [] == deleted;
      if !ok { return; }
      deleted := deleted + [deletes[i].path];
    }
    ok := true;
  }

  method PruneAll(host: Host, ds: seq<Path>) returns (ok: bool, pruned: seq<Path>)
    modifies host
    ensures Ran(host.Now(), ok) == StrictRun(old(host.Now()), PruneSteps(ds))
    ensures forall d | d in pruned :: d in ds
    ensures Grows(old(host.log), host.log, true, pruned, ok)
  {
    pruned := [];
    for i := 0 to |ds|
      invariant StrictRun(old(host.Now()), PruneSteps(ds)) == StrictRun(host.Now(), PruneSteps(ds[i..]))
      invariant forall d | d in pruned :: d in ds
      invariant Grows(old(host.log), host.log, true, pruned, true)
    {
      assert PruneSteps(ds[i..])[1..] == PruneSteps(ds[i + 1..]);
      ghost var before := host.log;
      var gone;
      ok, gone := PruneOne(host, ds[i]);
      GrowsMore(old(host.log), before, host.log, true, pruned, gone, ok);
      pruned := pruned + gone;
      if !ok { return; }
    }
    ok := true;
  }

  class Workspace {
    const host: Host
    var manifest: Option<SyncState>

    /** What another sync leaves as the manifest before ours writes it, if there is one. */
    var rival: Option<Option<SyncState>>

    constructor (host: Host, manifest: Option<SyncState>, rival: Option<Option<SyncState>>)
      ensures this.host == host && this.manifest == manifest && this.rival == rival
    {
      this.host, this.manifest, this.rival := host, manifest, rival;
    }

    /** The manifest our write will find. */
    function Meanwhile(): Option<SyncState>
      reads this
    {
      if rival.Some? then rival.value else manifest
    }

    /** Compare-and-swap of the manifest, always the last write of a sync. */
    method WriteSyncState(state: SyncState, expected: Option<SyncState>) returns (ok: bool)
      modifies this, host
      ensures host.Now() == Tick(old(host.Now())) && rival.None?
      ensures if ok then manifest == Some(state) else manifest in {old(Meanwhile()), Some(state)}
      ensures ok || manifest != old(Meanwhile()) ==> old(Meanwhile()) == expected
      ensures old(host.turns) == [] ==> (ok <==> old(Meanwhile()) == expected)
    {
      var fault := host.Others();
      manifest, rival := Meanwhile(), None;
      if fault.Before? || manifest != expected { return false; }
      manifest := Some(state);
      ok := fault.Fine?;
    }
  }

  /** The guarded part of a pull: everything between the conflict check and the manifest write. */
  method Execute(host: Host, directories: seq<Path>, plan: PullPlan, removed: seq<Path>)
    returns (ok: bool, written: seq<Path>, deleted: seq<Path>, pruned: seq<Path>)
    modifies host
    ensures Ran(host.Now(), ok) == StrictRun(old(host.Now()), PullSteps(directories, plan, removed))
    ensures ok ==>
              |written| == |plan.writes| && |deleted| == |plan.deletes| &&
              (forall i | 0 <= i < |plan.writes| :: written[i] == plan.writes[i].path) &&
              (forall i | 0 <= i < |plan.deletes| :: deleted[i] == plan.deletes[i].path)
    ensures ReportsAll(old(host.log), host.log, written, deleted + pruned)
    ensures ok ==> |host.log| == |old(host.log)| + |written| + |deleted| + |pruned|
  {
    written, deleted, pruned := [], [], [];
    StrictRunConcat(host.Now(), PullFront(directories, plan), PruneSteps(DeepestFirst(removed)));
    ok, written, deleted := ExecuteFront(host, directories, plan);
    assert deleted + pruned == deleted;
    if !ok { return; }
    ghost var gone := host.log;
    ok, pruned := PruneAll(host, DeepestFirst(removed));
    MoreReported(old(host.log), gone, host.log, written, deleted, pruned);
  }

  /** Directories, writes and deletes. */
  method ExecuteFront(host: Host, directories: seq<Path>, plan: PullPlan)
    returns (ok: bool, written: seq<Path>, deleted: seq<Path>)
    modifies host
    ensures Ran(host.Now(), ok) == StrictRun(old(host.Now()), PullFront(directories, plan))
    ensures ok ==>
              |written| == |plan.writes| && |deleted| == |plan.deletes| &&
              (forall i | 0 <= i < |plan.writes| :: written[i] == plan.writes[i].path) &&
              (forall i | 0 <= i < |plan.deletes| :: deleted[i] == plan.deletes[i].path)
    ensures ReportsAll(old(host.log), host.log, written, deleted)
    ensures ok ==> |host.log| == |old(host.log)| + |written| + |deleted|
  {
    deleted := [];
    StrictRunConcat(host.Now(), MakeSteps([[]] + directories) + PutSteps(plan.writes), DropSteps(plan.deletes));
    ok, written := MakeAndWrite(host, directories, plan.writes);
    if !ok { return; }
    ghost var wrote := host.log;
    ok, deleted := DeleteAll(host, plan.deletes);
    MoreReported(old(host.log), wrote, host.log, written, [], deleted);
    assert [] + deleted == deleted;
  }

  method MakeAndWrite(host: Host, directories: seq<Path>, writes: seq<Write>) returns (ok: bool, written: seq<Path>)
    modifies host
    ensures Ran(host.Now(), ok) ==
            StrictRun(old(host.Now()), MakeSteps([[]] + directories) + PutSteps(writes))
    ensures ok ==> |written| == |writes| && forall i | 0 <= i < |writes| :: written[i] == writes[i].path
    ensures ReportsAll(old(host.log), host.log, written, [])
    ensures ok ==> |host.log| == |old(host.log)| + |written|
  {
    written := [];
    StrictRunConcat(host.Now(), MakeSteps([[]] + directories), PutSteps(writes));
    ok := MakeAll(host, [[]] + directories);
    if !ok { return; }
    ok, written := WriteAll(host, writes);
    OnlyWritten(old(host.log), host.log, written);
  }

  lemma {:induction false} AloneStaysAlone(w: World, steps: seq<Step>)
    ensures Alone(w) ==> Alone(StrictRun(w, steps).world)
    decreases |steps|
  {
    if steps == [] {
    } else {
      assert Alone(w) ==> Alone(Tick(w)) && Alone(Tick(Tick(w)));
      if StrictStep(w, steps[0]).ok {
        AloneStaysAlone(StrictStep(w, steps[0]).world, steps[1..]);
      }
    }
  }

  lemma {:induction false} QuietStaysQuiet(w: World, steps: seq<Step>)
    requires w.turns == []
    ensures StrictRun(w, steps).world.turns == []
    decreases |steps|
  {
    if steps != [] && StrictStep(w, steps[0]).ok {
      QuietStaysQuiet(StrictStep(w, steps[0]).world, steps[1..]);
    }
  }
}
