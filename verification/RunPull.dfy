/** The pull command from end to end, on mutable hosts. */
module RunPull {
  import opened Basics
  import opened Paths
  import opened HostFiles
  import opened Merge
  import opened Manifest
  import opened Steps
  import opened Pull
  import opened PullProofs
  import opened PullRerun

  datatype PullResult =
    | Pulled(written: seq<Path>, deleted: seq<Path>, pruned: seq<Path>)
    | Partial(written: seq<Path>, deleted: seq<Path>, pruned: seq<Path>)
    | Stopped(conflicts: seq<Issue>)
    | WrongManifest
    | UnreadableAt(path: Path)
  {
    predicate Ran() { Pulled? || Partial? }

    predicate Planned() { Ran() || Stopped? }
  }

  function SettingOf(existing: Option<SyncState>, vault: Tree, s: Snapshot): Setting {
    Setting(BaseOf(existing), vault, s, RemovedDirectories(existing, s))
  }

  /** The steps were run after some reading, and nothing of ours came afterwards. */
  ghost predicate RanSteps(before: World, after: World, steps: seq<Step>, completed: bool) {
    exists w: World ::
      && w.log == before.log && SameAlone(before, w)
      && var ran := StrictRun(w, steps);
         && after.log == ran.world.log && (completed ==> ran.ok)
         && (Alone(w) ==> Alone(after) && after.tree == ran.world.tree)
  }

  /** What a completed pull lists as written and deleted is the plan. */
  ghost predicate ListsPlan(result: PullResult, plan: PullPlan)
    requires result.Ran()
  {
    && |result.written| == |plan.writes| && |result.deleted| == |plan.deletes|
    && (forall i | 0 <= i < |plan.writes| :: result.written[i] == plan.writes[i].path)
    && (forall i | 0 <= i < |plan.deletes| :: result.deleted[i] == plan.deletes[i].path)
  }

  /** Completed or partial, a pull lists what it did, in order; of a partial one only the last command, if it failed
      after taking effect, is missing. */
  ghost predicate TellsLog(result: PullResult, before: seq<Effect>, after: seq<Effect>)
    requires result.Ran()
  {
    && ReportsAll(before, after, result.written, result.deleted + result.pruned)
    && (result.Pulled? ==> |after| == |before| + |result.written| + |result.deleted| + |result.pruned|)
  }

  lemma RunOfSteps(w: World, directories: seq<Path>, plan: PullPlan, removed: seq<Path>)
    ensures var steps := PullSteps(directories, plan, removed);
            var ran, quiet := StrictRun(w, steps), Replay(w.tree, steps);
            && PullKeeps(w.log, ran.world.log, plan, removed) && (Alone(w) ==> Alone(ran.world))
            && (w.turns == [] ==> ran.world.tree == quiet.tree && ran.ok == quiet.ok && ran.world.turns == [])
  {
    var steps := PullSteps(directories, plan, removed);
    PullLosesNoUpdate(w, directories, plan, removed);
    AloneStaysAlone(w, steps);
    if w.turns == [] {
      QuietRunIsReplay(w, steps);
      QuietStaysQuiet(w, steps);
    }
  }

  /** The steps of a conflict-free plan, and the manifest last. */
  method ExecuteAndSave(ws: Workspace, s: Snapshot, plan: PullPlan, existing: Option<SyncState>)
    returns (result: PullResult)
    modifies ws, ws.host
    ensures result.Ran()
    ensures result.Pulled? ==> ws.manifest == Some(StateFromSnapshot(s)) && old(ws.Meanwhile()) == existing
    ensures result.Pulled? ==> ListsPlan(result, plan)
    ensures TellsLog(result, old(ws.host.log), ws.host.log)
    ensures result.Partial? ==>
              || ws.manifest in {old(ws.manifest), old(ws.Meanwhile())}
              || (ws.manifest == Some(StateFromSnapshot(s)) && old(ws.Meanwhile()) == existing)
    ensures PullKeeps(old(ws.host.log), ws.host.log, plan, RemovedDirectories(existing, s))
    ensures var ran := StrictRun(old(ws.host.Now()), PullSteps(s.directories, plan, RemovedDirectories(existing, s)));
            && ws.host.log == ran.world.log && (result.Pulled? ==> ran.ok)
            && (Alone(old(ws.host.Now())) ==> Alone(ws.host.Now()) && ws.host.tree == ran.world.tree)
    ensures old(ws.host.turns) == [] ==>
              var ran := Replay(old(ws.host.tree), PullSteps(s.directories, plan, RemovedDirectories(existing, s)));
              ws.host.tree == ran.tree && (result.Pulled? <==> ran.ok && old(ws.Meanwhile()) == existing)
  {
    var removed := RemovedDirectories(existing, s);
    RunOfSteps(ws.host.Now(), s.directories, plan, removed);
    var ok, written, deleted, pruned := Execute(ws.host, s.directories, plan, removed);
    if !ok { return Partial(written, deleted, pruned); }
    var saved := ws.WriteSyncState(StateFromSnapshot(s), existing);
    result := if saved then Pulled(written, deleted, pruned) else Partial(written, deleted, pruned);
  }

  /** After the snapshot: read the workspace, plan, stop on a conflict, otherwise execute and write the manifest. */
  method Apply(ws: Workspace, s: Snapshot) returns (result: PullResult, ghost plan: PullPlan, ghost seen: Files)
    requires DistinctPaths(s.files)
    requires ws.manifest.Some? ==> Trusted(ws.manifest.value)
    modifies ws, ws.host
    ensures result.WrongManifest? <==>
              old(ws.manifest).Some? &&
              (old(ws.manifest).value.vault != s.vault || old(ws.manifest).value.scope != s.scope)
    ensures result.Planned() ==> IsPullPlan(BaseOf(old(ws.manifest)), seen, s.Remote(), plan)
    ensures result.Planned() ==> (result.Stopped? <==> plan.conflicts != [])
    ensures result.Stopped? ==> result.conflicts == plan.conflicts
    ensures Alone(old(ws.host.Now())) && result.Planned() ==>
              forall p | p in BaseOf(old(ws.manifest)).Keys + s.Remote().Keys ::
                  At(seen, p) == old(ws.host.tree).Version(p)
    ensures old(ws.host.turns) == [] && !result.WrongManifest? ==>
              && (result.UnreadableAt? <==> !AllReadable(old(ws.host.tree), BaseOf(old(ws.manifest)), s.Remote()))
              && (result.UnreadableAt? ==>
                    ReadTree(old(ws.host.tree), result.path) == Unreadable &&
                    result.path in BaseOf(old(ws.manifest)).Keys + s.Remote().Keys)
    ensures !result.Ran() ==> ws.manifest == old(ws.manifest) && OnlyRead(old(ws.host.Now()), ws.host.Now())
    ensures result.Pulled? ==> ws.manifest == Some(StateFromSnapshot(s)) && old(ws.Meanwhile()) == old(ws.manifest)
    ensures result.Pulled? ==> ListsPlan(result, plan)
    ensures result.Ran() ==> TellsLog(result, old(ws.host.log), ws.host.log)
    ensures result.Partial? ==>
              || ws.manifest in {old(ws.manifest), old(ws.Meanwhile())}
              || (ws.manifest == Some(StateFromSnapshot(s)) && old(ws.Meanwhile()) == old(ws.manifest))
    ensures PullKeeps(old(ws.host.log), ws.host.log, plan, RemovedDirectories(old(ws.manifest), s))
    // among other writers the steps run on what the workspace has become; without them, on what it was
    ensures result.Ran() ==>
              var steps := PullSteps(s.directories, plan, RemovedDirectories(old(ws.manifest), s));
              RanSteps(old(ws.host.Now()), ws.host.Now(), steps, result.Pulled?)
    ensures old(ws.host.turns) == [] && result.Ran() ==>
              var ran := Replay(old(ws.host.tree), PullSteps(s.directories, plan,
                  RemovedDirectories(old(ws.manifest), s)));
              ws.host.tree == ran.tree && (result.Pulled? <==> ran.ok && old(ws.Meanwhile()) == old(ws.manifest))
  {
    var existing := ws.manifest;
    plan, seen := PullPlan([], [], []), map[];
    if existing.Some? && (existing.value.vault != s.vault || existing.value.scope != s.scope) {
      return WrongManifest, plan, seen;
    }
    var planned, looked := PlanPull(ws.host, existing, s);
    seen := looked;
    if planned.Err? { return UnreadableAt(planned.error), plan, seen; }
    plan := planned.value;
    if planned.value.conflicts != [] {
      return Stopped(planned.value.conflicts), plan, seen;
    }
    result := ExecuteAndSave(ws, s, planned.value, existing);
  }

  /** What a pull leaves in the workspace, wherever failures strike, and whether a rerun can take over from there. */
  ghost predicate Outcome(x: Setting, was: Tree, now: Tree, seen: Files, plan: PullPlan, completed: bool) {
    && CleanPlan(x.base, was, seen, x.Remote(), plan)
    && (forall p :: InterruptedAt(x.base, was, x.Remote(), x.removed, now, p))
    && (completed ==> forall p :: PulledAt(x.base, was, x.Remote(), x.removed, now, p))
    && (FirstTry(x, was, seen, plan) && (forall p :: !x.Tangled(p)) ==>
          Recovers(x, now, Replay(was, x.StepsOf(plan)).tree))
  }

  lemma RunOutcome(w: World, x: Setting, seen: Files, plan: PullPlan)
    requires Alone(w) && CleanPlan(x.base, w.tree, seen, x.Remote(), plan)
    ensures var ran := StrictRun(w, x.StepsOf(plan)); Outcome(x, w.tree, ran.world.tree, seen, plan, ran.ok)
  {
    PullIsMerge(w, x.base, seen, x.Remote(), plan, x.s.directories, x.removed);
    if FirstTry(x, w.tree, seen, plan) && forall p :: !x.Tangled(p) {
      InterruptedRunRecovers(w, x, seen, plan);
    }
  }

  /** The manifest, if there is one, was pulled from another vault or in another scope. */
  predicate BelongsElsewhere(manifest: Option<SyncState>, vaultId: string, scope: Scope) {
    manifest.Some? && (manifest.value.vault != vaultId || manifest.value.scope != scope)
  }

  /** How an undisturbed pull ends: refused, unreadable, stopped at a conflict, or run. */
  ghost predicate PullEnds(result: PullResult, x: Setting, elsewhere: bool, was: Tree) {
    if elsewhere then result.WrongManifest?
    else if !AllReadable(was, x.base, x.Remote()) then result.UnreadableAt?
    else if exists p :: AllDiffer(At(x.base, p), was.Version(p), At(x.Remote(), p)) then result.Stopped?
    else result.Ran()
  }

  lemma QuietEnd(existing: Option<SyncState>, s: Snapshot, vault: Tree, was: Tree, result: PullResult, seen: Files,
                 plan: PullPlan)
    requires result.WrongManifest? <==> BelongsElsewhere(existing, s.vault, s.scope)
    requires !result.WrongManifest? ==> (result.UnreadableAt? <==> !AllReadable(was, BaseOf(existing), s.Remote()))
    requires result.Planned() ==> IsPullPlan(BaseOf(existing), seen, s.Remote(), plan)
    requires result.Planned() ==> (result.Stopped? <==> plan.conflicts != [])
    requires result.Planned() ==>
               forall p | p in BaseOf(existing).Keys + s.Remote().Keys :: At(seen, p) == was.Version(p)
    ensures PullEnds(result, SettingOf(existing, vault, s), BelongsElsewhere(existing, s.vault, s.scope), was)
  {
    if result.Planned() {
      ConflictExactly(BaseOf(existing), was, seen, s.Remote(), plan);
    }
  }

  /** The pull of one snapshot of this vault, and what is known about the workspace when nobody else writes there. */
  method PullSnapshot(ws: Workspace, s: Snapshot, ghost vault: Tree)
    returns (result: PullResult, ghost plan: PullPlan, ghost seen: Files)
    requires DistinctPaths(s.files)
    requires ws.manifest.Some? ==> Trusted(ws.manifest.value)
    modifies ws, ws.host
    ensures result.WrongManifest? <==> BelongsElsewhere(old(ws.manifest), s.vault, s.scope)
    ensures result.Stopped? ==> result.conflicts == plan.conflicts
    ensures result.Ran() ==> TellsLog(result, old(ws.host.log), ws.host.log)
    ensures result.Pulled? ==> ListsPlan(result, plan)
    ensures old(ws.host.turns) == [] && result.UnreadableAt? ==>
              ReadTree(old(ws.host.tree), result.path) == Unreadable &&
              result.path in BaseOf(old(ws.manifest)).Keys + s.Remote().Keys
    ensures !result.Ran() ==> ws.manifest == old(ws.manifest) && OnlyRead(old(ws.host.Now()), ws.host.Now())
    ensures result.Pulled? ==> ws.manifest == Some(StateFromSnapshot(s))
    ensures PullKeeps(old(ws.host.log), ws.host.log, plan, RemovedDirectories(old(ws.manifest), s))
    ensures Alone(old(ws.host.Now())) && result.Planned() ==>
              (result.Stopped? <==>
                 exists p :: AllDiffer(At(BaseOf(old(ws.manifest)), p), old(ws.host.tree).Version(p),
                     At(s.Remote(), p)))
    ensures Alone(old(ws.host.Now())) && result.Ran() ==>
              Outcome(SettingOf(old(ws.manifest), vault, s), old(ws.host.tree), ws.host.tree, seen, plan,
                  result.Pulled?)
    ensures old(ws.host.turns) == [] ==>
              PullEnds(result, SettingOf(old(ws.manifest), vault, s),
                       BelongsElsewhere(old(ws.manifest), s.vault, s.scope), old(ws.host.tree))
    ensures old(ws.host.turns) == [] && result.Ran() ==>
              var x := SettingOf(old(ws.manifest), vault, s);
              (result.Pulled? <==>
                 Replay(old(ws.host.tree), x.StepsOf(plan)).ok && old(ws.Meanwhile()) == old(ws.manifest))
  {
    ghost var existing, before := ws.manifest, ws.host.Now();
    result, plan, seen := Apply(ws, s);
    if before.turns == [] {
      QuietEnd(existing, s, vault, before.tree, result, seen, plan);
    }
    if Alone(before) && result.Planned() {
      ConflictExactly(BaseOf(existing), before.tree, seen, s.Remote(), plan);
    }
    if Alone(before) && result.Ran() {
      RanOutcome(before, ws.host.Now(), SettingOf(existing, vault, s), seen, plan, result.Pulled?);
    }
  }

  lemma RanOutcome(before: World, after: World, x: Setting, seen: Files, plan: PullPlan, completed: bool)
    requires Alone(before) && RanSteps(before, after, x.StepsOf(plan), completed)
    requires CleanPlan(x.base, before.tree, seen, x.Remote(), plan)
    ensures Outcome(x, before.tree, after.tree, seen, plan, completed)
  {
    var w: World :| w.tree == before.tree && Alone(w) &&
      var ran := StrictRun(w, x.StepsOf(plan)); after.tree == ran.world.tree && (completed ==> ran.ok);
    RunOutcome(w, x, seen, plan);
  }

  /** Pull, end to end. It is refused exactly when the manifest belongs elsewhere. The vault is only read, and among any
      other writers a write in the workspace replaces only the version the plan saw. With failures but no other writers:
      it stops with a conflict exactly when some path has three different versions, and otherwise leaves the workspace
      as Outcome says. */
  method PullCommand(ws: Workspace, vault: Host, vaultId: string, scope: Scope)
    returns (r: Result<PullResult, SnapshotError>, ghost s: Snapshot, ghost plan: PullPlan, ghost seen: Files)
    requires ws.host != vault
    requires ws.manifest.Some? ==> Trusted(ws.manifest.value)
    modifies ws, ws.host, vault
    ensures OnlyRead(old(vault.Now()), vault.Now())
    ensures r.Ok? ==>
              (r.value.WrongManifest? <==>
                 old(ws.manifest).Some? &&
                 (old(ws.manifest).value.vault != vaultId || old(ws.manifest).value.scope != scope))
    ensures r.Ok? && r.value.Pulled? ==>
              ws.manifest.Some? && ws.manifest.value.vault == vaultId && ws.manifest.value.scope == scope
    ensures r.Ok? && r.value.Stopped? ==> r.value.conflicts == plan.conflicts
    ensures r.Ok? && r.value.Ran() ==> TellsLog(r.value, old(ws.host.log), ws.host.log)
    ensures r.Ok? && r.value.Pulled? ==> ListsPlan(r.value, plan)
    ensures old(ws.host.turns) == [] && r.Ok? && r.value.UnreadableAt? ==>
              ReadTree(old(ws.host.tree), r.value.path) == Unreadable &&
              r.value.path in BaseOf(old(ws.manifest)).Keys + s.Remote().Keys
    ensures old(vault.turns) == [] && vault.tree.Valid() ==>
              && (r.Ok? <==> CanSnapshot(vault.tree, scope))
              && (r == Err(CaseCollision) <==> ScopeExists(vault.tree, scope) && !CaseDistinct(vault.tree, scope))
    ensures old(ws.host.turns) == [] && r.Ok? ==>
              PullEnds(r.value, SettingOf(old(ws.manifest), vault.tree, s),
                       BelongsElsewhere(old(ws.manifest), vaultId, scope), old(ws.host.tree))
    ensures r.Err? || !r.value.Ran() ==> ws.manifest == old(ws.manifest) && OnlyRead(old(ws.host.Now()), ws.host.Now())
    ensures r.Ok? && Alone(old(vault.Now())) && vault.tree.Valid() ==> IsSnapshotOf(s, vault.tree) && s.scope == scope
    ensures r.Ok? && r.value.Pulled? ==> ws.manifest == Some(StateFromSnapshot(s))
    ensures PullKeeps(old(ws.host.log), ws.host.log, plan, RemovedDirectories(old(ws.manifest), s))
    ensures Alone(old(ws.host.Now())) && r.Ok? && r.value.Planned() ==>
              (r.value.Stopped? <==>
                 exists p :: AllDiffer(At(BaseOf(old(ws.manifest)), p), old(ws.host.tree).Version(p),
                     At(s.Remote(), p)))
    ensures Alone(old(ws.host.Now())) && r.Ok? && r.value.Ran() ==>
              Outcome(SettingOf(old(ws.manifest), vault.tree, s), old(ws.host.tree), ws.host.tree, seen, plan,
                  r.value.Pulled?)
    ensures old(ws.host.turns) == [] && r.Ok? && r.value.Ran() ==>
              var x := SettingOf(old(ws.manifest), vault.tree, s);
              (r.value.Pulled? <==>
                 Replay(old(ws.host.tree), x.StepsOf(plan)).ok && old(ws.Meanwhile()) == old(ws.manifest))
  {
    s, plan, seen := Snapshot("", All, [], []), PullPlan([], [], []), map[];
    var snapshot := SyncSnapshot(vault, vaultId, scope);
    if snapshot.Err? { return Err(snapshot.error), s, plan, seen; }
    s := snapshot.value;
    var result, planned, looked := PullSnapshot(ws, snapshot.value, vault.tree);
    plan, seen := planned, looked;
    r := Ok(result);
  }
}
