/** The push command from end to end, on mutable hosts. */
module RunPush {
  import opened Basics
  import opened Paths
  import opened HostFiles
  import opened Merge
  import opened Manifest
  import opened Steps
  import opened Apply
  import opened Push
  import opened PushProofs
  import opened PushAcceptance
  import opened PushRerun
  import opened ApplyProofs
  import opened ApplyReports
  import Pull

  datatype PushResult =
    | PlanConflicts(plan: PushPlan)
    | PlanOnly(plan: PushPlan)
    | NotApplied(plan: PushPlan, applied: ApplyResult)
    | Pushed(plan: PushPlan, applied: ApplyResult)

  datatype PushError =
    | NoManifest
    | OtherVault
    | Snapshotting(why: SnapshotError)
    | UnlistedWorkspace
    | UnreadableLocal(path: Path)
    | Applying(cause: ApplyError)
    | Refreshing(why: SnapshotError)
    | ManifestChanged

  /** Reads every listed local file; one that has vanished since is skipped. */
  method ReadLocalFiles(host: Host, paths: set<Path>) returns (r: Result<Files, Path>)
    modifies host
    ensures OnlyRead(old(host.Now()), host.Now())
    ensures r.Err? ==> r.error in paths
    ensures Alone(old(host.Now())) && host.tree.Valid() && paths == host.tree.files.Keys ==>
              (old(host.turns) == [] ==> r.Ok?) && (r.Ok? ==> r.value == host.tree.files)
  {
    var files: Files := map[];
    var todo := paths;
    ghost var known := Alone(host.Now()) && host.tree.Valid() && paths == host.tree.files.Keys;
    while todo != {}
      invariant todo <= paths
      invariant OnlyRead(old(host.Now()), host.Now())
      invariant known ==> files.Keys == paths - todo && forall p | p in files :: files[p] == host.tree.files[p]
      decreases todo
    {
      var p :| p in todo;
      todo := todo - {p};
      if known { NotBeneathFile(host.tree, p); }
      var reply := host.Read(p);
      if reply.Unreadable? { return Err(p); }
      if reply.Found? { files := files[p := reply.content]; }
    }
    assert known ==> files == host.tree.files;
    return Ok(files);
  }

  /** Commands may fail, but nobody else writes, on either side; both sides are real directory trees. */
  ghost predicate OnlyFailures(local: World, vault: World) {
    Alone(local) && Alone(vault) && local.tree.Valid() && vault.tree.Valid()
  }

  /** Nor do commands fail. */
  ghost predicate Undisturbed(local: World, vault: World) {
    local.turns == [] && vault.turns == [] && OnlyFailures(local, vault)
  }

  /** Snapshot, listing, reading and planning. */
  method Prepare(local: Host, vault: Host, state: SyncState, delete: bool)
    returns (r: Result<PushPlan, PushError>, ghost s: Snapshot)
    requires local != vault && Trusted(state) && state.scope.Named()
    modifies local, vault
    ensures OnlyRead(old(vault.Now()), vault.Now()) && OnlyRead(old(local.Now()), local.Now())
    ensures OnlyFailures(old(local.Now()), old(vault.Now())) && r.Ok? ==>
              Planned(state, s, vault.tree, local.tree, delete, r.value) && CanSnapshot(vault.tree, state.scope)
    ensures Undisturbed(old(local.Now()), old(vault.Now())) ==>
              (r.Ok? <==> CanSnapshot(vault.tree, state.scope))
    ensures Undisturbed(old(local.Now()), old(vault.Now())) && r.Err? ==>
              r.error.Snapshotting? &&
              (r.error.why.CaseCollision? <==>
                 ScopeExists(vault.tree, state.scope) && !CaseDistinct(vault.tree, state.scope))
    ensures r.Err? ==> r.error.Snapshotting? || r.error.UnlistedWorkspace? || r.error.UnreadableLocal?
  {
    s := Snapshot("", All, [], []);
    var snapshot := SyncSnapshot(vault, state.vault, state.scope);
    if snapshot.Err? { return Err(Snapshotting(snapshot.error)), s; }
    s := snapshot.value;
    var listing := local.List();
    if listing.None? { return Err(UnlistedWorkspace), s; }
    var read := ReadLocalFiles(local, listing.value.files.Keys);
    if read.Err? { return Err(UnreadableLocal(read.error)), s; }
    var planned := PlanPush(state, snapshot.value, Tree(read.value, listing.value.dirs), delete);
    r := Ok(planned);
  }

  /** What a push that may have been cut short leaves of the vault: partly pushed at most; it can be scanned again
      exactly as long as the file the scope names has not been deleted; and if the plan does not delete that file, a
      sound push recovers. Any other changes nothing. */
  ghost predicate LeavesPart(x: Attempt, now: Tree) {
    && Planned(x.state, x.s, x.vault, x.local, x.delete, x.plan) && x.Reaches(now)
    && (CanSnapshot(now, x.Scope()) <==> (x.Loses() ==> x.Scope().path in now.files))
    && (!x.Sound() ==> now == x.vault)
    && (x.Sound() && !x.Loses() ==> x.Recovers(now))
  }

  lemma UntouchedLeavesPart(x: Attempt)
    requires Planned(x.state, x.s, x.vault, x.local, x.delete, x.plan) && CanSnapshot(x.vault, x.Scope())
    ensures LeavesPart(x, x.vault)
  {
    NothingPushed(x.state, x.s, x.vault, x.local, x.delete, x.plan);
    if x.Sound() && !x.Loses() { RecoversFrom(x, x.vault); }
  }

  lemma AppliedLeavesPart(x: Attempt, now: Tree)
    requires x.Sound() && x.Reaches(now)
    ensures LeavesPart(x, now)
  {
    ScanExactly(x, now);
    if !x.Loses() { RecoversFrom(x, now); }
  }

  /** The error an unacceptable push is refused with. */
  ghost predicate RefusedFor(e: ApplyError, x: Attempt) {
    exists entries :: IsListing(entries, x.vault) && Refuses(e, entries, x.vault, RequestOf(x.plan))
  }

  /** Applying. Among any other writers, a write replaces only the version it names, and each write and file delete is
      reported once. With failures alone, the vault is left as LeavesPart says; undisturbed, the request is refused
      exactly when it is not acceptable, and otherwise applied in full. */
  method ApplyPlan(vault: Host, plan: PushPlan, ghost x: Attempt) returns (r: Result<ApplyResult, ApplyError>)
    requires x.plan == plan
    modifies vault
    ensures LogKeeps(old(vault.log), vault.log, RequestOf(plan))
    ensures r.Ok? ==> Reported(r.value, old(vault.log), vault.log, RequestOf(plan))
    ensures Alone(old(vault.Now())) && x.Fits(old(vault.tree)) ==> Alone(vault.Now()) && LeavesPart(x, vault.tree)
    ensures old(vault.turns) == [] && x.Fits(old(vault.tree)) ==>
              && vault.turns == [] && (r.Err? ==> vault.tree == x.vault)
              && (r.Ok? ==> r.value.outcome.Applied? && x.Settles(vault.tree))
              && (r.Ok? ==> ExactReport(r.value, x.vault, RequestOf(plan)))
              && (AllVaultPaths(x.vault) && AllVaultPaths(x.local) ==>
                    (r.Err? <==> !x.Acceptable()) && (r.Err? ==> RefusedFor(r.error, x)))
  {
    ghost var w := vault.Now();
    ghost var fits := Alone(w) && x.Fits(w.tree);
    if fits {
      PlanMatchesVault(x.state, x.s, x.vault, x.local, x.delete, x.plan);
      ApplyingLeavesPart(x);
      UntouchedLeavesPart(x);
    }
    var applied, entries := SyncApply(vault,
        Request(plan.writes, plan.deletes, plan.createDirectories, plan.deleteDirectories, false));
    if applied.Ok? { ApplyingAccounts(w.log, vault.Now(), applied.value, RequestOf(plan)); }
    if fits && applied.Ok? {
      AcceptedExactly(entries, x.state, x.s, x.vault, x.local, x.delete, x.plan);
    }
    if fits && w.turns == [] {
      if AllVaultPaths(x.vault) && AllVaultPaths(x.local) {
        RequestPathsAreValid(x.state, x.s, x.vault, x.local, x.delete, x.plan);
        RefusedExactly(x, entries, applied);
      }
      if applied.Ok? {
        AppliedSettles(w, entries, x.state, x.s, x.local, x.delete, x.plan);
        UndisturbedReport(w, x.vault, entries, RequestOf(plan));
      }
    }
    r := applied;
  }

  /** A request is refused for not being acceptable and for nothing else. */
  lemma RefusedExactly(x: Attempt, entries: seq<TreeEntry>, r: Result<ApplyResult, ApplyError>)
    requires x.Fits(x.vault) && IsListing(entries, x.vault)
    requires var req := RequestOf(x.plan);
             && (r.Ok? <==> Accepted(entries, x.vault, req) && Readable(x.vault, req))
             && (r.Err? ==> if Accepted(entries, x.vault, req) then r.error.UnreadableFile?
                            else Refuses(r.error, entries, x.vault, req))
    ensures r.Err? <==> !x.Acceptable()
    ensures r.Err? ==> RefusedFor(r.error, x)
  {
    PlanMatchesVault(x.state, x.s, x.vault, x.local, x.delete, x.plan);
    AcceptedExactly(entries, x.state, x.s, x.vault, x.local, x.delete, x.plan);
    if x.Acceptable() { AcceptedIsReadable(entries, x.vault, RequestOf(x.plan)); }
  }

  /** Applying, and the snapshot taken afterwards, which undisturbed fails exactly when the scope was deleted. */
  method ApplyAndRefresh(vault: Host, state: SyncState, plan: PushPlan, ghost x: Attempt)
    returns (r: Result<(ApplyResult, Option<Snapshot>), PushError>)
    requires x.plan == plan && x.state == state
    modifies vault
    ensures r.Err? ==> r.error.Applying? || r.error.Refreshing?
    ensures r.Ok? ==> (r.value.0.outcome.Applied? <==> r.value.1.Some?)
    ensures r.Ok? && r.value.1.Some? ==> r.value.1.value.vault == state.vault && r.value.1.value.scope == state.scope
    ensures LogKeeps(old(vault.log), vault.log, RequestOf(plan))
    ensures r.Ok? ==> Reported(r.value.0, old(vault.log), vault.log, RequestOf(plan))
    ensures Alone(old(vault.Now())) && x.Fits(old(vault.tree)) ==>
              LeavesPart(x, vault.tree) && (r.Ok? && r.value.1.Some? ==> IsSnapshotOf(r.value.1.value, vault.tree))
    ensures old(vault.turns) == [] && x.Fits(old(vault.tree)) ==>
              && (r.Ok? || r.error.Refreshing? ==> x.Settles(vault.tree))
              && (r.Ok? ==> r.value.1.Some? && !x.Loses() && ExactReport(r.value.0, x.vault, RequestOf(plan)))
              && (r.Err? && r.error.Refreshing? ==> x.Loses())
              && (r.Err? && r.error.Applying? ==> vault.tree == x.vault)
              && (AllVaultPaths(x.vault) && AllVaultPaths(x.local) ==>
                    (r.Err? && r.error.Applying? <==> !x.Acceptable()) &&
                    (r.Err? && r.error.Applying? ==> RefusedFor(r.error.cause, x)))
  {
    var applied := ApplyPlan(vault, plan, x);
    if applied.Err? { return Err(Applying(applied.error)); }
    if !applied.value.outcome.Applied? {
      return Ok((applied.value, None));
    }
    var refreshed := SyncSnapshot(vault, state.vault, state.scope);
    if refreshed.Err? { return Err(Refreshing(refreshed.error)); }
    return Ok((applied.value, Some(refreshed.value)));
  }

  /** Every mutation is accounted for, what is listed as done was done and nothing else, and conflicts are real. */
  ghost predicate Reported(applied: ApplyResult, before: seq<Effect>, after: seq<Effect>, req: Request) {
    && Accounted(applied, req) && AllReal(req, applied.conflicts)
    && Honest(|before|, after, applied, req.deleteDirectories)
  }

  lemma ApplyingAccounts(before: seq<Effect>, now: World, applied: ApplyResult, req: Request)
    requires ValidEntries(RequestEntries(req)) && AllReal(req, applied.conflicts)
    requires
      || (now.log == before && applied.outcome.Conflicted? && applied == NothingApplied(Conflicted, applied.conflicts))
      || exists w: World, t: Tree ::
           w.log == before && now == ApplyRun(w, t, req).world && applied == ResultOf(ApplyRun(w, t, req))
    ensures LogKeeps(before, now.log, req) && Reported(applied, before, now.log, req)
  {
    if w: World, t: Tree :|
      w.log == before && now == ApplyRun(w, t, req).world && applied == ResultOf(ApplyRun(w, t, req)) {
      NoLostUpdate(w, t, req);
      ReportIsTruthful(w, t, req);
      ConflictsAreReal(w, t, req);
      forall p | p in WritePaths(req.writes) || p in DeletePaths(req.deletes)
        ensures ApplyProofs.Reported(applied, p) == 1
      {
        EachMutationOnce(w, t, req, p);
      }
    }
  }

  /** From any world the vault may have reached by failures alone, the loops leave it partly pushed. */
  lemma ApplyingLeavesPart(x: Attempt)
    requires x.Fits(x.vault)
    ensures x.Sound() ==>
              forall w: World | Alone(w) && w.tree == x.vault ::
                Alone(ApplyRun(w, x.vault, RequestOf(x.plan)).world) && LeavesPart(x, x.Left(w))
  {
    if x.Sound() {
      forall w: World | Alone(w) && w.tree == x.vault
        ensures Alone(ApplyRun(w, x.vault, RequestOf(x.plan)).world) && LeavesPart(x, x.Left(w))
      {
        InterruptedPush(w, x.state, x.s, x.vault, x.local, x.delete, x.plan);
        AppliedLeavesPart(x, x.Left(w));
      }
    }
  }

  /** The errors after which something may have been pushed. */
  predicate Late(e: PushError) {
    e.Applying? || e.Refreshing? || e.ManifestChanged?
  }

  /** How an undisturbed push of a conflict-free plan ends: refused, applied and unable to refresh, applied and too late
      for the manifest that another sync has left meanwhile, or pushed. */
  ghost predicate EndsAsForeseen(r: Result<PushResult, PushError>, x: Attempt, meanwhile: Option<SyncState>) {
    if !x.Acceptable() then r.Err? && r.error.Applying? && RefusedFor(r.error.cause, x)
    else if x.Loses() then r.Err? && r.error.Refreshing?
    else if meanwhile != Some(x.state) then r == Err(ManifestChanged)
    else r.Ok? && r.value.Pushed?
  }

  /** The manifest afterwards: of a push that came through, one of the same vault and scope; otherwise what was there,
      or what another sync left, unless the swap took effect and only its reply was lost. */
  ghost predicate LeavesManifest(r: Result<PushResult, PushError>, state: SyncState, meanwhile: Option<SyncState>,
                                 now: Option<SyncState>) {
    if r.Ok? && r.value.Pushed? then
      meanwhile == Some(state) && now.Some? && now.value.vault == state.vault && now.value.scope == state.scope
    else if r == Err(ManifestChanged) then
      now == meanwhile ||
      (meanwhile == Some(state) && now.Some? && now.value.vault == state.vault && now.value.scope == state.scope)
    else now == Some(state)
  }

  /** What an undisturbed push leaves of the vault and reports: refused, everything as it was; applied, every path of
      the scope at its target, with --delete what the workspace holds, and exactly that listed as done. */
  ghost predicate QuietResult(r: Result<PushResult, PushError>, x: Attempt, now: Tree) {
    && (r.Err? && r.error.Applying? ==> now == x.vault)
    && ((if r.Ok? then r.value.Pushed? else r.error.Refreshing?) ==> x.Settles(now))
    && (r.Ok? && r.value.Pushed? ==>
          && ExactReport(r.value.applied, x.vault, RequestOf(x.plan))
          && (x.delete ==> forall p | x.state.scope.Contains(p) :: now.Version(p) == x.local.Version(p)))
  }

  /** Without conflicts and not asked only to plan: apply, refresh, and swap the manifest. */
  method Commit(ws: Pull.Workspace, vault: Host, state: SyncState, plan: PushPlan, ghost x: Attempt)
    returns (r: Result<PushResult, PushError>)
    requires ws.host != vault && x.plan == plan && x.state == state && ws.manifest == Some(state)
    modifies ws, ws.host, vault
    ensures if r.Ok? then (r.value.NotApplied? || r.value.Pushed?) && r.value.plan == plan else Late(r.error)
    ensures r.Ok? ==> (r.value.Pushed? <==> r.value.applied.outcome.Applied?)
    ensures LeavesManifest(r, state, old(ws.Meanwhile()), ws.manifest)
    ensures r.Ok? ==> Reported(r.value.applied, old(vault.log), vault.log, RequestOf(plan))
    ensures LogKeeps(old(vault.log), vault.log, RequestOf(plan))
    ensures Alone(old(vault.Now())) && x.Fits(old(vault.tree)) ==> LeavesPart(x, vault.tree)
    ensures Alone(old(vault.Now())) && x.Fits(old(vault.tree)) && r.Ok? && r.value.Pushed? ==>
              exists now: Snapshot :: IsSnapshotOf(now, vault.tree) && ws.manifest == Some(StateFromSnapshot(now))
    ensures old(vault.turns) == [] && x.Fits(old(vault.tree)) ==> QuietResult(r, x, vault.tree)
    ensures old(vault.turns) == [] && old(ws.host.turns) == [] && x.Fits(old(vault.tree)) &&
            AllVaultPaths(x.vault) && AllVaultPaths(x.local) ==>
              EndsAsForeseen(r, x, old(ws.Meanwhile()))
  {
    var committed := ApplyAndRefresh(vault, state, plan, x);
    if committed.Err? { return Err(committed.error); }
    if committed.value.1.None? { return Ok(NotApplied(plan, committed.value.0)); }
    var saved := ws.WriteSyncState(StateFromSnapshot(committed.value.1.value), Some(state));
    if !saved { return Err(ManifestChanged); }
    r := Ok(Pushed(plan, committed.value.0));
    if x.delete && x.Fits(x.vault) && x.Settles(vault.tree) { AllPushed(x, vault.tree); }
  }

  lemma AllPushed(x: Attempt, now: Tree)
    requires x.Fits(x.vault) && x.delete && x.Settles(now)
    ensures forall p | x.state.scope.Contains(p) :: now.Version(p) == x.local.Version(p)
  {
    forall p | x.state.scope.Contains(p)
      ensures now.Version(p) == x.local.Version(p)
    {
      PushedEqualsWorkspace(x.state, x.s, x.vault, x.local, x.plan, p);
    }
  }

  /** Push, end to end. Conflicts, `status` and dry runs change nothing. Among any other writers, a write replaces only
      the version its plan saw, and every mutation is accounted for. With failures but no other writers, whatever the
      result, the vault is left as LeavesPart says. Undisturbed, a conflict-free push ends as foreseen, and brings every
      path of the scope to its target and the manifest to the vault. */
  method PushCommand(ws: Pull.Workspace, vault: Host, vaultId: string, delete: bool, apply: bool, dryRun: bool)
    returns (r: Result<PushResult, PushError>, ghost s: Snapshot, ghost plan: PushPlan)
    requires ws.host != vault
    requires ws.manifest.Some? ==> Trusted(ws.manifest.value) && ws.manifest.value.scope.Named()
    modifies ws, ws.host, vault
    ensures r == Err(NoManifest) <==> old(ws.manifest).None?
    ensures r == Err(OtherVault) <==>
              old(ws.manifest).Some? && vaultId != "" && vaultId != old(ws.manifest).value.vault
    // the plan returned is the plan made; with no other writers it is the push plan of what both sides hold
    ensures r.Ok? ==> r.value.plan == plan
    ensures OnlyFailures(old(ws.host.Now()), old(vault.Now())) && r.Ok? ==>
              && IsSnapshotOf(s, old(vault.tree)) && s.scope == old(ws.manifest).value.scope
              && IsPushPlan(old(ws.manifest).value, s, old(ws.host.tree), delete, r.value.plan)
    ensures r.Ok? ==> (r.value.PlanConflicts? <==> plan.conflicts != {})
    ensures r.Ok? && plan.conflicts == {} ==> (r.value.PlanOnly? <==> !apply || dryRun)
    ensures (if r.Ok? then r.value.PlanConflicts? || r.value.PlanOnly? else !Late(r.error)) ==>
              ws.manifest == old(ws.manifest) && OnlyRead(old(vault.Now()), vault.Now())
    ensures old(ws.manifest).Some? ==>
              LeavesManifest(r, old(ws.manifest).value, old(ws.Meanwhile()), ws.manifest)
    // among any other writers
    ensures LogKeeps(old(vault.log), vault.log, RequestOf(plan))
    ensures r.Ok? && (r.value.NotApplied? || r.value.Pushed?) ==>
              Reported(r.value.applied, old(vault.log), vault.log, RequestOf(plan)) &&
              (r.value.Pushed? <==> r.value.applied.outcome.Applied?)
    // failures, but no other writers
    ensures OnlyFailures(old(ws.host.Now()), old(vault.Now())) && (r.Ok? || Late(r.error)) ==>
              LeavesPart(Attempt(old(ws.manifest).value, s, old(vault.tree), old(ws.host.tree), delete, plan),
                         vault.tree)
    ensures OnlyFailures(old(ws.host.Now()), old(vault.Now())) && r.Ok? && r.value.Pushed? ==>
              exists now: Snapshot :: IsSnapshotOf(now, vault.tree) && ws.manifest == Some(StateFromSnapshot(now))
    // undisturbed
    ensures Undisturbed(old(ws.host.Now()), old(vault.Now())) && old(ws.manifest).Some? && r != Err(OtherVault) ==>
              (r.Ok? || Late(r.error) <==>
                 CanSnapshot(old(vault.tree), old(ws.manifest).value.scope))
    ensures Undisturbed(old(ws.host.Now()), old(vault.Now())) && (r.Ok? || Late(r.error)) &&
            plan.conflicts == {} && apply && !dryRun && AllVaultPaths(old(vault.tree)) &&
                AllVaultPaths(old(ws.host.tree)) ==>
              EndsAsForeseen(r, Attempt(old(ws.manifest).value, s, old(vault.tree), old(ws.host.tree), delete, plan),
                  old(ws.Meanwhile()))
    ensures Undisturbed(old(ws.host.Now()), old(vault.Now())) && old(ws.manifest).Some? ==>
              QuietResult(r, Attempt(old(ws.manifest).value, s, old(vault.tree), old(ws.host.tree), delete, plan),
                  vault.tree)
  {
    s, plan := Snapshot("", All, [], []), PushPlan([], [], [], [], {}, {});
    if ws.manifest.None? { return Err(NoManifest), s, plan; }
    var state := ws.manifest.value;
    if vaultId != "" && vaultId != state.vault { return Err(OtherVault), s, plan; }
    ghost var failing := OnlyFailures(ws.host.Now(), vault.Now());
    ghost var vault0, local0 := vault.tree, ws.host.tree;
    var prepared, snapshot := Prepare(ws.host, vault, state, delete);
    if prepared.Err? { return Err(prepared.error), s, plan; }
    s, plan := snapshot, prepared.value;
    ghost var x := Attempt(state, s, vault0, local0, delete, plan);
    if failing { UntouchedLeavesPart(x); }
    if prepared.value.conflicts != {} { return Ok(PlanConflicts(prepared.value)), s, plan; }
    if !apply || dryRun { return Ok(PlanOnly(prepared.value)), s, plan; }
    r := Commit(ws, vault, state, prepared.value, x);
  }
}
