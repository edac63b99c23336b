/** The other way to recover from a push that was cut short: a pull with the old manifest. */
module PullAfterPush {
  import opened Basics
  import opened Paths
  import opened HostFiles
  import opened Merge
  import opened Manifest
  import opened Steps
  import opened Apply
  import opened Push
  import opened PushProofs
  import opened PushAcceptance
  import opened PushRerun
  import Pull
  import PullProofs
  import PullRerun

  /** Deleted locally, changed in the vault, and not compared because --delete was not given. */
  ghost predicate LeftBehind(x: Attempt, p: Path) {
    !x.delete && p in x.state.Base() && p !in x.local.files && p in x.vault.files &&
    x.vault.files[p] != x.state.Base()[p]
  }

  lemma ChoiceAfterPush(x: Attempt, now: Tree, again: Snapshot, p: Path)
    requires Planned(x.state, x.s, x.vault, x.local, x.delete, x.plan) && x.plan.conflicts == {} && x.Reaches(now)
    requires IsSnapshotOf(again, now) && again.scope == x.Scope()
    ensures var choice := Pull.ChoiceAt(x.state.Base(), x.local.files, again.Remote(), p);
            x.Scope().Contains(p) ==>
              if LeftBehind(x, p) then choice == Clash(LocallyDeletedVaultChanged) else choice.Keep?
  {
    if x.Scope().Contains(p) {
      SnapshotRemote(x.s, x.vault);
      SnapshotRemote(again, now);
      NoClash(x.state, x.s, x.vault, x.local, x.delete, x.plan, p);
      PullAfterPush(At(x.state.Base(), p), x.local.Version(p), x.vault.Version(p), now.Version(p), x.delete);
    }
  }

  /** A pull after a conflict-free push that was cut short anywhere plans no write and no delete. It stops with a
      conflict exactly where a file deleted locally was changed in the vault and --delete was not given. */
  lemma PullAfterPushExactly(x: Attempt, now: Tree, again: Snapshot, seen: Files, pull: Pull.PullPlan)
    requires Planned(x.state, x.s, x.vault, x.local, x.delete, x.plan) && x.plan.conflicts == {} && x.Reaches(now)
    requires IsSnapshotOf(again, now) && again.scope == x.Scope()
    requires Pull.IsPullPlan(x.state.Base(), seen, again.Remote(), pull)
    requires forall p | p in x.state.Base().Keys + again.Remote().Keys :: At(seen, p) == x.local.Version(p)
    ensures pull.writes == [] && pull.deletes == []
    ensures forall c :: c in pull.conflicts <==> LeftBehind(x, c.path) && c.reason == LocallyDeletedVaultChanged
  {
    forall p
      ensures var choice := Pull.ChoiceAt(x.state.Base(), seen, again.Remote(), p);
              if LeftBehind(x, p) then choice == Clash(LocallyDeletedVaultChanged) else choice.Keep?
    {
      ChoiceAfterPush(x, now, again, p);
      OutsideScope(x, now, again, p);
    }
    EmptyOrNot(pull.writes);
    EmptyOrNot(pull.deletes);
  }

  lemma OutsideScope(x: Attempt, now: Tree, again: Snapshot, p: Path)
    requires Trusted(x.state) && IsSnapshotOf(again, now) && again.scope == x.Scope()
    ensures p in x.state.Base() || p in again.Remote() ==> x.Scope().Contains(p)
  {
    SnapshotRemote(again, now);
  }

  // ---- can it be planned, and does it complete? ----

  lemma NoLocalFileOutside(x: Attempt, q: Path)
    requires x.Sound() && q in x.local.files
    ensures x.Scope().Contains(q)
  {
    var c: Issue := Pull.Issue(q, FileOutsideScope);
    assert PushConflict(x.state, x.s, x.local, x.delete, c) ==> c in x.plan.conflicts;
  }

  /** A path that holds a file of a compatible vault can be read in the workspace. */
  lemma VaultFileIsReadable(x: Attempt, t: Tree, p: Path)
    requires x.Sound() && Compatible(x.Scope(), t, x.local) && p in t.files && x.Scope().Contains(p)
    ensures ReadTree(x.local, p) != Unreadable
  {
    var file, folder := TreeEntry(p, true), TreeEntry(p, false);
    assert InUnion(x.Scope(), t, x.local, file) && Collide(file, folder);
    assert p in x.local.dirs ==> InUnion(x.Scope(), t, x.local, folder);
    forall q | q in x.local.files
      ensures !(q < p)
    {
      NoLocalFileOutside(x, q);
      assert InUnion(x.Scope(), t, x.local, TreeEntry(q, true));
      if q < p { FoldKeepsPrefix(q, p); }
    }
  }

  /** The workspace can be read for the pull exactly when no tracked path that the vault had lost before the push is a
      folder of the workspace or lies beneath a file of it. Whether the vault can be scanned is ScanExactly. */
  lemma ReadableExactly(x: Attempt, now: Tree, again: Snapshot)
    requires x.Sound() && x.Reaches(now) && IsSnapshotOf(again, now) && again.scope == x.Scope()
    ensures Pull.AllReadable(x.local, x.state.Base(), again.Remote()) <==>
              forall p | p in x.state.Base() && p !in x.vault.files :: ReadTree(x.local, p) != Unreadable
  {
    PartlyPushedStaysCompatible(x.state, x.s, x.vault, x.local, x.delete, x.plan, now);
    SnapshotRemote(again, now);
    forall p | p in again.Remote()
      ensures ReadTree(x.local, p) != Unreadable
    {
      VaultFileIsReadable(x, now, p);
    }
    forall p | p in x.state.Base() && p in x.vault.files
      ensures ReadTree(x.local, p) != Unreadable
    {
      OutsideScope(x, now, again, p);
      VaultFileIsReadable(x, x.vault, p);
    }
  }

  /** The pull as planned from the partly pushed vault. */
  ghost predicate PullsAgain(x: Attempt, now: Tree, again: Snapshot, seen: Files, pull: Pull.PullPlan) {
    && x.Sound() && x.Reaches(now) && IsSnapshotOf(again, now) && again.scope == x.Scope()
    && (forall d | d in x.state.directories :: d != [])
    && Pull.AllReadable(x.local, x.state.Base(), again.Remote())
    && PullProofs.CleanPlan(x.state.Base(), x.local, seen, again.Remote(), pull)
  }

  function Gone(x: Attempt, again: Snapshot): seq<Path> { Pull.RemovedDirectories(Some(x.state), again) }

  lemma MergedIsLocal(x: Attempt, now: Tree, again: Snapshot, seen: Files, pull: Pull.PullPlan, p: Path)
    requires PullsAgain(x, now, again, seen, pull)
    ensures PullProofs.MergeAt(x.state.Base(), x.local, again.Remote(), p) == Some(x.local.Version(p))
  {
    PullAfterPushExactly(x, now, again, seen, pull);
    ChoiceAfterPush(x, now, again, p);
    OutsideScope(x, now, again, p);
    PullIsThreeWay(At(x.state.Base(), p), x.local.Version(p), At(again.Remote(), p));
    var c: Issue := Pull.Issue(p, LocallyDeletedVaultChanged);
    assert c !in pull.conflicts;
  }

  /** A tracked folder the vault no longer has is not a folder of the workspace. */
  lemma GoneIsNotLocal(x: Attempt, now: Tree, again: Snapshot, d: Path)
    requires x.Sound() && x.Reaches(now) && IsSnapshotOf(again, now) && again.scope == x.Scope()
    requires d in x.state.directories && d !in again.directories
    ensures d !in x.local.dirs
  {
    NoDirectoryConflict(x.state, x.s, x.local, x.delete, x.plan, d);
    assert x.Scope().Contains(d);
    assert d in x.s.directories <==> d in x.vault.dirs;
    assert d in again.directories <==> d in now.dirs;
  }

  lemma NotBlocked(x: Attempt, now: Tree, d: Path)
    requires x.Sound() && x.Reaches(now) && d in now.dirs && x.Scope().Contains(d)
    ensures !MakeBlocked(x.local, d)
  {
    PartlyPushedStaysCompatible(x.state, x.s, x.vault, x.local, x.delete, x.plan, now);
    assert InUnion(x.Scope(), now, x.local, TreeEntry(d, false));
    forall q | q in x.local.files
      ensures q != d && !(q < d)
    {
      NoLocalFileOutside(x, q);
      assert InUnion(x.Scope(), now, x.local, TreeEntry(q, true)) && !Collide(TreeEntry(q, true), TreeEntry(d, false));
      if q < d { FoldKeepsPrefix(q, d); }
    }
  }

  /** Undisturbed, the pull completes exactly when no tracked folder the vault no longer has lies beneath a file of the
      workspace; then every file keeps its version, except one that stands where such a folder was. */
  lemma PullAfterPushCompletesExactly(x: Attempt, now: Tree, again: Snapshot, seen: Files, pull: Pull.PullPlan)
    requires PullsAgain(x, now, again, seen, pull)
    ensures var ran := Replay(x.local, Pull.PullSteps(again.directories, pull, Gone(x, again)));
            && (ran.ok <==> forall d | d in Gone(x, again) :: !x.local.BeneathFile(d))
            && (ran.ok ==> forall p :: ran.tree.Version(p) == if p in Gone(x, again) then None else x.local.Version(p))
  {
    CompletesExactly(x, now, again, seen, pull);
    if Replay(x.local, Pull.PullSteps(again.directories, pull, Gone(x, again))).ok {
      forall p
        ensures Replay(x.local, Pull.PullSteps(again.directories, pull, Gone(x, again))).tree.Version(p) ==
                  if p in Gone(x, again) then None else x.local.Version(p)
      {
        VersionAfterwards(x, now, again, seen, pull, p);
      }
    }
  }

  lemma VersionAfterwards(x: Attempt, now: Tree, again: Snapshot, seen: Files, pull: Pull.PullPlan, p: Path)
    requires PullsAgain(x, now, again, seen, pull)
    requires Replay(x.local, Pull.PullSteps(again.directories, pull, Gone(x, again))).ok
    ensures Replay(x.local, Pull.PullSteps(again.directories, pull, Gone(x, again))).tree.Version(p) ==
              if p in Gone(x, again) then None else x.local.Version(p)
  {
    MergedIsLocal(x, now, again, seen, pull, p);
    PullRerun.CompletedVersion(PullRerun.Setting(x.state.Base(), now, again, Gone(x, again)), x.local, seen, pull, p);
  }

  lemma CompletesExactly(x: Attempt, now: Tree, again: Snapshot, seen: Files, pull: Pull.PullPlan)
    requires PullsAgain(x, now, again, seen, pull)
    ensures Replay(x.local, Pull.PullSteps(again.directories, pull, Gone(x, again))).ok <==>
              forall d | d in Gone(x, again) :: !x.local.BeneathFile(d)
  {
    var base, gone := x.state.Base(), Gone(x, again);
    forall d | d in again.directories
      ensures !MakeBlocked(x.local, d)
    {
      NotBlocked(x, now, d);
    }
    forall d | d in gone
      ensures PullProofs.CanGo(base, x.local, again.Remote(), gone, d) <==> !x.local.BeneathFile(d)
    {
      GoesExactly(x, now, again, seen, pull, d);
    }
    PullProofs.PullCompletesExactly(x.local, now, again, base, seen, pull, gone);
  }

  lemma GoesExactly(x: Attempt, now: Tree, again: Snapshot, seen: Files, pull: Pull.PullPlan, d: Path)
    requires PullsAgain(x, now, again, seen, pull) && d in Gone(x, again)
    ensures PullProofs.CanGo(x.state.Base(), x.local, again.Remote(), Gone(x, again), d) <==> !x.local.BeneathFile(d)
  {
    GoneIsNotLocal(x, now, again, d);
    forall p
      ensures PullProofs.MergeAt(x.state.Base(), x.local, again.Remote(), p) == Some(x.local.Version(p))
    {
      MergedIsLocal(x, now, again, seen, pull, p);
    }
    OnlyFilesMatter(x.local, x.state.Base(), again.Remote(), Gone(x, again), d);
  }

  lemma OnlyFilesMatter(local: Tree, base: Files, remote: Files, gone: seq<Path>, d: Path)
    requires forall p :: PullProofs.MergeAt(base, local, remote, p) == Some(local.Version(p))
    requires d !in local.dirs
    ensures PullProofs.CanGo(base, local, remote, gone, d) <==> !local.BeneathFile(d)
  {
    if local.BeneathFile(d) {
      var q :| q in local.files && q < d;
      assert PullProofs.MergeAt(base, local, remote, q) == Some(local.Version(q));
    }
  }
}
