/** The per-path decisions of pull and push, and the three-way merge they are meant to compute.
    A missing file is None. */
module Merge {
  import opened Basics
  import opened HostFiles

  type Version = Option<Content>

  // ---- the reference definition ----

  ghost predicate AllDiffer(base: Version, local: Version, remote: Version) {
    base != local && local != remote && base != remote
  }

  /** The three-way merge: whichever side left the base alone gives way; None is a conflict. */
  function ThreeWay(base: Version, local: Version, remote: Version): Option<Version> {
    if local == remote then Some(local)
    else if local == base then Some(remote)
    else if remote == base then Some(local)
    else None
  }

  // ---- pull ----

  datatype Choice = Keep | Copy(expected: Version) | Erase(version: Content) | Clash(reason: Reason)

  datatype Reason =
    | UntrackedLocalDiffers
    | LocallyDeletedVaultChanged
    | BothChanged
    | VaultDeletedLocalChanged
    | NewLocalCollides
    | VaultFileDeleted
    | VaultFileChanged
    | NewVaultFile
    | VaultDirectoryDeleted
    | NewVaultDirectory
    | LocalCaseCollision
    | FileOutsideScope
    | DirectoryOutsideScope

  /** The branches taken for a file the vault has. */
  function PullPresent(base: Version, local: Version, remote: Content): Choice {
    match base
    case None =>
      if local.None? then Copy(None)
      else if local.value != remote then Clash(UntrackedLocalDiffers)
      else Keep
    case Some(b) =>
      if local.None? then
        if remote != b then Clash(LocallyDeletedVaultChanged) else Keep
      else if local.value == remote then Keep
      else if local.value == b then Copy(local)
      else if remote != b then Clash(BothChanged)
      else Keep
  }

  /** The branches taken for a manifest entry the vault no longer has. */
  function PullGone(base: Content, local: Version): Choice {
    match local
    case None => Keep
    case Some(l) => if l == base then Erase(l) else Clash(VaultDeletedLocalChanged)
  }

  /** What pull decides about any path at all: untracked paths the vault lacks are never looked at. */
  function PullChoice(base: Version, local: Version, remote: Version): Choice {
    match remote
    case Some(r) => PullPresent(base, local, r)
    case None => if base.Some? then PullGone(base.value, local) else Keep
  }

  /** The local version a pull choice asks for. */
  function AfterPull(choice: Choice, local: Version, remote: Version): Version {
    match choice
    case Copy(_) => remote
    case Erase(_) => None
    case _ => local
  }

  // ---- push ----

  /** The branches taken for a local file, in scope. */
  function PushPresent(base: Version, local: Content, remote: Version): Choice {
    match base
    case None =>
      if remote.Some? && remote.value != local then Clash(NewLocalCollides)
      else if remote.None? then Copy(None)
      else Keep
    case Some(b) =>
      if remote.None? then Clash(VaultFileDeleted)
      else if local == remote.value then Keep
      else if local == b && remote.value != b then Clash(VaultFileChanged)
      else if local != b && remote.value == b then Copy(Some(b))
      else Clash(BothChanged)
  }

  /** The branches taken for a manifest entry with no local file. */
  function PushGone(base: Content, remote: Version, delete: bool): Choice {
    if remote.None? then Keep
    else if !delete then Keep
    else if remote.value != base then Clash(LocallyDeletedVaultChanged)
    else Erase(base)
  }

  function PushChoice(base: Version, local: Version, remote: Version, delete: bool): Choice {
    match local
    case Some(l) => PushPresent(base, l, remote)
    case None =>
      if base.Some? then PushGone(base.value, remote, delete)
      else if remote.Some? then Clash(NewVaultFile)
      else Keep
  }

  /** The vault version a push choice asks for. */
  function AfterPush(choice: Choice, local: Version, remote: Version): Version {
    match choice
    case Copy(_) => local
    case Erase(_) => None
    case _ => remote
  }

  // ---- what the branches amount to ----

  lemma PullIsThreeWay(base: Version, local: Version, remote: Version)
    ensures PullChoice(base, local, remote).Clash? <==> AllDiffer(base, local, remote)
    ensures !PullChoice(base, local, remote).Clash? ==>
              ThreeWay(base, local, remote) == Some(AfterPull(PullChoice(base, local, remote), local, remote))
    ensures match PullChoice(base, local, remote)
            case Copy(e) => e == local && local != remote && remote.Some?
            case Erase(e) => Some(e) == local && remote.None?
            case _ => true
  {}

  /** Which of the three versions is missing decides the reason given. */
  lemma PullReasons(base: Version, local: Version, remote: Version)
    ensures match PullChoice(base, local, remote)
            case Clash(r) =>
              && (r == UntrackedLocalDiffers <==> base.None?)
              && (r == LocallyDeletedVaultChanged <==> local.None?)
              && (r == VaultDeletedLocalChanged <==> remote.None?)
              && (r == BothChanged <==> base.Some? && local.Some? && remote.Some?)
            case _ => true
  {}

  lemma PushReasons(base: Version, local: Version, remote: Version, delete: bool)
    ensures match PushChoice(base, local, remote, delete)
            case Clash(r) =>
              && (r == NewVaultFile <==> base.None? && local.None?)
              && (r == NewLocalCollides <==> base.None? && local.Some?)
              && (r == LocallyDeletedVaultChanged <==> base.Some? && local.None?)
              && (r == VaultFileDeleted <==> base.Some? && local.Some? && remote.None?)
              && (r == VaultFileChanged <==> base.Some? && local == base && remote.Some?)
              && (r == BothChanged <==> base.Some? && local.Some? && local != base && remote.Some?)
            case _ => true
  {}

  /** A merged path merges to the same version again: an interrupted pull finds no new conflict there. */
  lemma MergedPathIsSettled(base: Version, local: Version, remote: Version)
    requires ThreeWay(base, local, remote).Some?
    ensures var merged := ThreeWay(base, local, remote).value;
            ThreeWay(base, merged, remote) == Some(merged)
  {}

  lemma PushIsFastForward(base: Version, local: Version, remote: Version, delete: bool)
    ensures PushChoice(base, local, remote, delete).Clash? <==>
              remote != base && remote != local && (delete || local.Some? || base.None?)
    ensures match PushChoice(base, local, remote, delete)
            case Copy(e) => e == base == remote && local != remote && local.Some?
            case Erase(e) => Some(e) == base == remote && local.None? && delete
            case Keep => remote == local || (!delete && local.None? && base.Some?)
            case Clash(_) => true
  {}

  /** Retrying a push at a path already brought to its target asks for nothing more there. */
  lemma PushRetry(base: Version, local: Version, before: Version, now: Version, delete: bool)
    requires !PushChoice(base, local, before, delete).Clash?
    requires now == before || now == AfterPush(PushChoice(base, local, before, delete), local, before)
    ensures PushChoice(base, local, now, delete) == if now == before then PushChoice(base, local, before, delete)
              else Keep
  {}

  /** Pulling with the old base at a path a push has settled, or not yet reached, leaves the local version alone, unless
      the file was deleted locally, changed in the vault, and not compared for want of --delete. */
  lemma PullAfterPush(base: Version, local: Version, vault: Version, now: Version, delete: bool)
    requires var choice := PushChoice(base, local, vault, delete);
             !choice.Clash? && (now == vault || now == AfterPush(choice, local, vault))
    ensures var choice := PullChoice(base, local, now);
            if !delete && base.Some? && local.None? && vault.Some? && vault != base
            then choice == Clash(LocallyDeletedVaultChanged)
            else choice.Keep?
  {}
}
