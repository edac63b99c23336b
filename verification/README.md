# Sync, lifecycle and search models

A Dafny model of the stateful algorithms in this repository, with proofs about every input, every run or every
reachable state. `dafny verify dfyconfig.toml` checks all of it.

## What is modelled

**Docs sync** (`Paths`, `HostFiles`, `Merge`, `Manifest`, `Steps`, `Pull`, `PullProofs`, `PullRerun`, `RunPull`,
`Apply`, `ApplyProofs`, `ApplyReports`, `Push`, `PushProofs`, `PushAcceptance`, `PushRerun`, `RunPush`,
`PullAfterPush`). A vault and a workspace are directory trees behind a mutable `Host`. Between any two commands other
writers may replace the whole tree, and a command may fail before or after it takes effect. Three versions meet at
every path: the manifest (base), the workspace (local) and the vault (remote). `Merge` holds the branch tables of pull
and push and shows what they amount to; `Pull`, `Apply`, `Push`, `RunPull` and `RunPush` are the loops and commands on
mutable hosts; the `Proofs` modules carry the results: three-way merge, fast-forward push, no lost update, each
mutation reported once, a true report (`ApplyReports`), the validated tree. `PushAcceptance` says exactly when a push
is accepted; `PullRerun` and `PushRerun` say exactly when a pull or push that was cut short can be rerun, and
`PullAfterPush` what a pull does instead. `TextDiff`, `Names` and `Links` are three small algorithms beside it.

**Live preview** (`Preview`, `PreviewShows`, `LivePreview`), **browser sessions** (`Sessions`), **install lock**
(`InstallLock`), **install job** (`InstallJob`), **run queue** (`RunQueue`), **Modal allocation log** (`ModalLog`,
`LateCreate`, `Allocations`) and the **capacity detector** (`RefreshDetector`) are state machines: every event, and
every continuation after an await, is one step, and the results hold for all sequences of steps. Where the source
keeps the state in variables it updates, a class holds the same variables; each of its methods is shown to be one
step, to keep the invariant, and to do what its caller relies on.

**Graph searches** (`Isolation`, `BundleClosure`) are the recursive searches over mutable memo, visiting and closure
sets, compared with plain reachability.

## Assumptions

- Two contents are equal exactly when their SHA-256 digests are (the digest is injective), and a guarded `files.write` is
  one atomic step.
- Preview: a settled attach or stop resumes before its connection drops. `DropIsSafeExactly` shows that this is exactly
  what convergence needs, and `LateContinuationLeavesStaleCast` is a run without it. A close may come at any moment.
- Allocation log: provider lookups are accurate, the provider refuses a name in use, a create takes effect before its call
  ends or never (`LateIsSafeExactly` says when one that arrives later does harm), and no create of a name starts while
  another create or a sweep of its pending record is under way. The last one is not enforced by the source.
  `BeginIsSafeExactly` shows that it is exactly what is needed, at every stage of the other create or sweep:
  `OverlappingCreatesOrphan` is a run of two creates alone, `SweepRacingCreateOrphans` one with a sweep. Even a create that
  has cleared its pending record and only has its `finally` left can do harm: it takes the newer create's key out of
  `allocating`, so that a sweep, once the record has expired, removes it under that create.
- Install lock: `link` is atomic, inodes are not reused, a stale verdict falls only on a dead process, and the lock does
  not change between the second look and the `unlink` that breaks it. The last two are separate awaits;
  `BreakIsSafeExactly` says over all later runs when that matters, and `LateBreakAdmitsTwoHolders` is such a run.
- Sessions: a read from storage and the code up to the next await are one step, a write takes effect when issued, and
  nobody acts on a session between the save that announces it and its activation. `ActivationIsSafeExactly` says over all
  later runs when that matters.
- `PullRerun` is about manifests that list no path as both file and directory, nothing outside their scope and not the
  root, as every manifest that pull or push writes; `PullAfterPushCompletesExactly` needs only the last.

## Where the code and its documentation differ

The model follows the code.

- A pull that completes is the exact merge only if no removed directory is now a vault file (`MergeExactly`); otherwise the
  file just pulled is removed again (`PulledFileIsLost`).
- `plugins/docs/README.md` says pull removes a remotely deleted directory only when it is still empty locally. The code
  does so by failing: a directory that still holds a local file ends the pull as partial, every time
  (`PullCompletesExactly`, `AddedFileBlocksPull`).
- The source and `plugins/docs/README.md` promise that an interrupted pull recovers by rerunning it. That holds if and only
  if no tracked path the vault has lost is now a vault folder or lies beneath a file new in the vault
  (`PullRerunExactly`); otherwise it can be cut off at a point after which every rerun stops at reading that path
  (`InterruptedPullCannotRerun`).
- The same promise for push (`plugins/docs/README.md`, Atomicity and recovery) holds if and only if the push does not
  delete the file its scope names (`PushRerunExactly`). If it does and is cut off after the deletion, every retry stops at
  the snapshot (`InterruptedPushCannotRerun`), and so does every pull. While the scope is there (`ScanExactly`), a pull
  instead plans no write and no delete, stopping only at files deleted locally and changed in the vault
  (`PullAfterPushExactly`); `ReadableExactly` and `PullAfterPushCompletesExactly` say when it gets that far and completes.
- A file that became a folder, or a folder that became a file, can never be pushed over what it was, with or without
  `--delete`: the tree check refuses the request (`KindChangeIsRefused`).
- Two overlapping creates of one sandbox name can leave a sandbox without any record (`OverlappingCreatesOrphan`).
- `sync/apply` with a current file among `deleteDirectories` passes every check and removes the file without comparing its
  version (`UndisturbedApply`, `FileDeletedAsDirectory`).
- A file delete re-reads and removes in two steps, so a write in between is lost (`DeleteTakesNamedVersion`); the deletes of a
  pull have the same gap (`PullDeleteTakesNamedVersion`).
- A push with `--delete` of a workspace that holds one pulled file applies the deletion and then cannot refresh its
  manifest (`RefreshExactly`).
- Isolation answers can be wrong after a query that met an import cycle (`CycleMisleadsLaterQuery`): exactly when some file
  memoised false imports one memoised true (`TrustworthyExactly`).
- A failed capacity pass is not retried in full when a request for one host arrives first (`RetriedInFullExactly`).
- An install job that has been aborted accepts callers until its promise settles (`LateCallerJoinsAbortedJob`).

## Model

| member | source | states |
|---|---|---|
| Paths.SplitJoin | plugins/docs/server.ts:487-515 | splitting a joined path at "/" gives its segments back, so a path may be held as its segments |
| Paths.StartsWithIsPrefix | plugins/docs/server.ts:1038-1044 | the string test "starts with the folder plus a slash" holds exactly when the folder is a proper prefix in segments |
| Paths.VaultPathOnNames | plugins/docs/server.ts:487-515 | which names the path parser accepts: no slash at either end and no two in a row, no segment that starts with a dot, no forbidden character, no drive letter |
| Paths.FoldKeepsPrefix | plugins/docs/server.ts:1187-1197 | case folding keeps the folder-above relation, so ancestors may be looked up in folded form |
| Paths.FoldExactly | plugins/docs/server.ts:1176-1189 | two paths fold to one iff they have the same segments up to letters that are the upper- and lower-case form of each other; folding leaves no upper-case letter |
| Paths.LowerExactly | plugins/docs/server.ts:985-993 | the same for names: two names have one lower-case form iff they have the same length and agree at each position up to the case of a letter |
| HostFiles.CommandsKeepValid | apps/host-daemon/src/command-handlers/path-mutations.ts:71-137 | mkdir, guarded write and non-recursive removal keep a real directory tree: nothing is both file and directory, every folder above an entry exists |
| HostFiles.EffectsTellAll | apps/host-daemon/src/command-handlers/file-write.ts:115-215 | a command changes no file except the one its log entry names, and the entry names the version that was there |
| HostFiles.FailureLeavesOpen | apps/host-daemon/src/command-handlers/file-write.ts:60-215 | behind one failed reply of a write the file may be unchanged or written |
| HostFiles.Host.Mkdir | apps/host-daemon/src/command-handlers/path-mutations.ts:71-85 | recursive mkdir on a mutable host among other writers and failures: fails on or beneath a file, else makes every missing folder |
| HostFiles.Host.Write | apps/host-daemon/src/command-handlers/file-write.ts:60-215 | compare-and-swap write: conflict with the current version unless it is the expected one, else the content and its parents; fails on or beneath the wrong kind |
| HostFiles.Host.Remove | apps/host-daemon/src/command-handlers/path-mutations.ts:117-137 | non-recursive removal takes a file of any version or an empty directory; a missing path is reported as missing |
| HostFiles.Host.Read | plugins/docs/server.ts:1760-1775 | reading gives the content, or absent, or an error |
| Merge.PullIsThreeWay | plugins/docs/server.ts:1958-1999 | pull's branches are the three-way merge: conflict iff base, local and vault are pairwise different; otherwise local, vault or agreed version, with the expected version named |
| Merge.PullReasons | plugins/docs/server.ts:1958-1999 | which of the three versions is missing decides the reason a pull gives for a conflict |
| Merge.MergedPathIsSettled | plugins/docs/server.ts:1958-1999 | merging an already merged path again with the old base changes nothing and finds no conflict |
| Merge.PushIsFastForward | plugins/docs/server.ts:2210-2303 | a push clashes iff the vault differs from both base and local (for a local deletion only with --delete); a write or delete is chosen only when the vault still equals the base |
| Merge.PushReasons | plugins/docs/server.ts:2210-2303 | which version is missing or unchanged decides the reason a push gives for a conflict |
| Merge.PushRetry | plugins/docs/server.ts:2210-2303 | choosing again at a path left alone gives the same choice; at a path already brought to its target it asks for nothing |
| Merge.PullAfterPush | plugins/docs/server.ts:1958-1999 | pulling with the old base at a path a push has settled or not yet reached leaves the local version alone, unless it was deleted locally, changed in the vault, and not compared for want of --delete |
| Manifest.ReadSyncState | plugins/docs/server.ts:1803-1826 | a parsed manifest is accepted iff identities are unique, local and remote paths agree and everything lies in its scope; which error is reported |
| Manifest.ContainsOnNames | plugins/docs/server.ts:1039-1045 | on names: a scope holds everything, its file alone, or its folder and whatever starts with the folder and a slash |
| Manifest.SnapshotStateRoundTrip | plugins/docs/server.ts:1849-1863 | a manifest written from a snapshot is accepted when read back, and its base versions are the snapshot |
| Manifest.SnapshotRemote | plugins/docs/server.ts:1067-1138 | a snapshot agrees with the vault on exactly the files in scope |
| Manifest.SyncSnapshot | plugins/docs/server.ts:1067-1138 | on an undisturbed vault a snapshot succeeds iff the scope exists and no two entries in it differ only in case, and then lists exactly the files and directories in scope, each once; which error otherwise; it changes nothing |
| Manifest.CheckCase | plugins/docs/server.ts:1124-1137 | the folding pass rejects, with the collision as its error, iff two different entries fold to one name |
| Manifest.ReadmeCollides | plugins/docs/server.ts:1124-1137 | any vault that holds `README.md` and `readme.md` at its root is refused by a snapshot of the whole vault |
| Manifest.ReadListed | plugins/docs/server.ts:1076-1123 | reads exactly the accessible files of the listing and keeps its accessible directories |
| Steps.StrictRunIsPrefix | plugins/docs/server.ts:2015-2104 | with no other writer, wherever a failure strikes (also after taking effect), a run of mutations leaves exactly what some prefix of them leaves |
| Steps.WritesRun | plugins/docs/server.ts:2029-2045 | guarded writes of distinct un-nested paths whose expectations hold all succeed and leave exactly those contents and parents |
| Steps.DeletesRun | plugins/docs/server.ts:2046-2064 | re-read-then-remove of files at their expected versions succeeds and removes exactly them |
| Steps.MakesRun | plugins/docs/server.ts:2021-2028 | creating directories succeeds iff none of them is, or lies beneath, a file |
| Steps.Sorted | plugins/docs/server.ts:1333 | the order in which directories are made: a permutation of the request, ascending by joined name |
| Steps.PrunesRun | plugins/docs/server.ts:2065-2081 | deepest first, non-recursive removals all succeed iff each directory holds nothing but other listed directories; then exactly the listed paths are gone |
| Steps.DeepestFirst | plugins/docs/server.ts:2065-2069 | the removal order is a permutation of the list, longest paths first |
| Steps.PathAfter | plugins/docs/server.ts:2015-2081 | if every step touching a path asks for one version, the path ends at its old version or that one |
| Steps.ReplayKeepsValid | plugins/docs/server.ts:2015-2081 | any sequence of mutations keeps a real directory tree |
| Pull.PlanPresent | plugins/docs/server.ts:1958-1987 | first planning loop, on the mutable workspace: exactly the choices for the vault files, or the first unreadable path |
| Pull.PlanGone | plugins/docs/server.ts:1988-1999 | second planning loop: exactly the choices for manifest entries the vault no longer has |
| Pull.PlanPull | plugins/docs/server.ts:1941-1999 | the plan carries out the choice of every tracked or remote path, each once, and nothing else; planning fails iff some path cannot be read, names such a path, and changes nothing |
| Pull.BaseLookup | plugins/docs/server.ts:1941-1943 | the base map built from an accepted manifest holds exactly its entries |
| Pull.Execute | plugins/docs/server.ts:2012-2081 | the four loops perform exactly the planned steps up to the first failure; what they list as written, deleted and removed is what was done, in order, all of it when they complete |
| Pull.Workspace.WriteSyncState | plugins/docs/server.ts:1828-1847 | the manifest is replaced if and only if it is still the one read at the start, among writers that may change it in between |
| PullProofs.ConflictExactly | plugins/docs/server.ts:1957-2011 | pull stops with a conflict iff some path has three pairwise different versions |
| PullProofs.CleanMerge | plugins/docs/server.ts:1952-1999 | in a conflict-free plan every write, delete or untouched path is what the merge says, with the local version as expectation |
| PullProofs.PrefixVersion | plugins/docs/server.ts:2012-2081 | after any prefix of the mutations every path holds its old or its merged version, except removed directories' own paths |
| PullProofs.PullIsMerge | plugins/docs/server.ts:2012-2104 | with no other writer, wherever it fails, each path holds its old or merged version; a completed pull leaves exactly the merge, less the paths of removed directories |
| PullProofs.MergeExactly | plugins/docs/server.ts:1948-1951 | a completed pull leaves the exact three-way merge if and only if no removed directory is now a vault file or was a workspace file |
| PullProofs.PulledFileIsLost | plugins/docs/server.ts:2065-2081 | concrete case: a file pulled where a tracked folder used to be is removed again by the same pull, which still completes; the next push --delete would erase it in the vault |
| PullProofs.PullResumes | plugins/docs/server.ts:2088-2104 | replanned with the old manifest after an interruption, a pull finds no conflict and asks for the files the first attempt would have left; whether it can be replanned is PullRerunExactly |
| PullProofs.PullLosesNoUpdate | plugins/docs/server.ts:2029-2045 | among any other writers and failures, every write of a pull replaces exactly the version its plan saw, and only planned deletes and removed directories are removed |
| PullProofs.PullDeleteTakesNamedVersion | plugins/docs/server.ts:2046-2064 | a successful delete of a pull removes the version its plan saw iff nobody changed that file between its re-read and its removal |
| PullProofs.PullDeleteCanLoseAnUpdate | plugins/docs/server.ts:2046-2064 | concrete case: an edit between re-read and removal is lost and the pull goes on |
| PullProofs.WritesAreReady | plugins/docs/server.ts:2029-2045 | once the snapshot's directories exist, every planned write of a clean plan succeeds |
| PullProofs.PrunableExactly | plugins/docs/server.ts:2065-2081 | a removed directory can be removed at the end of a pull iff that could be foreseen from the merge |
| PullProofs.PullCompletesExactly | plugins/docs/server.ts:2012-2115 | an undisturbed conflict-free pull completes if and only if no vault directory is blocked by a workspace file and every removed directory can go |
| PullProofs.AddedFileBlocksPull | plugins/docs/server.ts:2078-2080 | concrete case: a user file in a folder deleted in the vault makes every pull end `partial` |
| PullRerun.PullRerunExactly | plugins/docs/server.ts:1988-2115 | for a conflict-free pull that would complete undisturbed: cut off after any number of steps it can be replanned with the old manifest, meets no conflict, completes, and ends with the same files, if and only if no tracked path the vault has lost is now a vault folder or lies beneath a file new in the vault |
| PullRerun.InterruptedRunRecovers | plugins/docs/server.ts:2012-2104 | the same for failures anywhere in a run without other writers, those after taking effect included |
| PullRerun.PrefixBounds | plugins/docs/server.ts:2012-2081 | whatever prefix of a pull ran, the workspace is a real tree that holds only files and directories it held before or the vault holds |
| PullRerun.TangledInWrittenManifest | plugins/docs/server.ts:1849-1863 | for a manifest that a pull wrote the condition can be read off the vault: a folder at the tracked path, or any file above it |
| PullRerun.InterruptedPullCannotRerun | plugins/docs/server.ts:1988-1991 | concrete case: a tracked file, deleted locally, became a vault folder; the pull completes undisturbed, but cut off once the folder is made every rerun stops at reading the tracked path |
| RunPull.Apply | plugins/docs/server.ts:1930-2104 | from the snapshot on: refused for another vault or scope; stopped iff the plan has conflicts, with workspace and manifest untouched; among any other writers no update is lost to a write; otherwise the run of the planned steps, on the unchanged workspace when nobody else writes; undisturbed `pulled` iff every step succeeds and the manifest is still the one read |
| RunPull.PullSnapshot | plugins/docs/server.ts:1930-2115 | the same for the pull of one given snapshot |
| RunPull.PullCommand | plugins/docs/server.ts:1922-2115 | pull end to end: refused iff the manifest belongs to another vault or scope than the arguments name; with an undisturbed vault a snapshot error iff the scope is missing or names collide; undisturbed, which of refused, unreadable, stopped and run happens is settled by the state beforehand; after `pulled` the manifest is that of the vault and scope asked for, and the lists are the plan; the vault is only read, and among any other writers no update in the workspace is lost to a write; with failures but no other writers it stops iff some path has three different versions, and otherwise each path holds its old or merged version and, when no path is tangled, a rerun recovers |
| Apply.AssertValidTree | plugins/docs/server.ts:1173-1198 | the tree check passes iff no two entries fold to one path and no entry lies beneath a file entry, both case-folded |
| Apply.ValidIsSound | plugins/docs/server.ts:1173-1198 | what passes the check has distinct exact paths and nothing beneath a file |
| Apply.CheckRequest | plugins/docs/server.ts:1199-1290 | a request is accepted iff request, vault listing and resulting tree are valid and every directory to delete is emptied and gets nothing new; otherwise the error of the first check that fails |
| Apply.ValidPathsExactly | plugins/docs/server.ts:1140-1172 | a request passes the path check iff every path it names anywhere is one the path parser accepts |
| Apply.Preflight | plugins/docs/server.ts:1296-1305 | among failures alone the conflicts listed are exactly the requested paths whose current version is not the requested one, each once with both versions; among any other writers each names a requested path and version and a different current one; an error iff a path cannot be read |
| Apply.ApplyLoops | plugins/docs/server.ts:1328-1431 | the four loops over the mutable vault, directories in name order, are the specified run, and the result lists and outcome are its |
| Apply.SyncApply | plugins/docs/server.ts:1140-1432 | ok only for valid requests, and on an undisturbed vault exactly for those that pass every check and name only readable paths, with the error of the check that fails; when versions differ the conflicts are exactly those that differ, and nothing is changed; errors and dry runs change nothing; otherwise the loops ran, with no other writer on what the vault was; every conflict is real; `applied` iff no conflicts and no errors |
| Apply.ConflictsAreReal | plugins/docs/server.ts:1350-1396 | among any other writers and failures, each conflict of the loops names a requested path with its requested version and a different current one |
| ApplyProofs.NoLostUpdate | plugins/docs/server.ts:1350-1412 | among any other writers and failures, every version a write replaces is the version it named, and only requested paths are removed |
| ApplyProofs.DeleteTakesNamedVersion | plugins/docs/server.ts:1377-1389 | a file delete removes the version it named iff nobody changed that file between its re-read and its removal |
| ApplyProofs.DeletesTakeNamedVersionsExactly | plugins/docs/server.ts:1371-1396 | over the whole loop of file deletes, among any other writers and failures, every version removed is one that was named iff nothing changes a file between its re-read and its removal |
| ApplyProofs.NobodySlipsIn | plugins/docs/server.ts:1371-1396 | without other writers nothing does, whatever fails |
| ApplyProofs.DeleteCanLoseAnUpdate | plugins/docs/server.ts:1377-1389 | concrete case: a write between re-read and removal is lost |
| ApplyProofs.EachMutationOnce | plugins/docs/server.ts:1350-1396 | under any interleaving each requested write and file delete is reported exactly once among written, deleted, conflicts and errors |
| ApplyReports.EachDirectoryOnce | plugins/docs/server.ts:1328-1349 | under any interleaving each requested directory that was missing is reported exactly once, as created or in error |
| ApplyReports.ReportIsTruthful | plugins/docs/server.ts:1328-1431 | under any interleaving what is listed as written, deleted or removed was done, and whatever was done is listed there or among the errors |
| ApplyReports.ConflictDidNothing | plugins/docs/server.ts:1350-1396 | a mutation reported as a conflict has touched nothing |
| ApplyReports.UndisturbedReport | plugins/docs/server.ts:1328-1431 | undisturbed, the lists are exactly the requested writes with their contents, the deletes, the new directories in name order and the directories that were there |
| ApplyProofs.AcceptedFacts | plugins/docs/server.ts:1199-1290 | what the checks guarantee about exact paths: no requested path is nested under a requested or remaining file, none is requested twice |
| ApplyProofs.ExpectedIsFuture | plugins/docs/server.ts:1268-1290 | up to implied parents, the expected tree is the list of entries that passed validation |
| ApplyProofs.FrontLoops | plugins/docs/server.ts:1333-1396 | undisturbed, the first three loops succeed completely and build the expected tree short of directory removals |
| ApplyProofs.QuietPrunes | plugins/docs/server.ts:1397-1412 | deepest first, each directory is empty when its removal runs; errors exactly for those beneath a file |
| ApplyProofs.UndisturbedApply | plugins/docs/server.ts:1328-1431 | undisturbed, `applied` iff no directory to delete lies beneath a current file; the result is exactly the validated tree iff none of them is a current file |
| ApplyProofs.FileDeletedAsDirectory | plugins/docs/server.ts:1244-1267 | concrete case: a current file named among the directories to delete passes every check and is removed unversioned |
| Push.CaseCollisions | plugins/docs/server.ts:2199-2209 | a case collision is reported, under the path it is found at, iff another local path folds to the same |
| Push.PlanLocalFiles | plugins/docs/server.ts:2210-2273 | first loop: exactly the writes and conflicts of local files |
| Push.PlanMissing | plugins/docs/server.ts:2274-2291 | second loop: exactly the deletes and conflicts of tracked files gone locally, and a warning for each that is kept in the vault for want of --delete |
| Push.PlanNewVaultFiles | plugins/docs/server.ts:2292-2303 | third loop: exactly the vault files that are neither tracked nor local |
| Push.PlanDirectories | plugins/docs/server.ts:2304-2378 | directory loops: exactly the directories to create, to delete, in conflict, and warned about because they are kept |
| Push.PlanPush | plugins/docs/server.ts:2189-2390 | the push plan carries out the choice of every path in scope, each once, reports every conflict with its reason and warns of exactly the tracked files and directories that are gone locally and kept |
| Push.OneLoopReports | plugins/docs/server.ts:2210-2378 | each reason for a conflict is reported by one of the loops iff it holds |
| PushProofs.VersionConflictExactly | plugins/docs/server.ts:2210-2303 | a path in scope is a version conflict iff the vault holds neither the pulled nor the local version (local deletions only with --delete) |
| PushProofs.PlanMatchesVault | plugins/docs/server.ts:2210-2291 | every expectation in a plan is the version the vault had at the snapshot |
| PushProofs.PushApplies | plugins/docs/server.ts:2398-2408 | an undisturbed accepted push is applied in full and every path of the vault is at its target |
| PushProofs.PushedEqualsWorkspace | plugins/docs/server.ts:2210-2303 | with --delete and no conflict, the pushed vault equals the workspace on every file in scope |
| PushProofs.PushedDirectories | plugins/docs/server.ts:2304-2378 | and on every directory in scope, except that a pulled folder's own root is kept |
| PushProofs.PushedCaseDistinct | plugins/docs/server.ts:2409-2412 | after a push no two entries in scope differ only in case, so the refreshing snapshot cannot fail for that |
| PushProofs.RefreshExactly | plugins/docs/server.ts:2409-2412 | the snapshot after a push can be taken if and only if the push did not delete the file its scope names |
| PushProofs.PullThenPush | plugins/docs/server.ts:2117-2390 | after a pull, while the vault stays as it was, no push reports a vault-side conflict whatever happened locally |
| PushProofs.InterruptedPush | plugins/docs/server.ts:2398-2408 | with no other writer, wherever failures strike, the vault stays a real tree, each file is at its old or target version and directories lie in between |
| PushProofs.PushResumes | plugins/docs/server.ts:2117-2408 | from any snapshot of a partly pushed vault and the old manifest, a push meets no conflict and asks for exactly the mutations still missing; whether there is such a snapshot is PushRerunExactly |
| PushAcceptance.AcceptedExactly | plugins/docs/server.ts:1199-1290 | a conflict-free push is accepted if and only if vault and workspace laid over each other in scope are one valid tree and the manifest lists no directory to delete twice |
| PushAcceptance.KindChangeIsRefused | plugins/docs/server.ts:1268-1290 | so replacing a file by a folder, or a folder by a file, is always refused |
| PushRerun.PushRerunExactly | plugins/docs/server.ts:2117-2412 | for an accepted conflict-free push: wherever failures cut it off, the vault can be scanned again, whatever is planned then with the old manifest is conflict-free and accepted, and undisturbed it completes to the same versions and can refresh its manifest, if and only if the push does not delete the file its scope names |
| PushRerun.ScanExactly | plugins/docs/server.ts:1067-1138 | a vault that such a push has left in part can be scanned iff the file its scope names, if the push deletes it, is still there |
| PushRerun.InterruptedPushCannotRerun | plugins/docs/server.ts:1074-1081 | concrete case: a workspace of one pulled file, deleted locally and pushed with --delete; cut off after the deletion, no retry gets past the snapshot |
| PushRerun.RetryIsAccepted | plugins/docs/server.ts:1199-1290 | unless the scope is lost, the push planned again is conflict-free and its request accepted |
| PushRerun.RetryTarget | plugins/docs/server.ts:2210-2303 | the retried push asks for the same version at every path |
| PushRerun.RetryCompletes | plugins/docs/server.ts:2117-2412 | unless the scope is lost, the undisturbed retry is applied, leaves every path where the first attempt would have, and can refresh its manifest |
| PushRerun.AppliedSettles | plugins/docs/server.ts:2398-2419 | an accepted push without conflicts is applied and settles every path, and the scope exists afterwards unless its one file was deleted |
| PullAfterPush.PullAfterPushExactly | plugins/docs/server.ts:1958-1999 | a pull after a conflict-free push that was cut short anywhere plans no write and no delete; it stops with a conflict exactly at the files deleted locally, changed in the vault, and not compared for want of --delete |
| PullAfterPush.ReadableExactly | plugins/docs/server.ts:1958-1999 | the workspace can be read for that pull iff no tracked path the vault had lost before the push is a folder of the workspace or lies beneath a file of it |
| PullAfterPush.PullAfterPushCompletesExactly | plugins/docs/server.ts:2012-2104 | undisturbed that pull completes iff no tracked folder the vault no longer has lies beneath a file of the workspace, and then every file keeps its version except one standing where such a folder was |
| RunPush.ReadLocalFiles | plugins/docs/server.ts:2174-2182 | on an undisturbed workspace the local files read are exactly its files |
| RunPush.Prepare | plugins/docs/server.ts:2143-2378 | snapshot, listing, reading and planning change nothing and give the plan for what both sides hold; which error otherwise |
| RunPush.ApplyPlan | plugins/docs/server.ts:2398-2408 | among any other writers each write replaces only the version it names, every mutation is accounted for, and the report is true; with failures alone an unacceptable push changes nothing, and any other leaves a vault that can be scanned and recovered from unless the scope is lost; undisturbed it is refused iff not acceptable, for the check that fails, and otherwise settles every path and reports exactly that |
| RunPush.ApplyAndRefresh | plugins/docs/server.ts:2398-2412 | applying as above, and the snapshot taken afterwards, which undisturbed fails iff the push deleted the file its scope names |
| RunPush.PushCommand | plugins/docs/server.ts:2117-2420 | push end to end: refused without a manifest or for another vault than asked for; the plan returned is the push plan of what both sides hold, warnings included, in every outcome; conflicts, status and dry runs change nothing; among any other writers no update is lost to a write and every mutation is accounted for; what the manifest is afterwards in every outcome; with failures but no other writers an unacceptable push changes nothing, and the vault is left in a state that can be scanned again iff the file its scope names was not deleted, and from which, unless the push deletes that file, every retry is accepted and completes; undisturbed, which of refused, unable to refresh, overtaken and pushed happens is settled by the state beforehand, and `pushed` leaves every path at its target, equal to the workspace with --delete, and reports exactly that |
| TextDiff.SimpleDiff | plugins/docs/server.ts:1893-1920 | the hunk is empty iff the texts agree; it patches base into local and, reversed, back; no other single hunk replaces fewer lines |
| TextDiff.NoSmallerHunk | plugins/docs/server.ts:1893-1920 | the greedy strip is optimal among all hunks that turn base into local |
| Names.NotePath | plugins/docs/server.ts:975-995 | the loop terminates with the first free candidate, unused up to the case of letters (LowerExactly), after at most one more try than there are entries |
| Names.VaultId | plugins/docs/server.ts:1541-1557 | the loop terminates with the first free id, after at most one more try than there are vaults |
| Names.NamesDiffer | plugins/docs/server.ts:985-993 | different counters give different names |
| Names.DecimalReads | plugins/docs/server.ts:988-993 | a counter is written so that it reads as itself, without a leading zero |
| Names.NoteCandidates | plugins/docs/server.ts:986-993 | the candidates are the name as it is and then, from 2 on, the name with a space and a counter before the extension |
| Names.TriedAreBounded | plugins/docs/server.ts:985-993 | pigeonhole: while every candidate tried was taken there are at most as many as taken names |
| Links.NormalizeRelative | plugins/docs/app.tsx:134-143 | the loop over a mutable stack computes the resolution of the link |
| Links.RelativeFrom | plugins/docs/app.tsx:145-156 | the shifting loop computes the ascent from the note folder and the descent to the target |
| Links.LinkRoundTrip | plugins/docs/app.tsx:134-156 | for every folder and every target string: resolving the stored link returns the target if and only if the target is empty or free of empty, "." and ".." segments |
| Links.StoreKeepsTargets | plugins/docs/app.tsx:158-201 | showing then storing keeps where a source points iff it starts with a dot or, without a leading slash, is empty or clean |
| Links.ResolvesClean | plugins/docs/app.tsx:134-143 | a link starting with a dot never resolves to a path with empty, "." or ".." segments |
| Links.LinkIsRelative | plugins/docs/app.tsx:134-143 | a relative link means: from the note's folder so many steps up, no further than the root, and then down |
| Links.LinkFromRoot | plugins/docs/app.tsx:135 | a link without a leading dot is a path from the vault's root, with or without a leading slash |
| Links.ShortestLink | plugins/docs/app.tsx:145-156 | no link that resolves to the target has fewer parts than the one built |
| Links.StoredIsRelated | plugins/docs/app.tsx:196-199 | a stored link starts with a dot, and "./" is put before it only where it did not |
| Preview.BestTarget | plugins/browser-automation/preview.ts:130-143 | whatever order the targets are walked in, the result beats every other target by rank, then activity |
| Preview.BestIsUnique | plugins/browser-automation/preview.ts:130-143 | there is only one such target |
| PreviewShows.BestExactly | plugins/browser-automation/preview.ts:130-143 | it is the most recently active page that is not blank, and only without any the most recently active blank one |
| Preview.StepKeepsOrder | plugins/browser-automation/preview.ts:195-286 | every event keeps activities pairwise distinct, the latest frame at the current sequence number and waiters at the current cursor |
| Preview.StepKeepsSelection | plugins/browser-automation/preview.ts:145-193 | every event keeps: a queued selection, or a running one on course for the best target, or the best target cast |
| Preview.StepKeepsInv | plugins/browser-automation/preview.ts:117-378 | every event keeps both, and whenever the selection chain is drained the best target is cast in a session of the current connection |
| Preview.RunKeepsInv | plugins/browser-automation/preview.ts:117-378 | both hold in every reachable state |
| Preview.DrainedCastsBest | plugins/browser-automation/preview.ts:145-193 | in every reachable state: when the selection chain is drained and a socket is connected, the cast target is the best one and its session belongs to that connection |
| Preview.DropIsSafeExactly | plugins/browser-automation/preview.ts:171-192 | a connection may drop in a reachable state, and all later runs still converge, if and only if no settled attach or stop of it is waiting to resume; closing is always safe |
| Preview.AnsweredExactly | plugins/browser-automation/preview.ts:327-342 | a call is answered at once iff a frame exists and its cursor is not the current sequence number |
| Preview.WaitersAreCurrent | plugins/browser-automation/preview.ts:343-377 | a waiting call has no frame to see or already holds the current cursor; after close nobody waits |
| PreviewShows.FrameExactly | plugins/browser-automation/preview.ts:245-261 | a frame of the cast session that is not too large becomes the latest, with address and title of the page cast, under the next sequence number; every other frame is ignored |
| PreviewShows.RenameExactly | plugins/browser-automation/preview.ts:195-218 | when the page cast changes address or title, the latest frame keeps its data, takes them over and gets the next sequence number |
| PreviewShows.ObserveExactly | plugins/browser-automation/preview.ts:195-218 | a page first seen, or seen under another address, becomes the most recently active one, one with only another title keeps its place; other pages are untouched, and the selection is looked at again; anything else changes nothing |
| PreviewShows.LossExactly | plugins/browser-automation/preview.ts:233-244 | a page that goes takes its own cast with it, and a detached session its own; the selection is then looked at again |
| PreviewShows.CallsExactly | plugins/browser-automation/preview.ts:327-377 | what a call, a caller that gives up, and closing do to connection, chain and waiters |
| PreviewShows.DrainedHasWantedEdge | plugins/browser-automation/preview.ts:145-193 | over every run, once the selection chain is drained the cast has the size asked for last on its connection |
| PreviewShows.ContinueAdvances | plugins/browser-automation/preview.ts:145-193 | a selection task resumes only when its call has been answered, and then ends or has fewer calls left |
| PreviewShows.SelectionFinishes | plugins/browser-automation/preview.ts:145-193 | in every reachable state without a failed call, replies alone can drain the chain, and then the best target is cast |
| Preview.LateContinuationLeavesStaleCast | plugins/browser-automation/preview.ts:171-192 | concrete run: a drop between an attach reply and its continuation leaves a later connection with a stale cast |
| LivePreview.PreviewSource.Observe | plugins/browser-automation/preview.ts:195-218 | on mutable fields: keeps the invariant, records what was seen of a page, and leaves no waiter behind the current frame |
| LivePreview.PreviewSource.Drop | plugins/browser-automation/preview.ts:117-128 | on mutable fields: socket and cast go, the latest frame and the waiters stay, and the invariant is kept unless a settled attach or stop is waiting to resume |
| LivePreview.PreviewSource.Answer | plugins/browser-automation/preview.ts:220-232 | on mutable fields: a reply settles the running task and keeps the invariant |
| LivePreview.PreviewSource.ScreencastFrame | plugins/browser-automation/preview.ts:245-261 | on mutable fields: keeps the invariant; a new latest frame comes only from the cast session and answers every waiter that lacks it |
| LivePreview.PreviewSource.BeginSelection | plugins/browser-automation/preview.ts:145-175 | on mutable fields: keeps the invariant with the computed best target, and a task that finds nothing to do leaves the best target cast |
| LivePreview.PreviewSource.ContinueSelection | plugins/browser-automation/preview.ts:160-192 | on mutable fields: keeps the invariant; once the chain is drained the best target is cast in a session of the current connection |
| LivePreview.PreviewSource.Next | plugins/browser-automation/preview.ts:327-368 | on mutable fields: answered at once iff open and the cursor differs, with the latest frame; otherwise registered, unless closed |
| LivePreview.PreviewSource.CloseSource | plugins/browser-automation/preview.ts:369-377 | on mutable fields: keeps the invariant; nobody waits and no connection is left |
| ModalLog.StepKeepsInv | plugins/environment-modal-sandbox/allocations.ts:43-87 | every step of creates, sweeps, terminations and crashes keeps records, live sandboxes and steps in flight consistent |
| ModalLog.StagesInOrder | plugins/environment-modal-sandbox/allocations.ts:61-87 | a create goes through its stages one by one and at each does one thing: notes the pending record, makes the sandbox, remembers it, clears the pending record |
| ModalLog.SweepInOrder | plugins/environment-modal-sandbox/allocation-sweep.ts:33-54 | a sweep stays with its key and goes through its stages one by one |
| ModalLog.NoOrphan | plugins/environment-modal-sandbox/allocations.ts:61-87 | in every reachable state, crashes between any two steps included, each live sandbox has a record under its id or a pending record with its account, app and name |
| ModalLog.BeginIsSafeExactly | plugins/environment-modal-sandbox/allocations.ts:61-87 | a create may begin in a reachable state, and no later run orphans a sandbox, if and only if no create of the same name and no sweep of its pending record is under way, whatever stage they are at |
| ModalLog.OverlappingCreatesOrphan | plugins/environment-modal-sandbox/allocations.ts:77-86 | concrete run without any sweep: the first of two creates of one name clears the pending record of the second, whose sandbox is then orphaned by a crash |
| LateCreate.LateIsSafeExactly | plugins/environment-modal-sandbox/allocations.ts:80-87 | a sandbox that the provider makes late, for a request nobody waits for any more, is orphaned by no later run if and only if its pending record is still there and no create or sweep of it is past looking for its sandbox |
| LateCreate.LateAfterCrash | plugins/environment-modal-sandbox/allocations.ts:80-87 | so after a crash the pending record alone decides |
| ModalLog.SweepRecovers | plugins/environment-modal-sandbox/allocation-sweep.ts:33-54 | a sweep of a pending record whose sandbox lives replaces exactly that record by one under the sandbox id |
| ModalLog.SweepLookKeepsInv | plugins/environment-modal-sandbox/allocation-sweep.ts:39-54 | each outcome of the provider lookup keeps the invariant |
| ModalLog.SweepRacingCreateOrphans | plugins/environment-modal-sandbox/allocation-sweep.ts:43-47 | concrete run: re-creating a name while its old pending record is being removed orphans the sandbox on a crash |
| Allocations.ModalAllocations.SandboxMade | plugins/environment-modal-sandbox/allocations.ts:80-87 | on mutable state: the new sandbox is live under a fresh id and, like every other, tracked, even when the reply is lost |
| Allocations.ModalAllocations.ForgetIfGone | plugins/environment-modal-sandbox/allocations.ts:46-50 | on mutable state: a record goes only when its sandbox is gone; every live sandbox stays tracked |
| Allocations.ModalAllocations.LookedUp | plugins/environment-modal-sandbox/allocation-sweep.ts:39-47 | on mutable state: every live sandbox stays tracked, and a record whose sandbox was found is never marked for removal |
| Allocations.ModalAllocations.RememberFound | plugins/environment-modal-sandbox/allocation-sweep.ts:48-52 | on mutable state: the found sandbox gets a record under its id before its pending one goes |
| Allocations.ModalAllocations.Create | plugins/environment-modal-sandbox/allocations.ts:61-87 | a whole create that nobody interleaves with: the new sandbox has a record under its id, and no pending record is left |
| Allocations.ModalAllocations.Sweep | plugins/environment-modal-sandbox/allocation-sweep.ts:33-54 | a whole round of the sweep: skipped while allocating, for a missing record or another account; otherwise a record without a sandbox goes once expired or known by id, and a pending one is replaced by one under the id |
| Allocations.RecordSurvivesExactly | plugins/environment-modal-sandbox/allocation-sweep.ts:39-54 | after a sweep of a key: a pending record is there iff its sandbox was not found and it has not expired, one under an id iff its sandbox lives; what was found gets a record under its id, and nothing else changes |
| InstallLock.StepKeepsInv | plugins/browser-automation/installer.ts:448-507 | every file-system step of every process keeps the lock invariant |
| InstallLock.MutualExclusion | plugins/browser-automation/installer.ts:441-508 | at most one live holder in every reachable state, for any number of processes and tokens |
| InstallLock.ReleaseTakesOwnLock | plugins/browser-automation/installer.ts:455-463 | a release removes the releaser's own lock and no other, although its check and its unlink are separate |
| InstallLock.AttemptEndsExactly | plugins/browser-automation/installer.ts:441-508 | an attempt of a live process ends only by giving up while it does not hold the lock, or by releasing it |
| InstallLock.FreeLockIsTaken | plugins/browser-automation/installer.ts:450-455 | without a lock file the next link makes its process the holder |
| InstallLock.StaleLockIsTakenOver | plugins/browser-automation/installer.ts:472-505 | the lock of a dead process is taken over, if nobody acts in between |
| InstallLock.LiveLockIsRespected | plugins/browser-automation/installer.ts:472-507 | looking at the lock of a live process without a stale verdict changes nothing |
| InstallLock.BreakIsSafeExactly | plugins/browser-automation/installer.ts:496-505 | breaking a stale lock in a reachable state lets no later run have two live holders if and only if what lies at the path at the unlink belongs to no live holder |
| InstallLock.LateBreakAdmitsTwoHolders | plugins/browser-automation/installer.ts:496-505 | concrete run with right stale verdicts: two breakers of one dead lock let two live processes hold it |
| Sessions.StepKeepsInv | plugins/browser-automation/server.ts:75-158 | every step keeps the single-flight invariant and never takes back a final or stopped record |
| Sessions.OneCleanupAtATime | plugins/browser-automation/server.ts:75-158 | in every reachable state at most one cleanup body is in progress |
| Sessions.ClosedIsFinal | plugins/browser-automation/server.ts:91-96 | over all continuations a record stored as closed with nothing pending never changes, and no session returns to ready |
| Sessions.WholeCleanup | plugins/browser-automation/server.ts:75-158 | a whole uninterrupted cleanup stores its target, pending iff a call failed, takes a closed session off the active ones and lets the next cleanup in |
| Sessions.CleanCloseIsFinal | plugins/browser-automation/server.ts:91-96 | so a close whose calls all succeed makes the record final, and a final record is not cleaned up again |
| Sessions.WaiterFollows | plugins/browser-automation/server.ts:75-96 | a cleanup that finds another one in progress waits for it and takes over when it has ended, unless the record has become final |
| Sessions.RestartKeepsStored | plugins/browser-automation/server.ts:60-75 | after a restart only the stored record is left, and a request works on a copy of it |
| Sessions.PendingCloseMayBecomeStopped | plugins/browser-automation/server.ts:91-104 | concrete run: a session closed with cleanup pending is later stored as stopped |
| Sessions.ActivationIsSafeExactly | plugins/browser-automation/server.ts:273-274 | after activating a saved record all later runs only move the stored record forward, never back to ready, if and only if the stored record is still the saved one |
| Sessions.Cleanup.AfterGet | plugins/browser-automation/server.ts:86-105 | on mutable fields: keeps the single-flight invariant and never takes back a final or stopped record |
| Sessions.Cleanup.AfterCalls | plugins/browser-automation/server.ts:142-145 | on mutable fields: keeps the single-flight invariant and never takes back a final or stopped record |
| Sessions.Cleanup.TouchActive | plugins/browser-automation/server.ts:358-362 | saving the active record again never changes the stored one |
| RunQueue.StepKeepsInv | plugins/browser-automation/runtime.ts:272-320 | every step keeps the jobs in order and a fatal one last, and changes no settled job |
| RunQueue.FirstInFirstOut | plugins/browser-automation/runtime.ts:272-320 | over every run: while a script is in progress everything submitted before it has settled and nothing after it has begun |
| RunQueue.FailStop | plugins/browser-automation/runtime.ts:308-319 | over every run and continuation: after a script fails or exits 124 no later script is ever handed to the browser |
| RunQueue.TurnExactly | plugins/browser-automation/runtime.ts:277-285 | when its turn comes a script executes iff its deadline has not passed, the runtime is open and every child alive, and is refused otherwise |
| RunQueue.ResultsAreEarned | plugins/browser-automation/runtime.ts:272-320 | over every run: a script was refused only if its deadline had passed, the runtime was closed or a child had died when its turn came, and any other result is the one its own exit gave |
| RunQueue.UntroubledRunsAll | plugins/browser-automation/runtime.ts:272-320 | so on a run without any of these and without a fatal result every script whose turn comes executes and keeps its own result |
| RunQueue.ClosedStaysClosed | plugins/browser-automation/runtime.ts:272-320 | after a close or the death of a child no further script ever begins |
| RunQueue.ExitExactly | plugins/browser-automation/runtime.ts:302-313 | a script that fails or exits 124 closes the runtime and settles after that; any other exit settles it and nothing else |
| RunQueue.RuntimeSession.Proceed | plugins/browser-automation/runtime.ts:277-285 | on mutable fields: when its turn comes a script executes iff its deadline has not passed, the runtime is open and every child alive, and is refused otherwise; no other script changes, and everything before it has settled without a fatal result |
| RunQueue.RuntimeSession.Return | plugins/browser-automation/runtime.ts:308-313 | on mutable fields: a fatal result closes the runtime, and nothing after that script has begun |
| InstallJob.WaitersCountHandles | plugins/browser-automation/host.ts:86-101 | in every reachable state the counter of a job is the number of attached handles |
| InstallJob.DetachTwiceIsOnce | plugins/browser-automation/host.ts:94-101 | detaching a handle twice counts once |
| InstallJob.AbortAfterQuietGrace | plugins/browser-automation/host.ts:88-106 | when a job is aborted, nobody was attached to it at any moment of the preceding grace period |
| InstallJob.AbandonedJobsEnd | plugins/browser-automation/host.ts:79-106 | only the timer aborts, and a current job nobody is attached to is aborted or has its timer running |
| InstallJob.AttachExactly | plugins/browser-automation/host.ts:43-93 | a caller gets no job when the runtime is resolved, joins the current one and calls its timer off, or starts one |
| InstallJob.LastCallerLeaves | plugins/browser-automation/host.ts:94-106 | when the last caller leaves the current job, its timer runs for one grace period from then |
| InstallJob.FireExactly | plugins/browser-automation/host.ts:101-104 | a due timer aborts the job it was set for; any other does nothing |
| InstallJob.JobEndsOnlyBySettling | plugins/browser-automation/host.ts:66-82 | single flight: the current job is given up only when its own promise settles, and the runtime is then resolved iff it was or the job succeeded |
| InstallJob.LateCallerJoinsAbortedJob | plugins/browser-automation/host.ts:79-104 | concrete run: a caller that attaches between the abort and the settlement joins the aborted job |
| InstallJob.RuntimeHost.AttachRuntime | plugins/browser-automation/host.ts:43-93 | on mutable fields: the attach step keeps the count and every timer in order |
| InstallJob.RuntimeHost.DetachHandle | plugins/browser-automation/host.ts:94-106 | on mutable fields: the detach step keeps the count and every timer in order |
| RefreshDetector.BlockedMeansNothingPending | plugins/concurrency-limit/server.ts:436-464 | in every reachable state a blocked detector has no pending request, and delays lie between 1 s and 30 s |
| RefreshDetector.RequestsAreKept | plugins/concurrency-limit/server.ts:365-373 | a request stays pending until one pass that covers it begins |
| RefreshDetector.BlockedHasServedAll | plugins/concurrency-limit/server.ts:488-508 | a run that ends blocked has begun a pass for every request made in it |
| RefreshDetector.RetriedInFullExactly | plugins/concurrency-limit/server.ts:497-507 | a failed pass is repeated in full if and only if all hosts are requested before the next pass, or its timer fires before any request; a request for one host replaces the retry |
| RefreshDetector.BackoffExactly | plugins/concurrency-limit/server.ts:497-507 | after k failed rounds in a row the next failure is retried after 2^k seconds, at most thirty |
| RefreshDetector.SuccessResetsDelay | plugins/concurrency-limit/server.ts:497-507 | a pass that succeeds is not retried, and once a request follows the delay is one second again |
| RefreshDetector.RequestCutsDelayShort | plugins/concurrency-limit/server.ts:497-507 | a request during the delay of a retry starts the next pass at once and leaves the delay as it is |
| RefreshDetector.AbortEnds | plugins/concurrency-limit/server.ts:488-508 | an aborted detector ends with its next steps and begins no pass, whatever else happens |
| RefreshDetector.CapacityDetector.RequestRefresh | plugins/concurrency-limit/server.ts:369-373 | on mutable fields: afterwards the request is pending and the detector is not blocked |
| RefreshDetector.CapacityDetector.AfterWait | plugins/concurrency-limit/server.ts:498-507 | on mutable fields: keeps the invariant, with the delay between 1 s and 30 s |
| Isolation.IsolationScan.Search | vitest.shared.ts:138-159 | the recursive search terminates on any graph, extends the memo, keeps it sound, is true only for real reachability, and otherwise leaves a closed set of false entries |
| Isolation.IsolationScan.RequiresIsolation | vitest.shared.ts:138-159 | on any graph and after any queries a true answer means a matching file is reachable; one query is true iff one is reachable without passing a false memo entry; exact from an empty or exact memo, and for every query when imports have no cycle; the memo stays one that TrustworthyExactly applies to |
| Isolation.ClosedLeadsNowhere | vitest.shared.ts:138-159 | a closed set of non-matching files leads to no matching file |
| Isolation.ExactMemoPrunesNothing | vitest.shared.ts:139-140 | an exact memo never changes an answer |
| Isolation.TrustworthyExactly | vitest.shared.ts:138-159 | after any queries on any graph, every further query would be answered rightly iff the memo is exact, and that is the case iff no file memoised false imports one memoised true |
| Isolation.CycleMisleadsLaterQuery | vitest.shared.ts:141-157 | concrete graph: an entry memoised false inside an import cycle makes a later query wrong |
| Isolation.PartitionTestFiles | vitest.shared.ts:161-217 | every test file lands in exactly one place, and no group is empty; on any graph it is isolated only for a browser-like environment or because it leads to a matching file, and exactly then when imports have no cycle |
| Isolation.SharedWorkerProjects | vitest.shared.ts:231-281 | every test file runs in exactly one generated project, an isolating one iff the file is isolated, otherwise one with its environment; projects exclude only test files, and none is there for nothing except the one generated without any test file |
| BundleClosure.Search.Walk | apps/app/vite-bundle-stats.ts:53-67 | the recursive walk terminates; what it adds is reached from its start and closed under imports up to the skip set |
| BundleClosure.StaticClosure | apps/app/vite-bundle-stats.ts:53-67 | the closure is exactly what the start reaches without touching the skip set |
| BundleClosure.BootIsImportClosed | apps/app/vite-bundle-stats.ts:94-95 | the boot closure is closed under imports |
| BundleClosure.SkippingLosesNothing | apps/app/vite-bundle-stats.ts:111-128 | searching from a route with boot skipped finds exactly what the route reaches, minus boot |
| BundleClosure.SkippingAnOpenSetHides | apps/app/vite-bundle-stats.ts:53-67 | skipping a set that is not import-closed can hide files behind it |
| BundleClosure.ComputeBundleStats | apps/app/vite-bundle-stats.ts:47-136 | no statistics iff no entry chunk; each measured route is recorded from its first matching chunk, disjoint from boot and with boot everything entry or route reaches, or warned about when no chunk matches; nothing else is recorded or warned about |
| BundleClosure.IsRouteExactly | apps/app/vite-bundle-stats.ts:112-117 | a chunk is a route's iff its facade module is some front followed by the route's suffix |

## Left out

- User interface code, command-line declaration, help and output formatting: no algorithm of their own.
- Hidden files, Windows and POSIX path interfaces, `~` expansion, symbolic links and host resolution: paths are sequences
  of segments, and the listings contain only what the path parser accepts.
- Case folding outside ASCII: `toLowerCase` is modelled on the ASCII letters.
- Manifest fields that are only copied (`pulledAt`, sizes, mime types, modification times) and JSON parsing.
- The listing limit: a truncated listing is a failed listing.
- Ties in the removal order (`localeCompare` in the source): they cannot change which removals succeed, only which of
  several failures comes first.
- The retry of a pull or push interrupted by other writers: the retry results are about failures, not about a workspace or
  vault that others edit in between.
- The diffs a plan carries with `--diff`: only the one-hunk diff itself is modelled.
- Percent-encoding of image links and the patterns that find them in Markdown; `orderEntries` and the note index.
- The caps of 64 and 32 browser sessions: they are checked before awaits and do not hold as invariants.
- `installRuntime`'s second check under the lock, downloads, signatures and provenance: calls into code outside this model.
- `decodeOutput` and its budgets, idle and expiry timers of sessions, frame acknowledgements and reconnect timing in the
  preview: they touch none of the state the results are about.
- The lock's owner file with unreadable content, and lock age: a stale verdict is an arbitrary judgement, restricted only
  by the assumption above.
- The dispatch hook, host overrides and refreshed capacities of the concurrency limit: only the wake-and-wait loop is
  modelled; a pass is its set of hosts and whether it failed.
- How `vitest.shared.ts` finds imports and test files in the file system: the import graph and the list of tests are given.
- Chunk descriptions (bytes, packages, sorting) in the bundle statistics: a closure is its set of known file names.
- Sandboxes created outside the wrapper, owners and reconciling of suspended machines in the allocation sweep.
