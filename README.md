# install-via-git, modelled in Dafny

install-via-git installs a tool from a git repository according to a
configuration file.

- **Install.** It clones or updates a local checkout and runs the
  configured setup, install or skip scripts. It records the installed
  commit in a lock file, so a later run can reproduce that commit, update
  to the branch tip or retry.
- **Uninstall.** It runs the uninstall script and can clear the lock.
- **Backups.** The lock file is backed up when an explicit commit or
  `--clean` is given, and the checkout only with `--clean` when its
  directory exists. Both are restored at the end only with `--dry`.

This project models the decision-and-recovery engine of that program and
proves what it promises:

- **Strategy choice.** The four observed signals (`Fact`) choose an update
  strategy, and each strategy has its runner (`Strategy`).
- **Strategy runners.** Each runner issues a fixed sequence of git calls
  and writes the lock pair `Current`/`Next` (`Runners`). The git client is
  a class over an abstract repository: a cloned flag, HEAD, the branch and
  its remote tip, a trace of every call and a failure oracle (`Git`).
- **Inspection.** The four signals are computed from the lock file and the
  repository (`Inspect`).
- **Lock keepers.** The lock-file keeper (`Lock`) and the git-aware keeper
  (`GitLock`) commit and roll back the lock. The git-aware keeper also
  resets the checkout.
- **Orchestration steps.** The strategy, rollback and uninstall steps run
  scripts on a host (`Orchestration`). Script outcomes come from an oracle
  (`Host`). The serial script runner is modelled too (`Script`).
- **Filesystem.** The filesystem helpers work over an in-memory tree
  (`FsTree`, `Fs`). So do the staging backups (`Backup`) and the backups
  of the lock file and the checkout (`RunnerBackup`).
- **Commands.** `cmd` holds the install and uninstall sequences and their
  restore logic, the script builder and the flag precedences (`Cmd`).
- **Helpers.** Path strings (`Paths`, `Text`), the environment map with
  its bounded expansion (`Env`) and the error values with `errors.Is`
  (`Errors`).

## How it is modelled

- **Two layers per operation.** Each operation that changes state is a
  method on a class: the git `Client`, the `FileSystem`, the `Host`, the
  keepers and the backups. The method is proved to produce exactly what a
  pure function of the old state gives: `RunCreateLock` against
  `CreateLock`, `Install` against `InstallRun`, and so on. The properties
  the program promises are lemmas about those functions.
- **Paths.** Paths in the tree are lists of names. `Paths` proves that a
  clean absolute path string and its list of names determine each other.
  It also proves that `Join`, `Parent` and `Tail` act on that list.
- **Git.** A successful call moves HEAD as git would. A failing call is
  still recorded in the trace. A checkout of the branch name lands on the
  remote tip, and any other ref lands on that ref.
- **Host.** An executor run is recorded with its directory and
  environment, and fails when the oracle says so. A no-op never fails.
- **Behaviour kept from the source.** A clean run with no lock file on disk fails
  while it backs up the lock file (`Cmd.PrepareBackupForLockfile`). The
  backup's move cannot stat a missing origin, so it fails with "backup
  origin". The model keeps this behaviour.

## Model

| member | source | states |
|---|---|---|
| Errors.IsSentinel | errorx/error.go:5-7 | errors.Is(e, sentinel) holds through any number of wrappings exactly when the innermost error is that sentinel |
| Strategy.SelectStrategy | strategy/strategy.go:89-140 | for each tag, exactly which of the 36 facts select it (both directions), so the ten tags partition the facts |
| Strategy.Runner | strategy/strategy.go:142-165 | each listed tag maps to its own runner and only that tag does; Tunknown gets the always-failing runner; NoUpdateRunner is never chosen |
| Strategy.InitFromEmptyEverywhere | strategy/strategy.go:91-94 | with no repository and no lock, every status and every spec selects TinitFromEmpty |
| Strategy.UnknownOnlyWhenStatusUnread | strategy/strategy.go:112-139 | the unknown runner is reached iff repo and lock exist, status is unknown and the spec is not force |
| Git.Apply | git/git.go:60-67 | every call is recorded; a failing call changes nothing else; hash queries and fetches never move HEAD or the clone flag |
| Git.RunCalls | strategy/run.go:216-233 | issuing calls with early return keeps branch, tip and oracle; a failure is a git error; a successful plan ending in a hash query leaves HEAD set |
| Git.RunCallsTrace | strategy/run.go:216-233 | the trace grows by a prefix of the plan, all of it on success; on failure the last issued call is the one whose error is returned |
| Git.Client.GetCommitHash | git/git.go:79-81 | records the query, returns HEAD on success and "" with a rev-parse error otherwise |
| Git.Client.Clone | git/git.go:83-91 | moves the client exactly as Apply says and fails iff the oracle or an existing checkout refuses |
| Git.Client.Fetch | git/git.go:93-96 | as Apply, with a fetch error on failure |
| Git.Client.Checkout | git/git.go:98-101 | as Apply, with a checkout error on failure |
| Git.Client.ResetHard | git/git.go:103-106 | as Apply, with a reset error on failure |
| Git.Client.PullForce | git/git.go:108-111 | as Apply, with a pull error on failure |
| Runners.RunUpdateToLatestWithLock | strategy/run.go:30-52 | pair and repository after the run equal the pure UpdateToLatestWithLock outcome |
| Runners.RunUpdateToLock | strategy/run.go:64-86 | never writes the pair; repository after the run equals the pure UpdateToLock outcome |
| Runners.RunCreateLatestLock | strategy/run.go:98-122 | pair and repository equal the pure CreateLatestLock outcome |
| Runners.RunCreateLock | strategy/run.go:134-151 | pair and repository equal the pure CreateLock outcome |
| Runners.SyncAndRecord | strategy/run.go:36-51 | fetch, pull, checkout and hash after the discarded checkout; Next is written only when all succeeded |
| Runners.RunInitFromEmptyToLock | strategy/run.go:192-204 | pair and repository equal the pure InitFromEmptyToLock outcome |
| Runners.RunInitFromEmpty | strategy/run.go:216-233 | pair and repository equal the pure InitFromEmpty outcome (also InitFromEmptyToLatest, lines 163-180) |
| Runners.RunRunner | strategy/run.go:241-274 | running the runner of any kind gives exactly the Run outcome of that kind |
| Runners.NoLockBeforeAnyCall | strategy/run.go:31-34 | the three lock-based runners (also lines 65-68, 193-195) return NoLock with an empty Current, issuing no git call and leaving the pair |
| Runners.NextOnlyOnSuccess | strategy/run.go:46-51 | a failing run never changes Next; a changed Next means success with HEAD at it; only CreateLatestLock touches Current |
| Runners.SuccessRecordsHead | strategy/run.go:174-179 | a successful hash-reading runner records as Next exactly the commit HEAD is at |
| Runners.OnlyNoopRunnerSkips | strategy/run.go:262-264 | errors.Is(err, ErrNoopStrategy) iff the runner is NoopRunner; every other error is a git failure or a sentinel |
| Runners.InitFromEmptyOrder | strategy/run.go:163-180 | Clone, PullForce(branch), Checkout(branch), GetCommitHash in this order, stopping after the first failure; Next recorded only after all four |
| Runners.SyncOrder | strategy/run.go:134-151 | CreateLock and UpdateToLatestWithLock issue the discarded checkout then a prefix of the sync plan; a failing first checkout never stops the run |
| Runners.UpdateToLockChecksOutLock | strategy/run.go:77-85 | UpdateToLock keeps the pair and issues Checkout(Current) iff the sync succeeded and the hash read differs from Current |
| Runners.CreateLatestLockKeepsPreSyncHash | strategy/run.go:99-103 | Current becomes the hash read before any fetch or pull, and stays so whatever fails later |
| Runners.InertRunners | strategy/run.go:241-274 | noop, unknown, retry and no-update runners issue no git call and keep the pair; only noop and unknown report their sentinel |
| Runners.CreateLatestLockOrder | strategy/run.go:98-122 | GetCommitHash, Checkout(branch), then the sync plan, stopping after the first failure except the checkout; a failed first hash returns at once with the pair untouched; success writes Current as the first hash and Next as the final HEAD |
| Runners.InitFromEmptyToLockOrder | strategy/run.go:192-204 | with a lock, Clone, PullForce(branch), Checkout(Current) in this order, stopping after the first failure, whose call is the one named in the error; the pair is never written |
| Runners.UpdateToLockScenario | strategy/run.go:64-86 | a repository at A with lock B and no failures ends at B with the pair unchanged |
| Runners.InitFromEmptyToLatestScenario | strategy/run.go:163-180 | a fresh clone forced to the latest commit records the remote tip as Next |
| Inspect.RepoStatusOf | inspect/inspect.go:10-26 | RSunknown iff the lock is missing or unreadable or the hash fails; RSmatch iff the untrimmed content equals the hash; RSconflict otherwise |
| Inspect.UpdateSpecOf | inspect/inspect.go:28-36 | USretry iff retry; USforce iff update and not retry; USunspec iff neither |
| Inspect.LockExistenceOf | inspect/inspect.go:38-47 | LEexist iff the file exists, reads and its untrimmed content is non-empty |
| Inspect.RepoExistenceOf | inspect/inspect.go:49-54 | REexist iff the hash query succeeds |
| Inspect.EmptyLockConflicts | inspect/inspect.go:42-45 | an existing empty lock file gives LEnone while the status compares it as RSconflict, and CreateLock is chosen |
| Inspect.RepoStatus | inspect/inspect.go:10-26 | queries the hash only when the lock file exists and reads, and returns RepoStatusOf of what it saw |
| Inspect.LockExistence | inspect/inspect.go:38-47 | returns LockExistenceOf of the lock file as it is |
| Inspect.RepoExistence | inspect/inspect.go:49-54 | issues one hash query and returns RepoExistenceOf of its result |
| Lock.Loaded | lock/keeper.go:23-37 | the keeper's starting Current is the lock file's content when it reads, else "" |
| Lock.PersistEffect | lock/keeper.go:48-74 | a write of a non-empty hash leaves exactly that hash; an empty hash writes nothing; only an uncreatable file fails, under the given context; nothing else in the tree changes |
| Lock.PersistSame | lock/keeper.go:48-60 | writing back the content the lock file holds changes nothing |
| Lock.CommitThenRollback | lock/keeper_test.go:17-69 | for every initial content and next hash: commit leaves next (or init when next is empty), and rollback then leaves init (or what commit left when init is empty) |
| Lock.FileKeeper.constructor | lock/keeper.go:23-37 | Current starts as the lock file's content (or ""), Next starts empty |
| Lock.FileKeeper.Pair | lock/keeper.go:44-46 | returns the keeper's own pair object on every call |
| Lock.FileKeeper.Commit | lock/keeper.go:48-60 | the tree and error are exactly Persist of Next under "commit"; the pair is not written |
| Lock.FileKeeper.Rollback | lock/keeper.go:62-74 | the tree and error are exactly Persist of Current under "rollback"; the pair is not written |
| GitLock.CommitOf | gitlock/gitlock.go:36-42 | delegates to the lock commit, with its error wrapped as "gitlock commit"; empty Next changes nothing |
| GitLock.RollbackEffect | gitlock/gitlock.go:44-57 | empty Current does nothing; a failing lock write returns without a reset; success leaves the lock file and HEAD at Current; at most one ResetHard(Current) |
| GitLock.RollbackUndoesCommit | gitlock/gitlock.go:44-57 | commit then rollback of an existing non-empty lock restores the tree exactly and resets HEAD to the recorded hash |
| GitLock.GitKeeper.Commit | gitlock/gitlock.go:36-42 | the tree and error equal CommitOf; no git call is issued |
| GitLock.GitKeeper.Rollback | gitlock/gitlock.go:44-57 | the tree, repository and error equal RollbackOf |
| Orchestration.StrategyRun | runner/strategy.go:38-58 | pair and repository are the runner's outcome; success iff the runner succeeded and install succeeded, or it reported the no-op strategy and skip succeeded |
| Orchestration.OneScriptAtMost | runner/strategy.go:38-58 | install runs exactly on runner success, skip exactly on the no-op error, neither otherwise, and then the runner error comes back wrapped "run strategy" |
| Orchestration.NoopRunsSkip | runner/strategy.go:40-50 | the no-op strategy keeps pair and repository, runs only skip, and succeeds iff skip does |
| Orchestration.UnknownRunsNothing | runner/strategy.go:39-42 | the unknown strategy runs no script and returns its sentinel wrapped |
| Orchestration.StrategyStep.Run | runner/strategy.go:38-58 | the error, pair, repository and host equal StrategyRun with scripts from the configured lines |
| Orchestration.RollbackRun | runner/rollback.go:39-57 | the rollback script always runs; with noupdate, neither lock nor repository is touched |
| Orchestration.RollbackRunEffect | runner/rollback.go:49-56 | without noupdate the keeper rolls back before the script, and the script still runs when the lock write fails |
| Orchestration.RollbackStep.Run | runner/rollback.go:39-57 | the tree, repository and host equal RollbackRun; nothing is reported |
| Orchestration.UninstallOrder | runner/uninstall.go:27-42 | the uninstall script runs only for an existing repo dir, and its failure stops before the runner; the runner's no-op error counts as success, and any other error comes back wrapped |
| Orchestration.UninstallStep.Run | runner/uninstall.go:27-42 | the error, pair, repository and host equal UninstallRun for the directory as it exists |
| RunnerBackup.NewLockFileBackup | runner/backup.go:44-52 | a no-op backup iff neither clean nor a commit is given |
| RunnerBackup.NewRepoBackup | runner/backup.go:85-92 | a no-op backup iff neither clean nor an existing repository directory |
| RunnerBackup.Noop.Create | runner/backup.go:35 | always succeeds, changing nothing |
| RunnerBackup.Noop.Restore | runner/backup.go:36 | always succeeds, changing nothing |
| RunnerBackup.LockFile.Create | runner/backup.go:54-73 | succeeds iff the temp dir can be made and the lock file is a file; then the lock file is staged and overwritten with commit, and the backup is recorded; on failure it is not, and nothing outside the temp dir changes |
| RunnerBackup.LockFile.Restore | runner/backup.go:75-78 | a missing staged entry fails with only the staging directory removed; a staged file moves back over the lock file, with the whole resulting tree stated; a staged directory moves back as in Repo.Restore, with the same frames; the staging directory is always removed |
| RunnerBackup.RestoreAndClose | runner/backup.go:75-78 | moves the staged entry back, in each case of its kind, with entries outside origin and staging unchanged, then removes the staging directory whatever happened |
| RunnerBackup.Repo.Create | runner/backup.go:94-105 | stages a copy of the repository directory and leaves every original entry in place; nothing outside the temp dir changes |
| RunnerBackup.Repo.Restore | runner/backup.go:107-110 | a missing staged entry fails with only the staging directory removed; a staged file or directory moves back, entries outside the origin and staging are unchanged and new entries lie only at or above the origin; the staging directory is always removed |
| RunnerBackup.KeepsAndStages | runner/backup.go:94-105 | a copy into a disjoint place both stages the origin and keeps it unchanged |
| Backup.StagePath | backup/backup.go:33-42 | the staging path is the origin's last name inside the backup directory |
| Backup.StagePathJoin | backup/backup.go:40 | on strings, dir.Join(origin.Tail()) lists exactly the names StagePath gives |
| Backup.CopyStages | backup/backup.go:67-69 | a copy stages every entry of the origin unchanged at its image |
| Backup.MoveStages | backup/backup.go:63-65 | a move to a disjoint place stages every entry too |
| Backup.RenameStages | backup/backup.go:59-61 | a rename stages every entry |
| Backup.MoveBackRestores | backup/backup.go:50-57 | moving a staged directory back restores every entry it had, whatever happened at the origin meanwhile |
| Backup.DirRoundTrip | backup/backup_test.go:60-112 | copy or move, then any change outside staging, then restore: every original file and directory is back with its content |
| Backup.DirRestoreAfterChange | backup/backup_test.go:60-112 | after a copy or move into a fresh staging directory and any change that keeps staging and the origin's kinds, the staged tree is copyable back onto the origin (so Restore cannot fail on shape) and the move back restores every original entry |
| Backup.DirRemoveKept | backup/backup_test.go:91-96 | removing a path inside the origin, as the test does, is such a change |
| Backup.DirWriteKept | backup/backup_test.go:81-90 | overwriting a file inside the origin, as the test does, is such a change |
| Backup.FileRestoreAfterChange | backup/backup_test.go:135-162 | after a file is staged and the origin changed within its kind, Restore's move back can create the origin, and the origin then holds its original content |
| Backup.FileTestChanges | backup/backup_test.go:135-162 | staging by move or copy, then writing the origin, or removing it after a copy, keeps the staged file and leaves the origin restorable |
| Backup.Backup.New | backup/backup.go:33-42 | ensures the backup directory and stages at the origin's name inside it; fails as "new backup" iff the directory cannot be made |
| Backup.Backup.IntoTempDir | backup/backup.go:24-31 | makes the fresh temp directory and a backup in it; fails as "new backup" otherwise |
| Backup.Backup.Copy | backup/backup.go:67-69 | copies the origin to staging: missing origin fails as "backup origin"; directory and file cases as DirPath.Copy and FilePath.Copy |
| Backup.Backup.Move | backup/backup.go:63-65 | moves the origin to staging, with the same failure and per-kind cases |
| Backup.Backup.Rename | backup/backup.go:59-61 | renames the origin to staging |
| Backup.Backup.Restore | backup/backup.go:50-57 | renames back when asked, moves back otherwise |
| Backup.Backup.Close | backup/backup.go:95-97 | removes the whole backup directory and never fails |
| Backup.Backup.MoveEntry | backup/backup.go:71-81 | fails as "backup origin" when the source is missing; a directory moves with DirPath.Move, a file with FilePath.Move |
| Backup.Backup.CopyEntry | backup/backup.go:83-93 | fails as "backup origin" when the source is missing; a directory copies with DirPath.Copy, a file with FilePath.Copy |
| FsTree.MkdirAll | filepathx/dir.go:12-16 | keeps every entry, creates every ancestor of the path, and adds nothing but directories above it |
| FsTree.RemoveAll | filepathx/dir.go:18-22 | exactly the entries at or inside the path disappear, and the rest is unchanged |
| Fs.EnsureDirOf | filepathx/dir.go:12-16 | succeeds iff no ancestor is a file, and then the directory exists; nothing already there changes |
| Fs.EnsureFileOf | filepathx/file.go:23-49 | succeeds iff the parent can be made and the path is no directory; an existing file keeps its content |
| Fs.FileSystem.DirExist | filepathx/dir.go:24-27 | true iff the path exists and is a directory |
| Fs.FileSystem.FileExist | filepathx/file.go:18-21 | true iff the path exists and is not a directory |
| Fs.FileSystem.EnsureDir | filepathx/dir.go:12-16 | the tree and error are EnsureDirOf: MkdirAll on success, unchanged otherwise |
| Fs.FileSystem.RemoveDir | filepathx/dir.go:18-22 | RemoveAll of the path, never failing |
| Fs.FileSystem.EnsureFile | filepathx/file.go:23-49 | a directory gives ErrNotFile, an existing file is kept, and a missing one is created empty after its parents |
| Fs.FileSystem.ReadFile | filepathx/file.go:52-59 | returns the content of a file; anything else gives "" and an error |
| Fs.FileSystem.WriteFile | filepathx/file.go:62-66 | replaces or creates the file with exactly the content iff it can be created; otherwise nothing changes |
| Fs.FileSystem.RemoveFile | filepathx/file.go:68-72 | removes an entry with nothing inside it; fails otherwise |
| Fs.FileSystem.CopyFile | filepathx/file.go:74-99 | the destination gets the source's content and the source is unchanged; a directory source leaves an empty destination and fails |
| Fs.FileSystem.CopyDir | filepathx/dir.go:29-74 | a missing source fails with no change; success is CopyTree, which merges into dst; nothing outside dst changes; a copyable pair never fails |
| Fs.FileSystem.MoveDir | filepathx/dir.go:76-121 | success is MoveTree, which moves every file and keeps the source directories; changes stay inside source and destination |
| Fs.FileSystem.MoveFile | filepathx/dir.go:115 | the assumed FilePath.Move: dst takes the file and src disappears, iff src is a file and dst can be created |
| Fs.FileSystem.IsDir | backup/backup.go:72 | the assumed Path.IsDir: fails iff nothing is there, and otherwise says whether it is a directory |
| Fs.FileSystem.Rename | backup/backup.go:60 | the assumed Path.Rename as os.Rename: the subtree moves iff the rename is possible |
| Paths.JoinSegments | filepathx/path.go:34-39 | joining a local path appends its names to the path's names |
| Paths.TailIsLastPart | filepathx/path.go:54-57 | Tail is what follows the last "/", the whole string without "/", and "" after a trailing "/" |
| Paths.TailSegments | filepathx/path.go:54-57 | the tail of a clean path is its last name, "" for the root |
| Paths.ParentSegments | filepathx/path.go:50-52 | Parent drops the last name and keeps the root |
| Paths.ExtSpec | filepathx/path.go:42-48 | an extension is reported iff the last element has a dot, and it is what follows the last dot, without dots |
| Paths.NewPath | filepathx/path.go:25-31 | the result is always a clean absolute path |
| Paths.NewPathRelative | filepathx/path.go:25-31 | a relative path names the working directory joined with it |
| Env.SplitAssign | execx/env.go:26-36 | splits at the first "=" iff there is one, and the parts join back to the entry |
| Env.SplitAssignInverse | execx/env.go:59-69 | the "k=v" entry IntoSlice writes splits back to (k, v) |
| Env.LastWins | execx/env.go:26-36 | the last entry that sets a key gives it its value |
| Env.KeyFromEntry | execx/env.go:26-36 | every key comes from an entry with an "=" that sets it |
| Env.FromSliceRender | execx/env.go:26-69 | EnvFromSlice undoes IntoSlice in whatever order the keys come |
| Env.ExpandBounded | execx/env.go:75-88 | Expand substitutes between 1 and 11 times; when it stops before the cap the result is a fixed point |
| Env.ExpandResolvesChain | execx/env.go:78-88 | once substitution reaches a fixed point within the cap, Expand returns exactly that |
| Env.Env.constructor | execx/env.go:15-17 | a new environment is empty |
| Env.Env.FromMap | execx/env.go:19-24 | a nil map gives an empty environment, any other map its entries |
| Env.Env.FromSliceOf | execx/env.go:26-36 | the map built is FromSlice of the entries |
| Env.Env.Get | execx/env.go:38-41 | found iff the key is set, with its value; "" otherwise |
| Env.Env.Set | execx/env.go:43-45 | afterwards Get of the key gives the value; every other key is unchanged |
| Env.Env.Add | execx/env.go:47-56 | a new map with the keys of both, where the argument's values win |
| Env.Env.IntoSlice | execx/env.go:59-69 | one "k=v" entry per key, in iteration order |
| Env.Env.Expand | execx/env.go:78-88 | returns Expanded, the bounded repeated expansion |
| Env.Env.ExpandStrings | execx/env.go:90-96 | keeps the length and expands element-wise |
| Script.SerialRuns | script/runner.go:24-35 | a prefix of the executors ran in order with the same dir and env; success iff all ran and succeeded; otherwise the first failure, wrapped with its index |
| Script.SerialRunner.Run | script/runner.go:24-35 | the host and error equal Serial, with dir defaulting to the working directory and env to empty |
| Cmd.StringsToExecutor | cmd/run.go:226-232 | a no-op iff there are no lines, a raw script otherwise |
| Cmd.ScriptKeepsLines | cmd/run.go:226-232 | the script starts with "set -ex\n", and splitting the rest at newlines gives back the lines |
| Cmd.GetShell | cmd/root.go:125-134 | the flag if non-empty, else the configured shell if non-empty, else ["bash"]; never empty |
| Cmd.ParseConfigFromOption | cmd/root.go:70-76 | stdin iff the option is "-", else the option as a file path |
| Cmd.UninstallSpecOf | cmd/uninstall.go:65-68 | Uninstall always set; Remove iff remove or purge |
| Cmd.RunRestorer | cmd/run.go:234-236 | noopRestore changes nothing; a backup restorer restores by rename or move as prepared |
| Cmd.RestoreIfDry | cmd/run.go:77-90 | does nothing unless dry; when dry, it restores the lock file and then the repository, attempting the second even if the first fails |
| Cmd.PrepareBackupForLockfile | cmd/run.go:238-266 | no-op unless commit or clean; otherwise the lock file moves to staging and an explicit commit is written in its place; a missing lock file fails |
| Cmd.PrepareBackupForRepo | cmd/run.go:268-285 | backs up only when clean and the repo dir exists, by rename, and its restorer renames back |
| Cmd.Prepare | cmd/run.go:154-169 | preparation leaves the lock file as it read, or newly empty on success; a successful one leaves a lock file; at most the setup script ran |
| Cmd.PrepareFailureKeepsLock | cmd/run.go:154-169 | a failed preparation returns an error before any keeper: no git call and the lock file is unchanged |
| Cmd.FailureRollsBack | cmd/run.go:184-194 | a strategy failure rolls the keeper back and returns the original error; success commits Next |
| Cmd.CommitEffect | cmd/run.go:191-194 | a concluded success commits Next into the ensured lock file and cannot fail |
| Cmd.NoopAndRetryKeepLock | main_test.go:133-138 | with a matching lock, no flag runs only skip and --retry only install; the lock file keeps its content |
| Cmd.UpdateMovesLock | main_test.go:139-141 | a successful --update leaves the lock file holding the hash the repository ended at |
| Cmd.StrategyRunner.Run | cmd/run.go:204-224 | equals StrategyRun with skip and install built by stringsToExecutor in the repo dir |
| Cmd.Install | cmd/run.go:153-195 | the error, tree, repository and host equal InstallRun of the old state |
| Cmd.UninstallCommandRun | cmd/uninstall.go:115-139 | Clear is called iff purge and the uninstall step succeeded; then its failure is the result; otherwise the step's error is |
| Cmd.UninstallRunner | cmd/uninstall.go:115-139 | the error, repository, host and cleared flag equal UninstallCommandRun with a keeper read from the lock file |
| Inspect.Inspection | cmd/uninstall.go:69-74 | the fact computed from the lock file and repository: one hash query, plus one more iff the lock file is a file; REexist iff the first query succeeds; LEexist iff the lock file holds non-empty content; the spec is passed through |
| Cmd.Uninstall | cmd/uninstall.go:65-103 | after the inspection, a dry run succeeds with no script run, nothing cleared and only hash queries reaching git; otherwise the outcome is UninstallCommandRun on the inspected fact and the repository after inspection |

## Left out

- Process spawning, output draining and cancellation (execx) are left out. Script and executor outcomes are an oracle over the executions run so far (`Host`). `NewExecutorFromStrings` is not part of this model; only its lines and shell are kept.
- The literal git command lines are not modelled. `ResetHard(c)` resets to `origin/c` in the source; the model moves HEAD to `c`.
- GitLock.RollbackEffect: its "HEAD at Current" conclusion holds only under the model's reset, which moves HEAD to `c`. `gitlock/gitlock.go:53-55` calls `ResetHard(Current)`, and `git/git.go:103-106` runs `git reset --hard origin/<Current>`. The lock holds a commit hash (from `rev-parse HEAD` or `--commit`), and for a hash `origin/<hash>` names no ref, so the source's reset is expected to fail: the lock file is rolled back, "gitlock rollback" is returned (and only logged by `cmd/run.go:186-188`), and HEAD stays where the failed run left it. The model's success case matches the source only for a Current that is also a remote branch name.
- GitLock.RollbackUndoesCommit: the same reset simplification. The lock file half holds as stated; HEAD returns to the recorded hash only under the model's reading of `ResetHard`, and for a commit hash the source's reset is expected to fail instead.
- Paths.Join: defined only when the argument is empty, absolute, or a relative path whose names are all plain (no ".", ".." or empty name). Relative paths such as "a/../b", "..", "../x" or "a/../../b" are outside its domain, because `filepath.Clean` is not modelled; for the non-local ones the source returns p unchanged.
- Copying or moving a directory into itself (or into one of its own subdirectories) is excluded by the `Disjoint` preconditions of `Fs.FileSystem.CopyDir` and `Fs.FileSystem.MoveDir`; the source's behaviour there (an unbounded walk or a failure) is not modelled.
- `Clone`'s working directory, `filepath.Clean`, symlinks and permissions are not modelled. A filesystem operation fails only because of the shape of the tree.
- The repository directory on disk and the git state are separate: a clone does not add files to the tree.
- The host and git oracles are independent. The relative order of script runs, git calls and file writes within one step is not observable in the model.
- Logging, cobra flag parsing, config file decoding, process exit and the `run`/`uninstall` command bodies before the runners are left out. The fact of `run`, the shell and the paths are parameters; `uninstall`'s inspection is modelled (`Inspect.Inspection`).
- `FilePath.Move`, `Path.IsDir` and `Path.Rename` are called but not defined in the repository. They are given assumed contracts, shown in their rows.
- `Locker().Clear()` is not defined in the repository. Its outcome is the `clearErr` parameter of `Cmd.UninstallCommandRun`.
- `inspect.UpdateSpec.Get` and the `Steps.Uninstall` field are not part of this model. The update spec of `uninstall`'s fact is a parameter.
- The test file expects the strategy arms `USnoupdate`, `USremove`, `USuninstall`, `Tnoupdate` and `Tremove`, which `strategy/strategy.go` does not declare. They are left out, and so is `RemoveRunner`, which needs a git CLI method the `Command` interface lacks.
- `BackupList` is left out: it depends on `errorx.Serial`, which is not defined in the repository.
- Error messages keep their wrapping contexts but drop format arguments, so "commit %s into %s" becomes "commit".
- `os.MkdirTemp` picks its directory outside the model: the temp directory is a parameter that must be fresh and apart from the origin.
- `NewPath`'s `os.Getwd` failure is not modelled: the working directory is a parameter.
- The order of a directory listing is not modelled: the copy and move loops take the children in any order.
- `os.Expand` is a parameter, a substitution of references by the map's values.
- Env.Env.FromMap: copies the map, where Go shares it with the caller.
- Orchestration.RollbackStep.Run: rollback failures are only logged in the source, so the method returns nothing, and logging is out of scope.
