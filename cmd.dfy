/** The commands (cmd/run.go, cmd/uninstall.go, cmd/root.go): the backups
    taken before a run and the restore after a dry run, the installation
    sequence that ends in commit or rollback, the uninstallation sequence,
    and the small choices the commands make from their flags. */
module Cmd {
  import opened Errors
  import opened FsTree
  import opened Fs
  import opened Git
  import opened Strategy
  import opened Lock
  import opened GitLock
  import opened Runners
  import opened Orchestration
  import Host
  import Inspect
  import Text
  import B = Backup

  // ---------------------------------------------------------------------
  // Small choices.

  /** The header every configured script gets. */
  const ScriptHeader := "set -ex\n"

  /** `stringsToExecutor`: no lines run nothing; otherwise one shell script,
      the header followed by the lines joined by newlines. */
  function StringsToExecutor(lines: seq<string>): (e: Host.Executor)
    ensures e.NoopExecutor? <==> lines == []
    ensures e.RawScript? <==> lines != []
  {
    if |lines| == 0 then Host.NoopExecutor
    else Host.RawScript(ScriptHeader + Text.JoinWith(lines, '\n'))
  }

  /** The script keeps every configured line: after the header, splitting
      it at newlines gives back the lines, as long as no line holds a
      newline of its own. */
  lemma ScriptKeepsLines(lines: seq<string>)
    requires lines != []
    requires forall i :: 0 <= i < |lines| ==> '\n' !in lines[i]
    ensures var e := StringsToExecutor(lines);
      && e.content[..|ScriptHeader|] == ScriptHeader
      && Text.Split(e.content[|ScriptHeader|..], '\n') == lines
  {
    var e := StringsToExecutor(lines);
    assert e.content[|ScriptHeader|..] == Text.JoinWith(lines, '\n');
    Text.SplitJoin(lines, '\n');
  }

  /** `getShell`: the --shell flag, else the configured shell, else bash;
      never empty. */
  function GetShell(flag: seq<string>, configured: seq<string>): (r: seq<string>)
    ensures r != []
    ensures flag != [] ==> r == flag
    ensures flag == [] && configured != [] ==> r == configured
    ensures flag == [] && configured == [] ==> r == ["bash"]
  {
    if |flag| > 0 then flag
    else if |configured| > 0 then configured
    else ["bash"]
  }

  /** Where the configuration comes from. */
  datatype ConfigSource = Stdin | ConfigFile(path: string)

  /** `parseConfigFromOption`: "-" reads standard input, anything else is a
      file path. */
  function ParseConfigFromOption(opt: string): (r: ConfigSource)
    ensures r == Stdin <==> opt == "-"
    ensures r.ConfigFile? ==> r.path == opt
  {
    if opt == "-" then Stdin else ConfigFile(opt)
  }

  /** The `inspect.UpdateSpec` flags the uninstall command sets. */
  datatype UninstallSpec = UninstallSpec(uninstall: bool, remove: bool)

  /** cmd/uninstall.go: uninstalling always, removing the repository for
      --remove or --purge. */
  function UninstallSpecOf(remove: bool, purge: bool): (r: UninstallSpec)
    ensures r.uninstall
    ensures r.remove <==> remove || purge
  {
    UninstallSpec(true, remove || purge)
  }

  // ---------------------------------------------------------------------
  // Backups before a run, and the restore after a dry run.

  /** A restore function returned by the prepare functions: `noopRestore`,
      or the Restore of a backup, by rename or by move. */
  datatype Restorer = NoRestore | RestoreFrom(backup: B.Backup, rename: bool)

  /** The restorer can run on fs. */
  ghost predicate Ready(fs: FileSystem, r: Restorer)
    reads fs, if r.RestoreFrom? then {r.backup} else {}
  {
    r.RestoreFrom? ==> r.backup.fs == fs && r.backup.path == B.StagePath(r.backup.dir, r.backup.origin)
                       && Disjoint(r.backup.origin, r.backup.path)
  }

  /** What running restorer r turned t0 into, with error err: nothing for
      `noopRestore`; the cases of Backup.Restore otherwise. */
  ghost predicate Restored(r: Restorer, t0: Tree, t1: Tree, err: Option<Error>)
  {
    if r.NoRestore? then err.None? && t1 == t0
    else
      var o, p := r.backup.origin, r.backup.path;
      && (r.rename ==> (err.None? <==> CanRename(t0, p, o)) && t1 == if err.None? then RenameTree(t0, p, o) else t0)
      && (!r.rename && p !in t0 ==> err.Some? && t1 == t0)
      && (!r.rename && IsFileAt(t0, p) ==>
            (err.None? <==> CanCreate(t0, o)) && t1 == if err.None? then (t0 - {p})[o := t0[p]] else t0)
      && (!r.rename && IsDirAt(t0, p) ==>
            && (err.None? ==> MkdirAllOk(t0, o) && t1 == MoveTree(t0, p, o))
            && (Copyable(t0, p, o) ==> err.None?))
  }

  /** Run a restorer. */
  method RunRestorer(fs: FileSystem, r: Restorer) returns (err: Option<Error>)
    requires fs.Valid() && Ready(fs, r)
    modifies fs
    ensures fs.Valid()
    ensures Restored(r, old(fs.tree), fs.tree, err)
  {
    if r.NoRestore? {
      return None;
    }
    err := r.backup.Restore(r.rename);
  }

  /** The deferred `restore` closure of `run`: nothing unless dry; then the
      lock file's restorer and the repository's, the second whatever the
      first did. Their errors are only logged; they are returned here so
      that a caller can see them. */
  method RestoreIfDry(fs: FileSystem, dry: bool, lockFile: Restorer, repo: Restorer)
    returns (lockErr: Option<Error>, repoErr: Option<Error>, ghost mid: Tree)
    requires fs.Valid() && Ready(fs, lockFile) && Ready(fs, repo)
    modifies fs
    ensures fs.Valid()
    ensures !dry ==> lockErr.None? && repoErr.None? && fs.tree == old(fs.tree)
    ensures dry ==> Restored(lockFile, old(fs.tree), mid, lockErr) && Restored(repo, mid, fs.tree, repoErr)
  {
    mid := fs.tree;
    if !dry {
      return None, None, mid;
    }
    lockErr := RunRestorer(fs, lockFile);
    mid := fs.tree;
    repoErr := RunRestorer(fs, repo);
  }

  /** `prepareBackupForLockfile` with the fresh temporary directory tmp:
      only for an explicit commit or a clean run; the lock file is moved
      into tmp, and an explicit commit is written in its place. */
  method PrepareBackupForLockfile(fs: FileSystem, tmp: Path, lockFile: Path, commit: string, clean: bool)
    returns (restore: Restorer, err: Option<Error>)
    requires fs.Valid() && Disjoint(lockFile, tmp)
    modifies fs
    ensures fs.Valid() && Ready(fs, restore)
    ensures !(commit != "" || clean) ==> restore == NoRestore && err.None? && fs.tree == old(fs.tree)
    ensures err.Some? ==> restore == NoRestore
    ensures err.None? && (commit != "" || clean) ==>
      restore.RestoreFrom? && !restore.rename && fresh(restore.backup)
      && restore.backup.origin == lockFile && restore.backup.dir == tmp
    ensures (commit != "" || clean) && lockFile !in old(fs.tree) ==> err.Some?
    ensures (commit != "" || clean) && IsFileAt(old(fs.tree), lockFile) && CanCreate(old(fs.tree), tmp) && tmp !in old(fs.tree) ==>
      var moved := (old(fs.tree)[tmp := Dir] - {lockFile})[B.StagePath(tmp, lockFile) := old(fs.tree)[lockFile]];
      err.None? && fs.tree == if commit != "" then moved[lockFile := File(commit)] else moved
  {
    if !(commit != "" || clean) {
      return NoRestore, None;
    }
    ghost var t0 := fs.tree;
    var b, e := B.Backup.IntoTempDir(fs, tmp, lockFile);
    if e.Some? {
      return NoRestore, e;
    }
    B.StageApart(lockFile, tmp);
    assert DirOf(b.path) == tmp;
    assert b.path !in fs.tree;
    e := b.Move();
    if e.Some? {
      return NoRestore, e;
    }
    if commit != "" {
      if IsFileAt(t0, lockFile) {
        assert IsDirAt(t0, DirOf(lockFile));
        assert DirOf(lockFile) != tmp;
      }
      e := fs.WriteFile(lockFile, commit);
      if e.Some? {
        return NoRestore, Some(Wrapped("override commit", e.value));
      }
    }
    return RestoreFrom(b, false), None;
  }

  /** `prepareBackupForRepo` with the fresh temporary directory tmp: only
      for a clean run on an existing repository directory, which is renamed
      into tmp and restored by renaming it back. */
  method PrepareBackupForRepo(fs: FileSystem, tmp: Path, gitWorkDir: Path, clean: bool)
    returns (restore: Restorer, err: Option<Error>)
    requires fs.Valid() && Disjoint(gitWorkDir, tmp)
    modifies fs
    ensures fs.Valid() && Ready(fs, restore)
    ensures !(clean && IsDirAt(old(fs.tree), gitWorkDir)) ==> restore == NoRestore && err.None? && fs.tree == old(fs.tree)
    ensures err.Some? ==> restore == NoRestore
    ensures clean && IsDirAt(old(fs.tree), gitWorkDir) ==>
      var made := old(fs.tree)[tmp := Dir];
      var path := B.StagePath(tmp, gitWorkDir);
      && (err.None? <==> CanCreate(old(fs.tree), tmp) && tmp !in old(fs.tree) && CanRename(made, gitWorkDir, path))
      && (err.None? ==> fs.tree == RenameTree(made, gitWorkDir, path) && B.Staged(old(fs.tree), fs.tree, gitWorkDir, path)
                        && restore.RestoreFrom? && restore.rename && fresh(restore.backup)
                        && restore.backup.origin == gitWorkDir && restore.backup.dir == tmp)
  {
    if !(clean && fs.DirExist(gitWorkDir)) {
      return NoRestore, None;
    }
    ghost var t0 := fs.tree;
    var b, e := B.Backup.IntoTempDir(fs, tmp, gitWorkDir);
    if e.Some? {
      return NoRestore, e;
    }
    B.StageApart(gitWorkDir, tmp);
    ghost var t1 := fs.tree;
    e := b.Rename();
    if e.Some? {
      return NoRestore, e;
    }
    B.RenameStages(t1, gitWorkDir, b.path);
    return RestoreFrom(b, true), None;
  }

  // ---------------------------------------------------------------------
  // Installation.

  /** What `installRunner` is built from: the configured repository,
      branch and scripts, its directories and lock file, the environment
      and the fact inspected before. */
  datatype InstallConfig = InstallConfig(
    repo: string,
    branch: string,
    setup: seq<string>,
    skip: seq<string>,
    install: seq<string>,
    workDir: Path,
    gitWorkDir: Path,
    lockFile: Path,
    env: map<string, string>,
    fact: Fact)

  /** The outcome of an installation: its error, the file tree, the
      repository and the host. */
  datatype InstallResult = InstallResult(err: Option<Error>, tree: Tree, git: State, host: Host.HostState)

  /** The preparation at the head of `installRunner.Run`: the work
      directory, the parent of the repository directory, the setup script,
      the lock file. The first failure stops it, wrapped. */
  function Prepare(t: Tree, h: Host.HostState, c: InstallConfig): (r: (Tree, Host.HostState, Option<Error>))
    ensures ReadTree(r.0, c.lockFile) == ReadTree(t, c.lockFile) || (r.2.None? && ReadTree(r.0, c.lockFile) == Read(""))
    ensures r.2.None? ==> IsFileAt(r.0, c.lockFile)
    ensures r.1.ran == h.ran || r.1.ran == h.ran + [Host.Exec(StringsToExecutor(c.setup), c.workDir, c.env)]
  {
    var d1 := EnsureDirOf(t, c.workDir);
    if d1.1.Some? then (d1.0, h, Some(Wrapped("ensure workDir", d1.1.value)))
    else
      var d2 := EnsureDirOf(d1.0, DirOf(c.gitWorkDir));
      if d2.1.Some? then (d2.0, h, Some(Wrapped("ensure git workDir", d2.1.value)))
      else
        var x := Host.Execute(h, StringsToExecutor(c.setup), c.workDir, c.env);
        if x.1.Some? then (d2.0, x.0, Some(Wrapped("setup", x.1.value)))
        else
          var f := EnsureFileOf(d2.0, c.lockFile);
          if f.1.Some? then (f.0, x.0, Some(Wrapped("ensure lockfile", f.1.value)))
          else (f.0, x.0, None)
  }

  /** The strategy runner and its script, run with a pair that starts from
      the lock file as the keeper read it. */
  function StrategyStage(t: Tree, h: Host.HostState, s: State, c: InstallConfig): Effect
  {
    StrategyRun(Runner(SelectStrategy(c.fact)), c.repo, c.branch,
                StringsToExecutor(c.skip), StringsToExecutor(c.install), c.gitWorkDir, c.env,
                PairVal(Loaded(t, c.lockFile), ""), s, h)
  }

  /** The commit error, wrapped once more by the command. */
  function WrapCommit(e: Option<Error>): (r: Option<Error>)
    ensures r.None? <==> e.None?
  {
    if e.Some? then Some(Wrapped("commit", e.value)) else None
  }

  /** The end of `installRunner.Run`: a failure rolls the keeper back and is
      returned as it was; success commits. */
  function Conclude(t: Tree, lockFile: Path, e: Effect): InstallResult
  {
    if e.err.Some? then
      var k := RollbackOf(t, lockFile, e.pair.current, e.git);
      InstallResult(e.err, k.0, k.1, e.host)
    else
      var k := CommitOf(t, lockFile, e.pair.next);
      InstallResult(WrapCommit(k.1), k.0, e.git, e.host)
  }

  /** A concluded success commits Next into the ensured lock file. */
  lemma CommitEffect(t: Tree, lockFile: Path, e: Effect)
    requires IsFileAt(t, lockFile) && e.err.None?
    ensures var r := Conclude(t, lockFile, e);
      && r.err.None? && r.git == e.git && r.host == e.host
      && Loaded(r.tree, lockFile) == if e.pair.next == "" then Loaded(t, lockFile) else e.pair.next
  {
  }

  /** `installRunner.Run` on values: the preparation, then the strategy
      stage, then commit or rollback. */
  function InstallRun(t: Tree, s: State, h: Host.HostState, c: InstallConfig): (r: InstallResult)
  {
    var pre := Prepare(t, h, c);
    if pre.2.Some? then InstallResult(pre.2, pre.0, s, pre.1)
    else Conclude(pre.0, c.lockFile, StrategyStage(pre.0, pre.1, s, c))
  }

  /** A failed preparation stops before any keeper exists: no git call,
      the lock file reads as before, and at most the setup script ran. */
  lemma PrepareFailureKeepsLock(t: Tree, s: State, h: Host.HostState, c: InstallConfig)
    requires Prepare(t, h, c).2.Some?
    ensures var r := InstallRun(t, s, h, c);
      && r.err.Some? && r.git == s
      && ReadTree(r.tree, c.lockFile) == ReadTree(t, c.lockFile)
      && (r.host.ran == h.ran || r.host.ran == h.ran + [Host.Exec(StringsToExecutor(c.setup), c.workDir, c.env)])
  {
  }

  /** A failing strategy or script rolls the keeper back to the hash the
      pair holds afterwards and returns the failure itself, not the
      rollback's; success commits Next, which cannot fail once the lock
      file has been ensured. */
  lemma FailureRollsBack(t: Tree, s: State, h: Host.HostState, c: InstallConfig)
    requires Prepare(t, h, c).2.None?
    ensures var pre := Prepare(t, h, c);
      var e := StrategyStage(pre.0, pre.1, s, c);
      var k := RollbackOf(pre.0, c.lockFile, e.pair.current, e.git);
      var r := InstallRun(t, s, h, c);
      && (e.err.Some? ==> r.err == e.err && r.tree == k.0 && r.git == k.1)
      && (e.err.None? ==> r.err.None? && r.git == e.git)
      && (e.err.None? && e.pair.next != "" ==> Loaded(r.tree, c.lockFile) == e.pair.next)
  {
  }

  /** The end-to-end cases of the command: with a lock matching the
      repository, no flag runs only the skip script and a retry only the
      install script; the lock file keeps its content, and git is called
      at most to reset to the hash the lock already records. */
  lemma NoopAndRetryKeepLock(t: Tree, s: State, h: Host.HostState, c: InstallConfig)
    requires Prepare(t, h, c).2.None?
    requires c.fact.rExist == REexist && c.fact.lExist == LEexist && c.fact.rStatus == RSmatch
    requires c.fact.uSpec != USforce
    ensures var pre := Prepare(t, h, c);
      var r := InstallRun(t, s, h, c);
      var script := if c.fact.uSpec == USretry then StringsToExecutor(c.install) else StringsToExecutor(c.skip);
      && r.tree == pre.0
      && r.host.ran == pre.1.ran + [Host.Exec(script, c.gitWorkDir, c.env)]
      && (r.err.None? <==> Host.Succeeds(pre.1, script))
      && (r.err.None? ==> r.git == s)
      && (r.git == s || r.git == Apply(s, ResetHard(Loaded(pre.0, c.lockFile))))
  {
    var pre := Prepare(t, h, c);
    var p := PairVal(Loaded(pre.0, c.lockFile), "");
    var kind := Runner(SelectStrategy(c.fact));
    var e := StrategyStage(pre.0, pre.1, s, c);
    var script := if c.fact.uSpec == USretry then StringsToExecutor(c.install) else StringsToExecutor(c.skip);
    assert e.pair == p && e.git == s && e.host.ran == pre.1.ran + [Host.Exec(script, c.gitWorkDir, c.env)]
      && (e.err.None? <==> Host.Succeeds(pre.1, script)) by {
      InertRunners(kind, c.repo, c.branch, p, s);
      OneScriptAtMost(kind, c.repo, c.branch, StringsToExecutor(c.skip), StringsToExecutor(c.install),
                      c.gitWorkDir, c.env, p, s, pre.1);
    }
    ConcludeUnchanged(pre.0, c.lockFile, e);
  }

  /** Concluding a stage that left the pair as the keeper read it and
      recorded nothing new keeps the lock file: a commit writes nothing and
      a rollback writes back what is there, resetting git at most to it. */
  lemma ConcludeUnchanged(t: Tree, lockFile: Path, e: Effect)
    requires IsFileAt(t, lockFile) && e.pair == PairVal(Loaded(t, lockFile), "")
    ensures var r := Conclude(t, lockFile, e);
      && r.tree == t && r.host == e.host
      && (r.err.None? <==> e.err.None?)
      && (r.err.None? ==> r.git == e.git)
      && (r.git == e.git || r.git == Apply(e.git, ResetHard(Loaded(t, lockFile))))
  {
    PersistSame(t, lockFile, "rollback");
  }


  /** With --update on an existing repository and lock, a run whose git
      calls and install script all succeed leaves the lock file holding the
      (non-empty) hash the repository ended at. */
  lemma UpdateMovesLock(t: Tree, s: State, h: Host.HostState, c: InstallConfig)
    requires Prepare(t, h, c).2.None?
    requires c.fact.rExist == REexist && c.fact.lExist == LEexist && c.fact.uSpec == USforce
    ensures var r := InstallRun(t, s, h, c);
      r.err.None? ==> r.git.head.Some? && (r.git.head.value != "" ==> Loaded(r.tree, c.lockFile) == r.git.head.value)
  {
    var pre := Prepare(t, h, c);
    UpdateStage(pre.0, pre.1, s, c);
  }

  /** The strategy stage and the commit of an update run. */
  lemma UpdateStage(t: Tree, h: Host.HostState, s: State, c: InstallConfig)
    requires IsFileAt(t, c.lockFile)
    requires c.fact.rExist == REexist && c.fact.lExist == LEexist && c.fact.uSpec == USforce
    ensures var r := Conclude(t, c.lockFile, StrategyStage(t, h, s, c));
      r.err.None? ==> r.git.head.Some? && (r.git.head.value != "" ==> Loaded(r.tree, c.lockFile) == r.git.head.value)
  {
    var p := PairVal(Loaded(t, c.lockFile), "");
    assert Runner(SelectStrategy(c.fact)) == UpdateToLatestWithLockRunner;
    SuccessRecordsHead(UpdateToLatestWithLockRunner, c.repo, c.branch, p, s);
    OnlyNoopRunnerSkips(UpdateToLatestWithLockRunner, c.repo, c.branch, p, s);
    var e := StrategyStage(t, h, s, c);
    if e.err.None? {
      CommitEffect(t, c.lockFile, e);
    }
  }

  /** `strategyRunner`: like `runner.Strategy`, with scripts built by
      stringsToExecutor. */
  class StrategyRunner {
    const config: Config
    const skip: seq<string>
    const install: seq<string>
    const workDir: Path
    const env: map<string, string>
    const runner: RunnerKind

    constructor (config: Config, skip: seq<string>, install: seq<string>, workDir: Path,
                 env: map<string, string>, runner: RunnerKind)
      ensures this.config == config && this.skip == skip && this.install == install
      ensures this.workDir == workDir && this.env == env && this.runner == runner
    {
      this.config := config;
      this.skip := skip;
      this.install := install;
      this.workDir := workDir;
      this.env := env;
      this.runner := runner;
    }

    /** `strategyRunner.run`. */
    method Run(host: Host.Host) returns (err: Option<Error>)
      modifies config.pair, config.git, host
      ensures Effect(err, config.pair.Value(), config.git.Snapshot(), host.State())
        == StrategyRun(runner, config.repo, config.branch, StringsToExecutor(skip), StringsToExecutor(install),
                       workDir, env, old(config.pair.Value()), old(config.git.Snapshot()), old(host.State()))
    {
      var e := RunRunner(runner, config);
      if e.Some? && !Is(e.value, NoopStrategy) {
        return Some(Wrapped("run strategy", e.value));
      }
      if e.Some? {
        var x := host.Run(StringsToExecutor(skip), workDir, env);
        if x.Some? {
          return Some(Wrapped("run skip", x.value));
        }
        return None;
      }
      var x := host.Run(StringsToExecutor(install), workDir, env);
      if x.Some? {
        return Some(Wrapped("run install", x.value));
      }
      return None;
    }
  }

  /** `installRunner.Run` on a file system, a git client and a host. */
  method Install(fs: FileSystem, git: Client, host: Host.Host, c: InstallConfig) returns (err: Option<Error>)
    requires fs.Valid()
    modifies fs, git, host
    ensures fs.Valid()
    ensures InstallResult(err, fs.tree, git.Snapshot(), host.State())
      == InstallRun(old(fs.tree), old(git.Snapshot()), old(host.State()), c)
  {
    var e := fs.EnsureDir(c.workDir);
    if e.Some? {
      return Some(Wrapped("ensure workDir", e.value));
    }
    e := fs.EnsureDir(DirOf(c.gitWorkDir));
    if e.Some? {
      return Some(Wrapped("ensure git workDir", e.value));
    }
    e := host.Run(StringsToExecutor(c.setup), c.workDir, c.env);
    if e.Some? {
      return Some(Wrapped("setup", e.value));
    }
    e := fs.EnsureFile(c.lockFile);
    if e.Some? {
      return Some(Wrapped("ensure lockfile", e.value));
    }
    var locker := new FileKeeper(fs, c.lockFile);
    var keeper := new GitKeeper(locker, git);
    var runner := new StrategyRunner(Config(c.repo, c.branch, keeper.locker.Pair(), git), c.skip, c.install,
                                     c.gitWorkDir, c.env, Runner(SelectStrategy(c.fact)));
    e := runner.Run(host);
    if e.Some? {
      var _ := keeper.Rollback();
      return e;
    }
    var ce := keeper.Commit();
    return WrapCommit(ce);
  }

  // ---------------------------------------------------------------------
  // Uninstallation.

  /** What `uninstallRunner` is built from. The runner is the one the
      uninstall fact selects; that fact's update spec comes from
      inspect.UpdateSpec.Get, which is not part of this model, so the fact
      is given as it is. */
  datatype UninstallConfig = UninstallConfig(
    repo: string,
    branch: string,
    uninstall: seq<string>,
    shell: seq<string>,
    gitWorkDir: Path,
    lockFile: Path,
    env: map<string, string>,
    fact: Fact,
    purge: bool)

  /** `uninstallRunner.run` on values: the uninstall step with a keeper read
      from the lock file, then, for --purge and only after success, the
      keeper's Clear. Clear is not part of this model: clearErr is its
      outcome, and the second component says whether it was called. */
  function UninstallCommandRun(t: Tree, s: State, h: Host.HostState, u: UninstallConfig, clearErr: Option<Error>)
    : (r: (Effect, bool))
    ensures var e := UninstallRun(IsDirAt(t, u.gitWorkDir), Host.FromStrings(u.uninstall, u.shell), Runner(SelectStrategy(u.fact)),
                                  u.repo, u.branch, u.gitWorkDir, u.env, PairVal(Loaded(t, u.lockFile), ""), s, h);
      && (r.1 <==> u.purge && e.err.None?)
      && r.0.pair == e.pair && r.0.git == e.git && r.0.host == e.host
      && (!r.1 ==> r.0.err == e.err)
      && (r.1 ==> (r.0.err.None? <==> clearErr.None?))
  {
    var e := UninstallRun(IsDirAt(t, u.gitWorkDir), Host.FromStrings(u.uninstall, u.shell), Runner(SelectStrategy(u.fact)),
                          u.repo, u.branch, u.gitWorkDir, u.env, PairVal(Loaded(t, u.lockFile), ""), s, h);
    if e.err.Some? then (e, false)
    else if u.purge then (e.(err := if clearErr.Some? then Some(Wrapped("clear", clearErr.value)) else None), true)
    else (e, false)
  }

  /** `uninstallRunner.run` on a file system, a git client and a host. */
  method UninstallRunner(fs: FileSystem, git: Client, host: Host.Host, u: UninstallConfig, clearErr: Option<Error>)
    returns (err: Option<Error>, cleared: bool)
    modifies git, host
    ensures var r := UninstallCommandRun(old(fs.tree), old(git.Snapshot()), old(host.State()), u, clearErr);
      err == r.0.err && git.Snapshot() == r.0.git && host.State() == r.0.host && cleared == r.1
  {
    var locker := new FileKeeper(fs, u.lockFile);
    var keeper := new GitKeeper(locker, git);
    var step := new UninstallStep(Runner(SelectStrategy(u.fact)), Config(u.repo, u.branch, keeper.locker.Pair(), git), u.uninstall,
                                  u.gitWorkDir, u.env, u.shell);
    err := step.Run(fs, host);
    if err.Some? {
      return err, false;
    }
    if u.purge {
      if clearErr.Some? {
        return Some(Wrapped("clear", clearErr.value)), true;
      }
      return None, true;
    }
    return None, false;
  }

  /** `uninstall` from the inspection on: the fact comes from inspecting
      the repository and the lock file, with the update spec us (the result
      of inspect.UpdateSpec.Get, which is not part of this model). A dry
      run stops after inspecting, before any keeper or runner exists, so no
      script runs and only hash queries reach git; otherwise the uninstall
      runner runs on the fact and the repository the inspection left. */
  method Uninstall(fs: FileSystem, git: Client, host: Host.Host, u: UninstallConfig, us: UpdateSpec, dry: bool,
                   clearErr: Option<Error>)
    returns (err: Option<Error>, cleared: bool)
    modifies git, host
    ensures var (fact, s) := Inspect.Inspection(fs.tree, old(git.Snapshot()), u.lockFile, us);
      && (dry ==> err.None? && !cleared && host.State() == old(host.State()) && git.Snapshot() == s)
      && (!dry ==>
            var r := UninstallCommandRun(fs.tree, s, old(host.State()), u.(fact := fact), clearErr);
            err == r.0.err && cleared == r.1 && git.Snapshot() == r.0.git && host.State() == r.0.host)
    ensures dry ==>
      && git.Snapshot().head == old(git.Snapshot()).head && git.Snapshot().cloned == old(git.Snapshot()).cloned
      && forall i :: |old(git.Snapshot()).trace| <= i < |git.Snapshot().trace| ==> git.Snapshot().trace[i].GetCommitHash?
  {
    var re := Inspect.RepoExistence(git);
    var le := Inspect.LockExistence(fs, u.lockFile);
    var rs := Inspect.RepoStatus(fs, git, u.lockFile);
    var fact := Fact(re, le, rs, us);
    if dry {
      return None, false;
    }
    err, cleared := UninstallRunner(fs, git, host, u.(fact := fact), clearErr);
  }
}
