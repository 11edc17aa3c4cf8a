/** The orchestration steps of runner/strategy.go, runner/rollback.go and
    runner/uninstall.go: which lifecycle script runs after a strategy
    runner, and what a rollback touches. Each step is a function of the
    states before it (pair, repository, host) and a method that performs
    it on the objects. */
module Orchestration {
  import opened Errors
  import opened FsTree
  import opened Fs
  import opened Git
  import opened Strategy
  import opened Lock
  import opened GitLock
  import opened Runners
  import Host

  /** What a step leaves behind: its error and the new pair, repository
      and host. */
  datatype Effect = Effect(err: Option<Error>, pair: PairVal, git: State, host: Host.HostState)

  /** `Strategy.Run` (and `strategyRunner.run` of cmd/run.go, which differs
      only in how it builds its executors): run the strategy runner; the
      no-op strategy runs the skip script, success runs the install
      script, any other error is returned wrapped. */
  function StrategyRun(kind: RunnerKind, repo: string, branch: string, skip: Host.Executor, install: Host.Executor,
                       dir: Path, env: map<string, string>, p: PairVal, s: State, h: Host.HostState): (r: Effect)
    ensures var o := Runners.Run(kind, repo, branch, p, s);
      && r.pair == o.pair && r.git == o.git
      && r.host.fails == h.fails
      && (r.err.None? <==>
            || (o.err.None? && Host.Succeeds(h, install))
            || (o.err.Some? && Is(o.err.value, NoopStrategy) && Host.Succeeds(h, skip)))
  {
    var o := Runners.Run(kind, repo, branch, p, s);
    if o.err.Some? && !Is(o.err.value, NoopStrategy) then
      Effect(Some(Wrapped("run strategy", o.err.value)), o.pair, o.git, h)
    else if o.err.Some? then
      var x := Host.Execute(h, skip, dir, env);
      Effect(if x.1.Some? then Some(Wrapped("run skip", x.1.value)) else None, o.pair, o.git, x.0)
    else
      var x := Host.Execute(h, install, dir, env);
      Effect(if x.1.Some? then Some(Wrapped("run install", x.1.value)) else None, o.pair, o.git, x.0)
  }

  /** At most one of the two scripts runs: install exactly when the runner
      succeeded, skip exactly when it reported the no-op strategy, neither
      otherwise, and then the runner's error is what is returned. */
  lemma {:induction false} OneScriptAtMost(kind: RunnerKind, repo: string, branch: string, skip: Host.Executor,
                                           install: Host.Executor, dir: Path, env: map<string, string>,
                                           p: PairVal, s: State, h: Host.HostState)
    ensures var o := Runners.Run(kind, repo, branch, p, s);
      var r := StrategyRun(kind, repo, branch, skip, install, dir, env, p, s, h);
      && (o.err.None? ==> r.host.ran == h.ran + [Host.Exec(install, dir, env)])
      && (o.err.Some? && Root(o.err.value) == NoopStrategy ==> r.host.ran == h.ran + [Host.Exec(skip, dir, env)])
      && (o.err.Some? && Root(o.err.value) != NoopStrategy ==>
            r.host == h && r.err.Some? && r.err.value.context == "run strategy" && Root(r.err.value) == Root(o.err.value))
  {
    var o := Runners.Run(kind, repo, branch, p, s);
    if o.err.Some? {
      IsSentinel(o.err.value, NoopStrategy);
    }
  }

  /** The no-op strategy touches neither pair nor repository, runs only the
      skip script, and succeeds exactly when that script does. */
  lemma NoopRunsSkip(repo: string, branch: string, skip: Host.Executor, install: Host.Executor,
                     dir: Path, env: map<string, string>, p: PairVal, s: State, h: Host.HostState)
    ensures var r := StrategyRun(NoopRunner, repo, branch, skip, install, dir, env, p, s, h);
      && r.pair == p && r.git == s
      && r.host.ran == h.ran + [Host.Exec(skip, dir, env)]
      && (r.err.None? <==> Host.Succeeds(h, skip))
  {
  }

  /** The unknown strategy runs no script and reports itself, wrapped. */
  lemma UnknownRunsNothing(repo: string, branch: string, skip: Host.Executor, install: Host.Executor,
                           dir: Path, env: map<string, string>, p: PairVal, s: State, h: Host.HostState)
    ensures StrategyRun(UnknownRunner, repo, branch, skip, install, dir, env, p, s, h)
      == Effect(Some(Wrapped("run strategy", UnknownStrategy)), p, s, h)
  {
  }

  /** `runner.Strategy`. */
  class StrategyStep {
    const runner: RunnerKind
    const config: Config
    const skip: seq<string>
    const install: seq<string>
    const shell: seq<string>
    const localRepoDir: Path
    const env: map<string, string>

    /** `NewStrategy`. */
    constructor (runner: RunnerKind, config: Config, skip: seq<string>, install: seq<string>,
                 localRepoDir: Path, env: map<string, string>, shell: seq<string>)
      ensures this.runner == runner && this.config == config && this.skip == skip && this.install == install
      ensures this.localRepoDir == localRepoDir && this.env == env && this.shell == shell
    {
      this.runner := runner;
      this.config := config;
      this.skip := skip;
      this.install := install;
      this.localRepoDir := localRepoDir;
      this.env := env;
      this.shell := shell;
    }

    /** `Strategy.Run`: the scripts are built by NewExecutorFromStrings. */
    method Run(host: Host.Host) returns (err: Option<Error>)
      modifies config.pair, config.git, host
      ensures Effect(err, config.pair.Value(), config.git.Snapshot(), host.State())
        == StrategyRun(runner, config.repo, config.branch, Host.FromStrings(skip, shell), Host.FromStrings(install, shell),
                       localRepoDir, env, old(config.pair.Value()), old(config.git.Snapshot()), old(host.State()))
    {
      var e := RunRunner(runner, config);
      if e.Some? && !Is(e.value, NoopStrategy) {
        return Some(Wrapped("run strategy", e.value));
      }
      if e.Some? {
        var x := host.Run(Host.FromStrings(skip, shell), localRepoDir, env);
        if x.Some? {
          return Some(Wrapped("run skip", x.value));
        }
        return None;
      }
      var x := host.Run(Host.FromStrings(install, shell), localRepoDir, env);
      if x.Some? {
        return Some(Wrapped("run install", x.value));
      }
      return None;
    }
  }

  /** `Rollback.Run` on values: without noupdate the git keeper rolls back
      first; the rollback script runs in every case; nothing is reported. */
  function RollbackRun(noupdate: bool, script: Host.Executor, dir: Path, env: map<string, string>,
                       t: Tree, lockFile: Path, current: string, s: State, h: Host.HostState): (r: (Tree, State, Host.HostState))
    ensures r.2 == Host.Execute(h, script, dir, env).0
    ensures noupdate ==> r.0 == t && r.1 == s
  {
    var x := Host.Execute(h, script, dir, env);
    if noupdate then (t, s, x.0)
    else
      var k := RollbackOf(t, lockFile, current, s);
      (k.0, k.1, x.0)
  }

  /** A full rollback whose steps all succeed leaves the recorded hash in
      the lock file and at HEAD, and still runs the script; a rollback
      whose lock write fails leaves the repository alone and still runs the
      script. */
  lemma RollbackRunEffect(script: Host.Executor, dir: Path, env: map<string, string>,
                          t: Tree, lockFile: Path, current: string, s: State, h: Host.HostState)
    ensures var r := RollbackRun(false, script, dir, env, t, lockFile, current, s, h);
      && r.2.ran == h.ran + [Host.Exec(script, dir, env)]
      && (current != "" && CanCreate(t, lockFile) && Succeeds(s, ResetHard(current)) ==>
            Loaded(r.0, lockFile) == current && r.1.head == Some(current))
      && (current != "" && !CanCreate(t, lockFile) ==> r.0 == t && r.1 == s)
      && (current == "" ==> r.0 == t && r.1 == s)
  {
    RollbackEffect(t, lockFile, current, s);
  }

  /** `runner.Rollback`. */
  class RollbackStep {
    const keeper: GitKeeper
    const noupdate: bool
    const rollback: seq<string>
    const shell: seq<string>
    const localRepoDir: Path
    const env: map<string, string>

    /** `NewRollback`. */
    constructor (keeper: GitKeeper, noupdate: bool, rollback: seq<string>, localRepoDir: Path,
                 env: map<string, string>, shell: seq<string>)
      ensures this.keeper == keeper && this.noupdate == noupdate && this.rollback == rollback
      ensures this.localRepoDir == localRepoDir && this.env == env && this.shell == shell
    {
      this.keeper := keeper;
      this.noupdate := noupdate;
      this.rollback := rollback;
      this.localRepoDir := localRepoDir;
      this.env := env;
      this.shell := shell;
    }

    /** `Rollback.Run`: failures are only logged, so nothing is returned. */
    method Run(host: Host.Host)
      requires keeper.locker.fs.Valid()
      modifies keeper.locker.fs, keeper.git, host
      ensures keeper.locker.fs.Valid()
      ensures (keeper.locker.fs.tree, keeper.git.Snapshot(), host.State())
        == RollbackRun(noupdate, Host.FromStrings(rollback, shell), localRepoDir, env,
                       old(keeper.locker.fs.tree), keeper.locker.path, keeper.locker.pair.current,
                       old(keeper.git.Snapshot()), old(host.State()))
    {
      if !noupdate {
        var _ := keeper.Rollback();
      }
      var _ := host.Run(Host.FromStrings(rollback, shell), localRepoDir, env);
    }
  }

  /** `Uninstall.Run` on values: the uninstall script runs first when the
      local repository directory exists, and its failure stops the step;
      then the strategy runner, whose no-op error counts as success. */
  function UninstallRun(repoExists: bool, script: Host.Executor, kind: RunnerKind, repo: string, branch: string,
                        dir: Path, env: map<string, string>, p: PairVal, s: State, h: Host.HostState): (r: Effect)
  {
    var x := if repoExists then Host.Execute(h, script, dir, env) else (h, None);
    if x.1.Some? then Effect(Some(Wrapped("run uninstall", x.1.value)), p, s, x.0)
    else
      var o := Runners.Run(kind, repo, branch, p, s);
      var err := if o.err.Some? && !Is(o.err.value, NoopStrategy) then Some(Wrapped("run strategy", o.err.value)) else None;
      Effect(err, o.pair, o.git, x.0)
  }

  /** What uninstalling promises: the script runs only for an existing
      repository directory; its failure means the runner never ran; when it
      did not fail the runner's outcome decides, its no-op error being
      success and any other error coming back wrapped. */
  lemma {:induction false} UninstallOrder(repoExists: bool, script: Host.Executor, kind: RunnerKind, repo: string,
                                          branch: string, dir: Path, env: map<string, string>,
                                          p: PairVal, s: State, h: Host.HostState)
    ensures var r := UninstallRun(repoExists, script, kind, repo, branch, dir, env, p, s, h);
      var o := Runners.Run(kind, repo, branch, p, s);
      && r.host.ran == (if repoExists then h.ran + [Host.Exec(script, dir, env)] else h.ran)
      && (repoExists && !Host.Succeeds(h, script) ==>
            r.pair == p && r.git == s && r.err == Some(Wrapped("run uninstall", Host.Failure(script))))
      && (!repoExists || Host.Succeeds(h, script) ==>
            && r.pair == o.pair && r.git == o.git
            && (r.err.None? <==> o.err.None? || Root(o.err.value) == NoopStrategy)
            && (r.err.Some? ==> r.err == Some(Wrapped("run strategy", o.err.value))))
  {
    var o := Runners.Run(kind, repo, branch, p, s);
    if o.err.Some? {
      IsSentinel(o.err.value, NoopStrategy);
    }
  }

  /** `runner.Uninstall` with its `runner.Argument`. */
  class UninstallStep {
    const runner: RunnerKind
    const config: Config
    const uninstall: seq<string>
    const shell: seq<string>
    const localRepoDir: Path
    const env: map<string, string>

    /** `NewUninstall`. */
    constructor (runner: RunnerKind, config: Config, uninstall: seq<string>, localRepoDir: Path,
                 env: map<string, string>, shell: seq<string>)
      ensures this.runner == runner && this.config == config && this.uninstall == uninstall
      ensures this.localRepoDir == localRepoDir && this.env == env && this.shell == shell
    {
      this.runner := runner;
      this.config := config;
      this.uninstall := uninstall;
      this.localRepoDir := localRepoDir;
      this.env := env;
      this.shell := shell;
    }

    /** `Uninstall.Run`. */
    method Run(fs: FileSystem, host: Host.Host) returns (err: Option<Error>)
      modifies config.pair, config.git, host
      ensures Effect(err, config.pair.Value(), config.git.Snapshot(), host.State())
        == UninstallRun(fs.DirExist(localRepoDir), Host.FromStrings(uninstall, shell), runner, config.repo, config.branch,
                        localRepoDir, env, old(config.pair.Value()), old(config.git.Snapshot()), old(host.State()))
    {
      if fs.DirExist(localRepoDir) {
        var x := host.Run(Host.FromStrings(uninstall, shell), localRepoDir, env);
        if x.Some? {
          return Some(Wrapped("run uninstall", x.value));
        }
      }
      var e := RunRunner(runner, config);
      if e.Some? && !Is(e.value, NoopStrategy) {
        return Some(Wrapped("run strategy", e.value));
      }
      return None;
    }
  }
}
