/** The process boundary: executors (a no-op, a raw shell script, or the
    commands built from configuration lines) run on a host whose outcome is
    an oracle. Process spawning, output draining and cancellation are not
    modelled; only which executor ran, in which directory, with which
    environment, and whether it succeeded. */
module Host {
  import opened Errors
  import opened FsTree

  /** execx.NoopExecutor, execx.RawScript, and the executor that
      execx.NewExecutorFromStrings builds from configuration lines with a
      shell (that constructor is not part of this model, so only its
      arguments are kept). */
  datatype Executor =
    | NoopExecutor
    | RawScript(content: string)
    | FromStrings(lines: seq<string>, shell: seq<string>)

  /** One execution: the executor with the directory and environment it
      was given. */
  datatype Exec = Exec(exe: Executor, dir: Path, env: map<string, string>)

  /** Every execution so far, and the oracle: the execution at position i
      fails when i is in fails. */
  datatype HostState = HostState(ran: seq<Exec>, fails: set<nat>)

  /** A no-op never fails; anything else fails as the oracle says. */
  predicate Succeeds(h: HostState, exe: Executor)
  {
    exe.NoopExecutor? || |h.ran| !in h.fails
  }

  /** The error a failed execution reports. */
  function Failure(exe: Executor): Error
  {
    match exe
    case NoopExecutor => ScriptFailed("")
    case RawScript(content) => ScriptFailed(content)
    case FromStrings(_, _) => ScriptFailed("steps")
  }

  /** The host after one execution, and its error. */
  function Execute(h: HostState, exe: Executor, dir: Path, env: map<string, string>): (r: (HostState, Option<Error>))
    ensures r.0.ran == h.ran + [Exec(exe, dir, env)] && r.0.fails == h.fails
    ensures r.1.None? <==> Succeeds(h, exe)
  {
    (h.(ran := h.ran + [Exec(exe, dir, env)]), if Succeeds(h, exe) then None else Some(Failure(exe)))
  }

  class Host {
    var ran: seq<Exec>
    const fails: set<nat>

    function State(): HostState
      reads this
    {
      HostState(ran, fails)
    }

    constructor (fails: set<nat>)
      ensures State() == HostState([], fails)
    {
      this.ran := [];
      this.fails := fails;
    }

    /** Executor.Execute with a directory and an environment. */
    method Run(exe: Executor, dir: Path, env: map<string, string>) returns (err: Option<Error>)
      modifies this
      ensures (State(), err) == Execute(old(State()), exe, dir, env)
    {
      err := if Succeeds(State(), exe) then None else Some(Failure(exe));
      ran := ran + [Exec(exe, dir, env)];
    }
  }
}
