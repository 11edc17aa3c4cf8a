/** script.SerialRunner: executors run one after another in list order
    with the same directory and environment, stopping at the first
    failure, whose error names the failing index. */
module Script {
  import opened Errors
  import opened FsTree
  import opened Host

  predicate IsDigits(s: string)
  {
    |s| >= 1 && forall i :: 0 <= i < |s| ==> '0' <= s[i] <= '9'
  }

  function Digit(n: nat): (c: char)
    requires n < 10
    ensures '0' <= c <= '9'
  {
    "0123456789"[n]
  }

  /** The decimal digits of n (fmt's %d). */
  function NatToString(n: nat): (s: string)
    ensures IsDigits(s)
  {
    if n < 10 then [Digit(n)] else NatToString(n / 10) + [Digit(n % 10)]
  }

  /** The context errorx.Errorf puts around the error of executor i. */
  function IndexContext(i: nat): string
  {
    "serial runner index " + NatToString(i)
  }

  /** The outcome of running exes, the first of which sits at index i of
      the runner's list. */
  function Serial(h: HostState, exes: seq<Executor>, dir: Path, env: map<string, string>, i: nat): (r: (HostState, Option<Error>))
    decreases |exes|
  {
    if exes == [] then (h, None)
    else
      var step := Execute(h, exes[0], dir, env);
      if step.1.Some? then (step.0, Some(Wrapped(IndexContext(i), step.1.value)))
      else Serial(step.0, exes[1..], dir, env, i + 1)
  }

  /** The executions a run records, in list order. */
  function Execs(exes: seq<Executor>, dir: Path, env: map<string, string>): (r: seq<Exec>)
    ensures |r| == |exes|
    ensures forall j :: 0 <= j < |exes| ==> r[j] == Exec(exes[j], dir, env)
  {
    seq(|exes|, j requires 0 <= j < |exes| => Exec(exes[j], dir, env))
  }

  /** The first k executors of exes ran, in order and all with the same
      directory and environment, and r is what such a run leaves: success
      exactly when the whole list ran with every executor succeeding, and
      otherwise the error of the k-th one, wrapped with its index. */
  ghost predicate RanPrefix(h: HostState, exes: seq<Executor>, dir: Path, env: map<string, string>, i: nat,
                            r: (HostState, Option<Error>), k: nat)
  {
    && k <= |exes|
    && r.0 == h.(ran := h.ran + Execs(exes[..k], dir, env))
    && (forall j :: 0 <= j < k - 1 || (0 <= j < k && r.1.None?) ==>
          Succeeds(HostState(h.ran + Execs(exes[..j], dir, env), h.fails), exes[j]))
    && (r.1.None? ==> k == |exes|)
    && (r.1.Some? ==>
          && k > 0
          && !Succeeds(HostState(h.ran + Execs(exes[..k - 1], dir, env), h.fails), exes[k - 1])
          && r.1.value == Wrapped(IndexContext(i + k - 1), Failure(exes[k - 1])))
  }

  /** Every serial run executes a prefix of the list as RanPrefix says. */
  lemma {:induction false} SerialRuns(h: HostState, exes: seq<Executor>, dir: Path, env: map<string, string>, i: nat)
    ensures exists k :: RanPrefix(h, exes, dir, env, i, Serial(h, exes, dir, env, i), k)
    decreases |exes|
  {
    var r := Serial(h, exes, dir, env, i);
    if exes == [] {
      assert RanPrefix(h, exes, dir, env, i, r, 0) by {
        assert h.ran + Execs(exes[..0], dir, env) == h.ran;
      }
    } else {
      var h1 := Execute(h, exes[0], dir, env).0;
      assert exes[..1] == [exes[0]];
      assert h.ran + Execs(exes[..0], dir, env) == h.ran;
      if Execute(h, exes[0], dir, env).1.Some? {
        assert RanPrefix(h, exes, dir, env, i, r, 1);
      } else {
        SerialRuns(h1, exes[1..], dir, env, i + 1);
        var k: nat :| RanPrefix(h1, exes[1..], dir, env, i + 1, Serial(h1, exes[1..], dir, env, i + 1), k);
        RanPrefixStep(h, exes, dir, env, i, Serial(h1, exes[1..], dir, env, i + 1), k);
      }
    }
  }

  /** The executions of a prefix after the first executor. */
  lemma ExecsCons(exes: seq<Executor>, dir: Path, env: map<string, string>, j: nat)
    requires j < |exes|
    ensures Execs(exes[..j + 1], dir, env) == [Exec(exes[0], dir, env)] + Execs(exes[1..][..j], dir, env)
  {
  }

  /** The host seen by executor j + 1 of exes is the host seen by
      executor j of the rest after the first one ran. */
  lemma HostBefore(h: HostState, exes: seq<Executor>, dir: Path, env: map<string, string>, j: nat)
    requires j < |exes|
    ensures Execute(h, exes[0], dir, env).0.ran + Execs(exes[1..][..j], dir, env)
      == h.ran + Execs(exes[..j + 1], dir, env)
  {
    ExecsCons(exes, dir, env, j);
    var x := [Exec(exes[0], dir, env)];
    var e := Execs(exes[1..][..j], dir, env);
    assert (h.ran + x) + e == h.ran + (x + e);
  }

  /** A successful first executor extends the prefix the rest ran by one. */
  lemma RanPrefixStep(h: HostState, exes: seq<Executor>, dir: Path, env: map<string, string>, i: nat,
                      r: (HostState, Option<Error>), k: nat)
    requires exes != [] && Succeeds(h, exes[0])
    requires RanPrefix(Execute(h, exes[0], dir, env).0, exes[1..], dir, env, i + 1, r, k)
    ensures RanPrefix(h, exes, dir, env, i, r, k + 1)
  {
    var h1 := Execute(h, exes[0], dir, env).0;
    assert h1.fails == h.fails;
    assert r.0 == h.(ran := h.ran + Execs(exes[..k + 1], dir, env)) by {
      HostBefore(h, exes, dir, env, k);
    }
    forall j | 0 <= j < k || (0 <= j < k + 1 && r.1.None?)
      ensures Succeeds(HostState(h.ran + Execs(exes[..j], dir, env), h.fails), exes[j])
    {
      if j == 0 {
        assert h.ran + Execs(exes[..0], dir, env) == h.ran;
      } else {
        HostBefore(h, exes, dir, env, j - 1);
        assert exes[j] == exes[1..][j - 1];
      }
    }
    if r.1.Some? {
      HostBefore(h, exes, dir, env, k - 1);
      assert exes[k] == exes[1..][k - 1];
    }
  }

  class SerialRunner {
    const executors: seq<Executor>

    constructor (executors: seq<Executor>)
      ensures this.executors == executors
    {
      this.executors := executors;
    }

    /** SerialRunner.Run: the directory defaults to the working directory
        pwd and the environment to an empty one. */
    method Run(host: Host, dir: Option<Path>, env: Option<map<string, string>>, pwd: Path)
      returns (err: Option<Error>)
      modifies host
      ensures (host.State(), err) ==
        Serial(old(host.State()), executors,
               if dir.Some? then dir.value else pwd, if env.Some? then env.value else map[], 0)
    {
      var d := if dir.Some? then dir.value else pwd;
      var e := if env.Some? then env.value else map[];
      var i := 0;
      while i < |executors|
        invariant 0 <= i <= |executors|
        invariant Serial(old(host.State()), executors, d, e, 0) == Serial(host.State(), executors[i..], d, e, i)
        decreases |executors| - i
      {
        var x := host.Run(executors[i], d, e);
        if x.Some? {
          return Some(Wrapped(IndexContext(i), x.value));
        }
        i := i + 1;
      }
      return None;
    }
  }
}
