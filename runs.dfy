/** The strategy runners of strategy/run.go. Each runner is a fixed
    sequence of git calls that stops at the first error and writes the lock
    pair through the shared reference. The pure functions give the outcome
    of a run from the pair and repository state before it; the methods issue
    the calls on a client and are proved to produce that outcome. */
module Runners {
  import opened Errors
  import opened Git
  import opened Lock
  import opened Strategy

  /** `strategy.RunnerConfig`: the pair is the only part a runner writes. */
  datatype Config = Config(repo: string, branch: string, pair: Pair, git: Client)

  /** What a run leaves behind: its error, the pair and the repository. */
  datatype Outcome = Outcome(err: Option<Error>, pair: PairVal, git: State)

  /** Clone, then bring the checkout to the remote branch tip and read it. */
  function ClonePlan(repo: string, branch: string): seq<Call>
  {
    [Clone(repo), PullForce(branch), Checkout(branch), GetCommitHash]
  }

  /** Fetch, then bring an existing checkout to the remote tip and read it. */
  function SyncPlan(branch: string): seq<Call>
  {
    [Fetch, PullForce(branch), Checkout(branch), GetCommitHash]
  }

  /** Finishes a run whose last call read the hash: only a run in which
      every call succeeded records that hash as Next. */
  function RecordNext(r: (State, Option<Error>), p: PairVal): (o: Outcome)
    requires r.1.None? ==> r.0.head.Some?
  {
    if r.1.Some? then Outcome(r.1, p, r.0) else Outcome(None, p.(next := r.0.head.value), r.0)
  }

  /** The best-effort `Checkout(branch)` whose error is discarded. */
  function TryCheckout(s: State, branch: string): State
  {
    Apply(s, Checkout(branch))
  }

  /** InitFromEmptyRunner and InitFromEmptyToLatestRunner run this same plan. */
  function InitFromEmpty(repo: string, branch: string, p: PairVal, s: State): Outcome
  {
    RecordNext(RunCalls(s, ClonePlan(repo, branch)), p)
  }

  function InitFromEmptyToLock(repo: string, branch: string, p: PairVal, s: State): Outcome
  {
    if p.current == "" then Outcome(Some(NoLock), p, s)
    else
      var r := RunCalls(s, [Clone(repo), PullForce(branch), Checkout(p.current)]);
      Outcome(r.1, p, r.0)
  }

  function CreateLock(branch: string, p: PairVal, s: State): Outcome
  {
    RecordNext(RunCalls(TryCheckout(s, branch), SyncPlan(branch)), p)
  }

  function CreateLatestLock(branch: string, p: PairVal, s: State): Outcome
  {
    var r0 := RunCalls(s, [GetCommitHash]);
    if r0.1.Some? then Outcome(r0.1, p, r0.0)
    else
      var p1 := p.(current := r0.0.head.value);
      RecordNext(RunCalls(TryCheckout(r0.0, branch), SyncPlan(branch)), p1)
  }

  function UpdateToLock(branch: string, p: PairVal, s: State): Outcome
  {
    if p.current == "" then Outcome(Some(NoLock), p, s)
    else
      var r := RunCalls(TryCheckout(s, branch), [Fetch, PullForce(branch), GetCommitHash]);
      if r.1.Some? then Outcome(r.1, p, r.0)
      else if r.0.head.value == p.current then Outcome(None, p, r.0)
      else
        var r2 := RunCalls(r.0, [Checkout(p.current)]);
        Outcome(r2.1, p, r2.0)
  }

  function UpdateToLatestWithLock(branch: string, p: PairVal, s: State): Outcome
  {
    if p.current == "" then Outcome(Some(NoLock), p, s)
    else RecordNext(RunCalls(TryCheckout(s, branch), SyncPlan(branch)), p)
  }

  /** Outcome of `Run` on the runner of the given kind. */
  function Run(kind: RunnerKind, repo: string, branch: string, p: PairVal, s: State): Outcome
  {
    match kind
    case InitFromEmptyRunner => InitFromEmpty(repo, branch, p, s)
    case InitFromEmptyToLockRunner => InitFromEmptyToLock(repo, branch, p, s)
    case InitFromEmptyToLatestRunner => InitFromEmpty(repo, branch, p, s)
    case CreateLockRunner => CreateLock(branch, p, s)
    case CreateLatestLockRunner => CreateLatestLock(branch, p, s)
    case UpdateToLockRunner => UpdateToLock(branch, p, s)
    case UpdateToLatestWithLockRunner => UpdateToLatestWithLock(branch, p, s)
    case NoopRunner => Outcome(Some(NoopStrategy), p, s)
    case RetryRunner => Outcome(None, p, s)
    case NoUpdateRunner => Outcome(None, p, s)
    case UnknownRunner => Outcome(Some(UnknownStrategy), p, s)
  }

  // ---------------------------------------------------------------------
  // The runners as methods on a client and a shared pair.

  method RunInitFromEmpty(c: Config) returns (err: Option<Error>)
    modifies c.pair, c.git
    ensures Outcome(err, c.pair.Value(), c.git.Snapshot())
      == InitFromEmpty(c.repo, c.branch, old(c.pair.Value()), old(c.git.Snapshot()))
  {
    ghost var plan := ClonePlan(c.repo, c.branch);
    RunCallsStep(c.git.Snapshot(), plan);
    err := c.git.Clone(c.repo);
    if err.Some? { return; }
    RunCallsStep(c.git.Snapshot(), plan[1..]);
    err := c.git.PullForce(c.branch);
    if err.Some? { return; }
    RunCallsStep(c.git.Snapshot(), plan[2..]);
    err := c.git.Checkout(c.branch);
    if err.Some? { return; }
    RunCallsStep(c.git.Snapshot(), plan[3..]);
    var next;
    next, err := c.git.GetCommitHash();
    assert RunCalls(c.git.Snapshot(), plan[4..]) == (c.git.Snapshot(), None);
    if err.Some? { return; }
    c.pair.next := next;
  }

  method RunInitFromEmptyToLock(c: Config) returns (err: Option<Error>)
    modifies c.pair, c.git
    ensures Outcome(err, c.pair.Value(), c.git.Snapshot())
      == InitFromEmptyToLock(c.repo, c.branch, old(c.pair.Value()), old(c.git.Snapshot()))
  {
    if c.pair.current == "" {
      return Some(NoLock);
    }
    ghost var plan := [Clone(c.repo), PullForce(c.branch), Checkout(c.pair.current)];
    RunCallsStep(c.git.Snapshot(), plan);
    err := c.git.Clone(c.repo);
    if err.Some? { return; }
    RunCallsStep(c.git.Snapshot(), plan[1..]);
    err := c.git.PullForce(c.branch);
    if err.Some? { return; }
    RunCallsStep(c.git.Snapshot(), plan[2..]);
    err := c.git.Checkout(c.pair.current);
    assert RunCalls(c.git.Snapshot(), plan[3..]) == (c.git.Snapshot(), None);
  }

  /** Issues the sync plan after the best-effort checkout and records the
      hash it reads as Next; shared by the three runners that end this way. */
  method SyncAndRecord(c: Config) returns (err: Option<Error>)
    modifies c.pair, c.git
    ensures Outcome(err, c.pair.Value(), c.git.Snapshot())
      == RecordNext(RunCalls(TryCheckout(old(c.git.Snapshot()), c.branch), SyncPlan(c.branch)), old(c.pair.Value()))
  {
    var ignored := c.git.Checkout(c.branch);
    ghost var plan := SyncPlan(c.branch);
    RunCallsStep(c.git.Snapshot(), plan);
    err := c.git.Fetch();
    if err.Some? { return; }
    RunCallsStep(c.git.Snapshot(), plan[1..]);
    err := c.git.PullForce(c.branch);
    if err.Some? { return; }
    RunCallsStep(c.git.Snapshot(), plan[2..]);
    err := c.git.Checkout(c.branch);
    if err.Some? { return; }
    RunCallsStep(c.git.Snapshot(), plan[3..]);
    var next;
    next, err := c.git.GetCommitHash();
    assert RunCalls(c.git.Snapshot(), plan[4..]) == (c.git.Snapshot(), None);
    if err.Some? { return; }
    c.pair.next := next;
  }

  method RunCreateLock(c: Config) returns (err: Option<Error>)
    modifies c.pair, c.git
    ensures Outcome(err, c.pair.Value(), c.git.Snapshot())
      == CreateLock(c.branch, old(c.pair.Value()), old(c.git.Snapshot()))
  {
    err := SyncAndRecord(c);
  }

  method RunCreateLatestLock(c: Config) returns (err: Option<Error>)
    modifies c.pair, c.git
    ensures Outcome(err, c.pair.Value(), c.git.Snapshot())
      == CreateLatestLock(c.branch, old(c.pair.Value()), old(c.git.Snapshot()))
  {
    RunCallsStep(c.git.Snapshot(), [GetCommitHash]);
    var current;
    current, err := c.git.GetCommitHash();
    assert RunCalls(c.git.Snapshot(), [GetCommitHash][1..]) == (c.git.Snapshot(), None);
    if err.Some? { return; }
    c.pair.current := current;
    err := SyncAndRecord(c);
  }

  method RunUpdateToLatestWithLock(c: Config) returns (err: Option<Error>)
    modifies c.pair, c.git
    ensures Outcome(err, c.pair.Value(), c.git.Snapshot())
      == UpdateToLatestWithLock(c.branch, old(c.pair.Value()), old(c.git.Snapshot()))
  {
    if c.pair.current == "" {
      return Some(NoLock);
    }
    err := SyncAndRecord(c);
  }

  method RunUpdateToLock(c: Config) returns (err: Option<Error>)
    modifies c.git
    ensures Outcome(err, c.pair.Value(), c.git.Snapshot())
      == UpdateToLock(c.branch, old(c.pair.Value()), old(c.git.Snapshot()))
  {
    var current := c.pair.current;
    if current == "" {
      return Some(NoLock);
    }
    var ignored := c.git.Checkout(c.branch);
    ghost var plan := [Fetch, PullForce(c.branch), GetCommitHash];
    RunCallsStep(c.git.Snapshot(), plan);
    err := c.git.Fetch();
    if err.Some? { return; }
    RunCallsStep(c.git.Snapshot(), plan[1..]);
    err := c.git.PullForce(c.branch);
    if err.Some? { return; }
    RunCallsStep(c.git.Snapshot(), plan[2..]);
    var repoCurrent;
    repoCurrent, err := c.git.GetCommitHash();
    assert RunCalls(c.git.Snapshot(), plan[3..]) == (c.git.Snapshot(), None);
    if err.Some? { return; }
    if current == repoCurrent {
      return None;
    }
    RunCallsStep(c.git.Snapshot(), [Checkout(current)]);
    err := c.git.Checkout(current);
    assert RunCalls(c.git.Snapshot(), [Checkout(current)][1..]) == (c.git.Snapshot(), None);
  }

  /** `Runner.Run` for the runner `Type.Runner` built from the config. */
  method RunRunner(kind: RunnerKind, c: Config) returns (err: Option<Error>)
    modifies c.pair, c.git
    ensures Outcome(err, c.pair.Value(), c.git.Snapshot())
      == Run(kind, c.repo, c.branch, old(c.pair.Value()), old(c.git.Snapshot()))
  {
    match kind
    case InitFromEmptyRunner => err := RunInitFromEmpty(c);
    case InitFromEmptyToLockRunner => err := RunInitFromEmptyToLock(c);
    case InitFromEmptyToLatestRunner => err := RunInitFromEmpty(c);
    case CreateLockRunner => err := RunCreateLock(c);
    case CreateLatestLockRunner => err := RunCreateLatestLock(c);
    case UpdateToLockRunner => err := RunUpdateToLock(c);
    case UpdateToLatestWithLockRunner => err := RunUpdateToLatestWithLock(c);
    case NoopRunner => err := Some(NoopStrategy);
    case RetryRunner => err := None;
    case NoUpdateRunner => err := None;
    case UnknownRunner => err := Some(UnknownStrategy);
  }

  // ---------------------------------------------------------------------
  // Properties of the runs.

  /** The runners that need a recorded commit fail with NoLock, issuing no
      git call and leaving the pair alone, when Current is empty. */
  lemma NoLockBeforeAnyCall(kind: RunnerKind, repo: string, branch: string, p: PairVal, s: State)
    requires kind == UpdateToLatestWithLockRunner || kind == UpdateToLockRunner || kind == InitFromEmptyToLockRunner
    requires p.current == ""
    ensures Run(kind, repo, branch, p, s) == Outcome(Some(NoLock), p, s)
  {
  }

  /** Next changes only in a run in which every call succeeded, and then it
      holds the hash read by the run's last call. No run but
      CreateLatestLock touches Current. */
  lemma NextOnlyOnSuccess(kind: RunnerKind, repo: string, branch: string, p: PairVal, s: State)
    ensures var o := Run(kind, repo, branch, p, s);
      && (o.err.Some? ==> o.pair.next == p.next)
      && (o.pair.next != p.next ==> o.err.None? && o.git.head == Some(o.pair.next))
      && (kind != CreateLatestLockRunner ==> o.pair.current == p.current)
  {
  }

  /** A successful run of a runner that ends by reading the hash records
      as Next exactly the commit HEAD is at. */
  lemma SuccessRecordsHead(kind: RunnerKind, repo: string, branch: string, p: PairVal, s: State)
    requires kind in {InitFromEmptyRunner, InitFromEmptyToLatestRunner, CreateLockRunner,
                      CreateLatestLockRunner, UpdateToLatestWithLockRunner}
    ensures var o := Run(kind, repo, branch, p, s);
      o.err.None? ==> o.git.head == Some(o.pair.next)
  {
  }

  /** Only the no-op runner reports the no-op strategy; every other error
      is a git failure or one of the other two sentinels. */
  lemma OnlyNoopRunnerSkips(kind: RunnerKind, repo: string, branch: string, p: PairVal, s: State)
    ensures var o := Run(kind, repo, branch, p, s);
      o.err.Some? ==>
        && (Is(o.err.value, NoopStrategy) <==> kind == NoopRunner)
        && (o.err.value.GitFailed? || o.err.value in {NoopStrategy, UnknownStrategy, NoLock})
  {
    var o := Run(kind, repo, branch, p, s);
    if o.err.Some? {
      IsSentinel(o.err.value, NoopStrategy);
    }
  }

  /** InitFromEmpty (and InitFromEmptyToLatest) issue Clone, PullForce,
      Checkout(branch) and GetCommitHash in this order, stopping after the
      first failure, and record the hash only when all four succeeded. */
  lemma {:induction false} InitFromEmptyOrder(repo: string, branch: string, p: PairVal, s: State)
    ensures var o := InitFromEmpty(repo, branch, p, s);
      exists k :: 0 <= k <= 4 && o.git.trace == s.trace + ClonePlan(repo, branch)[..k]
        && (o.err.None? ==> k == 4 && o.pair == p.(next := o.git.head.value))
        && (o.err.Some? ==> k > 0 && o.pair == p)
  {
    RunCallsTrace(s, ClonePlan(repo, branch));
  }

  /** CreateLock and UpdateToLatestWithLock issue the discarded
      Checkout(branch) and then Fetch, PullForce, Checkout(branch) and
      GetCommitHash, stopping after the first failure: a failing first
      checkout never stops the run. */
  lemma {:induction false} SyncOrder(kind: RunnerKind, branch: string, p: PairVal, s: State)
    requires kind == CreateLockRunner || (kind == UpdateToLatestWithLockRunner && p.current != "")
    ensures var o := Run(kind, "", branch, p, s);
      exists k :: 1 <= k <= 4 && o.git.trace == s.trace + [Checkout(branch)] + SyncPlan(branch)[..k]
        && (o.err.None? ==> k == 4)
  {
    RunCallsTrace(TryCheckout(s, branch), SyncPlan(branch));
  }

  /** CreateLatestLock reads the hash, then issues the discarded
      Checkout(branch), Fetch, PullForce, Checkout(branch) and GetCommitHash,
      stopping after the first failure. A failing first read stops the run
      with the pair untouched; after it, a failing first checkout never
      stops the run, and a full run records the first hash as Current and
      the last as Next. */
  lemma {:induction false} CreateLatestLockOrder(branch: string, p: PairVal, s: State)
    ensures var o := CreateLatestLock(branch, p, s);
      var plan := [GetCommitHash, Checkout(branch)] + SyncPlan(branch);
      exists k :: 1 <= k <= 6 && k != 2 && o.git.trace == s.trace + plan[..k]
        && (k == 1 <==> !Succeeds(s, GetCommitHash))
        && (k == 1 ==> o.pair == p)
        && (o.err.Some? ==> o.err == Some(GitFailed(Name(plan[k - 1]))))
        && (o.err.None? ==> k == 6 && o.pair == p.(current := s.head.value, next := o.git.head.value))
  {
    var o := CreateLatestLock(branch, p, s);
    var plan := [GetCommitHash, Checkout(branch)] + SyncPlan(branch);
    RunCallsStep(s, [GetCommitHash]);
    if !Succeeds(s, GetCommitHash) {
      assert o.git.trace == s.trace + plan[..1];
    } else {
      var s1 := Apply(s, GetCommitHash);
      var s2 := TryCheckout(s1, branch);
      RunCallsTrace(s2, SyncPlan(branch));
      var j :| 0 <= j <= 4 && RunCalls(s2, SyncPlan(branch)).0.trace == s2.trace + SyncPlan(branch)[..j]
        && (RunCalls(s2, SyncPlan(branch)).1.None? ==> j == 4)
        && (RunCalls(s2, SyncPlan(branch)).1.Some? ==> j > 0 && RunCalls(s2, SyncPlan(branch)).1 == Some(GitFailed(Name(SyncPlan(branch)[j - 1]))));
      assert plan[..j + 2] == [GetCommitHash, Checkout(branch)] + SyncPlan(branch)[..j];
      assert o.git.trace == s.trace + plan[..j + 2];
    }
  }

  /** InitFromEmptyToLock with a recorded commit issues Clone,
      PullForce(branch) and Checkout(Current) in this order, stopping after
      the first failure, and never writes the pair. */
  lemma {:induction false} InitFromEmptyToLockOrder(repo: string, branch: string, p: PairVal, s: State)
    requires p.current != ""
    ensures var o := InitFromEmptyToLock(repo, branch, p, s);
      var plan := [Clone(repo), PullForce(branch), Checkout(p.current)];
      && o.pair == p
      && (exists k :: 1 <= k <= 3 && o.git.trace == s.trace + plan[..k]
            && (o.err.None? ==> k == 3)
            && (o.err.Some? ==> o.err == Some(GitFailed(Name(plan[k - 1])))))
  {
    RunCallsTrace(s, [Clone(repo), PullForce(branch), Checkout(p.current)]);
  }

  /** UpdateToLock never changes the pair, and after the discarded checkout,
      Fetch, PullForce and GetCommitHash it issues Checkout(Current) exactly
      when all three succeeded and the hash read differs from Current. */
  lemma {:induction false} UpdateToLockChecksOutLock(branch: string, p: PairVal, s: State)
    requires p.current != ""
    ensures var o := UpdateToLock(branch, p, s);
      var synced := RunCalls(TryCheckout(s, branch), [Fetch, PullForce(branch), GetCommitHash]);
      && o.pair == p
      && (o.git.trace == s.trace + [Checkout(branch), Fetch, PullForce(branch), GetCommitHash, Checkout(p.current)]
          <==> synced.1.None? && synced.0.head.value != p.current)
  {
    var s0 := TryCheckout(s, branch);
    var plan := [Fetch, PullForce(branch), GetCommitHash];
    RunCallsTrace(s0, plan);
    var synced := RunCalls(s0, plan);
    var k :| 0 <= k <= 3 && synced.0.trace == s0.trace + plan[..k] && (synced.1.None? ==> k == 3);
    if synced.1.None? && synced.0.head.value != p.current {
      RunCallsTrace(synced.0, [Checkout(p.current)]);
      assert plan[..3] == plan;
    } else {
      assert |UpdateToLock(branch, p, s).git.trace| <= |s.trace| + 4;
    }
  }

  /** CreateLatestLock overwrites Current with the hash read before any
      fetch or pull, and keeps it whatever happens afterwards. */
  lemma CreateLatestLockKeepsPreSyncHash(branch: string, p: PairVal, s: State)
    requires Succeeds(s, GetCommitHash)
    ensures CreateLatestLock(branch, p, s).pair.current == s.head.value
  {
  }

  /** NoopRunner, UnknownRunner, RetryRunner and NoUpdateRunner issue no git
      call and keep the pair; only the first two report an error. */
  lemma InertRunners(kind: RunnerKind, repo: string, branch: string, p: PairVal, s: State)
    requires kind in {NoopRunner, UnknownRunner, RetryRunner, NoUpdateRunner}
    ensures var o := Run(kind, repo, branch, p, s);
      && o.pair == p && o.git == s
      && (o.err == Some(NoopStrategy) <==> kind == NoopRunner)
      && (o.err == Some(UnknownStrategy) <==> kind == UnknownRunner)
      && (o.err.None? <==> kind == RetryRunner || kind == NoUpdateRunner)
  {
  }

  /** A repository at commit A whose lock records B, with nothing failing:
      UpdateToLock checks out B and leaves Next alone. */
  lemma {:induction false} UpdateToLockScenario(a: string, b: string, branch: string, tip: string, next: string)
    requires b != "" && b != branch
    ensures var s := State(true, Some(a), branch, tip, [], {});
      var o := Run(UpdateToLockRunner, "", branch, PairVal(b, next), s);
      o.err.None? && o.pair == PairVal(b, next) && o.git.head == Some(b)
  {
    var s := State(true, Some(a), branch, tip, [], {});
    var s0 := TryCheckout(s, branch);
    var plan := [Fetch, PullForce(branch), GetCommitHash];
    RunCallsStep(s0, plan);
    RunCallsStep(Apply(s0, plan[0]), plan[1..]);
    var s2 := Apply(Apply(s0, plan[0]), plan[1]);
    RunCallsStep(s2, plan[2..]);
    RunCallsStep(Apply(s2, plan[2]), [Checkout(b)]);
  }

  /** A fresh clone forced to the latest commit records the remote tip as
      Next when nothing fails. */
  lemma {:induction false} InitFromEmptyToLatestScenario(repo: string, branch: string, tip: string, current: string)
    ensures var s := State(false, None, branch, tip, [], {});
      var o := Run(InitFromEmptyToLatestRunner, repo, branch, PairVal(current, ""), s);
      o.err.None? && o.pair == PairVal(current, tip) && o.git.head == Some(tip)
  {
    var s := State(false, None, branch, tip, [], {});
    var plan := ClonePlan(repo, branch);
    RunCallsStep(s, plan);
    var s1 := Apply(s, plan[0]);
    RunCallsStep(s1, plan[1..]);
    var s2 := Apply(s1, plan[1]);
    RunCallsStep(s2, plan[2..]);
    var s3 := Apply(s2, plan[2]);
    RunCallsStep(s3, plan[3..]);
  }
}
