/** The git client boundary (the `Command` interface of git/git.go),
    modelled as an abstract repository plus a failure oracle. The literal
    git command lines are not modelled. */
module Git {
  import opened Errors

  datatype Call =
    | Clone(repo: string)
    | GetCommitHash
    | Fetch
    | Checkout(commit: string)
    | ResetHard(commit: string)
    | PullForce(ref: string)

  /** Abstract state of one working directory: whether it has been cloned,
      the commit HEAD points at (if any), the tracked branch and its remote
      tip, every call issued so far, and the oracle: the call at trace
      position i fails when i is in `fails`. */
  datatype State = State(
    cloned: bool,
    head: Option<string>,
    branch: string,
    tip: string,
    trace: seq<Call>,
    fails: set<nat>)

  function Name(c: Call): string
  {
    match c
    case Clone(_) => "clone"
    case GetCommitHash => "rev-parse"
    case Fetch => "fetch"
    case Checkout(_) => "checkout"
    case ResetHard(_) => "reset"
    case PullForce(_) => "pull"
  }

  /** Whether call c, issued now, succeeds. Besides the oracle, git refuses
      to clone into an existing checkout, every other command needs one,
      and there is no hash to report without a HEAD. */
  predicate Succeeds(s: State, c: Call)
  {
    && |s.trace| !in s.fails
    && (if c.Clone? then !s.cloned else s.cloned)
    && (c.GetCommitHash? ==> s.head.Some?)
  }

  /** A ref names the remote tip when it is the tracked branch, and is a
      commit of its own otherwise. */
  function Resolve(s: State, ref: string): string
  {
    if ref == s.branch then s.tip else ref
  }

  /** The state after issuing c: the call is always recorded; only a
      successful call moves HEAD. */
  function Apply(s: State, c: Call): (r: State)
    ensures r.trace == s.trace + [c]
    ensures r.branch == s.branch && r.tip == s.tip && r.fails == s.fails
    ensures !Succeeds(s, c) ==> r == s.(trace := s.trace + [c])
    ensures c.GetCommitHash? || c.Fetch? ==> r.head == s.head && r.cloned == s.cloned
  {
    var logged := s.(trace := s.trace + [c]);
    if !Succeeds(s, c) then logged
    else match c
      case Clone(_) => logged.(cloned := true, head := Some(s.tip))
      case GetCommitHash => logged
      case Fetch => logged
      case Checkout(ref) => logged.(head := Some(Resolve(s, ref)))
      case ResetHard(ref) => logged.(head := Some(ref))
      case PullForce(ref) => logged.(head := Some(Resolve(s, ref)))
  }

  /** Issues calls in order and stops at the first failure, as every
      strategy runner does: the result is the final state and the error of
      the failing call, if any. */
  function RunCalls(s: State, calls: seq<Call>): (r: (State, Option<Error>))
    ensures r.0.branch == s.branch && r.0.tip == s.tip && r.0.fails == s.fails
    ensures r.1.None? && calls != [] && calls[|calls| - 1].GetCommitHash? ==> r.0.head.Some?
    ensures r.1.Some? ==> r.1.value.GitFailed?
    decreases |calls|
  {
    if calls == [] then (s, None)
    else if !Succeeds(s, calls[0]) then (Apply(s, calls[0]), Some(GitFailed(Name(calls[0]))))
    else RunCalls(Apply(s, calls[0]), calls[1..])
  }

  /** One step of RunCalls, stated for callers that follow a plan call by
      call. */
  lemma RunCallsStep(s: State, calls: seq<Call>)
    requires calls != []
    ensures RunCalls(s, calls) ==
      if !Succeeds(s, calls[0]) then (Apply(s, calls[0]), Some(GitFailed(Name(calls[0]))))
      else RunCalls(Apply(s, calls[0]), calls[1..])
  {
  }

  /** RunCalls records a prefix of the planned calls, all of them when
      nothing failed; on failure the prefix is non-empty and its last call
      is the one whose error is returned. */
  lemma {:induction false} RunCallsTrace(s: State, calls: seq<Call>)
    ensures var r := RunCalls(s, calls);
      exists k :: 0 <= k <= |calls| && r.0.trace == s.trace + calls[..k]
        && (r.1.None? ==> k == |calls|)
        && (r.1.Some? ==> k > 0 && r.1 == Some(GitFailed(Name(calls[k - 1]))))
    decreases |calls|
  {
    var r := RunCalls(s, calls);
    if calls == [] {
      assert r.0.trace == s.trace + calls[..0];
    } else if !Succeeds(s, calls[0]) {
      assert r.0.trace == s.trace + calls[..1];
    } else {
      var s1 := Apply(s, calls[0]);
      RunCallsTrace(s1, calls[1..]);
      var k :| 0 <= k <= |calls[1..]| && RunCalls(s1, calls[1..]).0.trace == s1.trace + calls[1..][..k]
        && (RunCalls(s1, calls[1..]).1.None? ==> k == |calls[1..]|)
        && (RunCalls(s1, calls[1..]).1.Some? ==> k > 0 && RunCalls(s1, calls[1..]).1 == Some(GitFailed(Name(calls[1..][k - 1]))));
      assert calls[..k + 1] == [calls[0]] + calls[1..][..k];
      assert r.0.trace == s.trace + calls[..k + 1];
    }
  }

  /** A git client bound to one working directory. Every method records its
      call and moves the state exactly as `Apply` says. */
  class Client {
    var cloned: bool
    var head: Option<string>
    const branch: string
    const tip: string
    var trace: seq<Call>
    const fails: set<nat>

    function Snapshot(): State
      reads this
    {
      State(cloned, head, branch, tip, trace, fails)
    }

    constructor (cloned: bool, head: Option<string>, branch: string, tip: string, fails: set<nat>)
      ensures Snapshot() == State(cloned, head, branch, tip, [], fails)
    {
      this.cloned := cloned;
      this.head := head;
      this.branch := branch;
      this.tip := tip;
      this.trace := [];
      this.fails := fails;
    }

    method Issue(c: Call) returns (err: Option<Error>)
      modifies this
      ensures Snapshot() == Apply(old(Snapshot()), c)
      ensures err == if Succeeds(old(Snapshot()), c) then None else Some(GitFailed(Name(c)))
    {
      var s := Apply(Snapshot(), c);
      err := if Succeeds(Snapshot(), c) then None else Some(GitFailed(Name(c)));
      cloned, head, trace := s.cloned, s.head, s.trace;
    }

    method Clone(repo: string) returns (err: Option<Error>)
      modifies this
      ensures Snapshot() == Apply(old(Snapshot()), Call.Clone(repo))
      ensures err == if Succeeds(old(Snapshot()), Call.Clone(repo)) then None else Some(GitFailed("clone"))
    {
      err := Issue(Call.Clone(repo));
    }

    method Fetch() returns (err: Option<Error>)
      modifies this
      ensures Snapshot() == Apply(old(Snapshot()), Call.Fetch)
      ensures err == if Succeeds(old(Snapshot()), Call.Fetch) then None else Some(GitFailed("fetch"))
    {
      err := Issue(Call.Fetch);
    }

    method Checkout(commit: string) returns (err: Option<Error>)
      modifies this
      ensures Snapshot() == Apply(old(Snapshot()), Call.Checkout(commit))
      ensures err == if Succeeds(old(Snapshot()), Call.Checkout(commit)) then None else Some(GitFailed("checkout"))
    {
      err := Issue(Call.Checkout(commit));
    }

    method ResetHard(commit: string) returns (err: Option<Error>)
      modifies this
      ensures Snapshot() == Apply(old(Snapshot()), Call.ResetHard(commit))
      ensures err == if Succeeds(old(Snapshot()), Call.ResetHard(commit)) then None else Some(GitFailed("reset"))
    {
      err := Issue(Call.ResetHard(commit));
    }

    method PullForce(ref: string) returns (err: Option<Error>)
      modifies this
      ensures Snapshot() == Apply(old(Snapshot()), Call.PullForce(ref))
      ensures err == if Succeeds(old(Snapshot()), Call.PullForce(ref)) then None else Some(GitFailed("pull"))
    {
      err := Issue(Call.PullForce(ref));
    }

    /** Reports the HEAD commit; "" together with the error on failure. */
    method GetCommitHash() returns (hash: string, err: Option<Error>)
      modifies this
      ensures Snapshot() == Apply(old(Snapshot()), Call.GetCommitHash)
      ensures err == if Succeeds(old(Snapshot()), Call.GetCommitHash) then None else Some(GitFailed("rev-parse"))
      ensures hash == if err.None? then old(head).value else ""
    {
      err := Issue(Call.GetCommitHash);
      hash := if err.None? then head.value else "";
    }
  }
}
