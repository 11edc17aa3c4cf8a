/** The git-aware keeper of gitlock/gitlock.go: commits the lock file, and
    on rollback also resets the working directory to the recorded hash. */
module GitLock {
  import opened Errors
  import opened FsTree
  import opened Fs
  import opened Git
  import opened Lock

  /** `GitKeeper.Commit` on a tree: the keeper's commit, its error wrapped. */
  function CommitOf(t: Tree, p: Path, next: string): (r: (Tree, Option<Error>))
    ensures r.1.Some? <==> next != "" && !CanCreate(t, p)
    ensures r.1.Some? ==> r.0 == t && r.1 == Some(Wrapped("gitlock commit", Wrapped("commit", FsFailed("write"))))
    ensures r.1.None? && next != "" ==> Loaded(r.0, p) == next
    ensures next == "" ==> r == (t, None)
  {
    var c := Persist(t, p, next, "commit");
    if c.1.Some? then (c.0, Some(Wrapped("gitlock commit", c.1.value))) else c
  }

  /** `GitKeeper.Rollback` on a tree and a repository: the lock file is
      rolled back first and its failure stops everything; an empty current
      hash stops there; otherwise the work tree is reset to it. */
  function RollbackOf(t: Tree, p: Path, current: string, s: State): (r: (Tree, State, Option<Error>))
  {
    var w := Persist(t, p, current, "rollback");
    if w.1.Some? then (t, s, Some(Wrapped("gitlock rollback", w.1.value)))
    else if current == "" then (w.0, s, None)
    else if !Succeeds(s, ResetHard(current)) then
      (w.0, Apply(s, ResetHard(current)), Some(Wrapped("gitlock rollback", GitFailed("reset"))))
    else (w.0, Apply(s, ResetHard(current)), None)
  }

  /** What a rollback promises: with nothing recorded it does nothing; a
      lock file it cannot write leaves the repository alone; on success the
      lock file holds the recorded hash and HEAD is at it; every error is
      reported as a gitlock rollback. */
  lemma RollbackEffect(t: Tree, p: Path, current: string, s: State)
    ensures var r := RollbackOf(t, p, current, s);
      && (current == "" ==> r == (t, s, None))
      && (current != "" && !CanCreate(t, p) ==> r.0 == t && r.1 == s && r.2.Some?)
      && (r.2.None? && current != "" ==> Loaded(r.0, p) == current && r.1.head == Some(current))
      && (r.1 == s || r.1 == Apply(s, ResetHard(current)))
      && (r.2.Some? ==> r.2.value.Wrapped? && r.2.value.context == "gitlock rollback")
  {
    PersistEffect(t, p, current, "rollback");
  }

  /** Commit followed by rollback to the recorded hash of an existing lock
      file puts the lock file back exactly and leaves HEAD at that hash. */
  lemma RollbackUndoesCommit(t: Tree, p: Path, next: string, s: State)
    requires IsFileAt(t, p) && Loaded(t, p) != ""
    requires Succeeds(s, ResetHard(Loaded(t, p)))
    ensures var c := CommitOf(t, p, next);
      c.1.None? && RollbackOf(c.0, p, Loaded(t, p), s) == (t, Apply(s, ResetHard(Loaded(t, p))), None)
  {
    CommitThenRollback(t, p, next);
  }

  /** `gitlock.GitKeeper` over a file keeper and a git client. */
  class GitKeeper {
    const locker: FileKeeper
    const git: Client

    /** `NewGitKeeper`. */
    constructor (locker: FileKeeper, git: Client)
      ensures this.locker == locker && this.git == git
    {
      this.locker := locker;
      this.git := git;
    }

    /** `GitKeeper.Commit`. */
    method Commit() returns (err: Option<Error>)
      requires locker.fs.Valid()
      modifies locker.fs
      ensures locker.fs.Valid()
      ensures (locker.fs.tree, err) == CommitOf(old(locker.fs.tree), locker.path, locker.pair.next)
    {
      var e := locker.Commit();
      if e.Some? {
        return Some(Wrapped("gitlock commit", e.value));
      }
      return None;
    }

    /** `GitKeeper.Rollback`. */
    method Rollback() returns (err: Option<Error>)
      requires locker.fs.Valid()
      modifies locker.fs, git
      ensures locker.fs.Valid()
      ensures (locker.fs.tree, git.Snapshot(), err)
        == RollbackOf(old(locker.fs.tree), locker.path, locker.pair.current, old(git.Snapshot()))
    {
      var e := locker.Rollback();
      if e.Some? {
        return Some(Wrapped("gitlock rollback", e.value));
      }
      var current := locker.Pair().current;
      if current == "" {
        return None;
      }
      e := git.ResetHard(current);
      if e.Some? {
        return Some(Wrapped("gitlock rollback", e.value));
      }
      return None;
    }
  }
}
