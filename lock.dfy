/** The lock keeper of lock/keeper.go: a commit-hash pair and the lock file
    it is committed to or rolled back into. */
module Lock {
  import opened Errors
  import opened FsTree
  import opened Fs

  /** Value of a `lock.Pair`. */
  datatype PairVal = PairVal(current: string, next: string)

  /** `lock.Pair`: shared by reference between the keeper and the strategy
      runners, which write through that reference. */
  class Pair {
    var current: string
    var next: string

    function Value(): PairVal
      reads this
    {
      PairVal(current, next)
    }

    constructor (current: string, next: string)
      ensures Value() == PairVal(current, next)
    {
      this.current := current;
      this.next := next;
    }
  }

  /** The hash a keeper starts from: the lock file's content, or empty
      when it cannot be read. */
  function Loaded(t: Tree, p: Path): (h: string)
    ensures IsFileAt(t, p) ==> ReadTree(t, p) == Read(h)
    ensures !IsFileAt(t, p) ==> h == ""
  {
    if IsFileAt(t, p) then t[p].content else ""
  }

  /** Writing hash h into the lock file p, as Commit and Rollback do: an
      empty hash writes nothing; a failed write leaves the tree and is
      reported under `context`. */
  function Persist(t: Tree, p: Path, h: string, context: string): (r: (Tree, Option<Error>))
  {
    if h == "" then (t, None)
    else if CanCreate(t, p) then (t[p := File(h)], None)
    else (t, Some(Wrapped(context, FsFailed("write"))))
  }

  /** After a successful non-empty Persist the lock file holds exactly h;
      after any Persist the tree is unchanged outside p; a Persist only
      fails for a non-empty hash whose file cannot be created. */
  lemma PersistEffect(t: Tree, p: Path, h: string, context: string)
    ensures var r := Persist(t, p, h, context);
      && (r.1.None? && h != "" ==> Loaded(r.0, p) == h)
      && (r.1.Some? <==> h != "" && !CanCreate(t, p))
      && (r.1.Some? ==> r.1.value.Wrapped? && r.1.value.context == context)
      && (forall q :: q != p ==> (q in r.0 <==> q in t) && (q in t ==> r.0[q] == t[q]))
  {
  }

  /** Persisting the hash the file already holds changes nothing. */
  lemma PersistSame(t: Tree, p: Path, context: string)
    requires IsFileAt(t, p)
    ensures Persist(t, p, Loaded(t, p), context) == (t, None)
  {
    if Loaded(t, p) != "" {
      assert t[p := File(t[p].content)] == t;
    }
  }

  /** The table of lock/keeper_test.go, for every initial content and next
      hash: on an existing lock file holding `init`, Commit leaves `next`
      (or `init` when `next` is empty) and a following Rollback leaves
      `init` (or what Commit left when `init` is empty); neither fails. */
  lemma {:induction false} CommitThenRollback(t: Tree, p: Path, next: string)
    requires IsFileAt(t, p)
    ensures var init := Loaded(t, p);
      var c := Persist(t, p, next, "commit");
      var r := Persist(c.0, p, init, "rollback");
      && c.1.None? && r.1.None?
      && Loaded(c.0, p) == (if next == "" then init else next)
      && Loaded(r.0, p) == (if init == "" then Loaded(c.0, p) else init)
      && (init != "" ==> r.0 == t)
  {
    var init := Loaded(t, p);
    var c := Persist(t, p, next, "commit");
    assert IsFileAt(c.0, p);
    if init != "" {
      if next != "" {
        assert c.0[p := File(init)] == t;
      } else {
        PersistSame(t, p, "rollback");
      }
    }
  }

  /** `lock.FileKeeper`: the pair it owns and the lock file it writes. */
  class FileKeeper {
    const pair: Pair
    const path: Path
    const fs: FileSystem

    /** `NewFileKeeper`: current starts as the lock file's content, or
        empty when it cannot be read; next starts empty. */
    constructor (fs: FileSystem, path: Path)
      ensures this.fs == fs && this.path == path && fresh(pair)
      ensures pair.Value() == PairVal(Loaded(fs.tree, path), "")
    {
      var current, err := fs.ReadFile(path);
      this.pair := new Pair(if err.None? then current else "", "");
      this.path := path;
      this.fs := fs;
    }

    /** `FileKeeper.Pair`: the same pair on every call. */
    function Pair(): (p: Pair)
      ensures p == pair
    {
      pair
    }

    /** `FileKeeper.Commit`: writes next into the lock file. */
    method Commit() returns (err: Option<Error>)
      requires fs.Valid()
      modifies fs
      ensures fs.Valid()
      ensures (fs.tree, err) == Persist(old(fs.tree), path, pair.next, "commit")
    {
      if pair.next == "" {
        return None;
      }
      var e := fs.WriteFile(path, pair.next);
      if e.Some? {
        return Some(Wrapped("commit", e.value));
      }
      return None;
    }

    /** `FileKeeper.Rollback`: writes current back into the lock file. */
    method Rollback() returns (err: Option<Error>)
      requires fs.Valid()
      modifies fs
      ensures fs.Valid()
      ensures (fs.tree, err) == Persist(old(fs.tree), path, pair.current, "rollback")
    {
      if pair.current == "" {
        return None;
      }
      var e := fs.WriteFile(path, pair.current);
      if e.Some? {
        return Some(Wrapped("rollback", e.value));
      }
      return None;
    }
  }
}
