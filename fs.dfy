/** The filesystem helpers of filepathx/file.go and filepathx/dir.go as
    methods of one object that owns the tree. Failures come only from the
    shape of the tree (a missing entry, a file where a directory is needed
    or the reverse); permission and device errors are not modelled. */
module Fs {
  import opened Errors
  import opened FsTree

  /** filepathx.ErrNotFile. */
  const NotFile := FsFailed("NotFile")

  /** DirPath.Ensure on a tree value: the new tree and the error. */
  function EnsureDirOf(t: Tree, p: Path): (r: (Tree, Option<Error>))
    ensures r.1.None? <==> MkdirAllOk(t, p)
    ensures r.1.None? ==> IsDirAt(r.0, p)
    ensures forall q :: q in t ==> q in r.0 && r.0[q] == t[q]
  {
    if MkdirAllOk(t, p) then
      assert p[..|p|] == p;
      (MkdirAll(t, p), None)
    else (t, Some(FsFailed("mkdir")))
  }

  /** FilePath.Ensure on a tree value: an existing file keeps its content,
      a missing one is created empty, a directory is refused. */
  function EnsureFileOf(t: Tree, p: Path): (r: (Tree, Option<Error>))
    ensures r.1.None? <==> MkdirAllOk(t, DirOf(p)) && p != [] && !IsDirAt(t, p)
    ensures r.1.None? ==> IsFileAt(r.0, p)
    ensures IsFileAt(t, p) ==> ReadTree(r.0, p) == ReadTree(t, p)
    ensures forall q :: q in t ==> q in r.0 && r.0[q] == t[q]
  {
    if !MkdirAllOk(t, DirOf(p)) then (t, Some(FsFailed("mkdir")))
    else
      var made := MkdirAll(t, DirOf(p));
      if p == [] || IsDirAt(made, p) then (made, Some(NotFile))
      else if p in made then (made, None)
      else (made[p := File("")], None)
  }

  /** Moving one name from the pending set to the finished set keeps the
      two a partition of all names. */
  lemma TakeOne(names: set<string>, todo: set<string>, done: set<string>, n: string)
    requires todo !! done && todo + done == names && n in todo
    ensures (todo - {n}) !! (done + {n}) && (todo - {n}) + (done + {n}) == names
  {
  }

  class FileSystem {
    var tree: Tree

    ghost predicate Valid()
      reads this
    {
      Wf(tree)
    }

    constructor(t: Tree)
      requires Wf(t)
      ensures tree == t && Valid()
    {
      tree := t;
    }

    /** DirPath.Exist. */
    function DirExist(p: Path): (b: bool)
      reads this
      ensures b <==> p in tree && tree[p] == Dir
    {
      IsDirAt(tree, p)
    }

    /** FilePath.Exist: anything that is not a directory. */
    function FileExist(p: Path): (b: bool)
      reads this
      ensures b <==> p in tree && tree[p] != Dir
    {
      IsFileAt(tree, p)
    }

    /** DirPath.Ensure (os.MkdirAll). */
    method EnsureDir(p: Path) returns (err: Option<Error>)
      requires Valid()
      modifies this
      ensures Valid()
      ensures err.None? <==> MkdirAllOk(old(tree), p)
      ensures tree == if err.None? then MkdirAll(old(tree), p) else old(tree)
      ensures err.None? ==> DirExist(p)
      ensures (tree, err) == EnsureDirOf(old(tree), p)
    {
      if !MkdirAllOk(tree, p) {
        return Some(FsFailed("mkdir"));
      }
      MkdirAllWf(tree, p);
      tree := MkdirAll(tree, p);
      assert p[..|p|] == p;
      return None;
    }

    /** DirPath.Remove (os.RemoveAll): never fails on a missing path. */
    method RemoveDir(p: Path) returns (err: Option<Error>)
      requires Valid()
      modifies this
      ensures Valid() && err.None?
      ensures tree == RemoveAll(old(tree), p)
      ensures p != [] ==> !DirExist(p) && !FileExist(p)
    {
      RemoveAllWf(tree, p);
      tree := RemoveAll(tree, p);
      return None;
    }

    /** FilePath.Ensure: make the directory, then an empty file unless
        something is already there; a directory there is ErrNotFile. */
    method EnsureFile(p: Path) returns (err: Option<Error>)
      requires Valid()
      modifies this
      ensures Valid()
      ensures !MkdirAllOk(old(tree), DirOf(p)) ==> err.Some? && tree == old(tree)
      ensures MkdirAllOk(old(tree), DirOf(p)) ==>
        var made := MkdirAll(old(tree), DirOf(p));
        && (IsDirAt(old(tree), p) || p == [] ==> err == Some(NotFile) && tree == made)
        && (IsFileAt(old(tree), p) ==> err.None? && tree == made)
        && (p !in old(tree) ==> err.None? && tree == made[p := File("")])
      ensures err.None? ==> FileExist(p)
      ensures (tree, err) == EnsureFileOf(old(tree), p)
    {
      err := EnsureDir(DirOf(p));
      if err.Some? {
        return;
      }
      if p in tree {
        if tree[p] == Dir {
          err := Some(NotFile);
        }
        return;
      }
      assert p != [];
      assert DirOf(p)[..|DirOf(p)|] == DirOf(p);
      WriteWf(tree, p, "");
      tree := tree[p := File("")];
    }

    /** FilePath.Read. */
    method ReadFile(p: Path) returns (content: string, err: Option<Error>)
      ensures ReadTree(tree, p) == if err.None? then Read(content) else ReadFailed(err.value)
      ensures err.None? <==> FileExist(p)
      ensures err.Some? ==> content == ""
    {
      if IsFileAt(tree, p) {
        return tree[p].content, None;
      }
      return "", Some(FsFailed("read"));
    }

    /** FilePath.Write (os.WriteFile): replace the content, creating the
        file in an existing directory. */
    method WriteFile(p: Path, content: string) returns (err: Option<Error>)
      requires Valid()
      modifies this
      ensures Valid()
      ensures err == if CanCreate(old(tree), p) then None else Some(FsFailed("write"))
      ensures tree == if err.None? then old(tree)[p := File(content)] else old(tree)
    {
      if !CanCreate(tree, p) {
        return Some(FsFailed("write"));
      }
      WriteWf(tree, p, content);
      tree := tree[p := File(content)];
      return None;
    }

    /** FilePath.Remove (os.Remove): an existing entry with nothing
        inside it. */
    method RemoveFile(p: Path) returns (err: Option<Error>)
      requires Valid()
      modifies this
      ensures Valid()
      ensures err.None? <==> p in old(tree) && p != [] && Subtree(old(tree), p) == {p}
      ensures tree == if err.None? then old(tree) - {p} else old(tree)
    {
      if p !in tree || p == [] || Subtree(tree, p) != {p} {
        return Some(FsFailed("remove"));
      }
      forall q | q in tree - {p} && q != []
        ensures IsDirAt(tree - {p}, DirOf(q))
      {
        assert IsDirAt(tree, DirOf(q));
      }
      tree := tree - {p};
      return None;
    }

    /** FilePath.Copy: open src, create (truncate) dst, copy the bytes.
        A directory opens but cannot be read, which leaves dst empty. */
    method CopyFile(src: Path, dst: Path) returns (err: Option<Error>)
      requires Valid()
      modifies this
      ensures Valid()
      ensures src !in old(tree) || !CanCreate(old(tree), dst) ==> err.Some? && tree == old(tree)
      ensures src in old(tree) && CanCreate(old(tree), dst) ==>
        var made := old(tree)[dst := File("")];
        if made[src] == Dir then err.Some? && tree == made
        else err.None? && tree == made[dst := made[src]]
    {
      if src !in tree {
        return Some(FsFailed("open"));
      }
      if !CanCreate(tree, dst) {
        return Some(FsFailed("create"));
      }
      WriteWf(tree, dst, "");
      tree := tree[dst := File("")];
      if tree[src] == Dir {
        return Some(FsFailed("read"));
      }
      WriteWf(tree, dst, tree[src].content);
      tree := tree[dst := tree[src]];
      return None;
    }

    /** DirPath.Copy: list src, make dst, then copy each child, a directory
        by recursion and anything else with FilePath.Copy, stopping at the
        first failure. */
    method CopyDir(src: Path, dst: Path) returns (err: Option<Error>)
      requires Valid() && Disjoint(src, dst)
      modifies this
      decreases Subtree(tree, src), 1
      ensures Valid()
      ensures OnlyInside(old(tree), tree, dst)
      ensures !IsDirAt(old(tree), src) ==> err.Some? && tree == old(tree)
      ensures err.None? ==> MkdirAllOk(old(tree), dst) && tree == CopyTree(old(tree), src, dst)
      ensures Copyable(old(tree), src, dst) ==> err.None?
    {
      if !IsDirAt(tree, src) {
        return Some(FsFailed("readdir"));
      }
      var names := ChildNames(tree, src);
      ghost var t := tree;
      err := EnsureDir(dst);
      if err.Some? {
        return;
      }
      assert tree == MkdirAll(t, dst);
      PartialStart(t, src, dst);
      var todo := names;
      ghost var done: set<string> := {};
      while todo != {}
        invariant Valid() && MkdirAllOk(t, dst)
        invariant todo !! done && todo + done == names
        invariant tree == Partial(t, src, dst, done)
        invariant Copyable(t, src, dst) ==> err.None?
        decreases todo
      {
        var n :| n in todo;
        if IsDirAt(tree, src + [n]) {
          err := CopyChildDir(t, src, dst, done, n);
        } else {
          err := CopyChildFile(t, src, dst, done, n);
        }
        if err.Some? {
          return;
        }
        todo := todo - {n};
        done := done + {n};
      }
      PartialEnd(t, src, dst, names);
      PartialOnlyInside(t, src, dst, names);
    }

    /** One pass of DirPath.Copy's loop for a child directory src/n. */
    method CopyChildDir(ghost t: Tree, src: Path, dst: Path, ghost done: set<string>, n: string)
      returns (err: Option<Error>)
      requires Valid() && StepReady(t, src, dst, done, n) && src + [n] in t
      requires tree == Partial(t, src, dst, done) && IsDirAt(tree, src + [n])
      modifies this
      decreases Subtree(t, src), 0
      ensures Valid()
      ensures err.None? ==> tree == Partial(t, src, dst, done + {n})
      ensures err.Some? ==> OnlyInside(t, tree, dst)
      ensures Copyable(t, src, dst) ==> err.None?
    {
      var s, d := src + [n], dst + [n];
      ghost var x := tree;
      PartialLike(t, src, dst, done, n);
      PartialOnlyInside(t, src, dst, done);
      GraftKeepsSource(t, src, dst, Covered(t, src, done), s);
      if Copyable(t, src, dst) {
        CopyableDirStep(t, src, dst, done, n, x);
      }
      SubtreeShrinks(t, src, dst, done, n, x);
      DisjointChildren(src, dst, n);
      err := CopyDir(s, d);
      if err.Some? {
        OnlyInsideChild(t, x, tree, dst, n);
        return;
      }
      DirStep(t, src, dst, done, n);
    }

    /** One pass of DirPath.Copy's loop for a child src/n that is not a
        directory. */
    method CopyChildFile(ghost t: Tree, src: Path, dst: Path, ghost done: set<string>, n: string)
      returns (err: Option<Error>)
      requires Valid() && StepReady(t, src, dst, done, n) && src + [n] in t
      requires tree == Partial(t, src, dst, done) && !IsDirAt(tree, src + [n])
      modifies this
      ensures Valid()
      ensures err.None? ==> tree == Partial(t, src, dst, done + {n})
      ensures err.Some? ==> OnlyInside(t, tree, dst)
      ensures Copyable(t, src, dst) ==> err.None?
    {
      var s, d := src + [n], dst + [n];
      ghost var x := tree;
      PartialLike(t, src, dst, done, n);
      PartialOnlyInside(t, src, dst, done);
      GraftKeepsSource(t, src, dst, Covered(t, src, done), s);
      if Copyable(t, src, dst) {
        CopyableFileStep(t, src, dst, done, n, x);
      }
      DisjointChildren(src, dst, n);
      err := CopyFile(s, d);
      if err.Some? {
        return;
      }
      assert x[d := File("")][s] == t[s];
      Overwrite(x, d, File(""), t[s]);
      FileStep(t, src, dst, done, n);
    }

    /** FilePath.Move, which the repository calls but does not define:
        modelled as os.Rename of a file. src must be a file and dst must be
        creatable; dst takes src's content and src disappears. */
    method MoveFile(src: Path, dst: Path) returns (err: Option<Error>)
      requires Valid()
      modifies this
      ensures Valid()
      ensures err.None? <==> IsFileAt(old(tree), src) && CanCreate(old(tree), dst)
      ensures tree == if err.None? then (old(tree) - {src})[dst := old(tree)[src]] else old(tree)
    {
      if !IsFileAt(tree, src) || !CanCreate(tree, dst) {
        return Some(FsFailed("rename"));
      }
      var f := tree[src];
      forall q | q in tree - {src} && q != []
        ensures IsDirAt(tree - {src}, DirOf(q))
      {
        assert IsDirAt(tree, DirOf(q));
      }
      assert CanCreate(tree - {src}, dst) || dst == src;
      tree := (tree - {src})[dst := f];
      return None;
    }

    /** DirPath.Move: list src, make dst, then move each child, a directory
        by recursion and anything else with FilePath.Move, stopping at the
        first failure. Directories inside src stay behind, empty. */
    method MoveDir(src: Path, dst: Path) returns (err: Option<Error>)
      requires Valid() && Disjoint(src, dst)
      modifies this
      decreases Subtree(tree, src), 1
      ensures Valid()
      ensures Confined(old(tree), tree, src, dst)
      ensures !IsDirAt(old(tree), src) ==> err.Some? && tree == old(tree)
      ensures err.None? ==> MkdirAllOk(old(tree), dst) && tree == MoveTree(old(tree), src, dst)
      ensures Copyable(old(tree), src, dst) ==> err.None?
    {
      if !IsDirAt(tree, src) {
        return Some(FsFailed("readdir"));
      }
      var names := ChildNames(tree, src);
      ghost var t := tree;
      err := EnsureDir(dst);
      if err.Some? {
        return;
      }
      assert tree == MkdirAll(t, dst);
      MoveStart(t, src, dst);
      var todo := names;
      ghost var done: set<string> := {};
      while todo != {}
        invariant Valid() && MkdirAllOk(t, dst)
        invariant todo !! done && todo + done == names
        invariant tree == PartialMove(t, src, dst, done)
        invariant Copyable(t, src, dst) ==> err.None?
        decreases todo
      {
        var n :| n in todo;
        if IsDirAt(tree, src + [n]) {
          err := MoveChildDir(t, src, dst, done, n);
        } else {
          err := MoveChildFile(t, src, dst, done, n);
        }
        if err.Some? {
          return;
        }
        TakeOne(names, todo, done, n);
        todo := todo - {n};
        done := done + {n};
      }
      MoveEnd(t, src, dst, names);
      MoveConfined(t, src, dst, names);
    }

    /** One pass of DirPath.Move's loop for a child directory src/n. */
    method MoveChildDir(ghost t: Tree, src: Path, dst: Path, ghost done: set<string>, n: string)
      returns (err: Option<Error>)
      requires Valid() && StepReady(t, src, dst, done, n) && src + [n] in t
      requires tree == PartialMove(t, src, dst, done) && IsDirAt(tree, src + [n])
      modifies this
      decreases Subtree(t, src), 0
      ensures Valid()
      ensures err.None? ==> tree == PartialMove(t, src, dst, done + {n})
      ensures err.Some? ==> Confined(t, tree, src, dst)
      ensures Copyable(t, src, dst) ==> err.None?
    {
      var s, d := src + [n], dst + [n];
      ghost var x := tree;
      MoveLike(t, src, dst, done, n);
      MoveConfined(t, src, dst, done);
      assert Same(x, t, s);
      if Copyable(t, src, dst) {
        CopyableDirStep(t, src, dst, done, n, x);
      }
      SubtreeShrinks(t, src, dst, done, n, x);
      DisjointChildren(src, dst, n);
      err := MoveDir(s, d);
      if err.Some? {
        ConfinedChild(t, x, tree, src, dst, n);
        return;
      }
      MoveDirStep(t, src, dst, done, n);
    }

    /** One pass of DirPath.Move's loop for a child src/n that is not a
        directory. */
    method MoveChildFile(ghost t: Tree, src: Path, dst: Path, ghost done: set<string>, n: string)
      returns (err: Option<Error>)
      requires Valid() && StepReady(t, src, dst, done, n) && src + [n] in t
      requires tree == PartialMove(t, src, dst, done) && !IsDirAt(tree, src + [n])
      modifies this
      ensures Valid()
      ensures err.None? ==> tree == PartialMove(t, src, dst, done + {n})
      ensures err.Some? ==> Confined(t, tree, src, dst)
      ensures Copyable(t, src, dst) ==> err.None?
    {
      var s, d := src + [n], dst + [n];
      ghost var x := tree;
      MoveLike(t, src, dst, done, n);
      MoveConfined(t, src, dst, done);
      assert Same(x, t, s);
      if Copyable(t, src, dst) {
        CopyableFileStep(t, src, dst, done, n, x);
      }
      err := MoveFile(s, d);
      if err.Some? {
        return;
      }
      MoveFileStep(t, src, dst, done, n);
    }

    /** Path.IsDir, which the repository calls but does not define: whether
        the entry is a directory, failing when nothing is there. */
    method IsDir(p: Path) returns (isDir: bool, err: Option<Error>)
      ensures err == if p in tree then None else Some(FsFailed("stat"))
      ensures isDir <==> IsDirAt(tree, p)
    {
      if p !in tree {
        return false, Some(FsFailed("stat"));
      }
      return tree[p] == Dir, None;
    }

    /** Path.Rename, which the repository calls but does not define:
        modelled as os.Rename. */
    method Rename(src: Path, dst: Path) returns (err: Option<Error>)
      requires Valid()
      modifies this
      ensures Valid()
      ensures err.None? <==> CanRename(old(tree), src, dst)
      ensures tree == if err.None? then RenameTree(old(tree), src, dst) else old(tree)
    {
      if !CanRename(tree, src, dst) {
        return Some(FsFailed("rename"));
      }
      RenameWf(tree, src, dst);
      tree := RenameTree(tree, src, dst);
      return None;
    }
  }
}
