/*  A backup of one file or directory (backup/backup.go): the origin is
    copied, moved or renamed to a staging place inside a backup directory,
    and later moved or renamed back. */
module Backup {
  import opened Errors
  import opened FsTree
  import opened Fs
  import Paths
  import Text

  /** dir.Join(origin.Tail()): the staging place is the origin's last
      segment inside dir; the root has no last segment and stages at dir. */
  function StagePath(dir: Path, origin: Path): (b: Path)
    ensures origin != [] ==> |b| == |dir| + 1 && DirOf(b) == dir && b[|dir|] == origin[|origin| - 1]
    ensures origin == [] ==> b == dir
  {
    if origin == [] then dir else dir + [origin[|origin| - 1]]
  }

  /** On path strings, dir.Join(origin.Tail()) lists exactly the names
      StagePath gives. */
  lemma StagePathJoin(dir: string, origin: string)
    requires Paths.IsCleanAbs(dir) && Paths.IsCleanAbs(origin)
    ensures var t := Paths.Tail(origin);
      && (t == "" || Paths.IsPlainRel(t))
      && Paths.IsCleanAbs(Paths.Join(dir, t))
      && Paths.Segments(Paths.Join(dir, t)) == StagePath(Paths.Segments(dir), Paths.Segments(origin))
  {
    var t := Paths.Tail(origin);
    Paths.TailSegments(origin);
    Paths.SegmentsRender(origin);
    if t != "" {
      assert Text.IndexOf(t, '/') == |t|;
      assert Text.Split(t, '/') == [t];
      Paths.JoinSegments(dir, t);
    }
  }

  // ---------------------------------------------------------------------
  // The round trip, as facts about trees.

  /** Everything at or inside o in t0 sits, unchanged, at its image inside b
      in t. */
  ghost predicate Staged(t0: Tree, t: Tree, o: Path, b: Path)
  {
    forall q :: q in t0 && Under(q, o) ==> Image(q, o, b) in t && t[Image(q, o, b)] == t0[q]
  }

  /** Neither path lies under a path disjoint from the other. */
  lemma Apart(q: Path, o: Path, b: Path)
    requires Disjoint(o, b) && Under(q, b)
    ensures !Under(q, o)
  {
    if Under(q, o) {
      if |o| <= |b| { Nested(q, o, b); } else { Nested(q, b, o); }
    }
  }

  /** A staging place inside a temporary directory apart from the origin is
      apart from the origin too, and the origin is not the root. */
  lemma StageApart(origin: Path, tmp: Path)
    requires Disjoint(origin, tmp)
    ensures origin != [] && Disjoint(origin, StagePath(tmp, origin))
  {
  }

  /** A copy of a directory stages it. */
  lemma CopyStages(t0: Tree, o: Path, b: Path)
    requires MkdirAllOk(t0, b)
    ensures Staged(t0, CopyTree(t0, o, b), o, b)
  {
    forall q | q in t0 && Under(q, o)
      ensures Image(q, o, b) in CopyTree(t0, o, b)
      ensures CopyTree(t0, o, b)[Image(q, o, b)] == t0[q]
    {
      GraftAt(MkdirAll(t0, b), t0, o, b, Subtree(t0, o), Image(q, o, b));
    }
  }

  /** A move of a directory to a place apart from it stages it too: the
      files it strips all lie inside o. */
  lemma MoveStages(t0: Tree, o: Path, b: Path)
    requires MkdirAllOk(t0, b) && Disjoint(o, b)
    ensures Staged(t0, MoveTree(t0, o, b), o, b)
  {
    CopyStages(t0, o, b);
    forall q | q in t0 && Under(q, o)
      ensures Image(q, o, b) in MoveTree(t0, o, b)
      ensures MoveTree(t0, o, b)[Image(q, o, b)] == t0[q]
    {
      Apart(Image(q, o, b), o, b);
    }
  }

  /** A rename of a directory or file stages it. */
  lemma RenameStages(t0: Tree, o: Path, b: Path)
    ensures Staged(t0, RenameTree(t0, o, b), o, b)
  {
    forall q | q in t0 && Under(q, o)
      ensures Image(q, o, b) in RenameTree(t0, o, b)
      ensures RenameTree(t0, o, b)[Image(q, o, b)] == t0[q]
    {
      GraftAt(RemoveAll(t0, o), t0, o, b, Subtree(t0, o), Image(q, o, b));
    }
  }

  /** Changes that leave everything inside b alone keep a staged copy. */
  lemma StagedUntouched(t0: Tree, t1: Tree, t2: Tree, o: Path, b: Path)
    requires Staged(t0, t1, o, b)
    requires forall q :: Under(q, b) && q in t1 ==> q in t2 && t2[q] == t1[q]
    ensures Staged(t0, t2, o, b)
  {
  }

  /** Moving a staged directory back restores every entry it had, whatever
      happened at o in between. */
  lemma {:induction false} MoveBackRestores(t0: Tree, t2: Tree, o: Path, b: Path)
    requires Staged(t0, t2, o, b) && MkdirAllOk(t2, o) && Disjoint(o, b)
    ensures forall q :: q in t0 && Under(q, o) ==>
      q in MoveTree(t2, b, o) && MoveTree(t2, b, o)[q] == t0[q]
  {
    forall q | q in t0 && Under(q, o)
      ensures q in MoveTree(t2, b, o) && MoveTree(t2, b, o)[q] == t0[q]
    {
      var p := Image(q, o, b);
      assert p in Subtree(t2, b);
      GraftAt(MkdirAll(t2, o), t2, b, o, Subtree(t2, b), q);
      Apart(q, b, o);
    }
  }

  /** The directory round trip of the backup: stage o by a copy or a move,
      change anything outside the staging place, move it back; every entry
      o had is there again with its old content. */
  lemma {:induction false} DirRoundTrip(t0: Tree, t1: Tree, t2: Tree, o: Path, b: Path, viaMove: bool)
    requires MkdirAllOk(t0, b) && Disjoint(o, b)
    requires t1 == if viaMove then MoveTree(t0, o, b) else CopyTree(t0, o, b)
    requires forall q :: Under(q, b) && q in t1 ==> q in t2 && t2[q] == t1[q]
    requires MkdirAllOk(t2, o)
    ensures forall q :: q in t0 && Under(q, o) ==>
      q in MoveTree(t2, b, o) && MoveTree(t2, b, o)[q] == t0[q]
  {
    if viaMove { MoveStages(t0, o, b); } else { CopyStages(t0, o, b); }
    StagedUntouched(t0, t1, t2, o, b);
    MoveBackRestores(t0, t2, o, b);
  }

  /** The tree after FilePath.Move of a file src to dst. */
  function MovedFile(t: Tree, src: Path, dst: Path): Tree
    requires src in t
  {
    (t - {src})[dst := t[src]]
  }

  /** The tree after FilePath.Copy of a file src to dst. */
  function CopiedFile(t: Tree, src: Path, dst: Path): Tree
    requires src in t
  {
    t[dst := t[src]]
  }

  // ---------------------------------------------------------------------
  // The restores of backup_test.go: what the tests change between staging
  // and restoring keeps the restore possible.

  /** Between staging and restoring a directory: the staging place is left
      alone, inside o nothing new appears and no entry takes another kind
      than it had before staging, and o can still be made. */
  ghost predicate DirKept(t0: Tree, t1: Tree, t2: Tree, o: Path, b: Path)
  {
    && (forall q :: q in t1 && Under(q, b) ==> q in t2 && t2[q] == t1[q])
    && (forall q :: q in t2 && Under(q, o) ==> q in t0 && (t2[q] == Dir <==> t0[q] == Dir))
    && MkdirAllOk(t2, o)
  }

  /** A fresh staging place: nothing of t0 lies inside b. */
  ghost predicate Fresh(t0: Tree, b: Path)
  {
    forall q :: q in t0 ==> !Under(q, b)
  }

  /** What the copy or the move of directory o leaves inside a fresh b is
      the image of what o held. */
  lemma StagedFrom(t0: Tree, o: Path, b: Path, viaMove: bool, q: Path)
    requires MkdirAllOk(t0, b) && Disjoint(o, b) && IsDirAt(t0, o) && Fresh(t0, b)
    requires var t1 := if viaMove then MoveTree(t0, o, b) else CopyTree(t0, o, b);
      q in t1 && Under(q, b)
    ensures var t1 := if viaMove then MoveTree(t0, o, b) else CopyTree(t0, o, b);
      Image(q, b, o) in t0 && t1[q] == t0[Image(q, b, o)]
  {
    var S := Subtree(t0, o);
    GraftAt(MkdirAll(t0, b), t0, o, b, S, q);
    MkdirAllAt(t0, b, q);
    if q in t0 {
      assert false;
    }
    if Under(b, q) {
      UnderBoth(q, b);
      assert o + q[|b|..] == o;
    }
    assert o + q[|b|..] == Image(q, b, o);
  }

  /** Staging leaves only entries o already had inside o, with their
      nodes, and keeps o itself. */
  lemma SourceAfterStaging(t0: Tree, o: Path, b: Path, viaMove: bool, q: Path)
    requires MkdirAllOk(t0, b) && Disjoint(o, b) && IsDirAt(t0, o) && Under(q, o)
    ensures var t1 := if viaMove then MoveTree(t0, o, b) else CopyTree(t0, o, b);
      && (q in t1 ==> q in t0 && t1[q] == t0[q])
      && o in t1 && t1[o] == Dir
  {
    GraftKeepsSource(t0, o, b, Subtree(t0, o), q);
    GraftKeepsSource(t0, o, b, Subtree(t0, o), o);
  }

  /** After staging by copy or move, o and its ancestors are still
      directories. */
  lemma OriginStillMade(t0: Tree, t1: Tree, o: Path, b: Path, viaMove: bool)
    requires MkdirAllOk(t0, b) && Disjoint(o, b) && IsDirAt(t0, o) && Wf(t1)
    requires t1 == if viaMove then MoveTree(t0, o, b) else CopyTree(t0, o, b)
    ensures MkdirAllOk(t1, o)
  {
    SourceAfterStaging(t0, o, b, viaMove, o);
    forall i | 0 <= i <= |o| && o[..i] in t1
      ensures t1[o[..i]] == Dir
    {
      AncestorIn(t1, o, o[..i]);
    }
  }

  /** A directory staged in a fresh place by a copy or a move, followed by
      changes that keep it as DirKept says: moving it back cannot fail, and
      every entry the directory had is back with its content. With the
      contract of Backup.Restore, the restore then succeeds and leaves
      MoveTree(t2, b, o). */
  lemma {:induction false} DirRestoreAfterChange(t0: Tree, t1: Tree, t2: Tree, o: Path, b: Path, viaMove: bool)
    requires MkdirAllOk(t0, b) && Disjoint(o, b) && IsDirAt(t0, o) && Fresh(t0, b)
    requires t1 == if viaMove then MoveTree(t0, o, b) else CopyTree(t0, o, b)
    requires DirKept(t0, t1, t2, o, b)
    ensures Copyable(t2, b, o)
    ensures forall q :: q in t0 && Under(q, o) ==>
      q in MoveTree(t2, b, o) && MoveTree(t2, b, o)[q] == t0[q]
  {
    if viaMove { MoveStages(t0, o, b); } else { CopyStages(t0, o, b); }
    assert Image(o, o, b) == b;
    assert IsDirAt(t2, b);
    forall q | q in t2 && Under(q, b) && Image(q, b, o) in t2
      ensures t2[Image(q, b, o)] == Dir <==> t2[q] == Dir
    {
      var p := Image(q, b, o);
      assert Image(p, o, b) == q;
      StagedFrom(t0, o, b, viaMove, q);
    }
    DirRoundTrip(t0, t1, t2, o, b, viaMove);
  }

  /** After staging, inside o there is only what o had, with its kinds,
      and o and its ancestors are directories. */
  lemma InsideAfterStaging(t0: Tree, t1: Tree, o: Path, b: Path, viaMove: bool)
    requires MkdirAllOk(t0, b) && Disjoint(o, b) && IsDirAt(t0, o) && Wf(t1)
    requires t1 == if viaMove then MoveTree(t0, o, b) else CopyTree(t0, o, b)
    ensures MkdirAllOk(t1, o)
    ensures forall q :: q in t1 && Under(q, o) ==> q in t0 && (t1[q] == Dir <==> t0[q] == Dir)
  {
    OriginStillMade(t0, t1, o, b, viaMove);
    forall q | q in t1 && Under(q, o)
      ensures q in t0 && (t1[q] == Dir <==> t0[q] == Dir)
    {
      SourceAfterStaging(t0, o, b, viaMove, q);
    }
  }

  /** backup_test.go's removals of o, of a file or of a directory inside
      it keep a staged directory as DirKept says. */
  lemma DirRemoveKept(t0: Tree, t1: Tree, o: Path, b: Path, viaMove: bool, p: Path)
    requires MkdirAllOk(t0, b) && Disjoint(o, b) && IsDirAt(t0, o) && Wf(t1)
    requires t1 == if viaMove then MoveTree(t0, o, b) else CopyTree(t0, o, b)
    requires Under(p, o)
    ensures DirKept(t0, t1, RemoveAll(t1, p), o, b)
  {
    InsideAfterStaging(t0, t1, o, b, viaMove);
    var r := RemoveAll(t1, p);
    forall q | q in t1 && Under(q, b)
      ensures q in r
    {
      Apart(q, o, b);
    }
    assert MkdirAllOk(r, o);
  }

  /** backup_test.go's rewrites of a file o had keep a staged directory as
      DirKept says. */
  lemma DirWriteKept(t0: Tree, t1: Tree, o: Path, b: Path, viaMove: bool, f: Path, s: string)
    requires MkdirAllOk(t0, b) && Disjoint(o, b) && IsDirAt(t0, o) && Wf(t1)
    requires t1 == if viaMove then MoveTree(t0, o, b) else CopyTree(t0, o, b)
    requires IsFileAt(t0, f) && Under(f, o)
    ensures DirKept(t0, t1, t1[f := File(s)], o, b)
  {
    InsideAfterStaging(t0, t1, o, b, viaMove);
    var w := t1[f := File(s)];
    forall q | q in t1 && Under(q, b)
      ensures q in w && w[q] == t1[q]
    {
      Apart(q, o, b);
    }
    forall q | q in w && Under(q, o)
      ensures q in t0 && (w[q] == Dir <==> t0[q] == Dir)
    {
    }
    forall i | 0 <= i <= |o| && o[..i] in w
      ensures w[o[..i]] == Dir
    {
      assert f != o;
      assert |o[..i]| <= |o| < |f|;
    }
  }

  /** Between staging and restoring a file: the staged copy is left alone,
      o is a file if it is there at all, and its directory stays. */
  ghost predicate FileKept(t1: Tree, t2: Tree, o: Path, b: Path)
  {
    && b in t1 && b in t2 && t2[b] == t1[b]
    && (o in t2 ==> t2[o].File?)
    && o != [] && IsDirAt(t2, DirOf(o))
  }

  /** A file staged by a copy or a move, then changed as FileKept says:
      FilePath.Move back cannot fail (with the contract of Backup.Restore,
      the restore succeeds and leaves MovedFile(t2, b, o)), and o holds its
      old content again. */
  lemma FileRestoreAfterChange(t0: Tree, t1: Tree, t2: Tree, o: Path, b: Path, viaMove: bool)
    requires IsFileAt(t0, o) && o != b
    requires t1 == if viaMove then MovedFile(t0, o, b) else CopiedFile(t0, o, b)
    requires FileKept(t1, t2, o, b)
    ensures CanCreate(t2, o)
    ensures var t3 := MovedFile(t2, b, o); IsFileAt(t3, o) && t3[o] == t0[o]
  {
  }

  /** The changes of backup_test.go to a staged file keep it as FileKept
      says: writing o, and after a copy removing it. */
  lemma FileTestChanges(t0: Tree, t1: Tree, o: Path, b: Path, viaMove: bool, s: string)
    requires Wf(t0) && IsFileAt(t0, o) && b !in t0
    requires t1 == if viaMove then MovedFile(t0, o, b) else CopiedFile(t0, o, b)
    ensures FileKept(t1, t1[o := File(s)], o, b)
    ensures !viaMove ==> FileKept(t1, t1 - {o}, o, b)
  {
    assert o != [] && DirOf(o) != o && DirOf(o) != b;
    assert IsDirAt(t0, DirOf(o));
  }

  // ---------------------------------------------------------------------
  // The backup object.

  class Backup {
    const fs: FileSystem
    const dir: Path
    const origin: Path
    const path: Path

    ghost predicate Valid()
      reads this, fs
    {
      fs.Valid() && path == StagePath(dir, origin)
    }

    constructor Make(fs: FileSystem, dir: Path, origin: Path)
      ensures this.fs == fs && this.dir == dir && this.origin == origin
      ensures path == StagePath(dir, origin)
    {
      this.fs := fs;
      this.dir := dir;
      this.origin := origin;
      this.path := StagePath(dir, origin);
    }

    /** backup.New: make the backup directory, then stage at the origin's
        name inside it. */
    static method New(fs: FileSystem, dir: Path, origin: Path) returns (b: Backup?, err: Option<Error>)
      requires fs.Valid()
      modifies fs
      ensures fs.Valid()
      ensures err.None? <==> MkdirAllOk(old(fs.tree), dir)
      ensures fs.tree == if err.None? then MkdirAll(old(fs.tree), dir) else old(fs.tree)
      ensures err.Some? ==> b == null && err.value.Wrapped? && err.value.context == "new backup"
      ensures err.None? ==>
        b != null && fresh(b) && b.Valid() && b.fs == fs && b.dir == dir && b.origin == origin
        && IsDirAt(fs.tree, dir)
    {
      var e := fs.EnsureDir(dir);
      if e.Some? {
        return null, Some(Wrapped("new backup", e.value));
      }
      b := new Backup.Make(fs, dir, origin);
      return b, None;
    }

    /** backup.IntoTempDir: the operating system picks a fresh directory tmp
        (os.MkdirTemp), which must not exist yet and whose parent must. */
    static method IntoTempDir(fs: FileSystem, tmp: Path, origin: Path) returns (b: Backup?, err: Option<Error>)
      requires fs.Valid()
      modifies fs
      ensures fs.Valid()
      ensures err.None? <==> CanCreate(old(fs.tree), tmp) && tmp !in old(fs.tree)
      ensures fs.tree == if err.None? then old(fs.tree)[tmp := Dir] else old(fs.tree)
      ensures err.Some? ==> b == null && err.value.Wrapped? && err.value.context == "new backup"
      ensures err.None? ==>
        b != null && fresh(b) && b.Valid() && b.fs == fs && b.dir == tmp && b.origin == origin
    {
      if !(CanCreate(fs.tree, tmp) && tmp !in fs.tree) {
        return null, Some(Wrapped("new backup", FsFailed("mkdirtemp")));
      }
      ghost var t := fs.tree;
      assert MkdirAllOk(t, tmp) by {
        assert tmp[..|tmp|] == tmp;
        forall i | 0 <= i <= |tmp| && tmp[..i] in t
          ensures t[tmp[..i]] == Dir
        {
          if i < |tmp| {
            assert Under(DirOf(tmp), tmp[..i]);
            AncestorIn(t, DirOf(tmp), tmp[..i]);
          }
        }
      }
      err := fs.EnsureDir(tmp);
      assert fs.tree == t[tmp := Dir] by {
        forall q
          ensures (q in fs.tree <==> q in t[tmp := Dir])
          ensures q in fs.tree ==> fs.tree[q] == t[tmp := Dir][q]
        {
          MkdirAllAt(t, tmp, q);
          if Under(tmp, q) && q != tmp {
            assert Under(DirOf(tmp), q);
            AncestorIn(t, DirOf(tmp), q);
          }
        }
      }
      b := new Backup.Make(fs, tmp, origin);
    }

    /** Backup.Copy: copy the origin to the staging place. */
    method Copy() returns (err: Option<Error>)
      requires Valid() && Disjoint(origin, path)
      modifies fs
      ensures Valid()
      ensures origin !in old(fs.tree) ==>
        err == Some(Wrapped("backup origin", FsFailed("stat"))) && fs.tree == old(fs.tree)
      ensures IsDirAt(old(fs.tree), origin) ==>
        && OnlyInside(old(fs.tree), fs.tree, path)
        && (err.None? ==> MkdirAllOk(old(fs.tree), path) && fs.tree == CopyTree(old(fs.tree), origin, path))
        && (Copyable(old(fs.tree), origin, path) ==> err.None?)
      ensures IsFileAt(old(fs.tree), origin) ==>
        && (err.None? <==> CanCreate(old(fs.tree), path))
        && fs.tree == if err.None? then CopiedFile(old(fs.tree), origin, path) else old(fs.tree)
    {
      err := CopyEntry(path, origin);
    }

    /** Backup.Move: move the origin to the staging place. */
    method Move() returns (err: Option<Error>)
      requires Valid() && Disjoint(origin, path)
      modifies fs
      ensures Valid()
      ensures origin !in old(fs.tree) ==>
        err == Some(Wrapped("backup origin", FsFailed("stat"))) && fs.tree == old(fs.tree)
      ensures IsDirAt(old(fs.tree), origin) ==>
        && Confined(old(fs.tree), fs.tree, origin, path)
        && (err.None? ==> MkdirAllOk(old(fs.tree), path) && fs.tree == MoveTree(old(fs.tree), origin, path))
        && (Copyable(old(fs.tree), origin, path) ==> err.None?)
      ensures IsFileAt(old(fs.tree), origin) ==>
        && (err.None? <==> CanCreate(old(fs.tree), path))
        && fs.tree == if err.None? then MovedFile(old(fs.tree), origin, path) else old(fs.tree)
    {
      err := MoveEntry(path, origin);
    }

    /** Backup.Rename: rename the origin to the staging place. */
    method Rename() returns (err: Option<Error>)
      requires Valid()
      modifies fs
      ensures Valid()
      ensures err.None? <==> CanRename(old(fs.tree), origin, path)
      ensures fs.tree == if err.None? then RenameTree(old(fs.tree), origin, path) else old(fs.tree)
    {
      err := fs.Rename(origin, path);
    }

    /** Backup.Restore: rename the staged entry back when asked to, move it
        back otherwise. */
    method Restore(rename: bool) returns (err: Option<Error>)
      requires Valid() && Disjoint(origin, path)
      modifies fs
      ensures Valid()
      ensures rename ==>
        && (err.None? <==> CanRename(old(fs.tree), path, origin))
        && fs.tree == if err.None? then RenameTree(old(fs.tree), path, origin) else old(fs.tree)
      ensures !rename && path !in old(fs.tree) ==>
        err == Some(Wrapped("backup origin", FsFailed("stat"))) && fs.tree == old(fs.tree)
      ensures !rename && IsDirAt(old(fs.tree), path) ==>
        && Confined(old(fs.tree), fs.tree, path, origin)
        && (err.None? ==> MkdirAllOk(old(fs.tree), origin) && fs.tree == MoveTree(old(fs.tree), path, origin))
        && (Copyable(old(fs.tree), path, origin) ==> err.None?)
      ensures !rename && IsFileAt(old(fs.tree), path) ==>
        && (err.None? <==> CanCreate(old(fs.tree), origin))
        && fs.tree == if err.None? then MovedFile(old(fs.tree), path, origin) else old(fs.tree)
    {
      if rename {
        err := fs.Rename(path, origin);
      } else {
        err := MoveEntry(origin, path);
      }
    }

    /** Backup.Close: remove the backup directory and all it holds. */
    method Close() returns (err: Option<Error>)
      requires Valid()
      modifies fs
      ensures Valid() && err.None?
      ensures fs.tree == RemoveAll(old(fs.tree), dir)
    {
      err := fs.RemoveDir(dir);
    }

    /** Backup.move: a directory moves with DirPath.Move, anything else with
        FilePath.Move; a missing src fails. */
    method MoveEntry(dst: Path, src: Path) returns (err: Option<Error>)
      requires fs.Valid() && Disjoint(src, dst)
      modifies fs
      ensures fs.Valid()
      ensures src !in old(fs.tree) ==>
        err == Some(Wrapped("backup origin", FsFailed("stat"))) && fs.tree == old(fs.tree)
      ensures IsDirAt(old(fs.tree), src) ==>
        && Confined(old(fs.tree), fs.tree, src, dst)
        && (err.None? ==> MkdirAllOk(old(fs.tree), dst) && fs.tree == MoveTree(old(fs.tree), src, dst))
        && (Copyable(old(fs.tree), src, dst) ==> err.None?)
      ensures IsFileAt(old(fs.tree), src) ==>
        && (err.None? <==> CanCreate(old(fs.tree), dst))
        && fs.tree == if err.None? then MovedFile(old(fs.tree), src, dst) else old(fs.tree)
    {
      var isDir, e := fs.IsDir(src);
      if e.Some? {
        return Some(Wrapped("backup origin", e.value));
      }
      if isDir {
        err := fs.MoveDir(src, dst);
      } else {
        err := fs.MoveFile(src, dst);
      }
    }

    /** Backup.copy: a directory copies with DirPath.Copy, anything else
        with FilePath.Copy; a missing src fails. */
    method CopyEntry(dst: Path, src: Path) returns (err: Option<Error>)
      requires fs.Valid() && Disjoint(src, dst)
      modifies fs
      ensures fs.Valid()
      ensures src !in old(fs.tree) ==>
        err == Some(Wrapped("backup origin", FsFailed("stat"))) && fs.tree == old(fs.tree)
      ensures IsDirAt(old(fs.tree), src) ==>
        && OnlyInside(old(fs.tree), fs.tree, dst)
        && (err.None? ==> MkdirAllOk(old(fs.tree), dst) && fs.tree == CopyTree(old(fs.tree), src, dst))
        && (Copyable(old(fs.tree), src, dst) ==> err.None?)
      ensures IsFileAt(old(fs.tree), src) ==>
        && (err.None? <==> CanCreate(old(fs.tree), dst))
        && fs.tree == if err.None? then CopiedFile(old(fs.tree), src, dst) else old(fs.tree)
    {
      var isDir, e := fs.IsDir(src);
      if e.Some? {
        return Some(Wrapped("backup origin", e.value));
      }
      if isDir {
        err := fs.CopyDir(src, dst);
      } else {
        err := fs.CopyFile(src, dst);
        if err.None? {
          assert old(fs.tree)[dst := File("")][dst := old(fs.tree)[src]] == old(fs.tree)[dst := old(fs.tree)[src]];
        }
      }
    }
  }
}
