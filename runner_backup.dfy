/** The backups taken before an installation (runner/backup.go): which
    backup a run needs, and the lock-file and repository backups that stage
    a copy in a fresh temporary directory and later put it back. */
module RunnerBackup {
  import opened Errors
  import opened FsTree
  import opened Fs
  import B = Backup

  /** Which backup a run builds: none, the lock file's, or the repository
      directory's. */
  datatype Choice = NoopBackup | LockFileBackup(origin: Path, commit: string) | RepoBackup(gitWorkDir: Path)

  /** `NewLockFileBackup`: needed for a clean run or an explicit commit. */
  function NewLockFileBackup(origin: Path, commit: string, clean: bool): (c: Choice)
    ensures c.NoopBackup? <==> !clean && commit == ""
    ensures !c.NoopBackup? ==> c == LockFileBackup(origin, commit)
  {
    if !(clean || commit != "") then NoopBackup else LockFileBackup(origin, commit)
  }

  /** `NewRepoBackup`: needed for a clean run or when the repository
      directory exists (DirPath.Exist). */
  function NewRepoBackup(gitWorkDir: Path, repoExists: bool, clean: bool): (c: Choice)
    ensures c.NoopBackup? <==> !clean && !repoExists
    ensures !c.NoopBackup? ==> c == RepoBackup(gitWorkDir)
  {
    if !(clean || repoExists) then NoopBackup else RepoBackup(gitWorkDir)
  }

  /** `NoopBackup`: both operations succeed and change nothing. */
  class Noop {
    constructor ()
    {
    }

    method Create() returns (err: Option<Error>)
      ensures err.None?
    {
      return None;
    }

    method Restore() returns (err: Option<Error>)
      ensures err.None?
    {
      return None;
    }
  }

  /** Put a staged entry back by moving it, then remove the staging
      directory whatever happened (the deferred Close of both Restore
      methods). */
  method RestoreAndClose(b: B.Backup) returns (err: Option<Error>)
    requires b.Valid() && Disjoint(b.origin, b.dir)
    modifies b.fs
    ensures b.fs.Valid()
    ensures b.dir !in b.fs.tree
    ensures b.path !in old(b.fs.tree) ==>
      err == Some(Wrapped("backup origin", FsFailed("stat"))) && b.fs.tree == RemoveAll(old(b.fs.tree), b.dir)
    ensures IsFileAt(old(b.fs.tree), b.path) ==>
      && (err.None? <==> CanCreate(old(b.fs.tree), b.origin))
      && b.fs.tree == RemoveAll(if err.None? then B.MovedFile(old(b.fs.tree), b.path, b.origin)
                                else old(b.fs.tree), b.dir)
    ensures IsDirAt(old(b.fs.tree), b.path) ==>
      && (err.None? ==> MkdirAllOk(old(b.fs.tree), b.origin)
                        && b.fs.tree == RemoveAll(MoveTree(old(b.fs.tree), b.path, b.origin), b.dir))
      && (Copyable(old(b.fs.tree), b.path, b.origin) ==> err.None?)
      && (forall q :: q in old(b.fs.tree) && !Under(q, b.origin) && !Under(q, b.dir) ==>
            q in b.fs.tree && b.fs.tree[q] == old(b.fs.tree)[q])
      && (forall q :: q in b.fs.tree && q !in old(b.fs.tree) ==> Under(q, b.origin) || Under(b.origin, q))
  {
    B.StageApart(b.origin, b.dir);
    err := b.Restore(false);
    var _ := b.Close();
  }

  /** `runner.LockFileBackup`. */
  class LockFile {
    const fs: FileSystem
    const origin: Path
    const commit: string
    var backupFile: B.Backup?

    /** A successful Create happened: the staged copy is ready to go back. */
    ghost predicate Ready()
      reads this, backupFile, fs
    {
      && backupFile != null && backupFile.fs == fs && backupFile.Valid()
      && backupFile.origin == origin && Disjoint(origin, backupFile.dir)
    }

    constructor (fs: FileSystem, origin: Path, commit: string)
      ensures this.fs == fs && this.origin == origin && this.commit == commit && backupFile == null
    {
      this.fs := fs;
      this.origin := origin;
      this.commit := commit;
      this.backupFile := null;
    }

    /** `LockFileBackup.Create` in the fresh temporary directory tmp: copy
        the lock file into it, then overwrite the lock file with commit.
        The backup is recorded only when every step succeeded, which is
        exactly when tmp could be made and the lock file is a file. */
    method Create(tmp: Path) returns (err: Option<Error>)
      requires fs.Valid() && Disjoint(origin, tmp)
      modifies fs, this
      ensures fs.Valid()
      ensures err.None? <==> CanCreate(old(fs.tree), tmp) && tmp !in old(fs.tree) && IsFileAt(old(fs.tree), origin)
      ensures err.Some? ==> backupFile == old(backupFile) && OnlyInside(old(fs.tree), fs.tree, tmp)
      ensures err.Some? && !IsDirAt(old(fs.tree), origin) ==>
        fs.tree == if CanCreate(old(fs.tree), tmp) && tmp !in old(fs.tree) then old(fs.tree)[tmp := Dir] else old(fs.tree)
      ensures err.None? ==>
        && Ready() && fresh(backupFile) && backupFile.dir == tmp
        && fs.tree == old(fs.tree)[tmp := Dir][B.StagePath(tmp, origin) := old(fs.tree)[origin]][origin := File(commit)]
    {
      ghost var t0 := fs.tree;
      var b, e := B.Backup.IntoTempDir(fs, tmp, origin);
      if e.Some? {
        return Some(Wrapped("create backup", e.value));
      }
      B.StageApart(origin, tmp);
      ghost var t1 := fs.tree;
      assert DirOf(b.path) == tmp;
      assert b.path !in t1;
      assert OnlyInside(t0, t1, tmp);
      e := b.Copy();
      if IsDirAt(t1, origin) {
        OnlyInsideChild(t0, t1, fs.tree, tmp, origin[|origin| - 1]);
      }
      if e.Some? {
        return Some(Wrapped("move backup", e.value));
      }
      if IsDirAt(t0, origin) {
        assert origin in fs.tree && fs.tree[origin] == Dir;
      }
      e := fs.WriteFile(origin, commit);
      if e.Some? {
        return Some(Wrapped("override commit", e.value));
      }
      backupFile := b;
      return None;
    }

    /** `LockFileBackup.Restore`: move the staged lock file back over the
        lock file and remove the temporary directory in every case. */
    method Restore() returns (err: Option<Error>)
      requires Ready()
      modifies fs
      ensures fs.Valid()
      ensures backupFile.dir !in fs.tree
      ensures backupFile.path !in old(fs.tree) ==>
        err == Some(Wrapped("backup origin", FsFailed("stat"))) && fs.tree == RemoveAll(old(fs.tree), backupFile.dir)
      ensures IsFileAt(old(fs.tree), backupFile.path) ==>
        && (err.None? <==> CanCreate(old(fs.tree), origin))
        && fs.tree == RemoveAll(if err.None? then B.MovedFile(old(fs.tree), backupFile.path, origin)
                                else old(fs.tree), backupFile.dir)
        && (err.None? ==> IsFileAt(fs.tree, origin) && fs.tree[origin] == old(fs.tree)[backupFile.path])
      ensures IsDirAt(old(fs.tree), backupFile.path) ==>
        && (err.None? ==> MkdirAllOk(old(fs.tree), origin)
                          && fs.tree == RemoveAll(MoveTree(old(fs.tree), backupFile.path, origin), backupFile.dir))
        && (Copyable(old(fs.tree), backupFile.path, origin) ==> err.None?)
        && (forall q :: q in old(fs.tree) && !Under(q, origin) && !Under(q, backupFile.dir) ==>
              q in fs.tree && fs.tree[q] == old(fs.tree)[q])
        && (forall q :: q in fs.tree && q !in old(fs.tree) ==> Under(q, origin) || Under(origin, q))
    {
      B.StageApart(origin, backupFile.dir);
      err := RestoreAndClose(backupFile);
    }
  }

  /** `runner.RepoBackup`. */
  class Repo {
    const fs: FileSystem
    const gitWorkDir: Path
    var backupDir: B.Backup?

    ghost predicate Ready()
      reads this, backupDir, fs
    {
      && backupDir != null && backupDir.fs == fs && backupDir.Valid()
      && backupDir.origin == gitWorkDir && Disjoint(gitWorkDir, backupDir.dir)
    }

    constructor (fs: FileSystem, gitWorkDir: Path)
      ensures this.fs == fs && this.gitWorkDir == gitWorkDir && backupDir == null
    {
      this.fs := fs;
      this.gitWorkDir := gitWorkDir;
      this.backupDir := null;
    }

    /** `RepoBackup.Create` in the fresh temporary directory tmp: copy the
        repository directory into it and leave the original in place. */
    method Create(tmp: Path) returns (err: Option<Error>)
      requires fs.Valid() && Disjoint(gitWorkDir, tmp)
      modifies fs, this
      ensures fs.Valid()
      ensures err.Some? ==> backupDir == old(backupDir)
      ensures OnlyInside(old(fs.tree), fs.tree, tmp)
      ensures gitWorkDir !in old(fs.tree) ==> err.Some?
      ensures err.None? ==>
        && Ready() && fresh(backupDir) && backupDir.dir == tmp
        && B.Staged(old(fs.tree), fs.tree, gitWorkDir, backupDir.path)
        && (forall q :: q in old(fs.tree) && Under(q, gitWorkDir) ==> q in fs.tree && fs.tree[q] == old(fs.tree)[q])
    {
      ghost var t0 := fs.tree;
      var b, e := B.Backup.IntoTempDir(fs, tmp, gitWorkDir);
      if e.Some? {
        return Some(Wrapped("create backup", e.value));
      }
      B.StageApart(gitWorkDir, tmp);
      ghost var t1 := fs.tree;
      assert forall q :: q in t0 && Under(q, gitWorkDir) ==> q in t1 && t1[q] == t0[q] by {
        forall q | q in t0 && Under(q, gitWorkDir)
          ensures q in t1 && t1[q] == t0[q]
        {
          if q == tmp {
            assert false;
          }
        }
      }
      assert OnlyInside(t0, t1, tmp);
      e := b.Copy();
      if IsDirAt(t1, gitWorkDir) {
        OnlyInsideChild(t0, t1, fs.tree, tmp, gitWorkDir[|gitWorkDir| - 1]);
      }
      if e.Some? {
        return Some(Wrapped("move backup", e.value));
      }
      KeepsAndStages(t0, t1, fs.tree, gitWorkDir, b.path);
      backupDir := b;
      return None;
    }

    /** `RepoBackup.Restore`: move the staged directory back and remove the
        temporary directory in every case. */
    method Restore() returns (err: Option<Error>)
      requires Ready()
      modifies fs
      ensures fs.Valid()
      ensures backupDir.dir !in fs.tree
      ensures backupDir.path !in old(fs.tree) ==>
        err == Some(Wrapped("backup origin", FsFailed("stat"))) && fs.tree == RemoveAll(old(fs.tree), backupDir.dir)
      ensures IsFileAt(old(fs.tree), backupDir.path) ==>
        && (err.None? <==> CanCreate(old(fs.tree), gitWorkDir))
        && fs.tree == RemoveAll(if err.None? then B.MovedFile(old(fs.tree), backupDir.path, gitWorkDir)
                                else old(fs.tree), backupDir.dir)
      ensures IsDirAt(old(fs.tree), backupDir.path) ==>
        && (err.None? ==> MkdirAllOk(old(fs.tree), gitWorkDir)
                          && fs.tree == RemoveAll(MoveTree(old(fs.tree), backupDir.path, gitWorkDir), backupDir.dir))
        && (Copyable(old(fs.tree), backupDir.path, gitWorkDir) ==> err.None?)
        && (forall q :: q in old(fs.tree) && !Under(q, gitWorkDir) && !Under(q, backupDir.dir) ==>
              q in fs.tree && fs.tree[q] == old(fs.tree)[q])
        && (forall q :: q in fs.tree && q !in old(fs.tree) ==> Under(q, gitWorkDir) || Under(gitWorkDir, q))
    {
      err := RestoreAndClose(backupDir);
    }
  }

  /** A copy of o to b in t1, which agrees with t0 inside o, stages t0's o
      and keeps o itself. */
  lemma KeepsAndStages(t0: Tree, t1: Tree, t2: Tree, o: Path, b: Path)
    requires Wf(t1) && Disjoint(o, b) && o in t1
    requires forall q :: q in t0 && Under(q, o) ==> q in t1 && t1[q] == t0[q]
    requires IsDirAt(t1, o) ==> MkdirAllOk(t1, b) && t2 == CopyTree(t1, o, b)
    requires IsFileAt(t1, o) ==> t2 == t1[b := t1[o]]
    ensures B.Staged(t0, t2, o, b)
    ensures forall q :: q in t0 && Under(q, o) ==> q in t2 && t2[q] == t0[q]
  {
    if IsDirAt(t1, o) {
      B.CopyStages(t1, o, b);
      forall q | q in t0 && Under(q, o)
        ensures q in t2 && t2[q] == t0[q]
      {
        GraftKeepsSource(t1, o, b, Subtree(t1, o), q);
      }
    } else {
      forall q | q in t0 && Under(q, o)
        ensures q == o
      {
        FileIsLeaf(t1, o, q);
      }
      assert Image(o, o, b) == b;
    }
  }
}
