/** Fact inspection (inspect/inspect.go): each signal of a Fact is a
    function of what was observed of the lock file and of the repository.
    The lock content is compared as read, without trimming. */
module Inspect {
  import opened Errors
  import opened FsTree
  import opened Fs
  import opened Git
  import opened Strategy

  /** What a read or a git query gave: a string, or an error. */
  datatype Reading = Value(s: string) | Failure(err: Error)

  /** inspect.RepoStatus from whether the lock file exists, its read, and
      the repository's commit hash query (asked only when the lock file
      exists and reads). */
  function RepoStatusOf(lockExists: bool, lock: Reading, hash: Reading): (r: RepoStatus)
    ensures r == RSunknown <==> !lockExists || lock.Failure? || hash.Failure?
    ensures r == RSmatch <==> lockExists && lock.Value? && hash.Value? && hash.s == lock.s
    ensures r == RSconflict <==> lockExists && lock.Value? && hash.Value? && hash.s != lock.s
  {
    if !lockExists then RSunknown
    else if lock.Failure? then RSunknown
    else if hash.Failure? then RSunknown
    else if hash.s == lock.s then RSmatch
    else RSconflict
  }

  /** inspect.UpdateSpec: retry wins over update. */
  function UpdateSpecOf(update: bool, retry: bool): (r: UpdateSpec)
    ensures r == USretry <==> retry
    ensures r == USforce <==> update && !retry
    ensures r == USunspec <==> !update && !retry
  {
    if retry then USretry
    else if update then USforce
    else USunspec
  }

  /** inspect.LockExistence: a lock exists only as a readable, non-empty
      file. */
  function LockExistenceOf(lockExists: bool, lock: Reading): (r: LockExistence)
    ensures r == LEexist <==> lockExists && lock.Value? && lock.s != ""
  {
    if !lockExists then LEnone
    else if lock.Failure? || lock.s == "" then LEnone
    else LEexist
  }

  /** inspect.RepoExistence: the repository exists when its HEAD hash can
      be read. */
  function RepoExistenceOf(hash: Reading): (r: RepoExistence)
    ensures r == REexist <==> hash.Value?
  {
    if hash.Failure? then REnone else REexist
  }

  /** An existing but empty lock file counts as no lock, while the status
      still compares the empty content with the hash. */
  lemma EmptyLockConflicts(hash: string)
    requires hash != ""
    ensures LockExistenceOf(true, Value("")) == LEnone
    ensures RepoStatusOf(true, Value(""), Value(hash)) == RSconflict
    ensures SelectStrategy(Fact(REexist, LEnone, RSconflict, USunspec)) == TcreateLock
  {
  }

  /** The lock file's read as a Reading. */
  function ReadingOf(r: ReadResult): Reading
  {
    match r
    case Read(content) => Value(content)
    case ReadFailed(e) => Failure(e)
  }

  /** inspect.RepoStatus against a file system and a git client: the hash
      is queried only after the lock file exists and was read. */
  method RepoStatus(fs: FileSystem, git: Client, lockFile: Path) returns (r: RepoStatus)
    modifies git
    ensures var asked := IsFileAt(fs.tree, lockFile);
      && git.Snapshot() == (if asked then Apply(old(git.Snapshot()), GetCommitHash) else old(git.Snapshot()))
      && r == RepoStatusOf(fs.FileExist(lockFile), ReadingOf(ReadTree(fs.tree, lockFile)),
                           if Succeeds(old(git.Snapshot()), GetCommitHash) then Value(old(git.head).value)
                           else Failure(GitFailed("rev-parse")))
  {
    if !fs.FileExist(lockFile) {
      return RSunknown;
    }
    var commit, err := fs.ReadFile(lockFile);
    if err.Some? {
      return RSunknown;
    }
    var current, e := git.GetCommitHash();
    if e.Some? {
      return RSunknown;
    }
    if current == commit {
      return RSmatch;
    }
    return RSconflict;
  }

  /** inspect.LockExistence against a file system. */
  method LockExistence(fs: FileSystem, lockFile: Path) returns (r: LockExistence)
    ensures r == LockExistenceOf(fs.FileExist(lockFile), ReadingOf(ReadTree(fs.tree, lockFile)))
  {
    if !fs.FileExist(lockFile) {
      return LEnone;
    }
    var content, err := fs.ReadFile(lockFile);
    if err.Some? || content == "" {
      return LEnone;
    }
    return LEexist;
  }

  /** inspect.RepoExistence against a git client: one hash query. */
  method RepoExistence(git: Client) returns (r: RepoExistence)
    modifies git
    ensures git.Snapshot() == Apply(old(git.Snapshot()), GetCommitHash)
    ensures r == RepoExistenceOf(if Succeeds(old(git.Snapshot()), GetCommitHash) then Value(old(git.head).value)
                                 else Failure(GitFailed("rev-parse")))
  {
    var _, err := git.GetCommitHash();
    if err.Some? {
      return REnone;
    }
    return REexist;
  }

  /** The hash query's outcome as a Reading. */
  function HashReading(s: State): Reading
  {
    if Succeeds(s, GetCommitHash) then Value(s.head.value) else Failure(GitFailed("rev-parse"))
  }

  /** RepoExistence, LockExistence and RepoStatus in the order the commands
      call them, on tree t and repository s: the fact they give, with the
      update spec us, and the repository after their hash queries. */
  function Inspection(t: Tree, s: State, lockFile: Path, us: UpdateSpec): (r: (Fact, State))
    ensures r.0.uSpec == us
    ensures r.1 == s.(trace := r.1.trace)
    ensures r.1.trace == s.trace + [GetCommitHash] + (if IsFileAt(t, lockFile) then [GetCommitHash] else [])
    ensures r.0.rExist == REexist <==> Succeeds(s, GetCommitHash)
    ensures r.0.lExist == LEexist <==> IsFileAt(t, lockFile) && t[lockFile].content != ""
  {
    var s1 := Apply(s, GetCommitHash);
    var reading := ReadingOf(ReadTree(t, lockFile));
    var asked := IsFileAt(t, lockFile);
    var fact := Fact(RepoExistenceOf(HashReading(s)), LockExistenceOf(asked, reading),
                     RepoStatusOf(asked, reading, HashReading(s1)), us);
    (fact, if asked then Apply(s1, GetCommitHash) else s1)
  }
}
