/** The strategy engine: four observed signals select one update strategy,
    and each strategy tag selects the runner that carries it out. */
module Strategy {

  datatype RepoExistence = REnone | REexist
  datatype LockExistence = LEnone | LEexist
  datatype RepoStatus = RSunknown | RSconflict | RSmatch
  datatype UpdateSpec = USunspec | USforce | USretry

  datatype Type =
    | Tunknown
    | TinitFromEmpty
    | TinitFromEmptyToLock
    | TinitFromEmptyToLatest
    | TcreateLock
    | TcreateLatestLock
    | TupdateToLock
    | TupdateToLatestWithLock
    | Tnoop
    | Tretry

  datatype Fact = Fact(rExist: RepoExistence, lExist: LockExistence, rStatus: RepoStatus, uSpec: UpdateSpec)

  /** Spec values that do not ask for a forced update. */
  predicate NotForced(us: UpdateSpec)
  {
    us == USunspec || us == USretry
  }

  /** `Fact.SelectStrategy`. Each ensures gives the full set of facts that
      select one tag, so together they partition the 36 facts. */
  function SelectStrategy(f: Fact): (t: Type)
    ensures t == TinitFromEmpty <==> f.rExist == REnone && f.lExist == LEnone
    ensures t == TinitFromEmptyToLock <==> f.rExist == REnone && f.lExist == LEexist && NotForced(f.uSpec)
    ensures t == TinitFromEmptyToLatest <==> f.rExist == REnone && f.lExist == LEexist && f.uSpec == USforce
    ensures t == TcreateLock <==> f.rExist == REexist && f.lExist == LEnone && NotForced(f.uSpec)
    ensures t == TcreateLatestLock <==> f.rExist == REexist && f.lExist == LEnone && f.uSpec == USforce
    ensures t == TupdateToLock <==>
      f.rExist == REexist && f.lExist == LEexist && f.rStatus == RSconflict && NotForced(f.uSpec)
    ensures t == TupdateToLatestWithLock <==>
      f.rExist == REexist && f.lExist == LEexist && f.uSpec == USforce
    ensures t == Tnoop <==>
      f.rExist == REexist && f.lExist == LEexist && f.rStatus == RSmatch && f.uSpec == USunspec
    ensures t == Tretry <==>
      f.rExist == REexist && f.lExist == LEexist && f.rStatus == RSmatch && f.uSpec == USretry
    ensures t == Tunknown <==>
      f.rExist == REexist && f.lExist == LEexist && f.rStatus == RSunknown && NotForced(f.uSpec)
  {
    match f.rExist
    case REnone =>
      (match f.lExist
       case LEnone => TinitFromEmpty
       case LEexist =>
         (match f.uSpec
          case USunspec => TinitFromEmptyToLock
          case USretry => TinitFromEmptyToLock
          case USforce => TinitFromEmptyToLatest))
    case REexist =>
      (match f.lExist
       case LEnone =>
         (match f.uSpec
          case USunspec => TcreateLock
          case USretry => TcreateLock
          case USforce => TcreateLatestLock)
       case LEexist =>
         (match f.rStatus
          case RSconflict =>
            (match f.uSpec
             case USunspec => TupdateToLock
             case USretry => TupdateToLock
             case USforce => TupdateToLatestWithLock)
          case RSmatch =>
            (match f.uSpec
             case USunspec => Tnoop
             case USretry => Tretry
             case USforce => TupdateToLatestWithLock)
          case RSunknown =>
            (match f.uSpec
             case USforce => TupdateToLatestWithLock
             case USunspec => Tunknown
             case USretry => Tunknown)))
  }

  /** The runners of strategy/run.go, without their configuration. */
  datatype RunnerKind =
    | InitFromEmptyRunner
    | InitFromEmptyToLockRunner
    | InitFromEmptyToLatestRunner
    | CreateLockRunner
    | CreateLatestLockRunner
    | UpdateToLockRunner
    | UpdateToLatestWithLockRunner
    | NoopRunner
    | RetryRunner
    | NoUpdateRunner
    | UnknownRunner

  /** `Type.Runner`: every listed tag gets its own runner; `Tunknown`, the
      default arm, gets the runner that always fails. `NoUpdateRunner` is
      declared in run.go but never chosen here. */
  function Runner(t: Type): (r: RunnerKind)
    ensures r != NoUpdateRunner
    ensures r == NoopRunner <==> t == Tnoop
    ensures r == RetryRunner <==> t == Tretry
    ensures r == UnknownRunner <==> t == Tunknown
    ensures r == InitFromEmptyRunner <==> t == TinitFromEmpty
    ensures r == InitFromEmptyToLockRunner <==> t == TinitFromEmptyToLock
    ensures r == InitFromEmptyToLatestRunner <==> t == TinitFromEmptyToLatest
    ensures r == CreateLockRunner <==> t == TcreateLock
    ensures r == CreateLatestLockRunner <==> t == TcreateLatestLock
    ensures r == UpdateToLockRunner <==> t == TupdateToLock
    ensures r == UpdateToLatestWithLockRunner <==> t == TupdateToLatestWithLock
  {
    match t
    case TinitFromEmpty => InitFromEmptyRunner
    case TinitFromEmptyToLock => InitFromEmptyToLockRunner
    case TinitFromEmptyToLatest => InitFromEmptyToLatestRunner
    case TcreateLock => CreateLockRunner
    case TcreateLatestLock => CreateLatestLockRunner
    case TupdateToLock => UpdateToLockRunner
    case TupdateToLatestWithLock => UpdateToLatestWithLockRunner
    case Tnoop => NoopRunner
    case Tretry => RetryRunner
    case Tunknown => UnknownRunner
  }

  /** With neither a repository nor a lock, every status and every spec
      clones from scratch. */
  lemma InitFromEmptyEverywhere(rs: RepoStatus, us: UpdateSpec)
    ensures SelectStrategy(Fact(REnone, LEnone, rs, us)) == TinitFromEmpty
  {
  }

  /** Only an existing repository with an existing lock whose status cannot
      be read, without force, reaches the fatal `Tunknown` runner. */
  lemma UnknownOnlyWhenStatusUnread(f: Fact)
    ensures Runner(SelectStrategy(f)) == UnknownRunner <==>
      f.rExist == REexist && f.lExist == LEexist && f.rStatus == RSunknown && f.uSpec != USforce
  {
  }
}
