/** A command under `assert_lock_file`, run inside `main_error_handler`. */
module LockedCommand {
  import opened Common
  import opened Config

  datatype Exception =
    | KeyboardInterrupt
    | UrlError
    | LockHeld
    | UserFacing(exitCode: int)
    | Unexpected
    | SystemExit(status: int)

  datatype Ending = Returned(code: int) | Raised(exception: Exception)

  /** How the wrapped function ends, and the lock and notices it leaves behind: anything at all. */
  datatype Body = Body(ending: Ending, lockFile: Option<Lock>, notices: Option<seq<Notice>>)

  /** Exceptions after which the error handler clears the lock that this process has taken. */
  predicate Clears(e: Exception) {
    !e.LockHeld? && !e.SystemExit?
  }

  function ExitCode(e: Exception): int {
    match e
    case UserFacing(code) => code
    case SystemExit(status) => status
    case _ => 1
  }

  ghost function Code(e: Ending): int {
    if e.Returned? then e.code else ExitCode(e.exception)
  }

  ghost function NoticesOf(body: Body): seq<Notice> {
    if body.notices.Some? then body.notices.value else []
  }

  /** A live lock; a non-root user cannot tell a stale one apart. */
  ghost predicate Refused(lock: Option<Lock>, alive: int -> bool, root: bool) {
    lock.Some? && lock.value.pid > 0 && (alive(lock.value.pid) || !root)
  }

  ghost predicate NoOperationNotice(notices: seq<Notice>) {
    forall n :: n in notices ==> !("Operation in progress" <= n.description)
  }

  /** The body takes its lock along: it exits, or it meets the lock of another command. */
  ghost predicate KeepsLock(e: Ending) {
    e == Raised(LockHeld) || exists status :: e == Raised(SystemExit(status))
  }

  class Process {
    const pid: int
    const cfg: UAConfig
    var clearLockFile: bool // whether _CLEAR_LOCK_FILE is set

    constructor (pid: int, cfg: UAConfig)
      ensures this.pid == pid && this.cfg == cfg && !clearLockFile
    {
      this.pid, this.cfg, clearLockFile := pid, cfg, false;
    }

    /** The notice is added twice in a row, hence once. */
    method TakeLock(holder: string)
      modifies this, cfg`lockFile, cfg`noticesFile
      ensures clearLockFile && cfg.lockFile == Some(Lock(pid, holder))
      ensures var n := Notice("", "Operation in progress: " + holder);
        cfg.Notices() == if n in old(cfg.Notices()) then old(cfg.Notices()) else old(cfg.Notices()) + [n]
    {
      cfg.WriteLock(Lock(pid, holder));
      cfg.AddNotice(OperationNotice(holder));
      clearLockFile := true;
    }

    method ClearLock()
      requires cfg.Valid()
      modifies cfg
      ensures cfg.Valid() && cfg.lockFile == None && cfg.Notices() == Keep(old(cfg.Notices()), IsOperation)
    {
      var _ := cfg.DeleteCacheKey("lock");
    }

    /** The wrapped function does what it likes to the lock and the notices; the lock is released if it returns. */
    method RunBody(body: Body)
      requires cfg.Valid()
      modifies this, cfg
      ensures cfg.Valid() && clearLockFile == (old(clearLockFile) && body.ending.Raised?)
      ensures body.ending.Raised? ==> cfg.lockFile == body.lockFile && cfg.noticesFile == body.notices
      ensures body.ending.Returned? ==> cfg.lockFile == None && cfg.Notices() == Keep(NoticesOf(body), IsOperation)
    {
      cfg.LeaveFiles(body.lockFile, body.notices);
      assert cfg.Notices() == NoticesOf(body);
      if body.ending.Returned? {
        ClearLock();
        clearLockFile := false;
      }
    }

    method RunHolding(holder: string, body: Body)
      requires cfg.Valid()
      modifies this, cfg
      ensures cfg.Valid() && clearLockFile == body.ending.Raised?
      ensures body.ending.Raised? ==> cfg.lockFile == body.lockFile && cfg.noticesFile == body.notices
      ensures body.ending.Returned? ==> cfg.lockFile == None && cfg.Notices() == Keep(NoticesOf(body), IsOperation)
    {
      TakeLock(holder);
      assert cfg.Valid();
      RunBody(body);
    }

    /** The decorator: refuse under a live lock, else take the lock, run, and release it on return. */
    method WithLock(holder: string, alive: int -> bool, root: bool, body: Body) returns (r: Ending)
      requires cfg.Valid() && !clearLockFile
      modifies this, cfg
      ensures cfg.Valid()
      ensures old(Refused(cfg.lockFile, alive, root)) ==> r == Raised(LockHeld)
      ensures old(Refused(cfg.lockFile, alive, root)) ==>
        !clearLockFile && cfg.lockFile == old(cfg.lockFile) && cfg.noticesFile == old(cfg.noticesFile)
      ensures !old(Refused(cfg.lockFile, alive, root)) ==> r == body.ending && clearLockFile == r.Raised?
      ensures clearLockFile ==> cfg.lockFile == body.lockFile && cfg.noticesFile == body.notices
      ensures !old(Refused(cfg.lockFile, alive, root)) && !clearLockFile ==>
        cfg.lockFile == None && cfg.Notices() == Keep(NoticesOf(body), IsOperation)
    {
      var lock := cfg.CheckLockInfo(alive, root);
      if lock.Some? && lock.value.pid > 0 {
        return Raised(LockHeld);
      }
      RunHolding(holder, body);
      return body.ending;
    }

    /** The whole command. A refused command changes neither lock nor notices. Otherwise neither the lock nor an
        operation notice is left, unless the body raises SystemExit, or the LockHeldError of another command: then what
        the body left stays, the taken lock included. */
    method Run(holder: string, alive: int -> bool, root: bool, body: Body) returns (exit: int)
      requires cfg.Valid() && !clearLockFile
      modifies this, cfg
      ensures cfg.Valid()
      ensures old(Refused(cfg.lockFile, alive, root)) ==>
        exit == 1 && cfg.lockFile == old(cfg.lockFile) && cfg.noticesFile == old(cfg.noticesFile)
      ensures !old(Refused(cfg.lockFile, alive, root)) ==>
        match body.ending {
          case Returned(code) => exit == code
          case Raised(UserFacing(code)) => exit == code
          case Raised(SystemExit(status)) => exit == status
          case Raised(_) => exit == 1
        }
      ensures !old(Refused(cfg.lockFile, alive, root)) && !KeepsLock(body.ending) ==>
        && cfg.lockFile == None && NoOperationNotice(cfg.Notices()) && OperationsGone(NoticesOf(body), cfg.Notices())
        && cfg.Notices() == Keep(NoticesOf(body), IsOperation)
      ensures !old(Refused(cfg.lockFile, alive, root)) && KeepsLock(body.ending) ==>
        cfg.lockFile == body.lockFile && cfg.noticesFile == body.notices
    {
      var r := WithLock(holder, alive, root, body);
      KeepAre(NoticesOf(body), IsOperation);
      if r.Returned? {
        return r.code;
      }
      if clearLockFile && Clears(r.exception) {
        ClearLock();
      }
      return ExitCode(r.exception);
    }
  }

  /** A body that leaves its lock alone keeps the files free of it for the next command, whoever runs it. */
  method RunTwice(p: Process, q: Process, holder: string, alive: int -> bool, root: bool, first: Body, second: Body)
    returns (exit: int)
    requires p.cfg == q.cfg && p != q && p.cfg.Valid() && !p.clearLockFile && !q.clearLockFile
    requires p.cfg.lockFile == None
    requires !KeepsLock(first.ending) && !KeepsLock(second.ending)
    modifies p, q, p.cfg
    ensures exit == Code(second.ending) && p.cfg.lockFile == None && NoOperationNotice(p.cfg.Notices())
  {
    var _ := p.Run(holder, alive, root, first);
    exit := q.Run(holder, alive, root, second);
  }

  /** A body that exits, as the script run at boot does on a failed refresh, leaves its lock and notice behind. The next
      command is refused exactly when a process has that pid again or the user is not root; otherwise it removes the
      stale lock, and it clears up the notice as well. */
  method ExitLeavesLock(p: Process, q: Process, holder: string, alive: int -> bool, root: bool, status: int,
                        notices: Option<seq<Notice>>, second: Body)
    returns (exit: int)
    requires p.cfg == q.cfg && p != q && p.cfg.Valid() && !p.clearLockFile && !q.clearLockFile
    requires p.cfg.lockFile == None && p.pid > 0
    modifies p, q, p.cfg
    ensures alive(p.pid) || !root ==>
      exit == 1 && p.cfg.lockFile == Some(Lock(p.pid, holder)) && p.cfg.noticesFile == notices
    ensures !alive(p.pid) && root ==>
      exit == Code(second.ending) &&
      (!KeepsLock(second.ending) ==> p.cfg.lockFile == None && NoOperationNotice(p.cfg.Notices()))
  {
    var exiting := Body(Raised(SystemExit(status)), Some(Lock(p.pid, holder)), notices);
    var _ := p.Run(holder, alive, root, exiting);
    assert p.cfg.lockFile == Some(Lock(p.pid, holder)) && p.cfg.noticesFile == notices;
    exit := q.Run(holder, alive, root, second);
  }
}
