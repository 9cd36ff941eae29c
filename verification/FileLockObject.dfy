/** `FileLock` as one process runs it while nobody else moves. */
module FileLockObject {
  import opened FileLocks
  import opened Wrappers

  /** The directory entry the path names, shared by every lock object of that path. */
  class LockPath {
    var file: Option<Contents>

    constructor (file: Option<Contents>)
      ensures this.file == file
    {
      this.file := file;
    }
  }

  /** The recorded PID belongs to one of the `live` processes. */
  predicate NamesLive(file: Option<Contents>, live: set<int>) {
    file.Some? && file.value.Pid? && file.value.pid > 0 && file.value.pid in live
  }

  /** The outcome of a call of `acquire`: what the path names, the `_acquired` flag, and whether the call returned. */
  datatype Outcome = Outcome(file: Option<Contents>, acquired: bool, ok: bool)

  function AfterAcquire(file: Option<Contents>, acquired: bool, pid: int, live: set<int>): Outcome {
    if NamesLive(file, live) then Outcome(file, acquired, false) else Outcome(Some(Pid(pid)), true, true)
  }

  class FileLock {
    const path: LockPath
    const pid: int
    var acquired: bool

    constructor (path: LockPath, pid: int)
      ensures this.path == path && this.pid == pid && !acquired
    {
      this.path, this.pid, acquired := path, pid, false;
    }

    method TryCreate() returns (created: bool)
      modifies this, path
      ensures created == old(path.file).None?
      ensures if created then acquired && path.file == Some(Pid(pid))
              else acquired == old(acquired) && path.file == old(path.file)
    {
      if path.file.Some? { return false; }
      path.file := Some(Pid(pid));
      acquired := true;
      return true;
    }

    method ReadPid() returns (holder: Option<int>)
      ensures holder == if path.file.Some? && path.file.value.Pid? then Some(path.file.value.pid) else None
    {
      if path.file.Some? && path.file.value.Pid? { return Some(path.file.value.pid); }
      return None;
    }

    /** `_steal`; `false` stands for the `LockError` of a lost race. */
    method Steal() returns (ok: bool)
      modifies this, path
      ensures ok && acquired && path.file == Some(Pid(pid))
    {
      path.file := None;
      ok := TryCreate();
    }

    /** `acquire`; `false` stands for `LockError`. A live holder is never robbed, anything else never blocks. */
    method Acquire(live: set<int>) returns (ok: bool)
      modifies this, path
      ensures ok <==> !NamesLive(old(path.file), live)
      ensures if ok then acquired && path.file == Some(Pid(pid))
              else acquired == old(acquired) && path.file == old(path.file)
      ensures Outcome(path.file, acquired, ok) == AfterAcquire(old(path.file), old(acquired), pid, live)
    {
      ok := TryCreate();
      if ok { return true; }
      var holder := ReadPid();
      if holder.Some? && holder.value > 0 && holder.value in live { return false; }
      ok := Steal();
    }

    /** `release`: only an acquired lock unlinks. */
    method Release()
      modifies this, path
      ensures !acquired
      ensures path.file == if old(acquired) then None else old(path.file)
    {
      if !acquired { return; }
      path.file := None;
      acquired := false;
    }
  }

  /** What the path names in a state of the protocol. */
  function Named(s: State): Option<Contents> {
    if s.file.Some? then Some(s.file.value.contents) else None
  }

  /**
   * The object does in one go what its protocol does alone, step by step, under any atomicity: path, flag and outcome
   * are those of `AfterAcquire`, which is what the object's method leaves.
   */
  lemma {:induction false} AcquireIsLoneAcquire(cfg: Atomicity, s: State, l: LockId, live: set<int>)
    requires CanRun(s, l) && s.locks[l].pc == Idle && !s.locks[l].acquired && live == s.live.Values
    ensures var r := LoneAcquire(cfg, s, l);
            && l in r.locks && r.locks[l].pc == Idle
            && Outcome(Named(r), r.locks[l].acquired, r.locks[l].acquired)
               == AfterAcquire(Named(s), s.locks[l].acquired, s.locks[l].pid, live)
  {
    LoneAcquireIff(cfg, s, l);
  }
}
