/** The scan lockfile as a protocol between processes: which of its steps must be atomic for mutual exclusion. */
module FileLocks {
  import opened Wrappers

  type Proc = nat
  type LockId = nat

  /** A lockfile holds a decimal PID, or something `int()` rejects - such as nothing, before the PID is written. */
  datatype Contents = Pid(pid: int) | Garbage

  /** The file the path names; a descriptor keeps writing to the inode it opened. */
  datatype LockFile = LockFile(ino: nat, contents: Contents)

  /** Where a lock object is between two system calls. */
  datatype Pc =
    | Idle                          // no call under way
    | Creating(ino: nat)            // the file was created, its PID is not written yet
    | Blocked                       // creation failed: read the recorded PID next
    | HasRead(holder: Option<int>)  // judge the recorded PID next
    | Reclaim                       // the holder is gone: unlink next
    | Retry                         // unlinked: create again next
    | Unlinked                      // release has unlinked, its flag is cleared next

  datatype Lock = Lock(proc: Proc, pid: int, acquired: bool, pc: Pc)

  /** `live` maps the running processes to their PIDs. A process never comes back, its PID may. */
  datatype State = State(file: Option<LockFile>, nextIno: nat, live: map<Proc, int>, locks: map<LockId, Lock>)

  /** Which neighbouring steps happen without another process in between. The code itself guarantees none of them. */
  datatype Atomicity = Atomicity(createAndStamp: bool, readAndCheck: bool, checkAndUnlink: bool)

  datatype Action =
    | Begin(l: LockId)      // call acquire: the first exclusive create
    | Advance(l: LockId)    // the next step of the call under way
    | Release(l: LockId)    // call release: unlink
    | Exit(p: Proc)         // a process ends or crashes, wherever its locks are
    | Spawn(p: Proc, pid: int)
    | NewLock(l: LockId, p: Proc)

  /** `_pid_alive` */
  predicate PidAlive(s: State, pid: int) {
    pid > 0 && pid in s.live.Values
  }

  /** `_read_pid` */
  function ReadPid(s: State): Option<int> {
    if s.file.Some? && s.file.value.contents.Pid? then Some(s.file.value.contents.pid) else None
  }

  /** The recorded holder is not a running process: the lock may be stolen. */
  predicate IsGone(s: State, holder: Option<int>) {
    !(holder.Some? && PidAlive(s, holder.value))
  }

  predicate CanRun(s: State, l: LockId) {
    l in s.locks && s.locks[l].proc in s.live
  }

  function Goto(s: State, l: LockId, pc: Pc): State
    requires l in s.locks
  {
    s.(locks := s.locks[l := s.locks[l].(pc := pc)])
  }

  /** `_try_create`, up to the point where another process can interfere. */
  function TryCreate(cfg: Atomicity, s: State, l: LockId): State
    requires l in s.locks
  {
    var k := s.locks[l];
    if s.file.Some? then Goto(s, l, if k.pc == Idle then Blocked else Idle)
    else if cfg.createAndStamp then
      s.(file := Some(LockFile(s.nextIno, Pid(k.pid))), nextIno := s.nextIno + 1,
         locks := s.locks[l := k.(acquired := true, pc := Idle)])
    else
      s.(file := Some(LockFile(s.nextIno, Garbage)), nextIno := s.nextIno + 1,
         locks := s.locks[l := k.(pc := Creating(s.nextIno))])
  }

  /** The PID reaches the inode that was created, which the path may no longer name. */
  function Stamp(s: State, l: LockId, ino: nat): State
    requires l in s.locks
  {
    var file := if s.file.Some? && s.file.value.ino == ino then Some(LockFile(ino, Pid(s.locks[l].pid))) else s.file;
    s.(file := file, locks := s.locks[l := s.locks[l].(acquired := true, pc := Idle)])
  }

  /** The verdict on `holder`, followed by the unlink when nothing comes between. */
  function Judge(cfg: Atomicity, s: State, l: LockId, holder: Option<int>): State
    requires l in s.locks
  {
    if !IsGone(s, holder) then Goto(s, l, Idle)
    else if cfg.checkAndUnlink then Goto(s, l, Retry).(file := None)
    else Goto(s, l, Reclaim)
  }

  /** One step of the system; `None` when the action is not possible in `s`. */
  function Step(cfg: Atomicity, s: State, a: Action): Option<State> {
    match a
    case Begin(l) =>
      if CanRun(s, l) && s.locks[l].pc == Idle then Some(TryCreate(cfg, s, l)) else None
    case Advance(l) =>
      if !CanRun(s, l) then None
      else (match s.locks[l].pc
        case Idle => None
        case Creating(ino) => Some(Stamp(s, l, ino))
        case Blocked =>
          if cfg.readAndCheck then Some(Judge(cfg, s, l, ReadPid(s))) else Some(Goto(s, l, HasRead(ReadPid(s))))
        case HasRead(holder) => Some(Judge(cfg, s, l, holder))
        case Reclaim => Some(Goto(s, l, Retry).(file := None))
        case Retry => Some(TryCreate(cfg, s, l))
        case Unlinked => Some(s.(locks := s.locks[l := s.locks[l].(acquired := false, pc := Idle)])))
    case Release(l) =>
      if !CanRun(s, l) || s.locks[l].pc != Idle then None
      else if !s.locks[l].acquired then Some(s)
      else Some(Goto(s, l, Unlinked).(file := None))
    case Exit(p) => Some(s.(live := s.live - {p}))
    case Spawn(p, pid) =>
      if p in s.live || pid <= 0 || pid in s.live.Values || (exists l | l in s.locks :: s.locks[l].proc == p) then None
      else Some(s.(live := s.live[p := pid]))
    case NewLock(l, p) =>
      if l in s.locks || p !in s.live then None
      else Some(s.(locks := s.locks[l := Lock(p, s.live[p], false, Idle)]))
  }

  /** Any file may lie around at the start - none, garbage, or one that names a live or dead process. */
  ghost predicate Init(s: State) {
    && (forall p | p in s.live :: s.live[p] > 0)
    && forall l | l in s.locks ::
         var k := s.locks[l]; k.proc in s.live && k.pid == s.live[k.proc] && !k.acquired && k.pc == Idle
  }

  function Exec(cfg: Atomicity, s: State, actions: seq<Action>): Option<State> {
    if actions == [] then Some(s)
    else
      var before := Exec(cfg, s, actions[..|actions| - 1]);
      if before.None? then None else Step(cfg, before.value, actions[|actions| - 1])
  }

  /** The lock is held: its owner runs, acquired it, and has not started to give it back. */
  ghost predicate Holds(s: State, l: LockId) {
    CanRun(s, l) && s.locks[l].acquired && s.locks[l].pc != Unlinked
  }

  ghost predicate MutualExclusion(s: State) {
    forall l1, l2 :: Holds(s, l1) && Holds(s, l2) ==> l1 == l2
  }

  /** The file carries the PID of whoever holds the lock. */
  ghost predicate HolderIsRecorded(s: State) {
    forall l :: Holds(s, l) ==> s.file.Some? && s.file.value.contents == Pid(s.locks[l].pid)
  }

  ghost predicate KnownPids(s: State) {
    forall l :: CanRun(s, l) ==> s.locks[l].pid == s.live[s.locks[l].proc] > 0
  }

  /** With every group atomic no lock is ever seen inside one. */
  ghost predicate OutsideGroups(s: State) {
    forall l | l in s.locks :: var pc := s.locks[l].pc; pc == Idle || pc == Blocked || pc == Retry || pc == Unlinked
  }

  ghost predicate Inv(s: State) {
    && (forall p | p in s.live :: s.live[p] > 0)
    && KnownPids(s)
    && OutsideGroups(s)
    && HolderIsRecorded(s)
    && MutualExclusion(s)
  }

  const ATOMIC := Atomicity(true, true, true)

  lemma {:induction false} HolderBlocksStealing(s: State, l: LockId)
    requires Inv(s) && Holds(s, l)
    ensures s.file.Some? && !IsGone(s, ReadPid(s))
  {
    assert s.live[s.locks[l].proc] in s.live.Values;
  }

  /** A free path means nobody holds the lock, so whoever creates the file is alone. */
  lemma {:induction false} InvCreate(s: State, l: LockId)
    requires Inv(s) && CanRun(s, l) && (s.locks[l].pc == Idle || s.locks[l].pc == Retry)
    ensures Inv(TryCreate(ATOMIC, s, l))
  {
    var s' := TryCreate(ATOMIC, s, l);
    assert forall m :: m != l && Holds(s', m) ==> Holds(s, m);
    assert s.file.Some? ==> (Holds(s', l) <==> Holds(s, l));
  }

  /** Only a file that records no live process is unlinked, so no holder loses it. */
  lemma {:induction false} InvJudge(s: State, l: LockId)
    requires Inv(s) && CanRun(s, l) && s.locks[l].pc == Blocked
    ensures Inv(Judge(ATOMIC, s, l, ReadPid(s)))
  {
    var s' := Judge(ATOMIC, s, l, ReadPid(s));
    assert forall m :: Holds(s', m) ==> Holds(s, m);
    forall m | Holds(s, m)
      ensures s'.file == s.file
    {
      HolderBlocksStealing(s, m);
    }
  }

  lemma {:induction false} InvRelease(s: State, l: LockId)
    requires Inv(s) && CanRun(s, l) && s.locks[l].pc == Idle && s.locks[l].acquired
    ensures Inv(Goto(s, l, Unlinked).(file := None))
  {
    var s' := Goto(s, l, Unlinked).(file := None);
    assert Holds(s, l);
    assert forall m :: Holds(s', m) ==> m != l && Holds(s, m);
  }

  lemma {:induction false} InvProcesses(s: State, a: Action, s': State)
    requires Inv(s) && Step(ATOMIC, s, a) == Some(s')
    requires a.Exit? || a.Spawn? || a.NewLock?
    ensures Inv(s')
  {
    assert forall m :: Holds(s', m) ==> Holds(s, m);
  }

  lemma {:induction false} InvStep(s: State, a: Action, s': State)
    requires Inv(s) && Step(ATOMIC, s, a) == Some(s')
    ensures Inv(s')
  {
    hide Inv, TryCreate, Judge;
    match a
    case Begin(l) => InvCreate(s, l);
    case Advance(l) => InvAdvance(s, l, s');
    case Release(l) => if s.locks[l].acquired { InvRelease(s, l); }
    case _ => InvProcesses(s, a, s');
  }

  lemma {:induction false} InvAdvance(s: State, l: LockId, s': State)
    requires Inv(s) && Step(ATOMIC, s, Advance(l)) == Some(s')
    ensures Inv(s')
  {
    var pc := s.locks[l].pc;
    if pc == Blocked {
      InvJudge(s, l);
    } else if pc == Retry {
      InvCreate(s, l);
    } else {
      assert pc == Unlinked;
      assert forall m :: Holds(s', m) ==> Holds(s, m);
    }
  }

  lemma {:induction false} InvRun(s: State, actions: seq<Action>)
    requires Init(s) && Exec(ATOMIC, s, actions).Some?
    ensures Inv(Exec(ATOMIC, s, actions).value)
  {
    if actions != [] {
      InvRun(s, actions[..|actions| - 1]);
      InvStep(Exec(ATOMIC, s, actions[..|actions| - 1]).value, actions[|actions| - 1], Exec(ATOMIC, s, actions).value);
    }
  }

  /**
   * With the three groups atomic: over every interleaving of any number of lock objects, processes ending or crashing
   * anywhere, and PIDs being reused, at most one lock object is held and the file carries its PID.
   */
  lemma {:induction false} AtomicIsSafe(s: State, actions: seq<Action>)
    requires Init(s) && Exec(ATOMIC, s, actions).Some?
    ensures var r := Exec(ATOMIC, s, actions).value;
            MutualExclusion(r) && HolderIsRecorded(r)
  {
    InvRun(s, actions);
  }

  // ---- One process alone ----

  /** Lock `l` goes on until its call ends, for at most `n` steps, and nobody else moves. */
  function Solo(cfg: Atomicity, s: State, l: LockId, n: nat): State
    decreases n
  {
    if n == 0 || Step(cfg, s, Advance(l)).None? then s else Solo(cfg, Step(cfg, s, Advance(l)).value, l, n - 1)
  }

  /** A whole call of `acquire` with nobody in between: seven steps are enough. */
  function LoneAcquire(cfg: Atomicity, s: State, l: LockId): State
    requires l in s.locks
  {
    Solo(cfg, TryCreate(cfg, s, l), l, 6)
  }

  /** `l` has just created the file and written its PID. */
  function Acquired(s: State, l: LockId): State
    requires l in s.locks
  {
    s.(file := Some(LockFile(s.nextIno, Pid(s.locks[l].pid))), nextIno := s.nextIno + 1,
       locks := s.locks[l := s.locks[l].(acquired := true, pc := Idle)])
  }

  lemma {:induction false} CreatesAlone(cfg: Atomicity, s: State, l: LockId, n: nat)
    requires CanRun(s, l) && s.file.None? && n >= 1
    ensures Solo(cfg, TryCreate(cfg, s, l), l, n) == Acquired(s, l)
  {
    var s1 := TryCreate(cfg, s, l);
    if !cfg.createAndStamp {
      var s2 := Stamp(s1, l, s.nextIno);
      assert Step(cfg, s1, Advance(l)) == Some(s2);
      assert s2.locks == Acquired(s, l).locks;
      assert Solo(cfg, s2, l, n - 1) == s2;
    }
  }

  /** Once the holder is judged gone, a lock object left alone acquires - whatever the file has become meanwhile. */
  lemma {:induction false} StealsAlone(cfg: Atomicity, s: State, l: LockId, n: nat)
    requires CanRun(s, l) && n >= 5
    requires var pc := s.locks[l].pc;
             pc == Reclaim || (pc.HasRead? && IsGone(s, pc.holder)) || (pc == Blocked && IsGone(s, ReadPid(s)))
    ensures Solo(cfg, s, l, n) == Acquired(s.(file := None), l)
  {
    var pc := s.locks[l].pc;
    var s1 := Step(cfg, s, Advance(l)).value;
    if pc == Blocked && !cfg.readAndCheck {
      var s2 := Step(cfg, s1, Advance(l)).value;
      assert s1 == Goto(s, l, HasRead(ReadPid(s)));
      assert s2 == Judge(cfg, s1, l, ReadPid(s));
      assert Solo(cfg, s, l, n) == Solo(cfg, s2, l, n - 2);
      JudgedGone(cfg, s, s2, l, n - 2);
    } else if pc == Reclaim {
      JudgedGone(cfg, s, s, l, n);
    } else {
      JudgedGone(cfg, s, s1, l, n - 1);
    }
  }

  lemma {:induction false} JudgedGone(cfg: Atomicity, s: State, r: State, l: LockId, n: nat)
    requires CanRun(s, l) && n >= 3
    requires r == Goto(s, l, Reclaim) || r == Goto(s, l, Retry).(file := None)
    ensures Solo(cfg, r, l, n) == Acquired(s.(file := None), l)
  {
    var free := Goto(s, l, Retry).(file := None);
    if r != free {
      assert r.locks[l := r.locks[l].(pc := Retry)] == free.locks;
      assert Step(cfg, r, Advance(l)) == Some(free);
    }
    var m := if r == free then n else n - 1;
    assert Solo(cfg, r, l, n) == Solo(cfg, free, l, m);
    assert Step(cfg, free, Advance(l)) == Some(TryCreate(cfg, free, l));
    CreatesAlone(cfg, free, l, m - 1);
    assert Acquired(free, l).locks == Acquired(s.(file := None), l).locks;
  }

  /**
   * A lone acquire succeeds exactly when the file does not record a running process: a file left by a dead or garbage
   * holder never blocks it, a live holder always does and keeps its file. This needs no atomicity.
   */
  lemma {:induction false} LoneAcquireIff(cfg: Atomicity, s: State, l: LockId)
    requires CanRun(s, l) && s.locks[l].pc == Idle && !s.locks[l].acquired
    ensures var r := LoneAcquire(cfg, s, l);
            && l in r.locks && r.locks[l].pc == Idle
            && (r.locks[l].acquired <==> IsGone(s, ReadPid(s)))
            && (if r.locks[l].acquired then r == Acquired(s, l) else r == s)
  {
    if s.file.None? {
      CreatesAlone(cfg, s, l, 6);
    } else {
      var b := Goto(s, l, Blocked);
      assert TryCreate(cfg, s, l) == b;
      if IsGone(s, ReadPid(s)) {
        StealsAlone(cfg, b, l, 6);
        assert Acquired(b.(file := None), l).locks == Acquired(s, l).locks;
      } else {
        LosesAlone(cfg, s, b, l);
      }
    }
  }

  lemma {:induction false} LosesAlone(cfg: Atomicity, s: State, b: State, l: LockId)
    requires CanRun(s, l) && s.locks[l].pc == Idle && b == Goto(s, l, Blocked) && !IsGone(s, ReadPid(s))
    ensures Solo(cfg, b, l, 6) == s
  {
    var s1 := Step(cfg, b, Advance(l)).value;
    assert Step(cfg, s, Advance(l)).None?;
    if cfg.readAndCheck {
      assert b.locks[l := b.locks[l].(pc := Idle)] == s.locks;
      assert s1 == s;
    } else {
      assert s1 == Goto(b, l, HasRead(ReadPid(s)));
      assert s1.locks[l := s1.locks[l].(pc := Idle)] == s.locks;
      assert Step(cfg, s1, Advance(l)) == Some(s);
      assert Solo(cfg, b, l, 6) == Solo(cfg, s1, l, 5) == Solo(cfg, s, l, 4);
    }
  }

  // ---- Witness runs ----

  ghost predicate Reaches(cfg: Atomicity, s: State, r: State) {
    exists actions :: Exec(cfg, s, actions) == Some(r)
  }

  lemma {:induction false} ReachesStep(cfg: Atomicity, s: State, q: State, a: Action)
    requires Reaches(cfg, s, q) && Step(cfg, q, a).Some?
    ensures Reaches(cfg, s, Step(cfg, q, a).value)
  {
    var actions :| Exec(cfg, s, actions) == Some(q);
    assert (actions + [a])[..|actions|] == actions;
    assert Exec(cfg, s, actions + [a]) == Step(cfg, q, a);
  }

  lemma {:induction false} ReachesSolo(cfg: Atomicity, s: State, q: State, l: LockId, n: nat)
    requires Reaches(cfg, s, q)
    ensures Reaches(cfg, s, Solo(cfg, q, l, n))
    decreases n
  {
    if n > 0 && Step(cfg, q, Advance(l)).Some? {
      ReachesStep(cfg, s, q, Advance(l));
      ReachesSolo(cfg, s, Step(cfg, q, Advance(l)).value, l, n - 1);
    }
  }

  /** Two processes with one lock object each, no lockfile. */
  const START := State(None, 0, map[1 := 11, 2 := 12],
                       map[1 := Lock(1, 11, false, Idle), 2 := Lock(2, 12, false, Idle)])

  /** Creating and writing the PID apart: the second process takes the empty file for garbage and steals it. */
  lemma {:induction false} TornStamp(cfg: Atomicity) returns (r: State)
    requires !cfg.createAndStamp
    ensures Reaches(cfg, START, r) && !MutualExclusion(r)
  {
    assert Exec(cfg, START, []) == Some(START);
    ReachesStep(cfg, START, START, Begin(1));
    var s1 := TryCreate(cfg, START, 1);
    ReachesStep(cfg, START, s1, Begin(2));
    ReachesSolo(cfg, START, TryCreate(cfg, s1, 2), 2, 6);
    LoneAcquireIff(cfg, s1, 2);
    var s2 := Acquired(s1, 2);
    ReachesStep(cfg, START, s2, Advance(1));
    r := Stamp(s2, 1, 0);
    assert Holds(r, 1) && Holds(r, 2);
  }

  /** The first process acquires and the second one finds the file taken. */
  lemma {:induction false} FirstHolderBlocksSecond(cfg: Atomicity) returns (q: State)
    ensures q == Goto(Acquired(START, 1), 2, Blocked) && Reaches(cfg, START, q)
  {
    assert Exec(cfg, START, []) == Some(START);
    ReachesStep(cfg, START, START, Begin(1));
    ReachesSolo(cfg, START, TryCreate(cfg, START, 1), 1, 6);
    LoneAcquireIff(cfg, START, 1);
    var s1 := Acquired(START, 1);
    ReachesStep(cfg, START, s1, Begin(2));
    q := Goto(s1, 2, Blocked);
  }

  /** The second process has found no holder to wait for: lock 1 was released between its create and its read. */
  lemma {:induction false} ReadsMissingFile(cfg: Atomicity) returns (q: State)
    requires !(cfg.readAndCheck && cfg.checkAndUnlink)
    ensures Reaches(cfg, START, q) && q.file.None? && q.live == START.live && q.locks.Keys == {1, 2}
    ensures q.locks[1] == START.locks[1]
    ensures q.locks[2] == START.locks[2].(pc := if cfg.readAndCheck then Reclaim else HasRead(None))
  {
    hide Exec, Reaches, Solo;
    var s2 := FirstHolderBlocksSecond(cfg);
    var s1 := Acquired(START, 1);
    ReachesStep(cfg, START, s2, Release(1));
    var s3 := Goto(s2, 1, Unlinked).(file := None);
    ReachesStep(cfg, START, s3, Advance(1));
    var s4 := s3.(locks := s3.locks[1 := s3.locks[1].(acquired := false, pc := Idle)]);
    ReachesStep(cfg, START, s4, Advance(2));
    q := Goto(s4, 2, if cfg.readAndCheck then Reclaim else HasRead(None));
    assert Step(cfg, s4, Advance(2)) == Some(q);
  }

  /**
   * Reading, judging and unlinking apart: no crash is needed. The second process finds the file, the first releases,
   * the second reads a missing file as "holder gone", the first acquires again, and the second unlinks that lock.
   */
  lemma {:induction false} TornSteal(cfg: Atomicity) returns (r: State)
    requires !(cfg.readAndCheck && cfg.checkAndUnlink)
    ensures Reaches(cfg, START, r) && !MutualExclusion(r)
  {
    hide Step, TryCreate, Solo, Exec;
    var q := ReadsMissingFile(cfg);
    BeginIsCreate(cfg, q, 1);
    ReachesStep(cfg, START, q, Begin(1));
    ReachesSolo(cfg, START, TryCreate(cfg, q, 1), 1, 6);
    LoneAcquireIff(cfg, q, 1);
    var held := Acquired(q, 1);
    StealsAlone(cfg, held, 2, 6);
    ReachesSolo(cfg, START, held, 2, 6);
    r := Acquired(held.(file := None), 2);
    assert Holds(r, 1) && Holds(r, 2);
  }

  lemma BeginIsCreate(cfg: Atomicity, s: State, l: LockId)
    requires CanRun(s, l) && s.locks[l].pc == Idle
    ensures Step(cfg, s, Begin(l)) == Some(TryCreate(cfg, s, l))
  {
  }

  /** Mutual exclusion holds over all runs exactly when all three groups of steps are atomic. */
  lemma {:induction false} MutualExclusionIffAtomic(cfg: Atomicity)
    ensures (forall s, r :: Init(s) && Reaches(cfg, s, r) ==> MutualExclusion(r)) <==> cfg == ATOMIC
  {
    if cfg == ATOMIC {
      forall s, r | Init(s) && Reaches(cfg, s, r)
        ensures MutualExclusion(r)
      {
        var actions :| Exec(cfg, s, actions) == Some(r);
        AtomicIsSafe(s, actions);
      }
    } else {
      assert Init(START);
      var r;
      if !cfg.createAndStamp {
        r := TornStamp(cfg);
      } else {
        r := TornSteal(cfg);
      }
    }
  }
}
