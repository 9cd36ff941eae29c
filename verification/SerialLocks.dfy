/** The scan lock without any atomicity: safe on every run whose calls do not overlap. */
module SerialLocks {
  import opened FileLocks
  import opened Wrappers

  /** A running lock object is inside `acquire` or `release`. */
  ghost predicate Busy(s: State, l: LockId) {
    CanRun(s, l) && s.locks[l].pc != Idle
  }

  ghost predicate StartsCall(a: Action) {
    a.Begin? || a.Release?
  }

  /** No call starts while another one is under way. A call may be cut short by a crash, wherever it is. */
  ghost predicate Serial(cfg: Atomicity, s: State, actions: seq<Action>) {
    actions == [] ||
    var front := actions[..|actions| - 1];
    && Serial(cfg, s, front)
    && (StartsCall(actions[|actions| - 1]) && Exec(cfg, s, front).Some? ==>
          forall l :: !Busy(Exec(cfg, s, front).value, l))
  }

  ghost predicate NobodyHolds(s: State) {
    forall l :: !Holds(s, l)
  }

  /** What a call knows between two of its steps when nobody else is in one. */
  ghost predicate CallKnows(s: State, l: LockId)
    requires l in s.locks
  {
    match s.locks[l].pc
    case Creating(ino) => s.file.Some? && s.file.value.ino == ino && NobodyHolds(s)
    case HasRead(holder) => holder == ReadPid(s)
    case Reclaim => NobodyHolds(s)
    case Retry => s.file.None?
    case Unlinked => s.file.None?
    case _ => true
  }

  ghost predicate Orderly(s: State) {
    && (forall p | p in s.live :: s.live[p] > 0)
    && KnownPids(s)
    && HolderIsRecorded(s)
    && MutualExclusion(s)
    && (forall l, m :: Busy(s, l) && Busy(s, m) ==> l == m)
    && (forall l :: CanRun(s, l) ==> CallKnows(s, l))
  }

  lemma {:induction false} HolderLives(s: State, l: LockId)
    requires Orderly(s) && Holds(s, l)
    ensures s.file.Some? && !IsGone(s, ReadPid(s))
  {
    assert s.live[s.locks[l].proc] in s.live.Values;
  }

  /** Only a gone holder is judged gone: then nobody holds. */
  lemma {:induction false} GoneMeansFree(s: State)
    requires Orderly(s) && IsGone(s, ReadPid(s))
    ensures NobodyHolds(s)
  {
    forall l | Holds(s, l)
      ensures false
    {
      HolderLives(s, l);
    }
  }

  /** `l` is the only one that may be inside a call. */
  ghost predicate OnlyCall(s: State, l: LockId) {
    forall m :: Busy(s, m) ==> m == l
  }

  lemma {:induction false} OthersIdle(s: State, l: LockId, r: State)
    requires OnlyCall(s, l) && l in s.locks
    requires r.live == s.live && l in r.locks && r.locks == s.locks[l := r.locks[l]]
    ensures forall m :: m != l && CanRun(r, m) ==> r.locks[m].pc == Idle
  {
    forall m | m != l && CanRun(r, m)
      ensures r.locks[m].pc == Idle
    {
      assert !Busy(s, m);
    }
  }

  lemma {:induction false} OrderlyCreate(cfg: Atomicity, s: State, l: LockId)
    requires Orderly(s) && CanRun(s, l) && OnlyCall(s, l) && (s.locks[l].pc == Idle || s.locks[l].pc == Retry)
    ensures Orderly(TryCreate(cfg, s, l))
  {
    var r := TryCreate(cfg, s, l);
    assert forall m :: m != l && Holds(r, m) ==> Holds(s, m);
    OthersIdle(s, l, r);
    if s.file.None? {
      assert NobodyHolds(s);
    } else {
      assert Holds(r, l) <==> Holds(s, l);
    }
  }

  lemma {:induction false} OrderlyStamp(s: State, l: LockId, ino: nat)
    requires Orderly(s) && CanRun(s, l) && OnlyCall(s, l) && s.locks[l].pc == Creating(ino)
    ensures Orderly(Stamp(s, l, ino))
  {
    var r := Stamp(s, l, ino);
    assert CallKnows(s, l);
    assert forall m :: m != l && Holds(r, m) ==> Holds(s, m);
    OthersIdle(s, l, r);
  }

  lemma {:induction false} OrderlyJudge(cfg: Atomicity, s: State, l: LockId)
    requires Orderly(s) && CanRun(s, l) && OnlyCall(s, l)
    requires s.locks[l].pc == Blocked || s.locks[l].pc == HasRead(ReadPid(s))
    ensures Orderly(Judge(cfg, s, l, ReadPid(s)))
  {
    var r := Judge(cfg, s, l, ReadPid(s));
    assert forall m :: Holds(r, m) <==> Holds(s, m);
    OthersIdle(s, l, r);
    if IsGone(s, ReadPid(s)) {
      GoneMeansFree(s);
    }
  }

  lemma {:induction false} OrderlyMove(s: State, l: LockId, r: State)
    requires Orderly(s) && CanRun(s, l) && OnlyCall(s, l)
    requires || (s.locks[l].pc == Blocked && r == Goto(s, l, HasRead(ReadPid(s))))
             || (s.locks[l].pc == Reclaim && r == Goto(s, l, Retry).(file := None))
             || (s.locks[l].pc == Unlinked &&
                 r == s.(locks := s.locks[l := s.locks[l].(acquired := false, pc := Idle)]))
             || (s.locks[l].pc == Idle && s.locks[l].acquired && r == Goto(s, l, Unlinked).(file := None))
    ensures Orderly(r)
  {
    assert CallKnows(s, l);
    assert forall m :: Holds(r, m) ==> Holds(s, m);
    OthersIdle(s, l, r);
    if s.locks[l].pc == Idle {
      assert Holds(s, l);
      assert NobodyHolds(r);
    }
  }

  lemma {:induction false} OrderlyAdvance(cfg: Atomicity, s: State, l: LockId, r: State)
    requires Orderly(s) && Step(cfg, s, Advance(l)) == Some(r)
    ensures Orderly(r)
  {
    hide Orderly, TryCreate, Judge, Stamp;
    AdvancerIsAlone(s, l);
    match s.locks[l].pc
    case Creating(ino) => OrderlyStamp(s, l, ino);
    case Blocked => if cfg.readAndCheck { OrderlyJudge(cfg, s, l); } else { OrderlyMove(s, l, r); }
    case HasRead(holder) => OrderlyJudge(cfg, s, l);
    case Retry => OrderlyCreate(cfg, s, l);
    case _ => OrderlyMove(s, l, r);
  }

  lemma {:induction false} AdvancerIsAlone(s: State, l: LockId)
    requires Orderly(s) && Busy(s, l)
    ensures OnlyCall(s, l) && CallKnows(s, l)
  {
  }

  /** A state with the same file whose locks that run are as in `s`, apart from idle ones that were never acquired. */
  ghost predicate SameCalls(s: State, r: State) {
    && r.file == s.file
    && forall l :: CanRun(r, l) ==>
         if CanRun(s, l) then r.locks[l] == s.locks[l] else r.locks[l].pc == Idle && !r.locks[l].acquired
  }

  lemma {:induction false} OrderlyProcesses(cfg: Atomicity, s: State, a: Action, r: State)
    requires Orderly(s) && Step(cfg, s, a) == Some(r)
    requires a.Exit? || a.Spawn? || a.NewLock?
    ensures Orderly(r)
  {
    assert SameCalls(s, r);
    CallsStayOrderly(s, r);
  }

  lemma {:induction false} CallsStayOrderly(s: State, r: State)
    requires Orderly(s) && SameCalls(s, r)
    requires (forall p | p in r.live :: r.live[p] > 0) && KnownPids(r)
    ensures Orderly(r)
  {
    hide CallKnows, Holds, KnownPids;
    SameHolders(s, r);
    forall l | CanRun(r, l)
      ensures l in r.locks && CallKnows(r, l)
    {
      StillKnows(s, r, l);
    }
  }

  lemma {:induction false} SameHolders(s: State, r: State)
    requires SameCalls(s, r)
    ensures forall m :: Holds(r, m) ==> m in r.locks && Holds(s, m) && m in s.locks && r.locks[m] == s.locks[m]
    ensures forall m :: Busy(r, m) ==> Busy(s, m)
  {
  }

  lemma {:induction false} StillKnows(s: State, r: State, l: LockId)
    requires Orderly(s) && SameCalls(s, r) && CanRun(r, l)
    ensures CallKnows(r, l)
  {
    hide Busy, HolderIsRecorded, MutualExclusion, KnownPids;
    SameHolders(s, r);
    if CanRun(s, l) {
      assert CallKnows(s, l);
    }
  }

  lemma {:induction false} OrderlyStep(cfg: Atomicity, s: State, a: Action, r: State)
    requires Orderly(s) && Step(cfg, s, a) == Some(r)
    requires StartsCall(a) ==> forall l :: !Busy(s, l)
    ensures Orderly(r)
  {
    hide Orderly, TryCreate;
    match a
    case Begin(l) => OrderlyCreate(cfg, s, l);
    case Advance(l) => OrderlyAdvance(cfg, s, l, r);
    case Release(l) => if s.locks[l].acquired { OrderlyMove(s, l, r); }
    case _ => OrderlyProcesses(cfg, s, a, r);
  }

  lemma {:induction false} OrderlyRun(cfg: Atomicity, s: State, actions: seq<Action>)
    requires Init(s) && Exec(cfg, s, actions).Some? && Serial(cfg, s, actions)
    ensures Orderly(Exec(cfg, s, actions).value)
  {
    hide Step;
    if actions != [] {
      var n := |actions| - 1;
      OrderlyRun(cfg, s, actions[..n]);
      OrderlyStep(cfg, Exec(cfg, s, actions[..n]).value, actions[n], Exec(cfg, s, actions).value);
    }
  }

  /**
   * Under any atomicity, so under none as well: while no acquire or release overlaps another call, at most one lock
   * object is held and the file carries its PID - with processes crashing inside calls and PIDs being reused.
   */
  lemma {:induction false} SerialIsSafe(cfg: Atomicity, s: State, actions: seq<Action>)
    requires Init(s) && Exec(cfg, s, actions).Some? && Serial(cfg, s, actions)
    ensures var r := Exec(cfg, s, actions).value;
            MutualExclusion(r) && HolderIsRecorded(r)
  {
    OrderlyRun(cfg, s, actions);
  }
}
