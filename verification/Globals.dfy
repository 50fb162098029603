/** What the steps of the system do to the kernel's global counters: the tick counter moves only in the
    systick interrupt, and a live task's identifier stays in use. */
module Globals {
  import opened Config
  import Lists
  import opened KernelSpec
  import opened SyncSpec
  import opened Place
  import opened World

  /** Same ticks and identifiers. */
  ghost predicate Same(k: K, k': K) {
    k'.used == k.used && k'.ticks == k.ticks && k'.started == k.started
  }

  lemma NextTcbSame(k: K)
    ensures Same(k, NextTcb(k))
  {
    WakeSleepersFrame(k, 0);
  }

  lemma {:induction false} MakeAllReadySame(k: K, q: seq<Tid>)
    ensures Same(k, MakeAllReady(k, q))
    decreases |q|
  {
    if q == [] {
    } else {
      MakeAllReadySame(MakeReady(k, q[0]), q[1..]);
    }
  }

  lemma TaskOpSame(w: World, op: Op)
    requires Enabled(w, op)
    requires op.BlockOp? || op.ResumeOp? || op.DelayOp? || op.YieldOp? || op.SwitchOp? || op.WaitYieldOp?
    ensures Same(w.k, Next(w, op).k)
  {
    var k := w.k;
    match op
    case BlockOp(u) => NextTcbSame(Suspend(k, u));
    case ResumeOp(u) => NextTcbSame(Unblock(k, u));
    case DelayOp(n) => DelaySame(k, n);
    case _ => NextTcbSame(k);
  }

  lemma DelaySame(k: K, n: nat)
    ensures Same(k, Delay(k, n))
  {
    if n != 0 {
      var wake := WrapU32(k.ticks + n);
      assert Delay(k, n) == NextTcb(FallAsleep(k, wake));
      NextTcbSame(FallAsleep(k, wake));
    }
  }

  lemma LockSame(k: K, m: MutexS)
    ensures Same(k, Lock(k, m).0)
  {
    if m.owner.Some? {
      NextTcbSame(BlockCurrent(Boost(k, m.owner.value)));
    }
  }

  lemma ReleaseSame(k: K, m: MutexS)
    ensures Same(k, Release(k, m).0)
  {
  }

  lemma UnlockSame(k: K, m: MutexS)
    ensures Same(k, Unlock(k, m).0)
  {
    var k1 := Release(k, m).0;
    ReleaseSame(k, m);
    NextTcbSame(k1);
    assert Unlock(k, m).0 in {k, k1, NextTcb(k1)};
  }

  lemma SyncOpSame(w: World, op: Op)
    requires Enabled(w, op)
    requires op.IsrUpOp? || op.DownOp? || op.UpOp? || op.TryDownOp? || op.NotifyOp? || op.NotifyAllOp?
             || op.LockOp? || op.WaitLockOp? || op.UnlockOp? || op.LockedOp? || op.WaitOp?
    ensures Same(w.k, Next(w, op).k)
  {
    var k := w.k;
    match op
    case DownOp(s) => NextTcbSame(BlockCurrent(k));
    case UpOp(s) => NextTcbSame(UpFromIsr(k, w.semas[s]).0);
    case NotifyOp(c) =>
      if w.cvs[c] != [] {
        NextTcbSame(MakeReady(k, w.cvs[c][0]));
      }
    case NotifyAllOp(c) =>
      MakeAllReadySame(k, w.cvs[c]);
      NextTcbSame(MakeAllReady(k, w.cvs[c]));
    case LockOp(i) => LockSame(k, w.mutexes[i]);
    case WaitLockOp => LockSame(k, w.mutexes[w.pc[k.cur].m]);
    case UnlockOp(i) => UnlockSame(k, w.mutexes[i]);
    case WaitOp(c, i) =>
      UnlockSame(BlockCurrent(k), w.mutexes[i]);
      NextTcbSame(Unlock(BlockCurrent(k), w.mutexes[i]).0);
    case _ =>
  }

  /** Steps that end or create a task. */
  predicate ChangesTasks(op: Op) {
    op.CreateOp? || op.CreateRawOp? || op.ExitOp? || op.TerminateOp?
  }

  lemma CreationEnds(w: World, op: Op)
    requires Enabled(w, op) && ChangesTasks(op)
    ensures var k' := Next(w, op).k;
            && k'.ticks == w.k.ticks && k'.started == w.k.started
            && k'.used >= w.k.used - (if op.ExitOp? then {w.k.cur} else if op.TerminateOp? then {op.t} else {})
  {
    var k := w.k;
    match op
    case ExitOp => NextTcbSame(FreeTid(k.(ready := Lists.Remove(k.ready, k.cur)), k.cur));
    case TerminateOp(u) => NextTcbSame(Discard(k, u));
    case CreateOp(p) => NextTcbSame(CreateRaw(k, p).0);
    case CreateRawOp(_) =>
  }

  lemma OtherOpSame(w: World, op: Op)
    requires Enabled(w, op) && w.k.started && !ChangesTasks(op) && !op.SystickOp?
    ensures Same(w.k, Next(w, op).k)
  {
    if op.BlockOp? || op.ResumeOp? || op.DelayOp? || op.YieldOp? || op.SwitchOp? || op.WaitYieldOp? {
      TaskOpSame(w, op);
    } else {
      SyncOpSame(w, op);
    }
  }

  lemma {:induction false} TicksCounted(k: K, n: nat)
    requires k.started && k.ticks < U32
    ensures Ticks(k, n).0.ticks == WrapU32(k.ticks + n)
  {
    if n == 0 {
    } else {
      TicksCounted(k, n - 1);
      TicksFrame(k, n - 1);
    }
  }

  /** Of all steps only the systick interrupt moves the tick counter, by the ticks it replays. */
  lemma StepTicks(w: World, op: Op)
    requires Enabled(w, op) && w.k.started && w.k.ticks < U32
    ensures Next(w, op).k.started
    ensures Next(w, op).k.ticks == WrapU32(w.k.ticks + (if op.SystickOp? then op.missed + 1 else 0))
  {
    if op.SystickOp? {
      TrapTicks(w.k, op.missed, op.deferred);
    } else if ChangesTasks(op) {
      CreationEnds(w, op);
    } else {
      OtherOpSame(w, op);
    }
  }

  lemma TrapTicks(k: K, missed: nat, deferred: bool)
    requires k.started && k.ticks < U32
    ensures var k' := SystickTrap(k, missed, deferred);
            k'.started && k'.ticks == WrapU32(k.ticks + (missed + 1))
  {
    TicksCounted(k, missed + 1);
    TicksFrame(k, missed + 1);
    NextTcbSame(Ticks(k, missed + 1).0);
  }

  lemma TrapUsed(k: K, missed: nat, deferred: bool)
    ensures SystickTrap(k, missed, deferred).used == k.used
  {
    TicksFrame(k, missed + 1);
    NextTcbSame(Ticks(k, missed + 1).0);
  }

  /** A live task stays live unless it is the one that ends. */
  lemma LivesOn(w: World, op: Op, t: Tid)
    requires Enabled(w, op) && t in w.k.used && w.k.started
    requires op != TerminateOp(t) && !(op.ExitOp? && w.k.cur == t)
    ensures t in Next(w, op).k.used
  {
    if op.SystickOp? {
      TrapUsed(w.k, op.missed, op.deferred);
    } else if ChangesTasks(op) {
      CreationEnds(w, op);
    } else {
      OtherOpSame(w, op);
    }
  }
}
