/** Sleeping is exact: while the tick counter does not wrap, a task that delays `n` leaves the
    sleeping list in the very interrupt that counts its `n`-th tick, and nothing else wakes it. */
module Sleep {
  import opened Config
  import opened Lists
  import opened KernelSpec
  import opened SyncSpec
  import opened Place
  import opened World
  import opened Order

  // ---- One switch --------------------------------------------------------------------------

  lemma {:induction false} ScanNoneDue(k: K, i: nat)
    requires i <= |k.sleeping| && NoDup(k.sleeping)
    requires forall j | 0 <= j < i :: !Due(k, k.sleeping[j])
    ensures NoneDue(WakeSleepers(k, i))
    decreases |k.sleeping| - i
  {
    if i == |k.sleeping| {
    } else if Due(k, k.sleeping[i]) {
      var t := k.sleeping[i];
      RemoveAt(k.sleeping, i);
      RemoveMembers(k.sleeping, t);
      ScanNoneDue(WakeOne(k, t), i);
    } else {
      ScanNoneDue(k, i + 1);
    }
  }

  lemma {:induction false} ScanSleeper(k: K, i: nat, t: Tid)
    requires i <= |k.sleeping| && NoDup(k.sleeping) && t in k.sleeping[i..]
    ensures var k' := WakeSleepers(k, i);
            && (Due(k, t) ==> t !in k'.sleeping && k'.tcb[t].status == Ready)
            && (!Due(k, t) ==> t in k'.sleeping && k'.tcb[t] == k.tcb[t])
    decreases |k.sleeping| - i
  {
    var u := k.sleeping[i];
    if Due(k, u) {
      var k1 := WakeOne(k, u);
      RemoveAt(k.sleeping, i);
      RemoveMembers(k.sleeping, u);
      if u == t {
        ScanWoken(k1, i, t);
      } else {
        assert k1.sleeping[i..] == k.sleeping[i + 1..];
        ScanSleeper(k1, i, t);
      }
    } else if u == t {
      ScanKept(k, i + 1, t);
    } else {
      ScanSleeper(k, i + 1, t);
    }
  }

  /** A task that is not on the sleeping list is left alone. */
  lemma {:induction false} ScanWoken(k: K, i: nat, t: Tid)
    requires i <= |k.sleeping| && NoDup(k.sleeping) && t !in k.sleeping
    ensures t !in WakeSleepers(k, i).sleeping && WakeSleepers(k, i).tcb[t] == k.tcb[t]
    decreases |k.sleeping| - i
  {
    if i == |k.sleeping| {
    } else {
      if Due(k, k.sleeping[i]) {
        RemoveMembers(k.sleeping, k.sleeping[i]);
        ScanWoken(WakeOne(k, k.sleeping[i]), i, t);
      } else {
        ScanWoken(k, i + 1, t);
      }
    }
  }

  /** A sleeper the scan has passed stays. */
  lemma {:induction false} ScanKept(k: K, i: nat, t: Tid)
    requires i <= |k.sleeping| && NoDup(k.sleeping) && t in k.sleeping[..i]
    ensures t in WakeSleepers(k, i).sleeping && WakeSleepers(k, i).tcb[t] == k.tcb[t]
    decreases |k.sleeping| - i
  {
    if i == |k.sleeping| {
    } else {
      var u := k.sleeping[i];
      if Due(k, u) {
        RemoveAt(k.sleeping, i);
        RemoveMembers(k.sleeping, u);
        assert WakeOne(k, u).sleeping[..i] == k.sleeping[..i];
        ScanKept(WakeOne(k, u), i, t);
      } else {
        assert k.sleeping[..i + 1] == k.sleeping[..i] + [u];
        ScanKept(k, i + 1, t);
      }
    }
  }

  /** Same tick, same sleepers, same wake points. */
  ghost predicate SleepSame(k: K, k': K) {
    && k'.ticks == k.ticks && k'.sleeping == k.sleeping
    && forall t | t in k.sleeping :: k'.tcb[t].wake == k.tcb[t].wake
  }

  lemma SwitchKeepsSleepers(k: K)
    ensures SleepSame(k, Select(Requeue(k)))
  {
  }

  lemma NextTcbNoneDue(k: K)
    requires NoDup(k.sleeping)
    ensures NoneDue(NextTcb(k)) && NextTcb(k).ticks == k.ticks
  {
    ScanNoneDue(k, 0);
    WakeSleepersFrame(k, 0);
    SwitchKeepsSleepers(WakeSleepers(k, 0));
  }

  /** A switch wakes `t` exactly if it is due. */
  lemma NextTcbSleeper(k: K, t: Tid)
    requires NoDup(k.sleeping) && t in k.sleeping
    ensures var k' := NextTcb(k);
            && (Due(k, t) ==> t !in k'.sleeping && k'.tcb[t].status in {Ready, Running})
            && (!Due(k, t) ==> t in k'.sleeping && k'.tcb[t].wake == k.tcb[t].wake)
  {
    assert k.sleeping[0..] == k.sleeping;
    ScanSleeper(k, 0, t);
  }

  /** With no sleeper due, the scan a switch begins with does nothing. */
  lemma QuietSwitch(k: K, k1: K)
    requires NoneDue(k) && SleepSame(k, k1)
    ensures WakeSleepers(k1, 0) == k1 && SleepSame(k, NextTcb(k1))
  {
    NoneWoken(k1, 0);
    SwitchKeepsSleepers(k1);
  }

  // ---- Steps that leave the sleepers alone -------------------------------------------------

  predicate TouchesSleep(op: Op) {
    op.DelayOp? || op.TerminateOp? || op.SystickOp?
  }

  lemma CreateQuiet(w: World, loc: Locs, op: Op)
    requires Inv(w, loc) && NoneDue(w.k) && Enabled(w, op)
    requires op.CreateOp? || op.CreateRawOp? || op.LaunchOp?
    ensures SleepSame(w.k, Next(w, op).k)
  {
    var p := if op.LaunchOp? then PRI_MIN else op.priority;
    var (k1, r) := CreateRaw(w.k, p);
    if r.Some? {
      assert TaskAgrees(w.k, loc, r.value);
    }
    assert SleepSame(w.k, k1);
    QuietSwitch(w.k, k1);
  }

  lemma TaskOpQuiet(w: World, op: Op)
    requires NoneDue(w.k) && Enabled(w, op)
    requires op.ExitOp? || op.BlockOp? || op.ResumeOp? || op.YieldOp? || op.SwitchOp? || op.WaitYieldOp?
    ensures SleepSame(w.k, Next(w, op).k)
  {
    var k := w.k;
    match op
    case ExitOp => QuietSwitch(k, FreeTid(k.(ready := Remove(k.ready, k.cur)), k.cur));
    case BlockOp(t) => QuietSwitch(k, Suspend(k, t));
    case ResumeOp(t) => QuietSwitch(k, Unblock(k, t));
    case _ => QuietSwitch(k, k);
  }

  lemma {:induction false} MakeAllReadyQuiet(k: K, q: seq<Tid>)
    ensures SleepSame(k, MakeAllReady(k, q))
    decreases |q|
  {
    if q == [] {
    } else {
      MakeAllReadyQuiet(MakeReady(k, q[0]), q[1..]);
    }
  }

  lemma SemaCvQuiet(w: World, op: Op)
    requires NoneDue(w.k) && Enabled(w, op)
    requires op.DownOp? || op.UpOp? || op.IsrUpOp? || op.TryDownOp? || op.NotifyOp? || op.NotifyAllOp?
    ensures SleepSame(w.k, Next(w, op).k)
  {
    var k := w.k;
    match op
    case DownOp(_) => QuietSwitch(k, BlockCurrent(k));
    case UpOp(s) => QuietSwitch(k, UpFromIsr(k, w.semas[s]).0);
    case NotifyOp(c) =>
      if w.cvs[c] != [] {
        QuietSwitch(k, MakeReady(k, w.cvs[c][0]));
      }
    case NotifyAllOp(c) =>
      MakeAllReadyQuiet(k, w.cvs[c]);
      QuietSwitch(k, MakeAllReady(k, w.cvs[c]));
    case _ =>
  }

  lemma LockQuiet(k: K, m: MutexS)
    requires NoneDue(k)
    ensures SleepSame(k, Lock(k, m).0)
  {
    if m.owner.Some? && m.owner.value != k.cur {
      QuietSwitch(k, BlockCurrent(Boost(k, m.owner.value)));
    }
  }

  lemma UnlockQuiet(k: K, m: MutexS)
    requires NoneDue(k)
    ensures SleepSame(k, Unlock(k, m).0)
  {
    QuietSwitch(k, Release(k, m).0);
  }

  lemma CvWaitQuiet(k: K, q: seq<Tid>, m: MutexS)
    requires NoneDue(k)
    ensures SleepSame(k, CvWait(k, q, m).0)
  {
    var k0 := BlockCurrent(k);
    assert SleepSame(k, k0) && NoneDue(k0);
    UnlockQuiet(k0, m);
    QuietSwitch(k, Unlock(k0, m).0);
  }

  lemma QuietStep(w: World, loc: Locs, op: Op)
    requires Inv(w, loc) && NoneDue(w.k) && Enabled(w, op) && !TouchesSleep(op)
    ensures SleepSame(w.k, Next(w, op).k)
  {
    if op.CreateOp? || op.CreateRawOp? || op.LaunchOp? {
      CreateQuiet(w, loc, op);
    } else if op.ExitOp? || op.BlockOp? || op.ResumeOp? || op.YieldOp? || op.SwitchOp? || op.WaitYieldOp? {
      TaskOpQuiet(w, op);
    } else if op.DownOp? || op.UpOp? || op.IsrUpOp? || op.TryDownOp? || op.NotifyOp? || op.NotifyAllOp? {
      SemaCvQuiet(w, op);
    } else if op.LockOp? {
      LockQuiet(w.k, w.mutexes[op.m]);
    } else if op.WaitLockOp? {
      LockQuiet(w.k, w.mutexes[w.pc[w.k.cur].m]);
    } else if op.UnlockOp? {
      UnlockQuiet(w.k, w.mutexes[op.m]);
    } else if op.WaitOp? {
      CvWaitQuiet(w.k, w.cvs[op.c], w.mutexes[op.m]);
    }
  }

  // ---- Steps that do not -------------------------------------------------------------------

  /** The tick counter stays below its wrap, and so does every wake point. */
  ghost predicate NoWrap(w: World, op: Op) {
    match op
    case DelayOp(n) => w.k.ticks + n < U32
    case SystickOp(missed, _) => w.k.ticks + missed + 1 < U32
    case _ => true
  }

  lemma {:induction false} TicksCount(k: K, n: nat)
    requires k.started && k.ticks + n < U32
    ensures Ticks(k, n).0.ticks == k.ticks + n
    ensures n > 0 && k.sleeping != [] ==> Ticks(k, n).1
  {
    if n == 0 {
    } else {
      TicksCount(k, n - 1);
      TicksFrame(k, n - 1);
    }
  }

  lemma TrapNoneDue(k: K, missed: nat, deferred: bool)
    requires k.started && NoDup(k.sleeping) && k.ticks + missed + 1 < U32
    ensures var k' := SystickTrap(k, missed, deferred);
            NoneDue(k') && k'.ticks == k.ticks + missed + 1
  {
    var (k1, r) := Ticks(k, missed + 1);
    TicksCount(k, missed + 1);
    TicksFrame(k, missed + 1);
    NextTcbNoneDue(k1);
  }

  lemma FallAsleepMembers(k: K, loc: Locs, wake: nat)
    requires Placed(k, loc) && loc[k.cur] == InReady && k.ticks < wake && NoneDue(k)
    ensures var k1 := FallAsleep(k, wake);
            && NoneDue(k1) && k1.ticks == k.ticks
            && (forall t :: t in k1.sleeping <==> t in k.sleeping || t == k.cur)
            && k1.tcb[k.cur].wake == wake
            && (forall t | t in k.sleeping :: k1.tcb[t].wake == k.tcb[t].wake)
  {
    InsertMembers(k.sleeping, k.cur, ByWake(FallAsleep(k, wake).tcb, k.cur));
  }

  /** The current task of `k` has gone to sleep until `wake`; the other sleepers are as they were. */
  ghost predicate WentToSleep(k: K, k': K, wake: nat) {
    && NoneDue(k') && k'.ticks == k.ticks
    && (forall t :: t in k'.sleeping <==> t in k.sleeping || t == k.cur)
    && k'.tcb[k.cur].wake == wake
    && (forall t | t in k.sleeping :: k'.tcb[t].wake == k.tcb[t].wake)
  }

  lemma FallAsleepThenSwitch(k: K, loc: Locs, wake: nat)
    requires Placed(k, loc) && loc[k.cur] == InReady && k.ticks < wake && NoneDue(k)
    ensures WentToSleep(k, NextTcb(FallAsleep(k, wake)), wake)
  {
    FallAsleepMembers(k, loc, wake);
    QuietSwitch(FallAsleep(k, wake), FallAsleep(k, wake));
  }

  lemma DelayIs(k: K, n: nat, wake: nat)
    requires n > 0 && wake == k.ticks + n < U32
    ensures Delay(k, n) == NextTcb(FallAsleep(k, wake))
  {
    assert WrapU32(k.ticks + n) == wake;
  }

  lemma DelayAsleep(k: K, loc: Locs, n: nat)
    requires Placed(k, loc) && loc[k.cur] == InReady && k.ticks + n < U32 && n > 0 && NoneDue(k)
    ensures WentToSleep(k, Delay(k, n), k.ticks + n)
  {
    var wake := k.ticks + n;
    assert WrapU32(wake) == wake;
    assert Delay(k, n) == NextTcb(FallAsleep(k, wake));
    FallAsleepThenSwitch(k, loc, wake);
  }

  lemma DiscardSleep(k: K, loc: Locs, t: Tid)
    requires Placed(k, loc) && NoneDue(k)
    ensures var k1 := Discard(k, t);
            && NoneDue(k1) && k1.ticks == k.ticks
            && (forall u :: u in k1.sleeping <==> u in k.sleeping && u != t)
            && (forall u | u in k1.sleeping :: k1.tcb[u].wake == k.tcb[u].wake)
  {
    RemoveMembers(k.sleeping, t);
  }

  lemma TerminateSleep(k: K, loc: Locs, t: Tid)
    requires Placed(k, loc) && NoneDue(k) && k.tcb[t].status != Terminated
    ensures var k' := Terminate(k, t);
            && NoneDue(k') && k'.ticks == k.ticks
            && (forall u :: u in k'.sleeping <==> u in k.sleeping && u != t)
            && (forall u | u in k'.sleeping :: k'.tcb[u].wake == k.tcb[u].wake)
  {
    DiscardSleep(k, loc, t);
    QuietSwitch(Discard(k, t), Discard(k, t));
  }

  // ---- Every step --------------------------------------------------------------------------

  /** Whenever a task is executing, every sleeper's wake point is still ahead. */
  lemma StepNoneDue(w: World, loc: Locs, op: Op)
    requires Inv(w, loc) && NoneDue(w.k) && Enabled(w, op) && NoWrap(w, op)
    ensures NoneDue(Next(w, op).k)
  {
    if !TouchesSleep(op) {
      QuietStep(w, loc, op);
    } else if op.DelayOp? {
      if op.ticks > 0 {
        DelayAsleep(w.k, loc, op.ticks);
      }
    } else if op.TerminateOp? {
      if w.k.tcb[op.t].status != Terminated {
        TerminateSleep(w.k, loc, op.t);
      }
    } else {
      TrapNoneDue(w.k, op.missed, op.deferred);
    }
  }

  lemma TrapSleeper(k: K, missed: nat, deferred: bool, t: Tid)
    requires k.started && NoDup(k.sleeping) && k.ticks + missed + 1 < U32 && t in k.sleeping
    ensures var k' := SystickTrap(k, missed, deferred);
            && (k'.ticks >= k.tcb[t].wake ==> t !in k'.sleeping && k'.tcb[t].status in {Ready, Running})
            && (k'.ticks < k.tcb[t].wake ==> t in k'.sleeping && k'.tcb[t].wake == k.tcb[t].wake)
  {
    var (k1, r) := Ticks(k, missed + 1);
    TicksCount(k, missed + 1);
    TicksFrame(k, missed + 1);
    NextTcbSleeper(k1, t);
    NextTcbNoneDue(k1);
  }

  /** A sleeper sleeps on exactly while its wake point is ahead; only the interrupt that counts the
      tick of its wake point makes it ready. */
  lemma StepSleeper(w: World, loc: Locs, op: Op, t: Tid)
    requires Inv(w, loc) && NoneDue(w.k) && Enabled(w, op) && NoWrap(w, op)
    requires t in w.k.sleeping && op != TerminateOp(t)
    ensures var (k', wake) := (Next(w, op).k, w.k.tcb[t].wake);
            && (k'.ticks < wake ==> t in k'.sleeping && k'.tcb[t].wake == wake)
            && (k'.ticks >= wake ==> op.SystickOp? && t !in k'.sleeping && t in k'.ready)
  {
    if !TouchesSleep(op) {
      QuietStep(w, loc, op);
    } else if op.DelayOp? {
      if op.ticks > 0 {
        DelayAsleep(w.k, loc, op.ticks);
      }
    } else if op.TerminateOp? {
      if w.k.tcb[op.t].status != Terminated {
        TerminateSleep(w.k, loc, op.t);
      }
    } else {
      TrapSleeper(w.k, op.missed, op.deferred, t);
      var loc' := StepInv(w, loc, op);
      assert TaskAgrees(Next(w, op).k, loc', t);
    }
  }

  ghost predicate ReachesNoWrap(w: World, ops: seq<Op>, w': World)
    decreases |ops|
  {
    if ops == [] then w' == w
    else Enabled(w, ops[0]) && NoWrap(w, ops[0]) && ReachesNoWrap(Next(w, ops[0]), ops[1..], w')
  }

  lemma {:induction false} RunNoneDue(w: World, loc: Locs, ops: seq<Op>, w': World) returns (loc': Locs)
    requires Inv(w, loc) && NoneDue(w.k) && ReachesNoWrap(w, ops, w')
    ensures Inv(w', loc') && NoneDue(w'.k)
    decreases |ops|
  {
    loc' := loc;
    if ops == [] {
    } else {
      StepNoneDue(w, loc, ops[0]);
      var loc1 := StepInv(w, loc, ops[0]);
      loc' := RunNoneDue(Next(w, ops[0]), loc1, ops[1..], w');
    }
  }

  lemma {:induction false} RunSleeper(w: World, loc: Locs, ops: seq<Op>, w': World, t: Tid)
    requires Inv(w, loc) && NoneDue(w.k) && ReachesNoWrap(w, ops, w')
    requires t in w.k.sleeping && TerminateOp(t) !in ops
    requires w'.k.ticks < w.k.tcb[t].wake
    ensures t in w'.k.sleeping && w'.k.tcb[t].wake == w.k.tcb[t].wake
    decreases |ops|
  {
    if ops == [] {
    } else {
      var w1 := Next(w, ops[0]);
      StepNoneDue(w, loc, ops[0]);
      StepSleeper(w, loc, ops[0], t);
      var loc1 := StepInv(w, loc, ops[0]);
      TicksMonotone(w1, loc1, ops[1..], w');
      RunSleeper(w1, loc1, ops[1..], w', t);
    }
  }

  lemma StepTicks(w: World, loc: Locs, op: Op)
    requires Inv(w, loc) && NoneDue(w.k) && Enabled(w, op) && NoWrap(w, op)
    ensures Next(w, op).k.ticks == w.k.ticks + (if op.SystickOp? then op.missed + 1 else 0)
  {
    if !TouchesSleep(op) {
      QuietStep(w, loc, op);
    } else if op.DelayOp? {
      if op.ticks > 0 {
        DelayAsleep(w.k, loc, op.ticks);
      }
    } else if op.TerminateOp? {
      if w.k.tcb[op.t].status != Terminated {
        TerminateSleep(w.k, loc, op.t);
      }
    } else {
      TrapNoneDue(w.k, op.missed, op.deferred);
    }
  }

  lemma {:induction false} TicksMonotone(w: World, loc: Locs, ops: seq<Op>, w': World)
    requires Inv(w, loc) && NoneDue(w.k) && ReachesNoWrap(w, ops, w')
    ensures w.k.ticks <= w'.k.ticks
    decreases |ops|
  {
    if ops == [] {
    } else {
      StepTicks(w, loc, ops[0]);
      StepNoneDue(w, loc, ops[0]);
      var loc1 := StepInv(w, loc, ops[0]);
      TicksMonotone(Next(w, ops[0]), loc1, ops[1..], w');
    }
  }

  /** A task that delays `n` ticks in a reachable state sleeps through every continuation that counts
      fewer than `n` ticks (unless it is terminated), and a step that reaches the `n`-th tick makes
      it ready. */
  lemma SleepIsExact(w0: World, before: seq<Op>, w: World, n: nat, after: seq<Op>, w': World, op: Op)
    requires Initial(w0) && ReachesNoWrap(w0, before, w)
    requires Enabled(w, DelayOp(n)) && NoWrap(w, DelayOp(n)) && n > 0
    requires ReachesNoWrap(Next(w, DelayOp(n)), after, w') && Enabled(w', op) && NoWrap(w', op)
    requires TerminateOp(w.k.cur) !in after && op != TerminateOp(w.k.cur)
    requires w'.k.ticks < w.k.ticks + n
    ensures w.k.cur in w'.k.sleeping
    ensures Next(w', op).k.ticks < w.k.ticks + n ==> w.k.cur in Next(w', op).k.sleeping
    ensures Next(w', op).k.ticks >= w.k.ticks + n ==> op.SystickOp? && w.k.cur in Next(w', op).k.ready
  {
    InitialInv(w0);
    var t := w.k.cur;
    var loc := RunNoneDue(w0, seq(TASK_MAX, _ => Dead), before, w);
    DelayAsleep(w.k, loc, n);
    var w1 := Next(w, DelayOp(n));
    var loc1 := StepInv(w, loc, DelayOp(n));
    RunSleeper(w1, loc1, after, w', t);
    var loc' := RunNoneDue(w1, loc1, after, w');
    StepSleeper(w', loc', op, t);
  }
}
