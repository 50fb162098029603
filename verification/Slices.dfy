/** Time slices: between two steps every task has one, never more than a full one; and what a tick
    does to the slice decides when a more urgent ready task gets the processor. */
module Slices {
  import opened Config
  import opened Lists
  import opened KernelSpec
  import opened SyncSpec
  import opened Place
  import opened Ordered
  import opened World
  import opened Safety

  ghost predicate SlicesKept(k: K, k': K) {
    forall t: Tid :: k'.tcb[t].slice == k.tcb[t].slice || k'.tcb[t].slice == TIME_SLICE
  }

  ghost predicate SlicesOk(k: K) {
    forall t: Tid :: 1 <= k.tcb[t].slice <= TIME_SLICE
  }

  lemma RequeueSlices(k: K)
    ensures SlicesKept(k, Requeue(k)) && SlicesKept(k, Select(k))
  {
  }

  lemma Via(k: K, k1: K)
    requires SlicesKept(k, k1)
    ensures SlicesKept(k, NextTcb(k1))
  {
    WakeSleepersFrame(k1, 0);
    RequeueSlices(WakeSleepers(k1, 0));
    RequeueSlices(Requeue(WakeSleepers(k1, 0)));
  }

  lemma CreateSlices(w: World, op: Op)
    requires Enabled(w, op) && (op.CreateOp? || op.CreateRawOp? || op.LaunchOp?)
    ensures SlicesKept(w.k, Next(w, op).k)
  {
    var p := if op.LaunchOp? then PRI_MIN else op.priority;
    var (k1, r) := CreateRaw(w.k, p);
    assert SlicesKept(w.k, k1);
    Via(w.k, k1);
  }

  lemma TaskOpSlices(w: World, op: Op)
    requires Enabled(w, op)
    requires op.ExitOp? || op.TerminateOp? || op.BlockOp? || op.ResumeOp?
    ensures SlicesKept(w.k, Next(w, op).k)
  {
    var k := w.k;
    match op
    case ExitOp => Via(k, FreeTid(k.(ready := Remove(k.ready, k.cur)), k.cur));
    case TerminateOp(t) => Via(k, Discard(k, t));
    case BlockOp(t) => Via(k, Suspend(k, t));
    case ResumeOp(t) => Via(k, Unblock(k, t));
  }

  lemma DelaySlices(k: K, n: nat)
    ensures SlicesKept(k, Delay(k, n))
  {
    if n != 0 {
      var wake := WrapU32(k.ticks + n);
      assert Delay(k, n) == NextTcb(FallAsleep(k, wake));
      Via(k, FallAsleep(k, wake));
    }
  }

  lemma {:induction false} MakeAllReadySlices(k: K, q: seq<Tid>)
    ensures SlicesKept(k, MakeAllReady(k, q))
    decreases |q|
  {
    if q == [] {
    } else {
      MakeAllReadySlices(MakeReady(k, q[0]), q[1..]);
    }
  }

  lemma SyncOpSlices(w: World, op: Op)
    requires Enabled(w, op)
    requires op.IsrUpOp? || op.DownOp? || op.UpOp? || op.TryDownOp? || op.NotifyOp? || op.NotifyAllOp?
    ensures SlicesKept(w.k, Next(w, op).k)
  {
    var k := w.k;
    match op
    case DownOp(s) => Via(k, BlockCurrent(k));
    case UpOp(s) => Via(k, UpFromIsr(k, w.semas[s]).0);
    case NotifyOp(c) =>
      if w.cvs[c] != [] {
        Via(k, MakeReady(k, w.cvs[c][0]));
      }
    case NotifyAllOp(c) =>
      MakeAllReadySlices(k, w.cvs[c]);
      Via(k, MakeAllReady(k, w.cvs[c]));
    case _ =>
  }

  lemma LockSlices(k: K, m: MutexS)
    ensures SlicesKept(k, Lock(k, m).0)
  {
    if m.owner.Some? && m.owner.value != k.cur {
      Via(k, BlockCurrent(Boost(k, m.owner.value)));
    }
  }

  lemma UnlockSlices(k: K, m: MutexS)
    ensures SlicesKept(k, Unlock(k, m).0)
  {
    var k1 := Release(k, m).0;
    assert SlicesKept(k, k1);
    Via(k, k1);
  }

  lemma CvWaitSlices(k: K, q: seq<Tid>, m: MutexS)
    ensures SlicesKept(k, CvWait(k, q, m).0)
  {
    UnlockSlices(BlockCurrent(k), m);
    Via(k, Unlock(BlockCurrent(k), m).0);
  }

  lemma StepKeepsSlices(w: World, op: Op)
    requires Enabled(w, op) && !op.SystickOp?
    ensures SlicesKept(w.k, Next(w, op).k)
  {
    if op.CreateOp? || op.CreateRawOp? || op.LaunchOp? {
      CreateSlices(w, op);
    } else if op.ExitOp? || op.TerminateOp? || op.BlockOp? || op.ResumeOp? {
      TaskOpSlices(w, op);
    } else if op.DelayOp? {
      DelaySlices(w.k, op.ticks);
    } else if op.LockOp? {
      LockSlices(w.k, w.mutexes[op.m]);
    } else if op.WaitLockOp? {
      LockSlices(w.k, w.mutexes[w.pc[w.k.cur].m]);
    } else if op.UnlockOp? {
      UnlockSlices(w.k, w.mutexes[op.m]);
    } else if op.WaitOp? {
      CvWaitSlices(w.k, w.cvs[op.c], w.mutexes[op.m]);
    } else if op.YieldOp? || op.SwitchOp? || op.WaitYieldOp? {
      Via(w.k, w.k);
    } else if !op.LockedOp? {
      SyncOpSlices(w, op);
    }
  }

  // ---- Ticks -------------------------------------------------------------------------------

  lemma {:induction false} TicksSlice(k: K, n: nat)
    requires k.started
    ensures var (k', r) := Ticks(k, n);
            && k'.tcb[k.cur].slice == (if k.tcb[k.cur].slice > n then k.tcb[k.cur].slice - n else 0)
            && (forall t: Tid | t != k.cur :: k'.tcb[t] == k.tcb[t])
            && (r <==> n > 0 && (n >= k.tcb[k.cur].slice || k.sleeping != []))
  {
    if n == 0 {
    } else {
      TicksSlice(k, n - 1);
      TicksFrame(k, n - 1);
    }
  }

  /** A current task whose slice is used up gets a new one as it is put back. */
  lemma SwitchRefills(k: K, loc: Locs)
    requires Placed(k, loc) && loc[k.cur] == InReady && k.tcb[k.cur].slice == 0
    ensures NextTcb(k).tcb[k.cur].slice == TIME_SLICE
  {
    assert TaskAgrees(k, loc, k.cur);
    WakeSleepersFrame(k, 0);
  }

  lemma TicksPlaced(k: K, loc: Locs, n: nat)
    requires Placed(k, loc)
    ensures Placed(Ticks(k, n).0, loc)
  {
    TicksFrame(k, n);
    var k1 := Ticks(k, n).0;
    forall u: Tid ensures TaskAgrees(k1, loc, u) {
      assert TaskAgrees(k, loc, u);
    }
  }

  lemma TrapSlices(k: K, loc: Locs, idle: Tid, missed: nat, deferred: bool)
    requires Settled(k, loc, idle) && SlicesOk(k)
    ensures SlicesOk(SystickTrap(k, missed, deferred))
  {
    var (k1, r) := Ticks(k, missed + 1);
    TicksSlice(k, missed + 1);
    TicksFrame(k, missed + 1);
    TicksPlaced(k, loc, missed + 1);
    Via(k1, k1);
    if k1.tcb[k.cur].slice == 0 {
      SwitchRefills(k1, loc);
    }
  }

  lemma StepSlices(w: World, loc: Locs, op: Op)
    requires Inv(w, loc) && SlicesOk(w.k) && Enabled(w, op)
    ensures SlicesOk(Next(w, op).k)
  {
    if op.SystickOp? {
      TrapSlices(w.k, loc, w.idle, op.missed, op.deferred);
    } else {
      StepKeepsSlices(w, op);
    }
  }

  lemma {:induction false} RunSlices(w: World, loc: Locs, ops: seq<Op>, w': World) returns (loc': Locs)
    requires Inv(w, loc) && SlicesOk(w.k) && Reaches(w, ops, w')
    ensures Inv(w', loc') && SlicesOk(w'.k)
    decreases |ops|
  {
    loc' := loc;
    if ops == [] {
    } else {
      StepSlices(w, loc, ops[0]);
      var loc1 := StepInv(w, loc, ops[0]);
      loc' := RunSlices(Next(w, ops[0]), loc1, ops[1..], w');
    }
  }

  /** Between two steps every task has a slice to run on, of at most `TIME_SLICE` ticks. */
  lemma EverySliceIsUsable(w0: World, ops: seq<Op>, w: World)
    requires Initial(w0) && Reaches(w0, ops, w)
    ensures forall t: Tid :: 1 <= w.k.tcb[t].slice <= TIME_SLICE
  {
    InitialInv(w0);
    var loc := RunSlices(w0, seq(TASK_MAX, _ => Dead), ops, w);
  }

  // ---- Preemption by an interrupt ----------------------------------------------------------

  /** Another task, at least as urgent as the current one, is the front of the ready list. */
  ghost predicate Behind(k: K) {
    k.ready != [] && k.ready[0] != k.cur && k.tcb[k.ready[0]].priority <= k.tcb[k.cur].priority
  }

  lemma {:induction false} WakeSleepersBehind(k: K, i: nat)
    requires i <= |k.sleeping| && k.cur !in k.sleeping && Behind(k)
    ensures Behind(WakeSleepers(k, i))
    decreases |k.sleeping| - i
  {
    if i == |k.sleeping| {
    } else if Due(k, k.sleeping[i]) {
      StillIn(k.sleeping, k.sleeping[i]);
      WakeSleepersBehind(WakeOne(k, k.sleeping[i]), i);
    } else {
      WakeSleepersBehind(k, i + 1);
    }
  }

  lemma RequeueBehind(k: K)
    requires Behind(k)
    ensures Requeue(k).ready != [] && Requeue(k).ready[0] != k.cur
  {
    var q := Remove(k.ready, k.cur);
    assert q != [] && q[0] == k.ready[0];
  }

  /** A switch takes the processor from a task that is not the front. */
  lemma SwitchFromBehind(k: K)
    requires Behind(k) && k.cur !in k.sleeping
    ensures NextTcb(k).cur != k.cur
  {
    WakeSleepersBehind(k, 0);
    WakeSleepersFrame(k, 0);
    RequeueBehind(WakeSleepers(k, 0));
  }

  /** A systick interrupt takes the processor from a task that is not the front of the ready list (a more
      urgent task was made ready by `create_raw` or from an interrupt) exactly if the slice ends with it,
      some task sleeps, or a switch was deferred to it. In particular the next tick alone does not. */
  lemma PreemptedIff(w: World, loc: Locs, missed: nat, deferred: bool)
    requires Inv(w, loc) && w.k.started && SortedReady(w.k) && w.k.cur != w.k.ready[0]
    ensures SystickTrap(w.k, missed, deferred).cur != w.k.cur <==>
              missed + 1 >= w.k.tcb[w.k.cur].slice || w.k.sleeping != [] || deferred
  {
    var k := w.k;
    var (k1, r) := Ticks(k, missed + 1);
    TicksSlice(k, missed + 1);
    TicksFrame(k, missed + 1);
    if r || deferred {
      assert k.cur in k.ready && k.cur !in k.sleeping;
      assert k1.tcb[k.ready[0]].priority == k.tcb[k.ready[0]].priority;
      SwitchFromBehind(k1);
    }
  }
}
