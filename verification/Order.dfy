/** Strict priority scheduling: where it holds, and the one operation that can break it. */
module Order {
  import opened Config
  import opened Lists
  import opened KernelSpec
  import opened SyncSpec
  import opened Place
  import opened Ordered
  import opened World
  import opened Safety
  import opened Inherit

  lemma NextTcbFront(k: K)
    ensures var k' := NextTcb(k);
            k'.ready != [] ==> k'.cur == k'.ready[0] && (k'.cur != k.cur ==> k'.tcb[k'.cur].status == Running)
  {
    WakeSleepersFrame(k, 0);
  }

  // ---- Every operation but unlock keeps the ready list in order ----------------------------

  lemma BlockCurrentSorted(k: K)
    requires SortedReady(k)
    ensures SortedReady(BlockCurrent(k))
  {
    RemoveSorted(k.tcb, k.ready, k.cur);
    SortedSame(k.tcb, BlockCurrent(k).tcb, BlockCurrent(k).ready);
  }

  lemma CreateRawSorted(k: K, loc: Locs, p: nat)
    requires Placed(k, loc) && SortedReady(k)
    ensures SortedReady(CreateRaw(k, p).0)
  {
    var (k1, r) := AllocTid(k);
    if r.Some? {
      var t := r.value;
      assert TaskAgrees(k, loc, t);
      var k2 := k1.(tcb := k1.tcb[t := k1.tcb[t].(priority := p, slice := TIME_SLICE)]);
      SortedFrame(k.tcb, k2.tcb, k.ready, t);
      MakeReadySorted(k2, t);
    }
  }

  lemma CreateOpsSorted(w: World, loc: Locs, op: Op)
    requires Inv(w, loc) && SortedReady(w.k) && Enabled(w, op)
    requires op.CreateOp? || op.CreateRawOp? || op.LaunchOp?
    ensures SortedReady(Next(w, op).k)
  {
    var p := if op.LaunchOp? then PRI_MIN else op.priority;
    var (k1, r) := CreateRaw(w.k, p);
    CreateRawSorted(w.k, loc, p);
    match op
    case CreateOp(_) => NextTcbSorted(k1);
    case CreateRawOp(_) =>
    case LaunchOp => SortedSame(k1.tcb, Launch(w.k).tcb, k1.ready);
  }

  lemma RemovalSorted(k: K, k': K, t: Tid)
    requires SortedReady(k) && k'.ready == Remove(k.ready, t)
    requires forall u: Tid :: k'.tcb[u].priority == k.tcb[u].priority
    ensures SortedReady(k') && SortedReady(NextTcb(k'))
  {
    RemoveSorted(k.tcb, k.ready, t);
    SortedSame(k.tcb, k'.tcb, k'.ready);
    NextTcbSorted(k');
  }

  lemma SchedOpsSorted(w: World, op: Op)
    requires SortedReady(w.k) && Enabled(w, op)
    requires op.ExitOp? || op.TerminateOp? || op.BlockOp? || op.ResumeOp? || op.DelayOp? || op.SystickOp?
    ensures SortedReady(Next(w, op).k)
  {
    var k := w.k;
    match op
    case ExitOp => RemovalSorted(k, FreeTid(k.(ready := Remove(k.ready, k.cur)), k.cur), k.cur);
    case TerminateOp(t) => RemovalSorted(k, Discard(k, t), t);
    case BlockOp(t) => RemovalSorted(k, Suspend(k, t), t);
    case ResumeOp(t) =>
      MakeReadySorted(k.(blocked := Remove(k.blocked, t)), t);
      NextTcbSorted(Unblock(k, t));
    case DelayOp(n) => DelaySorted(k, n);
    case SystickOp(missed, _) =>
      TicksFrame(k, missed + 1);
      var k1 := Ticks(k, missed + 1).0;
      SortedSame(k.tcb, k1.tcb, k1.ready);
      NextTcbSorted(k1);
  }

  lemma DelaySorted(k: K, n: nat)
    requires SortedReady(k)
    ensures SortedReady(Delay(k, n))
  {
    if n != 0 {
      var wake := WrapU32(k.ticks + n);
      assert Delay(k, n) == NextTcb(FallAsleep(k, wake));
      RemovalSorted(k, FallAsleep(k, wake), k.cur);
    }
  }

  lemma {:induction false} MakeAllReadySorted(k: K, q: seq<Tid>)
    requires SortedReady(k)
    ensures SortedReady(MakeAllReady(k, q))
    decreases |q|
  {
    if q == [] {
    } else {
      MakeReadySorted(k, q[0]);
      MakeAllReadySorted(MakeReady(k, q[0]), q[1..]);
    }
  }

  lemma SyncOpsSorted(w: World, op: Op)
    requires SortedReady(w.k) && Enabled(w, op)
    requires op.DownOp? || op.UpOp? || op.IsrUpOp? || op.NotifyOp? || op.NotifyAllOp?
    ensures SortedReady(Next(w, op).k)
  {
    var k := w.k;
    match op
    case DownOp(_) => RemovalSorted(k, BlockCurrent(k), k.cur);
    case UpOp(s) => UpSorted(k, w.semas[s]);
    case IsrUpOp(s) => UpSorted(k, w.semas[s]);
    case NotifyOp(c) =>
      if w.cvs[c] != [] {
        MakeReadySorted(k, w.cvs[c][0]);
        NextTcbSorted(MakeReady(k, w.cvs[c][0]));
      }
    case NotifyAllOp(c) =>
      MakeAllReadySorted(k, w.cvs[c]);
      NextTcbSorted(MakeAllReady(k, w.cvs[c]));
  }

  lemma UpSorted(k: K, s: SemaS)
    requires SortedReady(k)
    ensures SortedReady(UpFromIsr(k, s).0) && SortedReady(Up(k, s).0)
  {
    if s.queue != [] {
      MakeReadySorted(k, s.queue[0]);
    }
    NextTcbSorted(UpFromIsr(k, s).0);
  }

  /** Raising the owner moves it in the ready list if it is there, so the list stays in order. */
  lemma BoostSorted(k: K, loc: Locs, o: Tid)
    requires Placed(k, loc) && SortedReady(k) && o != k.cur
    ensures SortedReady(Boost(k, o))
  {
    var k' := Boost(k, o);
    assert TaskAgrees(k, loc, o);
    if k.tcb[k.cur].priority < k.tcb[o].priority {
      if k.tcb[o].status == Ready {
        var q := Remove(k.ready, o);
        RemoveSorted(k.tcb, k.ready, o);
        RemoveMembers(k.ready, o);
        SortedFrame(k.tcb, k'.tcb, q, o);
        if |q| < TASK_MAX {
          EnqueueSorted(k'.tcb, q, o);
        }
      } else {
        SortedFrame(k.tcb, k'.tcb, k.ready, o);
      }
    }
  }

  lemma LockSorted(w: World, loc: Locs, i: nat)
    requires Inv(w, loc) && SortedReady(w.k) && w.k.started && i < |w.mutexes|
    ensures SortedReady(Lock1(w, i).k)
  {
    var m := w.mutexes[i];
    if m.owner.Some? && m.owner.value != w.k.cur {
      var k1 := Boost(w.k, m.owner.value);
      BoostSorted(w.k, loc, m.owner.value);
      RemovalSorted(k1, BlockCurrent(k1), k1.cur);
    }
  }

  /** The caller of `CondVar::wait` is off the ready list when it gets its own priority back, so the
      list stays in order. */
  lemma RestoredSorted(k: K)
    requires SortedReady(k) && k.cur !in k.ready
    ensures SortedReady(Restore(k))
  {
    SortedFrame(k.tcb, Restore(k).tcb, k.ready, k.cur);
  }

  lemma UnlockOffListSorted(k: K, m: MutexS)
    requires SortedReady(k) && k.cur !in k.ready
    ensures SortedReady(Unlock(k, m).0)
  {
    var k1 := Release(k, m).0;
    RestoredSorted(k);
    if m.queue != [] {
      MakeReadySorted(Restore(k), m.queue[0]);
    }
    NextTcbSorted(k1);
    assert Unlock(k, m).0 in {k, k1, NextTcb(k1)};
  }

  lemma WaitSorted(k: K, loc: Locs, q: seq<Tid>, m: MutexS)
    requires Placed(k, loc) && SortedReady(k)
    ensures SortedReady(CvWait(k, q, m).0)
  {
    var k0 := BlockCurrent(k);
    BlockCurrentSorted(k);
    RemoveMembers(k.ready, k.cur);
    UnlockOffListSorted(k0, m);
    NextTcbSorted(Unlock(k0, m).0);
  }

  lemma StepSorted(w: World, loc: Locs, op: Op)
    requires Inv(w, loc) && SortedReady(w.k) && Enabled(w, op) && !op.UnlockOp?
    ensures SortedReady(Next(w, op).k)
  {
    if op.CreateOp? || op.CreateRawOp? || op.LaunchOp? {
      CreateOpsSorted(w, loc, op);
    } else if op.ExitOp? || op.TerminateOp? || op.BlockOp? || op.ResumeOp? || op.DelayOp? || op.SystickOp? {
      SchedOpsSorted(w, op);
    } else if op.DownOp? || op.UpOp? || op.IsrUpOp? || op.NotifyOp? || op.NotifyAllOp? {
      SyncOpsSorted(w, op);
    } else if op.LockOp? {
      LockSorted(w, loc, op.m);
    } else if op.WaitLockOp? {
      LockSorted(w, loc, w.pc[w.k.cur].m);
    } else if op.WaitOp? {
      WaitSorted(w.k, loc, w.cvs[op.c], w.mutexes[op.m]);
    } else {
      NextTcbSorted(w.k);
    }
  }

  lemma {:induction false} RunSorted(w: World, loc: Locs, ops: seq<Op>, w': World) returns (loc': Locs)
    requires Inv(w, loc) && SortedReady(w.k) && Reaches(w, ops, w')
    requires forall op | op in ops :: !op.UnlockOp?
    ensures Inv(w', loc') && SortedReady(w'.k)
    decreases |ops|
  {
    loc' := loc;
    if ops == [] {
    } else {
      StepSorted(w, loc, ops[0]);
      var loc1 := StepInv(w, loc, ops[0]);
      loc' := RunSorted(Next(w, ops[0]), loc1, ops[1..], w');
    }
  }

  // ---- The choice of the current task ------------------------------------------------------

  /** `k'` has the current task of `k`, or the front of its own ready list, marked as running. */
  predicate KeepsOrFront(k: K, k': K) {
    k'.cur == k.cur || k'.ready == [] || (k'.cur == k'.ready[0] && k'.tcb[k'.cur].status == Running)
  }

  lemma TrapKeepsOrFront(k: K, missed: nat, deferred: bool)
    ensures KeepsOrFront(k, SystickTrap(k, missed, deferred))
  {
    TicksFrame(k, missed + 1);
    NextTcbFront(Ticks(k, missed + 1).0);
  }

  lemma UnlockKeepsOrFront(k: K, m: MutexS)
    ensures KeepsOrFront(k, Unlock(k, m).0)
  {
    var k1 := Release(k, m).0;
    NextTcbFront(k1);
    assert Unlock(k, m).0 in {k, k1, NextTcb(k1)};
  }

  lemma WaitKeepsOrFront(k: K, q: seq<Tid>, m: MutexS)
    ensures KeepsOrFront(k, CvWait(k, q, m).0)
  {
    UnlockKeepsOrFront(BlockCurrent(k), m);
    NextTcbFront(Unlock(BlockCurrent(k), m).0);
  }

  lemma SemaKeepsOrFront(w: World, op: Op)
    requires Enabled(w, op) && (op.DownOp? || op.UpOp? || op.IsrUpOp? || op.TryDownOp?
                                || op.WaitYieldOp? || op.NotifyOp? || op.NotifyAllOp?)
    ensures KeepsOrFront(w.k, Next(w, op).k)
  {
    var k := w.k;
    match op
    case DownOp(_) => NextTcbFront(BlockCurrent(k));
    case UpOp(s) => NextTcbFront(UpFromIsr(k, w.semas[s]).0);
    case NotifyOp(c) =>
      if w.cvs[c] != [] {
        NextTcbFront(MakeReady(k, w.cvs[c][0]));
      }
    case NotifyAllOp(c) => NotifyAllKeepsOrFront(k, w.cvs[c]);
    case _ => NextTcbFront(k);
  }

  lemma LockKeepsOrFront(k: K, m: MutexS)
    ensures KeepsOrFront(k, Lock(k, m).0)
  {
    if m.owner.Some? && m.owner.value != k.cur {
      NextTcbFront(BlockCurrent(Boost(k, m.owner.value)));
    }
  }

  lemma {:induction false} MakeAllReadyFrame(k: K, q: seq<Tid>)
    ensures MakeAllReady(k, q).cur == k.cur && MakeAllReady(k, q).sleeping == k.sleeping
    decreases |q|
  {
    if q == [] {
    } else {
      MakeAllReadyFrame(MakeReady(k, q[0]), q[1..]);
    }
  }

  lemma NotifyAllKeepsOrFront(k: K, q: seq<Tid>)
    ensures KeepsOrFront(k, NotifyAll(k, q))
  {
    MakeAllReadyFrame(k, q);
    NextTcbFront(MakeAllReady(k, q));
  }

  lemma NewTaskKeepsOrFront(w: World, op: Op)
    requires Enabled(w, op) && (op.CreateOp? || op.CreateRawOp? || op.LaunchOp?)
    ensures KeepsOrFront(w.k, Next(w, op).k)
  {
    if op.CreateOp? {
      NextTcbFront(CreateRaw(w.k, op.priority).0);
    }
  }

  lemma TaskKeepsOrFront(w: World, op: Op)
    requires Enabled(w, op)
    requires op.ExitOp? || op.BlockOp? || op.ResumeOp? || op.TerminateOp? || op.DelayOp? || op.YieldOp? || op.SwitchOp?
    ensures KeepsOrFront(w.k, Next(w, op).k)
  {
    var k := w.k;
    match op
    case ExitOp => NextTcbFront(FreeTid(k.(ready := Remove(k.ready, k.cur)), k.cur));
    case TerminateOp(t) => NextTcbFront(Discard(k, t));
    case BlockOp(t) => NextTcbFront(Suspend(k, t));
    case ResumeOp(t) => NextTcbFront(Unblock(k, t));
    case DelayOp(n) => DelayKeepsOrFront(k, n);
    case _ => NextTcbFront(k);
  }

  lemma DelayKeepsOrFront(k: K, n: nat)
    ensures KeepsOrFront(k, Delay(k, n))
  {
    if n != 0 {
      var wake := WrapU32(k.ticks + n);
      assert Delay(k, n) == NextTcb(FallAsleep(k, wake));
      NextTcbFront(FallAsleep(k, wake));
    }
  }

  lemma SwitchesToFront(w: World, op: Op)
    requires Enabled(w, op)
    ensures KeepsOrFront(w.k, Next(w, op).k)
  {
    if op.SystickOp? {
      TrapKeepsOrFront(w.k, op.missed, op.deferred);
    } else if op.WaitOp? {
      WaitKeepsOrFront(w.k, w.cvs[op.c], w.mutexes[op.m]);
    } else if op.LockOp? {
      LockKeepsOrFront(w.k, w.mutexes[op.m]);
    } else if op.WaitLockOp? {
      LockKeepsOrFront(w.k, w.mutexes[w.pc[w.k.cur].m]);
    } else if op.UnlockOp? {
      UnlockKeepsOrFront(w.k, w.mutexes[op.m]);
    } else if op.CreateOp? || op.CreateRawOp? || op.LaunchOp? {
      NewTaskKeepsOrFront(w, op);
    } else if op.ExitOp? || op.BlockOp? || op.ResumeOp? || op.TerminateOp? || op.DelayOp? || op.YieldOp?
              || op.SwitchOp? {
      TaskKeepsOrFront(w, op);
    } else if !op.LockedOp? {
      SemaKeepsOrFront(w, op);
    }
  }

  ghost predicate CurrentMostUrgent(k: K) {
    k.cur in k.ready && forall u | u in k.ready :: k.tcb[k.cur].priority <= k.tcb[u].priority
  }

  lemma StepChooses(w: World, loc: Locs, op: Op)
    requires Inv(w, loc) && Enabled(w, op) && SortedReady(Next(w, op).k)
    ensures Next(w, op).k.cur != w.k.cur ==> CurrentMostUrgent(Next(w, op).k)
  {
    var loc' := StepInv(w, loc, op);
    SwitchesToFront(w, op);
    var k' := Next(w, op).k;
    if w.k.started || op.LaunchOp? {
      assert k'.cur in k'.ready;
    }
  }

  /** In a run that never unlocks, every change of the current task is to a most urgent ready task. */
  lemma StrictPriority(w0: World, ops: seq<Op>, w: World, op: Op)
    requires Initial(w0) && Reaches(w0, ops, w) && Enabled(w, op)
    requires forall o | o in ops :: !o.UnlockOp?
    requires !op.UnlockOp?
    ensures SortedReady(Next(w, op).k)
    ensures Next(w, op).k.cur != w.k.cur ==> CurrentMostUrgent(Next(w, op).k)
  {
    InitialInv(w0);
    var loc := RunSorted(w0, seq(TASK_MAX, _ => Dead), ops, w);
    StepSorted(w, loc, op);
    StepChooses(w, loc, op);
  }

  // ---- Unlock ------------------------------------------------------------------------------

  ghost predicate NoneDue(k: K) {
    forall t | t in k.sleeping :: !Due(k, t)
  }

  lemma {:induction false} NoneWoken(k: K, i: nat)
    requires NoneDue(k) && i <= |k.sleeping|
    ensures WakeSleepers(k, i) == k
    decreases |k.sleeping| - i
  {
    if i == |k.sleeping| {
    } else {
      assert k.sleeping[i] in k.sleeping;
      NoneWoken(k, i + 1);
    }
  }

  /** No ready task behind the current one is more urgent than the current task's own priority. */
  ghost predicate NoneOvertakes(k: K) {
    forall i, j | 0 <= i < j < |k.ready| && k.ready[i] == k.cur ::
      Base(k, k.cur) <= k.tcb[k.ready[j]].priority
  }

  /** The ready list after a raised owner gave up its mutex, before the switch: the first waiter
      stands right before the owner, whose priority has just been lowered where it stood. */
  lemma ReleasedReady(k: K, m: MutexS, a: seq<Tid>, b: seq<Tid>, w: Tid)
    requires k.ready == a + [k.cur] + b && |k.ready| < TASK_MAX && NoDup(k.ready) && SortedReady(k)
    requires k.tcb[k.cur].priority < k.tcb[k.cur].sub < PRI_INV
    requires m.queue != [] && m.queue[0] == w && w !in k.ready
    requires k.tcb[w].priority == k.tcb[k.cur].priority
    ensures var (k', m', y) := Release(k, m);
            && k'.ready == a + [w, k.cur] + b && y
            && k'.tcb == Restore(k).tcb[w := Restore(k).tcb[w].(status := Ready)]
  {
    var k1 := Restore(k);
    var tcb := SetStatus(k1.tcb, w, Ready);
    forall i | 0 <= i < |a| ensures tcb[a[i]].priority <= tcb[w].priority {
      assert k.ready[i] == a[i] && k.ready[|a|] == k.cur && a[i] != k.cur;
      assert k.tcb[k.ready[i]].priority <= k.tcb[k.ready[|a|]].priority;
    }
    EnqueueBefore(tcb, a, w, k.cur, b);
  }

  /** A task is inserted right before the first one less urgent. */
  lemma EnqueueBefore(tcb: Tcbs, a: seq<Tid>, t: Tid, c: Tid, b: seq<Tid>)
    requires |a| + 1 + |b| < TASK_MAX && tcb[t].priority < tcb[c].priority
    requires forall i | 0 <= i < |a| :: tcb[a[i]].priority <= tcb[t].priority
    ensures Enqueue(tcb, a + [c] + b, t) == a + [t, c] + b
  {
    var q := a + [c] + b;
    assert q[|a|] == c && forall i | 0 <= i < |a| :: q[i] == a[i];
    PosUnique(q, ByPriority(tcb, t), |a|);
    assert q[..|a|] == a && q[|a|..] == [c] + b;
  }

  ghost predicate AllAtMost(tcb: Tcbs, q: seq<Tid>, p: nat) {
    forall i | 0 <= i < |q| :: tcb[q[i]].priority <= p
  }

  ghost predicate AllAtLeast(tcb: Tcbs, q: seq<Tid>, p: nat) {
    forall i | 0 <= i < |q| :: p <= tcb[q[i]].priority
  }

  /** The parts of the ready list before and behind the current task. */
  lemma AroundCurrent(k: K, a: seq<Tid>, b: seq<Tid>, w: Tid)
    requires k.ready == a + [k.cur] + b && NoDup(k.ready) && SortedReady(k) && w !in k.ready
    ensures k.cur !in a && k.cur !in b && w !in a && w !in b
    ensures Sorted(k.tcb, a) && Sorted(k.tcb, b)
    ensures AllAtMost(k.tcb, a, k.tcb[k.cur].priority) && AllAtLeast(k.tcb, b, k.tcb[k.cur].priority)
    ensures NoneOvertakes(k) <==> AllAtLeast(k.tcb, b, Base(k, k.cur))
  {
    var q, n := k.ready, |a|;
    assert q[n] == k.cur;
    assert forall i | 0 <= i < |a| :: a[i] == q[i];
    assert forall i | 0 <= i < |b| :: b[i] == q[n + 1 + i];
    assert forall j | n < j < |q| :: q[j] == b[j - n - 1];
  }

  lemma Glue(tcb: Tcbs, a: seq<Tid>, c: seq<Tid>, b: seq<Tid>, p: nat)
    requires Sorted(tcb, a) && Sorted(tcb, b) && Sorted(tcb, c)
    requires AllAtMost(tcb, a, p) && AllAtLeast(tcb, c, p) && AllAtLeast(tcb, b, p)
    requires forall i, j | 0 <= i < |c| && 0 <= j < |b| :: tcb[c[i]].priority <= tcb[b[j]].priority
    ensures Sorted(tcb, a + c + b)
  {
  }

  /** The table after the hand-off: only the owner's priority is lowered, to its own. */
  ghost predicate Lowered(k: K, tcb: Tcbs, w: Tid) {
    && tcb[w].priority == k.tcb[k.cur].priority && tcb[k.cur].priority == Base(k, k.cur)
    && forall t: Tid | t != k.cur && t != w :: tcb[t].priority == k.tcb[t].priority
  }

  lemma WithoutOwner(k: K, tcb: Tcbs, a: seq<Tid>, b: seq<Tid>, w: Tid)
    requires k.ready == a + [k.cur] + b && NoDup(k.ready) && SortedReady(k) && w !in k.ready
    requires Lowered(k, tcb, w)
    ensures Sorted(tcb, a) && Sorted(tcb, b) && Sorted(tcb, a + [w] + b)
    ensures AllAtMost(tcb, a, tcb[w].priority) && AllAtLeast(tcb, b, tcb[w].priority)
    ensures AllAtLeast(tcb, b, Base(k, k.cur)) <==> NoneOvertakes(k)
  {
    AroundCurrent(k, a, b, w);
    assert forall i | 0 <= i < |a| :: a[i] in a;
    assert forall i | 0 <= i < |b| :: b[i] in b;
    Glue(tcb, a, [w], b, tcb[w].priority);
  }

  /** The order of that list, when nothing in it moves any more. */
  lemma LoweredInPlace(k: K, tcb: Tcbs, a: seq<Tid>, b: seq<Tid>, w: Tid)
    requires k.ready == a + [k.cur] + b && NoDup(k.ready) && SortedReady(k) && w !in k.ready
    requires Lowered(k, tcb, w) && tcb[w].priority < tcb[k.cur].priority
    ensures Sorted(tcb, a + [w, k.cur] + b) <==> NoneOvertakes(k)
  {
    WithoutOwner(k, tcb, a, b, w);
    if NoneOvertakes(k) {
      Glue(tcb, a, [w, k.cur], b, tcb[w].priority);
    } else {
      var j :| 0 <= j < |b| && tcb[b[j]].priority < tcb[k.cur].priority;
      var r := a + [w, k.cur] + b;
      assert r[|a| + 1] == k.cur && r[|a| + 2 + j] == b[j];
    }
  }

  lemma RemoveMiddle(a: seq<Tid>, t: Tid, b: seq<Tid>)
    requires t !in a
    ensures Remove(a + [t] + b, t) == a + b
  {
    var q := a + [t] + b;
    assert q[|a|] == t && q[..|a|] == a && q[|a| + 1..] == b;
    RemoveAt(q, |a|);
  }

  lemma RequeueThenSelectSorted(k: K)
    requires Sorted(k.tcb, Remove(k.ready, k.cur)) && Requeues(k)
    ensures SortedReady(Select(Requeue(k)))
  {
    RequeueSorted(k);
    SortedSame(Requeue(k).tcb, Select(Requeue(k)).tcb, Requeue(k).ready);
  }

  /** The switch puts the owner back in its place. */
  lemma RequeuedAfterRelease(k: K, k1: K, a: seq<Tid>, b: seq<Tid>, w: Tid)
    requires k.ready == a + [k.cur] + b && NoDup(k.ready) && SortedReady(k) && w !in k.ready
    requires Lowered(k, k1.tcb, w) && k1.cur == k.cur && k1.ready == a + [w, k.cur] + b
    requires Requeues(k1) && NoneDue(k1)
    ensures SortedReady(NextTcb(k1))
  {
    NoneWoken(k1, 0);
    WithoutOwner(k, k1.tcb, a, b, w);
    AroundCurrent(k, a, b, w);
    assert k.ready[|a|] == k.cur;
    assert k1.ready == (a + [w]) + [k.cur] + b;
    RemoveMiddle(a + [w], k.cur, b);
    RequeueThenSelectSorted(k1);
  }

  /** The switch after the hand-off, with no sleeper due. */
  lemma SwitchAfterRelease(k: K, k1: K, a: seq<Tid>, b: seq<Tid>, w: Tid)
    requires k.ready == a + [k.cur] + b && NoDup(k.ready) && SortedReady(k) && w !in k.ready
    requires Lowered(k, k1.tcb, w) && k1.tcb[w].priority < k1.tcb[k.cur].priority
    requires k1.cur == k.cur && k1.ready == a + [w, k.cur] + b && NoneDue(k1)
    requires k1.tcb[k.cur].status == Ready || k1.tcb[k.cur].status == Running
    ensures SortedReady(NextTcb(k1)) <==> Requeues(k1) || NoneOvertakes(k)
  {
    if Requeues(k1) {
      RequeuedAfterRelease(k, k1, a, b, w);
    } else {
      NoneWoken(k1, 0);
      LoweredInPlace(k, k1.tcb, a, b, w);
      assert Requeue(k1) == k1;
      SortedIff(k1.tcb, Select(k1).tcb, k1.ready);
    }
  }

  lemma SortedIff(tcb: Tcbs, tcb': Tcbs, q: seq<Tid>)
    requires forall t: Tid :: tcb'[t].priority == tcb[t].priority
    ensures Sorted(tcb', q) <==> Sorted(tcb, q)
  {
  }

  /** What the invariants say about the first waiter of a raised owner. */
  lemma RaisedBy(w: World, loc: Locs, i: nat) returns (front: Tid)
    requires Inv(w, loc) && Exact(w) && Enabled(w, UnlockOp(i))
    requires w.k.tcb[w.k.cur].sub != PRI_INV
    ensures w.mutexes[i].queue != [] && front == w.mutexes[i].queue[0] && front !in w.k.ready
    ensures front !in w.k.sleeping && w.k.cur in w.k.ready && w.k.cur !in w.k.sleeping
    ensures w.k.tcb[front].priority == w.k.tcb[w.k.cur].priority < w.k.tcb[w.k.cur].sub < PRI_INV
    ensures w.k.tcb[w.k.cur].status == Ready || w.k.tcb[w.k.cur].status == Running
  {
    var m := w.mutexes[i];
    HolderOwns(w, loc, i, w.k.cur);
    assert ExactAt(w, i) && TaskExact(w, w.k.cur) && TaskAgrees(w.k, loc, w.k.cur);
    assert Holds(Queue(w, WaitMutex(i)), WaitMutex(i), loc);
    front := m.queue[0];
    assert front in m.queue;
  }

  lemma ReleaseRaised(k: K, m: MutexS, front: Tid)
    requires SortedReady(k) && NoneDue(k) && NoDup(k.ready) && m.depth == 1
    requires m.queue != [] && front == m.queue[0] && front !in k.ready
    requires front !in k.sleeping && k.cur in k.ready && k.cur !in k.sleeping
    requires k.tcb[front].priority == k.tcb[k.cur].priority < k.tcb[k.cur].sub < PRI_INV
    requires k.tcb[k.cur].status == Ready || k.tcb[k.cur].status == Running
    ensures SortedReady(Unlock(k, m).0) <==> Requeues(k) || NoneOvertakes(k)
  {
    var n :| 0 <= n < |k.ready| && k.ready[n] == k.cur;
    var a, b := k.ready[..n], k.ready[n + 1..];
    Room(k.ready, front);
    ReleasedReady(k, m, a, b, front);
    var (k1, m1, y) := Release(k, m);
    assert k1.tcb[k.cur].status == k.tcb[k.cur].status && k1.tcb[k.cur].slice == k.tcb[k.cur].slice;
    ReleaseKeepsSleepers(k, m);
    LoweredBy(k, m, front);
    SwitchAfterRelease(k, k1, a, b, front);
    assert Unlock(k, m).0 == NextTcb(k1);
  }

  lemma ReleaseKeepsSleepers(k: K, m: MutexS)
    requires NoneDue(k) && m.queue != [] && m.queue[0] !in k.sleeping && k.cur !in k.sleeping
    ensures NoneDue(Release(k, m).0) && Release(k, m).0.cur == k.cur
  {
  }

  lemma LoweredBy(k: K, m: MutexS, front: Tid)
    requires m.queue != [] && front == m.queue[0] && front != k.cur
    requires k.tcb[front].priority == k.tcb[k.cur].priority < k.tcb[k.cur].sub < PRI_INV
    ensures Lowered(k, Release(k, m).0.tcb, front)
  {
  }

  lemma UnlockRaised(w: World, loc: Locs, i: nat)
    requires Inv(w, loc) && Exact(w) && SortedReady(w.k) && NoneDue(w.k)
    requires Enabled(w, UnlockOp(i)) && w.mutexes[i].depth == 1
    requires w.k.tcb[w.k.cur].sub != PRI_INV
    ensures SortedReady(Next(w, UnlockOp(i)).k) <==> Requeues(w.k) || NoneOvertakes(w.k)
  {
    var front := RaisedBy(w, loc, i);
    ReleaseRaised(w.k, w.mutexes[i], front);
  }

  lemma UnlockUnraised(w: World, loc: Locs, i: nat)
    requires Inv(w, loc) && SortedReady(w.k) && Enabled(w, UnlockOp(i))
    requires w.k.tcb[w.k.cur].sub == PRI_INV || w.mutexes[i].depth > 1
    ensures SortedReady(Next(w, UnlockOp(i)).k)
  {
    var k, m := w.k, w.mutexes[i];
    HolderOwns(w, loc, i, k.cur);
    if m.depth == 1 {
      var k1 := Release(k, m).0;
      if m.queue != [] {
        MakeReadySorted(k, m.queue[0]);
      }
      NextTcbSorted(k1);
    }
  }

  /** Unlock keeps the ready list in order exactly if the caller is not raised, or not at its last
      level, or will be put back in its place by the switch, or no ready task behind it is more
      urgent than its own priority. (No sleeper is due and no task has more than one mutex.) */
  lemma UnlockKeepsOrderIff(w: World, loc: Locs, i: nat)
    requires Inv(w, loc) && Exact(w) && SortedReady(w.k) && NoneDue(w.k) && Enabled(w, UnlockOp(i))
    ensures SortedReady(Next(w, UnlockOp(i)).k) <==>
              w.k.tcb[w.k.cur].sub == PRI_INV || w.mutexes[i].depth > 1
              || Requeues(w.k) || NoneOvertakes(w.k)
  {
    HolderOwns(w, loc, i, w.k.cur);
    assert MutexOk(w, loc, i);
    if w.k.tcb[w.k.cur].sub == PRI_INV || w.mutexes[i].depth > 1 {
      UnlockUnraised(w, loc, i);
    } else {
      UnlockRaised(w, loc, i);
    }
  }

  // ---- Voluntary yield ---------------------------------------------------------------------

  lemma RequeuedBehindEqual(k: K)
    requires SortedReady(k) && NoDup(k.ready) && 1 < |k.ready| <= TASK_MAX && k.cur == k.ready[0] && Requeues(k)
    requires k.tcb[k.ready[1]].priority == k.tcb[k.cur].priority
    ensures Requeue(k).ready[0] == k.ready[1]
  {
    var tcb := k.tcb[k.cur := k.tcb[k.cur].(slice := TIME_SLICE, status := Ready)];
    var q := k.ready[1..];
    assert Remove(k.ready, k.cur) == q;
    RemoveSorted(k.tcb, k.ready, k.cur);
    SortedSame(k.tcb, tcb, q);
    EnqueueKeepsTurn(tcb, q, k.cur);
    assert tcb[q[0]].priority <= tcb[k.cur].priority;
  }

  /** A task at the front that yields to an equal gives way exactly if its status is Running or its time
      slice is used up: one that has been selected twice in a row is only Ready, and keeps the processor. */
  lemma YieldGivesWayIff(w: World, loc: Locs)
    requires Inv(w, loc) && w.k.started && SortedReady(w.k) && NoneDue(w.k)
    requires |w.k.ready| > 1 && w.k.cur == w.k.ready[0]
    requires w.k.tcb[w.k.ready[1]].priority == w.k.tcb[w.k.cur].priority
    ensures NextTcb(w.k).cur != w.k.cur <==> Requeues(w.k)
  {
    var k := w.k;
    NoneWoken(k, 0);
    assert TaskAgrees(k, loc, k.cur);
    Pigeonhole(k.ready, TASK_MAX);
    if Requeues(k) {
      RequeuedBehindEqual(k);
      assert k.ready[1] != k.ready[0];
    } else {
      assert Requeue(k) == k;
    }
  }
}
