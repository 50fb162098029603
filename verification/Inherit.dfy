/** Priority inheritance is exact when no task takes or awaits a second mutex while it has one: the
    owner of a mutex runs at the most urgent of its own priority and those of the waiters, and gets
    its own priority back with the last unlock. */
module Inherit {
  import opened Config
  import opened Lists
  import opened KernelSpec
  import opened SyncSpec
  import opened Place
  import opened Ordered
  import opened World
  import opened Safety

  /** The priority a task was created with, whether or not it is raised at the moment. */
  function Base(k: K, t: Tid): nat {
    if k.tcb[t].sub == PRI_INV then k.tcb[t].priority else k.tcb[t].sub
  }

  ghost predicate Owns(w: World, t: Tid) {
    exists i | 0 <= i < |w.mutexes| :: w.mutexes[i].owner == Some(t)
  }

  /** A real priority, and a saved one only above a raised one. */
  ghost predicate PriorityOk(k: K, t: Tid) {
    && k.tcb[t].priority < PRI_INV
    && (k.tcb[t].sub == PRI_INV || k.tcb[t].priority < k.tcb[t].sub < PRI_INV)
  }

  ghost predicate OnlyOwns(w: World, t: Tid, i: nat) {
    forall j | 0 <= j < |w.mutexes| && j != i :: w.mutexes[j].owner != Some(t)
  }

  ghost predicate ExactAt(w: World, i: nat)
    requires i < |w.mutexes|
  {
    var m := w.mutexes[i];
    && Sorted(w.k.tcb, m.queue)
    && (m.owner.Some? ==> OnlyOwns(w, m.owner.value, i))
    && (m.owner.Some? ==> w.k.tcb[m.owner.value].priority == Least(w.k.tcb, Base(w.k, m.owner.value), m.queue))
  }

  ghost predicate TaskExact(w: World, t: Tid) {
    && PriorityOk(w.k, t)
    && (!Owns(w, t) ==> w.k.tcb[t].sub == PRI_INV)
    && (w.pc[t] != Run ==> OnlyOwns(w, t, w.pc[t].m))
  }

  ghost predicate Exact(w: World) {
    && (forall i | 0 <= i < |w.mutexes| :: ExactAt(w, i))
    && (forall t: Tid :: TaskExact(w, t))
  }

  /** One mutex at a time, and no task created with the priority that marks "none". */
  ghost predicate Disciplined(w: World, op: Op) {
    match op
    case LockOp(i) => OnlyOwns(w, w.k.cur, i)
    case CreateOp(p) => p < PRI_INV
    case CreateRawOp(p) => p < PRI_INV
    case _ => true
  }

  // ---- Steps that leave priorities alone ---------------------------------------------------

  ghost predicate SamePriorities(k: K, k': K) {
    forall t: Tid :: k'.tcb[t].priority == k.tcb[t].priority && k'.tcb[t].sub == k.tcb[t].sub
  }

  lemma NextTcbPriorities(k: K)
    ensures SamePriorities(k, NextTcb(k))
  {
    WakeSleepersFrame(k, 0);
    RequeuePriorities(WakeSleepers(k, 0));
    SelectPriorities(Requeue(WakeSleepers(k, 0)));
  }

  lemma RequeuePriorities(k: K)
    ensures SamePriorities(k, Requeue(k))
  {
  }

  lemma SelectPriorities(k: K)
    ensures SamePriorities(k, Select(k))
  {
  }

  lemma {:induction false} MakeAllReadyPriorities(k: K, q: seq<Tid>)
    ensures SamePriorities(k, MakeAllReady(k, q))
    decreases |q|
  {
    if q == [] {
    } else {
      MakeAllReadyPriorities(MakeReady(k, q[0]), q[1..]);
    }
  }

  predicate TouchesPriorities(op: Op) {
    op.CreateOp? || op.CreateRawOp? || op.LaunchOp?
    || op.LockOp? || op.WaitLockOp? || op.UnlockOp? || op.WaitOp?
  }

  lemma Via(k: K, k1: K)
    requires SamePriorities(k, k1)
    ensures SamePriorities(k, NextTcb(k1))
  {
    NextTcbPriorities(k1);
  }

  lemma TaskOps(w: World, op: Op)
    requires Enabled(w, op) && !TouchesPriorities(op)
    requires op.ExitOp? || op.TerminateOp? || op.BlockOp? || op.ResumeOp? || op.DelayOp? || op.SystickOp?
    ensures SamePriorities(w.k, Next(w, op).k)
  {
    var k := w.k;
    match op
    case ExitOp => Via(k, FreeTid(k.(ready := Remove(k.ready, k.cur)), k.cur));
    case TerminateOp(t) => Via(k, Discard(k, t));
    case BlockOp(t) => Via(k, Suspend(k, t));
    case ResumeOp(t) => Via(k, Unblock(k, t));
    case DelayOp(n) => DelayPriorities(k, n);
    case SystickOp(missed, deferred) => TrapPriorities(k, missed, deferred);
  }

  lemma DelayPriorities(k: K, n: nat)
    ensures SamePriorities(k, Delay(k, n))
  {
    if n != 0 {
      var wake := WrapU32(k.ticks + n);
      assert Delay(k, n) == NextTcb(FallAsleep(k, wake));
      Via(k, FallAsleep(k, wake));
    }
  }

  lemma TrapPriorities(k: K, missed: nat, deferred: bool)
    ensures SamePriorities(k, SystickTrap(k, missed, deferred))
  {
    TicksFrame(k, missed + 1);
    Via(k, Ticks(k, missed + 1).0);
  }

  lemma SyncOps(w: World, op: Op)
    requires Enabled(w, op) && !TouchesPriorities(op)
    requires op.IsrUpOp? || op.DownOp? || op.UpOp? || op.TryDownOp? || op.NotifyOp? || op.NotifyAllOp?
    ensures SamePriorities(w.k, Next(w, op).k)
  {
    var k := w.k;
    match op
    case DownOp(s) => Via(k, BlockCurrent(k));
    case UpOp(s) => Via(k, UpFromIsr(k, w.semas[s]).0);
    case NotifyOp(c) =>
      if w.cvs[c] != [] {
        Via(k, MakeReady(k, w.cvs[c][0]));
      }
    case NotifyAllOp(c) =>
      MakeAllReadyPriorities(k, w.cvs[c]);
      Via(k, MakeAllReady(k, w.cvs[c]));
    case _ =>
  }

  /** The positions after a step that touches no priority. */
  ghost predicate MovesOn(w: World, w': World) {
    forall t: Tid :: w'.pc[t] == w.pc[t] || w'.pc[t] == Run
                     || (w.pc[t].CvYield? && w'.pc[t] == CvRelock(w.pc[t].m))
  }

  lemma OtherOps(w: World, op: Op)
    requires Enabled(w, op) && !TouchesPriorities(op)
    ensures SamePriorities(w.k, Next(w, op).k)
    ensures Next(w, op).mutexes == w.mutexes && MovesOn(w, Next(w, op))
  {
    if op.YieldOp? || op.SwitchOp? || op.WaitYieldOp? {
      Via(w.k, w.k);
    } else if op.ExitOp? || op.TerminateOp? || op.BlockOp? || op.ResumeOp? || op.DelayOp? || op.SystickOp? {
      TaskOps(w, op);
    } else if !op.LockedOp? {
      SyncOps(w, op);
    }
  }

  lemma SameExact(w: World, w': World)
    requires Exact(w) && SamePriorities(w.k, w'.k) && w'.mutexes == w.mutexes && MovesOn(w, w')
    ensures Exact(w')
  {
    forall i | 0 <= i < |w'.mutexes| ensures ExactAt(w', i) {
      assert ExactAt(w, i);
    }
    forall t: Tid ensures TaskExact(w', t) {
      assert TaskExact(w, t);
      assert Owns(w, t) ==> Owns(w', t);
    }
  }

  // ---- Creation ----------------------------------------------------------------------------

  /** Only the new task's entry changes, and no mutex knows that task. */
  lemma CreatedExact(w: World, loc: Locs, w': World, t: Tid)
    requires Inv(w, loc) && Exact(w) && loc[t] == Dead
    requires w'.mutexes == w.mutexes && w'.pc == w.pc[t := Run]
    requires forall u: Tid | u != t ::
               w'.k.tcb[u].priority == w.k.tcb[u].priority && w'.k.tcb[u].sub == w.k.tcb[u].sub
    requires w'.k.tcb[t].priority < PRI_INV && w'.k.tcb[t].sub == PRI_INV
    ensures Exact(w')
  {
    forall i | 0 <= i < |w'.mutexes| ensures ExactAt(w', i) {
      assert ExactAt(w, i) && MutexOk(w, loc, i);
      assert Holds(Queue(w, WaitMutex(i)), WaitMutex(i), loc);
    }
    forall u: Tid ensures TaskExact(w', u) {
      assert TaskExact(w, u);
      assert Owns(w, u) ==> Owns(w', u);
    }
  }

  lemma CreateRawTcb(k: K, p: nat)
    ensures var (k', r) := CreateRaw(k, p);
            && (r.None? ==> k' == k)
            && (r.Some? ==> k'.tcb == k.tcb[r.value := Tcb(Ready, p, PRI_INV, TIME_SLICE, 0)])
  {
  }

  /** Only the entry of the new task `t` changes, to priority `p`. */
  ghost predicate Added(k: K, k': K, t: Tid, p: nat) {
    && (forall u: Tid | u != t :: k'.tcb[u].priority == k.tcb[u].priority && k'.tcb[u].sub == k.tcb[u].sub)
    && k'.tcb[t].priority == p && k'.tcb[t].sub == PRI_INV
  }

  lemma CreateAdds(k: K, p: nat)
    ensures var (k', r) := Create(k, p); if r.None? then k' == k else Added(k, k', r.value, p)
    ensures Create(k, p).1 == CreateRaw(k, p).1
  {
    var (k1, r) := CreateRaw(k, p);
    CreateRawTcb(k, p);
    if r.Some? {
      Via(k1, k1);
      assert Added(k, k1, r.value, p);
    }
  }

  lemma LaunchAdds(k: K)
    requires !k.started
    ensures var r := CreateRaw(k, PRI_MIN).1;
            if r.None? then Launch(k).tcb == k.tcb else Added(k, Launch(k), r.value, PRI_MIN)
  {
    CreateAdds(k, PRI_MIN);
  }

  lemma OpAdds(w: World, op: Op)
    requires Enabled(w, op) && (op.CreateOp? || op.CreateRawOp? || op.LaunchOp?)
    ensures var p := if op.LaunchOp? then PRI_MIN else op.priority;
            var r := CreateRaw(w.k, p).1;
            && (r.None? ==> Next(w, op).k.tcb == w.k.tcb)
            && (r.Some? ==> Added(w.k, Next(w, op).k, r.value, p))
  {
    match op
    case CreateOp(p) => CreateAdds(w.k, p);
    case CreateRawOp(p) => CreateRawTcb(w.k, p);
    case LaunchOp => LaunchAdds(w.k);
  }

  lemma CreateOps(w: World, loc: Locs, op: Op)
    requires Inv(w, loc) && Exact(w) && Enabled(w, op) && Disciplined(w, op)
    requires op.CreateOp? || op.CreateRawOp? || op.LaunchOp?
    ensures Exact(Next(w, op))
  {
    var p := if op.LaunchOp? then PRI_MIN else op.priority;
    var r := CreateRaw(w.k, p).1;
    OpAdds(w, op);
    var loc1 := CreateRawPlaced(w.k, loc, p);
    if r.Some? {
      CreatedExact(w, loc, Next(w, op), r.value);
    } else {
      SameExact(w, Next(w, op));
    }
  }

  // ---- Lock --------------------------------------------------------------------------------

  /** A mutex whose owner and waiters keep their priorities stays exact. */
  lemma KeepsExact(w: World, w': World, i: nat, o: Tid)
    requires i < |w.mutexes| == |w'.mutexes| && w'.mutexes[i] == w.mutexes[i] && ExactAt(w, i)
    requires forall t: Tid | t != o ::
               w'.k.tcb[t].priority == w.k.tcb[t].priority && w'.k.tcb[t].sub == w.k.tcb[t].sub
    requires o !in w.mutexes[i].queue && w.mutexes[i].owner != Some(o)
    requires w.mutexes[i].owner.Some? ==> OnlyOwns(w', w.mutexes[i].owner.value, i)
    ensures ExactAt(w', i)
  {
    SortedFrame(w.k.tcb, w'.k.tcb, w.mutexes[i].queue, o);
    assert w.mutexes[i].queue != [] ==> w.mutexes[i].queue[0] in w.mutexes[i].queue;
  }

  lemma BoostTcb(k: K, o: Tid)
    requires PriorityOk(k, o)
    ensures var (me, b) := (k.tcb[k.cur].priority, Boost(k, o).tcb);
            && (forall t: Tid | t != o :: b[t] == k.tcb[t])
            && b[o].priority == (if me < k.tcb[o].priority then me else k.tcb[o].priority)
            && (me < PRI_INV ==> PriorityOk(Boost(k, o), o))
            && Base(Boost(k, o), o) == Base(k, o)
  {
  }

  /** The state after a lock call that blocked behind owner `o`. */
  lemma LockBlocked(w: World, loc: Locs, i: nat, o: Tid)
    requires Inv(w, loc) && Exact(w) && w.k.started && w.k.cur != w.idle && i < |w.mutexes|
    requires w.mutexes[i].owner == Some(o) && o != w.k.cur && OnlyOwns(w, w.k.cur, i)
    requires w.pc[w.k.cur] != InLock(i)
    ensures var w' := Lock1(w, i);
            && w'.mutexes[i].owner == Some(o)
            && w'.mutexes[i].queue == Enqueue(Boost(w.k, o).tcb, w.mutexes[i].queue, w.k.cur)
            && SamePriorities(Boost(w.k, o), w'.k)
            && w'.mutexes == w.mutexes[i := w'.mutexes[i]] && w'.pc == w.pc[w.k.cur := InLock(i)]
  {
    var k1 := BlockCurrent(Boost(w.k, o));
    Via(Boost(w.k, o), k1);
  }

  /** The owner of `i` waits for no mutex when its boost is applied. */
  lemma OwnerWaitsNowhere(w: World, loc: Locs, i: nat, o: Tid, j: nat)
    requires Inv(w, loc) && Exact(w) && i < |w.mutexes| && j < |w.mutexes|
    requires w.mutexes[i].owner == Some(o)
    ensures o !in w.mutexes[j].queue
  {
    assert TaskExact(w, o) && PcOk(w, loc, o) && MutexOk(w, loc, i) && MutexOk(w, loc, j);
    assert Holds(Queue(w, WaitMutex(j)), WaitMutex(j), loc);
  }

  lemma BoostedExactAt(w: World, loc: Locs, w': World, i: nat, o: Tid)
    requires Inv(w, loc) && Exact(w) && w.k.started && i < |w.mutexes| == |w'.mutexes|
    requires w.mutexes[i].owner == Some(o) && w.k.cur != o && w.k.cur !in w.mutexes[i].queue
    requires w.k.tcb[w.k.cur].sub == PRI_INV
    requires w'.mutexes[i].owner == Some(o) && OnlyOwns(w', o, i)
    requires w'.mutexes[i].queue == Enqueue(Boost(w.k, o).tcb, w.mutexes[i].queue, w.k.cur)
    requires SamePriorities(Boost(w.k, o), w'.k)
    ensures ExactAt(w', i)
  {
    var b, q := Boost(w.k, o).tcb, w.mutexes[i].queue;
    assert ExactAt(w, i) && TaskExact(w, o) && TaskExact(w, w.k.cur);
    assert Holds(Queue(w, WaitMutex(i)), WaitMutex(i), loc);
    BoostTcb(w.k, o);
    OwnerWaitsNowhere(w, loc, i, o, i);
    SortedFrame(w.k.tcb, b, q, o);
    Room(q, w.k.cur);
    EnqueueSorted(b, q, w.k.cur);
    assert q != [] ==> q[0] in q;
    assert w'.k.tcb[o].priority == b[o].priority && Base(w'.k, o) == Base(w.k, o);
    SortedSame(b, w'.k.tcb, w'.mutexes[i].queue);
  }

  lemma LockGoesExact(w: World, loc: Locs, i: nat)
    requires Inv(w, loc) && Exact(w) && i < |w.mutexes| && OnlyOwns(w, w.k.cur, i)
    requires w.mutexes[i].owner.None? || w.mutexes[i].owner.value == w.k.cur
    ensures Exact(Lock1(w, i))
  {
    var w', cur := Lock1(w, i), w.k.cur;
    assert MutexOk(w, loc, i) && TaskExact(w, cur) && ExactAt(w, i);
    forall j | 0 <= j < |w'.mutexes| ensures ExactAt(w', j) {
      assert ExactAt(w, j);
    }
    forall t: Tid ensures TaskExact(w', t) {
      assert TaskExact(w, t);
      assert t == cur ==> w'.mutexes[i].owner == Some(t);
      StillOwns(w, w', i, t);
    }
  }

  lemma StillOwns(w: World, w': World, i: nat, t: Tid)
    requires i < |w.mutexes| == |w'.mutexes| && w'.mutexes == w.mutexes[i := w'.mutexes[i]]
    requires w.mutexes[i].owner == Some(t) ==> w'.mutexes[i].owner == Some(t)
    ensures Owns(w, t) ==> Owns(w', t)
  {
    if j :| 0 <= j < |w.mutexes| && w.mutexes[j].owner == Some(t) {
      assert w'.mutexes[j].owner == Some(t);
    }
  }

  lemma LockBlocksTask(w: World, loc: Locs, w': World, i: nat, o: Tid, t: Tid)
    requires Inv(w, loc) && Exact(w) && i < |w.mutexes| && OnlyOwns(w, w.k.cur, i)
    requires w.mutexes[i].owner == Some(o) && o != w.k.cur
    requires |w'.mutexes| == |w.mutexes| && w'.mutexes == w.mutexes[i := w'.mutexes[i]]
    requires w'.mutexes[i].owner == Some(o)
    requires SamePriorities(Boost(w.k, o), w'.k) && w'.pc == w.pc[w.k.cur := InLock(i)]
    ensures TaskExact(w', t)
  {
    assert TaskExact(w, t) && TaskExact(w, o) && TaskExact(w, w.k.cur);
    BoostTcb(w.k, o);
    StillOwns(w, w', i, t);
    assert w'.mutexes[i].owner == Some(o);
  }

  lemma LockBlocksExact(w: World, loc: Locs, i: nat, o: Tid)
    requires Inv(w, loc) && Exact(w) && w.k.started && w.k.cur != w.idle && i < |w.mutexes|
    requires w.mutexes[i].owner == Some(o) && o != w.k.cur && OnlyOwns(w, w.k.cur, i)
    requires !w.pc[w.k.cur].InLock?
    ensures Exact(Lock1(w, i))
  {
    var w', cur := Lock1(w, i), w.k.cur;
    LockBlocked(w, loc, i, o);
    assert TaskExact(w, cur) && !Owns(w, cur) && PcOk(w, loc, cur) && ExactAt(w, i);
    assert Holds(Queue(w, WaitMutex(i)), WaitMutex(i), loc);
    BoostTcbOf(w, o);
    forall j | 0 <= j < |w'.mutexes| ensures ExactAt(w', j) {
      if j == i {
        BoostedExactAt(w, loc, w', i, o);
      } else {
        assert ExactAt(w, j);
        OwnerWaitsNowhere(w, loc, i, o, j);
        KeepsExact(w, w', j, o);
      }
    }
    forall t: Tid ensures TaskExact(w', t) {
      LockBlocksTask(w, loc, w', i, o, t);
    }
  }

  lemma BoostTcbOf(w: World, o: Tid)
    requires Exact(w)
    ensures forall t: Tid | t != o :: Boost(w.k, o).tcb[t] == w.k.tcb[t]
  {
    assert TaskExact(w, o);
    BoostTcb(w.k, o);
  }

  lemma LockExact(w: World, loc: Locs, i: nat)
    requires Inv(w, loc) && Exact(w) && w.k.started && w.k.cur != w.idle && i < |w.mutexes|
    requires !w.pc[w.k.cur].InLock? && OnlyOwns(w, w.k.cur, i)
    ensures Exact(Lock1(w, i))
  {
    if w.mutexes[i].owner.Some? && w.mutexes[i].owner.value != w.k.cur {
      LockBlocksExact(w, loc, i, w.mutexes[i].owner.value);
    } else {
      LockGoesExact(w, loc, i);
    }
  }

  // ---- Unlock ------------------------------------------------------------------------------

  lemma RestoreTcb(k: K)
    ensures var r := Restore(k);
            && (forall t: Tid | t != k.cur :: r.tcb[t] == k.tcb[t])
            && r.tcb[k.cur].priority == Base(k, k.cur) && r.tcb[k.cur].sub == PRI_INV
  {
  }

  /** Giving up the last level leaves the kernel with the owner's own priority restored. */
  lemma UnlockPriorities(k: K, m: MutexS)
    requires m.depth == 1
    ensures var (k', m', _) := Unlock(k, m);
            && SamePriorities(Restore(k), k')
            && m' == (if m.queue == [] then MutexS(None, 0, []) else MutexS(Some(m.queue[0]), 1, m.queue[1..]))
  {
    var (k1, m1, y) := Release(k, m);
    Via(Restore(k), k1);
  }

  /** The state after the current task gave up its last level of mutex `i`. */
  ghost predicate GaveUpLast(w: World, w': World, i: nat)
    requires i < |w.mutexes|
  {
    var m := w.mutexes[i];
    && |w'.mutexes| == |w.mutexes| && w'.mutexes == w.mutexes[i := w'.mutexes[i]]
    && w'.mutexes[i] == (if m.queue == [] then MutexS(None, 0, [])
                         else MutexS(Some(m.queue[0]), 1, m.queue[1..]))
    && SamePriorities(Restore(w.k), w'.k)
    && w'.pc == w.pc[w.k.cur := w'.pc[w.k.cur]]
    && (w'.pc[w.k.cur] == Run || w'.pc[w.k.cur].m == i)
  }

  /** A waiter owns nothing. */
  lemma WaiterOwnsNothing(w: World, loc: Locs, i: nat, t: Tid)
    requires Inv(w, loc) && Exact(w) && i < |w.mutexes| && t in w.mutexes[i].queue
    ensures !Owns(w, t) && w.k.tcb[t].sub == PRI_INV && w.pc[t] == InLock(i)
  {
    assert Holds(Queue(w, WaitMutex(i)), WaitMutex(i), loc);
    assert PcOk(w, loc, t) && TaskExact(w, t) && MutexOk(w, loc, i);
  }

  lemma GaveUpExactAt(w: World, loc: Locs, w': World, i: nat, j: nat)
    requires Inv(w, loc) && Exact(w) && i < |w.mutexes| && w.mutexes[i].owner == Some(w.k.cur)
    requires GaveUpLast(w, w', i) && j < |w.mutexes|
    ensures ExactAt(w', j)
  {
    var cur, q := w.k.cur, w.mutexes[i].queue;
    RestoreTcb(w.k);
    assert ExactAt(w, i) && ExactAt(w, j);
    OwnerWaitsNowhere(w, loc, i, cur, j);
    if q != [] {
      WaiterOwnsNothing(w, loc, i, q[0]);
    }
    if j == i {
      SortedFrame(w.k.tcb, w'.k.tcb, q, cur);
      if q != [] {
        assert q[0] in q;
        assert |q| > 1 ==> q[1] in q && w.k.tcb[q[0]].priority <= w.k.tcb[q[1]].priority;
      }
    } else {
      KeepsExact(w, w', j, cur);
    }
  }

  lemma GaveUpTask(w: World, loc: Locs, w': World, i: nat, t: Tid)
    requires Inv(w, loc) && Exact(w) && i < |w.mutexes| && w.mutexes[i].owner == Some(w.k.cur)
    requires GaveUpLast(w, w', i)
    ensures TaskExact(w', t)
  {
    var cur, q := w.k.cur, w.mutexes[i].queue;
    RestoreTcb(w.k);
    assert TaskExact(w, t) && ExactAt(w, i);
    if q != [] {
      WaiterOwnsNothing(w, loc, i, q[0]);
      assert w'.mutexes[i].owner == Some(q[0]);
    }
    if t != cur {
      StillOwns(w, w', i, t);
    }
  }

  lemma GaveUpExact(w: World, loc: Locs, w': World, i: nat)
    requires Inv(w, loc) && Exact(w) && i < |w.mutexes| && w.mutexes[i].owner == Some(w.k.cur)
    requires GaveUpLast(w, w', i)
    ensures Exact(w')
  {
    forall j | 0 <= j < |w'.mutexes| ensures ExactAt(w', j) {
      GaveUpExactAt(w, loc, w', i, j);
    }
    forall t: Tid ensures TaskExact(w', t) {
      GaveUpTask(w, loc, w', i, t);
    }
  }

  /** A step in which the current task gave up one of several levels of mutex `i`. */
  lemma LevelExact(w: World, w': World, i: nat)
    requires Exact(w) && i < |w.mutexes| && w.mutexes[i].owner == Some(w.k.cur)
    requires |w'.mutexes| == |w.mutexes| && w'.mutexes == w.mutexes[i := w'.mutexes[i]]
    requires w'.mutexes[i].owner == w.mutexes[i].owner && w'.mutexes[i].queue == w.mutexes[i].queue
    requires SamePriorities(w.k, w'.k) && w'.pc == w.pc[w.k.cur := w'.pc[w.k.cur]]
    requires w'.pc[w.k.cur] == Run || w'.pc[w.k.cur].m == i
    ensures Exact(w')
  {
    assert ExactAt(w, i);
    forall j | 0 <= j < |w'.mutexes| ensures ExactAt(w', j) {
      assert ExactAt(w, j);
      SortedSame(w.k.tcb, w'.k.tcb, w.mutexes[j].queue);
    }
    forall t: Tid ensures TaskExact(w', t) {
      assert TaskExact(w, t);
      StillOwns(w, w', i, t);
    }
  }

  lemma UnlockExact(w: World, loc: Locs, i: nat)
    requires Inv(w, loc) && Exact(w) && Enabled(w, UnlockOp(i))
    ensures Exact(Next(w, UnlockOp(i)))
  {
    var w', m := Next(w, UnlockOp(i)), w.mutexes[i];
    HolderOwns(w, loc, i, w.k.cur);
    assert MutexOk(w, loc, i);
    if m.depth == 1 {
      UnlockPriorities(w.k, m);
      GaveUpExact(w, loc, w', i);
    } else {
      LevelExact(w, w', i);
    }
  }

  lemma CvWaitLast(k: K, q: seq<Tid>, m: MutexS)
    requires m.depth == 1
    ensures SamePriorities(Restore(k), CvWait(k, q, m).0)
  {
    var k0 := BlockCurrent(k);
    UnlockPriorities(k0, m);
    assert SamePriorities(Restore(k), Restore(k0));
    NextTcbPriorities(Unlock(k0, m).0);
  }

  lemma CvWaitInner(k: K, q: seq<Tid>, m: MutexS)
    requires 1 < m.depth < U32
    ensures SamePriorities(k, CvWait(k, q, m).0)
  {
    assert WrapU32(m.depth - 1) == m.depth - 1;
    NextTcbPriorities(BlockCurrent(k));
  }

  lemma CvWaitPriorities(k: K, q: seq<Tid>, m: MutexS)
    requires 1 <= m.depth < U32
    ensures SamePriorities(if m.depth == 1 then Restore(k) else k, CvWait(k, q, m).0)
  {
    if m.depth == 1 {
      CvWaitLast(k, q, m);
    } else {
      CvWaitInner(k, q, m);
    }
  }

  lemma WaitExact(w: World, loc: Locs, c: nat, i: nat)
    requires Inv(w, loc) && Exact(w) && Enabled(w, WaitOp(c, i))
    ensures Exact(Next(w, WaitOp(c, i)))
  {
    var w', m := Next(w, WaitOp(c, i)), w.mutexes[i];
    HolderOwns(w, loc, i, w.k.cur);
    assert MutexOk(w, loc, i);
    WaitMutexAfter(w.k, w.cvs[c], m);
    CvWaitPriorities(w.k, w.cvs[c], m);
    if m.depth == 1 {
      GaveUpExact(w, loc, w', i);
    } else {
      LevelExact(w, w', i);
    }
  }

  // ---- Runs --------------------------------------------------------------------------------

  lemma StepExact(w: World, loc: Locs, op: Op)
    requires Inv(w, loc) && Exact(w) && Enabled(w, op) && Disciplined(w, op)
    ensures Exact(Next(w, op))
  {
    if !TouchesPriorities(op) {
      OtherOps(w, op);
      SameExact(w, Next(w, op));
    } else if op.LockOp? {
      LockExact(w, loc, op.m);
    } else if op.WaitLockOp? {
      assert TaskExact(w, w.k.cur);
      LockExact(w, loc, w.pc[w.k.cur].m);
    } else if op.UnlockOp? {
      UnlockExact(w, loc, op.m);
    } else if op.WaitOp? {
      WaitExact(w, loc, op.c, op.m);
    } else {
      CreateOps(w, loc, op);
    }
  }

  ghost predicate ReachesDisciplined(w: World, ops: seq<Op>, w': World)
    decreases |ops|
  {
    if ops == [] then w' == w
    else Enabled(w, ops[0]) && Disciplined(w, ops[0]) && ReachesDisciplined(Next(w, ops[0]), ops[1..], w')
  }

  lemma {:induction false} RunExact(w: World, loc: Locs, ops: seq<Op>, w': World) returns (loc': Locs)
    requires Inv(w, loc) && Exact(w) && ReachesDisciplined(w, ops, w')
    ensures Inv(w', loc') && Exact(w')
    decreases |ops|
  {
    loc' := loc;
    if ops == [] {
    } else {
      StepExact(w, loc, ops[0]);
      var loc1 := StepInv(w, loc, ops[0]);
      loc' := RunExact(Next(w, ops[0]), loc1, ops[1..], w');
    }
  }

  lemma InitialExact(w: World)
    requires Initial(w)
    ensures Exact(w)
  {
    forall i | 0 <= i < |w.mutexes| ensures ExactAt(w, i) {
      assert w.mutexes[i] in w.mutexes;
    }
    forall t: Tid ensures TaskExact(w, t) {
    }
  }

  /** The owner of mutex `i` runs at the most urgent of its own priority and its waiters'; its own
      priority is saved exactly while it is raised; and the waiters stand in order of priority. */
  ghost predicate InheritsAt(w: World, i: nat)
    requires i < |w.mutexes| && w.mutexes[i].owner.Some?
  {
    var o, q, tcb := w.mutexes[i].owner.value, w.mutexes[i].queue, w.k.tcb;
    && tcb[o].priority <= Base(w.k, o)
    && (forall t | t in q :: tcb[o].priority <= tcb[t].priority)
    && (tcb[o].priority == Base(w.k, o) || exists t :: t in q && tcb[t].priority == tcb[o].priority)
    && (tcb[o].sub == PRI_INV <==> tcb[o].priority == Base(w.k, o))
    && Sorted(tcb, q)
  }

  /** Inheritance is exact in every state of a disciplined run, and a task that owns no mutex runs
      at its own priority. */
  lemma InheritanceIsExact(w0: World, ops: seq<Op>, w: World)
    requires Initial(w0) && ReachesDisciplined(w0, ops, w)
    ensures forall i | 0 <= i < |w.mutexes| && w.mutexes[i].owner.Some? :: InheritsAt(w, i)
    ensures forall t: Tid | !Owns(w, t) :: w.k.tcb[t].sub == PRI_INV && w.k.tcb[t].priority == Base(w.k, t)
  {
    InitialInv(w0);
    InitialExact(w0);
    var loc := RunExact(w0, seq(TASK_MAX, _ => Dead), ops, w);
    forall i | 0 <= i < |w.mutexes| && w.mutexes[i].owner.Some? ensures InheritsAt(w, i) {
      var o, q := w.mutexes[i].owner.value, w.mutexes[i].queue;
      assert ExactAt(w, i) && TaskExact(w, o);
      assert q != [] ==> q[0] in q;
    }
    forall t: Tid | !Owns(w, t) ensures w.k.tcb[t].sub == PRI_INV {
      assert TaskExact(w, t);
    }
  }

  // ---- The priority a task was created with ------------------------------------------------

  lemma SameBase(k: K, k': K, t: Tid)
    requires SamePriorities(k, k')
    ensures Base(k', t) == Base(k, t)
  {
  }

  lemma LockBase(w: World, loc: Locs, i: nat, t: Tid)
    requires Inv(w, loc) && Exact(w) && w.k.started && w.k.cur != w.idle && i < |w.mutexes|
    requires !w.pc[w.k.cur].InLock? && OnlyOwns(w, w.k.cur, i)
    ensures Base(Lock1(w, i).k, t) == Base(w.k, t)
  {
    if w.mutexes[i].owner.Some? && w.mutexes[i].owner.value != w.k.cur {
      var o := w.mutexes[i].owner.value;
      assert TaskExact(w, o);
      LockBlocked(w, loc, i, o);
      BoostTcb(w.k, o);
      SameBase(Boost(w.k, o), Lock1(w, i).k, t);
    }
  }

  lemma ReleaseBase(w: World, loc: Locs, op: Op, t: Tid)
    requires Inv(w, loc) && Exact(w) && Enabled(w, op) && (op.UnlockOp? || op.WaitOp?)
    ensures Base(Next(w, op).k, t) == Base(w.k, t)
  {
    var m := w.mutexes[op.m];
    HolderOwns(w, loc, op.m, w.k.cur);
    assert MutexOk(w, loc, op.m);
    RestoreTcb(w.k);
    if op.UnlockOp? && m.depth == 1 {
      UnlockPriorities(w.k, m);
    } else if op.WaitOp? {
      CvWaitPriorities(w.k, w.cvs[op.c], m);
    }
  }

  /** A new task's own priority is the one it was created with. */
  lemma CreateBase(w: World, loc: Locs, op: Op, t: Tid)
    requires Inv(w, loc) && Enabled(w, op) && (op.CreateOp? || op.CreateRawOp? || op.LaunchOp?)
    ensures Live(w, t) ==> Base(Next(w, op).k, t) == Base(w.k, t)
    ensures !op.LaunchOp? && CreateRaw(w.k, op.priority).1 == Some(t) ==>
              !Live(w, t) && Base(Next(w, op).k, t) == op.priority
  {
    var p := if op.LaunchOp? then PRI_MIN else op.priority;
    OpAdds(w, op);
    var loc1 := CreateRawPlaced(w.k, loc, p);
    assert TaskAgrees(w.k, loc, t);
  }

  /** No step of a disciplined run changes the own priority of a live task, however often it is
      raised and restored. */
  lemma BaseIsConserved(w: World, loc: Locs, op: Op, t: Tid)
    requires Inv(w, loc) && Exact(w) && Enabled(w, op) && Disciplined(w, op) && Live(w, t)
    ensures Base(Next(w, op).k, t) == Base(w.k, t)
  {
    if !TouchesPriorities(op) {
      OtherOps(w, op);
    } else if op.LockOp? {
      LockBase(w, loc, op.m, t);
    } else if op.WaitLockOp? {
      assert TaskExact(w, w.k.cur);
      LockBase(w, loc, w.pc[w.k.cur].m, t);
    } else if op.UnlockOp? || op.WaitOp? {
      ReleaseBase(w, loc, op, t);
    } else {
      CreateBase(w, loc, op, t);
    }
  }

  /** Giving up the last level restores the own priority and hands the mutex to the first waiter,
      which needs no boost of its own. */
  lemma UnlockRestores(w: World, loc: Locs, i: nat)
    requires Inv(w, loc) && Exact(w) && Enabled(w, UnlockOp(i)) && w.mutexes[i].depth == 1
    ensures var (w', me) := (Next(w, UnlockOp(i)), w.k.cur);
            && w'.k.tcb[me].priority == Base(w.k, me) && w'.k.tcb[me].sub == PRI_INV
            && (w.mutexes[i].queue != [] ==> w'.k.tcb[w.mutexes[i].queue[0]].sub == PRI_INV)
  {
    HolderOwns(w, loc, i, w.k.cur);
    RestoreTcb(w.k);
    UnlockPriorities(w.k, w.mutexes[i]);
    if w.mutexes[i].queue != [] {
      WaiterOwnsNothing(w, loc, i, w.mutexes[i].queue[0]);
    }
  }

  /** A disciplined run throughout which task `t` is live. */
  ghost predicate LivesThrough(w: World, ops: seq<Op>, w': World, t: Tid)
    decreases |ops|
  {
    && Live(w, t)
    && if ops == [] then w' == w
       else Enabled(w, ops[0]) && Disciplined(w, ops[0]) && LivesThrough(Next(w, ops[0]), ops[1..], w', t)
  }

  lemma {:induction false} RunConservesBase(w: World, loc: Locs, ops: seq<Op>, w': World, t: Tid)
    requires Inv(w, loc) && Exact(w) && LivesThrough(w, ops, w', t)
    ensures Base(w'.k, t) == Base(w.k, t)
    decreases |ops|
  {
    if ops == [] {
    } else {
      BaseIsConserved(w, loc, ops[0], t);
      StepExact(w, loc, ops[0]);
      var loc1 := StepInv(w, loc, ops[0]);
      RunConservesBase(Next(w, ops[0]), loc1, ops[1..], w', t);
    }
  }

  /** A task created with priority `op.priority` in a disciplined run has that priority for its own as
      long as it lives, whatever mutexes it and others take; while it owns none it runs at it. */
  lemma OwnPriorityIsTheCreated(w0: World, before: seq<Op>, w: World, op: Op, t: Tid, after: seq<Op>, w': World)
    requires Initial(w0) && ReachesDisciplined(w0, before, w)
    requires Enabled(w, op) && Disciplined(w, op) && (op.CreateOp? || op.CreateRawOp?)
    requires CreateRaw(w.k, op.priority).1 == Some(t) && LivesThrough(Next(w, op), after, w', t)
    ensures Base(w'.k, t) == op.priority
    ensures !Owns(w', t) ==> w'.k.tcb[t].priority == op.priority
  {
    InitialInv(w0);
    InitialExact(w0);
    var loc := RunExact(w0, seq(TASK_MAX, _ => Dead), before, w);
    CreateBase(w, loc, op, t);
    StepExact(w, loc, op);
    var loc1 := StepInv(w, loc, op);
    RunConservesBase(Next(w, op), loc1, after, w', t);
    LivesDisciplined(Next(w, op), after, w', t);
    var loc' := RunExact(Next(w, op), loc1, after, w');
    assert TaskExact(w', t);
  }

  lemma {:induction false} LivesDisciplined(w: World, ops: seq<Op>, w': World, t: Tid)
    requires LivesThrough(w, ops, w', t)
    ensures ReachesDisciplined(w, ops, w')
    decreases |ops|
  {
    if ops == [] {
    } else {
      LivesDisciplined(Next(w, ops[0]), ops[1..], w', t);
    }
  }
}
