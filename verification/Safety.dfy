/** What holds in every state the system can reach from boot, whatever the interleaving. */
module Safety {
  import opened Config
  import opened Lists
  import opened KernelSpec
  import opened SyncSpec
  import opened Place
  import opened World
  import SyncPlace

  /** `ops` is a possible run from `w` to `w'`. */
  ghost predicate Reaches(w: World, ops: seq<Op>, w': World)
    decreases |ops|
  {
    if ops == [] then w' == w
    else Enabled(w, ops[0]) && Reaches(Next(w, ops[0]), ops[1..], w')
  }

  lemma {:induction false} RunInv(w: World, loc: Locs, ops: seq<Op>, w': World) returns (loc': Locs)
    requires Inv(w, loc) && Reaches(w, ops, w')
    ensures Inv(w', loc')
    decreases |ops|
  {
    loc' := loc;
    if ops == [] {
    } else {
      var loc1 := StepInv(w, loc, ops[0]);
      loc' := RunInv(Next(w, ops[0]), loc1, ops[1..], w');
    }
  }

  lemma ReachableInv(w0: World, ops: seq<Op>, w: World) returns (loc: Locs)
    requires Initial(w0) && Reaches(w0, ops, w)
    ensures Inv(w, loc)
  {
    InitialInv(w0);
    loc := RunInv(w0, seq(TASK_MAX, _ => Dead), ops, w);
  }

  // ---- One list for each task --------------------------------------------------------------

  predicate IsList(w: World, l: Loc) {
    l in {InReady, InSleep, InBlocked} || Exists(w, l)
  }

  function ListAt(w: World, l: Loc): seq<Tid>
    requires IsList(w, l)
  {
    match l
    case InReady => w.k.ready
    case InSleep => w.k.sleeping
    case InBlocked => w.k.blocked
    case _ => Queue(w, l)
  }

  predicate Live(w: World, t: Tid) {
    w.k.tcb[t].status != Terminated
  }

  ghost predicate OnOneList(w: World, t: Tid) {
    exists l | IsList(w, l) :: t in ListAt(w, l) && forall l' | IsList(w, l') && l' != l :: t !in ListAt(w, l')
  }

  lemma ListsHold(w: World, loc: Locs, l: Loc)
    requires Inv(w, loc) && IsList(w, l)
    ensures Holds(ListAt(w, l), l, loc)
  {
    if Exists(w, l) {
      assert Holds(Queue(w, l), l, loc);
    }
  }

  /** The status, the mark of the running task and the tid bit of `t` say where it is. */
  ghost predicate StatusAgrees(w: World, t: Tid) {
    && (t in w.k.ready <==> w.k.tcb[t].status == Ready || w.k.tcb[t].status == Running)
    && (w.k.tcb[t].status == Running ==> w.k.started && t == w.k.cur)
    && (t in w.k.used <==> Live(w, t))
  }

  lemma OneList(w: World, loc: Locs, t: Tid)
    requires Inv(w, loc)
    ensures Live(w, t) <==> OnOneList(w, t)
    ensures forall l | IsList(w, l) :: t in ListAt(w, l) <==> l == loc[t]
    ensures StatusAgrees(w, t)
  {
    forall l | IsList(w, l) ensures t in ListAt(w, l) <==> l == loc[t] {
      ListsHold(w, loc, l);
    }
    assert TaskAgrees(w.k, loc, t);
    if Live(w, t) {
      assert IsList(w, loc[t]) && t in ListAt(w, loc[t]);
    } else {
      assert !IsList(w, loc[t]);
    }
  }

  /** In every reachable state a task is live exactly if it is on exactly one list, where it stands
      once; it is on the ready list exactly if it is Ready or Running; only the current task is
      Running; and exactly the live tasks have their bit set. */
  lemma OneListPerTask(w0: World, ops: seq<Op>, w: World)
    requires Initial(w0) && Reaches(w0, ops, w)
    ensures forall l | IsList(w, l) :: NoDup(ListAt(w, l))
    ensures forall t: Tid :: Live(w, t) <==> OnOneList(w, t)
    ensures forall t: Tid :: StatusAgrees(w, t)
  {
    var loc := ReachableInv(w0, ops, w);
    forall l | IsList(w, l) ensures NoDup(ListAt(w, l)) {
      ListsHold(w, loc, l);
    }
    forall t: Tid
      ensures Live(w, t) <==> OnOneList(w, t)
      ensures StatusAgrees(w, t)
    {
      OneList(w, loc, t);
    }
  }

  /** No list ever refuses a task: one that is not on it finds room. */
  lemma NoListOverflows(w0: World, ops: seq<Op>, w: World, l: Loc, t: Tid)
    requires Initial(w0) && Reaches(w0, ops, w)
    requires IsList(w, l) && t !in ListAt(w, l)
    ensures |ListAt(w, l)| < TASK_MAX
  {
    OneListPerTask(w0, ops, w);
    Room(ListAt(w, l), t);
  }

  /** The kernel never panics for want of a ready task, and the executing task is a ready one. */
  lemma NeverPanics(w0: World, ops: seq<Op>, w: World)
    requires Initial(w0) && Reaches(w0, ops, w)
    ensures !w.k.panicked
    ensures w.k.started ==> w.k.cur in w.k.ready && w.idle in w.k.ready
  {
    var loc := ReachableInv(w0, ops, w);
  }

  // ---- Mutual exclusion --------------------------------------------------------------------

  /** Only the owner of a mutex has guards of it; an owner that is back from `lock` has one guard
      for each level of recursion; and only an owned mutex has waiters. */
  lemma MutualExclusion(w0: World, ops: seq<Op>, w: World, i: nat)
    requires Initial(w0) && Reaches(w0, ops, w) && i < |w.mutexes|
    ensures |w.held| == |w.mutexes|
    ensures forall t: Tid | w.held[i][t] > 0 :: w.mutexes[i].owner == Some(t)
    ensures forall t: Tid | w.mutexes[i].owner == Some(t) && w.pc[t] != InLock(i) ::
              w.held[i][t] == w.mutexes[i].depth >= 1
    ensures w.mutexes[i].queue != [] ==>
              w.mutexes[i].owner.Some? && w.mutexes[i].owner.value !in w.mutexes[i].queue
  {
    var loc := ReachableInv(w0, ops, w);
    assert MutexOk(w, loc, i);
    assert Holds(Queue(w, WaitMutex(i)), WaitMutex(i), loc);
  }

  /** A task that executes again after it blocked in `lock` (or in the `lock` that ends
      `CondVar::wait`) is the owner, at depth one, and has no guard yet: the lock call returns its
      first. */
  lemma LockReturnsAsOwner(w0: World, ops: seq<Op>, w: World)
    requires Initial(w0) && Reaches(w0, ops, w)
    requires w.k.started && w.pc[w.k.cur].InLock?
    ensures var i := w.pc[w.k.cur].m;
            && i < |w.mutexes| == |w.held|
            && w.mutexes[i].owner == Some(w.k.cur)
            && w.mutexes[i].depth == w.held[i][w.k.cur] + 1
  {
    var loc := ReachableInv(w0, ops, w);
    assert PcOk(w, loc, w.k.cur);
    assert MutexOk(w, loc, w.pc[w.k.cur].m);
  }

  /** Step `op` calls `lock` on mutex `i`: its own, or the one that ends `CondVar::wait`. */
  predicate Locks(w: World, op: Op, i: nat) {
    op == LockOp(i) || (op == WaitLockOp && w.pc[w.k.cur] == CvRelock(i))
  }

  /** Step `op` gives up a level of mutex `i`: a guard is dropped, or given to `CondVar::wait`. */
  predicate GivesUp(op: Op, i: nat) {
    op == UnlockOp(i) || (op.WaitOp? && op.m == i)
  }

  /** Mutex `i` after step `op`. */
  function MutexAfter(w: World, op: Op, i: nat): MutexS
    requires i < |w.mutexes|
  {
    var m, cur := w.mutexes[i], w.k.cur;
    if Locks(w, op, i) then
      match m.owner
      case None => MutexS(Some(cur), 1, m.queue)
      case Some(o) =>
        if o == cur then m.(depth := m.depth + 1)
        else m.(queue := Enqueue(BlockCurrent(Boost(w.k, o)).tcb, m.queue, cur))
    else if GivesUp(op, i) then
      if m.depth > 1 then m.(depth := m.depth - 1)
      else if m.queue == [] then MutexS(None, 0, [])
      else MutexS(Some(m.queue[0]), 1, m.queue[1..])
    else m
  }

  lemma LockMutex(w: World, i: nat, op: Op)
    requires i < |w.mutexes| == |w.held| && w.mutexes[i].depth < U32 - 1 && Locks(w, op, i)
    ensures Lock(w.k, w.mutexes[i]).1 == MutexAfter(w, op, i)
  {
  }

  lemma UnlockMutex(w: World, loc: Locs, i: nat, op: Op)
    requires Inv(w, loc) && i < |w.mutexes| && w.held[i][w.k.cur] > 0 && GivesUp(op, i)
    ensures Unlock(w.k, w.mutexes[i]).1 == MutexAfter(w, op, i)
    ensures op.WaitOp? && op.c < |w.cvs| ==> CvWait(w.k, w.cvs[op.c], w.mutexes[i]).2 == MutexAfter(w, op, i)
  {
    HolderOwns(w, loc, i, w.k.cur);
    assert MutexOk(w, loc, i);
    if op.WaitOp? && op.c < |w.cvs| {
      WaitMutexAfter(w.k, w.cvs[op.c], w.mutexes[i]);
    }
  }

  /** What any step does to a mutex: a lock call takes it free, goes one level deeper or queues behind
      its owner; giving up a level goes one level back, frees it, or hands it to the first waiter; and no
      other step touches it. */
  lemma MutexStep(w: World, loc: Locs, op: Op, i: nat)
    requires Inv(w, loc) && Enabled(w, op) && i < |w.mutexes|
    ensures |Next(w, op).mutexes| == |w.mutexes| && Next(w, op).mutexes[i] == MutexAfter(w, op, i)
  {
    if Locks(w, op, i) {
      LockMutex(w, i, op);
    } else if GivesUp(op, i) {
      UnlockMutex(w, loc, i, op);
    }
  }

  lemma LockQueues(w: World, loc: Locs, op: Op, i: nat)
    requires Inv(w, loc) && Enabled(w, op) && i < |w.mutexes| && Locks(w, op, i)
    requires w.mutexes[i].owner.Some? && w.mutexes[i].owner != Some(w.k.cur)
    ensures var w' := Next(w, op);
            i < |w'.mutexes| && w.k.cur in w'.mutexes[i].queue && w.k.cur !in w'.k.ready && w'.held == w.held
  {
    var l := WaitMutex(i);
    assert Holds(Queue(w, l), l, loc);
    var loc' := SyncPlace.LockSettles(w.k, w.mutexes[i], loc, l, w.idle);
  }

  lemma HandOff(w: World, loc: Locs, op: Op, i: nat)
    requires Inv(w, loc) && Enabled(w, op) && i < |w.mutexes| && GivesUp(op, i)
    requires w.mutexes[i].depth == 1 && w.mutexes[i].queue != []
    ensures w.mutexes[i].queue[0] in Next(w, op).k.ready
  {
    var l := WaitMutex(i);
    assert Holds(Queue(w, l), l, loc);
    assert w.mutexes[i].queue[0] in w.mutexes[i].queue;
    HolderOwns(w, loc, i, w.k.cur);
    if op.UnlockOp? {
      var loc' := SyncPlace.UnlockPlaced(w.k, w.mutexes[i], loc, l, w.idle);
    } else {
      assert Holds(Queue(w, WaitCv(op.c)), WaitCv(op.c), loc);
      var loc' := SyncPlace.CvWaitSettles(w.k, w.cvs[op.c], w.mutexes[i], loc, WaitCv(op.c), l, w.idle);
    }
  }

  /** Nobody barges in, whatever the step. An owned mutex changes its owner only when that owner gives up
      its last level, and then the first waiter is the owner, and ready, in the same step; a free mutex
      goes only to the caller of `lock`; and a lock call on a mutex of another task only queues and blocks
      the caller. */
  lemma NoBarging(w0: World, ops: seq<Op>, w: World, op: Op, i: nat)
    requires Initial(w0) && Reaches(w0, ops, w) && Enabled(w, op) && i < |w.mutexes|
    ensures i < |Next(w, op).mutexes|
    ensures var (m, m', cur) := (w.mutexes[i], Next(w, op).mutexes[i], w.k.cur);
            && (m.owner.Some? && m'.owner != m.owner ==>
                  && m.owner == Some(cur) && m.depth == 1 && GivesUp(op, i)
                  && (if m.queue == [] then m' == MutexS(None, 0, [])
                      else m' == MutexS(Some(m.queue[0]), 1, m.queue[1..]) && m.queue[0] in Next(w, op).k.ready))
            && (m.owner.None? && m'.owner.Some? ==> m' == MutexS(Some(cur), 1, []) && Locks(w, op, i))
            && (m.owner.Some? && m.owner != Some(cur) && Locks(w, op, i) ==>
                  && m'.owner == m.owner && m'.depth == m.depth && cur in m'.queue && cur !in Next(w, op).k.ready
                  && Next(w, op).held == w.held)
  {
    var loc := ReachableInv(w0, ops, w);
    var m := w.mutexes[i];
    MutexStep(w, loc, op, i);
    assert MutexOk(w, loc, i);
    if GivesUp(op, i) {
      HolderOwns(w, loc, i, w.k.cur);
      if m.depth == 1 && m.queue != [] {
        HandOff(w, loc, op, i);
      }
    } else if Locks(w, op, i) && m.owner.Some? && m.owner != Some(w.k.cur) {
      LockQueues(w, loc, op, i);
    }
  }
}
