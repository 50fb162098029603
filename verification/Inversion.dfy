/** The order of the ready list really is lost: a run of four tasks and one mutex, from boot, at the end
    of which an unlock leaves a task before a more urgent one. */
module Inversion {
  import opened Config
  import opened Lists
  import opened KernelSpec
  import opened SyncSpec
  import opened Place
  import opened Ordered
  import opened World
  import opened Inherit
  import Order
  import Slices

  const LOW: Tid := 0
  const IDLE: Tid := 1
  const HIGH: Tid := 2
  const MIDDLE: Tid := 3

  const IDLE_TCB := Tcb(Ready, PRI_MIN, PRI_INV, TIME_SLICE, 0)
  const MIDDLE_TCB := Tcb(Ready, 2, PRI_INV, TIME_SLICE, 0)

  /** The parts of the state the run is about; identifiers below `n` are in use. */
  ghost predicate Is(w: World, n: nat, ready: seq<Tid>, cur: Tid, low: Tcb, high: Tcb, m: MutexS, p: Pc) {
    && w.k.ready == ready && w.k.sleeping == [] && w.k.cur == cur && w.k.started
    && InUse(w.k.used, n)
    && w.k.tcb[LOW] == low && w.k.tcb[IDLE] == IDLE_TCB
    && (n > 2 ==> w.k.tcb[HIGH] == high) && (n > 3 ==> w.k.tcb[MIDDLE] == MIDDLE_TCB)
    && w.mutexes == [m] && |w.held| == 1 && w.idle == IDLE
    && w.pc[LOW] == Run && w.pc[HIGH] == p
    && w.held[0][LOW] == (if m.owner == Some(LOW) then 1 else 0)
  }

  ghost predicate InUse(used: set<Tid>, n: nat) {
    forall t: Tid :: t in used <==> t < n
  }

  // ---- Evaluation --------------------------------------------------------------------------

  lemma EnqueueAt(tcb: Tcbs, a: seq<Tid>, t: Tid, b: seq<Tid>)
    requires |a| + |b| < TASK_MAX
    requires forall i | 0 <= i < |a| :: tcb[a[i]].priority <= tcb[t].priority
    requires b != [] ==> tcb[t].priority < tcb[b[0]].priority
    ensures Enqueue(tcb, a + b, t) == a + [t] + b
  {
    PosUnique(a + b, ByPriority(tcb, t), |a|);
    assert (a + b)[..|a|] == a && (a + b)[|a|..] == b;
  }

  /** A switch with nobody asleep: the current task is put back, and stays or gives way. */
  lemma SwitchAt(k: K, a: seq<Tid>, b: seq<Tid>)
    requires k.sleeping == [] && Requeues(k) && |a| + |b| < TASK_MAX
    requires Remove(k.ready, k.cur) == a + b && k.cur !in a + b
    requires forall i | 0 <= i < |a| :: k.tcb[a[i]].priority <= k.tcb[k.cur].priority
    requires b != [] ==> k.tcb[k.cur].priority < k.tcb[b[0]].priority
    ensures var (tcb, r) := (k.tcb[k.cur := k.tcb[k.cur].(slice := TIME_SLICE, status := Ready)], a + [k.cur] + b);
            NextTcb(k) == if a == [] then k.(tcb := tcb, ready := r)
                          else k.(tcb := SetStatus(tcb, a[0], Running), ready := r, cur := a[0])
  {
    var tcb := k.tcb[k.cur := k.tcb[k.cur].(slice := TIME_SLICE, status := Ready)];
    assert forall i | 0 <= i < |a| :: a[i] == (a + b)[i];
    assert b != [] ==> b[0] == (a + b)[|a|];
    EnqueueAt(tcb, a, k.cur, b);
    assert WakeSleepers(k, 0) == k;
    assert Requeue(k) == k.(tcb := tcb, ready := a + [k.cur] + b);
    assert a != [] ==> (a + [k.cur] + b)[0] == a[0];
  }

  lemma RemoveFrom(a: seq<Tid>, t: Tid, b: seq<Tid>)
    requires t !in a
    ensures Remove(a + [t] + b, t) == a + b
  {
    Order.RemoveMiddle(a, t, b);
  }

  lemma Fresh(k: K, n: Tid, p: nat)
    requires InUse(k.used, n)
    ensures CreateRaw(k, p).1 == Some(n)
    ensures var k' := CreateRaw(k, p).0;
            && k'.tcb == k.tcb[n := Tcb(Ready, p, PRI_INV, TIME_SLICE, 0)] && InUse(k'.used, n + 1)
            && k' == k.(tcb := k'.tcb, used := k'.used, ready := Enqueue(k'.tcb, k.ready, n))
  {
    assert n !in k.used;
    CreateRawTcb(k, p);
  }

  // ---- The run -----------------------------------------------------------------------------

  function Begin(): World {
    World(Boot(), [], [MutexS(None, 0, [])], [], seq(TASK_MAX, _ => Run),
          seq(1, _ => seq(TASK_MAX, _ => 0)), 0)
  }

  const LOW0 := Tcb(Running, 3, PRI_INV, TIME_SLICE, 0)
  const LOW1 := Tcb(Ready, 3, PRI_INV, TIME_SLICE, 0)
  const LOW2 := Tcb(Running, 1, 3, TIME_SLICE, 0)
  const LOW3 := Tcb(Ready, 1, 3, TIME_SLICE, 0)
  const HIGH1 := Tcb(Running, 1, PRI_INV, TIME_SLICE, 0)
  const HIGH2 := Tcb(Blocked, 1, PRI_INV, TIME_SLICE, 0)

  /** A task of priority 3 is created. */
  lemma Created() returns (w: World)
    ensures Initial(Begin()) && Enabled(Begin(), CreateOp(3)) && w == Next(Begin(), CreateOp(3))
    ensures w == Begin().(k := w.k) && w.k == Boot().(tcb := w.k.tcb, used := w.k.used, ready := [LOW])
    ensures InUse(w.k.used, 1) && w.k.tcb == Boot().tcb[LOW := LOW1]
  {
    var w0 := Begin();
    Fresh(w0.k, 0, 3);
    w := Next(w0, CreateOp(3));
    EnqueueAt(w.k.tcb, [], LOW, []);
    assert w.pc == w0.pc;
  }

  /** The scheduler is started. */
  lemma Launched(w: World) returns (w': World)
    requires w == Begin().(k := w.k) && w.k == Boot().(tcb := w.k.tcb, used := w.k.used, ready := [LOW])
    requires InUse(w.k.used, 1) && w.k.tcb == Boot().tcb[LOW := LOW1]
    ensures Enabled(w, LaunchOp) && w' == Next(w, LaunchOp)
    ensures Is(w', 2, [LOW, IDLE], LOW, LOW0, EMPTY_TCB, MutexS(None, 0, []), Run)
  {
    assert IDLE !in w.k.used;
    Fresh(w.k, 1, PRI_MIN);
    var k1 := CreateRaw(w.k, PRI_MIN).0;
    EnqueueAt(k1.tcb, [LOW], IDLE, []);
    assert k1.ready == [LOW, IDLE];
    w' := Next(w, LaunchOp);
  }

  /** It locks the mutex. */
  lemma Locks(w: World) returns (w': World)
    requires Is(w, 2, [LOW, IDLE], LOW, LOW0, EMPTY_TCB, MutexS(None, 0, []), Run)
    ensures Enabled(w, LockOp(0)) && Disciplined(w, LockOp(0)) && w' == Next(w, LockOp(0))
    ensures Is(w', 2, [LOW, IDLE], LOW, LOW0, EMPTY_TCB, MutexS(Some(LOW), 1, []), Run)
  {
    w' := Next(w, LockOp(0));
  }

  /** A task of priority 1 is created and takes over. */
  lemma Preempts(w: World) returns (w': World)
    requires Is(w, 2, [LOW, IDLE], LOW, LOW0, EMPTY_TCB, MutexS(Some(LOW), 1, []), Run)
    ensures Enabled(w, CreateOp(1)) && w' == Next(w, CreateOp(1))
    ensures Is(w', 3, [HIGH, LOW, IDLE], HIGH, LOW1, HIGH1, MutexS(Some(LOW), 1, []), Run)
  {
    Fresh(w.k, 2, 1);
    var k1 := CreateRaw(w.k, 1).0;
    EnqueueAt(k1.tcb, [], HIGH, [LOW, IDLE]);
    assert k1.ready == [HIGH, LOW, IDLE];
    TakesOver(k1);
    assert Create(w.k, 1) == (NextTcb(k1), Some(HIGH));
    w' := Next(w, CreateOp(1));
  }

  lemma TakesOver(k: K)
    requires k.ready == [HIGH, LOW, IDLE] && k.cur == LOW && k.sleeping == []
    requires k.tcb[LOW] == LOW0 && k.tcb[HIGH] == Tcb(Ready, 1, PRI_INV, TIME_SLICE, 0) && k.tcb[IDLE] == IDLE_TCB
    ensures NextTcb(k) == k.(tcb := k.tcb[LOW := LOW1][HIGH := HIGH1], cur := HIGH)
  {
    RemoveFrom([HIGH], LOW, [IDLE]);
    assert [HIGH] + [LOW] + [IDLE] == k.ready;
    SwitchAt(k, [HIGH], [IDLE]);
  }

  /** It wants the mutex too: the owner is raised to its priority. */
  lemma Raises(k: K)
    requires k.ready == [HIGH, LOW, IDLE] && k.cur == HIGH
    requires k.tcb[LOW] == LOW1 && k.tcb[HIGH] == HIGH1 && k.tcb[IDLE] == IDLE_TCB
    ensures Boost(k, LOW) == k.(tcb := k.tcb[LOW := LOW3])
  {
    var k1 := Boost(k, LOW);
    assert k1.tcb == k.tcb[LOW := LOW3];
    RemoveFrom([HIGH], LOW, [IDLE]);
    assert [HIGH] + [LOW] + [IDLE] == k.ready;
    EnqueueAt(k1.tcb, [HIGH], LOW, [IDLE]);
  }

  /** And it waits; the owner goes on. */
  lemma GivesWay(k: K)
    requires k.ready == [HIGH, LOW, IDLE] && k.cur == HIGH && k.sleeping == []
    requires k.tcb[LOW] == LOW3 && k.tcb[HIGH] == HIGH1 && k.tcb[IDLE] == IDLE_TCB
    ensures BlockCurrent(k).tcb == k.tcb[HIGH := HIGH2]
    ensures NextTcb(BlockCurrent(k))
            == k.(tcb := k.tcb[HIGH := HIGH2][LOW := LOW2], ready := [LOW, IDLE], cur := LOW)
  {
    var k1 := BlockCurrent(k);
    RemoveFrom([], HIGH, [LOW, IDLE]);
    assert [] + [HIGH] + [LOW, IDLE] == k.ready && [] + [LOW, IDLE] == [LOW, IDLE];
    RemoveAbsent(k1.ready, HIGH);
    assert WakeSleepers(k1, 0) == k1 && Requeue(k1) == k1;
  }

  lemma Waits(w: World) returns (w': World)
    requires Is(w, 3, [HIGH, LOW, IDLE], HIGH, LOW1, HIGH1, MutexS(Some(LOW), 1, []), Run)
    ensures Enabled(w, LockOp(0)) && Disciplined(w, LockOp(0)) && w' == Next(w, LockOp(0))
    ensures Is(w', 3, [LOW, IDLE], LOW, LOW2, HIGH2, MutexS(Some(LOW), 1, [HIGH]), InLock(0))
  {
    Raises(w.k);
    var k1 := w.k.(tcb := w.k.tcb[LOW := LOW3]);
    GivesWay(k1);
    var none: seq<Tid> := [];
    EnqueueAt(BlockCurrent(k1).tcb, none, HIGH, none);
    assert none + none == none && none + [HIGH] + none == [HIGH];
    assert Lock(w.k, w.mutexes[0]) == (NextTcb(BlockCurrent(k1)), MutexS(Some(LOW), 1, [HIGH]));
    w' := Next(w, LockOp(0));
  }

  /** Its time slice ends, but it is chosen again: from now on its status is Ready. */
  lemma RunsOut(w: World) returns (w': World)
    requires Is(w, 3, [LOW, IDLE], LOW, LOW2, HIGH2, MutexS(Some(LOW), 1, [HIGH]), InLock(0))
    ensures Enabled(w, SystickOp(49, false)) && w' == Next(w, SystickOp(49, false))
    ensures Is(w', 3, [LOW, IDLE], LOW, LOW3, HIGH2, MutexS(Some(LOW), 1, [HIGH]), InLock(0))
  {
    var (k1, r) := Ticks(w.k, 50);
    Slices.TicksSlice(w.k, 50);
    TicksFrame(w.k, 50);
    RemoveFrom([], LOW, [IDLE]);
    assert [] + [LOW] + [IDLE] == k1.ready && [] + [IDLE] == [IDLE];
    SwitchAt(k1, [], [IDLE]);
    w' := Next(w, SystickOp(49, false));
    assert w'.k.tcb[LOW] == LOW3;
  }

  /** A task of priority 2 becomes ready without a switch. */
  lemma BecomesReady(w: World) returns (w': World)
    requires Is(w, 3, [LOW, IDLE], LOW, LOW3, HIGH2, MutexS(Some(LOW), 1, [HIGH]), InLock(0))
    ensures Enabled(w, CreateRawOp(2)) && w' == Next(w, CreateRawOp(2))
    ensures Is(w', 4, [LOW, MIDDLE, IDLE], LOW, LOW3, HIGH2, MutexS(Some(LOW), 1, [HIGH]), InLock(0))
  {
    Fresh(w.k, 3, 2);
    var k1 := CreateRaw(w.k, 2).0;
    EnqueueAt(k1.tcb, [LOW], MIDDLE, [IDLE]);
    assert [LOW] + [IDLE] == [LOW, IDLE] && [LOW] + [MIDDLE] + [IDLE] == [LOW, MIDDLE, IDLE];
    w' := Next(w, CreateRawOp(2));
  }

  /** The owner unlocks: it gets its priority 3 back where it stands, before the task of priority 2. */
  lemma Unlocks(w: World) returns (w': World)
    requires Is(w, 4, [LOW, MIDDLE, IDLE], LOW, LOW3, HIGH2, MutexS(Some(LOW), 1, [HIGH]), InLock(0))
    ensures Enabled(w, UnlockOp(0)) && w' == Next(w, UnlockOp(0))
    ensures w'.k.ready == [HIGH, LOW, MIDDLE, IDLE]
    ensures w'.k.tcb[LOW].priority == 3 && w'.k.tcb[MIDDLE].priority == 2
  {
    var m := w.mutexes[0];
    var (k1, m1, y) := Release(w.k, m);
    EnqueueAt(k1.tcb, [], HIGH, [LOW, MIDDLE, IDLE]);
    assert [] + [LOW, MIDDLE, IDLE] == w.k.ready;
    assert k1.ready == [HIGH, LOW, MIDDLE, IDLE];
    assert WakeSleepers(k1, 0) == k1 && Requeue(k1) == k1;
    w' := Next(w, UnlockOp(0));
  }

  lemma Then(w: World, op: Op, w1: World, ops: seq<Op>, w': World)
    requires Enabled(w, op) && Disciplined(w, op) && w1 == Next(w, op) && ReachesDisciplined(w1, ops, w')
    ensures ReachesDisciplined(w, [op] + ops, w')
  {
    assert ([op] + ops)[1..] == ops;
  }

  lemma Second(w: World) returns (ops: seq<Op>, w': World)
    requires Is(w, 3, [LOW, IDLE], LOW, LOW2, HIGH2, MutexS(Some(LOW), 1, [HIGH]), InLock(0))
    ensures ReachesDisciplined(w, ops, w') && w'.k.ready == [HIGH, LOW, MIDDLE, IDLE]
    ensures w'.k.tcb[LOW].priority == 3 && w'.k.tcb[MIDDLE].priority == 2
  {
    var w1 := RunsOut(w);
    var w2 := BecomesReady(w1);
    w' := Unlocks(w2);
    ops := [];
    Then(w2, UnlockOp(0), w', ops, w');
    ops := [UnlockOp(0)] + ops;
    Then(w1, CreateRawOp(2), w2, ops, w');
    ops := [CreateRawOp(2)] + ops;
    Then(w, SystickOp(49, false), w1, ops, w');
    ops := [SystickOp(49, false)] + ops;
  }

  lemma First(w: World, rest: seq<Op>, w': World, w2: World, w3: World) returns (ops: seq<Op>)
    requires Is(w, 2, [LOW, IDLE], LOW, LOW0, EMPTY_TCB, MutexS(None, 0, []), Run)
    requires Enabled(w, LockOp(0)) && Disciplined(w, LockOp(0)) && w2 == Next(w, LockOp(0))
    requires Enabled(w2, CreateOp(1)) && w3 == Next(w2, CreateOp(1))
    requires ReachesDisciplined(w3, rest, w')
    ensures ReachesDisciplined(w, ops, w')
  {
    Then(w2, CreateOp(1), w3, rest, w');
    Then(w, LockOp(0), w2, [CreateOp(1)] + rest, w');
    ops := [LockOp(0)] + ([CreateOp(1)] + rest);
  }

  lemma Opening(rest: seq<Op>, w: World, w1: World, w': World) returns (ops: seq<Op>)
    requires Enabled(Begin(), CreateOp(3)) && w1 == Next(Begin(), CreateOp(3))
    requires Enabled(w1, LaunchOp) && w == Next(w1, LaunchOp) && ReachesDisciplined(w, rest, w')
    ensures ReachesDisciplined(Begin(), ops, w')
  {
    Then(w1, LaunchOp, w, rest, w');
    Then(Begin(), CreateOp(3), w1, [LaunchOp] + rest, w');
    ops := [CreateOp(3)] + ([LaunchOp] + rest);
  }

  /** From boot, by a run in which every task has at most one mutex, the system comes to a state whose
      ready list has a task of priority 3 before one of priority 2. */
  lemma OrderCanBeLost()
    ensures exists w0, ops, w ::
              && Initial(w0) && ReachesDisciplined(w0, ops, w)
              && w.k.ready == [HIGH, LOW, MIDDLE, IDLE]
              && w.k.tcb[LOW].priority == 3 && w.k.tcb[MIDDLE].priority == 2
  {
    var w1 := Created();
    var w2 := Launched(w1);
    var w3 := Locks(w2);
    var w4 := Preempts(w3);
    var w5 := Waits(w4);
    var rest, w := Second(w5);
    Then(w4, LockOp(0), w5, rest, w);
    var ops := First(w2, [LockOp(0)] + rest, w, w3, w4);
    ops := Opening(ops, w2, w1, w);
  }
}
