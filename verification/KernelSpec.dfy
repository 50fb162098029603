/** The kernel state of core/src/kernel/global.rs and tcb.rs as a value, and the effect on it of
    every scheduler and task operation (sched.rs, task.rs). The class `Kernel` carries these
    operations out in place. */
module KernelSpec {
  import opened Config
  import opened Lists

  datatype Status = Terminated | Ready | Running | Blocked

  datatype Tcb = Tcb(status: Status, priority: nat, sub: nat, slice: nat, wake: nat)

  const EMPTY_TCB := Tcb(Terminated, PRI_MIN, PRI_INV, TIME_SLICE, 0)

  type Tcbs = s: seq<Tcb> | |s| == TASK_MAX witness seq(TASK_MAX, _ => EMPTY_TCB)

  /** `started` is `SCHED_READY`, set together with a non-null `CURRENT_TCB_PTR`; `cur` is the
      task that pointer designates; `used` is the tid bitmap as a set; `panicked` records that a kernel panic
      was reached. */
  datatype K = K(
    tcb: Tcbs,
    ready: seq<Tid>, sleeping: seq<Tid>, blocked: seq<Tid>,
    cur: Tid, ticks: nat, used: set<Tid>, started: bool, panicked: bool)

  function Boot(): K {
    K(seq(TASK_MAX, _ => EMPTY_TCB), [], [], [], 0, 0, {}, false, false)
  }

  // ---- Queue order -------------------------------------------------------------------------

  /** The comparison every priority queue uses: `t` goes before strictly less urgent tasks only. */
  function ByPriority(tcb: Tcbs, t: Tid): Tid -> bool {
    (x: Tid) => tcb[t].priority < tcb[x].priority
  }

  function ByWake(tcb: Tcbs, t: Tid): Tid -> bool {
    (x: Tid) => tcb[t].wake < tcb[x].wake
  }

  function Enqueue(tcb: Tcbs, xs: seq<Tid>, t: Tid): seq<Tid> {
    Insert(xs, t, ByPriority(tcb, t))
  }

  function SetStatus(tcb: Tcbs, t: Tid, st: Status): Tcbs {
    tcb[t := tcb[t].(status := st)]
  }

  /** A task taken off any other list becomes Ready and enters the ready list. */
  function MakeReady(k: K, t: Tid): K {
    var tcb := SetStatus(k.tcb, t, Ready);
    k.(tcb := tcb, ready := Enqueue(tcb, k.ready, t))
  }

  /** The running task leaves the ready list, to be put on some other queue. */
  function BlockCurrent(k: K): K {
    k.(tcb := SetStatus(k.tcb, k.cur, Blocked), ready := Remove(k.ready, k.cur))
  }

  // ---- Scheduler (sched.rs) ----------------------------------------------------------------

  predicate Due(k: K, t: Tid) {
    k.ticks >= k.tcb[t].wake
  }

  function WakeOne(k: K, t: Tid): K {
    MakeReady(k.(sleeping := Remove(k.sleeping, t), tcb := k.tcb[t := k.tcb[t].(wake := 0)]), t)
  }

  /** `wake_up_sleepers` from index `i` on. */
  function WakeSleepers(k: K, i: nat): (r: K)
    requires i <= |k.sleeping|
    decreases |k.sleeping| - i
  {
    if i == |k.sleeping| then k
    else if Due(k, k.sleeping[i]) then WakeSleepers(WakeOne(k, k.sleeping[i]), i)
    else WakeSleepers(k, i + 1)
  }

  /** The first half of `next_tcb`: what becomes of the task that was running. */
  function Requeue(k: K): K {
    var c := k.cur;
    if k.tcb[c].status == Terminated || k.tcb[c].status == Blocked then
      k.(ready := Remove(k.ready, c))
    else if k.tcb[c].slice == 0 || k.tcb[c].status == Running then
      var tcb := k.tcb[c := k.tcb[c].(slice := TIME_SLICE, status := Ready)];
      k.(tcb := tcb, ready := Enqueue(tcb, Remove(k.ready, c), c))
    else k
  }

  /** The second half of `next_tcb`: the front of the ready list is selected. */
  function Select(k: K): K {
    if k.ready == [] then k.(panicked := true)
    else if k.ready[0] == k.cur then k
    else
      var tcb := if k.tcb[k.cur].status == Running then SetStatus(k.tcb, k.cur, Ready) else k.tcb;
      k.(tcb := SetStatus(tcb, k.ready[0], Running), cur := k.ready[0])
  }

  function NextTcb(k: K): K {
    Select(Requeue(WakeSleepers(k, 0)))
  }

  /** `systick_tick`: the new state and whether a switch is asked for. */
  function Tick(k: K): (K, bool) {
    if !k.started then (k, false)
    else
      var c := k.cur;
      var slice := if k.tcb[c].slice > 0 then k.tcb[c].slice - 1 else 0;
      (k.(ticks := WrapU32(k.ticks + 1), tcb := k.tcb[c := k.tcb[c].(slice := slice)]),
       slice == 0 || k.sleeping != [])
  }

  /** `n` ticks in a row, as the trap handler replays them. */
  function Ticks(k: K, n: nat): (K, bool) {
    if n == 0 then (k, false)
    else
      var (k1, r1) := Ticks(k, n - 1);
      var (k2, r2) := Tick(k1);
      (k2, r1 || r2)
  }

  /** The systick interrupt: `missed + 1` ticks, then a switch if one of them or the deferred
      `YIELD_FROM_ISR` flag asks for it and the scheduler is running. */
  function SystickTrap(k: K, missed: nat, deferred: bool): K {
    var (k1, r) := Ticks(k, missed + 1);
    if k1.started && (r || deferred) then NextTcb(k1) else k1
  }

  // ---- Identifiers (global.rs) -------------------------------------------------------------

  function FirstFree(used: set<Tid>, t: nat): (r: Option<Tid>)
    requires t <= TASK_MAX
    ensures r.Some? ==> t <= r.value && r.value !in used
    ensures forall u: Tid | t <= u && (r.Some? ==> u < r.value) :: u in used
    decreases TASK_MAX - t
  {
    if t == TASK_MAX then None
    else if t !in used then Some(t)
    else FirstFree(used, t + 1)
  }

  function AllocTid(k: K): (K, Option<Tid>) {
    match FirstFree(k.used, 0)
    case None => (k, None)
    case Some(t) => (k.(used := k.used + {t}, tcb := k.tcb[t := EMPTY_TCB]), Some(t))
  }

  function FreeTid(k: K, t: Tid): K {
    k.(used := k.used - {t}, tcb := SetStatus(k.tcb, t, Terminated))
  }

  // ---- Task operations (task.rs) -----------------------------------------------------------

  /** What `create` and `create_raw` share: a fresh Ready task, or None when the pool is full. */
  function CreateRaw(k: K, priority: nat): (K, Option<Tid>) {
    var (k1, r) := AllocTid(k);
    match r
    case None => (k1, None)
    case Some(t) =>
      (MakeReady(k1.(tcb := k1.tcb[t := k1.tcb[t].(priority := priority, slice := TIME_SLICE)]), t), r)
  }

  function Create(k: K, priority: nat): (K, Option<Tid>) {
    var (k1, r) := CreateRaw(k, priority);
    if r.Some? && k1.started && priority < k1.tcb[k1.cur].priority then (NextTcb(k1), r) else (k1, r)
  }

  /** `Scheduler::launch`: the idle task is created and the most urgent task is chosen. */
  function Launch(k: K): K {
    var (k1, r) := Create(k, PRI_MIN);
    if r.None? || k1.ready == [] then k1.(panicked := true)
    else k1.(tcb := SetStatus(k1.tcb, k1.ready[0], Running), cur := k1.ready[0], started := true)
  }

  function ExitCurrent(k: K): K {
    NextTcb(FreeTid(k.(ready := Remove(k.ready, k.cur)), k.cur))
  }

  /** Task `t` goes from the ready to the blocked list. */
  function Suspend(k: K, t: Tid): K {
    k.(tcb := SetStatus(k.tcb, t, Blocked), ready := Remove(k.ready, t), blocked := PushBack(k.blocked, t))
  }

  function Block(k: K, t: Tid): K {
    if k.tcb[t].status == Ready || k.tcb[t].status == Running then NextTcb(Suspend(k, t)) else k
  }

  function Unblock(k: K, t: Tid): K {
    MakeReady(k.(blocked := Remove(k.blocked, t)), t)
  }

  function Resume(k: K, t: Tid): K {
    if k.tcb[t].status != Blocked || t !in k.blocked then k
    else
      var k1 := Unblock(k, t);
      if k1.started && k1.tcb[t].priority < k1.tcb[k1.cur].priority then NextTcb(k1) else k1
  }

  /** Task `t` leaves the kernel's lists and its identifier is free. */
  function Discard(k: K, t: Tid): K {
    FreeTid(k.(ready := Remove(k.ready, t), sleeping := Remove(k.sleeping, t),
               blocked := Remove(k.blocked, t)), t)
  }

  function Terminate(k: K, t: Tid): K {
    if k.tcb[t].status == Terminated then k else NextTcb(Discard(k, t))
  }

  /** The current task goes to the sleeping list, to be woken at tick `wake`. */
  function FallAsleep(k: K, wake: nat): K {
    var k1 := BlockCurrent(k.(tcb := k.tcb[k.cur := k.tcb[k.cur].(wake := wake)]));
    k1.(sleeping := Insert(k1.sleeping, k1.cur, ByWake(k1.tcb, k1.cur)))
  }

  function Delay(k: K, ticks: nat): K {
    if ticks == 0 then k else NextTcb(FallAsleep(k, WrapU32(k.ticks + ticks)))
  }
}
