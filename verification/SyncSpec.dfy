/** The synchronisation objects of core/src/kernel/sync.rs as values, and the joint effect of each
    operation on the object and on the kernel. An operation runs up to its first `yield_task`,
    whose switch is part of it. */
module SyncSpec {
  import opened Config
  import opened Lists
  import opened KernelSpec

  datatype SemaS = SemaS(count: int, queue: seq<Tid>)

  datatype MutexS = MutexS(owner: Option<Tid>, depth: nat, queue: seq<Tid>)

  // ---- Semaphore ---------------------------------------------------------------------------

  function Down(k: K, s: SemaS): (K, SemaS) {
    var count := WrapI32(s.count - 1);
    if count < 0 then
      var k1 := BlockCurrent(k);
      (NextTcb(k1), SemaS(count, Enqueue(k1.tcb, s.queue, k.cur)))
    else (k, SemaS(count, s.queue))
  }

  /** `up_from_isr`: the first waiter becomes Ready; nothing is switched. */
  function UpFromIsr(k: K, s: SemaS): (K, SemaS) {
    var count := WrapI32(s.count + 1);
    if count <= 0 && s.queue != [] then (MakeReady(k, s.queue[0]), SemaS(count, s.queue[1..]))
    else (k, SemaS(count, s.queue))
  }

  function Up(k: K, s: SemaS): (K, SemaS) {
    var (k1, s1) := UpFromIsr(k, s);
    if s1.count <= 0 && s.queue != [] && k1.started
       && k1.tcb[s.queue[0]].priority < k1.tcb[k1.cur].priority
    then (NextTcb(k1), s1) else (k1, s1)
  }

  function TryDown(s: SemaS): (SemaS, bool) {
    if s.count > 0 then (s.(count := s.count - 1), true) else (s, false)
  }

  // ---- Mutex -------------------------------------------------------------------------------

  /** Priority inheritance: the owner is raised to the priority of the task about to wait. */
  function Boost(k: K, o: Tid): K {
    var p := k.tcb[k.cur].priority;
    if p < k.tcb[o].priority then
      var sub := if k.tcb[o].sub == PRI_INV then k.tcb[o].priority else k.tcb[o].sub;
      var tcb := k.tcb[o := k.tcb[o].(sub := sub, priority := p)];
      k.(tcb := tcb,
         ready := if tcb[o].status == Ready then Enqueue(tcb, Remove(k.ready, o), o) else k.ready)
    else k
  }

  function Lock(k: K, m: MutexS): (K, MutexS) {
    match m.owner
    case Some(o) =>
      if o == k.cur then (k, m.(depth := WrapU32(m.depth + 1)))
      else
        var k1 := BlockCurrent(Boost(k, o));
        (NextTcb(k1), m.(queue := Enqueue(k1.tcb, m.queue, k.cur)))
    case None => (k, m.(owner := Some(k.cur), depth := 1))
  }

  /** The owner gives back an inherited priority. */
  function Restore(k: K): K {
    var me := k.tcb[k.cur];
    if me.sub != PRI_INV then k.(tcb := k.tcb[k.cur := me.(priority := me.sub, sub := PRI_INV)]) else k
  }

  /** The outermost unlock before its switch: hand-off to the first waiter, or a free mutex; and
      whether a switch follows. */
  function Release(k: K, m: MutexS): (K, MutexS, bool) {
    var k1 := Restore(k);
    if m.queue != [] then
      var w := m.queue[0];
      var k2 := MakeReady(k1, w);
      (k2, MutexS(Some(w), 1, m.queue[1..]), k2.tcb[w].priority < k2.tcb[k.cur].priority)
    else
      (k1, MutexS(None, 0, []), k1.ready != [] && k1.tcb[k1.ready[0]].priority < k1.tcb[k.cur].priority)
  }

  /** `internal_unlock`, and whether it switched. */
  function Unlock(k: K, m: MutexS): (K, MutexS, bool) {
    var depth := WrapU32(m.depth - 1);
    if depth > 0 then (k, m.(depth := depth), false)
    else
      var (k1, m1, y) := Release(k, m);
      (if y then NextTcb(k1) else k1, m1, y)
  }

  // ---- Condition variable ------------------------------------------------------------------

  /** `wait` up to its first switch: the task is queued and blocked before the mutex is released.
      The flag says that the switch was the one inside `internal_unlock`, so that the task still
      has to make the one `wait` ends with. */
  function CvWait(k: K, q: seq<Tid>, m: MutexS): (K, seq<Tid>, MutexS, bool) {
    var (k1, m1, y) := Unlock(BlockCurrent(k), m);
    (if y then k1 else NextTcb(k1), PushBack(q, k.cur), m1, y)
  }

  function Notify(k: K, q: seq<Tid>): (K, seq<Tid>) {
    if q == [] then (k, q) else (NextTcb(MakeReady(k, q[0])), q[1..])
  }

  function MakeAllReady(k: K, q: seq<Tid>): K
    decreases |q|
  {
    if q == [] then k else MakeAllReady(MakeReady(k, q[0]), q[1..])
  }

  function NotifyAll(k: K, q: seq<Tid>): K {
    if q == [] then k else NextTcb(MakeAllReady(k, q))
  }
}
