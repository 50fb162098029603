/** The order in which a mutex serves its waiters: by priority, first come first served among equals. */
module Service {
  import opened Config
  import opened Lists
  import opened KernelSpec
  import opened SyncSpec
  import opened Place
  import opened Ordered
  import opened World
  import opened Safety
  import opened Inherit

  /** Of two waiters the one before the other stays before it, or becomes the owner while it waits. */
  lemma StepServes(w: World, loc: Locs, op: Op, i: nat, a: Tid, b: Tid)
    requires Inv(w, loc) && Enabled(w, op) && i < |w.mutexes| && Before(w.mutexes[i].queue, a, b)
    ensures i < |Next(w, op).mutexes|
    ensures var m' := Next(w, op).mutexes[i];
            Before(m'.queue, a, b) || (m'.owner == Some(a) && b in m'.queue)
  {
    var m, q := w.mutexes[i], w.mutexes[i].queue;
    MutexStep(w, loc, op, i);
    if Locks(w, op, i) && m.owner.Some? && m.owner.value != w.k.cur {
      var tcb := BlockCurrent(Boost(w.k, m.owner.value)).tcb;
      InsertKeepsBefore(q, w.k.cur, ByPriority(tcb, w.k.cur), a, b);
    } else if GivesUp(op, i) {
      PopKeepsBefore(q, a, b);
    }
  }

  /** In some state of the run `a` owns mutex `i` while `b` waits for it. */
  ghost predicate OwnsFirst(w: World, ops: seq<Op>, i: nat, a: Tid, b: Tid)
    decreases |ops|
  {
    || (i < |w.mutexes| && w.mutexes[i].owner == Some(a) && b in w.mutexes[i].queue)
    || (ops != [] && Enabled(w, ops[0]) && OwnsFirst(Next(w, ops[0]), ops[1..], i, a, b))
  }

  lemma {:induction false} RunServes(w: World, loc: Locs, ops: seq<Op>, w': World, i: nat, a: Tid, b: Tid)
    requires Inv(w, loc) && Reaches(w, ops, w') && i < |w.mutexes| && Before(w.mutexes[i].queue, a, b)
    ensures i < |w'.mutexes| && (Before(w'.mutexes[i].queue, a, b) || OwnsFirst(w, ops, i, a, b))
    decreases |ops|
  {
    if ops == [] {
    } else {
      var w1 := Next(w, ops[0]);
      StepServes(w, loc, ops[0], i, a, b);
      var loc1 := StepInv(w, loc, ops[0]);
      if Before(w1.mutexes[i].queue, a, b) {
        RunServes(w1, loc1, ops[1..], w', i, a, b);
      } else {
        RunMutexes(w1, loc1, ops[1..], w');
        assert OwnsFirst(w1, ops[1..], i, a, b);
      }
    }
  }

  lemma {:induction false} RunMutexes(w: World, loc: Locs, ops: seq<Op>, w': World)
    requires Inv(w, loc) && Reaches(w, ops, w')
    ensures |w'.mutexes| == |w.mutexes|
    decreases |ops|
  {
    if ops == [] {
    } else {
      var loc1 := StepInv(w, loc, ops[0]);
      assert |Next(w, ops[0]).mutexes| == |w.mutexes|;
      RunMutexes(Next(w, ops[0]), loc1, ops[1..], w');
    }
  }

  /** A waiter is not served before one that stands before it: when `b` no longer waits, `a` has been the
      owner while `b` still waited. This holds in every run. */
  lemma ServedInOrder(w0: World, before: seq<Op>, w: World, ops: seq<Op>, w': World, i: nat, a: Tid, b: Tid)
    requires Initial(w0) && Reaches(w0, before, w) && Reaches(w, ops, w')
    requires i < |w.mutexes| && Before(w.mutexes[i].queue, a, b)
    ensures i < |w'.mutexes| && (b !in w'.mutexes[i].queue ==> OwnsFirst(w, ops, i, a, b))
  {
    var loc := ReachableInv(w0, before, w);
    RunServes(w, loc, ops, w', i, a, b);
  }

  // ---- Arrivals ----------------------------------------------------------------------------

  /** Step `op` queues the current task for mutex `i`. */
  predicate Arrives(w: World, op: Op, i: nat) {
    Locks(w, op, i) && i < |w.mutexes| && w.mutexes[i].owner.Some? && w.mutexes[i].owner != Some(w.k.cur)
  }

  lemma ArrivalTable(w: World, loc: Locs, op: Op, i: nat)
    requires Inv(w, loc) && Exact(w) && Enabled(w, op) && Arrives(w, op, i)
    ensures var tcb := BlockCurrent(Boost(w.k, w.mutexes[i].owner.value)).tcb;
            && Sorted(tcb, w.mutexes[i].queue)
            && (forall t | t in w.mutexes[i].queue || t == w.k.cur :: tcb[t].priority == w.k.tcb[t].priority)
    ensures |w.mutexes[i].queue| < TASK_MAX
  {
    var o, q := w.mutexes[i].owner.value, w.mutexes[i].queue;
    assert ExactAt(w, i) && TaskExact(w, o);
    assert Holds(Queue(w, WaitMutex(i)), WaitMutex(i), loc);
    OwnerWaitsNowhere(w, loc, i, o, i);
    BoostTcb(w.k, o);
    SortedFrame(w.k.tcb, BlockCurrent(Boost(w.k, o)).tcb, q, o);
    Room(q, w.k.cur);
  }

  lemma EnqueuedInTurn(tcb: Tcbs, q: seq<Tid>, t: Tid, u: Tid)
    requires Sorted(tcb, q) && |q| < TASK_MAX && u in q
    ensures if tcb[u].priority <= tcb[t].priority then Before(Enqueue(tcb, q, t), u, t)
            else Before(Enqueue(tcb, q, t), t, u)
  {
    EnqueueKeepsTurn(tcb, q, t);
    var p, r := Pos(q, ByPriority(tcb, t)), Enqueue(tcb, q, t);
    var j :| 0 <= j < |q| && q[j] == u;
    if j < p {
      assert r[j] == u && r[p] == t;
      BeforeAt(r, j, p);
    } else {
      assert r[p] == t && r[j + 1] == u;
      BeforeAt(r, p, j + 1);
    }
  }

  /** A task that has to wait stands behind the waiters at least as urgent and before all others. */
  lemma ArrivalInTurn(w: World, loc: Locs, op: Op, i: nat, u: Tid)
    requires Inv(w, loc) && Exact(w) && Enabled(w, op) && Arrives(w, op, i) && u in w.mutexes[i].queue
    ensures i < |Next(w, op).mutexes|
    ensures if w.k.tcb[u].priority <= w.k.tcb[w.k.cur].priority
            then Before(Next(w, op).mutexes[i].queue, u, w.k.cur)
            else Before(Next(w, op).mutexes[i].queue, w.k.cur, u)
  {
    MutexStep(w, loc, op, i);
    ArrivalTable(w, loc, op, i);
    EnqueuedInTurn(BlockCurrent(Boost(w.k, w.mutexes[i].owner.value)).tcb, w.mutexes[i].queue, w.k.cur, u);
  }

  /** Service by priority and, among equals, by arrival. When a task has to wait for a mutex for which
      `u` waits already, then in every continuation the one of the two that is more urgent, or `u` if
      they are equally urgent, becomes the owner while the other still waits, before the other does. */
  lemma ServedInTurn(w0: World, before: seq<Op>, w: World, op: Op, i: nat, u: Tid, after: seq<Op>, w': World)
    requires Initial(w0) && ReachesDisciplined(w0, before, w) && Enabled(w, op)
    requires Arrives(w, op, i) && u in w.mutexes[i].queue && Reaches(Next(w, op), after, w')
    ensures i < |w'.mutexes|
    ensures w.k.tcb[u].priority <= w.k.tcb[w.k.cur].priority && w.k.cur !in w'.mutexes[i].queue ==>
              OwnsFirst(Next(w, op), after, i, u, w.k.cur)
    ensures w.k.tcb[u].priority > w.k.tcb[w.k.cur].priority && u !in w'.mutexes[i].queue ==>
              OwnsFirst(Next(w, op), after, i, w.k.cur, u)
  {
    InitialInv(w0);
    InitialExact(w0);
    var loc := RunExact(w0, seq(TASK_MAX, _ => Dead), before, w);
    ArrivalInTurn(w, loc, op, i, u);
    var loc1 := StepInv(w, loc, op);
    if w.k.tcb[u].priority <= w.k.tcb[w.k.cur].priority {
      RunServes(Next(w, op), loc1, after, w', i, u, w.k.cur);
    } else {
      RunServes(Next(w, op), loc1, after, w', i, w.k.cur, u);
    }
  }
}
