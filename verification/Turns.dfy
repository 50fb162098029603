/** The order in which a semaphore serves its waiters, by priority and first come first served among
    equals; and the order in which a notify-all makes its waiters ready. */
module Turns {
  import opened Config
  import opened Lists
  import opened KernelSpec
  import opened SyncSpec
  import opened Place
  import opened SyncPlace
  import opened Ordered
  import opened World
  import opened Safety
  import opened Inherit
  import Order
  import Sleep
  import Switch
  import Tokens
  import Service

  // ---- One step ----------------------------------------------------------------------------

  /** Step `op` puts a token into semaphore `i`. */
  predicate Ups(op: Op, i: nat) {
    op == UpOp(i) || op == IsrUpOp(i)
  }

  /** The queue of a semaphore changes only by a `down` that inserts its caller, and by an `up` that
      takes out the first waiter. */
  lemma SemaQueueStep(w: World, loc: Locs, op: Op, i: nat)
    requires Inv(w, loc) && Enabled(w, op) && i < |w.semas|
    ensures i < |Next(w, op).semas|
    ensures var (q, q') := (w.semas[i].queue, Next(w, op).semas[i].queue);
            || q' == q
            || (op == DownOp(i) && q' == Enqueue(BlockCurrent(w.k).tcb, q, w.k.cur))
            || (Ups(op, i) && q != [] && q' == q[1..] && q[0] in Next(w, op).k.ready)
  {
    var l, s := WaitSema(i), w.semas[i];
    Tokens.SemasStay(w, op);
    assert Holds(Queue(w, l), l, loc);
    if op == UpOp(i) {
      var loc' := UpSettles(w.k, s, loc, l, w.idle);
    } else if op == IsrUpOp(i) {
      var loc' := UpFromIsrSettles(w.k, s, loc, l, w.idle);
    }
  }

  /** Of two waiters the one before the other stays before it, or is ready while the other waits. */
  lemma StepServes(w: World, loc: Locs, op: Op, i: nat, a: Tid, b: Tid)
    requires Inv(w, loc) && Enabled(w, op) && i < |w.semas| && Before(w.semas[i].queue, a, b)
    ensures i < |Next(w, op).semas|
    ensures var q' := Next(w, op).semas[i].queue;
            Before(q', a, b) || (a in Next(w, op).k.ready && b in q')
  {
    var q := w.semas[i].queue;
    SemaQueueStep(w, loc, op, i);
    if op == DownOp(i) {
      InsertKeepsBefore(q, w.k.cur, ByPriority(BlockCurrent(w.k).tcb, w.k.cur), a, b);
    } else if Ups(op, i) {
      PopKeepsBefore(q, a, b);
    }
  }

  // ---- Every run ---------------------------------------------------------------------------

  /** In some state of the run `a` is ready while `b` waits for semaphore `i`. */
  ghost predicate ReadyFirst(w: World, ops: seq<Op>, i: nat, a: Tid, b: Tid)
    decreases |ops|
  {
    || (i < |w.semas| && a in w.k.ready && b in w.semas[i].queue)
    || (ops != [] && Enabled(w, ops[0]) && ReadyFirst(Next(w, ops[0]), ops[1..], i, a, b))
  }

  lemma {:induction false} RunSemas(w: World, ops: seq<Op>, w': World)
    requires Reaches(w, ops, w')
    ensures |w'.semas| == |w.semas|
    decreases |ops|
  {
    if ops == [] {
    } else {
      Tokens.SemasStay(w, ops[0]);
      RunSemas(Next(w, ops[0]), ops[1..], w');
    }
  }

  lemma {:induction false} RunServes(w: World, loc: Locs, ops: seq<Op>, w': World, i: nat, a: Tid, b: Tid)
    requires Inv(w, loc) && Reaches(w, ops, w') && i < |w.semas| && Before(w.semas[i].queue, a, b)
    ensures i < |w'.semas| && (Before(w'.semas[i].queue, a, b) || ReadyFirst(w, ops, i, a, b))
    decreases |ops|
  {
    if ops == [] {
    } else {
      var w1 := Next(w, ops[0]);
      StepServes(w, loc, ops[0], i, a, b);
      var loc1 := StepInv(w, loc, ops[0]);
      if Before(w1.semas[i].queue, a, b) {
        RunServes(w1, loc1, ops[1..], w', i, a, b);
      } else {
        RunSemas(w1, ops[1..], w');
        assert ReadyFirst(w1, ops[1..], i, a, b);
      }
    }
  }

  /** A waiter is not woken before one that stands before it: when `b` no longer waits for the semaphore,
      `a` has been ready while `b` still waited. This holds in every run. */
  lemma WokenInOrder(w0: World, before: seq<Op>, w: World, ops: seq<Op>, w': World, i: nat, a: Tid, b: Tid)
    requires Initial(w0) && Reaches(w0, before, w) && Reaches(w, ops, w')
    requires i < |w.semas| && Before(w.semas[i].queue, a, b)
    ensures i < |w'.semas| && (b !in w'.semas[i].queue ==> ReadyFirst(w, ops, i, a, b))
  {
    var loc := ReachableInv(w0, before, w);
    RunServes(w, loc, ops, w', i, a, b);
  }

  // ---- Arrivals ----------------------------------------------------------------------------

  /** The caller of a `down` that has to wait stands behind the waiters at least as urgent and before all
      others, which keep their order, if the queue was in order. */
  lemma DownInTurn(w: World, loc: Locs, i: nat, u: Tid)
    requires Inv(w, loc) && Enabled(w, DownOp(i)) && Sorted(w.k.tcb, w.semas[i].queue)
    requires w.semas[i].count <= 0 && Tokens.Waits(w.semas[i]) && u in w.semas[i].queue
    ensures i < |Next(w, DownOp(i)).semas|
    ensures var q' := Next(w, DownOp(i)).semas[i].queue;
            if w.k.tcb[u].priority <= w.k.tcb[w.k.cur].priority then Before(q', u, w.k.cur)
            else Before(q', w.k.cur, u)
  {
    var q, tcb := w.semas[i].queue, BlockCurrent(w.k).tcb;
    assert Holds(Queue(w, WaitSema(i)), WaitSema(i), loc);
    Tokens.WaitersFit(w, loc, i);
    Room(q, w.k.cur);
    SortedSame(w.k.tcb, tcb, q);
    Service.EnqueuedInTurn(tcb, q, w.k.cur, u);
  }

  // ---- Queues that stay in order -----------------------------------------------------------

  /** The queue of semaphore `i` is in order, and nobody in it owns a mutex. */
  ghost predicate InOrder(w: World, i: nat)
    requires i < |w.semas|
  {
    Sorted(w.k.tcb, w.semas[i].queue) && forall t | t in w.semas[i].queue :: !Owns(w, t)
  }

  /** One mutex at a time, and none while a task calls `down`. */
  ghost predicate Unencumbered(w: World, op: Op) {
    Disciplined(w, op) && (op.DownOp? ==> !Owns(w, w.k.cur))
  }

  /** Nobody who waits for a semaphore is made the owner of a mutex. */
  lemma OwnsNothingYet(w: World, loc: Locs, op: Op, i: nat, t: Tid)
    requires Inv(w, loc) && Enabled(w, op) && i < |w.semas| && !Owns(w, t)
    requires t in w.semas[i].queue || (op == DownOp(i) && t == w.k.cur)
    ensures !Owns(Next(w, op), t)
  {
    assert Holds(Queue(w, WaitSema(i)), WaitSema(i), loc);
    forall j | 0 <= j < |Next(w, op).mutexes| ensures Next(w, op).mutexes[j].owner != Some(t) {
      assert j < |w.mutexes|;
      MutexStep(w, loc, op, j);
      assert Holds(Queue(w, WaitMutex(j)), WaitMutex(j), loc);
      var q := w.mutexes[j].queue;
      assert q != [] ==> q[0] in q;
    }
  }

  /** A task that owns no mutex, and is not given one, keeps its priority. */
  lemma KeepsPriority(w: World, loc: Locs, op: Op, t: Tid)
    requires Inv(w, loc) && Exact(w) && Enabled(w, op) && Disciplined(w, op)
    requires Live(w, t) && !Owns(w, t) && !Owns(Next(w, op), t)
    ensures Next(w, op).k.tcb[t].priority == w.k.tcb[t].priority
  {
    BaseIsConserved(w, loc, op, t);
    StepExact(w, loc, op);
    assert TaskExact(w, t) && TaskExact(Next(w, op), t);
  }

  lemma WaiterKeepsPriority(w: World, loc: Locs, op: Op, i: nat, t: Tid)
    requires Inv(w, loc) && Exact(w) && Enabled(w, op) && Unencumbered(w, op) && i < |w.semas| && InOrder(w, i)
    requires t in w.semas[i].queue || (op == DownOp(i) && t == w.k.cur)
    ensures Next(w, op).k.tcb[t].priority == w.k.tcb[t].priority && !Owns(Next(w, op), t)
  {
    assert Holds(Queue(w, WaitSema(i)), WaitSema(i), loc);
    assert TaskAgrees(w.k, loc, t);
    OwnsNothingYet(w, loc, op, i, t);
    KeepsPriority(w, loc, op, t);
  }

  lemma SortedAs(tcb: Tcbs, tcb': Tcbs, q: seq<Tid>)
    requires Sorted(tcb, q) && forall t | t in q :: tcb'[t].priority == tcb[t].priority
    ensures Sorted(tcb', q) && Sorted(tcb', if q == [] then [] else q[1..])
  {
    assert forall j | 0 <= j < |q| :: q[j] in q;
    if q != [] {
      assert forall j | 0 <= j < |q[1..]| :: q[1..][j] == q[j + 1];
    }
  }

  /** The members of the queue, and a caller that joins them, keep their priorities and own nothing. */
  ghost predicate Steady(w: World, w': World, ts: set<Tid>) {
    forall t | t in ts :: w'.k.tcb[t].priority == w.k.tcb[t].priority && !Owns(w', t)
  }

  lemma WaitersSteady(w: World, loc: Locs, op: Op, i: nat)
    requires Inv(w, loc) && Exact(w) && Enabled(w, op) && Unencumbered(w, op) && i < |w.semas| && InOrder(w, i)
    ensures Steady(w, Next(w, op), (set t | t in w.semas[i].queue) + if op == DownOp(i) then {w.k.cur} else {})
  {
    forall t | t in w.semas[i].queue || (op == DownOp(i) && t == w.k.cur)
      ensures Next(w, op).k.tcb[t].priority == w.k.tcb[t].priority && !Owns(Next(w, op), t)
    {
      WaiterKeepsPriority(w, loc, op, i, t);
    }
  }

  lemma NoneLeftBehind(w: World, w': World, i: nat)
    requires i < |w.semas| == |w'.semas| && InOrder(w, i)
    requires var q := w.semas[i].queue; w'.semas[i].queue in {q, if q == [] then [] else q[1..]}
    requires Steady(w, w', set t | t in w.semas[i].queue)
    ensures InOrder(w', i)
  {
    SortedAs(w.k.tcb, w'.k.tcb, w.semas[i].queue);
  }

  lemma StepInOrder(w: World, loc: Locs, op: Op, i: nat)
    requires Inv(w, loc) && Exact(w) && Enabled(w, op) && Unencumbered(w, op) && i < |w.semas| && InOrder(w, i)
    ensures i < |Next(w, op).semas| && InOrder(Next(w, op), i)
  {
    var w', q := Next(w, op), w.semas[i].queue;
    SemaQueueStep(w, loc, op, i);
    WaitersSteady(w, loc, op, i);
    Tokens.SemasStay(w, op);
    if w'.semas[i].queue in {q, if q == [] then [] else q[1..]} {
      NoneLeftBehind(w, w', i);
    } else {
      assert Holds(Queue(w, WaitSema(i)), WaitSema(i), loc);
      EnqueuedInOrder(w.k, q, w'.k.tcb);
    }
  }

  lemma EnqueuedInOrder(k: K, q: seq<Tid>, tcb: Tcbs)
    requires Sorted(k.tcb, q) && NoDup(q) && k.cur !in q
    requires forall t: Tid | t in q || t == k.cur :: tcb[t].priority == k.tcb[t].priority
    ensures var q' := Enqueue(BlockCurrent(k).tcb, q, k.cur);
            Sorted(tcb, q') && forall t: Tid :: t in q' <==> t in q || t == k.cur
  {
    var tcb0 := BlockCurrent(k).tcb;
    SortedSame(k.tcb, tcb0, q);
    Room(q, k.cur);
    EnqueueSorted(tcb0, q, k.cur);
    InsertMembers(q, k.cur, ByPriority(tcb0, k.cur));
    SortedAs(tcb0, tcb, Enqueue(tcb0, q, k.cur));
  }

  ghost predicate ReachesUnencumbered(w: World, ops: seq<Op>, w': World)
    decreases |ops|
  {
    if ops == [] then w' == w
    else Enabled(w, ops[0]) && Unencumbered(w, ops[0]) && ReachesUnencumbered(Next(w, ops[0]), ops[1..], w')
  }

  lemma {:induction false} RunInOrder(w: World, loc: Locs, ops: seq<Op>, w': World, i: nat) returns (loc': Locs)
    requires Inv(w, loc) && Exact(w) && i < |w.semas| && InOrder(w, i) && ReachesUnencumbered(w, ops, w')
    ensures Inv(w', loc') && i < |w'.semas| && InOrder(w', i)
    decreases |ops|
  {
    loc' := loc;
    if ops == [] {
    } else {
      StepInOrder(w, loc, ops[0], i);
      StepExact(w, loc, ops[0]);
      var loc1 := StepInv(w, loc, ops[0]);
      loc' := RunInOrder(Next(w, ops[0]), loc1, ops[1..], w', i);
    }
  }

  lemma {:induction false} AlsoReaches(w: World, ops: seq<Op>, w': World)
    requires ReachesUnencumbered(w, ops, w')
    ensures Reaches(w, ops, w')
    decreases |ops|
  {
    if ops == [] {
    } else {
      AlsoReaches(Next(w, ops[0]), ops[1..], w');
    }
  }

  /** The waiters of a semaphore stand in order of priority in every state of a run in which tasks call
      `down` without a mutex and otherwise own one at a time. */
  lemma SemaStaysInOrder(w0: World, ops: seq<Op>, w: World, i: nat) returns (loc: Locs)
    requires Initial(w0) && ReachesUnencumbered(w0, ops, w) && i < |w0.semas|
    ensures Inv(w, loc) && i < |w.semas| && Sorted(w.k.tcb, w.semas[i].queue)
  {
    InitialInv(w0);
    InitialExact(w0);
    assert w0.semas[i] in w0.semas;
    loc := RunInOrder(w0, seq(TASK_MAX, _ => Dead), ops, w, i);
  }

  /** A semaphore serves by priority and, among equals, by arrival. When a task has to wait for a semaphore
      for which `u` waits already, then in every continuation the one of the two that is more urgent, or
      `u` if they are equally urgent, is ready while the other still waits, before the other is. */
  lemma WokenInTurn(w0: World, before: seq<Op>, w: World, i: nat, u: Tid, after: seq<Op>, w': World)
    requires Initial(w0) && ReachesUnencumbered(w0, before, w) && i < |w0.semas|
    requires w0.semas[i].count + Tokens.PutIn(before, i) <= I32_MAX
    requires Enabled(w, DownOp(i)) && u in w.semas[i].queue && Reaches(Next(w, DownOp(i)), after, w')
    ensures i < |w'.semas|
    ensures w.k.tcb[u].priority <= w.k.tcb[w.k.cur].priority && w.k.cur !in w'.semas[i].queue ==>
              ReadyFirst(Next(w, DownOp(i)), after, i, u, w.k.cur)
    ensures w.k.tcb[u].priority > w.k.tcb[w.k.cur].priority && u !in w'.semas[i].queue ==>
              ReadyFirst(Next(w, DownOp(i)), after, i, w.k.cur, u)
  {
    var loc := SemaStaysInOrder(w0, before, w, i);
    AlsoReaches(w0, before, w);
    Tokens.TokensAreConserved(w0, before, w, i);
    DownInTurn(w, loc, i, u);
    var loc1 := StepInv(w, loc, DownOp(i));
    if w.k.tcb[u].priority <= w.k.tcb[w.k.cur].priority {
      RunServes(Next(w, DownOp(i)), loc1, after, w', i, u, w.k.cur);
    } else {
      RunServes(Next(w, DownOp(i)), loc1, after, w', i, w.k.cur, u);
    }
  }

  // ---- Notify-all --------------------------------------------------------------------------

  lemma {:induction false} AllKeepBefore(k: K, q: seq<Tid>, a: Tid, b: Tid)
    requires Before(k.ready, a, b)
    ensures Before(MakeAllReady(k, q).ready, a, b)
    decreases |q|
  {
    if q == [] {
    } else {
      InsertKeepsBefore(k.ready, q[0], ByPriority(MakeReady(k, q[0]).tcb, q[0]), a, b);
      AllKeepBefore(MakeReady(k, q[0]), q[1..], a, b);
    }
  }

  /** The tasks in `q` are off the ready list, which is in order. */
  ghost predicate Coming(k: K, q: seq<Tid>) {
    Switch.InLine(k) && NoDup(q) && forall t | t in q :: t !in k.ready
  }

  lemma ComesFirst(k: K, q: seq<Tid>)
    requires Coming(k, q) && q != []
    ensures Coming(MakeReady(k, q[0]), q[1..]) && q[0] in MakeReady(k, q[0]).ready
    ensures forall t: Tid :: MakeReady(k, q[0]).tcb[t].priority == k.tcb[t].priority
    ensures forall t: Tid | t in k.ready :: t in MakeReady(k, q[0]).ready
  {
    var t, k1 := q[0], MakeReady(k, q[0]);
    Switch.ArrivalInLine(k, k1, t);
    InsertMembers(k.ready, t, ByPriority(k1.tcb, t));
    forall x | x in q[1..] ensures x !in k1.ready {
      var j :| 0 <= j < |q[1..]| && q[1..][j] == x;
      assert q[j + 1] == x && q[0] != q[j + 1];
    }
  }

  lemma {:induction false} ComesBehind(k: K, q: seq<Tid>, a: Tid, b: Tid)
    requires Coming(k, q) && a in k.ready && b in q && k.tcb[a].priority <= k.tcb[b].priority
    ensures Before(MakeAllReady(k, q).ready, a, b)
    decreases |q|
  {
    var k1 := MakeReady(k, q[0]);
    ComesFirst(k, q);
    if q[0] == b {
      SortedSame(k.tcb, k1.tcb, k.ready);
      Room(k.ready, b);
      Service.EnqueuedInTurn(k1.tcb, k.ready, b, a);
      AllKeepBefore(k1, q[1..], a, b);
    } else {
      ComesBehind(k1, q[1..], a, b);
    }
  }

  lemma {:induction false} AllInTurn(k: K, q: seq<Tid>, a: Tid, b: Tid)
    requires Coming(k, q) && Before(q, a, b) && k.tcb[a].priority <= k.tcb[b].priority
    ensures Before(MakeAllReady(k, q).ready, a, b)
    decreases |q|
  {
    ComesFirst(k, q);
    PopKeepsBefore(q, a, b);
    if q[0] == a {
      var j, m :| 0 <= j < m < |q| && q[j] == a && q[m] == b;
      assert q[1..][m - 1] == b;
      ComesBehind(MakeReady(k, a), q[1..], a, b);
    } else {
      AllInTurn(MakeReady(k, q[0]), q[1..], a, b);
    }
  }

  lemma ReadyAfterRequeue(k: K)
    requires k.tcb[k.cur].status == Ready || k.tcb[k.cur].status == Running
    ensures Select(Requeue(k)).ready ==
              if Requeues(k) then Enqueue(Requeue(k).tcb, Remove(k.ready, k.cur), k.cur) else k.ready
  {
  }

  lemma RequeueKeepsBefore(k: K, a: Tid, b: Tid)
    requires Switch.InLine(k) && Before(k.ready, a, b) && a != k.cur && b != k.cur
    ensures Before(Select(Requeue(k)).ready, a, b)
  {
    var q, before := Remove(k.ready, k.cur), ByPriority(Requeue(k).tcb, k.cur);
    assert b in k.ready;
    ReadyAfterRequeue(k);
    if Requeues(k) {
      StillBefore(k.ready, k.cur, a, b);
      InsertKeepsBefore(q, k.cur, before, a, b);
    }
  }

  lemma StillBefore(q: seq<Tid>, t: Tid, a: Tid, b: Tid)
    requires NoDup(q) && Before(q, a, b) && a != t && b != t
    ensures Before(Remove(q, t), a, b)
  {
    assert b in q;
    Switch.RemovedBefore(q, t, a, b);
  }

  lemma AllReadyInTurn(k: K, q: seq<Tid>, a: Tid, b: Tid)
    requires Coming(k, q) && Order.NoneDue(k) && k.cur !in q
    requires Before(q, a, b) && k.tcb[a].priority <= k.tcb[b].priority
    ensures Before(NotifyAll(k, q).ready, a, b)
  {
    var k1 := MakeAllReady(k, q);
    AllInTurn(k, q, a, b);
    Switch.AllArrive(k, q);
    Sleep.MakeAllReadyQuiet(k, q);
    Order.MakeAllReadyFrame(k, q);
    Sleep.QuietSwitch(k, k1);
    assert a in q && b in q;
    RequeueKeepsBefore(k1, a, b);
  }

  /** A notify-all makes its waiters ready in turn: one that is at least as urgent as a later one stands
      before it in the ready list. */
  lemma NotifyAllInTurn(w: World, loc: Locs, c: nat, a: Tid, b: Tid)
    requires Inv(w, loc) && Enabled(w, NotifyAllOp(c)) && Ordered.SortedReady(w.k) && Order.NoneDue(w.k)
    requires Before(w.cvs[c], a, b) && w.k.tcb[a].priority <= w.k.tcb[b].priority
    ensures Before(Next(w, NotifyAllOp(c)).k.ready, a, b)
  {
    assert Holds(Queue(w, WaitCv(c)), WaitCv(c), loc);
    Switch.WorldInLine(w, loc);
    AllReadyInTurn(w.k, w.cvs[c], a, b);
  }

  // ---- Raised owners -----------------------------------------------------------------------

  lemma RaisedInTurn(k: K, loc: Locs, o: Tid, u: Tid)
    requires Placed(k, loc) && loc[k.cur] == InReady && Switch.InLine(k) && o != k.cur && loc[o] == InReady
    requires k.tcb[k.cur].priority < k.tcb[o].priority && u in k.ready && u != o
    ensures if k.tcb[u].priority <= k.tcb[k.cur].priority then Before(Boost(k, o).ready, u, o)
            else Before(Boost(k, o).ready, o, u)
  {
    var q, tcb := Remove(k.ready, o), Boost(k, o).tcb;
    assert TaskAgrees(k, loc, o);
    RemoveMembers(k.ready, o);
    RemoveSorted(k.tcb, k.ready, o);
    SortedFrame(k.tcb, tcb, q, o);
    Room(q, o);
    Service.EnqueuedInTurn(tcb, q, o, u);
  }

  lemma ReadyAfterBlock(k: K, k0: K)
    requires NoDup(k.ready) && Order.NoneDue(k0) && k0 == BlockCurrent(k)
    ensures NextTcb(k0).ready == Remove(k.ready, k.cur)
  {
    RemoveMembers(k.ready, k.cur);
    RemoveAbsent(k0.ready, k.cur);
    Order.NoneWoken(k0, 0);
  }

  lemma BlockedKeepsBefore(k: K, k0: K, loc: Locs, a: Tid, b: Tid)
    requires Placed(k, loc) && loc[k.cur] == InReady && Order.NoneDue(k) && a != k.cur && b != k.cur
    requires k0 == BlockCurrent(k) && Before(k.ready, a, b)
    ensures Before(NextTcb(k0).ready, a, b)
  {
    ReadyAfterBlock(k, k0);
    StillBefore(k.ready, k.cur, a, b);
  }

  /** The owner that a lock call raises, if it is ready, comes behind the tasks at least as urgent as the caller
      and before all others. */
  lemma RaisesInTurn(w: World, loc: Locs, op: Op, i: nat, u: Tid)
    requires Inv(w, loc) && Enabled(w, op) && Service.Arrives(w, op, i) && Ordered.SortedReady(w.k)
    requires Order.NoneDue(w.k) && u in w.k.ready && u != w.k.cur && w.mutexes[i].owner != Some(u)
    requires var o := w.mutexes[i].owner.value;
             o in w.k.ready && w.k.tcb[w.k.cur].priority < w.k.tcb[o].priority
    ensures var (ready, o) := (Next(w, op).k.ready, w.mutexes[i].owner.value);
            if w.k.tcb[u].priority <= w.k.tcb[w.k.cur].priority then Before(ready, u, o) else Before(ready, o, u)
  {
    var k, o := w.k, w.mutexes[i].owner.value;
    var k1 := Boost(k, o);
    Switch.WorldInLine(w, loc);
    RaisedInTurn(k, loc, o, u);
    BoostPlaced(k, loc, o);
    if k.tcb[u].priority <= k.tcb[k.cur].priority {
      BlockedKeepsBefore(k1, BlockCurrent(k1), loc, u, o);
    } else {
      BlockedKeepsBefore(k1, BlockCurrent(k1), loc, o, u);
    }
  }
}
