/** Bounded waiting: among tasks of the most urgent ready priority, a task's turn comes after at most
    the remaining time slices of those before it. */
module Fair {
  import opened Config
  import opened Lists
  import opened KernelSpec
  import opened SyncSpec
  import opened Place
  import opened Ordered
  import opened SyncPlace
  import opened World
  import opened Safety
  import opened Order
  import opened Slices
  import Inherit

  /** The time slices still to be used by the tasks before `t` in `q`. */
  function Work(tcb: Tcbs, q: seq<Tid>, t: Tid): nat {
    if q == [] || q[0] == t then 0 else tcb[q[0]].slice + Work(tcb, q[1..], t)
  }

  lemma {:induction false} WorkPrefix(tcb: Tcbs, a: seq<Tid>, b: seq<Tid>, t: Tid)
    requires t in a
    ensures Work(tcb, a + b, t) == Work(tcb, a, t)
  {
    if a[0] == t {
    } else {
      assert (a + b)[1..] == a[1..] + b;
      WorkPrefix(tcb, a[1..], b, t);
    }
  }

  lemma {:induction false} WorkFrame(tcb: Tcbs, tcb': Tcbs, q: seq<Tid>, t: Tid)
    requires forall x | x in q && x != t :: tcb'[x].slice == tcb[x].slice
    ensures Work(tcb', q, t) == Work(tcb, q, t)
  {
    if q == [] || q[0] == t {
    } else {
      assert forall x | x in q[1..] :: x in q;
      WorkFrame(tcb, tcb', q[1..], t);
    }
  }

  lemma {:induction false} WorkRemove(tcb: Tcbs, q: seq<Tid>, u: Tid, t: Tid)
    requires u != t
    ensures Work(tcb, Remove(q, u), t) <= Work(tcb, q, t)
    ensures t in q ==> t in Remove(q, u)
    ensures q != [] && q[0] == u ==> Work(tcb, Remove(q, u), t) == Work(tcb, q, t) - tcb[u].slice
  {
    if q == [] || q[0] == u {
    } else {
      WorkRemove(tcb, q[1..], u, t);
    }
  }

  /** A task no more urgent than `t` is inserted behind `t`. */
  lemma WorkEnqueue(tcb: Tcbs, q: seq<Tid>, u: Tid, t: Tid)
    requires Sorted(tcb, q) && t in q && tcb[t].priority <= tcb[u].priority && u != t
    ensures Work(tcb, Enqueue(tcb, q, u), t) == Work(tcb, q, t)
    ensures t in Enqueue(tcb, q, u) && Enqueue(tcb, q, u)[0] == q[0]
  {
    if |q| < TASK_MAX {
      var p := Pos(q, ByPriority(tcb, u));
      var i :| 0 <= i < |q| && q[i] == t;
      EnqueueKeepsTurn(tcb, q, u);
      assert q[..p][i] == t;
      WorkSplit(tcb, q, p, u, t);
    }
  }

  lemma WorkSplit(tcb: Tcbs, q: seq<Tid>, p: nat, u: Tid, t: Tid)
    requires p <= |q| && t in q[..p]
    ensures Work(tcb, q[..p] + [u] + q[p..], t) == Work(tcb, q, t)
  {
    WorkPrefix(tcb, q[..p], [u] + q[p..], t);
    WorkPrefix(tcb, q[..p], q[p..], t);
    assert q[..p] + q[p..] == q && q[..p] + ([u] + q[p..]) == q[..p] + [u] + q[p..];
  }

  lemma {:induction false} WorkBound(tcb: Tcbs, q: seq<Tid>, t: Tid, i: nat)
    requires i < |q| && q[i] == t && forall x: Tid :: tcb[x].slice <= TIME_SLICE
    ensures Work(tcb, q, t) <= i * TIME_SLICE
    decreases i
  {
    if i == 0 || q[0] == t {
    } else {
      WorkBound(tcb, q[1..], t, i - 1);
    }
  }

  // ---- Kernel edits ------------------------------------------------------------------------

  function KWork(k: K, t: Tid): nat {
    Work(k.tcb, k.ready, t)
  }

  /** `t` is ready and nobody more urgent is. */
  ghost predicate Foremost(k: K, t: Tid) {
    t in k.ready && forall x | x in k.ready :: k.tcb[t].priority <= k.tcb[x].priority
  }

  lemma MakeReadyWork(k: K, u: Tid, t: Tid)
    requires SortedReady(k) && t in k.ready && u != t && k.tcb[t].priority <= k.tcb[u].priority
    requires u !in k.ready
    ensures var k' := MakeReady(k, u);
            KWork(k', t) == KWork(k, t) && SortedReady(k') && t in k'.ready && k'.ready[0] == k.ready[0]
  {
    var tcb := SetStatus(k.tcb, u, Ready);
    MakeReadySorted(k, u);
    SortedSame(k.tcb, tcb, k.ready);
    WorkEnqueue(tcb, k.ready, u, t);
    WorkFrame(k.tcb, tcb, k.ready, t);
  }

  lemma WakeOneTaskWork(k: K, u: Tid, t: Tid)
    requires SortedReady(k) && t in k.ready && u !in k.ready && k.tcb[t].priority <= k.tcb[u].priority
    ensures var k' := WakeOne(k, u);
            && KWork(k', t) == KWork(k, t) && SortedReady(k') && t in k'.ready && k'.ready[0] == k.ready[0]
            && forall x: Tid :: k'.tcb[x].priority == k.tcb[x].priority
  {
    var k0 := k.(sleeping := Remove(k.sleeping, u), tcb := k.tcb[u := k.tcb[u].(wake := 0)]);
    SortedSame(k.tcb, k0.tcb, k.ready);
    WorkFrame(k.tcb, k0.tcb, k.ready, t);
    MakeReadyWork(k0, u, t);
  }

  lemma {:induction false} WakeWork(k: K, loc: Locs, i: nat, t: Tid)
    requires Placed(k, loc) && SortedReady(k) && t in k.ready
    requires i <= |k.sleeping| && forall j | 0 <= j < i :: !Due(k, k.sleeping[j])
    requires forall x | x in WakeSleepers(k, i).ready :: k.tcb[t].priority <= k.tcb[x].priority
    ensures var k' := WakeSleepers(k, i);
            KWork(k', t) == KWork(k, t) && SortedReady(k') && t in k'.ready && k'.ready[0] == k.ready[0]
    decreases |k.sleeping| - i
  {
    if i == |k.sleeping| {
    } else {
      var u := k.sleeping[i];
      if Due(k, u) {
        var k1 := WakeOne(k, u);
        assert u in k.sleeping && u !in k.ready;
        WakeOnePlaced(k, loc, u);
        RemoveAt(k.sleeping, i);
        WakeSleepersPlaced(k1, loc[u := InReady], i);
        assert u in WakeSleepers(k1, i).ready;
        WakeOneTaskWork(k, u, t);
        WakeWork(k1, loc[u := InReady], i, t);
      } else {
        WakeWork(k, loc, i + 1, t);
      }
    }
  }

  /** Putting the current task back never lengthens the wait of another. */
  lemma RequeueWork(k: K, loc: Locs, t: Tid)
    requires Placed(k, loc) && SortedReady(k) && t in k.ready && t != k.cur
    requires k.cur in k.ready ==> k.tcb[t].priority <= k.tcb[k.cur].priority
    ensures t in Requeue(k).ready && KWork(Requeue(k), t) <= KWork(k, t)
    ensures Requeues(k) && k.ready[0] == k.cur ==> KWork(Requeue(k), t) == KWork(k, t) - k.tcb[k.cur].slice
  {
    assert TaskAgrees(k, loc, k.cur);
    WorkRemove(k.tcb, k.ready, k.cur, t);
    if Requeues(k) {
      PutBackWork(k, t);
    }
  }

  lemma PutBackWork(k: K, t: Tid)
    requires SortedReady(k) && NoDup(k.ready) && t in k.ready && t != k.cur && Requeues(k)
    requires k.tcb[t].priority <= k.tcb[k.cur].priority
    ensures t in Requeue(k).ready && KWork(Requeue(k), t) == Work(k.tcb, Remove(k.ready, k.cur), t)
  {
    var c, q := k.cur, Remove(k.ready, k.cur);
    var tcb := k.tcb[c := k.tcb[c].(slice := TIME_SLICE, status := Ready)];
    RemoveSorted(k.tcb, k.ready, c);
    RemoveMembers(k.ready, c);
    SortedSame(k.tcb, tcb, q);
    WorkEnqueue(tcb, q, c, t);
    WorkFrame(k.tcb, tcb, q, t);
  }

  lemma SelectWork(k: K, t: Tid)
    ensures KWork(Select(k), t) == KWork(k, t) && Select(k).ready == k.ready
    ensures forall x: Tid :: Select(k).tcb[x].priority == k.tcb[x].priority
  {
    WorkFrame(k.tcb, Select(k).tcb, k.ready, t);
  }

  lemma InRequeued(k: K, loc: Locs, x: Tid)
    requires Placed(k, loc)
    ensures x in Requeue(k).ready <==> x in k.ready
  {
    RequeuePlaced(k, loc);
  }

  /** A switch after which nobody more urgent than `t` is ready. If it puts the current task back,
      what is left of that task's slice is taken off the wait. */
  lemma SwitchWork(k: K, loc: Locs, t: Tid)
    requires Placed(k, loc) && SortedReady(k) && t in k.ready && t != k.cur
    requires forall x | x in NextTcb(k).ready :: k.tcb[t].priority <= k.tcb[x].priority
    ensures KWork(NextTcb(k), t) <= KWork(k, t)
    ensures Requeues(k) && k.ready[0] == k.cur ==> KWork(NextTcb(k), t) <= KWork(k, t) - k.tcb[k.cur].slice
  {
    var k1 := WakeSleepers(k, 0);
    WakeSleepersPlaced(k, loc, 0);
    WakeSleepersFrame(k, 0);
    var k2 := Requeue(k1);
    SelectWork(k2, t);
    forall x | x in k1.ready ensures k.tcb[t].priority <= k.tcb[x].priority {
      InRequeued(k1, Woken(k, loc), x);
    }
    WakeWork(k, loc, 0, t);
    if Requeues(k) {
      StillRequeues(k, loc);
    }
    RequeueWork(k1, Woken(k, loc), t);
  }

  lemma StillRequeues(k: K, loc: Locs)
    requires Placed(k, loc) && Requeues(k)
    ensures Requeues(WakeSleepers(k, 0))
  {
    WakeSleepersFrame(k, 0);
    assert TaskAgrees(k, loc, k.cur);
  }

  // ---- Steps -------------------------------------------------------------------------------

  /** No ready task of `k'` is more urgent than `t` is in `k`. */
  ghost predicate NoneMoreUrgent(k: K, k': K, t: Tid) {
    forall x | x in k'.ready :: k.tcb[t].priority <= k'.tcb[x].priority
  }

  /** Same slices and priorities, except for tasks that are not ready in `k`. */
  ghost predicate SameReadyTasks(k: K, k1: K) {
    && k1.cur == k.cur
    && forall x | x in k.ready :: k1.tcb[x].slice == k.tcb[x].slice && k1.tcb[x].priority == k.tcb[x].priority
  }

  lemma NextTcbKeepsPriorities(k: K)
    ensures forall x: Tid :: NextTcb(k).tcb[x].priority == k.tcb[x].priority
  {
    Inherit.NextTcbPriorities(k);
  }

  lemma StaysReady(k: K, loc: Locs, x: Tid)
    requires Placed(k, loc) && k.started && loc[x] == InReady
    ensures x in NextTcb(k).ready
  {
    NextTcbPlaced(k, loc, x);
  }

  /** What the current task may use up before the front of the ready list gets its turn: nothing if it
      is the front itself; otherwise (`create_raw` or an interrupt made a more urgent task ready) its slice. */
  function Pending(k: K): nat {
    if k.ready != [] && k.cur == k.ready[0] then 0 else k.tcb[k.cur].slice
  }

  function Ahead(k: K, t: Tid): nat {
    KWork(k, t) + Pending(k)
  }

  /** The step leaves `t` ready, with at least `less` less ahead of it. */
  ghost predicate NotLater(k: K, k': K, t: Tid, less: int) {
    Ahead(k', t) <= Ahead(k, t) - less && t in k'.ready
  }

  lemma SwitchStep(k: K, k1: K, loc1: Locs, t: Tid)
    requires Placed(k1, loc1) && k1.started && SortedReady(k1) && t in k1.ready && t != k1.cur
    requires k1.tcb[t].priority == k.tcb[t].priority && NoneMoreUrgent(k, NextTcb(k1), t)
    ensures Ahead(NextTcb(k1), t) <= KWork(k1, t) && t in NextTcb(k1).ready
    ensures KWork(k1, t) <= KWork(k, t) ==> NotLater(k, NextTcb(k1), t, 0)
  {
    NextTcbKeepsPriorities(k1);
    SwitchWork(k1, loc1, t);
    StaysReady(k1, loc1, t);
    NextTcbFront(k1);
  }

  lemma RemoveThenSwitch(k: K, k1: K, loc1: Locs, u: Tid, t: Tid)
    requires SortedReady(k) && t in k.ready && t != u && t != k.cur
    requires Placed(k1, loc1) && k1.started && k1.ready == Remove(k.ready, u) && SameReadyTasks(k, k1)
    requires NoneMoreUrgent(k, NextTcb(k1), t)
    ensures NotLater(k, NextTcb(k1), t, 0)
  {
    WorkRemove(k.tcb, k.ready, u, t);
    RemoveSorted(k.tcb, k.ready, u);
    StillIn(k.ready, u);
    WorkFrame(k.tcb, k1.tcb, k1.ready, t);
    assert SortedReady(k1) by {
      assert forall i | 0 <= i < |k1.ready| :: k1.ready[i] in k1.ready && k1.ready[i] in k.ready;
    }
    SwitchStep(k, k1, loc1, t);
  }

  /** A task that was not ready is inserted by priority. */
  lemma AddReady(k: K, k1: K, u: Tid, t: Tid)
    requires SortedReady(k) && t in k.ready && u !in k.ready && SameReadyTasks(k, k1)
    requires k1.ready == Enqueue(k1.tcb, k.ready, u) && k.tcb[t].priority <= k1.tcb[u].priority
    ensures KWork(k1, t) == KWork(k, t) && SortedReady(k1) && t in k1.ready && k1.ready[0] == k.ready[0]
    ensures k.cur in k.ready ==> Ahead(k1, t) == Ahead(k, t)
  {
    assert Sorted(k1.tcb, k.ready) by {
      assert forall i | 0 <= i < |k.ready| :: k.ready[i] in k.ready;
    }
    WorkFrame(k.tcb, k1.tcb, k.ready, t);
    WorkEnqueue(k1.tcb, k.ready, u, t);
    if |k.ready| < TASK_MAX {
      EnqueueSorted(k1.tcb, k.ready, u);
    }
  }

  lemma AddThenSwitch(k: K, k1: K, loc1: Locs, u: Tid, t: Tid)
    requires SortedReady(k) && t in k.ready && u !in k.ready && t != k.cur && SameReadyTasks(k, k1)
    requires Placed(k1, loc1) && k1.started && loc1[u] == InReady
    requires k1.ready == Enqueue(k1.tcb, k.ready, u) && NoneMoreUrgent(k, NextTcb(k1), t)
    ensures NotLater(k, NextTcb(k1), t, 0)
  {
    NextTcbKeepsPriorities(k1);
    StaysReady(k1, loc1, u);
    AddReady(k, k1, u, t);
    SwitchStep(k, k1, loc1, t);
  }

  /** The operations of a run without mutexes. */
  predicate NoMutex(op: Op) {
    !op.LockOp? && !op.UnlockOp? && !op.WaitOp? && !op.WaitLockOp?
  }

  /** The system is in order and `t` is ready but not current. */
  ghost predicate Queued(w: World, loc: Locs, t: Tid) {
    && Inv(w, loc) && w.k.started && SortedReady(w.k)
    && t in w.k.ready && t != w.k.cur && w.k.cur in w.k.ready
  }

  lemma CreateWork(w: World, loc: Locs, op: Op, t: Tid)
    requires Queued(w, loc, t) && Enabled(w, op) && (op.CreateOp? || op.CreateRawOp?)
    requires NoneMoreUrgent(w.k, Next(w, op).k, t)
    ensures NotLater(w.k, Next(w, op).k, t, 0)
  {
    var k := w.k;
    var (k1, r) := CreateRaw(k, op.priority);
    var loc1 := CreateRawPlaced(k, loc, op.priority);
    if r.Some? {
      CreatedSame(k, loc, op.priority);
      CreatedWork(w, loc, k1, loc1, r.value, Next(w, op).k, t);
    }
  }

  lemma CreatedSame(k: K, loc: Locs, p: nat)
    requires Placed(k, loc)
    ensures var (k1, r) := CreateRaw(k, p);
            r.Some? ==> SameReadyTasks(k, k1) && k1.started == k.started && r.value !in k.ready
                        && k1.ready == Enqueue(k1.tcb, k.ready, r.value)
  {
    Inherit.CreateRawTcb(k, p);
    var r := CreateRaw(k, p).1;
    if r.Some? {
      assert TaskAgrees(k, loc, r.value);
    }
  }

  /** A new ready task `u`, with or without a switch. */
  lemma CreatedWork(w: World, loc: Locs, k1: K, loc1: Locs, u: Tid, k': K, t: Tid)
    requires Queued(w, loc, t) && u !in w.k.ready && SameReadyTasks(w.k, k1) && k1.started
    requires Placed(k1, loc1) && loc1[u] == InReady && k1.ready == Enqueue(k1.tcb, w.k.ready, u)
    requires (k' == k1 || k' == NextTcb(k1)) && NoneMoreUrgent(w.k, k', t)
    ensures NotLater(w.k, k', t, 0)
  {
    if k' == NextTcb(k1) {
      AddThenSwitch(w.k, k1, loc1, u, t);
    } else {
      assert u in k1.ready;
      AddReady(w.k, k1, u, t);
    }
  }

  lemma BlockWork(w: World, loc: Locs, u: Tid, t: Tid)
    requires Queued(w, loc, t) && u != t && NoneMoreUrgent(w.k, Block(w.k, u), t)
    ensures NotLater(w.k, Block(w.k, u), t, 0)
  {
    assert TaskAgrees(w.k, loc, u);
    if loc[u] == InReady {
      SuspendPlaced(w.k, loc, u);
      RemoveThenSwitch(w.k, Suspend(w.k, u), loc[u := InBlocked], u, t);
    }
  }

  lemma DiscardWork(w: World, loc: Locs, u: Tid, t: Tid)
    requires Queued(w, loc, t) && u != t && loc[u] != Dead && !loc[u].Waiting()
    requires NoneMoreUrgent(w.k, NextTcb(Discard(w.k, u)), t)
    ensures NotLater(w.k, NextTcb(Discard(w.k, u)), t, 0)
  {
    DiscardPlaced(w.k, loc, u);
    RemoveThenSwitch(w.k, Discard(w.k, u), loc[u := Dead], u, t);
  }

  lemma LeaveWork(w: World, loc: Locs, op: Op, t: Tid)
    requires Queued(w, loc, t) && Enabled(w, op)
    requires op.ExitOp? || (op.TerminateOp? && op.t != t) || (op.BlockOp? && op.t != t)
    requires NoneMoreUrgent(w.k, Next(w, op).k, t)
    ensures NotLater(w.k, Next(w, op).k, t, 0)
  {
    if op.BlockOp? {
      BlockWork(w, loc, op.t, t);
    } else if op.ExitOp? {
      ExitDiscards(w.k, loc);
      DiscardWork(w, loc, w.k.cur, t);
    } else if w.k.tcb[op.t].status != Terminated {
      UninvolvedAt(w, loc, op.t);
      assert TaskAgrees(w.k, loc, op.t);
      DiscardWork(w, loc, op.t, t);
    }
  }

  lemma ExitDiscards(k: K, loc: Locs)
    requires Placed(k, loc) && loc[k.cur] == InReady
    ensures ExitCurrent(k) == NextTcb(Discard(k, k.cur))
  {
    RemoveAbsent(k.sleeping, k.cur);
    RemoveAbsent(k.blocked, k.cur);
  }

  lemma AsleepWork(w: World, k': K, loc: Locs, wake: nat, t: Tid)
    requires k' == NextTcb(FallAsleep(w.k, wake))
    requires Queued(w, loc, t) && NoneMoreUrgent(w.k, k', t)
    ensures NotLater(w.k, k', t, 0)
  {
    FallAsleepPlaced(w.k, loc, wake);
    RemoveThenSwitch(w.k, FallAsleep(w.k, wake), loc[w.k.cur := InSleep], w.k.cur, t);
  }

  lemma Sleeps(k: K, n: nat) returns (wake: nat)
    requires n > 0
    ensures Delay(k, n) == NextTcb(FallAsleep(k, wake))
  {
    wake := WrapU32(k.ticks + n);
  }

  lemma ResumeWork(w: World, loc: Locs, u: Tid, t: Tid)
    requires Queued(w, loc, t) && NoneMoreUrgent(w.k, Resume(w.k, u), t)
    ensures NotLater(w.k, Resume(w.k, u), t, 0)
  {
    var k := w.k;
    if u in k.blocked && k.tcb[u].status == Blocked {
      var k1 := Unblock(k, u);
      UnblockPlaced(k, loc, u);
      if Resume(k, u) == NextTcb(k1) {
        AddThenSwitch(k, k1, loc[u := InReady], u, t);
      } else {
        assert u in k1.ready;
        AddReady(k, k1, u, t);
      }
    }
  }

  /** The current task is blocked and another selected. */
  lemma BlockedWork(w: World, loc: Locs, k1: K, l: Loc, t: Tid)
    requires Queued(w, loc, t) && l.Waiting() && k1 == BlockCurrent(w.k)
    requires NoneMoreUrgent(w.k, NextTcb(k1), t)
    ensures NotLater(w.k, NextTcb(k1), t, 0)
  {
    BlockCurrentPlaced(w.k, loc, l);
    RemoveThenSwitch(w.k, k1, loc[w.k.cur := l], w.k.cur, t);
  }

  lemma DownWork(w: World, loc: Locs, s: SemaS, t: Tid)
    requires Queued(w, loc, t) && NoneMoreUrgent(w.k, Down(w.k, s).0, t)
    ensures NotLater(w.k, Down(w.k, s).0, t, 0)
  {
    if WrapI32(s.count - 1) < 0 {
      BlockedWork(w, loc, BlockCurrent(w.k), WaitSema(0), t);
    }
  }

  /** A waiter becomes ready, with or without a switch. */
  lemma WakeOneWork(w: World, loc: Locs, u: Tid, k': K, t: Tid)
    requires Queued(w, loc, t) && loc[u].Waiting() && NoneMoreUrgent(w.k, k', t)
    requires k' == MakeReady(w.k, u) || k' == NextTcb(MakeReady(w.k, u))
    ensures NotLater(w.k, k', t, 0)
  {
    var k1 := MakeReady(w.k, u);
    MakeReadyPlaced(w.k, loc, u);
    if k' == NextTcb(k1) {
      AddThenSwitch(w.k, k1, loc[u := InReady], u, t);
    } else {
      assert u in k1.ready;
      AddReady(w.k, k1, u, t);
    }
  }

  lemma WakeOpsWork(w: World, loc: Locs, op: Op, t: Tid)
    requires Queued(w, loc, t) && Enabled(w, op) && (op.UpOp? || op.IsrUpOp? || op.NotifyOp?)
    requires NoneMoreUrgent(w.k, Next(w, op).k, t)
    ensures NotLater(w.k, Next(w, op).k, t, 0)
  {
    var l := if op.NotifyOp? then WaitCv(op.c) else WaitSema(op.s);
    var q := Queue(w, l);
    assert Holds(q, l, loc);
    if Next(w, op).k != w.k {
      assert q[0] in q;
      WakeOneWork(w, loc, q[0], Next(w, op).k, t);
    }
  }

  lemma {:induction false} MakeAllReadyWork(k: K, q: seq<Tid>, loc: Locs, l: Loc, t: Tid)
    requires Placed(k, loc) && Holds(q, l, loc) && l.Waiting() && SortedReady(k) && t in k.ready
    requires NoneMoreUrgent(k, MakeAllReady(k, q), t)
    ensures var k' := MakeAllReady(k, q);
            && KWork(k', t) == KWork(k, t) && SortedReady(k') && t in k'.ready
            && k'.tcb[t].priority == k.tcb[t].priority
    decreases |q|
  {
    if q == [] {
    } else {
      var u, k1, loc1 := q[0], MakeReady(k, q[0]), loc[q[0] := InReady];
      assert u in q && u !in k.ready;
      MakeReadyPlaced(k, loc, u);
      PopHolds(q, l, loc, InReady);
      var loc' := MakeAllReadyPlaced(k1, q[1..], loc1, l);
      Inherit.MakeAllReadyPriorities(k1, q[1..]);
      assert u in MakeAllReady(k, q).ready;
      MakeReadyWork(k, u, t);
      MakeAllReadyWork(k1, q[1..], loc1, l, t);
    }
  }

  lemma NotifyAllWork(w: World, loc: Locs, c: nat, t: Tid)
    requires Queued(w, loc, t) && c < |w.cvs| && NoneMoreUrgent(w.k, NotifyAll(w.k, w.cvs[c]), t)
    ensures NotLater(w.k, NotifyAll(w.k, w.cvs[c]), t, 0)
  {
    var q, l := w.cvs[c], WaitCv(c);
    if q != [] {
      assert Holds(Queue(w, l), l, loc);
      var k1 := MakeAllReady(w.k, q);
      var loc1 := MakeAllReadyPlaced(w.k, q, loc, l);
      NextTcbKeepsPriorities(k1);
      forall x | x in k1.ready ensures w.k.tcb[t].priority <= k1.tcb[x].priority {
        StaysReady(k1, loc1, x);
      }
      MakeAllReadyWork(w.k, q, loc, l, t);
      SwitchStep(w.k, k1, loc1, t);
    }
  }

  /** The ticks of an interrupt that count against the current task's slice. */
  function Used(k: K, op: Op): nat {
    if !op.SystickOp? then 0 else if op.missed + 1 < k.tcb[k.cur].slice then op.missed + 1 else k.tcb[k.cur].slice
  }

  lemma {:induction false} WorkMonotone(tcb: Tcbs, tcb': Tcbs, q: seq<Tid>, t: Tid)
    requires forall x: Tid :: tcb'[x].slice <= tcb[x].slice
    ensures Work(tcb', q, t) <= Work(tcb, q, t)
  {
    if q == [] || q[0] == t {
    } else {
      WorkMonotone(tcb, tcb', q[1..], t);
    }
  }

  /** Ticks use up the slice of the current task, whether it is the front or in the way of it. */
  lemma TicksWork(k: K, k1: K, t: Tid, used: nat)
    requires NoDup(k.ready) && t in k.ready && t != k.cur && k1.ready == k.ready && k1.cur == k.cur
    requires k1.tcb[k.cur].slice + used == k.tcb[k.cur].slice
    requires forall u: Tid | u != k.cur :: k1.tcb[u] == k.tcb[u]
    ensures Ahead(k1, t) + used <= Ahead(k, t) && KWork(k1, t) + used <= Ahead(k, t)
  {
    if k.cur == k.ready[0] {
      assert k.cur !in k.ready[1..];
      WorkFrame(k.tcb, k1.tcb, k.ready[1..], t);
    } else {
      WorkMonotone(k.tcb, k1.tcb, k.ready, t);
    }
  }

  lemma TrapSwitch(k: K, loc: Locs, k1: K, t: Tid, used: nat)
    requires Placed(k, loc) && k.started && SortedReady(k) && t in k.ready && t != k.cur
    requires Placed(k1, loc) && k1.started && k1.cur == k.cur && k1.ready == k.ready
    requires forall x: Tid :: k1.tcb[x].priority == k.tcb[x].priority
    requires KWork(k1, t) + used <= Ahead(k, t) && NoneMoreUrgent(k, NextTcb(k1), t)
    ensures NotLater(k, NextTcb(k1), t, used)
  {
    SortedSame(k.tcb, k1.tcb, k.ready);
    SwitchStep(k1, k1, loc, t);
  }

  /** Every systick interrupt brings a waiting task nearer, by the ticks the current task could use. */
  lemma TrapWork(w: World, loc: Locs, op: Op, t: Tid)
    requires Queued(w, loc, t) && op.SystickOp?
    requires NoneMoreUrgent(w.k, SystickTrap(w.k, op.missed, op.deferred), t)
    ensures NotLater(w.k, SystickTrap(w.k, op.missed, op.deferred), t, Used(w.k, op))
  {
    var (k1, r) := Ticks(w.k, op.missed + 1);
    TicksSlice(w.k, op.missed + 1);
    TicksFrame(w.k, op.missed + 1);
    TicksPlaced(w.k, loc, op.missed + 1);
    TicksWork(w.k, k1, t, Used(w.k, op));
    if r || op.deferred {
      TrapSwitch(w.k, loc, k1, t, Used(w.k, op));
    }
  }

  lemma StepWork(w: World, loc: Locs, op: Op, t: Tid)
    requires Queued(w, loc, t) && Enabled(w, op) && NoMutex(op)
    requires NoneMoreUrgent(w.k, Next(w, op).k, t) && t in Next(w, op).k.ready
    ensures NotLater(w.k, Next(w, op).k, t, Used(w.k, op))
  {
    var loc' := StepInv(w, loc, op);
    assert TaskAgrees(Next(w, op).k, loc', t);
    if op.CreateOp? || op.CreateRawOp? {
      CreateWork(w, loc, op, t);
    } else if op.ExitOp? || op.TerminateOp? || op.BlockOp? {
      StillThere(w, loc, op, t);
      LeaveWork(w, loc, op, t);
    } else if op.DelayOp? {
      if op.ticks > 0 {
        var wake := Sleeps(w.k, op.ticks);
        AsleepWork(w, Next(w, op).k, loc, wake, t);
      }
    } else if op.ResumeOp? {
      ResumeWork(w, loc, op.t, t);
    } else if op.DownOp? {
      DownWork(w, loc, w.semas[op.s], t);
    } else if op.UpOp? || op.IsrUpOp? || op.NotifyOp? {
      WakeOpsWork(w, loc, op, t);
    } else if op.NotifyAllOp? {
      NotifyAllWork(w, loc, op.c, t);
    } else if op.SystickOp? {
      TrapWork(w, loc, op, t);
    } else if op.YieldOp? || op.SwitchOp? || op.WaitYieldOp? {
      SwitchStep(w.k, w.k, loc, t);
    }
  }

  /** The step did not take `t` itself off the ready list. */
  lemma StillThere(w: World, loc: Locs, op: Op, t: Tid)
    requires Queued(w, loc, t) && Enabled(w, op) && t in Next(w, op).k.ready
    requires op.ExitOp? || op.TerminateOp? || op.BlockOp?
    ensures op != TerminateOp(t) && op != BlockOp(t)
  {
    assert TaskAgrees(w.k, loc, t);
    if op == TerminateOp(t) {
      UninvolvedAt(w, loc, t);
      var loc' := TerminateSettles(w.k, loc, w.idle, t);
    } else if op == BlockOp(t) {
      var loc' := BlockSettles(w.k, loc, w.idle, t);
    }
  }

  // ---- Runs --------------------------------------------------------------------------------

  lemma PriorityStays(w: World, loc: Locs, op: Op, t: Tid)
    requires Inv(w, loc) && Enabled(w, op) && NoMutex(op) && Live(w, t)
    ensures Next(w, op).k.tcb[t].priority == w.k.tcb[t].priority
  {
    if op.CreateOp? || op.CreateRawOp? || op.LaunchOp? {
      var p := if op.LaunchOp? then PRI_MIN else op.priority;
      Inherit.OpAdds(w, op);
      var loc1 := CreateRawPlaced(w.k, loc, p);
      assert TaskAgrees(w.k, loc, t);
    } else {
      Inherit.OtherOps(w, op);
    }
  }

  /** A run without mutexes throughout which `t` is ready but not current and nobody more urgent
      than `t` is ready. */
  ghost predicate WaitsThrough(w: World, ops: seq<Op>, w': World, t: Tid)
    decreases |ops|
  {
    && Foremost(w.k, t) && t != w.k.cur
    && if ops == [] then w' == w
       else Enabled(w, ops[0]) && NoMutex(ops[0]) && WaitsThrough(Next(w, ops[0]), ops[1..], w', t)
  }

  function Systicks(ops: seq<Op>): nat {
    if ops == [] then 0 else (if ops[0].SystickOp? then 1 else 0) + Systicks(ops[1..])
  }

  /** The ticks of the run that count against the slice of whoever is current. */
  ghost function TicksUsed(w: World, ops: seq<Op>): nat
    decreases |ops|
  {
    if ops == [] || !Enabled(w, ops[0]) then 0 else Used(w.k, ops[0]) + TicksUsed(Next(w, ops[0]), ops[1..])
  }

  lemma StepQueued(w: World, loc: Locs, op: Op, t: Tid) returns (loc': Locs)
    requires Queued(w, loc, t) && SlicesOk(w.k) && Enabled(w, op) && NoMutex(op)
    requires Foremost(Next(w, op).k, t) && t != Next(w, op).k.cur
    ensures Queued(Next(w, op), loc', t) && SlicesOk(Next(w, op).k)
    ensures Ahead(Next(w, op).k, t) + Used(w.k, op) <= Ahead(w.k, t)
  {
    loc' := StepInv(w, loc, op);
    assert TaskAgrees(w.k, loc, t);
    PriorityStays(w, loc, op, t);
    StepWork(w, loc, op, t);
    StepSlices(w, loc, op);
    StepSorted(w, loc, op);
  }

  lemma {:induction false} RunQueued(w: World, loc: Locs, ops: seq<Op>, w': World, t: Tid)
    requires Queued(w, loc, t) && SlicesOk(w.k) && WaitsThrough(w, ops, w', t)
    ensures TicksUsed(w, ops) + Ahead(w'.k, t) <= Ahead(w.k, t)
    ensures Systicks(ops) <= TicksUsed(w, ops)
    decreases |ops|
  {
    if ops == [] {
    } else {
      var loc1 := StepQueued(w, loc, ops[0], t);
      RunQueued(Next(w, ops[0]), loc1, ops[1..], w', t);
    }
  }

  lemma AheadBound(k: K, t: Tid, n: nat)
    requires SlicesOk(k) && n < |k.ready| && k.ready[n] == t
    ensures Ahead(k, t) <= (if k.cur == k.ready[0] then n else n + 1) * TIME_SLICE
  {
    WorkBound(k.tcb, k.ready, t, n);
  }

  /** Bounded waiting. A ready task with `n` tasks before it, none more urgent than itself, becomes
      current after at most `n` time slices if the current task is the front of the ready list, as every
      switch leaves it, and after at most one slice more if it is not, whatever else happens, as long as
      nobody more urgent becomes ready: a run through which it keeps waiting has used no more ticks than
      that, each systick interrupt at least one of them, and all those it replays as far as the slice goes. */
  lemma BoundedWaiting(w0: World, before: seq<Op>, w: World, ops: seq<Op>, w': World, t: Tid, n: nat)
    requires Initial(w0) && Reaches(w0, before, w) && w.k.started
    requires SortedReady(w.k) && n < |w.k.ready| && w.k.ready[n] == t
    requires WaitsThrough(w, ops, w', t)
    ensures Systicks(ops) <= TicksUsed(w, ops) <= (n + 1) * TIME_SLICE
    ensures w.k.ready[0] == w.k.cur ==> TicksUsed(w, ops) <= n * TIME_SLICE
  {
    InitialInv(w0);
    var loc := RunSlices(w0, seq(TASK_MAX, _ => Dead), before, w);
    RunQueued(w, loc, ops, w', t);
    AheadBound(w.k, t, n);
  }

  /** The same from boot: if no task has unlocked a mutex before, the ready list is in order. */
  lemma BoundedWaitingWithoutUnlock(w0: World, before: seq<Op>, w: World, ops: seq<Op>, w': World, t: Tid, n: nat)
    requires Initial(w0) && Reaches(w0, before, w) && w.k.started
    requires forall op | op in before :: !op.UnlockOp?
    requires n < |w.k.ready| && w.k.ready[n] == t && WaitsThrough(w, ops, w', t)
    ensures Systicks(ops) <= TicksUsed(w, ops) <= (n + 1) * TIME_SLICE
    ensures w.k.ready[0] == w.k.cur ==> TicksUsed(w, ops) <= n * TIME_SLICE
  {
    InitialInv(w0);
    var loc := RunSorted(w0, seq(TASK_MAX, _ => Dead), before, w);
    BoundedWaiting(w0, before, w, ops, w', t, n);
  }
}
