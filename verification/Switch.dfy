/** When a step takes the processor from the current task, in terms of the state before it; and that it
    then goes to the front of the ready list. */
module Switch {
  import opened Config
  import opened Lists
  import opened KernelSpec
  import opened SyncSpec
  import opened Place
  import opened Ordered
  import opened World
  import SyncPlace
  import opened Safety
  import opened Inherit
  import opened Order
  import opened Sleep
  import opened Slices
  import opened Moves

  /** A switch with the tasks `leaves` gone from the ready list and the tasks `comes` added to it passes
      the current task over: if it is put back behind its equals, for any other task at least as urgent;
      if it keeps its place, for a task that stands before it or comes in before it. */
  ghost predicate GivesWay(k: K, leaves: set<Tid>, comes: set<Tid>) {
    var p := k.tcb[k.cur].priority;
    if Requeues(k) then
      exists x: Tid | x != k.cur && k.tcb[x].priority <= p :: x in comes || (x in k.ready && x !in leaves)
    else
      || (exists x: Tid | x !in leaves :: Before(k.ready, x, k.cur))
      || (exists x: Tid | x in comes :: k.tcb[x].priority < p)
  }

  // ---- A switch ----------------------------------------------------------------------------

  /** The current task is ready and the ready list in order. */
  ghost predicate InLine(k: K) {
    && k.cur in k.ready && NoDup(k.ready) && SortedReady(k)
    && (k.tcb[k.cur].status == Ready || k.tcb[k.cur].status == Running)
  }

  lemma FrontOrBehind(q: seq<Tid>, t: Tid)
    requires t in q && NoDup(q)
    ensures q[0] != t <==> exists x: Tid :: Before(q, x, t)
  {
    var j :| 0 <= j < |q| && q[j] == t;
    if j > 0 {
      BeforeAt(q, 0, j);
    }
  }

  lemma EnqueueFront(tcb: Tcbs, q: seq<Tid>, t: Tid)
    requires Sorted(tcb, q) && |q| < TASK_MAX && t !in q
    ensures Enqueue(tcb, q, t) != []
    ensures Enqueue(tcb, q, t)[0] != t <==> exists x: Tid | x in q :: tcb[x].priority <= tcb[t].priority
  {
    EnqueueKeepsTurn(tcb, q, t);
    if q != [] && tcb[q[0]].priority <= tcb[t].priority {
      assert q[0] in q;
    }
  }

  lemma RequeueFront(k: K)
    requires InLine(k) && Requeues(k)
    ensures Requeue(k).ready != []
    ensures Requeue(k).ready[0] != k.cur <==>
              exists x: Tid | x in Remove(k.ready, k.cur) :: k.tcb[x].priority <= k.tcb[k.cur].priority
  {
    var q, tcb := Remove(k.ready, k.cur), Requeue(k).tcb;
    RemoveMembers(k.ready, k.cur);
    RemoveSorted(k.tcb, k.ready, k.cur);
    SortedSame(k.tcb, tcb, q);
    Pigeonhole(k.ready, TASK_MAX);
    EnqueueFront(tcb, q, k.cur);
  }

  lemma QuietSwitchIff(k: K)
    requires InLine(k) && NoneDue(k)
    ensures NextTcb(k).cur != k.cur <==> GivesWay(k, {}, {})
  {
    NoneWoken(k, 0);
    if Requeues(k) {
      RequeueFront(k);
      RemoveMembers(k.ready, k.cur);
    } else {
      FrontOrBehind(k.ready, k.cur);
    }
  }

  // ---- Tasks that come and leave before it -------------------------------------------------

  /** Nothing that `GivesWay` looks at differs but the ready list. */
  ghost predicate SameCurrent(k: K, k1: K) {
    && k1.cur == k.cur && (Requeues(k1) <==> Requeues(k))
    && forall t: Tid :: k1.tcb[t].priority == k.tcb[t].priority
  }

  lemma WasBefore(q: seq<Tid>, p: nat, t: Tid, x: Tid, c: Tid)
    requires p <= |q| && x != t && c != t && Before(q[..p] + [t] + q[p..], x, c)
    ensures Before(q, x, c)
  {
    var r := q[..p] + [t] + q[p..];
    var j, m :| 0 <= j < m < |r| && r[j] == x && r[m] == c;
    BeforeAt(q, if j < p then j else j - 1, if m < p then m else m - 1);
  }

  lemma EnqueuedBefore(tcb: Tcbs, q: seq<Tid>, t: Tid, c: Tid, x: Tid)
    requires Sorted(tcb, q) && NoDup(q) && c in q && t !in q
    ensures Before(Enqueue(tcb, q, t), x, c) <==>
              if x == t then tcb[t].priority < tcb[c].priority else Before(q, x, c)
  {
    Room(q, t);
    EnqueueKeepsTurn(tcb, q, t);
    InsertMembers(q, t, ByPriority(tcb, t));
    var p, r := Pos(q, ByPriority(tcb, t)), Enqueue(tcb, q, t);
    var n :| 0 <= n < |q| && q[n] == c;
    assert r[if n < p then n else n + 1] == c && r[p] == t;
    if x == t {
      if tcb[t].priority < tcb[c].priority {
        BeforeAt(r, p, n + 1);
      }
    } else {
      if Before(q, x, c) {
        InsertKeepsBefore(q, t, ByPriority(tcb, t), x, c);
      }
      if Before(r, x, c) {
        WasBefore(q, p, t, x, c);
      }
    }
  }

  lemma ArrivalIff(k: K, k1: K, t: Tid, comes: set<Tid>)
    requires InLine(k) && t !in k.ready && SameCurrent(k, k1)
    requires k1.ready == Enqueue(k1.tcb, k.ready, t)
    ensures GivesWay(k1, {}, comes) <==> GivesWay(k, {}, comes + {t})
  {
    SortedSame(k.tcb, k1.tcb, k.ready);
    InsertMembers(k.ready, t, ByPriority(k1.tcb, t));
    forall x: Tid
      ensures Before(k1.ready, x, k.cur) <==>
                if x == t then k.tcb[t].priority < k.tcb[k.cur].priority else Before(k.ready, x, k.cur)
    {
      EnqueuedBefore(k1.tcb, k.ready, t, k.cur, x);
    }
    assert !Before(k.ready, t, k.cur);
  }

  lemma ArrivalInLine(k: K, k1: K, t: Tid)
    requires InLine(k) && t !in k.ready && SameCurrent(k, k1) && k1.tcb[k.cur].status == k.tcb[k.cur].status
    requires k1.ready == Enqueue(k1.tcb, k.ready, t)
    ensures InLine(k1)
  {
    SortedSame(k.tcb, k1.tcb, k.ready);
    Room(k.ready, t);
    EnqueueSorted(k1.tcb, k.ready, t);
    InsertMembers(k.ready, t, ByPriority(k1.tcb, t));
  }

  lemma StoodBefore(q: seq<Tid>, i: nat, x: Tid, c: Tid)
    requires i < |q| && Before(q[..i] + q[i + 1..], x, c)
    ensures Before(q, x, c)
  {
    var r := q[..i] + q[i + 1..];
    var j, m :| 0 <= j < m < |r| && r[j] == x && r[m] == c;
    BeforeAt(q, if j < i then j else j + 1, if m < i then m else m + 1);
  }

  lemma RemovedBefore(q: seq<Tid>, t: Tid, x: Tid, c: Tid)
    requires NoDup(q) && c in q && c != t
    ensures Before(Remove(q, t), x, c) <==> x != t && Before(q, x, c)
  {
    RemoveMembers(q, t);
    if t in q {
      var i :| 0 <= i < |q| && q[i] == t;
      RemoveAt(q, i);
      if Before(Remove(q, t), x, c) {
        StoodBefore(q, i, x, c);
      }
      if x != t && Before(q, x, c) {
        StaysBefore(q, i, x, c);
      }
    } else {
      RemoveAbsent(q, t);
    }
  }

  lemma StaysBefore(q: seq<Tid>, i: nat, x: Tid, c: Tid)
    requires i < |q| && x != q[i] && c != q[i] && Before(q, x, c)
    ensures Before(q[..i] + q[i + 1..], x, c)
  {
    var j, m :| 0 <= j < m < |q| && q[j] == x && q[m] == c;
    BeforeAt(q[..i] + q[i + 1..], if j < i then j else j - 1, if m < i then m else m - 1);
  }

  lemma DepartureIff(k: K, k1: K, t: Tid)
    requires InLine(k) && t != k.cur && SameCurrent(k, k1) && k1.tcb[k.cur].status == k.tcb[k.cur].status
    requires k1.ready == Remove(k.ready, t)
    ensures InLine(k1) && (GivesWay(k1, {}, {}) <==> GivesWay(k, {t}, {}))
  {
    RemoveMembers(k.ready, t);
    RemoveSorted(k.tcb, k.ready, t);
    SortedSame(k.tcb, k1.tcb, k1.ready);
    forall x: Tid ensures Before(k1.ready, x, k.cur) <==> x != t && Before(k.ready, x, k.cur) {
      RemovedBefore(k.ready, t, x, k.cur);
    }
  }

  // ---- Sleepers ----------------------------------------------------------------------------

  function DueSleepers(k: K): set<Tid> {
    set t: Tid | t in k.sleeping && Due(k, t)
  }

  ghost predicate Asleep(k: K) {
    NoDup(k.sleeping) && forall t | t in k.sleeping :: t !in k.ready
  }

  lemma WokenWay(k: K, t: Tid)
    requires InLine(k) && Asleep(k) && t in k.sleeping && Due(k, t)
    ensures var k1 := WakeOne(k, t);
            && InLine(k1) && Asleep(k1)
            && (GivesWay(k1, {}, DueSleepers(k1)) <==> GivesWay(k, {}, DueSleepers(k)))
  {
    var k1 := WakeOne(k, t);
    RemoveMembers(k.sleeping, t);
    InsertMembers(k.ready, t, ByPriority(k1.tcb, t));
    ArrivalInLine(k, k1, t);
    assert DueSleepers(k1) + {t} == DueSleepers(k);
    ArrivalIff(k, k1, t, DueSleepers(k1));
  }

  lemma {:induction false} ScanWay(k: K, i: nat)
    requires InLine(k) && Asleep(k) && i <= |k.sleeping|
    requires forall j | 0 <= j < i :: !Due(k, k.sleeping[j])
    ensures InLine(WakeSleepers(k, i))
    ensures GivesWay(WakeSleepers(k, i), {}, {}) <==> GivesWay(k, {}, DueSleepers(k))
    decreases |k.sleeping| - i
  {
    if i == |k.sleeping| {
      assert DueSleepers(k) == {};
    } else if Due(k, k.sleeping[i]) {
      var t := k.sleeping[i];
      WokenWay(k, t);
      RemoveAt(k.sleeping, i);
      ScanWay(WakeOne(k, t), i);
    } else {
      ScanWay(k, i + 1);
    }
  }

  lemma SwitchIff(k: K)
    requires InLine(k) && Asleep(k)
    ensures NextTcb(k).cur != k.cur <==> GivesWay(k, {}, DueSleepers(k))
  {
    var k1 := WakeSleepers(k, 0);
    ScanWay(k, 0);
    ScanNoneDue(k, 0);
    WakeSleepersFrame(k, 0);
    NoneWoken(k1, 0);
    QuietSwitchIff(k1);
  }

  // ---- Operations that switch for a more urgent task ---------------------------------------

  lemma ArrivalBehind(k: K, t: Tid)
    requires NoDup(k.ready) && t !in k.ready && k.tcb[t].priority < k.tcb[k.cur].priority
    ensures Behind(MakeReady(k, t))
  {
    Room(k.ready, t);
    var q := MakeReady(k, t).ready;
    assert q[0] == t || !ByPriority(MakeReady(k, t).tcb, t)(q[0]);
  }

  lemma ArrivalSwitches(k: K, loc: Locs, t: Tid)
    requires Placed(k, loc) && loc[k.cur] == InReady && loc[t] != InReady
    requires k.tcb[t].priority < k.tcb[k.cur].priority
    ensures NextTcb(MakeReady(k, t)).cur != k.cur
  {
    ArrivalBehind(k, t);
    SwitchFromBehind(MakeReady(k, t));
  }

  /** What the last unlock of the current task asks for: the first waiter, or with no waiter another task
      at the front of the ready list, is more urgent than the current task's own priority. */
  ghost predicate UnlockYields(k: K, m: MutexS) {
    if m.queue != [] then k.tcb[m.queue[0]].priority < Base(k, k.cur)
    else k.ready != [] && k.ready[0] != k.cur && k.tcb[k.ready[0]].priority < Base(k, k.cur)
  }

  lemma ReleaseSwitches(k: K, m: MutexS, loc: Locs, l: Loc)
    requires Placed(k, loc) && loc[k.cur] == InReady && Holds(m.queue, l, loc) && l.Waiting() && m.depth == 1
    ensures Unlock(k, m).0.cur != k.cur <==> UnlockYields(k, m)
  {
    var k1 := Restore(k);
    SyncPlace.RestorePlaced(k, loc);
    if m.queue != [] {
      assert m.queue[0] in m.queue;
      if UnlockYields(k, m) {
        ArrivalSwitches(k1, loc, m.queue[0]);
      }
    } else if UnlockYields(k, m) {
      SwitchFromBehind(k1);
    }
  }

  /** In any state: an unlock takes the processor from the caller exactly if it is the last one and the
      first waiter, or with no waiter the front of the ready list, is more urgent than the caller's own
      priority. */
  lemma UnlockSwitchesIff(w: World, loc: Locs, i: nat)
    requires Inv(w, loc) && Enabled(w, UnlockOp(i))
    ensures Next(w, UnlockOp(i)).k.cur != w.k.cur <==> w.mutexes[i].depth == 1 && UnlockYields(w.k, w.mutexes[i])
  {
    var l, m := WaitMutex(i), w.mutexes[i];
    HolderOwns(w, loc, i, w.k.cur);
    assert MutexOk(w, loc, i) && Holds(Queue(w, l), l, loc);
    if m.depth == 1 {
      ReleaseSwitches(w.k, m, loc, l);
    }
  }

  lemma UpSwitchesIff(w: World, loc: Locs, i: nat)
    requires Inv(w, loc) && Enabled(w, UpOp(i)) && SemasCounted(w)
    ensures Next(w, UpOp(i)).k.cur != w.k.cur <==>
              var q := w.semas[i].queue; q != [] && w.k.tcb[q[0]].priority < w.k.tcb[w.k.cur].priority
  {
    var l, q := WaitSema(i), w.semas[i].queue;
    assert Holds(Queue(w, l), l, loc);
    CountSays(w, loc, i);
    if q != [] {
      assert q[0] in q;
      if w.k.tcb[q[0]].priority < w.k.tcb[w.k.cur].priority {
        ArrivalSwitches(w.k, loc, q[0]);
      }
    }
  }

  lemma ResumeSwitchesIff(w: World, loc: Locs, t: Tid)
    requires Inv(w, loc) && Enabled(w, ResumeOp(t))
    ensures Next(w, ResumeOp(t)).k.cur != w.k.cur <==>
              t in w.k.blocked && w.k.tcb[t].priority < w.k.tcb[w.k.cur].priority
  {
    var k := w.k;
    assert TaskAgrees(k, loc, t);
    if t in k.blocked && k.tcb[t].priority < k.tcb[k.cur].priority {
      var k1 := k.(blocked := Remove(k.blocked, t));
      ArrivalBehind(k1, t);
      SwitchFromBehind(Unblock(k, t));
    }
  }

  lemma CreateSwitchesIff(w: World, loc: Locs, p: nat)
    requires Inv(w, loc) && Enabled(w, CreateOp(p)) && w.k.started
    ensures Next(w, CreateOp(p)).k.cur != w.k.cur <==>
              (exists t: Tid :: t !in w.k.used) && p < w.k.tcb[w.k.cur].priority
  {
    var k := w.k;
    var (k0, r) := AllocTid(k);
    assert r.Some? <==> exists t: Tid :: t !in k.used;
    if r.Some? {
      var t := r.value;
      var k1 := k0.(tcb := k0.tcb[t := k0.tcb[t].(priority := p, slice := TIME_SLICE)]);
      assert TaskAgrees(k, loc, t) && TaskAgrees(k, loc, k.cur);
      if p < k.tcb[k.cur].priority {
        ArrivalBehind(k1, t);
        SwitchFromBehind(MakeReady(k1, t));
      }
    }
  }

  // ---- Operations that always call the scheduler -------------------------------------------

  lemma WorldInLine(w: World, loc: Locs)
    requires Inv(w, loc) && w.k.started && SortedReady(w.k)
    ensures InLine(w.k) && Asleep(w.k)
  {
    assert TaskAgrees(w.k, loc, w.k.cur);
  }

  /** A switch with nobody due to wake. */
  lemma QuietIff(k: K, k1: K)
    requires NoneDue(k) && SleepSame(k, k1) && InLine(k1)
    ensures NextTcb(k1).cur != k1.cur <==> GivesWay(k1, {}, {})
  {
    assert NoneDue(k1);
    QuietSwitchIff(k1);
  }

  lemma NotifySwitchesIff(w: World, loc: Locs, c: nat)
    requires Inv(w, loc) && Enabled(w, NotifyOp(c)) && SortedReady(w.k) && NoneDue(w.k)
    ensures Next(w, NotifyOp(c)).k.cur != w.k.cur <==> w.cvs[c] != [] && GivesWay(w.k, {}, {w.cvs[c][0]})
  {
    var q := w.cvs[c];
    assert Holds(Queue(w, WaitCv(c)), WaitCv(c), loc);
    WorldInLine(w, loc);
    if q != [] {
      assert q[0] in q;
      var k1 := MakeReady(w.k, q[0]);
      ArrivalInLine(w.k, k1, q[0]);
      ArrivalIff(w.k, k1, q[0], {});
      assert {} + {q[0]} == {q[0]};
      QuietIff(w.k, k1);
    }
  }

  lemma {:induction false} AllArrive(k: K, q: seq<Tid>)
    requires InLine(k) && NoDup(q) && forall t | t in q :: t !in k.ready
    ensures var k1 := MakeAllReady(k, q);
            InLine(k1) && (GivesWay(k1, {}, {}) <==> GivesWay(k, {}, set t | t in q))
    decreases |q|
  {
    if q == [] {
    } else {
      var t, k1, rest := q[0], MakeReady(k, q[0]), set x | x in q[1..];
      ArrivalInLine(k, k1, t);
      InsertMembers(k.ready, t, ByPriority(k1.tcb, t));
      forall x | x in q[1..] ensures x !in k1.ready {
        var j :| 0 <= j < |q[1..]| && q[1..][j] == x;
        assert q[j + 1] == x && q[0] != q[j + 1];
      }
      AllArrive(k1, q[1..]);
      ArrivalIff(k, k1, t, rest);
      assert rest + {t} == set x | x in q;
    }
  }

  lemma NotifyAllSwitchesIff(w: World, loc: Locs, c: nat)
    requires Inv(w, loc) && Enabled(w, NotifyAllOp(c)) && SortedReady(w.k) && NoneDue(w.k)
    ensures Next(w, NotifyAllOp(c)).k.cur != w.k.cur <==>
              w.cvs[c] != [] && GivesWay(w.k, {}, set t | t in w.cvs[c])
  {
    var q := w.cvs[c];
    assert Holds(Queue(w, WaitCv(c)), WaitCv(c), loc);
    WorldInLine(w, loc);
    AllArrive(w.k, q);
    MakeAllReadyQuiet(w.k, q);
    MakeAllReadyFrame(w.k, q);
    if q != [] {
      QuietIff(w.k, MakeAllReady(w.k, q));
    }
  }

  lemma DepartureSwitchesIff(k: K, k1: K, t: Tid)
    requires InLine(k) && t != k.cur && SameCurrent(k, k1) && k1.tcb[k.cur].status == k.tcb[k.cur].status
    requires k1.ready == Remove(k.ready, t) && NoneDue(k1)
    ensures NextTcb(k1).cur != k.cur <==> GivesWay(k, {t}, {})
  {
    DepartureIff(k, k1, t);
    QuietSwitchIff(k1);
  }

  /** Another task is blocked or terminated. */
  lemma StopSwitchesIff(w: World, loc: Locs, op: Op)
    requires Inv(w, loc) && Enabled(w, op) && SortedReady(w.k) && NoneDue(w.k)
    requires (op.BlockOp? && op.t in w.k.ready) || (op.TerminateOp? && Live(w, op.t))
    requires op.t != w.k.cur
    ensures Next(w, op).k.cur != w.k.cur <==> GivesWay(w.k, {op.t}, {})
  {
    var k, t := w.k, op.t;
    WorldInLine(w, loc);
    assert TaskAgrees(k, loc, t);
    if op.BlockOp? {
      DepartureSwitchesIff(k, Suspend(k, t), t);
    } else {
      DiscardSleep(k, loc, t);
      DepartureSwitchesIff(k, Discard(k, t), t);
    }
  }

  lemma YieldSwitchesIff(w: World, loc: Locs, op: Op)
    requires Inv(w, loc) && Enabled(w, op) && SortedReady(w.k) && NoneDue(w.k)
    requires op.YieldOp? || op.SwitchOp? || op.WaitYieldOp?
    ensures Next(w, op).k.cur != w.k.cur <==> GivesWay(w.k, {}, {})
  {
    WorldInLine(w, loc);
    QuietSwitchIff(w.k);
  }

  // ---- The systick interrupt ---------------------------------------------------------------

  /** The current task after `n` ticks of its slice. */
  function Ticked(k: K, n: nat): K {
    var me := k.tcb[k.cur];
    k.(tcb := k.tcb[k.cur := me.(slice := if me.slice > n then me.slice - n else 0)])
  }

  ghost predicate SameWay(k: K, k1: K) {
    SameCurrent(k, k1) && k1.ready == k.ready
  }

  lemma SameWayIff(k: K, k1: K, comes: set<Tid>)
    requires SameWay(k, k1)
    ensures GivesWay(k, {}, comes) <==> GivesWay(k1, {}, comes)
  {
  }

  lemma TrapSwitchesIff(w: World, loc: Locs, missed: nat, deferred: bool)
    requires var op := SystickOp(missed, deferred);
             Inv(w, loc) && Enabled(w, op) && NoWrap(w, op) && SortedReady(w.k)
    ensures var k := w.k;
            Next(w, SystickOp(missed, deferred)).k.cur != k.cur <==>
              && (missed + 1 >= k.tcb[k.cur].slice || k.sleeping != [] || deferred)
              && GivesWay(Ticked(k, missed + 1), {},
                          set t: Tid | t in k.sleeping && k.tcb[t].wake <= k.ticks + missed + 1)
  {
    var k, n := w.k, missed + 1;
    var (k1, r) := Ticks(k, n);
    TicksSlice(k, n);
    TicksFrame(k, n);
    TicksCount(k, n);
    WorldInLine(w, loc);
    SortedSame(k.tcb, k1.tcb, k.ready);
    if r || deferred {
      SwitchIff(k1);
      assert DueSleepers(k1) == set t: Tid | t in k.sleeping && k.tcb[t].wake <= k.ticks + n;
      SameWayIff(Ticked(k, n), k1, DueSleepers(k1));
    }
  }

  // ---- Every step --------------------------------------------------------------------------

  /** Step `op` takes the processor from the current task. */
  ghost predicate Switches(w: World, op: Op)
    requires Enabled(w, op) && !op.LaunchOp?
  {
    var k, cur := w.k, w.k.cur;
    match op
    case CreateOp(p) => k.started && (exists t: Tid :: t !in k.used) && p < k.tcb[cur].priority
    case ExitOp => true
    case BlockOp(t) => t == cur || (t in k.ready && GivesWay(k, {t}, {}))
    case TerminateOp(t) => t == cur || (Live(w, t) && GivesWay(k, {t}, {}))
    case ResumeOp(t) => t in k.blocked && k.tcb[t].priority < k.tcb[cur].priority
    case DelayOp(n) => n > 0
    case YieldOp => GivesWay(k, {}, {})
    case SwitchOp => GivesWay(k, {}, {})
    case WaitYieldOp => GivesWay(k, {}, {})
    case SystickOp(missed, deferred) =>
      && (missed + 1 >= k.tcb[cur].slice || k.sleeping != [] || deferred)
      && GivesWay(Ticked(k, missed + 1), {},
                  set t: Tid | t in k.sleeping && k.tcb[t].wake <= k.ticks + missed + 1)
    case DownOp(i) => w.semas[i].count <= 0
    case UpOp(i) => w.semas[i].queue != [] && k.tcb[w.semas[i].queue[0]].priority < k.tcb[cur].priority
    case LockOp(i) => w.mutexes[i].owner !in {None, Some(cur)}
    case WaitLockOp => w.mutexes[w.pc[cur].m].owner !in {None, Some(cur)}
    case UnlockOp(i) => w.mutexes[i].depth == 1 && UnlockYields(k, w.mutexes[i])
    case WaitOp(_, _) => true
    case NotifyOp(c) => w.cvs[c] != [] && GivesWay(k, {}, {w.cvs[c][0]})
    case NotifyAllOp(c) => w.cvs[c] != [] && GivesWay(k, {}, set t | t in w.cvs[c])
    case _ => false
  }

  /** Steps whose switch depends on the order of the ready list. */
  predicate ByOrder(op: Op) {
    op.BlockOp? || op.TerminateOp? || op.YieldOp? || op.SwitchOp? || op.WaitYieldOp? || op.SystickOp?
    || op.NotifyOp? || op.NotifyAllOp?
  }

  lemma CurrentIsReady(w: World, loc: Locs)
    requires Inv(w, loc) && w.k.started
    ensures loc[w.k.cur] == InReady
  {
  }

  lemma Gone(loc: Locs, loc': Locs, moved: Movers, t: Tid, t': Tid)
    requires MovesTo(loc, loc', moved) && t in moved && moved[t] != InReady && loc'[t'] == InReady
    ensures t' != t
  {
  }

  /** The current task leaves the ready list. */
  lemma LeaverSwitches(w: World, loc: Locs, op: Op)
    requires Inv(w, loc) && NoneDue(w.k) && Enabled(w, op) && NoWrap(w, op) && SemasCounted(w) && w.k.started
    requires w.k.cur in MovedBy(w, op) && MovedBy(w, op)[w.k.cur] != InReady
    ensures Next(w, op).k.cur != w.k.cur
  {
    var loc' := StepMoves(w, loc, op);
    var loc2 := StepInv(w, loc, op);
    var w', moved := Next(w, op), MovedBy(w, op);
    CurrentIsReady(w', loc');
    Gone(loc, loc', moved, w.k.cur, w'.k.cur);
  }

  lemma StoppedSwitchesIff(w: World, loc: Locs, op: Op)
    requires Inv(w, loc) && NoneDue(w.k) && SemasCounted(w) && Enabled(w, op) && NoWrap(w, op)
    requires (op.BlockOp? || op.TerminateOp?) && SortedReady(w.k)
    ensures Next(w, op).k.cur != w.k.cur <==> Switches(w, op)
  {
    assert TaskAgrees(w.k, loc, w.k.cur) && TaskAgrees(w.k, loc, op.t);
    if op.t == w.k.cur {
      LeaverSwitches(w, loc, op);
    } else if op.BlockOp? && op.t in w.k.ready {
      StopSwitchesIff(w, loc, op);
    } else if op.TerminateOp? && Live(w, op.t) {
      StopSwitchesIff(w, loc, op);
    }
  }

  lemma OrderedSwitchesIff(w: World, loc: Locs, op: Op)
    requires Inv(w, loc) && NoneDue(w.k) && SemasCounted(w) && Enabled(w, op) && NoWrap(w, op)
    requires ByOrder(op) && SortedReady(w.k)
    ensures Next(w, op).k.cur != w.k.cur <==> Switches(w, op)
  {
    if op.BlockOp? || op.TerminateOp? {
      StoppedSwitchesIff(w, loc, op);
    } else if op.SystickOp? {
      TrapSwitchesIff(w, loc, op.missed, op.deferred);
    } else if op.NotifyOp? {
      NotifySwitchesIff(w, loc, op.c);
    } else if op.NotifyAllOp? {
      NotifyAllSwitchesIff(w, loc, op.c);
    } else {
      YieldSwitchesIff(w, loc, op);
    }
  }

  lemma StepSwitchesIff(w: World, loc: Locs, op: Op)
    requires Inv(w, loc) && NoneDue(w.k) && SemasCounted(w) && Enabled(w, op) && NoWrap(w, op)
    requires !op.LaunchOp? && (ByOrder(op) ==> SortedReady(w.k))
    ensures Next(w, op).k.cur != w.k.cur <==> Switches(w, op)
  {
    if ByOrder(op) {
      OrderedSwitchesIff(w, loc, op);
    } else if op.CreateOp? {
      if w.k.started {
        CreateSwitchesIff(w, loc, op.priority);
      }
    } else if op.ResumeOp? {
      ResumeSwitchesIff(w, loc, op.t);
    } else if op.UpOp? {
      UpSwitchesIff(w, loc, op.s);
    } else if op.UnlockOp? {
      UnlockSwitchesIff(w, loc, op.m);
    } else if Switches(w, op) {
      LeaverSwitches(w, loc, op);
    } else {
      StaysCurrent(w, loc, op);
    }
  }

  lemma StaysCurrent(w: World, loc: Locs, op: Op)
    requires Inv(w, loc) && SemasCounted(w) && Enabled(w, op) && !op.LaunchOp? && !Switches(w, op)
    requires !ByOrder(op) && !op.CreateOp? && !op.ResumeOp? && !op.UpOp? && !op.UnlockOp?
    ensures Next(w, op).k.cur == w.k.cur
  {
  }

  /** The task that gets the processor is the front of the ready list and marked as running. */
  ghost predicate FrontRuns(k: K) {
    k.ready != [] && k.cur == k.ready[0] && k.tcb[k.cur].status == Running
  }

  /** In every reachable state: a step takes the processor from the current task exactly when its
      operation owes a switch, and then gives it to the front of the ready list. Where the outcome
      depends on the order of the ready list, that list is in order. */
  lemma SwitchesExactly(w0: World, ops: seq<Op>, w: World, op: Op)
    requires Initial(w0) && ReachesNoWrap(w0, ops, w) && TokensFit(w0, ops)
    requires Enabled(w, op) && NoWrap(w, op) && !op.LaunchOp? && (ByOrder(op) ==> SortedReady(w.k))
    ensures Next(w, op).k.cur != w.k.cur <==> Switches(w, op)
    ensures Switches(w, op) ==> FrontRuns(Next(w, op).k)
  {
    var loc0: Locs := seq(TASK_MAX, _ => Dead);
    InitialInv(w0);
    InitialCounted(w0);
    RunCounted(w0, loc0, ops, w);
    var loc := RunNoneDue(w0, loc0, ops, w);
    StepSwitchesIff(w, loc, op);
    SwitchesToFront(w, op);
    if Switches(w, op) {
      var loc' := StepInv(w, loc, op);
      assert Next(w, op).k.started;
    }
  }

  /** The launch, once all tasks made before are in order, gives the processor to a most urgent one. */
  lemma LaunchChooses(w0: World, ops: seq<Op>, w: World)
    requires Initial(w0) && Reaches(w0, ops, w) && Enabled(w, LaunchOp) && SortedReady(w.k)
    ensures var k' := Next(w, LaunchOp).k; FrontRuns(k') && CurrentMostUrgent(k')
  {
    var loc := ReachableInv(w0, ops, w);
    StepSorted(w, loc, LaunchOp);
    var loc' := StepInv(w, loc, LaunchOp);
  }
}
