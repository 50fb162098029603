/** The order of the sleeping list, by wake point and first come first served among equals, and the order
    in which an interrupt makes sleepers ready. */
module Sleepers {
  import opened Config
  import opened Lists
  import opened KernelSpec
  import opened Place
  import opened Ordered
  import opened World
  import opened Order
  import opened Sleep
  import opened Switch
  import Service
  import Turns

  /** The wake points of `q` rise. */
  ghost predicate Rising(tcb: Tcbs, q: seq<Tid>) {
    forall i, j | 0 <= i < j < |q| :: tcb[q[i]].wake <= tcb[q[j]].wake
  }

  // ---- The sleeping list -------------------------------------------------------------------

  lemma SameRising(tcb: Tcbs, tcb': Tcbs, q: seq<Tid>)
    requires Rising(tcb, q) && forall x | x in q :: tcb'[x].wake == tcb[x].wake
    ensures Rising(tcb', q)
  {
    assert forall j | 0 <= j < |q| :: q[j] in q;
  }

  lemma CutRising(tcb: Tcbs, q: seq<Tid>, i: nat)
    requires Rising(tcb, q) && i < |q|
    ensures Rising(tcb, q[..i] + q[i + 1..])
  {
    var r := q[..i] + q[i + 1..];
    assert forall j | 0 <= j < |r| :: r[j] == q[if j < i then j else j + 1];
  }

  lemma RemovedRising(tcb: Tcbs, tcb': Tcbs, q: seq<Tid>, t: Tid)
    requires Rising(tcb, q) && NoDup(q) && forall x | x in q && x != t :: tcb'[x].wake == tcb[x].wake
    ensures Rising(tcb', Remove(q, t))
  {
    if t in q {
      var i :| 0 <= i < |q| && q[i] == t;
      RemoveAt(q, i);
      CutRising(tcb, q, i);
    } else {
      RemoveAbsent(q, t);
    }
    RemoveMembers(q, t);
    SameRising(tcb, tcb', Remove(q, t));
  }

  /** Insertion by wake point: behind those that wake no later, before all others. */
  lemma InsertedRising(tcb: Tcbs, q: seq<Tid>, t: Tid)
    requires Rising(tcb, q) && |q| < TASK_MAX
    ensures var p := Pos(q, ByWake(tcb, t));
            && Insert(q, t, ByWake(tcb, t)) == q[..p] + [t] + q[p..]
            && (forall i | 0 <= i < |q| :: tcb[q[i]].wake <= tcb[t].wake <==> i < p)
  {
    var before := ByWake(tcb, t);
    var p := Pos(q, before);
    forall i | 0 <= i < |q| ensures tcb[q[i]].wake <= tcb[t].wake <==> i < p {
      if i < p {
        assert !before(q[i]);
      } else {
        assert before(q[p]);
      }
    }
  }

  lemma SplicedRising(tcb: Tcbs, q: seq<Tid>, p: nat, t: Tid)
    requires Rising(tcb, q) && p <= |q|
    requires forall i | 0 <= i < |q| :: tcb[q[i]].wake <= tcb[t].wake <==> i < p
    ensures Rising(tcb, q[..p] + [t] + q[p..])
  {
    var r := q[..p] + [t] + q[p..];
    assert forall i | 0 <= i < |r| :: r[i] == if i < p then q[i] else if i == p then t else q[i - 1];
  }

  lemma {:induction false} ScanRising(k: K, i: nat)
    requires i <= |k.sleeping| && NoDup(k.sleeping) && Rising(k.tcb, k.sleeping)
    ensures var k' := WakeSleepers(k, i); Rising(k'.tcb, k'.sleeping)
    decreases |k.sleeping| - i
  {
    if i == |k.sleeping| {
    } else if Due(k, k.sleeping[i]) {
      var t := k.sleeping[i];
      RemoveMembers(k.sleeping, t);
      RemovedRising(k.tcb, WakeOne(k, t).tcb, k.sleeping, t);
      ScanRising(WakeOne(k, t), i);
    } else {
      ScanRising(k, i + 1);
    }
  }

  lemma NextTcbRising(k: K)
    requires NoDup(k.sleeping) && Rising(k.tcb, k.sleeping)
    ensures var k' := NextTcb(k); Rising(k'.tcb, k'.sleeping)
  {
    var k1 := WakeSleepers(k, 0);
    ScanRising(k, 0);
    SwitchKeepsSleepers(k1);
    SameRising(k1.tcb, NextTcb(k).tcb, k1.sleeping);
  }

  // ---- Every step --------------------------------------------------------------------------

  ghost predicate InWakeOrder(k: K) {
    Rising(k.tcb, k.sleeping)
  }

  lemma FallAsleepRising(k: K, loc: Locs, wake: nat)
    requires Placed(k, loc) && loc[k.cur] == InReady && InWakeOrder(k)
    ensures InWakeOrder(FallAsleep(k, wake))
  {
    var k1 := FallAsleep(k, wake);
    SameRising(k.tcb, k1.tcb, k.sleeping);
    Room(k.sleeping, k.cur);
    InsertedRising(k1.tcb, k.sleeping, k.cur);
    SplicedRising(k1.tcb, k.sleeping, Pos(k.sleeping, ByWake(k1.tcb, k.cur)), k.cur);
  }

  lemma DelayRising(k: K, k': K, loc: Locs, wake: nat)
    requires Placed(k, loc) && loc[k.cur] == InReady && InWakeOrder(k) && k' == NextTcb(FallAsleep(k, wake))
    ensures InWakeOrder(k')
  {
    FallAsleepRising(k, loc, wake);
    FallAsleepPlaced(k, loc, wake);
    NextTcbRising(FallAsleep(k, wake));
  }

  lemma DelaysRising(k: K, k': K, loc: Locs, n: nat)
    requires Placed(k, loc) && loc[k.cur] == InReady && InWakeOrder(k) && n > 0 && k' == Delay(k, n)
    ensures InWakeOrder(k')
  {
    DelayRising(k, k', loc, WrapU32(k.ticks + n));
  }

  lemma TerminateRising(k: K, loc: Locs, t: Tid)
    requires Placed(k, loc) && InWakeOrder(k) && k.tcb[t].status != Terminated
    ensures InWakeOrder(Terminate(k, t))
  {
    var k1 := Discard(k, t);
    RemovedRising(k.tcb, k1.tcb, k.sleeping, t);
    RemoveMembers(k.sleeping, t);
    NextTcbRising(k1);
  }

  lemma TrapRising(k: K, loc: Locs, missed: nat, deferred: bool)
    requires Placed(k, loc) && InWakeOrder(k)
    ensures InWakeOrder(SystickTrap(k, missed, deferred))
  {
    var k1 := Ticks(k, missed + 1).0;
    TicksFrame(k, missed + 1);
    SameRising(k.tcb, k1.tcb, k.sleeping);
    NextTcbRising(k1);
  }

  lemma StepRising(w: World, loc: Locs, op: Op)
    requires Inv(w, loc) && NoneDue(w.k) && InWakeOrder(w.k) && Enabled(w, op)
    ensures InWakeOrder(Next(w, op).k)
  {
    if !TouchesSleep(op) {
      QuietStep(w, loc, op);
      SameRising(w.k.tcb, Next(w, op).k.tcb, w.k.sleeping);
    } else if op.DelayOp? {
      if op.ticks > 0 {
        DelaysRising(w.k, Next(w, op).k, loc, op.ticks);
      }
    } else if op.TerminateOp? {
      if w.k.tcb[op.t].status != Terminated {
        TerminateRising(w.k, loc, op.t);
      }
    } else {
      TrapRising(w.k, loc, op.missed, op.deferred);
    }
  }

  lemma {:induction false} RunRising(w: World, loc: Locs, ops: seq<Op>, w': World) returns (loc': Locs)
    requires Inv(w, loc) && NoneDue(w.k) && InWakeOrder(w.k) && ReachesNoWrap(w, ops, w')
    ensures Inv(w', loc') && NoneDue(w'.k) && InWakeOrder(w'.k)
    decreases |ops|
  {
    loc' := loc;
    if ops == [] {
    } else {
      StepRising(w, loc, ops[0]);
      StepNoneDue(w, loc, ops[0]);
      var loc1 := StepInv(w, loc, ops[0]);
      loc' := RunRising(Next(w, ops[0]), loc1, ops[1..], w');
    }
  }

  /** In every reachable state the sleepers stand in the order in which they wake, and a task that goes to
      sleep goes behind those that wake no later and before all others. */
  lemma SleepersInOrder(w0: World, ops: seq<Op>, w: World, n: nat, u: Tid)
    requires Initial(w0) && ReachesNoWrap(w0, ops, w)
    ensures InWakeOrder(w.k)
    ensures Enabled(w, DelayOp(n)) && NoWrap(w, DelayOp(n)) && n > 0 && u in w.k.sleeping ==>
              var q' := Next(w, DelayOp(n)).k.sleeping;
              if w.k.tcb[u].wake <= w.k.ticks + n then Before(q', u, w.k.cur) else Before(q', w.k.cur, u)
  {
    InitialInv(w0);
    var loc := RunRising(w0, seq(TASK_MAX, _ => Dead), ops, w);
    if Enabled(w, DelayOp(n)) && NoWrap(w, DelayOp(n)) && n > 0 && u in w.k.sleeping {
      DelayInTurn(w.k, Next(w, DelayOp(n)).k, loc, n, w.k.ticks + n, u);
    }
  }

  lemma InsertedInTurn(tcb: Tcbs, q: seq<Tid>, t: Tid, u: Tid)
    requires Rising(tcb, q) && |q| < TASK_MAX && u in q
    ensures var r := Insert(q, t, ByWake(tcb, t));
            if tcb[u].wake <= tcb[t].wake then Before(r, u, t) else Before(r, t, u)
  {
    InsertedRising(tcb, q, t);
    var p, r := Pos(q, ByWake(tcb, t)), Insert(q, t, ByWake(tcb, t));
    var j :| 0 <= j < |q| && q[j] == u;
    SplicedAt(q, p, t, j);
    assert r[p] == t;
    if j < p {
      BeforeAt(r, j, p);
    } else {
      BeforeAt(r, p, j + 1);
    }
  }

  lemma AsleepInTurn(k: K, loc: Locs, wake: nat, u: Tid)
    requires Placed(k, loc) && loc[k.cur] == InReady && InWakeOrder(k) && NoneDue(k)
    requires k.ticks < wake && u in k.sleeping
    ensures var q' := NextTcb(FallAsleep(k, wake)).sleeping;
            if k.tcb[u].wake <= wake then Before(q', u, k.cur) else Before(q', k.cur, u)
  {
    var k1 := FallAsleep(k, wake);
    SameRising(k.tcb, k1.tcb, k.sleeping);
    Room(k.sleeping, k.cur);
    InsertedInTurn(k1.tcb, k.sleeping, k.cur, u);
    FallAsleepMembers(k, loc, wake);
    QuietSwitch(k1, k1);
  }

  lemma DelayInTurn(k: K, k': K, loc: Locs, n: nat, wake: nat, u: Tid)
    requires Placed(k, loc) && loc[k.cur] == InReady && InWakeOrder(k) && NoneDue(k)
    requires n > 0 && k' == Delay(k, n) && wake == k.ticks + n < U32 && u in k.sleeping
    ensures if k.tcb[u].wake <= wake then Before(k'.sleeping, u, k.cur) else Before(k'.sleeping, k.cur, u)
  {
    DelayIs(k, n, wake);
    AsleepInTurn(k, loc, wake, u);
  }

  // ---- Waking ------------------------------------------------------------------------------

  lemma {:induction false} ScanKeepsBefore(k: K, i: nat, a: Tid, b: Tid)
    requires i <= |k.sleeping| && Before(k.ready, a, b)
    ensures Before(WakeSleepers(k, i).ready, a, b)
    decreases |k.sleeping| - i
  {
    if i == |k.sleeping| {
    } else if Due(k, k.sleeping[i]) {
      var k1 := WakeOne(k, k.sleeping[i]);
      InsertKeepsBefore(k.ready, k.sleeping[i], ByPriority(k1.tcb, k.sleeping[i]), a, b);
      ScanKeepsBefore(k1, i, a, b);
    } else {
      ScanKeepsBefore(k, i + 1, a, b);
    }
  }

  /** The scan of the sleeping list has passed `i` sleepers, none of them due. */
  ghost predicate Scanning(k: K, i: nat) {
    InLine(k) && Asleep(k) && i <= |k.sleeping| && forall j | 0 <= j < i :: !Due(k, k.sleeping[j])
  }

  lemma ScanStep(k: K, i: nat)
    requires Scanning(k, i) && i < |k.sleeping|
    ensures !Due(k, k.sleeping[i]) ==> Scanning(k, i + 1)
    ensures Due(k, k.sleeping[i]) ==>
              var (t, k1) := (k.sleeping[i], WakeOne(k, k.sleeping[i]));
              && Scanning(k1, i) && t in k1.ready && (forall x | x in k.ready :: x in k1.ready)
              && k1.ticks == k.ticks && k1.sleeping == Remove(k.sleeping, t)
              && (forall x: Tid :: k1.tcb[x].priority == k.tcb[x].priority)
              && (forall x: Tid | x != t :: k1.tcb[x].wake == k.tcb[x].wake)
  {
    if Due(k, k.sleeping[i]) {
      var t := k.sleeping[i];
      WokenWay(k, t);
      RemoveAt(k.sleeping, i);
      InsertMembers(k.ready, t, ByPriority(WakeOne(k, t).tcb, t));
    }
  }

  /** A due sleeper comes behind a ready task at least as urgent. */
  lemma {:induction false} ScanBehind(k: K, i: nat, a: Tid, b: Tid)
    requires Scanning(k, i) && a in k.ready && b in k.sleeping && Due(k, b)
    requires k.tcb[a].priority <= k.tcb[b].priority
    ensures Before(WakeSleepers(k, i).ready, a, b)
    decreases |k.sleeping| - i
  {
    if i < |k.sleeping| {
      var t := k.sleeping[i];
      ScanStep(k, i);
      if !Due(k, t) {
        ScanBehind(k, i + 1, a, b);
      } else if t == b {
        ComesBehindOne(k, a, b);
        ScanKeepsBefore(WakeOne(k, b), i, a, b);
      } else {
        RemoveMembers(k.sleeping, t);
        ScanBehind(WakeOne(k, t), i, a, b);
      }
    }
  }

  lemma ComesBehindOne(k: K, a: Tid, b: Tid)
    requires InLine(k) && a in k.ready && b !in k.ready && k.tcb[a].priority <= k.tcb[b].priority
    ensures Before(WakeOne(k, b).ready, a, b)
  {
    var k1 := WakeOne(k, b);
    SortedSame(k.tcb, k1.tcb, k.ready);
    Room(k.ready, b);
    Service.EnqueuedInTurn(k1.tcb, k.ready, b, a);
  }

  lemma {:induction false} ScanInTurn(k: K, i: nat, a: Tid, b: Tid)
    requires Scanning(k, i) && Before(k.sleeping, a, b) && Due(k, a) && Due(k, b)
    requires k.tcb[a].priority <= k.tcb[b].priority
    ensures Before(WakeSleepers(k, i).ready, a, b)
    decreases |k.sleeping| - i
  {
    var m, n :| 0 <= m < n < |k.sleeping| && k.sleeping[m] == a && k.sleeping[n] == b;
    var t := k.sleeping[i];
    ScanStep(k, i);
    if !Due(k, t) {
      ScanInTurn(k, i + 1, a, b);
    } else {
      RemoveMembers(k.sleeping, t);
      if t == a {
        ScanBehind(WakeOne(k, a), i, a, b);
      } else {
        Turns.StillBefore(k.sleeping, t, a, b);
        ScanInTurn(WakeOne(k, t), i, a, b);
      }
    }
  }

  lemma SwitchInTurn(k: K, a: Tid, b: Tid)
    requires InLine(k) && Asleep(k) && Before(k.sleeping, a, b) && Due(k, a) && Due(k, b)
    requires k.tcb[a].priority <= k.tcb[b].priority
    ensures Before(NextTcb(k).ready, a, b)
  {
    var k1 := WakeSleepers(k, 0);
    ScanInTurn(k, 0, a, b);
    ScanWay(k, 0);
    WakeSleepersFrame(k, 0);
    assert a in k.sleeping && b in k.sleeping;
    Turns.RequeueKeepsBefore(k1, a, b);
  }

  /** The sleepers an interrupt wakes come to the ready list in turn: of two that are due the one that stands
      first in the sleeping list, if it is at least as urgent, stands first in the ready list. */
  lemma WakesInTurn(w: World, loc: Locs, op: Op, a: Tid, b: Tid)
    requires Inv(w, loc) && Enabled(w, op) && NoWrap(w, op) && op.SystickOp? && SortedReady(w.k)
    requires Before(w.k.sleeping, a, b) && w.k.tcb[a].priority <= w.k.tcb[b].priority
    requires w.k.tcb[a].wake <= w.k.ticks + op.missed + 1 && w.k.tcb[b].wake <= w.k.ticks + op.missed + 1
    ensures Before(Next(w, op).k.ready, a, b)
  {
    var k, n := w.k, op.missed + 1;
    var k1 := Ticks(k, n).0;
    TicksFrame(k, n);
    TicksCount(k, n);
    WorldInLine(w, loc);
    SortedSame(k.tcb, k1.tcb, k.ready);
    assert a in k.sleeping && b in k.sleeping;
    SwitchInTurn(k1, a, b);
  }
}
