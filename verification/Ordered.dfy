/** Queues in order of priority, first come first served among equals. */
module Ordered {
  import opened Config
  import opened Lists
  import opened KernelSpec
  import opened Place

  ghost predicate Sorted(tcb: Tcbs, q: seq<Tid>) {
    forall i, j | 0 <= i < j < |q| :: tcb[q[i]].priority <= tcb[q[j]].priority
  }

  function Least(tcb: Tcbs, base: nat, q: seq<Tid>): nat {
    if q == [] || base <= tcb[q[0]].priority then base else tcb[q[0]].priority
  }

  /** Insertion into an ordered queue: behind every task at least as urgent, before every other, and
      without reordering those already there. */
  lemma EnqueueKeepsTurn(tcb: Tcbs, q: seq<Tid>, t: Tid)
    requires Sorted(tcb, q) && |q| < TASK_MAX
    ensures var p := Pos(q, ByPriority(tcb, t));
            && Enqueue(tcb, q, t) == q[..p] + [t] + q[p..]
            && (forall i | 0 <= i < |q| :: tcb[q[i]].priority <= tcb[t].priority <==> i < p)
  {
    var before := ByPriority(tcb, t);
    var p := Pos(q, before);
    forall i | 0 <= i < |q| ensures tcb[q[i]].priority <= tcb[t].priority <==> i < p {
      if i < p {
        assert !before(q[i]);
      } else {
        assert before(q[p]);
      }
    }
  }

  lemma SplicedSorted(tcb: Tcbs, q: seq<Tid>, p: nat, t: Tid)
    requires Sorted(tcb, q) && p <= |q|
    requires forall i | 0 <= i < |q| :: tcb[q[i]].priority <= tcb[t].priority <==> i < p
    ensures Sorted(tcb, q[..p] + [t] + q[p..])
  {
    var r := q[..p] + [t] + q[p..];
    assert forall i | 0 <= i < |r| :: r[i] == if i < p then q[i] else if i == p then t else q[i - 1];
  }

  lemma EnqueueSorted(tcb: Tcbs, q: seq<Tid>, t: Tid)
    requires Sorted(tcb, q) && |q| < TASK_MAX
    ensures Sorted(tcb, Enqueue(tcb, q, t))
    ensures tcb[Enqueue(tcb, q, t)[0]].priority == Least(tcb, tcb[t].priority, q)
  {
    var p := Pos(q, ByPriority(tcb, t));
    EnqueueKeepsTurn(tcb, q, t);
    SplicedSorted(tcb, q, p, t);
  }

  lemma SortedFrame(tcb: Tcbs, tcb': Tcbs, q: seq<Tid>, o: Tid)
    requires Sorted(tcb, q) && o !in q
    requires forall t: Tid | t != o :: tcb'[t].priority == tcb[t].priority
    ensures Sorted(tcb', q)
  {
    assert forall i | 0 <= i < |q| :: q[i] in q;
  }

  lemma SortedSame(tcb: Tcbs, tcb': Tcbs, q: seq<Tid>)
    requires Sorted(tcb, q) && forall t: Tid :: tcb'[t].priority == tcb[t].priority
    ensures Sorted(tcb', q)
  {
  }

  lemma {:induction false} RemoveSorted(tcb: Tcbs, q: seq<Tid>, t: Tid)
    requires Sorted(tcb, q)
    ensures Sorted(tcb, Remove(q, t))
  {
    if q == [] || q[0] == t {
    } else {
      RemoveSorted(tcb, q[1..], t);
      StillIn(q[1..], t);
      forall x | x in Remove(q[1..], t) ensures tcb[q[0]].priority <= tcb[x].priority {
        var i :| 0 <= i < |q[1..]| && q[1..][i] == x;
        assert q[i + 1] == x;
      }
      SortedCons(tcb, q[0], Remove(q[1..], t));
    }
  }

  lemma SortedCons(tcb: Tcbs, h: Tid, q: seq<Tid>)
    requires Sorted(tcb, q) && forall x | x in q :: tcb[h].priority <= tcb[x].priority
    ensures Sorted(tcb, [h] + q)
  {
    var r := [h] + q;
    forall i, j | 0 <= i < j < |r| ensures tcb[r[i]].priority <= tcb[r[j]].priority {
      assert r[j] == q[j - 1] && r[j] in q;
      if i > 0 {
        assert r[i] == q[i - 1];
      }
    }
  }

  // ---- Who stands before whom ---------------------------------------------------------------

  /** `a` stands before `b` in `q`. */
  ghost predicate Before(q: seq<Tid>, a: Tid, b: Tid) {
    exists j, k | 0 <= j < k < |q| :: q[j] == a && q[k] == b
  }

  lemma BeforeAt(q: seq<Tid>, j: nat, k: nat)
    requires j < k < |q|
    ensures Before(q, q[j], q[k])
  {
  }

  lemma SplicedAt(q: seq<Tid>, p: nat, t: Tid, j: nat)
    requires p <= |q| && j < |q|
    ensures (q[..p] + [t] + q[p..])[if j < p then j else j + 1] == q[j]
  {
  }

  /** Whoever is inserted, those already there keep their order. */
  lemma InsertKeepsBefore(q: seq<Tid>, t: Tid, before: Tid -> bool, a: Tid, b: Tid)
    requires Before(q, a, b)
    ensures Before(Insert(q, t, before), a, b)
  {
    var j, k :| 0 <= j < k < |q| && q[j] == a && q[k] == b;
    if |q| < TASK_MAX {
      var p := Pos(q, before);
      SplicedAt(q, p, t, j);
      SplicedAt(q, p, t, k);
      BeforeAt(q[..p] + [t] + q[p..], if j < p then j else j + 1, if k < p then k else k + 1);
    }
  }

  lemma PopKeepsBefore(q: seq<Tid>, a: Tid, b: Tid)
    requires Before(q, a, b)
    ensures Before(q[1..], a, b) || (q[0] == a && b in q[1..])
  {
    var j, k :| 0 <= j < k < |q| && q[j] == a && q[k] == b;
    assert q[1..][k - 1] == b;
    if j > 0 {
      assert q[1..][j - 1] == a;
      BeforeAt(q[1..], j - 1, k - 1);
    }
  }

  // ---- The ready list ----------------------------------------------------------------------

  ghost predicate SortedReady(k: K) {
    Sorted(k.tcb, k.ready)
  }

  lemma MakeReadySorted(k: K, t: Tid)
    requires SortedReady(k)
    ensures SortedReady(MakeReady(k, t))
  {
    var tcb := SetStatus(k.tcb, t, Ready);
    SortedSame(k.tcb, tcb, k.ready);
    if |k.ready| < TASK_MAX {
      EnqueueSorted(tcb, k.ready, t);
    }
  }

  lemma {:induction false} WakeSleepersSorted(k: K, i: nat)
    requires i <= |k.sleeping| && SortedReady(k)
    ensures SortedReady(WakeSleepers(k, i))
    decreases |k.sleeping| - i
  {
    if i == |k.sleeping| {
    } else {
      if Due(k, k.sleeping[i]) {
        var t := k.sleeping[i];
        var k1 := k.(sleeping := Remove(k.sleeping, t), tcb := k.tcb[t := k.tcb[t].(wake := 0)]);
        SortedSame(k.tcb, k1.tcb, k1.ready);
        MakeReadySorted(k1, t);
        WakeSleepersSorted(WakeOne(k, t), i);
      } else {
        WakeSleepersSorted(k, i + 1);
      }
    }
  }

  /** `next_tcb` puts the current task back behind its equals. */
  predicate Requeues(k: K) {
    var me := k.tcb[k.cur];
    me.status == Running || (me.status == Ready && me.slice == 0)
  }

  /** Putting the current task back in its place repairs an order only it disturbs. */
  lemma RequeueSorted(k: K)
    requires SortedReady(k) || (Sorted(k.tcb, Remove(k.ready, k.cur)) && Requeues(k))
    ensures SortedReady(Requeue(k))
  {
    var c := k.cur;
    if SortedReady(k) {
      RemoveSorted(k.tcb, k.ready, c);
    }
    if k.tcb[c].status != Terminated && k.tcb[c].status != Blocked
       && (k.tcb[c].slice == 0 || k.tcb[c].status == Running) {
      var tcb := k.tcb[c := k.tcb[c].(slice := TIME_SLICE, status := Ready)];
      var q := Remove(k.ready, c);
      SortedSame(k.tcb, tcb, q);
      if |q| < TASK_MAX {
        EnqueueSorted(tcb, q, c);
      }
    }
  }

  lemma NextTcbSorted(k: K)
    requires SortedReady(k)
    ensures SortedReady(NextTcb(k))
  {
    var k1 := WakeSleepers(k, 0);
    WakeSleepersSorted(k, 0);
    RequeueSorted(k1);
    var k2 := Requeue(k1);
    SortedSame(k2.tcb, Select(k2).tcb, k2.ready);
  }

  /** The task a switch leaves current is as urgent as any ready task. */
  lemma NextTcbChoosesMostUrgent(k: K, loc: Locs, stays: Tid)
    requires Placed(k, loc) && k.started && loc[stays] == InReady && SortedReady(k)
    ensures var k' := NextTcb(k);
            k'.cur in k'.ready && forall u | u in k'.ready :: k'.tcb[k'.cur].priority <= k'.tcb[u].priority
  {
    NextTcbPlaced(k, loc, stays);
    NextTcbSorted(k);
  }
}
