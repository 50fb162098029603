/** Where a task is. Every live task is on exactly one list, and its status, its bit in the tid
    bitmap and the `Running` mark agree with that list. The kernel operations keep this, each with
    a known change of place. */
module Place {
  import opened Config
  import opened Lists
  import opened KernelSpec

  datatype Loc =
    | Dead | InReady | InSleep | InBlocked
    | WaitSema(id: nat) | WaitMutex(id: nat) | WaitCv(id: nat)
  {
    predicate Waiting() {
      WaitSema? || WaitMutex? || WaitCv?
    }
  }

  type Locs = s: seq<Loc> | |s| == TASK_MAX witness seq(TASK_MAX, _ => Dead)

  /** List `q` holds, once each, exactly the tasks at place `l`. */
  ghost predicate Holds(q: seq<Tid>, l: Loc, loc: Locs) {
    NoDup(q) && forall t: Tid :: t in q <==> loc[t] == l
  }

  ghost predicate TaskAgrees(k: K, loc: Locs, t: Tid) {
    && (k.tcb[t].status == Terminated <==> loc[t] == Dead)
    && (k.tcb[t].status == Ready || k.tcb[t].status == Running <==> loc[t] == InReady)
    && (k.tcb[t].status == Running ==> k.started && t == k.cur)
    && (t in k.used <==> loc[t] != Dead)
  }

  /** The kernel's own lists and task table agree with the places. */
  ghost predicate Placed(k: K, loc: Locs) {
    && Holds(k.ready, InReady, loc)
    && Holds(k.sleeping, InSleep, loc)
    && Holds(k.blocked, InBlocked, loc)
    && forall t: Tid :: TaskAgrees(k, loc, t)
  }

  // ---- One task moves ----------------------------------------------------------------------

  lemma Moved(q: seq<Tid>, l: Loc, loc: Locs, loc': Locs)
    requires Holds(q, l, loc)
    requires forall t: Tid :: loc[t] == l <==> loc'[t] == l
    ensures Holds(q, l, loc')
  {
  }

  lemma InsertHolds(q: seq<Tid>, l: Loc, loc: Locs, t: Tid, before: Tid -> bool)
    requires Holds(q, l, loc) && loc[t] != l
    ensures Holds(Insert(q, t, before), l, loc[t := l])
    ensures |Insert(q, t, before)| == |q| + 1
  {
    InsertMembers(q, t, before);
  }

  lemma PushBackHolds(q: seq<Tid>, l: Loc, loc: Locs, t: Tid)
    requires Holds(q, l, loc) && loc[t] != l
    ensures Holds(PushBack(q, t), l, loc[t := l]) && PushBack(q, t) == q + [t]
  {
    PushBackMembers(q, t);
  }

  lemma RemoveHolds(q: seq<Tid>, l: Loc, loc: Locs, t: Tid, l': Loc)
    requires Holds(q, l, loc) && l' != l
    ensures Holds(Remove(q, t), l, loc[t := l'])
  {
    RemoveMembers(q, t);
  }

  lemma PopHolds(q: seq<Tid>, l: Loc, loc: Locs, l': Loc)
    requires Holds(q, l, loc) && q != [] && l' != l
    ensures Holds(q[1..], l, loc[q[0] := l'])
  {
    forall t: Tid ensures t in q[1..] <==> loc[q[0] := l'][t] == l {
      assert t in q <==> t == q[0] || t in q[1..];
    }
  }

  /** A task that waits outside the kernel's lists becomes Ready. */
  lemma MakeReadyPlaced(k: K, loc: Locs, t: Tid)
    requires Placed(k, loc) && loc[t].Waiting()
    ensures Placed(MakeReady(k, t), loc[t := InReady])
  {
    var k', loc' := MakeReady(k, t), loc[t := InReady];
    InsertHolds(k.ready, InReady, loc, t, ByPriority(k'.tcb, t));
    Moved(k.sleeping, InSleep, loc, loc');
    Moved(k.blocked, InBlocked, loc, loc');
    forall u: Tid ensures TaskAgrees(k', loc', u) {
      assert TaskAgrees(k, loc, u);
    }
  }

  lemma BlockCurrentPlaced(k: K, loc: Locs, l: Loc)
    requires Placed(k, loc) && loc[k.cur] == InReady && l.Waiting()
    ensures Placed(BlockCurrent(k), loc[k.cur := l])
  {
    var k', loc' := BlockCurrent(k), loc[k.cur := l];
    RemoveHolds(k.ready, InReady, loc, k.cur, l);
    Moved(k.sleeping, InSleep, loc, loc');
    Moved(k.blocked, InBlocked, loc, loc');
    forall u: Tid ensures TaskAgrees(k', loc', u) {
      assert TaskAgrees(k, loc, u);
    }
  }

  // ---- The scheduler -----------------------------------------------------------------------

  lemma WakeOnePlaced(k: K, loc: Locs, t: Tid)
    requires Placed(k, loc) && loc[t] == InSleep
    ensures Placed(WakeOne(k, t), loc[t := InReady])
  {
    var k', loc' := WakeOne(k, t), loc[t := InReady];
    RemoveHolds(k.sleeping, InSleep, loc, t, InReady);
    InsertHolds(k.ready, InReady, loc, t, ByPriority(k'.tcb, t));
    Moved(k.blocked, InBlocked, loc, loc');
    forall u: Tid ensures TaskAgrees(k', loc', u) {
      assert TaskAgrees(k, loc, u);
    }
  }

  /** The places after every due sleeper has been woken. */
  function Woken(k: K, loc: Locs): Locs {
    seq(TASK_MAX, (t: nat) requires 0 <= t < TASK_MAX =>
      if loc[t] == InSleep && Due(k, t) then InReady else loc[t])
  }

  lemma {:induction false} WakeSleepersPlaced(k: K, loc: Locs, i: nat)
    requires Placed(k, loc)
    requires i <= |k.sleeping| && forall j | 0 <= j < i :: !Due(k, k.sleeping[j])
    ensures Placed(WakeSleepers(k, i), Woken(k, loc))
    decreases |k.sleeping| - i
  {
    if i == |k.sleeping| {
      assert Woken(k, loc) == loc;
    } else if Due(k, k.sleeping[i]) {
      var t := k.sleeping[i];
      var k1 := WakeOne(k, t);
      WakeOnePlaced(k, loc, t);
      RemoveAt(k.sleeping, i);
      WakeSleepersPlaced(k1, loc[t := InReady], i);
      assert Woken(k1, loc[t := InReady]) == Woken(k, loc);
    } else {
      WakeSleepersPlaced(k, loc, i + 1);
    }
  }

  lemma {:induction false} WakeSleepersFrame(k: K, i: nat)
    requires i <= |k.sleeping|
    ensures var k' := WakeSleepers(k, i);
            && k' == k.(tcb := k'.tcb, ready := k'.ready, sleeping := k'.sleeping)
            && (forall t: Tid :: k'.tcb[t].priority == k.tcb[t].priority && k'.tcb[t].sub == k.tcb[t].sub
                                 && k'.tcb[t].slice == k.tcb[t].slice)
            && (forall t: Tid :: k'.tcb[t] == k.tcb[t] || k'.tcb[t].status == Ready)
            && (forall t: Tid | k.tcb[t].status == Running && t !in k.sleeping :: k'.tcb[t] == k.tcb[t])
    decreases |k.sleeping| - i
  {
    if i == |k.sleeping| {
    } else {
      if Due(k, k.sleeping[i]) {
        var k1 := WakeOne(k, k.sleeping[i]);
        WakeSleepersFrame(k1, i);
        StillIn(k.sleeping, k.sleeping[i]);
      } else {
        WakeSleepersFrame(k, i + 1);
      }
    }
  }

  lemma {:induction false} StillIn(xs: seq<Tid>, t: Tid)
    ensures forall x: Tid :: x in Remove(xs, t) ==> x in xs
  {
    if xs == [] || xs[0] == t {
    } else {
      StillIn(xs[1..], t);
    }
  }

  ghost predicate NoneRunning(k: K) {
    forall t: Tid :: k.tcb[t].status != Running
  }

  lemma RequeuePlaced(k: K, loc: Locs)
    requires Placed(k, loc)
    ensures Placed(Requeue(k), loc)
    ensures NoneRunning(Requeue(k))
  {
    var c := k.cur;
    var k1 := Requeue(k);
    assert TaskAgrees(k, loc, c);
    assert forall t: Tid :: TaskAgrees(k, loc, t) && (t != c ==> k1.tcb[t] == k.tcb[t]);
    if k.tcb[c].status == Terminated || k.tcb[c].status == Blocked {
      RemoveAbsent(k.ready, c);
    } else if k.tcb[c].slice == 0 || k.tcb[c].status == Running {
      RemoveHolds(k.ready, InReady, loc, c, InSleep);
      InsertHolds(Remove(k.ready, c), InReady, loc[c := InSleep], c, ByPriority(k1.tcb, c));
      assert loc[c := InSleep][c := InReady] == loc;
    }
    forall u: Tid ensures TaskAgrees(k1, loc, u) {
      assert TaskAgrees(k, loc, u);
    }
  }

  lemma SelectPlaced(k: K, loc: Locs)
    requires Placed(k, loc) && k.started && k.ready != []
    requires NoneRunning(k)
    ensures Placed(Select(k), loc)
    ensures Select(k).cur == k.ready[0] && Select(k).ready == k.ready && !(Select(k).panicked && !k.panicked)
  {
    assert k.ready[0] in k.ready;
    forall u: Tid ensures TaskAgrees(Select(k), loc, u) {
      assert TaskAgrees(k, loc, u);
    }
  }

  /** `next_tcb` moves exactly the due sleepers, to the ready list, and the task it leaves current
      is the front of that list. It cannot panic while some task stays ready. */
  lemma NextTcbPlaced(k: K, loc: Locs, stays: Tid)
    requires Placed(k, loc) && k.started && loc[stays] == InReady
    ensures var k' := NextTcb(k);
            && Placed(k', Woken(k, loc))
            && k'.panicked == k.panicked && k'.started
            && k'.ready != [] && k'.cur == k'.ready[0] && Woken(k, loc)[k'.cur] == InReady
  {
    var loc' := Woken(k, loc);
    var k1 := WakeSleepers(k, 0);
    WakeSleepersPlaced(k, loc, 0);
    WakeSleepersFrame(k, 0);
    RequeuePlaced(k1, loc');
    var k2 := Requeue(k1);
    assert loc'[stays] == InReady;
    assert stays in k2.ready;
    SelectPlaced(k2, loc');
    assert k2.ready[0] in k2.ready;
  }

  // ---- Whole operations --------------------------------------------------------------------

  /** The scheduler runs, the executing task is on the ready list and so is the idle task. */
  ghost predicate Settled(k: K, loc: Locs, idle: Tid) {
    Placed(k, loc) && k.started && !k.panicked && loc[k.cur] == InReady && loc[idle] == InReady
  }

  /** Outside `ts` no task moves, except that sleepers may have been woken. */
  ghost predicate OthersStay(loc: Locs, loc': Locs, ts: set<Tid>) {
    forall u: Tid | u !in ts :: loc'[u] == loc[u] || (loc[u] == InSleep && loc'[u] == InReady)
  }

  lemma NextTcbSettles(k: K, loc: Locs, idle: Tid) returns (loc': Locs)
    requires Placed(k, loc) && k.started && !k.panicked && loc[idle] == InReady
    ensures Settled(NextTcb(k), loc', idle) && OthersStay(loc, loc', {}) && loc' == Woken(k, loc)
  {
    loc' := Woken(k, loc);
    NextTcbPlaced(k, loc, idle);
  }

  lemma TicksFrame(k: K, n: nat)
    ensures var k' := Ticks(k, n).0;
            && k' == k.(ticks := k'.ticks, tcb := k'.tcb)
            && forall t: Tid :: k'.tcb[t] == k.tcb[t].(slice := k'.tcb[t].slice)
  {
  }

  lemma SystickTrapSettles(k: K, loc: Locs, idle: Tid, missed: nat, deferred: bool) returns (loc': Locs)
    requires Settled(k, loc, idle)
    ensures Settled(SystickTrap(k, missed, deferred), loc', idle) && OthersStay(loc, loc', {})
  {
    var (k1, r) := Ticks(k, missed + 1);
    TicksFrame(k, missed + 1);
    forall u: Tid ensures TaskAgrees(k1, loc, u) {
      assert TaskAgrees(k, loc, u);
    }
    if r || deferred {
      loc' := NextTcbSettles(k1, loc, idle);
    } else {
      loc' := loc;
    }
  }

  lemma CreateRawPlaced(k: K, loc: Locs, priority: nat) returns (loc': Locs)
    requires Placed(k, loc)
    ensures var (k', r) := CreateRaw(k, priority);
            && Placed(k', loc')
            && (r.None? ==> loc' == loc && k' == k)
            && (r.Some? ==> loc[r.value] == Dead && loc' == loc[r.value := InReady])
  {
    var (k', r) := CreateRaw(k, priority);
    match r
    case None =>
      loc' := loc;
    case Some(t) =>
      assert TaskAgrees(k, loc, t);
      loc' := loc[t := InReady];
      InsertHolds(k.ready, InReady, loc, t, ByPriority(k'.tcb, t));
      Moved(k.sleeping, InSleep, loc, loc');
      Moved(k.blocked, InBlocked, loc, loc');
      forall u: Tid ensures TaskAgrees(k', loc', u) {
        assert TaskAgrees(k, loc, u);
      }
  }

  lemma CreateSettles(k: K, loc: Locs, idle: Tid, priority: nat) returns (loc': Locs)
    requires Settled(k, loc, idle)
    ensures var (k', r) := Create(k, priority);
            && Settled(k', loc', idle)
            && (r.None? ==> loc' == loc && k' == k)
            && (r.Some? ==> loc[r.value] == Dead && loc'[r.value] == InReady && OthersStay(loc, loc', {r.value}))
  {
    var (k1, r) := CreateRaw(k, priority);
    loc' := CreateRawPlaced(k, loc, priority);
    if r.Some? && priority < k1.tcb[k1.cur].priority {
      loc' := NextTcbSettles(k1, loc', idle);
    }
  }

  lemma LaunchSettles(k: K, loc: Locs) returns (loc': Locs, idle: Tid)
    requires Placed(k, loc) && !k.started && !k.panicked
    requires exists t: Tid :: t !in k.used
    ensures Settled(Launch(k), loc', idle)
    ensures loc[idle] == Dead && loc' == loc[idle := InReady]
    ensures CreateRaw(k, PRI_MIN).1 == Some(idle)
  {
    var (k1, r) := CreateRaw(k, PRI_MIN);
    loc' := CreateRawPlaced(k, loc, PRI_MIN);
    idle := r.value;
    assert idle in k1.ready;
    var k2 := Launch(k);
    assert k1.ready[0] in k1.ready;
    forall u: Tid ensures TaskAgrees(k2, loc', u) {
      assert TaskAgrees(k1, loc', u);
    }
  }

  lemma DiscardPlaced(k: K, loc: Locs, t: Tid)
    requires Placed(k, loc) && loc[t] != Dead && !loc[t].Waiting()
    ensures Placed(Discard(k, t), loc[t := Dead])
  {
    var k' := Discard(k, t);
    RemoveHolds(k.ready, InReady, loc, t, Dead);
    RemoveHolds(k.sleeping, InSleep, loc, t, Dead);
    RemoveHolds(k.blocked, InBlocked, loc, t, Dead);
    var loc' := loc[t := Dead];
    forall u: Tid ensures TaskAgrees(k', loc', u) {
      assert TaskAgrees(k, loc, u);
    }
  }

  lemma TerminateSettles(k: K, loc: Locs, idle: Tid, t: Tid) returns (loc': Locs)
    requires Settled(k, loc, idle) && t != idle && !loc[t].Waiting()
    ensures Settled(Terminate(k, t), loc', idle) && loc'[t] == Dead && OthersStay(loc, loc', {t})
  {
    assert TaskAgrees(k, loc, t);
    if loc[t] == Dead {
      loc' := loc;
    } else {
      DiscardPlaced(k, loc, t);
      loc' := NextTcbSettles(Discard(k, t), loc[t := Dead], idle);
    }
  }

  lemma ExitSettles(k: K, loc: Locs, idle: Tid) returns (loc': Locs)
    requires Settled(k, loc, idle) && k.cur != idle
    ensures Settled(ExitCurrent(k), loc', idle) && loc'[k.cur] == Dead && OthersStay(loc, loc', {k.cur})
  {
    RemoveAbsent(k.sleeping, k.cur);
    RemoveAbsent(k.blocked, k.cur);
    assert FreeTid(k.(ready := Remove(k.ready, k.cur)), k.cur) == Discard(k, k.cur);
    DiscardPlaced(k, loc, k.cur);
    loc' := NextTcbSettles(Discard(k, k.cur), loc[k.cur := Dead], idle);
  }

  lemma SuspendPlaced(k: K, loc: Locs, t: Tid)
    requires Placed(k, loc) && loc[t] == InReady
    ensures Placed(Suspend(k, t), loc[t := InBlocked])
  {
    var k1, loc1 := Suspend(k, t), loc[t := InBlocked];
    RemoveHolds(k.ready, InReady, loc, t, InBlocked);
    PushBackHolds(k.blocked, InBlocked, loc, t);
    Moved(k.sleeping, InSleep, loc, loc1);
    forall u: Tid ensures TaskAgrees(k1, loc1, u) {
      assert TaskAgrees(k, loc, u);
    }
  }

  lemma BlockSettles(k: K, loc: Locs, idle: Tid, t: Tid) returns (loc': Locs)
    requires Settled(k, loc, idle) && t != idle
    ensures Settled(Block(k, t), loc', idle)
    ensures loc'[t] == (if loc[t] == InReady then InBlocked else loc[t]) && OthersStay(loc, loc', {t})
  {
    assert TaskAgrees(k, loc, t);
    if loc[t] != InReady {
      loc' := loc;
    } else {
      SuspendPlaced(k, loc, t);
      loc' := NextTcbSettles(Suspend(k, t), loc[t := InBlocked], idle);
    }
  }

  lemma UnblockPlaced(k: K, loc: Locs, t: Tid)
    requires Placed(k, loc) && loc[t] == InBlocked
    ensures Placed(Unblock(k, t), loc[t := InReady])
  {
    var k', loc' := Unblock(k, t), loc[t := InReady];
    RemoveHolds(k.blocked, InBlocked, loc, t, InReady);
    InsertHolds(k.ready, InReady, loc, t, ByPriority(k'.tcb, t));
    Moved(k.sleeping, InSleep, loc, loc');
    forall u: Tid ensures TaskAgrees(k', loc', u) {
      assert TaskAgrees(k, loc, u);
    }
  }

  lemma ResumeElsewhere(k: K, loc: Locs, t: Tid)
    requires Placed(k, loc) && loc[t] != InBlocked
    ensures Resume(k, t) == k
  {
    assert TaskAgrees(k, loc, t);
  }

  lemma ResumeBlocked(k: K, loc: Locs, t: Tid)
    requires Placed(k, loc) && loc[t] == InBlocked && k.started
    ensures var k1 := Unblock(k, t);
            Resume(k, t) == if k1.tcb[t].priority < k1.tcb[k1.cur].priority then NextTcb(k1) else k1
  {
    assert TaskAgrees(k, loc, t);
  }

  lemma ResumeSettles(k: K, loc: Locs, idle: Tid, t: Tid) returns (loc': Locs)
    requires Settled(k, loc, idle)
    ensures Settled(Resume(k, t), loc', idle)
    ensures loc[t] == InBlocked ==> loc'[t] == InReady
    ensures OthersStay(loc, loc', if loc[t] == InBlocked then {t} else {})
  {
    loc' := loc;
    if loc[t] == InBlocked {
      var k1 := Unblock(k, t);
      ResumeBlocked(k, loc, t);
      UnblockPlaced(k, loc, t);
      loc' := loc[t := InReady];
      if k1.tcb[t].priority < k1.tcb[k1.cur].priority {
        loc' := NextTcbSettles(k1, loc', idle);
      }
    } else {
      ResumeElsewhere(k, loc, t);
    }
  }

  lemma FallAsleepPlaced(k: K, loc: Locs, wake: nat)
    requires Placed(k, loc) && loc[k.cur] == InReady
    ensures Placed(FallAsleep(k, wake), loc[k.cur := InSleep])
  {
    var c, loc' := k.cur, loc[k.cur := InSleep];
    var k' := FallAsleep(k, wake);
    RemoveHolds(k.ready, InReady, loc, c, InSleep);
    InsertHolds(k.sleeping, InSleep, loc, c, ByWake(k'.tcb, c));
    Moved(k.blocked, InBlocked, loc, loc');
    forall u: Tid ensures TaskAgrees(k', loc', u) {
      assert TaskAgrees(k, loc, u);
    }
  }

  lemma FallAsleepSettles(k: K, loc: Locs, idle: Tid, wake: nat) returns (loc': Locs)
    requires Settled(k, loc, idle) && k.cur != idle
    ensures Settled(NextTcb(FallAsleep(k, wake)), loc', idle)
    ensures !loc'[k.cur].Waiting() && loc'[k.cur] != Dead && OthersStay(loc, loc', {k.cur})
  {
    FallAsleepPlaced(k, loc, wake);
    loc' := NextTcbSettles(FallAsleep(k, wake), loc[k.cur := InSleep], idle);
  }

  lemma DelaySettles(k: K, loc: Locs, idle: Tid, ticks: nat) returns (loc': Locs)
    requires Settled(k, loc, idle) && k.cur != idle
    ensures Settled(Delay(k, ticks), loc', idle)
    ensures !loc'[k.cur].Waiting() && loc'[k.cur] != Dead && OthersStay(loc, loc', {k.cur})
  {
    if ticks == 0 {
      loc' := loc;
    } else {
      var wake := WrapU32(k.ticks + ticks);
      assert Delay(k, ticks) == NextTcb(FallAsleep(k, wake));
      loc' := FallAsleepSettles(k, loc, idle, wake);
    }
  }
}
