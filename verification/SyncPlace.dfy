/** The synchronisation operations keep every task in one place: each moves the current task to the
    object's queue, or the front of that queue to the ready list, or nothing. */
module SyncPlace {
  import opened Config
  import opened Lists
  import opened KernelSpec
  import opened SyncSpec
  import opened Place

  /** A switch moves sleepers at most, so a wait queue keeps its tasks. */
  lemma SwitchSettles(k: K, loc: Locs, idle: Tid, q: seq<Tid>, l: Loc) returns (loc': Locs)
    requires Placed(k, loc) && k.started && !k.panicked && loc[idle] == InReady
    requires Holds(q, l, loc) && l.Waiting()
    ensures Settled(NextTcb(k), loc', idle) && Holds(q, l, loc') && OthersStay(loc, loc', {})
  {
    loc' := NextTcbSettles(k, loc, idle);
    Moved(q, l, loc, loc');
  }

  lemma DownSettles(k: K, s: SemaS, loc: Locs, l: Loc, idle: Tid) returns (loc': Locs)
    requires Settled(k, loc, idle) && Holds(s.queue, l, loc) && l.Waiting() && k.cur != idle
    ensures var (k', s') := Down(k, s);
            && Settled(k', loc', idle) && Holds(s'.queue, l, loc') && OthersStay(loc, loc', {k.cur})
            && s'.count == WrapI32(s.count - 1)
            && loc'[k.cur] == (if s'.count < 0 then l else InReady)
            && |s'.queue| == |s.queue| + (if s'.count < 0 then 1 else 0)
  {
    loc' := loc;
    if WrapI32(s.count - 1) < 0 {
      var k1 := BlockCurrent(k);
      BlockCurrentPlaced(k, loc, l);
      InsertHolds(s.queue, l, loc, k.cur, ByPriority(k1.tcb, k.cur));
      loc' := SwitchSettles(k1, loc[k.cur := l], idle, Enqueue(k1.tcb, s.queue, k.cur), l);
    }
  }

  /** What `up` and `up_from_isr` do to the waiters: the count decides whether the front leaves. */
  ghost predicate FrontLeaves(s: SemaS, s': SemaS, l: Loc, loc: Locs, loc': Locs) {
    && s'.count == WrapI32(s.count + 1)
    && Holds(s'.queue, l, loc')
    && (s'.count <= 0 && s.queue != [] ==>
          && s'.queue == s.queue[1..]
          && loc'[s.queue[0]] == InReady && OthersStay(loc, loc', {s.queue[0]}))
    && (s'.count > 0 || s.queue == [] ==> s'.queue == s.queue && OthersStay(loc, loc', {}))
  }

  lemma UpFromIsrSettles(k: K, s: SemaS, loc: Locs, l: Loc, idle: Tid) returns (loc': Locs)
    requires Settled(k, loc, idle) && Holds(s.queue, l, loc) && l.Waiting()
    ensures var (k', s') := UpFromIsr(k, s);
            Settled(k', loc', idle) && FrontLeaves(s, s', l, loc, loc')
  {
    loc' := loc;
    if WrapI32(s.count + 1) <= 0 && s.queue != [] {
      var w := s.queue[0];
      assert w in s.queue;
      MakeReadyPlaced(k, loc, w);
      PopHolds(s.queue, l, loc, InReady);
      loc' := loc[w := InReady];
    }
  }

  lemma UpSettles(k: K, s: SemaS, loc: Locs, l: Loc, idle: Tid) returns (loc': Locs)
    requires Settled(k, loc, idle) && Holds(s.queue, l, loc) && l.Waiting()
    ensures var (k', s') := Up(k, s);
            Settled(k', loc', idle) && FrontLeaves(s, s', l, loc, loc')
  {
    var (k1, s1) := UpFromIsr(k, s);
    loc' := UpFromIsrSettles(k, s, loc, l, idle);
    if s1.count <= 0 && s.queue != [] && k1.tcb[s.queue[0]].priority < k1.tcb[k1.cur].priority {
      var loc1 := loc';
      loc' := SwitchSettles(k1, loc1, idle, s1.queue, l);
      StillLeaves(s, s1, l, loc, loc1, loc');
    }
  }

  lemma StillLeaves(s: SemaS, s': SemaS, l: Loc, loc: Locs, loc1: Locs, loc': Locs)
    requires FrontLeaves(s, s', l, loc, loc1) && Holds(s'.queue, l, loc') && OthersStay(loc1, loc', {})
    ensures FrontLeaves(s, s', l, loc, loc')
  {
  }

  lemma BoostPlaced(k: K, loc: Locs, o: Tid)
    requires Placed(k, loc) && k.started && o != k.cur
    ensures Placed(Boost(k, o), loc)
    ensures Boost(k, o) == k.(tcb := Boost(k, o).tcb, ready := Boost(k, o).ready)
    ensures forall t: Tid :: Boost(k, o).tcb[t].status == k.tcb[t].status
  {
    var k' := Boost(k, o);
    if k.tcb[k.cur].priority < k.tcb[o].priority && k.tcb[o].status == Ready {
      assert TaskAgrees(k, loc, o);
      RemoveHolds(k.ready, InReady, loc, o, InSleep);
      InsertHolds(Remove(k.ready, o), InReady, loc[o := InSleep], o, ByPriority(k'.tcb, o));
      assert loc[o := InSleep][o := InReady] == loc;
    }
    forall u: Tid ensures TaskAgrees(k', loc, u) {
      assert TaskAgrees(k, loc, u);
    }
  }

  lemma LockSettles(k: K, m: MutexS, loc: Locs, l: Loc, idle: Tid) returns (loc': Locs)
    requires Settled(k, loc, idle) && Holds(m.queue, l, loc) && l.Waiting() && k.cur != idle
    ensures var (k', m') := Lock(k, m);
            && Settled(k', loc', idle) && Holds(m'.queue, l, loc') && OthersStay(loc, loc', {k.cur})
            && (m.owner.Some? && m.owner.value != k.cur ==> loc'[k.cur] == l)
            && (m.owner.None? || m.owner.value == k.cur ==> loc' == loc && k' == k)
  {
    loc' := loc;
    if m.owner.Some? && m.owner.value != k.cur {
      var k0 := Boost(k, m.owner.value);
      BoostPlaced(k, loc, m.owner.value);
      var k1 := BlockCurrent(k0);
      BlockCurrentPlaced(k0, loc, l);
      InsertHolds(m.queue, l, loc, k.cur, ByPriority(k1.tcb, k.cur));
      loc' := SwitchSettles(k1, loc[k.cur := l], idle, Enqueue(k1.tcb, m.queue, k.cur), l);
    }
  }

  lemma RestorePlaced(k: K, loc: Locs)
    requires Placed(k, loc)
    ensures Placed(Restore(k), loc)
  {
    var k' := Restore(k);
    forall u: Tid ensures TaskAgrees(k', loc, u) {
      assert TaskAgrees(k, loc, u);
    }
  }

  /** The places after the outermost unlock: the first waiter, if any, is on the ready list. */
  function HandedOff(m: MutexS, loc: Locs): Locs {
    if m.queue != [] then loc[m.queue[0] := InReady] else loc
  }

  lemma ReleasePlaced(k: K, m: MutexS, loc: Locs, l: Loc)
    requires Placed(k, loc) && Holds(m.queue, l, loc) && l.Waiting()
    ensures var (k', m', _) := Release(k, m);
            && Placed(k', HandedOff(m, loc)) && Holds(m'.queue, l, HandedOff(m, loc))
            && k'.cur == k.cur && k'.started == k.started && k'.panicked == k.panicked
  {
    RestorePlaced(k, loc);
    if m.queue != [] {
      assert m.queue[0] in m.queue;
      MakeReadyPlaced(Restore(k), loc, m.queue[0]);
      PopHolds(m.queue, l, loc, InReady);
    }
  }

  /** `internal_unlock`, whether the current task is on the ready list or, in `wait`, already off it.
      When it does not switch, the task table still agrees with the places. */
  lemma UnlockPlaced(k: K, m: MutexS, loc: Locs, l: Loc, idle: Tid) returns (loc': Locs)
    requires Placed(k, loc) && k.started && !k.panicked && loc[idle] == InReady
    requires Holds(m.queue, l, loc) && l.Waiting()
    ensures var (k', m', y) := Unlock(k, m);
            && Placed(k', loc') && Holds(m'.queue, l, loc')
            && k'.started && !k'.panicked && loc'[idle] == InReady
            && (y ==> loc'[k'.cur] == InReady) && (!y ==> k'.cur == k.cur)
            && (WrapU32(m.depth - 1) > 0 || m.queue == [] ==> OthersStay(loc, loc', {}))
            && (WrapU32(m.depth - 1) == 0 && m.queue != [] ==>
                  loc'[m.queue[0]] == InReady && OthersStay(loc, loc', {m.queue[0]}))
  {
    loc' := loc;
    if WrapU32(m.depth - 1) == 0 {
      var (k1, m1, y) := Release(k, m);
      ReleasePlaced(k, m, loc, l);
      loc' := HandedOff(m, loc);
      if y {
        loc' := SwitchSettles(k1, loc', idle, m1.queue, l);
      }
    }
  }

  /** `wait`: the task goes to the condition variable's queue and the mutex is released. */
  lemma CvWaitSettles(k: K, q: seq<Tid>, m: MutexS, loc: Locs, lq: Loc, lm: Loc, idle: Tid)
    returns (loc': Locs)
    requires Settled(k, loc, idle) && k.cur != idle
    requires Holds(q, lq, loc) && Holds(m.queue, lm, loc) && lq.Waiting() && lm.Waiting() && lq != lm
    ensures var (k', q', m', y) := CvWait(k, q, m);
            && Settled(k', loc', idle) && Holds(q', lq, loc') && Holds(m'.queue, lm, loc')
            && q' == q + [k.cur] && loc'[k.cur] == lq
            && (WrapU32(m.depth - 1) > 0 || m.queue == [] ==> OthersStay(loc, loc', {k.cur}))
            && (WrapU32(m.depth - 1) == 0 && m.queue != [] ==>
                  loc'[m.queue[0]] == InReady && OthersStay(loc, loc', {k.cur, m.queue[0]}))
  {
    var k0, loc0 := BlockCurrent(k), loc[k.cur := lq];
    BlockCurrentPlaced(k, loc, lq);
    PushBackHolds(q, lq, loc, k.cur);
    Moved(m.queue, lm, loc, loc0);
    assert m.queue != [] ==> m.queue[0] in m.queue;
    assert loc0 == loc[k.cur := lq] && q + [k.cur] == CvWait(k, q, m).1;
    loc' := UnlockedSettles(k0, q + [k.cur], m, loc0, lq, lm, idle);
  }

  /** The unlock of a task that is queued already, with the switch inside the unlock or after it. */
  lemma UnlockedSettles(k: K, q: seq<Tid>, m: MutexS, loc: Locs, lq: Loc, lm: Loc, idle: Tid)
    returns (loc': Locs)
    requires Placed(k, loc) && k.started && !k.panicked && loc[idle] == InReady
    requires Holds(q, lq, loc) && Holds(m.queue, lm, loc) && lq.Waiting() && lm.Waiting() && lq != lm
    ensures var (k1, m1, y) := Unlock(k, m);
            && Settled(if y then k1 else NextTcb(k1), loc', idle)
            && Holds(q, lq, loc') && Holds(m1.queue, lm, loc')
            && (WrapU32(m.depth - 1) > 0 || m.queue == [] ==> OthersStay(loc, loc', {}))
            && (WrapU32(m.depth - 1) == 0 && m.queue != [] ==>
                  loc'[m.queue[0]] == InReady && OthersStay(loc, loc', {m.queue[0]}))
  {
    assert m.queue != [] ==> m.queue[0] in m.queue;
    var (k1, m1, y) := Unlock(k, m);
    loc' := UnlockPlaced(k, m, loc, lm, idle);
    Moved(q, lq, loc, loc');
    if !y {
      var loc1 := loc';
      loc' := SwitchSettles(k1, loc1, idle, q, lq);
      Moved(m1.queue, lm, loc1, loc');
    }
  }

  lemma NotifySettles(k: K, q: seq<Tid>, loc: Locs, l: Loc, idle: Tid) returns (loc': Locs)
    requires Settled(k, loc, idle) && Holds(q, l, loc) && l.Waiting()
    ensures var (k', q') := Notify(k, q);
            && Settled(k', loc', idle) && Holds(q', l, loc')
            && (q != [] ==> loc'[q[0]] == InReady)
            && OthersStay(loc, loc', if q == [] then {} else {q[0]})
  {
    loc' := loc;
    if q != [] {
      assert q[0] in q;
      MakeReadyPlaced(k, loc, q[0]);
      PopHolds(q, l, loc, InReady);
      loc' := SwitchSettles(MakeReady(k, q[0]), loc[q[0] := InReady], idle, q[1..], l);
    }
  }

  lemma {:induction false} MakeAllReadyPlaced(k: K, q: seq<Tid>, loc: Locs, l: Loc) returns (loc': Locs)
    requires Placed(k, loc) && Holds(q, l, loc) && l.Waiting()
    ensures var k' := MakeAllReady(k, q);
            && Placed(k', loc') && Holds([], l, loc') && OthersStay(loc, loc', set t | t in q)
            && (forall t | t in q :: loc'[t] == InReady)
            && k'.cur == k.cur && k'.started == k.started && k'.panicked == k.panicked
    decreases |q|
  {
    if q == [] {
      loc' := loc;
    } else {
      assert q[0] in q;
      MakeReadyPlaced(k, loc, q[0]);
      PopHolds(q, l, loc, InReady);
      loc' := MakeAllReadyPlaced(MakeReady(k, q[0]), q[1..], loc[q[0] := InReady], l);
      assert forall t | t in q :: t == q[0] || t in q[1..];
      assert q[0] !in q[1..];
    }
  }

  lemma NotifyAllSettles(k: K, q: seq<Tid>, loc: Locs, l: Loc, idle: Tid) returns (loc': Locs)
    requires Settled(k, loc, idle) && Holds(q, l, loc) && l.Waiting()
    ensures var k' := NotifyAll(k, q);
            && Settled(k', loc', idle) && Holds([], l, loc') && OthersStay(loc, loc', set t | t in q)
            && (forall t | t in q :: loc'[t] == InReady)
  {
    loc' := loc;
    if q != [] {
      assert idle !in q && k.cur !in q;
      var loc1 := MakeAllReadyPlaced(k, q, loc, l);
      loc' := SwitchSettles(MakeAllReady(k, q), loc1, idle, [], l);
    }
  }
}
