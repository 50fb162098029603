/** What the executor's invariant means for whole runs: no task is forgotten, every pass serves every
    task that can run, and the one interleaving that loses a task. */
module ExecutorRuns {
  import opened Config
  import opened TimerHeap
  import opened Executor

  ghost predicate Reaches(s: State, ops: seq<Op>, s': State, d: nat, l: nat)
    decreases |ops|
  {
    if ops == [] then s' == s
    else Enabled(s, ops[0]) && Allowed(s, ops[0], d, l) && Reaches(Next(s, ops[0]), ops[1..], s', d, l)
  }

  lemma {:induction false} RunInv(s: State, ops: seq<Op>, s': State, d: nat, l: nat)
    requires Inv(s, d, l) && d + l < HALF && Reaches(s, ops, s', d, l)
    ensures Inv(s', d, l)
    decreases |ops|
  {
    if ops == [] {
    } else {
      StepInv(s, ops[0], d, l);
      RunInv(Next(s, ops[0]), ops[1..], s', d, l);
    }
  }

  lemma ReachableInv(ops: seq<Op>, s: State, d: nat, l: nat)
    requires d + l < HALF && Reaches(Start(), ops, s, d, l)
    ensures Inv(s, d, l)
  {
    StartInv(d, l);
    RunInv(Start(), ops, s, d, l);
  }

  // ---- No task is forgotten ----------------------------------------------------------------

  ghost predicate NoEntry(q: seq<Entry>, i: nat) {
    forall j | 0 <= j < |q| :: q[j].slot != i
  }

  ghost predicate OneEntry(q: seq<Entry>, i: nat) {
    exists j | 0 <= j < |q| :: q[j].slot == i && forall k | 0 <= k < |q| && k != j :: q[k].slot != i
  }

  lemma EntriesOf(s: State, i: nat)
    requires QueueOk(s) && i < POOL_MAX
    ensures if Waiting(s, i) then OneEntry(s.timers, i) else NoEntry(s.timers, i)
  {
    var q := s.timers;
    assert forall j | 0 <= j < |q| :: q[j] in multiset(q);
    if Waiting(s, i) {
      var e := EntryOf(s, i);
      assert e in multiset(q);
      assert e in q;
      var j :| 0 <= j < |q| && q[j] == e;
      forall k | 0 <= k < |q| && k != j ensures q[k].slot != i {
        if q[k].slot == i {
          Twice(q, if j < k then j else k, if j < k then k else j);
        }
      }
    }
  }

  /** In every state of a run whose delays and lateness stay below half the tick range together:
      an occupied slot is ready to be polled, or being polled, or has exactly one timer entry; a free
      slot has none; and the queue has room whenever a timer is about to be pushed. */
  lemma NoTaskForgotten(ops: seq<Op>, s: State, d: nat, l: nat)
    requires d + l < HALF && Reaches(Start(), ops, s, d, l)
    ensures forall i | 0 <= i < POOL_MAX && s.tasks[i].Some? ::
              if s.ready[i] || InPoll(s, i) then NoEntry(s.timers, i) else OneEntry(s.timers, i)
    ensures forall i | 0 <= i < POOL_MAX && s.tasks[i].None? :: !s.ready[i] && NoEntry(s.timers, i)
    ensures s.pc.Registering? ==> |s.timers| < POOL_MAX
  {
    ReachableInv(ops, s, d, l);
    forall i | 0 <= i < POOL_MAX
      ensures s.tasks[i].Some? ==>
                if s.ready[i] || InPoll(s, i) then NoEntry(s.timers, i) else OneEntry(s.timers, i)
      ensures s.tasks[i].None? ==> !s.ready[i] && NoEntry(s.timers, i)
    {
      assert SlotOk(s, i, d, l);
      EntriesOf(s, i);
    }
    if s.pc.Registering? {
      RoomToPush(s, d, l);
    }
  }

  /** The poll of the timer that slot `i` is suspended at returns Ready. */
  predicate Completes(s: State, i: nat)
    requires s.pc == Polling(i) && AtSlot(s) && Timed(s, i)
  {
    Next(s, Poll).tasks[i] == Some(s.tasks[i].value.(current := None))
  }

  /** A timer completes when it is polled exactly if the tick it was created for has come: never
      early, and always once its entry has been popped. */
  lemma TimerExact(ops: seq<Op>, s: State, d: nat, l: nat)
    requires d + l < HALF && Reaches(Start(), ops, s, d, l)
    requires s.pc.Polling? && AtSlot(s) && Timed(s, s.pc.i)
    ensures Completes(s, s.pc.i) <==> s.due[s.pc.i] <= s.now
    ensures Registered(s, s.pc.i) ==> s.due[s.pc.i] <= s.now
  {
    ReachableInv(ops, s, d, l);
    assert SlotOk(s, s.pc.i, d, l);
    OnTimeKey(s, s.pc.i, d, l);
  }

  /** The delay that was asked for must be at most half the range: `delay` is over at once exactly if
      it is zero or more than that. */
  lemma DelayOverAtOnceIff(now: nat, ms: nat)
    requires ms < U32
    ensures TimerHeap.Due(WrapU32(now), WrapU32(now + ms)) <==> ms == 0 || ms > HALF
  {
    WrappedOrder(now, now + ms);
  }

  // ---- Every pass serves every task that can run -------------------------------------------

  /** Slot `i` has got on since it had `n` items left and `c` futures had been completed there. */
  predicate Served(s: State, i: nat, n: nat, c: nat)
    requires i < POOL_MAX
  {
    s.finished[i] > c || (s.finished[i] == c && s.tasks[i].Some? && |s.tasks[i].value.rest| < n)
  }

  /** The pass has not come to slot `i` yet, or has just begun to poll it. */
  predicate ToServe(s: State, i: nat, n: nat, c: nat)
    requires i < POOL_MAX
  {
    && s.finished[i] == c && s.tasks[i].Some? && |s.tasks[i].value.rest| == n
    && (match s.pc
        case Idle => false
        case Scan(k) => k <= i && s.ready[i]
        case Polling(k) =>
          (k < i && s.ready[i])
          || (k == i && (var a := s.tasks[i].value.current; a.None? || a == Some(YieldOnce(true)) || Registered(s, i)))
        case Registering(k) => k < i && s.ready[i]
        case Clearing(k) => k < i && s.ready[i])
  }

  lemma StaysServed(s: State, op: Op, i: nat, n: nat, c: nat)
    requires Enabled(s, op) && i < POOL_MAX && Served(s, i, n, c)
    ensures Served(Next(s, op), i, n, c)
  {
  }

  lemma LookServes(s: State, i: nat, n: nat, c: nat, d: nat, l: nat)
    requires Inv(s, d, l) && Enabled(s, Look) && i < POOL_MAX && ToServe(s, i, n, c)
    ensures ToServe(Next(s, Look), i, n, c)
  {
    assert SlotOk(s, i, d, l);
  }

  lemma PollServes(s: State, i: nat, n: nat, c: nat, d: nat, l: nat)
    requires Inv(s, d, l) && d + l < HALF && Enabled(s, Poll) && i < POOL_MAX && ToServe(s, i, n, c)
    ensures ToServe(Next(s, Poll), i, n, c) || Served(Next(s, Poll), i, n, c)
  {
    if Registered(s, s.pc.i) {
      PoppedIsDue(s, d, l);
    }
  }

  lemma StepServes(s: State, op: Op, i: nat, n: nat, c: nat, d: nat, l: nat)
    requires Inv(s, d, l) && d + l < HALF && Enabled(s, op) && i < POOL_MAX
    requires ToServe(s, i, n, c) || Served(s, i, n, c)
    ensures ToServe(Next(s, op), i, n, c) || Served(Next(s, op), i, n, c)
  {
    if Served(s, i, n, c) {
      StaysServed(s, op, i, n, c);
    } else if op.Look? {
      LookServes(s, i, n, c, d, l);
    } else if op.Poll? {
      PollServes(s, i, n, c, d, l);
    }
  }

  lemma {:induction false} RunServes(s: State, ops: seq<Op>, s': State, i: nat, n: nat, c: nat, d: nat, l: nat)
    requires Inv(s, d, l) && d + l < HALF && Reaches(s, ops, s', d, l) && i < POOL_MAX
    requires ToServe(s, i, n, c) || Served(s, i, n, c)
    ensures ToServe(s', i, n, c) || Served(s', i, n, c)
    decreases |ops|
  {
    if ops == [] {
    } else {
      StepServes(s, ops[0], i, n, c, d, l);
      StepInv(s, ops[0], d, l);
      RunServes(Next(s, ops[0]), ops[1..], s', i, n, c, d, l);
    }
  }

  /** A pass, from `wake_expired` to the end of the loop, gets every task on that is ready or whose
      timer is due when it begins, whatever is spawned and however many ticks come meanwhile: the task
      has completed, or has fewer items left. */
  lemma PassServesAll(before: seq<Op>, s: State, ops: seq<Op>, s': State, i: nat, d: nat, l: nat)
    requires d + l < HALF && Reaches(Start(), before, s, d, l)
    requires s.pc.Idle? && Reaches(Next(s, Pass), ops, s', d, l) && s'.pc.Idle?
    requires i < POOL_MAX && s.tasks[i].Some? && (s.ready[i] || s.due[i] <= s.now)
    ensures Served(s', i, |s.tasks[i].value.rest|, s.finished[i])
  {
    ReachableInv(before, s, d, l);
    assert SlotOk(s, i, d, l);
    PassFlags(s, d, l);
    PassInv(s, d, l);
    RunServes(Next(s, Pass), ops, s', i, |s.tasks[i].value.rest|, s.finished[i], d, l);
  }

  // ---- A pass ends -------------------------------------------------------------------------

  function Outer(s: State): nat {
    match s.pc
    case Idle => 0
    case Scan(i) => if i >= POOL_MAX then 2 else 2 * (POOL_MAX + 1 - i)
    case Polling(i) => if i >= POOL_MAX then 0 else 2 * (POOL_MAX + 1 - i) - 1
    case Registering(i) => if i >= POOL_MAX then 0 else 2 * (POOL_MAX + 1 - i) - 1
    case Clearing(i) => if i >= POOL_MAX then 0 else 2 * (POOL_MAX + 1 - i) - 1
  }

  function Inner(s: State): nat {
    match s.pc
    case Polling(i) =>
      if i < POOL_MAX && s.tasks[i].Some? then
        var f := s.tasks[i].value;
        2 + 2 * |f.rest| + (if f.current.Some? then 1 else 0)
      else 0
    case _ => 0
  }

  /** In the middle of a pass exactly one executor step can be taken, and it brings the end nearer;
      ticks and spawns do not put it off. */
  lemma PassEnds(ops: seq<Op>, s: State, d: nat, l: nat)
    requires d + l < HALF && Reaches(Start(), ops, s, d, l) && !s.pc.Idle?
    ensures Enabled(s, Look) || Enabled(s, Poll) || Enabled(s, Register) || Enabled(s, Unready)
    ensures forall op | op in {Look, Poll, Register, Unready} && Enabled(s, op) ::
              var s' := Next(s, op);
              Outer(s') < Outer(s) || (Outer(s') == Outer(s) && Inner(s') < Inner(s))
    ensures Outer(Next(s, Tick)) == Outer(s) && Inner(Next(s, Tick)) == Inner(s)
    ensures forall script :: Outer(Next(s, Spawn(script))) == Outer(s) && Inner(Next(s, Spawn(script))) == Inner(s)
  {
    ReachableInv(ops, s, d, l);
    forall op | op in {Look, Poll, Register, Unready} && Enabled(s, op)
      ensures Outer(Next(s, op)) < Outer(s) || (Outer(Next(s, op)) == Outer(s) && Inner(Next(s, op)) < Inner(s))
    {
      ExecutorAdvances(s, op);
    }
  }

  lemma ExecutorAdvances(s: State, op: Op)
    requires op in {Look, Poll, Register, Unready} && Enabled(s, op)
    ensures var s' := Next(s, op);
            Outer(s') < Outer(s) || (Outer(s') == Outer(s) && Inner(s') < Inner(s))
  {
  }

  // ---- The interleaving that loses a task --------------------------------------------------

  /** Slot `i` holds a task that is not ready, is not being polled and has no timer entry. */
  ghost predicate Lost(s: State, i: nat)
    requires i < POOL_MAX
  {
    s.tasks[i].Some? && !s.ready[i] && !InPoll(s, i) && NoEntry(s.timers, i)
  }

  /** `clear` frees the slot one assignment before it resets the flag. A spawn that comes in between is
      lost exactly if the slot being cleared is the first free one. */
  lemma SpawnLostIff(s: State, script: seq<Item>, d: nat, l: nat)
    requires Inv(s, d, l) && s.pc.Clearing?
    ensures var s1 := Next(s, Spawn(script));
            Enabled(s1, Unready) && (Lost(Next(s1, Unready), s.pc.i) <==> FirstFree(s.tasks, 0) == Some(s.pc.i))
  {
    assert SlotOk(s, s.pc.i, d, l);
    EntriesOf(s, s.pc.i);
  }

  /** And it happens: a run from the start of one task that completes, with another spawned while its
      slot is being cleared. */
  lemma SpawnCanBeLost(d: nat, l: nat)
    ensures exists s ::
              && Reaches(Start(), [Spawn([]), Pass, Look, Poll], s, d, l)
              && s.pc == Clearing(0) && Enabled(s, Spawn([])) && Enabled(Next(s, Spawn([])), Unready)
              && Lost(Next(Next(s, Spawn([])), Unready), 0)
  {
    var s1 := Next(Start(), Spawn([]));
    assert FirstFree(Start().tasks, 0) == Some(0);
    var s2 := Next(s1, Pass);
    var s3 := Next(s2, Look);
    var s4 := Next(s3, Poll);
    assert Reaches(s4, [], s4, d, l);
    assert [Poll][1..] == [] && [Look, Poll][1..] == [Poll] && [Pass, Look, Poll][1..] == [Look, Poll];
    assert Reaches(s3, [Poll], s4, d, l);
    assert Reaches(s2, [Look, Poll], s4, d, l);
    assert Reaches(s1, [Pass, Look, Poll], s4, d, l);
    assert [Spawn([]), Pass, Look, Poll][1..] == [Pass, Look, Poll];
    assert FirstFree(s4.tasks, 0) == Some(0);
    assert Lost(Next(Next(s4, Spawn([])), Unready), 0);
  }

  lemma SameMembers(q: seq<Entry>, q': seq<Entry>, i: nat)
    requires NoEntry(q, i) && multiset(q') <= multiset(q)
    ensures NoEntry(q', i)
  {
    forall j | 0 <= j < |q'| ensures q'[j].slot != i {
      assert q'[j] in multiset(q');
      assert q'[j] in multiset(q);
      assert q'[j] in q;
    }
  }

  lemma StaysLost(s: State, op: Op, i: nat)
    requires i < POOL_MAX && Lost(s, i) && Enabled(s, op)
    ensures Lost(Next(s, op), i) && Next(s, op).tasks[i] == s.tasks[i]
  {
    if op.Pass? {
      var (woken, rest) := Expire(s.timers, WrapU32(s.now));
      ExpireMembers(s.timers, WrapU32(s.now));
      SameMembers(s.timers, woken, i);
      SameMembers(s.timers, rest, i);
      FlagExact(s.ready, woken);
    } else if op.Register? {
      var e := Entry(s.tasks[s.pc.i].value.current.value.wake, s.pc.i);
      if |s.timers| < POOL_MAX {
        PushMembers(s.timers, e);
        SameMembers(s.timers + [e], Push(s.timers, e), i);
      }
    }
  }

  /** A run without any assumption on its surroundings. */
  ghost predicate Runs(s: State, ops: seq<Op>, s': State)
    decreases |ops|
  {
    if ops == [] then s' == s else Enabled(s, ops[0]) && Runs(Next(s, ops[0]), ops[1..], s')
  }

  /** A lost task is never polled again, and its slot never freed. */
  lemma {:induction false} LostForever(s: State, ops: seq<Op>, s': State, i: nat)
    requires i < POOL_MAX && Lost(s, i) && Runs(s, ops, s')
    ensures Lost(s', i) && s'.tasks[i] == s.tasks[i]
    decreases |ops|
  {
    if ops == [] {
    } else {
      StaysLost(s, ops[0], i);
      LostForever(Next(s, ops[0]), ops[1..], s', i);
    }
  }
}
