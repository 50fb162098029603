/** The executor's slots, flags and timers in place. While a pass goes on the tick counter advances and
    other tasks spawn, at any point between two accesses to shared state; every execution is proved to be
    a run of the step machine. */
module AsyncPools {
  import opened Config
  import opened TimerHeap
  import opened TimerQueues
  import opened Executor
  import opened ExecutorRuns

  lemma {:induction false} RunsAppend(s: State, a: seq<Op>, t: State, b: seq<Op>, u: State)
    requires Runs(s, a, t) && Runs(t, b, u)
    ensures Runs(s, a + b, u)
    decreases |a|
  {
    if a == [] {
      assert a + b == b;
    } else {
      assert (a + b)[1..] == a[1..] + b;
      RunsAppend(Next(s, a[0]), a[1..], t, b, u);
    }
  }

  lemma RunsThen(s: State, a: seq<Op>, t: State, op: Op)
    requires Runs(s, a, t) && Enabled(t, op)
    ensures Runs(s, a + [op], Next(t, op))
  {
    assert Runs(Next(t, op), [], Next(t, op)) && [op][1..] == [];
    assert Runs(t, [op], Next(t, op));
    RunsAppend(s, a, t, [op], Next(t, op));
  }

  class AsyncPool {
    const task: array<Option<Future>>
    const ready: array<bool>
    const timers: TimerQueue
    /** The tick counter, before it is stored in a `u32`. */
    var now: nat
    ghost var pc: Pc
    ghost var due: Times
    ghost var finished: Times
    ghost const Repr: set<object>

    ghost predicate Valid()
      reads this, timers
    {
      && task.Length == POOL_MAX && ready.Length == POOL_MAX && timers.Valid()
      && Repr == {this, task, ready, timers, timers.data}
      && timers.data != (task as object) && timers.data != (ready as object)
    }

    ghost function V(): State
      requires Valid()
      reads this, timers, Repr
    {
      State(now, task[..], ready[..], timers.Entries(), pc, due, finished)
    }

    constructor ()
      ensures Valid() && fresh(Repr) && V() == Start()
    {
      var t := new Option<Future>[POOL_MAX](_ => None);
      var r := new bool[POOL_MAX](_ => false);
      var q := new TimerQueue();
      task, ready, timers := t, r, q;
      now, pc := 0, Idle;
      due, finished := seq(POOL_MAX, _ => 0), seq(POOL_MAX, _ => 0);
      Repr := {this, t, r, q, q.data};
      new;
      assert task[..] == Start().tasks && ready[..] == Start().ready;
    }

    method Spawn(script: seq<Item>) returns (ok: bool)
      requires Valid()
      modifies task, ready
      ensures Valid() && V() == Next(old(V()), Op.Spawn(script))
      ensures ok == FirstFree(old(task[..]), 0).Some?
      ensures forall i | 0 <= i < POOL_MAX && old(task[i]).Some? :: task[i] == old(task[i]) && ready[i] == old(ready[i])
    {
      var i := 0;
      while i < POOL_MAX
        invariant 0 <= i <= POOL_MAX && Valid() && V() == old(V())
        invariant FirstFree(task[..], i) == FirstFree(task[..], 0)
      {
        if task[i].None? {
          task[i] := Some(Future(None, script));
          ready[i] := true;
          return true;
        }
        i := i + 1;
      }
      ok := false;
    }

    /** What goes on around the executor: any number of ticks and spawns, added to the run so far. */
    method Others(ghost s: State, ghost ops: seq<Op>) returns (ghost ops': seq<Op>)
      requires Valid() && Runs(s, ops, V())
      modifies `now, task, ready
      ensures Valid() && Runs(s, ops', V()) && ops <= ops' && (Poll in ops' <==> Poll in ops)
      ensures forall i | 0 <= i < POOL_MAX && old(task[i]).Some? :: task[i] == old(task[i]) && ready[i] == old(ready[i])
    {
      ops' := ops;
      var n :| 0 <= n;
      for i := 0 to n
        invariant Valid() && Runs(s, ops', V()) && ops <= ops' && (Poll in ops' <==> Poll in ops)
        invariant forall i | 0 <= i < POOL_MAX && old(task[i]).Some? ::
                    task[i] == old(task[i]) && ready[i] == old(ready[i])
      {
        if * {
          RunsThen(s, ops', V(), Tick);
          now := now + 1;
          ops' := ops' + [Tick];
        } else {
          var script: seq<Item> := *;
          RunsThen(s, ops', V(), Op.Spawn(script));
          var _ := Spawn(script);
          ops' := ops' + [Op.Spawn(script)];
        }
      }
    }

    /** `poll_all`, amid whatever goes on around it: a run of the step machine from one idle state to the
        next that begins with `wake_expired`; it reports work exactly if it polled something. */
    method PollAll() returns (didWork: bool, ghost ops: seq<Op>)
      requires Valid() && pc == Idle
      modifies Repr
      ensures Valid() && pc == Idle
      ensures ops != [] && ops[0] == Pass && Runs(old(V()), ops, V())
      ensures didWork <==> Poll in ops
    {
      ghost var s := V();
      timers.WakeExpired(WrapU32(now), ready);
      pc := Scan(0);
      RunsThen(s, [], s, Pass);
      ops := [] + [Pass];
      didWork := false;
      var idx: nat := 0;
      while idx < POOL_MAX
        invariant Valid() && idx <= POOL_MAX && pc == Scan(idx)
        invariant ops != [] && ops[0] == Pass && Runs(s, ops, V()) && (didWork <==> Poll in ops)
      {
        ghost var before := V();
        var worked, more := Visit(idx);
        RunsAppend(s, ops, before, more, V());
        ops := ops + more;
        didWork := didWork || worked;
        idx := idx + 1;
      }
      RunsThen(s, ops, V(), Look);
      pc := Idle;
      ops := ops + [Look];
    }

    /** One turn of the loop: slot `idx` is passed over, or polled, and cleared if its future is done. */
    method Visit(idx: nat) returns (worked: bool, ghost ops: seq<Op>)
      requires Valid() && idx < POOL_MAX && pc == Scan(idx)
      modifies Repr
      ensures Valid() && pc == Scan(idx + 1) && Runs(old(V()), ops, V()) && (worked <==> Poll in ops)
    {
      ghost var s := V();
      ops := Others(s, []);
      RunsThen(s, ops, V(), Look);
      ops := ops + [Look];
      worked := task[idx].Some? && ready[idx];
      if worked {
        ready[idx] := false;
        pc := Polling(idx);
        var completed;
        completed, ops := PollFuture(idx, s, ops);
        if completed {
          ops := ResetFlag(idx, s, ops);
        }
      } else {
        pc := Scan(idx + 1);
      }
    }

    /** The second assignment of `clear`. */
    method ResetFlag(idx: nat, ghost s: State, ghost ops: seq<Op>) returns (ghost ops': seq<Op>)
      requires Valid() && idx < POOL_MAX && pc == Clearing(idx) && Runs(s, ops, V())
      modifies Repr
      ensures Valid() && Runs(s, ops', V()) && pc == Scan(idx + 1) && (Poll in ops' <==> Poll in ops)
    {
      ops' := Others(s, ops);
      RunsThen(s, ops', V(), Unready);
      ready[idx] := false;
      pc := Scan(idx + 1);
      ops' := ops' + [Unready];
    }

    /** Polls the future in slot `idx` until it completes, which frees the slot, or is suspended. */
    method PollFuture(idx: nat, ghost s: State, ghost ops: seq<Op>) returns (completed: bool, ghost ops': seq<Op>)
      requires Valid() && idx < POOL_MAX && task[idx].Some? && pc == Polling(idx) && Runs(s, ops, V())
      modifies Repr
      ensures Valid() && Runs(s, ops', V()) && Poll in ops'
      ensures pc == if completed then Clearing(idx) else Scan(idx + 1)
    {
      ops' := ops;
      var pending := true;
      completed := false;
      while pending
        invariant Valid() && Runs(s, ops', V())
        invariant if pending then task[idx].Some? && pc == Polling(idx)
                  else Poll in ops' && pc == if completed then Clearing(idx) else Scan(idx + 1)
        decreases pending, if task[idx].Some? then Left(task[idx].value) else 0
      {
        ops' := Others(s, ops');
        RunsThen(s, ops', V(), Poll);
        ops' := ops' + [Poll];
        var registers;
        pending, completed, registers := PollStep(idx);
        if registers {
          ops' := PushTimer(idx, s, ops');
        }
      }
    }

    /** The critical section in which a timer found not due is pushed. */
    method PushTimer(idx: nat, ghost s: State, ghost ops: seq<Op>) returns (ghost ops': seq<Op>)
      requires Valid() && idx < POOL_MAX && pc == Registering(idx) && AtSlot(V()) && Runs(s, ops, V())
      modifies Repr
      ensures Valid() && Runs(s, ops', V()) && pc == Scan(idx + 1) && (Poll in ops' <==> Poll in ops)
    {
      ops' := Others(s, ops);
      RunsThen(s, ops', V(), Register);
      timers.Push(Entry(task[idx].value.current.value.wake, idx));
      pc := Scan(idx + 1);
      ops' := ops' + [Register];
    }

    /** One await: created, found complete, or found pending. */
    method PollStep(idx: nat) returns (pending: bool, completed: bool, registers: bool)
      requires Valid() && idx < POOL_MAX && task[idx].Some? && pc == Polling(idx)
      modifies this, task, ready
      ensures Valid() && V() == Next(old(V()), Poll)
      ensures if pending
              then task[idx].Some? && pc == Polling(idx) && Left(task[idx].value) < Left(old(task[idx]).value)
              else pc == if completed then Clearing(idx) else if registers then Registering(idx) else Scan(idx + 1)
      ensures registers ==> !pending && !completed && AtSlot(V())
    {
      var f := task[idx].value;
      pending, completed, registers := false, false, false;
      if f.current.None? {
        if f.rest == [] {
          task[idx] := None;
          finished := finished[idx := finished[idx] + 1];
          pc := Clearing(idx);
          completed := true;
        } else {
          Begin(idx, f);
          pending := true;
        }
      } else if f.current.value.Timer? && !TimerHeap.Due(WrapU32(now), f.current.value.wake) {
        registers := !f.current.value.registered;
        if registers {
          task[idx] := Some(f.(current := Some(Timer(f.current.value.wake, true))));
          pc := Registering(idx);
        } else {
          pc := Scan(idx + 1);
        }
      } else if f.current.value == YieldOnce(false) {
        task[idx] := Some(f.(current := Some(YieldOnce(true))));
        ready[idx] := true;
        pc := Scan(idx + 1);
      } else {
        task[idx] := Some(f.(current := None));
        pending := true;
      }
    }

    /** The body of the task goes on to the delay or yield it awaits next. */
    method Begin(idx: nat, f: Future)
      requires Valid() && idx < POOL_MAX && task[idx] == Some(f) && f.current.None? && f.rest != []
      modifies `due, task
      ensures Valid() && V() == NextItem(old(V()), idx, f)
    {
      match f.rest[0] {
        case Sleep(ms) =>
          task[idx] := Some(Future(Some(Timer(WrapU32(now + ms), false)), f.rest[1..]));
          due := due[idx := now + ms];
        case YieldNow =>
          task[idx] := Some(Future(Some(YieldOnce(false)), f.rest[1..]));
      }
    }
  }

  /** How often a future can still be polled without being suspended. */
  function Left(f: Future): nat {
    2 * |f.rest| + (if f.current.Some? then 1 else 0)
  }
}
