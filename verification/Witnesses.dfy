/** Runs from boot to the states in which a yield to an equal is ignored, and in which the next tick
    does not preempt. */
module Witnesses {
  import opened Config
  import opened KernelSpec
  import opened SyncSpec
  import opened Place
  import opened World
  import opened Safety
  import opened Inversion
  import Slices

  /** The third task. */
  const THIRD: Tid := 2

  lemma Cons(w: World, op: Op, w1: World, ops: seq<Op>, w': World)
    requires Enabled(w, op) && w1 == Next(w, op) && Reaches(w1, ops, w')
    ensures Reaches(w, [op] + ops, w')
  {
    assert ([op] + ops)[1..] == ops;
  }

  /** From boot: a task of priority 3 is running, then `rest` happens. */
  lemma Opened(w: World, rest: seq<Op>, w': World) returns (ops: seq<Op>)
    requires IsOpening(w) && Reaches(w, rest, w')
    ensures Reaches(Begin(), ops, w')
  {
    var w1 := Next(Begin(), CreateOp(3));
    Cons(w1, LaunchOp, w, rest, w');
    Cons(Begin(), CreateOp(3), w1, [LaunchOp] + rest, w');
    ops := [CreateOp(3)] + ([LaunchOp] + rest);
  }

  lemma One(w: World, op: Op, w': World)
    requires Enabled(w, op) && w' == Next(w, op)
    ensures Reaches(w, [op], w')
  {
    assert Reaches(w', [], w') && [op] + [] == [op];
    Cons(w, op, w', [], w');
  }

  ghost predicate IsOpening(w: World) {
    && Enabled(Begin(), CreateOp(3))
    && Enabled(Next(Begin(), CreateOp(3)), LaunchOp)
    && w == Next(Next(Begin(), CreateOp(3)), LaunchOp)
  }

  lemma Running() returns (w: World)
    ensures Initial(Begin()) && IsOpening(w)
    ensures Is(w, 2, [LOW, IDLE], LOW, LOW0, EMPTY_TCB, MutexS(None, 0, []), Run)
  {
    var w1 := Created();
    w := Launched(w1);
  }

  // ---- The next tick -----------------------------------------------------------------------

  lemma BecomesFront(w: World) returns (w': World)
    requires Is(w, 2, [LOW, IDLE], LOW, LOW0, EMPTY_TCB, MutexS(None, 0, []), Run)
    ensures Enabled(w, CreateRawOp(1)) && w' == Next(w, CreateRawOp(1))
    ensures w'.k.ready == [THIRD, LOW, IDLE] && w'.k.cur == LOW && w'.k.started && w'.k.sleeping == []
    ensures w'.k.tcb[LOW] == LOW0 && w'.k.tcb[THIRD].priority == 1 && |w'.held| == |w'.mutexes|
  {
    Fresh(w.k, 2, 1);
    var k1 := CreateRaw(w.k, 1).0;
    EnqueueAt(k1.tcb, [], THIRD, [LOW, IDLE]);
    assert k1.ready == [THIRD, LOW, IDLE];
    w' := Next(w, CreateRawOp(1));
  }

  lemma PassedBy(w: World)
    requires w.k.ready == [THIRD, LOW, IDLE] && w.k.cur == LOW && w.k.started && w.k.sleeping == []
    requires w.k.tcb[LOW] == LOW0 && |w.held| == |w.mutexes|
    ensures Enabled(w, SystickOp(0, false)) && Next(w, SystickOp(0, false)).k.cur == LOW
  {
    Slices.TicksSlice(w.k, 1);
    TicksFrame(w.k, 1);
  }

  /** After `create_raw` made a more urgent task ready the next tick comes and the current task goes on. */
  lemma TickCanPassBy()
    ensures exists w0, ops, w ::
              && Initial(w0) && Reaches(w0, ops, w) && Enabled(w, SystickOp(0, false))
              && w.k.ready == [THIRD, LOW, IDLE] && w.k.tcb[THIRD].priority < w.k.tcb[LOW].priority
              && w.k.cur == LOW == Next(w, SystickOp(0, false)).k.cur
  {
    var w := Running();
    var w1 := BecomesFront(w);
    One(w, CreateRawOp(1), w1);
    var ops := Opened(w, [CreateRawOp(1)], w1);
    PassedBy(w1);
  }

  // ---- The yield ---------------------------------------------------------------------------

  /** A whole slice passes, and the task is selected again. */
  lemma SelectedAgain(w: World) returns (w': World)
    requires Is(w, 2, [LOW, IDLE], LOW, LOW0, EMPTY_TCB, MutexS(None, 0, []), Run)
    ensures Enabled(w, SystickOp(49, false)) && w' == Next(w, SystickOp(49, false))
    ensures Is(w', 2, [LOW, IDLE], LOW, LOW1, EMPTY_TCB, MutexS(None, 0, []), Run)
  {
    var (k1, r) := Ticks(w.k, 50);
    Slices.TicksSlice(w.k, 50);
    TicksFrame(w.k, 50);
    RemoveFrom([], LOW, [IDLE]);
    assert [] + [LOW] + [IDLE] == k1.ready && [] + [IDLE] == [IDLE];
    SwitchAt(k1, [], [IDLE]);
    w' := Next(w, SystickOp(49, false));
    assert w'.k.tcb[LOW] == LOW1;
  }

  lemma EqualArrives(w: World) returns (w': World)
    requires Is(w, 2, [LOW, IDLE], LOW, LOW1, EMPTY_TCB, MutexS(None, 0, []), Run)
    ensures Enabled(w, CreateRawOp(3)) && w' == Next(w, CreateRawOp(3))
    ensures w'.k.ready == [LOW, THIRD, IDLE] && w'.k.cur == LOW && w'.k.started && w'.k.sleeping == []
    ensures w'.k.tcb[LOW] == LOW1 && w'.k.tcb[THIRD].priority == 3 && w'.pc[LOW] == Run && w'.idle == IDLE
    ensures |w'.held| == |w'.mutexes|
  {
    Fresh(w.k, 2, 3);
    var k1 := CreateRaw(w.k, 3).0;
    EnqueueAt(k1.tcb, [LOW], THIRD, [IDLE]);
    assert [LOW] + [IDLE] == [LOW, IDLE] && [LOW] + [THIRD] + [IDLE] == [LOW, THIRD, IDLE];
    w' := Next(w, CreateRawOp(3));
  }

  lemma NothingChanges(k: K)
    requires k.ready == [LOW, THIRD, IDLE] && k.cur == LOW && k.sleeping == [] && k.tcb[LOW] == LOW1
    ensures NextTcb(k) == k
  {
    assert WakeSleepers(k, 0) == k && Requeue(k) == k;
  }

  lemma RunToYield() returns (ops: seq<Op>, w: World)
    ensures Initial(Begin()) && Reaches(Begin(), ops, w) && Enabled(w, YieldOp)
    ensures w.k.ready == [LOW, THIRD, IDLE] && w.k.tcb[THIRD].priority == w.k.tcb[LOW].priority
    ensures w.k.cur == LOW && NextTcb(w.k) == w.k
  {
    var w0 := Running();
    var w1 := SelectedAgain(w0);
    w := EqualArrives(w1);
    One(w1, CreateRawOp(3), w);
    Cons(w0, SystickOp(49, false), w1, [CreateRawOp(3)], w);
    ops := Opened(w0, [SystickOp(49, false)] + [CreateRawOp(3)], w);
    NothingChanges(w.k);
  }

  /** A task that was selected again yields, an equal is ready behind it, and it goes on. */
  lemma YieldCanBeIgnored()
    ensures exists w0, ops, w ::
              && Initial(w0) && Reaches(w0, ops, w) && Enabled(w, YieldOp)
              && w.k.ready == [LOW, THIRD, IDLE] && w.k.tcb[THIRD].priority == w.k.tcb[LOW].priority
              && w.k.cur == LOW == Next(w, YieldOp).k.cur
  {
    var ops, w := RunToYield();
    assert Next(w, YieldOp).k == NextTcb(w.k);
  }
}
