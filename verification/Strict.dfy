/** Strict priority over whole runs, unlocks included: the ready list stays in order exactly as long as
    every unlock meets the condition of `Order.UnlockKeepsOrderIff`. */
module Strict {
  import opened Config
  import opened Place
  import opened Ordered
  import opened World
  import opened Inherit
  import opened Order
  import opened Sleep

  /** A disciplined run in which the tick counter does not wrap. */
  ghost predicate Runs(w: World, ops: seq<Op>, w': World)
    decreases |ops|
  {
    if ops == [] then w' == w
    else Enabled(w, ops[0]) && Disciplined(w, ops[0]) && NoWrap(w, ops[0]) && Runs(Next(w, ops[0]), ops[1..], w')
  }

  /** An unlock is one that keeps the order. */
  ghost predicate KeepsOrder(w: World, op: Op)
    requires Enabled(w, op)
  {
    op.UnlockOp? ==>
      w.k.tcb[w.k.cur].sub == PRI_INV || w.mutexes[op.m].depth > 1 || Requeues(w.k) || NoneOvertakes(w.k)
  }

  ghost predicate AlwaysSorted(w: World, ops: seq<Op>)
    decreases |ops|
  {
    SortedReady(w.k) && (ops == [] || (Enabled(w, ops[0]) && AlwaysSorted(Next(w, ops[0]), ops[1..])))
  }

  ghost predicate EveryUnlockKeeps(w: World, ops: seq<Op>)
    decreases |ops|
  {
    ops == [] || (Enabled(w, ops[0]) && KeepsOrder(w, ops[0]) && EveryUnlockKeeps(Next(w, ops[0]), ops[1..]))
  }

  lemma StepSortedIff(w: World, loc: Locs, op: Op)
    requires Inv(w, loc) && Exact(w) && NoneDue(w.k) && SortedReady(w.k) && Enabled(w, op)
    ensures SortedReady(Next(w, op).k) <==> KeepsOrder(w, op)
  {
    if op.UnlockOp? {
      UnlockKeepsOrderIff(w, loc, op.m);
    } else {
      StepSorted(w, loc, op);
    }
  }

  lemma {:induction false} RunSortedIff(w: World, loc: Locs, ops: seq<Op>, w': World)
    requires Inv(w, loc) && Exact(w) && NoneDue(w.k) && SortedReady(w.k) && Runs(w, ops, w')
    ensures AlwaysSorted(w, ops) <==> EveryUnlockKeeps(w, ops)
    decreases |ops|
  {
    if ops == [] {
    } else {
      StepSortedIff(w, loc, ops[0]);
      if KeepsOrder(w, ops[0]) {
        StepExact(w, loc, ops[0]);
        StepNoneDue(w, loc, ops[0]);
        var loc1 := StepInv(w, loc, ops[0]);
        RunSortedIff(Next(w, ops[0]), loc1, ops[1..], w');
      }
    }
  }

  lemma {:induction false} RunKeeps(w: World, loc: Locs, ops: seq<Op>, w': World) returns (loc': Locs)
    requires Inv(w, loc) && Exact(w) && NoneDue(w.k) && SortedReady(w.k) && Runs(w, ops, w')
    requires EveryUnlockKeeps(w, ops)
    ensures Inv(w', loc') && Exact(w') && NoneDue(w'.k) && SortedReady(w'.k)
    decreases |ops|
  {
    if ops == [] {
      loc' := loc;
    } else {
      StepSortedIff(w, loc, ops[0]);
      StepExact(w, loc, ops[0]);
      StepNoneDue(w, loc, ops[0]);
      var loc1 := StepInv(w, loc, ops[0]);
      loc' := RunKeeps(Next(w, ops[0]), loc1, ops[1..], w');
    }
  }

  /** From boot, in runs of tasks with one mutex at a time, the ready list is in order in every state
      exactly if every unlock of the run meets the condition. */
  lemma AlwaysSortedIff(w0: World, ops: seq<Op>, w: World)
    requires Initial(w0) && Runs(w0, ops, w)
    ensures AlwaysSorted(w0, ops) <==> EveryUnlockKeeps(w0, ops)
  {
    InitialInv(w0);
    InitialExact(w0);
    RunSortedIff(w0, seq(TASK_MAX, _ => Dead), ops, w);
  }

  /** In such a run every change of the current task is to a most urgent ready task. */
  lemma StrictWhileUnlocksKeep(w0: World, ops: seq<Op>, w: World, op: Op)
    requires Initial(w0) && Runs(w0, ops, w) && EveryUnlockKeeps(w0, ops)
    requires Enabled(w, op) && KeepsOrder(w, op)
    ensures SortedReady(Next(w, op).k)
    ensures Next(w, op).k.cur != w.k.cur ==> CurrentMostUrgent(Next(w, op).k)
  {
    InitialInv(w0);
    InitialExact(w0);
    var loc := RunKeeps(w0, seq(TASK_MAX, _ => Dead), ops, w);
    StepSortedIff(w, loc, op);
    StepChooses(w, loc, op);
  }
}
