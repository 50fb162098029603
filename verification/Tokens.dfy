/** Semaphore tokens are conserved over every interleaving. */
module Tokens {
  import opened Config
  import opened Lists
  import opened SyncSpec
  import opened Place
  import opened SyncPlace
  import opened World
  import opened Safety

  function Max0(x: int): nat {
    if x > 0 then x else 0
  }

  /** Tokens step `op` puts into semaphore `i`. */
  function Put(op: Op, i: nat): nat {
    if op == UpOp(i) || op == IsrUpOp(i) then 1 else 0
  }

  /** Tasks that get past semaphore `i` in step `op`: a `down` that does not queue, a `try_down` that takes
      a token, a waiter that leaves the queue. */
  function Gone(w: World, op: Op, i: nat): int
    requires Enabled(w, op) && i < |w.semas| == |Next(w, op).semas|
  {
    if op == DownOp(i) then (if w.k.cur in Next(w, op).semas[i].queue then 0 else 1)
    else if op == TryDownOp(i) then w.semas[i].count - Next(w, op).semas[i].count
    else |w.semas[i].queue| - |Next(w, op).semas[i].queue|
  }

  function PutIn(ops: seq<Op>, i: nat): nat {
    if ops == [] then 0 else Put(ops[0], i) + PutIn(ops[1..], i)
  }

  ghost function Acquired(w: World, ops: seq<Op>, w': World, i: nat): int
    requires i < |w.semas| && Reaches(w, ops, w')
    decreases |ops|
  {
    if ops == [] then 0
    else
      SemasStay(w, ops[0]);
      Gone(w, ops[0], i) + Acquired(Next(w, ops[0]), ops[1..], w', i)
  }

  lemma SemasStay(w: World, op: Op)
    requires Enabled(w, op)
    ensures |Next(w, op).semas| == |w.semas|
    ensures forall i | 0 <= i < |w.semas| && op !in {DownOp(i), UpOp(i), IsrUpOp(i), TryDownOp(i)} ::
              Next(w, op).semas[i] == w.semas[i]
  {
  }

  /** Waiters exactly make up a negative count. */
  ghost predicate Waits(s: SemaS) {
    |s.queue| == Max0(-s.count)
  }

  /** What a step must have done to the count, the queue and the tasks that got past. */
  ghost predicate Balanced(w: World, op: Op, i: nat)
    requires Enabled(w, op) && i < |w.semas| == |Next(w, op).semas|
  {
    && Waits(Next(w, op).semas[i])
    && Max0(Next(w, op).semas[i].count) + Gone(w, op, i) == Max0(w.semas[i].count) + Put(op, i)
  }

  lemma DownTokens(w: World, loc: Locs, i: nat)
    requires Inv(w, loc) && Enabled(w, DownOp(i)) && Waits(w.semas[i]) && w.semas[i].count <= I32_MAX
    ensures i < |Next(w, DownOp(i)).semas| == |w.semas| && Balanced(w, DownOp(i), i)
  {
    assert Holds(Queue(w, WaitSema(i)), WaitSema(i), loc);
    WaitersFit(w, loc, i);
    var loc' := DownSettles(w.k, w.semas[i], loc, WaitSema(i), w.idle);
  }

  lemma LeavesBalance(s: SemaS, s': SemaS, l: Loc, loc: Locs, loc': Locs)
    requires FrontLeaves(s, s', l, loc, loc') && Waits(s) && |s.queue| <= TASK_MAX && s.count + 1 <= I32_MAX
    ensures Waits(s') && Max0(s'.count) + |s.queue| - |s'.queue| == Max0(s.count) + 1
  {
  }

  lemma UpTokens(w: World, loc: Locs, i: nat)
    requires Inv(w, loc) && Enabled(w, UpOp(i)) && Waits(w.semas[i]) && w.semas[i].count + 1 <= I32_MAX
    ensures i < |Next(w, UpOp(i)).semas| == |w.semas| && Balanced(w, UpOp(i), i)
  {
    var l, s := WaitSema(i), w.semas[i];
    assert Holds(Queue(w, l), l, loc);
    WaitersFit(w, loc, i);
    var s' := Next(w, UpOp(i)).semas[i];
    var loc' := UpSettles(w.k, s, loc, l, w.idle);
    LeavesBalance(s, s', l, loc, loc');
  }

  lemma IsrUpTokens(w: World, loc: Locs, i: nat)
    requires Inv(w, loc) && Enabled(w, IsrUpOp(i)) && Waits(w.semas[i]) && w.semas[i].count + 1 <= I32_MAX
    ensures i < |Next(w, IsrUpOp(i)).semas| == |w.semas| && Balanced(w, IsrUpOp(i), i)
  {
    var l, s := WaitSema(i), w.semas[i];
    assert Holds(Queue(w, l), l, loc);
    WaitersFit(w, loc, i);
    var s' := Next(w, IsrUpOp(i)).semas[i];
    var loc' := UpFromIsrSettles(w.k, s, loc, l, w.idle);
    LeavesBalance(s, s', l, loc, loc');
  }

  lemma StepTokens(w: World, loc: Locs, op: Op, i: nat)
    requires Inv(w, loc) && Enabled(w, op) && i < |w.semas| == |Next(w, op).semas| && Waits(w.semas[i])
    requires w.semas[i].count + Put(op, i) <= I32_MAX
    ensures Balanced(w, op, i)
  {
    if op == DownOp(i) {
      DownTokens(w, loc, i);
    } else if op == UpOp(i) {
      UpTokens(w, loc, i);
    } else if op == IsrUpOp(i) {
      IsrUpTokens(w, loc, i);
    } else {
      OtherTokens(w, op, i);
    }
  }

  lemma OtherTokens(w: World, op: Op, i: nat)
    requires Enabled(w, op) && i < |w.semas| == |Next(w, op).semas| && Waits(w.semas[i])
    requires op !in {DownOp(i), UpOp(i), IsrUpOp(i)}
    ensures Balanced(w, op, i)
  {
    SemasStay(w, op);
  }

  lemma WaitersFit(w: World, loc: Locs, i: nat)
    requires Inv(w, loc) && i < |w.semas|
    ensures |w.semas[i].queue| <= TASK_MAX
  {
    assert Holds(Queue(w, WaitSema(i)), WaitSema(i), loc);
    Pigeonhole(w.semas[i].queue, TASK_MAX);
  }

  lemma {:induction false} RunTokens(w: World, loc: Locs, ops: seq<Op>, w': World, i: nat)
    requires Inv(w, loc) && Reaches(w, ops, w') && i < |w.semas| && Waits(w.semas[i])
    requires Max0(w.semas[i].count) + PutIn(ops, i) <= I32_MAX
    ensures i < |w'.semas| && Waits(w'.semas[i])
    ensures Max0(w'.semas[i].count) + Acquired(w, ops, w', i) == Max0(w.semas[i].count) + PutIn(ops, i)
    ensures Acquired(w, ops, w', i) >= 0
    decreases |ops|
  {
    if ops == [] {
    } else {
      SemasStay(w, ops[0]);
      StepTokens(w, loc, ops[0], i);
      GoneNonNegative(w, loc, ops[0], i);
      var loc1 := StepInv(w, loc, ops[0]);
      RunTokens(Next(w, ops[0]), loc1, ops[1..], w', i);
    }
  }

  lemma GoneNonNegative(w: World, loc: Locs, op: Op, i: nat)
    requires Inv(w, loc) && Enabled(w, op) && i < |w.semas| == |Next(w, op).semas|
    ensures Gone(w, op, i) >= 0
  {
    SemasStay(w, op);
  }

  /** In every reachable state the tokens ever available are those acquired plus those still in the
      semaphore, and its waiters exactly make up a negative count: nobody acquires more than was put
      in, and nobody waits while a token is there. */
  lemma TokensAreConserved(w0: World, ops: seq<Op>, w: World, i: nat)
    requires Initial(w0) && Reaches(w0, ops, w) && i < |w0.semas|
    requires w0.semas[i].count + PutIn(ops, i) <= I32_MAX
    ensures i < |w.semas|
    ensures w0.semas[i].count + PutIn(ops, i) == Acquired(w0, ops, w, i) + Max0(w.semas[i].count)
    ensures 0 <= Acquired(w0, ops, w, i) <= w0.semas[i].count + PutIn(ops, i)
    ensures |w.semas[i].queue| == Max0(-w.semas[i].count)
    ensures w.semas[i].count > 0 ==> w.semas[i].queue == []
  {
    InitialInv(w0);
    assert w0.semas[i] in w0.semas;
    RunTokens(w0, seq(TASK_MAX, _ => Dead), ops, w, i);
  }

  /** The tokens that were there at first or put in since and that nobody has acquired. */
  ghost function Unclaimed(w0: World, ops: seq<Op>, w: World, i: nat): int
    requires i < |w0.semas| && Reaches(w0, ops, w)
  {
    w0.semas[i].count + PutIn(ops, i) - Acquired(w0, ops, w, i)
  }

  /** In every reachable state a `try_down` succeeds exactly if a token is unclaimed, and takes it; otherwise
      it changes nothing. */
  lemma TryDownTakesIff(w0: World, ops: seq<Op>, w: World, i: nat)
    requires Initial(w0) && Reaches(w0, ops, w) && i < |w0.semas| && Enabled(w, TryDownOp(i))
    requires w0.semas[i].count + PutIn(ops, i) <= I32_MAX
    ensures TryDown(w.semas[i]).1 <==> Unclaimed(w0, ops, w, i) > 0
    ensures Next(w, TryDownOp(i)).semas ==
              if Unclaimed(w0, ops, w, i) > 0 then w.semas[i := w.semas[i].(count := w.semas[i].count - 1)]
              else w.semas
    ensures Next(w, TryDownOp(i)).k == w.k
  {
    TokensAreConserved(w0, ops, w, i);
  }

  /** In every reachable state a `down` lets its caller past exactly if a token is unclaimed, and else
      queues and blocks it. */
  lemma DownPassesIff(w0: World, ops: seq<Op>, w: World, i: nat)
    requires Initial(w0) && Reaches(w0, ops, w) && i < |w0.semas| && Enabled(w, DownOp(i))
    requires w0.semas[i].count + PutIn(ops, i) <= I32_MAX
    ensures i < |Next(w, DownOp(i)).semas|
    ensures var (w', waits) := (Next(w, DownOp(i)), Unclaimed(w0, ops, w, i) <= 0);
            && (w.k.cur in w'.semas[i].queue <==> waits)
            && (w.k.cur in w'.k.ready <==> !waits)
            && w'.semas[i].count == w.semas[i].count - 1
  {
    var loc := ReachableInv(w0, ops, w);
    TokensAreConserved(w0, ops, w, i);
    WaitersFit(w, loc, i);
    DownGoes(w, loc, i);
  }

  lemma DownGoes(w: World, loc: Locs, i: nat)
    requires Inv(w, loc) && Enabled(w, DownOp(i)) && -I32_MAX <= w.semas[i].count <= I32_MAX
    ensures i < |Next(w, DownOp(i)).semas|
    ensures var w' := Next(w, DownOp(i));
            && (w.k.cur in w'.semas[i].queue <==> w.semas[i].count <= 0)
            && (w.k.cur in w'.k.ready <==> w.semas[i].count > 0)
            && w'.semas[i].count == w.semas[i].count - 1
  {
    var l, s := WaitSema(i), w.semas[i];
    assert Holds(Queue(w, l), l, loc);
    var loc' := DownSettles(w.k, s, loc, l, w.idle);
  }
}
