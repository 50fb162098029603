/** Who goes where in each step: the tasks that a step puts on another list are exactly those its
    operation is about, and every other task stays where it is. */
module Moves {
  import opened Config
  import opened Lists
  import opened KernelSpec
  import opened SyncSpec
  import opened Place
  import opened SyncPlace
  import opened World
  import opened Safety
  import opened Order
  import opened Sleep
  import Tokens
  import Monitor

  type Movers = map<Tid, Loc>

  /** The first of a queue goes to the ready list. */
  function First(q: seq<Tid>): Movers {
    if q == [] then map[] else map[q[0] := InReady]
  }

  /** A new task has the least identifier that is free. */
  function NewTask(k: K): Movers {
    match FirstFree(k.used, 0)
    case None => map[]
    case Some(t) => map[t := InReady]
  }

  /** A lock call on a mutex of another task. */
  function Blocks(w: World, i: nat): Movers
    requires i < |w.mutexes|
  {
    if w.mutexes[i].owner in {None, Some(w.k.cur)} then map[] else map[w.k.cur := WaitMutex(i)]
  }

  /** The last level of a mutex is given up. */
  function HandsOver(m: MutexS): Movers {
    if m.depth == 1 then First(m.queue) else map[]
  }

  /** The tasks that step `op` moves, and the list it moves each of them to. */
  ghost function MovedBy(w: World, op: Op): Movers
    requires Enabled(w, op)
  {
    var k, cur := w.k, w.k.cur;
    match op
    case CreateOp(_) => NewTask(k)
    case CreateRawOp(_) => NewTask(k)
    case LaunchOp => NewTask(k)
    case ExitOp => map[cur := Dead]
    case TerminateOp(t) => map[t := Dead]
    case BlockOp(t) => if t in k.ready then map[t := InBlocked] else map[]
    case ResumeOp(t) => if t in k.blocked then map[t := InReady] else map[]
    case DelayOp(n) => if n > 0 then map[cur := InSleep] else map[]
    case SystickOp(missed, _) =>
      map t: Tid | t in k.sleeping && k.tcb[t].wake <= k.ticks + missed + 1 :: InReady
    case IsrUpOp(i) => First(w.semas[i].queue)
    case UpOp(i) => First(w.semas[i].queue)
    case DownOp(i) => if w.semas[i].count > 0 then map[] else map[cur := WaitSema(i)]
    case LockOp(i) => Blocks(w, i)
    case WaitLockOp => Blocks(w, w.pc[cur].m)
    case UnlockOp(i) => HandsOver(w.mutexes[i])
    case WaitOp(c, i) => HandsOver(w.mutexes[i]) + map[cur := WaitCv(c)]
    case NotifyOp(c) => First(w.cvs[c])
    case NotifyAllOp(c) => map t: Tid | t in w.cvs[c] :: InReady
    case _ => map[]
  }

  ghost predicate MovesTo(loc: Locs, loc': Locs, moved: Movers) {
    forall t: Tid :: loc'[t] == if t in moved then moved[t] else loc[t]
  }

  /** Every waiting task is in the queue its place names. */
  ghost predicate Queued(w: World, loc: Locs) {
    forall t: Tid | loc[t].Waiting() :: Exists(w, loc[t]) && t in Queue(w, loc[t])
  }

  /** The lists leave no doubt about the places. */
  lemma OnlyPlaces(w: World, a: Locs, b: Locs)
    requires Inv(w, a) && Placed(w.k, b) && Queued(w, b)
    ensures a == b
  {
    forall t: Tid ensures a[t] == b[t] {
      assert TaskAgrees(w.k, a, t) && TaskAgrees(w.k, b, t);
      if b[t].Waiting() {
        assert Holds(Queue(w, b[t]), b[t], a);
      }
    }
  }

  lemma QueuedBefore(w: World, loc: Locs)
    requires Inv(w, loc)
    ensures Queued(w, loc)
  {
    forall t: Tid | loc[t].Waiting() ensures Exists(w, loc[t]) && t in Queue(w, loc[t]) {
      assert Holds(Queue(w, loc[t]), loc[t], loc);
    }
  }

  /** No operation but the systick interrupt wakes a sleeper. */
  lemma OthersReallyStay(w: World, loc: Locs, op: Op, loc1: Locs, ts: set<Tid>)
    requires Inv(w, loc) && NoneDue(w.k) && Enabled(w, op) && NoWrap(w, op) && !op.SystickOp?
    requires Placed(Next(w, op).k, loc1) && OthersStay(loc, loc1, ts)
    requires op.TerminateOp? ==> op.t in ts
    ensures forall t: Tid | t !in ts :: loc1[t] == loc[t]
  {
    forall t: Tid | t !in ts ensures loc1[t] == loc[t] {
      if loc[t] == InSleep {
        StepNoneDue(w, loc, op);
        StepTicks(w, loc, op);
        StepSleeper(w, loc, op, t);
        assert !Due(w.k, t);
      }
    }
  }

  // ---- Operations of the kernel ------------------------------------------------------------

  lemma NewTaskMoves(w: World, loc: Locs, op: Op) returns (loc1: Locs)
    requires Inv(w, loc) && NoneDue(w.k) && Enabled(w, op) && NoWrap(w, op)
    requires op.CreateOp? || op.CreateRawOp? || op.LaunchOp?
    ensures Placed(Next(w, op).k, loc1) && MovesTo(loc, loc1, NewTask(w.k))
  {
    var p := if op.LaunchOp? then PRI_MIN else op.priority;
    var t := CreateRaw(w.k, p).1;
    if op.LaunchOp? {
      var idle;
      loc1, idle := LaunchSettles(w.k, loc);
    } else if op.CreateOp? && w.k.started {
      loc1 := CreateSettles(w.k, loc, w.idle, p);
      OthersReallyStay(w, loc, op, loc1, if t.None? then {} else {t.value});
    } else {
      loc1 := CreateRawPlaced(w.k, loc, p);
    }
  }

  lemma EndMoves(w: World, loc: Locs, op: Op) returns (loc1: Locs)
    requires Inv(w, loc) && NoneDue(w.k) && Enabled(w, op) && (op.ExitOp? || op.TerminateOp?)
    ensures Placed(Next(w, op).k, loc1) && MovesTo(loc, loc1, MovedBy(w, op))
  {
    if op.ExitOp? {
      loc1 := ExitSettles(w.k, loc, w.idle);
      OthersReallyStay(w, loc, op, loc1, {w.k.cur});
    } else {
      UninvolvedAt(w, loc, op.t);
      loc1 := TerminateSettles(w.k, loc, w.idle, op.t);
      OthersReallyStay(w, loc, op, loc1, {op.t});
    }
  }

  lemma BlockMoves(w: World, loc: Locs, op: Op) returns (loc1: Locs)
    requires Inv(w, loc) && NoneDue(w.k) && Enabled(w, op) && (op.BlockOp? || op.ResumeOp?)
    ensures Placed(Next(w, op).k, loc1) && MovesTo(loc, loc1, MovedBy(w, op))
  {
    if op.BlockOp? {
      loc1 := BlockSettles(w.k, loc, w.idle, op.t);
    } else {
      loc1 := ResumeSettles(w.k, loc, w.idle, op.t);
    }
    OthersReallyStay(w, loc, op, loc1, {op.t});
    assert TaskAgrees(Next(w, op).k, loc1, op.t);
  }

  lemma DelayMoves(w: World, loc: Locs, n: nat) returns (loc1: Locs)
    requires Inv(w, loc) && NoneDue(w.k) && Enabled(w, DelayOp(n)) && NoWrap(w, DelayOp(n))
    ensures Placed(Next(w, DelayOp(n)).k, loc1) && MovesTo(loc, loc1, MovedBy(w, DelayOp(n)))
  {
    loc1 := DelaySettles(w.k, loc, w.idle, n);
    OthersReallyStay(w, loc, DelayOp(n), loc1, {w.k.cur});
    if n > 0 {
      DelayAsleep(w.k, loc, n);
    } else {
      assert TaskAgrees(w.k, loc1, w.k.cur) && TaskAgrees(w.k, loc, w.k.cur);
    }
  }

  lemma TrapMoves(w: World, loc: Locs, op: Op) returns (loc1: Locs)
    requires Inv(w, loc) && NoneDue(w.k) && Enabled(w, op) && NoWrap(w, op) && op.SystickOp?
    ensures Placed(Next(w, op).k, loc1) && MovesTo(loc, loc1, MovedBy(w, op))
  {
    loc1 := SystickTrapSettles(w.k, loc, w.idle, op.missed, op.deferred);
    StepTicks(w, loc, op);
    forall t: Tid ensures loc1[t] == if t in MovedBy(w, op) then InReady else loc[t] {
      if loc[t] == InSleep {
        StepSleeper(w, loc, op, t);
        assert TaskAgrees(Next(w, op).k, loc1, t);
      }
    }
  }

  lemma SwitchMoves(w: World, loc: Locs, op: Op) returns (loc1: Locs)
    requires Inv(w, loc) && NoneDue(w.k) && Enabled(w, op)
    requires op.YieldOp? || op.SwitchOp? || op.WaitYieldOp? || op.LockedOp?
    ensures Placed(Next(w, op).k, loc1) && MovesTo(loc, loc1, map[])
  {
    loc1 := loc;
    if !op.LockedOp? {
      loc1 := NextTcbSettles(w.k, loc, w.idle);
      OthersReallyStay(w, loc, op, loc1, {});
    }
  }

  // ---- Operations on objects ---------------------------------------------------------------

  /** Queue `q` has lost none but the tasks in `moved`. */
  ghost predicate Keeps(q: seq<Tid>, q': seq<Tid>, moved: Movers) {
    forall t: Tid | t in q && t !in moved :: t in q'
  }

  lemma StillQueued(w: World, loc: Locs, w': World, loc1: Locs, moved: Movers)
    requires Inv(w, loc) && MovesTo(loc, loc1, moved)
    requires forall l | Exists(w, l) :: Exists(w', l) && Keeps(Queue(w, l), Queue(w', l), moved)
    requires forall t | t in moved && moved[t].Waiting() :: Exists(w', moved[t]) && t in Queue(w', moved[t])
    ensures Queued(w', loc1)
  {
    forall t: Tid | loc1[t].Waiting() ensures Exists(w', loc1[t]) && t in Queue(w', loc1[t]) {
      if t !in moved {
        assert Holds(Queue(w, loc[t]), loc[t], loc);
        assert Keeps(Queue(w, loc[t]), Queue(w', loc[t]), moved);
      }
    }
  }

  /** In every semaphore the waiters make up a negative count, and a positive one fits its type. */
  ghost predicate SemasCounted(w: World) {
    forall i | 0 <= i < |w.semas| :: Tokens.Waits(w.semas[i]) && w.semas[i].count <= I32_MAX
  }

  lemma DownMoves(w: World, loc: Locs, i: nat) returns (loc1: Locs)
    requires Inv(w, loc) && NoneDue(w.k) && Enabled(w, DownOp(i)) && SemasCounted(w)
    ensures Placed(Next(w, DownOp(i)).k, loc1) && MovesTo(loc, loc1, MovedBy(w, DownOp(i)))
    ensures Holds(Next(w, DownOp(i)).semas[i].queue, WaitSema(i), loc1)
  {
    var l, s := WaitSema(i), w.semas[i];
    assert Holds(Queue(w, l), l, loc) && Tokens.Waits(s);
    Tokens.WaitersFit(w, loc, i);
    loc1 := DownSettles(w.k, s, loc, l, w.idle);
    OthersReallyStay(w, loc, DownOp(i), loc1, {w.k.cur});
  }

  /** The count says whether somebody waits. */
  lemma CountSays(w: World, loc: Locs, i: nat)
    requires Inv(w, loc) && SemasCounted(w) && i < |w.semas|
    ensures var s := w.semas[i]; s.queue != [] ==> s.count < 0 && WrapI32(s.count + 1) <= 0
  {
    assert Tokens.Waits(w.semas[i]);
    Tokens.WaitersFit(w, loc, i);
  }

  lemma UpMoves(w: World, loc: Locs, op: Op) returns (loc1: Locs)
    requires Inv(w, loc) && NoneDue(w.k) && Enabled(w, op) && SemasCounted(w) && (op.UpOp? || op.IsrUpOp?)
    ensures Placed(Next(w, op).k, loc1) && MovesTo(loc, loc1, First(w.semas[op.s].queue))
    ensures Holds(Next(w, op).semas[op.s].queue, WaitSema(op.s), loc1)
  {
    var l, s := WaitSema(op.s), w.semas[op.s];
    assert Holds(Queue(w, l), l, loc);
    CountSays(w, loc, op.s);
    if op.UpOp? {
      loc1 := UpSettles(w.k, s, loc, l, w.idle);
    } else {
      loc1 := UpFromIsrSettles(w.k, s, loc, l, w.idle);
    }
    OthersReallyStay(w, loc, op, loc1, First(s.queue).Keys);
  }

  lemma LockMoves(w: World, loc: Locs, op: Op, i: nat) returns (loc1: Locs)
    requires Inv(w, loc) && NoneDue(w.k) && Enabled(w, op) && Locks(w, op, i)
    ensures i < |w.mutexes| && Placed(Next(w, op).k, loc1) && MovesTo(loc, loc1, Blocks(w, i))
  {
    var l, m := WaitMutex(i), w.mutexes[i];
    assert Holds(Queue(w, l), l, loc);
    loc1 := LockSettles(w.k, m, loc, l, w.idle);
    OthersReallyStay(w, loc, op, loc1, {w.k.cur});
  }

  lemma UnlockMoves(w: World, loc: Locs, i: nat) returns (loc1: Locs)
    requires Inv(w, loc) && NoneDue(w.k) && Enabled(w, UnlockOp(i))
    ensures Placed(Next(w, UnlockOp(i)).k, loc1) && MovesTo(loc, loc1, HandsOver(w.mutexes[i]))
  {
    var l, m := WaitMutex(i), w.mutexes[i];
    HolderOwns(w, loc, i, w.k.cur);
    assert MutexOk(w, loc, i) && Holds(Queue(w, l), l, loc);
    loc1 := UnlockPlaced(w.k, m, loc, l, w.idle);
    OthersReallyStay(w, loc, UnlockOp(i), loc1, HandsOver(m).Keys);
  }

  lemma WaitMoves(w: World, loc: Locs, c: nat, i: nat) returns (loc1: Locs)
    requires Inv(w, loc) && NoneDue(w.k) && Enabled(w, WaitOp(c, i))
    ensures Placed(Next(w, WaitOp(c, i)).k, loc1) && MovesTo(loc, loc1, MovedBy(w, WaitOp(c, i)))
  {
    var lq, lm, m := WaitCv(c), WaitMutex(i), w.mutexes[i];
    HolderOwns(w, loc, i, w.k.cur);
    assert MutexOk(w, loc, i) && Holds(Queue(w, lq), lq, loc) && Holds(Queue(w, lm), lm, loc);
    assert m.queue != [] ==> m.queue[0] in m.queue;
    loc1 := CvWaitSettles(w.k, w.cvs[c], m, loc, lq, lm, w.idle);
    var k' := CvWait(w.k, w.cvs[c], m).0;
    WaitedMoves(w, loc, c, i, k', loc1);
  }

  lemma WaitedMoves(w: World, loc: Locs, c: nat, i: nat, k': K, loc1: Locs)
    requires Inv(w, loc) && NoneDue(w.k) && Enabled(w, WaitOp(c, i)) && k' == Next(w, WaitOp(c, i)).k
    requires Settled(k', loc1, w.idle) && loc1[w.k.cur] == WaitCv(c)
    requires w.mutexes[i].depth >= 1
    requires var m := w.mutexes[i];
             if m.depth > 1 || m.queue == [] then OthersStay(loc, loc1, {w.k.cur})
             else loc1[m.queue[0]] == InReady && OthersStay(loc, loc1, {w.k.cur, m.queue[0]})
    ensures MovesTo(loc, loc1, MovedBy(w, WaitOp(c, i)))
  {
    var m := w.mutexes[i];
    OthersReallyStay(w, loc, WaitOp(c, i), loc1, HandsOver(m).Keys + {w.k.cur});
  }

  lemma NotifyMoves(w: World, loc: Locs, op: Op) returns (loc1: Locs)
    requires Inv(w, loc) && NoneDue(w.k) && Enabled(w, op) && (op.NotifyOp? || op.NotifyAllOp?)
    ensures Placed(Next(w, op).k, loc1) && MovesTo(loc, loc1, MovedBy(w, op))
  {
    var l, q := WaitCv(op.c), w.cvs[op.c];
    assert Holds(Queue(w, l), l, loc);
    if op.NotifyOp? {
      loc1 := NotifySettles(w.k, q, loc, l, w.idle);
      OthersReallyStay(w, loc, op, loc1, First(q).Keys);
    } else {
      loc1 := NotifyAllSettles(w.k, q, loc, l, w.idle);
      OthersReallyStay(w, loc, op, loc1, set t | t in q);
    }
  }

  predicate ForKernel(op: Op) {
    op.CreateOp? || op.CreateRawOp? || op.LaunchOp? || op.ExitOp? || op.TerminateOp? || op.BlockOp?
    || op.ResumeOp? || op.DelayOp? || op.SystickOp?
  }

  predicate ForObject(op: Op) {
    op.IsrUpOp? || op.UpOp? || op.DownOp? || op.LockOp? || op.WaitLockOp? || op.UnlockOp?
    || op.WaitOp? || op.NotifyOp? || op.NotifyAllOp?
  }

  lemma KernelPlaces(w: World, loc: Locs, op: Op) returns (loc1: Locs)
    requires Inv(w, loc) && NoneDue(w.k) && Enabled(w, op) && NoWrap(w, op)
    requires ForKernel(op)
    ensures Placed(Next(w, op).k, loc1) && MovesTo(loc, loc1, MovedBy(w, op))
  {
    match op
    case CreateOp(_) => loc1 := NewTaskMoves(w, loc, op);
    case CreateRawOp(_) => loc1 := NewTaskMoves(w, loc, op);
    case LaunchOp => loc1 := NewTaskMoves(w, loc, op);
    case ExitOp => loc1 := EndMoves(w, loc, op);
    case TerminateOp(_) => loc1 := EndMoves(w, loc, op);
    case BlockOp(_) => loc1 := BlockMoves(w, loc, op);
    case ResumeOp(_) => loc1 := BlockMoves(w, loc, op);
    case DelayOp(n) => loc1 := DelayMoves(w, loc, n);
    case SystickOp(_, _) => loc1 := TrapMoves(w, loc, op);
  }

  lemma ObjectPlaces(w: World, loc: Locs, op: Op) returns (loc1: Locs)
    requires Inv(w, loc) && NoneDue(w.k) && Enabled(w, op) && NoWrap(w, op) && SemasCounted(w)
    requires ForObject(op)
    ensures Placed(Next(w, op).k, loc1) && MovesTo(loc, loc1, MovedBy(w, op))
  {
    match op
    case IsrUpOp(_) => loc1 := UpMoves(w, loc, op);
    case UpOp(_) => loc1 := UpMoves(w, loc, op);
    case DownOp(i) => loc1 := DownMoves(w, loc, i);
    case LockOp(i) => loc1 := LockMoves(w, loc, op, i);
    case WaitLockOp => loc1 := LockMoves(w, loc, op, w.pc[w.k.cur].m);
    case UnlockOp(i) => loc1 := UnlockMoves(w, loc, i);
    case WaitOp(c, i) => loc1 := WaitMoves(w, loc, c, i);
    case NotifyOp(_) => loc1 := NotifyMoves(w, loc, op);
    case NotifyAllOp(_) => loc1 := NotifyMoves(w, loc, op);
  }

  lemma StepPlaces(w: World, loc: Locs, op: Op) returns (loc1: Locs)
    requires Inv(w, loc) && NoneDue(w.k) && Enabled(w, op) && NoWrap(w, op) && SemasCounted(w)
    ensures Placed(Next(w, op).k, loc1) && MovesTo(loc, loc1, MovedBy(w, op))
  {
    if ForKernel(op) {
      loc1 := KernelPlaces(w, loc, op);
    } else if ForObject(op) {
      loc1 := ObjectPlaces(w, loc, op);
    } else if op.TryDownOp? {
      loc1 := loc;
    } else {
      loc1 := SwitchMoves(w, loc, op);
    }
  }

  // ---- The queues --------------------------------------------------------------------------

  lemma CurrentQueuesNowhere(w: World, loc: Locs, l: Loc)
    requires Inv(w, loc) && w.k.started && Exists(w, l)
    ensures w.k.cur !in Queue(w, l) && NoDup(Queue(w, l))
  {
    assert Holds(Queue(w, l), l, loc);
  }

  lemma EnqueueAdds(tcb: Tcbs, q: seq<Tid>, t: Tid, moved: Movers)
    requires NoDup(q) && t !in q
    ensures Keeps(q, Enqueue(tcb, q, t), moved) && t in Enqueue(tcb, q, t)
  {
    InsertMembers(q, t, ByPriority(tcb, t));
  }

  lemma MutexQueue(w: World, loc: Locs, op: Op, i: nat)
    requires Inv(w, loc) && Enabled(w, op) && i < |w.mutexes|
    ensures i < |Next(w, op).mutexes|
    ensures Keeps(w.mutexes[i].queue, Next(w, op).mutexes[i].queue, MovedBy(w, op))
    ensures Locks(w, op, i) && w.k.cur in Blocks(w, i) ==> w.k.cur in Next(w, op).mutexes[i].queue
  {
    MutexStep(w, loc, op, i);
    assert MutexOk(w, loc, i);
    var m := w.mutexes[i];
    if Locks(w, op, i) && m.owner.Some? && m.owner.value != w.k.cur {
      CurrentQueuesNowhere(w, loc, WaitMutex(i));
      EnqueueAdds(BlockCurrent(Boost(w.k, m.owner.value)).tcb, m.queue, w.k.cur, MovedBy(w, op));
    }
  }

  lemma CvQueue(w: World, loc: Locs, op: Op, c: nat)
    requires Inv(w, loc) && Enabled(w, op) && c < |w.cvs|
    ensures c < |Next(w, op).cvs| && Keeps(w.cvs[c], Next(w, op).cvs[c], MovedBy(w, op))
    ensures op.WaitOp? && op.c == c ==> w.k.cur in Next(w, op).cvs[c]
  {
    Monitor.CvFifo(w, loc, op, c);
  }

  lemma SemaQueue(w: World, loc: Locs, op: Op, i: nat)
    requires Inv(w, loc) && NoneDue(w.k) && Enabled(w, op) && SemasCounted(w) && i < |w.semas|
    ensures i < |Next(w, op).semas| && Keeps(w.semas[i].queue, Next(w, op).semas[i].queue, MovedBy(w, op))
    ensures op == DownOp(i) && w.k.cur in MovedBy(w, op) ==> w.k.cur in Next(w, op).semas[i].queue
  {
    Tokens.SemasStay(w, op);
    assert Holds(Queue(w, WaitSema(i)), WaitSema(i), loc);
    if op == DownOp(i) {
      var loc1 := DownMoves(w, loc, i);
    } else if op == UpOp(i) || op == IsrUpOp(i) {
      var loc1 := UpMoves(w, loc, op);
    }
  }

  lemma QueuesKeep(w: World, loc: Locs, op: Op)
    requires Inv(w, loc) && NoneDue(w.k) && Enabled(w, op) && SemasCounted(w)
    ensures forall l | Exists(w, l) ::
              Exists(Next(w, op), l) && Keeps(Queue(w, l), Queue(Next(w, op), l), MovedBy(w, op))
  {
    forall l | Exists(w, l)
      ensures Exists(Next(w, op), l) && Keeps(Queue(w, l), Queue(Next(w, op), l), MovedBy(w, op))
    {
      match l
      case WaitSema(i) => SemaQueue(w, loc, op, i);
      case WaitMutex(i) => MutexQueue(w, loc, op, i);
      case WaitCv(c) => CvQueue(w, loc, op, c);
    }
  }

  lemma MoverQueued(w: World, loc: Locs, op: Op, t: Tid)
    requires Inv(w, loc) && NoneDue(w.k) && Enabled(w, op) && SemasCounted(w)
    requires t in MovedBy(w, op) && MovedBy(w, op)[t].Waiting()
    ensures var (w', l) := (Next(w, op), MovedBy(w, op)[t]); Exists(w', l) && t in Queue(w', l)
  {
    match MovedBy(w, op)[t]
    case WaitSema(i) => SemaQueue(w, loc, op, i);
    case WaitMutex(i) => MutexQueue(w, loc, op, i);
    case WaitCv(c) => CvQueue(w, loc, op, c);
  }

  lemma QueuedAfter(w: World, loc: Locs, op: Op, loc1: Locs)
    requires Inv(w, loc) && NoneDue(w.k) && Enabled(w, op) && SemasCounted(w)
    requires MovesTo(loc, loc1, MovedBy(w, op))
    ensures Queued(Next(w, op), loc1)
  {
    var w', moved := Next(w, op), MovedBy(w, op);
    QueuesKeep(w, loc, op);
    forall t | t in moved && moved[t].Waiting() ensures Exists(w', moved[t]) && t in Queue(w', moved[t]) {
      MoverQueued(w, loc, op, t);
    }
    StillQueued(w, loc, w', loc1, moved);
  }

  lemma StepMoves(w: World, loc: Locs, op: Op) returns (loc': Locs)
    requires Inv(w, loc) && NoneDue(w.k) && Enabled(w, op) && NoWrap(w, op) && SemasCounted(w)
    ensures Inv(Next(w, op), loc') && MovesTo(loc, loc', MovedBy(w, op))
  {
    var loc1 := StepPlaces(w, loc, op);
    QueuedAfter(w, loc, op, loc1);
    loc' := StepInv(w, loc, op);
    OnlyPlaces(Next(w, op), loc', loc1);
  }

  // ---- Runs --------------------------------------------------------------------------------

  /** No semaphore is given more tokens than its count can hold. */
  ghost predicate TokensFit(w: World, ops: seq<Op>) {
    forall i | 0 <= i < |w.semas| :: Tokens.Max0(w.semas[i].count) + Tokens.PutIn(ops, i) <= I32_MAX
  }

  lemma {:induction false} RunReaches(w: World, ops: seq<Op>, w': World)
    requires ReachesNoWrap(w, ops, w')
    ensures Reaches(w, ops, w') && |w'.semas| == |w.semas|
    decreases |ops|
  {
    if ops == [] {
    } else {
      Tokens.SemasStay(w, ops[0]);
      RunReaches(Next(w, ops[0]), ops[1..], w');
    }
  }

  lemma RunCounted(w: World, loc: Locs, ops: seq<Op>, w': World)
    requires Inv(w, loc) && SemasCounted(w) && ReachesNoWrap(w, ops, w') && TokensFit(w, ops)
    ensures SemasCounted(w')
  {
    RunReaches(w, ops, w');
    forall i | 0 <= i < |w'.semas| ensures Tokens.Waits(w'.semas[i]) && w'.semas[i].count <= I32_MAX {
      assert Tokens.Waits(w.semas[i]);
      Tokens.RunTokens(w, loc, ops, w', i);
    }
  }

  lemma InitialCounted(w: World)
    requires Initial(w)
    ensures SemasCounted(w)
  {
    forall i | 0 <= i < |w.semas| ensures Tokens.Waits(w.semas[i]) && w.semas[i].count <= I32_MAX {
      assert w.semas[i] in w.semas;
    }
  }

  /** In every reachable state, whatever the step: each list of the kernel and each wait queue has
      afterwards the tasks the operation puts there, and those it had before and does not move. */
  lemma MovesExactly(w0: World, ops: seq<Op>, w: World, op: Op, l: Loc, t: Tid)
    requires Initial(w0) && ReachesNoWrap(w0, ops, w) && TokensFit(w0, ops)
    requires Enabled(w, op) && NoWrap(w, op) && IsList(w, l)
    ensures IsList(Next(w, op), l)
    ensures t in ListAt(Next(w, op), l) <==>
              if t in MovedBy(w, op) then MovedBy(w, op)[t] == l else t in ListAt(w, l)
  {
    InitialInv(w0);
    InitialCounted(w0);
    var loc0: Locs := seq(TASK_MAX, _ => Dead);
    RunCounted(w0, loc0, ops, w);
    var loc := RunNoneDue(w0, loc0, ops, w);
    var loc' := StepMoves(w, loc, op);
    OneList(w, loc, t);
    SameLists(w, loc, op, l);
    OneList(Next(w, op), loc', t);
  }

  lemma SameLists(w: World, loc: Locs, op: Op, l: Loc)
    requires Inv(w, loc) && NoneDue(w.k) && Enabled(w, op) && SemasCounted(w) && IsList(w, l)
    ensures IsList(Next(w, op), l)
  {
    QueuesKeep(w, loc, op);
  }
}
