/** The whole system: the kernel, any number of semaphores, mutexes and condition variables, and for
    each task where it stands inside a blocking call and which guards it holds. A step is one
    critical section up to its first switch, the rest of one after the task has been resumed, or an
    interrupt; every interleaving of the tasks is a sequence of such steps. */
module World {
  import opened Config
  import opened KernelSpec
  import opened SyncSpec
  import opened Place
  import opened SyncPlace

  /** Where a task stands: in its own code; blocked inside `lock`, or woken and about to return from
      it; or in `CondVar::wait` with a switch, or only the final `lock`, still to come. */
  datatype Pc = Run | InLock(m: nat) | CvYield(m: nat) | CvRelock(m: nat)

  type Pcs = s: seq<Pc> | |s| == TASK_MAX witness seq(TASK_MAX, _ => Run)
  type Counts = s: seq<nat> | |s| == TASK_MAX witness seq(TASK_MAX, _ => 0)

  /** `held[m][t]` counts the guards of mutex `m` that task `t` has. */
  datatype World = World(
    k: K, semas: seq<SemaS>, mutexes: seq<MutexS>, cvs: seq<seq<Tid>>,
    pc: Pcs, held: seq<Counts>, idle: Tid)

  datatype Op =
    | CreateOp(priority: nat) | CreateRawOp(priority: nat) | LaunchOp
    | ExitOp | BlockOp(t: Tid) | ResumeOp(t: Tid) | TerminateOp(t: Tid) | DelayOp(ticks: nat) | YieldOp
    | SystickOp(missed: nat, deferred: bool) | SwitchOp | IsrUpOp(s: nat)
    | DownOp(s: nat) | UpOp(s: nat) | TryDownOp(s: nat)
    | LockOp(m: nat) | UnlockOp(m: nat) | LockedOp
    | WaitOp(c: nat, m: nat) | WaitYieldOp | WaitLockOp | NotifyOp(c: nat) | NotifyAllOp(c: nat)
  {
    /** Interrupts may come while any task is current, the idle task included. */
    predicate Interrupt() {
      SystickOp? || SwitchOp? || IsrUpOp?
    }
    /** Steps that continue a call the current task has not returned from. */
    predicate Continuation() {
      LockedOp? || WaitYieldOp? || WaitLockOp?
    }
  }

  ghost predicate Wf(w: World) {
    |w.held| == |w.mutexes|
  }

  predicate Exists(w: World, l: Loc) {
    match l
    case WaitSema(i) => i < |w.semas|
    case WaitMutex(i) => i < |w.mutexes|
    case WaitCv(i) => i < |w.cvs|
    case _ => false
  }

  function Queue(w: World, l: Loc): seq<Tid>
    requires Exists(w, l)
  {
    match l
    case WaitSema(i) => w.semas[i].queue
    case WaitMutex(i) => w.mutexes[i].queue
    case WaitCv(i) => w.cvs[i]
  }

  /** Task `t` neither owns nor waits for any object. */
  ghost predicate Uninvolved(w: World, t: Tid) {
    && (forall l | Exists(w, l) :: t !in Queue(w, l))
    && (forall i | 0 <= i < |w.mutexes| :: w.mutexes[i].owner != Some(t))
  }

  ghost predicate InBounds(w: World, op: Op) {
    match op
    case IsrUpOp(s) => s < |w.semas|
    case DownOp(s) => s < |w.semas|
    case UpOp(s) => s < |w.semas|
    case TryDownOp(s) => s < |w.semas|
    case LockOp(m) => m < |w.mutexes|
    case UnlockOp(m) => m < |w.mutexes|
    case WaitOp(c, m) => c < |w.cvs| && m < |w.mutexes|
    case NotifyOp(c) => c < |w.cvs|
    case NotifyAllOp(c) => c < |w.cvs|
    case LockedOp => w.pc[w.k.cur].InLock? && w.pc[w.k.cur].m < |w.mutexes|
    case WaitYieldOp => w.pc[w.k.cur].CvYield?
    case WaitLockOp => w.pc[w.k.cur].CvRelock? && w.pc[w.k.cur].m < |w.mutexes|
    case _ => true
  }

  /** What the callers of each operation owe: idle makes no calls, a guard is dropped by its holder,
      a task ends without guards, nobody kills or blocks idle or kills a task that an object still
      refers to, there is room for the idle task, and no counter leaves its type. */
  ghost predicate Enabled(w: World, op: Op) {
    var cur := w.k.cur;
    && Wf(w) && InBounds(w, op)
    && (op.LaunchOp? <==> !w.k.started && !op.CreateOp? && !op.CreateRawOp?)
    && (w.k.started && !op.Interrupt() ==> cur != w.idle && (op.Continuation() || w.pc[cur] == Run))
    && match op
       case LaunchOp => exists t: Tid :: t !in w.k.used
       case ExitOp => Uninvolved(w, cur)
       case TerminateOp(t) => t != w.idle && Uninvolved(w, t)
       case BlockOp(t) => t != w.idle
       case LockOp(m) => w.mutexes[m].depth < U32 - 1
       case UnlockOp(m) => w.held[m][cur] > 0
       case WaitOp(_, m) => w.held[m][cur] > 0
       case WaitLockOp => w.mutexes[w.pc[cur].m].depth < U32 - 1
       case _ => true
  }

  function Lock1(w: World, i: nat): World
    requires i < |w.mutexes| == |w.held|
  {
    var cur := w.k.cur;
    var (k, m) := Lock(w.k, w.mutexes[i]);
    var blocks := w.mutexes[i].owner.Some? && w.mutexes[i].owner.value != cur;
    w.(k := k, mutexes := w.mutexes[i := m],
       pc := w.pc[cur := if blocks then InLock(i) else Run],
       held := if blocks then w.held else w.held[i := w.held[i][cur := w.held[i][cur] + 1]])
  }

  function Next(w: World, op: Op): World
    requires Enabled(w, op)
  {
    var k, cur := w.k, w.k.cur;
    match op
    case CreateOp(p) =>
      var (k', r) := Create(k, p);
      w.(k := k', pc := if r.Some? then w.pc[r.value := Run] else w.pc)
    case CreateRawOp(p) =>
      var (k', r) := CreateRaw(k, p);
      w.(k := k', pc := if r.Some? then w.pc[r.value := Run] else w.pc)
    case LaunchOp =>
      var r := CreateRaw(k, PRI_MIN).1;
      if r.None? then w.(k := Launch(k))
      else w.(k := Launch(k), pc := w.pc[r.value := Run], idle := r.value)
    case ExitOp => w.(k := ExitCurrent(k))
    case BlockOp(t) => w.(k := Block(k, t))
    case ResumeOp(t) => w.(k := Resume(k, t))
    case TerminateOp(t) => w.(k := Terminate(k, t))
    case DelayOp(n) => w.(k := Delay(k, n))
    case YieldOp => w.(k := NextTcb(k))
    case SwitchOp => w.(k := NextTcb(k))
    case SystickOp(missed, deferred) => w.(k := SystickTrap(k, missed, deferred))
    case IsrUpOp(i) => var (k', s) := UpFromIsr(k, w.semas[i]); w.(k := k', semas := w.semas[i := s])
    case DownOp(i) => var (k', s) := Down(k, w.semas[i]); w.(k := k', semas := w.semas[i := s])
    case UpOp(i) => var (k', s) := Up(k, w.semas[i]); w.(k := k', semas := w.semas[i := s])
    case TryDownOp(i) => w.(semas := w.semas[i := TryDown(w.semas[i]).0])
    case LockOp(i) => Lock1(w, i)
    case UnlockOp(i) =>
      var (k', m, _) := Unlock(k, w.mutexes[i]);
      w.(k := k', mutexes := w.mutexes[i := m], held := w.held[i := w.held[i][cur := w.held[i][cur] - 1]])
    case LockedOp =>
      var i := w.pc[cur].m;
      w.(pc := w.pc[cur := Run], held := w.held[i := w.held[i][cur := w.held[i][cur] + 1]])
    case WaitOp(c, i) =>
      var (k', q, m, y) := CvWait(k, w.cvs[c], w.mutexes[i]);
      w.(k := k', cvs := w.cvs[c := q], mutexes := w.mutexes[i := m],
         pc := w.pc[cur := if y then CvYield(i) else CvRelock(i)],
         held := w.held[i := w.held[i][cur := w.held[i][cur] - 1]])
    case WaitYieldOp => w.(k := NextTcb(k), pc := w.pc[cur := CvRelock(w.pc[cur].m)])
    case WaitLockOp => Lock1(w, w.pc[cur].m)
    case NotifyOp(c) => var (k', q) := Notify(k, w.cvs[c]); w.(k := k', cvs := w.cvs[c := q])
    case NotifyAllOp(c) => w.(k := NotifyAll(k, w.cvs[c]), cvs := w.cvs[c := []])
  }

  // ---- The invariant -----------------------------------------------------------------------

  /** Every wait queue holds, once each, exactly the tasks waiting there. */
  ghost predicate QueuesPlaced(w: World, loc: Locs) {
    && (forall l | Exists(w, l) :: Holds(Queue(w, l), l, loc))
    && (forall t: Tid :: loc[t].Waiting() ==> Exists(w, loc[t]))
  }

  /** A free mutex has no depth, waiter or guard; otherwise only the owner has guards, one for each
      level of depth except that an owner woken by a hand-off has yet to return with its first. */
  ghost predicate MutexOk(w: World, loc: Locs, i: nat)
    requires i < |w.mutexes| == |w.held|
  {
    var m := w.mutexes[i];
    match m.owner
    case None => m.depth == 0 && m.queue == [] && forall t: Tid :: w.held[i][t] == 0
    case Some(o) =>
      && loc[o] != Dead && loc[o] != WaitMutex(i) && 1 <= m.depth < U32
      && m.depth == w.held[i][o] + (if w.pc[o] == InLock(i) then 1 else 0)
      && forall t: Tid | t != o :: w.held[i][t] == 0
  }

  /** A task inside `lock` waits for that mutex or has been made its owner; a task waiting on an
      object stands in the matching call. */
  ghost predicate PcOk(w: World, loc: Locs, t: Tid) {
    && (match w.pc[t]
        case Run => true
        case InLock(i) => i < |w.mutexes| && (loc[t] == WaitMutex(i) || w.mutexes[i].owner == Some(t))
        case CvYield(i) => i < |w.mutexes|
        case CvRelock(i) => i < |w.mutexes|)
    && (loc[t].WaitMutex? ==> w.pc[t] == InLock(loc[t].id))
    && (loc[t].WaitCv? ==> w.pc[t].CvYield? || w.pc[t].CvRelock?)
    && (loc[t].WaitSema? ==> w.pc[t] == Run)
  }

  ghost predicate Inv(w: World, loc: Locs) {
    && Wf(w)
    && Placed(w.k, loc) && !w.k.panicked
    && (w.k.started ==> Settled(w.k, loc, w.idle) && w.pc[w.idle] == Run)
    && QueuesPlaced(w, loc)
    && (forall i | 0 <= i < |w.mutexes| :: MutexOk(w, loc, i))
    && (forall t: Tid :: PcOk(w, loc, t))
  }

  ghost predicate Initial(w: World) {
    && w.k == Boot()
    && (forall s | s in w.semas :: 0 <= s.count <= I32_MAX && s.queue == [])
    && (forall m | m in w.mutexes :: m == MutexS(None, 0, []))
    && (forall q | q in w.cvs :: q == [])
    && w.pc == seq(TASK_MAX, _ => Run)
    && w.held == seq(|w.mutexes|, _ => seq(TASK_MAX, _ => 0))
  }

  lemma InitialInv(w: World)
    requires Initial(w)
    ensures Inv(w, seq(TASK_MAX, _ => Dead))
  {
    var loc: Locs := seq(TASK_MAX, _ => Dead);
    forall l | Exists(w, l) ensures Queue(w, l) == [] {
      match l
      case WaitSema(i) => assert w.semas[i] in w.semas;
      case WaitMutex(i) => assert w.mutexes[i] in w.mutexes;
      case WaitCv(i) => assert w.cvs[i] in w.cvs;
    }
    forall i | 0 <= i < |w.mutexes| ensures MutexOk(w, loc, i) {
      assert w.mutexes[i] in w.mutexes;
    }
  }

  // ---- Every step keeps it -----------------------------------------------------------------

  lemma UninvolvedAt(w: World, loc: Locs, t: Tid)
    requires Inv(w, loc) && Uninvolved(w, t)
    ensures !loc[t].Waiting()
  {
    assert forall l | Exists(w, l) :: Holds(Queue(w, l), l, loc);
  }

  /** A kernel operation that moves at most task `t`, and not from or to an object's queue. */
  lemma KernelStep(w: World, loc: Locs, k': K, loc': Locs, t: Tid)
    requires Inv(w, loc) && Settled(k', loc', w.idle) && w.pc[w.idle] == Run
    requires OthersStay(loc, loc', {t}) && !loc[t].Waiting() && !loc'[t].Waiting()
    requires loc'[t] == Dead ==> forall i | 0 <= i < |w.mutexes| :: w.mutexes[i].owner != Some(t)
    ensures Inv(w.(k := k'), loc')
  {
    var w' := w.(k := k');
    forall l | Exists(w', l) ensures Holds(Queue(w', l), l, loc') {
      assert Holds(Queue(w, l), l, loc);
      Moved(Queue(w, l), l, loc, loc');
    }
    forall i | 0 <= i < |w.mutexes| ensures MutexOk(w', loc', i) {
      assert MutexOk(w, loc, i);
    }
    forall u: Tid ensures PcOk(w', loc', u) {
      assert PcOk(w, loc, u);
    }
  }

  /** A task comes into existence, possibly as the idle task. */
  lemma CreateStep(w: World, loc: Locs, k': K, loc': Locs, t: Tid, idle: Tid)
    requires Inv(w, loc) && Placed(k', loc') && !k'.panicked
    requires loc[t] == Dead && loc'[t] == InReady && OthersStay(loc, loc', {t})
    requires k'.started ==> Settled(k', loc', idle) && (idle == t || w.pc[idle] == Run)
    ensures Inv(w.(k := k', pc := w.pc[t := Run], idle := idle), loc')
  {
    var w' := w.(k := k', pc := w.pc[t := Run], idle := idle);
    forall l | Exists(w', l) ensures Holds(Queue(w', l), l, loc') {
      assert Holds(Queue(w, l), l, loc);
      Moved(Queue(w, l), l, loc, loc');
    }
    forall i | 0 <= i < |w.mutexes| ensures MutexOk(w', loc', i) {
      assert MutexOk(w, loc, i);
    }
    forall u: Tid ensures PcOk(w', loc', u) {
      assert PcOk(w, loc, u);
    }
  }

  lemma CreateOpStep(w: World, loc: Locs, op: Op) returns (loc': Locs)
    requires Inv(w, loc) && Enabled(w, op) && (op.CreateOp? || op.CreateRawOp?)
    ensures Inv(Next(w, op), loc')
    ensures Next(w, op).k.started == w.k.started
  {
    var p := op.priority;
    var (k', r) := if op.CreateOp? then Create(w.k, p) else CreateRaw(w.k, p);
    if op.CreateOp? && w.k.started {
      loc' := CreateSettles(w.k, loc, w.idle, p);
    } else {
      loc' := CreateRawPlaced(w.k, loc, p);
    }
    if r.Some? {
      CreateStep(w, loc, k', loc', r.value, w.idle);
    }
  }

  lemma LaunchStep(w: World, loc: Locs) returns (loc': Locs)
    requires Inv(w, loc) && Enabled(w, LaunchOp)
    ensures Inv(Next(w, LaunchOp), loc')
    ensures Next(w, LaunchOp).k.started
  {
    var idle;
    loc', idle := LaunchSettles(w.k, loc);
    CreateStep(w, loc, Launch(w.k), loc', idle, idle);
  }

  lemma EndOpStep(w: World, loc: Locs, op: Op) returns (loc': Locs)
    requires Inv(w, loc) && Enabled(w, op) && (op.ExitOp? || op.TerminateOp?)
    ensures Inv(Next(w, op), loc')
    ensures Next(w, op).k.started
  {
    if op.ExitOp? {
      loc' := ExitSettles(w.k, loc, w.idle);
      KernelStep(w, loc, ExitCurrent(w.k), loc', w.k.cur);
    } else {
      UninvolvedAt(w, loc, op.t);
      loc' := TerminateSettles(w.k, loc, w.idle, op.t);
      KernelStep(w, loc, Terminate(w.k, op.t), loc', op.t);
    }
  }

  lemma BlockStep(w: World, loc: Locs, t: Tid) returns (loc': Locs)
    requires Inv(w, loc) && Enabled(w, BlockOp(t))
    ensures Inv(Next(w, BlockOp(t)), loc')
    ensures Next(w, BlockOp(t)).k.started
  {
    assert TaskAgrees(w.k, loc, t);
    if loc[t] == InReady {
      loc' := BlockSettles(w.k, loc, w.idle, t);
      KernelStep(w, loc, Block(w.k, t), loc', t);
    } else {
      loc' := loc;
    }
  }

  lemma SchedOpStep(w: World, loc: Locs, op: Op) returns (loc': Locs)
    requires Inv(w, loc) && Enabled(w, op)
    requires op.ResumeOp? || op.DelayOp? || op.YieldOp? || op.SwitchOp? || op.SystickOp?
    ensures Inv(Next(w, op), loc')
    ensures Next(w, op).k.started
  {
    var k := w.k;
    var k' := Next(w, op).k;
    var moved := k.cur;
    match op {
    case ResumeOp(t) =>
      loc' := ResumeSettles(k, loc, w.idle, t);
      moved := if loc[t] == InBlocked then t else k.cur;
    case DelayOp(n) =>
      loc' := DelaySettles(k, loc, w.idle, n);
    case YieldOp =>
      loc' := NextTcbSettles(k, loc, w.idle);
    case SwitchOp =>
      loc' := NextTcbSettles(k, loc, w.idle);
    case SystickOp(missed, deferred) =>
      loc' := SystickTrapSettles(k, loc, w.idle, missed, deferred);
    }
    KernelStep(w, loc, k', loc', moved);
  }

  /** The queues other than the one at `l` after a step that involves only `l`. */
  lemma OtherQueues(w: World, w': World, loc: Locs, loc': Locs, l: Loc)
    requires QueuesPlaced(w, loc) && Exists(w, l) && Exists(w', l) && Holds(Queue(w', l), l, loc')
    requires forall x :: Exists(w', x) <==> Exists(w, x)
    requires forall x | Exists(w, x) && x != l :: Queue(w', x) == Queue(w, x)
    requires forall t: Tid | loc'[t] != loc[t] ::
               (loc[t].Waiting() ==> loc[t] == l) && (loc'[t].Waiting() ==> loc'[t] == l)
    ensures QueuesPlaced(w', loc')
  {
    forall x | Exists(w', x) ensures Holds(Queue(w', x), x, loc') {
      if x != l {
        assert Holds(Queue(w, x), x, loc);
        Moved(Queue(w, x), x, loc, loc');
      }
    }
  }

  /** A step on semaphore `i`: at most `t` moves, between the ready list and its queue. */
  lemma SemaStep(w: World, loc: Locs, i: nat, k': K, s': SemaS, loc': Locs, t: Tid)
    requires Inv(w, loc) && w.k.started && i < |w.semas| && Settled(k', loc', w.idle)
    requires Holds(s'.queue, WaitSema(i), loc') && OthersStay(loc, loc', {t})
    requires loc[t] == InReady || (loc[t] == WaitSema(i) && loc'[t] == InReady)
    requires loc[t] == InReady ==> loc'[t] == InReady || (loc'[t] == WaitSema(i) && w.pc[t] == Run)
    ensures Inv(w.(k := k', semas := w.semas[i := s']), loc')
  {
    var w' := w.(k := k', semas := w.semas[i := s']);
    OtherQueues(w, w', loc, loc', WaitSema(i));
    forall j | 0 <= j < |w.mutexes| ensures MutexOk(w', loc', j) {
      assert MutexOk(w, loc, j);
    }
    forall u: Tid ensures PcOk(w', loc', u) {
      assert PcOk(w, loc, u);
    }
  }

  lemma UpStep(w: World, loc: Locs, i: nat, k': K, s': SemaS, loc': Locs)
    requires Inv(w, loc) && w.k.started && i < |w.semas| && Settled(k', loc', w.idle)
    requires FrontLeaves(w.semas[i], s', WaitSema(i), loc, loc')
    ensures Inv(w.(k := k', semas := w.semas[i := s']), loc')
  {
    var q := w.semas[i].queue;
    assert Holds(Queue(w, WaitSema(i)), WaitSema(i), loc);
    assert q != [] ==> q[0] in q;
    SemaStep(w, loc, i, k', s', loc', if s'.count <= 0 && q != [] then q[0] else w.k.cur);
  }

  lemma SemaOpStep(w: World, loc: Locs, op: Op) returns (loc': Locs)
    requires Inv(w, loc) && Enabled(w, op)
    requires op.IsrUpOp? || op.DownOp? || op.UpOp? || op.TryDownOp?
    ensures Inv(Next(w, op), loc')
    ensures Next(w, op).k.started
  {
    var i := op.s;
    var l := WaitSema(i);
    var s := w.semas[i];
    assert Holds(Queue(w, l), l, loc);
    assert s.queue != [] ==> s.queue[0] in s.queue;
    match op
    case IsrUpOp(_) =>
      loc' := UpFromIsrSettles(w.k, s, loc, l, w.idle);
      UpStep(w, loc, i, UpFromIsr(w.k, s).0, UpFromIsr(w.k, s).1, loc');
    case UpOp(_) =>
      loc' := UpSettles(w.k, s, loc, l, w.idle);
      UpStep(w, loc, i, Up(w.k, s).0, Up(w.k, s).1, loc');
    case DownOp(_) =>
      loc' := DownSettles(w.k, s, loc, l, w.idle);
      SemaStep(w, loc, i, Down(w.k, s).0, Down(w.k, s).1, loc', w.k.cur);
    case TryDownOp(_) =>
      loc' := loc;
      SemaStep(w, loc, i, w.k, TryDown(s).0, loc', w.k.cur);
  }

  lemma LockGoes(w: World, loc: Locs, i: nat)
    requires Inv(w, loc) && w.k.started && w.k.cur != w.idle && i < |w.mutexes|
    requires !w.pc[w.k.cur].InLock? && w.mutexes[i].depth < U32 - 1
    requires w.mutexes[i].owner.None? || w.mutexes[i].owner.value == w.k.cur
    ensures Inv(Lock1(w, i), loc)
  {
    var w' := Lock1(w, i);
    assert MutexOk(w, loc, i);
    forall l | Exists(w', l) ensures Holds(Queue(w', l), l, loc) {
      assert Holds(Queue(w, l), l, loc);
    }
    forall j | 0 <= j < |w.mutexes| ensures MutexOk(w', loc, j) {
      assert MutexOk(w, loc, j);
    }
    forall u: Tid ensures PcOk(w', loc, u) {
      assert PcOk(w, loc, u);
    }
  }

  /** The step of a task that blocks in `lock`. */
  lemma LockBlocks(w: World, loc: Locs, i: nat, k': K, q: seq<Tid>, loc': Locs)
    requires Inv(w, loc) && w.k.started && i < |w.mutexes| && !w.pc[w.k.cur].InLock?
    requires w.mutexes[i].owner.Some? && w.mutexes[i].owner.value != w.k.cur && w.k.cur != w.idle
    requires Settled(k', loc', w.idle) && Holds(q, WaitMutex(i), loc')
    requires loc'[w.k.cur] == WaitMutex(i) && OthersStay(loc, loc', {w.k.cur})
    ensures Inv(w.(k := k', mutexes := w.mutexes[i := w.mutexes[i].(queue := q)],
                   pc := w.pc[w.k.cur := InLock(i)]), loc')
  {
    var w' := w.(k := k', mutexes := w.mutexes[i := w.mutexes[i].(queue := q)],
                 pc := w.pc[w.k.cur := InLock(i)]);
    OtherQueues(w, w', loc, loc', WaitMutex(i));
    forall j | 0 <= j < |w.mutexes| ensures MutexOk(w', loc', j) {
      assert MutexOk(w, loc, j);
    }
    forall u: Tid ensures PcOk(w', loc', u) {
      assert PcOk(w, loc, u);
    }
  }

  lemma LockStep(w: World, loc: Locs, i: nat) returns (loc': Locs)
    requires Inv(w, loc) && w.k.started && w.k.cur != w.idle && i < |w.mutexes|
    requires !w.pc[w.k.cur].InLock? && w.mutexes[i].depth < U32 - 1
    ensures Inv(Lock1(w, i), loc')
    ensures Lock1(w, i).k.started
  {
    var m := w.mutexes[i];
    var l := WaitMutex(i);
    if m.owner.None? || m.owner.value == w.k.cur {
      loc' := loc;
      LockGoes(w, loc, i);
    } else {
      assert Holds(Queue(w, l), l, loc);
      var (k', m') := Lock(w.k, m);
      loc' := LockSettles(w.k, m, loc, l, w.idle);
      LockBlocks(w, loc, i, k', m'.queue, loc');
    }
  }

  lemma LockedStep(w: World, loc: Locs)
    requires Inv(w, loc) && w.k.started && w.pc[w.k.cur].InLock?
    ensures Enabled(w, LockedOp) && Inv(Next(w, LockedOp), loc)
    ensures w.mutexes[w.pc[w.k.cur].m].owner == Some(w.k.cur)
  {
    var i := w.pc[w.k.cur].m;
    assert PcOk(w, loc, w.k.cur) && MutexOk(w, loc, i);
    var w' := Next(w, LockedOp);
    forall l | Exists(w', l) ensures Holds(Queue(w', l), l, loc) {
      assert Holds(Queue(w, l), l, loc);
    }
    forall j | 0 <= j < |w.mutexes| ensures MutexOk(w', loc, j) {
      assert MutexOk(w, loc, j);
    }
    forall u: Tid ensures PcOk(w', loc, u) {
      assert PcOk(w, loc, u);
    }
  }

  /** The mutexes and the task positions after a step in which the current task gave up one level
      of mutex `i`, going on with `pc[cur] == p` or to a condition variable. */
  ghost predicate GaveUp(w: World, w': World, loc: Locs, loc': Locs, i: nat)
    requires Inv(w, loc) && i < |w.mutexes|
  {
    var cur, m := w.k.cur, w.mutexes[i];
    && Settled(w'.k, loc', w.idle) && m.owner == Some(cur) && w.held[i][cur] > 0 && cur != w.idle
    && w.k.started && w.pc[cur] == Run
    && |w'.mutexes| == |w.mutexes|
    && w'.mutexes == w.mutexes[i := w'.mutexes[i]]
    && w'.held == w.held[i := w.held[i][cur := w.held[i][cur] - 1]]
    && w'.idle == w.idle && w'.pc == w.pc[cur := w'.pc[cur]]
    && ((loc'[cur] == InReady && w'.pc[cur] == Run)
        || (loc'[cur].WaitCv? && w'.pc[cur] in {CvYield(i), CvRelock(i)}))
    && (if m.depth > 1 then w'.mutexes[i] == m.(depth := m.depth - 1) && OthersStay(loc, loc', {cur})
        else if m.queue == [] then w'.mutexes[i] == MutexS(None, 0, []) && OthersStay(loc, loc', {cur})
        else w'.mutexes[i] == MutexS(Some(m.queue[0]), 1, m.queue[1..])
             && loc'[m.queue[0]] == InReady && OthersStay(loc, loc', {cur, m.queue[0]}))
  }

  lemma GaveUpMutexes(w: World, w': World, loc: Locs, loc': Locs, i: nat, j: nat)
    requires Inv(w, loc) && i < |w.mutexes| && GaveUp(w, w', loc, loc', i) && j < |w.mutexes|
    ensures MutexOk(w', loc', j)
  {
    var m := w.mutexes[i];
    assert MutexOk(w, loc, j) && MutexOk(w, loc, i);
    assert Holds(Queue(w, WaitMutex(i)), WaitMutex(i), loc);
    if m.queue != [] {
      assert m.queue[0] in m.queue && PcOk(w, loc, m.queue[0]);
    }
  }

  lemma GaveUpPcs(w: World, w': World, loc: Locs, loc': Locs, i: nat, u: Tid)
    requires Inv(w, loc) && i < |w.mutexes| && GaveUp(w, w', loc, loc', i)
    ensures PcOk(w', loc', u)
  {
    var m := w.mutexes[i];
    assert PcOk(w, loc, u) && MutexOk(w, loc, i);
    assert Holds(Queue(w, WaitMutex(i)), WaitMutex(i), loc);
    if m.queue != [] {
      assert m.queue[0] in m.queue && PcOk(w, loc, m.queue[0]);
    }
  }

  lemma GaveUpInv(w: World, w': World, loc: Locs, loc': Locs, i: nat)
    requires Inv(w, loc) && i < |w.mutexes| && GaveUp(w, w', loc, loc', i) && QueuesPlaced(w', loc')
    ensures Inv(w', loc')
  {
    forall j | 0 <= j < |w'.mutexes| ensures MutexOk(w', loc', j) {
      GaveUpMutexes(w, w', loc, loc', i, j);
    }
    forall u: Tid ensures PcOk(w', loc', u) {
      GaveUpPcs(w, w', loc, loc', i, u);
    }
  }

  /** A task that has a guard owns the mutex. */
  lemma HolderOwns(w: World, loc: Locs, i: nat, t: Tid)
    requires Inv(w, loc) && i < |w.mutexes| && w.held[i][t] > 0
    ensures w.mutexes[i].owner == Some(t) && loc[t] != Dead
    ensures WrapU32(w.mutexes[i].depth - 1) == w.mutexes[i].depth - 1
  {
    assert MutexOk(w, loc, i);
  }

  lemma UnlockStep(w: World, loc: Locs, i: nat) returns (loc': Locs)
    requires Inv(w, loc) && Enabled(w, UnlockOp(i))
    ensures Inv(Next(w, UnlockOp(i)), loc')
    ensures Next(w, UnlockOp(i)).k.started
  {
    var l, m := WaitMutex(i), w.mutexes[i];
    var w' := Next(w, UnlockOp(i));
    HolderOwns(w, loc, i, w.k.cur);
    assert Holds(Queue(w, l), l, loc);
    assert m.queue != [] ==> m.queue[0] in m.queue;
    loc' := UnlockPlaced(w.k, m, loc, l, w.idle);
    OtherQueues(w, w', loc, loc', l);
    GaveUpInv(w, w', loc, loc', i);
  }

  /** The mutex after `wait`, as `CvWait` leaves it. */
  lemma WaitMutexAfter(k: K, q: seq<Tid>, m: MutexS)
    requires 1 <= m.depth < U32
    ensures CvWait(k, q, m).2 == (if m.depth > 1 then m.(depth := m.depth - 1)
                                  else if m.queue == [] then MutexS(None, 0, [])
                                  else MutexS(Some(m.queue[0]), 1, m.queue[1..]))
  {
    assert WrapU32(m.depth - 1) == m.depth - 1;
  }

  /** What a step of `wait` must have left: the kernel state, both queues and the task's position. */
  lemma WaitedInv(w: World, loc: Locs, c: nat, i: nat, k': K, q': seq<Tid>, m': MutexS, p: Pc, loc': Locs)
    requires Inv(w, loc) && Enabled(w, WaitOp(c, i)) && Settled(k', loc', w.idle)
    requires Holds(q', WaitCv(c), loc') && Holds(m'.queue, WaitMutex(i), loc')
    requires loc'[w.k.cur] == WaitCv(c) && p in {CvYield(i), CvRelock(i)}
    requires var m := w.mutexes[i];
             if m.depth > 1 then m' == m.(depth := m.depth - 1) && OthersStay(loc, loc', {w.k.cur})
             else if m.queue == [] then m' == MutexS(None, 0, []) && OthersStay(loc, loc', {w.k.cur})
             else m' == MutexS(Some(m.queue[0]), 1, m.queue[1..])
                  && loc'[m.queue[0]] == InReady && OthersStay(loc, loc', {w.k.cur, m.queue[0]})
    ensures Inv(w.(k := k', cvs := w.cvs[c := q'], mutexes := w.mutexes[i := m'],
                   pc := w.pc[w.k.cur := p],
                   held := w.held[i := w.held[i][w.k.cur := w.held[i][w.k.cur] - 1]]), loc')
  {
    var lq, lm, m := WaitCv(c), WaitMutex(i), w.mutexes[i];
    HolderOwns(w, loc, i, w.k.cur);
    assert Holds(Queue(w, lm), lm, loc);
    assert m.queue != [] ==> m.queue[0] in m.queue;
    var w' := w.(k := k', cvs := w.cvs[c := q'], mutexes := w.mutexes[i := m'],
                 pc := w.pc[w.k.cur := p],
                 held := w.held[i := w.held[i][w.k.cur := w.held[i][w.k.cur] - 1]]);
    TwoQueues(w, w', loc, loc', lq, lm);
    GaveUpInv(w, w', loc, loc', i);
  }

  lemma WaitStep(w: World, loc: Locs, c: nat, i: nat) returns (loc': Locs)
    requires Inv(w, loc) && Enabled(w, WaitOp(c, i))
    ensures Inv(Next(w, WaitOp(c, i)), loc')
    ensures Next(w, WaitOp(c, i)).k.started
  {
    var lq, lm, m := WaitCv(c), WaitMutex(i), w.mutexes[i];
    HolderOwns(w, loc, i, w.k.cur);
    assert MutexOk(w, loc, i);
    assert Holds(Queue(w, lq), lq, loc) && Holds(Queue(w, lm), lm, loc);
    loc' := CvWaitSettles(w.k, w.cvs[c], m, loc, lq, lm, w.idle);
    WaitMutexAfter(w.k, w.cvs[c], m);
    var (k', q', m', y) := CvWait(w.k, w.cvs[c], m);
    WaitedInv(w, loc, c, i, k', q', m', if y then CvYield(i) else CvRelock(i), loc');
  }

  lemma TwoQueues(w: World, w': World, loc: Locs, loc': Locs, l1: Loc, l2: Loc)
    requires QueuesPlaced(w, loc) && Exists(w, l1) && Exists(w, l2)
    requires forall x :: Exists(w', x) <==> Exists(w, x)
    requires Holds(Queue(w', l1), l1, loc') && Holds(Queue(w', l2), l2, loc')
    requires forall x | Exists(w, x) && x != l1 && x != l2 :: Queue(w', x) == Queue(w, x)
    requires forall t: Tid | loc'[t] != loc[t] ::
               (loc[t].Waiting() ==> loc[t] in {l1, l2}) && (loc'[t].Waiting() ==> loc'[t] in {l1, l2})
    ensures QueuesPlaced(w', loc')
  {
    forall x | Exists(w', x) ensures Holds(Queue(w', x), x, loc') {
      if x != l1 && x != l2 {
        assert Holds(Queue(w, x), x, loc);
        Moved(Queue(w, x), x, loc, loc');
      }
    }
  }

  /** A step that empties (part of) the queue of condition variable `c` onto the ready list. */
  lemma NotifiedInv(w: World, loc: Locs, c: nat, k': K, q: seq<Tid>, loc': Locs, ts: set<Tid>)
    requires Inv(w, loc) && w.k.started && c < |w.cvs| && Settled(k', loc', w.idle)
    requires Holds(q, WaitCv(c), loc') && OthersStay(loc, loc', ts)
    requires forall t | t in ts :: loc[t] == WaitCv(c) && loc'[t] == InReady
    ensures Inv(w.(k := k', cvs := w.cvs[c := q]), loc')
  {
    var w' := w.(k := k', cvs := w.cvs[c := q]);
    OtherQueues(w, w', loc, loc', WaitCv(c));
    forall j | 0 <= j < |w.mutexes| ensures MutexOk(w', loc', j) {
      assert MutexOk(w, loc, j);
    }
    forall u: Tid ensures PcOk(w', loc', u) {
      assert PcOk(w, loc, u);
    }
  }

  lemma NotifyStep(w: World, loc: Locs, op: Op) returns (loc': Locs)
    requires Inv(w, loc) && Enabled(w, op) && (op.NotifyOp? || op.NotifyAllOp?)
    ensures Inv(Next(w, op), loc')
    ensures Next(w, op).k.started
  {
    var l, q := WaitCv(op.c), w.cvs[op.c];
    assert Holds(Queue(w, l), l, loc);
    assert q != [] ==> q[0] in q;
    match op
    case NotifyOp(c) =>
      loc' := NotifySettles(w.k, q, loc, l, w.idle);
      var (k', q') := Notify(w.k, q);
      NotifiedInv(w, loc, c, k', q', loc', if q == [] then {} else {q[0]});
    case NotifyAllOp(c) =>
      loc' := NotifyAllSettles(w.k, q, loc, l, w.idle);
      NotifiedInv(w, loc, c, NotifyAll(w.k, q), [], loc', set t | t in q);
  }

  lemma WaitYieldStep(w: World, loc: Locs) returns (loc': Locs)
    requires Inv(w, loc) && Enabled(w, WaitYieldOp)
    ensures Inv(Next(w, WaitYieldOp), loc')
    ensures Next(w, WaitYieldOp).k.started
  {
    var cur := w.k.cur;
    var w1 := w.(pc := w.pc[cur := CvRelock(w.pc[cur].m)]);
    forall l | Exists(w1, l) ensures Holds(Queue(w1, l), l, loc) {
      assert Holds(Queue(w, l), l, loc);
    }
    forall j | 0 <= j < |w.mutexes| ensures MutexOk(w1, loc, j) {
      assert MutexOk(w, loc, j);
    }
    forall u: Tid ensures PcOk(w1, loc, u) {
      assert PcOk(w, loc, u);
    }
    loc' := NextTcbSettles(w1.k, loc, w1.idle);
    KernelStep(w1, loc, NextTcb(w1.k), loc', cur);
  }

  /** Every enabled step keeps the invariant. */
  lemma StepInv(w: World, loc: Locs, op: Op) returns (loc': Locs)
    requires Inv(w, loc) && Enabled(w, op)
    ensures Inv(Next(w, op), loc')
    ensures Next(w, op).k.started == (w.k.started || op.LaunchOp?)
  {
    if {
      case op.CreateOp? || op.CreateRawOp? =>
        loc' := CreateOpStep(w, loc, op);
      case op.LaunchOp? =>
        loc' := LaunchStep(w, loc);
      case op.ExitOp? || op.TerminateOp? =>
        loc' := EndOpStep(w, loc, op);
      case op.BlockOp? =>
        loc' := BlockStep(w, loc, op.t);
      case op.ResumeOp? || op.DelayOp? || op.YieldOp? || op.SwitchOp? || op.SystickOp? =>
        loc' := SchedOpStep(w, loc, op);
      case op.IsrUpOp? || op.DownOp? || op.UpOp? || op.TryDownOp? =>
        loc' := SemaOpStep(w, loc, op);
      case op.LockOp? =>
        loc' := LockStep(w, loc, op.m);
      case op.WaitLockOp? =>
        loc' := LockStep(w, loc, w.pc[w.k.cur].m);
      case op.LockedOp? =>
        LockedStep(w, loc);
        loc' := loc;
      case op.UnlockOp? =>
        loc' := UnlockStep(w, loc, op.m);
      case op.WaitOp? =>
        loc' := WaitStep(w, loc, op.c, op.m);
      case op.WaitYieldOp? =>
        loc' := WaitYieldStep(w, loc);
      case op.NotifyOp? || op.NotifyAllOp? =>
        loc' := NotifyStep(w, loc, op);
    }
  }
}
