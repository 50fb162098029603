/** The generation barrier of core/src/kernel/sync.rs, as the program its users run on the system of
    `World`: a mutex, a condition variable, a counter and a generation number. The tasks of a team call
    `wait` any number of times; everything else goes on around them. */
module Barrier {
  import opened Config
  import opened KernelSpec
  import opened Place
  import opened World
  import opened Safety
  import Globals
  import Monitor

  /** A barrier for `total` arrivals, made of mutex `m` and condition variable `c`, which only the
      tasks in `team` use. */
  datatype Bar = Bar(m: nat, c: nat, total: nat, team: set<Tid>)

  /** Where a task stands in `wait`: outside; blocked in the first lock; locked, about to arrive; last
      to arrive, about to unlock, then to notify; about to wait on the condition variable; in that wait;
      back from it with the mutex, about to look at the generation; about to unlock and leave. */
  datatype Phase = Out | Locking | Head | Dropping | Notifying | ToWait | Waiting | Checking | Leaving
  {
    /** The task has the guard of the barrier's mutex. */
    predicate Holding() {
      Head? || Dropping? || ToWait? || Checking? || Leaving?
    }
    /** The task has arrived and not yet left. */
    predicate Inside() {
      Dropping? || Notifying? || ToWait? || Waiting? || Checking? || Leaving?
    }
  }

  type Phases = s: seq<Phase> | |s| == TASK_MAX witness seq(TASK_MAX, _ => Out)
  type Gens = s: seq<nat> | |s| == TASK_MAX witness seq(TASK_MAX, _ => 0)

  /** `gen` counts generations without wrapping; the program stores `gen` and the tasks' `mine` in a
      `u32`. History: `arrived[g]` counts the arrivals of generation `g`. */
  datatype B = B(w: World, gen: nat, count: nat, arrived: seq<nat>, phase: Phases, mine: Gens)

  datatype Step = Sys(op: Op) | Arrive | Check

  predicate Touches(bar: Bar, op: Op) {
    op in {LockOp(bar.m), UnlockOp(bar.m), NotifyOp(bar.c), NotifyAllOp(bar.c)}
    || (op.WaitOp? && (op.m == bar.m || op.c == bar.c))
  }

  /** What the program lets the current task do. A task of the team does not end. */
  predicate Follows(bar: Bar, b: B, op: Op) {
    var cur := b.w.k.cur;
    && (op.TerminateOp? ==> op.t !in bar.team)
    && (op.Interrupt() ||
        match b.phase[cur]
        case Out => (cur in bar.team && op == LockOp(bar.m))
                    || (!Touches(bar, op) && (cur in bar.team ==> !op.ExitOp?))
        case Locking => op == LockedOp
        case Dropping => op == UnlockOp(bar.m)
        case Leaving => op == UnlockOp(bar.m)
        case Notifying => op == NotifyAllOp(bar.c)
        case ToWait => op == WaitOp(bar.c, bar.m)
        case Waiting => op in {WaitYieldOp, WaitLockOp, LockedOp}
        case _ => false)
  }

  ghost predicate CanStep(bar: Bar, b: B, step: Step) {
    && b.w.k.started
    && match step
       case Sys(op) => Enabled(b.w, op) && Follows(bar, b, op)
       case Arrive => b.phase[b.w.k.cur] == Head
       case Check => b.phase[b.w.k.cur] == Checking
  }

  /** The phase of the current task after its step `op` led to `pc`. */
  function PhaseAfter(bar: Bar, phase: Phase, op: Op, pc: Pc): Phase {
    if op.Interrupt() then phase
    else
      match phase
      case Out => if op == LockOp(bar.m) then (if pc.Run? then Head else Locking) else Out
      case Locking => Head
      case Dropping => Notifying
      case Notifying => Out
      case Leaving => Out
      case ToWait => Waiting
      case Waiting => if pc.Run? then Checking else Waiting
      case _ => phase
  }

  function Do(bar: Bar, b: B, step: Step): B
    requires CanStep(bar, b, step)
  {
    var t := b.w.k.cur;
    match step
    case Sys(op) =>
      var w' := Next(b.w, op);
      b.(w := w', phase := b.phase[t := PhaseAfter(bar, b.phase[t], op, w'.pc[t])])
    case Arrive =>
      var n := b.count + 1;
      var arrived := if b.gen < |b.arrived| then b.arrived[b.gen := b.arrived[b.gen] + 1] else b.arrived;
      if n == bar.total then
        b.(count := 0, gen := b.gen + 1, arrived := arrived + [0],
           phase := b.phase[t := Dropping], mine := b.mine[t := b.gen])
      else b.(count := n, arrived := arrived, phase := b.phase[t := ToWait], mine := b.mine[t := b.gen])
    case Check =>
      b.(phase := b.phase[t := if WrapU32(b.gen) != WrapU32(b.mine[t]) then Leaving else ToWait])
  }

  // ---- The invariant -----------------------------------------------------------------------

  ghost predicate PhaseOk(bar: Bar, b: B, t: Tid)
    requires bar.m < |b.w.held|
  {
    var p, pc := b.phase[t], b.w.pc[t];
    && (t !in bar.team ==> p.Out?)
    && (p.Out? ==> pc.Run? || pc.m != bar.m)
    && (p.Locking? ==> pc == InLock(bar.m))
    && (p.Waiting? ==> !pc.Run? && pc.m == bar.m)
    && (p.Notifying? ==> pc.Run?)
    && (p.Holding() ==> pc.Run? && b.w.held[bar.m][t] > 0)
  }

  /** The generation a task arrived in; the last to arrive and whoever leaves have seen it end. */
  ghost predicate MineOk(b: B, t: Tid) {
    && (b.phase[t].Inside() ==> b.mine[t] <= b.gen)
    && (b.phase[t] in {Dropping, Notifying, Leaving} ==> b.mine[t] < b.gen)
  }

  ghost predicate CountsOk(bar: Bar, b: B) {
    && b.count < bar.total && |b.arrived| == b.gen + 1 && b.arrived[b.gen] == b.count
    && forall g | 0 <= g < b.gen :: b.arrived[g] == bar.total
  }

  ghost predicate BInv(bar: Bar, b: B, loc: Locs) {
    && Inv(b.w, loc) && b.w.k.started
    && bar.m < |b.w.mutexes| && bar.c < |b.w.cvs| && bar.team <= b.w.k.used
    && CountsOk(bar, b)
    && (forall t: Tid :: PhaseOk(bar, b, t) && MineOk(b, t))
    && (forall t | t in b.w.cvs[bar.c] :: b.phase[t] == Waiting)
  }

  /** A new barrier: nobody has used its mutex and condition variable. */
  ghost predicate Fresh(bar: Bar, b: B) {
    && bar.total > 0 && bar.m < |b.w.mutexes| && bar.c < |b.w.cvs| && bar.team <= b.w.k.used
    && b.w.cvs[bar.c] == [] && (forall t: Tid :: b.w.pc[t].Run? || b.w.pc[t].m != bar.m)
    && b.gen == 0 && b.count == 0 && b.arrived == [0] && b.phase == seq(TASK_MAX, _ => Out)
  }

  lemma FreshInv(bar: Bar, b: B, loc: Locs)
    requires Fresh(bar, b) && Inv(b.w, loc) && b.w.k.started
    ensures BInv(bar, b, loc)
  {
  }

  // ---- What a step of the system leaves alone ----------------------------------------------

  /** A step changes only the current task's position and guards; a new task starts in its own code. */
  lemma PositionsStay(w: World, loc: Locs, op: Op, t: Tid, m: nat)
    requires Inv(w, loc) && Enabled(w, op) && w.k.started && t != w.k.cur && m < |w.held|
    ensures Next(w, op).pc[t] == w.pc[t] || (t !in w.k.used && Next(w, op).pc[t] == Run)
    ensures |Next(w, op).held| == |w.held| && Next(w, op).held[m][t] == w.held[m][t]
  {
    if op.CreateOp? || op.CreateRawOp? {
      var r := CreateRaw(w.k, op.priority).1;
      assert r.Some? ==> r.value !in w.k.used;
    }
  }

  // ---- Every step keeps the invariant ------------------------------------------------------

  lemma OthersOk(bar: Bar, b: B, loc: Locs, op: Op, t: Tid)
    requires BInv(bar, b, loc) && CanStep(bar, b, Sys(op)) && t != b.w.k.cur
    ensures |Do(bar, b, Sys(op)).w.held| == |b.w.held| && PhaseOk(bar, Do(bar, b, Sys(op)), t)
  {
    PositionsStay(b.w, loc, op, t, bar.m);
    assert PhaseOk(bar, b, t);
  }

  /** The current task, when its step has nothing to do with the barrier. */
  lemma OutsideOk(bar: Bar, b: B, loc: Locs, op: Op)
    requires BInv(bar, b, loc) && CanStep(bar, b, Sys(op))
    requires op.Interrupt() || (b.phase[b.w.k.cur].Out? && op != LockOp(bar.m))
    ensures |Do(bar, b, Sys(op)).w.held| == |b.w.held| && PhaseOk(bar, Do(bar, b, Sys(op)), b.w.k.cur)
  {
    assert PhaseOk(bar, b, b.w.k.cur);
    if op.CreateOp? || op.CreateRawOp? {
      CreationKeepsCurrent(b.w, loc, op);
    }
  }

  lemma CreationKeepsCurrent(w: World, loc: Locs, op: Op)
    requires Inv(w, loc) && w.k.started && Enabled(w, op) && (op.CreateOp? || op.CreateRawOp?)
    ensures Next(w, op).pc[w.k.cur] == w.pc[w.k.cur] && Next(w, op).held == w.held
  {
    var r := CreateRaw(w.k, op.priority).1;
    assert TaskAgrees(w.k, loc, w.k.cur);
    assert r.Some? ==> r.value !in w.k.used;
  }

  lemma LockedOk(bar: Bar, b: B, loc: Locs)
    requires BInv(bar, b, loc) && CanStep(bar, b, Sys(LockedOp)) && b.w.k.cur in bar.team
    requires !b.phase[b.w.k.cur].Out?
    ensures var b' := Do(bar, b, Sys(LockedOp)); |b'.w.held| == |b.w.held| && PhaseOk(bar, b', b.w.k.cur)
  {
    assert PhaseOk(bar, b, b.w.k.cur);
  }

  /** Where a lock call on mutex `i` leaves the caller. */
  lemma LockLeaves(w: World, i: nat)
    requires i < |w.mutexes| == |w.held|
    ensures var (w', t) := (Lock1(w, i), w.k.cur);
            && |w'.held| == |w.held|
            && (w'.pc[t] == InLock(i) || (w'.pc[t] == Run && w'.held[i][t] > 0))
  {
  }

  lemma LocksOk(bar: Bar, b: B, loc: Locs, op: Op)
    requires BInv(bar, b, loc) && CanStep(bar, b, Sys(op)) && b.w.k.cur in bar.team
    requires op in {LockOp(bar.m), LockedOp, WaitLockOp} && (b.phase[b.w.k.cur].Out? ==> op.LockOp?)
    ensures |Do(bar, b, Sys(op)).w.held| == |b.w.held| && PhaseOk(bar, Do(bar, b, Sys(op)), b.w.k.cur)
  {
    assert PhaseOk(bar, b, b.w.k.cur);
    if op.LockedOp? {
      LockedOk(bar, b, loc);
    } else {
      LockLeaves(b.w, bar.m);
    }
  }

  lemma WaitsOk(bar: Bar, b: B, loc: Locs, op: Op)
    requires BInv(bar, b, loc) && CanStep(bar, b, Sys(op)) && b.w.k.cur in bar.team
    requires !b.phase[b.w.k.cur].Out?
    requires op in {UnlockOp(bar.m), NotifyAllOp(bar.c), WaitOp(bar.c, bar.m), WaitYieldOp}
    ensures |Do(bar, b, Sys(op)).w.held| == |b.w.held| && PhaseOk(bar, Do(bar, b, Sys(op)), b.w.k.cur)
  {
    assert PhaseOk(bar, b, b.w.k.cur);
  }

  lemma CurrentOk(bar: Bar, b: B, loc: Locs, op: Op)
    requires BInv(bar, b, loc) && CanStep(bar, b, Sys(op))
    ensures |Do(bar, b, Sys(op)).w.held| == |b.w.held| && PhaseOk(bar, Do(bar, b, Sys(op)), b.w.k.cur)
  {
    assert PhaseOk(bar, b, b.w.k.cur);
    if op.Interrupt() || (b.phase[b.w.k.cur].Out? && op != LockOp(bar.m)) {
      OutsideOk(bar, b, loc, op);
    } else if op in {LockOp(bar.m), LockedOp, WaitLockOp} {
      LocksOk(bar, b, loc, op);
    } else {
      WaitsOk(bar, b, loc, op);
    }
  }

  /** The queue of the condition variable after a step. */
  lemma QueueAfter(bar: Bar, b: B, loc: Locs, op: Op)
    requires BInv(bar, b, loc) && CanStep(bar, b, Sys(op))
    ensures var q := Do(bar, b, Sys(op)).w.cvs;
            && |q| == |b.w.cvs|
            && q[bar.c] == (if op == NotifyAllOp(bar.c) then []
                            else if op == WaitOp(bar.c, bar.m) then b.w.cvs[bar.c] + [b.w.k.cur]
                            else b.w.cvs[bar.c])
    ensures b.w.k.cur !in b.w.cvs[bar.c]
  {
    var w' := Do(bar, b, Sys(op)).w;
    assert w' == Next(b.w, op);
    Monitor.CvFifo(b.w, loc, op, bar.c);
    OnlyItsQueueSteps(bar, b, op);
    CurrentQueuesNowhere(b.w, loc, bar.c);
  }

  /** The program waits and notifies on the barrier's condition variable in no other way. */
  lemma OnlyItsQueueSteps(bar: Bar, b: B, op: Op)
    requires CanStep(bar, b, Sys(op))
    ensures op != NotifyOp(bar.c) && (op.WaitOp? && op.c == bar.c ==> op == WaitOp(bar.c, bar.m))
  {
  }

  lemma CurrentQueuesNowhere(w: World, loc: Locs, c: nat)
    requires Inv(w, loc) && w.k.started && c < |w.cvs|
    ensures w.k.cur !in w.cvs[c]
  {
    assert Holds(Queue(w, WaitCv(c)), WaitCv(c), loc);
  }

  lemma TeamLives(bar: Bar, b: B, op: Op)
    requires CanStep(bar, b, Sys(op)) && bar.team <= b.w.k.used
    ensures bar.team <= Next(b.w, op).k.used
  {
    forall t | t in bar.team ensures t in Next(b.w, op).k.used {
      assert op.ExitOp? ==> b.phase[b.w.k.cur].Out?;
      Globals.LivesOn(b.w, op, t);
    }
  }

  lemma SysInv(bar: Bar, b: B, loc: Locs, op: Op) returns (loc': Locs)
    requires BInv(bar, b, loc) && CanStep(bar, b, Sys(op))
    ensures BInv(bar, Do(bar, b, Sys(op)), loc')
  {
    var b' := Do(bar, b, Sys(op));
    loc' := StepInv(b.w, loc, op);
    QueueAfter(bar, b, loc, op);
    CurrentOk(bar, b, loc, op);
    TeamLives(bar, b, op);
    forall t: Tid ensures PhaseOk(bar, b', t) && MineOk(b', t) {
      assert MineOk(b, t);
      if t != b.w.k.cur {
        OthersOk(bar, b, loc, op, t);
      }
    }
    assert |b'.w.mutexes| == |b'.w.held|;
  }

  /** At most one task is in the part of `wait` guarded by the mutex. */
  lemma OneHolder(bar: Bar, b: B, loc: Locs, t: Tid, u: Tid)
    requires BInv(bar, b, loc) && b.phase[t].Holding() && b.phase[u].Holding()
    ensures t == u
  {
    assert PhaseOk(bar, b, t) && PhaseOk(bar, b, u) && MutexOk(b.w, loc, bar.m);
  }

  lemma DataInv(bar: Bar, b: B, loc: Locs, step: Step)
    requires BInv(bar, b, loc) && CanStep(bar, b, step) && !step.Sys?
    ensures BInv(bar, Do(bar, b, step), loc)
  {
    var b' := Do(bar, b, step);
    forall t: Tid ensures PhaseOk(bar, b', t) && MineOk(b', t) {
      assert PhaseOk(bar, b, t) && MineOk(b, t);
    }
  }

  /** Every step keeps the invariant of the barrier. */
  lemma DoInv(bar: Bar, b: B, loc: Locs, step: Step) returns (loc': Locs)
    requires BInv(bar, b, loc) && CanStep(bar, b, step)
    ensures BInv(bar, Do(bar, b, step), loc')
  {
    if step.Sys? {
      loc' := SysInv(bar, b, loc, step.op);
    } else {
      DataInv(bar, b, loc, step);
      loc' := loc;
    }
  }

  ghost predicate Runs(bar: Bar, b: B, steps: seq<Step>, b': B)
    decreases |steps|
  {
    if steps == [] then b' == b
    else CanStep(bar, b, steps[0]) && Runs(bar, Do(bar, b, steps[0]), steps[1..], b')
  }

  lemma {:induction false} RunsInv(bar: Bar, b: B, loc: Locs, steps: seq<Step>, b': B) returns (loc': Locs)
    requires BInv(bar, b, loc) && Runs(bar, b, steps, b')
    ensures BInv(bar, b', loc')
    decreases |steps|
  {
    loc' := loc;
    if steps == [] {
    } else {
      var loc1 := DoInv(bar, b, loc, steps[0]);
      loc' := RunsInv(bar, Do(bar, b, steps[0]), loc1, steps[1..], b');
    }
  }

  /** A task that leaves `wait` leaves a generation that is over: all its `total` arrivals have
      happened. Whatever the size of the team, the interleaving, and how often `wait` is called. */
  lemma NobodyLeavesEarly(w0: World, ops: seq<Op>, bar: Bar, b: B, steps: seq<Step>, b': B, t: Tid)
    requires Initial(w0) && Reaches(w0, ops, b.w) && b.w.k.started && Fresh(bar, b)
    requires Runs(bar, b, steps, b') && b'.phase[t] in {Leaving, Dropping, Notifying}
    ensures b'.mine[t] < b'.gen && b'.mine[t] < |b'.arrived| && b'.arrived[b'.mine[t]] == bar.total
  {
    var loc := ReachableInv(w0, ops, b.w);
    FreshInv(bar, b, loc);
    var loc' := RunsInv(bar, b, loc, steps, b');
    assert MineOk(b', t);
  }

  // ---- A team of exactly `total` -----------------------------------------------------------

  /** The tasks that have arrived in the current generation. */
  function Current(bar: Bar, b: B): set<Tid> {
    set t | t in bar.team && b.phase[t].Inside() && b.mine[t] == b.gen
  }

  /** Somebody is on the way to notifying everyone. */
  ghost predicate NotifierComing(b: B) {
    exists n: Tid :: b.phase[n] in {Dropping, Notifying}
  }

  /** No task inside is more than one generation behind; one about to wait is not behind at all; and
      while one behind still queues, somebody is on the way to notifying. */
  ghost predicate NearOk(bar: Bar, b: B, t: Tid)
    requires bar.c < |b.w.cvs|
  {
    && (b.phase[t].Inside() ==> b.gen <= b.mine[t] + 1)
    && (b.phase[t].ToWait? ==> b.mine[t] == b.gen)
    && (t in b.w.cvs[bar.c] && b.mine[t] < b.gen ==> NotifierComing(b))
  }

  ghost predicate Exact(bar: Bar, b: B)
    requires bar.c < |b.w.cvs|
  {
    && |bar.team| == bar.total && |Current(bar, b)| == b.count
    && forall t: Tid :: NearOk(bar, b, t)
  }

  lemma SysExact(bar: Bar, b: B, loc: Locs, op: Op)
    requires BInv(bar, b, loc) && Exact(bar, b) && CanStep(bar, b, Sys(op))
    ensures bar.c < |Do(bar, b, Sys(op)).w.cvs| && Exact(bar, Do(bar, b, Sys(op)))
  {
    var b', cur := Do(bar, b, Sys(op)), b.w.k.cur;
    QueueAfter(bar, b, loc, op);
    assert PhaseOk(bar, b, cur) && MineOk(b, cur) && NearOk(bar, b, cur);
    assert Current(bar, b') == Current(bar, b);
    forall t: Tid ensures NearOk(bar, b', t) {
      assert NearOk(bar, b, t);
      if t in b'.w.cvs[bar.c] && b'.mine[t] < b'.gen {
        NotifierStays(bar, b, op);
      }
    }
  }

  /** A task on its way to notifying stays on it until it has. */
  lemma NotifierStays(bar: Bar, b: B, op: Op)
    requires CanStep(bar, b, Sys(op)) && NotifierComing(b) && op != NotifyAllOp(bar.c)
    ensures NotifierComing(Do(bar, b, Sys(op)))
  {
    var n: Tid :| b.phase[n] in {Dropping, Notifying};
    assert Do(bar, b, Sys(op)).phase[n] in {Dropping, Notifying};
  }

  lemma AllArrived(team: set<Tid>, now: set<Tid>, t: Tid)
    requires now <= team && t in team && t !in now && |now| + 1 == |team|
    ensures now + {t} == team
  {
    var rest := team - (now + {t});
    assert team == (now + {t}) + rest && |team| == |now + {t}| + |rest|;
  }

  /** The last arrival of a generation finds everybody else inside. */
  lemma LastArrives(bar: Bar, b: B, loc: Locs)
    requires BInv(bar, b, loc) && Exact(bar, b) && CanStep(bar, b, Arrive) && b.count + 1 == bar.total
    ensures Exact(bar, Do(bar, b, Arrive))
  {
    var b', cur := Do(bar, b, Arrive), b.w.k.cur;
    assert PhaseOk(bar, b, cur);
    AllArrived(bar.team, Current(bar, b), cur);
    assert b'.phase[cur] == Dropping;
    assert forall t: Tid :: MineOk(b, t);
    assert Current(bar, b') == {};
    forall t: Tid ensures NearOk(bar, b', t) {
      assert PhaseOk(bar, b, t);
      assert t in bar.team && t != cur ==> t in Current(bar, b);
      if t != cur && b.phase[t].ToWait? {
        OneHolder(bar, b, loc, t, cur);
      }
    }
  }

  lemma NotifierRemains(b: B, b': B, cur: Tid)
    requires NotifierComing(b) && b.phase[cur] !in {Dropping, Notifying}
    requires b'.phase == b.phase[cur := b'.phase[cur]]
    ensures NotifierComing(b')
  {
    var n: Tid :| b.phase[n] in {Dropping, Notifying};
    assert b'.phase[n] in {Dropping, Notifying};
  }

  lemma CurrentGrows(bar: Bar, b: B, loc: Locs)
    requires BInv(bar, b, loc) && CanStep(bar, b, Arrive) && b.count + 1 != bar.total
    ensures Current(bar, Do(bar, b, Arrive)) == Current(bar, b) + {b.w.k.cur}
    ensures b.w.k.cur !in Current(bar, b)
  {
    assert PhaseOk(bar, b, b.w.k.cur);
  }

  lemma EarlierArrives(bar: Bar, b: B, loc: Locs)
    requires BInv(bar, b, loc) && Exact(bar, b) && CanStep(bar, b, Arrive) && b.count + 1 != bar.total
    ensures Exact(bar, Do(bar, b, Arrive))
  {
    var b', cur := Do(bar, b, Arrive), b.w.k.cur;
    CurrentGrows(bar, b, loc);
    if NotifierComing(b) {
      NotifierRemains(b, b', cur);
    }
    forall t: Tid ensures NearOk(bar, b', t) {
      assert NearOk(bar, b, t);
    }
  }

  lemma ArriveExact(bar: Bar, b: B, loc: Locs)
    requires BInv(bar, b, loc) && Exact(bar, b) && CanStep(bar, b, Arrive)
    ensures Exact(bar, Do(bar, b, Arrive))
  {
    if b.count + 1 == bar.total {
      LastArrives(bar, b, loc);
    } else {
      EarlierArrives(bar, b, loc);
    }
  }

  lemma CheckExact(bar: Bar, b: B, loc: Locs)
    requires BInv(bar, b, loc) && Exact(bar, b) && CanStep(bar, b, Check)
    ensures Exact(bar, Do(bar, b, Check))
  {
    var b', cur := Do(bar, b, Check), b.w.k.cur;
    assert PhaseOk(bar, b, cur) && MineOk(b, cur) && NearOk(bar, b, cur);
    assert Current(bar, b') == Current(bar, b);
    if NotifierComing(b) {
      NotifierRemains(b, b', cur);
    }
    forall t: Tid ensures NearOk(bar, b', t) {
      assert NearOk(bar, b, t);
    }
  }

  lemma {:induction false} RunsExact(bar: Bar, b: B, loc: Locs, steps: seq<Step>, b': B) returns (loc': Locs)
    requires BInv(bar, b, loc) && Exact(bar, b) && Runs(bar, b, steps, b')
    ensures BInv(bar, b', loc') && Exact(bar, b')
    decreases |steps|
  {
    loc' := loc;
    if steps == [] {
    } else {
      match steps[0] {
        case Sys(op) => SysExact(bar, b, loc, op);
        case Arrive => ArriveExact(bar, b, loc);
        case Check => CheckExact(bar, b, loc);
      }
      var loc1 := DoInv(bar, b, loc, steps[0]);
      loc' := RunsExact(bar, Do(bar, b, steps[0]), loc1, steps[1..], b');
    }
  }

  lemma FreshExact(bar: Bar, b: B, loc: Locs)
    requires BInv(bar, b, loc) && Fresh(bar, b) && |bar.team| == bar.total
    ensures Exact(bar, b)
  {
    assert Current(bar, b) == {};
  }

  lemma WrapNext(g: nat)
    ensures WrapU32(g + 1) != WrapU32(g)
  {
  }

  lemma CurrentFits(bar: Bar, b: B, loc: Locs, t: Tid)
    requires BInv(bar, b, loc) && Exact(bar, b)
    ensures b.phase[t].Inside() ==> b.mine[t] <= b.gen <= b.mine[t] + 1
    ensures b.phase[t].Inside() ==> (WrapU32(b.gen) != WrapU32(b.mine[t]) <==> b.gen != b.mine[t])
    ensures t in b.w.cvs[bar.c] && b.mine[t] < b.gen ==> NotifierComing(b)
    ensures b.count == |Current(bar, b)| < bar.total
  {
    assert MineOk(b, t) && NearOk(bar, b, t);
    WrapNext(b.mine[t]);
  }

  /** With exactly `total` tasks in the team: the generation is never more than one ahead of a task
      inside, so the wrapped numbers differ exactly if the generations do; and as soon as nobody is on
      the way to notifying (the last arriver's `notify_all` is done), whoever still queues on the
      condition variable waits for the current generation. */
  lemma GenerationsStayNear(w0: World, ops: seq<Op>, bar: Bar, b: B, steps: seq<Step>, b': B, t: Tid)
    requires Initial(w0) && Reaches(w0, ops, b.w) && b.w.k.started && Fresh(bar, b)
    requires |bar.team| == bar.total && Runs(bar, b, steps, b')
    ensures b'.phase[t].Inside() ==> b'.mine[t] <= b'.gen <= b'.mine[t] + 1
    ensures b'.phase[t].Inside() ==>
              (WrapU32(b'.gen) != WrapU32(b'.mine[t]) <==> b'.gen != b'.mine[t])
    ensures bar.c < |b'.w.cvs| && (t in b'.w.cvs[bar.c] && b'.mine[t] < b'.gen ==> NotifierComing(b'))
    ensures b'.count == |Current(bar, b')| < bar.total
  {
    var loc := ReachableInv(w0, ops, b.w);
    FreshInv(bar, b, loc);
    FreshExact(bar, b, loc);
    var loc' := RunsExact(bar, b, loc, steps, b');
    CurrentFits(bar, b', loc', t);
  }
}
