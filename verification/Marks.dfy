/** The bookkeeping of every step: whose time slice is filled up, and which task is marked as running. */
module Marks {
  import opened Config
  import opened Lists
  import opened KernelSpec
  import opened SyncSpec
  import opened Place
  import opened Ordered
  import opened World
  import opened Safety
  import opened Order
  import opened Sleep
  import opened Slices
  import opened Moves
  import opened Switch
  import SyncPlace
  import Tokens

  /** Step `op` runs the scheduler while the current task stays ready. */
  ghost predicate Reschedules(w: World, op: Op)
    requires Enabled(w, op) && !op.LaunchOp?
  {
    var k, cur := w.k, w.k.cur;
    match op
    case CreateOp(_) => Switches(w, op)
    case ResumeOp(_) => Switches(w, op)
    case UpOp(_) => Switches(w, op)
    case UnlockOp(_) => Switches(w, op)
    case BlockOp(t) => t != cur && t in k.ready
    case TerminateOp(t) => t != cur && Live(w, t)
    case YieldOp => true
    case SwitchOp => true
    case WaitYieldOp => true
    case SystickOp(missed, deferred) => missed + 1 >= k.tcb[cur].slice || k.sleeping != [] || deferred
    case NotifyOp(c) => w.cvs[c] != []
    case NotifyAllOp(c) => w.cvs[c] != []
    case _ => false
  }

  /** The kernel after the ticks that step `op` counts against the current task. */
  function AfterTicks(k: K, op: Op): K {
    if op.SystickOp? then Ticked(k, op.missed + 1) else k
  }

  /** Step `op` puts the current task back behind its equals, with a new time slice. */
  ghost predicate Refills(w: World, op: Op)
    requires Enabled(w, op) && !op.LaunchOp?
  {
    Reschedules(w, op) && Requeues(AfterTicks(w.k, op))
  }

  /** The slices of `k'` are those of `k`, but full for the tasks in `full`. */
  ghost predicate SlicesAre(k: K, k': K, full: set<Tid>) {
    forall t: Tid :: k'.tcb[t].slice == if t in full then TIME_SLICE else k.tcb[t].slice
  }

  /** Only the current task may be marked as running. */
  ghost predicate OneMark(k: K) {
    forall t: Tid | t != k.cur :: k.tcb[t].status != Running
  }

  /** The new current task is marked, or the old one as far as it was. */
  ghost predicate MarksAre(k: K, k': K, refills: bool) {
    forall t: Tid :: k'.tcb[t].status == Running <==>
      t == k'.cur && (k'.cur != k.cur || (k.tcb[t].status == Running && !refills))
  }

  function Refilled(k: K, refills: bool): set<Tid> {
    if refills then {k.cur} else {}
  }

  // ---- One switch --------------------------------------------------------------------------

  lemma SelectMarks(k: K)
    requires OneMark(k)
    ensures SlicesAre(k, Select(k), {})
    ensures k.tcb[k.cur].status != Running ==> MarksAre(k, Select(k), false)
  {
  }

  lemma RequeueMarks(k: K)
    requires OneMark(k)
    ensures var k' := Requeue(k);
            && OneMark(k') && k'.cur == k.cur && SlicesAre(k, k', Refilled(k, Requeues(k)))
            && k'.tcb[k.cur].status != Running
  {
  }

  lemma QuietMarks(k: K)
    requires OneMark(k) && WakeSleepers(k, 0) == k
    ensures SlicesAre(k, NextTcb(k), Refilled(k, Requeues(k))) && MarksAre(k, NextTcb(k), Requeues(k))
  {
    RequeueMarks(k);
    SelectMarks(Requeue(k));
  }

  /** `k1` is `k` on the way to the scheduler, with the current task still ready. */
  ghost predicate Prepared(k: K, k1: K, full: set<Tid>) {
    k1.cur == k.cur && OneMark(k1) && k1.tcb[k.cur].status == k.tcb[k.cur].status && SlicesAre(k, k1, full)
  }

  lemma NoCall(k: K, k1: K, full: set<Tid>)
    requires Prepared(k, k1, full)
    ensures MarksAre(k, k1, false)
  {
  }

  lemma Call(k: K, k1: K, full: set<Tid>)
    requires Prepared(k, k1, full) && WakeSleepers(k1, 0) == k1 && k.cur !in full
    ensures SlicesAre(k, NextTcb(k1), full + Refilled(k, Requeues(k))) && MarksAre(k, NextTcb(k1), Requeues(k))
  {
    QuietMarks(k1);
  }

  /** The current task has left the ready list. */
  ghost predicate Departed(k: K, k1: K) {
    k1.cur == k.cur && OneMark(k1) && k1.tcb[k.cur].status in {Blocked, Terminated} && SlicesAre(k, k1, {})
  }

  lemma LeavingCall(k: K, k1: K)
    requires Departed(k, k1) && WakeSleepers(k1, 0) == k1 && NextTcb(k1).cur != k.cur
    ensures SlicesAre(k, NextTcb(k1), {}) && MarksAre(k, NextTcb(k1), false)
  {
    QuietMarks(k1);
  }

  // ---- Every step --------------------------------------------------------------------------

  /** The tasks that have a full slice after step `op`: a new one, and the current one if it is put back. */
  ghost function Full(w: World, op: Op): set<Tid>
    requires Enabled(w, op) && !op.LaunchOp?
  {
    (if op.CreateOp? || op.CreateRawOp? then NewTask(w.k).Keys else {}) + Refilled(w.k, Refills(w, op))
  }

  ghost predicate Marked(w: World, op: Op)
    requires Enabled(w, op) && !op.LaunchOp?
  {
    SlicesAre(AfterTicks(w.k, op), Next(w, op).k, Full(w, op)) && MarksAre(w.k, Next(w, op).k, Refills(w, op))
  }

  /** What every step starts from. */
  ghost predicate Sound(w: World, loc: Locs, op: Op) {
    Inv(w, loc) && NoneDue(w.k) && SemasCounted(w) && Enabled(w, op) && NoWrap(w, op) && !op.LaunchOp?
  }

  lemma Marks0(w: World, loc: Locs)
    requires Inv(w, loc)
    ensures OneMark(w.k) && (NoneDue(w.k) ==> WakeSleepers(w.k, 0) == w.k)
    ensures if w.k.started then w.k.tcb[w.k.cur].status in {Ready, Running}
            else forall t: Tid :: w.k.tcb[t].status != Running
  {
    forall t: Tid
      ensures w.k.tcb[t].status == Running ==> w.k.started && t == w.k.cur
      ensures t == w.k.cur && w.k.started ==> w.k.tcb[t].status in {Ready, Running}
    {
      assert TaskAgrees(w.k, loc, t);
    }
    if NoneDue(w.k) {
      NoneWoken(w.k, 0);
    }
  }

  lemma Leaves(w: World, loc: Locs, op: Op, k1: K)
    requires Sound(w, loc, op) && w.k.started && !Reschedules(w, op) && !op.SystickOp? && !op.CreateOp?
    requires !op.CreateRawOp?
    requires w.k.cur in MovedBy(w, op) && MovedBy(w, op)[w.k.cur] != InReady
    requires Departed(w.k, k1) && WakeSleepers(k1, 0) == k1 && Next(w, op).k == NextTcb(k1)
    ensures Marked(w, op)
  {
    LeaverSwitches(w, loc, op);
    LeavingCall(w.k, k1);
  }

  lemma Stays(w: World, loc: Locs, op: Op, k1: K)
    requires Sound(w, loc, op) && Reschedules(w, op) && !op.SystickOp? && !op.CreateOp? && !op.CreateRawOp?
    requires Prepared(w.k, k1, {}) && WakeSleepers(k1, 0) == k1 && Next(w, op).k == NextTcb(k1)
    ensures Marked(w, op)
  {
    Call(w.k, k1, {});
  }

  lemma Nothing(w: World, loc: Locs, op: Op)
    requires Sound(w, loc, op) && !Reschedules(w, op) && !op.SystickOp? && !op.CreateOp? && !op.CreateRawOp?
    requires Prepared(w.k, Next(w, op).k, {})
    ensures Marked(w, op)
  {
    NoCall(w.k, Next(w, op).k, {});
  }

  lemma CreatedMarks(k: K, loc: Locs, p: nat)
    requires Placed(k, loc) && OneMark(k)
    ensures var (k1, full) := (CreateRaw(k, p).0, NewTask(k).Keys);
            && SlicesAre(k, k1, full) && SleepSame(k, k1)
            && (loc[k.cur] != Dead ==> Prepared(k, k1, full) && k.cur !in full)
            && forall t: Tid :: k1.tcb[t].status == Running ==> k.tcb[t].status == Running
  {
    var r := CreateRaw(k, p).1;
    if r.Some? {
      assert TaskAgrees(k, loc, r.value);
    }
    assert forall t: Tid | t in k.sleeping :: loc[t] == InSleep;
  }

  lemma CreateCalls(w: World, loc: Locs, p: nat, k1: K, full: set<Tid>)
    requires Sound(w, loc, CreateOp(p)) && Reschedules(w, CreateOp(p))
    requires k1 == CreateRaw(w.k, p).0 && full == NewTask(w.k).Keys
    requires Prepared(w.k, k1, full) && w.k.cur !in full && SleepSame(w.k, k1)
    ensures Marked(w, CreateOp(p))
  {
    QuietSwitch(w.k, k1);
    Call(w.k, k1, full);
  }

  lemma CreateRests(w: World, loc: Locs, op: Op, k1: K, full: set<Tid>)
    requires Sound(w, loc, op) && (op.CreateOp? || op.CreateRawOp?) && !Reschedules(w, op)
    requires k1 == Next(w, op).k && full == NewTask(w.k).Keys && SlicesAre(w.k, k1, full)
    requires if w.k.started then Prepared(w.k, k1, full)
             else forall t: Tid :: w.k.tcb[t].status != Running && k1.tcb[t].status != Running
    ensures Marked(w, op)
  {
    if w.k.started {
      NoCall(w.k, k1, full);
    }
  }

  lemma CreateMarks(w: World, loc: Locs, op: Op)
    requires Sound(w, loc, op) && (op.CreateOp? || op.CreateRawOp?)
    ensures Marked(w, op)
  {
    var k1, full := CreateRaw(w.k, op.priority).0, NewTask(w.k).Keys;
    Marks0(w, loc);
    CreatedMarks(w.k, loc, op.priority);
    if Reschedules(w, op) {
      CreateCalls(w, loc, op.priority, k1, full);
    } else {
      CreateRests(w, loc, op, k1, full);
    }
  }

  /** Tasks end, are blocked and resumed. */
  lemma EndMarks(w: World, loc: Locs, op: Op)
    requires Sound(w, loc, op) && (op.ExitOp? || op.TerminateOp?)
    ensures Marked(w, op)
  {
    var k, t := w.k, if op.ExitOp? then w.k.cur else op.t;
    Marks0(w, loc);
    DiscardSleep(k, loc, t);
    NoneWoken(Discard(k, t), 0);
    assert TaskAgrees(k, loc, t);
    if op.ExitOp? {
      var k1 := FreeTid(k.(ready := Remove(k.ready, k.cur)), k.cur);
      NoneWoken(k1, 0);
      Leaves(w, loc, op, k1);
    } else if !Live(w, t) {
      Nothing(w, loc, op);
    } else if t == k.cur {
      Leaves(w, loc, op, Discard(k, t));
    } else {
      Stays(w, loc, op, Discard(k, t));
    }
  }

  lemma BlockMarks(w: World, loc: Locs, t: Tid)
    requires Sound(w, loc, BlockOp(t))
    ensures Marked(w, BlockOp(t))
  {
    Marks0(w, loc);
    assert TaskAgrees(w.k, loc, t);
    NoneWoken(Suspend(w.k, t), 0);
    if loc[t] != InReady {
      Nothing(w, loc, BlockOp(t));
    } else if t == w.k.cur {
      Leaves(w, loc, BlockOp(t), Suspend(w.k, t));
    } else {
      Stays(w, loc, BlockOp(t), Suspend(w.k, t));
    }
  }

  lemma ResumeMarks(w: World, loc: Locs, t: Tid)
    requires Sound(w, loc, ResumeOp(t))
    ensures Marked(w, ResumeOp(t))
  {
    Marks0(w, loc);
    assert TaskAgrees(w.k, loc, t);
    if loc[t] == InBlocked {
      NoneWoken(Unblock(w.k, t), 0);
    }
    if Reschedules(w, ResumeOp(t)) {
      Stays(w, loc, ResumeOp(t), Unblock(w.k, t));
    } else {
      Nothing(w, loc, ResumeOp(t));
    }
  }

  lemma FallsAsleep(k: K, loc: Locs, wake: nat)
    requires Placed(k, loc) && loc[k.cur] == InReady && NoneDue(k) && OneMark(k) && k.ticks < wake
    ensures Departed(k, FallAsleep(k, wake)) && WakeSleepers(FallAsleep(k, wake), 0) == FallAsleep(k, wake)
  {
    FallAsleepMembers(k, loc, wake);
    NoneWoken(FallAsleep(k, wake), 0);
  }

  lemma DelayMarks(w: World, loc: Locs, n: nat)
    requires Sound(w, loc, DelayOp(n))
    ensures Marked(w, DelayOp(n))
  {
    Marks0(w, loc);
    if n == 0 {
      Nothing(w, loc, DelayOp(n));
    } else {
      var wake := w.k.ticks + n;
      DelayIs(w.k, n, wake);
      FallsAsleep(w.k, loc, wake);
      Leaves(w, loc, DelayOp(n), FallAsleep(w.k, wake));
    }
  }

  lemma DownMarks(w: World, loc: Locs, i: nat)
    requires Sound(w, loc, DownOp(i))
    ensures Marked(w, DownOp(i))
  {
    Marks0(w, loc);
    assert Tokens.Waits(w.semas[i]);
    Tokens.WaitersFit(w, loc, i);
    if w.semas[i].count <= 0 {
      NoneWoken(BlockCurrent(w.k), 0);
      Leaves(w, loc, DownOp(i), BlockCurrent(w.k));
    } else {
      Nothing(w, loc, DownOp(i));
    }
  }

  /** A waiter becomes ready. */
  lemma ReadyMarks(k: K, loc: Locs, t: Tid)
    requires Placed(k, loc) && OneMark(k) && NoneDue(k) && loc[t].Waiting() && loc[k.cur] == InReady
    ensures Prepared(k, MakeReady(k, t), {}) && WakeSleepers(MakeReady(k, t), 0) == MakeReady(k, t)
  {
    NoneWoken(MakeReady(k, t), 0);
  }

  lemma FirstReady(w: World, loc: Locs, i: nat)
    requires Inv(w, loc) && NoneDue(w.k) && w.k.started && i < |w.semas| && w.semas[i].queue != []
    ensures var k1 := MakeReady(w.k, w.semas[i].queue[0]); Prepared(w.k, k1, {}) && WakeSleepers(k1, 0) == k1
  {
    var q := w.semas[i].queue;
    Marks0(w, loc);
    assert Holds(Queue(w, WaitSema(i)), WaitSema(i), loc);
    assert q[0] in q;
    ReadyMarks(w.k, loc, q[0]);
  }

  lemma UpMarks(w: World, loc: Locs, op: Op)
    requires Sound(w, loc, op) && (op.UpOp? || op.IsrUpOp?)
    ensures Marked(w, op)
  {
    var q := w.semas[op.s].queue;
    Marks0(w, loc);
    CountSays(w, loc, op.s);
    if q != [] {
      FirstReady(w, loc, op.s);
    }
    if Reschedules(w, op) {
      Stays(w, loc, op, MakeReady(w.k, q[0]));
    } else {
      Nothing(w, loc, op);
    }
  }

  lemma NotifyMarks(w: World, loc: Locs, c: nat)
    requires Sound(w, loc, NotifyOp(c))
    ensures Marked(w, NotifyOp(c))
  {
    var k, q := w.k, w.cvs[c];
    Marks0(w, loc);
    assert Holds(Queue(w, WaitCv(c)), WaitCv(c), loc);
    if q != [] {
      assert q[0] in q;
      ReadyMarks(k, loc, q[0]);
      Stays(w, loc, NotifyOp(c), MakeReady(k, q[0]));
    } else {
      Nothing(w, loc, NotifyOp(c));
    }
  }

  lemma {:induction false} AllReadyMarks(k: K, q: seq<Tid>)
    requires OneMark(k) && k.cur !in q
    ensures Prepared(k, MakeAllReady(k, q), {})
    decreases |q|
  {
    if q == [] {
    } else {
      AllReadyMarks(MakeReady(k, q[0]), q[1..]);
    }
  }

  lemma NotifyAllMarks(w: World, loc: Locs, c: nat)
    requires Sound(w, loc, NotifyAllOp(c))
    ensures Marked(w, NotifyAllOp(c))
  {
    var k, q := w.k, w.cvs[c];
    Marks0(w, loc);
    assert Holds(Queue(w, WaitCv(c)), WaitCv(c), loc);
    AllReadyMarks(k, q);
    MakeAllReadyQuiet(k, q);
    QuietSwitch(k, MakeAllReady(k, q));
    if q != [] {
      Stays(w, loc, NotifyAllOp(c), MakeAllReady(k, q));
    } else {
      Nothing(w, loc, NotifyAllOp(c));
    }
  }

  lemma BoostedMarks(k: K, loc: Locs, o: Tid)
    requires Placed(k, loc) && k.started && OneMark(k) && NoneDue(k) && o != k.cur
    ensures var k1 := BlockCurrent(Boost(k, o)); Departed(k, k1) && WakeSleepers(k1, 0) == k1
  {
    SyncPlace.BoostPlaced(k, loc, o);
    NoneWoken(BlockCurrent(Boost(k, o)), 0);
  }

  lemma LockMarks(w: World, loc: Locs, op: Op, i: nat)
    requires Sound(w, loc, op) && Locks(w, op, i) && i < |w.mutexes|
    ensures Marked(w, op)
  {
    Marks0(w, loc);
    if w.mutexes[i].owner in {None, Some(w.k.cur)} {
      Nothing(w, loc, op);
    } else {
      var o := w.mutexes[i].owner.value;
      BoostedMarks(w.k, loc, o);
      Leaves(w, loc, op, BlockCurrent(Boost(w.k, o)));
    }
  }

  lemma ReleaseMarks(k: K, m: MutexS, loc: Locs, l: Loc)
    requires Placed(k, loc) && OneMark(k) && NoneDue(k) && loc[k.cur] != InSleep
    requires Holds(m.queue, l, loc) && l.Waiting() && loc[k.cur] != l
    ensures Prepared(k, Release(k, m).0, {}) && WakeSleepers(Release(k, m).0, 0) == Release(k, m).0
  {
    assert m.queue != [] ==> m.queue[0] in m.queue;
    NoneWoken(Release(k, m).0, 0);
  }

  lemma UnlockMarks(w: World, loc: Locs, i: nat)
    requires Sound(w, loc, UnlockOp(i))
    ensures Marked(w, UnlockOp(i))
  {
    var k, m, l := w.k, w.mutexes[i], WaitMutex(i);
    Marks0(w, loc);
    HolderOwns(w, loc, i, k.cur);
    assert MutexOk(w, loc, i) && Holds(Queue(w, l), l, loc);
    if m.depth == 1 {
      ReleaseMarks(k, m, loc, l);
      ReleaseSwitches(k, m, loc, l);
    }
    if Reschedules(w, UnlockOp(i)) {
      Stays(w, loc, UnlockOp(i), Release(k, m).0);
    } else {
      Nothing(w, loc, UnlockOp(i));
    }
  }

  lemma BlockedMarks(k: K, loc: Locs, l: Loc)
    requires Placed(k, loc) && OneMark(k) && NoneDue(k) && loc[k.cur] == InReady && l.Waiting()
    ensures var k0 := BlockCurrent(k);
            Placed(k0, loc[k.cur := l]) && NoneDue(k0) && Departed(k, k0) && WakeSleepers(k0, 0) == k0
  {
    BlockCurrentPlaced(k, loc, l);
    NoneWoken(BlockCurrent(k), 0);
  }

  lemma WaitReleaseMarks(k: K, q: seq<Tid>, m: MutexS, loc: Locs, lq: Loc, lm: Loc)
    requires Placed(k, loc) && OneMark(k) && NoneDue(k) && loc[k.cur] == InReady && lq.Waiting() && lm.Waiting()
    requires Holds(m.queue, lm, loc) && lq != lm && m.depth == 1
    ensures var k1 := Release(BlockCurrent(k), m).0;
            Departed(k, k1) && WakeSleepers(k1, 0) == k1 && CvWait(k, q, m).0 == NextTcb(k1)
  {
    BlockedMarks(k, loc, lq);
    Moved(m.queue, lm, loc, loc[k.cur := lq]);
    ReleaseMarks(BlockCurrent(k), m, loc[k.cur := lq], lm);
  }

  /** The switch of `wait`, inside the unlock or after it. */
  lemma WaitMarks(w: World, loc: Locs, c: nat, i: nat)
    requires Sound(w, loc, WaitOp(c, i))
    ensures Marked(w, WaitOp(c, i))
  {
    var k, m, l := w.k, w.mutexes[i], WaitMutex(i);
    Marks0(w, loc);
    HolderOwns(w, loc, i, k.cur);
    assert MutexOk(w, loc, i) && Holds(Queue(w, l), l, loc);
    if m.depth == 1 {
      WaitReleaseMarks(k, w.cvs[c], m, loc, WaitCv(c), l);
      Leaves(w, loc, WaitOp(c, i), Release(BlockCurrent(k), m).0);
    } else {
      BlockedMarks(k, loc, WaitCv(c));
      Leaves(w, loc, WaitOp(c, i), BlockCurrent(k));
    }
  }

  lemma YieldMarks(w: World, loc: Locs, op: Op)
    requires Sound(w, loc, op) && (op.YieldOp? || op.SwitchOp? || op.WaitYieldOp?)
    ensures Marked(w, op)
  {
    Marks0(w, loc);
    Stays(w, loc, op, w.k);
  }

  lemma WakeMarks(k: K)
    requires OneMark(k) && k.cur !in k.sleeping && k.tcb[k.cur].status in {Ready, Running} && NoDup(k.sleeping)
    ensures SlicesAre(k, NextTcb(k), Refilled(k, Requeues(k))) && MarksAre(k, NextTcb(k), Requeues(k))
  {
    var k1 := WakeSleepers(k, 0);
    WakeSleepersFrame(k, 0);
    ScanNoneDue(k, 0);
    NoneWoken(k1, 0);
    QuietMarks(k1);
  }

  lemma TrapMarks(w: World, loc: Locs, op: Op)
    requires Sound(w, loc, op) && op.SystickOp?
    ensures Marked(w, op)
  {
    var (k1, r) := Ticks(w.k, op.missed + 1);
    Marks0(w, loc);
    TicksSlice(w.k, op.missed + 1);
    TicksFrame(w.k, op.missed + 1);
    if r || op.deferred {
      assert w.k.cur !in w.k.sleeping;
      WakeMarks(k1);
    }
  }

  lemma StepMarks(w: World, loc: Locs, op: Op)
    requires Sound(w, loc, op)
    ensures Marked(w, op)
  {
    Marks0(w, loc);
    match op
    case CreateOp(_) => CreateMarks(w, loc, op);
    case CreateRawOp(_) => CreateMarks(w, loc, op);
    case ExitOp => EndMarks(w, loc, op);
    case TerminateOp(_) => EndMarks(w, loc, op);
    case BlockOp(t) => BlockMarks(w, loc, t);
    case ResumeOp(t) => ResumeMarks(w, loc, t);
    case DelayOp(n) => DelayMarks(w, loc, n);
    case SystickOp(_, _) => TrapMarks(w, loc, op);
    case DownOp(i) => DownMarks(w, loc, i);
    case UpOp(_) => UpMarks(w, loc, op);
    case IsrUpOp(_) => UpMarks(w, loc, op);
    case LockOp(i) => LockMarks(w, loc, op, i);
    case WaitLockOp => LockMarks(w, loc, op, w.pc[w.k.cur].m);
    case UnlockOp(i) => UnlockMarks(w, loc, i);
    case WaitOp(c, i) => WaitMarks(w, loc, c, i);
    case NotifyOp(c) => NotifyMarks(w, loc, c);
    case NotifyAllOp(c) => NotifyAllMarks(w, loc, c);
    case TryDownOp(_) => Nothing(w, loc, op);
    case LockedOp => Nothing(w, loc, op);
    case _ => YieldMarks(w, loc, op);
  }

  // ---- Runs --------------------------------------------------------------------------------

  /** In every reachable state, whatever the step: a time slice is filled up exactly for a new task and
      for the current task when the scheduler runs and puts it back; ticks are taken off the current
      task's only; all others are as they were. And exactly the task that has just got the processor is
      marked as running, or the one that keeps it until it is put back. */
  lemma MarksExactly(w0: World, ops: seq<Op>, w: World, op: Op)
    requires Initial(w0) && ReachesNoWrap(w0, ops, w) && TokensFit(w0, ops)
    requires Enabled(w, op) && NoWrap(w, op) && !op.LaunchOp?
    ensures SlicesAre(AfterTicks(w.k, op), Next(w, op).k, Full(w, op))
    ensures MarksAre(w.k, Next(w, op).k, Refills(w, op))
  {
    var loc0: Locs := seq(TASK_MAX, _ => Dead);
    InitialInv(w0);
    InitialCounted(w0);
    RunCounted(w0, loc0, ops, w);
    var loc := RunNoneDue(w0, loc0, ops, w);
    StepMarks(w, loc, op);
  }
}
