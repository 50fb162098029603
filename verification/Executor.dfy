/** The asynchronous executor of core/src/kernel/async_rt.rs as a step machine: the executor task's
    loop over the slots, one step for each access to shared state, interleaved in any way with timer
    ticks and with other tasks that spawn. A future is the sequence of delays and yields its body
    awaits, one at a time. */
module Executor {
  import opened Config
  import opened TimerHeap

  datatype Item = Sleep(ms: nat) | YieldNow

  /** The future a task is suspended at: `Timer` or `YieldOnce`, with their own fields. */
  datatype Await = Timer(wake: nat, registered: bool) | YieldOnce(yielded: bool)

  datatype Future = Future(current: Option<Await>, rest: seq<Item>)

  /** Where the executor stands: before a pass; at slot `i` of its loop; inside the poll function of
      slot `i`, about to poll the current await or to create the next; about to push the timer that
      this poll found not due; or between the two assignments that `clear` ends with. */
  datatype Pc = Idle | Scan(i: nat) | Polling(i: nat) | Registering(i: nat) | Clearing(i: nat)

  type Tasks = s: seq<Option<Future>> | |s| == POOL_MAX witness seq(POOL_MAX, _ => None)
  type Flags = s: seq<bool> | |s| == POOL_MAX witness seq(POOL_MAX, _ => false)
  type Times = s: seq<nat> | |s| == POOL_MAX witness seq(POOL_MAX, _ => 0)

  /** `tasks[i]` is the future in slot `i` (`poll_fn` and the storage), `ready[i]` its flag. The tick
      counter is `now` stored in a `u32`. History: `due[i]` is the tick, not wrapped, that the last
      timer of slot `i` was created for, and `finished[i]` counts the futures completed there. */
  datatype State = State(
    now: nat, tasks: Tasks, ready: Flags, timers: seq<Entry>, pc: Pc, due: Times, finished: Times)

  datatype Op = Tick | Spawn(script: seq<Item>) | Pass | Look | Poll | Register | Unready

  function Start(): State {
    State(0, seq(POOL_MAX, _ => None), seq(POOL_MAX, _ => false), [], Idle,
          seq(POOL_MAX, _ => 0), seq(POOL_MAX, _ => 0))
  }

  /** The first free slot from `i` on. */
  function FirstFree(tasks: Tasks, i: nat): (r: Option<nat>)
    requires i <= POOL_MAX
    ensures r.Some? ==> i <= r.value < POOL_MAX && tasks[r.value].None?
    ensures forall j | i <= j < POOL_MAX && (r.Some? ==> j < r.value) :: tasks[j].Some?
    decreases POOL_MAX - i
  {
    if i == POOL_MAX then None
    else if tasks[i].None? then Some(i)
    else FirstFree(tasks, i + 1)
  }

  predicate AtSlot(s: State) {
    match s.pc
    case Polling(i) => i < POOL_MAX && s.tasks[i].Some?
    case Registering(i) =>
      i < POOL_MAX && s.tasks[i].Some? && s.tasks[i].value.current.Some? && s.tasks[i].value.current.value.Timer?
    case Clearing(i) => i < POOL_MAX
    case _ => true
  }

  predicate Enabled(s: State, op: Op) {
    match op
    case Tick => true
    case Spawn(_) => true
    case Pass => s.pc.Idle?
    case Look => s.pc.Scan?
    case Poll => s.pc.Polling? && AtSlot(s)
    case Register => s.pc.Registering? && AtSlot(s)
    case Unready => s.pc.Clearing? && AtSlot(s)
  }

  function SetFuture(s: State, i: nat, f: Future): State
    requires i < POOL_MAX
  {
    s.(tasks := s.tasks[i := Some(f)])
  }

  /** The poll function of slot `i` goes on to its next await, or returns. */
  function NextItem(s: State, i: nat, f: Future): State
    requires i < POOL_MAX
  {
    if f.rest == [] then
      s.(tasks := s.tasks[i := None], finished := s.finished[i := s.finished[i] + 1], pc := Clearing(i))
    else
      match f.rest[0]
      case Sleep(ms) =>
        SetFuture(s, i, Future(Some(Timer(WrapU32(s.now + ms), false)), f.rest[1..])).(due := s.due[i := s.now + ms])
      case YieldNow => SetFuture(s, i, Future(Some(YieldOnce(false)), f.rest[1..]))
  }

  /** `Timer::poll` and `YieldOnce::poll`. */
  function PollAwait(s: State, i: nat, f: Future): State
    requires i < POOL_MAX && f.current.Some?
  {
    match f.current.value
    case Timer(wake, registered) =>
      if TimerHeap.Due(WrapU32(s.now), wake) then SetFuture(s, i, f.(current := None))
      else if !registered then SetFuture(s, i, f.(current := Some(Timer(wake, true)))).(pc := Registering(i))
      else s.(pc := Scan(i + 1))
    case YieldOnce(yielded) =>
      if yielded then SetFuture(s, i, f.(current := None))
      else SetFuture(s, i, f.(current := Some(YieldOnce(true)))).(ready := s.ready[i := true], pc := Scan(i + 1))
  }

  function LookAt(s: State, i: nat): State {
    if i >= POOL_MAX then s.(pc := Idle)
    else if s.tasks[i].None? || !s.ready[i] then s.(pc := Scan(i + 1))
    else s.(ready := s.ready[i := false], pc := Polling(i))
  }

  function StartPass(s: State): State {
    var (woken, rest) := Expire(s.timers, WrapU32(s.now));
    FlagExact(s.ready, woken);
    s.(timers := rest, ready := Flag(s.ready, woken), pc := Scan(0))
  }

  function Next(s: State, op: Op): State
    requires Enabled(s, op)
  {
    match op
    case Tick => s.(now := s.now + 1)
    case Spawn(script) =>
      (match FirstFree(s.tasks, 0)
       case None => s
       case Some(i) => SetFuture(s, i, Future(None, script)).(ready := s.ready[i := true]))
    case Pass => StartPass(s)
    case Look => LookAt(s, s.pc.i)
    case Poll =>
      var f := s.tasks[s.pc.i].value;
      if f.current.None? then NextItem(s, s.pc.i, f) else PollAwait(s, s.pc.i, f)
    case Register =>
      var i := s.pc.i;
      s.(timers := Push(s.timers, Entry(s.tasks[i].value.current.value.wake, i)), pc := Scan(i + 1))
    case Unready => s.(ready := s.ready[s.pc.i := false], pc := Scan(s.pc.i + 1))
  }

  // ---- The invariant -----------------------------------------------------------------------

  predicate Timed(s: State, i: nat)
    requires i < POOL_MAX
  {
    s.tasks[i].Some? && s.tasks[i].value.current.Some? && s.tasks[i].value.current.value.Timer?
  }

  predicate Registered(s: State, i: nat)
    requires i < POOL_MAX
  {
    Timed(s, i) && s.tasks[i].value.current.value.registered
  }

  /** The executor is inside the poll function of slot `i`. */
  predicate InPoll(s: State, i: nat) {
    s.pc == Polling(i) || s.pc == Registering(i)
  }

  /** Suspended at a timer, and not to be polled. */
  predicate Waiting(s: State, i: nat)
    requires i < POOL_MAX
  {
    Registered(s, i) && !s.ready[i] && !InPoll(s, i)
  }

  /** Every delay is at most `maxDelay`. */
  predicate Bounded(script: seq<Item>, maxDelay: nat) {
    forall item | item in script :: item.Sleep? ==> item.ms <= maxDelay
  }

  /** The entry that belongs to the timer of slot `i`. */
  function EntryOf(s: State, i: nat): Entry
    requires i < POOL_MAX
  {
    Entry(WrapU32(s.due[i]), i)
  }

  /** The timer of slot `i` was created at most `d` ticks ahead and is at most `l` ticks overdue. */
  predicate OnTime(s: State, i: nat, d: nat, l: nat)
    requires i < POOL_MAX
  {
    s.now <= s.due[i] + l && s.due[i] <= s.now + d
  }

  /** How an occupied slot stands when the executor is not inside its poll function. */
  predicate RestsOk(s: State, i: nat, f: Future)
    requires i < POOL_MAX && s.tasks[i] == Some(f)
  {
    if s.ready[i] then
      f.current.None? || f.current == Some(YieldOnce(true)) || (Registered(s, i) && s.due[i] <= s.now)
    else Registered(s, i)
  }

  predicate SlotOk(s: State, i: nat, d: nat, l: nat)
    requires i < POOL_MAX
  {
    match s.tasks[i]
    case None => !s.ready[i] && !InPoll(s, i)
    case Some(f) =>
      && s.pc != Clearing(i)
      && Bounded(f.rest, d)
      && (Timed(s, i) ==> f.current.value.wake == WrapU32(s.due[i]) && OnTime(s, i, d, l))
      && (if InPoll(s, i) then
            && !s.ready[i]
            && (s.pc == Registering(i) ==> Registered(s, i))
            && (s.pc == Polling(i) && Registered(s, i) ==> s.due[i] <= s.now)
          else RestsOk(s, i, f))
  }

  /** The queue holds, once each, exactly the entries of the waiting slots. */
  ghost predicate QueueOk(s: State) {
    && (forall e | e in multiset(s.timers) ::
          e.slot < POOL_MAX && Waiting(s, e.slot) && e == EntryOf(s, e.slot) && multiset(s.timers)[e] == 1)
    && (forall i | 0 <= i < POOL_MAX && Waiting(s, i) :: EntryOf(s, i) in multiset(s.timers))
  }

  ghost predicate Inv(s: State, d: nat, l: nat) {
    && AtSlot(s) && QueueOk(s) && Heap(s.timers)
    && forall i | 0 <= i < POOL_MAX :: SlotOk(s, i, d, l)
  }

  /** What the surroundings owe: no delay longer than `d`; no tick that would leave a timer overdue by
      more than `l` (the executor runs often enough); and nobody spawns into the slot that `clear` has
      freed before `clear` is done with it. */
  predicate Allowed(s: State, op: Op, d: nat, l: nat) {
    match op
    case Tick => forall i | 0 <= i < POOL_MAX && Timed(s, i) :: s.now + 1 <= s.due[i] + l
    case Spawn(script) => Bounded(script, d) && (s.pc.Clearing? ==> FirstFree(s.tasks, 0) != Some(s.pc.i))
    case _ => true
  }

  lemma StartInv(d: nat, l: nat)
    ensures Inv(Start(), d, l)
  {
  }

  // ---- Ticks -------------------------------------------------------------------------------

  lemma OnTimeKey(s: State, i: nat, d: nat, l: nat)
    requires i < POOL_MAX && OnTime(s, i, d, l) && d + l < HALF
    ensures Key(s.now - l, WrapU32(s.due[i])) < HALF
    ensures TimerHeap.Due(WrapU32(s.now), WrapU32(s.due[i])) <==> s.due[i] <= s.now
  {
    WrapKey(s.now - l, s.due[i]);
    WrappedOrder(s.now, s.due[i]);
  }

  lemma WrapKey(base: int, t: nat)
    requires 0 <= t - base < U32
    ensures Key(base, WrapU32(t)) == t - base
  {
    assert WrapU32(t) - base == (t - base) - t / U32 * U32;
  }

  lemma InvWindow(s: State, d: nat, l: nat)
    requires Inv(s, d, l) && d + l < HALF
    ensures Window(s.timers, s.now - l)
    ensures Key(s.now - l, WrapU32(s.now)) < HALF
  {
    forall j | 0 <= j < |s.timers| ensures Key(s.now - l, s.timers[j].tick) < HALF {
      var e := s.timers[j];
      assert e in multiset(s.timers);
      assert SlotOk(s, e.slot, d, l);
      OnTimeKey(s, e.slot, d, l);
    }
    WrapKey(s.now - l, s.now);
  }

  // ---- Every allowed step keeps it ---------------------------------------------------------

  lemma SameQueue(s: State, s': State)
    requires QueueOk(s) && s'.timers == s.timers
    requires forall i | 0 <= i < POOL_MAX :: Waiting(s', i) == Waiting(s, i)
    requires forall i | 0 <= i < POOL_MAX && Waiting(s, i) :: s'.due[i] == s.due[i]
    ensures QueueOk(s')
  {
  }

  lemma TickInv(s: State, d: nat, l: nat)
    requires Inv(s, d, l) && Allowed(s, Tick, d, l)
    ensures Inv(Next(s, Tick), d, l)
  {
    var s' := Next(s, Tick);
    SameQueue(s, s');
    forall i | 0 <= i < POOL_MAX ensures SlotOk(s', i, d, l) {
      assert SlotOk(s, i, d, l);
    }
  }

  lemma SpawnSlot(s: State, script: seq<Item>, i: nat, d: nat, l: nat)
    requires Inv(s, d, l) && Allowed(s, Spawn(script), d, l) && i < POOL_MAX
    ensures SlotOk(Next(s, Spawn(script)), i, d, l) && Waiting(Next(s, Spawn(script)), i) == Waiting(s, i)
  {
    assert SlotOk(s, i, d, l);
  }

  lemma SpawnInv(s: State, script: seq<Item>, d: nat, l: nat)
    requires Inv(s, d, l) && Allowed(s, Spawn(script), d, l)
    ensures Inv(Next(s, Spawn(script)), d, l)
  {
    var s' := Next(s, Spawn(script));
    forall i | 0 <= i < POOL_MAX ensures SlotOk(s', i, d, l) && Waiting(s', i) == Waiting(s, i) {
      SpawnSlot(s, script, i, d, l);
    }
    SameQueue(s, s');
  }

  /** Only a waiting slot whose timer is due is woken. */
  lemma WokenWas(s: State, d: nat, l: nat, e: Entry)
    requires Inv(s, d, l) && d + l < HALF && e in multiset(s.timers)
    ensures e.slot < POOL_MAX && Waiting(s, e.slot) && e == EntryOf(s, e.slot)
    ensures TimerHeap.Due(WrapU32(s.now), e.tick) <==> s.due[e.slot] <= s.now
  {
    assert SlotOk(s, e.slot, d, l);
    OnTimeKey(s, e.slot, d, l);
  }

  /** The entries in `q` that are due at `now` are those whose slot's timer is due at `t`. */
  ghost predicate DueBySlot(q: seq<Entry>, now: nat, due: Times, t: nat) {
    forall e | e in multiset(q) :: e.slot < POOL_MAX && (TimerHeap.Due(now, e.tick) <==> due[e.slot] <= t)
  }

  lemma DueEntries(s: State, d: nat, l: nat)
    requires Inv(s, d, l) && d + l < HALF
    ensures DueBySlot(s.timers, WrapU32(s.now), s.due, s.now)
  {
    forall e | e in multiset(s.timers)
      ensures e.slot < POOL_MAX && (TimerHeap.Due(WrapU32(s.now), e.tick) <==> s.due[e.slot] <= s.now)
    {
      WokenWas(s, d, l, e);
    }
  }

  /** The entries `wake_expired` leaves are those of timers still ahead; all others it wakes. */
  lemma SplitBySlot(q: seq<Entry>, now: nat, base: int, due: Times, t: nat)
    requires Heap(q) && Window(q, base) && Key(base, now) < HALF && DueBySlot(q, now, due, t)
    ensures var (woken, rest) := Expire(q, now);
            && Heap(rest) && multiset(rest) <= multiset(q) && multiset(woken) <= multiset(q)
            && (forall e | e in multiset(q) :: e.slot < POOL_MAX)
            && forall e | e in multiset(q) ::
                 && (e in multiset(rest) <==> due[e.slot] > t)
                 && (e in multiset(woken) <==> due[e.slot] <= t)
  {
    ExpireSides(q, now, base);
  }

  lemma WokenSlot(s: State, d: nat, l: nat, woken: seq<Entry>, i: nat)
    requires Inv(s, d, l) && d + l < HALF && i < POOL_MAX
    requires multiset(woken) <= multiset(s.timers)
    requires forall e | e in multiset(s.timers) :: e in multiset(woken) <==> s.due[e.slot] <= s.now
    ensures (exists e | e in woken :: e.slot == i) <==> Waiting(s, i) && s.due[i] <= s.now
  {
    if e :| e in woken && e.slot == i {
      assert e in multiset(woken);
      WokenWas(s, d, l, e);
    }
    if Waiting(s, i) && s.due[i] <= s.now {
      var e := EntryOf(s, i);
      assert e in multiset(woken) && e.slot == i;
      assert e in woken;
    }
  }

  lemma PassTimers(s: State, d: nat, l: nat)
    requires Inv(s, d, l) && d + l < HALF
    ensures var (woken, rest, q) := (Expire(s.timers, WrapU32(s.now)).0, Expire(s.timers, WrapU32(s.now)).1,
                                     multiset(s.timers));
            && Heap(rest) && multiset(rest) <= q && multiset(woken) <= q
            && (forall e | e in q :: e.slot < POOL_MAX)
            && (forall e | e in q :: e in multiset(rest) <==> s.due[e.slot] > s.now)
            && (forall e | e in q :: e in multiset(woken) <==> s.due[e.slot] <= s.now)
  {
    InvWindow(s, d, l);
    DueEntries(s, d, l);
    SplitBySlot(s.timers, WrapU32(s.now), s.now - l, s.due, s.now);
  }

  /** After `wake_expired`: a slot is woken exactly if it waited for a timer that is now due. */
  lemma PassFlags(s: State, d: nat, l: nat)
    requires Inv(s, d, l) && d + l < HALF && s.pc.Idle?
    ensures var (s', q) := (StartPass(s), multiset(s.timers));
            && (forall i | 0 <= i < POOL_MAX :: s'.ready[i] == (s.ready[i] || (Waiting(s, i) && s.due[i] <= s.now)))
            && Heap(s'.timers) && multiset(s'.timers) <= q
            && (forall e | e in q :: e.slot < POOL_MAX)
            && (forall e | e in q :: e in multiset(s'.timers) <==> s.due[e.slot] > s.now)
  {
    var woken := Expire(s.timers, WrapU32(s.now)).0;
    PassTimers(s, d, l);
    FlagExact(s.ready, woken);
    forall i | 0 <= i < POOL_MAX
      ensures StartPass(s).ready[i] == (s.ready[i] || (Waiting(s, i) && s.due[i] <= s.now))
    {
      WokenSlot(s, d, l, woken, i);
    }
  }

  lemma PassSlot(s: State, s': State, i: nat, d: nat, l: nat)
    requires i < POOL_MAX && SlotOk(s, i, d, l) && s.pc.Idle?
    requires s' == s.(ready := s'.ready, timers := s'.timers, pc := Scan(0))
    requires s'.ready[i] == (s.ready[i] || (Waiting(s, i) && s.due[i] <= s.now))
    ensures SlotOk(s', i, d, l) && (Waiting(s', i) <==> Waiting(s, i) && s.due[i] > s.now)
  {
  }

  lemma PassQueue(s: State, s': State)
    requires QueueOk(s) && s'.due == s.due && multiset(s'.timers) <= multiset(s.timers)
    requires forall i | 0 <= i < POOL_MAX :: Waiting(s', i) <==> Waiting(s, i) && s.due[i] > s.now
    requires forall e | e in multiset(s.timers) :: e.slot < POOL_MAX
    requires forall e | e in multiset(s.timers) :: e in multiset(s'.timers) <==> s.due[e.slot] > s.now
    ensures QueueOk(s')
  {
    forall e | e in multiset(s'.timers)
      ensures e.slot < POOL_MAX && Waiting(s', e.slot) && e == EntryOf(s', e.slot) && multiset(s'.timers)[e] == 1
    {
      assert e in multiset(s.timers);
    }
    forall i | 0 <= i < POOL_MAX && Waiting(s', i) ensures EntryOf(s', i) in multiset(s'.timers) {
      assert EntryOf(s, i) in multiset(s.timers);
    }
  }

  lemma PassInv(s: State, d: nat, l: nat)
    requires Inv(s, d, l) && d + l < HALF && Enabled(s, Pass)
    ensures Inv(Next(s, Pass), d, l)
  {
    var s' := Next(s, Pass);
    PassFlags(s, d, l);
    forall i | 0 <= i < POOL_MAX
      ensures SlotOk(s', i, d, l) && (Waiting(s', i) <==> Waiting(s, i) && s.due[i] > s.now)
    {
      PassSlot(s, s', i, d, l);
    }
    PassQueue(s, s');
  }

  lemma LookSlot(s: State, i: nat, d: nat, l: nat)
    requires Inv(s, d, l) && Enabled(s, Look) && i < POOL_MAX
    ensures SlotOk(Next(s, Look), i, d, l) && Waiting(Next(s, Look), i) == Waiting(s, i)
  {
    assert SlotOk(s, i, d, l);
  }

  lemma LookInv(s: State, d: nat, l: nat)
    requires Inv(s, d, l) && Enabled(s, Look)
    ensures Inv(Next(s, Look), d, l)
  {
    var s' := Next(s, Look);
    forall i | 0 <= i < POOL_MAX ensures SlotOk(s', i, d, l) && Waiting(s', i) == Waiting(s, i) {
      LookSlot(s, i, d, l);
    }
    SameQueue(s, s');
  }

  /** A step that changes only slot `i`, whose poll function the executor is in. */
  ghost predicate OnlySlot(s: State, s': State, i: nat)
    requires i < POOL_MAX
  {
    && s' == s.(tasks := s.tasks[i := s'.tasks[i]], ready := s.ready[i := s'.ready[i]],
                due := s.due[i := s'.due[i]], pc := s'.pc, finished := s'.finished)
    && InPoll(s, i)
    && (s'.pc in {s.pc, Polling(i), Registering(i), Clearing(i)} || s'.pc.Scan?)
  }

  lemma SlotStep(s: State, s': State, i: nat, d: nat, l: nat)
    requires Inv(s, d, l) && i < POOL_MAX && OnlySlot(s, s', i)
    requires AtSlot(s') && SlotOk(s', i, d, l) && !Waiting(s', i)
    ensures Inv(s', d, l)
  {
    forall j | 0 <= j < POOL_MAX ensures SlotOk(s', j, d, l) && Waiting(s', j) == Waiting(s, j) {
      assert SlotOk(s, j, d, l);
    }
    SameQueue(s, s');
  }

  lemma NextItemInv(s: State, d: nat, l: nat)
    requires Inv(s, d, l) && Enabled(s, Poll) && s.tasks[s.pc.i].value.current.None?
    ensures Inv(Next(s, Poll), d, l)
  {
    var s', i, f := Next(s, Poll), s.pc.i, s.tasks[s.pc.i].value;
    assert SlotOk(s, i, d, l);
    if f.rest != [] {
      assert f.rest[0] in f.rest;
      assert Bounded(f.rest[1..], d);
    }
    SlotStep(s, s', i, d, l);
  }

  /** A timer that is polled again after its entry was popped is always due: the poll that would
      leave it pending without an entry does not happen. */
  lemma PoppedIsDue(s: State, d: nat, l: nat)
    requires Inv(s, d, l) && d + l < HALF && s.pc.Polling? && Registered(s, s.pc.i)
    ensures TimerHeap.Due(WrapU32(s.now), s.tasks[s.pc.i].value.current.value.wake)
  {
    assert SlotOk(s, s.pc.i, d, l);
    OnTimeKey(s, s.pc.i, d, l);
  }

  lemma PollAwaitInv(s: State, d: nat, l: nat)
    requires Inv(s, d, l) && d + l < HALF && Enabled(s, Poll) && s.tasks[s.pc.i].value.current.Some?
    ensures Inv(Next(s, Poll), d, l)
  {
    var s', i := Next(s, Poll), s.pc.i;
    PollAwaitSlot(s, d, l);
    SlotStep(s, s', i, d, l);
  }

  lemma PollAwaitSlot(s: State, d: nat, l: nat)
    requires Inv(s, d, l) && d + l < HALF && Enabled(s, Poll) && s.tasks[s.pc.i].value.current.Some?
    ensures SlotOk(Next(s, Poll), s.pc.i, d, l) && !Waiting(Next(s, Poll), s.pc.i)
    ensures OnlySlot(s, Next(s, Poll), s.pc.i) && AtSlot(Next(s, Poll))
  {
    assert SlotOk(s, s.pc.i, d, l);
    if Registered(s, s.pc.i) {
      PoppedIsDue(s, d, l);
    }
  }

  /** The queue has room whenever a timer is about to be pushed. */
  lemma RoomToPush(s: State, d: nat, l: nat)
    requires Inv(s, d, l) && s.pc.Registering?
    ensures |s.timers| < POOL_MAX
  {
    var q := s.timers;
    forall j, k | 0 <= j < k < |q| ensures q[j].slot != q[k].slot {
      assert q[j] in multiset(q) && q[k] in multiset(q);
      if q[j].slot == q[k].slot {
        Twice(q, j, k);
      }
    }
    forall j | 0 <= j < |q| ensures q[j].slot < POOL_MAX && q[j].slot != s.pc.i {
      assert q[j] in multiset(q);
    }
    DistinctSlots(q, POOL_MAX, s.pc.i);
  }

  lemma Twice(q: seq<Entry>, j: nat, k: nat)
    requires j < k < |q| && q[j] == q[k]
    ensures multiset(q)[q[j]] >= 2
  {
    assert q == q[..j] + [q[j]] + q[j + 1..k] + [q[k]] + q[k + 1..];
  }

  /** Entries with different slots below `n`, none of them `free`, are fewer than `n`. */
  lemma {:induction false} DistinctSlots(q: seq<Entry>, n: nat, free: nat)
    requires forall j, k | 0 <= j < k < |q| :: q[j].slot != q[k].slot
    requires forall j | 0 <= j < |q| :: q[j].slot < n && q[j].slot != free
    ensures |q| <= (if free < n then n - 1 else n)
  {
    assert q != [] ==> q[0].slot < n;
    if n == 0 {
    } else {
      if j :| 0 <= j < |q| && q[j].slot == n - 1 {
        DistinctSlots(q[..j] + q[j + 1..], n - 1, free);
      } else {
        DistinctSlots(q, n - 1, free);
      }
    }
  }

  lemma RegisterSlot(s: State, j: nat, d: nat, l: nat)
    requires Inv(s, d, l) && Enabled(s, Register) && j < POOL_MAX
    ensures var s' := Next(s, Register);
            SlotOk(s', j, d, l) && (Waiting(s', j) <==> Waiting(s, j) || j == s.pc.i)
  {
    assert SlotOk(s, j, d, l) && SlotOk(s, s.pc.i, d, l);
  }

  /** What is pushed is the entry of the slot being polled, which has none yet. */
  lemma RegisterEntry(s: State, d: nat, l: nat)
    requires Inv(s, d, l) && Enabled(s, Register)
    ensures Next(s, Register).timers == Push(s.timers, EntryOf(s, s.pc.i))
    ensures !Waiting(s, s.pc.i) && EntryOf(s, s.pc.i) !in multiset(s.timers)
  {
    assert SlotOk(s, s.pc.i, d, l);
  }

  lemma RegisterHeap(s: State, d: nat, l: nat)
    requires Inv(s, d, l) && d + l < HALF && Enabled(s, Register)
    ensures Heap(Push(s.timers, EntryOf(s, s.pc.i)))
    ensures multiset(Push(s.timers, EntryOf(s, s.pc.i))) == multiset(s.timers) + multiset{EntryOf(s, s.pc.i)}
  {
    var e := EntryOf(s, s.pc.i);
    assert SlotOk(s, s.pc.i, d, l);
    RoomToPush(s, d, l);
    PushMembers(s.timers, e);
    InvWindow(s, d, l);
    OnTimeKey(s, s.pc.i, d, l);
    PushHeap(s.timers, e, s.now - l);
  }

  lemma RegisterQueue(s: State, s': State, i: nat)
    requires QueueOk(s) && i < POOL_MAX && s'.due == s.due && EntryOf(s, i) !in multiset(s.timers)
    requires multiset(s'.timers) == multiset(s.timers) + multiset{EntryOf(s, i)}
    requires forall j | 0 <= j < POOL_MAX :: Waiting(s', j) <==> Waiting(s, j) || j == i
    ensures QueueOk(s')
  {
  }

  lemma RegisterInv(s: State, d: nat, l: nat)
    requires Inv(s, d, l) && d + l < HALF && Enabled(s, Register)
    ensures Inv(Next(s, Register), d, l)
  {
    var s' := Next(s, Register);
    RegisterEntry(s, d, l);
    RegisterHeap(s, d, l);
    forall j | 0 <= j < POOL_MAX
      ensures SlotOk(s', j, d, l) && (Waiting(s', j) <==> Waiting(s, j) || j == s.pc.i)
    {
      RegisterSlot(s, j, d, l);
    }
    RegisterQueue(s, s', s.pc.i);
  }

  lemma UnreadyInv(s: State, d: nat, l: nat)
    requires Inv(s, d, l) && Enabled(s, Unready)
    ensures Inv(Next(s, Unready), d, l)
  {
    var s' := Next(s, Unready);
    forall i | 0 <= i < POOL_MAX ensures SlotOk(s', i, d, l) && Waiting(s', i) == Waiting(s, i) {
      assert SlotOk(s, i, d, l);
    }
    SameQueue(s, s');
  }

  lemma StepInv(s: State, op: Op, d: nat, l: nat)
    requires Inv(s, d, l) && d + l < HALF && Enabled(s, op) && Allowed(s, op, d, l)
    ensures Inv(Next(s, op), d, l)
  {
    match op
    case Tick => TickInv(s, d, l);
    case Spawn(script) => SpawnInv(s, script, d, l);
    case Pass => PassInv(s, d, l);
    case Look => LookInv(s, d, l);
    case Poll =>
      if s.tasks[s.pc.i].value.current.None? {
        NextItemInv(s, d, l);
      } else {
        PollAwaitInv(s, d, l);
      }
    case Register => RegisterInv(s, d, l);
    case Unready => UnreadyInv(s, d, l);
  }
}
