/** What a spawned future does over a run: its items one after the other, each delay to the tick, each
    yield giving way once, and the whole not before the sum of its delays. */
module Futures {
  import opened Config
  import opened TimerHeap
  import opened Executor
  import opened ExecutorRuns

  /** The future in slot `i` awaits an item and has `rest` still before it. */
  predicate Awaits(s: State, i: nat, rest: seq<Item>) {
    i < POOL_MAX && s.tasks[i].Some? && s.tasks[i].value.current.Some? && s.tasks[i].value.rest == rest
  }

  /** A run throughout which slot `i` awaits the same item. */
  ghost predicate StaysAt(s: State, ops: seq<Op>, s': State, i: nat, rest: seq<Item>, d: nat, l: nat)
    decreases |ops|
  {
    && Awaits(s, i, rest)
    && if ops == [] then s' == s
       else Enabled(s, ops[0]) && Allowed(s, ops[0], d, l) && StaysAt(Next(s, ops[0]), ops[1..], s', i, rest, d, l)
  }

  lemma {:induction false} StaysReaches(s: State, ops: seq<Op>, s': State, i: nat, rest: seq<Item>, d: nat, l: nat)
    requires StaysAt(s, ops, s', i, rest, d, l)
    ensures Reaches(s, ops, s', d, l) && Awaits(s', i, rest)
    decreases |ops|
  {
    if ops == [] {
    } else {
      StaysReaches(Next(s, ops[0]), ops[1..], s', i, rest, d, l);
    }
  }

  /** The executor is about to begin the next item of slot `i`. */
  predicate Begins(s: State, i: nat) {
    && s.pc == Polling(i) && AtSlot(s)
    && s.tasks[i].value.current.None? && s.tasks[i].value.rest != []
  }

  /** It takes exactly the first item off the script and goes on to poll it at once; with no item left the
      future is complete, and its slot free. */
  lemma PollBegins(s: State, i: nat)
    requires s.pc == Polling(i) && AtSlot(s) && s.tasks[i].value.current.None?
    ensures var (rest, s') := (s.tasks[i].value.rest, Next(s, Poll));
            if rest == [] then s'.tasks[i].None? && s'.finished[i] == s.finished[i] + 1 && s'.pc == Clearing(i)
            else
              && Awaits(s', i, rest[1..]) && s'.pc == Polling(i) && s'.finished == s.finished
              && (rest[0].Sleep? <==> Timed(s', i))
    ensures forall j | 0 <= j < POOL_MAX && j != i :: Next(s, Poll).tasks[j] == s.tasks[j]
  {
  }

  // ---- Delays ------------------------------------------------------------------------------

  /** Slot `i` awaits the tick `tick`. */
  predicate AwaitsTick(s: State, i: nat, tick: nat) {
    i < POOL_MAX && Timed(s, i) && s.due[i] == tick
  }

  lemma TickStays(s: State, op: Op, i: nat, rest: seq<Item>, tick: nat)
    requires Enabled(s, op) && Awaits(s, i, rest) && Awaits(Next(s, op), i, rest) && AwaitsTick(s, i, tick)
    ensures AwaitsTick(Next(s, op), i, tick)
  {
  }

  lemma {:induction false} RunAwaitsTick(s: State, ops: seq<Op>, s': State, i: nat, rest: seq<Item>, tick: nat,
                                         d: nat, l: nat)
    requires StaysAt(s, ops, s', i, rest, d, l) && AwaitsTick(s, i, tick)
    ensures AwaitsTick(s', i, tick)
    decreases |ops|
  {
    if ops == [] {
    } else {
      TickStays(s, ops[0], i, rest, tick);
      RunAwaitsTick(Next(s, ops[0]), ops[1..], s', i, rest, tick, d, l);
    }
  }

  /** A delay of `ms` begun at tick `n` ends in the first poll at tick `n + ms` or later: in every run until
      it ends, a poll of its slot completes it exactly if that tick has come, and otherwise leaves it
      pending, with the executor gone on from the slot. The items after it are left. */
  lemma DelayExact(before: seq<Op>, s: State, i: nat, ops: seq<Op>, s': State, d: nat, l: nat)
    requires d + l < HALF && Reaches(Start(), before, s, d, l)
    requires Begins(s, i) && s.tasks[i].value.rest[0].Sleep?
    requires StaysAt(Next(s, Poll), ops, s', i, s.tasks[i].value.rest[1..], d, l) && s'.pc == Polling(i)
    ensures var (rest, ms) := (s.tasks[i].value.rest[1..], s.tasks[i].value.rest[0].ms);
            && AtSlot(s')
            && (s'.now >= s.now + ms ==> Next(s', Poll).tasks[i] == Some(Future(None, rest)))
            && (s'.now < s.now + ms ==> Awaits(Next(s', Poll), i, rest) && Next(s', Poll).pc != Polling(i))
  {
    var rest, s1 := s.tasks[i].value.rest[1..], Next(s, Poll);
    ReachableInv(before, s, d, l);
    StepInv(s, Poll, d, l);
    RunAwaitsTick(s1, ops, s', i, rest, s.now + s.tasks[i].value.rest[0].ms, d, l);
    StaysReaches(s1, ops, s', i, rest, d, l);
    RunInv(s1, ops, s', d, l);
    assert SlotOk(s', i, d, l);
    OnTimeKey(s', i, d, l);
  }

  // ---- Yields ------------------------------------------------------------------------------

  /** The polls of slot `i` in a run. */
  ghost function PollsOf(s: State, ops: seq<Op>, s': State, i: nat, rest: seq<Item>, d: nat, l: nat): nat
    requires StaysAt(s, ops, s', i, rest, d, l)
    decreases |ops|
  {
    if ops == [] then 0
    else (if ops[0].Poll? && s.pc == Polling(i) then 1 else 0)
         + PollsOf(Next(s, ops[0]), ops[1..], s', i, rest, d, l)
  }

  lemma {:induction false} RunYields(s: State, ops: seq<Op>, s': State, i: nat, rest: seq<Item>, d: nat, l: nat)
    requires StaysAt(s, ops, s', i, rest, d, l) && s.tasks[i].value.current.value.YieldOnce?
    ensures i < POOL_MAX && s'.tasks[i].Some?
    ensures var was := s.tasks[i].value.current.value.yielded;
            && s'.tasks[i].value.current == Some(YieldOnce(was || PollsOf(s, ops, s', i, rest, d, l) > 0))
            && PollsOf(s, ops, s', i, rest, d, l) <= if was then 0 else 1
    decreases |ops|
  {
    if ops == [] {
    } else {
      assert Awaits(Next(s, ops[0]), i, rest);
      RunYields(Next(s, ops[0]), ops[1..], s', i, rest, d, l);
    }
  }

  /** A yield gives way exactly once: the first poll of it leaves it pending, ready to be polled again, with
      the executor gone on from the slot; the second completes it. */
  lemma YieldExact(s: State, i: nat, ops: seq<Op>, s': State, d: nat, l: nat)
    requires Begins(s, i) && s.tasks[i].value.rest[0].YieldNow?
    requires StaysAt(Next(s, Poll), ops, s', i, s.tasks[i].value.rest[1..], d, l) && s'.pc == Polling(i)
    ensures var (rest, polls) := (s.tasks[i].value.rest[1..],
                                  PollsOf(Next(s, Poll), ops, s', i, s.tasks[i].value.rest[1..], d, l));
            && AtSlot(s') && polls <= 1
            && (polls == 1 ==> Next(s', Poll).tasks[i] == Some(Future(None, rest)))
            && (polls == 0 ==> Awaits(Next(s', Poll), i, rest) && Next(s', Poll).ready[i]
                               && Next(s', Poll).pc == Scan(i + 1))
  {
    var rest := s.tasks[i].value.rest[1..];
    StaysReaches(Next(s, Poll), ops, s', i, rest, d, l);
    RunYields(Next(s, Poll), ops, s', i, rest, d, l);
  }

  // ---- The whole future --------------------------------------------------------------------

  /** The delays of a script together. */
  function Total(script: seq<Item>): nat {
    if script == [] then 0
    else (if script[0].Sleep? then script[0].ms else 0) + Total(script[1..])
  }

  /** The earliest tick at which the future of slot `i` can end. */
  function Earliest(s: State, i: nat): nat
    requires i < POOL_MAX && s.tasks[i].Some?
  {
    Total(s.tasks[i].value.rest) + (if Timed(s, i) && s.due[i] > s.now then s.due[i] else s.now)
  }

  /** `n` items of the script have been begun in slot `i`, and the rest is left. */
  predicate Begun(s: State, i: nat, script: seq<Item>, n: nat) {
    && i < POOL_MAX && s.tasks[i].Some? && n <= |script| && s.tasks[i].value.rest == script[n..]
  }

  lemma SpawnFills(s: State, script: seq<Item>, d: nat, l: nat)
    requires Inv(s, d, l) && exists j :: 0 <= j < POOL_MAX && s.tasks[j].None?
    ensures exists i ::
              && 0 <= i < POOL_MAX && s.tasks[i].None?
              && Next(s, Spawn(script)).tasks == s.tasks[i := Some(Future(None, script))]
              && Next(s, Spawn(script)).ready == s.ready[i := true]
  {
    var j :| 0 <= j < POOL_MAX && s.tasks[j].None?;
    var i := FirstFree(s.tasks, 0).value;
    assert s.tasks[i].None?;
  }

  /** A poll of slot `i` that does not complete it. */
  lemma PollBegun(s: State, i: nat, script: seq<Item>, n: nat, d: nat, l: nat) returns (m: nat)
    requires Inv(s, d, l) && d + l < HALF && Enabled(s, Poll) && s.pc == Polling(i) && Begun(s, i, script, n)
    requires Next(s, Poll).finished[i] == s.finished[i]
    ensures n <= m <= n + 1 && Begun(Next(s, Poll), i, script, m)
    ensures Earliest(s, i) <= Earliest(Next(s, Poll), i)
  {
    m := n;
    assert SlotOk(s, i, d, l);
    if Timed(s, i) {
      OnTimeKey(s, i, d, l);
    } else if s.tasks[i].value.current.None? {
      assert script[n..][1..] == script[n + 1..];
      m := n + 1;
    }
  }

  /** One step of the future in slot `i`: its script goes on by at most one item, and the earliest tick of
      its end does not come nearer. */
  lemma StepBegun(s: State, op: Op, i: nat, script: seq<Item>, n: nat, d: nat, l: nat) returns (m: nat)
    requires Inv(s, d, l) && d + l < HALF && Enabled(s, op) && Allowed(s, op, d, l) && Begun(s, i, script, n)
    requires Next(s, op).finished[i] == s.finished[i]
    ensures n <= m <= n + 1 && Begun(Next(s, op), i, script, m)
    ensures Earliest(s, i) <= Earliest(Next(s, op), i)
  {
    m := n;
    if op.Poll? && s.pc == Polling(i) {
      m := PollBegun(s, i, script, n, d, l);
    }
  }

  lemma {:induction false} FinishedGrows(s: State, ops: seq<Op>, s': State, i: nat, d: nat, l: nat)
    requires Reaches(s, ops, s', d, l) && i < POOL_MAX
    ensures s.finished[i] <= s'.finished[i]
    decreases |ops|
  {
    if ops == [] {
    } else {
      assert s.finished[i] <= Next(s, ops[0]).finished[i];
      FinishedGrows(Next(s, ops[0]), ops[1..], s', i, d, l);
    }
  }

  lemma {:induction false} RunBegun(s: State, ops: seq<Op>, s': State, i: nat, script: seq<Item>, n: nat,
                                    d: nat, l: nat)
    returns (m: nat)
    requires Inv(s, d, l) && d + l < HALF && Reaches(s, ops, s', d, l) && Begun(s, i, script, n)
    requires s'.finished[i] == s.finished[i]
    ensures n <= m && Begun(s', i, script, m) && Earliest(s, i) <= Earliest(s', i)
    decreases |ops|
  {
    m := n;
    if ops == [] {
    } else {
      var s1 := Next(s, ops[0]);
      FinishedGrows(s1, ops[1..], s', i, d, l);
      assert s.finished[i] <= s1.finished[i];
      var n1 := StepBegun(s, ops[0], i, script, n, d, l);
      StepInv(s, ops[0], d, l);
      m := RunBegun(s1, ops[1..], s', i, script, n1, d, l);
    }
  }

  lemma SpawnBegins(s: State, script: seq<Item>, i: nat)
    requires i < POOL_MAX && s.tasks[i].None? && Next(s, Spawn(script)).tasks[i].Some?
    ensures var s1 := Next(s, Spawn(script));
            && Begun(s1, i, script, 0) && Earliest(s1, i) == s.now + Total(script)
            && s1.finished[i] == s.finished[i]
  {
    assert script[0..] == script;
  }

  /** The poll that completes slot `i` finds nothing left and nothing awaited. */
  lemma EndsWithNothingLeft(s: State, i: nat)
    requires i < POOL_MAX && s.tasks[i].Some? && Enabled(s, Poll) && Next(s, Poll).finished[i] != s.finished[i]
    ensures s.tasks[i].value.rest == [] && Earliest(s, i) == s.now
  {
  }

  /** A future spawned into slot `i` runs its script in order: until it completes, what it has left is an end
      of the script; and the poll that completes it finds nothing left, no sooner than all its delays
      together after the spawn. */
  lemma ScriptRuns(before: seq<Op>, s: State, script: seq<Item>, i: nat, ops: seq<Op>, s': State, d: nat, l: nat)
    requires d + l < HALF && Reaches(Start(), before, s, d, l) && Allowed(s, Spawn(script), d, l)
    requires i < POOL_MAX && s.tasks[i].None? && Next(s, Spawn(script)).tasks[i].Some?
    requires Reaches(Next(s, Spawn(script)), ops, s', d, l) && s'.finished[i] == s.finished[i]
    ensures exists m :: Begun(s', i, script, m)
    ensures Enabled(s', Poll) && Next(s', Poll).finished[i] != s'.finished[i] ==>
              s'.tasks[i].value.rest == [] && s'.now >= s.now + Total(script)
  {
    var s1 := Next(s, Spawn(script));
    ReachableInv(before, s, d, l);
    StepInv(s, Spawn(script), d, l);
    SpawnBegins(s, script, i);
    var m := RunBegun(s1, ops, s', i, script, 0, d, l);
    if Enabled(s', Poll) && Next(s', Poll).finished[i] != s'.finished[i] {
      EndsWithNothingLeft(s', i);
    }
  }
}
