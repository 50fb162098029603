/** The message queue of core/src/kernel/ipc.rs: the ring buffer in place, and the calls of `send` and
    `recv` as they interleave. How long a caller waits, and whether its wait ends with `Ok` or
    `TimeOut`, is left open. */
module MsgQueue {
  import opened Config

  /** `MsgQueueInner` without its wait lists; `buffer.Length` is the capacity. */
  class Ring<T> {
    const buffer: array<T>
    var head: nat
    var tail: nat
    var len: nat

    ghost predicate Valid()
      reads this
    {
      && len <= buffer.Length
      && (if buffer.Length == 0 then head == tail == 0
          else head < buffer.Length && tail == Slot(head, len, buffer.Length))
    }

    /** The messages in the ring, oldest first. */
    ghost function Contents(): seq<T>
      requires Valid()
      reads this, buffer
    {
      From(buffer[..], head, len)
    }

    constructor (capacity: nat, fill: T)
      ensures Valid() && fresh(buffer) && buffer.Length == capacity && Contents() == []
    {
      buffer := new T[capacity](_ => fill);
      head, tail, len := 0, 0, 0;
    }

    method Push(msg: T)
      requires Valid()
      modifies this, buffer
      ensures Valid() && Contents() == Pushed(buffer.Length, old(Contents()), msg)
    {
      if len < buffer.Length {
        PushFrom(buffer[..], head, len, msg);
        Mod(tail + 1, buffer.Length);
        buffer[tail] := msg;
        tail := (tail + 1) % buffer.Length;
        len := len + 1;
      }
    }

    method Pop() returns (msg: Option<T>)
      requires Valid()
      modifies this
      ensures Valid()
      ensures old(Contents()) == [] ==> msg == None && Contents() == []
      ensures old(Contents()) != [] ==> msg == Some(old(Contents())[0]) && Contents() == old(Contents())[1..]
    {
      if len > 0 {
        PopFrom(buffer[..], head, len);
        Mod(head + 1, buffer.Length);
        msg := Some(buffer[head]);
        head := (head + 1) % buffer.Length;
        len := len - 1;
      } else {
        msg := None;
      }
    }
  }

  /** `i` places on from `h` in a ring of `n`. */
  function Slot(h: nat, i: nat, n: nat): nat {
    if h + i < n then h + i else h + i - n
  }

  /** `l` elements of the ring `b`, from `h` on. */
  function From<T>(b: seq<T>, h: nat, l: nat): seq<T>
    requires l <= |b| && (|b| > 0 ==> h < |b|)
  {
    seq(l, i requires 0 <= i < l => b[Slot(h, i, |b|)])
  }

  lemma Mod(x: nat, n: nat)
    requires x < 2 * n
    ensures x % n == (if x < n then x else x - n)
  {
    if x >= n {
      assert x == n + (x - n);
    }
  }

  lemma PushFrom<T>(b: seq<T>, h: nat, l: nat, msg: T)
    requires l < |b| && h < |b|
    ensures From(b[Slot(h, l, |b|) := msg], h, l + 1) == From(b, h, l) + [msg]
  {
  }

  lemma PopFrom<T>(b: seq<T>, h: nat, l: nat)
    requires 0 < l <= |b| && h < |b|
    ensures From(b, h, l)[0] == b[h] && From(b, Slot(h, 1, |b|), l - 1) == From(b, h, l)[1..]
  {
  }

  function Pushed<T>(capacity: nat, q: seq<T>, msg: T): seq<T> {
    if |q| < capacity then q + [msg] else q
  }

  // ---- Calls -------------------------------------------------------------------------------

  /** Where a call stands: before its first critical section; waiting; before its second; or returned,
      with `Ok` or with `Err(TimeOut)`. */
  datatype Pc = First | Waits | Second | Done(ok: bool)

  datatype Call<T> = Send(pc: Pc, msg: T) | Recv(pc: Pc, got: Option<T>)

  /** `queue` is the ring's content. History: the calls whose message was accepted, in that order, and
      the pairs of sending and receiving call between which one was handed over. */
  datatype State<T> = State(
    capacity: nat, queue: seq<T>, calls: seq<Call<T>>, accepted: seq<nat>, delivered: seq<(nat, nat)>)

  datatype Step<T> = NewSend(msg: T) | NewRecv | Run(call: nat) | WaitEnds(call: nat, timedOut: bool)

  predicate Enabled<T>(s: State<T>, step: Step<T>) {
    match step
    case Run(i) => i < |s.calls| && s.calls[i].pc in {First, Second}
    case WaitEnds(i, _) => i < |s.calls| && s.calls[i].pc == Waits
    case _ => true
  }

  function At<T>(s: State<T>, i: nat, pc: Pc): State<T>
    requires i < |s.calls|
  {
    s.(calls := s.calls[i := s.calls[i].(pc := pc)])
  }

  /** A critical section of `send` or `recv`: what it does when it can, and where the call goes on
      when it cannot. */
  function Section<T>(s: State<T>, i: nat): State<T>
    requires i < |s.calls|
  {
    var otherwise := if s.calls[i].pc == First then Waits else Done(false);
    match s.calls[i]
    case Send(_, msg) =>
      if |s.queue| < s.capacity then
        At(s, i, Done(true)).(queue := Pushed(s.capacity, s.queue, msg), accepted := s.accepted + [i])
      else At(s, i, otherwise)
    case Recv(_, _) =>
      if |s.queue| > 0 then
        s.(queue := s.queue[1..], calls := s.calls[i := Recv(Done(true), Some(s.queue[0]))],
           delivered := s.delivered + [(if |s.delivered| < |s.accepted| then s.accepted[|s.delivered|] else i, i)])
      else At(s, i, otherwise)
  }

  function Next<T>(s: State<T>, step: Step<T>): State<T>
    requires Enabled(s, step)
  {
    match step
    case NewSend(msg) => s.(calls := s.calls + [Send(First, msg)])
    case NewRecv => s.(calls := s.calls + [Recv(First, None)])
    case Run(i) => Section(s, i)
    case WaitEnds(i, timedOut) => At(s, i, if timedOut then Done(false) else Second)
  }

  ghost predicate Reaches<T>(s: State<T>, steps: seq<Step<T>>, s': State<T>)
    decreases |steps|
  {
    if steps == [] then s' == s else Enabled(s, steps[0]) && Reaches(Next(s, steps[0]), steps[1..], s')
  }

  // ---- The invariant -----------------------------------------------------------------------

  predicate Sent<T>(s: State<T>, i: nat) {
    i < |s.calls| && s.calls[i].Send? && s.calls[i].pc == Done(true)
  }

  predicate Received<T>(s: State<T>, i: nat) {
    i < |s.calls| && s.calls[i].Recv? && s.calls[i].pc == Done(true)
  }

  ghost predicate Once(ids: seq<nat>) {
    forall i, j | 0 <= i < j < |ids| :: ids[i] != ids[j]
  }

  /** The sends that returned `Ok`, and no others, were accepted, once each. */
  ghost predicate AcceptedOk<T>(s: State<T>) {
    && Once(s.accepted)
    && (forall k | 0 <= k < |s.accepted| :: Sent(s, s.accepted[k]))
    && (forall i | Sent(s, i) :: i in s.accepted)
  }

  /** The `k`-th delivery is of the `k`-th message accepted, to a receive that returned it. */
  ghost predicate DeliveredOk<T>(s: State<T>)
    requires AcceptedOk(s)
  {
    && |s.delivered| <= |s.accepted|
    && (forall k | 0 <= k < |s.delivered| ::
          && s.delivered[k].0 == s.accepted[k]
          && Received(s, s.delivered[k].1)
          && s.calls[s.delivered[k].1].got == Some(s.calls[s.accepted[k]].msg))
    && (forall j, k | 0 <= j < k < |s.delivered| :: s.delivered[j].1 != s.delivered[k].1)
    && (forall i | Received(s, i) :: exists k | 0 <= k < |s.delivered| :: s.delivered[k].1 == i)
  }

  /** The queue holds the messages accepted and not yet delivered, in order. */
  ghost predicate QueueOk<T>(s: State<T>)
    requires AcceptedOk(s)
  {
    && |s.queue| == |s.accepted| - |s.delivered| <= s.capacity
    && forall k | 0 <= k < |s.queue| :: s.queue[k] == s.calls[s.accepted[|s.delivered| + k]].msg
  }

  /** A receive that has not succeeded has no message. */
  ghost predicate Inv<T>(s: State<T>) {
    && AcceptedOk(s) && DeliveredOk(s) && QueueOk(s)
    && forall i | 0 <= i < |s.calls| && s.calls[i].Recv? :: s.calls[i].got.Some? <==> s.calls[i].pc == Done(true)
  }

  ghost predicate Initial<T>(s: State<T>) {
    s.queue == [] && s.calls == [] && s.accepted == [] && s.delivered == []
  }

  /** A step that only moves calls that do not succeed by it. */
  lemma KeepsInv<T>(s: State<T>, s': State<T>)
    requires Inv(s) && s' == s.(calls := s'.calls) && |s.calls| <= |s'.calls|
    requires forall i | 0 <= i < |s.calls| ::
               s'.calls[i] == s.calls[i] || (s'.calls[i] == s.calls[i].(pc := s'.calls[i].pc)
                                             && s.calls[i].pc != Done(true) && s'.calls[i].pc != Done(true))
    requires forall i | |s.calls| <= i < |s'.calls| ::
               s'.calls[i].pc == First && (s'.calls[i].Recv? ==> s'.calls[i].got.None?)
    ensures Inv(s')
  {
    assert forall i :: Sent(s', i) <==> Sent(s, i);
    assert forall i :: Received(s', i) <==> Received(s, i);
  }

  /** Call `i` returns `Ok` in this step; no other call moves. */
  lemma OneReturns<T>(s: State<T>, s': State<T>, i: nat, c: Call<T>)
    requires i < |s.calls| && s.calls[i].pc != Done(true)
    requires s'.calls == s.calls[i := c] && c.pc == Done(true) && (c.Send? <==> s.calls[i].Send?)
    ensures forall j :: Sent(s', j) <==> Sent(s, j) || (j == i && s.calls[i].Send?)
    ensures forall j :: Received(s', j) <==> Received(s, j) || (j == i && s.calls[i].Recv?)
    ensures forall j: nat | Sent(s, j) :: s'.calls[j] == s.calls[j]
    ensures forall j: nat | Received(s, j) :: s'.calls[j] == s.calls[j]
  {
  }

  lemma SendAccepted<T>(s: State<T>, i: nat)
    requires Inv(s) && Enabled(s, Run(i)) && s.calls[i].Send? && |s.queue| < s.capacity
    ensures AcceptedOk(Next(s, Run(i)))
  {
    var s' := Next(s, Run(i));
    OneReturns(s, s', i, Send(Done(true), s.calls[i].msg));
    forall j | Sent(s', j) ensures j in s'.accepted {
      if j == i {
        assert s'.accepted[|s.accepted|] == i;
      } else {
        assert j in s.accepted;
      }
    }
    forall k | 0 <= k < |s'.accepted| ensures Sent(s', s'.accepted[k]) {
      assert k < |s.accepted| ==> Sent(s, s.accepted[k]);
    }
    assert !Sent(s, i);
  }

  lemma SendKeepsCalls<T>(s: State<T>, i: nat)
    requires Inv(s) && Enabled(s, Run(i)) && s.calls[i].Send? && |s.queue| < s.capacity
    ensures forall k | 0 <= k < |s.accepted| :: Next(s, Run(i)).calls[s.accepted[k]] == s.calls[s.accepted[k]]
  {
    forall k | 0 <= k < |s.accepted| ensures Next(s, Run(i)).calls[s.accepted[k]] == s.calls[s.accepted[k]] {
      assert Sent(s, s.accepted[k]);
    }
  }

  lemma SendDelivered<T>(s: State<T>, i: nat)
    requires Inv(s) && Enabled(s, Run(i)) && s.calls[i].Send? && |s.queue| < s.capacity
    requires AcceptedOk(Next(s, Run(i)))
    ensures DeliveredOk(Next(s, Run(i)))
  {
    var s' := Next(s, Run(i));
    OneReturns(s, s', i, Send(Done(true), s.calls[i].msg));
    SendKeepsCalls(s, i);
    forall k | 0 <= k < |s.delivered| ensures Received(s', s.delivered[k].1) {
      assert Received(s, s.delivered[k].1);
    }
  }

  lemma SendQueued<T>(s: State<T>, i: nat)
    requires Inv(s) && Enabled(s, Run(i)) && s.calls[i].Send? && |s.queue| < s.capacity
    requires AcceptedOk(Next(s, Run(i)))
    ensures QueueOk(Next(s, Run(i)))
  {
    SendKeepsCalls(s, i);
  }

  lemma SendInv<T>(s: State<T>, i: nat)
    requires Inv(s) && Enabled(s, Run(i)) && s.calls[i].Send? && |s.queue| < s.capacity
    ensures Inv(Next(s, Run(i)))
  {
    SendAccepted(s, i);
    SendDelivered(s, i);
    SendQueued(s, i);
  }

  lemma RecvAccepted<T>(s: State<T>, i: nat)
    requires Inv(s) && Enabled(s, Run(i)) && s.calls[i].Recv? && |s.queue| > 0
    ensures AcceptedOk(Next(s, Run(i)))
  {
    var s' := Next(s, Run(i));
    OneReturns(s, s', i, Recv(Done(true), Some(s.queue[0])));
    forall k | 0 <= k < |s.accepted| ensures Sent(s', s.accepted[k]) {
      assert Sent(s, s.accepted[k]);
    }
  }

  lemma RecvDelivered<T>(s: State<T>, i: nat)
    requires Inv(s) && Enabled(s, Run(i)) && s.calls[i].Recv? && |s.queue| > 0
    requires AcceptedOk(Next(s, Run(i)))
    ensures DeliveredOk(Next(s, Run(i)))
  {
    var s', n := Next(s, Run(i)), |s.delivered|;
    OneReturns(s, s', i, Recv(Done(true), Some(s.queue[0])));
    assert s'.delivered[n] == (s.accepted[n], i) && s.queue[0] == s.calls[s.accepted[n + 0]].msg;
    assert Sent(s, s.accepted[n]);
    forall k | 0 <= k < n
      ensures Received(s', s.delivered[k].1) && s.delivered[k].1 != i
      ensures s'.calls[s.delivered[k].1] == s.calls[s.delivered[k].1]
      ensures s'.calls[s.accepted[k]] == s.calls[s.accepted[k]]
    {
      assert Received(s, s.delivered[k].1) && Sent(s, s.accepted[k]);
    }
    forall j | Received(s', j) ensures exists k | 0 <= k < |s'.delivered| :: s'.delivered[k].1 == j {
      AmongDelivered(s.delivered, s'.delivered[n], j);
    }
  }

  lemma AmongDelivered(d: seq<(nat, nat)>, last: (nat, nat), j: nat)
    requires last.1 == j || exists k | 0 <= k < |d| :: d[k].1 == j
    ensures exists k | 0 <= k < |d + [last]| :: (d + [last])[k].1 == j
  {
    var e := d + [last];
    if last.1 == j {
      assert e[|d|].1 == j;
    } else {
      var k :| 0 <= k < |d| && d[k].1 == j;
      assert e[k].1 == j;
    }
  }

  lemma RecvQueued<T>(s: State<T>, i: nat)
    requires Inv(s) && Enabled(s, Run(i)) && s.calls[i].Recv? && |s.queue| > 0
    requires AcceptedOk(Next(s, Run(i)))
    ensures QueueOk(Next(s, Run(i)))
  {
    var s', n := Next(s, Run(i)), |s.delivered|;
    forall k | 0 <= k < |s'.queue| ensures s'.queue[k] == s'.calls[s'.accepted[|s'.delivered| + k]].msg {
      assert s.queue[k + 1] == s.calls[s.accepted[n + (k + 1)]].msg;
      assert Sent(s, s.accepted[n + (k + 1)]);
    }
  }

  lemma RecvInv<T>(s: State<T>, i: nat)
    requires Inv(s) && Enabled(s, Run(i)) && s.calls[i].Recv? && |s.queue| > 0
    ensures Inv(Next(s, Run(i)))
  {
    RecvAccepted(s, i);
    RecvDelivered(s, i);
    RecvQueued(s, i);
  }

  lemma StepInv<T>(s: State<T>, step: Step<T>)
    requires Inv(s) && Enabled(s, step)
    ensures Inv(Next(s, step)) && Next(s, step).capacity == s.capacity
  {
    if step.Run? && s.calls[step.call].Send? && |s.queue| < s.capacity {
      SendInv(s, step.call);
    } else if step.Run? && s.calls[step.call].Recv? && |s.queue| > 0 {
      RecvInv(s, step.call);
    } else {
      KeepsInv(s, Next(s, step));
    }
  }

  lemma {:induction false} RunInv<T>(s: State<T>, steps: seq<Step<T>>, s': State<T>)
    requires Inv(s) && Reaches(s, steps, s')
    ensures Inv(s') && s'.capacity == s.capacity
    decreases |steps|
  {
    if steps == [] {
    } else {
      StepInv(s, steps[0]);
      RunInv(Next(s, steps[0]), steps[1..], s');
    }
  }

  // ---- What it means for callers -----------------------------------------------------------

  /** The messages of the sends that were accepted, in order. */
  function Messages<T>(s: State<T>): seq<T>
    requires forall k | 0 <= k < |s.accepted| :: Sent(s, s.accepted[k])
  {
    seq(|s.accepted|, k requires 0 <= k < |s.accepted| && Sent(s, s.accepted[k]) => s.calls[s.accepted[k]].msg)
  }

  /** The messages the receives returned, in order of delivery. */
  function Got<T>(s: State<T>): seq<Option<T>>
    requires forall k | 0 <= k < |s.delivered| :: Received(s, s.delivered[k].1)
  {
    seq(|s.delivered|, k requires 0 <= k < |s.delivered| && Received(s, s.delivered[k].1) =>
      s.calls[s.delivered[k].1].got)
  }

  /** First in, first out and exactly once, over every interleaving, time-out and retry. A send is among
      the accepted ones exactly if it returned `Ok`, and then once; a receive is among the deliveries
      exactly if it returned `Ok`, and then once; the messages received are those accepted first, in
      the same order; and the rest, never more than the capacity, is in the queue. */
  lemma ExactlyOnceInOrder<T>(s0: State<T>, steps: seq<Step<T>>, s: State<T>)
    requires Initial(s0) && Reaches(s0, steps, s)
    ensures Once(s.accepted) && forall i :: i in s.accepted <==> Sent(s, i)
    ensures forall i :: Received(s, i) <==> exists k | 0 <= k < |s.delivered| :: s.delivered[k].1 == i
    ensures forall j, k | 0 <= j < k < |s.delivered| :: s.delivered[j].1 != s.delivered[k].1
    ensures |Got(s)| <= |Messages(s)| && forall k | 0 <= k < |Got(s)| :: Got(s)[k] == Some(Messages(s)[k])
    ensures s.queue == Messages(s)[|Got(s)|..] && |s.queue| <= s0.capacity
    ensures forall i | 0 <= i < |s.calls| && s.calls[i].Recv? :: s.calls[i].pc != Done(true) ==> s.calls[i].got.None?
  {
    assert Inv(s0);
    RunInv(s0, steps, s);
  }

  /** In every reachable state: a critical section of a receive succeeds exactly if a message accepted is
      still undelivered, and then returns the first such; one of a send exactly if fewer messages are
      undelivered than the capacity. One that fails goes on to wait if it is the first, and else returns
      `Err(TimeOut)`. No other call is touched. */
  lemma SucceedsIff<T>(s0: State<T>, steps: seq<Step<T>>, s: State<T>, i: nat)
    requires Initial(s0) && Reaches(s0, steps, s) && Enabled(s, Run(i))
    ensures |s.delivered| <= |s.accepted|
    ensures var (c, c', waiting) := (s.calls[i], Next(s, Run(i)).calls[i], |s.accepted| - |s.delivered|);
            && (c'.pc == Done(true) <==> if c.Send? then waiting < s0.capacity else waiting > 0)
            && (c'.pc != Done(true) ==> c' == c.(pc := if c.pc == First then Waits else Done(false)))
            && (c'.pc == Done(true) && c.Recv? ==>
                  && waiting > 0 && Sent(s, s.accepted[|s.delivered|])
                  && c' == Recv(Done(true), Some(s.calls[s.accepted[|s.delivered|]].msg)))
    ensures Next(s, Run(i)).calls == s.calls[i := Next(s, Run(i)).calls[i]]
  {
    assert Inv(s0);
    RunInv(s0, steps, s);
  }

  /** None of the steps belongs to call `i`. */
  ghost predicate OthersOnly<T>(steps: seq<Step<T>>, i: nat) {
    forall k | 0 <= k < |steps| :: steps[k].Run? || steps[k].WaitEnds? ==> steps[k].call != i
  }

  /** Over any run in which a call takes no step of its own, it stands where it stood. */
  lemma {:induction false} OthersLeaveIt<T>(s: State<T>, steps: seq<Step<T>>, s': State<T>, i: nat)
    requires Reaches(s, steps, s') && i < |s.calls|
    requires OthersOnly(steps, i)
    ensures i < |s'.calls| && s'.calls[i] == s.calls[i]
    decreases |steps|
  {
    if steps == [] {
    } else {
      assert forall k | 0 <= k < |steps[1..]| :: steps[1..][k] == steps[k + 1];
      OthersLeaveIt(Next(s, steps[0]), steps[1..], s', i);
    }
  }

  /** A new call, whatever happens before its first critical section: it then succeeds exactly if a message
      is undelivered, or there is room for its own, and else waits. A message sent is its own. */
  lemma FirstTry<T>(s0: State<T>, steps: seq<Step<T>>, s: State<T>, step: Step<T>, more: seq<Step<T>>, s2: State<T>)
    requires Initial(s0) && Reaches(s0, steps, s) && (step.NewSend? || step.NewRecv?)
    requires Reaches(Next(s, step), more, s2)
    requires OthersOnly(more, |s.calls|)
    ensures Enabled(s2, Run(|s.calls|))
    ensures var (i, s3, waiting) := (|s.calls|, Next(s2, Run(|s.calls|)), |s2.accepted| - |s2.delivered|);
            var ok := if step.NewSend? then waiting < s0.capacity else waiting > 0;
            && s3.calls[i].pc == (if ok then Done(true) else Waits)
            && (step.NewSend? ==> s3.calls[i].Send? && s3.calls[i].msg == step.msg)
            && (ok && step.NewSend? ==> s3.accepted == s2.accepted + [i])
            && (ok && step.NewRecv? ==> s3.calls[i].Recv? && |s3.delivered| == |s2.delivered| + 1)
  {
    var s1 := Next(s, step);
    assert Inv(s0);
    RunInv(s0, steps, s);
    StepInv(s, step);
    OthersLeaveIt(s1, more, s2, |s.calls|);
    RunInv(s1, more, s2);
  }

  /** A call whose first critical section fails waits, whatever the others do. When its wait ends with a
      time-out it has returned `Err(TimeOut)`; when it ends with `Ok` the call comes back, whatever the others
      do meanwhile, for one more section, which succeeds exactly as the first would or times out. */
  lemma SecondTry<T>(s0: State<T>, steps: seq<Step<T>>, s: State<T>, i: nat,
                     more: seq<Step<T>>, s2: State<T>, yetMore: seq<Step<T>>, s3: State<T>)
    requires Initial(s0) && Reaches(s0, steps, s) && Enabled(s, Run(i)) && s.calls[i].pc == First
    requires Next(s, Run(i)).calls[i].pc != Done(true)
    requires Reaches(Next(s, Run(i)), more, s2) && OthersOnly(more, i)
    ensures !Enabled(s2, Run(i)) && Enabled(s2, WaitEnds(i, false)) && Enabled(s2, WaitEnds(i, true))
    ensures Next(s2, WaitEnds(i, true)).calls[i].pc == Done(false)
    ensures Reaches(Next(s2, WaitEnds(i, false)), yetMore, s3) && OthersOnly(yetMore, i) ==>
              && Enabled(s3, Run(i))
              && var waiting := |s3.accepted| - |s3.delivered|;
                 Next(s3, Run(i)).calls[i].pc ==
                   Done(if s.calls[i].Send? then waiting < s0.capacity else waiting > 0)
  {
    assert Inv(s0);
    RunInv(s0, steps, s);
    StepInv(s, Run(i));
    OthersLeaveIt(Next(s, Run(i)), more, s2, i);
    RunInv(Next(s, Run(i)), more, s2);
    var back := Next(s2, WaitEnds(i, false));
    if Reaches(back, yetMore, s3) && OthersOnly(yetMore, i) {
      StepInv(s2, WaitEnds(i, false));
      OthersLeaveIt(back, yetMore, s3, i);
      RunInv(back, yetMore, s3);
    }
  }
}
