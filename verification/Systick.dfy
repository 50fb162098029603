/** The systick alarm of boards/esp32c6/src/bsp.rs: a 52-bit target in two registers, moved on by whole
    periods in each interrupt, and the ticks the trap handler makes of it. */
module Systick {
  import opened Config
  import opened World
  import opened Safety
  import Globals

  const PERIOD: nat := 16_000
  const HI_RANGE: nat := 0x10_0000
  const RANGE: nat := 0x10_0000_0000_0000
  const MOST_MISSED: nat := 101

  type Target = t: nat | t < 0x10_0000_0000_0000

  function Value(lo: nat, hi: nat): nat {
    hi * U32 + lo
  }

  function Later(t: Target, periods: nat): Target {
    (t + PERIOD * periods) % 0x10_0000_0000_0000
  }

  /** The loop that catches up with `now`: the target it ends with and the periods it counted. */
  function CatchUp(t: Target, now: nat, missed: nat): (Target, nat)
    decreases MOST_MISSED - missed
  {
    if t > now || missed >= MOST_MISSED then (t, missed) else CatchUp(Later(t, 1), now, missed + 1)
  }

  /** `systick_isr`: the next target, and the periods missed beyond the one that is due. */
  function Isr(t: Target, now: nat): (Target, nat) {
    CatchUp(Later(t, 1), now, 0)
  }

  class Alarm {
    var targetLo: nat
    var targetHi: nat

    ghost predicate Valid()
      reads this
    {
      targetLo < U32 && targetHi < HI_RANGE
    }

    ghost function Target(): Target
      requires Valid()
      reads this
    {
      Value(targetLo, targetHi)
    }

    constructor (lo: nat, hi: nat)
      requires lo < U32 && hi < HI_RANGE
      ensures Valid() && Target() == Value(lo, hi)
    {
      targetLo, targetHi := lo, hi;
    }

    /** One period onto a two-word target; the high word has 20 bits. */
    static method AddPeriod(lo: nat, hi: nat) returns (nextLo: nat, nextHi: nat)
      requires lo < U32 && hi < HI_RANGE
      ensures nextLo < U32 && nextHi < HI_RANGE
      ensures Value(nextLo, nextHi) == Later(Value(lo, hi), 1)
    {
      var carry := lo + PERIOD >= U32;
      nextLo := WrapU32(lo + PERIOD);
      nextHi := if carry then (hi + 1) % HI_RANGE else hi;
    }

    /** The interrupt, with the counter read as `curHi`, `curLo`. */
    method SystickIsr(curLo: nat, curHi: nat) returns (missed: nat)
      requires Valid() && curLo < U32 && curHi < HI_RANGE
      modifies this
      ensures Valid() && (Target(), missed) == Isr(old(Target()), Value(curLo, curHi))
    {
      var nextLo: nat, nextHi: nat := AddPeriod(targetLo, targetHi);
      var curVal := Value(curLo, curHi);
      missed := 0;
      while true
        invariant nextLo < U32 && nextHi < HI_RANGE && missed < MOST_MISSED
        invariant CatchUp(Value(nextLo, nextHi), curVal, missed) == Isr(old(Target()), curVal)
        decreases MOST_MISSED - missed
      {
        if Value(nextLo, nextHi) > curVal {
          break;
        }
        nextLo, nextHi := AddPeriod(nextLo, nextHi);
        missed := missed + 1;
        if missed > 100 {
          break;
        }
      }
      targetLo, targetHi := nextLo, nextHi;
    }
  }

  // ---- One interrupt -----------------------------------------------------------------------

  lemma RangesOff(r: nat, q: nat)
    ensures (r + RANGE * q) % RANGE == r % RANGE
  {
  }

  lemma LaterLater(t: Target, a: nat, b: nat)
    ensures Later(Later(t, a), b) == Later(t, a + b)
  {
    var x, y := t + PERIOD * a, PERIOD * b;
    RangesOff(x % RANGE + y, x / RANGE);
    assert x + y == x % RANGE + y + RANGE * (x / RANGE);
  }

  lemma {:induction false} CatchUpPeriods(t: Target, now: nat, missed: nat)
    requires missed <= MOST_MISSED
    ensures var (t', n) := CatchUp(t, now, missed);
            missed <= n <= MOST_MISSED && t' == Later(t, n - missed)
    decreases MOST_MISSED - missed
  {
    if t > now || missed == MOST_MISSED {
    } else {
      CatchUpPeriods(Later(t, 1), now, missed + 1);
      var n := CatchUp(t, now, missed).1;
      LaterLater(t, 1, n - (missed + 1));
    }
  }

  /** The target always moves by as many periods as ticks are counted, cut off or not. */
  lemma IsrMovesByTicks(t: Target, now: nat)
    ensures var (t', missed) := Isr(t, now); missed <= MOST_MISSED && t' == Later(t, missed + 1)
  {
    CatchUpPeriods(Later(t, 1), now, 0);
    LaterLater(t, 1, Isr(t, now).1);
  }

  lemma {:induction false} CatchUpExact(t: Target, now: nat, missed: nat)
    requires missed <= MOST_MISSED && t + PERIOD * (MOST_MISSED - missed) < RANGE
    ensures var (t', n) := CatchUp(t, now, missed);
            && t' == t + PERIOD * (n - missed)
            && (n > missed ==> t' <= now + PERIOD)
            && (t' > now || (n == MOST_MISSED && t' <= now))
            && n >= missed
    decreases MOST_MISSED - missed
  {
    if t > now || missed == MOST_MISSED {
    } else {
      assert Later(t, 1) == t + PERIOD;
      CatchUpExact(Later(t, 1), now, missed + 1);
    }
  }

  lemma IsrExact(t: Target, now: nat)
    requires t <= now && t + PERIOD * (MOST_MISSED + 1) < RANGE
    ensures var (t', missed) := Isr(t, now);
            && t' == t + PERIOD * missed + PERIOD
            && missed <= MOST_MISSED && t' <= now + PERIOD
            && (now < t' || missed == MOST_MISSED)
  {
    assert Later(t, 1) == t + PERIOD;
    CatchUpExact(t + PERIOD, now, 0);
    CatchUpPeriods(t + PERIOD, now, 0);
  }

  /** While the 52-bit counter does not wrap, an interrupt taken at or after its target leaves the next
      target in the period after `now` exactly if it is less than 102 periods late, and then counts
      exactly the periods gone by. */
  lemma NextPeriodIff(t: Target, now: nat)
    requires t <= now && t + PERIOD * (MOST_MISSED + 1) < RANGE
    ensures var (t', missed) := Isr(t, now);
            && t' - PERIOD <= now
            && (now < t' <==> now < t + PERIOD * (MOST_MISSED + 1))
            && (now < t' ==> missed == (now - t) / PERIOD)
  {
    var (t', missed) := Isr(t, now);
    IsrExact(t, now);
    if now < t' {
      DivBetween(now - t, missed);
      assert missed + 1 <= MOST_MISSED + 1;
    }
  }

  lemma DivBetween(d: nat, n: nat)
    requires n * PERIOD <= d < n * PERIOD + PERIOD
    ensures d / PERIOD == n
  {
    assert d == n * PERIOD + (d - n * PERIOD);
  }

  lemma {:induction false} CatchUpCutOff(t: Target, now: nat, missed: nat)
    requires missed <= MOST_MISSED && t + PERIOD * (MOST_MISSED - missed) <= now && now < RANGE
    ensures CatchUp(t, now, missed).1 == MOST_MISSED
    decreases MOST_MISSED - missed
  {
    if missed == MOST_MISSED {
    } else {
      assert Later(t, 1) == t + PERIOD;
      CatchUpCutOff(Later(t, 1), now, missed + 1);
    }
  }

  /** An interrupt in time counts a single tick exactly if the target does not wrap; when it does, the
      new target looks long past and the cut-off number of ticks is counted. */
  lemma OnTimeIff(t: Target, now: nat)
    requires t <= now < t + PERIOD && now < RANGE
    ensures Isr(t, now).1 == (if t + PERIOD < RANGE then 0 else MOST_MISSED)
  {
    if t + PERIOD >= RANGE {
      assert Later(t, 1) == t + PERIOD - RANGE;
      CatchUpCutOff(Later(t, 1), now, 0);
    }
  }

  // ---- Runs --------------------------------------------------------------------------------

  /** The ticks replayed in a run. */
  function Counted(ops: seq<Op>): nat {
    if ops == [] then 0 else TicksOf(ops[0]) + Counted(ops[1..])
  }

  function TicksOf(op: Op): nat {
    if op.SystickOp? then op.missed + 1 else 0
  }

  /** Every systick interrupt of `ops` is one of the alarm, which reads the counter as the next of
      `nows`; the target goes from `t` to `t'`. */
  ghost predicate Alarmed(t: Target, ops: seq<Op>, nows: seq<nat>, t': Target)
    decreases |ops|
  {
    if ops == [] then t' == t
    else if ops[0].SystickOp? then
      nows != [] && Isr(t, nows[0]).1 == ops[0].missed
      && Alarmed(Isr(t, nows[0]).0, ops[1..], nows[1..], t')
    else Alarmed(t, ops[1..], nows, t')
  }

  /** The kernel runs, and its counter has gone round `laps` times when `total` ticks were counted. */
  ghost predicate Shows(w: World, total: nat, laps: nat) {
    w.k.started && w.k.ticks < U32 && total == w.k.ticks + U32 * laps
  }

  lemma Laps(total: nat) returns (laps: nat)
    ensures WrapU32(total) < U32 && total == WrapU32(total) + U32 * laps
  {
    laps := total / U32;
  }

  lemma StepCounted(w: World, op: Op, total: nat, laps: nat) returns (laps': nat)
    requires Enabled(w, op) && Shows(w, total, laps)
    ensures Shows(Next(w, op), total + TicksOf(op), laps')
  {
    Globals.StepTicks(w, op);
    var more := Laps(w.k.ticks + TicksOf(op));
    laps' := laps + more;
  }

  lemma {:induction false} TicksCounted(w: World, ops: seq<Op>, w': World, total: nat, laps: nat)
    returns (laps': nat)
    requires Reaches(w, ops, w') && Shows(w, total, laps)
    ensures Shows(w', total + Counted(ops), laps')
    decreases |ops|
  {
    if ops == [] {
      laps' := laps;
    } else {
      var laps1 := StepCounted(w, ops[0], total, laps);
      laps' := TicksCounted(Next(w, ops[0]), ops[1..], w', total + TicksOf(ops[0]), laps1);
    }
  }

  lemma {:induction false} TargetMoves(t: Target, ops: seq<Op>, nows: seq<nat>, t': Target)
    requires Alarmed(t, ops, nows, t')
    ensures t' == Later(t, Counted(ops))
    decreases |ops|
  {
    if ops == [] {
    } else {
      if ops[0].SystickOp? {
        IsrMovesByTicks(t, nows[0]);
        TargetMoves(Isr(t, nows[0]).0, ops[1..], nows[1..], t');
        LaterLater(t, TicksOf(ops[0]), Counted(ops[1..]));
      } else {
        TargetMoves(t, ops[1..], nows, t');
      }
    }
  }

  /** No drift: over any run of the started system, with any interrupt latencies, the alarm's target has
      moved on by exactly as many periods as the kernel has counted ticks, and its counter by these ticks
      less the laps it has gone round. */
  lemma NoTickDrift(w: World, ops: seq<Op>, w': World, t: Target, nows: seq<nat>, t': Target)
    returns (laps: nat)
    requires w.k.started && w.k.ticks < U32 && Reaches(w, ops, w') && Alarmed(t, ops, nows, t')
    ensures t' == Later(t, Counted(ops))
    ensures w'.k.ticks < U32 && w'.k.ticks + U32 * laps == w.k.ticks + Counted(ops)
  {
    laps := TicksCounted(w, ops, w', w.k.ticks, 0);
    TargetMoves(t, ops, nows, t');
  }
}
