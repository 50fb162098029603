/** The timer queue of core/src/kernel/async_rt.rs: a binary heap ordered by a comparison of 32-bit
    ticks that wraps. First its effect on sequences and what it keeps, then the class that works
    in place on an array. */
module TimerHeap {
  import opened Config

  const POOL_MAX: nat := 16
  const HALF: int := 0x8000_0000

  /** `slot` is what the waker of an entry carries: the index of the task slot to make ready. */
  datatype Entry = Entry(tick: nat, slot: nat)

  /** The difference of two ticks, as the sign of an `i32`. */
  predicate Before(x: nat, y: nat) {
    WrapI32(x - y) < 0
  }

  predicate Due(now: nat, tick: nat) {
    WrapI32(now - tick) >= 0
  }

  function Parent(i: nat): nat
    requires i > 0
  {
    (i - 1) / 2
  }

  function Swap(q: seq<Entry>, i: nat, j: nat): seq<Entry>
    requires i < |q| && j < |q|
  {
    q[i := q[j]][j := q[i]]
  }

  function SiftUp(q: seq<Entry>, i: nat): seq<Entry>
    requires i < |q|
    decreases i
  {
    if i > 0 && Before(q[i].tick, q[Parent(i)].tick) then SiftUp(Swap(q, i, Parent(i)), Parent(i)) else q
  }

  function Smallest(q: seq<Entry>, i: nat): (s: nat)
    requires i < |q|
    ensures s in {i, 2 * i + 1, 2 * i + 2} && s < |q|
  {
    var l, r := 2 * i + 1, 2 * i + 2;
    var s := if l < |q| && Before(q[l].tick, q[i].tick) then l else i;
    if r < |q| && Before(q[r].tick, q[s].tick) then r else s
  }

  function SiftDown(q: seq<Entry>, i: nat): seq<Entry>
    requires i < |q|
    decreases |q| - i
  {
    var s := Smallest(q, i);
    if s != i then SiftDown(Swap(q, i, s), s) else q
  }

  /** A full queue drops the new entry. */
  function Push(q: seq<Entry>, e: Entry): seq<Entry> {
    if |q| >= POOL_MAX then q else SiftUp(q + [e], |q|)
  }

  /** What `pop_front` leaves; the entry it returns is the first. */
  function Pop(q: seq<Entry>): seq<Entry>
    requires q != []
  {
    var n := |q| - 1;
    if n == 0 then [] else SiftDown([q[n]] + q[1..n], 0)
  }

  /** `wake_expired`: the entries popped, in that order, and what is left. */
  function Expire(q: seq<Entry>, now: nat): (seq<Entry>, seq<Entry>)
    decreases |q|
  {
    if q != [] && Due(now, q[0].tick) then
      PopMembers(q);
      var (woken, rest) := Expire(Pop(q), now);
      ([q[0]] + woken, rest)
    else ([], q)
  }

  /** The ready flags after the wakers of `woken` have run. */
  function Flag(ready: seq<bool>, woken: seq<Entry>): seq<bool>
    decreases |woken|
  {
    if woken == [] then ready
    else
      var i := woken[0].slot;
      Flag(if i < |ready| then ready[i := true] else ready, woken[1..])
  }

  // ---- Nothing is lost or invented, whatever the ticks -------------------------------------

  lemma SwapPermutes(q: seq<Entry>, i: nat, j: nat)
    requires i < |q| && j < |q|
    ensures multiset(Swap(q, i, j)) == multiset(q)
  {
  }

  lemma {:induction false} SiftUpPermutes(q: seq<Entry>, i: nat)
    requires i < |q|
    ensures |SiftUp(q, i)| == |q| && multiset(SiftUp(q, i)) == multiset(q)
    decreases i
  {
    if i == 0 || !Before(q[i].tick, q[Parent(i)].tick) {
    } else {
      SwapPermutes(q, i, Parent(i));
      SiftUpPermutes(Swap(q, i, Parent(i)), Parent(i));
    }
  }

  lemma {:induction false} SiftDownPermutes(q: seq<Entry>, i: nat)
    requires i < |q|
    ensures |SiftDown(q, i)| == |q| && multiset(SiftDown(q, i)) == multiset(q)
    decreases |q| - i
  {
    var s := Smallest(q, i);
    if s == i {
    } else {
      SwapPermutes(q, i, s);
      SiftDownPermutes(Swap(q, i, s), s);
    }
  }

  lemma PushMembers(q: seq<Entry>, e: Entry)
    requires |q| < POOL_MAX
    ensures |Push(q, e)| == |q| + 1 && multiset(Push(q, e)) == multiset(q) + multiset{e}
  {
    SiftUpPermutes(q + [e], |q|);
  }

  lemma PopMembers(q: seq<Entry>)
    requires q != []
    ensures |Pop(q)| == |q| - 1 && multiset(q) == multiset(Pop(q)) + multiset{q[0]}
  {
    var n := |q| - 1;
    if n > 0 {
      var r := [q[n]] + q[1..n];
      assert q == [q[0]] + q[1..n] + [q[n]];
      SiftDownPermutes(r, 0);
    } else {
      assert q == [q[0]];
    }
  }

  // ---- The order, while all ticks lie in half the range ------------------------------------

  /** How far `tick` is ahead of `base`, going round. */
  function Key(base: int, tick: nat): nat {
    (tick - base) % U32
  }

  ghost predicate Window(q: seq<Entry>, base: int) {
    forall i | 0 <= i < |q| :: Key(base, q[i].tick) < HALF
  }

  lemma BeforeKey(base: int, x: nat, y: nat)
    requires Key(base, x) < HALF && Key(base, y) < HALF
    ensures Before(x, y) <==> Key(base, x) < Key(base, y)
    ensures Due(x, y) <==> Key(base, y) <= Key(base, x)
  {
    var a, b := Key(base, x), Key(base, y);
    var m := (x - base) / U32 - (y - base) / U32;
    assert x - y == a - b + m * U32;
    WrapShift(a - b, m);
  }

  lemma WrapShift(d: int, m: int)
    requires -HALF <= d < HALF
    ensures WrapI32(d + m * U32) == d
  {
    assert (d + HALF + m * U32) % U32 == d + HALF;
  }

  /** For ticks less than a full range apart, the comparison of the wrapped ticks agrees with that of
      the ticks themselves exactly if they are at most half the range apart (below half, on one side). */
  lemma WrappedOrder(x: nat, y: nat)
    requires -U32 < x - y < U32
    ensures (Before(WrapU32(x), WrapU32(y)) <==> x < y) <==> -HALF <= x - y < HALF
    ensures Due(WrapU32(x), WrapU32(y)) <==> !Before(WrapU32(x), WrapU32(y))
  {
    var d, m := x - y, y / U32 - x / U32;
    assert WrapU32(x) - WrapU32(y) == d + m * U32;
    if d < -HALF {
      assert (d + HALF + m * U32) % U32 == d + HALF + U32;
    } else if d < HALF {
      WrapShift(d, m);
    } else {
      assert (d + HALF + m * U32) % U32 == d - HALF;
    }
  }

  ghost predicate Heap(q: seq<Entry>) {
    forall i | 0 < i < |q| :: !Before(q[i].tick, q[Parent(i)].tick)
  }

  /** A heap apart from entry `i`, which may be too small for its place. */
  ghost predicate HeapButUp(q: seq<Entry>, base: int, i: nat)
    requires i < |q|
  {
    && (forall j | 0 < j < |q| && j != i :: Key(base, q[Parent(j)].tick) <= Key(base, q[j].tick))
    && (forall j | 0 < j < |q| && Parent(j) == i && i > 0 :: Key(base, q[Parent(i)].tick) <= Key(base, q[j].tick))
  }

  /** A heap apart from entry `i`, which may be too large for its place. */
  ghost predicate HeapButDown(q: seq<Entry>, base: int, i: nat)
    requires i < |q|
  {
    && (forall j | 0 < j < |q| && Parent(j) != i :: Key(base, q[Parent(j)].tick) <= Key(base, q[j].tick))
    && (forall j | 0 < j < |q| && Parent(j) == i && i > 0 :: Key(base, q[Parent(i)].tick) <= Key(base, q[j].tick))
  }

  lemma HeapKeys(q: seq<Entry>, base: int)
    requires Window(q, base)
    ensures Heap(q) <==> forall j | 0 < j < |q| :: Key(base, q[Parent(j)].tick) <= Key(base, q[j].tick)
  {
    forall j | 0 < j < |q|
      ensures Before(q[j].tick, q[Parent(j)].tick) <==> Key(base, q[j].tick) < Key(base, q[Parent(j)].tick)
    {
      BeforeKey(base, q[j].tick, q[Parent(j)].tick);
    }
  }

  lemma {:induction false} SiftUpHeap(q: seq<Entry>, base: int, i: nat)
    requires i < |q| && Window(q, base) && HeapButUp(q, base, i)
    ensures Window(SiftUp(q, i), base) && Heap(SiftUp(q, i))
    decreases i
  {
    HeapKeys(q, base);
    if i == 0 {
    } else {
      var p := Parent(i);
      BeforeKey(base, q[i].tick, q[p].tick);
      if Before(q[i].tick, q[p].tick) {
        var r := Swap(q, i, p);
        SwapUp(q, base, i);
        SiftUpHeap(r, base, p);
      }
    }
  }

  lemma SwapUp(q: seq<Entry>, base: int, i: nat)
    requires 0 < i < |q| && Window(q, base) && HeapButUp(q, base, i)
    requires Key(base, q[i].tick) < Key(base, q[Parent(i)].tick)
    ensures Window(Swap(q, i, Parent(i)), base) && HeapButUp(Swap(q, i, Parent(i)), base, Parent(i))
  {
    var p, r := Parent(i), Swap(q, i, Parent(i));
    forall j | 0 < j < |r| && j != p ensures Key(base, r[Parent(j)].tick) <= Key(base, r[j].tick) {
      assert j != i ==> Key(base, q[Parent(j)].tick) <= Key(base, q[j].tick);
    }
  }

  lemma {:induction false} SiftDownHeap(q: seq<Entry>, base: int, i: nat)
    requires i < |q| && Window(q, base) && HeapButDown(q, base, i)
    ensures Window(SiftDown(q, i), base) && Heap(SiftDown(q, i))
    decreases |q| - i
  {
    var s := Smallest(q, i);
    SmallestLeast(q, base, i);
    HeapKeys(q, base);
    if s == i {
    } else {
      SwapDown(q, base, i, s);
      SiftDownHeap(Swap(q, i, s), base, s);
    }
  }

  lemma SmallestLeast(q: seq<Entry>, base: int, i: nat)
    requires i < |q| && Window(q, base)
    ensures var s := Smallest(q, i);
            && (forall j | 0 < j < |q| && Parent(j) == i :: Key(base, q[s].tick) <= Key(base, q[j].tick))
            && Key(base, q[s].tick) <= Key(base, q[i].tick)
            && (s != i ==> Parent(s) == i)
  {
    var l, r := 2 * i + 1, 2 * i + 2;
    assert forall j | 0 < j < |q| && Parent(j) == i :: j == l || j == r;
    if l < |q| {
      BeforeKey(base, q[l].tick, q[i].tick);
    }
    if r < |q| {
      BeforeKey(base, q[r].tick, q[i].tick);
      BeforeKey(base, q[r].tick, q[l].tick);
    }
  }

  lemma SwapDown(q: seq<Entry>, base: int, i: nat, s: nat)
    requires i < s < |q| && Parent(s) == i && Window(q, base) && HeapButDown(q, base, i)
    requires forall j | 0 < j < |q| && Parent(j) == i :: Key(base, q[s].tick) <= Key(base, q[j].tick)
    requires Key(base, q[s].tick) <= Key(base, q[i].tick)
    ensures Window(Swap(q, i, s), base) && HeapButDown(Swap(q, i, s), base, s)
  {
  }

  // ---- What the operations promise ---------------------------------------------------------

  lemma PushHeap(q: seq<Entry>, e: Entry, base: int)
    requires Heap(q) && Window(q, base) && Key(base, e.tick) < HALF
    ensures Heap(Push(q, e)) && Window(Push(q, e), base)
  {
    if |q| < POOL_MAX {
      HeapKeys(q, base);
      SiftUpHeap(q + [e], base, |q|);
    }
  }

  lemma PopHeap(q: seq<Entry>, base: int)
    requires q != [] && Heap(q) && Window(q, base)
    ensures Heap(Pop(q)) && Window(Pop(q), base)
  {
    var n := |q| - 1;
    if n > 0 {
      HeapKeys(q, base);
      SiftDownHeap([q[n]] + q[1..n], base, 0);
    }
  }

  /** The first entry is a least one. */
  lemma {:induction false} FirstLeast(q: seq<Entry>, base: int, i: nat)
    requires Heap(q) && Window(q, base) && i < |q|
    ensures Key(base, q[0].tick) <= Key(base, q[i].tick)
    decreases i
  {
    if i == 0 {
    } else {
      BeforeKey(base, q[i].tick, q[Parent(i)].tick);
      FirstLeast(q, base, Parent(i));
    }
  }

  /** `pop_front` takes out a least entry, and leaves a heap of all the others. */
  lemma PopTakesLeast(q: seq<Entry>, base: int)
    requires q != [] && Heap(q) && Window(q, base)
    ensures Heap(Pop(q)) && multiset(q) == multiset(Pop(q)) + multiset{q[0]}
    ensures forall e | e in q :: !Before(e.tick, q[0].tick)
  {
    PopHeap(q, base);
    PopMembers(q);
    forall e | e in q ensures !Before(e.tick, q[0].tick) {
      var i :| 0 <= i < |q| && q[i] == e;
      FirstLeast(q, base, i);
      BeforeKey(base, e.tick, q[0].tick);
    }
  }

  ghost predicate AllDue(q: seq<Entry>, now: nat) {
    forall e | e in q :: Due(now, e.tick)
  }

  ghost predicate NoneDue(q: seq<Entry>, now: nat) {
    forall e | e in q :: !Due(now, e.tick)
  }

  /** Whatever the order, `wake_expired` neither loses nor invents an entry. */
  lemma {:induction false} ExpireMembers(q: seq<Entry>, now: nat)
    ensures multiset(Expire(q, now).0) + multiset(Expire(q, now).1) == multiset(q)
    decreases |q|
  {
    if q == [] || !Due(now, q[0].tick) {
    } else {
      PopMembers(q);
      ExpireMembers(Pop(q), now);
      var woken := Expire(Pop(q), now).0;
      assert multiset([q[0]] + woken) == multiset{q[0]} + multiset(woken);
    }
  }

  /** `wake_expired` splits the entries: those it wakes are due, those it leaves are not, and they
      are still a heap. */
  lemma {:induction false} ExpireExact(q: seq<Entry>, now: nat, base: int)
    requires Heap(q) && Window(q, base) && Key(base, now) < HALF
    ensures var (woken, rest) := Expire(q, now);
            && multiset(woken) + multiset(rest) == multiset(q)
            && AllDue(woken, now) && NoneDue(rest, now)
            && Heap(rest) && Window(rest, base)
    decreases |q|
  {
    ExpireMembers(q, now);
    if q != [] && Due(now, q[0].tick) {
      PopHeap(q, base);
      PopMembers(q);
      ExpireExact(Pop(q), now, base);
    } else if q != [] {
      forall e | e in q ensures !Due(now, e.tick) {
        var i :| 0 <= i < |q| && q[i] == e;
        FirstLeast(q, base, i);
        BeforeKey(base, now, q[0].tick);
        BeforeKey(base, now, e.tick);
      }
    }
  }

  /** The same, entry by entry. */
  lemma ExpireSides(q: seq<Entry>, now: nat, base: int)
    requires Heap(q) && Window(q, base) && Key(base, now) < HALF
    ensures var (woken, rest) := Expire(q, now);
            && Heap(rest) && multiset(rest) <= multiset(q) && multiset(woken) <= multiset(q)
            && forall e | e in multiset(q) ::
                 && (e in multiset(rest) <==> !Due(now, e.tick))
                 && (e in multiset(woken) <==> Due(now, e.tick))
  {
    var (woken, rest) := Expire(q, now);
    ExpireExact(q, now, base);
    assert multiset(q) == multiset(woken) + multiset(rest);
    forall e | e in multiset(q)
      ensures e in multiset(rest) <==> !Due(now, e.tick)
      ensures e in multiset(woken) <==> Due(now, e.tick)
    {
      SplitSides(woken, rest, now, e);
    }
  }

  lemma SplitSides(woken: seq<Entry>, rest: seq<Entry>, now: nat, e: Entry)
    requires AllDue(woken, now) && NoneDue(rest, now) && e in multiset(woken) + multiset(rest)
    ensures e in multiset(woken) <==> Due(now, e.tick)
    ensures e in multiset(rest) <==> !Due(now, e.tick)
  {
    assert e in multiset(woken) <==> e in woken;
    assert e in multiset(rest) <==> e in rest;
  }

  /** A flag is set exactly if it was or some entry woken carries its slot. */
  lemma {:induction false} FlagExact(ready: seq<bool>, woken: seq<Entry>)
    ensures |Flag(ready, woken)| == |ready|
    ensures forall i | 0 <= i < |ready| ::
              Flag(ready, woken)[i] <==> ready[i] || exists e | e in woken :: e.slot == i
    decreases |woken|
  {
    if woken == [] {
    } else {
      var s := woken[0].slot;
      FlagExact(if s < |ready| then ready[s := true] else ready, woken[1..]);
      assert forall e :: e in woken <==> e == woken[0] || e in woken[1..];
    }
  }
}

module TimerQueues {
  import opened TimerHeap

  class TimerQueue {
    const data: array<Entry>
    var len: nat

    ghost predicate Valid()
      reads this
    {
      data.Length == POOL_MAX && len <= POOL_MAX
    }

    ghost function Entries(): seq<Entry>
      requires Valid()
      reads this, data
    {
      data[..len]
    }

    constructor ()
      ensures Valid() && fresh(data) && Entries() == []
    {
      data := new Entry[POOL_MAX];
      len := 0;
    }

    method Push(entry: Entry)
      requires Valid()
      modifies this, data
      ensures Valid() && Entries() == TimerHeap.Push(old(Entries()), entry)
    {
      if len >= POOL_MAX {
        return;
      }
      data[len] := entry;
      len := len + 1;
      assert Entries() == old(Entries()) + [entry];
      SiftUp(len - 1);
    }

    method PopFront() returns (top: Entry)
      requires Valid() && len > 0
      modifies this, data
      ensures Valid() && top == old(Entries())[0] && Entries() == Pop(old(Entries()))
    {
      top := data[0];
      len := len - 1;
      if len > 0 {
        data[0] := data[len];
        assert Entries() == [old(Entries())[len]] + old(Entries())[1..len];
        SiftDown(0);
      }
    }

    /** Pops every entry that is due and runs its waker, which sets the slot's ready flag. */
    method WakeExpired(now: nat, ready: array<bool>)
      requires Valid()
      modifies this, data, ready
      ensures Valid()
      ensures Entries() == Expire(old(Entries()), now).1
      ensures ready[..] == Flag(old(ready[..]), Expire(old(Entries()), now).0)
    {
      while len > 0
        invariant Valid()
        invariant Expire(Entries(), now).1 == Expire(old(Entries()), now).1
        invariant Flag(ready[..], Expire(Entries(), now).0) == Flag(old(ready[..]), Expire(old(Entries()), now).0)
        decreases len
      {
        if !Due(now, data[0].tick) {
          break;
        }
        ghost var q, f := Entries(), ready[..];
        PopMembers(q);
        var entry := PopFront();
        if entry.slot < ready.Length {
          ready[entry.slot] := true;
        }
        assert ready[..] == if entry.slot < |f| then f[entry.slot := true] else f;
      }
    }

    method SiftUp(start: nat)
      requires Valid() && start < len
      modifies data
      ensures Valid() && Entries() == TimerHeap.SiftUp(old(Entries()), start)
    {
      var idx: nat := start;
      while idx > 0
        invariant idx < len
        invariant TimerHeap.SiftUp(Entries(), idx) == TimerHeap.SiftUp(old(Entries()), start)
      {
        var parent := (idx - 1) / 2;
        if !Before(data[idx].tick, data[parent].tick) {
          break;
        }
        ghost var q := Entries();
        data[idx], data[parent] := data[parent], data[idx];
        assert Entries() == Swap(q, idx, parent);
        idx := parent;
      }
    }

    method SiftDown(start: nat)
      requires Valid() && start < len
      modifies data
      ensures Valid() && Entries() == TimerHeap.SiftDown(old(Entries()), start)
    {
      var idx: nat := start;
      while true
        invariant idx < len
        invariant TimerHeap.SiftDown(Entries(), idx) == TimerHeap.SiftDown(old(Entries()), start)
        decreases len - idx
      {
        var left, right := 2 * idx + 1, 2 * idx + 2;
        var smallest := idx;
        if left < len && Before(data[left].tick, data[smallest].tick) {
          smallest := left;
        }
        if right < len && Before(data[right].tick, data[smallest].tick) {
          smallest := right;
        }
        ghost var q := Entries();
        assert smallest == Smallest(q, idx);
        if smallest == idx {
          break;
        }
        data[idx], data[smallest] := data[smallest], data[idx];
        assert Entries() == Swap(q, idx, smallest);
        idx := smallest;
      }
    }
  }
}
