/** The kernel's global state and its operations in place, as in core/src/kernel: each method is
    proved to have exactly the effect that `KernelSpec` gives it. */
module KernelImpl {
  import opened Config
  import opened KernelSpec
  import opened TaskLists
  import opened TidBits
  import opened Words

  class Kernel {
    const tcb: array<Tcb>
    const readyList: TaskList
    const sleepingList: TaskList
    const blockedList: TaskList
    var current: Tid
    var osTicks: nat
    var tidBitmap: bv32
    var schedReady: bool
    var panicked: bool

    ghost const Repr: set<object>

    ghost predicate Valid()
      reads this
    {
      && tcb.Length == TASK_MAX
      && Repr == {this, tcb, readyList, sleepingList, blockedList}
      && readyList != sleepingList && readyList != blockedList && sleepingList != blockedList
    }

    /** The value of the state. */
    ghost function V(): K
      requires Valid()
      reads this, Repr
    {
      K(tcb[..], readyList.tids, sleepingList.tids, blockedList.tids,
        current, osTicks, Used(tidBitmap), schedReady, panicked)
    }

    constructor ()
      ensures Valid() && fresh(Repr) && V() == Boot()
    {
      var t := new Tcb[TASK_MAX](_ => EMPTY_TCB);
      var r := new TaskList();
      var s := new TaskList();
      var b := new TaskList();
      tcb, readyList, sleepingList, blockedList := t, r, s, b;
      current, osTicks, tidBitmap, schedReady, panicked := 0, 0, 0, false, false;
      Repr := {this, t, r, s, b};
      new;
      NoBits();
      assert tcb[..] == Boot().tcb;
    }

    method SetStatus(t: Tid, st: Status)
      requires Valid()
      modifies tcb
      ensures V() == old(V()).(tcb := KernelSpec.SetStatus(old(V()).tcb, t, st))
    {
      tcb[t] := tcb[t].(status := st);
    }

    method InsertReady(t: Tid)
      requires Valid()
      modifies readyList
      ensures V() == old(V()).(ready := Enqueue(old(V()).tcb, old(V()).ready, t))
    {
      var _ := readyList.InsertInOrder(t, ByPriority(tcb[..], t));
    }

    method MakeReady(t: Tid)
      requires Valid()
      modifies tcb, readyList
      ensures V() == KernelSpec.MakeReady(old(V()), t)
    {
      SetStatus(t, Ready);
      InsertReady(t);
    }

    method BlockCurrent()
      requires Valid()
      modifies tcb, readyList
      ensures V() == KernelSpec.BlockCurrent(old(V()))
    {
      SetStatus(current, Blocked);
      readyList.Remove(current);
    }

    method WakeUpSleepers()
      requires Valid()
      modifies Repr
      ensures V() == WakeSleepers(old(V()), 0)
    {
      var i := 0;
      while i < |sleepingList.tids|
        invariant 0 <= i <= |sleepingList.tids|
        invariant WakeSleepers(V(), i) == WakeSleepers(old(V()), 0)
        decreases |sleepingList.tids| - i
      {
        var t := sleepingList.tids[i];
        if osTicks >= tcb[t].wake {
          ghost var before := V();
          sleepingList.Remove(t);
          tcb[t] := tcb[t].(wake := 0);
          MakeReady(t);
          assert V() == WakeOne(before, t);
        } else {
          i := i + 1;
        }
      }
    }

    method RequeueCurrent()
      requires Valid()
      modifies Repr
      ensures V() == Requeue(old(V()))
    {
      var c := current;
      if tcb[c].status == Terminated || tcb[c].status == Blocked {
        readyList.Remove(c);
      } else if tcb[c].slice == 0 || tcb[c].status == Running {
        tcb[c] := tcb[c].(slice := TIME_SLICE, status := Ready);
        readyList.Remove(c);
        InsertReady(c);
      }
    }

    method SelectFront()
      requires Valid()
      modifies Repr
      ensures V() == Select(old(V()))
    {
      if readyList.tids == [] {
        panicked := true;
      } else {
        var s := readyList.tids[0];
        if s != current {
          if tcb[current].status == Running {
            SetStatus(current, Ready);
          }
          SetStatus(s, Running);
          current := s;
        }
      }
    }

    method NextTcb()
      requires Valid()
      modifies Repr
      ensures V() == KernelSpec.NextTcb(old(V()))
    {
      WakeUpSleepers();
      RequeueCurrent();
      SelectFront();
    }

    method SystickTick() returns (switch: bool)
      requires Valid()
      modifies Repr
      ensures (V(), switch) == Tick(old(V()))
    {
      if !schedReady {
        return false;
      }
      osTicks := WrapU32(osTicks + 1);
      var c := current;
      if tcb[c].slice > 0 {
        tcb[c] := tcb[c].(slice := tcb[c].slice - 1);
      }
      switch := tcb[c].slice == 0 || sleepingList.tids != [];
      assert V().tcb == old(V()).tcb[c := tcb[c]];
    }

    /** The systick branch of the trap dispatcher, and the switch the trap handler then makes. */
    method SystickTrap(missed: nat, deferred: bool)
      requires Valid()
      modifies Repr
      ensures V() == KernelSpec.SystickTrap(old(V()), missed, deferred)
    {
      var r := false;
      for i := 0 to missed + 1
        invariant (V(), r) == Ticks(old(V()), i)
      {
        var one := SystickTick();
        r := r || one;
      }
      if schedReady && (r || deferred) {
        NextTcb();
      }
    }

    method AllocTid() returns (r: Option<Tid>)
      requires Valid()
      modifies Repr
      ensures (V(), r) == KernelSpec.AllocTid(old(V()))
    {
      var t := 0;
      while t < TASK_MAX
        invariant 0 <= t <= TASK_MAX
        invariant V() == old(V())
        invariant FirstFree(Used(tidBitmap), t) == FirstFree(Used(tidBitmap), 0)
      {
        if !Bit(tidBitmap, t) {
          UsedAfter(tidBitmap, t);
          tidBitmap := SetBit(tidBitmap, t);
          tcb[t] := EMPTY_TCB;
          return Some(t);
        }
        t := t + 1;
      }
      return None;
    }

    method FreeTid(t: Tid)
      requires Valid()
      modifies Repr
      ensures V() == KernelSpec.FreeTid(old(V()), t)
    {
      UsedAfter(tidBitmap, t);
      tidBitmap := ClearBit(tidBitmap, t);
      SetStatus(t, Terminated);
    }

    method CreateRaw(priority: nat) returns (r: Option<Tid>)
      requires Valid()
      modifies Repr
      ensures (V(), r) == KernelSpec.CreateRaw(old(V()), priority)
    {
      r := AllocTid();
      if r.Some? {
        ghost var k1 := V();
        var t := r.value;
        tcb[t] := tcb[t].(priority := priority, slice := TIME_SLICE);
        assert V().tcb == k1.tcb[t := k1.tcb[t].(priority := priority, slice := TIME_SLICE)];
        MakeReady(t);
      }
    }

    method Create(priority: nat) returns (r: Option<Tid>)
      requires Valid()
      modifies Repr
      ensures (V(), r) == KernelSpec.Create(old(V()), priority)
    {
      r := CreateRaw(priority);
      if r.Some? && schedReady && priority < tcb[current].priority {
        NextTcb();
      }
    }

    method Launch()
      requires Valid()
      modifies Repr
      ensures V() == KernelSpec.Launch(old(V()))
    {
      var r := Create(PRI_MIN);
      if r.None? || readyList.tids == [] {
        panicked := true;
      } else {
        var first := readyList.tids[0];
        SetStatus(first, Running);
        current := first;
        schedReady := true;
      }
    }

    method ExitCurrent()
      requires Valid()
      modifies Repr
      ensures V() == KernelSpec.ExitCurrent(old(V()))
    {
      readyList.Remove(current);
      FreeTid(current);
      NextTcb();
    }

    method Block(t: Tid)
      requires Valid()
      modifies Repr
      ensures V() == KernelSpec.Block(old(V()), t)
    {
      if tcb[t].status == Ready || tcb[t].status == Running {
        SetStatus(t, Blocked);
        readyList.Remove(t);
        var _ := blockedList.PushBack(t);
        NextTcb();
      }
    }

    method Resume(t: Tid)
      requires Valid()
      modifies Repr
      ensures V() == KernelSpec.Resume(old(V()), t)
    {
      if tcb[t].status != Blocked || t !in blockedList.tids {
        return;
      }
      blockedList.Remove(t);
      MakeReady(t);
      if schedReady && tcb[t].priority < tcb[current].priority {
        NextTcb();
      }
    }

    method Terminate(t: Tid)
      requires Valid()
      modifies Repr
      ensures V() == KernelSpec.Terminate(old(V()), t)
    {
      if tcb[t].status == Terminated {
        return;
      }
      readyList.Remove(t);
      sleepingList.Remove(t);
      blockedList.Remove(t);
      FreeTid(t);
      NextTcb();
    }

    method FallAsleep(wake: nat)
      requires Valid()
      modifies Repr
      ensures V() == KernelSpec.FallAsleep(old(V()), wake)
    {
      var c := current;
      tcb[c] := tcb[c].(wake := wake);
      BlockCurrent();
      var _ := sleepingList.InsertInOrder(c, ByWake(tcb[..], c));
    }

    method Delay(ticks: nat)
      requires Valid()
      modifies Repr
      ensures V() == KernelSpec.Delay(old(V()), ticks)
    {
      if ticks == 0 {
        return;
      }
      FallAsleep(WrapU32(osTicks + ticks));
      NextTcb();
    }
  }
}
