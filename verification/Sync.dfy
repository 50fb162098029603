/** The classes of core/src/kernel/sync.rs, proved against `SyncSpec`. */
module SyncImpl {
  import opened Config
  import opened KernelSpec
  import opened KernelImpl
  import opened TaskLists
  import opened SyncSpec

  class Sema {
    var count: int
    const waitQueue: TaskList

    ghost function V(): SemaS
      reads this, waitQueue
    {
      SemaS(count, waitQueue.tids)
    }

    constructor (initial: int)
      ensures V() == SemaS(initial, []) && fresh(waitQueue)
    {
      count := initial;
      waitQueue := new TaskList();
    }

    method Down(k: Kernel)
      requires k.Valid() && waitQueue !in k.Repr
      modifies this, waitQueue, k.Repr
      ensures (k.V(), V()) == SyncSpec.Down(old(k.V()), old(V()))
    {
      count := WrapI32(count - 1);
      if count < 0 {
        assert k.V() == old(k.V());
        Enqueue(k);
        ghost var q := waitQueue.tids;
        k.NextTcb();
        assert waitQueue.tids == q;
      }
    }

    /** The current task is blocked and queued. */
    method Enqueue(k: Kernel)
      requires k.Valid() && waitQueue !in k.Repr
      modifies waitQueue, k.Repr
      ensures k.V() == BlockCurrent(old(k.V()))
      ensures waitQueue.tids == KernelSpec.Enqueue(k.V().tcb, old(waitQueue.tids), old(k.current))
    {
      var c := k.current;
      k.BlockCurrent();
      ghost var k1 := k.V();
      var _ := waitQueue.InsertInOrder(c, ByPriority(k.tcb[..], c));
      assert k.V() == k1;
    }

    method UpFromIsr(k: Kernel)
      requires k.Valid() && waitQueue !in k.Repr
      modifies this, waitQueue, k.Repr
      ensures (k.V(), V()) == SyncSpec.UpFromIsr(old(k.V()), old(V()))
    {
      count := WrapI32(count + 1);
      if count <= 0 {
        var woken := waitQueue.PopFront();
        if woken.Some? {
          k.MakeReady(woken.value);
        }
      }
    }

    method Up(k: Kernel)
      requires k.Valid() && waitQueue !in k.Repr
      modifies this, waitQueue, k.Repr
      ensures (k.V(), V()) == SyncSpec.Up(old(k.V()), old(V()))
    {
      count := WrapI32(count + 1);
      if count <= 0 {
        var woken := waitQueue.PopFront();
        if woken.Some? {
          k.MakeReady(woken.value);
          if k.schedReady && k.tcb[woken.value].priority < k.tcb[k.current].priority {
            k.NextTcb();
          }
        }
      }
    }

    method TryDown() returns (ok: bool)
      modifies this
      ensures (V(), ok) == SyncSpec.TryDown(old(V()))
    {
      ok := count > 0;
      if ok {
        count := count - 1;
      }
    }
  }

  class Mutex {
    var owner: Option<Tid>
    var recursiveCount: nat
    const waitQueue: TaskList

    ghost function V(): MutexS
      reads this, waitQueue
    {
      MutexS(owner, recursiveCount, waitQueue.tids)
    }

    constructor ()
      ensures V() == MutexS(None, 0, []) && fresh(waitQueue)
    {
      owner, recursiveCount := None, 0;
      waitQueue := new TaskList();
    }

    method Lock(k: Kernel)
      requires k.Valid() && waitQueue !in k.Repr
      modifies this, waitQueue, k.Repr
      ensures (k.V(), V()) == SyncSpec.Lock(old(k.V()), old(V()))
    {
      var c := k.current;
      if owner == Some(c) {
        recursiveCount := WrapU32(recursiveCount + 1);
        return;
      }
      if owner.Some? {
        BoostOwner(k, owner.value);
        k.BlockCurrent();
        var _ := waitQueue.InsertInOrder(c, ByPriority(k.tcb[..], c));
        k.NextTcb();
      } else {
        owner := Some(c);
        recursiveCount := 1;
      }
    }

    static method BoostOwner(k: Kernel, o: Tid)
      requires k.Valid()
      modifies k.Repr
      ensures k.V() == Boost(old(k.V()), o)
    {
      var p := k.tcb[k.current].priority;
      if p < k.tcb[o].priority {
        var sub := if k.tcb[o].sub == PRI_INV then k.tcb[o].priority else k.tcb[o].sub;
        k.tcb[o] := k.tcb[o].(sub := sub, priority := p);
        if k.tcb[o].status == Ready {
          k.readyList.Remove(o);
          k.InsertReady(o);
        }
      }
    }

    method Unlock(k: Kernel) returns (switched: bool)
      requires k.Valid() && waitQueue !in k.Repr
      modifies this, waitQueue, k.Repr
      ensures (k.V(), V(), switched) == SyncSpec.Unlock(old(k.V()), old(V()))
    {
      recursiveCount := WrapU32(recursiveCount - 1);
      if recursiveCount > 0 {
        return false;
      }
      assert k.V() == old(k.V()) && V() == old(V()).(depth := 0);
      switched := UnlockOutermost(k);
    }

    method UnlockOutermost(k: Kernel) returns (switched: bool)
      requires k.Valid() && waitQueue !in k.Repr && recursiveCount == 0
      modifies this, waitQueue, k.Repr
      ensures var (k1, m1, y) := Release(old(k.V()), old(V()));
              switched == y && V() == m1 && k.V() == if y then NextTcb(k1) else k1
    {
      switched := ReleaseOwner(k);
      if switched {
        ghost var m1 := V();
        k.NextTcb();
        assert V() == m1;
      }
    }

    method ReleaseOwner(k: Kernel) returns (preempted: bool)
      requires k.Valid() && waitQueue !in k.Repr
      requires recursiveCount == 0
      modifies this, waitQueue, k.Repr
      ensures (k.V(), V(), preempted) == Release(old(k.V()), old(V()))
    {
      var c := k.current;
      if k.tcb[c].sub != PRI_INV {
        k.tcb[c] := k.tcb[c].(priority := k.tcb[c].sub, sub := PRI_INV);
      }
      assert k.V() == Restore(old(k.V()));
      owner := None;
      var woken := waitQueue.PopFront();
      if woken.Some? {
        var w := woken.value;
        owner := Some(w);
        recursiveCount := 1;
        k.MakeReady(w);
        preempted := k.tcb[w].priority < k.tcb[c].priority;
      } else {
        preempted := k.readyList.tids != [] && k.tcb[k.readyList.tids[0]].priority < k.tcb[c].priority;
      }
    }
  }

  class CondVar {
    const waitQueue: TaskList

    constructor ()
      ensures fresh(waitQueue) && waitQueue.tids == []
    {
      waitQueue := new TaskList();
    }

    /** `wait` up to its first switch; `switched` says it happened inside the unlock. */
    method Wait(k: Kernel, m: Mutex) returns (switched: bool)
      requires k.Valid() && waitQueue !in k.Repr && m.waitQueue !in k.Repr && waitQueue != m.waitQueue
      modifies waitQueue, m, m.waitQueue, k.Repr
      ensures (k.V(), waitQueue.tids, m.V(), switched)
              == SyncSpec.CvWait(old(k.V()), old(waitQueue.tids), old(m.V()))
    {
      var _ := waitQueue.PushBack(k.current);
      k.BlockCurrent();
      switched := m.Unlock(k);
      if !switched {
        k.NextTcb();
      }
    }

    method Notify(k: Kernel)
      requires k.Valid() && waitQueue !in k.Repr
      modifies waitQueue, k.Repr
      ensures (k.V(), waitQueue.tids) == SyncSpec.Notify(old(k.V()), old(waitQueue.tids))
    {
      var woken := waitQueue.PopFront();
      if woken.Some? {
        k.MakeReady(woken.value);
        k.NextTcb();
      }
    }

    method NotifyAll(k: Kernel)
      requires k.Valid() && waitQueue !in k.Repr
      modifies waitQueue, k.Repr
      ensures k.V() == SyncSpec.NotifyAll(old(k.V()), old(waitQueue.tids))
      ensures waitQueue.tids == []
    {
      var woken := false;
      while waitQueue.tids != []
        invariant MakeAllReady(k.V(), waitQueue.tids) == MakeAllReady(old(k.V()), old(waitQueue.tids))
        invariant woken == (waitQueue.tids != old(waitQueue.tids))
        invariant |waitQueue.tids| <= |old(waitQueue.tids)|
        invariant !woken ==> k.V() == old(k.V())
        decreases |waitQueue.tids|
      {
        var t := waitQueue.PopFront();
        k.MakeReady(t.value);
        woken := true;
      }
      if woken {
        k.NextTcb();
      }
    }
  }
}
