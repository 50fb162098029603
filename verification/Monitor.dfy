/** Condition variables lose no wake-up, and `wait` gives the mutex back. */
module Monitor {
  import opened Config
  import opened Lists
  import opened Place
  import opened SyncPlace
  import opened World
  import opened Safety

  predicate Notifies(op: Op, c: nat) {
    op == NotifyOp(c) || op == NotifyAllOp(c)
  }

  /** The queue of a condition variable is first in, first out: a wait goes to the back, a notify
      takes the front, a notify-all takes everything, and no other step touches it. */
  lemma CvFifo(w: World, loc: Locs, op: Op, c: nat)
    requires Inv(w, loc) && Enabled(w, op) && c < |w.cvs|
    ensures |Next(w, op).cvs| == |w.cvs|
    ensures Next(w, op).cvs[c] ==
              if op.WaitOp? && op.c == c then w.cvs[c] + [w.k.cur]
              else if op == NotifyOp(c) && w.cvs[c] != [] then w.cvs[c][1..]
              else if op == NotifyAllOp(c) then []
              else w.cvs[c]
  {
    if op.WaitOp? && op.c == c {
      assert Holds(Queue(w, WaitCv(c)), WaitCv(c), loc);
      PushBackMembers(w.cvs[c], w.k.cur);
    }
  }

  lemma {:induction false} StaysQueued(w: World, loc: Locs, ops: seq<Op>, w': World, c: nat, t: Tid)
    requires Inv(w, loc) && Reaches(w, ops, w') && c < |w.cvs| && t in w.cvs[c]
    requires forall op | op in ops :: !Notifies(op, c)
    ensures c < |w'.cvs| && t in w'.cvs[c]
    decreases |ops|
  {
    if ops == [] {
    } else {
      assert ops[0] in ops;
      CvFifo(w, loc, ops[0], c);
      var loc1 := StepInv(w, loc, ops[0]);
      StaysQueued(Next(w, ops[0]), loc1, ops[1..], w', c, t);
    }
  }

  lemma NotifyWakes(w: World, loc: Locs, op: Op, c: nat, t: Tid)
    requires Inv(w, loc) && Enabled(w, op) && c < |w.cvs| && t in w.cvs[c]
    requires op == NotifyAllOp(c) || (op == NotifyOp(c) && w.cvs[c][0] == t)
    ensures t in Next(w, op).k.ready
  {
    var l := WaitCv(c);
    assert Holds(Queue(w, l), l, loc);
    if op.NotifyOp? {
      var loc' := NotifySettles(w.k, w.cvs[c], loc, l, w.idle);
    } else {
      var loc' := NotifyAllSettles(w.k, w.cvs[c], loc, l, w.idle);
    }
  }

  /** The step of `wait` queues and blocks the caller and gives up its level of the mutex at once,
      whether or not the unlock inside it switches. */
  lemma WaitReleasesQueued(w: World, loc: Locs, c: nat, i: nat)
    requires Inv(w, loc) && Enabled(w, WaitOp(c, i)) && w.mutexes[i].depth == 1
    ensures var w' := Next(w, WaitOp(c, i));
            && c < |w'.cvs| && w.k.cur in w'.cvs[c] && w.k.cur !in w'.k.ready
            && i < |w'.mutexes| && w'.mutexes[i].owner != Some(w.k.cur)
  {
    CvFifo(w, loc, WaitOp(c, i), c);
    var loc' := StepInv(w, loc, WaitOp(c, i));
    QueuedIsOffReady(Next(w, WaitOp(c, i)), loc', c, w.k.cur);
    OtherOwner(w, loc, c, i);
  }

  lemma QueuedIsOffReady(w: World, loc: Locs, c: nat, t: Tid)
    requires Inv(w, loc) && c < |w.cvs| && t in w.cvs[c]
    ensures t !in w.k.ready
  {
    assert Holds(Queue(w, WaitCv(c)), WaitCv(c), loc);
  }

  lemma OtherOwner(w: World, loc: Locs, c: nat, i: nat)
    requires Inv(w, loc) && Enabled(w, WaitOp(c, i)) && w.mutexes[i].depth == 1
    ensures i < |Next(w, WaitOp(c, i)).mutexes| && Next(w, WaitOp(c, i)).mutexes[i].owner != Some(w.k.cur)
  {
    var q := w.mutexes[i].queue;
    MutexStep(w, loc, WaitOp(c, i), i);
    assert Holds(Queue(w, WaitMutex(i)), WaitMutex(i), loc);
    assert q != [] ==> q[0] in q;
  }

  /** No wake-up is lost. From the step in which a task (holding the mutex once) starts to wait, the
      mutex is free for others and the task is in the queue, and stays there until the condition is
      notified; a notify-all then makes it ready, and so does a notify when it is at the front. */
  lemma NoLostWakeUp(w0: World, before: seq<Op>, w: World, c: nat, i: nat, after: seq<Op>, w': World, op: Op)
    requires Initial(w0) && Reaches(w0, before, w)
    requires Enabled(w, WaitOp(c, i)) && w.mutexes[i].depth == 1
    requires Reaches(Next(w, WaitOp(c, i)), after, w') && Enabled(w', op)
    requires forall o | o in after :: !Notifies(o, c)
    ensures i < |Next(w, WaitOp(c, i)).mutexes| && Next(w, WaitOp(c, i)).mutexes[i].owner != Some(w.k.cur)
    ensures c < |w'.cvs| && w.k.cur in w'.cvs[c]
    ensures op == NotifyAllOp(c) || (op == NotifyOp(c) && w'.cvs[c][0] == w.k.cur) ==>
              w.k.cur in Next(w', op).k.ready
  {
    var loc := ReachableInv(w0, before, w);
    WaitReleasesQueued(w, loc, c, i);
    var w1 := Next(w, WaitOp(c, i));
    var loc1 := StepInv(w, loc, WaitOp(c, i));
    StaysQueued(w1, loc1, after, w', c, w.k.cur);
    var loc' := RunInv(w1, loc1, after, w');
    if op == NotifyAllOp(c) || (op == NotifyOp(c) && w'.cvs[c][0] == w.k.cur) {
      NotifyWakes(w', loc', op, c, w.k.cur);
    }
  }

  /** Both steps by which a task comes back to its own code from `CondVar::wait` (the final `lock`
      that did not block, or its return after blocking) leave it the owner with a guard. */
  lemma WaitReturnsAsOwner(w0: World, ops: seq<Op>, w: World, op: Op)
    requires Initial(w0) && Reaches(w0, ops, w) && Enabled(w, op) && (op.WaitLockOp? || op.LockedOp?)
    ensures var (w', t, i) := (Next(w, op), w.k.cur, w.pc[w.k.cur].m);
            w'.pc[t] == Run ==> i < |w'.mutexes| == |w'.held| && w'.mutexes[i].owner == Some(t) && w'.held[i][t] > 0
  {
    var loc := ReachableInv(w0, ops, w);
    var loc' := StepInv(w, loc, op);
    assert PcOk(w, loc, w.k.cur) && MutexOk(w, loc, w.pc[w.k.cur].m);
    if Next(w, op).pc[w.k.cur] == Run {
      HolderOwns(Next(w, op), loc', w.pc[w.k.cur].m, w.k.cur);
    }
  }
}
