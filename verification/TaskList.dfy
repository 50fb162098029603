/** The bounded task list of core/src/kernel/list.rs: first its effect on sequences,
    then the class whose methods have that effect. */
module Lists {
  import opened Config

  /** The position search of `insert_in_order`: the first element the new one goes before. */
  function Pos(xs: seq<Tid>, before: Tid -> bool): (p: nat)
    ensures p <= |xs|
    ensures forall i | 0 <= i < p :: !before(xs[i])
    ensures p < |xs| ==> before(xs[p])
  {
    if xs == [] then 0 else if before(xs[0]) then 0 else 1 + Pos(xs[1..], before)
  }

  /** `insert_in_order`; a full list is left as it was. */
  function Insert(xs: seq<Tid>, t: Tid, before: Tid -> bool): seq<Tid> {
    if |xs| >= TASK_MAX then xs
    else
      var p := Pos(xs, before);
      xs[..p] + [t] + xs[p..]
  }

  /** `push_back`; a full list is left as it was. */
  function PushBack(xs: seq<Tid>, t: Tid): seq<Tid> {
    if |xs| >= TASK_MAX then xs else xs + [t]
  }

  /** `remove`: takes out the first occurrence, if there is one. */
  function Remove(xs: seq<Tid>, t: Tid): (r: seq<Tid>)
    ensures |r| == if t in xs then |xs| - 1 else |xs|
  {
    if xs == [] then [] else if xs[0] == t then xs[1..] else [xs[0]] + Remove(xs[1..], t)
  }

  ghost predicate NoDup(xs: seq<Tid>) {
    forall i, j | 0 <= i < j < |xs| :: xs[i] != xs[j]
  }

  lemma {:induction false} RemoveAt(xs: seq<Tid>, i: nat)
    requires i < |xs| && xs[i] !in xs[..i]
    ensures Remove(xs, xs[i]) == xs[..i] + xs[i + 1..]
  {
    if i == 0 {
    } else {
      assert xs[0] in xs[..i];
      assert xs[1..][..i - 1] == xs[..i][1..];
      RemoveAt(xs[1..], i - 1);
    }
  }

  lemma {:induction false} RemoveAbsent(xs: seq<Tid>, t: Tid)
    requires t !in xs
    ensures Remove(xs, t) == xs
  {
    if xs == [] {
    } else {
      RemoveAbsent(xs[1..], t);
    }
  }

  /** What `remove` keeps of a list without duplicates. */
  lemma RemoveMembers(xs: seq<Tid>, t: Tid)
    requires NoDup(xs)
    ensures NoDup(Remove(xs, t))
    ensures forall x: Tid :: x in Remove(xs, t) <==> x in xs && x != t
  {
    if t in xs {
      var i :| 0 <= i < |xs| && xs[i] == t;
      RemoveAt(xs, i);
    } else {
      RemoveAbsent(xs, t);
    }
  }

  /** Sixteen identifiers exist, so a list that misses one of them has room. */
  lemma Room(xs: seq<Tid>, t: Tid)
    requires NoDup(xs) && t !in xs
    ensures |xs| < TASK_MAX
  {
    Pigeonhole(xs + [t], TASK_MAX);
  }

  lemma {:induction false} Pigeonhole(xs: seq<Tid>, n: nat)
    requires NoDup(xs) && forall i | 0 <= i < |xs| :: xs[i] < n
    ensures |xs| <= n
  {
    if i :| 0 <= i < |xs| && xs[i] == n - 1 {
      Pigeonhole(xs[..i] + xs[i + 1..], n - 1);
    } else if xs != [] {
      assert xs[0] < n;
      Pigeonhole(xs, n - 1);
    }
  }

  /** Insertion adds exactly the new member. */
  lemma InsertMembers(xs: seq<Tid>, t: Tid, before: Tid -> bool)
    requires NoDup(xs) && t !in xs
    ensures |Insert(xs, t, before)| == |xs| + 1
    ensures NoDup(Insert(xs, t, before))
    ensures forall x: Tid :: x in Insert(xs, t, before) <==> x in xs || x == t
  {
    Room(xs, t);
  }

  lemma PushBackMembers(xs: seq<Tid>, t: Tid)
    requires NoDup(xs) && t !in xs
    ensures PushBack(xs, t) == xs + [t]
    ensures NoDup(PushBack(xs, t))
    ensures forall x: Tid :: x in PushBack(xs, t) <==> x in xs || x == t
  {
    Room(xs, t);
  }

  lemma {:induction false} PosUnique(xs: seq<Tid>, before: Tid -> bool, p: nat)
    requires p <= |xs|
    requires forall i | 0 <= i < p :: !before(xs[i])
    requires p < |xs| ==> before(xs[p])
    ensures Pos(xs, before) == p
  {
  }
}

/** The class `TaskList`, proved against the sequence functions of `Lists`. */
module TaskLists {
  import opened Config
  import Lists

  class TaskList {
    var tids: seq<Tid>

    constructor ()
      ensures tids == []
    {
      tids := [];
    }

    method InsertInOrder(tid: Tid, isBefore: Tid -> bool) returns (ok: bool)
      modifies this
      ensures ok == (|old(tids)| < TASK_MAX)
      ensures tids == Lists.Insert(old(tids), tid, isBefore)
    {
      if |tids| >= TASK_MAX {
        return false;
      }
      var insertPos := |tids|;
      var i := 0;
      while i < |tids|
        invariant 0 <= i <= insertPos == |tids|
        invariant tids == old(tids)
        invariant forall j | 0 <= j < i :: !isBefore(tids[j])
      {
        if isBefore(tids[i]) {
          insertPos := i;
          break;
        }
        i := i + 1;
      }
      Lists.PosUnique(tids, isBefore, insertPos);
      tids := tids[..insertPos] + [tid] + tids[insertPos..];
      ok := true;
    }

    method PushBack(tid: Tid) returns (ok: bool)
      modifies this
      ensures ok == (|old(tids)| < TASK_MAX)
      ensures tids == Lists.PushBack(old(tids), tid)
    {
      ok := |tids| < TASK_MAX;
      if ok {
        tids := tids + [tid];
      }
    }

    method Remove(tid: Tid)
      modifies this
      ensures tids == Lists.Remove(old(tids), tid)
    {
      var i := 0;
      while i < |tids|
        invariant 0 <= i <= |tids|
        invariant tids == old(tids)
        invariant tid !in tids[..i]
      {
        if tids[i] == tid {
          Lists.RemoveAt(tids, i);
          tids := tids[..i] + tids[i + 1..];
          return;
        }
        i := i + 1;
      }
      Lists.RemoveAbsent(tids, tid);
    }

    method PopFront() returns (front: Option<Tid>)
      modifies this
      ensures old(tids) == [] ==> front == None && tids == []
      ensures old(tids) != [] ==> front == Some(old(tids)[0]) && tids == old(tids)[1..]
    {
      if tids == [] {
        front := None;
      } else {
        front := Some(tids[0]);
        tids := tids[1..];
      }
    }
  }
}
