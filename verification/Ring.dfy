/** One level of the multi-level feedback queue: a ring of 64 slots that refines a FIFO sequence with
    deletion from the middle. */
module Rings {
  import opened Options

  const MAX_TASKS := 64

  /** `s` without its first occurrence of `t`. */
  function RemoveFirst(s: seq<nat>, t: nat): (r: seq<nat>)
    ensures t !in s ==> r == s
    ensures t in s ==> |r| == |s| - 1
  {
    if s == [] then [] else if s[0] == t then s[1..] else [s[0]] + RemoveFirst(s[1..], t)
  }

  lemma {:induction false} RemoveAt(s: seq<nat>, t: nat, i: nat)
    requires i < |s| && s[i] == t && t !in s[..i]
    ensures RemoveFirst(s, t) == s[..i] + s[i + 1..]
  {
    if i > 0 {
      var rest := s[1..];
      assert s[0] == s[..i][0];
      assert rest[..i - 1] == s[..i][1..];
      RemoveAt(rest, t, i - 1);
      assert RemoveFirst(s, t) == [s[0]] + RemoveFirst(rest, t);
      assert rest[..i - 1] + rest[i..] == s[1..i] + s[i + 1..];
      assert [s[0]] + s[1..i] == s[..i];
    }
  }

  /** `s` while the elements behind place `i` are being moved up, with `j` the next place to fill. */
  ghost function Shifted(s: seq<nat>, i: nat, j: nat): (r: seq<nat>)
    requires i <= j < |s|
    ensures |r| == |s| && r[j..] == s[j..]
  {
    s[..i] + s[i + 1..j + 1] + s[j..]
  }

  lemma ShiftStep(s: seq<nat>, i: nat, j: nat)
    requires i <= j < |s| - 1
    ensures Shifted(s, i, j)[j + 1] == s[j + 1]
    ensures Shifted(s, i, j)[j := s[j + 1]] == Shifted(s, i, j + 1)
  {
    assert Shifted(s, i, j)[j..][1] == s[j..][1];
  }

  lemma ShiftDone(s: seq<nat>, i: nat)
    requires i < |s|
    ensures Shifted(s, i, i) == s
    ensures Shifted(s, i, |s| - 1) == s[..i] + s[i + 1..] + [s[|s| - 1]]
  {
  }

  /** The array index of the element `k` places behind the head. */
  function Slot(head: nat, k: nat): (r: nat)
    requires head < MAX_TASKS && k <= MAX_TASKS
    ensures r == if head + k < MAX_TASKS then head + k else head + k - MAX_TASKS
  {
    (head + k) % MAX_TASKS
  }

  lemma SlotsDiffer(head: nat, j: nat, k: nat)
    requires head < MAX_TASKS && j < k < MAX_TASKS
    ensures Slot(head, j) != Slot(head, k)
  {
  }

  class Ring {
    const tasks: array<nat>
    var head: nat
    var tail: nat
    var count: nat

    ghost predicate Valid()
      reads this, tasks
    {
      && tasks.Length == MAX_TASKS
      && head < MAX_TASKS && count <= MAX_TASKS
      && tail == Slot(head, count)
    }

    /** The queue that the ring stands for. */
    ghost function Contents(): (s: seq<nat>)
      requires Valid()
      reads this, tasks
      ensures |s| == count
    {
      seq(count, i requires 0 <= i < count && Valid() reads this, tasks => tasks[Slot(head, i)])
    }

    constructor ()
      ensures Valid() && Contents() == [] && fresh(tasks)
    {
      tasks := new nat[MAX_TASKS](_ => 0);
      head, tail, count := 0, 0, 0;
    }

    /** mlfq_enqueue: a full ring silently drops the task. */
    method Enqueue(t: nat)
      requires Valid()
      modifies this, tasks
      ensures Valid()
      ensures Contents() == if |old(Contents())| < MAX_TASKS then old(Contents()) + [t] else old(Contents())
    {
      if count >= MAX_TASKS {
        return;
      }
      tasks[tail] := t;
      tail := (tail + 1) % MAX_TASKS;
      count := count + 1;
    }

    /** mlfq_dequeue. */
    method Dequeue() returns (t: Option<nat>)
      requires Valid()
      modifies this
      ensures Valid()
      ensures old(Contents()) == [] ==> t == None && Contents() == []
      ensures old(Contents()) != [] ==> t == Some(old(Contents())[0]) && Contents() == old(Contents())[1..]
    {
      if count == 0 {
        return None;
      }
      t := Some(tasks[head]);
      head := (head + 1) % MAX_TASKS;
      count := count - 1;
    }

    /** mlfq_remove: the first occurrence goes, and the elements behind it move up one slot. */
    method Remove(t: nat) returns (found: bool)
      requires Valid()
      modifies this, tasks
      ensures Valid()
      ensures Contents() == RemoveFirst(old(Contents()), t)
      ensures found <==> t in old(Contents())
    {
      ghost var s := Contents();
      var i := 0;
      while i < count
        invariant 0 <= i <= count && Valid() && Contents() == s
        invariant t !in s[..i]
      {
        var x := At(i);
        if x == t {
          RemoveAt(s, t, i);
          ShiftDown(i);
          DropLast();
          assert Contents() == s[..i] + s[i + 1..];
          return true;
        }
        assert s[..i + 1] == s[..i] + [s[i]];
        i := i + 1;
      }
      assert s[..i] == s;
      return false;
    }

    method At(i: nat) returns (x: nat)
      requires Valid() && i < count
      ensures x == Contents()[i]
    {
      x := tasks[Slot(head, i)];
    }

    method DropLast()
      requires Valid() && count > 0
      modifies this
      ensures Valid() && Contents() == old(Contents())[..|old(Contents())| - 1]
    {
      tail := (tail + MAX_TASKS - 1) % MAX_TASKS;
      count := count - 1;
    }

    method SetAt(i: nat, x: nat)
      requires Valid() && i < count
      modifies tasks
      ensures Valid() && Contents() == old(Contents())[i := x]
    {
      ghost var s := Contents();
      tasks[Slot(head, i)] := x;
      forall k | 0 <= k < count ensures Contents()[k] == s[i := x][k] {
        if k < i { SlotsDiffer(head, k, i); } else if i < k { SlotsDiffer(head, i, k); }
      }
    }

    /** Moves the elements behind place `i` up one slot; the last place keeps its old value. */
    method ShiftDown(i: nat)
      requires Valid() && i < count
      modifies tasks
      ensures Valid()
      ensures var s := old(Contents()); Contents() == s[..i] + s[i + 1..] + [s[|s| - 1]]
    {
      hide Shifted, Slot;
      ghost var s := Contents();
      ShiftDone(s, i);
      for j := i to count - 1
        invariant Valid()
        invariant Contents() == Shifted(s, i, j)
      {
        ShiftStep(s, i, j);
        var x := At(j + 1);
        SetAt(j, x);
      }
    }
  }
}
