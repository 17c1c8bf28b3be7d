/** The scheduler itself: a task table and five rings, changed in place. Every method is proved to do
    what the value model says. */
module Schedulers {
  import opened Options
  import opened Rings
  import M = SchedulerModel

  class Scheduler {
    const taskTable: array<M.Task>
    const mlfq: seq<Ring>
    var taskCount: nat
    var currentTask: Option<nat>
    ghost const Repr: set<object>

    ghost predicate Rings()
      reads this, mlfq, set r | r in mlfq :: r.tasks
    {
      && |mlfq| == M.MLFQ_LEVELS
      && (forall l :: 0 <= l < |mlfq| ==> mlfq[l].Valid())
      && (forall l, m :: 0 <= l < m < |mlfq| ==> mlfq[l] != mlfq[m] && mlfq[l].tasks != mlfq[m].tasks)
      && Repr == {this, taskTable} + (set r | r in mlfq) + (set r | r in mlfq :: r.tasks)
    }

    ghost function State(): M.Sched
      requires Rings()
      reads this, taskTable, mlfq, set r | r in mlfq :: r.tasks
    {
      M.Sched(taskTable[..],
              seq(M.MLFQ_LEVELS, l requires 0 <= l < M.MLFQ_LEVELS && Rings() reads this, mlfq, set r | r in mlfq :: r.tasks =>
                mlfq[l].Contents()),
              taskCount, currentTask)
    }

    ghost predicate Valid()
      reads this, taskTable, mlfq, set r | r in mlfq :: r.tasks
    {
      Rings() && M.Shape(State())
    }

    /** sched_init, over the five static rings. */
    constructor (rings: seq<Ring>)
      requires |rings| == M.MLFQ_LEVELS
      requires forall l :: 0 <= l < |rings| ==> rings[l].Valid() && rings[l].Contents() == []
      requires forall l, m :: 0 <= l < m < |rings| ==> rings[l] != rings[m] && rings[l].tasks != rings[m].tasks
      ensures Valid() && mlfq == rings && State() == M.Init()
    {
      var unused := M.Task(M.Zombie, 0, 0, 0, M.WaitNone, 0, 0, 0, false);
      var idle := M.Task(M.Ready, M.MLFQ_LEVELS - 1, M.MLFQ_LEVELS - 1, 100, M.WaitNone, 0, 0, 0, false);
      var table := new M.Task[MAX_TASKS](i => if i == M.IDLE then idle else unused);
      taskTable, mlfq, taskCount, currentTask := table, rings, 1, None;
      Repr := {this, table} + (set r | r in rings) + (set r | r in rings :: r.tasks);
      new;
      assert State().queues == M.Init().queues;
      assert State().tasks == M.Init().tasks;
    }

    method EnqueueAt(l: nat, t: nat)
      requires Valid() && l < M.MLFQ_LEVELS
      modifies mlfq[l], mlfq[l].tasks
      ensures Valid() && State() == M.Enqueue(old(State()), l, t)
    {
      mlfq[l].Enqueue(t);
      assert State().queues == M.Enqueue(old(State()), l, t).queues;
    }

    method RemoveAt(l: nat, t: nat)
      requires Valid() && l < M.MLFQ_LEVELS
      modifies mlfq[l], mlfq[l].tasks
      ensures Valid() && State() == M.Remove(old(State()), l, t)
    {
      var found := mlfq[l].Remove(t);
      assert State().queues == M.Remove(old(State()), l, t).queues;
    }

    method DequeueAt(l: nat) returns (t: Option<nat>)
      requires Valid() && l < M.MLFQ_LEVELS && State().queues[l] != []
      modifies mlfq[l]
      ensures Valid()
      ensures t == Some(old(State()).queues[l][0])
      ensures State() == old(State()).(queues := old(State()).queues[l := old(State()).queues[l][1..]])
    {
      ghost var q := State().queues;
      t := mlfq[l].Dequeue();
      assert State().queues == q[l := q[l][1..]];
    }

    method SetTask(t: nat, task: M.Task)
      requires Valid() && t < MAX_TASKS && task.priority < M.MLFQ_LEVELS && task.savedPriority < M.MLFQ_LEVELS
      modifies taskTable
      ensures Valid() && State() == M.SetTask(old(State()), t, task)
    {
      taskTable[t] := task;
      assert State().queues == old(State()).queues;
    }

    method SetCurrent(c: Option<nat>)
      requires Valid() && (c.Some? ==> c.value < MAX_TASKS)
      modifies this`currentTask
      ensures Valid() && State() == old(State()).(current := c)
    {
      currentTask := c;
      assert State().queues == old(State()).queues;
    }

    method Unset(t: nat)
      requires Valid()
      modifies this`currentTask
      ensures Valid() && State() == M.Unset(old(State()), t)
    {
      if currentTask == Some(t) {
        SetCurrent(None);
      }
    }

    /** sched_next. */
    method Next() returns (r: int)
      requires Valid()
      modifies Repr
      ensures Valid() && (State(), r) == M.Next(old(State()))
    {
      ghost var s0 := State();
      for l := 0 to M.MLFQ_LEVELS
        invariant Valid() && M.NextFrom(State(), l) == M.Next(s0)
      {
        if mlfq[l].count > 0 {
          assert State().queues[l] == mlfq[l].Contents();
          var t := DequeueAt(l);
          if t.value < MAX_TASKS && taskTable[t.value].state == M.Ready {
            Dispatch(t.value);
            return t.value;
          }
        } else {
          assert State().queues[l] == mlfq[l].Contents() == [];
        }
      }
      if taskTable[M.IDLE].state == M.Ready {
        SetTask(M.IDLE, taskTable[M.IDLE].(state := M.Running));
        SetCurrent(Some(M.IDLE));
        return M.IDLE;
      }
      return -1;
    }

    method Dispatch(t: nat)
      requires Valid() && t < MAX_TASKS
      modifies this`currentTask, taskTable
      ensures Valid() && State() == M.Dispatch(old(State()), t)
    {
      var task := taskTable[t];
      SetTask(t, task.(state := M.Running, ticksLeft := if task.ticksLeft <= 0 then M.TimeSlice(task.priority) else task.ticksLeft));
      SetCurrent(Some(t));
    }

    /** sched_tick. */
    method Tick()
      requires Valid()
      modifies Repr
      ensures Valid() && State() == M.Tick(old(State()))
    {
      if currentTask == None || taskTable[currentTask.value].state != M.Running {
        return;
      }
      var c := currentTask.value;
      var task := taskTable[c].(ticksLeft := taskTable[c].ticksLeft - 1);
      if task.ticksLeft > 0 {
        SetTask(c, task);
        return;
      }
      var p := if task.priority < M.MLFQ_LEVELS - 1 then task.priority + 1 else task.priority;
      SetTask(c, task.(priority := p, state := M.Ready));
      EnqueueAt(p, c);
      SetCurrent(None);
    }

    /** sched_add. */
    method Add(template: M.Task)
      requires Valid()
      modifies Repr
      ensures Valid() && State() == M.Add(old(State()), template)
    {
      if taskCount >= MAX_TASKS {
        return;
      }
      var t := taskCount;
      SetTask(t, template.(state := M.Ready, priority := 2, savedPriority := 2, ticksLeft := M.TimeSlice(2)));
      GrowTable();
      EnqueueAt(2, t);
    }

    method GrowTable()
      requires Valid() && taskCount < MAX_TASKS
      modifies this`taskCount
      ensures Valid() && State() == old(State()).(taskCount := old(taskCount) + 1)
    {
      taskCount := taskCount + 1;
      assert State().queues == old(State()).queues;
    }

    /** sched_spawn_process; `kstack` says whether the kernel stack could be allocated. */
    method Spawn(kstack: bool) returns (r: Option<nat>)
      requires Valid()
      modifies Repr
      ensures Valid() && (State(), r) == M.Spawn(old(State()), kstack)
    {
      ghost var s0 := State();
      var t := 0;
      while t < taskCount && taskTable[t].state != M.Reaped
        invariant t <= taskCount && M.SpawnSlot(s0, t) == M.SpawnSlot(s0, 0)
      {
        t := t + 1;
      }
      if t == MAX_TASKS {
        return None;
      }
      var grow := t == taskCount;
      SetTask(t, M.FreshTask(t));
      if !kstack {
        return None;
      }
      if grow {
        GrowTable();
      }
      EnqueueAt(2, t);
      return Some(t);
    }

    /** sched_block. */
    method Block(t: nat)
      requires Valid() && t < MAX_TASKS
      modifies Repr
      ensures Valid() && State() == M.Block(old(State()), t)
    {
      if t >= taskCount {
        return;
      }
      SetTask(t, taskTable[t].(state := M.Blocked));
      RemoveAt(taskTable[t].priority, t);
      Unset(t);
    }

    /** sched_wake. */
    method Wake(t: nat)
      requires Valid() && t < MAX_TASKS
      modifies Repr
      ensures Valid() && State() == M.Wake(old(State()), t)
    {
      if t >= taskCount || taskTable[t].state != M.Blocked {
        return;
      }
      var p := taskTable[t].savedPriority;
      SetTask(t, taskTable[t].(state := M.Ready, priority := p, ticksLeft := M.TimeSlice(p)));
      EnqueueAt(p, t);
    }

    /** sched_block_and_switch, up to the switch. */
    method BlockOn(kind: M.WaitKind, arg: nat)
      requires Valid()
      modifies Repr
      ensures Valid() && State() == M.BlockOn(old(State()), kind, arg)
    {
      if currentTask == None {
        return;
      }
      var t := currentTask.value;
      SetTask(t, taskTable[t].(state := M.Blocked, waitKind := kind, waitArg := arg));
      RemoveAt(taskTable[t].priority, t);
    }

    /** sched_wake_cond. */
    method WakeCond(kind: M.WaitKind, arg: nat)
      requires Valid()
      modifies Repr
      ensures Valid() && State() == M.WakeCond(old(State()), kind, arg)
    {
      ghost var s0 := State();
      for i := 0 to taskCount
        invariant Valid() && taskCount == s0.taskCount
        invariant State() == M.WakeCondBelow(s0, kind, arg, i)
      {
        if taskTable[i].state == M.Blocked && taskTable[i].waitKind == kind && taskTable[i].waitArg == arg {
          Wake(i);
        }
      }
    }

    /** sched_wake_select_all. */
    method WakeSelect()
      requires Valid()
      modifies Repr
      ensures Valid() && State() == M.WakeSelect(old(State()))
    {
      ghost var s0 := State();
      for i := 0 to taskCount
        invariant Valid() && taskCount == s0.taskCount
        invariant State() == M.WakeSelectBelow(s0, i)
      {
        if taskTable[i].state == M.Blocked && taskTable[i].waitKind == M.WaitSelect {
          Wake(i);
        }
      }
    }

    /** sched_boost. */
    method Boost(t: nat)
      requires Valid() && t < MAX_TASKS
      modifies Repr
      ensures Valid() && State() == M.Boost(old(State()), t)
    {
      if t >= taskCount {
        return;
      }
      var task := taskTable[t];
      SetTask(t, task.(savedPriority := task.priority, priority := 0, ticksLeft := M.TimeSlice(0), state := M.Ready));
      RemoveAt(task.priority, t);
      EnqueueAt(0, t);
    }

    /** sched_kill. */
    method Kill(t: nat)
      requires Valid()
      modifies Repr
      ensures Valid() && State() == M.Kill(old(State()), t)
    {
      if t >= taskCount || taskTable[t].state == M.Zombie {
        return;
      }
      SetTask(t, taskTable[t].(state := M.Zombie));
      RemoveAt(taskTable[t].priority, t);
      Unset(t);
    }

    /** sched_mark_exited. */
    method Exit(t: nat, code: int)
      requires Valid() && t < MAX_TASKS
      modifies Repr
      ensures Valid() && State() == M.Exit(old(State()), t, code)
    {
      ghost var s0 := State();
      for l := 0 to M.MLFQ_LEVELS
        invariant Valid() && State().(queues := s0.queues) == s0
        invariant forall m :: 0 <= m < l ==> State().queues[m] == RemoveFirst(s0.queues[m], t)
        invariant forall m :: l <= m < M.MLFQ_LEVELS ==> State().queues[m] == s0.queues[m]
      {
        RemoveAt(l, t);
      }
      assert State().queues == M.RemoveEverywhere(s0, t).queues;
      SetTask(t, taskTable[t].(state := M.Zombie, exitCode := code));
    }

    /** The reaping step of wait4 and sched_force_reap. */
    method Reap(t: nat)
      requires Valid() && t < MAX_TASKS
      modifies Repr
      ensures Valid() && State() == M.Reap(old(State()), t)
    {
      if taskTable[t].state == M.Zombie {
        SetTask(t, taskTable[t].(state := M.Reaped));
      }
    }

    /** sched_requeue. */
    method Requeue(t: nat)
      requires Valid() && t < MAX_TASKS
      modifies Repr
      ensures Valid() && State() == M.Requeue(old(State()), t)
    {
      if taskTable[t].state != M.Running {
        return;
      }
      SetTask(t, M.ReadyTask(taskTable[t]));
      EnqueueAt(taskTable[t].priority, t);
      Unset(t);
    }
  }
}
