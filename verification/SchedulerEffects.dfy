/** What each scheduler call does to the task it is about, told by its state, its place in the queues and the
    processor, and that it does nothing to anybody else. */
module SchedulerEffects {
  import opened Options
  import opened Rings
  import opened SchedulerModel
  import opened SchedulerInvariant

  /** The queue as everybody but `t` sees it. */
  function Without(q: seq<nat>, t: nat): seq<nat> {
    if q == [] then [] else (if q[0] == t then [] else [q[0]]) + Without(q[1..], t)
  }

  /** Nobody but `t` has changed, or has another place in a queue. */
  ghost predicate OnlyTouches(s: Sched, s': Sched, t: nat)
    requires Shape(s) && Shape(s')
  {
    && s'.taskCount == s.taskCount && (forall u :: 0 <= u < MAX_TASKS && u != t ==> s'.tasks[u] == s.tasks[u])
    && forall l :: 0 <= l < MLFQ_LEVELS ==> Without(s'.queues[l], t) == Without(s.queues[l], t)
  }

  /** `t` waits for the processor, behind all others of its priority. */
  ghost predicate WaitsLast(s: Sched, t: nat)
    requires Shape(s) && t < MAX_TASKS
  {
    var q := s.queues[s.tasks[t].priority];
    s.tasks[t].state == Ready && q != [] && q[|q| - 1] == t && t !in q[..|q| - 1]
  }

  // ---------------------------------------------------------------------------------------------
  // Queues without one task
  // ---------------------------------------------------------------------------------------------

  lemma {:induction false} WithoutAppended(q: seq<nat>, t: nat)
    ensures Without(q + [t], t) == Without(q, t)
  {
    if q == [] {
      assert q + [t] == [t];
    } else {
      WithoutAppended(q[1..], t);
      assert (q + [t])[1..] == q[1..] + [t];
    }
  }

  lemma {:induction false} WithoutRemoved(q: seq<nat>, t: nat)
    ensures Without(RemoveFirst(q, t), t) == Without(q, t)
  {
    if q != [] && q[0] != t {
      WithoutRemoved(q[1..], t);
      assert RemoveFirst(q, t)[1..] == RemoveFirst(q[1..], t);
    }
  }

  /** Taking a task out of a queue, and putting it at the end of one, is seen by nobody else. */
  lemma RemoveTouches(s: Sched, l: nat, t: nat)
    requires Shape(s) && l < MLFQ_LEVELS
    ensures Shape(Remove(s, l, t)) && OnlyTouches(s, Remove(s, l, t), t)
  {
    hide Without, RemoveFirst;
    WithoutRemoved(s.queues[l], t);
  }

  lemma EnqueueTouches(s: Sched, l: nat, t: nat)
    requires Shape(s) && l < MLFQ_LEVELS
    ensures Shape(Enqueue(s, l, t)) && OnlyTouches(s, Enqueue(s, l, t), t)
  {
    hide Without;
    WithoutAppended(s.queues[l], t);
  }

  lemma SetTouches(s: Sched, t: nat, task: Task, c: Option<nat>)
    requires Shape(s) && t < MAX_TASKS && task.priority < MLFQ_LEVELS && task.savedPriority < MLFQ_LEVELS && (c.Some? ==> c.value < MAX_TASKS)
    ensures var s' := SetTask(s, t, task).(current := c); Shape(s') && OnlyTouches(s, s', t)
  {
    hide Without;
  }

  lemma TouchesTwice(s: Sched, s1: Sched, s2: Sched, t: nat)
    requires Shape(s) && Shape(s1) && Shape(s2) && OnlyTouches(s, s1, t) && OnlyTouches(s1, s2, t)
    ensures OnlyTouches(s, s2, t)
  {
    hide Without;
  }

  /** A READY task that no queue holds goes to the end of the queue of its priority. */
  lemma EnqueuedLast(s: Sched, t: nat)
    requires Inv(s) && t < s.taskCount && !Queued(s, t) && s.tasks[t].state == Ready
    ensures var s' := Enqueue(s, s.tasks[t].priority, t);
            Shape(s') && OnlyTouches(s, s', t) && WaitsLast(s', t) && s'.tasks == s.tasks && s'.current == s.current
  {
    hide Without;
    EnqueueReady(s, t);
    EnqueueTouches(s, s.tasks[t].priority, t);
    var q := s.queues[s.tasks[t].priority];
    assert (q + [t])[..|q|] == q;
  }

  // ---------------------------------------------------------------------------------------------
  // Blocking and waking
  // ---------------------------------------------------------------------------------------------

  /** The task is off the processor's way: not READY and in no queue. */
  ghost predicate OutOfQueues(s: Sched, t: nat)
    requires Shape(s) && t < MAX_TASKS
  {
    s.tasks[t].state != Ready && !Queued(s, t)
  }

  lemma RemovedFromQueues(s: Sched, t: nat, task: Task)
    requires Inv(s) && t < MAX_TASKS && task.priority < MLFQ_LEVELS && task.savedPriority < MLFQ_LEVELS
    ensures var s' := Remove(SetTask(s, t, task), s.tasks[t].priority, t);
            Shape(s') && OnlyTouches(s, s', t) && !Queued(s', t) && s'.tasks[t] == task && s'.current == s.current
  {
    hide Without;
    RemoveSetInv(s, t, task);
    SetTouches(s, t, task, s.current);
    assert SetTask(s, t, task) == SetTask(s, t, task).(current := s.current);
    RemoveTouches(SetTask(s, t, task), s.tasks[t].priority, t);
    TouchesTwice(s, SetTask(s, t, task), Remove(SetTask(s, t, task), s.tasks[t].priority, t), t);
  }

  /** sched_block: the task is Blocked, waits nowhere and has not got the processor. */
  lemma BlockEffect(s: Sched, t: nat)
    requires Inv(s) && t < s.taskCount
    ensures var s' := Block(s, t);
            && Shape(s') && OnlyTouches(s, s', t) && s'.tasks[t] == s.tasks[t].(state := Blocked) && OutOfQueues(s', t)
            && s'.current != Some(t) && (s.current != Some(t) ==> s'.current == s.current)
  {
    hide Without, Remove;
    RemovedFromQueues(s, t, s.tasks[t].(state := Blocked));
    TouchesSame(Remove(SetTask(s, t, s.tasks[t].(state := Blocked)), s.tasks[t].priority, t), Block(s, t), s, t);
  }

  /** A change of the current task is not seen in tasks or queues. */
  lemma TouchesSame(s1: Sched, s2: Sched, s: Sched, t: nat)
    requires Shape(s) && Shape(s1) && OnlyTouches(s, s1, t) && s2 == s1.(current := s2.current)
    requires s2.current.Some? ==> s2.current.value < MAX_TASKS
    ensures Shape(s2) && OnlyTouches(s, s2, t) && forall u: nat :: Queued(s2, u) == Queued(s1, u)
  {
    hide Without;
  }

  /** sched_block_and_switch: the current task is Blocked on the condition and waits nowhere. */
  lemma BlockOnEffect(s: Sched, kind: WaitKind, arg: nat)
    requires Inv(s) && s.current.Some?
    ensures var s', t := BlockOn(s, kind, arg), s.current.value;
            && Shape(s') && OnlyTouches(s, s', t) && OutOfQueues(s', t) && s'.current == s.current
            && s'.tasks[t] == s.tasks[t].(state := Blocked, waitKind := kind, waitArg := arg)
  {
    hide Without, Remove;
    var t := s.current.value;
    RemovedFromQueues(s, t, s.tasks[t].(state := Blocked, waitKind := kind, waitArg := arg));
  }

  /** `t` has been woken: READY at its saved priority with a full time slice, behind all others there. */
  ghost predicate WokenUp(s: Sched, s': Sched, t: nat)
    requires Shape(s) && Shape(s') && t < MAX_TASKS
  {
    var p := s.tasks[t].savedPriority;
    s'.tasks[t] == s.tasks[t].(state := Ready, priority := p, ticksLeft := (5 - p) * 10) && t in s'.queues[p]
  }

  lemma WakeEffect(s: Sched, t: nat)
    requires Inv(s) && t < s.taskCount
    ensures var s' := Wake(s, t);
            && Shape(s') && OnlyTouches(s, s', t) && s'.current == s.current
            && if s.tasks[t].state == Blocked then WokenUp(s, s', t) && WaitsLast(s', t) else s' == s
  {
    hide Without, Enqueue;
    if s.tasks[t].state == Blocked {
      var p := s.tasks[t].savedPriority;
      var task := s.tasks[t].(state := Ready, priority := p, ticksLeft := TimeSlice(p));
      NotReadyNotQueued(s, t);
      SetUnqueued(s, t, task);
      SetTouches(s, t, task, s.current);
      assert SetTask(s, t, task) == SetTask(s, t, task).(current := s.current);
      EnqueuedLast(SetTask(s, t, task), t);
      TouchesTwice(s, SetTask(s, t, task), Wake(s, t), t);
    }
  }

  /** Blocking and waking a task costs it its place and nothing else; a boost in between is forgotten. */
  lemma BlockThenWake(s: Sched, t: nat)
    requires Inv(s) && t < s.taskCount
    ensures Inv(Block(s, t))
    ensures var s' := Wake(Block(s, t), t);
            Shape(s') && OnlyTouches(s, s', t) && WokenUp(s, s', t) && WaitsLast(s', t)
  {
    hide Without, Block, Wake;
    BlockInv(s, t);
    BlockEffect(s, t);
    WakeEffect(Block(s, t), t);
    TouchesTwice(s, Block(s, t), Wake(Block(s, t), t), t);
  }

  lemma BoostThenBlockThenWake(s: Sched, t: nat)
    requires Inv(s) && t < s.taskCount
    ensures Inv(Boost(s, t)) && Inv(Block(Boost(s, t), t))
    ensures var s' := Wake(Block(Boost(s, t), t), t);
            Shape(s') && s'.tasks[t].priority == s.tasks[t].priority && WaitsLast(s', t)
  {
    hide Without, Block, Wake, Boost;
    BoostInv(s, t);
    BoostEffect(s, t);
    BlockInv(Boost(s, t), t);
    BlockThenWake(Boost(s, t), t);
  }

  /** sched_boost: READY in the best queue, behind all others there, with its old priority remembered. */
  lemma BoostEffect(s: Sched, t: nat)
    requires Inv(s) && t < s.taskCount
    ensures var s' := Boost(s, t);
            && Shape(s') && OnlyTouches(s, s', t) && WaitsLast(s', t) && s'.current == s.current
            && s'.tasks[t] == s.tasks[t].(savedPriority := s.tasks[t].priority, priority := 0, ticksLeft := 50, state := Ready)
            && forall l :: 0 < l < MLFQ_LEVELS ==> t !in s'.queues[l]
  {
    hide Without, Enqueue, Remove;
    var task := s.tasks[t].(savedPriority := s.tasks[t].priority, priority := 0, ticksLeft := TimeSlice(0), state := Ready);
    var s1 := Remove(SetTask(s, t, task), s.tasks[t].priority, t);
    RemoveSetInv(s, t, task);
    RemovedFromQueues(s, t, task);
    RemoveCount(SetTask(s, t, task), s.tasks[t].priority, t);
    EnqueuedLast(s1, t);
    TouchesTwice(s, s1, Boost(s, t), t);
    BoostInv(s, t);
    forall l | 0 < l < MLFQ_LEVELS ensures t !in Boost(s, t).queues[l] {
      forall k | 0 <= k < |Boost(s, t).queues[l]| ensures Boost(s, t).queues[l][k] != t { assert QueuedOk(Boost(s, t), l, k); }
    }
  }

  lemma RemoveCount(s: Sched, l: nat, t: nat)
    requires Shape(s) && l < MLFQ_LEVELS
    ensures Remove(s, l, t).taskCount == s.taskCount && Remove(s, l, t).tasks == s.tasks
  {
  }

  // ---------------------------------------------------------------------------------------------
  // Ending
  // ---------------------------------------------------------------------------------------------

  /** sched_kill: a task that is no zombie yet becomes one, waits nowhere and has not got the processor. */
  lemma KillEffect(s: Sched, t: nat)
    requires Inv(s) && t < s.taskCount
    ensures var s' := Kill(s, t);
            && Shape(s') && OnlyTouches(s, s', t) && s'.tasks[t] == s.tasks[t].(state := Zombie) && OutOfQueues(s', t)
            && (s.tasks[t].state != Zombie ==> s'.current != Some(t)) && (s.current != Some(t) ==> s'.current == s.current)
  {
    hide Without, Remove;
    if s.tasks[t].state != Zombie {
      RemovedFromQueues(s, t, s.tasks[t].(state := Zombie));
      TouchesSame(Remove(SetTask(s, t, s.tasks[t].(state := Zombie)), s.tasks[t].priority, t), Kill(s, t), s, t);
    } else {
      NotReadyNotQueued(s, t);
    }
  }

  /** sched_mark_exited: a zombie with its exit code, waiting nowhere. */
  lemma ExitEffect(s: Sched, t: nat, code: int)
    requires Inv(s) && t < s.taskCount
    ensures var s' := Exit(s, t, code);
            && Shape(s') && OnlyTouches(s, s', t) && OutOfQueues(s', t) && s'.current == s.current
            && s'.tasks[t] == s.tasks[t].(state := Zombie, exitCode := code)
  {
    hide Without, RemoveFirst;
    ExitInv(s, t, code);
    NotReadyNotQueued(Exit(s, t, code), t);
    forall l | 0 <= l < MLFQ_LEVELS ensures Without(Exit(s, t, code).queues[l], t) == Without(s.queues[l], t) {
      WithoutRemoved(s.queues[l], t);
    }
  }

  /** Reaping: a zombie's slot is free again, with its exit code still there, and is the one that a spawn takes when
      there is no earlier one; anything else is left alone. */
  lemma ReapEffect(s: Sched, t: nat)
    requires Inv(s) && t < s.taskCount
    ensures var s' := Reap(s, t);
            && Shape(s') && OnlyTouches(s, s', t) && s'.queues == s.queues && s'.current == s.current
            && if s.tasks[t].state == Zombie then s'.tasks[t] == s.tasks[t].(state := Reaped) else s' == s
    ensures s.tasks[t].state == Zombie && (forall u :: 0 <= u < t ==> s.tasks[u].state != Reaped) ==> SpawnSlot(Reap(s, t), 0) == t
  {
    hide Without;
    if s.tasks[t].state == Zombie && forall u :: 0 <= u < t ==> s.tasks[u].state != Reaped {
      FirstReaped(Reap(s, t), 0, t);
    }
  }

  lemma {:induction false} FirstReaped(s: Sched, i: nat, t: nat)
    requires Shape(s) && i <= t < s.taskCount && s.tasks[t].state == Reaped && forall u :: i <= u < t ==> s.tasks[u].state != Reaped
    ensures SpawnSlot(s, i) == t
    decreases t - i
  {
    if i < t { FirstReaped(s, i + 1, t); }
  }

  // ---------------------------------------------------------------------------------------------
  // Starting
  // ---------------------------------------------------------------------------------------------

  /** sched_add: one task more, READY at level 2 with its time slice, behind all others there; nothing when the table
      is full. */
  lemma AddEffect(s: Sched, template: Task)
    requires Inv(s)
    ensures var s', t := Add(s, template), s.taskCount;
            && Shape(s') && s'.current == s.current
            && (t == MAX_TASKS ==> s' == s)
            && (t < MAX_TASKS ==> && StartedAt(s, s', t) && s'.taskCount == t + 1
                                  && s'.tasks[t] == template.(state := Ready, priority := 2, savedPriority := 2, ticksLeft := 30))
  {
    hide Without, Enqueue;
    var t := s.taskCount;
    if t < MAX_TASKS {
      var task := template.(state := Ready, priority := 2, savedPriority := 2, ticksLeft := TimeSlice(2));
      NotReadyNotQueued(s, t);
      SetUnqueued(s, t, task);
      CountInv(SetTask(s, t, task));
      EnqueuedLast(SetTask(s, t, task).(taskCount := t + 1), t);
    }
  }

  /** Task `t` is new: it waits behind all others of its priority, and nobody else has changed. */
  ghost predicate StartedAt(s: Sched, s': Sched, t: nat)
    requires Shape(s) && Shape(s') && t < MAX_TASKS
  {
    && WaitsLast(s', t) && (forall u :: 0 <= u < MAX_TASKS && u != t ==> s'.tasks[u] == s.tasks[u])
    && forall l :: 0 <= l < MLFQ_LEVELS ==> Without(s'.queues[l], t) == Without(s.queues[l], t)
  }

  /** sched_spawn_process with a kernel stack: the first reaped slot, or a new one, holds a READY user process whose
      pid is its slot; nothing when all slots are taken. */
  lemma SpawnEffect(s: Sched)
    requires Inv(s)
    ensures var (s', r) := Spawn(s, true);
            && Shape(s') && s'.current == s.current
            && match r
               case None => s' == s && s.taskCount == MAX_TASKS && forall u :: 0 <= u < MAX_TASKS ==> s.tasks[u].state != Reaped
               case Some(t) =>
                 && t < MAX_TASKS && StartedAt(s, s', t) && (forall u :: 0 <= u < t && u < s.taskCount ==> s.tasks[u].state != Reaped)
                 && (if t < s.taskCount then s.tasks[t].state == Reaped && s'.taskCount == s.taskCount
                     else t == s.taskCount && s'.taskCount == t + 1)
                 && s'.tasks[t].priority == 2 && s'.tasks[t].savedPriority == 2 && s'.tasks[t].ticksLeft == 30 && s'.tasks[t].isUser
                 && s'.tasks[t].pid == t && s'.tasks[t].waitKind == WaitNone && s'.tasks[t].waitArg == 0 && s'.tasks[t].exitCode == 0
  {
    hide Without, Enqueue;
    var t := SpawnSlot(s, 0);
    SlotsBefore(s, 0);
    if t < MAX_TASKS {
      NotReadyNotQueued(s, t);
      SetUnqueued(s, t, FreshTask(t));
      var s1 := SetTask(s, t, FreshTask(t));
      if t == s.taskCount { CountInv(s1); }
      EnqueuedLast(if t == s.taskCount then s1.(taskCount := s.taskCount + 1) else s1, t);
    }
  }

  lemma {:induction false} SlotsBefore(s: Sched, i: nat)
    requires Shape(s) && i <= s.taskCount
    ensures forall u :: i <= u < SpawnSlot(s, i) ==> s.tasks[u].state != Reaped
    decreases s.taskCount - i
  {
    if i < s.taskCount && s.tasks[i].state != Reaped { SlotsBefore(s, i + 1); }
  }

  // ---------------------------------------------------------------------------------------------
  // Running
  // ---------------------------------------------------------------------------------------------

  /** sched_next from a queue: its head is Running on the processor, with a fresh time slice if the old one is used up,
      and is in no queue. */
  lemma NextEffect(s: Sched, l: nat)
    requires Inv(s) && l < MLFQ_LEVELS && s.queues[l] != [] && forall m :: 0 <= m < l ==> s.queues[m] == []
    ensures var (s', r) := Next(s);
            && r == s.queues[l][0] && 0 <= r < s.taskCount && Shape(s') && OnlyTouches(s, s', r) && OutOfQueues(s', r)
            && s'.current == Some(r)
            && s'.tasks[r] == s.tasks[r].(state := Running, ticksLeft := if s.tasks[r].ticksLeft <= 0 then (5 - l) * 10 else s.tasks[r].ticksLeft)
  {
    hide Without, Dispatch;
    NextPicksBest(s);
    var (s', r) := Next(s);
    var m: nat :| PickedFrom(s, s', r, m);
    assert m == l;
    assert QueuedOk(s, l, 0);
    NotReadyAfter(s, l);
    NotReadyNotQueued(s', r);
  }

  lemma NotReadyAfter(s: Sched, l: nat)
    requires Inv(s) && l < MLFQ_LEVELS && s.queues[l] != []
    ensures var t := s.queues[l][0]; t < s.taskCount
    ensures var s', t := Dispatch(s.(queues := s.queues[l := s.queues[l][1..]]), s.queues[l][0]), s.queues[l][0];
            && Shape(s') && OnlyTouches(s, s', t) && s'.current == Some(t) && s'.taskCount == s.taskCount
            && s'.tasks[t] == s.tasks[t].(state := Running, ticksLeft := if s.tasks[t].ticksLeft <= 0 then (5 - l) * 10 else s.tasks[t].ticksLeft)
  {
    hide Without;
    assert QueuedOk(s, l, 0);
    var t := s.queues[l][0];
    HeadWithout(s.queues[l]);
  }

  lemma HeadWithout(q: seq<nat>)
    requires q != []
    ensures Without(q[1..], q[0]) == Without(q, q[0])
  {
  }

  /** Task `c` goes on with one tick less of its slice. */
  ghost predicate RunsOn(s: Sched, s': Sched, c: nat)
    requires Shape(s) && Shape(s') && c < MAX_TASKS
  {
    && s.tasks[c].ticksLeft > 1 && s'.current == s.current && s'.queues == s.queues
    && s'.tasks[c] == s.tasks[c].(ticksLeft := s.tasks[c].ticksLeft - 1)
  }

  /** The slice of task `c` is used up: it waits one level further down, if there is one. */
  ghost predicate RunsOut(s: Sched, s': Sched, c: nat)
    requires Shape(s) && Shape(s') && c < MAX_TASKS
  {
    && s.tasks[c].ticksLeft <= 1 && s'.current == None && WaitsLast(s', c)
    && s'.tasks[c].priority == (if s.tasks[c].priority == 4 then 4 else s.tasks[c].priority + 1)
    && s'.tasks[c] == s.tasks[c].(ticksLeft := s.tasks[c].ticksLeft - 1, priority := s'.tasks[c].priority, state := Ready)
  }

  /** A tick of the running task: one tick less of its slice; with the last one it goes one level down, if there is
      one, and waits there behind all others. */
  lemma TickEffect(s: Sched)
    requires Inv(s)
    ensures var s' := Tick(s);
            && Shape(s')
            && if s.current.Some? && s.tasks[s.current.value].state == Running
               then OnlyTouches(s, s', s.current.value) && (RunsOn(s, s', s.current.value) || RunsOut(s, s', s.current.value))
               else s' == s
  {
    hide Without, Enqueue;
    if s.current.Some? && s.tasks[s.current.value].state == Running {
      var c := s.current.value;
      var task := s.tasks[c].(ticksLeft := s.tasks[c].ticksLeft - 1);
      NotReadyNotQueued(s, c);
      if task.ticksLeft <= 0 {
        var p := if task.priority < MLFQ_LEVELS - 1 then task.priority + 1 else task.priority;
        var ready := task.(priority := p, state := Ready);
        SetUnqueued(s, c, ready);
        SetTouches(s, c, ready, s.current);
        assert SetTask(s, c, ready) == SetTask(s, c, ready).(current := s.current);
        EnqueuedLast(SetTask(s, c, ready), c);
        TouchesTwice(s, SetTask(s, c, ready), Enqueue(SetTask(s, c, ready), p, c), c);
        TouchesSame(Enqueue(SetTask(s, c, ready), p, c), Tick(s), s, c);
      } else {
        SetTouches(s, c, task, s.current);
        assert SetTask(s, c, task) == SetTask(s, c, task).(current := s.current);
      }
    }
  }

  /** sched_requeue: a running task is READY, behind all others of its priority, and off the processor. */
  lemma RequeueEffect(s: Sched, t: nat)
    requires Inv(s) && t < s.taskCount
    ensures var s' := Requeue(s, t);
            && Shape(s') && OnlyTouches(s, s', t)
            && if s.tasks[t].state == Running then s'.tasks[t] == s.tasks[t].(state := Ready) && WaitsLast(s', t) && s'.current != Some(t)
                 && (s.current != Some(t) ==> s'.current == s.current)
               else s' == s
  {
    hide Without, Enqueue;
    if s.tasks[t].state == Running {
      NotReadyNotQueued(s, t);
      var task := ReadyTask(s.tasks[t]);
      SetUnqueued(s, t, task);
      SetTouches(s, t, task, s.current);
      assert SetTask(s, t, task) == SetTask(s, t, task).(current := s.current);
      EnqueuedLast(SetTask(s, t, task), t);
      TouchesTwice(s, SetTask(s, t, task), Enqueue(SetTask(s, t, task), task.priority, t), t);
      TouchesSame(Enqueue(SetTask(s, t, task), task.priority, t), Requeue(s, t), s, t);
    }
  }

  // ---------------------------------------------------------------------------------------------
  // Waking all who wait for something
  // ---------------------------------------------------------------------------------------------

  /** Exactly the tasks of `who` have been woken; nobody has lost a place, and only they have come into the queues. */
  ghost predicate WokenAll(s: Sched, s': Sched, who: set<nat>)
    requires Shape(s) && Shape(s')
  {
    && s'.taskCount == s.taskCount && s'.current == s.current
    && (forall t :: 0 <= t < MAX_TASKS ==> if t in who then WokenUp(s, s', t) else s'.tasks[t] == s.tasks[t])
    && forall l :: 0 <= l < MLFQ_LEVELS ==> s.queues[l] <= s'.queues[l] && forall k :: |s.queues[l]| <= k < |s'.queues[l]| ==> s'.queues[l][k] in who
  }

  predicate WaitsFor(t: Task, kind: WaitKind, arg: nat) { t.state == Blocked && t.waitKind == kind && t.waitArg == arg }

  predicate Polls(t: Task) { t.state == Blocked && t.waitKind == WaitSelect }

  function Waiters(s: Sched, kind: WaitKind, arg: nat, n: nat): set<nat>
    requires Shape(s) && n <= s.taskCount
  {
    set t | 0 <= t < n && WaitsFor(s.tasks[t], kind, arg)
  }

  function Pollers(s: Sched, n: nat): set<nat>
    requires Shape(s) && n <= s.taskCount
  {
    set t | 0 <= t < n && Polls(s.tasks[t])
  }

  lemma WokenOneMore(s: Sched, s1: Sched, who: set<nat>, t: nat)
    requires Inv(s) && Inv(s1) && WokenAll(s, s1, who) && t < s.taskCount && t !in who && s.tasks[t].state == Blocked
    ensures Inv(Wake(s1, t)) && WokenAll(s, Wake(s1, t), who + {t})
  {
    hide Without, QueuedOk, NoDuplicates, Wake;
    WakeInv(s1, t);
    WakeAppends(s1, t);
  }

  lemma WakeAppends(s: Sched, t: nat)
    requires Inv(s) && t < s.taskCount && s.tasks[t].state == Blocked
    ensures var s', p := Wake(s, t), s.tasks[t].savedPriority;
            && Shape(s') && s' == s.(tasks := s'.tasks, queues := s.queues[p := s.queues[p] + [t]])
            && s'.tasks == s.tasks[t := s.tasks[t].(state := Ready, priority := p, ticksLeft := (5 - p) * 10)]
  {
    var p := s.tasks[t].savedPriority;
    NotReadyNotQueued(s, t);
    SetUnqueued(s, t, s.tasks[t].(state := Ready, priority := p, ticksLeft := TimeSlice(p)));
    EnqueueReady(SetTask(s, t, s.tasks[t].(state := Ready, priority := p, ticksLeft := TimeSlice(p))), t);
  }

  lemma NotWoken(s: Sched, s': Sched, who: set<nat>, t: nat)
    requires Shape(s) && Shape(s') && WokenAll(s, s', who) && t < MAX_TASKS && t !in who
    ensures s'.tasks[t] == s.tasks[t] && s'.taskCount == s.taskCount
  {
  }

  lemma WaitersMore(s: Sched, kind: WaitKind, arg: nat, n: nat)
    requires Shape(s) && n < s.taskCount
    ensures n !in Waiters(s, kind, arg, n)
    ensures Waiters(s, kind, arg, n + 1) == if WaitsFor(s.tasks[n], kind, arg) then Waiters(s, kind, arg, n) + {n} else Waiters(s, kind, arg, n)
  {
  }

  lemma PollersMore(s: Sched, n: nat)
    requires Shape(s) && n < s.taskCount
    ensures n !in Pollers(s, n)
    ensures Pollers(s, n + 1) == if Polls(s.tasks[n]) then Pollers(s, n) + {n} else Pollers(s, n)
  {
  }

  lemma NobodyYet(s: Sched, kind: WaitKind, arg: nat)
    requires Shape(s)
    ensures Waiters(s, kind, arg, 0) == {} && Pollers(s, 0) == {} && WokenAll(s, s, {})
  {
  }

  /** sched_wake_cond wakes exactly the tasks that sleep on that condition. */
  lemma {:induction false} WakeCondWakes(s: Sched, kind: WaitKind, arg: nat, n: nat)
    requires Inv(s) && n <= s.taskCount
    ensures Inv(WakeCondBelow(s, kind, arg, n)) && WokenAll(s, WakeCondBelow(s, kind, arg, n), Waiters(s, kind, arg, n))
  {
    hide QueuedOk, NoDuplicates, Wake, WokenAll, Waiters;
    if n == 0 {
      NobodyYet(s, kind, arg);
    } else {
      WakeCondWakes(s, kind, arg, n - 1);
      var s1 := WakeCondBelow(s, kind, arg, n - 1);
      WaitersMore(s, kind, arg, n - 1);
      NotWoken(s, s1, Waiters(s, kind, arg, n - 1), n - 1);
      if WaitsFor(s.tasks[n - 1], kind, arg) { WokenOneMore(s, s1, Waiters(s, kind, arg, n - 1), n - 1); }
    }
  }

  /** sched_wake_select_all wakes exactly the tasks that wait in poll or select. */
  lemma {:induction false} WakeSelectWakes(s: Sched, n: nat)
    requires Inv(s) && n <= s.taskCount
    ensures Inv(WakeSelectBelow(s, n)) && WokenAll(s, WakeSelectBelow(s, n), Pollers(s, n))
  {
    hide QueuedOk, NoDuplicates, Wake, WokenAll, Pollers;
    if n == 0 {
      NobodyYet(s, WaitSelect, 0);
    } else {
      WakeSelectWakes(s, n - 1);
      var s1 := WakeSelectBelow(s, n - 1);
      PollersMore(s, n - 1);
      NotWoken(s, s1, Pollers(s, n - 1), n - 1);
      if Polls(s.tasks[n - 1]) { WokenOneMore(s, s1, Pollers(s, n - 1), n - 1); }
    }
  }
}
