/** No runnable task is forgotten: a task that is READY waits in a queue. One path breaks this, and it is
    characterised exactly; so is the case in which the processor idles although there is work. */
module SchedulerProgress {
  import opened Options
  import opened Rings
  import opened SchedulerModel
  import opened SchedulerInvariant

  /** Every READY task but the idle task waits in the queue of its priority. */
  ghost predicate NoneForgotten(s: Sched)
    requires Shape(s)
  {
    forall t :: IDLE < t < s.taskCount && s.tasks[t].state == Ready ==> t in s.queues[s.tasks[t].priority]
  }

  /** Only task `t` has changed and only `t` may have left a queue. */
  ghost predicate Touches(s: Sched, s': Sched, t: nat)
    requires Shape(s) && Shape(s')
  {
    && (forall x :: 0 <= x < MAX_TASKS && x != t ==> s'.tasks[x] == s.tasks[x])
    && (forall l, x :: 0 <= l < MLFQ_LEVELS && x in s.queues[l] && x != t ==> x in s'.queues[l])
    && (s'.taskCount == s.taskCount || (t == s.taskCount && s'.taskCount == t + 1))
  }

  ghost predicate Waits(s: Sched, t: nat)
    requires Shape(s) && t < MAX_TASKS
  {
    t in s.queues[s.tasks[t].priority]
  }

  /** A call that touches one task forgets nothing exactly when it leaves that task waiting or not
      READY. */
  lemma TouchForgetsIff(s: Sched, s': Sched, t: nat)
    requires Shape(s) && Shape(s') && NoneForgotten(s) && Touches(s, s', t) && t < MAX_TASKS
    ensures NoneForgotten(s') <==> (IDLE < t < s'.taskCount && s'.tasks[t].state == Ready ==> Waits(s', t))
  {
  }

  lemma RemoveTouches(s: Sched, l: nat, t: nat, task: Task)
    requires Inv(s) && l < MLFQ_LEVELS && t < MAX_TASKS && task.priority < MLFQ_LEVELS && task.savedPriority < MLFQ_LEVELS
    ensures Shape(Remove(SetTask(s, t, task), l, t)) && Touches(s, Remove(SetTask(s, t, task), l, t), t)
  {
    RemoveKeepsOthers(s.queues[l], t);
  }

  lemma {:induction false} RemoveKeepsOthers(q: seq<nat>, t: nat)
    ensures forall x :: x in q && x != t ==> x in RemoveFirst(q, t)
  {
    if q != [] && q[0] != t {
      RemoveKeepsOthers(q[1..], t);
      assert q == [q[0]] + q[1..];
    }
  }

  lemma EnqueueWaits(s: Sched, t: nat)
    requires Inv(s) && t < s.taskCount && !Queued(s, t) && s.tasks[t].state == Ready
    ensures var s' := Enqueue(s, s.tasks[t].priority, t); Inv(s') && Touches(s, s', t) && Waits(s', t)
  {
    EnqueueReady(s, t);
  }

  // ---------------------------------------------------------------------------------------------
  // The calls
  // ---------------------------------------------------------------------------------------------

  lemma NextForgets(s: Sched)
    requires Inv(s) && NoneForgotten(s)
    ensures Inv(Next(s).0) && NoneForgotten(Next(s).0)
  {
    NextPicksBest(s);
    var (s', r) := Next(s);
    if AllEmpty(s) {
      TouchForgetsIff(s, s', IDLE);
    } else {
      var l: nat :| PickedFrom(s, s', r, l);
      TouchForgetsIff(s, s', r);
    }
  }

  lemma TickForgets(s: Sched)
    requires Inv(s) && NoneForgotten(s)
    ensures Inv(Tick(s)) && NoneForgotten(Tick(s))
  {
    TickInv(s);
    if s.current.Some? && s.tasks[s.current.value].state == Running {
      var c := s.current.value;
      NotReadyNotQueued(s, c);
      var task := s.tasks[c].(ticksLeft := s.tasks[c].ticksLeft - 1);
      if task.ticksLeft <= 0 {
        var p := if task.priority < MLFQ_LEVELS - 1 then task.priority + 1 else task.priority;
        var ready := task.(priority := p, state := Ready);
        SetUnqueued(s, c, ready);
        EnqueueWaits(SetTask(s, c, ready), c);
      }
      TouchForgetsIff(s, Tick(s), c);
    }
  }

  lemma AddForgets(s: Sched, template: Task)
    requires Inv(s) && NoneForgotten(s)
    ensures Inv(Add(s, template)) && NoneForgotten(Add(s, template))
  {
    AddInv(s, template);
    if s.taskCount < MAX_TASKS {
      var t := s.taskCount;
      var task := template.(state := Ready, priority := 2, savedPriority := 2, ticksLeft := TimeSlice(2));
      NotReadyNotQueued(s, t);
      SetUnqueued(s, t, task);
      CountInv(SetTask(s, t, task));
      EnqueueWaits(SetTask(s, t, task).(taskCount := t + 1), t);
      TouchForgetsIff(s, Add(s, template), t);
    }
  }

  /** The slot filled by a spawn whose kernel stack could be allocated waits in queue 2. */
  lemma SpawnedWaits(s: Sched, t: nat)
    requires Inv(s) && t == SpawnSlot(s, 0) && t < MAX_TASKS
    ensures var s' := Spawn(s, true).0; Inv(s') && Touches(s, s', t) && Waits(s', t)
  {
    NotReadyNotQueued(s, t);
    SetUnqueued(s, t, FreshTask(t));
    var s1 := SetTask(s, t, FreshTask(t));
    if t == s.taskCount { CountInv(s1); }
    EnqueueWaits(if t == s.taskCount then s1.(taskCount := s.taskCount + 1) else s1, t);
  }

  /** sched_spawn_process forgets a task exactly when the kernel stack cannot be allocated for a slot
      that is being used again. */
  lemma SpawnForgetsIff(s: Sched, kstack: bool)
    requires Inv(s) && NoneForgotten(s)
    ensures Inv(Spawn(s, kstack).0)
    ensures NoneForgotten(Spawn(s, kstack).0) <==> kstack || SpawnSlot(s, 0) == s.taskCount || SpawnSlot(s, 0) == IDLE
  {
    SpawnInv(s, kstack);
    var t := SpawnSlot(s, 0);
    if t < MAX_TASKS {
      if kstack {
        SpawnedWaits(s, t);
        TouchForgetsIff(s, Spawn(s, true).0, t);
      } else {
        SpawnWithoutStack(s, t);
      }
    }
  }

  lemma SpawnWithoutStack(s: Sched, t: nat)
    requires Inv(s) && NoneForgotten(s) && t == SpawnSlot(s, 0) && t < MAX_TASKS
    ensures var s' := Spawn(s, false).0; Shape(s') && (NoneForgotten(s') <==> t == s.taskCount || t == IDLE)
  {
    NotReadyNotQueued(s, t);
    TouchForgetsIff(s, SetTask(s, t, FreshTask(t)), t);
  }

  lemma BlockForgets(s: Sched, t: nat, task: Task)
    requires Inv(s) && NoneForgotten(s) && t < s.taskCount && task.state != Ready
    requires task.priority < MLFQ_LEVELS && task.savedPriority < MLFQ_LEVELS
    ensures var s' := Remove(SetTask(s, t, task), s.tasks[t].priority, t);
            Inv(s') && NoneForgotten(s') && Inv(Unset(s', t)) && NoneForgotten(Unset(s', t))
  {
    RemoveSetInv(s, t, task);
    var s' := Remove(SetTask(s, t, task), s.tasks[t].priority, t);
    RemoveTouches(s, s.tasks[t].priority, t, task);
    TouchForgetsIff(s, s', t);
    UnsetInv(s', t);
  }

  lemma WakeForgets(s: Sched, t: nat)
    requires Inv(s) && NoneForgotten(s) && t < MAX_TASKS
    ensures Inv(Wake(s, t)) && NoneForgotten(Wake(s, t))
  {
    WakeInv(s, t);
    if t < s.taskCount && s.tasks[t].state == Blocked {
      var p := s.tasks[t].savedPriority;
      var task := s.tasks[t].(state := Ready, priority := p, ticksLeft := TimeSlice(p));
      NotReadyNotQueued(s, t);
      SetUnqueued(s, t, task);
      EnqueueWaits(SetTask(s, t, task), t);
      TouchForgetsIff(s, Wake(s, t), t);
    }
  }

  lemma {:induction false} WakeCondForgets(s: Sched, kind: WaitKind, arg: nat, n: nat)
    requires Inv(s) && NoneForgotten(s) && n <= s.taskCount
    ensures Inv(WakeCondBelow(s, kind, arg, n)) && NoneForgotten(WakeCondBelow(s, kind, arg, n))
  {
    hide Inv, NoneForgotten, Shape, Wake;
    UnpackInv(s);
    if n > 0 {
      WakeCondForgets(s, kind, arg, n - 1);
      WakeForgets(WakeCondBelow(s, kind, arg, n - 1), n - 1);
    }
  }

  lemma {:induction false} WakeSelectForgets(s: Sched, n: nat)
    requires Inv(s) && NoneForgotten(s) && n <= s.taskCount
    ensures Inv(WakeSelectBelow(s, n)) && NoneForgotten(WakeSelectBelow(s, n))
  {
    hide Inv, NoneForgotten, Shape, Wake;
    UnpackInv(s);
    if n > 0 {
      WakeSelectForgets(s, n - 1);
      WakeForgets(WakeSelectBelow(s, n - 1), n - 1);
    }
  }

  lemma BoostForgets(s: Sched, t: nat)
    requires Inv(s) && NoneForgotten(s) && t < MAX_TASKS
    ensures Inv(Boost(s, t)) && NoneForgotten(Boost(s, t))
  {
    BoostInv(s, t);
    if t < s.taskCount {
      var task := s.tasks[t].(savedPriority := s.tasks[t].priority, priority := 0, ticksLeft := TimeSlice(0), state := Ready);
      RemoveSetInv(s, t, task);
      RemoveTouches(s, s.tasks[t].priority, t, task);
      EnqueueWaits(Remove(SetTask(s, t, task), s.tasks[t].priority, t), t);
      TouchForgetsIff(s, Boost(s, t), t);
    }
  }

  lemma ExitForgets(s: Sched, t: nat, code: int)
    requires Inv(s) && NoneForgotten(s) && t < MAX_TASKS
    ensures Inv(Exit(s, t, code)) && NoneForgotten(Exit(s, t, code))
  {
    ExitInv(s, t, code);
    forall l | 0 <= l < MLFQ_LEVELS ensures forall x :: x in s.queues[l] && x != t ==> x in Exit(s, t, code).queues[l] {
      RemoveKeepsOthers(s.queues[l], t);
    }
    TouchForgetsIff(s, Exit(s, t, code), t);
  }

  lemma RequeueForgets(s: Sched, t: nat)
    requires Inv(s) && NoneForgotten(s) && t < s.taskCount
    ensures Inv(Requeue(s, t)) && NoneForgotten(Requeue(s, t))
  {
    RequeueInv(s, t);
    if s.tasks[t].state == Running {
      NotReadyNotQueued(s, t);
      SetUnqueued(s, t, ReadyTask(s.tasks[t]));
      EnqueueWaits(SetTask(s, t, ReadyTask(s.tasks[t])), t);
      TouchForgetsIff(s, Requeue(s, t), t);
    }
  }

  // ---------------------------------------------------------------------------------------------
  // Whole runs
  // ---------------------------------------------------------------------------------------------

  /** The one call that forgets a task. */
  predicate Abandons(s: Sched, c: Call)
    requires Shape(s)
  {
    c == DoSpawn(false) && IDLE < SpawnSlot(s, 0) < s.taskCount
  }

  /** Every call of the scheduler forgets no task, but for a spawn without kernel stack in a slot that
      is being used again, which always does. */
  lemma ApplyForgetsIff(s: Sched, c: Call)
    requires Inv(s) && NoneForgotten(s) && CallOk(s, c)
    ensures Inv(Apply(s, c))
    ensures NoneForgotten(Apply(s, c)) <==> !Abandons(s, c)
  {
    hide Inv, NoneForgotten;
    ApplyInv(s, c);
    assert Shape(s) && IDLE < s.taskCount && (s.current.Some? ==> s.current.value < s.taskCount) by { UnpackInv(s); }
    match c
    case DoNext => NextForgets(s);
    case DoTick => TickForgets(s);
    case DoAdd(template) => AddForgets(s, template);
    case DoSpawn(kstack) => SpawnForgetsIff(s, kstack);
    case DoBlock(t) => if t < s.taskCount { BlockForgets(s, t, s.tasks[t].(state := Blocked)); }
    case DoWake(t) => WakeForgets(s, t);
    case DoBlockOn(kind, arg) =>
      if s.current.Some? { var t := s.current.value; BlockForgets(s, t, s.tasks[t].(state := Blocked, waitKind := kind, waitArg := arg)); }
    case DoWakeCond(kind, arg) => WakeCondForgets(s, kind, arg, s.taskCount);
    case DoWakeSelect => WakeSelectForgets(s, s.taskCount);
    case DoBoost(t) => BoostForgets(s, t);
    case DoKill(t) => if t < s.taskCount && s.tasks[t].state != Zombie { BlockForgets(s, t, s.tasks[t].(state := Zombie)); }
    case DoExit(t, code) => ExitForgets(s, t, code);
    case DoReap(t) => ReapForgets(s, t);
    case DoRequeue(t) => RequeueForgets(s, t);
    case DoSetCurrent(c) => CurrentForgets(s, c);
  }

  lemma UnpackInv(s: Sched)
    requires Inv(s)
    ensures Shape(s) && IDLE < s.taskCount && (s.current.Some? ==> s.current.value < s.taskCount)
  {
  }

  lemma ReapForgets(s: Sched, t: nat)
    requires Inv(s) && NoneForgotten(s) && t < MAX_TASKS
    ensures NoneForgotten(Reap(s, t))
  {
    TouchForgetsIff(s, Reap(s, t), t);
  }

  lemma CurrentForgets(s: Sched, c: Option<nat>)
    requires Inv(s) && NoneForgotten(s) && (c.Some? ==> c.value < s.taskCount)
    ensures Shape(s.(current := c)) && NoneForgotten(s.(current := c))
  {
  }

  /** Over every run without such a spawn, no task is ever forgotten. */
  lemma {:induction false} NeverForgotten(ss: seq<Sched>, cs: seq<Call>, k: nat)
    requires IsRun(ss, cs) && k < |ss|
    requires forall i :: 0 <= i < k ==> Shape(ss[i]) && !Abandons(ss[i], cs[i])
    ensures Inv(ss[k]) && NoneForgotten(ss[k])
  {
    hide Apply, Inv, Shape, CallOk, Abandons;
    ReachableInv(ss, cs, k);
    if k == 0 {
      InitForgets();
    } else {
      NeverForgotten(ss, cs, k - 1);
      ApplyForgetsIff(ss[k - 1], cs[k - 1]);
    }
  }

  lemma InitForgets()
    ensures Shape(Init()) && NoneForgotten(Init())
  {
  }

  /** A run that does forget one: a task is added, killed and reaped, and a spawn in its slot gets no
      kernel stack. The slot is READY and in no queue. */
  lemma SpawnCanForget(template: Task) returns (ss: seq<Sched>, cs: seq<Call>)
    ensures IsRun(ss, cs) && cs == [DoAdd(template), DoKill(1), DoReap(1), DoSpawn(false)]
    ensures Inv(ss[4]) && ss[4].taskCount == 2 && ss[4].tasks[1].state == Ready && !Queued(ss[4], 1)
    ensures !NoneForgotten(ss[4])
  {
    hide Init, Add, Kill, Reap, Spawn, Inv, Shape, Queued, NoneForgotten;
    cs := [DoAdd(template), DoKill(1), DoReap(1), DoSpawn(false)];
    var s3 := ReapedSlot(template);
    SlotForgotten(s3);
    ss := [Init(), Add(Init(), template), Kill(Add(Init(), template), 1), s3, Spawn(s3, false).0];
  }

  lemma SlotForgotten(s: Sched)
    requires Inv(s) && s.taskCount == 2 && s.tasks[1].state == Reaped && SpawnSlot(s, 0) == 1
    ensures var s' := Spawn(s, false).0;
            Inv(s') && s'.taskCount == 2 && s'.tasks[1].state == Ready && !Queued(s', 1) && !NoneForgotten(s')
  {
    NotReadyNotQueued(s, 1);
    SpawnInv(s, false);
  }

  lemma ReapedSlot(template: Task) returns (s: Sched)
    ensures Shape(Init()) && Shape(Add(Init(), template)) && Shape(Kill(Add(Init(), template), 1))
    ensures s == Reap(Kill(Add(Init(), template), 1), 1)
    ensures Inv(s) && s.taskCount == 2 && s.tasks[1].state == Reaped && SpawnSlot(s, 0) == 1
  {
    InitInv();
    AddInv(Init(), template);
    KillInv(Add(Init(), template), 1);
    ReapInv(Kill(Add(Init(), template), 1), 1);
    s := Reap(Kill(Add(Init(), template), 1), 1);
    assert s.tasks[0].state == Ready && SpawnSlot(s, 0) == SpawnSlot(s, 1);
  }

  // ---------------------------------------------------------------------------------------------
  // Idling
  // ---------------------------------------------------------------------------------------------

  /** When none is forgotten, sched_next comes to the end of the queues only when no other task is READY; otherwise a
      READY task runs, and no READY task has a better priority. */
  lemma BestReadyRuns(s: Sched)
    requires Inv(s) && NoneForgotten(s)
    ensures var r := Next(s).1;
            if AllEmpty(s) then forall t :: IDLE < t < s.taskCount ==> s.tasks[t].state != Ready
            else && 0 <= r < s.taskCount && s.tasks[r].state == Ready
                 && forall t :: IDLE < t < s.taskCount && s.tasks[t].state == Ready ==> s.tasks[r].priority <= s.tasks[t].priority
  {
    NextPicksBest(s);
    var (s', r) := Next(s);
    if !AllEmpty(s) {
      var l: nat :| PickedFrom(s, s', r, l);
      assert QueuedOk(s, l, 0);
      forall t | IDLE < t < s.taskCount && s.tasks[t].state == Ready ensures l <= s.tasks[t].priority {
        assert t in s.queues[s.tasks[t].priority];
      }
    }
  }

  /** A task other than the idle task could run. */
  ghost predicate WorkToDo(s: Sched)
    requires Shape(s)
  {
    exists t :: IDLE < t < s.taskCount && s.tasks[t].state == Ready
  }

  /** The idle task heads the best non-empty queue `l`, with a task behind it or in a later queue. */
  ghost predicate IdleHeads(s: Sched, l: nat)
    requires Shape(s)
  {
    && l < MLFQ_LEVELS && s.queues[l] != [] && (forall m :: 0 <= m < l ==> s.queues[m] == []) && s.queues[l][0] == IDLE
    && (|s.queues[l]| > 1 || exists m :: l < m < MLFQ_LEVELS && s.queues[m] != [])
  }

  /** The processor idles although there is work exactly when the idle task is queued ahead of it. */
  lemma IdlesDespiteWorkIff(s: Sched)
    requires Inv(s) && NoneForgotten(s)
    ensures Next(s).1 == IDLE && WorkToDo(s) <==> exists l: nat :: IdleHeads(s, l)
  {
    NextPicksBest(s);
    var (s', r) := Next(s);
    if Next(s).1 == IDLE && WorkToDo(s) {
      var t :| IDLE < t < s.taskCount && s.tasks[t].state == Ready;
      assert t in s.queues[s.tasks[t].priority];
      var l: nat :| PickedFrom(s, s', r, l);
      assert IdleHeads(s, l);
    }
    if exists l: nat :: IdleHeads(s, l) {
      var l: nat :| IdleHeads(s, l);
      WorkBehindIdle(s, l);
      var k: nat :| PickedFrom(s, s', r, k);
      assert k == l;
    }
  }

  lemma WorkBehindIdle(s: Sched, l: nat)
    requires Inv(s) && IdleHeads(s, l)
    ensures WorkToDo(s)
  {
    assert QueuedOk(s, l, 0);
    if |s.queues[l]| > 1 {
      assert QueuedOk(s, l, 1) && NoDuplicates(s.queues[l]);
      assert s.tasks[s.queues[l][1]].state == Ready;
    } else {
      var m :| l < m < MLFQ_LEVELS && s.queues[m] != [];
      assert QueuedOk(s, m, 0);
      assert s.tasks[s.queues[m][0]].state == Ready;
    }
  }

  lemma Extend(ss: seq<Sched>, cs: seq<Call>, c: Call) returns (ss': seq<Sched>, cs': seq<Call>)
    requires IsRun(ss, cs) && Shape(ss[|cs|]) && CallOk(ss[|cs|], c)
    ensures IsRun(ss', cs') && cs' == cs + [c] && ss'[|cs'|] == Apply(ss[|cs|], c) && Inv(ss'[|cs'|])
  {
    hide Apply, CallOk, Inv, Init;
    ss', cs' := ss + [Apply(ss[|cs|], c)], cs + [c];
    ReachableInv(ss', cs', |cs'|);
  }

  /** Two tasks, the idle task READY: what is known of task 1, the last three queues, and the current task. */
  ghost predicate Stage(s: Sched, state: TaskState, priority: nat, ticks: int, two: seq<nat>, three: seq<nat>, four: seq<nat>, current: Option<nat>) {
    && Inv(s) && s.taskCount == 2 && s.tasks[IDLE].state == Ready && s.tasks[1].state == state && s.tasks[1].priority == priority
    && s.tasks[1].ticksLeft == ticks && s.queues == [[], [], two, three, four] && s.current == current
  }

  /** The time slice of task 1 runs down to one tick. */
  lemma {:induction false} TicksGo(ss: seq<Sched>, cs: seq<Call>, priority: nat, ticks: nat) returns (ss': seq<Sched>, cs': seq<Call>)
    requires IsRun(ss, cs) && ticks > 0 && Stage(ss[|cs|], Running, priority, ticks, [], [], [IDLE], Some(1))
    ensures IsRun(ss', cs') && Stage(ss'[|cs'|], Running, priority, 1, [], [], [IDLE], Some(1))
    decreases ticks
  {
    ss', cs' := ss, cs;
    if ticks > 1 {
      ss', cs' := Extend(ss, cs, DoTick);
      ss', cs' := TicksGo(ss', cs', priority, ticks - 1);
    }
  }

  /** Its last tick puts it into the next queue. */
  lemma LastTick(ss: seq<Sched>, cs: seq<Call>, priority: nat) returns (ss': seq<Sched>, cs': seq<Call>)
    requires IsRun(ss, cs) && 2 <= priority < 4 && Stage(ss[|cs|], Running, priority, 1, [], [], [IDLE], Some(1))
    ensures IsRun(ss', cs')
    ensures Stage(ss'[|cs'|], Ready, priority + 1, 0, [], if priority == 2 then [1] else [], if priority == 3 then [IDLE, 1] else [IDLE], None)
  {
    ss', cs' := Extend(ss, cs, DoTick);
    assert [] + [1] == [1] && [IDLE] + [1] == [IDLE, 1];
  }

  lemma NextTakes(ss: seq<Sched>, cs: seq<Call>, priority: nat) returns (ss': seq<Sched>, cs': seq<Call>)
    requires IsRun(ss, cs) && 2 <= priority < 4
    requires Stage(ss[|cs|], Ready, priority, if priority == 2 then 30 else 0,
                   if priority == 2 then [1] else [], if priority == 3 then [1] else [], [IDLE], None)
    ensures IsRun(ss', cs') && Stage(ss'[|cs'|], Running, priority, if priority == 2 then 30 else 20, [], [], [IDLE], Some(1))
  {
    ss', cs' := Extend(ss, cs, DoNext);
    TakesFromTwoOrThree(ss[|cs|], priority);
  }

  lemma TakesFromTwoOrThree(s: Sched, l: nat)
    requires Shape(s) && 2 <= l < 4 && s.queues[0] == [] && s.queues[1] == [] && (l == 3 ==> s.queues[2] == [])
    requires s.queues[l] == [1] && s.tasks[1].state == Ready
    ensures Next(s) == (Dispatch(s.(queues := s.queues[l := []]), 1), 1)
  {
    assert NextFrom(s, 0) == NextFrom(s, 1) == NextFrom(s, 2);
    if l == 3 { assert NextFrom(s, 2) == NextFrom(s, 3); }
    assert s.queues[l][1..] == [];
  }

  /** A run to such a state: the main loop runs the idle task and puts it back into queue 4; then a task is added, and
      its time slices run out in queue 2 and in queue 3. It ends up behind the idle task, which sched_next picks. */
  lemma IdleRunsFirst(template: Task) returns (ss: seq<Sched>, cs: seq<Call>)
    ensures IsRun(ss, cs)
    ensures var s := ss[|cs|];
            Inv(s) && s.queues == [[], [], [], [], [IDLE, 1]] && s.taskCount == 2 && s.tasks[1].state == Ready && Next(s).1 == IDLE
  {
    hide Stage;
    ss, cs := IdleQueued(template);
    ss, cs := NextTakes(ss, cs, 2);
    ss, cs := TicksGo(ss, cs, 2, 30);
    ss, cs := LastTick(ss, cs, 2);
    ss, cs := NextTakes(ss, cs, 3);
    ss, cs := TicksGo(ss, cs, 3, 20);
    ss, cs := LastTick(ss, cs, 3);
    StageIdles(ss[|cs|]);
  }

  lemma StageIdles(s: Sched)
    requires Stage(s, Ready, 4, 0, [], [], [IDLE, 1], None)
    ensures Inv(s) && s.queues == [[], [], [], [], [IDLE, 1]] && s.taskCount == 2 && s.tasks[1].state == Ready && Next(s).1 == IDLE
  {
    assert NextFrom(s, 0) == NextFrom(s, 1) == NextFrom(s, 2);
    assert NextFrom(s, 2) == NextFrom(s, 3) == NextFrom(s, 4);
  }

  lemma IdleQueued(template: Task) returns (ss: seq<Sched>, cs: seq<Call>)
    ensures IsRun(ss, cs) && Stage(ss[|cs|], Ready, 2, 30, [1], [], [IDLE], None)
  {
    ss, cs := [Init()], [];
    InitInv();
    ss, cs := Extend(ss, cs, DoNext);
    FirstNext();
    ss, cs := Extend(ss, cs, DoRequeue(IDLE));
    ss, cs := Extend(ss, cs, DoAdd(template));
    assert [] + [IDLE] == [IDLE] && [] + [1] == [1];
  }

  lemma FirstNext()
    ensures Shape(Init()) && Next(Init()).0 == SetTask(Init(), IDLE, Init().tasks[IDLE].(state := Running)).(current := Some(IDLE))
  {
    InitInv();
    NextPicksBest(Init());
  }
}
