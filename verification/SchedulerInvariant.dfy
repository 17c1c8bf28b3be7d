/** The scheduler invariant is kept by every call, so it holds in every reachable state; and what it
    buys: nothing is ever dropped from a queue, and sched_next picks the head of the best queue. */
module SchedulerInvariant {
  import opened Options
  import opened Rings
  import opened SchedulerModel

  // ---------------------------------------------------------------------------------------------
  // Building blocks
  // ---------------------------------------------------------------------------------------------

  lemma DistinctBound(q: seq<nat>, n: nat)
    requires NoDuplicates(q) && forall i :: 0 <= i < |q| ==> q[i] < n
    ensures |q| <= n
  {
    SizeOfElements(q);
    forall x | x in Elements(q) ensures x in UpTo(n) { }
    SubsetSize(Elements(q), UpTo(n));
  }

  function UpTo(n: nat): (r: set<nat>)
    ensures |r| == n && forall x: nat :: x in r <==> x < n
  {
    if n == 0 then {} else UpTo(n - 1) + {n - 1}
  }

  function Elements(q: seq<nat>): set<nat> { set x | x in q }

  lemma {:induction false} SizeOfElements(q: seq<nat>)
    requires NoDuplicates(q)
    ensures |Elements(q)| == |q|
  {
    if q != [] {
      var r, x := q[..|q| - 1], q[|q| - 1];
      SizeOfElements(r);
      assert q == r + [x];
      assert Elements(q) == Elements(r) + {x};
    } else {
      assert Elements(q) == {};
    }
  }

  lemma {:induction false} SubsetSize(a: set<nat>, b: set<nat>)
    requires a <= b
    ensures |a| <= |b|
    decreases |a|
  {
    if a != {} {
      var x :| x in a;
      SubsetSize(a - {x}, b - {x});
    }
  }

  /** The 64 slots suffice: there is room for a task that is not in the queue yet. */
  lemma RoomForUnqueued(s: Sched, l: nat, t: nat)
    requires Inv(s) && l < MLFQ_LEVELS && t < s.taskCount && t !in s.queues[l]
    ensures |s.queues[l]| < MAX_TASKS
  {
    var q := s.queues[l] + [t];
    forall i | 0 <= i < |q| ensures q[i] < MAX_TASKS {
      if i < |s.queues[l]| { assert QueuedOk(s, l, i); }
    }
    DistinctBound(q, MAX_TASKS);
  }

  lemma SetUnqueued(s: Sched, t: nat, task: Task)
    requires Inv(s) && t < MAX_TASKS && !Queued(s, t)
    requires task.priority < MLFQ_LEVELS && task.savedPriority < MLFQ_LEVELS
    ensures Inv(SetTask(s, t, task)) && !Queued(SetTask(s, t, task), t)
  {
    var s' := SetTask(s, t, task);
    forall l, k | 0 <= l < MLFQ_LEVELS && 0 <= k < |s'.queues[l]| ensures QueuedOk(s', l, k) {
      assert QueuedOk(s, l, k);
      assert s.queues[l][k] in s.queues[l];
    }
  }

  lemma EnqueueReady(s: Sched, t: nat)
    requires Inv(s) && t < s.taskCount && !Queued(s, t) && s.tasks[t].state == Ready
    ensures var l := s.tasks[t].priority;
            Enqueue(s, l, t) == s.(queues := s.queues[l := s.queues[l] + [t]]) && Inv(Enqueue(s, l, t))
  {
    var l := s.tasks[t].priority;
    RoomForUnqueued(s, l, t);
    var s' := Enqueue(s, l, t);
    forall m, k | 0 <= m < MLFQ_LEVELS && 0 <= k < |s'.queues[m]| ensures QueuedOk(s', m, k) {
      if m != l || k < |s.queues[l]| { assert QueuedOk(s, m, k); }
    }
    forall m | 0 <= m < MLFQ_LEVELS ensures NoDuplicates(s'.queues[m]) {
      assert NoDuplicates(s.queues[m]);
    }
  }

  lemma RemoveFirstFacts(q: seq<nat>, t: nat)
    requires NoDuplicates(q)
    ensures NoDuplicates(RemoveFirst(q, t)) && t !in RemoveFirst(q, t)
    ensures forall x :: x in RemoveFirst(q, t) ==> x in q
  {
    hide RemoveFirst;
    if t in q {
      var i :| 0 <= i < |q| && q[i] == t;
      RemoveAt(q, t, i);
      var r := q[..i] + q[i + 1..];
      assert forall j :: 0 <= j < |r| ==> r[j] == q[if j < i then j else j + 1];
    }
  }

  /** Taking a task out of the queue of its priority takes it out of all queues. */
  lemma RemoveUnqueues(s: Sched, t: nat)
    requires Inv(s) && t < MAX_TASKS
    ensures var s' := Remove(s, s.tasks[t].priority, t); Inv(s') && !Queued(s', t)
  {
    var p := s.tasks[t].priority;
    var s' := Remove(s, p, t);
    RemoveFirstFacts(s.queues[p], t);
    forall l, k | 0 <= l < MLFQ_LEVELS && 0 <= k < |s'.queues[l]| ensures QueuedOk(s', l, k) && s'.queues[l][k] != t {
      StillQueued(s, s', p, t, l, k);
    }
    forall l | 0 <= l < MLFQ_LEVELS ensures NoDuplicates(s'.queues[l]) {
      assert NoDuplicates(s.queues[l]);
    }
    forall l | 0 <= l < MLFQ_LEVELS ensures t !in s'.queues[l] {
      forall k | 0 <= k < |s'.queues[l]| ensures s'.queues[l][k] != t { StillQueued(s, s', p, t, l, k); }
    }
  }

  lemma StillQueued(s: Sched, s': Sched, p: nat, t: nat, l: nat, k: nat)
    requires Inv(s) && t < MAX_TASKS && p == s.tasks[t].priority && s' == Remove(s, p, t)
    requires l < MLFQ_LEVELS && k < |s'.queues[l]|
    ensures Shape(s') && QueuedOk(s', l, k) && s'.queues[l][k] != t
  {
    RemoveFirstFacts(s.queues[p], t);
    var x := s'.queues[l][k];
    assert x in s'.queues[l];
    assert x in s.queues[l];
    var j :| 0 <= j < |s.queues[l]| && s.queues[l][j] == x;
    assert QueuedOk(s, l, j);
  }

  lemma NotReadyNotQueued(s: Sched, t: nat)
    requires Inv(s) && t < MAX_TASKS && (t >= s.taskCount || s.tasks[t].state != Ready)
    ensures !Queued(s, t)
  {
    forall l | 0 <= l < MLFQ_LEVELS ensures t !in s.queues[l] {
      forall k | 0 <= k < |s.queues[l]| ensures s.queues[l][k] != t { assert QueuedOk(s, l, k); }
    }
  }

  // ---------------------------------------------------------------------------------------------
  // Every call keeps the invariant
  // ---------------------------------------------------------------------------------------------

  lemma InitInv()
    ensures Inv(Init())
  {
  }

  lemma UnsetInv(s: Sched, t: nat)
    requires Inv(s)
    ensures Inv(Unset(s, t))
  {
    var s' := Unset(s, t);
    forall l, k | 0 <= l < MLFQ_LEVELS && 0 <= k < |s'.queues[l]| ensures QueuedOk(s', l, k) { assert QueuedOk(s, l, k); }
  }

  lemma CurrentInv(s: Sched, c: Option<nat>)
    requires Inv(s) && (c.Some? ==> c.value < s.taskCount)
    ensures Inv(s.(current := c))
  {
    var s' := s.(current := c);
    forall l, k | 0 <= l < MLFQ_LEVELS && 0 <= k < |s'.queues[l]| ensures QueuedOk(s', l, k) { assert QueuedOk(s, l, k); }
  }

  lemma CountInv(s: Sched)
    requires Inv(s) && s.taskCount < MAX_TASKS
    ensures Inv(s.(taskCount := s.taskCount + 1))
  {
    var s' := s.(taskCount := s.taskCount + 1);
    forall l, k | 0 <= l < MLFQ_LEVELS && 0 <= k < |s'.queues[l]| ensures QueuedOk(s', l, k) { assert QueuedOk(s, l, k); }
  }

  /** The head `r` of queue `l` has been taken and dispatched, and all better queues are empty. */
  ghost predicate PickedFrom(s: Sched, s': Sched, r: int, l: nat)
    requires Shape(s)
  {
    && l < MLFQ_LEVELS && s.queues[l] != [] && (forall m :: 0 <= m < l ==> s.queues[m] == [])
    && r == s.queues[l][0] && 0 <= r < MAX_TASKS
    && s' == Dispatch(s.(queues := s.queues[l := s.queues[l][1..]]), r)
  }

  ghost predicate AllEmpty(s: Sched)
    requires Shape(s)
  {
    forall l :: 0 <= l < MLFQ_LEVELS ==> s.queues[l] == []
  }

  ghost predicate IdlePicked(s: Sched, s': Sched, r: int)
    requires Shape(s)
  {
    if s.tasks[IDLE].state == Ready
    then r == IDLE && s' == SetTask(s, IDLE, s.tasks[IDLE].(state := Running)).(current := Some(IDLE))
    else r == -1 && s' == s
  }

  /** sched_next: the head of the best non-empty queue runs; the idle task is asked for only when all queues are
      empty, but it can head a queue as any other task. */
  lemma NextPicksBest(s: Sched)
    requires Inv(s)
    ensures var (s', r) := Next(s);
            && Inv(s')
            && if AllEmpty(s) then IdlePicked(s, s', r) else exists l: nat :: PickedFrom(s, s', r, l)
  {
    NextFromBest(s, 0);
  }

  lemma {:induction false} NextFromBest(s: Sched, l: nat)
    requires Inv(s) && l <= MLFQ_LEVELS && forall m :: 0 <= m < l ==> s.queues[m] == []
    ensures var (s', r) := NextFrom(s, l);
            && Inv(s')
            && if AllEmpty(s) then IdlePicked(s, s', r) else exists m: nat :: PickedFrom(s, s', r, m)
    decreases MLFQ_LEVELS - l
  {
    if l == MLFQ_LEVELS {
      if s.tasks[IDLE].state == Ready {
        assert !Queued(s, IDLE);
        SetUnqueued(s, IDLE, s.tasks[IDLE].(state := Running));
        CurrentInv(SetTask(s, IDLE, s.tasks[IDLE].(state := Running)), Some(IDLE));
      }
    } else if s.queues[l] == [] {
      NextFromBest(s, l + 1);
    } else {
      assert QueuedOk(s, l, 0);
      DispatchInv(s, l);
      var (s', r) := NextFrom(s, l);
      assert PickedFrom(s, s', r, l);
    }
  }

  lemma DispatchInv(s: Sched, l: nat)
    requires Inv(s) && l < MLFQ_LEVELS && s.queues[l] != []
    ensures s.queues[l][0] < MAX_TASKS
    ensures Inv(Dispatch(s.(queues := s.queues[l := s.queues[l][1..]]), s.queues[l][0]))
  {
    assert QueuedOk(s, l, 0);
    var t := s.queues[l][0];
    assert s.queues[l][1..] == RemoveFirst(s.queues[l], t);
    var s1 := Remove(s, l, t);
    RemoveUnqueues(s, t);
    var task := s.tasks[t];
    var task' := task.(state := Running, ticksLeft := if task.ticksLeft <= 0 then TimeSlice(task.priority) else task.ticksLeft);
    SetUnqueued(s1, t, task');
    CurrentInv(SetTask(s1, t, task'), Some(t));
  }

  lemma TickInv(s: Sched)
    requires Inv(s)
    ensures Inv(Tick(s))
  {
    if s.current.Some? && s.tasks[s.current.value].state == Running {
      var c := s.current.value;
      var task := s.tasks[c].(ticksLeft := s.tasks[c].ticksLeft - 1);
      NotReadyNotQueued(s, c);
      SetUnqueued(s, c, task);
      if task.ticksLeft <= 0 {
        var p := if task.priority < MLFQ_LEVELS - 1 then task.priority + 1 else task.priority;
        var ready := task.(priority := p, state := Ready);
        SetUnqueued(s, c, ready);
        EnqueueReady(SetTask(s, c, ready), c);
        CurrentInv(Enqueue(SetTask(s, c, ready), p, c), None);
      }
    }
  }

  lemma AddInv(s: Sched, template: Task)
    requires Inv(s)
    ensures Inv(Add(s, template))
  {
    if s.taskCount < MAX_TASKS {
      var t := s.taskCount;
      var task := template.(state := Ready, priority := 2, savedPriority := 2, ticksLeft := TimeSlice(2));
      NotReadyNotQueued(s, t);
      SetUnqueued(s, t, task);
      var s1 := SetTask(s, t, task);
      CountInv(s1);
      EnqueueReady(s1.(taskCount := t + 1), t);
    }
  }

  lemma SpawnInv(s: Sched, kstack: bool)
    requires Inv(s)
    ensures Inv(Spawn(s, kstack).0)
  {
    var t := SpawnSlot(s, 0);
    if t < MAX_TASKS {
      NotReadyNotQueued(s, t);
      SetUnqueued(s, t, FreshTask(t));
      var s1 := SetTask(s, t, FreshTask(t));
      if kstack {
        if t == s.taskCount { CountInv(s1); }
        EnqueueReady(if t == s.taskCount then s1.(taskCount := s.taskCount + 1) else s1, t);
      }
    }
  }

  /** Changing a task and taking it out of its queue can be done in either order. */
  lemma RemoveSetInv(s: Sched, t: nat, task: Task)
    requires Inv(s) && t < MAX_TASKS && task.priority < MLFQ_LEVELS && task.savedPriority < MLFQ_LEVELS
    ensures var s' := Remove(SetTask(s, t, task), s.tasks[t].priority, t); Inv(s') && !Queued(s', t)
  {
    RemoveUnqueues(s, t);
    SetUnqueued(Remove(s, s.tasks[t].priority, t), t, task);
    assert Remove(SetTask(s, t, task), s.tasks[t].priority, t) == SetTask(Remove(s, s.tasks[t].priority, t), t, task);
  }

  lemma BlockInv(s: Sched, t: nat)
    requires Inv(s) && t < MAX_TASKS
    ensures Inv(Block(s, t))
  {
    if t < s.taskCount {
      RemoveSetInv(s, t, s.tasks[t].(state := Blocked));
      UnsetInv(Remove(SetTask(s, t, s.tasks[t].(state := Blocked)), s.tasks[t].priority, t), t);
    }
  }

  lemma WakeInv(s: Sched, t: nat)
    requires Inv(s) && t < MAX_TASKS
    ensures Inv(Wake(s, t))
  {
    if t < s.taskCount && s.tasks[t].state == Blocked {
      var p := s.tasks[t].savedPriority;
      var task := s.tasks[t].(state := Ready, priority := p, ticksLeft := TimeSlice(p));
      NotReadyNotQueued(s, t);
      SetUnqueued(s, t, task);
      EnqueueReady(SetTask(s, t, task), t);
    }
  }

  lemma BlockOnInv(s: Sched, kind: WaitKind, arg: nat)
    requires Inv(s)
    ensures Inv(BlockOn(s, kind, arg))
  {
    if s.current.Some? {
      var t := s.current.value;
      RemoveSetInv(s, t, s.tasks[t].(state := Blocked, waitKind := kind, waitArg := arg));
    }
  }

  lemma {:induction false} WakeCondInv(s: Sched, kind: WaitKind, arg: nat, n: nat)
    requires Inv(s) && n <= s.taskCount
    ensures Inv(WakeCondBelow(s, kind, arg, n))
  {
    if n > 0 {
      WakeCondInv(s, kind, arg, n - 1);
      WakeInv(WakeCondBelow(s, kind, arg, n - 1), n - 1);
    }
  }

  lemma {:induction false} WakeSelectInv(s: Sched, n: nat)
    requires Inv(s) && n <= s.taskCount
    ensures Inv(WakeSelectBelow(s, n))
  {
    if n > 0 {
      WakeSelectInv(s, n - 1);
      WakeInv(WakeSelectBelow(s, n - 1), n - 1);
    }
  }

  lemma BoostInv(s: Sched, t: nat)
    requires Inv(s) && t < MAX_TASKS
    ensures Inv(Boost(s, t))
  {
    if t < s.taskCount {
      var task := s.tasks[t].(savedPriority := s.tasks[t].priority, priority := 0, ticksLeft := TimeSlice(0), state := Ready);
      RemoveSetInv(s, t, task);
      EnqueueReady(Remove(SetTask(s, t, task), s.tasks[t].priority, t), t);
    }
  }

  lemma KillInv(s: Sched, t: nat)
    requires Inv(s)
    ensures Inv(Kill(s, t))
  {
    if t < s.taskCount && s.tasks[t].state != Zombie {
      RemoveSetInv(s, t, s.tasks[t].(state := Zombie));
      UnsetInv(Remove(SetTask(s, t, s.tasks[t].(state := Zombie)), s.tasks[t].priority, t), t);
    }
  }

  lemma ExitInv(s: Sched, t: nat, code: int)
    requires Inv(s) && t < MAX_TASKS
    ensures Inv(Exit(s, t, code))
  {
    RemoveUnqueues(s, t);
    var p := s.tasks[t].priority;
    var s1 := Remove(s, p, t);
    forall l | 0 <= l < MLFQ_LEVELS ensures RemoveEverywhere(s, t).queues[l] == s1.queues[l] {
      assert t !in s1.queues[l];
    }
    assert RemoveEverywhere(s, t).queues == s1.queues;
    SetUnqueued(s1, t, s.tasks[t].(state := Zombie, exitCode := code));
  }

  lemma ReapInv(s: Sched, t: nat)
    requires Inv(s) && t < MAX_TASKS
    ensures Inv(Reap(s, t))
  {
    if s.tasks[t].state == Zombie {
      NotReadyNotQueued(s, t);
      SetUnqueued(s, t, s.tasks[t].(state := Reaped));
    }
  }

  lemma RequeueInv(s: Sched, t: nat)
    requires Inv(s) && t < s.taskCount
    ensures Inv(Requeue(s, t))
  {
    if s.tasks[t].state == Running {
      NotReadyNotQueued(s, t);
      SetUnqueued(s, t, ReadyTask(s.tasks[t]));
      EnqueueReady(SetTask(s, t, ReadyTask(s.tasks[t])), t);
      UnsetInv(Enqueue(SetTask(s, t, ReadyTask(s.tasks[t])), s.tasks[t].priority, t), t);
    }
  }

  // ---------------------------------------------------------------------------------------------
  // Whole runs
  // ---------------------------------------------------------------------------------------------

  datatype Call =
    | DoNext | DoTick | DoAdd(template: Task) | DoSpawn(kstack: bool)
    | DoBlock(blocked: nat) | DoWake(woken: nat) | DoBlockOn(kind: WaitKind, arg: nat) | DoWakeCond(wakeKind: WaitKind, wakeArg: nat) | DoWakeSelect
    | DoBoost(boosted: nat) | DoKill(killed: nat) | DoExit(exited: nat, code: int) | DoReap(reaped: nat) | DoRequeue(requeued: nat)
    | DoSetCurrent(current: Option<nat>)

  /** The pointers that callers hand in point into the task table; requeue and the main loop's own
      assignment of current_task use tasks that have been created. */
  predicate CallOk(s: Sched, c: Call) {
    match c
    case DoBlock(t) => t < MAX_TASKS
    case DoWake(t) => t < MAX_TASKS
    case DoBoost(t) => t < MAX_TASKS
    case DoExit(t, _) => t < MAX_TASKS
    case DoReap(t) => t < MAX_TASKS
    case DoRequeue(t) => t < s.taskCount
    case DoSetCurrent(c) => c.Some? ==> c.value < s.taskCount
    case _ => true
  }

  function Apply(s: Sched, c: Call): Sched
    requires Shape(s) && s.taskCount <= MAX_TASKS && CallOk(s, c)
  {
    match c
    case DoNext => Next(s).0
    case DoTick => Tick(s)
    case DoAdd(template) => Add(s, template)
    case DoSpawn(kstack) => Spawn(s, kstack).0
    case DoBlock(t) => Block(s, t)
    case DoWake(t) => Wake(s, t)
    case DoBlockOn(kind, arg) => BlockOn(s, kind, arg)
    case DoWakeCond(kind, arg) => WakeCond(s, kind, arg)
    case DoWakeSelect => WakeSelect(s)
    case DoBoost(t) => Boost(s, t)
    case DoKill(t) => Kill(s, t)
    case DoExit(t, code) => Exit(s, t, code)
    case DoReap(t) => Reap(s, t)
    case DoRequeue(t) => Requeue(s, t)
    case DoSetCurrent(c) => s.(current := c)
  }

  lemma ApplyInv(s: Sched, c: Call)
    requires Inv(s) && CallOk(s, c)
    ensures Inv(Apply(s, c))
  {
    match c
    case DoNext => NextPicksBest(s);
    case DoTick => TickInv(s);
    case DoAdd(template) => AddInv(s, template);
    case DoSpawn(kstack) => SpawnInv(s, kstack);
    case DoBlock(t) => BlockInv(s, t);
    case DoWake(t) => WakeInv(s, t);
    case DoBlockOn(kind, arg) => BlockOnInv(s, kind, arg);
    case DoWakeCond(kind, arg) => WakeCondInv(s, kind, arg, s.taskCount);
    case DoWakeSelect => WakeSelectInv(s, s.taskCount);
    case DoBoost(t) => BoostInv(s, t);
    case DoKill(t) => KillInv(s, t);
    case DoExit(t, code) => ExitInv(s, t, code);
    case DoReap(t) => ReapInv(s, t);
    case DoRequeue(t) => RequeueInv(s, t);
    case DoSetCurrent(c) => CurrentInv(s, c);
  }

  ghost predicate IsRun(ss: seq<Sched>, cs: seq<Call>) {
    && |ss| == |cs| + 1 && ss[0] == Init()
    && forall k :: 0 <= k < |cs| ==> Shape(ss[k]) && CallOk(ss[k], cs[k]) && ss[k + 1] == Apply(ss[k], cs[k])
  }

  /** The invariant holds in every state that any sequence of calls can reach. */
  lemma {:induction false} ReachableInv(ss: seq<Sched>, cs: seq<Call>, k: nat)
    requires IsRun(ss, cs) && k < |ss|
    ensures Inv(ss[k])
  {
    hide Apply, Inv, Shape, CallOk;
    if k == 0 {
      InitInv();
    } else {
      ReachableInv(ss, cs, k - 1);
      ApplyInv(ss[k - 1], cs[k - 1]);
    }
  }
}
