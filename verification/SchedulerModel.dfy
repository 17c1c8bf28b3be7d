/** The scheduler over values: task table, five FIFO queues, current task. Each scheduler call is a
    function on these values; the invariant below holds in every reachable one. */
module SchedulerModel {
  import opened Options
  import opened Rings

  const MLFQ_LEVELS := 5
  const TIME_SLICE_BASE := 10
  const IDLE := 0

  datatype TaskState = Running | Ready | Blocked | Sleeping | Zombie | Reaped

  datatype WaitKind = WaitNone | WaitChild | WaitKbd | WaitPipeRd | WaitPipeWr | WaitFutex | WaitTime | WaitSelect | WaitSigtimed | WaitNet

  datatype Task = Task(state: TaskState, priority: nat, savedPriority: nat, ticksLeft: int,
                       waitKind: WaitKind, waitArg: nat, pid: nat, exitCode: int, isUser: bool)

  datatype Sched = Sched(tasks: seq<Task>, queues: seq<seq<nat>>, taskCount: nat, current: Option<nat>)

  /** time_slice_for_level. */
  function TimeSlice(level: nat): int { (MLFQ_LEVELS - level) * TIME_SLICE_BASE }

  predicate Shape(s: Sched) {
    && |s.tasks| == MAX_TASKS && |s.queues| == MLFQ_LEVELS && s.taskCount <= MAX_TASKS
    && (forall i :: 0 <= i < MAX_TASKS ==> s.tasks[i].priority < MLFQ_LEVELS && s.tasks[i].savedPriority < MLFQ_LEVELS)
    && (forall l :: 0 <= l < MLFQ_LEVELS ==> |s.queues[l]| <= MAX_TASKS)
    && (s.current.Some? ==> s.current.value < MAX_TASKS)
  }

  /** A queued task is READY and sits in the queue of its own priority. */
  ghost predicate QueuedOk(s: Sched, l: nat, k: nat)
    requires Shape(s) && l < MLFQ_LEVELS && k < |s.queues[l]|
  {
    var t := s.queues[l][k];
    t < s.taskCount && s.tasks[t].state == Ready && s.tasks[t].priority == l
  }

  ghost predicate NoDuplicates(q: seq<nat>) {
    forall i, j :: 0 <= i < j < |q| ==> q[i] != q[j]
  }

  /** What every reachable scheduler state satisfies. */
  ghost predicate Inv(s: Sched) {
    && Shape(s)
    && (forall l, k :: 0 <= l < MLFQ_LEVELS && 0 <= k < |s.queues[l]| ==> QueuedOk(s, l, k))
    && (forall l :: 0 <= l < MLFQ_LEVELS ==> NoDuplicates(s.queues[l]))
    && IDLE < s.taskCount && (s.current.Some? ==> s.current.value < s.taskCount)
  }

  predicate Queued(s: Sched, t: nat)
    requires Shape(s)
  {
    exists l :: 0 <= l < MLFQ_LEVELS && t in s.queues[l]
  }

  /** sched_init: one READY idle task that is in no queue. */
  function Init(): Sched {
    var unused := Task(Zombie, 0, 0, 0, WaitNone, 0, 0, 0, false);
    Sched(seq(MAX_TASKS, i => if i == IDLE then Task(Ready, MLFQ_LEVELS - 1, MLFQ_LEVELS - 1, 100, WaitNone, 0, 0, 0, false) else unused),
          seq(MLFQ_LEVELS, _ => []), 1, None)
  }

  // ---------------------------------------------------------------------------------------------
  // Building blocks
  // ---------------------------------------------------------------------------------------------

  /** mlfq_enqueue on level `l`, including the silent drop when the ring is full. */
  function Enqueue(s: Sched, l: nat, t: nat): Sched
    requires Shape(s) && l < MLFQ_LEVELS
  {
    if |s.queues[l]| < MAX_TASKS then s.(queues := s.queues[l := s.queues[l] + [t]]) else s
  }

  function Remove(s: Sched, l: nat, t: nat): Sched
    requires Shape(s) && l < MLFQ_LEVELS
  {
    s.(queues := s.queues[l := RemoveFirst(s.queues[l], t)])
  }

  function SetTask(s: Sched, t: nat, task: Task): Sched
    requires Shape(s) && t < MAX_TASKS && task.priority < MLFQ_LEVELS && task.savedPriority < MLFQ_LEVELS
  {
    s.(tasks := s.tasks[t := task])
  }

  function Unset(s: Sched, t: nat): Sched {
    if s.current == Some(t) then s.(current := None) else s
  }

  // ---------------------------------------------------------------------------------------------
  // The scheduler calls
  // ---------------------------------------------------------------------------------------------

  function ReadyTask(t: Task): Task { t.(state := Ready) }

  /** sched_next from level `l` on: the first task of each non-empty queue is taken; one that is not
      READY is dropped, and the search goes on with the next level; then the idle task. */
  function NextFrom(s: Sched, l: nat): (r: (Sched, int))
    requires Shape(s) && l <= MLFQ_LEVELS
    decreases MLFQ_LEVELS - l
  {
    if l == MLFQ_LEVELS then
      if s.tasks[IDLE].state == Ready
      then (SetTask(s, IDLE, s.tasks[IDLE].(state := Running)).(current := Some(IDLE)), IDLE)
      else (s, -1)
    else if s.queues[l] == [] then NextFrom(s, l + 1)
    else
      var t := s.queues[l][0];
      var s' := s.(queues := s.queues[l := s.queues[l][1..]]);
      if t < MAX_TASKS && s.tasks[t].state == Ready then (Dispatch(s', t), t) else NextFrom(s', l + 1)
  }

  function Dispatch(s: Sched, t: nat): Sched
    requires Shape(s) && t < MAX_TASKS
  {
    var task := s.tasks[t];
    SetTask(s, t, task.(state := Running, ticksLeft := if task.ticksLeft <= 0 then TimeSlice(task.priority) else task.ticksLeft))
      .(current := Some(t))
  }

  function Next(s: Sched): (r: (Sched, int))
    requires Shape(s)
  {
    NextFrom(s, 0)
  }

  /** sched_tick. */
  function Tick(s: Sched): Sched
    requires Shape(s)
  {
    if s.current == None || s.tasks[s.current.value].state != Running then s
    else
      var c := s.current.value;
      var task := s.tasks[c].(ticksLeft := s.tasks[c].ticksLeft - 1);
      if task.ticksLeft > 0 then SetTask(s, c, task)
      else
        var p := if task.priority < MLFQ_LEVELS - 1 then task.priority + 1 else task.priority;
        Enqueue(SetTask(s, c, task.(priority := p, state := Ready)), p, c).(current := None)
  }

  /** The entry that sched_spawn_process fills in. */
  function FreshTask(t: nat): Task { Task(Ready, 2, 2, 3 * TIME_SLICE_BASE, WaitNone, 0, t, 0, true) }

  /** sched_add and sched_create_user_task: the next unused slot, filled from a caller's template of
      which the scheduling fields are overwritten. */
  function Add(s: Sched, template: Task): Sched
    requires Shape(s)
  {
    if s.taskCount >= MAX_TASKS then s
    else
      var task := template.(state := Ready, priority := 2, savedPriority := 2, ticksLeft := TimeSlice(2));
      Enqueue(SetTask(s, s.taskCount, task).(taskCount := s.taskCount + 1), 2, s.taskCount)
  }

  /** The slot that sched_spawn_process uses: the first REAPED one, else the next unused one. */
  function SpawnSlot(s: Sched, i: nat): (r: nat)
    requires Shape(s) && i <= s.taskCount
    ensures i <= r <= s.taskCount
    ensures r < s.taskCount ==> s.tasks[r].state == Reaped
    decreases s.taskCount - i
  {
    if i == s.taskCount || s.tasks[i].state == Reaped then i else SpawnSlot(s, i + 1)
  }

  /** sched_spawn_process; `kstack` says whether the kernel stack could be allocated. When it could
      not, the slot stays READY without being queued. */
  function Spawn(s: Sched, kstack: bool): (r: (Sched, Option<nat>))
    requires Shape(s)
  {
    var t := SpawnSlot(s, 0);
    if t == MAX_TASKS then (s, None)
    else
      var s1 := SetTask(s, t, FreshTask(t));
      if !kstack then (s1, None)
      else
        var s2 := if t == s.taskCount then s1.(taskCount := s.taskCount + 1) else s1;
        (Enqueue(s2, 2, t), Some(t))
  }

  /** sched_block. */
  function Block(s: Sched, t: nat): Sched
    requires Shape(s) && t < MAX_TASKS
  {
    if t >= s.taskCount then s
    else Unset(Remove(SetTask(s, t, s.tasks[t].(state := Blocked)), s.tasks[t].priority, t), t)
  }

  /** sched_wake. */
  function Wake(s: Sched, t: nat): Sched
    requires Shape(s) && t < MAX_TASKS
  {
    if t >= s.taskCount || s.tasks[t].state != Blocked then s
    else
      var p := s.tasks[t].savedPriority;
      Enqueue(SetTask(s, t, s.tasks[t].(state := Ready, priority := p, ticksLeft := TimeSlice(p))), p, t)
  }

  /** sched_block_and_switch, up to the switch: the current task blocks on a condition. It stays the
      current task. */
  function BlockOn(s: Sched, kind: WaitKind, arg: nat): Sched
    requires Shape(s)
  {
    if s.current == None then s
    else
      var t := s.current.value;
      Remove(SetTask(s, t, s.tasks[t].(state := Blocked, waitKind := kind, waitArg := arg)), s.tasks[t].priority, t)
  }

  /** sched_wake_cond over the tasks below `n`. */
  function WakeCondBelow(s: Sched, kind: WaitKind, arg: nat, n: nat): (r: Sched)
    requires Shape(s) && n <= s.taskCount
    ensures Shape(r) && r.taskCount == s.taskCount
  {
    if n == 0 then s
    else
      var s1 := WakeCondBelow(s, kind, arg, n - 1);
      WakeIf(s1, kind, arg, n - 1)
  }

  function WakeIf(s: Sched, kind: WaitKind, arg: nat, t: nat): (r: Sched)
    requires Shape(s) && t < MAX_TASKS
    ensures Shape(r) && r.taskCount == s.taskCount
  {
    if s.tasks[t].state == Blocked && s.tasks[t].waitKind == kind && s.tasks[t].waitArg == arg then Wake(s, t) else s
  }

  function WakeCond(s: Sched, kind: WaitKind, arg: nat): (r: Sched)
    requires Shape(s)
    ensures Shape(r) && r.taskCount == s.taskCount
  {
    WakeCondBelow(s, kind, arg, s.taskCount)
  }

  /** sched_wake_select_all over the tasks below `n`: all tasks that wait in poll or select. */
  function WakeSelectBelow(s: Sched, n: nat): (r: Sched)
    requires Shape(s) && n <= s.taskCount
    ensures Shape(r) && r.taskCount == s.taskCount
  {
    if n == 0 then s
    else
      var s1 := WakeSelectBelow(s, n - 1);
      if s1.tasks[n - 1].state == Blocked && s1.tasks[n - 1].waitKind == WaitSelect then Wake(s1, n - 1) else s1
  }

  function WakeSelect(s: Sched): (r: Sched)
    requires Shape(s)
    ensures Shape(r) && r.taskCount == s.taskCount
  {
    WakeSelectBelow(s, s.taskCount)
  }

  /** sched_boost. */
  function Boost(s: Sched, t: nat): Sched
    requires Shape(s) && t < MAX_TASKS
  {
    if t >= s.taskCount then s
    else
      var task := s.tasks[t];
      var boosted := task.(savedPriority := task.priority, priority := 0, ticksLeft := TimeSlice(0), state := Ready);
      var s1 := Remove(SetTask(s, t, boosted), task.priority, t);
      Enqueue(s1, 0, t)
  }

  /** sched_kill. */
  function Kill(s: Sched, t: nat): Sched
    requires Shape(s)
  {
    if t >= s.taskCount || s.tasks[t].state == Zombie then s
    else Unset(Remove(SetTask(s, t, s.tasks[t].(state := Zombie)), s.tasks[t].priority, t), t)
  }

  function RemoveEverywhere(s: Sched, t: nat): (r: Sched)
    requires Shape(s)
    ensures Shape(r)
  {
    s.(queues := seq(MLFQ_LEVELS, l requires 0 <= l < MLFQ_LEVELS => RemoveFirst(s.queues[l], t)))
  }

  /** sched_mark_exited and sched_user_task_exit. */
  function Exit(s: Sched, t: nat, code: int): Sched
    requires Shape(s) && t < MAX_TASKS
  {
    SetTask(RemoveEverywhere(s, t), t, s.tasks[t].(state := Zombie, exitCode := code))
  }

  /** wait4 and sched_force_reap: a zombie's slot becomes free. */
  function Reap(s: Sched, t: nat): Sched
    requires Shape(s) && t < MAX_TASKS
  {
    if s.tasks[t].state == Zombie then SetTask(s, t, s.tasks[t].(state := Reaped)) else s
  }

  /** sched_requeue. */
  function Requeue(s: Sched, t: nat): Sched
    requires Shape(s) && t < MAX_TASKS
  {
    if s.tasks[t].state != Running then s
    else Unset(Enqueue(SetTask(s, t, ReadyTask(s.tasks[t])), s.tasks[t].priority, t), t)
  }
}
