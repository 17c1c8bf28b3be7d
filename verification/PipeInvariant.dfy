/** No wakeup is ever lost: in every reachable state a task that sleeps on a pipe has reason to. */
module PipeInvariant {
  import opened Bytes
  import opened Options
  import opened Rings
  import S = SchedulerModel
  import SI = SchedulerInvariant
  import opened PipeModel

  // ---------------------------------------------------------------------------------------------
  // What waking does to the task table
  // ---------------------------------------------------------------------------------------------

  predicate Matches(t: S.Task, kind: S.WaitKind, arg: nat) {
    t.state == S.Blocked && t.waitKind == kind && t.waitArg == arg
  }

  lemma {:induction false} WakeCondTasks(s: S.Sched, kind: S.WaitKind, arg: nat, n: nat)
    requires S.Shape(s) && n <= s.taskCount
    ensures var s' := S.WakeCondBelow(s, kind, arg, n);
            && s'.current == s.current
            && forall t :: 0 <= t < MAX_TASKS ==>
                 if t < n && Matches(s.tasks[t], kind, arg) then s'.tasks[t].state == S.Ready else s'.tasks[t] == s.tasks[t]
  {
    if n > 0 {
      WakeCondTasks(s, kind, arg, n - 1);
    }
  }

  lemma {:induction false} WakeSelectTasks(s: S.Sched, n: nat)
    requires S.Shape(s) && n <= s.taskCount
    ensures var s' := S.WakeSelectBelow(s, n);
            && s'.current == s.current
            && forall t :: 0 <= t < MAX_TASKS ==>
                 s'.tasks[t] == s.tasks[t] || (s.tasks[t].state == S.Blocked && s.tasks[t].waitKind == S.WaitSelect
                   && s'.tasks[t].state == S.Ready)
  {
    if n > 0 {
      WakeSelectTasks(s, n - 1);
    }
  }

  /** After a notification no task sleeps on that condition, and nobody else has fallen asleep. */
  ghost predicate Notified(s: S.Sched, s': S.Sched, kind: S.WaitKind, p: nat)
    requires S.Shape(s) && S.Shape(s')
  {
    && s'.taskCount == s.taskCount && s'.current == s.current
    && forall t :: 0 <= t < s.taskCount ==>
         && (s'.tasks[t] == s.tasks[t] || (s.tasks[t].state == S.Blocked && s'.tasks[t].state == S.Ready))
         && !Matches(s'.tasks[t], kind, p)
  }

  lemma NotifyWakes(s: S.Sched, kind: S.WaitKind, p: nat)
    requires S.Inv(s)
    ensures S.Inv(Notify(s, kind, p)) && Notified(s, Notify(s, kind, p), kind, p)
  {
    hide S.WakeCondBelow, S.WakeSelectBelow, S.QueuedOk, S.NoDuplicates;
    SI.WakeCondInv(s, kind, p, s.taskCount);
    WakeCondTasks(s, kind, p, s.taskCount);
    var s1 := S.WakeCond(s, kind, p);
    SI.WakeSelectInv(s1, s1.taskCount);
    WakeSelectTasks(s1, s1.taskCount);
  }

  // ---------------------------------------------------------------------------------------------
  // Scheduler activity in general
  // ---------------------------------------------------------------------------------------------

  predicate OnPipe(t: S.Task) { t.state == S.Blocked && (t.waitKind == S.WaitPipeRd || t.waitKind == S.WaitPipeWr) }

  /** Nobody has newly fallen asleep on a pipe. */
  ghost predicate NoNewSleepers(s: S.Sched, s': S.Sched) {
    && S.Shape(s) && S.Shape(s')
    && forall t :: 0 <= t < s'.taskCount && OnPipe(s'.tasks[t]) ==> t < s.taskCount && Asleep(s, s', t)
  }

  predicate Asleep(s: S.Sched, s': S.Sched, t: nat)
    requires S.Shape(s) && S.Shape(s') && t < MAX_TASKS
  {
    OnPipe(s.tasks[t]) && s.tasks[t].waitKind == s'.tasks[t].waitKind && s.tasks[t].waitArg == s'.tasks[t].waitArg
  }

  lemma SchedStepInv(s: Sys, sched': S.Sched)
    requires Inv(s) && S.Inv(sched') && NoNewSleepers(s.sched, sched')
    ensures Inv(s.(sched := sched'))
  {
    hide S.Inv;
    var s' := s.(sched := sched');
    forall t | 0 <= t < MAX_TASKS ensures ReaderOk(s', t) && WriterOk(s', t) {
      assert ReaderOk(s, t) && WriterOk(s, t);
    }
    forall t | t in s'.calls ensures CallHeld(s', t) { assert CallHeld(s, t); }
    forall p | 0 <= p < MAX_PIPES ensures Conserved(s', p) { assert Conserved(s, p); }
  }

  /** The scheduler calls that other code may make at any time: everything but the blocking calls on
      pipe conditions, and the doorbell block, which keeps a stale wait condition and has no caller. */
  predicate Harmless(c: SI.Call) {
    match c
    case DoBlock(_) => false
    case DoBlockOn(kind, _) => kind != S.WaitPipeRd && kind != S.WaitPipeWr
    case _ => true
  }

  lemma HarmlessCall(s: S.Sched, c: SI.Call)
    requires S.Inv(s) && SI.CallOk(s, c) && Harmless(c)
    ensures S.Inv(SI.Apply(s, c)) && NoNewSleepers(s, SI.Apply(s, c))
  {
    hide S.NextFrom, S.WakeCondBelow, S.WakeSelectBelow;
    SI.ApplyInv(s, c);
    match c
    case DoNext => NextNoSleepers(s, 0);
    case DoWakeCond(kind, arg) => WakeCondTasks(s, kind, arg, s.taskCount);
    case DoWakeSelect => WakeSelectTasks(s, s.taskCount);
    case _ =>
  }

  lemma {:induction false} NextNoSleepers(s: S.Sched, l: nat)
    requires S.Shape(s) && l <= S.MLFQ_LEVELS
    ensures S.Shape(S.NextFrom(s, l).0) && NoNewSleepers(s, S.NextFrom(s, l).0)
    decreases S.MLFQ_LEVELS - l
  {
    if l < S.MLFQ_LEVELS {
      if s.queues[l] == [] {
        NextNoSleepers(s, l + 1);
      } else {
        var s' := s.(queues := s.queues[l := s.queues[l][1..]]);
        NextNoSleepers(s', l + 1);
      }
    }
  }

  lemma OtherActivity(s: Sys, c: SI.Call)
    requires Inv(s) && SI.CallOk(s.sched, c) && Harmless(c)
    ensures Inv(s.(sched := SI.Apply(s.sched, c)))
  {
    HarmlessCall(s.sched, c);
    SchedStepInv(s, SI.Apply(s.sched, c));
  }

  lemma LeaveInv(s: Sys, t: nat)
    requires Inv(s) && t < MAX_TASKS && !OnPipe(s.sched.tasks[t])
    ensures Inv(Leave(s, t))
  {
    hide S.Inv;
    var s' := Leave(s, t);
    forall u | 0 <= u < MAX_TASKS ensures ReaderOk(s', u) && WriterOk(s', u) {
      assert ReaderOk(s, u) && WriterOk(s, u);
    }
    forall u | u in s'.calls ensures CallHeld(s', u) { assert CallHeld(s, u); }
    forall p | 0 <= p < MAX_PIPES ensures Conserved(s', p) { assert Conserved(s, p); }
  }

  // ---------------------------------------------------------------------------------------------
  // Reading and writing
  // ---------------------------------------------------------------------------------------------

  /** Pipe `p` has changed its contents, and whoever waited for that has been notified. */
  lemma MovedInv(s: Sys, p: nat, pipe': Pipe, kind: S.WaitKind)
    requires Inv(s) && p < MAX_PIPES && s.pipes[p].inUse
    requires pipe'.inUse && pipe'.readers == s.pipes[p].readers && pipe'.writers == s.pipes[p].writers
    requires |pipe'.contents| <= PIPE_BUFSZ && pipe'.sent == pipe'.received + pipe'.contents
    requires (kind == S.WaitPipeWr && s.pipes[p].contents != []) || (kind == S.WaitPipeRd && |s.pipes[p].contents| < PIPE_BUFSZ)
    ensures Inv(s.(pipes := s.pipes[p := pipe'], sched := Notify(s.sched, kind, p)))
  {
    hide S.Inv, Notify;
    var s' := s.(pipes := s.pipes[p := pipe'], sched := Notify(s.sched, kind, p));
    NotifyWakes(s.sched, kind, p);
    forall t | 0 <= t < MAX_TASKS ensures ReaderOk(s', t) && WriterOk(s', t) {
      assert ReaderOk(s, t) && WriterOk(s, t);
    }
    forall t | t in s'.calls ensures CallHeld(s', t) { assert CallHeld(s, t); }
    forall q | 0 <= q < MAX_PIPES ensures Conserved(s', q) { assert Conserved(s, q); }
  }

  /** The running task goes to sleep on a condition that does not hold. */
  lemma SleepInv(s: Sys, t: nat, p: nat, end: End)
    requires Inv(s) && Runs(s, t) && p < MAX_PIPES && s.pipes[p].inUse
    requires end == ReadEnd ==> s.pipes[p].contents == [] && s.pipes[p].writers > 0 && s.pipes[p].readers > 0
    requires end == WriteEnd ==> |s.pipes[p].contents| == PIPE_BUFSZ && s.pipes[p].readers > 0 && s.pipes[p].writers > 0
    ensures var kind := if end == ReadEnd then S.WaitPipeRd else S.WaitPipeWr;
            Inv(s.(sched := S.BlockOn(s.sched, kind, p), calls := s.calls[t := Use(p, end)]))
  {
    var kind := if end == ReadEnd then S.WaitPipeRd else S.WaitPipeWr;
    var s' := s.(sched := S.BlockOn(s.sched, kind, p), calls := s.calls[t := Use(p, end)]);
    SI.BlockOnInv(s.sched, kind, p);
    forall u | 0 <= u < MAX_TASKS ensures ReaderOk(s', u) && WriterOk(s', u) {
      assert ReaderOk(s, u) && WriterOk(s, u);
    }
    forall u | u in s'.calls ensures CallHeld(s', u) { if u != t { assert CallHeld(s, u); } }
    forall q | 0 <= q < MAX_PIPES ensures Conserved(s', q) { assert Conserved(s, q); }
  }

  lemma NotifiedRuns(s: Sys, s1: Sys, t: nat, kind: S.WaitKind, p: nat)
    requires S.Inv(s.sched) && Shape(s) && Shape(s1) && s1.sched == Notify(s.sched, kind, p) && Runs(s, t)
    ensures Runs(s1, t)
  {
    hide S.Inv, Notify;
    NotifyWakes(s.sched, kind, p);
  }

  /** A step of a read call keeps the invariant; if it blocks, the pipe is empty and has a writer. */
  lemma ReadStepInv(s: Sys, t: nat, p: nat, size: nat, total: nat, nonblock: bool)
    requires Inv(s) && Runs(s, t) && p < MAX_PIPES && s.pipes[p].inUse && s.pipes[p].readers > 0 && total < size
    ensures Inv(ReadStep(s, t, p, size, total, nonblock).0)
  {
    hide S.Inv, Notify, S.BlockOn;
    var pipe := s.pipes[p];
    var n := Min(size - total, |pipe.contents|);
    var data := pipe.contents[..n];
    assert Conserved(s, p);
    var s1 := s;
    if n > 0 {
      var pipe' := pipe.(contents := pipe.contents[n..], received := pipe.received + data);
      assert pipe.contents == data + pipe.contents[n..];
      assert pipe'.sent == pipe'.received + pipe'.contents;
      s1 := s.(pipes := s.pipes[p := pipe'], sched := Notify(s.sched, S.WaitPipeWr, p));
      MovedInv(s, p, pipe', S.WaitPipeWr);
      NotifiedRuns(s, s1, t, S.WaitPipeWr, p);
    }
    LeaveInv(s1, t);
    if total + n < size && pipe.writers > 0 && !nonblock {
      SleepInv(s1, t, p, ReadEnd);
    }
  }

  lemma WriteStepInv(s: Sys, t: nat, p: nat, src: seq<Byte>, total: nat, nonblock: bool)
    requires Inv(s) && Runs(s, t) && p < MAX_PIPES && s.pipes[p].inUse && s.pipes[p].writers > 0 && total < |src|
    ensures Inv(WriteStep(s, t, p, src, total, nonblock).0)
  {
    hide S.Inv, Notify, S.BlockOn;
    var pipe := s.pipes[p];
    var n := Min(|src| - total, PIPE_BUFSZ - |pipe.contents|);
    var data := src[total..total + n];
    assert Conserved(s, p);
    var s1 := s;
    if n > 0 {
      var pipe' := pipe.(contents := pipe.contents + data, sent := pipe.sent + data);
      assert pipe'.sent == pipe'.received + pipe'.contents;
      s1 := s.(pipes := s.pipes[p := pipe'], sched := Notify(s.sched, S.WaitPipeRd, p));
      MovedInv(s, p, pipe', S.WaitPipeRd);
      NotifiedRuns(s, s1, t, S.WaitPipeRd, p);
    }
    LeaveInv(s1, t);
    if total + n < |src| && pipe.readers > 0 && !nonblock {
      SleepInv(s1, t, p, WriteEnd);
    }
  }

  // ---------------------------------------------------------------------------------------------
  // Opening and closing
  // ---------------------------------------------------------------------------------------------

  lemma CreateInv(s: Sys, p: nat)
    requires Inv(s) && p < MAX_PIPES
    ensures Inv(CreateStep(s, p))
  {
    hide S.Inv;
    var s' := CreateStep(s, p);
    forall t | 0 <= t < MAX_TASKS ensures ReaderOk(s', t) && WriterOk(s', t) {
      assert ReaderOk(s, t) && WriterOk(s, t);
    }
    forall t | t in s'.calls ensures CallHeld(s', t) { assert CallHeld(s, t); }
    forall q | 0 <= q < MAX_PIPES ensures Conserved(s', q) { assert Conserved(s, q); }
  }

  lemma CloseWakes(s: S.Sched, p: nat)
    requires S.Inv(s)
    ensures var s' := S.WakeSelect(S.WakeCond(S.WakeCond(s, S.WaitPipeRd, p), S.WaitPipeWr, p));
            S.Inv(s') && Notified(s, s', S.WaitPipeRd, p) && Notified(s, s', S.WaitPipeWr, p)
  {
    hide S.WakeCondBelow, S.WakeSelectBelow, S.QueuedOk, S.NoDuplicates;
    var s1 := S.WakeCond(s, S.WaitPipeRd, p);
    SI.WakeCondInv(s, S.WaitPipeRd, p, s.taskCount);
    WakeCondTasks(s, S.WaitPipeRd, p, s.taskCount);
    var s2 := S.WakeCond(s1, S.WaitPipeWr, p);
    SI.WakeCondInv(s1, S.WaitPipeWr, p, s1.taskCount);
    WakeCondTasks(s1, S.WaitPipeWr, p, s1.taskCount);
    SI.WakeSelectInv(s2, s2.taskCount);
    WakeSelectTasks(s2, s2.taskCount);
  }

  /** Closing an end that no call in progress uses keeps the invariant. */
  lemma CloseInv(s: Sys, p: nat, end: End)
    requires Inv(s) && p < MAX_PIPES
    requires forall t :: t in s.calls ==> s.calls[t] != Use(p, end)
    ensures Inv(CloseStep(s, p, end))
  {
    hide S.Inv, S.WakeCond, S.WakeSelect;
    var s' := CloseStep(s, p, end);
    CloseWakes(s.sched, p);
    forall t | 0 <= t < MAX_TASKS ensures ReaderOk(s', t) && WriterOk(s', t) {
      assert ReaderOk(s, t) && WriterOk(s, t);
      if t in s.calls { assert CallHeld(s, t); }
    }
    forall t | t in s'.calls ensures CallHeld(s', t) { assert CallHeld(s, t); }
    forall q | 0 <= q < MAX_PIPES ensures Conserved(s', q) { assert Conserved(s, q); }
  }

  /** Every sleeper on a pipe sleeps for good reason, whatever calls are in progress. */
  ghost predicate NoLostWakeup(s: Sys) {
    && Shape(s)
    && forall t :: 0 <= t < s.sched.taskCount && OnPipe(s.sched.tasks[t]) ==> HasReason(s, t)
  }

  predicate HasReason(s: Sys, t: nat)
    requires Shape(s) && t < MAX_TASKS
  {
    var p := s.sched.tasks[t].waitArg;
    && p < MAX_PIPES && s.pipes[p].inUse
    && if s.sched.tasks[t].waitKind == S.WaitPipeRd then s.pipes[p].contents == [] && s.pipes[p].writers > 0
       else |s.pipes[p].contents| == PIPE_BUFSZ && s.pipes[p].readers > 0
  }

  lemma InvNoLostWakeup(s: Sys)
    requires Inv(s)
    ensures NoLostWakeup(s)
  {
    forall t | 0 <= t < s.sched.taskCount && OnPipe(s.sched.tasks[t]) ensures HasReason(s, t) {
      assert ReaderOk(s, t) && WriterOk(s, t);
    }
  }

  /** The close that frees the pipe. */
  predicate LastClose(s: Sys, p: nat, end: End)
    requires Shape(s) && p < MAX_PIPES
  {
    s.pipes[p].inUse && if end == ReadEnd then s.pipes[p].readers <= 1 && s.pipes[p].writers == 0
                        else s.pipes[p].writers <= 1 && s.pipes[p].readers == 0
  }

  /** Without any assumption on who closes what: a close loses a wakeup exactly when it frees the pipe
      while a task sleeps on it, because the freeing branch wakes nobody. */
  lemma CloseLosesIff(s: Sys, p: nat, end: End)
    requires S.Inv(s.sched) && NoLostWakeup(s) && p < MAX_PIPES
    ensures NoLostWakeup(CloseStep(s, p, end)) <==>
            !(LastClose(s, p, end) && exists t :: 0 <= t < s.sched.taskCount && OnPipe(s.sched.tasks[t]) && s.sched.tasks[t].waitArg == p)
  {
    hide S.Inv, S.WakeCond, S.WakeSelect;
    var s' := CloseStep(s, p, end);
    CloseWakes(s.sched, p);
    if LastClose(s, p, end) {
      assert s'.sched == s.sched && !s'.pipes[p].inUse;
      if t :| 0 <= t < s.sched.taskCount && OnPipe(s.sched.tasks[t]) && s.sched.tasks[t].waitArg == p {
        assert !HasReason(s', t);
      } else {
        forall t | 0 <= t < s'.sched.taskCount && OnPipe(s'.sched.tasks[t]) ensures HasReason(s', t) { assert HasReason(s, t); }
      }
    } else {
      forall t | 0 <= t < s'.sched.taskCount && OnPipe(s'.sched.tasks[t]) ensures HasReason(s', t) { assert HasReason(s, t); }
    }
  }

  // ---------------------------------------------------------------------------------------------
  // Whole runs
  // ---------------------------------------------------------------------------------------------

  datatype Step =
    | Read(reader: nat, from: nat, size: nat, got: nat, nonblockR: bool)
    | Write(writer: nat, to: nat, src: seq<Byte>, put: nat, nonblockW: bool)
    | ReturnEarly(leaver: nat)
    | Close(closed: nat, end: End)
    | Create(created: nat)
    | Scheduler(call: SI.Call)

  /** When a step can happen. A read or write is made by the running task: through an end that is open, or in a call
      that is in progress, which does not look again. A call can be given up by a task that is not asleep. */
  predicate Possible(s: Sys, step: Step)
    requires Shape(s)
  {
    match step
    case Read(t, p, size, total, _) =>
      && Runs(s, t) && p < MAX_PIPES && total < size
      && ((s.pipes[p].inUse && s.pipes[p].readers > 0) || (t in s.calls && s.calls[t] == Use(p, ReadEnd)))
    case Write(t, p, src, total, _) =>
      && Runs(s, t) && p < MAX_PIPES && total < |src|
      && ((s.pipes[p].inUse && s.pipes[p].writers > 0) || (t in s.calls && s.calls[t] == Use(p, WriteEnd)))
    case ReturnEarly(t) => t < MAX_TASKS && !OnPipe(s.sched.tasks[t])
    case Close(p, _) => p < MAX_PIPES
    case Create(p) => p < MAX_PIPES
    case Scheduler(c) => SI.CallOk(s.sched, c) && Harmless(c)
  }

  /** The steps of a system in which an end is not closed while a call uses it. */
  predicate Enabled(s: Sys, step: Step)
    requires Shape(s)
  {
    && Possible(s, step)
    && match step
       case Read(_, p, _, _, _) => s.pipes[p].inUse && s.pipes[p].readers > 0
       case Write(_, p, _, _, _) => s.pipes[p].inUse && s.pipes[p].writers > 0
       case Close(p, end) => forall t :: t in s.calls ==> s.calls[t] != Use(p, end)
       case _ => true
  }

  function Run(s: Sys, step: Step): Sys
    requires Shape(s) && Possible(s, step)
  {
    match step
    case Read(t, p, size, total, nonblock) => ReadStep(s, t, p, size, total, nonblock).0
    case Write(t, p, src, total, nonblock) => WriteStep(s, t, p, src, total, nonblock).0
    case ReturnEarly(t) => Leave(s, t)
    case Close(p, end) => CloseStep(s, p, end)
    case Create(p) => CreateStep(s, p)
    case Scheduler(c) => s.(sched := SI.Apply(s.sched, c))
  }

  lemma RunInv(s: Sys, step: Step)
    requires Inv(s) && Enabled(s, step)
    ensures Inv(Run(s, step))
  {
    hide ReadStep, WriteStep, CloseStep, CreateStep, S.Inv;
    match step
    case Read(t, p, size, total, nonblock) => ReadStepInv(s, t, p, size, total, nonblock);
    case Write(t, p, src, total, nonblock) => WriteStepInv(s, t, p, src, total, nonblock);
    case ReturnEarly(t) => LeaveInv(s, t);
    case Close(p, end) => CloseInv(s, p, end);
    case Create(p) => CreateInv(s, p);
    case Scheduler(c) => OtherActivity(s, c);
  }

  function Start(): Sys { Sys(S.Init(), seq(MAX_PIPES, _ => Pipe(false, [], 0, 0, [], [])), map[]) }

  ghost predicate IsRun(ss: seq<Sys>, steps: seq<Step>) {
    && |ss| == |steps| + 1 && ss[0] == Start()
    && forall k :: 0 <= k < |steps| ==> Shape(ss[k]) && Enabled(ss[k], steps[k]) && ss[k + 1] == Run(ss[k], steps[k])
  }

  lemma {:induction false} ReachableInv(ss: seq<Sys>, steps: seq<Step>, k: nat)
    requires IsRun(ss, steps) && k < |ss|
    ensures Inv(ss[k])
  {
    hide Run, Enabled, Inv, Shape;
    if k == 0 {
      StartInv();
    } else {
      ReachableInv(ss, steps, k - 1);
      RunInv(ss[k - 1], steps[k - 1]);
    }
  }

  lemma StartInv()
    ensures Inv(Start())
  {
    SI.InitInv();
  }

  /** In every reachable state: no wakeup is lost, a reader and a writer never sleep on the same pipe,
      and for every pipe the bytes read are a prefix of the bytes written, the rest being in the
      buffer. */
  lemma PipesAlwaysWork(ss: seq<Sys>, steps: seq<Step>, k: nat)
    requires IsRun(ss, steps) && k < |ss|
    ensures NoLostWakeup(ss[k])
    ensures forall t, u :: 0 <= t < ss[k].sched.taskCount && 0 <= u < ss[k].sched.taskCount &&
                           SleepsOn(ss[k], t, S.WaitPipeRd) && SleepsOn(ss[k], u, S.WaitPipeWr) ==>
                             ss[k].sched.tasks[t].waitArg != ss[k].sched.tasks[u].waitArg
    ensures forall p :: 0 <= p < MAX_PIPES && ss[k].pipes[p].inUse ==>
              ss[k].pipes[p].received <= ss[k].pipes[p].sent
              && |ss[k].pipes[p].sent| == |ss[k].pipes[p].received| + |ss[k].pipes[p].contents|
  {
    hide Run, Enabled, S.Inv;
    ReachableInv(ss, steps, k);
    var s := ss[k];
    InvNoLostWakeup(s);
    forall t, u | 0 <= t < s.sched.taskCount && 0 <= u < s.sched.taskCount && SleepsOn(s, t, S.WaitPipeRd) && SleepsOn(s, u, S.WaitPipeWr)
      ensures s.sched.tasks[t].waitArg != s.sched.tasks[u].waitArg
    {
      assert ReaderOk(s, t) && WriterOk(s, u);
    }
    forall p | 0 <= p < MAX_PIPES && s.pipes[p].inUse
      ensures s.pipes[p].received <= s.pipes[p].sent && |s.pipes[p].sent| == |s.pipes[p].received| + |s.pipes[p].contents|
    {
      assert Conserved(s, p);
    }
  }

  // ---------------------------------------------------------------------------------------------
  // A run that loses a wakeup
  // ---------------------------------------------------------------------------------------------

  /** A run in which ends are closed at any time. */
  ghost predicate IsFreeRun(ss: seq<Sys>, steps: seq<Step>) {
    && |ss| == |steps| + 1 && ss[0] == Start()
    && forall k :: 0 <= k < |steps| ==> Shape(ss[k]) && Possible(ss[k], steps[k]) && ss[k + 1] == Run(ss[k], steps[k])
  }

  /** Three tasks in queue 2: what is known of tasks 1 and 2, that queue, the current task and pipe 0. */
  ghost predicate Stage(s: Sys, reader: S.TaskState, closer: S.TaskState, queue: seq<nat>, current: Option<nat>, readers: nat) {
    && Shape(s) && s.sched.taskCount == 3 && s.sched.tasks[0].state == S.Ready
    && s.sched.tasks[1].state == reader && s.sched.tasks[1].priority == 2 && s.sched.tasks[1].savedPriority == 2
    && s.sched.tasks[2].state == closer && s.sched.tasks[2].priority == 2 && s.sched.tasks[2].savedPriority == 2
    && s.sched.queues == [[], [], queue, [], []] && s.sched.current == current
    && s.pipes[0] == Pipe(true, [], readers, 1, [], []) && (reader == S.Blocked ==> AsleepOn(s, 1, 0)) && (readers == 0 ==> InRead(s))
  }

  predicate AsleepOn(s: Sys, t: nat, p: nat)
    requires Shape(s) && t < MAX_TASKS
  {
    s.sched.tasks[t].state == S.Blocked && s.sched.tasks[t].waitKind == S.WaitPipeRd && s.sched.tasks[t].waitArg == p
  }

  predicate InRead(s: Sys) { 1 in s.calls && s.calls[1] == Use(0, ReadEnd) }

  lemma NextRuns(s: Sys, t: nat, rest: seq<nat>)
    requires Shape(s) && s.sched.queues == [[], [], [t] + rest, [], []] && t < MAX_TASKS && s.sched.tasks[t].state == S.Ready
    ensures S.Next(s.sched).0 == S.Dispatch(s.sched.(queues := [[], [], rest, [], []]), t)
  {
    assert S.NextFrom(s.sched, 0) == S.NextFrom(s.sched, 1) == S.NextFrom(s.sched, 2);
    assert ([t] + rest)[1..] == rest;
    assert s.sched.queues[2 := rest] == [[], [], rest, [], []];
  }

  /** The reader, task 1, gets the processor. */
  lemma ReaderRuns(s: Sys, readers: nat) returns (s': Sys)
    requires Stage(s, S.Ready, S.Ready, [1, 2], None, readers)
    ensures s' == Run(s, Scheduler(SI.DoNext)) && Stage(s', S.Running, S.Ready, [2], Some(1), readers)
  {
    s' := Run(s, Scheduler(SI.DoNext));
    assert [1, 2] == [1] + [2];
    NextRuns(s, 1, [2]);
  }

  /** The pipe is empty and has a writer: the reader goes to sleep, even if its own end is closed. */
  lemma ReaderSleeps(s: Sys, readers: nat) returns (s': Sys)
    requires Stage(s, S.Running, S.Ready, [2], Some(1), readers)
    ensures Possible(s, Read(1, 0, 1, 0, false)) && s' == Run(s, Read(1, 0, 1, 0, false))
    ensures Stage(s', S.Blocked, S.Ready, [2], Some(1), readers) && InRead(s')
  {
    s' := Run(s, Read(1, 0, 1, 0, false));
    assert RemoveFirst([2], 1) == [2];
  }

  /** Then task 2 runs. */
  lemma CloserRuns(s: Sys, readers: nat) returns (s': Sys)
    requires Stage(s, S.Blocked, S.Ready, [2], Some(1), readers)
    ensures s' == Run(s, Scheduler(SI.DoNext)) && Stage(s', S.Blocked, S.Running, [], Some(2), readers) && s'.calls == s.calls
  {
    s' := Run(s, Scheduler(SI.DoNext));
    assert [2] == [2] + [];
    NextRuns(s, 2, []);
  }

  lemma WakesTaskOne(s: S.Sched, kind: S.WaitKind, arg: nat)
    requires S.Shape(s) && s.taskCount == 3 && s.tasks[0].state == S.Ready && s.tasks[2].state == S.Running
    ensures S.WakeCond(s, kind, arg) == S.WakeIf(s, kind, arg, 1)
  {
    hide S.Wake;
    assert S.WakeCondBelow(s, kind, arg, 1) == S.WakeCondBelow(s, kind, arg, 0) == s;
    assert S.WakeCondBelow(s, kind, arg, 2) == S.WakeIf(s, kind, arg, 1);
    assert S.WakeIf(s, kind, arg, 1).tasks[2] == s.tasks[2] by { WakesOnly(s, kind, arg); }
  }

  lemma WakesOnly(s: S.Sched, kind: S.WaitKind, arg: nat)
    requires S.Shape(s)
    ensures S.WakeIf(s, kind, arg, 1).tasks[2] == s.tasks[2]
  {
  }

  lemma NobodySelects(s: S.Sched)
    requires S.Shape(s) && s.taskCount == 3 && forall t :: 0 <= t < 3 ==> s.tasks[t].state != S.Blocked
    ensures S.WakeSelect(s) == s
  {
    hide S.Wake;
    assert S.WakeSelectBelow(s, 1) == S.WakeSelectBelow(s, 0) == s;
    assert S.WakeSelectBelow(s, 3) == S.WakeSelectBelow(s, 2);
  }

  /** The close of the read end wakes the reader. */
  lemma ReadEndWakes(s: S.Sched) returns (s': S.Sched)
    requires S.Shape(s) && s.taskCount == 3 && s.tasks[0].state == S.Ready && s.tasks[2].state == S.Running
    requires s.queues == [[], [], [], [], []] && Matches(s.tasks[1], S.WaitPipeRd, 0) && s.tasks[1].savedPriority == 2
    ensures s' == S.WakeSelect(S.WakeCond(S.WakeCond(s, S.WaitPipeRd, 0), S.WaitPipeWr, 0)) && S.Shape(s')
    ensures s' == s.(tasks := s'.tasks, queues := [[], [], [1], [], []])
    ensures s'.tasks == s.tasks[1 := s.tasks[1].(state := S.Ready, priority := 2, ticksLeft := S.TimeSlice(2))]
  {
    WakesTaskOne(s, S.WaitPipeRd, 0);
    s' := S.WakeIf(s, S.WaitPipeRd, 0, 1);
    assert [] + [1] == [1];
    WakesTaskOne(s', S.WaitPipeWr, 0);
    NobodySelects(s');
  }

  /** Task 2 closes the read end and gives up the processor. */
  lemma ReadEndClosed(s: Sys) returns (s1: Sys, s2: Sys)
    requires Stage(s, S.Blocked, S.Running, [], Some(2), 1) && InRead(s)
    ensures s1 == Run(s, Close(0, ReadEnd)) && Shape(s1) && Possible(s1, Scheduler(SI.DoRequeue(2)))
    ensures s2 == Run(s1, Scheduler(SI.DoRequeue(2))) && Stage(s2, S.Ready, S.Ready, [1, 2], None, 0)
  {
    hide S.WakeSelect, S.WakeCond;
    s1 := Run(s, Close(0, ReadEnd));
    var woken := ReadEndWakes(s.sched);
    assert [1] + [2] == [1, 2];
    s2 := Run(s1, Scheduler(SI.DoRequeue(2)));
  }

  lemma TwoAdded(a: S.Task, b: S.Task) returns (s1: S.Sched, s2: S.Sched)
    ensures S.Shape(S.Init()) && s1 == S.Add(S.Init(), a) && S.Shape(s1) && s2 == S.Add(s1, b) && S.Shape(s2)
    ensures s2.taskCount == 3 && s2.tasks[0].state == S.Ready && s2.queues == [[], [], [1, 2], [], []] && s2.current == None
    ensures forall t :: 1 <= t < 3 ==> s2.tasks[t].state == S.Ready && s2.tasks[t].priority == 2 && s2.tasks[t].savedPriority == 2
  {
    s1 := S.Add(S.Init(), a);
    assert [] + [1] == [1] && [1] + [2] == [1, 2];
    s2 := S.Add(s1, b);
  }

  lemma PipeOpened(a: S.Task, b: S.Task) returns (ss: seq<Sys>, steps: seq<Step>)
    ensures IsFreeRun(ss, steps) && |steps| == 3 && Stage(ss[3], S.Ready, S.Ready, [1, 2], None, 1)
  {
    hide S.Add, S.Init;
    var t1, t2 := TwoAdded(a, b);
    var s0 := Start();
    var s1 := Run(s0, Scheduler(SI.DoAdd(a)));
    var s2 := Run(s1, Scheduler(SI.DoAdd(b)));
    assert s2 == s0.(sched := t2);
    var s3 := Run(s2, Create(0));
    ss, steps := [s0, s1, s2, s3], [Scheduler(SI.DoAdd(a)), Scheduler(SI.DoAdd(b)), Create(0)];
  }

  lemma Extend(ss: seq<Sys>, steps: seq<Step>, step: Step) returns (ss': seq<Sys>, steps': seq<Step>)
    requires IsFreeRun(ss, steps) && Shape(ss[|steps|]) && Possible(ss[|steps|], step)
    ensures IsFreeRun(ss', steps') && steps' == steps + [step] && ss'[|steps'|] == Run(ss[|steps|], step)
  {
    hide Run, Possible, Start, Shape;
    ss', steps' := ss + [Run(ss[|steps|], step)], steps + [step];
  }

  lemma StageShape(s: Sys, reader: S.TaskState, closer: S.TaskState, queue: seq<nat>, current: Option<nat>, readers: nat)
    requires Stage(s, reader, closer, queue, current, readers)
    ensures Shape(s) && Possible(s, Scheduler(SI.DoNext)) && Possible(s, Close(0, ReadEnd)) && Possible(s, Close(0, WriteEnd))
  {
  }

  /** The pipe is freed while the reader sleeps on it. */
  lemma WriteEndClosed(s: Sys)
    requires Stage(s, S.Blocked, S.Running, [], Some(2), 0)
    ensures var s' := Run(s, Close(0, WriteEnd)); Shape(s') && !s'.pipes[0].inUse && AsleepOn(s', 1, 0) && !NoLostWakeup(s')
  {
    var s' := Run(s, Close(0, WriteEnd));
    assert OnPipe(s'.sched.tasks[1]) && !HasReason(s', 1);
  }

  /** The reader runs and sleeps, and task 2 runs. */
  lemma ReadAndBlock(ss: seq<Sys>, steps: seq<Step>, readers: nat) returns (ss': seq<Sys>, steps': seq<Step>)
    requires IsFreeRun(ss, steps) && Stage(ss[|steps|], S.Ready, S.Ready, [1, 2], None, readers)
    ensures IsFreeRun(ss', steps') && steps' == steps + [Scheduler(SI.DoNext), Read(1, 0, 1, 0, false), Scheduler(SI.DoNext)]
    ensures Stage(ss'[|steps'|], S.Blocked, S.Running, [], Some(2), readers) && InRead(ss'[|steps'|])
  {
    hide Stage, Run, Possible, Start, InRead;
    StageShape(ss[|steps|], S.Ready, S.Ready, [1, 2], None, readers);
    ss', steps' := Extend(ss, steps, Scheduler(SI.DoNext));
    var s4 := ReaderRuns(ss[|steps|], readers);
    var s5 := ReaderSleeps(s4, readers);
    StageShape(s4, S.Running, S.Ready, [2], Some(1), readers);
    ss', steps' := Extend(ss', steps', Read(1, 0, 1, 0, false));
    var s6 := CloserRuns(s5, readers);
    StageShape(s5, S.Blocked, S.Ready, [2], Some(1), readers);
    ss', steps' := Extend(ss', steps', Scheduler(SI.DoNext));
    InReadStays(s5, s6);
  }

  lemma InReadStays(s: Sys, s': Sys)
    requires s'.calls == s.calls && InRead(s)
    ensures InRead(s')
  {
  }

  /** A run to a lost wakeup: a reader sleeps on an empty pipe, its end is closed under it, it goes back to sleep
      because there is still a writer, and the writer's close frees the pipe without waking it. */
  lemma ReaderLeftAsleep(a: S.Task, b: S.Task) returns (ss: seq<Sys>, steps: seq<Step>)
    ensures IsFreeRun(ss, steps) && |steps| == 12 && steps[4] == Read(1, 0, 1, 0, false) && steps[6] == Close(0, ReadEnd)
    ensures steps[9] == Read(1, 0, 1, 0, false) && steps[11] == Close(0, WriteEnd)
    ensures var s := ss[12]; Shape(s) && !s.pipes[0].inUse && AsleepOn(s, 1, 0) && !NoLostWakeup(s)
  {
    hide Stage, Run, Possible, Start, NoLostWakeup;
    ss, steps := PipeOpened(a, b);
    ss, steps := ReadAndBlock(ss, steps, 1);
    StageShape(ss[|steps|], S.Blocked, S.Running, [], Some(2), 1);
    var s7, s8 := ReadEndClosed(ss[|steps|]);
    ss, steps := Extend(ss, steps, Close(0, ReadEnd));
    ss, steps := Extend(ss, steps, Scheduler(SI.DoRequeue(2)));
    ss, steps := ReadAndBlock(ss, steps, 0);
    StageShape(ss[|steps|], S.Blocked, S.Running, [], Some(2), 0);
    WriteEndClosed(ss[|steps|]);
    ss, steps := Extend(ss, steps, Close(0, WriteEnd));
  }
}
