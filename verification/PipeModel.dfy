/** Pipes and the scheduler together, over values. A read or write call is cut at its blocking
    points: one step runs from the top of the loop to the next block or return, and nothing else runs
    in between, because the kernel is cooperative on one core. */
module PipeModel {
  import opened Options
  import opened Bytes
  import opened Rings
  import S = SchedulerModel

  const MAX_PIPES := 8
  const PIPE_BUFSZ := 32768

  const EBADF := -9
  const EAGAIN := -11
  const EINTR := -4
  const EPIPE := -32

  /** A pipe: the bytes in its buffer and the open ends; `sent` and `received` are all bytes ever
      copied in and out since the pipe was created. */
  datatype Pipe = Pipe(inUse: bool, contents: seq<Byte>, readers: nat, writers: nat, sent: seq<Byte>, received: seq<Byte>)

  datatype End = ReadEnd | WriteEnd

  /** A task that is inside a read or write call. */
  datatype Use = Use(pipe: nat, end: End)

  datatype Sys = Sys(sched: S.Sched, pipes: seq<Pipe>, calls: map<nat, Use>)

  datatype Outcome = Return(value: int) | Block

  predicate Shape(s: Sys) {
    && S.Shape(s.sched) && |s.pipes| == MAX_PIPES
    && forall p :: 0 <= p < MAX_PIPES ==> |s.pipes[p].contents| <= PIPE_BUFSZ
  }

  /** The task on the processor. */
  predicate Runs(s: Sys, t: nat)
    requires Shape(s)
  {
    t < s.sched.taskCount && s.sched.current == Some(t) && s.sched.tasks[t].state == S.Running
  }

  /** sched_wake_cond for one condition, then sched_wake_select_all. */
  function Notify(s: S.Sched, kind: S.WaitKind, p: nat): (r: S.Sched)
    requires S.Shape(s)
    ensures S.Shape(r)
  {
    S.WakeSelect(S.WakeCond(s, kind, p))
  }

  // ---------------------------------------------------------------------------------------------
  // Steps
  // ---------------------------------------------------------------------------------------------

  function Taken(pipe: Pipe, n: nat): Pipe
    requires n <= |pipe.contents|
  {
    pipe.(contents := pipe.contents[n..], received := pipe.received + pipe.contents[..n])
  }

  function Given(pipe: Pipe, data: seq<Byte>): Pipe {
    pipe.(contents := pipe.contents + data, sent := pipe.sent + data)
  }

  /** `n` bytes leave the ring, if any, and sleeping writers are woken. */
  function Fetched(s: Sys, p: nat, n: nat): (r: Sys)
    requires Shape(s) && p < MAX_PIPES && n <= |s.pipes[p].contents|
    ensures Shape(r)
  {
    if n == 0 then s
    else s.(pipes := s.pipes[p := Taken(s.pipes[p], n)], sched := Notify(s.sched, S.WaitPipeWr, p))
  }

  /** `data` enters the ring, if any, and sleeping readers are woken. */
  function Stored(s: Sys, p: nat, data: seq<Byte>): (r: Sys)
    requires Shape(s) && p < MAX_PIPES && |s.pipes[p].contents| + |data| <= PIPE_BUFSZ
    ensures Shape(r)
  {
    if data == [] then s
    else s.(pipes := s.pipes[p := Given(s.pipes[p], data)], sched := Notify(s.sched, S.WaitPipeRd, p))
  }

  /** The rest of a loop round, with `now` bytes of `size` moved: return, or sleep until the other end
      has done something. */
  function Finish(s: Sys, t: nat, use: Use, size: nat, now: nat, nonblock: bool): (r: (Sys, Outcome))
    requires Shape(s) && use.pipe < MAX_PIPES && now <= size
  {
    if now == size then (Leave(s, t), Return(size))
    else if use.end == ReadEnd && s.pipes[use.pipe].writers == 0 then (Leave(s, t), Return(now))
    else if use.end == WriteEnd && s.pipes[use.pipe].readers == 0 then (Leave(s, t), Return(EPIPE))
    else if nonblock then (Leave(s, t), Return(if now == 0 then EAGAIN else now))
    else (s.(sched := S.BlockOn(s.sched, if use.end == ReadEnd then S.WaitPipeRd else S.WaitPipeWr, use.pipe),
             calls := s.calls[t := use]), Block)
  }

  /** pipe_read_op from the top of its loop, with `total` bytes read so far of `size`: the bytes it
      takes now, and whether it returns or blocks. */
  function ReadStep(s: Sys, t: nat, p: nat, size: nat, total: nat, nonblock: bool): (r: (Sys, seq<Byte>, Outcome))
    requires Shape(s) && p < MAX_PIPES && total < size && t < MAX_TASKS
  {
    var pipe := s.pipes[p];
    var n := Min(size - total, |pipe.contents|);
    var data := pipe.contents[..n];
    var (s2, outcome) := Finish(Fetched(s, p, n), t, Use(p, ReadEnd), size, total + n, nonblock);
    (s2, data, outcome)
  }

  /** pipe_write_op from the top of its loop, with `total` bytes of `src` written so far. */
  function WriteStep(s: Sys, t: nat, p: nat, src: seq<Byte>, total: nat, nonblock: bool): (r: (Sys, nat, Outcome))
    requires Shape(s) && p < MAX_PIPES && total < |src| && t < MAX_TASKS
  {
    var pipe := s.pipes[p];
    var n := Min(|src| - total, PIPE_BUFSZ - |pipe.contents|);
    var data := src[total..total + n];
    var (s2, outcome) := Finish(Stored(s, p, data), t, Use(p, WriteEnd), |src|, total + n, nonblock);
    (s2, n, outcome)
  }

  /** A whole pipe_read_op call up to its first block or return, with the checks made once. */
  function ReadCall(s: Sys, t: nat, p: nat, size: nat, nonblock: bool): (r: (Sys, seq<Byte>, Outcome))
    requires Shape(s) && t < MAX_TASKS
  {
    if p >= MAX_PIPES || !s.pipes[p].inUse then (s, [], Return(EBADF))
    else if size == 0 then (s, [], Return(0))
    else ReadStep(s, t, p, size, 0, nonblock)
  }

  function WriteCall(s: Sys, t: nat, p: nat, src: seq<Byte>, nonblock: bool): (r: (Sys, nat, Outcome))
    requires Shape(s) && t < MAX_TASKS
  {
    if p >= MAX_PIPES || !s.pipes[p].inUse then (s, 0, Return(EBADF))
    else if s.pipes[p].readers == 0 then (s, 0, Return(EPIPE))
    else if src == [] then (s, 0, Return(0))
    else WriteStep(s, t, p, src, 0, nonblock)
  }

  /** The call returns: normally, or because a signal is pending after a block. */
  function Leave(s: Sys, t: nat): Sys { s.(calls := s.calls - {t}) }

  /** A pipe in use with one end less; without ends it is free. */
  function Closed(pipe: Pipe, end: End): Pipe {
    var closed := if end == ReadEnd then pipe.(readers := if pipe.readers > 0 then pipe.readers - 1 else 0)
                  else pipe.(writers := if pipe.writers > 0 then pipe.writers - 1 else 0);
    if closed.readers == 0 && closed.writers == 0 then closed.(inUse := false) else closed
  }

  /** pipe_close_op. */
  function CloseStep(s: Sys, p: nat, end: End): Sys
    requires Shape(s) && p < MAX_PIPES
  {
    if !s.pipes[p].inUse then s
    else
      var closed := Closed(s.pipes[p], end);
      if !closed.inUse then s.(pipes := s.pipes[p := closed])
      else s.(pipes := s.pipes[p := closed],
              sched := S.WakeSelect(S.WakeCond(S.WakeCond(s.sched, S.WaitPipeRd, p), S.WaitPipeWr, p)))
  }

  /** pipe_create_fds on the free slot `p`. */
  function CreateStep(s: Sys, p: nat): Sys
    requires Shape(s) && p < MAX_PIPES
  {
    if s.pipes[p].inUse then s else s.(pipes := s.pipes[p := Pipe(true, [], 1, 1, [], [])])
  }

  // ---------------------------------------------------------------------------------------------
  // The invariant
  // ---------------------------------------------------------------------------------------------

  /** Task `t` sleeps until pipe `p` has data, respectively room. */
  predicate SleepsOn(s: Sys, t: nat, kind: S.WaitKind)
    requires Shape(s)
  {
    t < s.sched.taskCount && s.sched.tasks[t].state == S.Blocked && s.sched.tasks[t].waitKind == kind
  }

  /** A sleeping reader sleeps on an empty pipe with a writer; so it has reason to. */
  predicate ReaderOk(s: Sys, t: nat)
    requires Shape(s)
  {
    SleepsOn(s, t, S.WaitPipeRd) ==>
      var p := s.sched.tasks[t].waitArg;
      p < MAX_PIPES && s.pipes[p].inUse && s.pipes[p].contents == [] && s.pipes[p].writers > 0
      && t in s.calls && s.calls[t] == Use(p, ReadEnd)
  }

  predicate WriterOk(s: Sys, t: nat)
    requires Shape(s)
  {
    SleepsOn(s, t, S.WaitPipeWr) ==>
      var p := s.sched.tasks[t].waitArg;
      p < MAX_PIPES && s.pipes[p].inUse && |s.pipes[p].contents| == PIPE_BUFSZ && s.pipes[p].readers > 0
      && t in s.calls && s.calls[t] == Use(p, WriteEnd)
  }

  /** The end that a call uses stays open while the call lasts. */
  predicate CallHeld(s: Sys, t: nat)
    requires Shape(s)
  {
    t in s.calls ==>
      var u := s.calls[t];
      u.pipe < MAX_PIPES && s.pipes[u.pipe].inUse
      && (if u.end == ReadEnd then s.pipes[u.pipe].readers > 0 else s.pipes[u.pipe].writers > 0)
  }

  /** Every byte read was written, in order, and none is lost or made up. */
  predicate Conserved(s: Sys, p: nat)
    requires Shape(s) && p < MAX_PIPES
  {
    s.pipes[p].inUse ==> s.pipes[p].sent == s.pipes[p].received + s.pipes[p].contents
  }

  ghost predicate Inv(s: Sys) {
    && Shape(s) && S.Inv(s.sched)
    && (forall t :: 0 <= t < MAX_TASKS ==> ReaderOk(s, t) && WriterOk(s, t))
    && (forall t :: t in s.calls ==> CallHeld(s, t))
    && (forall p :: 0 <= p < MAX_PIPES ==> Conserved(s, p))
  }
}
