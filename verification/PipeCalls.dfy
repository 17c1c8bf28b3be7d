/** Whole read and write calls: what they return, which bytes they move over all their rounds, and whom they wake. */
module PipeCalls {
  import opened Bytes
  import opened Rings
  import S = SchedulerModel
  import SI = SchedulerInvariant
  import E = SchedulerEffects
  import opened PipeModel
  import opened PipeInvariant

  // ---------------------------------------------------------------------------------------------
  // What a round returns
  // ---------------------------------------------------------------------------------------------

  /** A round of a read takes the oldest bytes, as many as there are and are wanted. It returns their number with the
      earlier ones when the request is filled, when there is no writer, or when it must not wait and has some; it
      returns EAGAIN when it must not wait and has none; otherwise it sleeps. */
  lemma ReadReturns(s: Sys, t: nat, p: nat, size: nat, total: nat, nonblock: bool)
    requires Shape(s) && p < MAX_PIPES && total < size && t < MAX_TASKS
    ensures var (s', data, o) := ReadStep(s, t, p, size, total, nonblock);
            var pipe, got := s.pipes[p], total + |data|;
            && data <= pipe.contents && (got == size || (got < size && data == pipe.contents))
            && (o == Block <==> got < size && pipe.writers > 0 && !nonblock)
            && (o == Return(EAGAIN) <==> got == 0 && pipe.writers > 0 && nonblock)
            && (o == Return(got) <==> got == size || pipe.writers == 0 || (nonblock && got > 0))
            && (o == Return(0) ==> pipe.writers == 0 && pipe.contents == [] && total == 0)
            && (o == Block || o == Return(EAGAIN) || o == Return(got))
            && s'.calls == if o == Block then s.calls[t := Use(p, ReadEnd)] else s.calls - {t}
  {
    hide Fetched;
    var n := Min(size - total, |s.pipes[p].contents|);
    FetchedPipe(s, p, n);
  }

  lemma FetchedPipe(s: Sys, p: nat, n: nat)
    requires Shape(s) && p < MAX_PIPES && n <= |s.pipes[p].contents|
    ensures var s' := Fetched(s, p, n);
            && s'.pipes == s.pipes[p := s.pipes[p].(contents := s.pipes[p].contents[n..], received := s.pipes[p].received + s.pipes[p].contents[..n])]
            && s'.calls == s.calls
  {
    assert s.pipes[p].contents[0..] == s.pipes[p].contents && s.pipes[p].received + s.pipes[p].contents[..0] == s.pipes[p].received;
  }

  lemma StoredPipe(s: Sys, p: nat, data: seq<Byte>)
    requires Shape(s) && p < MAX_PIPES && |s.pipes[p].contents| + |data| <= PIPE_BUFSZ
    ensures var s' := Stored(s, p, data);
            && s'.pipes == s.pipes[p := s.pipes[p].(contents := s.pipes[p].contents + data, sent := s.pipes[p].sent + data)]
            && s'.calls == s.calls
  {
    assert data == [] ==> s.pipes[p].contents + data == s.pipes[p].contents && s.pipes[p].sent + data == s.pipes[p].sent;
  }

  /** A round of a write puts in the next bytes, as many as there is room for. It returns the number of all when they
      are in; EPIPE when some are left and there is no reader; what it has, or EAGAIN if that is none, when it must not
      wait; otherwise it sleeps. */
  lemma WriteReturns(s: Sys, t: nat, p: nat, src: seq<Byte>, total: nat, nonblock: bool)
    requires Shape(s) && p < MAX_PIPES && total < |src| && t < MAX_TASKS
    ensures var (s', n, o) := WriteStep(s, t, p, src, total, nonblock);
            var pipe, put := s.pipes[p], total + n;
            && put <= |src| && |pipe.contents| + n <= PIPE_BUFSZ && (put == |src| || |pipe.contents| + n == PIPE_BUFSZ)
            && (o == Block <==> put < |src| && pipe.readers > 0 && !nonblock)
            && (o == Return(EPIPE) <==> put < |src| && pipe.readers == 0)
            && (o == Return(EAGAIN) <==> put == 0 && pipe.readers > 0 && nonblock)
            && (o == Return(put) <==> put == |src| || (put > 0 && pipe.readers > 0 && nonblock))
            && (o == Block || o == Return(EPIPE) || o == Return(EAGAIN) || o == Return(put))
            && s'.calls == if o == Block then s.calls[t := Use(p, WriteEnd)] else s.calls - {t}
  {
    hide Stored;
    var n := Min(|src| - total, PIPE_BUFSZ - |s.pipes[p].contents|);
    StoredPipe(s, p, src[total..total + n]);
  }

  /** The checks before the first round, which starts at the first byte. */
  lemma CallsReturn(s: Sys, t: nat, p: nat, size: nat, src: seq<Byte>, nonblock: bool)
    requires Shape(s) && t < MAX_TASKS
    ensures ReadCall(s, t, p, size, nonblock).2 == Return(EBADF) <==> p >= MAX_PIPES || !s.pipes[p].inUse
    ensures WriteCall(s, t, p, src, nonblock).2 == Return(EBADF) <==> p >= MAX_PIPES || !s.pipes[p].inUse
    ensures p >= MAX_PIPES || !s.pipes[p].inUse ==>
              ReadCall(s, t, p, size, nonblock) == (s, [], Return(EBADF)) && WriteCall(s, t, p, src, nonblock) == (s, 0, Return(EBADF))
    ensures p < MAX_PIPES && s.pipes[p].inUse && size > 0 ==> ReadCall(s, t, p, size, nonblock) == ReadStep(s, t, p, size, 0, nonblock)
    ensures p < MAX_PIPES && s.pipes[p].inUse && s.pipes[p].readers > 0 && src != [] ==>
              WriteCall(s, t, p, src, nonblock) == WriteStep(s, t, p, src, 0, nonblock)
    ensures p < MAX_PIPES && s.pipes[p].inUse && s.pipes[p].readers == 0 ==> WriteCall(s, t, p, src, nonblock) == (s, 0, Return(EPIPE))
    ensures p < MAX_PIPES && s.pipes[p].inUse && size == 0 ==> ReadCall(s, t, p, size, nonblock) == (s, [], Return(0))
    ensures p < MAX_PIPES && s.pipes[p].inUse && s.pipes[p].readers > 0 && src == [] ==> WriteCall(s, t, p, src, nonblock) == (s, 0, Return(0))
  {
    hide ReadStep, WriteStep;
    if p < MAX_PIPES && size > 0 { ReadReturns(s, t, p, size, 0, nonblock); }
    if p < MAX_PIPES && src != [] { WriteReturns(s, t, p, src, 0, nonblock); }
  }

  // ---------------------------------------------------------------------------------------------
  // The bytes that a step moves
  // ---------------------------------------------------------------------------------------------

  lemma FinishPipes(s: Sys, t: nat, use: Use, size: nat, now: nat, nonblock: bool)
    requires Shape(s) && use.pipe < MAX_PIPES && now <= size
    ensures Finish(s, t, use, size, now, nonblock).0.pipes == s.pipes
  {
  }

  /** A round of a write appends the next bytes of the caller's buffer to what has been sent into that pipe. */
  lemma WriteSends(s: Sys, t: nat, p: nat, src: seq<Byte>, total: nat, nonblock: bool)
    requires Shape(s) && p < MAX_PIPES && total < |src| && t < MAX_TASKS
    ensures var (s', n, o) := WriteStep(s, t, p, src, total, nonblock);
            && total + n <= |src| && |s'.pipes| == MAX_PIPES && s'.pipes[p].sent == s.pipes[p].sent + src[total..total + n]
            && s'.pipes[p].received == s.pipes[p].received && s'.pipes[p].contents == s.pipes[p].contents + src[total..total + n]
            && s'.pipes[p].readers == s.pipes[p].readers && s'.pipes[p].writers == s.pipes[p].writers && s'.pipes[p].inUse == s.pipes[p].inUse
            && forall q :: 0 <= q < MAX_PIPES && q != p ==> s'.pipes[q] == s.pipes[q]
  {
    hide Stored, Finish;
    var n := Min(|src| - total, PIPE_BUFSZ - |s.pipes[p].contents|);
    StoredPipe(s, p, src[total..total + n]);
    FinishPipes(Stored(s, p, src[total..total + n]), t, Use(p, WriteEnd), |src|, total + n, nonblock);
  }

  /** A round of a read gives the caller what it takes out of that pipe. */
  lemma ReadReceives(s: Sys, t: nat, p: nat, size: nat, total: nat, nonblock: bool)
    requires Shape(s) && p < MAX_PIPES && total < size && t < MAX_TASKS
    ensures var (s', data, o) := ReadStep(s, t, p, size, total, nonblock);
            && total + |data| <= size && |s'.pipes| == MAX_PIPES && s'.pipes[p].received == s.pipes[p].received + data
            && s'.pipes[p].sent == s.pipes[p].sent && s.pipes[p].contents == data + s'.pipes[p].contents
            && s'.pipes[p].readers == s.pipes[p].readers && s'.pipes[p].writers == s.pipes[p].writers && s'.pipes[p].inUse == s.pipes[p].inUse
            && forall q :: 0 <= q < MAX_PIPES && q != p ==> s'.pipes[q] == s.pipes[q]
  {
    hide Fetched, Finish;
    var n := Min(size - total, |s.pipes[p].contents|);
    FetchedPipe(s, p, n);
    FinishPipes(Fetched(s, p, n), t, Use(p, ReadEnd), size, total + n, nonblock);
  }

  /** A close takes away one end, if there is one, and nothing else; without ends the pipe is free. */
  lemma CloseEffect(s: Sys, p: nat, end: End)
    requires Shape(s) && p < MAX_PIPES
    ensures var s' := CloseStep(s, p, end);
            && |s'.pipes| == MAX_PIPES && s'.calls == s.calls && (forall q :: 0 <= q < MAX_PIPES && q != p ==> s'.pipes[q] == s.pipes[q])
            && (!s.pipes[p].inUse ==> s' == s)
            && var a, b := s.pipes[p], s'.pipes[p];
               && b.contents == a.contents && b.sent == a.sent && b.received == a.received
               && (a.inUse ==> && b.readers == a.readers - (if end == ReadEnd && a.readers > 0 then 1 else 0)
                               && b.writers == a.writers - (if end == WriteEnd && a.writers > 0 then 1 else 0)
                               && (b.inUse <==> b.readers + b.writers > 0))
  {
  }

  /** A new pipe is empty and has one end of each kind; a pipe in use is left alone. */
  lemma CreateEffect(s: Sys, p: nat)
    requires Shape(s) && p < MAX_PIPES
    ensures var s' := CreateStep(s, p);
            && s'.sched == s.sched && s'.calls == s.calls && |s'.pipes| == MAX_PIPES
            && (forall q :: 0 <= q < MAX_PIPES && q != p ==> s'.pipes[q] == s.pipes[q])
            && if s.pipes[p].inUse then s' == s
               else s'.pipes[p].inUse && s'.pipes[p].contents == [] && s'.pipes[p].readers == 1 && s'.pipes[p].writers == 1
  {
  }

  // ---------------------------------------------------------------------------------------------
  // Calls over all their rounds
  // ---------------------------------------------------------------------------------------------

  /** No write into pipe `p`, and no pipe made there. */
  predicate NoWriteTo(step: Step, p: nat) { !(step.Write? && step.to == p) && step != Create(p) }

  predicate NoReadFrom(step: Step, p: nat) { !(step.Read? && step.from == p) && step != Create(p) }

  lemma SentStays(s: Sys, step: Step, p: nat)
    requires Shape(s) && Possible(s, step) && NoWriteTo(step, p) && p < MAX_PIPES
    ensures |Run(s, step).pipes| == MAX_PIPES && Run(s, step).pipes[p].sent == s.pipes[p].sent
  {
    hide ReadStep, WriteStep, CloseStep, CreateStep, SI.Apply;
    match step
    case Read(t, q, size, total, nonblock) => ReadReceives(s, t, q, size, total, nonblock);
    case Write(t, q, src, total, nonblock) => WriteSends(s, t, q, src, total, nonblock);
    case Close(q, end) => CloseEffect(s, q, end);
    case Create(q) => CreateEffect(s, q);
    case _ =>
  }

  lemma ReceivedStays(s: Sys, step: Step, p: nat)
    requires Shape(s) && Possible(s, step) && NoReadFrom(step, p) && p < MAX_PIPES
    ensures |Run(s, step).pipes| == MAX_PIPES && Run(s, step).pipes[p].received == s.pipes[p].received
  {
    hide ReadStep, WriteStep, CloseStep, CreateStep, SI.Apply;
    match step
    case Read(t, q, size, total, nonblock) => ReadReceives(s, t, q, size, total, nonblock);
    case Write(t, q, src, total, nonblock) => WriteSends(s, t, q, src, total, nonblock);
    case Close(q, end) => CloseEffect(s, q, end);
    case Create(q) => CreateEffect(s, q);
    case _ =>
  }

  /** In the run from state `from` to state `k`, the writes into pipe `p` are rounds of one call of task `t` for `src`:
      the first starts at 0, and each later one where the last has ended. They have put in `total` bytes so far. */
  ghost predicate WriteRounds(ss: seq<Sys>, steps: seq<Step>, t: nat, p: nat, src: seq<Byte>, from: nat, k: nat, total: nat)
    requires IsFreeRun(ss, steps) && from <= k < |ss| && p < MAX_PIPES
    decreases k
  {
    if k == from then total == 0
    else if NoWriteTo(steps[k - 1], p) then WriteRounds(ss, steps, t, p, src, from, k - 1, total)
    else match steps[k - 1]
      case Write(u, q, data, done, nonblock) =>
        && u == t && q == p && data == src && WriteRounds(ss, steps, t, p, src, from, k - 1, done)
        && total == done + WriteStep(ss[k - 1], t, p, src, done, nonblock).1
      case _ => false
  }

  /** All rounds together send the buffer from its start on, in order, each byte once. */
  lemma {:induction false} CallSends(ss: seq<Sys>, steps: seq<Step>, t: nat, p: nat, src: seq<Byte>, from: nat, k: nat, total: nat)
    requires IsFreeRun(ss, steps) && from <= k < |ss| && p < MAX_PIPES && WriteRounds(ss, steps, t, p, src, from, k, total)
    requires Shape(ss[from]) && Shape(ss[k])
    ensures total <= |src| && ss[k].pipes[p].sent == ss[from].pipes[p].sent + src[..total]
    decreases k
  {
    hide WriteStep, Run, Possible;
    if k > from {
      var s, step := ss[k - 1], steps[k - 1];
      if NoWriteTo(step, p) {
        CallSends(ss, steps, t, p, src, from, k - 1, total);
        SentStays(s, step, p);
      } else {
        OneWriteRound(ss, steps, t, p, src, from, k, total);
      }
    }
  }

  /** What the last step of the rounds is. */
  lemma WriteRoundIs(ss: seq<Sys>, steps: seq<Step>, t: nat, p: nat, src: seq<Byte>, from: nat, k: nat, total: nat)
    returns (done: nat, nonblock: bool)
    requires IsFreeRun(ss, steps) && from < k < |ss| && p < MAX_PIPES && WriteRounds(ss, steps, t, p, src, from, k, total)
    requires !NoWriteTo(steps[k - 1], p)
    ensures steps[k - 1] == Write(t, p, src, done, nonblock) && Shape(ss[k - 1]) && done < |src| && t < MAX_TASKS
    ensures WriteRounds(ss, steps, t, p, src, from, k - 1, done)
    ensures total == done + WriteStep(ss[k - 1], t, p, src, done, nonblock).1 && ss[k] == WriteStep(ss[k - 1], t, p, src, done, nonblock).0
  {
    hide WriteStep;
    done, nonblock := steps[k - 1].put, steps[k - 1].nonblockW;
    assert Possible(ss[k - 1], steps[k - 1]) && ss[k] == Run(ss[k - 1], steps[k - 1]);
  }

  lemma OneWriteRound(ss: seq<Sys>, steps: seq<Step>, t: nat, p: nat, src: seq<Byte>, from: nat, k: nat, total: nat)
    requires IsFreeRun(ss, steps) && from < k < |ss| && p < MAX_PIPES && WriteRounds(ss, steps, t, p, src, from, k, total)
    requires Shape(ss[from]) && !NoWriteTo(steps[k - 1], p)
    ensures total <= |src| && |ss[k].pipes| == MAX_PIPES && ss[k].pipes[p].sent == ss[from].pipes[p].sent + src[..total]
    decreases k, 0
  {
    hide WriteStep, WriteRounds, IsFreeRun, NoWriteTo;
    var done, nonblock := WriteRoundIs(ss, steps, t, p, src, from, k, total);
    CallSends(ss, steps, t, p, src, from, k - 1, done);
    WriteSends(ss[k - 1], t, p, src, done, nonblock);
    assert src[..done] + src[done..total] == src[..total];
    assert ss[from].pipes[p].sent + src[..done] + src[done..total] == ss[from].pipes[p].sent + src[..total];
  }

  /** When the call returns a number, that is how much of the buffer has been sent. */
  lemma CallSendsWhatItReturns(ss: seq<Sys>, steps: seq<Step>, t: nat, p: nat, src: seq<Byte>, from: nat, k: nat, total: nat)
    requires IsFreeRun(ss, steps) && from < k < |ss| && p < MAX_PIPES && WriteRounds(ss, steps, t, p, src, from, k, total)
    requires Shape(ss[from]) && Shape(ss[k]) && steps[k - 1].Write? && steps[k - 1].to == p
    ensures var o := WriteStep(ss[k - 1], t, p, src, steps[k - 1].put, steps[k - 1].nonblockW).2;
            o.Return? && o.value >= 0 ==> o.value <= |src| && ss[k].pipes[p].sent == ss[from].pipes[p].sent + src[..o.value]
  {
    hide WriteStep;
    CallSends(ss, steps, t, p, src, from, k, total);
    WriteReturns(ss[k - 1], t, p, src, steps[k - 1].put, steps[k - 1].nonblockW);
  }

  /** The reads from pipe `p` between the two states are rounds of one call of task `t` for `size` bytes, which have
      given it `got`. */
  ghost predicate ReadRounds(ss: seq<Sys>, steps: seq<Step>, t: nat, p: nat, size: nat, from: nat, k: nat, got: seq<Byte>)
    requires IsFreeRun(ss, steps) && from <= k < |ss| && p < MAX_PIPES
    decreases k
  {
    if k == from then got == []
    else if NoReadFrom(steps[k - 1], p) then ReadRounds(ss, steps, t, p, size, from, k - 1, got)
    else match steps[k - 1]
      case Read(u, q, n, done, nonblock) =>
        && u == t && q == p && n == size && done <= |got| && ReadRounds(ss, steps, t, p, size, from, k - 1, got[..done])
        && got == got[..done] + ReadStep(ss[k - 1], t, p, size, done, nonblock).1
      case _ => false
  }

  /** All rounds together give what has been taken out of the pipe, in order. */
  lemma {:induction false} CallReceives(ss: seq<Sys>, steps: seq<Step>, t: nat, p: nat, size: nat, from: nat, k: nat, got: seq<Byte>)
    requires IsFreeRun(ss, steps) && from <= k < |ss| && p < MAX_PIPES && ReadRounds(ss, steps, t, p, size, from, k, got)
    requires Shape(ss[from]) && Shape(ss[k])
    ensures |got| <= size && ss[k].pipes[p].received == ss[from].pipes[p].received + got
    decreases k
  {
    hide ReadStep, Run, Possible;
    if k > from {
      var s, step := ss[k - 1], steps[k - 1];
      if NoReadFrom(step, p) {
        CallReceives(ss, steps, t, p, size, from, k - 1, got);
        ReceivedStays(s, step, p);
      } else {
        OneReadRound(ss, steps, t, p, size, from, k, got);
      }
    }
  }

  lemma ReadRoundIs(ss: seq<Sys>, steps: seq<Step>, t: nat, p: nat, size: nat, from: nat, k: nat, got: seq<Byte>) returns (done: nat, nonblock: bool)
    requires IsFreeRun(ss, steps) && from < k < |ss| && p < MAX_PIPES && ReadRounds(ss, steps, t, p, size, from, k, got)
    requires !NoReadFrom(steps[k - 1], p)
    ensures steps[k - 1] == Read(t, p, size, done, nonblock) && Shape(ss[k - 1]) && done < size && t < MAX_TASKS && done <= |got|
    ensures ReadRounds(ss, steps, t, p, size, from, k - 1, got[..done])
    ensures got == got[..done] + ReadStep(ss[k - 1], t, p, size, done, nonblock).1 && ss[k] == ReadStep(ss[k - 1], t, p, size, done, nonblock).0
  {
    hide ReadStep;
    done, nonblock := steps[k - 1].got, steps[k - 1].nonblockR;
    assert Possible(ss[k - 1], steps[k - 1]) && ss[k] == Run(ss[k - 1], steps[k - 1]);
  }

  lemma OneReadRound(ss: seq<Sys>, steps: seq<Step>, t: nat, p: nat, size: nat, from: nat, k: nat, got: seq<Byte>)
    requires IsFreeRun(ss, steps) && from < k < |ss| && p < MAX_PIPES && ReadRounds(ss, steps, t, p, size, from, k, got)
    requires Shape(ss[from]) && !NoReadFrom(steps[k - 1], p)
    ensures |got| <= size && |ss[k].pipes| == MAX_PIPES && ss[k].pipes[p].received == ss[from].pipes[p].received + got
    decreases k, 0
  {
    hide ReadStep, ReadRounds, IsFreeRun, NoReadFrom;
    var done, nonblock := ReadRoundIs(ss, steps, t, p, size, from, k, got);
    var data := ReadStep(ss[k - 1], t, p, size, done, nonblock).1;
    CallReceives(ss, steps, t, p, size, from, k - 1, got[..done]);
    ReadReceives(ss[k - 1], t, p, size, done, nonblock);
    assert ss[from].pipes[p].received + got[..done] + data == ss[from].pipes[p].received + (got[..done] + data);
  }

  /** When the call returns a number, it has been given that many bytes. */
  lemma CallReturnsWhatItReceives(ss: seq<Sys>, steps: seq<Step>, t: nat, p: nat, size: nat, from: nat, k: nat, got: seq<Byte>)
    requires IsFreeRun(ss, steps) && from < k < |ss| && p < MAX_PIPES && ReadRounds(ss, steps, t, p, size, from, k, got)
    requires Shape(ss[from]) && Shape(ss[k]) && steps[k - 1].Read? && steps[k - 1].from == p
    ensures var o := ReadStep(ss[k - 1], t, p, size, steps[k - 1].got, steps[k - 1].nonblockR).2;
            o.Return? && o.value >= 0 ==> o.value == |got|
  {
    hide ReadStep;
    var done := steps[k - 1].got;
    CallReceives(ss, steps, t, p, size, from, k, got);
    ReadReturns(ss[k - 1], t, p, size, done, steps[k - 1].nonblockR);
    assert |got[..done]| == done;
  }

  /** From the making of a pipe on: what its reader has been given is the start of what its writer has handed in. */
  lemma WriterToReader(ss: seq<Sys>, steps: seq<Step>, w: nat, r: nat, p: nat, src: seq<Byte>, size: nat, from: nat, k: nat,
                       total: nat, got: seq<Byte>)
    requires IsFreeRun(ss, steps) && from <= k < |ss| && p < MAX_PIPES && Shape(ss[from]) && Shape(ss[k])
    requires ss[from].pipes[p] == Pipe(true, [], 1, 1, [], []) && Conserved(ss[k], p) && ss[k].pipes[p].inUse
    requires WriteRounds(ss, steps, w, p, src, from, k, total) && ReadRounds(ss, steps, r, p, size, from, k, got)
    ensures got <= src && |got| <= total <= |src| && ss[k].pipes[p].contents == src[|got|..total]
  {
    hide WriteRounds, ReadRounds, Run, Possible;
    CallSends(ss, steps, w, p, src, from, k, total);
    CallReceives(ss, steps, r, p, size, from, k, got);
    var pipe := ss[k].pipes[p];
    assert [] + src[..total] == src[..total] && [] + got == got;
    assert src[..total] == got + pipe.contents;
    assert src[..total][..|got|] == got;
  }

  // ---------------------------------------------------------------------------------------------
  // Pollers
  // ---------------------------------------------------------------------------------------------

  /** No task sleeps in poll or select. */
  ghost predicate NobodyPolls(s: S.Sched)
    requires S.Shape(s)
  {
    forall t :: 0 <= t < s.taskCount ==> !E.Polls(s.tasks[t])
  }

  lemma SelectWakesAll(s: S.Sched)
    requires S.Inv(s)
    ensures S.Inv(S.WakeSelect(s)) && NobodyPolls(S.WakeSelect(s))
    ensures forall t :: 0 <= t < s.taskCount && E.Polls(s.tasks[t]) ==>
              S.WakeSelect(s).tasks[t].state == S.Ready && t in S.WakeSelect(s).queues[S.WakeSelect(s).tasks[t].priority]
    ensures forall t :: 0 <= t < MAX_TASKS && !(t < s.taskCount && E.Polls(s.tasks[t])) ==> S.WakeSelect(s).tasks[t] == s.tasks[t]
  {
    hide S.WakeSelectBelow, S.QueuedOk, S.NoDuplicates;
    E.WakeSelectWakes(s, s.taskCount);
  }

  /** After a step that moves a byte, and after a close that leaves the pipe in use, nobody sleeps in poll. */
  lemma StepWakesPollers(s: Sys, step: Step, p: nat)
    requires Shape(s) && S.Inv(s.sched) && Possible(s, step) && p < MAX_PIPES
    requires Shape(Run(s, step))
    requires var s' := Run(s, step);
             || (step.Write? && step.to == p && s'.pipes[p].sent != s.pipes[p].sent)
             || (step.Read? && step.from == p && s'.pipes[p].received != s.pipes[p].received)
             || (step.Close? && step.closed == p && s.pipes[p].inUse && s'.pipes[p].inUse)
    ensures NobodyPolls(Run(s, step).sched)
  {
    hide S.Inv, S.WakeSelect, S.WakeCond, NobodyPolls, ReadStep, WriteStep, CloseStep;
    match step
    case Read(t, q, size, total, nonblock) => ReadWakesPollers(s, t, p, size, total, nonblock);
    case Write(t, q, src, total, nonblock) => WriteWakesPollers(s, t, p, src, total, nonblock);
    case Close(q, end) => CloseWakesPollers(s, p, end);
  }

  lemma ReadWakesPollers(s: Sys, t: nat, p: nat, size: nat, total: nat, nonblock: bool)
    requires Shape(s) && S.Inv(s.sched) && Possible(s, Read(t, p, size, total, nonblock)) && p < MAX_PIPES
    requires Shape(Run(s, Read(t, p, size, total, nonblock)))
    requires Run(s, Read(t, p, size, total, nonblock)).pipes[p].received != s.pipes[p].received
    ensures NobodyPolls(Run(s, Read(t, p, size, total, nonblock)).sched)
  {
    hide S.QueuedOk, S.NoDuplicates, S.WakeSelect, S.WakeCond, NobodyPolls, S.BlockOn, Finish;
    var n := Min(size - total, |s.pipes[p].contents|);
    ReadReceives(s, t, p, size, total, nonblock);
    assert s.pipes[p].received + [] == s.pipes[p].received;
    assert n > 0;
    NotifyWakesPollers(s.sched, S.WaitPipeWr, p);
    FinishWakes(Fetched(s, p, n), t, Use(p, ReadEnd), size, total + n, nonblock);
  }

  lemma WriteWakesPollers(s: Sys, t: nat, p: nat, src: seq<Byte>, total: nat, nonblock: bool)
    requires Shape(s) && S.Inv(s.sched) && Possible(s, Write(t, p, src, total, nonblock)) && p < MAX_PIPES
    requires Shape(Run(s, Write(t, p, src, total, nonblock)))
    requires Run(s, Write(t, p, src, total, nonblock)).pipes[p].sent != s.pipes[p].sent
    ensures NobodyPolls(Run(s, Write(t, p, src, total, nonblock)).sched)
  {
    hide S.QueuedOk, S.NoDuplicates, S.WakeSelect, S.WakeCond, NobodyPolls, S.BlockOn, Finish;
    var n := Min(|src| - total, PIPE_BUFSZ - |s.pipes[p].contents|);
    WriteSends(s, t, p, src, total, nonblock);
    assert s.pipes[p].sent + [] == s.pipes[p].sent;
    assert n > 0;
    NotifyWakesPollers(s.sched, S.WaitPipeRd, p);
    FinishWakes(Stored(s, p, src[total..total + n]), t, Use(p, WriteEnd), |src|, total + n, nonblock);
  }

  lemma CloseWakesPollers(s: Sys, p: nat, end: End)
    requires Shape(s) && S.Inv(s.sched) && p < MAX_PIPES && Possible(s, Close(p, end)) && Shape(Run(s, Close(p, end)))
    requires s.pipes[p].inUse && Run(s, Close(p, end)).pipes[p].inUse
    ensures NobodyPolls(Run(s, Close(p, end)).sched)
  {
    hide S.QueuedOk, S.NoDuplicates, S.WakeSelect, S.WakeCond, NobodyPolls;
    CondInv(s.sched, S.WaitPipeRd, p);
    CondInv(S.WakeCond(s.sched, S.WaitPipeRd, p), S.WaitPipeWr, p);
    SelectWakesAll(S.WakeCond(S.WakeCond(s.sched, S.WaitPipeRd, p), S.WaitPipeWr, p));
  }

  lemma CondInv(s: S.Sched, kind: S.WaitKind, p: nat)
    requires S.Inv(s)
    ensures S.Inv(S.WakeCond(s, kind, p))
  {
    SI.WakeCondInv(s, kind, p, s.taskCount);
  }

  lemma NotifyWakesPollers(s: S.Sched, kind: S.WaitKind, p: nat)
    requires S.Inv(s)
    ensures S.Inv(Notify(s, kind, p)) && NobodyPolls(Notify(s, kind, p))
  {
    hide S.QueuedOk, S.NoDuplicates, S.WakeSelect, S.WakeCond, NobodyPolls;
    CondInv(s, kind, p);
    SelectWakesAll(S.WakeCond(s, kind, p));
  }

  /** Falling asleep on a pipe is not falling asleep in poll. */
  lemma FinishWakes(s: Sys, t: nat, use: Use, size: nat, now: nat, nonblock: bool)
    requires Shape(s) && use.pipe < MAX_PIPES && now <= size && NobodyPolls(s.sched)
    requires S.Shape(Finish(s, t, use, size, now, nonblock).0.sched)
    ensures NobodyPolls(Finish(s, t, use, size, now, nonblock).0.sched)
  {
  }
}
