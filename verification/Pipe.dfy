/** The pipes themselves: a table of eight rings with reader and writer counts, changed in place
    together with the scheduler. Every method is proved to do the step of the value model. */
module Pipes {
  import opened Bytes
  import opened ByteRings
  import opened Rings
  import opened Schedulers
  import S = SchedulerModel
  import PM = PipeModel

  class KernelPipe {
    const ring: ByteRing
    var readers: nat
    var writers: nat
    var inUse: bool
    ghost var sent: seq<Byte>
    ghost var received: seq<Byte>

    constructor ()
      ensures ring.Valid() && ring.buf.Length == PM.PIPE_BUFSZ && fresh(ring) && fresh(ring.buf)
      ensures Value() == PM.Pipe(false, [], 0, 0, [], [])
    {
      ring := new ByteRing(PM.PIPE_BUFSZ);
      readers, writers, inUse, sent, received := 0, 0, false, [], [];
    }

    ghost predicate Valid()
      reads this, ring, ring.buf
    {
      ring.Valid() && ring.buf.Length == PM.PIPE_BUFSZ
    }

    ghost function Value(): PM.Pipe
      requires Valid()
      reads this, ring, ring.buf
    {
      PM.Pipe(inUse, ring.Contents(), readers, writers, sent, received)
    }

    /** Bytes out of the ring, to `dst` at `at`. */
    method Take(dst: array<Byte>, at: nat, n: nat)
      requires Valid() && n <= |Value().contents| && at + n <= dst.Length && dst != ring.buf
      modifies this, ring, dst
      ensures Valid() && Value() == PM.Taken(old(Value()), n) && dst[..] == Over(old(dst[..]), at, old(Value()).contents[..n])
    {
      received := received + ring.Contents()[..n];
      ring.TakeSegments(dst, at, n);
    }

    /** Bytes into the ring. */
    method Give(src: seq<Byte>)
      requires Valid() && |Value().contents| + |src| <= PM.PIPE_BUFSZ
      modifies this, ring, ring.buf
      ensures Valid() && Value() == PM.Given(old(Value()), src)
    {
      sent := sent + src;
      ring.PutSegments(src);
    }

    /** One end less. */
    method Drop(end: PM.End)
      requires Valid()
      modifies this
      ensures Valid() && Value() == PM.Closed(old(Value()), end)
    {
      if end == PM.ReadEnd {
        if readers > 0 { readers := readers - 1; }
      } else {
        if writers > 0 { writers := writers - 1; }
      }
      if readers == 0 && writers == 0 {
        inUse := false;
      }
    }

    /** A fresh pipe with one reader and one writer. */
    method Open()
      requires Valid()
      modifies this, ring
      ensures Valid() && Value() == PM.Pipe(true, [], 1, 1, [], [])
    {
      ring.Clear();
      sent, received := [], [];
      readers, writers, inUse := 1, 1, true;
    }
  }

  /** Two pipes that share no object. */
  ghost predicate Apart(a: KernelPipe, b: KernelPipe) {
    a != b && a.ring != b.ring && a.ring.buf != b.ring.buf
  }

  /** What a read step is made of. */
  lemma ReadStepParts(s: PM.Sys, t: nat, p: nat, size: nat, total: nat, nonblock: bool)
    requires PM.Shape(s) && p < PM.MAX_PIPES && total < size && t < MAX_TASKS
    ensures var n := Min(size - total, |s.pipes[p].contents|);
            && n <= size - total && n <= |s.pipes[p].contents| && (s.pipes[p].contents == [] ==> n == 0) && (n == 0 ==> s.pipes[p].contents == [])
            && var (s2, outcome) := PM.Finish(PM.Fetched(s, p, n), t, PM.Use(p, PM.ReadEnd), size, total + n, nonblock);
               PM.ReadStep(s, t, p, size, total, nonblock) == (s2, s.pipes[p].contents[..n], outcome)
  {
  }

  lemma NothingMoved(s: PM.Sys, p: nat)
    requires PM.Shape(s) && p < PM.MAX_PIPES
    ensures PM.Fetched(s, p, 0) == s && PM.Stored(s, p, []) == s
  {
  }

  class PipeTable {
    const sched: Scheduler
    const pipes: seq<KernelPipe>
    ghost var calls: map<nat, PM.Use>
    ghost const Heap: set<object>

    /** The eight pipes are separate from each other, from the table and from the scheduler. */
    ghost predicate Pool()
      reads this, Heap
    {
      && |pipes| == PM.MAX_PIPES && this !in Heap
      && (forall i :: 0 <= i < |pipes| ==> pipes[i] in Heap && pipes[i].ring in Heap && pipes[i].ring.buf in Heap && pipes[i].Valid())
      && (forall i, j :: 0 <= i < j < |pipes| ==> Apart(pipes[i], pipes[j]))
      && Heap !! sched.Repr && this !in sched.Repr
    }

    ghost predicate Valid()
      reads this, Heap
      reads sched, sched.taskTable, sched.mlfq, set r | r in sched.mlfq :: r.tasks
    {
      Pool() && sched.Valid()
    }

    ghost function Values(): (s: seq<PM.Pipe>)
      requires Pool()
      reads this, Heap
      ensures |s| == PM.MAX_PIPES
      ensures forall i :: 0 <= i < |s| ==> s[i] == pipes[i].Value()
    {
      seq(PM.MAX_PIPES, i requires 0 <= i < PM.MAX_PIPES && Pool() reads this, Heap => pipes[i].Value())
    }

    ghost function State(): (s: PM.Sys)
      requires Valid()
      reads this, Heap
      reads sched, sched.taskTable, sched.mlfq, set r | r in sched.mlfq :: r.tasks
      ensures PM.Shape(s)
    {
      PM.Sys(sched.State(), Values(), calls)
    }

    constructor (sched: Scheduler, pipes: seq<KernelPipe>)
      requires sched.Valid() && |pipes| == PM.MAX_PIPES
      requires forall i :: 0 <= i < |pipes| ==> pipes[i].Valid() && !pipes[i].inUse
      requires forall i, j :: 0 <= i < j < |pipes| ==> Apart(pipes[i], pipes[j])
      requires forall i :: 0 <= i < |pipes| ==> pipes[i] !in sched.Repr && pipes[i].ring !in sched.Repr && pipes[i].ring.buf !in sched.Repr
      ensures Valid() && this.sched == sched && this.pipes == pipes
      ensures State().calls == map[] && forall i :: 0 <= i < PM.MAX_PIPES ==> !State().pipes[i].inUse
    {
      this.sched, this.pipes, calls := sched, pipes, map[];
      Heap := (set p: KernelPipe | p in pipes :: p as object) + (set p: KernelPipe | p in pipes :: p.ring as object)
              + (set p: KernelPipe | p in pipes :: p.ring.buf as object);
      new;
      assert forall o :: o in Heap ==> o !in sched.Repr && o != this;
      assert Heap !! sched.Repr;
      assert Pool();
    }

    /** sched_wake_cond and sched_wake_select_all. */
    method Notify(kind: S.WaitKind, p: nat)
      requires Valid()
      modifies sched.Repr
      ensures Valid() && State() == old(State()).(sched := PM.Notify(old(State()).sched, kind, p))
    {
      sched.WakeCond(kind, p);
      sched.WakeSelect();
      assert Values() == old(Values());
    }

    ghost method Enter(t: nat, use: PM.Use)
      requires Valid()
      modifies this`calls
      ensures Valid() && State() == old(State()).(calls := old(State()).calls[t := use])
    {
      calls := calls[t := use];
      assert Values() == old(Values());
    }

    ghost method Leave(t: nat)
      requires Valid()
      modifies this`calls
      ensures Valid() && State() == PM.Leave(old(State()), t)
    {
      calls := calls - {t};
      assert Values() == old(Values());
    }

    /** A change of one pipe is a change of one entry. */
    twostate lemma OnePipe(p: nat)
      requires old(Pool()) && p < PM.MAX_PIPES
      requires pipes[p].Valid()
      requires forall o :: o in Heap && o != pipes[p] && o != pipes[p].ring && o != pipes[p].ring.buf ==> unchanged(o)
      ensures Pool() && Values() == old(Values())[p := pipes[p].Value()]
    {
    }

    method BlockOn(t: nat, kind: S.WaitKind, use: PM.Use)
      requires Valid()
      modifies sched.Repr, this`calls
      ensures Valid()
      ensures State() == old(State()).(sched := S.BlockOn(old(State()).sched, kind, use.pipe), calls := old(State()).calls[t := use])
    {
      sched.BlockOn(kind, use.pipe);
      assert Values() == old(Values());
      Enter(t, use);
    }

    /** The rest of a loop round: return, or sleep. */
    method Finish(t: nat, use: PM.Use, size: nat, now: nat, nonblock: bool) returns (outcome: PM.Outcome)
      requires Valid() && use.pipe < PM.MAX_PIPES && now <= size
      modifies this`calls, sched.Repr
      ensures Valid() && (State(), outcome) == PM.Finish(old(State()), t, use, size, now, nonblock)
    {
      hide S.BlockOn;
      var pipe := pipes[use.pipe];
      outcome := PM.Block;
      if now == size {
        outcome := PM.Return(size);
      } else if use.end == PM.ReadEnd && pipe.writers == 0 {
        outcome := PM.Return(now);
      } else if use.end == PM.WriteEnd && pipe.readers == 0 {
        outcome := PM.Return(PM.EPIPE);
      } else if nonblock {
        outcome := PM.Return(if now == 0 then PM.EAGAIN else now);
      }
      if outcome == PM.Block {
        BlockOn(t, if use.end == PM.ReadEnd then S.WaitPipeRd else S.WaitPipeWr, use);
      } else {
        Leave(t);
      }
    }

    method TakeFrom(p: nat, dst: array<Byte>, at: nat, n: nat)
      requires Valid() && p < PM.MAX_PIPES && 0 < n <= |State().pipes[p].contents| && at + n <= dst.Length
      requires dst !in Heap && dst !in sched.Repr
      modifies pipes[p], pipes[p].ring, dst, sched.Repr
      ensures Valid() && State() == PM.Fetched(old(State()), p, n)
      ensures dst[..] == Over(old(dst[..]), at, old(State()).pipes[p].contents[..n])
    {
      hide PM.Notify;
      pipes[p].Take(dst, at, n);
      OnePipe(p);
      Notify(S.WaitPipeWr, p);
    }

    method GiveTo(p: nat, src: seq<Byte>)
      requires Valid() && p < PM.MAX_PIPES && src != [] && |State().pipes[p].contents| + |src| <= PM.PIPE_BUFSZ
      modifies pipes[p], pipes[p].ring, pipes[p].ring.buf, sched.Repr
      ensures Valid() && State() == PM.Stored(old(State()), p, src)
    {
      hide PM.Notify;
      pipes[p].Give(src);
      OnePipe(p);
      Notify(S.WaitPipeRd, p);
    }

    /** pipe_read_op from the top of its loop to its next block or return; `dst` has room for the whole
        request, and `total` bytes are there already. */
    method ReadStep(t: nat, p: nat, dst: array<Byte>, total: nat, nonblock: bool) returns (outcome: PM.Outcome)
      requires Valid() && p < PM.MAX_PIPES && t < MAX_TASKS && total < dst.Length
      requires dst !in Heap && dst !in sched.Repr
      modifies this`calls, Heap, sched.Repr, dst
      ensures Valid()
      ensures var r := PM.ReadStep(old(State()), t, p, dst.Length, total, nonblock);
              State() == r.0 && dst[..] == Over(old(dst[..]), total, r.1) && outcome == r.2
    {
      hide PM.Finish, PM.Fetched, Over, PM.ReadStep, Min;
      ghost var s0 := State();
      var size := dst.Length;
      var n := 0;
      OverNone(dst[..], total);
      NothingMoved(s0, p);
      ReadStepParts(s0, t, p, size, total, nonblock);
      if pipes[p].ring.count > 0 {
        n := Min(size - total, pipes[p].ring.count);
        TakeFrom(p, dst, total, n);
      }
      var now := total + n;
      outcome := Finish(t, PM.Use(p, PM.ReadEnd), size, now, nonblock);
    }

    /** pipe_write_op from the top of its loop to its next block or return. */
    method WriteStep(t: nat, p: nat, src: seq<Byte>, total: nat, nonblock: bool) returns (n: nat, outcome: PM.Outcome)
      requires Valid() && p < PM.MAX_PIPES && t < MAX_TASKS && total < |src|
      modifies this`calls, Heap, sched.Repr
      ensures Valid() && (State(), n, outcome) == PM.WriteStep(old(State()), t, p, src, total, nonblock)
    {
      hide PM.Finish, PM.Stored;
      ghost var s0 := State();
      var size := |src|;
      n := 0;
      NothingMoved(s0, p);
      if pipes[p].ring.count < PM.PIPE_BUFSZ {
        n := Min(size - total, PM.PIPE_BUFSZ - pipes[p].ring.count);
        GiveTo(p, src[total..total + n]);
      }
      assert n == Min(size - total, PM.PIPE_BUFSZ - |s0.pipes[p].contents|);
      assert n == 0 ==> src[total..total + n] == [];
      outcome := Finish(t, PM.Use(p, PM.WriteEnd), size, total + n, nonblock);
    }

    /** pipe_read_op up to its first block or return. */
    method Read(t: nat, p: nat, dst: array<Byte>, nonblock: bool) returns (outcome: PM.Outcome)
      requires Valid() && t < MAX_TASKS && dst !in Heap && dst !in sched.Repr
      modifies this`calls, Heap, sched.Repr, dst
      ensures Valid()
      ensures var r := PM.ReadCall(old(State()), t, p, dst.Length, nonblock);
              State() == r.0 && dst[..] == Over(old(dst[..]), 0, r.1) && outcome == r.2
    {
      hide PM.ReadStep, PM.WriteStep;
      if p >= PM.MAX_PIPES || !pipes[p].inUse {
        return PM.Return(PM.EBADF);
      }
      if dst.Length == 0 {
        return PM.Return(0);
      }
      outcome := ReadStep(t, p, dst, 0, nonblock);
    }

    /** pipe_write_op up to its first block or return. */
    method Write(t: nat, p: nat, src: seq<Byte>, nonblock: bool) returns (n: nat, outcome: PM.Outcome)
      requires Valid() && t < MAX_TASKS
      modifies this`calls, Heap, sched.Repr
      ensures Valid() && (State(), n, outcome) == PM.WriteCall(old(State()), t, p, src, nonblock)
    {
      hide PM.ReadStep, PM.WriteStep;
      if p >= PM.MAX_PIPES || !pipes[p].inUse {
        return 0, PM.Return(PM.EBADF);
      }
      if pipes[p].readers == 0 {
        return 0, PM.Return(PM.EPIPE);
      }
      if |src| == 0 {
        return 0, PM.Return(0);
      }
      n, outcome := WriteStep(t, p, src, 0, nonblock);
    }

    method DropEnd(p: nat, end: PM.End)
      requires Valid() && p < PM.MAX_PIPES
      modifies pipes[p]
      ensures Valid() && State() == old(State()).(pipes := old(State()).pipes[p := PM.Closed(old(State()).pipes[p], end)])
    {
      pipes[p].Drop(end);
      OnePipe(p);
    }

    /** pipe_close_op. */
    method Close(p: nat, end: PM.End)
      requires Valid() && p < PM.MAX_PIPES
      modifies this`calls, Heap, sched.Repr
      ensures Valid() && State() == PM.CloseStep(old(State()), p, end)
    {
      hide S.WakeCond, S.WakeSelect, PM.Closed;
      if pipes[p].inUse {
        DropEnd(p, end);
        if pipes[p].inUse {
          WakeEnds(p);
        }
      }
    }

    method WakeEnds(p: nat)
      requires Valid()
      modifies sched.Repr
      ensures Valid()
      ensures State() == old(State()).(sched := S.WakeSelect(S.WakeCond(S.WakeCond(old(State()).sched, S.WaitPipeRd, p), S.WaitPipeWr, p)))
    {
      hide S.WakeCond, S.WakeSelect;
      sched.WakeCond(S.WaitPipeRd, p);
      sched.WakeCond(S.WaitPipeWr, p);
      sched.WakeSelect();
      assert Values() == old(Values());
    }

    /** pipe_alloc and the reference counts of pipe_create_fds; `memory` says whether the buffer could be
        allocated. */
    method Create(memory: bool) returns (slot: int)
      requires Valid()
      modifies Heap
      ensures Valid()
      ensures slot == -1 || 0 <= slot < PM.MAX_PIPES
      ensures slot == -1 <==> !memory || forall i :: 0 <= i < PM.MAX_PIPES ==> old(State()).pipes[i].inUse
      ensures slot == -1 ==> State() == old(State())
      ensures slot >= 0 ==> !old(State()).pipes[slot].inUse && State() == PM.CreateStep(old(State()), slot)
      ensures slot >= 0 ==> forall i :: 0 <= i < slot ==> old(State()).pipes[i].inUse
    {
      ghost var before := State().pipes;
      for i := 0 to PM.MAX_PIPES
        invariant State() == old(State())
        invariant forall j :: 0 <= j < i ==> before[j].inUse
      {
        if !pipes[i].inUse {
          if !memory {
            return -1;
          }
          pipes[i].Open();
          OnePipe(i);
          return i;
        }
      }
      return -1;
    }
  }
}
