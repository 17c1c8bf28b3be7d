/** The byte rings behind pipes and loopback sockets: an array, a head, a tail and a count, that stand
    for a sequence of bytes. Pipes copy in at most two segments, sockets byte by byte. */
module ByteRings {
  import opened Bytes

  /** The `count` bytes from `head` on, around the end. */
  ghost function Window(buf: seq<Byte>, head: nat, count: nat): (s: seq<Byte>)
    requires head < |buf| && count <= |buf|
    ensures |s| == count
  {
    if head + count <= |buf| then buf[head..head + count] else buf[head..] + buf[..head + count - |buf|]
  }

  function Around(i: nat, cap: nat): (r: nat)
    requires 0 < cap && i < 2 * cap
    ensures r == if i < cap then i else i - cap
  {
    i % cap
  }

  lemma WindowAt(buf: seq<Byte>, head: nat, count: nat, k: nat)
    requires head < |buf| && k < count <= |buf|
    ensures Window(buf, head, count)[k] == buf[Around(head + k, |buf|)]
  {
    hide Around;
  }

  /** Taking from the front moves the head. */
  lemma WindowDrop(buf: seq<Byte>, head: nat, count: nat, n: nat)
    requires head < |buf| && n <= count <= |buf|
    ensures Window(buf, head, count)[..n] == Window(buf, head, n)
    ensures Window(buf, Around(head + n, |buf|), count - n) == Window(buf, head, count)[n..]
  {
    hide Window, Around;
    var w, h := Window(buf, head, count), Around(head + n, |buf|);
    forall k | 0 <= k < n ensures w[..n][k] == Window(buf, head, n)[k] {
      WindowAt(buf, head, count, k);
      WindowAt(buf, head, n, k);
    }
    forall k | 0 <= k < count - n ensures Window(buf, h, count - n)[k] == w[n..][k] {
      WindowAt(buf, h, count - n, k);
      WindowAt(buf, head, count, n + k);
    }
  }

  lemma FirstOf(buf: seq<Byte>, head: nat, count: nat)
    requires head < |buf| && 0 < count <= |buf|
    ensures Window(buf, head, count)[0] == buf[head]
    ensures Window(buf, Around(head + 1, |buf|), count - 1) == Window(buf, head, count)[1..]
  {
    hide Window, Around;
    WindowAt(buf, head, count, 0);
    WindowDrop(buf, head, count, 1);
  }

  /** A byte stored behind the window extends it. */
  lemma WindowPush(buf: seq<Byte>, head: nat, count: nat, x: Byte)
    requires head < |buf| && count < |buf|
    ensures Window(buf[Around(head + count, |buf|) := x], head, count + 1) == Window(buf, head, count) + [x]
  {
    hide Around, Window;
    WriteStraight(buf, head, count, [x], Around(head + count, |buf|));
    assert Over(buf, Around(head + count, |buf|), [x]) == buf[Around(head + count, |buf|) := x];
  }

  /** Reading in two segments reads the window. */
  lemma TwoReads(d: seq<Byte>, at: nat, buf: seq<Byte>, head: nat, n: nat, first: nat)
    requires head < |buf| && n <= |buf| && at + n <= |d|
    requires first == if |buf| - head > n then n else |buf| - head
    ensures n > first ==> Over(Over(d, at, buf[head..head + first]), at + first, buf[..n - first]) == Over(d, at, Window(buf, head, n))
    ensures n <= first ==> Over(d, at, buf[head..head + first]) == Over(d, at, Window(buf, head, n))
  {
    hide Over;
    if n > first {
      assert buf[head..head + first] == buf[head..];
      OverOver(d, at, buf[head..], buf[..n - first]);
    }
  }

  /** Writing in two segments behind the window extends it. */
  lemma TwoWrites(buf: seq<Byte>, head: nat, count: nat, src: seq<Byte>, tail: nat, first: nat)
    requires head < |buf| && count + |src| <= |buf| && tail == Around(head + count, |buf|)
    requires first == if |buf| - tail > |src| then |src| else |buf| - tail
    ensures |src| > first
            ==> Window(Over(Over(buf, tail, src[..first]), 0, src[first..]), head, count + |src|) == Window(buf, head, count) + src
    ensures |src| <= first ==> Window(Over(buf, tail, src[..first]), head, count + |src|) == Window(buf, head, count) + src
  {
    hide Window, Over, Around;
    if |src| > first {
      WriteAround(buf, head, count, src, first);
    } else {
      assert src[..first] == src;
      WriteStraight(buf, head, count, src, tail);
    }
  }

  lemma WriteStraight(buf: seq<Byte>, head: nat, count: nat, src: seq<Byte>, tail: nat)
    requires head < |buf| && count + |src| <= |buf| && tail == Around(head + count, |buf|) && tail + |src| <= |buf|
    ensures Window(Over(buf, tail, src), head, count + |src|) == Window(buf, head, count) + src
  {
    hide Around, Window, Over;
    var one := Over(buf, tail, src);
    var w := Window(one, head, count + |src|);
    forall k | 0 <= k < count + |src| ensures w[k] == (Window(buf, head, count) + src)[k] {
      WindowAt(one, head, count + |src|, k);
      OverAt(buf, tail, src, Around(head + k, |buf|));
      if k < count { WindowAt(buf, head, count, k); }
    }
  }

  lemma WriteAround(buf: seq<Byte>, head: nat, count: nat, src: seq<Byte>, first: nat)
    requires head < |buf| && count + |src| <= |buf| && head + count < |buf| && first == |buf| - head - count < |src|
    ensures Window(Over(Over(buf, head + count, src[..first]), 0, src[first..]), head, count + |src|) == Window(buf, head, count) + src
  {
    hide Around, Window, Over;
    var one := Over(buf, head + count, src[..first]);
    var two := Over(one, 0, src[first..]);
    var w := Window(two, head, count + |src|);
    forall k | 0 <= k < count + |src| ensures w[k] == (Window(buf, head, count) + src)[k] {
      WindowAt(two, head, count + |src|, k);
      OverAt(one, 0, src[first..], Around(head + k, |buf|));
      OverAt(buf, head + count, src[..first], Around(head + k, |buf|));
      if k < count { WindowAt(buf, head, count, k); }
    }
  }

  class ByteRing {
    const buf: array<Byte>
    var head: nat
    var tail: nat
    var count: nat

    ghost predicate Valid()
      reads this, buf
    {
      head < buf.Length && count <= buf.Length && tail == Around(head + count, buf.Length)
    }

    ghost function Contents(): (s: seq<Byte>)
      requires Valid()
      reads this, buf
      ensures |s| == count
    {
      Window(buf[..], head, count)
    }

    constructor (capacity: nat)
      requires capacity > 0
      ensures Valid() && Contents() == [] && buf.Length == capacity && fresh(buf)
    {
      buf := new Byte[capacity](_ => 0);
      head, tail, count := 0, 0, 0;
    }

    method Clear()
      requires buf.Length > 0
      modifies this
      ensures Valid() && Contents() == []
    {
      head, tail, count := 0, 0, 0;
    }

    /** The copy of pipe_read_op: `n` bytes to `dst` in at most two segments. */
    method TakeSegments(dst: array<Byte>, at: nat, n: nat)
      requires Valid() && n <= count && at + n <= dst.Length && dst != buf
      modifies this, dst
      ensures Valid() && Contents() == old(Contents())[n..]
      ensures dst[..] == Over(old(dst[..]), at, old(Contents())[..n])
    {
      hide Window, Over, Around;
      var first := if buf.Length - head > n then n else buf.Length - head;
      WindowDrop(buf[..], head, count, n);
      TwoReads(dst[..], at, buf[..], head, n, first);
      assert buf[head..head + first] == buf[..][head..head + first];
      CopyIn(dst, at, buf[head..head + first]);
      if n > first {
        assert buf[..n - first] == buf[..][..n - first];
        CopyIn(dst, at + first, buf[..n - first]);
      }
      head := Around(head + n, buf.Length);
      count := count - n;
    }

    /** The copy of pipe_write_op: `src` to the tail in at most two segments. */
    method PutSegments(src: seq<Byte>)
      requires Valid() && count + |src| <= buf.Length
      modifies this, buf
      ensures Valid() && Contents() == old(Contents()) + src
    {
      hide Window, Over, Around;
      var n := |src|;
      var first := if buf.Length - tail > n then n else buf.Length - tail;
      TwoWrites(buf[..], head, count, src, tail, first);
      CopyIn(buf, tail, src[..first]);
      if n > first {
        CopyIn(buf, 0, src[first..]);
      }
      tail := Around(tail + n, buf.Length);
      count := count + n;
    }

    /** rbuf_put: as much of `src` as there is room for, byte by byte. */
    method Put(src: seq<Byte>) returns (n: nat)
      requires Valid()
      modifies this, buf
      ensures Valid() && n == (if |src| < buf.Length - old(count) then |src| else buf.Length - old(count))
      ensures Contents() == old(Contents()) + src[..n]
    {
      hide Window, Around;
      ghost var s := Contents();
      var space := buf.Length - count;
      n := if |src| > space then space else |src|;
      for i := 0 to n
        invariant head == old(head) && count == old(count) && tail == Around(head + count + i, buf.Length)
        invariant Window(buf[..], head, count + i) == s + src[..i]
      {
        Store(head, count + i, src[i]);
        assert s + src[..i + 1] == s + src[..i] + [src[i]];
      }
      count := count + n;
    }

    /** One byte to the tail, which is `c` places behind the head. */
    method Store(h: nat, c: nat, x: Byte)
      requires h < buf.Length && c < buf.Length && tail == Around(h + c, buf.Length)
      modifies this`tail, buf
      ensures tail == Around(h + c + 1, buf.Length)
      ensures Window(buf[..], h, c + 1) == old(Window(buf[..], h, c)) + [x]
    {
      hide Window, Around;
      WindowPush(buf[..], h, c, x);
      buf[tail] := x;
      tail := Around(tail + 1, buf.Length);
    }

    /** rbuf_get: up to `n` bytes into `dst` at `at`, byte by byte. */
    method Get(dst: array<Byte>, at: nat, n: nat) returns (got: nat)
      requires Valid() && at + n <= dst.Length && dst != buf
      modifies this, dst
      ensures Valid() && got == (if n < old(count) then n else old(count))
      ensures Contents() == old(Contents())[got..]
      ensures dst[..] == Over(old(dst[..]), at, old(Contents())[..got])
    {
      hide Window, Around, Over;
      ghost var s, d := Contents(), dst[..];
      got := if n > count then count else n;
      OverNone(d, at);
      for i := 0 to got
        invariant head < buf.Length && count == old(count) && tail == Around(head + count - i, buf.Length)
        invariant Window(buf[..], head, count - i) == s[i..]
        invariant dst[..] == Over(d, at, s[..i])
      {
        OverStep(d, at, s, i);
        FirstOf(buf[..], head, count - i);
        dst[at + i] := buf[head];
        head := Around(head + 1, buf.Length);
      }
      count := count - got;
    }
  }
}
