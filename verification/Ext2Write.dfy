/** Writing into a file, block by block, and what a reader sees afterwards. */
module Ext2Writes {
  import opened Bytes
  import opened Ext2Layout
  import opened Ext2Files
  import Sp = Ext2Space

  // ---------------------------------------------------------------------------------------------
  // The write so far
  // ---------------------------------------------------------------------------------------------

  function First(offset: nat): nat { offset / BLK }

  function Last(offset: nat, size: nat): nat
    requires size > 0
  {
    (offset + size - 1) / BLK
  }

  /** Byte `k` of block `i` after the write: from `data` inside the written range, as before outside
      it if the block existed. */
  predicate ByteOk(w: Work, w': Work, offset: nat, data: seq<Byte>, i: nat, k: nat)
    requires InodeOk(w.n) && InodeOk(w'.n) && k < BLK
  {
    var x := ByteIn(w'.v.disk, w'.n, i, k);
    if offset <= i * BLK + k < offset + |data| then x == data[i * BLK + k - offset]
    else DataBlock(w.v.disk, w.n, i) != 0 ==> x == ByteIn(w.v.disk, w.n, i, k)
  }

  ghost predicate BlockWritten(w: Work, w': Work, offset: nat, data: seq<Byte>, i: nat)
    requires InodeOk(w.n) && InodeOk(w'.n)
  {
    DataBlock(w'.v.disk, w'.n, i) != 0 && forall k :: 0 <= k < BLK ==> ByteOk(w, w', offset, data, i, k)
  }

  /** A data block outside the range is where it was and holds what it held. */
  predicate BlockUntouched(w: Work, w': Work, i: nat)
    requires InodeOk(w.n) && InodeOk(w'.n)
  {
    var x := DataBlock(w.v.disk, w.n, i);
    DataBlock(w'.v.disk, w'.n, i) == x && (x != 0 ==> Get(w'.v.disk, x) == Get(w.v.disk, x))
  }

  /** A block that was there is there still. */
  predicate NotMoved(w: Work, w': Work, q: Role)
    requires InodeOk(w.n) && InodeOk(w'.n) && InFile(q)
  {
    var x := BlockOf(w.v.disk, w.n, q);
    x != 0 ==> BlockOf(w'.v.disk, w'.n, q) == x
  }

  /** From `w` to `w'`, the blocks from `first` up to `b` have been written and nothing else happened:
      new blocks were free before, other files keep their bytes, and no block has moved. */
  ghost predicate Wrote(w: Work, w': Work, offset: nat, data: seq<Byte>, first: nat, b: nat)
    requires InodeOk(w.n) && InodeOk(w'.n)
  {
    && w'.ino == w.ino && w'.v.inodes == w.v.inodes && Fills(w.n, w'.n)
    && (b <= DIRECT + PER ==> w'.n.block[13] == w.n.block[13])
    && w'.v.space.perGroup == w.v.space.perGroup && |w'.v.space.used| == |w.v.space.used|
    && (forall x :: x in w.v.owner ==> x in w'.v.owner && w'.v.owner[x] == w.v.owner[x])
    && (forall x :: x in w'.v.owner && x !in w.v.owner ==> Fresh(w, w', x))
    && (forall x :: 0 <= x < |w.v.space.used| && x !in w'.v.owner ==> w'.v.space.used[x] == w.v.space.used[x])
    && (forall q :: InFile(q) ==> NotMoved(w, w', q))
    && (forall x :: x in w.v.owner && w.v.owner[x].0 != w.ino ==> Get(w'.v.disk, x) == Get(w.v.disk, x))
    && (forall i :: first <= i < b ==> BlockWritten(w, w', offset, data, i))
    && (forall i :: 0 <= i && !(first <= i < b) ==> BlockUntouched(w, w', i))
  }

  lemma WroteNone(w: Work, offset: nat, data: seq<Byte>, first: nat)
    requires InodeOk(w.n)
    ensures Wrote(w, w, offset, data, first, first)
  {
  }

  // ---------------------------------------------------------------------------------------------
  // One block
  // ---------------------------------------------------------------------------------------------

  /** The part of block `b` that lies in the range. */
  function ChunkStart(offset: nat, b: nat): nat { if b == First(offset) then offset % BLK else 0 }

  function ChunkEnd(offset: nat, size: nat, b: nat): nat
    requires size > 0
  {
    if b == Last(offset, size) then (offset + size - 1) % BLK + 1 else BLK
  }

  /** Block `b` from its start to its end, against the whole range. */
  lemma BlockInRange(offset: nat, size: nat, b: nat)
    requires size > 0 && First(offset) <= b <= Last(offset, size)
    ensures if b == First(offset) then b * BLK + offset % BLK == offset else offset < b * BLK
    ensures if b == Last(offset, size) then b * BLK + (offset + size - 1) % BLK == offset + size - 1 else (b + 1) * BLK <= offset + size - 1
    ensures (b + 1) * BLK == b * BLK + BLK
  {
    var f, l, e := First(offset), Last(offset, size), offset + size - 1;
    DivMod(offset);
    DivMod(e);
    Between(BLK, f, offset % BLK, b, l, e % BLK);
  }

  lemma Between(size: nat, f: nat, r: nat, b: nat, l: nat, t: nat)
    requires f <= b <= l && r < size && t < size
    ensures b > f ==> f * size + r < b * size
    ensures b < l ==> (b + 1) * size <= l * size + t
    ensures (b + 1) * size == b * size + size
  {
    if f < b { Sp.MulLe(size, f + 1, b); }
    if b < l { Sp.MulLe(size, b + 1, l); }
  }

  lemma DivMod(x: nat)
    ensures x == x / BLK * BLK + x % BLK
  {
  }

  lemma ChunkBounds(offset: nat, size: nat, b: nat)
    requires size > 0 && First(offset) <= b <= Last(offset, size)
    ensures 0 <= ChunkStart(offset, b) < ChunkEnd(offset, size, b) <= BLK
    ensures offset <= b * BLK + ChunkStart(offset, b) && b * BLK + ChunkEnd(offset, size, b) <= offset + size
  {
    BlockInRange(offset, size, b);
  }

  lemma ChunkPosition(offset: nat, size: nat, b: nat, k: nat)
    requires size > 0 && First(offset) <= b <= Last(offset, size) && k < BLK
    ensures offset <= b * BLK + k < offset + size <==> ChunkStart(offset, b) <= k < ChunkEnd(offset, size, b)
  {
    BlockInRange(offset, size, b);
  }

  /** The bytes of `data` that go to block `b`. */
  function Chunk(offset: nat, data: seq<Byte>, b: nat): seq<Byte>
    requires |data| > 0 && First(offset) <= b <= Last(offset, |data|)
  {
    ChunkBounds(offset, |data|, b);
    data[b * BLK + ChunkStart(offset, b) - offset..b * BLK + ChunkEnd(offset, |data|, b) - offset]
  }

  /** The disk with the chunk in data block `x`. */
  function PutChunk(d: Disk, x: nat, offset: nat, data: seq<Byte>, b: nat): Disk
    requires |data| > 0 && First(offset) <= b <= Last(offset, |data|)
  {
    ChunkBounds(offset, |data|, b);
    d[x := Over(Get(d, x), ChunkStart(offset, b), Chunk(offset, data, b))]
  }

  /** Rewriting a data block moves nothing, in this file or in any other. */
  lemma DataRewritten(w: Work, d: Disk, b: nat)
    requires WorkOk(w) && b < MAX_DATA && BlockOf(w.v.disk, w.n, Data(b)) != 0
    requires forall y :: y != BlockOf(w.v.disk, w.n, Data(b)) ==> Get(d, y) == Get(w.v.disk, y)
    ensures WorkOk(w.(v := w.v.(disk := d)))
    ensures forall q :: InFile(q) ==> BlockOf(d, w.n, q) == BlockOf(w.v.disk, w.n, q)
  {
    hide BlockOf;
    assert RoleOwned(w.v.disk, w.n, w.ino, w.v.owner, Data(b));
    forall i | i in w.v.inodes ensures Owned(d, w.v.inodes[i], i, w.v.owner) {
      assert FileOk(w.v, i, w.v.inodes[i]);
      SameTablesOwned(w.v.disk, d, w.v.inodes[i], i, w.v.owner);
    }
    SameTablesOwned(w.v.disk, d, w.n, w.ino, w.v.owner);
    forall q | InFile(q) ensures BlockOf(d, w.n, q) == BlockOf(w.v.disk, w.n, q) { SameBlock(w.v.disk, d, w.n, w.ino, w.v.owner, q); }
  }

  /** The state after block `b`: grown so that the block exists, then rewritten. */
  ghost predicate WritesBlock(w1: Work, w2: Work, w3: Work, offset: nat, data: seq<Byte>, b: nat) {
    && WorkOk(w1) && WorkOk(w2) && Grown(w1, w2, b) && b < MAX_DATA && BlockOf(w2.v.disk, w2.n, Data(b)) != 0
    && |data| > 0 && First(offset) <= b <= Last(offset, |data|)
    && w3 == w2.(v := w2.v.(disk := PutChunk(w2.v.disk, BlockOf(w2.v.disk, w2.n, Data(b)), offset, data, b)))
  }

  lemma WritesBlockOk(w1: Work, w2: Work, w3: Work, offset: nat, data: seq<Byte>, b: nat)
    requires WritesBlock(w1, w2, w3, offset, data, b)
    ensures WorkOk(w3)
    ensures forall q :: InFile(q) ==> BlockOf(w3.v.disk, w3.n, q) == BlockOf(w2.v.disk, w2.n, q)
    ensures forall y :: y != BlockOf(w2.v.disk, w2.n, Data(b)) ==> Get(w3.v.disk, y) == Get(w2.v.disk, y)
    ensures Get(w3.v.disk, BlockOf(w2.v.disk, w2.n, Data(b)))
         == (ChunkBounds(offset, |data|, b); Over(Get(w2.v.disk, BlockOf(w2.v.disk, w2.n, Data(b))), ChunkStart(offset, b), Chunk(offset, data, b)))
  {
    hide BlockOf, WorkOk, Grown;
    ChunkBounds(offset, |data|, b);
    DataRewritten(w2, w3.v.disk, b);
  }

  // ---------------------------------------------------------------------------------------------
  // From block to block
  // ---------------------------------------------------------------------------------------------

  /** A data block other than `b` is not touched by writing block `b`. */
  lemma OtherBlock(w1: Work, w2: Work, w3: Work, offset: nat, data: seq<Byte>, b: nat, i: nat)
    requires WritesBlock(w1, w2, w3, offset, data, b) && i != b
    ensures BlockUntouched(w1, w3, i)
  {
    hide BlockOf;
    WritesBlockOk(w1, w2, w3, offset, data, b);
    if i < MAX_DATA {
      assert Kept(w1, w2, Data(i), b);
      assert RoleOwned(w1.v.disk, w1.n, w1.ino, w1.v.owner, Data(i));
      assert RoleOwned(w2.v.disk, w2.n, w2.ino, w2.v.owner, Data(i));
      assert RoleOwned(w2.v.disk, w2.n, w2.ino, w2.v.owner, Data(b));
    }
  }

  /** Block `b` itself holds the chunk, and around it what it held, if it was there. */
  lemma ThisBlock(w1: Work, w2: Work, w3: Work, offset: nat, data: seq<Byte>, b: nat, k: nat)
    requires WritesBlock(w1, w2, w3, offset, data, b) && k < BLK
    ensures DataBlock(w3.v.disk, w3.n, b) != 0 && ByteOk(w1, w3, offset, data, b, k)
  {
    hide BlockOf, Over, First, Last, Chunk;
    WritesBlockOk(w1, w2, w3, offset, data, b);
    var x := BlockOf(w2.v.disk, w2.n, Data(b));
    ChunkByte(Get(w2.v.disk, x), offset, data, b, k);
    assert Kept(w1, w2, Data(b), b);
    assert RoleOwned(w1.v.disk, w1.n, w1.ino, w1.v.owner, Data(b));
  }

  /** A byte of a block with the chunk in it. */
  lemma ChunkByte(s: seq<Byte>, offset: nat, data: seq<Byte>, b: nat, k: nat)
    requires |s| == BLK && |data| > 0 && First(offset) <= b <= Last(offset, |data|) && k < BLK
    ensures (ChunkBounds(offset, |data|, b); Over(s, ChunkStart(offset, b), Chunk(offset, data, b))[k])
            == if offset <= b * BLK + k < offset + |data| then data[b * BLK + k - offset] else s[k]
  {
    hide Over, First, Last, ChunkStart, ChunkEnd;
    ChunkBounds(offset, |data|, b);
    ChunkPosition(offset, |data|, b, k);
    OverAt(s, ChunkStart(offset, b), Chunk(offset, data, b), k);
  }

  /** Writing block `b` carries the write on by one block. */
  lemma WroteNext(w: Work, w1: Work, w2: Work, w3: Work, offset: nat, data: seq<Byte>, b: nat)
    requires InodeOk(w.n) && InodeOk(w1.n) && Wrote(w, w1, offset, data, First(offset), b)
    requires WritesBlock(w1, w2, w3, offset, data, b)
    ensures WorkOk(w3) && Wrote(w, w3, offset, data, First(offset), b + 1)
  {
    hide BlockOf, PutChunk, WorkOk;
    WritesBlockOk(w1, w2, w3, offset, data, b);
    assert InodeOk(w3.n) by { InWork(w3); }
    WroteNextBlocks(w, w1, w2, w3, offset, data, b);
    WroteNextRoles(w, w1, w2, w3, offset, data, b);
  }

  lemma InWork(w: Work)
    requires WorkOk(w)
    ensures InodeOk(w.n)
  {
  }

  lemma WroteNextBlocks(w: Work, w1: Work, w2: Work, w3: Work, offset: nat, data: seq<Byte>, b: nat)
    requires InodeOk(w.n) && InodeOk(w1.n) && InodeOk(w3.n) && Wrote(w, w1, offset, data, First(offset), b)
    requires WritesBlock(w1, w2, w3, offset, data, b)
    ensures forall i :: First(offset) <= i < b + 1 ==> BlockWritten(w, w3, offset, data, i)
    ensures forall i :: 0 <= i && !(First(offset) <= i < b + 1) ==> BlockUntouched(w, w3, i)
  {
    hide BlockOf, DataBlock, PutChunk, WorkOk, Grown;
    forall i | First(offset) <= i < b + 1 ensures BlockWritten(w, w3, offset, data, i) {
      if i < b {
        OtherBlock(w1, w2, w3, offset, data, b, i);
        assert BlockWritten(w, w1, offset, data, i);
        forall k | 0 <= k < BLK ensures ByteOk(w, w3, offset, data, i, k) { assert ByteOk(w, w1, offset, data, i, k); }
      } else {
        assert BlockUntouched(w, w1, b);
        ThisBlock(w1, w2, w3, offset, data, b, 0);
        forall k | 0 <= k < BLK ensures ByteOk(w, w3, offset, data, b, k) { ThisBlock(w1, w2, w3, offset, data, b, k); }
      }
    }
    forall i | 0 <= i && !(First(offset) <= i < b + 1) ensures BlockUntouched(w, w3, i) {
      OtherBlock(w1, w2, w3, offset, data, b, i);
      assert BlockUntouched(w, w1, i);
    }
  }

  /** A block that was new after any step is new for the whole. */
  lemma WroteNextFresh(w: Work, w1: Work, w2: Work, w3: Work, b: nat, x: nat)
    requires InodeOk(w.n) && InodeOk(w1.n) && InodeOk(w2.n) && w3 == w2.(v := w2.v.(disk := w3.v.disk))
    requires w1.ino == w.ino && |w1.v.space.used| == |w.v.space.used|
    requires forall y :: y in w1.v.owner && y !in w.v.owner ==> Fresh(w, w1, y)
    requires forall y :: 0 <= y < |w.v.space.used| && y !in w1.v.owner ==> w1.v.space.used[y] == w.v.space.used[y]
    requires Grown(w1, w2, b)
    requires forall q :: InFile(q) ==> BlockOf(w3.v.disk, w3.n, q) == BlockOf(w2.v.disk, w2.n, q)
    requires x in w3.v.owner && x !in w.v.owner
    ensures Fresh(w, w3, x)
  {
    hide BlockOf;
    if x in w1.v.owner {
      assert Fresh(w, w1, x);
      assert Kept(w1, w2, w1.v.owner[x].1, b);
    } else {
      assert Fresh(w1, w2, x);
      assert w1.v.space.used[x] == w.v.space.used[x];
      assert InFile(w2.v.owner[x].1);
    }
  }

  lemma WroteNextRoles(w: Work, w1: Work, w2: Work, w3: Work, offset: nat, data: seq<Byte>, b: nat)
    requires InodeOk(w.n) && InodeOk(w1.n) && InodeOk(w3.n) && Wrote(w, w1, offset, data, First(offset), b)
    requires WritesBlock(w1, w2, w3, offset, data, b)
    ensures w3.ino == w.ino && w3.v.inodes == w.v.inodes && Fills(w.n, w3.n)
    ensures b + 1 <= DIRECT + PER ==> w3.n.block[13] == w.n.block[13]
    ensures w3.v.space.perGroup == w.v.space.perGroup && |w3.v.space.used| == |w.v.space.used|
    ensures forall x :: x in w.v.owner ==> x in w3.v.owner && w3.v.owner[x] == w.v.owner[x]
    ensures forall x :: x in w3.v.owner && x !in w.v.owner ==> Fresh(w, w3, x)
    ensures forall x :: 0 <= x < |w.v.space.used| && x !in w3.v.owner ==> w3.v.space.used[x] == w.v.space.used[x]
    ensures forall q :: InFile(q) ==> NotMoved(w, w3, q)
    ensures forall x :: x in w.v.owner && w.v.owner[x].0 != w.ino ==> Get(w3.v.disk, x) == Get(w.v.disk, x)
  {
    hide BlockOf, BlockWritten, BlockUntouched;
    WritesBlockOk(w1, w2, w3, offset, data, b);
    forall q | InFile(q) ensures NotMoved(w, w3, q) {
      assert NotMoved(w, w1, q) && Kept(w1, w2, q, b);
    }
    forall x | x in w3.v.owner && x !in w.v.owner ensures Fresh(w, w3, x) { WroteNextFresh(w, w1, w2, w3, b, x); }
    assert RoleOwned(w2.v.disk, w2.n, w2.ino, w2.v.owner, Data(b));
  }

  // ---------------------------------------------------------------------------------------------
  // The whole write
  // ---------------------------------------------------------------------------------------------

  function NewSize(n: Inode, offset: nat, size: nat): nat { if offset + size > n.size then offset + size else n.size }

  /** What a successful ext2_write_file leaves. */
  ghost predicate WriteDone(v: Vol, v': Vol, ino: nat, offset: nat, data: seq<Byte>) {
    && |data| > 0 && ino in v.inodes && ino in v'.inodes && v'.inodes == v.inodes[ino := v'.inodes[ino]]
    && InodeOk(v.inodes[ino]) && InodeOk(v'.inodes[ino])
    && v'.inodes[ino].size == NewSize(v.inodes[ino], offset, |data|) && v'.inodes[ino].ftype == v.inodes[ino].ftype
    && Wrote(Work(v, ino, v.inodes[ino]), Work(v'.(inodes := v.inodes), ino, v'.inodes[ino]), offset, data, First(offset), Last(offset, |data|) + 1)
  }

  /** Block numbers depend on the slots of the inode only. */
  lemma {:induction false} SameSlots(d: Disk, n: Inode, n': Inode, q: Role)
    requires InodeOk(n) && InodeOk(n') && n.block == n'.block && InFile(q)
    ensures BlockOf(d, n, q) == BlockOf(d, n', q)
    decreases Depth(q)
  {
    if PlaceOf(q).Entry? { SameSlots(d, n, n', PlaceOf(q).table); }
  }

  /** Writing the inode back completes the write. */
  lemma FinishWrite(w: Work, w': Work, v': Vol, offset: nat, data: seq<Byte>)
    requires WorkOk(w) && w.n == w.v.inodes[w.ino] && WorkOk(w') && |data| > 0 && offset + |data| < U32
    requires Wrote(w, w', offset, data, First(offset), Last(offset, |data|) + 1)
    requires w'.n.size == w.n.size && w'.n.ftype == w.n.ftype
    requires w.ino in v'.inodes && v' == w'.v.(inodes := w.v.inodes[w.ino := v'.inodes[w.ino]])
    requires v'.inodes[w.ino] == w'.n.(size := NewSize(w.n, offset, |data|), blocks := v'.inodes[w.ino].blocks)
    ensures VolOk(v') && WriteDone(w.v, v', w.ino, offset, data)
  {
    hide BlockOf;
    var n := v'.inodes[w.ino];
    var w3 := Work(v'.(inodes := w.v.inodes), w.ino, n);
    assert forall q :: InFile(q) ==> BlockOf(w3.v.disk, n, q) == BlockOf(w'.v.disk, w'.n, q) by {
      forall q | InFile(q) ensures BlockOf(w3.v.disk, n, q) == BlockOf(w'.v.disk, w'.n, q) { SameSlots(w'.v.disk, w'.n, n, q); }
    }
    assert Owned(v'.disk, n, w.ino, v'.owner) by {
      forall q | InFile(q) ensures RoleOwned(v'.disk, n, w.ino, v'.owner, q) { assert RoleOwned(w'.v.disk, w'.n, w.ino, w'.v.owner, q); }
    }
    forall i | i in v'.inodes ensures FileOk(v', i, v'.inodes[i]) {
      assert FileOk(w'.v, i, w'.v.inodes[i]);
    }
    FinishWrote(w, w', w3, offset, data);
  }

  lemma FinishWrote(w: Work, w': Work, w3: Work, offset: nat, data: seq<Byte>)
    requires InodeOk(w.n) && InodeOk(w'.n) && InodeOk(w3.n) && |data| > 0
    requires Wrote(w, w', offset, data, First(offset), Last(offset, |data|) + 1)
    requires w3 == w'.(n := w3.n) && w3.n.block == w'.n.block
    requires forall q :: InFile(q) ==> BlockOf(w3.v.disk, w3.n, q) == BlockOf(w'.v.disk, w'.n, q)
    ensures Wrote(w, w3, offset, data, First(offset), Last(offset, |data|) + 1)
  {
    hide BlockOf;
    forall q | InFile(q) ensures NotMoved(w, w3, q) { assert NotMoved(w, w', q); }
    forall x | x in w3.v.owner && x !in w.v.owner ensures Fresh(w, w3, x) {
      assert Fresh(w, w', x);
      assert InFile(w'.v.owner[x].1);
    }
    forall i | First(offset) <= i < Last(offset, |data|) + 1 ensures BlockWritten(w, w3, offset, data, i) {
      assert BlockWritten(w, w', offset, data, i);
      forall k | 0 <= k < BLK ensures ByteOk(w, w3, offset, data, i, k) { assert ByteOk(w, w', offset, data, i, k); }
    }
    forall i | 0 <= i && !(First(offset) <= i < Last(offset, |data|) + 1) ensures BlockUntouched(w, w3, i) { assert BlockUntouched(w, w', i); }
  }

  // ---------------------------------------------------------------------------------------------
  // What readers see
  // ---------------------------------------------------------------------------------------------

  /** A position in the range lies in one of the written blocks. */
  lemma PositionBlock(offset: nat, size: nat, pos: nat)
    requires offset <= pos < offset + size
    ensures First(offset) <= pos / BLK <= Last(offset, size)
    ensures pos == pos / BLK * BLK + pos % BLK
  {
    DivMonotone(offset, pos);
    DivMonotone(pos, offset + size - 1);
  }

  lemma DivMonotone(a: nat, b: nat)
    requires a <= b
    ensures a / BLK <= b / BLK
  {
    if BLK == 1024 { assert a / 1024 <= b / 1024; } else if BLK == 2048 { assert a / 2048 <= b / 2048; } else { assert a / 4096 <= b / 4096; }
  }

  /** Reading the range that was written gives the data that was written. */
  lemma ReadBack(v: Vol, v': Vol, ino: nat, offset: nat, data: seq<Byte>, out: seq<Byte>)
    requires WriteDone(v, v', ino, offset, data)
    requires ReadGives(v'.disk, v'.inodes[ino], offset, |data|, out)
    ensures out == data
  {
    hide DataBlock;
    forall k | 0 <= k < |data| ensures IsByteAt(v'.disk, v'.inodes[ino], offset + k, data[k]) {
      WrittenByte(v, v', ino, offset, data, k);
    }
    ReadUnique(v'.disk, v'.inodes[ino], offset, |data|, out, data);
  }

  lemma WrittenByte(v: Vol, v': Vol, ino: nat, offset: nat, data: seq<Byte>, k: nat)
    requires WriteDone(v, v', ino, offset, data) && k < |data|
    ensures IsByteAt(v'.disk, v'.inodes[ino], offset + k, data[k])
  {
    hide DataBlock, First, Last;
    var w, w' := Work(v, ino, v.inodes[ino]), Work(v'.(inodes := v.inodes), ino, v'.inodes[ino]);
    var i := (offset + k) / BLK;
    PositionBlock(offset, |data|, offset + k);
    assert BlockWritten(w, w', offset, data, i);
    assert ByteOk(w, w', offset, data, i, (offset + k) % BLK);
  }

  /** A byte of the file outside the range, in a block that existed, is as it was. */
  lemma OutsideKept(v: Vol, v': Vol, ino: nat, offset: nat, data: seq<Byte>, pos: nat, x: Byte)
    requires WriteDone(v, v', ino, offset, data) && !(offset <= pos < offset + |data|)
    requires IsByteAt(v.disk, v.inodes[ino], pos, x)
    ensures IsByteAt(v'.disk, v'.inodes[ino], pos, x)
  {
    hide DataBlock;
    var w, w' := Work(v, ino, v.inodes[ino]), Work(v'.(inodes := v.inodes), ino, v'.inodes[ino]);
    var i := pos / BLK;
    assert pos == i * BLK + pos % BLK;
    if First(offset) <= i < Last(offset, |data|) + 1 {
      assert BlockWritten(w, w', offset, data, i);
      assert ByteOk(w, w', offset, data, i, pos % BLK);
    } else {
      assert BlockUntouched(w, w', i);
    }
  }

  /** A write makes the file longer when it reaches behind the end, and never shorter. */
  lemma SizeAfterWrite(v: Vol, v': Vol, ino: nat, offset: nat, data: seq<Byte>)
    requires WriteDone(v, v', ino, offset, data)
    ensures v'.inodes[ino].size >= v.inodes[ino].size && v'.inodes[ino].size >= offset + |data|
    ensures v'.inodes[ino].size == v.inodes[ino].size || v'.inodes[ino].size == offset + |data|
  {
    hide Wrote;
  }

  /** A read of a range of the old file beside the written one, in blocks that existed, gives the same bytes, and as
      many. */
  lemma ReadBesideWrite(v: Vol, v': Vol, ino: nat, offset: nat, data: seq<Byte>, o: nat, size: nat, out: seq<Byte>)
    requires WriteDone(v, v', ino, offset, data) && (o + size <= offset || offset + |data| <= o)
    requires ReadGives(v.disk, v.inodes[ino], o, size, out) && |out| == size && o + size <= v.inodes[ino].size
    ensures ReadGives(v'.disk, v'.inodes[ino], o, size, out)
    ensures forall out' :: ReadGives(v'.disk, v'.inodes[ino], o, size, out') ==> out' == out
  {
    hide WriteDone, IsByteAt;
    SizeAfterWrite(v, v', ino, offset, data);
    WriteInodesOk(v, v', ino, offset, data);
    forall k | 0 <= k < |out| ensures IsByteAt(v'.disk, v'.inodes[ino], o + k, out[k]) {
      OutsideKept(v, v', ino, offset, data, o + k, out[k]);
    }
    forall out' | ReadGives(v'.disk, v'.inodes[ino], o, size, out') ensures out' == out {
      ReadUnique(v'.disk, v'.inodes[ino], o, size, out', out);
    }
  }

  lemma WriteInodesOk(v: Vol, v': Vol, ino: nat, offset: nat, data: seq<Byte>)
    requires WriteDone(v, v', ino, offset, data)
    ensures ino in v.inodes && ino in v'.inodes && InodeOk(v.inodes[ino]) && InodeOk(v'.inodes[ino])
  {
    hide Wrote;
  }

  /** The contents of a file with `data` written at `offset`. */
  function Spliced(content: seq<Byte>, offset: nat, data: seq<Byte>): seq<Byte>
    requires offset <= |content|
  {
    content[..offset] + data + if offset + |data| < |content| then content[offset + |data|..] else []
  }

  /** The whole of a file without holes after a write that starts in it or at its end. */
  lemma WriteIsSplice(v: Vol, v': Vol, ino: nat, offset: nat, data: seq<Byte>, content: seq<Byte>)
    requires WriteDone(v, v', ino, offset, data) && offset <= |content| == v.inodes[ino].size
    requires ReadGives(v.disk, v.inodes[ino], 0, |content|, content)
    ensures v'.inodes[ino].size == |Spliced(content, offset, data)|
    ensures ReadGives(v'.disk, v'.inodes[ino], 0, v'.inodes[ino].size, Spliced(content, offset, data))
  {
    hide WriteDone, IsByteAt;
    SizeAfterWrite(v, v', ino, offset, data);
    WriteInodesOk(v, v', ino, offset, data);
    var all := Spliced(content, offset, data);
    forall k | 0 <= k < |all| ensures IsByteAt(v'.disk, v'.inodes[ino], 0 + k, all[k]) {
      if offset <= k < offset + |data| {
        WrittenByte(v, v', ino, offset, data, k - offset);
      } else {
        assert IsByteAt(v.disk, v.inodes[ino], 0 + k, content[k]);
        OutsideKept(v, v', ino, offset, data, k, content[k]);
      }
    }
  }

  /** Files other than `ino` keep their inodes, their blocks and what is in them. */
  ghost predicate OthersKept(v: Vol, v': Vol, ino: nat) {
    && (forall i :: i in v.inodes && i != ino ==> i in v'.inodes && v'.inodes[i] == v.inodes[i])
    && (forall x :: x in v.owner && v.owner[x].0 != ino ==>
          x in v'.owner && v'.owner[x] == v.owner[x] && Get(v'.disk, x) == Get(v.disk, x))
  }

  /** A new file with blocks of its own: the volume stays sound and no other file is touched. */
  lemma FileAdded(v: Vol, v': Vol, ino: nat, n: Inode)
    requires VolOk(v) && ino !in v.inodes && 0 < ino && InodeOk(n) && v'.inodes == v.inodes[ino := n] && SpaceOk(v')
    requires forall x :: x in v.owner ==> x in v'.owner && v'.owner[x] == v.owner[x] && Get(v'.disk, x) == Get(v.disk, x)
    requires Owned(v'.disk, n, ino, v'.owner)
    ensures VolOk(v') && OthersKept(v, v', ino)
  {
    hide Owned, SpaceOk;
    forall i | i in v'.inodes ensures FileOk(v', i, v'.inodes[i]) {
      if i != ino {
        assert FileOk(v, i, v.inodes[i]);
        OtherOwned(Work(v, ino, n), Work(v', ino, n), i);
      }
    }
  }

  lemma WriteDoneOthers(v: Vol, v': Vol, ino: nat, offset: nat, data: seq<Byte>)
    requires WriteDone(v, v', ino, offset, data)
    ensures OthersKept(v, v', ino)
  {
    hide BlockOf, BlockWritten, BlockUntouched, NotMoved;
  }

  lemma FailedOthers(w: Work, w1: Work, w2: Work, offset: nat, data: seq<Byte>, b: nat)
    requires InodeOk(w.n) && InodeOk(w1.n) && InodeOk(w2.n) && Wrote(w, w1, offset, data, First(offset), b) && Grown(w1, w2, b)
    ensures OthersKept(w.v, w2.v, w.ino) && w2.v.inodes == w.v.inodes
  {
    hide BlockOf, BlockWritten, BlockUntouched, NotMoved;
  }

  /** Every other file reads as before, from any offset and for any size. */
  lemma OtherFileKept(v: Vol, v': Vol, ino: nat, j: nat, o: nat, size: nat, out: seq<Byte>)
    requires VolOk(v) && OthersKept(v, v', ino) && j in v.inodes && j != ino
    ensures j in v'.inodes && v'.inodes[j] == v.inodes[j]
    ensures ReadGives(v'.disk, v.inodes[j], o, size, out) <==> ReadGives(v.disk, v.inodes[j], o, size, out)
  {
    hide BlockOf;
    var w, w' := Work(v, ino, v.inodes[j]), Work(v', ino, v.inodes[j]);
    OtherOwned(w, w', j);
    SameReads(v, v', j, o, size, out);
  }

  /** A file whose block numbers and blocks are the same reads the same. */
  lemma SameReads(v: Vol, v': Vol, j: nat, o: nat, size: nat, out: seq<Byte>)
    requires VolOk(v) && j in v.inodes
    requires forall q :: InFile(q) ==> BlockOf(v'.disk, v.inodes[j], q) == BlockOf(v.disk, v.inodes[j], q)
    requires forall x :: x in v.owner && v.owner[x].0 == j ==> Get(v'.disk, x) == Get(v.disk, x)
    ensures ReadGives(v'.disk, v.inodes[j], o, size, out) <==> ReadGives(v.disk, v.inodes[j], o, size, out)
  {
    hide BlockOf;
    var n := v.inodes[j];
    assert FileOk(v, j, n);
    forall i, k | 0 <= i && 0 <= k < BLK
      ensures DataBlock(v'.disk, n, i) == DataBlock(v.disk, n, i)
      ensures DataBlock(v.disk, n, i) != 0 ==> ByteIn(v'.disk, n, i, k) == ByteIn(v.disk, n, i, k)
    {
      if i < MAX_DATA { assert RoleOwned(v.disk, n, j, v.owner, Data(i)); }
    }
    forall k | 0 <= k < |out| ensures IsByteAt(v'.disk, n, o + k, out[k]) <==> IsByteAt(v.disk, n, o + k, out[k]) {
      assert DataBlock(v'.disk, n, (o + k) / BLK) == DataBlock(v.disk, n, (o + k) / BLK);
      assert DataBlock(v.disk, n, (o + k) / BLK) != 0
        ==> ByteIn(v'.disk, n, (o + k) / BLK, (o + k) % BLK) == ByteIn(v.disk, n, (o + k) / BLK, (o + k) % BLK);
    }
  }

  // ---------------------------------------------------------------------------------------------
  // Truncating
  // ---------------------------------------------------------------------------------------------

  predicate NoDouble(n: Inode) { |n.block| == 15 && n.block[13] == 0 }

  /** Block `x` is one of the file's. */
  predicate Held(v: Vol, ino: nat, x: nat)
    requires ino in v.inodes && InodeOk(v.inodes[ino])
  {
    x != 0 && x in v.owner && v.owner[x].0 == ino && InFile(v.owner[x].1) && BlockOf(v.disk, v.inodes[ino], v.owner[x].1) == x
  }

  /** What ext2_truncate leaves: the file is empty, its blocks are free, all else is as it was. */
  ghost predicate Truncated(v: Vol, v': Vol, ino: nat) {
    && ino in v.inodes && InodeOk(v.inodes[ino]) && ino in v'.inodes
    && v'.disk == v.disk && v'.inodes == v.inodes[ino := v'.inodes[ino]] && Emptied(v.inodes[ino], v'.inodes[ino])
    && v'.space.perGroup == v.space.perGroup && |v'.space.used| == |v.space.used|
    && (forall x :: 0 <= x < |v.space.used| ==> v'.space.used[x] == (v.space.used[x] && !Held(v, ino, x)))
    && (forall x :: x in v'.owner <==> x in v.owner && !Held(v, ino, x))
    && (forall x :: x in v'.owner ==> v'.owner[x] == v.owner[x])
  }

  predicate Emptied(n: Inode, n': Inode) {
    |n'.block| == 15 && n'.size == 0 && n'.blocks == 0 && n'.ftype == n.ftype && forall j :: 0 <= j < 14 ==> n'.block[j] == 0
  }

  /** A truncated file has nothing to read. */
  lemma TruncatedIsEmpty(v: Vol, v': Vol, ino: nat, offset: nat, size: nat, out: seq<Byte>)
    requires Truncated(v, v', ino) && InodeOk(v'.inodes[ino]) && ReadGives(v'.disk, v'.inodes[ino], offset, size, out)
    ensures out == [] && forall i: nat :: DataBlock(v'.disk, v'.inodes[ino], i) == 0
  {
    var n := v'.inodes[ino];
    forall i: nat ensures DataBlock(v'.disk, n, i) == 0 {
      if DIRECT + PER <= i < MAX_DATA { assert BlockOf(v'.disk, n, Double) == 0; }
    }
  }

  /** The first `m` data blocks of the file. */
  ghost function HeldBelow(v: Vol, ino: nat, m: nat): set<nat>
    requires ino in v.inodes && InodeOk(v.inodes[ino])
  {
    set x | x in v.owner && Held(v, ino, x) && v.owner[x].1.Data? && v.owner[x].1.index < m
  }

  /** From `v` to `v'` exactly the blocks in `gone` have been freed. */
  ghost predicate Freeing(v: Vol, v': Vol, gone: set<nat>) {
    && v'.disk == v.disk && v'.inodes == v.inodes && SpaceOk(v') && v'.owner == v.owner - gone
    && v'.space.perGroup == v.space.perGroup && |v'.space.used| == |v.space.used|
    && forall x :: 0 <= x < |v.space.used| ==> v'.space.used[x] == (v.space.used[x] && x !in gone)
  }

  lemma FreeingNone(v: Vol, ino: nat)
    requires VolOk(v) && ino in v.inodes
    ensures FileOk(v, ino, v.inodes[ino]) && Freeing(v, v, HeldBelow(v, ino, 0))
  {
    assert FileOk(v, ino, v.inodes[ino]);
    assert HeldBelow(v, ino, 0) == {};
  }

  lemma FreeingDisk(v: Vol, v': Vol, gone: set<nat>)
    requires Freeing(v, v', gone)
    ensures v'.disk == v.disk && SpaceOk(v')
  {
  }

  /** The next data block is one more block to free, and not yet freed. */
  lemma NextHeld(v: Vol, ino: nat, m: nat)
    requires ino in v.inodes && FileOk(v, ino, v.inodes[ino]) && m < MAX_DATA
    ensures var x := BlockOf(v.disk, v.inodes[ino], Data(m));
            && (x == 0 ==> HeldBelow(v, ino, m + 1) == HeldBelow(v, ino, m))
            && (x != 0 ==> x in v.owner && x !in HeldBelow(v, ino, m) && HeldBelow(v, ino, m + 1) == HeldBelow(v, ino, m) + {x})
  {
    hide BlockOf;
    assert RoleOwned(v.disk, v.inodes[ino], ino, v.owner, Data(m));
  }

  lemma FreeNext(v: Vol, v': Vol, ino: nat, m: nat)
    requires ino in v.inodes && FileOk(v, ino, v.inodes[ino]) && m < DIRECT + PER && Freeing(v, v', HeldBelow(v, ino, m))
    ensures var x := BlockOf(v.disk, v.inodes[ino], Data(m)); x != 0 ==> x in v'.owner
    ensures SpaceOk(v') && v'.disk == v.disk
    ensures BlockOf(v.disk, v.inodes[ino], Data(m)) == 0 ==> Freeing(v, v', HeldBelow(v, ino, m + 1))
    ensures m < DIRECT ==> BlockOf(v.disk, v.inodes[ino], Data(m)) == v.inodes[ino].block[m]
    ensures m >= DIRECT ==> BlockOf(v.disk, v.inodes[ino], Data(m)) == Follow(v.disk, v.inodes[ino].block[12], m - DIRECT)
  {
    NextHeld(v, ino, m);
  }

  /** Freeing it carries the work on by one block. */
  lemma FreedNext(v: Vol, v1: Vol, v': Vol, ino: nat, m: nat)
    requires ino in v.inodes && FileOk(v, ino, v.inodes[ino]) && m < DIRECT + PER && Freeing(v, v1, HeldBelow(v, ino, m))
    requires var x := BlockOf(v.disk, v.inodes[ino], Data(m));
             && x != 0 && x < |v1.space.used| && v' == v1.(space := v'.space, owner := v1.owner - {x})
             && v'.space.used == v1.space.used[x := false] && v'.space.perGroup == v1.space.perGroup && SpaceOk(v')
    ensures Freeing(v, v', HeldBelow(v, ino, m + 1))
  {
    hide BlockOf, SpaceOk;
    NextHeld(v, ino, m);
    var x := BlockOf(v.disk, v.inodes[ino], Data(m));
    var gone := HeldBelow(v, ino, m);
    assert v'.owner == v.owner - (gone + {x});
  }

  ghost function HeldAll(v: Vol, ino: nat): set<nat>
    requires ino in v.inodes && InodeOk(v.inodes[ino])
  {
    set x | x in v.owner && Held(v, ino, x)
  }

  /** Without a double indirect table nothing hangs below it. */
  lemma NothingBelowDouble(d: Disk, n: Inode, r: Role)
    requires InodeOk(n) && NoDouble(n) && InFile(r) && BlockOf(d, n, r) != 0
    ensures r == Single || (r.Data? && r.index < DIRECT + PER && (r.index >= DIRECT ==> n.block[12] != 0))
  {
    if r.Data? && r.index >= DIRECT + PER { LevelEmpty(d, n, PlaceOf(r).table); }
  }

  lemma LevelEmpty(d: Disk, n: Inode, q: Role)
    requires InodeOk(n) && NoDouble(n) && InFile(q) && q.Level1?
    ensures BlockOf(d, n, q) == 0
  {
  }

  /** The blocks of such a file are its data blocks and its one table. */
  lemma HeldBlocks(v: Vol, ino: nat)
    requires ino in v.inodes && FileOk(v, ino, v.inodes[ino]) && NoDouble(v.inodes[ino])
    ensures var t := v.inodes[ino].block[12];
            && (t == 0 ==> HeldAll(v, ino) == HeldBelow(v, ino, DIRECT))
            && (t != 0 ==> && t in v.owner && t !in HeldBelow(v, ino, DIRECT + PER)
                           && HeldAll(v, ino) == HeldBelow(v, ino, DIRECT + PER) + {t})
  {
    var n := v.inodes[ino];
    var t := n.block[12];
    assert RoleOwned(v.disk, n, ino, v.owner, Single) && BlockOf(v.disk, n, Single) == t;
    hide BlockOf;
    forall x | x in HeldAll(v, ino) ensures x == t || x in HeldBelow(v, ino, if t == 0 then DIRECT else DIRECT + PER) {
      NothingBelowDouble(v.disk, n, v.owner[x].1);
    }
  }

  lemma FreedTable(v: Vol, v1: Vol, v': Vol, ino: nat)
    requires ino in v.inodes && FileOk(v, ino, v.inodes[ino]) && NoDouble(v.inodes[ino])
    requires var x := v.inodes[ino].block[12];
             && x != 0 && x < |v1.space.used| && v' == v1.(space := v'.space, owner := v1.owner - {x})
             && v'.space.used == v1.space.used[x := false] && v'.space.perGroup == v1.space.perGroup && SpaceOk(v')
    requires Freeing(v, v1, HeldBelow(v, ino, DIRECT + PER))
    ensures Freeing(v, v', HeldAll(v, ino))
  {
    hide BlockOf, SpaceOk, Owned;
    HeldBlocks(v, ino);
    var x := v.inodes[ino].block[12];
    assert v'.owner == v.owner - (HeldBelow(v, ino, DIRECT + PER) + {x});
  }

  lemma {:induction false} EmptyHasNoBlocks(d: Disk, n: Inode, q: Role)
    requires InodeOk(n) && InFile(q) && forall j :: 0 <= j < 14 ==> n.block[j] == 0
    ensures BlockOf(d, n, q) == 0
    decreases Depth(q)
  {
    if PlaceOf(q).Entry? { EmptyHasNoBlocks(d, n, PlaceOf(q).table); }
  }

  /** Writing the empty inode back completes the truncation. */
  lemma AfterTruncate(v: Vol, v1: Vol, v': Vol, ino: nat)
    requires VolOk(v) && ino in v.inodes && FileOk(v, ino, v.inodes[ino]) && Freeing(v, v1, HeldAll(v, ino))
    requires ino in v'.inodes && v' == v1.(inodes := v1.inodes[ino := v'.inodes[ino]]) && Emptied(v.inodes[ino], v'.inodes[ino])
    ensures VolOk(v') && Truncated(v, v', ino)
  {
    hide BlockOf;
    var n := v'.inodes[ino];
    assert Owned(v'.disk, n, ino, v'.owner) by {
      forall q | InFile(q) ensures RoleOwned(v'.disk, n, ino, v'.owner, q) { EmptyHasNoBlocks(v'.disk, n, q); }
    }
    forall i | i in v'.inodes ensures FileOk(v', i, v'.inodes[i]) {
      if i != ino {
        assert FileOk(v, i, v.inodes[i]);
        OtherOwned(Work(v, ino, v.inodes[ino]), Work(v', ino, n), i);
      }
    }
  }

  // ---------------------------------------------------------------------------------------------
  // Write and truncate
  // ---------------------------------------------------------------------------------------------

  /** A file that has never had a block. */
  ghost predicate FreshFile(v: Vol, ino: nat) {
    ino in v.inodes && forall x :: x in v.owner ==> v.owner[x].0 != ino
  }

  /** A write that ends in the reach of the single indirect table makes no double indirect one. */
  lemma ShortWriteNoDouble(v: Vol, v': Vol, ino: nat, offset: nat, data: seq<Byte>)
    requires WriteDone(v, v', ino, offset, data) && NoDouble(v.inodes[ino]) && Last(offset, |data|) < DIRECT + PER
    ensures NoDouble(v'.inodes[ino])
  {
    hide BlockOf, BlockWritten, BlockUntouched, NotMoved;
  }

  /** Writing a fresh file and truncating it gives back every bit of the bitmaps and every counter. */
  lemma WriteThenTruncate(v: Vol, v1: Vol, v2: Vol, ino: nat, offset: nat, data: seq<Byte>)
    requires VolOk(v) && VolOk(v1) && VolOk(v2) && FreshFile(v, ino)
    requires WriteDone(v, v1, ino, offset, data) && Truncated(v1, v2, ino)
    ensures v2.space == v.space && v2.owner == v.owner
  {
    hide BlockOf, BlockWritten, BlockUntouched, NotMoved, Sp.Accounted, Sp.FirstBlocksUsed;
    var w, w1 := Work(v, ino, v.inodes[ino]), Work(v1.(inodes := v.inodes), ino, v1.inodes[ino]);
    forall x | 0 <= x < |v.space.used| ensures v2.space.used[x] == v.space.used[x] {
      if x in v1.owner {
        assert BlockInUse(v1.space, x);
        if x in v.owner {
          assert BlockInUse(v.space, x);
        } else {
          assert Fresh(w, w1, x);
        }
      }
    }
    forall x | x in v1.owner ensures x in v2.owner <==> x in v.owner {
      if x !in v.owner { assert Fresh(w, w1, x); }
    }
    assert v2.space.used == v.space.used;
    Sp.CountersDetermined(v.space, v2.space);
    assert v2.owner == v.owner;
  }
}
