/** The EXT2 driver: the disk, the inode table and the block accounts, changed in place through two
    scratch buffers. Block operations on metadata overwrite `blkbuf` only, so that a table held in
    `indbuf` survives an allocation. */
module Ext2Volumes {
  import opened Bytes
  import opened Ext2Layout
  import opened Ext2Files
  import opened Ext2Writes
  import Sp = Ext2Space

  class Volume {
    var disk: Disk
    var inodes: map<nat, Inode>
    var space: Sp.Space
    ghost var owner: Owners
    const blkbuf: array<Byte>
    const indbuf: array<Byte>

    ghost predicate Buffers() {
      blkbuf.Length == BLK && indbuf.Length == BLK && blkbuf != indbuf
    }

    ghost function Now(): Vol
      reads this
    {
      Vol(disk, inodes, space, owner)
    }

    ghost predicate Valid()
      reads this
    {
      Buffers() && VolOk(Now())
    }

    /** The file `ino` with the inode `n` in memory. */
    ghost function At(ino: nat, n: Inode): Work
      reads this
    {
      Work(Now(), ino, n)
    }

    /** Mounting: the buffers, and a volume as found on disk. */
    constructor (disk: Disk, inodes: map<nat, Inode>, space: Sp.Space, ghost owner: Owners)
      requires VolOk(Vol(disk, inodes, space, owner))
      ensures Valid() && Now() == Vol(disk, inodes, space, owner) && fresh(blkbuf) && fresh(indbuf)
    {
      this.disk, this.inodes, this.space, this.owner := disk, inodes, space, owner;
      blkbuf := new Byte[BLK](_ => 0);
      indbuf := new Byte[BLK](_ => 0);
    }

    // -------------------------------------------------------------------------------------------
    // Blocks and inodes
    // -------------------------------------------------------------------------------------------

    method ReadBlock(b: nat, buf: array<Byte>)
      requires buf.Length == BLK
      modifies buf
      ensures buf[..] == Get(disk, b)
    {
      CopyIn(buf, 0, Get(disk, b));
    }

    method WriteBlock(b: nat, buf: array<Byte>)
      requires buf.Length == BLK
      modifies this`disk
      ensures disk == old(disk)[b := buf[..]]
    {
      disk := disk[b := buf[..]];
    }

    method ClearBuffer(buf: array<Byte>)
      requires buf.Length == BLK
      modifies buf
      ensures buf[..] == Zeros()
    {
      CopyIn(buf, 0, Zeros());
    }

    /** wr32 at the k-th place of a table. */
    method PutPtr(buf: array<Byte>, k: nat, v: nat)
      requires buf.Length == BLK && k < PER
      modifies buf
      ensures buf[..] == SetPtr(old(buf[..]), k, v)
    {
      buf[4 * k] := v % 256;
      buf[4 * k + 1] := v / 256 % 256;
      buf[4 * k + 2] := v / 0x1_0000 % 256;
      buf[4 * k + 3] := v / 0x100_0000 % 256;
    }

    /** ext2_write_inode: the block of the inode table goes through `blkbuf`. */
    method WriteInode(ino: nat, n: Inode)
      modifies this`inodes, blkbuf
      ensures inodes == old(inodes)[ino := n]
    {
      inodes := inodes[ino := n];
      modify blkbuf;
    }

    /** ext2_alloc_block. */
    method AllocBlock() returns (x: nat)
      requires Sp.Shape(space)
      modifies this`space, blkbuf
      ensures (space, x) == Sp.Alloc(old(space))
    {
      if space.total == 0 {
        return 0;
      }
      hide Sp.AllocFrom;
      ghost var s0 := space;
      var g, groups := 0, |space.free|;
      while g < groups
        invariant g <= groups == |space.free| && Sp.Shape(space) && space.total > 0
        invariant Sp.AllocFrom(space, g) == Sp.AllocFrom(s0, 0)
      {
        x := AllocInGroup(g);
        if x != 0 {
          return x;
        }
        g := g + 1;
      }
      return 0;
    }

    /** One group: a block of it, or 0 if the search has to go on. */
    method AllocInGroup(g: nat) returns (x: nat)
      requires Sp.Shape(space) && g < |space.free| && space.total > 0
      modifies this`space, blkbuf
      ensures x != 0 ==> (space, x) == Sp.AllocFrom(old(space), g)
      ensures x == 0 ==> Sp.Shape(space) && |space.free| == |old(space).free| && space.total > 0
                         && Sp.AllocFrom(space, g + 1) == Sp.AllocFrom(old(space), g)
    {
      hide Sp.Lo, Sp.Hi;
      modify blkbuf;
      if space.free[g] == 0 {
        return 0;
      }
      Sp.GroupBounds(space, g);
      x := FirstClear(Sp.Lo(space, g), Sp.Hi(space, g));
      if x == Sp.Hi(space, g) {
        return 0;
      }
      if x == Sp.Lo(space, g) {
        space := space.(used := space.used[x := true]);
        return 0;
      }
      space := space.(used := space.used[x := true], free := space.free[g := space.free[g] - 1], total := space.total - 1);
    }

    /** The scan of ext2_block_bitmap_alloc. */
    method FirstClear(lo: nat, hi: nat) returns (x: nat)
      requires lo <= hi <= |space.used|
      ensures x == Sp.FirstClear(space.used, lo, hi)
    {
      x := lo;
      while x < hi
        invariant lo <= x <= hi && Sp.FirstClear(space.used, x, hi) == Sp.FirstClear(space.used, lo, hi)
      {
        if !space.used[x] {
          return x;
        }
        x := x + 1;
      }
    }

    /** ext2_free_block. */
    method FreeBlock(x: nat) returns (r: int)
      requires Sp.Shape(space) && x < |space.used|
      modifies this`space, blkbuf
      ensures x == 0 ==> r == -1 && space == old(space)
      ensures x != 0 ==> r == 0 && space == Sp.Free(old(space), x)
    {
      if x == 0 {
        return -1;
      }
      modify blkbuf;
      Sp.GroupOf(space, x);
      var g := x / space.perGroup;
      space := space.(used := space.used[x := false], free := space.free[g := (space.free[g] + 1) % 0x1_0000],
                      total := (space.total + 1) % 0x1_0000_0000);
      return 0;
    }

    /** ext2_data_block. */
    method FindDataBlock(n: Inode, i: nat) returns (b: nat)
      requires Buffers() && InodeOk(n)
      modifies indbuf
      ensures b == DataBlock(disk, n, i)
    {
      hide DataBlock, Ptr;
      DataBlockCases(disk, n, i);
      if i < DIRECT {
        return n.block[i];
      }
      var idx := i - DIRECT;
      if idx < PER {
        if n.block[12] == 0 {
          return 0;
        }
        ReadBlock(n.block[12], indbuf);
        return Ptr(indbuf[..], idx);
      }
      idx := idx - PER;
      if n.block[13] == 0 {
        return 0;
      }
      ReadBlock(n.block[13], indbuf);
      var l1, l2 := idx / PER, idx % PER;
      if l1 >= PER {
        return 0;
      }
      var t := Ptr(indbuf[..], l1);
      if t == 0 {
        return 0;
      }
      ReadBlock(t, indbuf);
      return Ptr(indbuf[..], l2);
    }

    // -------------------------------------------------------------------------------------------
    // Reading
    // -------------------------------------------------------------------------------------------

    /** ext2_read_file. */
    method ReadFile(ino: nat, offset: nat, dst: array<Byte>) returns (r: int)
      requires Valid() && (ino == 0 || ino in inodes) && dst != blkbuf && dst != indbuf
      modifies dst, blkbuf, indbuf
      ensures ino == 0 || !Readable(inodes[ino]) ==> r == -1 && dst[..] == old(dst[..])
      ensures ino != 0 && Readable(inodes[ino]) ==>
                && 0 <= r <= dst.Length && InodeOk(inodes[ino])
                && ReadGives(disk, inodes[ino], offset, dst.Length, dst[..r])
                && dst[r..] == old(dst[r..])
    {
      if ino == 0 {
        return -1;
      }
      modify blkbuf;
      var n := inodes[ino];
      assert FileOk(Now(), ino, n);
      if !Readable(n) {
        return -1;
      }
      if offset >= n.size {
        return 0;
      }
      var size := if dst.Length > n.size - offset then n.size - offset else dst.Length;
      r := ReadChunks(n, offset, dst, size);
    }

    method CopyChunk(b: nat, within: nat, chunk: nat, dst: array<Byte>, at: nat)
      requires Buffers() && dst != blkbuf && within + chunk <= BLK && at + chunk <= dst.Length
      modifies dst, blkbuf
      ensures dst[..] == Over(old(dst[..]), at, Get(disk, b)[within..within + chunk])
    {
      hide Over;
      ReadBlock(b, blkbuf);
      assert blkbuf[within..within + chunk] == blkbuf[..][within..within + chunk];
      CopyIn(dst, at, blkbuf[within..within + chunk]);
    }

    method ReadChunks(n: Inode, offset: nat, dst: array<Byte>, size: nat) returns (copied: nat)
      requires Buffers() && InodeOk(n) && dst != blkbuf && dst != indbuf && size <= dst.Length
      modifies dst, blkbuf, indbuf
      ensures copied <= size && ReadSoFar(disk, n, offset, copied, old(dst[..]), dst[..])
      ensures copied < size ==> DataBlock(disk, n, (offset + copied) / BLK) == 0
    {
      hide DataBlock, ReadSoFar, Over;
      copied := 0;
      NothingRead(disk, n, offset, dst[..]);
      while copied < size
        invariant 0 <= copied <= size && ReadSoFar(disk, n, offset, copied, old(dst[..]), dst[..])
      {
        var cur := offset + copied;
        var b := FindDataBlock(n, cur / BLK);
        if b == 0 {
          break;
        }
        var within := cur % BLK;
        var chunk := if BLK - within > size - copied then size - copied else BLK - within;
        ghost var now := dst[..];
        CopyChunk(b, within, chunk, dst, copied);
        ChunkRead(disk, n, offset, copied, chunk, old(dst[..]), now, dst[..]);
        copied := copied + chunk;
      }
    }

    // -------------------------------------------------------------------------------------------
    // Writing
    // -------------------------------------------------------------------------------------------

    /** A block from the free ones, for a sound volume. */
    method TakeBlock() returns (f: nat)
      requires SpaceOk(Now())
      modifies this`space, blkbuf
      ensures f == 0 ==> space == old(space)
      ensures f != 0 ==> JustTaken(old(space), space, f)
      ensures f == 0 <==> Sp.Full(old(space))
    {
      hide Sp.Alloc, Sp.Accounted, Sp.FirstBlocksUsed, Sp.Shape;
      AccountedShape(space);
      Sp.AllocExact(space);
      f := AllocBlock();
    }

    /** A direct block, or a top-level table: its number goes into the inode. */
    method NewSlot(ino: nat, n: Inode, r: Role, j: nat, ghost b: nat) returns (f: nat, n': Inode)
      requires Buffers() && WorkOk(At(ino, n)) && InFile(r) && PlaceOf(r) == Slot(j) && n.block[j] == 0
      requires (r.Data? ==> r == Data(b)) && (r == Double ==> DIRECT + PER <= b)
      modifies this`disk, this`space, this`owner, blkbuf, indbuf
      ensures WorkOk(At(ino, n')) && Grown(old(At(ino, n)), At(ino, n'), b)
      ensures f != 0 ==> BlockOf(disk, n', r) == f
      ensures f == 0 ==> At(ino, n') == old(At(ino, n))
      ensures f == 0 ==> Sp.Full(space)
      ensures f != 0 && IsTable(r) ==> indbuf[..] == Get(disk, f)
    {
      hide WorkOk, Grown, BlockOf, Sp.Full;
      ghost var w := At(ino, n);
      WorkParts(w);
      n' := n;
      f := TakeBlock();
      if f == 0 {
        GrownNone(w, b);
        return;
      }
      n' := n.(block := n.block[j := f]);
      if IsTable(r) {
        ClearBuffer(indbuf);
        WriteBlock(f, indbuf);
      }
      owner := owner[f := (ino, r)];
      SlotAdded(w, r, j, f, space, At(ino, n'));
      AddBlockOk(w, r, f, space, b);
      AddedBlock(w, r, f, space, r);
    }

    /** A block whose number goes into the table `t` held in `indbuf`; if it is a table itself, it is
        emptied after it has been entered. */
    method NewEntry(ino: nat, n: Inode, r: Role, t: nat, k: nat, ghost b: nat) returns (f: nat)
      requires Buffers() && WorkOk(At(ino, n)) && InFile(r) && PlaceOf(r).Entry? && PlaceOf(r).k == k
      requires t != 0 && BlockOf(disk, n, PlaceOf(r).table) == t && indbuf[..] == Get(disk, t) && Ptr(Get(disk, t), k) == 0
      requires r.Data? ==> r == Data(b)
      modifies this`disk, this`space, this`owner, blkbuf, indbuf
      ensures WorkOk(At(ino, n)) && Grown(old(At(ino, n)), At(ino, n), b)
      ensures f != 0 ==> BlockOf(disk, n, r) == f
      ensures f == 0 ==> Sp.Full(space)
      ensures f != 0 && IsTable(r) ==> indbuf[..] == Get(disk, f)
    {
      hide WorkOk, Grown, BlockOf, Sp.Full;
      ghost var w := At(ino, n);
      WorkParts(w);
      EntryMissing(w, r);
      f := TakeBlock();
      if f == 0 {
        GrownNone(w, b);
        return;
      }
      TableNotFresh(w, PlaceOf(r).table, f);
      PutPtr(indbuf, k, f);
      WriteBlock(t, indbuf);
      if IsTable(r) {
        ClearBuffer(indbuf);
        WriteBlock(f, indbuf);
      }
      owner := owner[f := (ino, r)];
      EntryAdded(w, r, f, space, At(ino, n));
      AddBlockOk(w, r, f, space, b);
      AddedBlock(w, r, f, space, r);
    }

    /** A top-level table in `indbuf`, made first if the file has none. */
    method TopTable(ino: nat, n: Inode, r: Role, j: nat, ghost b: nat) returns (t: nat, n': Inode)
      requires Buffers() && WorkOk(At(ino, n)) && InFile(r) && IsTable(r) && PlaceOf(r) == Slot(j)
      requires r == Double ==> DIRECT + PER <= b
      modifies this`disk, this`space, this`owner, blkbuf, indbuf
      ensures WorkOk(At(ino, n')) && Grown(old(At(ino, n)), At(ino, n'), b)
      ensures t != 0 ==> BlockOf(disk, n', r) == t && indbuf[..] == Get(disk, t)
      ensures t == 0 ==> At(ino, n') == old(At(ino, n))
      ensures t == 0 ==> n.block[j] == 0 && Sp.Full(space)
    {
      hide WorkOk, Grown, Sp.Full;
      ghost var w := At(ino, n);
      WorkParts(w);
      t, n' := n.block[j], n;
      if t == 0 {
        t, n' := NewSlot(ino, n, r, j, b);
      } else {
        ReadBlock(t, indbuf);
        GrownNone(w, b);
      }
    }

    /** The block that entry `k` of the table in `indbuf` names, made first if there is none. A block that
        is a table is then in `indbuf` itself. */
    method EntryOf(ino: nat, n: Inode, r: Role, t: nat, k: nat, ghost b: nat) returns (f: nat)
      requires Buffers() && WorkOk(At(ino, n)) && InFile(r) && PlaceOf(r).Entry? && PlaceOf(r).k == k
      requires t != 0 && BlockOf(disk, n, PlaceOf(r).table) == t && indbuf[..] == Get(disk, t)
      requires r.Data? ==> r == Data(b)
      modifies this`disk, this`space, this`owner, blkbuf, indbuf
      ensures WorkOk(At(ino, n)) && Grown(old(At(ino, n)), At(ino, n), b)
      ensures f != 0 ==> BlockOf(disk, n, r) == f
      ensures f == 0 ==> Sp.Full(space)
      ensures f != 0 && IsTable(r) ==> indbuf[..] == Get(disk, f)
    {
      hide WorkOk, Grown, Sp.Full;
      ghost var w := At(ino, n);
      WorkParts(w);
      f := Ptr(indbuf[..], k);
      if f == 0 {
        f := NewEntry(ino, n, r, t, k, b);
      } else {
        GrownNone(w, b);
        if IsTable(r) {
          ReadBlock(f, indbuf);
        }
      }
    }

    /** The single indirect branch of ext2_write_file. */
    method EnsureSingle(ino: nat, n: Inode, b: nat) returns (blk: nat, n': Inode)
      requires Buffers() && WorkOk(At(ino, n)) && DIRECT <= b < DIRECT + PER
      modifies this`disk, this`space, this`owner, blkbuf, indbuf
      ensures WorkOk(At(ino, n')) && Grown(old(At(ino, n)), At(ino, n'), b)
      ensures blk != 0 ==> BlockOf(disk, n', Data(b)) == blk
      ensures blk == 0 ==> Sp.Full(space)
    {
      hide WorkOk, Grown, BlockOf, Sp.Full;
      ghost var w := At(ino, n);
      WorkParts(w);
      var indir;
      indir, n' := TopTable(ino, n, Single, 12, b);
      if indir == 0 {
        return 0, n';
      }
      ghost var w1 := At(ino, n');
      WorkParts(w1);
      blk := EntryOf(ino, n', Data(b), indir, b - DIRECT, b);
      WorkParts(At(ino, n'));
      GrownTwice(w, w1, At(ino, n'), b);
    }

    /** The double indirect branch of ext2_write_file. */
    method EnsureDouble(ino: nat, n: Inode, b: nat) returns (blk: nat, n': Inode)
      requires Buffers() && WorkOk(At(ino, n)) && DIRECT + PER <= b
      modifies this`disk, this`space, this`owner, blkbuf, indbuf
      ensures WorkOk(At(ino, n')) && Grown(old(At(ino, n)), At(ino, n'), b)
      ensures blk != 0 ==> b < MAX_DATA && BlockOf(disk, n', Data(b)) == blk
      ensures blk == 0 ==> b >= MAX_DATA || Sp.Full(space)
    {
      hide WorkOk, Grown, BlockOf, PlaceOf, Sp.Full;
      ghost var w := At(ino, n);
      WorkParts(w);
      var l1, l2 := (b - DIRECT - PER) / PER, (b - DIRECT - PER) % PER;
      n' := n;
      if l1 >= PER {
        GrownNone(w, b);
        return 0, n;
      }
      DoublePlace(b);
      var indir2;
      indir2, n' := TopTable(ino, n, Double, 13, b);
      if indir2 == 0 {
        return 0, n';
      }
      ghost var w1 := At(ino, n');
      WorkParts(w1);
      var t := EntryOf(ino, n', Level1(l1), indir2, l1, b);
      ghost var w2 := At(ino, n');
      WorkParts(w2);
      GrownTwice(w, w1, w2, b);
      if t == 0 {
        return 0, n';
      }
      blk := EntryOf(ino, n', Data(b), t, l2, b);
      WorkParts(At(ino, n'));
      GrownTwice(w, w2, At(ino, n'), b);
    }

    /** The data block for block `b` of the file, made first if there is none; 0 if there is no room. */
    method EnsureBlock(ino: nat, n: Inode, b: nat) returns (blk: nat, n': Inode)
      requires Buffers() && WorkOk(At(ino, n))
      modifies this`disk, this`space, this`owner, blkbuf, indbuf
      ensures WorkOk(At(ino, n')) && Grown(old(At(ino, n)), At(ino, n'), b)
      ensures blk != 0 ==> b < MAX_DATA && BlockOf(disk, n', Data(b)) == blk
      ensures blk == 0 ==> b >= MAX_DATA || Sp.Full(space)
    {
      hide WorkOk, Grown, Sp.Full;
      ghost var w := At(ino, n);
      WorkParts(w);
      if b < DIRECT {
        blk, n' := n.block[b], n;
        if blk == 0 {
          blk, n' := NewSlot(ino, n, Data(b), b, b);
        } else {
          GrownNone(w, b);
        }
      } else if b < DIRECT + PER {
        blk, n' := EnsureSingle(ino, n, b);
      } else {
        blk, n' := EnsureDouble(ino, n, b);
      }
    }

    /** One round of the loop of ext2_write_file. */
    method WriteOne(ino: nat, n: Inode, offset: nat, data: seq<Byte>, b: nat, ghost w0: Work) returns (ok: bool, n': Inode)
      requires Buffers() && WorkOk(At(ino, n)) && |data| > 0 && First(offset) <= b <= Last(offset, |data|)
      requires InodeOk(w0.n) && InodeOk(n) && Wrote(w0, At(ino, n), offset, data, First(offset), b)
      modifies this`disk, this`space, this`owner, blkbuf, indbuf
      ensures WorkOk(At(ino, n')) && InodeOk(n')
      ensures n'.size == n.size && n'.ftype == n.ftype
      ensures ok ==> Wrote(w0, At(ino, n'), offset, data, First(offset), b + 1)
      ensures !ok ==> Grown(old(At(ino, n)), At(ino, n'), b)
      ensures !ok ==> b >= MAX_DATA || Sp.Full(space)
    {
      hide WorkOk, Wrote, Over, BlockOf, First, Last, ChunkStart, ChunkEnd, Sp.Full;
      ghost var w1 := At(ino, n);
      var blk;
      blk, n' := EnsureBlock(ino, n, b);
      ghost var w2 := At(ino, n');
      WorkParts(w2);
      if blk == 0 {
        return false, n';
      }
      ChunkBounds(offset, |data|, b);
      ReadBlock(blk, blkbuf);
      CopyIn(blkbuf, ChunkStart(offset, b), Chunk(offset, data, b));
      WriteBlock(blk, blkbuf);
      WroteNext(w0, w1, w2, At(ino, n'), offset, data, b);
      return true, n';
    }

    /** ext2_count_blocks. The double indirect part re-reads a table that its own inner loop has
        overwritten; without such a table the count is right. */
    method CountBlocks(n: Inode) returns (c: nat)
      requires Buffers() && InodeOk(n)
      modifies indbuf
      ensures n.block[13] == 0 ==> c == BlockCount(disk, n) * (BLK / 512)
    {
      var count: nat := 0;
      for i := 0 to DIRECT
        invariant count == NonZero(n.block[..i])
      {
        assert n.block[..i + 1][..i] == n.block[..i];
        if n.block[i] != 0 {
          count := count + 1;
        }
      }
      if n.block[12] != 0 {
        count := count + 1;
        ReadBlock(n.block[12], indbuf);
        var more := CountTable();
        count := count + more;
      }
      if n.block[13] != 0 {
        count := count + 1;
        ReadBlock(n.block[13], indbuf);
        for k := 0 to PER {
          var t := Ptr(indbuf[..], k);
          if t != 0 {
            count := count + 1;
            ReadBlock(t, indbuf);
            var more := CountTable();
            count := count + more;
          }
        }
      }
      return count * (BLK / 512);
    }

    method CountTable() returns (c: nat)
      requires Buffers()
      ensures c == NonZero(Ptrs(indbuf[..]))
    {
      c := 0;
      ghost var ps := Ptrs(indbuf[..]);
      for k := 0 to PER
        invariant c == NonZero(ps[..k])
      {
        assert ps[..k + 1][..k] == ps[..k];
        if Ptr(indbuf[..], k) != 0 {
          c := c + 1;
        }
      }
      assert ps[..PER] == ps;
    }

    /** ext2_write_file. */
    method WriteFile(ino: nat, offset: nat, data: seq<Byte>) returns (r: int)
      requires Valid() && (ino == 0 || ino in inodes) && offset + |data| < U32
      modifies this, blkbuf, indbuf
      ensures Valid()
      ensures r == -1 || (r == |data| && |data| > 0)
      ensures |data| == 0 || ino == 0 || !Readable(old(inodes)[ino]) ==> r == -1 && Now() == old(Now())
      ensures r == -1 ==> inodes == old(inodes) && OthersKept(old(Now()), Now(), ino)
      ensures r == -1 && |data| > 0 && ino != 0 && Readable(old(inodes)[ino]) ==> Last(offset, |data|) >= MAX_DATA || Sp.Full(space)
      ensures r != -1 ==> WriteDone(old(Now()), Now(), ino, offset, data)
      ensures r != -1 && inodes[ino].block[13] == 0 ==> inodes[ino].blocks == BlockCount(disk, inodes[ino]) * (BLK / 512)
    {
      hide WorkOk, Wrote, BlockOf, First, Last, WriteDone, VolOk, Sp.Full;
      if |data| == 0 || ino == 0 {
        return -1;
      }
      modify blkbuf;
      var n := inodes[ino];
      if !Readable(n) {
        return -1;
      }
      ghost var w := At(ino, n);
      StartWork(Now(), ino);
      WroteNone(w, offset, data, First(offset));
      var b, last := First(offset), Last(offset, |data|);
      FirstBeforeLast(offset, |data|);
      while b <= last
        invariant First(offset) <= b <= last + 1 && WorkOk(At(ino, n)) && InodeOk(n)
        invariant n.size == w.n.size && n.ftype == w.n.ftype
        invariant Wrote(w, At(ino, n), offset, data, First(offset), b)
      {
        var ok;
        ghost var w1 := At(ino, n);
        ok, n := WriteOne(ino, n, offset, data, b, w);
        if !ok {
          FailedOthers(w, w1, At(ino, n), offset, data, b);
          WorkVolume(At(ino, n));
          return -1;
        }
        b := b + 1;
      }
      ghost var w' := At(ino, n);
      WroteInodes(w, w', offset, data, b);
      var size := if offset + |data| > n.size then offset + |data| else n.size;
      var blocks := CountBlocks(n);
      WriteInode(ino, n.(size := size, blocks := blocks));
      FinishWrite(w, w', Now(), offset, data);
      return |data|;
    }

    // -------------------------------------------------------------------------------------------
    // Truncating
    // -------------------------------------------------------------------------------------------

    /** A block of a file goes back to the free ones. */
    method ReleaseBlock(x: nat)
      requires SpaceOk(Now()) && x in owner
      modifies this`space, this`owner, blkbuf
      ensures SpaceOk(Now()) && owner == old(owner) - {x} && x < |old(space).used|
      ensures space.used == old(space).used[x := false] && space.perGroup == old(space).perGroup
    {
      hide SpaceOk, Sp.Shape, Sp.Free;
      BlockReleased(Now(), x);
      var r := FreeBlock(x);
      owner := owner - {x};
    }

    /** ext2_truncate for a file without double indirect table. */
    method Truncate(ino: nat) returns (r: int)
      requires Valid() && (ino == 0 || (ino in inodes && NoDouble(inodes[ino])))
      modifies this, blkbuf, indbuf
      ensures Valid()
      ensures ino == 0 ==> r == -1 && Now() == old(Now())
      ensures ino != 0 ==> r == 0 && Truncated(old(Now()), Now(), ino)
    {
      if ino == 0 {
        return -1;
      }
      hide FileOk, SpaceOk, BlockOf, HeldBelow, Freeing, VolOk;
      modify blkbuf;
      var n := inodes[ino];
      ghost var v := Now();
      FreeingNone(v, ino);
      n := FreeDirect(ino, n, v);
      HeldBlocks(v, ino);
      if n.block[12] != 0 {
        FreeTable(ino, n.block[12], v);
        ghost var v1 := Now();
        FreeingDisk(v, v1, HeldBelow(v, ino, DIRECT + PER));
        ReleaseBlock(n.block[12]);
        FreedTable(v, v1, Now(), ino);
        n := n.(block := n.block[12 := 0]);
      }
      ghost var v2 := Now();
      FreeingDisk(v, v2, HeldAll(v, ino));
      WriteInode(ino, n.(size := 0, blocks := 0));
      AfterTruncate(v, v2, Now(), ino);
      return 0;
    }

    /** The direct blocks of file `ino`. */
    method FreeDirect(ino: nat, n0: Inode, ghost v: Vol) returns (n: Inode)
      requires ino in v.inodes && n0 == v.inodes[ino] && FileOk(v, ino, n0) && Freeing(v, Now(), HeldBelow(v, ino, 0))
      modifies this`space, this`owner, blkbuf
      ensures |n.block| == 15 && n == n0.(block := n.block) && Freeing(v, Now(), HeldBelow(v, ino, DIRECT))
      ensures (forall j :: 0 <= j < DIRECT ==> n.block[j] == 0) && forall j :: DIRECT <= j < 15 ==> n.block[j] == n0.block[j]
    {
      hide FileOk, SpaceOk, BlockOf, HeldBelow, Freeing;
      n := n0;
      FileInode(v, ino);
      for i := 0 to DIRECT
        invariant |n.block| == 15 && n == n0.(block := n.block)
        invariant forall j :: 0 <= j < i ==> n.block[j] == 0
        invariant forall j :: i <= j < 15 ==> n.block[j] == n0.block[j]
        invariant Freeing(v, Now(), HeldBelow(v, ino, i))
      {
        FreeNext(v, Now(), ino, i);
        if n.block[i] != 0 {
          ghost var v1 := Now();
          ReleaseBlock(n.block[i]);
          n := n.(block := n.block[i := 0]);
          FreedNext(v, v1, Now(), ino, i);
        }
      }
    }

    /** The data blocks that the single indirect table of file `ino` names. */
    method FreeTable(ino: nat, t: nat, ghost v: Vol)
      requires Buffers() && VolOk(v) && ino in v.inodes && t != 0
      requires FileOk(v, ino, v.inodes[ino]) && v.inodes[ino].block[12] == t
      requires Freeing(v, Now(), HeldBelow(v, ino, DIRECT))
      modifies this`space, this`owner, blkbuf, indbuf
      ensures Freeing(v, Now(), HeldBelow(v, ino, DIRECT + PER))
    {
      hide SpaceOk, HeldBelow, Freeing, VolOk;
      FreeingDisk(v, Now(), HeldBelow(v, ino, DIRECT));
      ReadBlock(t, indbuf);
      for k := 0 to PER
        invariant indbuf[..] == Get(v.disk, t)
        invariant Freeing(v, Now(), HeldBelow(v, ino, DIRECT + k))
      {
        FreeNext(v, Now(), ino, DIRECT + k);
        var d := Ptr(indbuf[..], k);
        if d != 0 {
          ghost var v1 := Now();
          ReleaseBlock(d);
          FreedNext(v, v1, Now(), ino, DIRECT + k);
        }
      }
    }
  }

  /** The first `copied` bytes of the buffer are the file's from `offset` on, the rest is as before. */
  ghost predicate ReadSoFar(d: Disk, n: Inode, offset: nat, copied: nat, before: seq<Byte>, now: seq<Byte>)
    requires InodeOk(n)
  {
    && copied <= |now| == |before| && now[copied..] == before[copied..]
    && forall k :: 0 <= k < copied ==> IsByteAt(d, n, offset + k, now[k])
  }

  lemma NothingRead(d: Disk, n: Inode, offset: nat, s: seq<Byte>)
    requires InodeOk(n)
    ensures ReadSoFar(d, n, offset, 0, s, s)
  {
  }

  function NonZero(s: seq<nat>): nat {
    if s == [] then 0 else NonZero(s[..|s| - 1]) + if s[|s| - 1] != 0 then 1 else 0
  }

  function Ptrs(s: seq<Byte>): (ps: seq<nat>)
    requires |s| == BLK
    ensures |ps| == PER && forall k :: 0 <= k < PER ==> ps[k] == Ptr(s, k)
  {
    seq(PER, k requires 0 <= k < PER => Ptr(s, k))
  }

  /** The blocks of a file without double indirect table: its data blocks, its table, and what that
      names. */
  function BlockCount(d: Disk, n: Inode): nat
    requires InodeOk(n)
  {
    NonZero(n.block[..DIRECT]) + if n.block[12] == 0 then 0 else 1 + NonZero(Ptrs(Get(d, n.block[12])))
  }

  /** The sector count of a file without double indirect table: for each data block and for the table. */
  lemma BlockCountIs(d: Disk, n: Inode)
    requires InodeOk(n) && n.block[13] == 0
    ensures BlockCount(d, n) == |DataBlocks(d, n)| + if n.block[12] == 0 then 0 else 1
  {
    hide DataBlock;
    NonZeroCounts(n.block[..DIRECT]);
    var direct, rest := Marks(n.block[..DIRECT]), {};
    if n.block[12] != 0 {
      NonZeroCounts(Ptrs(Get(d, n.block[12])));
      rest := Marks(Ptrs(Get(d, n.block[12])));
    }
    var moved := MovedBy(rest, DIRECT);
    MovedSize(rest, DIRECT);
    forall i: nat | i < DIRECT + PER ensures i in DataBlocks(d, n) <==> i in direct + moved { DataBlockMarks(d, n, i, direct, rest, moved); }
    assert DataBlocks(d, n) == direct + moved;
    assert direct !! moved;
  }

  /** The numbers of the data blocks that the file has, within reach of the single indirect table. */
  function DataBlocks(d: Disk, n: Inode): set<nat>
    requires InodeOk(n)
  {
    set i: nat | i < DIRECT + PER && DataBlock(d, n, i) != 0
  }

  function Marks(s: seq<nat>): set<nat> { set k: nat | k < |s| && s[k] != 0 }

  lemma {:induction false} NonZeroCounts(s: seq<nat>)
    ensures NonZero(s) == |Marks(s)|
  {
    if s == [] {
      assert Marks(s) == {};
    } else {
      var m := |s| - 1;
      NonZeroCounts(s[..m]);
      assert Marks(s) == Marks(s[..m]) + if s[m] != 0 then {m} else {};
    }
  }

  function MovedBy(a: set<nat>, n: nat): set<nat> { set k | k in a :: n + k }

  lemma {:induction false} MovedSize(a: set<nat>, n: nat)
    ensures |MovedBy(a, n)| == |a|
    decreases |a|
  {
    if a != {} {
      var x :| x in a;
      MovedSize(a - {x}, n);
      forall y | y in MovedBy(a, n) ensures y in MovedBy(a - {x}, n) + {n + x} {
        var k :| k in a && y == n + k;
        assert k != x ==> k in a - {x};
      }
      assert MovedBy(a, n) == MovedBy(a - {x}, n) + {n + x};
    }
  }

  lemma DataBlockMarks(d: Disk, n: Inode, i: nat, direct: set<nat>, rest: set<nat>, moved: set<nat>)
    requires InodeOk(n) && i < DIRECT + PER && direct == Marks(n.block[..DIRECT]) && moved == MovedBy(rest, DIRECT)
    requires rest == if n.block[12] == 0 then {} else Marks(Ptrs(Get(d, n.block[12])))
    ensures i in DataBlocks(d, n) <==> i in direct + moved
  {
    if i >= DIRECT {
      assert i in moved <==> i - DIRECT in rest;
    }
  }

  lemma StartWork(v: Vol, ino: nat)
    requires VolOk(v) && ino in v.inodes
    ensures WorkOk(Work(v, ino, v.inodes[ino])) && InodeOk(v.inodes[ino])
  {
    assert FileOk(v, ino, v.inodes[ino]);
  }

  lemma WorkVolume(w: Work)
    requires WorkOk(w)
    ensures VolOk(w.v)
  {
  }

  lemma WroteInodes(w: Work, w': Work, offset: nat, data: seq<Byte>, b: nat)
    requires InodeOk(w.n) && InodeOk(w'.n) && Wrote(w, w', offset, data, First(offset), b)
    ensures w'.v.inodes == w.v.inodes
  {
  }

  lemma FirstBeforeLast(offset: nat, size: nat)
    requires size > 0
    ensures First(offset) <= Last(offset, size)
  {
    DivMonotone(offset, offset + size - 1);
  }

  lemma BlockReleased(v: Vol, x: nat)
    requires SpaceOk(v) && x in v.owner
    ensures Sp.Shape(v.space) && 0 < x < |v.space.used|
    ensures var s := Sp.Free(v.space, x);
            s.used == v.space.used[x := false] && s.perGroup == v.space.perGroup && SpaceOk(v.(space := s, owner := v.owner - {x}))
  {
    hide Sp.Accounted, Sp.FirstBlocksUsed;
    AccountedShape(v.space);
    assert BlockInUse(v.space, x);
    Sp.FreeKeepsAccountsIff(v.space, x);
    var s := Sp.Free(v.space, x);
    AccountedShape(s);
    FirstBlocksFree(v.space, s, x);
    forall b | b in v.owner - {x} ensures BlockInUse(s, b) { assert BlockInUse(v.space, b); }
  }

  lemma FirstBlocksFree(s: Sp.Space, s': Sp.Space, x: nat)
    requires Sp.Shape(s) && Sp.Shape(s') && Sp.FirstBlocksUsed(s) && x < |s.used| && x % s.perGroup != 0
    requires s'.perGroup == s.perGroup && s'.used == s.used[x := false]
    ensures Sp.FirstBlocksUsed(s')
  {
    Sp.GroupOf(s, x);
    forall g | 0 <= g < |s'.free| ensures Sp.FirstUsed(s', g) {
      assert Sp.FirstUsed(s, g);
      Sp.GroupBounds(s, g);
      if g < x / s.perGroup { Sp.GroupsApart(s, g, x / s.perGroup); } else if x / s.perGroup < g { Sp.GroupsApart(s, x / s.perGroup, g); }
    }
  }

  /** The three ways to a data block. */
  lemma DataBlockCases(d: Disk, n: Inode, i: nat)
    requires InodeOk(n)
    ensures i < DIRECT ==> DataBlock(d, n, i) == n.block[i]
    ensures DIRECT <= i < DIRECT + PER ==> DataBlock(d, n, i) == Follow(d, n.block[12], i - DIRECT)
    ensures DIRECT + PER <= i ==>
              var idx := i - DIRECT - PER;
              DataBlock(d, n, i) == if idx / PER >= PER then 0 else Follow(d, Follow(d, n.block[13], idx / PER), idx % PER)
  {
    hide Follow;
    assert BlockOf(d, n, Single) == n.block[12] && BlockOf(d, n, Double) == n.block[13];
    if DIRECT + PER <= i {
      Beyond(i - DIRECT - PER);
      if (i - DIRECT - PER) / PER < PER {
        DoublePlace(i);
        var l1 := (i - DIRECT - PER) / PER;
        assert BlockOf(d, n, Level1(l1)) == Follow(d, BlockOf(d, n, Double), l1);
      }
    } else if DIRECT <= i {
      assert PlaceOf(Data(i)) == Entry(Single, i - DIRECT);
    }
  }

  lemma FileInode(v: Vol, ino: nat)
    requires ino in v.inodes && FileOk(v, ino, v.inodes[ino])
    ensures InodeOk(v.inodes[ino])
  {
  }

  lemma DoublePlace(b: nat)
    requires DIRECT + PER <= b && (b - DIRECT - PER) / PER < PER
    ensures InFile(Data(b)) && InFile(Level1((b - DIRECT - PER) / PER)) && PlaceOf(Double) == Slot(13)
    ensures PlaceOf(Level1((b - DIRECT - PER) / PER)) == Entry(Double, (b - DIRECT - PER) / PER)
    ensures PlaceOf(Data(b)) == Entry(Level1((b - DIRECT - PER) / PER), (b - DIRECT - PER) % PER)
  {
    Beyond(b - DIRECT - PER);
  }

  lemma AccountedShape(s: Sp.Space)
    requires Sp.Accounted(s)
    ensures Sp.Shape(s)
  {
  }

  lemma WorkParts(w: Work)
    requires WorkOk(w)
    ensures SpaceOk(w.v) && InodeOk(w.n) && w.ino in w.v.inodes
  {
  }

  /** What the steps of NewSlot add up to. */
  lemma SlotAdded(w: Work, r: Role, j: nat, f: nat, space: Sp.Space, w': Work)
    requires InodeOk(w.n) && InFile(r) && PlaceOf(r) == Slot(j)
    requires w' == Work(Vol(if IsTable(r) then w.v.disk[f := Zeros()] else w.v.disk, w.v.inodes, space, w.v.owner[f := (w.ino, r)]),
                        w.ino, w.n.(block := w.n.block[j := f]))
    ensures w' == AddBlock(w, r, f, space)
    ensures Missing(w, r) <==> w.n.block[j] == 0
  {
  }

  lemma EntryMissing(w: Work, r: Role)
    requires InodeOk(w.n) && InFile(r) && PlaceOf(r).Entry?
    ensures var t := BlockOf(w.v.disk, w.n, PlaceOf(r).table);
            t != 0 && Ptr(Get(w.v.disk, t), PlaceOf(r).k) == 0 ==> Missing(w, r)
  {
  }

  lemma TableNotFresh(w: Work, q: Role, f: nat)
    requires WorkOk(w) && InFile(q) && f < |w.v.space.used| && !w.v.space.used[f]
    ensures BlockOf(w.v.disk, w.n, q) != 0 ==> BlockOf(w.v.disk, w.n, q) != f && f !in w.v.owner
  {
    assert RoleOwned(w.v.disk, w.n, w.ino, w.v.owner, q);
  }

  /** What the steps of NewEntry add up to: entering a table and then emptying it is the same as
      emptying it first. */
  lemma EntryAdded(w: Work, r: Role, f: nat, space: Sp.Space, w': Work)
    requires WorkOk(w) && InFile(r) && PlaceOf(r).Entry? && f !in w.v.owner
    requires var t := BlockOf(w.v.disk, w.n, PlaceOf(r).table);
             && t != 0 && t != f
             && var d := w.v.disk[t := SetPtr(Get(w.v.disk, t), PlaceOf(r).k, f)];
                w' == Work(Vol(if IsTable(r) then d[f := Zeros()] else d, w.v.inodes, space, w.v.owner[f := (w.ino, r)]), w.ino, w.n)
    ensures w' == AddBlock(w, r, f, space)
  {
    hide BlockOf;
    var t := BlockOf(w.v.disk, w.n, PlaceOf(r).table);
    EmptyFresh(w.v.disk, w.n, w.ino, w.v.owner, f);
    assert Get(w.v.disk[f := Zeros()], t) == Get(w.v.disk, t);
    var x := SetPtr(Get(w.v.disk, t), PlaceOf(r).k, f);
    assert w.v.disk[f := Zeros()][t := x] == w.v.disk[t := x][f := Zeros()];
  }

  lemma Beyond(idx: nat)
    ensures idx / PER >= PER <==> idx >= PER * PER
  {
    if BLK == 1024 { assert idx / 256 >= 256 <==> idx >= 256 * 256; }
    else if BLK == 2048 { assert idx / 512 >= 512 <==> idx >= 512 * 512; }
    else { assert idx / 1024 >= 1024 <==> idx >= 1024 * 1024; }
  }

  /** Copying a chunk of a data block extends what has been read. */
  lemma ChunkRead(d: Disk, n: Inode, offset: nat, copied: nat, chunk: nat, before: seq<Byte>, now: seq<Byte>, after: seq<Byte>)
    requires InodeOk(n) && DataBlock(d, n, (offset + copied) / BLK) != 0
    requires (offset + copied) % BLK + chunk <= BLK && copied + chunk <= |now| && ReadSoFar(d, n, offset, copied, before, now)
    requires after == Over(now, copied, Get(d, DataBlock(d, n, (offset + copied) / BLK))[(offset + copied) % BLK..(offset + copied) % BLK + chunk])
    ensures ReadSoFar(d, n, offset, copied + chunk, before, after)
  {
    hide DataBlock, Over, IsByteAt;
    var i, within := (offset + copied) / BLK, (offset + copied) % BLK;
    var src := Get(d, DataBlock(d, n, i))[within..within + chunk];
    forall k | 0 <= k < copied + chunk ensures IsByteAt(d, n, offset + k, after[k]) {
      OverAt(now, copied, src, k);
      if k < copied {
        assert IsByteAt(d, n, offset + k, now[k]);
      } else {
        ByteOfBlock(d, n, offset + copied, k - copied);
        assert offset + copied + (k - copied) == offset + k;
      }
    }
    RestKept(now, before, after, src, copied);
  }

  lemma ByteOfBlock(d: Disk, n: Inode, pos: nat, k: nat)
    requires InodeOk(n) && DataBlock(d, n, pos / BLK) != 0 && pos % BLK + k < BLK
    ensures IsByteAt(d, n, pos + k, Get(d, DataBlock(d, n, pos / BLK))[pos % BLK + k])
  {
    hide DataBlock;
    SameBlockPosition(pos, k);
  }

  lemma RestKept(now: seq<Byte>, before: seq<Byte>, after: seq<Byte>, src: seq<Byte>, copied: nat)
    requires copied + |src| <= |now| == |before| && now[copied..] == before[copied..] && after == Over(now, copied, src)
    ensures after[copied + |src|..] == before[copied + |src|..]
  {
    assert now[copied..][|src|..] == before[copied..][|src|..];
  }

  lemma SameBlockPosition(pos: nat, k: nat)
    requires pos % BLK + k < BLK
    ensures (pos + k) / BLK == pos / BLK && (pos + k) % BLK == pos % BLK + k
  {
    if BLK == 1024 {
      assert (pos + k) / 1024 == pos / 1024;
    } else if BLK == 2048 {
      assert (pos + k) / 2048 == pos / 2048;
    } else {
      assert (pos + k) / 4096 == pos / 4096;
    }
  }
}
