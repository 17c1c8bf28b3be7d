/** Whole volumes as values: what reading a file gives, and what a write may change. */
module Ext2Files {
  import opened Bytes
  import opened Ext2Layout
  import Sp = Ext2Space

  /** A mounted volume. `owner` records which file each allocated data or table block belongs to. */
  datatype Vol = Vol(disk: Disk, inodes: map<nat, Inode>, space: Sp.Space, owner: Owners)

  ghost predicate SpaceOk(v: Vol) {
    && Sp.Accounted(v.space) && Sp.FirstBlocksUsed(v.space)
    && forall b :: b in v.owner ==> BlockInUse(v.space, b)
  }

  /** Blocks of files are in use, and never the first of their group. */
  predicate BlockInUse(s: Sp.Space, b: nat) {
    0 < b < |s.used| && s.used[b] && s.perGroup > 0 && b % s.perGroup != 0
  }

  ghost predicate FilesOk(v: Vol) {
    forall i :: i in v.inodes ==> FileOk(v, i, v.inodes[i])
  }

  ghost predicate FileOk(v: Vol, ino: nat, n: Inode) {
    0 < ino && InodeOk(n) && Owned(v.disk, n, ino, v.owner)
  }

  ghost predicate VolOk(v: Vol) { SpaceOk(v) && FilesOk(v) }

  // ---------------------------------------------------------------------------------------------
  // Reading
  // ---------------------------------------------------------------------------------------------

  /** ext2_data_block: the number of data block `i`, 0 if there is none. */
  function DataBlock(d: Disk, n: Inode, i: nat): nat
    requires InodeOk(n)
  {
    if i < MAX_DATA then BlockOf(d, n, Data(i)) else 0
  }

  /** The byte at position `w` of data block `i`. */
  function ByteIn(d: Disk, n: Inode, i: nat, w: nat): Byte
    requires InodeOk(n) && w < BLK
  {
    Get(d, DataBlock(d, n, i))[w]
  }

  predicate Readable(n: Inode) { n.ftype == Regular || n.ftype == Symlink }

  /** How many bytes a read may give at most. */
  function Wanted(n: Inode, offset: nat, size: nat): nat {
    if offset >= n.size then 0 else if size > n.size - offset then n.size - offset else size
  }

  /** ext2_read_file gives `out`: the bytes of the file from `offset` on, up to the size asked for, the
      end of the file, or the first hole, whichever comes first. */
  ghost predicate ReadGives(d: Disk, n: Inode, offset: nat, size: nat, out: seq<Byte>)
    requires InodeOk(n)
  {
    && |out| <= Wanted(n, offset, size)
    && (forall k :: 0 <= k < |out| ==> IsByteAt(d, n, offset + k, out[k]))
    && (|out| < Wanted(n, offset, size) ==> DataBlock(d, n, (offset + |out|) / BLK) == 0)
  }

  predicate IsByteAt(d: Disk, n: Inode, pos: nat, x: Byte)
    requires InodeOk(n)
  {
    DataBlock(d, n, pos / BLK) != 0 && x == ByteIn(d, n, pos / BLK, pos % BLK)
  }

  /** What a read gives is determined. */
  lemma ReadUnique(d: Disk, n: Inode, offset: nat, size: nat, out: seq<Byte>, out': seq<Byte>)
    requires InodeOk(n) && ReadGives(d, n, offset, size, out) && ReadGives(d, n, offset, size, out')
    ensures out == out'
  {
    hide DataBlock;
    NotShorter(d, n, offset, size, out, out');
    NotShorter(d, n, offset, size, out', out);
    forall k | 0 <= k < |out| ensures out[k] == out'[k] {
      assert IsByteAt(d, n, offset + k, out[k]) && IsByteAt(d, n, offset + k, out'[k]);
    }
  }

  lemma NotShorter(d: Disk, n: Inode, offset: nat, size: nat, out: seq<Byte>, out': seq<Byte>)
    requires InodeOk(n) && ReadGives(d, n, offset, size, out) && ReadGives(d, n, offset, size, out')
    ensures |out'| <= |out|
  {
    hide DataBlock;
    assert |out| < |out'| ==> IsByteAt(d, n, offset + |out|, out'[|out|]);
  }

  // ---------------------------------------------------------------------------------------------
  // Growing a file
  // ---------------------------------------------------------------------------------------------

  /** A file being worked on: the volume, and the inode in memory that is not yet written back. */
  datatype Work = Work(v: Vol, ino: nat, n: Inode)

  /** The inode in memory is the one on disk with some numbers filled in. */
  predicate Fills(n0: Inode, n: Inode) {
    InodeOk(n0) && InodeOk(n) && forall j :: 0 <= j < 15 ==> n0.block[j] == 0 || n0.block[j] == n.block[j]
  }

  ghost predicate WorkOk(w: Work) {
    && VolOk(w.v) && w.ino in w.v.inodes && Fills(w.v.inodes[w.ino], w.n)
    && FileOk(w.v, w.ino, w.n)
  }

  /** `w'` is `w` with fresh blocks added: nothing moves, no data block but number `b` appears, and only
      tables of this file are rewritten. */
  ghost predicate Grown(w: Work, w': Work, b: nat)
    requires InodeOk(w.n) && InodeOk(w'.n)
  {
    && w'.ino == w.ino && w'.v.inodes == w.v.inodes && Fills(w.n, w'.n)
    && w'.n.size == w.n.size && w'.n.ftype == w.n.ftype && (b < DIRECT + PER ==> w'.n.block[13] == w.n.block[13])
    && w'.v.space.perGroup == w.v.space.perGroup && |w'.v.space.used| == |w.v.space.used|
    && (forall x :: x in w.v.owner ==> x in w'.v.owner && w'.v.owner[x] == w.v.owner[x])
    && (forall x :: x in w'.v.owner && x !in w.v.owner ==> Fresh(w, w', x))
    && (forall x :: 0 <= x < |w.v.space.used| && x !in w'.v.owner ==> w'.v.space.used[x] == w.v.space.used[x])
    && (forall q :: InFile(q) ==> Kept(w, w', q, b))
    && (forall x :: x in w.v.owner && !(w.v.owner[x].0 == w.ino && IsTable(w.v.owner[x].1)) ==> Get(w'.v.disk, x) == Get(w.v.disk, x))
  }

  /** A block that came from the free ones, and that the file now has. */
  predicate Fresh(w: Work, w': Work, x: nat)
    requires x in w'.v.owner && InodeOk(w'.n)
  {
    var (i, r) := w'.v.owner[x];
    i == w.ino && 0 < x < |w.v.space.used| && !w.v.space.used[x] && InFile(r) && BlockOf(w'.v.disk, w'.n, r) == x
  }

  predicate Kept(w: Work, w': Work, q: Role, b: nat)
    requires InodeOk(w.n) && InodeOk(w'.n) && InFile(q)
  {
    var x := BlockOf(w.v.disk, w.n, q);
    BlockOf(w'.v.disk, w'.n, q) == x || (x == 0 && (q.Data? ==> q == Data(b)))
  }

  lemma GrownNone(w: Work, b: nat)
    requires InodeOk(w.n)
    ensures Grown(w, w, b)
  {
  }

  lemma GrownTwice(w: Work, w1: Work, w2: Work, b: nat)
    requires InodeOk(w.n) && InodeOk(w1.n) && InodeOk(w2.n) && Grown(w, w1, b) && Grown(w1, w2, b)
    ensures Grown(w, w2, b)
  {
    hide BlockOf;
    forall q | InFile(q) ensures Kept(w, w2, q, b) {
      assert Kept(w, w1, q, b) && Kept(w1, w2, q, b);
    }
    forall x | x in w2.v.owner && x !in w.v.owner ensures Fresh(w, w2, x) {
      if x in w1.v.owner {
        assert Fresh(w, w1, x);
        assert Kept(w1, w2, w1.v.owner[x].1, b);
      } else {
        assert Fresh(w1, w2, x);
      }
    }
  }

  /** The file with a fresh block `f` in the role `r`, the block emptied first if it is to be a table. */
  function AddBlock(w: Work, r: Role, f: nat, space: Sp.Space): (w': Work)
    requires InodeOk(w.n) && InFile(r)
  {
    var d := if IsTable(r) then w.v.disk[f := Zeros()] else w.v.disk;
    var (d', n') := Link(d, w.n, r, f);
    w.(v := w.v.(disk := d', space := space, owner := w.v.owner[f := (w.ino, r)]), n := n')
  }

  /** Block `f` was free and is now taken. */
  ghost predicate JustTaken(s: Sp.Space, s': Sp.Space, f: nat) {
    && Sp.Accounted(s') && Sp.FirstBlocksUsed(s') && s'.perGroup == s.perGroup
    && 0 < f < |s.used| && !s.used[f] && s'.used == s.used[f := true] && s.perGroup > 0 && f % s.perGroup != 0
  }

  /** A role that can be filled: it is empty and its table exists. */
  predicate Missing(w: Work, r: Role)
    requires InodeOk(w.n) && InFile(r)
  {
    BlockOf(w.v.disk, w.n, r) == 0 && (PlaceOf(r).Entry? ==> BlockOf(w.v.disk, w.n, PlaceOf(r).table) != 0)
  }

  /** Emptying a free block is invisible to every file. */
  lemma EmptyFresh(d: Disk, n: Inode, ino: nat, owner: Owners, f: nat)
    requires InodeOk(n) && Owned(d, n, ino, owner) && f !in owner
    ensures Owned(d[f := Zeros()], n, ino, owner)
    ensures forall q :: InFile(q) ==> BlockOf(d[f := Zeros()], n, q) == BlockOf(d, n, q)
  {
    hide BlockOf;
    var d' := d[f := Zeros()];
    SameTablesOwned(d, d', n, ino, owner);
    forall q | InFile(q) ensures BlockOf(d', n, q) == BlockOf(d, n, q) { SameBlock(d, d', n, ino, owner, q); }
  }

  /** Every number after a block has been added. */
  lemma AddedBlock(w: Work, r: Role, f: nat, space: Sp.Space, q: Role)
    requires WorkOk(w) && InFile(r) && InFile(q) && Missing(w, r) && JustTaken(w.v.space, space, f)
    ensures var w' := AddBlock(w, r, f, space);
            InodeOk(w'.n) && BlockOf(w'.v.disk, w'.n, q) == if q == r then f else BlockOf(w.v.disk, w.n, q)
  {
    hide BlockOf;
    var d := if IsTable(r) then w.v.disk[f := Zeros()] else w.v.disk;
    assert f !in w.v.owner;
    EmptyFresh(w.v.disk, w.n, w.ino, w.v.owner, f);
    LinkBlock(d, w.n, w.ino, w.v.owner, r, f, q);
  }

  lemma AddedOwned(w: Work, r: Role, f: nat, space: Sp.Space)
    requires WorkOk(w) && InFile(r) && Missing(w, r) && JustTaken(w.v.space, space, f)
    ensures var w' := AddBlock(w, r, f, space); FileOk(w'.v, w.ino, w'.n) && Fills(w.n, w'.n) && w'.n.size == w.n.size && w'.n.ftype == w.n.ftype
  {
    hide BlockOf;
    var d := if IsTable(r) then w.v.disk[f := Zeros()] else w.v.disk;
    assert f !in w.v.owner;
    EmptyFresh(w.v.disk, w.n, w.ino, w.v.owner, f);
    LinkOwned(d, w.n, w.ino, w.v.owner, r, f);
    LinkFills(d, w.n, r, f);
  }

  lemma LinkFills(d: Disk, n: Inode, r: Role, f: nat)
    requires InodeOk(n) && InFile(r) && BlockOf(d, n, r) == 0
    ensures Fills(n, Link(d, n, r, f).1)
  {
  }

  /** Only the new block and the table that names it are written. */
  lemma AddedFrame(w: Work, r: Role, f: nat, space: Sp.Space, x: nat)
    requires WorkOk(w) && InFile(r) && Missing(w, r) && JustTaken(w.v.space, space, f)
    requires x in w.v.owner && !(w.v.owner[x].0 == w.ino && IsTable(w.v.owner[x].1))
    ensures Get(AddBlock(w, r, f, space).v.disk, x) == Get(w.v.disk, x)
  {
    hide BlockOf;
    var d := if IsTable(r) then w.v.disk[f := Zeros()] else w.v.disk;
    assert f !in w.v.owner;
    EmptyFresh(w.v.disk, w.n, w.ino, w.v.owner, f);
    if PlaceOf(r).Entry? { assert RoleOwned(d, w.n, w.ino, w.v.owner, PlaceOf(r).table); }
  }

  /** Adding a block keeps the volume sound and grows the file. */
  lemma AddBlockOk(w: Work, r: Role, f: nat, space: Sp.Space, b: nat)
    requires WorkOk(w) && InFile(r) && Missing(w, r) && JustTaken(w.v.space, space, f)
    requires (r.Data? ==> r == Data(b)) && (r == Double ==> DIRECT + PER <= b)
    ensures var w' := AddBlock(w, r, f, space); WorkOk(w') && Grown(w, w', b)
  {
    hide BlockOf, AddBlock;
    var w' := AddBlock(w, r, f, space);
    AddedOwned(w, r, f, space);
    AddedFields(w, r, f, space);
    forall q | InFile(q) ensures Kept(w, w', q, b) { AddedBlock(w, r, f, space, q); }
    AddedBlock(w, r, f, space, r);
    forall x | x in w.v.owner && !(w.v.owner[x].0 == w.ino && IsTable(w.v.owner[x].1)) ensures Get(w'.v.disk, x) == Get(w.v.disk, x) {
      AddedFrame(w, r, f, space, x);
    }
    assert Grown(w, w', b);
    GrownVolOk(w, w', b);
  }

  lemma AddedFields(w: Work, r: Role, f: nat, space: Sp.Space)
    requires InodeOk(w.n) && InFile(r)
    ensures var w' := AddBlock(w, r, f, space);
            w'.v.space == space && w'.v.owner == w.v.owner[f := (w.ino, r)] && w'.v.inodes == w.v.inodes && w'.ino == w.ino
            && (InodeOk(w'.n) ==> r == Double || w'.n.block[13] == w.n.block[13])
  {
  }

  /** The files of a volume stay sound when one of them grows. */
  lemma GrownVolOk(w: Work, w': Work, b: nat)
    requires WorkOk(w) && InodeOk(w'.n) && FileOk(w'.v, w.ino, w'.n) && Grown(w, w', b) && SpaceOk(w'.v)
    ensures WorkOk(w')
  {
    hide BlockOf;
    forall i | i in w'.v.inodes ensures FileOk(w'.v, i, w'.v.inodes[i]) {
      if i == w.ino {
        FillsOwned(w'.v.disk, w.v.inodes[i], w'.n, i, w'.v.owner);
      } else {
        OtherOwned(w, w', i);
      }
    }
  }

  /** Another file keeps its blocks, its block numbers and its owner records. */
  lemma OtherOwned(w: Work, w': Work, i: nat)
    requires VolOk(w.v) && i in w.v.inodes && i != w.ino
    requires forall x :: x in w.v.owner && w.v.owner[x].0 != w.ino ==> x in w'.v.owner && w'.v.owner[x] == w.v.owner[x]
    requires forall x :: x in w.v.owner && w.v.owner[x].0 != w.ino ==> Get(w'.v.disk, x) == Get(w.v.disk, x)
    ensures Owned(w'.v.disk, w.v.inodes[i], i, w'.v.owner)
    ensures forall q :: InFile(q) ==> BlockOf(w'.v.disk, w.v.inodes[i], q) == BlockOf(w.v.disk, w.v.inodes[i], q)
  {
    hide BlockOf;
    var n := w.v.inodes[i];
    assert FileOk(w.v, i, n);
    forall q | InFile(q)
      ensures RoleOwned(w'.v.disk, n, i, w'.v.owner, q) && BlockOf(w'.v.disk, n, q) == BlockOf(w.v.disk, n, q)
    {
      SameBlock(w.v.disk, w'.v.disk, n, i, w.v.owner, q);
      assert RoleOwned(w.v.disk, n, i, w.v.owner, q);
    }
  }

  /** The inode on disk shows a part of what the inode in memory shows. */
  lemma {:induction false} FillsBlock(d: Disk, n0: Inode, n: Inode, q: Role)
    requires Fills(n0, n) && InFile(q)
    ensures BlockOf(d, n0, q) == 0 || BlockOf(d, n0, q) == BlockOf(d, n, q)
    decreases Depth(q)
  {
    match PlaceOf(q)
    case Slot(_) =>
    case Entry(p, _) => FillsBlock(d, n0, n, p);
  }

  lemma FillsOwned(d: Disk, n0: Inode, n: Inode, ino: nat, owner: Owners)
    requires Fills(n0, n) && Owned(d, n, ino, owner)
    ensures Owned(d, n0, ino, owner)
  {
    hide BlockOf;
    forall q | InFile(q) ensures RoleOwned(d, n0, ino, owner, q) {
      FillsBlock(d, n0, n, q);
      assert RoleOwned(d, n, ino, owner, q);
    }
  }
}
