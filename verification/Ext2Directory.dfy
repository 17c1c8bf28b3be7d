/** Whole directories as values: the entries of all blocks in a row, and how they change when one block
    changes or a block is appended. */
module Ext2Directories {
  import opened Bytes
  import opened Ext2Layout
  import opened Ext2Files
  import opened Ext2Writes
  import opened Ext2Records
  import Sp = Ext2Space

  function NBlocks(n: Inode): nat { (n.size + BLK - 1) / BLK }

  /** The contents of directory block `b`. */
  function DirBlock(d: Disk, n: Inode, b: nat): (s: seq<Byte>)
    requires InodeOk(n)
    ensures |s| == BLK
  {
    Get(d, DataBlock(d, n, b))
  }

  /** A directory: every block up to its size is there and tiled, and none is beyond. */
  ghost predicate DirOk(d: Disk, n: Inode) {
    && InodeOk(n) && n.ftype == Directory && NBlocks(n) <= MAX_DATA
    && (forall b :: 0 <= b < NBlocks(n) ==> DataBlock(d, n, b) != 0 && Tiled(DirBlock(d, n, b)))
    && (forall b :: NBlocks(n) <= b ==> DataBlock(d, n, b) == 0)
  }

  /** The entries of blocks `lo` up to `hi`. */
  ghost function Listing(d: Disk, n: Inode, lo: nat, hi: nat): (es: seq<Dirent>)
    requires DirOk(d, n) && lo <= hi <= NBlocks(n)
    decreases hi
  {
    if lo == hi then [] else Listing(d, n, lo, hi - 1) + Entries(DirBlock(d, n, hi - 1), 0, BLK)
  }

  /** All entries of a directory, in scan order. */
  ghost function List(d: Disk, n: Inode): (es: seq<Dirent>)
    requires DirOk(d, n)
  {
    Listing(d, n, 0, NBlocks(n))
  }

  lemma {:induction false} ListingSplit(d: Disk, n: Inode, lo: nat, mid: nat, hi: nat)
    requires DirOk(d, n) && lo <= mid <= hi <= NBlocks(n)
    ensures Listing(d, n, lo, hi) == Listing(d, n, lo, mid) + Listing(d, n, mid, hi)
    decreases hi
  {
    hide DirOk, Entries, NBlocks, Tiled, DirBlock;
    if mid < hi {
      TiledBlock(d, n, hi - 1);
      ListingSplit(d, n, lo, mid, hi - 1);
      var last := Entries(DirBlock(d, n, hi - 1), 0, BLK);
      assert Listing(d, n, lo, mid) + (Listing(d, n, mid, hi - 1) + last) == Listing(d, n, lo, mid) + Listing(d, n, mid, hi - 1) + last;
    }
  }

  lemma TiledBlock(d: Disk, n: Inode, b: nat)
    requires DirOk(d, n) && b < NBlocks(n)
    ensures InodeOk(n) && Tiled(DirBlock(d, n, b)) && DataBlock(d, n, b) != 0 && b < MAX_DATA
  {
  }

  /** The entries around block `b`. */
  lemma ListAround(d: Disk, n: Inode, b: nat)
    requires DirOk(d, n) && b < NBlocks(n)
    ensures Tiled(DirBlock(d, n, b))
    ensures List(d, n) == Listing(d, n, 0, b) + Entries(DirBlock(d, n, b), 0, BLK) + Listing(d, n, b + 1, NBlocks(n))
  {
    hide DirOk, Entries;
    TiledBlock(d, n, b);
    ListingSplit(d, n, 0, b + 1, NBlocks(n));
  }

  lemma {:induction false} SameListing(d: Disk, n: Inode, d': Disk, n': Inode, lo: nat, hi: nat)
    requires DirOk(d, n) && DirOk(d', n') && lo <= hi <= NBlocks(n) && hi <= NBlocks(n')
    requires forall b :: lo <= b < hi ==> DirBlock(d', n', b) == DirBlock(d, n, b)
    ensures Listing(d', n', lo, hi) == Listing(d, n, lo, hi)
    decreases hi
  {
    hide DirOk, Entries, DirBlock;
    if lo < hi {
      TiledBlock(d, n, hi - 1);
      TiledBlock(d', n', hi - 1);
      SameListing(d, n, d', n', lo, hi - 1);
    }
  }

  // ---------------------------------------------------------------------------------------------
  // Rewriting one block
  // ---------------------------------------------------------------------------------------------

  /** The volume with block `b` of directory `dir` rewritten. */
  function Rewrite(v: Vol, dir: nat, b: nat, s: seq<Byte>): Vol
    requires dir in v.inodes && InodeOk(v.inodes[dir])
  {
    v.(disk := v.disk[DataBlock(v.disk, v.inodes[dir], b) := s])
  }

  lemma RewriteOk(v: Vol, dir: nat, b: nat, s: seq<Byte>)
    requires VolOk(v) && dir in v.inodes && DirOk(v.disk, v.inodes[dir]) && b < NBlocks(v.inodes[dir]) && Tiled(s)
    ensures var v' := Rewrite(v, dir, b, s);
            && VolOk(v') && OthersKept(v, v', dir) && DirOk(v'.disk, v.inodes[dir])
            && List(v'.disk, v.inodes[dir])
               == Listing(v.disk, v.inodes[dir], 0, b) + Entries(s, 0, BLK)
                  + Listing(v.disk, v.inodes[dir], b + 1, NBlocks(v.inodes[dir]))
  {
    hide BlockOf, Tiles, Entries, VolOk;
    var n, v' := v.inodes[dir], Rewrite(v, dir, b, s);
    RewriteSound(v, dir, b, s);
    assert forall i :: 0 <= i ==> DataBlock(v'.disk, n, i) == DataBlock(v.disk, n, i);
    forall i | 0 <= i < NBlocks(n) ensures DirBlock(v'.disk, n, i) == if i == b then s else DirBlock(v.disk, n, i) {
      OtherBlockApart(v, dir, i, b);
    }
    assert DirOk(v'.disk, n);
    ListAround(v'.disk, n, b);
    SameListing(v.disk, n, v'.disk, n, 0, b);
    SameListing(v.disk, n, v'.disk, n, b + 1, NBlocks(n));
  }

  lemma OtherBlockApart(v: Vol, dir: nat, i: nat, b: nat)
    requires VolOk(v) && dir in v.inodes && DirOk(v.disk, v.inodes[dir]) && i < NBlocks(v.inodes[dir]) && b < NBlocks(v.inodes[dir])
    ensures i != b ==> DataBlock(v.disk, v.inodes[dir], i) != DataBlock(v.disk, v.inodes[dir], b)
  {
    hide BlockOf, Tiled;
    var n := v.inodes[dir];
    assert FileOk(v, dir, n);
    assert RoleOwned(v.disk, n, dir, v.owner, Data(i)) && RoleOwned(v.disk, n, dir, v.owner, Data(b));
  }

  lemma RewriteSound(v: Vol, dir: nat, b: nat, s: seq<Byte>)
    requires VolOk(v) && dir in v.inodes && DirOk(v.disk, v.inodes[dir]) && b < NBlocks(v.inodes[dir]) && |s| == BLK
    ensures var v' := Rewrite(v, dir, b, s);
            && VolOk(v') && OthersKept(v, v', dir)
            && forall q :: InFile(q) ==> BlockOf(v'.disk, v.inodes[dir], q) == BlockOf(v.disk, v.inodes[dir], q)
  {
    hide BlockOf, Tiled;
    var n, v' := v.inodes[dir], Rewrite(v, dir, b, s);
    var w := Work(v, dir, n);
    assert FileOk(v, dir, n);
    assert RoleOwned(v.disk, n, dir, v.owner, Data(b));
    DataRewritten(w, v'.disk, b);
  }

  // ---------------------------------------------------------------------------------------------
  // Appending a block
  // ---------------------------------------------------------------------------------------------

  /** A free block set aside for role `r` of the file and given its contents, before it is linked. */
  function Reserve(w: Work, r: Role, f: nat, space: Sp.Space, s: seq<Byte>): Work {
    w.(v := w.v.(disk := w.v.disk[f := s], space := space, owner := w.v.owner[f := (w.ino, r)]))
  }

  lemma ReserveOk(w: Work, r: Role, f: nat, space: Sp.Space, s: seq<Byte>)
    requires WorkOk(w) && JustTaken(w.v.space, space, f) && |s| == BLK
    ensures var w1 := Reserve(w, r, f, space, s);
            && WorkOk(w1) && f !in w.v.owner && OthersKept(w.v, w1.v, w.ino)
            && (forall q :: InFile(q) ==> BlockOf(w1.v.disk, w.n, q) == BlockOf(w.v.disk, w.n, q))
            && (forall x :: x in w.v.owner ==> Get(w1.v.disk, x) == Get(w.v.disk, x))
  {
    hide BlockOf;
    var w1 := Reserve(w, r, f, space, s);
    assert f !in w.v.owner;
    forall i | i in w.v.inodes ensures FileOk(w1.v, i, w.v.inodes[i]) {
      assert FileOk(w.v, i, w.v.inodes[i]);
      ReservedOwned(w, w1, i, w.v.inodes[i]);
    }
    ReservedOwned(w, w1, w.ino, w.n);
  }

  lemma ReservedOwned(w: Work, w1: Work, i: nat, n: Inode)
    requires InodeOk(n) && Owned(w.v.disk, n, i, w.v.owner)
    requires forall x :: x in w.v.owner ==> x in w1.v.owner && w1.v.owner[x] == w.v.owner[x] && Get(w1.v.disk, x) == Get(w.v.disk, x)
    ensures Owned(w1.v.disk, n, i, w1.v.owner)
    ensures forall q :: InFile(q) ==> BlockOf(w1.v.disk, n, q) == BlockOf(w.v.disk, n, q)
  {
    hide BlockOf;
    forall q | InFile(q)
      ensures RoleOwned(w1.v.disk, n, i, w1.v.owner, q) && BlockOf(w1.v.disk, n, q) == BlockOf(w.v.disk, n, q)
    {
      SameBlock(w.v.disk, w1.v.disk, n, i, w.v.owner, q);
      assert RoleOwned(w.v.disk, n, i, w.v.owner, q);
    }
  }

  /** Setting aside and giving back leaves the accounts and the owners as they were. */
  lemma GiveBackOk(w: Work, r: Role, f: nat, space: Sp.Space, s: seq<Byte>, v': Vol)
    requires WorkOk(w) && JustTaken(w.v.space, space, f) && |s| == BLK
    requires v' == Reserve(w, r, f, space, s).v.(space := v'.space, owner := w.v.owner[f := (w.ino, r)] - {f})
    requires SpaceOk(v') && v'.space.perGroup == space.perGroup && v'.space.used == space.used[f := false]
    ensures v' == w.v.(disk := v'.disk) && VolOk(v') && OthersKept(w.v, v', w.ino)
    ensures forall x :: x in w.v.owner ==> Get(v'.disk, x) == Get(w.v.disk, x)
    ensures forall q :: InFile(q) ==> BlockOf(v'.disk, w.v.inodes[w.ino], q) == BlockOf(w.v.disk, w.v.inodes[w.ino], q)
  {
    hide BlockOf, Sp.Accounted, Sp.FirstBlocksUsed;
    assert f !in w.v.owner;
    assert v'.owner == w.v.owner;
    assert v'.space.used == w.v.space.used;
    Sp.CountersDetermined(w.v.space, v'.space);
    forall i | i in w.v.inodes ensures FileOk(v', i, w.v.inodes[i]) {
      assert FileOk(w.v, i, w.v.inodes[i]);
      ReservedOwned(w, w.(v := v'), i, w.v.inodes[i]);
    }
    assert FileOk(w.v, w.ino, w.v.inodes[w.ino]);
    ReservedOwned(w, w.(v := v'), w.ino, w.v.inodes[w.ino]);
  }

  /** Linking a block that was set aside. */
  lemma LinkReserved(w: Work, b: nat, f: nat)
    requires WorkOk(w) && b < MAX_DATA && CanLink(w.v.disk, w.n, w.ino, w.v.owner, Data(b), f) && f in w.v.owner
    ensures var (d', n') := Link(w.v.disk, w.n, Data(b), f);
            && WorkOk(Work(w.v.(disk := d'), w.ino, n')) && OthersKept(w.v, w.v.(disk := d'), w.ino)
            && (forall q :: InFile(q) ==> BlockOf(d', n', q) == if q == Data(b) then f else BlockOf(w.v.disk, w.n, q))
            && (forall x :: x in w.v.owner && !IsTable(w.v.owner[x].1) ==> Get(d', x) == Get(w.v.disk, x))
            && n'.size == w.n.size && n'.ftype == w.n.ftype
  {
    hide BlockOf;
    var (d', n') := Link(w.v.disk, w.n, Data(b), f);
    var w' := Work(w.v.(disk := d'), w.ino, n');
    LinkOwned(w.v.disk, w.n, w.ino, w.v.owner, Data(b), f);
    assert w.v.owner[f := (w.ino, Data(b))] == w.v.owner;
    LinkFills(w.v.disk, w.n, Data(b), f);
    if PlaceOf(Data(b)).Entry? { assert RoleOwned(w.v.disk, w.n, w.ino, w.v.owner, PlaceOf(Data(b)).table); }
    forall q | InFile(q) ensures BlockOf(d', n', q) == if q == Data(b) then f else BlockOf(w.v.disk, w.n, q) {
      LinkBlock(w.v.disk, w.n, w.ino, w.v.owner, Data(b), f, q);
    }
    forall i | i in w.v.inodes ensures FileOk(w'.v, i, w.v.inodes[i]) {
      assert FileOk(w.v, i, w.v.inodes[i]);
      if i == w.ino {
        FillsOwned(d', w.v.inodes[i], n', i, w.v.owner);
      } else {
        OtherOwned(w, w', i);
      }
    }
  }

  lemma OneMoreBlock(n: Inode)
    ensures NBlocks(n.(size := n.size + BLK)) == NBlocks(n) + 1
    ensures NBlocks(n) < DIRECT + PER ==> n.size + BLK < U32
  {
    if BLK == 1024 { assert (n.size + 2047) / 1024 == (n.size + 1023) / 1024 + 1; }
    else if BLK == 2048 { assert (n.size + 4095) / 2048 == (n.size + 2047) / 2048 + 1; }
    else { assert (n.size + 8191) / 4096 == (n.size + 4095) / 4096 + 1; }
  }

  /** The stages of an append: `w` before, `w1` with the new block set aside, `w2` with its table in place. */
  ghost predicate Appending(w: Work, w1: Work, w2: Work, f: nat, space: Sp.Space, e: Dirent) {
    && WorkOk(w) && w.n == w.v.inodes[w.ino] && DirOk(w.v.disk, w.n) && NBlocks(w.n) < DIRECT + PER && EntryOk(e)
    && JustTaken(w.v.space, space, f) && w1 == Reserve(w, Data(NBlocks(w.n)), f, space, FirstBlock(e))
    && WorkOk(w1) && WorkOk(w2) && Grown(w1, w2, MAX_DATA)
    && (NBlocks(w.n) >= DIRECT ==> BlockOf(w2.v.disk, w2.n, Single) != 0)
  }

  /** The numbers and contents of data blocks at the last stage are those of the directory. */
  lemma AppendingKept(w: Work, w1: Work, w2: Work, f: nat, space: Sp.Space, e: Dirent, i: nat)
    requires Appending(w, w1, w2, f, space, e) && i < MAX_DATA
    ensures BlockOf(w2.v.disk, w2.n, Data(i)) == BlockOf(w.v.disk, w.n, Data(i))
    ensures i < NBlocks(w.n) ==> Get(w2.v.disk, BlockOf(w.v.disk, w.n, Data(i))) == Get(w.v.disk, BlockOf(w.v.disk, w.n, Data(i)))
    ensures f in w2.v.owner && w2.v.owner[f] == (w.ino, Data(NBlocks(w.n))) && Get(w2.v.disk, f) == FirstBlock(e)
    ensures i < NBlocks(w.n) ==> BlockOf(w.v.disk, w.n, Data(i)) in w2.v.owner && w2.v.owner[BlockOf(w.v.disk, w.n, Data(i))] == (w.ino, Data(i))
  {
    hide BlockOf, FirstBlock, Tiled;
    ReserveOk(w, Data(NBlocks(w.n)), f, space, FirstBlock(e));
    assert Kept(w1, w2, Data(i), MAX_DATA);
    assert RoleOwned(w.v.disk, w.n, w.ino, w.v.owner, Data(i));
    if i < NBlocks(w.n) { TiledBlock(w.v.disk, w.n, i); }
  }

  lemma AppendingLink(w: Work, w1: Work, w2: Work, f: nat, space: Sp.Space, e: Dirent)
    requires Appending(w, w1, w2, f, space, e)
    ensures NBlocks(w.n) < MAX_DATA && CanLink(w2.v.disk, w2.n, w.ino, w2.v.owner, Data(NBlocks(w.n)), f)
    ensures f in w2.v.owner && OthersKept(w.v, w2.v, w.ino) && w2.v.inodes == w.v.inodes
    ensures w2.ino == w.ino && w2.n.size == w.n.size && w2.n.ftype == w.n.ftype
  {
    hide BlockOf, FirstBlock, Tiled;
    AppendingOthers(w, w1, w2, f, space, e);
    hide WorkOk, Grown, OthersKept, NBlocks, PlaceOf;
    var nb := NBlocks(w.n);
    SinglePlace(nb);
    AppendingKept(w, w1, w2, f, space, e, nb);
    assert DataBlock(w.v.disk, w.n, nb) == 0;
    assert 0 < f < U32 by { FitsSector(w.v.space, space, f); }
  }

  lemma SinglePlace(b: nat)
    requires b < DIRECT + PER
    ensures b < MAX_DATA && PlaceOf(Data(b)) == if b < DIRECT then Slot(b) else Entry(Single, b - DIRECT)
  {
  }

  lemma FitsSector(s: Sp.Space, s': Sp.Space, f: nat)
    requires JustTaken(s, s', f)
    ensures 0 < f < U32
  {
    assert Sp.Shape(s');
  }

  lemma AppendingOthers(w: Work, w1: Work, w2: Work, f: nat, space: Sp.Space, e: Dirent)
    requires Appending(w, w1, w2, f, space, e)
    ensures OthersKept(w.v, w2.v, w.ino) && w2.v.inodes == w.v.inodes && InodeOk(w2.n)
    ensures w2.ino == w.ino && w2.n.size == w.n.size && w2.n.ftype == w.n.ftype
  {
    hide BlockOf, FirstBlock, Tiled, DirOk, Kept, Fresh;
    ReserveOk(w, Data(NBlocks(w.n)), f, space, FirstBlock(e));
  }

  /** `v'` is the last stage with the block linked and the inode written back. */
  ghost predicate Linked(w: Work, w2: Work, f: nat, v': Vol) {
    && NBlocks(w.n) < MAX_DATA && InodeOk(w2.n) && w.ino in v'.inodes
    && var (d3, n3) := Link(w2.v.disk, w2.n, Data(NBlocks(w.n)), f);
       && v' == w2.v.(disk := d3, inodes := w2.v.inodes[w.ino := v'.inodes[w.ino]])
       && v'.inodes[w.ino] == n3.(size := w.n.size + BLK, blocks := v'.inodes[w.ino].blocks)
  }

  lemma LinkedSound(w: Work, w1: Work, w2: Work, f: nat, space: Sp.Space, e: Dirent, v': Vol)
    requires Appending(w, w1, w2, f, space, e) && Linked(w, w2, f, v')
    ensures VolOk(v') && OthersKept(w.v, v', w.ino) && FileOk(v', w.ino, v'.inodes[w.ino])
    ensures forall i :: 0 <= i < MAX_DATA ==>
              BlockOf(v'.disk, v'.inodes[w.ino], Data(i)) == if i == NBlocks(w.n) then f else BlockOf(w2.v.disk, w2.n, Data(i))
    ensures forall x :: x in w2.v.owner && !IsTable(w2.v.owner[x].1) ==> Get(v'.disk, x) == Get(w2.v.disk, x)
  {
    hide BlockOf, Appending, CanLink, Link;
    AppendingLink(w, w1, w2, f, space, e);
    AppendingWork(w, w1, w2, f, space, e);
    var nb, n' := NBlocks(w.n), v'.inodes[w.ino];
    LinkReserved(w2, nb, f);
    var (d3, n3) := Link(w2.v.disk, w2.n, Data(nb), f);
    OneMoreBlock(w.n);
    forall q | InFile(q) ensures BlockOf(v'.disk, n', q) == BlockOf(d3, n3, q) { SameSlots(d3, n3, n', q); }
    assert Owned(v'.disk, n', w.ino, v'.owner) by {
      forall q | InFile(q) ensures RoleOwned(v'.disk, n', w.ino, v'.owner, q) { assert RoleOwned(d3, n3, w.ino, w2.v.owner, q); }
    }
    forall i | i in v'.inodes ensures FileOk(v', i, v'.inodes[i]) {
      if i != w.ino { assert FileOk(w2.v.(disk := d3), i, w2.v.inodes[i]); }
    }
  }

  lemma AppendingWork(w: Work, w1: Work, w2: Work, f: nat, space: Sp.Space, e: Dirent)
    requires Appending(w, w1, w2, f, space, e)
    ensures WorkOk(w) && WorkOk(w2) && NBlocks(w.n) < DIRECT + PER && DirOk(w.v.disk, w.n) && EntryOk(e)
  {
  }

  /** Every block of the longer directory. */
  lemma LinkedBlocks(w: Work, w1: Work, w2: Work, f: nat, space: Sp.Space, e: Dirent, v': Vol, i: nat)
    requires Appending(w, w1, w2, f, space, e) && Linked(w, w2, f, v')
    ensures InodeOk(v'.inodes[w.ino]) && InodeOk(w.n)
    ensures DataBlock(v'.disk, v'.inodes[w.ino], i) == if i == NBlocks(w.n) then f else DataBlock(w.v.disk, w.n, i)
    ensures i < NBlocks(w.n) ==> DirBlock(v'.disk, v'.inodes[w.ino], i) == DirBlock(w.v.disk, w.n, i)
    ensures i == NBlocks(w.n) ==> DirBlock(v'.disk, v'.inodes[w.ino], i) == FirstBlock(e)
  {
    hide BlockOf, Appending, FirstBlock, Link, Tiled;
    LinkedSound(w, w1, w2, f, space, e, v');
    AppendingWork(w, w1, w2, f, space, e);
    if i < MAX_DATA { AppendingKept(w, w1, w2, f, space, e, i); }
  }

  /** An append adds the entry at the end of the directory and changes nothing else. */
  lemma AppendOk(w: Work, w1: Work, w2: Work, f: nat, space: Sp.Space, e: Dirent, v': Vol)
    requires Appending(w, w1, w2, f, space, e) && Linked(w, w2, f, v')
    ensures VolOk(v') && OthersKept(w.v, v', w.ino) && DirOk(v'.disk, v'.inodes[w.ino])
    ensures DirOk(w.v.disk, w.n) && List(v'.disk, v'.inodes[w.ino]) == List(w.v.disk, w.n) + [e]
  {
    hide BlockOf, DataBlock, DirBlock, Appending, FirstBlock, Link, Tiles, Entries;
    LinkedSound(w, w1, w2, f, space, e, v');
    AppendingWork(w, w1, w2, f, space, e);
    AppendingLink(w, w1, w2, f, space, e);
    FirstBlockOk(e);
    OneMoreBlock(w.n);
    var nb, n' := NBlocks(w.n), v'.inodes[w.ino];
    assert NBlocks(n') == nb + 1;
    assert f != 0 by { AppendingFresh(w, w1, w2, f, space, e); }
    forall i | 0 <= i ensures DataBlock(v'.disk, n', i) == if i == nb then f else DataBlock(w.v.disk, w.n, i) {
      LinkedBlocks(w, w1, w2, f, space, e, v', i);
    }
    forall i | 0 <= i < nb + 1 ensures DirBlock(v'.disk, n', i) == if i == nb then FirstBlock(e) else DirBlock(w.v.disk, w.n, i) {
      LinkedBlocks(w, w1, w2, f, space, e, v', i);
    }
    assert n'.ftype == Directory by { LinkKeepsType(w2.v.disk, w2.n, Data(nb), f); }
    assert DirOk(v'.disk, n');
    SameListing(w.v.disk, w.n, v'.disk, n', 0, nb);
  }

  lemma LinkKeepsType(d: Disk, n: Inode, r: Role, f: nat)
    requires InodeOk(n) && InFile(r)
    ensures Link(d, n, r, f).1.ftype == n.ftype
  {
  }

  lemma AppendingFresh(w: Work, w1: Work, w2: Work, f: nat, space: Sp.Space, e: Dirent)
    requires Appending(w, w1, w2, f, space, e)
    ensures f != 0
  {
  }
}
