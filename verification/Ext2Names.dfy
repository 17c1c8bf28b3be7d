/** Directory operations of the driver: find, insert and remove a name. */
module Ext2Names {
  import opened Bytes
  import opened Ext2Layout
  import opened Ext2Files
  import opened Ext2Writes
  import opened Ext2Volumes
  import opened Ext2Records
  import opened Ext2Directories
  import Sp = Ext2Space

  // ---------------------------------------------------------------------------------------------
  // Scanning one block
  // ---------------------------------------------------------------------------------------------

  /** The first free record from `p` on with room for `need` bytes, or -1. */
  ghost function FirstSlot(s: seq<Byte>, p: nat, need: nat): (r: int)
    requires Tiles(s, p, BLK)
    decreases BLK - p
  {
    if p >= BLK then -1
    else if RecIno(s, p) == 0 && RecLen(s, p) >= need then p
    else FirstSlot(s, p + RecLen(s, p), need)
  }

  /** `p` is a record boundary of the block. */
  ghost predicate Boundary(s: seq<Byte>, p: nat) { |s| == BLK && p <= BLK && Tiles(s, 0, p) && Tiles(s, p, BLK) }

  lemma NextBoundary(s: seq<Byte>, p: nat)
    requires Boundary(s, p) && p < BLK
    ensures RecordAt(s, p) && Boundary(s, p + RecLen(s, p))
    ensures Entries(s, 0, p + RecLen(s, p)) == Entries(s, 0, p) + Here(s, p)
    ensures Entries(s, p, BLK) == Here(s, p) + Entries(s, p + RecLen(s, p), BLK)
  {
    OneRecord(s, p);
    Join(s, 0, p, p + RecLen(s, p));
  }

  /** The search of ext2_dir_insert in one block. */
  method FindSlot(buf: array<Byte>, need: nat) returns (p: int)
    requires Tiled(buf[..])
    ensures p == FirstSlot(buf[..], 0, need)
    ensures p != -1 ==> 0 <= p < BLK && Boundary(buf[..], p) && RecordAt(buf[..], p) && RecIno(buf[..], p) == 0 && RecLen(buf[..], p) >= need
  {
    hide Tiles, Entries, RecordAt, RecLen, RecIno, Boundary;
    ghost var s := buf[..];
    p := 0;
    StartBoundary(s);
    while p + 8 <= BLK
      invariant 0 <= p <= BLK && Boundary(s, p) && Tiles(s, p, BLK) && FirstSlot(s, p, need) == FirstSlot(s, 0, need)
      decreases BLK - p
    {
      NextBoundary(s, p);
      RecordFits(s, p);
      BoundaryTiles(s, p + RecLen(s, p));
      var len := RecLen(buf[..], p);
      if RecIno(buf[..], p) == 0 && len >= need {
        return p;
      }
      p := p + len;
    }
    AtEnd(s, p);
    p := -1;
  }

  lemma StartBoundary(s: seq<Byte>)
    requires Tiled(s)
    ensures Boundary(s, 0) && Tiles(s, 0, BLK) && |s| == BLK
  {
  }

  lemma BoundaryTiles(s: seq<Byte>, p: nat)
    requires Boundary(s, p)
    ensures Tiles(s, p, BLK) && Tiles(s, 0, p) && p <= BLK
  {
  }

  lemma RecordFits(s: seq<Byte>, p: nat)
    requires RecordAt(s, p)
    ensures 8 <= RecLen(s, p) && p + RecLen(s, p) <= BLK
  {
  }

  lemma AtEnd(s: seq<Byte>, p: nat)
    requires Boundary(s, p) && p + 8 > BLK
    ensures p == BLK
  {
  }

  ghost predicate NoName(es: seq<Dirent>, name: seq<Byte>) { forall k :: 0 <= k < |es| ==> es[k].name != name }

  /** The record before a boundary: -1 at the start of the block. */
  ghost predicate Before(s: seq<Byte>, prev: int, p: nat) {
    if p == 0 then prev == -1
    else 0 <= prev < p && Boundary(s, prev) && RecordAt(s, prev) && prev + RecLen(s, prev) == p
  }

  /** The search of ext2_dir_find and ext2_unlink in one block. */
  method FindName(buf: array<Byte>, name: seq<Byte>) returns (cur: int, prev: int, child: nat)
    requires Tiled(buf[..]) && |name| > 0
    ensures cur == -1 ==> NoName(Entries(buf[..], 0, BLK), name)
    ensures cur != -1 ==> && 0 <= cur < BLK && Boundary(buf[..], cur) && Tiles(buf[..], 0, cur) && NoName(Entries(buf[..], 0, cur), name)
                          && RecordAt(buf[..], cur) && Here(buf[..], cur) != [] && Here(buf[..], cur)[0].name == name
                          && Here(buf[..], cur)[0].ino == child && Before(buf[..], prev, cur)
  {
    hide Tiles, Entries, Boundary, Rd16, Rd32;
    ghost var s := buf[..];
    cur, prev, child := 0, -1, 0;
    StartBoundary(s);
    BoundaryTiles(s, 0);
    NoneBefore(s);
    while cur + 8 <= BLK
      invariant 0 <= cur <= BLK && Boundary(s, cur) && Tiles(s, 0, cur) && NoName(Entries(s, 0, cur), name) && Before(s, prev, cur)
      decreases BLK - cur
    {
      NextBoundary(s, cur);
      RecordFits(s, cur);
      BoundaryTiles(s, cur + RecLen(s, cur));
      var ino, len, nlen := RecIno(buf[..], cur), RecLen(buf[..], cur), buf[cur + 6] as int;
      if ino != 0 && nlen == |name| && buf[cur + 8..cur + 8 + nlen] == name {
        assert s[cur + 8..cur + 8 + nlen] == buf[cur + 8..cur + 8 + nlen];
        return cur, prev, ino;
      }
      if ino != 0 {
        assert s[cur + 8..cur + 8 + nlen] == buf[cur + 8..cur + 8 + nlen];
      }
      prev, cur := cur, cur + len;
    }
    AtEnd(s, cur);
    cur := -1;
  }

  lemma NoneBefore(s: seq<Byte>)
    requires Tiles(s, 0, 0)
    ensures Entries(s, 0, 0) == []
  {
  }

  // ---------------------------------------------------------------------------------------------
  // Inserting
  // ---------------------------------------------------------------------------------------------

  /** `es'` is `es` with `e` put in somewhere. */
  ghost predicate Inserted(es: seq<Dirent>, es': seq<Dirent>, e: Dirent) {
    exists k :: 0 <= k <= |es| && es' == InsertAt(es, k, e)
  }

  ghost function InsertAt(es: seq<Dirent>, k: nat, e: Dirent): seq<Dirent>
    requires k <= |es|
  {
    es[..k] + [e] + es[k..]
  }

  ghost predicate IsDir(v: Vol, dir: nat) {
    dir in v.inodes && v.inodes[dir].ftype == Directory && DirOk(v.disk, v.inodes[dir])
  }

  ghost function ListOf(v: Vol, dir: nat): seq<Dirent>
    requires IsDir(v, dir)
  {
    List(v.disk, v.inodes[dir])
  }

  /** Writing a record into the buffer. */
  method PutRecordIn(buf: array<Byte>, p: nat, ino: nat, len: nat, ftype: Byte, name: seq<Byte>)
    requires p + 8 + |name| <= buf.Length && |name| <= MAX_NAME
    modifies buf
    ensures buf[..] == PutRecord(old(buf[..]), p, ino, len, ftype, name)
  {
    CopyIn(buf, p, Header(ino, len, |name|, ftype) + name);
  }

  method FillIn(buf: array<Byte>, p: nat, e: Dirent)
    requires EntryOk(e) && RecordAt(buf[..], p) && RecLen(buf[..], p) >= Needed(|e.name|)
    modifies buf
    ensures buf[..] == Fill(old(buf[..]), p, e)
  {
    hide PutRecord;
    var need, len := Needed(|e.name|), RecLen(buf[..], p);
    var left := len - need;
    PutRecordIn(buf, p, e.ino, if left >= 8 then need else len, e.ftype, e.name);
    if left >= 8 {
      PutRecordIn(buf, p + need, 0, left, 0, []);
    }
  }

  /** Filling a free record of block `b` inserts the entry into the directory. */
  lemma FillInserts(v: Vol, dir: nat, b: nat, p: nat, e: Dirent)
    requires VolOk(v) && IsDir(v, dir) && b < NBlocks(v.inodes[dir]) && EntryOk(e)
    requires var s := DirBlock(v.disk, v.inodes[dir], b); Boundary(s, p) && RecordAt(s, p) && RecIno(s, p) == 0 && RecLen(s, p) >= Needed(|e.name|)
    ensures var v' := Rewrite(v, dir, b, Fill(DirBlock(v.disk, v.inodes[dir], b), p, e));
            VolOk(v') && OthersKept(v, v', dir) && IsDir(v', dir) && Inserted(ListOf(v, dir), ListOf(v', dir), e)
  {
    hide Fill, Tiles, Entries, VolOk, DirOk, Listing, DirBlock, RecLen, RecIno, OthersKept;
    var n := v.inodes[dir];
    IsDirInode(v, dir);
    var s := DirBlock(v.disk, n, b);
    NextBoundary(s, p);
    BoundaryTiles(s, p);
    BoundaryTiles(s, p + RecLen(s, p));
    FillOk(s, p, e);
    RewriteOk(v, dir, b, Fill(s, p, e));
    ListAround(v.disk, n, b);
    var head, a, c, tail := Listing(v.disk, n, 0, b), Entries(s, 0, p), Entries(s, p + RecLen(s, p), BLK), Listing(v.disk, n, b + 1, NBlocks(n));
    var es := ListOf(v, dir);
    assert es == head + (a + c) + tail;
    InsertBetween(head, a, c, tail, e);
  }

  lemma IsDirInode(v: Vol, dir: nat)
    requires IsDir(v, dir)
    ensures InodeOk(v.inodes[dir])
  {
  }

  lemma InsertBetween(head: seq<Dirent>, a: seq<Dirent>, c: seq<Dirent>, tail: seq<Dirent>, e: Dirent)
    ensures Inserted(head + (a + c) + tail, head + (a + [e] + c) + tail, e)
  {
    var es := head + (a + c) + tail;
    assert head + (a + [e] + c) + tail == InsertAt(es, |head + a|, e);
  }

  /** A new directory block in the buffer. */
  method FirstBlockIn(buf: array<Byte>, e: Dirent)
    requires buf.Length == BLK && EntryOk(e)
    modifies buf
    ensures buf[..] == FirstBlock(e)
  {
    hide PutRecord;
    var need := Needed(|e.name|);
    CopyIn(buf, 0, Zeros());
    assert buf[..] == Zeros();
    PutRecordIn(buf, 0, e.ino, need, e.ftype, e.name);
    PutRecordIn(buf, need, 0, BLK - need, 0, []);
  }

  /** A directory whose blocks are where they were and hold what they held lists the same. */
  lemma SameDirectory(v: Vol, v': Vol, dir: nat)
    requires VolOk(v) && IsDir(v, dir) && dir in v'.inodes && v'.inodes[dir] == v.inodes[dir]
    requires forall q :: InFile(q) ==> BlockOf(v'.disk, v.inodes[dir], q) == BlockOf(v.disk, v.inodes[dir], q)
    requires forall x :: x in v.owner && v.owner[x].0 == dir ==> Get(v'.disk, x) == Get(v.disk, x)
    ensures IsDir(v', dir) && ListOf(v', dir) == ListOf(v, dir)
  {
    hide BlockOf, Tiled;
    var n := v.inodes[dir];
    assert FileOk(v, dir, n);
    forall b | 0 <= b ensures DataBlock(v'.disk, n, b) == DataBlock(v.disk, n, b) {}
    forall b | 0 <= b < NBlocks(n) ensures DirBlock(v'.disk, n, b) == DirBlock(v.disk, n, b) {
      TiledBlock(v.disk, n, b);
      assert RoleOwned(v.disk, n, dir, v.owner, Data(b));
    }
    SameBlocksList(v.disk, v'.disk, n);
  }

  lemma SameBlocksList(d: Disk, d': Disk, n: Inode)
    requires DirOk(d, n)
    requires forall b :: 0 <= b ==> DataBlock(d', n, b) == DataBlock(d, n, b)
    requires forall b :: 0 <= b < NBlocks(n) ==> DirBlock(d', n, b) == DirBlock(d, n, b)
    ensures DirOk(d', n) && List(d', n) == List(d, n)
  {
    hide DataBlock, DirBlock, Tiled, NBlocks;
    SameListing(d, n, d', n, 0, NBlocks(n));
  }

  /** A block set aside goes back: the directory and the accounts are as before. */
  method GiveBack(vol: Volume, f: nat, ghost w: Work, ghost space: Sp.Space, ghost e: Dirent)
    requires WorkOk(w) && w.n == w.v.inodes[w.ino] && IsDir(w.v, w.ino) && JustTaken(w.v.space, space, f) && EntryOk(e)
    requires vol.Now() == Reserve(w, Data(NBlocks(w.n)), f, space, FirstBlock(e)).v
    modifies vol`space, vol`owner, vol.blkbuf
    ensures VolOk(vol.Now()) && OthersKept(w.v, vol.Now(), w.ino) && IsDir(vol.Now(), w.ino)
            && ListOf(vol.Now(), w.ino) == ListOf(w.v, w.ino)
    ensures vol.space == w.v.space && vol.inodes == w.v.inodes && vol.owner == w.v.owner && vol.disk == old(vol.disk)
  {
    hide VolOk, WorkOk, DirOk, FirstBlock, Listing, OthersKept, BlockOf, SpaceOk, JustTaken;
    ReserveOk(w, Data(NBlocks(w.n)), f, space, FirstBlock(e));
    WorkParts(vol.At(w.ino, w.n));
    vol.ReleaseBlock(f);
    GiveBackOk(w, Data(NBlocks(w.n)), f, space, FirstBlock(e), vol.Now());
    WorkVolume(w);
    SameDirectory(w.v, vol.Now(), w.ino);
  }

  /** The inode with the new block is written back. */
  method FinishAppend(vol: Volume, dir: nat, n3: Inode, f: nat, ghost w: Work, ghost w1: Work, ghost w2: Work,
      ghost space: Sp.Space, ghost e: Dirent)
    requires vol.Buffers() && Appending(w, w1, w2, f, space, e) && dir == w.ino && InodeOk(n3) && InodeOk(w2.n) && NBlocks(w.n) < MAX_DATA
    requires (vol.disk, n3) == Link(w2.v.disk, w2.n, Data(NBlocks(w.n)), f) && vol.Now() == w2.v.(disk := vol.disk) && n3.size == w.n.size
    modifies vol`inodes, vol.blkbuf, vol.indbuf
    ensures VolOk(vol.Now()) && OthersKept(w.v, vol.Now(), dir) && IsDir(w.v, dir) && IsDir(vol.Now(), dir)
    ensures ListOf(vol.Now(), dir) == ListOf(w.v, dir) + [e] && vol.inodes.Keys == w.v.inodes.Keys
  {
    hide VolOk, WorkOk, DirOk, FirstBlock, Listing, OthersKept, Link, BlockOf, Appending, Linked, NBlocks;
    AppendingInodes(w, w1, w2, f, space, e);
    var blocks := vol.CountBlocks(n3);
    vol.WriteInode(dir, n3.(size := n3.size + BLK, blocks := blocks));
    LinkedIntro(w, w2, f, vol.Now(), vol.disk, n3);
    AppendOk(w, w1, w2, f, space, e, vol.Now());
    ListedDir(w.v, dir, w.n);
    ListedDir(vol.Now(), dir, vol.inodes[dir]);
  }

  lemma AppendingInodes(w: Work, w1: Work, w2: Work, f: nat, space: Sp.Space, e: Dirent)
    requires Appending(w, w1, w2, f, space, e)
    ensures w2.v.inodes == w.v.inodes && w.ino in w.v.inodes && w.v.inodes[w.ino] == w.n && DirOk(w.v.disk, w.n)
  {
    hide Kept, Fresh, DirOk, FirstBlock;
  }

  lemma LinkedIntro(w: Work, w2: Work, f: nat, v': Vol, d3: Disk, n3: Inode)
    requires NBlocks(w.n) < MAX_DATA && InodeOk(w2.n) && w.ino in v'.inodes && (d3, n3) == Link(w2.v.disk, w2.n, Data(NBlocks(w.n)), f)
    requires v' == w2.v.(disk := d3, inodes := w2.v.inodes[w.ino := v'.inodes[w.ino]])
    requires v'.inodes[w.ino] == n3.(size := w.n.size + BLK, blocks := v'.inodes[w.ino].blocks)
    ensures Linked(w, w2, f, v')
  {
    hide Link, NBlocks;
  }

  lemma ListedDir(v: Vol, dir: nat, n: Inode)
    requires dir in v.inodes && v.inodes[dir] == n && DirOk(v.disk, n)
    ensures IsDir(v, dir)
  {
  }

  /** A directory that cannot get one more block: it has all that it can have, or the volume has no
      free block, or only one where a first indirect table is needed too. */
  ghost predicate CannotGrow(s: Sp.Space, n: Inode)
    requires InodeOk(n)
  {
    || NBlocks(n) >= DIRECT + PER || Sp.Full(s)
    || (NBlocks(n) >= DIRECT && n.block[12] == 0 && exists f: nat :: Sp.OnlyFree(s, f))
  }

  lemma OnlyOneLeft(s: Sp.Space, s': Sp.Space, f: nat)
    requires JustTaken(s, s', f) && Sp.Full(s')
    ensures Sp.OnlyFree(s, f)
  {
    hide Sp.Accounted, Sp.FirstBlocksUsed, Sp.Shape;
    forall y | 0 <= y < |s.used| && y != f ensures s.used[y] {
      assert s'.used[y];
    }
  }

  /** The part of ext2_dir_insert that appends a block. */
  method AppendEntry(vol: Volume, dir: nat, e: Dirent) returns (r: int)
    requires vol.Valid() && IsDir(vol.Now(), dir) && EntryOk(e)
    modifies vol, vol.blkbuf, vol.indbuf
    ensures vol.Valid() && OthersKept(old(vol.Now()), vol.Now(), dir) && IsDir(vol.Now(), dir)
    ensures (r == 0 || r == -1) && vol.inodes.Keys == old(vol.inodes.Keys)
    ensures r == 0 ==> ListOf(vol.Now(), dir) == old(ListOf(vol.Now(), dir)) + [e]
    ensures r == -1 ==> ListOf(vol.Now(), dir) == old(ListOf(vol.Now(), dir)) && vol.space == old(vol.space) && vol.inodes == old(vol.inodes)
    ensures r == -1 ==> InodeOk(vol.inodes[dir]) && CannotGrow(vol.space, vol.inodes[dir])
  {
    hide VolOk, WorkOk, DirOk, FirstBlock, Listing, OthersKept, Grown, Link, BlockOf, PlaceOf, JustTaken, NBlocks, Sp.Full, Sp.OnlyFree;
    IsDirInode(vol.Now(), dir);
    StartWork(vol.Now(), dir);
    var n := vol.inodes[dir];
    ghost var w := vol.At(dir, n);
    WorkParts(w);
    var nb := NBlocks(n);
    var f := vol.TakeBlock();
    if f == 0 {
      NothingChanged(w.v, vol.Now(), dir);
      return -1;
    }
    ghost var space := vol.space;
    FirstBlockIn(vol.blkbuf, e);
    vol.WriteBlock(f, vol.blkbuf);
    vol.owner := vol.owner[f := (dir, Data(nb))];
    ghost var w1 := vol.At(dir, n);
    ReserveOk(w, Data(nb), f, space, FirstBlock(e));
    var n2 := n;
    if nb >= DIRECT {
      var indir := 0;
      if nb < DIRECT + PER {
        TopTables();
        indir, n2 := vol.TopTable(dir, n, Single, 12, MAX_DATA);
        if indir == 0 { OnlyOneLeft(w.v.space, space, f); }
      }
      if indir == 0 {
        GiveBack(vol, f, w, space, e);
        return -1;
      }
      ghost var w2 := vol.At(dir, n2);
      WorkParts(w1);
      WorkParts(w2);
      StageReady(w, w1, w2, f, space, e);
      vol.PutPtr(vol.indbuf, nb - DIRECT, f);
      vol.WriteBlock(indir, vol.indbuf);
      LinkInTable(w2, nb, f);
      FinishAppend(vol, dir, n2, f, w, w1, w2, space, e);
    } else {
      WorkParts(w1);
      GrownNone(w1, MAX_DATA);
      StageReady(w, w1, w1, f, space, e);
      LinkInSlot(w1, nb, f);
      n2 := n.(block := n.block[nb := f]);
      FinishAppend(vol, dir, n2, f, w, w1, w1, space, e);
    }
    return 0;
  }

  lemma NothingChanged(v: Vol, v': Vol, dir: nat)
    requires v == v'
    ensures OthersKept(v, v', dir)
  {
  }

  lemma TopTables()
    ensures PlaceOf(Single) == Slot(12)
  {
  }

  lemma StageReady(w: Work, w1: Work, w2: Work, f: nat, space: Sp.Space, e: Dirent)
    requires WorkOk(w) && w.ino in w.v.inodes && w.n == w.v.inodes[w.ino] && IsDir(w.v, w.ino) && NBlocks(w.n) < DIRECT + PER && EntryOk(e)
    requires JustTaken(w.v.space, space, f) && w1 == Reserve(w, Data(NBlocks(w.n)), f, space, FirstBlock(e))
    requires WorkOk(w1) && WorkOk(w2) && InodeOk(w1.n) && InodeOk(w2.n) && Grown(w1, w2, MAX_DATA)
    requires NBlocks(w.n) >= DIRECT ==> BlockOf(w2.v.disk, w2.n, Single) != 0
    ensures Appending(w, w1, w2, f, space, e) && w2.n.size == w.n.size && NBlocks(w.n) < MAX_DATA && w2.ino == w.ino
  {
    hide WorkOk, BlockOf, FirstBlock, DirOk, JustTaken;
    SinglePlace(NBlocks(w.n));
  }

  lemma LinkInSlot(w: Work, b: nat, f: nat)
    requires InodeOk(w.n) && b < DIRECT
    ensures b < MAX_DATA && Link(w.v.disk, w.n, Data(b), f) == (w.v.disk, w.n.(block := w.n.block[b := f]))
  {
  }

  lemma LinkInTable(w: Work, b: nat, f: nat)
    requires InodeOk(w.n) && DIRECT <= b < DIRECT + PER
    ensures b < MAX_DATA
    ensures var t := BlockOf(w.v.disk, w.n, Single); Link(w.v.disk, w.n, Data(b), f) == (w.v.disk[t := SetPtr(Get(w.v.disk, t), b - DIRECT, f)], w.n)
  {
    hide BlockOf;
    SinglePlace(b);
  }

  /** No block of the directory has a free record of `need` bytes, and there can be no new block. */
  ghost predicate NoRoom(v: Vol, dir: nat, need: nat)
    requires IsDir(v, dir)
  {
    && InodeOk(v.inodes[dir]) && CannotGrow(v.space, v.inodes[dir])
    && forall b :: 0 <= b < NBlocks(v.inodes[dir]) ==> BlockFull(DirBlock(v.disk, v.inodes[dir], b), need)
  }

  ghost predicate BlockFull(s: seq<Byte>, need: nat) {
    forall p: nat :: p < BLK && Boundary(s, p) && RecordAt(s, p) && RecIno(s, p) == 0 ==> RecLen(s, p) < need
  }

  /** The search that finds no record has seen them all. */
  lemma {:induction false} NoSlot(s: seq<Byte>, p: nat, need: nat, q: nat)
    requires Tiles(s, p, BLK) && FirstSlot(s, p, need) == -1 && Boundary(s, p)
    requires p <= q < BLK && Boundary(s, q) && RecordAt(s, q) && RecIno(s, q) == 0
    ensures RecLen(s, q) < need
    decreases BLK - p
  {
    if p != q {
      NextBoundary(s, p);
      NotInside(s, p, q);
      NoSlot(s, p + RecLen(s, p), need, q);
    }
  }

  /** No record boundary lies inside a record. */
  lemma NotInside(s: seq<Byte>, p: nat, q: nat)
    requires Boundary(s, p) && Boundary(s, q) && p < q && RecordAt(s, p)
    ensures p + RecLen(s, p) <= q
  {
    BoundariesMeet(s, 0, p, q);
  }

  lemma {:induction false} BoundariesMeet(s: seq<Byte>, o: nat, p: nat, q: nat)
    requires Tiles(s, o, p) && Tiles(s, o, q) && o <= p < q <= BLK && |s| == BLK && RecordAt(s, p)
    ensures p + RecLen(s, p) <= q
    decreases p - o
  {
    if o < p {
      BoundariesMeet(s, o + RecLen(s, o), p, q);
    } else {
      TilesBounds(s, p + RecLen(s, p), q);
    }
  }

  lemma SlotlessBlock(s: seq<Byte>, need: nat)
    requires Tiled(s) && FirstSlot(s, 0, need) == -1
    ensures BlockFull(s, need)
  {
    StartBoundary(s);
    forall p: nat | p < BLK && Boundary(s, p) && RecordAt(s, p) && RecIno(s, p) == 0 ensures RecLen(s, p) < need {
      NoSlot(s, 0, need, p);
    }
  }

  /** ext2_dir_insert: into the first free record that is big enough, or into a new block. */
  method DirInsert(vol: Volume, dir: nat, e: Dirent) returns (r: int)
    requires vol.Valid() && (dir == 0 || dir in vol.inodes) && e.ino < U32
    requires dir in vol.inodes && vol.inodes[dir].ftype == Directory ==> DirOk(vol.disk, vol.inodes[dir])
    modifies vol, vol.blkbuf, vol.indbuf
    ensures vol.Valid() && OthersKept(old(vol.Now()), vol.Now(), dir)
    ensures (r == 0 || r == -1) && vol.inodes.Keys == old(vol.inodes.Keys)
    ensures r == 0 ==> EntryOk(e) && dir != 0 && old(IsDir(vol.Now(), dir))
    ensures old(IsDir(vol.Now(), dir)) ==> IsDir(vol.Now(), dir)
    ensures r == 0 ==> Inserted(old(ListOf(vol.Now(), dir)), ListOf(vol.Now(), dir), e)
    ensures r == -1 && old(IsDir(vol.Now(), dir)) ==> ListOf(vol.Now(), dir) == old(ListOf(vol.Now(), dir))
    ensures r == -1 ==> vol.inodes == old(vol.inodes) && vol.space == old(vol.space)
    ensures r == -1 && old(IsDir(vol.Now(), dir)) && EntryOk(e) && dir != 0 ==> old(NoRoom(vol.Now(), dir, Needed(|e.name|)))
  {
    hide VolOk, DirOk, Listing, OthersKept, Fill, Tiles, RecLen, RecIno, RecordAt, Boundary, DataBlock, BlockFull, CannotGrow, FirstSlot;
    NothingChanged(vol.Now(), vol.Now(), dir);
    if |e.name| == 0 || |e.name| > MAX_NAME || e.ino == 0 || dir == 0 {
      return -1;
    }
    modify vol.blkbuf;
    var n := vol.inodes[dir];
    if n.ftype != Directory {
      return -1;
    }
    var nblocks := NBlocks(n);
    ghost var v := vol.Now();
    IsDirInode(v, dir);
    for b := 0 to nblocks
      invariant vol.Now() == v
      invariant forall c :: 0 <= c < b ==> BlockFull(DirBlock(v.disk, n, c), Needed(|e.name|))
    {
      TiledBlock(v.disk, n, b);
      var blk := vol.FindDataBlock(n, b);
      if blk != 0 {
        vol.ReadBlock(blk, vol.blkbuf);
        assert vol.blkbuf[..] == DirBlock(v.disk, n, b);
        var p := FindSlot(vol.blkbuf, Needed(|e.name|));
        if p != -1 {
          FillIn(vol.blkbuf, p, e);
          vol.WriteBlock(blk, vol.blkbuf);
          FillInserts(v, dir, b, p, e);
          return 0;
        }
        SlotlessBlock(DirBlock(v.disk, n, b), Needed(|e.name|));
      }
    }
    r := AppendEntry(vol, dir, e);
    if r == 0 {
      AtTheEnd(old(ListOf(vol.Now(), dir)), e);
    }
  }

  lemma AtTheEnd(es: seq<Dirent>, e: Dirent)
    ensures Inserted(es, es + [e], e)
  {
    assert es + [e] == InsertAt(es, |es|, e);
  }

  // ---------------------------------------------------------------------------------------------
  // Finding and removing
  // ---------------------------------------------------------------------------------------------

  /** The first record with this name in the directory: its block, its place, and the record before it. */
  ghost predicate FoundAt(v: Vol, dir: nat, name: seq<Byte>, b: nat, cur: nat, prev: int, child: nat)
    requires IsDir(v, dir)
  {
    && b < NBlocks(v.inodes[dir])
    && var s := DirBlock(v.disk, v.inodes[dir], b);
       && cur < BLK && Boundary(s, cur) && RecordAt(s, cur) && Here(s, cur) != [] && Here(s, cur)[0].name == name
          && Here(s, cur)[0].ino == child
       && Before(s, prev, cur) && NoName(Entries(s, 0, cur), name)
       && NoName(Listing(v.disk, v.inodes[dir], 0, b), name)
  }

  /** ext2_dir_find. */
  method DirFind(vol: Volume, dir: nat, name: seq<Byte>) returns (r: int, child: nat, blk: nat, cur: nat, prev: int, ghost b: nat)
    requires vol.Valid() && (dir == 0 || dir in vol.inodes)
    requires dir in vol.inodes && vol.inodes[dir].ftype == Directory ==> DirOk(vol.disk, vol.inodes[dir])
    modifies vol.blkbuf, vol.indbuf
    ensures r == 0 || r == -1
    ensures r == 0 ==> && dir != 0 && IsDir(vol.Now(), dir) && FoundAt(vol.Now(), dir, name, b, cur, prev, child)
                       && blk == DataBlock(vol.disk, vol.inodes[dir], b)
    ensures r == -1 && dir != 0 && 0 < |name| <= MAX_NAME && IsDir(vol.Now(), dir) ==> NoName(ListOf(vol.Now(), dir), name)
  {
    hide VolOk, DirOk, Entries, Tiles, RecLen, RecIno, RecordAt, Boundary, DataBlock, Here, Before;
    r, child, blk, cur, prev, b := -1, 0, 0, 0, -1, 0;
    if dir == 0 {
      return;
    }
    modify vol.blkbuf;
    var n := vol.inodes[dir];
    if n.ftype != Directory || |name| == 0 || |name| > MAX_NAME {
      return;
    }
    ghost var v := vol.Now();
    IsDirInode(v, dir);
    for i := 0 to NBlocks(n)
      invariant NoName(Listing(v.disk, n, 0, i), name)
    {
      TiledBlock(v.disk, n, i);
      var x := vol.FindDataBlock(n, i);
      if x != 0 {
        vol.ReadBlock(x, vol.blkbuf);
        assert vol.blkbuf[..] == DirBlock(v.disk, n, i);
        var at, before, ino := FindName(vol.blkbuf, name);
        if at != -1 {
          return 0, ino, x, at, before, i;
        }
      }
    }
  }

  /** ext2_dir_remove: the record is given to the one before it, or made free. */
  method DirRemove(vol: Volume, blk: nat, cur: nat, prev: int)
    requires vol.Buffers() && RecordAt(Get(vol.disk, blk), cur) && (prev == -1 || (0 <= prev && RecordAt(Get(vol.disk, blk), prev)))
    modifies vol`disk, vol.blkbuf
    ensures vol.disk == old(vol.disk)[blk := RemoveRecord(old(Get(vol.disk, blk)), cur, prev)]
  {
    ghost var s := Get(vol.disk, blk);
    vol.ReadBlock(blk, vol.blkbuf);
    if prev != -1 {
      var sum := RecLen(vol.blkbuf[..], prev) + RecLen(vol.blkbuf[..], cur);
      vol.blkbuf[prev + 4] := sum % 256;
      vol.blkbuf[prev + 5] := sum / 256 % 256;
      assert vol.blkbuf[..] == Merge(s, prev, cur);
    } else {
      vol.blkbuf[cur] := 0;
      vol.blkbuf[cur + 1] := 0;
      vol.blkbuf[cur + 2] := 0;
      vol.blkbuf[cur + 3] := 0;
      vol.blkbuf[cur + 6] := 0;
      vol.blkbuf[cur + 7] := 0;
      assert vol.blkbuf[..] == Release(s, cur);
    }
    vol.WriteBlock(blk, vol.blkbuf);
  }

  ghost function RemoveRecord(s: seq<Byte>, cur: nat, prev: int): seq<Byte>
    requires RecordAt(s, cur) && (prev == -1 || (0 <= prev && RecordAt(s, prev)))
  {
    if prev != -1 then Merge(s, prev, cur) else Release(s, cur)
  }

  /** `es'` is `es` without its first entry of this name. */
  ghost predicate RemovedFirst(es: seq<Dirent>, es': seq<Dirent>, name: seq<Byte>, child: nat) {
    exists k :: 0 <= k < |es| && es[k].name == name && es[k].ino == child && NoName(es[..k], name) && es' == es[..k] + es[k + 1..]
  }

  lemma RemoveRecordOk(s: seq<Byte>, cur: nat, prev: int)
    requires Boundary(s, cur) && cur < BLK && RecordAt(s, cur) && Before(s, prev, cur)
    ensures var s', q := RemoveRecord(s, cur, prev), cur + RecLen(s, cur);
            && Tiles(s, 0, cur) && Tiles(s, q, BLK) && Tiled(s) && Tiled(s')
            && Entries(s, 0, BLK) == Entries(s, 0, cur) + Here(s, cur) + Entries(s, q, BLK)
            && Entries(s', 0, BLK) == Entries(s, 0, cur) + Entries(s, q, BLK)
  {
    hide Tiles, Entries, RecLen, RecIno, Here, Merge, Release, RecordAt;
    NextBoundary(s, cur);
    BoundaryTiles(s, cur);
    BoundaryTiles(s, cur + RecLen(s, cur));
    if prev != -1 {
      BoundaryTiles(s, prev);
      MergeOk(s, prev, cur);
    } else {
      ReleaseOk(s, cur);
    }
  }

  /** Removing a record removes its entry from the directory and no other. */
  lemma RemoveTakesAway(v: Vol, dir: nat, name: seq<Byte>, b: nat, cur: nat, prev: int, child: nat)
    requires VolOk(v) && IsDir(v, dir) && FoundAt(v, dir, name, b, cur, prev, child)
    ensures var v' := Rewrite(v, dir, b, RemoveRecord(DirBlock(v.disk, v.inodes[dir], b), cur, prev));
            VolOk(v') && OthersKept(v, v', dir) && IsDir(v', dir) && RemovedFirst(ListOf(v, dir), ListOf(v', dir), name, child)
  {
    hide VolOk, DirOk, Entries, Tiles, Rd16, Rd32, Boundary, DataBlock, Here, Listing, OthersKept, DirBlock, RemoveRecord;
    var n := v.inodes[dir];
    IsDirInode(v, dir);
    var s := DirBlock(v.disk, n, b);
    RemoveRecordOk(s, cur, prev);
    RewriteOk(v, dir, b, RemoveRecord(s, cur, prev));
    ListAround(v.disk, n, b);
    var head, tail := Listing(v.disk, n, 0, b), Listing(v.disk, n, b + 1, NBlocks(n));
    var a, c := Entries(s, 0, cur), Entries(s, cur + RecLen(s, cur), BLK);
    OneHere(s, cur);
    RemoveBetween(head, a, Here(s, cur)[0], c, tail, name);
  }

  lemma OneHere(s: seq<Byte>, p: nat)
    requires RecordAt(s, p) && Here(s, p) != []
    ensures Here(s, p) == [Here(s, p)[0]]
  {
  }

  lemma RemoveBetween(head: seq<Dirent>, a: seq<Dirent>, e: Dirent, c: seq<Dirent>, tail: seq<Dirent>, name: seq<Byte>)
    requires e.name == name && NoName(head, name) && NoName(a, name)
    ensures RemovedFirst(head + (a + [e] + c) + tail, head + (a + c) + tail, name, e.ino)
  {
    var es, k := head + (a + [e] + c) + tail, |head + a|;
    assert es[..k] == head + a && es[k] == e;
    assert head + (a + c) + tail == es[..k] + es[k + 1..];
  }

  /** The directory part of ext2_unlink and ext2_rmdir. */
  method RemoveName(vol: Volume, dir: nat, name: seq<Byte>) returns (r: int, child: nat)
    requires vol.Valid() && (dir == 0 || dir in vol.inodes)
    requires dir in vol.inodes && vol.inodes[dir].ftype == Directory ==> DirOk(vol.disk, vol.inodes[dir])
    modifies vol`disk, vol.blkbuf, vol.indbuf
    ensures vol.Valid() && OthersKept(old(vol.Now()), vol.Now(), dir)
    ensures r == 0 || r == -1
    ensures old(IsDir(vol.Now(), dir)) ==> IsDir(vol.Now(), dir)
    ensures r == 0 ==> old(IsDir(vol.Now(), dir)) && RemovedFirst(old(ListOf(vol.Now(), dir)), ListOf(vol.Now(), dir), name, child)
    ensures r == -1 ==> vol.Now() == old(vol.Now())
    ensures r == -1 && dir != 0 && 0 < |name| <= MAX_NAME && old(IsDir(vol.Now(), dir)) ==> NoName(ListOf(vol.Now(), dir), name)
  {
    hide VolOk, DirOk, Entries, Tiles, RecLen, RecIno, RecordAt, Boundary, DataBlock, Here, Listing, OthersKept, RemoveRecord;
    NothingChanged(vol.Now(), vol.Now(), dir);
    var blk, cur, prev;
    ghost var b;
    r, child, blk, cur, prev, b := DirFind(vol, dir, name);
    if r == 0 {
      IsDirInode(vol.Now(), dir);
      RemoveFound(vol, dir, name, blk, cur, prev, child, b);
    }
  }

  /** The record that was found goes. */
  method RemoveFound(vol: Volume, dir: nat, name: seq<Byte>, blk: nat, cur: nat, prev: int, ghost child: nat, ghost b: nat)
    requires vol.Valid() && IsDir(vol.Now(), dir) && FoundAt(vol.Now(), dir, name, b, cur, prev, child)
    requires InodeOk(vol.inodes[dir]) && blk == DataBlock(vol.disk, vol.inodes[dir], b)
    modifies vol`disk, vol.blkbuf
    ensures vol.Valid() && OthersKept(old(vol.Now()), vol.Now(), dir) && IsDir(vol.Now(), dir)
    ensures RemovedFirst(old(ListOf(vol.Now(), dir)), ListOf(vol.Now(), dir), name, child)
  {
    hide VolOk, DirOk, Entries, Tiles, RecLen, RecIno, RecordAt, Boundary, DataBlock, Here, Listing, OthersKept, RemoveRecord;
    ghost var v := vol.Now();
    RemoveTakesAway(v, dir, name, b, cur, prev, child);
    DirRemove(vol, blk, cur, prev);
    assert vol.Now() == Rewrite(v, dir, b, RemoveRecord(DirBlock(v.disk, v.inodes[dir], b), cur, prev));
  }

  // ---------------------------------------------------------------------------------------------
  // Directories as sets of names
  // ---------------------------------------------------------------------------------------------

  ghost predicate UniqueNames(es: seq<Dirent>) { forall i, j :: 0 <= i < j < |es| ==> es[i].name != es[j].name }

  /** Inserting an absent name adds exactly that entry. */
  lemma InsertedUnique(es: seq<Dirent>, es': seq<Dirent>, e: Dirent)
    requires UniqueNames(es) && NoName(es, e.name) && Inserted(es, es', e)
    ensures UniqueNames(es') && forall x :: x in es' <==> x in es || x == e
  {
    hide UniqueNames, NoName, InsertAt;
    var k :| 0 <= k <= |es| && es' == InsertAt(es, k, e);
    InsertRest(es, k, e);
  }

  lemma InsertRest(es: seq<Dirent>, k: nat, e: Dirent)
    requires UniqueNames(es) && NoName(es, e.name) && k <= |es|
    ensures var es' := InsertAt(es, k, e); UniqueNames(es') && forall x :: x in es' <==> x in es || x == e
  {
    var es' := InsertAt(es, k, e);
    assert forall i :: 0 <= i < |es'| ==> es'[i] == if i < k then es[i] else if i == k then e else es[i - 1];
    forall x | x in es || x == e ensures x in es' {
      if x in es {
        var i :| 0 <= i < |es| && es[i] == x;
        assert es'[if i < k then i else i + 1] == x;
      } else {
        assert es'[k] == x;
      }
    }
  }

  /** Removing a name removes exactly the entry that had it. */
  lemma RemovedUnique(es: seq<Dirent>, es': seq<Dirent>, name: seq<Byte>, child: nat)
    requires UniqueNames(es) && RemovedFirst(es, es', name, child)
    ensures UniqueNames(es') && NoName(es', name) && forall x :: x in es' <==> x in es && x.name != name
    ensures exists x :: x in es && x.name == name && x.ino == child
  {
    var k :| 0 <= k < |es| && es[k].name == name && es[k].ino == child && NoName(es[..k], name) && es' == es[..k] + es[k + 1..];
    assert es[k] in es;
    hide NoName;
    RemovedRest(es, es', k);
  }

  lemma RemovedRest(es: seq<Dirent>, es': seq<Dirent>, k: nat)
    requires UniqueNames(es) && k < |es| && es' == es[..k] + es[k + 1..]
    ensures UniqueNames(es') && NoName(es', es[k].name) && forall x :: x in es' <==> x in es && x.name != es[k].name
  {
    assert forall i :: 0 <= i < |es'| ==> es'[i] == if i < k then es[i] else es[i + 1];
    forall x | x in es && x.name != es[k].name ensures x in es' {
      var i :| 0 <= i < |es| && es[i] == x;
      assert es'[if i < k then i else i - 1] == x;
    }
  }

  /** Inserting an absent name and removing it again restores the directory, order included. */
  lemma InsertThenRemove(es: seq<Dirent>, es': seq<Dirent>, es'': seq<Dirent>, e: Dirent, child: nat)
    requires NoName(es, e.name) && Inserted(es, es', e) && RemovedFirst(es', es'', e.name, child)
    ensures es'' == es && child == e.ino
  {
    var k :| 0 <= k <= |es| && es' == InsertAt(es, k, e);
    var m :| 0 <= m < |es'| && es'[m].name == e.name && es'[m].ino == child && NoName(es'[..m], e.name) && es'' == es'[..m] + es'[m + 1..];
    hide InsertAt;
    InsertedAt(es, k, e);
    OnlyThere(es, k, e, m);
  }

  lemma InsertedAt(es: seq<Dirent>, k: nat, e: Dirent)
    requires k <= |es|
    ensures var es' := InsertAt(es, k, e); es'[k] == e && es'[..k] + es'[k + 1..] == es
  {
    var es' := InsertAt(es, k, e);
    assert es'[..k] == es[..k] && es'[k + 1..] == es[k..];
  }

  lemma OnlyThere(es: seq<Dirent>, k: nat, e: Dirent, m: nat)
    requires k <= |es| && NoName(es, e.name) && m < |InsertAt(es, k, e)|
    requires InsertAt(es, k, e)[m].name == e.name
    ensures m == k
  {
    var es' := InsertAt(es, k, e);
    forall i | 0 <= i < |es'| && i != k ensures es'[i].name != e.name { assert es'[i] == es[if i < k then i else i - 1]; }
  }

  /** A directory other than the one worked on lists the same. */
  lemma OtherDirectory(v: Vol, v': Vol, ino: nat, j: nat)
    requires VolOk(v) && OthersKept(v, v', ino) && IsDir(v, j) && j != ino
    ensures IsDir(v', j) && ListOf(v', j) == ListOf(v, j)
  {
    hide BlockOf, DirOk;
    var n := v.inodes[j];
    OtherOwned(Work(v, ino, n), Work(v', ino, n), j);
    SameDirectory(v, v', j);
  }
}
