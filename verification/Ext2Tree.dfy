/** Whole operations on the directory tree: creating files and directories, and removing them. */
module Ext2Trees {
  import opened Bytes
  import opened Options
  import opened Ext2Layout
  import opened Ext2Files
  import opened Ext2Writes
  import opened Ext2Volumes
  import opened Ext2Records
  import opened Ext2Directories
  import opened Ext2Names
  import opened Dentries
  import Sp = Ext2Space

  const FT_REG: Byte := 1
  const FT_DIR: Byte := 2
  const DOT: seq<Byte> := [46]
  const DOTDOT: seq<Byte> := [46, 46]

  // ---------------------------------------------------------------------------------------------
  // A new directory
  // ---------------------------------------------------------------------------------------------

  function Dots(ino: nat, parent: nat): seq<Dirent> { [Dirent(ino, FT_DIR, DOT), Dirent(parent, FT_DIR, DOTDOT)] }

  /** The block that ext2_mkdir writes: two records of twelve bytes, and the rest free. */
  function DotBlock(ino: nat, parent: nat): (s: seq<Byte>)
    ensures |s| == BLK
  {
    PutRecord(PutRecord(PutRecord(Zeros(), 0, ino, 12, FT_DIR, DOT), 12, parent, 12, FT_DIR, DOTDOT), 24, 0, BLK - 24, 0, [])
  }

  lemma DotBlockOk(ino: nat, parent: nat)
    requires 0 < ino < U32 && 0 < parent < U32
    ensures Tiled(DotBlock(ino, parent)) && Entries(DotBlock(ino, parent), 0, BLK) == Dots(ino, parent)
  {
    hide PutRecord, Filling, Tiles, Entries;
    StartFilling();
    var s1 := PutRecord(Zeros(), 0, ino, 12, FT_DIR, DOT);
    FillNext(Zeros(), 0, [], Dirent(ino, FT_DIR, DOT));
    FillNext(s1, 12, [] + [Dirent(ino, FT_DIR, DOT)], Dirent(parent, FT_DIR, DOTDOT));
    FillRest(PutRecord(s1, 12, parent, 12, FT_DIR, DOTDOT), 24, [] + [Dirent(ino, FT_DIR, DOT)] + [Dirent(parent, FT_DIR, DOTDOT)]);
    assert [] + [Dirent(ino, FT_DIR, DOT)] + [Dirent(parent, FT_DIR, DOTDOT)] == Dots(ino, parent);
  }

  function NewDir(blk: nat): Inode { Inode(Directory, BLK, [blk] + seq(14, _ => 0), 2) }

  function NewFile(): Inode { Inode(Regular, 0, seq(15, _ => 0), 0) }

  /** Such an inode has one block at most, the first. */
  lemma {:induction false} OnlyFirst(d: Disk, n: Inode, r: Role)
    requires InodeOk(n) && (forall j :: 0 < j < 15 ==> n.block[j] == 0) && InFile(r)
    ensures BlockOf(d, n, r) == if r == Data(0) then n.block[0] else 0
    decreases Depth(r)
  {
    match PlaceOf(r)
    case Slot(_) =>
    case Entry(q, _) => OnlyFirst(d, n, q);
  }

  lemma NewDirOk(d: Disk, blk: nat, ino: nat, parent: nat)
    requires blk != 0 && Get(d, blk) == DotBlock(ino, parent) && 0 < ino < U32 && 0 < parent < U32
    ensures DirOk(d, NewDir(blk)) && List(d, NewDir(blk)) == Dots(ino, parent)
  {
    hide BlockOf, DotBlock, Tiles, Entries;
    DotBlockOk(ino, parent);
    var n := NewDir(blk);
    assert NBlocks(n) == 1;
    forall b | 0 <= b ensures DataBlock(d, n, b) == if b == 0 then blk else 0 {
      if b < MAX_DATA { OnlyFirst(d, n, Data(b)); }
    }
    assert DirBlock(d, n, 0) == DotBlock(ino, parent);
    ListAround(d, n, 0);
    assert Listing(d, n, 0, 0) == [] && Listing(d, n, 1, 1) == [];
  }

  /** A new file is empty and its sector count right. That of a new directory is the constant 2: right for blocks of 1024
      bytes and for no others. */
  lemma NewInodes(d: Disk, blk: nat, offset: nat, size: nat, out: seq<Byte>)
    requires blk != 0
    ensures NewFile().blocks == BlockCount(d, NewFile()) * (BLK / 512)
    ensures NewDir(blk).blocks == BlockCount(d, NewDir(blk)) * (BLK / 512) <==> BLK == 1024
    ensures ReadGives(d, NewFile(), offset, size, out) ==> out == []
  {
    var n, z := NewDir(blk).block[..DIRECT], NewFile().block[..DIRECT];
    NonZeroCounts(n);
    NonZeroCounts(z);
    assert Marks(n) == {0} && Marks(z) == {};
    assert |Marks(n)| == 1 && BlockCount(d, NewDir(blk)) == 1;
  }

  lemma FirstOwned(d: Disk, n: Inode, ino: nat, owner: Owners)
    requires InodeOk(n) && (forall j :: 0 < j < 15 ==> n.block[j] == 0)
    requires n.block[0] != 0 ==> n.block[0] in owner && owner[n.block[0]] == (ino, Data(0))
    ensures Owned(d, n, ino, owner)
  {
    hide BlockOf;
    forall r | InFile(r) ensures RoleOwned(d, n, ino, owner, r) { OnlyFirst(d, n, r); }
  }

  // ---------------------------------------------------------------------------------------------
  // A file with one block, or none, comes and goes
  // ---------------------------------------------------------------------------------------------

  /** Inode `ino` is new in `v1`, with block `f` of its own that was free, or with no block. */
  ghost predicate Added(v: Vol, v1: Vol, ino: nat, n: Inode, f: nat) {
    && VolOk(v) && VolOk(v1) && ino !in v.inodes && 0 < ino && v1.inodes == v.inodes[ino := n] && OthersKept(v, v1, ino)
    && (f == 0 ==> v1 == v.(inodes := v1.inodes))
    && (f != 0 ==> JustTaken(v.space, v1.space, f) && f !in v.owner && v1.owner == v.owner[f := (ino, Data(0))]
                   && forall x :: x != f ==> Get(v1.disk, x) == Get(v.disk, x))
  }

  /** What holds for everything but the parent after the name has been entered too. */
  lemma AddedOthers(v: Vol, v1: Vol, v2: Vol, ino: nat, n: Inode, f: nat, parent: nat)
    requires Added(v, v1, ino, n, f) && OthersKept(v1, v2, parent) && parent != ino
    ensures OthersKept(v, v2, parent) && ino in v2.inodes && v2.inodes[ino] == n
  {
    hide VolOk, JustTaken;
    forall x | x in v.owner && v.owner[x].0 != parent ensures x in v2.owner && v2.owner[x] == v.owner[x]
      && Get(v2.disk, x) == Get(v.disk, x) {
      assert x in v1.owner && v1.owner[x] == v.owner[x];
    }
  }

  /** The name could not be entered: inode and block go again, and the volume is as it was. */
  lemma TakenBack(v: Vol, v1: Vol, v2: Vol, v3: Vol, ino: nat, n: Inode, f: nat, parent: nat)
    requires Added(v, v1, ino, n, f) && VolOk(v2) && OthersKept(v1, v2, parent) && parent != ino
    requires v2.inodes == v1.inodes && v2.space == v1.space && SpaceOk(v3) && v3.disk == v2.disk && v3.inodes == v2.inodes - {ino}
    requires f == 0 ==> v3.space == v2.space && v3.owner == v2.owner
    requires f != 0 ==> v3.owner == v2.owner - {f} && v3.space.perGroup == v2.space.perGroup && v3.space.used == v2.space.used[f := false]
    ensures VolOk(v3) && OthersKept(v, v3, parent) && v3.inodes == v.inodes && v3.space == v.space
  {
    hide Sp.Accounted, Sp.FirstBlocksUsed, BlockOf, JustTaken;
    AddedOthers(v, v1, v2, ino, n, f, parent);
    assert v3.inodes == v.inodes;
    if f != 0 {
      SpaceBack(v.space, v1.space, v3.space, f);
      assert v2.owner[f] == (ino, Data(0));
    }
    forall i | i in v3.inodes ensures FileOk(v3, i, v3.inodes[i]) {
      assert FileOk(v2, i, v2.inodes[i]);
      forall r | InFile(r) ensures RoleOwned(v3.disk, v3.inodes[i], i, v3.owner, r) { assert RoleOwned(v2.disk, v2.inodes[i], i, v2.owner, r); }
    }
  }

  lemma SpaceBack(s: Sp.Space, s1: Sp.Space, s3: Sp.Space, f: nat)
    requires JustTaken(s, s1, f) && Sp.Accounted(s) && Sp.Accounted(s3) && s3.perGroup == s1.perGroup && s3.used == s1.used[f := false]
    ensures s3 == s
  {
    hide Sp.Accounted, Sp.FirstBlocksUsed;
    assert s3.used == s.used;
    Sp.CountersDetermined(s3, s);
  }

  /** The block of a new directory, written and given to its inode. */
  method AddDirectory(vol: Volume, ino: nat, parent: nat) returns (f: nat)
    requires vol.Valid() && 0 < ino < U32 && ino !in vol.inodes && parent < U32
    modifies vol, vol.blkbuf
    ensures f == 0 ==> vol.Now() == old(vol.Now()) && Sp.Full(vol.space)
    ensures f != 0 ==> vol.Valid() && Added(old(vol.Now()), vol.Now(), ino, NewDir(f), f) && Get(vol.disk, f) == DotBlock(ino, parent)
  {
    hide VolOk, BlockOf, Sp.Full, PutRecord;
    ghost var v := vol.Now();
    SoundSpace(v);
    f := vol.TakeBlock();
    if f == 0 { return; }
    vol.ClearBuffer(vol.blkbuf);
    PutRecordIn(vol.blkbuf, 0, ino, 12, FT_DIR, DOT);
    PutRecordIn(vol.blkbuf, 12, parent, 12, FT_DIR, DOTDOT);
    PutRecordIn(vol.blkbuf, 24, 0, BLK - 24, 0, []);
    vol.WriteBlock(f, vol.blkbuf);
    vol.WriteInode(ino, NewDir(f));
    vol.owner := vol.owner[f := (ino, Data(0))];
    BlockGiven(v, vol.Now(), ino, f);
  }

  lemma SoundSpace(v: Vol)
    requires VolOk(v)
    ensures SpaceOk(v)
  {
  }

  lemma BlockGiven(v: Vol, v1: Vol, ino: nat, f: nat)
    requires VolOk(v) && 0 < ino && ino !in v.inodes && JustTaken(v.space, v1.space, f)
    requires v1.inodes == v.inodes[ino := NewDir(f)] && v1.owner == v.owner[f := (ino, Data(0))]
    requires forall x :: x != f ==> Get(v1.disk, x) == Get(v.disk, x)
    ensures Added(v, v1, ino, NewDir(f), f)
  {
    hide Sp.Accounted, Sp.FirstBlocksUsed, BlockOf, Owned;
    forall b | b in v.owner ensures b != f { assert BlockInUse(v.space, b); }
    forall b | b in v1.owner ensures BlockInUse(v1.space, b) { if b != f { assert BlockInUse(v.space, b); } }
    FirstOwned(v1.disk, NewDir(f), ino, v1.owner);
    FileAdded(v, v1, ino, NewDir(f));
  }

  // ---------------------------------------------------------------------------------------------
  // Creating
  // ---------------------------------------------------------------------------------------------

  /** ext2_mkdir; `slot` is what the allocation of an inode gave. `mid` is the volume with the directory in
      it, but not yet its name. */
  method Mkdir(c: NameCache, parent: nat, name: seq<Byte>, slot: Option<nat>) returns (r: int, ghost mid: Vol)
    requires c.Valid() && (parent == 0 || parent in c.vol.inodes) && parent < U32
    requires slot.Some? ==> 0 < slot.value < U32 && slot.value !in c.vol.inodes && slot.value != parent
    modifies c.slots, c.vol, c.vol.blkbuf, c.vol.indbuf
    ensures c.Valid() && OthersKept(old(c.vol.Now()), c.vol.Now(), parent)
    ensures r == -1 || (slot.Some? && r == slot.value)
    ensures r != -1 ==> IsDir(c.vol.Now(), r) && ListOf(c.vol.Now(), r) == Dots(r, parent)
    ensures r != -1 ==> && old(IsDir(c.vol.Now(), parent)) && IsDir(c.vol.Now(), parent)
                        && Inserted(old(ListOf(c.vol.Now(), parent)), ListOf(c.vol.Now(), parent), Dirent(r, FT_DIR, name))
    ensures r == -1 ==> c.vol.inodes == old(c.vol.inodes) && c.vol.space == old(c.vol.space)
    ensures r == -1 && old(IsDir(c.vol.Now(), parent))
            ==> IsDir(c.vol.Now(), parent) && ListOf(c.vol.Now(), parent) == old(ListOf(c.vol.Now(), parent))
    ensures r == -1 && slot.Some? && 0 < |name| <= MAX_NAME && parent != 0 && old(IsDir(c.vol.Now(), parent)) ==>
              || Sp.Full(old(c.vol.space))
              || (&& (exists f: nat :: Added(old(c.vol.Now()), mid, slot.value, NewDir(f), f))
                  && IsDir(mid, parent) && NoRoom(mid, parent, Needed(|name|)))
  {
    hide VolOk, DirOk, OthersKept, Listing, Inserted, NoRoom, Sp.Full, PlainLookup, DotBlock, Added, Sp.Accounted, Sp.FirstBlocksUsed;
    ghost var v := c.vol.Now();
    NothingChanged(v, v, parent);
    mid := v;
    if name == [] {
      return -1, mid;
    }
    c.Flush();
    if slot.None? {
      return -1, mid;
    }
    var ino := slot.value;
    var f := AddDirectory(c.vol, ino, parent);
    if f == 0 {
      return -1, mid;
    }
    ghost var v1 := c.vol.Now();
    mid := v1;
    AddedParent(v, v1, ino, NewDir(f), f, parent);
    r := DirInsert(c.vol, parent, Dirent(ino, FT_DIR, name));
    if r == 0 {
      r := ino;
      NewDirOk(v1.disk, f, ino, parent);
      Named(v, v1, c.vol.Now(), ino, NewDir(f), f, parent);
      ListedDir(v1, ino, NewDir(f));
      OtherDirectory(v1, c.vol.Now(), parent, ino);
    } else {
      ghost var v2 := c.vol.Now();
      BlockStillThere(v, v1, v2, ino, NewDir(f), f, parent);
      c.vol.ReleaseBlock(f);
      c.vol.inodes := c.vol.inodes - {ino};
      TakenBack(v, v1, v2, c.vol.Now(), ino, NewDir(f), f, parent);
      Unnamed(v, v1, v2, c.vol.Now(), parent);
    }
  }

  /** The parent is the same directory with the new inode beside it. */
  lemma AddedParent(v: Vol, v1: Vol, ino: nat, n: Inode, f: nat, parent: nat)
    requires Added(v, v1, ino, n, f) && DirsOk(v) && parent != ino && (parent == 0 || parent in v.inodes)
    ensures VolOk(v1) && (parent == 0 || parent in v1.inodes) && ino in v1.inodes && v1.inodes[ino] == n
    ensures parent in v.inodes ==> parent in v1.inodes && v1.inodes[parent] == v.inodes[parent]
    ensures IsDir(v, parent) <==> IsDir(v1, parent)
    ensures IsDir(v, parent) ==> ListOf(v1, parent) == ListOf(v, parent)
    ensures parent in v1.inodes && v1.inodes[parent].ftype == Directory ==> DirOk(v1.disk, v1.inodes[parent])
  {
    hide VolOk, DirOk, OthersKept, Listing, JustTaken;
    DirsOkAt(v, parent);
    if IsDir(v, parent) { OtherDirectory(v, v1, ino, parent); }
  }

  lemma Named(v: Vol, v1: Vol, v2: Vol, ino: nat, n: Inode, f: nat, parent: nat)
    requires Added(v, v1, ino, n, f) && OthersKept(v1, v2, parent) && parent != ino && DirsOk(v)
    requires n.ftype == Directory ==> DirOk(v1.disk, n)
    requires v2.inodes.Keys == v1.inodes.Keys && IsDir(v1, parent) && IsDir(v2, parent)
    ensures OthersKept(v, v2, parent) && DirsOk(v2)
  {
    hide VolOk, DirOk, OthersKept, JustTaken;
    AddedOthers(v, v1, v2, ino, n, f, parent);
    DirsStay(v, v1, ino, n);
    DirsStayOk(v1, v2, parent);
  }

  lemma BlockStillThere(v: Vol, v1: Vol, v2: Vol, ino: nat, n: Inode, f: nat, parent: nat)
    requires Added(v, v1, ino, n, f) && f != 0 && OthersKept(v1, v2, parent) && parent != ino && VolOk(v2)
    ensures f in v2.owner && SpaceOk(v2)
  {
    hide JustTaken;
    assert v1.owner[f] == (ino, Data(0));
  }

  lemma Unnamed(v: Vol, v1: Vol, v2: Vol, v3: Vol, parent: nat)
    requires VolOk(v) && DirsOk(v) && OthersKept(v, v3, parent) && v3.inodes == v.inodes && v3.disk == v2.disk
    requires parent in v.inodes ==> parent in v2.inodes && v2.inodes[parent] == v.inodes[parent]
    requires IsDir(v, parent) ==> IsDir(v1, parent) && ListOf(v1, parent) == ListOf(v, parent)
    requires IsDir(v1, parent) ==> IsDir(v2, parent) && ListOf(v2, parent) == ListOf(v1, parent)
    ensures DirsOk(v3)
    ensures IsDir(v, parent) ==> IsDir(v3, parent) && ListOf(v3, parent) == ListOf(v, parent)
  {
    hide VolOk, DirOk, OthersKept, Listing;
    DirsStayOk(v, v3, parent);
  }

  /** ext2_create_file; `slot` is what the allocation of an inode gave. */
  method CreateFile(c: NameCache, parent: nat, name: seq<Byte>, slot: Option<nat>) returns (r: int)
    requires c.Valid() && (parent == 0 || parent in c.vol.inodes)
    requires slot.Some? ==> 0 < slot.value < U32 && slot.value !in c.vol.inodes && slot.value != parent
    modifies c.slots, c.vol, c.vol.blkbuf, c.vol.indbuf
    ensures c.Valid() && OthersKept(old(c.vol.Now()), c.vol.Now(), parent)
    ensures r == -1 || (slot.Some? && r == slot.value)
    ensures r != -1 ==> r in c.vol.inodes && c.vol.inodes[r] == NewFile()
    ensures r != -1 ==> && old(IsDir(c.vol.Now(), parent)) && IsDir(c.vol.Now(), parent)
                        && Inserted(old(ListOf(c.vol.Now(), parent)), ListOf(c.vol.Now(), parent), Dirent(r, FT_REG, name))
    ensures r == -1 ==> c.vol.inodes == old(c.vol.inodes) && c.vol.space == old(c.vol.space)
    ensures r == -1 && old(IsDir(c.vol.Now(), parent))
            ==> IsDir(c.vol.Now(), parent) && ListOf(c.vol.Now(), parent) == old(ListOf(c.vol.Now(), parent))
    ensures r == -1 && slot.Some? && 0 < |name| <= MAX_NAME && parent != 0 && old(IsDir(c.vol.Now(), parent)) ==>
              old(NoRoom(c.vol.Now(), parent, Needed(|name|)))
  {
    hide VolOk, DirOk, OthersKept, Listing, Inserted, PlainLookup, Added, Sp.Accounted, Sp.FirstBlocksUsed, BlockFull, CannotGrow, DirBlock;
    ghost var v := c.vol.Now();
    NothingChanged(v, v, parent);
    if name == [] {
      return -1;
    }
    c.Flush();
    if slot.None? {
      return -1;
    }
    var ino := slot.value;
    c.vol.WriteInode(ino, NewFile());
    ghost var v1 := c.vol.Now();
    EmptyFileAdded(v, v1, ino);
    AddedParent(v, v1, ino, NewFile(), 0, parent);
    r := DirInsert(c.vol, parent, Dirent(ino, FT_REG, name));
    if r == 0 {
      r := ino;
      Named(v, v1, c.vol.Now(), ino, NewFile(), 0, parent);
      AddedOthers(v, v1, c.vol.Now(), ino, NewFile(), 0, parent);
    } else {
      ghost var v2 := c.vol.Now();
      SoundSpace(v2);
      c.vol.inodes := c.vol.inodes - {ino};
      TakenBack(v, v1, v2, c.vol.Now(), ino, NewFile(), 0, parent);
      Unnamed(v, v1, v2, c.vol.Now(), parent);
    }
  }

  lemma EmptyFileAdded(v: Vol, v1: Vol, ino: nat)
    requires VolOk(v) && 0 < ino && ino !in v.inodes && v1 == v.(inodes := v.inodes[ino := NewFile()])
    ensures Added(v, v1, ino, NewFile(), 0)
  {
    hide Sp.Accounted, Sp.FirstBlocksUsed, BlockOf, Owned;
    FirstOwned(v1.disk, NewFile(), ino, v1.owner);
    FileAdded(v, v1, ino, NewFile());
  }

  // ---------------------------------------------------------------------------------------------
  // Removing
  // ---------------------------------------------------------------------------------------------

  predicate IsDot(name: seq<Byte>) { name == DOT || name == DOTDOT }

  ghost predicate OnlyDots(es: seq<Dirent>) { forall k :: 0 <= k < |es| ==> IsDot(es[k].name) }

  /** The emptiness check of ext2_rmdir in one block. */
  method DotsInBlock(buf: array<Byte>) returns (ok: bool)
    requires Tiled(buf[..])
    ensures ok <==> OnlyDots(Entries(buf[..], 0, BLK))
  {
    hide Tiles, Entries, Boundary, Rd16, Rd32;
    ghost var s := buf[..];
    var p := 0;
    StartBoundary(s);
    BoundaryTiles(s, 0);
    NoneBefore(s);
    while p + 8 <= BLK
      invariant 0 <= p <= BLK && Boundary(s, p) && Tiles(s, 0, p) && OnlyDots(Entries(s, 0, p))
      decreases BLK - p
    {
      NextBoundary(s, p);
      RecordFits(s, p);
      BoundaryTiles(s, p);
      BoundaryTiles(s, p + RecLen(s, p));
      ghost var e := Here(s, p);
      var ino, len, nlen := RecIno(buf[..], p), RecLen(buf[..], p), buf[p + 6] as int;
      if ino != 0 {
        var name := buf[p + 8..p + 8 + nlen];
        assert s[p + 8..p + 8 + nlen] == name && e[0].name == name;
        if !((nlen == 1 && name[0] == 46) || (nlen == 2 && name[0] == 46 && name[1] == 46)) {
          Join(s, 0, p, BLK);
          assert Entries(s, 0, BLK)[|Entries(s, 0, p)|] == e[0];
          assert !IsDot(e[0].name) && buf[..] == s;
          return false;
        }
      }
      p := p + len;
    }
    AtEnd(s, p);
    return true;
  }

  /** The emptiness check of ext2_rmdir: nothing but "." and "..". */
  method HasOnlyDots(vol: Volume, dir: nat) returns (ok: bool)
    requires vol.Valid() && IsDir(vol.Now(), dir)
    modifies vol.blkbuf, vol.indbuf
    ensures ok <==> OnlyDots(ListOf(vol.Now(), dir))
  {
    hide VolOk, DirOk, Entries, Tiles, DataBlock;
    ghost var v := vol.Now();
    var n := vol.inodes[dir];
    IsDirInode(v, dir);
    for b := 0 to NBlocks(n)
      invariant OnlyDots(Listing(v.disk, n, 0, b))
    {
      TiledBlock(v.disk, n, b);
      var blk := vol.FindDataBlock(n, b);
      if blk != 0 {
        vol.ReadBlock(blk, vol.blkbuf);
        assert vol.blkbuf[..] == DirBlock(v.disk, n, b);
        ok := DotsInBlock(vol.blkbuf);
        if !ok {
          ListAround(v.disk, n, b);
          PartNotDots(Listing(v.disk, n, 0, b), Entries(DirBlock(v.disk, n, b), 0, BLK), Listing(v.disk, n, b + 1, NBlocks(n)));
          return false;
        }
      }
    }
    return true;
  }

  lemma PartNotDots(a: seq<Dirent>, b: seq<Dirent>, c: seq<Dirent>)
    requires !OnlyDots(b)
    ensures !OnlyDots(a + b + c)
  {
    var k :| 0 <= k < |b| && !IsDot(b[k].name);
    assert (a + b + c)[|a| + k] == b[k];
  }

  /** File `ino` is gone with its blocks, and nothing else is touched. */
  ghost predicate Gone(v: Vol, v': Vol, ino: nat) {
    && ino in v.inodes && InodeOk(v.inodes[ino]) && v'.inodes == v.inodes - {ino} && v'.disk == v.disk && OthersKept(v, v', ino)
    && v'.space.perGroup == v.space.perGroup && |v'.space.used| == |v.space.used|
    && forall x :: 0 <= x < |v.space.used| ==> v'.space.used[x] == (v.space.used[x] && !Held(v, ino, x))
  }

  /** The end of ext2_unlink and ext2_rmdir: the blocks and the inode are given back. */
  method FreeInode(vol: Volume, ino: nat)
    requires vol.Valid() && DirsOk(vol.Now()) && ino != 0 && ino in vol.inodes && NoDouble(vol.inodes[ino])
    modifies vol, vol.blkbuf, vol.indbuf
    ensures vol.Valid() && DirsOk(vol.Now()) && Gone(old(vol.Now()), vol.Now(), ino)
  {
    hide VolOk, DirOk, BlockOf;
    ghost var v := vol.Now();
    var r := vol.Truncate(ino);
    TruncatedOthers(v, vol.Now(), ino);
    TruncatedDirs(v, vol.Now(), ino);
    InodeDropped(vol.Now(), ino);
    vol.inodes := vol.inodes - {ino};
  }

  lemma InodeDropped(v: Vol, ino: nat)
    requires VolOk(v) && DirsOk(v)
    ensures var v' := v.(inodes := v.inodes - {ino}); VolOk(v') && DirsOk(v')
  {
    hide SpaceOk, DirOk, Owned;
    var v' := v.(inodes := v.inodes - {ino});
    assert SpaceOk(v') by { SpaceElsewhere(v, v'); }
    forall i | i in v'.inodes ensures FileOk(v', i, v'.inodes[i]) { assert FileOk(v, i, v.inodes[i]); }
  }

  lemma SpaceElsewhere(v: Vol, v': Vol)
    requires SpaceOk(v) && v'.space == v.space && v'.owner == v.owner
    ensures SpaceOk(v')
  {
  }

  /** Every entry of a directory names a file that exists. */
  ghost predicate ChildrenExist(v: Vol, dir: nat) {
    IsDir(v, dir) ==> forall k :: 0 <= k < |ListOf(v, dir)| ==> ListOf(v, dir)[k].ino in v.inodes && ListOf(v, dir)[k].ino != 0
  }

  /** The first entry with this name leads to `child`. */
  ghost predicate Leads(es: seq<Dirent>, name: seq<Byte>, child: nat) {
    exists k :: 0 <= k < |es| && es[k].name == name && es[k].ino == child && NoName(es[..k], name)
  }

  lemma FoundLeads(v: Vol, dir: nat, name: seq<Byte>, b: nat, cur: nat, prev: int, child: nat)
    requires VolOk(v) && IsDir(v, dir) && FoundAt(v, dir, name, b, cur, prev, child)
    ensures Leads(ListOf(v, dir), name, child)
  {
    hide VolOk, DirOk, Listing, OthersKept, Entries, Tiles, Boundary, RemovedFirst, Rewrite, RemoveRecord, RecordAt, Here, Leads, DataBlock;
    IsDirInode(v, dir);
    RemoveTakesAway(v, dir, name, b, cur, prev, child);
    var v' := Rewrite(v, dir, b, RemoveRecord(DirBlock(v.disk, v.inodes[dir], b), cur, prev));
    RemovedLeads(ListOf(v, dir), ListOf(v', dir), name, child);
  }

  lemma RemovedLeads(es: seq<Dirent>, es': seq<Dirent>, name: seq<Byte>, child: nat)
    requires RemovedFirst(es, es', name, child)
    ensures Leads(es, name, child)
  {
  }

  /** ext2_unlink; `last` says whether the link count goes down to zero. A name of a directory is refused. */
  method Unlink(c: NameCache, parent: nat, name: seq<Byte>, last: bool) returns (r: int, child: nat, ghost mid: Vol)
    requires c.Valid() && (parent == 0 || parent in c.vol.inodes) && ChildrenExist(c.vol.Now(), parent)
    requires last && IsDir(c.vol.Now(), parent) ==>
               forall i :: i in c.vol.inodes && Leads(ListOf(c.vol.Now(), parent), name, i) && Readable(c.vol.inodes[i]) ==>
                 NoDouble(c.vol.inodes[i])
    modifies c.slots, c.vol, c.vol.blkbuf, c.vol.indbuf
    ensures c.Valid() && (r == 0 || r == -1)
    ensures r == 0 ==> && old(IsDir(c.vol.Now(), parent)) && child in old(c.vol.inodes) && Readable(old(c.vol.inodes)[child])
                       && VolOk(mid) && OthersKept(old(c.vol.Now()), mid, parent) && mid.inodes == old(c.vol.inodes)
                          && mid.space == old(c.vol.space)
                       && if last then Gone(mid, c.vol.Now(), child) else c.vol.Now() == mid
    ensures r == 0 ==> IsDir(c.vol.Now(), parent) && RemovedFirst(old(ListOf(c.vol.Now(), parent)), ListOf(c.vol.Now(), parent), name, child)
    ensures r == -1 ==> c.vol.Now() == old(c.vol.Now())
    ensures r == -1 && parent != 0 && 0 < |name| <= MAX_NAME && IsDir(c.vol.Now(), parent) ==>
              || NoName(ListOf(c.vol.Now(), parent), name)
              || (Leads(ListOf(c.vol.Now(), parent), name, child) && child in c.vol.inodes && !Readable(c.vol.inodes[child]))
  {
    hide VolOk, DirOk, OthersKept, Listing, PlainLookup, FoundAt, RemovedFirst, Leads, DataBlock, NoDouble, Gone;
    ghost var v := c.vol.Now();
    mid := v;
    if name == [] {
      return -1, 0, mid;
    }
    c.Flush();
    DirsOkAt(v, parent);
    var blk, cur, prev;
    ghost var b;
    r, child, blk, cur, prev, b := DirFind(c.vol, parent, name);
    if r == -1 {
      return -1, 0, mid;
    }
    FoundLeads(v, parent, name, b, cur, prev, child);
    ChildIs(v, parent, name, child);
    IsDirInode(v, parent);
    if !Readable(c.vol.inodes[child]) {
      return -1, child, mid;
    }
    RemoveFound(c.vol, parent, name, blk, cur, prev, child, b);
    mid := c.vol.Now();
    DirsStayOk(v, mid, parent);
    if last {
      FreeInode(c.vol, child);
      ParentKept(mid, c.vol.Now(), child, parent);
    }
  }

  lemma ChildIs(v: Vol, parent: nat, name: seq<Byte>, child: nat)
    requires IsDir(v, parent) && ChildrenExist(v, parent) && Leads(ListOf(v, parent), name, child)
    ensures child in v.inodes && child != 0
  {
  }

  lemma ParentKept(mid: Vol, v': Vol, child: nat, parent: nat)
    requires VolOk(mid) && Gone(mid, v', child) && IsDir(mid, parent) && parent != child
    ensures IsDir(v', parent) && ListOf(v', parent) == ListOf(mid, parent)
  {
    hide VolOk, DirOk, OthersKept, Listing;
    OtherDirectory(mid, v', child, parent);
  }

  /** ext2_rmdir: only a directory, and only one with nothing in it but "." and "..". */
  method Rmdir(c: NameCache, parent: nat, name: seq<Byte>) returns (r: int, child: nat, ghost mid: Vol)
    requires c.Valid() && (parent == 0 || parent in c.vol.inodes) && ChildrenExist(c.vol.Now(), parent)
    requires forall i :: i in c.vol.inodes && IsDir(c.vol.Now(), parent) && Leads(ListOf(c.vol.Now(), parent), name, i) && IsDir(c.vol.Now(), i) ==>
               NoDouble(c.vol.inodes[i])
    modifies c.slots, c.vol, c.vol.blkbuf, c.vol.indbuf
    ensures c.Valid() && (r == 0 || r == -1 || r == -2)
    ensures r == 0 ==> && old(IsDir(c.vol.Now(), parent)) && old(IsDir(c.vol.Now(), child)) && OnlyDots(old(ListOf(c.vol.Now(), child)))
                       && VolOk(mid) && OthersKept(old(c.vol.Now()), mid, parent) && mid.inodes == old(c.vol.inodes)
                          && mid.space == old(c.vol.space)
                       && Gone(mid, c.vol.Now(), child)
    ensures r == 0 && child != parent ==>
              IsDir(c.vol.Now(), parent) && RemovedFirst(old(ListOf(c.vol.Now(), parent)), ListOf(c.vol.Now(), parent), name, child)
    ensures r != 0 ==> c.vol.Now() == old(c.vol.Now())
    ensures r == -2 ==> && IsDir(c.vol.Now(), parent) && Leads(ListOf(c.vol.Now(), parent), name, child)
                        && IsDir(c.vol.Now(), child) && !OnlyDots(ListOf(c.vol.Now(), child))
    ensures r == -1 && parent != 0 && 0 < |name| <= MAX_NAME && IsDir(c.vol.Now(), parent) ==>
              NoName(ListOf(c.vol.Now(), parent), name) || (Leads(ListOf(c.vol.Now(), parent), name, child) && !IsDir(c.vol.Now(), child))
  {
    hide VolOk, DirOk, OthersKept, Listing, PlainLookup, FoundAt, RemovedFirst, Leads, DataBlock, NoDouble, Gone, OnlyDots;
    ghost var v := c.vol.Now();
    mid := v;
    if name == [] {
      return -1, 0, mid;
    }
    c.Flush();
    DirsOkAt(v, parent);
    var blk, cur, prev;
    ghost var b;
    r, child, blk, cur, prev, b := DirFind(c.vol, parent, name);
    if r == -1 {
      return -1, 0, mid;
    }
    FoundLeads(v, parent, name, b, cur, prev, child);
    ChildIs(v, parent, name, child);
    IsDirInode(v, parent);
    if c.vol.inodes[child].ftype != Directory {
      return -1, child, mid;
    }
    DirsOkAt(v, child);
    var empty := HasOnlyDots(c.vol, child);
    if !empty {
      return -2, child, mid;
    }
    RemoveFound(c.vol, parent, name, blk, cur, prev, child, b);
    mid := c.vol.Now();
    DirsStayOk(v, mid, parent);
    FreeInode(c.vol, child);
    if child != parent { ParentKept(mid, c.vol.Now(), child, parent); }
  }
}
