/** A whole image: files and directories are added one after the other, the metadata is written around them, and
    the driver reads the result. */
module MkfsImages {
  import opened Bytes
  import opened Ext2Layout
  import opened Ext2Files
  import opened Ext2Writes
  import opened Ext2Volumes
  import opened Ext2Records
  import opened Ext2Directories
  import opened Ext2Names
  import opened Dentries
  import opened Mkfs
  import opened MkfsCounts
  import opened MkfsFlushes
  import opened MkfsMounts
  import Sp = Ext2Space

  // ---------------------------------------------------------------------------------------------
  // The blocks of a new file belong to it
  // ---------------------------------------------------------------------------------------------

  /** The number of the block in role `r`, 0 if there is none. */
  function Number(n: Inode, blocks: seq<nat>, tables: seq<nat>, r: Role): nat
    requires InodeOk(n)
  {
    match r
    case Data(k) => if k < |blocks| then blocks[k] else 0
    case Single => n.block[12]
    case Double => n.block[13]
    case Level1(k) => if n.block[13] != 0 && k < |tables| then tables[k] else 0
  }

  lemma LaidOutInode(d: Disk, n: Inode, blocks: seq<nat>, tables: seq<nat>)
    requires LaidOut(d, n, blocks, tables)
    ensures InodeOk(n)
  {
  }

  lemma NumberIs(d: Disk, n: Inode, blocks: seq<nat>, tables: seq<nat>, r: Role)
    requires LaidOut(d, n, blocks, tables) && InFile(r)
    ensures BlockOf(d, n, r) == Number(n, blocks, tables, r)
  {
    hide TableOf, Groups, Follow;
    match r
    case Data(k) => LaidOutAt(d, n, blocks, tables, k);
    case Single =>
    case Double =>
    case Level1(k) =>
      EmptyFollow(d, k, k);
      if |blocks| > DIRECT + PER {
        TablesNumbers(d, tables, blocks[DIRECT + PER..]);
        FollowTable(d, n.block[13], tables, k);
      }
  }

  /** No block has two roles. */
  lemma NumbersDiffer(used: seq<bool>, used': seq<bool>, n: Inode, blocks: seq<nat>, tables: seq<nat>, r: Role, q: Role)
    requires InodeOk(n) && AllNew(used, used', n, blocks, tables) && Number(n, blocks, tables, r) == Number(n, blocks, tables, q) != 0
    ensures r == q
  {
  }

  lemma NumberTaken(used: seq<bool>, used': seq<bool>, n: Inode, blocks: seq<nat>, tables: seq<nat>, r: Role)
    requires InodeOk(n) && AllNew(used, used', n, blocks, tables) && Number(n, blocks, tables, r) != 0
    ensures Took(used, used', Number(n, blocks, tables, r))
  {
  }

  ghost predicate HasRole(n: Inode, blocks: seq<nat>, tables: seq<nat>, b: nat)
    requires InodeOk(n)
  {
    exists r :: InFile(r) && Number(n, blocks, tables, r) == b
  }

  ghost function RoleOf(n: Inode, blocks: seq<nat>, tables: seq<nat>, b: nat): (r: Role)
    requires InodeOk(n) && HasRole(n, blocks, tables, b)
    ensures InFile(r) && Number(n, blocks, tables, r) == b
  {
    var r :| InFile(r) && Number(n, blocks, tables, r) == b;
    r
  }

  /** The owners with the blocks of a new file. */
  ghost function WithFile(owner: Owners, size: nat, ino: nat, n: Inode, blocks: seq<nat>, tables: seq<nat>): Owners
    requires InodeOk(n)
  {
    owner + map b | 0 < b < size && HasRole(n, blocks, tables, b) :: (ino, RoleOf(n, blocks, tables, b))
  }

  lemma NewFileOwned(d: Disk, n: Inode, blocks: seq<nat>, tables: seq<nat>, used: seq<bool>, used': seq<bool>, owner: Owners, ino: nat)
    requires LaidOut(d, n, blocks, tables) && AllNew(used, used', n, blocks, tables)
    ensures Owned(d, n, ino, WithFile(owner, |used|, ino, n, blocks, tables))
  {
    hide LaidOut, AllNew, BlockOf, Number;
    LaidOutInode(d, n, blocks, tables);
    forall r | InFile(r) ensures RoleOwned(d, n, ino, WithFile(owner, |used|, ino, n, blocks, tables), r) {
      NumberIs(d, n, blocks, tables, r);
      var b := Number(n, blocks, tables, r);
      if b != 0 {
        NumberTaken(used, used', n, blocks, tables, r);
        assert HasRole(n, blocks, tables, b);
        NumbersDiffer(used, used', n, blocks, tables, r, RoleOf(n, blocks, tables, b));
      }
    }
  }

  /** Blocks that the file adds to the owners were free before. */
  lemma AddedWereFree(n: Inode, blocks: seq<nat>, tables: seq<nat>, used: seq<bool>, used': seq<bool>, owner: Owners, ino: nat, b: nat)
    requires InodeOk(n) && AllNew(used, used', n, blocks, tables)
    requires b in WithFile(owner, |used|, ino, n, blocks, tables)
    ensures b in owner || Took(used, used', b)
    ensures b in owner && b < |used| && used[b] ==> WithFile(owner, |used|, ino, n, blocks, tables)[b] == owner[b]
  {
    hide AllNew, Number;
    if 0 < b < |used| && HasRole(n, blocks, tables, b) {
      NumberTaken(used, used', n, blocks, tables, RoleOf(n, blocks, tables, b));
    }
  }

  // ---------------------------------------------------------------------------------------------
  // The accounts of a bitmap
  // ---------------------------------------------------------------------------------------------

  ghost function Bare(used: seq<bool>, perGroup: nat): Sp.Space
    requires 0 < perGroup
  {
    Sp.Space(perGroup, used, seq((|used| + perGroup - 1) / perGroup, _ => 0), 0)
  }

  /** The bitmap with the counters that belong to it. */
  ghost function Counted(used: seq<bool>, perGroup: nat): (s: Sp.Space)
    requires 0 < perGroup <= 0x8000 && 0 < |used| <= 0x8000_0000
    ensures s.used == used && s.perGroup == perGroup && Sp.Shape(s)
  {
    var bare := Bare(used, perGroup);
    var free := seq(|bare.free|, g requires 0 <= g < |bare.free| => Sp.ClearIn(bare, g));
    Sp.Space(perGroup, used, free, Sp.Sum(free))
  }

  lemma CountedOk(used: seq<bool>, perGroup: nat)
    requires 0 < perGroup <= 0x8000 && 0 < |used| <= 0x8000_0000
    ensures Sp.Accounted(Counted(used, perGroup))
  {
    hide Sp.ClearIn;
    var s := Counted(used, perGroup);
    forall g | 0 <= g < |s.free| ensures s.free[g] == Sp.ClearIn(s, g) {
      Sp.SameClear(Bare(used, perGroup), s, g);
    }
  }

  /** Taking blocks keeps the first block of every group in use. */
  lemma FirstBlocksStay(used: seq<bool>, used': seq<bool>, perGroup: nat)
    requires 0 < perGroup <= 0x8000 && 0 < |used| <= 0x8000_0000 && |used'| == |used| && Sp.FirstBlocksUsed(Counted(used, perGroup))
    requires forall x :: 0 <= x < |used| && used[x] ==> used'[x]
    ensures Sp.FirstBlocksUsed(Counted(used', perGroup))
  {
    var s, s' := Counted(used, perGroup), Counted(used', perGroup);
    hide Counted, Sp.FirstUsed, Sp.Shape;
    assert |s.free| == |s'.free| by { GroupsCounted(used, used', perGroup); }
    forall g | 0 <= g < |s'.free| ensures Sp.FirstUsed(s', g) {
      assert Sp.FirstUsed(s, g);
      FirstStays(s, s', g);
    }
  }

  lemma GroupsCounted(used: seq<bool>, used': seq<bool>, perGroup: nat)
    requires 0 < perGroup <= 0x8000 && 0 < |used| <= 0x8000_0000 && |used'| == |used|
    ensures |Counted(used, perGroup).free| == |Counted(used', perGroup).free|
  {
  }

  lemma FirstStays(s: Sp.Space, s': Sp.Space, g: nat)
    requires Sp.Shape(s) && Sp.Shape(s') && s.perGroup == s'.perGroup && |s.used| == |s'.used| && g < |s.free| == |s'.free|
    requires Sp.FirstUsed(s, g) && forall x :: 0 <= x < |s.used| && s.used[x] ==> s'.used[x]
    ensures Sp.FirstUsed(s', g)
  {
    Sp.GroupBounds(s, g);
    hide Sp.Shape;
    var x := Sp.Lo(s, g);
    assert x == Sp.Lo(s', g) && s.used[x];
  }

  // ---------------------------------------------------------------------------------------------
  // Adding a file to a volume
  // ---------------------------------------------------------------------------------------------

  /** The state of the builder as a volume. */
  ghost function View(img: Disk, used: seq<bool>, inodes: map<nat, Inode>, owner: Owners, perGroup: nat): Vol
    requires 0 < perGroup <= 0x8000 && 0 < |used| <= 0x8000_0000
  {
    Vol(img, inodes, Counted(used, perGroup), owner)
  }

  /** All that writing a new file does to the volume. */
  lemma NewFileAdded(img: Disk, used: seq<bool>, inodes: map<nat, Inode>, owner: Owners, perGroup: nat, img': Disk, used': seq<bool>,
                     ino: nat, n: Inode, blocks: seq<nat>, tables: seq<nat>)
    requires 0 < perGroup <= 0x8000 && 0 < |used| <= 0x8000_0000 && VolOk(View(img, used, inodes, owner, perGroup))
    requires Keeps(img, used, img', used') && ino !in inodes && 0 < ino
    requires LaidOut(img', n, blocks, tables) && AllNew(used, used', n, blocks, tables)
    ensures var v, owner' := View(img, used, inodes, owner, perGroup), WithFile(owner, |used|, ino, n, blocks, tables);
            var v' := View(img', used', inodes[ino := n], owner', perGroup);
            VolOk(v') && OthersKept(v, v', ino)
  {
    hide LaidOut, AllNew, Counted, WithFile, BlockOf, Sp.Accounted, Sp.FirstBlocksUsed, Owned;
    LaidOutInode(img', n, blocks, tables);
    var owner' := WithFile(owner, |used|, ino, n, blocks, tables);
    var v, v' := View(img, used, inodes, owner, perGroup), View(img', used', inodes[ino := n], owner', perGroup);
    NewFileOwned(img', n, blocks, tables, used, used', owner, ino);
    CountedOk(used', perGroup);
    FirstBlocksStay(used, used', perGroup);
    forall b | b in owner ensures b in owner' && owner'[b] == owner[b] && Get(img', b) == Get(img, b) {
      assert BlockInUse(v.space, b);
      StaysOwner(n, blocks, tables, |used|, owner, ino, b);
      AddedWereFree(n, blocks, tables, used, used', owner, ino, b);
    }
    forall b | b in owner' ensures BlockInUse(v'.space, b) {
      AddedWereFree(n, blocks, tables, used, used', owner, ino, b);
      if b in owner {
        assert BlockInUse(v.space, b);
      } else {
        Sp.NotFirst(v.space, b);
      }
    }
    FileAdded(v, v', ino, n);
  }

  lemma StaysOwner(n: Inode, blocks: seq<nat>, tables: seq<nat>, size: nat, owner: Owners, ino: nat, b: nat)
    requires InodeOk(n) && b in owner
    ensures b in WithFile(owner, size, ino, n, blocks, tables)
  {
  }

  // ---------------------------------------------------------------------------------------------
  // The builder
  // ---------------------------------------------------------------------------------------------

  /** What was reserved for metadata stays reserved, and no file has a block of it. */
  ghost predicate MetadataApart(metadata: seq<bool>, used: seq<bool>, owner: Owners) {
    && |metadata| == |used| && (forall x :: 0 <= x < |used| && metadata[x] ==> used[x])
    && forall b :: b in owner ==> b < |metadata| && !metadata[b]
  }

  lemma TakenApart(metadata: seq<bool>, used: seq<bool>, used': seq<bool>, owner: Owners, img: Disk, img': Disk)
    requires MetadataApart(metadata, used, owner) && Keeps(img, used, img', used')
    ensures MetadataApart(metadata, used', owner)
  {
  }

  lemma StillApart(metadata: seq<bool>, used: seq<bool>, used': seq<bool>, owner: Owners, ino: nat, n: Inode,
      blocks: seq<nat>, tables: seq<nat>,
                   img: Disk, img': Disk)
    requires MetadataApart(metadata, used, owner) && Keeps(img, used, img', used') && InodeOk(n) && AllNew(used, used', n, blocks, tables)
    ensures MetadataApart(metadata, used', WithFile(owner, |used|, ino, n, blocks, tables))
  {
    hide AllNew, WithFile;
    forall b | b in WithFile(owner, |used|, ino, n, blocks, tables) ensures b < |metadata| && !metadata[b] {
      AddedWereFree(n, blocks, tables, used, used', owner, ino, b);
    }
  }

  /** Everything that flush writes over is marked. */
  ghost predicate Covers(metadata: seq<bool>, m: Geometry)
    requires GeometryOk(m)
  {
    |metadata| == m.total && Reserved(metadata, m.perGroup, TableBlocks(m.ipg)) && forall b :: 0 <= b < m.total && IsHead(m, b) ==> metadata[b]
  }

  lemma UnmarkedApart(metadata: seq<bool>, m: Geometry, b: nat)
    requires GeometryOk(m) && Covers(metadata, m) && b < m.total && !metadata[b]
    ensures Apart(m, b)
  {
    hide TableBlocks, NumGroups, IsMeta;
    forall g: nat | g < NumGroups(m) ensures !IsMeta(DescFor(m, g), TableBlocks(m.ipg), b) { GroupUnmarked(metadata, m, g, b); }
  }

  lemma GroupUnmarked(metadata: seq<bool>, m: Geometry, g: nat, b: nat)
    requires GeometryOk(m) && Covers(metadata, m) && b < m.total && !metadata[b] && g < NumGroups(m)
    ensures !IsMeta(DescFor(m, g), TableBlocks(m.ipg), b)
  {
    hide TableBlocks, IsMeta;
    assert GroupReserved(metadata, DescOf(g, m.perGroup), TableBlocks(m.ipg));
  }

  /** The builder can make an image of this geometry. */
  ghost predicate Buildable(m: Geometry) {
    && GeometryOk(m) && GdtStart() + GdtBlocks(NumGroups(m)) <= m.total
    && forall g :: 0 <= g < NumGroups(m) ==> DescOf(g, m.perGroup).it + TableBlocks(m.ipg) <= m.total
  }

  class Builder {
    const image: Image
    const m: Geometry
    var inodes: map<nat, Inode>
    ghost var owner: Owners
    ghost const metadata: seq<bool>

    ghost predicate Sizes()
      reads this, image
    {
      GeometryOk(m) && |image.used| == m.total
    }

    /** The image so far, as a volume. */
    ghost function Now(): Vol
      requires Sizes()
      reads this, image
    {
      View(image.img, image.used, inodes, owner, m.perGroup)
    }

    ghost predicate Valid()
      reads this, image
    {
      && image.Valid() && Sizes() && VolOk(Now()) && DirsOk(Now()) && MetadataApart(metadata, image.used, owner)
      && Covers(metadata, m) && forall i :: i in inodes ==> Packs(inodes[i])
    }

    /** A new image: only metadata is in use. */
    constructor (total: nat, perGroup: nat, ipg: nat)
      requires Buildable(Geometry(total, perGroup, ipg))
      ensures Valid() && m == Geometry(total, perGroup, ipg) && inodes == map[] && owner == map[] && fresh(image)
      ensures forall b :: 0 <= b < total ==> image.used[b] == !Apart(m, b)
    {
      hide Reserved, VolOk, DirsOk, View, MetadataApart, Apart, Covers, InHead, InSomeGroup, DescOf, TableBlocks, GdtBlocks;
      var used := InitialBitmap(total, perGroup, TableBlocks(ipg));
      m, inodes, owner, metadata := Geometry(total, perGroup, ipg), map[], map[], used;
      image := new Image(used);
      new;
      StartOk(used, perGroup);
      StartApart(used);
      assert NumGroups(m) == (total + perGroup - 1) / perGroup;
      StartCovers(used, m);
    }

    /** create_file, for an inode number that is not in use: the driver will read back the content. */
    method CreateFile(ino: nat, content: seq<Byte>) returns (ok: bool)
      requires Valid() && 0 < ino && ino !in inodes
      modifies this, image
      ensures Valid() && OthersKept(old(Now()), Now(), ino)
      ensures ok ==> ino in inodes && inodes == old(inodes)[ino := inodes[ino]] && inodes[ino].ftype == Regular && InodeOk(inodes[ino])
                     && ReadGives(Now().disk, inodes[ino], 0, |content|, content)
      ensures !ok ==> inodes == old(inodes)
      ensures !ok ==> |content| >= U32 || BlocksFor(content) > MAX_DATA || Sp.Full(Now().space)
    {
      hide VolOk, Keeps, Counted, MetadataApart, LaidOut, TookAll, AllNew, Holds, Chunks, NewTables, BlocksFor, ReadGives, Covers,
        FieldsFit, TableCount;
      ghost var img0, used0, v0 := image.img, image.used, Now();
      var blocks := image.MakeFile(content);
      ghost var img1, used1 := image.img, image.used;
      KeepsSize(img0, used0, img1, used1);
      if blocks.None? {
        OnlyTaken(img0, used0, inodes, owner, m.perGroup, img1, used1);
        TakenApart(metadata, used0, used1, owner, img0, img1);
        return false;
      }
      TakenNumbers(used0, used1, blocks.value);
      var n, tables := image.WriteInode(Regular, |content|, blocks.value);
      KeepsTwice(img0, used0, img1, used1, image.img, image.used);
      KeepsSize(img0, used0, image.img, image.used);
      if n.None? {
        OnlyTaken(img0, used0, inodes, owner, m.perGroup, image.img, image.used);
        TakenApart(metadata, used0, image.used, owner, img0, image.img);
        return false;
      }
      BothNew(used0, used1, img0, img1, image.img, image.used, n.value, blocks.value, tables);
      LaidOutInode(image.img, n.value, blocks.value, tables);
      NewFileAdded(img0, used0, inodes, owner, m.perGroup, image.img, image.used, ino, n.value, blocks.value, tables);
      ChunksKept(img0, used0, img1, used1, image.img, image.used, blocks.value, content);
      ContentReads(image.img, n.value, blocks.value, content);
      inodes := inodes[ino := n.value];
      StillApart(metadata, used0, image.used, owner, ino, n.value, blocks.value, tables, img0, image.img);
      owner := WithFile(owner, |used0|, ino, n.value, blocks.value, tables);
      DirsStay(v0, Now(), ino, n.value);
      return true;
    }

    /** One directory of materialize_dirs, for an inode number that is not in use: the driver will list
        exactly its entries. */
    method MakeDirectory(ino: nat, items: seq<Dirent>) returns (ok: bool)
      requires Valid() && 0 < ino && ino !in inodes && forall i :: 0 <= i < |items| ==> EntryOk(items[i])
      modifies this, image
      ensures Valid() && OthersKept(old(Now()), Now(), ino)
      ensures ok ==> ino in inodes && inodes == old(inodes)[ino := inodes[ino]] && IsDir(Now(), ino) && ListOf(Now(), ino) == items
      ensures !ok ==> inodes == old(inodes)
      ensures !ok ==> Sp.Full(Now().space) || |items| >= MAX_DATA || (|items| + 1) * BLK >= U32
    {
      hide VolOk, Keeps, Counted, MetadataApart, LaidOut, AllNew, DirOk, List, Covers, FieldsFit;
      ghost var img0, used0, v0 := image.img, image.used, Now();
      var n, blocks, tables := image.Materialize(items);
      KeepsSize(img0, used0, image.img, image.used);
      if n.None? {
        OnlyTaken(img0, used0, inodes, owner, m.perGroup, image.img, image.used);
        TakenApart(metadata, used0, image.used, owner, img0, image.img);
        return false;
      }
      LaidOutInode(image.img, n.value, blocks, tables);
      NewFileAdded(img0, used0, inodes, owner, m.perGroup, image.img, image.used, ino, n.value, blocks, tables);
      inodes := inodes[ino := n.value];
      StillApart(metadata, used0, image.used, owner, ino, n.value, blocks, tables, img0, image.img);
      owner := WithFile(owner, |used0|, ino, n.value, blocks, tables);
      DirsStay(v0, Now(), ino, n.value);
      ListedDir(Now(), ino, n.value);
      return true;
    }

    /** flush, and mounting the result. The driver gets a volume from the bytes of the image alone: the inodes and
        the block accounts are those of the builder, and every file and directory has its blocks. */
    method Mount() returns (raw: array<Byte>, vol: Volume)
      requires Valid() && Flushable(m) && DriverFinds(m, inodes)
      ensures fresh(raw) && fresh(vol) && vol.Valid() && ReadSuper(raw[..]).Some?
      ensures var s := ReadSuper(raw[..]).value;
              s.perGroup == m.perGroup && s.ipg == m.ipg && 0 !in inodes && vol.Now() == Seen(raw[..], s, inodes.Keys, owner)
      ensures vol.inodes == inodes && vol.space == Now().space && OthersKept(Now(), vol.Now(), 0) && DirsOk(vol.Now())
      ensures forall i :: IsDir(Now(), i) ==> IsDir(vol.Now(), i) && ListOf(vol.Now(), i) == ListOf(Now(), i)
    {
      hide VolOk, DirsOk, ImageLies, Flushable, Counted, Covers, MetadataApart, IsDir, ListOf, Seen, ReadSuper, OthersKept, ReadSpace, ReadDisk,
        ReadInode, DriverFinds, Sp.Accounted, NumGroups, CountsFit;
      var free, total := FlushCounts(image.used, m.perGroup, TableBlocks(m.ipg));
      raw := Flush(m, image.img, image.used, inodes, Counts(free, total));
      MountedIs(raw[..], m, image.img, image.used, inodes, Counts(free, total), owner, metadata);
      var s := ReadSuper(raw[..]).value;
      SeenIs(raw[..], s, inodes, owner);
      vol := new Volume(ReadDisk(raw[..]), map i | i in inodes :: ReadInode(raw[..], s.ipg, i), ReadSpace(raw[..], s), owner);
    }
  }

  /** What the driver sees in a finished image is as good a volume as the one that was built. */
  lemma MountedIs(raw: seq<Byte>, m: Geometry, img: Disk, used: seq<bool>, inodes: map<nat, Inode>, c: Counts, owner: Owners, metadata: seq<bool>)
    requires GeometryOk(m) && |used| == m.total
    requires VolOk(View(img, used, inodes, owner, m.perGroup)) && DirsOk(View(img, used, inodes, owner, m.perGroup))
    requires Covers(metadata, m) && MetadataApart(metadata, used, owner) && DriverFinds(m, inodes)
    requires ImageLies(raw, m, img, used, inodes, c) && Sp.Accounted(Sp.Space(m.perGroup, used, c.free, c.total))
    ensures ReadSuper(raw).Some? && 0 !in inodes && ReadSuper(raw).value.perGroup == m.perGroup && ReadSuper(raw).value.ipg == m.ipg
    ensures var v, v' := View(img, used, inodes, owner, m.perGroup), Seen(raw, ReadSuper(raw).value, inodes.Keys, owner);
            && v'.inodes == inodes && v'.space == v.space && VolOk(v') && OthersKept(v, v', 0) && DirsOk(v')
            && forall i :: IsDir(v, i) ==> IsDir(v', i) && ListOf(v', i) == ListOf(v, i)
  {
    hide VolOk, DirsOk, ImageLies, Counted, Covers, IsDir, ListOf, Seen, ReadSuper, OthersKept, Sp.Accounted, NumGroups, CountsFit, Apart, Get;
    var space := Sp.Space(m.perGroup, used, c.free, c.total);
    CountedOk(used, m.perGroup);
    Sp.CountersDetermined(Counted(used, m.perGroup), space);
    CountersFit(m, space);
    FlushedReads(raw, m, img, used, inodes, c, owner);
    SeenOwner(raw, ReadSuper(raw).value, inodes.Keys, owner);
    SeenIsSound(View(img, used, inodes, owner, m.perGroup), Seen(raw, ReadSuper(raw).value, inodes.Keys, owner), metadata, m, img);
  }

  lemma SeenOwner(raw: seq<Byte>, s: Super, numbers: set<nat>, owner: Owners)
    requires 0 < s.perGroup && 0 < s.ipg && 0 !in numbers
    ensures Seen(raw, s, numbers, owner).owner == owner
  {
  }

  lemma SeenIs(raw: seq<Byte>, s: Super, inodes: map<nat, Inode>, owner: Owners)
    requires 0 < s.perGroup && 0 < s.ipg && 0 !in inodes
    ensures Seen(raw, s, inodes.Keys, owner)
            == Vol(ReadDisk(raw), map i | i in inodes :: ReadInode(raw, s.ipg, i), ReadSpace(raw, s), owner)
  {
  }

  lemma CountersFit(m: Geometry, s: Sp.Space)
    requires GeometryOk(m) && Sp.Accounted(s) && s.perGroup == m.perGroup && |s.used| == m.total
    ensures CountsFit(m, Counts(s.free, s.total))
  {
    forall g | 0 <= g < |s.free| ensures s.free[g] < 0x1_0000 { Sp.GroupBounds(s, g); }
    SumAll(s, |s.free|);
  }

  /** A volume with the inodes and the accounts of another and the same blocks for its files is as good. */
  lemma SeenIsSound(v: Vol, v': Vol, metadata: seq<bool>, m: Geometry, img: Disk)
    requires VolOk(v) && DirsOk(v) && 0 !in v.inodes && v.disk == img && GeometryOk(m) && Covers(metadata, m)
    requires forall b :: b in v.owner ==> b < |metadata| && !metadata[b]
    requires v'.inodes == v.inodes && v'.space == v.space && v'.owner == v.owner
    requires forall b: nat :: Apart(m, b) ==> Get(v'.disk, b) == Get(img, b)
    ensures VolOk(v') && OthersKept(v, v', 0) && DirsOk(v')
    ensures forall i :: IsDir(v, i) ==> IsDir(v', i) && ListOf(v', i) == ListOf(v, i)
  {
    hide Covers, Apart, Owned, DirOk, BlockOf, Get, Sp.Accounted, Sp.FirstBlocksUsed, List;
    forall b | b in v.owner ensures Get(v'.disk, b) == Get(v.disk, b) {
      assert b < m.total by { MetadataSize(metadata, m); }
      UnmarkedApart(metadata, m, b);
    }
    forall i | i in v.inodes ensures FileOk(v', i, v.inodes[i]) {
      assert FileOk(v, i, v.inodes[i]);
      OtherOwned(Work(v, 0, v.inodes[i]), Work(v', 0, v.inodes[i]), i);
    }
    assert OthersKept(v, v', 0);
    forall i | IsDir(v, i) ensures IsDir(v', i) && ListOf(v', i) == ListOf(v, i) { OtherDirectory(v, v', 0, i); }
    forall i | i in v'.inodes && v'.inodes[i].ftype == Directory ensures DirOk(v'.disk, v'.inodes[i]) {
      DirsOkAt(v, i);
      SameFilesList(v, v', 0, i);
    }
  }

  lemma MetadataSize(metadata: seq<bool>, m: Geometry)
    requires GeometryOk(m) && Covers(metadata, m)
    ensures |metadata| == m.total
  {
  }

  lemma StartCovers(used: seq<bool>, m: Geometry)
    requires GeometryOk(m) && |used| == m.total && Reserved(used, m.perGroup, TableBlocks(m.ipg))
    requires forall b :: 0 <= b < m.total && InHead(NumGroups(m), b) ==> used[b]
    requires forall b :: 0 <= b < m.total && used[b] ==> InHead(NumGroups(m), b) || InSomeGroup(NumGroups(m), m.perGroup, TableBlocks(m.ipg), b)
    ensures Covers(used, m) && forall b :: 0 <= b < m.total ==> used[b] == !Apart(m, b)
  {
    hide Reserved, Apart, IsMeta, TableBlocks, NumGroups, InHead;
    forall b | 0 <= b < m.total ensures used[b] == !Apart(m, b) {
      if used[b] { MarkedNotApart(m, b); } else { UnmarkedApart(used, m, b); }
    }
  }

  lemma MarkedNotApart(m: Geometry, b: nat)
    requires GeometryOk(m) && (InHead(NumGroups(m), b) || InSomeGroup(NumGroups(m), m.perGroup, TableBlocks(m.ipg), b))
    ensures !Apart(m, b)
  {
    hide IsMeta, TableBlocks, NumGroups, InHead;
    if InSomeGroup(NumGroups(m), m.perGroup, TableBlocks(m.ipg), b) {
      var g: nat :| g < NumGroups(m) && IsMeta(DescOf(g, m.perGroup), TableBlocks(m.ipg), b);
      assert DescFor(m, g) == DescOf(g, m.perGroup);
    }
  }

  lemma StartApart(used: seq<bool>)
    ensures MetadataApart(used, used, map[])
  {
  }

  lemma StartOk(used: seq<bool>, perGroup: nat)
    requires 0 < perGroup <= 0x8000 && 0 < |used| <= 0x8000_0000
    requires forall g :: 0 <= g < (|used| + perGroup - 1) / perGroup ==> g * perGroup < |used| && used[g * perGroup]
    ensures var v := View(map[], used, map[], map[], perGroup); VolOk(v) && DirsOk(v)
  {
    CountedOk(used, perGroup);
    var s := Counted(used, perGroup);
    forall g | 0 <= g < |s.free| ensures Sp.FirstUsed(s, g) {
      assert used[g * perGroup];
    }
  }

  /** Blocks that were taken but given to no file leave the volume sound. */
  lemma OnlyTaken(img: Disk, used: seq<bool>, inodes: map<nat, Inode>, owner: Owners, perGroup: nat, img': Disk, used': seq<bool>)
    requires 0 < perGroup <= 0x8000 && 0 < |used| <= 0x8000_0000 && VolOk(View(img, used, inodes, owner, perGroup))
    requires DirsOk(View(img, used, inodes, owner, perGroup)) && Keeps(img, used, img', used')
    ensures var v, v' := View(img, used, inodes, owner, perGroup), View(img', used', inodes, owner, perGroup);
            VolOk(v') && DirsOk(v') && forall ino :: ino !in inodes ==> OthersKept(v, v', ino)
  {
    hide Counted, Owned, DirOk, Sp.Accounted, Sp.FirstBlocksUsed, BlockOf;
    var v, v' := View(img, used, inodes, owner, perGroup), View(img', used', inodes, owner, perGroup);
    CountedOk(used', perGroup);
    FirstBlocksStay(used, used', perGroup);
    forall b | b in owner ensures BlockInUse(v'.space, b) && Get(img', b) == Get(img, b) { assert BlockInUse(v.space, b); }
    forall i | i in inodes ensures FileOk(v', i, inodes[i]) {
      assert FileOk(v, i, inodes[i]);
      OtherOwned(Work(v, 0, inodes[i]), Work(v', 0, inodes[i]), i);
    }
    forall i | i in inodes && inodes[i].ftype == Directory ensures DirOk(v'.disk, inodes[i]) {
      assert FileOk(v, i, inodes[i]);
      DirsOkAt(v, i);
      SameFilesList(v, v', 0, i);
    }
  }

  lemma KeepsSize(img: Disk, used: seq<bool>, img': Disk, used': seq<bool>)
    requires Keeps(img, used, img', used')
    ensures |used'| == |used|
  {
  }

  lemma TakenNumbers(used: seq<bool>, used': seq<bool>, blocks: seq<nat>)
    requires TookAll(used, used', blocks) && |used| <= U32
    ensures Numbers(blocks)
  {
    forall i | 0 <= i < |blocks| ensures 0 < blocks[i] < U32 { assert Took(used, used', blocks[i]); }
  }

  lemma ChunksKept(img: Disk, used: seq<bool>, img1: Disk, used1: seq<bool>, img2: Disk, used2: seq<bool>,
      blocks: seq<nat>, content: seq<Byte>)
    requires TookAll(used, used1, blocks) && Keeps(img1, used1, img2, used2) && Chunks(img1, blocks, content)
    ensures Chunks(img2, blocks, content)
  {
    hide Mkfs.Chunk;
    forall i | 0 <= i < |blocks| ensures ChunkAt(img2, blocks[i], content, i) {
      assert Took(used, used1, blocks[i]) && ChunkAt(img1, blocks[i], content, i);
    }
  }
}
