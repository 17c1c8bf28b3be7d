/** What the driver makes of the bytes of an image: when it finds what the builder has written. */
module MkfsMounts {
  import opened Bytes
  import opened BitCounts
  import opened Options
  import opened Ext2Layout
  import opened Ext2Files
  import opened MkfsCounts
  import opened MkfsFlushes
  import Sp = Ext2Space

  // ---------------------------------------------------------------------------------------------
  // Reading
  // ---------------------------------------------------------------------------------------------

  /** What ext2_mount takes from the superblock. */
  datatype Super = Super(log: nat, total: nat, perGroup: nat, ipg: nat, free: nat, inodeSize: nat)

  /** The superblock in sectors 2 and 3, if it has the magic number. */
  function ReadSuper(raw: seq<Byte>): Option<Super> {
    if SUPER + 1024 <= |raw| && Rd16(raw, SUPER + 0x38) == 0xEF53 then
      Some(Super(Rd32(raw, SUPER + 0x18), Rd32(raw, SUPER + 4), Rd32(raw, SUPER + 0x20), Rd32(raw, SUPER + 0x28), Rd32(raw, SUPER + 0xC),
                 Rd16(raw, SUPER + 0x58)))
    else None
  }

  /** The block and the place in it where ext2_read_gdesc looks for a descriptor. */
  function DescPlace(g: nat): (p: (nat, nat))
    ensures p.1 + DESC_SIZE <= BLK
  {
    (GdtStart() + g / (BLK / DESC_SIZE), g % (BLK / DESC_SIZE) * DESC_SIZE)
  }

  function ReadDesc(raw: seq<Byte>, g: nat): Desc {
    var (b, at) := DescPlace(g);
    Desc(Rd32(BlockAt(raw, b), at), Rd32(BlockAt(raw, b), at + 4), Rd32(BlockAt(raw, b), at + 8))
  }

  function ReadFree(raw: seq<Byte>, g: nat): nat {
    var (b, at) := DescPlace(g);
    Rd16(BlockAt(raw, b), at + 12)
  }

  /** The place of an inode as ext2_read_inode computes it, in 32 bits. */
  function InodePlace(table: nat, index: nat): (p: (nat, nat))
    ensures p.1 + INODE_SIZE <= BLK
  {
    SlotInBlock(table, index);
    var off := (table * BLK + index * INODE_SIZE) % U32;
    (off / BLK, off % BLK)
  }

  lemma SlotInBlock(table: nat, index: nat)
    ensures (table * BLK + index * INODE_SIZE) % U32 % BLK + INODE_SIZE <= BLK
  {
    var q := if BLK == 1024 then table * 8 + index else if BLK == 2048 then table * 16 + index else table * 32 + index;
    var r := q % 0x200_0000;
    assert table * BLK + index * INODE_SIZE == 128 * q;
    assert q == q / 0x200_0000 * 0x200_0000 + r;
    DivisionIs(128 * q, U32, q / 0x200_0000, 128 * r);
    SlotOfBlock(r);
  }

  lemma SlotOfBlock(r: nat)
    ensures 128 * r % BLK + 128 <= BLK
  {
    if BLK == 1024 {
      DivisionIs(128 * r, 1024, r / 8, 128 * (r % 8));
    } else if BLK == 2048 {
      DivisionIs(128 * r, 2048, r / 16, 128 * (r % 16));
    } else {
      DivisionIs(128 * r, 4096, r / 32, 128 * (r % 32));
    }
  }

  function ReadInode(raw: seq<Byte>, ipg: nat, ino: nat): Inode
    requires 0 < ipg && 0 < ino
  {
    var (b, at) := InodePlace(ReadDesc(raw, (ino - 1) / ipg).it, (ino - 1) % ipg);
    InodeAt(BlockAt(raw, b), at)
  }

  predicate ReadUsed(raw: seq<Byte>, perGroup: nat, x: nat)
    requires 0 < perGroup
  {
    BitAt(BlockAt(raw, ReadDesc(raw, x / perGroup).bb), x % perGroup)
  }

  // ---------------------------------------------------------------------------------------------
  // Superblock and descriptors
  // ---------------------------------------------------------------------------------------------

  /** The counters fit into their fields. */
  predicate CountsFit(m: Geometry, c: Counts)
    requires GeometryOk(m)
  {
    |c.free| == NumGroups(m) && c.total < U32 && forall g :: 0 <= g < |c.free| ==> c.free[g] < 0x1_0000
  }

  lemma SuperReads(raw: seq<Byte>, m: Geometry, inodes: map<nat, Inode>, c: Counts)
    requires GeometryOk(m) && m.ipg < U32 && CountsFit(m, c) && Lies(raw, SUPER, Words(SuperWords(m, inodes, c)))
    ensures ReadSuper(raw) == Some(Super(LogBlock(), m.total, m.perGroup, m.ipg, c.total, INODE_SIZE))
  {
    hide Words, Rd32, Rd16, Lies, NumGroups, FreeInodes;
    var ws := SuperWords(m, inodes, c);
    assert Words(ws)[..1024] == Words(ws);
    assert ws[255] == 0;
    WordLies(raw, SUPER, ws, 1024, 255);
    WordLies(raw, SUPER, ws, 1024, 14);
    HalfWords(raw, SUPER + 0x38);
    WordLies(raw, SUPER, ws, 1024, 6);
    WordLies(raw, SUPER, ws, 1024, 1);
    WordLies(raw, SUPER, ws, 1024, 8);
    WordLies(raw, SUPER, ws, 1024, 10);
    WordLies(raw, SUPER, ws, 1024, 3);
    WordLies(raw, SUPER, ws, 1024, 22);
    HalfWords(raw, SUPER + 0x58);
  }

  lemma DescWordIs(m: Geometry, inodes: map<nat, Inode>, c: Counts, g: nat, k: nat)
    requires GeometryOk(m) && g < NumGroups(m) && k < 8
    ensures 8 * g + k < |GdtWords(m, inodes, c)| && GdtWords(m, inodes, c)[8 * g + k] == DescWord(m, inodes, c, g, k)
  {
    hide NumGroups, DescWord;
    assert (8 * g + k) / 8 == g && (8 * g + k) % 8 == k;
  }

  /** Word `k` of the descriptor of group `g`, if it lies before the bitmap of group 0. */
  lemma DescWordReads(raw: seq<Byte>, m: Geometry, inodes: map<nat, Inode>, c: Counts, g: nat, k: nat)
    requires GeometryOk(m) && HeadLies(raw, m, inodes, c) && g < NumGroups(m) && k < 8 && 32 * g + 32 <= BLK
    requires DescWord(m, inodes, c, g, k) < U32
    ensures GdtByte() + 32 * g + 4 * k + 4 <= |raw| && Rd32(raw, GdtByte() + 32 * g + 4 * k) == DescWord(m, inodes, c, g, k)
  {
    hide Words, Rd32, Lies, NumGroups, DescWord, GdtWords, SuperWords;
    DescWordIs(m, inodes, c, g, k);
    WordLies(raw, GdtByte(), GdtWords(m, inodes, c), Cut(m), 8 * g + k);
  }

  /** Up to the limit the descriptors are all in the first block of the table. */
  lemma DescPlaceIs(g: nat)
    requires g < DescLimit()
    ensures DescPlace(g) == (GdtStart(), 32 * g) && 32 * g + 32 <= BLK
  {
  }

  lemma DescFieldReads(raw: seq<Byte>, m: Geometry, inodes: map<nat, Inode>, c: Counts, g: nat, k: nat)
    requires GeometryOk(m) && HeadLies(raw, m, inodes, c) && g < NumGroups(m) && k < 8 && 32 * g + 32 <= BLK && GdtByte() + BLK <= |raw|
    requires DescWord(m, inodes, c, g, k) < U32
    ensures Rd32(BlockAt(raw, GdtStart()), 32 * g + 4 * k) == DescWord(m, inodes, c, g, k)
  {
    hide HeadLies, Rd32, NumGroups, DescWord;
    DescWordReads(raw, m, inodes, c, g, k);
    WordInBlock(raw, GdtStart(), 32 * g + 4 * k);
  }

  lemma DescriptorReads(raw: seq<Byte>, m: Geometry, inodes: map<nat, Inode>, c: Counts, g: nat)
    requires Flushable(m) && |raw| == m.total * BLK && HeadLies(raw, m, inodes, c) && CountsFit(m, c) && g < NumGroups(m) && g < DescLimit()
    ensures DescReads(raw, m, c, g)
  {
    hide HeadLies, Rd32, Rd16, NumGroups, Roomy, DescFor, FreeInodes, TableBlocks, DescPlace, BlockAt, DescWord;
    DescPlaceIs(g);
    FirstBlock(raw, m);
    assert DescFor(m, g).bb < U32 && DescFor(m, g).ib < U32 && DescFor(m, g).it < U32 by { Contiguous(m, g); }
    WordsOf(m, inodes, c, g);
    DescFieldReads(raw, m, inodes, c, g, 0);
    DescFieldReads(raw, m, inodes, c, g, 1);
    DescFieldReads(raw, m, inodes, c, g, 2);
    DescFieldReads(raw, m, inodes, c, g, 3);
    HalfWords(BlockAt(raw, GdtStart()), 32 * g + 12);
  }

  lemma WordsOf(m: Geometry, inodes: map<nat, Inode>, c: Counts, g: nat)
    requires g < |c.free| && c.free[g] < 0x1_0000 && m.ipg <= 8 * BLK
    ensures DescWord(m, inodes, c, g, 0) == DescFor(m, g).bb && DescWord(m, inodes, c, g, 1) == DescFor(m, g).ib
    ensures DescWord(m, inodes, c, g, 2) == DescFor(m, g).it
    ensures DescWord(m, inodes, c, g, 3) % 0x1_0000 == c.free[g] && DescWord(m, inodes, c, g, 3) < U32
  {
    hide FreeInodes, DescFor;
  }

  lemma FirstBlock(raw: seq<Byte>, m: Geometry)
    requires Flushable(m) && |raw| == m.total * BLK
    ensures GdtStart() * BLK + BLK <= |raw|
  {
    hide NumGroups, Roomy, DescFor, TableBlocks;
    HeadBlocks(NumGroups(m));
    Scaled(GdtStart(), 1);
    Scaled(GdtStart() + 1, m.total);
  }

  lemma WordInBlock(raw: seq<Byte>, b: nat, at: nat)
    requires b * BLK + BLK <= |raw| && at + 4 <= BLK
    ensures Rd32(BlockAt(raw, b), at) == Rd32(raw, b * BLK + at)
  {
  }

  /** The superblock and every descriptor are read as they were written. */
  ghost predicate HeadReads(raw: seq<Byte>, m: Geometry, c: Counts)
    requires GeometryOk(m) && CountsFit(m, c)
  {
    && ReadSuper(raw) == Some(Super(LogBlock(), m.total, m.perGroup, m.ipg, c.total, INODE_SIZE))
    && forall g: nat :: g < NumGroups(m) ==> DescReads(raw, m, c, g)
  }

  predicate DescReads(raw: seq<Byte>, m: Geometry, c: Counts, g: nat)
    requires g < |c.free|
  {
    ReadDesc(raw, g) == DescFor(m, g) && ReadFree(raw, g) == c.free[g]
  }

  /** The driver finds the superblock and all descriptors of a flushed image exactly when it has no more groups than
      the place before the next piece of metadata holds. */
  lemma HeadReadsIff(raw: seq<Byte>, m: Geometry, img: Disk, used: seq<bool>, inodes: map<nat, Inode>, c: Counts)
    requires ImageLies(raw, m, img, used, inodes, c) && CountsFit(m, c)
    requires |used| == m.total && forall b: nat :: IsHead(m, b) && b < m.total ==> used[b]
    ensures HeadReads(raw, m, c) <==> NumGroups(m) <= DescLimit()
  {
    if NumGroups(m) <= DescLimit() {
      UpToLimit(raw, m, inodes, c);
    } else if BLK == 4096 {
      OverwrittenSuper(raw, m, inodes, c);
    } else {
      OverwrittenDescriptor(raw, m, used, inodes);
      assert HeadReads(raw, m, c) ==> DescReads(raw, m, c, DescLimit());
    }
  }

  lemma UpToLimit(raw: seq<Byte>, m: Geometry, inodes: map<nat, Inode>, c: Counts)
    requires Flushable(m) && |raw| == m.total * BLK && HeadLies(raw, m, inodes, c) && CountsFit(m, c) && NumGroups(m) <= DescLimit()
    ensures HeadReads(raw, m, c)
  {
    hide DescReads, Words, SuperWords, GdtWords, NumGroups, Roomy, ReadSuper, Lies;
    TableApartIff(NumGroups(m));
    SuperReads(raw, m, inodes, c);
    forall g: nat | g < NumGroups(m) ensures DescReads(raw, m, c, g) { DescriptorReads(raw, m, inodes, c, g); }
  }

  /** With blocks of 4096 bytes the table starts at byte 0: the descriptor of group 32 covers the block size. */
  lemma OverwrittenSuper(raw: seq<Byte>, m: Geometry, inodes: map<nat, Inode>, c: Counts)
    requires GeometryOk(m) && HeadLies(raw, m, inodes, c) && NumGroups(m) > 32 && BLK == 4096
    ensures ReadSuper(raw).Some? ==> ReadSuper(raw).value.log == 0 != LogBlock()
  {
    hide HeadLies, NumGroups, Rd32;
    DescWordReads(raw, m, inodes, c, 32, 6);
  }

  /** With smaller blocks the first descriptor behind the limit is read from the block bitmap of group 0, whose first
      three blocks are in use. */
  lemma OverwrittenDescriptor(raw: seq<Byte>, m: Geometry, used: seq<bool>, inodes: map<nat, Inode>)
    requires Flushable(m) && NumGroups(m) > DescLimit() && BLK < 4096 && GroupLies(raw, m, 0, used, inodes)
    requires |used| == m.total && forall b: nat :: IsHead(m, b) && b < m.total ==> used[b]
    ensures ReadDesc(raw, DescLimit()).bb != DescFor(m, DescLimit()).bb
  {
    hide GroupLies, Rd32, NumGroups, TableBlocks, Bit, BlockAt, DescFor, DescPlace, Flushable, IsHead, DescLimit;
    var s := BlockAt(raw, DescFor(m, 0).bb);
    FirstMarks(raw, m, used, inodes);
    BehindLimit(m);
    LowBits(s[0]);
    LowByte(s);
  }

  lemma BehindLimit(m: Geometry)
    requires BLK < 4096
    ensures DescPlace(DescLimit()) == (DescFor(m, 0).bb, 0) && DescFor(m, DescLimit()).bb % 8 == 0
  {
    Eights(m.perGroup);
  }

  lemma Eights(p: nat)
    ensures 32 * p % 8 == 0 && 64 * p % 8 == 0
  {
    assert 32 * p == 8 * (4 * p) && 64 * p == 8 * (8 * p);
  }

  lemma FirstMarks(raw: seq<Byte>, m: Geometry, used: seq<bool>, inodes: map<nat, Inode>)
    requires Flushable(m) && NumGroups(m) > DescLimit() && BLK < 4096 && GroupLies(raw, m, 0, used, inodes)
    requires |used| == m.total && forall b: nat :: IsHead(m, b) && b < m.total ==> used[b]
    ensures var s := BlockAt(raw, DescFor(m, 0).bb); Bit(s[0], 0) && Bit(s[0], 1) && Bit(s[0], 2)
  {
    hide SlotLies, NumGroups, TableBlocks, DescFor, BlockAt, Bit;
    ThreeInHead(m);
    GroupInside(m, 0);
    var s := BlockAt(raw, DescFor(m, 0).bb);
    assert BitAt(s, 0) == used[0] && BitAt(s, 1) == used[1] && BitAt(s, 2) == used[2];
  }

  lemma ThreeInHead(m: Geometry)
    requires Flushable(m) && NumGroups(m) > DescLimit() && BLK < 4096
    ensures IsHead(m, 0) && IsHead(m, 1) && IsHead(m, 2) && 3 <= m.total && 3 <= GroupEnd(m, 0)
  {
    hide NumGroups, TableBlocks, DescFor;
    var n := NumGroups(m);
    assert BLK == 2048 ==> (n * DESC_SIZE + BLK - 1) / BLK >= 2;
    HeadBlocks(n);
  }

  lemma LowBits(b: nat)
    requires Bit(b, 0) && Bit(b, 1) && Bit(b, 2)
    ensures b % 8 == 7
  {
    assert Bit(b / 2, 0) && Bit(b / 2, 1) && Bit(b / 2 / 2, 0);
    assert b / 2 / 2 == b / 4;
  }

  lemma LowByte(s: seq<Byte>)
    requires |s| >= 4
    ensures Rd32(s, 0) % 8 == s[0] % 8
  {
  }

  // ---------------------------------------------------------------------------------------------
  // Inodes
  // ---------------------------------------------------------------------------------------------

  /** Up to the limit the image has no more than four gigabytes, so no byte number wraps around. */
  lemma NoWrap(m: Geometry)
    requires GeometryOk(m) && m.perGroup <= 8 * BLK && NumGroups(m) <= DescLimit()
    ensures m.total * BLK <= U32
  {
    var n, p := m.total + m.perGroup - 1, m.perGroup;
    assert n == n / p * p + n % p;
    Sp.MulLe(p, n / p, DescLimit());
    Sp.MulLe(DescLimit(), p, 8 * BLK);
    assert m.total <= DescLimit() * (8 * BLK);
    Scaled(m.total, DescLimit() * (8 * BLK));
  }

  /** The inode whose slot the driver reads for inode `ino`. */
  function Found(m: Geometry, ino: nat): nat
    requires 0 < m.ipg && 0 < ino
  {
    InodeInSlot(m, (ino - 1) / m.ipg, (ino - 1) % m.ipg)
  }

  /** It is that inode exactly when its number is no multiple of the inodes per group; otherwise it is the one a
      whole group before. */
  lemma FoundIff(m: Geometry, ino: nat)
    requires 0 < m.ipg && 0 < ino
    ensures Found(m, ino) == ino <==> ino % m.ipg != 0
    ensures ino % m.ipg == 0 ==> Found(m, ino) == ino - m.ipg
  {
    GroupOfInode(m.ipg, ino);
    var q := ino / m.ipg;
    assert ino == q * m.ipg + ino % m.ipg;
    assert (q - 1) * m.ipg == q * m.ipg - m.ipg;
  }

  lemma InodeInBlock(raw: seq<Byte>, table: nat, index: nat)
    requires table * BLK + index * INODE_SIZE + INODE_SIZE <= |raw| <= U32 && |raw| % BLK == 0
    ensures var (b, at) := InodePlace(table, index);
            InodeAt(BlockAt(raw, b), at) == InodeAt(raw, table * BLK + index * INODE_SIZE)
  {
    hide Rd16, BlockAt, Rd32;
    var pos := table * BLK + index * INODE_SIZE;
    var (b, at) := InodePlace(table, index);
    assert pos == b * BLK + at by { PlaceIs(table, index); }
    WholeBlock(raw, b, at);
    HalfInBlock(raw, b, at);
    WordInBlock(raw, b, at + 4);
    WordInBlock(raw, b, at + 28);
    forall k | 0 <= k < 15 ensures Rd32(BlockAt(raw, b), at + 40 + 4 * k) == Rd32(raw, pos + 40 + 4 * k) { WordInBlock(raw, b, at + 40 + 4 * k); }
  }

  lemma PlaceIs(table: nat, index: nat)
    requires table * BLK + index * INODE_SIZE < U32
    ensures var (b, at) := InodePlace(table, index); table * BLK + index * INODE_SIZE == b * BLK + at
  {
    var pos := table * BLK + index * INODE_SIZE;
    assert pos == pos / BLK * BLK + pos % BLK;
  }

  lemma WholeBlock(raw: seq<Byte>, b: nat, at: nat)
    requires |raw| % BLK == 0 && b * BLK + at < |raw| && at < BLK
    ensures b * BLK + BLK <= |raw|
  {
    var q := |raw| / BLK;
    assert |raw| == q * BLK;
    Scaled(q, b);
    Scaled(b, 1);
    Scaled(b + 1, q);
  }

  lemma HalfInBlock(raw: seq<Byte>, b: nat, at: nat)
    requires b * BLK + BLK <= |raw| && at + 2 <= BLK
    ensures Rd16(BlockAt(raw, b), at) == Rd16(raw, b * BLK + at)
  {
  }

  lemma ReadAtSlot(raw: seq<Byte>, ipg: nat, ino: nat, table: nat, n: Inode)
    requires 0 < ipg && 0 < ino && ReadDesc(raw, (ino - 1) / ipg).it == table && Packs(n) && |raw| <= U32 && |raw| % BLK == 0
    requires Lies(raw, table * BLK + (ino - 1) % ipg * INODE_SIZE, Words(InodeWords(n)))
    ensures ReadInode(raw, ipg, ino) == n
  {
    hide ReadDesc, Lies, Words, InodeWords, InodeAt, InodePlace, BlockAt, Packs;
    var j := (ino - 1) % ipg;
    InodeReads(raw, table * BLK + j * INODE_SIZE, n);
    InodeInBlock(raw, table, j);
  }

  /** Which inode the driver reads, for every inode number of the image. */
  lemma InodeReadIs(raw: seq<Byte>, m: Geometry, img: Disk, used: seq<bool>, inodes: map<nat, Inode>, c: Counts, ino: nat)
    requires ImageLies(raw, m, img, used, inodes, c) && CountsFit(m, c) && NumGroups(m) <= DescLimit() && 0 < ino <= NumGroups(m) * m.ipg
    requires 0 < Found(m, ino) && Found(m, ino) in inodes && Packs(inodes[Found(m, ino)])
    ensures ReadInode(raw, m.ipg, ino) == inodes[Found(m, ino)]
  {
    hide ImageLies, GroupLies, HeadLies, Lies, NumGroups, Words, Roomy, DescFor, TableBlocks, ReadDesc, ReadFree, Packs, InodeWords,
      InodeInSlot, ReadInode;
    FlushedParts(raw, m, img, used, inodes, c);
    var g, j, n := (ino - 1) / m.ipg, (ino - 1) % m.ipg, inodes[Found(m, ino)];
    InodeGroup(m, ino);
    PacksOk(n);
    SlotOf(raw, m, g, used, inodes, j);
    DescriptorReads(raw, m, inodes, c, g);
    NoWrap(m);
    ReadAtSlot(raw, m.ipg, ino, DescFor(m, g).it, n);
  }

  lemma PacksOk(n: Inode)
    requires Packs(n)
    ensures InodeOk(n)
  {
  }

  lemma FlushedParts(raw: seq<Byte>, m: Geometry, img: Disk, used: seq<bool>, inodes: map<nat, Inode>, c: Counts)
    requires ImageLies(raw, m, img, used, inodes, c)
    ensures GeometryOk(m) && Flushable(m) && HeadLies(raw, m, inodes, c) && |raw| == m.total * BLK && |raw| % BLK == 0
    ensures forall g: nat :: g < NumGroups(m) ==> GroupLies(raw, m, g, used, inodes)
  {
    hide GroupLies, HeadLies, BlockAt, Apart, NumGroups, Roomy, DescFor, TableBlocks;
    DivisionIs(|raw|, BLK, m.total, 0);
  }

  lemma InodeGroup(m: Geometry, ino: nat)
    requires GeometryOk(m) && 0 < ino <= NumGroups(m) * m.ipg
    ensures (ino - 1) / m.ipg < NumGroups(m)
  {
    hide NumGroups;
    var q := (ino - 1) / m.ipg;
    assert ino - 1 == q * m.ipg + (ino - 1) % m.ipg;
    if q >= NumGroups(m) { Sp.MulLe(m.ipg, NumGroups(m), q); }
  }

  lemma SlotOf(raw: seq<Byte>, m: Geometry, g: nat, used: seq<bool>, inodes: map<nat, Inode>, j: nat)
    requires GroupLies(raw, m, g, used, inodes) && j < m.ipg && InodeInSlot(m, g, j) > 0
    requires InodeInSlot(m, g, j) in inodes && InodeOk(inodes[InodeInSlot(m, g, j)])
    ensures Lies(raw, DescFor(m, g).it * BLK + j * INODE_SIZE, Words(InodeWords(inodes[InodeInSlot(m, g, j)])))
  {
    hide Lies, Words, InodeWords, BitmapLies, InodeBitmapLies;
    assert SlotLies(raw, m, g, inodes, j);
  }

  // ---------------------------------------------------------------------------------------------
  // The volume
  // ---------------------------------------------------------------------------------------------

  /** The block accounts on the image. */
  function ReadSpace(raw: seq<Byte>, s: Super): Sp.Space
    requires 0 < s.perGroup
  {
    Sp.Space(s.perGroup, seq(s.total, x requires 0 <= x => ReadUsed(raw, s.perGroup, x)),
             seq((s.total + s.perGroup - 1) / s.perGroup, g requires 0 <= g => ReadFree(raw, g)), s.free)
  }

  lemma SpaceReads(raw: seq<Byte>, m: Geometry, img: Disk, used: seq<bool>, inodes: map<nat, Inode>, c: Counts)
    requires ImageLies(raw, m, img, used, inodes, c) && CountsFit(m, c) && NumGroups(m) <= DescLimit() && |used| == m.total
    ensures ReadSpace(raw, Super(LogBlock(), m.total, m.perGroup, m.ipg, c.total, INODE_SIZE)) == Sp.Space(m.perGroup, used, c.free, c.total)
  {
    hide Flushable, GroupLies, HeadLies, ReadFree, ReadUsed;
    FlushedParts(raw, m, img, used, inodes, c);
    forall x | 0 <= x < m.total ensures ReadUsed(raw, m.perGroup, x) == used[x] { UsedReads(raw, m, img, used, inodes, c, x); }
    forall g | 0 <= g < NumGroups(m) ensures ReadFree(raw, g) == c.free[g] { DescriptorReads(raw, m, inodes, c, g); }
    var s := ReadSpace(raw, Super(LogBlock(), m.total, m.perGroup, m.ipg, c.total, INODE_SIZE));
    assert s.used == used && s.free == c.free;
  }

  lemma UsedReads(raw: seq<Byte>, m: Geometry, img: Disk, used: seq<bool>, inodes: map<nat, Inode>, c: Counts, x: nat)
    requires ImageLies(raw, m, img, used, inodes, c) && CountsFit(m, c) && NumGroups(m) <= DescLimit() && x < m.total == |used|
    ensures ReadUsed(raw, m.perGroup, x) == used[x]
  {
    hide ImageLies, GroupLies, HeadLies, BitAt, BlockAt, NumGroups, ReadDesc, ReadFree, DescFor, Roomy, TableBlocks, GroupEnd;
    FlushedParts(raw, m, img, used, inodes, c);
    var g := x / m.perGroup;
    InGroup(m, x);
    MarkOf(raw, m, g, used, inodes, x);
    DescriptorReads(raw, m, inodes, c, g);
  }

  lemma InGroup(m: Geometry, x: nat)
    requires GeometryOk(m) && x < m.total
    ensures x / m.perGroup < NumGroups(m) && x / m.perGroup * m.perGroup <= x < GroupEnd(m, x / m.perGroup)
    ensures x - x / m.perGroup * m.perGroup == x % m.perGroup
  {
    var p, g := m.perGroup, x / m.perGroup;
    assert x == g * p + x % p;
    assert (g + 1) * p == g * p + p;
    Sp.DivAtLeast(m.total + p - 1, p, g + 1);
  }

  lemma MarkOf(raw: seq<Byte>, m: Geometry, g: nat, used: seq<bool>, inodes: map<nat, Inode>, x: nat)
    requires GroupLies(raw, m, g, used, inodes) && g * m.perGroup <= x < GroupEnd(m, g) && x < |used|
    ensures BitAt(BlockAt(raw, DescFor(m, g).bb), x - g * m.perGroup) == used[x]
  {
    hide SlotLies, InodeBitmapLies;
  }

  /** The blocks of the image. */
  function ReadDisk(raw: seq<Byte>): Disk { map b: nat | b < |raw| / BLK :: BlockAt(raw, b) }

  /** The volume that the driver sees in these bytes; the numbers of the files and the owners of the blocks are
      given. */
  ghost function Seen(raw: seq<Byte>, s: Super, numbers: set<nat>, owner: Owners): Vol
    requires 0 < s.perGroup && 0 < s.ipg && 0 !in numbers
  {
    Vol(ReadDisk(raw), map i | i in numbers :: ReadInode(raw, s.ipg, i), ReadSpace(raw, s), owner)
  }

  /** When the driver finds everything: the descriptors up to the limit, and no file whose number is a multiple of
      the inodes per group. */
  predicate DriverFinds(m: Geometry, inodes: map<nat, Inode>)
    requires GeometryOk(m)
  {
    NumGroups(m) <= DescLimit() && forall i :: i in inodes ==> 0 < i < NumGroups(m) * m.ipg && i % m.ipg != 0 && Packs(inodes[i])
  }

  /** From the bytes alone the driver gets the inodes, the bitmap and the counters of the builder, and the blocks of
      its files. */
  lemma FlushedReads(raw: seq<Byte>, m: Geometry, img: Disk, used: seq<bool>, inodes: map<nat, Inode>, c: Counts, owner: Owners)
    requires ImageLies(raw, m, img, used, inodes, c) && CountsFit(m, c) && |used| == m.total && DriverFinds(m, inodes)
    ensures var s := Super(LogBlock(), m.total, m.perGroup, m.ipg, c.total, INODE_SIZE);
            var v := Seen(raw, s, inodes.Keys, owner);
            && ReadSuper(raw) == Some(s) && v.inodes == inodes && v.space == Sp.Space(m.perGroup, used, c.free, c.total)
            && forall b: nat :: Apart(m, b) ==> Get(v.disk, b) == Get(img, b)
  {
    hide Flushable, GroupLies, HeadLies, ReadInode, ReadSpace, Get, BlockAt, Apart, ReadSuper, NumGroups, Found, ReadDisk;
    FlushedParts(raw, m, img, used, inodes, c);
    UpToLimit(raw, m, inodes, c);
    SpaceReads(raw, m, img, used, inodes, c);
    forall i | i in inodes ensures ReadInode(raw, m.ipg, i) == inodes[i] {
      FoundIff(m, i);
      InodeReadIs(raw, m, img, used, inodes, c, i);
    }
    forall b: nat | Apart(m, b) ensures Get(ReadDisk(raw), b) == Get(img, b) {
      ApartIs(m, b);
      DiskReads(raw, m, b);
    }
  }

  lemma DiskReads(raw: seq<Byte>, m: Geometry, b: nat)
    requires |raw| == m.total * BLK && b < m.total
    ensures Get(ReadDisk(raw), b) == BlockAt(raw, b)
  {
    hide BlockAt;
    DivisionIs(|raw|, BLK, m.total, 0);
  }

  // ---------------------------------------------------------------------------------------------
  // Inputs
  // ---------------------------------------------------------------------------------------------

  /** The default image of eight megabytes is within all limits. */
  lemma DefaultImage(m: Geometry)
    requires BLK == 1024 && m == Geometry(8192, 8192, 256)
    ensures Flushable(m) && NumGroups(m) == 1 <= DescLimit()
  {
    assert NumGroups(m) == 1;
    assert TableBlocks(256) == 32;
    assert forall g: nat :: g < 1 ==> DescFor(m, g).it + 32 <= 8192;
  }

  /** An image of 512 megabytes with the other defaults has 64 groups: flush gets through, and the driver does not
      find the descriptor of group 32. */
  lemma BigImage(m: Geometry, raw: seq<Byte>, img: Disk, used: seq<bool>, inodes: map<nat, Inode>, c: Counts)
    requires BLK == 1024 && m == Geometry(0x8_0000, 8192, 256)
    ensures Flushable(m) && NumGroups(m) == 64
    ensures ImageLies(raw, m, img, used, inodes, c) && |used| == m.total && (forall b: nat :: IsHead(m, b) && b < m.total ==> used[b])
            ==> ReadDesc(raw, 32).bb != DescFor(m, 32).bb
  {
    BigImageFlushes(m);
    if ImageLies(raw, m, img, used, inodes, c) && |used| == m.total && forall b: nat :: IsHead(m, b) && b < m.total ==> used[b] {
      hide GroupLies, Flushable, HeadLies, BlockAt, Apart, ReadDesc, IsHead;
      assert GroupLies(raw, m, 0, used, inodes);
      OverwrittenDescriptor(raw, m, used, inodes);
    }
  }

  lemma BigImageFlushes(m: Geometry)
    requires BLK == 1024 && m == Geometry(0x8_0000, 8192, 256)
    ensures Flushable(m) && NumGroups(m) == 64
  {
    assert NumGroups(m) == 64;
    assert TableBlocks(256) == 32 && GdtBlocks(64) == 2;
    forall g: nat | g < 64 ensures DescFor(m, g).it + 32 <= 0x8_0000 { assert g * 8192 <= 63 * 8192; }
  }

  /** With 256 inodes per group the driver takes inode 256 for inode 512. */
  lemma MisreadInode(raw: seq<Byte>, m: Geometry, img: Disk, used: seq<bool>, inodes: map<nat, Inode>, c: Counts)
    requires ImageLies(raw, m, img, used, inodes, c) && CountsFit(m, c) && m.ipg == 256 && 2 <= NumGroups(m) <= DescLimit()
    requires 256 in inodes && Packs(inodes[256])
    ensures ReadInode(raw, m.ipg, 512) == inodes[256]
  {
    hide ImageLies, NumGroups, CountsFit, Packs, ReadInode;
    FoundIff(m, 512);
    InodeReadIs(raw, m, img, used, inodes, c, 512);
  }

  // ---------------------------------------------------------------------------------------------
  // The counters of inodes
  // ---------------------------------------------------------------------------------------------

  /** The inode bitmap of group `g` in the image. */
  function InodeBits(raw: seq<Byte>, m: Geometry, g: nat): (s: seq<bool>)
    ensures |s| == m.ipg
  {
    seq(m.ipg, j requires 0 <= j => BitAt(BlockAt(raw, DescFor(m, g).ib), j))
  }

  /** Which slots of the inode table of group `g` hold directories. */
  function DirSlots(m: Geometry, inodes: map<nat, Inode>, g: nat): (s: seq<bool>)
    ensures |s| == m.ipg
  {
    seq(m.ipg, j requires 0 <= j => InodeInSlot(m, g, j) in inodes && inodes[InodeInSlot(m, g, j)].ftype == Directory)
  }

  /** The clear bits of the inode bitmaps of the first `n` groups. */
  function ClearInodes(raw: seq<Byte>, m: Geometry, n: nat): int {
    if n == 0 then 0 else ClearInodes(raw, m, n - 1) + m.ipg - CountUsed(InodeBits(raw, m, n - 1))
  }

  /** The counters of inodes in a flushed image agree with its bitmaps and tables: in every descriptor the free inodes
      are the clear bits of the bitmap of the group and the directories those of its table, and the free inodes of the
      superblock are the clear bits of all bitmaps. */
  lemma InodeCountsAgree(raw: seq<Byte>, m: Geometry, img: Disk, used: seq<bool>, inodes: map<nat, Inode>, c: Counts, g: nat)
    requires ImageLies(raw, m, img, used, inodes, c) && CountsFit(m, c) && g < NumGroups(m) <= DescLimit()
    ensures var (b, at) := DescPlace(g);
            && Rd16(BlockAt(raw, b), at + 14) == m.ipg - CountUsed(InodeBits(raw, m, g))
            && Rd16(BlockAt(raw, b), at + 16) == CountUsed(DirSlots(m, inodes, g))
    ensures SUPER + 20 <= |raw| && Rd32(raw, SUPER + 16) == ClearInodes(raw, m, NumGroups(m))
  {
    hide Flushable, GroupLies, HeadLies, BlockAt, NumGroups, DescLimit, Rd16, Rd32, InodeBits, DirSlots, Words, SuperWords, ClearInodes, ImageLies,
      DescPlace, InodeBitmapLies;
    FlushedParts(raw, m, img, used, inodes, c);
    DescPlaceIs(g);
    BitmapsLie(raw, m, used, inodes);
    InodeWordsRead(raw, m, inodes, c, g);
    BitsAreMarks(raw, m, inodes, g);
    SlotsAreMarks(m, inodes, g);
    SuperInodes(raw, m, inodes, c);
    BitmapsAdd(raw, m, inodes, NumGroups(m));
  }

  lemma BitmapsLie(raw: seq<Byte>, m: Geometry, used: seq<bool>, inodes: map<nat, Inode>)
    requires GeometryOk(m) && forall g: nat :: g < NumGroups(m) ==> GroupLies(raw, m, g, used, inodes)
    ensures forall g: nat :: g < NumGroups(m) ==> InodeBitmapLies(raw, m, g, inodes)
  {
    hide NumGroups, InodeBitmapLies, BitmapLies, SlotLies;
    forall g: nat | g < NumGroups(m) ensures InodeBitmapLies(raw, m, g, inodes) { assert GroupLies(raw, m, g, used, inodes); }
  }

  lemma InodeWordsRead(raw: seq<Byte>, m: Geometry, inodes: map<nat, Inode>, c: Counts, g: nat)
    requires Flushable(m) && |raw| == m.total * BLK && HeadLies(raw, m, inodes, c) && CountsFit(m, c) && g < NumGroups(m) && g < DescLimit()
    ensures 32 * g + 20 <= BLK && Rd16(BlockAt(raw, GdtStart()), 32 * g + 14) == FreeInodes(inodes, g * m.ipg, m.ipg)
    ensures Rd16(BlockAt(raw, GdtStart()), 32 * g + 16) == CountUsed(Directories(inodes, g * m.ipg, m.ipg))
  {
    hide HeadLies, Rd32, Rd16, NumGroups, Roomy, DescFor, FreeInodes, TableBlocks, DescPlace, BlockAt, Directories, DescWord, CountUsed;
    DescPlaceIs(g);
    FirstBlock(raw, m);
    InodeWordsOf(m, inodes, c, g);
    DescFieldReads(raw, m, inodes, c, g, 3);
    DescFieldReads(raw, m, inodes, c, g, 4);
    HalfWords(BlockAt(raw, GdtStart()), 32 * g + 12);
    HalfWords(BlockAt(raw, GdtStart()), 32 * g + 16);
  }

  lemma InodeWordsOf(m: Geometry, inodes: map<nat, Inode>, c: Counts, g: nat)
    requires g < |c.free| && c.free[g] < 0x1_0000 && m.ipg <= 8 * BLK
    ensures DescWord(m, inodes, c, g, 3) / 0x1_0000 == FreeInodes(inodes, g * m.ipg, m.ipg) && DescWord(m, inodes, c, g, 3) < U32
    ensures DescWord(m, inodes, c, g, 4) == CountUsed(Directories(inodes, g * m.ipg, m.ipg)) < 0x1_0000
  {
    hide FreeInodes, DescFor, Directories, CountUsed;
    CountUsedBound(Directories(inodes, g * m.ipg, m.ipg));
    var f, i := c.free[g], FreeInodes(inodes, g * m.ipg, m.ipg);
    assert DescWord(m, inodes, c, g, 3) == f + 0x1_0000 * i;
    assert i <= 0x8000;
    assert (f + 0x1_0000 * i) / 0x1_0000 == i;
  }

  lemma SuperInodes(raw: seq<Byte>, m: Geometry, inodes: map<nat, Inode>, c: Counts)
    requires Flushable(m) && HeadLies(raw, m, inodes, c) && NumGroups(m) <= DescLimit()
    ensures SUPER + 20 <= |raw| && Rd32(raw, SUPER + 16) == FreeInodes(inodes, 0, NumGroups(m) * m.ipg)
  {
    hide Words, Rd32, Lies, NumGroups, FreeInodes, GdtWords, Roomy, DescFor, TableBlocks;
    TableApartIff(NumGroups(m));
    var ws := SuperWords(m, inodes, c);
    assert Words(ws)[..1024] == Words(ws);
    WordLies(raw, SUPER, ws, 1024, 4);
  }

  /** The builder counts by inode number and writes bit and slot of the number before: in each group a rotation. */
  lemma Rotated(s: seq<bool>)
    requires s != []
    ensures CountUsed(s[1..] + [s[0]]) == CountUsed(s)
  {
    CountConcat(s, 1, |s|);
    var t := s[1..] + [s[0]];
    assert s[..|s|] == s && t[..|t| - 1] == s[1..] && s[..1] == [s[0]] && s[..1][..0] == [];
  }

  lemma BitsAreMarks(raw: seq<Byte>, m: Geometry, inodes: map<nat, Inode>, g: nat)
    requires 0 < m.ipg && InodeBitmapLies(raw, m, g, inodes)
    ensures CountUsed(InodeBits(raw, m, g)) == CountUsed(InodeMarks(inodes, g * m.ipg, m.ipg))
  {
    hide Marked, BitAt, BlockAt, CountUsed;
    var marks := InodeMarks(inodes, g * m.ipg, m.ipg);
    Rotated(marks);
    assert InodeBits(raw, m, g) == marks[1..] + [marks[0]];
  }

  lemma SlotsAreMarks(m: Geometry, inodes: map<nat, Inode>, g: nat)
    requires 0 < m.ipg
    ensures CountUsed(DirSlots(m, inodes, g)) == CountUsed(Directories(inodes, g * m.ipg, m.ipg))
  {
    hide CountUsed;
    var marks := Directories(inodes, g * m.ipg, m.ipg);
    Rotated(marks);
    assert DirSlots(m, inodes, g) == marks[1..] + [marks[0]];
  }

  lemma MarksAdd(inodes: map<nat, Inode>, k: nat, n: nat)
    ensures FreeInodes(inodes, 0, k + n) == FreeInodes(inodes, 0, k) + FreeInodes(inodes, k, n)
  {
    hide Marked, CountUsed;
    var all := InodeMarks(inodes, 0, k + n);
    CountConcat(all, k, k + n);
    assert all[..k + n] == all && all[..k] == InodeMarks(inodes, 0, k) && all[k..k + n] == InodeMarks(inodes, k, n);
  }

  lemma {:induction false} BitmapsAdd(raw: seq<Byte>, m: Geometry, inodes: map<nat, Inode>, n: nat)
    requires 0 < m.ipg && forall g: nat :: g < n ==> InodeBitmapLies(raw, m, g, inodes)
    ensures ClearInodes(raw, m, n) == FreeInodes(inodes, 0, n * m.ipg)
  {
    hide InodeBitmapLies, InodeBits, CountUsed, InodeMarks;
    if n == 0 {
      CountUsedBound(InodeMarks(inodes, 0, 0));
    } else {
      BitmapsAdd(raw, m, inodes, n - 1);
      BitsAreMarks(raw, m, inodes, n - 1);
      MarksAdd(inodes, (n - 1) * m.ipg, m.ipg);
      assert n * m.ipg == (n - 1) * m.ipg + m.ipg;
    }
  }
}
