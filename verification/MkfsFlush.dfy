/** The bytes of the metadata that flush writes, and how the driver finds them again. */
module MkfsFlushes {
  import opened Bytes
  import opened BitCounts
  import opened Ext2Layout
  import opened MkfsCounts
  import Sp = Ext2Space

  const INODE_SIZE := 128
  /** The superblock lies at byte 1024 and has 1024 bytes. */
  const SUPER := 1024

  /** What is asked of the builder: blocks in all, blocks per group, inodes per group. */
  datatype Geometry = Geometry(total: nat, perGroup: nat, ipg: nat)

  predicate GeometryOk(m: Geometry) { 0 < m.perGroup <= 0x8000 && 0 < m.total <= 0x8000_0000 && 0 < m.ipg }

  function NumGroups(m: Geometry): nat
    requires m.perGroup > 0
  {
    (m.total + m.perGroup - 1) / m.perGroup
  }

  /** IT_BLOCKS, rounded down. */
  function TableBlocks(ipg: nat): nat { ipg * INODE_SIZE / BLK }

  function DescFor(m: Geometry, g: nat): Desc { DescOf(g, m.perGroup) }

  // ---------------------------------------------------------------------------------------------
  // Where things lie
  // ---------------------------------------------------------------------------------------------

  predicate Disjoint(a: nat, n: nat, b: nat, k: nat) { a + n <= b || b + k <= a }

  function GdtByte(): nat { GdtStart() * BLK }

  /** The bytes of the descriptor table that flush writes. */
  function GdtSize(groups: nat): nat { if groups > 32 then DESC_SIZE * groups else 1024 }

  function DescLimit(): nat { if BLK == 2048 then 64 else 32 }

  /** The descriptor table stays apart from the superblock, and from the bitmap of group 0 behind its first
      block, exactly up to 32 groups, or 64 with blocks of 2048 bytes. */
  lemma TableApartIff(groups: nat)
    ensures (Disjoint(GdtByte(), GdtSize(groups), SUPER, 1024) && GdtByte() + GdtSize(groups) <= DescOf(0, 1).bb * BLK)
            <==> groups <= DescLimit()
  {
    if BLK == 1024 {
      assert GdtByte() == 2048 && DescOf(0, 1).bb * BLK == 3072;
    } else if BLK == 2048 {
      assert GdtByte() == 2048 && DescOf(0, 1).bb * BLK == 4096;
    } else {
      assert GdtByte() == 0 && DescOf(0, 1).bb * BLK == 4096;
    }
  }

  /** Every group has room for its metadata. */
  predicate Roomy(m: Geometry) { m.perGroup > 0 && (NumGroups(m) == 1 || GdtStart() + 3 + TableBlocks(m.ipg) <= m.perGroup) }

  lemma DivisionIs(n: nat, p: nat, q: nat, r: nat)
    requires 0 < p && n == q * p + r && r < p
    ensures n / p == q && n % p == r
  {
    var d := n / p;
    assert n == d * p + n % p;
    if d < q { Sp.MulLe(p, d + 1, q); } else if d > q { Sp.MulLe(p, q + 1, d); }
  }

  /** The group of an inode, as the driver computes it and as flush does. */
  lemma GroupOfInode(ipg: nat, ino: nat)
    requires 0 < ipg && 0 < ino
    ensures ino % ipg != 0 ==> (ino - 1) / ipg == ino / ipg && (ino - 1) % ipg == ino % ipg - 1
    ensures ino % ipg == 0 ==> ino / ipg > 0 && (ino - 1) / ipg == ino / ipg - 1 && (ino - 1) % ipg == ipg - 1
  {
    var q, r := ino / ipg, ino % ipg;
    assert ino == q * ipg + r;
    if r != 0 {
      DivisionIs(ino - 1, ipg, q, r - 1);
    } else {
      assert q == 0 ==> q * ipg == 0;
      assert ino - 1 == (q - 1) * ipg + (ipg - 1);
      DivisionIs(ino - 1, ipg, q - 1, ipg - 1);
    }
  }

  /** The slots of a group fill its table exactly when they are whole blocks; otherwise the last ones lie in
      the block behind it. */
  lemma TablesFitIff(ipg: nat)
    ensures ipg * INODE_SIZE <= TableBlocks(ipg) * BLK <==> ipg * INODE_SIZE % BLK == 0
    ensures ipg * INODE_SIZE < (TableBlocks(ipg) + 1) * BLK
  {
    var n := ipg * INODE_SIZE;
    assert n == n / BLK * BLK + n % BLK;
  }

  /** One hundred inodes per group in blocks of 4096 bytes: the last slot is in no block of the table. */
  lemma SlotBehindTable(m: Geometry)
    requires m.perGroup == 8192 && m.ipg == 100 && BLK == 4096
    ensures TableBlocks(m.ipg) == 3 && DescFor(m, 0).it * BLK + 99 * INODE_SIZE >= (DescFor(m, 0).it + TableBlocks(m.ipg)) * BLK
  {
  }

  /** The metadata of one group ends before that of the next begins exactly when every group is roomy. */
  lemma AreasApartIff(m: Geometry)
    requires GeometryOk(m)
    ensures (forall g: nat, h: nat :: g < h < NumGroups(m) ==> DescFor(m, g).it + TableBlocks(m.ipg) <= DescFor(m, h).bb) <==> Roomy(m)
  {
    hide NumGroups, TableBlocks, DescFor;
    if Roomy(m) {
      forall g: nat, h: nat | g < h < NumGroups(m) ensures DescFor(m, g).it + TableBlocks(m.ipg) <= DescFor(m, h).bb {
        AreasApart(m, g, h);
      }
    } else if NumGroups(m) > 1 {
      assert DescFor(m, 0).it == GdtStart() + 3 && DescFor(m, 1).bb == m.perGroup by { FirstTwo(m); }
    } else {
      SomeGroup(m);
    }
  }

  lemma FirstTwo(m: Geometry)
    ensures DescFor(m, 0).it == GdtStart() + 3 && DescFor(m, 1).bb == m.perGroup
  {
  }

  lemma SomeGroup(m: Geometry)
    requires GeometryOk(m)
    ensures NumGroups(m) > 0
  {
    Sp.DivAtLeast(m.total + m.perGroup - 1, m.perGroup, 1);
  }

  lemma AreasApart(m: Geometry, g: nat, h: nat)
    requires GeometryOk(m) && Roomy(m) && g < h < NumGroups(m)
    ensures DescFor(m, g).it + TableBlocks(m.ipg) <= DescFor(m, h).bb
  {
    hide NumGroups, TableBlocks;
    assert (g + 1) * m.perGroup == g * m.perGroup + m.perGroup;
    Sp.MulLe(m.perGroup, g + 1, h);
  }

  // ---------------------------------------------------------------------------------------------
  // Bits
  // ---------------------------------------------------------------------------------------------

  predicate Bit(b: nat, j: nat) { if j == 0 then b % 2 == 1 else Bit(b / 2, j - 1) }

  /** `b` with bit `j` set. */
  function WithBit(b: nat, j: nat): nat { if j == 0 then b / 2 * 2 + 1 else b % 2 + 2 * WithBit(b / 2, j - 1) }

  function Pow2(n: nat): nat { if n == 0 then 1 else 2 * Pow2(n - 1) }

  lemma {:induction false} WithBitFits(b: nat, j: nat, n: nat)
    requires j < n && b < Pow2(n)
    ensures WithBit(b, j) < Pow2(n)
  {
    if j > 0 { WithBitFits(b / 2, j - 1, n - 1); }
  }

  lemma {:induction false} BitWithBit(b: nat, j: nat, k: nat)
    ensures Bit(WithBit(b, j), k) == (k == j || Bit(b, k))
  {
    if j > 0 && k > 0 { BitWithBit(b / 2, j - 1, k - 1); }
  }

  lemma ByteWithBit(b: Byte, j: nat)
    requires j < 8
    ensures WithBit(b, j) < 256
  {
    assert Pow2(8) == 256;
    WithBitFits(b, j, 8);
  }

  predicate BitAt(s: seq<Byte>, k: nat) { k / 8 < |s| && Bit(s[k / 8], k % 8) }

  lemma {:induction false} NoBit(k: nat)
    ensures !Bit(0, k)
  {
    if k > 0 { NoBit(k - 1); }
  }

  /** A bitmap block with these marks. */
  method BitmapBlock(marks: seq<bool>) returns (s: seq<Byte>)
    requires |marks| <= 8 * BLK
    ensures |s| == BLK && forall k :: 0 <= k < |marks| ==> BitAt(s, k) == marks[k]
  {
    hide Bit, WithBit;
    s := Zeros();
    forall k: nat ensures !BitAt(s, k) { NoBit(k % 8); }
    for i := 0 to |marks|
      invariant |s| == BLK && forall k: nat :: k < 8 * BLK ==> BitAt(s, k) == (k < i && marks[k])
    {
      if marks[i] {
        ghost var before := s;
        ByteWithBit(s[i / 8], i % 8);
        s := s[i / 8 := WithBit(s[i / 8], i % 8)];
        forall k: nat | k < 8 * BLK ensures BitAt(s, k) == (k < i + 1 && marks[k]) {
          assert BitAt(before, k) == (k < i && marks[k]);
          if k / 8 == i / 8 { BitWithBit(before[i / 8], i % 8, k % 8); }
        }
      }
    }
  }

  // ---------------------------------------------------------------------------------------------
  // Records of 32-bit words
  // ---------------------------------------------------------------------------------------------

  function Digit(v: nat, i: nat): Byte
    requires i < 4
  {
    [v % 256, v / 256 % 256, v / 0x1_0000 % 256, v / 0x100_0000 % 256][i]
  }

  function Words(ws: seq<nat>): (s: seq<Byte>)
    ensures |s| == 4 * |ws|
  {
    seq(4 * |ws|, i requires 0 <= i < 4 * |ws| => Digit(ws[i / 4], i % 4))
  }

  lemma WordAt(ws: seq<nat>, k: nat)
    requires k < |ws| && ws[k] < U32
    ensures Rd32(Words(ws), 4 * k) == ws[k]
  {
    FourDigits(ws[k]);
  }

  /** The bytes at `pos`. */
  ghost predicate Lies(raw: seq<Byte>, pos: nat, bs: seq<Byte>) { pos + |bs| <= |raw| && raw[pos..pos + |bs|] == bs }

  lemma WordLies(raw: seq<Byte>, pos: nat, ws: seq<nat>, cut: nat, k: nat)
    requires cut <= 4 * |ws| && Lies(raw, pos, Words(ws)[..cut]) && 4 * k + 4 <= cut && ws[k] < U32
    ensures pos + 4 * k + 4 <= |raw| && Rd32(raw, pos + 4 * k) == ws[k]
  {
    hide Words;
    WordAt(ws, k);
    var bs := Words(ws)[..cut];
    var at := pos + 4 * k;
    assert bs[4 * k] == raw[at] && bs[4 * k + 1] == raw[at + 1] && bs[4 * k + 2] == raw[at + 2] && bs[4 * k + 3] == raw[at + 3];
  }

  lemma HalfWords(raw: seq<Byte>, pos: nat)
    requires pos + 4 <= |raw|
    ensures Rd16(raw, pos) == Rd32(raw, pos) % 0x1_0000 && Rd16(raw, pos + 2) == Rd32(raw, pos) / 0x1_0000
  {
  }

  // ---------------------------------------------------------------------------------------------
  // Inodes
  // ---------------------------------------------------------------------------------------------

  /** The mode of a new file: its type and its permissions. */
  function ModeOf(t: FileType): nat {
    match t
    case Regular => 0x8000 + 0x1ED
    case Directory => 0x4000 + 0x1ED
    case Symlink => 0xA000 + 0x1FF
    case Other => 0
  }

  function TypeOf(mode: nat): FileType {
    if mode / 0x1000 == 8 then Regular else if mode / 0x1000 == 4 then Directory else if mode / 0x1000 == 10 then Symlink else Other
  }

  /** An inode that can be written and read back. */
  predicate Packs(n: Inode) { FieldsFit(n) && n.ftype != Other }

  /** An inode on disk: mode, size, four times, link count, sector count, flags, fifteen block numbers, zeros. */
  function InodeWords(n: Inode): (ws: seq<nat>)
    requires InodeOk(n)
    ensures |ws| == 32
  {
    var links := if n.ftype == Directory then 2 else 1;
    [ModeOf(n.ftype), n.size, 0, 0, 0, 0, links * 0x1_0000, n.blocks, 0, 0] + n.block + [0, 0, 0, 0, 0, 0, 0]
  }

  /** The inode at `pos`, as the driver reads it. */
  function InodeAt(s: seq<Byte>, pos: nat): Inode
    requires pos + INODE_SIZE <= |s|
  {
    Inode(TypeOf(Rd16(s, pos)), Rd32(s, pos + 4), seq(15, k requires 0 <= k < 15 => Rd32(s, pos + 40 + 4 * k)), Rd32(s, pos + 28))
  }

  lemma InodeReads(s: seq<Byte>, pos: nat, n: Inode)
    requires Packs(n) && Lies(s, pos, Words(InodeWords(n)))
    ensures pos + INODE_SIZE <= |s| && InodeAt(s, pos) == n
  {
    hide Words, Rd32, Rd16, Lies;
    var ws := InodeWords(n);
    assert |Words(ws)| == 128;
    assert Words(ws)[..128] == Words(ws);
    WordLies(s, pos, ws, 128, 31);
    WordLies(s, pos, ws, 128, 0);
    HalfWords(s, pos);
    WordLies(s, pos, ws, 128, 1);
    WordLies(s, pos, ws, 128, 7);
    forall k | 0 <= k < 15 ensures Rd32(s, pos + 40 + 4 * k) == n.block[k] {
      assert ws[10 + k] == n.block[k];
      WordLies(s, pos, ws, 128, 10 + k);
    }
  }

  /** The slot of an inode number; an unused one is all zeros. */
  function SlotBytes(inodes: map<nat, Inode>, i: nat): (s: seq<Byte>)
    ensures |s| == INODE_SIZE
  {
    if i in inodes && InodeOk(inodes[i]) then Words(InodeWords(inodes[i])) else seq(INODE_SIZE, _ => 0)
  }

  // ---------------------------------------------------------------------------------------------
  // Superblock and descriptors
  // ---------------------------------------------------------------------------------------------

  function LogBlock(): nat { if BLK == 1024 then 0 else if BLK == 2048 then 1 else 2 }

  predicate Marked(inodes: map<nat, Inode>, i: nat) { i < 12 || i in inodes }

  function InodeMarks(inodes: map<nat, Inode>, lo: nat, n: nat): (s: seq<bool>)
    ensures |s| == n
  {
    seq(n, r requires 0 <= r < n => Marked(inodes, lo + r))
  }

  function Directories(inodes: map<nat, Inode>, lo: nat, n: nat): (s: seq<bool>)
    ensures |s| == n
  {
    seq(n, r requires 0 <= r < n => lo + r in inodes && inodes[lo + r].ftype == Directory)
  }

  /** The counters of a new image: free blocks of every group and in all. */
  datatype Counts = Counts(free: seq<nat>, total: nat)

  function FreeOf(c: Counts, g: nat): nat { if g < |c.free| then c.free[g] else 0 }

  function FreeInodes(inodes: map<nat, Inode>, lo: nat, n: nat): (f: nat)
    ensures f <= n
  {
    CountUsedBound(InodeMarks(inodes, lo, n));
    n - CountUsed(InodeMarks(inodes, lo, n))
  }

  function SuperWords(m: Geometry, inodes: map<nat, Inode>, c: Counts): (ws: seq<nat>)
    requires GeometryOk(m)
    ensures |ws| == 256
  {
    var all := NumGroups(m) * m.ipg;
    [all, m.total, 0, c.total, FreeInodes(inodes, 0, all), if BLK >= 2048 then 0 else 1, LogBlock(), LogBlock(), m.perGroup, m.perGroup, m.ipg,
     0, 0, 0, 0xEF53 + 0x1_0000, 0, 0, 0, 0, 1, 0, 11, INODE_SIZE] + seq(233, _ => 0)
  }

  /** The words of the descriptor of group `g`: bitmaps and table, free blocks and free inodes, directories. */
  function DescWord(m: Geometry, inodes: map<nat, Inode>, c: Counts, g: nat, k: nat): nat {
    if k == 0 then DescFor(m, g).bb
    else if k == 1 then DescFor(m, g).ib
    else if k == 2 then DescFor(m, g).it
    else if k == 3 then FreeOf(c, g) + 0x1_0000 * FreeInodes(inodes, g * m.ipg, m.ipg)
    else if k == 4 then CountUsed(Directories(inodes, g * m.ipg, m.ipg))
    else 0
  }

  function GdtWords(m: Geometry, inodes: map<nat, Inode>, c: Counts): (ws: seq<nat>)
    requires GeometryOk(m)
    ensures 4 * |ws| == GdtSize(NumGroups(m))
  {
    var n := NumGroups(m);
    seq(if n > 32 then 8 * n else 256, i requires 0 <= i => if i / 8 < n then DescWord(m, inodes, c, i / 8, i % 8) else 0)
  }

  // ---------------------------------------------------------------------------------------------
  // Blocks of the image
  // ---------------------------------------------------------------------------------------------

  /** Block `b` of the image, as the driver reads it. */
  function BlockAt(raw: seq<Byte>, b: nat): (s: seq<Byte>)
    ensures |s| == BLK
  {
    if b * BLK + BLK <= |raw| then raw[b * BLK..b * BLK + BLK] else Zeros()
  }

  /** `t` differs from `s` at most in the `n` bytes at `a`. */
  ghost predicate Within(s: seq<Byte>, t: seq<Byte>, a: nat, n: nat) {
    |s| == |t| && forall i :: 0 <= i < |s| && !(a <= i < a + n) ==> t[i] == s[i]
  }

  lemma OverWithin(s: seq<Byte>, at: nat, src: seq<Byte>, a: nat, n: nat)
    requires at + |src| <= |s| && a <= at && at + |src| <= a + n
    ensures Within(s, Over(s, at, src), a, n) && Lies(Over(s, at, src), at, src)
  {
  }

  lemma WithinTwice(s: seq<Byte>, t: seq<Byte>, u: seq<Byte>, a: nat, n: nat)
    requires Within(s, t, a, n) && Within(t, u, a, n)
    ensures Within(s, u, a, n)
  {
  }

  lemma StillLies(s: seq<Byte>, t: seq<Byte>, a: nat, n: nat, pos: nat, bs: seq<Byte>)
    requires Lies(s, pos, bs) && Within(s, t, a, n) && Disjoint(a, n, pos, |bs|)
    ensures Lies(t, pos, bs)
  {
    forall i | 0 <= i < |bs| ensures t[pos + i] == bs[i] {
      assert s[pos..pos + |bs|][i] == s[pos + i];
    }
  }

  lemma BlockLies(raw: seq<Byte>, b: nat, bs: seq<Byte>)
    requires |bs| == BLK && Lies(raw, b * BLK, bs)
    ensures BlockAt(raw, b) == bs
  {
  }

  lemma LiesBlock(raw: seq<Byte>, b: nat)
    requires b * BLK + BLK <= |raw|
    ensures Lies(raw, b * BLK, BlockAt(raw, b))
  {
  }

  lemma Scaled(a: nat, b: nat)
    ensures a <= b ==> a * BLK <= b * BLK
    ensures (a + b) * BLK == a * BLK + b * BLK
  {
    if a <= b { Sp.MulLe(BLK, a, b); }
  }

  // ---------------------------------------------------------------------------------------------
  // The metadata of a group
  // ---------------------------------------------------------------------------------------------

  /** What flush needs to get through, with the metadata of the groups apart. */
  predicate Flushable(m: Geometry) {
    && GeometryOk(m) && m.perGroup <= 8 * BLK && m.ipg <= 8 * BLK && NumGroups(m) * m.ipg < U32
    && m.ipg * INODE_SIZE % BLK == 0 && Roomy(m) && GdtStart() + GdtBlocks(NumGroups(m)) <= m.total
    && forall g: nat :: g < NumGroups(m) ==> DescFor(m, g).it + TableBlocks(m.ipg) <= m.total
  }

  /** The first byte of the metadata of group `g`, and how many bytes it has. */
  function AreaStart(m: Geometry, g: nat): nat { DescFor(m, g).bb * BLK }

  function AreaSize(m: Geometry): nat { 2 * BLK + m.ipg * INODE_SIZE }

  function GroupEnd(m: Geometry, g: nat): nat {
    if g * m.perGroup + m.perGroup < m.total then g * m.perGroup + m.perGroup else m.total
  }

  /** The block bitmap of group `g`. */
  ghost predicate BitmapLies(raw: seq<Byte>, m: Geometry, g: nat, used: seq<bool>) {
    forall x :: g * m.perGroup <= x < GroupEnd(m, g) && x < |used| ==> BitAt(BlockAt(raw, DescFor(m, g).bb), x - g * m.perGroup) == used[x]
  }

  /** The inode that flush writes into slot `j` of group `g`. */
  function InodeInSlot(m: Geometry, g: nat, j: nat): nat { if j + 1 < m.ipg then g * m.ipg + j + 1 else g * m.ipg }

  ghost predicate InodeBitmapLies(raw: seq<Byte>, m: Geometry, g: nat, inodes: map<nat, Inode>) {
    forall j :: 0 <= j < m.ipg ==> BitAt(BlockAt(raw, DescFor(m, g).ib), j) == Marked(inodes, InodeInSlot(m, g, j))
  }

  /** Slot `j` of group `g`; inode 0 is not written. */
  ghost predicate SlotLies(raw: seq<Byte>, m: Geometry, g: nat, inodes: map<nat, Inode>, j: nat) {
    InodeInSlot(m, g, j) > 0 ==> Lies(raw, DescFor(m, g).it * BLK + j * INODE_SIZE, SlotBytes(inodes, InodeInSlot(m, g, j)))
  }

  ghost predicate GroupLies(raw: seq<Byte>, m: Geometry, g: nat, used: seq<bool>, inodes: map<nat, Inode>) {
    && AreaStart(m, g) + AreaSize(m) <= |raw|
    && BitmapLies(raw, m, g, used) && InodeBitmapLies(raw, m, g, inodes) && forall j: nat :: j < m.ipg ==> SlotLies(raw, m, g, inodes, j)
  }

  lemma AreaParts(m: Geometry, g: nat)
    ensures DescFor(m, g).ib * BLK == AreaStart(m, g) + BLK && DescFor(m, g).it * BLK == AreaStart(m, g) + 2 * BLK
  {
    var b := DescFor(m, g).bb;
    Scaled(b, 1);
    Scaled(b, 2);
  }

  /** What is written elsewhere leaves the group alone. */
  lemma GroupStays(s: seq<Byte>, t: seq<Byte>, a: nat, n: nat, m: Geometry, g: nat, used: seq<bool>, inodes: map<nat, Inode>)
    requires GroupLies(s, m, g, used, inodes) && Within(s, t, a, n) && Disjoint(a, n, AreaStart(m, g), AreaSize(m))
    ensures GroupLies(t, m, g, used, inodes)
  {
    hide BitAt, DescFor, SlotBytes, Lies, BlockAt, InodeInSlot, Marked, Within;
    AreaParts(m, g);
    var d := DescFor(m, g);
    BlockStays(s, t, a, n, d.bb);
    BlockStays(s, t, a, n, d.ib);
    assert BitmapLies(t, m, g, used);
    forall j: nat | j < m.ipg ensures SlotLies(t, m, g, inodes, j) {
      assert SlotLies(s, m, g, inodes, j);
      if InodeInSlot(m, g, j) > 0 {
        StillLies(s, t, a, n, d.it * BLK + j * INODE_SIZE, SlotBytes(inodes, InodeInSlot(m, g, j)));
      }
    }
    SameLength(s, t, a, n);
  }

  lemma SameLength(s: seq<Byte>, t: seq<Byte>, a: nat, n: nat)
    requires Within(s, t, a, n)
    ensures |s| == |t|
  {
  }

  lemma BlockStays(s: seq<Byte>, t: seq<Byte>, a: nat, n: nat, b: nat)
    requires Within(s, t, a, n) && Disjoint(a, n, b * BLK, BLK)
    ensures BlockAt(t, b) == BlockAt(s, b)
  {
    if b * BLK + BLK <= |s| {
      LiesBlock(s, b);
      StillLies(s, t, a, n, b * BLK, BlockAt(s, b));
      BlockLies(t, b, BlockAt(s, b));
    }
  }

  lemma TableSize(m: Geometry)
    requires m.ipg * INODE_SIZE % BLK == 0
    ensures TableBlocks(m.ipg) * BLK == m.ipg * INODE_SIZE
  {
    var n := m.ipg * INODE_SIZE;
    assert n == n / BLK * BLK + n % BLK;
  }

  lemma AreaFits(m: Geometry, g: nat)
    requires Flushable(m) && g < NumGroups(m)
    ensures AreaStart(m, g) + AreaSize(m) <= m.total * BLK
  {
    hide NumGroups, TableBlocks, DescFor, Roomy;
    var d, t := DescFor(m, g), TableBlocks(m.ipg);
    TableSize(m);
    AreaParts(m, g);
    Scaled(d.it, t);
    Scaled(d.it + t, m.total);
  }

  lemma GroupInside(m: Geometry, g: nat)
    requires GeometryOk(m) && g < NumGroups(m)
    ensures g * m.perGroup < GroupEnd(m, g) <= m.total && GroupEnd(m, g) - g * m.perGroup <= m.perGroup
  {
    FirstOfGroup(m.total, m.perGroup, g);
  }

  lemma BitmapsWritten(s: seq<Byte>, s1: seq<Byte>, s2: seq<Byte>, m: Geometry, g: nat, used: seq<bool>, inodes: map<nat, Inode>,
                       blocks: seq<Byte>, numbers: seq<Byte>)
    requires |blocks| == |numbers| == BLK && AreaStart(m, g) + AreaSize(m) <= |s|
    requires DescFor(m, g).bb * BLK + BLK <= |s| && s1 == Over(s, DescFor(m, g).bb * BLK, blocks)
    requires DescFor(m, g).ib * BLK + BLK <= |s| && s2 == Over(s1, DescFor(m, g).ib * BLK, numbers)
    requires forall x :: g * m.perGroup <= x < GroupEnd(m, g) && x < |used| ==> BitAt(blocks, x - g * m.perGroup) == used[x]
    requires forall j :: 0 <= j < m.ipg ==> BitAt(numbers, j) == Marked(inodes, InodeInSlot(m, g, j))
    ensures Within(s, s2, AreaStart(m, g), AreaSize(m)) && BitmapLies(s2, m, g, used) && InodeBitmapLies(s2, m, g, inodes)
  {
    hide BitAt, DescFor, Lies, BlockAt, InodeInSlot, Marked, Within, Over;
    var d := DescFor(m, g);
    AreaParts(m, g);
    OverWithin(s, d.bb * BLK, blocks, AreaStart(m, g), AreaSize(m));
    OverWithin(s1, d.ib * BLK, numbers, AreaStart(m, g), AreaSize(m));
    OverWithin(s1, d.ib * BLK, numbers, d.ib * BLK, BLK);
    WithinTwice(s, s1, s2, AreaStart(m, g), AreaSize(m));
    StillLies(s1, s2, d.ib * BLK, BLK, d.bb * BLK, blocks);
    BlockLies(s2, d.bb, blocks);
    BlockLies(s2, d.ib, numbers);
  }

  /** The inodes of a group go into its table one after the other. */
  method WriteSlots(raw: array<Byte>, m: Geometry, g: nat, inodes: map<nat, Inode>)
    requires 0 < m.ipg && DescFor(m, g).it * BLK + m.ipg * INODE_SIZE <= raw.Length
    modifies raw
    ensures Within(old(raw[..]), raw[..], DescFor(m, g).it * BLK, m.ipg * INODE_SIZE)
    ensures forall j: nat :: j < m.ipg ==> SlotLies(raw[..], m, g, inodes, j)
  {
    hide DescFor, SlotBytes, Lies, Within, Over, SlotLies;
    ghost var s := raw[..];
    var table := DescFor(m, g).it * BLK;
    WithinSelf(s, table, m.ipg * INODE_SIZE);
    for r := 0 to m.ipg
      invariant Within(s, raw[..], table, m.ipg * INODE_SIZE)
      invariant forall j: nat :: j < m.ipg && InodeInSlot(m, g, j) < g * m.ipg + r ==> SlotLies(raw[..], m, g, inodes, j)
    {
      var ino := g * m.ipg + r;
      if ino > 0 {
        var local := (ino - 1) % m.ipg;
        LocalSlot(m, g, r);
        ghost var before := raw[..];
        CopyIn(raw, table + local * INODE_SIZE, SlotBytes(inodes, ino));
        SlotWrittenInto(s, before, raw[..], m, g, inodes, local, r);
      } else {
        forall j: nat | j < m.ipg && InodeInSlot(m, g, j) < 1 ensures SlotLies(raw[..], m, g, inodes, j) { SlotOfNone(raw[..], m, g, inodes, j); }
      }
    }
  }

  lemma WithinSelf(s: seq<Byte>, a: nat, n: nat)
    ensures Within(s, s, a, n)
  {
  }

  lemma SlotOfNone(raw: seq<Byte>, m: Geometry, g: nat, inodes: map<nat, Inode>, j: nat)
    requires InodeInSlot(m, g, j) == 0
    ensures SlotLies(raw, m, g, inodes, j)
  {
  }

  lemma LocalSlot(m: Geometry, g: nat, r: nat)
    requires r < m.ipg && g * m.ipg + r > 0
    ensures var local := (g * m.ipg + r - 1) % m.ipg;
            local < m.ipg && InodeInSlot(m, g, local) == g * m.ipg + r
  {
    if r > 0 {
      DivisionIs(g * m.ipg + r - 1, m.ipg, g, r - 1);
    } else {
      assert g > 0 by { assert g == 0 ==> g * m.ipg == 0; }
      assert g * m.ipg == (g - 1) * m.ipg + m.ipg;
      DivisionIs(g * m.ipg - 1, m.ipg, g - 1, m.ipg - 1);
    }
  }

  lemma SlotWrittenInto(s: seq<Byte>, before: seq<Byte>, t: seq<Byte>, m: Geometry, g: nat, inodes: map<nat, Inode>, local: nat, r: nat)
    requires r < m.ipg && local < m.ipg && InodeInSlot(m, g, local) == g * m.ipg + r
    requires |before| == |s| && DescFor(m, g).it * BLK + m.ipg * INODE_SIZE <= |s|
    requires t == Over(before, DescFor(m, g).it * BLK + local * INODE_SIZE, SlotBytes(inodes, g * m.ipg + r))
    requires Within(s, before, DescFor(m, g).it * BLK, m.ipg * INODE_SIZE)
    requires forall j: nat :: j < m.ipg && InodeInSlot(m, g, j) < g * m.ipg + r ==> SlotLies(before, m, g, inodes, j)
    ensures Within(s, t, DescFor(m, g).it * BLK, m.ipg * INODE_SIZE)
    ensures forall j: nat :: j < m.ipg && InodeInSlot(m, g, j) < g * m.ipg + r + 1 ==> SlotLies(t, m, g, inodes, j)
  {
    hide DescFor, SlotBytes, Lies, Within, Over;
    var table := DescFor(m, g).it * BLK;
    var at, bs := table + local * INODE_SIZE, SlotBytes(inodes, g * m.ipg + r);
    OverWithin(before, at, bs, table, m.ipg * INODE_SIZE);
    OverWithin(before, at, bs, at, INODE_SIZE);
    WithinTwice(s, before, t, table, m.ipg * INODE_SIZE);
    forall j: nat | j < m.ipg && InodeInSlot(m, g, j) < g * m.ipg + r + 1 ensures SlotLies(t, m, g, inodes, j) {
      if j != local && InodeInSlot(m, g, j) > 0 {
        assert SlotLies(before, m, g, inodes, j);
        StillLies(before, t, at, INODE_SIZE, table + j * INODE_SIZE, SlotBytes(inodes, InodeInSlot(m, g, j)));
      }
    }
  }

  lemma SlotsAfterBitmaps(s: seq<Byte>, s2: seq<Byte>, t: seq<Byte>, m: Geometry, g: nat, used: seq<bool>, inodes: map<nat, Inode>)
    requires AreaStart(m, g) + AreaSize(m) <= |s| && Within(s, s2, AreaStart(m, g), AreaSize(m))
    requires BitmapLies(s2, m, g, used) && InodeBitmapLies(s2, m, g, inodes)
    requires Within(s2, t, DescFor(m, g).it * BLK, m.ipg * INODE_SIZE) && forall j: nat :: j < m.ipg ==> SlotLies(t, m, g, inodes, j)
    ensures Within(s, t, AreaStart(m, g), AreaSize(m)) && GroupLies(t, m, g, used, inodes)
  {
    hide BitAt, DescFor, SlotLies, BlockAt, InodeInSlot, Marked, Within;
    var d := DescFor(m, g);
    AreaParts(m, g);
    BlockStays(s2, t, d.it * BLK, m.ipg * INODE_SIZE, d.bb);
    BlockStays(s2, t, d.it * BLK, m.ipg * INODE_SIZE, d.ib);
    WithinWider(s2, t, d.it * BLK, m.ipg * INODE_SIZE, AreaStart(m, g), AreaSize(m));
    WithinTwice(s, s2, t, AreaStart(m, g), AreaSize(m));
    SameLength(s, t, AreaStart(m, g), AreaSize(m));
  }

  lemma WithinWider(s: seq<Byte>, t: seq<Byte>, a: nat, n: nat, b: nat, k: nat)
    requires Within(s, t, a, n) && b <= a && a + n <= b + k
    ensures Within(s, t, b, k)
  {
  }

  method WriteBitmaps(raw: array<Byte>, m: Geometry, g: nat, used: seq<bool>, inodes: map<nat, Inode>)
    requires g * m.perGroup <= GroupEnd(m, g) <= |used| && GroupEnd(m, g) - g * m.perGroup <= 8 * BLK && m.ipg <= 8 * BLK
    requires AreaStart(m, g) + AreaSize(m) <= raw.Length
    modifies raw
    ensures Within(old(raw[..]), raw[..], AreaStart(m, g), AreaSize(m))
    ensures BitmapLies(raw[..], m, g, used) && InodeBitmapLies(raw[..], m, g, inodes)
  {
    hide BitAt, DescFor, BlockAt, InodeInSlot, Marked, Within, Over, BitmapLies, InodeBitmapLies, GroupEnd;
    ghost var s0 := raw[..];
    var d := DescFor(m, g);
    AreaParts(m, g);
    var base, end := g * m.perGroup, GroupEnd(m, g);
    var blocks := BitmapBlock(used[base..end]);
    CopyIn(raw, d.bb * BLK, blocks);
    ghost var s1 := raw[..];
    var marks := seq(m.ipg, j requires 0 <= j < m.ipg => Marked(inodes, InodeInSlot(m, g, j)));
    var numbers := BitmapBlock(marks);
    CopyIn(raw, d.ib * BLK, numbers);
    forall x | base <= x < end && x < |used| ensures BitAt(blocks, x - base) == used[x] { assert used[base..end][x - base] == used[x]; }
    BitmapsWritten(s0, s1, raw[..], m, g, used, inodes, blocks, numbers);
  }

  /** The bitmaps and the inode table of one group. */
  method WriteGroup(raw: array<Byte>, m: Geometry, g: nat, used: seq<bool>, inodes: map<nat, Inode>)
    requires Flushable(m) && g < NumGroups(m) && |used| == m.total && raw.Length == m.total * BLK
    modifies raw
    ensures Within(old(raw[..]), raw[..], AreaStart(m, g), AreaSize(m)) && GroupLies(raw[..], m, g, used, inodes)
  {
    hide DescFor, SlotLies, Within, NumGroups, BitmapLies, InodeBitmapLies, GroupLies, GroupEnd;
    ghost var s0 := raw[..];
    AreaParts(m, g);
    AreaFits(m, g);
    GroupInside(m, g);
    WriteBitmaps(raw, m, g, used, inodes);
    ghost var s2 := raw[..];
    WriteSlots(raw, m, g, inodes);
    SlotsAfterBitmaps(s0, s2, raw[..], m, g, used, inodes);
  }

  // ---------------------------------------------------------------------------------------------
  // Flushing
  // ---------------------------------------------------------------------------------------------

  /** How much of the descriptor table lies before the bitmap of group 0. */
  function Cut(m: Geometry): nat
    requires GeometryOk(m)
  {
    if GdtSize(NumGroups(m)) < BLK then GdtSize(NumGroups(m)) else BLK
  }

  /** Descriptors and superblock are there, as far as nothing was written over them. */
  ghost predicate HeadLies(raw: seq<Byte>, m: Geometry, inodes: map<nat, Inode>, c: Counts)
    requires GeometryOk(m)
  {
    && Lies(raw, GdtByte(), Words(GdtWords(m, inodes, c))[..Cut(m)])
    && (Disjoint(GdtByte(), GdtSize(NumGroups(m)), SUPER, 1024) ==> Lies(raw, SUPER, Words(SuperWords(m, inodes, c))))
  }

  predicate IsHead(m: Geometry, b: nat)
    requires GeometryOk(m)
  {
    InHead(NumGroups(m), b)
  }

  /** A block without metadata. */
  ghost predicate Apart(m: Geometry, b: nat)
    requires GeometryOk(m)
  {
    b < m.total && !IsHead(m, b) && forall g: nat :: g < NumGroups(m) ==> !IsMeta(DescFor(m, g), TableBlocks(m.ipg), b)
  }

  /** The bytes of the finished image. */
  ghost predicate ImageLies(raw: seq<Byte>, m: Geometry, img: Disk, used: seq<bool>, inodes: map<nat, Inode>, c: Counts) {
    && Flushable(m) && |raw| == m.total * BLK && HeadLies(raw, m, inodes, c)
    && (forall g: nat :: g < NumGroups(m) ==> GroupLies(raw, m, g, used, inodes))
    && forall b: nat :: Apart(m, b) ==> BlockAt(raw, b) == Get(img, b)
  }

  /** The blocks of the image before flush. */
  method Blocks(m: Geometry, img: Disk) returns (raw: array<Byte>)
    ensures fresh(raw) && raw.Length == m.total * BLK && forall b: nat :: b < m.total ==> BlockAt(raw[..], b) == Get(img, b)
  {
    hide BlockAt;
    raw := new Byte[m.total * BLK](i requires 0 <= i => Get(img, i / BLK)[i % BLK]);
    forall b: nat | b < m.total ensures BlockAt(raw[..], b) == Get(img, b) { ImageBlock(raw[..], m, img, b); }
  }

  /** Superblock and descriptor table. */
  method WriteHead(raw: array<Byte>, m: Geometry, inodes: map<nat, Inode>, c: Counts)
    requires Flushable(m) && raw.Length == m.total * BLK
    modifies raw
    ensures HeadLies(raw[..], m, inodes, c) && forall b: nat :: !IsHead(m, b) ==> BlockAt(raw[..], b) == BlockAt(old(raw[..]), b)
  {
    hide HeadLies, BlockAt, Words, GdtWords, SuperWords, Over, NumGroups, IsHead, Roomy;
    ghost var s0 := raw[..];
    HeadFits(m);
    CopyIn(raw, SUPER, Words(SuperWords(m, inodes, c)));
    ghost var s1 := raw[..];
    CopyIn(raw, GdtByte(), Words(GdtWords(m, inodes, c)));
    HeadWritten(s0, s1, raw[..], m, inodes, c);
    forall b: nat | !IsHead(m, b) ensures BlockAt(raw[..], b) == BlockAt(s0, b) {
      BehindHead(s0, s1, raw[..], m, inodes, c, b);
    }
  }

  /** flush: superblock, descriptor table, then the bitmaps and the inode table of every group, over the blocks of
      the files. */
  method Flush(m: Geometry, img: Disk, used: seq<bool>, inodes: map<nat, Inode>, c: Counts) returns (raw: array<Byte>)
    requires Flushable(m) && |used| == m.total
    ensures fresh(raw) && ImageLies(raw[..], m, img, used, inodes, c)
  {
    hide Within, HeadLies, GroupLies, BlockAt, Apart, IsHead, NumGroups, Roomy, Get;
    raw := Blocks(m, img);
    WriteHead(raw, m, inodes, c);
    forall b: nat | Apart(m, b) ensures BlockAt(raw[..], b) == Get(img, b) { ApartIs(m, b); }
    for g := 0 to NumGroups(m)
      invariant HeadLies(raw[..], m, inodes, c)
      invariant forall h: nat :: h < g ==> GroupLies(raw[..], m, h, used, inodes)
      invariant forall b: nat :: Apart(m, b) ==> BlockAt(raw[..], b) == Get(img, b)
    {
      ghost var before := raw[..];
      WriteGroup(raw, m, g, used, inodes);
      HeadStays(before, raw[..], m, inodes, c, g);
      forall h: nat | h < g ensures GroupLies(raw[..], m, h, used, inodes) { OtherGroupStays(before, raw[..], m, g, h, used, inodes); }
      forall b: nat | Apart(m, b) ensures BlockAt(raw[..], b) == Get(img, b) { DataStays(before, raw[..], m, g, b); }
    }
  }

  lemma ApartIs(m: Geometry, b: nat)
    requires GeometryOk(m) && Apart(m, b)
    ensures b < m.total && !IsHead(m, b)
  {
  }

  lemma HeadFits(m: Geometry)
    requires Flushable(m)
    ensures SUPER + 1024 <= m.total * BLK && GdtByte() + GdtSize(NumGroups(m)) <= m.total * BLK
    ensures GdtByte() + GdtSize(NumGroups(m)) <= (GdtStart() + GdtBlocks(NumGroups(m))) * BLK
  {
    hide NumGroups, Roomy, DescFor, TableBlocks;
    var n := NumGroups(m);
    HeadBlocks(n);
    Scaled(GdtStart() + GdtBlocks(n), m.total);
  }

  lemma HeadBlocks(n: nat)
    ensures GdtByte() + GdtSize(n) <= (GdtStart() + GdtBlocks(n)) * BLK && SUPER + 1024 <= (GdtStart() + GdtBlocks(n)) * BLK
    ensures GdtBlocks(n) > 0
  {
    var k := n * DESC_SIZE + BLK - 1;
    assert k == k / BLK * BLK + k % BLK;
    Scaled(GdtStart(), GdtBlocks(n));
    if n * DESC_SIZE > BLK { Sp.DivAtLeast(k, BLK, 1); }
    Scaled(1, GdtBlocks(n));
  }

  lemma HeadWritten(s0: seq<Byte>, s1: seq<Byte>, s2: seq<Byte>, m: Geometry, inodes: map<nat, Inode>, c: Counts)
    requires GeometryOk(m) && |s0| == m.total * BLK && SUPER + 1024 <= |s0| && s1 == Over(s0, SUPER, Words(SuperWords(m, inodes, c)))
    requires GdtByte() + GdtSize(NumGroups(m)) <= |s0| && s2 == Over(s1, GdtByte(), Words(GdtWords(m, inodes, c)))
    ensures HeadLies(s2, m, inodes, c)
  {
    hide Words, GdtWords, SuperWords, Over, Lies, NumGroups, Within;
    var super, gdt := Words(SuperWords(m, inodes, c)), Words(GdtWords(m, inodes, c));
    OverWithin(s0, SUPER, super, SUPER, 1024);
    OverWithin(s1, GdtByte(), gdt, GdtByte(), GdtSize(NumGroups(m)));
    LiesPart(s2, GdtByte(), gdt, Cut(m));
    if Disjoint(GdtByte(), GdtSize(NumGroups(m)), SUPER, 1024) {
      StillLies(s1, s2, GdtByte(), GdtSize(NumGroups(m)), SUPER, super);
    }
  }

  lemma LiesPart(raw: seq<Byte>, pos: nat, bs: seq<Byte>, n: nat)
    requires Lies(raw, pos, bs) && n <= |bs|
    ensures Lies(raw, pos, bs[..n])
  {
    assert raw[pos..pos + n] == raw[pos..pos + |bs|][..n];
  }

  lemma ImageBlock(s: seq<Byte>, m: Geometry, img: Disk, b: nat)
    requires |s| == m.total * BLK && b < m.total && forall i :: 0 <= i < |s| ==> s[i] == Get(img, i / BLK)[i % BLK]
    ensures BlockAt(s, b) == Get(img, b)
  {
    hide Get;
    Scaled(b, 1);
    Scaled(b + 1, m.total);
    forall k | 0 <= k < BLK ensures BlockAt(s, b)[k] == Get(img, b)[k] {
      DivisionIs(b * BLK + k, BLK, b, k);
    }
  }

  lemma BehindHead(s0: seq<Byte>, s1: seq<Byte>, s2: seq<Byte>, m: Geometry, inodes: map<nat, Inode>, c: Counts, b: nat)
    requires GeometryOk(m) && |s0| == m.total * BLK && SUPER + 1024 <= |s0| && s1 == Over(s0, SUPER, Words(SuperWords(m, inodes, c)))
    requires GdtByte() + GdtSize(NumGroups(m)) <= |s0| && s2 == Over(s1, GdtByte(), Words(GdtWords(m, inodes, c)))
    requires !IsHead(m, b)
    ensures BlockAt(s2, b) == BlockAt(s0, b)
  {
    hide Words, GdtWords, SuperWords, Over, Lies, NumGroups, Within, BlockAt, GdtBlocks;
    var n := NumGroups(m);
    HeadBlocks(n);
    HeadIsBefore(m, b);
    OverWithin(s0, SUPER, Words(SuperWords(m, inodes, c)), SUPER, 1024);
    OverWithin(s1, GdtByte(), Words(GdtWords(m, inodes, c)), GdtByte(), GdtSize(n));
    BlockStays(s0, s1, SUPER, 1024, b);
    BlockStays(s1, s2, GdtByte(), GdtSize(n), b);
  }

  lemma HeadIsBefore(m: Geometry, b: nat)
    requires GeometryOk(m) && !IsHead(m, b)
    ensures (GdtStart() + GdtBlocks(NumGroups(m))) * BLK <= b * BLK
  {
    hide NumGroups, GdtBlocks;
    assert 1024 / BLK <= 1;
    Scaled(GdtStart() + GdtBlocks(NumGroups(m)), b);
  }

  lemma AreasBehindHead(m: Geometry, g: nat)
    requires Flushable(m) && g < NumGroups(m)
    ensures GdtByte() + BLK <= AreaStart(m, g) && SUPER + 1024 <= AreaStart(m, g)
  {
    hide NumGroups, TableBlocks, DescFor;
    if g > 0 { AreasApart(m, 0, g); }
    FirstTwo(m);
    FirstBitmap(m);
    Scaled(DescFor(m, 0).bb, DescFor(m, g).bb);
  }

  lemma FirstBitmap(m: Geometry)
    ensures DescFor(m, 0).bb == GdtStart() + 1 && GdtByte() + BLK == DescFor(m, 0).bb * BLK && SUPER + 1024 <= DescFor(m, 0).bb * BLK
  {
    Scaled(GdtStart(), 1);
  }

  lemma HeadStays(s: seq<Byte>, t: seq<Byte>, m: Geometry, inodes: map<nat, Inode>, c: Counts, g: nat)
    requires Flushable(m) && g < NumGroups(m) && HeadLies(s, m, inodes, c) && Within(s, t, AreaStart(m, g), AreaSize(m))
    ensures HeadLies(t, m, inodes, c)
  {
    hide Words, GdtWords, SuperWords, Lies, NumGroups, Within, AreaStart, AreaSize, Roomy;
    AreasBehindHead(m, g);
    StillLies(s, t, AreaStart(m, g), AreaSize(m), GdtByte(), Words(GdtWords(m, inodes, c))[..Cut(m)]);
    if Disjoint(GdtByte(), GdtSize(NumGroups(m)), SUPER, 1024) {
      StillLies(s, t, AreaStart(m, g), AreaSize(m), SUPER, Words(SuperWords(m, inodes, c)));
    }
  }

  /** Where the area of a group ends, in blocks. */
  lemma AreaEnds(m: Geometry, g: nat)
    requires m.ipg * INODE_SIZE % BLK == 0
    ensures AreaStart(m, g) + AreaSize(m) == (DescFor(m, g).it + TableBlocks(m.ipg)) * BLK
  {
    hide TableBlocks, DescFor;
    TableSize(m);
    AreaParts(m, g);
    Scaled(DescFor(m, g).it, TableBlocks(m.ipg));
  }

  lemma OtherGroupStays(s: seq<Byte>, t: seq<Byte>, m: Geometry, g: nat, h: nat, used: seq<bool>, inodes: map<nat, Inode>)
    requires Flushable(m) && h < g < NumGroups(m) && GroupLies(s, m, h, used, inodes) && Within(s, t, AreaStart(m, g), AreaSize(m))
    ensures GroupLies(t, m, h, used, inodes)
  {
    hide NumGroups, Within, GroupLies, TableBlocks, DescFor;
    AreaEnds(m, h);
    AreasApart(m, h, g);
    Scaled(DescFor(m, h).it + TableBlocks(m.ipg), DescFor(m, g).bb);
    GroupStays(s, t, AreaStart(m, g), AreaSize(m), m, h, used, inodes);
  }

  lemma DataStays(s: seq<Byte>, t: seq<Byte>, m: Geometry, g: nat, b: nat)
    requires Flushable(m) && g < NumGroups(m) && Apart(m, b) && Within(s, t, AreaStart(m, g), AreaSize(m))
    ensures BlockAt(t, b) == BlockAt(s, b)
  {
    hide NumGroups, Within, TableBlocks, DescFor, BlockAt;
    var d := DescFor(m, g);
    assert !IsMeta(d, TableBlocks(m.ipg), b);
    AreaEnds(m, g);
    assert d.ib == d.bb + 1 && d.it == d.bb + 2 by { Contiguous(m, g); }
    Scaled(d.it + TableBlocks(m.ipg), b);
    Scaled(b, 1);
    Scaled(b + 1, d.bb);
    BlockStays(s, t, AreaStart(m, g), AreaSize(m), b);
  }

  lemma Contiguous(m: Geometry, g: nat)
    ensures DescFor(m, g).ib == DescFor(m, g).bb + 1 && DescFor(m, g).it == DescFor(m, g).bb + 2
  {
  }
}
