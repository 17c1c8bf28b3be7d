/** The on-disk shape of an EXT2 file: numbers in blocks, and the tree of direct, single and double
    indirect pointers. */
module Ext2Layout {
  import opened Bytes

  /** The block sizes of the format; everything below holds for each of them. */
  type BlockSize = n: nat | n == 1024 || n == 2048 || n == 4096 witness 1024
  const BLK: BlockSize
  /** Block numbers in one block. */
  const PER: nat := BLK / 4
  const DIRECT := 12
  const U32 := 0x1_0000_0000

  // ---------------------------------------------------------------------------------------------
  // The disk
  // ---------------------------------------------------------------------------------------------

  /** Every block number has contents; a block never written reads as zeros. */
  type Disk = map<nat, seq<Byte>>

  function Zeros(): (s: seq<Byte>)
    ensures |s| == BLK
  {
    seq(BLK, _ => 0)
  }

  function Get(d: Disk, b: nat): (s: seq<Byte>)
    ensures |s| == BLK
  {
    if b in d && |d[b]| == BLK then d[b] else Zeros()
  }

  function Rd16(s: seq<Byte>, i: nat): (v: nat)
    requires i + 2 <= |s|
    ensures v < 0x1_0000
  {
    s[i] as int + 256 * s[i + 1] as int
  }

  function Rd32(s: seq<Byte>, i: nat): (v: nat)
    requires i + 4 <= |s|
    ensures v < U32
  {
    s[i] as int + 256 * s[i + 1] as int + 0x1_0000 * s[i + 2] as int + 0x100_0000 * s[i + 3] as int
  }

  function Wr16(s: seq<Byte>, i: nat, v: nat): (r: seq<Byte>)
    requires i + 2 <= |s|
    ensures |r| == |s|
  {
    s[i := v % 256][i + 1 := v / 256 % 256]
  }

  function Wr32(s: seq<Byte>, i: nat, v: nat): (r: seq<Byte>)
    requires i + 4 <= |s|
    ensures |r| == |s|
  {
    s[i := v % 256][i + 1 := v / 256 % 256][i + 2 := v / 0x1_0000 % 256][i + 3 := v / 0x100_0000 % 256]
  }

  lemma Rd16Wr16(s: seq<Byte>, i: nat, v: nat)
    requires i + 2 <= |s| && v < 0x1_0000
    ensures Rd16(Wr16(s, i, v), i) == v
  {
  }

  lemma FourDigits(v: nat)
    requires v < U32
    ensures v % 256 + 256 * (v / 256 % 256) + 0x1_0000 * (v / 0x1_0000 % 256) + 0x100_0000 * (v / 0x100_0000 % 256) == v
  {
    var a, b, c := v / 256, v / 0x1_0000, v / 0x100_0000;
    assert b == a / 256 && c == b / 256 && c < 256;
  }

  lemma Rd32Wr32(s: seq<Byte>, i: nat, v: nat)
    requires i + 4 <= |s| && v < U32
    ensures Rd32(Wr32(s, i, v), i) == v
  {
    FourDigits(v);
  }

  /** The k-th block number in a block, and its replacement. */
  function Ptr(s: seq<Byte>, k: nat): (v: nat)
    requires |s| == BLK && k < PER
    ensures v < U32
  {
    Rd32(s, 4 * k)
  }

  function SetPtr(s: seq<Byte>, k: nat, v: nat): (r: seq<Byte>)
    requires |s| == BLK && k < PER
    ensures |r| == BLK
  {
    Wr32(s, 4 * k, v)
  }

  lemma PtrSetPtr(s: seq<Byte>, k: nat, v: nat, j: nat)
    requires |s| == BLK && k < PER && j < PER && v < U32
    ensures Ptr(SetPtr(s, k, v), j) == if j == k then v else Ptr(s, j)
  {
    if j == k {
      Rd32Wr32(s, 4 * k, v);
    }
  }

  lemma PtrZeros(k: nat)
    requires k < PER
    ensures Ptr(Zeros(), k) == 0
  {
  }

  // ---------------------------------------------------------------------------------------------
  // Files
  // ---------------------------------------------------------------------------------------------

  datatype FileType = Regular | Symlink | Directory | Other

  datatype Inode = Inode(ftype: FileType, size: nat, block: seq<nat>, blocks: nat)

  predicate InodeOk(n: Inode) { |n.block| == 15 && n.size < U32 }

  /** What the 32-bit fields of an inode on disk can hold. */
  predicate FieldsFit(n: Inode) { InodeOk(n) && n.blocks < U32 && forall k :: 0 <= k < 15 ==> n.block[k] < U32 }

  /** The blocks that a file can have: its data blocks, its two top-level tables, and the tables below
      the double indirect one. */
  datatype Role = Data(index: nat) | Single | Double | Level1(which: nat)

  const MAX_DATA: nat := DIRECT + PER + PER * PER

  predicate InFile(r: Role) {
    match r
    case Data(i) => i < MAX_DATA
    case Level1(k) => k < PER
    case _ => true
  }

  predicate IsTable(r: Role) { !r.Data? }

  /** Where the number of a block is kept: in the inode, or in a table. */
  datatype Place = Slot(slot: nat) | Entry(table: Role, k: nat)

  function PlaceOf(r: Role): (p: Place)
    requires InFile(r)
    ensures p.Slot? ==> p.slot < 14
    ensures p.Entry? ==> InFile(p.table) && IsTable(p.table) && p.k < PER && Depth(p.table) < Depth(r)
  {
    match r
    case Single => Slot(12)
    case Double => Slot(13)
    case Level1(k) => Entry(Double, k)
    case Data(i) =>
      if i < DIRECT then Slot(i)
      else if i < DIRECT + PER then Entry(Single, i - DIRECT)
      else DivBelow(i - DIRECT - PER); Entry(Level1((i - DIRECT - PER) / PER), (i - DIRECT - PER) % PER)
  }

  function Depth(r: Role): nat { if r.Data? then 2 else if r.Level1? then 1 else 0 }

  lemma DivBelow(i: nat)
    requires i < PER * PER
    ensures i / PER < PER
  {
    if BLK == 1024 { assert i < 256 * 256; } else if BLK == 2048 { assert i < 512 * 512; } else { assert i < 1024 * 1024; }
  }

  lemma SameQuotient(i: nat, j: nat)
    requires i / PER == j / PER && i % PER == j % PER
    ensures i == j
  {
  }

  /** No two blocks are kept at the same place. */
  lemma PlaceInjective(r: Role, q: Role)
    requires InFile(r) && InFile(q) && PlaceOf(r) == PlaceOf(q)
    ensures r == q
  {
    if r.Data? && q.Data? && r.index >= DIRECT + PER && q.index >= DIRECT + PER {
      SameQuotient(r.index - DIRECT - PER, q.index - DIRECT - PER);
    }
  }

  /** The k-th number in table block `t`; without a table there is none. */
  function Follow(d: Disk, t: nat, k: nat): (b: nat)
    requires k < PER
  {
    if t == 0 then 0 else Ptr(Get(d, t), k)
  }

  /** The number of a block of the file, 0 if it has none. */
  function BlockOf(d: Disk, n: Inode, r: Role): (b: nat)
    requires InodeOk(n) && InFile(r)
    decreases Depth(r)
  {
    match PlaceOf(r)
    case Slot(j) => n.block[j]
    case Entry(q, k) => Follow(d, BlockOf(d, n, q), k)
  }

  // ---------------------------------------------------------------------------------------------
  // Ownership
  // ---------------------------------------------------------------------------------------------

  /** Which block belongs to which file, and as what. */
  type Owners = map<nat, (nat, Role)>

  /** Every block of file `ino` is recorded as its own: so its block map is injective, and disjoint from
      that of any other file. */
  ghost predicate Owned(d: Disk, n: Inode, ino: nat, owner: Owners)
    requires InodeOk(n)
  {
    forall r :: InFile(r) ==> RoleOwned(d, n, ino, owner, r)
  }

  predicate RoleOwned(d: Disk, n: Inode, ino: nat, owner: Owners, r: Role)
    requires InodeOk(n) && InFile(r)
  {
    var b := BlockOf(d, n, r);
    b != 0 ==> b in owner && owner[b] == (ino, r)
  }

  /** `d'` agrees with `d` on the tables of file `ino`. */
  ghost predicate SameTables(d: Disk, d': Disk, ino: nat, owner: Owners) {
    forall b :: b in owner && owner[b].0 == ino && IsTable(owner[b].1) ==> Get(d', b) == Get(d, b)
  }

  /** Blocks other than tables can be rewritten without moving anything. */
  lemma {:induction false} SameBlock(d: Disk, d': Disk, n: Inode, ino: nat, owner: Owners, r: Role)
    requires InodeOk(n) && Owned(d, n, ino, owner) && SameTables(d, d', ino, owner) && InFile(r)
    ensures BlockOf(d', n, r) == BlockOf(d, n, r)
    decreases Depth(r)
  {
    match PlaceOf(r)
    case Slot(_) =>
    case Entry(q, _) =>
      SameBlock(d, d', n, ino, owner, q);
      assert RoleOwned(d, n, ino, owner, q);
  }

  lemma SameTablesOwned(d: Disk, d': Disk, n: Inode, ino: nat, owner: Owners)
    requires InodeOk(n) && Owned(d, n, ino, owner) && SameTables(d, d', ino, owner)
    ensures Owned(d', n, ino, owner)
  {
    hide BlockOf;
    forall r | InFile(r) ensures RoleOwned(d', n, ino, owner, r) {
      SameBlock(d, d', n, ino, owner, r);
      assert RoleOwned(d, n, ino, owner, r);
    }
  }

  /** The file with block `f` entered at the place of `r`: the new disk and the new inode. */
  function Link(d: Disk, n: Inode, r: Role, f: nat): (Disk, Inode)
    requires InodeOk(n) && InFile(r)
  {
    match PlaceOf(r)
    case Slot(j) => (d, n.(block := n.block[j := f]))
    case Entry(q, k) => var t := BlockOf(d, n, q); (d[t := SetPtr(Get(d, t), k, f)], n)
  }

  /** When a block that is fresh, or set aside for this role, can be entered: its table exists, and a new
      table is empty. */
  predicate CanLink(d: Disk, n: Inode, ino: nat, owner: Owners, r: Role, f: nat)
    requires InodeOk(n) && InFile(r)
  {
    && 0 < f < U32 && (f in owner ==> owner[f] == (ino, r)) && BlockOf(d, n, r) == 0
    && (PlaceOf(r).Entry? ==> BlockOf(d, n, PlaceOf(r).table) != 0)
    && (IsTable(r) ==> Get(d, f) == Zeros())
  }

  /** Entering it gives the file that block and changes no other block number. */
  lemma {:induction false} LinkBlock(d: Disk, n: Inode, ino: nat, owner: Owners, r: Role, f: nat, q: Role)
    requires InodeOk(n) && InFile(r) && InFile(q) && Owned(d, n, ino, owner) && CanLink(d, n, ino, owner, r, f)
    ensures var (d', n') := Link(d, n, r, f);
            InodeOk(n') && BlockOf(d', n', q) == if q == r then f else BlockOf(d, n, q)
    decreases Depth(q)
  {
    var (d', n') := Link(d, n, r, f);
    match PlaceOf(q)
    case Slot(_) =>
      if PlaceOf(q) == PlaceOf(r) { PlaceInjective(q, r); }
    case Entry(p, k) =>
      LinkBlock(d, n, ino, owner, r, f, p);
      if PlaceOf(q) == PlaceOf(r) { PlaceInjective(q, r); }
      assert RoleOwned(d, n, ino, owner, p);
      if p == r {
        PtrZeros(k);
        if PlaceOf(r).Entry? { assert RoleOwned(d, n, ino, owner, PlaceOf(r).table); }
      } else if PlaceOf(r).Entry? {
        assert RoleOwned(d, n, ino, owner, PlaceOf(r).table);
        PtrSetPtr(Get(d, BlockOf(d, n, PlaceOf(r).table)), PlaceOf(r).k, f, k);
      }
  }

  lemma LinkOwned(d: Disk, n: Inode, ino: nat, owner: Owners, r: Role, f: nat)
    requires InodeOk(n) && InFile(r) && Owned(d, n, ino, owner) && CanLink(d, n, ino, owner, r, f)
    ensures var (d', n') := Link(d, n, r, f); InodeOk(n') && Owned(d', n', ino, owner[f := (ino, r)])
  {
    hide BlockOf;
    var (d', n') := Link(d, n, r, f);
    forall q | InFile(q) ensures RoleOwned(d', n', ino, owner[f := (ino, r)], q) {
      LinkBlock(d, n, ino, owner, r, f, q);
      assert RoleOwned(d, n, ino, owner, q);
    }
  }
}
