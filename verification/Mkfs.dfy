/** The image builder: it lays out the same structures that the driver reads. */
module Mkfs {
  import opened Bytes
  import opened Options
  import opened Ext2Layout
  import opened Ext2Files
  import opened Ext2Volumes
  import opened Ext2Records
  import opened Ext2Directories
  import Sp = Ext2Space

  // ---------------------------------------------------------------------------------------------
  // Tables of block numbers
  // ---------------------------------------------------------------------------------------------

  /** A table block with these numbers, the rest zero. */
  function Pack(es: seq<nat>): (s: seq<Byte>)
    requires |es| <= PER
    ensures |s| == BLK
  {
    if es == [] then Zeros() else SetPtr(Pack(es[..|es| - 1]), |es| - 1, es[|es| - 1])
  }

  predicate Numbers(es: seq<nat>) { forall k :: 0 <= k < |es| ==> 0 < es[k] < U32 }

  lemma {:induction false} PackAt(es: seq<nat>, k: nat)
    requires |es| <= PER && k < PER && Numbers(es)
    ensures Ptr(Pack(es), k) == if k < |es| then es[k] else 0
  {
    hide Ptr, SetPtr, Zeros;
    if es == [] {
      PtrZeros(k);
    } else {
      var m := |es| - 1;
      PackAt(es[..m], k);
      PtrSetPtr(Pack(es[..m]), m, es[m], k);
    }
  }

  // ---------------------------------------------------------------------------------------------
  // What write_inode promises
  // ---------------------------------------------------------------------------------------------

  /** The driver finds exactly the listed blocks. */
  ghost predicate Holds(d: Disk, n: Inode, blocks: seq<nat>) {
    InodeOk(n) && forall k :: 0 <= k ==> DataBlock(d, n, k) == if k < |blocks| then blocks[k] else 0
  }

  /** `t` is a table with the numbers `es`; no table at all stands for no numbers. */
  predicate TableOf(d: Disk, t: nat, es: seq<nat>) {
    |es| <= PER && if t == 0 then es == [] else Get(d, t) == Pack(es)
  }

  lemma FollowTable(d: Disk, t: nat, es: seq<nat>, k: nat)
    requires TableOf(d, t, es) && Numbers(es) && k < PER
    ensures Follow(d, t, k) == if k < |es| then es[k] else 0
  {
    hide Ptr, Pack;
    PackAt(es, k);
  }

  /** The i-th group of `PER` numbers. */
  function Group(rest: seq<nat>, i: nat): (g: seq<nat>)
    requires i * PER <= |rest|
    ensures |g| <= PER
  {
    rest[i * PER..Min(i * PER + PER, |rest|)]
  }

  function Groups(rest: seq<nat>): nat { (|rest| + PER - 1) / PER }

  /** The tables below the double indirect one, one for each group. */
  ghost predicate TablesOf(d: Disk, tables: seq<nat>, rest: seq<nat>) {
    forall i :: 0 <= i < |tables| ==> i * PER < |rest| && TableOf(d, tables[i], Group(rest, i)) && 0 < tables[i] < U32
  }

  /** Entry `l2` of group `l1` is number `l1 * PER + l2` of the rest, and nothing is behind the end. */
  lemma GroupAt(rest: seq<nat>, l1: nat, l2: nat)
    requires l2 < PER
    ensures l1 * PER + l2 < |rest| ==> l1 * PER < |rest| && l2 < |Group(rest, l1)| && Group(rest, l1)[l2] == rest[l1 * PER + l2]
    ensures l1 * PER + l2 >= |rest| && l1 * PER < |rest| ==> l2 >= |Group(rest, l1)|
  {
  }

  lemma GroupCount(rest: seq<nat>, i: nat)
    ensures i < Groups(rest) <==> i * PER < |rest|
  {
    var n := |rest| + PER - 1;
    CeilDiv(|rest|, PER, n / PER, n % PER, i);
  }

  lemma CeilDiv(n: nat, p: nat, q: nat, r: nat, i: nat)
    requires p > 0 && n + p - 1 == q * p + r && r < p
    ensures i < q <==> i * p < n
  {
    if i < q { Sp.MulLe(p, i + 1, q); } else { Sp.MulLe(p, q, i); }
  }

  /** An inode laid out for a list of blocks. */
  ghost predicate LaidOut(d: Disk, n: Inode, blocks: seq<nat>, tables: seq<nat>) {
    && InodeOk(n) && Numbers(blocks) && |blocks| <= MAX_DATA
    && (forall j :: 0 <= j < DIRECT ==> n.block[j] == if j < |blocks| then blocks[j] else 0)
    && TableOf(d, n.block[12], if |blocks| > DIRECT then blocks[DIRECT..Min(DIRECT + PER, |blocks|)] else [])
    && (if |blocks| > DIRECT + PER
        then && TableOf(d, n.block[13], tables) && n.block[13] != 0 && |tables| == Groups(blocks[DIRECT + PER..])
             && TablesOf(d, tables, blocks[DIRECT + PER..])
        else n.block[13] == 0)
  }

  /** The tables of a file with `n` blocks. */
  function TableCount(n: nat): nat {
    if n <= DIRECT then 0 else if n <= DIRECT + PER then 1 else 2 + (n - DIRECT - 1) / PER
  }

  lemma TablesCounted(blocks: seq<nat>)
    ensures |blocks| > DIRECT + PER ==> Groups(blocks[DIRECT + PER..]) + 2 == TableCount(|blocks|)
  {
  }

  lemma SectorsFit(n: nat)
    requires n <= MAX_DATA
    ensures (n + TableCount(n)) * (BLK / 512) < U32
  {
    if n > DIRECT + PER {
      var k := (n - DIRECT - 1) / PER;
      assert k * PER <= n - DIRECT - 1;
      if k > PER + 1 { Sp.MulLe(PER, PER + 2, k); }
    }
    if BLK == 1024 {} else if BLK == 2048 {} else {}
  }

  lemma LaidOutFits(d: Disk, n: Inode, blocks: seq<nat>, tables: seq<nat>, used: seq<bool>, used': seq<bool>)
    requires LaidOut(d, n, blocks, tables) && NewTables(used, used', n, tables) && |used| <= U32 && n.block[14] == 0
    requires n.blocks == (|blocks| + TableCount(|blocks|)) * (BLK / 512)
    ensures FieldsFit(n)
  {
    hide TableOf, TablesOf, TableCount;
    SectorsFit(|blocks|);
  }

  /** What is laid out is what the driver finds, through direct, single and double indirect numbers. */
  lemma LaidOutHolds(d: Disk, n: Inode, blocks: seq<nat>, tables: seq<nat>)
    requires LaidOut(d, n, blocks, tables)
    ensures Holds(d, n, blocks)
  {
    hide LaidOut, DataBlock;
    LaidOutAt(d, n, blocks, tables, 0);
    forall k | 0 <= k ensures DataBlock(d, n, k) == if k < |blocks| then blocks[k] else 0 { LaidOutAt(d, n, blocks, tables, k); }
  }

  lemma LaidOutAt(d: Disk, n: Inode, blocks: seq<nat>, tables: seq<nat>, k: nat)
    requires LaidOut(d, n, blocks, tables)
    ensures InodeOk(n) && DataBlock(d, n, k) == if k < |blocks| then blocks[k] else 0
  {
    hide TableOf, TablesOf, Follow, DataBlock, Groups;
    if k < DIRECT + PER {
      DataBlockCases(d, n, k);
      if DIRECT <= k { LaidOutSingle(d, n, blocks, tables, k); }
    } else {
      LaidOutFar(d, n, blocks, tables, k);
    }
  }

  lemma LaidOutFar(d: Disk, n: Inode, blocks: seq<nat>, tables: seq<nat>, k: nat)
    requires LaidOut(d, n, blocks, tables) && DIRECT + PER <= k
    ensures DataBlock(d, n, k) == if k < |blocks| then blocks[k] else 0
  {
    hide TableOf, TablesOf, Follow, Groups, BlockOf;
    if k < MAX_DATA {
      hide DataBlock;
      var l1, l2 := Locate(k);
      FarBlock(d, n, k, l1, l2);
      LaidOutDouble(d, n, blocks, tables, k, l1, l2);
    }
  }

  lemma Locate(k: nat) returns (l1: nat, l2: nat)
    requires DIRECT + PER <= k < MAX_DATA
    ensures l1 < PER && l2 < PER && k == DIRECT + PER + (l1 * PER + l2) && l1 == (k - DIRECT - PER) / PER && l2 == (k - DIRECT - PER) % PER
  {
    var idx := k - DIRECT - PER;
    SplitIndex(idx);
    DivBelow(idx);
    l1, l2 := idx / PER, idx % PER;
  }

  lemma FarBlock(d: Disk, n: Inode, k: nat, l1: nat, l2: nat)
    requires InodeOk(n) && DIRECT + PER <= k && l1 == (k - DIRECT - PER) / PER < PER && l2 == (k - DIRECT - PER) % PER
    ensures DataBlock(d, n, k) == Follow(d, Follow(d, n.block[13], l1), l2)
  {
    hide Follow, DataBlock;
    DataBlockCases(d, n, k);
  }

  lemma LaidOutSingle(d: Disk, n: Inode, blocks: seq<nat>, tables: seq<nat>, k: nat)
    requires LaidOut(d, n, blocks, tables) && DIRECT <= k < DIRECT + PER
    ensures Follow(d, n.block[12], k - DIRECT) == if k < |blocks| then blocks[k] else 0
  {
    hide TableOf, TablesOf, Follow, Groups;
    FollowTable(d, n.block[12], if |blocks| > DIRECT then blocks[DIRECT..Min(DIRECT + PER, |blocks|)] else [], k - DIRECT);
  }

  lemma SplitIndex(idx: nat)
    ensures idx == idx / PER * PER + idx % PER
  {
  }

  lemma LaidOutDouble(d: Disk, n: Inode, blocks: seq<nat>, tables: seq<nat>, k: nat, l1: nat, l2: nat)
    requires LaidOut(d, n, blocks, tables) && l1 < PER && l2 < PER && k == DIRECT + PER + (l1 * PER + l2)
    ensures Follow(d, Follow(d, n.block[13], l1), l2) == if k < |blocks| then blocks[k] else 0
  {
    hide TableOf, Group, Groups, Follow, TablesOf;
    EmptyFollow(d, l1, l2);
    if |blocks| > DIRECT + PER {
      var rest := blocks[DIRECT + PER..];
      TablesNumbers(d, tables, rest);
      FollowTable(d, n.block[13], tables, l1);
      SliceNumbers(blocks, DIRECT + PER, |blocks|);
      GroupFollow(d, tables, rest, l1, l2);
    }
  }

  /** Number `l1 * PER + l2` of the rest, through the tables. */
  lemma GroupFollow(d: Disk, tables: seq<nat>, rest: seq<nat>, l1: nat, l2: nat)
    requires TablesOf(d, tables, rest) && |tables| == Groups(rest) && Numbers(rest) && l1 < PER && l2 < PER
    ensures Follow(d, if l1 < |tables| then tables[l1] else 0, l2) == if l1 * PER + l2 < |rest| then rest[l1 * PER + l2] else 0
  {
    hide TableOf, Group, Groups, Follow;
    EmptyFollow(d, l1, l2);
    GroupAt(rest, l1, l2);
    GroupCount(rest, l1);
    if l1 < |tables| {
      assert TableOf(d, tables[l1], Group(rest, l1));
      PartNumbers(rest, l1);
      FollowTable(d, tables[l1], Group(rest, l1), l2);
    }
  }

  lemma EmptyFollow(d: Disk, l1: nat, l2: nat)
    requires l1 < PER && l2 < PER
    ensures Follow(d, 0, l1) == 0 && Follow(d, 0, l2) == 0
  {
  }

  lemma TablesNumbers(d: Disk, tables: seq<nat>, rest: seq<nat>)
    requires TablesOf(d, tables, rest)
    ensures Numbers(tables)
  {
  }

  // ---------------------------------------------------------------------------------------------
  // The builder
  // ---------------------------------------------------------------------------------------------

  /** Blocks in use stay in use and keep their contents. */
  ghost predicate Keeps(img: Disk, used: seq<bool>, img': Disk, used': seq<bool>) {
    |used'| == |used| && forall x :: 0 <= x < |used| && used[x] ==> used'[x] && Get(img', x) == Get(img, x)
  }

  /** Block `x` has been taken. */
  predicate Took(used: seq<bool>, used': seq<bool>, x: nat) {
    |used| == |used'| && 0 < x < |used| && !used[x] && used'[x]
  }

  /** All of them have been taken, and they are different. */
  ghost predicate TookAll(used: seq<bool>, used': seq<bool>, xs: seq<nat>) {
    (forall i :: 0 <= i < |xs| ==> Took(used, used', xs[i])) && forall i, j :: 0 <= i < j < |xs| ==> xs[i] != xs[j]
  }

  /** The tables of an inode are blocks of their own that were free before. */
  ghost predicate NewTables(used: seq<bool>, used': seq<bool>, n: Inode, tables: seq<nat>) {
    && |n.block| == 15 && TookAll(used, used', tables)
    && (n.block[12] != 0 ==> Took(used, used', n.block[12]) && n.block[12] !in tables && n.block[12] != n.block[13])
    && (n.block[13] != 0 ==> Took(used, used', n.block[13]) && n.block[13] !in tables)
  }

  lemma TookOneMore(used: seq<bool>, used1: seq<bool>, img: Disk, img': Disk, used2: seq<bool>, xs: seq<nat>, x: nat)
    requires TookAll(used, used1, xs) && Keeps(img, used1, img', used2) && Took(used1, used2, x) && (x < |used| && used[x] ==> used1[x])
    requires |used| == |used1|
    ensures TookAll(used, used2, xs + [x])
  {
  }

  lemma KeepsTables(img: Disk, used: seq<bool>, img': Disk, used': seq<bool>, tables: seq<nat>, rest: seq<nat>)
    requires Keeps(img, used, img', used') && TablesOf(img, tables, rest)
    requires forall i :: 0 <= i < |tables| ==> tables[i] < |used| && used[tables[i]]
    ensures TablesOf(img', tables, rest)
  {
    hide Group;
    forall i | 0 <= i < |tables| ensures i * PER < |rest| && TableOf(img', tables[i], Group(rest, i)) && 0 < tables[i] < U32 {
      assert TableOf(img, tables[i], Group(rest, i));
    }
  }

  class Image {
    var img: Disk
    var used: seq<bool>
    var nextBlock: nat

    /** An empty image with the given bitmap. */
    constructor (bitmap: seq<bool>)
      requires 0 < |bitmap| <= U32 && bitmap[0]
      ensures Valid() && img == map[] && used == bitmap && nextBlock == 0
    {
      img, used, nextBlock := map[], bitmap, 0;
    }

    /** Block 0 is reserved, so that no block number is 0. */
    ghost predicate Valid()
      reads this
    {
      0 < |used| <= U32 && used[0]
    }

    /** _find_free_block: from the cursor on, then from the start. */
    method FindFreeBlock() returns (n: Option<nat>)
      ensures n.None? <==> forall x :: 0 <= x < |used| ==> used[x]
      ensures n.Some? ==> n.value < |used| && !used[n.value]
      ensures n.Some? && n.value >= nextBlock ==> forall x :: nextBlock <= x < n.value ==> used[x]
      ensures n.Some? && n.value < nextBlock
              ==> (forall x :: nextBlock <= x < |used| ==> used[x]) && forall x :: 0 <= x < n.value ==> used[x]
    {
      var k := nextBlock;
      while k < |used| && used[k]
        invariant nextBlock <= k && (k <= |used| || k == nextBlock) && forall x :: nextBlock <= x < k && x < |used| ==> used[x]
      {
        k := k + 1;
      }
      if k < |used| {
        return Some(k);
      }
      k := 0;
      while k < |used| && used[k]
        invariant k <= |used| && forall x :: 0 <= x < k ==> used[x]
      {
        k := k + 1;
      }
      return if k < |used| then Some(k) else None;
    }

    method AllocBlock() returns (b: Option<nat>)
      requires Valid()
      modifies this`used, this`nextBlock
      ensures Valid() && (b.None? ==> used == old(used) && forall x :: 0 <= x < |used| ==> used[x])
      ensures |used| == |old(used)| && (b.Some? ==> 0 < b.value < |used| && !old(used)[b.value] && used == old(used)[b.value := true])
    {
      b := FindFreeBlock();
      if b.Some? {
        used := used[b.value := true];
        nextBlock := b.value + 1;
      }
    }

    /** _alloc_indirect; more numbers than a table holds are an error. */
    method AllocIndirect(entries: seq<nat>) returns (t: Option<nat>)
      requires Valid() && Numbers(entries)
      modifies this
      ensures Valid() && Keeps(old(img), old(used), img, used)
      ensures t.Some? ==> Took(old(used), used, t.value) && |entries| <= PER && Get(img, t.value) == Pack(entries)
      ensures t.None? ==> |entries| > PER || forall x :: 0 <= x < |used| ==> used[x]
    {
      hide Ptr, SetPtr;
      if |entries| > PER {
        return None;
      }
      var buf := Zeros();
      for k := 0 to |entries|
        invariant |buf| == BLK && buf == Pack(entries[..k])
      {
        assert entries[..k + 1][..k] == entries[..k];
        buf := SetPtr(buf, k, entries[k]);
      }
      assert entries[..|entries|] == entries;
      t := AllocBlock();
      if t.Some? {
        img := img[t.value := buf];
      }
    }

    /** The tables below the double indirect one. */
    method AllocGroups(rest: seq<nat>) returns (tables: seq<nat>, ok: bool)
      requires Valid() && Numbers(rest)
      modifies this
      ensures Valid() && Keeps(old(img), old(used), img, used)
      ensures ok ==> |tables| == Groups(rest) && TablesOf(img, tables, rest) && TookAll(old(used), used, tables)
      ensures !ok ==> forall x :: 0 <= x < |used| ==> used[x]
    {
      hide Pack, Group;
      tables := [];
      var n := Groups(rest);
      for i := 0 to n
        invariant Valid() && Keeps(old(img), old(used), img, used) && |tables| == i
        invariant TablesOf(img, tables, rest) && TookAll(old(used), used, tables)
      {
        GroupCount(rest, i);
        ghost var img0, used0 := img, used;
        PartNumbers(rest, i);
        var t := AllocIndirect(Group(rest, i));
        if t.None? {
          return tables, false;
        }
        KeepsTables(img0, used0, img, used, tables, rest);
        TookOneMore(old(used), used0, img0, img, used, tables, t.value);
        tables := tables + [t.value];
      }
      return tables, true;
    }

    /** The double indirect table and what hangs below it. */
    method AllocDouble(rest: seq<nat>) returns (i2: Option<nat>, extra: nat, ghost tables: seq<nat>)
      requires Valid() && Numbers(rest)
      modifies this
      ensures Valid() && Keeps(old(img), old(used), img, used)
      ensures i2.Some? ==> 0 < i2.value < |used| && TableOf(img, i2.value, tables) && |tables| == Groups(rest) && TablesOf(img, tables, rest)
      ensures i2.Some? ==> TookAll(old(used), used, tables + [i2.value]) && extra == Groups(rest) + 1
      ensures i2.None? ==> |rest| > PER * PER || forall x :: 0 <= x < |used| ==> used[x]
    {
      hide Pack, Group, Groups;
      var ts, ok := AllocGroups(rest);
      tables, extra := ts, |ts| + 1;
      if !ok {
        return None, 0, ts;
      }
      GroupCount(rest, PER);
      TablesNumbers(img, ts, rest);
      ghost var img0, used0 := img, used;
      i2 := AllocIndirect(ts);
      KeepsTwice(old(img), old(used), img0, used0, img, used);
      KeepsTables(img0, used0, img, used, ts, rest);
      if i2.Some? { TookOneMore(old(used), used0, img0, img, used, ts, i2.value); }
    }

    /** write_inode: an inode whose blocks are the listed ones. It fails when the list is too long for a
        double indirect file, the size does not fit its field, or the image is full. */
    method WriteInode(ftype: FileType, size: nat, blocks: seq<nat>) returns (n: Option<Inode>, ghost tables: seq<nat>)
      requires Valid() && Numbers(blocks)
      modifies this
      ensures Valid() && Keeps(old(img), old(used), img, used)
      ensures n.Some? ==> Holds(img, n.value, blocks) && n.value.ftype == ftype && n.value.size == size
      ensures n.Some? ==> LaidOut(img, n.value, blocks, tables) && NewTables(old(used), used, n.value, tables)
      ensures n.Some? ==> n.value.blocks == (|blocks| + TableCount(|blocks|)) * (BLK / 512) && FieldsFit(n.value)
      ensures n.None? ==> size >= U32 || |blocks| > MAX_DATA || forall x :: 0 <= x < |used| ==> used[x]
    {
      hide Pack, Group, Groups, TablesOf, TableOf, Keeps;
      KeepsAll(img, used);
      tables := [];
      if size >= U32 {
        return None, [];
      }
      var slots := FirstSlots(blocks);
      var extra := 0;
      if |blocks| > DIRECT {
        SliceNumbers(blocks, DIRECT, Min(DIRECT + PER, |blocks|));
        ghost var es := blocks[DIRECT..Min(DIRECT + PER, |blocks|)];
        var i1 := AllocIndirect(blocks[DIRECT..Min(DIRECT + PER, |blocks|)]);
        if i1.None? {
          return None, [];
        }
        IsTableOf(img, i1.value, es);
        slots, extra := slots[12 := i1.value], 1;
        if |blocks| > DIRECT + PER {
          ghost var img1, used1 := img, used;
          SliceNumbers(blocks, DIRECT + PER, |blocks|);
          var i2, more;
          i2, more, tables := AllocDouble(blocks[DIRECT + PER..]);
          KeepsTwice(old(img), old(used), img1, used1, img, used);
          if i2.None? {
            return None, [];
          }
          KeepsTable(img1, used1, img, used, i1.value, es);
          slots, extra := slots[13 := i2.value], extra + more;
          TablesAreNew(old(used), used1, old(img), img1, img, used, i1.value, i2.value, tables);
        }
      } else {
        NoTable(img);
      }
      var inode := Inode(ftype, size, slots, (|blocks| + extra) * (BLK / 512));
      if |blocks| > DIRECT + PER { TablesFit(img, slots[13], tables, blocks[DIRECT + PER..]); }
      LaidOutHolds(img, inode, blocks, tables);
      TablesCounted(blocks);
      LaidOutFits(img, inode, blocks, tables, old(used), used);
      return Some(inode), tables;
    }

    /** make_file: the content cut into blocks. */
    method MakeFile(content: seq<Byte>) returns (blocks: Option<seq<nat>>)
      requires Valid()
      modifies this
      ensures Valid() && Keeps(old(img), old(used), img, used)
      ensures blocks.Some? ==> TookAll(old(used), used, blocks.value) && Chunks(img, blocks.value, content)
      ensures blocks.Some? ==> |blocks.value| == BlocksFor(content)
      ensures blocks.None? ==> forall x :: 0 <= x < |used| ==> used[x]
    {
      hide Keeps, TookAll, ChunkAt, Chunk;
      KeepsAll(img, used);
      ghost var img0, used0 := img, used;
      var n := BlocksFor(content);
      var bs: seq<nat> := [];
      NoneTaken(used0, used);
      for i := 0 to n
        invariant Valid() && Keeps(img0, used0, img, used) && TookAll(used0, used, bs) && |bs| == i && |used| == |used0|
        invariant Chunks(img, bs, content)
      {
        ChunkStarts(content, i);
        ghost var img1, used1 := img, used;
        var b := AllocBlock();
        if b.None? {
          return None;
        }
        TookNext(used0, used1, used, bs, b.value, img0, img1);
        img := img[b.value := Over(Get(img, b.value), 0, Chunk(content, i))];
        ChunkWritten(img0, used0, img1, used1, img, used, bs, b.value, content);
        bs := bs + [b.value];
      }
      return Some(bs);
    }

    /** One directory of materialize_dirs: records packed into blocks, each closed by a free record. */
    method Materialize(items: seq<Dirent>) returns (n: Option<Inode>, ghost blocks': seq<nat>, ghost tables: seq<nat>)
      requires Valid() && forall i :: 0 <= i < |items| ==> EntryOk(items[i])
      modifies this
      ensures Valid() && Keeps(old(img), old(used), img, used)
      ensures n.Some? ==> DirOk(img, n.value) && List(img, n.value) == items && FieldsFit(n.value)
      ensures n.Some? ==> LaidOut(img, n.value, blocks', tables) && AllNew(old(used), used, n.value, blocks', tables)
      ensures n.None? ==> (forall x :: 0 <= x < |used| ==> used[x]) || |items| >= MAX_DATA || (|items| + 1) * BLK >= U32
    {
      hide Written, Filling, Keeps, PutRecord, Needed, DirOk, Holds, LaidOut, NewTables, TookAll, FieldsFit, TableCount;
      KeepsAll(img, used);
      blocks', tables := [], [];
      ghost var img0, used0 := img, used;
      ghost var parts: seq<seq<Dirent>>, part: seq<Dirent> := [], [];
      var block := AllocBlock();
      if block.None? {
        return None, [], [];
      }
      var blocks: seq<nat> := [block.value];
      assert [] + [block.value] == blocks;
      NewBlock(img0, used0, img, used, [], parts, img0, used0, block.value);
      TookFirst(used0, used, block.value);
      var data, pos: nat := Zeros(), 0;
      StartFilling();
      for i := 0 to |items|
        invariant Valid() && Keeps(img0, used0, img, used) && Written(img, used, blocks, parts) && |blocks| == |parts| + 1
        invariant blocks[|parts|] < |used0| && !used0[blocks[|parts|]] && TookAll(used0, used, blocks) && |used| == |used0|
        invariant |data| == BLK && pos + 8 <= BLK && Filling(data, pos, part) && Flat(parts) + part == items[..i]
        invariant |parts| <= i && (pos > 0 ==> |parts| < i)
      {
        var e := items[i];
        var rec := Needed(|e.name|);
        NeededBound(e);
        assert pos + rec > BLK - 8 ==> pos > 0;
        if pos + rec > BLK - 8 {
          CloseBlock(blocks, data, pos, img0, used0, parts, part);
          parts, part := parts + [part], [];
          ghost var img1, used1 := img, used;
          block := AllocBlock();
          if block.None? {
            return None, [], [];
          }
          NewBlock(img1, used1, img, used, blocks, parts, img0, used0, block.value);
          TookNext(used0, used1, used, blocks, block.value, img0, img1);
          blocks := blocks + [block.value];
          data, pos := Zeros(), 0;
          StartFilling();
          assert Flat(parts) + part == Flat(parts);
        }
        FillNext(data, pos, part, e);
        FillingSize(PutRecord(data, pos, e.ino, rec, e.ftype, e.name), pos + rec, part + [e]);
        data := PutRecord(data, pos, e.ino, rec, e.ftype, e.name);
        pos := pos + rec;
        assert Flat(parts) + (part + [e]) == Flat(parts) + part + [e];
        part := part + [e];
        assert items[..i + 1] == items[..i] + [e];
      }
      CloseBlock(blocks, data, pos, img0, used0, parts, part);
      parts := parts + [part];
      assert items[..|items|] == items;
      ghost var img1, used1 := img, used;
      WrittenNumbers(img, used, blocks, parts);
      Sp.MulLe(BLK, |blocks|, |items| + 1);
      n, tables := WriteInode(Directory, |blocks| * BLK, blocks);
      blocks' := blocks;
      KeepsTwice(img0, used0, img1, used1, img, used);
      if n.Some? {
        BothNew(used0, used1, img0, img1, img, used, n.value, blocks, tables);
        StillWritten(img1, used1, img, used, blocks, parts);
        HoldsAtMost(img, n.value, blocks);
        WholeBlocks(n.value, |blocks|);
        DirectoryReads(img, used, n.value, blocks, parts);
      }
    }

    /** The free record at the end, and the block written to the image. */
    method CloseBlock(blocks: seq<nat>, data: seq<Byte>, pos: nat, ghost img0: Disk, ghost used0: seq<bool>,
        ghost parts: seq<seq<Dirent>>, ghost part: seq<Dirent>)
      requires Valid() && Keeps(img0, used0, img, used) && Written(img, used, blocks, parts) && |blocks| == |parts| + 1
      requires blocks[|parts|] < |used0| && !used0[blocks[|parts|]] && |data| == BLK && pos + 8 <= BLK && Filling(data, pos, part)
      modifies this`img
      ensures Keeps(img0, used0, img, used) && Written(img, used, blocks, parts + [part]) && Flat(parts + [part]) == Flat(parts) + part
    {
      hide Written, Filling, PutRecord;
      FillRest(data, pos, part);
      var s := PutRecord(data, pos, 0, BLK - pos, 0, []);
      WriteLast(img, used, blocks, parts, s, part);
      img := img[blocks[|blocks| - 1] := s];
    }
  }

  /** The number of blocks for a content. */
  function BlocksFor(content: seq<Byte>): nat { (|content| + BLK - 1) / BLK }

  /** The part of a content that goes into block `i`. */
  function Chunk(content: seq<Byte>, i: nat): (c: seq<Byte>)
    requires i * BLK <= |content|
    ensures |c| <= BLK
  {
    content[i * BLK..Min(i * BLK + BLK, |content|)]
  }

  ghost predicate ChunkAt(d: Disk, b: nat, content: seq<Byte>, i: nat) {
    i * BLK <= |content| && Get(d, b)[..|Chunk(content, i)|] == Chunk(content, i)
  }

  /** The blocks hold the content, one part after the other. */
  ghost predicate Chunks(d: Disk, blocks: seq<nat>, content: seq<Byte>) {
    forall i :: 0 <= i < |blocks| ==> ChunkAt(d, blocks[i], content, i)
  }

  lemma ChunkStarts(content: seq<Byte>, i: nat)
    requires i < BlocksFor(content)
    ensures i * BLK < |content|
  {
    var n := |content| + BLK - 1;
    CeilDiv(|content|, BLK, n / BLK, n % BLK, i);
  }

  lemma NoneTaken(used: seq<bool>, used': seq<bool>)
    ensures TookAll(used, used', [])
  {
  }

  /** The next part is written into a block of its own. */
  lemma ChunkWritten(img0: Disk, used0: seq<bool>, img1: Disk, used1: seq<bool>, img: Disk, used: seq<bool>,
      bs: seq<nat>, b: nat, content: seq<Byte>)
    requires Keeps(img0, used0, img1, used1) && TookAll(used0, used1, bs) && Chunks(img1, bs, content) && |bs| * BLK <= |content|
    requires 0 < b < |used1| && !used1[b] && used == used1[b := true]
    requires img == img1[b := Over(Get(img1, b), 0, Chunk(content, |bs|))]
    ensures Keeps(img0, used0, img, used) && Chunks(img, bs + [b], content)
  {
    hide Chunk;
    forall i | 0 <= i < |bs| + 1 ensures ChunkAt(img, (bs + [b])[i], content, i) {
      if i < |bs| {
        assert Took(used0, used1, bs[i]) && ChunkAt(img1, bs[i], content, i);
      }
    }
  }

  /** The driver reads the content back. */
  lemma ContentReads(d: Disk, n: Inode, blocks: seq<nat>, content: seq<Byte>)
    requires Holds(d, n, blocks) && Numbers(blocks) && Chunks(d, blocks, content) && |blocks| == BlocksFor(content) && n.size == |content|
    ensures ReadGives(d, n, 0, |content|, content)
  {
    hide DataBlock;
    forall k | 0 <= k < |content| ensures IsByteAt(d, n, 0 + k, content[k]) {
      ByteOfContent(d, blocks, content, k);
      assert DataBlock(d, n, k / BLK) == blocks[k / BLK];
    }
  }

  lemma ByteOfContent(d: Disk, blocks: seq<nat>, content: seq<Byte>, k: nat)
    requires Chunks(d, blocks, content) && |blocks| == BlocksFor(content) && k < |content|
    ensures k / BLK < |blocks| && Get(d, blocks[k / BLK])[k % BLK] == content[k]
  {
    hide Chunk, Get;
    var i, j := k / BLK, k % BLK;
    LastChunk(content, k);
    ChunkByte(content, i, j);
    assert ChunkAt(d, blocks[i], content, i);
    assert Get(d, blocks[i])[..|Chunk(content, i)|][j] == Chunk(content, i)[j];
  }

  lemma LastChunk(content: seq<Byte>, k: nat)
    requires k < |content|
    ensures k == k / BLK * BLK + k % BLK && k / BLK < BlocksFor(content)
  {
    var m := |content| + BLK - 1;
    CeilDiv(|content|, BLK, m / BLK, m % BLK, k / BLK);
  }

  lemma ChunkByte(content: seq<Byte>, i: nat, j: nat)
    requires j < BLK && i * BLK + j < |content|
    ensures j < |Chunk(content, i)| && Chunk(content, i)[j] == content[i * BLK + j]
  {
  }

  /** The blocks and the tables of a new file are all different and were all free before. */
  ghost predicate AllNew(used: seq<bool>, used': seq<bool>, n: Inode, blocks: seq<nat>, tables: seq<nat>) {
    && NewTables(used, used', n, tables) && TookAll(used, used', blocks)
    && n.block[12] !in blocks && n.block[13] !in blocks && forall i, j :: 0 <= i < |blocks| && 0 <= j < |tables| ==> blocks[i] != tables[j]
  }

  lemma BothNew(used: seq<bool>, used1: seq<bool>, img: Disk, img1: Disk, img2: Disk, used2: seq<bool>, n: Inode,
      blocks: seq<nat>, tables: seq<nat>)
    requires Keeps(img, used, img1, used1) && Keeps(img1, used1, img2, used2)
    requires TookAll(used, used1, blocks) && NewTables(used1, used2, n, tables)
    ensures AllNew(used, used2, n, blocks, tables)
  {
    assert forall i :: 0 <= i < |blocks| ==> Took(used, used1, blocks[i]);
    assert forall i :: 0 <= i < |tables| ==> Took(used1, used2, tables[i]);
  }

  lemma TookFirst(used: seq<bool>, used': seq<bool>, x: nat)
    requires Took(used, used', x)
    ensures TookAll(used, used', [x])
  {
  }

  lemma TookNext(used: seq<bool>, used1: seq<bool>, used2: seq<bool>, xs: seq<nat>, x: nat, img: Disk, img1: Disk)
    requires TookAll(used, used1, xs) && Keeps(img, used, img1, used1) && 0 < x < |used1| && !used1[x] && used2 == used1[x := true]
    ensures TookAll(used, used2, xs + [x])
  {
  }

  /** A table taken first, and the others after it. */
  lemma TablesAreNew(used: seq<bool>, used1: seq<bool>, img: Disk, img1: Disk, img2: Disk, used2: seq<bool>, i1: nat,
      i2: nat, tables: seq<nat>)
    requires Keeps(img, used, img1, used1) && Keeps(img1, used1, img2, used2)
    requires Took(used, used1, i1) && TookAll(used1, used2, tables + [i2])
    ensures Took(used, used2, i1) && Took(used, used2, i2) && TookAll(used, used2, tables) && i1 != i2 && i1 !in tables && i2 !in tables
  {
    var all := tables + [i2];
    assert all[|tables|] == i2;
    assert forall i :: 0 <= i < |tables| ==> all[i] == tables[i];
  }

  /** The direct numbers of an inode. */
  method FirstSlots(blocks: seq<nat>) returns (slots: seq<nat>)
    ensures |slots| == 15 && (forall j :: 0 <= j < DIRECT ==> slots[j] == if j < |blocks| then blocks[j] else 0)
    ensures slots[12] == 0 && slots[13] == 0 && slots[14] == 0
  {
    slots := seq(15, _ => 0);
    for j := 0 to Min(DIRECT, |blocks|)
      invariant |slots| == 15 && (forall i :: 0 <= i < j ==> slots[i] == blocks[i]) && forall i :: j <= i < 15 ==> slots[i] == 0
    {
      slots := slots[j := blocks[j]];
    }
  }

  lemma KeepsAll(img: Disk, used: seq<bool>)
    ensures Keeps(img, used, img, used)
  {
  }

  lemma KeepsTwice(img: Disk, used: seq<bool>, img1: Disk, used1: seq<bool>, img2: Disk, used2: seq<bool>)
    requires Keeps(img, used, img1, used1) && Keeps(img1, used1, img2, used2)
    ensures Keeps(img, used, img2, used2)
  {
  }

  lemma KeepsTable(img: Disk, used: seq<bool>, img': Disk, used': seq<bool>, t: nat, es: seq<nat>)
    requires Keeps(img, used, img', used') && 0 < t < |used| && used[t] && TableOf(img, t, es)
    ensures TableOf(img', t, es)
  {
  }

  lemma IsTableOf(d: Disk, t: nat, es: seq<nat>)
    requires t != 0 && |es| <= PER && Get(d, t) == Pack(es)
    ensures TableOf(d, t, es)
  {
  }

  lemma NoTable(d: Disk)
    ensures TableOf(d, 0, [])
  {
  }

  lemma SliceNumbers(blocks: seq<nat>, i: nat, j: nat)
    requires Numbers(blocks) && i <= j <= |blocks|
    ensures Numbers(blocks[i..j])
    ensures j == |blocks| ==> blocks[i..j] == blocks[i..]
  {
  }

  lemma PartNumbers(rest: seq<nat>, i: nat)
    requires Numbers(rest) && i * PER < |rest|
    ensures Numbers(Group(rest, i))
  {
    var lo, hi := i * PER, Min(i * PER + PER, |rest|);
    SliceNumbers(rest, lo, hi);
  }

  lemma TablesFit(d: Disk, t: nat, tables: seq<nat>, rest: seq<nat>)
    requires TableOf(d, t, tables) && |tables| == Groups(rest)
    ensures |rest| <= PER * PER
  {
    GroupCount(rest, PER);
  }

  // ---------------------------------------------------------------------------------------------
  // Directories
  // ---------------------------------------------------------------------------------------------

  function Flat(parts: seq<seq<Dirent>>): seq<Dirent> {
    if parts == [] then [] else Flat(parts[..|parts| - 1]) + parts[|parts| - 1]
  }

  /** The finished blocks of a directory and what they hold. */
  ghost predicate Written(d: Disk, used: seq<bool>, blocks: seq<nat>, parts: seq<seq<Dirent>>) {
    && |parts| <= |blocks|
    && (forall i :: 0 <= i < |blocks| ==> 0 < blocks[i] < |used| && blocks[i] < U32 && used[blocks[i]])
    && (forall i, j :: 0 <= i < j < |blocks| ==> blocks[i] != blocks[j])
    && (forall i :: 0 <= i < |parts| ==> Tiled(Get(d, blocks[i])) && Entries(Get(d, blocks[i]), 0, BLK) == parts[i])
  }

  /** The last block is written: one more finished block. */
  lemma WriteLast(d: Disk, used: seq<bool>, blocks: seq<nat>, parts: seq<seq<Dirent>>, s: seq<Byte>, es: seq<Dirent>)
    requires Written(d, used, blocks, parts) && |blocks| == |parts| + 1 && Tiled(s) && Entries(s, 0, BLK) == es
    ensures Written(d[blocks[|parts|] := s], used, blocks, parts + [es]) && Flat(parts + [es]) == Flat(parts) + es
  {
    hide Tiles, Entries;
    assert (parts + [es])[..|parts|] == parts;
  }

  lemma StillWritten(d: Disk, used: seq<bool>, d': Disk, used': seq<bool>, blocks: seq<nat>, parts: seq<seq<Dirent>>)
    requires Written(d, used, blocks, parts) && Keeps(d, used, d', used')
    ensures Written(d', used', blocks, parts)
  {
    hide Tiled, Entries;
  }

  /** An inode with these blocks, all finished, is a directory that lists their entries. */
  lemma DirectoryReads(d: Disk, used: seq<bool>, n: Inode, blocks: seq<nat>, parts: seq<seq<Dirent>>)
    requires Holds(d, n, blocks) && Written(d, used, blocks, parts) && |parts| == |blocks| && n.ftype == Directory
    requires NBlocks(n) == |blocks| && |blocks| <= MAX_DATA
    ensures DirOk(d, n) && List(d, n) == Flat(parts)
  {
    hide Tiled, Entries, DataBlock;
    forall b | 0 <= b < |blocks| ensures DirBlock(d, n, b) == Get(d, blocks[b]) {}
    assert DirOk(d, n);
    ListsParts(d, n, blocks, parts, |blocks|);
    assert parts[..|parts|] == parts;
  }

  lemma {:induction false} ListsParts(d: Disk, n: Inode, blocks: seq<nat>, parts: seq<seq<Dirent>>, m: nat)
    requires DirOk(d, n) && |parts| == |blocks| == NBlocks(n) && m <= |blocks|
    requires forall b :: 0 <= b < |blocks| ==> DirBlock(d, n, b) == Get(d, blocks[b])
    requires forall i :: 0 <= i < |parts| ==> Tiled(Get(d, blocks[i])) && Entries(Get(d, blocks[i]), 0, BLK) == parts[i]
    ensures Listing(d, n, 0, m) == Flat(parts[..m])
  {
    hide DirOk, Tiled, Entries, DirBlock, NBlocks;
    if m > 0 {
      ListsParts(d, n, blocks, parts, m - 1);
      assert parts[..m][..m - 1] == parts[..m - 1];
      TiledBlock(d, n, m - 1);
    }
  }

  lemma WholeBlocks(n: Inode, m: nat)
    requires n.size == m * BLK
    ensures NBlocks(n) == m
  {
    if BLK == 1024 {
      assert (m * 1024 + 1023) / 1024 == m;
    } else if BLK == 2048 {
      assert (m * 2048 + 2047) / 2048 == m;
    } else {
      assert (m * 4096 + 4095) / 4096 == m;
    }
  }

  lemma HoldsAtMost(d: Disk, n: Inode, blocks: seq<nat>)
    requires Holds(d, n, blocks) && Numbers(blocks)
    ensures |blocks| <= MAX_DATA
  {
    assert DataBlock(d, n, MAX_DATA) == 0;
  }

  /** A fresh block for the directory. */
  lemma NewBlock(img: Disk, used: seq<bool>, img': Disk, used': seq<bool>, blocks: seq<nat>, parts: seq<seq<Dirent>>,
      img0: Disk, used0: seq<bool>, b: nat)
    requires Keeps(img0, used0, img, used) && img' == img && 0 < b < |used| <= U32 && !used[b] && used' == used[b := true]
    requires blocks != [] ==> Written(img, used, blocks, parts)
    requires blocks == [] ==> parts == []
    ensures Keeps(img0, used0, img', used') && Written(img', used', blocks + [b], parts) && b < |used0| && !used0[b]
  {
    hide Tiled, Entries;
  }

  lemma WrittenNumbers(d: Disk, used: seq<bool>, blocks: seq<nat>, parts: seq<seq<Dirent>>)
    requires Written(d, used, blocks, parts)
    ensures Numbers(blocks)
  {
  }
}
