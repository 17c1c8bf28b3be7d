/** Reading a directory in pieces: getdents64 from any offset into buffers of any size. */
module Getdents {
  import opened Bytes
  import opened Ext2Layout
  import opened Ext2Files
  import opened Ext2Volumes
  import opened Ext2Records
  import opened Ext2Directories
  import opened Ext2Names
  import opened Dentries
  import opened Options

  /** An entry with its offset in the directory and the offset behind it. */
  datatype Item = Item(off: nat, next: nat, e: Dirent)

  /** The size of the linux_dirent64 record for a name: 19 bytes, the name, a NUL, rounded up to eight. */
  function RecordSize(e: Dirent): (r: nat)
    ensures r % 8 == 0 && 20 + |e.name| <= r < 20 + |e.name| + 8
  {
    (20 + |e.name| + 7) / 8 * 8
  }

  const LARGEST := 280

  // ---------------------------------------------------------------------------------------------
  // One call, over the list of items
  // ---------------------------------------------------------------------------------------------

  /** The items at or behind an offset. */
  function Pending(items: seq<Item>, off: nat): (r: seq<Item>)
    ensures |r| <= |items|
  {
    if items == [] then [] else (if items[0].off < off then [] else [items[0]]) + Pending(items[1..], off)
  }

  /** How many leading items fit into `size` bytes. */
  function Fit(items: seq<Item>, size: nat): (k: nat)
    ensures k <= |items|
  {
    if items == [] || RecordSize(items[0].e) > size then 0 else 1 + Fit(items[1..], size - RecordSize(items[0].e))
  }

  function TotalSize(items: seq<Item>): (t: nat)
  {
    if items == [] then 0 else TotalSize(items[..|items| - 1]) + RecordSize(items[|items| - 1].e)
  }

  /** What a call gives, and the offset for the next one. */
  function Call(items: seq<Item>, end: nat, off: nat, size: nat): (r: (seq<Item>, nat)) {
    var p := Pending(items, off);
    var k := Fit(p, size);
    (p[..k], if k < |p| then p[k].off else end)
  }

  // ---------------------------------------------------------------------------------------------
  // All calls together
  // ---------------------------------------------------------------------------------------------

  /** Offsets grow along the list and stay below the end. */
  ghost predicate Sorted(items: seq<Item>, end: nat) {
    (forall i :: 0 <= i < |items| ==> items[i].off < end && |items[i].e.name| <= MAX_NAME)
    && forall i, j :: 0 <= i < j < |items| ==> items[i].off < items[j].off
  }

  /** Offset `off` is behind exactly the first `j` items. */
  ghost predicate Behind(items: seq<Item>, off: nat, j: nat) {
    j <= |items| && forall i :: 0 <= i < |items| ==> (items[i].off < off <==> i < j)
  }

  lemma {:induction false} PendingSuffix(items: seq<Item>, off: nat, j: nat)
    requires Behind(items, off, j)
    ensures Pending(items, off) == items[j..]
  {
    if items != [] {
      var rest := items[1..];
      if j > 0 {
        PendingSuffix(rest, off, j - 1);
        assert rest[j - 1..] == items[j..];
      } else {
        PendingSuffix(rest, off, 0);
        assert [items[0]] + rest[0..] == items;
      }
    }
  }

  lemma {:induction false} FitSome(items: seq<Item>, size: nat)
    requires items != [] && |items[0].e.name| <= MAX_NAME && size >= LARGEST
    ensures Fit(items, size) > 0
  {
  }

  /** A call returns the items from `j` on, as many as fit, at least one if there is one, and leaves the
      offset behind them. */
  lemma CallAdvances(items: seq<Item>, end: nat, off: nat, j: nat, size: nat)
    requires Sorted(items, end) && Behind(items, off, j) && size >= LARGEST
    ensures var (out, next) := Call(items, end, off, size);
            && j + |out| <= |items| && out == items[j..j + |out|] && Behind(items, next, j + |out|)
            && (out == [] <==> j == |items|)
  {
    PendingSuffix(items, off, j);
    var p := items[j..];
    if p != [] { FitSome(p, size); }
    var k := Fit(p, size);
    assert p[..k] == items[j..j + k];
    assert k < |p| ==> p[k] == items[j + k];
  }

  function Flatten(outs: seq<seq<Item>>): seq<Item> {
    if outs == [] then [] else Flatten(outs[..|outs| - 1]) + outs[|outs| - 1]
  }

  /** Calls made one after the other on the same directory, each from where the last one stopped. */
  ghost predicate IsRun(items: seq<Item>, end: nat, sizes: seq<nat>, offs: seq<nat>, outs: seq<seq<Item>>) {
    && |offs| == |sizes| + 1 && |outs| == |sizes| && offs[0] == 0
    && forall k :: 0 <= k < |sizes| ==> sizes[k] >= LARGEST && (outs[k], offs[k + 1]) == Call(items, end, offs[k], sizes[k])
  }

  /** After any number of calls, what has come out is a prefix of the directory, in order, and the offset
      is right behind it. */
  lemma {:induction false} RunGivesPrefix(items: seq<Item>, end: nat, sizes: seq<nat>, offs: seq<nat>, outs: seq<seq<Item>>, k: nat)
    requires Sorted(items, end) && IsRun(items, end, sizes, offs, outs) && k <= |sizes|
    ensures var got := Flatten(outs[..k]); |got| <= |items| && got == items[..|got|] && Behind(items, offs[k], |got|)
  {
    hide Call, Sorted;
    if k > 0 {
      RunGivesPrefix(items, end, sizes, offs, outs, k - 1);
      assert outs[..k][..k - 1] == outs[..k - 1];
      var j, out := |Flatten(outs[..k - 1])|, outs[k - 1];
      CallAdvances(items, end, offs[k - 1], j, sizes[k - 1]);
      assert (out, offs[k]) == Call(items, end, offs[k - 1], sizes[k - 1]);
      assert items[..j] + items[j..j + |out|] == items[..j + |out|];
    }
  }

  /** A call that gives nothing comes only after every entry has been given, exactly once and in order; and
      every earlier call gives something. */
  lemma EmptyMeansDone(items: seq<Item>, end: nat, sizes: seq<nat>, offs: seq<nat>, outs: seq<seq<Item>>, k: nat)
    requires Sorted(items, end) && IsRun(items, end, sizes, offs, outs) && k < |sizes|
    ensures outs[k] == [] <==> Flatten(outs[..k]) == items
  {
    hide Call, Sorted, Flatten;
    RunGivesPrefix(items, end, sizes, offs, outs, k);
    var j := |Flatten(outs[..k])|;
    CallAdvances(items, end, offs[k], j, sizes[k]);
    assert (outs[k], offs[k + 1]) == Call(items, end, offs[k], sizes[k]);
    assert items[..|items|] == items;
  }

  /** As many calls as there are entries are enough. */
  lemma {:induction false} EnoughCalls(items: seq<Item>, end: nat, sizes: seq<nat>, offs: seq<nat>, outs: seq<seq<Item>>, k: nat)
    requires Sorted(items, end) && IsRun(items, end, sizes, offs, outs) && k <= |sizes|
    ensures |Flatten(outs[..k])| >= if k < |items| then k else |items|
  {
    hide Sorted, IsRun;
    if k > 0 {
      EnoughCalls(items, end, sizes, offs, outs, k - 1);
      RunLengths(items, end, sizes, offs, outs);
      EmptyMeansDone(items, end, sizes, offs, outs, k - 1);
      RunGivesPrefix(items, end, sizes, offs, outs, k - 1);
      assert outs[..k][..k - 1] == outs[..k - 1];
      assert Flatten(outs[..k]) == Flatten(outs[..k - 1]) + outs[k - 1];
    }
  }

  lemma RunLengths(items: seq<Item>, end: nat, sizes: seq<nat>, offs: seq<nat>, outs: seq<seq<Item>>)
    requires IsRun(items, end, sizes, offs, outs)
    ensures |offs| == |sizes| + 1 && |outs| == |sizes|
  {
  }

  /** A call gives nothing exactly when nothing is pending or the first pending record does not fit: so
      with a smaller buffer an empty result need not mean the end. */
  lemma EmptyCallIff(items: seq<Item>, end: nat, off: nat, size: nat)
    ensures Call(items, end, off, size).0 == [] <==> Pending(items, off) == [] || RecordSize(Pending(items, off)[0].e) > size
  {
  }

  /** An input for that: one entry with a name of 255 bytes and a buffer of 279. However often the call is made, it
      gives nothing and the offset stays. */
  lemma EmptyBeforeEnd(e: Dirent, end: nat)
    requires |e.name| == 255
    ensures Call([Item(0, end, e)], end, 0, 279) == ([], 0) && Call([Item(0, end, e)], end, 0, LARGEST).0 == [Item(0, end, e)]
  {
    var items := [Item(0, end, e)];
    assert Pending(items, 0) == items + Pending(items[1..], 0) == items;
    assert Fit(items, LARGEST) == 1 + Fit(items[1..], LARGEST - RecordSize(e)) == 1;
  }

  // ---------------------------------------------------------------------------------------------
  // The items of a directory
  // ---------------------------------------------------------------------------------------------

  /** The item of the record at `p` of a block that starts at offset `base`. */
  ghost function ItemHere(s: seq<Byte>, base: nat, p: nat): (r: seq<Item>)
    requires RecordAt(s, p)
  {
    if Here(s, p) == [] then [] else [Item(base + p, base + p + RecLen(s, p), Here(s, p)[0])]
  }

  ghost function BlockItems(s: seq<Byte>, base: nat, p: nat, end: nat): (r: seq<Item>)
    requires Tiles(s, p, end)
    decreases end - p
  {
    if p == end then [] else ItemHere(s, base, p) + BlockItems(s, base, p + RecLen(s, p), end)
  }

  lemma {:induction false} JoinItems(s: seq<Byte>, base: nat, p: nat, q: nat, end: nat)
    requires Tiles(s, p, q) && Tiles(s, q, end) && q <= end
    ensures Tiles(s, p, end) && BlockItems(s, base, p, end) == BlockItems(s, base, p, q) + BlockItems(s, base, q, end)
    decreases q - p
  {
    hide RecLen, ItemHere, RecIno;
    Join(s, p, q, end);
    if p < q {
      var n := p + RecLen(s, p);
      JoinItems(s, base, n, q, end);
      assert BlockItems(s, base, p, end) == ItemHere(s, base, p) + (BlockItems(s, base, n, q) + BlockItems(s, base, q, end));
    }
  }

  /** Where block `m` starts. */
  function Base(m: nat): nat { m * BLK }

  lemma NextBase(m: nat)
    ensures Base(m + 1) == Base(m) + BLK
  {
  }

  /** The items of the first `m` blocks. */
  ghost function DirItems(d: Disk, n: Inode, m: nat): (r: seq<Item>)
    requires DirOk(d, n) && m <= NBlocks(n)
  {
    if m == 0 then [] else DirItems(d, n, m - 1) + BlockItems(DirBlock(d, n, m - 1), Base(m - 1), 0, BLK)
  }

  ghost function EntriesOf(items: seq<Item>): (es: seq<Dirent>)
    ensures |es| == |items|
  {
    seq(|items|, i requires 0 <= i < |items| => items[i].e)
  }

  lemma EntriesOfNone()
    ensures EntriesOf([]) == []
  {
  }

  lemma EntriesOfConcat(a: seq<Item>, b: seq<Item>)
    ensures EntriesOf(a + b) == EntriesOf(a) + EntriesOf(b)
  {
  }

  lemma {:induction false} BlockItemsEntries(s: seq<Byte>, base: nat, p: nat, end: nat)
    requires Tiles(s, p, end)
    ensures EntriesOf(BlockItems(s, base, p, end)) == Entries(s, p, end)
    decreases end - p
  {
    if p < end {
      var n := p + RecLen(s, p);
      BlockItemsEntries(s, base, n, end);
      EntriesOfConcat(ItemHere(s, base, p), BlockItems(s, base, n, end));
      assert EntriesOf(ItemHere(s, base, p)) == Here(s, p);
    }
  }

  /** The items are the entries of the directory, in the same order. */
  lemma {:induction false} ItemsAreEntries(d: Disk, n: Inode, m: nat)
    requires DirOk(d, n) && m <= NBlocks(n)
    ensures EntriesOf(DirItems(d, n, m)) == Listing(d, n, 0, m)
  {
    hide DirOk, Entries, BlockItems, DirBlock, Base, EntriesOf, NBlocks;
    if m == 0 {
      EntriesOfNone();
    } else {
      TiledBlock(d, n, m - 1);
      ItemsAreEntries(d, n, m - 1);
      BlockItemsEntries(DirBlock(d, n, m - 1), Base(m - 1), 0, BLK);
      EntriesOfConcat(DirItems(d, n, m - 1), BlockItems(DirBlock(d, n, m - 1), Base(m - 1), 0, BLK));
    }
  }

  /** Items of one block lie in it, in order. */
  lemma {:induction false} BlockItemsSorted(s: seq<Byte>, base: nat, p: nat, end: nat)
    requires Tiles(s, p, end)
    ensures Sorted(BlockItems(s, base, p, end), base + end)
    ensures forall i :: 0 <= i < |BlockItems(s, base, p, end)| ==> base + p <= BlockItems(s, base, p, end)[i].off
    decreases end - p
  {
    hide ItemHere, Here;
    if p < end {
      var q := p + RecLen(s, p);
      RecordForward(s, p, end);
      BlockItemsSorted(s, base, q, end);
      ItemFirst(ItemHere(s, base, p), BlockItems(s, base, q, end), base + p, base + q, base + end);
    }
  }

  lemma RecordForward(s: seq<Byte>, p: nat, end: nat)
    requires Tiles(s, p, end) && p < end
    ensures RecordAt(s, p) && p < p + RecLen(s, p) <= end && Tiles(s, p + RecLen(s, p), end)
    ensures forall base: nat, x :: x in ItemHere(s, base, p) ==> x.off == base + p && |x.e.name| <= MAX_NAME
    ensures forall base: nat :: |ItemHere(s, base, p)| <= 1
  {
  }

  lemma ItemFirst(a: seq<Item>, b: seq<Item>, lo: nat, mid: nat, end: nat)
    requires |a| <= 1 && (forall x :: x in a ==> x.off == lo && |x.e.name| <= MAX_NAME) && lo < mid <= end
    requires Sorted(b, end) && forall i :: 0 <= i < |b| ==> mid <= b[i].off
    ensures Sorted(a + b, end) && forall i :: 0 <= i < |a + b| ==> lo <= (a + b)[i].off
  {
  }

  lemma {:induction false} DirItemsSorted(d: Disk, n: Inode, m: nat)
    requires DirOk(d, n) && m <= NBlocks(n)
    ensures Sorted(DirItems(d, n, m), Base(m))
  {
    hide DirOk, BlockItems, DirBlock, Base;
    if m > 0 {
      TiledBlock(d, n, m - 1);
      DirItemsSorted(d, n, m - 1);
      BlockItemsSorted(DirBlock(d, n, m - 1), Base(m - 1), 0, BLK);
      NextBase(m - 1);
    }
  }

  // ---------------------------------------------------------------------------------------------
  // The bytes
  // ---------------------------------------------------------------------------------------------

  /** linux_dirent64: inode, offset of the next entry, record length, type, name, NUL. */
  function Encode(x: Item): (bs: seq<Byte>)
    ensures |bs| == 20 + |x.e.name| <= RecordSize(x.e)
  {
    LittleEndian(x.e.ino, 8) + LittleEndian(x.next, 8) + LittleEndian(RecordSize(x.e), 2) + ([x.e.ftype] + x.e.name + [0])
  }

  /** The buffer with the records of `items` written one behind the other; the padding keeps what was
      there. */
  function Emit(buf: seq<Byte>, items: seq<Item>): (r: seq<Byte>)
    requires TotalSize(items) <= |buf|
    ensures |r| == |buf|
  {
    if items == [] then buf
    else
      var m := |items| - 1;
      Over(Emit(buf, items[..m]), TotalSize(items[..m]), Encode(items[m]))
  }

  /** A record as a reader takes it apart. */
  datatype Record = Record(ino: nat, next: nat, len: nat, ftype: Byte, name: seq<Byte>)

  function ReadRecord(buf: seq<Byte>, pos: nat): Option<Record>
  {
    if pos + 20 > |buf| then None
    else
      var len := FromLittleEndian(buf[pos + 16..pos + 18]);
      if len < 20 || pos + len > |buf| then None
      else Some(Record(FromLittleEndian(buf[pos..pos + 8]), FromLittleEndian(buf[pos + 8..pos + 16]), len, buf[pos + 18],
                       UpToNul(buf[pos + 19..pos + len])))
  }

  /** Byte `k` of the i-th record, before its padding, is where it was written: no record overlaps another. */
  lemma {:induction false} EmitBytes(buf: seq<Byte>, items: seq<Item>, i: nat, k: nat)
    requires TotalSize(items) <= |buf| && i < |items| && k < 20 + |items[i].e.name|
    ensures TotalSize(items[..i]) + RecordSize(items[i].e) <= TotalSize(items)
    ensures Emit(buf, items)[TotalSize(items[..i]) + k] == Encode(items[i])[k]
  {
    hide Over, Encode, RecordSize;
    var m := |items| - 1;
    var before := Emit(buf, items[..m]);
    if i == m {
      OverAt(before, TotalSize(items[..m]), Encode(items[m]), TotalSize(items[..m]) + k);
    } else {
      EmitBytes(buf, items[..m], i, k);
      assert items[..m][..i] == items[..i] && items[..m][i] == items[i];
      OverAt(before, TotalSize(items[..m]), Encode(items[m]), TotalSize(items[..i]) + k);
    }
  }

  lemma {:induction false} UpToNulStops(name: seq<Byte>, rest: seq<Byte>)
    ensures UpToNul(name + [0] + rest) == UpToNul(name)
  {
    if name != [] {
      assert (name + [0] + rest)[1..] == name[1..] + [0] + rest;
      UpToNulStops(name[1..], rest);
    }
  }

  lemma Wide()
    ensures Power256(2) == 0x1_0000 && Power256(8) == 0x1_0000_0000_0000_0000
  {
    assert Power256(2) == 256 * Power256(1);
    assert Power256(4) == 256 * Power256(3) && Power256(3) == 256 * Power256(2);
    assert Power256(6) == 256 * Power256(5) && Power256(5) == 256 * Power256(4);
    assert Power256(8) == 256 * Power256(7) && Power256(7) == 256 * Power256(6);
  }

  /** Numbers that fit their fields. */
  predicate Fits(x: Item) { x.e.ino < 0x1_0000_0000_0000_0000 && x.next < 0x1_0000_0000_0000_0000 && |x.e.name| <= MAX_NAME }

  /** A reader that follows the record lengths finds every record, with its name up to the NUL. */
  lemma RecordsReadBack(buf: seq<Byte>, items: seq<Item>, i: nat)
    requires TotalSize(items) <= |buf| && i < |items| && Fits(items[i])
    ensures TotalSize(items[..i]) + RecordSize(items[i].e) == TotalSize(items[..i + 1]) <= TotalSize(items)
    ensures ReadRecord(Emit(buf, items), TotalSize(items[..i]))
         == Some(Record(items[i].e.ino, items[i].next, RecordSize(items[i].e), items[i].e.ftype, UpToNul(items[i].e.name)))
  {
    hide Emit, Encode, RecordSize, UpToNul, ReadRecord, TotalSize, Fits;
    RecordPlace(buf, items, i);
    ReadEncoded(Emit(buf, items), TotalSize(items[..i]), items[i]);
  }

  /** The bytes of the i-th record lie where the sizes of those before it end. */
  lemma RecordPlace(buf: seq<Byte>, items: seq<Item>, i: nat)
    requires TotalSize(items) <= |buf| && i < |items|
    ensures TotalSize(items[..i]) + RecordSize(items[i].e) == TotalSize(items[..i + 1]) <= TotalSize(items)
    ensures Emit(buf, items)[TotalSize(items[..i])..TotalSize(items[..i]) + 20 + |items[i].e.name|] == Encode(items[i])
  {
    hide Emit, Encode, RecordSize, TotalSize;
    var x, pos, b := items[i], TotalSize(items[..i]), Emit(buf, items);
    TotalNext(items, i);
    EmitBytes(buf, items, i, 0);
    forall k | 0 <= k < 20 + |x.e.name| ensures b[pos + k] == Encode(x)[k] { EmitBytes(buf, items, i, k); }
  }

  lemma TotalNext(items: seq<Item>, i: nat)
    requires i < |items|
    ensures TotalSize(items[..i + 1]) == TotalSize(items[..i]) + RecordSize(items[i].e)
  {
    hide RecordSize;
    assert items[..i + 1][..i] == items[..i];
  }

  /** A record that was encoded is read as it was. */
  lemma ReadEncoded(b: seq<Byte>, pos: nat, x: Item)
    requires pos + RecordSize(x.e) <= |b| && Fits(x) && b[pos..pos + 20 + |x.e.name|] == Encode(x)
    ensures ReadRecord(b, pos) == Some(Record(x.e.ino, x.next, RecordSize(x.e), x.e.ftype, UpToNul(x.e.name)))
  {
    EncodedFields(x);
    hide Encode, UpToNul, FromLittleEndian;
    var w, len := Encode(x), RecordSize(x.e);
    hide RecordSize;
    SubSlice(b, pos, |w|, 0, 8);
    SubSlice(b, pos, |w|, 8, 16);
    SubSlice(b, pos, |w|, 16, 18);
    assert b[pos + 18] == b[pos..pos + 20 + |x.e.name|][18];
    var pad := b[pos + 20 + |x.e.name|..pos + len];
    NameField(b, pos, x, len);
    UpToNulStops(x.e.name, pad);
  }

  lemma SubSlice(b: seq<Byte>, pos: nat, m: nat, i: nat, j: nat)
    requires pos + m <= |b| && i <= j <= m
    ensures b[pos..pos + m][i..j] == b[pos + i..pos + j]
  {
    var w := b[pos..pos + m];
    assert forall k :: 0 <= k < j - i ==> w[i..j][k] == w[i + k] == b[pos + i + k];
  }

  lemma NameField(b: seq<Byte>, pos: nat, x: Item, len: nat)
    requires 20 + |x.e.name| <= len && pos + len <= |b| && b[pos..pos + 20 + |x.e.name|] == Encode(x) && Encode(x)[19..] == x.e.name + [0]
    ensures b[pos + 19..pos + len] == x.e.name + [0] + b[pos + 20 + |x.e.name|..pos + len]
  {
    hide Encode;
    var m := 20 + |x.e.name|;
    assert b[pos + 19..pos + m] == b[pos..pos + m][19..];
    assert b[pos + 19..pos + len] == b[pos + 19..pos + m] + b[pos + m..pos + len];
  }

  lemma Cut(a: seq<Byte>, b: seq<Byte>, c: seq<Byte>, rest: seq<Byte>)
    requires |a| == 8 && |b| == 8 && |c| == 2 && |rest| > 0
    ensures var s := a + b + c + rest; s[..8] == a && s[8..16] == b && s[16..18] == c && s[18] == rest[0] && s[19..] == rest[1..]
  {
    var s := a + b + c + rest;
    assert forall k :: 19 <= k < |s| ==> s[k] == rest[k - 18];
  }

  lemma EncodedFields(x: Item)
    requires Fits(x)
    ensures var bs := Encode(x);
            && FromLittleEndian(bs[..8]) == x.e.ino && FromLittleEndian(bs[8..16]) == x.next
               && FromLittleEndian(bs[16..18]) == RecordSize(x.e)
            && bs[18] == x.e.ftype && bs[19..] == x.e.name + [0]
  {
    Wide();
    EncodedSlices(x);
    hide Encode, Power256;
    LittleEndianRoundTrip(x.e.ino, 8);
    LittleEndianRoundTrip(x.next, 8);
    LittleEndianRoundTrip(RecordSize(x.e), 2);
  }

  lemma EncodedSlices(x: Item)
    ensures var bs := Encode(x);
            && bs[..8] == LittleEndian(x.e.ino, 8) && bs[8..16] == LittleEndian(x.next, 8) && bs[16..18] == LittleEndian(RecordSize(x.e), 2)
            && bs[18] == x.e.ftype && bs[19..] == x.e.name + [0]
  {
    hide LittleEndian, RecordSize;
    var rest := [x.e.ftype] + x.e.name + [0];
    Cut(LittleEndian(x.e.ino, 8), LittleEndian(x.next, 8), LittleEndian(RecordSize(x.e), 2), rest);
    assert rest[1..] == x.e.name + [0];
  }

  // ---------------------------------------------------------------------------------------------
  // The call
  // ---------------------------------------------------------------------------------------------

  lemma {:induction false} PendingConcat(a: seq<Item>, b: seq<Item>, off: nat)
    ensures Pending(a + b, off) == Pending(a, off) + Pending(b, off)
  {
    if a == [] {
      assert a + b == b;
    } else {
      assert (a + b)[1..] == a[1..] + b && (a + b)[0] == a[0];
      PendingConcat(a[1..], b, off);
      var head, x, y := if a[0].off < off then [] else [a[0]], Pending(a[1..], off), Pending(b, off);
      hide Pending;
      assert head + (x + y) == head + x + y;
    }
  }

  lemma {:induction false} TotalFront(items: seq<Item>)
    requires items != []
    ensures TotalSize(items) == RecordSize(items[0].e) + TotalSize(items[1..])
  {
    hide RecordSize;
    var m := |items| - 1;
    if m > 0 {
      TotalFront(items[..m]);
      assert items[1..][..m - 1] == items[..m][1..];
    }
  }

  /** Items that fit together are all taken, and the first that does not fit stops the call. */
  lemma {:induction false} FitStops(out: seq<Item>, rest: seq<Item>, size: nat)
    requires TotalSize(out) <= size && (rest != [] ==> TotalSize(out) + RecordSize(rest[0].e) > size)
    ensures Fit(out + rest, size) == |out|
  {
    hide RecordSize;
    if out == [] {
      assert out + rest == rest;
    } else {
      TotalFront(out);
      assert (out + rest)[1..] == out[1..] + rest;
      FitStops(out[1..], rest, size - RecordSize(out[0].e));
    }
  }

  /** The buffer so far: the pending ones of the items seen, all of which fit. */
  ghost predicate Progress(b0: seq<Byte>, b: seq<Byte>, seen: seq<Item>, off: nat, written: nat) {
    written == TotalSize(Pending(seen, off)) <= |b0| && b == Emit(b0, Pending(seen, off))
  }

  /** The next item is skipped, or written behind the others. */
  lemma ProgressNext(b0: seq<Byte>, b: seq<Byte>, seen: seq<Item>, off: nat, written: nat, x: Item)
    requires Progress(b0, b, seen, off, written)
    ensures x.off < off ==> Progress(b0, b, seen + [x], off, written)
    ensures x.off >= off && written + RecordSize(x.e) <= |b0| ==>
              |b| == |b0| && Progress(b0, Over(b, written, Encode(x)), seen + [x], off, written + RecordSize(x.e))
  {
    hide Over, Encode, RecordSize;
    PendingConcat(seen, [x], off);
    var p := Pending(seen, off);
    assert Pending([x], off) == if x.off < off then [] else [x];
    if x.off >= off {
      assert (p + [x])[..|p|] == p && (p + [x])[|p|] == x;
    } else {
      assert p + [] == p;
    }
  }

  /** The call ends at item `x`, which does not fit, or behind the last one. */
  lemma ProgressStops(b0: seq<Byte>, b: seq<Byte>, seen: seq<Item>, off: nat, written: nat, rest: seq<Item>, end: nat)
    requires Progress(b0, b, seen, off, written)
    requires rest != [] ==> rest[0].off >= off && written + RecordSize(rest[0].e) > |b0|
    ensures var (out, next) := Call(seen + rest, end, off, |b0|);
            && TotalSize(out) == written && b == Emit(b0, out) && next == if rest != [] then rest[0].off else end
  {
    hide RecordSize, Emit;
    var p := Pending(seen, off);
    var q := Pending(rest, off);
    PendingConcat(seen, rest, off);
    assert rest != [] ==> q != [] && q[0] == rest[0];
    FitStops(p, q, |b0|);
    assert (p + q)[..|p|] == p;
  }

  /** One entry: skipped, written, or found not to fit. */
  method EmitItem(x: Item, off: nat, buf: array<Byte>, written: nat, ghost b0: seq<Byte>,
      ghost seen: seq<Item>) returns (fits: bool, w: nat)
    requires |b0| == buf.Length && Progress(b0, buf[..], seen, off, written)
    modifies buf
    ensures fits ==> Progress(b0, buf[..], seen + [x], off, w)
    ensures !fits ==> Progress(b0, buf[..], seen, off, w) && w == written && x.off >= off && w + RecordSize(x.e) > buf.Length
  {
    hide Progress, Encode, RecordSize, Over;
    ProgressNext(b0, buf[..], seen, off, written, x);
    if x.off < off {
      return true, written;
    }
    if written + RecordSize(x.e) > buf.Length {
      return false, written;
    }
    CopyIn(buf, written, Encode(x));
    return true, written + RecordSize(x.e);
  }

  /** The record at `p`: its length, and its item if it is live. */
  method ReadItem(src: array<Byte>, ghost base: nat, p: nat, thisOff: nat) returns (len: nat, found: Option<Item>)
    requires RecordAt(src[..], p) && thisOff == base + p
    ensures len == RecLen(src[..], p)
    ensures ItemHere(src[..], base, p) == if found.Some? then [found.value] else []
    ensures found.Some? ==> found.value.off == thisOff
  {
    hide Rd16, Rd32;
    ghost var s := src[..];
    len := RecLen(src[..], p);
    var ino, nlen := RecIno(src[..], p), src[p + 6] as int;
    if ino == 0 || nlen == 0 {
      return len, None;
    }
    assert src[p + 8..p + 8 + nlen] == s[p + 8..p + 8 + nlen];
    return len, Some(Item(thisOff, thisOff + len, Dirent(ino, src[p + 7], src[p + 8..p + 8 + nlen])));
  }

  /** One block of ext2_getdents. */
  method EmitBlock(src: array<Byte>, base: nat, off: nat, buf: array<Byte>, written: nat, ghost b0: seq<Byte>, ghost seen: seq<Item>)
      returns (stop: bool, w: nat, next: nat, ghost seen': seq<Item>, ghost rest: seq<Item>)
    requires Tiled(src[..]) && src != buf && |b0| == buf.Length && Progress(b0, buf[..], seen, off, written)
    modifies buf
    ensures Progress(b0, buf[..], seen', off, w) && seen' + rest == seen + BlockItems(src[..], base, 0, BLK)
    ensures !stop ==> rest == [] && next == base + BLK
    ensures stop ==> rest != [] && rest[0].off == next >= off && w + RecordSize(rest[0].e) > buf.Length
  {
    hide Tiles, Entries, BlockItems, Boundary, Progress, RecLen, RecIno, ItemHere, Here, Encode, RecordSize, Over, UpToNul;
    ghost var s := src[..];
    var p := 0;
    next, w := base, written;
    StartBoundary(s);
    BoundaryTiles(s, 0);
    NoItems(s, base);
    seen' := seen;
    while p + 8 <= BLK
      invariant 0 <= p <= BLK && Boundary(s, p) && Tiles(s, 0, p) && next == base + p && src[..] == s
      invariant seen' == seen + BlockItems(s, base, 0, p) && Progress(b0, buf[..], seen', off, w)
      decreases BLK - p
    {
      NextBoundary(s, p);
      RecordFits(s, p);
      BoundaryTiles(s, p);
      var len, found := ReadItem(src, base, p, next);
      BoundaryTiles(s, p + len);
      SplitItems(s, base, p);
      var thisOff := next;
      next := next + len;
      if found.Some? {
        var fits;
        fits, w := EmitItem(found.value, off, buf, w, b0, seen');
        if !fits {
          rest := BlockItems(s, base, p, BLK);
          assert seen + (BlockItems(s, base, 0, p) + rest) == seen' + rest;
          return true, w, thisOff, seen', rest;
        }
        seen' := seen' + [found.value];
      }
      p := p + len;
    }
    AtEnd(s, p);
    return false, w, next, seen', [];
  }

  lemma NoItems(s: seq<Byte>, base: nat)
    requires Tiles(s, 0, 0)
    ensures BlockItems(s, base, 0, 0) == []
  {
  }

  /** The items up to a record, at it, and behind it. */
  lemma SplitItems(s: seq<Byte>, base: nat, p: nat)
    requires Boundary(s, p) && p < BLK && RecordAt(s, p) && Tiles(s, 0, p) && Tiles(s, p, BLK)
    ensures var q := p + RecLen(s, p);
            && Tiles(s, 0, q) && Tiles(s, 0, BLK)
            && BlockItems(s, base, 0, q) == BlockItems(s, base, 0, p) + ItemHere(s, base, p)
            && BlockItems(s, base, 0, BLK) == BlockItems(s, base, 0, p) + BlockItems(s, base, p, BLK)
    ensures ItemHere(s, base, p) != [] ==> BlockItems(s, base, p, BLK) != [] && BlockItems(s, base, p, BLK)[0] == ItemHere(s, base, p)[0]
  {
    hide Tiles, BlockItems, ItemHere, RecLen, RecIno, Here, Boundary;
    FirstItem(s, base, p);
    OneItem(s, base, p);
    JoinItems(s, base, 0, p, p + RecLen(s, p));
    JoinItems(s, base, 0, p, BLK);
  }

  lemma FirstItem(s: seq<Byte>, base: nat, p: nat)
    requires RecordAt(s, p) && p < BLK && Tiles(s, p, BLK)
    ensures ItemHere(s, base, p) != [] ==> BlockItems(s, base, p, BLK) != [] && BlockItems(s, base, p, BLK)[0] == ItemHere(s, base, p)[0]
  {
    hide RecordAt, RecLen, ItemHere;
  }

  lemma OneItem(s: seq<Byte>, base: nat, p: nat)
    requires RecordAt(s, p)
    ensures var q := p + RecLen(s, p); Tiles(s, p, q) && BlockItems(s, base, p, q) == ItemHere(s, base, p) && q <= BLK && p <= q
  {
    var q := p + RecLen(s, p);
    assert Tiles(s, q, q);
    assert ItemHere(s, base, p) + [] == ItemHere(s, base, p);
  }

  /** All items of a directory. */
  ghost function AllItems(v: Vol, ino: nat): seq<Item>
    requires IsDir(v, ino)
  {
    DirItems(v.disk, v.inodes[ino], NBlocks(v.inodes[ino]))
  }

  ghost function EndOf(v: Vol, ino: nat): nat
    requires IsDir(v, ino)
  {
    Base(NBlocks(v.inodes[ino]))
  }

  /** The runs above are runs over the entries of a directory, in scan order. */
  lemma AllItemsOk(v: Vol, ino: nat)
    requires IsDir(v, ino)
    ensures Sorted(AllItems(v, ino), EndOf(v, ino)) && EntriesOf(AllItems(v, ino)) == ListOf(v, ino)
  {
    hide DirOk;
    DirItemsSorted(v.disk, v.inodes[ino], NBlocks(v.inodes[ino]));
    ItemsAreEntries(v.disk, v.inodes[ino], NBlocks(v.inodes[ino]));
  }

  /** The blocks behind `m` hold the other items. */
  lemma {:induction false} RestOfItems(d: Disk, n: Inode, m: nat, hi: nat) returns (tail: seq<Item>)
    requires DirOk(d, n) && m <= hi <= NBlocks(n)
    ensures DirItems(d, n, hi) == DirItems(d, n, m) + tail
    decreases hi
  {
    hide DirOk, BlockItems, DirBlock, Base, Tiled;
    if m == hi {
      tail := [];
    } else {
      TiledBlock(d, n, hi - 1);
      var rest := RestOfItems(d, n, m, hi - 1);
      tail := rest + BlockItems(DirBlock(d, n, hi - 1), Base(hi - 1), 0, BLK);
      assert DirItems(d, n, m) + tail == DirItems(d, n, m) + rest + BlockItems(DirBlock(d, n, hi - 1), Base(hi - 1), 0, BLK);
    }
  }

  /** ext2_getdents. */
  method ReadEntries(vol: Volume, ino: nat, off: nat, buf: array<Byte>) returns (r: int, next: nat)
    requires vol.Valid() && (ino == 0 || ino in vol.inodes) && buf != vol.blkbuf && buf != vol.indbuf
    requires ino in vol.inodes && vol.inodes[ino].ftype == Directory ==> DirOk(vol.disk, vol.inodes[ino])
    modifies buf, vol.blkbuf, vol.indbuf
    ensures r >= 0 <==> buf.Length > 0 && ino != 0 && IsDir(vol.Now(), ino)
    ensures r < 0 ==> r == -1 && buf[..] == old(buf[..])
    ensures r >= 0 ==>
              var (out, n) := Call(AllItems(vol.Now(), ino), EndOf(vol.Now(), ino), off, buf.Length);
              r == TotalSize(out) <= buf.Length && next == n && buf[..] == Emit(old(buf[..]), out)
  {
    hide VolOk, DirOk, BlockItems, DirBlock, Base, Progress, Call, Emit, TotalSize, Tiled, DataBlock;
    next := 0;
    if buf.Length == 0 || ino == 0 {
      return -1, 0;
    }
    modify vol.blkbuf;
    var n := vol.inodes[ino];
    if n.ftype != Directory {
      return -1, 0;
    }
    ghost var v, b0, seen := vol.Now(), buf[..], [];
    assert b0 == old(buf[..]);
    IsDirInode(v, ino);
    var written := 0;
    NoProgress(b0, off);
    for b := 0 to NBlocks(n)
      invariant seen == DirItems(v.disk, n, b) && Progress(b0, buf[..], seen, off, written) && next == Base(b)
    {
      TiledBlock(v.disk, n, b);
      NextBase(b);
      var blk := vol.FindDataBlock(n, b);
      if blk == 0 {
        break;
      }
      vol.ReadBlock(blk, vol.blkbuf);
      assert vol.blkbuf[..] == DirBlock(v.disk, n, b) by { BlockIs(v.disk, n, b, vol.blkbuf[..]); }
      var stop;
      ghost var rest;
      stop, written, next, seen, rest := EmitBlock(vol.blkbuf, next, off, buf, written, b0, seen);
      assert seen + rest == DirItems(v.disk, n, b + 1);
      if stop {
        ghost var tail := RestOfItems(v.disk, n, b + 1, NBlocks(n));
        assert seen + (rest + tail) == seen + rest + tail;
        ProgressStops(b0, buf[..], seen, off, written, rest + tail, Base(NBlocks(n)));
        assert AllItems(v, ino) == seen + (rest + tail);
        ProgressSize(b0, buf[..], seen, off, written);
        return written, next;
      }
      assert seen + [] == seen;
    }
    ProgressStops(b0, buf[..], seen, off, written, [], Base(NBlocks(n)));
    assert seen + [] == seen;
    ProgressSize(b0, buf[..], seen, off, written);
    return written, next;
  }

  lemma NoProgress(b0: seq<Byte>, off: nat)
    ensures Progress(b0, b0, [], off, 0) && Base(0) == 0
  {
  }

  lemma ProgressSize(b0: seq<Byte>, b: seq<Byte>, seen: seq<Item>, off: nat, written: nat)
    requires Progress(b0, b, seen, off, written)
    ensures written <= |b0|
  {
  }

  lemma BlockIs(d: Disk, n: Inode, b: nat, s: seq<Byte>)
    requires InodeOk(n) && s == Get(d, DataBlock(d, n, b))
    ensures s == DirBlock(d, n, b)
  {
  }

  /** An open directory, as sys_getdents64 uses it: every call goes on where the last one stopped. */
  class OpenDir {
    const vol: Volume
    const ino: nat
    var offset: nat

    constructor (vol: Volume, ino: nat)
      ensures this.vol == vol && this.ino == ino && offset == 0
    {
      this.vol, this.ino, offset := vol, ino, 0;
    }

    /** sys_getdents64 on an open directory: what ext2_getdents gives from the stored offset. */
    method Getdents64(buf: array<Byte>) returns (r: int)
      requires vol.Valid() && (ino == 0 || ino in vol.inodes) && buf != vol.blkbuf && buf != vol.indbuf
      requires ino in vol.inodes && vol.inodes[ino].ftype == Directory ==> DirOk(vol.disk, vol.inodes[ino])
      modifies this`offset, buf, vol.blkbuf, vol.indbuf
      ensures !(buf.Length > 0 && ino != 0 && IsDir(vol.Now(), ino)) ==> r == -21 && offset == old(offset) && buf[..] == old(buf[..])
      ensures buf.Length > 0 && ino != 0 && IsDir(vol.Now(), ino) ==>
                var (out, n) := Call(AllItems(vol.Now(), ino), EndOf(vol.Now(), ino), old(offset), buf.Length);
                r == TotalSize(out) <= buf.Length && offset == n && buf[..] == Emit(old(buf[..]), out)
    {
      hide VolOk, DirOk, Call, Emit, TotalSize, DirItems;
      var next;
      r, next := ReadEntries(vol, ino, offset, buf);
      if r < 0 {
        return -21;
      }
      offset := next;
    }
  }
}
