/** Directory blocks: variable-length records that tile the block, each free or holding one entry. */
module Ext2Records {
  import opened Bytes
  import opened Ext2Layout

  datatype Dirent = Dirent(ino: nat, ftype: Byte, name: seq<Byte>)

  const MAX_NAME := 255

  // ---------------------------------------------------------------------------------------------
  // Reading records
  // ---------------------------------------------------------------------------------------------

  function RecIno(s: seq<Byte>, p: nat): nat
    requires p + 8 <= |s|
  {
    Rd32(s, p)
  }

  function RecLen(s: seq<Byte>, p: nat): nat
    requires p + 8 <= |s|
  {
    Rd16(s, p + 4)
  }

  /** A record at `p`: big enough, aligned, inside the block, and a live one has room for its name. */
  predicate RecordAt(s: seq<Byte>, p: nat) {
    && |s| == BLK && p + 8 <= BLK && RecLen(s, p) >= 8 && RecLen(s, p) % 4 == 0 && p + RecLen(s, p) <= BLK
    && (RecIno(s, p) != 0 ==> s[p + 6] > 0 && 8 + s[p + 6] as int <= RecLen(s, p))
  }

  /** What the record at `p` holds. */
  function Here(s: seq<Byte>, p: nat): (es: seq<Dirent>)
    requires RecordAt(s, p)
  {
    if RecIno(s, p) == 0 then [] else [Dirent(RecIno(s, p), s[p + 7], s[p + 8..p + 8 + s[p + 6] as int])]
  }

  /** Records tile the bytes from `p` up to `end`. */
  ghost predicate Tiles(s: seq<Byte>, p: nat, end: nat)
    decreases end - p
  {
    p == end || (p < end && RecordAt(s, p) && p + RecLen(s, p) <= end && Tiles(s, p + RecLen(s, p), end))
  }

  /** The entries from `p` up to `end`, in order. */
  ghost function Entries(s: seq<Byte>, p: nat, end: nat): (es: seq<Dirent>)
    requires Tiles(s, p, end)
    decreases end - p
  {
    if p == end then [] else Here(s, p) + Entries(s, p + RecLen(s, p), end)
  }

  ghost predicate Tiled(s: seq<Byte>) { |s| == BLK && Tiles(s, 0, BLK) }

  // ---------------------------------------------------------------------------------------------
  // Walking and splicing
  // ---------------------------------------------------------------------------------------------

  /** A tiling can be cut at any record boundary, and two tilings joined. */
  lemma {:induction false} Join(s: seq<Byte>, p: nat, q: nat, end: nat)
    requires Tiles(s, p, q) && Tiles(s, q, end) && q <= end
    ensures Tiles(s, p, end) && Entries(s, p, end) == Entries(s, p, q) + Entries(s, q, end)
    decreases q - p
  {
    hide RecLen, Here, RecIno;
    if p < q {
      var n := p + RecLen(s, p);
      Join(s, n, q, end);
      assert Entries(s, p, end) == Here(s, p) + (Entries(s, n, q) + Entries(s, q, end));
    }
  }

  /** A tiling depends on its own bytes only. */
  lemma {:induction false} SameBytes(s: seq<Byte>, s': seq<Byte>, p: nat, end: nat)
    requires |s| == |s'| == BLK && p <= end <= BLK && Tiles(s, p, end)
    requires forall i :: p <= i < end ==> s'[i] == s[i]
    ensures Tiles(s', p, end) && Entries(s', p, end) == Entries(s, p, end)
    decreases end - p
  {
    if p < end {
      assert s'[p + 8..p + RecLen(s, p)] == s[p + 8..p + RecLen(s, p)];
      SameRecord(s, s', p);
      SameBytes(s, s', p + RecLen(s, p), end);
    }
  }

  lemma SameRecord(s: seq<Byte>, s': seq<Byte>, p: nat)
    requires |s'| == BLK && RecordAt(s, p) && forall i :: p <= i < p + RecLen(s, p) ==> s'[i] == s[i]
    ensures RecordAt(s', p) && RecLen(s', p) == RecLen(s, p) && Here(s', p) == Here(s, p)
  {
    assert RecLen(s', p) == RecLen(s, p) && RecIno(s', p) == RecIno(s, p);
    if RecIno(s, p) != 0 {
      var n := s[p + 6] as int;
      assert s'[p + 8..p + 8 + n] == s[p + 8..p + 8 + n];
    }
  }

  lemma {:induction false} TilesBounds(s: seq<Byte>, p: nat, end: nat)
    requires Tiles(s, p, end)
    ensures p <= end && (p < end ==> end <= BLK == |s|)
    decreases end - p
  {
    if p < end && p + RecLen(s, p) < end { TilesBounds(s, p + RecLen(s, p), end); }
  }

  /** Replacing the records from `p` to `q` by others keeps the tiling and all other entries. */
  lemma Splice(s: seq<Byte>, s': seq<Byte>, p: nat, q: nat)
    requires |s| == |s'| == BLK && p <= q <= BLK && Tiles(s, 0, p) && Tiles(s, p, q) && Tiles(s, q, BLK) && Tiles(s', p, q)
    requires forall i :: 0 <= i < BLK && !(p <= i < q) ==> s'[i] == s[i]
    ensures Tiled(s) && Tiled(s')
    ensures Entries(s, 0, BLK) == Entries(s, 0, p) + Entries(s, p, q) + Entries(s, q, BLK)
    ensures Entries(s', 0, BLK) == Entries(s, 0, p) + Entries(s', p, q) + Entries(s, q, BLK)
  {
    SameBytes(s, s', 0, p);
    SameBytes(s, s', q, BLK);
    Join(s, 0, p, q);
    Join(s, 0, q, BLK);
    Join(s', 0, p, q);
    Join(s', 0, q, BLK);
  }

  lemma OneRecord(s: seq<Byte>, p: nat)
    requires RecordAt(s, p)
    ensures Tiles(s, p, p + RecLen(s, p)) && Entries(s, p, p + RecLen(s, p)) == Here(s, p)
  {
    assert Tiles(s, p + RecLen(s, p), p + RecLen(s, p));
  }

  // ---------------------------------------------------------------------------------------------
  // Writing records
  // ---------------------------------------------------------------------------------------------

  /** The eight bytes before the name. */
  function Header(ino: nat, len: nat, nlen: Byte, ftype: Byte): (h: seq<Byte>)
    ensures |h| == 8
  {
    [ino % 256, ino / 256 % 256, ino / 0x1_0000 % 256, ino / 0x100_0000 % 256, len % 256, len / 256 % 256, nlen, ftype]
  }

  /** `s` with a record written at `p`: its header and its name, nothing else. */
  function PutRecord(s: seq<Byte>, p: nat, ino: nat, len: nat, ftype: Byte, name: seq<Byte>): (r: seq<Byte>)
    requires p + 8 + |name| <= |s| && |name| <= MAX_NAME
    ensures |r| == |s|
  {
    Over(s, p, Header(ino, len, |name|, ftype) + name)
  }

  lemma PutRecordAt(s: seq<Byte>, p: nat, ino: nat, len: nat, ftype: Byte, name: seq<Byte>)
    requires |s| == BLK && p + len <= BLK && 8 + |name| <= len && len % 4 == 0 && |name| <= MAX_NAME && ino < U32
    requires ino != 0 ==> |name| > 0
    ensures var r := PutRecord(s, p, ino, len, ftype, name);
            && RecordAt(r, p) && RecLen(r, p) == len && RecIno(r, p) == ino
            && Here(r, p) == (if ino == 0 then [] else [Dirent(ino, ftype, name)])
            && forall i :: 0 <= i < BLK && !(p <= i < p + 8 + |name|) ==> r[i] == s[i]
  {
    hide Over;
    var h := Header(ino, len, |name|, ftype);
    var r := PutRecord(s, p, ino, len, ftype, name);
    forall i | 0 <= i < BLK ensures r[i] == if p <= i < p + 8 + |name| then (h + name)[i - p] else s[i] { OverAt(s, p, h + name, i); }
    FourDigits(ino);
    assert RecIno(r, p) == ino;
    assert len / 256 < 256;
    assert r[p + 8..p + 8 + |name|] == name;
  }

  /** The bytes a record needs for a name: header and name, rounded up to four. */
  function Needed(nlen: nat): (n: nat)
    ensures n % 4 == 0 && 8 + nlen <= n < 8 + nlen + 4
  {
    (8 + nlen + 3) / 4 * 4
  }

  predicate EntryOk(e: Dirent) { 0 < e.ino < U32 && 0 < |e.name| <= MAX_NAME }

  /** The free record at `p` filled with `e`; what is left over becomes a free record if it can hold a
      header. */
  function Fill(s: seq<Byte>, p: nat, e: Dirent): (r: seq<Byte>)
    requires EntryOk(e) && RecordAt(s, p) && RecLen(s, p) >= Needed(|e.name|)
    ensures |r| == BLK
  {
    var need := Needed(|e.name|);
    var left := RecLen(s, p) - need;
    var r := PutRecord(s, p, e.ino, if left >= 8 then need else RecLen(s, p), e.ftype, e.name);
    if left >= 8 then PutRecord(r, p + need, 0, left, 0, []) else r
  }

  lemma FillWindow(s: seq<Byte>, p: nat, e: Dirent)
    requires EntryOk(e) && RecordAt(s, p) && RecLen(s, p) >= Needed(|e.name|)
    ensures var s', q := Fill(s, p, e), p + RecLen(s, p);
            && Tiles(s', p, q) && Entries(s', p, q) == [e]
            && forall i :: 0 <= i < BLK && !(p <= i < q) ==> s'[i] == s[i]
  {
    hide PutRecord, Tiles, Entries, Here, Needed, Rd16, Rd32;
    var need, len := Needed(|e.name|), RecLen(s, p);
    var left := len - need;
    var r, s' := PutRecord(s, p, e.ino, if left >= 8 then need else len, e.ftype, e.name), Fill(s, p, e);
    PutRecordAt(s, p, e.ino, if left >= 8 then need else len, e.ftype, e.name);
    if left >= 8 {
      PutRecordAt(r, p + need, 0, left, 0, []);
      SameRecord(r, s', p);
      OneRecord(s', p);
      OneRecord(s', p + need);
      Join(s', p, p + need, p + len);
    } else {
      OneRecord(s', p);
    }
  }

  /** Filling a free record adds the entry at its place and changes no other. */
  lemma FillOk(s: seq<Byte>, p: nat, e: Dirent)
    requires EntryOk(e) && RecordAt(s, p) && RecIno(s, p) == 0 && RecLen(s, p) >= Needed(|e.name|)
    requires Tiles(s, 0, p) && Tiles(s, p + RecLen(s, p), BLK)
    ensures var q := p + RecLen(s, p);
            && Tiled(s) && Tiled(Fill(s, p, e))
            && Entries(s, 0, BLK) == Entries(s, 0, p) + Entries(s, q, BLK)
            && Entries(Fill(s, p, e), 0, BLK) == Entries(s, 0, p) + [e] + Entries(s, q, BLK)
  {
    hide Fill, Tiles, Entries, RecLen, RecIno;
    OneRecord(s, p);
    FillWindow(s, p, e);
    Splice(s, Fill(s, p, e), p, p + RecLen(s, p));
    assert Here(s, p) == [];
    assert Entries(s, 0, p) + [] == Entries(s, 0, p);
  }

  /** A new directory block: `e`, and the rest free. */
  function FirstBlock(e: Dirent): (r: seq<Byte>)
    requires EntryOk(e)
    ensures |r| == BLK
  {
    PutRecord(PutRecord(Zeros(), 0, e.ino, Needed(|e.name|), e.ftype, e.name), Needed(|e.name|), 0, BLK - Needed(|e.name|), 0, [])
  }

  lemma FirstBlockOk(e: Dirent)
    requires EntryOk(e)
    ensures Tiled(FirstBlock(e)) && Entries(FirstBlock(e), 0, BLK) == [e]
  {
    hide PutRecord, Tiles, Entries, Here;
    var need := Needed(|e.name|);
    var r, s := PutRecord(Zeros(), 0, e.ino, need, e.ftype, e.name), FirstBlock(e);
    PutRecordAt(Zeros(), 0, e.ino, need, e.ftype, e.name);
    PutRecordAt(r, need, 0, BLK - need, 0, []);
    SameRecord(r, s, 0);
    OneRecord(s, 0);
    OneRecord(s, need);
    Join(s, 0, need, BLK);
  }

  /** A block being filled: records up to `pos`, and room for one more header. */
  ghost predicate Filling(data: seq<Byte>, pos: nat, es: seq<Dirent>) {
    |data| == BLK && pos + 8 <= BLK && pos % 4 == 0 && Tiles(data, 0, pos) && Entries(data, 0, pos) == es
  }

  lemma StartFilling()
    ensures Filling(Zeros(), 0, [])
  {
  }

  /** Writing the next record. */
  lemma FillNext(data: seq<Byte>, pos: nat, es: seq<Dirent>, e: Dirent)
    requires Filling(data, pos, es) && EntryOk(e) && pos + Needed(|e.name|) + 8 <= BLK
    ensures Filling(PutRecord(data, pos, e.ino, Needed(|e.name|), e.ftype, e.name), pos + Needed(|e.name|), es + [e])
  {
    hide PutRecord, Tiles, Entries, Needed;
    var r := PutRecord(data, pos, e.ino, Needed(|e.name|), e.ftype, e.name);
    PutRecordAt(data, pos, e.ino, Needed(|e.name|), e.ftype, e.name);
    SameBytes(data, r, 0, pos);
    OneRecord(r, pos);
    Join(r, 0, pos, pos + Needed(|e.name|));
  }

  /** The free record at the end completes the block. */
  lemma FillRest(data: seq<Byte>, pos: nat, es: seq<Dirent>)
    requires Filling(data, pos, es)
    ensures var r := PutRecord(data, pos, 0, BLK - pos, 0, []); Tiled(r) && Entries(r, 0, BLK) == es
  {
    hide PutRecord, Tiles, Entries;
    var r := PutRecord(data, pos, 0, BLK - pos, 0, []);
    PutRecordAt(data, pos, 0, BLK - pos, 0, []);
    SameBytes(data, r, 0, pos);
    OneRecord(r, pos);
    Join(r, 0, pos, BLK);
    assert es + [] == es;
  }

  lemma NeededBound(e: Dirent)
    requires EntryOk(e)
    ensures Needed(|e.name|) + 8 <= BLK
  {
  }

  lemma FillingSize(data: seq<Byte>, pos: nat, es: seq<Dirent>)
    requires Filling(data, pos, es)
    ensures |data| == BLK && pos + 8 <= BLK
  {
  }

  /** The record at `cur` given to the record before it. */
  function Merge(s: seq<Byte>, prev: nat, cur: nat): (r: seq<Byte>)
    requires RecordAt(s, prev) && RecordAt(s, cur)
    ensures |r| == BLK
  {
    Wr16(s, prev + 4, RecLen(s, prev) + RecLen(s, cur))
  }

  /** The record at `cur` made free. */
  function Release(s: seq<Byte>, cur: nat): (r: seq<Byte>)
    requires RecordAt(s, cur)
    ensures |r| == BLK
  {
    Wr32(s, cur, 0)[cur + 6 := 0][cur + 7 := 0]
  }

  /** Removing a record, either way, takes away what it holds and changes no other entry. */
  lemma MergeOk(s: seq<Byte>, prev: nat, cur: nat)
    requires RecordAt(s, prev) && cur == prev + RecLen(s, prev) && RecordAt(s, cur)
    requires Tiles(s, 0, prev) && Tiles(s, cur + RecLen(s, cur), BLK)
    ensures var q := cur + RecLen(s, cur);
            && Tiled(s) && Tiles(s, 0, cur) && Tiled(Merge(s, prev, cur))
            && Entries(s, 0, BLK) == Entries(s, 0, cur) + Here(s, cur) + Entries(s, q, BLK)
            && Entries(Merge(s, prev, cur), 0, BLK) == Entries(s, 0, cur) + Entries(s, q, BLK)
  {
    hide Merge, Tiles, Entries, RecLen, RecIno, Here;
    var q := cur + RecLen(s, cur);
    MergeWindow(s, prev, cur);
    OneRecord(s, prev);
    OneRecord(s, cur);
    Join(s, 0, prev, cur);
    Join(s, prev, cur, q);
    Splice(s, Merge(s, prev, cur), prev, q);
    assert Entries(s, 0, prev) + (Here(s, prev) + Here(s, cur)) == Entries(s, 0, prev) + Here(s, prev) + Here(s, cur);
  }

  lemma SameIno(s: seq<Byte>, s': seq<Byte>, p: nat)
    requires p + 8 <= |s| == |s'| && forall i :: p <= i < p + 4 ==> s'[i] == s[i]
    ensures RecIno(s', p) == RecIno(s, p)
  {
  }

  lemma MergeWindow(s: seq<Byte>, prev: nat, cur: nat)
    requires RecordAt(s, prev) && cur == prev + RecLen(s, prev) && RecordAt(s, cur)
    ensures var s', q := Merge(s, prev, cur), cur + RecLen(s, cur);
            && Tiles(s', prev, q) && Entries(s', prev, q) == Here(s, prev)
            && forall i :: 0 <= i < BLK && !(prev <= i < q) ==> s'[i] == s[i]
  {
    hide Tiles, Entries;
    var s', sum := Merge(s, prev, cur), RecLen(s, prev) + RecLen(s, cur);
    Rd16Wr16(s, prev + 4, sum);
    hide Rd16, Rd32;
    assert sum % 4 == 0;
    assert RecLen(s', prev) == sum;
    SameIno(s, s', prev);
    if RecIno(s, prev) != 0 {
      var n := s[prev + 6] as int;
      assert s'[prev + 8..prev + 8 + n] == s[prev + 8..prev + 8 + n];
    }
    OneRecord(s', prev);
  }

  lemma ReleaseOk(s: seq<Byte>, cur: nat)
    requires RecordAt(s, cur) && Tiles(s, 0, cur) && Tiles(s, cur + RecLen(s, cur), BLK)
    ensures var q := cur + RecLen(s, cur);
            && Tiled(s) && Tiled(Release(s, cur))
            && Entries(s, 0, BLK) == Entries(s, 0, cur) + Here(s, cur) + Entries(s, q, BLK)
            && Entries(Release(s, cur), 0, BLK) == Entries(s, 0, cur) + Entries(s, q, BLK)
  {
    hide Release, Tiles, Entries, RecLen, RecIno, Here;
    ReleaseWindow(s, cur);
    OneRecord(s, cur);
    Splice(s, Release(s, cur), cur, cur + RecLen(s, cur));
    assert Entries(s, 0, cur) + [] == Entries(s, 0, cur);
  }

  lemma ReleaseWindow(s: seq<Byte>, cur: nat)
    requires RecordAt(s, cur)
    ensures var s', q := Release(s, cur), cur + RecLen(s, cur);
            && Tiles(s', cur, q) && Entries(s', cur, q) == [] && s'[cur + 6] == 0 && s'[cur + 7] == 0
            && forall i :: 0 <= i < BLK && !(cur <= i < q) ==> s'[i] == s[i]
  {
    hide Tiles, Entries;
    var s' := Release(s, cur);
    assert RecIno(s', cur) == 0 && RecLen(s', cur) == RecLen(s, cur);
    OneRecord(s', cur);
  }
}
