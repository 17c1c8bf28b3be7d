/** vm_copy_to_user and vm_copy_from_user: byte copies that cross page boundaries. The bytes of a
    region of user memory are seen as a map from virtual addresses to bytes. */
module UserMemory {
  import opened Bytes
  import opened PhysicalMemory
  import opened PageTables
  import opened AddressSpaces

  /** A page-aligned region whose pages are user pages on pairwise different data frames. */
  ghost predicate Region(s: State, root: nat, lo: nat, hi: nat) {
    && lo % KB4 == 0 && hi % KB4 == 0 && lo <= hi <= 512 * GB512
    && TreeOk(s.tables, s.own) && IsRoot(s.own, root)
    && (forall w: nat :: lo <= w < hi ==> OnData(s, root, w))
    && (forall v: nat, w: nat :: lo <= v < hi && lo <= w < hi && v / KB4 != w / KB4 ==> Apart(s, root, v, w))
  }

  ghost predicate OnData(s: State, root: nat, w: nat) {
    UserAt(s.tables, root, w) && FrameAt(s.tables, root, w) in s.data && FrameAt(s.tables, root, w) != NULL
  }

  ghost predicate Apart(s: State, root: nat, v: nat, w: nat) {
    UserAt(s.tables, root, v) && UserAt(s.tables, root, w) ==> FrameAt(s.tables, root, v) != FrameAt(s.tables, root, w)
  }

  ghost function ByteAt(s: State, root: nat, w: nat): Byte
    requires OnData(s, root, w)
  {
    s.data[FrameAt(s.tables, root, w)][w % KB4]
  }

  /** The bytes of a region. */
  ghost function View(s: State, root: nat, lo: nat, hi: nat): map<nat, Byte>
    requires Region(s, root, lo, hi)
  {
    map w: nat | lo <= w < hi :: ByteAt(s, root, w)
  }

  /** `m` with `bs` stored from address `at` on. */
  ghost function Store(m: map<nat, Byte>, at: nat, bs: seq<Byte>): map<nat, Byte> {
    map w | w in m :: if at <= w < at + |bs| then bs[w - at] else m[w]
  }

  /** The bytes from `at` on. */
  ghost function Load(m: map<nat, Byte>, at: nat, n: nat): seq<Byte>
    requires forall w: nat :: at <= w < at + n ==> w in m
  {
    seq(n, i requires 0 <= i < n => m[at + i])
  }

  /** Physical memory with `bs` in page `f` from offset `o` on. */
  function Patched(d: map<nat, Page>, f: nat, o: nat, bs: seq<Byte>): (r: map<nat, Page>)
    requires f in d && o + |bs| <= KB4
    ensures r.Keys == d.Keys
  {
    d[f := d[f][..o] + bs + d[f][o + |bs|..]]
  }

  /** The effect of one chunk: `bs` replaces the bytes of the page of `va` from its offset on. */
  ghost function Chunk(s: State, f: nat, o: nat, bs: seq<Byte>): State
    requires f in s.data && o + |bs| <= KB4
  {
    s.(data := Patched(s.data, f, o, bs))
  }

  lemma SamePageBySize(v: nat, w: nat)
    requires v < 512 * GB512 && w < 512 * GB512
    ensures v / KB4 == w / KB4 ==> SamePage(v, w)
  {
    if v / KB4 == w / KB4 { SamePageNumber(v, w); }
  }

  lemma ChunkRegion(s: State, root: nat, lo: nat, hi: nat, f: nat, o: nat, bs: seq<Byte>)
    requires Region(s, root, lo, hi) && f in s.data && o + |bs| <= KB4
    ensures Region(Chunk(s, f, o, bs), root, lo, hi)
  {
    hide WalkFrom, TreeOk;
    var s' := Chunk(s, f, o, bs);
    forall w: nat | lo <= w < hi ensures OnData(s', root, w) { assert OnData(s, root, w); }
    forall v: nat, w: nat | lo <= v < hi && lo <= w < hi && v / KB4 != w / KB4 ensures Apart(s', root, v, w) {
      assert Apart(s, root, v, w);
    }
  }

  lemma ChunkByte(s: State, root: nat, lo: nat, hi: nat, va: nat, bs: seq<Byte>, w: nat)
    requires Region(s, root, lo, hi) && lo <= va < hi && va % KB4 + |bs| <= KB4 && lo <= w < hi
    ensures OnData(s, root, va) && OnData(s, root, w)
    ensures var s' := Chunk(s, FrameAt(s.tables, root, va), va % KB4, bs);
            OnData(s', root, w)
            && ByteAt(s', root, w) == if va <= w < va + |bs| then bs[w - va] else ByteAt(s, root, w)
  {
    hide WalkFrom, TreeOk, SamePage;
    assert OnData(s, root, va) && OnData(s, root, w);
    var f := FrameAt(s.tables, root, va);
    if w / KB4 == va / KB4 {
      SamePageBySize(va, w);
      UserSamePage(s.tables, s.own, root, va, w);
      assert w - va == w % KB4 - va % KB4;
    } else {
      assert Apart(s, root, va, w);
      assert !(va <= w < va + |bs|) by { OtherPage(va, |bs|, w); }
    }
  }

  lemma OtherPage(va: nat, n: nat, w: nat)
    requires va % KB4 + n <= KB4 && w / KB4 != va / KB4
    ensures !(va <= w < va + n)
  {
  }

  lemma ChunkView(s: State, root: nat, lo: nat, hi: nat, va: nat, bs: seq<Byte>)
    requires Region(s, root, lo, hi) && lo <= va < hi && va % KB4 + |bs| <= KB4
    ensures OnData(s, root, va)
    ensures var s' := Chunk(s, FrameAt(s.tables, root, va), va % KB4, bs);
            Region(s', root, lo, hi) && View(s', root, lo, hi) == Store(View(s, root, lo, hi), va, bs)
  {
    hide WalkFrom, TreeOk, SamePage, ByteAt, Chunk;
    assert OnData(s, root, va);
    var f := FrameAt(s.tables, root, va);
    ChunkRegion(s, root, lo, hi, f, va % KB4, bs);
    var s' := Chunk(s, f, va % KB4, bs);
    forall w: nat | lo <= w < hi
      ensures View(s', root, lo, hi)[w] == Store(View(s, root, lo, hi), va, bs)[w]
    {
      ChunkByte(s, root, lo, hi, va, bs, w);
    }
  }

  lemma StoreStore(m: map<nat, Byte>, at: nat, bs: seq<Byte>, cs: seq<Byte>)
    ensures Store(Store(m, at, bs), at + |bs|, cs) == Store(m, at, bs + cs)
  {
  }

  /** Every address of the range that translates lies in a data page. */
  ghost predicate Backed(s: State, root: nat, v: nat, n: nat) {
    forall w: nat :: v <= w < v + n && Translate(s.tables, root, w) != 0 ==> Translate(s.tables, root, w) / KB4 * KB4 in s.data
  }

  ghost predicate AllPresent(ts: Tables, root: nat, v: nat, n: nat) {
    forall w: nat :: v <= w < v + n ==> Translate(ts, root, w) != 0
  }

  // ---------------------------------------------------------------------------------------------
  // One byte at a time
  // ---------------------------------------------------------------------------------------------

  /** Physical memory with byte `b` at address `p`. */
  ghost function PutByte(d: map<nat, Page>, p: nat, b: Byte): (r: map<nat, Page>)
    ensures r.Keys == d.Keys
  {
    var f := p / KB4 * KB4;
    if f in d then d[f := d[f][p % KB4 := b]] else d
  }

  /** Physical memory after `bs` has been written to the addresses from `v` on, byte after byte. */
  ghost function PutBytes(d: map<nat, Page>, ts: Tables, root: nat, v: nat, bs: seq<Byte>): (r: map<nat, Page>)
    ensures r.Keys == d.Keys
  {
    if bs == [] then d
    else var n := |bs| - 1; PutByte(PutBytes(d, ts, root, v, bs[..n]), Translate(ts, root, v + n), bs[n])
  }

  /** A copy that has got as far as byte `n`: it stops at the end or at an absent page. */
  ghost predicate CopiedUpTo(d: map<nat, Page>, d': map<nat, Page>, ts: Tables, root: nat, v: nat, src: seq<Byte>, n: nat)
  {
    && n <= |src| && AllPresent(ts, root, v, n) && (n < |src| ==> Translate(ts, root, v + n) == 0)
    && d' == PutBytes(d, ts, root, v, src[..n])
  }

  /** A chunk within a page is its bytes one after the other. */
  lemma {:induction false} PutChunk(d: map<nat, Page>, ts: Tables, own: map<nat, Node>, root: nat, v: nat, bs: seq<Byte>, cs: seq<Byte>)
    requires TreeOk(ts, own) && IsRoot(own, root) && cs != []
    requires (v + |bs|) % KB4 + |cs| <= KB4 && v + |bs| + |cs| <= 512 * GB512
    requires Translate(ts, root, v + |bs|) != 0 && Translate(ts, root, v + |bs|) / KB4 * KB4 in d
    ensures var f, o := Translate(ts, root, v + |bs|) / KB4 * KB4, Translate(ts, root, v + |bs|) % KB4;
            o + |cs| <= KB4 && PutBytes(d, ts, root, v, bs + cs) == Patched(PutBytes(d, ts, root, v, bs), f, o, cs)
    decreases |cs|
  {
    hide WalkFrom, TreeOk, SamePage, Translate, Patched, PutByte;
    var k, va := |cs| - 1, v + |bs|;
    var f, o := Translate(ts, root, va) / KB4 * KB4, Translate(ts, root, va) % KB4;
    ChunkTranslate(ts, own, root, va, k);
    var before := PutBytes(d, ts, root, v, bs);
    assert (bs + cs)[..|bs| + k] == bs + cs[..k];
    if k > 0 {
      PutChunk(d, ts, own, root, v, bs, cs[..k]);
    } else {
      assert bs + cs[..0] == bs && cs[..0] == [];
      PatchNothing(before, f, o);
    }
    PatchMore(before, f, o, cs, Translate(ts, root, va + k));
  }

  lemma PatchNothing(d: map<nat, Page>, f: nat, o: nat)
    requires f in d && o <= KB4
    ensures Patched(d, f, o, []) == d
  {
    assert d[f][..o] + [] + d[f][o..] == d[f];
  }

  lemma PatchMore(d: map<nat, Page>, f: nat, o: nat, cs: seq<Byte>, q: nat)
    requires f in d && cs != [] && o + |cs| <= KB4 && q / KB4 * KB4 == f && q % KB4 == o + |cs| - 1
    ensures PutByte(Patched(d, f, o, cs[..|cs| - 1]), q, cs[|cs| - 1]) == Patched(d, f, o, cs)
  {
    OneByteMore(d[f], o, cs);
  }

  lemma OneByteMore(page: Page, o: nat, cs: seq<Byte>)
    requires cs != [] && o + |cs| <= KB4
    ensures var k := |cs| - 1; (page[..o] + cs[..k] + page[o + k..])[o + k := cs[k]] == page[..o] + cs + page[o + |cs|..]
  {
  }

  /** Bytes at which no address of the range ends up stay. */
  lemma {:induction false} PutElsewhere(d: map<nat, Page>, ts: Tables, root: nat, v: nat, bs: seq<Byte>, f: nat, i: nat)
    requires f in d && f % KB4 == 0 && i < KB4
    requires forall w: nat :: v <= w < v + |bs| ==> Translate(ts, root, w) != f + i
    ensures PutBytes(d, ts, root, v, bs)[f][i] == d[f][i]
  {
    hide WalkFrom, Translate;
    if bs != [] {
      var n := |bs| - 1;
      PutElsewhere(d, ts, root, v, bs[..n], f, i);
      assert Translate(ts, root, v + n) != f + i;
    }
  }

  /** A byte that the range reaches holds what its last address was given. */
  lemma {:induction false} PutLast(d: map<nat, Page>, ts: Tables, root: nat, v: nat, bs: seq<Byte>, j: nat)
    requires j < |bs| && Translate(ts, root, v + j) / KB4 * KB4 in d
    requires forall w: nat :: v + j < w < v + |bs| ==> Translate(ts, root, w) != Translate(ts, root, v + j)
    ensures var p := Translate(ts, root, v + j); PutBytes(d, ts, root, v, bs)[p / KB4 * KB4][p % KB4] == bs[j]
  {
    hide WalkFrom, Translate;
    var n := |bs| - 1;
    if j < n {
      PutLast(d, ts, root, v, bs[..n], j);
      assert Translate(ts, root, v + n) != Translate(ts, root, v + j);
    }
  }

  lemma ChunkPresent(ts: Tables, own: map<nat, Node>, root: nat, va: nat, chunk: nat)
    requires TreeOk(ts, own) && IsRoot(own, root) && 0 < chunk && va + chunk <= 512 * GB512 && va % KB4 + chunk <= KB4
    requires Translate(ts, root, va) != 0
    ensures AllPresent(ts, root, va, chunk) && Translate(ts, root, va) % KB4 == va % KB4
  {
    hide WalkFrom, TreeOk, SamePage;
    forall w: nat | va <= w < va + chunk ensures Translate(ts, root, w) != 0 {
      assert w / KB4 == va / KB4;
      SamePageBySize(va, w);
      TranslateWithinPage(ts, own, root, va, w);
    }
    SamePageBySize(va, va);
    TranslateWithinPage(ts, own, root, va, va);
  }

  method WriteChunk(vm: Vm, f: nat, o: nat, bs: seq<Byte>)
    requires vm.Valid() && f in vm.data && o + |bs| <= KB4
    modifies vm`data
    ensures vm.Valid() && vm.Now() == Chunk(old(vm.Now()), f, o, bs)
  {
    hide WalkFrom, TreeOk;
    vm.data := Patched(vm.data, f, o, bs);
  }

  /** vm_copy_to_user: fails exactly when some page of the range is absent. What it writes in chunks is what writing
      byte after byte up to there would; in a region that is exactly `src`. Addresses are canonical lower-half
      addresses. */
  method CopyToUser(vm: Vm, root: nat, v: nat, src: seq<Byte>, ghost lo: nat, ghost hi: nat) returns (ok: bool)
    requires vm.Valid() && IsRoot(vm.own, root) && v + |src| <= 512 * GB512
    requires Backed(vm.Now(), root, v, |src|)
    modifies vm`data
    ensures vm.Valid()
    ensures ok <==> AllPresent(vm.tables, root, v, |src|)
    ensures exists n: nat :: CopiedUpTo(old(vm.data), vm.data, vm.tables, root, v, src, n)
    ensures lo <= v && v + |src| <= hi && Region(old(vm.Now()), root, lo, hi) ==>
              && ok && Region(vm.Now(), root, lo, hi)
              && View(vm.Now(), root, lo, hi) == Store(View(old(vm.Now()), root, lo, hi), v, src)
  {
    hide WalkFrom, TreeOk, SamePage, Region, View, Store, PutBytes, Translate, Patched, AllTaken;
    ghost var s0 := vm.Now();
    PutNothing(vm.data, vm.tables, root, v);
    var off := 0;
    assert src[..0] == [];
    while off < |src|
      invariant 0 <= off <= |src|
      invariant vm.Valid() && AllPresent(vm.tables, root, v, off)
      invariant vm.data == PutBytes(s0.data, vm.tables, root, v, src[..off])
    {
      var va := v + off;
      var p := Translate(vm.tables, root, va);
      if p == 0 {
        assert CopiedUpTo(s0.data, vm.data, vm.tables, root, v, src, off);
        if lo <= v && v + |src| <= hi && Region(s0, root, lo, hi) { RegionPresent(s0, root, lo, hi, v, |src|); }
        return false;
      }
      var chunk := KB4 - va % KB4;
      if chunk > |src| - off {
        chunk := |src| - off;
      }
      ChunkPresent(vm.tables, vm.own, root, va, chunk);
      var bs := src[off..off + chunk];
      PutChunk(s0.data, vm.tables, vm.own, root, v, src[..off], bs);
      WriteChunk(vm, p / KB4 * KB4, p % KB4, bs);
      assert src[..off] + bs == src[..off + chunk];
      off := off + chunk;
    }
    assert src[..off] == src;
    assert CopiedUpTo(s0.data, vm.data, vm.tables, root, v, src, off);
    if lo <= v && v + |src| <= hi && Region(s0, root, lo, hi) { PutInRegion(s0, root, lo, hi, v, src); }
    return true;
  }

  /** Bytes written one after the other into a region are stored there, and nothing else is. */
  lemma {:induction false} PutInRegion(s: State, root: nat, lo: nat, hi: nat, v: nat, bs: seq<Byte>)
    requires Region(s, root, lo, hi) && lo <= v && v + |bs| <= hi
    ensures var s' := s.(data := PutBytes(s.data, s.tables, root, v, bs));
            Region(s', root, lo, hi) && View(s', root, lo, hi) == Store(View(s, root, lo, hi), v, bs)
    decreases |bs|
  {
    hide WalkFrom, TreeOk, Region, View, Store, Translate, Patched;
    if bs == [] {
      StoreNothing(View(s, root, lo, hi), v);
    } else {
      var n := |bs| - 1;
      PutInRegion(s, root, lo, hi, v, bs[..n]);
      var s1 := s.(data := PutBytes(s.data, s.tables, root, v, bs[..n]));
      TranslateInRegion(s1, root, lo, hi, v + n);
      OneBytePatch(s1.data, Translate(s.tables, root, v + n), bs[n]);
      ChunkView(s1, root, lo, hi, v + n, [bs[n]]);
      StoreStore(View(s, root, lo, hi), v, bs[..n], [bs[n]]);
      assert bs[..n] + [bs[n]] == bs;
    }
  }

  lemma OneBytePatch(d: map<nat, Page>, p: nat, b: Byte)
    requires p / KB4 * KB4 in d
    ensures PutByte(d, p, b) == Patched(d, p / KB4 * KB4, p % KB4, [b])
  {
    var page, o := d[p / KB4 * KB4], p % KB4;
    assert page[o := b] == page[..o] + [b] + page[o + 1..];
  }

  lemma PutNothing(d: map<nat, Page>, ts: Tables, root: nat, v: nat)
    ensures PutBytes(d, ts, root, v, []) == d
  {
  }

  lemma RegionPresent(s: State, root: nat, lo: nat, hi: nat, v: nat, n: nat)
    requires Region(s, root, lo, hi) && lo <= v && v + n <= hi
    ensures AllPresent(s.tables, root, v, n) && Backed(s, root, v, n)
  {
    hide WalkFrom, TreeOk, Region, OnData;
    forall w: nat | v <= w < v + n
      ensures Translate(s.tables, root, w) != 0 && Translate(s.tables, root, w) / KB4 * KB4 in s.data
    {
      TranslateInRegion(s, root, lo, hi, w);
    }
  }

  lemma StoreNothing(m: map<nat, Byte>, v: nat)
    ensures Store(m, v, []) == m
  {
  }

  lemma TranslateInRegion(s: State, root: nat, lo: nat, hi: nat, va: nat)
    requires Region(s, root, lo, hi) && lo <= va < hi
    ensures OnData(s, root, va)
    ensures Translate(s.tables, root, va) == FrameAt(s.tables, root, va) + va % KB4
    ensures Translate(s.tables, root, va) != 0
    ensures Translate(s.tables, root, va) / KB4 * KB4 == FrameAt(s.tables, root, va)
    ensures Translate(s.tables, root, va) % KB4 == va % KB4
    ensures FrameAt(s.tables, root, va) in s.data
  {
    hide WalkFrom, TreeOk;
    assert OnData(s, root, va);
    UserPhys(s.tables, s.own, root, va);
  }

  /** The bytes that the page tables lead to, address by address. */
  ghost function UserBytes(s: State, root: nat, v: nat, n: nat): seq<Byte>
    requires TreeOk(s.tables, s.own) && Backed(s, root, v, n) && AllPresent(s.tables, root, v, n)
  {
    seq(n, i requires 0 <= i < n => var p := Translate(s.tables, root, v + i); s.data[p / KB4 * KB4][p % KB4])
  }

  /** vm_copy_from_user: fails exactly when some page of the range is absent. */
  method CopyFromUser(vm: Vm, root: nat, v: nat, len: nat) returns (ok: bool, dst: seq<Byte>)
    requires vm.Valid() && IsRoot(vm.own, root) && v + len <= 512 * GB512
    requires Backed(vm.Now(), root, v, len)
    ensures ok <==> AllPresent(vm.tables, root, v, len)
    ensures ok ==> dst == UserBytes(vm.Now(), root, v, len)
  {
    hide WalkFrom, TreeOk, SamePage, UserBytes;
    ghost var s := vm.Now();
    dst := [];
    assert UserBytes(s, root, v, 0) == [] by { NoUserBytes(s, root, v); }
    while |dst| < len
      invariant |dst| <= len && AllPresent(vm.tables, root, v, |dst|)
      invariant dst == UserBytes(s, root, v, |dst|)
    {
      var va := v + |dst|;
      var p := Translate(vm.tables, root, va);
      if p == 0 {
        return false, dst;
      }
      var chunk := KB4 - va % KB4;
      if chunk > len - |dst| {
        chunk := len - |dst|;
      }
      ChunkPresent(vm.tables, vm.own, root, va, chunk);
      var f, o := p / KB4 * KB4, p % KB4;
      var bs := vm.data[f][o..o + chunk];
      ChunkBytes(s, root, va, chunk);
      UserBytesConcat(s, root, v, |dst|, chunk);
      dst := dst + bs;
    }
    return true, dst;
  }

  lemma NoUserBytes(s: State, root: nat, v: nat)
    requires TreeOk(s.tables, s.own)
    ensures UserBytes(s, root, v, 0) == []
  {
  }

  lemma ChunkBytes(s: State, root: nat, va: nat, chunk: nat)
    requires TreeOk(s.tables, s.own) && IsRoot(s.own, root)
    requires 0 < chunk && va + chunk <= 512 * GB512 && va % KB4 + chunk <= KB4
    requires Backed(s, root, va, chunk) && AllPresent(s.tables, root, va, chunk)
    ensures var p := Translate(s.tables, root, va);
            && p / KB4 * KB4 in s.data && p % KB4 + chunk <= KB4
            && UserBytes(s, root, va, chunk) == s.data[p / KB4 * KB4][p % KB4..p % KB4 + chunk]
  {
    hide WalkFrom, TreeOk, SamePage, Translate;
    var p := Translate(s.tables, root, va);
    ChunkTranslate(s.tables, s.own, root, va, chunk - 1);
    forall i | 0 <= i < chunk
      ensures UserBytes(s, root, va, chunk)[i] == s.data[p / KB4 * KB4][p % KB4..p % KB4 + chunk][i]
    {
      ChunkTranslate(s.tables, s.own, root, va, i);
    }
  }

  lemma UserBytesConcat(s: State, root: nat, v: nat, n: nat, k: nat)
    requires TreeOk(s.tables, s.own) && Backed(s, root, v, n + k)
    requires AllPresent(s.tables, root, v, n) && AllPresent(s.tables, root, v + n, k)
    ensures AllPresent(s.tables, root, v, n + k)
    ensures UserBytes(s, root, v, n + k) == UserBytes(s, root, v, n) + UserBytes(s, root, v + n, k)
  {
    hide WalkFrom, TreeOk, Translate;
  }

  lemma ChunkTranslate(ts: Tables, own: map<nat, Node>, root: nat, va: nat, i: nat)
    requires TreeOk(ts, own) && IsRoot(own, root) && va + i < 512 * GB512 && va % KB4 + i < KB4
    requires Translate(ts, root, va) != 0
    ensures var p, q := Translate(ts, root, va), Translate(ts, root, va + i);
            q != 0 && q / KB4 * KB4 == p / KB4 * KB4 && q % KB4 == p % KB4 + i
  {
    hide WalkFrom, TreeOk, SamePage;
    SamePageBySize(va, va + i);
    TranslateWithinPage(ts, own, root, va, va + i);
  }

  /** In a region the two views of the bytes agree, so what CopyToUser stored is what CopyFromUser
      returns. */
  lemma UserBytesInRegion(s: State, root: nat, lo: nat, hi: nat, v: nat, n: nat)
    requires Region(s, root, lo, hi) && lo <= v && v + n <= hi
    ensures AllPresent(s.tables, root, v, n) && Backed(s, root, v, n)
    ensures UserBytes(s, root, v, n) == Load(View(s, root, lo, hi), v, n)
  {
    hide WalkFrom;
    RegionPresent(s, root, lo, hi, v, n);
    forall i | 0 <= i < n ensures UserBytes(s, root, v, n)[i] == View(s, root, lo, hi)[v + i] {
      TranslateInRegion(s, root, lo, hi, v + i);
    }
  }

  lemma CopyRoundTrip(s: State, s': State, root: nat, lo: nat, hi: nat, v: nat, src: seq<Byte>)
    requires Region(s, root, lo, hi) && Region(s', root, lo, hi) && lo <= v && v + |src| <= hi
    requires View(s', root, lo, hi) == Store(View(s, root, lo, hi), v, src)
    ensures AllPresent(s'.tables, root, v, |src|) && Backed(s', root, v, |src|)
    ensures UserBytes(s', root, v, |src|) == src
  {
    hide WalkFrom, TreeOk;
    UserBytesInRegion(s', root, lo, hi, v, |src|);
    LoadStore(View(s, root, lo, hi), v, src);
  }

  /** What was stored is what is loaded. */
  lemma LoadStore(m: map<nat, Byte>, at: nat, bs: seq<Byte>)
    requires forall w: nat :: at <= w < at + |bs| ==> w in m
    ensures Load(Store(m, at, bs), at, |bs|) == bs
  {
  }
}
