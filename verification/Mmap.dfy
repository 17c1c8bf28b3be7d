/** Mapping runs of fresh pages: vm_map, and the placement and mapping of sys_mmap. */
module MemoryMapping {
  import opened Options
  import opened BitCounts
  import opened Bytes
  import opened PhysicalMemory
  import opened PageTables
  import opened AddressSpaces

  const MMAP_HINT_BASE := 0x7f00_0010_0000
  const MMAP_TRIES := 0x40000

  // ---------------------------------------------------------------------------------------------
  // Mapping a run of fresh pages
  // ---------------------------------------------------------------------------------------------

  /** Page `k` of the run resolves to `frames[k]`, which was free before and holds `content(k)`. */
  ghost predicate PageMapped(s: State, s': State, root: nat, base: nat, frames: seq<nat>, flags: Flags, content: nat -> Page, k: nat)
    requires k < |frames|
  {
    && FreshPage(s, s', frames[k]) && s'.data[frames[k]] == content(k)
    && forall w: nat :: SamePage(PageAt(base, k), w) ==>
         Lookup(s'.tables, root, w) == LeafAccess(LeafEntry(frames[k], flags), w)
  }

  /** The run from `base` on is mapped to fresh, pairwise different frames, and every other address
      of every address space resolves as before. */
  ghost predicate RangeMapped(s: State, s': State, root: nat, base: nat, frames: seq<nat>, flags: Flags, content: nat -> Page) {
    && Kept(s, s') && SameRoots(s.own, s'.own)
    && (forall k: nat :: k < |frames| ==> PageMapped(s, s', root, base, frames, flags, content, k))
    && (forall j, k :: 0 <= j < k < |frames| ==> frames[j] != frames[k])
    && (forall r: nat, w: nat :: IsRoot(s.own, r) && (r != root || !InPages(base, |frames|, w)) ==>
          Lookup(s'.tables, r, w) == Lookup(s.tables, r, w))
  }

  /** One more page: allocated and filled (`s` to `s1`), then mapped (`s1` to `s2`). */
  ghost predicate OnePage(s: State, s1: State, s2: State, root: nat, v: nat, np: nat, flags: Flags, content: Page) {
    && s1.tables == s.tables && s1.own == s.own
    && Kept(s, s1) && FreshPage(s, s1, np) && s1.data[np] == content
    && Kept(s1, s2) && SameRoots(s1.own, s2.own) && LeafWritten(s1.tables, s2.tables, s1.own, root, v, LeafEntry(np, flags))
  }

  lemma EarlierPage(s0: State, s: State, s1: State, s2: State, root: nat, base: nat, frames: seq<nat>, flags: Flags,
      content: nat -> Page, np: nat, k: nat)
    requires RangeMapped(s0, s, root, base, frames, flags, content) && IsRoot(s0.own, root)
    requires base % KB4 == 0 && k < |frames| < PAGES
    requires OnePage(s, s1, s2, root, PageAt(base, |frames|), np, flags, content(|frames|))
    ensures PageMapped(s0, s2, root, base, frames + [np], flags, content, k)
    ensures frames[k] != np
  {
    hide WalkFrom, Index, SamePage, LeafAccess, LeafEntry, InPages;
    assert PageMapped(s0, s, root, base, frames, flags, content, k);
    KeptTrans(s, s1, s2);
    DataFrameKept(s, s2, frames[k]);
    PagesDistinct(base, k, |frames|);
    forall w: nat | SamePage(PageAt(base, k), w)
      ensures Lookup(s2.tables, root, w) == LeafAccess(LeafEntry(frames[k], flags), w)
    {
      OneOfTwo(PageAt(base, k), PageAt(base, |frames|), w);
    }
  }

  lemma OneOfTwo(u: nat, v: nat, w: nat)
    requires SamePage(u, w) && !SamePage(u, v)
    ensures !SamePage(v, w)
  {
    if SamePage(v, w) {
      assert SamePage(u, v);
    }
  }

  lemma LastPage(s0: State, s: State, s1: State, s2: State, root: nat, base: nat, frames: seq<nat>, flags: Flags,
      content: nat -> Page, np: nat)
    requires RangeMapped(s0, s, root, base, frames, flags, content) && IsRoot(s0.own, root)
    requires OnePage(s, s1, s2, root, PageAt(base, |frames|), np, flags, content(|frames|))
    ensures PageMapped(s0, s2, root, base, frames + [np], flags, content, |frames|)
  {
    hide WalkFrom, Index, SamePage, LeafAccess, LeafEntry, InPages, PageMapped;
    DataFrameKept(s1, s2, np);
    assert FreshPage(s0, s2, np);
    assert (frames + [np])[|frames|] == np;
    forall w: nat | SamePage(PageAt(base, |frames|), w)
      ensures Lookup(s2.tables, root, w) == LeafAccess(LeafEntry(np, flags), w)
    {
    }
    PageMappedIntro(s0, s2, root, base, frames + [np], flags, content, |frames|);
  }

  lemma PageMappedIntro(s: State, s': State, root: nat, base: nat, frames: seq<nat>, flags: Flags, content: nat -> Page, k: nat)
    requires k < |frames| && FreshPage(s, s', frames[k]) && s'.data[frames[k]] == content(k)
    requires forall w: nat :: SamePage(PageAt(base, k), w) ==>
               Lookup(s'.tables, root, w) == LeafAccess(LeafEntry(frames[k], flags), w)
    ensures PageMapped(s, s', root, base, frames, flags, content, k)
  {
    hide WalkFrom, Index, SamePage, LeafAccess, LeafEntry;
  }

  lemma OneMorePage(s0: State, s: State, s1: State, s2: State, root: nat, base: nat, frames: seq<nat>, flags: Flags,
      content: nat -> Page, np: nat)
    requires RangeMapped(s0, s, root, base, frames, flags, content) && IsRoot(s0.own, root)
    requires base % KB4 == 0 && |frames| < PAGES
    requires OnePage(s, s1, s2, root, PageAt(base, |frames|), np, flags, content(|frames|))
    ensures RangeMapped(s0, s2, root, base, frames + [np], flags, content)
  {
    hide WalkFrom, Index, SamePage, LeafAccess, LeafEntry, InPages, PageMapped;
    KeptTrans(s0, s, s1);
    KeptTrans(s0, s1, s2);
    var frames' := frames + [np];
    forall k: nat | k < |frames'| ensures PageMapped(s0, s2, root, base, frames', flags, content, k) {
      if k < |frames| {
        EarlierPage(s0, s, s1, s2, root, base, frames, flags, content, np, k);
      } else {
        LastPage(s0, s, s1, s2, root, base, frames, flags, content, np);
      }
    }
    forall j, k | 0 <= j < k < |frames'| ensures frames'[j] != frames'[k] {
      if k == |frames| { EarlierPage(s0, s, s1, s2, root, base, frames, flags, content, np, j); }
    }
    forall r: nat, w: nat | IsRoot(s0.own, r) && (r != root || !InPages(base, |frames'|, w))
      ensures Lookup(s2.tables, r, w) == Lookup(s0.tables, r, w)
    {
      InPagesStep(base, |frames|, w);
      assert Lookup(s.tables, r, w) == Lookup(s0.tables, r, w);
    }
  }

  ghost predicate RunAboveKernel(base: nat, n: nat) {
    forall k: nat :: k < n ==> AboveKernel(PageAt(base, k))
  }

  lemma IdentityShadowsNothing(ts: Tables, root: nat)
    requires IdentityMapped(ts, root)
    ensures NothingShadowed(ts, root)
  {
    hide WalkFrom;
    forall i | 0 <= i < HOT_ZONE_PAGES ensures LinearOk(ts, root, Addr(i)) {
      assert Lookup(ts, root, Addr(i)) == Some(Access(Addr(i), false, true, false));
    }
  }

  lemma OnePageKeepsIdentity(s: State, s1: State, s2: State, root: nat, v: nat, np: nat, flags: Flags, content: Page, r: nat)
    requires OnePage(s, s1, s2, root, v, np, flags, content) && v % KB4 == 0 && AboveKernel(v)
    requires IsRoot(s.own, r) && IdentityMapped(s.tables, r)
    ensures IdentityMapped(s2.tables, r)
  {
    hide WalkFrom, LeafWritten, IdentityMapped, AboveKernel;
    MapKeepsIdentity(s.tables, s2.tables, s.own, root, v, LeafEntry(np, flags), r);
  }

  /** Allocates, fills and maps one page. */
  method MapFreshPage(vm: Vm, root: nat, v: nat, flags: Flags, content: Page) returns (ok: bool, ghost np: nat, ghost s1: State)
    requires vm.Valid() && IsRoot(vm.own, root)
    modifies vm`tables, vm`own, vm`data, vm.phys`hotUsedPages, vm.phys.hotBitmap, vm.phys.hotFreeCache
    ensures vm.Valid() && IsRoot(vm.own, root)
    ensures ok ==> OnePage(old(vm.Now()), s1, vm.Now(), root, v, np, flags, content)
    ensures ok ==> v % KB4 == 0 && vm.phys.hotUsedPages > old(vm.phys.hotUsedPages)
    ensures !ok ==> Kept(old(vm.Now()), vm.Now()) && SameRoots(old(vm.own), vm.own) && SameLookups(old(vm.tables), vm.tables, old(vm.own))
    ensures !ok && v % KB4 == 0 && NothingShadowed(old(vm.tables), vm.cr3) ==> vm.OutOfMemory()
  {
    hide WalkFrom, Index, SamePage, TreeOk, LeafAccess, LeafEntry, LeafWritten, NothingShadowed;
    ghost var s := vm.Now();
    var p := vm.AllocPage();
    np, s1 := p, vm.Now();
    if p == NULL {
      return false, np, s1;
    }
    vm.data := vm.data[p := content];
    s1 := vm.Now();
    ok := vm.MapPage(root, v, p, flags);
    KeptTrans(s, s1, vm.Now());
    CountUsedMonotone(s.used, s1.used);
    CountUsedMonotone(s1.used, vm.phys.hotBitmap[..]);
  }

  lemma CountIs(z: HotZone)
    requires Consistent(z)
    ensures |z.used| == HOT_ZONE_PAGES && z.usedPages <= HOT_ZONE_PAGES
  {
    CountUsedBound(z.used);
  }

  lemma NothingMapped(s: State, root: nat, base: nat, flags: Flags, content: nat -> Page)
    requires |s.used| == HOT_ZONE_PAGES
    ensures RangeMapped(s, s, root, base, [], flags, content)
  {
  }

  /** The page loop of vm_map and sys_mmap. It stops at the first page that cannot be mapped. */
  method MapFreshPages(vm: Vm, root: nat, base: nat, n: nat, flags: Flags, content: nat -> Page) returns (ok: bool, ghost frames: seq<nat>)
    requires vm.Valid() && IsRoot(vm.own, root)
    modifies vm`tables, vm`own, vm`data, vm.phys`hotUsedPages, vm.phys.hotBitmap, vm.phys.hotFreeCache
    ensures vm.Valid() && |frames| <= n && (ok <==> |frames| == n)
    ensures ok && n > 0 ==> base % KB4 == 0
    ensures RangeMapped(old(vm.Now()), vm.Now(), root, base, frames, flags, content)
    ensures !ok && base % KB4 == 0 && RunAboveKernel(base, n) && IdentityMapped(old(vm.tables), vm.cr3) ==> vm.OutOfMemory()
  {
    hide WalkFrom, Index, SamePage, TreeOk, LeafAccess, LeafEntry, InPages, PageMapped, OnePage, IdentityMapped, NothingShadowed,
      RangeMapped, Consistent;
    ghost var s0 := vm.Now();
    frames := [];
    var i := 0;
    CountIs(vm.phys.Zone());
    NothingMapped(s0, root, base, flags, content);
    while i < n
      invariant i == |frames| <= n
      invariant vm.Valid() && IsRoot(vm.own, root)
      invariant i > 0 ==> base % KB4 == 0
      invariant i <= vm.phys.hotUsedPages
      invariant RangeMapped(s0, vm.Now(), root, base, frames, flags, content)
      invariant RunAboveKernel(base, n) && IdentityMapped(s0.tables, vm.cr3) ==> IdentityMapped(vm.tables, vm.cr3)
    {
      ghost var s := vm.Now();
      CountIs(vm.phys.Zone());
      if IdentityMapped(s.tables, vm.cr3) { IdentityShadowsNothing(s.tables, vm.cr3); }
      ghost var np, s1;
      ok, np, s1 := MapFreshPage(vm, root, PageAt(base, i), flags, content(i));
      if !ok {
        LeakKeeps(s0, s, vm.Now(), root, base, frames, flags, content);
        return false, frames;
      }
      assert base % KB4 == 0;
      OneMorePage(s0, s, s1, vm.Now(), root, base, frames, flags, content, np);
      if RunAboveKernel(base, n) && IdentityMapped(s.tables, vm.cr3) {
        OnePageKeepsIdentity(s, s1, vm.Now(), root, PageAt(base, i), np, flags, content(i), vm.cr3);
      }
      frames := frames + [np];
      i := i + 1;
    }
    return true, frames;
  }

  /** A page that is taken but not mapped changes no address and no mapped page. */
  lemma LeakKeeps(s0: State, s: State, s': State, root: nat, base: nat, frames: seq<nat>, flags: Flags, content: nat -> Page)
    requires RangeMapped(s0, s, root, base, frames, flags, content) && IsRoot(s0.own, root)
    requires Kept(s, s') && SameRoots(s.own, s'.own) && SameLookups(s.tables, s'.tables, s.own)
    ensures RangeMapped(s0, s', root, base, frames, flags, content)
  {
    hide WalkFrom, Index, SamePage, LeafAccess, LeafEntry, InPages;
    KeptTrans(s0, s, s');
    forall k: nat | k < |frames| ensures PageMapped(s0, s', root, base, frames, flags, content, k) {
      assert PageMapped(s0, s, root, base, frames, flags, content, k);
      DataFrameKept(s, s', frames[k]);
    }
  }

  /** vm_map: anonymous zeroed pages for [v, v + size), rounded out to whole pages; the upper bound is
      computed modulo 2^64. */
  method Map(vm: Vm, root: nat, v: nat, size: nat, flags: Flags) returns (ok: bool, ghost frames: seq<nat>)
    requires vm.Valid() && IsRoot(vm.own, root) && v < W64 && size < W64
    modifies vm`tables, vm`own, vm`data, vm.phys`hotUsedPages, vm.phys.hotBitmap, vm.phys.hotFreeCache
    ensures vm.Valid()
    ensures ok ==> |frames| == MapCount(v, size)
    ensures RangeMapped(old(vm.Now()), vm.Now(), root, v / KB4 * KB4, frames, flags, _ => ZeroPage())
    ensures ok && flags.user && v + size + 0xFFF < W64 ==>
              forall w: nat :: v <= w < v + size ==> UserByte(vm.Now(), root, w, flags.write, flags.exec, 0)
    ensures !ok && RunAboveKernel(v / KB4 * KB4, MapCount(v, size)) && IdentityMapped(old(vm.tables), vm.cr3) ==> vm.OutOfMemory()
  {
    hide WalkFrom, Index, SamePage, TreeOk, LeafAccess, LeafEntry, InPages, PageMapped, IdentityMapped, RunAboveKernel;
    frames := [];
    if size == 0 {
      return true, [];
    }
    var start := v / KB4 * KB4;
    var end := (v + size + 0xFFF) % W64 / KB4 * KB4;
    ok, frames := MapFreshPages(vm, root, start, if end > start then (end - start) / KB4 else 0, flags, _ => ZeroPage());
    if ok && flags.user && v + size + 0xFFF < W64 {
      forall w: nat | v <= w < v + size ensures UserByte(vm.Now(), root, w, flags.write, flags.exec, 0) {
        WholePages(v, size, w);
        RangeBytes(old(vm.Now()), vm.Now(), root, start, frames, flags, _ => ZeroPage(), w);
      }
    }
  }

  /** The pages of vm_map cover the range. */
  lemma WholePages(v: nat, size: nat, w: nat)
    requires size > 0 && v + size + 0xFFF < W64 && v <= w < v + size
    ensures v / KB4 * KB4 <= w < v / KB4 * KB4 + MapCount(v, size) * KB4
  {
    var start, end := v / KB4, (v + size + 0xFFF) / KB4;
    assert (v + size + 0xFFF) % W64 == v + size + 0xFFF;
    assert start * KB4 <= v && v + size <= end * KB4;
    assert end > start;
    assert (end * KB4 - start * KB4) / KB4 == end - start;
  }

  /** The pages that vm_map maps: those that [v, v + size) touches, unless the end wraps. */
  function MapCount(v: nat, size: nat): nat {
    var start := v / KB4 * KB4;
    var end := (v + size + 0xFFF) % W64 / KB4 * KB4;
    if size > 0 && end > start then (end - start) / KB4 else 0
  }

  // ---------------------------------------------------------------------------------------------
  // Placing a mapping
  // ---------------------------------------------------------------------------------------------

  /** No page of the run translates to anything, as vm_translate reports it. */
  ghost predicate LooksFree(ts: Tables, root: nat, a: nat, n: nat) {
    forall k: nat :: k < n ==> Translate(ts, root, PageAt(a, k)) == 0
  }

  method RangePresent(ts: Tables, root: nat, a: nat, n: nat) returns (present: bool)
    ensures present <==> !LooksFree(ts, root, a, n)
  {
    hide WalkFrom;
    for i := 0 to n
      invariant LooksFree(ts, root, a, i)
    {
      if Translate(ts, root, PageAt(a, i)) != 0 {
        return true;
      }
    }
    return false;
  }

  /** The `t`-th address that mmap_place_free tries, in 64-bit arithmetic. */
  function Candidate(start: nat, t: nat): nat {
    ((start + 0xFFF) % W64 / KB4 * KB4 + t * KB4) % W64
  }

  /** `a` is the first candidate at or above the hint whose run looks free. */
  ghost predicate LowestFree(ts: Tables, root: nat, start: nat, n: nat, a: nat) {
    exists t: nat :: && t < MMAP_TRIES && a == Candidate(start, t) && LooksFree(ts, root, a, n)
                     && forall u: nat :: u < t ==> !LooksFree(ts, root, Candidate(start, u), n)
  }

  ghost predicate NoneFree(ts: Tables, root: nat, start: nat, n: nat) {
    forall u: nat :: u < MMAP_TRIES ==> !LooksFree(ts, root, Candidate(start, u), n)
  }

  /** What the search finds: a page-aligned run at or above the hint, within the first gigabyte behind it, that looks
      free, and no aligned run between the hint and it does. */
  lemma LowestFreeIs(ts: Tables, root: nat, start: nat, n: nat, a: nat)
    requires LowestFree(ts, root, start, n, a) && start + 0x4000_1000 < W64
    ensures a % 4096 == 0 && start <= a < start + 0x4000_1000 && LooksFree(ts, root, a, n)
    ensures forall b: nat :: start <= b < a && b % 4096 == 0 ==> !LooksFree(ts, root, b, n)
  {
    hide LooksFree, Candidate;
    var t: nat :| t < MMAP_TRIES && a == Candidate(start, t) && LooksFree(ts, root, a, n)
                  && forall u: nat :: u < t ==> !LooksFree(ts, root, Candidate(start, u), n);
    CandidateIs(start, t);
    forall b: nat | start <= b < a && b % 4096 == 0 ensures !LooksFree(ts, root, b, n) {
      var u := CandidateFor(start, t, b);
    }
  }

  /** The aligned addresses before a candidate are the candidates before it. */
  lemma CandidateFor(start: nat, t: nat, b: nat) returns (u: nat)
    requires t < MMAP_TRIES && start + 0x4000_1000 < W64 && start <= b < Candidate(start, t) && b % 4096 == 0
    ensures u < t && Candidate(start, u) == b
  {
    hide Candidate;
    CandidateIs(start, t);
    var up := (start + 0xFFF) / 4096;
    u := b / 4096 - up;
    CandidateIs(start, u);
  }

  lemma CandidateIs(start: nat, t: nat)
    requires t < MMAP_TRIES && start + 0x4000_1000 < W64
    ensures Candidate(start, t) == (start + 0xFFF) / 4096 * 4096 + t * 4096
  {
    var up := (start + 0xFFF) / 4096 * 4096;
    assert up <= start + 0xFFF && up + t * 4096 < W64;
  }

  lemma FoundOrNone(ts: Tables, root: nat, start: nat, n: nat, a: nat)
    ensures !(LowestFree(ts, root, start, n, a) && NoneFree(ts, root, start, n))
  {
    hide LooksFree, Candidate;
  }

  lemma LowestFreeUnique(ts: Tables, root: nat, start: nat, n: nat, a: nat, b: nat)
    requires LowestFree(ts, root, start, n, a)
    requires LowestFree(ts, root, start, n, b) || (b == 0 && NoneFree(ts, root, start, n))
    ensures LowestFree(ts, root, start, n, b) && a == b
  {
    hide LooksFree, Candidate;
    var t: nat :| t < MMAP_TRIES && a == Candidate(start, t) && LooksFree(ts, root, a, n)
                  && forall u: nat :: u < t ==> !LooksFree(ts, root, Candidate(start, u), n);
    var t': nat :| t' < MMAP_TRIES && b == Candidate(start, t') && LooksFree(ts, root, b, n)
                  && forall u: nat :: u < t' ==> !LooksFree(ts, root, Candidate(start, u), n);
    assert t == t';
  }

  method PlaceFree(ts: Tables, root: nat, start: nat, n: nat) returns (a: nat)
    requires start < W64
    ensures LowestFree(ts, root, start, n, a) || (a == 0 && NoneFree(ts, root, start, n))
    ensures a % KB4 == 0 && a < W64
  {
    hide WalkFrom, LooksFree;
    a := (start + 0xFFF) % W64 / KB4 * KB4;
    for tries := 0 to MMAP_TRIES
      invariant a == Candidate(start, tries)
      invariant forall u: nat :: u < tries ==> !LooksFree(ts, root, Candidate(start, u), n)
    {
      var present := RangePresent(ts, root, a, n);
      if !present {
        assert LowestFree(ts, root, start, n, a);
        CandidateAligned(start, tries);
        return a;
      }
      a := (a + KB4) % W64;
      CandidateStep(start, tries);
    }
    return 0;
  }

  lemma CandidateStep(start: nat, t: nat)
    ensures Candidate(start, t + 1) == (Candidate(start, t) + KB4) % W64
  {
    var b := (start + 0xFFF) % W64 / KB4 * KB4;
    ModStep(b + t * KB4);
    assert b + (t + 1) * KB4 == b + t * KB4 + KB4;
  }

  lemma ModStep(x: nat)
    ensures (x + KB4) % W64 == (x % W64 + KB4) % W64
  {
    var q, r := x / W64, x % W64;
    if r + KB4 < W64 {
      ModUnique(q, r + KB4);
    } else {
      ModUnique(q + 1, r + KB4 - W64);
    }
  }

  lemma ModUnique(q: nat, r: nat)
    requires r < W64
    ensures (q * W64 + r) % W64 == r
  {
  }

  lemma CandidateAligned(start: nat, t: nat)
    ensures Candidate(start, t) % KB4 == 0
  {
    var q := (start + 0xFFF) % W64 / KB4;
    assert q * KB4 + t * KB4 == (q + t) * KB4;
    AlignedMod(q + t);
  }

  lemma AlignedMod(q: nat)
    ensures q * KB4 % W64 % KB4 == 0
  {
  }

  // ---------------------------------------------------------------------------------------------
  // sys_mmap
  // ---------------------------------------------------------------------------------------------

  const EINVAL := -22
  const MAP_FAILED := -1

  function MmapPages(length: nat): nat { (length + 0xFFF) % W64 / KB4 }

  /** The page after a run of `n` pages at `base`, in 64-bit arithmetic. */
  function NextCursor(base: nat, n: nat): nat { (base + n * KB4 + 0xFFF) % W64 / KB4 * KB4 }

  /** The cursor has moved up to the end of the run that the search from it found. */
  ghost predicate AdvancedPast(ts: Tables, root: nat, cursor: nat, n: nat, cursor': nat) {
    cursor' > cursor && exists base: nat :: LowestFree(ts, root, cursor, n, base) && cursor' == NextCursor(base, n)
  }

  datatype Prot = Prot(read: bool, write: bool, exec: bool)

  function MmapFlags(prot: Prot): Flags { Flags(prot.read, prot.write, prot.exec, true) }

  /** User code finds byte `b` at address `w`, with these rights. */
  ghost predicate UserByte(s: State, root: nat, w: nat, write: bool, exec: bool, b: Byte) {
    && UserAt(s.tables, root, w) && Lookup(s.tables, root, w).value.write == write && Lookup(s.tables, root, w).value.nx == !exec
    && FrameAt(s.tables, root, w) in s.data && s.data[FrameAt(s.tables, root, w)][w % KB4] == b
  }

  /** Every address of a mapped run is a user address with the given rights and the bytes of its page. */
  lemma RangeBytes(s: State, s': State, root: nat, base: nat, frames: seq<nat>, flags: Flags, content: nat -> Page, w: nat)
    requires RangeMapped(s, s', root, base, frames, flags, content) && base % KB4 == 0 && flags.user
    requires base <= w < base + |frames| * KB4
    ensures UserByte(s', root, w, flags.write, flags.exec, content((w - base) / KB4)[w % KB4])
  {
    hide WalkFrom, Index, SamePage;
    var k := (w - base) / KB4;
    assert w - base == k * KB4 + (w - base) % KB4;
    assert k < |frames|;
    SamePageNumber(PageAt(base, k), w);
    assert PageAt(base, k) / KB4 == w / KB4;
    assert PageMapped(s, s', root, base, frames, flags, content, k);
    PageAddrAligned(frames[k]);
    assert (frames[k] + w % KB4) / KB4 * KB4 == frames[k];
  }

  class Mmap {
    const vm: Vm
    var mmapCursor: nat

    constructor (vm: Vm)
      ensures this.vm == vm && mmapCursor == MMAP_HINT_BASE
    {
      this.vm, mmapCursor := vm, MMAP_HINT_BASE;
    }

    /** sys_mmap for the address space `root`. `content` gives the bytes of each page: zeroes for an
        anonymous mapping, the file's bytes padded with zeroes otherwise. */
    method SysMmap(root: nat, addr: nat, length: nat, prot: Prot, fixed: bool, content: nat -> Page)
      returns (r: int, ghost frames: seq<nat>)
      requires vm.Valid() && IsRoot(vm.own, root) && addr < W64 && length < W64 && mmapCursor < W64
      modifies this`mmapCursor, vm`tables, vm`own, vm`data, vm.phys`hotUsedPages, vm.phys.hotBitmap, vm.phys.hotFreeCache
      ensures vm.Valid() && mmapCursor < W64
      ensures length == 0 ==> r == EINVAL && vm.Now() == old(vm.Now()) && mmapCursor == old(mmapCursor)
      ensures length > 0 && !fixed ==>
                var hint := if addr != 0 then addr else old(mmapCursor);
                && r != 0 && (r > 0 ==> LowestFree(old(vm.tables), root, hint, MmapPages(length), r))
                && (NoneFree(old(vm.tables), root, hint, MmapPages(length)) ==> r == MAP_FAILED && vm.Now() == old(vm.Now()))
      ensures length > 0 && fixed && r >= 0 ==> r == addr
      ensures r >= 0 ==> |frames| == MmapPages(length)
                         && RangeMapped(old(vm.Now()), vm.Now(), root, r, frames, MmapFlags(prot), content)
      ensures r < 0 ==> r == EINVAL || r == MAP_FAILED
      ensures r == MAP_FAILED ==> |frames| <= MmapPages(length)
      ensures r == MAP_FAILED ==>
                exists base: nat :: RangeMapped(old(vm.Now()), vm.Now(), root, base, frames, MmapFlags(prot), content)
      ensures r == MAP_FAILED && !fixed && IdentityMapped(old(vm.tables), vm.cr3) ==>
                var hint := if addr != 0 then addr else old(mmapCursor);
                forall base: nat :: (base > 0 && RunAboveKernel(base, MmapPages(length))
                                     && LowestFree(old(vm.tables), root, hint, MmapPages(length), base)) ==> vm.OutOfMemory()
      ensures addr != 0 || fixed || r == EINVAL ==> mmapCursor == old(mmapCursor)
      ensures mmapCursor == old(mmapCursor)
              || (addr == 0 && !fixed && AdvancedPast(old(vm.tables), root, old(mmapCursor), MmapPages(length), mmapCursor))
      ensures addr == 0 && !fixed && r > 0 ==> mmapCursor >= NextCursor(r, MmapPages(length))
      ensures addr == 0 && !fixed && r > 0 && r + length + 0x1FFF < W64 ==> mmapCursor >= r + length
      ensures r >= 0 && length + 0xFFF < W64 ==>
                forall w: nat :: r <= w < r + length ==> UserByte(vm.Now(), root, w, prot.write, prot.exec, content((w - r) / KB4)[w % KB4])
      ensures r >= 0 ==> OutsideSame(old(vm.Now()), vm.Now(), root, r, if length + 0xFFF < W64 then length else 0)
    {
      hide WalkFrom, Index, SamePage, TreeOk, LeafAccess, LeafEntry, InPages, PageMapped, LooksFree, IdentityMapped, RunAboveKernel, UserByte,
        OutsideSame, MmapPages, RangeMapped, MmapFlags, LowestFree, NoneFree;
      frames := [];
      if length == 0 {
        return EINVAL, frames;
      }
      var n := MmapPages(length);
      var base := addr;
      if !fixed {
        var hint := if addr != 0 then addr else mmapCursor;
        base := PlaceFree(vm.tables, root, hint, n);
        FoundOrNone(vm.tables, root, hint, n, base);
        forall other: nat | LowestFree(vm.tables, root, hint, n, other) ensures LowestFree(vm.tables, root, hint, n, base) && other == base {
          LowestFreeUnique(vm.tables, root, hint, n, other, base);
        }
        if base == 0 {
          NothingMapped(vm.Now(), root, 0, MmapFlags(prot), content);
          return MAP_FAILED, frames;
        }
        if addr == 0 {
          var next := (base + n * KB4 + 0xFFF) % W64 / KB4 * KB4;
          assert next == NextCursor(base, n);
          if next > mmapCursor {
            assert AdvancedPast(vm.tables, root, mmapCursor, n, next);
            mmapCursor := next;
          }
        }
      }
      var ok;
      ok, frames := MapFreshPages(vm, root, base, n, MmapFlags(prot), content);
      r := if ok then base else MAP_FAILED;
      if ok {
        if base + length + 0x1FFF < W64 && base % KB4 == 0 { CursorBehind(base, length); }
        MmapResult(old(vm.Now()), vm.Now(), root, base, frames, prot, content, length);
      }
    }
  }

  /** What a successful mmap gives the program: its bytes with its rights up to `length`, and nothing else. A length
      within 4095 bytes of 2^64 wraps, and then nothing is mapped at all. */
  lemma MmapResult(s: State, s': State, root: nat, base: nat, frames: seq<nat>, prot: Prot, content: nat -> Page, length: nat)
    requires RangeMapped(s, s', root, base, frames, MmapFlags(prot), content) && 0 < length < W64
    requires |frames| == MmapPages(length) && (|frames| > 0 ==> base % KB4 == 0)
    ensures length + 0xFFF < W64 ==>
              forall w: nat :: base <= w < base + length ==> UserByte(s', root, w, prot.write, prot.exec, content((w - base) / KB4)[w % KB4])
    ensures OutsideSame(s, s', root, base, if length + 0xFFF < W64 then length else 0)
  {
    hide WalkFrom, Index, SamePage, PageMapped, OffRange, InPages, UserByte;
    PagesOfLength(length);
    if length + 0xFFF < W64 {
      forall w: nat | base <= w < base + length
        ensures UserByte(s', root, w, prot.write, prot.exec, content((w - base) / KB4)[w % KB4])
      {
        RangeBytes(s, s', root, base, frames, MmapFlags(prot), content, w);
      }
    }
    var l := if length + 0xFFF < W64 then length else 0;
    forall q: nat, w: nat | IsRoot(s.own, q) && (q != root || OffRange(base, l, w)) ensures Lookup(s'.tables, q, w) == Lookup(s.tables, q, w) {
      if q == root { OffRun(base, l, |frames|, w); }
    }
  }

  /** The cursor is behind the run. */
  lemma CursorBehind(base: nat, length: nat)
    requires base % KB4 == 0 && base + length + 0x1FFF < W64
    ensures NextCursor(base, MmapPages(length)) >= base + length
  {
    var n := MmapPages(length);
    assert length <= n * KB4 < length + KB4 || length == 0;
    assert (base + n * KB4 + 0xFFF) % W64 == base + n * KB4 + 0xFFF;
  }

  /** The pages that mmap maps cover the length exactly if rounding it up does not wrap. */
  lemma CoversIff(length: nat)
    requires 0 < length < W64
    ensures length <= MmapPages(length) * KB4 <==> length + 0xFFF < W64
  {
    hide MmapPages;
    PagesOfLength(length);
  }

  /** They have less than a page to spare; if rounding up wraps there are none. */
  lemma PagesOfLength(length: nat)
    requires 0 < length < W64
    ensures length + 0xFFF < W64 ==> length <= MmapPages(length) * KB4 < length + KB4
    ensures length + 0xFFF >= W64 ==> MmapPages(length) == 0
  {
    if length + 0xFFF >= W64 { assert (length + 0xFFF) % W64 == length + 0xFFF - W64; }
  }

  /** A mapping placed where the run looks free leaves a page that was mapped before where it was, in every
      address space, exactly unless the page is one of the run and on physical frame 0, which vm_translate
      cannot tell from an absent page. */
  lemma MmapMovesIff(s: State, s': State, root: nat, base: nat, frames: seq<nat>, flags: Flags, content: nat -> Page, r: nat, w: nat)
    requires TreeOk(s.tables, s.own) && IsRoot(s.own, root) && IsRoot(s.own, r) && base % KB4 == 0
    requires RangeMapped(s, s', root, base, frames, flags, content) && LooksFree(s.tables, root, base, |frames|)
    requires Lookup(s.tables, r, w).Some?
    ensures Lookup(s'.tables, r, w) == Lookup(s.tables, r, w)
            <==> Lookup(s.tables, r, w).value.phys >= KB4 || r != root || !InPages(base, |frames|, w)
  {
    hide WalkFrom, Index, SamePage, TreeOk;
    if r == root && InPages(base, |frames|, w) {
      var k: nat :| k < |frames| && SamePage(PageAt(base, k), w);
      assert Translate(s.tables, root, PageAt(base, k)) == 0;
      assert PageAt(base, k) % KB4 == 0;
      WalkSamePage(s.tables, root, 4, PageAt(base, k), w);
      assert PageMapped(s, s', root, base, frames, flags, content, k);
      PageAddrAligned(frames[k]);
    }
  }

  /** Mapping fresh pages keeps every user page of every address space on a data page in use. */
  lemma MmapKeepsUserFrames(s: State, s': State, root: nat, base: nat, frames: seq<nat>, flags: Flags, content: nat -> Page)
    requires UserFramesOk(s) && IsRoot(s.own, root) && RangeMapped(s, s', root, base, frames, flags, content)
    ensures UserFramesOk(s')
  {
    hide WalkFrom, Index, SamePage;
    forall r: nat, w: nat | IsRoot(s'.own, r) && UserAt(s'.tables, r, w)
      ensures DataFrame(s', FrameAt(s'.tables, r, w))
    {
      if r == root && InPages(base, |frames|, w) {
        var k: nat :| k < |frames| && SamePage(PageAt(base, k), w);
        assert PageMapped(s, s', root, base, frames, flags, content, k);
        assert (frames[k] + w % KB4) / KB4 * KB4 == frames[k];
      } else {
        assert Lookup(s'.tables, r, w) == Lookup(s.tables, r, w);
        DataFrameKept(s, s', FrameAt(s.tables, r, w));
      }
    }
  }

  /** The last page below 2^48. The page behind it has index 0 at all four levels, as page 0 has. */
  const TOP_PAGE := 0xFFFF_FFFF_F000

  /** An input for which the property fails: a request for two pages with the hint at the last page, which
      is absent. The search settles on that page and on page 0, and the mapping then moves page 0. */
  lemma MmapCanMovePageZero(s: State, s': State, root: nat, frames: seq<nat>, flags: Flags, content: nat -> Page)
    requires TreeOk(s.tables, s.own) && IsRoot(s.own, root) && IdentityMapped(s.tables, root)
    requires Lookup(s.tables, root, TOP_PAGE) == None
    requires |frames| == 2 && RangeMapped(s, s', root, TOP_PAGE, frames, flags, content)
    ensures LowestFree(s.tables, root, TOP_PAGE, 2, TOP_PAGE)
    ensures Lookup(s.tables, root, 0) == Some(Access(0, false, true, false)) && Lookup(s'.tables, root, 0) != Lookup(s.tables, root, 0)
  {
    hide WalkFrom, TreeOk;
    TopPageLooksFree(s.tables, root);
    assert SamePage(PageAt(TOP_PAGE, 1), 0);
    assert InPages(TOP_PAGE, 2, 0);
    MmapMovesIff(s, s', root, TOP_PAGE, frames, flags, content, root, 0);
  }

  lemma TopPageLooksFree(ts: Tables, root: nat)
    requires IdentityMapped(ts, root) && Lookup(ts, root, TOP_PAGE) == None
    ensures LooksFree(ts, root, TOP_PAGE, 2) && LowestFree(ts, root, TOP_PAGE, 2, TOP_PAGE)
  {
    hide WalkFrom, SamePage, Index;
    assert Lookup(ts, root, 0) == Some(Access(0, false, true, false));
    SecondIsPageZero();
    WalkSamePage(ts, root, 4, PageAt(TOP_PAGE, 1), 0);
    assert PageAt(TOP_PAGE, 0) == TOP_PAGE;
    assert Candidate(TOP_PAGE, 0) == TOP_PAGE;
  }

  lemma SecondIsPageZero()
    ensures SamePage(PageAt(TOP_PAGE, 1), 0)
  {
    hide SamePage, Index;
    SamePageNumber(PageAt(TOP_PAGE, 1), 0);
  }
}
