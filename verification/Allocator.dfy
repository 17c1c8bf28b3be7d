/** The physical page allocator: a page bitmap for the hot zone, scanned in groups of 64 pages,
    with a 16-slot cache of recently freed pages in front of it. */
module PhysicalMemory {
  import opened BitCounts

  const PAGE_SIZE := 0x1000
  const HEAP_BASE := 0x800000
  const HOT_ZONE_PAGES := 0x40000
  const NUM_PAGE_GROUPS := 4096
  const WARM_BASE := 0x4080_0000
  const WARM_ZONE_PAGES := 0x20000
  const BOOMERANG_BASE := 0x6080_0000
  const BOOMERANG_PAGES := 0x10000
  const MEMORY_END := 0x7080_0000
  const HOT_CACHE_SLOTS := 16

  /** The kernel address 0 stands for the null pointer. */
  const NULL := 0

  datatype CacheEntry = CacheEntry(group: nat, bit: nat, valid: bool) {
    function Page(): nat { group * 64 + bit }
  }

  /** The value of the hot zone: which pages are taken, and the free-page cache. */
  datatype HotZone = HotZone(used: seq<bool>, cache: seq<CacheEntry>, usedPages: nat)

  function Addr(page: nat): nat { HEAP_BASE + page * PAGE_SIZE }

  function PageOf(addr: nat): nat
    requires HEAP_BASE <= addr
  {
    (addr - HEAP_BASE) / PAGE_SIZE
  }

  ghost predicate Cached(z: HotZone, page: nat) {
    exists ci :: 0 <= ci < |z.cache| && z.cache[ci].valid && z.cache[ci].Page() == page
  }

  /** What every allocator operation keeps. */
  ghost predicate Consistent(z: HotZone) {
    && |z.used| == HOT_ZONE_PAGES
    && |z.cache| == HOT_CACHE_SLOTS
    && z.usedPages == CountUsed(z.used)
    && (forall ci :: 0 <= ci < HOT_CACHE_SLOTS && z.cache[ci].valid ==>
          z.cache[ci].group < NUM_PAGE_GROUPS && z.cache[ci].bit < 64 && !z.used[z.cache[ci].Page()])
    && (forall ci, cj :: 0 <= ci < cj < HOT_CACHE_SLOTS && z.cache[ci].valid && z.cache[cj].valid ==>
          z.cache[ci].Page() != z.cache[cj].Page())
  }

  // ---------------------------------------------------------------------------------------------
  // What the operations promise, as relations between zone values
  // ---------------------------------------------------------------------------------------------

  /** The bitmap once every cached page has been taken. */
  ghost function DrainCache(z: HotZone): seq<bool>
    requires |z.used| == HOT_ZONE_PAGES
  {
    seq(HOT_ZONE_PAGES, i requires 0 <= i < HOT_ZONE_PAGES => z.used[i] || Cached(z, i))
  }

  /** Page `bit` of group `g` is the first free page of that group. */
  ghost predicate FirstFree(used: seq<bool>, g: nat, bit: nat) {
    && bit < 64 && g * 64 + bit < |used| && !used[g * 64 + bit]
    && forall j :: g * 64 <= j < g * 64 + bit ==> used[j]
  }

  /** No candidate that pmalloc would look at is usable: neither a cached page, nor the first free
      page of a group once the cache has been drained. */
  ghost predicate NoCandidate(z: HotZone, linearOk: nat -> bool)
    requires |z.used| == HOT_ZONE_PAGES
  {
    && (forall i :: 0 <= i < HOT_ZONE_PAGES && Cached(z, i) ==> !linearOk(Addr(i)))
    && (forall g: nat, bit: nat :: FirstFree(DrainCache(z), g, bit) ==> !linearOk(Addr(g * 64 + bit)))
  }

  /** pmalloc: pages are only ever taken; the page returned was free and is safe to reach; every
      other page taken on the way is one the current page tables shadow. */
  ghost predicate PmallocStep(z: HotZone, z': HotZone, linearOk: nat -> bool, r: nat) {
    && |z.used| == |z'.used| == HOT_ZONE_PAGES
    && (forall i :: 0 <= i < HOT_ZONE_PAGES && z.used[i] ==> z'.used[i])
    && (forall i :: 0 <= i < HOT_ZONE_PAGES && !z.used[i] && z'.used[i] && r != Addr(i) ==> !linearOk(Addr(i)))
    && (r != NULL ==>
          && IsPageAddr(r)
          && !z.used[PageOf(r)] && z'.used[PageOf(r)] && linearOk(r))
    && (r == NULL <==> NoCandidate(z, linearOk))
  }

  ghost predicate IsPageAddr(r: nat) {
    HEAP_BASE <= r && PageOf(r) < HOT_ZONE_PAGES && r == Addr(PageOf(r))
  }

  /** A run of `pages` free and reachable pages starts at `base`. */
  ghost predicate FreeRun(used: seq<bool>, linearOk: nat -> bool, base: nat, pages: nat) {
    && base + pages <= |used|
    && forall i :: base <= i < base + pages ==> !used[i] && linearOk(Addr(i))
  }

  ghost predicate TakeRun(z: HotZone, z': HotZone, base: nat, pages: nat) {
    && |z.used| == |z'.used| == HOT_ZONE_PAGES
    && |z.cache| == |z'.cache|
    && (forall i :: 0 <= i < HOT_ZONE_PAGES ==> z'.used[i] == (z.used[i] || base <= i < base + pages))
    && (forall ci :: 0 <= ci < |z.cache| ==>
          z'.cache[ci] == if base <= z.cache[ci].Page() < base + pages
                          then z.cache[ci].(valid := false) else z.cache[ci])
  }

  /** pmalloc_contig for at least two pages: the lowest free run on a 64-page boundary, or NULL and
      no change at all when there is none. */
  ghost predicate PmallocContigStep(z: HotZone, z': HotZone, linearOk: nat -> bool, pages: nat, r: nat)
    requires |z.used| == HOT_ZONE_PAGES
  {
    if r == NULL then
      && z' == z
      && forall base :: 0 <= base && base % 64 == 0 ==> !FreeRun(z.used, linearOk, base, pages)
    else
      && IsPageAddr(r) && PageOf(r) % 64 == 0
      && FreeRun(z.used, linearOk, PageOf(r), pages)
      && (forall base :: 0 <= base < PageOf(r) && base % 64 == 0 ==> !FreeRun(z.used, linearOk, base, pages))
      && TakeRun(z, z', PageOf(r), pages)
  }

  /** pfree on the hot zone: exactly one bit is cleared, and the page enters the first empty slot of
      the cache, if there is one; freeing a free page changes nothing. */
  ghost predicate PfreeStep(z: HotZone, z': HotZone, page: nat)
    requires |z.used| == HOT_ZONE_PAGES && page < HOT_ZONE_PAGES
  {
    if !z.used[page] then z' == z
    else
      && z'.used == z.used[page := false]
      && |z'.cache| == |z.cache|
      && if forall ci :: 0 <= ci < |z.cache| ==> z.cache[ci].valid then z'.cache == z.cache
         else exists ci :: && 0 <= ci < |z.cache| && !z.cache[ci].valid
                           && (forall cj :: 0 <= cj < ci ==> z.cache[cj].valid)
                           && z'.cache == z.cache[ci := CacheEntry(page / 64, page % 64, true)]
  }

  // ---------------------------------------------------------------------------------------------
  // The allocator
  // ---------------------------------------------------------------------------------------------

  class Allocator {
    const hotBitmap: array<bool>
    const hotFreeCache: array<CacheEntry>
    var hotUsedPages: nat
    const warmBitmap: array<bool>
    var warmUsedPages: int
    const boomerangBitmap: array<bool>
    var boomerangUsedPages: int

    ghost const Repr: set<object>

    ghost function Zone(): HotZone
      reads this, hotBitmap, hotFreeCache
    {
      HotZone(hotBitmap[..], hotFreeCache[..], hotUsedPages)
    }

    ghost predicate Valid()
      reads this, hotBitmap, hotFreeCache
    {
      && Repr == {this, hotBitmap, hotFreeCache, warmBitmap, boomerangBitmap}
      && hotBitmap != warmBitmap && hotBitmap != boomerangBitmap && warmBitmap != boomerangBitmap
      && warmBitmap.Length == WARM_ZONE_PAGES
      && boomerangBitmap.Length == BOOMERANG_PAGES
      && Consistent(Zone())
    }

    /** mm_init: everything free, every cache slot empty. */
    constructor ()
      ensures Valid() && fresh(Repr)
      ensures forall i :: 0 <= i < HOT_ZONE_PAGES ==> !hotBitmap[i]
      ensures forall ci :: 0 <= ci < HOT_CACHE_SLOTS ==> !hotFreeCache[ci].valid
    {
      hotBitmap := new bool[HOT_ZONE_PAGES](_ => false);
      hotFreeCache := new CacheEntry[HOT_CACHE_SLOTS](_ => CacheEntry(0, 0, false));
      warmBitmap := new bool[WARM_ZONE_PAGES](_ => false);
      boomerangBitmap := new bool[BOOMERANG_PAGES](_ => false);
      hotUsedPages, warmUsedPages, boomerangUsedPages := 0, 0, 0;
      Repr := {this, hotBitmap, hotFreeCache, warmBitmap, boomerangBitmap};
      new;
      NoneUsed(hotBitmap[..]);
    }

    /** Marks one free page as taken. */
    method SetBit(page: nat)
      requires Valid() && page < HOT_ZONE_PAGES && !hotBitmap[page]
      requires !Cached(Zone(), page)
      modifies this`hotUsedPages, hotBitmap
      ensures Valid()
      ensures Zone() == old(Zone()).(used := old(hotBitmap[..])[page := true], usedPages := old(hotUsedPages) + 1)
    {
      CountUsedUpdate(hotBitmap[..], page, true);
      hotBitmap[page] := true;
      hotUsedPages := hotUsedPages + 1;
      assert hotBitmap[..] == old(hotBitmap[..])[page := true];
    }

    /** Consumes the page in a valid cache slot: the slot is emptied and the bit set. */
    method ConsumeSlot(ci: nat) returns (page: nat)
      requires Valid() && ci < HOT_CACHE_SLOTS && hotFreeCache[ci].valid
      modifies this`hotUsedPages, hotBitmap, hotFreeCache
      ensures Valid()
      ensures page == old(hotFreeCache[ci]).Page() && page < HOT_ZONE_PAGES
      ensures Zone() == HotZone(old(hotBitmap[..])[page := true],
                                old(hotFreeCache[..])[ci := old(hotFreeCache[ci]).(valid := false)],
                                old(hotUsedPages) + 1)
    {
      page := hotFreeCache[ci].group * 64 + hotFreeCache[ci].bit;
      CountUsedUpdate(hotBitmap[..], page, true);
      hotFreeCache[ci] := hotFreeCache[ci].(valid := false);
      hotBitmap[page] := true;
      hotUsedPages := hotUsedPages + 1;
      assert hotBitmap[..] == old(hotBitmap[..])[page := true];
    }

    /** The first clear bit of a group (count trailing zeros of the complement), or 64. */
    method FirstClear(g: nat) returns (bit: nat)
      requires hotBitmap.Length == HOT_ZONE_PAGES && g < NUM_PAGE_GROUPS
      ensures bit <= 64
      ensures forall j :: g * 64 <= j < g * 64 + bit ==> hotBitmap[j]
      ensures bit < 64 ==> !hotBitmap[g * 64 + bit]
    {
      bit := 0;
      while bit < 64 && hotBitmap[g * 64 + bit]
        invariant bit <= 64
        invariant forall j :: g * 64 <= j < g * 64 + bit ==> hotBitmap[j]
      {
        bit := bit + 1;
      }
    }

    /** The cache half of pmalloc: NULL means that every cached page was shadowed; they are now
        taken, and the cache is empty. */
    method PmallocFromCache(linearOk: nat -> bool) returns (r: nat)
      requires Valid()
      modifies this`hotUsedPages, hotBitmap, hotFreeCache
      ensures Valid()
      ensures forall i :: 0 <= i < HOT_ZONE_PAGES && old(hotBitmap[i]) ==> hotBitmap[i]
      ensures forall i :: 0 <= i < HOT_ZONE_PAGES && hotBitmap[i] && !old(hotBitmap[i]) && r != Addr(i) ==> !linearOk(Addr(i))
      ensures r != NULL ==> IsPageAddr(r) && old(Cached(Zone(), PageOf(r))) && hotBitmap[PageOf(r)] && linearOk(r)
      ensures r == NULL ==> hotBitmap[..] == DrainCache(old(Zone()))
      ensures r == NULL ==> forall ci :: 0 <= ci < HOT_CACHE_SLOTS ==> !hotFreeCache[ci].valid
      ensures r == NULL ==> forall i :: 0 <= i < HOT_ZONE_PAGES && old(Cached(Zone(), i)) ==> !linearOk(Addr(i))
    {
      hide Consistent, Drained;
      ghost var z := Zone();
      DrainedNone(z, linearOk);
      for ci := 0 to HOT_CACHE_SLOTS
        invariant Valid() && Drained(z, Zone(), ci, linearOk)
      {
        ghost var z1 := Zone();
        DrainedSlot(z, z1, ci, linearOk);
        if hotFreeCache[ci].valid {
          var page := ConsumeSlot(ci);
          if linearOk(Addr(page)) {
            DrainedReturn(z, z1, Zone(), ci, linearOk);
            return Addr(page);
          }
          DrainedNext(z, z1, Zone(), ci, linearOk);
        }
      }
      DrainedAll(z, Zone(), linearOk);
      return NULL;
    }

    /** The bitmap half of pmalloc: takes the first free page of each group in turn until one is
        reachable. It runs only once the cache is empty. */
    method PmallocFromBitmap(linearOk: nat -> bool) returns (r: nat)
      requires Valid()
      requires forall ci :: 0 <= ci < HOT_CACHE_SLOTS ==> !hotFreeCache[ci].valid
      modifies this`hotUsedPages, hotBitmap
      ensures Valid() && hotFreeCache[..] == old(hotFreeCache[..])
      ensures forall i :: 0 <= i < HOT_ZONE_PAGES && old(hotBitmap[i]) ==> hotBitmap[i]
      ensures forall i :: 0 <= i < HOT_ZONE_PAGES && hotBitmap[i] && !old(hotBitmap[i]) && r != Addr(i) ==> !linearOk(Addr(i))
      ensures r != NULL ==> IsPageAddr(r) && hotBitmap[PageOf(r)] && linearOk(r)
      ensures r != NULL ==> exists g: nat, bit: nat :: FirstFree(old(hotBitmap[..]), g, bit) && r == Addr(g * 64 + bit)
      ensures r == NULL ==> forall g: nat, bit: nat :: FirstFree(old(hotBitmap[..]), g, bit) ==> !linearOk(Addr(g * 64 + bit))
    {
      ghost var used := hotBitmap[..];
      for g := 0 to NUM_PAGE_GROUPS
        invariant Valid() && hotFreeCache[..] == old(hotFreeCache[..])
        invariant forall i :: g * 64 <= i < HOT_ZONE_PAGES ==> hotBitmap[i] == used[i]
        invariant forall i :: 0 <= i < HOT_ZONE_PAGES && used[i] ==> hotBitmap[i]
        invariant forall i :: 0 <= i < HOT_ZONE_PAGES && hotBitmap[i] && !used[i] ==> !linearOk(Addr(i))
        invariant forall h: nat, bit: nat :: h < g && FirstFree(used, h, bit) ==> !linearOk(Addr(h * 64 + bit))
      {
        var bit := FirstClear(g);
        if bit < 64 {
          var page := g * 64 + bit;
          assert FirstFree(used, g, bit);
          SetBit(page);
          if linearOk(Addr(page)) {
            return Addr(page);
          }
        }
      }
      return NULL;
    }

    method Pmalloc(linearOk: nat -> bool) returns (r: nat)
      requires Valid()
      modifies this`hotUsedPages, hotBitmap, hotFreeCache
      ensures Valid()
      ensures PmallocStep(old(Zone()), Zone(), linearOk, r)
      ensures r == NULL || !old(Cached(Zone(), PageOf(r))) ==>
                forall ci :: 0 <= ci < HOT_CACHE_SLOTS ==> !hotFreeCache[ci].valid
    {
      r := PmallocFromCache(linearOk);
      if r == NULL {
        r := PmallocFromBitmap(linearOk);
      }
    }

    /** Is there a free and reachable run of pages at `base`? */
    method RunIsFree(base: nat, pages: nat, linearOk: nat -> bool) returns (ok: bool)
      requires Valid() && base + pages <= HOT_ZONE_PAGES
      ensures ok <==> FreeRun(hotBitmap[..], linearOk, base, pages)
    {
      for i := 0 to pages
        invariant FreeRun(hotBitmap[..], linearOk, base, i)
      {
        if hotBitmap[base + i] || !linearOk(Addr(base + i)) {
          return false;
        }
      }
      return true;
    }

    /** Drops every cache entry that names `page`. */
    method InvalidateCached(page: nat)
      requires Valid()
      modifies hotFreeCache
      ensures Valid()
      ensures forall ci :: 0 <= ci < HOT_CACHE_SLOTS ==>
                hotFreeCache[ci] == if old(hotFreeCache[ci]).Page() == page
                                    then old(hotFreeCache[ci]).(valid := false) else old(hotFreeCache[ci])
    {
      for ci := 0 to HOT_CACHE_SLOTS
        invariant Valid()
        invariant forall cj :: ci <= cj < HOT_CACHE_SLOTS ==> hotFreeCache[cj] == old(hotFreeCache[cj])
        invariant forall cj :: 0 <= cj < ci ==>
                    hotFreeCache[cj] == if old(hotFreeCache[cj]).Page() == page
                                        then old(hotFreeCache[cj]).(valid := false) else old(hotFreeCache[cj])
      {
        if hotFreeCache[ci].valid && hotFreeCache[ci].group * 64 + hotFreeCache[ci].bit == page {
          hotFreeCache[ci] := hotFreeCache[ci].(valid := false);
        }
      }
    }

    /** Takes a free run page by page, dropping each page from the cache. */
    method TakeFreeRun(base: nat, pages: nat)
      requires Valid() && base + pages <= HOT_ZONE_PAGES
      requires forall i :: base <= i < base + pages ==> !hotBitmap[i]
      modifies this`hotUsedPages, hotBitmap, hotFreeCache
      ensures Valid()
      ensures TakeRun(old(Zone()), Zone(), base, pages)
    {
      for i := 0 to pages
        invariant Valid()
        invariant TakeRun(old(Zone()), Zone(), base, i)
      {
        InvalidateCached(base + i);
        SetBit(base + i);
      }
    }

    method PmallocContig(pages: int, linearOk: nat -> bool) returns (r: nat)
      requires Valid()
      modifies this`hotUsedPages, hotBitmap, hotFreeCache
      ensures Valid()
      ensures pages <= 1 ==> PmallocStep(old(Zone()), Zone(), linearOk, r)
      ensures pages > 1 ==> PmallocContigStep(old(Zone()), Zone(), linearOk, pages, r)
    {
      if pages <= 1 {
        r := Pmalloc(linearOk);
        return;
      }
      var base := 0;
      while base + pages <= HOT_ZONE_PAGES
        invariant 0 <= base && base % 64 == 0
        invariant Valid() && Zone() == old(Zone())
        invariant forall b :: 0 <= b < base && b % 64 == 0 ==> !FreeRun(hotBitmap[..], linearOk, b, pages)
      {
        var ok := RunIsFree(base, pages, linearOk);
        if ok {
          TakeFreeRun(base, pages);
          return Addr(base);
        }
        base := base + 64;
      }
      return NULL;
    }

    /** pfree: the zone is chosen by address; only the hot zone feeds the cache. */
    method Pfree(addr: nat)
      requires Valid()
      requires HEAP_BASE <= addr < MEMORY_END
      modifies this, hotBitmap, hotFreeCache, warmBitmap, boomerangBitmap
      ensures Valid()
      ensures addr < WARM_BASE ==> PfreeStep(old(Zone()), Zone(), PageOf(addr))
      ensures addr < WARM_BASE ==> warmBitmap[..] == old(warmBitmap[..]) && boomerangBitmap[..] == old(boomerangBitmap[..])
                                   && warmUsedPages == old(warmUsedPages) && boomerangUsedPages == old(boomerangUsedPages)
      ensures addr >= WARM_BASE ==> Zone() == old(Zone())
      ensures WARM_BASE <= addr < BOOMERANG_BASE ==>
                var p := (addr - WARM_BASE) / PAGE_SIZE;
                && boomerangBitmap[..] == old(boomerangBitmap[..]) && boomerangUsedPages == old(boomerangUsedPages)
                && warmBitmap[..] == old(warmBitmap[..])[p := false]
                && warmUsedPages == old(warmUsedPages) - (if old(warmBitmap[p]) then 1 else 0)
      ensures BOOMERANG_BASE <= addr ==>
                var p := (addr - BOOMERANG_BASE) / PAGE_SIZE;
                && warmBitmap[..] == old(warmBitmap[..]) && warmUsedPages == old(warmUsedPages)
                && boomerangBitmap[..] == old(boomerangBitmap[..])[p := false]
                && boomerangUsedPages == old(boomerangUsedPages) - (if old(boomerangBitmap[p]) then 1 else 0)
    {
      if addr >= BOOMERANG_BASE {
        var page := (addr - BOOMERANG_BASE) / PAGE_SIZE;
        if boomerangBitmap[page] {
          boomerangBitmap[page] := false;
          boomerangUsedPages := boomerangUsedPages - 1;
        }
      } else if addr >= WARM_BASE {
        var page := (addr - WARM_BASE) / PAGE_SIZE;
        if warmBitmap[page] {
          warmBitmap[page] := false;
          warmUsedPages := warmUsedPages - 1;
        }
      } else {
        PfreeHot((addr - HEAP_BASE) / PAGE_SIZE);
      }
    }

    method PfreeHot(page: nat)
      requires Valid() && page < HOT_ZONE_PAGES
      modifies this`hotUsedPages, hotBitmap, hotFreeCache
      ensures Valid()
      ensures PfreeStep(old(Zone()), Zone(), page)
    {
      if hotBitmap[page] {
        CountUsedUpdate(hotBitmap[..], page, false);
        hotBitmap[page] := false;
        hotUsedPages := hotUsedPages - 1;
        assert hotBitmap[..] == old(hotBitmap[..])[page := false];
        var ci := 0;
        while ci < HOT_CACHE_SLOTS && hotFreeCache[ci].valid
          invariant 0 <= ci <= HOT_CACHE_SLOTS
          invariant forall cj :: 0 <= cj < ci ==> hotFreeCache[cj].valid
        {
          ci := ci + 1;
        }
        if ci < HOT_CACHE_SLOTS {
          hotFreeCache[ci] := CacheEntry(page / 64, page % 64, true);
        }
      }
    }

    /** pfree_contig: the pages of the run are freed one after the other. */
    method PfreeContig(addr: nat, pages: nat)
      requires Valid()
      requires HEAP_BASE <= addr && addr + pages * PAGE_SIZE <= WARM_BASE
      modifies this, hotBitmap, hotFreeCache, warmBitmap, boomerangBitmap
      ensures Valid()
      ensures forall i :: 0 <= i < HOT_ZONE_PAGES ==>
                hotBitmap[i] == (old(hotBitmap[i]) && !(PageOf(addr) <= i < PageOf(addr) + pages))
    {
      for k := 0 to pages
        invariant Valid()
        invariant forall i :: 0 <= i < HOT_ZONE_PAGES ==>
                    hotBitmap[i] == (old(hotBitmap[i]) && !(PageOf(addr) <= i < PageOf(addr) + k))
      {
        assert PageOf(addr + k * PAGE_SIZE) == PageOf(addr) + k;
        Pfree(addr + k * PAGE_SIZE);
      }
    }

  }

  /** The first `ci` slots of the cache have been emptied and their pages taken: all of them were shadowed. */
  ghost predicate Drained(z: HotZone, z': HotZone, ci: nat, linearOk: nat -> bool) {
    && Consistent(z) && |z'.used| == HOT_ZONE_PAGES && |z'.cache| == HOT_CACHE_SLOTS && ci <= HOT_CACHE_SLOTS
    && (forall cj :: 0 <= cj < ci ==> !z'.cache[cj].valid)
    && (forall cj :: ci <= cj < HOT_CACHE_SLOTS ==> z'.cache[cj] == z.cache[cj])
    && (forall cj :: 0 <= cj < ci && z.cache[cj].valid ==> !linearOk(Addr(z.cache[cj].Page())) && z'.used[z.cache[cj].Page()])
    && (forall i :: 0 <= i < HOT_ZONE_PAGES && z.used[i] ==> z'.used[i])
    && (forall i :: 0 <= i < HOT_ZONE_PAGES && z'.used[i] && !z.used[i] ==> Cached(z, i) && !linearOk(Addr(i)))
  }

  lemma DrainedNone(z: HotZone, linearOk: nat -> bool)
    requires Consistent(z)
    ensures Drained(z, z, 0, linearOk)
  {
  }

  /** An empty slot is passed over. */
  lemma DrainedSlot(z: HotZone, z': HotZone, ci: nat, linearOk: nat -> bool)
    requires Drained(z, z', ci, linearOk) && ci < HOT_CACHE_SLOTS
    ensures |z'.cache| == HOT_CACHE_SLOTS && (!z'.cache[ci].valid ==> Drained(z, z', ci + 1, linearOk))
  {
  }

  /** The zone with slot `ci` consumed. */
  ghost predicate Consumed(z: HotZone, z': HotZone, ci: nat) {
    && ci < |z.cache| && z.cache[ci].valid && z.cache[ci].Page() < |z.used|
    && z' == HotZone(z.used[z.cache[ci].Page() := true], z.cache[ci := z.cache[ci].(valid := false)], z.usedPages + 1)
  }

  lemma DrainedNext(z: HotZone, z1: HotZone, z2: HotZone, ci: nat, linearOk: nat -> bool)
    requires Drained(z, z1, ci, linearOk) && ci < HOT_CACHE_SLOTS && Consumed(z1, z2, ci) && !linearOk(Addr(z1.cache[ci].Page()))
    ensures Drained(z, z2, ci + 1, linearOk)
  {
    assert Cached(z, z1.cache[ci].Page());
  }

  lemma DrainedReturn(z: HotZone, z1: HotZone, z2: HotZone, ci: nat, linearOk: nat -> bool)
    requires Drained(z, z1, ci, linearOk) && ci < HOT_CACHE_SLOTS && Consumed(z1, z2, ci) && linearOk(Addr(z1.cache[ci].Page()))
    ensures var page := z1.cache[ci].Page();
            && |z.used| == |z2.used| == HOT_ZONE_PAGES && page < HOT_ZONE_PAGES && IsPageAddr(Addr(page)) && PageOf(Addr(page)) == page
            && Cached(z, page) && z2.used[page] && (forall i :: 0 <= i < HOT_ZONE_PAGES && z.used[i] ==> z2.used[i])
            && forall i :: 0 <= i < HOT_ZONE_PAGES && z2.used[i] && !z.used[i] && i != page ==> !linearOk(Addr(i))
  {
    assert Cached(z, z1.cache[ci].Page());
  }

  lemma DrainedAll(z: HotZone, z': HotZone, linearOk: nat -> bool)
    requires Drained(z, z', HOT_CACHE_SLOTS, linearOk)
    ensures |z.used| == |z'.used| == HOT_ZONE_PAGES && |z'.cache| == HOT_CACHE_SLOTS && z'.used == DrainCache(z)
    ensures forall ci :: 0 <= ci < HOT_CACHE_SLOTS ==> !z'.cache[ci].valid
    ensures forall i :: 0 <= i < HOT_ZONE_PAGES && Cached(z, i) ==> !linearOk(Addr(i))
    ensures forall i :: 0 <= i < HOT_ZONE_PAGES && z.used[i] ==> z'.used[i]
    ensures forall i :: 0 <= i < HOT_ZONE_PAGES && z'.used[i] && !z.used[i] ==> !linearOk(Addr(i))
  {
  }

  lemma {:induction false} NoneUsed(used: seq<bool>)
    requires forall i :: 0 <= i < |used| ==> !used[i]
    ensures CountUsed(used) == 0
  {
    if used != [] {
      NoneUsed(used[..|used| - 1]);
    }
  }

  // ---------------------------------------------------------------------------------------------
  // Whole runs
  // ---------------------------------------------------------------------------------------------

  datatype Event =
    | Malloc(linearOk: nat -> bool, r: nat)
    | MallocContig(linearOkAll: nat -> bool, pages: nat, base: nat)
    | Free(page: nat)

  /** One completed call. The methods of `Allocator` establish exactly these relations. */
  ghost predicate Step(z: HotZone, ev: Event, z': HotZone) {
    && Consistent(z) && Consistent(z')
    && match ev
       case Malloc(linearOk, r) => PmallocStep(z, z', linearOk, r)
       case MallocContig(linearOk, pages, base) => pages > 1 && PmallocContigStep(z, z', linearOk, pages, base)
       case Free(page) => page < HOT_ZONE_PAGES && PfreeStep(z, z', page)
  }

  ghost predicate IsRun(zs: seq<HotZone>, evs: seq<Event>) {
    && |zs| == |evs| + 1
    && forall k :: 0 <= k < |evs| ==> Step(zs[k], evs[k], zs[k + 1])
  }

  ghost predicate HandsOut(ev: Event, page: nat) {
    match ev
    case Malloc(_, r) => r == Addr(page)
    case MallocContig(_, pages, base) => base >= HEAP_BASE && PageOf(base) <= page < PageOf(base) + pages
    case Free(_) => false
  }

  lemma HandedOutPageWasFree(z: HotZone, ev: Event, z': HotZone, page: nat)
    requires Step(z, ev, z') && HandsOut(ev, page)
    ensures page < HOT_ZONE_PAGES && !z.used[page] && z'.used[page]
  {
    if ev.Malloc? {
      assert PageOf(ev.r) == page;
    }
  }

  lemma {:induction false} TakenUntilFreed(zs: seq<HotZone>, evs: seq<Event>, i: nat, j: nat, page: nat)
    requires IsRun(zs, evs) && i <= j < |zs| && page < HOT_ZONE_PAGES
    requires |zs[i].used| == HOT_ZONE_PAGES && zs[i].used[page]
    requires forall k :: i <= k < j ==> evs[k] != Free(page)
    ensures |zs[j].used| == HOT_ZONE_PAGES && zs[j].used[page]
    decreases j - i
  {
    if i < j {
      assert Step(zs[i], evs[i], zs[i + 1]);
      TakenUntilFreed(zs, evs, i + 1, j, page);
    }
  }

  /** Over every run, a page that is handed out twice was freed in between. */
  lemma NoDoubleHandOut(zs: seq<HotZone>, evs: seq<Event>, i: nat, j: nat, page: nat)
    requires IsRun(zs, evs) && i < j < |evs|
    requires HandsOut(evs[i], page) && HandsOut(evs[j], page)
    ensures exists k :: i < k < j && evs[k] == Free(page)
  {
    assert Step(zs[i], evs[i], zs[i + 1]) && Step(zs[j], evs[j], zs[j + 1]);
    HandedOutPageWasFree(zs[i], evs[i], zs[i + 1], page);
    HandedOutPageWasFree(zs[j], evs[j], zs[j + 1], page);
    if forall k :: i < k < j ==> evs[k] != Free(page) {
      TakenUntilFreed(zs, evs, i + 1, j, page);
    }
  }

  /** By how much a call changes the number of pages in use. */
  function Gain(z: HotZone, ev: Event): int {
    match ev
    case Malloc(_, r) => if r == NULL then 0 else 1
    case MallocContig(_, pages, base) => if base == NULL then 0 else pages
    case Free(page) => if page < |z.used| && z.used[page] then -1 else 0
  }

  function TotalGain(zs: seq<HotZone>, evs: seq<Event>): int
    requires |zs| == |evs| + 1
  {
    if evs == [] then 0 else Gain(zs[0], evs[0]) + TotalGain(zs[1..], evs[1..])
  }

  /** Over every run without shadowed pages, the pages in use are those at its start, plus the pages handed out, less
      the pages in use that were freed: none is lost and none counted twice. */
  lemma {:induction false} PagesConserved(zs: seq<HotZone>, evs: seq<Event>)
    requires IsRun(zs, evs) && (forall k :: 0 <= k < |evs| ==> NothingHidden(evs[k]))
    ensures zs[|evs|].usedPages == zs[0].usedPages + TotalGain(zs, evs)
  {
    if evs != [] {
      assert Step(zs[0], evs[0], zs[1]) && NothingHidden(evs[0]);
      StepGains(zs[0], evs[0], zs[1]);
      forall k | 0 <= k < |evs[1..]| ensures Step(zs[1..][k], evs[1..][k], zs[1..][k + 1]) {
        assert Step(zs[k + 1], evs[k + 1], zs[k + 1 + 1]);
      }
      PagesConserved(zs[1..], evs[1..]);
    }
  }

  ghost predicate NothingHidden(ev: Event) {
    ev.Malloc? ==> forall i :: 0 <= i < HOT_ZONE_PAGES ==> ev.linearOk(Addr(i))
  }

  lemma StepGains(z: HotZone, ev: Event, z': HotZone)
    requires Step(z, ev, z') && NothingHidden(ev)
    ensures z'.usedPages == z.usedPages + Gain(z, ev)
  {
    match ev
    case Malloc(linearOk, r) =>
      if r == NULL {
        assert z'.used == z.used;
      } else {
        CountUsedUpdate(z.used, PageOf(r), true);
        assert z'.used == z.used[PageOf(r) := true];
      }
    case MallocContig(_, pages, base) =>
      if base != NULL { RunCounts(z.used, z'.used, PageOf(base), pages); }
    case Free(page) => CountUsedUpdate(z.used, page, false);
  }

  lemma {:induction false} RunCounts(used: seq<bool>, used': seq<bool>, base: nat, n: nat)
    requires |used| == |used'| && base + n <= |used| && forall i :: base <= i < base + n ==> !used[i]
    requires forall i :: 0 <= i < |used| ==> used'[i] == (used[i] || base <= i < base + n)
    ensures CountUsed(used') == CountUsed(used) + n
    decreases n
  {
    if n == 0 {
      assert used' == used;
    } else {
      CountUsedUpdate(used', base + n - 1, false);
      RunCounts(used, used'[base + n - 1 := false], base, n - 1);
    }
  }

  /** While no page is shadowed, pmalloc returns NULL exactly when the whole zone is in use. */
  lemma NullIffFull(z: HotZone, z': HotZone, linearOk: nat -> bool, r: nat)
    requires Consistent(z) && PmallocStep(z, z', linearOk, r)
    requires forall i :: 0 <= i < HOT_ZONE_PAGES ==> linearOk(Addr(i))
    ensures r == NULL <==> z.usedPages == HOT_ZONE_PAGES
  {
    CountUsedBound(z.used);
    if r == NULL && z.usedPages != HOT_ZONE_PAGES {
      var i :| 0 <= i < HOT_ZONE_PAGES && !z.used[i];
      assert linearOk(Addr(i));
      var d := DrainCache(z);
      assert !Cached(z, i) && !d[i];
      var bit := FirstFreeOfGroup(d, i / 64, i % 64);
    }
    if r != NULL {
      assert !z.used[PageOf(r)];
    }
  }

  lemma {:induction false} FirstFreeOfGroup(used: seq<bool>, g: nat, bit: nat) returns (first: nat)
    requires bit < 64 && g * 64 + bit < |used| && !used[g * 64 + bit]
    ensures FirstFree(used, g, first)
  {
    if k :| g * 64 <= k < g * 64 + bit && !used[k] {
      first := FirstFreeOfGroup(used, g, k - g * 64);
    } else {
      first := bit;
    }
  }

  /** A shadowed page changes that: pmalloc then gives up on the rest of the page's group, and can
      return NULL although a reachable page is free. */
  lemma ShadowedPageHidesItsGroup(z: HotZone, z': HotZone, linearOk: nat -> bool, r: nat)
    requires Consistent(z) && PmallocStep(z, z', linearOk, r)
    requires forall ci :: 0 <= ci < HOT_CACHE_SLOTS ==> !z.cache[ci].valid
    requires forall i :: 0 <= i < HOT_ZONE_PAGES ==> z.used[i] == (i >= 2)
    requires !linearOk(Addr(0)) && linearOk(Addr(1))
    ensures r == NULL && !z.used[1] && linearOk(Addr(1))
  {
    forall g: nat, bit: nat | FirstFree(DrainCache(z), g, bit) ensures !linearOk(Addr(g * 64 + bit)) {
      assert g * 64 + bit < 2;
      if bit == 1 { assert !DrainCache(z)[0]; }
    }
  }
}
