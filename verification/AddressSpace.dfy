/** Address spaces: creating them, mapping and unmapping pages, and copying to and from them.
    Tables and data pages live in frames taken from the physical allocator. */
module AddressSpaces {
  import opened Options
  import opened BitCounts
  import opened Bytes
  import opened PhysicalMemory
  import opened PageTables

  const W64 := 0x1_0000_0000_0000_0000
  const RESTORER := 0x6000_0000_0000

  type Page = s: seq<Byte> | |s| == KB4 witness seq(KB4, _ => 0)

  function ZeroPage(): Page { seq(KB4, _ => 0) }

  datatype Flags = Flags(read: bool, write: bool, exec: bool, user: bool)

  /** The leaf that vm_map_page writes: masked address, and present plus pte_flags. */
  function LeafEntry(phys: nat, flags: Flags): (e: Pte)
    ensures e.addr % KB4 == 0 && e.addr < PHYS_LIMIT
    ensures phys % KB4 == 0 && phys < PHYS_LIMIT ==> e.addr == phys
  {
    Pte(phys % PHYS_LIMIT / KB4 * KB4, true, flags.write, flags.user, false, false, !flags.exec)
  }

  /** paddr_linear_ok: the kernel reaches frame `p` at linear address `p`. */
  predicate LinearOk(ts: Tables, root: nat, p: nat) {
    match Lookup(ts, root, p) case None => false case Some(a) => a.phys == p
  }

  ghost predicate Extends(own: map<nat, Node>, own': map<nat, Node>) {
    forall f :: f in own ==> f in own' && own'[f] == own[f]
  }

  /** A frame of the hot zone that is in use, or a frame outside the hot zone. */
  ghost predicate Taken(used: seq<bool>, f: nat) {
    |used| == HOT_ZONE_PAGES && (HEAP_BASE <= f < WARM_BASE ==> used[PageOf(f)])
  }

  ghost predicate AllTaken(used: seq<bool>, ts: Tables) {
    forall f :: f in ts ==> Taken(used, f) && f % KB4 == 0
  }

  /** Frames in use stay in use. */
  ghost predicate NothingFreed(used: seq<bool>, used': seq<bool>) {
    && |used| == |used'| == HOT_ZONE_PAGES
    && forall i :: 0 <= i < HOT_ZONE_PAGES && used[i] ==> used'[i]
  }

  /** Data pages in frames in use keep their bytes. */
  ghost predicate DataKept(used: seq<bool>, data: map<nat, Page>, data': map<nat, Page>) {
    forall f :: f in data && Taken(used, f) ==> f in data' && data'[f] == data[f]
  }

  /** The part of the kernel's state that address spaces are made of. */
  datatype State = State(used: seq<bool>, tables: Tables, data: map<nat, Page>, own: map<nat, Node>)

  /** What mapping never disturbs: frames in use, their bytes, and the place of every table. */
  ghost predicate Kept(s: State, s': State) {
    && NothingFreed(s.used, s'.used) && DataKept(s.used, s.data, s'.data) && Extends(s.own, s'.own)
    && NewTablesFresh(s, s')
  }

  /** Off the range, and in every other address space, all addresses resolve as before. */
  ghost predicate OutsideSame(s: State, s': State, root: nat, base: nat, length: nat) {
    forall q: nat, w: nat :: IsRoot(s.own, q) && (q != root || OffRange(base, length, w)) ==> Lookup(s'.tables, q, w) == Lookup(s.tables, q, w)
  }

  ghost predicate SameRoots(own: map<nat, Node>, own': map<nat, Node>) {
    forall r :: IsRoot(own', r) ==> IsRoot(own, r)
  }

  /** Only frames that were free become tables. */
  ghost predicate NewTablesFresh(s: State, s': State) {
    forall f :: f in s'.tables && f !in s.tables ==> !Taken(s.used, f)
  }

  lemma KeptTrans(a: State, b: State, c: State)
    requires Kept(a, b) && Kept(b, c)
    ensures Kept(a, c)
  {
    forall f | Taken(a.used, f) ensures Taken(b.used, f) { }
  }

  lemma SameLookupsTrans(a: State, b: State, c: State)
    requires Extends(a.own, b.own)
    requires SameLookups(a.tables, b.tables, a.own) && SameLookups(b.tables, c.tables, b.own)
    ensures SameLookups(a.tables, c.tables, a.own)
  {
    forall r: nat, v: nat | IsRoot(a.own, r) ensures Lookup(c.tables, r, v) == Lookup(a.tables, r, v) {
      assert Lookup(b.tables, r, v) == Lookup(a.tables, r, v);
    }
  }

  /** A frame that was free and is now a data page. */
  ghost predicate FreshPage(s: State, s': State, p: nat) {
    IsPageAddr(p) && !Taken(s.used, p) && Taken(s'.used, p) && p !in s'.tables && p in s'.data
  }

  /** The frames behind user pages are data pages in use. Everything that maps keeps this; unmapping
      a page that is mapped elsewhere too does not. */
  ghost predicate UserFramesOk(s: State) {
    forall r: nat, w: nat :: IsRoot(s.own, r) && UserAt(s.tables, r, w) ==> DataFrame(s, FrameAt(s.tables, r, w))
  }

  ghost predicate DataFrame(s: State, f: nat) {
    IsPageAddr(f) && Taken(s.used, f) && f !in s.tables && f in s.data
  }

  lemma DataFrameKept(s: State, s': State, f: nat)
    requires Kept(s, s') && DataFrame(s, f)
    ensures DataFrame(s', f) && s'.data[f] == s.data[f]
  {
  }

  lemma SameLookupsRefl(ts: Tables, own: map<nat, Node>)
    ensures SameLookups(ts, ts, own)
  {
  }

  /** What a leaf written at a page boundary gives to every address of the page. */
  lemma LeafGives(ts: Tables, ts': Tables, own: map<nat, Node>, root: nat, v: nat, paddr: nat, flags: Flags, w: nat)
    requires LeafWritten(ts, ts', own, root, v, LeafEntry(paddr, flags)) && IsRoot(own, root)
    requires v % KB4 == 0 && v <= w < v + KB4 && paddr % KB4 == 0 && paddr < PHYS_LIMIT
    ensures Lookup(ts', root, w) == Some(Access(paddr + (w - v), flags.user, flags.write, !flags.exec))
  {
    hide WalkFrom, SamePage;
    assert w / KB4 == v / KB4 && w % KB4 == w - v;
    SamePageNumber(v, w);
  }

  lemma PageGives(s: State, s': State, root: nat, v: nat, paddr: nat, flags: Flags)
    requires LeafWritten(s.tables, s'.tables, s.own, root, v, LeafEntry(paddr, flags)) && IsRoot(s.own, root) && v % KB4 == 0
    ensures paddr % KB4 == 0 && paddr < PHYS_LIMIT ==>
              forall w: nat :: v <= w < v + KB4 ==> Lookup(s'.tables, root, w) == Some(Access(paddr + (w - v), flags.user, flags.write, !flags.exec))
  {
    hide WalkFrom, LeafWritten, LeafEntry;
    if paddr % KB4 == 0 && paddr < PHYS_LIMIT {
      forall w: nat | v <= w < v + KB4 ensures Lookup(s'.tables, root, w) == Some(Access(paddr + (w - v), flags.user, flags.write, !flags.exec)) {
        LeafGives(s.tables, s'.tables, s.own, root, v, paddr, flags, w);
      }
    }
  }

  lemma LeafEntryPlain(paddr: nat, flags: Flags)
    ensures LeafEntry(paddr, flags).present && !LeafEntry(paddr, flags).huge
  {
  }

  lemma LeafWrittenAfter(s: State, s1: State, s2: State, root: nat, v: nat, e: Pte)
    requires SameLookups(s.tables, s1.tables, s.own) && Extends(s.own, s1.own)
    requires LeafWritten(s1.tables, s2.tables, s1.own, root, v, e)
    ensures LeafWritten(s.tables, s2.tables, s.own, root, v, e)
  {
    hide WalkFrom, SamePage, LeafAccess;
    forall r: nat, w: nat | IsRoot(s.own, r)
      ensures Lookup(s2.tables, r, w) == if r == root && SamePage(v, w) then LeafAccess(e, w) else Lookup(s.tables, r, w)
    {
      assert Lookup(s1.tables, r, w) == Lookup(s.tables, r, w);
    }
  }

  /** An open slot that leads to a table still does after another table has changed. */
  lemma StillPoints(s: State, s': State, f: nat, level: nat, v: nat, c: nat, g: nat)
    requires f in s.tables && Points(s.tables, s.own, f, level, v, c) && s.tables[f][Index(level, v)].user
    requires SameSlotsElsewhere(s.tables, s'.tables, g) && f != g && Extends(s.own, s'.own)
    ensures f in s'.tables && Points(s'.tables, s'.own, f, level, v, c) && s'.tables[f][Index(level, v)].user
  {
  }

  /** No page of the hot zone is shadowed by the current address space. */
  ghost predicate NothingShadowed(ts: Tables, root: nat) {
    forall i :: 0 <= i < HOT_ZONE_PAGES ==> LinearOk(ts, root, Addr(i))
  }

  ghost predicate SameSlotsElsewhere(ts: Tables, ts': Tables, f: nat) {
    forall h :: h in ts && h != f ==> h in ts' && ts'[h] == ts[h]
  }

  /** What vm_map_page fills a fresh table with: the pieces of a huge page, or nothing. */
  function TableBelow(e: Pte, level: nat): Table
    requires level >= 1
  {
    if e.huge then SplitTable(e.addr, level - 1) else ZeroTable()
  }

  lemma HangBelow(ts: Tables, own: map<nat, Node>, f: nat, i: nat, c: nat)
    requires TreeOk(ts, own) && f in ts && i < 512 && own[f].level > 1
    requires c !in ts && IsPageAddr(c)
    requires !ts[f][i].present || IsLeaf(ts[f][i], own[f].level)
    requires own[f].level == 4 || ParentOpen(ts, own, f)
    ensures TreeOk(AddTable(ts, f, i, c, TableBelow(ts[f][i], own[f].level)), AddNode(own, f, i, c))
    ensures SameLookups(ts, AddTable(ts, f, i, c, TableBelow(ts[f][i], own[f].level)), own)
  {
    hide WalkFrom;
    PageAddrAligned(c);
    assert EntryOk(ts, own, f, i);
    if ts[f][i].huge {
      SplitHugePage(ts, own, f, i, c);
    } else {
      HangEmptyTable(ts, own, f, i, c);
    }
  }

  lemma HangFacts(used: seq<bool>, ts: Tables, own: map<nat, Node>, f: nat, i: nat, c: nat, content: Table)
    requires ts.Keys == own.Keys && f in ts && 2 <= own[f].level <= 4 && i < 512
    requires c !in ts && IsPageAddr(c) && Taken(used, c) && AllTaken(used, ts)
    ensures var ts', own' := AddTable(ts, f, i, c, content), AddNode(own, f, i, c);
            && Extends(own, own') && SameRoots(own, own') && SameSlotsElsewhere(ts, ts', f)
            && c in ts' && f in ts' && ts'[f][i] == Link(c) && own'[c] == Node(own[f].level - 1, f, i)
            && ts'.Keys == ts.Keys + {c} && AllTaken(used, ts')
  {
    hide IsPageAddr;
    PageAddrAligned(c);
  }

  lemma PageAddrAligned(f: nat)
    requires IsPageAddr(f)
    ensures f % KB4 == 0 && f < PHYS_LIMIT && f != NULL
  {
    assert f == (0x800 + PageOf(f)) * 0x1000;
    MultipleOf4K(0x800 + PageOf(f));
  }

  lemma RootIsTable(ts: Tables, own: map<nat, Node>, root: nat)
    requires TreeOk(ts, own) && IsRoot(own, root)
    ensures root in ts
  {
  }

  lemma ShadowsSame(ts: Tables, ts': Tables, own: map<nat, Node>, root: nat)
    requires SameLookups(ts, ts', own) && IsRoot(own, root) && NothingShadowed(ts, root)
    ensures NothingShadowed(ts', root)
  {
    forall i | 0 <= i < HOT_ZONE_PAGES ensures LinearOk(ts', root, Addr(i)) {
      assert LinearOk(ts, root, Addr(i));
      assert Lookup(ts', root, Addr(i)) == Lookup(ts, root, Addr(i));
    }
  }

  class Vm {
    const phys: Allocator
    var tables: Tables
    var data: map<nat, Page>
    var brk: map<nat, nat>
    var cr3: nat
    var sigStubPage: nat
    ghost var own: map<nat, Node>

    /** The state at boot: the tables the boot code has built, and no user address space. */
    constructor (phys: Allocator, boot: Tables, ghost bootOwn: map<nat, Node>, cr3: nat)
      requires phys.Valid() && TreeOk(boot, bootOwn) && IsRoot(bootOwn, cr3)
      requires AllTaken(phys.hotBitmap[..], boot)
      ensures Valid() && fresh(this)
      ensures this.phys == phys && tables == boot && own == bootOwn && this.cr3 == cr3 && sigStubPage == NULL
    {
      this.phys, this.tables, this.own, this.cr3 := phys, boot, bootOwn, cr3;
      data, brk, sigStubPage := map[], map[], NULL;
    }

    ghost predicate Valid()
      reads this, phys, phys.hotBitmap, phys.hotFreeCache
    {
      && phys.Valid() && this !in phys.Repr
      && TreeOk(tables, own)
      && IsRoot(own, cr3)
      && AllTaken(phys.hotBitmap[..], tables)
    }

    ghost function Now(): State
      reads this, phys, phys.hotBitmap
    {
      State(phys.hotBitmap[..], tables, data, own)
    }

    ghost predicate OutOfMemory()
      reads phys
    {
      phys.hotUsedPages == HOT_ZONE_PAGES
    }

    /** pmalloc as the kernel calls it: candidate pages are checked against the current tables. */
    method AllocFrame() returns (t: nat)
      requires Valid()
      modifies phys`hotUsedPages, phys.hotBitmap, phys.hotFreeCache
      ensures Valid() && NothingFreed(old(phys.hotBitmap[..]), phys.hotBitmap[..])
      ensures t != NULL ==> IsPageAddr(t) && Taken(phys.hotBitmap[..], t) && !Taken(old(phys.hotBitmap[..]), t)
      ensures t == NULL && NothingShadowed(tables, cr3) ==> OutOfMemory()
    {
      var ts, c := tables, cr3;
      ghost var z := phys.Zone();
      var linearOk := (p: nat) => LinearOk(ts, c, p);
      t := phys.Pmalloc(linearOk);
      if t == NULL && NothingShadowed(tables, cr3) {
        NullIffFull(z, phys.Zone(), linearOk, t);
        CountUsedBound(z.used);
        CountUsedBound(phys.Zone().used);
      }
    }

    /** Hangs the fresh frame `c` into a slot without a table below it: as an empty table for an
        empty slot, as the 512 pages of the next smaller size for a huge page. */
    method Hang(f: nat, level: nat, i: nat, c: nat)
      requires Valid() && f in tables && own[f].level == level && 2 <= level <= 4 && i < 512
      requires level == 4 || ParentOpen(tables, own, f)
      requires !tables[f][i].present || IsLeaf(tables[f][i], level)
      requires c !in tables && IsPageAddr(c) && Taken(phys.hotBitmap[..], c)
      modifies this`tables, this`own, this`data
      ensures Valid() && Extends(old(own), own) && SameRoots(old(own), own) && data == old(data) - {c}
      ensures SameLookups(old(tables), tables, old(own))
      ensures SameSlotsElsewhere(old(tables), tables, f)
      ensures c in tables && f in tables && tables[f][i] == Link(c) && own[c] == Node(level - 1, f, i)
      ensures tables.Keys == old(tables).Keys + {c}
    {
      hide WalkFrom, EntryOk, TableBelow, IsPageAddr, AddTable, AddNode, SameLookups, SameSlotsElsewhere, AllTaken;
      HangBelow(tables, own, f, i, c);
      HangFacts(phys.hotBitmap[..], tables, own, f, i, c, TableBelow(tables[f][i], level));
      var content := TableBelow(tables[f][i], level);
      tables := AddTable(tables, f, i, c, content);
      own := AddNode(own, f, i, c);
      data := data - {c};
    }

    /** One level of the walk of vm_map_page: a slot without a table below it gets one, and the slot
        is opened to user access. There are no huge entries at level 4. */
    method Descend(f: nat, level: nat, v: nat) returns (ok: bool, c: nat)
      requires Valid() && f in tables && own[f].level == level && 2 <= level <= 4
      requires level == 4 || ParentOpen(tables, own, f)
      modifies this`tables, this`own, this`data, phys`hotUsedPages, phys.hotBitmap, phys.hotFreeCache
      ensures Valid() && Kept(old(Now()), Now()) && SameRoots(old(own), own)
      ensures SameLookups(old(tables), tables, old(own))
      ensures SameSlotsElsewhere(old(tables), tables, f)
      ensures ok ==> c in tables && f in tables && Points(tables, own, f, level, v, c)
                     && tables[f][Index(level, v)].user && own[c] == Node(level - 1, f, Index(level, v))
      ensures !ok && NothingShadowed(old(tables), cr3) ==> OutOfMemory()
    {
      var i := Index(level, v);
      var e := tables[f][i];
      assert EntryOk(tables, own, f, i);
      if e.present && !e.huge {
        OpenEntry(tables, own, f, i);
        tables := SetEntry(tables, f, i, e.(user := true));
        return true, e.addr;
      }
      c := AllocFrame();
      if c == NULL {
        return false, c;
      }
      Hang(f, level, i, c);
      return true, c;
    }

    method MapPage(root: nat, v: nat, paddr: nat, flags: Flags) returns (ok: bool)
      requires Valid() && IsRoot(own, root)
      modifies this`tables, this`own, this`data, phys`hotUsedPages, phys.hotBitmap, phys.hotFreeCache
      ensures Valid() && Kept(old(Now()), Now()) && SameRoots(old(own), own)
      ensures ok ==> v % KB4 == 0 && LeafWritten(old(tables), tables, old(own), root, v, LeafEntry(paddr, flags))
      ensures ok && paddr % KB4 == 0 && paddr < PHYS_LIMIT ==>
                forall w: nat :: v <= w < v + KB4 ==> Lookup(tables, root, w) == Some(Access(paddr + (w - v), flags.user, flags.write, !flags.exec))
      ensures !ok ==> SameLookups(old(tables), tables, old(own))
      ensures !ok && v % KB4 == 0 && NothingShadowed(old(tables), cr3) ==> OutOfMemory()
    {
      hide WalkFrom, Index, SamePage, TreeOk, SameLookups, LeafWritten, LinearOk, LeafEntry;
      if v % KB4 != 0 {
        SameLookupsRefl(tables, own);
        return false;
      }
      ghost var s0 := Now();
      var t1;
      ok, t1 := DescendToLeaf(root, v);
      if ok {
        ghost var s1 := Now();
        LeafEntryPlain(paddr, flags);
        PutLeaf(root, v, t1, LeafEntry(paddr, flags));
        LeafWrittenAfter(s0, s1, Now(), root, v, LeafEntry(paddr, flags));
        PageGives(s0, Now(), root, v, paddr, flags);
      }
    }

    /** `t1` is the last-level table on the path of `v`, and the path is open to user access. */
    ghost predicate Reaches(root: nat, v: nat, t1: nat)
      reads this
    {
      exists t3, t2 :: OnPath(tables, own, root, t3, t2, t1, v) && PathOpen(tables, root, t3, t2, v)
    }

    method PutLeaf(root: nat, v: nat, t1: nat, e: Pte)
      requires Valid() && Reaches(root, v, t1)
      requires e.addr % KB4 == 0 && e.addr < PHYS_LIMIT && !e.huge && (!e.present ==> e == EMPTY)
      modifies this`tables
      ensures Valid() && LeafWritten(old(tables), tables, own, root, v, e)
      ensures tables.Keys == old(tables).Keys
    {
      ghost var t3, t2 :| OnPath(tables, own, root, t3, t2, t1, v) && PathOpen(tables, root, t3, t2, v);
      WriteLeaf(tables, own, root, t3, t2, t1, v, e);
      tables := SetEntry(tables, t1, Index(1, v), e);
    }

    method DescendToLeaf(root: nat, v: nat) returns (ok: bool, t1: nat)
      requires Valid() && IsRoot(own, root)
      modifies this`tables, this`own, this`data, phys`hotUsedPages, phys.hotBitmap, phys.hotFreeCache
      ensures Valid() && Kept(old(Now()), Now()) && SameRoots(old(own), own)
      ensures SameLookups(old(tables), tables, old(own))
      ensures ok ==> Reaches(root, v, t1)
      ensures !ok && NothingShadowed(old(tables), cr3) ==> OutOfMemory()
    {
      hide WalkFrom, TreeOk, LinearOk, Points, SameSlotsElsewhere, SameLookups, Index;
      t1 := NULL;
      var t3, t2;
      ghost var s0 := Now();
      RootIsTable(tables, own, root);
      ok, t3 := Descend(root, 4, v);
      if !ok { return; }
      ghost var s3 := Now();
      if NothingShadowed(s0.tables, cr3) { ShadowsSame(s0.tables, s3.tables, s0.own, cr3); }

      ok, t2 := Descend(t3, 3, v);
      ghost var s2 := Now();
      KeptTrans(s0, s3, s2);
      SameLookupsTrans(s0, s3, s2);
      if !ok { return; }
      StillPoints(s3, s2, root, 4, v, t3, t3);
      if NothingShadowed(s0.tables, cr3) { ShadowsSame(s0.tables, s2.tables, s0.own, cr3); }

      ok, t1 := Descend(t2, 2, v);
      ghost var s1 := Now();
      KeptTrans(s0, s2, s1);
      SameLookupsTrans(s0, s2, s1);
      if !ok { return; }
      StillPoints(s2, s1, root, 4, v, t3, t2);
      StillPoints(s2, s1, t3, 3, v, t2, t2);
      assert OnPath(tables, own, root, t3, t2, t1, v);
    }

    // -------------------------------------------------------------------------------------------
    // vm_create
    // -------------------------------------------------------------------------------------------

    /** Allocates the two top tables of a new address space and fills in the kernel map; NULL when
        memory runs out. */
    method CreateTables() returns (root: nat)
      requires Valid()
      modifies this`tables, this`own, this`data, phys`hotUsedPages, phys.hotBitmap, phys.hotFreeCache
      ensures Valid() && Kept(old(Now()), Now())
      ensures SameLookups(old(tables), tables, old(own))
      ensures root != NULL ==> IsRoot(own, root) && root !in old(own)
      ensures root != NULL ==> ResolvesAsNew(tables, root, false, NULL)
      ensures forall r :: IsRoot(own, r) ==> IsRoot(old(own), r) || (root != NULL && r == root)
      ensures root == NULL && NothingShadowed(old(tables), cr3) ==> OutOfMemory()
    {
      hide WalkFrom, Index, TreeOk, KernelAccess;
      ghost var s0 := Now();
      var pml4 := AllocFrame();
      if pml4 == NULL { return NULL; }
      ghost var s1 := Now();
      var pdpt := AllocFrame();
      if pdpt == NULL { return NULL; }
      ghost var s2 := Now();
      InstallSpace(pml4, pdpt);
      return pml4;
    }

    method InstallSpace(pml4: nat, pdpt: nat)
      requires Valid() && pml4 !in tables && pdpt !in tables && pml4 != pdpt
      requires IsPageAddr(pml4) && IsPageAddr(pdpt)
      requires Taken(phys.hotBitmap[..], pml4) && Taken(phys.hotBitmap[..], pdpt)
      modifies this`tables, this`own, this`data
      ensures Valid() && Extends(old(own), own) && data == old(data) - {pml4, pdpt}
      ensures forall r :: IsRoot(own, r) ==> IsRoot(old(own), r) || r == pml4
      ensures SameLookups(old(tables), tables, old(own))
      ensures tables.Keys == old(tables).Keys + {pml4, pdpt}
      ensures IsRoot(own, pml4) && pml4 !in old(own)
      ensures ResolvesAsNew(tables, pml4, false, NULL)
    {
      hide WithSpace, WithSpaceNodes, SameLookups, ResolvesAsNew, TreeOk, AllTaken, IsPageAddr, Taken;
      SpaceAdded(phys.hotBitmap[..], tables, own, pml4, pdpt, cr3);
      tables := WithSpace(tables, pml4, pdpt);
      own := WithSpaceNodes(own, pml4, pdpt);
      data := data - {pml4, pdpt};
    }

    /** vm_create: a new address space with the kernel map and, if the signal restorer page exists,
        that page at its fixed address (`stub` says whether that last step succeeded, which the
        code does not report). */
    method Create() returns (root: nat, ghost stub: bool)
      requires Valid()
      modifies this`tables, this`own, this`data, this`brk, phys`hotUsedPages, phys.hotBitmap, phys.hotFreeCache
      ensures Valid() && Kept(old(Now()), Now())
      ensures SameLookups(old(tables), tables, old(own))
      ensures root != NULL ==> IsRoot(own, root) && root !in old(own) && brk == old(brk)[root := 0]
      ensures root != NULL ==> ResolvesAsNew(tables, root, stub, sigStubPage)
      ensures forall r :: IsRoot(own, r) && !IsRoot(old(own), r) ==> ResolvesAsNew(tables, r, stub, sigStubPage)
      ensures root == NULL ==> brk == old(brk)
      ensures root == NULL && NothingShadowed(old(tables), cr3) ==> OutOfMemory()
      ensures stub ==> sigStubPage != NULL
      ensures root != NULL && sigStubPage != NULL && !stub && NothingShadowed(old(tables), cr3) ==> OutOfMemory()
    {
      hide WalkFrom, Index, SamePage, TreeOk, LeafWritten, SameLookups, ResolvesAsNew, LinearOk;
      stub := false;
      ghost var s0 := Now();
      root := CreateTables();
      if root == NULL { return; }
      ghost var s1 := Now();
      if NothingShadowed(s0.tables, cr3) { ShadowsSame(s0.tables, s1.tables, s0.own, cr3); }
      var ctx := AllocFrame();
      if ctx == NULL {
        StubIrrelevant(tables, root, sigStubPage);
        return NULL, false;
      }
      data := data - {ctx};
      brk := brk[root := 0];
      ghost var s2 := Now();
      KeptTrans(s0, s1, s2);
      if sigStubPage != NULL {
        var ok := MapPage(root, RESTORER, sigStubPage, Flags(true, true, true, true));
        stub := ok;
        KeptTrans(s0, s2, Now());
        RestorerMapped(s0, s2, Now(), root, ok, sigStubPage);
      } else {
        StubIrrelevant(tables, root, sigStubPage);
      }
    }

    // -------------------------------------------------------------------------------------------
    // vm_alloc_page
    // -------------------------------------------------------------------------------------------

    /** A zeroed data page in a frame that was free, or NULL. */
    method AllocPage() returns (p: nat)
      requires Valid()
      modifies this`data, phys`hotUsedPages, phys.hotBitmap, phys.hotFreeCache
      ensures Valid() && Kept(old(Now()), Now())
      ensures p != NULL ==> FreshPage(old(Now()), Now(), p) && data == old(data)[p := ZeroPage()]
      ensures p == NULL ==> data == old(data)
      ensures p == NULL && NothingShadowed(tables, cr3) ==> OutOfMemory()
    {
      p := AllocFrame();
      if p != NULL {
        data := data[p := ZeroPage()];
      }
    }

    // -------------------------------------------------------------------------------------------
    // vm_unmap
    // -------------------------------------------------------------------------------------------

    /** One round of vm_unmap: a user page is freed and its leaf cleared; anything else is left. */
    method UnmapPage(root: nat, a: nat)
      requires Valid() && IsRoot(own, root)
      requires UserAt(tables, root, a) ==> Freeable(Now(), FrameAt(tables, root, a))
      modifies this`tables, phys.Repr
      ensures Valid() && tables.Keys == old(tables).Keys
      ensures if UserAt(old(tables), root, a)
              then && LeafWritten(old(tables), tables, own, root, a, EMPTY)
                   && phys.hotBitmap[..] == Released(old(phys.hotBitmap[..]), FrameAt(old(tables), root, a))
              else tables == old(tables) && phys.hotBitmap[..] == old(phys.hotBitmap[..])
    {
      assert root in tables;
      hide WalkFrom, EntryOk, TreeOk, LeafWritten, Released, AllTaken;
      UserPages(tables, own, root, a);
      var leaf := LeafTable(tables, root, a);
      if leaf == None {
        return;
      }
      var t1 := leaf.value;
      var e := tables[t1][Index(1, a)];
      if !e.present || !e.user {
        return;
      }
      assert Freeable(Now(), e.addr);
      FreeFrame(e.addr);
      ClearLeaf(root, a, t1);
    }

    /** A data frame goes back to the allocator. */
    method FreeFrame(f: nat)
      requires Valid() && Freeable(Now(), f)
      modifies phys.Repr
      ensures Valid() && phys.hotBitmap[..] == Released(old(phys.hotBitmap[..]), f)
    {
      hide TreeOk;
      phys.Pfree(f);
      forall g | g in tables ensures Taken(phys.hotBitmap[..], g) {
        if HEAP_BASE <= g < WARM_BASE { PagesDiffer(g, f); }
      }
    }

    method ClearLeaf(root: nat, a: nat, t1: nat)
      requires Valid() && LeafPath(tables, own, root, a, t1)
      modifies this`tables
      ensures Valid() && tables.Keys == old(tables).Keys
      ensures LeafWritten(old(tables), tables, own, root, a, EMPTY)
    {
      ghost var t3, t2 :| OnPath(tables, own, root, t3, t2, t1, a);
      WriteLeaf(tables, own, root, t3, t2, t1, a, EMPTY);
      tables := SetEntry(tables, t1, Index(1, a), EMPTY);
    }
  }

  /** All that adding the two tables of a new address space does. */
  lemma SpaceAdded(used: seq<bool>, ts: Tables, own: map<nat, Node>, p4: nat, p3: nat, cr3: nat)
    requires TreeOk(ts, own) && AllTaken(used, ts) && p4 !in ts && p3 !in ts && p4 != p3 && IsPageAddr(p4) && IsPageAddr(p3)
    requires Taken(used, p4) && Taken(used, p3) && IsRoot(own, cr3)
    ensures var ts', own' := WithSpace(ts, p4, p3), WithSpaceNodes(own, p4, p3);
            && TreeOk(ts', own') && AllTaken(used, ts') && IsRoot(own', cr3) && Extends(own, own')
            && SameLookups(ts, ts', own) && ts'.Keys == ts.Keys + {p4, p3} && IsRoot(own', p4) && p4 !in own
            && ResolvesAsNew(ts', p4, false, NULL) && forall r :: IsRoot(own', r) ==> IsRoot(own, r) || r == p4
  {
    hide WalkFrom, Index, EntryOk, KernelAccess, IsPageAddr;
    PageAddrAligned(p3);
    AddSpace(ts, own, p4, p3);
    SpaceTaken(used, ts, p4, p3);
  }

  lemma SpaceTaken(used: seq<bool>, ts: Tables, p4: nat, p3: nat)
    requires AllTaken(used, ts) && Taken(used, p4) && Taken(used, p3) && IsPageAddr(p4) && IsPageAddr(p3)
    ensures AllTaken(used, WithSpace(ts, p4, p3))
  {
    hide IsPageAddr;
    PageAddrAligned(p4);
    PageAddrAligned(p3);
  }

  lemma PagesDiffer(f: nat, g: nat)
    requires HEAP_BASE <= f && HEAP_BASE <= g && f % KB4 == 0 && g % KB4 == 0 && f != g
    ensures PageOf(f) != PageOf(g)
  {
  }

  /** A hot-zone frame that is not a page table. */
  ghost predicate Freeable(s: State, f: nat) { IsPageAddr(f) && f !in s.tables }

  ghost function Released(used: seq<bool>, f: nat): seq<bool>
    requires |used| == HOT_ZONE_PAGES && IsPageAddr(f)
  {
    used[PageOf(f) := false]
  }

  /** The addresses of a new address space: the kernel map, and perhaps the restorer page. */
  function NewSpaceAccess(stub: bool, stubPage: nat, w: nat): Option<Access> {
    if stub && SamePage(RESTORER, w)
    then LeafAccess(LeafEntry(stubPage, Flags(true, true, true, true)), w)
    else KernelAccess(w)
  }

  ghost predicate ResolvesAsNew(ts: Tables, root: nat, stub: bool, stubPage: nat) {
    forall w: nat :: Lookup(ts, root, w) == NewSpaceAccess(stub, stubPage, w)
  }

  lemma StubIrrelevant(ts: Tables, root: nat, stubPage: nat)
    requires ResolvesAsNew(ts, root, false, NULL)
    ensures ResolvesAsNew(ts, root, false, stubPage)
  {
    hide WalkFrom, SamePage, KernelAccess;
    forall w: nat ensures Lookup(ts, root, w) == NewSpaceAccess(false, stubPage, w) {
      assert Lookup(ts, root, w) == NewSpaceAccess(false, NULL, w);
    }
  }

  lemma RestorerMapped(s0: State, s: State, s': State, root: nat, ok: bool, stubPage: nat)
    requires SameLookups(s0.tables, s.tables, s0.own) && Extends(s0.own, s.own)
    requires root !in s0.own && IsRoot(s.own, root) && ResolvesAsNew(s.tables, root, false, NULL)
    requires if ok then LeafWritten(s.tables, s'.tables, s.own, root, RESTORER, LeafEntry(stubPage, Flags(true, true, true, true)))
             else SameLookups(s.tables, s'.tables, s.own)
    ensures SameLookups(s0.tables, s'.tables, s0.own) && ResolvesAsNew(s'.tables, root, ok, stubPage)
  {
    hide WalkFrom, SamePage, KernelAccess, LeafAccess, LeafEntry;
    forall r: nat, v: nat | IsRoot(s0.own, r) ensures Lookup(s'.tables, r, v) == Lookup(s0.tables, r, v) {
      assert Lookup(s.tables, r, v) == Lookup(s0.tables, r, v);
    }
    forall w: nat ensures Lookup(s'.tables, root, w) == NewSpaceAccess(ok, stubPage, w) {
      assert Lookup(s.tables, root, w) == NewSpaceAccess(false, NULL, w);
    }
  }

  lemma NewSpaceLow(stub: bool, stubPage: nat, v: nat)
    requires v < 2 * GB1 && !SamePage(RESTORER, v)
    ensures NewSpaceAccess(stub, stubPage, v) == Some(Access(v, false, true, false))
  {
  }

  /** All of a new address space: the kernel's two gigabytes and the devices' one, each address as itself and for the
      kernel only; the restorer page, if there is one, which user code may read, write and execute; nothing else. */
  lemma NewSpaceAddresses(ts: Tables, root: nat, stub: bool, stubPage: nat, v: nat)
    requires ResolvesAsNew(ts, root, stub, stubPage) && v < 0x1_0000_0000_0000 && (stub ==> stubPage % KB4 == 0 && stubPage < PHYS_LIMIT)
    ensures v < 0x8000_0000 || 0xC000_0000 <= v < 0x1_0000_0000 ==> Lookup(ts, root, v) == Some(Access(v, false, true, false))
    ensures 0x8000_0000 <= v < 0xC000_0000 ==> Lookup(ts, root, v) == None
    ensures 0x1_0000_0000 <= v && !(0x6000_0000_0000 <= v < 0x6000_0000_1000 && stub) ==> Lookup(ts, root, v) == None
    ensures 0x6000_0000_0000 <= v < 0x6000_0000_1000 && stub ==> Lookup(ts, root, v) == Some(Access(stubPage + v % 4096, true, true, false))
  {
    hide WalkFrom, SamePage;
    assert Lookup(ts, root, v) == NewSpaceAccess(stub, stubPage, v);
    SamePageNumber(RESTORER, v);
  }

  lemma NewSpaceIsIdentityMapped(ts: Tables, root: nat, stub: bool, stubPage: nat)
    requires ResolvesAsNew(ts, root, stub, stubPage)
    ensures IdentityMapped(ts, root)
  {
    hide WalkFrom, SamePage, KernelAccess, NewSpaceAccess;
    forall v: nat | v < 2 * GB1 ensures Lookup(ts, root, v) == Some(Access(v, false, true, false)) {
      AboveKernelPage(RESTORER, v);
      NewSpaceLow(stub, stubPage, v);
    }
  }
}
