/** vm_fork: the child gets a deep copy of every user page of the parent. */
module Forking {
  import opened Options
  import opened PhysicalMemory
  import opened PageTables
  import opened AddressSpaces

  /** vm_flags_from_pte. */
  function FlagsOf(e: Pte): Flags { Flags(true, e.write, !e.nx, true) }

  function PageNumber(w: nat): nat { w / KB4 % PAGES }

  /** Page `j` of the parent as it was in `s0` has its copy in the child in `s`: same address, same
      rights, same bytes, in a frame that was free in `s0`. */
  ghost predicate Copied(s0: State, s: State, parent: nat, child: nat, j: nat) {
    var v := PageAt(0, j);
    && UserAt(s0.tables, parent, v) && UserAt(s.tables, child, v)
    && FrameAt(s0.tables, parent, v) in s0.data
    && var a := Lookup(s0.tables, parent, v).value;
       var c := Lookup(s.tables, child, v).value;
       var f := FrameAt(s.tables, child, v);
       && c.write == a.write && c.nx == a.nx
       && !Taken(s0.used, f) && DataFrame(s, f)
       && s.data[f] == s0.data[FrameAt(s0.tables, parent, v)]
  }

  /** The state of a fork that has dealt with the pages below number `k`. */
  ghost predicate Forked(s0: State, s: State, parent: nat, child: nat, k: nat) {
    && Kept(s0, s)
    && OthersKept(s0, s, child)
    && (forall j: nat :: j < k && UserAt(s0.tables, parent, PageAt(0, j)) ==> Copied(s0, s, parent, child, j))
    && (forall i: nat, j: nat :: i < j < k && UserAt(s0.tables, parent, PageAt(0, i)) && UserAt(s0.tables, parent, PageAt(0, j)) ==>
          DifferentFrames(s, child, i, j))
    && (forall w: nat :: PageNumber(w) >= k || !UserAt(s0.tables, parent, w) ==>
          Lookup(s.tables, child, w) == Lookup(s0.tables, child, w))
  }

  ghost predicate OthersKept(s0: State, s: State, child: nat) {
    forall r: nat, w: nat :: IsRoot(s0.own, r) && r != child ==> Lookup(s.tables, r, w) == Lookup(s0.tables, r, w)
  }

  ghost predicate DifferentFrames(s: State, child: nat, i: nat, j: nat) {
    && UserAt(s.tables, child, PageAt(0, i)) && UserAt(s.tables, child, PageAt(0, j))
    && FrameAt(s.tables, child, PageAt(0, i)) != FrameAt(s.tables, child, PageAt(0, j))
  }

  /** The frame `np` has been filled with page `k` of the parent (`s` to `s1`) and mapped into the
      child (`s1` to `s2`). */
  ghost predicate CopyStep(s0: State, s: State, s1: State, s2: State, parent: nat, child: nat, k: nat, np: nat) {
    var v := PageAt(0, k);
    && k < PAGES && IsRoot(s0.own, parent) && IsRoot(s0.own, child) && parent != child
    && TreeOk(s0.tables, s0.own)
    && UserAt(s0.tables, parent, v) && DataFrame(s0, FrameAt(s0.tables, parent, v))
    && var a := Lookup(s0.tables, parent, v).value;
       && s1.tables == s.tables && s1.own == s.own
       && Kept(s, s1) && FreshPage(s, s1, np) && s1.data[np] == s0.data[FrameAt(s0.tables, parent, v)]
       && Kept(s1, s2)
       && LeafWritten(s1.tables, s2.tables, s1.own, child, v, LeafEntry(np, Flags(true, a.write, !a.nx, true)))
  }

  lemma CopyOthers(s0: State, s: State, s1: State, s2: State, parent: nat, child: nat, k: nat, np: nat)
    requires Forked(s0, s, parent, child, k) && CopyStep(s0, s, s1, s2, parent, child, k, np)
    ensures Kept(s0, s2) && OthersKept(s0, s2, child)
  {
    hide WalkFrom, SamePage, Copied, DifferentFrames, TreeOk, UserAt;
    KeptTrans(s0, s, s1);
    KeptTrans(s0, s1, s2);
    forall r: nat, w: nat | IsRoot(s0.own, r) && r != child
      ensures Lookup(s2.tables, r, w) == Lookup(s0.tables, r, w)
    {
      assert Lookup(s.tables, r, w) == Lookup(s0.tables, r, w);
    }
  }

  lemma CopyThis(s0: State, s: State, s1: State, s2: State, parent: nat, child: nat, k: nat, np: nat)
    requires Forked(s0, s, parent, child, k) && CopyStep(s0, s, s1, s2, parent, child, k, np)
    ensures Copied(s0, s2, parent, child, k)
    ensures FrameAt(s2.tables, child, PageAt(0, k)) == np
  {
    hide WalkFrom, Index, TreeOk;
    var v := PageAt(0, k);
    assert SamePage(v, v);
    DataFrameKept(s1, s2, np);
    assert Lookup(s2.tables, child, v).value.phys == np;
    assert np / KB4 * KB4 == np;
  }

  lemma CopyEarlier(s0: State, s: State, s1: State, s2: State, parent: nat, child: nat, k: nat, np: nat, j: nat)
    requires Forked(s0, s, parent, child, k) && CopyStep(s0, s, s1, s2, parent, child, k, np)
    requires j < k && UserAt(s0.tables, parent, PageAt(0, j))
    ensures Lookup(s2.tables, child, PageAt(0, j)) == Lookup(s.tables, child, PageAt(0, j))
    ensures Copied(s0, s2, parent, child, j)
    ensures FrameAt(s2.tables, child, PageAt(0, j)) != np
  {
    hide WalkFrom, SamePage, TreeOk;
    var v := PageAt(0, j);
    assert Copied(s0, s, parent, child, j);
    PagesDistinct(0, j, k);
    SamePageSymmetric(PageAt(0, k), v);
    KeptTrans(s, s1, s2);
    DataFrameKept(s, s2, FrameAt(s.tables, child, v));
  }

  lemma SamePageSymmetric(v: nat, w: nat)
    ensures SamePage(v, w) == SamePage(w, v)
  {
  }

  lemma CopyRest(s0: State, s: State, s1: State, s2: State, parent: nat, child: nat, k: nat, np: nat, w: nat)
    requires Forked(s0, s, parent, child, k) && CopyStep(s0, s, s1, s2, parent, child, k, np)
    requires PageNumber(w) >= k + 1 || !UserAt(s0.tables, parent, w)
    ensures Lookup(s2.tables, child, w) == Lookup(s0.tables, child, w)
  {
    hide WalkFrom, SamePage, TreeOk;
    var v := PageAt(0, k);
    SamePageNumber(v, w);
    if SamePage(v, w) {
      UserSamePage(s0.tables, s0.own, parent, v, w);
    }
    assert Lookup(s.tables, child, w) == Lookup(s0.tables, child, w);
  }

  lemma CopyOneMore(s0: State, s: State, s1: State, s2: State, parent: nat, child: nat, k: nat, np: nat)
    requires Forked(s0, s, parent, child, k) && CopyStep(s0, s, s1, s2, parent, child, k, np)
    ensures Forked(s0, s2, parent, child, k + 1)
  {
    hide WalkFrom, Lookup, Copied, UserAt, CopyStep;
    CopyOthers(s0, s, s1, s2, parent, child, k, np);
    CopyThis(s0, s, s1, s2, parent, child, k, np);
    forall j: nat | j < k + 1 && UserAt(s0.tables, parent, PageAt(0, j)) ensures Copied(s0, s2, parent, child, j) {
      if j < k { CopyEarlier(s0, s, s1, s2, parent, child, k, np, j); }
    }
    forall i: nat, j: nat | i < j < k + 1 && UserAt(s0.tables, parent, PageAt(0, i)) && UserAt(s0.tables, parent, PageAt(0, j))
      ensures DifferentFrames(s2, child, i, j)
    {
      CopyDifferent(s0, s, s1, s2, parent, child, k, np, i, j);
    }
    forall w: nat | PageNumber(w) >= k + 1 || !UserAt(s0.tables, parent, w)
      ensures Lookup(s2.tables, child, w) == Lookup(s0.tables, child, w)
    {
      CopyRest(s0, s, s1, s2, parent, child, k, np, w);
    }
  }

  lemma CopyDifferent(s0: State, s: State, s1: State, s2: State, parent: nat, child: nat, k: nat, np: nat, i: nat, j: nat)
    requires Forked(s0, s, parent, child, k) && CopyStep(s0, s, s1, s2, parent, child, k, np)
    requires i < j < k + 1 && UserAt(s0.tables, parent, PageAt(0, i)) && UserAt(s0.tables, parent, PageAt(0, j))
    ensures DifferentFrames(s2, child, i, j)
  {
    hide WalkFrom, Index, TreeOk;
    CopyEarlier(s0, s, s1, s2, parent, child, k, np, i);
    if j < k {
      CopyEarlier(s0, s, s1, s2, parent, child, k, np, j);
      assert DifferentFrames(s, child, i, j);
    } else {
      CopyThis(s0, s, s1, s2, parent, child, k, np);
    }
  }

  /** Pages that are not user pages of the parent need no work. */
  lemma SkipPages(s0: State, s: State, parent: nat, child: nat, k: nat, k': nat)
    requires Forked(s0, s, parent, child, k) && k <= k' <= PAGES
    requires TreeOk(s0.tables, s0.own) && IsRoot(s0.own, parent)
    requires forall j: nat :: k <= j < k' ==> !UserAt(s0.tables, parent, PageAt(0, j))
    ensures Forked(s0, s, parent, child, k')
  {
    hide WalkFrom, TreeOk, SamePage, Copied;
  }

  // ---------------------------------------------------------------------------------------------
  // The four nested loops
  // ---------------------------------------------------------------------------------------------

  /** The standing facts of a fork in progress. */
  ghost predicate Forking(vm: Vm, s0: State, parent: nat, child: nat, k: nat)
    reads vm, vm.phys, vm.phys.hotBitmap, vm.phys.hotFreeCache
  {
    && vm.Valid()
    && TreeOk(s0.tables, s0.own) && UserFramesOk(s0)
    && IsRoot(s0.own, parent) && IsRoot(s0.own, child) && parent != child
    && IsRoot(vm.own, parent) && IsRoot(vm.own, child)
    && IsRoot(s0.own, vm.cr3) && vm.cr3 != child
    && SameRoots(s0.own, vm.own) && Forked(s0, vm.Now(), parent, child, k)
  }

  /** A fork that has got as far as some page. */
  ghost predicate PartForked(s0: State, s: State, parent: nat, child: nat) {
    SameRoots(s0.own, s.own) && exists k: nat :: Forked(s0, s, parent, child, k)
  }

  /** A page with the given bytes in a frame that was free. */
  method FillPage(vm: Vm, content: Page) returns (np: nat)
    requires vm.Valid()
    modifies vm`data, vm.phys`hotUsedPages, vm.phys.hotBitmap, vm.phys.hotFreeCache
    ensures vm.Valid() && Kept(old(vm.Now()), vm.Now())
    ensures np != NULL ==> FreshPage(old(vm.Now()), vm.Now(), np) && vm.data[np] == content
    ensures np == NULL && NothingShadowed(vm.tables, vm.cr3) ==> vm.OutOfMemory()
  {
    hide WalkFrom, TreeOk, NothingShadowed, AllTaken;
    np := vm.AllocPage();
    if np != NULL { vm.data := vm.data[np := content]; }
  }

  /** Copies one user page of the parent into the child. */
  method CopyPage(vm: Vm, ghost s0: State, parent: nat, child: nat, k: nat, e: Pte) returns (ok: bool)
    requires Forking(vm, s0, parent, child, k) && k < PAGES
    requires UserAt(s0.tables, parent, PageAt(0, k)) && FrameAt(s0.tables, parent, PageAt(0, k)) == e.addr
    requires Lookup(s0.tables, parent, PageAt(0, k)) == LeafAccess(e, PageAt(0, k)) && e.present
    modifies vm`tables, vm`own, vm`data, vm.phys`hotUsedPages, vm.phys.hotBitmap, vm.phys.hotFreeCache
    ensures ok ==> Forking(vm, s0, parent, child, k + 1)
    ensures vm.Valid() && PartForked(s0, vm.Now(), parent, child)
    ensures !ok && NothingShadowed(s0.tables, vm.cr3) ==> vm.OutOfMemory()
  {
    hide WalkFrom, Index, SamePage, TreeOk, NothingShadowed, LeafWritten, OthersKept, AllTaken, Forked, UserFramesOk,
         UserAt, LeafAccess, Kept, FreshPage, SameLookups, LeafEntry;
    ghost var s := vm.Now();
    PageToCopy(s0, s, parent, child, k, e);
    if NothingShadowed(s0.tables, vm.cr3) { StillUnshadowed(s0, s, child, vm.cr3); }
    var np := FillPage(vm, vm.data[e.addr]);
    ghost var s1 := vm.Now();
    SameLookupsRefl(s.tables, s.own);
    StillForked(s0, s, s1, parent, child, k);
    if np == NULL {
      return false;
    }
    ok := vm.MapPage(child, PageAt(0, k), np, FlagsOf(e));
    ghost var s2 := vm.Now();
    if ok {
      PageCopied(s0, s, s1, s2, parent, child, k, np, e);
    } else {
      StillForked(s0, s1, s2, parent, child, k);
    }
  }

  /** What changes no lookup leaves a fork where it was. */
  lemma StillForked(s0: State, s: State, s': State, parent: nat, child: nat, k: nat)
    requires Forked(s0, s, parent, child, k) && IsRoot(s0.own, child) && Kept(s, s') && SameLookups(s.tables, s'.tables, s.own)
    ensures Forked(s0, s', parent, child, k)
  {
    hide WalkFrom, Index, SamePage, PageAt, PageNumber;
    KeptTrans(s0, s, s');
    forall w: nat ensures Lookup(s'.tables, child, w) == Lookup(s.tables, child, w) { }
    forall r: nat, w: nat | IsRoot(s0.own, r) && r != child ensures Lookup(s'.tables, r, w) == Lookup(s0.tables, r, w) {
      assert Lookup(s'.tables, r, w) == Lookup(s.tables, r, w);
    }
    forall j: nat | j < k && UserAt(s0.tables, parent, PageAt(0, j)) ensures Copied(s0, s', parent, child, j) {
      assert Copied(s0, s, parent, child, j);
      DataFrameKept(s, s', FrameAt(s.tables, child, PageAt(0, j)));
    }
    forall i: nat, j: nat | i < j < k && UserAt(s0.tables, parent, PageAt(0, i)) && UserAt(s0.tables, parent, PageAt(0, j))
      ensures DifferentFrames(s', child, i, j)
    {
      assert DifferentFrames(s, child, i, j);
    }
  }

  lemma PageToCopy(s0: State, s: State, parent: nat, child: nat, k: nat, e: Pte)
    requires Forked(s0, s, parent, child, k) && UserFramesOk(s0) && IsRoot(s0.own, parent)
    requires UserAt(s0.tables, parent, PageAt(0, k)) && FrameAt(s0.tables, parent, PageAt(0, k)) == e.addr
    ensures Kept(s0, s) && OthersKept(s0, s, child)
    ensures DataFrame(s0, e.addr) && DataFrame(s, e.addr) && s.data[e.addr] == s0.data[e.addr]
  {
    hide WalkFrom;
    DataFrameKept(s0, s, e.addr);
  }

  lemma PageCopied(s0: State, s: State, s1: State, s2: State, parent: nat, child: nat, k: nat, np: nat, e: Pte)
    requires Forked(s0, s, parent, child, k) && k < PAGES && TreeOk(s0.tables, s0.own) && DataFrame(s0, e.addr)
    requires IsRoot(s0.own, parent) && IsRoot(s0.own, child) && parent != child
    requires UserAt(s0.tables, parent, PageAt(0, k)) && FrameAt(s0.tables, parent, PageAt(0, k)) == e.addr
    requires Lookup(s0.tables, parent, PageAt(0, k)) == LeafAccess(e, PageAt(0, k)) && e.present
    requires s1.tables == s.tables && s1.own == s.own && Kept(s, s1) && FreshPage(s, s1, np) && s1.data[np] == s0.data[e.addr]
    requires Kept(s1, s2) && LeafWritten(s1.tables, s2.tables, s1.own, child, PageAt(0, k), LeafEntry(np, FlagsOf(e)))
    ensures Forked(s0, s2, parent, child, k + 1) && OthersKept(s0, s2, child) && IsRoot(s2.own, parent) && IsRoot(s2.own, child)
  {
    assert CopyStep(s0, s, s1, s2, parent, child, k, np) by { hide WalkFrom, Index, SamePage, TreeOk, LeafWritten; }
    CopyOneMore(s0, s, s1, s2, parent, child, k, np);
  }

  /** The kernel's view of memory through another address space is not affected by the fork. */
  lemma StillUnshadowed(s0: State, s: State, child: nat, cr3: nat)
    requires OthersKept(s0, s, child) && IsRoot(s0.own, cr3) && cr3 != child && NothingShadowed(s0.tables, cr3)
    ensures NothingShadowed(s.tables, cr3)
  {
    hide WalkFrom;
  }

  lemma IndexOfPage(j: nat)
    ensures Index(1, PageAt(0, j)) == j % 512
    ensures Index(2, PageAt(0, j)) == j / 512 % 512
    ensures Index(3, PageAt(0, j)) == j / 0x40000 % 512
    ensures Index(4, PageAt(0, j)) == j / 0x800_0000 % 512
  {
    DivKB4(PageAt(0, j));
    assert PageAt(0, j) / KB4 == j;
  }

  /** The page directory on the path of `v`, if the two upper entries lead to one. */
  function DirectoryTable(ts: Tables, root: nat, v: nat): Option<nat>
    requires root in ts
  {
    match NextTable(ts, root, Index(4, v)) case None => None case Some(t3) => NextTable(ts, t3, Index(3, v))
  }

  /** A part of the parent's tree that is absent or a huge page holds no user page. */
  ghost predicate NothingBelow(ts: Tables, root: nat, level: nat, v: nat)
    requires root in ts && 1 <= level <= 3
  {
    match level
    case 1 => LeafTable(ts, root, v) == None
    case 2 => DirectoryTable(ts, root, v) == None
    case 3 => NextTable(ts, root, Index(4, v)) == None
  }

  /** The pages below one slot: 512, 512 * 512 or 512 * 512 * 512 of them. */
  function PagesBelow(level: nat): nat {
    if level <= 1 then 512 else if level == 2 then 0x40000 else 0x800_0000
  }

  lemma NoUserPageBelow(ts: Tables, own: map<nat, Node>, root: nat, level: nat, n: nat, j: nat)
    requires TreeOk(ts, own) && IsRoot(own, root) && 1 <= level <= 3
    requires NothingBelow(ts, root, level, PageAt(0, n * PagesBelow(level)))
    requires n * PagesBelow(level) <= j < (n + 1) * PagesBelow(level)
    ensures !UserAt(ts, root, PageAt(0, j))
  {
    hide WalkFrom, Index, EntryOk, PageAt, PagesBelow;
    var v, w := PageAt(0, n * PagesBelow(level)), PageAt(0, j);
    UpperIndices(level, n, j);
    assert LeafTable(ts, root, w) == None;
    UserPages(ts, own, root, w);
  }

  lemma UpperIndices(level: nat, n: nat, j: nat)
    requires 1 <= level <= 3 && n * PagesBelow(level) <= j < (n + 1) * PagesBelow(level)
    ensures Index(4, PageAt(0, n * PagesBelow(level))) == Index(4, PageAt(0, j))
    ensures level <= 2 ==> Index(3, PageAt(0, n * PagesBelow(level))) == Index(3, PageAt(0, j))
    ensures level == 1 ==> Index(2, PageAt(0, n * PagesBelow(level))) == Index(2, PageAt(0, j))
  {
    hide Index, PageAt;
    IndexOfPage(n * PagesBelow(level));
    IndexOfPage(j);
    if level == 1 {
      Quotients1(n, j);
    } else if level == 2 {
      Quotients2(n, j);
    } else {
      Quotients3(n, j);
    }
  }

  lemma Quotients1(n: nat, j: nat)
    requires n * 512 <= j < (n + 1) * 512
    ensures j / 512 == n == n * 512 / 512
    ensures j / 0x40000 == n * 512 / 0x40000 && j / 0x800_0000 == n * 512 / 0x800_0000
  {
    assert j / 0x40000 == j / 512 / 512 && n * 512 / 0x40000 == n / 512;
    assert j / 0x800_0000 == j / 512 / 0x40000 && n * 512 / 0x800_0000 == n / 0x40000;
  }

  lemma Quotients2(n: nat, j: nat)
    requires n * 0x40000 <= j < (n + 1) * 0x40000
    ensures j / 0x40000 == n == n * 0x40000 / 0x40000
    ensures j / 0x800_0000 == n * 0x40000 / 0x800_0000
  {
    assert j / 0x800_0000 == j / 0x40000 / 512 && n * 0x40000 / 0x800_0000 == n / 512;
  }

  lemma Quotients3(n: nat, j: nat)
    requires n * 0x800_0000 <= j < (n + 1) * 0x800_0000
    ensures j / 0x800_0000 == n == n * 0x800_0000 / 0x800_0000
  {
  }

  /** Skips the pages below an absent slot. */
  lemma SkipBelow(s0: State, s: State, parent: nat, child: nat, level: nat, n: nat)
    requires Forked(s0, s, parent, child, n * PagesBelow(level)) && 1 <= level <= 3
    requires (n + 1) * PagesBelow(level) <= PAGES
    requires TreeOk(s0.tables, s0.own) && TreeOk(s.tables, s.own)
    requires IsRoot(s0.own, parent) && IsRoot(s0.own, child) && parent != child && IsRoot(s.own, parent)
    requires NothingBelow(s.tables, parent, level, PageAt(0, n * PagesBelow(level)))
    ensures Forked(s0, s, parent, child, (n + 1) * PagesBelow(level))
  {
    hide WalkFrom, Index, EntryOk, PageAt, Copied, DifferentFrames, NothingBelow;
    forall j: nat | n * PagesBelow(level) <= j < (n + 1) * PagesBelow(level)
      ensures !UserAt(s0.tables, parent, PageAt(0, j))
    {
      NoUserPageBelow(s.tables, s.own, parent, level, n, j);
      assert Lookup(s.tables, parent, PageAt(0, j)) == Lookup(s0.tables, parent, PageAt(0, j));
    }
    SkipPages(s0, s, parent, child, n * PagesBelow(level), (n + 1) * PagesBelow(level));
  }

  lemma ForkedKeeps(s0: State, s: State, parent: nat, child: nat, k: nat, v: nat)
    requires Forked(s0, s, parent, child, k) && IsRoot(s0.own, parent) && parent != child
    ensures Kept(s0, s) && OthersKept(s0, s, child) && Lookup(s.tables, parent, v) == Lookup(s0.tables, parent, v)
  {
    hide WalkFrom;
  }

  /** The innermost loop: the 512 pages of page table number `n`. */
  method ForkTable(vm: Vm, ghost s0: State, parent: nat, child: nat, n: nat) returns (ok: bool)
    requires Forking(vm, s0, parent, child, n * 512) && n < 0x800_0000
    modifies vm`tables, vm`own, vm`data, vm.phys`hotUsedPages, vm.phys.hotBitmap, vm.phys.hotFreeCache
    ensures ok ==> Forking(vm, s0, parent, child, (n + 1) * 512)
    ensures vm.Valid() && PartForked(s0, vm.Now(), parent, child)
    ensures !ok && NothingShadowed(s0.tables, vm.cr3) ==> vm.OutOfMemory()
  {
    hide WalkFrom, Index, SamePage, TreeOk, Forked, OthersKept, PageAt, UserFramesOk, Kept, LeafTable, NothingShadowed, AllTaken;
    for i := 0 to 512
      invariant Forking(vm, s0, parent, child, n * 512 + i)
    {
      var k := n * 512 + i;
      var v := PageAt(0, k);
      UserPages(vm.tables, vm.own, parent, v);
      RootIsTable(vm.tables, vm.own, parent);
      ForkedKeeps(s0, vm.Now(), parent, child, k, v);
      var leaf := LeafTable(vm.tables, parent, v);
      if leaf.Some? && vm.tables[leaf.value][Index(1, v)].present && vm.tables[leaf.value][Index(1, v)].user {
        ok := CopyPage(vm, s0, parent, child, k, vm.tables[leaf.value][Index(1, v)]);
        if !ok { return; }
      } else {
        SkipPages(s0, vm.Now(), parent, child, k, k + 1);
      }
    }
    ForkedKeeps(s0, vm.Now(), parent, child, (n + 1) * 512, 0);
    return true;
  }

  /** The third loop: the 512 page tables of page directory number `n`. */
  method ForkDirectory(vm: Vm, ghost s0: State, parent: nat, child: nat, n: nat) returns (ok: bool)
    requires Forking(vm, s0, parent, child, n * 0x40000) && n < 0x40000
    modifies vm`tables, vm`own, vm`data, vm.phys`hotUsedPages, vm.phys.hotBitmap, vm.phys.hotFreeCache
    ensures ok ==> Forking(vm, s0, parent, child, (n + 1) * 0x40000)
    ensures vm.Valid() && PartForked(s0, vm.Now(), parent, child)
    ensures !ok && NothingShadowed(s0.tables, vm.cr3) ==> vm.OutOfMemory()
  {
    hide WalkFrom, Index, SamePage, TreeOk, Forked, OthersKept, PageAt, UserFramesOk, Kept, UserAt, LeafTable,
         DirectoryTable, NothingShadowed, AllTaken;
    for i := 0 to 512
      invariant Forking(vm, s0, parent, child, (n * 512 + i) * 512)
    {
      var m := n * 512 + i;
      RootIsTable(vm.tables, vm.own, parent);
      if LeafTable(vm.tables, parent, PageAt(0, m * 512)) == None {
        SkipBelow(s0, vm.Now(), parent, child, 1, m);
      } else {
        ok := ForkTable(vm, s0, parent, child, m);
        if !ok { return; }
      }
    }
    ForkedKeeps(s0, vm.Now(), parent, child, (n + 1) * 0x40000, 0);
    return true;
  }

  /** The second loop: the 512 page directories below top-level slot `n`. */
  method ForkPointerTable(vm: Vm, ghost s0: State, parent: nat, child: nat, n: nat) returns (ok: bool)
    requires Forking(vm, s0, parent, child, n * 0x800_0000) && n < 512
    modifies vm`tables, vm`own, vm`data, vm.phys`hotUsedPages, vm.phys.hotBitmap, vm.phys.hotFreeCache
    ensures ok ==> Forking(vm, s0, parent, child, (n + 1) * 0x800_0000)
    ensures vm.Valid() && PartForked(s0, vm.Now(), parent, child)
    ensures !ok && NothingShadowed(s0.tables, vm.cr3) ==> vm.OutOfMemory()
  {
    hide WalkFrom, Index, SamePage, TreeOk, Forked, OthersKept, PageAt, UserFramesOk, Kept, UserAt, LeafTable,
         DirectoryTable, NothingShadowed, AllTaken;
    for i := 0 to 512
      invariant Forking(vm, s0, parent, child, (n * 512 + i) * 0x40000)
    {
      var m := n * 512 + i;
      RootIsTable(vm.tables, vm.own, parent);
      if DirectoryTable(vm.tables, parent, PageAt(0, m * 0x40000)) == None {
        SkipBelow(s0, vm.Now(), parent, child, 2, m);
      } else {
        ok := ForkDirectory(vm, s0, parent, child, m);
        if !ok { return; }
      }
    }
    ForkedKeeps(s0, vm.Now(), parent, child, (n + 1) * 0x800_0000, 0);
    return true;
  }

  /** The outermost loop: the 512 slots of the parent's top table. */
  method ForkSpace(vm: Vm, ghost s0: State, parent: nat, child: nat) returns (ok: bool)
    requires Forking(vm, s0, parent, child, 0)
    modifies vm`tables, vm`own, vm`data, vm.phys`hotUsedPages, vm.phys.hotBitmap, vm.phys.hotFreeCache
    ensures ok ==> Forking(vm, s0, parent, child, PAGES)
    ensures vm.Valid() && PartForked(s0, vm.Now(), parent, child)
    ensures !ok && NothingShadowed(s0.tables, vm.cr3) ==> vm.OutOfMemory()
  {
    hide WalkFrom, Index, SamePage, TreeOk, Forked, OthersKept, PageAt, UserFramesOk, Kept, UserAt, NothingShadowed, AllTaken, NextTable;
    for i := 0 to 512
      invariant Forking(vm, s0, parent, child, i * 0x800_0000)
    {
      IndexOfPage(i * 0x800_0000);
      RootIsTable(vm.tables, vm.own, parent);
      if NextTable(vm.tables, parent, i) == None {
        SkipBelow(s0, vm.Now(), parent, child, 3, i);
      } else {
        ok := ForkPointerTable(vm, s0, parent, child, i);
        if !ok { return; }
      }
    }
    ForkedKeeps(s0, vm.Now(), parent, child, PAGES, 0);
    return true;
  }

  // ---------------------------------------------------------------------------------------------
  // The whole fork
  // ---------------------------------------------------------------------------------------------

  /** The page of `w` in the child is a copy of the parent's: same rights, same bytes, in a frame
      that was free before the fork. */
  ghost predicate CopyOf(o: State, s: State, parent: nat, child: nat, w: nat) {
    && UserAt(o.tables, parent, w) && UserAt(s.tables, child, w)
    && FrameAt(o.tables, parent, w) in o.data
    && var a, c := Lookup(o.tables, parent, w).value, Lookup(s.tables, child, w).value;
       var f := FrameAt(s.tables, child, w);
       && c.write == a.write && c.nx == a.nx
       && !Taken(o.used, f) && DataFrame(s, f)
       && s.data[f] == o.data[FrameAt(o.tables, parent, w)]
  }

  /** Every user page of the parent is copied, to frames of its own; the rest of the child is a new
      address space; and no existing address space resolves anything differently. */
  ghost predicate ForkResult(o: State, s: State, parent: nat, child: nat, stub: bool, stubPage: nat) {
    && Kept(o, s) && SameLookups(o.tables, s.tables, o.own)
    && (forall w: nat :: UserAt(o.tables, parent, w) ==> CopyOf(o, s, parent, child, w))
    && (forall w: nat :: !UserAt(o.tables, parent, w) ==> Lookup(s.tables, child, w) == NewSpaceAccess(stub, stubPage, w))
    && (forall v: nat, w: nat :: UserAt(o.tables, parent, v) && UserAt(o.tables, parent, w) && !SamePage(v, w) ==>
          UserAt(s.tables, child, v) && UserAt(s.tables, child, w) && FrameAt(s.tables, child, v) != FrameAt(s.tables, child, w))
  }

  lemma CanonicalPage(w: nat)
    ensures SamePage(PageAt(0, PageNumber(w)), w) && PageNumber(w) < PAGES
  {
    SamePageNumber(PageAt(0, PageNumber(w)), w);
    assert PageAt(0, PageNumber(w)) / KB4 == PageNumber(w);
  }

  ghost predicate JustCreated(o: State, s0: State, parent: nat, child: nat, stub: bool, stubPage: nat) {
    && Kept(o, s0) && SameLookups(o.tables, s0.tables, o.own) && ResolvesAsNew(s0.tables, child, stub, stubPage)
    && TreeOk(o.tables, o.own) && TreeOk(s0.tables, s0.own) && UserFramesOk(o)
    && IsRoot(o.own, parent) && child !in o.own && IsRoot(s0.own, child)
  }

  lemma CopyOfEvery(o: State, s0: State, s: State, parent: nat, child: nat, stub: bool, stubPage: nat, k: nat, w: nat)
    requires JustCreated(o, s0, parent, child, stub, stubPage) && Forked(s0, s, parent, child, k)
    requires TreeOk(s.tables, s.own) && IsRoot(s.own, child)
    requires UserAt(o.tables, parent, w) && PageNumber(w) < k
    ensures CopyOf(o, s, parent, child, w)
    ensures UserAt(s.tables, child, w) && UserAt(s.tables, child, PageAt(0, PageNumber(w)))
    ensures FrameAt(s.tables, child, w) == FrameAt(s.tables, child, PageAt(0, PageNumber(w)))
  {
    hide WalkFrom, Index, TreeOk, SamePage, PageAt, PageNumber, DifferentFrames;
    var j := PageNumber(w);
    var v := PageAt(0, j);
    CanonicalPage(w);
    UserSamePage(o.tables, o.own, parent, v, w);
    WalkSamePage(o.tables, parent, 4, v, w);
    assert Lookup(s0.tables, parent, v) == Lookup(o.tables, parent, v);
    assert DataFrame(o, FrameAt(o.tables, parent, v));
    DataFrameKept(o, s0, FrameAt(o.tables, parent, v));
    assert Copied(s0, s, parent, child, j);
    UserSamePage(s.tables, s.own, child, v, w);
    WalkSamePage(s.tables, child, 4, v, w);
  }

  lemma CopiesDiffer(o: State, s0: State, s: State, parent: nat, child: nat, stub: bool, stubPage: nat, v: nat, w: nat)
    requires JustCreated(o, s0, parent, child, stub, stubPage) && Forked(s0, s, parent, child, PAGES)
    requires TreeOk(s.tables, s.own) && IsRoot(s.own, child)
    requires UserAt(o.tables, parent, v) && UserAt(o.tables, parent, w) && !SamePage(v, w)
    ensures UserAt(s.tables, child, v) && UserAt(s.tables, child, w) && FrameAt(s.tables, child, v) != FrameAt(s.tables, child, w)
  {
    hide WalkFrom, Index, TreeOk, SamePage, PageAt, Copied, CopyOf;
    CanonicalPage(v);
    CopyOfEvery(o, s0, s, parent, child, stub, stubPage, PAGES, v);
    CanonicalPage(w);
    CopyOfEvery(o, s0, s, parent, child, stub, stubPage, PAGES, w);
    var i, j := PageNumber(v), PageNumber(w);
    SamePageNumber(v, w);
    UserSamePage(o.tables, o.own, parent, PageAt(0, i), v);
    UserSamePage(o.tables, o.own, parent, PageAt(0, j), w);
    assert Lookup(s0.tables, parent, PageAt(0, i)) == Lookup(o.tables, parent, PageAt(0, i));
    assert Lookup(s0.tables, parent, PageAt(0, j)) == Lookup(o.tables, parent, PageAt(0, j));
    if i < j {
      assert DifferentFrames(s, child, i, j);
    } else {
      assert DifferentFrames(s, child, j, i);
    }
  }

  lemma ForkCompletes(o: State, s0: State, s: State, parent: nat, child: nat, stub: bool, stubPage: nat)
    requires JustCreated(o, s0, parent, child, stub, stubPage) && Forked(s0, s, parent, child, PAGES)
    requires TreeOk(s.tables, s.own) && IsRoot(s.own, child)
    ensures ForkResult(o, s, parent, child, stub, stubPage)
  {
    hide WalkFrom, Index, TreeOk, SamePage, PageAt, Copied, CopyOf, DifferentFrames, NewSpaceAccess;
    KeptTrans(o, s0, s);
    forall r: nat, w: nat | IsRoot(o.own, r) ensures Lookup(s.tables, r, w) == Lookup(o.tables, r, w) {
      assert Lookup(s0.tables, r, w) == Lookup(o.tables, r, w);
    }
    forall w: nat | UserAt(o.tables, parent, w) ensures CopyOf(o, s, parent, child, w) {
      CanonicalPage(w);
      CopyOfEvery(o, s0, s, parent, child, stub, stubPage, PAGES, w);
    }
    forall w: nat | !UserAt(o.tables, parent, w)
      ensures Lookup(s.tables, child, w) == NewSpaceAccess(stub, stubPage, w)
    {
      assert Lookup(s0.tables, parent, w) == Lookup(o.tables, parent, w);
    }
    forall v: nat, w: nat | UserAt(o.tables, parent, v) && UserAt(o.tables, parent, w) && !SamePage(v, w)
      ensures UserAt(s.tables, child, v) && UserAt(s.tables, child, w) && FrameAt(s.tables, child, v) != FrameAt(s.tables, child, w)
    {
      CopiesDiffer(o, s0, s, parent, child, stub, stubPage, v, w);
    }
  }

  /** The page of `w` in a child of `parent`: a copy, or as in a new address space. */
  ghost predicate ChildPage(o: State, s: State, parent: nat, child: nat, stub: bool, stubPage: nat, w: nat) {
    CopyOf(o, s, parent, child, w) || Lookup(s.tables, child, w) == NewSpaceAccess(stub, stubPage, w)
  }

  /** Address spaces that are new in `s` hold nothing but copies of pages of the parent and what a new one holds. */
  ghost predicate OnlyChildren(o: State, s: State, parent: nat, stub: bool, stubPage: nat) {
    forall r: nat, w: nat :: IsRoot(s.own, r) && !IsRoot(o.own, r) ==> ChildPage(o, s, parent, r, stub, stubPage, w)
  }

  lemma PartForkedChildren(o: State, s0: State, s: State, parent: nat, child: nat, stub: bool, stubPage: nat)
    requires JustCreated(o, s0, parent, child, stub, stubPage) && PartForked(s0, s, parent, child)
    requires TreeOk(s.tables, s.own) && IsRoot(s.own, child)
    requires forall r :: IsRoot(s0.own, r) && !IsRoot(o.own, r) ==> ResolvesAsNew(s0.tables, r, stub, stubPage)
    ensures OnlyChildren(o, s, parent, stub, stubPage)
  {
    hide WalkFrom, Index, TreeOk, SamePage, PageAt, Copied, CopyOf, DifferentFrames, NewSpaceAccess;
    var k: nat :| Forked(s0, s, parent, child, k);
    forall r: nat, w: nat | IsRoot(s.own, r) && !IsRoot(o.own, r) ensures ChildPage(o, s, parent, r, stub, stubPage, w) {
      assert Lookup(s0.tables, r, w) == NewSpaceAccess(stub, stubPage, w);
      assert Lookup(s0.tables, parent, w) == Lookup(o.tables, parent, w);
      if r == child && UserAt(o.tables, parent, w) && PageNumber(w) < k {
        CopyOfEvery(o, s0, s, parent, child, stub, stubPage, k, w);
      }
    }
  }

  /** Then every user page of every address space is on a data page in use, if that was so before. */
  lemma ForkKeepsUserFrames(o: State, s: State, parent: nat, stub: bool, stubPage: nat)
    requires UserFramesOk(o) && Kept(o, s) && SameLookups(o.tables, s.tables, o.own) && OnlyChildren(o, s, parent, stub, stubPage)
    requires stub ==> DataFrame(o, stubPage)
    ensures UserFramesOk(s)
  {
    hide WalkFrom, Index, SamePage;
    forall r: nat, w: nat | IsRoot(s.own, r) && UserAt(s.tables, r, w) ensures DataFrame(s, FrameAt(s.tables, r, w)) {
      if IsRoot(o.own, r) {
        assert Lookup(s.tables, r, w) == Lookup(o.tables, r, w);
        DataFrameKept(o, s, FrameAt(o.tables, r, w));
      } else {
        assert ChildPage(o, s, parent, r, stub, stubPage, w);
        if !CopyOf(o, s, parent, r, w) {
          RestorerFrame(stub, stubPage, w);
          DataFrameKept(o, s, stubPage);
        }
      }
    }
  }

  /** The only user page of a new address space is the restorer. */
  lemma RestorerFrame(stub: bool, stubPage: nat, w: nat)
    requires NewSpaceAccess(stub, stubPage, w).Some? && NewSpaceAccess(stub, stubPage, w).value.user
    requires stub ==> IsPageAddr(stubPage)
    ensures stub && NewSpaceAccess(stub, stubPage, w).value.phys / KB4 * KB4 == stubPage
  {
    hide SamePage;
    if stub {
      PageAddrAligned(stubPage);
      assert LeafEntry(stubPage, Flags(true, true, true, true)).addr == stubPage;
      assert (stubPage + w % KB4) / KB4 * KB4 == stubPage;
    }
  }

  /** vm_fork; NULL when memory runs out, in which case no existing address space has changed. */
  method Fork(vm: Vm, parent: nat) returns (child: nat, ghost stub: bool)
    requires vm.Valid() && IsRoot(vm.own, parent) && parent in vm.brk
    requires UserFramesOk(vm.Now())
    requires vm.sigStubPage != NULL ==> DataFrame(vm.Now(), vm.sigStubPage)
    modifies vm`tables, vm`own, vm`data, vm`brk, vm.phys`hotUsedPages, vm.phys.hotBitmap, vm.phys.hotFreeCache
    ensures vm.Valid() && Kept(old(vm.Now()), vm.Now())
    ensures SameLookups(old(vm.tables), vm.tables, old(vm.own))
    ensures child != NULL ==> child !in old(vm.own) && IsRoot(vm.own, child)
    ensures child != NULL ==> ForkResult(old(vm.Now()), vm.Now(), parent, child, stub, vm.sigStubPage)
    ensures child != NULL ==> vm.brk == old(vm.brk)[child := old(vm.brk)[parent]]
    ensures child == NULL && NothingShadowed(old(vm.tables), vm.cr3) ==> vm.OutOfMemory()
    ensures OnlyChildren(old(vm.Now()), vm.Now(), parent, stub, vm.sigStubPage) && UserFramesOk(vm.Now())
    ensures vm.sigStubPage != NULL ==> DataFrame(vm.Now(), vm.sigStubPage)
  {
    hide WalkFrom, Index, SamePage, TreeOk, Copied, CopyOf, DifferentFrames, NewSpaceAccess, LeafWritten, Forked, UserFramesOk, DataFrame;
    ghost var o := vm.Now();
    child, stub := vm.Create();
    StubStays(o, vm.Now(), vm.sigStubPage);
    if child == NULL {
      ForkKeepsUserFrames(o, vm.Now(), parent, stub, vm.sigStubPage);
      return;
    }
    ghost var s0 := vm.Now();
    if NothingShadowed(o.tables, vm.cr3) { ShadowsSame(o.tables, s0.tables, o.own, vm.cr3); }
    ForkKeepsUserFrames(o, s0, parent, stub, vm.sigStubPage);
    NothingForked(s0, parent, child);
    var ok := ForkSpace(vm, s0, parent, child);
    PartForkedKeeps(s0, vm.Now(), parent, child);
    KeptTrans(o, s0, vm.Now());
    StubStays(o, vm.Now(), vm.sigStubPage);
    PartForkedChildren(o, s0, vm.Now(), parent, child, stub, vm.sigStubPage);
    FailedFork(o, s0, vm.Now(), child);
    ForkKeepsUserFrames(o, vm.Now(), parent, stub, vm.sigStubPage);
    if !ok {
      return NULL, stub;
    }
    ForkCompletes(o, s0, vm.Now(), parent, child, stub, vm.sigStubPage);
    vm.brk := vm.brk[child := vm.brk[parent]];
  }

  lemma FailedFork(o: State, s0: State, s: State, child: nat)
    requires SameLookups(o.tables, s0.tables, o.own) && Extends(o.own, s0.own) && child !in o.own
    requires OthersKept(s0, s, child)
    ensures SameLookups(o.tables, s.tables, o.own)
  {
    hide WalkFrom;
    forall r: nat, w: nat | IsRoot(o.own, r) ensures Lookup(s.tables, r, w) == Lookup(o.tables, r, w) {
      assert Lookup(s0.tables, r, w) == Lookup(o.tables, r, w);
    }
  }

  lemma NothingForked(s0: State, parent: nat, child: nat)
    requires Kept(s0, s0)
    ensures Forked(s0, s0, parent, child, 0)
  {
  }

  lemma PartForkedKeeps(s0: State, s: State, parent: nat, child: nat)
    requires PartForked(s0, s, parent, child)
    ensures Kept(s0, s) && OthersKept(s0, s, child)
  {
    hide WalkFrom;
  }

  lemma StubStays(o: State, s: State, stubPage: nat)
    requires Kept(o, s)
    ensures DataFrame(o, stubPage) ==> DataFrame(s, stubPage)
  {
    if DataFrame(o, stubPage) { DataFrameKept(o, s, stubPage); }
  }
}
