/** The frames behind user pages over whole histories of creating, mapping, forking and unmapping. */
module UserFrames {
  import opened PhysicalMemory
  import opened PageTables
  import opened AddressSpaces
  import opened Unmapping
  import opened MemoryMapping
  import opened Forking

  /** A completed call. A mapping of fresh pages is vm_map, brk or mmap, complete or cut short; a fork can have
      failed on its way. */
  datatype Call =
    | Creates(stub: bool)
    | MapsFresh(root: nat, base: nat, frames: seq<nat>, flags: Flags, content: nat -> Page)
    | MapsFrame(space: nat, v: nat, phys: nat, frameFlags: Flags)
    | MapsNothing
    | Forks(parent: nat, childStub: bool)
    | Unmaps(from: nat, start: nat, pages: nat)

  /** What `Vm.Create`, `Map`, `Mmap.SysMmap`, `Vm.MapPage`, `Fork` and `Unmap` establish; `stubPage` is the page of
      the signal restorer. */
  ghost predicate Happens(s: State, c: Call, s': State, stubPage: nat) {
    && TreeOk(s.tables, s.own)
    && match c
       case Creates(stub) =>
         && Kept(s, s') && SameLookups(s.tables, s'.tables, s.own) && (stub ==> stubPage != NULL)
         && forall r :: IsRoot(s'.own, r) && !IsRoot(s.own, r) ==> ResolvesAsNew(s'.tables, r, stub, stubPage)
       case MapsFresh(root, base, frames, flags, content) =>
         IsRoot(s.own, root) && RangeMapped(s, s', root, base, frames, flags, content)
       case MapsFrame(root, v, phys, flags) =>
         && IsRoot(s.own, root) && Kept(s, s') && SameRoots(s.own, s'.own)
         && LeafWritten(s.tables, s'.tables, s.own, root, v, LeafEntry(phys, flags))
       case MapsNothing =>
         Kept(s, s') && SameRoots(s.own, s'.own) && SameLookups(s.tables, s'.tables, s.own)
       case Forks(parent, stub) =>
         && Kept(s, s') && SameLookups(s.tables, s'.tables, s.own) && (stub ==> stubPage != NULL)
         && OnlyChildren(s, s', parent, stub, stubPage)
       case Unmaps(root, v, n) =>
         IsRoot(s.own, root) && Unmapped(s, s', root, v, n) && s'.tables.Keys == s.tables.Keys
  }

  /** Every user page of every address space, and the restorer, is a data page in use. */
  ghost predicate FramesInUse(s: State, stubPage: nat) {
    UserFramesOk(s) && (stubPage != NULL ==> DataFrame(s, stubPage))
  }

  /** An unmapping that takes no frame away from another page, nor from the restorer. */
  ghost predicate Unshared(s: State, c: Call, stubPage: nat) {
    c.Unmaps? ==> NotShared(s, c.from, c.start, c.pages) && (stubPage != NULL ==> !BacksUserPage(s, c.from, c.start, c.pages, stubPage))
  }

  /** A user mapping of a given frame is one of a data page in use. */
  ghost predicate MapsData(s: State, c: Call) {
    c.MapsFrame? && LeafEntry(c.phys, c.frameFlags).user ==> DataFrame(s, LeafEntry(c.phys, c.frameFlags).addr)
  }

  lemma FramePlaced(s: State, s': State, root: nat, v: nat, e: Pte)
    requires UserFramesOk(s) && IsRoot(s.own, root) && Kept(s, s') && SameRoots(s.own, s'.own)
    requires LeafWritten(s.tables, s'.tables, s.own, root, v, e) && (e.user ==> DataFrame(s, e.addr))
    ensures UserFramesOk(s')
  {
    hide WalkFrom, Index, SamePage, PageAt;
    forall r: nat, w: nat | IsRoot(s'.own, r) && UserAt(s'.tables, r, w) ensures DataFrame(s', FrameAt(s'.tables, r, w)) {
      if r == root && SamePage(v, w) {
        assert Lookup(s'.tables, r, w) == LeafAccess(e, w);
        PageAddrAligned(e.addr);
        assert (e.addr + w % KB4) / KB4 * KB4 == e.addr;
        DataFrameKept(s, s', e.addr);
      } else {
        assert Lookup(s'.tables, r, w) == Lookup(s.tables, r, w);
        DataFrameKept(s, s', FrameAt(s.tables, r, w));
      }
    }
  }

  lemma NothingPlaced(s: State, s': State)
    requires UserFramesOk(s) && Kept(s, s') && SameRoots(s.own, s'.own) && SameLookups(s.tables, s'.tables, s.own)
    ensures UserFramesOk(s')
  {
    hide WalkFrom;
    forall r: nat, w: nat | IsRoot(s'.own, r) && UserAt(s'.tables, r, w) ensures DataFrame(s', FrameAt(s'.tables, r, w)) {
      assert Lookup(s'.tables, r, w) == Lookup(s.tables, r, w);
      DataFrameKept(s, s', FrameAt(s.tables, r, w));
    }
  }

  /** A new address space is what a fork that has copied nothing leaves. */
  lemma CreatedChildren(s: State, s': State, parent: nat, stub: bool, stubPage: nat)
    requires forall r :: IsRoot(s'.own, r) && !IsRoot(s.own, r) ==> ResolvesAsNew(s'.tables, r, stub, stubPage)
    ensures OnlyChildren(s, s', parent, stub, stubPage)
  {
    hide WalkFrom, NewSpaceAccess, CopyOf;
  }

  lemma StubUnmapped(s: State, s': State, root: nat, v: nat, n: nat, f: nat)
    requires Unmapped(s, s', root, v, n) && s'.tables.Keys == s.tables.Keys && DataFrame(s, f)
    ensures DataFrame(s', f) <==> !BacksUserPage(s, root, v, n, f)
  {
    hide UnmappedAt, BacksUserPage;
    assert f == Addr(PageOf(f));
  }

  /** One call keeps all frames in use exactly when it unmaps no frame that is still needed. */
  lemma CallKeepsFramesIff(s: State, c: Call, s': State, stubPage: nat)
    requires Happens(s, c, s', stubPage) && FramesInUse(s, stubPage) && MapsData(s, c)
    ensures FramesInUse(s', stubPage) <==> Unshared(s, c, stubPage)
  {
    hide WalkFrom, UserFramesOk, DataFrame, Unmapped, LeafWritten, RangeMapped, OnlyChildren, ResolvesAsNew, SameLookups, NotShared, BacksUserPage,
      Kept, TreeOk;
    match c
    case Unmaps(root, v, n) =>
      UnmapKeepsFramesIff(s, s', root, v, n);
      if stubPage != NULL { StubUnmapped(s, s', root, v, n, stubPage); }
    case Creates(stub) =>
      StubStays(s, s', stubPage);
      CreatedChildren(s, s', 0, stub, stubPage);
      ForkKeepsUserFrames(s, s', 0, stub, stubPage);
    case MapsFresh(root, base, frames, flags, content) =>
      StubMapped(s, s', root, base, frames, flags, content, stubPage);
      MmapKeepsUserFrames(s, s', root, base, frames, flags, content);
    case MapsFrame(root, v, phys, flags) =>
      StubStays(s, s', stubPage);
      FramePlaced(s, s', root, v, LeafEntry(phys, flags));
    case MapsNothing =>
      StubStays(s, s', stubPage);
      NothingPlaced(s, s');
    case Forks(parent, stub) =>
      StubStays(s, s', stubPage);
      ForkKeepsUserFrames(s, s', parent, stub, stubPage);
  }

  lemma StubMapped(s: State, s': State, root: nat, base: nat, frames: seq<nat>, flags: Flags, content: nat -> Page, stubPage: nat)
    requires RangeMapped(s, s', root, base, frames, flags, content)
    ensures DataFrame(s, stubPage) ==> DataFrame(s', stubPage)
  {
    hide WalkFrom, PageMapped;
    StubStays(s, s', stubPage);
  }

  ghost predicate IsHistory(ss: seq<State>, cs: seq<Call>, stubPage: nat) {
    |ss| == |cs| + 1 && forall k :: 0 <= k < |cs| ==> Happens(ss[k], cs[k], ss[k + 1], stubPage)
  }

  /** Over every history: all user pages of all address spaces are on data pages in use, always, exactly when no
      unmapping ever takes a frame that another page or the restorer still needs. */
  lemma FramesStayInUseIff(ss: seq<State>, cs: seq<Call>, stubPage: nat)
    requires IsHistory(ss, cs, stubPage) && FramesInUse(ss[0], stubPage)
    requires forall k :: 0 <= k < |cs| ==> MapsData(ss[k], cs[k])
    ensures (forall k :: 0 <= k < |ss| ==> FramesInUse(ss[k], stubPage)) <==> (forall k :: 0 <= k < |cs| ==> Unshared(ss[k], cs[k], stubPage))
  {
    hide Happens, FramesInUse, Unshared, MapsData;
    if forall k :: 0 <= k < |cs| ==> Unshared(ss[k], cs[k], stubPage) {
      forall k: nat | k < |ss| ensures FramesInUse(ss[k], stubPage) { FramesAt(ss, cs, stubPage, k); }
    }
    if forall k :: 0 <= k < |ss| ==> FramesInUse(ss[k], stubPage) {
      forall k: nat | k < |cs| ensures Unshared(ss[k], cs[k], stubPage) {
        assert FramesInUse(ss[k + 1], stubPage);
        CallKeepsFramesIff(ss[k], cs[k], ss[k + 1], stubPage);
      }
    }
  }

  lemma {:induction false} FramesAt(ss: seq<State>, cs: seq<Call>, stubPage: nat, k: nat)
    requires IsHistory(ss, cs, stubPage) && FramesInUse(ss[0], stubPage) && k < |ss|
    requires forall i :: 0 <= i < |cs| ==> MapsData(ss[i], cs[i]) && Unshared(ss[i], cs[i], stubPage)
    ensures FramesInUse(ss[k], stubPage)
  {
    hide Happens, FramesInUse, Unshared, MapsData;
    if k > 0 {
      FramesAt(ss, cs, stubPage, k - 1);
      CallKeepsFramesIff(ss[k - 1], cs[k - 1], ss[k], stubPage);
    }
  }
}
