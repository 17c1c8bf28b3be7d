/** vm_unmap over a range of pages, and what mapping and unmapping keep over whole runs. */
module Unmapping {
  import opened Options
  import opened PhysicalMemory
  import opened PageTables
  import opened AddressSpaces

  /** A frame that backs one of the user pages of the range. */
  ghost predicate BacksUserPage(s: State, root: nat, v: nat, n: nat, f: nat) {
    exists k: nat :: k < n && UserAt(s.tables, root, PageAt(v, k)) && FrameAt(s.tables, root, PageAt(v, k)) == f
  }

  ghost predicate UnmappedAt(s: State, s': State, root: nat, v: nat, n: nat, r: nat, w: nat) {
    Lookup(s'.tables, r, w)
    == if r == root && InPages(v, n, w) && UserAt(s.tables, root, w) then None else Lookup(s.tables, r, w)
  }

  /** Exactly the user pages of the range are gone, in this address space only; exactly the frames
      behind them are released. */
  ghost predicate Unmapped(s: State, s': State, root: nat, v: nat, n: nat) {
    && s'.own == s.own && s'.data == s.data
    && |s.used| == |s'.used| == HOT_ZONE_PAGES
    && (forall r: nat, w: nat :: IsRoot(s.own, r) ==> UnmappedAt(s, s', root, v, n, r, w))
    && (forall i :: 0 <= i < HOT_ZONE_PAGES ==>
          s'.used[i] == (s.used[i] && !BacksUserPage(s, root, v, n, Addr(i))))
  }

  /** One page: what `Vm.UnmapPage` promises. */
  ghost predicate PageUnmapped(s: State, s': State, root: nat, a: nat) {
    && s'.own == s.own && s'.data == s.data
    && |s.used| == HOT_ZONE_PAGES
    && if UserAt(s.tables, root, a)
       then && IsPageAddr(FrameAt(s.tables, root, a))
            && LeafWritten(s.tables, s'.tables, s.own, root, a, EMPTY)
            && s'.used == Released(s.used, FrameAt(s.tables, root, a))
       else s'.tables == s.tables && s'.used == s.used
  }

  lemma UnmapOneMoreLookup(s0: State, s: State, s': State, root: nat, v: nat, k: nat, r: nat, w: nat)
    requires TreeOk(s0.tables, s0.own) && IsRoot(s0.own, root) && IsRoot(s0.own, r)
    requires Unmapped(s0, s, root, v, k) && PageUnmapped(s, s', root, PageAt(v, k))
    ensures UnmappedAt(s0, s', root, v, k + 1, r, w)
  {
    hide WalkFrom, Index, SamePage;
    var a := PageAt(v, k);
    assert UnmappedAt(s0, s, root, v, k, r, w);
    assert UnmappedAt(s0, s, root, v, k, root, a);
    InPagesStep(v, k, w);
    if r == root && SamePage(a, w) {
      UserSamePage(s0.tables, s0.own, root, a, w);
      InPagesSame(v, k, a, w);
    }
  }

  lemma InPagesSame(v: nat, k: nat, a: nat, w: nat)
    requires SamePage(a, w)
    ensures InPages(v, k, a) ==> InPages(v, k, w)
  {
    if InPages(v, k, a) {
      var j: nat :| j < k && SamePage(PageAt(v, j), a);
      assert SamePage(PageAt(v, j), w);
    }
  }

  lemma UnmapOneMoreFrame(s0: State, s: State, s': State, root: nat, v: nat, k: nat, i: nat)
    requires TreeOk(s0.tables, s0.own) && IsRoot(s0.own, root) && i < HOT_ZONE_PAGES
    requires Unmapped(s0, s, root, v, k) && PageUnmapped(s, s', root, PageAt(v, k))
    ensures |s'.used| == HOT_ZONE_PAGES
    ensures s'.used[i] == (s0.used[i] && !BacksUserPage(s0, root, v, k + 1, Addr(i)))
  {
    hide WalkFrom, Index, SamePage;
    var a := PageAt(v, k);
    assert UnmappedAt(s0, s, root, v, k, root, a);
    BacksStep(s0, root, v, k, Addr(i));
    if UserAt(s.tables, root, a) {
      assert PageOf(FrameAt(s.tables, root, a)) == i <==> FrameAt(s.tables, root, a) == Addr(i);
    } else if UserAt(s0.tables, root, a) {
      var j: nat :| j < k && SamePage(PageAt(v, j), a);
      UserSamePage(s0.tables, s0.own, root, PageAt(v, j), a);
    }
  }

  lemma BacksStep(s: State, root: nat, v: nat, k: nat, f: nat)
    ensures BacksUserPage(s, root, v, k + 1, f) <==>
            BacksUserPage(s, root, v, k, f)
            || (UserAt(s.tables, root, PageAt(v, k)) && FrameAt(s.tables, root, PageAt(v, k)) == f)
  {
    hide WalkFrom, Index;
  }

  lemma UnmapOneMore(s0: State, s: State, s': State, root: nat, v: nat, k: nat)
    requires TreeOk(s0.tables, s0.own) && IsRoot(s0.own, root)
    requires Unmapped(s0, s, root, v, k) && PageUnmapped(s, s', root, PageAt(v, k))
    ensures Unmapped(s0, s', root, v, k + 1)
  {
    hide UnmappedAt, BacksUserPage, LeafWritten;
    var n := k + 1;
    forall r: nat, w: nat | IsRoot(s0.own, r) ensures UnmappedAt(s0, s', root, v, n, r, w) {
      UnmapOneMoreLookup(s0, s, s', root, v, k, r, w);
    }
    forall i | 0 <= i < HOT_ZONE_PAGES
      ensures s'.used[i] == (s0.used[i] && !BacksUserPage(s0, root, v, k + 1, Addr(i)))
    {
      UnmapOneMoreFrame(s0, s, s', root, v, k, i);
    }
  }

  /** The pages that the loop of vm_unmap visits; an end that wraps past 2^64 makes it empty. */
  function UnmapCount(v: nat, len: nat): nat { if v + len < W64 then (len + KB4 - 1) / KB4 else 0 }

  lemma PageBefore(v: nat, len: nat, k: nat)
    requires v < W64 && len < W64
    ensures PageAt(v, k) < (v + len) % W64 <==> k < UnmapCount(v, len)
  {
    if v + len >= W64 {
      assert (v + len) % W64 == v + len - W64;
    }
  }

  /** No address of the range is left to user code; off the range nothing has changed. */
  lemma RangeGone(s: State, s': State, root: nat, v: nat, len: nat)
    requires Unmapped(s, s', root, v, UnmapCount(v, len)) && IsRoot(s.own, root) && v % KB4 == 0
    ensures v + len < W64 ==> forall w: nat :: v <= w < v + len ==> !UserAt(s'.tables, root, w)
    ensures OutsideSame(s, s', root, v, if v + len < W64 then len else 0)
  {
    hide WalkFrom, Index, SamePage, BacksUserPage, OffRange, InPages;
    var n, l := UnmapCount(v, len), if v + len < W64 then len else 0;
    forall w: nat | v <= w < v + l ensures !UserAt(s'.tables, root, w) {
      var k := (w - v) / KB4;
      assert PageAt(v, k) / KB4 == w / KB4;
      SamePageNumber(PageAt(v, k), w);
      InPagesOf(v, n, k, w);
      assert UnmappedAt(s, s', root, v, n, root, w);
    }
    forall q: nat, w: nat | IsRoot(s.own, q) && (q != root || OffRange(v, l, w)) ensures Lookup(s'.tables, q, w) == Lookup(s.tables, q, w) {
      if q == root { OffRun(v, l, n, w); }
      assert UnmappedAt(s, s', root, v, n, q, w);
    }
  }

  lemma InPagesOf(v: nat, n: nat, k: nat, w: nat)
    requires k < n && SamePage(PageAt(v, k), w)
    ensures InPages(v, n, w)
  {
  }

  /** vm_unmap. With a length that is no multiple of a page and an end in the last page below 2^64 the loop would
      run past the end and never stop. */
  method Unmap(vm: Vm, root: nat, v: nat, len: nat) returns (ok: bool)
    requires vm.Valid() && IsRoot(vm.own, root) && v < W64 && len < W64
    requires len % KB4 == 0 || v + len <= W64 - KB4 || v + len >= W64
    requires forall k: nat :: k < UnmapCount(v, len) && UserAt(vm.tables, root, PageAt(v, k)) ==>
               Freeable(vm.Now(), FrameAt(vm.tables, root, PageAt(v, k)))
    modifies vm`tables, vm.phys.Repr
    ensures vm.Valid() && vm.tables.Keys == old(vm.tables).Keys
    ensures ok <==> v % KB4 == 0
    ensures ok ==> Unmapped(old(vm.Now()), vm.Now(), root, v, UnmapCount(v, len))
    ensures ok && v + len < W64 ==> forall w: nat :: v <= w < v + len ==> !UserAt(vm.tables, root, w)
    ensures ok ==> OutsideSame(old(vm.Now()), vm.Now(), root, v, if v + len < W64 then len else 0)
    ensures !ok ==> vm.Now() == old(vm.Now())
  {
    hide WalkFrom, Index, SamePage, EntryOk, BacksUserPage, LeafWritten, UnmapCount, UnmappedAt, TreeOk, AllTaken;
    if v % KB4 != 0 {
      return false;
    }
    var end := (v + len) % W64;
    ghost var n := UnmapCount(v, len);
    ghost var s0 := vm.Now();
    var a := v;
    ghost var k := 0;
    NoPages(s0, root, v);
    PageBefore(v, len, 0);
    while a < end
      invariant a == PageAt(v, k) && k <= n && (a < end <==> k < n)
      invariant vm.Valid() && vm.tables.Keys == s0.tables.Keys
      invariant Unmapped(s0, vm.Now(), root, v, k)
      decreases n - k
    {
      ghost var s := vm.Now();
      StillFreeable(s0, s, root, v, k);
      vm.UnmapPage(root, a);
      UnmapOneMore(s0, s, vm.Now(), root, v, k);
      PageBefore(v, len, k + 1);
      a, k := a + KB4, k + 1;
    }
    RangeGone(s0, vm.Now(), root, v, len);
    return true;
  }

  /** A page that is not unmapped yet has the frame that it had. */
  lemma StillFreeable(s0: State, s: State, root: nat, v: nat, k: nat)
    requires Unmapped(s0, s, root, v, k) && s.tables.Keys == s0.tables.Keys && IsRoot(s0.own, root)
    requires UserAt(s0.tables, root, PageAt(v, k)) ==> Freeable(s0, FrameAt(s0.tables, root, PageAt(v, k)))
    ensures UserAt(s.tables, root, PageAt(v, k)) ==> Freeable(s, FrameAt(s.tables, root, PageAt(v, k)))
  {
    hide WalkFrom, SamePage, BacksUserPage;
    assert UnmappedAt(s0, s, root, v, k, root, PageAt(v, k));
  }

  lemma NoPages(s: State, root: nat, v: nat)
    requires |s.used| == HOT_ZONE_PAGES
    ensures Unmapped(s, s, root, v, 0)
  {
  }

  // ---------------------------------------------------------------------------------------------
  // The identity map over whole runs
  // ---------------------------------------------------------------------------------------------

  datatype Op =
    | MapOp(root: nat, v: nat, leaf: Pte)
    | FailedMap
    | UnmapOp(from: nat, start: nat, pages: nat)
    | CreateOp(stub: bool, stubPage: nat)

  /** One completed call; `Vm.MapPage`, `Unmap` and `Vm.Create` establish exactly these relations. */
  ghost predicate Step(s: State, op: Op, s': State) {
    && TreeOk(s.tables, s.own)
    && match op
       case MapOp(root, v, leaf) =>
         IsRoot(s.own, root) && v % KB4 == 0 && SameRoots(s.own, s'.own)
         && LeafWritten(s.tables, s'.tables, s.own, root, v, leaf)
       case FailedMap =>
         SameRoots(s.own, s'.own) && SameLookups(s.tables, s'.tables, s.own)
       case UnmapOp(root, v, n) =>
         IsRoot(s.own, root) && Unmapped(s, s', root, v, n)
       case CreateOp(stub, page) =>
         && SameLookups(s.tables, s'.tables, s.own)
         && forall r :: IsRoot(s'.own, r) && !IsRoot(s.own, r) ==> ResolvesAsNew(s'.tables, r, stub, page)
  }

  ghost predicate IsRun(ss: seq<State>, ops: seq<Op>) {
    |ss| == |ops| + 1 && forall k :: 0 <= k < |ops| ==> Step(ss[k], ops[k], ss[k + 1])
  }

  ghost predicate AllIdentityMapped(s: State) {
    forall r :: IsRoot(s.own, r) ==> IdentityMapped(s.tables, r)
  }

  /** Unmapping takes away user pages only, and no user page lies in the identity map. */
  lemma UnmapKeepsIdentity(s: State, s': State, root: nat, v: nat, n: nat, r: nat)
    requires Unmapped(s, s', root, v, n) && IsRoot(s.own, r) && IdentityMapped(s.tables, r)
    ensures IdentityMapped(s'.tables, r)
  {
    hide WalkFrom, InPages;
    forall w: nat | w < 2 * GB1 ensures Lookup(s'.tables, r, w) == Some(Access(w, false, true, false)) {
      assert UnmappedAt(s, s', root, v, n, r, w);
    }
  }

  lemma StepKeepsIdentity(s: State, op: Op, s': State)
    requires Step(s, op, s') && AllIdentityMapped(s)
    requires op.MapOp? ==> AboveKernel(op.v)
    ensures AllIdentityMapped(s')
  {
    hide WalkFrom, Lookup, InPages, LeafWritten, Unmapped, TreeOk, AboveKernel, ResolvesAsNew;
    forall r | IsRoot(s'.own, r) ensures IdentityMapped(s'.tables, r) {
      match op
      case MapOp(root, v, leaf) => MapKeepsIdentity(s.tables, s'.tables, s.own, root, v, leaf, r);
      case FailedMap => SameKeepsIdentity(s, s', r);
      case UnmapOp(root, v, n) => UnmapSameRoots(s, s', root, v, n); UnmapKeepsIdentity(s, s', root, v, n, r);
      case CreateOp(stub, page) =>
        if IsRoot(s.own, r) {
          SameKeepsIdentity(s, s', r);
        } else {
          NewSpaceIsIdentityMapped(s'.tables, r, stub, page);
        }
    }
  }

  lemma UnmapSameRoots(s: State, s': State, root: nat, v: nat, n: nat)
    requires Unmapped(s, s', root, v, n)
    ensures s'.own == s.own
  {
  }

  lemma SameKeepsIdentity(s: State, s': State, r: nat)
    requires SameLookups(s.tables, s'.tables, s.own) && IsRoot(s.own, r) && IdentityMapped(s.tables, r)
    ensures IdentityMapped(s'.tables, r)
  {
    hide WalkFrom;
    forall w: nat | w < 2 * GB1 ensures Lookup(s'.tables, r, w) == Some(Access(w, false, true, false)) {
      assert Lookup(s'.tables, r, w) == Lookup(s.tables, r, w);
    }
  }

  /** As long as every mapping goes above 2 GB, every address space identity-maps the kernel after
      any run of mapping, unmapping and creating. */
  lemma {:induction false} IdentityForever(ss: seq<State>, ops: seq<Op>)
    requires IsRun(ss, ops) && AllIdentityMapped(ss[0])
    requires forall k :: 0 <= k < |ops| && ops[k].MapOp? ==> AboveKernel(ops[k].v)
    ensures AllIdentityMapped(ss[|ops|])
    decreases |ops|
  {
    hide AllIdentityMapped, Step, AboveKernel;
    if |ops| > 0 {
      var n := |ops| - 1;
      IdentityForever(ss[..n + 1], ops[..n]);
      StepKeepsIdentity(ss[n], ops[n], ss[n + 1]);
    }
  }

  /** Then no page of the three zones is shadowed, so pmalloc takes exactly the page it returns. */
  lemma NeverSkips(s: State, cr3: nat, z: HotZone, z': HotZone, linearOk: nat -> bool, r: nat)
    requires AllIdentityMapped(s) && IsRoot(s.own, cr3)
    requires forall p: nat :: linearOk(p) == LinearOk(s.tables, cr3, p)
    requires Consistent(z) && PmallocStep(z, z', linearOk, r)
    ensures forall p: nat :: p < MEMORY_END ==> LinearOk(s.tables, cr3, p)
    ensures forall i :: 0 <= i < HOT_ZONE_PAGES ==> z'.used[i] == (z.used[i] || r == Addr(i))
    ensures r == NULL <==> z.usedPages == HOT_ZONE_PAGES
  {
    hide WalkFrom, NoCandidate;
    forall p: nat | p < MEMORY_END ensures LinearOk(s.tables, cr3, p) {
      assert Lookup(s.tables, cr3, p) == Some(Access(p, false, true, false));
    }
    NullIffFull(z, z', linearOk, r);
  }

  // ---------------------------------------------------------------------------------------------
  // Frames behind user pages
  // ---------------------------------------------------------------------------------------------

  /** No user page outside the range shares a frame with a user page of the range. */
  ghost predicate NotShared(s: State, root: nat, v: nat, n: nat) {
    forall r: nat, w: nat :: IsRoot(s.own, r) && UserAt(s.tables, r, w) && !(r == root && InPages(v, n, w)) ==>
      !BacksUserPage(s, root, v, n, FrameAt(s.tables, r, w))
  }

  /** Unmapping keeps every remaining user page on a frame in use exactly when the range shares no
      frame with the rest. */
  lemma UnmapKeepsFramesIff(s: State, s': State, root: nat, v: nat, n: nat)
    requires TreeOk(s.tables, s.own) && UserFramesOk(s) && IsRoot(s.own, root)
    requires Unmapped(s, s', root, v, n) && s'.tables.Keys == s.tables.Keys
    ensures UserFramesOk(s') <==> NotShared(s, root, v, n)
  {
    hide WalkFrom, InPages, TreeOk, BacksUserPage, Unmapped;
    forall r: nat, w: nat | IsRoot(s.own, r) && UserAt(s.tables, r, w) && !(r == root && InPages(v, n, w))
      ensures UserAt(s'.tables, r, w) && FrameAt(s'.tables, r, w) == FrameAt(s.tables, r, w)
      ensures DataFrame(s', FrameAt(s.tables, r, w)) <==> !BacksUserPage(s, root, v, n, FrameAt(s.tables, r, w))
    {
      RemainingPage(s, s', root, v, n, r, w);
    }
    UnmapSameRoots(s, s', root, v, n);
    if NotShared(s, root, v, n) {
      forall r: nat, w: nat | IsRoot(s'.own, r) && UserAt(s'.tables, r, w)
        ensures DataFrame(s', FrameAt(s'.tables, r, w))
      {
        RemainingWas(s, s', root, v, n, r, w);
      }
    }
  }

  lemma RemainingPage(s: State, s': State, root: nat, v: nat, n: nat, r: nat, w: nat)
    requires UserFramesOk(s) && Unmapped(s, s', root, v, n) && s'.tables.Keys == s.tables.Keys
    requires IsRoot(s.own, r) && UserAt(s.tables, r, w) && !(r == root && InPages(v, n, w))
    ensures UserAt(s'.tables, r, w) && FrameAt(s'.tables, r, w) == FrameAt(s.tables, r, w)
    ensures DataFrame(s', FrameAt(s.tables, r, w)) <==> !BacksUserPage(s, root, v, n, FrameAt(s.tables, r, w))
  {
    hide WalkFrom, InPages, BacksUserPage;
    assert UnmappedAt(s, s', root, v, n, r, w);
    var f := FrameAt(s.tables, r, w);
    assert DataFrame(s, f);
    assert f == Addr(PageOf(f));
  }

  lemma RemainingWas(s: State, s': State, root: nat, v: nat, n: nat, r: nat, w: nat)
    requires Unmapped(s, s', root, v, n) && IsRoot(s.own, r) && UserAt(s'.tables, r, w)
    ensures UserAt(s.tables, r, w) && !(r == root && InPages(v, n, w))
  {
    hide WalkFrom, InPages, BacksUserPage;
    assert UnmappedAt(s, s', root, v, n, r, w);
  }

  /** The restorer page is mapped into every address space; when one of them unmaps it, the frame is
      released although the others still map it. */
  lemma UnmappedRestorerIsStillMapped(s: State, s': State, root: nat, other: nat)
    requires TreeOk(s.tables, s.own) && UserFramesOk(s) && IsRoot(s.own, root) && IsRoot(s.own, other) && root != other
    requires UserAt(s.tables, root, RESTORER) && UserAt(s.tables, other, RESTORER)
    requires FrameAt(s.tables, root, RESTORER) == FrameAt(s.tables, other, RESTORER)
    requires Unmapped(s, s', root, RESTORER, 1) && s'.tables.Keys == s.tables.Keys
    ensures !UserFramesOk(s')
  {
    hide WalkFrom, InPages, TreeOk, Unmapped, UserFramesOk;
    assert PageAt(RESTORER, 0) == RESTORER;
    assert BacksUserPage(s, root, RESTORER, 1, FrameAt(s.tables, other, RESTORER));
    UnmapKeepsFramesIff(s, s', root, RESTORER, 1);
  }
}
