/** The bitmap and the counters that the image builder writes: they are what the driver's block accounts
    require. */
module MkfsCounts {
  import opened BitCounts
  import opened Ext2Layout
  import Sp = Ext2Space

  /** Where the metadata of a group is: block bitmap, inode bitmap, inode table. */
  datatype Desc = Desc(bb: nat, ib: nat, it: nat)

  /** Bitmaps and inode table of a group. */
  predicate IsMeta(d: Desc, tableBlocks: nat, b: nat) { b == d.bb || b == d.ib || d.it <= b < d.it + tableBlocks }

  ghost predicate GroupReserved(used: seq<bool>, d: Desc, tableBlocks: nat) {
    forall x: nat :: IsMeta(d, tableBlocks, x) ==> x < |used| && used[x]
  }

  /** The metadata of every group is marked. */
  ghost predicate Reserved(used: seq<bool>, perGroup: nat, tableBlocks: nat)
    requires perGroup > 0
  {
    forall g: nat :: g < (|used| + perGroup - 1) / perGroup ==> GroupReserved(used, DescOf(g, perGroup), tableBlocks)
  }

  const DESC_SIZE := 32

  function GdtStart(): nat { 2048 / BLK }

  /** The blocks of the descriptor table. */
  function GdtBlocks(groups: nat): nat {
    if groups * DESC_SIZE <= BLK then 1 else (groups * DESC_SIZE + BLK - 1) / BLK
  }

  /** The superblock, the descriptors and block 0. */
  predicate InHead(groups: nat, b: nat) { b == 0 || 1024 / BLK <= b < GdtStart() + GdtBlocks(groups) }

  function DescOf(g: nat, perGroup: nat): (d: Desc)
    ensures d.ib == d.bb + 1 && d.it == d.bb + 2
  {
    if g == 0 then Desc(GdtStart() + 1, GdtStart() + 2, GdtStart() + 3) else Desc(g * perGroup, g * perGroup + 1, g * perGroup + 2)
  }

  /** Metadata of one of the first `n` groups. */
  ghost predicate InSomeGroup(n: nat, perGroup: nat, tableBlocks: nat, b: nat) {
    exists g: nat :: g < n && IsMeta(DescOf(g, perGroup), tableBlocks, b)
  }

  // ---------------------------------------------------------------------------------------------
  // The initial bitmap
  // ---------------------------------------------------------------------------------------------

  method MarkRange(used: seq<bool>, lo: nat, hi: nat) returns (u: seq<bool>)
    requires hi <= |used|
    ensures |u| == |used| && forall x :: 0 <= x < |used| ==> u[x] == (used[x] || lo <= x < hi)
  {
    u := used;
    var b := lo;
    while b < hi
      invariant |u| == |used| && (lo <= b <= hi || b == lo) && forall x :: 0 <= x < |used| ==> u[x] == (used[x] || lo <= x < b)
    {
      u := u[b := true];
      b := b + 1;
    }
  }

  /** The bitmap of a new image: block 0, the superblock, the descriptors of all groups and the metadata of every
      group are in use. */
  method InitialBitmap(total: nat, perGroup: nat, tableBlocks: nat) returns (used: seq<bool>)
    requires 0 < perGroup <= 0x8000 && 0 < total <= 0x8000_0000 && GdtStart() + GdtBlocks((total + perGroup - 1) / perGroup) <= total
    requires forall g :: 0 <= g < (total + perGroup - 1) / perGroup ==> DescOf(g, perGroup).it + tableBlocks <= total
    ensures |used| == total && used[0] && forall b :: 0 <= b < total && InHead((total + perGroup - 1) / perGroup, b) ==> used[b]
    ensures forall g :: 0 <= g < (total + perGroup - 1) / perGroup ==> g * perGroup < total && used[g * perGroup]
    ensures Reserved(used, perGroup, tableBlocks)
    ensures forall b :: 0 <= b < total && used[b]
                        ==> InHead((total + perGroup - 1) / perGroup, b) || InSomeGroup((total + perGroup - 1) / perGroup, perGroup, tableBlocks, b)
  {
    hide DescOf, GroupReserved, GdtBlocks, InSomeGroup, Reserved;
    used := seq(total, _ => false);
    var groups := (total + perGroup - 1) / perGroup;
    for g := 0 to groups
      invariant |used| == total
      invariant forall h: nat :: h < g ==> GroupReserved(used, DescOf(h, perGroup), tableBlocks)
      invariant forall b :: 0 <= b < total && used[b] ==> InSomeGroup(g, perGroup, tableBlocks, b)
    {
      var d := DescOf(g, perGroup);
      ghost var before := used;
      used := MarkRange(used, d.bb, d.it + tableBlocks);
      forall b | 0 <= b < total && used[b] ensures InSomeGroup(g + 1, perGroup, tableBlocks, b) { OneGroupMore(g, perGroup, tableBlocks, b); }
      forall h: nat | h < g + 1 ensures GroupReserved(used, DescOf(h, perGroup), tableBlocks) {
        if h < g { StillReserved(before, used, DescOf(h, perGroup), tableBlocks); } else { NowReserved(before, used, d, tableBlocks); }
      }
    }
    ghost var groupsDone := used;
    used := MarkRange(used, 1024 / BLK, GdtStart() + GdtBlocks(groups));
    used := used[0 := true];
    HeadMarked(groupsDone, used, perGroup, tableBlocks, groups);
  }

  lemma HeadMarked(used: seq<bool>, used': seq<bool>, perGroup: nat, tableBlocks: nat, groups: nat)
    requires |used'| == |used| > 0 && perGroup > 0 && groups == (|used| + perGroup - 1) / perGroup
    requires forall b :: 0 <= b < |used| ==> used'[b] == (used[b] || InHead(groups, b))
    requires forall h: nat :: h < groups ==> GroupReserved(used, DescOf(h, perGroup), tableBlocks)
    ensures Reserved(used', perGroup, tableBlocks) && forall g :: 0 <= g < groups ==> g * perGroup < |used| && used'[g * perGroup]
  {
    hide DescOf, GroupReserved, GdtBlocks;
    forall g: nat | g < groups ensures GroupReserved(used', DescOf(g, perGroup), tableBlocks) {
      StillReserved(used, used', DescOf(g, perGroup), tableBlocks);
    }
    forall g | 0 <= g < groups ensures g * perGroup < |used| && used'[g * perGroup] {
      FirstReserved(used', |used|, perGroup, g, tableBlocks);
    }
  }

  lemma OneGroupMore(n: nat, perGroup: nat, tableBlocks: nat, b: nat)
    requires InSomeGroup(n, perGroup, tableBlocks, b) || DescOf(n, perGroup).bb <= b < DescOf(n, perGroup).it + tableBlocks
    ensures InSomeGroup(n + 1, perGroup, tableBlocks, b)
  {
    if !InSomeGroup(n, perGroup, tableBlocks, b) { assert IsMeta(DescOf(n, perGroup), tableBlocks, b); }
  }

  lemma StillReserved(used: seq<bool>, used': seq<bool>, d: Desc, tableBlocks: nat)
    requires |used'| == |used| && (forall x :: 0 <= x < |used| && used[x] ==> used'[x]) && GroupReserved(used, d, tableBlocks)
    ensures GroupReserved(used', d, tableBlocks)
  {
  }

  lemma NowReserved(used: seq<bool>, used': seq<bool>, d: Desc, tableBlocks: nat)
    requires |used'| == |used| && d.it + tableBlocks <= |used| && d.ib == d.bb + 1 && d.it == d.bb + 2
    requires forall x :: 0 <= x < |used| ==> used'[x] == (used[x] || d.bb <= x < d.it + tableBlocks)
    ensures GroupReserved(used', d, tableBlocks)
  {
  }

  /** The first block of a group: block 0, or the group's block bitmap. */
  lemma FirstReserved(used: seq<bool>, total: nat, perGroup: nat, g: nat, tableBlocks: nat)
    requires perGroup > 0 && |used| == total && g < (total + perGroup - 1) / perGroup
    requires 0 < total && used[0] && GroupReserved(used, DescOf(g, perGroup), tableBlocks)
    ensures g * perGroup < total && used[g * perGroup]
  {
    FirstOfGroup(total, perGroup, g);
    if g > 0 { assert IsMeta(DescOf(g, perGroup), tableBlocks, g * perGroup); }
  }

  lemma FirstOfGroup(total: nat, perGroup: nat, g: nat)
    requires perGroup > 0 && g < (total + perGroup - 1) / perGroup
    ensures g * perGroup < total
  {
    var n := total + perGroup - 1;
    Sp.MulLe(perGroup, g + 1, n / perGroup);
    assert n == n / perGroup * perGroup + n % perGroup;
  }

  // ---------------------------------------------------------------------------------------------
  // The counters
  // ---------------------------------------------------------------------------------------------

  /** The used blocks from `lo` up to `hi` that are metadata of their group, or that are not. */
  function CountIn(used: seq<bool>, lo: nat, hi: nat, d: Desc, tableBlocks: nat, meta: bool): nat
    requires lo <= hi <= |used|
    decreases hi
  {
    if lo == hi then 0 else CountIn(used, lo, hi - 1, d, tableBlocks, meta) + if used[hi - 1] && IsMeta(d, tableBlocks, hi - 1) == meta then 1 else 0
  }

  lemma {:induction false} CountSplit(used: seq<bool>, lo: nat, hi: nat, d: Desc, tableBlocks: nat)
    requires lo <= hi <= |used|
    ensures CountIn(used, lo, hi, d, tableBlocks, true) + CountIn(used, lo, hi, d, tableBlocks, false) == CountUsed(used[lo..hi])
    decreases hi
  {
    hide IsMeta;
    if lo < hi {
      CountSplit(used, lo, hi - 1, d, tableBlocks);
      assert used[lo..hi][..hi - lo - 1] == used[lo..hi - 1];
    }
  }

  /** The count of metadata or data blocks of a group, as flush makes it. */
  method CountBlocks(used: seq<bool>, lo: nat, hi: nat, d: Desc, tableBlocks: nat, meta: bool) returns (n: nat)
    requires lo <= hi <= |used|
    ensures n == CountIn(used, lo, hi, d, tableBlocks, meta)
  {
    n := 0;
    for b := lo to hi
      invariant n == CountIn(used, lo, b, d, tableBlocks, meta)
    {
      if used[b] && IsMeta(d, tableBlocks, b) == meta {
        n := n + 1;
      }
    }
  }

  lemma {:induction false} CountConcat(used: seq<bool>, m: nat, n: nat)
    requires m <= n <= |used|
    ensures CountUsed(used[..n]) == CountUsed(used[..m]) + CountUsed(used[m..n])
    decreases n
  {
    if m < n {
      CountConcat(used, m, n - 1);
      assert used[..n][..n - 1] == used[..n - 1] && used[m..n][..n - m - 1] == used[m..n - 1];
    } else {
      assert used[m..n] == [];
    }
  }

  /** The counters of flush, from the final bitmap: for every group its blocks less metadata less data, and
      for the superblock all blocks less the used ones. They satisfy the accounts of the driver. */
  method FlushCounts(used: seq<bool>, perGroup: nat, tableBlocks: nat) returns (free: seq<nat>, total: nat)
    requires 0 < perGroup <= 0x8000 && 0 < |used| <= 0x8000_0000
    ensures Sp.Accounted(Sp.Space(perGroup, used, free, total))
  {
    hide CountIn, IsMeta, Sp.ClearIn, Sp.Lo, Sp.Hi;
    var groups := (|used| + perGroup - 1) / perGroup;
    ghost var s := Sp.Space(perGroup, used, seq(groups, _ => 0), 0);
    free := [];
    for g := 0 to groups
      invariant |free| == g && forall h :: 0 <= h < g ==> free[h] == Sp.ClearIn(s, h)
    {
      Sp.GroupBounds(s, g);
      GroupEnds(s, g);
      var base := g * perGroup;
      var end := if base + perGroup < |used| then base + perGroup else |used|;
      var d := DescOf(g, perGroup);
      var meta := CountBlocks(used, base, end, d, tableBlocks, true);
      var data := CountBlocks(used, base, end, d, tableBlocks, false);
      CountSplit(used, base, end, d, tableBlocks);
      CountUsedBound(used[base..end]);
      ClearIs(s, g, base, end);
      free := free + [end - base - meta - data];
    }
    CountUsedBound(used);
    total := |used| - CountUsed(used);
    ghost var s' := Sp.Space(perGroup, used, free, total);
    forall g | 0 <= g < groups ensures free[g] == Sp.ClearIn(s', g) { Sp.SameClear(s, s', g); }
    SumAll(s', groups);
  }

  lemma GroupEnds(s: Sp.Space, g: nat)
    ensures Sp.Lo(s, g) == g * s.perGroup
            && Sp.Hi(s, g) == if g * s.perGroup + s.perGroup < |s.used| then g * s.perGroup + s.perGroup else |s.used|
  {
  }

  lemma ClearIs(s: Sp.Space, g: nat, lo: nat, hi: nat)
    requires Sp.Shape(s) && g < |s.free| && lo == Sp.Lo(s, g) && hi == Sp.Hi(s, g)
    ensures lo <= hi <= |s.used| && Sp.ClearIn(s, g) == hi - lo - CountUsed(s.used[lo..hi])
  {
    Sp.GroupBounds(s, g);
  }

  /** The clear bits of the first groups are their blocks less the used ones. */
  lemma {:induction false} SumGroups(s: Sp.Space, n: nat)
    requires Sp.Shape(s) && 0 < n <= |s.free| && forall g :: 0 <= g < |s.free| ==> s.free[g] == Sp.ClearIn(s, g)
    ensures Sp.Hi(s, n - 1) <= |s.used| && Sp.Sum(s.free[..n]) == Sp.Hi(s, n - 1) - CountUsed(s.used[..Sp.Hi(s, n - 1)])
  {
    hide Sp.ClearIn;
    var g := n - 1;
    Sp.GroupBounds(s, g);
    ClearIs(s, g, Sp.Lo(s, g), Sp.Hi(s, g));
    CountConcat(s.used, Sp.Lo(s, g), Sp.Hi(s, g));
    assert s.free[..n][..g] == s.free[..g];
    if g > 0 {
      SumGroups(s, g);
      Adjacent(s, g);
    } else {
      assert Sp.Lo(s, 0) == 0;
      assert s.used[..0] == [];
      assert s.free[..0] == [];
    }
  }

  lemma Adjacent(s: Sp.Space, g: nat)
    requires Sp.Shape(s) && 0 < g < |s.free|
    ensures Sp.Hi(s, g - 1) == Sp.Lo(s, g)
  {
    Sp.GroupBounds(s, g);
    assert Sp.Lo(s, g) == Sp.Lo(s, g - 1) + s.perGroup;
  }

  lemma SumAll(s: Sp.Space, n: nat)
    requires Sp.Shape(s) && n == |s.free| && forall g :: 0 <= g < |s.free| ==> s.free[g] == Sp.ClearIn(s, g)
    ensures Sp.Sum(s.free) == |s.used| - CountUsed(s.used)
  {
    hide Sp.ClearIn;
    Sp.GroupOf(s, |s.used| - 1);
    SumGroups(s, n);
    LastEnds(s);
    assert s.free[..n] == s.free && s.used[..|s.used|] == s.used;
  }

  /** The last group ends with the volume. */
  lemma LastEnds(s: Sp.Space)
    requires Sp.Shape(s)
    ensures |s.free| > 0 && Sp.Hi(s, |s.free| - 1) == |s.used|
  {
    Sp.GroupOf(s, |s.used| - 1);
    var n, p, q := |s.used| + s.perGroup - 1, s.perGroup, |s.free|;
    assert n == q * p + n % p;
    assert (q - 1) * p + p == q * p;
  }
}
