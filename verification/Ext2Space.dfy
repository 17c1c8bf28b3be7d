/** Block accounting: the block bitmap, the free count of every group, and the free count of the
    superblock. */
module Ext2Space {
  import opened BitCounts

  /** `used` is the bitmaps of all groups in a row: bit `x` is bit `x % perGroup` of group
      `x / perGroup`. */
  datatype Space = Space(perGroup: nat, used: seq<bool>, free: seq<nat>, total: nat)

  /** The blocks of group `g` are `Lo(s, g)` up to `Hi(s, g)`; the last group can be short. */
  function Lo(s: Space, g: nat): nat { g * s.perGroup }

  function Hi(s: Space, g: nat): nat {
    if |s.used| - Lo(s, g) > s.perGroup then Lo(s, g) + s.perGroup else |s.used|
  }

  /** A bitmap fills at most one block of 4096 bytes, and sector numbers have 32 bits. */
  predicate Shape(s: Space) {
    && 0 < s.perGroup <= 0x8000 && 0 < |s.used| <= 0x8000_0000
    && |s.free| == (|s.used| + s.perGroup - 1) / s.perGroup
  }

  lemma GroupBounds(s: Space, g: nat)
    requires Shape(s) && g < |s.free|
    ensures Lo(s, g) < Hi(s, g) <= |s.used| && Hi(s, g) <= Lo(s, g) + s.perGroup
  {
    var n := |s.used| + s.perGroup - 1;
    assert s.perGroup * (n / s.perGroup) <= n;
    assert g + 1 <= n / s.perGroup;
    MulLe(s.perGroup, g + 1, n / s.perGroup);
    assert (g + 1) * s.perGroup == Lo(s, g) + s.perGroup;
  }

  lemma MulLe(a: nat, b: nat, c: nat)
    requires b <= c
    ensures a * b <= a * c
  {
  }

  /** Consecutive groups share no block. */
  lemma GroupsApart(s: Space, g: nat, h: nat)
    requires Shape(s) && g < h
    ensures Lo(s, g) + s.perGroup <= Lo(s, h)
  {
    MulLe(s.perGroup, g + 1, h);
    assert (g + 1) * s.perGroup == Lo(s, g) + s.perGroup;
  }

  lemma GroupOf(s: Space, x: nat)
    requires Shape(s) && x < |s.used|
    ensures x / s.perGroup < |s.free| && Lo(s, x / s.perGroup) <= x < Hi(s, x / s.perGroup)
    ensures x - Lo(s, x / s.perGroup) == x % s.perGroup
  {
    var p, g := s.perGroup, x / s.perGroup;
    assert x == g * p + x % p;
    assert |s.used| + p - 1 >= g * p + p == (g + 1) * p;
    DivAtLeast(|s.used| + p - 1, p, g + 1);
  }

  lemma DivAtLeast(n: nat, p: nat, k: nat)
    requires 0 < p && k * p <= n
    ensures k <= n / p
  {
    var q := n / p;
    assert n == q * p + n % p;
    if q < k { MulLe(p, q + 1, k); }
  }

  function ClearIn(s: Space, g: nat): nat
    requires Shape(s) && g < |s.free|
  {
    GroupBounds(s, g);
    CountUsedBound(s.used[Lo(s, g)..Hi(s, g)]);
    Hi(s, g) - Lo(s, g) - CountUsed(s.used[Lo(s, g)..Hi(s, g)])
  }

  function Sum(free: seq<nat>): nat { if free == [] then 0 else Sum(free[..|free| - 1]) + free[|free| - 1] }

  /** Every group counts its clear bits, and the superblock counts them all. */
  ghost predicate Accounted(s: Space) {
    && Shape(s)
    && (forall g :: 0 <= g < |s.free| ==> s.free[g] == ClearIn(s, g))
    && s.total == Sum(s.free)
  }

  /** The first block of every group is in use: it holds metadata. */
  ghost predicate FirstBlocksUsed(s: Space)
    requires Shape(s)
  {
    forall g :: 0 <= g < |s.free| ==> FirstUsed(s, g)
  }

  predicate FirstUsed(s: Space, g: nat)
    requires Shape(s) && g < |s.free|
  {
    GroupBounds(s, g);
    s.used[Lo(s, g)]
  }

  // ---------------------------------------------------------------------------------------------
  // Allocation and release
  // ---------------------------------------------------------------------------------------------

  /** No block is free. */
  ghost predicate Full(s: Space) {
    forall y :: 0 <= y < |s.used| ==> s.used[y]
  }

  /** Only block `f` may be free. */
  ghost predicate OnlyFree(s: Space, f: nat) {
    forall y :: 0 <= y < |s.used| && y != f ==> s.used[y]
  }

  /** The first clear bit from `i` on below `hi`, or `hi`. */
  function FirstClear(used: seq<bool>, i: nat, hi: nat): (r: nat)
    requires i <= hi <= |used|
    ensures i <= r <= hi && (forall k :: i <= k < r ==> used[k]) && (r < hi ==> !used[r])
    decreases hi - i
  {
    if i == hi then hi else if !used[i] then i else FirstClear(used, i + 1, hi)
  }

  /** The search of ext2_alloc_block from group `g` on. A clear first bit is taken but reported as 0,
      and the search goes on. */
  function AllocFrom(s: Space, g: nat): (r: (Space, nat))
    requires Shape(s) && g <= |s.free| && s.total > 0
    decreases |s.free| - g
  {
    if g == |s.free| then (s, 0)
    else if s.free[g] == 0 then AllocFrom(s, g + 1)
    else
      GroupBounds(s, g);
      var x := FirstClear(s.used, Lo(s, g), Hi(s, g));
      if x == Hi(s, g) then AllocFrom(s, g + 1)
      else if x == Lo(s, g) then AllocFrom(s.(used := s.used[x := true]), g + 1)
      else (s.(used := s.used[x := true], free := s.free[g := s.free[g] - 1], total := s.total - 1), x)
  }

  /** ext2_alloc_block. */
  function Alloc(s: Space): (r: (Space, nat))
    requires Shape(s)
  {
    if s.total == 0 then (s, 0) else AllocFrom(s, 0)
  }

  /** ext2_free_block for a block of the volume; the group count has 16 bits, the other 32. */
  function Free(s: Space, x: nat): (r: Space)
    requires Shape(s) && x < |s.used|
  {
    GroupOf(s, x);
    var g := x / s.perGroup;
    s.(used := s.used[x := false], free := s.free[g := (s.free[g] + 1) % 0x1_0000], total := (s.total + 1) % 0x1_0000_0000)
  }

  // ---------------------------------------------------------------------------------------------
  // Counting
  // ---------------------------------------------------------------------------------------------

  lemma {:induction false} SumUpdate(free: seq<nat>, g: nat, v: nat)
    requires g < |free|
    ensures Sum(free[g := v]) == Sum(free) - free[g] + v
  {
    var n := |free| - 1;
    if g == n {
      assert free[g := v][..n] == free[..n];
    } else {
      SumUpdate(free[..n], g, v);
      assert free[g := v][..n] == free[..n][g := v];
    }
  }

  lemma {:induction false} SumZero(free: seq<nat>)
    ensures Sum(free) == 0 <==> forall g :: 0 <= g < |free| ==> free[g] == 0
  {
    if free != [] {
      var n := |free| - 1;
      SumZero(free[..n]);
      assert forall g :: 0 <= g < n ==> free[..n][g] == free[g];
    }
  }

  /** Changing bit `x` changes the count of its own group only. */
  lemma SetBit(s: Space, x: nat, b: bool, g: nat, h: nat)
    requires Shape(s) && g < |s.free| && Lo(s, g) <= x < Hi(s, g) && h < |s.free|
    ensures var s' := s.(used := s.used[x := b]);
            Shape(s') && ClearIn(s', h) == if h == g then ClearIn(s, h) + (if s.used[x] then 1 else 0) - (if b then 1 else 0) else ClearIn(s, h)
  {
    var s' := s.(used := s.used[x := b]);
    GroupBounds(s, g);
    GroupBounds(s, h);
    assert Lo(s', h) == Lo(s, h) && Hi(s', h) == Hi(s, h);
    var lo, hi := Lo(s, h), Hi(s, h);
    if h == g {
      assert s'.used[lo..hi] == s.used[lo..hi][x - lo := b];
      CountUsedUpdate(s.used[lo..hi], x - lo, b);
    } else {
      if h < g { GroupsApart(s, h, g); } else { GroupsApart(s, g, h); }
      assert s'.used[lo..hi] == s.used[lo..hi];
    }
  }

  lemma ClearZero(s: Space, g: nat)
    requires Shape(s) && g < |s.free|
    ensures ClearIn(s, g) == 0 <==> (GroupBounds(s, g); FirstClear(s.used, Lo(s, g), Hi(s, g)) == Hi(s, g))
  {
    GroupBounds(s, g);
    var lo, hi := Lo(s, g), Hi(s, g);
    var w := s.used[lo..hi];
    CountUsedBound(w);
    var x := FirstClear(s.used, lo, hi);
    if x < hi {
      assert !w[x - lo];
    } else {
      assert forall i :: 0 <= i < |w| ==> w[i] == s.used[lo + i];
    }
  }

  /** A bit of the group and its count, changed together in step, keep the accounts. */
  lemma MoveOne(s: Space, s': Space, x: nat, g: nat, b: bool)
    requires Accounted(s) && g < |s.free| && Lo(s, g) <= x < Hi(s, g) && s.used[x] != b
    requires b ==> s.free[g] > 0 && s.total > 0
    requires s' == s.(used := s.used[x := b], free := s.free[g := if b then s.free[g] - 1 else s.free[g] + 1],
                      total := if b then s.total - 1 else s.total + 1)
    ensures Accounted(s')
  {
    hide ClearIn;
    GroupBounds(s, g);
    var s1 := s.(used := s.used[x := b]);
    forall h | 0 <= h < |s.free| ensures s'.free[h] == ClearIn(s', h) {
      SetBit(s, x, b, g, h);
      SameClear(s1, s', h);
    }
    SumUpdate(s.free, g, s'.free[g]);
  }

  lemma SameClear(s: Space, s': Space, h: nat)
    requires Shape(s) && Shape(s') && s.perGroup == s'.perGroup && s.used == s'.used && h < |s.free| == |s'.free|
    ensures ClearIn(s', h) == ClearIn(s, h)
  {
  }

  // ---------------------------------------------------------------------------------------------
  // What allocation and release do
  // ---------------------------------------------------------------------------------------------

  /** The first group that counts a free block. */
  predicate FirstOpen(s: Space, g: nat)
    requires Shape(s)
  {
    g < |s.free| && s.free[g] > 0 && forall h :: 0 <= h < g ==> s.free[h] == 0
  }

  /** The search skips groups without free blocks. */
  lemma {:induction false} SkipTo(s: Space, g: nat, h: nat)
    requires Shape(s) && g <= h < |s.free| && s.total > 0 && forall k :: g <= k < h ==> s.free[k] == 0
    ensures AllocFrom(s, g) == AllocFrom(s, h)
    decreases h - g
  {
    if g < h {
      SkipTo(s, g + 1, h);
    }
  }

  lemma SomeOpen(s: Space) returns (g: nat)
    requires Accounted(s) && s.total > 0
    ensures FirstOpen(s, g)
  {
    SumZero(s.free);
    g := 0;
    while s.free[g] == 0
      invariant g < |s.free| && forall h :: 0 <= h < g ==> s.free[h] == 0
      decreases |s.free| - g
    {
      if g + 1 == |s.free| { assert forall h :: 0 <= h < |s.free| ==> s.free[h] == 0; }
      g := g + 1;
    }
  }

  /** Blocks below the first open group are all in use. */
  lemma LowerUsed(s: Space, g: nat, x: nat)
    requires Accounted(s) && FirstOpen(s, g) && x < Lo(s, g) && x < |s.used|
    ensures s.used[x]
  {
    GroupOf(s, x);
    var h := x / s.perGroup;
    if h >= g {
      if h > g { GroupsApart(s, g, h); }
      assert false;
    }
    ClearZero(s, h);
  }

  /** Allocation where the first open group has its first block in use: it takes the lowest free block of
      the volume and counts it. */
  lemma AllocLowest(s: Space, g: nat)
    requires Accounted(s) && FirstOpen(s, g) && FirstUsed(s, g) && s.total > 0
    ensures var (s', x) := Alloc(s);
            && 0 < x < |s.used| && !s.used[x] && Lo(s, g) < x
            && (forall y :: 0 <= y < x ==> s.used[y])
            && s'.used == s.used[x := true] && s'.perGroup == s.perGroup && s'.total == s.total - 1
            && Accounted(s')
  {
    hide ClearIn;
    GroupBounds(s, g);
    SkipTo(s, 0, g);
    ClearZero(s, g);
    var x := FirstClear(s.used, Lo(s, g), Hi(s, g));
    var (s', y) := Alloc(s);
    assert y == x;
    MoveOne(s, s', x, g, true);
    forall y | 0 <= y < x ensures s.used[y] {
      if y < Lo(s, g) { LowerUsed(s, g, y); }
    }
  }

  /** Accounts that count too much somewhere stay that way through the rest of the search. */
  lemma {:induction false} StaysWrong(s: Space, g: nat, k: nat)
    requires Shape(s) && k < g <= |s.free| && s.total > 0 && s.free[k] != ClearIn(s, k)
    ensures var s' := AllocFrom(s, g).0; Shape(s') && |s'.free| == |s.free| && s'.free[k] == s.free[k] && ClearIn(s', k) == ClearIn(s, k)
    decreases |s.free| - g
  {
    hide ClearIn;
    if g < |s.free| {
      if s.free[g] == 0 {
        StaysWrong(s, g + 1, k);
      } else {
        GroupBounds(s, g);
        var x := FirstClear(s.used, Lo(s, g), Hi(s, g));
        if x == Hi(s, g) {
          StaysWrong(s, g + 1, k);
        } else {
          SetBit(s, x, true, g, k);
          var s1 := s.(used := s.used[x := true]);
          if x == Lo(s, g) {
            StaysWrong(s1, g + 1, k);
          } else {
            SameClear(s1, AllocFrom(s, g).0, k);
          }
        }
      }
    }
  }

  /** ext2_alloc_block keeps the accounts exactly when the first group that counts a free block has its
      own first block in use. Otherwise it marks that block, does not count it, and hands out another. */
  lemma AllocKeepsAccountsIff(s: Space)
    requires Accounted(s)
    ensures Accounted(Alloc(s).0) <==> forall g :: FirstOpen(s, g) ==> FirstUsed(s, g)
  {
    hide ClearIn;
    SumZero(s.free);
    if s.total > 0 {
      var g := SomeOpen(s);
      if FirstUsed(s, g) {
        AllocLowest(s, g);
        assert forall h :: FirstOpen(s, h) ==> h == g;
      } else {
        GroupBounds(s, g);
        SkipTo(s, 0, g);
        var lo := Lo(s, g);
        assert FirstClear(s.used, lo, Hi(s, g)) == lo;
        var s1 := s.(used := s.used[lo := true]);
        SetBit(s, lo, true, g, g);
        StaysWrong(s1, g + 1, g);
      }
    }
  }

  /** An input for that: two blocks in one group, the first one free. It is marked, nothing is handed out, and the
      counters still count it. */
  lemma FirstBlockLost()
    ensures var s := Space(4, [false, true], [1], 1);
            Accounted(s) && Alloc(s) == (Space(4, [true, true], [1], 1), 0) && !Accounted(Alloc(s).0)
  {
    hide ClearIn, AllocFrom, FirstClear, CountUsed;
    var s, s' := Space(4, [false, true], [1], 1), Space(4, [true, true], [1], 1);
    assert Sum(s.free) == 1 by { assert s.free[..0] == []; }
    ClearOfTwo(s);
    ClearOfTwo(s');
    FirstBlockTaken(s, s');
  }

  lemma FirstBlockTaken(s: Space, s': Space)
    requires s == Space(4, [false, true], [1], 1) && s' == Space(4, [true, true], [1], 1)
    ensures Shape(s) && AllocFrom(s, 0) == (s', 0)
  {
    hide ClearIn, CountUsed;
    GroupBounds(s, 0);
    assert !s.used[0];
    assert FirstClear(s.used, 0, 2) == 0;
    assert s.used[0 := true] == s'.used;
    assert AllocFrom(s', 1) == (s', 0);
  }

  lemma ClearOfTwo(s: Space)
    requires s.perGroup == 4 && |s.used| == 2 && |s.free| == 1
    ensures Shape(s) && Lo(s, 0) == 0 && Hi(s, 0) == 2
    ensures ClearIn(s, 0) == (if s.used[0] then 0 else 1) + if s.used[1] then 0 else 1
  {
    assert s.used[0..2] == s.used && s.used[..1] == [s.used[0]] && s.used[..1][..0] == [];
    assert CountUsed(s.used[..1]) == if s.used[0] then 1 else 0;
    assert CountUsed(s.used) == CountUsed(s.used[..1]) + if s.used[1] then 1 else 0;
  }

  /** Allocation on a volume whose groups keep their first blocks in use. */
  lemma AllocExact(s: Space)
    requires Accounted(s) && FirstBlocksUsed(s)
    ensures var (s', x) := Alloc(s);
            && Accounted(s') && FirstBlocksUsed(s') && s'.perGroup == s.perGroup
            && (x == 0 <==> forall y :: 0 <= y < |s.used| ==> s.used[y])
            && (x == 0 ==> s' == s)
            && (x != 0 ==> x < |s.used| && !s.used[x] && s'.used == s.used[x := true] && s'.total == s.total - 1
                           && (forall y :: 0 <= y < x ==> s.used[y]) && x % s.perGroup != 0)
  {
    hide ClearIn, Lo, Hi, AllocFrom, Shape;
    if s.total == 0 {
      NoneClear(s);
    } else {
      var g := SomeOpen(s);
      assert FirstUsed(s, g);
      AllocLowest(s, g);
      var (s', x) := Alloc(s);
      FirstBlocksKept(s, s', x);
      NotFirst(s, x);
    }
  }

  lemma NoneClear(s: Space)
    requires Accounted(s) && s.total == 0
    ensures forall y :: 0 <= y < |s.used| ==> s.used[y]
  {
    SumZero(s.free);
    forall y | 0 <= y < |s.used| ensures s.used[y] {
      GroupOf(s, y);
      ClearZero(s, y / s.perGroup);
    }
  }

  lemma NotFirst(s: Space, x: nat)
    requires Shape(s) && FirstBlocksUsed(s) && x < |s.used| && !s.used[x]
    ensures x % s.perGroup != 0
  {
    GroupOf(s, x);
    assert FirstUsed(s, x / s.perGroup);
  }

  lemma FirstBlocksKept(s: Space, s': Space, x: nat)
    requires Shape(s) && Shape(s') && FirstBlocksUsed(s) && x < |s.used|
    requires s'.perGroup == s.perGroup && s'.used == s.used[x := true]
    ensures FirstBlocksUsed(s')
  {
    forall g | 0 <= g < |s'.free| ensures FirstUsed(s', g) {
      assert FirstUsed(s, g);
      GroupBounds(s, g);
    }
  }

  /** ext2_free_block keeps the accounts exactly when the block was in use. */
  lemma FreeKeepsAccountsIff(s: Space, x: nat)
    requires Accounted(s) && x < |s.used|
    ensures Accounted(Free(s, x)) <==> s.used[x]
  {
    hide ClearIn;
    GroupOf(s, x);
    var g := x / s.perGroup;
    CountFits(s, g);
    TotalFits(s, |s.free|);
    assert s.free[..|s.free|] == s.free;
    if s.used[x] {
      MoveOne(s, Free(s, x), x, g, false);
    } else {
      assert s.used[x := false] == s.used;
      SameClear(s, Free(s, x), g);
    }
  }

  lemma CountFits(s: Space, g: nat)
    requires Shape(s) && g < |s.free|
    ensures ClearIn(s, g) <= Hi(s, g) - Lo(s, g) <= s.perGroup
  {
    GroupBounds(s, g);
  }

  lemma {:induction false} TotalFits(s: Space, n: nat)
    requires Accounted(s) && n <= |s.free|
    ensures Sum(s.free[..n]) <= |s.used| && Sum(s.free[..n]) <= Lo(s, n)
  {
    if n > 0 {
      hide ClearIn, Lo, Hi;
      var g := n - 1;
      TotalFits(s, g);
      assert s.free[..n][..g] == s.free[..g];
      assert Sum(s.free[..n]) == Sum(s.free[..g]) + s.free[g];
      GroupBounds(s, g);
      CountFits(s, g);
      GroupsApart(s, g, n);
    }
  }

  /** The bitmap determines every counter. */
  lemma CountersDetermined(s: Space, t: Space)
    requires Accounted(s) && Accounted(t) && s.perGroup == t.perGroup && s.used == t.used
    ensures s == t
  {
    forall g | 0 <= g < |s.free| ensures s.free[g] == t.free[g] { SameClear(s, t, g); }
    assert s.free == t.free;
  }
}
