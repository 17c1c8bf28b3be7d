/** The number of set bits of a bitmap. */
module BitCounts {

  function CountUsed(used: seq<bool>): nat {
    if used == [] then 0
    else CountUsed(used[..|used| - 1]) + if used[|used| - 1] then 1 else 0
  }

  lemma {:induction false} CountUsedUpdate(used: seq<bool>, i: nat, b: bool)
    requires i < |used|
    ensures CountUsed(used[i := b])
         == CountUsed(used) - (if used[i] then 1 else 0) + (if b then 1 else 0)
  {
    var n := |used| - 1;
    if i == n {
      assert used[i := b][..n] == used[..n];
    } else {
      CountUsedUpdate(used[..n], i, b);
      assert used[i := b][..n] == used[..n][i := b];
    }
  }

  lemma {:induction false} CountUsedBound(used: seq<bool>)
    ensures CountUsed(used) <= |used|
    ensures CountUsed(used) == |used| <==> forall i :: 0 <= i < |used| ==> used[i]
  {
    if used != [] {
      var n := |used| - 1;
      CountUsedBound(used[..n]);
      assert forall i :: 0 <= i < n ==> used[..n][i] == used[i];
    }
  }

  lemma {:induction false} CountUsedMonotone(used: seq<bool>, used': seq<bool>)
    requires |used| == |used'| && forall i :: 0 <= i < |used| && used[i] ==> used'[i]
    ensures CountUsed(used) <= CountUsed(used')
    ensures (exists i :: 0 <= i < |used| && used'[i] && !used[i]) ==> CountUsed(used) < CountUsed(used')
  {
    if used != [] {
      var n := |used| - 1;
      CountUsedMonotone(used[..n], used'[..n]);
      if i :| 0 <= i < n && used'[i] && !used[i] {
        assert used'[..n][i] && !used[..n][i];
      }
    }
  }
}
