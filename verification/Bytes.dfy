/** Bytes, lengths and little-endian numbers. */
module Bytes {

  type Byte = b: int | 0 <= b < 256

  function Min(a: nat, b: nat): nat { if a < b then a else b }

  function LittleEndian(v: nat, n: nat): (bs: seq<Byte>)
    ensures |bs| == n
  {
    if n == 0 then [] else [v % 256] + LittleEndian(v / 256, n - 1)
  }

  function FromLittleEndian(bs: seq<Byte>): nat {
    if bs == [] then 0 else bs[0] + 256 * FromLittleEndian(bs[1..])
  }

  function Power256(n: nat): nat { if n == 0 then 1 else 256 * Power256(n - 1) }

  lemma {:induction false} LittleEndianRoundTrip(v: nat, n: nat)
    requires v < Power256(n)
    ensures FromLittleEndian(LittleEndian(v, n)) == v
  {
    if n > 0 {
      LittleEndianRoundTrip(v / 256, n - 1);
      assert LittleEndian(v, n)[1..] == LittleEndian(v / 256, n - 1);
    }
  }

  /** `d` with `src` copied over it at `at`. */
  function Over(d: seq<Byte>, at: nat, src: seq<Byte>): (r: seq<Byte>)
    requires at + |src| <= |d|
    ensures |r| == |d|
  {
    d[..at] + src + d[at + |src|..]
  }

  lemma OverAt(d: seq<Byte>, at: nat, src: seq<Byte>, i: nat)
    requires at + |src| <= |d| && i < |d|
    ensures Over(d, at, src)[i] == if at <= i < at + |src| then src[i - at] else d[i]
  {
  }

  /** Two adjacent copies are one. */
  lemma OverOver(d: seq<Byte>, at: nat, a: seq<Byte>, b: seq<Byte>)
    requires at + |a| + |b| <= |d|
    ensures Over(Over(d, at, a), at + |a|, b) == Over(d, at, a + b)
  {
    var one := Over(d, at, a);
    assert one[..at + |a|] == d[..at] + a;
    assert one[at + |a| + |b|..] == d[at + |a| + |b|..];
  }

  lemma OverNone(d: seq<Byte>, at: nat)
    requires at <= |d|
    ensures Over(d, at, []) == d
  {
  }

  lemma OverStep(d: seq<Byte>, at: nat, src: seq<Byte>, i: nat)
    requires i < |src| && at + i < |d|
    ensures Over(d, at, src[..i])[at + i := src[i]] == Over(d, at, src[..i + 1])
  {
  }

  /** memcpy into an array. */
  method CopyIn(dst: array<Byte>, at: nat, src: seq<Byte>)
    requires at + |src| <= dst.Length
    modifies dst
    ensures dst[..] == Over(old(dst[..]), at, src)
  {
    hide Over;
    ghost var d := dst[..];
    OverNone(d, at);
    for i := 0 to |src|
      invariant dst[..] == Over(d, at, src[..i])
    {
      OverStep(d, at, src, i);
      dst[at + i] := src[i];
    }
    assert src[..|src|] == src;
  }
}
