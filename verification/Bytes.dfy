/**
 Machine words. A byte is a number below 256, so that its order and its arithmetic are
 those of the integers; a 16-bit register is the sequence of its bits.
 */
module Bytes {

  type byte = v: int | 0 <= v < 256

  type bytes = seq<byte>

  /** Bits, most significant first. */
  type Bits = seq<bool>

  function Pow2(n: nat): (p: nat)
    ensures p >= 1
  {
    if n == 0 then 1 else 2 * Pow2(n - 1)
  }

  /** The `n` low bits of `v`. */
  function ToBits(v: nat, n: nat): (p: Bits)
    ensures |p| == n
  {
    if n == 0 then [] else ToBits(v / 2, n - 1) + [v % 2 == 1]
  }

  function FromBits(p: Bits): (v: nat)
    ensures v < Pow2(|p|)
  {
    if p == [] then 0 else 2 * FromBits(p[..|p| - 1]) + (if p[|p| - 1] then 1 else 0)
  }

  lemma {:induction false} FromToBits(v: nat, n: nat)
    requires v < Pow2(n)
    ensures FromBits(ToBits(v, n)) == v
  {
    if n > 0 {
      FromToBits(v / 2, n - 1);
      assert ToBits(v, n)[..n - 1] == ToBits(v / 2, n - 1);
    }
  }

  lemma {:induction false} ToFromBits(p: Bits)
    ensures ToBits(FromBits(p), |p|) == p
  {
    if p != [] {
      var n := |p| - 1;
      ToFromBits(p[..n]);
      assert FromBits(p) / 2 == FromBits(p[..n]);
      assert p[..n] + [p[n]] == p;
    }
  }

  function ByteBits(v: byte): (p: Bits)
    ensures |p| == 8
  {
    ToBits(v, 8)
  }

  function BitsByte(p: Bits): byte
    requires |p| == 8
  {
    assert Pow2(8) == 256;
    FromBits(p)
  }
}
