/** Numbers as fixed-width bits and bytes, most significant first. */
module Radix {

  predicate Below(s: seq<nat>, limit: nat) { forall i | 0 <= i < |s| :: s[i] < limit }

  /** The lowest `m` bits of `n`, most significant first. */
  function Bits(n: nat, m: nat): (r: seq<nat>)
    ensures |r| == m && Below(r, 2)
  {
    if m == 0 then [] else Bits(n / 2, m - 1) + [n % 2]
  }

  /** The lowest `m` bytes of `n`, most significant first. */
  function Bytes(n: nat, m: nat): (r: seq<nat>)
    ensures |r| == m && Below(r, 256)
  {
    if m == 0 then [] else Bytes(n / 256, m - 1) + [n % 256]
  }

  function FromBits(bits: seq<nat>): nat {
    if bits == [] then 0 else FromBits(bits[..|bits| - 1]) * 2 + bits[|bits| - 1]
  }

  function Pow2(m: nat): nat { if m == 0 then 1 else 2 * Pow2(m - 1) }

  function Pow256(m: nat): nat { if m == 0 then 1 else 256 * Pow256(m - 1) }

  function FromBytes(bytes: seq<nat>): nat {
    if bytes == [] then 0 else FromBytes(bytes[..|bytes| - 1]) * 256 + bytes[|bytes| - 1]
  }

  lemma {:induction false} BitsOfNumber(bits: seq<nat>)
    requires Below(bits, 2)
    ensures Bits(FromBits(bits), |bits|) == bits
  {
    if bits != [] {
      BitsOfNumber(bits[..|bits| - 1]);
      assert bits == bits[..|bits| - 1] + [bits[|bits| - 1]];
    }
  }

  lemma {:induction false} NumberOfBytes(n: nat, m: nat)
    requires n < Pow256(m)
    ensures FromBytes(Bytes(n, m)) == n
  {
    if m > 0 {
      NumberOfBytes(n / 256, m - 1);
      assert Bytes(n, m)[..m - 1] == Bytes(n / 256, m - 1);
    }
  }
}
