// Bit vectors, least significant bit first: index 0 of a `Vec` is bit 0 of the VHDL vector or C++ word.

module Bits {

  type Vec = seq<bool>

  function Zeros(n: nat): (v: Vec)
    ensures |v| == n && forall i :: 0 <= i < n ==> !v[i]
  {
    seq(n, i => false)
  }

  /** `x` sits at the most significant end of `v`. */
  predicate Suffix(v: Vec, x: Vec) {
    |x| <= |v| && v[|v| - |x|..] == x
  }

  /** One right shift of a register that takes `b` in at the top. */
  function ShiftIn(v: Vec, b: bool): (w: Vec)
    requires |v| > 0
    ensures |w| == |v|
  {
    v[1..] + [b]
  }

  lemma ShiftInSuffix(v: Vec, x: Vec, b: bool)
    requires |v| > 0 && Suffix(v, x) && |x| < |v|
    ensures Suffix(ShiftIn(v, b), x + [b])
  {
    var w := ShiftIn(v, b);
    assert w[|w| - |x| - 1..] == x + [b];
  }

  function NatOf(v: Vec): nat {
    if v == [] then 0 else (if v[0] then 1 else 0) + 2 * NatOf(v[1..])
  }

  /** The low `w` bits of `n`. */
  function BitsOf(n: nat, w: nat): (v: Vec)
    ensures |v| == w
    decreases w, n
  {
    if w == 0 then [] else [n % 2 == 1] + BitsOf(n / 2, w - 1)
  }

  function Pow2(n: nat): (p: nat)
    ensures p >= 1
  {
    if n == 0 then 1 else 2 * Pow2(n - 1)
  }

  lemma {:induction false} NatOfBitsOf(n: nat, w: nat)
    requires n < Pow2(w)
    ensures NatOf(BitsOf(n, w)) == n
    decreases w
  {
    if w > 0 {
      NatOfBitsOf(n / 2, w - 1);
      assert BitsOf(n, w)[1..] == BitsOf(n / 2, w - 1);
    }
  }

  lemma {:induction false} BitsOfNatOf(v: Vec)
    ensures BitsOf(NatOf(v), |v|) == v && NatOf(v) < Pow2(|v|)
  {
    if v != [] {
      BitsOfNatOf(v[1..]);
      assert v == [v[0]] + v[1..];
    }
  }
}
