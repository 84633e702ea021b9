// Multiplication and division facts used for indices into word sequences.

module Arith {

  lemma MulMono(a: nat, b: nat, w: nat)
    requires a >= b
    ensures a * w >= b * w
  {
    var e := a - b;
    assert a * w == b * w + e * w;
  }

  lemma MulSucc(k: nat, w: nat)
    ensures (k + 1) * w == k * w + w
  {
  }

  lemma DivMod(i: nat, w: nat, k: nat, m: nat)
    requires w > 0 && m < w && i == k * w + m
    ensures i / w == k && i % w == m
  {
    var q := i / w;
    var r := i % w;
    assert i == q * w + r;
    if q > k {
      MulMono(q, k + 1, w);
      MulSucc(k, w);
    } else if q < k {
      MulMono(k, q + 1, w);
      MulSucc(q, w);
    }
  }

  lemma DivNat(i: nat, w: nat)
    requires w > 0
    ensures 0 <= i / w && 0 <= i % w < w
  {
  }

  lemma DivMono(a: nat, b: nat, w: nat)
    requires a <= b && w > 0
    ensures a / w <= b / w
  {
    var p, q := a / w, b / w;
    assert a == p * w + a % w && b == q * w + b % w;
    if p > q {
      MulMono(p, q + 1, w);
      MulSucc(q, w);
    }
  }

  lemma DivBound(i: nat, w: nat, n: nat)
    requires w > 0 && i < n * w
    ensures i / w < n && i == (i / w) * w + i % w
  {
    assert i == (i / w) * w + i % w;
    if i / w >= n { MulMono(i / w, n, w); }
  }
}
