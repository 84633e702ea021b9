// The header a host puts in front of a shift, built by or-ing 32-bit numbers, and the message behind it.

module HostHeader {
  import opened Bits
  import opened Arith
  import opened Header
  import opened Protocol

  function Or(a: Vec, b: Vec): (v: Vec)
    requires |a| == |b|
    ensures |v| == |a|
  {
    seq(|a|, i requires 0 <= i < |a| => a[i] || b[i])
  }

  const CMD_S := 0x10000000
  const MAX_BITS := 0x100000

  /** The header for `bits` bits; 32-bit arithmetic, and nothing keeps the length out of the transaction ID. */
  function MkShift(xid: nat, bits: nat): (v: Vec)
    requires bits > 0
    ensures |v| == 32
  {
    Or(Or(BitsOf(CMD_S, 32), BitsOf(xid * 0x100000, 32)), BitsOf(bits - 1, 32))
  }

  // ---- fields of the header ----

  lemma DivDiv(n: nat, p: nat)
    requires p > 0
    ensures (n / 2) / p == n / (2 * p)
  {
    var q := (n / 2) / p;
    var r := (n / 2) % p;
    assert n == 2 * (q * p + r) + n % 2;
    assert q * (2 * p) == 2 * (q * p);
    DivMod(n, 2 * p, q, 2 * r + n % 2);
  }

  lemma {:induction false} SliceOfBits(n: nat, w: nat, lo: nat, k: nat)
    requires lo + k <= w
    ensures BitsOf(n, w)[lo..lo + k] == BitsOf(n / Pow2(lo), k)
    decreases w
  {
    if lo > 0 {
      SliceOfBits(n / 2, w - 1, lo - 1, k);
      assert BitsOf(n, w)[lo..lo + k] == BitsOf(n / 2, w - 1)[lo - 1..lo - 1 + k];
      DivDiv(n, Pow2(lo - 1));
    } else if k > 0 {
      SliceOfBits(n / 2, w - 1, 0, k - 1);
      assert BitsOf(n, w)[0..k] == [n % 2 == 1] + BitsOf(n / 2, w - 1)[0..k - 1];
    }
  }

  lemma {:induction false} BitsOfMultiple(q: nat, w: nat)
    ensures BitsOf(q * Pow2(w), w) == Zeros(w)
  {
    if w > 0 {
      BitsOfMultiple(q, w - 1);
      var p := Pow2(w - 1);
      assert q * Pow2(w) == 2 * (q * p);
      assert BitsOf(q * Pow2(w), w) == [false] + BitsOf(q * p, w - 1);
    }
  }

  /** One field of an or of three numbers, two of which have zeros there. */
  lemma FieldOfOr(a: Vec, b: Vec, c: Vec, lo: nat, k: nat, x: Vec)
    requires |a| == |b| == |c| && lo + k <= |a|
    requires (a[lo..lo + k] == x && b[lo..lo + k] == Zeros(k) == c[lo..lo + k])
          || (b[lo..lo + k] == x && a[lo..lo + k] == Zeros(k) == c[lo..lo + k])
          || (c[lo..lo + k] == x && a[lo..lo + k] == Zeros(k) == b[lo..lo + k])
    ensures Or(Or(a, b), c)[lo..lo + k] == x
  {
    var s := Or(Or(a, b), c)[lo..lo + k];
    forall i | 0 <= i < k
      ensures s[i] == (a[lo..lo + k][i] || b[lo..lo + k][i] || c[lo..lo + k][i])
    {
      assert s[i] == Or(Or(a, b), c)[lo + i] == (Or(a, b)[lo + i] || c[lo + i]);
    }
    assert s == x;
  }

  lemma ZeroSlice(n: nat, lo: nat, k: nat, q: nat)
    requires lo + k <= 32 && n / Pow2(lo) == q * Pow2(k)
    ensures BitsOf(n, 32)[lo..lo + k] == Zeros(k)
  {
    SliceOfBits(n, 32, lo, k);
    BitsOfMultiple(q, k);
  }

  lemma LenOfHeader(xid: nat, bits: nat)
    requires 0 < bits <= MAX_BITS && xid < 256
    ensures Field(MkShift(xid, bits), LEN_SHIFT, LEN_WIDTH) == bits - 1
  {
    SmallPow2();
    NatOfBitsOf(bits - 1, 20);
    ZeroSlice(CMD_S, 0, 20, 256);
    ZeroSlice(xid * 0x100000, 0, 20, xid);
    SliceOfBits(bits - 1, 32, 0, 20);
    FieldOfOr(BitsOf(CMD_S, 32), BitsOf(xid * 0x100000, 32), BitsOf(bits - 1, 32), 0, 20, BitsOf(bits - 1, 20));
  }

  lemma XidOfHeader(xid: nat, bits: nat)
    requires 0 < bits <= MAX_BITS && xid < 256
    ensures Field(MkShift(xid, bits), XID_SHIFT, XID_WIDTH) == xid
  {
    SmallPow2();
    assert xid * 0x100000 / 0x100000 == xid;
    ZeroSlice(CMD_S, 20, 8, 1);
    SliceOfBits(xid * 0x100000, 32, 20, 8);
    ZeroSlice(bits - 1, 20, 8, 0);
    FieldOfOr(BitsOf(CMD_S, 32), BitsOf(xid * 0x100000, 32), BitsOf(bits - 1, 32), 20, 8, BitsOf(xid, 8));
    NatOfBitsOf(xid, 8);
  }

  lemma Pow2Of28()
    ensures Pow2(28) == 0x10000000 && Pow2(30) == 0x40000000
  {
    SmallPow2();
    assert Pow2(24) == 16 * Pow2(20);
    assert Pow2(28) == 16 * Pow2(24);
    assert Pow2(30) == 4 * Pow2(28);
  }

  lemma CommandOfHeader(xid: nat, bits: nat)
    requires 0 < bits <= MAX_BITS && xid < 256
    ensures Field(MkShift(xid, bits), CMD_SHIFT, CMD_WIDTH) == CMD_TRANS
  {
    SmallPow2();
    Pow2Of28();
    assert CMD_S / 0x10000000 == 1 && xid * 0x100000 / 0x10000000 == 0 && (bits - 1) / 0x10000000 == 0;
    FirstOfThree(CMD_S, xid * 0x100000, bits - 1, 28, 2, 1);
  }

  /** A field that only the first of three numbers has bits in. */
  lemma FirstOfThree(a: nat, b: nat, c: nat, lo: nat, k: nat, n: nat)
    requires lo + k <= 32 && n < Pow2(k) && a / Pow2(lo) == n && b / Pow2(lo) == 0 && c / Pow2(lo) == 0
    ensures Field(Or(Or(BitsOf(a, 32), BitsOf(b, 32)), BitsOf(c, 32)), lo, k) == n
  {
    SliceOfBits(a, 32, lo, k);
    ZeroSlice(b, lo, k, 0);
    ZeroSlice(c, lo, k, 0);
    FieldOfOr(BitsOf(a, 32), BitsOf(b, 32), BitsOf(c, 32), lo, k, BitsOf(n, k));
    NatOfBitsOf(n, k);
  }

  lemma VersionOfHeader(xid: nat, bits: nat)
    requires 0 < bits <= MAX_BITS && xid < 256
    ensures Field(MkShift(xid, bits), VER_SHIFT, VER_WIDTH) == PRO_VERSION
  {
    SmallPow2();
    Pow2Of28();
    ZeroSlice(CMD_S, 30, 2, 0);
    ZeroSlice(xid * 0x100000, 30, 2, 0);
    ZeroSlice(bits - 1, 30, 2, 0);
    FieldOfOr(BitsOf(CMD_S, 32), BitsOf(xid * 0x100000, 32), BitsOf(bits - 1, 32), 30, 2, Zeros(2));
    NatOfZeros(Zeros(2));
  }

  predicate Says(h: Vec, xid: nat, len: nat)
    requires |h| >= 32
  {
    Version(h) == PRO_VERSION && Command(h) == CMD_TRANS && Xid(h) == xid && Len(h) == len
  }

  lemma GoodHeader(xid: nat, bits: nat)
    requires 0 < bits <= MAX_BITS && xid < 256
    ensures Says(MkShift(xid, bits), xid, bits - 1)
  {
    LenOfHeader(xid, bits);
    XidOfHeader(xid, bits);
    CommandOfHeader(xid, bits);
    VersionOfHeader(xid, bits);
  }

  /** The header says what it should exactly when the length fits its field. */
  lemma HeaderFields(xid: nat, bits: nat)
    requires bits > 0 && xid < 256
    ensures Says(MkShift(xid, bits), xid, bits - 1) <==> bits <= MAX_BITS
  {
    if bits <= MAX_BITS {
      GoodHeader(xid, bits);
    } else {
      FieldBound(MkShift(xid, bits), LEN_SHIFT, LEN_WIDTH);
      SmallPow2();
    }
  }
}
