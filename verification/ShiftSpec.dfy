// What a request frame means: one unbroken shift of its bits. The core's word-by-word work adds up to it.

module ShiftSpec {
  import opened Bits
  import opened Jtag
  import opened Arith
  import S = SerDes
  import opened Core

  function Min(a: int, b: int): int {
    if a < b then a else b
  }

  /** Bits that a frame shifts: all announced ones, or the whole words before an early TLAST. */
  function BitCount(w: nat, f: Frame): nat {
    Min(f.len + 1, (|f.p| / 2) * w)
  }

  /** Bit i of the frame: bit i mod w of the TMS and the TDI word of pair i div w. */
  function FrameBits(w: nat, f: Frame): (b: seq<Pin>)
    requires FrameOk(w, f)
    ensures |b| == BitCount(w, f)
  {
    seq(BitCount(w, f), i requires 0 <= i < BitCount(w, f) => FrameBit(w, f, i))
  }

  function FrameBit(w: nat, f: Frame, i: nat): Pin
    requires FrameOk(w, f) && i < BitCount(w, f)
  {
    DivBound(i, w, |f.p| / 2);
    Pin(f.p[2 * (i / w)][i % w], f.p[2 * (i / w) + 1][i % w])
  }

  /** The `k`-th word of width `w` of a bit string, zero-filled. */
  function Piece(w: nat, t: Vec, k: nat): (v: Vec)
    requires w > 0 && k * w <= |t|
    ensures |v| == w
  {
    Pad(w, t[k * w..Min(|t|, k * w + w)])
  }

  lemma PieceBit(w: nat, t: Vec, k: nat, b: nat)
    requires w > 0 && k * w <= |t| && b < w
    ensures Piece(w, t, k)[b] == (k * w + b < |t| && t[k * w + b])
  {
  }

  function WordCount(w: nat, n: nat): nat
    requires w > 0
  {
    (n + w - 1) / w
  }

  lemma WordStart(w: nat, n: nat, k: nat)
    requires w > 0 && k < WordCount(w, n)
    ensures k * w < n
  {
    var q := WordCount(w, n);
    assert n + w - 1 == q * w + (n + w - 1) % w;
    MulMono(q, k + 1, w);
    MulSucc(k, w);
  }

  /** A bit string as little-endian words, the last one zero-filled. */
  function Cut(w: nat, t: Vec): (ws: seq<Vec>)
    requires w > 0
    ensures |ws| == WordCount(w, |t|) && forall k :: 0 <= k < |ws| ==> |ws[k]| == w
  {
    seq(WordCount(w, |t|), k requires 0 <= k < WordCount(w, |t|) => WordStart(w, |t|, k); Piece(w, t, k))
  }

  // ---- the jobs of a frame add up to its bits ----

  /** Pairs before `Pairs` are full except the announced last one. */
  lemma PairBits(w: nat, f: Frame, k: nat)
    requires FrameOk(w, f) && k < Pairs(w, f)
    ensures k * w + BitsIn(w, f, k) == Min(BitCount(w, f), k * w + w)
    ensures k * w < BitCount(w, f)
    ensures k + 1 < Pairs(w, f) ==> k * w + w <= BitCount(w, f) && BitsIn(w, f, k) == w
    ensures k + 1 == Pairs(w, f) ==> k * w + w >= BitCount(w, f)
  {
    var q := f.len / w;
    var r := f.len % w;
    assert f.len == q * w + r;
    MulSucc(k, w);
    MulMono(|f.p| / 2, k + 1, w);
    MulMono(q, k, w);
    if k < q {
      MulMono(q, k + 1, w);
    }
    if k + 1 == |f.p| / 2 {
      MulSucc(k, w);
    }
  }

  lemma {:induction false} JobsBits(w: nat, f: Frame, k: nat)
    requires FrameOk(w, f) && k <= Pairs(w, f)
    ensures Min(BitCount(w, f), k * w) >= 0
    ensures S.AllBits(w, Jobs(w, f, k)) == FrameBits(w, f)[..Min(BitCount(w, f), k * w)]
  {
    if k > 0 {
      var j := k - 1;
      JobsBits(w, f, j);
      PairBits(w, f, j);
      assert Jobs(w, f, k) == Jobs(w, f, j) + [JobOf(w, f, j)];
      S.AllBitsSnoc(w, Jobs(w, f, j), JobOf(w, f, j));
      MulSucc(j, w);
      var b := S.JobBits(JobOf(w, f, j));
      forall m | 0 <= m < |b|
        ensures FrameBits(w, f)[j * w + m] == b[m]
      {
        DivMod(j * w + m, w, j, m);
      }
      assert FrameBits(w, f)[..j * w] + b == FrameBits(w, f)[..Min(BitCount(w, f), k * w)];
    }
  }

  /** The jobs of a whole frame are exactly its bits. */
  lemma FrameIsJobs(w: nat, f: Frame)
    requires FrameOk(w, f) && Pairs(w, f) > 0
    ensures S.AllBits(w, Jobs(w, f, Pairs(w, f))) == FrameBits(w, f)
    ensures Pairs(w, f) == WordCount(w, BitCount(w, f))
  {
    var n := Pairs(w, f);
    JobsBits(w, f, n);
    PairBits(w, f, n - 1);
    MulSucc(n - 1, w);
    assert FrameBits(w, f)[..BitCount(w, f)] == FrameBits(w, f);
    var c := BitCount(w, f);
    DivMod(c + w - 1, w, n, c - 1 - (n - 1) * w);
  }

  lemma ConcatLast<T>(a: seq<T>, b: seq<T>)
    requires b != []
    ensures a + b == (a + b[..|b| - 1]) + [b[|b| - 1]]
  {
  }

  lemma {:induction false} AllBitsConcat(w: nat, a: seq<S.Job>, b: seq<S.Job>)
    requires S.JobsOk(w, a) && S.JobsOk(w, b)
    ensures S.JobsOk(w, a + b) && S.AllBits(w, a + b) == S.AllBits(w, a) + S.AllBits(w, b)
  {
    if b == [] {
      assert a + b == a;
    } else {
      var b' := b[..|b| - 1];
      AllBitsConcat(w, a, b');
      ConcatLast(a, b);
      S.AllBitsSnoc(w, a + b', b[|b| - 1]);
    }
  }

  /** Reply word `k` of the core is piece `k` of one unbroken shift of the whole frame. */
  lemma RepWordIsPiece(w: nat, dev: Device, wb: seq<S.Job>, f: Frame, k: nat)
    requires FrameOk(w, f) && S.JobsOk(w, wb) && k < Pairs(w, f)
    ensures k * w <= BitCount(w, f)
    ensures RepWord(w, dev, wb, f, k) == Piece(w, Tdo(dev, S.AllBits(w, wb), FrameBits(w, f)), k)
  {
    var h := S.AllBits(w, wb);
    var bits := FrameBits(w, f);
    PairBits(w, f, k);
    MulSucc(k, w);
    var lo, hi := k * w, Min(BitCount(w, f), k * w + w);
    ExpectedIsShift(w, dev, wb, f, k, lo, hi);
    TdoSlice(dev, h, bits, lo, hi);
  }

  lemma ExpectedIsShift(w: nat, dev: Device, wb: seq<S.Job>, f: Frame, k: nat, lo: nat, hi: nat)
    requires FrameOk(w, f) && S.JobsOk(w, wb) && k < Pairs(w, f)
    requires lo == k * w && hi == Min(BitCount(w, f), lo + w) && lo <= hi
    ensures var js := wb + Jobs(w, f, k + 1);
            var bits := FrameBits(w, f);
            S.Expected(w, dev, js, |wb| + k) == Tdo(dev, S.AllBits(w, wb) + bits[..lo], bits[lo..hi])
  {
    var bits := FrameBits(w, f);
    var js := wb + Jobs(w, f, k + 1);
    JobsBits(w, f, k);
    JobsBits(w, f, k + 1);
    MulSucc(k, w);
    assert js[..|wb| + k] == wb + Jobs(w, f, k);
    AllBitsConcat(w, wb, Jobs(w, f, k));
    assert Jobs(w, f, k + 1) == Jobs(w, f, k) + [JobOf(w, f, k)];
    S.AllBitsSnoc(w, Jobs(w, f, k), JobOf(w, f, k));
    var b := S.JobBits(JobOf(w, f, k));
    assert bits[..hi] == bits[..lo] + b;
    assert b == bits[..hi][lo..];
    assert bits[..hi][lo..] == bits[lo..hi];
  }

  /** Part of a shift is a shift with a longer history. */
  lemma TdoSlice(dev: Device, h: seq<Pin>, bits: seq<Pin>, lo: nat, hi: nat)
    requires lo <= hi <= |bits|
    ensures Tdo(dev, h, bits)[lo..hi] == Tdo(dev, h + bits[..lo], bits[lo..hi])
  {
    forall i | lo <= i < hi
      ensures Tdo(dev, h, bits)[i] == Tdo(dev, h + bits[..lo], bits[lo..hi])[i - lo]
    {
      assert h + bits[..i] == (h + bits[..lo]) + bits[lo..hi][..i - lo];
    }
  }
}
