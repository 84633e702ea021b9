// The host's byte buffers: what a message laid out in bytes says, and what an unbroken shift of bytes is.

module HostSpec {
  import opened Bits
  import opened Arith
  import opened Jtag
  import opened ShiftSpec
  import opened Protocol

  /** Eight bits, the least significant first. */
  type Byte = b: Vec | |b| == 8 witness [false, false, false, false, false, false, false, false]

  const ZERO_BYTE: Byte := [false, false, false, false, false, false, false, false]

  /** Bit `i` of a byte string. */
  function BitAt(bs: seq<Byte>, i: nat): bool
    requires i < 8 * |bs|
  {
    bs[i / 8][i % 8]
  }

  /** A byte string as one long bit vector. */
  function Flat(bs: seq<Byte>): (v: Vec)
    ensures |v| == 8 * |bs|
  {
    seq(8 * |bs|, i requires 0 <= i < 8 * |bs| => BitAt(bs, i))
  }

  function ByteCeil(bits: nat): nat { (bits + 7) / 8 }

  /** The pins that the first `n` bits of two byte strings ask for. */
  function Planar(n: nat, tms: seq<Byte>, tdi: seq<Byte>): (p: seq<Pin>)
    requires n <= 8 * |tms| && n <= 8 * |tdi|
    ensures |p| == n
  {
    seq(n, i requires 0 <= i < n => Pin(BitAt(tms, i), BitAt(tdi, i)))
  }

  /** A bit string as bytes, the last one zero-filled. */
  function Packed(t: Vec): (bs: seq<Byte>)
    ensures |bs| == ByteCeil(|t|)
  {
    seq(ByteCeil(|t|), k requires 0 <= k < ByteCeil(|t|) => WordStart(8, |t|, k); Piece(8, t, k))
  }

  /** What a client gets for a shift of `n` bits that is not broken up in any way. */
  function Unbroken(dev: Device, hist: seq<Pin>, n: nat, tms: seq<Byte>, tdi: seq<Byte>): (tdo: seq<Byte>)
    requires n <= 8 * |tms| && n <= 8 * |tdi|
    ensures |tdo| == ByteCeil(n)
  {
    Packed(Tdo(dev, hist, Planar(n, tms, tdi)))
  }

  // ---- messages as bytes ----

  /** Stream word `k` of a message. */
  function WordAt(ws: nat, buf: seq<Byte>, k: nat): (v: Vec)
    requires k * ws + ws <= |buf|
    ensures |v| == 8 * ws
  {
    Flat(buf[k * ws..k * ws + ws])
  }

  function ToWords(ws: nat, n: nat, buf: seq<Byte>): (m: Msg)
    requires n * ws <= |buf|
    ensures |m| == n && forall k :: 0 <= k < n ==> |m[k]| == 8 * ws
  {
    seq(n, k requires 0 <= k < n => MulMono(n, k + 1, ws); MulSucc(k, ws); WordAt(ws, buf, k))
  }

  /** Words a vector of `bits` bits takes. */
  function WordsFor(ws: nat, bits: nat): nat
    requires ws > 0
  {
    (ByteCeil(bits) + ws - 1) / ws
  }

  /**
   The buffer holds the vector word by word, a TMS word before each TDI word, behind a header of one word; whatever
   stands behind the last byte of the vector in its last words is arbitrary.
   */
  ghost predicate Interleaved(ws: nat, bits: nat, tms: seq<Byte>, tdi: seq<Byte>, buf: seq<Byte>)
    requires ws > 0 && ByteCeil(bits) <= |tms| && ByteCeil(bits) <= |tdi|
  {
    && |buf| == ws + 2 * (WordsFor(ws, bits) * ws)
    && forall k: nat, j: nat :: PairAt(ws, ByteCeil(bits), tms, tdi, buf, k, j)
  }

  /** Byte `j` of pair `k`, if the vector has it. */
  predicate PairAt(ws: nat, n: nat, tms: seq<Byte>, tdi: seq<Byte>, buf: seq<Byte>, k: nat, j: nat)
    requires n <= |tms| && n <= |tdi|
  {
    var i := k * ws + j;
    var at := ws + 2 * (k * ws) + j;
    j < ws && i < n ==> at + ws < |buf| && buf[at] == tms[i] && buf[at + ws] == tdi[i]
  }

  lemma ByteIndex(ws: nat, i: nat)
    requires ws > 0
    ensures var w := 8 * ws;
            var k, m := i / w, i % w;
            && i / 8 == k * ws + m / 8 && i % 8 == m % 8 && m / 8 < ws
  {
    var w := 8 * ws;
    var k, m := i / w, i % w;
    assert i == k * w + m;
    assert k * w == 8 * (k * ws);
    DivMod(i, 8, k * ws + m / 8, m % 8);
  }

  /** Word count in bytes, and in bits. */
  lemma WordsForBits(ws: nat, bits: nat)
    requires ws > 0 && bits > 0
    ensures WordsFor(ws, bits) == (bits - 1) / (8 * ws) + 1 && WordsFor(ws, bits) * ws >= ByteCeil(bits)
  {
    var b := ByteCeil(bits);
    ByteIndex(ws, bits - 1);
    var k := (bits - 1) / (8 * ws);
    assert b == (bits - 1) / 8 + 1;
    MulSucc(k, ws);
    DivMod(b + ws - 1, ws, k + 1, b - 1 - k * ws);
  }

  lemma WordBit(ws: nat, n: nat, buf: seq<Byte>, k: nat, m: nat)
    requires n * ws <= |buf| && k < n && m < 8 * ws
    ensures k * ws + m / 8 < |buf|
    ensures ToWords(ws, n, buf)[k][m] == buf[k * ws + m / 8][m % 8]
  {
    MulMono(n, k + 1, ws);
    MulSucc(k, ws);
  }

  /** Where the bytes of a pair are. */
  lemma PairPlaces(ws: nat, k: nat, n: nat)
    ensures (2 * k + 1) * ws == ws + 2 * (k * ws)
    ensures (2 * k + 2) * ws == ws + 2 * (k * ws) + ws
    ensures (1 + 2 * n) * ws == ws + 2 * (n * ws)
  {
  }

  lemma PairIndex(ws: nat, bits: nat, i: nat)
    requires ws > 0 && i < bits
    ensures i / (8 * ws) < WordsFor(ws, bits)
  {
    var w := 8 * ws;
    var k, q := i / w, (bits - 1) / w;
    WordsForBits(ws, bits);
    ByteIndex(ws, i);
    DivMono(i, bits - 1, w);
  }

  /** TMS and TDI bit `i` of the interleaved message: bit `m` of pair `k`. */
  lemma InterleavedBit(ws: nat, bits: nat, tms: seq<Byte>, tdi: seq<Byte>, buf: seq<Byte>, i: nat, k: nat, m: nat,
                       n: nat)
    requires ws > 0 && ByteCeil(bits) <= |tms| && ByteCeil(bits) <= |tdi| && i < bits
    requires Interleaved(ws, bits, tms, tdi, buf)
    requires k == i / (8 * ws) && m == i % (8 * ws) && n == WordsFor(ws, bits) && (1 + 2 * n) * ws == |buf|
    ensures k < n
    ensures ToWords(ws, 1 + 2 * n, buf)[2 * k + 1][m] == BitAt(tms, i)
    ensures ToWords(ws, 1 + 2 * n, buf)[2 * k + 2][m] == BitAt(tdi, i)
  {
    PairIndex(ws, bits, i);
    ByteIndex(ws, i);
    PairPlaces(ws, k, n);
    assert PairAt(ws, ByteCeil(bits), tms, tdi, buf, k, m / 8);
    WordBit(ws, 1 + 2 * n, buf, 2 * k + 1, m);
    WordBit(ws, 1 + 2 * n, buf, 2 * k + 2, m);
  }
}
