// What the host's message buffer means to the firmware, and what the reply's bytes mean to the host.

module HostMessage {
  import opened Bits
  import opened Arith
  import opened Jtag
  import opened Header
  import C = Core
  import opened ShiftSpec
  import opened Firmware
  import opened Sizes
  import opened Protocol
  import opened HostSpec
  import opened HostHeader

  /** The first four bytes of the buffer hold the header. */
  predicate HeaderIs(buf: seq<Byte>, h: Vec) {
    |h| == 32 && |buf| >= 4 && Flat(buf[..4]) == h
  }

  lemma HeaderWord(ws: nat, n: nat, buf: seq<Byte>, h: Vec)
    requires ws >= 4 && n > 0 && n * ws <= |buf| && HeaderIs(buf, h)
    ensures ToWords(ws, n, buf)[0][..32] == h
  {
    MulMono(n, 1, ws);
    forall i | 0 <= i < 32
      ensures ToWords(ws, n, buf)[0][i] == h[i]
    {
      WordBit(ws, n, buf, 0, i);
      assert Flat(buf[..4])[i] == buf[i / 8][i % 8];
    }
  }

  lemma SameFields(v: Vec, h: Vec, xid: nat, len: nat)
    requires |v| >= 32 && |h| == 32 && v[..32] == h && Says(h, xid, len)
    ensures Says(v, xid, len)
  {
    SameField(v, h, VER_SHIFT, VER_WIDTH);
    SameField(v, h, CMD_SHIFT, CMD_WIDTH);
    SameField(v, h, XID_SHIFT, XID_WIDTH);
    SameField(v, h, LEN_SHIFT, LEN_WIDTH);
  }

  lemma SameField(v: Vec, h: Vec, shift: nat, width: nat)
    requires |h| <= |v| && v[..|h|] == h && shift + width <= |h|
    ensures Field(v, shift, width) == Field(h, shift, width)
  {
    forall i | shift <= i < shift + width
      ensures v[i] == h[i]
    {
      assert v[i] == v[..|h|][i];
    }
    assert v[shift..shift + width] == h[shift..shift + width];
  }

  // ---- filling the buffer, pair by pair ----

  ghost predicate PairsDone(ws: nat, n: nat, tms: seq<Byte>, tdi: seq<Byte>, buf: seq<Byte>, pairs: nat)
    requires n <= |tms| && n <= |tdi|
  {
    forall k: nat, j: nat :: k < pairs ==> PairAt(ws, n, tms, tdi, buf, k, j)
  }

  /** One more pair of words is copied, or what is left of the vector. */
  lemma AddPair(ws: nat, n: nat, tms: seq<Byte>, tdi: seq<Byte>, buf: seq<Byte>, buf': seq<Byte>, pairs: nat, len: nat)
    requires n <= |tms| && n <= |tdi| && PairsDone(ws, n, tms, tdi, buf, pairs) && ws > 0
    requires len <= ws && pairs * ws + len <= n && (len == ws || pairs * ws + len == n)
    requires var wp := ws + 2 * (pairs * ws);
             && wp + ws + len <= |buf| == |buf'| && buf'[..wp] == buf[..wp]
             && buf'[wp..wp + len] == tms[pairs * ws..pairs * ws + len]
             && buf'[wp + ws..wp + ws + len] == tdi[pairs * ws..pairs * ws + len]
    ensures PairsDone(ws, n, tms, tdi, buf', pairs + 1)
  {
    var wp := ws + 2 * (pairs * ws);
    forall k: nat, j: nat | k < pairs + 1
      ensures PairAt(ws, n, tms, tdi, buf', k, j)
    {
      if k < pairs {
        assert PairAt(ws, n, tms, tdi, buf, k, j);
        MulMono(pairs, k + 1, ws);
        MulSucc(k, ws);
        KeptPair(ws, n, tms, tdi, buf, buf', k, j, wp);
      } else {
        NewPair(ws, n, tms, tdi, buf', pairs, j, len);
      }
    }
  }

  lemma KeptPair(ws: nat, n: nat, tms: seq<Byte>, tdi: seq<Byte>, buf: seq<Byte>, buf': seq<Byte>, k: nat, j: nat,
                 wp: nat)
    requires n <= |tms| && n <= |tdi| && PairAt(ws, n, tms, tdi, buf, k, j)
    requires wp <= |buf| == |buf'| && buf'[..wp] == buf[..wp] && ws + 2 * (k * ws) + 2 * ws <= wp
    ensures PairAt(ws, n, tms, tdi, buf', k, j)
  {
    var at := ws + 2 * (k * ws) + j;
    if j < ws {
      assert buf'[at] == buf'[..wp][at] && buf'[at + ws] == buf'[..wp][at + ws];
    }
  }

  lemma NewPair(ws: nat, n: nat, tms: seq<Byte>, tdi: seq<Byte>, buf: seq<Byte>, k: nat, j: nat, len: nat)
    requires n <= |tms| && n <= |tdi| && len <= ws && k * ws + len <= n && (len == ws || k * ws + len == n)
    requires var wp := ws + 2 * (k * ws);
             && wp + ws + len <= |buf|
             && buf[wp..wp + len] == tms[k * ws..k * ws + len]
               && buf[wp + ws..wp + ws + len] == tdi[k * ws..k * ws + len]
    ensures PairAt(ws, n, tms, tdi, buf, k, j)
  {
    var wp := ws + 2 * (k * ws);
    if j < len {
      assert buf[wp + j] == buf[wp..wp + len][j];
      assert buf[wp + ws + j] == buf[wp + ws..wp + ws + len][j];
    }
  }

  lemma AllPairs(ws: nat, bits: nat, tms: seq<Byte>, tdi: seq<Byte>, buf: seq<Byte>, pairs: nat)
    requires ws > 0 && ByteCeil(bits) <= |tms| && ByteCeil(bits) <= |tdi|
    requires |buf| == ws + 2 * (WordsFor(ws, bits) * ws)
    requires PairsDone(ws, ByteCeil(bits), tms, tdi, buf, pairs) && pairs * ws >= ByteCeil(bits)
    ensures Interleaved(ws, bits, tms, tdi, buf)
  {
    forall k: nat, j: nat
      ensures PairAt(ws, ByteCeil(bits), tms, tdi, buf, k, j)
    {
      if k >= pairs { MulMono(k, pairs, ws); }
    }
  }

  /** A vector the target can take in one go. */
  predicate VectorFits(cfg: Cfg, bits: nat) {
    0 < bits <= MAX_BITS && (cfg.depth > 0 ==> ByteCeil(bits) <= cfg.depth * cfg.bytes)
  }

  /** It passes the firmware's length check and fits the replay memory, whatever the word width. */
  lemma FitsTarget(cfg: Cfg, bits: nat)
    requires CfgOk(cfg) && VectorFits(cfg, bits)
    ensures LenFits(cfg, bits - 1)
    ensures cfg.depth > 0 ==> (bits - 1) / Width(cfg) + 1 <= cfg.depth
  {
    var w := Width(cfg);
    UnitBounds(cfg);
    if cfg.depth > 0 {
      assert cfg.depth * w == 8 * (cfg.depth * cfg.bytes);
      MulMono(Unit(cfg), w, cfg.depth);
      assert Unit(cfg) * cfg.depth == cfg.depth * Unit(cfg) && w * cfg.depth == cfg.depth * w;
      AnnouncedFits(w, bits - 1, cfg.depth);
    }
    LenFitsExactly(cfg, bits - 1);
  }

  /** What `sendVectors` puts into its buffer. */
  ghost predicate MessageFor(cfg: Cfg, xid: nat, bits: nat, tms: seq<Byte>, tdi: seq<Byte>, buf: seq<Byte>)
    requires ByteCeil(bits) <= |tms| && ByteCeil(bits) <= |tdi| && cfg.bytes > 0 && bits > 0
  {
    && Interleaved(cfg.bytes, bits, tms, tdi, buf)
    && HeaderIs(buf, MkShift(xid, bits))
  }

  function MessageWords(cfg: Cfg, bits: nat, buf: seq<Byte>): (m: Msg)
    requires cfg.bytes > 0 && |buf| == cfg.bytes + 2 * (WordsFor(cfg.bytes, bits) * cfg.bytes)
    ensures |m| == 1 + 2 * WordsFor(cfg.bytes, bits)
    ensures forall k :: 0 <= k < |m| ==> |m[k]| == Width(cfg)
  {
    PairPlaces(cfg.bytes, 0, WordsFor(cfg.bytes, bits));
    ToWords(cfg.bytes, 1 + 2 * WordsFor(cfg.bytes, bits), buf)
  }

  lemma MessageParts(cfg: Cfg, xid: nat, bits: nat, tms: seq<Byte>, tdi: seq<Byte>, buf: seq<Byte>) returns (m: Msg)
    requires CfgOk(cfg) && 0 < bits <= MAX_BITS && xid < 256
    requires ByteCeil(bits) <= |tms| && ByteCeil(bits) <= |tdi| && MessageFor(cfg, xid, bits, tms, tdi, buf)
    ensures m == MessageWords(cfg, bits, buf) && |m| == 1 + 2 * ((bits - 1) / Width(cfg) + 1)
    ensures RequestOk(cfg, m) && Len(m[0]) == bits - 1
    ensures Version(m[0]) == PRO_VERSION && Command(m[0]) == CMD_TRANS && Xid(m[0]) == xid
  {
    var n := WordsFor(cfg.bytes, bits);
    m := MessageWords(cfg, bits, buf);
    HeaderFields(xid, bits);
    PairPlaces(cfg.bytes, 0, n);
    HeaderWord(cfg.bytes, 1 + 2 * n, buf, MkShift(xid, bits));
    SameFields(m[0], MkShift(xid, bits), xid, bits - 1);
    WordsForBits(cfg.bytes, bits);
  }

  lemma PartsMakeShift(cfg: Cfg, xid: nat, bits: nat, m: Msg)
    requires CfgOk(cfg) && VectorFits(cfg, bits) && RequestOk(cfg, m) && Len(m[0]) == bits - 1
    requires |m| == 1 + 2 * ((bits - 1) / Width(cfg) + 1)
    requires Version(m[0]) == PRO_VERSION && Command(m[0]) == CMD_TRANS && Xid(m[0]) == xid
    ensures ShiftMsg(cfg, xid, m)
  {
    FitsTarget(cfg, bits);
  }

  /** The buffer is a well-formed shift message; */
  lemma MessageIsShift(cfg: Cfg, xid: nat, bits: nat, tms: seq<Byte>, tdi: seq<Byte>, buf: seq<Byte>)
    requires CfgOk(cfg) && VectorFits(cfg, bits) && xid < 256
    requires ByteCeil(bits) <= |tms| && ByteCeil(bits) <= |tdi| && MessageFor(cfg, xid, bits, tms, tdi, buf)
    ensures ShiftMsg(cfg, xid, MessageWords(cfg, bits, buf)) && Len(MessageWords(cfg, bits, buf)[0]) == bits - 1
  {
    var m := MessageParts(cfg, xid, bits, tms, tdi, buf);
    PartsMakeShift(cfg, xid, bits, m);
  }

  lemma MessageBit(cfg: Cfg, bits: nat, tms: seq<Byte>, tdi: seq<Byte>, buf: seq<Byte>, f: C.Frame, i: nat)
    requires CfgOk(cfg) && 0 < bits && i < bits
    requires ByteCeil(bits) <= |tms| && ByteCeil(bits) <= |tdi| && Interleaved(cfg.bytes, bits, tms, tdi, buf)
    requires C.FrameOk(Width(cfg), f) && BitCount(Width(cfg), f) == bits && f.p == MessageWords(cfg, bits, buf)[1..]
    ensures FrameBit(Width(cfg), f, i) == Pin(BitAt(tms, i), BitAt(tdi, i))
  {
    var n := WordsFor(cfg.bytes, bits);
    DivNat(i, Width(cfg));
    var k, b := i / Width(cfg), i % Width(cfg);
    PairPlaces(cfg.bytes, 0, n);
    InterleavedBit(cfg.bytes, bits, tms, tdi, buf, i, k, b, n);
    PairOfMessage(Width(cfg), f, i, MessageWords(cfg, bits, buf), k, b);
  }

  lemma PairOfMessage(w: nat, f: C.Frame, i: nat, m: Msg, k: nat, b: nat)
    requires C.FrameOk(w, f) && i < BitCount(w, f) && |m| > 0 && f.p == m[1..] && k == i / w && b == i % w
    ensures 2 * k + 2 < |m| && |m[2 * k + 1]| == w == |m[2 * k + 2]| && b < w
    ensures FrameBit(w, f, i) == Pin(m[2 * k + 1][b], m[2 * k + 2][b])
  {
    DivBound(i, w, |f.p| / 2);
  }

  /** and its bits are those of the client's vectors: the padding does not matter. */
  lemma MessageMeansVectors(cfg: Cfg, xid: nat, bits: nat, tms: seq<Byte>, tdi: seq<Byte>, buf: seq<Byte>)
    requires CfgOk(cfg) && VectorFits(cfg, bits) && xid < 256
    requires ByteCeil(bits) <= |tms| && ByteCeil(bits) <= |tdi| && MessageFor(cfg, xid, bits, tms, tdi, buf)
    ensures ShiftMsg(cfg, xid, MessageWords(cfg, bits, buf))
    ensures MsgBits(cfg, MessageWords(cfg, bits, buf)) == Planar(bits, tms, tdi)
  {
    var f := FrameOf(MessageWords(cfg, bits, buf));
    MessageIsShift(cfg, xid, bits, tms, tdi, buf);
    CountIsBits(Width(cfg), f, bits);
    forall i | 0 <= i < bits
      ensures FrameBit(Width(cfg), f, i) == Planar(bits, tms, tdi)[i]
    {
      MessageBit(cfg, bits, tms, tdi, buf, f, i);
    }
  }

  lemma CountIsBits(w: nat, f: C.Frame, bits: nat)
    requires w > 0 && bits > 0 && f.len == bits - 1 && |f.p| == 2 * C.Announced(w, f)
    ensures BitCount(w, f) == bits
  {
    var q := f.len / w;
    assert f.len == q * w + f.len % w;
    MulSucc(q, w);
  }

  // ---- the reply ----

  /** Byte `i` of a reply payload. */
  function PayloadByte(ws: nat, words: seq<Vec>, i: nat): Byte
    requires ws > 0 && i < |words| * ws && forall k :: 0 <= k < |words| ==> |words[k]| == 8 * ws
  {
    DivBound(i, ws, |words|);
    words[i / ws][8 * (i % ws)..8 * (i % ws) + 8]
  }

  lemma BytePlace(ws: nat, k: nat, j: nat, b: nat)
    ensures k * (8 * ws) + (8 * j + b) == (k * ws + j) * 8 + b
  {
  }

  lemma PieceOfPiece(ws: nat, t: Vec, k: nat, j: nat)
    requires ws > 0 && j < ws && k * (8 * ws) <= |t| && (k * ws + j) * 8 <= |t|
    ensures Piece(8 * ws, t, k)[8 * j..8 * j + 8] == Piece(8, t, k * ws + j)
  {
    var x, y := Piece(8 * ws, t, k), Piece(8, t, k * ws + j);
    forall b | 0 <= b < 8
      ensures x[8 * j + b] == y[b]
    {
      BytePlace(ws, k, j, b);
      PieceBit(8 * ws, t, k, 8 * j + b);
      PieceBit(8, t, k * ws + j, b);
    }
  }

  lemma WordCountIs(w: nat, n: nat)
    requires w > 0 && n > 0
    ensures WordCount(w, n) == (n - 1) / w + 1
  {
    var q, r := (n - 1) / w, (n - 1) % w;
    assert n - 1 == q * w + r;
    MulSucc(q, w);
    DivMod(n + w - 1, w, q + 1, r);
  }

  lemma PayloadIndex(ws: nat, n: nat, i: nat)
    requires ws > 0 && i < ByteCeil(n)
    ensures i / ws < WordCount(8 * ws, n) && i < WordCount(8 * ws, n) * ws
    ensures i == (i / ws) * ws + i % ws
  {
    var k, j := i / ws, i % ws;
    assert i == k * ws + j;
    assert 8 * i == k * (8 * ws) + 8 * j by { assert k * (8 * ws) == 8 * (k * ws); }
    DivMod(8 * i, 8 * ws, k, 8 * j);
    PairIndex(ws, n, 8 * i);
    WordsForBits(ws, n);
    WordCountIs(8 * ws, n);
  }

  /** The bytes of the reply words of a shift are its TDO bits, byte by byte. */
  lemma PayloadIsPacked(ws: nat, t: Vec, i: nat)
    requires ws > 0 && i < ByteCeil(|t|)
    ensures i < |Cut(8 * ws, t)| * ws
    ensures PayloadByte(ws, Cut(8 * ws, t), i) == Packed(t)[i]
  {
    PayloadIndex(ws, |t|, i);
    WordStart(8, |t|, i);
    WordStart(8 * ws, |t|, i / ws);
    PieceOfPiece(ws, t, i / ws, i % ws);
  }
}
