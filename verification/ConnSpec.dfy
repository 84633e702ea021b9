// What an XVC client session amounts to: messages parsed from the byte stream one after the other, each shift unbroken.

module ConnSpec {
  import opened Bits
  import opened Arith
  import opened Jtag
  import opened ShiftSpec
  import opened HostSpec

  /** What the server is set up with: the longest vector, its greeting, and the TCK period in ns (0 is unknown). */
  datatype Conf = Conf(maxVecLen: nat, info: seq<Byte>, periodNs: nat)

  predicate ConfOk(c: Conf) {
    0 < c.maxVecLen && |c.info| <= c.maxVecLen + 128 && c.periodNs < 0x1_0000_0000
  }

  /** How a session ends: the client has gone, or it sent what the server rejects. */
  datatype End = Gone | Rejected

  datatype Session = Session(sent: seq<Byte>, hist: seq<Pin>, end: End)

  datatype Kind = Info | Period | Shift | Unknown

  function Char(c: char): Byte { BitsOf(c as int, 8) }

  /** Two characters tell the messages apart. */
  function KindOf(s: seq<Byte>): Kind
    requires |s| >= 2
  {
    if s[..2] == [Char('g'), Char('e')] then Info
    else if s[..2] == [Char('s'), Char('e')] then Period
    else if s[..2] == [Char('s'), Char('h')] then Shift
    else Unknown
  }

  /** Little-endian 32-bit number at `at`. */
  function Le32(s: seq<Byte>, at: nat): (n: nat)
    requires at + 4 <= |s|
    ensures n < 0x1_0000_0000
  {
    BitsOfNatOf(Flat(s[at..at + 4]));
    Pow2Of32();
    NatOf(Flat(s[at..at + 4]))
  }

  lemma Pow2Of32()
    ensures Pow2(32) == 0x1_0000_0000
  {
    assert Pow2(8) == 256;
    assert Pow2(16) == 0x10000;
    assert Pow2(24) == 0x1000000;
  }

  function Bytes32(n: nat): (s: seq<Byte>)
    ensures |s| == 4
  {
    var v := BitsOf(n, 32);
    [v[0..8], v[8..16], v[16..24], v[24..32]]
  }

  function NewPeriod(c: Conf, requested: nat): nat {
    if requested == 0 then c.periodNs else if c.periodNs == 0 then requested else c.periodNs
  }

  /** Bits and bytes a shift message announces; 32-bit arithmetic. */
  function ShiftBits(s: seq<Byte>): nat
    requires |s| >= 10
  {
    Le32(s, 6)
  }

  function ShiftBytes(s: seq<Byte>): nat
    requires |s| >= 10
  {
    ((ShiftBits(s) + 7) % 0x1_0000_0000) / 8
  }

  /** One message at the head of the stream: how long it is, what is sent back, and what the target gets to see. */
  datatype Message = Message(len: nat, reply: seq<Byte>, bits: seq<Pin>) | Last(end: End)

  function ParseShift(c: Conf, dev: Device, hist: seq<Pin>, s: seq<Byte>): (m: Message)
    requires |s| >= 2
    ensures m.Message? ==> 0 < m.len <= |s|
  {
    if |s| < 10 then Last(Gone)
    else
      var bits, bytes := ShiftBits(s), ShiftBytes(s);
      if bytes > c.maxVecLen then Last(Rejected)
      else if |s| < 10 + 2 * bytes then Last(Gone)
      else if bits > 8 * bytes then Last(Rejected) // the byte count has wrapped to 0
      else
        var tms, tdi := s[10..10 + bytes], s[10 + bytes..10 + 2 * bytes];
        Message(10 + 2 * bytes, Unbroken(dev, hist, bits, tms, tdi), Planar(bits, tms, tdi))
  }

  function Parse(c: Conf, dev: Device, hist: seq<Pin>, s: seq<Byte>): (m: Message)
    ensures m.Message? ==> 0 < m.len <= |s|
  {
    if |s| < 2 then Last(Gone)
    else
      match KindOf(s)
      case Info => if |s| < 8 then Last(Gone) else Message(8, c.info, [])
      case Period => if |s| < 11 then Last(Gone) else Message(11, Bytes32(NewPeriod(c, Le32(s, 7))), [])
      case Shift => ParseShift(c, dev, hist, s)
      case Unknown => Last(Rejected)
  }

  /** The whole session, as a function of the bytes the client sends and nothing else. */
  function Talk(c: Conf, dev: Device, hist: seq<Pin>, s: seq<Byte>): Session
    decreases |s|
  {
    match Parse(c, dev, hist, s)
    case Last(end) => Session([], hist, end)
    case Message(len, reply, bits) =>
      var z := Talk(c, dev, hist + bits, s[len..]);
      z.(sent := reply + z.sent)
  }

  /** What the target has seen stays seen. */
  lemma {:induction false} HistGrows(c: Conf, dev: Device, hist: seq<Pin>, s: seq<Byte>)
    ensures hist <= Talk(c, dev, hist, s).hist
    decreases |s|
  {
    var m := Parse(c, dev, hist, s);
    if m.Message? { HistGrows(c, dev, hist + m.bits, s[m.len..]); }
  }

  /** The session has a message of the kind `k`. */
  predicate Has(k: Kind, c: Conf, dev: Device, hist: seq<Pin>, s: seq<Byte>)
    decreases |s|
  {
    var m := Parse(c, dev, hist, s);
    m.Message? && (KindOf(s) == k || Has(k, c, dev, hist + m.bits, s[m.len..]))
  }

  /** After a shift, the session does not ask for the greeting again. */
  predicate AsksEarly(c: Conf, dev: Device, hist: seq<Pin>, s: seq<Byte>)
    decreases |s|
  {
    var m := Parse(c, dev, hist, s);
    m.Message? ==>
      if KindOf(s) == Shift then !Has(Info, c, dev, hist + m.bits, s[m.len..])
      else AsksEarly(c, dev, hist + m.bits, s[m.len..])
  }

  /** It does not ask for the greeting at all, or early and in a state `asked` in which that does no harm. */
  predicate AsksInTime(c: Conf, dev: Device, hist: seq<Pin>, s: seq<Byte>, asked: bool) {
    !Has(Info, c, dev, hist, s) || (asked && AsksEarly(c, dev, hist, s))
  }

  /** What asking in time means for the first message. */
  lemma AsksOn(c: Conf, dev: Device, hist: seq<Pin>, s: seq<Byte>, asked: bool)
    ensures var m := Parse(c, dev, hist, s);
            m.Message? && AsksInTime(c, dev, hist, s, asked) ==>
              && (KindOf(s) == Info ==> asked)
              && AsksInTime(c, dev, hist + m.bits, s[m.len..], asked && KindOf(s) != Shift)
  {
  }

  // ---- a shift in chunks ----

  lemma PlanarPart(bits: nat, tms: seq<Byte>, tdi: seq<Byte>, off: nat, n: nat)
    requires bits <= 8 * |tms| && bits <= 8 * |tdi| && 8 * off + n <= bits
    ensures Planar(n, tms[off..], tdi[off..]) == Planar(bits, tms, tdi)[8 * off..8 * off + n]
  {
    forall i | 0 <= i < n
      ensures BitAt(tms[off..], i) == BitAt(tms, 8 * off + i) && BitAt(tdi[off..], i) == BitAt(tdi, 8 * off + i)
    {
      DivMod(8 * off + i, 8, off + i / 8, i % 8);
    }
  }

  /** A shift broken at a byte boundary gives part of the bytes of the unbroken one. */
  lemma UnbrokenPart(dev: Device, hist: seq<Pin>, bits: nat, tms: seq<Byte>, tdi: seq<Byte>, off: nat, n: nat)
    requires bits <= 8 * |tms| && bits <= 8 * |tdi| && 8 * off + n <= bits && (n % 8 == 0 || 8 * off + n == bits)
    ensures off + ByteCeil(n) <= ByteCeil(bits)
    ensures Unbroken(dev, hist + Planar(bits, tms, tdi)[..8 * off], n, tms[off..], tdi[off..])
         == Unbroken(dev, hist, bits, tms, tdi)[off..off + ByteCeil(n)]
  {
    var p := Planar(bits, tms, tdi);
    PlanarPart(bits, tms, tdi, off, n);
    TdoSlice(dev, hist, p, 8 * off, 8 * off + n);
    PackedPart(Tdo(dev, hist, p), off, n);
  }

  lemma PieceShifted(t: Vec, off: nat, n: nat, k: nat)
    requires 8 * off + n <= |t| && 8 * k < n && (8 * k + 8 <= n || 8 * off + n == |t|)
    ensures Piece(8, t[8 * off..8 * off + n], k) == Piece(8, t, off + k)
  {
    var u := t[8 * off..8 * off + n];
    forall b | 0 <= b < 8
      ensures Piece(8, u, k)[b] == Piece(8, t, off + k)[b]
    {
      PieceBit(8, u, k, b);
      PieceBit(8, t, off + k, b);
    }
  }

  lemma PackedPart(t: Vec, off: nat, n: nat)
    requires 8 * off + n <= |t| && (n % 8 == 0 || 8 * off + n == |t|)
    ensures off + ByteCeil(n) <= ByteCeil(|t|)
    ensures Packed(t[8 * off..8 * off + n]) == Packed(t)[off..off + ByteCeil(n)]
  {
    var x, y := Packed(t[8 * off..8 * off + n]), Packed(t)[off..off + ByteCeil(n)];
    forall k | 0 <= k < |x|
      ensures x[k] == y[k]
    {
      PieceShifted(t, off, n, k);
    }
  }

  /** The first `done` bits of a shift are made, and their bytes are in the buffer. */
  predicate Shifted(dev: Device, hist: seq<Pin>, bits: nat, tms: seq<Byte>, tdi: seq<Byte>, done: nat,
                    hist': seq<Pin>, txb: seq<Byte>)
    requires ByteCeil(bits) == |tms| == |tdi|
  {
    && done <= bits && ByteCeil(done) <= |txb|
    && hist' == hist + Planar(bits, tms, tdi)[..done]
    && txb[..ByteCeil(done)] == Unbroken(dev, hist, bits, tms, tdi)[..ByteCeil(done)]
  }

  lemma AllShifted(dev: Device, hist: seq<Pin>, bits: nat, tms: seq<Byte>, tdi: seq<Byte>, hist': seq<Pin>,
                   txb: seq<Byte>)
    requires ByteCeil(bits) == |tms| == |tdi| && Shifted(dev, hist, bits, tms, tdi, bits, hist', txb)
    ensures hist' == hist + Planar(bits, tms, tdi) && |tms| <= |txb|
    ensures txb[..|tms|] == Unbroken(dev, hist, bits, tms, tdi)
  {
    var p, tdo := Planar(bits, tms, tdi), Unbroken(dev, hist, bits, tms, tdi);
    assert p[..bits] == p && tdo[..|tms|] == tdo;
  }

  /** A shift of which the first `done` bits are made, and perhaps one more chunk, is made in part. */
  lemma PartShifted(dev: Device, hist: seq<Pin>, bits: nat, tms: seq<Byte>, tdi: seq<Byte>, done: nat, off: nat,
                    n: nat, h: seq<Pin>, h': seq<Pin>, txb: seq<Byte>)
    requires done == 8 * off
    requires ByteCeil(bits) == |tms| == |tdi| && off <= |tms| && 8 * off + n <= bits
    requires Shifted(dev, hist, bits, tms, tdi, done, h, txb)
    requires n <= 8 * |tms[off..]| && n <= 8 * |tdi[off..]| && (h' == h || h' == h + Planar(n, tms[off..], tdi[off..]))
    ensures hist <= h' <= hist + Planar(bits, tms, tdi)
  {
    var p := Planar(bits, tms, tdi);
    PlanarPart(bits, tms, tdi, off, n);
    Joins(p, hist, 8 * off, n);
    Between(p, hist, if h' == h then 8 * off else 8 * off + n);
  }

  lemma Between<T>(s: seq<T>, base: seq<T>, m: nat)
    requires m <= |s|
    ensures base <= base + s[..m] <= base + s
  {
    assert base + s == (base + s[..m]) + s[m..];
  }

  lemma NoneShifted(dev: Device, hist: seq<Pin>, bits: nat, tms: seq<Byte>, tdi: seq<Byte>, txb: seq<Byte>)
    requires ByteCeil(bits) == |tms| == |tdi|
    ensures Shifted(dev, hist, bits, tms, tdi, 0, hist, txb)
  {
    assert hist + Planar(bits, tms, tdi)[..0] == hist;
  }

  lemma ChunkHist(bits: nat, tms: seq<Byte>, tdi: seq<Byte>, off: nat, n: nat, hist: seq<Pin>, h: seq<Pin>)
    requires ByteCeil(bits) == |tms| == |tdi| && off <= |tms| && 8 * off + n <= bits
    requires n <= 8 * |tms[off..]| && n <= 8 * |tdi[off..]| && h == hist + Planar(bits, tms, tdi)[..8 * off]
    ensures h + Planar(n, tms[off..], tdi[off..]) == hist + Planar(bits, tms, tdi)[..8 * off + n]
  {
    PlanarPart(bits, tms, tdi, off, n);
    Joins(Planar(bits, tms, tdi), hist, 8 * off, n);
  }

  lemma ChunkBytes(dev: Device, hist: seq<Pin>, bits: nat, tms: seq<Byte>, tdi: seq<Byte>, off: nat, n: nat,
                   h: seq<Pin>, txb: seq<Byte>, txb': seq<Byte>)
    requires ByteCeil(bits) == |tms| == |tdi| && 8 * off + n <= bits && (n % 8 == 0 || 8 * off + n == bits)
    requires off <= |tms| && off <= |txb| && off + ByteCeil(n) <= |txb'| && n <= 8 * |tms[off..]|
    requires n <= 8 * |tdi[off..]|
    requires h == hist + Planar(bits, tms, tdi)[..8 * off] && txb[..off] == Unbroken(dev, hist, bits, tms, tdi)[..off]
    requires txb'[..off] == txb[..off] && txb'[off..off + ByteCeil(n)] == Unbroken(dev, h, n, tms[off..], tdi[off..])
    ensures off + ByteCeil(n) <= ByteCeil(bits)
    ensures txb'[..off + ByteCeil(n)] == Unbroken(dev, hist, bits, tms, tdi)[..off + ByteCeil(n)]
  {
    UnbrokenPart(dev, hist, bits, tms, tdi, off, n);
    BytesJoin(Unbroken(dev, hist, bits, tms, tdi), txb, txb', off, ByteCeil(n));
  }

  /** One more chunk adds its bits and bytes to what is done. */
  lemma ChunkDone(dev: Device, hist: seq<Pin>, bits: nat, tms: seq<Byte>, tdi: seq<Byte>, done: nat, off: nat, n: nat,
                  h: seq<Pin>, h': seq<Pin>, txb: seq<Byte>, txb': seq<Byte>)
    requires done == 8 * off
    requires ByteCeil(bits) == |tms| == |tdi| && 8 * off + n <= bits && (n % 8 == 0 || 8 * off + n == bits)
    requires off <= |tms| && off <= |txb| && off + ByteCeil(n) <= |txb'| && n <= 8 * |tms[off..]|
    requires n <= 8 * |tdi[off..]|
    requires Shifted(dev, hist, bits, tms, tdi, done, h, txb) && h' == h + Planar(n, tms[off..], tdi[off..])
    requires txb'[..off] == txb[..off] && txb'[off..off + ByteCeil(n)] == Unbroken(dev, h, n, tms[off..], tdi[off..])
    ensures Shifted(dev, hist, bits, tms, tdi, done + n, h', txb')
  {
    assert ByteCeil(8 * off) == off && ByteCeil(8 * off + n) == off + ByteCeil(n);
    ChunkHist(bits, tms, tdi, off, n, hist, h);
    ChunkBytes(dev, hist, bits, tms, tdi, off, n, h, txb, txb');
  }

  lemma BytesJoin(tdo: seq<Byte>, txb: seq<Byte>, txb': seq<Byte>, off: nat, n: nat)
    requires off <= |txb| && off + n <= |txb'| && off + n <= |tdo|
    requires txb[..off] == tdo[..off] == txb'[..off] && txb'[off..off + n] == tdo[off..off + n]
    ensures txb'[..off + n] == tdo[..off + n]
  {
    Joins(tdo, [], off, n);
    Joins(txb', [], off, n);
  }

  lemma Joins<T>(s: seq<T>, base: seq<T>, lo: nat, n: nat)
    requires lo + n <= |s|
    ensures s[..lo + n] == s[..lo] + s[lo..lo + n]
    ensures base + s[..lo + n] == (base + s[..lo]) + s[lo..lo + n]
  {
  }
}
