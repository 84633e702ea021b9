// The register-driven back ends of the TMEM driver: bit by bit, and 32 bits at a time with the serialiser.

module TmemSdes {
  import opened Bits
  import opened Arith
  import opened Jtag
  import opened ShiftSpec
  import opened HostSpec
  import opened ConnSpec
  import S = SerDes
  import P = Progress

  /** Clocks of half a period of TCK. */
  const CLK_DIV2 := 5

  /** The target as a serialiser sees it that starts after the edges `base`. */
  function Behind(dev: Device, base: seq<Pin>): Device { e => dev(base + e) }

  /** The serialiser and what happened at its ports since those edges. */
  predicate Agree(dev: Device, base: seq<Pin>, r: S.Reg, h: S.Hist) {
    S.Inv(32, CLK_DIV2, Behind(dev, base), r, h)
  }

  /** The serialiser between two words. */
  predicate AtRest(r: S.Reg) {
    && S.Wf(32, CLK_DIV2, r) && r.state == S.Idle
    && r.cnt == -1 && !r.tck && !r.lastBit && r.iReady && !r.oValid
  }

  /** Levels of the bit-bang outputs in the control register. */
  datatype Csr = Csr(tck: bool, tms: bool, tdi: bool)

  /** The pins of one target, which the control register or the serialiser drives. */
  class JtagPort {
    const dev: Device
    var hist: seq<Pin>
    var csr: Csr
    var ser: S.Reg
    var tdoReg: Vec

    constructor (dev: Device)
      ensures this.dev == dev && hist == [] && Valid()
    {
      this.dev, hist, csr, ser, tdoReg := dev, [], Csr(false, true, false), S.Init(32), Zeros(32);
    }

    predicate Valid()
      reads this
    {
      |tdoReg| == 32 && AtRest(ser)
    }

    /** Writes the control register; the target clocks in TMS and TDI when TCK rises. */
    method Write(v: Csr)
      requires Valid()
      modifies this
      ensures Valid() && csr == v
      ensures hist == if v.tck && !old(csr.tck) then old(hist) + [Pin(v.tms, v.tdi)] else old(hist)
    {
      if v.tck && !csr.tck { hist := hist + [Pin(v.tms, v.tdi)]; }
      csr := v;
    }

    /** TDO while TCK is low. */
    method ReadTdo() returns (b: bool)
      requires Valid() && !csr.tck
      ensures b == dev(hist)
    {
      b := dev(hist);
    }

    /** The serialiser and the pins agree on what happened since the edges `base`. */
    predicate Working(base: seq<Pin>, h: S.Hist)
      reads this
    {
      |tdoReg| == 32 && Agree(dev, base, ser, h) && hist == base + h.edges
    }

    /** One clock; the word is on offer while `run`, and whatever the serialiser delivers goes to the register. */
    method Clock(tms: Vec, tdi: Vec, n: nat, run: bool, ghost base: seq<Pin>, ghost h: S.Hist)
      returns (taken: bool, done: bool, ghost h': S.Hist)
      requires Working(base, h) && |tms| == 32 == |tdi| && 1 <= n <= 32
      modifies this`hist, this`ser, this`tdoReg
      ensures Working(base, h') && done == old(ser.oValid)
      ensures run && old(AtRest(ser)) ==> taken
      ensures taken ==> run && h'.jobs == h.jobs + [S.Job(tms, tdi, n)]
      ensures !taken ==> h'.jobs == h.jobs
      ensures h'.outs == if done then h.outs + [tdoReg] else h.outs
      ensures !taken && old(!AtRest(ser)) ==>
                P.SerRank(32, CLK_DIV2, ser) < old(P.SerRank(32, CLK_DIV2, ser))
    {
      var v;
      v, taken, h' := Advance(dev, ser, S.In(n - 1, tms, tdi, run, true, dev(hist)), base, hist, h);
      done := ser.oValid;
      if done { tdoReg := ser.tdo[..32]; }
      if !ser.tck && v.tck { hist := hist + [Pin(v.tms[0], v.tdi[0])]; }
      ser := v;
    }

    /** The serialiser shifts the low `n` bits of a word, clock by clock, until it reports that it is not busy. */
    method RunSerialiser(tms: Vec, tdi: Vec, n: nat)
      requires Valid() && |tms| == 32 == |tdi| && 1 <= n <= 32
      modifies this`hist, this`ser, this`tdoReg
      ensures Valid() && hist == old(hist) + WordPins(tms, tdi, n)
      ensures Suffix(tdoReg, Tdo(dev, old(hist), WordPins(tms, tdi, n)))
    {
      var run, busy := true, false;
      ghost var h := S.NOTHING;
      ghost var job := S.Job(tms, tdi, n);
      while run || busy
        invariant Working(old(hist), h)
        invariant if run then AtRest(ser) && h == S.NOTHING else h.jobs == [job]
        invariant !run ==> h.outs == if busy then [] else [tdoReg]
        decreases run, P.SerRank(32, CLK_DIV2, ser)
      {
        var taken, done;
        AtRestIff(dev, old(hist), ser, h);
        taken, done, h := Clock(tms, tdi, n, run, old(hist), h);
        run, busy := run && !taken, run || (busy && !done);
      }
      AtRestIff(dev, old(hist), ser, h);
      OneWord(dev, old(hist), tms, tdi, n, ser, h);
    }
  }

  /** The registers after one clock, and what it adds to the history. */
  method Advance(ghost dev: Device, r: S.Reg, i: S.In, ghost base: seq<Pin>, ghost hist: seq<Pin>, ghost h: S.Hist)
    returns (v: S.Reg, taken: bool, ghost h': S.Hist)
    requires Agree(dev, base, r, h) && hist == base + h.edges
    requires S.InWf(32, i) && i.ready && i.tdo == dev(hist)
    ensures Agree(dev, base, v, h') && |v.tms| == 32 == |v.tdi|
    ensures taken == S.Takes(r, i)
    ensures h'.jobs == if taken then h.jobs + [S.Job(i.tms, i.tdi, i.numBits + 1)] else h.jobs
    ensures |r.tdo| == 33 && h'.outs == if r.oValid then h.outs + [r.tdo[..32]] else h.outs
    ensures base + h'.edges == if !r.tck && v.tck then hist + [Pin(v.tms[0], v.tdi[0])] else hist
    ensures taken || AtRest(r) || P.SerRank(32, CLK_DIV2, v) < P.SerRank(32, CLK_DIV2, r)
  {
    v := S.Next(32, CLK_DIV2, r, i);
    taken := S.Takes(r, i);
    h' := OneClock(dev, base, hist, r, i, h, v);
    if !taken { Falls(dev, base, r, i, h, v); }
  }

  /** The serialiser is at rest exactly when all words it took are delivered. */
  lemma AtRestIff(dev: Device, base: seq<Pin>, r: S.Reg, h: S.Hist)
    requires Agree(dev, base, r, h)
    ensures AtRest(r) <==> |h.jobs| == |h.outs|
  {
    S.Holds(32, CLK_DIV2, Behind(dev, base), r, h);
  }

  lemma Observed(w: nat, d: nat, r: S.Reg, i: S.In, h: S.Hist, v: S.Reg) returns (h': S.Hist)
    requires S.Wf(w, d, r) && d > 0 && S.InWf(w, i) && i.ready && v == S.Next(w, d, r, i)
    ensures h' == S.Observe(w, d, r, i, h)
    ensures h'.jobs == if S.Takes(r, i) then h.jobs + [S.Job(i.tms, i.tdi, i.numBits + 1)] else h.jobs
    ensures h'.outs == if r.oValid then h.outs + [r.tdo[..w]] else h.outs
    ensures w > 0 && |v.tms| == w == |v.tdi|
    ensures h'.edges == if !r.tck && v.tck then h.edges + [Pin(v.tms[0], v.tdi[0])] else h.edges
  {
    h' := S.Observe(w, d, r, i, h);
  }

  /** What one clock does, if what the serialiser delivers is always taken. */
  lemma OneClock(dev: Device, base: seq<Pin>, hist: seq<Pin>, r: S.Reg, i: S.In, h: S.Hist,
                 v: S.Reg) returns (h': S.Hist)
    requires Agree(dev, base, r, h) && hist == base + h.edges
    requires S.InWf(32, i) && i.ready && i.tdo == dev(hist) && v == S.Next(32, CLK_DIV2, r, i)
    ensures Agree(dev, base, v, h') && |v.tms| == 32 == |v.tdi|
    ensures h'.jobs == if S.Takes(r, i) then h.jobs + [S.Job(i.tms, i.tdi, i.numBits + 1)] else h.jobs
    ensures h'.outs == if r.oValid then h.outs + [r.tdo[..32]] else h.outs
    ensures h'.edges == if !r.tck && v.tck then h.edges + [Pin(v.tms[0], v.tdi[0])] else h.edges
  {
    h' := Observed(32, CLK_DIV2, r, i, h, v);
    S.Step(32, CLK_DIV2, Behind(dev, base), r, i, h);
  }

  /** A clock that takes no word brings the serialiser closer to rest. */
  lemma Falls(dev: Device, base: seq<Pin>, r: S.Reg, i: S.In, h: S.Hist, v: S.Reg)
    requires Agree(dev, base, r, h) && S.InWf(32, i) && i.ready && !S.Takes(r, i)
    requires v == S.Next(32, CLK_DIV2, r, i)
    ensures AtRest(r) || P.SerRank(32, CLK_DIV2, v) < P.SerRank(32, CLK_DIV2, r)
  {
    P.SerGoesOn(32, CLK_DIV2, r, i);
  }

  /** What the invariant says of a single word that was taken and delivered. */
  lemma OneWord(dev: Device, base: seq<Pin>, tms: Vec, tdi: Vec, n: nat, r: S.Reg, h: S.Hist)
    requires |tms| == 32 == |tdi| && 1 <= n <= 32 && AtRest(r) && Agree(dev, base, r, h)
    requires h.jobs == [S.Job(tms, tdi, n)] && |h.outs| == 1
    ensures h.edges == WordPins(tms, tdi, n) && Suffix(h.outs[0], Tdo(dev, base, WordPins(tms, tdi, n)))
  {
    var p := WordPins(tms, tdi, n);
    assert h.jobs[..0] == [];
    assert S.JobBits(h.jobs[0]) == p;
    assert S.AllBits(32, h.jobs) == p;
    assert S.Expected(32, Behind(dev, base), h.jobs, 0) == Tdo(dev, base, p) by {
      forall k | 0 <= k < n ensures base + ([] + p[..k]) == base + p[..k] {}
    }
  }

  /** The low `n` bits of two words on the pins. */
  function WordPins(tms: Vec, tdi: Vec, n: nat): (p: seq<Pin>)
    requires n <= |tms| && n <= |tdi|
    ensures |p| == n
  {
    seq(n, i requires 0 <= i < n => Pin(tms[i], tdi[i]))
  }

  class JtagDriverTmem {
    const port: JtagPort
    const bitBang: bool

    constructor (port: JtagPort, bitBang: bool)
      ensures this.port == port && this.bitBang == bitBang
    {
      this.port, this.bitBang := port, bitBang;
    }

    method Xfer32bb(tms: Vec, tdi: Vec, nbits: nat) returns (tdo: Vec)
      requires port.Valid() && |tms| == 32 == |tdi| && nbits <= 32
      modifies port
      ensures port.Valid() && |tdo| == 32 && port.hist == old(port.hist) + WordPins(tms, tdi, nbits)
      ensures tdo == Tdo(port.dev, old(port.hist), WordPins(tms, tdi, nbits)) + Zeros(32 - nbits)
    {
      ghost var pins := WordPins(tms, tdi, nbits);
      tdo := Zeros(32);
      var csr := Csr(false, false, false);
      for i := 0 to nbits
        invariant port.Valid() && |tdo| == 32 && !csr.tck && port.hist == old(port.hist) + pins[..i]
        invariant tdo == Tdo(port.dev, old(port.hist), pins[..i]) + Zeros(32 - i)
      {
        csr := csr.(tms := tms[i], tdi := tdi[i]);
        port.Write(csr);
        var b := port.ReadTdo();
        TdoSnoc(port.dev, old(port.hist), pins, i);
        tdo := tdo[i := b];
        csr := csr.(tck := true);
        port.Write(csr);
        csr := csr.(tck := false);
      }
      assert pins[..nbits] == pins;
    }

    method Xfer32sdes(tms: Vec, tdi: Vec, nbits: nat) returns (tdo: Vec)
      requires port.Valid() && |tms| == 32 == |tdi| && 1 <= nbits <= 32
      modifies port
      ensures port.Valid() && |tdo| == 32 && port.hist == old(port.hist) + WordPins(tms, tdi, nbits)
      ensures tdo == Tdo(port.dev, old(port.hist), WordPins(tms, tdi, nbits)) + Zeros(32 - nbits)
    {
      port.RunSerialiser(tms, tdi, nbits);
      // shifted down
      tdo := port.tdoReg[32 - nbits..] + Zeros(32 - nbits);
    }

    /**
     A shift message of 4-byte words, word by word: on either back end, target and client cannot tell it from one
     unbroken shift of the vectors in the message.
     */
    method XferSdes(msg: seq<Byte>, bits: nat, ghost tms: seq<Byte>, ghost tdi: seq<Byte>) returns (rx: seq<Byte>)
      requires port.Valid() && 0 < bits && ByteCeil(bits) == |tms| == |tdi| && Interleaved(4, bits, tms, tdi, msg)
      modifies port
      ensures port.Valid() && port.hist == old(port.hist) + Planar(bits, tms, tdi)
      ensures rx == Unbroken(port.dev, old(port.hist), bits, tms, tdi)
    {
      ghost var hist, done := port.hist, 0;
      var nbits, k := bits, 0;
      rx := [];
      NoneShifted(port.dev, hist, bits, tms, tdi, rx);
      while nbits > 0
        invariant 0 <= nbits <= bits && done == bits - nbits && (nbits > 0 ==> done == 32 * k) && |rx| == ByteCeil(done)
        invariant port.Valid() && Shifted(port.dev, hist, bits, tms, tdi, done, port.hist, rx)
      {
        var l, lb := 32, 4;
        if nbits < 32 { l, lb := nbits, (nbits + 7) / 8; }
        rx := XferWord(msg, bits, k, l, lb, rx, tms, tdi, hist);
        done := done + l;
        k := k + 1;
        nbits := nbits - l;
      }
      AllShifted(port.dev, hist, bits, tms, tdi, port.hist, rx);
      assert rx[..|tms|] == rx;
    }

    /** One pair of words. */
    method XferWord(msg: seq<Byte>, bits: nat, k: nat, l: nat, lb: nat, rx: seq<Byte>,
                    ghost tms: seq<Byte>, ghost tdi: seq<Byte>, ghost hist: seq<Pin>)
      returns (rx': seq<Byte>)
      requires port.Valid() && ByteCeil(bits) == |tms| == |tdi| && Interleaved(4, bits, tms, tdi, msg)
      requires 1 <= l <= 32 && lb == ByteCeil(l) && 32 * k + l <= bits && (l == 32 || 32 * k + l == bits)
      requires |rx| == 4 * k
      requires Shifted(port.dev, hist, bits, tms, tdi, 32 * k, port.hist, rx)
      modifies port
      ensures port.Valid() && |rx'| == ByteCeil(32 * k + l)
      ensures Shifted(port.dev, hist, bits, tms, tdi, 32 * k + l, port.hist, rx')
    {
      var pi := 4 + 8 * k;
      WordInMessage(bits, tms, tdi, msg, k);
      WordIsPart(bits, tms, tdi, msg, k, l);
      ghost var h := port.hist;
      var bytes := XferPair(Flat(msg[pi..pi + 4]), Flat(msg[pi + 4..pi + 8]), l, lb);
      rx' := rx + bytes;
      PairDone(port.dev, hist, bits, tms, tdi, k, l, h, rx, bytes);
    }

    /** A TMS and a TDI word on the back end that is in use. */
    method XferPair(w: Vec, v: Vec, l: nat, lb: nat) returns (bytes: seq<Byte>)
      requires port.Valid() && |w| == 32 == |v| && 1 <= l <= 32 && lb == ByteCeil(l)
      modifies port
      ensures port.Valid() && port.hist == old(port.hist) + WordPins(w, v, l)
      ensures bytes == Packed(Tdo(port.dev, old(port.hist), WordPins(w, v, l)))
    {
      var tdo;
      if bitBang { tdo := Xfer32bb(w, v, l); } else { tdo := Xfer32sdes(w, v, l); }
      bytes := StoreWord(tdo, lb, Tdo(port.dev, old(port.hist), WordPins(w, v, l)));
    }

    /** The low bytes of a word, as many as the sample `t` in it takes. */
    method StoreWord(v: Vec, lb: nat, ghost t: Vec) returns (bs: seq<Byte>)
      requires |t| <= 32 && v == t + Zeros(32 - |t|) && lb == ByteCeil(|t|)
      ensures bs == Packed(t)
    {
      bs := [];
      for j := 0 to lb
        invariant |bs| == j && forall i :: 0 <= i < j ==> bs[i] == v[8 * i..8 * i + 8]
      {
        bs := bs + [v[8 * j..8 * j + 8]];
      }
      forall j | 0 <= j < lb
        ensures bs[j] == Packed(t)[j]
      {
        WordStart(8, |t|, j);
        ByteOfWord(v, t, j);
      }
    }
  }

  /** One more pair adds its bits and bytes to what is done. */
  lemma PairDone(dev: Device, hist: seq<Pin>, bits: nat, tms: seq<Byte>, tdi: seq<Byte>, k: nat, l: nat,
                 h: seq<Pin>, rx: seq<Byte>, bytes: seq<Byte>)
    requires ByteCeil(bits) == |tms| == |tdi| && 1 <= l <= 32 && 32 * k + l <= bits && (l == 32 || 32 * k + l == bits)
    requires |rx| == 4 * k && Shifted(dev, hist, bits, tms, tdi, 32 * k, h, rx)
    requires bytes == Packed(Tdo(dev, h, Planar(bits, tms, tdi)[32 * k..32 * k + l]))
    ensures |rx + bytes| == ByteCeil(32 * k + l)
    ensures Shifted(dev, hist, bits, tms, tdi, 32 * k + l, h + Planar(bits, tms, tdi)[32 * k..32 * k + l], rx + bytes)
  {
    var off, rx' := PairPlace(bits, k, l, rx, bytes);
    PlanarPart(bits, tms, tdi, off, l);
    ChunkDone(dev, hist, bits, tms, tdi, 32 * k, off, l, h, h + Planar(l, tms[off..], tdi[off..]), rx, rx');
  }

  lemma PairPlace(bits: nat, k: nat, l: nat, rx: seq<Byte>, bytes: seq<Byte>) returns (off: nat, rx': seq<Byte>)
    requires 32 * k + l <= bits && |rx| == 4 * k && |bytes| == ByteCeil(l)
    ensures off == 4 * k && 8 * off == 32 * k && rx' == rx + bytes && |rx'| == off + ByteCeil(l) == ByteCeil(32 * k + l)
    ensures rx'[..off] == rx[..off] && rx'[off..off + ByteCeil(l)] == bytes
    ensures l <= 8 * (ByteCeil(bits) - off)
  {
    off, rx' := 4 * k, rx + bytes;
  }

  lemma ByteOfWord(v: Vec, t: Vec, j: nat)
    requires |t| <= 32 && v == t + Zeros(32 - |t|) && 8 * j < |t| && j < 4
    ensures v[8 * j..8 * j + 8] == Piece(8, t, j)
  {
    forall b | 0 <= b < 8
      ensures v[8 * j..8 * j + 8][b] == Piece(8, t, j)[b]
    {
      PieceBit(8, t, j, b);
    }
  }

  lemma WordInMessage(bits: nat, tms: seq<Byte>, tdi: seq<Byte>, msg: seq<Byte>, k: nat)
    requires ByteCeil(bits) == |tms| == |tdi| && Interleaved(4, bits, tms, tdi, msg) && 32 * k < bits
    ensures 4 + 8 * k + 8 <= |msg|
  {
    WordsForBits(4, bits);
  }

  /** Pair `k` of the message asks for bits 32k and following of the vectors. */
  lemma WordIsPart(bits: nat, tms: seq<Byte>, tdi: seq<Byte>, msg: seq<Byte>, k: nat, l: nat)
    requires ByteCeil(bits) == |tms| == |tdi| && Interleaved(4, bits, tms, tdi, msg)
    requires l <= 32 && 32 * k + l <= bits && 4 + 8 * k + 8 <= |msg|
    ensures WordPins(Flat(msg[4 + 8 * k..8 + 8 * k]), Flat(msg[8 + 8 * k..12 + 8 * k]), l)
         == Planar(bits, tms, tdi)[32 * k..32 * k + l]
  {
    var a, b := WordPins(Flat(msg[4 + 8 * k..8 + 8 * k]), Flat(msg[8 + 8 * k..12 + 8 * k]), l),
                Planar(bits, tms, tdi)[32 * k..32 * k + l];
    forall i | 0 <= i < l
      ensures a[i] == b[i]
    {
      assert PairAt(4, ByteCeil(bits), tms, tdi, msg, k, i / 8);
      DivMod(32 * k + i, 8, 4 * k + i / 8, i % 8);
    }
  }
}
