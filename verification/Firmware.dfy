// The firmware seen message by message: what one framed request does to it and what it answers.

module Firmware {
  import opened Bits
  import opened Arith
  import opened Jtag
  import opened Header
  import opened Core
  import opened ShiftSpec

  /** The generics: stream width in bytes, half period of TCK in clocks, memory depth in words, encoded TCK period. */
  datatype Cfg = Cfg(bytes: nat, d: nat, depth: nat, period: nat)

  predicate CfgOk(cfg: Cfg) {
    4 <= cfg.bytes <= 16 && cfg.d > 0 && cfg.depth < 0x10000 && cfg.period < 0x100
  }

  function Width(cfg: Cfg): nat { 8 * cfg.bytes }

  /** Transaction ID and reply of the last shift; `mem` is meaningful only while `memValid`. */
  datatype Fw = Fw(xid: nat, memValid: bool, mem: seq<Vec>)

  const POWER_UP := Fw(0, false, [])

  /** A request: header word and payload, TLAST on the last word. */
  predicate RequestOk(cfg: Cfg, req: seq<Vec>) {
    CfgOk(cfg) && |req| >= 1 && forall k :: 0 <= k < |req| ==> |req[k]| == Width(cfg)
  }

  /** Smallest k with 2^k >= n. */
  function Log2(n: nat): (k: nat) {
    if n <= 1 then 0 else 1 + Log2((n + 1) / 2)
  }

  /** Does a shift of `len` + 1 bits fit the memory? The arithmetic is on 21-bit numbers. */
  predicate LenFits(cfg: Cfg, len: nat) {
    var unit := Pow2(Log2(Width(cfg)));
    cfg.depth > 0 ==> ((len + 1 + (unit - 1)) % 0x200000) / unit <= cfg.depth
  }

  predicate CheckLen(cfg: Cfg, hdr: Vec)
    requires |hdr| >= 32
  {
    LenFits(cfg, Len(hdr))
  }

  predicate XidIsNew(cfg: Cfg, fw: Fw, hdr: Vec)
    requires |hdr| >= 32
  {
    cfg.depth == 0 || !fw.memValid || Xid(hdr) != fw.xid
  }

  datatype Verdict = BadVersion | Query | Truncated | Retry | Run | BadCommand

  /** How the header (and whether it is the whole frame) decides what is done with a request. */
  function Classify(cfg: Cfg, fw: Fw, hdr: Vec, alone: bool): Verdict
    requires |hdr| >= 32
  {
    if Version(hdr) != PRO_VERSION then BadVersion
    else if Command(hdr) == CMD_QUERY then Query
    else if Command(hdr) == CMD_TRANS then
      if alone || !CheckLen(cfg, hdr) then Truncated
      else if XidIsNew(cfg, fw, hdr) then Run
      else Retry
    else BadCommand
  }

  function FrameOf(req: seq<Vec>): Frame
    requires |req| >= 1 && |req[0]| >= 32
  {
    Frame(Len(req[0]), req[1..])
  }

  datatype Answer = Answer(fw: Fw, reply: seq<Vec>, hist: seq<Pin>)

  /** The firmware's answer to a request; `hist` is everything clocked into the target so far. */
  function Serve(cfg: Cfg, dev: Device, hist: seq<Pin>, fw: Fw, req: seq<Vec>): Answer
    requires RequestOk(cfg, req)
  {
    var hdr := req[0];
    match Classify(cfg, fw, hdr, |req| == 1)
    case BadVersion => Answer(fw, [SetErr(SetVersion(hdr), ERR_BAD_VERSION)], hist)
    case BadCommand => Answer(fw, [SetErr(hdr, ERR_BAD_COMMAND)], hist)
    case Truncated => Answer(fw, [SetErr(hdr, ERR_TRUNCATED)], hist)
    case Query => Answer(fw.(memValid := false), [SetQueryData(hdr, cfg.bytes, cfg.depth, cfg.period)], hist)
    case Retry => Answer(fw, [hdr] + fw.mem, hist)
    case Run =>
      if |req| == 2 then Answer(Fw(Xid(hdr), false, []), [SetErr(hdr, ERR_TRUNCATED)], hist)
      else
        var bits := FrameBits(Width(cfg), FrameOf(req));
        var words := Cut(Width(cfg), Tdo(dev, hist, bits));
        Answer(Fw(Xid(hdr), cfg.depth > 0, words), [hdr] + words, hist + bits)
  }

  /** A shift that is run must not be cut by TLAST on a TMS word other than the first, and must fit the memory. */
  predicate Admissible(cfg: Cfg, fw: Fw, req: seq<Vec>)
    requires RequestOk(cfg, req)
  {
    Classify(cfg, fw, req[0], |req| == 1) == Run && |req| > 2 ==>
      && Clean(Width(cfg), FrameOf(req))
      && (cfg.depth > 0 ==> Pairs(Width(cfg), FrameOf(req)) <= cfg.depth)
  }

  /** Without TLAST before the end of the data, a frame shifts all announced bits. */
  lemma FullCount(w: nat, f: Frame)
    requires w > 0 && |f.p| >= 2 * Announced(w, f)
    ensures BitCount(w, f) == f.len + 1
  {
    var q := f.len / w;
    assert f.len == q * w + f.len % w;
    MulMono(|f.p| / 2, q + 1, w);
    MulSucc(q, w);
  }

  /** What `ShiftAnswer` says of the edges: bit i of the TMS and TDI words is what the target sees at edge i. */
  ghost predicate EdgesMatch(w: nat, req: seq<Vec>, hist: seq<Pin>, h: nat, n: nat)
    requires w > 0
  {
    forall i :: 0 <= i < n ==> PinIs(w, req, hist, h, i)
  }

  /** And of the reply: bit i is TDO just before edge i, and above the last one there are zeros. */
  ghost predicate SamplesMatch(w: nat, dev: Device, hist: seq<Pin>, h: nat, words: seq<Vec>, n: nat)
    requires w > 0
  {
    && |words| == WordCount(w, n)
    && forall k, b {:trigger SampleIs(w, dev, hist, h, words, n, k, b)} ::
         0 <= k < |words| && 0 <= b < w ==> SampleIs(w, dev, hist, h, words, n, k, b)
  }

  /** What running a shift amounts to, bit by bit, with no reference to how the words are cut. */
  lemma ShiftAnswer(cfg: Cfg, dev: Device, hist: seq<Pin>, fw: Fw, req: seq<Vec>)
    requires RequestOk(cfg, req) && Classify(cfg, fw, req[0], |req| == 1) == Run && |req| > 2
    ensures var w := Width(cfg);
            var n := BitCount(w, FrameOf(req));
            var a := Serve(cfg, dev, hist, fw, req);
            && (|req| - 1 >= 2 * Announced(w, FrameOf(req)) ==> n == Len(req[0]) + 1)
            && |a.hist| == |hist| + n && a.hist[..|hist|] == hist
            && EdgesMatch(w, req, a.hist, |hist|, n)
            && |a.reply| >= 1 && a.reply[0] == req[0]
            && SamplesMatch(w, dev, a.hist, |hist|, a.reply[1..], n)
  {
    var w := Width(cfg);
    var f := FrameOf(req);
    var bits := FrameBits(w, f);
    var words := Cut(w, Tdo(dev, hist, bits));
    if |f.p| >= 2 * Announced(w, f) { FullCount(w, f); }
    Edges(w, req, f, hist);
    Samples(w, dev, hist, bits);
    assert ([req[0]] + words)[1..] == words;
  }

  lemma Edges(w: nat, req: seq<Vec>, f: Frame, hist: seq<Pin>)
    requires |req| > 1 && f.p == req[1..] && FrameOk(w, f)
    ensures EdgesMatch(w, req, hist + FrameBits(w, f), |hist|, BitCount(w, f))
  {
    forall i | 0 <= i < BitCount(w, f)
      ensures PinIs(w, req, hist + FrameBits(w, f), |hist|, i)
    {
      EdgeOfFrame(w, req, f, i);
    }
  }

  lemma Samples(w: nat, dev: Device, hist: seq<Pin>, bits: seq<Pin>)
    requires w > 0
    ensures SamplesMatch(w, dev, hist + bits, |hist|, Cut(w, Tdo(dev, hist, bits)), |bits|)
  {
    var words := Cut(w, Tdo(dev, hist, bits));
    forall k, b | 0 <= k < |words| && 0 <= b < w
      ensures SampleIs(w, dev, hist + bits, |hist|, words, |bits|, k, b)
    {
      CutBit(w, dev, hist, bits, k, b);
    }
  }

  /** Edge `i` after the first `h` ones has bit i of the frame. */
  predicate PinIs(w: nat, req: seq<Vec>, hist: seq<Pin>, h: nat, i: nat)
    requires w > 0
  {
    var k, b := i / w, i % w;
    && 2 * k + 2 < |req| && b < |req[2 * k + 1]| && b < |req[2 * k + 2]| && h + i < |hist|
    && hist[h + i] == Pin(req[2 * k + 1][b], req[2 * k + 2][b])
  }

  lemma EdgeOfFrame(w: nat, req: seq<Vec>, f: Frame, i: nat)
    requires |req| > 1 && f.p == req[1..] && FrameOk(w, f) && i < BitCount(w, f)
    ensures 2 * (i / w) + 2 < |req| && i % w < w
    ensures FrameBits(w, f)[i] == Pin(req[2 * (i / w) + 1][i % w], req[2 * (i / w) + 2][i % w])
  {
    DivBound(i, w, |f.p| / 2);
  }

  /** Bit `b` of reply word `k` is TDO before edge k * w + b, if there is one. */
  predicate SampleIs(w: nat, dev: Device, hist: seq<Pin>, h: nat, words: seq<Vec>, n: nat, k: nat, b: nat) {
    var i := k * w + b;
    && k < |words| && b < |words[k]| && (i < n ==> h + i <= |hist|)
    && words[k][b] == (i < n && dev(hist[..h + i]))
  }

  lemma CutBit(w: nat, dev: Device, hist: seq<Pin>, bits: seq<Pin>, k: nat, b: nat)
    requires w > 0 && k < WordCount(w, |bits|) && b < w
    ensures SampleIs(w, dev, hist + bits, |hist|, Cut(w, Tdo(dev, hist, bits)), |bits|, k, b)
  {
    WordStart(w, |bits|, k);
    PieceBit(w, Tdo(dev, hist, bits), k, b);
    var i := k * w + b;
    if i < |bits| { assert hist + bits[..i] == (hist + bits)[..|hist| + i]; }
  }
}
