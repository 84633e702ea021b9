// AxisToJtagCore: turns a framed stream of TMS/TDI words into serialiser jobs and TDO words into a framed reply.

module Core {
  import opened Bits
  import opened Jtag
  import H = Header
  import S = SerDes

  datatype State = Idle | GetTms | GetTdi | Shift | Align | Discard

  datatype Reg = Reg(
    state: State,
    tdi: Vec, tms: Vec, tdo: Vec,
    nBits: nat, nBitsTot: nat,
    tdiValid: bool, sReady: bool, tdoValid: bool, tdoPass: bool,
    last: bool, tLastSeen: bool,
    iCnt: nat, oCnt: nat,
    tLast: bool, running: bool)

  /** The stream ports during one cycle: a request word on offer, and the readiness of whoever takes the reply. */
  datatype In = In(valid: bool, data: Vec, last: bool, ready: bool)

  function Init(w: nat): Reg {
    Reg(Idle, Zeros(w), Zeros(w), Zeros(w), 0, 0, false, true, false, true, false, false, 0, 0, false, false)
  }

  predicate Wf(w: nat, c: Reg) {
    && |c.tdi| == w && |c.tms| == w && |c.tdo| == w
    && c.nBits < w && c.iCnt < 4 && c.oCnt < 4
  }

  predicate InWf(w: nat, i: In) {
    |i.data| == w
  }

  function Inc2(n: nat): nat {
    (n + 1) % 4
  }

  /** Ready for a word from the serialiser. */
  predicate TdoReady(c: Reg, i: In) {
    !c.tdoValid || (i.ready && c.tdoPass)
  }

  /** A request word is consumed. */
  predicate Consumes(c: Reg, i: In) {
    c.sReady && i.valid
  }

  /** A reply word leaves. */
  predicate Emits(c: Reg, i: In) {
    c.tdoValid && c.tdoPass && i.ready
  }

  // ---- one clock ----

  function IdleNext(w: nat, c: Reg, i: In): (v: Reg)
    requires Wf(w, c) && w >= H.LEN_WIDTH && InWf(w, i)
    ensures Wf(w, v)
  {
    var v := c.(last := false, tLastSeen := false, iCnt := 0, oCnt := 0, tLast := false, tdoPass := true,
                sReady := true);
    if Consumes(c, i) && !i.last then v.(nBitsTot := NatOf(i.data[..H.LEN_WIDTH]), state := GetTms) else v
  }

  function GetTmsNext(w: nat, c: Reg, i: In): (v: Reg)
    requires Wf(w, c) && InWf(w, i)
    ensures Wf(w, v)
  {
    if !Consumes(c, i) then c
    else if i.last then
      if c.iCnt != c.oCnt then c.(last := true, tLastSeen := true, nBits := w - 1, state := Align)
      else c.(state := Idle)
    else
      var v := c.(tms := i.data, state := GetTdi, iCnt := Inc2(c.iCnt), running := true);
      if c.nBitsTot >= w then v.(nBits := w - 1, nBitsTot := c.nBitsTot - w)
      else v.(last := true, nBits := c.nBitsTot)
  }

  function GetTdiNext(w: nat, c: Reg, i: In): (v: Reg)
    requires Wf(w, c) && InWf(w, i)
    ensures Wf(w, v)
  {
    if !Consumes(c, i) then c
    else
      var v := if !i.last then c
               else if c.last then c.(tLastSeen := true)
               else c.(tLastSeen := true, nBitsTot := c.nBits, last := true);
      v.(tdi := i.data, tdiValid := true, sReady := false, state := Shift)
  }

  function ShiftNext(w: nat, c: Reg, tdiReady: bool): (v: Reg)
    requires Wf(w, c)
    ensures Wf(w, v)
  {
    if !(tdiReady && c.tdiValid) then c
    else if c.last then c.(tdiValid := false)
    else c.(tdiValid := false, state := GetTms, sReady := true)
  }

  function AlignNext(w: nat, c: Reg, i: In): (v: Reg)
    requires Wf(w, c)
    ensures Wf(w, v)
  {
    if c.nBits == w - 1 then
      c.(tLast := true, state := if c.tdoValid && i.ready then Discard else Align)
    else c.(tdo := ShiftIn(c.tdo, false), nBits := c.nBits + 1)
  }

  function DiscardNext(w: nat, c: Reg, i: In): (v: Reg)
    requires Wf(w, c)
    ensures Wf(w, v)
  {
    if c.tLastSeen then c.(tdoPass := true)
    else if Consumes(c, i) && i.last then c.(tLastSeen := true, tdoPass := true, sReady := false)
    else c.(sReady := true)
  }

  function CaseNext(w: nat, c: Reg, tdiReady: bool, i: In): (v: Reg)
    requires Wf(w, c) && w >= H.LEN_WIDTH && InWf(w, i)
    ensures Wf(w, v)
  {
    match c.state
    case Idle => IdleNext(w, c, i)
    case GetTms => GetTmsNext(w, c, i)
    case GetTdi => GetTdiNext(w, c, i)
    case Shift => ShiftNext(w, c, tdiReady)
    case Align => AlignNext(w, c, i)
    case Discard => DiscardNext(w, c, i)
  }

  /** The register `v` after the output handshake of old register `c`. */
  function OutputNext(w: nat, c: Reg, v: Reg, i: In): (v': Reg)
    requires Wf(w, v)
    ensures Wf(w, v')
  {
    if !Emits(c, i) then v
    else if c.tLast then v.(running := false, state := Idle, tdoValid := false)
    else v.(tdoValid := false)
  }

  /** The register `v` after a word came back from the serialiser. */
  function CollectNext(w: nat, c: Reg, v: Reg, oValid: bool, tdo: Vec, i: In): (v': Reg)
    requires Wf(w, v) && |tdo| == w
    ensures Wf(w, v')
  {
    if !(oValid && TdoReady(c, i)) then v
    else
      var v := v.(tdo := tdo, tdoValid := true, oCnt := Inc2(c.oCnt));
      if c.last && v.oCnt == c.iCnt then v.(tdoPass := false, state := Align) else v
  }

  /** The value the registers take at the next clock edge; `s` is the embedded serialiser. */
  function Next(w: nat, d: nat, c: Reg, s: S.Reg, i: In): (v: Reg)
    requires Wf(w, c) && S.Wf(w, d, s) && w >= H.LEN_WIDTH && InWf(w, i)
    ensures Wf(w, v)
  {
    CollectNext(w, c, OutputNext(w, c, CaseNext(w, c, s.iReady, i), i), s.oValid, s.tdo[..w], i)
  }

  /** What the core drives into the serialiser. */
  function SerIn(c: Reg, i: In, tdo: bool): S.In {
    S.In(c.nBits, c.tms, c.tdi, c.tdiValid, TdoReady(c, i), tdo)
  }

  // ---- frames ----

  /** A request frame behind its header: the header's length field (bits minus one) and the words up to TLAST. */
  datatype Frame = Frame(len: nat, p: seq<Vec>)

  predicate FrameOk(w: nat, f: Frame) {
    w >= H.LEN_WIDTH && |f.p| >= 1 && forall k :: 0 <= k < |f.p| ==> |f.p[k]| == w
  }

  /** Word pairs the header announces. */
  function Announced(w: nat, f: Frame): nat
    requires w > 0
  {
    f.len / w + 1
  }

  /** Word pairs that are shifted: fewer than announced when TLAST comes early. */
  function Pairs(w: nat, f: Frame): nat
    requires w > 0
  {
    if |f.p| / 2 < Announced(w, f) then |f.p| / 2 else Announced(w, f)
  }

  /** TLAST is not on a TMS word, unless behind all announced words. */
  predicate Clean(w: nat, f: Frame)
    requires w > 0
  {
    |f.p| >= 2 && (|f.p| >= 2 * Announced(w, f) || |f.p| % 2 == 0)
  }

  /** TLAST is on the very first TMS word. */
  predicate Stillborn(f: Frame) {
    |f.p| == 1
  }

  function BitsIn(w: nat, f: Frame, k: nat): (n: nat)
    requires w > 0
    ensures 1 <= n <= w
  {
    if k == Announced(w, f) - 1 then f.len % w + 1 else w
  }

  function JobOf(w: nat, f: Frame, k: nat): (j: S.Job)
    requires FrameOk(w, f) && k < Pairs(w, f)
    ensures S.JobOk(w, j)
  {
    S.Job(f.p[2 * k], f.p[2 * k + 1], BitsIn(w, f, k))
  }

  /** The first `k` word pairs. */
  function Jobs(w: nat, f: Frame, k: nat): (js: seq<S.Job>)
    requires FrameOk(w, f) && k <= Pairs(w, f)
    ensures |js| == k && S.JobsOk(w, js)
  {
    seq(k, i requires 0 <= i < k => JobOf(w, f, i))
  }

  function Pad(w: nat, x: Vec): (v: Vec)
    requires |x| <= w
    ensures |v| == w
  {
    x + Zeros(w - |x|)
  }

  /** Reply word `k`, when the serialiser did the jobs `wb` before this frame. */
  function RepWord(w: nat, dev: Device, wb: seq<S.Job>, f: Frame, k: nat): (v: Vec)
    requires FrameOk(w, f) && S.JobsOk(w, wb) && k < Pairs(w, f)
    ensures |v| == w
  {
    var js := wb + Jobs(w, f, k + 1);
    Pad(w, S.Expected(w, dev, js, |wb| + k))
  }

  lemma ExpectedIsRepWord(w: nat, dev: Device, wb: seq<S.Job>, f: Frame, m: nat, k: nat)
    requires FrameOk(w, f) && S.JobsOk(w, wb) && k < m <= Pairs(w, f)
    ensures S.JobsOk(w, wb + Jobs(w, f, m))
    ensures RepWord(w, dev, wb, f, k) == Pad(w, S.Expected(w, dev, wb + Jobs(w, f, m), |wb| + k))
  {
    assert (wb + Jobs(w, f, m))[..|wb| + k] == (wb + Jobs(w, f, k + 1))[..|wb| + k];
  }

  /** How far the current frame has come: words consumed (header included), pairs begun, reply words emitted. */
  datatype Progress = Progress(pos: nat, acc: nat, out: nat)

  function Advance(c: Reg, i: In, g: Progress): Progress {
    Progress(
      if Consumes(c, i) then g.pos + 1 else g.pos,
      if Consumes(c, i) && c.state == GetTms && !i.last then g.acc + 1 else g.acc,
      if Emits(c, i) then g.out + 1 else g.out)
  }

  // ---- invariant ----

  predicate SerOk(w: nat, d: nat, dev: Device, c: Reg, s: S.Reg, h: S.Hist) {
    && w >= H.LEN_WIDTH && d > 0 && Wf(w, c)
    && S.Inv(w, d, dev, s, h)
    && (s.oValid && s.state != S.Wai ==> !c.tdoValid)
  }

  /** Between frames: nothing is outstanding anywhere. */
  predicate AtRest(w: nat, d: nat, dev: Device, c: Reg, s: S.Reg, h: S.Hist) {
    && SerOk(w, d, dev, c, s, h)
    && c.state == Idle && !c.tdiValid && !c.tdoValid && !c.running
    && |h.outs| == |h.jobs|
  }

  /** Pairs the serialiser has taken, and given back. */
  function Taken(wb: seq<S.Job>, h: S.Hist): int { |h.jobs| - |wb| }

  function Returned(wb: seq<S.Job>, h: S.Hist): int { |h.outs| - |wb| }

  /** The reply register holds the word after the `g.out` words already sent, or nothing. */
  predicate Flowing(w: nat, dev: Device, f: Frame, wb: seq<S.Job>, c: Reg, h: S.Hist, g: Progress)
    requires FrameOk(w, f) && S.JobsOk(w, wb)
  {
    var ret := Returned(wb, h);
    && c.tdoPass && !c.tLast
    && c.iCnt == g.acc % 4 && 0 <= ret && c.oCnt == ret % 4
    && (Pairs(w, f) > 0 ==> ret < Pairs(w, f))
    && (c.tdoValid ==> g.out == ret - 1 && g.out < Pairs(w, f) && c.tdo == RepWord(w, dev, wb, f, g.out))
    && (!c.tdoValid ==> g.out == ret)
  }

  predicate InGetTms(w: nat, f: Frame, wb: seq<S.Job>, c: Reg, s: S.Reg, h: S.Hist, g: Progress)
    requires FrameOk(w, f)
  {
    && g.pos == 2 * g.acc + 1 && Taken(wb, h) == g.acc
    && (g.acc < Pairs(w, f) || (Stillborn(f) && g.acc == 0))
    && !c.tdiValid && c.sReady && !c.last && !c.tLastSeen
    && c.nBitsTot == f.len - g.acc * w
    && !(s.state == S.Shift && s.iReady)
    && c.running == (g.acc > 0)
  }

  predicate InGetTdi(w: nat, f: Frame, wb: seq<S.Job>, c: Reg, s: S.Reg, h: S.Hist, g: Progress)
    requires FrameOk(w, f)
  {
    && g.pos == 2 * g.acc && 0 < g.acc <= Pairs(w, f) && Taken(wb, h) == g.acc - 1
    && !c.tdiValid && c.sReady && !c.tLastSeen
    && c.tms == f.p[2 * (g.acc - 1)] && c.nBits == BitsIn(w, f, g.acc - 1) - 1
    && c.last == (g.acc == Announced(w, f))
    && (!c.last ==> c.nBitsTot == f.len - g.acc * w)
    && !(s.state == S.Shift && s.iReady)
    && c.running
  }

  predicate InShift(w: nat, f: Frame, wb: seq<S.Job>, c: Reg, s: S.Reg, h: S.Hist, g: Progress)
    requires FrameOk(w, f)
  {
    && g.pos == 2 * g.acc + 1 && 0 < g.acc <= Pairs(w, f)
    && !c.sReady && c.nBits == BitsIn(w, f, g.acc - 1) - 1
    && c.last == (g.acc == Pairs(w, f))
    && c.tLastSeen == (g.pos == |f.p| + 1)
    && (!c.last ==> c.nBitsTot == f.len - g.acc * w)
    && (c.tdiValid ==>
          && S.Job(c.tms, c.tdi, c.nBits + 1) == JobOf(w, f, g.acc - 1)
          && Taken(wb, h) == (if s.state == S.Shift && s.iReady then g.acc else g.acc - 1))
    && (!c.tdiValid ==> c.last && Taken(wb, h) == g.acc && !(s.state == S.Shift && s.iReady))
    && c.running
  }

  /** Everything came back; the last word moves to the right, zeros following. */
  predicate InAlign(w: nat, dev: Device, f: Frame, wb: seq<S.Job>, c: Reg, h: S.Hist, g: Progress)
    requires FrameOk(w, f) && S.JobsOk(w, wb)
  {
    var n := Pairs(w, f);
    && n > 0 && g.acc == n && g.pos == 2 * n + 1 && Taken(wb, h) == n && Returned(wb, h) == n && g.out == n - 1
    && c.tdoValid && !c.tdoPass && !c.sReady && !c.tdiValid
    && c.tLastSeen == (g.pos == |f.p| + 1)
    && c.running
    && BitsIn(w, f, n - 1) - 1 <= c.nBits
    && Aligning(w, c.tdo, RepWord(w, dev, wb, f, n - 1), w - 1 - c.nBits)
    && (c.tLast ==> c.nBits == w - 1)
  }

  /** `x` is `v` once another `left` zeros are shifted in. */
  predicate Aligning(w: nat, v: Vec, x: Vec, left: int) {
    0 <= left <= w == |v| && x == v[left..] + Zeros(left)
  }

  predicate InDiscard(w: nat, dev: Device, f: Frame, wb: seq<S.Job>, c: Reg, h: S.Hist, g: Progress)
    requires FrameOk(w, f) && S.JobsOk(w, wb)
  {
    var n := Pairs(w, f);
    && n > 0 && g.acc == n && Taken(wb, h) == n && Returned(wb, h) == n && g.out == n - 1
    && c.tdoValid && c.tLast && !c.tdiValid && c.running
    && c.tdo == RepWord(w, dev, wb, f, n - 1)
    && 2 * n + 1 <= g.pos <= |f.p| + 1
    && c.tLastSeen == (g.pos == |f.p| + 1)
    && (c.tdoPass ==> c.tLastSeen) && (c.sReady ==> !c.tLastSeen)
  }

  /** Inside frame `f`. */
  predicate Busy(w: nat, d: nat, dev: Device, f: Frame, wb: seq<S.Job>, c: Reg, s: S.Reg, h: S.Hist, g: Progress) {
    && SerOk(w, d, dev, c, s, h)
    && FrameOk(w, f) && (Clean(w, f) || Stillborn(f)) && S.JobsOk(w, wb)
    && 0 <= Taken(wb, h) <= Pairs(w, f) && h.jobs == wb + Jobs(w, f, Taken(wb, h))
    && 0 <= Returned(wb, h)
    && match c.state
       case Idle => false
       case GetTms => Flowing(w, dev, f, wb, c, h, g) && InGetTms(w, f, wb, c, s, h, g)
       case GetTdi => Flowing(w, dev, f, wb, c, h, g) && InGetTdi(w, f, wb, c, s, h, g)
       case Shift => Flowing(w, dev, f, wb, c, h, g) && InShift(w, f, wb, c, s, h, g)
       case Align => InAlign(w, dev, f, wb, c, h, g)
       case Discard => InDiscard(w, dev, f, wb, c, h, g)
  }

  /** The request port offers the words of `f` in order. */
  predicate Feeds(w: nat, f: Frame, g: Progress, i: In) {
    && InWf(w, i)
    && (i.valid && 1 <= g.pos <= |f.p| ==> i.data == f.p[g.pos - 1] && i.last == (g.pos == |f.p|))
  }

  /** All of the frame is consumed and answered, and its bits are on the pins. */
  predicate Finished(w: nat, d: nat, dev: Device, f: Frame, wb: seq<S.Job>, c: Reg, s: S.Reg, h: S.Hist, g: Progress) {
    && AtRest(w, d, dev, c, s, h)
    && FrameOk(w, f)
    && g.pos == |f.p| + 1 && g.out == Pairs(w, f)
    && h.jobs == wb + Jobs(w, f, Pairs(w, f))
  }
}
