// JtagSerDesCore: serialises TMS/TDI words onto the pins and collects TDO words.

module SerDes {
  import opened Bits
  import opened Jtag

  datatype State = Idle | Shift | Wai

  /** The clocked registers. `w` is WIDTH_G; `tdo` is one bit wider, so that adjacent words can share a sample. */
  datatype Reg = Reg(
    cnt: int, div: nat,
    tms: Vec, tdi: Vec, tdo: Vec,
    tck: bool, tckPos: bool, tckNeg: bool,
    lastBit: bool, oValid: bool, iReady: bool,
    state: State)

  /** What the surroundings drive during one clock cycle; `numBits` is one less than the number of bits. */
  datatype In = In(numBits: nat, tms: Vec, tdi: Vec, valid: bool, ready: bool, tdo: bool)

  function Init(w: nat): Reg {
    Reg(-1, 0, Zeros(w), Zeros(w), Zeros(w + 1), false, false, false, false, false, true, Idle)
  }

  predicate Wf(w: nat, d: nat, r: Reg) {
    && |r.tms| == w && |r.tdi| == w && |r.tdo| == w + 1
    && w > 0 && r.div < d && -1 <= r.cnt < w
    && (r.state == Shift && !r.lastBit ==> r.cnt >= 0)
    && (r.tck ==> r.state == Shift && r.cnt >= 0)
    && (r.state == Shift && r.iReady ==> r.lastBit && !r.tck && r.cnt >= 0)
    && (r.state == Wai ==> !r.iReady)
  }

  predicate InWf(w: nat, i: In) {
    |i.tms| == w && |i.tdi| == w && i.numBits < w
  }

  // ---- one clock ----

  function RaiseTck(d: nat, r: Reg): Reg
    requires d > 0
  {
    r.(tck := true, tckPos := true, div := d - 1)
  }

  function IdleNext(d: nat, r: Reg, i: In): Reg
    requires d > 0
  {
    if i.valid && r.iReady then
      r.(oValid := false, tms := i.tms, tdi := i.tdi, iReady := false, cnt := i.numBits, div := d - 1, state := Shift)
    else
      r.(oValid := false)
  }

  function LowEndNext(d: nat, r: Reg, i: In): Reg
    requires d > 0 && |r.tdo| > 0
  {
    var v := r.(tdo := ShiftIn(r.tdo, i.tdo));
    if !r.lastBit then RaiseTck(d, v)
    else
      var v := v.(lastBit := false, oValid := true);
      if !i.ready then v.(state := Wai)
      else if r.cnt >= 0 then RaiseTck(d, v)
      else v.(iReady := true, state := Idle)
  }

  function HighEndNext(d: nat, r: Reg, i: In): Reg
    requires d > 0 && |r.tms| > 0 && |r.tdi| > 0
  {
    var v := r.(tms := ShiftIn(r.tms, false), tdi := ShiftIn(r.tdi, false), cnt := r.cnt - 1,
                tck := false, tckNeg := true, div := d - 1);
    if r.cnt == 0 then
      var v := v.(lastBit := true);
      if i.valid then v.(tms := i.tms, tdi := i.tdi, cnt := i.numBits, iReady := true) else v
    else v
  }

  function WaiNext(d: nat, r: Reg, i: In): Reg
    requires d > 0
  {
    if !i.ready then r
    else if r.cnt >= 0 then RaiseTck(d, r.(oValid := false, state := Shift))
    else r.(oValid := false, iReady := true, state := Idle)
  }

  /** The value the registers take at the next clock edge. */
  function Next(w: nat, d: nat, r: Reg, i: In): (v: Reg)
    requires Wf(w, d, r) && d > 0 && InWf(w, i)
    ensures Wf(w, d, v)
  {
    var v := r.(tckPos := false, tckNeg := false);
    match r.state
    case Idle => IdleNext(d, v, i)
    case Shift =>
      var v := v.(iReady := false, oValid := false);
      if r.div > 0 then v.(div := r.div - 1)
      else if r.tck then HighEndNext(d, v, i)
      else LowEndNext(d, v, i)
    case Wai => WaiNext(d, v, i)
  }

  // ---- history ----

  /** One TMS/TDI word pair of which the low `n` bits are to be shifted. */
  datatype Job = Job(tms: Vec, tdi: Vec, n: nat)

  predicate JobOk(w: nat, j: Job) {
    |j.tms| == w && |j.tdi| == w && 1 <= j.n <= w
  }

  function JobBits(j: Job): (b: seq<Pin>)
    requires JobOk(|j.tms|, j)
    ensures |b| == j.n
  {
    seq(j.n, i requires 0 <= i < j.n => Pin(j.tms[i], j.tdi[i]))
  }

  predicate JobsOk(w: nat, js: seq<Job>) {
    forall k :: 0 <= k < |js| ==> JobOk(w, js[k])
  }

  function AllBits(w: nat, js: seq<Job>): seq<Pin>
    requires JobsOk(w, js)
  {
    if js == [] then [] else AllBits(w, js[..|js| - 1]) + JobBits(js[|js| - 1])
  }

  lemma AllBitsSnoc(w: nat, js: seq<Job>, j: Job)
    requires JobsOk(w, js) && JobOk(w, j)
    ensures JobsOk(w, js + [j]) && AllBits(w, js + [j]) == AllBits(w, js) + JobBits(j)
  {
    assert (js + [j])[..|js|] == js;
  }

  /** The TDO samples word `k` has to deliver. */
  function Expected(w: nat, dev: Device, js: seq<Job>, k: nat): (v: Vec)
    requires JobsOk(w, js) && k < |js|
    ensures |v| == js[k].n
  {
    Tdo(dev, AllBits(w, js[..k]), JobBits(js[k]))
  }

  lemma ExpectedSnoc(w: nat, dev: Device, js: seq<Job>, j: Job, k: nat)
    requires JobsOk(w, js) && JobOk(w, j) && k < |js|
    ensures JobsOk(w, js + [j]) && Expected(w, dev, js + [j], k) == Expected(w, dev, js, k)
  {
    assert (js + [j])[..k] == js[..k];
  }

  /** All that has crossed the ports since reset: words taken, TCK rising edges, words handed over. */
  datatype Hist = Hist(jobs: seq<Job>, edges: seq<Pin>, outs: seq<Vec>)

  const NOTHING := Hist([], [], [])

  predicate Takes(r: Reg, i: In) {
    i.valid && ((r.state == Idle && r.iReady) || (r.state == Shift && r.div == 0 && r.tck && r.cnt == 0))
  }

  function Observe(w: nat, d: nat, r: Reg, i: In, h: Hist): Hist
    requires Wf(w, d, r) && d > 0 && InWf(w, i)
  {
    var v := Next(w, d, r, i);
    Hist(
      if Takes(r, i) then h.jobs + [Job(i.tms, i.tdi, i.numBits + 1)] else h.jobs,
      if !r.tck && v.tck then h.edges + [Pin(v.tms[0], v.tdi[0])] else h.edges,
      if r.oValid && i.ready then h.outs + [r.tdo[..w]] else h.outs)
  }

  /**
   The surroundings: words of the right width, a target that drives TDO from its history while TCK is low, and a
   receiver that stays ready once the serialiser has relied on it (ready is sampled one cycle before valid).
   */
  predicate EnvOk(w: nat, dev: Device, r: Reg, i: In, h: Hist) {
    && InWf(w, i)
    && (!r.tck ==> i.tdo == dev(h.edges))
    && (r.oValid && r.state != Wai ==> i.ready)
  }

  // ---- invariant ----

  /** The word on offer at the output port is the oldest one not handed over yet. */
  predicate OnOffer(w: nat, dev: Device, r: Reg, h: Hist)
    requires |r.tdo| == w + 1 && JobsOk(w, h.jobs)
  {
    |h.outs| < |h.jobs| && Suffix(r.tdo[..w], Expected(w, dev, h.jobs, |h.outs|))
  }

  predicate IdleInv(w: nat, d: nat, dev: Device, r: Reg, h: Hist)
    requires Wf(w, d, r) && JobsOk(w, h.jobs)
  {
    && r.cnt == -1 && !r.tck && !r.lastBit && r.iReady
    && h.edges == AllBits(w, h.jobs)
    && |h.jobs| == |h.outs| + (if r.oValid then 1 else 0)
    && (r.oValid ==> OnOffer(w, dev, r, h))
  }

  /** The word registers hold what is left of `j` after `c` bits. */
  predicate Loaded(w: nat, r: Reg, j: Job, c: nat)
    requires |r.tms| == w && |r.tdi| == w && JobOk(w, j)
  {
    && c < j.n && r.cnt == j.n - 1 - c
    && (forall i :: 0 <= i < j.n - c ==> r.tms[i] == j.tms[c + i])
    && (forall i :: 0 <= i < j.n - c ==> r.tdi[i] == j.tdi[c + i])
  }

  /** Job `j`, which started after the edges `base`, is being clocked out. */
  predicate Clocking(w: nat, dev: Device, r: Reg, edges: seq<Pin>, j: Job, base: seq<Pin>)
    requires |r.tms| == w && |r.tdi| == w && |r.tdo| == w + 1 && JobOk(w, j) && 0 <= r.cnt < j.n
  {
    var c := j.n - 1 - r.cnt;
    var e := if r.tck then c + 1 else c;
    && Loaded(w, r, j, c)
    && edges == base + JobBits(j)[..e]
    && Suffix(r.tdo, Tdo(dev, base, JobBits(j)[..e]))
  }

  /** The newest word is on the pins; TCK may or may not have risen for its current bit. */
  predicate ClockingInv(w: nat, d: nat, dev: Device, r: Reg, h: Hist)
    requires Wf(w, d, r) && JobsOk(w, h.jobs)
  {
    && |h.jobs| == |h.outs| + (if r.oValid then 2 else 1)
    && 0 <= r.cnt < h.jobs[|h.jobs| - 1].n
    && Clocking(w, dev, r, h.edges, h.jobs[|h.jobs| - 1], AllBits(w, h.jobs[..|h.jobs| - 1]))
    && (r.oValid ==> r.tck && r.div == d - 1 && OnOffer(w, dev, r, h))
  }

  /** All bits of a word are clocked but its last TDO sample is outstanding; the next word may be loaded already. */
  predicate LastBitInv(w: nat, d: nat, dev: Device, r: Reg, h: Hist)
    requires Wf(w, d, r) && JobsOk(w, h.jobs)
  {
    && !r.tck && !r.oValid
    && |h.jobs| == |h.outs| + (if r.cnt >= 0 then 2 else 1)
    && Suffix(r.tdo, Expected(w, dev, h.jobs, |h.outs|))
    && h.edges == AllBits(w, h.jobs[..|h.outs| + 1])
    && (r.cnt >= 0 ==> Loaded(w, r, h.jobs[|h.jobs| - 1], 0))
  }

  /** A finished word waits for the receiver; the first sample of the next word is taken already. */
  predicate WaiInv(w: nat, d: nat, dev: Device, r: Reg, h: Hist)
    requires Wf(w, d, r) && JobsOk(w, h.jobs)
  {
    && !r.tck && !r.lastBit && r.oValid && !r.iReady
    && |h.jobs| == |h.outs| + (if r.cnt >= 0 then 2 else 1)
    && OnOffer(w, dev, r, h)
    && h.edges == AllBits(w, h.jobs[..|h.outs| + 1])
    && r.tdo[w] == dev(h.edges)
    && (r.cnt >= 0 ==> Loaded(w, r, h.jobs[|h.jobs| - 1], 0))
  }

  predicate Delivered(w: nat, dev: Device, h: Hist)
    requires JobsOk(w, h.jobs)
  {
    && |h.outs| <= |h.jobs|
    && forall k :: 0 <= k < |h.outs| ==> |h.outs[k]| == w && Suffix(h.outs[k], Expected(w, dev, h.jobs, k))
  }

  predicate Phase(w: nat, d: nat, dev: Device, r: Reg, h: Hist)
    requires Wf(w, d, r) && JobsOk(w, h.jobs)
  {
    match r.state
    case Idle => IdleInv(w, d, dev, r, h)
    case Shift => if r.lastBit then LastBitInv(w, d, dev, r, h) else ClockingInv(w, d, dev, r, h)
    case Wai => WaiInv(w, d, dev, r, h)
  }

  /** Words in, pin edges and words out agree, whatever the divider and the schedule were. */
  predicate Inv(w: nat, d: nat, dev: Device, r: Reg, h: Hist) {
    && Wf(w, d, r) && JobsOk(w, h.jobs)
    && Delivered(w, dev, h)
    && Phase(w, d, dev, r, h)
  }

  lemma InitInv(w: nat, d: nat, dev: Device)
    requires w > 0 && d > 0
    ensures Inv(w, d, dev, Init(w), NOTHING)
  {
  }

  // ---- preservation, one transition at a time ----

  lemma DeliverOne(w: nat, d: nat, dev: Device, r: Reg, h: Hist)
    requires Wf(w, d, r) && JobsOk(w, h.jobs) && Delivered(w, dev, h) && OnOffer(w, dev, r, h)
    ensures Delivered(w, dev, h.(outs := h.outs + [r.tdo[..w]]))
  {
  }

  lemma TakeOne(w: nat, dev: Device, h: Hist, j: Job)
    requires JobsOk(w, h.jobs) && JobOk(w, j) && Delivered(w, dev, h)
    ensures JobsOk(w, h.jobs + [j]) && Delivered(w, dev, h.(jobs := h.jobs + [j]))
    ensures AllBits(w, h.jobs + [j]) == AllBits(w, h.jobs) + JobBits(j)
    ensures forall k :: 0 <= k < |h.jobs| ==> Expected(w, dev, h.jobs + [j], k) == Expected(w, dev, h.jobs, k)
  {
    AllBitsSnoc(w, h.jobs, j);
    forall k | 0 <= k < |h.jobs|
      ensures Expected(w, dev, h.jobs + [j], k) == Expected(w, dev, h.jobs, k)
    {
      ExpectedSnoc(w, dev, h.jobs, j, k);
    }
  }

  lemma IdleTake(w: nat, d: nat, dev: Device, r: Reg, v: Reg, h: Hist, j: Job)
    requires d > 0 && Wf(w, d, r) && JobsOk(w, h.jobs) && JobOk(w, j) && Delivered(w, dev, h)
    requires !r.tck && h.edges == AllBits(w, h.jobs) && |h.outs| == |h.jobs| && !r.lastBit
    requires Wf(w, d, v) && v == r.(oValid := false, tms := j.tms, tdi := j.tdi, iReady := false, cnt := j.n - 1,
                                    div := d - 1, state := Shift)
    ensures Inv(w, d, dev, v, h.(jobs := h.jobs + [j]))
  {
    TakeOne(w, dev, h, j);
    assert (h.jobs + [j])[..|h.jobs|] == h.jobs;
    assert JobBits(j)[..0] == [];
    assert Tdo(dev, AllBits(w, h.jobs), JobBits(j)[..0]) == [];
    assert Loaded(w, v, j, 0);
  }

  lemma IdleStep(w: nat, d: nat, dev: Device, r: Reg, i: In, h: Hist)
    requires d > 0 && Inv(w, d, dev, r, h) && EnvOk(w, dev, r, i, h) && r.state == Idle
    ensures Inv(w, d, dev, Next(w, d, r, i), Observe(w, d, r, i, h))
  {
    var r1 := r.(tckPos := false, tckNeg := false, oValid := false);
    var h1 := h.(outs := if r.oValid then h.outs + [r.tdo[..w]] else h.outs);
    if r.oValid { DeliverOne(w, d, dev, r, h); }
    assert Delivered(w, dev, h1);
    if i.valid {
      var j := Job(i.tms, i.tdi, i.numBits + 1);
      assert Observe(w, d, r, i, h) == h1.(jobs := h1.jobs + [j]);
      IdleTake(w, d, dev, r1, Next(w, d, r, i), h1, j);
    } else {
      assert Next(w, d, r, i) == r1 && Observe(w, d, r, i, h) == h1;
      assert IdleInv(w, d, dev, r1, h1);
    }
  }

  /** NOTHING but the divider moved. */
  lemma SameBit(w: nat, dev: Device, r: Reg, v: Reg, edges: seq<Pin>, j: Job, base: seq<Pin>)
    requires |r.tms| == w && |r.tdi| == w && |r.tdo| == w + 1 && JobOk(w, j) && 0 <= r.cnt < j.n
    requires Clocking(w, dev, r, edges, j, base)
    requires v.tck == r.tck && v.tms == r.tms && v.tdi == r.tdi && v.cnt == r.cnt && v.tdo == r.tdo
    ensures Clocking(w, dev, v, edges, j, base)
  {
  }

  /** Lowering TCK moves on to the next bit of the word. */
  lemma LowerBit(w: nat, dev: Device, r: Reg, v: Reg, edges: seq<Pin>, j: Job, base: seq<Pin>)
    requires |r.tms| == w && |r.tdi| == w && |r.tdo| == w + 1 && JobOk(w, j) && 0 < r.cnt < j.n
    requires r.tck && Clocking(w, dev, r, edges, j, base)
    requires !v.tck && v.tms == ShiftIn(r.tms, false) && v.tdi == ShiftIn(r.tdi, false)
    requires v.cnt == r.cnt - 1 && v.tdo == r.tdo
    ensures Clocking(w, dev, v, edges, j, base)
  {
    assert Loaded(w, v, j, j.n - r.cnt);
  }

  /** A falling edge inside a word. */
  lemma FallStep(w: nat, d: nat, dev: Device, r: Reg, i: In, h: Hist)
    requires d > 0 && Inv(w, d, dev, r, h) && EnvOk(w, dev, r, i, h)
    requires r.state == Shift && !r.lastBit && r.tck && r.div == 0 && r.cnt > 0 && !r.oValid
    ensures Inv(w, d, dev, Next(w, d, r, i), Observe(w, d, r, i, h))
  {
    var n := |h.jobs| - 1;
    LowerBit(w, dev, r, Next(w, d, r, i), h.edges, h.jobs[n], AllBits(w, h.jobs[..n]));
  }

  /** The falling edge after the last bit of a word, where the next word is picked up if it is there. */
  lemma LastFallStep(w: nat, d: nat, dev: Device, r: Reg, i: In, h: Hist)
    requires d > 0 && Inv(w, d, dev, r, h) && EnvOk(w, dev, r, i, h)
    requires r.state == Shift && !r.lastBit && r.tck && r.div == 0 && r.cnt == 0 && !r.oValid
    ensures Inv(w, d, dev, Next(w, d, r, i), Observe(w, d, r, i, h))
  {
    var n := |h.jobs| - 1;
    assert h.jobs == h.jobs[..n] + [h.jobs[n]];
    AllBitsSnoc(w, h.jobs[..n], h.jobs[n]);
    assert JobBits(h.jobs[n])[..h.jobs[n].n] == JobBits(h.jobs[n]);
    assert h.jobs[..n + 1] == h.jobs;
    if i.valid {
      var j := Job(i.tms, i.tdi, i.numBits + 1);
      TakeOne(w, dev, h, j);
      assert (h.jobs + [j])[..n + 1] == h.jobs;
    }
  }

  /** Raising TCK clocks bit `c` and its sample belongs to it. */
  lemma RaiseBit(w: nat, dev: Device, r: Reg, v: Reg, edges: seq<Pin>, j: Job, base: seq<Pin>, tdo: bool)
    requires |r.tms| == w && |r.tdi| == w && |r.tdo| == w + 1 && JobOk(w, j) && 0 <= r.cnt < j.n
    requires !r.tck && Clocking(w, dev, r, edges, j, base) && tdo == dev(edges)
    requires v.tck && v.tms == r.tms && v.tdi == r.tdi && v.cnt == r.cnt && v.tdo == ShiftIn(r.tdo, tdo)
    ensures Clocking(w, dev, v, edges + [Pin(v.tms[0], v.tdi[0])], j, base)
  {
    var c := j.n - 1 - r.cnt;
    var bits := JobBits(j);
    TdoSnoc(dev, base, bits, c);
    ShiftInSuffix(r.tdo, Tdo(dev, base, bits[..c]), tdo);
    assert bits[..c + 1] == bits[..c] + [Pin(r.tms[0], r.tdi[0])];
    assert Loaded(w, v, j, c);
  }

  /** A rising edge inside a word, with its TDO sample. */
  lemma RiseStep(w: nat, d: nat, dev: Device, r: Reg, i: In, h: Hist)
    requires d > 0 && Inv(w, d, dev, r, h) && EnvOk(w, dev, r, i, h)
    requires r.state == Shift && !r.lastBit && !r.tck && r.div == 0
    ensures Inv(w, d, dev, Next(w, d, r, i), Observe(w, d, r, i, h))
  {
    var n := |h.jobs| - 1;
    RaiseBit(w, dev, r, Next(w, d, r, i), h.edges, h.jobs[n], AllBits(w, h.jobs[..n]), i.tdo);
  }

  /** The first rising edge of a word whose first TDO sample is in the register already. */
  lemma FirstRise(w: nat, dev: Device, v: Reg, h: Hist)
    requires |v.tms| == w && |v.tdi| == w && |v.tdo| == w + 1 && JobsOk(w, h.jobs) && |h.jobs| >= 1
    requires Loaded(w, v, h.jobs[|h.jobs| - 1], 0) && v.tdo[w] == dev(h.edges)
    requires h.edges == AllBits(w, h.jobs[..|h.jobs| - 1])
    ensures var j := h.jobs[|h.jobs| - 1];
            && h.edges + [Pin(v.tms[0], v.tdi[0])] == h.edges + JobBits(j)[..1]
            && Suffix(v.tdo, Tdo(dev, h.edges, JobBits(j)[..1]))
  {
    var j := h.jobs[|h.jobs| - 1];
    assert JobBits(j)[..1] == [Pin(v.tms[0], v.tdi[0])];
    assert JobBits(j)[..1][..0] == [] && h.edges + [] == h.edges;
    assert Tdo(dev, h.edges, JobBits(j)[..1]) == [dev(h.edges)];
    assert v.tdo[w..] == [v.tdo[w]];
  }

  /** The extra sample that completes a word: go on, wait for the receiver, or stop. */
  lemma LastBitStep(w: nat, d: nat, dev: Device, r: Reg, i: In, h: Hist)
    requires d > 0 && Inv(w, d, dev, r, h) && EnvOk(w, dev, r, i, h)
    requires r.state == Shift && r.lastBit && r.div == 0
    ensures Inv(w, d, dev, Next(w, d, r, i), Observe(w, d, r, i, h))
  {
    var t := ShiftIn(r.tdo, i.tdo);
    var v := r.(tckPos := false, tckNeg := false, iReady := false, tdo := t, lastBit := false, oValid := true);
    LastSample(w, dev, r, i.tdo, Expected(w, dev, h.jobs, |h.outs|));
    if !i.ready {
      assert Next(w, d, r, i) == v.(state := Wai) && Observe(w, d, r, i, h) == h;
      WordWaits(w, d, dev, v.(state := Wai), h);
    } else if r.cnt >= 0 {
      WordRises(w, d, dev, v, h);
      assert Next(w, d, r, i) == RaiseTck(d, v);
      assert Observe(w, d, r, i, h) == h.(edges := h.edges + [Pin(v.tms[0], v.tdi[0])]);
    } else {
      assert Next(w, d, r, i) == v.(iReady := true, state := Idle) && Observe(w, d, r, i, h) == h;
      WordEnds(w, d, dev, v.(iReady := true, state := Idle), h);
    }
  }

  /** The receiver is not ready. */
  lemma WordWaits(w: nat, d: nat, dev: Device, v: Reg, h: Hist)
    requires d > 0 && Wf(w, d, v) && JobsOk(w, h.jobs) && Delivered(w, dev, h)
    requires |h.jobs| == |h.outs| + (if v.cnt >= 0 then 2 else 1)
    requires v.state == Wai && !v.lastBit && v.oValid && !v.tck && !v.iReady && OnOffer(w, dev, v, h)
    requires h.edges == AllBits(w, h.jobs[..|h.outs| + 1]) && v.tdo[w] == dev(h.edges)
    requires v.cnt >= 0 ==> Loaded(w, v, h.jobs[|h.jobs| - 1], 0)
    ensures Inv(w, d, dev, v, h)
  {
  }

  /** There is no next word. */
  lemma WordEnds(w: nat, d: nat, dev: Device, v: Reg, h: Hist)
    requires d > 0 && Wf(w, d, v) && JobsOk(w, h.jobs) && Delivered(w, dev, h) && |h.jobs| == |h.outs| + 1
    requires v.state == Idle && v.cnt == -1 && !v.lastBit && v.oValid && !v.tck && v.iReady && OnOffer(w, dev, v, h)
    requires h.edges == AllBits(w, h.jobs[..|h.outs| + 1])
    ensures Inv(w, d, dev, v, h)
  {
    assert h.jobs[..|h.outs| + 1] == h.jobs;
  }

  /** The next word starts at once, while the finished one is on offer. */
  lemma WordRises(w: nat, d: nat, dev: Device, v: Reg, h: Hist)
    requires d > 0 && Wf(w, d, v) && JobsOk(w, h.jobs) && Delivered(w, dev, h)
    requires v.state == Shift && !v.lastBit && v.oValid && !v.tck && !v.iReady && |h.jobs| == |h.outs| + 2
    requires Loaded(w, v, h.jobs[|h.jobs| - 1], 0) && OnOffer(w, dev, v, h) && v.tdo[w] == dev(h.edges)
    requires h.edges == AllBits(w, h.jobs[..|h.jobs| - 1])
    ensures Inv(w, d, dev, RaiseTck(d, v), h.(edges := h.edges + [Pin(v.tms[0], v.tdi[0])]))
  {
    FirstRise(w, dev, v, h);
  }

  lemma LastSample(w: nat, dev: Device, r: Reg, tdo: bool, x: Vec)
    requires |r.tdo| == w + 1 && Suffix(r.tdo, x) && |x| <= w
    ensures Suffix(ShiftIn(r.tdo, tdo)[..w], x) && ShiftIn(r.tdo, tdo)[w] == tdo
  {
    assert ShiftIn(r.tdo, tdo)[..w] == r.tdo[1..];
    assert r.tdo[1..][w - |x|..] == r.tdo[w + 1 - |x|..];
  }

  lemma WaiStep(w: nat, d: nat, dev: Device, r: Reg, i: In, h: Hist)
    requires d > 0 && Inv(w, d, dev, r, h) && EnvOk(w, dev, r, i, h) && r.state == Wai
    ensures Inv(w, d, dev, Next(w, d, r, i), Observe(w, d, r, i, h))
  {
    if i.ready {
      DeliverOne(w, d, dev, r, h);
      if r.cnt >= 0 {
        FirstRise(w, dev, r, h);
      } else {
        assert h.jobs[..|h.outs| + 1] == h.jobs;
      }
    }
  }

  lemma DividerNext(w: nat, d: nat, dev: Device, r: Reg, i: In, h: Hist) returns (v: Reg, h1: Hist)
    requires Wf(w, d, r) && d > 0 && EnvOk(w, dev, r, i, h) && r.state == Shift && r.div > 0
    ensures v == Next(w, d, r, i) && h1 == Observe(w, d, r, i, h)
    ensures v == r.(tckPos := false, tckNeg := false, iReady := false, oValid := false, div := r.div - 1)
    ensures h1 == h.(outs := if r.oValid then h.outs + [r.tdo[..w]] else h.outs)
  {
    v, h1 := Next(w, d, r, i), Observe(w, d, r, i, h);
  }

  /** Cycles in which only the divider runs; the one right after a rising edge may hand a word over. */
  lemma DividerStep(w: nat, d: nat, dev: Device, r: Reg, i: In, h: Hist)
    requires d > 0 && Inv(w, d, dev, r, h) && EnvOk(w, dev, r, i, h)
    requires r.state == Shift && r.div > 0
    ensures Inv(w, d, dev, Next(w, d, r, i), Observe(w, d, r, i, h))
  {
    var v, h1 := DividerNext(w, d, dev, r, i, h);
    if r.oValid { DeliverOne(w, d, dev, r, h); }
    assert Delivered(w, dev, h1);
    if r.lastBit {
      assert LastBitInv(w, d, dev, v, h1);
    } else {
      var n := |h.jobs| - 1;
      SameBit(w, dev, r, v, h.edges, h.jobs[n], AllBits(w, h.jobs[..n]));
      assert ClockingInv(w, d, dev, v, h1);
    }
  }

  /** With CLK_DIV2_G = 1 the cycle that hands a word over also lowers TCK. */
  lemma HandoverFall(w: nat, d: nat, dev: Device, r: Reg, i: In, h: Hist)
    requires d > 0 && Inv(w, d, dev, r, h) && EnvOk(w, dev, r, i, h)
    requires r.state == Shift && !r.lastBit && r.tck && r.div == 0 && r.oValid
    ensures Inv(w, d, dev, Next(w, d, r, i), Observe(w, d, r, i, h))
  {
    DeliverOne(w, d, dev, r, h);
    var r1 := r.(oValid := false);
    var h1 := h.(outs := h.outs + [r.tdo[..w]]);
    var n := |h.jobs| - 1;
    SameBit(w, dev, r, r1, h.edges, h.jobs[n], AllBits(w, h.jobs[..n]));
    assert ClockingInv(w, d, dev, r1, h1);
    assert Next(w, d, r1, i) == Next(w, d, r, i);
    assert Observe(w, d, r1, i, h1) == Observe(w, d, r, i, h);
    if r.cnt == 0 { LastFallStep(w, d, dev, r1, i, h1); } else { FallStep(w, d, dev, r1, i, h1); }
  }

  /** Every clock keeps the invariant. */
  lemma Step(w: nat, d: nat, dev: Device, r: Reg, i: In, h: Hist)
    requires d > 0 && Inv(w, d, dev, r, h) && EnvOk(w, dev, r, i, h)
    ensures Inv(w, d, dev, Next(w, d, r, i), Observe(w, d, r, i, h))
  {
    match r.state
    case Idle => IdleStep(w, d, dev, r, i, h);
    case Wai => WaiStep(w, d, dev, r, i, h);
    case Shift =>
      if r.div > 0 { DividerStep(w, d, dev, r, i, h); }
      else if r.lastBit { LastBitStep(w, d, dev, r, i, h); }
      else if !r.tck { RiseStep(w, d, dev, r, i, h); }
      else if r.oValid { HandoverFall(w, d, dev, r, i, h); }
      else if r.cnt == 0 { LastFallStep(w, d, dev, r, i, h); }
      else { FallStep(w, d, dev, r, i, h); }
  }

  // ---- what a user of the serialiser may rely on ----

  /** At most two words are inside, and none exactly when the serialiser is idle with nothing on offer. */
  predicate Summary(w: nat, dev: Device, r: Reg, h: Hist) {
    && |r.tdo| == w + 1 && JobsOk(w, h.jobs)
    && 0 <= |h.jobs| - |h.outs| <= 2
    && (|h.jobs| == |h.outs| <==> r.state == Idle && !r.oValid)
    && (r.oValid ==> OnOffer(w, dev, r, h))
    && (r.iReady ==> r.state == Idle || r.state == Shift)
    && (r.state == Idle ==> r.iReady)
    && (r.state == Shift && r.iReady ==> !r.tck && !r.oValid && |h.jobs| == |h.outs| + 2)
    && (r.state == Shift && r.lastBit ==> !r.oValid)
  }

  lemma Holds(w: nat, d: nat, dev: Device, r: Reg, h: Hist)
    requires Inv(w, d, dev, r, h)
    ensures Summary(w, dev, r, h)
  {
  }

  /** A word is offered without waiting only if the receiver was ready the cycle before. */
  lemma OfferNeedsReady(w: nat, d: nat, r: Reg, i: In)
    requires Wf(w, d, r) && InWf(w, i)
    ensures var v := Next(w, d, r, i);
            && (v.oValid && v.state != Wai ==> i.ready && r.state == Shift && r.lastBit)
            && (r.state == Idle ==> !v.oValid)
            && ((v.state == Shift && v.iReady) == (Takes(r, i) && r.state == Shift))
  {
  }

  /** A word on offer that is not taken stays on offer as it is. */
  lemma OfferStable(w: nat, d: nat, dev: Device, r: Reg, i: In, h: Hist)
    requires d > 0 && Wf(w, d, r) && EnvOk(w, dev, r, i, h) && r.oValid && !i.ready
    ensures Next(w, d, r, i).oValid && Next(w, d, r, i).tdo == r.tdo
  {
  }
}
