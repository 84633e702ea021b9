// JtagSniffer watches TMS and TDI and records instruction and data registers; it sees what the TAP latches.

module Sniffer {
  import opened Bits
  import opened Options
  import opened Jtag
  import opened TapFsm
  import opened Bscan
  import opened TapScan
  import opened Client
  import opened UserScan

  // ---- as values ----

  /** Last recorded value and length; bits shifted since the capture; the next bit's weight. */
  datatype Reg = Reg(reg: nat, len: nat, shr: nat, shl: nat, msk: nat)

  datatype Sniff = Sniff(state: TapState, ir: Reg, dr: Reg)

  const EMPTY_REG := Reg(0, 0, 0, 0, 1)

  function Cleared(r: Reg): Reg { r.(shr := 0, shl := 0, msk := 1) }

  function ShiftBit(r: Reg, b: bool): Reg {
    r.(shr := if b then r.shr + r.msk else r.shr, shl := r.shl + 1, msk := 2 * r.msk)
  }

  function Record(r: Reg): Reg { r.(reg := r.shr, len := r.shl) }

  /** One rising edge; `None` is the exception for an instruction of the wrong length. */
  function Sniffed(irLen: nat, irUser: nat, s: Sniff, p: Pin): Option<Sniff> {
    var next := Step(s.state, p.tms);
    var user := s.ir.reg == irUser;
    match s.state
    case CaptureIR => Some(Sniff(next, Cleared(s.ir), s.dr))
    case ShiftIR => Some(Sniff(next, ShiftBit(s.ir, p.tdi), s.dr))
    case UpdateIR => if irLen > 0 && s.ir.shl != irLen then None else Some(Sniff(next, Record(s.ir), s.dr))
    case CaptureDR => Some(Sniff(next, s.ir, if user then Cleared(s.dr) else s.dr))
    case ShiftDR => Some(Sniff(next, s.ir, if user then ShiftBit(s.dr, p.tdi) else s.dr))
    case UpdateDR => Some(Sniff(next, s.ir, if user then Record(s.dr) else s.dr))
    case _ => Some(s.(state := next))
  }

  function Watch(irLen: nat, irUser: nat, s: Sniff, pins: seq<Pin>): Option<Sniff> {
    if pins == [] then Some(s)
    else
      match Watch(irLen, irUser, s, pins[..|pins| - 1])
      case None => None
      case Some(v) => Sniffed(irLen, irUser, v, pins[|pins| - 1])
  }

  // ---- as objects ----

  class JtagShiftReg {
    var reg: nat
    var len: nat
    var shr: nat
    var shl: nat
    var msk: nat
    const lim: nat

    function Now(): Reg
      reads this
    {
      Reg(reg, len, shr, shl, msk)
    }

    constructor (lim: nat)
      ensures Now() == EMPTY_REG && this.lim == lim
    {
      reg, len, shr, shl, msk := 0, 0, 0, 0, 1;
      this.lim := lim;
    }

    method Capture()
      modifies this
      ensures Now() == Cleared(old(Now()))
    {
      shr, shl, msk := 0, 0, 1;
    }

    /** The bit of weight `msk` is clear before, so that it can be added. */
    method Shift(tdi: bool)
      modifies this
      ensures Now() == ShiftBit(old(Now()), tdi)
    {
      if tdi { shr := shr + msk; }
      shl := shl + 1;
      msk := 2 * msk;
    }

    method Update() returns (ok: bool)
      modifies this
      ensures ok <==> lim == 0 || old(shl) == lim
      ensures Now() == if ok then Record(old(Now())) else old(Now())
    {
      if lim > 0 && shl != lim { return false; }
      reg, len := shr, shl;
      return true;
    }
  }

  class JtagSniffer {
    var state: TapState
    const ir: JtagShiftReg
    const dr: JtagShiftReg
    const irUser: nat

    function Now(): Sniff
      reads this, ir, dr
    {
      Sniff(state, ir.Now(), dr.Now())
    }

    predicate Valid() { ir != dr && dr.lim == 0 }

    constructor (irUser: nat, irLen: nat)
      ensures Valid() && fresh(ir) && fresh(dr) && this.irUser == irUser && ir.lim == irLen
      ensures Now() == Sniff(TestLogicReset, EMPTY_REG, EMPTY_REG)
    {
      state, this.irUser := TestLogicReset, irUser;
      dr := new JtagShiftReg(0);
      ir := new JtagShiftReg(irLen);
    }

    /** What the state does when the controller leaves it. */
    method Act(tdi: bool) returns (ok: bool)
      requires Valid()
      modifies ir, dr
      ensures var v := Sniffed(ir.lim, irUser, old(Now()), Pin(false, tdi));
              ok == v.Some? && (ok ==> ir.Now() == v.value.ir && dr.Now() == v.value.dr)
    {
      ok := true;
      var user := ir.reg == irUser;
      match state
      case CaptureIR => ir.Capture();
      case ShiftIR => ir.Shift(tdi);
      case UpdateIR => ok := ir.Update();
      case CaptureDR => if user { dr.Capture(); }
      case ShiftDR => if user { dr.Shift(tdi); }
      case UpdateDR => if user { ok := dr.Update(); }
      case _ =>
    }

    method Advance(tms: bool, tdi: bool) returns (ok: bool)
      requires Valid()
      modifies this, ir, dr
      ensures var v := Sniffed(ir.lim, irUser, old(Now()), Pin(tms, tdi));
              ok == v.Some? && (ok ==> Now() == v.value)
    {
      ok := Act(tdi);
      if ok { state := Step(state, tms); }
    }

    /** Vectors as integers, the low bits first. */
    method ProcessVecs(tms: nat, tdi: nat, nbits: nat) returns (ok: bool)
      requires Valid()
      modifies this, ir, dr
      ensures var v := Watch(ir.lim, irUser, old(Now()), PinsOf(tms, tdi, nbits));
              ok == v.Some? && (ok ==> Now() == v.value)
    {
      var a, b := tms, tdi;
      ghost var pins := PinsOf(tms, tdi, nbits);
      assert pins[..0] == [];
      for i := 0 to nbits
        invariant BitsOf(a, nbits - i) == BitsOf(tms, nbits)[i..] && BitsOf(b, nbits - i) == BitsOf(tdi, nbits)[i..]
        invariant Watch(ir.lim, irUser, old(Now()), pins[..i]) == Some(Now())
      {
        NextBit(pins, i);
        assert BitsOf(a, nbits - i)[0] == pins[i].tms && BitsOf(b, nbits - i)[0] == pins[i].tdi;
        ok := Advance(a % 2 == 1, b % 2 == 1);
        if !ok {
          NeverAgain(ir.lim, irUser, old(Now()), pins, i + 1);
          return false;
        }
        assert BitsOf(a, nbits - i)[1..] == BitsOf(tms, nbits)[i + 1..];
        assert BitsOf(b, nbits - i)[1..] == BitsOf(tdi, nbits)[i + 1..];
        a := a / 2;
        b := b / 2;
      }
      assert pins[..nbits] == pins;
      return true;
    }
  }

  lemma NextBit(pins: seq<Pin>, i: nat)
    requires i < |pins|
    ensures pins[..i + 1][..i] == pins[..i] && pins[..i + 1][i] == pins[i]
  {
  }

  /** After the exception nothing more is processed. */
  lemma {:induction false} NeverAgain(irLen: nat, irUser: nat, s: Sniff, pins: seq<Pin>, k: nat)
    requires k <= |pins| && Watch(irLen, irUser, s, pins[..k]) == None
    ensures Watch(irLen, irUser, s, pins) == None
    decreases |pins|
  {
    if k == |pins| {
      assert pins[..k] == pins;
    } else {
      assert pins[..|pins| - 1][..k] == pins[..k];
      NeverAgain(irLen, irUser, s, pins[..|pins| - 1], k);
    }
  }

  /** Without a length to compare with there is no exception. */
  lemma {:induction false} NoLimit(irUser: nat, s: Sniff, pins: seq<Pin>)
    ensures Watch(0, irUser, s, pins).Some?
  {
    if pins != [] { NoLimit(irUser, s, pins[..|pins| - 1]); }
  }

  // ---- it sees what the TAP latches ----

  /** The sniffer's view of an instruction scan in which `x` was shifted in. */
  predicate Follows(cfg: Cfg, s: Sniff, t: Tap, x: seq<bool>) {
    && TapOk(cfg, t) && s.state == t.state
    && (t.state.ShiftIR? || t.state.Exit1IR? || t.state.PauseIR? || t.state.Exit2IR? || t.state.UpdateIR? ==>
          && s.ir.shr == NatOf(x) && s.ir.shl == |x| && s.ir.msk == Pow2(|x|)
          && t.shiftIr == Window(cfg.irVal, x) && (t.state.UpdateIR? ==> t.ir == t.shiftIr))
  }

  lemma {:induction false} NatOfSnoc(x: seq<bool>, b: bool)
    ensures NatOf(x + [b]) == NatOf(x) + (if b then Pow2(|x|) else 0)
  {
    if x == [] {
      assert [] + [b] == [b];
    } else {
      assert (x + [b])[1..] == x[1..] + [b];
      NatOfSnoc(x[1..], b);
    }
  }

  /** What a period of TCK does to the instruction register. */
  predicate IrStep(cfg: Cfg, t: Tap, p: Pin, v: Tap) {
    && TapOk(cfg, t) && TapOk(cfg, v) && v.state == Step(t.state, p.tms)
    && (t.state.CaptureIR? ==> v.shiftIr == cfg.irVal)
    && (t.state.ShiftIR? ==> v.shiftIr == ShiftIn(t.shiftIr, p.tdi))
    && (t.state.Exit1IR? || t.state.PauseIR? || t.state.Exit2IR? ==> v.shiftIr == t.shiftIr)
    && (v.state.UpdateIR? ==> v.ir == v.shiftIr)
  }

  lemma CycleIrStep(cfg: Cfg, t: Tap, p: Pin, u: bool)
    requires TapOk(cfg, t)
    ensures IrStep(cfg, t, p, Cycle(cfg, t, p, u))
  {
  }

  function ShiftedAfter(s: TapState, x: seq<bool>, p: Pin): seq<bool> {
    if s.CaptureIR? then [] else if s.ShiftIR? then x + [p.tdi] else x
  }

  lemma FollowsNext(cfg: Cfg, irUser: nat, s: Sniff, t: Tap, x: seq<bool>, p: Pin, v: Tap)
    requires Follows(cfg, s, t, x) && IrStep(cfg, t, p, v) && !t.state.UpdateIR?
    ensures var s' := Sniffed(cfg.irLen, irUser, s, p);
            s'.Some? && Follows(cfg, s'.value, v, ShiftedAfter(t.state, x, p))
  {
    if t.state.CaptureIR? {
      assert cfg.irVal + [] == cfg.irVal;
    } else if t.state.ShiftIR? {
      WindowShift(cfg.irVal, x, p.tdi);
      NatOfSnoc(x, p.tdi);
    }
  }

  lemma FollowsStep(cfg: Cfg, irUser: nat, s: Sniff, t: Tap, x: seq<bool>, p: Pin, u: bool)
    requires Follows(cfg, s, t, x)
    ensures match Sniffed(cfg.irLen, irUser, s, p)
            case None => t.state.UpdateIR? && |x| != cfg.irLen
            case Some(v) =>
              && Follows(cfg, v, Cycle(cfg, t, p, u), ShiftedAfter(t.state, x, p))
              && (t.state.UpdateIR? ==> |x| == cfg.irLen && v.ir.reg == NatOf(t.ir) && v.ir.len == cfg.irLen)
  {
    CycleIrStep(cfg, t, p, u);
    if !t.state.UpdateIR? {
      FollowsNext(cfg, irUser, s, t, x, p, Cycle(cfg, t, p, u));
    } else if |x| == cfg.irLen {
      assert (cfg.irVal + x)[|x|..] == x;
    }
  }

  /** TDI at the Shift-IR edges since the latest Capture-IR, by the state diagram alone. */
  function LastScan(pins: seq<Pin>): seq<bool> {
    if pins == [] then []
    else
      var pre := pins[..|pins| - 1];
      ShiftedAfter(StateAfter(TestLogicReset, pre), LastScan(pre), pins[|pins| - 1])
  }

  lemma {:induction false} StateAfterJoined(s: TapState, before: seq<Pin>, scan: seq<Pin>)
    ensures StateAfter(s, before + scan) == StateAfter(StateAfter(s, before), scan)
  {
    if scan == [] {
      assert before + scan == before;
    } else {
      var pre := scan[..|scan| - 1];
      StateAfterJoined(s, before, pre);
      assert (before + scan)[..|before + scan| - 1] == before + pre;
    }
  }

  /** For a scan that goes on since its capture, this is what was sent through the register. */
  lemma {:induction false} LastScanIsSent(before: seq<Pin>, scan: seq<Pin>)
    requires StateAfter(TestLogicReset, before) == CaptureIR && OneScan(true, CaptureIR, scan) && scan != []
    ensures LastScan(before + scan) == Sent(true, CaptureIR, scan)
  {
    var pre := scan[..|scan| - 1];
    StateAfterJoined(TestLogicReset, before, pre);
    assert (before + scan)[..|before + scan| - 1] == before + pre;
    if pre != [] {
      LastScanIsSent(before, pre);
      LeftCapture(pre);
    }
  }

  /** Inside a scan, the capture does not come back. */
  lemma {:induction false} LeftCapture(scan: seq<Pin>)
    requires OneScan(true, CaptureIR, scan) && scan != []
    ensures StateAfter(CaptureIR, scan) != CaptureIR
  {
    var pre := scan[..|scan| - 1];
    if pre != [] { LeftCapture(pre); }
  }

  function Start(): Sniff { Sniff(TestLogicReset, EMPTY_REG, EMPTY_REG) }

  /**
   In every run from reset: unless an instruction scan was of the wrong length, the sniffer is in the TAP's state, and
   what it has counted and collected is what the scan has sent.
   */
  lemma {:induction false} SnifferFollows(cfg: Cfg, irUser: nat, user: Device, pins: seq<Pin>)
    requires CfgOk(cfg) && Watch(cfg.irLen, irUser, Start(), pins).Some?
    ensures Follows(cfg, Watch(cfg.irLen, irUser, Start(), pins).value, Run(cfg, user, PowerUp(cfg), pins),
                    LastScan(pins))
  {
    if pins != [] {
      var n := |pins| - 1;
      SnifferFollows(cfg, irUser, user, pins[..n]);
      RunState(cfg, user, PowerUp(cfg), pins[..n]);
      FollowsStep(cfg, irUser, Watch(cfg.irLen, irUser, Start(), pins[..n]).value,
                  Run(cfg, user, PowerUp(cfg), pins[..n]), LastScan(pins[..n]), pins[n], user(pins));
    }
  }

  /**
   In Update-IR the sniffer raises its exception if and only if the scan sent another number of bits than the
   instruction register has; otherwise it records the instruction that the TAP has just latched.
   */
  lemma RecordedIsLatched(cfg: Cfg, irUser: nat, user: Device, pins: seq<Pin>, p: Pin)
    requires CfgOk(cfg) && StateAfter(TestLogicReset, pins).UpdateIR? && Watch(cfg.irLen, irUser, Start(), pins).Some?
    ensures var v := Sniffed(cfg.irLen, irUser, Watch(cfg.irLen, irUser, Start(), pins).value, p);
            && (v.Some? <==> |LastScan(pins)| == cfg.irLen)
            && (v.Some? ==> v.value.ir.reg == NatOf(Run(cfg, user, PowerUp(cfg), pins).ir))
  {
    SnifferFollows(cfg, irUser, user, pins);
    RunState(cfg, user, PowerUp(cfg), pins);
    FollowsStep(cfg, irUser, Watch(cfg.irLen, irUser, Start(), pins).value,
                Run(cfg, user, PowerUp(cfg), pins), LastScan(pins), p, false);
  }

  // ---- and what passes through the USER register ----

  /** Past the capture of a data scan in which `x` was sent: recorded for the USER instruction only. */
  predicate Collected(irUser: nat, s: Sniff, v: Sniff, x: seq<bool>) {
    && v.ir == s.ir
    && v.dr == if s.ir.reg == irUser then Reg(s.dr.reg, s.dr.len, NatOf(x), |x|, Pow2(|x|)) else s.dr
  }

  lemma CollectedStep(irLen: nat, irUser: nat, s: Sniff, v: Sniff, x: seq<bool>, p: Pin)
    requires InScan(false, v.state) && InScan(false, Step(v.state, p.tms))
    requires if v.state.CaptureDR? then v == s && x == [] else Collected(irUser, s, v, x)
    ensures var w := Sniffed(irLen, irUser, v, p);
            && w.Some? && w.value.state == Step(v.state, p.tms)
            && Collected(irUser, s, w.value, if v.state.ShiftDR? then x + [p.tdi] else x)
  {
    NatOfSnoc(x, p.tdi);
  }

  /**
   For any scan of the data register, whatever its data and its detours are: with the USER instruction the bits that
   were sent are collected, with their number; with any other one the data record stays as it is.
   */
  lemma {:induction false} ScanCollected(irLen: nat, irUser: nat, s: Sniff, scan: seq<Pin>)
    requires s.state.CaptureDR? && OneScan(false, CaptureDR, scan) && scan != []
    ensures var v := Watch(irLen, irUser, s, scan);
            && v.Some? && v.value.state == StateAfter(CaptureDR, scan) && !v.value.state.CaptureDR?
            && Collected(irUser, s, v.value, Sent(false, CaptureDR, scan))
  {
    var n := |scan| - 1;
    if n > 0 { ScanCollected(irLen, irUser, s, scan[..n]); }
    var x := Sent(false, CaptureDR, scan[..n]);
    CollectedStep(irLen, irUser, s, Watch(irLen, irUser, s, scan[..n]).value, x, scan[n]);
    assert x + [] == x;
  }

  /** What is recorded when Update-DR is left, for a scan in which `x` was sent. */
  lemma UpdateRecords(irLen: nat, irUser: nat, s: Sniff, scan: seq<Pin>, p: Pin, q: Pin)
    requires s.state.CaptureDR? && OneScan(false, CaptureDR, scan) && scan != []
    requires Step(StateAfter(CaptureDR, scan), p.tms) == UpdateDR
    ensures var v := Watch(irLen, irUser, s, scan + [p] + [q]);
            var x := Sent(false, CaptureDR, scan);
            && v.Some? && v.value.ir == s.ir
            && (s.ir.reg == irUser ==> v.value.dr.reg == NatOf(x) && v.value.dr.len == |x|)
            && (s.ir.reg != irUser ==> v.value.dr == s.dr)
  {
    ScanCollected(irLen, irUser, s, scan);
    assert (scan + [p])[..|scan|] == scan;
    assert (scan + [p] + [q])[..|scan| + 1] == scan + [p];
  }

  /** If the scan is as long as the register outside, this is what the register holds when it is told to update. */
  lemma RecordedIsUsers(cfg: Cfg, cap: Vec, b: Bench, irUser: nat, s: Sniff, scan: seq<Pin>, p: Pin, q: Pin)
    requires BenchOk(cfg, cap, b) && b.o.selUser && SelUser(cfg, b.t.ir) && b.t.state.CaptureDR?
    requires s.state.CaptureDR? && s.ir.reg == irUser && OneScan(false, CaptureDR, scan) && scan != []
    requires Step(StateAfter(CaptureDR, scan), p.tms) == UpdateDR && |Sent(false, CaptureDR, scan)| == |cap|
    ensures var v := BenchCycle(cfg, cap, BenchRun(cfg, cap, b, scan), p);
            var w := Watch(cfg.irLen, irUser, s, scan + [p] + [q]);
            && v.o.update && w.Some? && w.value.dr.reg == NatOf(v.sh) && w.value.dr.len == |v.sh|
  {
    UserUpdates(cfg, cap, b, scan, p);
    UpdateRecords(cfg.irLen, irUser, s, scan, p, q);
    var x := Sent(false, CaptureDR, scan);
    assert x[0..] == x;
  }
}
