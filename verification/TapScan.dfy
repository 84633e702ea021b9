// What a scan does, whatever its length, its data and its detours through Pause are.

module TapScan {
  import opened Bits
  import opened Jtag
  import opened TapFsm
  import opened Bscan

  /** A full period of TCK; `user` drives TDO of the USER register from all that was clocked in. */
  function Cycle(cfg: Cfg, t: Tap, p: Pin, user: bool): (v: Tap)
    requires TapOk(cfg, t)
    ensures TapOk(cfg, v) && v.state == Step(t.state, p.tms)
  {
    Fall(cfg, Rise(cfg, t, p), user)
  }

  function Run(cfg: Cfg, user: Device, t: Tap, pins: seq<Pin>): (v: Tap)
    requires TapOk(cfg, t)
    ensures TapOk(cfg, v)
  {
    if pins == [] then t else Cycle(cfg, Run(cfg, user, t, pins[..|pins| - 1]), pins[|pins| - 1], user(pins))
  }

  /** The scan path a state belongs to, from the capture on. */
  predicate InScan(ir: bool, s: TapState) {
    if ir then s.CaptureIR? || s.ShiftIR? || s.Exit1IR? || s.PauseIR? || s.Exit2IR?
    else s.CaptureDR? || s.ShiftDR? || s.Exit1DR? || s.PauseDR? || s.Exit2DR?
  }

  predicate Shifting(ir: bool, s: TapState) { if ir then s.ShiftIR? else s.ShiftDR? }

  /** The pins keep the controller inside one scan. */
  predicate OneScan(ir: bool, s: TapState, pins: seq<Pin>) {
    if pins == [] then InScan(ir, s)
    else OneScan(ir, s, pins[..|pins| - 1]) && InScan(ir, StateAfter(s, pins))
  }

  function StateAfter(s: TapState, pins: seq<Pin>): TapState {
    if pins == [] then s else Step(StateAfter(s, pins[..|pins| - 1]), pins[|pins| - 1].tms)
  }

  /** TDI at those rising edges at which a register shifts. */
  function Sent(ir: bool, s: TapState, pins: seq<Pin>): seq<bool> {
    if pins == [] then []
    else
      var pre := pins[..|pins| - 1];
      Sent(ir, s, pre) + (if Shifting(ir, StateAfter(s, pre)) then [pins[|pins| - 1].tdi] else [])
  }

  /** TDO just before the same edges. */
  function Seen(cfg: Cfg, user: Device, ir: bool, t: Tap, pins: seq<Pin>): seq<bool>
    requires TapOk(cfg, t)
  {
    if pins == [] then []
    else
      var pre := pins[..|pins| - 1];
      var v := Run(cfg, user, t, pre);
      Seen(cfg, user, ir, t, pre) + (if Shifting(ir, v.state) then [v.tdo] else [])
  }

  lemma {:induction false} RunState(cfg: Cfg, user: Device, t: Tap, pins: seq<Pin>)
    requires TapOk(cfg, t)
    ensures Run(cfg, user, t, pins).state == StateAfter(t.state, pins)
  {
    if pins != [] { RunState(cfg, user, t, pins[..|pins| - 1]); }
  }

  // ---- a register in a scan ----

  /** What a register that captured `val` holds after `x` was shifted in. */
  function Window(val: Vec, x: seq<bool>): (v: Vec)
    ensures |v| == |val|
  {
    (val + x)[|x|..]
  }

  lemma WindowShift(val: Vec, x: seq<bool>, b: bool)
    requires |val| > 0
    ensures Window(val, x + [b]) == ShiftIn(Window(val, x), b)
    ensures (val + (x + [b]))[..|x| + 1] == (val + x)[..|x|] + [Window(val, x)[0]]
  {
    assert val + (x + [b]) == (val + x) + [b];
  }

  /** The register in the scan path: the instruction register or the selected bits of the data register. */
  function Path(ir: bool, t: Tap): Vec
    requires t.drLast < |t.shiftDr|
  {
    if ir then t.shiftIr else t.shiftDr[..t.drLast + 1]
  }

  /** Past the capture of `val`; `x` was shifted in since. */
  predicate Holding(cfg: Cfg, ir: bool, t: Tap, val: Vec, x: seq<bool>) {
    && TapOk(cfg, t) && |val| > 0 && InScan(ir, t.state) && !t.state.CaptureIR? && !t.state.CaptureDR?
    && Path(ir, t) == Window(val, x)
    && (!ir ==> t.decoded && !SelUser(cfg, t.ir))
    && (Shifting(ir, t.state) ==> t.tdo == Window(val, x)[0])
  }

  lemma HoldingStep(cfg: Cfg, ir: bool, t: Tap, val: Vec, x: seq<bool>, p: Pin, user: bool)
    requires Holding(cfg, ir, t, val, x) && InScan(ir, Step(t.state, p.tms))
    ensures Holding(cfg, ir, Cycle(cfg, t, p, user), val, if Shifting(ir, t.state) then x + [p.tdi] else x)
    ensures Cycle(cfg, t, p, user).ir == t.ir
  {
    if Shifting(ir, t.state) {
      WindowShift(val, x, p.tdi);
      if !ir {
        assert ShiftLow(t.shiftDr, t.drLast, p.tdi)[..t.drLast + 1] == ShiftIn(t.shiftDr[..t.drLast + 1], p.tdi);
      }
    }
  }

  /** What is captured: the fixed pattern, the ID or, for BYPASS, a zero. */
  function Captured(cfg: Cfg, ir: bool, t: Tap): Vec {
    if ir then cfg.irVal
    else if t.ir == cfg.regIdcode then cfg.idcode
    else if t.ir == cfg.regUsercode then cfg.usercode
    else [false]
  }

  /** The data register selected is one of the TAP's own. */
  predicate OwnRegister(cfg: Cfg, t: Tap) {
    t.ir == cfg.regIdcode || t.ir == cfg.regUsercode || t.ir == Bypass(cfg)
  }

  lemma CaptureStep(cfg: Cfg, ir: bool, t: Tap, p: Pin, user: bool)
    requires TapOk(cfg, t)
    requires if ir then t.state.CaptureIR? else t.state.CaptureDR? && OwnRegister(cfg, t) && !SelUser(cfg, t.ir)
    ensures Holding(cfg, ir, Cycle(cfg, t, p, user), Captured(cfg, ir, t), [])
    ensures Cycle(cfg, t, p, user).ir == t.ir
  {
    var v := Cycle(cfg, t, p, user);
    assert Path(ir, v) == Captured(cfg, ir, t);
    assert Window(Captured(cfg, ir, t), []) == Captured(cfg, ir, t) by {
      assert Captured(cfg, ir, t) + [] == Captured(cfg, ir, t);
    }
  }

  /**
   For any number of shifts, any data and any detours: a scan that starts with a capture shows the captured bits first
   and then what was sent, and the register holds the end of this sequence.
   */
  lemma {:induction false} ScanSemantics(cfg: Cfg, user: Device, ir: bool, t: Tap, pins: seq<Pin>)
    requires TapOk(cfg, t)
    requires if ir then t.state.CaptureIR? else t.state.CaptureDR? && OwnRegister(cfg, t) && !SelUser(cfg, t.ir)
    requires OneScan(ir, t.state, pins) && pins != []
    ensures var x := Sent(ir, t.state, pins);
            var val := Captured(cfg, ir, t);
            && Seen(cfg, user, ir, t, pins) == (val + x)[..|x|]
            && Holding(cfg, ir, Run(cfg, user, t, pins), val, x) && Run(cfg, user, t, pins).ir == t.ir
  {
    var n := |pins| - 1;
    var pre := pins[..n];
    if pre == [] {
      CaptureStep(cfg, ir, t, pins[n], user(pins));
      assert Seen(cfg, user, ir, t, pre) == [] && Sent(ir, t.state, pre) == [];
    } else {
      ScanSemantics(cfg, user, ir, t, pre);
      RunState(cfg, user, t, pre);
      ScanStep(cfg, user, ir, t, pins, Captured(cfg, ir, t), Sent(ir, t.state, pre));
    }
  }

  lemma ScanStep(cfg: Cfg, user: Device, ir: bool, t: Tap, pins: seq<Pin>, val: Vec, x: seq<bool>)
    requires TapOk(cfg, t) && |pins| > 1
    requires var pre := pins[..|pins| - 1];
             var v := Run(cfg, user, t, pre);
             && v.state == StateAfter(t.state, pre) && x == Sent(ir, t.state, pre)
             && InScan(ir, StateAfter(t.state, pins))
             && Seen(cfg, user, ir, t, pre) == (val + x)[..|x|] && Holding(cfg, ir, v, val, x)
    ensures var x' := Sent(ir, t.state, pins);
            && Seen(cfg, user, ir, t, pins) == (val + x')[..|x'|]
            && Holding(cfg, ir, Run(cfg, user, t, pins), val, x')
            && Run(cfg, user, t, pins).ir == Run(cfg, user, t, pins[..|pins| - 1]).ir
  {
    var p := pins[|pins| - 1];
    HoldingStep(cfg, ir, Run(cfg, user, t, pins[..|pins| - 1]), val, x, p, user(pins));
    WindowShift(val, x, p.tdi);
  }

  /** Update-IR latches the last bits of what passed through the instruction register. */
  lemma UpdateLatches(cfg: Cfg, user: Device, t: Tap, pins: seq<Pin>, p: Pin, u: bool)
    requires TapOk(cfg, t) && t.state.CaptureIR? && OneScan(true, t.state, pins) && pins != []
    requires Step(StateAfter(t.state, pins), p.tms) == UpdateIR
    ensures var x := Sent(true, t.state, pins);
            var v := Cycle(cfg, Run(cfg, user, t, pins), p, u);
            && v.state == UpdateIR && v.ir == Window(cfg.irVal, x)
            && (|x| >= cfg.irLen ==> v.ir == x[|x| - cfg.irLen..])
  {
    ScanSemantics(cfg, user, true, t, pins);
    RunState(cfg, user, t, pins);
    WindowLast(cfg.irVal, Sent(true, t.state, pins));
  }

  lemma WindowLast(val: Vec, x: seq<bool>)
    ensures |x| >= |val| ==> Window(val, x) == x[|x| - |val|..]
  {
    if |x| >= |val| { assert (val + x)[|x|..] == x[|x| - |val|..]; }
  }
}
