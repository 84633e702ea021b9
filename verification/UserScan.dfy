// Scans of the USER data register, which is outside the TAP: its level gets through to TDO, and the control signals
// make a register there take part in a scan like one of the TAP's own.

module UserScan {
  import opened Bits
  import opened Jtag
  import opened TapFsm
  import opened Bscan
  import opened TapScan

  // ---- TDO ----

  /** Outside of the shift states TDO is high. */
  lemma HighOutside(cfg: Cfg, t: Tap, p: Pin, user: bool)
    requires TapOk(cfg, t) && !Step(t.state, p.tms).ShiftDR? && !Step(t.state, p.tms).ShiftIR?
    ensures Cycle(cfg, t, p, user).tdo
  {
  }

  /** With the USER instruction, TDO is what the USER register drives. */
  lemma UserLevel(cfg: Cfg, t: Tap, p: Pin, user: bool)
    requires TapOk(cfg, t) && t.ir == cfg.regUser != Bypass(cfg) && Step(t.state, p.tms).ShiftDR?
    ensures Cycle(cfg, t, p, user).tdo == user && Cycle(cfg, t, p, user).ir == t.ir
  {
  }

  /** What the USER register drove at the edges at which it was to shift. */
  function Drove(user: Device, s: TapState, pins: seq<Pin>): seq<bool> {
    if pins == [] then []
    else
      var pre := pins[..|pins| - 1];
      Drove(user, s, pre) + (if Shifting(false, StateAfter(s, pre)) then [user(pre)] else [])
  }

  /** Inside a scan of the data register the instruction stays. */
  lemma {:induction false} IrStays(cfg: Cfg, user: Device, t: Tap, pins: seq<Pin>)
    requires TapOk(cfg, t) && t.state.CaptureDR? && OneScan(false, t.state, pins)
    ensures Run(cfg, user, t, pins).ir == t.ir
  {
    if pins != [] {
      var n := |pins| - 1;
      IrStays(cfg, user, t, pins[..n]);
      RunState(cfg, user, t, pins[..n]);
      IrKept(cfg, Run(cfg, user, t, pins[..n]), pins[n], user(pins));
    }
  }

  lemma IrKept(cfg: Cfg, t: Tap, p: Pin, user: bool)
    requires TapOk(cfg, t) && InScan(false, Step(t.state, p.tms))
    ensures Cycle(cfg, t, p, user).ir == t.ir
  {
  }

  /** A scan of the USER register, whatever it does and whatever detours there are, shows what it drove. */
  lemma {:induction false} UserSeen(cfg: Cfg, user: Device, t: Tap, pins: seq<Pin>)
    requires TapOk(cfg, t) && t.state.CaptureDR? && t.ir == cfg.regUser != Bypass(cfg)
    requires OneScan(false, t.state, pins)
    ensures Seen(cfg, user, false, t, pins) == Drove(user, t.state, pins)
  {
    if pins != [] {
      var pre := pins[..|pins| - 1];
      UserSeen(cfg, user, t, pre);
      RunState(cfg, user, t, pre);
      if StateAfter(t.state, pre).ShiftDR? { LevelAfter(cfg, user, t, pre); }
    }
  }

  lemma LevelAfter(cfg: Cfg, user: Device, t: Tap, pins: seq<Pin>)
    requires TapOk(cfg, t) && t.state.CaptureDR? && t.ir == cfg.regUser != Bypass(cfg)
    requires OneScan(false, t.state, pins) && StateAfter(t.state, pins).ShiftDR?
    ensures Run(cfg, user, t, pins).tdo == user(pins)
  {
    var n := |pins| - 1;
    IrStays(cfg, user, t, pins[..n]);
    RunState(cfg, user, t, pins[..n]);
    UserLevel(cfg, Run(cfg, user, t, pins[..n]), pins[n], user(pins));
  }

  /** An instruction that selects no register. */
  predicate SelectsNone(cfg: Cfg, ir: Vec) {
    ir != cfg.regIdcode && ir != cfg.regUsercode && ir != Bypass(cfg) && ir != cfg.regUser
  }

  predicate AllHigh(s: seq<bool>) { forall i :: 0 <= i < |s| ==> s[i] }

  /** With such an instruction a scan shows nothing but ones. */
  lemma {:induction false} NoneSeen(cfg: Cfg, user: Device, t: Tap, pins: seq<Pin>)
    requires TapOk(cfg, t) && t.state.CaptureDR? && SelectsNone(cfg, t.ir) && OneScan(false, t.state, pins)
    ensures AllHigh(Seen(cfg, user, false, t, pins))
    ensures pins != [] ==> !Run(cfg, user, t, pins).decoded && Run(cfg, user, t, pins).tdo
  {
    if pins != [] {
      var n := |pins| - 1;
      NoneSeen(cfg, user, t, pins[..n]);
      IrStays(cfg, user, t, pins[..n]);
      RunState(cfg, user, t, pins[..n]);
      NoneStep(cfg, Run(cfg, user, t, pins[..n]), pins[n], user(pins));
    }
  }

  lemma NoneStep(cfg: Cfg, t: Tap, p: Pin, user: bool)
    requires TapOk(cfg, t) && SelectsNone(cfg, t.ir) && InScan(false, t.state) && InScan(false, Step(t.state, p.tms))
    requires t.state.CaptureDR? || !t.decoded
    ensures !Cycle(cfg, t, p, user).decoded && Cycle(cfg, t, p, user).tdo
  {
  }

  // ---- the control signals ----

  /** A full period of TCK at the ports. */
  function PortsCycle(cfg: Cfg, t: Tap, o: Ports, p: Pin): Ports
    requires TapOk(cfg, t)
  {
    PortsFall(cfg, Rise(cfg, t, p), PortsRise(cfg, t, o, p.tms))
  }

  /** In the low phase of TCK the signals tell the state, and SEL whether the USER register is selected. */
  predicate InSync(cfg: Cfg, t: Tap, o: Ports) {
    && o.captureDr == t.state.CaptureDR? && o.shiftDr == t.state.ShiftDR? && o.update == o.updateDr == t.state.UpdateDR?
    && o.drckSel == ((o.captureDr || o.shiftDr) && o.selUser)
    && o.drck == (!o.drckSel && o.selUser) && o.sel == o.selUser
    && (cfg.regUser != cfg.regIdcode ==> o.selUser == SelUser(cfg, t.ir))
    && (t.state.TestLogicReset? ==> !o.selUser) && (t.state.UpdateIR? ==> o.selUser == SelUser(cfg, t.shiftIr))
  }

  lemma PortsStay(cfg: Cfg, t: Tap, o: Ports, p: Pin, user: bool)
    requires TapOk(cfg, t) && InSync(cfg, t, o)
    ensures InSync(cfg, Cycle(cfg, t, p, user), PortsCycle(cfg, t, o, p))
  {
  }

  function RunPorts(cfg: Cfg, user: Device, t: Tap, o: Ports, pins: seq<Pin>): Ports
    requires TapOk(cfg, t)
  {
    if pins == [] then o
    else
      var n := |pins| - 1;
      PortsCycle(cfg, Run(cfg, user, t, pins[..n]), RunPorts(cfg, user, t, o, pins[..n]), pins[n])
  }

  /** In every run from power-up. */
  lemma {:induction false} PortsAlways(cfg: Cfg, user: Device, pins: seq<Pin>)
    requires CfgOk(cfg)
    ensures InSync(cfg, Run(cfg, user, PowerUp(cfg), pins), RunPorts(cfg, user, PowerUp(cfg), NO_PORTS, pins))
  {
    if pins != [] {
      var n := |pins| - 1;
      PortsAlways(cfg, user, pins[..n]);
      PortsStay(cfg, Run(cfg, user, PowerUp(cfg), pins[..n]),
                RunPorts(cfg, user, PowerUp(cfg), NO_PORTS, pins[..n]), pins[n], user(pins));
    }
  }

  /**
   DRCK rises with TCK exactly when the USER register is selected and is to capture or to shift. Where it rises while
   TCK falls, which is when the register gets selected, neither CAPTURE nor SHIFT is active.
   */
  lemma DrckRises(cfg: Cfg, t: Tap, o: Ports, p: Pin)
    requires TapOk(cfg, t) && InSync(cfg, t, o)
    ensures var up := PortsRise(cfg, t, o, p.tms);
            var down := PortsCycle(cfg, t, o, p);
            && (!o.drck && up.drck <==> o.selUser && (t.state.CaptureDR? || t.state.ShiftDR?))
            && (!up.drck && down.drck ==>
                  !down.captureDr && !down.shiftDr && !up.captureDr && !up.shiftDr && down.selUser)
  {
  }

  // ---- a register outside ----

  /** It is clocked by DRCK: it captures `cap` or shifts, as it is told. */
  function UserClock(before: bool, o: Ports, cap: Vec, sh: Vec, tdi: bool): (v: Vec)
    requires |sh| == |cap| > 0
    ensures |v| == |cap|
  {
    if before || !o.drck then sh
    else if o.captureDr then cap
    else if o.shiftDr then ShiftIn(sh, tdi)
    else sh
  }

  /** TAP, ports and the register. */
  datatype Bench = Bench(t: Tap, o: Ports, sh: Vec)

  predicate BenchOk(cfg: Cfg, cap: Vec, b: Bench) {
    TapOk(cfg, b.t) && InSync(cfg, b.t, b.o) && |b.sh| == |cap| > 0
  }

  /** A full period of TCK; the lowest bit of the register is its level when TCK falls. */
  function BenchCycle(cfg: Cfg, cap: Vec, b: Bench, p: Pin): (v: Bench)
    requires TapOk(cfg, b.t) && |b.sh| == |cap| > 0
    ensures TapOk(cfg, v.t) && |v.sh| == |cap| && v.t.state == Step(b.t.state, p.tms)
  {
    var up := PortsRise(cfg, b.t, b.o, p.tms);
    var sh := UserClock(b.o.drck, up, cap, b.sh, p.tdi);
    var down := PortsCycle(cfg, b.t, b.o, p);
    Bench(Cycle(cfg, b.t, p, sh[0]), down, UserClock(up.drck, down, cap, sh, p.tdi))
  }

  function BenchRun(cfg: Cfg, cap: Vec, b: Bench, pins: seq<Pin>): (v: Bench)
    requires TapOk(cfg, b.t) && |b.sh| == |cap| > 0
    ensures TapOk(cfg, v.t) && |v.sh| == |cap|
  {
    if pins == [] then b
    else BenchCycle(cfg, cap, BenchRun(cfg, cap, b, pins[..|pins| - 1]), pins[|pins| - 1])
  }

  /** TDO just before the edges at which the register shifts. */
  function BenchSeen(cfg: Cfg, cap: Vec, b: Bench, pins: seq<Pin>): seq<bool>
    requires TapOk(cfg, b.t) && |b.sh| == |cap| > 0
  {
    if pins == [] then []
    else
      var pre := pins[..|pins| - 1];
      var v := BenchRun(cfg, cap, b, pre);
      BenchSeen(cfg, cap, b, pre) + (if v.t.state.ShiftDR? then [v.t.tdo] else [])
  }

  /** The USER register is selected and past its capture; `x` was shifted in since. */
  predicate UserHolding(cfg: Cfg, cap: Vec, b: Bench, x: seq<bool>) {
    && BenchOk(cfg, cap, b) && b.o.selUser && SelUser(cfg, b.t.ir)
    && InScan(false, b.t.state) && !b.t.state.CaptureDR? && b.sh == Window(cap, x)
    && (b.t.state.ShiftDR? ==> b.t.tdo == Window(cap, x)[0])
  }

  /** A period inside a scan of the register: it is clocked or left alone, and its level gets through. */
  lemma BenchStep(cfg: Cfg, cap: Vec, b: Bench, p: Pin) returns (sh: Vec)
    requires BenchOk(cfg, cap, b) && b.o.selUser && SelUser(cfg, b.t.ir)
    requires InScan(false, b.t.state) && (InScan(false, Step(b.t.state, p.tms)) || Step(b.t.state, p.tms).UpdateDR?)
    ensures sh == if b.t.state.CaptureDR? then cap else if b.t.state.ShiftDR? then ShiftIn(b.sh, p.tdi) else b.sh
    ensures var v := BenchCycle(cfg, cap, b, p);
            && BenchOk(cfg, cap, v) && v.o.selUser && v.t.ir == b.t.ir && v.t.state == Step(b.t.state, p.tms)
            && v.sh == sh && (v.t.state.ShiftDR? ==> v.t.tdo == sh[0])
  {
    sh := UserClock(b.o.drck, PortsRise(cfg, b.t, b.o, p.tms), cap, b.sh, p.tdi);
    PortsStay(cfg, b.t, b.o, p, sh[0]);
  }

  lemma CaptureStarts(cfg: Cfg, cap: Vec, b: Bench, p: Pin)
    requires BenchOk(cfg, cap, b) && b.o.selUser && SelUser(cfg, b.t.ir) && b.t.state.CaptureDR?
    requires InScan(false, Step(b.t.state, p.tms))
    ensures UserHolding(cfg, cap, BenchCycle(cfg, cap, b, p), [])
  {
    var sh := BenchStep(cfg, cap, b, p);
    assert cap + [] == cap;
  }

  lemma ShiftGoesOn(cfg: Cfg, cap: Vec, b: Bench, x: seq<bool>, p: Pin)
    requires UserHolding(cfg, cap, b, x) && InScan(false, Step(b.t.state, p.tms))
    ensures UserHolding(cfg, cap, BenchCycle(cfg, cap, b, p), if b.t.state.ShiftDR? then x + [p.tdi] else x)
  {
    var sh := BenchStep(cfg, cap, b, p);
    WindowShift(cap, x, p.tdi);
  }

  /**
   For any register outside, any number of shifts, any data and any detours: a scan with the USER instruction shows what
   the register captured and then what was sent, and the register holds the end of that.
   */
  lemma {:induction false} UserScanSemantics(cfg: Cfg, cap: Vec, b: Bench, pins: seq<Pin>)
    requires BenchOk(cfg, cap, b) && b.o.selUser && SelUser(cfg, b.t.ir) && b.t.state.CaptureDR?
    requires OneScan(false, CaptureDR, pins) && pins != []
    ensures var x := Sent(false, CaptureDR, pins);
            && BenchSeen(cfg, cap, b, pins) == (cap + x)[..|x|]
            && UserHolding(cfg, cap, BenchRun(cfg, cap, b, pins), x)
    ensures BenchRun(cfg, cap, b, pins).t.state == StateAfter(CaptureDR, pins)
  {
    var n := |pins| - 1;
    var pre := pins[..n];
    if pre == [] {
      assert StateAfter(CaptureDR, pins) == Step(CaptureDR, pins[n].tms);
      CaptureStarts(cfg, cap, b, pins[n]);
      assert BenchSeen(cfg, cap, b, pre) == [] && Sent(false, CaptureDR, pre) == [];
    } else {
      UserScanSemantics(cfg, cap, b, pre);
      var v, x := BenchRun(cfg, cap, b, pre), Sent(false, CaptureDR, pre);
      SeenStep(cfg, cap, b, pins, v, x);
      ShiftGoesOn(cfg, cap, v, x, pins[n]);
    }
  }

  lemma SeenStep(cfg: Cfg, cap: Vec, b: Bench, pins: seq<Pin>, v: Bench, x: seq<bool>)
    requires TapOk(cfg, b.t) && |b.sh| == |cap| > 0 && pins != []
    requires v == BenchRun(cfg, cap, b, pins[..|pins| - 1]) && x == Sent(false, CaptureDR, pins[..|pins| - 1])
    requires v.t.state == StateAfter(CaptureDR, pins[..|pins| - 1])
    requires BenchSeen(cfg, cap, b, pins[..|pins| - 1]) == (cap + x)[..|x|]
    requires v.t.state.ShiftDR? ==> v.t.tdo == Window(cap, x)[0]
    ensures var x' := Sent(false, CaptureDR, pins);
            && x' == (if v.t.state.ShiftDR? then x + [pins[|pins| - 1].tdi] else x)
            && BenchSeen(cfg, cap, b, pins) == (cap + x')[..|x'|]
  {
    WindowShift(cap, x, pins[|pins| - 1].tdi);
  }

  /** UPDATE comes up, while the register holds the last bits of what passed through it. */
  predicate Updated(cfg: Cfg, cap: Vec, b: Bench, x: seq<bool>, p: Pin)
    requires TapOk(cfg, b.t) && |b.sh| == |cap| > 0
  {
    var v := BenchCycle(cfg, cap, b, p);
    && !b.o.update && v.o.update && v.o.sel && v.sh == Window(cap, x)
    && (|x| >= |cap| ==> v.sh == x[|x| - |cap|..])
  }

  lemma UpdateShows(cfg: Cfg, cap: Vec, b: Bench, x: seq<bool>, p: Pin)
    requires UserHolding(cfg, cap, b, x) && Step(b.t.state, p.tms) == UpdateDR
    ensures Updated(cfg, cap, b, x, p)
  {
    var sh := BenchStep(cfg, cap, b, p);
    WindowLast(cap, x);
  }

  /** So it is at the end of such a scan. */
  lemma UserUpdates(cfg: Cfg, cap: Vec, b: Bench, pins: seq<Pin>, p: Pin)
    requires BenchOk(cfg, cap, b) && b.o.selUser && SelUser(cfg, b.t.ir) && b.t.state.CaptureDR?
    requires OneScan(false, CaptureDR, pins) && pins != [] && Step(StateAfter(CaptureDR, pins), p.tms) == UpdateDR
    ensures Updated(cfg, cap, BenchRun(cfg, cap, b, pins), Sent(false, CaptureDR, pins), p)
  {
    UserScanSemantics(cfg, cap, b, pins);
    UpdateShows(cfg, cap, BenchRun(cfg, cap, b, pins), Sent(false, CaptureDR, pins), p);
  }
}
