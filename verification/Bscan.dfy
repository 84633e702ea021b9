// JtagTapIR and Jtag2BSCAN: instruction and data registers on opposite edges of TCK, around the TAP controller.

module Bscan {
  import opened Bits
  import opened Jtag
  import opened TapFsm

  /** The generics; vectors are bit 0 first. */
  datatype Cfg = Cfg(irLen: nat, regIdcode: Vec, regUsercode: Vec, regUser: Vec, irVal: Vec, idcode: Vec, usercode: Vec)

  predicate CfgOk(cfg: Cfg) {
    && cfg.irLen > 0 && |cfg.irVal| == cfg.irLen
    && |cfg.regIdcode| == cfg.irLen && |cfg.regUsercode| == cfg.irLen && |cfg.regUser| == cfg.irLen
    && |cfg.idcode| == 32 && |cfg.usercode| == 32
  }

  function Ones(n: nat): (v: Vec)
    ensures |v| == n && forall i :: 0 <= i < n ==> v[i]
  {
    seq(n, i => true)
  }

  function Bypass(cfg: Cfg): Vec { Ones(cfg.irLen) }

  /** The falling-edge registers (instruction and the registered TDO) and the rising-edge ones. */
  datatype Tap = Tap(state: TapState, ir: Vec, tdo: bool, shiftIr: Vec, shiftDr: Vec, decoded: bool, drLast: nat)

  predicate TapOk(cfg: Cfg, t: Tap) {
    && CfgOk(cfg) && |t.ir| == cfg.irLen && |t.shiftIr| == cfg.irLen && |t.shiftDr| == 32 && t.drLast < 32
  }

  /** After power-up. */
  function PowerUp(cfg: Cfg): (t: Tap)
    requires CfgOk(cfg)
    ensures TapOk(cfg, t)
  {
    Tap(TestLogicReset, cfg.regIdcode, false, Zeros(cfg.irLen), Zeros(32), true, 0)
  }

  /** The data register of `last` + 1 bits at the bottom of `dr` moves down by one. */
  function ShiftLow(dr: Vec, last: nat, b: bool): (v: Vec)
    requires last < |dr|
    ensures |v| == |dr|
  {
    dr[1..last + 1] + [b] + dr[last + 1..]
  }

  function CaptureDr(cfg: Cfg, t: Tap): (v: Tap)
    requires TapOk(cfg, t)
    ensures TapOk(cfg, v)
  {
    if t.ir == cfg.regIdcode then t.(decoded := true, shiftDr := cfg.idcode, drLast := 31)
    else if t.ir == cfg.regUsercode then t.(decoded := true, shiftDr := cfg.usercode, drLast := 31)
    else t.(decoded := t.ir == Bypass(cfg), shiftDr := [false] + t.shiftDr[1..], drLast := 0)
  }

  /** Rising edge of TCK: the controller moves on, the shift registers act on the state it was in. */
  function Rise(cfg: Cfg, t: Tap, p: Pin): (v: Tap)
    requires TapOk(cfg, t)
    ensures TapOk(cfg, v)
  {
    var v := match t.state
      case TestLogicReset => t.(shiftIr := Zeros(cfg.irLen), shiftDr := Zeros(32), decoded := true, drLast := 0)
      case CaptureIR => t.(shiftIr := cfg.irVal)
      case ShiftIR => t.(shiftIr := ShiftIn(t.shiftIr, p.tdi))
      case CaptureDR => CaptureDr(cfg, t)
      case ShiftDR => t.(shiftDr := ShiftLow(t.shiftDr, t.drLast, p.tdi))
      case _ => t;
    v.(state := Step(t.state, p.tms))
  }

  /** The instruction after a falling edge in the current state. */
  function NextIr(cfg: Cfg, t: Tap): Vec {
    if t.state.TestLogicReset? then cfg.regIdcode else if t.state.UpdateIR? then t.shiftIr else t.ir
  }

  /** The USER data register, which is outside, is selected. */
  predicate SelUser(cfg: Cfg, ir: Vec) {
    ir != Bypass(cfg) && ir == cfg.regUser
  }

  /** Falling edge of TCK; `user` is the level that the USER data register drives. */
  function Fall(cfg: Cfg, t: Tap, user: bool): (v: Tap)
    requires TapOk(cfg, t)
    ensures TapOk(cfg, v)
  {
    var ir := NextIr(cfg, t);
    var own := if t.state.ShiftIR? then t.shiftIr[0] else if t.decoded then t.shiftDr[0] else true;
    var tdo := if SelUser(cfg, ir) && !t.state.ShiftIR? then user else own;
    t.(ir := ir, tdo := tdo || !(t.state.ShiftDR? || t.state.ShiftIR?))
  }

  /**
   What a USER register outside gets to see: the registers behind its control signals, and the outputs DRCK, SEL and
   UPDATE, which are registered once more.
   */
  datatype Ports = Ports(selUser: bool, captureDr: bool, shiftDr: bool, updateDr: bool, drckSel: bool,
                         drck: bool, sel: bool, update: bool)

  const NO_PORTS := Ports(false, false, false, false, false, false, false, false)

  /** The registers that the control signals of the current state lead to. */
  function NextPorts(cfg: Cfg, t: Tap, o: Ports): Ports {
    var selUser := if t.state.TestLogicReset? then false
                   else if t.state.UpdateIR? then SelUser(cfg, NextIr(cfg, t)) else o.selUser;
    o.(selUser := selUser, captureDr := t.state.CaptureDR?, shiftDr := t.state.ShiftDR?, updateDr := t.state.UpdateDR?,
       drckSel := (t.state.CaptureDR? || t.state.ShiftDR?) && selUser)
  }

  /** Falling edge of TCK, which is low then. */
  function PortsFall(cfg: Cfg, t: Tap, o: Ports): Ports {
    var v := NextPorts(cfg, t, o);
    v.(drck := !v.drckSel && v.selUser, sel := v.selUser, update := v.updateDr)
  }

  /** Rising edge of TCK, which is high then; `t` is before the edge. */
  function PortsRise(cfg: Cfg, t: Tap, o: Ports, tms: bool): Ports {
    var v := NextPorts(cfg, t, o);
    var reset := Step(t.state, tms).TestLogicReset?;
    o.(drck := !reset && (v.drckSel || v.selUser), sel := o.sel && !reset, update := false)
  }

  class JtagTapIR {
    const cfg: Cfg
    var ir: Vec
    var shiftIr: Vec
    var shiftDr: Vec
    var drDecoded: bool
    var drLst: nat

    function Regs(state: TapState, tdo: bool): Tap
      reads this
    {
      Tap(state, ir, tdo, shiftIr, shiftDr, drDecoded, drLst)
    }

    constructor (cfg: Cfg)
      requires CfgOk(cfg)
      ensures this.cfg == cfg && Regs(TestLogicReset, false) == PowerUp(cfg)
    {
      this.cfg := cfg;
      ir, shiftIr, shiftDr, drDecoded, drLst := cfg.regIdcode, Zeros(cfg.irLen), Zeros(32), true, 0;
    }

    /** The rising-edge process; `state` is what the controller drives before the edge. */
    method RisingEdge(state: TapState, tdi: bool, ghost tms: bool, ghost tdo: bool)
      requires TapOk(cfg, Regs(state, false))
      modifies this
      ensures Regs(Step(state, tms), tdo) == Rise(cfg, old(Regs(state, tdo)), Pin(tms, tdi))
    {
      if state.TestLogicReset? {
        shiftIr, shiftDr, drDecoded, drLst := Zeros(cfg.irLen), Zeros(32), true, 0;
      } else if state.CaptureIR? {
        shiftIr := cfg.irVal;
      } else if state.ShiftIR? {
        shiftIr := shiftIr[1..] + [tdi];
      } else if state.CaptureDR? {
        drDecoded := true;
        if ir == cfg.regIdcode {
          shiftDr, drLst := cfg.idcode, 31;
        } else if ir == cfg.regUsercode {
          shiftDr, drLst := cfg.usercode, 31;
        } else {
          if ir != Bypass(cfg) { drDecoded := false; }
          shiftDr, drLst := [false] + shiftDr[1..], 0;
        }
      } else if state.ShiftDR? {
        shiftDr := shiftDr[1..drLst + 1] + [tdi] + shiftDr[drLst + 1..];
      }
    }

    /** The selection of the USER register that goes with the instruction after the next falling edge. */
    method Selected(state: TapState) returns (selUser: bool)
      requires TapOk(cfg, Regs(state, false))
      ensures selUser == SelUser(cfg, NextIr(cfg, Regs(state, false)))
    {
      var v := ir;
      if state.TestLogicReset? {
        v := cfg.regIdcode;
      } else if state.UpdateIR? {
        v := shiftIr;
      }
      selUser := v != Bypass(cfg) && v == cfg.regUser;
    }

    /** The falling-edge process, and the outputs on which the level of TDO depends at that edge. */
    method FallingEdge(state: TapState) returns (own: bool, selUser: bool)
      requires TapOk(cfg, Regs(state, false))
      modifies this`ir
      ensures ir == NextIr(cfg, old(Regs(state, false))) && selUser == SelUser(cfg, ir)
      ensures own == if state.ShiftIR? then shiftIr[0] else if drDecoded then shiftDr[0] else true
    {
      selUser := Selected(state);
      if state.TestLogicReset? {
        ir := cfg.regIdcode;
      } else if state.UpdateIR? {
        ir := shiftIr;
      }
      own := if state.ShiftIR? then shiftIr[0] else if drDecoded then shiftDr[0] else true;
    }
  }

  class Jtag2BSCAN {
    const cfg: Cfg
    const fsm: JtagTapFSM
    const tapIr: JtagTapIR
    var tdo: bool
    var ports: Ports
    ghost var state: TapState

    /** All registers as one value, with the controller's state decoded. */
    ghost function Regs(): Tap
      reads this, tapIr
    {
      tapIr.Regs(state, tdo)
    }

    /** The FSM holds a proper state and has never failed. */
    ghost predicate Valid()
      reads this, fsm, tapIr
    {
      && tapIr.cfg == cfg && TapOk(cfg, Regs())
      && fsm.Now() == Encode(state) && !fsm.failed
    }

    constructor (cfg: Cfg)
      requires CfgOk(cfg)
      ensures Valid() && fresh(fsm) && fresh(tapIr) && this.cfg == cfg && Regs() == PowerUp(cfg)
      ensures ports == NO_PORTS
    {
      this.cfg, tdo, ports, state := cfg, false, NO_PORTS, TestLogicReset;
      fsm := new JtagTapFSM();
      tapIr := new JtagTapIR(cfg);
    }

    method RisingEdge(p: Pin)
      requires Valid()
      modifies this`state, this`ports, fsm, tapIr
      ensures Valid() && Regs() == Rise(cfg, old(Regs()), p) && ports == PortsRise(cfg, old(Regs()), old(ports), p.tms)
    {
      ghost var t := Regs();
      var before, v := Controls();
      var nextStateTLR := StepRegs(before, p);
      PortsUp(t, p.tms, v, nextStateTLR);
    }

    method FallingEdge(user: bool)
      requires Valid()
      modifies this`tdo, this`ports, tapIr`ir
      ensures Valid() && Regs() == Fall(cfg, old(Regs()), user) && ports == PortsFall(cfg, old(Regs()), old(ports))
    {
      var now, v := Controls();
      StepTdo(now, user);
      ports := v.(drck := !v.drckSel && v.selUser, sel := v.selUser, update := v.updateDr);
    }

    /** The FSM's state, and the registers behind the control signals that come next. */
    method Controls() returns (now: TapState, v: Ports)
      requires Valid()
      ensures now == state && v == NextPorts(cfg, Regs(), ports)
    {
      DecodeEncode(state);
      now := Decode(fsm.primaryState, fsm.scanSubState);
      var selUserTap := tapIr.Selected(now);
      v := Comb(now, selUserTap);
    }

    /** The FSM and the rising-edge registers; and whether the next state is Test-Logic-Reset. */
    method StepRegs(before: TapState, p: Pin) returns (nextStateTLR: bool)
      requires Valid() && before == state
      modifies this`state, fsm, tapIr
      ensures Valid() && Regs() == Rise(cfg, old(Regs()), p)
      ensures nextStateTLR == Step(old(state), p.tms).TestLogicReset?
    {
      fsm.Clock(p.tms);
      tapIr.RisingEdge(before, p.tdi, p.tms, tdo);
      state := Step(state, p.tms);
      ResetIsEncoded(state);
      nextStateTLR := fsm.primaryState[TEST_LOGIC_RESET];
    }

    method PortsUp(ghost t: Tap, ghost tms: bool, v: Ports, nextStateTLR: bool)
      requires v == NextPorts(cfg, t, ports) && nextStateTLR == Step(t.state, tms).TestLogicReset?
      modifies this`ports
      ensures ports == PortsRise(cfg, t, old(ports), tms)
    {
      ports := ports.(drck := v.drckSel || (!v.drckSel && v.selUser), update := false);
      if nextStateTLR { ports := ports.(drck := false, sel := false); }
    }

    /** The instruction and TDO. */
    method StepTdo(now: TapState, user: bool)
      requires Valid() && now == state
      modifies this`tdo, tapIr`ir
      ensures Valid() && Regs() == Fall(cfg, old(Regs()), user)
    {
      var own, selUser := tapIr.FallingEdge(now);
      var oe := now.ShiftDR? || now.ShiftIR?;
      var v := if selUser && !now.ShiftIR? then user else own;
      tdo := v || !oe;
    }

    /** The registers that come next, from the FSM's outputs and the selection of the USER register. */
    method Comb(now: TapState, selUserTap: bool) returns (v: Ports)
      ensures v == ports.(selUser := if now.TestLogicReset? then false
                                     else if now.UpdateIR? then selUserTap else ports.selUser,
                          captureDr := now.CaptureDR?, shiftDr := now.ShiftDR?, updateDr := now.UpdateDR?,
                          drckSel := v.drckSel)
      ensures v.drckSel == ((now.CaptureDR? || now.ShiftDR?) && v.selUser)
    {
      v := ports;
      if now.TestLogicReset? {
        v := v.(selUser := false);
      } else if now.UpdateIR? {
        v := v.(selUser := selUserTap);
      }
      v := v.(captureDr := now.CaptureDR?, shiftDr := now.ShiftDR?, updateDr := now.UpdateDR?);
      v := v.(drckSel := (now.CaptureDR? || now.ShiftDR?) && v.selUser);
    }
  }

  lemma ResetIsEncoded(s: TapState)
    ensures Encode(s).primary[TEST_LOGIC_RESET] == s.TestLogicReset?
  {
  }

  /** The output signals of the FSM tell its state. */
  lemma DecodeEncode(s: TapState)
    ensures Decode(Encode(s).primary, Encode(s).scan) == s
  {
    if InDR(s) || InIR(s) { ScanStates(s); }
  }

  function Decode(primary: Vec, scan: Vec): TapState
    requires |primary| == 4 && |scan| == 7
  {
    if primary[TEST_LOGIC_RESET] then TestLogicReset
    else if primary[RUN_TEST_IDLE] then RunTestIdle
    else
      var ir := primary[SCAN_IR];
      if scan[SELECT_SCAN] then if ir then SelectIRScan else SelectDRScan
      else if scan[CAPTURE] then if ir then CaptureIR else CaptureDR
      else if scan[SHIFT] then if ir then ShiftIR else ShiftDR
      else if scan[EXIT1] then if ir then Exit1IR else Exit1DR
      else if scan[PAUSE] then if ir then PauseIR else PauseDR
      else if scan[EXIT2] then if ir then Exit2IR else Exit2DR
      else if ir then UpdateIR else UpdateDR
  }
}
