// The design's entities as objects that are clocked: registers in fields, one method call per clock edge, each process
// written out step by step. Their specifications are the next-state functions of the modules they come from.

module Entities {
  import opened Bits
  import opened Jtag
  import opened Header
  import opened Firmware
  import S = SerDes
  import C = Core
  import A = AxisToJtag
  import Q = CoreProof
  import R = AxisRun

  class JtagSerDesCore {
    const w: nat
    const d: nat
    ghost const dev: Device
    var r: S.Reg
    ghost var h: S.Hist

    /** Words taken, TCK edges made and words returned agree; see module SerDes. */
    ghost predicate Valid()
      reads this
    {
      d > 0 && S.Inv(w, d, dev, r, h)
    }

    constructor (w: nat, d: nat, ghost dev: Device)
      requires w > 0 && d > 0
      ensures this.w == w && this.d == d && this.dev == dev && r == S.Init(w) && h == S.NOTHING && Valid()
    {
      this.w, this.d, this.dev, r, h := w, d, dev, S.Init(w), S.NOTHING;
      new;
      S.InitInv(w, d, dev);
    }

    /** A word of width `w` shifted right by one, `b` coming in at the top. */
    static method Shift(v: Vec, b: bool) returns (s: Vec)
      requires |v| > 0
      ensures s == ShiftIn(v, b)
    {
      s := v[1..] + [b];
    }

    /** SHIFT_S at the end of a low phase of TCK. */
    method BeforeRise(v0: S.Reg, i: S.In) returns (v: S.Reg)
      requires d > 0 && S.Wf(w, d, r) && v0 == r.(tckPos := false, tckNeg := false, iReady := false, oValid := false)
      ensures v == S.LowEndNext(d, v0, i)
    {
      var tdo := Shift(r.tdo, i.tdo);
      v := v0.(tdo := tdo);
      if r.lastBit {
        v := v.(lastBit := false, oValid := true);
        if r.cnt >= 0 {
          // the next word is loaded already: its first low phase is this one
          if i.ready {
            v := v.(tck := true, tckPos := true, div := d - 1);
          } else {
            v := v.(state := S.Wai);
          }
        } else if i.ready {
          v := v.(iReady := true, state := S.Idle);
        } else {
          v := v.(state := S.Wai);
        }
      } else {
        v := v.(tck := true, tckPos := true, div := d - 1);
      }
    }

    /** SHIFT_S at the falling edge of TCK. */
    method AtFall(v0: S.Reg, i: S.In) returns (v: S.Reg)
      requires d > 0 && S.Wf(w, d, r) && v0 == r.(tckPos := false, tckNeg := false, iReady := false, oValid := false)
      ensures v == S.HighEndNext(d, v0, i)
    {
      var tms := Shift(r.tms, false);
      var tdi := Shift(r.tdi, false);
      v := v0.(tms := tms, tdi := tdi, cnt := r.cnt - 1);
      if r.cnt == 0 {
        if i.valid {
          v := v.(tms := i.tms, tdi := i.tdi, cnt := i.numBits, iReady := true);
        }
        v := v.(lastBit := true);
      }
      v := v.(tck := false, tckNeg := true, div := d - 1);
    }

    /** The combinational process. */
    method Comb(i: S.In) returns (v: S.Reg)
      requires d > 0 && S.Wf(w, d, r) && S.InWf(w, i)
      ensures v == S.Next(w, d, r, i)
    {
      v := r.(tckPos := false, tckNeg := false);
      match r.state {
        case Idle =>
          v := v.(oValid := false);
          if i.valid && r.iReady {
            v := v.(tms := i.tms, tdi := i.tdi, iReady := false, cnt := i.numBits, div := d - 1, state := S.Shift);
          }
        case Shift =>
          v := v.(iReady := false, oValid := false);
          if r.div > 0 {
            v := v.(div := r.div - 1);
          } else if !r.tck {
            v := BeforeRise(v, i);
          } else {
            v := AtFall(v, i);
          }
        case Wai =>
          if i.ready {
            v := v.(oValid := false);
            if r.cnt >= 0 {
              v := v.(tck := true, tckPos := true, div := d - 1, state := S.Shift);
            } else {
              v := v.(iReady := true, state := S.Idle);
            }
          }
      }
    }

    /** The clock edge: whatever the divider, the schedule and the target are, `Valid` is kept. */
    method Clock(rst: bool, i: S.In)
      requires Valid() && S.InWf(w, i) && (!rst ==> S.EnvOk(w, dev, r, i, h))
      modifies this
      ensures Valid()
      ensures r == if rst then S.Init(w) else S.Next(w, d, old(r), i)
      ensures h == if rst then S.NOTHING else S.Observe(w, d, old(r), i, old(h))
    {
      var rin := Comb(i);
      if rst {
        S.InitInv(w, d, dev);
        r, h := S.Init(w), S.NOTHING;
      } else {
        S.Step(w, d, dev, r, i, h);
        h := S.Observe(w, d, r, i, h);
        r := rin;
      }
    }
  }

  /** A register that has room, or loses its word now, is free afterwards unless a word comes in. */
  lemma RoomAfter(w: nat, d: nat, c: C.Reg, s: S.Reg, i: C.In)
    requires C.Wf(w, c) && S.Wf(w, d, s) && w >= LEN_WIDTH && C.InWf(w, i) && C.TdoReady(c, i) && !s.oValid
    ensures !C.Next(w, d, c, s, i).tdoValid
  {
    StatesKeepReply(w, c, s.iReady, i);
  }

  /** No state touches the reply register's validity. */
  lemma StatesKeepReply(w: nat, c: C.Reg, tdiReady: bool, i: C.In)
    requires C.Wf(w, c) && w >= LEN_WIDTH && C.InWf(w, i)
    ensures C.CaseNext(w, c, tdiReady, i).tdoValid == c.tdoValid
  {
    match c.state
    case GetTms => var v := TmsKeepsReply(w, c, i);
    case GetTdi => var v := TdiKeepsReply(w, c, i);
    case Align => var v := AlignKeepsReply(w, c, i);
    case Discard => var v := DiscardKeepsReply(w, c, i);
    case _ =>
  }

  lemma TmsKeepsReply(w: nat, c: C.Reg, i: C.In) returns (v: C.Reg)
    requires C.Wf(w, c) && C.InWf(w, i)
    ensures v == C.GetTmsNext(w, c, i) && v.tdoValid == c.tdoValid
  {
    v := C.GetTmsNext(w, c, i);
  }

  lemma TdiKeepsReply(w: nat, c: C.Reg, i: C.In) returns (v: C.Reg)
    requires C.Wf(w, c) && C.InWf(w, i)
    ensures v == C.GetTdiNext(w, c, i) && v.tdoValid == c.tdoValid
  {
    v := C.GetTdiNext(w, c, i);
  }

  lemma AlignKeepsReply(w: nat, c: C.Reg, i: C.In) returns (v: C.Reg)
    requires C.Wf(w, c)
    ensures v == C.AlignNext(w, c, i) && v.tdoValid == c.tdoValid
  {
    v := C.AlignNext(w, c, i);
  }

  lemma DiscardKeepsReply(w: nat, c: C.Reg, i: C.In) returns (v: C.Reg)
    requires C.Wf(w, c)
    ensures v == C.DiscardNext(w, c, i) && v.tdoValid == c.tdoValid
  {
    v := C.DiscardNext(w, c, i);
  }

  /**
   The serialiser's reliance on an early ready is justified in any state of the core, not only within proper frames.
   */
  lemma OfferKeepsRoom(w: nat, d: nat, dev: Device, c: C.Reg, s: S.Reg, h: S.Hist, i: C.In, tdo: bool)
    requires C.SerOk(w, d, dev, c, s, h) && C.InWf(w, i) && (!s.tck ==> tdo == dev(h.edges))
    ensures S.EnvOk(w, dev, s, C.SerIn(c, i, tdo), h)
    ensures C.SerOk(w, d, dev, C.Next(w, d, c, s, i), S.Next(w, d, s, C.SerIn(c, i, tdo)),
                    S.Observe(w, d, s, C.SerIn(c, i, tdo), h))
  {
    Q.SerTick(w, d, dev, c, s, h, i, tdo);
    var s' := S.Next(w, d, s, C.SerIn(c, i, tdo));
    if s'.oValid && s'.state != S.Wai { RoomAfter(w, d, c, s, i); }
  }

  class AxisToJtagCore {
    const w: nat
    const d: nat
    ghost const dev: Device
    var r: C.Reg
    const ser: JtagSerDesCore

    ghost predicate Valid()
      reads this, ser
    {
      ser.w == w && ser.d == d && ser.dev == dev && C.SerOk(w, d, dev, r, ser.r, ser.h)
    }

    constructor (w: nat, d: nat, ghost dev: Device)
      requires w >= LEN_WIDTH && d > 0
      ensures Valid() && fresh(ser) && this.w == w && this.d == d && this.dev == dev
      ensures r == C.Init(w) && ser.r == S.Init(w) && ser.h == S.NOTHING
    {
      this.w, this.d, this.dev, r := w, d, dev, C.Init(w);
      ser := new JtagSerDesCore(w, d, dev);
    }

    /** A request word arrives where a TMS word is due. */
    method TakeTms(i: C.In) returns (v: C.Reg)
      requires C.Wf(w, r) && C.InWf(w, i)
      ensures v == C.GetTmsNext(w, r, i)
    {
      v := r;
      if r.sReady && i.valid {
        if i.last {
          // the frame ends without the data it announced
          if r.iCnt != r.oCnt {
            v := v.(last := true, tLastSeen := true, nBits := w - 1, state := C.Align);
          } else {
            v := v.(state := C.Idle);
          }
        } else {
          v := v.(tms := i.data, state := C.GetTdi, iCnt := (r.iCnt + 1) % 4, running := true);
          v := CountBits(v);
        }
      }
    }

    /** How many bits of the word are to be shifted, and how many are left then. */
    method CountBits(v0: C.Reg) returns (v: C.Reg)
      requires w > 0
      ensures v == if v0.nBitsTot >= w then v0.(nBits := w - 1, nBitsTot := v0.nBitsTot - w)
                   else v0.(last := true, nBits := v0.nBitsTot)
    {
      v := v0;
      if v0.nBitsTot >= w {
        v := v.(nBits := w - 1, nBitsTot := v0.nBitsTot - w);
      } else {
        v := v.(last := true, nBits := v0.nBitsTot);
      }
    }

    /** A request word arrives where a TDI word is due. */
    method TakeTdi(i: C.In) returns (v: C.Reg)
      requires C.Wf(w, r) && C.InWf(w, i)
      ensures v == C.GetTdiNext(w, r, i)
    {
      v := r;
      if r.sReady && i.valid {
        if i.last {
          v := v.(tLastSeen := true);
          if !r.last {
            // TLAST comes early: this pair is the last one
            v := v.(nBitsTot := r.nBits, last := true);
          }
        }
        v := v.(tdi := i.data, tdiValid := true, sReady := false, state := C.Shift);
      }
    }

    /** The states of the core. */
    method States(i: C.In) returns (v: C.Reg)
      requires ser.w == w && C.Wf(w, r) && w >= LEN_WIDTH && C.InWf(w, i)
      ensures v == C.CaseNext(w, r, ser.r.iReady, i)
    {
      v := r;
      match r.state {
        case Idle =>
          v := v.(last := false, tLastSeen := false, iCnt := 0, oCnt := 0, tLast := false, tdoPass := true,
                  sReady := true);
          if r.sReady && i.valid && !i.last {
            v := v.(nBitsTot := NatOf(i.data[..LEN_WIDTH]), state := C.GetTms);
          }
        case GetTms => v := TakeTms(i);
        case GetTdi => v := TakeTdi(i);
        case Shift =>
          if ser.r.iReady && r.tdiValid {
            v := v.(tdiValid := false);
            if !r.last {
              v := v.(state := C.GetTms, sReady := true);
            }
          }
        case Align => v := MoveDown(i);
        case Discard =>
          if r.tLastSeen {
            v := v.(tdoPass := true);
          } else {
            v := v.(sReady := true);
            if r.sReady && i.valid && i.last {
              v := v.(tLastSeen := true, tdoPass := true, sReady := false);
            }
          }
      }
    }

    /** Aligns the last word. */
    method MoveDown(i: C.In) returns (v: C.Reg)
      requires C.Wf(w, r) && w > 0 && r.state == C.Align
      ensures v == C.AlignNext(w, r, i)
    {
      v := r;
      if r.nBits == w - 1 {
        v := v.(tLast := true);
        if r.tdoValid && i.ready {
          v := v.(state := C.Discard);
        }
      } else {
        v := v.(tdo := r.tdo[1..] + [false], nBits := r.nBits + 1);
      }
    }

    /** A reply word may leave. */
    method Send(v0: C.Reg, i: C.In) returns (v: C.Reg)
      requires C.Wf(w, v0)
      ensures v == C.OutputNext(w, r, v0, i)
    {
      v := v0;
      var tdoValid := r.tdoValid && r.tdoPass;
      if tdoValid && i.ready {
        if r.tLast {
          v := v.(running := false, state := C.Idle);
        }
        v := v.(tdoValid := false);
      }
    }

    /** A word may come back from the serialiser. */
    method Collect(v0: C.Reg, i: C.In) returns (v: C.Reg)
      requires C.Wf(w, v0) && S.Wf(w, d, ser.r)
      ensures v == C.CollectNext(w, r, v0, ser.r.oValid, ser.r.tdo[..w], i)
    {
      v := v0;
      var tdoReady := !r.tdoValid || (i.ready && r.tdoPass);
      assert tdoReady == C.TdoReady(r, i);
      if ser.r.oValid && tdoReady {
        v := v.(tdo := ser.r.tdo[..w], tdoValid := true, oCnt := (r.oCnt + 1) % 4);
        if r.last && v.oCnt == r.iCnt {
          v := v.(tdoPass := false, state := C.Align);
        }
      }
    }

    /** The combinational process. */
    method Comb(i: C.In) returns (v: C.Reg)
      requires ser.w == w && C.Wf(w, r) && S.Wf(w, d, ser.r) && w >= LEN_WIDTH && C.InWf(w, i)
      ensures v == C.Next(w, d, r, ser.r, i)
    {
      v := States(i);
      v := Send(v, i);
      v := Collect(v, i);
    }

    /** The clock edge of the core and of the serialiser inside it. */
    method Clock(rst: bool, i: C.In, tdo: bool)
      requires Valid() && C.InWf(w, i) && (!rst && !ser.r.tck ==> tdo == dev(ser.h.edges))
      modifies this, ser
      ensures Valid()
      ensures r == if rst then C.Init(w) else C.Next(w, d, old(r), old(ser.r), i)
      ensures ser.r == if rst then S.Init(w) else S.Next(w, d, old(ser.r), C.SerIn(old(r), i, tdo))
      ensures ser.h == if rst then S.NOTHING else S.Observe(w, d, old(ser.r), C.SerIn(old(r), i, tdo), old(ser.h))
    {
      var rin := Comb(i);
      var tdoReady := !r.tdoValid || (i.ready && r.tdoPass);
      if !rst { OfferKeepsRoom(w, d, dev, r, ser.r, ser.h, i, tdo); }
      ser.Clock(rst, S.In(r.nBits, r.tms, r.tdi, r.tdiValid, tdoReady, tdo));
      r := if rst then C.Init(w) else rin;
    }
  }

  /** The selector's buffer after a clock: the word of the selected port, unless the one it holds is not taken yet. */
  function Selected(buf: A.Axis, sel: bool, port0: A.Axis, port1: A.Axis, ready: bool): A.Axis {
    if buf.valid && !ready then buf else if sel then port1 else port0
  }

  class AxiStreamSelector {
    var streamBuf: A.Axis

    constructor (w: nat)
      ensures streamBuf == A.Axis(false, Zeros(w), false)
    {
      streamBuf := A.Axis(false, Zeros(w), false);
    }

    method Clock(rst: bool, sel: bool, port0: A.Axis, port1: A.Axis, ready: bool)
      modifies this
      ensures streamBuf == if rst then A.Axis(false, Zeros(|port0.data|), false)
                           else Selected(old(streamBuf), sel, port0, port1, ready)
    {
      var rdyLoc := !streamBuf.valid || ready;
      if rst {
        streamBuf := A.Axis(false, Zeros(|port0.data|), false);
      } else if rdyLoc {
        streamBuf := if sel then port1 else port0;
      }
    }
  }

  class AxisToJtag {
    const cfg: Cfg
    ghost const dev: Device
    var r: A.Reg
    const mux: AxiStreamSelector
    const bufMem: array<Vec>
    var memOut: Vec
    const core: AxisToJtagCore

    /** All registers of the design as one value. */
    ghost function Top(): A.Top
      reads this, mux, bufMem, core, core.ser
    {
      A.Top(r, mux.streamBuf, bufMem[..], memOut, core.r, core.ser.r)
    }

    ghost predicate Valid()
      reads this, mux, bufMem, core, core.ser
    {
      && A.TopWf(cfg, Top()) && core.Valid()
      && core.w == Width(cfg) && core.d == cfg.d && core.dev == dev
    }

    constructor (cfg: Cfg, ghost dev: Device)
      requires CfgOk(cfg)
      ensures Valid() && fresh(mux) && fresh(bufMem) && fresh(core) && fresh(core.ser)
      ensures this.cfg == cfg && this.dev == dev && r == A.InitReg(Width(cfg)) && core.ser.h == S.NOTHING
    {
      this.cfg, this.dev, r := cfg, dev, A.InitReg(Width(cfg));
      mux := new AxiStreamSelector(Width(cfg));
      bufMem := new Vec[cfg.depth](_ => Zeros(Width(cfg)));
      memOut := Zeros(Width(cfg));
      core := new AxisToJtagCore(Width(cfg), cfg.d, dev);
    }

    static method SendHeaderNow(v0: A.Reg) returns (v: A.Reg)
      ensures v == A.SendHeaderNow(v0)
    {
      v := v0.(reply := v0.reply.(valid := true, last := true));
      v := v.(state := A.SendRep);
    }

    /** IDLE_S: the header of a request is inspected. */
    method InIdle(i: A.In) returns (v: A.Reg)
      requires CfgOk(cfg) && A.InWf(cfg, i) && |r.reply.data| == Width(cfg)
      ensures v == A.IdleNext(cfg, r, i)
    {
      v := r.(tLastSeen := false);
      if i.req.valid {
        var hdr := i.req.data;
        // every reply begins with the header that was received
        v := v.(reply := i.req.(valid := false), ackInput := true, tLastSeen := i.req.last, ridx := 0);
        if Version(hdr) != PRO_VERSION {
          v := v.(reply := v.reply.(data := SetErr(SetVersion(hdr), ERR_BAD_VERSION)));
          v := SendHeaderNow(v);
        } else if Command(hdr) == CMD_QUERY {
          v := v.(reply := v.reply.(data := SetQueryData(hdr, cfg.bytes, cfg.depth, cfg.period)));
          v := SendHeaderNow(v);
          v := v.(memValid := false);
        } else if Command(hdr) == CMD_TRANS {
          v := Transaction(v, i);
        } else {
          v := v.(reply := v.reply.(data := SetErr(hdr, ERR_BAD_COMMAND)));
          v := SendHeaderNow(v);
        }
      }
    }

    /** A shift is refused, run or answered from the memory. */
    method Transaction(v0: A.Reg, i: A.In) returns (v: A.Reg)
      requires CfgOk(cfg) && A.InWf(cfg, i) && v0.reply.data == i.req.data
      requires Version(i.req.data) == PRO_VERSION && Command(i.req.data) == CMD_TRANS
      ensures v == match Classify(cfg, Fw(r.xid, r.memValid, []), i.req.data, i.req.last)
                   case Truncated => A.SendHeaderNow(v0.(reply := v0.reply.(data := SetErr(i.req.data, ERR_TRUNCATED))))
                   case Run => v0.(widx := 0, xid := Xid(i.req.data), state := A.WaitStarted, ackInput := false,
                                   passTdi := true, memValid := false)
                   case _ => v0.(reply := v0.reply.(valid := true, last := false), state := A.Replay, ridx := 1)
    {
      v := v0;
      var hdr := i.req.data;
      if i.req.last || !CheckLen(cfg, hdr) {
        v := v.(reply := v.reply.(data := SetErr(hdr, ERR_TRUNCATED)));
        v := SendHeaderNow(v);
      } else if cfg.depth == 0 || !r.memValid || Xid(hdr) != r.xid {
        v := v.(widx := 0, xid := Xid(hdr), state := A.WaitStarted, ackInput := false, passTdi := true,
                memValid := false);
      } else {
        v := v.(reply := v.reply.(valid := true, last := false), state := A.Replay, ridx := 1);
      }
    }

    /** WAIT_STARTED_S: the header is held back until it is clear that no error has to be sent. */
    method InWaitStarted(ghost t: A.Top, i: A.In, lastTdi: bool, lastReq: bool) returns (v: A.Reg)
      requires t.r == r && t.c == core.r && A.TopWf(cfg, t) && lastTdi == A.LastTdi(t, i) && lastReq == A.LastReq(t, i)
      ensures v == A.WaitStartedNext(cfg, t, i)
    {
      v := r;
      if core.r.running {
        if lastTdi { v := v.(passTdi := false); }
        v := v.(state := A.WaitHdrReady, reply := v.reply.(valid := true));
      } else if lastReq {
        // the frame has no data, so the core will never start
        v := v.(reply := v.reply.(data := SetErr(v.reply.data, ERR_TRUNCATED)), passTdi := false, tLastSeen := true);
        v := SendHeaderNow(v);
      }
    }

    /** SEND_REP_S: the request is consumed and the reply goes out. */
    method InSendRep(ghost t: A.Top, i: A.In, lastReq: bool, locConsumed: bool) returns (v: A.Reg)
      requires t.r == r && lastReq == A.LastReq(t, i) && locConsumed == A.LocConsumed(t, i)
      ensures v == A.SendRepNext(t, i)
    {
      v := r;
      if !r.tLastSeen && lastReq { v := v.(tLastSeen := true); }
      if v.tLastSeen { v := v.(ackInput := false); }
      if locConsumed { v := v.(reply := v.reply.(valid := false)); }
      // decided on what this clock has set
      if !v.reply.valid && v.tLastSeen { v := v.(state := A.Idle); }
    }

    /** WAIT_HDR_READY_S: once the header is out, the output stream is the core's. */
    method InWaitHdrReady(ghost t: A.Top, i: A.In, lastTdi: bool, locConsumed: bool) returns (v: A.Reg)
      requires t.r == r && lastTdi == A.LastTdi(t, i) && locConsumed == A.LocConsumed(t, i)
      ensures v == A.WaitHdrReadyNext(t, i)
    {
      v := r;
      if lastTdi { v := v.(passTdi := false); }
      if locConsumed { v := v.(passTdo := true, reply := v.reply.(valid := false), state := A.WaitStopped); }
    }

    /** WAIT_STOPPED_S: both streams are switched back, each after its last word. */
    method InWaitStopped(ghost t: A.Top, i: A.In, lastTdi: bool, lastTdo: bool, tdoWen: bool) returns (v: A.Reg)
      requires t.r == r && t.c == core.r && lastTdi == A.LastTdi(t, i) && lastTdo == A.LastTdo(t, i)
      requires tdoWen == (A.TdoXfer(t, i) && r.passTdo)
      ensures v == A.WaitStoppedNext(cfg, t, i)
    {
      v := r;
      if lastTdi { v := v.(passTdi := false); }
      if lastTdo { v := v.(passTdo := false); }
      if !v.passTdi && !v.passTdo { v := v.(state := A.Idle); }
      if cfg.depth > 0 && tdoWen {
        if core.r.tLast { v := v.(memValid := true); }
        v := v.(widx := r.widx + 1);
      }
    }

    /** REPLAY_S: the recorded words go out, the request is thrown away. */
    method InReplay(ghost t: A.Top, i: A.In, lastReq: bool, locConsumed: bool) returns (v: A.Reg)
      requires t.r == r && t.memOut == memOut && lastReq == A.LastReq(t, i) && locConsumed == A.LocConsumed(t, i)
      ensures v == A.ReplayNext(t, i)
    {
      v := r;
      if lastReq { v := v.(ackInput := false); }
      if locConsumed {
        v := v.(ridx := r.ridx + 1, reply := v.reply.(data := memOut));
        if r.ridx == r.widx {
          v := v.(reply := v.reply.(last := true), ridx := 0);
        } else if r.reply.last {
          v := v.(reply := v.reply.(valid := false), ridx := 0);
        }
      }
      if !v.ackInput && !v.reply.valid { v := v.(state := A.Idle); }
    }

    /** The combinational process of the FSM. */
    method Comb(i: A.In) returns (v: A.Reg)
      requires Valid() && A.InWf(cfg, i)
      ensures v == A.NextReg(cfg, Top(), i)
    {
      ghost var t := Top();
      var rdyLoc := !mux.streamBuf.valid || i.ready;
      var locConsumed := !r.passTdo && rdyLoc && r.reply.valid;
      var lastReq := i.req.valid && (if r.passTdi then core.r.sReady else r.ackInput) && i.req.last;
      var lastTdi := r.passTdi && lastReq;
      var tdoXfer := r.passTdo && rdyLoc && core.r.tdoValid && core.r.tdoPass;
      match r.state
      case Idle => v := InIdle(i);
      case SendRep => v := InSendRep(t, i, lastReq, locConsumed);
      case WaitStarted => v := InWaitStarted(t, i, lastTdi, lastReq);
      case WaitHdrReady => v := InWaitHdrReady(t, i, lastTdi, locConsumed);
      case WaitStopped => v := InWaitStopped(t, i, lastTdi, tdoXfer && core.r.tLast, tdoXfer && r.passTdo);
      case Replay => v := InReplay(t, i, lastReq, locConsumed);
    }

    /**
     The memory: a write port for TDO words and a read port that is one clock late; a write does not show in the read.
     */
    method Ram(i: A.In)
      requires Valid() && A.InWf(cfg, i)
      modifies this`memOut, bufMem
      ensures bufMem[..] == A.NextMem(old(Top()), i) && memOut == A.NextMemOut(old(Top()), i)
    {
      var rdyLoc := !mux.streamBuf.valid || i.ready;
      var tdoXfer := r.passTdo && rdyLoc && core.r.tdoValid && core.r.tdoPass;
      var tdoRen := r.state == A.Replay ==> !r.passTdo && rdyLoc && r.reply.valid;
      if bufMem.Length > 0 && tdoRen {
        memOut := if r.ridx < bufMem.Length then bufMem[r.ridx] else i.junk;
      }
      if tdoXfer && r.passTdo && r.widx < bufMem.Length {
        bufMem[r.widx] := core.r.tdo;
      }
    }

    /** The clock edge of the whole design. A reset leaves the memory to itself. */
    method Clock(rst: bool, i: A.In)
      requires Valid() && A.InWf(cfg, i) && (!rst && !core.ser.r.tck ==> i.tdo == dev(core.ser.h.edges))
      modifies this, mux, bufMem, core, core.ser
      ensures Valid()
      ensures if rst then R.AtReset(cfg, R.Sim(Top(), core.ser.h, 0, 0, false, []))
              else Top() == A.Next(cfg, old(Top()), i) && core.ser.h == A.NextHist(cfg, old(Top()), i, old(core.ser.h))
    {
      if rst { Reset(i); } else { Step(i); }
    }

    method Reset(i: A.In)
      requires Valid() && A.InWf(cfg, i)
      modifies this, mux, bufMem, core, core.ser
      ensures Valid() && R.AtReset(cfg, R.Sim(Top(), core.ser.h, 0, 0, false, []))
    {
      ghost var t := Top();
      Ram(i);
      mux.Clock(true, r.passTdo, r.reply, r.reply, i.ready);
      core.Clock(true, C.In(false, i.req.data, false, false), i.tdo);
      r := A.InitReg(Width(cfg));
      AfterReset(cfg, t, Top(), core.ser.h);
    }

    method Step(i: A.In)
      requires Valid() && A.InWf(cfg, i) && (!core.ser.r.tck ==> i.tdo == dev(core.ser.h.edges))
      modifies this, mux, bufMem, core, core.ser
      ensures Valid()
      ensures Top() == A.Next(cfg, old(Top()), i) && core.ser.h == A.NextHist(cfg, old(Top()), i, old(core.ser.h))
    {
      ghost var t, h := Top(), core.ser.h;
      var v := Comb(i);
      var rdyLoc := !mux.streamBuf.valid || i.ready;
      var tdo := A.Axis(core.r.tdoValid && core.r.tdoPass, core.r.tdo, core.r.tLast);
      var coreIn := C.In(i.req.valid && r.passTdi, i.req.data, i.req.last, r.passTdo && rdyLoc);
      Ram(i);
      Parts(i, tdo, coreIn);
      r := v;
      Assembled(cfg, t, i, h, tdo, coreIn, Top(), core.ser.h);
    }

    /** The clock edge of the parts. */
    method Parts(i: A.In, tdo: A.Axis, coreIn: C.In)
      requires core.Valid() && C.InWf(core.w, coreIn) && (!core.ser.r.tck ==> i.tdo == core.dev(core.ser.h.edges))
      modifies mux, core, core.ser
      ensures core.Valid() && mux.streamBuf == Selected(old(mux.streamBuf), r.passTdo, r.reply, tdo, i.ready)
      ensures core.r == C.Next(core.w, core.d, old(core.r), old(core.ser.r), coreIn)
      ensures core.ser.r == S.Next(core.w, core.d, old(core.ser.r), C.SerIn(old(core.r), coreIn, i.tdo))
      ensures core.ser.h == S.Observe(core.w, core.d, old(core.ser.r), C.SerIn(old(core.r), coreIn, i.tdo),
                                      old(core.ser.h))
    {
      mux.Clock(false, r.passTdo, r.reply, tdo, i.ready);
      core.Clock(false, coreIn, i.tdo);
    }
  }

  lemma AfterReset(cfg: Cfg, t: A.Top, t': A.Top, h': S.Hist)
    requires A.TopWf(cfg, t) && h' == S.NOTHING
    requires t' == A.Top(A.InitReg(Width(cfg)), A.Axis(false, Zeros(Width(cfg)), false), t'.mem, t'.memOut,
                         C.Init(Width(cfg)),
                         S.Init(Width(cfg)))
    requires |t'.memOut| == Width(cfg) && |t'.mem| == cfg.depth && forall k :: 0 <= k < cfg.depth ==>
               |t'.mem[k]| == Width(cfg)
    ensures R.AtReset(cfg, R.Sim(t', h', 0, 0, false, []))
  {
  }

  lemma Assembled(cfg: Cfg, t: A.Top, i: A.In, h: S.Hist, tdo: A.Axis, coreIn: C.In, t': A.Top, h': S.Hist)
    requires A.TopWf(cfg, t) && A.InWf(cfg, i)
    requires tdo == A.Axis(t.c.tdoValid && t.c.tdoPass, t.c.tdo, t.c.tLast)
    requires coreIn == C.In(i.req.valid && t.r.passTdi, i.req.data, i.req.last,
                            t.r.passTdo && (!t.buf.valid || i.ready))
    requires t'.r == A.NextReg(cfg, t, i) && t'.mem == A.NextMem(t, i) && t'.memOut == A.NextMemOut(t, i)
    requires t'.buf == Selected(t.buf, t.r.passTdo, t.r.reply, tdo, i.ready)
    requires t'.c == C.Next(Width(cfg), cfg.d, t.c, t.s, coreIn)
    requires t'.s == S.Next(Width(cfg), cfg.d, t.s, C.SerIn(t.c, coreIn, i.tdo))
    requires h' == S.Observe(Width(cfg), cfg.d, t.s, C.SerIn(t.c, coreIn, i.tdo), h)
    ensures t' == A.Next(cfg, t, i) && h' == A.NextHist(cfg, t, i, h)
  {
    assert coreIn == A.CoreIn(t, i);
  }
}
