// AxisToJtag: protocol FSM, replay memory and stream selector around the core, clock by clock.

module AxisToJtag {
  import opened Bits
  import opened Header
  import S = SerDes
  import C = Core
  import opened Firmware

  /** One AXI stream master port. */
  datatype Axis = Axis(valid: bool, data: Vec, last: bool)

  datatype State = Idle | SendRep | WaitStarted | WaitHdrReady | WaitStopped | Replay

  datatype Reg = Reg(
    state: State,
    reply: Axis,
    tLastSeen: bool, ackInput: bool, passTdo: bool, passTdi: bool,
    ridx: nat, widx: nat,
    memValid: bool, xid: nat)

  /** All registers of the design: FSM, selector buffer, memory with its output register, core, serialiser. */
  datatype Top = Top(r: Reg, buf: Axis, mem: seq<Vec>, memOut: Vec, c: C.Reg, s: S.Reg)

  /** One clock cycle of the surroundings; `junk` is what a read beyond the memory yields. */
  datatype In = In(req: Axis, ready: bool, tdo: bool, junk: Vec)

  function InitReg(w: nat): Reg {
    Reg(Idle, Axis(false, Zeros(w), false), false, false, false, false, 0, 0, false, 0)
  }

  predicate TopWf(cfg: Cfg, t: Top) {
    var w := Width(cfg);
    && CfgOk(cfg)
    && |t.r.reply.data| == w && |t.buf.data| == w && |t.memOut| == w
    && |t.mem| == cfg.depth && (forall k :: 0 <= k < cfg.depth ==> |t.mem[k]| == w)
    && C.Wf(w, t.c) && S.Wf(w, cfg.d, t.s)
  }

  predicate InWf(cfg: Cfg, i: In) {
    |i.req.data| == Width(cfg) && |i.junk| == Width(cfg)
  }

  // ---- combinational signals ----

  /** The selector's buffer can be overwritten. */
  predicate RdyLoc(t: Top, i: In) { !t.buf.valid || i.ready }

  /** A locally generated word goes into the selector. */
  predicate LocConsumed(t: Top, i: In) { !t.r.passTdo && RdyLoc(t, i) && t.r.reply.valid }

  function CoreIn(t: Top, i: In): C.In {
    C.In(i.req.valid && t.r.passTdi, i.req.data, i.req.last, t.r.passTdo && RdyLoc(t, i))
  }

  predicate ReqReady(t: Top) { if t.r.passTdi then t.c.sReady else t.r.ackInput }

  predicate ReqTaken(t: Top, i: In) { i.req.valid && ReqReady(t) }

  predicate LastReq(t: Top, i: In) { ReqTaken(t, i) && i.req.last }

  predicate LastTdi(t: Top, i: In) { t.r.passTdi && LastReq(t, i) }

  predicate TdoXfer(t: Top, i: In) { C.Emits(t.c, CoreIn(t, i)) }

  predicate LastTdo(t: Top, i: In) { TdoXfer(t, i) && t.c.tLast }

  predicate TdoRen(t: Top, i: In) { if t.r.state == Replay then LocConsumed(t, i) else true }

  // ---- one clock ----

  function SendHeaderNow(v: Reg): Reg {
    v.(reply := v.reply.(valid := true, last := true), state := SendRep)
  }

  function IdleNext(cfg: Cfg, r: Reg, i: In): (v: Reg)
    requires InWf(cfg, i) && CfgOk(cfg) && |r.reply.data| == Width(cfg)
    ensures |v.reply.data| == Width(cfg)
  {
    var v := r.(tLastSeen := false);
    if !i.req.valid then v
    else
      var hdr := i.req.data;
      var v := v.(reply := i.req.(valid := false), ackInput := true, tLastSeen := i.req.last, ridx := 0);
      match Classify(cfg, Fw(r.xid, r.memValid, []), hdr, i.req.last)
      case BadVersion => SendHeaderNow(v.(reply := v.reply.(data := SetErr(SetVersion(hdr), ERR_BAD_VERSION))))
      case Query =>
        SendHeaderNow(v.(reply := v.reply.(data := SetQueryData(hdr, cfg.bytes, cfg.depth, cfg.period)),
                         memValid := false))
      case Truncated => SendHeaderNow(v.(reply := v.reply.(data := SetErr(hdr, ERR_TRUNCATED))))
      case Run => v.(widx := 0, xid := Xid(hdr), state := WaitStarted, ackInput := false, passTdi := true,
                     memValid := false)
      case Retry => v.(reply := v.reply.(valid := true, last := false), state := Replay, ridx := 1)
      case BadCommand => SendHeaderNow(v.(reply := v.reply.(data := SetErr(hdr, ERR_BAD_COMMAND))))
  }

  function WaitStartedNext(cfg: Cfg, t: Top, i: In): (v: Reg)
    requires TopWf(cfg, t)
    ensures |v.reply.data| == Width(cfg)
  {
    var r := t.r;
    if t.c.running then
      r.(passTdi := r.passTdi && !LastTdi(t, i), state := WaitHdrReady, reply := r.reply.(valid := true))
    else if LastReq(t, i) then
      SendHeaderNow(r.(reply := r.reply.(data := SetErr(r.reply.data, ERR_TRUNCATED)), passTdi := false,
                       tLastSeen := true))
    else r
  }

  function SendRepNext(t: Top, i: In): (v: Reg)
    ensures |v.reply.data| == |t.r.reply.data|
  {
    var v := if !t.r.tLastSeen && LastReq(t, i) then t.r.(tLastSeen := true) else t.r;
    var v := if v.tLastSeen then v.(ackInput := false) else v;
    var v := if LocConsumed(t, i) then v.(reply := v.reply.(valid := false)) else v;
    if !v.reply.valid && v.tLastSeen then v.(state := Idle) else v
  }

  function WaitHdrReadyNext(t: Top, i: In): (v: Reg)
    ensures |v.reply.data| == |t.r.reply.data|
  {
    var v := if LastTdi(t, i) then t.r.(passTdi := false) else t.r;
    if LocConsumed(t, i) then v.(passTdo := true, reply := v.reply.(valid := false), state := WaitStopped) else v
  }

  function WaitStoppedNext(cfg: Cfg, t: Top, i: In): (v: Reg)
    ensures v.reply == t.r.reply
  {
    var v := if LastTdi(t, i) then t.r.(passTdi := false) else t.r;
    var v := if LastTdo(t, i) then v.(passTdo := false) else v;
    var v := if !v.passTdi && !v.passTdo then v.(state := Idle) else v;
    if cfg.depth > 0 && TdoXfer(t, i) && t.r.passTdo then
      v.(memValid := v.memValid || t.c.tLast, widx := t.r.widx + 1)
    else v
  }

  function ReplayNext(t: Top, i: In): (v: Reg)
    ensures |v.reply.data| == |t.memOut| || v.reply.data == t.r.reply.data
  {
    var v := if LastReq(t, i) then t.r.(ackInput := false) else t.r;
    var v :=
      if LocConsumed(t, i) then
        var v := v.(ridx := t.r.ridx + 1, reply := v.reply.(data := t.memOut));
        if t.r.ridx == t.r.widx then v.(reply := v.reply.(last := true), ridx := 0)
        else if t.r.reply.last then v.(reply := v.reply.(valid := false), ridx := 0)
        else v
      else v;
    if !v.ackInput && !v.reply.valid then v.(state := Idle) else v
  }

  function NextReg(cfg: Cfg, t: Top, i: In): (v: Reg)
    requires TopWf(cfg, t) && InWf(cfg, i)
    ensures |v.reply.data| == Width(cfg)
  {
    match t.r.state
    case Idle => IdleNext(cfg, t.r, i)
    case SendRep => SendRepNext(t, i)
    case WaitStarted => WaitStartedNext(cfg, t, i)
    case WaitHdrReady => WaitHdrReadyNext(t, i)
    case WaitStopped => WaitStoppedNext(cfg, t, i)
    case Replay => ReplayNext(t, i)
  }

  /** AxiStreamSelector: its one-word output buffer follows the selected port when free. */
  function NextBuf(t: Top, i: In): Axis {
    if !RdyLoc(t, i) then t.buf
    else if t.r.passTdo then Axis(t.c.tdoValid && t.c.tdoPass, t.c.tdo, t.c.tLast)
    else t.r.reply
  }

  /** The memory takes TDO words as they leave the core. */
  function NextMem(t: Top, i: In): seq<Vec> {
    if TdoXfer(t, i) && t.r.passTdo && t.r.widx < |t.mem| then t.mem[t.r.widx := t.c.tdo] else t.mem
  }

  /** The registered read port, one cycle behind its address. */
  function NextMemOut(t: Top, i: In): Vec {
    if |t.mem| == 0 || !TdoRen(t, i) then t.memOut
    else if t.r.ridx < |t.mem| then t.mem[t.r.ridx]
    else i.junk
  }

  function Next(cfg: Cfg, t: Top, i: In): (t': Top)
    requires TopWf(cfg, t) && InWf(cfg, i)
    ensures TopWf(cfg, t')
  {
    var w := Width(cfg);
    Top(NextReg(cfg, t, i), NextBuf(t, i), NextMem(t, i), NextMemOut(t, i),
        C.Next(w, cfg.d, t.c, t.s, CoreIn(t, i)),
        S.Next(w, cfg.d, t.s, C.SerIn(t.c, CoreIn(t, i), i.tdo)))
  }

  function NextHist(cfg: Cfg, t: Top, i: In, h: S.Hist): S.Hist
    requires TopWf(cfg, t) && InWf(cfg, i)
  {
    S.Observe(Width(cfg), cfg.d, t.s, C.SerIn(t.c, CoreIn(t, i), i.tdo), h)
  }
}
