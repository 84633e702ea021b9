// The retry protocol between host and firmware over channels that lose, delay and repeat messages in place.

module Protocol {
  import opened Bits
  import opened Jtag
  import opened Header
  import C = Core
  import opened ShiftSpec
  import opened Firmware
  import opened Options

  type Msg = seq<Vec>

  // ---- the host's view of messages ----

  const XID_ANY := 0

  /** The transaction ID after `xid`: eight bits, and never the one that matches anything. */
  function NextXid(xid: nat): (x: nat) {
    var x := (xid + 1) % 256;
    if x == XID_ANY then x + 1 else x
  }

  lemma NextXidDiffers(xid: nat)
    requires xid < 256
    ensures 0 < NextXid(xid) < 256 && NextXid(xid) != xid
  {
  }

  /** The error code an error reply carries, 0 for any other reply. */
  function ErrorOf(hdr: Vec): nat
    requires |hdr| >= 32
  {
    if Command(hdr) == CMD_ERROR then Len(hdr) % 0x100 else 0
  }

  datatype Judgement = Fail | Accept | Again

  /** What the host makes of a reply while it waits for `xid`. The command of the reply is not looked at. */
  function Judge(xid: nat, hdr: Vec): Judgement
    requires |hdr| >= 32
  {
    if ErrorOf(hdr) != 0 then Fail
    else if xid == XID_ANY || xid == Xid(hdr) then Accept
    else Again
  }

  function QueryMsg(cfg: Cfg): Msg { [Zeros(Width(cfg))] }

  function QueryReply(cfg: Cfg): Msg
    requires CfgOk(cfg)
  {
    [SetQueryData(Zeros(Width(cfg)), cfg.bytes, cfg.depth, cfg.period)]
  }

  /** A shift message as the host builds it: complete, and no longer than the target can store. */
  predicate ShiftMsg(cfg: Cfg, xid: nat, m: Msg) {
    && RequestOk(cfg, m)
    && Version(m[0]) == PRO_VERSION && Command(m[0]) == CMD_TRANS && Xid(m[0]) == xid
    && 2 < |m| == 1 + 2 * C.Announced(Width(cfg), FrameOf(m))
    && CheckLen(cfg, m[0]) && (cfg.depth > 0 ==> C.Announced(Width(cfg), FrameOf(m)) <= cfg.depth)
  }

  function MsgBits(cfg: Cfg, m: Msg): seq<Pin>
    requires RequestOk(cfg, m) && |m| >= 2
  {
    FrameBits(Width(cfg), FrameOf(m))
  }

  /** The TDO words of one execution of `m` by a target with history `hist`. */
  function Words(cfg: Cfg, dev: Device, hist: seq<Pin>, m: Msg): (ws: seq<Vec>)
    requires RequestOk(cfg, m) && |m| >= 2
  {
    Cut(Width(cfg), Tdo(dev, hist, MsgBits(cfg, m)))
  }

  // ---- what the firmware does with the host's messages ----

  lemma ServeQuery(cfg: Cfg, dev: Device, hist: seq<Pin>, fw: Fw)
    requires CfgOk(cfg)
    ensures RequestOk(cfg, QueryMsg(cfg))
    ensures Serve(cfg, dev, hist, fw, QueryMsg(cfg)) == Answer(fw.(memValid := false), QueryReply(cfg), hist)
    ensures Judge(XID_ANY, QueryReply(cfg)[0]) == Accept && Xid(QueryReply(cfg)[0]) == cfg.period
    ensures ErrorOf(QueryReply(cfg)[0]) == 0
    ensures Classify(cfg, fw, QueryMsg(cfg)[0], true) == Query
  {
    var z := Zeros(Width(cfg));
    FieldOfZeros(z, VER_SHIFT, VER_WIDTH);
    FieldOfZeros(z, CMD_SHIFT, CMD_WIDTH);
    QueryFields(z, cfg.bytes, cfg.depth, cfg.period);
    QueryKeepsCommand(z, cfg.bytes, cfg.depth, cfg.period);
  }

  lemma {:induction false} NatOfZeros(v: Vec)
    requires forall i :: 0 <= i < |v| ==> !v[i]
    ensures NatOf(v) == 0
  {
    if v != [] { NatOfZeros(v[1..]); }
  }

  lemma FieldOfZeros(v: Vec, shift: nat, width: nat)
    requires shift + width <= |v| && forall i :: 0 <= i < |v| ==> !v[i]
    ensures Field(v, shift, width) == 0
  {
    NatOfZeros(v[shift..shift + width]);
  }

  lemma IsRun(cfg: Cfg, fw: Fw, xid: nat, m: Msg)
    requires ShiftMsg(cfg, xid, m) && (cfg.depth == 0 || !fw.memValid || fw.xid != xid)
    ensures Classify(cfg, fw, m[0], |m| == 1) == Run && |m| > 2
  {
  }

  /** The first time, the bits are shifted and the reply is remembered. */
  lemma ServeFirst(cfg: Cfg, dev: Device, hist: seq<Pin>, fw: Fw, xid: nat, m: Msg)
    requires ShiftMsg(cfg, xid, m) && (cfg.depth == 0 || !fw.memValid || fw.xid != xid)
    ensures var ws := Words(cfg, dev, hist, m);
            && Serve(cfg, dev, hist, fw, m) == Answer(Fw(xid, cfg.depth > 0, ws), [m[0]] + ws, hist + MsgBits(cfg, m))
            && ErrorOf(m[0]) == 0
    ensures Classify(cfg, fw, m[0], |m| == 1) == Run
  {
    IsRun(cfg, fw, xid, m);
  }

  /** Any further time, the remembered reply is repeated and the target is left alone. */
  lemma ServeAgain(cfg: Cfg, dev: Device, hist: seq<Pin>, xid: nat, m: Msg, ws: seq<Vec>)
    requires ShiftMsg(cfg, xid, m) && cfg.depth > 0
    ensures Serve(cfg, dev, hist, Fw(xid, true, ws), m) == Answer(Fw(xid, true, ws), [m[0]] + ws, hist)
    ensures Classify(cfg, Fw(xid, true, ws), m[0], |m| == 1) == Retry
  {
  }

  lemma ShiftIsNotQuery(cfg: Cfg, xid: nat, m: Msg)
    requires ShiftMsg(cfg, xid, m)
    ensures m != QueryMsg(cfg)
  {
    FieldOfZeros(Zeros(Width(cfg)), CMD_SHIFT, CMD_WIDTH);
  }

  // ---- transition system ----

  /**
   Inside `xferRel`, `left` is how many more attempts it has. `Closed` is before the first query and after a failure.
   */
  datatype Host = Closed | Ready | Asking(left: nat) | Shifting(left: nat)

  /**
   The shift calls made so far (`epoch` of them before the latest query): the message, whether the target executed it,
   and what it delivered if it returned.
   */
  datatype Call = Call(m: Msg, ran: bool, got: Option<seq<Vec>>)

  datatype State = State(
    host: Host, xid: nat, retry: nat,
    req: seq<Msg>, rep: seq<Msg>,
    fw: Fw, hist: seq<Pin>,
    calls: seq<Call>, epoch: nat)

  datatype Action =
    | CallQuery
    | CallShift(m: Msg)
    | Timeout
    | HostReceives
    | FirmwareReceives
    | LoseReq(i: nat) | RepeatReq(i: nat)
    | LoseRep(i: nat) | RepeatRep(i: nat)

  /** The constructor's attempts; the transaction ID starts anywhere. */
  predicate Start(s: State) {
    && s.host == Closed && s.xid < 256 && s.retry == 5 && s.req == [] && s.rep == []
    && s.hist == [] && s.fw == POWER_UP && s.calls == [] && s.epoch == 0
  }

  predicate ReqsOk(cfg: Cfg, req: seq<Msg>) {
    forall i :: 0 <= i < |req| ==> RequestOk(cfg, req[i])
  }

  predicate RepsOk(rep: seq<Msg>) {
    forall i :: 0 <= i < |rep| ==> |rep[i]| >= 1 && |rep[i][0]| >= 32
  }

  predicate CallsOk(cfg: Cfg, calls: seq<Call>) {
    forall k :: 0 <= k < |calls| ==> RequestOk(cfg, calls[k].m) && |calls[k].m| >= 2
  }

  predicate StateOk(cfg: Cfg, s: State) {
    && CfgOk(cfg) && s.xid < 256
    && ReqsOk(cfg, s.req) && RepsOk(s.rep)
    && CallsOk(cfg, s.calls) && s.epoch <= |s.calls|
    && (s.host.Shifting? ==> |s.calls| > 0)
  }

  predicate Enabled(cfg: Cfg, s: State, a: Action) {
    match a
    // a query is only made when no reply of before is in flight
    case CallQuery => (s.host == Closed || s.host == Ready) && s.req == [] && s.rep == []
    case CallShift(m) => s.host == Ready && ShiftMsg(cfg, NextXid(s.xid), m)
    case Timeout => s.host.Asking? || s.host.Shifting?
    case HostReceives => (s.host.Asking? || s.host.Shifting?) && s.rep != []
    case FirmwareReceives => s.req != []
    case LoseReq(i) => i < |s.req|
    // without a memory only queries may be repeated on their way to the target
    case RepeatReq(i) => i < |s.req| && (cfg.depth == 0 ==> s.req[i] == QueryMsg(cfg))
    case LoseRep(i) => i < |s.rep|
    case RepeatRep(i) => i < |s.rep|
  }

  /** The message a waiting host would send again. */
  function Current(cfg: Cfg, s: State): Msg
    requires s.host.Shifting? ==> |s.calls| > 0
  {
    if s.host.Shifting? then s.calls[|s.calls| - 1].m else QueryMsg(cfg)
  }

  /** The log with its last entry changed. */
  function Amend(calls: seq<Call>, c: Call): (cs: seq<Call>)
    requires |calls| > 0
    ensures |cs| == |calls|
  {
    calls[..|calls| - 1] + [c]
  }

  /** The attempt failed: the next one, or none are left. */
  function TryAgain(cfg: Cfg, s: State): State
    requires s.host.Asking? || s.host.Shifting?
    requires s.host.Shifting? ==> |s.calls| > 0
  {
    if s.host.left == 0 then s.(host := Closed)
    else s.(host := if s.host.Asking? then Asking(s.host.left - 1) else Shifting(s.host.left - 1),
            req := s.req + [Current(cfg, s)])
  }

  function Receive(cfg: Cfg, s: State): State
    requires StateOk(cfg, s) && Enabled(cfg, s, HostReceives)
  {
    var r := s.rep[0];
    var s := s.(rep := s.rep[1..]);
    match Judge(if s.host.Shifting? then s.xid else XID_ANY, r[0])
    case Fail => s.(host := Closed)
    case Again => TryAgain(cfg, s)
    case Accept =>
      if s.host.Asking? then s.(host := Ready, retry := if Field(r[0], QMS_SHIFT, QMS_WIDTH) == 0 then 0 else 5)
      else s.(host := Ready, calls := Amend(s.calls, s.calls[|s.calls| - 1].(got := Some(r[1..]))))
  }

  function ServeHead(cfg: Cfg, dev: Device, s: State): State
    requires StateOk(cfg, s) && s.req != []
  {
    var a := Serve(cfg, dev, s.hist, s.fw, s.req[0]);
    var runs := Classify(cfg, s.fw, s.req[0][0], |s.req[0]| == 1) == Run && |s.calls| > 0;
    s.(req := s.req[1..], rep := s.rep + [a.reply], fw := a.fw, hist := a.hist,
       calls := if runs then Amend(s.calls, s.calls[|s.calls| - 1].(ran := true)) else s.calls)
  }

  function Lose<T>(ch: seq<T>, i: nat): seq<T>
    requires i < |ch|
  {
    ch[..i] + ch[i + 1..]
  }

  function Repeat<T>(ch: seq<T>, i: nat): seq<T>
    requires i < |ch|
  {
    ch[..i + 1] + ch[i..]
  }

  function Do(cfg: Cfg, dev: Device, s: State, a: Action): State
    requires StateOk(cfg, s) && Enabled(cfg, s, a)
  {
    match a
    case CallQuery => s.(host := Asking(s.retry), req := s.req + [QueryMsg(cfg)], epoch := |s.calls|)
    case CallShift(m) =>
      s.(host := Shifting(s.retry), xid := NextXid(s.xid), req := s.req + [m],
         calls := s.calls + [Call(m, false, None)])
    case Timeout => TryAgain(cfg, s)
    case HostReceives => Receive(cfg, s)
    case FirmwareReceives => ServeHead(cfg, dev, s)
    case LoseReq(i) => s.(req := Lose(s.req, i))
    case RepeatReq(i) => s.(req := Repeat(s.req, i))
    case LoseRep(i) => s.(rep := Lose(s.rep, i))
    case RepeatRep(i) => s.(rep := Repeat(s.rep, i))
  }

  // ---- what is promised ----

  /** All that the executed calls clocked into the target, in the order of the calls. */
  function Shifts(cfg: Cfg, calls: seq<Call>): seq<Pin>
    requires CallsOk(cfg, calls)
  {
    if calls == [] then []
    else
      var n := |calls| - 1;
      Shifts(cfg, calls[..n]) + (if calls[n].ran then MsgBits(cfg, calls[n].m) else [])
  }

  /** The TDO words of call `k`, executed once and in its turn. */
  function Due(cfg: Cfg, dev: Device, calls: seq<Call>, k: nat): seq<Vec>
    requires CallsOk(cfg, calls) && k < |calls|
  {
    Words(cfg, dev, Shifts(cfg, calls[..k]), calls[k].m)
  }

  /**
   Exactly once, in issue order: the target saw the bits of each executed call once, in the order of the calls, and
   a call that returned was executed and delivered the TDO of that execution.
   */
  predicate ExactlyOnce(cfg: Cfg, dev: Device, calls: seq<Call>, hist: seq<Pin>) {
    && CallsOk(cfg, calls)
    && hist == Shifts(cfg, calls)
    && forall k :: 0 <= k < |calls| && calls[k].got.Some? ==>
                     calls[k].ran && calls[k].got.value == Due(cfg, dev, calls, k)
  }

  /**
   A shift call is safe unless it is the first since a query, messages of that query are still in flight, and the bits
   of their reply that the host takes for a transaction ID (they are the TCK period) happen to be the ID of the call.
   */
  predicate SafeCall(cfg: Cfg, s: State) {
    |s.calls| == s.epoch && (s.req != [] || s.rep != []) ==> cfg.period != NextXid(s.xid)
  }

  predicate Guarded(cfg: Cfg, s: State, a: Action) {
    a.CallShift? ==> SafeCall(cfg, s)
  }
}
