// The one way in which a run of the protocol can go wrong: the late reply to a repeated query is taken for the reply
// to a shift. It happens to the runs of a configuration exactly if its encoded TCK period is not zero.

module StaleReply {
  import opened Bits
  import opened Arith
  import opened Jtag
  import opened Header
  import C = Core
  import opened Firmware
  import opened Sizes
  import opened Protocol
  import opened ProtocolProof

  /** A run like `Possible`, but shifts are called at any time, as the host does. */
  predicate Feasible(cfg: Cfg, dev: Device, s: State, acts: seq<Action>)
    decreases |acts|
  {
    acts == [] ||
    (StateOk(cfg, s) && Enabled(cfg, s, acts[0]) && Feasible(cfg, dev, Do(cfg, dev, s, acts[0]), acts[1..]))
  }

  function Outcome(cfg: Cfg, dev: Device, s: State, acts: seq<Action>): State
    requires Feasible(cfg, dev, s, acts)
    decreases |acts|
  {
    if acts == [] then s else Outcome(cfg, dev, Do(cfg, dev, s, acts[0]), acts[1..])
  }

  /** Every run of every host, however it starts, is good. */
  ghost predicate NeverFails(cfg: Cfg, dev: Device) {
    forall s, acts :: Start(s) && Feasible(cfg, dev, s, acts) ==>
      ExactlyOnce(cfg, dev, Outcome(cfg, dev, s, acts).calls, Outcome(cfg, dev, s, acts).hist)
  }

  // ---- a period of zero is no transaction ID ----

  lemma {:induction false} AllSafe(cfg: Cfg, dev: Device, s: State, acts: seq<Action>)
    requires cfg.period == 0 && Feasible(cfg, dev, s, acts)
    ensures Possible(cfg, dev, s, acts) && After(cfg, dev, s, acts) == Outcome(cfg, dev, s, acts)
    decreases |acts|
  {
    if acts != [] {
      NextXidDiffers(s.xid);
      AllSafe(cfg, dev, Do(cfg, dev, s, acts[0]), acts[1..]);
    }
  }

  // ---- a run that fails ----

  /** The channels do not lose or repeat anything. */
  predicate NoFaults(acts: seq<Action>) {
    forall k :: 0 <= k < |acts| ==> !IsFault(acts[k])
  }

  /** `acts` leads from `s` to `u`. */
  predicate Leads(cfg: Cfg, dev: Device, s: State, acts: seq<Action>, u: State) {
    NoFaults(acts) && Feasible(cfg, dev, s, acts) && Outcome(cfg, dev, s, acts) == u
  }

  lemma LeadsOne(cfg: Cfg, dev: Device, s: State, a: Action, u: State)
    requires StateOk(cfg, s) && Enabled(cfg, s, a) && Do(cfg, dev, s, a) == u && !IsFault(a)
    ensures Leads(cfg, dev, s, [a], u)
  {
    assert [a][1..] == [];
  }

  lemma LeadsFirst(cfg: Cfg, dev: Device, s: State, a: Action, t: State, rest: seq<Action>, u: State)
    requires StateOk(cfg, s) && Enabled(cfg, s, a) && Do(cfg, dev, s, a) == t && !IsFault(a)
    requires Leads(cfg, dev, t, rest, u)
    ensures Leads(cfg, dev, s, [a] + rest, u)
  {
    assert ([a] + rest)[1..] == rest;
  }

  /** The header of a shift of a single bit. */
  lemma OneBitHeader(cfg: Cfg, xid: nat) returns (hdr: Vec)
    requires CfgOk(cfg) && xid < 0x100
    ensures |hdr| == Width(cfg) && Len(hdr) == 0 && Xid(hdr) == xid
    ensures Command(hdr) == CMD_TRANS && Version(hdr) == PRO_VERSION
  {
    var z := Zeros(Width(cfg));
    var z1 := SetField(z, LEN_SHIFT, LEN_WIDTH, 0);
    var z2 := SetField(z1, XID_SHIFT, XID_WIDTH, xid);
    hdr := SetField(z2, CMD_SHIFT, CMD_WIDTH, CMD_TRANS);
    SmallPow2();
    ThreeFields(z, LEN_SHIFT, LEN_WIDTH, 0, XID_SHIFT, XID_WIDTH, xid, CMD_SHIFT, CMD_WIDTH, CMD_TRANS);
    FieldOfZeros(z, VER_SHIFT, VER_WIDTH);
    FieldKept(z, LEN_SHIFT, LEN_WIDTH, 0, VER_SHIFT, VER_WIDTH);
    FieldKept(z1, XID_SHIFT, XID_WIDTH, xid, VER_SHIFT, VER_WIDTH);
    FieldKept(z2, CMD_SHIFT, CMD_WIDTH, CMD_TRANS, VER_SHIFT, VER_WIDTH);
  }

  /** Every configuration can shift a single bit. */
  lemma OneBit(cfg: Cfg, xid: nat) returns (m: Msg)
    requires CfgOk(cfg) && xid < 0x100
    ensures ShiftMsg(cfg, xid, m)
  {
    var hdr := OneBitHeader(cfg, xid);
    m := [hdr, Zeros(Width(cfg)), Zeros(Width(cfg))];
    assert C.Announced(Width(cfg), FrameOf(m)) == 1;
    UnitBounds(cfg);
    LenFitsExactly(cfg, 0);
    if cfg.depth > 0 { MulMono(cfg.depth, 1, Unit(cfg)); }
  }

  /** The second half: the host calls a shift whose ID is the period, and a late reply is taken for its reply. */
  lemma Fooled(cfg: Cfg, dev: Device, u: State, m: Msg) returns (w: State, acts: seq<Action>)
    requires StateOk(cfg, u) && u.host == Ready && u.rep == [QueryReply(cfg)] && u.calls == []
    requires NextXid(u.xid) == cfg.period && ShiftMsg(cfg, cfg.period, m)
    ensures acts == [CallShift(m), HostReceives]
    ensures Leads(cfg, dev, u, acts, w) && !ExactlyOnce(cfg, dev, w.calls, w.hist)
  {
    var v := Do(cfg, dev, u, CallShift(m));
    StaleQueryAccepted(cfg, dev, v);
    w := Receive(cfg, v);
    LeadsOne(cfg, dev, v, HostReceives, w);
    LeadsFirst(cfg, dev, u, CallShift(m), v, [HostReceives], w);
    acts := [CallShift(m)] + [HostReceives];
  }

  /** The first half, from its end: one of two replies is taken, and rightly so. */
  lemma Opened(cfg: Cfg, dev: Device, s: State, xid: nat, w: State, rest: seq<Action>, u: State)
    requires CfgOk(cfg) && xid < 256 && u == Waiting(xid).(host := Ready, retry := Tries(cfg), rep := [QueryReply(cfg)])
    requires s == Waiting(xid).(rep := [QueryReply(cfg), QueryReply(cfg)]) && Leads(cfg, dev, u, rest, w)
    ensures Leads(cfg, dev, s, [HostReceives] + rest, w)
  {
    ServeQuery(cfg, dev, s.hist, s.fw);
    QueryFields(Zeros(Width(cfg)), cfg.bytes, cfg.depth, cfg.period);
    assert s.rep[1..] == u.rep;
    LeadsFirst(cfg, dev, s, HostReceives, u, rest, w);
  }

  /** A host that waits, for the second time, for the reply to its first query. */
  function Waiting(xid: nat): State {
    State(Host.Asking(4), xid, 5, [], [], POWER_UP, [], [], 0)
  }

  /** Before that, the target answered the query twice. */
  lemma Answered(cfg: Cfg, dev: Device, s: State, xid: nat, n: nat, w: State, rest: seq<Action>, t: State)
    requires CfgOk(cfg) && xid < 256 && n < 2
    requires s == Waiting(xid).(req := if n == 0 then [QueryMsg(cfg), QueryMsg(cfg)] else [QueryMsg(cfg)],
                                    rep := if n == 0 then [] else [QueryReply(cfg)])
    requires t == Waiting(xid).(req := if n == 0 then [QueryMsg(cfg)] else [],
                                    rep := if n == 0 then [QueryReply(cfg)] else [QueryReply(cfg), QueryReply(cfg)])
    requires Leads(cfg, dev, t, rest, w)
    ensures Leads(cfg, dev, s, [FirmwareReceives] + rest, w)
  {
    ServeQuery(cfg, dev, s.hist, POWER_UP);
    assert s.req[1..] == t.req;
    LeadsFirst(cfg, dev, s, FirmwareReceives, t, rest, w);
  }

  /** And before that, the query was sent twice, because the host gave up waiting too early. */
  lemma Asked(cfg: Cfg, dev: Device, s: State, xid: nat, w: State, rest: seq<Action>, t: State)
    requires CfgOk(cfg) && xid < 256 && s == State(Closed, xid, 5, [], [], POWER_UP, [], [], 0)
    requires t == Waiting(xid).(req := [QueryMsg(cfg), QueryMsg(cfg)]) && Leads(cfg, dev, t, rest, w)
    ensures Leads(cfg, dev, s, [CallQuery] + ([Timeout] + rest), w)
  {
    ServeQuery(cfg, dev, [], POWER_UP);
    var r := s.(host := Host.Asking(5), req := [QueryMsg(cfg)]);
    LeadsFirst(cfg, dev, r, Timeout, t, rest, w);
    LeadsFirst(cfg, dev, s, CallQuery, r, [Timeout] + rest, w);
  }

  /** No message is lost or repeated by the channels, only late; still a call returns that was never executed. */
  lemma FailingRun(cfg: Cfg, dev: Device) returns (s: State, acts: seq<Action>, w: State)
    requires CfgOk(cfg) && cfg.period > 0
    ensures Start(s) && Leads(cfg, dev, s, acts, w) && !ExactlyOnce(cfg, dev, w.calls, w.hist)
  {
    var q, r, xid := QueryMsg(cfg), QueryReply(cfg), cfg.period - 1;
    var a := Waiting(xid);
    s := State(Closed, xid, 5, [], [], POWER_UP, [], [], 0);
    var m := OneBit(cfg, cfg.period);
    var u := OpenState(cfg, dev, xid);
    w, acts := Fooled(cfg, dev, u, m);
    Opened(cfg, dev, a.(rep := [r, r]), xid, w, acts, u);
    acts := [HostReceives] + acts;
    Answered(cfg, dev, a.(req := [q], rep := [r]), xid, 1, w, acts, a.(rep := [r, r]));
    acts := [FirmwareReceives] + acts;
    Answered(cfg, dev, a.(req := [q, q]), xid, 0, w, acts, a.(req := [q], rep := [r]));
    acts := [FirmwareReceives] + acts;
    Asked(cfg, dev, s, xid, w, acts, a.(req := [q, q]));
    acts := [CallQuery] + ([Timeout] + acts);
  }

  lemma OpenState(cfg: Cfg, dev: Device, xid: nat) returns (u: State)
    requires CfgOk(cfg) && xid < 256
    ensures u == Waiting(xid).(host := Ready, retry := Tries(cfg), rep := [QueryReply(cfg)]) && StateOk(cfg, u)
  {
    ServeQuery(cfg, dev, [], POWER_UP);
    u := Waiting(xid).(host := Ready, retry := Tries(cfg), rep := [QueryReply(cfg)]);
  }

  /** A configuration never fails if and only if the period field of its query reply is zero. */
  lemma PeriodIff(cfg: Cfg, dev: Device)
    requires CfgOk(cfg)
    ensures NeverFails(cfg, dev) <==> cfg.period == 0
  {
    if cfg.period == 0 {
      forall s, acts | Start(s) && Feasible(cfg, dev, s, acts)
        ensures ExactlyOnce(cfg, dev, Outcome(cfg, dev, s, acts).calls, Outcome(cfg, dev, s, acts).hist)
      {
        AllSafe(cfg, dev, s, acts);
        ExactlyOnceAlways(cfg, dev, s, acts);
      }
    } else {
      var s, acts, w := FailingRun(cfg, dev);
    }
  }
}
