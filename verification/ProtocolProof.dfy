// Exactly-once execution over lossy channels: the invariant of the retry protocol and its consequences.

module ProtocolProof {
  import opened Bits
  import opened Jtag
  import opened Header
  import opened Firmware
  import opened Options
  import opened Protocol

  // ---- contents of a channel ----

  predicate AllAre<T(==)>(ch: seq<T>, x: T) {
    forall i :: 0 <= i < |ch| ==> ch[i] == x
  }

  /** Some `p`, then some `m`. */
  predicate Ordered<T(==)>(ch: seq<T>, p: T, m: T) {
    && (forall i :: 0 <= i < |ch| ==> ch[i] == p || ch[i] == m)
    && (forall i, j :: 0 <= i < j < |ch| && ch[i] == m ==> ch[j] == m)
  }

  predicate NoTwo<T(==)>(ch: seq<T>, m: T) {
    forall i, j :: 0 <= i < j < |ch| ==> !(ch[i] == m && ch[j] == m)
  }

  lemma LoseKeeps<T>(ch: seq<T>, k: nat, p: T, m: T)
    requires k < |ch|
    ensures AllAre(ch, m) ==> AllAre(Lose(ch, k), m)
    ensures Ordered(ch, p, m) ==> Ordered(Lose(ch, k), p, m)
    ensures NoTwo(ch, m) ==> NoTwo(Lose(ch, k), m)
  {
    var c := Lose(ch, k);
    assert forall i :: 0 <= i < |c| ==> c[i] == ch[if i < k then i else i + 1];
  }

  lemma RepeatKeeps<T>(ch: seq<T>, k: nat, p: T, m: T)
    requires k < |ch|
    ensures AllAre(ch, m) ==> AllAre(Repeat(ch, k), m)
    ensures Ordered(ch, p, m) ==> Ordered(Repeat(ch, k), p, m)
    ensures NoTwo(ch, m) && ch[k] != m ==> NoTwo(Repeat(ch, k), m)
  {
    var c := Repeat(ch, k);
    assert forall i :: 0 <= i < |c| ==> c[i] == ch[if i <= k then i else i - 1];
  }

  /** The messages in play: the latest shift call and its reply, and what was exchanged before it. */
  datatype Talk = Talk(p: Msg, pr: Msg, m: Msg, r: Msg, first: bool, clash: bool)

  /** The channels before the target executes the call; `once` when there is no memory. */
  predicate NetPending(once: bool, t: Talk, req: seq<Msg>, rep: seq<Msg>) {
    && Ordered(req, t.p, t.m) && AllAre(rep, t.pr)
    && (t.clash ==> AllAre(req, t.m) && rep == [])
    && (once ==> NoTwo(req, t.m) && (!t.first ==> AllAre(req, t.m)))
  }

  /** The channels afterwards. */
  predicate NetExecuted(once: bool, t: Talk, ready: bool, req: seq<Msg>, rep: seq<Msg>) {
    && AllAre(req, t.m) && Ordered(rep, t.pr, t.r)
    && (t.clash || ready ==> AllAre(rep, t.r))
    && (once ==> req == [])
  }

  predicate Net(once: bool, t: Talk, ran: bool, ready: bool, req: seq<Msg>, rep: seq<Msg>) {
    if ran then NetExecuted(once, t, ready, req, rep) else NetPending(once, t, req, rep)
  }

  lemma NetLose(once: bool, t: Talk, ran: bool, ready: bool, req: seq<Msg>, rep: seq<Msg>, i: nat)
    requires Net(once, t, ran, ready, req, rep)
    ensures i < |req| ==> Net(once, t, ran, ready, Lose(req, i), rep)
    ensures i < |rep| ==> Net(once, t, ran, ready, req, Lose(rep, i))
  {
    if i < |req| { LoseKeeps(req, i, t.p, t.m); }
    if i < |rep| {
      LoseKeeps(rep, i, t.pr, t.r);
      LoseKeeps(rep, i, t.pr, t.pr);
    }
  }

  lemma NetRepeat(once: bool, t: Talk, ran: bool, ready: bool, req: seq<Msg>, rep: seq<Msg>, i: nat)
    requires Net(once, t, ran, ready, req, rep)
    ensures i < |req| && (once ==> req[i] != t.m) ==> Net(once, t, ran, ready, Repeat(req, i), rep)
    ensures i < |rep| ==> Net(once, t, ran, ready, req, Repeat(rep, i))
  {
    if i < |req| { RepeatKeeps(req, i, t.p, t.m); }
    if i < |rep| {
      RepeatKeeps(rep, i, t.pr, t.r);
      RepeatKeeps(rep, i, t.pr, t.pr);
    }
  }

  // ---- the record of calls ----

  lemma AmendKeeps(cfg: Cfg, dev: Device, calls: seq<Call>, c: Call)
    requires CallsOk(cfg, calls) && |calls| > 0 && c.m == calls[|calls| - 1].m
    ensures CallsOk(cfg, Amend(calls, c))
    ensures forall k :: 0 <= k < |calls| ==> Due(cfg, dev, Amend(calls, c), k) == Due(cfg, dev, calls, k)
    ensures Shifts(cfg, Amend(calls, c)) ==
            Shifts(cfg, calls[..|calls| - 1]) + (if c.ran then MsgBits(cfg, c.m) else [])
  {
    var n := |calls| - 1;
    assert Amend(calls, c)[..n] == calls[..n];
    forall k | 0 <= k < |calls|
      ensures Due(cfg, dev, Amend(calls, c), k) == Due(cfg, dev, calls, k)
    {
      assert Amend(calls, c)[..k] == calls[..k];
    }
  }

  lemma AppendKeeps(cfg: Cfg, dev: Device, calls: seq<Call>, c: Call)
    requires CallsOk(cfg, calls) && RequestOk(cfg, c.m) && |c.m| >= 2 && !c.ran
    ensures CallsOk(cfg, calls + [c])
    ensures forall k :: 0 <= k < |calls| ==> Due(cfg, dev, calls + [c], k) == Due(cfg, dev, calls, k)
    ensures Shifts(cfg, calls + [c]) == Shifts(cfg, calls)
    ensures Due(cfg, dev, calls + [c], |calls|) == Words(cfg, dev, Shifts(cfg, calls), c.m)
  {
    assert (calls + [c])[..|calls|] == calls;
    forall k | 0 <= k < |calls|
      ensures Due(cfg, dev, calls + [c], k) == Due(cfg, dev, calls, k)
    {
      assert (calls + [c])[..k] == calls[..k];
    }
  }

  // ---- invariant ----

  function Tries(cfg: Cfg): nat { if cfg.depth == 0 then 0 else 5 }

  function ReplyOf(cfg: Cfg, dev: Device, calls: seq<Call>, k: nat): Msg
    requires CallsOk(cfg, calls) && k < |calls|
  {
    [calls[k].m[0]] + Due(cfg, dev, calls, k)
  }

  function TalkOf(cfg: Cfg, dev: Device, calls: seq<Call>, epoch: nat, xid: nat): Talk
    requires CfgOk(cfg) && CallsOk(cfg, calls) && |calls| > epoch
  {
    var n := |calls| - 1;
    if n == epoch then
      Talk(QueryMsg(cfg), QueryReply(cfg), calls[n].m, ReplyOf(cfg, dev, calls, n), true, cfg.period == xid)
    else
      Talk(calls[n - 1].m, ReplyOf(cfg, dev, calls, n - 1), calls[n].m, ReplyOf(cfg, dev, calls, n), false, false)
  }

  /** The latest call carries the current ID; its predecessor, if that is not a query, another one. */
  predicate TalkOk(cfg: Cfg, t: Talk, xid: nat) {
    && ShiftMsg(cfg, xid, t.m) && xid > 0
    && (if t.first then t.p == QueryMsg(cfg)
        else |t.p| > 0 && |t.p[0]| >= 32 && 0 < Xid(t.p[0]) != xid && ShiftMsg(cfg, Xid(t.p[0]), t.p))
  }

  /** Since the latest query no shift was called; only queries and their replies are in flight. */
  predicate OnlyQueries(cfg: Cfg, s: State)
    requires CfgOk(cfg)
  {
    && !s.host.Shifting?
    && AllAre(s.req, QueryMsg(cfg)) && AllAre(s.rep, QueryReply(cfg))
    && (s.host == Ready || s.rep != [] ==> !s.fw.memValid)
    && (s.host == Ready ==> s.retry == Tries(cfg))
  }

  /** What the firmware knows before it sees the latest call. */
  predicate FwBefore(cfg: Cfg, dev: Device, calls: seq<Call>, epoch: nat, fw: Fw)
    requires CallsOk(cfg, calls) && |calls| > epoch
  {
    var n := |calls| - 1;
    if n == epoch then !fw.memValid
    else calls[n - 1].ran && fw == Fw(Xid(calls[n - 1].m[0]), cfg.depth > 0, Due(cfg, dev, calls, n - 1))
  }

  /** A shift was called since the latest query. */
  predicate InShift(cfg: Cfg, dev: Device, s: State)
    requires StateOk(cfg, s) && |s.calls| > s.epoch
  {
    var c := s.calls[|s.calls| - 1];
    var t := TalkOf(cfg, dev, s.calls, s.epoch, s.xid);
    && TalkOk(cfg, t, s.xid) && !s.host.Asking?
    && (s.host != Closed ==> s.retry == Tries(cfg))
    && (s.host.Shifting? ==> s.host.left <= Tries(cfg))
    && (c.got.Some? <==> s.host == Ready)
    && (s.host == Ready ==> c.ran)
    && Net(cfg.depth == 0, t, c.ran, s.host == Ready, s.req, s.rep)
    && (if c.ran then s.fw == Fw(s.xid, cfg.depth > 0, Due(cfg, dev, s.calls, |s.calls| - 1))
        else FwBefore(cfg, dev, s.calls, s.epoch, s.fw))
  }

  /** The messages in play and the channels of a state inside a shift. */
  lemma Talking(cfg: Cfg, dev: Device, s: State) returns (t: Talk, ran: bool)
    requires StateOk(cfg, s) && |s.calls| > s.epoch && InShift(cfg, dev, s)
    ensures t == TalkOf(cfg, dev, s.calls, s.epoch, s.xid) && TalkOk(cfg, t, s.xid)
    ensures t.m == s.calls[|s.calls| - 1].m && t.r == ReplyOf(cfg, dev, s.calls, |s.calls| - 1)
    ensures ran == s.calls[|s.calls| - 1].ran && Net(cfg.depth == 0, t, ran, s.host == Ready, s.req, s.rep)
  {
    t := TalkOf(cfg, dev, s.calls, s.epoch, s.xid);
    ran := s.calls[|s.calls| - 1].ran;
  }

  /** Only the channels change. */
  lemma ChannelsChange(cfg: Cfg, dev: Device, s: State, t: Talk, req: seq<Msg>, rep: seq<Msg>, s': State)
    requires StateOk(cfg, s) && |s.calls| > s.epoch && InShift(cfg, dev, s)
    requires t == TalkOf(cfg, dev, s.calls, s.epoch, s.xid) && s' == s.(req := req, rep := rep) && StateOk(cfg, s')
    requires Net(cfg.depth == 0, t, s.calls[|s.calls| - 1].ran, s.host == Ready, req, rep)
    ensures InShift(cfg, dev, s')
  {
  }

  predicate Inv(cfg: Cfg, dev: Device, s: State) {
    && StateOk(cfg, s)
    && ExactlyOnce(cfg, dev, s.calls, s.hist)
    && (if |s.calls| == s.epoch then OnlyQueries(cfg, s) else InShift(cfg, dev, s))
  }

  lemma StartInv(cfg: Cfg, dev: Device, s: State)
    requires CfgOk(cfg) && Start(s)
    ensures Inv(cfg, dev, s)
  {
  }

  // ---- channel faults ----

  predicate IsFault(a: Action) { a.LoseReq? || a.RepeatReq? || a.LoseRep? || a.RepeatRep? }

  lemma ReqsStayOk(cfg: Cfg, req: seq<Msg>, i: nat)
    requires ReqsOk(cfg, req) && i < |req|
    ensures ReqsOk(cfg, Lose(req, i)) && ReqsOk(cfg, Repeat(req, i))
  {
    assert forall k :: 0 <= k < |Lose(req, i)| ==> Lose(req, i)[k] == req[if k < i then k else k + 1];
    assert forall k :: 0 <= k < |Repeat(req, i)| ==> Repeat(req, i)[k] == req[if k <= i then k else k - 1];
  }

  lemma RepsStayOk(rep: seq<Msg>, i: nat)
    requires RepsOk(rep) && i < |rep|
    ensures RepsOk(Lose(rep, i)) && RepsOk(Repeat(rep, i))
  {
    assert forall k :: 0 <= k < |Lose(rep, i)| ==> Lose(rep, i)[k] == rep[if k < i then k else k + 1];
    assert forall k :: 0 <= k < |Repeat(rep, i)| ==> Repeat(rep, i)[k] == rep[if k <= i then k else k - 1];
  }

  lemma FaultOk(cfg: Cfg, dev: Device, s: State, a: Action)
    requires StateOk(cfg, s) && Enabled(cfg, s, a) && IsFault(a)
    ensures StateOk(cfg, Do(cfg, dev, s, a))
  {
    if a.LoseReq? || a.RepeatReq? { ReqsStayOk(cfg, s.req, a.i); } else { RepsStayOk(s.rep, a.i); }
  }

  lemma FaultInQueries(cfg: Cfg, dev: Device, s: State, a: Action)
    requires StateOk(cfg, s) && Enabled(cfg, s, a) && IsFault(a) && OnlyQueries(cfg, s)
    ensures OnlyQueries(cfg, Do(cfg, dev, s, a))
  {
    var q, r := QueryMsg(cfg), QueryReply(cfg);
    match a
    case LoseReq(i) => LoseKeeps(s.req, i, q, q);
    case RepeatReq(i) => RepeatKeeps(s.req, i, q, q);
    case LoseRep(i) => LoseKeeps(s.rep, i, r, r);
    case RepeatRep(i) => RepeatKeeps(s.rep, i, r, r);
  }

  lemma ShiftFault(cfg: Cfg, dev: Device, s: State, a: Action, s': State)
    requires StateOk(cfg, s) && |s.calls| > s.epoch && InShift(cfg, dev, s)
    requires Enabled(cfg, s, a) && IsFault(a) && s' == Do(cfg, dev, s, a) && StateOk(cfg, s')
    ensures InShift(cfg, dev, s')
  {
    var t, ran := Talking(cfg, dev, s);
    ShiftIsNotQuery(cfg, s.xid, t.m);
    if a.LoseReq? || a.LoseRep? {
      NetLose(cfg.depth == 0, t, ran, s.host == Ready, s.req, s.rep, a.i);
    } else {
      NetRepeat(cfg.depth == 0, t, ran, s.host == Ready, s.req, s.rep, a.i);
    }
    ChannelsChange(cfg, dev, s, t, s'.req, s'.rep, s');
  }

  lemma FaultStep(cfg: Cfg, dev: Device, s: State, a: Action)
    requires Inv(cfg, dev, s) && Enabled(cfg, s, a) && IsFault(a)
    ensures Inv(cfg, dev, Do(cfg, dev, s, a))
  {
    FaultOk(cfg, dev, s, a);
    if |s.calls| == s.epoch {
      FaultInQueries(cfg, dev, s, a);
    } else {
      ShiftFault(cfg, dev, s, a, Do(cfg, dev, s, a));
    }
  }

  // ---- the host ----

  lemma CallQueryStep(cfg: Cfg, dev: Device, s: State)
    requires Inv(cfg, dev, s) && Enabled(cfg, s, CallQuery)
    ensures Inv(cfg, dev, Do(cfg, dev, s, CallQuery))
  {
    ServeQuery(cfg, dev, [], s.fw);
  }

  /** What follows from a shift call for the messages in play, the channels and what the firmware knows. */
  predicate Called(cfg: Cfg, dev: Device, s': State)
    requires StateOk(cfg, s') && |s'.calls| > s'.epoch
  {
    var t' := TalkOf(cfg, dev, s'.calls, s'.epoch, s'.xid);
    && TalkOk(cfg, t', s'.xid) && NetPending(cfg.depth == 0, t', s'.req, s'.rep)
    && FwBefore(cfg, dev, s'.calls, s'.epoch, s'.fw)
  }

  lemma FirstNet(once: bool, t': Talk, req: seq<Msg>, rep: seq<Msg>)
    requires AllAre(req, t'.p) && AllAre(rep, t'.pr) && t'.first && (t'.clash ==> req == [] && rep == [])
    requires t'.p != t'.m
    ensures NetPending(once, t', req + [t'.m], rep)
  {
  }

  lemma NextNet(once: bool, t: Talk, t': Talk, req: seq<Msg>, rep: seq<Msg>)
    requires NetExecuted(once, t, true, req, rep)
    requires t'.p == t.m && t'.pr == t.r && !t'.first && !t'.clash && t'.p != t'.m
    ensures NetPending(once, t', req + [t'.m], rep)
  {
  }

  /** The first shift call since a query. */
  lemma FirstCall(cfg: Cfg, dev: Device, s: State, s': State, m: Msg)
    requires StateOk(cfg, s) && StateOk(cfg, s') && ShiftMsg(cfg, s'.xid, m) && 0 < s'.xid
    requires s'.calls == s.calls + [Call(m, false, None)] && s'.epoch == s.epoch && s'.fw == s.fw
    requires s'.req == s.req + [m] && s'.rep == s.rep
    requires |s.calls| == s.epoch && OnlyQueries(cfg, s) && s.host == Ready
    requires cfg.period == s'.xid ==> s.req == [] && s.rep == []
    ensures Called(cfg, dev, s')
  {
    ShiftIsNotQuery(cfg, s'.xid, m);
    FirstNet(cfg.depth == 0, TalkOf(cfg, dev, s'.calls, s'.epoch, s'.xid), s.req, s.rep);
  }

  lemma NextTalk(cfg: Cfg, dev: Device, s: State, s': State, m: Msg) returns (t: Talk, t': Talk)
    requires StateOk(cfg, s) && StateOk(cfg, s') && ShiftMsg(cfg, s'.xid, m) && 0 < s'.xid != s.xid
    requires s'.calls == s.calls + [Call(m, false, None)] && s'.epoch == s.epoch && |s.calls| > s.epoch
    requires InShift(cfg, dev, s) && s.host == Ready
    ensures NetExecuted(cfg.depth == 0, t, true, s.req, s.rep)
    ensures t' == TalkOf(cfg, dev, s'.calls, s'.epoch, s'.xid) && TalkOk(cfg, t', s'.xid)
    ensures t'.m == m && t'.p == t.m && t'.pr == t.r && !t'.first && !t'.clash && t'.p != m
    ensures FwBefore(cfg, dev, s'.calls, s'.epoch, s.fw)
  {
    var ran;
    t, ran := Talking(cfg, dev, s);
    AppendKeeps(cfg, dev, s.calls, Call(m, false, None));
    t' := TalkOf(cfg, dev, s'.calls, s'.epoch, s'.xid);
  }

  /** A shift call after another one has returned. */
  lemma NextCall(cfg: Cfg, dev: Device, s: State, s': State, m: Msg)
    requires StateOk(cfg, s) && StateOk(cfg, s') && ShiftMsg(cfg, s'.xid, m) && 0 < s'.xid != s.xid
    requires s'.calls == s.calls + [Call(m, false, None)] && s'.epoch == s.epoch && s'.fw == s.fw
    requires s'.req == s.req + [m] && s'.rep == s.rep
    requires |s.calls| > s.epoch && InShift(cfg, dev, s) && s.host == Ready
    ensures Called(cfg, dev, s')
  {
    var t, t' := NextTalk(cfg, dev, s, s', m);
    NextNet(cfg.depth == 0, t, t', s.req, s.rep);
  }

  lemma CallShiftLog(cfg: Cfg, dev: Device, s: State, m: Msg)
    requires StateOk(cfg, s) && ExactlyOnce(cfg, dev, s.calls, s.hist) && Enabled(cfg, s, CallShift(m))
    ensures StateOk(cfg, Do(cfg, dev, s, CallShift(m)))
    ensures ExactlyOnce(cfg, dev, s.calls + [Call(m, false, None)], s.hist)
  {
    NextXidDiffers(s.xid);
    AppendKeeps(cfg, dev, s.calls, Call(m, false, None));
  }

  lemma CallShiftStep(cfg: Cfg, dev: Device, s: State, m: Msg)
    requires Inv(cfg, dev, s) && Enabled(cfg, s, CallShift(m)) && SafeCall(cfg, s)
    ensures Inv(cfg, dev, Do(cfg, dev, s, CallShift(m)))
  {
    NextXidDiffers(s.xid);
    CallShiftLog(cfg, dev, s, m);
    var s' := Do(cfg, dev, s, CallShift(m));
    if |s.calls| == s.epoch { FirstCall(cfg, dev, s, s', m); } else { NextCall(cfg, dev, s, s', m); }
  }

  /** Sending the current message again. */
  lemma Resend(t: Talk, ran: bool, ready: bool, req: seq<Msg>, rep: seq<Msg>)
    requires Net(false, t, ran, ready, req, rep)
    ensures Net(false, t, ran, ready, req + [t.m], rep)
  {
  }

  /** An attempt less, or none left, and perhaps the message once more. */
  lemma AttemptFails(cfg: Cfg, dev: Device, s: State, t: Talk, req: seq<Msg>, s': State)
    requires StateOk(cfg, s) && |s.calls| > s.epoch && InShift(cfg, dev, s) && s.host.Shifting?
    requires t == TalkOf(cfg, dev, s.calls, s.epoch, s.xid) && s' == s.(req := req, host := s'.host) && StateOk(cfg, s')
    requires s'.host == Closed || (s'.host.Shifting? && s'.host.left <= s.host.left)
    requires Net(cfg.depth == 0, t, s.calls[|s.calls| - 1].ran, false, req, s.rep)
    ensures InShift(cfg, dev, s')
  {
  }

  lemma AskAgain(cfg: Cfg, dev: Device, s: State)
    requires Inv(cfg, dev, s) && s.host.Asking? && |s.calls| == s.epoch
    ensures Inv(cfg, dev, TryAgain(cfg, s))
  {
    ServeQuery(cfg, dev, [], s.fw);
  }

  lemma TryAgainOk(cfg: Cfg, s: State)
    requires StateOk(cfg, s) && (s.host.Asking? || s.host.Shifting?)
    ensures StateOk(cfg, TryAgain(cfg, s))
  {
  }

  lemma ShiftAgain(cfg: Cfg, dev: Device, s: State, s': State)
    requires StateOk(cfg, s) && |s.calls| > s.epoch && InShift(cfg, dev, s) && s.host.Shifting?
    requires s' == TryAgain(cfg, s) && StateOk(cfg, s')
    ensures InShift(cfg, dev, s')
  {
    var t, ran := Talking(cfg, dev, s);
    if s.host.left > 0 { Resend(t, ran, false, s.req, s.rep); }
    AttemptFails(cfg, dev, s, t, s'.req, s');
  }

  lemma TryAgainStep(cfg: Cfg, dev: Device, s: State)
    requires Inv(cfg, dev, s) && (s.host.Asking? || s.host.Shifting?)
    ensures Inv(cfg, dev, TryAgain(cfg, s))
  {
    TryAgainOk(cfg, s);
    if |s.calls| == s.epoch { AskAgain(cfg, dev, s); } else { ShiftAgain(cfg, dev, s, TryAgain(cfg, s)); }
  }

  /** Dropping the oldest reply. */
  lemma PopRep(once: bool, t: Talk, ran: bool, ready: bool, req: seq<Msg>, rep: seq<Msg>)
    requires rep != [] && Net(once, t, ran, ready, req, rep)
    ensures Net(once, t, ran, ready, req, rep[1..])
  {
  }

  lemma PopStep(cfg: Cfg, dev: Device, s: State)
    requires Inv(cfg, dev, s) && s.rep != [] && |s.calls| > s.epoch
    ensures Inv(cfg, dev, s.(rep := s.rep[1..]))
  {
    var t, ran := Talking(cfg, dev, s);
    PopRep(cfg.depth == 0, t, ran, s.host == Ready, s.req, s.rep);
    ChannelsChange(cfg, dev, s, t, s.req, s.rep[1..], s.(rep := s.rep[1..]));
  }

  /** What a waiting host makes of the oldest reply in flight. */
  lemma JudgeHead(cfg: Cfg, dev: Device, s: State)
    requires Inv(cfg, dev, s) && s.host.Shifting? && s.rep != []
    ensures var c := s.calls[|s.calls| - 1];
            match Judge(s.xid, s.rep[0][0])
            case Fail => false
            case Again => true
            case Accept => c.ran && s.rep[0] == ReplyOf(cfg, dev, s.calls, |s.calls| - 1) && AllAre(s.rep, s.rep[0])
  {
    var t := TalkOf(cfg, dev, s.calls, s.epoch, s.xid);
    ServeQuery(cfg, dev, [], s.fw);
  }

  lemma QueryReceives(cfg: Cfg, dev: Device, s: State)
    requires Inv(cfg, dev, s) && Enabled(cfg, s, HostReceives) && |s.calls| == s.epoch
    ensures Inv(cfg, dev, Receive(cfg, s))
  {
    ServeQuery(cfg, dev, [], s.fw);
    QueryFields(Zeros(Width(cfg)), cfg.bytes, cfg.depth, cfg.period);
  }

  /** Changing the last entry of the record, but not its message, leaves the messages in play as they are. */
  lemma AmendTalk(cfg: Cfg, dev: Device, calls: seq<Call>, c: Call, epoch: nat, xid: nat)
    requires CfgOk(cfg) && CallsOk(cfg, calls) && |calls| > epoch && c.m == calls[|calls| - 1].m
    ensures CallsOk(cfg, Amend(calls, c))
    ensures TalkOf(cfg, dev, Amend(calls, c), epoch, xid) == TalkOf(cfg, dev, calls, epoch, xid)
  {
    AmendKeeps(cfg, dev, calls, c);
  }

  /** A call that was executed and whose due reply is delivered. */
  lemma AmendGot(cfg: Cfg, dev: Device, calls: seq<Call>, hist: seq<Pin>, c: Call, r: Msg)
    requires CallsOk(cfg, calls) && ExactlyOnce(cfg, dev, calls, hist) && |calls| > 0 && calls[|calls| - 1].ran
    requires r == ReplyOf(cfg, dev, calls, |calls| - 1) && c == calls[|calls| - 1].(got := Some(r[1..]))
    ensures ExactlyOnce(cfg, dev, Amend(calls, c), hist)
  {
    AmendKeeps(cfg, dev, calls, c);
    assert r[1..] == Due(cfg, dev, calls, |calls| - 1);
  }

  lemma Accepted(cfg: Cfg, s: State) returns (c: Call, cs: seq<Call>)
    requires StateOk(cfg, s) && s.host.Shifting? && s.rep != [] && Judge(s.xid, s.rep[0][0]) == Accept
    ensures c == s.calls[|s.calls| - 1].(got := Some(s.rep[0][1..]))
    ensures cs == Amend(s.calls, c) && Receive(cfg, s) == s.(rep := s.rep[1..], host := Ready, calls := cs)
  {
    c := s.calls[|s.calls| - 1].(got := Some(s.rep[0][1..]));
    cs := Amend(s.calls, c);
  }

  lemma ShiftReturns(cfg: Cfg, dev: Device, s: State)
    requires Inv(cfg, dev, s) && s.host.Shifting? && s.rep != [] && |s.calls| > s.epoch
    requires Judge(s.xid, s.rep[0][0]) == Accept
    ensures Inv(cfg, dev, Receive(cfg, s))
  {
    JudgeHead(cfg, dev, s);
    var c, cs := Accepted(cfg, s);
    AmendGot(cfg, dev, s.calls, s.hist, c, s.rep[0]);
    ReturnedInShift(cfg, dev, s, c, Receive(cfg, s));
  }

  lemma ReturnedNet(once: bool, t: Talk, req: seq<Msg>, rep: seq<Msg>)
    requires NetExecuted(once, t, false, req, rep) && rep != [] && AllAre(rep, t.r)
    ensures NetExecuted(once, t, true, req, rep[1..])
  {
  }

  /** The record entry of a call that ran gets its result. */
  lemma AmendReturned(cfg: Cfg, dev: Device, calls: seq<Call>, c: Call) returns (cs: seq<Call>)
    requires CallsOk(cfg, calls) && |calls| > 0 && c.m == calls[|calls| - 1].m
    ensures cs == Amend(calls, c) && |cs| == |calls| && cs[|cs| - 1] == c && CallsOk(cfg, cs)
    ensures Due(cfg, dev, cs, |cs| - 1) == Due(cfg, dev, calls, |calls| - 1)
  {
    cs := Amend(calls, c);
    AmendKeeps(cfg, dev, calls, c);
  }

  lemma ReturnedInShift(cfg: Cfg, dev: Device, s: State, c: Call, u: State)
    requires StateOk(cfg, s) && s.host.Shifting? && s.rep != [] && |s.calls| > s.epoch && InShift(cfg, dev, s)
    requires s.calls[|s.calls| - 1].ran && c == s.calls[|s.calls| - 1].(got := Some(s.rep[0][1..]))
    requires s.rep[0] == ReplyOf(cfg, dev, s.calls, |s.calls| - 1) && AllAre(s.rep, s.rep[0])
    requires u == s.(rep := s.rep[1..], host := Ready, calls := Amend(s.calls, c))
    ensures StateOk(cfg, u) && InShift(cfg, dev, u)
  {
    var t, ran := Talking(cfg, dev, s);
    ReturnedNet(cfg.depth == 0, t, s.req, s.rep);
    AmendTalk(cfg, dev, s.calls, c, s.epoch, s.xid);
    var cs := AmendReturned(cfg, dev, s.calls, c);
  }

  lemma ShiftReceives(cfg: Cfg, dev: Device, s: State)
    requires Inv(cfg, dev, s) && Enabled(cfg, s, HostReceives) && |s.calls| > s.epoch
    ensures Inv(cfg, dev, Receive(cfg, s))
  {
    JudgeHead(cfg, dev, s);
    match Judge(s.xid, s.rep[0][0])
    case Accept => ShiftReturns(cfg, dev, s);
    case Again =>
      PopStep(cfg, dev, s);
      TryAgainStep(cfg, dev, s.(rep := s.rep[1..]));
  }

  // ---- the firmware ----

  lemma ServeOk(cfg: Cfg, dev: Device, s: State)
    requires StateOk(cfg, s) && s.req != []
    ensures StateOk(cfg, ServeHead(cfg, dev, s))
  {
  }

  lemma ServesQuery(cfg: Cfg, dev: Device, s: State)
    requires Inv(cfg, dev, s) && s.req != [] && |s.calls| == s.epoch
    ensures ServeHead(cfg, dev, s) ==
            s.(req := s.req[1..], rep := s.rep + [QueryReply(cfg)], fw := s.fw.(memValid := false))
  {
    assert s.req[0] == QueryMsg(cfg);
    ServeQuery(cfg, dev, s.hist, s.fw);
  }

  lemma QueryStep(cfg: Cfg, dev: Device, s: State)
    requires Inv(cfg, dev, s) && s.req != [] && |s.calls| == s.epoch
    ensures Inv(cfg, dev, ServeHead(cfg, dev, s))
  {
    ServesQuery(cfg, dev, s);
  }

  /** A message of before the latest call reaches the target: it is answered, and nothing else happens. */
  lemma ServesStale(cfg: Cfg, dev: Device, s: State)
    requires Inv(cfg, dev, s) && s.req != [] && |s.calls| > s.epoch
    requires !s.calls[|s.calls| - 1].ran && s.req[0] != s.calls[|s.calls| - 1].m
    ensures var t := TalkOf(cfg, dev, s.calls, s.epoch, s.xid);
            ServeHead(cfg, dev, s) == s.(req := s.req[1..], rep := s.rep + [t.pr])
  {
    var n := |s.calls| - 1;
    var t := TalkOf(cfg, dev, s.calls, s.epoch, s.xid);
    assert s.req[0] == t.p;
    if t.first {
      ServeQuery(cfg, dev, s.hist, s.fw);
    } else {
      assert cfg.depth > 0;
      ServeAgain(cfg, dev, s.hist, Xid(t.p[0]), t.p, Due(cfg, dev, s.calls, n - 1));
    }
  }

  /** The latest call reaches the target for the first time and is executed. */
  lemma ServesFirst(cfg: Cfg, dev: Device, s: State)
    requires Inv(cfg, dev, s) && s.req != [] && |s.calls| > s.epoch
    requires !s.calls[|s.calls| - 1].ran && s.req[0] == s.calls[|s.calls| - 1].m
    ensures var n := |s.calls| - 1;
            var c := s.calls[n];
            ServeHead(cfg, dev, s) ==
            s.(req := s.req[1..], rep := s.rep + [ReplyOf(cfg, dev, s.calls, n)],
               fw := Fw(s.xid, cfg.depth > 0, Due(cfg, dev, s.calls, n)),
               hist := s.hist + MsgBits(cfg, c.m), calls := Amend(s.calls, c.(ran := true)))
  {
    var n := |s.calls| - 1;
    HistBefore(cfg, dev, s.calls, s.hist);
    ServeFirst(cfg, dev, s.hist, s.fw, s.xid, s.calls[n].m);
  }

  lemma HistBefore(cfg: Cfg, dev: Device, calls: seq<Call>, hist: seq<Pin>)
    requires ExactlyOnce(cfg, dev, calls, hist) && |calls| > 0 && !calls[|calls| - 1].ran
    ensures hist == Shifts(cfg, calls[..|calls| - 1])
  {
  }

  /** The latest call reaches the target again. */
  lemma ServesAgain(cfg: Cfg, dev: Device, s: State)
    requires Inv(cfg, dev, s) && s.req != [] && |s.calls| > s.epoch && s.calls[|s.calls| - 1].ran
    ensures cfg.depth > 0
    ensures ServeHead(cfg, dev, s) == s.(req := s.req[1..], rep := s.rep + [ReplyOf(cfg, dev, s.calls, |s.calls| - 1)])
  {
    var n := |s.calls| - 1;
    ServeAgain(cfg, dev, s.hist, s.xid, s.calls[n].m, Due(cfg, dev, s.calls, n));
  }

  lemma NetServed(once: bool, t: Talk, ready: bool, req: seq<Msg>, rep: seq<Msg>)
    requires req != []
    ensures NetPending(once, t, req, rep) && req[0] != t.m && !t.clash ==> NetPending(once, t, req[1..], rep + [t.pr])
    ensures NetPending(once, t, req, rep) && req[0] != t.m ==> !t.clash
    ensures NetPending(once, t, req, rep) && req[0] == t.m && !ready ==>
              NetExecuted(once, t, ready, req[1..], rep + [t.r])
    ensures NetExecuted(once, t, ready, req, rep) ==> NetExecuted(once, t, ready, req[1..], rep + [t.r])
  {
    if |req| > 1 { assert req[0] == t.m ==> req[1] == t.m || !Ordered(req, t.p, t.m); }
  }

  lemma StaleStep(cfg: Cfg, dev: Device, s: State)
    requires Inv(cfg, dev, s) && s.req != [] && |s.calls| > s.epoch
    requires !s.calls[|s.calls| - 1].ran && s.req[0] != s.calls[|s.calls| - 1].m
    ensures Inv(cfg, dev, ServeHead(cfg, dev, s))
  {
    ServesStale(cfg, dev, s);
    var t, ran := Talking(cfg, dev, s);
    NetServed(cfg.depth == 0, t, false, s.req, s.rep);
    ChannelsChange(cfg, dev, s, t, s.req[1..], s.rep + [t.pr], ServeHead(cfg, dev, s));
  }

  lemma AmendRan(cfg: Cfg, dev: Device, calls: seq<Call>, hist: seq<Pin>)
    requires ExactlyOnce(cfg, dev, calls, hist) && |calls| > 0 && !calls[|calls| - 1].ran
    ensures var c := calls[|calls| - 1];
            ExactlyOnce(cfg, dev, Amend(calls, c.(ran := true)), hist + MsgBits(cfg, c.m))
  {
    HistBefore(cfg, dev, calls, hist);
    AmendKeeps(cfg, dev, calls, calls[|calls| - 1].(ran := true));
  }

  lemma FirstInShift(cfg: Cfg, dev: Device, s: State, u: State, c: Call)
    requires StateOk(cfg, s) && StateOk(cfg, u) && s.req != [] && |s.calls| > s.epoch && InShift(cfg, dev, s)
    requires var n := |s.calls| - 1;
             && !s.calls[n].ran && s.req[0] == s.calls[n].m && c == s.calls[n].(ran := true)
             && u == s.(req := s.req[1..], rep := s.rep + [ReplyOf(cfg, dev, s.calls, n)], hist := u.hist,
                        fw := Fw(s.xid, cfg.depth > 0, Due(cfg, dev, s.calls, n)), calls := Amend(s.calls, c))
    ensures InShift(cfg, dev, u)
  {
    AmendTalk(cfg, dev, s.calls, c, s.epoch, s.xid);
    AmendKeeps(cfg, dev, s.calls, c);
    NetServed(cfg.depth == 0, TalkOf(cfg, dev, s.calls, s.epoch, s.xid), false, s.req, s.rep);
  }

  lemma FirstStep(cfg: Cfg, dev: Device, s: State)
    requires Inv(cfg, dev, s) && s.req != [] && |s.calls| > s.epoch
    requires !s.calls[|s.calls| - 1].ran && s.req[0] == s.calls[|s.calls| - 1].m
    ensures Inv(cfg, dev, ServeHead(cfg, dev, s))
  {
    var n := |s.calls| - 1;
    var c := s.calls[n].(ran := true);
    ServesFirst(cfg, dev, s);
    ServeOk(cfg, dev, s);
    AmendRan(cfg, dev, s.calls, s.hist);
    FirstInShift(cfg, dev, s, ServeHead(cfg, dev, s), c);
  }

  lemma AgainStep(cfg: Cfg, dev: Device, s: State)
    requires Inv(cfg, dev, s) && s.req != [] && |s.calls| > s.epoch && s.calls[|s.calls| - 1].ran
    ensures Inv(cfg, dev, ServeHead(cfg, dev, s))
  {
    ServesAgain(cfg, dev, s);
    var t, ran := Talking(cfg, dev, s);
    NetServed(cfg.depth == 0, t, s.host == Ready, s.req, s.rep);
    ChannelsChange(cfg, dev, s, t, s.req[1..], s.rep + [t.r], ServeHead(cfg, dev, s));
  }

  // ---- every step, every run ----

  lemma HostStep(cfg: Cfg, dev: Device, s: State)
    requires Inv(cfg, dev, s) && Enabled(cfg, s, HostReceives)
    ensures Inv(cfg, dev, Receive(cfg, s))
  {
    if |s.calls| == s.epoch { QueryReceives(cfg, dev, s); } else { ShiftReceives(cfg, dev, s); }
  }

  lemma FirmwareStep(cfg: Cfg, dev: Device, s: State)
    requires Inv(cfg, dev, s) && s.req != []
    ensures Inv(cfg, dev, ServeHead(cfg, dev, s))
  {
    if |s.calls| == s.epoch { QueryStep(cfg, dev, s); }
    else if s.calls[|s.calls| - 1].ran { AgainStep(cfg, dev, s); }
    else if s.req[0] == s.calls[|s.calls| - 1].m { FirstStep(cfg, dev, s); }
    else { StaleStep(cfg, dev, s); }
  }

  lemma Step(cfg: Cfg, dev: Device, s: State, a: Action)
    requires Inv(cfg, dev, s) && Enabled(cfg, s, a) && Guarded(cfg, s, a)
    ensures Inv(cfg, dev, Do(cfg, dev, s, a))
  {
    match a
    case CallQuery => CallQueryStep(cfg, dev, s);
    case CallShift(m) => CallShiftStep(cfg, dev, s, m);
    case Timeout => TryAgainStep(cfg, dev, s);
    case HostReceives => HostStep(cfg, dev, s);
    case FirmwareReceives => FirmwareStep(cfg, dev, s);
    case _ => FaultStep(cfg, dev, s, a);
  }

  /** A run: every action is possible when it happens, and every shift call is made when it is safe. */
  predicate Possible(cfg: Cfg, dev: Device, s: State, acts: seq<Action>)
    decreases |acts|
  {
    acts == [] ||
    (StateOk(cfg, s) && Enabled(cfg, s, acts[0]) && Guarded(cfg, s, acts[0])
     && Possible(cfg, dev, Do(cfg, dev, s, acts[0]), acts[1..]))
  }

  function After(cfg: Cfg, dev: Device, s: State, acts: seq<Action>): State
    requires Possible(cfg, dev, s, acts)
    decreases |acts|
  {
    if acts == [] then s else After(cfg, dev, Do(cfg, dev, s, acts[0]), acts[1..])
  }

  lemma {:induction false} RunKeepsInv(cfg: Cfg, dev: Device, s: State, acts: seq<Action>)
    requires Inv(cfg, dev, s) && Possible(cfg, dev, s, acts)
    ensures Inv(cfg, dev, After(cfg, dev, s, acts))
    decreases |acts|
  {
    if acts != [] {
      Step(cfg, dev, s, acts[0]);
      RunKeepsInv(cfg, dev, Do(cfg, dev, s, acts[0]), acts[1..]);
    }
  }

  /**
   Whatever the channels do, calls are executed at most once and in order, and those that return deliver their TDO.
   */
  lemma ExactlyOnceAlways(cfg: Cfg, dev: Device, s: State, acts: seq<Action>)
    requires CfgOk(cfg) && Start(s) && Possible(cfg, dev, s, acts)
    ensures var z := After(cfg, dev, s, acts);
            ExactlyOnce(cfg, dev, z.calls, z.hist)
  {
    StartInv(cfg, dev, s);
    RunKeepsInv(cfg, dev, s, acts);
  }

  // ---- the condition on shift calls is exact ----

  /** No further call is made. */
  predicate Quiet(acts: seq<Action>) {
    forall k :: 0 <= k < |acts| ==> !acts[k].CallShift? && !acts[k].CallQuery?
  }

  /** However the channels behave from `s` on, up to the next call, all stays well. */
  ghost predicate StaysGood(cfg: Cfg, dev: Device, s: State) {
    forall acts :: Quiet(acts) && Possible(cfg, dev, s, acts) ==>
      ExactlyOnce(cfg, dev, After(cfg, dev, s, acts).calls, After(cfg, dev, s, acts).hist)
  }

  /** A stale query reply is taken for the reply of a shift that the target has not even seen. */
  lemma StaleQueryAccepted(cfg: Cfg, dev: Device, s: State)
    requires StateOk(cfg, s) && s.host.Shifting? && !s.calls[|s.calls| - 1].ran
    requires s.rep != [] && s.rep[0] == QueryReply(cfg) && cfg.period == s.xid
    ensures !ExactlyOnce(cfg, dev, Receive(cfg, s).calls, Receive(cfg, s).hist)
  {
    ServeQuery(cfg, dev, [], s.fw);
    var n := |s.calls| - 1;
    assert Receive(cfg, s).calls[n] == s.calls[n].(got := Some(s.rep[0][1..]));
  }

  lemma RunOne(cfg: Cfg, dev: Device, s: State, a: Action)
    requires StateOk(cfg, s) && Enabled(cfg, s, a) && Guarded(cfg, s, a)
    ensures Possible(cfg, dev, s, [a]) && After(cfg, dev, s, [a]) == Do(cfg, dev, s, a)
  {
    assert [a][1..] == [];
  }

  lemma RunFirst(cfg: Cfg, dev: Device, s: State, a: Action, rest: seq<Action>, u: State)
    requires StateOk(cfg, s) && Enabled(cfg, s, a) && Guarded(cfg, s, a) && u == Do(cfg, dev, s, a)
    requires Possible(cfg, dev, u, rest)
    ensures Possible(cfg, dev, s, [a] + rest) && After(cfg, dev, s, [a] + rest) == After(cfg, dev, u, rest)
  {
    assert ([a] + rest)[1..] == rest;
  }

  lemma RunTwo(cfg: Cfg, dev: Device, s: State, a: Action, b: Action)
    requires StateOk(cfg, s) && Enabled(cfg, s, a) && Guarded(cfg, s, a)
    requires var t := Do(cfg, dev, s, a); StateOk(cfg, t) && Enabled(cfg, t, b) && Guarded(cfg, t, b)
    ensures Possible(cfg, dev, s, [a, b]) && After(cfg, dev, s, [a, b]) == Do(cfg, dev, Do(cfg, dev, s, a), b)
  {
    RunOne(cfg, dev, Do(cfg, dev, s, a), b);
    assert [a, b][1..] == [b];
  }

  lemma FailsInOne(cfg: Cfg, dev: Device, s: State, a: Action)
    requires StateOk(cfg, s) && Enabled(cfg, s, a) && !a.CallShift? && !a.CallQuery?
    requires var t := Do(cfg, dev, s, a); !ExactlyOnce(cfg, dev, t.calls, t.hist)
    ensures !StaysGood(cfg, dev, s)
  {
    RunOne(cfg, dev, s, a);
    assert Quiet([a]);
  }

  lemma FailsInTwo(cfg: Cfg, dev: Device, s: State, a: Action, b: Action)
    requires StateOk(cfg, s) && Enabled(cfg, s, a) && !a.CallShift? && !a.CallQuery?
    requires var t := Do(cfg, dev, s, a); StateOk(cfg, t) && Enabled(cfg, t, b) && !b.CallShift? && !b.CallQuery?
    requires var u := Do(cfg, dev, Do(cfg, dev, s, a), b); !ExactlyOnce(cfg, dev, u.calls, u.hist)
    ensures !StaysGood(cfg, dev, s)
  {
    RunTwo(cfg, dev, s, a, b);
    assert Quiet([a, b]);
  }

  /** A query message that was overtaken by a shift call is still answered. */
  lemma LateQuery(cfg: Cfg, dev: Device, s: State)
    requires StateOk(cfg, s) && s.req != [] && s.req[0] == QueryMsg(cfg)
    ensures ServeHead(cfg, dev, s) ==
            s.(req := s.req[1..], rep := s.rep + [QueryReply(cfg)], fw := s.fw.(memValid := false))
    ensures StateOk(cfg, ServeHead(cfg, dev, s))
  {
    ServeQuery(cfg, dev, s.hist, s.fw);
  }

  lemma UnsafeCallFails(cfg: Cfg, dev: Device, s: State, m: Msg)
    requires Inv(cfg, dev, s) && Enabled(cfg, s, CallShift(m)) && !SafeCall(cfg, s)
    ensures StateOk(cfg, Do(cfg, dev, s, CallShift(m)))
    ensures !StaysGood(cfg, dev, Do(cfg, dev, s, CallShift(m)))
  {
    CallShiftLog(cfg, dev, s, m);
    var t := Do(cfg, dev, s, CallShift(m));
    if s.rep != [] {
      StaleQueryAccepted(cfg, dev, t);
      FailsInOne(cfg, dev, t, HostReceives);
    } else {
      LateQuery(cfg, dev, t);
      StaleQueryAccepted(cfg, dev, ServeHead(cfg, dev, t));
      FailsInTwo(cfg, dev, t, FirmwareReceives, HostReceives);
    }
  }

  /** In a reachable state, a shift call goes well on all accounts if and only if it is safe. */
  lemma SafeCallIff(cfg: Cfg, dev: Device, s: State, m: Msg)
    requires Inv(cfg, dev, s) && Enabled(cfg, s, CallShift(m))
    ensures SafeCall(cfg, s) <==> StaysGood(cfg, dev, Do(cfg, dev, s, CallShift(m)))
  {
    if SafeCall(cfg, s) {
      CallShiftStep(cfg, dev, s, m);
      InvStaysGood(cfg, dev, Do(cfg, dev, s, CallShift(m)));
    } else {
      UnsafeCallFails(cfg, dev, s, m);
    }
  }

  lemma InvStaysGood(cfg: Cfg, dev: Device, s: State)
    requires Inv(cfg, dev, s)
    ensures StaysGood(cfg, dev, s)
  {
    forall acts | Quiet(acts) && Possible(cfg, dev, s, acts)
      ensures ExactlyOnce(cfg, dev, After(cfg, dev, s, acts).calls, After(cfg, dev, s, acts).hist)
    {
      RunKeepsInv(cfg, dev, s, acts);
    }
  }

  // ---- the condition on repeated requests is exact ----

  lemma RunsWithoutMemory(cfg: Cfg, dev: Device, s: State, xid: nat, m: Msg)
    requires StateOk(cfg, s) && cfg.depth == 0 && s.req != [] && s.req[0] == m && ShiftMsg(cfg, xid, m) && |s.calls| > 0
    ensures var u := ServeHead(cfg, dev, s);
            && u.req == s.req[1..] && u.hist == s.hist + MsgBits(cfg, m)
            && u.calls == Amend(s.calls, s.calls[|s.calls| - 1].(ran := true))
            && StateOk(cfg, u)
  {
    ServeOk(cfg, dev, s);
    ServeFirst(cfg, dev, s.hist, s.fw, xid, m);
  }

  /** The latest call is not executed yet, and its message is on its way twice in a row. */
  predicate Doubled(cfg: Cfg, dev: Device, s: State, xid: nat, m: Msg, i: nat) {
    && StateOk(cfg, s) && cfg.depth == 0 && i + 1 < |s.req| && s.req[i] == m == s.req[i + 1] && ShiftMsg(cfg, xid, m)
    && ExactlyOnce(cfg, dev, s.calls, s.hist) && |s.calls| > 0 && s.calls[|s.calls| - 1] == Call(m, false, None)
  }

  lemma ExecutesTwice(cfg: Cfg, dev: Device, s: State, xid: nat, m: Msg)
    requires Doubled(cfg, dev, s, xid, m, 0)
    ensures var u := ServeHead(cfg, dev, s);
            && StateOk(cfg, u) && u.req != []
            && var v := ServeHead(cfg, dev, u);
               !ExactlyOnce(cfg, dev, v.calls, v.hist)
  {
    var n := |s.calls| - 1;
    RunsWithoutMemory(cfg, dev, s, xid, m);
    var u := ServeHead(cfg, dev, s);
    RunsWithoutMemory(cfg, dev, u, xid, m);
    AmendRan(cfg, dev, s.calls, s.hist);
    assert Amend(u.calls, u.calls[n].(ran := true)) == u.calls;
    assert |MsgBits(cfg, m)| > 0;
  }

  /** The target gets the message twice once the messages before it are out of the way. */
  lemma {:induction false} DoubledFails(cfg: Cfg, dev: Device, s: State, xid: nat, m: Msg, i: nat)
    returns (acts: seq<Action>)
    requires Doubled(cfg, dev, s, xid, m, i)
    ensures Quiet(acts) && Possible(cfg, dev, s, acts)
    ensures !ExactlyOnce(cfg, dev, After(cfg, dev, s, acts).calls, After(cfg, dev, s, acts).hist)
    decreases i
  {
    if i == 0 {
      acts := [FirmwareReceives, FirmwareReceives];
      ExecutesTwice(cfg, dev, s, xid, m);
      RunTwo(cfg, dev, s, FirmwareReceives, FirmwareReceives);
    } else {
      var u := FirstLost(cfg, dev, s, xid, m, i);
      var rest := DoubledFails(cfg, dev, u, xid, m, i - 1);
      acts := [LoseReq(0)] + rest;
      RunFirst(cfg, dev, s, LoseReq(0), rest, u);
    }
  }

  lemma FirstLost(cfg: Cfg, dev: Device, s: State, xid: nat, m: Msg, i: nat) returns (u: State)
    requires Doubled(cfg, dev, s, xid, m, i) && i > 0
    ensures u == Do(cfg, dev, s, LoseReq(0)) && Doubled(cfg, dev, u, xid, m, i - 1)
  {
    u := s.(req := Lose(s.req, 0));
    ReqsStayOk(cfg, s.req, 0);
    assert u.req == s.req[1..];
  }

  lemma ShiftOnItsWay(cfg: Cfg, dev: Device, s: State, i: nat)
    requires Inv(cfg, dev, s) && cfg.depth == 0 && i < |s.req| && s.req[i] != QueryMsg(cfg)
    ensures |s.calls| > 0 && s.calls[|s.calls| - 1] == Call(s.req[i], false, None) && ShiftMsg(cfg, s.xid, s.req[i])
  {
    if |s.calls| > s.epoch { var t, ran := Talking(cfg, dev, s); }
  }

  lemma RepeatedShiftFails(cfg: Cfg, dev: Device, s: State, i: nat, u: State)
    requires Inv(cfg, dev, s) && cfg.depth == 0 && i < |s.req| && s.req[i] != QueryMsg(cfg)
    requires u == s.(req := Repeat(s.req, i))
    ensures !StaysGood(cfg, dev, u)
  {
    ShiftOnItsWay(cfg, dev, s, i);
    ReqsStayOk(cfg, s.req, i);
    var acts := DoubledFails(cfg, dev, u, s.xid, s.req[i], i);
  }

  /** In a reachable state, repeating a message on its way to the target does no harm if and only if it is enabled. */
  lemma RepeatIff(cfg: Cfg, dev: Device, s: State, i: nat)
    requires Inv(cfg, dev, s) && i < |s.req|
    ensures (cfg.depth == 0 ==> s.req[i] == QueryMsg(cfg)) <==> StaysGood(cfg, dev, s.(req := Repeat(s.req, i)))
  {
    if cfg.depth == 0 && s.req[i] != QueryMsg(cfg) {
      RepeatedShiftFails(cfg, dev, s, i, s.(req := Repeat(s.req, i)));
    } else {
      FaultStep(cfg, dev, s, RepeatReq(i));
      InvStaysGood(cfg, dev, s.(req := Repeat(s.req, i)));
    }
  }
}
