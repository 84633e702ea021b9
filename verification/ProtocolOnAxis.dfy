// The retry protocol runs on the clocked design: what its firmware does to the requests it receives is what the
// design does clock by clock (module AxisRun), so its guarantees hold of the pins and streams of the design.

module ProtocolOnAxis {
  import opened Bits
  import opened Jtag
  import opened Firmware
  import opened Options
  import A = AxisRun
  import T = AxisToJtag
  import opened Protocol
  import opened ProtocolProof

  function Taken(s: State, a: Action): seq<Msg>
    requires a.FirmwareReceives? ==> s.req != []
  {
    if a.FirmwareReceives? then [s.req[0]] else []
  }

  /** The requests that reach the target during a run, in order. */
  function Received(cfg: Cfg, dev: Device, s: State, acts: seq<Action>): seq<Msg>
    requires Possible(cfg, dev, s, acts)
    decreases |acts|
  {
    if acts == [] then []
    else
      Taken(s, acts[0]) + Received(cfg, dev, Do(cfg, dev, s, acts[0]), acts[1..])
  }

  lemma ShiftAdmissible(cfg: Cfg, fw: Fw, xid: nat, m: Msg)
    requires ShiftMsg(cfg, xid, m)
    ensures Admissible(cfg, fw, m)
  {
  }

  lemma QueryAdmissible(cfg: Cfg, dev: Device, fw: Fw)
    requires CfgOk(cfg)
    ensures RequestOk(cfg, QueryMsg(cfg)) && Admissible(cfg, fw, QueryMsg(cfg))
  {
    ServeQuery(cfg, dev, [], fw);
  }

  /** All that is on its way to the target is fit for the design. */
  lemma HeadAdmissible(cfg: Cfg, dev: Device, s: State)
    requires Inv(cfg, dev, s) && s.req != []
    ensures Admissible(cfg, s.fw, s.req[0])
  {
    if s.req[0] == QueryMsg(cfg) {
      QueryAdmissible(cfg, dev, s.fw);
    } else if |s.calls| > s.epoch {
      var t := TalkOf(cfg, dev, s.calls, s.epoch, s.xid);
      if s.req[0] == t.m {
        ShiftAdmissible(cfg, s.fw, s.xid, t.m);
      } else {
        ShiftAdmissible(cfg, s.fw, Header.Xid(t.p[0]), t.p);
      }
    }
  }

  /** The clocked design has served `reqs` and is in the state the protocol's firmware is in. */
  predicate InStep(cfg: Cfg, dev: Device, reqs: seq<Msg>, s: State) {
    && A.Ready(cfg, dev, reqs)
    && A.ServeAll(cfg, dev, reqs).fw == s.fw && A.ServeAll(cfg, dev, reqs).hist == s.hist
  }

  lemma ReadySnoc(cfg: Cfg, dev: Device, reqs: seq<Msg>, m: Msg)
    requires A.Ready(cfg, dev, reqs) && RequestOk(cfg, m) && Admissible(cfg, A.ServeAll(cfg, dev, reqs).fw, m)
    ensures A.Ready(cfg, dev, reqs + [m])
    ensures var z := A.ServeAll(cfg, dev, reqs);
            var a := Serve(cfg, dev, z.hist, z.fw, m);
            A.ServeAll(cfg, dev, reqs + [m]).fw == a.fw && A.ServeAll(cfg, dev, reqs + [m]).hist == a.hist
  {
    var all := reqs + [m];
    assert all[..|reqs|] == reqs;
    forall n | 0 <= n < |all|
      ensures A.AdmissibleAt(cfg, dev, all, n)
    {
      if n < |reqs| {
        assert A.AdmissibleAt(cfg, dev, reqs, n);
        assert all[..n] == reqs[..n];
      }
    }
  }

  lemma OneMore(cfg: Cfg, dev: Device, reqs: seq<Msg>, s: State)
    requires Inv(cfg, dev, s) && InStep(cfg, dev, reqs, s) && s.req != []
    ensures InStep(cfg, dev, reqs + [s.req[0]], ServeHead(cfg, dev, s))
  {
    HeadAdmissible(cfg, dev, s);
    ReadySnoc(cfg, dev, reqs, s.req[0]);
  }

  lemma Untouched(cfg: Cfg, dev: Device, s: State, a: Action)
    requires StateOk(cfg, s) && Enabled(cfg, s, a) && !a.FirmwareReceives?
    ensures Do(cfg, dev, s, a).fw == s.fw && Do(cfg, dev, s, a).hist == s.hist
  {
  }

  lemma OneAction(cfg: Cfg, dev: Device, reqs: seq<Msg>, s: State, a: Action)
    requires Inv(cfg, dev, s) && InStep(cfg, dev, reqs, s) && Enabled(cfg, s, a)
    ensures InStep(cfg, dev, reqs + Taken(s, a), Do(cfg, dev, s, a))
  {
    if a.FirmwareReceives? {
      OneMore(cfg, dev, reqs, s);
    } else {
      Untouched(cfg, dev, s, a);
      assert reqs + [] == reqs;
    }
  }

  lemma Regroup(a: seq<Msg>, b: seq<Msg>, c: seq<Msg>)
    ensures (a + b) + c == a + (b + c)
  {
  }

  // ---- the replies ----

  /** The reply to request `n` of those served. */
  function ReplyTo(cfg: Cfg, dev: Device, reqs: seq<Msg>, n: nat): Msg
    requires A.RequestsOk(cfg, reqs) && n < |reqs|
  {
    var z := A.ServeAll(cfg, dev, reqs[..n]);
    Serve(cfg, dev, z.hist, z.fw, reqs[n]).reply
  }

  ghost predicate Replied(cfg: Cfg, dev: Device, reqs: seq<Msg>, r: Msg)
    requires A.RequestsOk(cfg, reqs)
  {
    exists n: nat :: n < |reqs| && ReplyTo(cfg, dev, reqs, n) == r
  }

  /** The payload `ws` is that of a reply. */
  ghost predicate Handed(cfg: Cfg, dev: Device, reqs: seq<Msg>, ws: seq<Vec>)
    requires A.RequestsOk(cfg, reqs)
  {
    exists n: nat :: n < |reqs| && IsPayload(ReplyTo(cfg, dev, reqs, n), ws)
  }

  predicate IsPayload(r: Msg, ws: seq<Vec>) { r != [] && r[1..] == ws }

  /** All replies under way, and all that calls returned, are replies to the requests served. */
  ghost predicate Supplied(cfg: Cfg, dev: Device, reqs: seq<Msg>, s: State)
    requires A.RequestsOk(cfg, reqs)
  {
    && (forall i :: 0 <= i < |s.rep| ==> Replied(cfg, dev, reqs, s.rep[i]))
    && forall j :: 0 <= j < |s.calls| && s.calls[j].got.Some? ==> Handed(cfg, dev, reqs, s.calls[j].got.value)
  }

  lemma SameReply(cfg: Cfg, dev: Device, reqs: seq<Msg>, m: Msg, n: nat)
    requires A.RequestsOk(cfg, reqs) && RequestOk(cfg, m) && n < |reqs|
    ensures ReplyTo(cfg, dev, reqs + [m], n) == ReplyTo(cfg, dev, reqs, n)
  {
    assert (reqs + [m])[..n] == reqs[..n];
  }

  /** One more request takes nothing away. */
  lemma SupplyGrows(cfg: Cfg, dev: Device, reqs: seq<Msg>, m: Msg, s: State)
    requires A.RequestsOk(cfg, reqs) && RequestOk(cfg, m) && Supplied(cfg, dev, reqs, s)
    ensures Supplied(cfg, dev, reqs + [m], s)
  {
    forall i | 0 <= i < |s.rep|
      ensures Replied(cfg, dev, reqs + [m], s.rep[i])
    {
      var n: nat :| n < |reqs| && ReplyTo(cfg, dev, reqs, n) == s.rep[i];
      SameReply(cfg, dev, reqs, m, n);
    }
    forall j | 0 <= j < |s.calls| && s.calls[j].got.Some?
      ensures Handed(cfg, dev, reqs + [m], s.calls[j].got.value)
    {
      var n: nat :| n < |reqs| && IsPayload(ReplyTo(cfg, dev, reqs, n), s.calls[j].got.value);
      SameReply(cfg, dev, reqs, m, n);
    }
  }

  /** Serving the next request adds its reply. */
  lemma SupplyServes(cfg: Cfg, dev: Device, reqs: seq<Msg>, s: State)
    requires Inv(cfg, dev, s) && InStep(cfg, dev, reqs, s) && Supplied(cfg, dev, reqs, s) && s.req != []
    ensures Supplied(cfg, dev, reqs + [s.req[0]], ServeHead(cfg, dev, s))
  {
    var m := s.req[0];
    SupplyGrows(cfg, dev, reqs, m, s);
    var r := NewReply(cfg, dev, reqs, s);
    SupplyGets(cfg, dev, reqs + [m], s, ServeHead(cfg, dev, s), r);
  }

  lemma NewReply(cfg: Cfg, dev: Device, reqs: seq<Msg>, s: State) returns (r: Msg)
    requires StateOk(cfg, s) && s.req != [] && InStep(cfg, dev, reqs, s)
    ensures Replied(cfg, dev, reqs + [s.req[0]], r)
    ensures var s' := ServeHead(cfg, dev, s);
            s'.rep == s.rep + [r] && |s'.calls| == |s.calls| && SameResults(s.calls, s'.calls)
  {
    var m := s.req[0];
    assert (reqs + [m])[..|reqs|] == reqs;
    r := ReplyTo(cfg, dev, reqs + [m], |reqs|);
  }

  predicate SameResults(calls: seq<Call>, calls': seq<Call>)
    requires |calls| == |calls'|
  {
    forall j :: 0 <= j < |calls| ==> calls'[j].got == calls[j].got
  }

  lemma SupplyGets(cfg: Cfg, dev: Device, reqs: seq<Msg>, s: State, s': State, r: Msg)
    requires A.RequestsOk(cfg, reqs) && Supplied(cfg, dev, reqs, s) && Replied(cfg, dev, reqs, r)
    requires s'.rep == s.rep + [r] && |s'.calls| == |s.calls| && SameResults(s.calls, s'.calls)
    ensures Supplied(cfg, dev, reqs, s')
  {
  }

  /** A reply that the host takes is one of those under way. */
  lemma SupplyTaken(cfg: Cfg, dev: Device, reqs: seq<Msg>, s: State)
    requires StateOk(cfg, s) && Enabled(cfg, s, HostReceives)
    requires A.RequestsOk(cfg, reqs) && Supplied(cfg, dev, reqs, s)
    ensures Supplied(cfg, dev, reqs, Receive(cfg, s))
  {
    var r := s.rep[0];
    var n: nat :| n < |reqs| && ReplyTo(cfg, dev, reqs, n) == r;
    assert IsPayload(ReplyTo(cfg, dev, reqs, n), r[1..]);
    OneTaken(cfg, s, Receive(cfg, s));
    SupplyPasses(cfg, dev, reqs, s, Receive(cfg, s), r);
  }

  /** `s'` has lost the reply `r`, which may have become a result. */
  predicate Took(s: State, s': State, r: Msg) {
    && r != [] && s.rep == [r] + s'.rep && |s'.calls| == |s.calls|
    && forall j :: 0 <= j < |s.calls| ==> s'.calls[j].got == s.calls[j].got || s'.calls[j].got == Some(r[1..])
  }

  lemma OneTaken(cfg: Cfg, s: State, s': State)
    requires StateOk(cfg, s) && Enabled(cfg, s, HostReceives) && s' == Receive(cfg, s)
    ensures Took(s, s', s.rep[0])
  {
  }

  lemma SupplyPasses(cfg: Cfg, dev: Device, reqs: seq<Msg>, s: State, s': State, r: Msg)
    requires A.RequestsOk(cfg, reqs) && Supplied(cfg, dev, reqs, s) && Took(s, s', r) && Handed(cfg, dev, reqs, r[1..])
    ensures Supplied(cfg, dev, reqs, s')
  {
    assert forall i :: 0 <= i < |s'.rep| ==> s'.rep[i] == s.rep[i + 1];
  }

  lemma StaysSupplied(cfg: Cfg, dev: Device, reqs: seq<Msg>, s: State, a: Action)
    requires Inv(cfg, dev, s) && InStep(cfg, dev, reqs, s) && Supplied(cfg, dev, reqs, s) && Enabled(cfg, s, a)
    requires A.RequestsOk(cfg, reqs + Taken(s, a))
    ensures Supplied(cfg, dev, reqs + Taken(s, a), Do(cfg, dev, s, a))
  {
    if a.FirmwareReceives? {
      SupplyServes(cfg, dev, reqs, s);
    } else {
      assert reqs + [] == reqs;
      if a.HostReceives? {
        SupplyTaken(cfg, dev, reqs, s);
      } else {
        SupplyKept(cfg, dev, reqs, s, a, Do(cfg, dev, s, a));
      }
    }
  }

  /** The other actions bring no reply. */
  lemma SupplyKept(cfg: Cfg, dev: Device, reqs: seq<Msg>, s: State, a: Action, s': State)
    requires StateOk(cfg, s) && Enabled(cfg, s, a) && !a.FirmwareReceives? && !a.HostReceives?
    requires s' == Do(cfg, dev, s, a) && A.RequestsOk(cfg, reqs) && Supplied(cfg, dev, reqs, s)
    ensures Supplied(cfg, dev, reqs, s')
  {
    forall i | 0 <= i < |s'.rep|
      ensures Replied(cfg, dev, reqs, s'.rep[i])
    {
      var j := OldReply(cfg, dev, s, a, i);
    }
    forall j | 0 <= j < |s'.calls| && s'.calls[j].got.Some?
      ensures Handed(cfg, dev, reqs, s'.calls[j].got.value)
    {
      OldResult(cfg, dev, s, a, j);
    }
  }

  lemma OldReply(cfg: Cfg, dev: Device, s: State, a: Action, i: nat) returns (j: nat)
    requires StateOk(cfg, s) && Enabled(cfg, s, a) && !a.FirmwareReceives? && !a.HostReceives?
    requires i < |Do(cfg, dev, s, a).rep|
    ensures j < |s.rep| && Do(cfg, dev, s, a).rep[i] == s.rep[j]
  {
    j := if a.LoseRep? && i >= a.i then i + 1 else if a.RepeatRep? && i > a.i then i - 1 else i;
  }

  lemma OldResult(cfg: Cfg, dev: Device, s: State, a: Action, j: nat)
    requires StateOk(cfg, s) && Enabled(cfg, s, a) && !a.FirmwareReceives? && !a.HostReceives?
    requires j < |Do(cfg, dev, s, a).calls| && Do(cfg, dev, s, a).calls[j].got.Some?
    ensures j < |s.calls| && Do(cfg, dev, s, a).calls[j].got == s.calls[j].got
  {
  }

  lemma {:induction false} StaysInStep(cfg: Cfg, dev: Device, reqs: seq<Msg>, s: State, acts: seq<Action>)
    requires Inv(cfg, dev, s) && InStep(cfg, dev, reqs, s) && Supplied(cfg, dev, reqs, s)
    requires Possible(cfg, dev, s, acts)
    ensures InStep(cfg, dev, reqs + Received(cfg, dev, s, acts), After(cfg, dev, s, acts))
    ensures Supplied(cfg, dev, reqs + Received(cfg, dev, s, acts), After(cfg, dev, s, acts))
    decreases |acts|
  {
    if acts == [] {
      assert reqs + [] == reqs;
    } else {
      var a := acts[0];
      var s' := Do(cfg, dev, s, a);
      Step(cfg, dev, s, a);
      OneAction(cfg, dev, reqs, s, a);
      StaysSupplied(cfg, dev, reqs, s, a);
      StaysInStep(cfg, dev, reqs + Taken(s, a), s', acts[1..]);
      Regroup(reqs, Taken(s, a), Received(cfg, dev, s', acts[1..]));
    }
  }

  // ---- main results ----

  /** Every run of the protocol hands the target requests on which the clocked design is proved. */
  lemma ReceivedReady(cfg: Cfg, dev: Device, s: State, acts: seq<Action>)
    requires CfgOk(cfg) && Start(s) && Possible(cfg, dev, s, acts)
    ensures var reqs := Received(cfg, dev, s, acts);
            && InStep(cfg, dev, reqs, After(cfg, dev, s, acts))
            && Supplied(cfg, dev, reqs, After(cfg, dev, s, acts))
  {
    StartInv(cfg, dev, s);
    StaysInStep(cfg, dev, [], s, acts);
    assert [] + Received(cfg, dev, s, acts) == Received(cfg, dev, s, acts);
  }

  /** Somewhere in the stream `out` is a whole frame whose words behind the header are `ws`. */
  ghost predicate FrameIn(out: seq<T.Axis>, ws: seq<Vec>) {
    exists i: nat, hdr: Vec :: FrameAt(out, i, [hdr] + ws)
  }

  predicate FrameAt(out: seq<T.Axis>, i: nat, msg: Msg) {
    i + |msg| <= |out| && out[i..i + |msg|] == A.Framed(msg)
  }

  lemma HandedIsSent(cfg: Cfg, dev: Device, reqs: seq<Msg>, ws: seq<Vec>)
    requires A.RequestsOk(cfg, reqs) && Handed(cfg, dev, reqs, ws)
    ensures FrameIn(A.ServeAll(cfg, dev, reqs).out, ws)
  {
    var n: nat :| n < |reqs| && IsPayload(ReplyTo(cfg, dev, reqs, n), ws);
    var r := ReplyTo(cfg, dev, reqs, n);
    var out, before := ReplyPlace(cfg, dev, reqs, n, r);
    assert r == [r[0]] + ws;
    FrameBehind(out, before, [r[0]] + ws);
  }

  /** The frame of a reply stands behind the replies before it. */
  lemma ReplyPlace(cfg: Cfg, dev: Device, reqs: seq<Msg>, n: nat, r: Msg)
    returns (out: seq<T.Axis>, before: seq<T.Axis>)
    requires A.RequestsOk(cfg, reqs) && n < |reqs| && r == ReplyTo(cfg, dev, reqs, n)
    ensures out == A.ServeAll(cfg, dev, reqs).out && before + A.Framed(r) <= out
  {
    out, before := A.ServeAll(cfg, dev, reqs).out, A.ServeAll(cfg, dev, reqs[..n]).out;
    A.ServeNext(cfg, dev, reqs, n);
    A.OutGrows(cfg, dev, reqs, n + 1);
  }

  lemma FrameBehind(out: seq<T.Axis>, before: seq<T.Axis>, msg: Msg)
    requires before + A.Framed(msg) <= out
    ensures FrameAt(out, |before|, msg)
  {
    assert out[|before|..|before| + |msg|] == (before + A.Framed(msg))[|before|..] == A.Framed(msg);
  }

  /**
   The protocol on the clocked design: take any run of the protocol, and any run of the design on the requests that
   reach the target in it. When the design is idle and has consumed them all, its JTAG pins have seen each executed
   call exactly once and in order, and what each call returned left the design as one frame of its reply stream.
   */
  lemma ProtocolMeetsDesign(cfg: Cfg, dev: Device, s: State, acts: seq<Action>,
                            reqs: seq<Msg>, zs: seq<A.Sim>, ins: seq<T.In>, k: nat)
    requires CfgOk(cfg) && Start(s) && Possible(cfg, dev, s, acts) && reqs == Received(cfg, dev, s, acts)
    requires A.IsRun(cfg, dev, reqs, zs, ins) && k < |zs| && zs[k].t.r.state == T.Idle && zs[k].n == |reqs|
    ensures var z := After(cfg, dev, s, acts);
            && ExactlyOnce(cfg, dev, z.calls, zs[k].h.edges)
            && forall j :: 0 <= j < |z.calls| && z.calls[j].got.Some? ==> FrameIn(A.Sent(zs[k]), z.calls[j].got.value)
  {
    var z := After(cfg, dev, s, acts);
    ReceivedReady(cfg, dev, s, acts);
    ExactlyOnceAlways(cfg, dev, s, acts);
    assert reqs[..|reqs|] == reqs;
    A.IdleMeansServed(cfg, dev, reqs, zs, ins, k);
    forall j | 0 <= j < |z.calls| && z.calls[j].got.Some?
      ensures FrameIn(A.Sent(zs[k]), z.calls[j].got.value)
    {
      HandedIsSent(cfg, dev, reqs, z.calls[j].got.value);
    }
  }
}
