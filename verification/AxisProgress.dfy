// The whole design does not get stuck: enough clocks in which words move on both streams serve any list of requests.

module AxisProgress {
  import opened Arith
  import opened Bits
  import opened Jtag
  import S = SerDes
  import C = Core
  import P = CoreProof
  import opened Firmware
  import opened AxisToJtag
  import opened AxisProof
  import opened AxisRun
  import opened Progress

  // ---- one request ----

  /** What the core adds to the rank when it starts on a request of `n` words. */
  function CoreCost(cfg: Cfg, req: seq<Vec>): (n: nat)
    requires RequestOk(cfg, req)
    ensures n > |req|
  {
    var w := Width(cfg);
    MulMono(C.Pairs(w, FrameOf(req)), 0, PairWeight(w, cfg.d));
    |req| + C.Pairs(w, FrameOf(req)) * PairWeight(w, cfg.d) + w + 6
  }

  function CoreShare(cfg: Cfg, t: Top, h: S.Hist, g: Work): int
    requires TopWf(cfg, t) && WorkOk(cfg, g)
  {
    var w, f := Width(cfg), FrameOf(g.req);
    if g.cp.pos == 0 then CoreCost(cfg, g.req) + (if t.c.sReady then 0 else 1)
    else if C.FrameOk(w, f) && C.Taken(g.wb, h) <= C.Pairs(w, f) then CoreRank(w, cfg.d, f, g.wb, t.c, t.s, h, g.cp)
    else 0
  }

  /** What is left to do for the request in progress. */
  function WorkRank(cfg: Cfg, t: Top, h: S.Hist, g: Work): int
    requires TopWf(cfg, t) && WorkOk(cfg, g)
  {
    match t.r.state
    case Idle => 0
    case SendRep => |g.req| - g.cp.pos + (if t.r.reply.valid then 1 else 0)
    case Replay => |g.req| - g.cp.pos + |g.fw.mem| + 1 - g.sent
    case WaitStarted => 4 + CoreShare(cfg, t, h, g)
    case WaitHdrReady => 2 + CoreShare(cfg, t, h, g)
    case WaitStopped => CoreShare(cfg, t, h, g)
  }

  /** The next request word is there, and the receiver takes what is on offer. */
  predicate Helps(g: Work, i: In) {
    i.ready && (g.cp.pos < |g.req| ==> i.req.valid)
  }

  lemma SendRepProgress(cfg: Cfg, dev: Device, t: Top, h: S.Hist, i: In, g: Work, t': Top, h': S.Hist)
    requires Working(cfg, dev, t, h, g) && Offers(cfg, g, i) && t.r.state == SendRep
    requires TopWf(cfg, t') && t'.r == SendRepNext(t, i) && WorkOk(cfg, Track(t, i, g))
    ensures WorkRank(cfg, t, h, g) > 0
    ensures var r, r' := WorkRank(cfg, t, h, g), WorkRank(cfg, t', h', Track(t, i, g));
            t'.r.state != Idle ==> r' <= r && (Helps(g, i) ==> r' < r)
  {
  }

  lemma ReplayProgress(cfg: Cfg, dev: Device, t: Top, h: S.Hist, i: In, g: Work, t': Top, h': S.Hist)
    requires Working(cfg, dev, t, h, g) && Offers(cfg, g, i) && t.r.state == Replay
    requires TopWf(cfg, t') && t'.r == ReplayNext(t, i) && WorkOk(cfg, Track(t, i, g))
    ensures WorkRank(cfg, t, h, g) > 0
    ensures var r, r' := WorkRank(cfg, t, h, g), WorkRank(cfg, t', h', Track(t, i, g));
            t'.r.state != Idle ==> r' <= r && (Helps(g, i) ==> r' < r)
  {
    ReplayRegs(t, i);
    ReplayMoves(t, i, g);
  }

  /** In a replay, what helps is a word consumed or a word sent. */
  lemma ReplayMoves(t: Top, i: In, g: Work)
    requires t.r.state == Replay && !t.r.passTdo && !t.r.passTdi && (t.r.reply.valid || t.r.ackInput)
    requires t.r.ackInput == (g.cp.pos < |g.req|)
    ensures var g' := Track(t, i, g);
            && g'.req == g.req && g'.fw == g.fw && g'.cp.pos >= g.cp.pos && g'.sent >= g.sent
            && (Helps(g, i) ==> g'.cp.pos + g'.sent > g.cp.pos + g.sent)
  {
  }

  /** Inside the frame, the core's share is its rank. */
  lemma ShareIsRank(cfg: Cfg, t: Top, h: S.Hist, g: Work, f: C.Frame, wb: seq<S.Job>, c: C.Reg, s: S.Reg,
                    cp: C.Progress)
    requires TopWf(cfg, t) && WorkOk(cfg, g) && g.cp.pos > 0 && f == FrameOf(g.req) && C.FrameOk(Width(cfg), f)
    requires t.c == c && t.s == s && g.wb == wb && g.cp == cp && C.Taken(wb, h) <= C.Pairs(Width(cfg), f)
    ensures CoreShare(cfg, t, h, g) == CoreRank(Width(cfg), cfg.d, f, wb, c, s, h, cp)
  {
  }

  /** The core's share falls while it is inside the frame. */
  lemma ShareFalls(cfg: Cfg, dev: Device, t: Top, h: S.Hist, i: In, g: Work, t': Top, h': S.Hist)
    requires TopWf(cfg, t) && WorkOk(cfg, g) && CoreRuns(cfg, dev, t, h, g) && g.cp.pos >= 1
    requires Offers(cfg, g, i) && TdoOk(dev, t, i, h) && !t.r.ackInput && WorkOk(cfg, Track(t, i, g))
    requires Clocked(cfg, t, h, i, t', h')
    ensures CoreShare(cfg, t, h, g) > 0
    ensures var x, x' := CoreShare(cfg, t, h, g), CoreShare(cfg, t', h', Track(t, i, g));
            x' <= x && (Moves(FrameOf(g.req), t.c, CoreIn(t, i), g.cp) ==> x' < x)
  {
    var w, f := Width(cfg), FrameOf(g.req);
    var ci, cp := CoreInside(cfg, dev, t, h, i, g);
    CoreProgress(w, cfg.d, dev, f, g.wb, t.c, t.s, h, ci, i.tdo, g.cp);
    ShareIsRank(cfg, t, h, g, f, g.wb, t.c, t.s, g.cp);
    ShareIsRank(cfg, t', h', Track(t, i, g), f, g.wb, t'.c, t'.s, cp);
  }

  /** When the core has just got the header, all of the frame is left. */
  lemma FreshFrame(w: nat, d: nat, dev: Device, f: C.Frame, wb: seq<S.Job>, c: C.Reg, s: S.Reg, h: S.Hist)
    requires C.Busy(w, d, dev, f, wb, c, s, h, C.Progress(1, 0, 0)) && |h.outs| == |h.jobs| == |wb|
    ensures CoreRank(w, d, f, wb, c, s, h, C.Progress(1, 0, 0)) == |f.p| + C.Pairs(w, f) * PairWeight(w, d) + w + 6
  {
    S.Holds(w, d, dev, s, h);
  }

  lemma FreshShare(cfg: Cfg, dev: Device, t: Top, h: S.Hist, g: Work)
    requires TopWf(cfg, t) && WorkOk(cfg, g) && CoreRuns(cfg, dev, t, h, g) && g.cp == C.Progress(1, 0, 0)
    requires |h.outs| == |h.jobs| == |g.wb|
    ensures CoreShare(cfg, t, h, g) == CoreCost(cfg, g.req) - 1
  {
    FreshFrame(Width(cfg), cfg.d, dev, FrameOf(g.req), g.wb, t.c, t.s, h);
    ShareIsRank(cfg, t, h, g, FrameOf(g.req), g.wb, t.c, t.s, g.cp);
  }

  /** What happens before the header has reached the core. */
  predicate HeaderMoves(cfg: Cfg, dev: Device, t: Top, i: In, g: Work, t': Top, h': S.Hist, g': Work) {
    && WorkOk(cfg, g') && t'.r.state == WaitStarted && g'.req == g.req && g'.wb == g.wb
    && |h'.outs| == |h'.jobs| == |g.wb|
    && (if ReqTaken(t, i) then CoreRuns(cfg, dev, t', h', g') && g'.cp == C.Progress(1, 0, 0)
        else g'.cp.pos == 0 && t'.c.sReady)
  }

  lemma HeaderStep(cfg: Cfg, dev: Device, t: Top, h: S.Hist, i: In, g: Work, t': Top, h': S.Hist)
    requires Working(cfg, dev, t, h, g) && Offers(cfg, g, i) && TdoOk(dev, t, i, h) && t.r.state == WaitStarted
    requires g.cp.pos == 0
    requires Clocked(cfg, t, h, i, t', h')
    ensures HeaderMoves(cfg, dev, t, i, g, t', h', Track(t, i, g))
    ensures ReqTaken(t, i) == (i.req.valid && t.c.sReady)
  {
    RunFacts(cfg, dev, g);
    P.RestStep(Width(cfg), cfg.d, dev, t.c, t.s, h, CoreIn(t, i), i.tdo);
    WaitStartedRest(cfg, dev, t, h, i, g, t', h');
  }

  /** Before the header has reached the core. */
  lemma HeaderProgress(cfg: Cfg, dev: Device, t: Top, h: S.Hist, i: In, g: Work, t': Top, h': S.Hist)
    requires Working(cfg, dev, t, h, g) && Offers(cfg, g, i) && TdoOk(dev, t, i, h) && t.r.state == WaitStarted
    requires g.cp.pos == 0
    requires Clocked(cfg, t, h, i, t', h')
    ensures WorkOk(cfg, Track(t, i, g)) && t'.r.state == WaitStarted
    ensures var x, x' := CoreShare(cfg, t, h, g), CoreShare(cfg, t', h', Track(t, i, g));
            x > 0 && x' <= x && (i.req.valid ==> x' < x)
  {
    HeaderStep(cfg, dev, t, h, i, g, t', h');
    if ReqTaken(t, i) { FreshShare(cfg, dev, t', h', Track(t, i, g)); }
  }

  /** The rank across one clock. */
  predicate Falls(cfg: Cfg, t: Top, h: S.Hist, g: Work, i: In, t': Top, h': S.Hist, g': Work)
    requires TopWf(cfg, t) && WorkOk(cfg, g) && TopWf(cfg, t') && WorkOk(cfg, g')
  {
    && WorkRank(cfg, t, h, g) > 0
    && (t'.r.state != Idle ==>
          && WorkRank(cfg, t', h', g') <= WorkRank(cfg, t, h, g)
          && (Helps(g, i) ==> WorkRank(cfg, t', h', g') < WorkRank(cfg, t, h, g)))
  }

  lemma StartedFalls(cfg: Cfg, dev: Device, t: Top, h: S.Hist, i: In, g: Work, t': Top, h': S.Hist, g': Work,
                     moves: bool)
    requires TopWf(cfg, t) && WorkOk(cfg, g) && TopWf(cfg, t') && g' == Track(t, i, g) && WorkOk(cfg, g')
    requires t.r.state == WaitStarted && Offers(cfg, g, i) && g.cp.pos < |g.req|
    requires t'.r == WaitStartedNext(cfg, t, i) && t.r.passTdi
    requires var x, x' := CoreShare(cfg, t, h, g), CoreShare(cfg, t', h', g'); x > 0 && x' <= x && (moves ==> x' < x)
    requires Helps(g, i) && !t.c.running ==> moves
    ensures Falls(cfg, t, h, g, i, t', h', g')
  {
  }

  lemma HdrReadyFalls(cfg: Cfg, t: Top, h: S.Hist, i: In, g: Work, t': Top, h': S.Hist, g': Work)
    requires TopWf(cfg, t) && WorkOk(cfg, g) && TopWf(cfg, t') && g' == Track(t, i, g) && WorkOk(cfg, g')
    requires t.r.state == WaitHdrReady && t'.r == WaitHdrReadyNext(t, i) && !t.r.passTdo && t.r.reply.valid
    requires var x, x' := CoreShare(cfg, t, h, g), CoreShare(cfg, t', h', g'); x > 0 && x' <= x
    ensures Falls(cfg, t, h, g, i, t', h', g')
  {
  }

  lemma StoppedFalls(cfg: Cfg, t: Top, h: S.Hist, i: In, g: Work, t': Top, h': S.Hist, g': Work, moves: bool)
    requires TopWf(cfg, t) && WorkOk(cfg, g) && TopWf(cfg, t') && g' == Track(t, i, g) && WorkOk(cfg, g')
    requires t.r.state == WaitStopped && t'.r == WaitStoppedNext(cfg, t, i)
    requires var x, x' := CoreShare(cfg, t, h, g), CoreShare(cfg, t', h', g'); x > 0 && x' <= x && (moves ==> x' < x)
    requires Helps(g, i) ==> moves
    ensures Falls(cfg, t, h, g, i, t', h', g')
  {
  }

  lemma StartedProgress(cfg: Cfg, dev: Device, t: Top, h: S.Hist, i: In, g: Work, t': Top, h': S.Hist)
    requires Working(cfg, dev, t, h, g) && Offers(cfg, g, i) && TdoOk(dev, t, i, h) && t.r.state == WaitStarted
    requires g.cp.pos > 0
    requires Clocked(cfg, t, h, i, t', h')
    ensures WorkOk(cfg, Track(t, i, g)) && Falls(cfg, t, h, g, i, t', h', Track(t, i, g))
  {
    StartedPosition(cfg, dev, t, h, g);
    CoreClockSummary(cfg, dev, t, h, i, g, t', h');
    ShareFalls(cfg, dev, t, h, i, g, t', h');
    StartedFalls(cfg, dev, t, h, i, g, t', h', Track(t, i, g), Moves(FrameOf(g.req), t.c, CoreIn(t, i), g.cp));
  }

  lemma HdrReadyProgress(cfg: Cfg, dev: Device, t: Top, h: S.Hist, i: In, g: Work, t': Top, h': S.Hist)
    requires Working(cfg, dev, t, h, g) && Offers(cfg, g, i) && TdoOk(dev, t, i, h) && t.r.state == WaitHdrReady
    requires Clocked(cfg, t, h, i, t', h')
    ensures WorkOk(cfg, Track(t, i, g)) && Falls(cfg, t, h, g, i, t', h', Track(t, i, g))
  {
    CoreClockSummary(cfg, dev, t, h, i, g, t', h');
    ShareFalls(cfg, dev, t, h, i, g, t', h');
    HdrReadyFalls(cfg, t, h, i, g, t', h', Track(t, i, g));
  }

  lemma StoppedProgress(cfg: Cfg, dev: Device, t: Top, h: S.Hist, i: In, g: Work, t': Top, h': S.Hist)
    requires Working(cfg, dev, t, h, g) && Offers(cfg, g, i) && TdoOk(dev, t, i, h) && t.r.state == WaitStopped
    requires Clocked(cfg, t, h, i, t', h')
    ensures WorkOk(cfg, Track(t, i, g)) && Falls(cfg, t, h, g, i, t', h', Track(t, i, g))
  {
    CoreClockSummary(cfg, dev, t, h, i, g, t', h');
    ShareFalls(cfg, dev, t, h, i, g, t', h');
    StoppedFalls(cfg, t, h, i, g, t', h', Track(t, i, g), Moves(FrameOf(g.req), t.c, CoreIn(t, i), g.cp));
  }

  /** No clock raises the rank of the request in progress, and clocks in which words move on both streams lower it. */
  lemma WorkProgress(cfg: Cfg, dev: Device, t: Top, h: S.Hist, i: In, g: Work, t': Top, h': S.Hist)
    requires Working(cfg, dev, t, h, g) && Offers(cfg, g, i) && TdoOk(dev, t, i, h) && Clocked(cfg, t, h, i, t', h')
    ensures WorkOk(cfg, Track(t, i, g)) && Falls(cfg, t, h, g, i, t', h', Track(t, i, g))
  {
    match t.r.state
    case SendRep =>
      SendRepStep(cfg, dev, t, h, i, g, t', h');
      SendRepProgress(cfg, dev, t, h, i, g, t', h');
    case Replay =>
      ReplayStep(cfg, dev, t, h, i, g, t', h');
      ReplayProgress(cfg, dev, t, h, i, g, t', h');
    case WaitStarted =>
      if g.cp.pos == 0 {
        HeaderProgress(cfg, dev, t, h, i, g, t', h');
      } else {
        StartedProgress(cfg, dev, t, h, i, g, t', h');
      }
    case WaitHdrReady => HdrReadyProgress(cfg, dev, t, h, i, g, t', h');
    case WaitStopped => StoppedProgress(cfg, dev, t, h, i, g, t', h');
  }

  lemma RankPositive(cfg: Cfg, dev: Device, t: Top, h: S.Hist, g: Work)
    requires Working(cfg, dev, t, h, g)
    ensures WorkRank(cfg, t, h, g) > 0
  {
    if t.r.state.WaitStarted? || t.r.state.WaitHdrReady? || t.r.state.WaitStopped? {
      RunFacts(cfg, dev, g);
      if g.cp.pos > 0 { SharePositive(cfg, dev, t, h, g); }
    }
  }

  lemma SharePositive(cfg: Cfg, dev: Device, t: Top, h: S.Hist, g: Work)
    requires TopWf(cfg, t) && WorkOk(cfg, g) && CoreRuns(cfg, dev, t, h, g) && g.cp.pos > 0
    ensures CoreShare(cfg, t, h, g) > 0
  {
    StatesFall(Width(cfg), cfg.d, dev, FrameOf(g.req), g.wb, t.c, t.s, h, C.In(false, t.memOut, false, false), g.cp);
  }

  // ---- all requests ----

  /** Enough clocks for request `k`. */
  function Cost(cfg: Cfg, dev: Device, reqs: seq<seq<Vec>>, k: nat): nat
    requires RequestsOk(cfg, reqs) && k < |reqs|
  {
    var a := ServeAll(cfg, dev, reqs[..k]);
    CoreCost(cfg, reqs[k]) + |Serve(cfg, dev, a.hist, a.fw, reqs[k]).reply| + 6
  }

  /** Enough clocks for the requests from `k` on. */
  function Budget(cfg: Cfg, dev: Device, reqs: seq<seq<Vec>>, k: nat): nat
    requires RequestsOk(cfg, reqs) && k <= |reqs|
    decreases |reqs| - k
  {
    if k == |reqs| then 0 else Cost(cfg, dev, reqs, k) + Budget(cfg, dev, reqs, k + 1)
  }

  /** The request stream goes on, if there are requests left, and the reply stream is taken. */
  predicate Helping(reqs: seq<seq<Vec>>, z: Sim, i: In) {
    i.ready && (z.n < |reqs| ==> i.req.valid)
  }

  /** How many of the first `k` clocks are such. */
  function HelpingClocks(reqs: seq<seq<Vec>>, zs: seq<Sim>, ins: seq<In>, k: nat): nat
    requires k <= |zs| && k <= |ins|
  {
    if k == 0 then 0
    else HelpingClocks(reqs, zs, ins, k - 1) + (if Helping(reqs, zs[k - 1], ins[k - 1]) then 1 else 0)
  }

  lemma BeginRank(cfg: Cfg, dev: Device, t: Top, h: S.Hist, g: Work)
    requires Working(cfg, dev, t, h, g) && g.cp.pos == 0 && g.sent == 0
    ensures WorkRank(cfg, t, h, g) < CoreCost(cfg, g.req) + |Wanted(cfg, dev, g).reply| + 6
  {
    match t.r.state
    case Replay => assert Wanted(cfg, dev, g).reply == [g.req[0]] + g.fw.mem;
    case WaitHdrReady => RunFacts(cfg, dev, g);
    case WaitStopped => RunFacts(cfg, dev, g);
    case _ =>
  }

  /** A request that begins has no more before it than its cost. */
  lemma BeginsWithin(cfg: Cfg, dev: Device, reqs: seq<seq<Vec>>, z: Sim, m: nat, g: Work)
    requires Ready(cfg, dev, reqs) && Inside(cfg, dev, reqs, z, m, g) && g.cp.pos == 0 && g.sent == 0
    ensures WorkRank(cfg, z.t, z.h, g) < Cost(cfg, dev, reqs, m)
  {
    BeginRank(cfg, dev, z.t, z.h, g);
  }

  /** What is left to do, with the clocks that helped so far, is within the budget. */
  predicate Within(cfg: Cfg, dev: Device, reqs: seq<seq<Vec>>, z: Sim, m: nat, g: Work, clocks: nat)
    requires Ready(cfg, dev, reqs)
  {
    if z.t.r.state == Idle then
      && Between(cfg, dev, reqs, z)
      && (z.n == |reqs| || Budget(cfg, dev, reqs, z.n) + clocks <= Budget(cfg, dev, reqs, 0))
    else
      && Inside(cfg, dev, reqs, z, m, g)
      && WorkRank(cfg, z.t, z.h, g) + Budget(cfg, dev, reqs, m + 1) + clocks <= Budget(cfg, dev, reqs, 0)
  }

  lemma RestWithin(cfg: Cfg, dev: Device, reqs: seq<seq<Vec>>, z: Sim, i: In, z': Sim, clocks: nat, clocks': nat)
    returns (g': Work)
    requires Ready(cfg, dev, reqs) && z.t.r.state == Idle && Between(cfg, dev, reqs, z) && EnvOk(cfg, dev, reqs, z, i)
    requires z.n == |reqs| || Budget(cfg, dev, reqs, z.n) + clocks <= Budget(cfg, dev, reqs, 0)
    requires SimWf(cfg, z) && z' == Tick(cfg, z, i) && clocks' == if Helping(reqs, z, i) then clocks + 1 else clocks
    ensures Within(cfg, dev, reqs, z', z.n, g', clocks')
  {
    g' := Fresh([], POWER_UP, []);
    if i.req.valid {
      g' := BeginTick(cfg, dev, reqs, z, i, z');
      BeginsWithin(cfg, dev, reqs, z', z.n, g');
    } else {
      RestTick(cfg, dev, reqs, z, i, z');
    }
  }

  lemma WorkWithin(cfg: Cfg, dev: Device, reqs: seq<seq<Vec>>, z: Sim, i: In, z': Sim, m: nat, g: Work, clocks: nat,
                   clocks': nat)
    requires Ready(cfg, dev, reqs) && Inside(cfg, dev, reqs, z, m, g) && EnvOk(cfg, dev, reqs, z, i)
    requires WorkRank(cfg, z.t, z.h, g) + Budget(cfg, dev, reqs, m + 1) + clocks <= Budget(cfg, dev, reqs, 0)
    requires SimWf(cfg, z) && z' == Tick(cfg, z, i) && clocks' == if Helping(reqs, z, i) then clocks + 1 else clocks
    ensures Within(cfg, dev, reqs, z', m, Track(z.t, i, g), clocks')
  {
    WorkTick(cfg, dev, reqs, z, i, m, g);
    var t', h' := NextClocks(cfg, z.t, z.h, i);
    WorkProgress(cfg, dev, z.t, z.h, i, g, t', h');
  }

  lemma ClockWithin(cfg: Cfg, dev: Device, reqs: seq<seq<Vec>>, zs: seq<Sim>, ins: seq<In>, k: nat, z': Sim,
                    m: nat, g: Work, n: nat, n': nat)
    returns (m': nat, g': Work)
    requires Ready(cfg, dev, reqs) && ClockOf(cfg, dev, reqs, zs, ins, k) && Within(cfg, dev, reqs, zs[k], m, g, n)
    requires z' == zs[k + 1] && n' == if Helping(reqs, zs[k], ins[k]) then n + 1 else n
    ensures Within(cfg, dev, reqs, z', m', g', n')
  {
    var z, i := zs[k], ins[k];
    if z.t.r.state == Idle {
      m' := z.n;
      g' := RestWithin(cfg, dev, reqs, z, i, z', n, n');
    } else {
      m', g' := m, Track(z.t, i, g);
      WorkWithin(cfg, dev, reqs, z, i, z', m, g, n, n');
    }
  }

  lemma StartsWithin(cfg: Cfg, dev: Device, reqs: seq<seq<Vec>>, z: Sim, g: Work)
    requires Ready(cfg, dev, reqs) && AtReset(cfg, z)
    ensures Within(cfg, dev, reqs, z, 0, g, 0)
  {
    StartsBetween(cfg, dev, reqs, z);
  }

  lemma NextWithin(cfg: Cfg, dev: Device, reqs: seq<seq<Vec>>, zs: seq<Sim>, ins: seq<In>, j: nat, z': Sim, n': nat)
    returns (m': nat, g': Work)
    requires Ready(cfg, dev, reqs) && IsRun(cfg, dev, reqs, zs, ins) && j < |ins| && z' == zs[j + 1]
    requires n' == HelpingClocks(reqs, zs, ins, j + 1)
    ensures Within(cfg, dev, reqs, z', m', g', n')
    decreases j, 1
  {
    var n := HelpingClocks(reqs, zs, ins, j);
    var m, g := RunWithin(cfg, dev, reqs, zs, ins, j, zs[j], n);
    assert ClockOf(cfg, dev, reqs, zs, ins, j);
    m', g' := ClockWithin(cfg, dev, reqs, zs, ins, j, z', m, g, n, n');
  }

  lemma {:induction false} RunWithin(cfg: Cfg, dev: Device, reqs: seq<seq<Vec>>, zs: seq<Sim>, ins: seq<In>, k: nat,
                                     z: Sim, n: nat)
    returns (m: nat, g: Work)
    requires Ready(cfg, dev, reqs) && IsRun(cfg, dev, reqs, zs, ins) && k < |zs|
    requires z == zs[k] && n == HelpingClocks(reqs, zs, ins, k)
    ensures Within(cfg, dev, reqs, z, m, g, n)
    decreases k, 0
  {
    if k == 0 {
      m, g := 0, Fresh([], POWER_UP, []);
      StartsWithin(cfg, dev, reqs, z, g);
    } else {
      m, g := NextWithin(cfg, dev, reqs, zs, ins, k - 1, z, n);
    }
  }

  /**
   Every run, however long it stalls in between: once there were as many clocks in which words could move on both
   streams as the requests cost, all requests are answered completely and the target has seen all their shifts.
   */
  lemma AllServed(cfg: Cfg, dev: Device, reqs: seq<seq<Vec>>, zs: seq<Sim>, ins: seq<In>, k: nat)
    requires Ready(cfg, dev, reqs) && IsRun(cfg, dev, reqs, zs, ins) && k < |zs|
    requires HelpingClocks(reqs, zs, ins, k) >= Budget(cfg, dev, reqs, 0)
    ensures var y := zs[k];
            && y.t.r.state == Idle && y.n == |reqs|
            && Sent(y) == ServeAll(cfg, dev, reqs).out && y.h.edges == ServeAll(cfg, dev, reqs).hist
  {
    var y := zs[k];
    var m, g := RunWithin(cfg, dev, reqs, zs, ins, k, y, HelpingClocks(reqs, zs, ins, k));
    if y.t.r.state != Idle { RankPositive(cfg, dev, y.t, y.h, g); }
    IdleMeansServed(cfg, dev, reqs, zs, ins, k);
    assert reqs[..|reqs|] == reqs;
  }
}
