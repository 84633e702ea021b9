// The clocked design refines the message-level firmware: every request is consumed through its TLAST and answered
// by exactly the reply `Firmware.Serve` prescribes, in order, under any schedule of the two streams.

module AxisProof {
  import opened Bits
  import opened Jtag
  import opened Header
  import S = SerDes
  import C = Core
  import P = CoreProof
  import opened ShiftSpec
  import opened Firmware
  import opened AxisToJtag

  /**
   The request in progress: its words, firmware state and serialiser jobs before it, progress of the core, reply words
   absorbed by the selector, and whether the request port is held (valid without ready, so the word must stay).
   */
  datatype Work = Work(req: seq<Vec>, fw: Fw, wb: seq<S.Job>, cp: C.Progress, sent: nat, held: bool)

  predicate WorkOk(cfg: Cfg, g: Work) {
    && RequestOk(cfg, g.req) && S.JobsOk(Width(cfg), g.wb) && Admissible(cfg, g.fw, g.req)
    && g.cp.pos <= |g.req|
  }

  function Wanted(cfg: Cfg, dev: Device, g: Work): Answer
    requires WorkOk(cfg, g)
  {
    Serve(cfg, dev, S.AllBits(Width(cfg), g.wb), g.fw, g.req)
  }

  function VerdictOf(cfg: Cfg, g: Work): Verdict
    requires WorkOk(cfg, g)
  {
    Classify(cfg, g.fw, g.req[0], |g.req| == 1)
  }

  // ---- invariant ----

  /** The replay memory and its key hold what `fw` remembers. */
  predicate Memory(cfg: Cfg, t: Top, fw: Fw) {
    && t.r.xid == fw.xid && t.r.memValid == fw.memValid
    && (fw.memValid ==>
          1 <= |fw.mem| == t.r.widx <= |t.mem| && |t.mem| == cfg.depth && t.mem[..|fw.mem|] == fw.mem)
  }

  predicate CoreRests(cfg: Cfg, dev: Device, t: Top, h: S.Hist, wb: seq<S.Job>) {
    C.AtRest(Width(cfg), cfg.d, dev, t.c, t.s, h) && h.jobs == wb
  }

  predicate CoreRuns(cfg: Cfg, dev: Device, t: Top, h: S.Hist, g: Work)
    requires WorkOk(cfg, g)
  {
    C.Busy(Width(cfg), cfg.d, dev, FrameOf(g.req), g.wb, t.c, t.s, h, g.cp)
  }

  /** Between requests. */
  predicate TopRest(cfg: Cfg, dev: Device, t: Top, h: S.Hist, fw: Fw) {
    && TopWf(cfg, t) && t.r.state == Idle
    && !t.r.reply.valid && !t.r.ackInput && !t.r.passTdo && !t.r.passTdi && t.r.ridx == 0
    && Memory(cfg, t, fw)
    && CoreRests(cfg, dev, t, h, h.jobs)
  }

  /** A one-word answer goes out while the rest of the request is absorbed. */
  predicate InSendRep(cfg: Cfg, dev: Device, t: Top, h: S.Hist, g: Work)
    requires WorkOk(cfg, g)
  {
    var a := Wanted(cfg, dev, g);
    && |a.reply| == 1 && a.hist == S.AllBits(Width(cfg), g.wb) && Memory(cfg, t, a.fw)
    && CoreRests(cfg, dev, t, h, g.wb)
    && !t.r.passTdo && !t.r.passTdi && t.r.ridx == 0
    && g.sent == (if t.r.reply.valid then 0 else 1)
    && (t.r.reply.valid ==> t.r.reply == Axis(true, a.reply[0], true))
    && (t.r.tLastSeen ==> if t.r.ackInput then |g.req| == 1 && g.cp.pos == 0 && g.held else g.cp.pos == |g.req|)
    && (!t.r.tLastSeen ==> t.r.ackInput && g.cp.pos < |g.req|)
    && (!t.r.reply.valid ==> !t.r.tLastSeen)
  }

  predicate Running(cfg: Cfg, dev: Device, t: Top, g: Work)
    requires WorkOk(cfg, g)
  {
    && VerdictOf(cfg, g) == Run && t.r.xid == Xid(g.req[0]) && !t.r.memValid
    && t.r.ridx == 0 && !t.r.ackInput
  }

  /** The core gets the header and the first TMS word; only then it is clear that the answer is not an error. */
  predicate InWaitStarted(cfg: Cfg, dev: Device, t: Top, h: S.Hist, g: Work)
    requires WorkOk(cfg, g)
  {
    && Running(cfg, dev, t, g) && !t.r.passTdo && t.r.passTdi && t.r.widx == 0 && g.sent == 0
    && t.r.reply == Axis(false, g.req[0], false)
    && g.cp.out == 0
    && (if g.cp.pos == 0 then CoreRests(cfg, dev, t, h, g.wb) && g.cp == C.Progress(0, 0, 0)
        else CoreRuns(cfg, dev, t, h, g) && (g.cp.pos == 1 || (g.cp.pos == 2 && t.c.running)))
  }

  predicate InWaitHdrReady(cfg: Cfg, dev: Device, t: Top, h: S.Hist, g: Work)
    requires WorkOk(cfg, g)
  {
    && Running(cfg, dev, t, g) && !t.r.passTdo && t.r.widx == 0 && g.sent == 0 && |g.req| > 2
    && t.r.reply == Axis(true, g.req[0], false)
    && t.r.passTdi == (g.cp.pos < |g.req|)
    && g.cp.out == 0 && CoreRuns(cfg, dev, t, h, g)
  }

  /** The core's output goes through the selector, and into the memory. */
  predicate InWaitStopped(cfg: Cfg, dev: Device, t: Top, h: S.Hist, g: Work)
    requires WorkOk(cfg, g)
  {
    var n := g.cp.out;
    && Running(cfg, dev, t, g) && t.r.passTdo && !t.r.reply.valid && |g.req| > 2
    && t.r.passTdi == (g.cp.pos < |g.req|)
    && g.sent == n + 1 && CoreRuns(cfg, dev, t, h, g)
    && n < |Wanted(cfg, dev, g).fw.mem|
    && (cfg.depth > 0 ==> t.r.widx == n <= |t.mem| && t.mem[..n] == Wanted(cfg, dev, g).fw.mem[..n])
  }

  /**
   The recorded words go out behind their header. The memory's read port is always one word ahead of the reply
   register; what it yields past the last word is never sent.
   */
  predicate Playing(r: Reg, memOut: Vec, hdr: Vec, words: seq<Vec>, sent: nat) {
    var n := |words|;
    && (r.reply.valid ==>
          && sent <= n
          && r.reply == Axis(true, ([hdr] + words)[sent], sent == n)
          && r.ridx == (if sent < n then sent + 1 else 0)
          && (sent < n ==> memOut == words[sent]))
    && (!r.reply.valid ==> sent == n + 1 && r.ridx == 0)
  }

  predicate InReplay(cfg: Cfg, dev: Device, t: Top, h: S.Hist, g: Work)
    requires WorkOk(cfg, g)
  {
    && VerdictOf(cfg, g) == Retry && Memory(cfg, t, g.fw) && CoreRests(cfg, dev, t, h, g.wb)
    && !t.r.passTdo && !t.r.passTdi
    && t.r.ackInput == (g.cp.pos < |g.req|)
    && Playing(t.r, t.memOut, g.req[0], g.fw.mem, g.sent)
    && (!t.r.reply.valid ==> t.r.ackInput)
  }

  /** Inside request `g`. */
  predicate Working(cfg: Cfg, dev: Device, t: Top, h: S.Hist, g: Work) {
    && WorkOk(cfg, g) && TopWf(cfg, t)
    && match t.r.state
       case Idle => false
       case SendRep => InSendRep(cfg, dev, t, h, g)
       case WaitStarted => InWaitStarted(cfg, dev, t, h, g)
       case WaitHdrReady => InWaitHdrReady(cfg, dev, t, h, g)
       case WaitStopped => InWaitStopped(cfg, dev, t, h, g)
       case Replay => InReplay(cfg, dev, t, h, g)
  }

  /** The request is consumed, its answer absorbed, and firmware and target are as they should be. */
  predicate Done(cfg: Cfg, dev: Device, t: Top, h: S.Hist, g: Work) {
    && WorkOk(cfg, g)
    && var a := Wanted(cfg, dev, g);
       && TopRest(cfg, dev, t, h, a.fw) && S.AllBits(Width(cfg), h.jobs) == a.hist
       && g.cp.pos == |g.req| && g.sent == |a.reply|
  }

  // ---- one clock ----

  /** The selector takes a reply word, locally made or from the core. */
  predicate Absorbs(t: Top, i: In) {
    if t.r.passTdo then TdoXfer(t, i) else LocConsumed(t, i)
  }

  function Absorbed(t: Top): Axis {
    if t.r.passTdo then Axis(true, t.c.tdo, t.c.tLast) else t.r.reply
  }

  function Track(t: Top, i: In, g: Work): Work {
    var a := C.Advance(t.c, CoreIn(t, i), g.cp);
    g.(cp := a.(pos := if ReqTaken(t, i) then g.cp.pos + 1 else g.cp.pos),
       sent := if Absorbs(t, i) then g.sent + 1 else g.sent,
       held := i.req.valid && !ReqReady(t))
  }

  /** The request port offers the words of the request in order and does not withdraw one. */
  predicate Offers(cfg: Cfg, g: Work, i: In) {
    && InWf(cfg, i)
    && (g.held ==> i.req.valid)
    && (i.req.valid && g.cp.pos < |g.req| ==> i.req.data == g.req[g.cp.pos] && i.req.last == (g.cp.pos == |g.req| - 1))
  }

  predicate TdoOk(dev: Device, t: Top, i: In, h: S.Hist) {
    !t.s.tck ==> i.tdo == dev(h.edges)
  }

  /** Result of a clock inside a request. */
  predicate Ends(cfg: Cfg, dev: Device, t': Top, h': S.Hist, g': Work) {
    && (t'.r.state != Idle ==> Working(cfg, dev, t', h', g'))
    && (t'.r.state == Idle ==> Done(cfg, dev, t', h', g'))
  }

  /** One clock: what becomes of the registers, the memory and the core. */
  predicate Clocked(cfg: Cfg, t: Top, h: S.Hist, i: In, t': Top, h': S.Hist) {
    && TopWf(cfg, t) && InWf(cfg, i) && TopWf(cfg, t')
    && t'.r == NextReg(cfg, t, i) && t'.mem == NextMem(t, i) && t'.memOut == NextMemOut(t, i)
    && t'.c == C.Next(Width(cfg), cfg.d, t.c, t.s, CoreIn(t, i))
    && t'.s == P.NextSer(Width(cfg), cfg.d, t.c, t.s, CoreIn(t, i), i.tdo)
    && h' == P.NextHist(Width(cfg), cfg.d, t.c, t.s, CoreIn(t, i), i.tdo, h)
  }

  lemma NextClocks(cfg: Cfg, t: Top, h: S.Hist, i: In) returns (t': Top, h': S.Hist)
    requires TopWf(cfg, t) && InWf(cfg, i)
    ensures t' == Next(cfg, t, i) && h' == NextHist(cfg, t, i, h) && Clocked(cfg, t, h, i, t', h')
  {
    t', h' := Next(cfg, t, i), NextHist(cfg, t, i, h);
  }

  /** With the gate closed a resting core stays at rest. */
  lemma CoreStaysAtRest(cfg: Cfg, dev: Device, t: Top, h: S.Hist, i: In, wb: seq<S.Job>, t': Top, h': S.Hist)
    requires TopWf(cfg, t) && InWf(cfg, i) && CoreRests(cfg, dev, t, h, wb) && !t.r.passTdi && TdoOk(dev, t, i, h)
    requires Clocked(cfg, t, h, i, t', h')
    ensures CoreRests(cfg, dev, t', h', wb)
    ensures !TdoXfer(t, i)
  {
    P.RestStep(Width(cfg), cfg.d, dev, t.c, t.s, h, CoreIn(t, i), i.tdo);
  }

  // ---- one state at a time ----

  lemma SendRepGlue(cfg: Cfg, dev: Device, t: Top, h: S.Hist, i: In, g: Work, t': Top, h': S.Hist, g': Work)
    requires WorkOk(cfg, g) && TopWf(cfg, t) && Offers(cfg, g, i) && t.r.state == SendRep
    requires InSendRep(cfg, dev, t, h, g)
    requires TopWf(cfg, t') && t'.r == SendRepNext(t, i) && t'.mem == t.mem && g' == Track(t, i, g)
    requires CoreRests(cfg, dev, t', h', g.wb)
    ensures Ends(cfg, dev, t', h', g')
  {
    assert Wanted(cfg, dev, g') == Wanted(cfg, dev, g);
  }

  lemma SendRepStep(cfg: Cfg, dev: Device, t: Top, h: S.Hist, i: In, g: Work, t': Top, h': S.Hist)
    requires Working(cfg, dev, t, h, g) && Offers(cfg, g, i) && TdoOk(dev, t, i, h) && t.r.state == SendRep
    requires Clocked(cfg, t, h, i, t', h')
    ensures Ends(cfg, dev, t', h', Track(t, i, g))
  {
    CoreStaysAtRest(cfg, dev, t, h, i, g.wb, t', h');
    SendRepGlue(cfg, dev, t, h, i, g, t', h', Track(t, i, g));
  }

  lemma PlayStep(cfg: Cfg, t: Top, i: In, hdr: Vec, words: seq<Vec>, sent: nat)
    requires TopWf(cfg, t) && t.r.state == Replay && InWf(cfg, i) && !t.r.passTdo
    requires 1 <= |words| == t.r.widx <= |t.mem| && t.mem[..|words|] == words
    requires Playing(t.r, t.memOut, hdr, words, sent)
    ensures Playing(NextReg(cfg, t, i), NextMemOut(t, i), hdr, words, if LocConsumed(t, i) then sent + 1 else sent)
  {
    if LocConsumed(t, i) && sent + 1 < |words| {
      assert t.mem[sent + 1] == t.mem[..|words|][sent + 1];
    }
  }

  /** Registers that a clock of the replay leaves alone, and when it is over. */
  lemma ReplayRegs(t: Top, i: In)
    requires t.r.state == Replay && !t.r.passTdi
    ensures var v := ReplayNext(t, i);
            && v.xid == t.r.xid && v.memValid == t.r.memValid && v.widx == t.r.widx
            && v.passTdo == t.r.passTdo && v.passTdi == t.r.passTdi
            && v.ackInput == (t.r.ackInput && !LastReq(t, i))
            && (v.state == Idle <==> !v.ackInput && !v.reply.valid) && (v.state != Idle ==> v.state == Replay)
  {
  }

  /** The replay goes on, or is over. */
  lemma ReplayGlue(cfg: Cfg, dev: Device, t': Top, h': S.Hist, g': Work)
    requires WorkOk(cfg, g') && VerdictOf(cfg, g') == Retry && TopWf(cfg, t')
    requires !t'.r.passTdo && !t'.r.passTdi && t'.r.ackInput == (g'.cp.pos < |g'.req|)
    requires Memory(cfg, t', g'.fw) && CoreRests(cfg, dev, t', h', g'.wb)
    requires Playing(t'.r, t'.memOut, g'.req[0], g'.fw.mem, g'.sent)
    requires t'.r.state == Idle <==> !t'.r.ackInput && !t'.r.reply.valid
    requires t'.r.state != Idle ==> t'.r.state == Replay
    requires !t'.r.reply.valid ==> t'.r.ackInput || t'.r.state == Idle
    ensures Ends(cfg, dev, t', h', g')
  {
    if t'.r.state == Idle { assert Wanted(cfg, dev, g').reply == [g'.req[0]] + g'.fw.mem; }
  }

  lemma ReplayPosition(cfg: Cfg, t: Top, i: In, g: Work)
    requires WorkOk(cfg, g) && Offers(cfg, g, i) && !t.r.passTdi && t.r.ackInput == (g.cp.pos < |g.req|)
    ensures var g' := Track(t, i, g);
            && WorkOk(cfg, g') && g' == g.(cp := g'.cp, sent := g'.sent, held := g'.held)
            && (t.r.ackInput && !LastReq(t, i)) == (g'.cp.pos < |g.req|)
  {
  }

  lemma ReplayStep(cfg: Cfg, dev: Device, t: Top, h: S.Hist, i: In, g: Work, t': Top, h': S.Hist)
    requires Working(cfg, dev, t, h, g) && Offers(cfg, g, i) && TdoOk(dev, t, i, h) && t.r.state == Replay
    requires Clocked(cfg, t, h, i, t', h')
    ensures Ends(cfg, dev, t', h', Track(t, i, g))
  {
    CoreStaysAtRest(cfg, dev, t, h, i, g.wb, t', h');
    PlayedOn(cfg, dev, t, h, i, g, t', h');
    ReplayGlue(cfg, dev, t', h', Track(t, i, g));
  }

  lemma PlayedOn(cfg: Cfg, dev: Device, t: Top, h: S.Hist, i: In, g: Work, t': Top, h': S.Hist)
    requires TopWf(cfg, t) && WorkOk(cfg, g) && t.r.state == Replay && InReplay(cfg, dev, t, h, g) && Offers(cfg, g, i)
    requires Clocked(cfg, t, h, i, t', h')
    ensures var g' := Track(t, i, g);
            && WorkOk(cfg, g') && g'.req == g.req && g'.fw == g.fw && g'.wb == g.wb
            && !t'.r.passTdo && !t'.r.passTdi && t'.r.ackInput == (g'.cp.pos < |g'.req|) && Memory(cfg, t', g'.fw)
            && Playing(t'.r, t'.memOut, g'.req[0], g'.fw.mem, g'.sent)
            && (t'.r.state == Idle <==> !t'.r.ackInput && !t'.r.reply.valid)
              && (t'.r.state != Idle ==> t'.r.state == Replay)
  {
    PlayStep(cfg, t, i, g.req[0], g.fw.mem, g.sent);
    ReplayRegs(t, i);
    ReplayPosition(cfg, t, i, g);
  }

  // ---- while the core is at work ----

  lemma RunFacts(cfg: Cfg, dev: Device, g: Work)
    requires WorkOk(cfg, g) && VerdictOf(cfg, g) == Run
    ensures |g.req| >= 2 && C.FrameOk(Width(cfg), FrameOf(g.req))
    ensures |g.req| == 2 ==> C.Stillborn(FrameOf(g.req)) && Wanted(cfg, dev, g).hist == S.AllBits(Width(cfg), g.wb)
                             && Wanted(cfg, dev, g).reply == [SetErr(g.req[0], ERR_TRUNCATED)]
    ensures |g.req| > 2 ==>
              var w := Width(cfg);
              var f := FrameOf(g.req);
              && C.Clean(w, f) && C.Pairs(w, f) > 0
              && |Wanted(cfg, dev, g).fw.mem| == C.Pairs(w, f)
              && (cfg.depth > 0 ==> C.Pairs(w, f) <= cfg.depth)
              && Wanted(cfg, dev, g).reply == [g.req[0]] + Wanted(cfg, dev, g).fw.mem
              && Wanted(cfg, dev, g).hist == S.AllBits(w, g.wb + C.Jobs(w, f, C.Pairs(w, f)))
  {
    var w := Width(cfg);
    var f := FrameOf(g.req);
    if |g.req| > 2 {
      FrameIsJobs(w, f);
      AllBitsConcat(w, g.wb, C.Jobs(w, f, C.Pairs(w, f)));
    }
  }

  /** The reply word the core has ready is the next one wanted. */
  lemma CoreWord(cfg: Cfg, dev: Device, t: Top, h: S.Hist, i: In, g: Work)
    requires TopWf(cfg, t) && WorkOk(cfg, g) && VerdictOf(cfg, g) == Run && |g.req| > 2 && CoreRuns(cfg, dev, t, h, g)
    requires TdoXfer(t, i)
    ensures var a := Wanted(cfg, dev, g);
            && g.cp.out < |a.fw.mem| && t.c.tdo == a.fw.mem[g.cp.out] && t.c.tLast == (g.cp.out + 1 == |a.fw.mem|)
  {
    var w := Width(cfg);
    var f := FrameOf(g.req);
    RunFacts(cfg, dev, g);
    P.EmittedWord(w, cfg.d, dev, f, g.wb, t.c, t.s, h, CoreIn(t, i), g.cp);
    RepWordIsPiece(w, dev, g.wb, f, g.cp.out);
  }

  /** A clock of the design is a clock of the core inside it. */
  lemma CoreInside(cfg: Cfg, dev: Device, t: Top, h: S.Hist, i: In, g: Work) returns (ci: C.In, cp: C.Progress)
    requires TopWf(cfg, t) && WorkOk(cfg, g) && CoreRuns(cfg, dev, t, h, g)
    requires Offers(cfg, g, i) && !t.r.ackInput && g.cp.pos >= 1
    ensures ci == CoreIn(t, i) && cp == Track(t, i, g).cp == C.Advance(t.c, ci, g.cp)
    ensures C.Feeds(Width(cfg), FrameOf(g.req), g.cp, ci) && cp.pos <= |g.req|
  {
    ci, cp := CoreIn(t, i), Track(t, i, g).cp;
    P.BusyPos(Width(cfg), cfg.d, dev, FrameOf(g.req), g.wb, t.c, t.s, h, ci, g.cp);
  }

  /** One clock of a core inside its frame, in terms of the whole design. */
  lemma CoreClock(cfg: Cfg, dev: Device, t: Top, h: S.Hist, i: In, g: Work, t': Top, h': S.Hist)
    requires TopWf(cfg, t) && WorkOk(cfg, g) && CoreRuns(cfg, dev, t, h, g)
    requires Offers(cfg, g, i) && TdoOk(dev, t, i, h) && !t.r.ackInput && g.cp.pos >= 1
    requires Clocked(cfg, t, h, i, t', h')
    ensures var g' := Track(t, i, g);
            && WorkOk(cfg, g')
            && (t'.c.state != C.Idle ==> CoreRuns(cfg, dev, t', h', g'))
            && (t'.c.state == C.Idle ==>
                  C.Finished(Width(cfg), cfg.d, dev, FrameOf(g.req), g.wb, t'.c, t'.s, h', g'.cp))
  {
    var ci, cp := CoreInside(cfg, dev, t, h, i, g);
    P.BusyStep(Width(cfg), cfg.d, dev, FrameOf(g.req), g.wb, t.c, t.s, h, ci, i.tdo, g.cp);
  }

  /** All of the next state but what is inside the core. */
  predicate Around(cfg: Cfg, t: Top, i: In, t': Top)
    requires TopWf(cfg, t) && InWf(cfg, i)
  {
    TopWf(cfg, t') && t'.mem == NextMem(t, i)
  }

  /** What a busy core may turn into. */
  predicate CoreGoesOn(cfg: Cfg, dev: Device, t': Top, h': S.Hist, g': Work)
    requires WorkOk(cfg, g') && |g'.req| >= 2
  {
    if t'.c.state == C.Idle then
      && CoreRests(cfg, dev, t', h', h'.jobs) && !t'.c.running
      && g'.cp.pos == |g'.req| && g'.cp.out == C.Pairs(Width(cfg), FrameOf(g'.req))
      && h'.jobs == g'.wb + C.Jobs(Width(cfg), FrameOf(g'.req), C.Pairs(Width(cfg), FrameOf(g'.req)))
    else CoreRuns(cfg, dev, t', h', g') && 1 <= g'.cp.pos && t'.c.running == (g'.cp.pos >= 2)
  }

  /** The reply to a shift that is run has words; their number and the start of the memory do not depend on progress. */
  lemma Awaited(cfg: Cfg, dev: Device, g: Work, g': Work) returns (words: seq<Vec>)
    requires WorkOk(cfg, g) && WorkOk(cfg, g') && VerdictOf(cfg, g) == Run && |g.req| > 2
    requires g'.req == g.req && g'.fw == g.fw && g'.wb == g.wb
    ensures words == Wanted(cfg, dev, g).fw.mem == Wanted(cfg, dev, g').fw.mem
    ensures |words| == C.Pairs(Width(cfg), FrameOf(g.req)) > 0
  {
    RunFacts(cfg, dev, g);
    words := Wanted(cfg, dev, g).fw.mem;
  }

  /** The gate to the core closes behind the last word of the request. */
  lemma GateFollows(cfg: Cfg, t: Top, i: In, g: Work)
    requires Offers(cfg, g, i) && g.cp.pos <= |g.req| && t.r.passTdi == (g.cp.pos < |g.req|) && !t.r.ackInput
    requires ReqTaken(t, i) ==> g.cp.pos < |g.req|
    ensures (t.r.passTdi && !LastTdi(t, i)) == (Track(t, i, g).cp.pos < |g.req|)
  {
  }

  lemma HdrReadyGlue(cfg: Cfg, dev: Device, t: Top, i: In, g: Work, t': Top, h': S.Hist, g': Work)
    requires WorkOk(cfg, g) && TopWf(cfg, t) && Offers(cfg, g, i) && t.r.state == WaitHdrReady
    requires Running(cfg, dev, t, g) && !t.r.passTdo && t.r.widx == 0 && g.sent == 0 && |g.req| > 2
    requires t.r.reply == Axis(true, g.req[0], false) && t.r.passTdi == (g.cp.pos < |g.req|) && g.cp.out == 0
    requires Around(cfg, t, i, t') && t'.r == WaitHdrReadyNext(t, i) && g' == Track(t, i, g) && WorkOk(cfg, g')
    requires CoreGoesOn(cfg, dev, t', h', g')
    ensures Ends(cfg, dev, t', h', g')
  {
    var words := Awaited(cfg, dev, g, g');
    GateFollows(cfg, t, i, g);
    assert g'.cp.out == 0 && CoreRuns(cfg, dev, t', h', g');
    if LocConsumed(t, i) {
      assert t'.r.state == WaitStopped && InWaitStopped(cfg, dev, t', h', g');
    } else {
      assert t'.r.state == WaitHdrReady && InWaitHdrReady(cfg, dev, t', h', g');
    }
  }

  lemma StartedGlue(cfg: Cfg, dev: Device, t: Top, i: In, g: Work, t': Top, h': S.Hist, g': Work)
    requires WorkOk(cfg, g) && TopWf(cfg, t) && Offers(cfg, g, i) && t.r.state == WaitStarted
    requires |g.req| >= 2 && Running(cfg, dev, t, g) && !t.r.passTdo && t.r.passTdi && t.r.widx == 0 && g.sent == 0
    requires g.cp.out == 0
    requires t.r.reply == Axis(false, g.req[0], false)
    requires 1 <= g.cp.pos <= 2 && t.c.running == (g.cp.pos == 2) && g.cp.pos < |g.req|
    requires Around(cfg, t, i, t') && t'.r == WaitStartedNext(cfg, t, i) && g' == Track(t, i, g) && WorkOk(cfg, g')
    requires CoreGoesOn(cfg, dev, t', h', g')
    ensures Ends(cfg, dev, t', h', g')
  {
    GateFollows(cfg, t, i, g);
    assert g'.cp.out == 0;
    if |g.req| > 2 {
      var words := Awaited(cfg, dev, g, g');
      StartedOn(cfg, dev, t, i, g, t', h', g');
    } else {
      StartedShort(cfg, dev, t, i, g, t', h', g');
    }
  }

  /** The core gets its first words. */
  lemma StartedOn(cfg: Cfg, dev: Device, t: Top, i: In, g: Work, t': Top, h': S.Hist, g': Work)
    requires WorkOk(cfg, g) && TopWf(cfg, t) && Offers(cfg, g, i) && t.r.state == WaitStarted
    requires |g.req| > 2 && Running(cfg, dev, t, g) && !t.r.passTdo && t.r.passTdi && t.r.widx == 0 && g.sent == 0
    requires t.r.reply == Axis(false, g.req[0], false) && 1 <= g.cp.pos <= 2 && t.c.running == (g.cp.pos == 2)
    requires TopWf(cfg, t') && t'.r == WaitStartedNext(cfg, t, i) && g' == Track(t, i, g) && WorkOk(cfg, g')
    requires g'.cp.out == 0
    requires (t.r.passTdi && !LastTdi(t, i)) == (g'.cp.pos < |g.req|)
    requires t'.c.state != C.Idle && CoreRuns(cfg, dev, t', h', g') && 1 <= g'.cp.pos
    requires t'.c.running == (g'.cp.pos >= 2)
    ensures Ends(cfg, dev, t', h', g')
  {
  }

  /** What is left of a request that was cut off at its first TMS word. */
  lemma ShortAnswer(cfg: Cfg, dev: Device, g: Work, g': Work) returns (a: Answer)
    requires WorkOk(cfg, g) && WorkOk(cfg, g') && VerdictOf(cfg, g) == Run && |g.req| == 2
    requires g'.req == g.req && g'.fw == g.fw && g'.wb == g.wb
    ensures a == Wanted(cfg, dev, g') == Answer(Fw(Xid(g.req[0]), false, []), [SetErr(g.req[0], ERR_TRUNCATED)],
                                                S.AllBits(Width(cfg), g.wb))
    ensures C.Pairs(Width(cfg), FrameOf(g.req)) == 0
  {
    RunFacts(cfg, dev, g);
    a := Wanted(cfg, dev, g);
  }

  /** A request of two words never starts the core: TLAST is on the first TMS word. */
  lemma StartedShort(cfg: Cfg, dev: Device, t: Top, i: In, g: Work, t': Top, h': S.Hist, g': Work)
    requires WorkOk(cfg, g) && TopWf(cfg, t) && Offers(cfg, g, i) && t.r.state == WaitStarted
    requires |g.req| == 2 && Running(cfg, dev, t, g) && !t.r.passTdo && t.r.passTdi && t.r.widx == 0 && g.sent == 0
    requires t.r.reply == Axis(false, g.req[0], false) && g.cp.pos == 1 && !t.c.running && g.cp.out == 0
    requires Around(cfg, t, i, t') && t'.r == WaitStartedNext(cfg, t, i) && g' == Track(t, i, g) && WorkOk(cfg, g')
    requires CoreGoesOn(cfg, dev, t', h', g')
    ensures Ends(cfg, dev, t', h', g')
  {
    if ReqTaken(t, i) {
      var a := ShortAnswer(cfg, dev, g, g');
      StartFails(cfg, dev, t, i, g, t', h', g', a);
    } else {
      assert t'.r == t.r && g'.cp.pos == 1 && g'.cp.out == 0;
      assert InWaitStarted(cfg, dev, t', h', g');
    }
  }

  /** A core that runs with two words of the frame taken has a frame with data. */
  lemma RunsWithData(cfg: Cfg, dev: Device, t: Top, h: S.Hist, g: Work)
    requires WorkOk(cfg, g) && |g.req| >= 2 && CoreGoesOn(cfg, dev, t, h, g)
    ensures t.c.state != C.Idle && g.cp.pos >= 2 ==> |g.req| > 2
  {
    if t.c.state != C.Idle { P.BusyStart(Width(cfg), cfg.d, dev, FrameOf(g.req), g.wb, t.c, t.s, h, g.cp); }
  }

  lemma StartFails(cfg: Cfg, dev: Device, t: Top, i: In, g: Work, t': Top, h': S.Hist, g': Work, a: Answer)
    requires WorkOk(cfg, g) && WorkOk(cfg, g') && TopWf(cfg, t) && TopWf(cfg, t') && Offers(cfg, g, i)
    requires t.r.state == WaitStarted
    requires |g.req| == 2 && t.r.xid == Xid(g.req[0]) && !t.r.memValid && t.r.ridx == 0 && !t.r.ackInput
    requires !t.r.passTdo && t.r.passTdi && g.sent == 0 && t.r.reply == Axis(false, g.req[0], false)
    requires g.cp.pos == 1 && !t.c.running && ReqTaken(t, i) && t'.r == WaitStartedNext(cfg, t, i)
    requires g' == Track(t, i, g)
    requires a == Wanted(cfg, dev, g') == Answer(Fw(Xid(g.req[0]), false, []), [SetErr(g.req[0], ERR_TRUNCATED)],
                                                 S.AllBits(Width(cfg), g.wb))
    requires CoreGoesOn(cfg, dev, t', h', g') && C.Pairs(Width(cfg), FrameOf(g.req)) == 0
    ensures t'.r.state == SendRep && InSendRep(cfg, dev, t', h', g')
  {
    RunsWithData(cfg, dev, t', h', g');
  }

  /** The memory follows the words that leave the core. */
  lemma StoppedMem(cfg: Cfg, t: Top, i: In, t': Top, n: nat, words: seq<Vec>)
    requires TopWf(cfg, t) && InWf(cfg, i) && t.r.state == WaitStopped && Around(cfg, t, i, t')
    requires t'.r == WaitStoppedNext(cfg, t, i) && t.r.passTdo
    requires n < |words| <= |t.mem| && t.r.widx == n && t.mem[..n] == words[..n] && cfg.depth > 0
    requires TdoXfer(t, i) ==> t.c.tdo == words[n]
    ensures var n' := if TdoXfer(t, i) then n + 1 else n;
            && t'.r.widx == n' && t'.mem[..n'] == words[..n']
            && (TdoXfer(t, i) ==> t.r.widx < |t.mem|)
  {
    if TdoXfer(t, i) {
      assert t'.mem[..n + 1] == t.mem[..n] + [words[n]];
    }
  }

  lemma StoppedGlue(cfg: Cfg, dev: Device, t: Top, i: In, g: Work, t': Top, h': S.Hist, g': Work)
    requires WorkOk(cfg, g) && TopWf(cfg, t) && Offers(cfg, g, i) && t.r.state == WaitStopped
    requires Running(cfg, dev, t, g) && t.r.passTdo && !t.r.reply.valid && |g.req| > 2
    requires t.r.passTdi == (g.cp.pos < |g.req|) && g.sent == g.cp.out + 1 && g.cp.out < |Wanted(cfg, dev, g).fw.mem|
    requires TdoXfer(t, i) ==> t.c.tLast == (g.cp.out + 1 == |Wanted(cfg, dev, g).fw.mem|)
    requires Around(cfg, t, i, t') && t'.r == WaitStoppedNext(cfg, t, i) && g' == Track(t, i, g) && WorkOk(cfg, g')
    requires CoreGoesOn(cfg, dev, t', h', g')
    requires cfg.depth > 0 ==> t'.r.widx == g'.cp.out <= |t'.mem|
                               && t'.mem[..g'.cp.out] == Wanted(cfg, dev, g).fw.mem[..g'.cp.out]
    requires t'.c.state == C.Idle <==> LastTdo(t, i)
    ensures Ends(cfg, dev, t', h', g')
  {
    var words := Awaited(cfg, dev, g, g');
    GateFollows(cfg, t, i, g);
    if t'.c.state == C.Idle {
      assert words[..|words|] == words;
      StoppedDone(cfg, dev, t, i, g, t', h', g', words);
    } else {
      StoppedOn(cfg, dev, t, i, g, t', h', g', words);
    }
  }

  /** More words are to come. */
  lemma StoppedOn(cfg: Cfg, dev: Device, t: Top, i: In, g: Work, t': Top, h': S.Hist, g': Work, words: seq<Vec>)
    requires WorkOk(cfg, g) && TopWf(cfg, t) && InWf(cfg, i) && t.r.state == WaitStopped
    requires Running(cfg, dev, t, g) && t.r.passTdo && !t.r.reply.valid && |g.req| > 2 && g.sent == g.cp.out + 1
    requires (t.r.passTdi && !LastTdi(t, i)) == (g'.cp.pos < |g.req|) && !LastTdo(t, i) && g.cp.out < |words|
    requires TdoXfer(t, i) ==> t.c.tLast == (g.cp.out + 1 == |words|)
    requires TopWf(cfg, t') && t'.r == WaitStoppedNext(cfg, t, i) && g' == Track(t, i, g) && WorkOk(cfg, g')
    requires CoreRuns(cfg, dev, t', h', g') && words == Wanted(cfg, dev, g').fw.mem
    requires cfg.depth > 0 ==>
               t'.r.widx == g'.cp.out <= |t'.mem| && g'.cp.out <= |words| && t'.mem[..g'.cp.out] == words[..g'.cp.out]
    ensures t'.r.state == WaitStopped && InWaitStopped(cfg, dev, t', h', g')
  {
  }

  /** What is left when a shift has been run. */
  lemma FinalAnswer(cfg: Cfg, dev: Device, g: Work, g': Work) returns (a: Answer)
    requires WorkOk(cfg, g) && WorkOk(cfg, g') && VerdictOf(cfg, g) == Run && |g.req| > 2
    requires g'.req == g.req && g'.fw == g.fw && g'.wb == g.wb
    ensures a == Wanted(cfg, dev, g') && a.fw == Fw(Xid(g.req[0]), cfg.depth > 0, a.fw.mem)
    ensures |a.reply| == 1 + |a.fw.mem| && |a.fw.mem| == C.Pairs(Width(cfg), FrameOf(g.req)) > 0
    ensures a.hist == S.AllBits(Width(cfg),
                                g.wb + C.Jobs(Width(cfg), FrameOf(g.req), C.Pairs(Width(cfg), FrameOf(g.req))))
  {
    RunFacts(cfg, dev, g);
    a := Wanted(cfg, dev, g);
  }

  /** The last word has left the core. */
  lemma StoppedDone(cfg: Cfg, dev: Device, t: Top, i: In, g: Work, t': Top, h': S.Hist, g': Work, words: seq<Vec>)
    requires WorkOk(cfg, g) && TopWf(cfg, t) && Offers(cfg, g, i) && t.r.state == WaitStopped
    requires Running(cfg, dev, t, g) && t.r.passTdo && !t.r.reply.valid && |g.req| > 2 && g.sent == g.cp.out + 1
    requires (t.r.passTdi && !LastTdi(t, i)) == (Track(t, i, g).cp.pos < |g.req|) && LastTdo(t, i)
    requires Around(cfg, t, i, t') && t'.r == WaitStoppedNext(cfg, t, i) && g' == Track(t, i, g) && WorkOk(cfg, g')
    requires t'.c.state == C.Idle && CoreGoesOn(cfg, dev, t', h', g')
    requires words == Wanted(cfg, dev, g').fw.mem && g'.cp.out == |words|
    requires cfg.depth > 0 ==> t'.r.widx == |words| <= |t'.mem| && t'.mem[..|words|] == words
    ensures Ends(cfg, dev, t', h', g')
  {
    var a := FinalAnswer(cfg, dev, g, g');
  }

  lemma Positions(cfg: Cfg, dev: Device, t: Top, h: S.Hist, g: Work)
    requires TopWf(cfg, t) && WorkOk(cfg, g) && VerdictOf(cfg, g) == Run && CoreRuns(cfg, dev, t, h, g)
    ensures t.c.running == (g.cp.pos >= 2) && g.cp.pos >= 1
  {
    RunFacts(cfg, dev, g);
    P.BusyPos(Width(cfg), cfg.d, dev, FrameOf(g.req), g.wb, t.c, t.s, h,
              C.In(false, t.memOut, false, false), g.cp);
  }

  /** One clock of a core inside its frame, summed up for the FSM around it. */
  lemma CoreClockSummary(cfg: Cfg, dev: Device, t: Top, h: S.Hist, i: In, g: Work, t': Top, h': S.Hist)
    requires TopWf(cfg, t) && WorkOk(cfg, g) && VerdictOf(cfg, g) == Run && CoreRuns(cfg, dev, t, h, g)
    requires Offers(cfg, g, i) && TdoOk(dev, t, i, h) && !t.r.ackInput
    requires Clocked(cfg, t, h, i, t', h')
    ensures t.c.running == (g.cp.pos >= 2) && g.cp.pos >= 1 && |g.req| >= 2
    ensures WorkOk(cfg, Track(t, i, g))
    ensures CoreGoesOn(cfg, dev, t', h', Track(t, i, g))
  {
    RunFacts(cfg, dev, g);
    Positions(cfg, dev, t, h, g);
    CoreClock(cfg, dev, t, h, i, g, t', h');
    if t'.c.state != C.Idle {
      Positions(cfg, dev, t', h', Track(t, i, g));
    }
  }

  lemma CoreEndsWithLastWord(cfg: Cfg, dev: Device, t: Top, h: S.Hist, i: In, g: Work, t': Top, h': S.Hist)
    requires TopWf(cfg, t) && WorkOk(cfg, g) && VerdictOf(cfg, g) == Run && CoreRuns(cfg, dev, t, h, g) && |g.req| > 2
    requires Offers(cfg, g, i)
    requires Clocked(cfg, t, h, i, t', h')
    ensures t'.c.state == C.Idle <==> LastTdo(t, i)
  {
    RunFacts(cfg, dev, g);
    Positions(cfg, dev, t, h, g);
    P.BusyEnds(Width(cfg), cfg.d, dev, FrameOf(g.req), g.wb, t.c, t.s, h, CoreIn(t, i), g.cp);
  }

  lemma WaitHdrReadyStep(cfg: Cfg, dev: Device, t: Top, h: S.Hist, i: In, g: Work, t': Top, h': S.Hist)
    requires Working(cfg, dev, t, h, g) && Offers(cfg, g, i) && TdoOk(dev, t, i, h) && t.r.state == WaitHdrReady
    requires Clocked(cfg, t, h, i, t', h')
    ensures Ends(cfg, dev, t', h', Track(t, i, g))
  {
    CoreClockSummary(cfg, dev, t, h, i, g, t', h');
    HdrReadyGlue(cfg, dev, t, i, g, t', h', Track(t, i, g));
  }

  /** The header or the first TMS word is about to reach the core. */
  lemma WaitStartedRest(cfg: Cfg, dev: Device, t: Top, h: S.Hist, i: In, g: Work, t': Top, h': S.Hist)
    requires Working(cfg, dev, t, h, g) && Offers(cfg, g, i) && TdoOk(dev, t, i, h) && t.r.state == WaitStarted
    requires g.cp.pos == 0
    requires Clocked(cfg, t, h, i, t', h')
    ensures Ends(cfg, dev, t', h', Track(t, i, g))
  {
    RunFacts(cfg, dev, g);
    if ReqTaken(t, i) {
      HeaderTaken(cfg, dev, t, h, i, g, t', h');
      BeforeStart(cfg, dev, t, i, g, t', h', Track(t, i, g));
    } else {
      P.RestStep(Width(cfg), cfg.d, dev, t.c, t.s, h, CoreIn(t, i), i.tdo);
      BeforeStart(cfg, dev, t, i, g, t', h', Track(t, i, g));
    }
  }

  /** The core gets the header and is inside its frame. */
  lemma HeaderTaken(cfg: Cfg, dev: Device, t: Top, h: S.Hist, i: In, g: Work, t': Top, h': S.Hist)
    requires TopWf(cfg, t) && WorkOk(cfg, g) && InWaitStarted(cfg, dev, t, h, g) && g.cp.pos == 0 && ReqTaken(t, i)
    requires Offers(cfg, g, i) && TdoOk(dev, t, i, h) && |g.req| >= 2 && C.FrameOk(Width(cfg), FrameOf(g.req))
    requires C.Clean(Width(cfg), FrameOf(g.req)) || C.Stillborn(FrameOf(g.req))
    requires Clocked(cfg, t, h, i, t', h')
    ensures var g' := Track(t, i, g);
            g'.cp == C.Progress(1, 0, 0) && CoreRuns(cfg, dev, t', h', g') && h'.jobs == g.wb && |h'.outs| == |h'.jobs|
  {
    P.RestStep(Width(cfg), cfg.d, dev, t.c, t.s, h, CoreIn(t, i), i.tdo);
    var c', s', k' := P.FrameBegins(Width(cfg), cfg.d, dev, FrameOf(g.req), t.c, t.s, h, CoreIn(t, i), i.tdo);
  }

  /** The FSM waits until the core has started. */
  lemma BeforeStart(cfg: Cfg, dev: Device, t: Top, i: In, g: Work, t': Top, h': S.Hist, g': Work)
    requires TopWf(cfg, t) && WorkOk(cfg, g) && t.r.state == WaitStarted && Offers(cfg, g, i)
    requires g.cp == C.Progress(0, 0, 0)
    requires Running(cfg, dev, t, g) && !t.r.passTdo && t.r.passTdi && t.r.widx == 0 && g.sent == 0 && !t.c.running
    requires t.r.reply == Axis(false, g.req[0], false) && |g.req| >= 2
    requires TopWf(cfg, t') && t'.r == WaitStartedNext(cfg, t, i) && g' == Track(t, i, g) && g'.cp.out == 0
    requires if ReqTaken(t, i) then g'.cp == C.Progress(1, 0, 0) && CoreRuns(cfg, dev, t', h', g')
             else g'.cp == g.cp && CoreRests(cfg, dev, t', h', g.wb)
    ensures t'.r.state == WaitStarted && Ends(cfg, dev, t', h', g')
  {
  }

  lemma StartedPosition(cfg: Cfg, dev: Device, t: Top, h: S.Hist, g: Work)
    requires TopWf(cfg, t) && WorkOk(cfg, g) && t.r.state == WaitStarted && InWaitStarted(cfg, dev, t, h, g)
    requires g.cp.pos > 0
    ensures CoreRuns(cfg, dev, t, h, g) && g.cp.pos <= 2 && g.cp.pos < |g.req|
    ensures !t.c.running ==> t.c.state == C.GetTms
  {
    P.BusyStart(Width(cfg), cfg.d, dev, FrameOf(g.req), g.wb, t.c, t.s, h, g.cp);
  }

  lemma WaitStartedBusy(cfg: Cfg, dev: Device, t: Top, h: S.Hist, i: In, g: Work, t': Top, h': S.Hist)
    requires Working(cfg, dev, t, h, g) && Offers(cfg, g, i) && TdoOk(dev, t, i, h) && t.r.state == WaitStarted
    requires g.cp.pos > 0
    requires Clocked(cfg, t, h, i, t', h')
    ensures Ends(cfg, dev, t', h', Track(t, i, g))
  {
    StartedPosition(cfg, dev, t, h, g);
    CoreClockSummary(cfg, dev, t, h, i, g, t', h');
    StartedGlue(cfg, dev, t, i, g, t', h', Track(t, i, g));
  }

  lemma WaitStoppedStep(cfg: Cfg, dev: Device, t: Top, h: S.Hist, i: In, g: Work, t': Top, h': S.Hist)
    requires Working(cfg, dev, t, h, g) && Offers(cfg, g, i) && TdoOk(dev, t, i, h) && t.r.state == WaitStopped
    requires Clocked(cfg, t, h, i, t', h')
    ensures Ends(cfg, dev, t', h', Track(t, i, g))
  {
    var words := WordsRecorded(cfg, dev, t, h, i, g, t', h');
    CoreClockSummary(cfg, dev, t, h, i, g, t', h');
    CoreEndsWithLastWord(cfg, dev, t, h, i, g, t', h');
    StoppedGlue(cfg, dev, t, i, g, t', h', Track(t, i, g));
  }

  /** The words that left the core so far are in the memory. */
  lemma WordsRecorded(cfg: Cfg, dev: Device, t: Top, h: S.Hist, i: In, g: Work, t': Top,
                      h': S.Hist) returns (words: seq<Vec>)
    requires TopWf(cfg, t) && WorkOk(cfg, g) && t.r.state == WaitStopped && InWaitStopped(cfg, dev, t, h, g)
    requires Clocked(cfg, t, h, i, t', h')
    ensures words == Wanted(cfg, dev, g).fw.mem && g.cp.out < |words|
    ensures TdoXfer(t, i) ==> t.c.tLast == (g.cp.out + 1 == |words|)
    ensures var n := Track(t, i, g).cp.out;
            n <= |words| && (cfg.depth > 0 ==> t'.r.widx == n <= |t'.mem| && t'.mem[..n] == words[..n])
  {
    words := Wanted(cfg, dev, g).fw.mem;
    RunFacts(cfg, dev, g);
    if TdoXfer(t, i) { CoreWord(cfg, dev, t, h, i, g); }
    if cfg.depth > 0 { StoppedMem(cfg, t, i, t', g.cp.out, words); }
  }

  // ---- the whole clock ----

  /** Every clock inside a request keeps the invariant or finishes the request as it should. */
  lemma WorkStep(cfg: Cfg, dev: Device, t: Top, h: S.Hist, i: In, g: Work, t': Top, h': S.Hist)
    requires Working(cfg, dev, t, h, g) && Offers(cfg, g, i) && TdoOk(dev, t, i, h)
    requires Clocked(cfg, t, h, i, t', h')
    ensures Ends(cfg, dev, t', h', Track(t, i, g))
  {
    match t.r.state
    case SendRep => SendRepStep(cfg, dev, t, h, i, g, t', h');
    case WaitStarted =>
      if g.cp.pos == 0 {
        WaitStartedRest(cfg, dev, t, h, i, g, t', h');
      } else {
        WaitStartedBusy(cfg, dev, t, h, i, g, t', h');
      }
    case WaitHdrReady => WaitHdrReadyStep(cfg, dev, t, h, i, g, t', h');
    case WaitStopped => WaitStoppedStep(cfg, dev, t, h, i, g, t', h');
    case Replay => ReplayStep(cfg, dev, t, h, i, g, t', h');
  }

  /** A fresh request, nothing consumed yet. */
  function Fresh(req: seq<Vec>, fw: Fw, wb: seq<S.Job>): Work {
    Work(req, fw, wb, C.Progress(0, 0, 0), 0, false)
  }

  /** Without a request nothing happens between requests. */
  lemma RestStep(cfg: Cfg, dev: Device, t: Top, h: S.Hist, i: In, fw: Fw, t': Top, h': S.Hist)
    requires TopRest(cfg, dev, t, h, fw) && InWf(cfg, i) && TdoOk(dev, t, i, h) && !i.req.valid
    requires Clocked(cfg, t, h, i, t', h')
    ensures TopRest(cfg, dev, t', h', fw)
    ensures h'.jobs == h.jobs && !Absorbs(t, i)
  {
    CoreStaysAtRest(cfg, dev, t, h, i, h.jobs, t', h');
  }

  /** A header on offer is classified; it is consumed later. */
  predicate Begins(cfg: Cfg, dev: Device, t: Top, i: In, g: Work, t': Top, h': S.Hist) {
    && TopWf(cfg, t) && t.r.state == Idle && WorkOk(cfg, g) && i.req.valid && InWf(cfg, i)
    && g == Fresh(g.req, g.fw, g.wb) && i.req.data == g.req[0] && i.req.last == (|g.req| == 1)
    && !t.r.reply.valid && !t.r.ackInput && !t.r.passTdo && !t.r.passTdi && t.r.ridx == 0 && Memory(cfg, t, g.fw)
    && TopWf(cfg, t') && t'.r == IdleNext(cfg, t.r, i) && t'.mem == t.mem && t'.memOut == NextMemOut(t, i)
    && CoreRests(cfg, dev, t', h', g.wb)
  }

  lemma BeginReplay(cfg: Cfg, dev: Device, t: Top, i: In, g: Work, t': Top, h': S.Hist)
    requires Begins(cfg, dev, t, i, g, t', h') && VerdictOf(cfg, g) == Retry
    ensures t'.r.state == Replay && InReplay(cfg, dev, t', h', g.(held := true))
  {
    assert Classify(cfg, Fw(t.r.xid, t.r.memValid, []), g.req[0], i.req.last) == Retry;
    assert g.fw.memValid;
    assert t.mem[0] == t.mem[..|g.fw.mem|][0];
  }

  lemma BeginRun(cfg: Cfg, dev: Device, t: Top, i: In, g: Work, t': Top, h': S.Hist)
    requires Begins(cfg, dev, t, i, g, t', h') && VerdictOf(cfg, g) == Run
    ensures t'.r.state == WaitStarted && InWaitStarted(cfg, dev, t', h', g.(held := true))
  {
    assert Classify(cfg, Fw(t.r.xid, t.r.memValid, []), g.req[0], i.req.last) == Run;
  }

  lemma BeginReply(cfg: Cfg, dev: Device, t: Top, i: In, g: Work, t': Top, h': S.Hist)
    requires Begins(cfg, dev, t, i, g, t', h') && VerdictOf(cfg, g) != Run && VerdictOf(cfg, g) != Retry
    ensures t'.r.state == SendRep && InSendRep(cfg, dev, t', h', g.(held := true))
  {
    assert Classify(cfg, Fw(t.r.xid, t.r.memValid, []), g.req[0], i.req.last) == VerdictOf(cfg, g);
    assert Wanted(cfg, dev, g.(held := true)) == Wanted(cfg, dev, g);
  }

  lemma BeginRegs(cfg: Cfg, dev: Device, t: Top, i: In, g: Work, t': Top, h': S.Hist)
    requires Begins(cfg, dev, t, i, g, t', h')
    ensures t'.r.state != Idle && Working(cfg, dev, t', h', g.(held := true))
  {
    match VerdictOf(cfg, g)
    case Run => BeginRun(cfg, dev, t, i, g, t', h');
    case Retry => BeginReplay(cfg, dev, t, i, g, t', h');
    case _ => BeginReply(cfg, dev, t, i, g, t', h');
  }

  lemma BeginStep(cfg: Cfg, dev: Device, t: Top, h: S.Hist, i: In, g: Work, t': Top, h': S.Hist)
    requires TopRest(cfg, dev, t, h, g.fw) && WorkOk(cfg, g) && g == Fresh(g.req, g.fw, h.jobs)
    requires Offers(cfg, g, i) && TdoOk(dev, t, i, h) && i.req.valid
    requires Clocked(cfg, t, h, i, t', h')
    ensures t'.r.state != Idle
    ensures Working(cfg, dev, t', h', g.(held := true))
    ensures !Absorbs(t, i)
  {
    CoreStaysAtRest(cfg, dev, t, h, i, h.jobs, t', h');
    BeginRegs(cfg, dev, t, i, g, t', h');
  }

  lemma AbsorbedTdo(cfg: Cfg, dev: Device, t: Top, h: S.Hist, i: In, g: Work)
    requires TopWf(cfg, t) && WorkOk(cfg, g) && t.r.state == WaitStopped && InWaitStopped(cfg, dev, t, h, g)
    requires Absorbs(t, i)
    ensures var a := Wanted(cfg, dev, g);
            g.sent < |a.reply| && Absorbed(t) == Axis(true, a.reply[g.sent], g.sent == |a.reply| - 1)
  {
    RunFacts(cfg, dev, g);
    CoreWord(cfg, dev, t, h, i, g);
  }

  /** Each word the selector takes is the next word of the wanted reply, the last one with TLAST. */
  lemma AbsorbedWord(cfg: Cfg, dev: Device, t: Top, h: S.Hist, i: In, g: Work)
    requires Working(cfg, dev, t, h, g) && Absorbs(t, i)
    ensures var a := Wanted(cfg, dev, g);
            g.sent < |a.reply| && Absorbed(t) == Axis(true, a.reply[g.sent], g.sent == |a.reply| - 1)
  {
    match t.r.state
    case WaitStopped => AbsorbedTdo(cfg, dev, t, h, i, g);
    case WaitHdrReady => RunFacts(cfg, dev, g);
    case _ =>
  }
}
