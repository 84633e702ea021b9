// Whole runs of the clocked design from reset: a stream of framed requests in, a stream of framed replies out.

module AxisRun {
  import opened Bits
  import opened Jtag
  import S = SerDes
  import C = Core
  import opened Firmware
  import opened AxisToJtag
  import opened AxisProof

  // ---- what the run has to amount to ----

  /** Firmware state, target history and reply stream after a list of requests, served one by one. */
  datatype Served = Served(fw: Fw, hist: seq<Pin>, out: seq<Axis>)

  predicate RequestsOk(cfg: Cfg, reqs: seq<seq<Vec>>) {
    CfgOk(cfg) && forall k :: 0 <= k < |reqs| ==> RequestOk(cfg, reqs[k])
  }

  /** A message as a stream: TLAST marks its last word. */
  function Framed(msg: seq<Vec>): (s: seq<Axis>)
    ensures |s| == |msg|
  {
    seq(|msg|, k requires 0 <= k < |msg| => Axis(true, msg[k], k == |msg| - 1))
  }

  function ServeAll(cfg: Cfg, dev: Device, reqs: seq<seq<Vec>>): Served
    requires RequestsOk(cfg, reqs)
  {
    if reqs == [] then Served(POWER_UP, [], [])
    else
      var z := ServeAll(cfg, dev, reqs[..|reqs| - 1]);
      var a := Serve(cfg, dev, z.hist, z.fw, reqs[|reqs| - 1]);
      Served(a.fw, a.hist, z.out + Framed(a.reply))
  }

  predicate AllAdmissible(cfg: Cfg, dev: Device, reqs: seq<seq<Vec>>)
    requires RequestsOk(cfg, reqs)
  {
    forall n :: 0 <= n < |reqs| ==> AdmissibleAt(cfg, dev, reqs, n)
  }

  predicate AdmissibleAt(cfg: Cfg, dev: Device, reqs: seq<seq<Vec>>, n: nat)
    requires RequestsOk(cfg, reqs) && n < |reqs|
  {
    Admissible(cfg, ServeAll(cfg, dev, reqs[..n]).fw, reqs[n])
  }

  // ---- runs ----

  /**
   The design with its surroundings: word `pos` of request `n` is next at the request port, which is `held` when it
   was offered but not accepted; `sink` is what the receiver of the reply stream has taken.
   */
  datatype Sim = Sim(t: Top, h: S.Hist, n: nat, pos: nat, held: bool, sink: seq<Axis>)

  predicate SimWf(cfg: Cfg, z: Sim) { TopWf(cfg, z.t) }

  /** Everything as after reset; the contents of the memory are arbitrary. */
  predicate AtReset(cfg: Cfg, z: Sim) {
    && TopWf(cfg, z.t)
    && z == Sim(Top(InitReg(Width(cfg)), Axis(false, Zeros(Width(cfg)), false), z.t.mem, z.t.memOut,
                    C.Init(Width(cfg)), S.Init(Width(cfg))),
                S.NOTHING, 0, 0, false, [])
  }

  /** The request stream is offered in order and words are not withdrawn; TDO is the target's. */
  predicate EnvOk(cfg: Cfg, dev: Device, reqs: seq<seq<Vec>>, z: Sim, i: In) {
    && InWf(cfg, i) && TdoOk(dev, z.t, i, z.h)
    && (z.held ==> i.req.valid)
    && (i.req.valid ==>
          && z.n < |reqs| && z.pos < |reqs[z.n]|
          && i.req.data == reqs[z.n][z.pos] && i.req.last == (z.pos == |reqs[z.n]| - 1))
  }

  function Tick(cfg: Cfg, z: Sim, i: In): (z': Sim)
    requires SimWf(cfg, z) && InWf(cfg, i)
    ensures SimWf(cfg, z')
  {
    var taken := ReqTaken(z.t, i);
    Sim(Next(cfg, z.t, i), NextHist(cfg, z.t, i, z.h),
        if taken && i.req.last then z.n + 1 else z.n,
        if !taken then z.pos else if i.req.last then 0 else z.pos + 1,
        i.req.valid && !ReqReady(z.t),
        if z.t.buf.valid && i.ready then z.sink + [z.t.buf] else z.sink)
  }

  /** Clock `k` of a run. */
  predicate ClockOf(cfg: Cfg, dev: Device, reqs: seq<seq<Vec>>, zs: seq<Sim>, ins: seq<In>, k: nat) {
    && k < |ins| && k + 1 < |zs|
    && SimWf(cfg, zs[k]) && EnvOk(cfg, dev, reqs, zs[k], ins[k]) && zs[k + 1] == Tick(cfg, zs[k], ins[k])
  }

  /** A run: from reset, clock by clock, with surroundings that behave. */
  predicate IsRun(cfg: Cfg, dev: Device, reqs: seq<seq<Vec>>, zs: seq<Sim>, ins: seq<In>) {
    |zs| == |ins| + 1 && AtReset(cfg, zs[0]) && forall k :: 0 <= k < |ins| ==> ClockOf(cfg, dev, reqs, zs, ins, k)
  }

  /** What has left the design or waits in the selector's buffer. */
  function Sent(z: Sim): seq<Axis> {
    z.sink + (if z.t.buf.valid then [z.t.buf] else [])
  }

  // ---- invariant ----

  predicate Ready(cfg: Cfg, dev: Device, reqs: seq<seq<Vec>>) {
    RequestsOk(cfg, reqs) && AllAdmissible(cfg, dev, reqs)
  }

  predicate Between(cfg: Cfg, dev: Device, reqs: seq<seq<Vec>>, z: Sim)
    requires Ready(cfg, dev, reqs)
  {
    && z.n <= |reqs| && z.pos == 0
    && var a := ServeAll(cfg, dev, reqs[..z.n]);
       && TopRest(cfg, dev, z.t, z.h, a.fw) && S.AllBits(Width(cfg), z.h.jobs) == a.hist
       && Sent(z) == a.out
  }

  /** Inside request `m`; its reply may still be on its way out when the next one is on offer already. */
  predicate Inside(cfg: Cfg, dev: Device, reqs: seq<seq<Vec>>, z: Sim, m: nat, g: Work)
    requires Ready(cfg, dev, reqs)
  {
    && m < |reqs| && g.req == reqs[m] && Working(cfg, dev, z.t, z.h, g) && z.held == g.held
    && (if g.cp.pos < |g.req| then z.n == m && z.pos == g.cp.pos else z.n == m + 1 && z.pos == 0)
    && var a := ServeAll(cfg, dev, reqs[..m]);
       && g.fw == a.fw && S.AllBits(Width(cfg), g.wb) == a.hist
       && g.sent <= |Wanted(cfg, dev, g).reply|
       && Sent(z) == a.out + Framed(Wanted(cfg, dev, g).reply)[..g.sent]
  }

  ghost predicate RunInv(cfg: Cfg, dev: Device, reqs: seq<seq<Vec>>, z: Sim)
    requires Ready(cfg, dev, reqs)
  {
    if z.t.r.state == Idle then Between(cfg, dev, reqs, z) else exists m, g :: Inside(cfg, dev, reqs, z, m, g)
  }

  /** The selector neither loses nor repeats a word. */
  lemma SelectorStep(cfg: Cfg, z: Sim, i: In)
    requires SimWf(cfg, z) && InWf(cfg, i)
    ensures Sent(Tick(cfg, z, i)) == Sent(z) + (if Absorbs(z.t, i) then [Absorbed(z.t)] else [])
  {
  }

  lemma ServeNext(cfg: Cfg, dev: Device, reqs: seq<seq<Vec>>, m: nat)
    requires RequestsOk(cfg, reqs) && m < |reqs|
    ensures var z := ServeAll(cfg, dev, reqs[..m]);
            var a := Serve(cfg, dev, z.hist, z.fw, reqs[m]);
            ServeAll(cfg, dev, reqs[..m + 1]) == Served(a.fw, a.hist, z.out + Framed(a.reply))
  {
    assert reqs[..m + 1][..m] == reqs[..m];
  }

  /** Between requests, without one on offer. */
  lemma RestTick(cfg: Cfg, dev: Device, reqs: seq<seq<Vec>>, z: Sim, i: In, z': Sim)
    requires Ready(cfg, dev, reqs) && z.t.r.state == Idle && Between(cfg, dev, reqs, z) && EnvOk(cfg, dev, reqs, z, i)
    requires SimWf(cfg, z) && z' == Tick(cfg, z, i) && !i.req.valid
    ensures z'.t.r.state == Idle && z'.n == z.n && Between(cfg, dev, reqs, z')
  {
    SelectorStep(cfg, z, i);
    var t', h' := NextClocks(cfg, z.t, z.h, i);
    RestStep(cfg, dev, z.t, z.h, i, ServeAll(cfg, dev, reqs[..z.n]).fw, t', h');
  }

  /** A request begins. */
  lemma BeginTick(cfg: Cfg, dev: Device, reqs: seq<seq<Vec>>, z: Sim, i: In, z': Sim) returns (g: Work)
    requires Ready(cfg, dev, reqs) && z.t.r.state == Idle && Between(cfg, dev, reqs, z) && EnvOk(cfg, dev, reqs, z, i)
    requires SimWf(cfg, z) && z' == Tick(cfg, z, i) && i.req.valid
    ensures z'.t.r.state != Idle && Inside(cfg, dev, reqs, z', z.n, g) && g.cp.pos == 0 && g.sent == 0
  {
    var a := ServeAll(cfg, dev, reqs[..z.n]);
    SelectorStep(cfg, z, i);
    g := Fresh(reqs[z.n], a.fw, z.h.jobs);
    assert AdmissibleAt(cfg, dev, reqs, z.n);
    var t', h' := NextClocks(cfg, z.t, z.h, i);
    BeginStep(cfg, dev, z.t, z.h, i, g, t', h');
    assert Framed(Wanted(cfg, dev, g).reply)[..0] == [];
    g := g.(held := true);
  }

  /** Where the request stream stands, across one clock inside request `m`. */
  lemma StreamStep(cfg: Cfg, dev: Device, reqs: seq<seq<Vec>>, z: Sim, i: In, m: nat, g: Work)
    requires Ready(cfg, dev, reqs) && Inside(cfg, dev, reqs, z, m, g) && EnvOk(cfg, dev, reqs, z, i)
    requires Track(z.t, i, g).cp.pos <= |g.req|
    ensures var z' := Tick(cfg, z, i);
            var g' := Track(z.t, i, g);
            && z'.held == g'.held
            && (if g'.cp.pos < |g.req| then z'.n == m && z'.pos == g'.cp.pos else z'.n == m + 1 && z'.pos == 0)
  {
  }

  lemma PrefixGrows<T>(a: seq<T>, s: seq<T>, n: nat)
    requires n < |s|
    ensures (a + s[..n]) + [s[n]] == a + s[..n + 1]
  {
  }

  lemma PrefixWithin<T>(a: seq<T>, s: seq<T>, n: nat, b: seq<T>)
    requires n <= |s| && a + s <= b
    ensures a + s[..n] <= b
  {
    assert b[..|a| + n] == (a + s)[..|a| + n] == a + s[..n];
  }

  /** What the reply stream gains, across one clock inside request `m`. */
  lemma ReplyStep(cfg: Cfg, dev: Device, reqs: seq<seq<Vec>>, z: Sim, i: In, m: nat, g: Work)
    requires Ready(cfg, dev, reqs) && Inside(cfg, dev, reqs, z, m, g) && InWf(cfg, i)
    ensures var z' := Tick(cfg, z, i);
            var g' := Track(z.t, i, g);
            var a := ServeAll(cfg, dev, reqs[..m]);
            && g'.sent <= |Wanted(cfg, dev, g).reply|
            && Sent(z') == a.out + Framed(Wanted(cfg, dev, g).reply)[..g'.sent]
  {
    SelectorStep(cfg, z, i);
    if Absorbs(z.t, i) {
      var w := NextWord(cfg, dev, z.t, z.h, i, g);
      PrefixGrows(ServeAll(cfg, dev, reqs[..m]).out, Framed(Wanted(cfg, dev, g).reply), g.sent);
    }
  }

  /** The word that is absorbed is the next one of the framed reply. */
  lemma NextWord(cfg: Cfg, dev: Device, t: Top, h: S.Hist, i: In, g: Work) returns (w: Axis)
    requires Working(cfg, dev, t, h, g) && Absorbs(t, i)
    ensures w == Absorbed(t) && g.sent < |Wanted(cfg, dev, g).reply| && Framed(Wanted(cfg, dev, g).reply)[g.sent] == w
  {
    AbsorbedWord(cfg, dev, t, h, i, g);
    w := Absorbed(t);
  }

  /** Request `m` is done. */
  lemma WorkEnds(cfg: Cfg, dev: Device, reqs: seq<seq<Vec>>, z': Sim, m: nat, g': Work)
    requires Ready(cfg, dev, reqs) && m < |reqs| && g'.req == reqs[m] && Done(cfg, dev, z'.t, z'.h, g')
    requires z'.n == m + 1 && z'.pos == 0
    requires var a := ServeAll(cfg, dev, reqs[..m]);
             && g'.fw == a.fw && S.AllBits(Width(cfg), g'.wb) == a.hist && g'.sent <= |Wanted(cfg, dev, g').reply|
             && Sent(z') == a.out + Framed(Wanted(cfg, dev, g').reply)[..g'.sent]
    ensures Between(cfg, dev, reqs, z')
  {
    ServeNext(cfg, dev, reqs, m);
    var s := Framed(Wanted(cfg, dev, g').reply);
    assert s[..|s|] == s;
  }

  lemma WorkTick(cfg: Cfg, dev: Device, reqs: seq<seq<Vec>>, z: Sim, i: In, m: nat, g: Work)
    requires Ready(cfg, dev, reqs) && Inside(cfg, dev, reqs, z, m, g) && EnvOk(cfg, dev, reqs, z, i)
    ensures var z' := Tick(cfg, z, i);
            if z'.t.r.state == Idle then z'.n == m + 1 && Between(cfg, dev, reqs, z')
            else Inside(cfg, dev, reqs, z', m, Track(z.t, i, g))
  {
    var g' := Track(z.t, i, g);
    var t', h' := NextClocks(cfg, z.t, z.h, i);
    WorkStep(cfg, dev, z.t, z.h, i, g, t', h');
    StreamStep(cfg, dev, reqs, z, i, m, g);
    ReplyStep(cfg, dev, reqs, z, i, m, g);
    assert Wanted(cfg, dev, g') == Wanted(cfg, dev, g);
    if Tick(cfg, z, i).t.r.state == Idle {
      WorkEnds(cfg, dev, reqs, Tick(cfg, z, i), m, g');
    } else {
      assert Inside(cfg, dev, reqs, Tick(cfg, z, i), m, g');
    }
  }

  lemma StartsBetween(cfg: Cfg, dev: Device, reqs: seq<seq<Vec>>, z: Sim)
    requires Ready(cfg, dev, reqs) && AtReset(cfg, z)
    ensures z.t.r.state == Idle && z.n == 0 && Between(cfg, dev, reqs, z)
  {
    S.InitInv(Width(cfg), cfg.d, dev);
    assert reqs[..0] == [];
  }

  lemma ClockKeepsInv(cfg: Cfg, dev: Device, reqs: seq<seq<Vec>>, zs: seq<Sim>, ins: seq<In>, k: nat, z': Sim)
    requires Ready(cfg, dev, reqs) && ClockOf(cfg, dev, reqs, zs, ins, k) && RunInv(cfg, dev, reqs, zs[k])
    requires z' == zs[k + 1]
    ensures RunInv(cfg, dev, reqs, z')
  {
    var z, i := zs[k], ins[k];
    if z.t.r.state == Idle {
      if i.req.valid {
        var g := BeginTick(cfg, dev, reqs, z, i, z');
      } else {
        RestTick(cfg, dev, reqs, z, i, z');
      }
    } else {
      var m, g :| Inside(cfg, dev, reqs, z, m, g);
      WorkTick(cfg, dev, reqs, z, i, m, g);
    }
  }

  lemma NextKeepsInv(cfg: Cfg, dev: Device, reqs: seq<seq<Vec>>, zs: seq<Sim>, ins: seq<In>, j: nat, z': Sim)
    requires Ready(cfg, dev, reqs) && IsRun(cfg, dev, reqs, zs, ins) && j < |ins| && z' == zs[j + 1]
    ensures RunInv(cfg, dev, reqs, z')
    decreases j, 1
  {
    RunKeepsInv(cfg, dev, reqs, zs, ins, j);
    assert ClockOf(cfg, dev, reqs, zs, ins, j);
    ClockKeepsInv(cfg, dev, reqs, zs, ins, j, z');
  }

  lemma {:induction false} RunKeepsInv(cfg: Cfg, dev: Device, reqs: seq<seq<Vec>>, zs: seq<Sim>, ins: seq<In>, k: nat)
    requires Ready(cfg, dev, reqs) && IsRun(cfg, dev, reqs, zs, ins) && k < |zs|
    ensures RunInv(cfg, dev, reqs, zs[k])
    decreases k, 0
  {
    if k == 0 {
      StartsBetween(cfg, dev, reqs, zs[0]);
    } else {
      NextKeepsInv(cfg, dev, reqs, zs, ins, k - 1, zs[k]);
    }
  }

  // ---- main results ----

  lemma {:induction false} OutGrows(cfg: Cfg, dev: Device, reqs: seq<seq<Vec>>, m: nat)
    requires RequestsOk(cfg, reqs) && m <= |reqs|
    ensures ServeAll(cfg, dev, reqs[..m]).out <= ServeAll(cfg, dev, reqs).out
    decreases |reqs| - m
  {
    if m == |reqs| {
      assert reqs[..m] == reqs;
    } else {
      OutGrows(cfg, dev, reqs, m + 1);
      ServeNext(cfg, dev, reqs, m);
    }
  }

  lemma InsideWithin(cfg: Cfg, dev: Device, reqs: seq<seq<Vec>>, z: Sim, m: nat, g: Work)
    requires Ready(cfg, dev, reqs) && Inside(cfg, dev, reqs, z, m, g)
    ensures Sent(z) <= ServeAll(cfg, dev, reqs).out
  {
    ServeNext(cfg, dev, reqs, m);
    OutGrows(cfg, dev, reqs, m + 1);
    PrefixWithin(ServeAll(cfg, dev, reqs[..m]).out, Framed(Wanted(cfg, dev, g).reply), g.sent,
                 ServeAll(cfg, dev, reqs).out);
  }

  /**
   Every run: whatever the stalls on both streams, the clock divider and the target are, what the receiver gets is the
   beginning of the replies to the requests served one by one, framed and in order; nothing is lost, repeated or mixed.
   */
  lemma RepliesInOrder(cfg: Cfg, dev: Device, reqs: seq<seq<Vec>>, zs: seq<Sim>, ins: seq<In>, k: nat)
    requires Ready(cfg, dev, reqs) && IsRun(cfg, dev, reqs, zs, ins) && k < |zs|
    ensures Sent(zs[k]) <= ServeAll(cfg, dev, reqs).out
  {
    var y := zs[k];
    RunKeepsInv(cfg, dev, reqs, zs, ins, k);
    if y.t.r.state == Idle {
      OutGrows(cfg, dev, reqs, y.n);
    } else {
      var m, g :| Inside(cfg, dev, reqs, y, m, g);
      InsideWithin(cfg, dev, reqs, y, m, g);
    }
  }

  /**
   Whenever the design is back in its idle state, it stands at a frame boundary: the requests consumed so far are
   answered completely, the target saw exactly their shifts, and the replay memory holds what it should.
   */
  lemma IdleMeansServed(cfg: Cfg, dev: Device, reqs: seq<seq<Vec>>, zs: seq<Sim>, ins: seq<In>, k: nat)
    requires Ready(cfg, dev, reqs) && IsRun(cfg, dev, reqs, zs, ins) && k < |zs| && zs[k].t.r.state == Idle
    ensures var y := zs[k];
            && y.n <= |reqs| && y.pos == 0
            && var a := ServeAll(cfg, dev, reqs[..y.n]);
               Sent(y) == a.out && y.h.edges == a.hist && Memory(cfg, y.t, a.fw)
  {
    RunKeepsInv(cfg, dev, reqs, zs, ins, k);
  }
}
