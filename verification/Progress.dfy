// The core and its serialiser do not get stuck: a rank that no clock raises, and that falls in every clock in which the
// next request word is there and the reply can leave.

module Progress {
  import opened Arith
  import opened Jtag
  import H = Header
  import S = SerDes
  import opened Core
  import opened CoreProof

  // ---- the serialiser ----

  /** Clocks for `n` periods of TCK. */
  function Span(d: nat, n: nat): nat { 2 * (d * n) }

  lemma SpanSucc(d: nat, n: nat)
    ensures Span(d, n + 1) == Span(d, n) + 2 * d
  {
  }

  /** Clocks until the serialiser is empty, if its words are taken. */
  function SerRank(w: nat, d: nat, s: S.Reg): nat
    requires S.Wf(w, d, s)
  {
    match s.state
    case Idle => if s.oValid then 1 else 0
    case Shift => 2 + s.div + if s.tck then d + Span(d, s.cnt) else Span(d, s.cnt + 1)
    case Wai => 2 + Span(d, s.cnt + 1)
  }

  /** The serialiser has a finished word that it cannot get rid of. */
  predicate Blocked(s: S.Reg, ready: bool) {
    !ready && (s.state == S.Wai || (s.state == S.Shift && s.div == 0 && !s.tck && s.lastBit))
  }

  /** Clocks that a word of `n` bits adds at most, and one more. */
  function PairWeight(n: nat, d: nat): nat { Span(d, n) + d + 2 }

  lemma SerGoesOn(w: nat, d: nat, s: S.Reg, i: S.In)
    requires S.Wf(w, d, s) && d > 0 && S.InWf(w, i) && !S.Takes(s, i)
    ensures var v := S.Next(w, d, s, i);
            if SerRank(w, d, s) == 0 || Blocked(s, i.ready) then SerRank(w, d, v) == SerRank(w, d, s)
            else SerRank(w, d, v) < SerRank(w, d, s)
  {
    if s.cnt >= 0 { SpanSucc(d, s.cnt); }
  }

  lemma SerTakes(w: nat, d: nat, s: S.Reg, i: S.In)
    requires S.Wf(w, d, s) && d > 0 && S.InWf(w, i) && S.Takes(s, i)
    ensures SerRank(w, d, S.Next(w, d, s, i)) < SerRank(w, d, s) + PairWeight(i.numBits + 1, d)
    ensures PairWeight(i.numBits + 1, d) <= PairWeight(w, d)
  {
    MulMono(w, i.numBits + 1, d);
    assert d * (i.numBits + 1) == (i.numBits + 1) * d && d * w == w * d;
  }

  // ---- the core ----

  /** Word pairs not taken yet, and what the serialiser has inside. */
  function Load(w: nat, d: nat, left: nat, s: S.Reg): nat
    requires S.Wf(w, d, s)
  {
    left * PairWeight(w, d) + SerRank(w, d, s)
  }

  lemma LoadStep(w: nat, d: nat, s: S.Reg, i: S.In, left: nat)
    requires S.Wf(w, d, s) && d > 0 && S.InWf(w, i) && (S.Takes(s, i) ==> left > 0)
    ensures var left' := if S.Takes(s, i) then left - 1 else left;
            && Load(w, d, left', S.Next(w, d, s, i)) <= Load(w, d, left, s)
            && (S.Takes(s, i) || (i.ready && SerRank(w, d, s) > 0) ==>
                  Load(w, d, left', S.Next(w, d, s, i)) < Load(w, d, left, s))
  {
    if S.Takes(s, i) {
      SerTakes(w, d, s, i);
      MulSucc(left - 1, PairWeight(w, d));
    } else {
      SerGoesOn(w, d, s, i);
    }
  }

  /** Clocks that alignment and the end of a frame take, beyond words consumed. */
  function StateRank(w: nat, c: Reg): nat
    requires Wf(w, c)
  {
    match c.state
    case Idle => 0
    case GetTms | GetTdi | Shift => w + 6
    case Align => 5 + (w - 1 - c.nBits) + (if c.tLast then 0 else 1)
    case Discard => if !c.tLastSeen then if c.sReady then 2 else 3 else if c.tdoPass then 1 else 2
  }

  /** What is left to do in frame `f`. */
  function CoreRank(w: nat, d: nat, f: Frame, wb: seq<S.Job>, c: Reg, s: S.Reg, h: S.Hist, g: Progress): int
    requires Wf(w, c) && S.Wf(w, d, s) && FrameOk(w, f) && Taken(wb, h) <= Pairs(w, f)
  {
    |f.p| + 1 - g.pos + Load(w, d, Pairs(w, f) - Taken(wb, h), s) + StateRank(w, c)
  }

  /** The next word is there if there is one, and the reply can leave if that is what is waited for. */
  predicate Moves(f: Frame, c: Reg, i: In, g: Progress) {
    && (g.pos <= |f.p| ==> i.valid)
    && (i.ready || c.state == GetTms || c.state == GetTdi)
  }

  /** After the last word, alignment and the rest of the request go on by themselves. */
  lemma LastStates(w: nat, d: nat, c: Reg, s: S.Reg, i: In)
    requires Wf(w, c) && S.Wf(w, d, s) && w >= H.LEN_WIDTH && InWf(w, i) && !s.oValid && c.tdoValid
    requires (c.state == Align && !c.tdoPass && !c.sReady) ||
             (c.state == Discard && c.tLast && (c.sReady ==> !c.tLastSeen))
    ensures var v := Next(w, d, c, s, i);
            && StateRank(w, v) <= StateRank(w, c)
            && (i.ready && (c.state == Discard && c.sReady ==> i.valid) && !Consumes(c, i) ==>
                  StateRank(w, v) < StateRank(w, c))
  {
  }

  /** While words are requested, a clock that consumes none works on what is inside. */
  lemma SomethingInside(w: nat, d: nat, dev: Device, f: Frame, wb: seq<S.Job>, c: Reg, s: S.Reg, h: S.Hist, i: In,
                        tdo: bool,
                        g: Progress)
    requires Busy(w, d, dev, f, wb, c, s, h, g) && c.state == Shift && InWf(w, i)
    ensures S.Takes(s, SerIn(c, i, tdo)) || SerRank(w, d, s) > 0
  {
    S.Holds(w, d, dev, s, h);
  }

  /** Pairs that the serialiser has still to take, before and after a clock. */
  lemma LeftToTake(w: nat, d: nat, dev: Device, f: Frame, wb: seq<S.Job>, c: Reg, s: S.Reg, h: S.Hist, i: In, tdo: bool,
                   g: Progress)
    requires Busy(w, d, dev, f, wb, c, s, h, g) && Feeds(w, f, g, i) && (!s.tck ==> tdo == dev(h.edges))
    ensures var h' := NextHist(w, d, c, s, i, tdo, h);
            && Taken(wb, h') == (if S.Takes(s, SerIn(c, i, tdo)) then Taken(wb, h) + 1 else Taken(wb, h))
            && Taken(wb, h') <= Pairs(w, f)
  {
    BusyStep(w, d, dev, f, wb, c, s, h, i, tdo, g);
  }

  lemma LoadFalls(w: nat, d: nat, dev: Device, f: Frame, wb: seq<S.Job>, c: Reg, s: S.Reg, h: S.Hist, i: In, tdo: bool,
                  g: Progress, left: nat, left': nat)
    requires Busy(w, d, dev, f, wb, c, s, h, g) && InWf(w, i)
    requires left' == if S.Takes(s, SerIn(c, i, tdo)) then left - 1 else left
    ensures var l, l' := Load(w, d, left, s), Load(w, d, left', NextSer(w, d, c, s, i, tdo));
            l' <= l && (c.state == Shift && i.ready ==> l' < l)
  {
    LoadStep(w, d, s, SerIn(c, i, tdo), left);
    if c.state == Shift {
      SomethingInside(w, d, dev, f, wb, c, s, h, i, tdo, g);
      ReadyForWord(w, d, dev, f, wb, c, s, h, i, g);
    }
  }

  lemma ReadyForWord(w: nat, d: nat, dev: Device, f: Frame, wb: seq<S.Job>, c: Reg, s: S.Reg, h: S.Hist, i: In,
                     g: Progress)
    requires Busy(w, d, dev, f, wb, c, s, h, g) && c.state == Shift
    ensures i.ready ==> TdoReady(c, i)
  {
  }

  /** Where words are requested. */
  lemma RequestStates(w: nat, d: nat, dev: Device, f: Frame, wb: seq<S.Job>, c: Reg, s: S.Reg, h: S.Hist, i: In,
                      g: Progress)
    requires Busy(w, d, dev, f, wb, c, s, h, g) && InWf(w, i)
    requires c.state == GetTms || c.state == GetTdi || c.state == Shift
    ensures StateRank(w, Next(w, d, c, s, i)) <= StateRank(w, c)
    ensures c.state != Shift && Moves(f, c, i, g) ==> Consumes(c, i)
  {
  }

  lemma QuietStates(w: nat, d: nat, dev: Device, f: Frame, wb: seq<S.Job>, c: Reg, s: S.Reg, h: S.Hist, i: In,
                    g: Progress)
    requires Busy(w, d, dev, f, wb, c, s, h, g) && InWf(w, i) && (c.state == Align || c.state == Discard)
    ensures StateRank(w, Next(w, d, c, s, i)) <= StateRank(w, c)
    ensures Moves(f, c, i, g) && !Consumes(c, i) ==> StateRank(w, Next(w, d, c, s, i)) < StateRank(w, c)
  {
    NothingComes(w, d, dev, f, wb, c, s, h, g);
    LastStates(w, d, c, s, i);
  }

  lemma StatesFall(w: nat, d: nat, dev: Device, f: Frame, wb: seq<S.Job>, c: Reg, s: S.Reg, h: S.Hist, i: In,
                   g: Progress)
    requires Busy(w, d, dev, f, wb, c, s, h, g) && InWf(w, i)
    ensures StateRank(w, c) > 0 && g.pos <= |f.p| + 1 && StateRank(w, Next(w, d, c, s, i)) <= StateRank(w, c)
    ensures Moves(f, c, i, g) && !Consumes(c, i) && !(c.state == Shift && i.ready) ==>
              StateRank(w, Next(w, d, c, s, i)) < StateRank(w, c)
  {
    BusyPos(w, d, dev, f, wb, c, s, h, i, g);
    if c.state == Align || c.state == Discard {
      QuietStates(w, d, dev, f, wb, c, s, h, i, g);
    } else {
      RequestStates(w, d, dev, f, wb, c, s, h, i, g);
    }
  }

  /** The parts of the rank before and after a clock: words to consume, load, and state. */
  lemma Parts(w: nat, d: nat, dev: Device, f: Frame, wb: seq<S.Job>, c: Reg, s: S.Reg, h: S.Hist, i: In, tdo: bool,
              g: Progress)
    returns (left: nat, left': nat)
    requires Busy(w, d, dev, f, wb, c, s, h, g) && Feeds(w, f, g, i) && (!s.tck ==> tdo == dev(h.edges))
    ensures Taken(wb, h) == Pairs(w, f) - left && Taken(wb, NextHist(w, d, c, s, i, tdo, h)) == Pairs(w, f) - left'
    ensures var l, l' := Load(w, d, left, s), Load(w, d, left', NextSer(w, d, c, s, i, tdo));
            l' <= l && (c.state == Shift && i.ready ==> l' < l)
  {
    LeftToTake(w, d, dev, f, wb, c, s, h, i, tdo, g);
    left := Pairs(w, f) - Taken(wb, h);
    left' := Pairs(w, f) - Taken(wb, NextHist(w, d, c, s, i, tdo, h));
    LoadFalls(w, d, dev, f, wb, c, s, h, i, tdo, g, left, left');
  }

  /** No clock raises the rank, and clocks in which words move lower it. */
  lemma CoreProgress(w: nat, d: nat, dev: Device, f: Frame, wb: seq<S.Job>, c: Reg, s: S.Reg, h: S.Hist, i: In,
                     tdo: bool,
                     g: Progress)
    requires Busy(w, d, dev, f, wb, c, s, h, g) && Feeds(w, f, g, i) && (!s.tck ==> tdo == dev(h.edges))
    ensures CoreRank(w, d, f, wb, c, s, h, g) > 0
    ensures var c' := Next(w, d, c, s, i);
            var s' := NextSer(w, d, c, s, i, tdo);
            var h' := NextHist(w, d, c, s, i, tdo, h);
            && Taken(wb, h') <= Pairs(w, f)
            && CoreRank(w, d, f, wb, c', s', h', Advance(c, i, g)) <= CoreRank(w, d, f, wb, c, s, h, g)
            && (Moves(f, c, i, g) ==>
                  CoreRank(w, d, f, wb, c', s', h', Advance(c, i, g)) < CoreRank(w, d, f, wb, c, s, h, g))
  {
    var left, left' := Parts(w, d, dev, f, wb, c, s, h, i, tdo, g);
    StatesFall(w, d, dev, f, wb, c, s, h, i, g);
    RankFalls(w, d, f, wb, c, s, h, g, Next(w, d, c, s, i), NextSer(w, d, c, s, i, tdo),
              NextHist(w, d, c, s, i, tdo, h),
              i, left, left');
  }

  lemma RankFalls(w: nat, d: nat, f: Frame, wb: seq<S.Job>, c: Reg, s: S.Reg, h: S.Hist, g: Progress,
                  c': Reg, s': S.Reg, h': S.Hist, i: In, left: nat, left': nat)
    requires Wf(w, c) && S.Wf(w, d, s) && FrameOk(w, f) && Wf(w, c') && S.Wf(w, d, s')
    requires Taken(wb, h) == Pairs(w, f) - left && Taken(wb, h') == Pairs(w, f) - left'
    requires var l, l' := Load(w, d, left, s), Load(w, d, left', s');
             l' <= l && (c.state == Shift && i.ready ==> l' < l)
    requires StateRank(w, c) > 0 && g.pos <= |f.p| + 1 && StateRank(w, c') <= StateRank(w, c)
    requires Moves(f, c, i, g) && !Consumes(c, i) && !(c.state == Shift && i.ready) ==>
               StateRank(w, c') < StateRank(w, c)
    ensures CoreRank(w, d, f, wb, c, s, h, g) > 0
    ensures var r, r' := CoreRank(w, d, f, wb, c, s, h, g), CoreRank(w, d, f, wb, c', s', h', Advance(c, i, g));
            r' <= r && (Moves(f, c, i, g) ==> r' < r)
  {
  }
}
