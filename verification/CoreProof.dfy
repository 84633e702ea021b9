// Every clock of AxisToJtagCore keeps its invariant, whatever the divider, the stalls and the target are.

module CoreProof {
  import opened Bits
  import opened Jtag
  import H = Header
  import S = SerDes
  import opened Core

  // ---- what one clock does to the embedded serialiser ----

  predicate Hands(c: Reg, s: S.Reg, i: In) {
    s.oValid && TdoReady(c, i)
  }

  /** The cycle after the serialiser fetched a word while still busy with the one before. */
  predicate Pulse(s: S.Reg) {
    s.state == S.Shift && s.iReady
  }

  /** The serialiser as the core sees it across one clock. */
  predicate SerClock(w: nat, d: nat, dev: Device, c: Reg, s: S.Reg, h: S.Hist, i: In, tdo: bool, s': S.Reg, h': S.Hist)
    requires |s.tdo| == w + 1 && S.JobsOk(w, h.jobs)
  {
    var takes := S.Takes(s, SerIn(c, i, tdo));
    && h'.jobs == (if takes then h.jobs + [S.Job(c.tms, c.tdi, c.nBits + 1)] else h.jobs)
    && h'.outs == (if Hands(c, s, i) then h.outs + [s.tdo[..w]] else h.outs)
    && (s.oValid ==> |h.outs| < |h.jobs| && Suffix(s.tdo[..w], S.Expected(w, dev, h.jobs, |h.outs|)))
    && 0 <= |h.jobs| - |h.outs| <= 2
    && (Pulse(s) ==> !takes && !s.oValid && |h.jobs| == |h.outs| + 2)
    && (s.iReady ==> s.state == S.Idle || Pulse(s))
    && (s.state == S.Idle ==> s.iReady && (takes == c.tdiValid) && !s'.oValid)
    && (takes ==> c.tdiValid)
    && (Pulse(s') == (takes && s.state == S.Shift))
    && (s'.oValid && s'.state != S.Wai ==> TdoReady(c, i) && !s.oValid)
    && (|h.jobs| == |h.outs| ==> s.state == S.Idle && !s.oValid)
  }

  lemma SerFacts(w: nat, d: nat, dev: Device, c: Reg, s: S.Reg, h: S.Hist, i: In, tdo: bool)
    requires Wf(w, c) && InWf(w, i) && S.Wf(w, d, s) && S.Summary(w, dev, s, h)
    ensures SerClock(w, d, dev, c, s, h, i, tdo,
                     S.Next(w, d, s, SerIn(c, i, tdo)), S.Observe(w, d, s, SerIn(c, i, tdo), h))
  {
    S.OfferNeedsReady(w, d, s, SerIn(c, i, tdo));
  }

  lemma SerTick(w: nat, d: nat, dev: Device, c: Reg, s: S.Reg, h: S.Hist, i: In, tdo: bool)
    requires SerOk(w, d, dev, c, s, h) && InWf(w, i) && (!s.tck ==> tdo == dev(h.edges))
    ensures var s' := S.Next(w, d, s, SerIn(c, i, tdo));
            var h' := S.Observe(w, d, s, SerIn(c, i, tdo), h);
            S.Inv(w, d, dev, s', h') && SerClock(w, d, dev, c, s, h, i, tdo, s', h')
  {
    S.Step(w, d, dev, s, SerIn(c, i, tdo), h);
    S.Holds(w, d, dev, s, h);
    SerFacts(w, d, dev, c, s, h, i, tdo);
  }

  // ---- the reply register ----

  /** A word handed over by the serialiser is the reply word, up to its alignment. */
  lemma CollectWord(w: nat, dev: Device, f: Frame, wb: seq<S.Job>, h: S.Hist, v: Vec, k: nat)
    requires FrameOk(w, f) && S.JobsOk(w, wb) && 0 <= Taken(wb, h) <= Pairs(w, f)
    requires h.jobs == wb + Jobs(w, f, Taken(wb, h)) && k < Taken(wb, h)
    requires S.JobsOk(w, h.jobs) && |v| == w && Suffix(v, S.Expected(w, dev, h.jobs, |wb| + k))
    ensures Aligning(w, v, RepWord(w, dev, wb, f, k), w - BitsIn(w, f, k))
    ensures BitsIn(w, f, k) == w ==> v == RepWord(w, dev, wb, f, k)
  {
    ExpectedIsRepWord(w, dev, wb, f, Taken(wb, h), k);
    var x := S.Expected(w, dev, h.jobs, |wb| + k);
    assert |x| == BitsIn(w, f, k);
    var y := RepWord(w, dev, wb, f, k);
    assert y[..|x|] == x;
    if |x| == w { assert y == x && v[0..] == v; }
  }

  /** The last word of the frame is coming in. */
  predicate Completes(c: Reg, s: S.Reg, i: In) {
    Hands(c, s, i) && c.last && Inc2(c.oCnt) == c.iCnt
  }

  /** Two counter bits suffice as long as at most three words are outstanding. */
  lemma CountersAgree(acc: nat, ret: nat)
    requires ret < acc <= ret + 3
    ensures Inc2(ret % 4) == acc % 4 <==> acc == ret + 1
  {
  }

  /** The serialiser did the pairs of frame `f` up to now, and nothing else, since `wb`. */
  predicate InFrame(w: nat, f: Frame, wb: seq<S.Job>, h: S.Hist) {
    && FrameOk(w, f) && S.JobsOk(w, wb) && S.JobsOk(w, h.jobs)
    && 0 <= Taken(wb, h) <= Pairs(w, f) && h.jobs == wb + Jobs(w, f, Taken(wb, h))
  }

  lemma IncMod(n: nat)
    ensures Inc2(n % 4) == (n + 1) % 4
  {
  }

  /** The word on offer is the oldest one not returned, up to its alignment. */
  lemma OldestWord(w: nat, d: nat, dev: Device, f: Frame, wb: seq<S.Job>, c: Reg, s: S.Reg, h: S.Hist, i: In, tdo: bool,
                   s': S.Reg, h': S.Hist, k: nat)
    requires |s.tdo| == w + 1 && InFrame(w, f, wb, h) && SerClock(w, d, dev, c, s, h, i, tdo, s', h')
    requires Hands(c, s, i) && k == Returned(wb, h)
    ensures k < Pairs(w, f) && Aligning(w, s.tdo[..w], RepWord(w, dev, wb, f, k), w - BitsIn(w, f, k))
    ensures k < Taken(wb, h) && (BitsIn(w, f, k) == w ==> s.tdo[..w] == RepWord(w, dev, wb, f, k))
  {
    assert |h.outs| == |wb| + k;
    CollectWord(w, dev, f, wb, h, s.tdo[..w], k);
  }

  /** A word that does not complete the frame is a full one. */
  lemma CollectStep(w: nat, d: nat, dev: Device, f: Frame, wb: seq<S.Job>, c: Reg, s: S.Reg, h: S.Hist, i: In,
                    tdo: bool,
                    s': S.Reg, h': S.Hist)
    returns (k: nat, x: Vec)
    requires Wf(w, c) && |s.tdo| == w + 1 && InFrame(w, f, wb, h) && Returned(wb, h) >= 0
    requires SerClock(w, d, dev, c, s, h, i, tdo, s', h')
    requires c.oCnt == Returned(wb, h) % 4
    requires Taken(wb, h) == Pairs(w, f) > 0 ==> c.last && c.iCnt == Pairs(w, f) % 4
    requires Hands(c, s, i) && !Completes(c, s, i)
    ensures k == Returned(wb, h) && k + 1 < Pairs(w, f) && Inc2(c.oCnt) == (k + 1) % 4
    ensures x == s.tdo[..w] == RepWord(w, dev, wb, f, k)
  {
    k := NotTheLast(w, d, dev, f, wb, c, s, h, i, tdo, s', h');
    FullPair(w, f, k);
    x := OldestFull(w, d, dev, f, wb, c, s, h, i, tdo, s', h', k);
  }

  lemma NotTheLast(w: nat, d: nat, dev: Device, f: Frame, wb: seq<S.Job>, c: Reg, s: S.Reg, h: S.Hist, i: In, tdo: bool,
                   s': S.Reg, h': S.Hist)
    returns (k: nat)
    requires Wf(w, c) && |s.tdo| == w + 1 && InFrame(w, f, wb, h) && Returned(wb, h) >= 0
    requires SerClock(w, d, dev, c, s, h, i, tdo, s', h')
    requires c.oCnt == Returned(wb, h) % 4 && Hands(c, s, i) && !Completes(c, s, i)
    requires Taken(wb, h) == Pairs(w, f) > 0 ==> c.last && c.iCnt == Pairs(w, f) % 4
    ensures k == Returned(wb, h) && k + 1 < Pairs(w, f) && Inc2(c.oCnt) == (k + 1) % 4
  {
    k := Returned(wb, h);
    MoreToCome(Taken(wb, h), Pairs(w, f), k, c.last, c.iCnt);
  }

  lemma MoreToCome(taken: nat, pairs: nat, ret: nat, last: bool, iCnt: nat)
    requires ret < taken <= pairs && (taken == pairs ==> last && iCnt == pairs % 4) && !(last && Inc2(ret % 4) == iCnt)
    ensures ret + 1 < pairs && Inc2(ret % 4) == (ret + 1) % 4
  {
    IncMod(ret);
  }

  lemma FullPair(w: nat, f: Frame, k: nat)
    requires w > 0 && k + 1 < Pairs(w, f)
    ensures BitsIn(w, f, k) == w
  {
  }

  lemma OldestFull(w: nat, d: nat, dev: Device, f: Frame, wb: seq<S.Job>, c: Reg, s: S.Reg, h: S.Hist, i: In, tdo: bool,
                   s': S.Reg, h': S.Hist, k: nat)
    returns (x: Vec)
    requires |s.tdo| == w + 1 && InFrame(w, f, wb, h) && SerClock(w, d, dev, c, s, h, i, tdo, s', h')
    requires Hands(c, s, i) && k == Returned(wb, h) && k < Pairs(w, f) && BitsIn(w, f, k) == w
    ensures x == s.tdo[..w] == RepWord(w, dev, wb, f, k)
  {
    OldestWord(w, d, dev, f, wb, c, s, h, i, tdo, s', h', k);
    x := s.tdo[..w];
  }

  /** The reply register after a clock that does not complete the frame; `v` is what the states make of the rest. */
  lemma FlowRegs(w: nat, d: nat, c: Reg, s: S.Reg, i: In, v: Reg) returns (c': Reg)
    requires Wf(w, c) && S.Wf(w, d, s) && Wf(w, v) && w >= H.LEN_WIDTH && InWf(w, i) && v == CaseNext(w, c, s.iReady, i)
    requires v.tdo == c.tdo && v.tdoValid == c.tdoValid && v.oCnt == c.oCnt && c.tdoPass && !c.tLast
    requires !Completes(c, s, i)
    ensures c' == Next(w, d, c, s, i) && Wf(w, c')
    ensures Hands(c, s, i) ==> c' == v.(tdo := s.tdo[..w], tdoValid := true, oCnt := Inc2(c.oCnt))
    ensures !Hands(c, s, i) ==> c' == v.(tdoValid := c.tdoValid && !Emits(c, i))
  {
    c' := Next(w, d, c, s, i);
  }

  /** What is known of the word that is handed over, if one is. */
  lemma HandedWord(w: nat, d: nat, dev: Device, f: Frame, wb: seq<S.Job>, c: Reg, s: S.Reg, h: S.Hist, i: In, tdo: bool,
                   s': S.Reg, h': S.Hist)
    returns (ret: nat, x: Vec)
    requires Wf(w, c) && |s.tdo| == w + 1 && InFrame(w, f, wb, h) && Returned(wb, h) >= 0
    requires SerClock(w, d, dev, c, s, h, i, tdo, s', h')
    requires c.oCnt == Returned(wb, h) % 4 && !Completes(c, s, i)
    requires Taken(wb, h) == Pairs(w, f) > 0 ==> c.last && c.iCnt == Pairs(w, f) % 4
    ensures ret == Returned(wb, h) && x == s.tdo[..w]
    ensures Returned(wb, h') == (if Hands(c, s, i) then ret + 1 else ret)
    ensures Hands(c, s, i) ==>
              ret + 1 < Pairs(w, f) && x == RepWord(w, dev, wb, f, ret) && Inc2(c.oCnt) == (ret + 1) % 4
    ensures s'.oValid && s'.state != S.Wai ==> TdoReady(c, i) && !s.oValid
  {
    ret, x := Returned(wb, h), s.tdo[..w];
    if Hands(c, s, i) { ret, x := CollectStep(w, d, dev, f, wb, c, s, h, i, tdo, s', h'); }
  }

  /** The reply side is kept, given what the clock does to it. */
  lemma FlowKept(w: nat, dev: Device, f: Frame, wb: seq<S.Job>, c: Reg, h: S.Hist, i: In, g: Progress, v: Reg, c': Reg,
                 h': S.Hist, hands: bool, ret: nat, x: Vec)
    requires FrameOk(w, f) && S.JobsOk(w, wb) && Flowing(w, dev, f, wb, c, h, g) && (hands ==> TdoReady(c, i))
    requires ret == Returned(wb, h) && Returned(wb, h') == (if hands then ret + 1 else ret)
    requires hands ==> ret + 1 < Pairs(w, f) && x == RepWord(w, dev, wb, f, ret) && Inc2(c.oCnt) == (ret + 1) % 4
    requires v.tdo == c.tdo && v.tdoPass && !v.tLast && v.oCnt == c.oCnt && v.iCnt == Advance(c, i, g).acc % 4
    requires hands ==> c' == v.(tdo := x, tdoValid := true, oCnt := Inc2(c.oCnt))
    requires !hands ==> c' == v.(tdoValid := c.tdoValid && !Emits(c, i))
    ensures Flowing(w, dev, f, wb, c', h', Advance(c, i, g))
  {
  }

  /** What a clock does to the part of the register that is in charge of replies. */
  lemma FlowStep(w: nat, d: nat, dev: Device, f: Frame, wb: seq<S.Job>, c: Reg, s: S.Reg, h: S.Hist, i: In, tdo: bool,
                 g: Progress, v: Reg, s': S.Reg, h': S.Hist)
    returns (c': Reg)
    requires Wf(w, c) && S.Wf(w, d, s) && w >= H.LEN_WIDTH && InWf(w, i)
    requires InFrame(w, f, wb, h) && Flowing(w, dev, f, wb, c, h, g) && Wf(w, v) && v == CaseNext(w, c, s.iReady, i)
    requires SerClock(w, d, dev, c, s, h, i, tdo, s', h') && !Completes(c, s, i)
    requires v.tdo == c.tdo && v.tdoValid == c.tdoValid && v.tdoPass && !v.tLast && v.oCnt == c.oCnt
    requires v.iCnt == Advance(c, i, g).acc % 4
    requires Taken(wb, h) == Pairs(w, f) > 0 ==> c.last && c.iCnt == Pairs(w, f) % 4
    ensures c' == Next(w, d, c, s, i) && Wf(w, c') && c' == v.(tdo := c'.tdo, tdoValid := c'.tdoValid, oCnt := c'.oCnt)
    ensures Flowing(w, dev, f, wb, c', h', Advance(c, i, g))
    ensures s'.oValid && s'.state != S.Wai ==> !c'.tdoValid
  {
    var ret, x := HandedWord(w, d, dev, f, wb, c, s, h, i, tdo, s', h');
    c' := FlowRegs(w, d, c, s, i, v);
    FlowKept(w, dev, f, wb, c, h, i, g, v, c', h', Hands(c, s, i), ret, x);
  }

  /** The only awaited word that can complete a frame is the true last one. */
  lemma CompletesExactly(w: nat, d: nat, dev: Device, f: Frame, wb: seq<S.Job>, c: Reg, s: S.Reg, h: S.Hist, i: In,
                         tdo: bool,
                         g: Progress, s': S.Reg, h': S.Hist)
    requires Wf(w, c) && |s.tdo| == w + 1
    requires InFrame(w, f, wb, h) && Flowing(w, dev, f, wb, c, h, g)
    requires SerClock(w, d, dev, c, s, h, i, tdo, s', h')
    requires Taken(wb, h) <= g.acc <= Taken(wb, h) + 1
    ensures g.acc - Returned(wb, h) <= 3
    ensures Hands(c, s, i) ==> (Inc2(c.oCnt) == c.iCnt <==> g.acc == Returned(wb, h) + 1)
  {
    if Hands(c, s, i) { CountersAgree(g.acc, Returned(wb, h)); }
  }

  // ---- one state at a time ----

  lemma MulLe(x: nat, w: nat)
    requires x > 0
    ensures x * w >= w
  {
    var y := x - 1;
    assert x * w == y * w + w;
  }

  lemma Euclid(q: nat, r: nat, w: nat, acc: nat)
    requires r < w && acc <= q
    ensures q * w + r - acc * w >= 0
    ensures q * w + r - acc * w >= w <==> acc < q
    ensures acc == q ==> q * w + r - acc * w == r
  {
    var e := q - acc;
    assert q * w == acc * w + e * w;
    if e > 0 { MulLe(e, w); }
  }

  lemma LenSplit(len: nat, w: nat, acc: nat)
    requires w > 0 && acc <= len / w
    ensures len - acc * w >= w <==> acc < len / w
    ensures len - acc * w >= 0
    ensures acc == len / w ==> len - acc * w == len % w
    ensures (acc + 1) * w == acc * w + w
  {
    Euclid(len / w, len % w, w, acc);
  }

  lemma StillbornStep(w: nat, d: nat, dev: Device, f: Frame, wb: seq<S.Job>, c: Reg, s: S.Reg, h: S.Hist, i: In,
                      tdo: bool,
                      g: Progress, s': S.Reg, h': S.Hist)
    requires Wf(w, c) && S.Wf(w, d, s) && InFrame(w, f, wb, h) && (Clean(w, f) || Stillborn(f)) && Feeds(w, f, g, i)
    requires SerClock(w, d, dev, c, s, h, i, tdo, s', h') && Flowing(w, dev, f, wb, c, h, g)
    requires c.state == GetTms && InGetTms(w, f, wb, c, s, h, g) && Consumes(c, i) && i.last
    ensures Stillborn(f) && g.acc == 0
    ensures var c' := Next(w, d, c, s, i);
            && c'.state == Idle && !c'.tdiValid && !c'.tdoValid && !c'.running
            && h'.jobs == h.jobs && h'.outs == h.outs && |h.outs| == |h.jobs| && Advance(c, i, g) == Progress(2, 0, 0)
  {
    assert g.pos == |f.p|;
  }

  /** The request side of one clock, by state; the serialiser counts as `s'`, `h'` afterwards. */
  lemma GetTmsCase(w: nat, f: Frame, wb: seq<S.Job>, c: Reg, s: S.Reg, h: S.Hist, i: In, g: Progress, s': S.Reg,
                   h': S.Hist)
    returns (v: Reg, g': Progress)
    requires Wf(w, c) && FrameOk(w, f) && (Clean(w, f) || Stillborn(f)) && Feeds(w, f, g, i) && c.state == GetTms
    requires InGetTms(w, f, wb, c, s, h, g) && h'.jobs == h.jobs && !Pulse(s') && !(Consumes(c, i) && i.last)
    ensures v == GetTmsNext(w, c, i) && Wf(w, v) && g' == Advance(c, i, g)
    ensures SameReply(c, v) && (c.iCnt == g.acc % 4 ==> v.iCnt == g'.acc % 4)
    ensures (v.state == GetTms && InGetTms(w, f, wb, v, s', h', g')) ||
            (v.state == GetTdi && InGetTdi(w, f, wb, v, s', h', g'))
  {
    v, g' := GetTmsNext(w, c, i), Advance(c, i, g);
    IncMod(g.acc);
    if Consumes(c, i) {
      assert Stillborn(f) ==> g.pos == |f.p|;
      LenSplit(f.len, w, g.acc);
    }
  }

  lemma GetTdiCase(w: nat, f: Frame, wb: seq<S.Job>, c: Reg, s: S.Reg, h: S.Hist, i: In, g: Progress, s': S.Reg,
                   h': S.Hist)
    returns (v: Reg, g': Progress)
    requires Wf(w, c) && FrameOk(w, f) && (Clean(w, f) || Stillborn(f)) && Feeds(w, f, g, i)
    requires InGetTdi(w, f, wb, c, s, h, g) && h'.jobs == h.jobs && !Pulse(s') && c.state == GetTdi
    ensures v == GetTdiNext(w, c, i) && Wf(w, v) && g' == Advance(c, i, g)
    ensures SameReply(c, v) && v.iCnt == c.iCnt && g'.acc == g.acc
    ensures (v.state == GetTdi && InGetTdi(w, f, wb, v, s', h', g')) ||
            (v.state == Shift && InShift(w, f, wb, v, s', h', g'))
  {
    v, g' := GetTdiNext(w, c, i), Advance(c, i, g);
    if Consumes(c, i) {
      assert f.p[2 * (g.acc - 1) + 1] == i.data;
      assert i.last == (2 * g.acc == |f.p|);
    }
  }

  lemma ShiftCase(w: nat, f: Frame, wb: seq<S.Job>, c: Reg, s: S.Reg, h: S.Hist, i: In, g: Progress, s': S.Reg,
                  h': S.Hist,
                  takes: bool)
    returns (v: Reg, g': Progress)
    requires Wf(w, c) && FrameOk(w, f) && Clean(w, f) && c.state == Shift && InShift(w, f, wb, c, s, h, g)
    requires |h'.jobs| == |h.jobs| + (if takes then 1 else 0)
    requires (Pulse(s) ==> !takes) && (takes ==> c.tdiValid) && (s.state == S.Idle ==> s.iReady && takes == c.tdiValid)
    requires (s.iReady ==> s.state == S.Idle || Pulse(s)) && Pulse(s') == (takes && s.state == S.Shift)
    requires takes && s.state != S.Idle ==> s.state == S.Shift
    ensures v == ShiftNext(w, c, s.iReady) && Wf(w, v) && g' == Advance(c, i, g)
    ensures SameReply(c, v) && v.iCnt == c.iCnt && g'.acc == g.acc
    ensures (v.state == GetTms && InGetTms(w, f, wb, v, s', h', g')) ||
            (v.state == Shift && InShift(w, f, wb, v, s', h', g'))
  {
    v, g' := ShiftNext(w, c, s.iReady), Advance(c, i, g);
  }

  /** The states leave the reply side alone. */
  predicate SameReply(c: Reg, v: Reg) {
    v.tdo == c.tdo && v.tdoValid == c.tdoValid && v.tdoPass == c.tdoPass && v.tLast == c.tLast && v.oCnt == c.oCnt
  }

  /** A pair that the serialiser takes is the next one of the frame. */
  lemma TakenPair(w: nat, d: nat, dev: Device, f: Frame, wb: seq<S.Job>, c: Reg, s: S.Reg, h: S.Hist, i: In, tdo: bool,
                  g: Progress, s': S.Reg, h': S.Hist)
    requires Wf(w, c) && S.Wf(w, d, s) && InFrame(w, f, wb, h) && SerClock(w, d, dev, c, s, h, i, tdo, s', h')
    requires c.state == Shift && InShift(w, f, wb, c, s, h, g)
    ensures InFrame(w, f, wb, h')
  {
    if S.Takes(s, SerIn(c, i, tdo)) { JobsSnoc(w, f, wb, g.acc - 1); }
  }

  /** While a TDI word is awaited, no word that comes back completes the frame. */
  lemma NotYetComplete(w: nat, d: nat, dev: Device, f: Frame, wb: seq<S.Job>, c: Reg, s: S.Reg, h: S.Hist, i: In,
                       tdo: bool,
                       g: Progress, s': S.Reg, h': S.Hist)
    requires Wf(w, c) && |s.tdo| == w + 1 && InFrame(w, f, wb, h) && Flowing(w, dev, f, wb, c, h, g)
    requires SerClock(w, d, dev, c, s, h, i, tdo, s', h') && InGetTdi(w, f, wb, c, s, h, g)
    ensures !Completes(c, s, i)
  {
    CompletesExactly(w, d, dev, f, wb, c, s, h, i, tdo, g, s', h');
  }

  /** What the three request states keep, apart from the serialiser's own invariant. */
  predicate Requesting(w: nat, dev: Device, f: Frame, wb: seq<S.Job>, c: Reg, s: S.Reg, h: S.Hist, g: Progress) {
    && InFrame(w, f, wb, h) && Flowing(w, dev, f, wb, c, h, g) && (s.oValid && s.state != S.Wai ==> !c.tdoValid)
    && match c.state
       case GetTms => InGetTms(w, f, wb, c, s, h, g)
       case GetTdi => InGetTdi(w, f, wb, c, s, h, g)
       case Shift => InShift(w, f, wb, c, s, h, g)
       case _ => false
  }

  /** The request side does not depend on the reply register. */
  lemma RequestSide(w: nat, f: Frame, wb: seq<S.Job>, c: Reg, v: Reg, s: S.Reg, h: S.Hist, g: Progress)
    requires FrameOk(w, f) && v == c.(tdo := v.tdo, tdoValid := v.tdoValid, oCnt := v.oCnt)
    ensures InGetTms(w, f, wb, c, s, h, g) == InGetTms(w, f, wb, v, s, h, g)
    ensures InGetTdi(w, f, wb, c, s, h, g) == InGetTdi(w, f, wb, v, s, h, g)
    ensures InShift(w, f, wb, c, s, h, g) == InShift(w, f, wb, v, s, h, g)
  {
  }

  lemma GetTmsStep(w: nat, d: nat, dev: Device, f: Frame, wb: seq<S.Job>, c: Reg, s: S.Reg, h: S.Hist, i: In, tdo: bool,
                   g: Progress, s': S.Reg, h': S.Hist)
    returns (c': Reg, g': Progress)
    requires Wf(w, c) && S.Wf(w, d, s) && InFrame(w, f, wb, h) && (Clean(w, f) || Stillborn(f)) && Feeds(w, f, g, i)
    requires SerClock(w, d, dev, c, s, h, i, tdo, s', h') && Flowing(w, dev, f, wb, c, h, g)
    requires c.state == GetTms && InGetTms(w, f, wb, c, s, h, g) && !(Consumes(c, i) && i.last)
    ensures c' == Next(w, d, c, s, i) && g' == Advance(c, i, g) && Wf(w, c')
    ensures Requesting(w, dev, f, wb, c', s', h', g')
  {
    var v;
    v, g' := GetTmsCase(w, f, wb, c, s, h, i, g, s', h');
    c' := FlowStep(w, d, dev, f, wb, c, s, h, i, tdo, g, v, s', h');
    RequestSide(w, f, wb, v, c', s', h', g');
  }

  lemma GetTdiStep(w: nat, d: nat, dev: Device, f: Frame, wb: seq<S.Job>, c: Reg, s: S.Reg, h: S.Hist, i: In, tdo: bool,
                   g: Progress, s': S.Reg, h': S.Hist)
    returns (c': Reg, g': Progress)
    requires Wf(w, c) && S.Wf(w, d, s) && InFrame(w, f, wb, h) && (Clean(w, f) || Stillborn(f)) && Feeds(w, f, g, i)
    requires SerClock(w, d, dev, c, s, h, i, tdo, s', h') && Flowing(w, dev, f, wb, c, h, g)
    requires c.state == GetTdi && InGetTdi(w, f, wb, c, s, h, g)
    ensures c' == Next(w, d, c, s, i) && g' == Advance(c, i, g) && Wf(w, c')
    ensures Requesting(w, dev, f, wb, c', s', h', g')
  {
    NotYetComplete(w, d, dev, f, wb, c, s, h, i, tdo, g, s', h');
    var v;
    v, g' := GetTdiCase(w, f, wb, c, s, h, i, g, s', h');
    c' := FlowStep(w, d, dev, f, wb, c, s, h, i, tdo, g, v, s', h');
    RequestSide(w, f, wb, v, c', s', h', g');
  }

  lemma JobsSnoc(w: nat, f: Frame, wb: seq<S.Job>, k: nat)
    requires FrameOk(w, f) && k < Pairs(w, f)
    ensures wb + Jobs(w, f, k + 1) == wb + Jobs(w, f, k) + [JobOf(w, f, k)]
  {
  }

  lemma ShiftStep(w: nat, d: nat, dev: Device, f: Frame, wb: seq<S.Job>, c: Reg, s: S.Reg, h: S.Hist, i: In, tdo: bool,
                  g: Progress, s': S.Reg, h': S.Hist)
    returns (c': Reg, g': Progress)
    requires Wf(w, c) && S.Wf(w, d, s) && InFrame(w, f, wb, h) && (Clean(w, f) || Stillborn(f)) && Feeds(w, f, g, i)
    requires SerClock(w, d, dev, c, s, h, i, tdo, s', h') && Flowing(w, dev, f, wb, c, h, g)
    requires c.state == Shift && InShift(w, f, wb, c, s, h, g) && Clean(w, f) && !Completes(c, s, i)
    ensures c' == Next(w, d, c, s, i) && g' == Advance(c, i, g) && Wf(w, c')
    ensures Requesting(w, dev, f, wb, c', s', h', g')
  {
    TakenPair(w, d, dev, f, wb, c, s, h, i, tdo, g, s', h');
    var v;
    v, g' := ShiftCase(w, f, wb, c, s, h, i, g, s', h', S.Takes(s, SerIn(c, i, tdo)));
    c' := FlowStep(w, d, dev, f, wb, c, s, h, i, tdo, g, v, s', h');
    RequestSide(w, f, wb, v, c', s', h', g');
  }

  /** The last word enters the reply register, to be aligned. */
  lemma CompleteStep(w: nat, d: nat, dev: Device, f: Frame, wb: seq<S.Job>, c: Reg, s: S.Reg, h: S.Hist, i: In,
                     tdo: bool,
                     g: Progress, s': S.Reg, h': S.Hist)
    requires Wf(w, c) && S.Wf(w, d, s) && InFrame(w, f, wb, h) && Clean(w, f) && InWf(w, i)
    requires SerClock(w, d, dev, c, s, h, i, tdo, s', h') && Flowing(w, dev, f, wb, c, h, g)
    requires c.state == Shift && InShift(w, f, wb, c, s, h, g) && Completes(c, s, i)
    ensures var c' := Next(w, d, c, s, i);
            && h'.jobs == h.jobs && c'.state == Align
            && InAlign(w, dev, f, wb, c', h', Advance(c, i, g))
            && !(s'.oValid && s'.state != S.Wai)
  {
    CompletingWord(w, d, dev, f, wb, c, s, h, i, tdo, g, s', h');
    LastCollected(w, d, c, s, i, g);
    EntersAlign(w, dev, f, wb, c, s, h, g, Next(w, d, c, s, i), h');
  }

  lemma CompletingWord(w: nat, d: nat, dev: Device, f: Frame, wb: seq<S.Job>, c: Reg, s: S.Reg, h: S.Hist, i: In,
                       tdo: bool,
                       g: Progress, s': S.Reg, h': S.Hist)
    requires Wf(w, c) && S.Wf(w, d, s) && InFrame(w, f, wb, h)
    requires SerClock(w, d, dev, c, s, h, i, tdo, s', h') && Flowing(w, dev, f, wb, c, h, g)
    requires c.state == Shift && InShift(w, f, wb, c, s, h, g) && Completes(c, s, i)
    ensures g.acc == Pairs(w, f) == Returned(wb, h) + 1 == Returned(wb, h') && h'.jobs == h.jobs
    ensures Taken(wb, h) == g.acc && !c.tdiValid && !(s'.oValid && s'.state != S.Wai)
    ensures Aligning(w, s.tdo[..w], RepWord(w, dev, wb, f, g.acc - 1), w - BitsIn(w, f, g.acc - 1))
  {
    TrueLast(w, d, dev, f, wb, c, s, h, i, tdo, g, s', h');
    OldestWord(w, d, dev, f, wb, c, s, h, i, tdo, s', h', g.acc - 1);
  }

  lemma TrueLast(w: nat, d: nat, dev: Device, f: Frame, wb: seq<S.Job>, c: Reg, s: S.Reg, h: S.Hist, i: In, tdo: bool,
                 g: Progress, s': S.Reg, h': S.Hist)
    requires Wf(w, c) && S.Wf(w, d, s) && InFrame(w, f, wb, h)
    requires SerClock(w, d, dev, c, s, h, i, tdo, s', h') && Flowing(w, dev, f, wb, c, h, g)
    requires c.state == Shift && InShift(w, f, wb, c, s, h, g) && Completes(c, s, i)
    ensures g.acc == Pairs(w, f) == Returned(wb, h) + 1 == Returned(wb, h') && h'.jobs == h.jobs
    ensures Taken(wb, h) == g.acc && !c.tdiValid && !(s'.oValid && s'.state != S.Wai)
  {
    CompletesExactly(w, d, dev, f, wb, c, s, h, i, tdo, g, s', h');
  }

  lemma LastCollected(w: nat, d: nat, c: Reg, s: S.Reg, i: In, g: Progress)
    requires Wf(w, c) && S.Wf(w, d, s) && w >= H.LEN_WIDTH && InWf(w, i) && !c.tLast && c.state == Shift && !c.sReady
    requires Completes(c, s, i) && !c.tdiValid && c.tdoPass
    ensures Next(w, d, c, s, i)
         == c.(tdo := s.tdo[..w], tdoValid := true, oCnt := Inc2(c.oCnt), tdoPass := false, state := Align)
    ensures Advance(c, i, g) == g.(out := if c.tdoValid then g.out + 1 else g.out)
  {
  }

  lemma EntersAlign(w: nat, dev: Device, f: Frame, wb: seq<S.Job>, c: Reg, s: S.Reg, h: S.Hist, g: Progress, v: Reg,
                    h': S.Hist)
    requires Wf(w, c) && FrameOk(w, f) && S.JobsOk(w, wb) && InShift(w, f, wb, c, s, h, g) && |s.tdo| == w + 1
    requires !c.tdiValid && !c.tLast && g.acc == Pairs(w, f) && Taken(wb, h') == g.acc && Returned(wb, h') == g.acc
    requires v == c.(tdo := s.tdo[..w], tdoValid := true, oCnt := v.oCnt, tdoPass := false, state := Align)
    requires Aligning(w, s.tdo[..w], RepWord(w, dev, wb, f, g.acc - 1), w - BitsIn(w, f, g.acc - 1))
    ensures InAlign(w, dev, f, wb, v, h', g.(out := g.acc - 1))
  {
  }

  lemma AlignShift(w: nat, v: Vec, x: Vec, left: int)
    requires w > 0 && Aligning(w, v, x, left)
    ensures left > 0 ==> Aligning(w, ShiftIn(v, false), x, left - 1)
    ensures left == 0 ==> v == x
  {
    if left > 0 {
      assert ShiftIn(v, false)[left - 1..] == v[left..] + [false];
      assert Zeros(left) == [false] + Zeros(left - 1);
    }
  }

  lemma AlignStep(w: nat, d: nat, dev: Device, f: Frame, wb: seq<S.Job>, c: Reg, s: S.Reg, h: S.Hist, i: In, tdo: bool,
                  g: Progress, s': S.Reg, h': S.Hist)
    requires Wf(w, c) && S.Wf(w, d, s) && InWf(w, i) && InFrame(w, f, wb, h)
    requires SerClock(w, d, dev, c, s, h, i, tdo, s', h')
    requires c.state == Align && InAlign(w, dev, f, wb, c, h, g)
    ensures var c' := Next(w, d, c, s, i);
            && h'.jobs == h.jobs && h'.outs == h.outs && Advance(c, i,
                                                                 g) == g && (c'.state == Align || c'.state == Discard)
            && !(s'.oValid && s'.state != S.Wai)
            && (c'.state == Align ==> InAlign(w, dev, f, wb, c', h', g))
            && (c'.state == Discard ==> InDiscard(w, dev, f, wb, c', h', g))
  {
    AlignRegs(w, d, c, s, i, g);
    AlignMore(w, dev, f, wb, c, h, i, g, h');
  }

  lemma AlignMore(w: nat, dev: Device, f: Frame, wb: seq<S.Job>, c: Reg, h: S.Hist, i: In, g: Progress, h': S.Hist)
    requires Wf(w, c) && FrameOk(w, f) && S.JobsOk(w, wb) && InAlign(w, dev, f, wb, c, h, g)
    requires h'.jobs == h.jobs && h'.outs == h.outs && c.state == Align
    ensures var c' := AlignNext(w, c, i);
            && (c'.state == Align ==> InAlign(w, dev, f, wb, c', h', g))
            && (c'.state == Discard ==> InDiscard(w, dev, f, wb, c', h', g))
            && (c'.state == Align || c'.state == Discard)
  {
    var x := AlignedTo(w, dev, f, wb, c, h, g);
    var c' := AlignWord(w, c, i, x);
    AlignRest(w, dev, f, wb, c, h, g, h', c', x);
  }

  /** The word that is being aligned. */
  lemma AlignedTo(w: nat, dev: Device, f: Frame, wb: seq<S.Job>, c: Reg, h: S.Hist, g: Progress) returns (x: Vec)
    requires FrameOk(w, f) && S.JobsOk(w, wb) && InAlign(w, dev, f, wb, c, h, g)
    ensures Pairs(w, f) > 0 && x == RepWord(w, dev, wb, f, Pairs(w, f) - 1)
    ensures Aligning(w, c.tdo, x, w - 1 - c.nBits) && (c.tLast ==> c.nBits == w - 1)
  {
    x := RepWord(w, dev, wb, f, Pairs(w, f) - 1);
  }

  lemma AlignWord(w: nat, c: Reg, i: In, x: Vec) returns (c': Reg)
    requires Wf(w, c) && c.state == Align && Aligning(w, c.tdo, x, w - 1 - c.nBits) && (c.tLast ==> c.nBits == w - 1)
    ensures c' == AlignNext(w, c, i)
    ensures Aligning(w, c'.tdo, x, w - 1 - c'.nBits) && (c'.state == Discard ==> c'.tdo == x)
    ensures c' == c.(tdo := c'.tdo, nBits := c'.nBits, tLast := c'.tLast, state := c'.state)
    ensures c.nBits <= c'.nBits && (c'.tLast ==> c'.nBits == w - 1) && (c'.state == Discard ==> c'.tLast)
    ensures c'.state == Align || c'.state == Discard
  {
    AlignShift(w, c.tdo, x, w - 1 - c.nBits);
    c' := AlignNext(w, c, i);
  }

  lemma AlignRest(w: nat, dev: Device, f: Frame, wb: seq<S.Job>, c: Reg, h: S.Hist, g: Progress, h': S.Hist, c': Reg,
                  x: Vec)
    requires FrameOk(w, f) && S.JobsOk(w, wb) && InAlign(w, dev, f, wb, c, h, g) && h'.jobs == h.jobs
    requires h'.outs == h.outs
    requires x == RepWord(w, dev, wb, f, Pairs(w, f) - 1) && Aligning(w, c'.tdo, x, w - 1 - c'.nBits)
    requires c' == c.(tdo := c'.tdo, nBits := c'.nBits, tLast := c'.tLast, state := c'.state) && c.nBits <= c'.nBits
    requires (c'.tLast ==> c'.nBits == w - 1) && (c'.state == Discard ==> c'.tLast && c'.tdo == x)
    ensures c'.state == Align ==> InAlign(w, dev, f, wb, c', h', g)
    ensures c'.state == Discard ==> InDiscard(w, dev, f, wb, c', h', g)
  {
  }

  lemma AlignRegs(w: nat, d: nat, c: Reg, s: S.Reg, i: In, g: Progress)
    requires Wf(w, c) && S.Wf(w, d, s) && InWf(w, i) && w >= H.LEN_WIDTH && c.state == Align && !c.tdoPass
    requires !c.sReady && !s.oValid
    ensures Next(w, d, c, s, i) == AlignNext(w, c, i) && Advance(c, i, g) == g
  {
  }

  lemma DiscardStep(w: nat, d: nat, dev: Device, f: Frame, wb: seq<S.Job>, c: Reg, s: S.Reg, h: S.Hist, i: In,
                    tdo: bool,
                    g: Progress, s': S.Reg, h': S.Hist)
    requires Wf(w, c) && S.Wf(w, d, s) && InFrame(w, f, wb, h) && Feeds(w, f, g, i)
    requires SerClock(w, d, dev, c, s, h, i, tdo, s', h')
    requires c.state == Discard && InDiscard(w, dev, f, wb, c, h, g)
    ensures var c' := Next(w, d, c, s, i);
            var g' := Advance(c, i, g);
            && h'.jobs == h.jobs && h'.outs == h.outs && !(s'.oValid && s'.state != S.Wai)
            && c'.state == (if Emits(c, i) then Idle else Discard)
            && (c'.state == Discard ==> InDiscard(w, dev, f, wb, c', h', g'))
            && (c'.state == Idle ==>
                  && !c'.tdiValid && !c'.tdoValid && !c'.running
                  && g'.pos == |f.p| + 1 && g'.out == Pairs(w, f))
  {
  }

  // ---- the whole clock ----

  /** Core and serialiser advance together. */
  function NextSer(w: nat, d: nat, c: Reg, s: S.Reg, i: In, tdo: bool): S.Reg
    requires Wf(w, c) && S.Wf(w, d, s) && d > 0
  {
    S.Next(w, d, s, SerIn(c, i, tdo))
  }

  function NextHist(w: nat, d: nat, c: Reg, s: S.Reg, i: In, tdo: bool, h: S.Hist): S.Hist
    requires Wf(w, c) && S.Wf(w, d, s) && d > 0
  {
    S.Observe(w, d, s, SerIn(c, i, tdo), h)
  }

  /** At rest, without a header word, nothing happens. */
  lemma RestStep(w: nat, d: nat, dev: Device, c: Reg, s: S.Reg, h: S.Hist, i: In, tdo: bool)
    requires AtRest(w, d, dev, c, s, h) && InWf(w, i) && (!s.tck ==> tdo == dev(h.edges))
    ensures var h' := NextHist(w, d, c, s, i, tdo, h);
            && !Emits(c, i) && h'.jobs == h.jobs && h'.outs == h.outs
            && (!(Consumes(c, i) && !i.last) ==> AtRest(w, d, dev, Next(w, d, c, s, i), NextSer(w, d, c, s, i, tdo),
                                                        h'))
  {
    SerTick(w, d, dev, c, s, h, i, tdo);
    assert c.state == Idle && Next(w, d, c, s, i) == IdleNext(w, c, i);
  }

  /** A header word starts a frame. */
  lemma FrameBegins(w: nat, d: nat, dev: Device, f: Frame, c: Reg, s: S.Reg, h: S.Hist, i: In, tdo: bool)
    returns (c': Reg, s': S.Reg, h': S.Hist)
    requires AtRest(w, d, dev, c, s, h) && InWf(w, i) && (!s.tck ==> tdo == dev(h.edges)) && Consumes(c, i) && !i.last
    requires FrameOk(w, f) && (Clean(w, f) || Stillborn(f)) && f.len == NatOf(i.data[..H.LEN_WIDTH])
    ensures c' == Next(w, d, c, s, i) && s' == NextSer(w, d, c, s, i, tdo) && h' == NextHist(w, d, c, s, i, tdo, h)
    ensures Busy(w, d, dev, f, h.jobs, c', s', h', Progress(1, 0, 0))
  {
    SerTick(w, d, dev, c, s, h, i, tdo);
    c', s', h' := IdleNext(w, c, i), NextSer(w, d, c, s, i, tdo), NextHist(w, d, c, s, i, tdo, h);
    FreshFrame(w, d, dev, f, c', s', h');
  }

  lemma FreshFrame(w: nat, d: nat, dev: Device, f: Frame, c: Reg, s: S.Reg, h: S.Hist)
    requires SerOk(w, d, dev, c, s, h) && FrameOk(w, f) && (Clean(w, f) || Stillborn(f)) && |h.outs| == |h.jobs|
    requires c.state == GetTms && c.nBitsTot == f.len && c.tdoPass && !c.tLast && c.iCnt == 0 && c.oCnt == 0
    requires !c.tdoValid && !c.tdiValid && c.sReady && !c.last && !c.tLastSeen && !c.running && !Pulse(s)
    ensures Busy(w, d, dev, f, h.jobs, c, s, h, Progress(1, 0, 0))
  {
    assert h.jobs == h.jobs + Jobs(w, f, 0);
  }

  /** Puts the invariant together again from what the steps deliver. */
  lemma Assemble(w: nat, d: nat, dev: Device, f: Frame, wb: seq<S.Job>, c: Reg, s: S.Reg, h: S.Hist, g: Progress)
    requires d > 0 && Wf(w, c) && S.Inv(w, d, dev, s, h) && FrameOk(w, f) && (Clean(w, f) || Stillborn(f))
    requires Requesting(w, dev, f, wb, c, s, h, g)
    ensures c.state != Idle && Busy(w, d, dev, f, wb, c, s, h, g)
  {
  }

  lemma AssembleAlign(w: nat, d: nat, dev: Device, f: Frame, wb: seq<S.Job>, c: Reg, s: S.Reg, h: S.Hist, g: Progress)
    requires SerOk(w, d, dev, c, s, h) && FrameOk(w, f) && Clean(w, f) && S.JobsOk(w, wb)
    requires h.jobs == wb + Jobs(w, f, Pairs(w, f)) && c.state == Align && InAlign(w, dev, f, wb, c, h, g)
    ensures Busy(w, d, dev, f, wb, c, s, h, g)
  {
  }

  lemma BusyComplete(w: nat, d: nat, dev: Device, f: Frame, wb: seq<S.Job>, c: Reg, s: S.Reg, h: S.Hist, i: In,
                     tdo: bool, g: Progress)
    requires Busy(w, d, dev, f, wb, c, s, h, g) && Feeds(w, f, g, i) && (!s.tck ==> tdo == dev(h.edges))
    requires c.state == Shift && Completes(c, s, i)
    ensures var c' := Next(w, d, c, s, i);
            && c'.state == Align
            && Busy(w, d, dev, f, wb, c', NextSer(w, d, c, s, i, tdo), NextHist(w, d, c, s, i, tdo, h),
                    Advance(c, i, g))
  {
    SerTick(w, d, dev, c, s, h, i, tdo);
    var s' := NextSer(w, d, c, s, i, tdo);
    var h' := NextHist(w, d, c, s, i, tdo, h);
    CompleteStep(w, d, dev, f, wb, c, s, h, i, tdo, g, s', h');
    AssembleAlign(w, d, dev, f, wb, Next(w, d, c, s, i), s', h', Advance(c, i, g));
  }

  lemma BusyGetTms(w: nat, d: nat, dev: Device, f: Frame, wb: seq<S.Job>, c: Reg, s: S.Reg, h: S.Hist, i: In, tdo: bool,
                   g: Progress)
    requires Busy(w, d, dev, f, wb, c, s, h, g) && Feeds(w, f, g, i) && (!s.tck ==> tdo == dev(h.edges))
    requires c.state == GetTms
    ensures var c' := Next(w, d, c, s, i);
            var s' := NextSer(w, d, c, s, i, tdo);
            var h' := NextHist(w, d, c, s, i, tdo, h);
            var g' := Advance(c, i, g);
            && (c'.state != Idle ==> Busy(w, d, dev, f, wb, c', s', h', g'))
            && (c'.state == Idle ==> Finished(w, d, dev, f, wb, c', s', h', g'))
  {
    SerTick(w, d, dev, c, s, h, i, tdo);
    var s' := NextSer(w, d, c, s, i, tdo);
    var h' := NextHist(w, d, c, s, i, tdo, h);
    if Consumes(c, i) && i.last {
      StillbornStep(w, d, dev, f, wb, c, s, h, i, tdo, g, s', h');
    } else {
      var c', g' := GetTmsStep(w, d, dev, f, wb, c, s, h, i, tdo, g, s', h');
      Assemble(w, d, dev, f, wb, c', s', h', g');
    }
  }

  lemma BusyGetTdi(w: nat, d: nat, dev: Device, f: Frame, wb: seq<S.Job>, c: Reg, s: S.Reg, h: S.Hist, i: In, tdo: bool,
                   g: Progress)
    requires Busy(w, d, dev, f, wb, c, s, h, g) && Feeds(w, f, g, i) && (!s.tck ==> tdo == dev(h.edges))
    requires c.state == GetTdi
    ensures var c' := Next(w, d, c, s, i);
            var s' := NextSer(w, d, c, s, i, tdo);
            var h' := NextHist(w, d, c, s, i, tdo, h);
            var g' := Advance(c, i, g);
            && (c'.state != Idle ==> Busy(w, d, dev, f, wb, c', s', h', g'))
            && (c'.state == Idle ==> Finished(w, d, dev, f, wb, c', s', h', g'))
  {
    SerTick(w, d, dev, c, s, h, i, tdo);
    var s' := NextSer(w, d, c, s, i, tdo);
    var h' := NextHist(w, d, c, s, i, tdo, h);
    var c', g' := GetTdiStep(w, d, dev, f, wb, c, s, h, i, tdo, g, s', h');
    Assemble(w, d, dev, f, wb, c', s', h', g');
  }

  lemma BusyShifting(w: nat, d: nat, dev: Device, f: Frame, wb: seq<S.Job>, c: Reg, s: S.Reg, h: S.Hist, i: In,
                     tdo: bool, g: Progress)
    requires Busy(w, d, dev, f, wb, c, s, h, g) && Feeds(w, f, g, i) && (!s.tck ==> tdo == dev(h.edges))
    requires c.state == Shift && !Completes(c, s, i)
    ensures var c' := Next(w, d, c, s, i);
            && c'.state != Idle
            && Busy(w, d, dev, f, wb, c', NextSer(w, d, c, s, i, tdo), NextHist(w, d, c, s, i, tdo, h),
                    Advance(c, i, g))
  {
    SerTick(w, d, dev, c, s, h, i, tdo);
    var s' := NextSer(w, d, c, s, i, tdo);
    var h' := NextHist(w, d, c, s, i, tdo, h);
    var c', g' := ShiftStep(w, d, dev, f, wb, c, s, h, i, tdo, g, s', h');
    Assemble(w, d, dev, f, wb, c', s', h', g');
  }

  lemma BusyAlign(w: nat, d: nat, dev: Device, f: Frame, wb: seq<S.Job>, c: Reg, s: S.Reg, h: S.Hist, i: In, tdo: bool,
                  g: Progress)
    requires Busy(w, d, dev, f, wb, c, s, h, g) && Feeds(w, f, g, i) && (!s.tck ==> tdo == dev(h.edges))
    requires c.state == Align
    ensures var c' := Next(w, d, c, s, i);
            var s' := NextSer(w, d, c, s, i, tdo);
            var h' := NextHist(w, d, c, s, i, tdo, h);
            var g' := Advance(c, i, g);
            && (c'.state != Idle ==> Busy(w, d, dev, f, wb, c', s', h', g'))
            && (c'.state == Idle ==> Finished(w, d, dev, f, wb, c', s', h', g'))
  {
    SerTick(w, d, dev, c, s, h, i, tdo);
    var s' := NextSer(w, d, c, s, i, tdo);
    var h' := NextHist(w, d, c, s, i, tdo, h);
    AlignStep(w, d, dev, f, wb, c, s, h, i, tdo, g, s', h');
  }

  lemma BusyDiscard(w: nat, d: nat, dev: Device, f: Frame, wb: seq<S.Job>, c: Reg, s: S.Reg, h: S.Hist, i: In,
                    tdo: bool, g: Progress)
    requires Busy(w, d, dev, f, wb, c, s, h, g) && Feeds(w, f, g, i) && (!s.tck ==> tdo == dev(h.edges))
    requires c.state == Discard
    ensures var c' := Next(w, d, c, s, i);
            var s' := NextSer(w, d, c, s, i, tdo);
            var h' := NextHist(w, d, c, s, i, tdo, h);
            var g' := Advance(c, i, g);
            && (c'.state != Idle ==> Busy(w, d, dev, f, wb, c', s', h', g'))
            && (c'.state == Idle ==> Finished(w, d, dev, f, wb, c', s', h', g'))
  {
    SerTick(w, d, dev, c, s, h, i, tdo);
    var s' := NextSer(w, d, c, s, i, tdo);
    var h' := NextHist(w, d, c, s, i, tdo, h);
    DiscardStep(w, d, dev, f, wb, c, s, h, i, tdo, g, s', h');
  }

  /** Inside a frame, every clock keeps the invariant or ends the frame with everything answered. */
  lemma BusyStep(w: nat, d: nat, dev: Device, f: Frame, wb: seq<S.Job>, c: Reg, s: S.Reg, h: S.Hist, i: In, tdo: bool,
                 g: Progress)
    requires Busy(w, d, dev, f, wb, c, s, h, g) && Feeds(w, f, g, i) && (!s.tck ==> tdo == dev(h.edges))
    ensures var c' := Next(w, d, c, s, i);
            var s' := NextSer(w, d, c, s, i, tdo);
            var h' := NextHist(w, d, c, s, i, tdo, h);
            var g' := Advance(c, i, g);
            && (c'.state != Idle ==> Busy(w, d, dev, f, wb, c', s', h', g'))
            && (c'.state == Idle ==> Finished(w, d, dev, f, wb, c', s', h', g'))
  {
    match c.state
    case GetTms => BusyGetTms(w, d, dev, f, wb, c, s, h, i, tdo, g);
    case GetTdi => BusyGetTdi(w, d, dev, f, wb, c, s, h, i, tdo, g);
    case Shift =>
      if Completes(c, s, i) {
        BusyComplete(w, d, dev, f, wb, c, s, h, i, tdo, g);
      } else {
        BusyShifting(w, d, dev, f, wb, c, s, h, i, tdo, g);
      }
    case Align => BusyAlign(w, d, dev, f, wb, c, s, h, i, tdo, g);
    case Discard => BusyDiscard(w, d, dev, f, wb, c, s, h, i, tdo, g);
  }

  /** A word leaving the core is the next reply word, and carries TLAST exactly if it is the last one. */
  lemma EmittedWord(w: nat, d: nat, dev: Device, f: Frame, wb: seq<S.Job>, c: Reg, s: S.Reg, h: S.Hist, i: In,
                    g: Progress)
    requires Busy(w, d, dev, f, wb, c, s, h, g) && Emits(c, i)
    ensures g.out < Pairs(w, f) && c.tdo == RepWord(w, dev, wb, f, g.out)
    ensures c.tLast <==> g.out == Pairs(w, f) - 1
  {
  }

  /** The core does not take words beyond its frame. */
  lemma BusyPos(w: nat, d: nat, dev: Device, f: Frame, wb: seq<S.Job>, c: Reg, s: S.Reg, h: S.Hist, i: In, g: Progress)
    requires Busy(w, d, dev, f, wb, c, s, h, g)
    ensures 1 <= g.pos <= |f.p| + 1
    ensures Consumes(c, i) ==> g.pos <= |f.p|
    ensures c.running == (g.pos >= 2)
  {
  }

  /** Before the first TMS word, the core waits for it; after it, there is a TDI word. */
  lemma BusyStart(w: nat, d: nat, dev: Device, f: Frame, wb: seq<S.Job>, c: Reg, s: S.Reg, h: S.Hist, g: Progress)
    requires Busy(w, d, dev, f, wb, c, s, h, g)
    ensures !c.running ==> c.state == GetTms
    ensures g.pos >= 2 ==> |f.p| >= 2
  {
  }

  /** A frame with data ends exactly when its last reply word leaves. */
  lemma BusyEnds(w: nat, d: nat, dev: Device, f: Frame, wb: seq<S.Job>, c: Reg, s: S.Reg, h: S.Hist, i: In, g: Progress)
    requires Busy(w, d, dev, f, wb, c, s, h, g) && Feeds(w, f, g, i) && Clean(w, f)
    ensures Next(w, d, c, s, i).state == Idle <==> Emits(c, i) && c.tLast
  {
    match c.state
    case GetTms =>
      NotOver(w, f, wb, c, s, h, i, g);
      GoesOn(w, d, c, s, i);
    case GetTdi => GoesOn(w, d, c, s, i);
    case Shift => GoesOn(w, d, c, s, i);
    case Align =>
      NothingComes(w, d, dev, f, wb, c, s, h, g);
      EndsQuietly(w, d, c, s, i);
    case Discard =>
      NothingComes(w, d, dev, f, wb, c, s, h, g);
      EndsQuietly(w, d, c, s, i);
  }

  lemma GoesOn(w: nat, d: nat, c: Reg, s: S.Reg, i: In)
    requires Wf(w, c) && S.Wf(w, d, s) && w >= H.LEN_WIDTH && InWf(w, i) && !c.tLast
    requires c.state == GetTms || c.state == GetTdi || c.state == Shift
    requires c.state == GetTms ==> !(Consumes(c, i) && i.last)
    ensures Next(w, d, c, s, i).state != Idle
  {
    var v := StatesGoOn(w, c, s.iReady, i);
    ReplyGoesOn(w, c, v, s.oValid, s.tdo[..w], i);
  }

  lemma StatesGoOn(w: nat, c: Reg, tdiReady: bool, i: In) returns (v: Reg)
    requires Wf(w, c) && w >= H.LEN_WIDTH && InWf(w, i) && (c.state == GetTms || c.state == GetTdi || c.state == Shift)
    requires c.state == GetTms ==> !(Consumes(c, i) && i.last)
    ensures v == CaseNext(w, c, tdiReady, i) && v.state != Idle
  {
    v := CaseNext(w, c, tdiReady, i);
  }

  lemma ReplyGoesOn(w: nat, c: Reg, v: Reg, oValid: bool, tdo: Vec, i: In)
    requires Wf(w, v) && |tdo| == w && !c.tLast && v.state != Idle
    ensures CollectNext(w, c, OutputNext(w, c, v, i), oValid, tdo, i).state != Idle
  {
  }

  lemma EndsQuietly(w: nat, d: nat, c: Reg, s: S.Reg, i: In)
    requires Wf(w, c) && S.Wf(w, d, s) && w >= H.LEN_WIDTH && InWf(w, i) && !s.oValid
    requires (c.state == Align && !c.tdoPass) || (c.state == Discard && c.tLast)
    ensures Next(w, d, c, s, i).state == Idle <==> Emits(c, i) && c.tLast
  {
    var v := LastGoesOn(w, c, s.iReady, i);
  }

  lemma LastGoesOn(w: nat, c: Reg, tdiReady: bool, i: In) returns (v: Reg)
    requires Wf(w, c) && w >= H.LEN_WIDTH && InWf(w, i) && (c.state == Align || c.state == Discard)
    ensures v == CaseNext(w, c, tdiReady, i) && v.state != Idle
  {
    v := if c.state == Align then AlignNext(w, c, i) else DiscardNext(w, c, i);
  }

  lemma NotOver(w: nat, f: Frame, wb: seq<S.Job>, c: Reg, s: S.Reg, h: S.Hist, i: In, g: Progress)
    requires FrameOk(w, f) && Clean(w, f) && InGetTms(w, f, wb, c, s, h, g) && Feeds(w, f, g, i)
    ensures !(Consumes(c, i) && i.last)
  {
  }

  lemma NothingComes(w: nat, d: nat, dev: Device, f: Frame, wb: seq<S.Job>, c: Reg, s: S.Reg, h: S.Hist, g: Progress)
    requires Busy(w, d, dev, f, wb, c, s, h, g) && (c.state == Align || c.state == Discard)
    ensures !s.oValid
  {
    S.Holds(w, d, dev, s, h);
  }
}
