// What the pins look like in time: set-up before each rising edge of TCK, hold until its fall, and exact high phases.

module SerDesTiming {
  import opened Jtag
  import opened SerDes

  /** TMS and TDI as driven during one clock cycle. */
  function Pins(r: Reg): Pin {
    Pin(|r.tms| > 0 && r.tms[0], |r.tdi| > 0 && r.tdi[0])
  }

  /** Any run from reset: nothing at all is assumed of the surroundings but word widths. */
  predicate IsRun(w: nat, d: nat, rs: seq<Reg>, ins: seq<In>) {
    && w > 0 && d > 0 && |rs| == |ins| + 1 && rs[0] == Init(w)
    && (forall k :: 0 <= k < |rs| ==> Wf(w, d, rs[k]))
    && (forall k :: 0 <= k < |ins| ==> InWf(w, ins[k]) && rs[k + 1] == Next(w, d, rs[k], ins[k]))
  }

  /** In the `m` cycles up to cycle `k` TCK was low and the pins did not move. */
  predicate Low(rs: seq<Reg>, k: nat, m: nat)
    requires k < |rs|
  {
    m <= k + 1 && forall j :: k - m < j <= k ==> !rs[j].tck && Pins(rs[j]) == Pins(rs[k])
  }

  /**
   In the `m` cycles up to cycle `k`, and no earlier, TCK was high; the pins have not moved since `d` cycles before
   that.
   */
  predicate High(d: nat, rs: seq<Reg>, k: nat, m: nat)
    requires k < |rs|
  {
    && m <= k
    && (forall j :: k - m < j <= k ==> rs[j].tck && Pins(rs[j]) == Pins(rs[k]))
    && Low(rs, k - m, d) && d > 0 && Pins(rs[k - m]) == Pins(rs[k])
  }

  /** The divider tells how long the current phase has lasted. */
  predicate PhaseAt(w: nat, d: nat, rs: seq<Reg>, k: nat)
    requires k < |rs|
  {
    var r := rs[k];
    && Wf(w, d, r)
    && (if r.tck then High(d, rs, k, d - r.div)
        else (r.state == Shift ==> Low(rs, k, d - r.div)) && (r.state == Wai ==> Low(rs, k, d)))
  }

  lemma LowGoesOn(rs: seq<Reg>, k: nat, m: nat)
    requires k + 1 < |rs|
    requires Low(rs, k, m) && m > 0 && !rs[k + 1].tck && Pins(rs[k + 1]) == Pins(rs[k])
    ensures Low(rs, k + 1, m + 1)
  {
  }

  lemma LowShorter(rs: seq<Reg>, k: nat, m: nat, n: nat)
    requires k < |rs|
    requires Low(rs, k, m) && n <= m
    ensures Low(rs, k, n)
  {
  }

  /** What one clock does to TCK, pins and divider. */
  lemma OneClock(w: nat, d: nat, r: Reg, i: In)
    requires w > 0 && d > 0 && Wf(w, d, r) && InWf(w, i)
    ensures var v := Next(w, d, r, i);
            && (r.tck && v.tck ==> r.div > 0 && v.div == r.div - 1 && Pins(v) == Pins(r))
            && (r.tck && !v.tck ==> r.div == 0 && v.state == Shift && v.div == d - 1)
            && (!r.tck && v.tck ==> v.div == d - 1 && Pins(v) == Pins(r)
                                    && (r.state == Wai || (r.state == Shift && r.div == 0)))
            && (!r.tck && !v.tck && v.state == Shift ==>
                  if r.state == Idle then v.div == d - 1
                  else r.state == Shift && r.div > 0 && v.div == r.div - 1 && Pins(v) == Pins(r))
            && (!r.tck && v.state == Wai ==>
                  !v.tck && Pins(v) == Pins(r) && (r.state == Wai || (r.state == Shift && r.div == 0)))
            && (r.tck ==> v.state == Shift)
  {
  }

  /** In every run the strobes mark the cycles in which TCK has just risen or fallen. */
  lemma StrobesMarkEdges(w: nat, d: nat, rs: seq<Reg>, ins: seq<In>, k: nat)
    requires IsRun(w, d, rs, ins) && k < |ins|
    ensures rs[k + 1].tckPos <==> !rs[k].tck && rs[k + 1].tck
    ensures rs[k + 1].tckNeg <==> rs[k].tck && !rs[k + 1].tck
  {
    assert rs[k + 1] == Next(w, d, rs[k], ins[k]);
  }

  lemma PhaseStep(w: nat, d: nat, rs: seq<Reg>, ins: seq<In>, k: nat)
    requires IsRun(w, d, rs, ins) && k < |ins| && PhaseAt(w, d, rs, k)
    ensures PhaseAt(w, d, rs, k + 1)
  {
    var r, v := rs[k], rs[k + 1];
    OneClock(w, d, r, ins[k]);
    if !r.tck && !v.tck && r.state != Idle && (v.state == Shift || v.state == Wai) {
      var m := if r.state == Shift then d - r.div else d;
      LowGoesOn(rs, k, m);
      LowShorter(rs, k + 1, m + 1, if v.state == Shift then d - v.div else d);
    }
  }

  lemma {:induction false} PhaseAlways(w: nat, d: nat, rs: seq<Reg>, ins: seq<In>, k: nat)
    requires IsRun(w, d, rs, ins) && k < |rs|
    ensures PhaseAt(w, d, rs, k)
  {
    if k > 0 {
      PhaseAlways(w, d, rs, ins, k - 1);
      PhaseStep(w, d, rs, ins, k - 1);
    }
  }

  /**
   In every run: before TCK rises it was low for at least `d` cycles with TMS and TDI at the values they have at the
   edge, and before it falls it was high for exactly `d` cycles with TMS and TDI still at these values.
   */
  lemma PinTiming(w: nat, d: nat, rs: seq<Reg>, ins: seq<In>, k: nat)
    requires IsRun(w, d, rs, ins) && k < |ins|
    ensures !rs[k].tck && rs[k + 1].tck ==> Low(rs, k, d) && Pins(rs[k + 1]) == Pins(rs[k])
    ensures rs[k].tck && !rs[k + 1].tck ==> High(d, rs, k, d)
    ensures rs[k].tck && rs[k + 1].tck ==> Pins(rs[k + 1]) == Pins(rs[k])
  {
    PhaseAlways(w, d, rs, ins, k);
    OneClock(w, d, rs[k], ins[k]);
  }
}
