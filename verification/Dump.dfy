// JtagDumpCtx: the server's own watch on the vectors it sends; states, and how many bits each scan had.

module Dump {
  import opened Options
  import opened Jtag
  import opened HostSpec
  import opened TapFsm
  import opened TapScan

  /** State and the lengths of the last instruction and data scan. */
  datatype Ctx = Ctx(state: TapState, irLen: nat, drLen: nat)

  function Advanced(c: Ctx, tms: bool): Ctx {
    var next := Step(c.state, tms);
    match c.state
    case CaptureIR => c.(state := next, irLen := 0)
    case ShiftIR => c.(state := next, irLen := c.irLen + 1)
    case CaptureDR => c.(state := next, drLen := 0)
    case ShiftDR => c.(state := next, drLen := c.drLen + 1)
    case _ => c.(state := next)
  }

  /** Bits one after the other, until there are none left or a state is reached. */
  function Process(c: Ctx, tms: seq<bool>, until: Option<TapState>): Ctx
    decreases |tms|
  {
    if tms == [] || until == Some(c.state) then c else Process(Advanced(c, tms[0]), tms[1..], until)
  }

  /** How many bits are left then. */
  function Left(c: Ctx, tms: seq<bool>, until: Option<TapState>): nat
    decreases |tms|
  {
    if tms == [] then 0 else if until == Some(c.state) then |tms| else Left(Advanced(c, tms[0]), tms[1..], until)
  }

  /** A count of bits kept as 64-bit words and a position in the last one. The bits themselves are left out. */
  class JtagRegType {
    var size: nat
    var bitpos: nat

    predicate Valid()
      reads this
    {
      size > 0 && bitpos < 64
    }

    function Count(): int
      reads this
    {
      64 * (size - 1) + bitpos
    }

    constructor ()
      ensures Valid() && Count() == 0
    {
      size, bitpos := 1, 0;
    }

    method Clear()
      modifies this
      ensures Valid() && Count() == 0
    {
      size, bitpos := 1, 0;
    }

    method GetNumBits() returns (n: nat)
      requires Valid()
      ensures n == Count()
    {
      n := (size - 1) * 8 * 8 + bitpos;
    }

    method AddBit()
      requires Valid()
      modifies this
      ensures Valid() && Count() == old(Count()) + 1
    {
      bitpos := bitpos + 1;
      if bitpos >= 64 {
        bitpos := 0;
        size := size + 1;
      }
    }
  }

  class JtagDumpCtx {
    var state: TapState
    const iri: JtagRegType
    const dri: JtagRegType

    predicate Valid()
      reads this, iri, dri
    {
      iri != dri && iri.Valid() && dri.Valid()
    }

    function Now(): Ctx
      reads this, iri, dri
      requires Valid()
    {
      Ctx(state, iri.Count(), dri.Count())
    }

    constructor ()
      ensures Valid() && fresh(iri) && fresh(dri) && Now() == Ctx(TestLogicReset, 0, 0)
    {
      state := TestLogicReset;
      iri := new JtagRegType();
      dri := new JtagRegType();
    }

    method Advance(tms: bool)
      requires Valid()
      modifies this, iri, dri
      ensures Valid() && Now() == Advanced(old(Now()), tms)
    {
      match state {
        case TestLogicReset => if !tms { state := RunTestIdle; }
        case RunTestIdle => if tms { state := SelectDRScan; }
        case SelectDRScan => state := if tms then SelectIRScan else CaptureDR;
        case CaptureDR =>
          dri.Clear();
          state := if tms then Exit1DR else ShiftDR;
        case ShiftDR =>
          dri.AddBit();
          if tms { state := Exit1DR; }
        case Exit1DR => state := if tms then UpdateDR else PauseDR;
        case PauseDR => if tms { state := Exit2DR; }
        case Exit2DR => state := if tms then UpdateDR else ShiftDR;
        case UpdateDR => state := if tms then SelectDRScan else RunTestIdle;
        case SelectIRScan => state := if tms then TestLogicReset else CaptureIR;
        case CaptureIR =>
          iri.Clear();
          state := if tms then Exit1IR else ShiftIR;
        case ShiftIR =>
          iri.AddBit();
          if tms { state := Exit1IR; }
        case Exit1IR => state := if tms then UpdateIR else PauseIR;
        case PauseIR => if tms { state := Exit2IR; }
        case Exit2IR => state := if tms then UpdateIR else ShiftIR;
        case UpdateIR => state := if tms then SelectDRScan else RunTestIdle;
      }
    }

    /** Byte after byte, bit after bit; returns how many bits are left when `until` is reached. */
    method ProcessBuf(nbits: nat, tmsb: seq<Byte>, until: Option<TapState>) returns (left: nat)
      requires Valid() && nbits <= 8 * |tmsb|
      modifies this, iri, dri
      ensures Valid() && Now() == Process(old(Now()), Flat(tmsb)[..nbits], until)
      ensures left == Left(old(Now()), Flat(tmsb)[..nbits], until)
    {
      ghost var all, c := Flat(tmsb)[..nbits], Now();
      ghost var rest := all;
      var todo, at := nbits, 0;
      while todo > 0
        invariant Valid() && 0 <= todo <= nbits && rest == all[nbits - todo..] && (todo > 0 ==> nbits - todo == 8 * at)
        invariant Same(c, all, Now(), rest, until)
      {
        var n := if todo < 8 then todo else 8;
        var m := 0;
        ghost var before := todo;
        while m < n
          invariant Valid() && m <= n && todo == before - m && rest == all[nbits - todo..]
          invariant Same(c, all, Now(), rest, until)
          decreases n - m
        {
          if until == Some(state) { return todo; }
          BufferBit(tmsb, nbits, at, m);
          Advance(tmsb[at][m]);
          rest := rest[1..];
          todo := todo - 1;
          m := m + 1;
        }
        at := at + 1;
      }
      return 0;
    }
  }

  /** Processing `rest` from `now` on is all that is missing. */
  predicate Same(c: Ctx, all: seq<bool>, now: Ctx, rest: seq<bool>, until: Option<TapState>) {
    Process(c, all, until) == Process(now, rest, until) && Left(c, all, until) == Left(now, rest, until)
  }

  lemma BufferBit(tmsb: seq<Byte>, nbits: nat, at: nat, m: nat)
    requires nbits <= 8 * |tmsb| && m < 8 && 8 * at + m < nbits
    ensures at < |tmsb| && Flat(tmsb)[..nbits][8 * at + m..] != []
    ensures Flat(tmsb)[..nbits][8 * at + m..][0] == tmsb[at][m]
    ensures Flat(tmsb)[..nbits][8 * at + m..][1..] == Flat(tmsb)[..nbits][8 * at + m + 1..]
  {
  }

  // ---- what it amounts to ----

  /** Vectors in pieces are watched as if they came at once. */
  lemma {:induction false} ProcessInPieces(c: Ctx, a: seq<bool>, b: seq<bool>)
    ensures Process(c, a + b, None) == Process(Process(c, a, None), b, None)
    decreases |a|
  {
    if a == [] {
      assert a + b == b;
    } else {
      assert (a + b)[1..] == a[1..] + b;
      ProcessInPieces(Advanced(c, a[0]), a[1..], b);
    }
  }

  /** The bits that are processed end where the wanted state is reached for the first time, or with the last one. */
  lemma {:induction false} StopsAtFirst(c: Ctx, tms: seq<bool>, until: Option<TapState>)
    ensures var k := |tms| - Left(c, tms, until);
            && 0 <= k <= |tms| && Process(c, tms, until) == Process(c, tms[..k], None)
            && (forall j :: 0 <= j < k ==> until != Some(Process(c, tms[..j], None).state))
            && (k < |tms| ==> until == Some(Process(c, tms[..k], None).state))
    decreases |tms|
  {
    if tms == [] || until == Some(c.state) {
      assert tms[..0] == [];
    } else {
      var d, rest := Advanced(c, tms[0]), tms[1..];
      StopsAtFirst(d, rest, until);
      forall j | 0 < j <= |tms|
        ensures Process(c, tms[..j], None) == Process(d, rest[..j - 1], None)
      {
        assert tms[..j][0] == tms[0] && tms[..j][1..] == rest[..j - 1];
      }
    }
  }

  function TmsOf(pins: seq<Pin>): (v: seq<bool>)
    ensures |v| == |pins|
  {
    seq(|pins|, i requires 0 <= i < |pins| => pins[i].tms)
  }

  /** It stays in the state of the TAP, and the lengths are the shifts since the last capture. */
  lemma {:induction false} DumpFollows(c: Ctx, pins: seq<Pin>)
    ensures Process(c, TmsOf(pins), None).state == StateAfter(c.state, pins)
    ensures c.state.CaptureIR? && OneScan(true, c.state, pins) && pins != [] ==>
              Process(c, TmsOf(pins), None).irLen == |Sent(true, c.state, pins)|
    ensures c.state.CaptureDR? && OneScan(false, c.state, pins) && pins != [] ==>
              Process(c, TmsOf(pins), None).drLen == |Sent(false, c.state, pins)|
  {
    if pins != [] {
      var n := |pins| - 1;
      var pre := pins[..n];
      DumpFollows(c, pre);
      assert TmsOf(pins) == TmsOf(pre) + [pins[n].tms];
      ProcessInPieces(c, TmsOf(pre), [pins[n].tms]);
      var v := Process(c, TmsOf(pre), None);
      assert [pins[n].tms][1..] == [];
      assert Process(v, [pins[n].tms], None) == Advanced(v, pins[n].tms);
      NoCaptureWithin(c.state, pre);
    }
  }

  /** Within a scan the capture state is only the first one. */
  lemma {:induction false} NoCaptureWithin(s: TapState, pins: seq<Pin>)
    ensures s.CaptureIR? && OneScan(true, s, pins) && pins != [] ==> !StateAfter(s, pins).CaptureIR?
    ensures s.CaptureDR? && OneScan(false, s, pins) && pins != [] ==> !StateAfter(s, pins).CaptureDR?
  {
    if pins != [] {
      var pre := pins[..|pins| - 1];
      StaysInScan(true, s, pre);
      StaysInScan(false, s, pre);
    }
  }

  lemma StaysInScan(ir: bool, s: TapState, pins: seq<Pin>)
    ensures OneScan(ir, s, pins) ==> InScan(ir, StateAfter(s, pins))
  {
  }
}
