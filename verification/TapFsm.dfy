// The TAP controller of IEEE Std 1149.1 (section 6.1), as 16 states and in the two one-hot vectors of JtagTapFSM.

module TapFsm {
  import opened Bits

  datatype TapState =
    | TestLogicReset | RunTestIdle
    | SelectDRScan | CaptureDR | ShiftDR | Exit1DR | PauseDR | Exit2DR | UpdateDR
    | SelectIRScan | CaptureIR | ShiftIR | Exit1IR | PauseIR | Exit2IR | UpdateIR

  /** The state after a rising edge of TCK. */
  function Step(s: TapState, tms: bool): TapState {
    match s
    case TestLogicReset => if tms then TestLogicReset else RunTestIdle
    case RunTestIdle => if tms then SelectDRScan else RunTestIdle
    case SelectDRScan => if tms then SelectIRScan else CaptureDR
    case CaptureDR => if tms then Exit1DR else ShiftDR
    case ShiftDR => if tms then Exit1DR else ShiftDR
    case Exit1DR => if tms then UpdateDR else PauseDR
    case PauseDR => if tms then Exit2DR else PauseDR
    case Exit2DR => if tms then UpdateDR else ShiftDR
    case UpdateDR => if tms then SelectDRScan else RunTestIdle
    case SelectIRScan => if tms then TestLogicReset else CaptureIR
    case CaptureIR => if tms then Exit1IR else ShiftIR
    case ShiftIR => if tms then Exit1IR else ShiftIR
    case Exit1IR => if tms then UpdateIR else PauseIR
    case PauseIR => if tms then Exit2IR else PauseIR
    case Exit2IR => if tms then UpdateIR else ShiftIR
    case UpdateIR => if tms then SelectDRScan else RunTestIdle
  }

  function Walk(s: TapState, tms: seq<bool>): TapState {
    if tms == [] then s else Step(Walk(s, tms[..|tms| - 1]), tms[|tms| - 1])
  }

  /** Five ones reach Test-Logic-Reset from anywhere. */
  lemma ResetFromAnywhere(s: TapState)
    ensures Step(Step(Step(Step(Step(s, true), true), true), true), true) == TestLogicReset
  {
  }

  lemma {:induction false} WalkJoined(s: TapState, a: seq<bool>, b: seq<bool>)
    ensures Walk(s, a + b) == Walk(Walk(s, a), b)
  {
    if b == [] {
      assert a + b == a;
    } else {
      var n := |b| - 1;
      WalkJoined(s, a, b[..n]);
      assert (a + b)[..|a| + n] == a + b[..n];
    }
  }

  /** The states that zeros do not leave. */
  lemma {:induction false} Stays(s: TapState, n: nat)
    requires s.RunTestIdle? || s.ShiftDR? || s.ShiftIR? || s.PauseDR? || s.PauseIR?
    ensures Walk(s, Zeros(n)) == s
  {
    if n > 0 {
      Stays(s, n - 1);
      assert Zeros(n)[..n - 1] == Zeros(n - 1);
    }
  }

  lemma Walk2(s: TapState, a: bool, b: bool)
    ensures Walk(s, [a, b]) == Step(Step(s, a), b)
  {
    assert [a, b][..1] == [a] && [a][..0] == [];
    assert Walk(s, [a]) == Step(s, a);
  }

  /** A pause of any length in the middle of a shift leads back to the shift. */
  lemma PauseAndBack(s: TapState, n: nat)
    requires s.ShiftDR? || s.ShiftIR?
    ensures Walk(s, [true, false] + Zeros(n) + [true, false]) == s
  {
    WalkJoined(s, [true, false] + Zeros(n), [true, false]);
    WalkJoined(s, [true, false], Zeros(n));
    Walk2(s, true, false);
    Walk2(Step(Step(s, true), false), true, false);
    Stays(Step(Step(s, true), false), n);
  }

  /** From the shift, straight or out of a pause of any length, two ones lead to the update. */
  lemma ToUpdate(s: TapState, n: nat)
    requires s.ShiftDR? || s.ShiftIR?
    ensures Walk(s, [true, true]) == if s.ShiftDR? then UpdateDR else UpdateIR
    ensures Walk(s, [true, false] + Zeros(n) + [true, true]) == if s.ShiftDR? then UpdateDR else UpdateIR
  {
    WalkJoined(s, [true, false] + Zeros(n), [true, true]);
    WalkJoined(s, [true, false], Zeros(n));
    Walk2(s, true, false);
    Walk2(s, true, true);
    Walk2(Step(Step(s, true), false), true, true);
    Stays(Step(Step(s, true), false), n);
  }

  /** From idle or an update, 1, 0 leads to the capture of a data register and 1, 1, 0 to that of the instruction. */
  lemma ToCapture(s: TapState)
    requires s.RunTestIdle? || s.UpdateDR? || s.UpdateIR?
    ensures Walk(s, [true, false]) == CaptureDR && Walk(s, [true, true] + [false]) == CaptureIR
    ensures Step(CaptureDR, false) == ShiftDR && Step(CaptureIR, false) == ShiftIR
    ensures Step(s, false) == RunTestIdle
  {
    Walk2(s, true, false);
    Walk2(s, true, true);
    WalkJoined(s, [true, true], [false]);
    assert [false][..0] == [];
  }

  // ---- the encoding of the FSM ----

  const TEST_LOGIC_RESET := 0
  const RUN_TEST_IDLE := 1
  const SCAN_DR := 2
  const SCAN_IR := 3

  const SELECT_SCAN := 0
  const CAPTURE := 1
  const SHIFT := 2
  const EXIT1 := 3
  const PAUSE := 4
  const EXIT2 := 5
  const UPDATE := 6

  /** Primary state and scan sub-state, one bit each state. */
  datatype Enc = Enc(primary: Vec, scan: Vec)

  predicate EncOk(e: Enc) { |e.primary| == 4 && |e.scan| == 7 }

  function OneHot(n: nat, k: nat): (v: Vec)
    ensures |v| == n && forall i :: 0 <= i < n ==> v[i] == (i == k)
  {
    seq(n, i => i == k)
  }

  function Primary(k: nat): (v: Vec)
    ensures |v| == 4
  {
    OneHot(4, k)
  }

  function Scan(k: nat): (v: Vec)
    ensures |v| == 7
  {
    OneHot(7, k)
  }

  const NO_SCAN: Vec := [false, false, false, false, false, false, false]

  function Column(s: TapState): nat {
    match s
    case SelectDRScan | SelectIRScan => SELECT_SCAN
    case CaptureDR | CaptureIR => CAPTURE
    case ShiftDR | ShiftIR => SHIFT
    case Exit1DR | Exit1IR => EXIT1
    case PauseDR | PauseIR => PAUSE
    case Exit2DR | Exit2IR => EXIT2
    case UpdateDR | UpdateIR => UPDATE
    case _ => 0
  }

  predicate InDR(s: TapState) {
    s.SelectDRScan? || s.CaptureDR? || s.ShiftDR? || s.Exit1DR? || s.PauseDR? || s.Exit2DR? || s.UpdateDR?
  }

  predicate InIR(s: TapState) {
    s.SelectIRScan? || s.CaptureIR? || s.ShiftIR? || s.Exit1IR? || s.PauseIR? || s.Exit2IR? || s.UpdateIR?
  }

  /** How the FSM holds state `s`. */
  function Encode(s: TapState): (e: Enc)
    ensures EncOk(e)
  {
    if s.TestLogicReset? then Enc(Primary(TEST_LOGIC_RESET), NO_SCAN)
    else if s.RunTestIdle? then Enc(Primary(RUN_TEST_IDLE), NO_SCAN)
    else Enc(Primary(if InDR(s) then SCAN_DR else SCAN_IR), Scan(Column(s)))
  }

  /** Neither vector has the bit of a state: the FSM reports a failure. */
  predicate Fails(e: Enc)
    requires EncOk(e)
  {
    && !e.primary[TEST_LOGIC_RESET] && !e.primary[RUN_TEST_IDLE]
    && (!(e.primary[SCAN_DR] || e.primary[SCAN_IR]) || forall k :: 0 <= k < 7 ==> !e.scan[k])
  }

  /** The moves in the scan columns. */
  function ScanNext(e: Enc, tms: bool): Enc
    requires EncOk(e)
  {
    if e.scan[SELECT_SCAN] then
      if !tms then Enc(e.primary, Scan(CAPTURE))
      else if e.primary[SCAN_DR] then Enc(Primary(SCAN_IR), e.scan)
      else Enc(Primary(TEST_LOGIC_RESET), NO_SCAN)
    else if e.scan[CAPTURE] then Enc(e.primary, Scan(if tms then EXIT1 else SHIFT))
    else if e.scan[SHIFT] then if tms then Enc(e.primary, Scan(EXIT1)) else e
    else if e.scan[EXIT1] then Enc(e.primary, Scan(if tms then UPDATE else PAUSE))
    else if e.scan[PAUSE] then if tms then Enc(e.primary, Scan(EXIT2)) else e
    else if e.scan[EXIT2] then Enc(e.primary, Scan(if tms then UPDATE else SHIFT))
    else if e.scan[UPDATE] && !tms then Enc(Primary(RUN_TEST_IDLE), NO_SCAN)
    else if e.scan[UPDATE] then Enc(Primary(SCAN_DR), Scan(SELECT_SCAN))
    else Enc(Primary(TEST_LOGIC_RESET), NO_SCAN)
  }

  lemma ScanFollows(s: TapState, tms: bool)
    requires InDR(s) || InIR(s)
    ensures ScanNext(Encode(s), tms) == Encode(Step(s, tms))
  {
    if InDR(s) { DRFollows(s, tms); } else { IRFollows(s, tms); }
  }

  lemma DRFollows(s: TapState, tms: bool)
    requires InDR(s)
    ensures ScanNext(Encode(s), tms) == Encode(Step(s, tms))
  {
    ScanStates(s);
  }

  lemma IRFollows(s: TapState, tms: bool)
    requires InIR(s)
    ensures ScanNext(Encode(s), tms) == Encode(Step(s, tms))
  {
    ScanStates(s);
  }

  class JtagTapFSM {
    var primaryState: Vec
    var scanSubState: Vec
    var failed: bool // a branch that should never be reached was reached

    function Now(): Enc
      reads this
    {
      Enc(primaryState, scanSubState)
    }

    constructor ()
      ensures Now() == Encode(TestLogicReset) && !failed
    {
      primaryState, scanSubState, failed := Primary(TEST_LOGIC_RESET), NO_SCAN, false;
    }

    /** The scan columns. */
    method ClockScan(tms: bool)
      requires EncOk(Now()) && !primaryState[TEST_LOGIC_RESET] && !primaryState[RUN_TEST_IDLE]
      requires primaryState[SCAN_DR] || primaryState[SCAN_IR]
      modifies this
      ensures EncOk(Now()) && failed == (old(failed) || Fails(old(Now())))
      ensures Now() == ScanNext(old(Now()), tms)
    {
      if scanSubState[SELECT_SCAN] {
        if !tms {
          scanSubState := Scan(CAPTURE);
        } else if primaryState[SCAN_DR] {
          primaryState := Primary(SCAN_IR);
        } else {
          primaryState, scanSubState := Primary(TEST_LOGIC_RESET), NO_SCAN;
        }
      } else if scanSubState[CAPTURE] {
        scanSubState := Scan(if tms then EXIT1 else SHIFT);
      } else if scanSubState[SHIFT] {
        if tms { scanSubState := Scan(EXIT1); }
      } else if scanSubState[EXIT1] {
        scanSubState := Scan(if tms then UPDATE else PAUSE);
      } else if scanSubState[PAUSE] {
        if tms { scanSubState := Scan(EXIT2); }
      } else if scanSubState[EXIT2] {
        scanSubState := Scan(if tms then UPDATE else SHIFT);
      } else if scanSubState[UPDATE] {
        if tms {
          primaryState, scanSubState := Primary(SCAN_DR), Scan(SELECT_SCAN);
        } else {
          primaryState, scanSubState := Primary(RUN_TEST_IDLE), NO_SCAN;
        }
      } else {
        failed := true;
        primaryState, scanSubState := Primary(TEST_LOGIC_RESET), NO_SCAN;
      }
    }

    /** A rising edge of TCK. */
    method Clock(tms: bool)
      requires EncOk(Now())
      modifies this
      ensures EncOk(Now()) && failed == (old(failed) || Fails(old(Now())))
      ensures Fails(old(Now())) ==> Now() == Encode(TestLogicReset)
      ensures forall s :: old(Now()) == Encode(s) ==> Now() == Encode(Step(s, tms)) && failed == old(failed)
    {
      ghost var was := Now();
      forall s | was == Encode(s)
        ensures was.primary[TEST_LOGIC_RESET] == s.TestLogicReset? && was.primary[RUN_TEST_IDLE] == s.RunTestIdle?
        ensures !Fails(was) && (InDR(s) || InIR(s) ==> ScanNext(was, tms) == Encode(Step(s, tms)))
      {
        if InDR(s) || InIR(s) {
          ScanStates(s);
          ScanFollows(s, tms);
        }
      }
      if primaryState[TEST_LOGIC_RESET] {
        if !tms { primaryState := Primary(RUN_TEST_IDLE); }
      } else if primaryState[RUN_TEST_IDLE] {
        if tms { primaryState, scanSubState := Primary(SCAN_DR), Scan(SELECT_SCAN); }
      } else if primaryState[SCAN_DR] || primaryState[SCAN_IR] {
        ClockScan(tms);
      } else {
        failed := true;
        primaryState, scanSubState := Primary(TEST_LOGIC_RESET), NO_SCAN;
      }
    }
  }

  lemma ScanStates(s: TapState)
    requires InDR(s) || InIR(s)
    ensures var e := Encode(s);
            && !e.primary[TEST_LOGIC_RESET] && !e.primary[RUN_TEST_IDLE] && !Fails(e)
            && e.primary[SCAN_DR] == InDR(s) && e.primary[SCAN_IR] == InIR(s)
            && forall k :: 0 <= k < 7 ==> e.scan[k] == (k == Column(s))
  {
    assert Encode(s).scan[Column(s)];
  }
}
