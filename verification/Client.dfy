// The client's algorithms (XvcClient) against the TAP: what they find out and where they leave the controller.

module Client {
  import opened Bits
  import opened Arith
  import opened Options
  import opened Jtag
  import opened ShiftSpec
  import opened HostSpec
  import opened TapFsm
  import opened Bscan
  import opened TapScan
  import ConnSpec
  import opened Requests
  import Header

  // ---- integers as bytes and bits ----

  function ByteOf(v: Vec, i: nat): Byte
    requires 8 * i + 8 <= |v|
  {
    v[8 * i..8 * i + 8]
  }

  function ToBytes(n: nat, k: nat): (bs: seq<Byte>)
    ensures |bs| == k
  {
    seq(k, i requires 0 <= i < k => ByteOf(BitsOf(n, 8 * k), i))
  }

  function FromBytes(bs: seq<Byte>): nat { NatOf(Flat(bs)) }

  /** Pins for the low `n` bits of two integers. */
  function PinsOf(tms: nat, tdi: nat, n: nat): (p: seq<Pin>)
    ensures |p| == n
  {
    seq(n, i requires 0 <= i < n => Pin(BitsOf(tms, n)[i], BitsOf(tdi, n)[i]))
  }

  lemma {:induction false} BitsPrefix(n: nat, k: nat, w: nat)
    requires k <= w
    ensures BitsOf(n, w)[..k] == BitsOf(n, k)
    decreases w
  {
    if k > 0 { BitsPrefix(n / 2, k - 1, w - 1); }
  }

  lemma ToBytesBit(n: nat, k: nat, i: nat)
    requires i < 8 * k
    ensures BitAt(ToBytes(n, k), i) == BitsOf(n, 8 * k)[i]
  {
  }

  /** What the server does with the bytes of a request is what the client means. */
  lemma PlanarIsPins(tms: nat, tdi: nat, n: nat)
    ensures Planar(n, ToBytes(tms, ByteCeil(n)), ToBytes(tdi, ByteCeil(n))) == PinsOf(tms, tdi, n)
  {
    var k := ByteCeil(n);
    BitsPrefix(tms, n, 8 * k);
    BitsPrefix(tdi, n, 8 * k);
    forall i | 0 <= i < n
      ensures Planar(n, ToBytes(tms, k), ToBytes(tdi, k))[i] == PinsOf(tms, tdi, n)[i]
    {
      ToBytesBit(tms, k, i);
      ToBytesBit(tdi, k, i);
      assert BitsOf(tms, 8 * k)[i] == BitsOf(tms, 8 * k)[..n][i] && BitsOf(tdi, 8 * k)[i] == BitsOf(tdi, 8 * k)[..n][i];
    }
  }

  lemma {:induction false} NatOfPadded(v: Vec, k: nat)
    ensures NatOf(v + Zeros(k)) == NatOf(v)
    decreases |v| + k
  {
    if v == [] {
      assert v + Zeros(k) == Zeros(k);
      if k > 0 {
        NatOfPadded(v, k - 1);
        assert Zeros(k)[1..] == Zeros(k - 1) == v + Zeros(k - 1);
      }
    } else {
      NatOfPadded(v[1..], k);
      assert (v + Zeros(k))[1..] == v[1..] + Zeros(k);
    }
  }

  /** The bytes of a reply are the integer that its bits make. */
  lemma FromPacked(t: Vec)
    ensures FromBytes(Packed(t)) == NatOf(t)
  {
    var k := 8 * ByteCeil(|t|) - |t|;
    forall i | 0 <= i < 8 * ByteCeil(|t|)
      ensures BitAt(Packed(t), i) == (i < |t| && t[i])
    {
      WordStart(8, |t|, i / 8);
      PieceBit(8, t, i / 8, i % 8);
    }
    assert Flat(Packed(t)) == t + Zeros(k);
    NatOfPadded(t, k);
  }

  // ---- the target as a device ----

  function TapDevice(cfg: Cfg, user: Device, t0: Tap): Device {
    h => TapOk(cfg, t0) && Run(cfg, user, t0, h).tdo
  }

  // ---- walks of the controller ----

  lemma RunSnoc(cfg: Cfg, user: Device, t: Tap, pins: seq<Pin>, k: nat)
    requires TapOk(cfg, t) && k < |pins|
    ensures Run(cfg, user, t, pins[..k + 1]) == Cycle(cfg, Run(cfg, user, t, pins[..k]), pins[k], user(pins[..k + 1]))
  {
    assert pins[..k + 1][..k] == pins[..k];
  }

  /** From any state, five ones and a zero lead to Run-Test/Idle with the ID instruction. */
  lemma ResetWalk(cfg: Cfg, user: Device, t: Tap, pins: seq<Pin>)
    requires TapOk(cfg, t) && |pins| == 6 && !pins[5].tms && forall k :: 0 <= k < 5 ==> pins[k].tms
    ensures var v := Run(cfg, user, t, pins);
            v.state == RunTestIdle && v.ir == cfg.regIdcode
  {
    RunState(cfg, user, t, pins[..5]);
    FiveOnes(t.state, pins[..5]);
    assert pins[..4] == pins[..5][..4];
    IntoReset(cfg, Run(cfg, user, t, pins[..4]), pins[4], user(pins[..5]));
    OutOfReset(cfg, Run(cfg, user, t, pins[..5]), pins[5], user(pins));
  }

  lemma IntoReset(cfg: Cfg, t: Tap, p: Pin, u: bool)
    requires TapOk(cfg, t) && Step(t.state, p.tms) == TestLogicReset
    ensures Cycle(cfg, t, p, u).ir == cfg.regIdcode
  {
  }

  lemma OutOfReset(cfg: Cfg, t: Tap, p: Pin, u: bool)
    requires TapOk(cfg, t) && t.state == TestLogicReset && !p.tms
    ensures Cycle(cfg, t, p, u).state == RunTestIdle && Cycle(cfg, t, p, u).ir == t.ir
  {
  }

  lemma StateSnoc(s: TapState, pins: seq<Pin>, k: nat)
    requires k < |pins|
    ensures StateAfter(s, pins[..k + 1]) == Step(StateAfter(s, pins[..k]), pins[k].tms)
  {
    assert pins[..k + 1][..k] == pins[..k];
  }

  lemma FiveOnes(s: TapState, pins: seq<Pin>)
    requires |pins| == 5 && forall k :: 0 <= k < 5 ==> pins[k].tms
    ensures StateAfter(s, pins) == TestLogicReset
  {
    StateSnoc(s, pins, 0);
    StateSnoc(s, pins, 1);
    StateSnoc(s, pins, 2);
    StateSnoc(s, pins, 3);
    StateSnoc(s, pins, 4);
    assert pins[..5] == pins;
    ResetFromAnywhere(s);
  }

  lemma IrKept(cfg: Cfg, t: Tap, p: Pin, u: bool)
    requires TapOk(cfg, t) && Step(t.state, p.tms) != TestLogicReset && Step(t.state, p.tms) != UpdateIR
    ensures Cycle(cfg, t, p, u).ir == t.ir
  {
  }

  lemma SelectIrWalk(cfg: Cfg, user: Device, t: Tap, pins: seq<Pin>)
    requires TapOk(cfg, t) && t.state.RunTestIdle? && |pins| == 4
    requires pins[0].tms && pins[1].tms && !pins[2].tms && !pins[3].tms
    ensures var v := Run(cfg, user, t, pins);
            Holding(cfg, true, v, cfg.irVal, []) && v.state.ShiftIR?
  {
    var pre := pins[..3];
    ToCaptureIr(t.state, pre);
    RunState(cfg, user, t, pre);
    CaptureStep(cfg, true, Run(cfg, user, t, pre), pins[3], user(pins));
  }

  lemma ToCaptureIr(s: TapState, pins: seq<Pin>)
    requires s.RunTestIdle? && |pins| == 3 && pins[0].tms && pins[1].tms && !pins[2].tms
    ensures StateAfter(s, pins) == CaptureIR
  {
    StateSnoc(s, pins, 0);
    StateSnoc(s, pins, 1);
    StateSnoc(s, pins, 2);
    assert pins[..3] == pins;
  }

  lemma SelectDrWalk(cfg: Cfg, user: Device, t: Tap, pins: seq<Pin>)
    requires TapOk(cfg, t) && t.state.RunTestIdle? && |pins| == 3 && pins[0].tms && !pins[1].tms && !pins[2].tms
    requires OwnRegister(cfg, t) && !SelUser(cfg, t.ir)
    ensures var v := Run(cfg, user, t, pins);
            Holding(cfg, false, v, Captured(cfg, false, t), []) && v.state.ShiftDR? && v.ir == t.ir
  {
    var one, two := Run(cfg, user, t, pins[..1]), Run(cfg, user, t, pins[..2]);
    RunSnoc(cfg, user, t, pins, 0);
    RunSnoc(cfg, user, t, pins, 1);
    RunSnoc(cfg, user, t, pins, 2);
    assert pins[..0] == [] && pins[..3] == pins;
    IrKept(cfg, t, pins[0], user(pins[..1]));
    IrKept(cfg, one, pins[1], user(pins[..2]));
    CaptureStep(cfg, false, two, pins[2], user(pins));
  }

  function Tdis(pins: seq<Pin>): (v: Vec)
    ensures |v| == |pins|
  {
    seq(|pins|, i requires 0 <= i < |pins| => pins[i].tdi)
  }

  /** TDO before each of the edges `pins`. */
  function Outputs(cfg: Cfg, user: Device, t: Tap, pins: seq<Pin>): (v: Vec)
    requires TapOk(cfg, t)
    ensures |v| == |pins|
  {
    if pins == [] then []
    else
      var pre := pins[..|pins| - 1];
      Outputs(cfg, user, t, pre) + [Run(cfg, user, t, pre).tdo]
  }

  /** The USER register's part after `h` was clocked in. */
  function Later(user: Device, h: seq<Pin>): Device {
    p => user(h + p)
  }

  lemma {:induction false} OutputsAreTdo(cfg: Cfg, user: Device, t0: Tap, h: seq<Pin>, pins: seq<Pin>)
    requires TapOk(cfg, t0)
    ensures Tdo(TapDevice(cfg, user, t0), h, pins) == Outputs(cfg, Later(user, h), Run(cfg, user, t0, h), pins)
  {
    if pins != [] {
      var n := |pins| - 1;
      OutputsAreTdo(cfg, user, t0, h, pins[..n]);
      TdoSnoc(TapDevice(cfg, user, t0), h, pins, n);
      assert pins[..n + 1] == pins;
      RunLater(cfg, user, t0, h, pins[..n]);
    }
  }

  lemma {:induction false} RunLater(cfg: Cfg, user: Device, t: Tap, h: seq<Pin>, pins: seq<Pin>)
    requires TapOk(cfg, t)
    ensures Run(cfg, user, t, h + pins) == Run(cfg, Later(user, h), Run(cfg, user, t, h), pins)
  {
    if pins == [] {
      assert h + pins == h;
    } else {
      var n := |pins| - 1;
      RunLater(cfg, user, t, h, pins[..n]);
      assert (h + pins)[..|h + pins| - 1] == h + pins[..n];
    }
  }

  /** `y` was sent and `o` seen since the register that captured `val` had got `x`. */
  predicate Passed(cfg: Cfg, ir: bool, v: Tap, val: Vec, x: seq<bool>, y: Vec, o: Vec) {
    && Holding(cfg, ir, v, val, x + y)
    && |o| == |y| && o == (val + (x + y))[|x|..|x| + |y|]
  }

  lemma {:induction false} StaysShifting(ir: bool, s: TapState, pins: seq<Pin>)
    requires Shifting(ir, s) && forall k :: 0 <= k < |pins| ==> !pins[k].tms
    ensures StateAfter(s, pins) == s
  {
    if pins != [] { StaysShifting(ir, s, pins[..|pins| - 1]); }
  }

  /** Shifting on and on: the outputs are what the register held and then what came in. */
  lemma {:induction false} ShiftOn(cfg: Cfg, user: Device, ir: bool, t: Tap, val: Vec, x: seq<bool>, pins: seq<Pin>)
    requires Holding(cfg, ir, t, val, x) && Shifting(ir, t.state)
    requires forall k :: 0 <= k < |pins| - 1 ==> !pins[k].tms
    ensures Passed(cfg, ir, Run(cfg, user, t, pins), val, x, Tdis(pins), Outputs(cfg, user, t, pins))
    ensures Run(cfg, user, t, pins).ir == t.ir
  {
    if pins == [] {
      assert x + Tdis(pins) == x;
    } else {
      var n := |pins| - 1;
      var pre := pins[..n];
      ShiftOn(cfg, user, ir, t, val, x, pre);
      StaysShifting(ir, t.state, pre);
      RunState(cfg, user, t, pre);
      ShiftOnce(cfg, ir, Run(cfg, user, t, pre), val, x, Tdis(pre), Outputs(cfg, user, t, pre), pins[n], user(pins));
      TdisSnoc(pins);
    }
  }

  lemma TdisSnoc(pins: seq<Pin>)
    requires pins != []
    ensures Tdis(pins) == Tdis(pins[..|pins| - 1]) + [pins[|pins| - 1].tdi]
  {
  }

  lemma ShiftOnce(cfg: Cfg, ir: bool, t: Tap, val: Vec, x: seq<bool>, y: Vec, o: Vec, p: Pin, u: bool)
    requires Passed(cfg, ir, t, val, x, y, o) && Shifting(ir, t.state)
    ensures Passed(cfg, ir, Cycle(cfg, t, p, u), val, x, y + [p.tdi], o + [t.tdo]) && Cycle(cfg, t, p, u).ir == t.ir
  {
    HoldingStep(cfg, ir, t, val, x + y, p, u);
    MorePassed(val, x, y, o, p.tdi);
  }

  lemma MorePassed(val: Vec, x: seq<bool>, y: Vec, o: Vec, b: bool)
    requires |val| > 0 && |o| == |y| && o == (val + (x + y))[|x|..|x| + |y|]
    ensures x + (y + [b]) == (x + y) + [b]
    ensures o + [Window(val, x + y)[0]] == (val + (x + (y + [b])))[|x|..|x| + |y| + 1]
  {
    var s, s' := val + (x + y), val + (x + (y + [b]));
    assert s' == s + [b];
    assert s'[|x|..|x| + |y|] == o;
    assert s'[|x| + |y|] == Window(val, x + y)[0];
  }

  lemma {:induction false} OutputsPrefix(cfg: Cfg, user: Device, t: Tap, pins: seq<Pin>, n: nat)
    requires TapOk(cfg, t) && n <= |pins|
    ensures Outputs(cfg, user, t, pins)[..n] == Outputs(cfg, user, t, pins[..n])
    decreases |pins|
  {
    if n == |pins| {
      assert pins[..n] == pins;
    } else {
      OutputsPrefix(cfg, user, t, pins[..|pins| - 1], n);
      assert pins[..|pins| - 1][..n] == pins[..n];
    }
  }

  /** A shift that leaves the scan through Update: the last bit goes in on the way out. */
  lemma ShiftAndUpdate(cfg: Cfg, user: Device, ir: bool, t: Tap, val: Vec, x: seq<bool>, pins: seq<Pin>, n: nat)
    requires Holding(cfg, ir, t, val, x) && Shifting(ir, t.state) && |pins| == n + 2 && n > 0
    requires forall k :: 0 <= k < |pins| ==> pins[k].tms == (k == n - 1 || k == n)
    ensures var v := Run(cfg, user, t, pins);
            && v.state.RunTestIdle? && v.ir == (if ir then Window(val, x + Tdis(pins[..n])) else t.ir)
    ensures Outputs(cfg, user, t, pins)[..n] == (val + (x + Tdis(pins[..n])))[|x|..|x| + n]
  {
    var v := Run(cfg, user, t, pins[..n]);
    ShiftedOut(cfg, user, ir, t, val, x, pins, n);
    ToExit1(ir, t.state, pins, n);
    RunState(cfg, user, t, pins[..n]);
    LeaveScan(cfg, ir, v, val, x + Tdis(pins[..n]), pins[n], pins[n + 1], user(pins[..n + 1]), user(pins));
    TwoMore(cfg, user, t, pins, n);
  }

  lemma ShiftedOut(cfg: Cfg, user: Device, ir: bool, t: Tap, val: Vec, x: seq<bool>, pins: seq<Pin>, n: nat)
    requires Holding(cfg, ir, t, val, x) && Shifting(ir, t.state) && n <= |pins|
    requires forall k :: 0 <= k < n - 1 ==> !pins[k].tms
    ensures var v := Run(cfg, user, t, pins[..n]);
            Holding(cfg, ir, v, val, x + Tdis(pins[..n])) && v.ir == t.ir
    ensures Outputs(cfg, user, t, pins)[..n] == (val + (x + Tdis(pins[..n])))[|x|..|x| + n]
  {
    ShiftOn(cfg, user, ir, t, val, x, pins[..n]);
    OutputsPrefix(cfg, user, t, pins, n);
  }

  lemma ToExit1(ir: bool, s: TapState, pins: seq<Pin>, n: nat)
    requires Shifting(ir, s) && 0 < n <= |pins| && pins[n - 1].tms && forall k :: 0 <= k < n - 1 ==> !pins[k].tms
    ensures StateAfter(s, pins[..n]) == if ir then Exit1IR else Exit1DR
  {
    StaysShifting(ir, s, pins[..n - 1]);
    StateSnoc(s, pins, n - 1);
  }

  lemma TwoMore(cfg: Cfg, user: Device, t: Tap, pins: seq<Pin>, n: nat)
    requires TapOk(cfg, t) && |pins| == n + 2
    ensures var v := Cycle(cfg, Run(cfg, user, t, pins[..n]), pins[n], user(pins[..n + 1]));
            Run(cfg, user, t, pins) == Cycle(cfg, v, pins[n + 1], user(pins))
  {
    RunSnoc(cfg, user, t, pins, n);
    RunSnoc(cfg, user, t, pins, n + 1);
    assert pins[..n + 2] == pins;
  }

  lemma LeaveScan(cfg: Cfg, ir: bool, t: Tap, val: Vec, x: seq<bool>, p: Pin, q: Pin, u: bool, u': bool)
    requires Holding(cfg, ir, t, val, x) && (if ir then t.state.Exit1IR? else t.state.Exit1DR?) && p.tms && !q.tms
    ensures var v := Cycle(cfg, Cycle(cfg, t, p, u), q, u');
            v.state.RunTestIdle? && v.ir == (if ir then Window(val, x) else t.ir)
  {
    if !ir { IrKept(cfg, t, p, u); }
    IrKept(cfg, Cycle(cfg, t, p, u), q, u');
  }

  // ---- the integers the client works with ----

  lemma {:induction false} NatOfZerosThen(k: nat, v: Vec)
    ensures NatOf(Zeros(k) + v) == Pow2(k) * NatOf(v)
  {
    if k == 0 {
      assert Zeros(k) + v == v;
    } else {
      NatOfZerosThen(k - 1, v);
      assert (Zeros(k) + v)[1..] == Zeros(k - 1) + v;
    }
  }

  /** TMS for a shift of `n` bits with update. */
  lemma UpdateTms(n: nat)
    requires n > 0
    ensures BitsOf(3 * Pow2(n - 1), n + 2) == Zeros(n - 1) + [true, true, false]
    ensures 3 * Pow2(n - 1) < Pow2(n + 2)
  {
    var v := Zeros(n - 1) + [true, true, false];
    NatOfZerosThen(n - 1, [true, true, false]);
    assert [true, true, false][1..][1..] == [false];
    assert NatOf([true, true, false]) == 3;
    BitsOfNatOf(v);
  }

  lemma {:induction false} NatOfSplit(v: Vec, n: nat)
    requires n <= |v|
    ensures NatOf(v) == NatOf(v[n..]) * Pow2(n) + NatOf(v[..n])
  {
    if n > 0 {
      NatOfSplit(v[1..], n - 1);
      assert v[1..][n - 1..] == v[n..] && v[..n][1..] == v[1..][..n - 1];
      Doubled(NatOf(v[n..]), Pow2(n - 1));
    } else {
      assert v[0..] == v;
    }
  }

  lemma Doubled(h: nat, p: nat)
    ensures h * (2 * p) == 2 * (h * p)
  {
  }

  /** Masking with `n` ones keeps the low `n` bits. */
  lemma NatOfPrefix(v: Vec, n: nat)
    requires n <= |v|
    ensures NatOf(v) % Pow2(n) == NatOf(v[..n])
  {
    NatOfSplit(v, n);
    BitsOfNatOf(v[..n]);
    DivMod(NatOf(v), Pow2(n), NatOf(v[n..]), NatOf(v[..n]));
  }

  function IntLog2(n: nat): nat
    requires n > 0
  {
    if n == 1 then 0 else 1 + IntLog2(n / 2)
  }

  lemma {:induction false} IntLog2OfPow2(k: nat)
    ensures IntLog2(Pow2(k)) == k
  {
    if k > 0 { IntLog2OfPow2(k - 1); }
  }

  lemma {:induction false} NatOfOnes(n: nat)
    ensures NatOf(Ones(n)) == Pow2(n) - 1
  {
    if n > 0 {
      NatOfOnes(n - 1);
      assert Ones(n)[1..] == Ones(n - 1);
    }
  }

  lemma {:induction false} BitsOfZero(w: nat)
    ensures BitsOf(0, w) == Zeros(w)
  {
    if w > 0 {
      BitsOfZero(w - 1);
      assert Zeros(w) == [false] + Zeros(w - 1);
    }
  }

  // ---- the client's fixed vectors ----

  lemma ResetPins()
    ensures var p := PinsOf(0x1f, 0, 6); !p[5].tms && forall k :: 0 <= k < 5 ==> p[k].tms
  {
    assert BitsOf(0x1f, 6) == [true, true, true, true, true, false];
  }

  lemma SelIrPins()
    ensures var p := PinsOf(0x3, 0, 4); p[0].tms && p[1].tms && !p[2].tms && !p[3].tms
  {
    assert BitsOf(0x3, 4) == [true, true, false, false];
  }

  lemma SelDrPins()
    ensures var p := PinsOf(0x1, 0, 3); p[0].tms && !p[1].tms && !p[2].tms
  {
    assert BitsOf(0x1, 3) == [true, false, false];
  }

  lemma ResetEffect(cfg: Cfg, user: Device, t0: Tap, h: seq<Pin>)
    requires TapOk(cfg, t0)
    ensures var v := Run(cfg, user, t0, h + PinsOf(0x1f, 0, 6)); v.state.RunTestIdle? && v.ir == cfg.regIdcode
  {
    ResetPins();
    RunLater(cfg, user, t0, h, PinsOf(0x1f, 0, 6));
    ResetWalk(cfg, Later(user, h), Run(cfg, user, t0, h), PinsOf(0x1f, 0, 6));
  }

  lemma SelIrEffect(cfg: Cfg, user: Device, t0: Tap, h: seq<Pin>)
    requires TapOk(cfg, t0) && Run(cfg, user, t0, h).state.RunTestIdle?
    ensures var v := Run(cfg, user, t0, h + PinsOf(0x3, 0, 4)); v.state.ShiftIR? && Holding(cfg, true, v, cfg.irVal, [])
  {
    SelIrPins();
    RunLater(cfg, user, t0, h, PinsOf(0x3, 0, 4));
    SelectIrWalk(cfg, Later(user, h), Run(cfg, user, t0, h), PinsOf(0x3, 0, 4));
  }

  lemma SelDrEffect(cfg: Cfg, user: Device, t0: Tap, h: seq<Pin>)
    requires TapOk(cfg, t0) && Run(cfg, user, t0, h).state.RunTestIdle?
    requires OwnRegister(cfg, Run(cfg, user, t0, h)) && !SelUser(cfg, Run(cfg, user, t0, h).ir)
    ensures var t := Run(cfg, user, t0, h);
            var v := Run(cfg, user, t0, h + PinsOf(0x1, 0, 3));
            v.state.ShiftDR? && Holding(cfg, false, v, Captured(cfg, false, t), []) && v.ir == t.ir
  {
    SelDrPins();
    RunLater(cfg, user, t0, h, PinsOf(0x1, 0, 3));
    SelectDrWalk(cfg, Later(user, h), Run(cfg, user, t0, h), PinsOf(0x1, 0, 3));
  }

  lemma ShiftPins(regin: nat, n: nat)
    ensures var p := PinsOf(0, regin, n); Tdis(p) == BitsOf(regin, n) && forall k :: 0 <= k < n ==> !p[k].tms
  {
    BitsOfZero(n);
  }

  lemma UpdatePins(regin: nat, n: nat)
    requires n > 0
    ensures var p := PinsOf(3 * Pow2(n - 1), regin, n + 2);
            && Tdis(p[..n]) == BitsOf(regin, n)
            && forall k :: 0 <= k < n + 2 ==> p[k].tms == (k == n - 1 || k == n)
  {
    UpdateTms(n);
    BitsPrefix(regin, n, n + 2);
    var p := PinsOf(3 * Pow2(n - 1), regin, n + 2);
    forall k | 0 <= k < n
      ensures Tdis(p[..n])[k] == BitsOf(regin, n)[k]
    {
      assert BitsOf(regin, n + 2)[k] == BitsOf(regin, n + 2)[..n][k];
    }
  }

  /** What comes out while `n` bits of `regin` go in. */
  function Out(val: Vec, x: seq<bool>, regin: nat, n: nat): (v: Vec)
    ensures |v| == n
  {
    (val + (x + BitsOf(regin, n)))[|x|..|x| + n]
  }

  lemma ShiftEffect(cfg: Cfg, user: Device, t0: Tap, h: seq<Pin>, ir: bool, val: Vec, x: seq<bool>, regin: nat, n: nat)
    requires TapOk(cfg, t0) && Holding(cfg, ir, Run(cfg, user, t0, h), val, x)
    requires Shifting(ir, Run(cfg, user, t0, h).state)
    ensures var pins := PinsOf(0, regin, n);
            var v := Run(cfg, user, t0, h + pins);
            && Holding(cfg, ir, v, val, x + BitsOf(regin, n)) && Shifting(ir, v.state)
            && v.ir == Run(cfg, user, t0, h).ir
            && Tdo(TapDevice(cfg, user, t0), h, pins) == Out(val, x, regin, n)
  {
    var pins := PinsOf(0, regin, n);
    var t := Run(cfg, user, t0, h);
    ShiftPins(regin, n);
    RunLater(cfg, user, t0, h, pins);
    OutputsAreTdo(cfg, user, t0, h, pins);
    ShiftOn(cfg, Later(user, h), ir, t, val, x, pins);
    StaysShifting(ir, t.state, pins);
    RunState(cfg, Later(user, h), t, pins);
  }

  lemma UpdateEffect(cfg: Cfg, user: Device, t0: Tap, h: seq<Pin>, ir: bool, val: Vec, x: seq<bool>, regin: nat, n: nat)
    requires TapOk(cfg, t0) && Holding(cfg, ir, Run(cfg, user, t0, h), val, x)
    requires Shifting(ir, Run(cfg, user, t0, h).state)
    requires n > 0
    ensures var pins := PinsOf(3 * Pow2(n - 1), regin, n + 2);
            var v := Run(cfg, user, t0, h + pins);
            && v.state.RunTestIdle?
            && v.ir == (if ir then Window(val, x + BitsOf(regin, n)) else Run(cfg, user, t0, h).ir)
            && Tdo(TapDevice(cfg, user, t0), h, pins)[..n] == Out(val, x, regin, n)
  {
    var pins := PinsOf(3 * Pow2(n - 1), regin, n + 2);
    UpdatePins(regin, n);
    RunLater(cfg, user, t0, h, pins);
    OutputsAreTdo(cfg, user, t0, h, pins);
    ShiftAndUpdate(cfg, Later(user, h), ir, Run(cfg, user, t0, h), val, x, pins, n);
  }

  /** A register of 32 bits is read by a scan of 32 bits. */
  lemma ReadOut(val: Vec, regin: nat)
    ensures Out(val, [], regin, |val|) == val
  {
    assert (val + ([] + BitsOf(regin, |val|)))[0..|val|] == val;
  }

  /** Zeros push out the ones that are in a register of `k` bits, and then themselves. */
  lemma OnesOut(val: Vec, n: nat)
    requires |val| <= n
    ensures NatOf(Out(val, Ones(n), 0, n)) == Pow2(|val|) - 1
  {
    PushedOut(val, n);
    NatOfPadded(Ones(|val|), n - |val|);
    NatOfOnes(|val|);
  }

  lemma PushedOut(val: Vec, n: nat)
    requires |val| <= n
    ensures Out(val, Ones(n), 0, n) == Ones(|val|) + Zeros(n - |val|)
  {
    BitsOfZero(n);
    var k := |val|;
    var o := Out(val, Ones(n), 0, n);
    forall i | 0 <= i < n
      ensures o[i] == (i < k)
    {
      assert o[i] == (val + (Ones(n) + Zeros(n)))[n + i] == (Ones(n) + Zeros(n))[n + i - k];
    }
    var e := Ones(k) + Zeros(n - k);
    assert forall i :: 0 <= i < n ==> o[i] == e[i];
  }

  /** The length of the register, from the integer that comes out. */
  lemma OnesCounted(val: Vec, n: nat, tdo: nat)
    requires |val| <= n && tdo == NatOf(Out(val, Ones(n), 0, n))
    ensures IntLog2(tdo + 1) == |val|
  {
    OnesOut(val, n);
    IntLog2OfPow2(|val|);
  }

  lemma OnesNat(n: nat)
    ensures BitsOf(Pow2(n) - 1, n) == Ones(n)
  {
    NatOfOnes(n);
    BitsOfNatOf(Ones(n));
  }

  /** An integer of `n` bits fits the bytes it is sent in. */
  lemma FitsBytes(m: nat, n: nat)
    requires m < Pow2(n)
    ensures m < Pow2(8 * ByteCeil(n))
  {
    Header.Pow2Mono(n, 8 * ByteCeil(n));
  }

  lemma OneByte(n: nat)
    requires n < 256
    ensures n < Pow2(8)
  {
    assert Pow2(8) == 256;
  }

  // ---- the message to the server ----

  /** A length that the client refuses, cannot write into four bytes, or that wraps in the server's count of bytes. */
  predicate TooLong(maxBits: nat, nbits: nat) {
    nbits > maxBits || nbits + 7 >= 0x1_0000_0000
  }

  class XvcClient {
    const cfg: Cfg
    const user: Device
    const t0: Tap // the target when the session began
    const server: ConnSpec.Conf
    var hist: seq<Pin>
    const maxBits: nat
    var iLen: Option<nat>

    /**
     A client takes the server's longest vector, which is in bytes, for a number of bits, and probes the instruction
     register.
     */
    constructor (cfg: Cfg, user: Device, t0: Tap, server: ConnSpec.Conf)
      requires TapOk(cfg, t0)
      ensures this.cfg == cfg && this.user == user && this.t0 == t0 && this.server == server && Valid()
      ensures maxBits >= 1026 && cfg.irLen <= 1024 ==> iLen == Some(cfg.irLen) && Now().state.RunTestIdle?
    {
      this.cfg, this.user, this.t0, this.server, hist, iLen := cfg, user, t0, server, [], None;
      maxBits := server.maxVecLen;
      new;
      iLen := GetIRLength();
    }

    predicate Valid()
      reads this
    {
      TapOk(cfg, t0) && maxBits == server.maxVecLen && (cfg.irLen <= 1024 && iLen.Some? ==> iLen == Some(cfg.irLen))
    }

    /** The target now. */
    function Now(): Tap
      reads this
      requires TapOk(cfg, t0)
    {
      Run(cfg, user, t0, hist)
    }

    /** A shift; `None` is an exception, for vectors that are too long or do not fit their bytes. */
    method SendVecs(tms: nat, tdi: nat, nbits: nat) returns (r: Option<nat>)
      requires Valid()
      modifies this`hist
      ensures Valid()
      ensures r == None <==>
                TooLong(maxBits, nbits) || tms >= Pow2(8 * ByteCeil(nbits)) || tdi >= Pow2(8 * ByteCeil(nbits))
      ensures r == None ==> hist == old(hist)
      ensures r.Some? ==> hist == old(hist) + PinsOf(tms, tdi, nbits)
                          && r.value == NatOf(Tdo(TapDevice(cfg, user, t0), old(hist), PinsOf(tms, tdi, nbits)))
    {
      if nbits > maxBits { return None; }
      var nbytes := (nbits + 7) / 8;
      if tms >= Pow2(8 * nbytes) || tdi >= Pow2(8 * nbytes) || nbits >= 0x1_0000_0000 { return None; }
      var tmsbuf, tdibuf := ToBytes(tms, nbytes), ToBytes(tdi, nbytes);
      var obuf := ShiftRequest(nbits, tmsbuf, tdibuf);
      ShiftParsed(server, TapDevice(cfg, user, t0), hist, nbits, tmsbuf, tdibuf, []);
      assert obuf + [] == obuf;
      PlanarIsPins(tms, tdi, nbits);
      FromPacked(Tdo(TapDevice(cfg, user, t0), hist, PinsOf(tms, tdi, nbits)));
      // what the server does with the message, and its reply; it hangs up on a message that it rejects
      var m := ConnSpec.Parse(server, TapDevice(cfg, user, t0), hist, obuf);
      if m.Last? { return None; }
      hist := hist + m.bits;
      return Some(FromBytes(m.reply));
    }

    /** From any state into Test-Logic-Reset and on to Run-Test/Idle. */
    method ResetToIdle() returns (ok: bool)
      requires Valid()
      modifies this`hist
      ensures Valid()
      ensures ok <==> maxBits >= 6
      ensures ok ==> Now().state.RunTestIdle? && Now().ir == cfg.regIdcode
    {
      OneByte(0x1f);
      ResetEffect(cfg, user, t0, hist);
      var r := SendVecs(0x1f, 0, 6);
      ok := r.Some?;
    }

    /** From Run-Test/Idle to the first shift of the instruction register. */
    method SelIR() returns (ok: bool)
      requires Valid() && Now().state.RunTestIdle?
      modifies this`hist
      ensures Valid()
      ensures ok <==> maxBits >= 4
      ensures ok ==> Now().state.ShiftIR? && Holding(cfg, true, Now(), cfg.irVal, [])
    {
      OneByte(0x3);
      SelIrEffect(cfg, user, t0, hist);
      var r := SendVecs(0x3, 0, 4);
      ok := r.Some?;
    }

    /** From Run-Test/Idle to the first shift of the data register. */
    method SelDR() returns (ok: bool)
      requires Valid() && Now().state.RunTestIdle? && OwnRegister(cfg, Now()) && !SelUser(cfg, Now().ir)
      modifies this`hist
      ensures Valid()
      ensures ok <==> maxBits >= 3
      ensures ok ==> Now().state.ShiftDR? && Holding(cfg, false, Now(), Captured(cfg, false, old(Now())), [])
                               && Now().ir == old(Now().ir)
    {
      OneByte(0x1);
      SelDrEffect(cfg, user, t0, hist);
      var r := SendVecs(0x1, 0, 3);
      ok := r.Some?;
    }

    /**
     Shifts `reglen` bits, and out through Update to Run-Test/Idle if wanted; the result is what the register in the
     scan path held before, followed by what came in.
     */
    method Shift(regin: nat, reglen: nat, update: bool, ghost ir: bool, ghost val: Vec, ghost x: seq<bool>)
      returns (r: Option<nat>)
      requires Valid() && Holding(cfg, ir, Now(), val, x) && Shifting(ir, Now().state)
      requires reglen > 0 && regin < Pow2(reglen)
      modifies this`hist
      ensures Valid()
      ensures r == None <==> TooLong(maxBits, reglen + (if update then 2 else 0))
      ensures r.Some? ==> r.value == NatOf(Out(val, x, regin, reglen))
      ensures r.Some? && !update ==>
                Shifting(ir, Now().state) && Holding(cfg, ir, Now(), val, x + BitsOf(regin, reglen))
      ensures r.Some? && update ==> Now().state.RunTestIdle?
      ensures r.Some? ==> Now().ir == if ir && update then Window(val, x + BitsOf(regin, reglen)) else old(Now().ir)
    {
      if update {
        UpdateEffect(cfg, user, t0, hist, ir, val, x, regin, reglen);
        UpdateTms(reglen);
        Header.Pow2Mono(reglen, reglen + 2);
        FitsBytes(3 * Pow2(reglen - 1), reglen + 2);
        FitsBytes(regin, reglen + 2);
        ghost var before := hist;
        r := SendVecs(3 * Pow2(reglen - 1), regin, reglen + 2);
        if r.Some? {
          NatOfPrefix(Tdo(TapDevice(cfg, user, t0), before, PinsOf(3 * Pow2(reglen - 1), regin, reglen + 2)), reglen);
          r := Some(r.value % Pow2(reglen));
        }
      } else {
        ShiftEffect(cfg, user, t0, hist, ir, val, x, regin, reglen);
        assert 0 < Pow2(reglen);
        FitsBytes(0, reglen);
        FitsBytes(regin, reglen);
        r := SendVecs(0, regin, reglen);
      }
    }

    /** Reads the ID and puts it back. */
    method GetID() returns (r: Option<nat>)
      requires Valid() && cfg.regUser != cfg.regIdcode
      modifies this`hist
      ensures Valid()
      ensures r == None <==> maxBits < 34
      ensures r.Some? ==> r == Some(NatOf(cfg.idcode)) && Now().state.RunTestIdle?
    {
      var ok := ResetToIdle();
      if !ok { return None; }
      ok := SelDR();
      if !ok { return None; }
      assert 0 < Pow2(32);
      var id := Shift(0, 32, false, false, cfg.idcode, []);
      if id == None { return None; }
      ReadOut(cfg.idcode, 0);
      BitsOfNatOf(cfg.idcode);
      r := Shift(id.value, 32, true, false, cfg.idcode, [] + BitsOf(0, 32));
      if r == None { return None; }
      return id;
    }

    /** Finds out how long the instruction register is. */
    method GetIRLength() returns (r: Option<nat>)
      requires Valid()
      modifies this`hist
      ensures Valid()
      ensures maxBits >= 1026 && cfg.irLen <= 1024 ==> r == Some(cfg.irLen) && Now().state.RunTestIdle?
      ensures r.Some? && iLen.Some? ==> r == iLen
      ensures r.Some? && cfg.irLen <= 1024 ==> r == Some(cfg.irLen) && Now().state.RunTestIdle?
    {
      var ok := ResetToIdle();
      if !ok { return None; }
      if iLen.Some? { return iLen; }
      ok := SelIR();
      if !ok { return None; }
      r := Probe(1024);
    }

    /** Ones, and zeros behind them: the number of ones that come out. */
    method Probe(lmax: nat) returns (r: Option<nat>)
      requires Valid() && Holding(cfg, true, Now(), cfg.irVal, []) && Now().state.ShiftIR? && lmax > 0
      modifies this`hist
      ensures Valid()
      ensures r == None <==> TooLong(maxBits, lmax + 2)
      ensures r.Some? && cfg.irLen <= lmax ==> r == Some(cfg.irLen) && Now().state.RunTestIdle?
    {
      OnesNat(lmax);
      var ones := Pow2(lmax) - 1;
      var first := Shift(ones, lmax, false, true, cfg.irVal, []);
      if first == None { return None; }
      r := Count(lmax);
    }

    /** Zeros behind ones: the number of ones that come out. */
    method Count(lmax: nat) returns (r: Option<nat>)
      requires Valid() && Holding(cfg, true, Now(), cfg.irVal, [] + Ones(lmax)) && Now().state.ShiftIR? && lmax > 0
      modifies this`hist
      ensures Valid()
      ensures r == None <==> TooLong(maxBits, lmax + 2)
      ensures r.Some? && cfg.irLen <= lmax ==> r == Some(cfg.irLen) && Now().state.RunTestIdle?
    {
      assert [] + Ones(lmax) == Ones(lmax);
      var tdo := Shift(0, lmax, true, true, cfg.irVal, Ones(lmax));
      if tdo == None { return None; }
      if cfg.irLen <= lmax { OnesCounted(cfg.irVal, lmax, tdo.value); }
      return Some(IntLog2(tdo.value + 1));
    }
  }
}
