// When the firmware's length check protects the replay memory.

module Sizes {
  import opened Bits
  import opened Arith
  import opened Header
  import C = Core
  import opened Firmware

  /** The check counts words of `Unit` bits, the smallest power of two that is not below the word width. */
  function Unit(cfg: Cfg): nat { Pow2(Log2(Width(cfg))) }

  lemma {:induction false} Log2Bounds(n: nat)
    requires n > 0
    ensures n <= Pow2(Log2(n)) && (n > 1 ==> Pow2(Log2(n)) < 2 * n)
  {
    if n > 1 { Log2Bounds((n + 1) / 2); }
  }

  lemma {:induction false} Log2OfPow2(k: nat)
    ensures Log2(Pow2(k)) == k
  {
    if k > 0 {
      Log2OfPow2(k - 1);
      assert (Pow2(k) + 1) / 2 == Pow2(k - 1);
    }
  }

  lemma UnitBounds(cfg: Cfg)
    requires CfgOk(cfg)
    ensures Width(cfg) <= Unit(cfg) <= 128
  {
    Log2Bounds(Width(cfg));
    Pow2Below(Log2(Width(cfg)));
  }

  lemma Pow2Below(k: nat)
    requires Pow2(k) < 256
    ensures Pow2(k) <= 128
  {
    assert Pow2(7) == 128 by { assert Pow2(4) == 16; }
    assert Pow2(8) == 2 * Pow2(7);
    Pow2Mono(if k <= 7 then k else 8, if k <= 7 then 7 else k);
  }

  lemma DivUp(n: nat, u: nat, q: nat)
    requires u > 0
    ensures (n + u - 1) / u <= q <==> n <= q * u
  {
    var p := (n + u - 1) / u;
    var r := (n + u - 1) % u;
    assert n + u - 1 == p * u + r;
    if p <= q {
      MulMono(q, p, u);
    } else {
      MulMono(p, q + 1, u);
      MulSucc(q, u);
    }
  }

  /** No length a header can carry wraps the 21-bit sum: the check is a comparison of bit counts. */
  lemma LenFitsExactly(cfg: Cfg, len: nat)
    requires CfgOk(cfg) && len < 0x100000
    ensures LenFits(cfg, len) <==> (cfg.depth > 0 ==> len + 1 <= cfg.depth * Unit(cfg))
  {
    UnitBounds(cfg);
    DivUp(len + 1, Unit(cfg), cfg.depth);
  }

  lemma AnnouncedFits(w: nat, len: nat, depth: nat)
    requires w > 0
    ensures len / w + 1 <= depth <==> len + 1 <= depth * w
  {
    var q, r := len / w, len % w;
    assert len == q * w + r;
    if q + 1 <= depth {
      MulMono(depth, q + 1, w);
      MulSucc(q, w);
    } else {
      MulMono(q, depth, w);
    }
  }

  /** A length the check lets through although its reply does not fit, for words narrower than the unit. */
  lemma Overrun(w: nat, u: nat, d: nat) returns (len: nat)
    requires 0 < w < u && 0 < d && d * w < 0x100000
    ensures len < 0x100000 && d * w < len + 1 <= d * u
  {
    MulMono(u, w + 1, d);
    MulSucc(w, d);
    assert u * d == d * u && w * d == d * w;
    len := if d * u <= 0x100000 then d * u - 1 else 0xFFFFF;
  }

  /** Every length that passes the check needs no more reply words than the memory has. */
  ghost predicate CheckProtects(cfg: Cfg)
    requires CfgOk(cfg)
  {
    forall len :: 0 <= len < 0x100000 && LenFits(cfg, len) ==> len / Width(cfg) + 1 <= cfg.depth
  }

  predicate WideOrDeep(cfg: Cfg) {
    Width(cfg) == Unit(cfg) || cfg.depth * Width(cfg) >= 0x100000
  }

  lemma Protected(cfg: Cfg, len: nat)
    requires CfgOk(cfg) && cfg.depth > 0 && WideOrDeep(cfg) && len < 0x100000 && LenFits(cfg, len)
    ensures len / Width(cfg) + 1 <= cfg.depth
  {
    LenFitsExactly(cfg, len);
    AnnouncedFits(Width(cfg), len, cfg.depth);
  }

  lemma Exposed(cfg: Cfg) returns (len: nat)
    requires CfgOk(cfg) && cfg.depth > 0 && !WideOrDeep(cfg)
    ensures len < 0x100000 && LenFits(cfg, len) && len / Width(cfg) + 1 > cfg.depth
  {
    UnitBounds(cfg);
    len := Overrun(Width(cfg), Unit(cfg), cfg.depth);
    LenFitsExactly(cfg, len);
    AnnouncedFits(Width(cfg), len, cfg.depth);
  }

  /**
   With a memory, the check protects it exactly when the word width is a power of two or the memory holds the longest
   shift there is.
   */
  lemma CheckProtectsIff(cfg: Cfg)
    requires CfgOk(cfg) && cfg.depth > 0
    ensures CheckProtects(cfg) <==> WideOrDeep(cfg)
  {
    if WideOrDeep(cfg) {
      forall len | 0 <= len < 0x100000 && LenFits(cfg, len)
        ensures len / Width(cfg) + 1 <= cfg.depth
      {
        Protected(cfg, len);
      }
    } else {
      var len := Exposed(cfg);
    }
  }

  /** The power-of-two widths the design is meant for. */
  lemma PowerOfTwoWidths(cfg: Cfg)
    requires CfgOk(cfg)
    ensures Width(cfg) == Unit(cfg) <==> cfg.bytes in {4, 8, 16}
  {
    assert Pow2(3) == 8;
    assert Pow2(5) == 32;
    assert Pow2(6) == 64;
    assert Pow2(7) == 128;
    Log2OfPow2(5);
    Log2OfPow2(6);
    Log2OfPow2(7);
    Log2Bounds(Width(cfg));
    var k := Log2(Width(cfg));
    UnitBounds(cfg);
    assert Pow2(8) == 256;
    if k < 5 { Pow2Mono(k, 4); } else if k > 7 { Pow2Mono(8, k); }
  }

  /** With such a width a shift that is run only has to keep TLAST off its TMS words. */
  lemma AdmissibleWhenClean(cfg: Cfg, fw: Fw, req: seq<Vec>)
    requires RequestOk(cfg, req) && cfg.bytes in {4, 8, 16}
    ensures Admissible(cfg, fw, req) <==>
            (Classify(cfg, fw, req[0], |req| == 1) == Run && |req| > 2 ==> C.Clean(Width(cfg), FrameOf(req)))
  {
    if Classify(cfg, fw, req[0], |req| == 1) == Run && cfg.depth > 0 {
      PowerOfTwoWidths(cfg);
      CheckProtectsIff(cfg);
      FieldBound(req[0], LEN_SHIFT, LEN_WIDTH);
      SmallPow2();
    }
  }
}
