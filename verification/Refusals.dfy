// Which requests the firmware refuses, with which error code, and that the host understands all of them as errors.

module Refusals {
  import opened Bits
  import opened Jtag
  import opened Header
  import opened Firmware
  import opened Protocol
  import opened Sizes

  /** The reply is one word that says error `code`, in version 0, with the ID of the request. */
  predicate Says(req: Msg, reply: Msg, code: nat)
    requires |req| >= 1 && |req[0]| >= 32
  {
    && |reply| == 1 && |reply[0]| == |req[0]| && Command(reply[0]) == 2 && Len(reply[0]) == code
    && Version(reply[0]) == 0 && Xid(reply[0]) == Xid(req[0])
  }

  lemma ErrorWord(v: Vec, code: nat)
    requires |v| >= 32 && code < 0x100 && Version(v) == 0
    ensures Says([v], [SetErr(v, code)], code)
  {
    ErrFields(v, code);
  }

  /** Replacing the version leaves the rest of the header as it is. */
  lemma VersionReplaced(v: Vec)
    requires |v| >= 32
    ensures Version(SetVersion(v)) == 0 && Xid(SetVersion(v)) == Xid(v)
  {
    SmallPow2();
    FieldOfSetField(v, VER_SHIFT, VER_WIDTH, PRO_VERSION);
    FieldKept(v, VER_SHIFT, VER_WIDTH, PRO_VERSION, XID_SHIFT, XID_WIDTH);
  }

  /** A request of another version, whatever else it says, gets error 1 and learns the version that is spoken. */
  lemma OtherVersion(cfg: Cfg, dev: Device, hist: seq<Pin>, fw: Fw, req: Msg)
    requires RequestOk(cfg, req) && Version(req[0]) != 0
    ensures var a := Serve(cfg, dev, hist, fw, req); Says(req, a.reply, 1) && a.fw == fw && a.hist == hist
  {
    VersionReplaced(req[0]);
    ErrorWord(SetVersion(req[0]), 1);
  }

  /** A command other than query and shift gets error 2. */
  lemma OtherCommand(cfg: Cfg, dev: Device, hist: seq<Pin>, fw: Fw, req: Msg)
    requires RequestOk(cfg, req) && Version(req[0]) == 0 && Command(req[0]) >= 2
    ensures var a := Serve(cfg, dev, hist, fw, req); Says(req, a.reply, 2) && a.fw == fw && a.hist == hist
  {
    ErrorWord(req[0], 2);
  }

  /** A shift that cannot be made as announced: a header alone, no data behind the first TMS word, or too long. */
  predicate CutShort(cfg: Cfg, fw: Fw, req: Msg)
    requires RequestOk(cfg, req)
  {
    || |req| == 1 || (cfg.depth > 0 && Len(req[0]) + 1 > cfg.depth * Unit(cfg))
    || (|req| == 2 && (cfg.depth == 0 || !fw.memValid || Xid(req[0]) != fw.xid))
  }

  /**
   It gets error 3, and the target sees nothing. Only if TLAST was on the first TMS word, the reply that was remembered
   is given up for it.
   */
  lemma ShortShift(cfg: Cfg, dev: Device, hist: seq<Pin>, fw: Fw, req: Msg)
    requires RequestOk(cfg, req) && Version(req[0]) == 0 && Command(req[0]) == 1 && CutShort(cfg, fw, req)
    ensures var a := Serve(cfg, dev, hist, fw, req);
            && Says(req, a.reply, 3) && a.hist == hist
            && (a.fw == fw || (|req| == 2 && a.fw == Fw(Xid(req[0]), false, [])))
  {
    LenBound(req[0]);
    LenFitsExactly(cfg, Len(req[0]));
    ErrorWord(req[0], 3);
  }

  lemma LenBound(v: Vec)
    requires |v| >= 32
    ensures Len(v) < 0x100000
  {
    FieldBound(v, LEN_SHIFT, LEN_WIDTH);
    SmallPow2();
  }

  /** A query is answered with the parameters of the target, whatever its header says, and invalidates the memory. */
  lemma AnyQuery(cfg: Cfg, dev: Device, hist: seq<Pin>, fw: Fw, req: Msg)
    requires RequestOk(cfg, req) && Version(req[0]) == 0 && Command(req[0]) == 0
    ensures var a := Serve(cfg, dev, hist, fw, req);
            && |a.reply| == 1 && |a.reply[0]| == Width(cfg) && Version(a.reply[0]) == 0 && Command(a.reply[0]) == 0
            && Field(a.reply[0], 0, 4) == cfg.bytes - 1 && Field(a.reply[0], 4, 16) == cfg.depth
            && Field(a.reply[0], 20, 8) == cfg.period
            && a.fw == fw.(memValid := false) && a.hist == hist
  {
    QueryFields(req[0], cfg.bytes, cfg.depth, cfg.period);
    QueryKeepsCommand(req[0], cfg.bytes, cfg.depth, cfg.period);
  }

  /** What is left are shifts: repeated ones are answered from memory, new ones are made. */
  lemma WholeShift(cfg: Cfg, dev: Device, hist: seq<Pin>, fw: Fw, req: Msg)
    requires RequestOk(cfg, req) && Version(req[0]) == 0 && Command(req[0]) == 1 && !CutShort(cfg, fw, req)
    ensures var a := Serve(cfg, dev, hist, fw, req);
            && |a.reply| >= 1 && a.reply[0] == req[0]
            && (if cfg.depth > 0 && fw.memValid && Xid(req[0]) == fw.xid
                then a.reply[1..] == fw.mem && a.fw == fw && a.hist == hist
                else a.reply[1..] == a.fw.mem && a.fw.xid == Xid(req[0]) && (a.fw.memValid <==> cfg.depth > 0)
                     && hist < a.hist)
  {
    LenBound(req[0]);
    LenFitsExactly(cfg, Len(req[0]));
    if XidIsNew(cfg, fw, req[0]) { SomethingShifted(cfg, dev, hist, fw, req); }
  }

  lemma SomethingShifted(cfg: Cfg, dev: Device, hist: seq<Pin>, fw: Fw, req: Msg)
    requires RequestOk(cfg, req) && Classify(cfg, fw, req[0], |req| == 1) == Run && |req| > 2
    ensures hist < Serve(cfg, dev, hist, fw, req).hist
  {
    ShiftAnswer(cfg, dev, hist, fw, req);
  }

  /** Whatever the host waits for, it takes an error for an error. */
  lemma HostFails(req: Msg, reply: Msg, code: nat, x: nat)
    requires |req| >= 1 && |req[0]| >= 32 && Says(req, reply, code) && 0 < code < 0x100
    ensures Judge(x, reply[0]) == Fail && ErrorOf(reply[0]) == code
  {
  }
}
