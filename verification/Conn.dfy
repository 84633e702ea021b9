// The server side of a connection (XvcConn): a sliding receive buffer, the message parser and the chunking of shifts.

module Conn {
  import opened Arith
  import opened Jtag
  import opened Firmware
  import opened Options
  import opened Sizes
  import opened HostSpec
  import opened HostHeader
  import opened HostMessage
  import opened Driver
  import opened ConnSpec
  import P = Protocol

  /**
   The client's end: bytes it will still send, bytes it has got. How many bytes one read or write moves is up to the
   network, which has made up its mind in `cuts`.
   */
  class Socket {
    var stream: seq<Byte>
    var sent: seq<Byte>
    var cuts: seq<nat>

    constructor (stream: seq<Byte>, cuts: seq<nat>)
      ensures this.stream == stream && this.cuts == cuts && sent == []
    {
      this.stream, this.cuts, sent := stream, cuts, [];
    }

    method Cut(most: nat) returns (n: nat)
      requires most > 0
      modifies this`cuts
      ensures 1 <= n <= most
    {
      n := most;
      if cuts != [] {
        if 0 < cuts[0] < most { n := cuts[0]; }
        cuts := cuts[1..];
      }
    }

    /** Stores at least one byte and at most `k` at `at`, or nothing at the end of the stream. */
    method Read(buf: array<Byte>, at: nat, k: nat) returns (got: nat)
      requires 0 < k && at + k <= buf.Length
      modifies this`stream, this`cuts, buf
      ensures got <= k && got <= |old(stream)| && (got == 0 <==> old(stream) == [])
      ensures stream == old(stream)[got..] && buf[at..at + got] == old(stream)[..got]
      ensures buf[..at] == old(buf[..at])
    {
      if stream == [] { return 0; }
      got := Cut(if k < |stream| then k else |stream|);
      for i := 0 to got
        invariant buf[..at] == old(buf[..at]) && stream == old(stream)
        invariant forall j :: at <= j < at + i ==> buf[j] == stream[j - at]
      {
        buf[at + i] := stream[i];
      }
      stream := stream[got..];
    }

    method Write(data: seq<Byte>) returns (put: nat)
      requires data != []
      modifies this`sent, this`cuts
      ensures 1 <= put <= |data| && sent == old(sent) + data[..put]
    {
      put := Cut(|data|);
      sent := sent + data[..put];
    }
  }

  /** How the handling of one message ends; `Failed` is an exception from the driver. */
  datatype Step = Next | Ends(end: End) | Failed

  /** The number at `at` is within the first bytes. */
  lemma Le32Prefix(s: seq<Byte>, t: seq<Byte>, at: nat)
    requires at + 4 <= |s| <= |t| && t[..|s|] == s
    ensures Le32(s, at) == Le32(t, at)
  {
    assert s[at..at + 4] == t[..|s|][at..at + 4] == t[at..at + 4];
  }

  /**
   Handling message `m`, at the head of `rest` with the target at `hist`, came to `r`; if the session goes on, `rest'`
   is left and `reply` goes out. If the driver gave up, the target saw the beginning of the message's bits, perhaps
   all.
   */
  predicate Right(m: Message, rest: seq<Byte>, hist: seq<Pin>, r: Step, rest': seq<Byte>, reply: seq<Byte>,
                  hist': seq<Pin>) {
    match r
    case Failed => m.Message? && hist <= hist' <= hist + m.bits
    case Ends(end) => m == Last(end) && hist' == hist
    case Next =>
      m.Message? && m.len <= |rest| && rest' == rest[m.len..] && reply == m.reply && hist' == hist + m.bits
  }

  /** The same for the vectors behind the head of a shift message. */
  predicate RightBody(dev: Device, bits: nat, bytes: nat, rest: seq<Byte>, hist: seq<Pin>, r: Step, rest': seq<Byte>,
                      reply: seq<Byte>, hist': seq<Pin>) {
    match r
    case Failed =>
      && 2 * bytes <= |rest| && bytes == ByteCeil(bits)
      && hist <= hist' <= hist + Planar(bits, rest[..bytes], rest[bytes..2 * bytes])
    case Ends(end) =>
      hist' == hist && (if |rest| < 2 * bytes then end == Gone else end == Rejected && bits > 8 * bytes)
    case Next =>
      && 2 * bytes <= |rest| && bytes == ByteCeil(bits) && rest' == rest[2 * bytes..]
      && hist' == hist + Planar(bits, rest[..bytes], rest[bytes..2 * bytes])
      && reply == Unbroken(dev, hist, bits, rest[..bytes], rest[bytes..2 * bytes])
  }

  lemma ShiftRight(c: Conf, dev: Device, rest: seq<Byte>, hist: seq<Pin>, r: Step, rest': seq<Byte>, reply: seq<Byte>,
                   hist': seq<Pin>)
    requires |rest| >= 10 && ShiftBytes(rest) <= c.maxVecLen
    requires RightBody(dev, ShiftBits(rest), ShiftBytes(rest), rest[10..], hist, r, rest', reply, hist')
    ensures Right(ParseShift(c, dev, hist, rest), rest, hist, r, rest', reply, hist')
  {
    var bytes := ShiftBytes(rest);
    if 10 + 2 * bytes <= |rest| {
      assert rest[10..][..bytes] == rest[10..10 + bytes];
      assert rest[10..][bytes..2 * bytes] == rest[10 + bytes..10 + 2 * bytes];
      assert rest[10..][2 * bytes..] == rest[10 + 2 * bytes..];
    }
  }

  lemma Joined(before: seq<Byte>, after: seq<Byte>, rp: nat, p: nat, got: nat)
    requires rp <= p && p + got <= |after| == |before| && after[..p] == before[..p]
    ensures after[rp..p + got] == before[rp..p] + after[p..p + got]
  {
    assert after[rp..p] == after[..p][rp..p] == before[..p][rp..p] == before[rp..p];
  }

  /** Vectors `tms` and `tdi`, taken from `rest`, are shifted. */
  lemma BodyRight(dev: Device, bits: nat, bytes: nat, rest: seq<Byte>, tms: seq<Byte>, tdi: seq<Byte>, hist: seq<Pin>,
                  rest': seq<Byte>, reply: seq<Byte>, hist': seq<Pin>)
    requires 2 * bytes <= |rest| && bytes == ByteCeil(bits) && tms == rest[..bytes] && tdi == rest[bytes..2 * bytes]
    requires rest' == rest[2 * bytes..]
    requires hist' == hist + Planar(bits, tms, tdi) && reply == Unbroken(dev, hist, bits, tms, tdi)
    ensures RightBody(dev, bits, bytes, rest, hist, Next, rest', reply, hist')
  {
  }

  /** Or the beginning of them. */
  lemma BodyFailed(dev: Device, bits: nat, bytes: nat, rest: seq<Byte>, tms: seq<Byte>, tdi: seq<Byte>, hist: seq<Pin>,
                   hist': seq<Pin>)
    requires 2 * bytes <= |rest| && bytes == ByteCeil(bits) && tms == rest[..bytes] && tdi == rest[bytes..2 * bytes]
    requires hist <= hist' <= hist + Planar(bits, tms, tdi)
    ensures RightBody(dev, bits, bytes, rest, hist, Failed, [], [], hist')
  {
  }

  lemma Halves(rest: seq<Byte>, s: seq<Byte>, n: nat)
    requires |s| == 2 * n <= |rest| && s == rest[..2 * n]
    ensures s[..n] == rest[..n] && s[n..] == rest[n..2 * n]
  {
  }

  /** Bytes of a message with vectors of `bytes` bytes. */
  function MessageRoom(cfg: Cfg, bytes: nat): nat
    requires cfg.bytes > 0
  {
    cfg.bytes + 2 * (WordsFor(cfg.bytes, 8 * bytes) * cfg.bytes)
  }

  class XvcConn {
    const conf: Conf
    const drvMax: nat // longest vector the driver takes, 0 for any
    const sd: Socket
    const drv: JtagDriver
    const link: Link
    var supVecLen: nat
    var chunk: nat
    var rxb: array<Byte>
    var txb: array<Byte>
    var rp: nat
    var rl: nat
    var tl: nat

    constructor (conf: Conf, drvMax: nat, sd: Socket, drv: JtagDriver, link: Link)
      ensures this.conf == conf && this.drvMax == drvMax && this.sd == sd && this.drv == drv && this.link == link
      ensures fresh(rxb) && fresh(txb)
    {
      this.conf, this.drvMax, this.sd, this.drv, this.link := conf, drvMax, sd, drv, link;
      supVecLen, chunk, rp, rl, tl := 0, 0, 0, 0, 0;
      rxb := new Byte[0];
      txb := new Byte[0];
    }

    /** Buffers, cursors and the message buffer of the driver fit together. */
    predicate Sized()
      reads this, drv`txBuf
    {
      && ConfOk(conf) && chunk == 2 * conf.maxVecLen + 128
      && rxb.Length == 2 * chunk && txb.Length == conf.maxVecLen + 128
      && rp + rl <= rxb.Length && tl <= txb.Length
      && rxb != txb && drv.txBuf != rxb && drv.txBuf != txb
      && Fitting()
    }

    /** A chunk fits the target's memory and the message buffer. */
    predicate Fitting()
      reads `supVecLen, drv`txBuf
    {
      && link.cfg.bytes > 0 && 0 < supVecLen && 8 * supVecLen <= MAX_BITS
      && (link.cfg.depth > 0 ==> supVecLen <= link.cfg.depth * link.cfg.bytes)
      && MessageRoom(link.cfg, supVecLen) <= drv.txBuf.Length
    }

    /** Besides, the driver knows the target. */
    predicate Valid()
      reads this, drv, link
    {
      Sized() && drv.Knows(link)
    }

    /** Bytes received but not consumed, and those still to come. */
    function Rest(): seq<Byte>
      reads `rp, `rl, `rxb, rxb, sd`stream
      requires rp + rl <= rxb.Length
    {
      rxb[rp..rp + rl] + sd.stream
    }

    /** Reads until `n` bytes are in the buffer; false at the end of the stream. */
    method Fill(n: nat) returns (ok: bool)
      requires rp + rl <= rxb.Length && rp + n <= rxb.Length && rxb != txb
      modifies this`rl, sd`stream, sd`cuts, rxb
      ensures ok ==> rl == (if n > old(rl) then n else old(rl)) && Rest() == old(Rest())
      ensures !ok ==> |old(Rest())| < n
      ensures rp + rl <= rxb.Length
    {
      if n <= rl { return true; }
      ghost var rest := Rest();
      var p := rp + rl;
      var k := n - rl;
      while k > 0
        invariant p + k == rp + n && rp + rl <= p <= rp + n && rl == old(rl)
        invariant rxb[rp..p] + sd.stream == rest
      {
        ghost var before := rxb[..];
        var got := sd.Read(rxb, p, k);
        if got == 0 { return false; }
        Joined(before, rxb[..], rp, p, got);
        k := k - got;
        p := p + got;
      }
      rl := n;
      return true;
    }

    method Bump(n: nat)
      requires n <= rl && rp + rl <= rxb.Length
      modifies this`rp, this`rl
      ensures rl == old(rl) - n && rp == (if rl == 0 then 0 else old(rp) + n) && rp + rl <= rxb.Length
      ensures Rest() == old(Rest())[n..]
    {
      rp := rp + n;
      rl := rl - n;
      if rl == 0 { rp := 0; }
    }

    method Flush()
      requires tl <= txb.Length
      modifies this`tl, sd`sent, sd`cuts
      ensures tl == 0 && sd.sent == old(sd.sent) + old(txb[..tl])
    {
      var p := 0;
      ghost var data := txb[..tl];
      while tl > 0
        invariant p + tl == |data| && sd.sent == old(sd.sent) + data[..p]
      {
        var put := sd.Write(txb[p..p + tl]);
        assert data[..p + put] == data[..p] + txb[p..p + tl][..put];
        p := p + put;
        tl := tl - put;
      }
    }

    static method ChunkBits(bitsLeft: nat, vecLen: nat) returns (bitsSent: nat)
      requires bitsLeft > 0 && vecLen > 0
      ensures 0 < bitsSent <= bitsLeft && bitsSent <= 8 * vecLen
      ensures bitsSent < bitsLeft ==> bitsSent == 8 * vecLen
      ensures bitsSent % 8 == 0 || bitsSent == bitsLeft
    {
      bitsSent := 8 * vecLen;
      if bitsLeft < bitsSent { bitsSent := bitsLeft; }
    }

    /** `done` bits of a shift are done. */
    predicate Made(hist: seq<Pin>, bits: nat, tms: seq<Byte>, tdi: seq<Byte>, done: nat)
      requires ByteCeil(bits) == |tms| == |tdi|
      reads `txb, txb, link
    {
      Shifted(link.dev, hist, bits, tms, tdi, done, link.hist, txb[..])
    }

    /** The piece of a shift that starts at byte `off`, where `done` bits are done. */
    method SendChunk(bits: nat, tms: seq<Byte>, tdi: seq<Byte>, off: nat, n: nat, ghost hist: seq<Pin>, ghost done: nat)
      returns (ok: bool)
      requires Valid() && ByteCeil(bits) == |tms| == |tdi| && |tms| <= conf.maxVecLen
      requires 0 < n <= 8 * supVecLen && done == 8 * off && done + n <= bits && (n % 8 == 0 || done + n == bits)
      requires Made(hist, bits, tms, tdi, done)
      modifies drv`xid, drv.txBuf, link, txb
      ensures ok ==> drv.Knows(link) && Made(hist, bits, tms, tdi, done + n)
      ensures !ok ==> hist <= link.hist <= hist + Planar(bits, tms, tdi)
      ensures old(link.Reliable()) ==> link.Reliable() && ok
    {
      ChunkFits(drv, link, supVecLen, n);
      ghost var before, h := txb[..], link.hist;
      ok := drv.SendVectors(link, n, tms[off..], tdi[off..], txb, off);
      if ok {
        assert txb[..][..off] == before[..off];
        ChunkDone(link.dev, hist, bits, tms, tdi, done, off, n, h, link.hist, before, txb[..]);
      } else {
        PartShifted(link.dev, hist, bits, tms, tdi, done, off, n, h, link.hist, before);
      }
    }

    /**
     Cuts a shift into pieces the target can take. If all of them are answered, target and client cannot tell it from
     one unbroken shift; if not, the target has seen the beginning of that shift, nothing twice.
     */
    method ShiftChunks(bits: nat, tms: seq<Byte>, tdi: seq<Byte>) returns (ok: bool)
      requires Valid() && ByteCeil(bits) == |tms| == |tdi| && |tms| <= conf.maxVecLen
      modifies drv`xid, drv.txBuf, link, txb
      ensures ok ==> drv.Knows(link) && link.hist == old(link.hist) + Planar(bits, tms, tdi)
                     && txb[..|tms|] == Unbroken(link.dev, old(link.hist), bits, tms, tdi)
      ensures !ok ==> old(link.hist) <= link.hist <= old(link.hist) + Planar(bits, tms, tdi)
      ensures old(link.Reliable()) ==> link.Reliable() && ok
    {
      var bytes := |tms|;
      var vecLen := if bytes > supVecLen then supVecLen else bytes;
      ghost var hist, done := link.hist, 0;
      var off, bitsLeft := 0, bits;
      NoneShifted(link.dev, hist, bits, tms, tdi, txb[..]);
      while bitsLeft > 0
        invariant done + bitsLeft == bits && (bitsLeft > 0 ==> done == 8 * off && 0 < vecLen <= supVecLen)
        invariant drv.Knows(link) && Made(hist, bits, tms, tdi, done)
        invariant old(link.Reliable()) ==> link.Reliable()
      {
        var bitsSent := ChunkBits(bitsLeft, vecLen);
        ok := SendChunk(bits, tms, tdi, off, bitsSent, hist, done);
        if !ok { return; }
        done := done + bitsSent;
        bitsLeft := bitsLeft - bitsSent;
        off := off + vecLen;
      }
      AllShifted(link.dev, hist, bits, tms, tdi, link.hist, txb[..]);
      return true;
    }

    /** `n` bytes of a message are in the buffer; there are more of them only inside the first chunk. */
    predicate Within(n: nat)
      reads `rp, `rl, `chunk
    {
      rp < chunk && rl >= n && (rp + rl <= chunk || rl == n)
    }

    /** A message of the longest kind fits behind any place inside the first chunk. */
    method Need(n: nat) returns (ok: bool)
      requires Valid() && rp < chunk && (rp + rl <= chunk || rl <= n) && n <= 2 * conf.maxVecLen + 10
      modifies this`rl, sd`stream, sd`cuts, rxb
      ensures ok ==> Valid() && Within(n) && Rest() == old(Rest())
      ensures !ok ==> |old(Rest())| < n
      ensures rp + rl <= rxb.Length
    {
      ok := Fill(n);
    }

    method Put(s: seq<Byte>)
      requires Valid() && |s| <= txb.Length
      modifies this`tl, txb
      ensures Valid() && tl == |s| && txb[..tl] == s
    {
      for i := 0 to |s|
        invariant forall j :: 0 <= j < i ==> txb[j] == s[j]
      {
        txb[i] := s[i];
      }
      tl := |s|;
    }

    /** Between messages: what is left in the buffer came with the first chunk. */
    predicate Boundary()
      reads `rp, `rl, `chunk
    {
      if rl == 0 then rp == 0 else rp + rl <= chunk
    }

    /** What is left and what goes out after a message, if the session goes on. */
    function Left(r: Step): seq<Byte>
      reads `rp, `rl, `rxb, rxb, sd`stream
      requires rp + rl <= rxb.Length
    {
      if r.Next? then Rest() else []
    }

    function Reply(r: Step): seq<Byte>
      reads `tl, `txb, txb
      requires tl <= txb.Length
    {
      if r.Next? then txb[..tl] else []
    }

    /** Nothing is on its way that a query, and the shift after it, could take for its reply. */
    predicate Asked()
      reads drv, link
      requires CfgOk(link.cfg)
    {
      link.OnlyQueries() && (link.punctual || link.cfg.period != P.NextXid(drv.xid))
    }

    /**
     Message `m`, at the head of `rest` with the target at `hist`, is handled; where the session goes on, all is set
     for it.
     */
    predicate Handled(m: Message, rest: seq<Byte>, hist: seq<Pin>, r: Step)
      reads this, rxb, txb, sd, drv, link
    {
      && rp + rl <= rxb.Length && tl <= txb.Length && (r.Next? ==> Valid() && Boundary())
      && Right(m, rest, hist, r, Left(r), Reply(r), link.hist)
    }

    /** The target was told of a new connection, or its answer to an earlier query was taken. */
    static predicate Announced(before: LinkState, after: LinkState) {
      after.at > before.at && (before.late == [] ==> !after.fw.memValid)
    }

    /** The driver learns that there is a new client. */
    method Requery() returns (ok: bool)
      requires Valid() && Asked()
      modifies drv, drv.txBuf, link
      ensures fresh(drv.txBuf) || drv.txBuf == old(drv.txBuf)
      ensures link.hist == old(link.hist) && (ok ==> Valid() && Asked())
      ensures (old(link.Reliable()) ==> link.Reliable() && ok)
      ensures ok ==> Announced(old(link.Now()), link.Now())
    {
      var capacity;
      ok, capacity := drv.Query(link);
    }

    /** Takes `n` bytes, which are in the buffer. */
    method TakeBytes(n: nat) returns (s: seq<Byte>)
      requires rp + n <= rp + rl <= rxb.Length
      ensures |s| == n && n <= |Rest()| && s == Rest()[..n]
    {
      s := rxb[rp..rp + n];
    }

    /** Answers a message of `len` bytes that is in the buffer. */
    method Conclude(m: Message)
      requires Valid() && m.Message? && Within(m.len) && m.bits == [] && |m.reply| <= txb.Length
      modifies this`rp, this`rl, this`tl, txb
      ensures m.len <= |old(Rest())| && Handled(m, old(Rest()), link.hist, Next)
    {
      Put(m.reply);
      Bump(m.len);
    }

    method HandleInfo() returns (r: Step)
      requires Valid() && Within(2) && |Rest()| >= 2 && KindOf(Rest()) == Info && (|Rest()| >= 8 ==> Asked())
      modifies this`rp, this`rl, this`tl, rxb, txb, sd`stream, sd`cuts, drv, drv.txBuf, link
      ensures fresh(drv.txBuf) || drv.txBuf == old(drv.txBuf)
      ensures r.Next? ==> Asked() && Announced(old(link.Now()), link.Now())
      ensures old(link.Reliable()) ==> link.Reliable() && !r.Failed?
      ensures Handled(Parse(conf, link.dev, old(link.hist), old(Rest())), old(Rest()), old(link.hist), r)
    {
      var ok := Need(8);
      if !ok { return Ends(Gone); }
      r := Greet();
    }

    method Greet() returns (r: Step)
      requires Valid() && Within(8) && Asked()
      modifies this`rp, this`rl, this`tl, txb, drv, drv.txBuf, link
      ensures fresh(drv.txBuf) || drv.txBuf == old(drv.txBuf)
      ensures r.Next? ==> Asked() && Announced(old(link.Now()), link.Now())
      ensures old(link.Reliable()) ==> link.Reliable() && !r.Failed?
      ensures |old(Rest())| >= 8 && link.hist == old(link.hist)
      ensures Handled(Message(8, conf.info, []), old(Rest()), old(link.hist), r)
    {
      var ok := Requery();
      if !ok { return Failed; }
      Conclude(Message(8, conf.info, []));
      return Next;
    }

    /** The period that the client asks for. */
    method PeriodHead() returns (ok: bool, n: nat)
      requires Valid() && Within(2)
      modifies this`rl, sd`stream, sd`cuts, rxb
      ensures rp + rl <= rxb.Length && (!ok ==> |old(Rest())| < 11)
      ensures ok ==> Valid() && Within(11) && Rest() == old(Rest()) && |Rest()| >= 11 && n == Le32(Rest(), 7)
    {
      ok := Need(11);
      if !ok { return false, 0; }
      var s := TakeBytes(11);
      Le32Prefix(s, Rest(), 7);
      n := Le32(s, 7);
    }

    method HandlePeriod() returns (r: Step)
      requires Valid() && Within(2) && |Rest()| >= 2 && KindOf(Rest()) == Period
      modifies this`rp, this`rl, this`tl, rxb, txb, sd`stream, sd`cuts
      ensures old(link.Reliable()) ==> link.Reliable() && !r.Failed?
      ensures Handled(Parse(conf, link.dev, old(link.hist), old(Rest())), old(Rest()), old(link.hist), r)
    {
      var ok, n := PeriodHead();
      if !ok { return Ends(Gone); }
      Conclude(Message(11, Bytes32(NewPeriod(conf, n)), []));
      return Next;
    }

    predicate BodyHandled(bits: nat, bytes: nat, rest: seq<Byte>, hist: seq<Pin>, r: Step)
      reads this, rxb, txb, sd, drv, link
    {
      && rp + rl <= rxb.Length && tl <= txb.Length && (r.Next? ==> Valid() && Boundary())
      && RightBody(link.dev, bits, bytes, rest, hist, r, Left(r), Reply(r), link.hist)
    }

    /** Takes both vectors of a shift, which are in the buffer. */
    method TakeVectors(bytes: nat) returns (tms: seq<Byte>, tdi: seq<Byte>)
      requires rp + 2 * bytes <= rp + rl <= rxb.Length
      ensures |tms| == |tdi| == bytes && 2 * bytes <= |Rest()|
      ensures tms == Rest()[..bytes] && tdi == Rest()[bytes..2 * bytes]
    {
      var s := TakeBytes(2 * bytes);
      Halves(Rest(), s, bytes);
      tms, tdi := s[..bytes], s[bytes..];
    }

    /** The vectors are used up, and as many bytes of TDO as one of them has are the reply. */
    method Consume(bytes: nat)
      requires Valid() && Within(2 * bytes) && bytes <= conf.maxVecLen
      modifies this`rp, this`rl, this`tl
      ensures Valid() && Boundary() && tl == bytes && Rest() == old(Rest())[2 * bytes..]
    {
      tl := bytes;
      Bump(2 * bytes);
    }

    /** Both vectors of a shift are in the buffer. */
    method ShiftVectors(bits: nat, bytes: nat) returns (r: Step)
      requires Valid() && Within(2 * bytes) && bytes <= conf.maxVecLen && bytes == ByteCeil(bits)
      modifies this`rp, this`rl, this`tl, txb, drv`xid, drv.txBuf, link
      ensures old(link.Reliable()) ==> link.Reliable() && !r.Failed?
      ensures BodyHandled(bits, bytes, old(Rest()), old(link.hist), r)
    {
      ghost var rest, hist := Rest(), link.hist;
      var tms, tdi := TakeVectors(bytes);
      var ok := ShiftChunks(bits, tms, tdi);
      if !ok {
        BodyFailed(link.dev, bits, bytes, rest, tms, tdi, hist, link.hist);
        return Failed;
      }
      BodyRight(link.dev, bits, bytes, rest, tms, tdi, hist, rest[2 * bytes..], txb[..bytes], link.hist);
      Consume(bytes);
      return Next;
    }

    /** The vectors behind the head of a shift message. */
    method ShiftBody(bits: nat, bytes: nat) returns (r: Step)
      requires Valid() && Boundary() && bytes <= conf.maxVecLen
      requires bytes == ByteCeil(bits) || bits > 8 * bytes
      modifies this`rp, this`rl, this`tl, rxb, txb, sd`stream, sd`cuts, drv`xid, drv.txBuf, link
      ensures old(link.Reliable()) ==> link.Reliable() && !r.Failed?
      ensures BodyHandled(bits, bytes, old(Rest()), old(link.hist), r)
    {
      var ok := Need(2 * bytes);
      if !ok { return Ends(Gone); }
      if bits > 8 * bytes { return Ends(Rejected); }
      r := ShiftVectors(bits, bytes);
    }

    /** Bits and bytes that a shift message announces. */
    method ShiftHead() returns (ok: bool, bits: nat, bytes: nat)
      requires Valid() && Within(2)
      modifies this`rl, sd`stream, sd`cuts, rxb
      ensures rp + rl <= rxb.Length && (!ok ==> |old(Rest())| < 10)
      ensures ok ==> Valid() && Within(10) && Rest() == old(Rest()) && |Rest()| >= 10
                     && bits == ShiftBits(Rest()) && bytes == ShiftBytes(Rest())
    {
      ok := Need(10);
      if !ok { return false, 0, 0; }
      var s := TakeBytes(10);
      Le32Prefix(s, Rest(), 6);
      bits := Le32(s, 6);
      bytes := ((bits + 7) % 0x1_0000_0000) / 8;
    }

    /** A shift message whose head is in the buffer. */
    method ShiftRest(bits: nat, bytes: nat) returns (r: Step)
      requires Valid() && Within(10) && |Rest()| >= 10 && bytes <= conf.maxVecLen
      requires bits == ShiftBits(Rest()) && bytes == ShiftBytes(Rest())
      modifies this`rp, this`rl, this`tl, rxb, txb, sd`stream, sd`cuts, drv`xid, drv.txBuf, link
      ensures old(link.Reliable()) ==> link.Reliable() && !r.Failed?
      ensures Handled(ParseShift(conf, link.dev, old(link.hist), old(Rest())), old(Rest()), old(link.hist), r)
    {
      ghost var rest := Rest();
      Bump(10);
      r := ShiftBody(bits, bytes);
      ShiftRight(conf, link.dev, rest, old(link.hist), r, Left(r), Reply(r), link.hist);
    }

    method HandleShift() returns (r: Step)
      requires Valid() && Within(2) && |Rest()| >= 2 && KindOf(Rest()) == Shift
      modifies this`rp, this`rl, this`tl, rxb, txb, sd`stream, sd`cuts, drv`xid, drv.txBuf, link
      ensures old(link.Reliable()) ==> link.Reliable() && !r.Failed?
      ensures Handled(Parse(conf, link.dev, old(link.hist), old(Rest())), old(Rest()), old(link.hist), r)
    {
      var ok, bits, bytes := ShiftHead();
      if !ok { return Ends(Gone); }
      if bytes > conf.maxVecLen { return Ends(Rejected); }
      r := ShiftRest(bits, bytes);
    }

    /**
     No query of the session `s` meets a late reply to something else: the link is punctual, or the session does not ask
     for the greeting, or not after a shift. And the reply to a query is not taken for that to a shift.
     */
    predicate Unconfused(s: seq<Byte>)
      reads this, drv, link
      requires CfgOk(link.cfg)
    {
      link.punctual || AsksInTime(conf, link.dev, link.hist, s, Asked())
    }

    method Dispatch(kind: Kind) returns (r: Step)
      requires Valid() && Within(2) && |Rest()| >= 2 && kind == KindOf(Rest())
      requires kind == Info && |Rest()| >= 8 ==> Asked()
      modifies this`rp, this`rl, this`tl, rxb, txb, sd`stream, sd`cuts, drv, drv.txBuf, link
      ensures fresh(drv.txBuf) || drv.txBuf == old(drv.txBuf)
      ensures r.Next? && (kind == Info || (kind == Period && old(Asked()))) ==> Asked()
      ensures r.Next? && kind == Info ==> Announced(old(link.Now()), link.Now())
      ensures old(link.Reliable()) ==> link.Reliable() && !r.Failed?
      ensures Handled(Parse(conf, link.dev, old(link.hist), old(Rest())), old(Rest()), old(link.hist), r)
    {
      match kind
      case Info => r := HandleInfo();
      case Period => r := HandlePeriod();
      case Shift => r := HandleShift();
      case Unknown => return Ends(Rejected);
    }

    /** The characters that tell the kind of a message. */
    method Kind2() returns (ok: bool, kind: Kind)
      requires Valid() && Boundary() && rl > 0
      modifies this`rl, sd`stream, sd`cuts, rxb
      ensures rp + rl <= rxb.Length && (!ok ==> |old(Rest())| < 2)
      ensures ok ==> Valid() && Within(2) && Rest() == old(Rest()) && |Rest()| >= 2 && kind == KindOf(Rest())
    {
      ok := Need(2);
      if !ok { return false, Unknown; }
      var s := TakeBytes(2);
      assert s[..2] == Rest()[..2];
      kind := KindOf(s);
    }

    /** One message. */
    method Handle() returns (r: Step)
      requires Valid() && Boundary() && rl > 0 && Unconfused(Rest())
      modifies this`rp, this`rl, this`tl, rxb, txb, sd`stream, sd`cuts, drv, drv.txBuf, link
      ensures fresh(drv.txBuf) || drv.txBuf == old(drv.txBuf)
      ensures rp + rl <= rxb.Length && (r.Next? ==> Unconfused(Rest()))
      ensures old(link.Reliable()) ==> link.Reliable() && !r.Failed?
      ensures Handled(Parse(conf, link.dev, old(link.hist), old(Rest())), old(Rest()), old(link.hist), r)
    {
      AsksOn(conf, link.dev, link.hist, Rest(), Asked());
      var ok, kind := Kind2();
      if !ok { return Ends(Gone); }
      r := Dispatch(kind);
    }

    /** What has to hold of the parts before the server runs. */
    predicate Startable()
      reads this, drv, link
    {
      && ConfOk(conf) && CfgOk(link.cfg) && 4 <= drv.wordSize <= drv.txBuf.Length && drv.xid < 256
      && link.Valid() && link.OnlyQueries() && (link.punctual || link.cfg.period != P.NextXid(drv.xid))
      && (link.late == [] || (link.fw.memValid ==> link.fw.xid == drv.xid))
      && 8 * SupVecLen(conf, drvMax, link.cfg) <= MAX_BITS
      && (link.cfg.depth == 0 ==> MessageRoom(link.cfg, SupVecLen(conf, drvMax, link.cfg)) <= drv.txBuf.Length)
    }

    /** The driver makes all the attempts that a target with such a memory is worth, and they are enough. */
    ghost predicate Persistent()
      reads drv`retry, link
    {
      drv.retry + 1 >= Attempts(link.cfg) && link.Reliable()
    }

    /** What target and driver can take. */
    method AskTarget() returns (ok: bool)
      requires Startable()
      modifies this`supVecLen, drv, drv.txBuf, link
      ensures fresh(drv.txBuf) || drv.txBuf == old(drv.txBuf)
      ensures link.hist == old(link.hist) && (old(Persistent()) ==> link.Reliable() && ok)
      ensures ok ==> drv.Knows(link) && Asked() && supVecLen == SupVecLen(conf, drvMax, link.cfg)
                     && MessageRoom(link.cfg, supVecLen) <= drv.txBuf.Length
    {
      var tgtVecLen;
      ok, tgtVecLen := drv.Query(link);
      if !ok { return; }
      if tgtVecLen == 0 { tgtVecLen := conf.maxVecLen; }
      supVecLen := drvMax;
      if supVecLen == 0 { supVecLen := tgtVecLen; } else if tgtVecLen < supVecLen { supVecLen := tgtVecLen; }
      RoomEnough(link.cfg, supVecLen);
    }

    /** Asks the target what it can take and sets up the buffers. */
    method AllocBufs() returns (ok: bool)
      requires Startable()
      modifies this, drv, drv.txBuf, link
      ensures fresh(drv.txBuf) || drv.txBuf == old(drv.txBuf)
      ensures link.hist == old(link.hist) && (old(Persistent()) ==> link.Reliable() && ok)
      ensures ok ==> Valid() && Asked() && fresh(rxb) && fresh(txb) && rp == 0 && rl == 0 && tl == 0
      ensures ok ==> Longest(conf, drvMax, link.cfg, supVecLen)
    {
      ok := AskTarget();
      if !ok { return; }
      RoomEnough(link.cfg, 0);
      SupVecLenIsLongest(conf, drvMax, link.cfg);
      chunk := 2 * conf.maxVecLen + 128;
      rxb := new Byte[2 * chunk](_ => ZERO_BYTE);
      txb := new Byte[conf.maxVecLen + 128](_ => ZERO_BYTE);
      rp, rl, tl := 0, 0, 0;
    }

    /** Handles one message and sends its reply. */
    method Answer(ghost base: seq<Byte>, ghost z: Session) returns (r: Step)
      requires Valid() && Boundary() && rl > 0 && Unconfused(Rest())
      requires Sofar(z, base, sd.sent, Talk(conf, link.dev, link.hist, Rest()))
      modifies this`rp, this`rl, this`tl, rxb, txb, sd, drv, drv.txBuf, link
      ensures fresh(drv.txBuf) || drv.txBuf == old(drv.txBuf)
      ensures old(link.Reliable()) ==> link.Reliable() && !r.Failed?
      ensures old(link.hist) <= link.hist
      ensures match r
              case Failed => sd.sent <= base + z.sent && link.hist <= z.hist
              case Ends(e) => sd.sent == base + z.sent && link.hist == z.hist && e == z.end
              case Next =>
                && Valid() && Boundary() && Unconfused(Rest()) && |Rest()| < |old(Rest())|
                && Sofar(z, base, sd.sent, Talk(conf, link.dev, link.hist, Rest()))
    {
      ghost var rest, hist, sent := Rest(), link.hist, sd.sent;
      r := Handle();
      Concluded(conf, link.dev, hist, rest, z, base, sent, r, Left(r), Reply(r), link.hist);
      if r.Next? { Flush(); }
    }

    /**
     Handles messages until the buffer is empty; false if the session ends, with `None` for a failure of the driver.
     */
    method Drain(ghost base: seq<Byte>, ghost z: Session) returns (ok: bool, end: Option<End>)
      requires Valid() && Boundary() && rl > 0 && Unconfused(Rest())
      requires Sofar(z, base, sd.sent, Talk(conf, link.dev, link.hist, Rest()))
      modifies this`rp, this`rl, this`tl, rxb, txb, sd, drv, drv.txBuf, link
      ensures fresh(drv.txBuf) || drv.txBuf == old(drv.txBuf)
      ensures old(link.hist) <= link.hist
      ensures ok ==> Valid() && rl == 0 && rp == 0 && |sd.stream| < |old(Rest())| && Unconfused(sd.stream)
                     && Sofar(z, base, sd.sent, Talk(conf, link.dev, link.hist, sd.stream))
      ensures !ok && end == None ==> sd.sent <= base + z.sent && link.hist <= z.hist
      ensures old(link.Reliable()) ==> link.Reliable() && (ok || end.Some?)
      ensures !ok && end.Some? ==> sd.sent == base + z.sent && link.hist == z.hist && end.value == z.end
    {
      ghost var n := |Rest()|;
      while rl > 0
        invariant Valid() && Boundary() && |Rest()| <= n && (rl == 0 ==> |Rest()| < n)
        invariant Unconfused(Rest()) && old(link.hist) <= link.hist
        invariant fresh(drv.txBuf) || drv.txBuf == old(drv.txBuf)
        invariant Sofar(z, base, sd.sent, Talk(conf, link.dev, link.hist, Rest()))
        invariant old(link.Reliable()) ==> link.Reliable()
        decreases |Rest()|
      {
        var r := Answer(base, z);
        match r
        case Failed => return false, None;
        case Ends(e) => return false, Some(e);
        case Next =>
      }
      assert Rest() == sd.stream;
      return true, None;
    }

    /** What the network has, up to one chunk, into the empty buffer; false at the end of the stream. */
    method ReadChunk() returns (ok: bool)
      requires Valid() && Boundary() && rl == 0
      modifies this`rl, rxb, sd`stream, sd`cuts
      ensures ok ==> Valid() && Boundary() && rl > 0 && Rest() == old(sd.stream)
      ensures !ok ==> old(sd.stream) == []
    {
      var got := sd.Read(rxb, rp, chunk);
      rl := got;
      ok := got > 0;
    }

    /** Read and drain, again and again. */
    method Serve(ghost base: seq<Byte>, ghost z: Session) returns (end: Option<End>)
      requires Valid() && Boundary() && rl == 0 && Unconfused(sd.stream)
      requires Sofar(z, base, sd.sent, Talk(conf, link.dev, link.hist, sd.stream))
      modifies this`rp, this`rl, this`tl, rxb, txb, sd, drv, drv.txBuf, link
      ensures end == None ==>
                sd.sent <= base + z.sent && old(link.hist) <= link.hist <= z.hist && old(!link.Reliable())
      ensures end.Some? ==> sd.sent == base + z.sent && link.hist == z.hist && end.value == z.end
    {
      while true
        invariant Valid() && Boundary() && rl == 0 && Unconfused(sd.stream) && old(link.hist) <= link.hist
        invariant fresh(drv.txBuf) || drv.txBuf == old(drv.txBuf)
        invariant Sofar(z, base, sd.sent, Talk(conf, link.dev, link.hist, sd.stream))
        invariant old(link.Reliable()) ==> link.Reliable()
        decreases |sd.stream|
      {
        var ok := ReadChunk();
        if !ok { return Some(Gone); }
        ok, end := Drain(base, z);
        if !ok { return; }
      }
    }

    /**
     The server. What the client gets, what the target sees and how the session ends depend on the bytes of the client
     alone, not on how the network cuts the stream into reads and writes, nor on how the link loses, delays and repeats
     messages. If the driver gives up, both have seen a beginning of it; it does not on a link without faults, nor on
     one that loses messages but never so many in a row that the attempts run out.
     */
    method Run() returns (end: Option<End>)
      requires Startable() && (link.punctual || AsksEarly(conf, link.dev, link.hist, sd.stream))
      modifies this, sd, drv, drv.txBuf, link
      ensures var z := Talk(conf, link.dev, old(link.hist), old(sd.stream));
              match end
              case Some(e) => sd.sent == old(sd.sent) + z.sent && link.hist == z.hist && e == z.end
              case None =>
                && sd.sent <= old(sd.sent) + z.sent && old(link.hist) <= link.hist <= z.hist
                && old(!Persistent())
    {
      HistGrows(conf, link.dev, link.hist, sd.stream);
      var ok := AllocBufs();
      if !ok { return None; }
      end := Serve(sd.sent, Talk(conf, link.dev, link.hist, sd.stream));
    }
  }

  /** The session `z`, of which `sent` (after `base`) is done and `rest` is to come. */
  predicate Sofar(z: Session, base: seq<Byte>, sent: seq<Byte>, rest: Session) {
    && base + z.sent == sent + rest.sent
    && z.hist == rest.hist && z.end == rest.end
  }

  lemma LastMessage(c: Conf, dev: Device, hist: seq<Pin>, rest: seq<Byte>, z: Session, base: seq<Byte>, sent: seq<Byte>)
    requires Sofar(z, base, sent, Talk(c, dev, hist, rest))
    ensures sent <= base + z.sent
    ensures match Parse(c, dev, hist, rest)
            case Last(end) => sent == base + z.sent && z.hist == hist && end == z.end
            case Message(len, reply, bits) => hist + bits <= z.hist
  {
    var m := Parse(c, dev, hist, rest);
    if m.Message? { HistGrows(c, dev, hist + m.bits, rest[m.len..]); }
  }

  lemma OneMessage(c: Conf, dev: Device, hist: seq<Pin>, rest: seq<Byte>, z: Session, base: seq<Byte>, sent: seq<Byte>,
                   sent': seq<Byte>, hist': seq<Pin>, rest': seq<Byte>)
    requires Sofar(z, base, sent, Talk(c, dev, hist, rest))
    requires var m := Parse(c, dev, hist, rest);
             m.Message? && sent' == sent + m.reply && hist' == hist + m.bits && rest' == rest[m.len..]
    ensures Sofar(z, base, sent', Talk(c, dev, hist', rest')) && |rest'| < |rest|
  {
    var m := Parse(c, dev, hist, rest);
    var t := Talk(c, dev, hist', rest');
    assert sent + (m.reply + t.sent) == (sent + m.reply) + t.sent;
  }

  /** What the handling of a message means for the session. */
  lemma Concluded(c: Conf, dev: Device, hist: seq<Pin>, rest: seq<Byte>, z: Session, base: seq<Byte>, sent: seq<Byte>,
                  r: Step, rest': seq<Byte>, reply: seq<Byte>, hist': seq<Pin>)
    requires Sofar(z, base, sent, Talk(c, dev, hist, rest))
    requires Right(Parse(c, dev, hist, rest), rest, hist, r, rest', reply, hist')
    ensures hist <= hist'
    ensures match r
            case Failed => sent <= base + z.sent && hist' <= z.hist
            case Ends(end) => sent == base + z.sent && hist' == z.hist && end == z.end
            case Next => Sofar(z, base, sent + reply, Talk(c, dev, hist', rest')) && |rest'| < |rest|
  {
    LastMessage(c, dev, hist, rest, z, base, sent);
    if r.Next? { OneMessage(c, dev, hist, rest, z, base, sent, sent + reply, hist', rest'); }
  }

  /** The longest vector that goes to the target in one piece. */
  function SupVecLen(conf: Conf, drvMax: nat, cfg: Cfg): nat {
    var tgt := if cfg.depth * cfg.bytes == 0 then conf.maxVecLen else cfg.depth * cfg.bytes;
    if drvMax == 0 || tgt < drvMax then tgt else drvMax
  }

  /**
   A vector of `len` bytes is within every limit, and a longer one is not: the server's own limit is only the last
   resort.
   */
  predicate Longest(conf: Conf, drvMax: nat, cfg: Cfg, len: nat) {
    && (drvMax > 0 ==> len <= drvMax) && (cfg.depth * cfg.bytes > 0 ==> len <= cfg.depth * cfg.bytes)
    && (drvMax == 0 && cfg.depth * cfg.bytes == 0 ==> len == conf.maxVecLen)
    && (len == drvMax || len == cfg.depth * cfg.bytes || (cfg.depth * cfg.bytes == 0 && len == conf.maxVecLen))
  }

  lemma SupVecLenIsLongest(conf: Conf, drvMax: nat, cfg: Cfg)
    ensures Longest(conf, drvMax, cfg, SupVecLen(conf, drvMax, cfg))
  {
  }

  /** A vector that fits the target's memory fits the message buffer. */
  lemma RoomEnough(cfg: Cfg, bytes: nat)
    requires CfgOk(cfg)
    ensures cfg.depth > 0 ==> cfg.depth * cfg.bytes > 0
    ensures bytes <= cfg.depth * cfg.bytes ==> MessageRoom(cfg, bytes) <= (2 * cfg.depth + 1) * cfg.bytes
  {
    var ws, d := cfg.bytes, cfg.depth;
    if d > 0 { MulMono(d, 1, ws); }
    PairPlaces(ws, 0, d);
    assert (2 * d + 1) * ws == ws + 2 * (d * ws);
    if bytes <= d * ws {
      DivUp(bytes, ws, d);
      MulMono(d, WordsFor(ws, 8 * bytes), ws);
    }
  }

  lemma ChunkFits(drv: JtagDriver, link: Link, supVecLen: nat, bits: nat)
    requires drv.Knows(link) && 0 < bits <= 8 * supVecLen <= MAX_BITS
    requires link.cfg.depth > 0 ==> supVecLen <= link.cfg.depth * link.cfg.bytes
    requires MessageRoom(link.cfg, supVecLen) <= drv.txBuf.Length
    ensures VectorFits(link.cfg, bits)
    ensures drv.wordSize + 2 * (WordsFor(drv.wordSize, bits) * drv.wordSize) <= drv.txBuf.Length
  {
    var ws := drv.wordSize;
    WordsForBits(ws, bits);
    WordsForBits(ws, 8 * supVecLen);
    var a, b := WordsFor(ws, bits), WordsFor(ws, 8 * supVecLen);
    DivMono(bits - 1, 8 * supVecLen - 1, 8 * ws);
    MulMono(b, a, ws);
  }
}
