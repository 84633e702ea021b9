// UdpLoopBack: a second implementation of the replaying target, which sends TDI back as TDO.

module LoopBack {
  import F = Firmware
  import opened HostMessage
  import opened HostSpec
  import opened Jtag
  import opened Options
  import P = Protocol

  const WORD_SIZE := 4

  /** What a host sends: a query, whose transaction ID is 0, or a shift of `bits` bits, whose ID is not. */
  datatype Request = Query | Shift(xid: nat, bits: nat, bytes: seq<Byte>)

  datatype Reply = Reply(xid: nat, payload: seq<Byte>)

  predicate FromHost(q: Request) {
    q.Shift? ==>
      && q.xid > 0 && q.bits > 0
      && |q.bytes| == WORD_SIZE + 2 * (WordsFor(WORD_SIZE, q.bits) * WORD_SIZE)
  }

  // ---- the replay specification ----

  /** The reply to the last shift since the last query, and all shifts processed so far. */
  datatype Store = Store(last: Option<Reply>, processed: seq<Request>)

  /** Where byte `i` of TDI stands in a message of 4-byte words. */
  function TdiAt(i: nat): nat {
    WORD_SIZE + 2 * (i / WORD_SIZE * WORD_SIZE) + WORD_SIZE + i % WORD_SIZE
  }

  function TdiOf(m: seq<Byte>, n: nat): (tdi: seq<Byte>)
    requires forall i :: 0 <= i < n ==> TdiAt(i) < |m|
    ensures |tdi| == n
  {
    seq(n, i requires 0 <= i < n => m[TdiAt(i)])
  }

  lemma TdiFits(q: Request)
    requires FromHost(q) && q.Shift?
    ensures forall i :: 0 <= i < ByteCeil(q.bits) ==> TdiAt(i) < |q.bytes|
  {
    WordsForBits(WORD_SIZE, q.bits);
  }

  /** A shift is processed unless it repeats the last one. */
  function Answer(s: Store, q: Request): (Store, Reply)
    requires FromHost(q)
  {
    match q
    case Query => (s.(last := None), Reply(0, []))
    case Shift(xid, bits, bytes) =>
      if s.last.Some? && s.last.value.xid == xid then (s, s.last.value)
      else
        TdiFits(q);
        var r := Reply(xid, TdiOf(bytes, ByteCeil(bits)));
        (Store(Some(r), s.processed + [q]), r)
  }

  /** A run of requests, one after the other. */
  function AnswerAll(s: Store, qs: seq<Request>): (Store, seq<Reply>)
    requires AllFromHost(qs)
  {
    if qs == [] then (s, [])
    else
      var (t, rs) := AnswerAll(s, qs[..|qs| - 1]);
      var (u, r) := Answer(t, qs[|qs| - 1]);
      (u, rs + [r])
  }

  predicate AllFromHost(qs: seq<Request>) {
    forall k :: 0 <= k < |qs| ==> FromHost(qs[k])
  }

  predicate Drops(drEn: bool, n: nat) { drEn && n % 0x100 == 0 }

  /** The requests that get through when, with `drEn`, each 256th one is dropped; `drop` were received before. */
  function Kept(drEn: bool, drop: nat, qs: seq<Request>): seq<Request> {
    if qs == [] then []
    else
      var n := |qs| - 1;
      Kept(drEn, drop, qs[..n]) + (if Drops(drEn, drop + |qs|) then [] else [qs[n]])
  }

  // ---- the firmware on the same requests ----

  predicate ForTarget(cfg: F.Cfg, q: Request) {
    && F.CfgOk(cfg) && cfg.bytes == WORD_SIZE && cfg.depth > 0 && FromHost(q)
    && (q.Shift? ==> P.ShiftMsg(cfg, q.xid, MessageOf(cfg, q)))
  }

  predicate AllForTarget(cfg: F.Cfg, qs: seq<Request>) {
    F.CfgOk(cfg) && forall k :: 0 <= k < |qs| ==> ForTarget(cfg, qs[k])
  }

  /** The request as the words of the stream. */
  function MessageOf(cfg: F.Cfg, q: Request): P.Msg
    requires F.CfgOk(cfg) && cfg.bytes == WORD_SIZE && FromHost(q)
  {
    match q
    case Query => P.QueryMsg(cfg)
    case Shift(_, bits, bytes) => MessageWords(cfg, bits, bytes)
  }

  /** The firmware after the requests, and its answer to the last of them. */
  function Target(cfg: F.Cfg, dev: Device, qs: seq<Request>): F.Answer
    requires AllForTarget(cfg, qs)
  {
    if qs == [] then F.Answer(F.POWER_UP, [], [])
    else
      var n := |qs| - 1;
      var z := Target(cfg, dev, qs[..n]);
      IsRequest(cfg, qs[n]);
      F.Serve(cfg, dev, z.hist, z.fw, MessageOf(cfg, qs[n]))
  }

  lemma IsRequest(cfg: F.Cfg, q: Request)
    requires ForTarget(cfg, q)
    ensures F.RequestOk(cfg, MessageOf(cfg, q))
  {
  }

  /** The bits of shifts, in their order. */
  function ShiftBits(cfg: F.Cfg, qs: seq<Request>): seq<Pin>
    requires AllForTarget(cfg, qs)
  {
    if qs == [] then []
    else
      var n := |qs| - 1;
      IsRequest(cfg, qs[n]);
      ShiftBits(cfg, qs[..n]) + (if qs[n].Shift? then P.MsgBits(cfg, MessageOf(cfg, qs[n])) else [])
  }

  /** The emulation remembers what the firmware remembers, and has processed what the firmware has shifted. */
  predicate Alike(cfg: F.Cfg, z: F.Answer, s: Store) {
    && AllForTarget(cfg, s.processed) && z.hist == ShiftBits(cfg, s.processed)
    && z.fw.memValid == s.last.Some? && (s.last.Some? ==> z.fw.xid == s.last.value.xid)
  }

  lemma AlikeStep(cfg: F.Cfg, dev: Device, z: F.Answer, s: Store, q: Request)
    requires ForTarget(cfg, q) && Alike(cfg, z, s)
    ensures F.RequestOk(cfg, MessageOf(cfg, q))
    ensures Alike(cfg, F.Serve(cfg, dev, z.hist, z.fw, MessageOf(cfg, q)), Answer(s, q).0)
  {
    match q
    case Query => P.ServeQuery(cfg, dev, z.hist, z.fw);
    case Shift(xid, _, _) =>
      var m := MessageOf(cfg, q);
      if s.last.Some? && s.last.value.xid == xid {
        P.ServeAgain(cfg, dev, z.hist, xid, m, z.fw.mem);
      } else {
        P.ServeFirst(cfg, dev, z.hist, z.fw, xid, m);
        assert (s.processed + [q])[..|s.processed|] == s.processed;
      }
  }

  /**
   Whatever requests come, new ones and repeated ones: the emulated target processes a shift when, and only when, the
   firmware lets its target see the bits of it, and both remember the same transaction.
   */
  lemma {:induction false} LikeFirmware(cfg: F.Cfg, dev: Device, qs: seq<Request>)
    requires AllForTarget(cfg, qs)
    ensures Alike(cfg, Target(cfg, dev, qs), AnswerAll(Store(None, []), qs).0)
  {
    if qs != [] {
      var n := |qs| - 1;
      LikeFirmware(cfg, dev, qs[..n]);
      AlikeStep(cfg, dev, Target(cfg, dev, qs[..n]), AnswerAll(Store(None, []), qs[..n]).0, qs[n]);
    }
  }

  lemma InOneWord(j: nat, k: nat, n: nat)
    requires j % WORD_SIZE == 0 && k < n <= WORD_SIZE
    ensures TdiAt(j + k) == TdiAt(j) + k <= TdiAt(j + n - 1)
  {
  }

  // ---- the program ----

  class UdpLoopBack {
    var hdXid: nat // transaction ID in the header of the reply buffer
    var tsiz: int // size of the payload that can be sent again, or -1
    const rxb: array<Byte>
    const drEn: bool
    var drop: nat // requests received
    ghost var processed: seq<Request>

    /** The reply buffer as power-up left it. */
    constructor (size: nat, hdXid: nat, drEn: bool)
      ensures fresh(rxb) && rxb.Length == size && tsiz == -1 && processed == [] && this.drEn == drEn && drop == 0
    {
      this.hdXid, tsiz, processed, this.drEn, drop := hdXid, -1, [], drEn, 0;
      rxb := new Byte[size](_ => ZERO_BYTE);
    }

    /** The buffers hold what `s` remembers; without a valid reply the ID is one that no shift uses. */
    ghost predicate Holds(s: Store)
      reads this, rxb
    {
      && processed == s.processed && tsiz <= rxb.Length
      && match s.last
         case None => tsiz < 0 && hdXid == 0
         case Some(r) => 0 <= tsiz && hdXid == r.xid && r.xid > 0 && rxb[..tsiz] == r.payload
    }

    /** TDI word by word, and what is left of it. */
    method CopyTdi(m: seq<Byte>, bytes: nat)
      requires bytes <= rxb.Length && forall i :: 0 <= i < bytes ==> TdiAt(i) < |m|
      modifies rxb
      ensures rxb[..bytes] == TdiOf(m, bytes)
    {
      var wsz := WORD_SIZE;
      var wbytes := bytes / wsz * wsz;
      var i, j := 0, 0;
      while i < 2 * wbytes
        invariant i == 2 * j && j % wsz == 0 && j <= wbytes
        invariant forall k :: 0 <= k < j ==> rxb[k] == m[TdiAt(k)]
      {
        CopyWord(m, wsz + wsz + i, j, wsz);
        i := i + 2 * wsz;
        j := j + wsz;
      }
      if bytes > wbytes { CopyWord(m, wsz + wsz + i, j, bytes - wbytes); }
    }

    /** A shift is processed. */
    method Process(q: Request) returns (bytes: nat)
      requires FromHost(q) && q.Shift? && ByteCeil(q.bits) <= rxb.Length
      modifies rxb, this`processed
      ensures processed == old(processed) + [q]
      ensures forall i :: 0 <= i < ByteCeil(q.bits) ==> TdiAt(i) < |q.bytes|
      ensures bytes == ByteCeil(q.bits) && rxb[..bytes] == TdiOf(q.bytes, bytes)
    {
      TdiFits(q);
      bytes := (q.bits + 7) / 8;
      CopyTdi(q.bytes, bytes);
      processed := processed + [q];
    }

    /** `n` bytes of a word, whose first one is byte `j` of TDI. */
    method CopyWord(m: seq<Byte>, at: nat, j: nat, n: nat)
      requires j % WORD_SIZE == 0 && n <= WORD_SIZE && j + n <= rxb.Length && at == TdiAt(j)
      requires n > 0 ==> TdiAt(j + n - 1) < |m|
      modifies rxb
      ensures forall k :: 0 <= k < j ==> rxb[k] == old(rxb[k])
      ensures forall k :: j <= k < j + n ==> TdiAt(k) < |m| && rxb[k] == m[TdiAt(k)]
    {
      for k := 0 to n
        invariant forall l :: 0 <= l < j ==> rxb[l] == old(rxb[l])
        invariant forall l :: j <= l < j + k ==> TdiAt(l) < |m| && rxb[l] == m[TdiAt(l)]
      {
        InOneWord(j, k, n);
        rxb[j + k] := m[at + k];
      }
    }

    /**
     From the first query on, the answer is that of the specification and the buffers hold what it remembers; `None`
     would be the error of a retry without a valid message.
     */
    method Xfer(q: Request, ghost s: Store) returns (r: Option<Reply>)
      requires FromHost(q) && (q.Query? || Holds(s)) && processed == s.processed
      requires q.Shift? ==> ByteCeil(q.bits) <= rxb.Length
      modifies this`hdXid, this`tsiz, this`processed, rxb
      ensures r == Some(Answer(s, q).1) && Holds(Answer(s, q).0)
    {
      match q
      case Query =>
        // a new connection
        tsiz := -1;
        hdXid := 0;
        return Some(Reply(0, []));
      case Shift(xid, bits, bytes) =>
        if xid == hdXid {
          if tsiz < 0 { return None; }
          return Some(Reply(hdXid, rxb[..tsiz]));
        }
        var got := Process(q);
        hdXid := xid;
        tsiz := got;
        return Some(Reply(hdXid, rxb[..got]));
    }

    /** The requests `ks` are answered. */
    ghost predicate Sofar(ks: seq<Request>, s: Store, sent: seq<Reply>)
      reads this, rxb
    {
      && AllFromHost(ks) && AnswerAll(Store(None, []), ks) == (s, sent)
      && processed == s.processed && (ks != [] ==> Holds(s))
    }

    /** One round of the loop: the request is dropped, or answered. */
    method Round(q: Request, sent: seq<Reply>, ghost ks: seq<Request>, ghost s: Store)
      returns (sent': seq<Reply>, ghost ks': seq<Request>, ghost s': Store)
      requires FromHost(q) && (q.Shift? ==> ByteCeil(q.bits) <= rxb.Length)
      requires Sofar(ks, s, sent) && (Drops(drEn, drop + 1) || ks != [] || q.Query?)
      modifies this, rxb
      ensures drop == old(drop) + 1 && Sofar(ks', s', sent')
      ensures ks' == if Drops(drEn, old(drop) + 1) then ks else ks + [q]
    {
      drop := drop + 1;
      sent', ks', s' := sent, ks, s;
      if !Drops(drEn, drop) {
        var r := Xfer(q, s);
        AnswerSnoc(Store(None, []), ks, q);
        ks', s' := ks + [q], Answer(s, q).0;
        sent' := sent + [r.value];
      }
    }

    /**
     The loop over the requests that arrive: if the first one that gets through is a query, the replies sent are those
     of the specification to the requests that get through, and the program does not give up.
     */
    method Run(qs: seq<Request>) returns (sent: seq<Reply>)
      requires AllFromHost(qs) && processed == []
      requires forall k :: 0 <= k < |qs| && qs[k].Shift? ==> ByteCeil(qs[k].bits) <= rxb.Length
      requires var ks := Kept(drEn, drop, qs); ks != [] ==> ks[0].Query?
      modifies this, rxb
      ensures AllFromHost(Kept(drEn, old(drop), qs))
      ensures sent == AnswerAll(Store(None, []), Kept(drEn, old(drop), qs)).1
      ensures processed == AnswerAll(Store(None, []), Kept(drEn, old(drop), qs)).0.processed
    {
      sent := [];
      ghost var s, ks, d := Store(None, []), [], drop;
      for k := 0 to |qs|
        invariant drop == d + k && ks == Kept(drEn, d, qs[..k]) && Sofar(ks, s, sent)
      {
        NextKept(drEn, d, qs, k, drop + 1, ks);
        sent, ks, s := Round(qs[k], sent, ks, s);
      }
      assert qs[..|qs|] == qs;
    }
  }

  lemma {:induction false} KeptPrefix(drEn: bool, drop: nat, qs: seq<Request>, k: nat)
    requires k <= |qs|
    ensures Kept(drEn, drop, qs[..k]) <= Kept(drEn, drop, qs)
    decreases |qs|
  {
    if k == |qs| {
      assert qs[..k] == qs;
    } else {
      KeptPrefix(drEn, drop, qs[..|qs| - 1], k);
      assert qs[..|qs| - 1][..k] == qs[..k];
    }
  }

  /** Of 256 requests the last one is dropped, and then they are counted anew; */
  lemma {:induction false} LastOf256Dropped(a: seq<Request>, b: seq<Request>)
    requires |a| == 256
    ensures Kept(true, 0, a + b) == a[..255] + Kept(true, 0, b)
    decreases |b|
  {
    if b == [] {
      assert a + b == a;
      FewKept(a[..255]);
    } else {
      var n := |b| - 1;
      LastOf256Dropped(a, b[..n]);
      NextKeptBehind(a, b, n);
    }
  }

  lemma NextKeptBehind(a: seq<Request>, b: seq<Request>, n: nat)
    requires |a| == 256 && |b| == n + 1
    ensures (a + b)[..256 + n] == a + b[..n] && (a + b)[256 + n] == b[n] && |a + b| == 256 + |b|
    ensures Drops(true, 256 + |b|) == Drops(true, |b|)
  {
  }

  /** fewer requests all get through, and without dropping all do. */
  lemma {:induction false} FewKept(a: seq<Request>)
    requires |a| < 256
    ensures Kept(true, 0, a) == a
  {
    if a != [] { FewKept(a[..|a| - 1]); }
  }

  lemma {:induction false} AllKept(d: nat, a: seq<Request>)
    ensures Kept(false, d, a) == a
  {
    if a != [] { AllKept(d, a[..|a| - 1]); }
  }

  /** The next request gets through or not; if it is the first one that does, it is a query. */
  lemma NextKept(drEn: bool, drop: nat, qs: seq<Request>, k: nat, n: nat, ks: seq<Request>)
    requires k < |qs| && (Kept(drEn, drop, qs) != [] ==> Kept(drEn, drop, qs)[0].Query?)
    requires n == drop + k + 1 && ks == Kept(drEn, drop, qs[..k])
    ensures Kept(drEn, drop, qs[..k + 1]) == if Drops(drEn, n) then ks else ks + [qs[k]]
    ensures Drops(drEn, n) || ks != [] || qs[k].Query?
  {
    KeptPrefix(drEn, drop, qs, k + 1);
    assert qs[..k + 1][..k] == qs[..k];
  }

  lemma AnswerSnoc(s: Store, qs: seq<Request>, q: Request)
    requires AllFromHost(qs) && FromHost(q)
    ensures AllFromHost(qs + [q])
    ensures var (t, rs) := AnswerAll(s, qs);
            AnswerAll(s, qs + [q]) == (Answer(t, q).0, rs + [Answer(t, q).1])
  {
    assert (qs + [q])[..|qs|] == qs;
  }

  /** A host's message comes back as its TDI vector. */
  lemma LoopsTdiBack(xid: nat, bits: nat, tms: seq<Byte>, tdi: seq<Byte>, buf: seq<Byte>)
    requires bits > 0 && xid > 0 && ByteCeil(bits) <= |tms| && ByteCeil(bits) <= |tdi|
    requires Interleaved(WORD_SIZE, bits, tms, tdi, buf)
    ensures FromHost(Shift(xid, bits, buf))
    ensures forall i :: 0 <= i < ByteCeil(bits) ==> TdiAt(i) < |buf|
    ensures TdiOf(buf, ByteCeil(bits)) == tdi[..ByteCeil(bits)]
  {
    var n := ByteCeil(bits);
    TdiFits(Shift(xid, bits, buf));
    forall i | 0 <= i < n
      ensures buf[TdiAt(i)] == tdi[i]
    {
      assert PairAt(WORD_SIZE, n, tms, tdi, buf, i / WORD_SIZE, i % WORD_SIZE);
    }
  }

  /** A host's new message is answered with its TDI vector, and so is the same message again. */
  lemma AnswersTdi(s: Store, xid: nat, bits: nat, tms: seq<Byte>, tdi: seq<Byte>, buf: seq<Byte>)
    requires bits > 0 && xid > 0 && ByteCeil(bits) <= |tms| && ByteCeil(bits) <= |tdi|
    requires Interleaved(WORD_SIZE, bits, tms, tdi, buf) && (s.last.Some? ==> s.last.value.xid != xid)
    ensures FromHost(Shift(xid, bits, buf))
    ensures var (t, r) := Answer(s, Shift(xid, bits, buf));
            && r == Reply(xid, tdi[..ByteCeil(bits)]) && t.processed == s.processed + [Shift(xid, bits, buf)]
            && Answer(t, Shift(xid, bits, buf)) == (t, r)
  {
    LoopsTdiBack(xid, bits, tms, tdi, buf);
  }

  /** However often the last shift is sent again, it is answered alike and not processed again. */
  lemma {:induction false} Idempotent(s: Store, q: Request, again: nat)
    requires FromHost(q) && q.Shift?
    ensures AnswerMany(Answer(s, q).0, q, again) == Answer(s, q).0
    ensures Answer(AnswerMany(Answer(s, q).0, q, again), q).1 == Answer(s, q).1
  {
    if again > 0 { Idempotent(s, q, again - 1); }
  }

  function AnswerMany(s: Store, q: Request, n: nat): Store
    requires FromHost(q)
  {
    if n == 0 then s else Answer(AnswerMany(s, q, n - 1), q).0
  }
}
