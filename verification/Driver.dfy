// The host driver (JtagDriverAxisToJtag) at work: buffers, retries and transaction IDs, over a link that loses
// messages.

module Driver {
  import opened Bits
  import opened Arith
  import opened Jtag
  import opened Header
  import opened Firmware
  import opened Options
  import opened Protocol
  import opened HostSpec
  import opened HostHeader
  import opened HostMessage

  /**
   What becomes of one exchange: whether the request arrives, how many copies of its reply do, and whether one does
   in time.
   */
  datatype Fate = Fate(arrives: bool, copies: nat, inTime: bool)

  const PROMPT := Fate(true, 1, true)

  /** In such an exchange a reply arrives in time. */
  predicate Good(f: Fate) { f.arrives && f.copies > 0 && f.inTime }

  /** Exchange `k`; there are no faults after the end of the plan. */
  function FateAt(plan: seq<Fate>, k: nat): Fate {
    if k < |plan| then plan[k] else PROMPT
  }

  /** How many of the `n` exchanges from `at` on are good. */
  function Goods(plan: seq<Fate>, at: nat, n: nat): (g: nat)
    ensures g <= n
  {
    if n == 0 then 0 else Goods(plan, at, n - 1) + (if Good(FateAt(plan, at + n - 1)) then 1 else 0)
  }

  /** At any time from `at` on, one of the next `n` exchanges is good. */
  ghost predicate Patient(plan: seq<Fate>, at: nat, n: nat) {
    forall k :: k >= at ==> Goods(plan, k, n) > 0
  }

  lemma {:induction false} MoreGoods(plan: seq<Fate>, at: nat, n: nat, m: nat)
    requires n <= m
    ensures Goods(plan, at, n) <= Goods(plan, at, m)
    decreases m
  {
    if n < m { MoreGoods(plan, at, n, m - 1); }
  }

  lemma {:induction false} NoFaultsLeft(plan: seq<Fate>, at: nat, n: nat)
    requires at >= |plan|
    ensures Goods(plan, at, n) == n
  {
    if n > 0 { NoFaultsLeft(plan, at, n - 1); }
  }

  /** A host with at least as many attempts is answered. */
  lemma Served(plan: seq<Fate>, at: nat, n: nat, attempts: nat)
    requires at >= |plan| || Patient(plan, at, n)
    requires 0 < n <= attempts
    ensures Goods(plan, at, attempts) > 0
  {
    if at >= |plan| {
      NoFaultsLeft(plan, at, attempts);
    } else {
      MoreGoods(plan, at, n, attempts);
    }
  }

  /** Attempts that a host makes that knows the target. */
  function Attempts(cfg: Cfg): nat { if cfg.depth == 0 then 1 else 6 }

  function Copies(m: Msg, n: nat): (ms: seq<Msg>)
    ensures |ms| == n && forall i :: 0 <= i < n ==> ms[i] == m
  {
    seq(n, i => m)
  }

  datatype LinkState = LinkState(at: nat, fw: Fw, hist: seq<Pin>, late: seq<Msg>)

  /**
   A target behind a link that loses requests and loses, delays and repeats replies as `plan` has it. On a punctual
   link a reply that is not in time is lost.
   */
  class Link {
    const cfg: Cfg
    const dev: Device
    const punctual: bool
    const plan: seq<Fate>
    var at: nat // exchanges made
    var fw: Fw
    var hist: seq<Pin>
    var late: seq<Msg> // replies on their way to the host

    constructor (cfg: Cfg, dev: Device, punctual: bool, plan: seq<Fate>)
      ensures this.cfg == cfg && this.dev == dev && this.punctual == punctual && this.plan == plan
      ensures at == 0 && fw == POWER_UP && hist == [] && late == [] && Valid()
    {
      this.cfg, this.dev, this.punctual, this.plan := cfg, dev, punctual, plan;
      at, fw, hist, late := 0, POWER_UP, [], [];
    }

    predicate Valid()
      reads this
    {
      punctual ==> late == []
    }

    /** Nothing is on its way that a host waiting for `x` could take. */
    predicate Clear(x: nat)
      reads this
    {
      forall i :: 0 <= i < |late| ==> NotFor(Width(cfg), x, late[i])
    }

    /** Nothing but replies to queries is on its way. */
    predicate OnlyQueries()
      requires CfgOk(cfg)
      reads this
    {
      forall i :: 0 <= i < |late| ==> late[i] == QueryReply(cfg)
    }

    predicate Faultless()
      reads this
    {
      at >= |plan| && late == []
    }

    /** No faults, or not so many in a row that a host that knows the target runs out of attempts. */
    ghost predicate Reliable()
      reads this
    {
      Faultless() || (punctual && Patient(plan, at, Attempts(cfg)))
    }

    /** All that changes. */
    function Now(): LinkState
      reads this
    {
      LinkState(at, fw, hist, late)
    }

    /** Transaction `t` is one over this link. */
    ghost predicate Carries(t: Transaction)
      reads this
    {
      Valid() && TransactionOk(t) && t.cfg == cfg && t.dev == dev && t.punctual == punctual && t.plan == plan
    }

    /** One exchange: `None` is a timeout. Whatever arrives first is taken. */
    method Xfer(req: Msg) returns (reply: Option<Msg>, ghost copies: nat)
      requires Valid() && RequestOk(cfg, req)
      modifies this
      ensures Valid()
      ensures var a := Serve(cfg, dev, old(hist), old(fw), req);
              && ((fw == old(fw) && hist == old(hist) && copies == 0) || (fw == a.fw && hist == a.hist))
              && old(late) + Copies(a.reply, copies) == (if reply.Some? then [reply.value] + late else late)
      ensures at == old(at) + 1
      ensures Good(FateAt(plan, old(at))) ==> reply.Some? && copies > 0
      ensures punctual && reply.Some? ==> Good(FateAt(plan, old(at)))
      ensures old(Faultless()) ==> Faultless()
    {
      var fate := FateAt(plan, at);
      at := at + 1;
      copies := 0;
      if fate.arrives {
        var a := Serve(cfg, dev, hist, fw, req);
        fw, hist := a.fw, a.hist;
        if !punctual || (fate.inTime && fate.copies > 0) {
          copies := if punctual then 1 else fate.copies;
          late := late + Copies(a.reply, if punctual then 1 else fate.copies);
        }
      }
      reply := None;
      if late != [] && (punctual || fate.inTime) {
        reply, late := Some(late[0]), late[1..];
      }
    }
  }

  datatype Outcome = Done(hdr: Vec) | TimedOut | Refused

  /** What the driver sends: the query, or a shift with transaction ID `xid` that the target does not know yet. */
  predicate Sendable(cfg: Cfg, fw: Fw, xid: nat, m: Msg) {
    CfgOk(cfg) && (m == QueryMsg(cfg) || (ShiftMsg(cfg, xid, m) && xid > 0 && (fw.memValid ==> fw.xid != xid)))
  }

  /** The target has seen `m`, which a shift lets it execute just once; `fw` and `hist` were before. */
  predicate Seen(cfg: Cfg, dev: Device, fw: Fw, hist: seq<Pin>, xid: nat, m: Msg, fw': Fw, hist': seq<Pin>)
    requires Sendable(cfg, fw, xid, m)
  {
    if m == QueryMsg(cfg) then fw' == fw.(memValid := false) && hist' == hist
    else fw' == Fw(xid, cfg.depth > 0, Words(cfg, dev, hist, m)) && hist' == hist + MsgBits(cfg, m)
  }

  /** The same, if it has seen `m` at all. */
  predicate SeenIf(cfg: Cfg, dev: Device, fw: Fw, hist: seq<Pin>, xid: nat, m: Msg, fw': Fw, hist': seq<Pin>,
                   seen: bool)
    requires Sendable(cfg, fw, xid, m)
  {
    if seen then Seen(cfg, dev, fw, hist, xid, m, fw', hist') else fw' == fw && hist' == hist
  }

  lemma XidOfRequest(cfg: Cfg, fw: Fw, xid: nat, m: Msg)
    requires Sendable(cfg, fw, xid, m)
    ensures RequestOk(cfg, m) && Xid(m[0]) == if m == QueryMsg(cfg) then XID_ANY else xid
  {
    if m == QueryMsg(cfg) { FieldOfZeros(Zeros(Width(cfg)), XID_SHIFT, XID_WIDTH); }
  }

  function Payload(cfg: Cfg, dev: Device, fw: Fw, hist: seq<Pin>, xid: nat, m: Msg): (words: seq<Vec>)
    requires Sendable(cfg, fw, xid, m)
    ensures forall k :: 0 <= k < |words| ==> |words[k]| == Width(cfg)
  {
    if m == QueryMsg(cfg) then [] else Words(cfg, dev, hist, m)
  }

  function ReplyTo(cfg: Cfg, dev: Device, fw: Fw, hist: seq<Pin>, xid: nat, m: Msg): (r: Msg)
    requires Sendable(cfg, fw, xid, m)
    ensures WordsOk(Width(cfg), r) && r[1..] == Payload(cfg, dev, fw, hist, xid, m)
  {
    if m == QueryMsg(cfg) then QueryReply(cfg) else [m[0]] + Words(cfg, dev, hist, m)
  }

  /** Sending `m` once more never does more than sending it once, and is answered alike. */
  lemma Resend(cfg: Cfg, dev: Device, fw: Fw, hist: seq<Pin>, xid: nat, m: Msg, fw': Fw, hist': seq<Pin>)
    requires Sendable(cfg, fw, xid, m)
    requires (fw' == fw && hist' == hist) ||
             (Seen(cfg, dev, fw, hist, xid, m, fw', hist') && (m == QueryMsg(cfg) || cfg.depth > 0))
    ensures RequestOk(cfg, m)
    ensures var a := Serve(cfg, dev, hist', fw', m);
            && Seen(cfg, dev, fw, hist, xid, m, a.fw, a.hist) && a.reply == ReplyTo(cfg, dev, fw, hist, xid, m)
            && Judge(Xid(m[0]), a.reply[0]) == Accept && ErrorOf(a.reply[0]) == 0
            && (m != QueryMsg(cfg) ==> Xid(m[0]) == xid == Xid(a.reply[0]))
            && (m == QueryMsg(cfg) ==> Xid(m[0]) == XID_ANY)
  {
    if m == QueryMsg(cfg) {
      ServeQuery(cfg, dev, hist', fw');
      FieldOfZeros(Zeros(Width(cfg)), XID_SHIFT, XID_WIDTH);
    } else if fw' == fw && hist' == hist {
      ServeFirst(cfg, dev, hist', fw', xid, m);
    } else {
      ServeAgain(cfg, dev, hist', xid, m, Words(cfg, dev, hist, m));
    }
  }

  /** A reply that a host waiting for `x` does not take. */
  predicate NotFor(w: nat, x: nat, m: Msg) {
    x != XID_ANY && WordsOk(w, m) && ErrorOf(m[0]) == 0 && Xid(m[0]) != x
  }

  predicate WordsOk(w: nat, m: Msg) {
    |m| >= 1 && w >= 32 && forall k :: 0 <= k < |m| ==> |m[k]| == w
  }

  /**
   On their way are old replies and behind them copies of the reply `r` to `x`, if the target has seen the request.
   */
  ghost predicate QueueOk(w: nat, late: seq<Msg>, x: nat, r: Msg, seen: bool) {
    && (forall i :: 0 <= i < |late| ==> (late[i] == r && seen) || NotFor(w, x, late[i]))
    && (forall i, j :: 0 <= i < j < |late| && late[i] == r ==> late[j] == r)
  }

  /** Copies of the reply join the queue. */
  lemma QueueGrows(w: nat, late: seq<Msg>, x: nat, r: Msg, seen: bool, n: nat, seen': bool)
    requires QueueOk(w, late, x, r, seen) && !NotFor(w, x, r) && (seen || n > 0 ==> seen')
    ensures QueueOk(w, late + Copies(r, n), x, r, seen')
  {
  }

  /** One message leaves it: the reply, with nothing but copies left, or an old one. */
  lemma QueueShrinks(w: nat, q: seq<Msg>, m: Msg, late: seq<Msg>, x: nat, r: Msg, seen: bool)
    requires QueueOk(w, q, x, r, seen) && !NotFor(w, x, r) && q == [m] + late
    ensures QueueOk(w, late, x, r, seen)
    ensures if m == r then seen && forall i :: 0 <= i < |late| ==> late[i] == r else NotFor(w, x, m)
  {
    assert m == q[0];
    forall i | 0 <= i < |late| ensures late[i] == q[i + 1] {}
  }

  /** What a host that waits for `x` gets out of the queue, and what is left there. */
  ghost predicate Took(w: nat, x: nat, r: Msg, seen: bool, got: Option<Msg>, late: seq<Msg>) {
    && QueueOk(w, late, x, r, seen)
    && (got.Some? ==>
          && WordsOk(w, got.value) && (x == XID_ANY ==> got.value == r)
          && (if got.value == r then seen && Judge(x, r[0]) == Accept && forall i :: 0 <= i < |late| ==> late[i] == r
              else Judge(x, got.value[0]) == Again))
  }

  /** Messages in the queue that are not the reply. */
  function Olds(q: seq<Msg>, r: Msg): (n: nat)
    ensures n <= |q|
  {
    if q == [] then 0 else (if q[0] != r then 1 else 0) + Olds(q[1..], r)
  }

  lemma {:induction false} OldsOfCopies(q: seq<Msg>, r: Msg, n: nat)
    ensures Olds(q + Copies(r, n), r) == Olds(q, r)
    decreases |q| + n
  {
    var all := q + Copies(r, n);
    if q != [] {
      OldsOfCopies(q[1..], r, n);
      assert all[1..] == q[1..] + Copies(r, n);
    } else if n > 0 {
      OldsOfCopies(q, r, n - 1);
      assert all[1..] == q + Copies(r, n - 1);
    }
  }

  /** Each old message that is taken is one less. */
  lemma OldsAfter(q: seq<Msg>, r: Msg, n: nat, got: Option<Msg>, late: seq<Msg>)
    requires q + Copies(r, n) == (if got.Some? then [got.value] + late else late)
    ensures Olds(late, r) == Olds(q, r) - (if got.Some? && got.value != r then 1 else 0)
  {
    OldsOfCopies(q, r, n);
    if got.Some? { assert ([got.value] + late)[1..] == late; }
  }

  /** `used` exchanges were made without the reply being taken: the good ones among them took an old message each. */
  ghost predicate Unanswered(plan: seq<Fate>, at: nat, used: nat, old0: nat, late: seq<Msg>, r: Msg, punctual: bool) {
    Olds(late, r) + Goods(plan, at, used) <= old0 && (punctual ==> Goods(plan, at, used) == 0)
  }

  /** `used` exchanges were made, and the reply was taken in the last one, on a punctual link in the first good one. */
  predicate Answered(plan: seq<Fate>, at: nat, used: nat, punctual: bool) {
    used > 0 && (punctual ==> Goods(plan, at, used - 1) == 0 && Goods(plan, at, used) == 1)
  }

  /** What one more exchange makes of the count. */
  lemma OneUsed(plan: seq<Fate>, at: nat, used: nat, old0: nat, late: seq<Msg>, r: Msg, punctual: bool,
                got: Option<Msg>, late': seq<Msg>)
    requires Unanswered(plan, at, used, old0, late, r, punctual)
    requires Olds(late', r) == Olds(late, r) - (if got.Some? && got.value != r then 1 else 0)
    requires Good(FateAt(plan, at + used)) ==> got.Some?
    requires punctual && got.Some? ==> Good(FateAt(plan, at + used)) && got.value == r
    ensures if got.Some? && got.value == r then Answered(plan, at, used + 1, punctual)
            else Unanswered(plan, at, used + 1, old0, late', r, punctual)
  {
  }

  lemma Takes(w: nat, q: seq<Msg>, x: nat, r: Msg, seen: bool, n: nat, seen': bool, got: Option<Msg>, late: seq<Msg>)
    requires QueueOk(w, q, x, r, seen) && (seen || n > 0 ==> seen') && WordsOk(w, r) && Judge(x, r[0]) == Accept
    requires q + Copies(r, n) == (if got.Some? then [got.value] + late else late)
    ensures Took(w, x, r, seen', got, late)
  {
    QueueGrows(w, q, x, r, seen, n, seen');
    if got.Some? { QueueShrinks(w, q + Copies(r, n), got.value, late, x, r, seen'); }
  }

  /** Only the TCK period tells a query reply from the reply to a shift. */
  lemma QueryReplyNotFor(cfg: Cfg, x: nat)
    requires CfgOk(cfg) && x > 0
    ensures NotFor(Width(cfg), x, QueryReply(cfg)) <==> cfg.period != x
  {
    ServeQuery(cfg, h => false, [], POWER_UP);
  }

  /**
   A transaction: over which link, the link's state at the beginning, the request with its ID, what the host waits for,
   and the reply.
   */
  datatype Transaction = Transaction(cfg: Cfg, dev: Device, punctual: bool, plan: seq<Fate>, z: LinkState, req: Msg,
                                     xid: nat, x: nat, reply: Msg)

  /** For a query, the reply may also be that to an earlier one. */
  predicate Stale(t: Transaction) { t.req == QueryMsg(t.cfg) && t.z.late != [] }

  ghost predicate TransactionOk(t: Transaction) {
    && Sendable(t.cfg, t.z.fw, t.xid, t.req) && t.x == Xid(t.req[0]) && (t.punctual ==> t.z.late == [])
    && t.reply == ReplyTo(t.cfg, t.dev, t.z.fw, t.z.hist, t.xid, t.req)
  }

  /** After `used` exchanges, the reply is not taken yet; `seen` is whether the target has seen the request. */
  ghost predicate Waiting(t: Transaction, z: LinkState, used: nat, seen: bool)
    requires TransactionOk(t)
  {
    && (t.punctual ==> z.late == [])
    && SeenIf(t.cfg, t.dev, t.z.fw, t.z.hist, t.xid, t.req, z.fw, z.hist, seen)
    && QueueOk(Width(t.cfg), z.late, t.x, t.reply, seen || Stale(t))
    && z.at == t.z.at + used && Unanswered(t.plan, t.z.at, used, |t.z.late|, z.late, t.reply, t.punctual)
  }

  /** The reply was taken in the last exchange. */
  ghost predicate Over(t: Transaction, z: LinkState, used: nat, seen: bool)
    requires TransactionOk(t)
  {
    && (t.punctual ==> z.late == [])
    && SeenIf(t.cfg, t.dev, t.z.fw, t.z.hist, t.xid, t.req, z.fw, z.hist, seen) && (seen || Stale(t))
    && (forall i :: 0 <= i < |z.late| ==> z.late[i] == t.reply)
    && z.at == t.z.at + used && Answered(t.plan, t.z.at, used, t.punctual)
  }

  /** At the beginning nothing that could be taken for the reply is on its way. */
  lemma Begins(t: Transaction)
    requires TransactionOk(t)
    requires if t.req == QueryMsg(t.cfg) then forall i :: 0 <= i < |t.z.late| ==> t.z.late[i] == QueryReply(t.cfg)
             else forall i :: 0 <= i < |t.z.late| ==> NotFor(Width(t.cfg), t.xid, t.z.late[i])
    ensures Waiting(t, t.z, 0, false)
  {
    XidOfRequest(t.cfg, t.z.fw, t.xid, t.req);
  }

  /** One exchange more: the reply is taken, or an old message, or nothing. */
  lemma Exchanged(t: Transaction, z: LinkState, used: nat, seen: bool, got: Option<Msg>, copies: nat, z': LinkState,
                  seen': bool)
    requires TransactionOk(t) && Waiting(t, z, used, seen) && Judge(t.x, t.reply[0]) == Accept
    requires SeenIf(t.cfg, t.dev, t.z.fw, t.z.hist, t.xid, t.req, z'.fw, z'.hist, seen')
    requires seen || copies > 0 ==> seen'
    requires z.late + Copies(t.reply, copies) == (if got.Some? then [got.value] + z'.late else z'.late)
    requires z'.at == z.at + 1 && (Good(FateAt(t.plan, z.at)) ==> got.Some?)
    requires t.punctual ==> z'.late == [] && (got.Some? ==> Good(FateAt(t.plan, z.at)))
    ensures got.Some? ==> WordsOk(Width(t.cfg), got.value)
                          && Judge(t.x, got.value[0]) == (if got.value == t.reply then Accept else Again)
                          && (t.x == XID_ANY ==> got.value == t.reply)
    ensures if got == Some(t.reply) then Over(t, z', used + 1, seen') else Waiting(t, z', used + 1, seen')
  {
    var w, stale := Width(t.cfg), Stale(t);
    Takes(w, z.late, t.x, t.reply, seen || stale, copies, seen' || stale, got, z'.late);
    OnPunctual(z.late, copies, t.reply, got, z'.late);
    Counted(t, z.at, used, z.late, copies, got, z'.late);
  }

  lemma OnPunctual(q: seq<Msg>, copies: nat, r: Msg, got: Option<Msg>, late: seq<Msg>)
    requires q + Copies(r, copies) == (if got.Some? then [got.value] + late else late)
    ensures q == [] && got.Some? ==> got.value == r
  {
    if q == [] && got.Some? { assert got.value == (q + Copies(r, copies))[0] == Copies(r, copies)[0]; }
  }

  lemma Counted(t: Transaction, at: nat, used: nat, q: seq<Msg>, copies: nat, got: Option<Msg>, late: seq<Msg>)
    requires at == t.z.at + used && Unanswered(t.plan, t.z.at, used, |t.z.late|, q, t.reply, t.punctual)
    requires q + Copies(t.reply, copies) == (if got.Some? then [got.value] + late else late)
    requires Good(FateAt(t.plan, at)) ==> got.Some?
    requires t.punctual && got.Some? ==> Good(FateAt(t.plan, at)) && got.value == t.reply
    ensures if got == Some(t.reply) then Answered(t.plan, t.z.at, used + 1, t.punctual)
            else Unanswered(t.plan, t.z.at, used + 1, |t.z.late|, late, t.reply, t.punctual)
  {
    OldsAfter(q, t.reply, copies, got, late);
    OneUsed(t.plan, t.z.at, used, |t.z.late|, q, t.reply, t.punctual, got, late);
  }

  /** What the end of a transaction means. */
  lemma ItIsOver(t: Transaction, z: LinkState, used: nat, seen: bool)
    requires TransactionOk(t) && Over(t, z, used, seen)
    ensures Seen(t.cfg, t.dev, t.z.fw, t.z.hist, t.xid, t.req, z.fw, z.hist)
         || (Stale(t) && z.fw == t.z.fw && z.hist == t.z.hist)
  {
  }

  /** And that it did not come, whatever the number of attempts was. */
  lemma NotYetOver(t: Transaction, z: LinkState, used: nat, seen: bool)
    requires TransactionOk(t) && Waiting(t, z, used, seen)
    ensures Seen(t.cfg, t.dev, t.z.fw, t.z.hist, t.xid, t.req, z.fw, z.hist) || (z.fw == t.z.fw && z.hist == t.z.hist)
    ensures z.at == t.z.at + used && Goods(t.plan, t.z.at, used) <= |t.z.late|
  {
  }

  /** The bytes of a payload, as far as there are bytes and payload. */
  predicate Holds(ws: nat, words: seq<Vec>, bytes: seq<Byte>)
    requires ws > 0 && forall k :: 0 <= k < |words| ==> |words[k]| == 8 * ws
  {
    forall j :: 0 <= j < |bytes| && j < |words| * ws ==> bytes[j] == PayloadByte(ws, words, j)
  }

  lemma FourBytes(buf: seq<Byte>, h: Vec)
    requires |h| == 32 && |buf| >= 4
    requires buf[0] == h[0..8] && buf[1] == h[8..16] && buf[2] == h[16..24] && buf[3] == h[24..32]
    ensures HeaderIs(buf, h)
  {
    assert Flat(buf[..4]) == h;
  }

  lemma NextPair(ws: nat, k: nat, n: nat, idx: nat)
    requires idx == k * ws < n * ws && k <= n
    ensures k < n && (k + 1) * ws == idx + ws <= n * ws
  {
    assert k == n ==> k * ws == n * ws;
    MulMono(n, k + 1, ws);
    MulSucc(k, ws);
  }

  lemma LastPair(ws: nat, k: nat, n: nat)
    requires k <= n && k * ws >= n * ws && ws > 0
    ensures k == n
  {
    if k < n {
      MulMono(n, k + 1, ws);
      MulSucc(k, ws);
    }
  }

  /** Whole words and the rest of a vector, and the place they take in a message of `total` bytes. */
  lemma Leftover(ws: nat, bits: nat, whole: nat, idx: nat, total: nat)
    requires ws > 0 && bits > 0 && whole == ByteCeil(bits) / ws && idx == whole * ws
    requires total == ws + 2 * (WordsFor(ws, bits) * ws)
    ensures idx <= ByteCeil(bits) < idx + ws && (whole + 1) * ws == idx + ws
    ensures total == ws + 2 * idx + (if idx < ByteCeil(bits) then 2 * ws else 0)
  {
    var b := ByteCeil(bits);
    var rest := b % ws;
    assert b == whole * ws + rest;
    MulSucc(whole, ws);
    if rest > 0 {
      DivMod(b + ws - 1, ws, whole + 1, rest - 1);
    } else {
      DivMod(b + ws - 1, ws, whole, ws - 1);
    }
  }

  lemma AfterCopies(ws: nat, n: nat, tms: seq<Byte>, tdi: seq<Byte>, buf: seq<Byte>, buf': seq<Byte>, k: nat, idx: nat,
                    len: nat, h: Vec)
    requires ws >= 4 && n <= |tms| && n <= |tdi| && PairsDone(ws, n, tms, tdi, buf, k) && HeaderIs(buf, h)
    requires idx == k * ws && len <= ws && idx + len <= n && (len == ws || idx + len == n)
    requires PairCopied(ws, tms, tdi, buf, buf', ws + 2 * idx, idx, len)
    ensures PairsDone(ws, n, tms, tdi, buf', k + 1) && HeaderIs(buf', h)
  {
    var wp := ws + 2 * idx;
    AddPair(ws, n, tms, tdi, buf, buf', k, len);
    assert buf'[..4] == buf'[..wp][..4] == buf[..wp][..4] == buf[..4];
  }

  lemma NoPairs(ws: nat, n: nat, tms: seq<Byte>, tdi: seq<Byte>, buf: seq<Byte>)
    requires n <= |tms| && n <= |tdi|
    ensures PairsDone(ws, n, tms, tdi, buf, 0)
  {
  }

  /** `len` bytes of both vectors from `idx` on are copied to `wp` and one word further. */
  predicate PairCopied(ws: nat, tms: seq<Byte>, tdi: seq<Byte>, buf: seq<Byte>, buf': seq<Byte>, wp: nat, idx: nat,
                       len: nat)
  {
    && idx + len <= |tms| && idx + len <= |tdi| && wp + ws + len <= |buf| == |buf'|
    && buf'[..wp] == buf[..wp]
    && buf'[wp..wp + len] == tms[idx..idx + len] && buf'[wp + ws..wp + ws + len] == tdi[idx..idx + len]
  }

  /** First TMS, then TDI. */
  lemma CopiedTwice(ws: nat, tms: seq<Byte>, tdi: seq<Byte>, b0: seq<Byte>, b1: seq<Byte>, b2: seq<Byte>, wp: nat,
                    idx: nat, len: nat, total: nat)
    requires len <= ws && wp + ws + len <= total <= |b0| == |b1| == |b2| && idx + len <= |tms| && idx + len <= |tdi|
    requires b1[..wp] == b0[..wp] && b1[wp..wp + len] == tms[idx..idx + len]
    requires b2[..wp + ws] == b1[..wp + ws] && b2[wp + ws..wp + ws + len] == tdi[idx..idx + len]
    ensures PairCopied(ws, tms, tdi, b0[..total], b2[..total], wp, idx, len)
  {
    assert b2[..total][..wp] == b2[..wp + ws][..wp] == b1[..wp];
    assert b2[..total][wp..wp + len] == b2[..wp + ws][wp..wp + len] == b1[wp..wp + len];
  }

  class JtagDriver {
    var wordSize: nat
    var memDepth: nat
    var retry: nat
    var xid: nat
    var txBuf: array<Byte>

    /** The transaction ID may start anywhere. */
    constructor (start: nat)
      requires start < 256
      ensures fresh(txBuf) && txBuf.Length == 2048
      ensures wordSize == 4 && memDepth == 1 && retry == 5 && xid == start
    {
      wordSize, memDepth, retry, xid := 4, 1, 5, start;
      txBuf := new Byte[2048](_ => ZERO_BYTE);
    }

    /** The driver knows the parameters of the target. */
    predicate Configured(cfg: Cfg)
      reads this
    {
      && CfgOk(cfg) && wordSize == cfg.bytes && memDepth == cfg.depth
      && retry == (if memDepth == 0 then 0 else 5) && xid < 256
      && (2 * memDepth + 1) * wordSize <= txBuf.Length
    }

    /** Besides, the target cannot confuse the next transaction with an old one. */
    predicate Knows(link: Link)
      reads this, link
    {
      Configured(link.cfg) && (link.fw.memValid ==> link.fw.xid == xid) && link.Valid() && link.Clear(NextXid(xid))
    }

    method NewXid()
      requires xid < 256
      modifies this`xid
      ensures xid == NextXid(old(xid)) && 0 < xid < 256 && xid != old(xid)
    {
      xid := (xid + 1) % 256;
      if xid == XID_ANY { xid := xid + 1; }
    }

    /** Copies `n` bytes of `src` from `from` on into the message buffer. */
    method Copy(at: nat, src: seq<Byte>, from: nat, n: nat)
      requires at + n <= txBuf.Length && from + n <= |src|
      modifies txBuf
      ensures txBuf[..at] == old(txBuf[..at]) && txBuf[at..at + n] == src[from..from + n]
      ensures txBuf[at + n..] == old(txBuf[at + n..])
    {
      for i := 0 to n
        invariant txBuf[..at] == old(txBuf[..at]) && txBuf[at + n..] == old(txBuf[at + n..])
        invariant forall j :: at <= j < at + i ==> txBuf[j] == src[from + (j - at)]
      {
        txBuf[at + i] := src[from + i];
      }
    }

    /** Puts the bytes of a reply payload, as far as wanted, where the client expects them. */
    method Store(words: seq<Vec>, txb: array<Byte>, off: nat, size: nat)
      requires wordSize > 0 && off + size <= txb.Length
      requires forall k :: 0 <= k < |words| ==> |words[k]| == 8 * wordSize
      modifies txb
      ensures txb[..off] == old(txb[..off]) && txb[off + size..] == old(txb[off + size..])
      ensures forall j :: 0 <= j < size && j < |words| * wordSize ==> txb[off + j] == PayloadByte(wordSize, words, j)
    {
      var n := if size < |words| * wordSize then size else |words| * wordSize;
      for i := 0 to n
        invariant txb[..off] == old(txb[..off]) && txb[off + size..] == old(txb[off + size..])
        invariant forall j :: 0 <= j < i ==> txb[off + j] == PayloadByte(wordSize, words, j)
      {
        txb[off + i] := PayloadByte(wordSize, words, i);
      }
    }

    /**
     One transaction, repeated until it is answered or the attempts are used up; a shift passes over late replies to the
     transaction before, a query takes the reply to an earlier query for its own. A shift is executed at most once, and
     exactly once if it is answered; the client then gets the TDO of that execution. It is answered if more of the
     exchanges that there are attempts for are good than there are old replies, and on a punctual link only if one is.
     */
    method XferRel(link: Link, req: Msg, txb: array<Byte>, off: nat, size: nat) returns (r: Outcome, ghost used: nat)
      requires Sendable(link.cfg, link.fw, xid, req) && off + size <= txb.Length && txb != txBuf
      requires link.Valid() && if req == QueryMsg(link.cfg) then link.OnlyQueries() else link.Clear(xid)
      requires req != QueryMsg(link.cfg) ==> Configured(link.cfg)
      requires wordSize > 0 && (wordSize == link.cfg.bytes || req == QueryMsg(link.cfg))
      modifies link, txb
      ensures txb[..off] == old(txb[..off]) && txb[off + size..] == old(txb[off + size..])
      ensures link.Valid() && !r.Refused? && (old(link.Faultless()) ==> link.Faultless())
      ensures link.at == old(link.at) + used && used <= retry + 1
      ensures r.Done? ==> Answered(link.plan, old(link.at), used, link.punctual)
      ensures r == TimedOut ==> used == retry + 1 && Goods(link.plan, old(link.at), retry + 1) <= |old(link.late)|
      ensures (link.fw == old(link.fw) && link.hist == old(link.hist)
               && (r == TimedOut || (req == QueryMsg(link.cfg) && old(link.late) != [])))
           || Seen(link.cfg, link.dev, old(link.fw), old(link.hist), xid, req, link.fw, link.hist)
      ensures r.Done? ==>
                var reply := ReplyTo(link.cfg, link.dev, old(link.fw), old(link.hist), xid, req);
                && r.hdr == reply[0] && (forall i :: 0 <= i < |link.late| ==> link.late[i] == reply)
                && (wordSize == link.cfg.bytes ==> Holds(wordSize, reply[1..], txb[off..off + size]))
    {
      XidOfRequest(link.cfg, link.fw, xid, req);
      ghost var t := Transaction(link.cfg, link.dev, link.punctual, link.plan, link.Now(), req, xid, Xid(req[0]),
                                 ReplyTo(link.cfg, link.dev, link.fw, link.hist, xid, req));
      Begins(t);
      ghost var seen;
      r, used, seen := Retry(link, req, t, txb, off, size);
      if r.Done? { ItIsOver(t, link.Now(), used, seen); } else { NotYetOver(t, link.Now(), used, seen); }
    }

    /** The loop of `xferRel`. */
    method Retry(link: Link, req: Msg, ghost t: Transaction, txb: array<Byte>, off: nat, size: nat)
      returns (r: Outcome, ghost used: nat, ghost seen: bool)
      requires link.Carries(t) && t.req == req && Waiting(t, link.Now(), 0, false)
      requires off + size <= txb.Length && wordSize > 0
      requires wordSize == t.cfg.bytes || (t.x == XID_ANY && t.reply[1..] == [])
      requires req != QueryMsg(t.cfg) && retry > 0 ==> t.cfg.depth > 0
      modifies link, txb
      ensures link.Carries(t) && (old(link.Faultless()) ==> link.Faultless())
      ensures txb[..off] == old(txb[..off]) && txb[off + size..] == old(txb[off + size..])
      ensures match r
              case Refused => false
              case TimedOut => used == retry + 1 && Waiting(t, link.Now(), used, seen)
              case Done(hdr) =>
                && used <= retry + 1 && Over(t, link.Now(), used, seen) && hdr == t.reply[0]
                && (wordSize == t.cfg.bytes ==> Holds(wordSize, t.reply[1..], txb[off..off + size]))
    {
      seen := false;
      var attempt := 0;
      used := 0;
      while attempt <= retry
        invariant attempt == used <= retry + 1 && (attempt == 0 ==> !seen)
        invariant link.Carries(t) && Waiting(t, link.Now(), used, seen)
        invariant old(link.Faultless()) ==> link.Faultless()
        invariant txb[..off] == old(txb[..off]) && txb[off + size..] == old(txb[off + size..])
      {
        r, seen := TryOnce(link, req, t, txb, off, size, used, seen);
        used := used + 1;
        if r != TimedOut { return; }
        attempt := attempt + 1;
      }
      r := TimedOut;
    }

    /** One round of the loop: `TimedOut` is also that the reply was an old one. */
    method TryOnce(link: Link, req: Msg, ghost t: Transaction, txb: array<Byte>, off: nat, size: nat, ghost used: nat,
                   ghost seen: bool)
      returns (r: Outcome, ghost seen': bool)
      requires link.Carries(t) && t.req == req && Waiting(t, link.Now(), used, seen)
      requires seen ==> t.req == QueryMsg(t.cfg) || t.cfg.depth > 0
      requires off + size <= txb.Length && wordSize > 0
      requires wordSize == t.cfg.bytes || (t.x == XID_ANY && t.reply[1..] == [])
      modifies link, txb
      ensures link.Carries(t) && (old(link.Faultless()) ==> link.Faultless())
      ensures txb[..off] == old(txb[..off]) && txb[off + size..] == old(txb[off + size..])
      ensures match r
              case Refused => false
              case TimedOut => Waiting(t, link.Now(), used + 1, seen')
              case Done(hdr) =>
                && Over(t, link.Now(), used + 1, seen') && hdr == t.reply[0]
                && (wordSize == t.cfg.bytes ==> Holds(wordSize, t.reply[1..], txb[off..off + size]))
    {
      var got;
      got, seen' := Attempt(link, req, t, used, seen);
      if got == None { return TimedOut, seen'; }
      var hdr := got.value[0];
      StoreReply(t.cfg, got.value, txb, off, size);
      match Judge(Xid(req[0]), hdr)
      case Fail => return Refused, seen';
      case Accept => return Done(hdr), seen';
      case Again => return TimedOut, seen';
    }

    /** The payload of whatever arrives goes to the client's buffer. */
    method StoreReply(ghost cfg: Cfg, m: Msg, txb: array<Byte>, off: nat, size: nat)
      requires wordSize > 0 && off + size <= txb.Length && WordsOk(Width(cfg), m)
      requires wordSize == cfg.bytes || m[1..] == []
      modifies txb
      ensures txb[..off] == old(txb[..off]) && txb[off + size..] == old(txb[off + size..])
      ensures wordSize == cfg.bytes ==> Holds(wordSize, m[1..], txb[off..off + size])
    {
      Store(m[1..], txb, off, size);
    }

    /** Sends the request once and takes what arrives, which is its reply or an old one. */
    method Attempt(link: Link, req: Msg, ghost t: Transaction, ghost used: nat, ghost seen: bool)
      returns (got: Option<Msg>, ghost seen': bool)
      requires link.Carries(t) && t.req == req && Waiting(t, link.Now(), used, seen)
      requires seen ==> t.req == QueryMsg(t.cfg) || t.cfg.depth > 0
      modifies link
      ensures link.Carries(t) && (old(link.Faultless()) ==> link.Faultless())
      ensures got.Some? ==> WordsOk(Width(link.cfg), got.value)
                            && Judge(t.x, got.value[0]) == (if got.value == t.reply then Accept else Again)
                            && (t.x == XID_ANY ==> got.value == t.reply)
      ensures if got == Some(t.reply) then Over(t, link.Now(), used + 1, seen')
              else Waiting(t, link.Now(), used + 1, seen')
    {
      ghost var z := link.Now();
      Resend(link.cfg, link.dev, t.z.fw, t.z.hist, t.xid, t.req, link.fw, link.hist);
      ghost var copies;
      got, copies := link.Xfer(req);
      seen' := seen || copies > 0 || link.fw != old(link.fw) || link.hist != old(link.hist);
      Exchanged(t, z, used, seen, got, copies, link.Now(), seen');
    }

    /** Four header bytes, the rest of the word zero. */
    method SetHdr(h: Vec)
      requires |h| == 32 && 4 <= wordSize <= txBuf.Length
      modifies txBuf
      ensures HeaderIs(txBuf[..], h) && txBuf[wordSize..] == old(txBuf[wordSize..])
      ensures forall i :: 4 <= i < wordSize ==> txBuf[i] == ZERO_BYTE
    {
      txBuf[0], txBuf[1], txBuf[2], txBuf[3] := h[0..8], h[8..16], h[16..24], h[24..32];
      for i := 4 to wordSize
        invariant txBuf[0] == h[0..8] && txBuf[1] == h[8..16] && txBuf[2] == h[16..24] && txBuf[3] == h[24..32]
        invariant txBuf[wordSize..] == old(txBuf[wordSize..])
        invariant forall j :: 4 <= j < i ==> txBuf[j] == ZERO_BYTE
      {
        txBuf[i] := ZERO_BYTE;
      }
      FourBytes(txBuf[..], h);
    }

    /** The header, seen in the first `total` bytes. */
    method StoreHdr(h: Vec, total: nat)
      requires |h| == 32 && 4 <= wordSize <= total <= txBuf.Length
      modifies txBuf
      ensures HeaderIs(txBuf[..total], h)
    {
      SetHdr(h);
      assert txBuf[..total][..4] == txBuf[..][..4];
    }

    method CopyPair(tms: seq<Byte>, tdi: seq<Byte>, wp: nat, idx: nat, len: nat, total: nat)
      requires len <= wordSize && wp + wordSize + len <= total <= txBuf.Length
      requires idx + len <= |tms| && idx + len <= |tdi|
      modifies txBuf
      ensures PairCopied(wordSize, tms, tdi, old(txBuf[..total]), txBuf[..total], wp, idx, len)
    {
      ghost var b0 := txBuf[..];
      Copy(wp, tms, idx, len);
      ghost var b1 := txBuf[..];
      Copy(wp + wordSize, tdi, idx, len);
      CopiedTwice(wordSize, tms, tdi, b0, b1, txBuf[..], wp, idx, len, total);
    }

    /** Pair `k` of the message. */
    method StorePair(n: nat, tms: seq<Byte>, tdi: seq<Byte>, wp: nat, idx: nat, len: nat, total: nat, ghost k: nat,
                     ghost h: Vec)
      requires wordSize >= 4 && n <= |tms| && n <= |tdi| && len <= wordSize
      requires wp + wordSize + len <= total <= txBuf.Length
      requires idx == k * wordSize && wp == wordSize + 2 * idx && idx + len <= n && (len == wordSize || idx + len == n)
      requires PairsDone(wordSize, n, tms, tdi, txBuf[..total], k) && HeaderIs(txBuf[..total], h)
      modifies txBuf
      ensures PairsDone(wordSize, n, tms, tdi, txBuf[..total], k + 1) && HeaderIs(txBuf[..total], h)
    {
      ghost var before := txBuf[..total];
      CopyPair(tms, tdi, wp, idx, len, total);
      AfterCopies(wordSize, n, tms, tdi, before, txBuf[..total], k, idx, len, h);
    }

    /** Stores all pairs that the vectors fill. */
    method WholePairs(n: nat, tms: seq<Byte>, tdi: seq<Byte>, pairs: nat, wholeWordBytes: nat, total: nat, ghost h: Vec)
      requires wordSize >= 4 && n <= |tms| && n <= |tdi| && pairs * wordSize == wholeWordBytes <= n
      requires wordSize + 2 * wholeWordBytes <= total <= txBuf.Length && HeaderIs(txBuf[..total], h)
      modifies txBuf
      ensures PairsDone(wordSize, n, tms, tdi, txBuf[..total], pairs) && HeaderIs(txBuf[..total], h)
    {
      var wsz := wordSize;
      NoPairs(wsz, n, tms, tdi, txBuf[..total]);
      var idx, wp := 0, wsz;
      ghost var k := 0;
      while idx < wholeWordBytes
        invariant k <= pairs && idx == k * wsz && idx <= wholeWordBytes && wp == wsz + 2 * idx
        invariant PairsDone(wsz, n, tms, tdi, txBuf[..total], k) && HeaderIs(txBuf[..total], h)
        decreases pairs - k
      {
        NextPair(wsz, k, pairs, idx);
        StorePair(n, tms, tdi, wp, idx, wsz, total, k, h);
        wp := wp + 2 * wsz;
        idx := idx + wsz;
        k := k + 1;
      }
      LastPair(wsz, k, pairs);
    }

    /** Stores the pair that the vectors do not fill, if there is one. */
    method RestPair(n: nat, tms: seq<Byte>, tdi: seq<Byte>, idx: nat, total: nat, ghost pairs: nat, ghost h: Vec)
      returns (ghost done: nat)
      requires wordSize >= 4 && n <= |tms| && n <= |tdi| && total <= txBuf.Length
      requires idx == pairs * wordSize && idx <= n < idx + wordSize && (pairs + 1) * wordSize == idx + wordSize
      requires total == wordSize + 2 * idx + (if idx < n then 2 * wordSize else 0)
      requires PairsDone(wordSize, n, tms, tdi, txBuf[..total], pairs) && HeaderIs(txBuf[..total], h)
      modifies txBuf
      ensures PairsDone(wordSize, n, tms, tdi, txBuf[..total], done) && done * wordSize >= n
      ensures HeaderIs(txBuf[..total], h)
    {
      done := pairs;
      var bytesLeft := n - idx;
      if bytesLeft > 0 {
        StorePair(n, tms, tdi, wordSize + 2 * idx, idx, bytesLeft, total, pairs, h);
        done := pairs + 1;
      }
    }

    /** How many words a vector fills, and their bytes. */
    method Whole(bits: nat, bytesCeil: nat, ghost total: nat) returns (wholeWords: nat, idx: nat)
      requires wordSize >= 4 && 0 < bits && bytesCeil == ByteCeil(bits)
      requires total == wordSize + 2 * (WordsFor(wordSize, bits) * wordSize)
      ensures idx == wholeWords * wordSize && idx <= bytesCeil < idx + wordSize
      ensures (wholeWords + 1) * wordSize == idx + wordSize
      ensures total == wordSize + 2 * idx + (if idx < bytesCeil then 2 * wordSize else 0)
    {
      wholeWords := bytesCeil / wordSize;
      idx := wholeWords * wordSize;
      Leftover(wordSize, bits, wholeWords, idx, total);
    }

    /** Stores pairs of TMS and TDI words, the last one as far as there are bytes left. */
    method Interleave(bits: nat, tms: seq<Byte>, tdi: seq<Byte>, total: nat, ghost h: Vec)
      requires wordSize >= 4 && 0 < bits && ByteCeil(bits) <= |tms| && ByteCeil(bits) <= |tdi|
      requires total == wordSize + 2 * (WordsFor(wordSize, bits) * wordSize) <= txBuf.Length
      requires HeaderIs(txBuf[..total], h)
      modifies txBuf
      ensures Interleaved(wordSize, bits, tms, tdi, txBuf[..total]) && HeaderIs(txBuf[..total], h)
    {
      var bytesCeil := (bits + 7) / 8;
      var wholeWords, idx := Whole(bits, bytesCeil, total);
      WholePairs(bytesCeil, tms, tdi, wholeWords, idx, total, h);
      ghost var done := RestPair(bytesCeil, tms, tdi, idx, total, wholeWords, h);
      AllPairs(wordSize, bits, tms, tdi, txBuf[..total], done);
    }

    /** The part of `sendVectors` before the transfer: the vectors word by word behind a header. */
    method FillMessage(bits: nat, tms: seq<Byte>, tdi: seq<Byte>) returns (total: nat)
      requires wordSize >= 4 && 0 < bits && ByteCeil(bits) <= |tms| && ByteCeil(bits) <= |tdi| && xid < 256
      requires wordSize + 2 * (WordsFor(wordSize, bits) * wordSize) <= txBuf.Length
      modifies this`xid, txBuf
      ensures xid == NextXid(old(xid)) && 0 < xid < 256
      ensures total == wordSize + 2 * (WordsFor(wordSize, bits) * wordSize)
      ensures Interleaved(wordSize, bits, tms, tdi, txBuf[..total]) && HeaderIs(txBuf[..total], MkShift(xid, bits))
    {
      NewXid();
      total := wordSize + 2 * (WordsFor(wordSize, bits) * wordSize);
      StoreHdr(MkShift(xid, bits), total);
      Interleave(bits, tms, tdi, total, MkShift(xid, bits));
    }

    /** Takes over the parameters in a query reply. */
    method Adopt(ghost cfg: Cfg, hdr: Vec) returns (ok: bool, capacity: nat)
      requires CfgOk(cfg) && |hdr| >= 32 && xid < 256
      requires Field(hdr, QWL_SHIFT, QWL_WIDTH) == cfg.bytes - 1 && Field(hdr, QMS_SHIFT, QMS_WIDTH) == cfg.depth
      modifies this
      ensures xid == old(xid) && (fresh(txBuf) || txBuf == old(txBuf)) && txBuf.Length >= old(txBuf.Length)
      ensures ok && Configured(cfg) && capacity == cfg.depth * cfg.bytes
    {
      wordSize := Field(hdr, QWL_SHIFT, QWL_WIDTH) + 1;
      ok, capacity := false, 0;
      if wordSize < 4 { return; }
      memDepth := Field(hdr, QMS_SHIFT, QMS_WIDTH);
      retry := if memDepth == 0 then 0 else 5;
      MulMono(memDepth, 0, wordSize);
      MulMono(2 * memDepth + 1, 0, wordSize);
      var siz := (2 * memDepth + 1) * wordSize;
      if siz > txBuf.Length { txBuf := new Byte[siz](_ => ZERO_BYTE); }
      return true, memDepth * wordSize;
    }

    /**
     Asks the target for its parameters. They are known afterwards, if it answers at all; `capacity` is how many bytes
     of a vector it can take at once, 0 for any number.
     */
    method Query(link: Link) returns (ok: bool, capacity: nat)
      requires CfgOk(link.cfg) && 4 <= wordSize <= txBuf.Length && xid < 256
      requires link.Valid() && link.OnlyQueries()
      modifies this, txBuf, link
      ensures xid == old(xid) && (fresh(txBuf) || txBuf == old(txBuf)) && txBuf.Length >= old(txBuf.Length)
      ensures link.hist == old(link.hist) && link.Valid()
      ensures Goods(link.plan, old(link.at), old(retry) + 1) > |old(link.late)| ==> ok
      ensures old(retry + 1 >= Attempts(link.cfg) && link.Reliable()) ==> link.Reliable() && ok
      ensures ok ==> capacity == link.cfg.depth * link.cfg.bytes && Configured(link.cfg) && link.OnlyQueries()
      ensures ok ==> link.at > old(link.at) && (old(link.late) == [] ==> !link.fw.memValid)
      ensures (ok && (link.late == [] || link.cfg.period != NextXid(xid))
               && (old(link.late) == [] || old(link.fw.memValid ==> link.fw.xid == xid))) ==> Knows(link)
    {
      SetHdr(Zeros(32));
      var none := new Byte[0];
      var r, used := XferRel(link, QueryMsg(link.cfg), none, 0, 0);
      if old(retry + 1 >= Attempts(link.cfg) && link.Reliable()) {
        Served(link.plan, old(link.at), Attempts(link.cfg), old(retry) + 1);
      }
      QueryFields(Zeros(Width(link.cfg)), link.cfg.bytes, link.cfg.depth, link.cfg.period);
      NextXidDiffers(xid);
      if link.cfg.period != NextXid(xid) { QueryReplyNotFor(link.cfg, NextXid(xid)); }
      if r.Done? { ok, capacity := Adopt(link.cfg, r.hdr); } else { return false, 0; }
    }

    /**
     Shifts `bits` bits. If the target answers in time, it has seen them exactly once and the client's buffer holds its
     TDO; otherwise it has seen them at most once.
     */
    method SendVectors(link: Link, bits: nat, tms: seq<Byte>, tdi: seq<Byte>, txb: array<Byte>, off: nat)
      returns (ok: bool)
      requires Knows(link) && VectorFits(link.cfg, bits) && ByteCeil(bits) <= |tms| && ByteCeil(bits) <= |tdi|
      requires off + ByteCeil(bits) <= txb.Length && txb != txBuf
      requires wordSize + 2 * (WordsFor(wordSize, bits) * wordSize) <= txBuf.Length
      modifies this`xid, txBuf, link, txb
      ensures Configured(link.cfg) && (ok ==> Knows(link))
      ensures Goods(link.plan, old(link.at), Attempts(link.cfg)) > |old(link.late)| ==> ok
      ensures old(link.Reliable()) ==> link.Reliable() && ok
      ensures txb[..off] == old(txb[..off]) && txb[off + ByteCeil(bits)..] == old(txb[off + ByteCeil(bits)..])
      ensures link.hist == old(link.hist) + Planar(bits, tms, tdi) || (!ok && link.hist == old(link.hist))
      ensures ok ==> txb[off..off + ByteCeil(bits)] == Unbroken(link.dev, old(link.hist), bits, tms, tdi)
    {
      NextXidDiffers(xid);
      var req := MakeRequest(link.cfg, bits, tms, tdi);
      ok := Exchange(link, req, bits, tms, tdi, txb, off);
    }

    /** The message as the words of the stream it becomes. */
    method MakeRequest(cfg: Cfg, bits: nat, tms: seq<Byte>, tdi: seq<Byte>) returns (req: Msg)
      requires Configured(cfg) && VectorFits(cfg, bits) && ByteCeil(bits) <= |tms| && ByteCeil(bits) <= |tdi|
      requires wordSize + 2 * (WordsFor(wordSize, bits) * wordSize) <= txBuf.Length
      modifies this`xid, txBuf
      ensures xid == NextXid(old(xid)) && 0 < xid < 256
      ensures ShiftMsg(cfg, xid, req) && MsgBits(cfg, req) == Planar(bits, tms, tdi) && req != QueryMsg(cfg)
    {
      var total := FillMessage(bits, tms, tdi);
      req := MessageWords(cfg, bits, txBuf[..total]);
      GoodRequest(cfg, xid, bits, tms, tdi, txBuf[..total]);
    }

    /** The transfer in `sendVectors`. */
    method Exchange(link: Link, req: Msg, bits: nat, ghost tms: seq<Byte>, ghost tdi: seq<Byte>, txb: array<Byte>,
                    off: nat)
      returns (ok: bool)
      requires Configured(link.cfg) && Sendable(link.cfg, link.fw, xid, req) && req != QueryMsg(link.cfg) && 0 < bits
      requires ByteCeil(bits) <= |tms| && ByteCeil(bits) <= |tdi| && MsgBits(link.cfg, req) == Planar(bits, tms, tdi)
      requires off + ByteCeil(bits) <= txb.Length && txb != txBuf && (link.fw.memValid ==> link.fw.xid != xid)
      requires link.Valid() && link.Clear(xid)
      modifies link, txb
      ensures link.Valid() && (ok ==> link.Clear(NextXid(xid)))
      ensures Goods(link.plan, old(link.at), Attempts(link.cfg)) > |old(link.late)| ==> ok
      ensures old(link.Reliable()) ==> link.Reliable() && ok
      ensures ok || link.hist == old(link.hist) || link.hist == old(link.hist) + Planar(bits, tms, tdi)
      ensures txb[..off] == old(txb[..off]) && txb[off + ByteCeil(bits)..] == old(txb[off + ByteCeil(bits)..])
      ensures (link.hist == old(link.hist) && link.fw == old(link.fw)) || link.fw.xid == xid
      ensures ok ==> link.hist == old(link.hist) + Planar(bits, tms, tdi)
                     && txb[off..off + ByteCeil(bits)] == Unbroken(link.dev, old(link.hist), bits, tms, tdi)
    {
      ghost var before := link.Now();
      var r, used := XferRel(link, req, txb, off, ByteCeil(bits));
      ok := r.Done?;
      if old(link.Reliable()) { Served(link.plan, old(link.at), Attempts(link.cfg), Attempts(link.cfg)); }
      Delivered(link.cfg, link.dev, xid, bits, tms, tdi, req, ok, before, link.Now(), txb[off..off + ByteCeil(bits)]);
    }
  }

  /** What the outcome means for target and client. */
  lemma Delivered(cfg: Cfg, dev: Device, xid: nat, bits: nat, tms: seq<Byte>, tdi: seq<Byte>, req: Msg, ok: bool,
                  z: LinkState, z': LinkState, got: seq<Byte>)
    requires CfgOk(cfg) && Sendable(cfg, z.fw, xid, req) && req != QueryMsg(cfg) && 0 < bits && |got| == ByteCeil(bits)
    requires ByteCeil(bits) <= |tms| && ByteCeil(bits) <= |tdi| && MsgBits(cfg, req) == Planar(bits, tms, tdi)
    requires (z'.fw == z.fw && z'.hist == z.hist && !ok) || Seen(cfg, dev, z.fw, z.hist, xid, req, z'.fw, z'.hist)
    requires ok ==>
               var reply := ReplyTo(cfg, dev, z.fw, z.hist, xid, req);
               (forall i :: 0 <= i < |z'.late| ==> z'.late[i] == reply) && Holds(cfg.bytes, reply[1..], got)
    ensures z'.hist == z.hist + Planar(bits, tms, tdi) || (!ok && z'.hist == z.hist)
    ensures (z'.hist == z.hist && z'.fw == z.fw) || z'.fw.xid == xid
    ensures ok ==> got == Unbroken(dev, z.hist, bits, tms, tdi)
    ensures ok ==> forall i :: 0 <= i < |z'.late| ==> NotFor(Width(cfg), NextXid(xid), z'.late[i])
  {
    if ok { StoredAll(cfg, dev, z.hist, bits, tms, tdi, req, got); }
  }

  lemma GoodRequest(cfg: Cfg, xid: nat, bits: nat, tms: seq<Byte>, tdi: seq<Byte>, buf: seq<Byte>)
    requires CfgOk(cfg) && VectorFits(cfg, bits) && xid < 256 && ByteCeil(bits) <= |tms| && ByteCeil(bits) <= |tdi|
    requires Interleaved(cfg.bytes, bits, tms, tdi, buf) && HeaderIs(buf, MkShift(xid, bits))
    ensures var m := MessageWords(cfg, bits, buf);
            ShiftMsg(cfg, xid, m) && MsgBits(cfg, m) == Planar(bits, tms, tdi) && m != QueryMsg(cfg)
  {
    MessageMeansVectors(cfg, xid, bits, tms, tdi, buf);
    ShiftIsNotQuery(cfg, xid, MessageWords(cfg, bits, buf));
  }

  /** The bytes of the payload are what an unbroken shift gives. */
  lemma StoredAll(cfg: Cfg, dev: Device, hist: seq<Pin>, bits: nat, tms: seq<Byte>, tdi: seq<Byte>, m: Msg,
                  got: seq<Byte>)
    requires CfgOk(cfg) && bits > 0 && ByteCeil(bits) <= |tms| && ByteCeil(bits) <= |tdi|
    requires RequestOk(cfg, m) && |m| >= 2 && MsgBits(cfg, m) == Planar(bits, tms, tdi) && |got| == ByteCeil(bits)
    requires var words := Words(cfg, dev, hist, m);
             forall j :: 0 <= j < |got| && j < |words| * cfg.bytes ==> got[j] == PayloadByte(cfg.bytes, words, j)
    ensures got == Unbroken(dev, hist, bits, tms, tdi)
  {
    var t := Tdo(dev, hist, Planar(bits, tms, tdi));
    forall j | 0 <= j < |got|
      ensures got[j] == Packed(t)[j]
    {
      PayloadIsPacked(cfg.bytes, t, j);
    }
  }
}
