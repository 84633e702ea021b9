// What the retries are for: a call makes all the attempts it has, and one good attempt completes it.

module RetryProgress {
  import opened Bits
  import opened Jtag
  import opened Header
  import opened Firmware
  import opened Options
  import opened Protocol
  import opened ProtocolProof

  function Sends(m: Msg, k: nat): (ms: seq<Msg>)
    ensures |ms| == k
  {
    seq(k, i => m)
  }

  function Timeouts(k: nat): (acts: seq<Action>)
    ensures |acts| == k
  {
    seq(k, i => Timeout)
  }

  predicate Waits(h: Host) { h.Asking? || h.Shifting? }

  /** The host after `k` attempts without an answer. */
  function StillWaiting(h: Host, k: nat): Host
    requires Waits(h) && k <= h.left
  {
    if h.Asking? then Asking(h.left - k) else Shifting(h.left - k)
  }

  /** A timeout with attempts left sends the message again. */
  lemma OneTimeout(cfg: Cfg, s: State)
    requires StateOk(cfg, s) && Waits(s.host) && s.host.left > 0
    ensures var u := TryAgain(cfg, s);
            && StateOk(cfg, u) && u == s.(host := StillWaiting(s.host, 1), req := s.req + [Current(cfg, s)])
            && Current(cfg, u) == Current(cfg, s)
  {
    TryAgainOk(cfg, s);
  }

  /** Each timeout sends the message once more, until no attempts are left. */
  lemma {:induction false} AllAttempts(cfg: Cfg, dev: Device, s: State, k: nat)
    requires StateOk(cfg, s) && Waits(s.host) && k <= s.host.left
    ensures Possible(cfg, dev, s, Timeouts(k))
    ensures After(cfg, dev, s, Timeouts(k)) ==
            s.(host := StillWaiting(s.host, k), req := s.req + Sends(Current(cfg, s), k))
    decreases k
  {
    if k == 0 {
      assert s.req + Sends(Current(cfg, s), 0) == s.req;
    } else {
      var u := TryAgain(cfg, s);
      OneTimeout(cfg, s);
      AllAttempts(cfg, dev, u, k - 1);
      assert Timeouts(k)[1..] == Timeouts(k - 1);
      assert u.req + Sends(Current(cfg, s), k - 1) == s.req + Sends(Current(cfg, s), k);
    }
  }

  /** And the one after that gives up. */
  lemma GivesUp(cfg: Cfg, dev: Device, s: State)
    requires StateOk(cfg, s) && Waits(s.host)
    ensures Possible(cfg, dev, s, Timeouts(s.host.left + 1))
    ensures After(cfg, dev, s, Timeouts(s.host.left + 1)) ==
            s.(host := Closed, req := s.req + Sends(Current(cfg, s), s.host.left))
    decreases s.host.left
  {
    var u := TryAgain(cfg, s);
    assert Timeouts(s.host.left + 1)[1..] == Timeouts(s.host.left);
    if s.host.left == 0 {
      assert s.req + Sends(Current(cfg, s), 0) == s.req;
    } else {
      OneTimeout(cfg, s);
      GivesUp(cfg, dev, u);
      assert u.req + Sends(Current(cfg, s), s.host.left - 1) == s.req + Sends(Current(cfg, s), s.host.left);
    }
  }

  /** `acts` leads from `s` to `t`. */
  predicate Leads(cfg: Cfg, dev: Device, s: State, acts: seq<Action>, t: State) {
    Possible(cfg, dev, s, acts) && After(cfg, dev, s, acts) == t
  }

  // ---- one good attempt ----

  /** The channels lose all that is under way. */
  lemma {:induction false} Emptied(cfg: Cfg, dev: Device, s: State) returns (acts: seq<Action>)
    requires StateOk(cfg, s)
    ensures Quiet(acts) && Possible(cfg, dev, s, acts) && After(cfg, dev, s, acts) == s.(req := [], rep := [])
    decreases |s.req| + |s.rep|
  {
    if s.req != [] {
      var u := s.(req := Lose(s.req, 0));
      ReqsStayOk(cfg, s.req, 0);
      var rest := Emptied(cfg, dev, u);
      acts := [LoseReq(0)] + rest;
      RunFirst(cfg, dev, s, LoseReq(0), rest, u);
    } else if s.rep != [] {
      var u := s.(rep := Lose(s.rep, 0));
      RepsStayOk(s.rep, 0);
      var rest := Emptied(cfg, dev, u);
      acts := [LoseRep(0)] + rest;
      RunFirst(cfg, dev, s, LoseRep(0), rest, u);
    } else {
      acts := [];
    }
  }

  /** The message is sent once more, over empty channels; */
  lemma SentAlone(cfg: Cfg, dev: Device, s: State) returns (t: State)
    requires Inv(cfg, dev, s) && s.host.Shifting? && s.host.left > 0 && s.req == [] && s.rep == []
    ensures t == Do(cfg, dev, s, Timeout) && Inv(cfg, dev, t) && t.host.Shifting? && |t.calls| == |s.calls| > t.epoch
    ensures t.req == [t.calls[|t.calls| - 1].m] && t.rep == []
  {
    t := TryAgain(cfg, s);
    TryAgainStep(cfg, dev, s);
    OneTimeout(cfg, s);
  }

  /** it is answered by its reply; */
  lemma AnsweredAlone(cfg: Cfg, dev: Device, s: State) returns (u: State)
    requires Inv(cfg, dev, s) && s.host.Shifting? && |s.calls| > s.epoch
    requires s.req == [s.calls[|s.calls| - 1].m] && s.rep == []
    ensures u == ServeHead(cfg, dev, s) && Inv(cfg, dev, u) && u.host.Shifting? && |u.calls| == |s.calls| > u.epoch
    ensures |u.rep| == 1 && Judge(u.xid, u.rep[0][0]) == Accept
  {
    u := ServeHead(cfg, dev, s);
    FirmwareStep(cfg, dev, s);
    ReplyAccepted(cfg, dev, s);
    if s.calls[|s.calls| - 1].ran { ServesAgain(cfg, dev, s); } else { ServesFirst(cfg, dev, s); }
  }

  /** and the host takes it. */
  lemma TakenAlone(cfg: Cfg, dev: Device, s: State) returns (u: State)
    requires StateOk(cfg, s) && s.host.Shifting? && |s.rep| == 1 && Judge(s.xid, s.rep[0][0]) == Accept
    ensures u == Receive(cfg, s) && Returned(u, |s.calls|)
  {
    u := Receive(cfg, s);
  }

  /** What follows from one more attempt that the channels do not disturb. */
  lemma OneGoodAttempt(cfg: Cfg, dev: Device, s: State) returns (acts: seq<Action>, z: State)
    requires Inv(cfg, dev, s) && s.host.Shifting? && s.host.left > 0 && s.req == [] && s.rep == []
    ensures Quiet(acts) && Leads(cfg, dev, s, acts, z) && Returned(z, |s.calls|)
  {
    var t := SentAlone(cfg, dev, s);
    var u := AnsweredAlone(cfg, dev, t);
    z := TakenAlone(cfg, dev, u);
    acts := ThreeSteps(cfg, dev, s, t, u, z);
  }

  lemma ThreeSteps(cfg: Cfg, dev: Device, s: State, t: State, u: State, v: State) returns (acts: seq<Action>)
    requires StateOk(cfg, s) && Enabled(cfg, s, Timeout) && t == Do(cfg, dev, s, Timeout)
    requires StateOk(cfg, t) && Enabled(cfg, t, FirmwareReceives) && u == Do(cfg, dev, t, FirmwareReceives)
    requires StateOk(cfg, u) && Enabled(cfg, u, HostReceives) && v == Do(cfg, dev, u, HostReceives)
    ensures Quiet(acts) && Leads(cfg, dev, s, acts, v)
  {
    RunOne(cfg, dev, u, HostReceives);
    RunFirst(cfg, dev, t, FirmwareReceives, [HostReceives], u);
    RunFirst(cfg, dev, s, Timeout, [FirmwareReceives] + [HostReceives], t);
    acts := [Timeout] + ([FirmwareReceives] + [HostReceives]);
  }

  lemma ReplyAccepted(cfg: Cfg, dev: Device, s: State)
    requires Inv(cfg, dev, s) && |s.calls| > s.epoch
    ensures Judge(s.xid, ReplyOf(cfg, dev, s.calls, |s.calls| - 1)[0]) == Accept
  {
    var t, ran := Talking(cfg, dev, s);
  }

  /** The latest of `n` calls has returned. */
  predicate Returned(s: State, n: nat) {
    s.host == Ready && |s.calls| == n > 0 && s.calls[n - 1].got.Some?
  }

  lemma First(cfg: Cfg, dev: Device, s: State, a: seq<Action>, t: State)
    returns (x: Action, rest: seq<Action>, u: State)
    requires a != [] && Leads(cfg, dev, s, a, t)
    ensures a == [x] + rest && StateOk(cfg, s) && Enabled(cfg, s, x) && Guarded(cfg, s, x)
    ensures u == Do(cfg, dev, s, x) && Leads(cfg, dev, u, rest, t)
  {
    x, rest, u := a[0], a[1..], Do(cfg, dev, s, a[0]);
  }

  lemma {:induction false} RunOn(cfg: Cfg, dev: Device, s: State, a: seq<Action>, t: State, b: seq<Action>, v: State)
    returns (ab: seq<Action>)
    requires Leads(cfg, dev, s, a, t) && Leads(cfg, dev, t, b, v)
    ensures ab == a + b && Leads(cfg, dev, s, ab, v)
    decreases |a|
  {
    if a == [] {
      ab := b;
    } else {
      var x, rest, u := First(cfg, dev, s, a, t);
      var more := RunOn(cfg, dev, u, rest, t, b, v);
      RunFirst(cfg, dev, s, x, more, u);
      ab := [x] + more;
    }
  }

  lemma EmptiedOk(cfg: Cfg, dev: Device, s: State) returns (acts: seq<Action>, t: State)
    requires Inv(cfg, dev, s)
    ensures Quiet(acts) && Leads(cfg, dev, s, acts, t) && t == s.(req := [], rep := []) && Inv(cfg, dev, t)
  {
    acts := Emptied(cfg, dev, s);
    t := s.(req := [], rep := []);
    RunKeepsInv(cfg, dev, s, acts);
  }

  lemma StaysExact(cfg: Cfg, dev: Device, s: State, acts: seq<Action>, z: State)
    requires Inv(cfg, dev, s) && Leads(cfg, dev, s, acts, z)
    ensures ExactlyOnce(cfg, dev, z.calls, z.hist)
  {
    RunKeepsInv(cfg, dev, s, acts);
  }

  /** Whatever has happened to a call: as long as it has an attempt left, it can still return, and then with its TDO. */
  lemma CanReturn(cfg: Cfg, dev: Device, s: State) returns (acts: seq<Action>, z: State)
    requires Inv(cfg, dev, s) && s.host.Shifting? && s.host.left > 0
    ensures Quiet(acts) && Leads(cfg, dev, s, acts, z)
    ensures Returned(z, |s.calls|) && ExactlyOnce(cfg, dev, z.calls, z.hist)
  {
    var first, t := EmptiedOk(cfg, dev, s);
    var rest;
    rest, z := OneGoodAttempt(cfg, dev, t);
    acts := RunOn(cfg, dev, s, first, t, rest, z);
    StaysExact(cfg, dev, s, acts, z);
  }
}
