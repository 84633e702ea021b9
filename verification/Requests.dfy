// The messages of a session as a client writes them, and what the server makes of them.

module Requests {
  import opened Bits
  import opened Jtag
  import opened HostSpec
  import opened ConnSpec

  // ---- characters and numbers ----

  function Word(s: string): (w: seq<Byte>)
    ensures |w| == |s|
  {
    seq(|s|, i requires 0 <= i < |s| => Char(s[i]))
  }

  /** Bytes are characters by their code. */
  predicate Begins(s: seq<Byte>, first: nat, second: nat)
    requires |s| >= 2
  {
    NatOf(s[0]) == first && NatOf(s[1]) == second
  }

  lemma CharCode(b: Byte, c: char)
    requires c as int < 256
    ensures b == Char(c) <==> NatOf(b) == c as int
  {
    assert Pow2(8) == 256;
    NatOfBitsOf(c as int, 8);
    BitsOfNatOf(b);
  }

  /** The first two characters, by their codes, tell the kind of a message; there is no fourth kind. */
  lemma Kinds(s: seq<Byte>)
    requires |s| >= 2
    ensures KindOf(s) == Info <==> Begins(s, 103, 101)
    ensures KindOf(s) == Period <==> Begins(s, 115, 101)
    ensures KindOf(s) == Shift <==> Begins(s, 115, 104)
  {
    CharCode(s[0], 'g');
    CharCode(s[0], 's');
    CharCode(s[1], 'e');
    CharCode(s[1], 'h');
    assert s[..2] == [s[0], s[1]];
  }

  /** The kind of a message, from the word it begins with. */
  lemma KindOfWord(s: seq<Byte>, first: char, second: char)
    requires |s| >= 2 && s[0] == Char(first) && s[1] == Char(second) && first as int < 256 && second as int < 256
    ensures KindOf(s) == if first == 'g' && second == 'e' then Info else if first == 's' && second == 'e' then Period
                         else if first == 's' && second == 'h' then Shift else Unknown
  {
    CharCode(s[0], first);
    CharCode(s[1], second);
    Kinds(s);
  }

  /** A number written as four bytes is read back. */
  lemma Le32OfBytes32(n: nat)
    requires n < 0x1_0000_0000
    ensures Le32(Bytes32(n), 0) == n
  {
    var s := Bytes32(n);
    assert s[0..4] == s && Flat(s) == BitsOf(n, 32);
    Pow2Of32();
    NatOfBitsOf(n, 32);
  }

  lemma Le32Inside(s: seq<Byte>, at: nat, n: nat)
    requires n < 0x1_0000_0000 && at + 4 <= |s| && s[at..at + 4] == Bytes32(n)
    ensures Le32(s, at) == n
  {
    assert Bytes32(n)[0..4] == Bytes32(n);
    Le32OfBytes32(n);
  }

  lemma Joined<T>(a: seq<T>, b: seq<T>, c: seq<T>)
    ensures (a + b + c)[|a|..|a| + |b|] == b
  {
  }

  lemma FiveParts<T>(a: seq<T>, b: seq<T>, c: seq<T>, d: seq<T>, e: seq<T>)
    ensures var s, i, j, k := a + b + c + d + e, |a|, |a| + |b|, |a| + |b| + |c|;
            s[i..j] == b && s[j..k] == c && s[k..k + |d|] == d
  {
    Joined(a, b, c + d + e);
    Joined(a + b, c, d + e);
    Joined(a + b + c, d, e);
    assert a + b + c + d + e == a + b + (c + d + e) == (a + b) + c + (d + e);
  }

  // ---- getinfo ----

  /** The request for the greeting, whatever follows it. */
  lemma InfoParsed(c: Conf, dev: Device, hist: seq<Pin>, more: seq<Byte>)
    ensures Parse(c, dev, hist, Word("getinfo:") + more) == Message(8, c.info, [])
  {
    var s := Word("getinfo:") + more;
    KindOfWord(s, 'g', 'e');
  }

  // ---- settck ----

  function PeriodRequest(p: nat): seq<Byte> { Word("settck:") + Bytes32(p) }

  /** A request for a period of TCK: the target sees nothing, and the reply is the period that is in use from now on. */
  lemma PeriodParsed(c: Conf, dev: Device, hist: seq<Pin>, p: nat, more: seq<Byte>)
    requires p < 0x1_0000_0000 && c.periodNs < 0x1_0000_0000
    ensures var m := Parse(c, dev, hist, PeriodRequest(p) + more);
            && m.Message? && m.len == 11 == |PeriodRequest(p)| && m.bits == [] && |m.reply| == 4
            && Le32(m.reply, 0) == if c.periodNs > 0 then c.periodNs else p
  {
    var s := PeriodRequest(p) + more;
    KindOfWord(s, 's', 'e');
    Joined(Word("settck:"), Bytes32(p), more);
    Le32Inside(s, 7, p);
    Le32OfBytes32(if c.periodNs > 0 then c.periodNs else p);
  }

  // ---- shift ----

  function ShiftRequest(nbits: nat, tms: seq<Byte>, tdi: seq<Byte>): seq<Byte> {
    Word("shift:") + Bytes32(nbits) + tms + tdi
  }

  /** Where the server looks for what the client has put there. */
  lemma RequestParts(nbits: nat, tms: seq<Byte>, tdi: seq<Byte>, more: seq<Byte>) returns (s: seq<Byte>)
    requires nbits < 0x1_0000_0000 && |tms| == |tdi|
    ensures s == ShiftRequest(nbits, tms, tdi) + more && |s| == 10 + 2 * |tms| + |more|
    ensures KindOf(s) == Shift && ShiftBits(s) == nbits
    ensures s[10..10 + |tms|] == tms && s[10 + |tms|..10 + 2 * |tms|] == tdi
  {
    s := ShiftRequest(nbits, tms, tdi) + more;
    KindOfWord(s, 's', 'h');
    FiveParts(Word("shift:"), Bytes32(nbits), tms, tdi, more);
    Le32Inside(s, 6, nbits);
  }

  /** The server's count of bytes. */
  lemma Announced(s: seq<Byte>, nbits: nat) returns (bytes: nat)
    requires |s| >= 10 && nbits < 0x1_0000_0000 && ShiftBits(s) == nbits
    ensures bytes == ShiftBytes(s)
    ensures bytes == if nbits + 7 >= 0x1_0000_0000 then 0 else ByteCeil(nbits)
  {
    bytes := ShiftBytes(s);
  }

  /** Vectors that are too long for the server, or whose length wraps in its count of bytes. */
  predicate Refused(c: Conf, nbits: nat) {
    nbits + 7 >= 0x1_0000_0000 || ByteCeil(nbits) > c.maxVecLen
  }

  /** The server takes the client's message for a shift of exactly these vectors, or ends the session. */
  lemma ShiftParsed(c: Conf, dev: Device, hist: seq<Pin>, nbits: nat, tms: seq<Byte>, tdi: seq<Byte>, more: seq<Byte>)
    requires nbits < 0x1_0000_0000 && ByteCeil(nbits) == |tms| == |tdi|
    ensures Parse(c, dev, hist, ShiftRequest(nbits, tms, tdi) + more) ==
            if Refused(c, nbits) then Last(Rejected)
            else Message(10 + 2 * |tms|, Unbroken(dev, hist, nbits, tms, tdi), Planar(nbits, tms, tdi))
  {
    var s := RequestParts(nbits, tms, tdi, more);
    var bytes := Announced(s, nbits);
    if !Refused(c, nbits) { assert bytes == |tms|; }
  }

  // ---- anything else ----

  /** Two characters that begin no message end the session. */
  lemma OtherParsed(c: Conf, dev: Device, hist: seq<Pin>, s: seq<Byte>)
    requires |s| >= 2 && !Begins(s, 103, 101) && !Begins(s, 115, 101) && !Begins(s, 115, 104)
    ensures Parse(c, dev, hist, s) == Last(Rejected)
  {
    Kinds(s);
  }

  /** A client that goes away inside a message has gone: the part it sent is not acted upon. */
  lemma CutParsed(c: Conf, dev: Device, hist: seq<Pin>, s: seq<Byte>, k: nat)
    requires k < |s| && Parse(c, dev, hist, s).Message? && Parse(c, dev, hist, s).len == |s|
    ensures Parse(c, dev, hist, s[..k]) == Last(Gone)
  {
    var t := s[..k];
    if k >= 2 {
      assert t[..2] == s[..2];
      if k >= 10 { assert t[6..10] == s[6..10]; }
    }
  }
}
