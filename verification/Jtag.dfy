// What happens on the four JTAG pins, seen from the TCK edges.

module Jtag {
  import opened Bits

  /** TMS and TDI as the target sees them at one rising edge of TCK. */
  datatype Pin = Pin(tms: bool, tdi: bool)

  /**
   An arbitrary deterministic target: the level it drives on TDO while TCK is low,
   given everything that was clocked into it so far.
   */
  type Device = seq<Pin> -> bool

  /** TDO of one unbroken shift of `bits` by a target with history `h`: bit i is the level just before edge i. */
  function Tdo(dev: Device, h: seq<Pin>, bits: seq<Pin>): (v: Vec)
    ensures |v| == |bits|
    ensures forall i :: 0 <= i < |bits| ==> v[i] == dev(h + bits[..i])
  {
    seq(|bits|, i requires 0 <= i < |bits| => dev(h + bits[..i]))
  }

  lemma TdoSnoc(dev: Device, h: seq<Pin>, bits: seq<Pin>, c: nat)
    requires c < |bits|
    ensures Tdo(dev, h, bits[..c + 1]) == Tdo(dev, h, bits[..c]) + [dev(h + bits[..c])]
  {
    forall i | 0 <= i < c ensures bits[..c + 1][..i] == bits[..c][..i] {}
    assert bits[..c + 1][..c] == bits[..c];
  }
}
