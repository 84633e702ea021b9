// Axis2TmemFifo, outgoing side: words are written to the FIFO, handed to the stream as a frame, and marked at its end
// by nothing but the FIFO running empty; and the driver that writes.

module TmemOut {
  import opened Options
  import opened HostSpec
  import opened TmemFifo

  /** A word on the outgoing stream. */
  datatype Beat = Beat(data: Word, last: bool)

  /** A frame on the stream: TLAST is on its last word only. */
  function Beats(frame: seq<Word>): (bs: seq<Beat>)
    ensures |bs| == |frame|
  {
    seq(|frame|, k requires 0 <= k < |frame| => Beat(frame[k], k == |frame| - 1))
  }

  class OutgoingFifo {
    const capacity: nat
    var fifo: seq<Word>
    var owned: bool // by the stream
    var valid: bool
    var dout: Word // what the FIFO's output holds
    ghost var frame: seq<Word> // written since the FIFO was last given back
    ghost var before: seq<Beat> // sent of earlier frames
    ghost var sent: seq<Beat>

    /** How many words of the frame have left. */
    ghost function Left(): int
      reads this
    {
      |frame| - |fifo| - (if valid then 1 else 0)
    }

    /** The words of the frame are on their way, in order; the FIFO is given back with the last one. */
    ghost predicate Valid()
      reads this
    {
      && |frame| <= capacity && 0 <= Left()
      && (!owned ==> !valid && fifo == frame && sent == before)
      && frame[Left()..] == (if valid then [dout] else []) + fifo
      && (owned ==> sent == before + Beats(frame)[..Left()] && (frame != [] ==> valid || fifo != []))
    }

    constructor (capacity: nat)
      ensures Valid() && this.capacity == capacity && !owned && frame == [] && sent == []
    {
      this.capacity, fifo, owned, valid := capacity, [], false, false;
      dout := [ZERO_BYTE, ZERO_BYTE, ZERO_BYTE, ZERO_BYTE];
      frame, before, sent := [], [], [];
    }

    /**
     One clock: a word may be written, or the frame may be handed over; the receiver may be ready. A word that finds the
     FIFO full, or owned by the stream, is dropped.
     */
    method Clock(write: Option<Word>, give: bool, ready: bool) returns (beat: Option<Beat>)
      requires Valid() && !(write.Some? && give)
      modifies this
      ensures Valid() && sent == old(sent) + (if beat.Some? then [beat.value] else [])
      ensures beat.Some? <==> old(valid) && ready
      ensures !old(owned) ==>
                && owned == give && before == old(before)
                && frame == (if write.Some? && |old(frame)| < capacity then old(frame) + [write.value] else old(frame))
      ensures old(owned) ==> (!owned <==> beat.Some? && beat.value.last)
      ensures old(owned) && owned ==> frame == old(frame) && before == old(before)
      ensures old(owned) && !owned ==> frame == [] && sent == old(before) + Beats(old(frame))
      ensures old(owned) && owned && ready ==> |fifo| == (if old(fifo) == [] then 0 else |old(fifo)| - 1)
    {
      beat := None;
      if owned {
        beat := Send(ready);
      } else {
        Fill(write, give);
      }
    }

    /** While the register interface owns the FIFO, its read side stands still. */
    method Fill(write: Option<Word>, give: bool)
      requires Valid() && !owned && !(write.Some? && give)
      modifies this`fifo, this`frame, this`owned
      ensures Valid() && owned == give
      ensures frame == (if write.Some? && |old(frame)| < capacity then old(frame) + [write.value] else old(frame))
    {
      if write.Some? && |fifo| < capacity {
        fifo := fifo + [write.value];
        frame := frame + [write.value];
      }
      if give { owned := true; }
      assert frame[0..] == fifo;
    }

    /** While the stream owns the FIFO, its write side stands still. */
    method Send(ready: bool) returns (beat: Option<Beat>)
      requires Valid() && owned
      modifies this
      ensures Valid() && sent == old(sent) + (if beat.Some? then [beat.value] else [])
      ensures (beat.Some? <==> old(valid) && ready) && (!owned <==> beat.Some? && beat.value.last)
      ensures owned ==> frame == old(frame) && before == old(before)
      ensures !owned ==> frame == [] && sent == old(before) + Beats(old(frame))
      ensures owned && ready ==> |fifo| == (if old(fifo) == [] then 0 else |old(fifo)| - 1)
    {
      var empty := fifo == [];
      var rdEn := !empty && (!valid || ready);
      beat := None;
      ghost var n, all := Left(), Beats(frame);
      Sending();
      if valid && ready {
        beat := Some(Beat(dout, empty));
        sent := sent + [beat.value];
        OneSent(before, all, n, beat.value);
      }
      if valid && ready && empty {
        owned, frame, before := false, [], sent;
      }
      if !valid || ready { valid := rdEn; }
      if rdEn { dout, fifo := fifo[0], fifo[1..]; }
    }

    /** The word at the output is the next one of the frame, and the last one exactly if the FIFO is empty. */
    lemma Sending()
      requires Valid()
      ensures valid ==>
                && owned && Left() < |frame| && Beats(frame)[Left()] == Beat(dout, fifo == [])
                && Beats(frame)[..Left() + 1] == Beats(frame)[..Left()] + [Beat(dout, fifo == [])]
                && frame[Left() + 1..] == fifo
                && (fifo == [] ==> Beats(frame)[..Left() + 1] == Beats(frame))
    {
      if valid {
        var n := Left();
        assert frame[n] == frame[n..][0] == dout;
        assert frame[n + 1..] == frame[n..][1..] == fifo;
        assert |fifo| == |frame| - n - 1;
      }
    }
  }

  lemma OneSent(before: seq<Beat>, all: seq<Beat>, n: nat, beat: Beat)
    requires n < |all| && all[n] == beat
    ensures (before + all[..n]) + [beat] == before + all[..n + 1]
    ensures n + 1 == |all| ==> before + all[..n + 1] == before + all
  {
    assert all[..n + 1] == all[..n] + [beat];
  }

  /** Bytes as words, the last one zero-filled. */
  function WordsOf(tx: seq<Byte>): (ws: seq<Word>)
    ensures |ws| == (|tx| + 3) / 4
  {
    seq((|tx| + 3) / 4, k requires 0 <= k < (|tx| + 3) / 4 => WordOf(tx, k))
  }

  function WordOf(tx: seq<Byte>, k: nat): Word
    requires 4 * k < |tx|
  {
    var n := if |tx| - 4 * k < 4 then |tx| - 4 * k else 4;
    tx[4 * k..4 * k + n] + seq(4 - n, i => ZERO_BYTE)
  }

  /** The words hold the bytes, and nothing but zeros behind them. */
  lemma WordsHoldBytes(tx: seq<Byte>)
    ensures Flatten(WordsOf(tx))[..|tx|] == tx
    ensures forall i :: |tx| <= i < |Flatten(WordsOf(tx))| ==> Flatten(WordsOf(tx))[i] == ZERO_BYTE
  {
    var all := Flatten(WordsOf(tx));
    forall i | 0 <= i < |all|
      ensures all[i] == if i < |tx| then tx[i] else ZERO_BYTE
    {
      assert all[i] == WordOf(tx, i / 4)[i % 4];
    }
  }

  /** One word more, if there is room for it. */
  lemma OneMore(all: seq<Word>, i: nat, capacity: nat)
    requires i < |all|
    ensures all[..if i < capacity then i + 1 else capacity] ==
            all[..if i < capacity then i else capacity] + (if i < capacity then [all[i]] else [])
  {
  }

  class JtagDriverTmemSender {
    const hw: OutgoingFifo

    constructor (hw: OutgoingFifo)
      ensures this.hw == hw
    {
      this.hw := hw;
    }

    /** Writes a message and hands it to the stream. It arrives whole if and only if it fits the FIFO. */
    method Send(tx: seq<Byte>)
      requires hw.Valid() && !hw.owned && hw.frame == [] && tx != []
      modifies hw
      ensures hw.Valid() && hw.owned && hw.sent == old(hw.sent) && hw.before == old(hw.before)
      ensures hw.frame == WordsOf(tx)[..if |WordsOf(tx)| < hw.capacity then |WordsOf(tx)| else hw.capacity]
      ensures hw.frame == WordsOf(tx) <==> |tx| <= 4 * hw.capacity
    {
      var txWords := (|tx| + 3) / 4;
      var lastBytes := |tx| - 4 * (txWords - 1);
      txWords := txWords - 1;
      ghost var all := WordsOf(tx);
      var idle;
      for i := 0 to txWords
        invariant hw.Valid() && !hw.owned && hw.sent == old(hw.sent) && hw.before == old(hw.before)
        invariant hw.frame == all[..if i < hw.capacity then i else hw.capacity]
      {
        assert tx[4 * i..4 * i + 4] == all[i];
        OneMore(all, i, hw.capacity);
        idle := hw.Clock(Some(tx[4 * i..4 * i + 4]), false, false);
      }
      var w := tx[4 * txWords..4 * txWords + lastBytes] + seq(4 - lastBytes, i => ZERO_BYTE);
      assert w == all[txWords];
      OneMore(all, txWords, hw.capacity);
      idle := hw.Clock(Some(w), false, false);
      assert all[..|all|] == all;
      idle := hw.Clock(None, true, false);
    }
  }

  /** The receiver's readiness, clock by clock, and then always. */
  method Deliver(hw: OutgoingFifo, plan: seq<bool>)
    requires hw.Valid() && hw.owned && hw.frame != [] && hw.sent == hw.before
    modifies hw
    ensures hw.Valid() && !hw.owned && hw.frame == []
    ensures hw.sent == old(hw.sent) + Beats(old(hw.frame))
  {
    ghost var frame, before := hw.frame, hw.before;
    var k := 0;
    while hw.owned
      invariant hw.Valid() && k <= |plan|
      invariant hw.owned ==> hw.frame == frame && hw.before == before
      invariant !hw.owned ==> hw.frame == [] && hw.sent == before + Beats(frame)
      decreases hw.owned, |plan| - k, |hw.fifo|, !hw.valid
    {
      var ready := true;
      if k < |plan| {
        ready := plan[k];
        k := k + 1;
      }
      var beat := hw.Clock(None, false, ready);
    }
  }
}
