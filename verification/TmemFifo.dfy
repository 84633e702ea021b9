// Axis2TmemFifo, incoming side: frames are stored until TLAST and then read out as a whole; and the driver that reads.

module TmemFifo {
  import opened Options
  import opened HostSpec

  /** Four bytes, as the driver sees them after swapping. */
  type Word = w: seq<Byte> | |w| == 4 witness [ZERO_BYTE, ZERO_BYTE, ZERO_BYTE, ZERO_BYTE]

  const COUNT := 0x1_0000

  class Axis2TmemFifo {
    const capacity: nat
    var fifo: seq<Word>
    var wcntReg: nat // words left to read; 0 while the stream owns the FIFO
    var wcntCnt: nat
    var rdEns: bool
    ghost var got: seq<Word> // read from the current frame
    ghost var closed: seq<seq<Word>> // frames that the stream has ended with TLAST
    ghost var read: seq<seq<Word>> // frames that were read completely

    /** Counters and contents agree, and the reader gets each frame whole and in order. */
    ghost predicate Valid()
      reads this
    {
      && capacity < COUNT && |fifo| <= capacity && wcntCnt == |fifo|
      && (wcntReg > 0 ==> wcntReg == wcntCnt && closed == read + [got + fifo])
      && (wcntReg == 0 ==> got == [] && closed == read)
    }

    constructor (capacity: nat)
      requires capacity < COUNT
      ensures Valid() && this.capacity == capacity && fifo == [] && closed == []
    {
      this.capacity, fifo, wcntReg, wcntCnt, rdEns := capacity, [], 0, 0, false;
      got, closed, read := [], [], [];
    }

    /** The stream's words are taken. */
    predicate Ready()
      reads this
    {
      |fifo| < capacity && wcntReg == 0
    }

    /**
     One clock: a stream word may be on offer, and the data register may be selected for reading; of the cycles of one
     access only the first one reads.
     */
    method Clock(valid: bool, data: Word, last: bool, select: bool) returns (out: Option<Word>)
      requires Valid()
      modifies this
      ensures Valid()
      ensures var write := valid && old(Ready());
              var pop := select && old(wcntReg) > 0 && !old(rdEns);
              && rdEns == (select && old(wcntReg) > 0)
              && out == (if pop then Some(old(fifo)[0]) else None)
              && fifo == (if write then old(fifo) + [data] else if pop then old(fifo)[1..] else old(fifo))
              && wcntReg == (if write && last then |old(fifo)| + 1 else if pop then old(wcntReg) - 1 else old(wcntReg))
              && closed == (if write && last then old(closed) + [old(fifo) + [data]] else old(closed))
    {
      var owner := wcntReg == 0;
      var tReady := |fifo| < capacity && owner;
      var wrEn := valid && tReady;
      var tmemRdEn := select && !owner;
      var once := !rdEns && tmemRdEn;
      var rdEn := once && fifo != [];
      out := None;
      rdEns := tmemRdEn;
      Count(rdEn, wrEn, once, last);
      if wrEn { Put(data, last); }
      if rdEn {
        out := Some(fifo[0]);
        Pop();
      }
    }

    /** The write side. */
    method Put(data: Word, last: bool)
      modifies this`fifo, this`closed
      ensures fifo == old(fifo) + [data] && closed == old(closed) + (if last then [fifo] else [])
      ensures got == [] ==> got + fifo == fifo
    {
      fifo := fifo + [data];
      if last { closed := closed + [fifo]; }
    }

    /** The read side; the frame is read when no word of it is left. */
    method Pop()
      requires fifo != [] && wcntReg == |fifo| - 1
      modifies this`fifo, this`got, this`read
      ensures fifo == old(fifo)[1..]
      ensures wcntReg > 0 ==> got + fifo == old(got + fifo) && read == old(read)
      ensures wcntReg == 0 ==> got == [] && read == old(read) + [old(got + fifo)]
    {
      got := got + [fifo[0]];
      fifo := fifo[1..];
      if wcntReg == 0 {
        assert got == old(got + fifo);
        read := read + [got];
        got := [];
      }
    }

    /** The counters, in 16 bits: what the FIFO holds, and what is left to read of a frame. */
    method Count(rdEn: bool, wrEn: bool, once: bool, last: bool)
      requires wcntCnt < COUNT && wcntReg < COUNT && !(rdEn && wrEn)
      requires (wrEn ==> wcntCnt + 1 < COUNT) && (rdEn ==> wcntCnt > 0) && (once ==> wcntReg > 0 && !wrEn)
      modifies this`wcntCnt, this`wcntReg
      ensures wcntCnt == if wrEn then old(wcntCnt) + 1 else if rdEn then old(wcntCnt) - 1 else old(wcntCnt)
      ensures wcntReg == if wrEn && last then old(wcntCnt) + 1 else if once then old(wcntReg) - 1 else old(wcntReg)
    {
      var cnt := wcntCnt;
      if rdEn && !wrEn {
        wcntCnt := (wcntCnt + COUNT - 1) % COUNT;
      } else if !rdEn && wrEn {
        wcntCnt := (wcntCnt + 1) % COUNT;
      }
      if wrEn && last {
        wcntReg := (cnt + 1) % COUNT;
      } else if once {
        wcntReg := (wcntReg + COUNT - 1) % COUNT;
      }
    }
  }

  function Flatten(ws: seq<Word>): (bs: seq<Byte>)
    ensures |bs| == 4 * |ws|
  {
    seq(4 * |ws|, i requires 0 <= i < 4 * |ws| => ws[i / 4][i % 4])
  }

  class JtagDriverTmemFifo {
    const hw: Axis2TmemFifo

    constructor (hw: Axis2TmemFifo)
      ensures this.hw == hw
    {
      this.hw := hw;
    }

    /**
     A read access to the data register, which then is not selected for a cycle; `idle` is on the stream meanwhile.
     */
    method ReadData(idle: Word) returns (w: Word)
      requires hw.Valid() && hw.wcntReg > 0 && !hw.rdEns
      modifies hw
      ensures hw.Valid() && !hw.rdEns && hw.closed == old(hw.closed)
      ensures w == old(hw.fifo)[0] && hw.fifo == old(hw.fifo)[1..] && hw.wcntReg == old(hw.wcntReg) - 1
    {
      var out := hw.Clock(false, idle, false, true);
      w := out.value;
      out := hw.Clock(false, idle, false, false);
    }

    /** Reads `n` words that are there. */
    method ReadWords(n: nat, idle: Word) returns (bs: seq<Byte>)
      requires hw.Valid() && n <= hw.wcntReg && !hw.rdEns
      modifies hw
      ensures hw.Valid() && !hw.rdEns && hw.closed == old(hw.closed)
      ensures hw.wcntReg == old(hw.wcntReg) - n && hw.fifo == old(hw.fifo)[n..] && |old(hw.fifo)| >= n
      ensures bs == Flatten(old(hw.fifo)[..n])
    {
      bs := [];
      ghost var all := hw.fifo;
      for i := 0 to n
        invariant hw.Valid() && !hw.rdEns && hw.closed == old(hw.closed) && |all| >= n
        invariant hw.wcntReg == old(hw.wcntReg) - i && hw.fifo == all[i..] && bs == Flatten(all[..i])
      {
        var w := ReadData(idle);
        FlattenSnoc(all[..i], w);
        assert all[..i + 1] == all[..i] + [w];
        bs := bs + w;
      }
    }

    /**
     The header of the waiting frame; `ok` is false if the frame ends before, and the access after its last word
     reads nothing.
     */
    method ReadHeader(hsize: nat, idle: Word) returns (ok: bool, hdr: seq<Byte>)
      requires hw.Valid() && hw.wcntReg > 0 && !hw.rdEns && hsize % 4 == 0
      modifies hw
      ensures hw.Valid() && !hw.rdEns && hw.closed == old(hw.closed) && ok == (4 * old(hw.wcntReg) >= hsize)
      ensures !ok ==> hw.wcntReg == 0 && hw.fifo == []
      ensures ok ==> hw.wcntReg == old(hw.wcntReg) - hsize / 4 && |old(hw.fifo)| == old(hw.wcntReg)
                     && hw.fifo == old(hw.fifo)[hsize / 4..] && hdr == Flatten(old(hw.fifo)[..hsize / 4])
    {
      var got := 4 * hw.wcntReg;
      hdr := [];
      ghost var all, n := hw.fifo, 0;
      var i := 0;
      while i < hsize
        invariant i == 4 * n <= hsize && n <= |all| == old(hw.wcntReg) && got == 4 * (|all| - n)
        invariant hw.Valid() && !hw.rdEns && hw.closed == old(hw.closed)
        invariant hw.wcntReg == |all| - n && hw.fifo == all[n..] && hdr == Flatten(all[..n])
      {
        if got < 4 {
          var out := hw.Clock(false, idle, false, true);
          return false, hdr;
        }
        var w := ReadData(idle);
        FlattenSnoc(all[..n], w);
        assert all[..n + 1] == all[..n] + [w];
        hdr := hdr + w;
        got := got - 4;
        i := i + 4;
        n := n + 1;
      }
      return true, hdr;
    }

    /**
     A frame is waiting: its header and as much of its payload as is wanted are returned, and the rest is thrown away,
     so that the FIFO is left to the stream at the end of the frame. `None` is the error of a frame without a full
     header; such a frame is thrown away, too.
     */
    method XferFifo(hsize: nat, size: nat, idle: Word) returns (r: Option<(seq<Byte>, seq<Byte>)>)
      requires hw.Valid() && hw.wcntReg > 0 && !hw.rdEns && hsize % 4 == 0
      modifies hw
      ensures hw.Valid() && hw.closed == old(hw.closed) && hw.wcntReg == 0 && hw.fifo == [] && hw.read == hw.closed
      ensures r == None <==> 4 * old(hw.wcntReg) < hsize
      ensures r.Some? ==>
                var all := Flatten(old(hw.fifo));
                var n := if size < |all| - hsize then size else |all| - hsize;
                r == Some((all[..hsize], all[hsize..hsize + n]))
    {
      ghost var all := hw.fifo;
      var got := 4 * hw.wcntReg;
      var ok, hdr := ReadHeader(hsize, idle);
      if !ok { return None; }
      got := got - hsize;
      var min := if size < got then size else got;
      ghost var payload := hw.fifo;
      var rx := ReadPayload(min, got, idle);
      Pieces(all, hsize, payload, min, rx);
      return Some((hdr, rx));
    }

    /** The payload, as far as it is wanted; the excess is discarded. */
    method ReadPayload(min: nat, got: nat, idle: Word) returns (rx: seq<Byte>)
      requires hw.Valid() && !hw.rdEns && got == 4 * hw.wcntReg && |hw.fifo| == hw.wcntReg && min <= got
      modifies hw
      ensures hw.Valid() && hw.closed == old(hw.closed) && hw.wcntReg == 0 && hw.fifo == []
      ensures rx == Flatten(old(hw.fifo)[..min / 4]) + (if min % 4 > 0 then old(hw.fifo)[min / 4][..min % 4] else [])
    {
      var minw := min / 4;
      rx := ReadWords(minw, idle);
      var i := 4 * minw;
      ghost var k := minw;
      var rem := min - i;
      if rem > 0 {
        var w := ReadData(idle);
        rx := rx + w[..rem];
        i := i + 4;
        k := k + 1;
      }
      // what the caller has no room for is read all the same
      while i < got
        invariant i == 4 * k && i <= got && hw.Valid() && !hw.rdEns && hw.closed == old(hw.closed)
        invariant 4 * hw.wcntReg == got - i && |hw.fifo| == hw.wcntReg
      {
        var w := ReadData(idle);
        i := i + 4;
        k := k + 1;
      }
    }
  }

  lemma FlattenSnoc(ws: seq<Word>, w: Word)
    ensures Flatten(ws + [w]) == Flatten(ws) + w
  {
  }

  /** Whole words and part of one are a prefix of the bytes. */
  lemma PrefixOfWords(ws: seq<Word>, n: nat)
    requires n <= 4 * |ws|
    ensures Flatten(ws[..n / 4]) + (if n % 4 > 0 then ws[n / 4][..n % 4] else []) == Flatten(ws)[..n]
  {
  }

  lemma Pieces(all: seq<Word>, hsize: nat, payload: seq<Word>, min: nat, rx: seq<Byte>)
    requires hsize % 4 == 0 && hsize <= 4 * |all| && payload == all[hsize / 4..] && min <= 4 * |payload|
    requires rx == Flatten(payload[..min / 4]) + (if min % 4 > 0 then payload[min / 4][..min % 4] else [])
    ensures Flatten(all[..hsize / 4]) == Flatten(all)[..hsize]
    ensures rx == Flatten(all)[hsize..hsize + min]
  {
    PrefixOfWords(all, hsize);
    PrefixOfWords(payload, min);
    assert Flatten(payload) == Flatten(all)[hsize..];
  }
}
