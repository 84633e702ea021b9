// The 32-bit header word of the stream protocol (AxisToJtagPkg), as fields of a word of any width >= 32.

module Header {
  import opened Bits

  const LEN_SHIFT := 0
  const LEN_WIDTH := 20
  const XID_SHIFT := 20
  const XID_WIDTH := 8
  const CMD_SHIFT := 28
  const CMD_WIDTH := 2
  const VER_SHIFT := 30
  const VER_WIDTH := 2

  // fields of a query reply
  const QWL_SHIFT := 0
  const QWL_WIDTH := 4
  const QMS_SHIFT := 4
  const QMS_WIDTH := 16
  const QPD_SHIFT := 20
  const QPD_WIDTH := 8

  const PRO_VERSION := 0
  const CMD_QUERY := 0
  const CMD_TRANS := 1
  const CMD_ERROR := 2
  const ERR_BAD_VERSION := 1
  const ERR_BAD_COMMAND := 2
  const ERR_TRUNCATED := 3

  function Field(v: Vec, shift: nat, width: nat): nat
    requires shift + width <= |v|
  {
    NatOf(v[shift..shift + width])
  }

  lemma FieldBound(v: Vec, shift: nat, width: nat)
    requires shift + width <= |v|
    ensures Field(v, shift, width) < Pow2(width)
  {
    BitsOfNatOf(v[shift..shift + width]);
  }

  function SetField(v: Vec, shift: nat, width: nat, n: nat): (r: Vec)
    requires shift + width <= |v|
    ensures |r| == |v|
  {
    v[..shift] + BitsOf(n, width) + v[shift + width..]
  }

  lemma FieldOfSetField(v: Vec, shift: nat, width: nat, n: nat)
    requires shift + width <= |v| && n < Pow2(width)
    ensures Field(SetField(v, shift, width, n), shift, width) == n
  {
    NatOfBitsOf(n, width);
    assert SetField(v, shift, width, n)[shift..shift + width] == BitsOf(n, width);
  }

  /** Writing one field leaves a disjoint one alone. */
  lemma FieldKept(v: Vec, shift: nat, width: nat, n: nat, shift': nat, width': nat)
    requires shift + width <= |v| && shift' + width' <= |v|
    requires shift + width <= shift' || shift' + width' <= shift
    ensures Field(SetField(v, shift, width, n), shift', width') == Field(v, shift', width')
  {
    assert SetField(v, shift, width, n)[shift'..shift' + width'] == v[shift'..shift' + width'];
  }

  function Version(v: Vec): nat requires |v| >= 32 { Field(v, VER_SHIFT, VER_WIDTH) }
  function Command(v: Vec): nat requires |v| >= 32 { Field(v, CMD_SHIFT, CMD_WIDTH) }
  function Xid(v: Vec): nat requires |v| >= 32 { Field(v, XID_SHIFT, XID_WIDTH) }
  function Len(v: Vec): nat requires |v| >= 32 { Field(v, LEN_SHIFT, LEN_WIDTH) }

  function SetErr(v: Vec, err: nat): (r: Vec)
    requires |v| >= 32
    ensures |r| == |v|
  {
    SetField(SetField(v, CMD_SHIFT, CMD_WIDTH, CMD_ERROR), LEN_SHIFT, LEN_WIDTH, err)
  }

  function SetVersion(v: Vec): (r: Vec)
    requires |v| >= 32
    ensures |r| == |v|
  {
    SetField(v, VER_SHIFT, VER_WIDTH, PRO_VERSION)
  }

  /** `bytes` is the word width, `depth` the memory depth in words, `period` the encoded TCK period. */
  function SetQueryData(v: Vec, bytes: nat, depth: nat, period: nat): (r: Vec)
    requires |v| >= 32 && bytes > 0
    ensures |r| == |v|
  {
    var v := SetField(v, LEN_SHIFT, LEN_WIDTH, 0);
    var v := SetField(v, QWL_SHIFT, QWL_WIDTH, bytes - 1);
    var v := SetField(v, QMS_SHIFT, QMS_WIDTH, depth);
    SetField(v, QPD_SHIFT, QPD_WIDTH, period)
  }

  /** What a client reads back from an error reply. */
  lemma ErrFields(v: Vec, err: nat)
    requires |v| >= 32 && err < 0x100
    ensures var r := SetErr(v, err);
            Command(r) == CMD_ERROR && Len(r) == err && Xid(r) == Xid(v) && Version(r) == Version(v)
  {
    var v1 := SetField(v, CMD_SHIFT, CMD_WIDTH, CMD_ERROR);
    SmallPow2();
    FieldOfSetField(v, CMD_SHIFT, CMD_WIDTH, CMD_ERROR);
    Pow2Mono(8, 20);
    FieldOfSetField(v1, LEN_SHIFT, LEN_WIDTH, err);
    FieldKept(v1, LEN_SHIFT, LEN_WIDTH, err, CMD_SHIFT, CMD_WIDTH);
    FieldKept(v1, LEN_SHIFT, LEN_WIDTH, err, XID_SHIFT, XID_WIDTH);
    FieldKept(v1, LEN_SHIFT, LEN_WIDTH, err, VER_SHIFT, VER_WIDTH);
    FieldKept(v, CMD_SHIFT, CMD_WIDTH, CMD_ERROR, XID_SHIFT, XID_WIDTH);
    FieldKept(v, CMD_SHIFT, CMD_WIDTH, CMD_ERROR, VER_SHIFT, VER_WIDTH);
  }

  lemma SmallPow2()
    ensures Pow2(2) == 4 && Pow2(4) == 16 && Pow2(8) == 256 && Pow2(16) == 0x10000 && Pow2(20) == 0x100000
  {
    assert Pow2(4) == 16;
    assert Pow2(8) == 256;
    assert Pow2(12) == 4096;
    assert Pow2(16) == 0x10000;
  }

  lemma Pow2Mono(a: nat, b: nat)
    requires a <= b
    ensures Pow2(a) <= Pow2(b)
  {
    if a < b { Pow2Mono(a, b - 1); }
  }

  /** Of three fields written from low to high, each can be read back. */
  lemma ThreeFields(v: Vec, s1: nat, l1: nat, n1: nat, s2: nat, l2: nat, n2: nat, s3: nat, l3: nat, n3: nat)
    requires s1 + l1 <= s2 && s2 + l2 <= s3 && s3 + l3 <= |v|
    requires n1 < Pow2(l1) && n2 < Pow2(l2) && n3 < Pow2(l3)
    ensures var r := SetField(SetField(SetField(v, s1, l1, n1), s2, l2, n2), s3, l3, n3);
            Field(r, s1, l1) == n1 && Field(r, s2, l2) == n2 && Field(r, s3, l3) == n3
  {
    var v1 := SetField(v, s1, l1, n1);
    var v2 := SetField(v1, s2, l2, n2);
    FieldOfSetField(v, s1, l1, n1);
    FieldOfSetField(v1, s2, l2, n2);
    FieldOfSetField(v2, s3, l3, n3);
    FieldKept(v1, s2, l2, n2, s1, l1);
    FieldKept(v2, s3, l3, n3, s1, l1);
    FieldKept(v2, s3, l3, n3, s2, l2);
  }

  /**
   What a client reads back from a query reply: the bits it takes for a transaction ID are the TCK period.
   */
  lemma QueryFields(v: Vec, bytes: nat, depth: nat, period: nat)
    requires |v| >= 32 && 1 <= bytes <= 16 && depth < 0x10000 && period < 0x100
    ensures var r := SetQueryData(v, bytes, depth, period);
            Field(r, QWL_SHIFT, QWL_WIDTH) == bytes - 1 && Field(r, QMS_SHIFT, QMS_WIDTH) == depth && Xid(r) == period
  {
    SmallPow2();
    ThreeFields(SetField(v, LEN_SHIFT, LEN_WIDTH, 0),
                QWL_SHIFT, QWL_WIDTH, bytes - 1, QMS_SHIFT, QMS_WIDTH, depth, QPD_SHIFT, QPD_WIDTH, period);
  }

  lemma QueryKeepsCommand(v: Vec, bytes: nat, depth: nat, period: nat)
    requires |v| >= 32 && bytes > 0
    ensures var r := SetQueryData(v, bytes, depth, period);
            Command(r) == Command(v) && Version(r) == Version(v)
  {
    var v1 := SetField(v, LEN_SHIFT, LEN_WIDTH, 0);
    var v2 := SetField(v1, QWL_SHIFT, QWL_WIDTH, bytes - 1);
    var v3 := SetField(v2, QMS_SHIFT, QMS_WIDTH, depth);
    HighFieldsKept(v, LEN_SHIFT, LEN_WIDTH, 0);
    HighFieldsKept(v1, QWL_SHIFT, QWL_WIDTH, bytes - 1);
    HighFieldsKept(v2, QMS_SHIFT, QMS_WIDTH, depth);
    HighFieldsKept(v3, QPD_SHIFT, QPD_WIDTH, period);
  }

  lemma HighFieldsKept(v: Vec, shift: nat, width: nat, n: nat)
    requires |v| >= 32 && shift + width <= CMD_SHIFT
    ensures Command(SetField(v, shift, width, n)) == Command(v)
    ensures Version(SetField(v, shift, width, n)) == Version(v)
  {
    FieldKept(v, shift, width, n, CMD_SHIFT, CMD_WIDTH);
    FieldKept(v, shift, width, n, VER_SHIFT, VER_WIDTH);
  }
}
