/** The 16-bit frame check sequence of RFC 1662, section C.2, as the table-driven
    checksum object computes it. */
module Checksum {

  type byte = bv8

  const INITIAL: bv16 := 0xFFFF
  const GOOD: bv16 := 0xF0B8

  function Pick8(i: byte, v0: bv16, v1: bv16, v2: bv16, v3: bv16,
                 v4: bv16, v5: bv16, v6: bv16, v7: bv16): bv16
  {
    var k := i & 7;
    if k == 0 then v0 else if k == 1 then v1 else if k == 2 then v2 else if k == 3 then v3
    else if k == 4 then v4 else if k == 5 then v5 else if k == 6 then v6 else v7
  }

  /** The 256-entry table, eight entries to a row. */
  function CcittTab(i: byte): bv16 {
    var r := i >> 3;
    if r == 0x00 then Pick8(i, 0x0000, 0x1189, 0x2312, 0x329b, 0x4624, 0x57ad, 0x6536, 0x74bf)
    else if r == 0x01 then Pick8(i, 0x8c48, 0x9dc1, 0xaf5a, 0xbed3, 0xca6c, 0xdbe5, 0xe97e, 0xf8f7)
    else if r == 0x02 then Pick8(i, 0x1081, 0x0108, 0x3393, 0x221a, 0x56a5, 0x472c, 0x75b7, 0x643e)
    else if r == 0x03 then Pick8(i, 0x9cc9, 0x8d40, 0xbfdb, 0xae52, 0xdaed, 0xcb64, 0xf9ff, 0xe876)
    else if r == 0x04 then Pick8(i, 0x2102, 0x308b, 0x0210, 0x1399, 0x6726, 0x76af, 0x4434, 0x55bd)
    else if r == 0x05 then Pick8(i, 0xad4a, 0xbcc3, 0x8e58, 0x9fd1, 0xeb6e, 0xfae7, 0xc87c, 0xd9f5)
    else if r == 0x06 then Pick8(i, 0x3183, 0x200a, 0x1291, 0x0318, 0x77a7, 0x662e, 0x54b5, 0x453c)
    else if r == 0x07 then Pick8(i, 0xbdcb, 0xac42, 0x9ed9, 0x8f50, 0xfbef, 0xea66, 0xd8fd, 0xc974)
    else if r == 0x08 then Pick8(i, 0x4204, 0x538d, 0x6116, 0x709f, 0x0420, 0x15a9, 0x2732, 0x36bb)
    else if r == 0x09 then Pick8(i, 0xce4c, 0xdfc5, 0xed5e, 0xfcd7, 0x8868, 0x99e1, 0xab7a, 0xbaf3)
    else if r == 0x0a then Pick8(i, 0x5285, 0x430c, 0x7197, 0x601e, 0x14a1, 0x0528, 0x37b3, 0x263a)
    else if r == 0x0b then Pick8(i, 0xdecd, 0xcf44, 0xfddf, 0xec56, 0x98e9, 0x8960, 0xbbfb, 0xaa72)
    else if r == 0x0c then Pick8(i, 0x6306, 0x728f, 0x4014, 0x519d, 0x2522, 0x34ab, 0x0630, 0x17b9)
    else if r == 0x0d then Pick8(i, 0xef4e, 0xfec7, 0xcc5c, 0xddd5, 0xa96a, 0xb8e3, 0x8a78, 0x9bf1)
    else if r == 0x0e then Pick8(i, 0x7387, 0x620e, 0x5095, 0x411c, 0x35a3, 0x242a, 0x16b1, 0x0738)
    else if r == 0x0f then Pick8(i, 0xffcf, 0xee46, 0xdcdd, 0xcd54, 0xb9eb, 0xa862, 0x9af9, 0x8b70)
    else if r == 0x10 then Pick8(i, 0x8408, 0x9581, 0xa71a, 0xb693, 0xc22c, 0xd3a5, 0xe13e, 0xf0b7)
    else if r == 0x11 then Pick8(i, 0x0840, 0x19c9, 0x2b52, 0x3adb, 0x4e64, 0x5fed, 0x6d76, 0x7cff)
    else if r == 0x12 then Pick8(i, 0x9489, 0x8500, 0xb79b, 0xa612, 0xd2ad, 0xc324, 0xf1bf, 0xe036)
    else if r == 0x13 then Pick8(i, 0x18c1, 0x0948, 0x3bd3, 0x2a5a, 0x5ee5, 0x4f6c, 0x7df7, 0x6c7e)
    else if r == 0x14 then Pick8(i, 0xa50a, 0xb483, 0x8618, 0x9791, 0xe32e, 0xf2a7, 0xc03c, 0xd1b5)
    else if r == 0x15 then Pick8(i, 0x2942, 0x38cb, 0x0a50, 0x1bd9, 0x6f66, 0x7eef, 0x4c74, 0x5dfd)
    else if r == 0x16 then Pick8(i, 0xb58b, 0xa402, 0x9699, 0x8710, 0xf3af, 0xe226, 0xd0bd, 0xc134)
    else if r == 0x17 then Pick8(i, 0x39c3, 0x284a, 0x1ad1, 0x0b58, 0x7fe7, 0x6e6e, 0x5cf5, 0x4d7c)
    else if r == 0x18 then Pick8(i, 0xc60c, 0xd785, 0xe51e, 0xf497, 0x8028, 0x91a1, 0xa33a, 0xb2b3)
    else if r == 0x19 then Pick8(i, 0x4a44, 0x5bcd, 0x6956, 0x78df, 0x0c60, 0x1de9, 0x2f72, 0x3efb)
    else if r == 0x1a then Pick8(i, 0xd68d, 0xc704, 0xf59f, 0xe416, 0x90a9, 0x8120, 0xb3bb, 0xa232)
    else if r == 0x1b then Pick8(i, 0x5ac5, 0x4b4c, 0x79d7, 0x685e, 0x1ce1, 0x0d68, 0x3ff3, 0x2e7a)
    else if r == 0x1c then Pick8(i, 0xe70e, 0xf687, 0xc41c, 0xd595, 0xa12a, 0xb0a3, 0x8238, 0x93b1)
    else if r == 0x1d then Pick8(i, 0x6b46, 0x7acf, 0x4854, 0x59dd, 0x2d62, 0x3ceb, 0x0e70, 0x1ff9)
    else if r == 0x1e then Pick8(i, 0xf78f, 0xe606, 0xd49d, 0xc514, 0xb1ab, 0xa022, 0x92b9, 0x8330)
    else Pick8(i, 0x7bc7, 0x6a4e, 0x58d5, 0x495c, 0x3de3, 0x2c6a, 0x1ef1, 0x0f78)
  }

  /** One byte through the table. */
  function TableByte(crc: bv16, b: byte): bv16 {
    var tmp := ((crc & 0x00FF) as byte) ^ b;
    (crc >> 8) ^ CcittTab(tmp)
  }

  /** Shifts one bit through the reflected polynomial x^16 + x^12 + x^5 + 1. */
  function DivideBit(crc: bv16): bv16 {
    if crc & 1 == 1 then (crc >> 1) ^ 0x8408 else crc >> 1
  }

  function DivideEight(c: bv16): bv16 {
    DivideBit(DivideBit(DivideBit(DivideBit(DivideBit(DivideBit(DivideBit(DivideBit(c))))))))
  }

  function DivideByte(crc: bv16, b: byte): bv16 {
    DivideEight(crc ^ (b as bv16))
  }

  /** The division carried out over a whole byte string. */
  function Fcs(crc: bv16, data: seq<byte>): bv16 {
    if data == [] then crc else DivideByte(Fcs(crc, data[..|data| - 1]), data[|data| - 1])
  }

  /** The two bytes appended to a message: the complement, low byte first. */
  function Sum(crc: bv16): (s: seq<byte>)
    ensures |s| == 2
  {
    [(!crc & 0xFF) as byte, (!crc >> 8) as byte]
  }

  /** A message with its two checksum bytes at the end passes the check. */
  predicate Accepts(m: seq<byte>) {
    |m| >= 2 && m[|m| - 2..] == Sum(Fcs(INITIAL, m[..|m| - 2]))
  }

  /** The checksum object. */
  class CCITTChecksum {
    var crc: bv16

    constructor ()
      ensures crc == INITIAL
    {
      crc := INITIAL;
    }

    method Reset()
      modifies this
      ensures crc == INITIAL
    {
      crc := INITIAL;
    }

    method Update(data: seq<byte>)
      modifies this
      ensures crc == Fcs(old(crc), data)
    {
      hide DivideByte, TableByte;
      assert data[..|data|] == data;
      for i := 0 to |data|
        invariant crc == Fcs(old(crc), data[..i])
      {
        TableStep(crc, data[i]);
        crc := TableByte(crc, data[i]);
        assert data[..i + 1][..i] == data[..i];
      }
    }

    method Result() returns (data: seq<byte>)
      modifies this
      ensures data == Sum(old(crc))
    {
      crc := !crc;
      var tmp := crc;
      crc := (crc << 8) | ((tmp >> 8) & 0xFF);
      data := [((crc >> 8) & 0xFF) as byte, (crc & 0xFF) as byte];
      SwapBytes(tmp);
    }

    /** After the bytes before the checksum have been fed in. */
    method Check(data: seq<byte>) returns (ok: bool)
      requires |data| == 2
      modifies this
      ensures ok <==> data == Sum(old(crc))
    {
      var sum := Result();
      ok := sum[0] == data[0] && sum[1] == data[1];
    }
  }

  lemma SwapBytes(c: bv16)
    ensures (((c << 8) | ((c >> 8) & 0xFF)) >> 8) & 0xFF == c & 0xFF
    ensures ((c << 8) | ((c >> 8) & 0xFF)) & 0xFF == c >> 8
  {
  }

  // ---- the table is the division ----

  lemma FirstRows(i: byte)
    requires i >> 6 == 0
    ensures CcittTab(i) == DivideByte(0, i)
  {
  }

  lemma SecondRows(i: byte)
    requires i >> 6 == 1
    ensures CcittTab(i) == DivideByte(0, i)
  {
  }

  lemma ThirdRows(i: byte)
    requires i >> 6 == 2
    ensures CcittTab(i) == DivideByte(0, i)
  {
  }

  lemma FourthRows(i: byte)
    requires i >> 6 == 3
    ensures CcittTab(i) == DivideByte(0, i)
  {
  }

  lemma Quarters(i: byte)
    ensures i >> 6 == 0 || i >> 6 == 1 || i >> 6 == 2 || i >> 6 == 3
  {
  }

  /** Every table entry is its index divided bit by bit. */
  lemma TableIsDivision(i: byte)
    ensures CcittTab(i) == DivideByte(0, i)
  {
    hide CcittTab, DivideByte;
    Quarters(i);
    if i >> 6 == 0 {
      FirstRows(i);
    } else if i >> 6 == 1 {
      SecondRows(i);
    } else if i >> 6 == 2 {
      ThirdRows(i);
    } else {
      FourthRows(i);
    }
  }

  // A step splits the state into its high byte and the table's index.

  function High(crc: bv16): byte {
    (crc >> 8) as byte
  }

  function Index(crc: bv16, b: byte): byte {
    ((crc & 0xFF) as byte) ^ b
  }

  function Wide(b: byte): bv16 {
    b as bv16
  }

  function Shifted(b: byte): bv16 {
    (b as bv16) << 8
  }

  lemma HighAndIndex(crc: bv16, b: byte)
    ensures Xor(Shifted(High(crc)), Wide(Index(crc, b))) == crc ^ (b as bv16)
  {
  }

  lemma ShiftedOut(h: byte)
    ensures DivideEight(Shifted(h)) == Wide(h)
  {
    OneByteOut(h);
  }

  lemma DivideIndex(i: byte)
    ensures DivideByte(0, i) == DivideEight(Wide(i))
  {
    hide DivideEight;
    assert 0 ^ (i as bv16) == i as bv16;
  }

  lemma DivideState(crc: bv16, b: byte)
    ensures DivideByte(crc, b) == DivideEight(crc ^ (b as bv16))
  {
    hide DivideEight;
  }

  lemma StepSplits(crc: bv16, b: byte)
    ensures Xor(Wide(High(crc)), DivideByte(0, Index(crc, b))) == DivideByte(crc, b)
  {
    hide DivideByte, DivideEight, Xor, Wide, High, Index, Shifted;
    HighAndIndex(crc, b);
    LinearEight(Shifted(High(crc)), Wide(Index(crc, b)));
    ShiftedOut(High(crc));
    DivideIndex(Index(crc, b));
    DivideState(crc, b);
  }

  /** A byte of division moves the high byte down and divides the low one. */
  lemma StepIsDivision(crc: bv16, b: byte)
    ensures (crc >> 8) ^ DivideByte(0, ((crc & 0xFF) as byte) ^ b) == DivideByte(crc, b)
  {
    hide DivideByte;
    StepSplits(crc, b);
    HighWide(crc, DivideByte(0, Index(crc, b)));
  }

  lemma HighWide(crc: bv16, d: bv16)
    ensures Xor(Wide(High(crc)), d) == (crc >> 8) ^ d
  {
  }

  lemma TableStep(crc: bv16, b: byte)
    ensures TableByte(crc, b) == DivideByte(crc, b)
  {
    hide DivideByte, CcittTab;
    TableIsDivision(((crc & 0xFF) as byte) ^ b);
    StepIsDivision(crc, b);
  }

  // ---- algebra ----

  /** Feeding a message in pieces is feeding it whole. */
  lemma {:induction false} FcsConcat(crc: bv16, a: seq<byte>, b: seq<byte>)
    ensures Fcs(crc, a + b) == Fcs(Fcs(crc, a), b)
  {
    hide DivideByte;
    if b == [] {
      assert a + b == a;
    } else {
      FcsConcat(crc, a, b[..|b| - 1]);
      assert (a + b)[..|a + b| - 1] == a + b[..|b| - 1];
    }
  }

  lemma {:induction false} Fcs2(crc: bv16, x: byte, y: byte)
    ensures Fcs(crc, [x, y]) == DivideByte(DivideByte(crc, x), y)
  {
    hide DivideByte;
    var a := [x];
    assert a[..|a| - 1] == [] && [x, y][..1] == a;
    assert Fcs(crc, a) == DivideByte(Fcs(crc, []), x);
  }

  lemma {:induction false} Fcs3(crc: bv16, x: byte, y: byte, z: byte)
    ensures Fcs(crc, [x, y, z]) == DivideByte(DivideByte(DivideByte(crc, x), y), z)
  {
    hide DivideByte;
    assert [x, y, z][..2] == [x, y];
    Fcs2(crc, x, y);
  }

  /** Exclusive or under a name that a proof can hide. */
  function Xor(c: bv16, d: bv16): bv16 {
    c ^ d
  }

  lemma OddOdd(c: bv16, d: bv16)
    requires c & 1 == 1 && d & 1 == 1
    ensures DivideBit(c ^ d) == DivideBit(c) ^ DivideBit(d)
  {
  }

  lemma OddEven(c: bv16, d: bv16)
    requires c & 1 == 1 && d & 1 == 0
    ensures DivideBit(c ^ d) == DivideBit(c) ^ DivideBit(d)
  {
  }

  lemma EvenOdd(c: bv16, d: bv16)
    requires c & 1 == 0 && d & 1 == 1
    ensures DivideBit(c ^ d) == DivideBit(c) ^ DivideBit(d)
  {
  }

  lemma EvenEven(c: bv16, d: bv16)
    requires c & 1 == 0 && d & 1 == 0
    ensures DivideBit(c ^ d) == DivideBit(c) ^ DivideBit(d)
  {
  }

  lemma Parity(c: bv16)
    ensures c & 1 == 0 || c & 1 == 1
  {
  }

  lemma LinearBit(c: bv16, d: bv16)
    ensures DivideBit(Xor(c, d)) == Xor(DivideBit(c), DivideBit(d))
  {
    hide DivideBit;
    Parity(c);
    Parity(d);
    if c & 1 == 1 && d & 1 == 1 {
      OddOdd(c, d);
    } else if c & 1 == 1 {
      OddEven(c, d);
    } else if d & 1 == 1 {
      EvenOdd(c, d);
    } else {
      EvenEven(c, d);
    }
  }

  lemma LinearTwo(c: bv16, d: bv16)
    ensures DivideBit(DivideBit(Xor(c, d))) == Xor(DivideBit(DivideBit(c)), DivideBit(DivideBit(d)))
  {
    hide DivideBit, Xor;
    LinearBit(c, d);
    LinearBit(DivideBit(c), DivideBit(d));
  }

  /** Division is linear over exclusive or. */
  lemma LinearEight(c: bv16, d: bv16)
    ensures DivideEight(Xor(c, d)) == Xor(DivideEight(c), DivideEight(d))
  {
    hide DivideBit, Xor;
    var c2, d2 := DivideBit(DivideBit(c)), DivideBit(DivideBit(d));
    var c4, d4 := DivideBit(DivideBit(c2)), DivideBit(DivideBit(d2));
    LinearTwo(c, d);
    LinearTwo(c2, d2);
    LinearTwo(c4, d4);
    LinearTwo(DivideBit(DivideBit(c4)), DivideBit(DivideBit(d4)));
  }

  lemma InjectiveBit(c: bv16, d: bv16)
    requires DivideBit(c) == DivideBit(d)
    ensures c == d
  {
  }

  lemma InjectiveEight(c: bv16, d: bv16)
    requires DivideEight(c) == DivideEight(d)
    ensures c == d
  {
    hide DivideBit;
    forall x, y | DivideBit(x) == DivideBit(y) ensures x == y {
      InjectiveBit(x, y);
    }
  }

  lemma XorFrom(c: bv16, x: byte, d: bv16, y: byte)
    ensures Xor(c ^ (x as bv16), d ^ (y as bv16)) == Xor(c, d) ^ ((x ^ y) as bv16)
  {
  }

  /** The state difference after a byte depends only on the differences before. */
  lemma Difference(c: bv16, x: byte, d: bv16, y: byte)
    ensures Xor(DivideByte(c, x), DivideByte(d, y)) == DivideByte(Xor(c, d), x ^ y)
  {
    hide DivideEight, Xor;
    XorFrom(c, x, d, y);
    LinearEight(c ^ (x as bv16), d ^ (y as bv16));
  }

  lemma XorSame(c: bv16)
    ensures Xor(c, c) == 0
  {
  }

  lemma XorCancel(x: byte, y: byte)
    ensures x ^ y == 0 <==> x == y
  {
  }

  lemma XorUndo(c: bv16, d: bv16, b: byte)
    ensures c ^ (b as bv16) == d ^ (b as bv16) ==> c == d
  {
  }

  lemma XorByte(c: bv16, b: byte)
    ensures c ^ (b as bv16) == 0 <==> c == b as bv16
  {
  }

  /** Running on through the appended bytes always leaves the good residue. */
  lemma Residue(crc: bv16)
    ensures Fcs(crc, Sum(crc)) == GOOD
  {
    var s := Sum(crc);
    Fcs2(crc, s[0], s[1]);
    ResidueBits(crc);
    assert s == [s[0], s[1]];
  }

  lemma ResidueBits(crc: bv16)
    ensures DivideByte(DivideByte(crc, (!crc & 0xFF) as byte), (!crc >> 8) as byte) == GOOD
  {
  }

  /** Each byte permutes the sixteen-bit state. */
  lemma BytePermutes(c: bv16, d: bv16, b: byte)
    requires DivideByte(c, b) == DivideByte(d, b)
    ensures c == d
  {
    hide DivideEight;
    InjectiveEight(c ^ (b as bv16), d ^ (b as bv16));
    XorUndo(c, d, b);
  }

  lemma Cancels(c: bv16, b: byte)
    requires DivideByte(c, b) == 0
    ensures c == b as bv16
  {
    hide DivideEight;
    ZeroEight();
    InjectiveEight(c ^ (b as bv16), 0);
    XorByte(c, b);
  }

  lemma ZeroEight()
    ensures DivideEight(0) == 0
  {
  }

  lemma ReachesHigh(d: byte, e: byte)
    requires DivideByte(0, d) == e as bv16
    ensures d == 0 && e == 0
  {
  }

  /** From one state, distinct byte pairs lead to distinct states. */
  lemma TwoBytesPermute(c: bv16, x: byte, y: byte, u: byte, v: byte)
    requires DivideByte(DivideByte(c, x), y) == DivideByte(DivideByte(c, u), v)
    ensures x == u && y == v
  {
    hide DivideByte, Xor;
    var p, q := DivideByte(c, x), DivideByte(c, u);
    Difference(c, x, c, u);
    Difference(p, y, q, v);
    XorSame(c);
    XorSame(DivideByte(p, y));
    Cancels(Xor(p, q), y ^ v);
    ReachesHigh(x ^ u, y ^ v);
    XorCancel(x, u);
    XorCancel(y, v);
  }

  lemma GoodTail(c: bv16, t: seq<byte>)
    requires |t| == 2
    ensures Fcs(c, t) == GOOD <==> t == Sum(c)
  {
    hide DivideByte, Sum;
    var s := Sum(c);
    Residue(c);
    assert s == [s[0], s[1]] && t == [t[0], t[1]];
    Fcs2(c, s[0], s[1]);
    Fcs2(c, t[0], t[1]);
    if Fcs(c, t) == GOOD {
      TwoBytesPermute(c, s[0], s[1], t[0], t[1]);
    }
  }

  /** The receiver's check is the residue test. */
  lemma AcceptsIffResidue(m: seq<byte>)
    requires |m| >= 2
    ensures Accepts(m) <==> Fcs(INITIAL, m) == GOOD
  {
    hide Fcs, Sum;
    FcsConcat(INITIAL, m[..|m| - 2], m[|m| - 2..]);
    assert m[..|m| - 2] + m[|m| - 2..] == m;
    GoodTail(Fcs(INITIAL, m[..|m| - 2]), m[|m| - 2..]);
  }

  lemma {:induction false} SuffixPermutes(c: bv16, d: bv16, s: seq<byte>)
    requires c != d
    ensures Fcs(c, s) != Fcs(d, s)
  {
    hide DivideByte;
    if s != [] {
      SuffixPermutes(c, d, s[..|s| - 1]);
      var c', d' := Fcs(c, s[..|s| - 1]), Fcs(d, s[..|s| - 1]);
      if DivideByte(c', s[|s| - 1]) == DivideByte(d', s[|s| - 1]) {
        BytePermutes(c', d', s[|s| - 1]);
      }
    }
  }

  // ---- error detection ----

  /** The error in byte i, no error past the end. */
  function ErrorAt(m: seq<byte>, n: seq<byte>, i: nat): byte
    requires |m| == |n|
  {
    if i < |m| then m[i] ^ n[i] else 0
  }

  /** The messages differ, and only inside sixteen consecutive bits in the order
      of transmission (low bit first), the first being bit k of byte p. */
  predicate Burst16(m: seq<byte>, n: seq<byte>, p: nat, k: bv8) {
    && |m| == |n|
    && m != n
    && k < 8
    && (forall i | 0 <= i < |m| && !(p <= i < p + 3) :: m[i] == n[i])
    && ErrorAt(m, n, p) & ((1 << k) - 1) == 0
    && ErrorAt(m, n, p + 2) >> k == 0
  }

  lemma ShiftedIn(x: bv16, e: byte)
    requires DivideEight(x) == e as bv16
    ensures x == (e as bv16) << 8
  {
    assert DivideEight((e as bv16) << 8) == e as bv16 by {
      OneByteOut(e);
    }
    InjectiveEight(x, (e as bv16) << 8);
  }

  lemma OneByteOut(e: byte)
    ensures DivideEight((e as bv16) << 8) == e as bv16
  {
  }

  lemma Split(c: bv16, d: byte, e: byte)
    requires c ^ (d as bv16) == (e as bv16) << 8
    ensures c & 0xFF == d as bv16 && c >> 8 == e as bv16
  {
  }

  lemma FirstByteReaches(d: byte, e: byte, k: bv8)
    requires k < 8
    requires d & ((1 << k) - 1) == 0 && e >> k == 0
    requires DivideByte(0, d) >> 8 == e as bv16
    ensures d == 0 && e == 0
  {
  }

  /** A three-byte error inside a sixteen-bit window never cancels itself. */
  lemma WindowError(d0: byte, d1: byte, d2: byte, k: bv8)
    requires k < 8
    requires d0 & ((1 << k) - 1) == 0 && d2 >> k == 0
    requires DivideByte(DivideByte(DivideByte(0, d0), d1), d2) == 0
    ensures d0 == 0 && d1 == 0 && d2 == 0
  {
    hide DivideEight;
    var c := DivideByte(0, d0);
    Cancels(DivideByte(c, d1), d2);
    ShiftedIn(c ^ (d1 as bv16), d2);
    Split(c, d1, d2);
    FirstByteReaches(d0, d2, k);
    ZeroEight();
  }

  lemma WindowDetected(c: bv16, x: seq<byte>, y: seq<byte>, k: bv8)
    requires |x| == |y| == 3 && k < 8
    requires (x[0] ^ y[0]) & ((1 << k) - 1) == 0 && (x[2] ^ y[2]) >> k == 0
    requires x != y
    ensures Fcs(c, x) != Fcs(c, y)
  {
    hide DivideByte, Xor;
    assert x == [x[0], x[1], x[2]] && y == [y[0], y[1], y[2]];
    Fcs3(c, x[0], x[1], x[2]);
    Fcs3(c, y[0], y[1], y[2]);
    var c1, e1 := DivideByte(c, x[0]), DivideByte(c, y[0]);
    var c2, e2 := DivideByte(c1, x[1]), DivideByte(e1, y[1]);
    Difference(c, x[0], c, y[0]);
    Difference(c1, x[1], e1, y[1]);
    Difference(c2, x[2], e2, y[2]);
    XorSame(c);
    XorSame(DivideByte(c2, x[2]));
    XorCancel(x[0], y[0]);
    XorCancel(x[1], y[1]);
    XorCancel(x[2], y[2]);
    if DivideByte(c2, x[2]) == DivideByte(e2, y[2]) {
      WindowError(x[0] ^ y[0], x[1] ^ y[1], x[2] ^ y[2], k);
    }
  }

  /** Every corruption confined to sixteen consecutive bits, checksum bytes
      included, makes the check fail. */
  lemma BurstDetected(m: seq<byte>, n: seq<byte>, p: nat, k: bv8)
    requires Accepts(m)
    requires Burst16(m, n, p, k)
    ensures !Accepts(n)
  {
    hide DivideByte, Accepts;
    var i :| 0 <= i < |m| && m[i] != n[i];
    assert p <= i;
    var c := Fcs(INITIAL, m[..p]);
    if p + 3 <= |m| {
      var x, y := m[p..p + 3], n[p..p + 3];
      WindowDiffers(m, n, p, p + 3);
      assert x[0] == m[p] && y[0] == n[p] && x[2] == m[p + 2] && y[2] == n[p + 2];
      WindowDetected(c, x, y, k);
      Spread(m, n, p, p + 3);
    } else if p + 2 == |m| {
      var x, y := m[p..p + 2], n[p..p + 2];
      WindowDiffers(m, n, p, p + 2);
      assert x == [x[0], x[1]] && y == [y[0], y[1]];
      Fcs2(c, x[0], x[1]);
      Fcs2(c, y[0], y[1]);
      if Fcs(c, x) == Fcs(c, y) {
        TwoBytesPermute(c, x[0], x[1], y[0], y[1]);
      }
      Spread(m, n, p, p + 2);
    } else {
      OneByte(m, n, p);
    }
  }

  lemma OneByte(m: seq<byte>, n: seq<byte>, p: nat)
    requires Accepts(m)
    requires |m| == |n| && p + 1 == |m| && m != n
    requires forall i | 0 <= i < p :: m[i] == n[i]
    ensures !Accepts(n)
  {
    WindowDiffers(m, n, p, p + 1);
    assert m[..p] == n[..p];
    assert m[..|m| - 2] == n[..|n| - 2];
    assert m[|m| - 2..][1] != n[|n| - 2..][1];
  }

  lemma WindowDiffers(m: seq<byte>, n: seq<byte>, p: nat, q: nat)
    requires |m| == |n| && p <= q <= |m| && m != n
    requires forall i | 0 <= i < |m| && !(p <= i < q) :: m[i] == n[i]
    ensures m[p..q] != n[p..q]
    ensures m[..p] == n[..p] && m[q..] == n[q..]
  {
    var i :| 0 <= i < |m| && m[i] != n[i];
    assert m[p..q][i - p] != n[p..q][i - p];
  }

  /** States told apart inside the window stay apart to the end. */
  lemma Spread(m: seq<byte>, n: seq<byte>, p: nat, q: nat)
    requires 2 <= |m| == |n| && p <= q <= |m| && Accepts(m)
    requires m[..p] == n[..p] && m[q..] == n[q..]
    requires Fcs(Fcs(INITIAL, m[..p]), m[p..q]) != Fcs(Fcs(INITIAL, m[..p]), n[p..q])
    ensures !Accepts(n)
  {
    hide DivideByte, Accepts;
    AcceptsIffResidue(m);
    AcceptsIffResidue(n);
    FcsConcat(INITIAL, m[..p], m[p..q]);
    FcsConcat(INITIAL, n[..p], n[p..q]);
    FcsConcat(INITIAL, m[..p] + m[p..q], m[q..]);
    FcsConcat(INITIAL, n[..p] + n[p..q], n[q..]);
    assert m == m[..p] + m[p..q] + m[q..];
    assert n == n[..p] + n[p..q] + n[q..];
    SuffixPermutes(Fcs(INITIAL, m[..p] + m[p..q]), Fcs(INITIAL, n[..p] + n[p..q]), m[q..]);
  }
}
