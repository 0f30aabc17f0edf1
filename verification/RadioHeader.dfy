/** The 41-byte radio header: three flags, five callsigns, two checksum bytes. */
module RadioHeader {
  import opened Checksum

  const LENGTH := 41

  datatype Fields = Fields(
    flag1: byte, flag2: byte, flag3: byte,
    rpt2: seq<byte>, rpt1: seq<byte>, your: seq<byte>, my1: seq<byte>, my2: seq<byte>)
  {
    predicate Sized() {
      |rpt2| == 8 && |rpt1| == 8 && |your| == 8 && |my1| == 8 && |my2| == 4
    }
  }

  /** The checksummed part, in the order of transmission. */
  function Body(f: Fields): (s: seq<byte>)
    requires f.Sized()
    ensures |s| == 39
  {
    [f.flag1, f.flag2, f.flag3] + f.rpt2 + f.rpt1 + f.your + f.my1 + f.my2
  }

  function Encoded(f: Fields): (s: seq<byte>)
    requires f.Sized()
    ensures |s| == LENGTH
  {
    Body(f) + Sum(Fcs(INITIAL, Body(f)))
  }

  function Decoded(data: seq<byte>): (f: Fields)
    requires |data| >= LENGTH
    ensures f.Sized()
  {
    Fields(data[0], data[1], data[2], data[3..11], data[11..19], data[19..27], data[27..35], data[35..39])
  }

  lemma BodyParts(f: Fields)
    requires f.Sized()
    ensures Body(f)[0] == f.flag1 && Body(f)[1] == f.flag2 && Body(f)[2] == f.flag3
    ensures Body(f)[3..11] == f.rpt2 && Body(f)[11..19] == f.rpt1 && Body(f)[19..27] == f.your
    ensures Body(f)[27..35] == f.my1 && Body(f)[35..39] == f.my2
  {
  }

  /** Every header survives encoding: the receiver's checksum test passes and
      every field comes back. */
  lemma RoundTrip(f: Fields)
    requires f.Sized()
    ensures Accepts(Encoded(f))
    ensures Decoded(Encoded(f)) == f
    ensures var e := Encoded(f);
            && e[0] == f.flag1 && e[1] == f.flag2 && e[2] == f.flag3
            && e[3..11] == f.rpt2 && e[11..19] == f.rpt1 && e[19..27] == f.your
            && e[27..35] == f.my1 && e[35..39] == f.my2
  {
    hide Fcs, Sum;
    BodyParts(f);
    var e := Encoded(f);
    assert e[..39] == Body(f);
    assert e[3..11] == Body(f)[3..11] && e[11..19] == Body(f)[11..19];
    assert e[19..27] == Body(f)[19..27] && e[27..35] == Body(f)[27..35] && e[35..39] == Body(f)[35..39];
    assert e[39..] == Sum(Fcs(INITIAL, Body(f)));
  }

  /** And every 41-byte message that passes the test is the encoding of the
      fields read out of it. */
  lemma OnlyEncodingsAccepted(data: seq<byte>)
    requires |data| == LENGTH
    ensures Accepts(data) <==> data == Encoded(Decoded(data))
  {
    hide Fcs, Sum;
    var f := Decoded(data);
    assert Body(f) == data[..39];
    assert data == data[..39] + data[39..];
    assert Encoded(f)[39..] == Sum(Fcs(INITIAL, Body(f)));
  }

  /** A header damaged inside sixteen consecutive bits is turned away. */
  lemma DamageRejected(f: Fields, data: seq<byte>, p: nat, k: bv8)
    requires f.Sized()
    requires Burst16(Encoded(f), data, p, k)
    ensures !Accepts(data)
  {
    RoundTrip(f);
    BurstDetected(Encoded(f), data, p, k);
  }

  /** The header object. */
  class CHeaderData {
    var flag1: byte
    var flag2: byte
    var flag3: byte
    var rptCall2: seq<byte>
    var rptCall1: seq<byte>
    var yourCall: seq<byte>
    var myCall1: seq<byte>
    var myCall2: seq<byte>

    ghost predicate Valid()
      reads this
    {
      View().Sized()
    }

    ghost function View(): Fields
      reads this
    {
      Fields(flag1, flag2, flag3, rptCall2, rptCall1, yourCall, myCall1, myCall2)
    }

    constructor ()
      ensures Valid()
    {
      flag1, flag2, flag3 := 0, 0, 0;
      rptCall1 := seq(8, i => 0x20);
      rptCall2 := seq(8, i => 0x20);
      yourCall := seq(8, i => 0x20);
      myCall1 := seq(8, i => 0x20);
      myCall2 := seq(4, i => 0x20);
    }

    method SetData(data: array<byte>, check: bool) returns (valid: bool)
      requires data.Length >= LENGTH
      modifies this
      ensures Valid() && View() == Decoded(data[..])
      ensures valid <==> !check || Accepts(data[..LENGTH])
    {
      flag1, flag2, flag3 := data[0], data[1], data[2];
      rptCall2 := data[3..11];
      rptCall1 := data[11..19];
      yourCall := data[19..27];
      myCall1 := data[27..35];
      myCall2 := data[35..39];
      if check {
        hide Fcs, Sum;
        var cksum := new CCITTChecksum();
        cksum.Update(data[..LENGTH - 2]);
        valid := cksum.Check(data[LENGTH - 2..LENGTH]);
        assert data[..LENGTH][..LENGTH - 2] == data[..LENGTH - 2];
        assert data[..LENGTH][LENGTH - 2..] == data[LENGTH - 2..LENGTH];
      } else {
        valid := true;
      }
    }

    method GetData(data: array<byte>, check: bool) returns (length: nat)
      requires Valid() && data.Length >= LENGTH
      modifies data
      ensures length == if check then LENGTH else LENGTH - 2
      ensures data[..length] == if check then Encoded(View()) else Body(View())
      ensures forall i | length <= i < data.Length :: data[i] == old(data[i])
    {
      hide Fcs, Sum, Body;
      PutBody(data);
      if check {
        PutSum(data);
        length := LENGTH;
        assert data[..LENGTH] == data[..39] + data[39..LENGTH];
      } else {
        length := LENGTH - 2;
      }
    }

    /** Writes the checksum of the body behind it. */
    static method PutSum(data: array<byte>)
      requires data.Length >= LENGTH
      modifies data
      ensures data[39..LENGTH] == Sum(Fcs(INITIAL, old(data[..39])))
      ensures data[..39] == old(data[..39])
      ensures forall i | LENGTH <= i < data.Length :: data[i] == old(data[i])
    {
      hide Fcs, Sum;
      var csum := new CCITTChecksum();
      csum.Update(data[..LENGTH - 2]);
      var sum := csum.Result();
      data[LENGTH - 2], data[LENGTH - 1] := sum[0], sum[1];
    }

    method PutBody(data: array<byte>)
      requires Valid() && data.Length >= LENGTH
      modifies data
      ensures data[..39] == Body(View())
      ensures forall i | 39 <= i < data.Length :: data[i] == old(data[i])
    {
      data[0], data[1], data[2] := flag1, flag2, flag3;
      assert data[..3] == [flag1, flag2, flag3];
      Copy(data, 3, rptCall2);
      assert data[..11] == data[..3] + rptCall2;
      Copy(data, 11, rptCall1);
      assert data[..19] == data[..11] + rptCall1;
      Copy(data, 19, yourCall);
      assert data[..27] == data[..19] + yourCall;
      Copy(data, 27, myCall1);
      assert data[..35] == data[..27] + myCall1;
      Copy(data, 35, myCall2);
      assert data[..39] == data[..35] + myCall2;
    }

    static method Copy(data: array<byte>, at: nat, s: seq<byte>)
      requires at + |s| <= data.Length
      modifies data
      ensures data[at..at + |s|] == s
      ensures data[..at] == old(data[..at])
      ensures forall i | at + |s| <= i < data.Length :: data[i] == old(data[i])
    {
      forall i | 0 <= i < |s| {
        data[at + i] := s[i];
      }
    }
  }
}
