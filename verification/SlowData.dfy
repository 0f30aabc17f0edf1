/** The slow-data encoder: header, text and GPS data cut into tagged six-byte
    blocks, scrambled three bytes at a time, and interleaved. */
module SlowData {
  import opened Checksum
  import RadioHeader

  const BLOCK := 6
  const FULL := 60
  const HEADER_SIZE := 54
  const TEXT_SIZE := 24
  const FILLER: byte := 0x66
  const FILLER_BYTES: seq<byte> := [0x66, 0x66, 0x66]

  const NULL_SLOW_DATA: seq<byte> := [0x16, 0x29, 0xF5]

  const GPS: byte := 0x30
  const TEXT: byte := 0x40
  const HEADER: byte := 0x50

  // ---- reading blocks back by their tags ----

  predicate HasTag(kind: byte, block: seq<byte>)
    requires |block| == BLOCK
  {
    block[0] & 0xF0 == kind
  }

  /** The tag's low half counts the payload, except in text blocks, where it
      numbers the block and the payload is always five bytes. */
  function PayloadLength(tag: byte): (n: nat)
    ensures n <= 5
  {
    if tag & 0xF0 == TEXT || tag & 0x0F >= 5 then 5
    else if tag & 0x0F == 4 then 4 else if tag & 0x0F == 3 then 3
    else if tag & 0x0F == 2 then 2 else if tag & 0x0F == 1 then 1 else 0
  }

  function BlockPayload(block: seq<byte>): seq<byte>
    requires |block| == BLOCK
  {
    block[1..1 + PayloadLength(block[0])]
  }

  function BlockAt(data: seq<byte>, k: nat): (b: seq<byte>)
    requires BLOCK * k + BLOCK <= |data|
    ensures |b| == BLOCK
  {
    data[BLOCK * k..BLOCK * k + BLOCK]
  }

  /** The blocks of one kind among the first n blocks, in order. */
  function BlocksOf(kind: byte, data: seq<byte>, n: nat): (bs: seq<seq<byte>>)
    requires BLOCK * n <= |data|
    ensures forall b | b in bs :: |b| == BLOCK
  {
    if n == 0 then []
    else if HasTag(kind, BlockAt(data, n - 1)) then BlocksOf(kind, data, n - 1) + [BlockAt(data, n - 1)]
    else BlocksOf(kind, data, n - 1)
  }

  function FirstBlocks(data: seq<byte>, n: nat): (bs: seq<seq<byte>>)
    requires BLOCK * n <= |data|
    ensures |bs| == n
    ensures forall b | b in bs :: |b| == BLOCK
  {
    if n == 0 then [] else FirstBlocks(data, n - 1) + [BlockAt(data, n - 1)]
  }

  function Joined(bs: seq<seq<byte>>): seq<byte>
    requires forall b | b in bs :: |b| == BLOCK
  {
    if bs == [] then [] else Joined(bs[..|bs| - 1]) + BlockPayload(bs[|bs| - 1])
  }

  /** Everything a receiver recovers of one kind. */
  function Payload(kind: byte, data: seq<byte>): seq<byte>
  {
    Joined(BlocksOf(kind, data, |data| / BLOCK))
  }

  // ---- scrambling ----

  function Scramble(s: seq<byte>): (t: seq<byte>)
    requires |s| == 3
    ensures |t| == 3
  {
    [s[0] ^ 0x70, s[1] ^ 0x4F, s[2] ^ 0x93]
  }

  /** The D-Star scrambler: the bits of the shift register x^7 + x^4 + 1, started
      from all ones. */
  function NoiseBit(n: int): bool
    decreases if n < 0 then 0 else n + 1
  {
    if n < 0 then true else NoiseBit(n - 4) != NoiseBit(n - 7)
  }

  /** Eight of them from bit n on, the first as the lowest. */
  function NoiseByte(n: nat): byte {
    (if NoiseBit(n) then 0x01 else 0) | (if NoiseBit(n + 1) then 0x02 else 0)
    | (if NoiseBit(n + 2) then 0x04 else 0) | (if NoiseBit(n + 3) then 0x08 else 0)
    | (if NoiseBit(n + 4) then 0x10 else 0) | (if NoiseBit(n + 5) then 0x20 else 0)
    | (if NoiseBit(n + 6) then 0x40 else 0) | (if NoiseBit(n + 7) then 0x80 else 0)
  }

  /** Byte i of a frame's three is masked by byte i of the sequence. */
  predicate Masked(s: seq<byte>, out: seq<byte>) {
    |s| == 3 && out == [s[0] ^ NoiseByte(0), s[1] ^ NoiseByte(8), s[2] ^ NoiseByte(16)]
  }

  /** The three constants are the first twenty-four bits of the register. */
  lemma ScrambleMasks(s: seq<byte>)
    requires |s| == 3
    ensures Masked(s, Scramble(s))
  {
    hide NoiseBit, NoiseByte;
    FirstNoise();
  }

  lemma FirstNoise()
    ensures NoiseByte(0) == 0x70 && NoiseByte(8) == 0x4F && NoiseByte(16) == 0x93
  {
    hide NoiseBit;
    NoiseBits();
  }

  lemma NoiseBits()
    ensures !NoiseBit(0) && !NoiseBit(1) && !NoiseBit(2) && !NoiseBit(3)
    ensures NoiseBit(4) && NoiseBit(5) && NoiseBit(6) && !NoiseBit(7)
    ensures NoiseBit(8) && NoiseBit(9) && NoiseBit(10) && NoiseBit(11)
    ensures !NoiseBit(12) && !NoiseBit(13) && NoiseBit(14) && !NoiseBit(15)
    ensures NoiseBit(16) && NoiseBit(17) && !NoiseBit(18) && !NoiseBit(19)
    ensures NoiseBit(20) && !NoiseBit(21) && !NoiseBit(22) && NoiseBit(23)
  {
    assert !NoiseBit(0) && !NoiseBit(1) && !NoiseBit(2) && !NoiseBit(3);
    assert NoiseBit(4) && NoiseBit(5) && NoiseBit(6) && !NoiseBit(7);
    assert NoiseBit(8) && NoiseBit(9) && NoiseBit(10) && NoiseBit(11);
    assert !NoiseBit(12) && !NoiseBit(13) && NoiseBit(14) && !NoiseBit(15);
    assert NoiseBit(16) && NoiseBit(17) && !NoiseBit(18) && !NoiseBit(19);
  }

  /** What the program sends elsewhere for no slow data is the scrambled filler. */
  lemma NullSlowData()
    ensures FILLER == 0x66 && Scramble(FILLER_BYTES) == NULL_SLOW_DATA
  {
  }

  function NextPtr(ptr: nat, length: nat): nat {
    if ptr + 3 >= length then 0 else ptr + 3
  }

  lemma ThirdsFit(ptr: nat, length: nat)
    requires ptr % 3 == 0 && length % 3 == 0 && ptr < length
    ensures ptr + 3 <= length && (ptr + 3) % 3 == 0
  {
  }

  lemma OneRead(source: seq<byte>, ptr: nat)
    requires |source| % 3 == 0 && ptr % 3 == 0 && ptr < |source|
    ensures ptr + 3 <= |source| && Reads(source, ptr, 1) == Scramble(source[ptr..ptr + 3])
    ensures NextPtr(ptr, |source|) % 3 == 0 && NextPtr(ptr, |source|) < |source|
  {
    hide Scramble;
    ThirdsFit(ptr, |source|);
    assert Reads(source, NextPtr(ptr, |source|), 0) == [];
  }

  /** The output of n reads of three bytes, starting at ptr. */
  function Reads(source: seq<byte>, ptr: nat, n: nat): (out: seq<byte>)
    requires |source| % 3 == 0 && ptr % 3 == 0 && (n > 0 ==> ptr < |source|)
    ensures |out| == 3 * n
    decreases n
  {
    if n == 0 then []
    else
      ThirdsFit(ptr, |source|);
      Scramble(source[ptr..ptr + 3]) + Reads(source, NextPtr(ptr, |source|), n - 1)
  }

  /** A receiver runs the register afresh for the three bytes of every frame. */
  function Descrambled(s: seq<byte>): (t: seq<byte>)
    ensures |t| == |s|
  {
    seq(|s|, i requires 0 <= i < |s| => s[i] ^ NoiseByte(8 * (i % 3)))
  }

  lemma XorTwice(x: byte, k: byte)
    ensures (x ^ k) ^ k == x
  {
  }

  /** Descrambling a frame that was masked, and what comes after it. */
  lemma Unmasks(s: seq<byte>, out: seq<byte>, rest: seq<byte>)
    requires Masked(s, out)
    ensures Descrambled(out + rest) == s + Descrambled(rest)
  {
    hide NoiseByte;
    XorTwice(s[0], NoiseByte(0));
    XorTwice(s[1], NoiseByte(8));
    XorTwice(s[2], NoiseByte(16));
    forall i | 3 <= i < 3 + |rest|
      ensures Descrambled(out + rest)[i] == Descrambled(rest)[i - 3]
    {
      assert i % 3 == (i - 3) % 3;
    }
  }

  /** Reading a buffer once round and descrambling gives the buffer back. */
  lemma {:induction false} ReadsBack(source: seq<byte>, ptr: nat, n: nat)
    requires |source| % 3 == 0 && ptr % 3 == 0 && ptr + 3 * n == |source|
    ensures Descrambled(Reads(source, ptr, n)) == source[ptr..]
    decreases n
  {
    hide Scramble, Masked, Descrambled;
    if n > 0 {
      var s := source[ptr..ptr + 3];
      ScrambleMasks(s);
      Unmasks(s, Scramble(s), Reads(source, NextPtr(ptr, |source|), n - 1));
      if n > 1 {
        ReadsBack(source, ptr + 3, n - 1);
      } else {
        assert Descrambled(Reads(source, 0, 0)) == [];
      }
      assert source[ptr..] == s + source[ptr + 3..];
    }
  }

  // ---- the buffers ----

  function Min(a: nat, b: nat): nat {
    if a < b then a else b
  }

  function HeaderByte(e: seq<byte>, i: nat): byte
    requires |e| == RadioHeader.LENGTH
  {
    var k, o := i / BLOCK, i % BLOCK;
    if k < 8 then (if o == 0 then 0x55 else e[5 * k + o - 1])
    else if k == 8 && o == 0 then 0x51
    else if k == 8 && o == 1 then e[40]
    else FILLER
  }

  /** Eight full header blocks, one block with the last checksum byte, filler. */
  function HeaderImage(e: seq<byte>): (s: seq<byte>)
    requires |e| == RadioHeader.LENGTH
    ensures |s| == FULL
  {
    seq(FULL, i requires 0 <= i < FULL => HeaderByte(e, i))
  }

  /** std::string::resize(20, ' ') */
  function Padded(text: seq<byte>): (s: seq<byte>)
    ensures |s| == 20
  {
    if |text| >= 20 then text[..20] else text + seq(20 - |text|, i => 0x20)
  }

  function TextTag(k: nat): byte {
    if k == 0 then 0x40 else if k == 1 then 0x41 else if k == 2 then 0x42 else 0x43
  }

  function TextByte(p: seq<byte>, i: nat): byte
    requires |p| == 20
  {
    var k, o := i / BLOCK, i % BLOCK;
    if k >= 4 then FILLER else if o == 0 then TextTag(k) else p[5 * k + o - 1]
  }

  function TextImage(text: seq<byte>): (s: seq<byte>)
    ensures |s| == FULL
  {
    seq(FULL, i requires 0 <= i < FULL => TextByte(Padded(text), i))
  }

  /** The size recorded for n characters: one type byte for every six of them,
      although a block carries five. */
  function GpsSize(n: nat): nat {
    if n == 0 then 0 else 1 + (n - 1) / 6 + n
  }

  function RoundUp(size: nat): (r: nat)
    requires size > 0
    ensures r >= size && r % 3 == 0 && r % BLOCK == 0
  {
    var groups := 1 + (size - 1) / FULL;
    Multiples(groups);
    FULL * groups
  }

  lemma Multiples(n: nat)
    ensures FULL * n % 3 == 0 && FULL * n % BLOCK == 0
  {
    assert FULL * n == 3 * (20 * n) && FULL * n == BLOCK * (10 * n);
  }

  function GpsTag(n: nat): byte {
    if n == 0 then 0x30 else if n == 1 then 0x31 else if n == 2 then 0x32
    else if n == 3 then 0x33 else if n == 4 then 0x34 else 0x35
  }

  /** How many characters block k carries. */
  function GpsCount(n: nat, k: nat): (c: nat)
    ensures c <= 5 && (5 * k + c <= n || c == 0)
  {
    if n <= 5 * k then 0 else Min(5, n - 5 * k)
  }

  function GpsByte(s: seq<byte>, i: nat): byte {
    var k, o := i / BLOCK, i % BLOCK;
    var c := GpsCount(|s|, k);
    if o == 0 then GpsTag(c) else if o <= c then s[5 * k + o - 1] else 0x30
  }

  function GpsImage(s: seq<byte>): (img: seq<byte>)
    requires s != []
    ensures |img| == RoundUp(GpsSize(|s|))
  {
    seq(RoundUp(GpsSize(|s|)), i requires i >= 0 => GpsByte(s, i))
  }

  // ---- what the blocks say ----

  lemma GpsTags(n: nat)
    requires n <= 5
    ensures GpsTag(n) & 0xF0 == GPS && PayloadLength(GpsTag(n)) == n
    ensures GpsTag(n) & 0xF0 != TEXT && GpsTag(n) & 0xF0 != HEADER
  {
  }

  lemma HeaderTags()
    ensures 0x55 as byte & 0xF0 == HEADER && PayloadLength(0x55) == 5
    ensures 0x51 as byte & 0xF0 == HEADER && PayloadLength(0x51) == 1
    ensures HEADER != TEXT && HEADER != GPS && FILLER & 0xF0 != HEADER && FILLER & 0xF0 != TEXT && FILLER & 0xF0 != GPS
  {
  }

  lemma HeaderByteAt(e: seq<byte>, k: nat, o: nat)
    requires |e| == RadioHeader.LENGTH && k < 10 && o < BLOCK
    ensures HeaderByte(e, BLOCK * k + o)
         == if k < 8 then (if o == 0 then 0x55 else e[5 * k + o - 1])
            else if k == 8 && o == 0 then 0x51 else if k == 8 && o == 1 then e[40] else FILLER
  {
    assert (BLOCK * k + o) / BLOCK == k && (BLOCK * k + o) % BLOCK == o;
  }

  lemma HeaderGroupOf(e: seq<byte>, k: nat)
    requires |e| == RadioHeader.LENGTH && k < 10
    ensures k < 8 ==> BlockAt(HeaderImage(e), k) == [0x55] + e[5 * k..5 * k + 5]
    ensures k == 8 ==> BlockAt(HeaderImage(e), k) == [0x51, e[40], FILLER, FILLER, FILLER, FILLER]
    ensures k == 9 ==> BlockAt(HeaderImage(e), k)[0] == FILLER
  {
    hide HeaderByte;
    forall o | 0 <= o < BLOCK
      ensures BlockAt(HeaderImage(e), k)[o] == if k < 8 then (if o == 0 then 0x55 else e[5 * k + o - 1])
              else if k == 8 && o == 0 then 0x51 else if k == 8 && o == 1 then e[40] else FILLER
    {
      HeaderByteAt(e, k, o);
      assert BlockAt(HeaderImage(e), k)[o] == HeaderByte(e, BLOCK * k + o);
    }
  }

  lemma HeaderBlock(e: seq<byte>, k: nat)
    requires |e| == RadioHeader.LENGTH && k < 10
    ensures HasTag(HEADER, BlockAt(HeaderImage(e), k)) <==> k < 9
    ensures !HasTag(TEXT, BlockAt(HeaderImage(e), k)) && !HasTag(GPS, BlockAt(HeaderImage(e), k))
    ensures k < 9 ==> BlockPayload(BlockAt(HeaderImage(e), k)) == e[5 * k..Min(5 * k + 5, 41)]
  {
    hide HeaderImage, BlockAt, PayloadLength;
    HeaderTags();
    HeaderGroupOf(e, k);
    if k < 8 {
      assert ([0x55] + e[5 * k..5 * k + 5])[1..6] == e[5 * k..5 * k + 5];
    } else if k == 8 {
      assert [0x51, e[40], FILLER, FILLER, FILLER, FILLER][1..2] == e[40..41];
    }
  }

  lemma TextTags(k: nat)
    requires k < 4
    ensures TextTag(k) & 0xF0 == TEXT && PayloadLength(TextTag(k)) == 5
    ensures TEXT != HEADER && TEXT != GPS
  {
  }

  lemma TextByteAt(p: seq<byte>, k: nat, o: nat)
    requires |p| == 20 && o < BLOCK
    ensures TextByte(p, BLOCK * k + o) == if k >= 4 then FILLER else if o == 0 then TextTag(k) else p[5 * k + o - 1]
  {
    assert (BLOCK * k + o) / BLOCK == k && (BLOCK * k + o) % BLOCK == o;
  }

  /** What block k of an image made of text bytes holds. */
  lemma TextGroupOf(p: seq<byte>, image: seq<byte>, k: nat)
    requires |p| == 20 && |image| == FULL && k < 10 && forall i | 0 <= i < FULL :: image[i] == TextByte(p, i)
    ensures k < 4 ==> BlockAt(image, k) == [TextTag(k)] + p[5 * k..5 * k + 5]
    ensures k >= 4 ==> BlockAt(image, k)[0] == FILLER
  {
    hide TextByte, TextTag;
    forall o | 0 <= o < BLOCK
      ensures BlockAt(image, k)[o] == if k >= 4 then FILLER else if o == 0 then TextTag(k) else p[5 * k + o - 1]
    {
      TextByteAt(p, k, o);
      assert BlockAt(image, k)[o] == TextByte(p, BLOCK * k + o);
    }
  }

  lemma TextBlock(text: seq<byte>, k: nat)
    requires k < 10
    ensures HasTag(TEXT, BlockAt(TextImage(text), k)) <==> k < 4
    ensures !HasTag(HEADER, BlockAt(TextImage(text), k)) && !HasTag(GPS, BlockAt(TextImage(text), k))
    ensures k < 4 ==> BlockPayload(BlockAt(TextImage(text), k)) == Padded(text)[5 * k..5 * k + 5]
  {
    hide BlockAt, PayloadLength, TextByte, TextTag, Padded;
    HeaderTags();
    TextGroupOf(Padded(text), TextImage(text), k);
    if k < 4 {
      TextTags(k);
      assert ([TextTag(k)] + Padded(text)[5 * k..5 * k + 5])[1..6] == Padded(text)[5 * k..5 * k + 5];
    }
  }

  lemma GpsByteAt(s: seq<byte>, k: nat, o: nat)
    requires o < BLOCK
    ensures var c := GpsCount(|s|, k);
            GpsByte(s, BLOCK * k + o) == if o == 0 then GpsTag(c) else if o <= c then s[5 * k + o - 1] else 0x30
  {
    assert (BLOCK * k + o) / BLOCK == k && (BLOCK * k + o) % BLOCK == o;
  }

  lemma GpsBlock(s: seq<byte>, k: nat)
    requires s != [] && BLOCK * k + BLOCK <= |GpsImage(s)|
    ensures HasTag(GPS, BlockAt(GpsImage(s), k))
    ensures !HasTag(TEXT, BlockAt(GpsImage(s), k)) && !HasTag(HEADER, BlockAt(GpsImage(s), k))
    ensures BlockPayload(BlockAt(GpsImage(s), k)) == s[Min(5 * k, |s|)..Min(5 * k + 5, |s|)]
  {
    hide GpsTag, PayloadLength, GpsByte, GpsCount, Min;
    GpsTags(GpsCount(|s|, k));
    GpsByteAt(s, k, 0);
    assert BlockAt(GpsImage(s), k)[0] == GpsByte(s, BLOCK * k + 0);
    GpsCharacters(s, k);
  }

  lemma GpsCharacters(s: seq<byte>, k: nat)
    requires s != [] && BLOCK * k + BLOCK <= |GpsImage(s)|
    ensures var c := GpsCount(|s|, k);
            BlockAt(GpsImage(s), k)[1..1 + c] == s[Min(5 * k, |s|)..Min(5 * k + 5, |s|)]
  {
    hide GpsTag, GpsByte;
    var b := BlockAt(GpsImage(s), k);
    var c := GpsCount(|s|, k);
    var lo, hi := Min(5 * k, |s|), Min(5 * k + 5, |s|);
    assert hi == lo + c && (c > 0 ==> lo == 5 * k);
    forall j | 0 <= j < c
      ensures b[1..1 + c][j] == s[lo..hi][j]
    {
      GpsByteAt(s, k, 1 + j);
      assert b[1 + j] == GpsByte(s, BLOCK * k + (1 + j));
    }
  }

  lemma JoinedSnoc(bs: seq<seq<byte>>, b: seq<byte>)
    requires |b| == BLOCK && forall c | c in bs :: |c| == BLOCK
    ensures forall c | c in bs + [b] :: |c| == BLOCK
    ensures Joined(bs + [b]) == Joined(bs) + BlockPayload(b)
  {
    hide BlockPayload;
    var cs := bs + [b];
    assert cs[..|cs| - 1] == bs && cs[|cs| - 1] == b;
  }

  lemma NextFive(s: seq<byte>, k: nat)
    ensures Min(0, |s|) == 0
    ensures s[..Min(5 * (k + 1), |s|)] == s[..Min(5 * k, |s|)] + s[Min(5 * k, |s|)..Min(5 * k + 5, |s|)]
  {
  }

  /** Block k is of this kind and holds the next five bytes of s, or what is left. */
  predicate Carries(kind: byte, data: seq<byte>, s: seq<byte>, k: nat)
    requires BLOCK * k + BLOCK <= |data|
  {
    HasTag(kind, BlockAt(data, k)) && BlockPayload(BlockAt(data, k)) == s[Min(5 * k, |s|)..Min(5 * k + 5, |s|)]
  }

  lemma JoinNext(kind: byte, data: seq<byte>, s: seq<byte>, n: nat)
    requires BLOCK * n + BLOCK <= |data| && Carries(kind, data, s, n)
    requires BlocksOf(kind, data, n) == FirstBlocks(data, n)
    requires Joined(FirstBlocks(data, n)) == s[..Min(5 * n, |s|)]
    ensures BlocksOf(kind, data, n + 1) == FirstBlocks(data, n + 1)
    ensures Joined(FirstBlocks(data, n + 1)) == s[..Min(5 * (n + 1), |s|)]
  {
    hide HasTag, BlockPayload, BlockAt, Joined, Min;
    JoinedSnoc(FirstBlocks(data, n), BlockAt(data, n));
    NextFive(s, n);
  }

  /** Blocks that carry s five bytes at a time join up to a prefix of it. */
  lemma {:induction false} Gather(kind: byte, data: seq<byte>, s: seq<byte>, n: nat)
    requires BLOCK * n <= |data|
    requires forall k | 0 <= k < n :: Carries(kind, data, s, k)
    ensures BlocksOf(kind, data, n) == FirstBlocks(data, n)
    ensures Joined(FirstBlocks(data, n)) == s[..Min(5 * n, |s|)]
  {
    hide Carries, Joined, Min;
    if n == 0 {
      NextFive(s, 0);
      NothingJoined();
    } else {
      Gather(kind, data, s, n - 1);
      JoinNext(kind, data, s, n - 1);
    }
  }

  lemma NothingJoined()
    ensures Joined([]) == []
  {
  }

  lemma {:induction false} Skip(kind: byte, data: seq<byte>, n: nat, m: nat)
    requires n <= m && BLOCK * m <= |data|
    requires forall k | n <= k < m :: !HasTag(kind, BlockAt(data, k))
    ensures BlocksOf(kind, data, m) == BlocksOf(kind, data, n)
    decreases m
  {
    if n < m {
      Skip(kind, data, n, m - 1);
    }
  }

  lemma FillsHeader(e: seq<byte>)
    requires |e| == RadioHeader.LENGTH
    ensures forall i | 50 <= i < FULL :: HeaderImage(e)[i] == 0x66
  {
    forall i | 50 <= i < FULL
      ensures HeaderByte(e, i) == 0x66
    {
      assert i / BLOCK >= 8 && (i / BLOCK == 8 ==> i % BLOCK == i - 48);
    }
  }

  /** The header blocks hold the header, and the rest is filler. */
  lemma HeaderPayload(e: seq<byte>)
    requires |e| == RadioHeader.LENGTH
    ensures Payload(0x50, HeaderImage(e)) == e
    ensures Joined(FirstBlocks(HeaderImage(e), 9)) == e
    ensures forall i | 50 <= i < FULL :: HeaderImage(e)[i] == 0x66
  {
    FillsHeader(e);
    hide HeaderImage, HasTag, BlockPayload;
    forall k: nat | k < 10
      ensures HasTag(HEADER, BlockAt(HeaderImage(e), k)) <==> k < 9
      ensures k < 9 ==> Carries(HEADER, HeaderImage(e), e, k)
    {
      HeaderBlock(e, k);
    }
    Gather(HEADER, HeaderImage(e), e, 9);
    Skip(HEADER, HeaderImage(e), 9, 10);
    assert e[..41] == e;
  }

  /** A header set, read out in twenty scrambled three-byte frames, descrambled
      and stripped of its type bytes is the checksummed header: the receiver
      accepts it and every field is restored. */
  lemma HeaderEndToEnd(f: RadioHeader.Fields)
    requires f.Sized()
    ensures var e := RadioHeader.Encoded(f);
            var received := Payload(0x50, Descrambled(Reads(HeaderImage(e), 0, 20)));
            received == e && Accepts(received) && RadioHeader.Decoded(received) == f
  {
    var e := RadioHeader.Encoded(f);
    ReadsBack(HeaderImage(e), 0, 20);
    HeaderPayload(e);
    RadioHeader.RoundTrip(f);
  }

  lemma FillsText(text: seq<byte>)
    ensures var image := TextImage(text); image[0] == 0x40 && image[6] == 0x41 && image[12] == 0x42 && image[18] == 0x43
    ensures forall i | 24 <= i < FULL :: TextImage(text)[i] == 0x66
  {
    forall i | 24 <= i < FULL
      ensures TextByte(Padded(text), i) == 0x66
    {
      assert i / BLOCK >= 4;
    }
  }

  /** The four text blocks are numbered and hold the text, and the rest is filler. */
  lemma TextPayload(text: seq<byte>)
    ensures Payload(0x40, TextImage(text)) == Padded(text)
    ensures Joined(FirstBlocks(TextImage(text), 4)) == Padded(text)
    ensures var image := TextImage(text); image[0] == 0x40 && image[6] == 0x41 && image[12] == 0x42 && image[18] == 0x43
    ensures forall i | 24 <= i < FULL :: TextImage(text)[i] == 0x66
  {
    FillsText(text);
    hide TextImage, HasTag, BlockPayload;
    var p := Padded(text);
    forall k: nat | k < 10
      ensures HasTag(TEXT, BlockAt(TextImage(text), k)) <==> k < 4
      ensures k < 4 ==> Carries(TEXT, TextImage(text), p, k)
    {
      TextBlock(text, k);
    }
    Gather(TEXT, TextImage(text), p, 4);
    Skip(TEXT, TextImage(text), 4, 10);
    assert p[..20] == p;
  }

  lemma TextEndToEnd(text: seq<byte>)
    ensures Payload(0x40, Descrambled(Reads(TextImage(text), 0, 20))) == Padded(text)
  {
    ReadsBack(TextImage(text), 0, 20);
    TextPayload(text);
  }

  lemma {:induction false} GpsGather(s: seq<byte>, n: nat)
    requires s != [] && BLOCK * n <= |GpsImage(s)|
    ensures BlocksOf(GPS, GpsImage(s), n) == FirstBlocks(GpsImage(s), n)
    ensures Joined(FirstBlocks(GpsImage(s), n)) == s[..Min(5 * n, |s|)]
  {
    hide GpsImage, HasTag, BlockPayload;
    forall k: nat | k < n
      ensures Carries(GPS, GpsImage(s), s, k)
    {
      GpsBlock(s, k);
    }
    Gather(GPS, GpsImage(s), s, n);
  }

  function CeilDiv(n: nat, d: nat): nat
    requires d > 0
  {
    (n + d - 1) / d
  }

  lemma GpsLength(s: seq<byte>)
    requires s != []
    ensures var full := |GpsImage(s)|;
            && full == RoundUp(GpsSize(|s|)) && full % FULL == 0
            && |s| + CeilDiv(|s|, 6) <= full < |s| + CeilDiv(|s|, 6) + FULL
  {
    hide RoundUp, GpsSize, CeilDiv;
    GpsSizeIs(|s|);
    RoundsUp(GpsSize(|s|));
  }

  lemma GpsSizeIs(n: nat)
    requires n > 0
    ensures GpsSize(n) == n + CeilDiv(n, 6) && GpsSize(n) > 0
  {
  }

  lemma RoundsUp(size: nat)
    requires size > 0
    ensures RoundUp(size) % FULL == 0 && size <= RoundUp(size) < size + FULL
  {
  }

  lemma FillsGps(s: seq<byte>)
    requires s != []
    ensures forall i | |s| + CeilDiv(|s|, 5) <= i < RoundUp(GpsSize(|s|)) :: GpsImage(s)[i] == 0x30
  {
    hide RoundUp;
    forall i | |s| + CeilDiv(|s|, 5) <= i < RoundUp(GpsSize(|s|))
      ensures GpsByte(s, i) == 0x30
    {
      PastTheEnd(|s|, i / BLOCK, i % BLOCK);
      assert i == BLOCK * (i / BLOCK) + i % BLOCK;
    }
  }

  lemma PastTheEnd(n: nat, k: nat, o: nat)
    requires n > 0 && o < BLOCK && n + CeilDiv(n, 5) <= BLOCK * k + o
    ensures if o == 0 then GpsCount(n, k) == 0 else o > GpsCount(n, k)
  {
  }

  /** The GPS buffer returns a prefix of the string, and the whole of it exactly
      when the characters and one type byte for every five of them fit. */
  lemma GpsPayload(s: seq<byte>)
    requires s != []
    ensures var full := |GpsImage(s)|;
            && full % FULL == 0 && |s| + CeilDiv(|s|, 6) <= full < |s| + CeilDiv(|s|, 6) + FULL
            && Payload(0x30, GpsImage(s)) == s[..Min(|s|, full / BLOCK * 5)]
            && (Payload(0x30, GpsImage(s)) == s <==> |s| + CeilDiv(|s|, 5) <= full)
            && forall i | |s| + CeilDiv(|s|, 5) <= i < full :: GpsImage(s)[i] == 0x30
  {
    hide GpsImage;
    FillsGps(s);
    GpsLength(s);
    var full := RoundUp(GpsSize(|s|));
    assert full == BLOCK * (full / BLOCK);
    GpsGather(s, full / BLOCK);
    GpsFits(|s|, 1 + (GpsSize(|s|) - 1) / FULL);
  }

  lemma GpsFits(n: nat, m: nat)
    ensures n + CeilDiv(n, 5) <= FULL * m <==> n <= 50 * m
  {
  }

  /** The recorded size is one too small for some strings: 51 characters lose
      their last. */
  lemma GpsLosesACharacter(s: seq<byte>)
    requires |s| == 51
    ensures RoundUp(GpsSize(|s|)) == 60
    ensures Payload(GPS, GpsImage(s)) == s[..50]
  {
    GpsPayload(s);
  }

  // ---- interleaving ----

  /** Text blocks placed among the first k blocks. */
  function TextBefore(k: nat): (n: nat)
    ensures n <= 4 && n <= k
  {
    if k >= 7 then 4 else (k + 1) / 2
  }

  /** GPS blocks placed among the first k blocks. */
  function GpsBefore(k: nat, g: nat): (n: nat)
    ensures n <= g
  {
    Min(k - TextBefore(k), g)
  }

  /** Header blocks placed among the first k blocks. */
  function HeaderBefore(k: nat, g: nat, h: nat): (n: nat)
    ensures n <= h
  {
    if k - TextBefore(k) < g then 0 else Min(k - TextBefore(k) - g, h)
  }

  datatype Origin = FromText(j: nat) | FromGps(j: nat) | FromHeader(j: nat) | Filler

  /** Where block k comes from: text in the first four even places, then the g
      GPS blocks, then the h header blocks, in the places left. */
  function OriginOf(g: nat, h: nat, k: nat): Origin {
    var j := k - TextBefore(k);
    if k % 2 == 0 && k < 8 then FromText(k / 2)
    else if j < g then FromGps(j)
    else if j < g + h then FromHeader(j - g)
    else Filler
  }

  function SourceBlock(text: seq<byte>, gps: seq<byte>, header: seq<byte>, g: nat, h: nat, k: nat): (b: seq<byte>)
    requires |text| == FULL && BLOCK * g <= |gps| && BLOCK * h <= |header|
    ensures |b| == BLOCK
  {
    match OriginOf(g, h, k)
    case FromText(j) => BlockAt(text, j)
    case FromGps(j) => BlockAt(gps, j)
    case FromHeader(j) => BlockAt(header, j)
    case Filler => [FILLER, FILLER, FILLER, FILLER, FILLER, FILLER]
  }

  predicate Interleaved(text: seq<byte>, gps: seq<byte>, header: seq<byte>, g: nat, h: nat, data: seq<byte>, n: nat)
    requires |text| == FULL && BLOCK * g <= |gps| && BLOCK * h <= |header|
    requires BLOCK * n <= |data|
  {
    forall k | 0 <= k < n :: BlockAt(data, k) == SourceBlock(text, gps, header, g, h, k)
  }

  lemma SourceTags(t: seq<byte>, s: seq<byte>, e: seq<byte>, g: nat, h: nat, k: nat)
    requires s != [] && |e| == RadioHeader.LENGTH && BLOCK * g <= |GpsImage(s)| && h <= 9
    ensures var b := SourceBlock(TextImage(t), GpsImage(s), HeaderImage(e), g, h, k);
            && (HasTag(TEXT, b) <==> OriginOf(g, h, k).FromText?)
            && (HasTag(GPS, b) <==> OriginOf(g, h, k).FromGps?)
            && (HasTag(HEADER, b) <==> OriginOf(g, h, k).FromHeader?)
  {
    hide TextImage, GpsImage, HeaderImage, HasTag, BlockAt;
    match OriginOf(g, h, k)
    case FromText(j) => TextBlock(t, j);
    case FromGps(j) => GpsBlock(s, j);
    case FromHeader(j) => HeaderBlock(e, j);
    case Filler => FillerBlock([FILLER, FILLER, FILLER, FILLER, FILLER, FILLER]);
  }

  /** How one more block moves the three counts. */
  lemma NextOrigin(g: nat, h: nat, k: nat)
    ensures var o := OriginOf(g, h, k);
            && TextBefore(k + 1) == TextBefore(k) + (if o.FromText? then 1 else 0)
            && GpsBefore(k + 1, g) == GpsBefore(k, g) + (if o.FromGps? then 1 else 0)
            && HeaderBefore(k + 1, g, h) == HeaderBefore(k, g, h) + (if o.FromHeader? then 1 else 0)
            && (o.FromText? ==> o.j == TextBefore(k))
            && (o.FromGps? ==> o.j == GpsBefore(k, g))
            && (o.FromHeader? ==> o.j == HeaderBefore(k, g, h))
  {
  }

  /** Blocks of one kind, each the next block of the source, make up its first
      blocks. */
  lemma {:induction false} Collect(kind: byte, src: seq<byte>, data: seq<byte>, n: nat, count: nat -> nat)
    requires BLOCK * n <= |data|
    requires count(0) == 0
    requires forall k | 0 <= k < n && HasTag(kind, BlockAt(data, k)) ::
               && count(k + 1) == count(k) + 1 && BLOCK * count(k) + BLOCK <= |src|
               && BlockAt(data, k) == BlockAt(src, count(k))
    requires forall k | 0 <= k < n && !HasTag(kind, BlockAt(data, k)) :: count(k + 1) == count(k)
    ensures BLOCK * count(n) <= |src|
    ensures BlocksOf(kind, data, n) == FirstBlocks(src, count(n))
  {
    hide HasTag, BlockAt;
    if n > 0 {
      Collect(kind, src, data, n - 1, count);
      if HasTag(kind, BlockAt(data, n - 1)) {
        assert count(n) == count(n - 1) + 1;
      } else {
        assert count(n) == count(n - 1);
      }
    }
  }

  lemma NoneBefore(g: nat, h: nat)
    ensures TextBefore(0) == 0 && GpsBefore(0, g) == 0 && HeaderBefore(0, g, h) == 0
  {
  }

  // The blocks of each kind come out once each and in order, however far the
  // interleaving has got.

  lemma TextStep(t: seq<byte>, s: seq<byte>, e: seq<byte>, g: nat, h: nat, k: nat, b: seq<byte>)
    requires s != [] && |e| == RadioHeader.LENGTH && BLOCK * g <= |GpsImage(s)| && h <= 9
    requires b == SourceBlock(TextImage(t), GpsImage(s), HeaderImage(e), g, h, k)
    ensures HasTag(TEXT, b) ==>
              && TextBefore(k + 1) == TextBefore(k) + 1 && BLOCK * TextBefore(k) + BLOCK <= |TextImage(t)|
              && b == BlockAt(TextImage(t), TextBefore(k))
    ensures !HasTag(TEXT, b) ==> TextBefore(k + 1) == TextBefore(k)
  {
    hide TextImage, GpsImage, HeaderImage, HasTag, BlockAt, OriginOf, TextBefore, GpsBefore, HeaderBefore;
    SourceTags(t, s, e, g, h, k);
    NextOrigin(g, h, k);
  }

  lemma TextOnce(t: seq<byte>, s: seq<byte>, e: seq<byte>, g: nat, h: nat, data: seq<byte>, n: nat)
    requires s != [] && |e| == RadioHeader.LENGTH && BLOCK * g <= |GpsImage(s)| && h <= 9
    requires BLOCK * n <= |data| && Interleaved(TextImage(t), GpsImage(s), HeaderImage(e), g, h, data, n)
    ensures BlocksOf(TEXT, data, n) == FirstBlocks(TextImage(t), TextBefore(n))
  {
    hide TextImage, GpsImage, HeaderImage, HasTag, BlockAt, BlocksOf, FirstBlocks, SourceBlock, TextBefore, GpsBefore,
         HeaderBefore;
    NoneBefore(g, h);
    forall k: nat | k < n {
      TextStep(t, s, e, g, h, k, BlockAt(data, k));
    }
    Collect(TEXT, TextImage(t), data, n, (k: nat) => TextBefore(k));
  }

  lemma GpsStep(t: seq<byte>, s: seq<byte>, e: seq<byte>, g: nat, h: nat, k: nat, b: seq<byte>)
    requires s != [] && |e| == RadioHeader.LENGTH && BLOCK * g <= |GpsImage(s)| && h <= 9
    requires b == SourceBlock(TextImage(t), GpsImage(s), HeaderImage(e), g, h, k)
    ensures HasTag(GPS, b) ==>
              && GpsBefore(k + 1, g) == GpsBefore(k, g) + 1 && BLOCK * GpsBefore(k, g) + BLOCK <= |GpsImage(s)|
              && b == BlockAt(GpsImage(s), GpsBefore(k, g))
    ensures !HasTag(GPS, b) ==> GpsBefore(k + 1, g) == GpsBefore(k, g)
  {
    hide TextImage, GpsImage, HeaderImage, HasTag, BlockAt, OriginOf, TextBefore, GpsBefore, HeaderBefore;
    SourceTags(t, s, e, g, h, k);
    NextOrigin(g, h, k);
  }

  lemma GpsOnce(t: seq<byte>, s: seq<byte>, e: seq<byte>, g: nat, h: nat, data: seq<byte>, n: nat)
    requires s != [] && |e| == RadioHeader.LENGTH && BLOCK * g <= |GpsImage(s)| && h <= 9
    requires BLOCK * n <= |data| && Interleaved(TextImage(t), GpsImage(s), HeaderImage(e), g, h, data, n)
    ensures BlocksOf(GPS, data, n) == FirstBlocks(GpsImage(s), GpsBefore(n, g))
  {
    hide TextImage, GpsImage, HeaderImage, HasTag, BlockAt, BlocksOf, FirstBlocks, SourceBlock, TextBefore, GpsBefore,
         HeaderBefore;
    NoneBefore(g, h);
    forall k: nat | k < n {
      GpsStep(t, s, e, g, h, k, BlockAt(data, k));
    }
    Collect(GPS, GpsImage(s), data, n, (k: nat) => GpsBefore(k, g));
  }

  lemma HeaderStep(t: seq<byte>, s: seq<byte>, e: seq<byte>, g: nat, h: nat, k: nat, b: seq<byte>)
    requires s != [] && |e| == RadioHeader.LENGTH && BLOCK * g <= |GpsImage(s)| && h <= 9
    requires b == SourceBlock(TextImage(t), GpsImage(s), HeaderImage(e), g, h, k)
    ensures HasTag(HEADER, b) ==>
              && HeaderBefore(k + 1, g, h) == HeaderBefore(k, g, h) + 1
              && BLOCK * HeaderBefore(k, g, h) + BLOCK <= |HeaderImage(e)|
              && b == BlockAt(HeaderImage(e), HeaderBefore(k, g, h))
    ensures !HasTag(HEADER, b) ==> HeaderBefore(k + 1, g, h) == HeaderBefore(k, g, h)
  {
    hide TextImage, GpsImage, HeaderImage, HasTag, BlockAt, OriginOf, TextBefore, GpsBefore, HeaderBefore;
    SourceTags(t, s, e, g, h, k);
    NextOrigin(g, h, k);
  }

  lemma HeaderOnce(t: seq<byte>, s: seq<byte>, e: seq<byte>, g: nat, h: nat, data: seq<byte>, n: nat)
    requires s != [] && |e| == RadioHeader.LENGTH && BLOCK * g <= |GpsImage(s)| && h <= 9
    requires BLOCK * n <= |data| && Interleaved(TextImage(t), GpsImage(s), HeaderImage(e), g, h, data, n)
    ensures BlocksOf(HEADER, data, n) == FirstBlocks(HeaderImage(e), HeaderBefore(n, g, h))
  {
    hide TextImage, GpsImage, HeaderImage, HasTag, BlockAt, BlocksOf, FirstBlocks, SourceBlock, TextBefore, GpsBefore,
         HeaderBefore;
    NoneBefore(g, h);
    forall k: nat | k < n {
      HeaderStep(t, s, e, g, h, k, BlockAt(data, k));
    }
    Collect(HEADER, HeaderImage(e), data, n, (k: nat) => HeaderBefore(k, g, h));
  }

  lemma FillerBlock(b: seq<byte>)
    requires b == [FILLER, FILLER, FILLER, FILLER, FILLER, FILLER]
    ensures !HasTag(TEXT, b) && !HasTag(GPS, b) && !HasTag(HEADER, b)
  {
  }

  /** The GPS blocks that interleaving copies. */
  function GpsBlocks(n: nat): (b: nat)
    ensures n > 0 ==> BLOCK * b <= RoundUp(GpsSize(n))
  {
    CeilDiv(GpsSize(n), BLOCK)
  }

  /** Interleaving loses no block: every text block, every GPS block up to the
      recorded size and every header block is there exactly once, in order, and
      text and header are recovered whole. Of the GPS string it keeps the
      characters in the blocks copied, all of them exactly when those blocks
      hold five characters each for the whole string. */
  lemma InterleavingLosesNothing(t: seq<byte>, s: seq<byte>, e: seq<byte>, h: nat, data: seq<byte>)
    requires s != [] && |e| == RadioHeader.LENGTH && h in {0, 9}
    requires |data| == RoundUp(TEXT_SIZE + GpsSize(|s|) + BLOCK * h)
    requires Interleaved(TextImage(t), GpsImage(s), HeaderImage(e), GpsBlocks(|s|), h, data, |data| / BLOCK)
    ensures Payload(TEXT, data) == Padded(t)
    ensures Payload(HEADER, data) == if h == 9 then e else []
    ensures Payload(GPS, data) == s[..Min(|s|, 5 * GpsBlocks(|s|))]
    ensures Payload(GPS, data) == s <==> |s| <= 5 * GpsBlocks(|s|)
    ensures |BlocksOf(TEXT, data, |data| / BLOCK)| == 4
    ensures |BlocksOf(GPS, data, |data| / BLOCK)| == GpsBlocks(|s|)
    ensures |BlocksOf(HEADER, data, |data| / BLOCK)| == h
  {
    hide TextImage, GpsImage, HeaderImage, Interleaved, BlocksOf, FirstBlocks, Joined, Padded;
    var n, g := |data| / BLOCK, GpsBlocks(|s|);
    assert n >= 4 + g + h && n >= 7 by {
      Room(GpsSize(|s|), h);
    }
    TextOnce(t, s, e, g, h, data, n);
    GpsOnce(t, s, e, g, h, data, n);
    HeaderOnce(t, s, e, g, h, data, n);
    TextPayload(t);
    GpsGather(s, g);
    HeaderPayload(e);
    NothingJoined();
  }

  /** So interleaving loses the last of 36 characters, which the GPS data by
      itself would keep. */
  lemma InterleavingLosesACharacter(t: seq<byte>, s: seq<byte>, e: seq<byte>, data: seq<byte>)
    requires |s| == 36 && |e| == RadioHeader.LENGTH
    requires |data| == RoundUp(TEXT_SIZE + GpsSize(36))
    requires Interleaved(TextImage(t), GpsImage(s), HeaderImage(e), GpsBlocks(36), 0, data, |data| / BLOCK)
    ensures Payload(GPS, data) == s[..35] && Payload(GPS, GpsImage(s)) == s
  {
    hide TextImage, GpsImage, HeaderImage, Interleaved, BlocksOf, Joined, Payload;
    InterleavingLosesNothing(t, s, e, 0, data);
    GpsPayload(s);
  }

  lemma Room(size: nat, h: nat)
    requires size > 0
    ensures RoundUp(TEXT_SIZE + size + BLOCK * h) / BLOCK >= 4 + CeilDiv(size, BLOCK) + h
    ensures RoundUp(TEXT_SIZE + size + BLOCK * h) / BLOCK >= 7
  {
  }

  // ---- the encoder object ----

  lemma BlockBytes(image: seq<byte>, k: nat, tag: byte, s: seq<byte>)
    requires |s| == 5 && BLOCK * k + BLOCK <= |image| && [tag] + s == BlockAt(image, k)
    ensures var at := BLOCK * k;
            && image[at] == tag && image[at + 1] == s[0] && image[at + 2] == s[1]
            && image[at + 3] == s[2] && image[at + 4] == s[3] && image[at + 5] == s[4]
  {
    var b := BlockAt(image, k);
    assert b[0] == tag && b[1] == s[0] && b[2] == s[1] && b[3] == s[2] && b[4] == s[3] && b[5] == s[4];
  }

  /** Writes block k, the next block of the image being built. */
  method PutBlock(a: array<byte>, k: nat, tag: byte, s: seq<byte>, ghost image: seq<byte>)
    requires |s| == 5 && BLOCK * k + BLOCK <= a.Length == |image|
    requires [tag] + s == BlockAt(image, k)
    requires forall i | 0 <= i < BLOCK * k :: a[i] == image[i]
    modifies a
    ensures forall i | 0 <= i < BLOCK * k + BLOCK :: a[i] == image[i]
    ensures forall i | BLOCK * k + BLOCK <= i < a.Length :: a[i] == old(a[i])
  {
    var at := BLOCK * k;
    a[at], a[at + 1], a[at + 2], a[at + 3], a[at + 4], a[at + 5] := tag, s[0], s[1], s[2], s[3], s[4];
    BlockBytes(image, k, tag, s);
  }

  method CopyBlock(to: array<byte>, at: nat, from: array<byte>, start: nat)
    requires at + BLOCK <= to.Length && start + BLOCK <= from.Length && to != from
    modifies to
    ensures to[at..at + BLOCK] == from[start..start + BLOCK]
    ensures forall i | 0 <= i < to.Length && !(at <= i < at + BLOCK) :: to[i] == old(to[i])
  {
    forall i | 0 <= i < BLOCK {
      to[at + i] := from[start + i];
    }
  }

  lemma BodyGroups(f: RadioHeader.Fields)
    requires f.Sized()
    ensures var b := RadioHeader.Body(f);
            && b[..5] == [f.flag1, f.flag2, f.flag3, f.rpt2[0], f.rpt2[1]]
            && b[5..10] == [f.rpt2[2], f.rpt2[3], f.rpt2[4], f.rpt2[5], f.rpt2[6]]
            && b[10..15] == [f.rpt2[7], f.rpt1[0], f.rpt1[1], f.rpt1[2], f.rpt1[3]]
            && b[15..20] == [f.rpt1[4], f.rpt1[5], f.rpt1[6], f.rpt1[7], f.your[0]]
            && b[20..25] == [f.your[1], f.your[2], f.your[3], f.your[4], f.your[5]]
            && b[25..30] == [f.your[6], f.your[7], f.my1[0], f.my1[1], f.my1[2]]
            && b[30..35] == [f.my1[3], f.my1[4], f.my1[5], f.my1[6], f.my1[7]]
            && b[35..39] == [f.my2[0], f.my2[1], f.my2[2], f.my2[3]]
  {
  }

  lemma FcsNothing(crc: bv16)
    ensures Fcs(crc, []) == crc
  {
  }

  class CSlowDataEncoder {
    var headerData: array?<byte>
    var textData: array?<byte>
    var gpsData: array?<byte>
    var interleavedData: array?<byte>
    var headerPtr: nat
    var textPtr: nat
    var gpsPtr: nat
    var interleavedPtr: nat
    var gpsDataSize: nat
    var gpsDataFullSize: nat

    /** The buffers are separate and have the sizes recorded for them, and every
        read pointer stands at a three-byte boundary inside its buffer. */
    ghost predicate Valid()
      reads this
    {
      && (headerData != null ==> headerData.Length == FULL && headerData != textData && headerData != gpsData)
      && (textData != null ==> textData.Length == FULL && textData != gpsData)
      && (gpsData != null ==> gpsDataSize > 0 && gpsData.Length == gpsDataFullSize == RoundUp(gpsDataSize))
      && (headerData != null ==> headerPtr % 3 == 0 && headerPtr < FULL)
      && (textData != null ==> textPtr % 3 == 0 && textPtr < FULL)
      && (gpsData != null ==> gpsPtr % 3 == 0 && gpsPtr < gpsDataFullSize)
    }

    constructor ()
      ensures Valid()
      ensures headerData == null && textData == null && gpsData == null && interleavedData == null
    {
      headerData, textData, gpsData, interleavedData := null, null, null, null;
      headerPtr, textPtr, gpsPtr, interleavedPtr := 0, 0, 0, 0;
      gpsDataSize, gpsDataFullSize := 0, 0;
    }

    /** Three scrambled bytes from a buffer, or from the three filler bytes when
        there is none. */
    static method Get(source: array?<byte>, ptr: nat, length: nat) returns (data: seq<byte>, next: nat)
      requires ptr + 3 <= if source != null then source.Length else |FILLER_BYTES|
      ensures data == Scramble(if source != null then source[ptr..ptr + 3] else FILLER_BYTES[ptr..ptr + 3])
      ensures source != null ==> Masked(source[ptr..ptr + 3], data)
      ensures source == null ==> data == NULL_SLOW_DATA
      ensures next == NextPtr(ptr, length)
    {
      hide Masked;
      if source != null {
        ScrambleMasks(source[ptr..ptr + 3]);
        data := Scramble(source[ptr..ptr + 3]);
      } else {
        NullSlowData();
        data := Scramble(FILLER_BYTES[ptr..ptr + 3]);
      }
      next := ptr + 3;
      if next >= length {
        next := 0;
      }
    }

    /** One more read: with Reads, a whole round of reads is what ReadsBack is
        about. Without a header only the first read stays inside the filler. */
    method GetHeaderData() returns (data: seq<byte>)
      requires Valid() && (headerData == null ==> headerPtr == 0)
      modifies this`headerPtr
      ensures Valid()
      ensures headerData != null ==> Masked(headerData[old(headerPtr)..old(headerPtr) + 3], data)
      ensures headerData != null ==> data == Reads(headerData[..], old(headerPtr), 1)
      ensures headerData == null ==> data == NULL_SLOW_DATA
      ensures headerPtr == NextPtr(old(headerPtr), FULL)
    {
      hide Reads, RoundUp, Scramble, Masked;
      if headerData != null {
        OneRead(headerData[..], headerPtr);
      }
      data, headerPtr := Get(headerData, headerPtr, FULL);
    }

    method GetTextData() returns (data: seq<byte>)
      requires Valid() && (textData == null ==> textPtr == 0)
      modifies this`textPtr
      ensures Valid()
      ensures textData != null ==> Masked(textData[old(textPtr)..old(textPtr) + 3], data)
      ensures textData != null ==> data == Reads(textData[..], old(textPtr), 1)
      ensures textData == null ==> data == NULL_SLOW_DATA
      ensures textPtr == NextPtr(old(textPtr), FULL)
    {
      hide Reads, RoundUp, Scramble, Masked;
      if textData != null {
        OneRead(textData[..], textPtr);
      }
      data, textPtr := Get(textData, textPtr, FULL);
    }

    method GetGPSData() returns (data: seq<byte>)
      requires Valid() && (gpsData == null ==> gpsPtr == 0)
      modifies this`gpsPtr
      ensures Valid()
      ensures gpsData != null ==> Masked(gpsData[old(gpsPtr)..old(gpsPtr) + 3], data)
      ensures gpsData != null ==> data == Reads(gpsData[..], old(gpsPtr), 1)
      ensures gpsData == null ==> data == NULL_SLOW_DATA
      ensures gpsPtr == NextPtr(old(gpsPtr), gpsDataFullSize)
    {
      hide Reads, RoundUp, Scramble, Masked;
      if gpsData != null {
        OneRead(gpsData[..], gpsPtr);
      }
      data, gpsPtr := Get(gpsData, gpsPtr, gpsDataFullSize);
    }

    method ClearInterleavedData()
      modifies this`interleavedData, this`interleavedPtr
      ensures interleavedData == null
    {
      if interleavedData != null {
        interleavedData := null;
        interleavedPtr := 0;
      }
    }

    method SetHeaderData(f: RadioHeader.Fields)
      requires Valid() && f.Sized()
      modifies this, headerData
      ensures Valid() && headerData != null && headerPtr == 0 && interleavedData == null
      ensures headerData[..] == HeaderImage(RadioHeader.Encoded(f))
      ensures headerData == old(headerData) || fresh(headerData)
      ensures unchanged(`textData) && unchanged(`gpsData) && unchanged(`textPtr) && unchanged(`gpsPtr)
      ensures unchanged(`gpsDataSize) && unchanged(`gpsDataFullSize)
    {
      ClearInterleavedData();
      if headerData == null {
        headerData := new byte[FULL];
      }
      headerPtr := 0;
      var h := headerData;
      FillHeader(h, f);
    }

    /** Writes the blocks, then the checksum computed over the written bytes in
        eight pieces. */
    static method FillHeader(h: array<byte>, f: RadioHeader.Fields)
      requires h.Length == FULL && f.Sized()
      modifies h
      ensures h[..] == HeaderImage(RadioHeader.Encoded(f))
    {
      hide Fcs, Sum, HeaderByte, HeaderImage, RadioHeader.Encoded, RadioHeader.Body;
      ghost var image := HeaderImage(RadioHeader.Encoded(f));
      forall i | 0 <= i < FULL {
        h[i] := FILLER;
      }
      WriteBody(h, f);
      WriteLast(h, f);
      assert h[..] == image;
    }

    /** The rest of the second callsign, and the checksum around the last tag. */
    static method WriteLast(h: array<byte>, f: RadioHeader.Fields)
      requires h.Length == FULL && f.Sized()
      requires forall i | 0 <= i < 42 :: h[i] == HeaderImage(RadioHeader.Encoded(f))[i]
      requires forall i | 42 <= i < FULL :: h[i] == FILLER
      modifies h
      ensures forall i | 0 <= i < FULL :: h[i] == HeaderImage(RadioHeader.Encoded(f))[i]
    {
      hide Fcs, Sum, HeaderByte, HeaderImage, RadioHeader.Encoded, RadioHeader.Body;
      LastGroup(f);
      h[42], h[43], h[44], h[45], h[46] := 0x55, f.my2[0], f.my2[1], f.my2[2], f.my2[3];
      var sum := SumOfBody(h, f);
      h[47], h[48], h[49] := sum[0], 0x51, sum[1];
    }

    static lemma LastGroup(f: RadioHeader.Fields)
      requires f.Sized()
      ensures var image, sum := HeaderImage(RadioHeader.Encoded(f)), Sum(Fcs(INITIAL, RadioHeader.Body(f)));
              && image[42] == 0x55 && image[43] == f.my2[0] && image[44] == f.my2[1]
              && image[45] == f.my2[2] && image[46] == f.my2[3] && image[47] == sum[0]
              && image[48] == 0x51 && image[49] == sum[1]
              && forall i | 50 <= i < FULL :: image[i] == FILLER
    {
      hide Fcs, Sum;
      BodyGroups(f);
      var b, e := RadioHeader.Body(f), RadioHeader.Encoded(f);
      assert e[35..39] == b[35..39];
      assert e[35] == b[35..39][0] && e[36] == b[35..39][1] && e[37] == b[35..39][2] && e[38] == b[35..39][3];
    }

    static lemma HeaderGroup(f: RadioHeader.Fields, k: nat)
      requires f.Sized() && k < 7
      ensures [0x55] + RadioHeader.Body(f)[5 * k..5 * k + 5] == BlockAt(HeaderImage(RadioHeader.Encoded(f)), k)
    {
      hide Fcs, Sum, HeaderImage, RadioHeader.Body, BlockAt;
      var b, e := RadioHeader.Body(f), RadioHeader.Encoded(f);
      assert e[..39] == b;
      HeaderGroupOf(e, k);
      assert e[5 * k..5 * k + 5] == e[..39][5 * k..5 * k + 5];
    }

    static method WriteBody(h: array<byte>, f: RadioHeader.Fields)
      requires h.Length == FULL && f.Sized()
      modifies h
      ensures forall i | 0 <= i < 42 :: h[i] == HeaderImage(RadioHeader.Encoded(f))[i]
      ensures forall i | 42 <= i < FULL :: h[i] == old(h[i])
    {
      hide HeaderImage, RadioHeader.Body, RadioHeader.Encoded;
      ghost var image := HeaderImage(RadioHeader.Encoded(f));
      BodyGroups(f);
      forall k: nat | k < 7 {
        HeaderGroup(f, k);
      }
      ghost var b := RadioHeader.Body(f);
      assert [0x55] + b[..5] == BlockAt(image, 0);
      PutBlock(h, 0, 0x55, [f.flag1, f.flag2, f.flag3, f.rpt2[0], f.rpt2[1]], image);
      assert [0x55] + b[5..10] == BlockAt(image, 1);
      PutBlock(h, 1, 0x55, [f.rpt2[2], f.rpt2[3], f.rpt2[4], f.rpt2[5], f.rpt2[6]], image);
      assert [0x55] + b[10..15] == BlockAt(image, 2);
      PutBlock(h, 2, 0x55, [f.rpt2[7], f.rpt1[0], f.rpt1[1], f.rpt1[2], f.rpt1[3]], image);
      assert [0x55] + b[15..20] == BlockAt(image, 3);
      PutBlock(h, 3, 0x55, [f.rpt1[4], f.rpt1[5], f.rpt1[6], f.rpt1[7], f.your[0]], image);
      assert [0x55] + b[20..25] == BlockAt(image, 4);
      PutBlock(h, 4, 0x55, [f.your[1], f.your[2], f.your[3], f.your[4], f.your[5]], image);
      assert [0x55] + b[25..30] == BlockAt(image, 5);
      PutBlock(h, 5, 0x55, [f.your[6], f.your[7], f.my1[0], f.my1[1], f.my1[2]], image);
      assert [0x55] + b[30..35] == BlockAt(image, 6);
      PutBlock(h, 6, 0x55, [f.my1[3], f.my1[4], f.my1[5], f.my1[6], f.my1[7]], image);
    }

    static method SumOfBody(h: array<byte>, f: RadioHeader.Fields) returns (sum: seq<byte>)
      requires h.Length == FULL && f.Sized()
      requires forall i | 0 <= i < 47 :: h[i] == HeaderImage(RadioHeader.Encoded(f))[i]
      ensures sum == Sum(Fcs(INITIAL, RadioHeader.Body(f)))
    {
      hide Fcs, Sum;
      ghost var b := RadioHeader.Body(f);
      var cksum := new CCITTChecksum();
      FcsConcat(INITIAL, b[..0], []);
      FcsNothing(INITIAL);
      for k := 0 to 7
        invariant fresh(cksum) && cksum.crc == Fcs(INITIAL, b[..5 * k])
      {
        cksum.Update(h[6 * k + 1..6 * k + 6]);
        HeaderGroup(f, k);
        assert h[6 * k..6 * k + 6] == BlockAt(HeaderImage(RadioHeader.Encoded(f)), k);
        assert h[6 * k + 1..6 * k + 6] == h[6 * k..6 * k + 6][1..];
        assert h[6 * k + 1..6 * k + 6] == b[5 * k..5 * k + 5];
        FcsConcat(INITIAL, b[..5 * k], b[5 * k..5 * k + 5]);
        assert b[..5 * k] + b[5 * k..5 * k + 5] == b[..5 * (k + 1)];
      }
      cksum.Update(h[43..47]);
      LastGroup(f);
      BodyGroups(f);
      assert h[43..47] == b[35..39];
      FcsConcat(INITIAL, b[..35], b[35..39]);
      assert b[..35] + b[35..39] == b;
      sum := cksum.Result();
    }

    method SetTextData(text: seq<byte>)
      requires Valid()
      modifies this, textData
      ensures Valid() && textData != null && textPtr == 0 && interleavedData == null
      ensures textData[..] == TextImage(text)
      ensures textData == old(textData) || fresh(textData)
      ensures unchanged(`headerData) && unchanged(`gpsData) && unchanged(`headerPtr) && unchanged(`gpsPtr)
      ensures unchanged(`gpsDataSize) && unchanged(`gpsDataFullSize)
    {
      ClearInterleavedData();
      if textData == null {
        textData := new byte[FULL];
      }
      var t, p := textData, Padded(text);
      forall i | 0 <= i < FULL {
        t[i] := FILLER;
      }
      FillText(t, p);
      textPtr := 0;
    }

    static method FillText(t: array<byte>, p: seq<byte>)
      requires t.Length == FULL && |p| == 20
      requires forall i | 0 <= i < FULL :: t[i] == FILLER
      modifies t
      ensures forall i | 0 <= i < FULL :: t[i] == TextByte(p, i)
    {
      hide TextByte, BlockAt;
      ghost var image := seq(FULL, i requires 0 <= i < FULL => TextByte(p, i));
      TextGroupOf(p, image, 0);
      TextGroupOf(p, image, 1);
      TextGroupOf(p, image, 2);
      TextGroupOf(p, image, 3);
      assert p[0..5] == [p[0], p[1], p[2], p[3], p[4]] && p[5..10] == [p[5], p[6], p[7], p[8], p[9]];
      assert p[10..15] == [p[10], p[11], p[12], p[13], p[14]] && p[15..20] == [p[15], p[16], p[17], p[18], p[19]];
      PutBlock(t, 0, 0x40, [p[0], p[1], p[2], p[3], p[4]], image);
      PutBlock(t, 1, 0x41, [p[5], p[6], p[7], p[8], p[9]], image);
      PutBlock(t, 2, 0x42, [p[10], p[11], p[12], p[13], p[14]], image);
      PutBlock(t, 3, 0x43, [p[15], p[16], p[17], p[18], p[19]], image);
      TextFillers(p);
    }

    static lemma TextFillers(p: seq<byte>)
      requires |p| == 20
      ensures forall i | 24 <= i < FULL :: TextByte(p, i) == FILLER
    {
    }

    /** The loop ends, stays inside the buffer and writes the GPS image. With an
        empty string the old buffer is deleted but its pointer kept; that is
        called only when there is none. */
    method SetGPSData(s: seq<byte>)
      requires Valid()
      requires s == [] ==> gpsData == null
      requires GpsSize(|s|) + FULL < 0x1_0000_0000
      modifies this
      ensures Valid() && interleavedData == null && gpsPtr == 0 && gpsDataSize == GpsSize(|s|)
      ensures s != [] ==> gpsData != null && fresh(gpsData) && gpsData[..] == GpsImage(s)
      ensures s == [] ==> gpsData == null
      ensures unchanged(`headerData) && unchanged(`textData) && unchanged(`headerPtr) && unchanged(`textPtr)
    {
      ClearInterleavedData();
      gpsDataSize := 0;
      gpsPtr := 0;
      if |s| > 0 {
        gpsDataSize := 1 + (|s| - 1) / 6;
        gpsDataSize := gpsDataSize + |s|;
        gpsDataFullSize := FULL * (1 + (gpsDataSize - 1) / FULL);
        gpsData := new byte[gpsDataFullSize](_ => FILLER);
        FillGPS(gpsData, s);
      }
    }

    static method FillGPS(g: array<byte>, s: seq<byte>)
      requires s != [] && g.Length == RoundUp(GpsSize(|s|))
      modifies g
      ensures g[..] == GpsImage(s)
    {
      hide GpsByte, GpsTag, GpsImage, RoundUp, GpsSize;
      NoCharacters();
      var pos, strPos := 0, 0;
      while pos < g.Length
        invariant pos <= g.Length && strPos <= |s|
        invariant strPos < |s| ==> pos % BLOCK == 0 && strPos == 5 * (pos / BLOCK)
        invariant strPos == |s| ==> forall i | pos <= i < g.Length :: GpsByte(s, i) == 0x30
        invariant forall i | 0 <= i < pos :: g[i] == GpsByte(s, i)
        decreases g.Length - pos
      {
        var dataLen := if |s| - strPos < 5 then |s| - strPos else 5;
        if strPos < |s| {
          RoomForBlock(pos, g.Length);
          GpsBlockBytes(s, pos / BLOCK, g.Length);
        }
        g[pos] := GpsTag(dataLen);
        pos := pos + 1;
        pos, strPos := CopyCharacters(g, pos, s, strPos, dataLen);
      }
      IsGpsImage(g[..], s);
    }

    static lemma RoomForBlock(pos: nat, length: nat)
      requires pos % BLOCK == 0 && length % BLOCK == 0 && pos < length
      ensures pos + BLOCK <= length
    {
    }

    static lemma NoCharacters()
      ensures GpsTag(0) == 0x30
    {
    }

    static lemma IsGpsImage(g: seq<byte>, s: seq<byte>)
      requires s != [] && |g| == RoundUp(GpsSize(|s|))
      requires forall i | 0 <= i < |g| :: g[i] == GpsByte(s, i)
      ensures g == GpsImage(s)
    {
    }

    static method CopyCharacters(g: array<byte>, start: nat, s: seq<byte>, from: nat, n: nat)
      returns (pos: nat, strPos: nat)
      requires start + n <= g.Length && from + n <= |s|
      modifies g
      ensures pos == start + n && strPos == from + n
      ensures forall i | start <= i < start + n :: g[i] == s[i - start + from]
      ensures forall i | 0 <= i < g.Length && !(start <= i < start + n) :: g[i] == old(g[i])
    {
      pos, strPos := start, from;
      for i := 0 to n
        invariant pos == start + i && strPos == from + i
        invariant forall j | start <= j < pos :: g[j] == s[j - start + from]
        invariant forall j | 0 <= j < g.Length && !(start <= j < pos) :: g[j] == old(g[j])
      {
        g[pos] := s[strPos];
        pos := pos + 1;
        strPos := strPos + 1;
      }
    }

    /** Block k of the image, and what follows it when it is the last. */
    static lemma GpsBlockBytes(s: seq<byte>, k: nat, length: nat)
      requires 5 * k < |s|
      ensures var c := Min(5, |s| - 5 * k);
              && GpsByte(s, BLOCK * k) == GpsTag(c)
              && (forall i | BLOCK * k + 1 <= i < BLOCK * k + 1 + c :: GpsByte(s, i) == s[i - k - 1])
              && (5 * k + c == |s| ==> forall i | BLOCK * k + 1 + c <= i < length :: GpsByte(s, i) == 0x30)
    {
    }

    /** What there is to interleave. */
    ghost function PartsSize(): nat
      reads this
    {
      (if textData != null then TEXT_SIZE else 0) + (if headerData != null then HEADER_SIZE else 0)
      + (if gpsData != null then gpsDataSize else 0)
    }

    /** The least number of whole groups that hold all the parts. With nothing to
        interleave the subtraction wraps round, and the length is no use. */
    method GetInterleavedDataLength() returns (length: nat)
      requires Valid()
      requires TEXT_SIZE + HEADER_SIZE + gpsDataSize + FULL < 0x1_0000_0000
      ensures PartsSize() > 0 ==> length % FULL == 0 && PartsSize() <= length < PartsSize() + FULL
      ensures PartsSize() == 0 ==> length == 44
    {
      length := 0;
      if textData != null {
        length := length + TEXT_SIZE;
      }
      if headerData != null {
        length := length + HEADER_SIZE;
      }
      if gpsData != null {
        length := length + gpsDataSize;
      }
      length := FULL * (1 + (length - 1) % 0x1_0000_0000 / FULL) % 0x1_0000_0000;
    }

    /** The length is fixed by what is promised of it. */
    static lemma WholeGroups(size: nat, length: nat)
      requires size > 0 && length % FULL == 0 && size <= length < size + FULL
      ensures length == RoundUp(size)
    {
    }

    static lemma OneGroup(size: nat)
      requires size > 0
      ensures RoundUp(size) >= FULL
    {
    }

    static lemma TwoGroups(length: nat)
      requires length % FULL == 0 && length > FULL
      ensures length >= 2 * FULL
    {
    }

    /** Without text the copy of the GPS data and the header assumes room for two
        sixty-byte groups. */
    method BuildInterleavedData()
      requires Valid()
      requires TEXT_SIZE + HEADER_SIZE + gpsDataSize + FULL < 0x1_0000_0000
      requires textData == null && gpsData != null && headerData != null ==> HEADER_SIZE + gpsDataSize > FULL
      modifies this`interleavedData
      ensures old(interleavedData) != null ==> interleavedData == old(interleavedData)
      ensures interleavedData != null
      ensures old(interleavedData) == null && textData != null && gpsData != null ==>
                var header, h := if headerData != null then headerData[..] else [], if headerData != null then 9 else 0;
                && interleavedData.Length == RoundUp(TEXT_SIZE + gpsDataSize + BLOCK * h)
                && BLOCK * CeilDiv(gpsDataSize, BLOCK) <= gpsData.Length
                && Interleaved(textData[..], gpsData[..], header, CeilDiv(gpsDataSize, BLOCK), h,
                               interleavedData[..], interleavedData.Length / BLOCK)
      ensures old(interleavedData) == null && textData != null && gpsData == null && headerData != null ==>
                interleavedData[..] == textData[..] + headerData[..]
      ensures old(interleavedData) == null && textData == null && gpsData != null && headerData != null ==>
                2 * FULL <= interleavedData.Length && interleavedData[..2 * FULL] == gpsData[..FULL] + headerData[..]
    {
      if interleavedData == null {
        var data := Build();
        interleavedData := data;
      }
    }

    /** A filler buffer of the computed length, with what there is copied in. */
    method Build() returns (data: array<byte>)
      requires Valid()
      requires TEXT_SIZE + HEADER_SIZE + gpsDataSize + FULL < 0x1_0000_0000
      requires textData == null && gpsData != null && headerData != null ==> HEADER_SIZE + gpsDataSize > FULL
      ensures fresh(data)
      ensures textData != null && gpsData != null ==>
                var header, h := if headerData != null then headerData[..] else [], if headerData != null then 9 else 0;
                && data.Length == RoundUp(TEXT_SIZE + gpsDataSize + BLOCK * h)
                && BLOCK * CeilDiv(gpsDataSize, BLOCK) <= gpsData.Length
                && Interleaved(textData[..], gpsData[..], header, CeilDiv(gpsDataSize, BLOCK), h, data[..],
                               data.Length / BLOCK)
      ensures textData != null && gpsData == null && headerData != null ==> data[..] == textData[..] + headerData[..]
      ensures textData == null && gpsData != null && headerData != null ==>
                2 * FULL <= data.Length && data[..2 * FULL] == gpsData[..FULL] + headerData[..]
    {
      hide Interleaved, CeilDiv, RoundUp;
      var length := GetInterleavedDataLength();
      if PartsSize() > 0 {
        WholeGroups(PartsSize(), length);
      }
      if gpsData != null {
        OneGroup(gpsDataSize);
      }
      data := new byte[length](_ => FILLER);
      if textData != null && gpsData != null {
        Interleave(data, textData, gpsData, gpsDataSize, headerData);
      } else if textData != null && gpsData == null && headerData != null {
        CopyTwo(data, textData, headerData);
      } else if textData == null && gpsData != null && headerData != null {
        TwoGroups(length);
        CopyTwo(data, gpsData, headerData);
      }
    }

    static method CopyTwo(to: array<byte>, first: array<byte>, second: array<byte>)
      requires 2 * FULL <= to.Length && FULL <= first.Length && FULL == second.Length && to != first && to != second
      modifies to
      ensures to[..2 * FULL] == first[..FULL] + second[..]
    {
      CopyGroup(to, 0, first);
      CopyGroup(to, FULL, second);
    }

    static method CopyGroup(to: array<byte>, at: nat, from: array<byte>)
      requires at + FULL <= to.Length && FULL <= from.Length && to != from
      modifies to
      ensures forall i | 0 <= i < FULL :: to[at + i] == from[i]
      ensures forall i | 0 <= i < to.Length && !(at <= i < at + FULL) :: to[i] == old(to[i])
    {
      forall i | 0 <= i < FULL {
        to[at + i] := from[i];
      }
    }

    static method Interleave(data: array<byte>, text: array<byte>, gps: array<byte>, gpsSize: nat, header: array?<byte>)
      requires text.Length == FULL && gpsSize > 0 && gps.Length == RoundUp(gpsSize)
      requires header != null ==> header.Length == FULL
      requires data != text && data != gps && data != header
      requires data.Length == RoundUp(TEXT_SIZE + gpsSize + if header != null then HEADER_SIZE else 0)
      requires forall i | 0 <= i < data.Length :: data[i] == FILLER
      modifies data
      ensures BLOCK * CeilDiv(gpsSize, BLOCK) <= gps.Length
      ensures Interleaved(text[..], gps[..], if header != null then header[..] else [], CeilDiv(gpsSize, BLOCK),
                          if header != null then 9 else 0, data[..], data.Length / BLOCK)
    {
      ghost var g, h := CeilDiv(gpsSize, BLOCK), if header != null then 9 else 0;
      ghost var heads := if header != null then header[..] else [];
      hide TextBefore, GpsBefore, HeaderBefore, OriginOf, Interleaved, RoundUp, CeilDiv;
      NoneBefore(g, h);
      GpsRoom(gpsSize, 0);
      WholeBlocks(TEXT_SIZE + gpsSize + if header != null then HEADER_SIZE else 0);
      NothingInterleaved(text[..], gps[..], heads, g, h, data[..]);
      var textPtr, gpsPtr, headerPtr := 0, 0, 0;
      for k := 0 to data.Length / BLOCK
        invariant textPtr == BLOCK * TextBefore(k)
        invariant gpsPtr == BLOCK * GpsBefore(k, g)
        invariant headerPtr == BLOCK * HeaderBefore(k, g, h)
        invariant Interleaved(text[..], gps[..], heads, g, h, data[..], k)
        invariant forall i | BLOCK * k <= i < data.Length :: data[i] == FILLER
      {
        ghost var before := data[..];
        textPtr, gpsPtr, headerPtr :=
          InterleaveBlock(data, k, text, textPtr, gps, gpsPtr, gpsSize, header, headerPtr);
        OneMoreBlock(text[..], gps[..], heads, g, h, before, data[..], k);
      }
    }

    static method InterleaveBlock(data: array<byte>, k: nat, text: array<byte>, textPtr: nat,
                                  gps: array<byte>, gpsPtr: nat, gpsSize: nat, header: array?<byte>, headerPtr: nat)
      returns (textPtr': nat, gpsPtr': nat, headerPtr': nat)
      requires text.Length == FULL && gpsSize > 0 && BLOCK * CeilDiv(gpsSize, BLOCK) <= gps.Length
      requires header != null ==> header.Length == FULL
      requires data != text && data != gps && data != header
      requires BLOCK * k + BLOCK <= data.Length
      requires forall i | BLOCK * k <= i < data.Length :: data[i] == FILLER
      requires textPtr == BLOCK * TextBefore(k)
      requires gpsPtr == BLOCK * GpsBefore(k, CeilDiv(gpsSize, BLOCK))
      requires headerPtr == BLOCK * HeaderBefore(k, CeilDiv(gpsSize, BLOCK), if header != null then 9 else 0)
      modifies data
      ensures textPtr' == BLOCK * TextBefore(k + 1)
      ensures gpsPtr' == BLOCK * GpsBefore(k + 1, CeilDiv(gpsSize, BLOCK))
      ensures headerPtr' == BLOCK * HeaderBefore(k + 1, CeilDiv(gpsSize, BLOCK), if header != null then 9 else 0)
      ensures BlockAt(data[..], k) ==
              SourceBlock(text[..], gps[..], if header != null then header[..] else [], CeilDiv(gpsSize, BLOCK),
                          if header != null then 9 else 0, k)
      ensures forall i | 0 <= i < data.Length && !(BLOCK * k <= i < BLOCK * k + BLOCK) :: data[i] == old(data[i])
    {
      hide TextBefore, GpsBefore, HeaderBefore, OriginOf, CeilDiv;
      ghost var g, h := CeilDiv(gpsSize, BLOCK), if header != null then 9 else 0;
      NextOrigin(g, h, k);
      Guards(g, h, k);
      GpsRoom(gpsSize, GpsBefore(k, g));
      textPtr', gpsPtr', headerPtr' := textPtr, gpsPtr, headerPtr;
      if textPtr < TEXT_SIZE && k % 2 == 0 {
        CopyBlock(data, BLOCK * k, text, textPtr);
        textPtr' := textPtr + BLOCK;
      } else if gpsPtr < gpsSize {
        CopyBlock(data, BLOCK * k, gps, gpsPtr);
        gpsPtr' := gpsPtr + BLOCK;
      } else if header != null && headerPtr < HEADER_SIZE {
        CopyBlock(data, BLOCK * k, header, headerPtr);
        headerPtr' := headerPtr + BLOCK;
      } else {
        assert BlockAt(data[..], k) == [FILLER, FILLER, FILLER, FILLER, FILLER, FILLER];
      }
    }

    /** The loop's tests pick the block's origin. */
    static lemma Guards(g: nat, h: nat, k: nat)
      ensures var o := OriginOf(g, h, k);
              && (TextBefore(k) < 4 && k % 2 == 0 <==> o.FromText?)
              && (!o.FromText? ==> (GpsBefore(k, g) < g <==> o.FromGps?))
              && (!o.FromText? && !o.FromGps? ==> (HeaderBefore(k, g, h) < h <==> o.FromHeader?))
    {
    }

    static lemma GpsRoom(size: nat, x: nat)
      requires size > 0
      ensures BLOCK * x < size <==> x < CeilDiv(size, BLOCK)
      ensures BLOCK * CeilDiv(size, BLOCK) <= RoundUp(size)
    {
    }

    static lemma WholeBlocks(size: nat)
      requires size > 0
      ensures RoundUp(size) % BLOCK == 0
    {
    }

    static lemma NothingInterleaved(text: seq<byte>, gps: seq<byte>, header: seq<byte>, g: nat, h: nat, data: seq<byte>)
      requires |text| == FULL && BLOCK * g <= |gps| && BLOCK * h <= |header|
      ensures Interleaved(text, gps, header, g, h, data, 0)
    {
    }

    static lemma OneMoreBlock(text: seq<byte>, gps: seq<byte>, header: seq<byte>, g: nat, h: nat,
                              before: seq<byte>, after: seq<byte>, k: nat)
      requires |text| == FULL && BLOCK * g <= |gps| && BLOCK * h <= |header|
      requires |before| == |after| && BLOCK * k + BLOCK <= |after|
      requires Interleaved(text, gps, header, g, h, before, k)
      requires forall i | 0 <= i < BLOCK * k :: after[i] == before[i]
      requires BlockAt(after, k) == SourceBlock(text, gps, header, g, h, k)
      ensures Interleaved(text, gps, header, g, h, after, k + 1)
    {
      hide SourceBlock, OriginOf;
      forall j: nat | j < k
        ensures BlockAt(after, j) == BlockAt(before, j)
      {
        assert BLOCK * j + BLOCK <= BLOCK * k;
      }
    }
  }

  // ---- sending a whole header or text ----

  /** Twenty reads of a buffer, three bytes at a time. */
  lemma {:induction false} ReadsMore(source: seq<byte>, ptr: nat, n: nat)
    requires |source| == FULL && ptr % 3 == 0 && ptr + 3 * n < FULL
    ensures Reads(source, ptr, n + 1) == Reads(source, ptr, n) + Reads(source, ptr + 3 * n, 1)
    decreases n
  {
    hide Scramble;
    if n > 0 {
      ReadsMore(source, ptr + 3, n - 1);
      assert NextPtr(ptr, FULL) == ptr + 3;
    } else {
      assert Reads(source, ptr, 0) == [];
    }
  }

  /** Sets a header and reads it out once round: the receiver gets the encoded
      header, accepts it, and has every field back. */
  method SendHeader(e: CSlowDataEncoder, f: RadioHeader.Fields) returns (out: seq<byte>)
    requires e.Valid() && f.Sized()
    modifies e, e.headerData
    ensures |out| == FULL
    ensures Payload(0x50, Descrambled(out)) == RadioHeader.Encoded(f)
    ensures Accepts(Payload(0x50, Descrambled(out))) && RadioHeader.Decoded(Payload(0x50, Descrambled(out))) == f
  {
    hide Reads, Payload, Descrambled, RadioHeader.Encoded, RadioHeader.Decoded, Accepts, HeaderImage;
    e.SetHeaderData(f);
    ghost var image := HeaderImage(RadioHeader.Encoded(f));
    out := [];
    NoReads(image);
    for n := 0 to 20
      invariant e.Valid() && e.headerData != null && e.headerData[..] == image
      invariant e.headerPtr == if n < 20 then 3 * n else 0
      invariant out == Reads(image, 0, n)
    {
      ReadsMore(image, 0, n);
      var data := e.GetHeaderData();
      out := out + data;
    }
    HeaderEndToEnd(f);
  }

  /** The same for a text, of which the receiver gets twenty characters. */
  method SendText(e: CSlowDataEncoder, text: seq<byte>) returns (out: seq<byte>)
    requires e.Valid()
    modifies e, e.textData
    ensures |out| == FULL && Payload(0x40, Descrambled(out)) == Padded(text)
  {
    hide Reads, Payload, Descrambled, TextImage, Padded;
    e.SetTextData(text);
    out := [];
    NoReads(TextImage(text));
    for n := 0 to 20
      invariant e.Valid() && e.textData != null && e.textData[..] == TextImage(text)
      invariant e.textPtr == if n < 20 then 3 * n else 0
      invariant out == Reads(TextImage(text), 0, n)
    {
      ReadsMore(TextImage(text), 0, n);
      var data := e.GetTextData();
      out := out + data;
    }
    TextEndToEnd(text);
  }

  lemma NoReads(source: seq<byte>)
    requires |source| == FULL
    ensures Reads(source, 0, 0) == []
  {
  }
}
