/** A text seen as a row of bits, the highest bit of each byte first, and cut into groups of six. This is
    what section 5.2 of RFC 1341 calls the input of the encoding; uuencoding cuts its lines the same
    way. */
module Sextets {
  import opened BString

  /** Bit i of a byte, counted from the highest. */
  function Bit(b: byte, i: nat): (r: byte)
    requires i < 8
  {
    if i == 0 then b >> 7
    else if i == 1 then (b >> 6) & 1
    else if i == 2 then (b >> 5) & 1
    else if i == 3 then (b >> 4) & 1
    else if i == 4 then (b >> 3) & 1
    else if i == 5 then (b >> 2) & 1
    else if i == 6 then (b >> 1) & 1
    else b & 1
  }

  /** Bit i of a text; the bits behind its end are 0. */
  function BitOf(s: Text, i: nat): byte {
    if i / 8 < |s| then Bit(s[i / 8], i % 8) else 0
  }

  /** The number that six bits in a row make. */
  function Six(a: byte, b: byte, c: byte, d: byte, e: byte, f: byte): byte {
    (a << 5) | (b << 4) | (c << 3) | (d << 2) | (e << 1) | f
  }

  /** The k-th group of six bits of a text. */
  function Sextet(s: Text, k: nat): (r: byte)
    ensures r < 64
  {
    OneBit(s, 6 * k);
    OneBit(s, 6 * k + 1);
    OneBit(s, 6 * k + 2);
    OneBit(s, 6 * k + 3);
    OneBit(s, 6 * k + 4);
    OneBit(s, 6 * k + 5);
    Six(BitOf(s, 6 * k), BitOf(s, 6 * k + 1), BitOf(s, 6 * k + 2),
        BitOf(s, 6 * k + 3), BitOf(s, 6 * k + 4), BitOf(s, 6 * k + 5))
  }

  /** Bit i of a row of six-bit digits. */
  function DigitBit(ds: seq<byte>, i: nat): byte {
    if i / 6 < |ds| then Bit(ds[i / 6], i % 6 + 2) else 0
  }

  /** The j-th group of eight bits of a row of six-bit digits. */
  function Octet(ds: seq<byte>, j: nat): byte {
    (Six(DigitBit(ds, 8 * j), DigitBit(ds, 8 * j + 1), DigitBit(ds, 8 * j + 2),
         DigitBit(ds, 8 * j + 3), DigitBit(ds, 8 * j + 4), DigitBit(ds, 8 * j + 5)) << 2)
    | (DigitBit(ds, 8 * j + 6) << 1) | DigitBit(ds, 8 * j + 7)
  }

  /** The byte at position i, or 0 behind the end. */
  function ByteAt(s: Text, i: nat): byte {
    if i < |s| then s[i] else 0
  }

  // ---------- three bytes are four groups ----------

  lemma ZeroBits()
    ensures forall i :: 0 <= i < 8 ==> Bit(0, i) == 0
  {
  }

  lemma BitIn(s: Text, j: nat, n: nat)
    ensures BitOf(s, 24 * j + n) == Bit(ByteAt(s, 3 * j + n / 8), n % 8)
  {
    hide Bit;
    ZeroBits();
    assert (24 * j + n) / 8 == 3 * j + n / 8 && (24 * j + n) % 8 == n % 8;
  }

  /** Groups 4 * j to 4 * j + 3 hold the bytes from 3 * j to 3 * j + 2. */
  lemma FourSextets(s: Text, j: nat)
    ensures var b0, b1, b2 := ByteAt(s, 3 * j), ByteAt(s, 3 * j + 1), ByteAt(s, 3 * j + 2);
      && Sextet(s, 4 * j) == Group0(b0) && Sextet(s, 4 * j + 1) == Group1(b0, b1)
      && Sextet(s, 4 * j + 2) == Group2(b1, b2) && Sextet(s, 4 * j + 3) == Group3(b2)
  {
    hide Sextet, Six, Bit, ByteAt, Group0, Group1, Group2, Group3;
    SextetBits(s, j, 0);
    SextetBits(s, j, 1);
    SextetBits(s, j, 2);
    SextetBits(s, j, 3);
    SixOf(ByteAt(s, 3 * j), ByteAt(s, 3 * j + 1), ByteAt(s, 3 * j + 2));
  }

  function Group0(b0: byte): byte { b0 >> 2 }
  function Group1(b0: byte, b1: byte): byte { ((b0 & 3) << 4) | (b1 >> 4) }
  function Group2(b1: byte, b2: byte): byte { ((b1 & 15) << 2) | (b2 >> 6) }
  function Group3(b2: byte): byte { b2 & 63 }

  lemma SextetBits(s: Text, j: nat, r: nat)
    requires r < 4
    ensures Sextet(s, 4 * j + r) ==
      Six(BitFrom(s, j, 6 * r), BitFrom(s, j, 6 * r + 1), BitFrom(s, j, 6 * r + 2),
          BitFrom(s, j, 6 * r + 3), BitFrom(s, j, 6 * r + 4), BitFrom(s, j, 6 * r + 5))
  {
    hide Six, BitOf, Bit, ByteAt;
    BitIn(s, j, 6 * r);
    BitIn(s, j, 6 * r + 1);
    BitIn(s, j, 6 * r + 2);
    BitIn(s, j, 6 * r + 3);
    BitIn(s, j, 6 * r + 4);
    BitIn(s, j, 6 * r + 5);
    assert 6 * (4 * j + r) == 24 * j + 6 * r;
  }

  /** Bit n behind the first 3 * j bytes. */
  function BitFrom(s: Text, j: nat, n: nat): byte {
    Bit(ByteAt(s, 3 * j + n / 8), n % 8)
  }

  lemma SixOf(b0: byte, b1: byte, b2: byte)
    ensures Six(Bit(b0, 0), Bit(b0, 1), Bit(b0, 2), Bit(b0, 3), Bit(b0, 4), Bit(b0, 5)) == Group0(b0)
    ensures Six(Bit(b0, 6), Bit(b0, 7), Bit(b1, 0), Bit(b1, 1), Bit(b1, 2), Bit(b1, 3)) == Group1(b0, b1)
    ensures Six(Bit(b1, 4), Bit(b1, 5), Bit(b1, 6), Bit(b1, 7), Bit(b2, 0), Bit(b2, 1)) == Group2(b1, b2)
    ensures Six(Bit(b2, 2), Bit(b2, 3), Bit(b2, 4), Bit(b2, 5), Bit(b2, 6), Bit(b2, 7)) == Group3(b2)
  {
  }

  lemma OneBit(s: Text, i: nat)
    ensures BitOf(s, i) <= 1
  {
  }

  /** Without its first three bytes a text is without its first four groups. */
  lemma SextetShift(s: Text, k: nat)
    requires |s| >= 3
    ensures Sextet(s, k + 4) == Sextet(s[3..], k)
  {
    hide Six, BitOf;
    BitShift(s, 6 * k);
    BitShift(s, 6 * k + 1);
    BitShift(s, 6 * k + 2);
    BitShift(s, 6 * k + 3);
    BitShift(s, 6 * k + 4);
    BitShift(s, 6 * k + 5);
  }

  lemma BitShift(s: Text, i: nat)
    requires |s| >= 3
    ensures BitOf(s, i + 24) == BitOf(s[3..], i)
  {
    hide Bit;
    assert (i + 24) / 8 == i / 8 + 3 && (i + 24) % 8 == i % 8;
  }

  // ---------- four digits are three bytes ----------

  /** The digit at position i, or 0 behind the end. */
  function DigitAt(ds: seq<byte>, i: nat): byte {
    if i < |ds| then ds[i] else 0
  }

  /** The bytes that two neighbouring digits make. */
  function Octet0(d0: byte, d1: byte): byte { (d0 << 2) | (d1 >> 4) }
  function Octet1(d1: byte, d2: byte): byte { (d1 << 4) | (d2 >> 2) }
  function Octet2(d2: byte, d3: byte): byte { (d2 << 6) | d3 }

  lemma FirstOctets(ds: seq<byte>)
    ensures var d0, d1, d2, d3 := DigitAt(ds, 0), DigitAt(ds, 1), DigitAt(ds, 2), DigitAt(ds, 3);
      && (d0 < 64 && d1 < 64 ==> Octet(ds, 0) == Octet0(d0, d1))
      && (d1 < 64 && d2 < 64 ==> Octet(ds, 1) == Octet1(d1, d2))
      && (d2 < 64 && d3 < 64 ==> Octet(ds, 2) == Octet2(d2, d3))
  {
    hide Octet, Eight, Bit, DigitAt;
    OctetBits(ds);
    Eights(DigitAt(ds, 0), DigitAt(ds, 1), DigitAt(ds, 2), DigitAt(ds, 3));
  }

  function Eight(a: byte, b: byte, c: byte, d: byte, e: byte, f: byte, g: byte, h: byte): byte {
    (Six(a, b, c, d, e, f) << 2) | (g << 1) | h
  }

  lemma OctetBits(ds: seq<byte>)
    ensures var d0, d1, d2, d3 := DigitAt(ds, 0), DigitAt(ds, 1), DigitAt(ds, 2), DigitAt(ds, 3);
      && Octet(ds, 0) == Eight(Bit(d0, 2), Bit(d0, 3), Bit(d0, 4), Bit(d0, 5), Bit(d0, 6), Bit(d0, 7), Bit(d1, 2), Bit(d1, 3))
      && Octet(ds, 1) == Eight(Bit(d1, 4), Bit(d1, 5), Bit(d1, 6), Bit(d1, 7), Bit(d2, 2), Bit(d2, 3), Bit(d2, 4), Bit(d2, 5))
      && Octet(ds, 2) == Eight(Bit(d2, 6), Bit(d2, 7), Bit(d3, 2), Bit(d3, 3), Bit(d3, 4), Bit(d3, 5), Bit(d3, 6), Bit(d3, 7))
  {
    hide Bit, Six, DigitBit, DigitAt;
    SixDigitBits(ds, 0);
    SixDigitBits(ds, 1);
    SixDigitBits(ds, 2);
    SixDigitBits(ds, 3);
  }

  lemma SixDigitBits(ds: seq<byte>, k: nat)
    ensures var d := DigitAt(ds, k);
      && DigitBit(ds, 6 * k) == Bit(d, 2) && DigitBit(ds, 6 * k + 1) == Bit(d, 3) && DigitBit(ds, 6 * k + 2) == Bit(d, 4)
      && DigitBit(ds, 6 * k + 3) == Bit(d, 5) && DigitBit(ds, 6 * k + 4) == Bit(d, 6) && DigitBit(ds, 6 * k + 5) == Bit(d, 7)
  {
    hide Bit;
    ZeroBits();
  }

  lemma Eights(d0: byte, d1: byte, d2: byte, d3: byte)
    ensures d1 < 64 ==>
      Eight(Bit(d0, 2), Bit(d0, 3), Bit(d0, 4), Bit(d0, 5), Bit(d0, 6), Bit(d0, 7), Bit(d1, 2), Bit(d1, 3))
      == (d0 << 2) | (d1 >> 4)
    ensures d2 < 64 ==>
      Eight(Bit(d1, 4), Bit(d1, 5), Bit(d1, 6), Bit(d1, 7), Bit(d2, 2), Bit(d2, 3), Bit(d2, 4), Bit(d2, 5))
      == (d1 << 4) | (d2 >> 2)
    ensures d3 < 64 ==>
      Eight(Bit(d2, 6), Bit(d2, 7), Bit(d3, 2), Bit(d3, 3), Bit(d3, 4), Bit(d3, 5), Bit(d3, 6), Bit(d3, 7))
      == (d2 << 6) | d3
  {
    hide Eight, Bit;
    if d1 < 64 { UpperSix(d0, d1); }
    if d2 < 64 { MiddleBits(d1, d2); }
    if d3 < 64 { LowerSix(d2, d3); }
  }

  lemma UpperSix(d0: byte, d1: byte)
    requires d1 < 64
    ensures Eight(Bit(d0, 2), Bit(d0, 3), Bit(d0, 4), Bit(d0, 5), Bit(d0, 6), Bit(d0, 7), Bit(d1, 2), Bit(d1, 3))
            == (d0 << 2) | (d1 >> 4)
  {
  }

  lemma MiddleBits(d1: byte, d2: byte)
    requires d2 < 64
    ensures Eight(Bit(d1, 4), Bit(d1, 5), Bit(d1, 6), Bit(d1, 7), Bit(d2, 2), Bit(d2, 3), Bit(d2, 4), Bit(d2, 5))
            == (d1 << 4) | (d2 >> 2)
  {
  }

  lemma LowerSix(d2: byte, d3: byte)
    requires d3 < 64
    ensures Eight(Bit(d2, 6), Bit(d2, 7), Bit(d3, 2), Bit(d3, 3), Bit(d3, 4), Bit(d3, 5), Bit(d3, 6), Bit(d3, 7))
            == (d2 << 6) | d3
  {
  }

  lemma OctetShift(ds: seq<byte>, j: nat)
    requires |ds| >= 4
    ensures Octet(ds, j + 3) == Octet(ds[4..], j)
  {
    hide Six, DigitBit;
    DigitShift(ds, 8 * j);
    DigitShift(ds, 8 * j + 1);
    DigitShift(ds, 8 * j + 2);
    DigitShift(ds, 8 * j + 3);
    DigitShift(ds, 8 * j + 4);
    DigitShift(ds, 8 * j + 5);
    DigitShift(ds, 8 * j + 6);
    DigitShift(ds, 8 * j + 7);
  }

  lemma DigitShift(ds: seq<byte>, i: nat)
    requires |ds| >= 4
    ensures DigitBit(ds, i + 24) == DigitBit(ds[4..], i)
  {
    hide Bit;
    assert (i + 24) / 6 == i / 6 + 4 && (i + 24) % 6 == i % 6;
  }

  /** The bytes are the groups of eight bits of the digits. */
  predicate AreOctets(t: Text, ds: seq<byte>) {
    forall j: nat :: j < |t| ==> t[j] == Octet(ds, j)
  }

  lemma FewOctets(ds: seq<byte>)
    requires forall k :: 0 <= k < |ds| ==> ds[k] < 64
    ensures |ds| >= 2 ==> Octet(ds, 0) == Octet0(ds[0], ds[1])
    ensures |ds| >= 3 ==> Octet(ds, 1) == Octet1(ds[1], ds[2])
    ensures |ds| >= 4 ==> Octet(ds, 2) == Octet2(ds[2], ds[3])
  {
    hide Octet;
    FirstOctets(ds);
  }

  lemma MoreOctets(bytes: Text, t: Text, ds: seq<byte>)
    requires |bytes| == 3 && |ds| >= 4 && AreOctets(bytes, ds) && AreOctets(t, ds[4..])
    ensures AreOctets(bytes + t, ds)
  {
    hide Octet;
    forall j: nat | j < |bytes + t|
      ensures (bytes + t)[j] == Octet(ds, j)
    {
      if j >= 3 { OctetShift(ds, j - 3); }
    }
  }

  lemma OctetsAre(t: Text, ds: seq<byte>)
    requires AreOctets(t, ds)
    ensures forall j: nat :: j < |t| ==> t[j] == Octet(ds, j)
  {
  }
}
