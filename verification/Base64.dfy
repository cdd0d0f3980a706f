/** Base64 as section 5.2 of RFC 1341 has it: the encoder breaks lines, the decoder skips whatever is no
    symbol. */
module Base64 {
  import opened BString
  import opened Sextets

  const PAD: byte := 0x3D
  const CRLF: Text := [0x0D, 0x0A]
  const LINE := 76

  // ---------- symbols ----------

  /** `b64ETable` */
  function Symbol(v: byte): byte {
    if v < 26 then 0x41 + v
    else if v < 52 then 0x61 + (v - 26)
    else if v < 62 then 0x30 + (v - 52)
    else if v == 62 then 0x2B
    else 0x2F
  }

  predicate IsSymbol(c: byte) {
    0x41 <= c <= 0x5A || 0x61 <= c <= 0x7A || 0x30 <= c <= 0x39 || c == 0x2B || c == 0x2F
  }

  /** `base64DecodeSymbol` on a symbol. */
  function Value(c: byte): byte {
    if 0x41 <= c <= 0x5A then c - 0x41
    else if 0x61 <= c <= 0x7A then 26 + (c - 0x61)
    else if 0x30 <= c <= 0x39 then 52 + (c - 0x30)
    else if c == 0x2B then 62
    else 63
  }

  predicate IsBreak(c: byte) {
    c == 0x0D || c == 0x0A
  }

  lemma SymbolBack(v: byte)
    requires v < 64
    ensures IsSymbol(Symbol(v)) && Value(Symbol(v)) == v && Symbol(v) != PAD && !IsBreak(Symbol(v))
  {
  }

  // ---------- encoding ----------

  function First(b0: byte): byte { Symbol(b0 >> 2) }
  function Second(b0: byte, b1: byte): byte { Symbol(((b0 << 4) | (b1 >> 4)) & 0x3F) }
  function Third(b1: byte, b2: byte): byte { Symbol(((b1 << 2) | (b2 >> 6)) & 0x3F) }
  function Fourth(b2: byte): byte { Symbol(b2 & 0x3F) }

  /** What comes before the symbols of position i: a line break after each 57 bytes. */
  function Break(i: nat): Text {
    if i > 0 && i % 57 == 0 then CRLF else []
  }

  function Quad(b0: byte, b1: byte, b2: byte): (r: Text)
    ensures |r| == 4
  {
    [First(b0), Second(b0, b1), Third(b1, b2), Fourth(b2)]
  }

  /** The last one or two bytes, padded. */
  function Padded(s: Text): (r: Text)
    requires |s| < 3
    ensures |r| == if s == [] then 0 else 4
  {
    if |s| == 2 then [First(s[0]), Second(s[0], s[1]), Third(s[1], 0), PAD]
    else if |s| == 1 then [First(s[0]), Second(s[0], 0), PAD, PAD]
    else []
  }

  /** The encoding of s from position i on. */
  function EncodedFrom(s: Text, i: nat): Text
    requires i <= |s|
    decreases |s| - i
  {
    if i + 2 < |s| then Break(i) + Quad(s[i], s[i + 1], s[i + 2]) + EncodedFrom(s, i + 3)
    else Break(i) + Padded(s[i..])
  }

  function Encoded(s: Text): Text {
    EncodedFrom(s, 0)
  }

  // ---------- decoding ----------

  /** The next position from i on with a symbol or padding, or the end. */
  function Next(b: Text, i: nat): (k: nat)
    requires i <= |b|
    ensures i <= k <= |b| && (k < |b| ==> IsSymbol(b[k]) || b[k] == PAD)
    decreases |b| - i
  {
    if i == |b| || IsSymbol(b[i]) || b[i] == PAD then i else Next(b, i + 1)
  }

  datatype Decoded = Decoded(text: Text, truncated: bool)

  /** What four characters from position i on stand for: nothing more, an end that came too early, one
      or two last bytes, or three bytes and where to go on. */
  datatype Quantum = Nothing | TooEarly | Ending(bytes: Text) | Full(bytes: Text, next: nat)

  function QuantumAt(b: Text, i: nat): (q: Quantum)
    requires i <= |b|
    ensures q.Full? ==> i + 4 <= q.next <= |b| && |q.bytes| == 3
    ensures q.Ending? ==> 1 <= |q.bytes| <= 2 && i < |b|
  {
    var i0 := Next(b, i);
    if i0 == |b| then Nothing else if b[i0] == PAD then TooEarly else
    var i1 := Next(b, i0 + 1);
    if i1 == |b| || b[i1] == PAD then TooEarly else
    QuantumRest(b, i0, i1)
  }

  /** The first two characters are at i0 and i1. */
  function QuantumRest(b: Text, i0: nat, i1: nat): (q: Quantum)
    requires i0 < i1 < |b|
    ensures q.Full? ==> i1 + 3 <= q.next <= |b| && |q.bytes| == 3
    ensures q.Ending? ==> 1 <= |q.bytes| <= 2
  {
    var c0 := Octet0(Value(b[i0]), Value(b[i1]));
    var i2 := Next(b, i1 + 1);
    if i2 == |b| then TooEarly
    else if b[i2] == PAD then
      if i2 + 1 < |b| && b[i2 + 1] == PAD then Ending([c0]) else TooEarly
    else
    var c1 := Octet1(Value(b[i1]), Value(b[i2]));
    var i3 := Next(b, i2 + 1);
    if i3 == |b| then TooEarly
    else if b[i3] == PAD then Ending([c0, c1])
    else Full([c0, c1, Octet2(Value(b[i2]), Value(b[i3]))], i3 + 1)
  }

  /** The text from position i on, and whether it was cut off in the middle of a quantum. */
  function DecodedFrom(b: Text, i: nat): Decoded
    requires i <= |b|
    decreases |b| - i
  {
    match QuantumAt(b, i)
    case Nothing => Decoded([], false)
    case TooEarly => Decoded([], true)
    case Ending(bytes) => Decoded(bytes, false)
    case Full(bytes, next) => var d := DecodedFrom(b, next); Decoded(bytes + d.text, d.truncated)
  }

  // ---------- the round trip ----------

  /** The six-bit parts fit a symbol each, and make the bytes again. */
  lemma BitsBack(b0: byte, b1: byte, b2: byte)
    ensures var v0, v1 := b0 >> 2, ((b0 << 4) | (b1 >> 4)) & 0x3F;
            var v2, v3 := ((b1 << 2) | (b2 >> 6)) & 0x3F, b2 & 0x3F;
            && v0 < 64 && v1 < 64 && v2 < 64 && v3 < 64
            && Octet0(v0, v1) == b0 && Octet1(v1, v2) == b1 && Octet2(v2, v3) == b2
  {
  }

  predicate Clean(c: byte) {
    IsSymbol(c) && c != PAD && !IsBreak(c)
  }

  lemma QuadBack(b0: byte, b1: byte, b2: byte)
    ensures var q := Quad(b0, b1, b2);
            && Clean(q[0]) && Clean(q[1]) && Clean(q[2]) && Clean(q[3])
            && Octet0(Value(q[0]), Value(q[1])) == b0 && Octet1(Value(q[1]), Value(q[2])) == b1
            && Octet2(Value(q[2]), Value(q[3])) == b2
  {
    BitsBack(b0, b1, b2);
    hide Symbol, Value, Octet0, Octet1, Octet2, IsSymbol, IsBreak;
    SymbolBack(b0 >> 2);
    SymbolBack(((b0 << 4) | (b1 >> 4)) & 0x3F);
    SymbolBack(((b1 << 2) | (b2 >> 6)) & 0x3F);
    SymbolBack(b2 & 0x3F);
  }

  lemma NextHere(b: Text, i: nat)
    requires i < |b| && (Clean(b[i]) || b[i] == PAD)
    ensures Next(b, i) == i
  {
  }

  /** A line break is skipped. */
  lemma SkipBreak(pre: Text, i: nat, t: Text)
    ensures Next(pre + Break(i) + t, |pre|) == Next(pre + Break(i) + t, |pre + Break(i)|)
  {
    var b := pre + Break(i) + t;
    if Break(i) != [] {
      assert b[|pre|] == 0x0D && b[|pre| + 1] == 0x0A;
      assert Next(b, |pre|) == Next(b, |pre| + 1) == Next(b, |pre| + 2);
    }
  }

  /** A quad behind a possible line break decodes to its three bytes. */
  lemma QuantumBack(pre: Text, i: nat, b0: byte, b1: byte, b2: byte, t: Text)
    ensures var p := pre + Break(i); var b := p + Quad(b0, b1, b2) + t;
            QuantumAt(b, |pre|) == Full([b0, b1, b2], |p| + 4)
  {
    var p, q := pre + Break(i), Quad(b0, b1, b2);
    var b := p + q + t;
    QuadBack(b0, b1, b2);
    assert b == p + (q + t);
    SkipBreak(pre, i, q + t);
    hide Quad, Clean, Octet0, Octet1, Octet2, Value, Break, Next;
    FourAt(p, q, t);
    NextHere(b, |p|);
    NextHere(b, |p| + 1);
    NextHere(b, |p| + 2);
    NextHere(b, |p| + 3);
    NotPad(q[0]);
    NotPad(q[1]);
    NotPad(q[2]);
    NotPad(q[3]);
  }

  lemma NotPad(c: byte)
    requires Clean(c)
    ensures c != PAD
  {
  }

  /** What a quantum at position k is, given its four characters. */
  lemma QuantumOf(b: Text, i: nat, k: nat)
    requires i <= k && k + 4 <= |b| && Next(b, i) == k
    requires Clean(b[k]) && Clean(b[k + 1]) && (Clean(b[k + 2]) || b[k + 2] == PAD) && b[k + 3] == PAD
    ensures QuantumAt(b, i) ==
      if b[k + 2] == PAD then Ending([Octet0(Value(b[k]), Value(b[k + 1]))])
      else Ending([Octet0(Value(b[k]), Value(b[k + 1])), Octet1(Value(b[k + 1]), Value(b[k + 2]))])
  {
    hide Octet0, Octet1, Octet2, Value;
    NextHere(b, k + 1);
    NextHere(b, k + 2);
    NextHere(b, k + 3);
  }

  /** The padded end decodes to its one or two bytes; a break at the very end adds nothing. */
  lemma EndBack(pre: Text, i: nat, s: Text)
    requires |s| < 3
    ensures DecodedFrom(pre + Break(i) + Padded(s), |pre|) == Decoded(s, false)
  {
    if s == [] {
      EmptyEnd(pre, i);
    } else {
      PaddedEnd(pre, i, s);
    }
  }

  lemma EmptyEnd(pre: Text, i: nat)
    ensures DecodedFrom(pre + Break(i) + Padded([]), |pre|) == Decoded([], false)
  {
    hide Break, IsSymbol, Octet0, Octet1, Octet2, Value;
    SkipBreak(pre, i, []);
    var b := pre + Break(i) + Padded([]);
    assert b == pre + Break(i) + [] && |b| == |pre + Break(i)|;
    assert Next(b, |pre|) == |b|;
  }

  lemma PaddedEnd(pre: Text, i: nat, s: Text)
    requires 0 < |s| < 3
    ensures DecodedFrom(pre + Break(i) + Padded(s), |pre|) == Decoded(s, false)
  {
    hide Clean, Octet0, Octet1, Octet2, Value, Break, Padded, QuantumAt, IsSymbol, Next, DecodedFrom;
    var p, q := pre + Break(i), Padded(s);
    var b := p + q;
    SkipBreak(pre, i, q);
    PaddedParts(s, if |s| == 2 then s[1] else 0);
    FourAt(p, q, []);
    assert b == p + q + [];
    NextHere(b, |p|);
    QuantumOf(b, |pre|, |p|);
    assert s == if |s| == 2 then [s[0], s[1]] else [s[0]];
    DecodedStep(b, |pre|, []);
    NoPrefix(DecodedFrom(b, |pre|).text, s);
  }

  lemma FourAt(p: Text, q: Text, t: Text)
    requires |q| == 4
    ensures var b := p + q + t;
            b[|p|] == q[0] && b[|p| + 1] == q[1] && b[|p| + 2] == q[2] && b[|p| + 3] == q[3]
  {
  }

  lemma NoPrefix(a: Text, b: Text)
    requires [] + a == [] + b
    ensures a == b
  {
    assert [] + a == a && [] + b == b;
  }

  lemma PaddedParts(s: Text, b1: byte)
    requires 0 < |s| < 3 && b1 == (if |s| == 2 then s[1] else 0)
    ensures var q := Padded(s);
            && Clean(q[0]) && Clean(q[1]) && q[3] == PAD && Octet0(Value(q[0]), Value(q[1])) == s[0]
            && (if |s| == 2 then Clean(q[2]) && q[2] != PAD && Octet1(Value(q[1]), Value(q[2])) == s[1] else q[2] == PAD)
  {
    QuadBack(s[0], b1, 0);
    hide First, Second, Third, Fourth, Octet0, Octet1, Octet2, Value, IsSymbol;
  }

  lemma {:induction false} BackFrom(pre: Text, s: Text, i: nat)
    requires i <= |s|
    ensures DecodedFrom(pre + EncodedFrom(s, i), |pre|) == Decoded(s[i..], false)
    decreases |s| - i
  {
    hide *;
    if i + 2 < |s| {
      var p, q, t := pre + Break(i), Quad(s[i], s[i + 1], s[i + 2]), EncodedFrom(s, i + 3);
      QuantumBack(pre, i, s[i], s[i + 1], s[i + 2], t);
      BackFrom(p + q, s, i + 3);
      FromQuad(s, i);
      Assoc(pre, Break(i), q, t);
      Assoc(Break(i), q, t, []);
      Assoc(pre + Break(i), q, t, []);
      DecodedStep(p + q + t, |pre|, []);
      var front := [s[i], s[i + 1], s[i + 2]];
      assert s[i..] == front + s[i + 3..] && [] + front == front;
      NoPrefix(DecodedFrom(p + q + t, |pre|).text, s[i..]);
    } else {
      EndBack(pre, i, s[i..]);
      FromEnd(s, i);
      Assoc(pre, Break(i), Padded(s[i..]), []);
    }
  }

  /** Decoding undoes encoding for every string, and reports no truncation. */
  lemma RoundTrip(s: Text)
    ensures DecodedFrom(Encoded(s), 0) == Decoded(s, false)
  {
    BackFrom([], s, 0);
    assert [] + EncodedFrom(s, 0) == EncodedFrom(s, 0) && s[0..] == s;
  }

  // ---------- the lines ----------

  /** No line of t is longer than allowed, when `used` characters of the first one are already there. */
  predicate Within(t: Text, used: nat)
    decreases |t|
  {
    t == [] || if IsBreak(t[0]) then Within(t[1..], 0) else used < LINE && Within(t[1..], used + 1)
  }

  lemma {:induction false} NoLongRun(t: Text, used: nat, i: nat, j: nat)
    requires Within(t, used) && used <= LINE && i <= j <= |t|
    requires forall k :: i <= k < j ==> !IsBreak(t[k])
    ensures j - i <= LINE && (i == 0 ==> used + j <= LINE)
    decreases |t|
  {
    if j > 0 {
      var next := if IsBreak(t[0]) then 0 else used + 1;
      NoLongRun(t[1..], next, if i == 0 then 0 else i - 1, j - 1);
    }
  }

  /** How many characters of its line the symbols of position i have before them. */
  function Column(i: nat): nat
    requires i % 3 == 0
  {
    i % 57 / 3 * 4
  }

  lemma ColumnNext(i: nat)
    requires i % 3 == 0
    ensures Column(i) + 4 <= LINE && (i + 3) % 3 == 0
    ensures (i + 3) % 57 != 0 ==> Column(i + 3) == Column(i) + 4
  {
    var r := i % 57;
    assert r <= 54;
    if r < 54 { assert (i + 3) % 57 == r + 3; } else { assert (i + 3) % 57 == 0; }
  }

  lemma FourMore(q: Text, t: Text, used: nat)
    requires |q| == 4 && !IsBreak(q[0]) && !IsBreak(q[1]) && !IsBreak(q[2]) && !IsBreak(q[3]) && used + 4 <= LINE
    requires Within(t, used + 4)
    ensures Within(q + t, used)
  {
    hide Within;
    OneMore(q[3], t, used + 3);
    OneMore(q[2], [q[3]] + t, used + 2);
    OneMore(q[1], [q[2]] + ([q[3]] + t), used + 1);
    OneMore(q[0], [q[1]] + ([q[2]] + ([q[3]] + t)), used);
    assert q + t == [q[0]] + ([q[1]] + ([q[2]] + ([q[3]] + t)));
  }

  lemma OneMore(c: byte, t: Text, used: nat)
    requires !IsBreak(c) && used < LINE && Within(t, used + 1)
    ensures Within([c] + t, used)
  {
    assert ([c] + t)[1..] == t;
  }

  lemma BreakFirst(i: nat, t: Text, used: nat)
    requires i % 3 == 0 && Within(t, Column(i)) && (Break(i) == [] ==> used == Column(i))
    ensures Within(Break(i) + t, used)
  {
    var u := Break(i) + t;
    if Break(i) != [] {
      assert u[1..][1..] == t && Column(i) == 0;
    } else {
      assert u == t;
    }
  }

  /** From position i on the lines stay short; `used` is what the line has before a break at i. */
  lemma {:induction false} ShortFrom(s: Text, i: nat, used: nat)
    requires i <= |s| && i % 3 == 0 && (Break(i) == [] ==> used == Column(i))
    ensures Within(EncodedFrom(s, i), used)
    decreases |s| - i
  {
    hide Within, Break, Column, Quad, Padded;
    ColumnNext(i);
    if i + 2 < |s| {
      var q, t := Quad(s[i], s[i + 1], s[i + 2]), EncodedFrom(s, i + 3);
      NoBreakAt(i + 3);
      ShortFrom(s, i + 3, Column(i) + 4);
      QuadBack(s[i], s[i + 1], s[i + 2]);
      CleanQuad(q);
      FourMore(q, t, Column(i));
      BreakFirst(i, q + t, used);
      assert Break(i) + q + t == Break(i) + (q + t);
    } else {
      PaddedShort(s[i..], Column(i));
      BreakFirst(i, Padded(s[i..]), used);
    }
  }

  lemma NoBreakAt(i: nat)
    requires i > 0
    ensures Break(i) == [] ==> i % 57 != 0
  {
  }

  lemma CleanQuad(q: Text)
    requires |q| == 4 && Clean(q[0]) && Clean(q[1]) && Clean(q[2]) && Clean(q[3])
    ensures !IsBreak(q[0]) && !IsBreak(q[1]) && !IsBreak(q[2]) && !IsBreak(q[3])
  {
  }

  lemma PaddedShort(s: Text, used: nat)
    requires |s| < 3 && used + 4 <= LINE
    ensures Within(Padded(s), used)
  {
    if s != [] {
      var q := Padded(s);
      QuadBack(s[0], if |s| == 2 then s[1] else 0, 0);
      hide Symbol, IsSymbol;
      FourMore(q, [], used);
      assert q + [] == q;
    }
  }

  /** No stretch of the encoding without a line break has more than 76 characters. */
  lemma ShortLines(s: Text, i: nat, j: nat)
    requires i <= j <= |Encoded(s)|
    requires forall k :: i <= k < j ==> !IsBreak(Encoded(s)[k])
    ensures j - i <= LINE
  {
    ShortFrom(s, 0, 0);
    NoLongRun(Encoded(s), 0, i, j);
  }

  // ---------- the alphabet ----------

  const UPPER := "ABCDEFGHIJKLMNOPQRSTUVWXYZ"
  const LOWER := "abcdefghijklmnopqrstuvwxyz"
  const OTHER := "0123456789+/"

  /** The alphabet of RFC 1341. */
  const ALPHABET: string := UPPER + LOWER + OTHER

  lemma UpperCode(i: nat)
    requires i < 26
    ensures |UPPER| == 26 && UPPER[i] as int == 0x41 + i
  {
  }

  lemma LowerCode(i: nat)
    requires i < 26
    ensures |LOWER| == 26 && LOWER[i] as int == 0x61 + i
  {
  }

  lemma OtherCode(i: nat)
    requires i < 12
    ensures |OTHER| == 12 && OTHER[i] as int == if i < 10 then 0x30 + i else if i == 10 then 0x2B else 0x2F
  {
  }

  lemma AlphabetCode(i: nat)
    requires i < 64
    ensures |ALPHABET| == 64
    ensures ALPHABET[i] as int ==
      if i < 26 then 0x41 + i else if i < 52 then 0x61 + (i - 26) else if i < 62 then 0x30 + (i - 52)
      else if i == 62 then 0x2B else 0x2F
  {
    hide UPPER, LOWER, OTHER;
    UpperCode(i % 26);
    LowerCode(i % 26);
    OtherCode(if i < 52 then 0 else i - 52);
  }

  /** Character i of the alphabet. */
  function Letter(i: nat): char
    requires i < 64
  {
    AlphabetCode(i);
    ALPHABET[i]
  }

  lemma SymbolIsLetter(v: byte)
    requires v < 64
    ensures Symbol(v) as char == Letter(v as nat)
  {
    AlphabetCode(v as int);
  }

  lemma ValueIsPlace(c: byte)
    requires IsSymbol(c)
    ensures Value(c) < 64 && Letter(Value(c) as nat) == c as char
  {
    SymbolIsLetter(Value(c));
  }

  // ---------- what the encoder writes ----------

  /** Character q of the encoding without its line breaks: the letter of the q-th group of six bits, or
      padding up to four characters for every three bytes. */
  function CharOf(s: Text, q: nat): char {
    if q < (8 * |s| + 5) / 6 then Letter(Sextet(s, q) as nat) else '='
  }

  /** Position p of the encoding: lines of 76 characters with line breaks between. */
  function CharAtPlace(s: Text, p: nat): char {
    if p % 78 < 76 then CharOf(s, p / 78 * 76 + p % 78) else if p % 78 == 76 then 0x0D as char else 0x0A as char
  }

  /** Four characters for every three bytes and a line break after every 57 of them. */
  function Size(n: nat): nat {
    (n + 2) / 3 * 4 + n / 57 * 2
  }

  /** Where the characters of group j stand, and where a line break before them begins. */
  function Start(j: nat): nat {
    j / 19 * 78 + j % 19 * 4
  }

  function BreakStart(j: nat): nat {
    if j > 0 && j % 19 == 0 then Start(j) - 2 else Start(j)
  }

  lemma BreakPlaces(s: Text, j: nat)
    ensures BreakStart(j) + |Break(3 * j)| == Start(j) && Start(j) + 4 == BreakStart(j + 1)
    ensures Stands(Break(3 * j), s, BreakStart(j))
  {
    hide CharOf, CharAtPlace, Start;
    NextGroup(j);
    BreakWhen(j);
    if j > 0 && j % 19 == 0 {
      BreakThere(s, j / 19 - 1);
      LineStart(j);
    }
  }

  lemma BreakWhen(j: nat)
    ensures 3 * j % 57 == 0 <==> j % 19 == 0
  {
    var l, c := j / 19, j % 19;
    assert 3 * j == 57 * l + 3 * c;
  }

  lemma LineStart(j: nat)
    requires j > 0 && j % 19 == 0
    ensures Start(j) == (j / 19 - 1) * 78 + 78
  {
  }

  lemma BreakThere(s: Text, l: nat)
    ensures CharAtPlace(s, l * 78 + 76) == 0x0D as char && CharAtPlace(s, l * 78 + 77) == 0x0A as char
  {
    hide CharOf;
    PlaceIn(l, 76);
    PlaceIn(l, 77);
  }

  lemma NextGroup(j: nat)
    ensures Start(j) + 4 == BreakStart(j + 1)
  {
    var l, c := j / 19, j % 19;
    if c == 18 {
      assert j + 1 == 19 * (l + 1);
    } else {
      assert (j + 1) / 19 == l && (j + 1) % 19 == c + 1;
    }
  }

  lemma PlaceIn(l: nat, c: nat)
    requires c < 78
    ensures (l * 78 + c) / 78 == l && (l * 78 + c) % 78 == c
  {
  }

  lemma GroupPlaces(s: Text, j: nat, r: nat)
    requires r < 4
    ensures CharAtPlace(s, Start(j) + r) == CharOf(s, 4 * j + r)
  {
    hide CharOf;
    PlaceIn(j / 19, j % 19 * 4 + r);
    assert j / 19 * 76 + j % 19 * 4 + r == 4 * j + r;
  }

  lemma SameGroups(b0: byte, b1: byte, b2: byte)
    ensures First(b0) == Symbol(Group0(b0)) && Second(b0, b1) == Symbol(Group1(b0, b1))
    ensures Third(b1, b2) == Symbol(Group2(b1, b2)) && Fourth(b2) == Symbol(Group3(b2))
  {
    hide Symbol;
    assert ((b0 << 4) | (b1 >> 4)) & 0x3F == Group1(b0, b1);
    assert ((b1 << 2) | (b2 >> 6)) & 0x3F == Group2(b1, b2);
  }

  /** The four symbols of three bytes are the letters of their four groups of six bits. */
  lemma QuadIs(s: Text, j: nat)
    ensures Quad(ByteAt(s, 3 * j), ByteAt(s, 3 * j + 1), ByteAt(s, 3 * j + 2)) ==
            [Symbol(Sextet(s, 4 * j)), Symbol(Sextet(s, 4 * j + 1)), Symbol(Sextet(s, 4 * j + 2)), Symbol(Sextet(s, 4 * j + 3))]
  {
    hide Symbol, Sextet, ByteAt, Group0, Group1, Group2, Group3, First, Second, Third, Fourth;
    FourSextets(s, j);
    SameGroups(ByteAt(s, 3 * j), ByteAt(s, 3 * j + 1), ByteAt(s, 3 * j + 2));
  }

  lemma QuadLetters(s: Text, j: nat, r: nat)
    requires r < 4
    ensures var q := Quad(ByteAt(s, 3 * j), ByteAt(s, 3 * j + 1), ByteAt(s, 3 * j + 2));
            q[r] as char == Letter(Sextet(s, 4 * j + r) as nat)
  {
    hide Symbol, Sextet, ByteAt, Quad, Letter;
    QuadIs(s, j);
    SymbolIsLetter(Sextet(s, 4 * j + r));
  }

  /** The four characters of group j. */
  predicate FourOf(q: Text, s: Text, j: nat) {
    |q| == 4 && forall r: nat :: r < 4 ==> q[r] as char == CharOf(s, 4 * j + r)
  }

  lemma WholeLetters(s: Text, j: nat)
    requires 3 * j + 2 < |s|
    ensures FourOf(Quad(s[3 * j], s[3 * j + 1], s[3 * j + 2]), s, j)
  {
    hide Sextet, Quad, Letter;
    QuadLetters(s, j, 0);
    QuadLetters(s, j, 1);
    QuadLetters(s, j, 2);
    QuadLetters(s, j, 3);
  }

  lemma PaddedLetters(s: Text, j: nat)
    requires 3 * j < |s| <= 3 * j + 2
    ensures FourOf(Padded(s[3 * j..]), s, j)
  {
    hide Sextet, Letter, First, Second, Third, Fourth;
    QuadLetters(s, j, 0);
    QuadLetters(s, j, 1);
    QuadLetters(s, j, 2);
    var q := Padded(s[3 * j..]);
    PaddedAs(s[3 * j..]);
    assert q[0] as char == CharOf(s, 4 * j) && q[1] as char == CharOf(s, 4 * j + 1);
  }

  lemma PaddedAs(x: Text)
    requires 0 < |x| < 3
    ensures var q, w := Padded(x), Quad(x[0], ByteAt(x, 1), ByteAt(x, 2));
      q[0] == w[0] && q[1] == w[1] && q[2] == (if |x| == 2 then w[2] else PAD) && q[3] == PAD
  {
    hide First, Second, Third, Fourth;
  }

  /** The characters of t are those at the places from `at` on. */
  predicate Stands(t: Text, s: Text, at: nat) {
    forall q: nat :: q < |t| ==> t[q] as char == CharAtPlace(s, at + q)
  }

  lemma FourStand(g: Text, s: Text, j: nat)
    requires FourOf(g, s, j)
    ensures Stands(g, s, Start(j))
  {
    hide CharAtPlace, CharOf, Start;
    GroupPlaces(s, j, 0);
    GroupPlaces(s, j, 1);
    GroupPlaces(s, j, 2);
    GroupPlaces(s, j, 3);
  }

  /** From group j on. */
  lemma {:induction false} PlacesFrom(s: Text, j: nat)
    requires 3 * j <= |s|
    ensures BreakStart(j) + |EncodedFrom(s, 3 * j)| == Size(|s|) && Stands(EncodedFrom(s, 3 * j), s, BreakStart(j))
    decreases |s| - 3 * j
  {
    hide Start, BreakStart, Break, Quad, Padded, EncodedFrom, FourOf, Stands, Size;
    BreakPlaces(s, j);
    var br := Break(3 * j);
    if 3 * j + 2 < |s| {
      var g, rest := Quad(s[3 * j], s[3 * j + 1], s[3 * j + 2]), EncodedFrom(s, 3 * (j + 1));
      FromQuad(s, 3 * j);
      WholeLetters(s, j);
      FourStand(g, s, j);
      PlacesFrom(s, j + 1);
      ThreeParts(s, br, g, rest, BreakStart(j));
    } else {
      FromEnd(s, 3 * j);
      EndPlaces(s, j);
      ThreeParts(s, br, Padded(s[3 * j..]), [], BreakStart(j));
      assert br + Padded(s[3 * j..]) + [] == br + Padded(s[3 * j..]);
    }
  }

  lemma EndPlaces(s: Text, j: nat)
    requires 3 * j <= |s| <= 3 * j + 2
    ensures Size(|s|) == Start(j) + |Padded(s[3 * j..])| && Stands(Padded(s[3 * j..]), s, Start(j))
    ensures forall at: nat :: Stands([], s, at)
  {
    hide CharAtPlace, Start, Size, FourOf;
    LastSize(|s|, j);
    if 3 * j < |s| {
      PaddedLetters(s, j);
      FourStand(Padded(s[3 * j..]), s, j);
    }
  }

  lemma LastSize(n: nat, j: nat)
    requires 3 * j <= n <= 3 * j + 2
    ensures Size(n) == Start(j) + if n == 3 * j then 0 else 4
  {
    assert n / 57 == j / 19;
  }

  /** Three parts that each stand in their place do so together. */
  lemma ThreeParts(s: Text, a: Text, b: Text, c: Text, at: nat)
    requires Stands(a, s, at) && Stands(b, s, at + |a|) && Stands(c, s, at + |a| + |b|)
    ensures Stands(a + b + c, s, at)
  {
    hide CharAtPlace;
    forall q: nat | q < |a + b + c|
      ensures (a + b + c)[q] as char == CharAtPlace(s, at + q)
    {
      if q < |a| {
        assert (a + b + c)[q] == a[q];
      } else if q < |a| + |b| {
        assert (a + b + c)[q] == b[q - |a|];
      } else {
        assert (a + b + c)[q] == c[q - |a| - |b|];
      }
    }
  }

  /** The encoding, character by character: the letters of the groups of six bits and the padding, in
      lines of 76 characters, with a line break after every 57 bytes, the last ones included. */
  lemma EncodedPlaces(s: Text)
    ensures |Encoded(s)| == Size(|s|)
    ensures forall p: nat :: p < |Encoded(s)| ==> Encoded(s)[p] as char == CharAtPlace(s, p)
  {
    hide CharAtPlace, EncodedFrom;
    PlacesFrom(s, 0);
  }

  // ---------- what the decoder reads ----------

  /** Where a letter stands in a row of letters. */
  function Place(c: char, a: string): (i: nat)
    requires c in a
    ensures i < |a| && a[i] == c
  {
    if a[0] == c then 0 else 1 + Place(c, a[1..])
  }

  /** The places in the alphabet of the letters from position i on, up to the first padding; all other
      characters are passed over. */
  function Digits(b: Text, i: nat): seq<byte>
    requires i <= |b|
    decreases |b| - i
  {
    if i == |b| || b[i] as char == '=' then []
    else if b[i] as char in ALPHABET then
      AlphabetCode(0);
      [Place(b[i] as char, ALPHABET) as byte] + Digits(b, i + 1)
    else Digits(b, i + 1)
  }

  /** The position of the first padding from i on, or the end. */
  function PadAt(b: Text, i: nat): (e: nat)
    requires i <= |b|
    ensures i <= e <= |b| && (e < |b| ==> b[e] == PAD)
    decreases |b| - i
  {
    if i == |b| || b[i] == PAD then i else PadAt(b, i + 1)
  }

  /** Two padding characters in a row stand at position e. */
  predicate DoublePad(b: Text, e: nat) {
    e + 1 < |b| && b[e] == PAD && b[e + 1] == PAD
  }

  /** Nothing is missing behind m letters: whole groups of four without padding, three with padding, or
      two with two padding characters in a row. */
  predicate Complete(b: Text, m: nat, e: nat) {
    if e >= |b| then m % 4 == 0 else m % 4 == 3 || (m % 4 == 2 && DoublePad(b, e))
  }

  /** How many bytes m letters stand for: those of the whole groups, and of a complete last one. */
  function ByteCount(b: Text, m: nat, e: nat): nat {
    m / 4 * 3 + if e < |b| && Complete(b, m, e) then m % 4 - 1 else 0
  }

  lemma SymbolIffLetter(c: byte)
    ensures IsSymbol(c) <==> c as char in ALPHABET
    ensures IsSymbol(c) ==> Place(c as char, ALPHABET) == Value(c) as nat
  {
    AlphabetCode(0);
    hide ALPHABET;
    if IsSymbol(c) {
      ValueIsPlace(c);
      AlphabetCode(Value(c) as nat);
      AlphabetCode(Place(c as char, ALPHABET));
    } else if c as char in ALPHABET {
      AlphabetCode(Place(c as char, ALPHABET));
    }
  }

  lemma NextDigits(b: Text, i: nat)
    requires i <= |b|
    ensures var k := Next(b, i);
      if k == |b| || b[k] == PAD then Digits(b, i) == [] && PadAt(b, i) == k
      else Digits(b, i) == [Value(b[k])] + Digits(b, k + 1) && PadAt(b, i) == PadAt(b, k + 1)
    decreases |b| - i
  {
    hide IsSymbol, Value, ALPHABET;
    if i < |b| {
      SymbolIffLetter(b[i]);
      PadOnly(b[i]);
      if !IsSymbol(b[i]) && b[i] != PAD { NextDigits(b, i + 1); }
    }
  }

  lemma PadOnly(c: byte)
    ensures (c == PAD <==> c as char == '=') && (c == PAD ==> !IsSymbol(c))
  {
  }

  /** What a quantum is, by its letters and those behind it and by the padding. */
  predicate Matches(b: Text, q: Quantum, ds: seq<byte>, e: nat) {
    match q
    case Nothing => ds == [] && e == |b|
    case TooEarly => |ds| < 4 && !Complete(b, |ds|, e)
    case Ending(bytes) =>
      && e < |b| && 2 <= |ds| < 4 && Complete(b, |ds|, e) && |bytes| == |ds| - 1
      && bytes[0] == Octet0(ds[0], ds[1]) && (|ds| == 3 ==> bytes[1] == Octet1(ds[1], ds[2]))
    case Full(bytes, next) =>
      && |ds| >= 4 && next <= |b| && ds[4..] == Digits(b, next) && e == PadAt(b, next)
      && bytes == [Octet0(ds[0], ds[1]), Octet1(ds[1], ds[2]), Octet2(ds[2], ds[3])]
  }

  /** The first letter of ds, and the others. */
  lemma FirstDigit(b: Text, i: nat, ds: seq<byte>, n: nat)
    requires i <= |b| && n <= |ds| && ds[n..] == Digits(b, i)
    ensures var k := Next(b, i);
      if k == |b| || b[k] == PAD then |ds| == n && PadAt(b, i) == k
      else |ds| > n && ds[n] == Value(b[k]) && ds[n + 1..] == Digits(b, k + 1) && PadAt(b, i) == PadAt(b, k + 1)
  {
    hide Digits, PadAt, Next, Value;
    NextDigits(b, i);
    var k := Next(b, i);
    if k < |b| && b[k] != PAD {
      assert ds[n..][1..] == ds[n + 1..];
      assert ([Value(b[k])] + Digits(b, k + 1))[1..] == Digits(b, k + 1);
    }
  }

  lemma RestDigits(b: Text, i0: nat, i1: nat, ds: seq<byte>)
    requires i0 < i1 < |b| && |ds| >= 2 && ds[0] == Value(b[i0]) && ds[1] == Value(b[i1]) && ds[2..] == Digits(b, i1 + 1)
    ensures Matches(b, QuantumRest(b, i0, i1), ds, PadAt(b, i1 + 1))
  {
    hide Digits, PadAt, Next, Value, Octet0, Octet1, Octet2;
    FirstDigit(b, i1 + 1, ds, 2);
    var i2 := Next(b, i1 + 1);
    if i2 < |b| && b[i2] != PAD {
      FirstDigit(b, i2 + 1, ds, 3);
    }
  }

  lemma QuantumDigits(b: Text, i: nat)
    requires i <= |b|
    ensures Matches(b, QuantumAt(b, i), Digits(b, i), PadAt(b, i))
  {
    hide Digits, PadAt, Next, Value, Octet0, Octet1, Octet2, QuantumRest;
    var ds := Digits(b, i);
    FirstDigit(b, i, ds, 0);
    var i0 := Next(b, i);
    if i0 < |b| && b[i0] != PAD {
      FirstDigit(b, i0 + 1, ds, 1);
      var i1 := Next(b, i0 + 1);
      if i1 < |b| && b[i1] != PAD {
        RestDigits(b, i0, i1, ds);
      }
    }
  }

  lemma {:induction false} SmallDigits(b: Text, i: nat)
    requires i <= |b|
    ensures forall k :: 0 <= k < |Digits(b, i)| ==> Digits(b, i)[k] < 64
    decreases |b| - i
  {
    hide Digits, Next, IsSymbol, Value, Letter;
    NextDigits(b, i);
    var k := Next(b, i);
    if k < |b| && b[k] != PAD {
      ValueIsPlace(b[k]);
      SmallDigits(b, k + 1);
    }
  }

  lemma {:induction false} DecodedBitsFrom(b: Text, i: nat)
    requires i <= |b|
    ensures var d, ds, e := DecodedFrom(b, i), Digits(b, i), PadAt(b, i);
      |d.text| == ByteCount(b, |ds|, e) && AreOctets(d.text, ds) && (d.truncated <==> !Complete(b, |ds|, e))
    decreases |b| - i
  {
    hide Digits, PadAt, QuantumAt, Octet, Octet0, Octet1, Octet2, DoublePad;
    QuantumDigits(b, i);
    SmallDigits(b, i);
    FewOctets(Digits(b, i));
    match QuantumAt(b, i)
    case Full(bytes, next) =>
      DecodedBitsFrom(b, next);
      MoreOctets(bytes, DecodedFrom(b, next).text, Digits(b, i));
    case _ =>
  }

  /** For every text: its letters up to the first padding are a row of six-bit numbers, the decoded bytes
      are the groups of eight bits of this row, as many as are complete, and the text counts as truncated
      exactly when something is missing behind them. */
  lemma DecodedBits(b: Text)
    ensures var d, ds, e := DecodedFrom(b, 0), Digits(b, 0), PadAt(b, 0);
      && |d.text| == ByteCount(b, |ds|, e) && (d.truncated <==> !Complete(b, |ds|, e))
      && forall j: nat :: j < |d.text| ==> d.text[j] == Octet(ds, j)
  {
    hide *;
    DecodedBitsFrom(b, 0);
    OctetsAre(DecodedFrom(b, 0).text, Digits(b, 0));
  }

  // ---------- the program ----------

  method PutFour(out: BString, q: Text)
    requires out.Valid() && |q| == 4 && out.slen + 8 < SIZE_LIMIT
    modifies out, out.data
    ensures out.Valid() && out.Text() == old(out.Text()) + q
    ensures out.data == old(out.data) || fresh(out.data)
  {
    ghost var t := out.Text();
    var ret := out.ConcatChar(q[0]);
    ret := out.ConcatChar(q[1]);
    ret := out.ConcatChar(q[2]);
    ret := out.ConcatChar(q[3]);
    assert t + [q[0]] + [q[1]] + [q[2]] + [q[3]] == t + q;
  }

  method PutBreak(out: BString, i: nat)
    requires out.Valid() && out.slen + 8 < SIZE_LIMIT
    modifies out, out.data
    ensures out.Valid() && out.Text() == old(out.Text()) + Break(i)
    ensures out.data == old(out.data) || fresh(out.data)
  {
    ghost var t := out.Text();
    if i > 0 && i % 57 == 0 {
      var ret := out.ConcatChar(0x0D);
      ret := out.ConcatChar(0x0A);
      assert t + [0x0D] + [0x0A] == t + CRLF;
    } else {
      assert t + [] == t;
    }
  }

  /** `bBase64Encode` */
  method Encode(src: View) returns (out: BString)
    requires src.Valid() && |Encoded(src.Text())| + 16 < SIZE_LIMIT
    ensures fresh(out) && out.Valid() && out.Text() == Encoded(src.Text())
  {
    hide Quad, Break, Padded, EncodedFrom;
    ghost var s := src.Text();
    out := new BString();
    var i := 0;
    assert [] + EncodedFrom(s, 0) == EncodedFrom(s, 0);
    while i + 2 < src.len
      invariant fresh(out) && fresh(out.data) && out.Valid() && i <= src.len
      invariant out.Text() + EncodedFrom(s, i) == Encoded(s)
    {
      ghost var done := out.Text();
      var b0, b1, b2 := src.block[src.start + i], src.block[src.start + i + 1], src.block[src.start + i + 2];
      assert b0 == s[i] && b1 == s[i + 1] && b2 == s[i + 2];
      FromQuad(s, i);
      PutBreak(out, i);
      PutFour(out, Quad(b0, b1, b2));
      Assoc(done, Break(i), Quad(b0, b1, b2), EncodedFrom(s, i + 3));
      i := i + 3;
    }
    ghost var done := out.Text();
    FromEnd(s, i);
    PutBreak(out, i);
    PutEnd(out, src, i);
    Assoc(done, Break(i), Padded(s[i..]), []);
    assert out.Text() + [] == out.Text();
  }

  /** The last one or two bytes. */
  method PutEnd(out: BString, src: View, i: nat)
    requires src.Valid() && out.Valid() && src.block != out.data && i <= src.len < i + 3 && out.slen + 8 < SIZE_LIMIT
    modifies out, out.data
    ensures out.Valid() && out.Text() == old(out.Text()) + Padded(src.Text()[i..])
    ensures out.data == old(out.data) || fresh(out.data)
  {
    hide First, Second, Third;
    ghost var s, t := src.Text(), out.Text();
    if src.len == i + 2 {
      var b0, b1 := src.block[src.start + i], src.block[src.start + i + 1];
      assert s[i] == b0 && s[i + 1] == b1;
      PutFour(out, [First(b0), Second(b0, b1), Third(b1, 0), PAD]);
    } else if src.len == i + 1 {
      var b0 := src.block[src.start + i];
      assert s[i] == b0;
      PutFour(out, [First(b0), Second(b0, 0), PAD, PAD]);
    } else {
      assert t + [] == t;
    }
  }

  lemma FromQuad(s: Text, i: nat)
    requires i + 2 < |s|
    ensures EncodedFrom(s, i) == Break(i) + Quad(s[i], s[i + 1], s[i + 2]) + EncodedFrom(s, i + 3)
  {
  }

  lemma FromEnd(s: Text, i: nat)
    requires i <= |s| <= i + 2
    ensures EncodedFrom(s, i) == Break(i) + Padded(s[i..])
  {
  }

  lemma Assoc(a: Text, b: Text, c: Text, d: Text)
    ensures a + b + c + d == a + (b + c + d)
    ensures a + b + c == a + (b + c)
  {
  }

  /** The next position with a symbol or padding: the inner loops of the decoder. */
  method FindNext(b: View, i: nat) returns (k: nat, c: byte)
    requires b.Valid() && i <= b.len
    ensures k == Next(b.Text(), i) && (k < b.len ==> c == b.Text()[k])
  {
    ghost var s := b.Text();
    k, c := i, 0;
    while k < b.len && !(IsSymbol(b.block[b.start + k]) || b.block[b.start + k] == PAD)
      invariant i <= k <= b.len && Next(s, k) == Next(s, i)
    {
      assert s[k] == b.block[b.start + k];
      k := k + 1;
    }
    if k < b.len { c := b.block[b.start + k]; }
  }

  /** One quantum: `v` keeps the bits that go into the next byte. */
  method ReadQuantum(b: View, i: nat) returns (q: Quantum)
    requires b.Valid() && i <= b.len
    ensures q == QuantumAt(b.Text(), i)
  {
    hide Next, QuantumRest;
    var i0, at0 := FindNext(b, i);
    if i0 == b.len { return Nothing; }
    if at0 == PAD { return TooEarly; }
    var i1, at1 := FindNext(b, i0 + 1);
    if i1 == b.len || at1 == PAD { return TooEarly; }
    q := ReadRest(b, i0, i1);
  }

  method ReadRest(b: View, i0: nat, i1: nat) returns (q: Quantum)
    requires b.Valid() && i0 < i1 < b.len
    ensures q == QuantumRest(b.Text(), i0, i1)
  {
    hide Next, Value, IsSymbol, Octet0, Octet1, Octet2;
    ghost var s := b.Text();
    var at0, at1 := b.block[b.start + i0], b.block[b.start + i1];
    assert at0 == s[i0] && at1 == s[i1];
    var c0 := Octet0(Value(at0), Value(at1));
    var i2, at2 := FindNext(b, i1 + 1);
    if i2 == b.len { return TooEarly; }
    if at2 == PAD {
      if i2 + 1 >= b.len { return TooEarly; }
      var follow := b.block[b.start + i2 + 1];
      assert follow == s[i2 + 1];
      return if follow != PAD then TooEarly else Ending([c0]);
    }
    var c1 := Octet1(Value(at1), Value(at2));
    var i3, at3 := FindNext(b, i2 + 1);
    if i3 == b.len { return TooEarly; }
    if at3 == PAD { return Ending([c0, c1]); }
    q := Full([c0, c1, Octet2(Value(at2), Value(at3))], i3 + 1);
  }

  /** `bBase64DecodeEx`. A caller that asks for the truncation flag gets the text decoded so far as
      well; for one that does not, a truncated text has no result. */
  method Decode(b: View, flag: bool) returns (res: BString?, truncated: bool)
    requires b.Valid() && b.len + 16 < SIZE_LIMIT
    ensures truncated == DecodedFrom(b.Text(), 0).truncated && (res == null <==> truncated && !flag)
    ensures res != null ==> fresh(res) && res.Valid() && res.Text() == DecodedFrom(b.Text(), 0).text
  {
    hide QuantumAt, DecodedFrom;
    ghost var s := b.Text();
    ghost var goal := DecodedFrom(s, 0);
    var out := new BString();
    var i := 0;
    assert [] + goal.text == goal.text;
    while true
      invariant fresh(out) && fresh(out.data) && out.Valid() && i <= b.len && out.slen <= i && b.Text() == s
      invariant goal == Decoded(out.Text() + DecodedFrom(s, i).text, DecodedFrom(s, i).truncated)
      decreases b.len - i
    {
      var q := ReadQuantum(b, i);
      DecodedStep(s, i, out.Text());
      match q
      case Nothing => return out, false;
      case TooEarly => return if flag then out else null, true;
      case Ending(bytes) =>
        PutBytes(out, bytes);
        return out, false;
      case Full(bytes, next) =>
        PutBytes(out, bytes);
        i := next;
    }
  }

  method PutBytes(out: BString, bytes: Text)
    requires out.Valid() && 1 <= |bytes| <= 3 && out.slen + 8 < SIZE_LIMIT
    modifies out, out.data
    ensures out.Valid() && out.Text() == old(out.Text()) + bytes
    ensures out.data == old(out.data) || fresh(out.data)
  {
    ghost var t := out.Text();
    var ret := out.ConcatChar(bytes[0]);
    if |bytes| > 1 { ret := out.ConcatChar(bytes[1]); }
    if |bytes| > 2 { ret := out.ConcatChar(bytes[2]); }
    assert bytes == if |bytes| == 1 then [bytes[0]] else if |bytes| == 2 then [bytes[0], bytes[1]] else [bytes[0], bytes[1], bytes[2]];
  }

  /** What the next quantum adds to the bytes so far. */
  lemma DecodedStep(b: Text, i: nat, done: Text)
    requires i <= |b|
    ensures var d, q := DecodedFrom(b, i), QuantumAt(b, i);
      match q
      case Nothing => done + d.text == done && !d.truncated
      case TooEarly => done + d.text == done && d.truncated
      case Ending(bytes) => done + d.text == done + bytes && !d.truncated
      case Full(bytes, next) => var e := DecodedFrom(b, next); done + d.text == done + bytes + e.text && d.truncated == e.truncated
  {
    hide QuantumAt;
    var q := QuantumAt(b, i);
    if q.Full? { Assoc(done, q.bytes, DecodedFrom(b, q.next).text, []); } else { assert done + [] == done; }
  }
}
