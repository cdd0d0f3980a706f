/** Uuencoding: what the encoder writes, what the decoder makes of a line and of a text, and that the
    second undoes the first. */
module UuCodec {
  import opened BString
  import opened Sextets

  const MAX_LINE := 45

  // ---------- encoding ----------

  /** `UU_ENCODE_BYTE` */
  function Enc(b: byte): byte {
    if b == 0 then 0x60 else b + 0x20
  }

  /** Three bytes as four printable characters. */
  function EncGroup(c0: byte, c1: byte, c2: byte): (r: Text)
    ensures |r| == 4
  {
    [Enc((c0 & 0xFC) >> 2),
     Enc(((c0 & 0x03) << 4) | ((c1 & 0xF0) >> 4)),
     Enc(((c1 & 0x0F) << 2) | ((c2 & 0xC0) >> 6)),
     Enc(c2 & 0x3F)]
  }

  function FromThird(x: Text): (r: Text)
    ensures |r| == if |x| <= 3 then 0 else |x| - 3
  {
    if |x| <= 3 then [] else x[3..]
  }

  function EncGroups(x: Text): Text
    decreases |x|
  {
    if x == [] then []
    else EncGroup(x[0], ByteAt(x, 1), ByteAt(x, 2)) + EncGroups(FromThird(x))
  }

  function LengthChar(n: nat): byte
    requires n <= MAX_LINE
  {
    Enc(n as byte)
  }

  function EncLine(x: Text): Text
    requires |x| <= MAX_LINE
  {
    [LengthChar(|x|)] + EncGroups(x)
  }

  const CRLF: Text := [0x0D, 0x0A]

  function Encoded(s: Text): Text {
    if s == [] then []
    else
      var k := if |s| < MAX_LINE then |s| else MAX_LINE;
      EncLine(s[..k]) + CRLF + Encoded(s[k..])
  }

  // ---------- decoding one line ----------

  /** Whether a character stands for six bits, and for which. */
  predicate IsSextet(d: byte) {
    0x20 <= d <= 0x60
  }

  function Dec(d: byte): byte {
    if d == 0x60 then 0 else d - 0x20
  }

  /** `UU_DECODE_BYTE` of the first character. */
  function DecLength(d: byte): int {
    if d == 0x60 then 0 else (d as int) - 32
  }

  predicate IsSpace(d: byte) {
    d == 0x20 || 0x09 <= d <= 0x0D
  }

  /** A character that spoils the whole line; any other bad one counts as zero bits. */
  predicate Spoils(d: byte) {
    d > 0x60 || (d < 0x1F && !IsSpace(d))
  }

  /** The character at position i; one that is no sextet behind the end. */
  function CharAt(s: Text, i: nat): byte {
    if i < |s| then s[i] else 0x1F
  }

  datatype Groups = Spoiled | Got(bytes: Text, bad: bool)

  /** What a group adds to what comes after it. */
  function Before(bytes: Text, bad: bool, g: Groups): Groups {
    match g
    case Spoiled => Spoiled
    case Got(bs, b) => Got(bytes + bs, bad || b)
  }

  /** The first two characters of a group: both count as zero when one of them is bad. */
  datatype Pair = Pair(c0: byte, c1: byte, bad: bool)

  function DecPair(d0: byte, d1: byte): Pair {
    if IsSextet(d0) && IsSextet(d1) then Pair(Dec(d0), Dec(d1), false) else Pair(0, 0, true)
  }

  function DecOne(d: byte): byte {
    if IsSextet(d) then Dec(d) else 0
  }

  /** One group: spoiled, the last of its line, or three bytes with more to come. */
  datatype Group = Bad | Last(bytes: Text, wrong: bool) | Whole(bytes: Text, wrong: bool)

  /** Four characters, when `need` bytes are still missing; those that are not needed are not looked
      at. */
  function DecGroup(d0: byte, d1: byte, d2: byte, d3: byte, need: nat): (g: Group)
    requires need > 0
    ensures g.Last? ==> |g.bytes| == need <= 2
    ensures g.Whole? ==> |g.bytes| == 3 <= need
  {
    var p := DecPair(d0, d1);
    if p.bad && (Spoils(d0) || Spoils(d1)) then Bad
    else if need == 1 then Last([Octet0(p.c0, p.c1)], p.bad)
    else if !IsSextet(d2) && Spoils(d2) then Bad
    else if need == 2 then Last([Octet0(p.c0, p.c1), Octet1(p.c1, DecOne(d2))], p.bad || !IsSextet(d2))
    else if !IsSextet(d3) && Spoils(d3) then Bad
    else Whole([Octet0(p.c0, p.c1), Octet1(p.c1, DecOne(d2)), Octet2(DecOne(d2), DecOne(d3))],
               p.bad || !IsSextet(d2) || !IsSextet(d3))
  }

  /** The groups from position i on. */
  function DecGroups(s: Text, i: nat, need: nat): Groups
    decreases |s| - i
  {
    if i >= |s| || need == 0 then Got([], false)
    else match DecGroup(CharAt(s, i), CharAt(s, i + 1), CharAt(s, i + 2), CharAt(s, i + 3), need)
      case Bad => Spoiled
      case Last(bytes, wrong) => Got(bytes, wrong)
      case Whole(bytes, wrong) => Before(bytes, wrong, DecGroups(s, i + 4, need - 3))
  }

  datatype LineResult = LineResult(bytes: Text, bad: bool)

  /** `bUuDecLine`: a line that is spoiled or too short adds nothing and is bad. */
  function DecLine(s: Text): LineResult {
    if s == [] then LineResult([], false)
    else
      var n := DecLength(s[0]);
      if n < 0 || n > MAX_LINE then LineResult([], true)
      else match DecGroups(s, 1, n)
        case Spoiled => LineResult([], true)
        case Got(bs, bad) => if |bs| < n then LineResult([], true) else LineResult(bs, bad)
  }

  // ---------- decoding a text ----------

  predicate IsEol(c: byte) {
    c == 0x0D || c == 0x0A
  }

  /** The position of the first line end, or the length. */
  function Eol(p: Text): (e: nat)
    ensures e <= |p| && (e < |p| ==> IsEol(p[e])) && forall i :: 0 <= i < e ==> !IsEol(p[i])
  {
    if p == [] || IsEol(p[0]) then 0 else 1 + Eol(p[1..])
  }

  /** The bytes of all lines that have an end. */
  function Decoded(p: Text): Text
    decreases |p|
  {
    if Eol(p) == |p| then [] else DecLine(p[..Eol(p)]).bytes + Decoded(p[Eol(p) + 1..])
  }

  /** How many of these lines are bad. */
  function BadLines(p: Text): nat
    decreases |p|
  {
    if Eol(p) == |p| then 0 else (if DecLine(p[..Eol(p)]).bad then 1 else 0) + BadLines(p[Eol(p) + 1..])
  }

  /** The last line, when it has no end. */
  function Unfinished(p: Text): Text
    decreases |p|
  {
    if Eol(p) == |p| then p else Unfinished(p[Eol(p) + 1..])
  }

  lemma EolIs(p: Text, e: nat)
    requires e < |p| && IsEol(p[e]) && forall i :: 0 <= i < e ==> !IsEol(p[i])
    ensures Eol(p) == e
  {
  }

  lemma NoEol(p: Text)
    requires forall i :: 0 <= i < |p| ==> !IsEol(p[i])
    ensures Eol(p) == |p|
  {
  }

  /** A finished line x in front of p. */
  lemma LineFirst(x: Text, c: byte, p: Text)
    requires IsEol(c) && forall i :: 0 <= i < |x| ==> !IsEol(x[i])
    ensures Decoded(x + [c] + p) == DecLine(x).bytes + Decoded(p)
    ensures BadLines(x + [c] + p) == (if DecLine(x).bad then 1 else 0) + BadLines(p)
    ensures Unfinished(x + [c] + p) == Unfinished(p)
  {
    hide DecLine;
    var q := x + [c] + p;
    EolIs(q, |x|);
    assert q[..|x|] == x && q[|x| + 1..] == p;
  }

  // ---------- the round trip ----------

  lemma DecEnc(b: byte)
    requires b < 0x40
    ensures IsSextet(Enc(b)) && Dec(Enc(b)) == b && !IsEol(Enc(b))
  {
  }

  lemma SextetsFit(c0: byte, c1: byte, c2: byte)
    ensures (c0 & 0xFC) >> 2 < 0x40 && ((c0 & 0x03) << 4) | ((c1 & 0xF0) >> 4) < 0x40
    ensures ((c1 & 0x0F) << 2) | ((c2 & 0xC0) >> 6) < 0x40 && c2 & 0x3F < 0x40
  {
  }

  /** The six-bit parts of three bytes make the bytes again. */
  lemma Regrouped(c0: byte, c1: byte, c2: byte)
    ensures var a, b := (c0 & 0xFC) >> 2, ((c0 & 0x03) << 4) | ((c1 & 0xF0) >> 4);
            var c, d := ((c1 & 0x0F) << 2) | ((c2 & 0xC0) >> 6), c2 & 0x3F;
            Octet0(a, b) == c0 && Octet1(b, c) == c1 && Octet2(c, d) == c2
  {
  }

  /** A whole group decodes to its three bytes. */
  lemma GroupBack(c0: byte, c1: byte, c2: byte)
    ensures var g := EncGroup(c0, c1, c2); var p := DecPair(g[0], g[1]);
            && !p.bad && IsSextet(g[2]) && IsSextet(g[3])
            && Octet0(p.c0, p.c1) == c0 && Octet1(p.c1, DecOne(g[2])) == c1 && Octet2(DecOne(g[2]), DecOne(g[3])) == c2
            && (forall i :: 0 <= i < 4 ==> !IsEol(g[i]))
  {
    hide Enc, Dec, IsSextet, IsEol, Octet0, Octet1, Octet2;
    SextetsFit(c0, c1, c2);
    Regrouped(c0, c1, c2);
    DecEnc((c0 & 0xFC) >> 2);
    DecEnc(((c0 & 0x03) << 4) | ((c1 & 0xF0) >> 4));
    DecEnc(((c1 & 0x0F) << 2) | ((c2 & 0xC0) >> 6));
    DecEnc(c2 & 0x3F);
  }

  lemma {:induction false} EncGroupsClean(x: Text)
    ensures forall i :: 0 <= i < |EncGroups(x)| ==> !IsEol(EncGroups(x)[i])
    ensures x != [] ==> |EncGroups(x)| >= 4
    decreases |x|
  {
    if x != [] {
      GroupBack(x[0], ByteAt(x, 1), ByteAt(x, 2));
      EncGroupsClean(FromThird(x));
    }
  }

  /** The groups of a line decode to its bytes, whatever precedes them; the last group may stand for
      one or two bytes only. */
  lemma {:induction false} GroupsBack(pre: Text, x: Text)
    ensures DecGroups(pre + EncGroups(x), |pre|, |x|) == Got(x, false)
    decreases |x|
  {
    hide *;
    if x != [] {
      var c0, c1, c2 := x[0], ByteAt(x, 1), ByteAt(x, 2);
      var g, rest := EncGroup(c0, c1, c2), FromThird(x);
      var s := pre + EncGroups(x);
      FirstGroup(x);
      Short(x);
      assert s == (pre + g) + EncGroups(rest) && s[|pre|..|pre| + 4] == g;
      WholeGroup(s, |pre|, |x|, c0, c1, c2);
      if |x| >= 3 {
        GroupsBack(pre + g, rest);
        Rejoin(x);
      }
    } else {
      NoGroups(pre);
    }
  }

  lemma FirstGroup(x: Text)
    requires x != []
    ensures EncGroups(x) == EncGroup(x[0], ByteAt(x, 1), ByteAt(x, 2)) + EncGroups(FromThird(x))
  {
    hide EncGroup, ByteAt, FromThird;
  }

  lemma Short(x: Text)
    ensures |x| == 1 ==> x == [x[0]]
    ensures |x| == 2 ==> x == [x[0], ByteAt(x, 1)]
  {
  }

  lemma Rejoin(x: Text)
    requires |x| >= 3
    ensures Before([x[0], ByteAt(x, 1), ByteAt(x, 2)], false, Got(FromThird(x), false)) == Got(x, false)
  {
    assert x == [x[0], x[1], x[2]] + FromThird(x);
  }

  lemma NoGroups(pre: Text)
    ensures DecGroups(pre + EncGroups([]), |pre|, 0) == Got([], false)
  {
  }

  lemma DecEncGroup(c0: byte, c1: byte, c2: byte, need: nat)
    requires need > 0
    ensures var g := EncGroup(c0, c1, c2);
      DecGroup(g[0], g[1], g[2], g[3], need) ==
      if need == 1 then Last([c0], false) else if need == 2 then Last([c0, c1], false) else Whole([c0, c1, c2], false)
  {
    GroupBack(c0, c1, c2);
    hide EncGroup, DecPair, IsSextet, Octet0, Octet1, Octet2, DecOne, Spoils, IsEol;
  }

  lemma WholeGroup(s: Text, i: nat, need: nat, c0: byte, c1: byte, c2: byte)
    requires i + 4 <= |s| && s[i..i + 4] == EncGroup(c0, c1, c2) && need > 0
    ensures DecGroups(s, i, need) ==
      if need == 1 then Got([c0], false)
      else if need == 2 then Got([c0, c1], false)
      else Before([c0, c1, c2], false, DecGroups(s, i + 4, need - 3))
  {
    DecEncGroup(c0, c1, c2, need);
    hide EncGroup, DecGroup, Before;
    var g := s[i..i + 4];
    assert g[0] == s[i] && g[1] == s[i + 1] && g[2] == s[i + 2] && g[3] == s[i + 3];
  }

  lemma LengthBack(n: nat)
    requires n <= MAX_LINE
    ensures DecLength(LengthChar(n)) == n && !IsEol(LengthChar(n))
  {
  }

  lemma LineBack(x: Text)
    requires 0 < |x| <= MAX_LINE
    ensures DecLine(EncLine(x)) == LineResult(x, false)
    ensures forall i :: 0 <= i < |EncLine(x)| ==> !IsEol(EncLine(x)[i])
  {
    hide EncGroups, DecGroups, LengthChar, DecLength, IsEol;
    LengthBack(|x|);
    GroupsBack([LengthChar(|x|)], x);
    EncGroupsClean(x);
  }

  /** Decoding undoes encoding, without a bad line and without an unfinished one. */
  lemma {:induction false} RoundTrip(s: Text)
    ensures Decoded(Encoded(s)) == s && BadLines(Encoded(s)) == 0 && Unfinished(Encoded(s)) == []
    decreases |s|
  {
    hide DecLine, EncLine, Decoded, BadLines, Unfinished;
    if s == [] {
      EmptyText();
    } else {
      var k := if |s| < MAX_LINE then |s| else MAX_LINE;
      var x, rest := s[..k], Encoded(s[k..]);
      LineBack(x);
      RoundTrip(s[k..]);
      EmptyLine();
      LineFirst(EncLine(x), 0x0D, [0x0A] + rest);
      LineFirst([], 0x0A, rest);
      assert [] + [0x0A] + rest == [0x0A] + rest;
      assert EncLine(x) + [0x0D] + ([0x0A] + rest) == EncLine(x) + CRLF + rest;
      assert s == x + s[k..];
    }
  }

  lemma EmptyText()
    ensures Decoded([]) == [] && BadLines([]) == 0 && Unfinished([]) == []
  {
  }

  lemma EmptyLine()
    ensures DecLine([]) == LineResult([], false)
  {
  }

  // ---------- the characters ----------

  const ROW0 := "`!\"#$%&'()*+,-./"
  const ROW1 := "0123456789:;<=>?"
  const ROW2 := "@ABCDEFGHIJKLMNO"
  const ROW3 := "PQRSTUVWXYZ[\\]^_"

  /** The characters for the numbers below 64: the grave accent stands for 0, so no space is written. */
  const LETTERS: string := ROW0 + ROW1 + ROW2 + ROW3

  lemma Row0(i: nat)
    requires i < 16
    ensures |ROW0| == 16 && ROW0[i] as int == if i == 0 then 0x60 else 0x20 + i
  {
  }

  lemma Row1(i: nat)
    requires i < 16
    ensures |ROW1| == 16 && ROW1[i] as int == 0x30 + i
  {
  }

  lemma Row2(i: nat)
    requires i < 16
    ensures |ROW2| == 16 && ROW2[i] as int == 0x40 + i
  {
  }

  lemma Row3(i: nat)
    requires i < 16
    ensures |ROW3| == 16 && ROW3[i] as int == 0x50 + i
  {
  }

  lemma LetterCode(i: nat)
    requires i < 64
    ensures |LETTERS| == 64 && LETTERS[i] as int == if i == 0 then 0x60 else 0x20 + i
  {
    hide ROW0, ROW1, ROW2, ROW3;
    Row0(i % 16);
    Row1(i % 16);
    Row2(i % 16);
    Row3(i % 16);
  }

  function Letter(i: nat): char
    requires i < 64
  {
    LetterCode(i);
    LETTERS[i]
  }

  /** The character for the k-th group of six bits of x. */
  function LetterAt(x: Text, k: nat): char {
    Letter(Sextet(x, k) as nat)
  }

  lemma EncIsLetter(v: byte)
    requires v < 64
    ensures Enc(v) as char == Letter(v as nat) && 0x21 <= Enc(v) <= 0x60
  {
    LetterCode(v as int);
  }

  lemma LengthIsLetter(n: nat)
    requires n <= MAX_LINE
    ensures LengthChar(n) as char == Letter(n) && 0x21 <= LengthChar(n) <= 0x60
  {
    hide Enc, Letter;
    EncIsLetter(n as byte);
  }

  /** The four characters of a group are those of its four times six bits. */
  lemma GroupLetters(x: Text)
    requires x != []
    ensures forall r: nat :: r < 4 ==> EncGroup(x[0], ByteAt(x, 1), ByteAt(x, 2))[r] as char == LetterAt(x, r)
  {
    hide EncGroup, Enc, Letter, Sextet, ByteAt;
    GroupIs(x);
    EncIsLetter(Sextet(x, 0));
    EncIsLetter(Sextet(x, 1));
    EncIsLetter(Sextet(x, 2));
    EncIsLetter(Sextet(x, 3));
  }

  lemma GroupIs(x: Text)
    requires x != []
    ensures EncGroup(x[0], ByteAt(x, 1), ByteAt(x, 2)) ==
            [Enc(Sextet(x, 0)), Enc(Sextet(x, 1)), Enc(Sextet(x, 2)), Enc(Sextet(x, 3))]
  {
    hide Enc, Sextet, ByteAt, Group0, Group1, Group2, Group3;
    FourSextets(x, 0);
    FirstByte(x);
    SameGroups(x[0], ByteAt(x, 1), ByteAt(x, 2));
  }

  lemma FirstByte(x: Text)
    requires x != []
    ensures ByteAt(x, 0) == x[0]
  {
  }

  lemma SameGroups(c0: byte, c1: byte, c2: byte)
    ensures (c0 & 0xFC) >> 2 == Group0(c0) && ((c0 & 0x03) << 4) | ((c1 & 0xF0) >> 4) == Group1(c0, c1)
    ensures ((c1 & 0x0F) << 2) | ((c2 & 0xC0) >> 6) == Group2(c1, c2) && c2 & 0x3F == Group3(c2)
  {
  }

  /** Character k of the groups of a line is that of group k of its bits. */
  lemma {:induction false} GroupsLetters(x: Text)
    ensures |EncGroups(x)| == 4 * ((|x| + 2) / 3)
    ensures forall k: nat :: k < |EncGroups(x)| ==> EncGroups(x)[k] as char == LetterAt(x, k)
    decreases |x|
  {
    hide EncGroup, LetterAt;
    if x != [] {
      var g, rest := EncGroup(x[0], ByteAt(x, 1), ByteAt(x, 2)), FromThird(x);
      FirstGroup(x);
      GroupLetters(x);
      GroupsLetters(rest);
      forall k: nat | k < |EncGroups(x)|
        ensures EncGroups(x)[k] as char == LetterAt(x, k)
      {
        if k < 4 {
          assert EncGroups(x)[k] == g[k];
        } else {
          assert EncGroups(x)[k] == EncGroups(rest)[k - 4];
          LetterShift(x, k - 4);
        }
      }
    }
  }

  lemma LetterShift(x: Text, k: nat)
    requires |x| >= 3
    ensures LetterAt(x, k + 4) == LetterAt(x[3..], k)
  {
    hide Sextet, Letter;
    SextetShift(x, k);
  }

  /** t is the line for the bytes x: the character of their number, one character for each six of their
      bits, with zero bits to the end of the last three bytes, and the line end. */
  predicate IsLineOf(t: Text, x: Text)
    requires |x| <= MAX_LINE
  {
    var m := 4 * ((|x| + 2) / 3);
    && |t| == m + 3 && t[0] as char == Letter(|x|)
    && (forall k: nat :: k < m ==> t[1 + k] as char == LetterAt(x, k))
    && t[m + 1] == 0x0D && t[m + 2] == 0x0A
  }

  lemma LineLetters(x: Text)
    requires |x| <= MAX_LINE
    ensures IsLineOf(EncLine(x) + CRLF, x)
  {
    hide EncGroups, Letter, LetterAt, LengthChar;
    GroupsLetters(x);
    LengthIsLetter(|x|);
    var t := EncLine(x) + CRLF;
    assert forall k: nat :: k < |EncGroups(x)| ==> t[1 + k] == EncGroups(x)[k];
  }

  /** The bytes of line l of the encoding: 45, except for the last line. */
  function BytesOf(s: Text, l: nat): (x: Text)
    requires MAX_LINE * l < |s|
    ensures 0 < |x| <= MAX_LINE
  {
    s[MAX_LINE * l..if |s| < MAX_LINE * (l + 1) then |s| else MAX_LINE * (l + 1)]
  }

  /** Line l begins behind l lines of 63 characters and is the line of its bytes; with the last one the
      encoding ends. */
  lemma {:induction false} EncodedLines(s: Text, l: nat)
    requires MAX_LINE * l < |s|
    ensures var x := BytesOf(s, l); var end := 63 * l + 4 * ((|x| + 2) / 3) + 3;
      && end <= |Encoded(s)| && IsLineOf(Encoded(s)[63 * l..end], x)
      && (|s| <= MAX_LINE * (l + 1) ==> end == |Encoded(s)|)
    decreases l
  {
    hide EncLine, IsLineOf, Encoded;
    var k := if |s| < MAX_LINE then |s| else MAX_LINE;
    var t, rest := EncLine(s[..k]) + CRLF, Encoded(s[k..]);
    FirstLine(s);
    LineLetters(s[..k]);
    if l == 0 {
      assert BytesOf(s, 0) == s[..k];
      LineSize(t, s[..k]);
      assert (t + rest)[..|t|] == t;
      if k == |s| { assert s[k..] == []; NothingEncoded(); }
    } else {
      EncodedLines(s[k..], l - 1);
      LineSize(t, s[..k]);
      NextBytes(s, l);
      Further(t, rest, 63 * (l - 1));
    }
  }

  lemma FirstLine(s: Text)
    requires s != []
    ensures var k := if |s| < MAX_LINE then |s| else MAX_LINE;
            Encoded(s) == EncLine(s[..k]) + CRLF + Encoded(s[k..])
  {
    hide EncLine;
  }

  lemma NothingEncoded()
    ensures Encoded([]) == []
  {
  }

  lemma NextBytes(s: Text, l: nat)
    requires 0 < l && MAX_LINE * l < |s|
    ensures MAX_LINE * (l - 1) < |s[MAX_LINE..]| && BytesOf(s, l) == BytesOf(s[MAX_LINE..], l - 1)
  {
    var rest, at := s[MAX_LINE..], MAX_LINE * (l - 1);
    var n := if |rest| < at + MAX_LINE then |rest| - at else MAX_LINE;
    assert rest[at..at + n] == s[MAX_LINE + at..MAX_LINE + at + n];
  }

  lemma LineSize(t: Text, x: Text)
    requires |x| <= MAX_LINE && IsLineOf(t, x)
    ensures |t| == 4 * ((|x| + 2) / 3) + 3
  {
  }

  lemma Further(t: Text, rest: Text, i: nat)
    ensures forall j: nat :: i <= j <= |rest| ==> (t + rest)[|t| + i..|t| + j] == rest[i..j]
  {
    forall j: nat | i <= j <= |rest|
      ensures (t + rest)[|t| + i..|t| + j] == rest[i..j]
    {
    }
  }

  /** Besides the line ends only printable characters are written, and no space. */
  lemma {:induction false} Printable(s: Text)
    ensures forall c :: c in Encoded(s) ==> c == 0x0D || c == 0x0A || 0x21 <= c <= 0x60
    decreases |s|
  {
    hide EncLine;
    if s != [] {
      var k := if |s| < MAX_LINE then |s| else MAX_LINE;
      Printable(s[k..]);
      PrintableLine(s[..k]);
    }
  }

  lemma PrintableLine(x: Text)
    requires |x| <= MAX_LINE
    ensures forall c :: c in EncLine(x) ==> 0x21 <= c <= 0x60
  {
    hide LengthChar, EncGroups;
    LengthIsLetter(|x|);
    PrintableGroups(x);
  }

  lemma {:induction false} PrintableGroups(x: Text)
    ensures forall c :: c in EncGroups(x) ==> 0x21 <= c <= 0x60
    decreases |x|
  {
    hide Enc;
    if x != [] {
      PrintableGroup(x[0], ByteAt(x, 1), ByteAt(x, 2));
      PrintableGroups(FromThird(x));
    }
  }

  lemma PrintableGroup(c0: byte, c1: byte, c2: byte)
    ensures forall c :: c in EncGroup(c0, c1, c2) ==> 0x21 <= c <= 0x60
  {
    SextetsFit(c0, c1, c2);
    PrintableFour((c0 & 0xFC) >> 2, ((c0 & 0x03) << 4) | ((c1 & 0xF0) >> 4),
                  ((c1 & 0x0F) << 2) | ((c2 & 0xC0) >> 6), c2 & 0x3F);
  }

  lemma PrintableFour(v0: byte, v1: byte, v2: byte, v3: byte)
    requires v0 < 64 && v1 < 64 && v2 < 64 && v3 < 64
    ensures forall c :: c in [Enc(v0), Enc(v1), Enc(v2), Enc(v3)] ==> 0x21 <= c <= 0x60
  {
    hide Enc, Letter;
    EncIsLetter(v0);
    EncIsLetter(v1);
    EncIsLetter(v2);
    EncIsLetter(v3);
  }
}
