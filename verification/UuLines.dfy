/** What the decoder makes of a line, whatever characters it has, told from the line alone: which of its
    characters count, for which six bits, when it is bad, and when nothing is left of it. */
module UuLines {
  import opened BString
  import opened Sextets
  import opened UuCodec

  /** The k-th character behind the length character; behind the end of the line, one that stands for
      nothing. */
  function Sign(s: Text, k: nat): byte {
    if 1 + k < |s| then s[1 + k] else 0x1F
  }

  /** The character stands for six bits. */
  predicate Plain(d: byte) {
    0x20 <= d <= 0x60
  }

  /** The six bits of the k-th character. Of the first two of four, both count as 0 when one of them
      stands for nothing. */
  function Digit(s: Text, k: nat): (r: byte)
    ensures r < 64
  {
    if k % 4 >= 2 then Bits(Sign(s, k))
    else if Plain(Sign(s, k - k % 4)) && Plain(Sign(s, k - k % 4 + 1)) then Bits(Sign(s, k))
    else 0
  }

  function Bits(d: byte): (r: byte)
    ensures r < 64
  {
    if Plain(d) then (d - 0x20) & 0x3F else 0
  }

  /** How many characters n bytes need. */
  function Needed(n: nat): nat {
    n / 3 * 4 + if n % 3 == 0 then 0 else n % 3 + 1
  }

  /** How many bytes the fours of characters give that begin behind the first k. */
  function Room(s: Text, k: nat): nat {
    if |s| <= 1 + k then 0 else (|s| - 1 - k + 3) / 4 * 3
  }

  /** The numbers of m characters from the k-th on. */
  function Row(s: Text, k: nat, m: nat): (ds: seq<byte>)
    ensures |ds| == m && forall i :: 0 <= i < m ==> ds[i] == Digit(s, k + i) && ds[i] < 64
  {
    Numbers(s);
    seq(m, i requires 0 <= i < m => Digit(s, k + i))
  }

  lemma Numbers(s: Text)
    ensures forall i: nat :: Digit(s, i) < 64
  {
  }

  /** One of m characters from the k-th on spoils the line. */
  predicate SomeSpoils(s: Text, k: nat, m: nat) {
    exists i :: k <= i < k + m && Spoils(Sign(s, i))
  }

  /** One of them stands for nothing. */
  predicate SomeOdd(s: Text, k: nat, m: nat) {
    exists i :: k <= i < k + m && !Plain(Sign(s, i))
  }

  // ---------- one group ----------

  lemma BitsAre(d: byte)
    ensures Plain(d) <==> IsSextet(d)
    ensures Plain(d) ==> Bits(d) == Dec(d)
    ensures Spoils(d) ==> !Plain(d)
  {
  }

  lemma SignIs(s: Text, k: nat)
    ensures Sign(s, k) == CharAt(s, 1 + k)
  {
  }

  /** The first two numbers of a group. */
  lemma PairIs(s: Text, k: nat)
    requires k % 4 == 0
    ensures var p := DecPair(Sign(s, k), Sign(s, k + 1));
      && p.c0 == Digit(s, k) && p.c1 == Digit(s, k + 1)
      && (p.bad <==> !Plain(Sign(s, k)) || !Plain(Sign(s, k + 1)))
  {
    BitsAre(Sign(s, k));
    BitsAre(Sign(s, k + 1));
    hide Sign, Dec, IsSextet, Plain, Bits;
  }

  lemma OneIs(s: Text, k: nat)
    requires k % 4 >= 2
    ensures DecOne(Sign(s, k)) == Digit(s, k)
  {
    BitsAre(Sign(s, k));
    hide Sign, Dec, IsSextet, Plain, Spoils;
  }

  /** How many characters of a group count. */
  function Width(need: nat): nat {
    if need >= 3 then 4 else need + 1
  }

  predicate Spoiling(s: Text, k: nat, w: nat)
    requires w <= 4
  {
    (w > 0 && Spoils(Sign(s, k))) || (w > 1 && Spoils(Sign(s, k + 1))) ||
    (w > 2 && Spoils(Sign(s, k + 2))) || (w > 3 && Spoils(Sign(s, k + 3)))
  }

  predicate Odd(s: Text, k: nat, w: nat)
    requires w <= 4
  {
    (w > 0 && !Plain(Sign(s, k))) || (w > 1 && !Plain(Sign(s, k + 1))) ||
    (w > 2 && !Plain(Sign(s, k + 2))) || (w > 3 && !Plain(Sign(s, k + 3)))
  }

  lemma GroupIs(s: Text, k: nat, need: nat)
    requires k % 4 == 0 && need > 0
    ensures var g := DecGroup(Sign(s, k), Sign(s, k + 1), Sign(s, k + 2), Sign(s, k + 3), need);
      && (g.Bad? <==> Spoiling(s, k, Width(need)))
      && (g.Last? ==> need < 3 && (g.wrong <==> Odd(s, k, Width(need))) &&
                      g.bytes[0] == Octet0(Digit(s, k), Digit(s, k + 1)) &&
                      (need == 2 ==> g.bytes[1] == Octet1(Digit(s, k + 1), Digit(s, k + 2))))
      && (g.Whole? ==> need >= 3 && (g.wrong <==> Odd(s, k, Width(need))) &&
                       g.bytes == [Octet0(Digit(s, k), Digit(s, k + 1)), Octet1(Digit(s, k + 1), Digit(s, k + 2)),
                                   Octet2(Digit(s, k + 2), Digit(s, k + 3))])
  {
    PairIs(s, k);
    OneIs(s, k + 2);
    OneIs(s, k + 3);
    BitsAre(Sign(s, k));
    BitsAre(Sign(s, k + 1));
    BitsAre(Sign(s, k + 2));
    BitsAre(Sign(s, k + 3));
    hide Sign, Digit, Plain, Spoils, IsSextet, DecPair, DecOne, Octet0, Octet1, Octet2;
  }

  // ---------- the groups of a line ----------

  lemma NeededStep(need: nat)
    requires need > 0
    ensures Needed(need) == Width(need) + if need >= 3 then Needed(need - 3) else 0
  {
  }

  lemma RoomStep(s: Text, k: nat)
    requires 1 + k < |s|
    ensures Room(s, k) == 3 + Room(s, k + 4)
  {
  }

  lemma SpoilsStep(s: Text, k: nat, w: nat, m: nat)
    requires w <= m && w <= 4
    ensures SomeSpoils(s, k, m) <==> Spoiling(s, k, w) || SomeSpoils(s, k + w, m - w)
    ensures SomeOdd(s, k, m) <==> Odd(s, k, w) || SomeOdd(s, k + w, m - w)
  {
    hide Spoils, Plain, Sign;
  }

  lemma BehindEnd(s: Text, k: nat, m: nat)
    requires |s| <= 1 + k
    ensures !SomeSpoils(s, k, m)
  {
  }

  lemma RowStep(s: Text, k: nat, m: nat)
    requires m >= 4
    ensures Row(s, k, m)[4..] == Row(s, k + 4, m - 4)
  {
    hide Digit;
  }

  /** What groups decode to when their characters spoil the line or not, all stand for something or not,
      and stand for the numbers ds; `need` bytes are missing and `room` can come. */
  ghost predicate Mean(r: Groups, spoils: bool, odd: bool, ds: seq<byte>, need: nat, room: nat) {
    if spoils then r.Spoiled?
    else
      && r.Got? && AreOctets(r.bytes, ds) && |r.bytes| == (if need <= room then need else room)
      && (need <= room ==> (r.bad <==> odd))
  }

  ghost predicate GroupsMean(s: Text, k: nat, need: nat) {
    var m := Needed(need);
    Mean(DecGroups(s, 1 + k, need), SomeSpoils(s, k, m), SomeOdd(s, k, m), Row(s, k, m), need, Room(s, k))
  }

  /** One group, and then the rest. */
  function Then(g: Group, rest: Groups): Groups {
    match g
    case Bad => Spoiled
    case Last(bytes, wrong) => Got(bytes, wrong)
    case Whole(bytes, wrong) => Before(bytes, wrong, rest)
  }

  lemma GroupsStep(s: Text, k: nat, need: nat)
    requires 1 + k < |s| && need > 0
    ensures DecGroups(s, 1 + k, need) ==
      Then(DecGroup(Sign(s, k), Sign(s, k + 1), Sign(s, k + 2), Sign(s, k + 3), need),
           if need >= 3 then DecGroups(s, 1 + (k + 4), need - 3) else Spoiled)
  {
    SignsAre(s, k);
    hide DecGroup, Sign, CharAt, Before;
  }

  lemma WholeMeans(g: Group, rest: Groups, spoils: bool, odd: bool, spoils': bool, odd': bool, ds: seq<byte>, need: nat, room: nat)
    requires need >= 3 && |ds| >= 4 && forall i :: 0 <= i < |ds| ==> ds[i] < 64
    requires !g.Last? && (g.Bad? <==> spoils)
    requires g.Whole? ==> (g.wrong <==> odd) && g.bytes == [Octet0(ds[0], ds[1]), Octet1(ds[1], ds[2]), Octet2(ds[2], ds[3])]
    requires Mean(rest, spoils', odd', ds[4..], need - 3, room)
    ensures Mean(Then(g, rest), spoils || spoils', odd || odd', ds, need, 3 + room)
  {
    hide Octet0, Octet1, Octet2, AreOctets;
    if g.Whole? && rest.Got? { FrontOctets(g.bytes, rest.bytes, ds); }
  }

  lemma FrontOctets(front: Text, t: Text, ds: seq<byte>)
    requires |ds| >= 4 && forall i :: 0 <= i < |ds| ==> ds[i] < 64
    requires front == [Octet0(ds[0], ds[1]), Octet1(ds[1], ds[2]), Octet2(ds[2], ds[3])] && AreOctets(t, ds[4..])
    ensures AreOctets(front + t, ds)
  {
    hide Octet, Octet0, Octet1, Octet2;
    FewOctets(ds);
    MoreOctets(front, t, ds);
  }

  lemma LastMeans(g: Group, rest: Groups, spoils: bool, odd: bool, ds: seq<byte>, need: nat, room: nat)
    requires 0 < need < 3 && 3 <= room && |ds| == need + 1 && forall i :: 0 <= i < |ds| ==> ds[i] < 64
    requires !g.Whole? && (g.Bad? <==> spoils)
    requires g.Last? ==> |g.bytes| == need && (g.wrong <==> odd) && g.bytes[0] == Octet0(ds[0], ds[1])
    requires g.Last? && need == 2 ==> g.bytes[1] == Octet1(ds[1], ds[2])
    ensures Mean(Then(g, rest), spoils, odd, ds, need, room)
  {
    FewOctets(ds);
    hide Octet, Octet0, Octet1, Octet2;
  }

  lemma {:induction false} GroupsAre(s: Text, k: nat, need: nat)
    requires k % 4 == 0
    ensures GroupsMean(s, k, need)
    decreases need
  {
    if need == 0 || |s| <= 1 + k {
      NoneLeft(s, k, need);
    } else if need < 3 {
      LastAre(s, k, need);
    } else {
      GroupsAre(s, k + 4, need - 3);
      WholeAre(s, k, need);
    }
    hide *;
  }

  lemma NoneLeft(s: Text, k: nat, need: nat)
    requires need == 0 || |s| <= 1 + k
    ensures GroupsMean(s, k, need)
  {
    hide Sign, Row;
    if |s| <= 1 + k { BehindEnd(s, k, Needed(need)); }
  }

  lemma SignsAre(s: Text, k: nat)
    ensures Sign(s, k) == CharAt(s, 1 + k) && Sign(s, k + 1) == CharAt(s, 1 + k + 1)
    ensures Sign(s, k + 2) == CharAt(s, 1 + k + 2) && Sign(s, k + 3) == CharAt(s, 1 + k + 3)
  {
  }

  lemma LastAre(s: Text, k: nat, need: nat)
    requires k % 4 == 0 && 0 < need < 3 && 1 + k < |s|
    ensures GroupsMean(s, k, need)
  {
    var m := need + 1;
    assert Needed(need) == m && Room(s, k) >= 3;
    hide DecGroups, DecGroup, Sign, Digit, Spoiling, Odd, Octet0, Octet1, SomeSpoils, SomeOdd, Room, Needed, Row, Mean, Then;
    GroupsStep(s, k, need);
    GroupIs(s, k, need);
    SpoilsStep(s, k, m, m);
    NoneBeyond(s, k + m);
    var g := DecGroup(Sign(s, k), Sign(s, k + 1), Sign(s, k + 2), Sign(s, k + 3), need);
    LastMeans(g, Spoiled, SomeSpoils(s, k, m), SomeOdd(s, k, m), Row(s, k, m), need, Room(s, k));
  }

  lemma NoneBeyond(s: Text, k: nat)
    ensures !SomeSpoils(s, k, 0) && !SomeOdd(s, k, 0)
  {
  }

  lemma WholeAre(s: Text, k: nat, need: nat)
    requires k % 4 == 0 && need >= 3 && 1 + k < |s| && GroupsMean(s, k + 4, need - 3)
    ensures GroupsMean(s, k, need)
  {
    var m := Needed(need);
    NeededStep(need);
    RoomStep(s, k);
    hide DecGroups, DecGroup, Sign, Digit, Spoiling, Odd, Octet0, Octet1, Octet2, SomeSpoils, SomeOdd, Room, Needed, Row, Mean, Then;
    GroupsStep(s, k, need);
    GroupIs(s, k, need);
    SpoilsStep(s, k, 4, m);
    RowStep(s, k, m);
    var g := DecGroup(Sign(s, k), Sign(s, k + 1), Sign(s, k + 2), Sign(s, k + 3), need);
    WholeMeans(g, DecGroups(s, 1 + (k + 4), need - 3), Spoiling(s, k, 4), Odd(s, k, 4),
               SomeSpoils(s, k + 4, m - 4), SomeOdd(s, k + 4, m - 4), Row(s, k, m), need, Room(s, k + 4));
  }

  // ---------- a line ----------

  /** A length character for n bytes, enough characters for them, and none that spoils the line. */
  predicate Sound(s: Text, n: int) {
    0 <= n <= MAX_LINE && n <= Room(s, 0) && !SomeSpoils(s, 0, Needed(n))
  }

  /** The number the length character stands for: it is 0x20 more, and the grave accent stands for 0. */
  function Length(s: Text): int
    requires s != []
  {
    if s[0] == 0x60 then 0 else s[0] as int - 0x20
  }

  /** Every line: it decodes to as many bytes as its length character says, which are the groups of eight
      of the bits of its characters, and is bad exactly when one that counts stands for nothing; or else,
      when it is not sound, to nothing, and is bad. */
  lemma LineMeans(s: Text)
    requires s != []
    ensures var n, r := Length(s), DecLine(s);
      if Sound(s, n) then
        && |r.bytes| == n && (r.bad <==> SomeOdd(s, 0, Needed(n)))
        && forall j: nat :: j < n ==> r.bytes[j] == Octet(Row(s, 0, Needed(n)), j)
      else r == LineResult([], true)
  {
    var n := Length(s);
    LengthIs(s);
    if 0 <= n <= MAX_LINE {
      GroupsAre(s, 0, n);
      hide DecGroups, SomeSpoils, SomeOdd, Octet, Row, Needed, Room;
    }
  }

  lemma LengthIs(s: Text)
    requires s != []
    ensures DecLength(s[0]) == Length(s)
  {
  }
}
