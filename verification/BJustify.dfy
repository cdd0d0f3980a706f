/** Justification: words joined by single spaces, or spread over an exact width. */
module BJustify {
  import opened BString
  import opened BSplit

  // ---------- words ----------

  function NonEmpty(ps: seq<Text>): (ws: seq<Text>)
    ensures forall k :: 0 <= k < |ws| ==> ws[k] != []
  {
    if ps == [] then [] else (if ps[0] != [] then [ps[0]] else []) + NonEmpty(ps[1..])
  }

  /** The words of a string: the pieces between spaces that have characters. */
  function Words(s: Text, c: byte): seq<Text> {
    NonEmpty(SplitChar(s, c))
  }

  // ---------- left justification ----------

  /** What the copying loop keeps: every character that is no space, and each space behind one that is
      none; `word` says that the character before was none. */
  function Squeezed(s: Text, word: bool, c: byte): Text {
    if s == [] then []
    else if s[0] != c then [s[0]] + Squeezed(s[1..], true, c)
    else (if word then [c] else []) + Squeezed(s[1..], false, c)
  }

  /** Without one space at the end. */
  function Trimmed(s: Text, c: byte): Text {
    if s != [] && s[|s| - 1] == c then s[..|s| - 1] else s
  }

  lemma {:induction false} SqueezeWord(x: Text, rest: Text, word: bool, c: byte)
    requires c !in x && x != []
    ensures Squeezed(x + rest, word, c) == x + Squeezed(rest, true, c)
  {
    assert x[0] != c;
    assert (x + rest)[1..] == x[1..] + rest;
    if |x| > 1 {
      SqueezeWord(x[1..], rest, true, c);
      assert x + Squeezed(rest, true, c) == [x[0]] + (x[1..] + Squeezed(rest, true, c));
    } else {
      assert x[1..] + rest == rest && x == [x[0]];
    }
  }

  lemma SqueezeSpace(rest: Text, word: bool, c: byte)
    ensures Squeezed([c] + rest, word, c) == (if word then [c] else []) + Squeezed(rest, false, c)
  {
    assert ([c] + rest)[1..] == rest;
  }

  lemma LastPieceEmpty(ps: seq<Text>)
    requires ps != [] && NonEmpty(ps) == []
    ensures ps[|ps| - 1] == []
  {
    if |ps| > 1 { LastPieceEmpty(ps[1..]); }
  }

  /** The words with one space behind each, except behind a last word that ends the string. */
  function Kept(ps: seq<Text>, c: byte): Text
    requires ps != []
  {
    Spaced(NonEmpty(ps), ps[|ps| - 1] == [], c)
  }

  function Spaced(ws: seq<Text>, open: bool, c: byte): Text {
    Join(ws, [c]) + (if open && ws != [] then [c] else [])
  }

  lemma {:induction false} SqueezePieces(s: Text, p: nat, c: byte)
    requires p <= |s|
    ensures SplitFrom(s, p, c) != [] && Squeezed(s[p..], false, c) == Kept(SplitFrom(s, p, c), c)
    decreases |s| - p
  {
    hide Kept, Squeezed, SplitFrom, Until;
    var i := Until(s, p, c);
    var x := s[p..i];
    NextPiece(s, p, c, []);
    if i == |s| {
      NoneBefore([x], [], SplitFrom(s, p, c));
      LastWord(x, c);
      assert s[p..] == x + [] && [x] + [] == [x];
    } else {
      var rest := SplitFrom(s, i + 1, c);
      NoneBefore([x], rest, SplitFrom(s, p, c));
      SqueezePieces(s, i + 1, c);
      assert s[p..] == x + ([c] + s[i + 1..]);
      PieceThenSpace(x, s[i + 1..], c);
      WordInFront(x, rest, c);
    }
  }

  lemma LastWord(x: Text, c: byte)
    requires c !in x
    ensures Squeezed(x + [], false, c) == Kept([x], c)
  {
    if x == [] {
      assert NonEmpty([x]) == [];
    } else {
      SqueezeWord(x, [], false, c);
      assert NonEmpty([x]) == [x];
      assert x + [] == x;
    }
  }

  lemma PieceThenSpace(x: Text, rest: Text, c: byte)
    requires c !in x
    ensures Squeezed(x + ([c] + rest), false, c) == (if x == [] then [] else x + [c]) + Squeezed(rest, false, c)
  {
    if x == [] {
      SqueezeSpace(rest, false, c);
      assert x + ([c] + rest) == [c] + rest;
      assert [] + Squeezed(rest, false, c) == Squeezed(rest, false, c);
    } else {
      SqueezeWord(x, [c] + rest, false, c);
      SqueezeSpace(rest, true, c);
      assert x + ([c] + Squeezed(rest, false, c)) == x + [c] + Squeezed(rest, false, c);
    }
  }

  /** A piece before others. */
  lemma WordInFront(x: Text, rest: seq<Text>, c: byte)
    requires rest != []
    ensures Kept([x] + rest, c) == (if x == [] then [] else x + [c]) + Kept(rest, c)
  {
    hide NonEmpty, Spaced;
    var ps, ws := [x] + rest, NonEmpty(rest);
    FrontNonEmpty(x, rest);
    assert ps[|ps| - 1] == rest[|rest| - 1];
    if x == [] {
      assert [] + ws == ws && [] + Kept(rest, c) == Kept(rest, c);
    } else {
      if ws == [] { LastPieceEmpty(rest); }
      SpacedFront(x, ws, rest[|rest| - 1] == [], c);
    }
  }

  lemma SpacedFront(x: Text, ws: seq<Text>, open: bool, c: byte)
    requires ws == [] ==> open
    ensures Spaced([x] + ws, open, c) == x + [c] + Spaced(ws, open, c)
  {
    hide Join;
    if ws == [] {
      assert [x] + ws == [x];
      OnePiece(x, [c]);
      NothingJoined([c]);
      assert [] + [] == Spaced(ws, open, c);
      assert x + [c] + [] == x + [c];
    } else {
      JoinFront(x, ws, [c]);
      var tail := if open then [c] else [];
      assert x + [c] + Join(ws, [c]) + tail == x + [c] + (Join(ws, [c]) + tail);
    }
  }

  lemma FrontNonEmpty(x: Text, rest: seq<Text>)
    ensures NonEmpty([x] + rest) == (if x != [] then [x] else []) + NonEmpty(rest)
  {
    assert ([x] + rest)[1..] == rest;
  }

  lemma NothingJoined(sep: Text)
    ensures Join([], sep) == []
  {
  }

  lemma {:induction false} JoinLast(ws: seq<Text>, c: byte)
    requires ws != [] && forall k :: 0 <= k < |ws| ==> ws[k] != [] && c !in ws[k]
    ensures Join(ws, [c]) != [] && Join(ws, [c])[|Join(ws, [c])| - 1] != c
  {
    var last := ws[|ws| - 1];
    assert last[|last| - 1] in last;
  }

  lemma {:induction false} WordsClean(ps: seq<Text>, c: byte)
    requires forall k :: 0 <= k < |ps| ==> c !in ps[k]
    ensures forall k :: 0 <= k < |NonEmpty(ps)| ==> c !in NonEmpty(ps)[k]
  {
    if ps != [] { WordsClean(ps[1..], c); }
  }

  /** Left justification yields the words joined by single spaces. */
  lemma LeftJustified(s: Text, c: byte)
    ensures Trimmed(Squeezed(s, false, c), c) == Join(Words(s, c), [c])
  {
    hide Squeezed, Join, NonEmpty;
    SqueezePieces(s, 0, c);
    SplitJoin(s, c);
    WordsClean(SplitChar(s, c), c);
    var ws := Words(s, c);
    assert s[0..] == s;
    if ws == [] { NothingJoined([c]); } else { JoinLast(ws, c); }
  }

  // ---------- margin justification ----------

  /** The gap before the next of n words when r spaces are left: the nearest share. */
  function Gap(r: nat, n: nat): nat
    requires n > 0
  {
    (r + n / 2) / n
  }

  /** Each word with its gap before it. */
  function Spread(ws: seq<Text>, gaps: seq<nat>, c: byte): Text
    requires |gaps| == |ws|
  {
    if ws == [] then [] else Fill(gaps[0], c) + ws[0] + Spread(ws[1..], gaps[1..], c)
  }

  function Sum(gaps: seq<nat>): nat {
    if gaps == [] then 0 else gaps[0] + Sum(gaps[1..])
  }

  /** r spaces lie between q and q + 1 for each of n gaps. */
  predicate Fair(r: nat, n: nat, q: nat) {
    Times(q, n) <= r <= Times(q + 1, n)
  }

  function Times(a: nat, n: nat): (r: nat) {
    Product(a, n);
    a * n
  }

  lemma Product(a: nat, n: nat)
    ensures a * n >= 0
  {
  }

  lemma TimesRules(a: nat, b: nat, n: nat)
    ensures Times(a + 1, n) == Times(a, n) + n
    ensures n > 0 ==> Times(a, n - 1) == Times(a, n) - a
    ensures a <= b ==> Times(a, n) <= Times(b, n)
  {
  }

  /** A fair share leaves a fair rest. */
  lemma GapFair(r: nat, n: nat, q: nat)
    requires n > 0 && Fair(r, n, q)
    ensures q <= Gap(r, n) <= q + 1 && Gap(r, n) <= r && Fair(r - Gap(r, n), n - 1, q)
    ensures n == 1 ==> Gap(r, n) == r
  {
    hide Times, Gap;
    var g := GapBounds(r, n);
    TimesRules(q, g, n);
    TimesRules(q + 1, g, n);
    TimesRules(q + 2, g, n);
    TimesRules(g + 1, q, n);
    TimesRules(g, q, n);
  }

  lemma GapBounds(r: nat, n: nat) returns (g: nat)
    requires n > 0
    ensures g == Gap(r, n) && (n == 1 ==> g == r)
    ensures 2 * Times(g, n) <= 2 * r + n && 2 * r < 2 * Times(g, n) + n
  {
    g := Gap(r, n);
    Quotient(r + n / 2, n);
    TimesRules(g, g, n);
    TwiceIsEven(Times(g, n), g, n);
  }

  /** Twice a number is never an odd number of halves away from a product with an odd factor. */
  lemma TwiceIsEven(t: nat, g: nat, n: nat)
    requires t == g * n
    ensures n % 2 == 1 ==> forall r: nat :: 2 * r != 2 * t + n
  {
  }

  lemma Quotient(x: nat, n: nat)
    requires n > 0
    ensures (x / n) * n <= x < (x / n + 1) * n
  {
  }

  lemma AtLeastOne(r: nat, n: nat)
    requires 0 < n <= r
    ensures r / n >= 1
  {
  }

  function Gaps(r: nat, n: nat, q: nat): (gs: seq<nat>)
    requires Fair(r, n, q)
    ensures |gs| == n && forall k :: 0 <= k < n ==> q <= gs[k] <= q + 1
    ensures Sum(gs) == r
    decreases n
  {
    if n == 0 then []
    else
      GapFair(r, n, q);
      var rest := Gaps(r - Gap(r, n), n - 1, q);
      assert ([Gap(r, n)] + rest)[1..] == rest;
      [Gap(r, n)] + rest
  }

  lemma {:induction false} SpreadLength(ws: seq<Text>, gaps: seq<nat>, c: byte)
    requires |gaps| == |ws|
    ensures |Spread(ws, gaps, c)| == TotalFront(ws) + Sum(gaps)
  {
    if ws != [] { SpreadLength(ws[1..], gaps[1..], c); }
  }

  function TotalFront(ws: seq<Text>): nat {
    if ws == [] then 0 else |ws[0]| + TotalFront(ws[1..])
  }

  /** When the words leave more room than one space for each of them and there are at least two, what
      margin justification yields. */
  predicate Spreads(ws: seq<Text>, width: int) {
    TotalFront(ws) + |ws| < width && |ws| >= 2
  }

  function Room(ws: seq<Text>, width: int): nat
    requires Spreads(ws, width)
  {
    width - TotalFront(ws)
  }

  /** The smaller of the gaps. */
  function Share(ws: seq<Text>, width: int): (q: nat)
    requires Spreads(ws, width)
    ensures q >= 1 && Fair(Room(ws, width), |ws| - 1, q)
  {
    var r, n := Room(ws, width), |ws| - 1;
    AtLeastOne(r, n);
    Quotient(r, n);
    TimesRules(r / n, 0, n);
    r / n
  }

  function MarginGaps(ws: seq<Text>, width: int): seq<nat>
    requires Spreads(ws, width)
  {
    Gaps(Room(ws, width), |ws| - 1, Share(ws, width))
  }

  function Margin(ws: seq<Text>, width: int, c: byte): Text
    requires Spreads(ws, width)
  {
    ws[0] + Spread(ws[1..], MarginGaps(ws, width), c)
  }

  lemma MarginLength(ws: seq<Text>, width: int, c: byte)
    requires Spreads(ws, width)
    ensures |Margin(ws, width, c)| == width
  {
    SpreadLength(ws[1..], MarginGaps(ws, width), c);
  }

  /** The justified line is exactly as wide as asked for; its gaps are at least 1 and differ by at most
      1, and each is the nearest share of the spaces from it on; the words stand in it in their order. */
  lemma MarginWidth(ws: seq<Text>, width: int, c: byte)
    requires Spreads(ws, width)
    ensures |Margin(ws, width, c)| == width
    ensures var gs := MarginGaps(ws, width);
      && |gs| == |ws| - 1
      && (forall k :: 0 <= k < |gs| ==> gs[k] >= 1)
      && (forall k, h :: 0 <= k < |gs| && 0 <= h < |gs| ==> gs[k] <= gs[h] + 1)
      && NearestShares(gs)
  {
    MarginLength(ws, width, c);
    GapsNearest(Room(ws, width), |ws| - 1, Share(ws, width));
  }

  /** A line is spread exactly when it has two words or more and is, left-justified, by at least two
      characters too short. */
  lemma SpreadsIff(s: Text, width: int, c: byte)
    ensures var left := Trimmed(Squeezed(s, false, c), c);
      Spreads(Words(s, c), width) <==> |Words(s, c)| >= 2 && |left| + 1 < width
  {
    LeftJustified(s, c);
    if Words(s, c) != [] { SpacedLength(Words(s, c), c); }
    hide *;
    SpreadsMeans(Words(s, c), width);
  }

  lemma SpreadsMeans(ws: seq<Text>, width: int)
    ensures Spreads(ws, width) <==> TotalFront(ws) + |ws| < width && |ws| >= 2
  {
  }

  lemma {:induction false} SpacedLength(ws: seq<Text>, c: byte)
    requires ws != []
    ensures |Join(ws, [c])| == TotalFront(ws) + |ws| - 1
  {
    hide Join;
    if |ws| == 1 {
      assert ws == [ws[0]] && ws[1..] == [];
      OnePiece(ws[0], [c]);
    } else {
      JoinFront(ws[0], ws[1..], [c]);
      assert ws == [ws[0]] + ws[1..];
      SpacedLength(ws[1..], c);
    }
  }

  /** r / m lies in the half-open interval from g - 1/2 to g + 1/2. */
  predicate NearestTo(g: nat, m: nat, r: nat) {
    2 * (m * g) <= 2 * r + m && 2 * r < 2 * (m * g) + m
  }

  /** Gap k is the share of one gap in the spaces from gap k on, rounded to the nearest number, and
      upwards when two are equally near. */
  predicate NearestShare(gs: seq<nat>, k: nat)
    requires k < |gs|
  {
    NearestTo(gs[k], |gs| - k, Sum(gs[k..]))
  }

  predicate NearestShares(gs: seq<nat>) {
    forall k :: 0 <= k < |gs| ==> NearestShare(gs, k)
  }

  lemma NearestFront(gs: seq<nat>)
    requires gs != []
    ensures NearestShare(gs, 0) <==> NearestTo(gs[0], |gs|, Sum(gs))
  {
    assert gs[0..] == gs;
  }

  lemma NearestRest(gs: seq<nat>)
    requires gs != []
    ensures forall k :: 0 < k < |gs| ==> (NearestShare(gs, k) <==> NearestShare(gs[1..], k - 1))
  {
    forall k | 0 < k < |gs|
      ensures NearestShare(gs, k) <==> NearestShare(gs[1..], k - 1)
    {
      assert gs[1..][k - 1..] == gs[k..];
    }
  }

  lemma {:induction false} GapsNearest(r: nat, n: nat, q: nat)
    requires Fair(r, n, q)
    ensures NearestShares(Gaps(r, n, q))
    decreases n
  {
    hide *;
    if n > 0 {
      GapFair(r, n, q);
      var gs, g := Gaps(r, n, q), Gap(r, n);
      var rest := Gaps(r - g, n - 1, q);
      GapsStep(r, n, q);
      GapsNearest(r - g, n - 1, q);
      GapNearest(r, n);
      NearestMore(gs);
    } else {
      NoGaps(r, q);
    }
  }

  lemma GapsStep(r: nat, n: nat, q: nat)
    requires n > 0 && Fair(r, n, q)
    ensures Gap(r, n) <= r && Fair(r - Gap(r, n), n - 1, q)
    ensures var gs := Gaps(r, n, q); gs[0] == Gap(r, n) && gs[1..] == Gaps(r - Gap(r, n), n - 1, q)
  {
    hide Fair, Gap;
    GapFair(r, n, q);
    var rest := Gaps(r - Gap(r, n), n - 1, q);
    assert ([Gap(r, n)] + rest)[1..] == rest;
  }

  lemma NoGaps(r: nat, q: nat)
    requires Fair(r, 0, q)
    ensures NearestShares(Gaps(r, 0, q))
  {
    hide Fair;
  }

  lemma NearestMore(gs: seq<nat>)
    requires gs != [] && NearestTo(gs[0], |gs|, Sum(gs)) && NearestShares(gs[1..])
    ensures NearestShares(gs)
  {
    hide NearestTo, NearestShare, Sum;
    NearestFront(gs);
    NearestRest(gs);
    var rest := gs[1..];
    forall k | 0 <= k < |gs|
      ensures NearestShare(gs, k)
    {
      if k > 0 { assert NearestShare(rest, k - 1); }
    }
  }

  lemma GapNearest(r: nat, n: nat)
    requires n > 0
    ensures NearestTo(Gap(r, n), n, r)
  {
    var g := GapBounds(r, n);
  }

  /** Being the nearest shares of their sum determines all gaps. */
  lemma {:induction false} NearestUnique(gs: seq<nat>, hs: seq<nat>)
    requires |gs| == |hs| && Sum(gs) == Sum(hs) && NearestShares(gs) && NearestShares(hs)
    ensures gs == hs
  {
    hide NearestShare, NearestTo;
    if gs != [] {
      NearestFront(gs);
      NearestFront(hs);
      OneNearest(gs[0], hs[0], |gs|, Sum(gs));
      RestNearest(gs);
      RestNearest(hs);
      NearestUnique(gs[1..], hs[1..]);
      assert gs == [gs[0]] + gs[1..] && hs == [hs[0]] + hs[1..];
    }
  }

  lemma RestNearest(gs: seq<nat>)
    requires gs != [] && NearestShares(gs)
    ensures NearestShares(gs[1..])
  {
    hide NearestShare;
    NearestRest(gs);
    var rest := gs[1..];
    forall k | 0 <= k < |rest|
      ensures NearestShare(rest, k)
    {
      assert NearestShare(gs, k + 1);
    }
  }

  lemma OneNearest(g: nat, h: nat, m: nat, r: nat)
    requires NearestTo(g, m, r) && NearestTo(h, m, r)
    ensures g == h
  {
    if g < h { NextApart(g, h, m); }
    if h < g { NextApart(h, g, m); }
  }

  lemma NextApart(g: nat, h: nat, m: nat)
    requires g < h
    ensures m * g + m <= m * h
  {
    Product(m, h - g - 1);
    Distributes(m, g, h - g - 1);
  }

  lemma Distributes(m: int, g: int, d: int)
    ensures m * (g + 1 + d) == m * g + m + m * d
  {
  }

  /** The justified line is the one line of its words with gaps that fill the width and are all nearest
      shares. */
  lemma MarginOnly(ws: seq<Text>, width: int, c: byte, gs: seq<nat>)
    requires Spreads(ws, width)
    requires |gs| == |ws| - 1 && TotalFront(ws) + Sum(gs) == width && NearestShares(gs)
    ensures Margin(ws, width, c) == ws[0] + Spread(ws[1..], gs, c)
  {
    hide NearestShares, Spread, TotalFront;
    MarginWidth(ws, width, c);
    NearestUnique(gs, MarginGaps(ws, width));
  }

  // ---------- the words survive ----------

  lemma {:induction false} AllWords(ws: seq<Text>)
    requires forall k :: 0 <= k < |ws| ==> ws[k] != []
    ensures NonEmpty(ws) == ws
  {
    if ws != [] {
      AllWords(ws[1..]);
      assert ws == [ws[0]] + ws[1..];
    }
  }

  /** Spaces in a row hold no words. */
  lemma {:induction false} SpacesSkipped(pre: Text, n: nat, rest: Text, c: byte)
    ensures var s := pre + (Fill(n, c) + rest);
            NonEmpty(SplitFrom(s, |pre|, c)) == NonEmpty(SplitFrom(s, |pre| + n, c))
    decreases n
  {
    hide NonEmpty, SplitFrom;
    if n > 0 {
      var more := Fill(n - 1, c) + rest;
      assert Fill(n, c) == [c] + Fill(n - 1, c);
      assert Fill(n, c) + rest == [] + [c] + more;
      FrontPiece(pre, [], c, more);
      assert pre + [] + [c] == pre + [c];
      var s := pre + (Fill(n, c) + rest);
      assert s == pre + [c] + more;
      FrontNonEmpty([], SplitFrom(s, |pre| + 1, c));
      SpacesSkipped(pre + [c], n - 1, rest, c);
    }
  }

  lemma {:induction false} SpreadWords(pre: Text, x: Text, ws: seq<Text>, gaps: seq<nat>, c: byte)
    requires x != [] && c !in x && |gaps| == |ws|
    requires forall k :: 0 <= k < |ws| ==> ws[k] != [] && c !in ws[k] && gaps[k] >= 1
    ensures NonEmpty(SplitFrom(pre + (x + Spread(ws, gaps, c)), |pre|, c)) == [x] + ws
    decreases |ws|
  {
    hide NonEmpty, SplitFrom, Fill;
    if ws == [] {
      assert x + [] == x;
      LastPiece(pre, x, c);
      AllWords([x]);
      assert [x] + ws == [x];
    } else {
      var rest := Spread(ws[1..], gaps[1..], c);
      SpreadText(pre, x, ws[0], rest, gaps[0], c);
      hide Spread;
      var n, next := gaps[0] - 1, pre + x + [c];
      var tail := ws[0] + rest;
      var more := Fill(n, c) + tail;
      FrontPiece(pre, x, c, more);
      FrontNonEmpty(x, SplitFrom(pre + (x + [c] + more), |next|, c));
      SpacesSkipped(next, n, tail, c);
      SpreadWords(next + Fill(n, c), ws[0], ws[1..], gaps[1..], c);
      assert ws == [ws[0]] + ws[1..];
    }
  }

  /** The same text, seen from its first space and from its next word. */
  lemma SpreadText(pre: Text, x: Text, w: Text, rest: Text, gap: nat, c: byte)
    requires gap >= 1
    ensures var more := Fill(gap - 1, c) + (w + rest); var s := pre + (x + [c] + more);
      && pre + (x + (Fill(gap, c) + w + rest)) == s == (pre + x + [c]) + more
      && s == (pre + x + [c] + Fill(gap - 1, c)) + (w + rest)
  {
    assert Fill(gap, c) == [c] + Fill(gap - 1, c);
    hide Fill;
    var f := Fill(gap - 1, c);
    assert x + ([c] + f + w + rest) == x + [c] + (f + (w + rest));
  }

  lemma CleanWords(s: Text, c: byte)
    ensures forall k :: 0 <= k < |Words(s, c)| ==> Words(s, c)[k] != [] && c !in Words(s, c)[k]
  {
    SplitJoin(s, c);
    WordsClean(SplitChar(s, c), c);
  }

  /** Margin justification keeps the words and their order. */
  lemma MarginKeepsWords(s: Text, width: int, c: byte)
    requires Spreads(Words(s, c), width)
    ensures Words(Margin(Words(s, c), width, c), c) == Words(s, c)
  {
    hide NonEmpty, SplitFrom, Spread, Gaps, Share, Fair, TotalFront;
    var ws := Words(s, c);
    CleanWords(s, c);
    MarginWidth(ws, width, c);
    var gs := MarginGaps(ws, width);
    SpreadWords([], ws[0], ws[1..], gs, c);
    var t := ws[0] + Spread(ws[1..], gs, c);
    assert [] + t == t && ws == [ws[0]] + ws[1..];
  }

  /** So does left justification. */
  lemma LeftKeepsWords(s: Text, c: byte)
    ensures Words(Join(Words(s, c), [c]), c) == Words(s, c)
  {
    hide NonEmpty, SplitFrom, Join;
    var ws := Words(s, c);
    CleanWords(s, c);
    if ws == [] {
      NothingJoined([c]);
      LastPiece([], [], c);
      var none: Text := [];
      assert none + none == none;
      NothingInEmpty();
    } else {
      JoinSplit([], ws, c);
      assert [] + Join(ws, [c]) == Join(ws, [c]);
      AllWords(ws);
    }
  }

  lemma NothingInEmpty()
    ensures NonEmpty([[]]) == []
  {
  }

  // ---------- the program ----------

  /** `(unsigned char) space` */
  function Char(space: int): byte {
    (space % 256) as byte
  }

  /** `bJustifyLeft`; a space that is no byte leaves the string alone. */
  method JustifyLeft(b: BString, space: int) returns (ret: int)
    requires b.Valid()
    modifies b, b.data
    ensures ret == OK && b.Valid() && b.data == old(b.data)
    ensures b.Text() == if 0 <= space < 256 then Join(Words(old(b.Text()), Char(space)), [Char(space)]) else old(b.Text())
  {
    hide Words, Join, Squeezed;
    ret := OK;
    if !(0 <= space < 256) { return; }
    var c := Char(space);
    ghost var s := b.Text();
    LeftJustified(s, c);
    var j := Squeeze(b, c);
    ghost var t := b.data[..j];
    if j > 0 && b.data[j - 1] == c { j := j - 1; }
    assert b.data[..j] == Trimmed(t, c);
    b.data[j] := 0;
    b.slen := j;
  }

  /** The copying loop. */
  method Squeeze(b: BString, c: byte) returns (j: nat)
    requires b.Valid()
    modifies b.data
    ensures j <= b.slen && b.data[..j] == Squeezed(old(b.Text()), false, c)
  {
    hide Squeezed;
    ghost var s := b.Text();
    var word := false;
    j := 0;
    var i := 0;
    assert s[0..] == s && [] + Squeezed(s, false, c) == Squeezed(s, false, c);
    while i < b.slen
      invariant j <= i <= b.slen && b.data[i..b.slen] == s[i..]
      invariant b.data[..j] + Squeezed(s[i..], word, c) == Squeezed(s, false, c)
    {
      ghost var done := b.data[..j];
      NextChar(s, i, word, c, done);
      assert b.data[i] == b.data[i..b.slen][0] == s[i];
      SameTail(b.data, s, i);
      var t := word;
      b.data[j] := b.data[i];
      word := b.data[j] != c;
      if t || word {
        j := j + 1;
        assert b.data[..j] == done + [s[i]];
      }
      i := i + 1;
    }
    NoChar(word, c);
    assert s[i..] == [] && b.data[..j] + [] == b.data[..j];
  }

  lemma SameTail(data: array<byte>, s: Text, i: nat)
    requires i < |s| <= data.Length && data[i..|s|] == s[i..]
    ensures data[i + 1..|s|] == s[i + 1..]
  {
    assert data[i + 1..|s|] == data[i..|s|][1..];
  }

  lemma NextChar(s: Text, i: nat, word: bool, c: byte, done: Text)
    requires i < |s|
    ensures done + Squeezed(s[i..], word, c) ==
            (if word || s[i] != c then done + [s[i]] else done) + Squeezed(s[i + 1..], s[i] != c, c)
  {
    assert s[i..][1..] == s[i + 1..];
    assert done + [] == done;
  }

  lemma NoChar(word: bool, c: byte)
    ensures Squeezed([], word, c) == []
  {
  }

  /** `bInsertChrs` */
  method InsertChrs(b: BString, pos: int, len: int, c: byte, fill: byte) returns (ret: int)
    requires b.Valid() && pos + len + 1 < SIZE_LIMIT && b.slen + len + 1 < SIZE_LIMIT && pos + 1 < SIZE_LIMIT
    modifies b, b.data
    ensures b.Valid() && (b.data == old(b.data) || fresh(b.data))
    ensures ret != OK <==> pos < 0 || len <= 0
    ensures ret != OK ==> b.Text() == old(b.Text())
    ensures ret == OK ==> b.Text() == Head(old(b.Text()), pos, fill) + Fill(len, c) + Tail(old(b.Text()), pos)
  {
    if pos < 0 || len <= 0 { return ERR; }
    ghost var s := b.Text();
    if pos > b.slen {
      var none := new byte[0];
      ret := b.SetStr(pos, View(none, 0, 0), fill);
      assert b.Text() == Head(s, pos, fill);
    }
    OpenGap(b, pos, len, c);
    ret := OK;
  }

  method OpenGap(b: BString, pos: nat, len: nat, c: byte)
    requires b.Valid() && pos <= b.slen && len > 0 && b.slen + len + 1 < SIZE_LIMIT
    modifies b, b.data
    ensures b.Valid() && (b.data == old(b.data) || fresh(b.data))
    ensures b.Text() == old(b.Text())[..pos] + Fill(len, c) + old(b.Text())[pos..]
  {
    hide Pasted;
    var ret := b.Balloc(b.slen + len);
    ghost var was, n := b.data[..], b.slen;
    assert was[..n] == b.Text();
    if pos < b.slen { MoveUp(b.data, pos, b.slen, len); } else { PasteNothing(was, pos + len); }
    ghost var moved := b.data[..];
    SetBytes(b.data, pos, len, c);
    Opened(was, n, pos, Fill(len, c));
    b.slen := b.slen + len;
    assert b.data[..][..b.slen] == b.data[..b.slen];
    Finish(b);
  }

  method MoveUp(block: array<byte>, pos: nat, end: nat, len: nat)
    requires pos <= end && end + len <= block.Length
    modifies block
    ensures block[..] == Pasted(old(block[..]), pos + len, old(block[..])[pos..end])
  {
    var part := View(block, pos, end - pos);
    assert part.Text() == block[..][pos..end];
    Move(block, pos + len, part);
  }

  /** `memset` */
  method SetBytes(block: array<byte>, pos: nat, len: nat, c: byte)
    requires pos + len <= block.Length
    modifies block
    ensures block[..] == Pasted(old(block[..]), pos, Fill(len, c))
  {
    ghost var was := block[..];
    forall i | pos <= i < pos + len {
      block[i] := c;
    }
    FilledIn(block[..], was, pos, len, c);
  }

  method Finish(b: BString)
    requires b.Valid()
    modifies b.data
    ensures b.Text() == old(b.Text())
  {
    b.data[b.slen] := 0;
  }

  lemma Opened(s: Text, n: nat, pos: nat, t: Text)
    requires pos <= n && n + |t| <= |s|
    ensures Pasted(Pasted(s, pos + |t|, s[pos..n]), pos, t)[..n + |t|] == s[..n][..pos] + t + s[..n][pos..]
  {
    hide Pasted;
    Spliced(s, n, pos, pos, t);
    assert s[..pos] == s[..n][..pos] && s[pos..n] == s[..n][pos..];
  }

  lemma PasteNothing(s: Text, d: nat)
    requires d <= |s|
    ensures Pasted(s, d, []) == s
  {
  }

  lemma FilledIn(x: Text, s: Text, pos: nat, len: nat, c: byte)
    requires |x| == |s| && pos + len <= |s|
    requires forall i :: 0 <= i < |s| ==> x[i] == (if pos <= i < pos + len then c else s[i])
    ensures x == Pasted(s, pos, Fill(len, c))
  {
  }

  /** `bJustifyMargin` */
  method JustifyMargin(b: BString, width: int, space: int) returns (ret: int)
    requires b.Valid() && b.slen + 2 < SIZE_LIMIT && width + 2 < SIZE_LIMIT
    modifies b, b.data
    ensures ret == OK && b.Valid() && (b.data == old(b.data) || fresh(b.data))
    ensures var ws, c := Words(old(b.Text()), Char(space)), Char(space);
      b.Text() ==
        if Spreads(ws, width) then Margin(ws, width, c)
        else if 0 <= space < 256 then Join(ws, [c])
        else old(b.Text())
  {
    hide Join, Margin, SplitChar, NonEmpty, TotalFront;
    ghost var s := b.Text();
    var ch := Char(space);
    var sl := BSplit.BSplit(b.All(), ch);
    ghost var ps := sl.Pieces();
    assert b.Text() == s;
    var l, c := Measure(sl);
    if l + c >= width || c < 2 {
      ret := JustifyLeft(b, space);
      return;
    }
    LayOut(b, sl, width, l, c, ch);
    ret := OK;
  }

  /** The number of words and of their characters. */
  method Measure(sl: StrList) returns (l: nat, c: nat)
    requires sl.Valid()
    ensures l == TotalFront(NonEmpty(sl.Pieces())) && c == |NonEmpty(sl.Pieces())|
  {
    hide NonEmpty, TotalFront;
    ghost var ps := sl.Pieces();
    l, c := 0, 0;
    var i := 0;
    assert ps[0..] == ps;
    while i < sl.qty
      invariant i <= sl.qty && l + TotalFront(NonEmpty(ps[i..])) == TotalFront(NonEmpty(ps))
      invariant c + |NonEmpty(ps[i..])| == |NonEmpty(ps)|
    {
      NextWord(ps, i);
      assert ps[i] == sl.entry[i];
      if |sl.entry[i]| > 0 {
        c := c + 1;
        l := l + |sl.entry[i]|;
      }
      i := i + 1;
    }
    NoWord(ps, i);
  }

  lemma NextWord(ps: seq<Text>, i: nat)
    requires i < |ps|
    ensures NonEmpty(ps[i..]) == (if ps[i] != [] then [ps[i]] else []) + NonEmpty(ps[i + 1..])
    ensures ps[i] != [] ==> NonEmpty(ps[i..])[1..] == NonEmpty(ps[i + 1..])
    ensures ps[i] == [] ==> NonEmpty(ps[i..]) == NonEmpty(ps[i + 1..])
    ensures TotalFront(NonEmpty(ps[i..])) == |ps[i]| + TotalFront(NonEmpty(ps[i + 1..]))
  {
    assert ps[i..][1..] == ps[i + 1..];
    var ws := NonEmpty(ps[i + 1..]);
    if ps[i] != [] { assert ([ps[i]] + ws)[1..] == ws; } else { assert [] + ws == ws; }
  }

  lemma NoWord(ps: seq<Text>, i: nat)
    requires i == |ps|
    ensures NonEmpty(ps[i..]) == [] && TotalFront(NonEmpty(ps[i..])) == 0
  {
  }

  /** The words still to come, each with its gap, when r spaces are left. */
  function Coming(ws: seq<Text>, r: nat, q: nat, c: byte): Text
    requires Fair(r, |ws|, q)
  {
    Spread(ws, Gaps(r, |ws|, q), c)
  }

  lemma NextComing(ws: seq<Text>, r: nat, q: nat, c: byte)
    requires ws != [] && Fair(r, |ws|, q)
    ensures q <= Gap(r, |ws|) <= r && Fair(r - Gap(r, |ws|), |ws| - 1, q)
    ensures Coming(ws, r, q, c) == Fill(Gap(r, |ws|), c) + ws[0] + Coming(ws[1..], r - Gap(r, |ws|), q, c)
    ensures |Coming(ws, r, q, c)| == TotalFront(ws) + r
  {
    GapFair(r, |ws|, q);
    hide Fair, Gap;
    var rest := Gaps(r - Gap(r, |ws|), |ws| - 1, q);
    assert ([Gap(r, |ws|)] + rest)[1..] == rest;
    SpreadLength(ws, Gaps(r, |ws|, q), c);
  }

  /** `bconcat` of a piece. */
  method PutWord(b: BString, w: Text)
    requires b.Valid() && b.slen + |w| + 1 < SIZE_LIMIT
    modifies b, b.data
    ensures b.Valid() && b.Text() == old(b.Text()) + w && (b.data == old(b.data) || fresh(b.data))
  {
    var block := new byte[|w|];
    forall i | 0 <= i < |w| {
      block[i] := w[i];
    }
    assert block[0..0 + |w|] == w;
    var ret := b.Concat(View(block, 0, |w|));
  }

  /** What the line is to become, from what is there and what is to come. */
  ghost predicate OnCourse(text: Text, ws: seq<Text>, r: int, c: int, q: nat, ch: byte, goal: Text) {
    && r >= 0 && c == |ws| && Fair(r, |ws|, q) && q >= 1
    && text + Coming(ws, r, q, ch) == goal
  }

  lemma FirstWord(ws: seq<Text>, width: int, ch: byte)
    requires Spreads(ws, width)
    ensures OnCourse(ws[0], ws[1..], width - TotalFront(ws), |ws| - 1, Share(ws, width), ch, Margin(ws, width, ch))
    ensures |Margin(ws, width, ch)| == width
  {
    hide Fair, Gaps, Spread, TotalFront, Share, Coming, Margin, MarginGaps;
    MarginLength(ws, width, ch);
    AfterFirst(ws, width, ch);
  }

  lemma AfterFirst(ws: seq<Text>, width: int, ch: byte)
    requires Spreads(ws, width)
    ensures Fair(Room(ws, width), |ws[1..]|, Share(ws, width))
    ensures ws[0] + Coming(ws[1..], Room(ws, width), Share(ws, width), ch) == Margin(ws, width, ch)
  {
    hide Fair, Gaps, Spread, TotalFront, Share;
    assert |ws[1..]| == |ws| - 1;
  }

  /** The next word goes in with its gap. */
  lemma OnCourseNext(text: Text, ws: seq<Text>, r: int, c: int, q: nat, ch: byte, goal: Text)
    requires OnCourse(text, ws, r, c, q, ch, goal) && ws != []
    ensures var g := Gap(r, |ws|);
      && 1 <= g <= r && OnCourse(text + Fill(g, ch) + ws[0], ws[1..], r - g, c - 1, q, ch, goal)
      && |text| + g + |ws[0]| <= |goal|
  {
    NextComing(ws, r, q, ch);
    hide Coming, Gap, Fair;
    var g := Gap(r, |ws|);
    var rest := Coming(ws[1..], r - g, q, ch);
    assert text + (Fill(g, ch) + ws[0] + rest) == text + Fill(g, ch) + ws[0] + rest;
  }

  lemma Arrived(text: Text, ws: seq<Text>, r: int, c: int, q: nat, ch: byte, goal: Text)
    requires OnCourse(text, ws, r, c, q, ch, goal) && ws == []
    ensures text == goal
  {
    assert text + [] == text;
  }

  /** The loop that lays the words out again in the emptied string. `l` counts the characters of all
      words and the spaces given so far, `c` the words still to come. */
  method LayOut(b: BString, sl: StrList, width: int, l0: nat, c0: nat, ch: byte)
    requires b.Valid() && sl.Valid() && sl.entry as object != b.data as object && 0 <= width && width + 2 < SIZE_LIMIT
    requires var ws := NonEmpty(sl.Pieces()); Spreads(ws, width) && l0 == TotalFront(ws) && c0 == |ws|
    modifies b, b.data
    ensures b.Valid() && (b.data == old(b.data) || fresh(b.data))
    ensures b.Text() == Margin(NonEmpty(old(sl.Pieces())), width, ch)
  {
    hide NonEmpty, TotalFront, Margin, OnCourse, Share;
    ghost var ps := sl.Pieces();
    ghost var ws := NonEmpty(ps);
    ghost var goal, q := Margin(ws, width, ch), Share(ws, width);
    FirstWord(ws, width, ch);
    b.slen := 0;
    var l, c := l0, c0;
    var i := 0;
    assert ps[0..] == ps;
    while i < sl.qty
      invariant b.Valid() && (b.data == old(b.data) || fresh(b.data)) && sl.entry as object != b.data as object
      invariant i <= sl.qty && sl.Pieces() == ps && b.slen <= width && c > 0
      invariant if b.slen == 0 then NonEmpty(ps[i..]) == ws && l == l0 && c == c0
                else OnCourse(b.Text(), NonEmpty(ps[i..]), width - l, c, q, ch, goal)
      invariant |NonEmpty(ps[i..])| == c
    {
      NextWord(ps, i);
      assert ps[i] == sl.entry[i];
      if |sl.entry[i]| > 0 {
        if b.slen > 0 {
          l := PutSpaced(b, sl.entry[i], width, l, c, ch, NonEmpty(ps[i..]), q, goal);
        } else {
          PutWord(b, sl.entry[i]);
          assert [] + ps[i] == ps[i];
        }
        c := c - 1;
        if c <= 0 {
          Arrived(b.Text(), NonEmpty(ps[i + 1..]), width - l, c, q, ch, goal);
          return;
        }
      }
      i := i + 1;
    }
    NoWord(ps, i);
  }

  /** A gap and a word behind the words that are there. */
  method PutSpaced(b: BString, w: Text, width: int, l: nat, c: nat, ch: byte,
                   ghost ws: seq<Text>, ghost q: nat, ghost goal: Text) returns (l': nat)
    requires b.Valid() && b.slen <= width && width + 2 < SIZE_LIMIT && |goal| == width
    requires OnCourse(b.Text(), ws, width - l, c, q, ch, goal) && ws != [] && ws[0] == w && c > 0
    modifies b, b.data
    ensures b.Valid() && (b.data == old(b.data) || fresh(b.data)) && old(b.slen) + |w| <= b.slen <= width
    ensures OnCourse(b.Text(), ws[1..], width - l', c - 1, q, ch, goal)
  {
    OnCourseNext(b.Text(), ws, width - l, c, q, ch, goal);
    var s := Rounded(width - l, c);
    CourseLength(b.Text(), ws, width - l, c, q, ch, goal);
    hide *;
    PutGap(b, s, ch);
    PutWord(b, w);
    l' := l + s;
  }

  lemma CourseLength(text: Text, ws: seq<Text>, r: int, c: int, q: nat, ch: byte, goal: Text)
    requires OnCourse(text, ws, r, c, q, ch, goal)
    ensures c == |ws|
  {
  }

  /** Spaces behind the text. */
  method PutGap(b: BString, s: nat, ch: byte)
    requires b.Valid() && b.slen + s + 1 < SIZE_LIMIT
    modifies b, b.data
    ensures b.Valid() && b.Text() == old(b.Text()) + Fill(s, ch) && (b.data == old(b.data) || fresh(b.data))
  {
    hide Head, Tail, Fill;
    AtEnd(b.Text(), s, ch);
    var ret := InsertChrs(b, b.slen, s, ch, ch);
  }

  /** The spaces for the next of c gaps. */
  method Rounded(left: int, c: nat) returns (s: nat)
    requires left >= 0 && c > 0
    ensures s == Gap(left, c)
  {
    s := (left + c / 2) / c;
  }

  lemma AtEnd(t: Text, n: nat, ch: byte)
    ensures Head(t, |t|, ch) + Fill(n, ch) + Tail(t, |t|) == t + Fill(n, ch)
  {
    assert Head(t, |t|, ch) == t && Tail(t, |t|) == [];
  }
}
