/** Splitting a string at a character or at a separator string, and joining the pieces. */
module BSplit {
  import opened BString
  import BSearch

  // ---------- the meaning ----------

  /** The pieces with the separator between them. */
  function Join(ps: seq<Text>, sep: Text): Text {
    if ps == [] then []
    else if |ps| == 1 then ps[0]
    else Join(ps[..|ps| - 1], sep) + sep + ps[|ps| - 1]
  }

  /** Where c is first from position p on, or the length. */
  function Until(s: Text, p: nat, c: byte): (i: nat)
    requires p <= |s|
    ensures p <= i <= |s| && c !in s[p..i] && (i < |s| ==> s[i] == c)
    decreases |s| - p
  {
    if p == |s| || s[p] == c then p
    else
      var i := Until(s, p + 1, c);
      assert s[p..i] == [s[p]] + s[p + 1..i];
      i
  }

  /** The pieces of s from position p on. */
  function SplitFrom(s: Text, p: nat, c: byte): seq<Text>
    requires p <= |s|
    decreases |s| - p
  {
    var i := Until(s, p, c);
    if i == |s| then [s[p..]] else [s[p..i]] + SplitFrom(s, i + 1, c)
  }

  function Singles(s: Text, p: nat): seq<Text>
    requires p <= |s|
    decreases |s| - p
  {
    if p == |s| then [] else [[s[p]]] + Singles(s, p + 1)
  }

  predicate Match(s: Text, i: nat, sep: Text) {
    BSearch.MatchAt(s, i, sep)
  }

  /** A piece starts at p, and separators are looked for from i on. Behind a separator the search goes
      on one position later than the piece starts. */
  function SplitStrFrom(s: Text, p: nat, i: nat, sep: Text): seq<Text>
    requires p <= |s| && p <= i && |sep| > 0
    decreases |s| + 1 - i
  {
    if i + |sep| > |s| then [s[p..]]
    else if Match(s, i, sep) then [s[p..i]] + SplitStrFrom(s, i + |sep|, i + |sep| + 1, sep)
    else SplitStrFrom(s, p, i + 1, sep)
  }

  /** All pieces of s. */
  function SplitChar(s: Text, c: byte): seq<Text> {
    SplitFrom(s, 0, c)
  }

  function SplitStrAt(s: Text, pos: nat, sep: Text): seq<Text>
    requires pos <= |s|
  {
    if sep == [] then Singles(s, pos)
    else if |sep| == 1 then SplitFrom(s, pos, sep[0])
    else SplitStrFrom(s, pos, pos, sep)
  }

  function SplitStr(s: Text, sep: Text): seq<Text> {
    SplitStrAt(s, 0, sep)
  }

  // ---------- joining undoes splitting ----------

  lemma {:induction false} JoinFront(p: Text, ps: seq<Text>, sep: Text)
    requires ps != []
    ensures Join([p] + ps, sep) == p + sep + Join(ps, sep)
    decreases |ps|
  {
    var all := [p] + ps;
    var last := ps[|ps| - 1];
    assert all[..|all| - 1] == [p] + ps[..|ps| - 1];
    if |ps| > 1 {
      JoinFront(p, ps[..|ps| - 1], sep);
      var mid := Join(ps[..|ps| - 1], sep);
      assert p + sep + mid + sep + last == p + sep + (mid + sep + last);
    } else {
      assert all[..1] == [p];
    }
  }

  lemma {:induction false} JoinSplitFrom(s: Text, p: nat, c: byte)
    requires p <= |s|
    ensures Join(SplitFrom(s, p, c), [c]) == s[p..] && SplitFrom(s, p, c) != []
    decreases |s| - p
  {
    hide Join, Until;
    var i := Until(s, p, c);
    if i == |s| {
      OnePiece(s[p..], [c]);
    } else {
      JoinSplitFrom(s, i + 1, c);
      JoinFront(s[p..i], SplitFrom(s, i + 1, c), [c]);
      assert s[p..] == s[p..i] + [c] + s[i + 1..];
    }
  }

  lemma {:induction false} PiecesClean(s: Text, p: nat, c: byte)
    requires p <= |s|
    ensures forall k :: 0 <= k < |SplitFrom(s, p, c)| ==> c !in SplitFrom(s, p, c)[k]
    decreases |s| - p
  {
    var i := Until(s, p, c);
    if i < |s| {
      PiecesClean(s, i + 1, c);
      var rest := SplitFrom(s, i + 1, c);
      forall k | 0 <= k < |SplitFrom(s, p, c)|
        ensures c !in SplitFrom(s, p, c)[k]
      {
        if k > 0 { assert SplitFrom(s, p, c)[k] == rest[k - 1]; }
      }
    } else {
      assert s[p..] == s[p..i];
    }
  }

  /** Splitting at a character: joined again the pieces are the string, and none has the character. */
  lemma SplitJoin(s: Text, c: byte)
    ensures Join(SplitChar(s, c), [c]) == s
    ensures forall k :: 0 <= k < |SplitChar(s, c)| ==> c !in SplitChar(s, c)[k]
  {
    JoinSplitFrom(s, 0, c);
    PiecesClean(s, 0, c);
    assert s[0..] == s;
  }

  lemma {:induction false} UntilIs(s: Text, p: nat, c: byte, i: nat)
    requires p <= i <= |s| && c !in s[p..i] && (i < |s| ==> s[i] == c)
    ensures Until(s, p, c) == i
    decreases i - p
  {
    if p < i {
      assert s[p] == s[p..i][0] && s[p + 1..i] == s[p..i][1..];
      UntilIs(s, p + 1, c, i);
    }
  }

  /** The pieces are the only ones with both properties: splitting undoes joining. */
  lemma {:induction false} JoinSplit(pre: Text, ps: seq<Text>, c: byte)
    requires ps != [] && forall k :: 0 <= k < |ps| ==> c !in ps[k]
    ensures SplitFrom(pre + Join(ps, [c]), |pre|, c) == ps
    decreases |ps|
  {
    hide Join, SplitFrom;
    var x, rest := ps[0], ps[1..];
    assert ps == [x] + rest;
    if rest == [] {
      OnePiece(x, [c]);
      assert ps == [x];
      LastPiece(pre, x, c);
    } else {
      JoinFront(x, rest, [c]);
      var next := pre + x + [c];
      JoinSplit(next, rest, c);
      FrontPiece(pre, x, c, Join(rest, [c]));
    }
  }

  lemma OnePiece(x: Text, sep: Text)
    ensures Join([x], sep) == x
  {
  }

  lemma LastPiece(pre: Text, x: Text, c: byte)
    requires c !in x
    ensures SplitFrom(pre + x, |pre|, c) == [x]
  {
    hide SplitFrom;
    var s := pre + x;
    assert s[|pre|..] == x && s[|pre|..|s|] == x;
    UntilIs(s, |pre|, c, |s|);
    NextPiece(s, |pre|, c, []);
    NoneBefore([x], [], SplitFrom(s, |pre|, c));
  }

  /** A piece without c and the terminator behind it. */
  lemma FrontPiece(pre: Text, x: Text, c: byte, rest: Text)
    requires c !in x
    ensures var s := pre + (x + [c] + rest);
            s == pre + x + [c] + rest && SplitFrom(s, |pre|, c) == [x] + SplitFrom(s, |pre| + |x| + 1, c)
  {
    hide SplitFrom;
    var s := pre + x + [c] + rest;
    var n := |pre| + |x|;
    assert s == pre + (x + [c] + rest);
    assert s[|pre|..n] == x && s[n] == c;
    UntilIs(s, |pre|, c, n);
    NextPiece(s, |pre|, c, []);
    NoneBefore([x], SplitFrom(s, n + 1, c), SplitFrom(s, |pre|, c));
  }

  lemma NoneBefore(a: seq<Text>, b: seq<Text>, c: seq<Text>)
    requires [] + c == [] + a + b
    ensures c == a + b
  {
    assert [] + c == c && [] + a == a;
  }

  lemma {:induction false} JoinSingles(s: Text, p: nat)
    requires p <= |s|
    ensures Join(Singles(s, p), []) == s[p..]
    decreases |s| - p
  {
    if p < |s| {
      JoinSingles(s, p + 1);
      if p + 1 < |s| {
        JoinFront([s[p]], Singles(s, p + 1), []);
        assert s[p..] == [s[p]] + [] + s[p + 1..];
      } else {
        assert s[p..] == [s[p]];
      }
    }
  }

  lemma {:induction false} JoinSplitStrFrom(s: Text, p: nat, i: nat, sep: Text)
    requires p <= |s| && p <= i && |sep| > 0
    ensures Join(SplitStrFrom(s, p, i, sep), sep) == s[p..] && SplitStrFrom(s, p, i, sep) != []
    decreases |s| + 1 - i
  {
    hide Join;
    if i + |sep| > |s| {
      OnePiece(s[p..], sep);
    } else {
      if Match(s, i, sep) {
        var q := i + |sep|;
        JoinSplitStrFrom(s, q, q + 1, sep);
        JoinFront(s[p..i], SplitStrFrom(s, q, q + 1, sep), sep);
        assert s[p..] == s[p..i] + s[i..q] + s[q..];
      } else {
        JoinSplitStrFrom(s, p, i + 1, sep);
      }
    }
  }

  /** Splitting from any position, at any separator, the empty one included: joined again the pieces are
      the string from there on. */
  lemma SplitStrAtJoin(s: Text, pos: nat, sep: Text)
    requires pos <= |s|
    ensures Join(SplitStrAt(s, pos, sep), sep) == s[pos..]
  {
    if sep == [] {
      JoinSingles(s, pos);
    } else if |sep| == 1 {
      JoinSplitFrom(s, pos, sep[0]);
      assert sep == [sep[0]];
    } else {
      JoinSplitStrFrom(s, pos, pos, sep);
    }
  }

  lemma SplitStrJoin(s: Text, sep: Text)
    ensures Join(SplitStr(s, sep), sep) == s
  {
    SplitStrAtJoin(s, 0, sep);
    assert s[0..] == s;
  }

  // ---------- separators inside the pieces ----------

  /** A piece can hold the separator at its beginning, because the search skips that position. */
  lemma PieceWithSeparator()
    ensures SplitStr([97, 98, 97, 98], [97, 98]) == [[], [97, 98]]
  {
    var s: Text, sep: Text := [97, 98, 97, 98], [97, 98];
    assert s[0..2] == sep && s[2..] == sep && s[0..0] == [];
    assert SplitStrFrom(s, 2, 3, sep) == [s[2..]];
  }

  /** It can be nowhere else in a piece: what is looked at is found. `skipped` says that position p was
      not looked at. */
  lemma {:induction false} OnlyAtFrontFrom(s: Text, p: nat, i: nat, sep: Text, skipped: bool, k: nat, j: nat)
    requires p <= |s| && p <= i && |sep| > 0 && k < |SplitStrFrom(s, p, i, sep)|
    requires forall h :: p <= h < i && (skipped ==> h > p) ==> !Match(s, h, sep)
    requires Match(SplitStrFrom(s, p, i, sep)[k], j, sep)
    ensures j == 0 && (k == 0 ==> skipped)
    decreases |s| + 1 - i
  {
    hide Match;
    var ps := SplitStrFrom(s, p, i, sep);
    if i + |sep| > |s| {
      InPiece(s, p, |s|, sep, j);
      assert ps[0] == s[p..|s|];
    } else if Match(s, i, sep) {
      if k == 0 {
        InPiece(s, p, i, sep, j);
      } else {
        var q := i + |sep|;
        assert ps[k] == SplitStrFrom(s, q, q + 1, sep)[k - 1];
        OnlyAtFrontFrom(s, q, q + 1, sep, true, k - 1, j);
      }
    } else {
      OnlyAtFrontFrom(s, p, i + 1, sep, skipped, k, j);
    }
  }

  lemma InPiece(s: Text, p: nat, e: nat, sep: Text, j: nat)
    requires p <= e <= |s|
    ensures Match(s[p..e], j, sep) ==> Match(s, p + j, sep) && p + j + |sep| <= e
  {
    if Match(s[p..e], j, sep) { SliceOfSlice(s, p, e, j, j + |sep|); }
  }

  lemma SliceOfSlice(s: Text, p: nat, e: nat, i: nat, j: nat)
    requires p <= e <= |s| && i <= j <= e - p
    ensures s[p..e][i..j] == s[p + i..p + j]
  {
    var a, b := s[p..e][i..j], s[p + i..p + j];
    assert forall k :: 0 <= k < j - i ==> a[k] == s[p + i + k] == b[k];
  }

  /** A piece of a split at a longer separator holds it at most at its own beginning, and the first
      piece not at all. */
  lemma OnlyAtFront(s: Text, sep: Text, k: nat, j: nat)
    requires |sep| > 1 && k < |SplitStr(s, sep)| && Match(SplitStr(s, sep)[k], j, sep)
    ensures j == 0 && k > 0
  {
    OnlyAtFrontFrom(s, 0, 0, sep, false, k, j);
  }

  /** Where the separators end that are found when the search is at position i. */
  function Ends(s: Text, i: nat, sep: Text): seq<nat>
    requires |sep| > 0
    decreases |s| + 1 - i
  {
    if i + |sep| > |s| then []
    else if Match(s, i, sep) then [i + |sep|] + Ends(s, i + |sep| + 1, sep)
    else Ends(s, i + 1, sep)
  }

  /** A separator stands at q and none begins inside it. */
  predicate Alone(s: Text, q: nat, sep: Text) {
    Match(s, q, sep) && forall h :: q < h < q + |sep| ==> !Match(s, h, sep)
  }

  ghost predicate Contains(x: Text, sep: Text) {
    exists j: nat :: Match(x, j, sep)
  }

  /** Some piece contains the separator. */
  ghost predicate Holds(ps: seq<Text>, sep: Text) {
    exists k :: 0 <= k < |ps| && Contains(ps[k], sep)
  }

  /** At one of these positions a separator stands alone. */
  ghost predicate SomeAlone(qs: seq<nat>, s: Text, sep: Text) {
    exists n :: 0 <= n < |qs| && Alone(s, qs[n], sep)
  }

  lemma HoldsFirst(x: Text, ps: seq<Text>, sep: Text)
    ensures Holds([x] + ps, sep) <==> Contains(x, sep) || Holds(ps, sep)
  {
    var all := [x] + ps;
    if Contains(x, sep) { assert all[0] == x; }
    if Holds(ps, sep) {
      var k :| 0 <= k < |ps| && Contains(ps[k], sep);
      assert all[k + 1] == ps[k];
    }
  }

  lemma SomeAloneFirst(q: nat, qs: seq<nat>, s: Text, sep: Text)
    ensures SomeAlone([q] + qs, s, sep) <==> Alone(s, q, sep) || SomeAlone(qs, s, sep)
  {
    var all := [q] + qs;
    if Alone(s, q, sep) { assert all[0] == q; }
    if SomeAlone(qs, s, sep) {
      var k :| 0 <= k < |qs| && Alone(s, qs[k], sep);
      assert all[k + 1] == qs[k];
    }
  }

  /** No separator begins between p and i; at p itself it may, when p was skipped. */
  predicate Searched(s: Text, p: nat, i: nat, sep: Text, skipped: bool) {
    && p <= |s| && p <= i && (skipped ==> p < i)
    && forall h :: p <= h < i && (skipped ==> h > p) ==> !Match(s, h, sep)
  }

  /** The piece from p up to e, where the next separator begins or there is no room for one. */
  lemma PieceContains(s: Text, p: nat, i: nat, e: nat, sep: Text, skipped: bool)
    requires Searched(s, p, i, sep, skipped) && |sep| > 0
    requires (e == i <= |s| && Match(s, i, sep)) || (e == |s| && i + |sep| > |s|)
    ensures Contains(s[p..e], sep) <==> skipped && Alone(s, p, sep)
  {
    if Contains(s[p..e], sep) {
      var j: nat :| Match(s[p..e], j, sep);
      InPiece(s, p, e, sep, j);
      assert p + j < i;
    }
    if skipped && Alone(s, p, sep) {
      SliceOfSlice(s, p, e, 0, |sep|);
      assert Match(s[p..e], 0, sep);
    }
  }

  /** A piece contains the separator exactly when it stands alone at the end of one that was found, or
      at p when that was skipped. */
  lemma {:induction false} HoldsFrom(s: Text, p: nat, i: nat, sep: Text, skipped: bool)
    requires |sep| > 0 && Searched(s, p, i, sep, skipped)
    ensures Holds(SplitStrFrom(s, p, i, sep), sep) <==>
            (skipped && Alone(s, p, sep)) || SomeAlone(Ends(s, i, sep), s, sep)
    decreases |s| + 1 - i
  {
    hide Holds, SomeAlone, Contains, Alone, Match;
    if i + |sep| > |s| {
      PieceContains(s, p, i, |s|, sep, skipped);
      assert s[p..] == s[p..|s|] && [s[p..]] == [s[p..]] + [];
      HoldsFirst(s[p..], [], sep);
      NothingHeld(s, sep);
    } else if Match(s, i, sep) {
      var q := i + |sep|;
      PieceContains(s, p, i, i, sep, skipped);
      HoldsFirst(s[p..i], SplitStrFrom(s, q, q + 1, sep), sep);
      SomeAloneFirst(q, Ends(s, q + 1, sep), s, sep);
      HoldsFrom(s, q, q + 1, sep, true);
    } else {
      HoldsFrom(s, p, i + 1, sep, skipped);
    }
  }

  lemma NothingHeld(s: Text, sep: Text)
    ensures !Holds([], sep) && !SomeAlone([], s, sep)
  {
  }

  /** Some piece of a split at a longer separator contains it exactly when at the end of a separator
      that was found another one stands, and none begins inside that. */
  lemma HoldsIff(s: Text, sep: Text)
    requires |sep| > 1
    ensures Holds(SplitStr(s, sep), sep) <==> SomeAlone(Ends(s, 0, sep), s, sep)
  {
    HoldsFrom(s, 0, 0, sep, false);
  }

  lemma {:induction false} EndsBehind(s: Text, i: nat, sep: Text, n: nat)
    requires |sep| > 0 && n < |Ends(s, i, sep)|
    ensures Ends(s, i, sep)[n] >= |sep| && Match(s, Ends(s, i, sep)[n] - |sep|, sep)
    decreases |s| + 1 - i
  {
    hide Match;
    if Match(s, i, sep) {
      if n > 0 {
        assert Ends(s, i, sep)[n] == Ends(s, i + |sep| + 1, sep)[n - 1];
        EndsBehind(s, i + |sep| + 1, sep, n - 1);
      }
    } else {
      EndsBehind(s, i + 1, sep, n);
    }
  }

  lemma Doubled(s: Text, h: nat, sep: Text)
    ensures Match(s, h, sep + sep) <==> Match(s, h, sep) && Match(s, h + |sep|, sep)
  {
    var n := |sep|;
    if h + 2 * n <= |s| {
      assert s[h..h + |sep + sep|] == s[h..h + n] + s[h + n..h + n + n];
      if Match(s, h, sep + sep) {
        assert s[h..h + n] == (sep + sep)[..n] && s[h + n..h + n + n] == (sep + sep)[n..];
      }
    }
  }

  /** Without two separators in a row no piece holds one. */
  lemma NoDoubleNoSeparator(s: Text, sep: Text)
    requires |sep| > 1 && forall h: nat :: !Match(s, h, sep + sep)
    ensures !Holds(SplitStr(s, sep), sep)
  {
    hide Match;
    HoldsIff(s, sep);
    if SomeAlone(Ends(s, 0, sep), s, sep) {
      var n :| 0 <= n < |Ends(s, 0, sep)| && Alone(s, Ends(s, 0, sep)[n], sep);
      EndsBehind(s, 0, sep, n);
      Doubled(s, Ends(s, 0, sep)[n] - |sep|, sep);
    }
  }

  /** No proper beginning of the separator is also its end. */
  predicate Unbordered(sep: Text) {
    forall n :: 0 < n < |sep| ==> sep[..n] != sep[|sep| - n..]
  }

  /** Where two separators overlap, the beginning of one is the end of the other. */
  lemma Overlap(s: Text, a: nat, b: nat, sep: Text)
    requires Match(s, a, sep) && Match(s, b, sep) && a < b < a + |sep|
    ensures var n := a + |sep| - b; sep[..n] == sep[|sep| - n..]
  {
    var n := a + |sep| - b;
    SliceOfSlice(s, a, a + |sep|, |sep| - n, |sep|);
    SliceOfSlice(s, b, b + |sep|, 0, n);
    assert sep[|sep| - n..] == sep[|sep| - n..|sep|] && sep[..n] == sep[0..n];
  }

  lemma NoOverlap(s: Text, a: nat, b: nat, sep: Text)
    requires Unbordered(sep) && Match(s, a, sep) && a < b < a + |sep|
    ensures !Match(s, b, sep)
  {
    if Match(s, b, sep) { Overlap(s, a, b, sep); }
  }

  lemma AloneUnbordered(s: Text, q: nat, sep: Text)
    requires Unbordered(sep) && Match(s, q, sep)
    ensures Alone(s, q, sep)
  {
    hide Match, Unbordered;
    forall x | q < x < q + |sep|
      ensures !Match(s, x, sep)
    {
      NoOverlap(s, q, x, sep);
    }
  }

  lemma {:induction false} DoubleSeen(s: Text, i: nat, sep: Text, h: nat)
    requires |sep| > 0 && Unbordered(sep) && i <= h && Match(s, h, sep) && Match(s, h + |sep|, sep)
    ensures SomeAlone(Ends(s, i, sep), s, sep)
    decreases |s| + 1 - i
  {
    hide Match, Unbordered, Alone, SomeAlone;
    RoomFor(s, h + |sep|, sep);
    if Match(s, i, sep) {
      var q := i + |sep|;
      SomeAloneFirst(q, Ends(s, q + 1, sep), s, sep);
      if h == i || h == q {
        AloneUnbordered(s, q, sep);
      } else {
        NotInside(s, i, h, sep);
        DoubleSeen(s, q + 1, sep, h);
      }
    } else {
      DoubleSeen(s, i + 1, sep, h);
    }
  }

  lemma RoomFor(s: Text, h: nat, sep: Text)
    requires Match(s, h, sep)
    ensures h + |sep| <= |s|
  {
  }

  lemma NotInside(s: Text, a: nat, b: nat, sep: Text)
    requires Unbordered(sep) && Match(s, a, sep) && Match(s, b, sep) && a < b
    ensures a + |sep| <= b
  {
    hide Match, Unbordered;
    if b < a + |sep| { NoOverlap(s, a, b, sep); }
  }

  /** For a separator no proper beginning of which is also its end: some piece contains it exactly when
      two of them stand in a row. */
  lemma HoldsIffDouble(s: Text, sep: Text)
    requires |sep| > 1 && Unbordered(sep)
    ensures Holds(SplitStr(s, sep), sep) <==> exists h: nat :: Match(s, h, sep + sep)
  {
    hide Match, Unbordered;
    if h: nat :| Match(s, h, sep + sep) {
      Doubled(s, h, sep);
      DoubleSeen(s, 0, sep, h);
      HoldsIff(s, sep);
    } else {
      NoDoubleNoSeparator(s, sep);
    }
  }

  /** Two in a row are not enough for other separators. */
  lemma DoubleWithoutSeparator()
    ensures var s: Text, sep: Text := [97, 97, 97, 97, 97], [97, 97];
      Match(s, 0, sep + sep) && SplitStr(s, sep) == [[], [97], []]
  {
    var s: Text, sep: Text := [97, 97, 97, 97, 97], [97, 97];
    assert s[0..2] == sep && s[3..5] == sep && s[0..0] == [] && s[2..3] == [97] && s[5..] == [];
    assert s[0..4] == sep + sep;
    assert SplitStrFrom(s, 5, 6, sep) == [s[5..]];
    assert SplitStrFrom(s, 2, 3, sep) == [s[2..3]] + SplitStrFrom(s, 5, 6, sep);
  }

  // ---------- the program ----------

  /** `struct bstrList`: `qty` strings in an array of `mlen`. */
  class StrList {
    var entry: array<Text>
    var qty: nat

    ghost predicate Valid()
      reads this
    {
      qty <= entry.Length && 4 <= entry.Length
    }

    /** Storing pieces does not change the text they are cut from. */
    ghost predicate Apart(v: View)
      reads this
    {
      v.Valid() && v.block as object != entry as object
    }

    ghost function Pieces(): seq<Text>
      requires Valid()
      reads this, entry
    {
      entry[..qty]
    }

    constructor ()
      ensures Valid() && Pieces() == [] && fresh(entry)
    {
      entry := new Text[4];
      qty := 0;
    }

    /** `bscb`: the next piece is added; a full array is doubled first, which is enough for one more. */
    method Add(str: View, ofs: int, len: int)
      requires Valid() && Apart(str)
      modifies this, entry
      ensures Valid() && Pieces() == old(Pieces()) + [Mid(old(str.Text()), ofs, len)]
      ensures entry == old(entry) || fresh(entry)
    {
      ghost var ps := Pieces();
      if qty >= entry.Length {
        var mlen := entry.Length * 2;
        var tbl := new Text[mlen];
        forall i | 0 <= i < qty {
          tbl[i] := entry[i];
        }
        entry := tbl;
      }
      assert Pieces() == ps;
      var piece := CutOut(str, ofs, len);
      entry[qty] := piece;
      qty := qty + 1;
      assert Pieces() == ps + [piece];
    }
  }

  /** `bmidstr` */
  method CutOut(str: View, left: int, len: int) returns (r: Text)
    requires str.Valid()
    ensures r == Mid(str.Text(), left, len)
  {
    var lo, l := if left < 0 then 0 else left, if left < 0 then len + left else len;
    if l > str.len - lo { l := str.len - lo; }
    if l <= 0 { return []; }
    MidOfView(str, left, len, View(str.block, str.start + lo, l));
    r := str.block[str.start + lo..str.start + lo + l];
  }

  lemma MidIs(s: Text, p: nat, i: nat)
    requires p <= i <= |s|
    ensures Mid(s, p, i - p) == s[p..i]
  {
  }

  /** `bsplitcb`, with `bscb` as its callback. */
  method SplitCb(str: View, c: byte, pos: int, bl: StrList) returns (ret: int)
    requires bl.Valid() && bl.Apart(str)
    modifies bl, bl.entry
    ensures bl.Valid() && (ret == ERR <==> pos < 0 || pos > str.len) && (ret == ERR || ret == OK)
    ensures bl.Pieces() == old(bl.Pieces()) + (if ret == ERR then [] else SplitFrom(old(str.Text()), pos, c))
    ensures bl.entry == old(bl.entry) || fresh(bl.entry)
  {
    hide SplitFrom;
    ghost var s, before := str.Text(), bl.Pieces();
    if pos < 0 || pos > str.len {
      assert before + [] == before;
      return ERR;
    }
    var p := pos;
    ghost var goal := before + SplitFrom(s, p, c);
    while p <= str.len
      invariant bl.Valid() && (bl.entry == old(bl.entry) || fresh(bl.entry)) && bl.Apart(str) && str.Text() == s && 0 <= p <= str.len + 1
      invariant bl.Pieces() + (if p <= str.len then SplitFrom(s, p, c) else []) == goal
      decreases str.len + 1 - p
    {
      var i := FindUntil(str, p, c);
      ghost var done := bl.Pieces();
      NextPiece(s, p, c, done);
      MidIs(s, p, i);
      bl.Add(str, p, i - p);
      p := i + 1;
    }
    assert bl.Pieces() + [] == bl.Pieces();
    ret := OK;
  }

  lemma NextPiece(s: Text, p: nat, c: byte, done: seq<Text>)
    requires p <= |s|
    ensures var i := Until(s, p, c);
            done + SplitFrom(s, p, c) == done + [s[p..i]] + (if i < |s| then SplitFrom(s, i + 1, c) else [])
  {
    hide Until;
    var i := Until(s, p, c);
    PieceFirst(s, p, c);
    Behind(done, [s[p..i]], if i < |s| then SplitFrom(s, i + 1, c) else []);
  }

  lemma PieceFirst(s: Text, p: nat, c: byte)
    requires p <= |s|
    ensures var i := Until(s, p, c);
            SplitFrom(s, p, c) == [s[p..i]] + (if i < |s| then SplitFrom(s, i + 1, c) else [])
  {
    hide Until;
    if Until(s, p, c) == |s| { assert s[p..] == s[p..|s|] && [s[p..]] + [] == [s[p..]]; }
  }

  lemma Behind(a: seq<Text>, b: seq<Text>, c: seq<Text>)
    ensures a + (b + c) == a + b + c
  {
  }

  method FindUntil(str: View, p: nat, c: byte) returns (i: nat)
    requires str.Valid() && p <= str.len
    ensures i == Until(str.Text(), p, c)
  {
    hide Until;
    ghost var s := str.Text();
    i := p;
    while i < str.len && str.block[str.start + i] != c
      invariant p <= i <= str.len && Until(s, i, c) == Until(s, p, c)
    {
      UntilStep(s, i, c);
      assert s[i] == str.block[str.start + i];
      i := i + 1;
    }
    UntilStep(s, i, c);
    if i < str.len { assert s[i] == str.block[str.start + i]; }
  }

  lemma UntilStep(s: Text, i: nat, c: byte)
    requires i <= |s|
    ensures i == |s| || s[i] == c ==> Until(s, i, c) == i
    ensures i < |s| && s[i] != c ==> Until(s, i, c) == Until(s, i + 1, c)
  {
  }

  /** `bsplitstrcb`, with `bscb` as its callback. */
  method SplitStrCb(str: View, sep: View, pos: int, bl: StrList) returns (ret: int)
    requires bl.Valid() && bl.Apart(str) && bl.Apart(sep)
    modifies bl, bl.entry
    ensures bl.Valid() && (ret == ERR <==> pos < 0 || pos > str.len) && (ret == ERR || ret == OK)
    ensures bl.Pieces() == old(bl.Pieces()) + (if ret == ERR then [] else SplitStrAt(old(str.Text()), pos, old(sep.Text())))
  {
    hide SplitFrom, SplitStrFrom, Singles;
    ghost var s, w := str.Text(), sep.Text();
    if pos < 0 || pos > str.len {
      assert bl.Pieces() + [] == bl.Pieces();
      return ERR;
    }
    ret := OK;
    if sep.len == 0 {
      SplitSingles(str, pos, bl);
    } else if sep.len == 1 {
      assert w[0] == sep.block[sep.start];
      ret := SplitCb(str, sep.block[sep.start], pos, bl);
    } else {
      SplitLonger(str, sep, pos, bl);
    }
  }

  method SplitSingles(str: View, pos: nat, bl: StrList)
    requires bl.Valid() && bl.Apart(str) && pos <= str.len
    modifies bl, bl.entry
    ensures bl.Valid() && bl.Pieces() == old(bl.Pieces()) + Singles(old(str.Text()), pos)
  {
    ghost var s := str.Text();
    ghost var goal := bl.Pieces() + Singles(s, pos);
    var i := pos;
    while i < str.len
      invariant bl.Valid() && (bl.entry == old(bl.entry) || fresh(bl.entry)) && bl.Apart(str) && str.Text() == s && i <= str.len
      invariant bl.Pieces() + Singles(s, i) == goal
    {
      ghost var done := bl.Pieces();
      MidIs(s, i, i + 1);
      assert s[i..i + 1] == [s[i]];
      bl.Add(str, i, 1);
      assert done + Singles(s, i) == done + [[s[i]]] + Singles(s, i + 1);
      i := i + 1;
    }
    assert bl.Pieces() + [] == bl.Pieces();
  }

  method SplitLonger(str: View, sep: View, pos: nat, bl: StrList)
    requires bl.Valid() && bl.Apart(str) && bl.Apart(sep) && sep.len > 1 && pos <= str.len
    modifies bl, bl.entry
    ensures bl.Valid() && bl.Pieces() == old(bl.Pieces()) + SplitStrFrom(old(str.Text()), pos, pos, old(sep.Text()))
  {
    hide SplitStrFrom, Match;
    ghost var s, w := str.Text(), sep.Text();
    ghost var goal := bl.Pieces() + SplitStrFrom(s, pos, pos, w);
    var p, i := pos, pos;
    while i + sep.len <= str.len
      invariant bl.Valid() && (bl.entry == old(bl.entry) || fresh(bl.entry)) && bl.Apart(str) && str.Text() == s && 0 <= p <= str.len && p <= i
      invariant bl.Apart(sep) && sep.Text() == w
      invariant bl.Pieces() + SplitStrFrom(s, p, i, w) == goal
      decreases str.len + 1 - i
    {
      ghost var done := bl.Pieces();
      NextStrPiece(s, p, i, w, done);
      var same := SameAt(str, i, sep);
      if same {
        MidIs(s, p, i);
        bl.Add(str, p, i - p);
        i := i + sep.len;
        p := i;
      }
      i := i + 1;
    }
    NextStrPiece(s, p, i, w, bl.Pieces());
    MidIs(s, p, str.len);
    assert s[p..str.len] == s[p..];
    bl.Add(str, p, str.len - p);
  }

  lemma NextStrPiece(s: Text, p: nat, i: nat, sep: Text, done: seq<Text>)
    requires p <= |s| && p <= i && |sep| > 0
    ensures done + SplitStrFrom(s, p, i, sep) ==
      if i + |sep| > |s| then done + [s[p..]]
      else if Match(s, i, sep) then done + [s[p..i]] + SplitStrFrom(s, i + |sep|, i + |sep| + 1, sep)
      else done + SplitStrFrom(s, p, i + 1, sep)
  {
  }

  /** `memcmp` of the separator with the text at i. */
  method SameAt(str: View, i: nat, sep: View) returns (same: bool)
    requires str.Valid() && sep.Valid() && i + sep.len <= str.len
    ensures same <==> Match(str.Text(), i, sep.Text())
  {
    ghost var s, w := str.Text(), sep.Text();
    ghost var part := s[i..i + sep.len];
    var k := 0;
    while k < sep.len && str.block[str.start + i + k] == sep.block[sep.start + k]
      invariant k <= sep.len && forall h :: 0 <= h < k ==> part[h] == w[h]
    {
      assert part[k] == s[i + k] == str.block[str.start + i + k] && w[k] == sep.block[sep.start + k];
      k := k + 1;
    }
    same := k == sep.len;
    if same {
      assert part == w;
    } else {
      assert part[k] == s[i + k] == str.block[str.start + i + k] && w[k] == sep.block[sep.start + k];
    }
  }

  /** `bsplit` */
  method BSplit(str: View, c: byte) returns (bl: StrList)
    requires str.Valid()
    ensures fresh(bl) && fresh(bl.entry) && bl.Valid() && bl.Pieces() == SplitChar(str.Text(), c)
  {
    bl := new StrList();
    var ret := SplitCb(str, c, 0, bl);
    assert [] + SplitFrom(str.Text(), 0, c) == SplitFrom(str.Text(), 0, c);
  }

  /** `bsplitstr` */
  method BSplitStr(str: View, sep: View) returns (bl: StrList)
    requires str.Valid() && sep.Valid()
    ensures fresh(bl) && bl.Valid() && bl.Pieces() == SplitStr(str.Text(), sep.Text())
  {
    hide SplitStrAt;
    bl := new StrList();
    var ret := SplitStrCb(str, sep, 0, bl);
    assert [] + SplitStr(str.Text(), sep.Text()) == SplitStr(str.Text(), sep.Text());
  }

  function Total(ps: seq<Text>): nat {
    if ps == [] then 0 else Total(ps[..|ps| - 1]) + |ps[|ps| - 1]|
  }

  /** What n - 1 separators of a length take. */
  function Between(n: int, len: nat): int {
    (n - 1) * len
  }

  lemma OneBetween(n: int, len: nat)
    ensures Between(1, len) == 0 && Between(n + 1, len) == Between(n, len) + len && Between(n, 0) == 0
  {
  }

  lemma {:induction false} JoinLength(ps: seq<Text>, sep: Text)
    requires ps != [] || sep == []
    ensures |Join(ps, sep)| == Total(ps) + Between(|ps|, |sep|)
  {
    hide Between;
    OneBetween(|ps| - 1, |sep|);
    OneBetween(|ps|, |sep|);
    if |ps| == 1 {
      assert ps[..0] == [];
    } else if |ps| > 1 {
      JoinLength(ps[..|ps| - 1], sep);
    }
  }

  lemma {:induction false} JoinGrows(ps: seq<Text>, sep: Text, n: nat)
    requires n <= |ps|
    ensures |Join(ps[..n], sep)| <= |Join(ps, sep)|
  {
    if n == |ps| {
      assert ps[..n] == ps;
    } else {
      JoinGrows(ps[..|ps| - 1], sep, n);
      assert ps[..|ps| - 1][..n] == ps[..n];
    }
  }

  lemma JoinNext(ps: seq<Text>, sep: Text, i: nat)
    requires i < |ps|
    ensures Join(ps[..i + 1], sep) == Join(ps[..i], sep) + (if i > 0 then sep else []) + ps[i]
  {
    assert ps[..i + 1][..i] == ps[..i];
  }

  method PutAt(data: array<byte>, at: nat, t: Text) returns (next: nat)
    requires at + |t| <= data.Length
    modifies data
    ensures next == at + |t| && data[..next] == old(data[..at]) + t
  {
    forall i | 0 <= i < |t| {
      data[at + i] := t[i];
    }
    next := at + |t|;
  }

  /** The length `bjoin` computes before it copies anything. */
  method JoinedSize(bl: StrList, seplen: nat) returns (c: int)
    requires bl.Valid()
    ensures c == 1 + Total(bl.Pieces()) + Between(bl.qty, seplen)
  {
    ghost var ps := bl.Pieces();
    c := 1;
    var i := 0;
    while i < bl.qty
      invariant i <= bl.qty && c == 1 + Total(ps[..i])
    {
      assert ps[..i + 1][..i] == ps[..i] && ps[i] == bl.entry[i];
      c := c + |bl.entry[i]|;
      i := i + 1;
    }
    assert ps[..i] == ps;
    c := c + (bl.qty - 1) * seplen;
  }

  /** The size that `bjoin` computes, with room for the terminator, is positive exactly when there is a
      piece or no separator. */
  lemma JoinRoom(ps: seq<Text>, sep: Text)
    ensures Total(ps) + 1 + Between(|ps|, |sep|) > 0 <==> ps != [] || sep == []
  {
    if ps != [] || sep == [] {
      JoinLength(ps, sep);
    }
  }

  /** `bjoin`. An empty list has no join with a non-empty separator: the computed length would not be
      positive. */
  method BJoin(bl: StrList, sep: View) returns (b: BString)
    requires bl.Valid() && sep.Valid() && (bl.qty > 0 || sep.len == 0)
    ensures fresh(b) && b.Terminated() && b.Text() == Join(bl.Pieces(), sep.Text())
  {
    hide Join, Total, Between;
    ghost var ps, w := bl.Pieces(), sep.Text();
    JoinLength(ps, w);
    var size := JoinedSize(bl, sep.len);
    b := new BString.Exact(size);
    var data := b.data;
    var c: nat := 0;
    var i := 0;
    JoinGrows(ps, w, 0);
    NoPieces(ps, w);
    while i < bl.qty
      invariant i <= bl.qty && c < size && bl.Pieces() == ps && sep.Text() == w
      invariant b.data == data && b.slen == size - 1 && data[..c] == Join(ps[..i], w)
    {
      JoinNext(ps, w, i);
      JoinGrows(ps, w, i + 1);
      if i > 0 { c := PutAt(data, c, sep.block[sep.start..sep.start + sep.len]); }
      c := PutAt(data, c, bl.entry[i]);
      i := i + 1;
    }
    assert ps[..i] == ps;
    data[c] := 0;
  }

  lemma NoPieces(ps: seq<Text>, sep: Text)
    ensures Join(ps[..0], sep) == []
  {
  }

  // ---------- both together ----------

  /** A split at a separator that is not empty has a piece, so it can be joined. */
  lemma SomePiece(s: Text, sep: Text)
    requires sep != []
    ensures SplitStr(s, sep) != []
  {
    if |sep| == 1 {
      JoinSplitFrom(s, 0, sep[0]);
    } else {
      JoinSplitStrFrom(s, 0, 0, sep);
    }
  }

  /** `bsplitstr` and then `bjoin` with the same separator: a new string with the same text, whatever the
      separator is. */
  method SplitAndJoin(str: View, sep: View) returns (b: BString)
    requires str.Valid() && sep.Valid()
    ensures fresh(b) && b.Terminated() && b.Text() == str.Text()
  {
    hide SplitStr, Join;
    var bl := BSplitStr(str, sep);
    SplitStrJoin(str.Text(), sep.Text());
    if sep.len > 0 { SomePiece(str.Text(), sep.Text()); }
    b := BJoin(bl, sep);
  }

  /** `bsplit` and then `bjoin` with that character. */
  method SplitAndJoinChar(str: View, sep: View) returns (b: BString)
    requires str.Valid() && sep.Valid() && sep.len == 1
    ensures fresh(b) && b.Terminated() && b.Text() == str.Text()
  {
    hide SplitChar, Join;
    var c := sep.block[sep.start];
    assert sep.Text() == [c];
    var bl := BSplit(str, c);
    SplitJoin(str.Text(), c);
    SomeCharPiece(str.Text(), c);
    b := BJoin(bl, sep);
  }

  lemma SomeCharPiece(s: Text, c: byte)
    ensures SplitChar(s, c) != []
  {
    JoinSplitFrom(s, 0, c);
  }
}
