/** The value of a B-tree node and what the local rearrangements of kbtree do to it. The in-order
    key sequence is what splits, rotations and merges preserve. */
module BTreeModel {

  /** A leaf has no kids; an internal node has one kid more than keys. */
  datatype Tree = Node(keys: seq<int>, kids: seq<Tree>)

  /** All leaves at depth d, at least lo keys here, t-1 to 2t-1 keys in every node below. */
  ghost predicate Shaped(x: Tree, d: nat, t: nat, lo: nat) {
    && lo <= |x.keys| <= 2 * t - 1
    && if d == 0 then x.kids == []
       else |x.kids| == |x.keys| + 1 &&
            forall c :: c in x.kids ==> Shaped(c, d - 1, t, t - 1)
  }

  predicate Sorted(s: seq<int>) {
    forall i, j :: 0 <= i < j < |s| ==> s[i] <= s[j]
  }

  /** The keys of a tree in order. */
  ghost function Flat(x: Tree): seq<int> {
    Weave(x.keys, x.kids)
  }

  ghost function Weave(keys: seq<int>, kids: seq<Tree>): seq<int>
    decreases kids
  {
    if kids == [] then keys
    else if keys == [] then Flat(kids[0])
    else Flat(kids[0]) + [keys[0]] + Weave(keys[1..], kids[1..])
  }

  /** Kids each followed by a key. */
  ghost function Left(ks: seq<int>, cs: seq<Tree>): seq<int>
    requires |ks| == |cs|
  {
    if ks == [] then [] else Flat(cs[0]) + [ks[0]] + Left(ks[1..], cs[1..])
  }

  /** Kids each preceded by a key. */
  ghost function Right(ks: seq<int>, cs: seq<Tree>): seq<int>
    requires |ks| == |cs|
  {
    if ks == [] then [] else [ks[0]] + Flat(cs[0]) + Right(ks[1..], cs[1..])
  }

  lemma {:induction false} LeftAppend(a: seq<int>, ca: seq<Tree>, b: seq<int>, cb: seq<Tree>)
    requires |a| == |ca| && |b| == |cb|
    ensures Left(a + b, ca + cb) == Left(a, ca) + Left(b, cb)
  {
    if a == [] {
      assert a + b == b && ca + cb == cb;
    } else {
      assert (a + b)[1..] == a[1..] + b && (ca + cb)[1..] == ca[1..] + cb;
      LeftAppend(a[1..], ca[1..], b, cb);
    }
  }

  lemma {:induction false} RightAppend(a: seq<int>, ca: seq<Tree>, b: seq<int>, cb: seq<Tree>)
    requires |a| == |ca| && |b| == |cb|
    ensures Right(a + b, ca + cb) == Right(a, ca) + Right(b, cb)
  {
    if a == [] {
      assert a + b == b && ca + cb == cb;
    } else {
      assert (a + b)[1..] == a[1..] + b && (ca + cb)[1..] == ca[1..] + cb;
      RightAppend(a[1..], ca[1..], b, cb);
    }
  }

  lemma {:induction false} WeaveRight(c: Tree, ks: seq<int>, cs: seq<Tree>)
    requires |ks| == |cs|
    ensures Weave(ks, [c] + cs) == Flat(c) + Right(ks, cs)
    decreases |ks|
  {
    if ks != [] {
      WeaveRight(cs[0], ks[1..], cs[1..]);
      assert ([c] + cs)[1..] == [cs[0]] + cs[1..];
    }
  }

  /** The in-order sequence seen from one kid. */
  lemma {:induction false} Focus(lk: seq<int>, lc: seq<Tree>, c: Tree, rk: seq<int>, rc: seq<Tree>)
    requires |lk| == |lc| && |rk| == |rc|
    ensures Weave(lk + rk, lc + [c] + rc) == Left(lk, lc) + Flat(c) + Right(rk, rc)
  {
    if lk == [] {
      WeaveRight(c, rk, rc);
      assert lk + rk == rk && lc + [c] + rc == [c] + rc;
    } else {
      Focus(lk[1..], lc[1..], c, rk, rc);
      assert (lk + rk)[1..] == lk[1..] + rk;
      assert (lc + [c] + rc)[1..] == lc[1..] + [c] + rc;
    }
  }

  /** What stands before and after kid i. */
  ghost function Before(x: Tree, i: nat): seq<int>
    requires i < |x.kids| == |x.keys| + 1
  {
    Left(x.keys[..i], x.kids[..i])
  }

  ghost function After(x: Tree, i: nat): seq<int>
    requires i < |x.kids| == |x.keys| + 1
  {
    Right(x.keys[i..], x.kids[i + 1..])
  }

  lemma FocusAt(x: Tree, i: nat)
    requires i < |x.kids| == |x.keys| + 1
    ensures Flat(x) == Before(x, i) + Flat(x.kids[i]) + After(x, i)
  {
    Focus(x.keys[..i], x.kids[..i], x.kids[i], x.keys[i..], x.kids[i + 1..]);
    assert x.keys == x.keys[..i] + x.keys[i..];
    assert x.kids == x.kids[..i] + [x.kids[i]] + x.kids[i + 1..];
  }

  /** Moving the focus over key i. */
  lemma FocusNext(x: Tree, i: nat)
    requires i < |x.keys| && |x.kids| == |x.keys| + 1
    ensures Before(x, i + 1) == Before(x, i) + Flat(x.kids[i]) + [x.keys[i]]
    ensures After(x, i) == [x.keys[i]] + Flat(x.kids[i + 1]) + After(x, i + 1)
  {
    hide Weave;
    var ks, cs := [x.keys[i]], [x.kids[i]];
    LeftAppend(x.keys[..i], x.kids[..i], ks, cs);
    assert x.keys[..i + 1] == x.keys[..i] + ks && x.kids[..i + 1] == x.kids[..i] + cs;
    assert ks[1..] == [] && cs[1..] == [];
    assert Left(ks, cs) == Flat(x.kids[i]) + [x.keys[i]];
    assert x.keys[i..][1..] == x.keys[i + 1..] && x.kids[i + 1..][1..] == x.kids[i + 2..];
  }

  /** Replacing kid i replaces its stretch of the sequence. */
  lemma ReplaceKid(x: Tree, i: nat, c: Tree)
    requires i < |x.kids| == |x.keys| + 1
    ensures var x' := Node(x.keys, x.kids[i := c]);
            Flat(x') == Before(x, i) + Flat(c) + After(x, i)
  {
    var x' := Node(x.keys, x.kids[i := c]);
    FocusAt(x', i);
    assert x'.kids[..i] == x.kids[..i] && x'.kids[i + 1..] == x.kids[i + 1..];
  }

  /** Replacing key i and the two kids around it. */
  lemma ReplacePair(x: Tree, i: nat, a: Tree, k: int, b: Tree)
    requires i < |x.keys| && |x.kids| == |x.keys| + 1
    ensures var x' := Node(x.keys[i := k], x.kids[i := a][i + 1 := b]);
            Flat(x') == Before(x, i) + Flat(a) + [k] + Flat(b) + After(x, i + 1)
  {
    var x' := Node(x.keys[i := k], x.kids[i := a][i + 1 := b]);
    FocusAt(x', i);
    assert x'.kids[..i] == x.kids[..i] && x'.keys[..i] == x.keys[..i];
    assert x'.keys[i + 1..] == x.keys[i + 1..] && x'.kids[i + 2..] == x.kids[i + 2..];
  }

  /** Replacing key i and the two kids around it by a single kid. */
  lemma ReplacePairByOne(x: Tree, i: nat, c: Tree)
    requires i < |x.keys| && |x.kids| == |x.keys| + 1
    ensures var x' := Node(x.keys[..i] + x.keys[i + 1..], x.kids[..i] + [c] + x.kids[i + 2..]);
            Flat(x') == Before(x, i) + Flat(c) + After(x, i + 1)
  {
    Focus(x.keys[..i], x.kids[..i], c, x.keys[i + 1..], x.kids[i + 2..]);
  }

  /** Replacing kid i by two kids with a key between them. */
  lemma ReplaceOneByPair(x: Tree, i: nat, a: Tree, k: int, b: Tree)
    requires i < |x.kids| == |x.keys| + 1
    ensures var x' := Node(x.keys[..i] + [k] + x.keys[i..], x.kids[..i] + [a, b] + x.kids[i + 1..]);
            Flat(x') == Before(x, i) + Flat(a) + [k] + Flat(b) + After(x, i)
  {
    Focus(x.keys[..i], x.kids[..i], a, [k] + x.keys[i..], [b] + x.kids[i + 1..]);
    assert x.keys[..i] + [k] + x.keys[i..] == x.keys[..i] + ([k] + x.keys[i..]);
    assert x.kids[..i] + [a, b] + x.kids[i + 1..] == x.kids[..i] + [a] + ([b] + x.kids[i + 1..]);
  }

  // ---------- concatenation and cutting of nodes ----------

  /** Two nodes of equal depth with a key between them, as one node. */
  ghost function Joined(a: Tree, k: int, b: Tree): Tree {
    Node(a.keys + [k] + b.keys, a.kids + b.kids)
  }

  lemma JoinedFlat(a: Tree, k: int, b: Tree)
    requires (a.kids == [] && b.kids == []) || (|a.kids| == |a.keys| + 1 && |b.kids| == |b.keys| + 1)
    ensures Flat(Joined(a, k, b)) == Flat(a) + [k] + Flat(b)
  {
    if a.kids == [] {
      assert a.kids + b.kids == [];
    } else {
      var n := |a.keys|;
      JoinedInternal(a.keys, a.kids[..n], a.kids[n], k, b.keys, b.kids[0], b.kids[1..]);
      assert a.kids == a.kids[..n] + [a.kids[n]] && b.kids == [b.kids[0]] + b.kids[1..];
    }
  }

  lemma JoinedInternal(lk: seq<int>, lc: seq<Tree>, c: Tree, k: int, rk: seq<int>, d: Tree, rc: seq<Tree>)
    requires |lk| == |lc| && |rk| == |rc|
    ensures Weave(lk + [k] + rk, (lc + [c]) + ([d] + rc)) == Weave(lk, lc + [c]) + [k] + Weave(rk, [d] + rc)
  {
    hide *;
    assert Weave(lk + [k] + rk, (lc + [c]) + ([d] + rc)) == Left(lk, lc) + Flat(c) + Right([k] + rk, [d] + rc) by {
      Focus(lk, lc, c, [k] + rk, [d] + rc);
      assert lk + [k] + rk == lk + ([k] + rk) && (lc + [c]) + ([d] + rc) == lc + [c] + ([d] + rc);
    }
    assert Weave(lk, lc + [c]) == Left(lk, lc) + Flat(c) + Right([], []) by {
      Focus(lk, lc, c, [], []);
      assert lk + [] == lk && lc + [c] + [] == lc + [c];
    }
    WeaveRight(d, rk, rc);
    RightCons(k, rk, d, rc);
    Regroup(Left(lk, lc), Flat(c), k, Flat(d), Right(rk, rc));
  }

  lemma Regroup(l: seq<int>, c: seq<int>, k: int, d: seq<int>, r: seq<int>)
    ensures l + c + ([k] + d + r) == (l + c + []) + [k] + (d + r)
  {
  }

  lemma RightCons(k: int, rk: seq<int>, d: Tree, rc: seq<Tree>)
    requires |rk| == |rc|
    ensures Right([k] + rk, [d] + rc) == [k] + Flat(d) + Right(rk, rc)
    ensures Right([], []) == []
  {
    assert ([k] + rk)[1..] == rk && ([d] + rc)[1..] == rc;
  }

  /** The part of a node left of key m, and the part right of it. */
  ghost function LeftPart(y: Tree, m: nat): Tree
    requires m < |y.keys| && (y.kids == [] || |y.kids| == |y.keys| + 1)
  {
    Node(y.keys[..m], if y.kids == [] then [] else y.kids[..m + 1])
  }

  ghost function RightPart(y: Tree, m: nat): Tree
    requires m < |y.keys| && (y.kids == [] || |y.kids| == |y.keys| + 1)
  {
    Node(y.keys[m + 1..], if y.kids == [] then [] else y.kids[m + 1..])
  }

  lemma RightPartEmpty(y: Tree)
    requires |y.keys| > 0 && (y.kids == [] || |y.kids| == |y.keys| + 1)
    ensures RightPart(y, |y.keys| - 1).keys == []
    ensures |RightPart(y, |y.keys| - 1).kids| == if y.kids == [] then 0 else 1
  {
  }

  lemma LeftPartEmpty(y: Tree)
    requires |y.keys| > 0 && (y.kids == [] || |y.kids| == |y.keys| + 1)
    ensures LeftPart(y, 0).keys == []
    ensures |LeftPart(y, 0).kids| == if y.kids == [] then 0 else 1
  {
  }

  lemma PartsFlat(y: Tree, m: nat)
    requires m < |y.keys| && (y.kids == [] || |y.kids| == |y.keys| + 1)
    ensures Flat(y) == Flat(LeftPart(y, m)) + [y.keys[m]] + Flat(RightPart(y, m))
  {
    var a, b := LeftPart(y, m), RightPart(y, m);
    JoinedFlat(a, y.keys[m], b);
    assert Joined(a, y.keys[m], b) == y by {
      assert a.keys + [y.keys[m]] + b.keys == y.keys;
      assert a.kids + b.kids == y.kids;
    }
  }

  lemma PartsShaped(y: Tree, d: nat, t: nat, lo: nat, m: nat)
    requires Shaped(y, d, t, lo) && m < |y.keys|
    ensures Shaped(LeftPart(y, m), d, t, m) && Shaped(RightPart(y, m), d, t, |y.keys| - m - 1)
  {
    var a, b := LeftPart(y, m), RightPart(y, m);
    forall c | c in a.kids || c in b.kids
      ensures d > 0 && Shaped(c, d - 1, t, t - 1)
    {
      assert c in y.kids;
    }
  }

  lemma JoinedShaped(a: Tree, k: int, b: Tree, d: nat, t: nat, lo: nat)
    requires Shaped(a, d, t, lo) && Shaped(b, d, t, lo) && |a.keys| + |b.keys| + 1 <= 2 * t - 1
    ensures Shaped(Joined(a, k, b), d, t, |a.keys| + |b.keys| + 1)
  {
  }

  ghost predicate Balanced(x: Tree) {
    x.kids == [] || |x.kids| == |x.keys| + 1
  }

  // ---------- the rearrangements ----------

  /** `__kb_split`: the full kid i becomes two halves around its middle key. */
  ghost function Split(x: Tree, i: nat, t: nat): Tree
    requires i < |x.kids| == |x.keys| + 1 && t >= 1
    requires Balanced(x.kids[i]) && |x.kids[i].keys| == 2 * t - 1
  {
    var y := x.kids[i];
    Node(x.keys[..i] + [y.keys[t - 1]] + x.keys[i..],
         x.kids[..i] + [LeftPart(y, t - 1), RightPart(y, t - 1)] + x.kids[i + 1..])
  }

  /** The last key of kid i goes up and key i goes down to the front of kid i+1. */
  ghost function RotateRight(x: Tree, i: nat): Tree
    requires i < |x.keys| && |x.kids| == |x.keys| + 1
    requires Balanced(x.kids[i]) && |x.kids[i].keys| > 0
  {
    var y, z := x.kids[i], x.kids[i + 1];
    var m := |y.keys| - 1;
    Node(x.keys[i := y.keys[m]],
         x.kids[i := LeftPart(y, m)][i + 1 := Joined(RightPart(y, m), x.keys[i], z)])
  }

  /** The first key of kid i+1 goes up and key i goes down to the end of kid i. */
  ghost function RotateLeft(x: Tree, i: nat): Tree
    requires i < |x.keys| && |x.kids| == |x.keys| + 1
    requires Balanced(x.kids[i + 1]) && |x.kids[i + 1].keys| > 0
  {
    var y, z := x.kids[i], x.kids[i + 1];
    Node(x.keys[i := z.keys[0]],
         x.kids[i := Joined(y, x.keys[i], LeftPart(z, 0))][i + 1 := RightPart(z, 0)])
  }

  /** Kids i and i+1 and the key between them become one kid. */
  ghost function Merge(x: Tree, i: nat): Tree
    requires i < |x.keys| && |x.kids| == |x.keys| + 1
  {
    Node(x.keys[..i] + x.keys[i + 1..],
         x.kids[..i] + [Joined(x.kids[i], x.keys[i], x.kids[i + 1])] + x.kids[i + 2..])
  }

  lemma SplitFlat(x: Tree, i: nat, t: nat)
    requires i < |x.kids| == |x.keys| + 1 && t >= 1
    requires Balanced(x.kids[i]) && |x.kids[i].keys| == 2 * t - 1
    ensures Flat(Split(x, i, t)) == Flat(x)
  {
    hide Flat, Before, After, LeftPart, RightPart;
    var y := x.kids[i];
    PartsFlat(y, t - 1);
    FocusAt(x, i);
    ReplaceOneByPair(x, i, LeftPart(y, t - 1), y.keys[t - 1], RightPart(y, t - 1));
  }

  lemma PairFlat(x: Tree, i: nat)
    requires i < |x.keys| && |x.kids| == |x.keys| + 1
    ensures Flat(x) == Before(x, i) + Flat(x.kids[i]) + [x.keys[i]] + Flat(x.kids[i + 1]) + After(x, i + 1)
  {
    hide Flat, Before, After;
    FocusAt(x, i);
    FocusNext(x, i);
  }

  lemma RotateRightFlat(x: Tree, i: nat)
    requires i < |x.keys| && |x.kids| == |x.keys| + 1
    requires Balanced(x.kids[i]) && |x.kids[i].keys| > 0
    requires Balanced(x.kids[i + 1]) && (x.kids[i].kids == [] <==> x.kids[i + 1].kids == [])
    ensures Flat(RotateRight(x, i)) == Flat(x)
  {
    var y, z := x.kids[i], x.kids[i + 1];
    var m := |y.keys| - 1;
    var a, b := LeftPart(y, m), RightPart(y, m);
    assert Balanced(b) && (b.kids == [] <==> z.kids == []);
    hide Flat, Before, After, LeftPart, RightPart, Joined;
    PartsFlat(y, m);
    JoinedFlat(b, x.keys[i], z);
    ReplacePair(x, i, a, y.keys[m], Joined(b, x.keys[i], z));
    PairFlat(x, i);
    hide *;
    Regroup5(Before(x, i), Flat(a), y.keys[m], Flat(b), x.keys[i], Flat(z), After(x, i + 1));
  }

  lemma Regroup5(l: seq<int>, a: seq<int>, p: int, b: seq<int>, q: int, c: seq<int>, r: seq<int>)
    ensures l + a + [p] + (b + [q] + c) + r == l + (a + [p] + b) + [q] + c + r
  {
  }

  lemma RotateLeftFlat(x: Tree, i: nat)
    requires i < |x.keys| && |x.kids| == |x.keys| + 1
    requires Balanced(x.kids[i + 1]) && |x.kids[i + 1].keys| > 0
    requires Balanced(x.kids[i]) && (x.kids[i].kids == [] <==> x.kids[i + 1].kids == [])
    ensures Flat(RotateLeft(x, i)) == Flat(x)
  {
    var y, z := x.kids[i], x.kids[i + 1];
    var a, b := LeftPart(z, 0), RightPart(z, 0);
    assert Balanced(a) && (a.kids == [] <==> y.kids == []);
    hide Flat, Before, After, LeftPart, RightPart, Joined;
    PartsFlat(z, 0);
    JoinedFlat(y, x.keys[i], a);
    ReplacePair(x, i, Joined(y, x.keys[i], a), z.keys[0], b);
    PairFlat(x, i);
    hide *;
    Regroup5(Before(x, i), Flat(y), x.keys[i], Flat(a), z.keys[0], Flat(b), After(x, i + 1));
  }

  lemma MergeFlat(x: Tree, i: nat)
    requires i < |x.keys| && |x.kids| == |x.keys| + 1
    requires Balanced(x.kids[i]) && Balanced(x.kids[i + 1]) && (x.kids[i].kids == [] <==> x.kids[i + 1].kids == [])
    ensures Flat(Merge(x, i)) == Flat(x)
  {
    hide Flat, Before, After, Joined;
    JoinedFlat(x.kids[i], x.keys[i], x.kids[i + 1]);
    ReplacePairByOne(x, i, Joined(x.kids[i], x.keys[i], x.kids[i + 1]));
    PairFlat(x, i);
  }

  // ---------- shape ----------

  lemma KidShaped(x: Tree, d: nat, t: nat, lo: nat, i: nat)
    requires Shaped(x, d, t, lo) && i < |x.kids|
    ensures d > 0 && Shaped(x.kids[i], d - 1, t, t - 1) && Balanced(x.kids[i])
    ensures x.kids[i].kids == [] <==> d == 1
  {
    assert x.kids[i] in x.kids;
  }

  lemma WithKidShaped(x: Tree, d: nat, t: nat, lo: nat, i: nat, c: Tree)
    requires Shaped(x, d, t, lo) && i < |x.kids| && Shaped(c, d - 1, t, t - 1)
    ensures Shaped(Node(x.keys, x.kids[i := c]), d, t, lo)
  {
    var cs := x.kids[i := c];
    forall b | b in cs ensures Shaped(b, d - 1, t, t - 1) {
      assert b == c || b in x.kids;
    }
  }

  lemma WeakerShaped(x: Tree, d: nat, t: nat, lo: nat, lo': nat)
    requires Shaped(x, d, t, lo) && lo' <= |x.keys|
    ensures Shaped(x, d, t, lo')
  {
  }

  lemma SplitShaped(x: Tree, d: nat, t: nat, lo: nat, i: nat)
    requires Shaped(x, d, t, lo) && i < |x.kids| && t >= 2
    requires |x.kids[i].keys| == 2 * t - 1 && |x.keys| < 2 * t - 1
    ensures Balanced(x.kids[i]) && Shaped(Split(x, i, t), d, t, lo)
  {
    KidShaped(x, d, t, lo, i);
    var y, x' := x.kids[i], Split(x, i, t);
    PartsShaped(y, d - 1, t, t - 1, t - 1);
    forall b | b in x'.kids ensures Shaped(b, d - 1, t, t - 1) {
      assert b == LeftPart(y, t - 1) || b == RightPart(y, t - 1) || b in x.kids;
    }
  }

  lemma RotateRightShaped(x: Tree, d: nat, t: nat, lo: nat, i: nat)
    requires Shaped(x, d, t, lo) && i < |x.keys| && d > 0 && t >= 2
    requires |x.kids[i].keys| >= t && |x.kids[i + 1].keys| == t - 1
    ensures Balanced(x.kids[i]) && Shaped(RotateRight(x, i), d, t, lo)
    ensures |RotateRight(x, i).kids[i + 1].keys| == t
  {
    KidShaped(x, d, t, lo, i);
    KidShaped(x, d, t, lo, i + 1);
    var y, z := x.kids[i], x.kids[i + 1];
    var m := |y.keys| - 1;
    PartsShaped(y, d - 1, t, t - 1, m);
    var a, b := LeftPart(y, m), Joined(RightPart(y, m), x.keys[i], z);
    WeakerShaped(z, d - 1, t, t - 1, 0);
    JoinedShaped(RightPart(y, m), x.keys[i], z, d - 1, t, 0);
    WeakerShaped(a, d - 1, t, m, t - 1);
    WeakerShaped(b, d - 1, t, t, t - 1);
    var cs := x.kids[i := a][i + 1 := b];
    forall c | c in cs ensures Shaped(c, d - 1, t, t - 1) {
      assert c == a || c == b || c in x.kids;
    }
  }

  lemma RotateLeftShaped(x: Tree, d: nat, t: nat, lo: nat, i: nat)
    requires Shaped(x, d, t, lo) && i < |x.keys| && d > 0 && t >= 2
    requires |x.kids[i + 1].keys| >= t && |x.kids[i].keys| == t - 1
    ensures Balanced(x.kids[i + 1]) && Shaped(RotateLeft(x, i), d, t, lo)
    ensures |RotateLeft(x, i).kids[i].keys| == t
  {
    KidShaped(x, d, t, lo, i);
    KidShaped(x, d, t, lo, i + 1);
    var y, z := x.kids[i], x.kids[i + 1];
    PartsShaped(z, d - 1, t, t - 1, 0);
    var a, b := Joined(y, x.keys[i], LeftPart(z, 0)), RightPart(z, 0);
    WeakerShaped(y, d - 1, t, t - 1, 0);
    JoinedShaped(y, x.keys[i], LeftPart(z, 0), d - 1, t, 0);
    WeakerShaped(a, d - 1, t, t, t - 1);
    WeakerShaped(b, d - 1, t, |z.keys| - 1, t - 1);
    var cs := x.kids[i := a][i + 1 := b];
    forall c | c in cs ensures Shaped(c, d - 1, t, t - 1) {
      assert c == a || c == b || c in x.kids;
    }
  }

  lemma MergeShaped(x: Tree, d: nat, t: nat, lo: nat, i: nat)
    requires Shaped(x, d, t, lo) && i < |x.keys| && d > 0 && t >= 2
    requires |x.kids[i].keys| == t - 1 && |x.kids[i + 1].keys| == t - 1
    ensures Shaped(Merge(x, i), d, t, |x.keys| - 1)
    ensures |Merge(x, i).kids[i].keys| == 2 * t - 1
  {
    KidShaped(x, d, t, lo, i);
    KidShaped(x, d, t, lo, i + 1);
    var c := Joined(x.kids[i], x.keys[i], x.kids[i + 1]);
    JoinedShaped(x.kids[i], x.keys[i], x.kids[i + 1], d - 1, t, t - 1);
    WeakerShaped(c, d - 1, t, 2 * t - 1, t - 1);
    forall b | b in Merge(x, i).kids ensures Shaped(b, d - 1, t, t - 1) {
      assert b == c || b in x.kids;
    }
  }

  // ---------- order ----------

  /** s' is s with one more key k. */
  ghost predicate Inserted(s: seq<int>, s': seq<int>, k: int) {
    exists p :: 0 <= p <= |s| && s' == s[..p] + [k] + s[p..]
  }

  lemma InsertedCount(s: seq<int>, s': seq<int>, k: int)
    requires Inserted(s, s', k)
    ensures multiset(s') == multiset(s) + multiset{k} && |s'| == |s| + 1
  {
    var p :| 0 <= p <= |s| && s' == s[..p] + [k] + s[p..];
    assert s == s[..p] + s[p..];
  }

  lemma RemovedSorted(s: seq<int>, s': seq<int>, k: int)
    requires Inserted(s, s', k) && Sorted(s')
    ensures Sorted(s)
  {
    var p :| 0 <= p <= |s| && s' == s[..p] + [k] + s[p..];
    forall i, j | 0 <= i < j < |s|
      ensures s[i] <= s[j]
    {
      assert s[i] == s'[if i < p then i else i + 1] && s[j] == s'[if j < p then j else j + 1];
    }
  }

  lemma InsertedInside(l: seq<int>, s: seq<int>, s': seq<int>, r: seq<int>, k: int)
    requires Inserted(s, s', k)
    ensures Inserted(l + s + r, l + s' + r, k)
  {
    var p :| 0 <= p <= |s| && s' == s[..p] + [k] + s[p..];
    var q, w := |l| + p, l + s + r;
    assert w[..q] == l + s[..p] && w[q..] == s[p..] + r;
    assert l + s' + r == w[..q] + [k] + w[q..];
  }

  lemma SortedPieces(l: seq<int>, s: seq<int>, r: seq<int>)
    requires Sorted(l + s + r)
    ensures Sorted(l) && Sorted(s) && Sorted(r)
    ensures forall i, j :: 0 <= i < |l| && 0 <= j < |s| ==> l[i] <= s[j]
    ensures forall i, j :: 0 <= i < |s| && 0 <= j < |r| ==> s[i] <= r[j]
    ensures forall i, j :: 0 <= i < |l| && 0 <= j < |r| ==> l[i] <= r[j]
  {
    var w, n, m := l + s + r, |l|, |l| + |s|;
    assert w[..n] == l && w[n..m] == s && w[m..] == r;
    SortedCut(w, n, m);
  }

  lemma SortedCut(w: seq<int>, n: nat, m: nat)
    requires Sorted(w) && n <= m <= |w|
    ensures Sorted(w[..n]) && Sorted(w[n..m]) && Sorted(w[m..])
    ensures forall i, j :: 0 <= i < n && 0 <= j < m - n ==> w[..n][i] <= w[n..m][j]
    ensures forall i, j :: 0 <= i < m - n && 0 <= j < |w| - m ==> w[n..m][i] <= w[m..][j]
    ensures forall i, j :: 0 <= i < n && 0 <= j < |w| - m ==> w[..n][i] <= w[m..][j]
  {
  }

  /** The keys of an ordered internal node separate its kids. */
  lemma Separated(x: Tree, i: nat)
    requires i < |x.kids| == |x.keys| + 1 && Sorted(Flat(x))
    ensures Sorted(Flat(x.kids[i])) && Sorted(Before(x, i)) && Sorted(After(x, i))
    ensures forall a :: a in Before(x, i) ==> i > 0 && a <= x.keys[i - 1]
    ensures forall a :: a in After(x, i) ==> i < |x.keys| && x.keys[i] <= a
    ensures i > 0 ==> forall a :: a in Flat(x.kids[i]) ==> x.keys[i - 1] <= a
    ensures i < |x.keys| ==> forall a :: a in Flat(x.kids[i]) ==> a <= x.keys[i]
    ensures 0 < i < |x.keys| ==> x.keys[i - 1] <= x.keys[i]
  {
    FocusAt(x, i);
    var l, s, r := Before(x, i), Flat(x.kids[i]), After(x, i);
    SortedPieces(l, s, r);
    if i > 0 {
      FocusNext(x, i - 1);
      assert l[|l| - 1] == x.keys[i - 1];
    }
    if i < |x.keys| {
      FocusNext(x, i);
      assert r[0] == x.keys[i];
    }
  }

  lemma {:induction false} KeysSortedTo(x: Tree, i: nat, j: nat)
    requires i < j < |x.keys| && |x.kids| == |x.keys| + 1 && Sorted(Flat(x))
    ensures x.keys[i] <= x.keys[j]
  {
    Separated(x, j);
    if i < j - 1 { KeysSortedTo(x, i, j - 1); }
  }

  lemma KeysSorted(x: Tree)
    requires Balanced(x) && Sorted(Flat(x))
    ensures Sorted(x.keys)
  {
    if x.kids == [] {
      assert Flat(x) == x.keys;
    } else {
      forall i, j | 0 <= i < j < |x.keys| ensures x.keys[i] <= x.keys[j] {
        KeysSortedTo(x, i, j);
      }
    }
  }

  /** A key inserted into the right kid is inserted into the tree, in order. */
  lemma InsertThrough(x: Tree, i: nat, c: Tree, k: int)
    requires i < |x.kids| == |x.keys| + 1 && Sorted(Flat(x))
    requires i > 0 ==> x.keys[i - 1] <= k
    requires i < |x.keys| ==> k <= x.keys[i]
    requires Inserted(Flat(x.kids[i]), Flat(c), k) && Sorted(Flat(c))
    ensures var x' := Node(x.keys, x.kids[i := c]);
            Inserted(Flat(x), Flat(x'), k) && Sorted(Flat(x'))
  {
    hide Flat, Before, After;
    FocusAt(x, i);
    Separated(x, i);
    ReplaceKid(x, i, c);
    InsertedInside(Before(x, i), Flat(x.kids[i]), Flat(c), After(x, i), k);
    InsertedElements(Flat(x.kids[i]), Flat(c), k);
    SortedJoin(Before(x, i), Flat(x.kids[i]), Flat(c), After(x, i), k);
  }

  lemma InsertedElements(s: seq<int>, s': seq<int>, k: int)
    requires Inserted(s, s', k)
    ensures forall a :: a in s' <==> a == k || a in s
  {
    var p :| 0 <= p <= |s| && s' == s[..p] + [k] + s[p..];
    assert s == s[..p] + s[p..];
  }

  lemma SortedJoin(l: seq<int>, s: seq<int>, s': seq<int>, r: seq<int>, k: int)
    requires Sorted(l + s + r) && Sorted(s')
    requires forall a :: a in s' <==> a == k || a in s
    requires forall a :: a in l ==> a <= k
    requires forall a :: a in r ==> k <= a
    ensures Sorted(l + s' + r)
  {
    SortedPieces(l, s, r);
    var w := l + s' + r;
    forall i, j | 0 <= i < j < |w| ensures w[i] <= w[j] {
      assert i < |l| ==> w[i] in l;
      assert |l| <= i < |l| + |s'| ==> w[i] in s';
      assert j >= |l| + |s'| ==> w[j] in r;
      assert |l| <= j < |l| + |s'| ==> w[j] in s';
    }
  }

  /** A stored key that no key of the node equals is in the kid its neighbours point to. */
  lemma InKid(x: Tree, i: nat, k: int)
    requires i < |x.kids| == |x.keys| + 1 && Sorted(Flat(x)) && k in Flat(x)
    requires i > 0 ==> x.keys[i - 1] < k
    requires i < |x.keys| ==> k < x.keys[i]
    ensures k in Flat(x.kids[i])
  {
    FocusAt(x, i);
    Separated(x, i);
    var l, s, r := Before(x, i), Flat(x.kids[i]), After(x, i);
    assert k in l + s + r;
  }

  lemma LeafFlat(keys: seq<int>)
    ensures Flat(Node(keys, [])) == keys
  {
  }

  /** Storing k in a leaf between the smaller and the larger keys. */
  lemma LeafInsert(keys: seq<int>, p: nat, k: int)
    requires Sorted(keys) && p <= |keys|
    requires forall j :: 0 <= j < p ==> keys[j] <= k
    requires forall j :: p <= j < |keys| ==> k <= keys[j]
    ensures var x, x' := Node(keys, []), Node(keys[..p] + [k] + keys[p..], []);
            Inserted(Flat(x), Flat(x'), k) && Sorted(Flat(x'))
  {
    LeafFlat(keys);
    LeafFlat(keys[..p] + [k] + keys[p..]);
  }

  /** Where k belongs among the keys after the full kid i is split. */
  lemma SplitOrder(x: Tree, i: nat, t: nat, k: int)
    requires i < |x.kids| == |x.keys| + 1 && t >= 1
    requires Balanced(x.kids[i]) && |x.kids[i].keys| == 2 * t - 1
    requires i > 0 ==> x.keys[i - 1] <= k
    requires i < |x.keys| ==> k <= x.keys[i]
    ensures var x' := Split(x, i, t);
            var p := if k > x'.keys[i] then i + 1 else i;
            && |x'.keys| == |x.keys| + 1 && |x'.kids| == |x'.keys| + 1
            && (p > 0 ==> x'.keys[p - 1] <= k) && (p < |x'.keys| ==> k <= x'.keys[p])
            && |x'.kids[p].keys| == t - 1
  {
  }

  /** A key that no key of the node equals is in the tree iff it is in that kid. */
  lemma InOrOut(x: Tree, i: nat, k: int)
    requires i < |x.kids| == |x.keys| + 1 && Sorted(Flat(x))
    requires i > 0 ==> x.keys[i - 1] < k
    requires i < |x.keys| ==> k < x.keys[i]
    ensures k in Flat(x) <==> k in Flat(x.kids[i])
  {
    FocusAt(x, i);
    if k in Flat(x) { InKid(x, i, k); }
  }

  // ---------- deletion ----------

  /** What a deletion in mode s removes from the sequence F: a key k, the last key or the first key. */
  ghost predicate Taken(s: nat, F: seq<int>, F': seq<int>, ret: int) {
    if s == 0 then Inserted(F', F, ret)
    else if s == 1 then F == F' + [ret]
    else F == [ret] + F'
  }

  /** In mode 1 the way down is along the last kids, in mode 2 along the first ones, and in mode 0
      towards the key. */
  ghost predicate OnPath(x: Tree, i: nat, s: nat, k: int)
    requires i < |x.kids| == |x.keys| + 1
  {
    && (s == 0 ==> k in Flat(x.kids[i]))
    && (s == 1 ==> i == |x.keys|)
    && (s == 2 ==> i == 0)
  }

  lemma TakeFromLeaf(keys: seq<int>, i: nat, s: nat)
    requires i < |keys| && s <= 2
    requires (s == 1 ==> i == |keys| - 1) && (s == 2 ==> i == 0)
    ensures Taken(s, Flat(Node(keys, [])), Flat(Node(keys[..i] + keys[i + 1..], [])), keys[i])
  {
    var keys' := keys[..i] + keys[i + 1..];
    LeafFlat(keys);
    LeafFlat(keys');
    assert keys'[..i] == keys[..i] && keys'[i..] == keys[i + 1..];
    assert keys == keys'[..i] + [keys[i]] + keys'[i..];
  }

  lemma TakeThrough(x: Tree, i: nat, c: Tree, s: nat, k: int, ret: int)
    requires i < |x.kids| == |x.keys| + 1 && s <= 2 && OnPath(x, i, s, k)
    requires Taken(s, Flat(x.kids[i]), Flat(c), ret)
    ensures Taken(s, Flat(x), Flat(Node(x.keys, x.kids[i := c])), ret)
  {
    FocusAt(x, i);
    ReplaceKid(x, i, c);
    var l, F, F', r := Before(x, i), Flat(x.kids[i]), Flat(c), After(x, i);
    if s == 0 {
      InsertedInside(l, F', F, r, ret);
    } else if s == 1 {
      assert r == [] && l + F + r == (l + F' + r) + [ret];
    } else {
      assert l == [] && l + F + r == [ret] + (l + F' + r);
    }
  }

  /** Key i is replaced by its predecessor p, taken from the end of kid i. */
  lemma TakePredecessor(x: Tree, i: nat, c: Tree, p: int)
    requires i < |x.keys| && |x.kids| == |x.keys| + 1
    requires Taken(1, Flat(x.kids[i]), Flat(c), p)
    ensures Taken(0, Flat(x), Flat(Node(x.keys[i := p], x.kids[i := c])), x.keys[i])
  {
    PairFlat(x, i);
    var b := x.kids[i + 1];
    ReplacePair(x, i, c, p, b);
    assert x.kids[i := c][i + 1 := b] == x.kids[i := c];
    hide Flat, Before, After;
    FlatParts(Before(x, i), Flat(c) + [p], x.keys[i], Flat(b), After(x, i + 1));
    Between(Before(x, i) + (Flat(c) + [p]), Flat(b) + After(x, i + 1), x.keys[i]);
    FlatRest(Before(x, i), Flat(c), [p], Flat(b), After(x, i + 1));
  }

  lemma FlatParts(l: seq<int>, a: seq<int>, k: int, b: seq<int>, r: seq<int>)
    ensures l + a + [k] + b + r == (l + a) + [k] + (b + r)
  {
  }

  lemma FlatRest(l: seq<int>, a: seq<int>, p: seq<int>, b: seq<int>, r: seq<int>)
    ensures l + a + p + b + r == (l + (a + p)) + (b + r)
  {
  }

  lemma FlatFront(l: seq<int>, a: seq<int>, p: seq<int>, b: seq<int>, r: seq<int>)
    ensures l + a + p + b + r == (l + a) + (p + b + r)
  {
  }

  lemma Between(l: seq<int>, r: seq<int>, k: int)
    ensures Inserted(l + r, l + [k] + r, k)
  {
    var s := l + r;
    assert s[..|l|] == l && s[|l|..] == r;
  }

  /** Key i is replaced by its successor p, taken from the front of kid i+1. */
  lemma TakeSuccessor(x: Tree, i: nat, c: Tree, p: int)
    requires i < |x.keys| && |x.kids| == |x.keys| + 1
    requires Taken(2, Flat(x.kids[i + 1]), Flat(c), p)
    ensures Taken(0, Flat(x), Flat(Node(x.keys[i := p], x.kids[i + 1 := c])), x.keys[i])
  {
    PairFlat(x, i);
    var a := x.kids[i];
    ReplacePair(x, i, a, p, c);
    assert x.kids[i := a][i + 1 := c] == x.kids[i + 1 := c];
    hide Flat, Before, After;
    FlatParts(Before(x, i), Flat(a), x.keys[i], [p] + Flat(c), After(x, i + 1));
    Between(Before(x, i) + Flat(a), [p] + Flat(c) + After(x, i + 1), x.keys[i]);
    FlatFront(Before(x, i), Flat(a), [p], Flat(c), After(x, i + 1));
  }

  lemma ReplaceKeyShaped(x: Tree, d: nat, t: nat, lo: nat, i: nat, k: int)
    requires Shaped(x, d, t, lo) && i < |x.keys|
    ensures Shaped(Node(x.keys[i := k], x.kids), d, t, lo)
  {
  }

  lemma JoinedContains(a: Tree, k: int, b: Tree, e: int)
    requires (a.kids == [] && b.kids == []) || (|a.kids| == |a.keys| + 1 && |b.kids| == |b.keys| + 1)
    requires e in Flat(a) || e == k || e in Flat(b)
    ensures e in Flat(Joined(a, k, b))
  {
    JoinedFlat(a, k, b);
  }

  lemma RotateRightPath(x: Tree, i: nat, s: nat, k: int)
    requires i < |x.keys| && |x.kids| == |x.keys| + 1
    requires Balanced(x.kids[i]) && |x.kids[i].keys| > 0
    requires Balanced(x.kids[i + 1]) && (x.kids[i].kids == [] <==> x.kids[i + 1].kids == [])
    requires OnPath(x, i + 1, s, k)
    ensures OnPath(RotateRight(x, i), i + 1, s, k)
  {
    if s == 0 {
      var part := RightPart(x.kids[i], |x.kids[i].keys| - 1);
      assert Balanced(part) && (part.kids == [] <==> x.kids[i + 1].kids == []);
      JoinedContains(part, x.keys[i], x.kids[i + 1], k);
    }
  }

  lemma RotateLeftPath(x: Tree, i: nat, s: nat, k: int)
    requires i < |x.keys| && |x.kids| == |x.keys| + 1
    requires Balanced(x.kids[i + 1]) && |x.kids[i + 1].keys| > 0
    requires Balanced(x.kids[i]) && (x.kids[i].kids == [] <==> x.kids[i + 1].kids == [])
    requires OnPath(x, i, s, k)
    ensures OnPath(RotateLeft(x, i), i, s, k)
  {
    if s == 0 {
      var part := LeftPart(x.kids[i + 1], 0);
      assert Balanced(part) && (part.kids == [] <==> x.kids[i].kids == []);
      JoinedContains(x.kids[i], x.keys[i], part, k);
    }
  }

  /** Whichever of the two merged kids was on the path, the merged kid is. */
  lemma MergePath(x: Tree, i: nat, s: nat, k: int)
    requires i < |x.keys| && |x.kids| == |x.keys| + 1
    requires Balanced(x.kids[i]) && Balanced(x.kids[i + 1]) && (x.kids[i].kids == [] <==> x.kids[i + 1].kids == [])
    requires OnPath(x, i, s, k) || OnPath(x, i + 1, s, k) || (s == 0 && k == x.keys[i])
    requires s == 1 ==> i + 1 == |x.keys|
    requires s == 2 ==> i == 0
    ensures OnPath(Merge(x, i), i, s, k)
  {
    if s == 0 { JoinedContains(x.kids[i], x.keys[i], x.kids[i + 1], k); }
  }

  // ---------- whole trees ----------

  /** A node without keys stands for its only kid. */
  lemma OnlyKid(x: Tree)
    requires x.keys == [] && |x.kids| == 1
    ensures Flat(x) == Flat(x.kids[0])
  {
  }

  /** The last element, if any, is below k; the first element, if any, is above k. */
  ghost predicate Under(l: seq<int>, k: int) {
    l != [] ==> l[|l| - 1] < k
  }

  ghost predicate Over(r: seq<int>, k: int) {
    r != [] ==> k < r[0]
  }

  datatype Option<T> = None | Some(value: T)

  function Last(l: seq<int>): Option<int> {
    if l == [] then None else Some(l[|l| - 1])
  }

  function First(r: seq<int>): Option<int> {
    if r == [] then None else Some(r[0])
  }

  /** v is the greatest key that is at most k. */
  ghost predicate Floor(s: seq<int>, k: int, v: Option<int>) {
    match v
    case None => forall a :: a in s ==> k < a
    case Some(b) => b in s && b <= k && forall a :: a in s && a <= k ==> a <= b
  }

  /** v is the least key that is at least k. */
  ghost predicate Ceiling(s: seq<int>, k: int, v: Option<int>) {
    match v
    case None => forall a :: a in s ==> a < k
    case Some(b) => b in s && k <= b && forall a :: a in s && k <= a ==> b <= a
  }

  lemma CutNeighbours(s: seq<int>, l: seq<int>, r: seq<int>, k: int)
    requires Sorted(s) && s == l + r && Under(l, k) && Over(r, k)
    ensures k !in s && Floor(s, k, Last(l)) && Ceiling(s, k, First(r))
  {
    forall a | a in s
      ensures a in l ==> a < k && a <= l[|l| - 1]
      ensures a in r ==> k < a && r[0] <= a
      ensures a in l || a in r
    {
      assert l + [] + r == s;
      SortedPieces(l, [], r);
    }
    if l != [] { assert l[|l| - 1] in s; }
    if r != [] { assert r[0] in s; }
  }

  lemma Exactly(s: seq<int>, k: int)
    requires k in s
    ensures Floor(s, k, Some(k)) && Ceiling(s, k, Some(k))
  {
  }

  lemma KeyInFlat(x: Tree, i: nat)
    requires Balanced(x) && i < |x.keys|
    ensures x.keys[i] in Flat(x)
  {
    if x.kids == [] { LeafFlat(x.keys); } else { PairFlat(x, i); }
  }

  lemma NoNeighbours(k: int)
    ensures Under([], k) && Over([], k) && Last([]) == None && First([]) == None
  {
  }

  lemma Widen(l: seq<int>, b: seq<int>, k: int)
    requires Under(l, k) && Under(b, k)
    ensures Under(l + b, k) && Last(l + b) == if b == [] then Last(l) else Last(b)
  {
    assert b == [] ==> l + b == l;
  }

  lemma WidenRight(a: seq<int>, r: seq<int>, k: int)
    requires Over(a, k) && Over(r, k)
    ensures Over(a + r, k) && First(a + r) == if a == [] then First(r) else First(a)
  {
    assert a == [] ==> a + r == r;
  }

  /** The keys next to kid i bound what stands before and after it. */
  lemma Bounds(x: Tree, i: nat, k: int)
    requires i < |x.kids| == |x.keys| + 1
    requires (i > 0 ==> x.keys[i - 1] < k) && (i < |x.keys| ==> k < x.keys[i])
    ensures Under(Before(x, i), k) && Over(After(x, i), k)
    ensures Before(x, i) == [] <==> i == 0
    ensures After(x, i) == [] <==> i == |x.keys|
    ensures i > 0 ==> Last(Before(x, i)) == Some(x.keys[i - 1])
    ensures i < |x.keys| ==> First(After(x, i)) == Some(x.keys[i])
  {
    if i > 0 { FocusNext(x, i - 1); }
    if i < |x.keys| { FocusNext(x, i); }
  }

  /** Going down to kid i narrows the cut. */
  lemma CutDown(s: seq<int>, l: seq<int>, x: Tree, r: seq<int>, i: nat, k: int)
    requires i < |x.kids| == |x.keys| + 1 && s == l + Flat(x) + r && Under(l, k) && Over(r, k)
    requires (i > 0 ==> x.keys[i - 1] < k) && (i < |x.keys| ==> k < x.keys[i])
    ensures s == (l + Before(x, i)) + Flat(x.kids[i]) + (After(x, i) + r)
    ensures Under(l + Before(x, i), k) && Over(After(x, i) + r, k)
    ensures Last(l + Before(x, i)) == if i > 0 then Some(x.keys[i - 1]) else Last(l)
    ensures First(After(x, i) + r) == if i < |x.keys| then Some(x.keys[i]) else First(r)
  {
    hide *;
    FocusAt(x, i);
    Bounds(x, i, k);
    Widen(l, Before(x, i), k);
    WidenRight(After(x, i), r, k);
  }

  /** At a leaf the cut is complete. */
  lemma CutLeaf(s: seq<int>, l: seq<int>, keys: seq<int>, r: seq<int>, i: nat, k: int)
    requires i <= |keys| && s == l + Flat(Node(keys, [])) + r && Sorted(s) && Under(l, k) && Over(r, k)
    requires (i > 0 ==> keys[i - 1] < k) && (i < |keys| ==> k < keys[i])
    ensures Floor(s, k, if i > 0 then Some(keys[i - 1]) else Last(l))
    ensures Ceiling(s, k, if i < |keys| then Some(keys[i]) else First(r))
  {
    LeafFlat(keys);
    assert keys == keys[..i] + keys[i..];
    CutParts(s, l, keys[..i], keys[i..], r, k);
  }

  lemma CutParts(s: seq<int>, l: seq<int>, a: seq<int>, b: seq<int>, r: seq<int>, k: int)
    requires s == l + (a + b) + r && Sorted(s)
    requires Under(l, k) && Under(a, k) && Over(b, k) && Over(r, k)
    ensures Floor(s, k, if a == [] then Last(l) else Last(a))
    ensures Ceiling(s, k, if b == [] then First(r) else First(b))
  {
    hide *;
    Widen(l, a, k);
    WidenRight(b, r, k);
    assert s == (l + a) + (b + r);
    CutNeighbours(s, l + a, b + r, k);
  }
}
