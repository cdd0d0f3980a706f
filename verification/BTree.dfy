/** kbtree: a B-tree of nodes updated in place. A comparator over a finite key type orders it like a
    set of integers, so keys are integers here. */
module BTree {
  import opened Arith
  import opened BTreeModel

  /** `kb_generic_cmp` */
  function Cmp(a: int, b: int): int {
    if a < b then -1 else if b < a then 1 else 0
  }

  /** `__kb_getp_aux`: the position of the first key not below k when it equals k, else the position
      before it; r is the last comparison. */
  method GetAux(keys: seq<int>, k: int) returns (i: int, r: int)
    requires Sorted(keys)
    ensures -1 <= i < |keys|
    ensures i >= 0 && r == 0 <==> k in keys
    ensures |keys| > 0 && r == 0 ==> i >= 0
    ensures i >= 0 && r == 0 ==> keys[i] == k
    ensures forall j :: 0 <= j < i ==> keys[j] < k
    ensures i >= 0 && r != 0 ==> keys[i] < k
    ensures forall j :: i < j < |keys| ==> if r == 0 then k <= keys[j] else k < keys[j]
  {
    r := 0;
    if |keys| == 0 { return -1, r; }
    var begin, end := 0, |keys|;
    while begin < end
      invariant 0 <= begin <= end <= |keys|
      invariant forall j :: 0 <= j < begin ==> keys[j] < k
      invariant forall j :: end <= j < |keys| ==> k <= keys[j]
    {
      var mid := (begin + end) / 2;
      if Cmp(keys[mid], k) < 0 { begin := mid + 1; } else { end := mid; }
    }
    if begin == |keys| { return |keys| - 1, 1; }
    r := Cmp(k, keys[begin]);
    i := if r < 0 then begin - 1 else begin;
  }

  ghost predicate Apart(ss: seq<set<BNode>>) {
    forall i, j :: 0 <= i < j < |ss| ==> ss[i] !! ss[j]
  }

  ghost function Flatten(ss: seq<set<BNode>>): (all: set<BNode>)
    ensures forall i :: 0 <= i < |ss| ==> ss[i] <= all
  {
    if ss == [] then {} else ss[0] + Flatten(ss[1..])
  }

  lemma {:induction false} FlattenApart(ss: seq<set<BNode>>, a: set<BNode>)
    requires forall i :: 0 <= i < |ss| ==> ss[i] !! a
    ensures Flatten(ss) !! a
  {
    if ss != [] { FlattenApart(ss[1..], a); }
  }

  lemma {:induction false} FlattenWithin(ss: seq<set<BNode>>, a: set<BNode>)
    requires forall i :: 0 <= i < |ss| ==> ss[i] <= a
    ensures Flatten(ss) <= a
  {
    if ss != [] { FlattenWithin(ss[1..], a); }
  }

  lemma ApartCut(ss: seq<set<BNode>>, n: nat)
    requires Apart(ss) && n <= |ss|
    ensures Apart(ss[..n]) && Apart(ss[n..])
    ensures Flatten(ss[..n]) !! Flatten(ss[n..])
  {
    forall i | 0 <= i < n ensures ss[..n][i] !! Flatten(ss[n..]) {
      FlattenApart(ss[n..], ss[i]);
    }
    FlattenApart(ss[..n], Flatten(ss[n..]));
  }

  lemma ApartFrom(ss: seq<set<BNode>>, i: nat)
    requires Apart(ss) && i < |ss|
    ensures forall j :: 0 <= j < |ss| && j != i ==> ss[j] !! ss[i]
  {
  }

  lemma ApartJoin(a: seq<set<BNode>>, b: seq<set<BNode>>)
    requires Apart(a) && Apart(b)
    requires forall i, j :: 0 <= i < |a| && 0 <= j < |b| ==> a[i] !! b[j]
    ensures Apart(a + b)
    ensures Flatten(a + b) <= Flatten(a) + Flatten(b)
  {
    FlattenWithin(a + b, Flatten(a) + Flatten(b));
  }

  lemma ApartSplit(ss: seq<set<BNode>>, i: nat, a: set<BNode>, b: set<BNode>, z: BNode)
    requires Apart(ss) && i < |ss| && a !! b && a <= ss[i] && b <= ss[i] + {z}
    requires forall j :: 0 <= j < |ss| ==> z !in ss[j]
    ensures Apart(ss[..i] + [a, b] + ss[i + 1..])
  {
  }

  lemma ApartPair(ss: seq<set<BNode>>, i: nat, a: set<BNode>, b: set<BNode>)
    requires Apart(ss) && i + 1 < |ss| && a !! b && a + b <= ss[i] + ss[i + 1]
    ensures Apart(ss[i := a][i + 1 := b])
  {
  }

  lemma ApartMerge(ss: seq<set<BNode>>, i: nat, a: set<BNode>)
    requires Apart(ss) && i + 1 < |ss| && a <= ss[i] + ss[i + 1]
    ensures Apart(ss[..i] + [a] + ss[i + 2..])
  {
  }

  lemma ApartOne(ss: seq<set<BNode>>, i: nat, a: set<BNode>, outside: set<BNode>)
    requires Apart(ss) && i < |ss| && a <= ss[i] + outside
    requires forall j :: 0 <= j < |ss| ==> ss[j] !! outside
    ensures Apart(ss[i := a])
  {
  }

  lemma OneFlatten(a: set<BNode>)
    ensures Flatten([a]) == a
  {
    assert [a][1..] == [];
  }

  lemma OneKidShaped(c: Tree, d: nat, t: nat)
    requires t >= 2 && Shaped(c, d, t, t - 1)
    ensures Shaped(Node([], [c]), d + 1, t, 0)
  {
  }

  /** A full root c becomes the only kid of a new one and is split. */
  lemma GrownShape(c: Tree, d: nat, t: nat)
    requires t >= 2 && Shaped(c, d, t, if d == 0 then 0 else 1) && |c.keys| == 2 * t - 1
    ensures var x := Node([], [c]);
            && Balanced(c) && Flat(Split(x, 0, t)) == Flat(c) && Shaped(Split(x, 0, t), d + 1, t, 1)
            && |Split(x, 0, t).keys| == 1
  {
    hide Shaped, Flat, LeftPart, RightPart, Balanced;
    var x := Node([], [c]);
    WeakerShaped(c, d, t, if d == 0 then 0 else 1, t - 1);
    OneKidShaped(c, d, t);
    OnlyKid(x);
    SplitShaped(x, d + 1, t, 0, 0);
    SplitFlat(x, 0, t);
    WeakerShaped(Split(x, 0, t), d + 1, t, 0, 1);
  }

  class BNode {
    var isInternal: bool
    var keys: seq<int>
    var kids: seq<BNode>

    /** The nodes of this subtree, those of every kid's subtree, and the value of the subtree. */
    ghost var repr: set<BNode>
    ghost var reprs: seq<set<BNode>>
    ghost var model: Tree

    ghost predicate Linked(i: nat)
      requires i < |kids| == |reprs| == |model.kids|
      reads this, kids[i], kids[i].repr
      decreases repr, 0
    {
      var c := kids[i];
      && c in repr && reprs[i] <= repr && this !in reprs[i]
      && c.repr == reprs[i] && c.model == model.kids[i] && c.repr < repr && c.Valid()
    }

    ghost predicate Valid()
      reads this, repr
      decreases repr, 1
    {
      && this in repr
      && (if isInternal then |kids| == |keys| + 1 else kids == [])
      && model.keys == keys && |model.kids| == |kids| == |reprs| && Apart(reprs)
      && (forall i :: 0 <= i < |kids| ==> kids[i] in repr && kids[i].repr <= repr && Linked(i))
    }

    constructor (isInternal: bool)
      ensures this.isInternal == isInternal && keys == [] && kids == []
      ensures repr == {this} && model == Node([], []) && (!isInternal ==> Valid())
    {
      this.isInternal, keys, kids := isInternal, [], [];
      repr, reprs, model := {this}, [], Node([], []);
    }

    /** A node whose kids are well formed and apart gets the footprint and the value they give it. */
    ghost method Seal(rs: seq<set<BNode>>, m: Tree)
      requires if isInternal then |kids| == |keys| + 1 else kids == []
      requires m.keys == keys && |m.kids| == |kids| == |rs| && Apart(rs)
      requires forall i :: 0 <= i < |kids| ==>
                 kids[i].Valid() && kids[i].repr == rs[i] && kids[i].model == m.kids[i] && this !in rs[i]
      modifies this`repr, this`reprs, this`model
      ensures Valid() && repr == {this} + Flatten(rs) && reprs == rs && model == m
    {
      repr, reprs, model := {this} + Flatten(rs), rs, m;
      forall i | 0 <= i < |kids| ensures Linked(i) {
        assert kids[i] in kids[i].repr;
      }
    }

    lemma KidsWithin(i: nat)
      requires Valid() && i < |kids|
      ensures Linked(i) && reprs[i] <= repr - {this} && kids[i].Valid()
      ensures kids[i].repr == reprs[i] && kids[i].model == model.kids[i]
      ensures kids[i] in reprs[i] && kids[i] != this
    {
      assert Linked(i);
    }

    /** Keep what is left of key m here and move what is right of it to a new node. */
    method CutAt(m: nat) returns (z: BNode, middle: int)
      requires Valid() && m < |keys|
      modifies this
      ensures Valid() && z.Valid() && fresh(z) && z.isInternal == isInternal == old(isInternal)
      ensures middle == old(keys)[m]
      ensures model == LeftPart(old(model), m) && z.model == RightPart(old(model), m)
      ensures repr <= old(repr) && z.repr <= old(repr) + {z} && repr !! z.repr
    {
      hide Flatten, Apart, BNode.Linked, LeftPart, RightPart;
      ghost var n := if isInternal then m + 1 else 0;
      KidsFacts();
      ApartCut(reprs, n);
      FlattenWithin(reprs[..n], repr - {this});
      FlattenWithin(reprs[n..], repr - {this});
      middle := keys[m];
      z := CopyRight(m);
      KeepLeft(m);
    }

    method CopyRight(m: nat) returns (z: BNode)
      requires Valid() && m < |keys|
      ensures z.Valid() && fresh(z) && z.isInternal == isInternal && z.model == RightPart(model, m)
      ensures z.repr == {z} + Flatten(reprs[if isInternal then m + 1 else 0..])
    {
      hide Flatten, Apart, BNode.Linked;
      ghost var n := if isInternal then m + 1 else 0;
      KidsFacts();
      ApartCut(reprs, n);
      z := new BNode(isInternal);
      z.keys := keys[m + 1..];
      if isInternal { z.kids := kids[m + 1..]; }
      z.Seal(reprs[n..], RightPart(model, m));
    }

    method KeepLeft(m: nat)
      requires Valid() && m < |keys|
      modifies this
      ensures Valid() && isInternal == old(isInternal) && model == LeftPart(old(model), m)
      ensures repr == {this} + Flatten(old(reprs)[..if isInternal then m + 1 else 0])
    {
      hide Flatten, Apart, BNode.Linked;
      ghost var n := if isInternal then m + 1 else 0;
      KidsFacts();
      ApartCut(reprs, n);
      keys := keys[..m];
      if isInternal { kids := kids[..m + 1]; }
      Seal(reprs[..n], LeftPart(model, m));
    }

    /** Everything the restructuring methods need to know about the kids. */
    lemma KidsFacts()
      requires Valid()
      ensures forall i :: 0 <= i < |kids| ==>
                reprs[i] <= repr - {this} && kids[i].Valid() && kids[i] in reprs[i] &&
                kids[i].repr == reprs[i] && kids[i].model == model.kids[i]
      ensures Flatten(reprs) <= repr - {this}
    {
      forall i | 0 <= i < |kids|
        ensures reprs[i] <= repr - {this} && kids[i].Valid() && kids[i] in reprs[i]
        ensures kids[i].repr == reprs[i] && kids[i].model == model.kids[i]
      {
        KidsWithin(i);
      }
      FlattenWithin(reprs, repr - {this});
    }

    /** `kids` and their footprints and values belong together, away from the nodes in `apart`. */
    static ghost predicate Bundle(cs: seq<BNode>, rs: seq<set<BNode>>, ts: seq<Tree>, apart: set<BNode>)
      reads cs, Flatten(rs)
    {
      && |cs| == |rs| == |ts| && Apart(rs)
      && forall j :: 0 <= j < |cs| ==>
           cs[j].repr == rs[j] && cs[j].Valid() && cs[j].model == ts[j] && rs[j] !! apart
    }

    /** Key k and then the given keys and kids are added at the end. */
    method Append(k: int, ks: seq<int>, cs: seq<BNode>, ghost rs: seq<set<BNode>>, ghost m: Tree)
      requires Valid() && m.keys == ks && Bundle(cs, rs, m.kids, repr)
      requires if isInternal then |cs| == |ks| + 1 else cs == []
      modifies this
      ensures Valid() && isInternal == old(isInternal)
      ensures model == Joined(old(model), k, m) && repr <= old(repr) + Flatten(rs)
    {
      hide Flatten, Apart, BNode.Linked;
      KidsFacts();
      ApartJoin(reprs, rs);
      keys := keys + [k] + ks;
      if isInternal { kids := kids + cs; }
      assert kids == old(kids) + cs;
      Seal(reprs + rs, Joined(model, k, m));
    }

    /** The given keys and kids and then key k are added at the front. */
    method Prepend(ks: seq<int>, cs: seq<BNode>, k: int, ghost rs: seq<set<BNode>>, ghost m: Tree)
      requires Valid() && m.keys == ks && Bundle(cs, rs, m.kids, repr)
      requires if isInternal then |cs| == |ks| + 1 else cs == []
      modifies this
      ensures Valid() && isInternal == old(isInternal)
      ensures model == Joined(m, k, old(model)) && repr <= old(repr) + Flatten(rs)
    {
      hide Flatten, Apart, BNode.Linked;
      KidsFacts();
      ApartJoin(rs, reprs);
      keys := ks + [k] + keys;
      if isInternal { kids := cs + kids; }
      assert kids == cs + old(kids);
      Seal(rs + reprs, Joined(m, k, model));
    }

    /** The last key, and in an internal node the last kid, leave the node. */
    method PopLast() returns (key: int, cs: seq<BNode>, ghost rs: seq<set<BNode>>)
      requires Valid() && |keys| > 0
      modifies this
      ensures Valid() && isInternal == old(isInternal)
      ensures key == old(keys)[|old(keys)| - 1]
      ensures var m := |old(keys)| - 1;
              model == LeftPart(old(model), m) && Bundle(cs, rs, RightPart(old(model), m).kids, repr)
      ensures repr <= old(repr) && Flatten(rs) <= old(repr) - {this}
    {
      hide Flatten, Apart, BNode.Linked;
      ghost var m := |keys| - 1;
      ghost var n := if isInternal then m + 1 else 0;
      KidsFacts();
      ApartCut(reprs, n);
      FlattenWithin(reprs[..n], repr - {this});
      FlattenWithin(reprs[n..], repr - {this});
      key := keys[|keys| - 1];
      keys := keys[..|keys| - 1];
      cs, rs := [], reprs[n..];
      if isInternal {
        cs := [kids[|kids| - 1]];
        kids := kids[..|kids| - 1];
      }
      Seal(reprs[..n], LeftPart(model, m));
    }

    /** The first key, and in an internal node the first kid, leave the node. */
    method PopFirst() returns (key: int, cs: seq<BNode>, ghost rs: seq<set<BNode>>)
      requires Valid() && |keys| > 0
      modifies this
      ensures Valid() && isInternal == old(isInternal)
      ensures key == old(keys)[0]
      ensures model == RightPart(old(model), 0) && Bundle(cs, rs, LeftPart(old(model), 0).kids, repr)
      ensures repr <= old(repr) && Flatten(rs) <= old(repr) - {this}
    {
      hide Flatten, Apart, BNode.Linked;
      ghost var n := if isInternal then 1 else 0;
      KidsFacts();
      ApartCut(reprs, n);
      FlattenWithin(reprs[..n], repr - {this});
      FlattenWithin(reprs[n..], repr - {this});
      key := keys[0];
      keys := keys[1..];
      cs, rs := [], reprs[..n];
      if isInternal {
        cs := [kids[0]];
        kids := kids[1..];
      }
      Seal(reprs[n..], RightPart(model, 0));
    }

    /** `__kb_split` of the full kid i. */
    method SplitKid(i: nat, t: nat)
      requires Valid() && isInternal && i < |kids| && t >= 2
      requires Balanced(model.kids[i]) && |model.kids[i].keys| == 2 * t - 1
      modifies this, kids[i]
      ensures Valid() && isInternal && fresh(repr - old(repr))
      ensures model == Split(old(model), i, t)
    {
      hide Flatten, Apart, BNode.Linked, LeftPart, RightPart;
      KidsFacts();
      ApartFrom(reprs, i);
      var z, middle := kids[i].CutAt(t - 1);
      LinkSibling(i, z, middle);
    }

    /** The second half of `__kb_split`: kid i has shrunk, and what it lost is the new node z. */
    method LinkSibling(i: nat, z: BNode, middle: int)
      requires isInternal && i < |kids| == |keys| + 1 == |reprs| == |model.kids| && model.keys == keys
      requires Apart(reprs) && Flatten(reprs) <= repr - {this}
      requires forall j :: 0 <= j < |kids| ==> this !in reprs[j] && z !in reprs[j]
      requires forall j :: 0 <= j < |kids| && j != i ==>
                 kids[j].Valid() && kids[j].repr == reprs[j] && kids[j].model == model.kids[j]
      requires kids[i].Valid() && kids[i].repr <= reprs[i] && kids[i].repr !! z.repr
      requires z.Valid() && z.repr <= reprs[i] + {z} && z != this
      modifies this
      ensures Valid() && isInternal && repr <= old(repr) + {z} + {this}
      ensures |kids| == |old(kids)| + 1 && kids[i] == old(kids)[i]
      ensures model == Node(old(keys)[..i] + [middle] + old(keys)[i..],
                            old(model).kids[..i] + [kids[i].model, z.model] + old(model).kids[i + 1..])
    {
      hide Flatten, Apart, BNode.Linked;
      ghost var rs := reprs[..i] + [kids[i].repr, z.repr] + reprs[i + 1..];
      ghost var ts := model.kids[..i] + [kids[i].model, z.model] + model.kids[i + 1..];
      ApartSplit(reprs, i, kids[i].repr, z.repr, z);
      FlattenWithin(rs, repr - {this} + {z});
      kids := kids[..i + 1] + [z] + kids[i + 1..];
      keys := keys[..i] + [middle] + keys[i..];
      Seal(rs, Node(keys, ts));
    }

    /** The last key of y comes out, and k and the last kid of y go to the front of z. */
    static method MoveLast(y: BNode, z: BNode, k: int) returns (key: int)
      requires y.Valid() && z.Valid() && y.repr !! z.repr && y.isInternal == z.isInternal && |y.keys| > 0
      modifies y, z
      ensures y.Valid() && z.Valid() && y.repr !! z.repr && y.repr + z.repr <= old(y.repr + z.repr)
      ensures Balanced(old(y.model)) && key == old(y.model).keys[|old(y.model).keys| - 1]
      ensures var m := |old(y.model).keys| - 1;
              y.model == LeftPart(old(y.model), m) && z.model == Joined(RightPart(old(y.model), m), k, old(z.model))
    {
      hide Flatten, Apart, BNode.Linked, LeftPart, RightPart, Joined;
      ghost var part := RightPart(y.model, |y.keys| - 1);
      RightPartEmpty(y.model);
      var cs: seq<BNode>;
      ghost var rs: seq<set<BNode>>;
      key, cs, rs := y.PopLast();
      FlattenApart(rs, y.repr);
      z.Prepend([], cs, k, rs, part);
    }

    /** The first key of z comes out, and k and the first kid of z go to the end of y. */
    static method MoveFirst(y: BNode, z: BNode, k: int) returns (key: int)
      requires y.Valid() && z.Valid() && y.repr !! z.repr && y.isInternal == z.isInternal && |z.keys| > 0
      modifies y, z
      ensures y.Valid() && z.Valid() && y.repr !! z.repr && y.repr + z.repr <= old(y.repr + z.repr)
      ensures Balanced(old(z.model)) && key == old(z.model).keys[0]
      ensures y.model == Joined(old(y.model), k, LeftPart(old(z.model), 0)) && z.model == RightPart(old(z.model), 0)
    {
      hide Flatten, Apart, BNode.Linked, LeftPart, RightPart, Joined;
      ghost var part := LeftPart(z.model, 0);
      LeftPartEmpty(z.model);
      var cs: seq<BNode>;
      ghost var rs: seq<set<BNode>>;
      key, cs, rs := z.PopFirst();
      FlattenApart(rs, z.repr);
      y.Append(k, [], cs, rs, part);
    }

    /** Borrowing from the left: `xp` is kid i+1. */
    method RotateRightAt(i: nat)
      requires Valid() && i < |keys| && |kids| == |keys| + 1
      requires kids[i].isInternal == kids[i + 1].isInternal
      requires Balanced(model.kids[i]) && |model.kids[i].keys| > 0
      modifies this, kids[i], kids[i + 1]
      ensures Valid() && repr <= old(repr) && isInternal == old(isInternal)
      ensures model == RotateRight(old(model), i)
    {
      hide Flatten, Apart, BNode.Linked, LeftPart, RightPart, Joined;
      KidsFacts();
      ApartFrom(reprs, i);
      ApartFrom(reprs, i + 1);
      var y, z := kids[i], kids[i + 1];
      var key := MoveLast(y, z, keys[i]);
      ghost var rs' := reprs[i := y.repr][i + 1 := z.repr];
      ApartPair(reprs, i, y.repr, z.repr);
      FlattenWithin(rs', repr - {this});
      keys := keys[i := key];
      forall j | 0 <= j < |kids|
        ensures kids[j].Valid() && kids[j].repr == rs'[j] && this !in rs'[j]
        ensures kids[j].model == RotateRight(model, i).kids[j]
      {
      }
      Seal(rs', RotateRight(model, i));
    }

    /** Borrowing from the right: `xp` is kid i. */
    method RotateLeftAt(i: nat)
      requires Valid() && i < |keys| && |kids| == |keys| + 1
      requires kids[i].isInternal == kids[i + 1].isInternal
      requires Balanced(model.kids[i + 1]) && |model.kids[i + 1].keys| > 0
      modifies this, kids[i], kids[i + 1]
      ensures Valid() && repr <= old(repr) && isInternal == old(isInternal)
      ensures model == RotateLeft(old(model), i)
    {
      hide Flatten, Apart, BNode.Linked, LeftPart, RightPart, Joined;
      KidsFacts();
      ApartFrom(reprs, i);
      ApartFrom(reprs, i + 1);
      var y, z := kids[i], kids[i + 1];
      var key := MoveFirst(y, z, keys[i]);
      ghost var rs' := reprs[i := y.repr][i + 1 := z.repr];
      ApartPair(reprs, i, y.repr, z.repr);
      FlattenWithin(rs', repr - {this});
      keys := keys[i := key];
      forall j | 0 <= j < |kids|
        ensures kids[j].Valid() && kids[j].repr == rs'[j] && this !in rs'[j]
        ensures kids[j].model == RotateLeft(model, i).kids[j]
      {
      }
      Seal(rs', RotateLeft(model, i));
    }

    /** Merging kids i and i+1 around a key that equals key i; kid i+1 is freed. */
    method MergeAt(i: nat, mid: int)
      requires Valid() && i < |keys| && |kids| == |keys| + 1 && mid == keys[i]
      requires kids[i].isInternal == kids[i + 1].isInternal
      modifies this, kids[i]
      ensures Valid() && repr <= old(repr) && isInternal == old(isInternal)
      ensures model == Merge(old(model), i)
    {
      hide Flatten, Apart, BNode.Linked, Joined;
      KidsFacts();
      AppendNext(i, mid);
      ghost var y := kids[i];
      ghost var rs' := reprs[..i] + [y.repr] + reprs[i + 2..];
      ApartMerge(reprs, i, y.repr);
      FlattenWithin(rs', repr - {this});
      keys := keys[..i] + keys[i + 1..];
      kids := kids[..i + 1] + kids[i + 2..];
      Seal(rs', Merge(model, i));
    }

    /** Key i and what is in kid i+1 join kid i. */
    method AppendNext(i: nat, mid: int)
      requires Valid() && i < |keys| && |kids| == |keys| + 1
      requires kids[i].isInternal == kids[i + 1].isInternal
      modifies kids[i]
      ensures kids == old(kids) && keys == old(keys) && reprs == old(reprs) && model == old(model)
      ensures i + 1 < |kids| == |reprs| == |model.kids| && isInternal == old(isInternal) && repr == old(repr)
      ensures this !in kids[i].repr && kids[i].Valid() && kids[i].repr <= reprs[i] + reprs[i + 1]
      ensures kids[i].model == Joined(model.kids[i], mid, model.kids[i + 1])
      ensures forall j :: 0 <= j < |kids| && j != i && j != i + 1 ==>
                kids[j].Valid() && kids[j].repr == reprs[j] && kids[j].model == model.kids[j] && this !in reprs[j]
    {
      hide Flatten, Apart, BNode.Linked, Joined;
      KidsFacts();
      ApartFrom(reprs, i);
      ApartFrom(reprs, i + 1);
      var y, z := kids[i], kids[i + 1];
      z.KidsFacts();
      assert Bundle(z.kids, z.reprs, z.model.kids, y.repr);
      y.Append(mid, z.keys, z.kids, z.reprs, z.model);
    }

    /** Only kid i has changed since this node was sealed, and it has grown by fresh nodes only. */
    ghost method KidChanged(i: nat, rs: seq<set<BNode>>, m: Tree, grown: set<BNode>)
      requires i < |kids| == |keys| + 1 && isInternal
      requires m.keys == keys && |m.kids| == |kids| == |rs| && Apart(rs) && this !in grown
      requires forall j :: 0 <= j < |kids| ==> this !in rs[j] && rs[j] !! grown
      requires forall j :: 0 <= j < |kids| && j != i ==>
                 kids[j].Valid() && kids[j].repr == rs[j] && kids[j].model == m.kids[j]
      requires kids[i].Valid() && kids[i].repr <= rs[i] + grown
      modifies this`repr, this`reprs, this`model
      ensures Valid() && repr <= {this} + Flatten(rs) + grown
      ensures model == Node(keys, m.kids[i := kids[i].model])
    {
      hide Flatten, Apart, BNode.Linked;
      var rs' := rs[i := kids[i].repr];
      ApartOne(rs, i, kids[i].repr, grown);
      FlattenWithin(rs', Flatten(rs) + grown);
      Seal(rs', Node(keys, m.kids[i := kids[i].model]));
    }

    /** `__kb_putp_aux`: k goes into the subtree of a node that is not full. */
    method PutAux(k: int, t: nat, ghost d: nat, ghost lo: nat)
      requires Valid() && Shaped(model, d, t, lo) && t >= 2 && |keys| < 2 * t - 1
      requires Sorted(Flat(model))
      modifies repr
      ensures Valid() && fresh(repr - old(repr)) && isInternal == old(isInternal)
      ensures Shaped(model, d, t, lo)
      ensures Inserted(old(Flat(model)), Flat(model), k) && Sorted(Flat(model))
      decreases d, 1
    {
      KeysSorted(model);
      hide Flat, Inserted, Sorted, Flatten, Apart;
      var i, r := GetAux(keys, k);
      if !isInternal {
        PutInLeaf(i + 1, k);
      } else {
        PutInKid(i + 1, k, t, d, lo);
      }
    }

    /** The leaf case of `__kb_putp_aux`. */
    method PutInLeaf(p: nat, k: int)
      requires Valid() && !isInternal && p <= |keys| && Sorted(keys)
      requires forall j :: 0 <= j < p ==> keys[j] <= k
      requires forall j :: p <= j < |keys| ==> k <= keys[j]
      modifies this
      ensures Valid() && !isInternal && repr == {this}
      ensures model == Node(old(keys)[..p] + [k] + old(keys)[p..], [])
      ensures Inserted(old(Flat(model)), Flat(model), k) && Sorted(Flat(model))
    {
      hide Flat, Inserted, Sorted;
      LeafInsert(keys, p, k);
      assert model == Node(keys, []);
      keys := keys[..p] + [k] + keys[p..];
      Seal([], Node(keys, []));
    }

    /** The internal case of `__kb_putp_aux`: a full kid is split before the descent. */
    method PutInKid(i0: nat, k: int, t: nat, ghost d: nat, ghost lo: nat)
      requires Valid() && Shaped(model, d, t, lo) && t >= 2 && |keys| < 2 * t - 1
      requires Sorted(Flat(model)) && isInternal && i0 <= |keys| && d > 0
      requires i0 > 0 ==> keys[i0 - 1] <= k
      requires i0 < |keys| ==> k <= keys[i0]
      modifies repr
      ensures Valid() && fresh(repr - old(repr)) && isInternal
      ensures Shaped(model, d, t, lo)
      ensures Inserted(old(Flat(model)), Flat(model), k) && Sorted(Flat(model))
      decreases d, 0
    {
      hide Flatten, Apart, BNode.Linked, Flat, Shaped, Split, Inserted, Sorted;
      var i := i0;
      KidsFacts();
      KidShaped(model, d, t, lo, i);
      if |kids[i].keys| == 2 * t - 1 {
        SplitFlat(model, i, t);
        SplitShaped(model, d, t, lo, i);
        SplitOrder(model, i, t, k);
        SplitKid(i, t);
        if k > keys[i] { i := i + 1; }
      }
      DescendPut(i, k, t, d, lo);
    }

    /** The recursive call on kid i. */
    method DescendPut(i: nat, k: int, t: nat, ghost d: nat, ghost lo: nat)
      requires Valid() && Shaped(model, d, t, lo) && t >= 2 && Sorted(Flat(model)) && isInternal && d > 0
      requires i <= |keys| && |model.kids[i].keys| < 2 * t - 1
      requires i > 0 ==> keys[i - 1] <= k
      requires i < |keys| ==> k <= keys[i]
      modifies repr
      ensures Valid() && fresh(repr - old(repr)) && isInternal
      ensures Shaped(model, d, t, lo)
      ensures Inserted(old(Flat(model)), Flat(model), k) && Sorted(Flat(model))
      decreases d - 1, 2
    {
      hide Flatten, Apart, BNode.Linked, Flat, Shaped, Inserted, Sorted;
      KidsFacts();
      ApartFrom(reprs, i);
      KidShaped(model, d, t, lo, i);
      Separated(model, i);
      var c := kids[i];
      c.PutAux(k, t, d - 1, t - 1);
      InsertThrough(model, i, c.model, k);
      WithKidShaped(model, d, t, lo, i, c.model);
      KidChanged(i, reprs, model, c.repr - old(c.repr));
    }

    /** `__kb_delp_aux`: delete from the subtree k (s = 0), the largest key (s = 1) or the smallest
        key (s = 2), and return what was deleted. */
    method DelAux(k: int, s: nat, t: nat, ghost d: nat, ghost lo: nat) returns (ret: int)
      requires Valid() && Shaped(model, d, t, lo) && t >= 2 && lo < |keys| && s <= 2
      requires Sorted(Flat(model)) && (s == 0 ==> k in Flat(model))
      modifies repr
      ensures Valid() && repr <= old(repr) && isInternal == old(isInternal)
      ensures Shaped(model, d, t, lo)
      ensures Taken(s, old(Flat(model)), Flat(model), ret) && (s == 0 ==> ret == k)
      decreases d, 1
    {
      KeysSorted(model);
      var i: int, r: int;
      if s != 0 {
        r := if !isInternal then 0 else if s == 1 then 1 else -1;
        i := if s == 1 then |keys| - 1 else -1;
      } else {
        i, r := GetAux(keys, k);
        if isInternal && r != 0 { InKid(model, i + 1, k); }
      }
      if !isInternal {
        if s == 2 { i := i + 1; }
        LeafFlat(keys);
        assert model == Node(keys, []);
        ret := keys[i];
        TakeFromLeaf(keys, i, s);
        keys := keys[..i] + keys[i + 1..];
        Seal([], Node(keys, []));
      } else if r == 0 {
        ret := DelFound(i, k, t, d, lo);
      } else {
        ret := DelBelow(i + 1, k, s, t, d, lo);
      }
    }

    /** The key is key i of an internal node: its predecessor or its successor takes its place, or
        the two kids around it are merged and the search goes on there. */
    method DelFound(i: nat, k: int, t: nat, ghost d: nat, ghost lo: nat) returns (ret: int)
      requires Valid() && Shaped(model, d, t, lo) && t >= 2 && lo < |keys| && isInternal && d > 0
      requires Sorted(Flat(model)) && i < |keys| && keys[i] == k
      modifies repr
      ensures Valid() && repr <= old(repr) && isInternal
      ensures Shaped(model, d, t, lo)
      ensures Taken(0, old(Flat(model)), Flat(model), ret) && ret == k
      decreases d, 0
    {
      hide Flatten, Apart, BNode.Linked, Flat, Shaped, Sorted, Merge, Taken;
      KidsFacts();
      KidShaped(model, d, t, lo, i);
      KidShaped(model, d, t, lo, i + 1);
      if |kids[i].keys| >= t {
        ret := DelPredecessor(i, t, d, lo);
      } else if |kids[i + 1].keys| >= t {
        ret := DelSuccessor(i, t, d, lo);
      } else {
        MergePath(model, i, 0, k);
        MergeFlat(model, i);
        MergeShaped(model, d, t, lo, i);
        WeakerShaped(Merge(model, i), d, t, |keys| - 1, lo);
        MergeAt(i, k);
        ret := DescendDel(i, k, 0, t, d, lo);
      }
    }

    method DelPredecessor(i: nat, t: nat, ghost d: nat, ghost lo: nat) returns (ret: int)
      requires Valid() && Shaped(model, d, t, lo) && t >= 2 && isInternal && d > 0
      requires Sorted(Flat(model)) && i < |keys| && |model.kids[i].keys| >= t
      modifies repr
      ensures Valid() && repr <= old(repr) && isInternal && Shaped(model, d, t, lo)
      ensures Taken(0, old(Flat(model)), Flat(model), ret) && ret == old(keys)[i]
      decreases d - 1, 2
    {
      hide Flatten, Apart, BNode.Linked, Flat, Shaped, Sorted, Taken;
      KidsFacts();
      ApartFrom(reprs, i);
      KidShaped(model, d, t, lo, i);
      Separated(model, i);
      ret := keys[i];
      var p := kids[i].DelAux(0, 1, t, d - 1, t - 1);
      TakePredecessor(model, i, kids[i].model, p);
      WithKidShaped(model, d, t, lo, i, kids[i].model);
      ReplaceKeyShaped(Node(model.keys, model.kids[i := kids[i].model]), d, t, lo, i, p);
      keys := keys[i := p];
      KidChanged(i, reprs, Node(keys, model.kids), {});
    }

    method DelSuccessor(i: nat, t: nat, ghost d: nat, ghost lo: nat) returns (ret: int)
      requires Valid() && Shaped(model, d, t, lo) && t >= 2 && isInternal && d > 0
      requires Sorted(Flat(model)) && i < |keys| && |model.kids| == |keys| + 1 && |model.kids[i + 1].keys| >= t
      modifies repr
      ensures Valid() && repr <= old(repr) && isInternal && Shaped(model, d, t, lo)
      ensures Taken(0, old(Flat(model)), Flat(model), ret) && ret == old(keys)[i]
      decreases d - 1, 2
    {
      hide Flatten, Apart, BNode.Linked, Flat, Shaped, Sorted, Taken;
      KidsFacts();
      ApartFrom(reprs, i + 1);
      KidShaped(model, d, t, lo, i + 1);
      Separated(model, i + 1);
      ret := keys[i];
      var p := kids[i + 1].DelAux(0, 2, t, d - 1, t - 1);
      TakeSuccessor(model, i, kids[i + 1].model, p);
      WithKidShaped(model, d, t, lo, i + 1, kids[i + 1].model);
      ReplaceKeyShaped(Node(model.keys, model.kids[i + 1 := kids[i + 1].model]), d, t, lo, i, p);
      keys := keys[i := p];
      KidChanged(i + 1, reprs, Node(keys, model.kids), {});
    }

    /** The key is below kid i, which gets a spare key first if it has none. */
    method DelBelow(i0: nat, k: int, s: nat, t: nat, ghost d: nat, ghost lo: nat) returns (ret: int)
      requires Valid() && Shaped(model, d, t, lo) && t >= 2 && lo < |keys| && s <= 2 && isInternal && d > 0
      requires Sorted(Flat(model)) && i0 < |model.kids| && OnPath(model, i0, s, k)
      modifies repr
      ensures Valid() && repr <= old(repr) && isInternal
      ensures Shaped(model, d, t, lo)
      ensures Taken(s, old(Flat(model)), Flat(model), ret) && (s == 0 ==> ret == k)
      decreases d, 0
    {
      hide Flatten, Apart, BNode.Linked, Flat, Shaped, Sorted, Taken, OnPath, Merge, RotateLeft, RotateRight;
      var i := i0;
      KidsFacts();
      KidShaped(model, d, t, lo, i);
      if |kids[i].keys| == t - 1 {
        i := Refill(i, k, s, t, d, lo);
      }
      ret := DescendDel(i, k, s, t, d, lo);
    }

    /** Kid i has the fewest keys allowed: it borrows one from a sibling that can spare it, or is
        merged with a sibling. Returns the position of the kid to go on with. */
    method Refill(i: nat, ghost k: int, ghost s: nat, t: nat, ghost d: nat, ghost lo: nat) returns (j: nat)
      requires Valid() && Shaped(model, d, t, lo) && t >= 2 && lo < |keys| && s <= 2 && isInternal && d > 0
      requires i < |model.kids| && OnPath(model, i, s, k) && |model.kids[i].keys| == t - 1
      modifies repr
      ensures Valid() && repr <= old(repr) && isInternal
      ensures Shaped(model, d, t, lo) && Flat(model) == old(Flat(model))
      ensures j < |model.kids| && OnPath(model, j, s, k) && |model.kids[j].keys| >= t
    {
      j := i;
      if i > 0 { SiblingSize(i - 1, t, d, lo); }
      if i < |keys| { SiblingSize(i + 1, t, d, lo); }
      hide Flatten, Apart, BNode.Linked, Flat, Shaped, Sorted;
      if i > 0 && |kids[i - 1].keys| >= t {
        BorrowLeft(i, k, s, t, d, lo);
      } else if i < |keys| && |kids[i + 1].keys| >= t {
        BorrowRight(i, k, s, t, d, lo);
      } else if i > 0 && |kids[i - 1].keys| == t - 1 {
        MergeSiblings(i - 1, k, s, t, d, lo);
        j := i - 1;
      } else if i < |keys| && |kids[i + 1].keys| == t - 1 {
        MergeSiblings(i, k, s, t, d, lo);
      }
    }

    lemma SiblingSize(j: nat, t: nat, d: nat, lo: nat)
      requires Valid() && Shaped(model, d, t, lo) && j < |kids|
      ensures kids[j].keys == model.kids[j].keys && |kids[j].keys| >= t - 1
    {
      KidsWithin(j);
      KidShaped(model, d, t, lo, j);
    }

    method BorrowLeft(i: nat, ghost k: int, ghost s: nat, t: nat, ghost d: nat, ghost lo: nat)
      requires Valid() && Shaped(model, d, t, lo) && t >= 2 && isInternal && d > 0
      requires 0 < i < |model.kids| && OnPath(model, i, s, k)
      requires |model.kids[i].keys| == t - 1 && |model.kids[i - 1].keys| >= t
      modifies repr
      ensures Valid() && repr <= old(repr) && isInternal
      ensures Shaped(model, d, t, lo) && Flat(model) == old(Flat(model))
      ensures i < |model.kids| && OnPath(model, i, s, k) && |model.kids[i].keys| >= t
    {
      hide Flatten, Apart, BNode.Linked, Flat, Shaped, Sorted;
      KidsFacts();
      KidShaped(model, d, t, lo, i);
      KidShaped(model, d, t, lo, i - 1);
      RotateRightPath(model, i - 1, s, k);
      RotateRightFlat(model, i - 1);
      RotateRightShaped(model, d, t, lo, i - 1);
      RotateRightAt(i - 1);
    }

    method BorrowRight(i: nat, ghost k: int, ghost s: nat, t: nat, ghost d: nat, ghost lo: nat)
      requires Valid() && Shaped(model, d, t, lo) && t >= 2 && isInternal && d > 0
      requires i + 1 < |model.kids| && OnPath(model, i, s, k)
      requires |model.kids[i].keys| == t - 1 && |model.kids[i + 1].keys| >= t
      modifies repr
      ensures Valid() && repr <= old(repr) && isInternal
      ensures Shaped(model, d, t, lo) && Flat(model) == old(Flat(model))
      ensures i < |model.kids| && OnPath(model, i, s, k) && |model.kids[i].keys| >= t
    {
      hide Flatten, Apart, BNode.Linked, Flat, Shaped, Sorted;
      KidsFacts();
      KidShaped(model, d, t, lo, i);
      KidShaped(model, d, t, lo, i + 1);
      RotateLeftPath(model, i, s, k);
      RotateLeftFlat(model, i);
      RotateLeftShaped(model, d, t, lo, i);
      RotateLeftAt(i);
    }

    method MergeSiblings(i: nat, ghost k: int, ghost s: nat, t: nat, ghost d: nat, ghost lo: nat)
      requires Valid() && Shaped(model, d, t, lo) && t >= 2 && lo < |keys| && isInternal && d > 0
      requires i + 1 < |model.kids| && (OnPath(model, i, s, k) || OnPath(model, i + 1, s, k))
      requires (s == 1 ==> i + 1 == |keys|) && (s == 2 ==> i == 0)
      requires |model.kids[i].keys| == t - 1 && |model.kids[i + 1].keys| == t - 1
      modifies repr
      ensures Valid() && repr <= old(repr) && isInternal
      ensures Shaped(model, d, t, lo) && Flat(model) == old(Flat(model))
      ensures i < |model.kids| && OnPath(model, i, s, k) && |model.kids[i].keys| >= t
    {
      hide Flatten, Apart, BNode.Linked, Flat, Shaped, Sorted;
      KidsFacts();
      KidShaped(model, d, t, lo, i);
      KidShaped(model, d, t, lo, i + 1);
      MergePath(model, i, s, k);
      MergeFlat(model, i);
      MergeShaped(model, d, t, lo, i);
      WeakerShaped(Merge(model, i), d, t, |keys| - 1, lo);
      MergeAt(i, keys[i]);
    }

    /** The recursive call on kid i. */
    method DescendDel(i: nat, k: int, s: nat, t: nat, ghost d: nat, ghost lo: nat) returns (ret: int)
      requires Valid() && Shaped(model, d, t, lo) && t >= 2 && s <= 2 && isInternal && d > 0
      requires Sorted(Flat(model)) && i < |model.kids| && OnPath(model, i, s, k) && |model.kids[i].keys| >= t
      modifies repr
      ensures Valid() && repr <= old(repr) && isInternal
      ensures Shaped(model, d, t, lo)
      ensures Taken(s, old(Flat(model)), Flat(model), ret) && (s == 0 ==> ret == k)
      decreases d - 1, 2
    {
      hide Flatten, Apart, BNode.Linked, Flat, Shaped, Sorted, Taken;
      KidsFacts();
      ApartFrom(reprs, i);
      KidShaped(model, d, t, lo, i);
      Separated(model, i);
      ret := kids[i].DelAux(k, s, t, d - 1, t - 1);
      TakeThrough(model, i, kids[i].model, s, k, ret);
      WithKidShaped(model, d, t, lo, i, kids[i].model);
      KidChanged(i, reprs, model, {});
    }
  }

  /** The bytes of a node with n keys of the given size: a header, the keys, and one pointer more. */
  function NodeBytes(n: nat, keySize: nat): nat {
    HEADER + ADDRESS + n * (ADDRESS + keySize)
  }

  const HEADER := 4
  const ADDRESS := 8

  /** The degree that `kb_init` chooses for blocks of the given size. */
  function Degree(size: nat, keySize: nat): nat
    requires size >= HEADER + ADDRESS
  {
    ((size - HEADER - ADDRESS) / (ADDRESS + keySize) + 1) / 2
  }

  /** A full node, of one key fewer than twice the degree, fits a block exactly for the degrees up to
      that one. */
  lemma FullNodeFits(size: nat, keySize: nat, t: nat)
    requires size >= HEADER + ADDRESS && t >= 1
    ensures NodeBytes(2 * t - 1, keySize) <= size <==> t <= Degree(size, keySize)
  {
    var q, r := RoomForKeys(size, keySize);
    Multiples(2 * t - 1, q, ADDRESS + keySize, r);
  }

  lemma RoomForKeys(size: nat, keySize: nat) returns (q: nat, r: nat)
    requires size >= HEADER + ADDRESS
    ensures r < ADDRESS + keySize && size == HEADER + ADDRESS + q * (ADDRESS + keySize) + r
    ensures Degree(size, keySize) == (q + 1) / 2
  {
    var d, room := ADDRESS + keySize, size - HEADER - ADDRESS;
    var q', r' := QuotRem(room, d);
    Quotient(room, d, q', r');
    q, r := q', r';
  }

  lemma Multiples(n: nat, q: nat, d: nat, r: nat)
    requires r < d
    ensures n * d <= q * d + r <==> n <= q
  {
    if n <= q {
      Times(n, q, d);
    } else {
      Times(q + 1, n, d);
      Distribute(d, q, 1);
    }
  }

  lemma Quotient(a: nat, d: nat, q: int, r: nat)
    requires d > 0 && a == d * q + r && r < d
    ensures a / d == q >= 0
  {
    DivUnique(a, d, q, r);
    QuotientNonnegative(a, d);
  }

  lemma Times(a: nat, b: nat, d: nat)
    requires a <= b
    ensures a * d <= b * d
  {
  }

  /** `kb_init`: no tree when not even three keys fit a node. */
  method Init(size: nat, keySize: nat) returns (b: KbTree?)
    requires size >= HEADER + ADDRESS
    ensures b == null <==> NodeBytes(3, keySize) > size
    ensures b != null ==> fresh(b) && b.Valid() && fresh(b.root) && fresh(b.root.repr) && b.Keys() == []
    ensures b != null ==> NodeBytes(2 * b.t - 1, keySize) <= size < NodeBytes(2 * b.t + 1, keySize)
  {
    hide NodeBytes;
    var t := Degree(size, keySize);
    hide Degree;
    FullNodeFits(size, keySize, 2);
    if t >= 1 { FullNodeFits(size, keySize, t); }
    FullNodeFits(size, keySize, t + 1);
    if t < 2 { return null; }
    b := new KbTree(t);
  }

  class KbTree {
    const t: nat
    var root: BNode
    var nKeys: int
    ghost var d: nat

    ghost function Keys(): seq<int>
      reads this, root
    {
      Flat(root.model)
    }

    ghost predicate Valid()
      reads this, root, root.repr
    {
      && t >= 2 && root.Valid()
      && Shaped(root.model, d, t, if d == 0 then 0 else 1)
      && Sorted(Keys()) && nKeys == |Keys()|
    }

    /** `kb_init`: an empty leaf. */
    constructor (t: nat)
      requires t >= 2
      ensures Valid() && fresh(root) && fresh(root.repr) && Keys() == [] && this.t == t
    {
      this.t := t;
      root := new BNode(false);
      nKeys, d := 0, 0;
      new;
      LeafFlat([]);
    }

    /** `kb_putp` */
    method Put(k: int)
      requires Valid()
      modifies this, root.repr
      ensures Valid() && fresh(root.repr - old(root.repr))
      ensures Inserted(old(Keys()), Keys(), k)
      ensures multiset(Keys()) == old(multiset(Keys())) + multiset{k}
    {
      nKeys := nKeys + 1;
      if |root.keys| == 2 * t - 1 { GrowRoot(); }
      InsertRoot(k);
    }

    /** A full root is put under a new root and split. */
    method GrowRoot()
      requires t >= 2 && root.Valid() && Shaped(root.model, d, t, if d == 0 then 0 else 1)
      requires |root.keys| == 2 * t - 1
      modifies this`root, this`d, root.repr
      ensures root.Valid() && Shaped(root.model, d, t, if d == 0 then 0 else 1)
      ensures fresh(root.repr - old(root.repr)) && |root.keys| < 2 * t - 1
      ensures Flat(root.model) == old(Flat(root.model))
    {
      hide Shaped, Flat, Flatten, LeftPart, RightPart;
      var r := root;
      ghost var was := r.model;
      GrownShape(was, d, t);
      var s := new BNode(true);
      s.kids := [r];
      s.Seal([r.repr], Node([], [was]));
      OneFlatten(r.repr);
      s.SplitKid(0, t);
      root := s;
      d := d + 1;
    }

    method InsertRoot(k: int)
      requires t >= 2 && root.Valid() && Shaped(root.model, d, t, if d == 0 then 0 else 1)
      requires |root.keys| < 2 * t - 1 && Sorted(Keys()) && nKeys == |Keys()| + 1
      modifies root.repr
      ensures Valid() && fresh(root.repr - old(root.repr))
      ensures Inserted(old(Keys()), Keys(), k)
      ensures multiset(Keys()) == old(multiset(Keys())) + multiset{k}
    {
      hide Shaped, Flat, Sorted, Inserted;
      root.PutAux(k, t, d, if d == 0 then 0 else 1);
      InsertedCount(old(Keys()), Keys(), k);
    }

    /** `kb_delp` of a key that is present. */
    method Del(k: int) returns (ret: int)
      requires Valid() && k in Keys()
      modifies this, root.repr
      ensures Valid() && root.repr <= old(root.repr)
      ensures ret == k && Inserted(Keys(), old(Keys()), k)
      ensures multiset(old(Keys())) == multiset(Keys()) + multiset{k}
    {
      if d == 0 { LeafFlat(root.keys); assert root.model == Node(root.keys, []); }
      hide Flat, Sorted, Inserted;
      ret := root.DelAux(k, 0, t, d, 0);
      nKeys := nKeys - 1;
      InsertedCount(Keys(), old(Keys()), k);
      RemovedSorted(Keys(), old(Keys()), k);
      if |root.keys| == 0 && root.isInternal {
        root.KidsFacts();
        OnlyKid(root.model);
        KidShaped(root.model, d, t, 0, 0);
        root := root.kids[0];
        d := d - 1;
      }
    }

    /** `kb_getp`: the place of the key in a node of the tree, or null. */
    method Get(k: int) returns (at: BNode?, i: nat)
      requires Valid()
      ensures at == null <==> k !in Keys()
      ensures at != null ==> at in root.repr && i < |at.keys| && at.keys[i] == k
    {
      hide Shaped, Flat, Sorted, Before, After, BNode.Linked;
      var x := root;
      ghost var h := d;
      WeakerShaped(root.model, d, t, if d == 0 then 0 else 1, 0);
      while true
        invariant x.Valid() && Shaped(x.model, h, t, 0) && Sorted(Flat(x.model))
        invariant x in root.repr && x.repr <= root.repr
        invariant k in Keys() <==> k in Flat(x.model)
        decreases h
      {
        KeysSorted(x.model);
        var n, r := GetAux(x.keys, k);
        if n >= 0 && r == 0 {
          KeyInFlat(x.model, n);
          return x, n;
        }
        if !x.isInternal {
          LeafFlat(x.keys);
          assert x.model == Node(x.keys, []);
          return null, 0;
        }
        InOrOut(x.model, n + 1, k);
        Separated(x.model, n + 1);
        KidShaped(x.model, h, t, 0, n + 1);
        WeakerShaped(x.model.kids[n + 1], h - 1, t, t - 1, 0);
        x.KidsWithin(n + 1);
        x := x.kids[n + 1];
        h := h - 1;
      }
    }

    /** `kb_intervalp` */
    method Interval(k: int) returns (lower: Option<int>, upper: Option<int>)
      requires Valid()
      ensures Floor(Keys(), k, lower) && Ceiling(Keys(), k, upper)
    {
      hide Shaped, Flat, Sorted, Before, After, Floor, Ceiling, Under, Over, First, Last;
      var x := root;
      ghost var all := Keys();
      ghost var h, l: seq<int>, r': seq<int> := d, [], [];
      WeakerShaped(root.model, d, t, if d == 0 then 0 else 1, 0);
      lower, upper := None, None;
      NoNeighbours(k);
      while true
        invariant x.Valid() && Shaped(x.model, h, t, 0) && Sorted(Flat(x.model))
        invariant all == l + Flat(x.model) + r'
        invariant Under(l, k) && Over(r', k) && lower == Last(l) && upper == First(r')
        decreases h
      {
        KeysSorted(x.model);
        var i, r := GetAux(x.keys, k);
        if i >= 0 && r == 0 {
          KeyInFlat(x.model, i);
          Exactly(all, k);
          return Some(k), Some(k);
        }
        if i >= 0 { lower := Some(x.keys[i]); }
        if i < |x.keys| - 1 { upper := Some(x.keys[i + 1]); }
        if !x.isInternal {
          assert x.model == Node(x.keys, []);
          CutLeaf(all, l, x.keys, r', i + 1, k);
          return;
        }
        CutDown(all, l, x.model, r', i + 1, k);
        Separated(x.model, i + 1);
        KidShaped(x.model, h, t, 0, i + 1);
        WeakerShaped(x.model.kids[i + 1], h - 1, t, t - 1, 0);
        x.KidsWithin(i + 1);
        l, r' := l + Before(x.model, i + 1), After(x.model, i + 1) + r';
        x := x.kids[i + 1];
        h := h - 1;
      }
    }
  }
}
