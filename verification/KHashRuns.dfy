/** Whole runs of a table: from the unallocated table on, any sequence of operations answers as the
    same sequence on a mathematical map. */
module KHashRuns {
  import opened Bits
  import opened HashFlags
  import opened Probe
  import opened HashModel
  import opened KHash

  datatype Option<T> = None | Some(value: T)

  datatype Op<K, V> = Put(key: K, val: V) | Get(key: K) | Del(key: K) | Clear | Resize(requested: u32)

  function Apply<K, V>(m: map<K, V>, op: Op<K, V>): map<K, V> {
    match op
    case Put(k, v) => m[k := v]
    case Get(_) => m
    case Del(k) => m - {k}
    case Clear => map[]
    case Resize(_) => m
  }

  /** What the caller learns: for a put, the value replaced; for the others, the value found. */
  function Answer<K, V>(m: map<K, V>, op: Op<K, V>): Option<V> {
    if op.Clear? || op.Resize? || op.key !in m then None else Some(m[op.key])
  }

  function MapRun<K, V>(m: map<K, V>, ops: seq<Op<K, V>>): map<K, V> {
    if ops == [] then m else Apply(MapRun(m, ops[..|ops| - 1]), ops[|ops| - 1])
  }

  /** The operation stores no new key and neither clears nor resizes the table. */
  predicate Quiet<K, V>(m: map<K, V>, op: Op<K, V>) {
    op.Get? || op.Del? || (op.Put? && op.key in m)
  }

  method Step<K(==, 0, !new), V(0)>(h: Table<K, V>, op: Op<K, V>) returns (a: Option<V>)
    requires h.Valid() && h.Extensible()
    modifies h.Repr()
    ensures h.Valid() && fresh(h.Repr() - old(h.Repr()))
    ensures h.Contents() == Apply(old(h.Contents()), op)
    ensures a == Answer(old(h.Contents()), op)
    ensures h.size <= old(h.size) + 1
    ensures Quiet(old(h.Contents()), op) && old(h.nOccupied) < old(h.upperBound) ==>
              h.nOccupied == old(h.nOccupied) && h.nBuckets == old(h.nBuckets) && h.upperBound == old(h.upperBound)
              && OnlyBuries(old(h.img.fl), h.img.fl)
  {
    hide IsPow2, Counted, Packs, Upper, ResizedTo, h.Homes, Takes, HomeOf;
    a := None;
    match op
    case Put(k, v) =>
      var x, ret := h.Put(k);
      if ret == 0 { a := Some(h.vals[x]); }
      h.SetValue(x, v);
    case Get(k) =>
      var x := h.Get(k);
      if x != h.nBuckets { a := Some(h.vals[x]); }
    case Del(k) =>
      var x := h.Get(k);
      if x != h.nBuckets { a := Some(h.vals[x]); }
      h.Delete(x);
    case Clear =>
      h.Clear();
    case Resize(n) =>
      h.Resize(n, ResizedTo(n));
  }

  /** A table with fewer than 2^30 keys can take one more, whatever size it was given. */
  lemma FewKeys<K(0, !new), V(0)>(h: Table<K, V>)
    requires h.Valid() && h.size < 0x4000_0000
    ensures h.Extensible()
  {
  }

  /** The answers given so far are those of a map on which the same operations ran. */
  ghost predicate Agrees<K, V>(ops: seq<Op<K, V>>, answers: seq<Option<V>>) {
    |answers| <= |ops| &&
    forall i :: 0 <= i < |answers| ==> answers[i] == Answer(MapRun(map[], ops[..i]), ops[i])
  }

  lemma AgreesNext<K, V>(ops: seq<Op<K, V>>, answers: seq<Option<V>>, a: Option<V>)
    requires Agrees(ops, answers) && |answers| < |ops|
    requires a == Answer(MapRun(map[], ops[..|answers|]), ops[|answers|])
    ensures Agrees(ops, answers + [a])
    ensures MapRun(map[], ops[..|answers| + 1]) == Apply(MapRun(map[], ops[..|answers|]), ops[|answers|])
  {
    hide Answer, Apply;
    var p := |answers|;
    assert ops[..p + 1][..p] == ops[..p];
  }

  method Run<K(==, 0, !new), V(0)>(hash: K -> u32, ops: seq<Op<K, V>>) returns (h: Table<K, V>, answers: seq<Option<V>>)
    requires |ops| <= 0x4000_0000
    ensures h.Valid() && h.Contents() == MapRun(map[], ops)
    ensures |answers| == |ops|
    ensures forall i :: 0 <= i < |ops| ==> answers[i] == Answer(MapRun(map[], ops[..i]), ops[i])
  {
    hide IsPow2, Counted, Packs, Upper, Answer, Apply, MapRun, h.Homes, h.Valid, h.Extensible;
    h := new Table(hash);
    answers := [];
    var p := 0;
    NothingRun<K, V>(ops);
    while p < |ops|
      invariant p <= |ops| && |answers| == p && Agrees(ops, answers)
      invariant h.Valid() && fresh(h.Repr()) && h.Contents() == MapRun(map[], ops[..p])
      invariant h.size <= p
    {
      FewKeys(h);
      var a := Step(h, ops[p]);
      AgreesNext(ops, answers, a);
      answers := answers + [a];
      p := p + 1;
    }
    assert ops[..p] == ops;
  }

  lemma NothingRun<K, V>(ops: seq<Op<K, V>>)
    ensures MapRun(map[], ops[..0]) == map[]
  {
  }

  // ---------- a deleted key comes back ----------

  predicate AllQuiet<K, V>(m: map<K, V>, ops: seq<Op<K, V>>) {
    forall i :: 0 <= i < |ops| ==> Quiet(MapRun(m, ops[..i]), ops[i])
  }

  lemma QuietNext<K, V>(m: map<K, V>, ops: seq<Op<K, V>>, i: nat)
    requires AllQuiet(m, ops) && i < |ops|
    ensures Quiet(MapRun(m, ops[..i]), ops[i])
    ensures MapRun(m, ops[..i + 1]) == Apply(MapRun(m, ops[..i]), ops[i])
    ensures MapRun(m, ops[..i + 1]).Keys <= MapRun(m, ops[..i]).Keys
  {
    assert ops[..i + 1][..i] == ops[..i];
  }

  /** The tombstone of a deleted key lies on its path. */
  method Bury<K(==, 0, !new), V(0)>(h: Table<K, V>, key: K) returns (x: nat)
    requires h.Valid() && key in h.Contents()
    modifies h.Repr()
    ensures h.Valid() && fresh(h.Repr() - old(h.Repr())) && h.Contents() == old(h.Contents()) - {key}
    ensures h.nOccupied == old(h.nOccupied) && h.nBuckets == old(h.nBuckets) && h.upperBound == old(h.upperBound)
    ensures |h.img.fl| == h.nBuckets
    ensures Fits(HomeOf(h.hash(key), h.nBuckets), h.nBuckets) && Buried(h.img.fl, HomeOf(h.hash(key), h.nBuckets), x)
  {
    hide IsPow2, Packs, Upper, Stores, Live, Occupied, HomeOf, Buried;
    x := h.Get(key);
    assert h.img.home(key) == HomeOf(h.hash(key), h.nBuckets);
    DeletedIsBuried(h.img, h.keys[..], h.vals[..], x);
    h.Delete(x);
  }

  /** A tombstone on the path of an absent key stays there, and no further bucket becomes occupied,
      through lookups, deletions and replacements of values. */
  method Meanwhile<K(==, 0, !new), V(0)>(h: Table<K, V>, ghost key: K, ghost home: Home, ghost x: nat, ops: seq<Op<K, V>>)
    requires h.Valid() && key !in h.Contents() && h.nOccupied < h.upperBound && AllQuiet(h.Contents(), ops)
    requires Fits(home, |h.img.fl|) && Buried(h.img.fl, home, x)
    modifies h.Repr()
    ensures h.Valid() && fresh(h.Repr() - old(h.Repr()))
    ensures h.Contents() == MapRun(old(h.Contents()), ops) && key !in h.Contents()
    ensures h.nOccupied == old(h.nOccupied) && h.nBuckets == old(h.nBuckets) && h.upperBound == old(h.upperBound)
    ensures |h.img.fl| == old(|h.img.fl|) && Buried(h.img.fl, home, x)
  {
    hide IsPow2, Counted, Packs, Upper, Apply, Answer, Quiet, MapRun, AllQuiet, Buried, OnlyBuries, h.Homes, h.Valid;
    ghost var m := h.Contents();
    NothingDone(m, ops);
    var i := 0;
    while i < |ops|
      invariant i <= |ops| && h.Valid() && fresh(h.Repr() - old(h.Repr()))
      invariant h.Contents() == MapRun(m, ops[..i]) && key !in h.Contents()
      invariant h.nOccupied == old(h.nOccupied) && h.nBuckets == old(h.nBuckets) && h.upperBound == old(h.upperBound)
      invariant |h.img.fl| == old(|h.img.fl|) && Buried(h.img.fl, home, x)
    {
      ghost var was := h.img.fl;
      QuietNext(m, ops, i);
      var a := Step(h, ops[i]);
      SameLength(was, h.img.fl);
      StaysBuried(was, h.img.fl, home, x);
      i := i + 1;
    }
    assert ops[..i] == ops;
  }

  lemma SameLength(was: seq<Flag>, fl: seq<Flag>)
    requires OnlyBuries(was, fl)
    ensures |fl| == |was|
  {
  }

  /** A key with a tombstone on its path is put. */
  method PutBack<K(==, 0, !new), V(0)>(h: Table<K, V>, key: K, v: V, ghost x: nat) returns (ret: nat)
    requires h.Valid() && key !in h.Contents() && h.nOccupied < h.upperBound
    requires Fits(HomeOf(h.hash(key), |h.img.fl|), |h.img.fl|) && Buried(h.img.fl, HomeOf(h.hash(key), |h.img.fl|), x)
    modifies h.Repr()
    ensures h.Valid() && fresh(h.Repr() - old(h.Repr()))
    ensures ret == 2 && h.nOccupied == old(h.nOccupied)
    ensures h.nBuckets == old(h.nBuckets) && h.upperBound == old(h.upperBound)
    ensures h.Contents() == old(h.Contents())[key := v]
  {
    hide IsPow2, Counted, Packs, Upper, HomeOf, Buried, Takes, h.Homes;
    ghost var was := h.img.fl;
    var y: nat;
    y, ret := h.Put(key);
    BuriedIsTaken(was, HomeOf(h.hash(key), |was|), x, y, ret);
    h.SetValue(y, v);
  }

  /** A stored key that is deleted and put again takes a tombstone, and no further bucket becomes
      occupied, whatever lookups, deletions and replacements of values come between. */
  method PutAgain<K(==, 0, !new), V(0)>(h: Table<K, V>, key: K, v: V, between: seq<Op<K, V>>) returns (ret: nat)
    requires h.Valid() && key in h.Contents() && h.nOccupied < h.upperBound
    requires AllQuiet(h.Contents() - {key}, between)
    modifies h.Repr()
    ensures h.Valid() && fresh(h.Repr() - old(h.Repr()))
    ensures ret == 2 && h.nOccupied == old(h.nOccupied)
    ensures h.nBuckets == old(h.nBuckets) && h.upperBound == old(h.upperBound)
    ensures h.Contents() == MapRun(old(h.Contents()) - {key}, between)[key := v]
  {
    hide IsPow2, Counted, Packs, Upper, MapRun, AllQuiet, HomeOf, Buried, Takes, h.Homes, h.Valid;
    var x := Bury(h, key);
    ghost var home := HomeOf(h.hash(key), h.nBuckets);
    Meanwhile(h, key, home, x, between);
    ret := PutBack(h, key, v, x);
  }

  lemma NothingDone<K, V>(m: map<K, V>, ops: seq<Op<K, V>>)
    ensures MapRun(m, ops[..0]) == m
  {
  }

  /** Deleting a key and putting it again, any number of times, uses up no bucket and rehashes nothing. */
  method Churn<K(==, 0, !new), V(0)>(h: Table<K, V>, key: K, vs: seq<V>) returns (rets: seq<nat>)
    requires h.Valid() && key in h.Contents() && h.nOccupied < h.upperBound
    modifies h.Repr()
    ensures h.Valid() && fresh(h.Repr() - old(h.Repr()))
    ensures |rets| == |vs| && forall i :: 0 <= i < |rets| ==> rets[i] == 2
    ensures h.nOccupied == old(h.nOccupied) && h.nBuckets == old(h.nBuckets)
    ensures h.Contents() == if vs == [] then old(h.Contents()) else old(h.Contents())[key := vs[|vs| - 1]]
  {
    hide h.Valid;
    rets := [];
    while |rets| < |vs|
      invariant h.Valid() && fresh(h.Repr() - old(h.Repr())) && |rets| <= |vs|
      invariant forall i :: 0 <= i < |rets| ==> rets[i] == 2
      invariant h.nOccupied == old(h.nOccupied) && h.nBuckets == old(h.nBuckets) && h.upperBound == old(h.upperBound)
      invariant key in h.Contents()
      invariant h.Contents() == if rets == [] then old(h.Contents()) else old(h.Contents())[key := vs[|rets| - 1]]
      decreases |vs| - |rets|
    {
      var ret := PutAgain(h, key, vs[|rets|], []);
      rets := rets + [ret];
    }
  }
}
