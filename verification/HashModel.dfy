/** What it means for the arrays of an open-addressing table to store a map, and how the single
    bucket updates of khash change the map they store. */
module HashModel {
  import opened Bits
  import opened HashFlags
  import opened Probe

  /** What the arrays of a table stand for: its unpacked flags, the home of every key, the stored
      map, and the bucket of every stored key. */
  datatype Image<!K, V> = Image(fl: seq<Flag>, home: K -> Home, m: map<K, V>, at: map<K, nat>)

  /** None of the first t buckets on the probe path is empty. */
  ghost predicate NoGap(fl: seq<Flag>, h: Home, t: nat)
    requires Fits(h, |fl|)
  {
    forall s :: 0 <= s < t ==> !fl[Walk(h, |fl|, s)].empty
  }

  /** Bucket x is reached from home h before any empty bucket. */
  ghost predicate Reaches(fl: seq<Flag>, h: Home, x: nat)
    requires Fits(h, |fl|)
  {
    exists t :: 0 <= t < |fl| && Walk(h, |fl|, t) == x && NoGap(fl, h, t)
  }

  /** The probe path meets its first empty bucket after t steps. */
  ghost predicate FirstGap(fl: seq<Flag>, h: Home, t: nat)
    requires Fits(h, |fl|)
  {
    t < |fl| && NoGap(fl, h, t) && fl[Walk(h, |fl|, t)].empty
  }

  /** None of the first t buckets on the probe path is a tombstone. */
  ghost predicate NoTombstone(fl: seq<Flag>, h: Home, t: nat)
    requires Fits(h, |fl|)
  {
    forall s :: 0 <= s < t ==> fl[Walk(h, |fl|, s)] != DELETED
  }

  /** Step s leads to the last tombstone among the first t buckets on the probe path. */
  ghost predicate LastTombstone(fl: seq<Flag>, h: Home, t: nat, s: nat)
    requires Fits(h, |fl|)
  {
    s < t && fl[Walk(h, |fl|, s)] == DELETED && forall r :: s < r < t ==> fl[Walk(h, |fl|, r)] != DELETED
  }

  /** The bucket for a new key when the first gap comes after t steps: the last tombstone before it, or
      the gap when there is none. */
  ghost predicate Site(fl: seq<Flag>, h: Home, t: nat, x: nat)
    requires Fits(h, |fl|)
  {
    if NoTombstone(fl, h, t) then x == Walk(h, |fl|, t)
    else exists s :: LastTombstone(fl, h, t, s) && x == Walk(h, |fl|, s)
  }

  /** A new key takes bucket x: code 2 stands for a tombstone on its path, code 1 for the first gap. */
  ghost predicate Takes(fl: seq<Flag>, h: Home, x: nat, ret: nat)
    requires Fits(h, |fl|)
  {
    exists t :: FirstGap(fl, h, t) && Site(fl, h, t, x) && ret == if NoTombstone(fl, h, t) then 1 else 2
  }

  /** A tombstone that the probe path meets before any gap. */
  ghost predicate Buried(fl: seq<Flag>, h: Home, x: nat)
    requires Fits(h, |fl|)
  {
    x < |fl| && fl[x] == DELETED && Reaches(fl, h, x)
  }

  /** With a tombstone on its path a new key takes a tombstone. */
  lemma BuriedIsTaken(fl: seq<Flag>, h: Home, x: nat, y: nat, ret: nat)
    requires Fits(h, |fl|) && Buried(fl, h, x) && Takes(fl, h, y, ret)
    ensures ret == 2
  {
    var t :| FirstGap(fl, h, t) && Site(fl, h, t, y) && ret == if NoTombstone(fl, h, t) then 1 else 2;
    var s :| 0 <= s < |fl| && Walk(h, |fl|, s) == x && NoGap(fl, h, s);
    assert s < t;
  }

  /** Where every occupied bucket is live, a new key takes a gap. */
  lemma NoneToTake(fl: seq<Flag>, h: Home, x: nat, ret: nat)
    requires Fits(h, |fl|) && Occupied(fl) == Live(fl) && Takes(fl, h, x, ret)
    ensures ret == 1
  {
    hide FirstGap, Site;
    AllLive(fl);
  }

  /** The bucket of a new key is on its path, and is empty or a tombstone according to the code. */
  lemma SiteReached(fl: seq<Flag>, h: Home, t: nat, x: nat)
    requires Fits(h, |fl|) && FirstGap(fl, h, t) && Site(fl, h, t, x)
    ensures x < |fl| && Reaches(fl, h, x)
    ensures if NoTombstone(fl, h, t) then fl[x].empty else fl[x] == DELETED
    ensures Takes(fl, h, x, if NoTombstone(fl, h, t) then 1 else 2)
  {
    hide NoTombstone, Takes;
    TakesSite(fl, h, t, x);
    if NoTombstone(fl, h, t) {
      assert Walk(h, |fl|, t) == x && NoGap(fl, h, t);
    } else {
      var s :| LastTombstone(fl, h, t, s) && x == Walk(h, |fl|, s);
      assert NoGap(fl, h, s);
    }
  }

  lemma TakesSite(fl: seq<Flag>, h: Home, t: nat, x: nat)
    requires Fits(h, |fl|) && FirstGap(fl, h, t) && Site(fl, h, t, x)
    ensures Takes(fl, h, x, if NoTombstone(fl, h, t) then 1 else 2)
  {
  }

  /** Every bucket is as before or has become a tombstone. */
  predicate OnlyBuries(was: seq<Flag>, fl: seq<Flag>) {
    |fl| == |was| && forall y :: 0 <= y < |fl| ==> fl[y] == was[y] || fl[y] == DELETED
  }

  /** A tombstone on a path stays there when other buckets become tombstones. */
  lemma StaysBuried(was: seq<Flag>, fl: seq<Flag>, h: Home, x: nat)
    requires OnlyBuries(was, fl) && Fits(h, |was|) && Buried(was, h, x)
    ensures Fits(h, |fl|) && Buried(fl, h, x)
  {
    var s :| 0 <= s < |was| && Walk(h, |was|, s) == x && NoGap(was, h, s);
    assert NoGap(fl, h, s);
  }

  /** The bucket of a stored key is a tombstone on its path once the key is deleted. */
  lemma DeletedIsBuried<K, V>(s: Image<K, V>, keys: seq<K>, vals: seq<V>, x: nat)
    requires Stores(s.fl, keys, vals, s.home, s.m, s.at) && x < |s.fl| && s.fl[x] == LIVE
    ensures Fits(s.home(keys[x]), |s.fl|) && Buried(s.fl[x := DELETED], s.home(keys[x]), x)
  {
    assert Owner(s.fl, keys, s.at, x);
    assert Kept(s.fl, keys, vals, s.home, s.m, s.at, keys[x]);
    ReachesUpdate(s.fl, s.home(keys[x]), x, x, DELETED);
  }

  predicate Legal(f: Flag) {
    f == EMPTY || f == LIVE || f == DELETED
  }

  /** Bucket at[k] is live, holds k and its value, and is reached by probing for k. */
  ghost predicate Kept<K, V>(fl: seq<Flag>, keys: seq<K>, vals: seq<V>, home: K -> Home,
                             m: map<K, V>, at: map<K, nat>, k: K)
    requires k in m && k in at && |keys| == |fl| && |vals| == |fl|
  {
    && at[k] < |fl| && fl[at[k]] == LIVE && keys[at[k]] == k && vals[at[k]] == m[k]
    && Fits(home(k), |fl|) && Reaches(fl, home(k), at[k])
  }

  /** A live bucket is the bucket of the key it holds. */
  ghost predicate Owner<K>(fl: seq<Flag>, keys: seq<K>, at: map<K, nat>, i: nat)
    requires i < |fl| && |keys| == |fl|
  {
    Legal(fl[i]) && (fl[i] == LIVE ==> keys[i] in at && at[keys[i]] == i)
  }

  /** The arrays store the map m; `at` gives the one bucket of every key. */
  ghost predicate Stores<K, V>(fl: seq<Flag>, keys: seq<K>, vals: seq<V>, home: K -> Home,
                               m: map<K, V>, at: map<K, nat>)
  {
    && |keys| == |fl| && |vals| == |fl|
    && at.Keys == m.Keys
    && (forall k :: k in m ==> Kept(fl, keys, vals, home, m, at, k))
    && (forall i :: 0 <= i < |fl| ==> Owner(fl, keys, at, i))
  }

  /** The number of buckets that are not empty. */
  function Occupied(fl: seq<Flag>): nat {
    if fl == [] then 0
    else Occupied(fl[..|fl| - 1]) + (if fl[|fl| - 1].empty then 0 else 1)
  }

  /** The number of buckets that hold a key. */
  function Live(fl: seq<Flag>): nat {
    if fl == [] then 0
    else Live(fl[..|fl| - 1]) + (if fl[|fl| - 1] == LIVE then 1 else 0)
  }

  lemma {:induction false} CountUpdate(fl: seq<Flag>, x: nat, f: Flag)
    requires x < |fl|
    ensures Occupied(fl[x := f]) == Occupied(fl) - (if fl[x].empty then 0 else 1) + (if f.empty then 0 else 1)
    ensures Live(fl[x := f]) == Live(fl) - (if fl[x] == LIVE then 1 else 0) + (if f == LIVE then 1 else 0)
  {
    var n := |fl| - 1;
    if x == n {
      assert fl[x := f][..n] == fl[..n];
    } else {
      assert fl[x := f][..n] == fl[..n][x := f];
      CountUpdate(fl[..n], x, f);
    }
  }

  lemma {:induction false} CountBounds(fl: seq<Flag>)
    ensures Live(fl) <= Occupied(fl) <= |fl|
    ensures (forall i :: 0 <= i < |fl| ==> fl[i] != LIVE) ==> Live(fl) == 0
    ensures (forall i :: 0 <= i < |fl| ==> fl[i].empty) ==> Occupied(fl) == 0
    ensures (forall i :: 0 <= i < |fl| ==> fl[i].empty || fl[i] == LIVE) ==> Live(fl) == Occupied(fl)
    ensures Occupied(fl) < |fl| ==> exists i :: 0 <= i < |fl| && fl[i].empty
  {
    if fl != [] {
      var front := fl[..|fl| - 1];
      CountBounds(front);
      if Occupied(front) < |front| {
        var i :| 0 <= i < |front| && front[i].empty;
        assert fl[i].empty;
      }
    }
  }

  lemma {:induction false} AllLive(fl: seq<Flag>)
    requires Occupied(fl) == Live(fl)
    ensures forall i :: 0 <= i < |fl| ==> fl[i].empty || fl[i] == LIVE
  {
    if fl != [] {
      CountBounds(fl[..|fl| - 1]);
      AllLive(fl[..|fl| - 1]);
    }
  }

  /** While an empty bucket is left, a walk that has seen no gap has not been once around. */
  lemma GapAhead(fl: seq<Flag>, h: Home, t: nat)
    requires Fits(h, |fl|) && IsPow2(|fl|) && Occupied(fl) < |fl|
    requires NoGap(fl, h, t)
    ensures t < |fl|
  {
    CountBounds(fl);
    var e :| 0 <= e < |fl| && fl[e].empty;
    FullCycle(h, |fl|, e);
    var s :| 0 <= s < |fl| && Walk(h, |fl|, s) == e;
    assert fl[Walk(h, |fl|, s)].empty;
  }

  lemma MapSizes<K, V>(m: map<K, V>, k: K, v: V)
    ensures k in m ==> |m - {k}| == |m| - 1
    ensures k !in m ==> |m[k := v]| == |m| + 1
  {
    assert (m - {k}).Keys == m.Keys - {k};
    assert m[k := v].Keys == m.Keys + {k};
  }

  lemma NoGapUpdate(fl: seq<Flag>, h: Home, t: nat, x: nat, f: Flag)
    requires Fits(h, |fl|) && x < |fl| && !f.empty && NoGap(fl, h, t)
    ensures NoGap(fl[x := f], h, t)
  {
  }

  /** Filling or tombstoning a bucket opens no gap. */
  lemma ReachesUpdate(fl: seq<Flag>, h: Home, y: nat, x: nat, f: Flag)
    requires Fits(h, |fl|) && x < |fl| && !f.empty && Reaches(fl, h, y)
    ensures Reaches(fl[x := f], h, y)
  {
    var t :| 0 <= t < |fl| && Walk(h, |fl|, t) == y && NoGap(fl, h, t);
    NoGapUpdate(fl, h, t, x, f);
  }

  lemma StoresNothing<K, V>(fl: seq<Flag>, keys: seq<K>, vals: seq<V>, home: K -> Home)
    requires |keys| == |fl| && |vals| == |fl|
    requires forall i :: 0 <= i < |fl| ==> fl[i] == EMPTY
    ensures Stores(fl, keys, vals, home, map[], map[])
    ensures Occupied(fl) == 0 && Live(fl) == 0
  {
    CountBounds(fl);
  }

  /** The walk for a stored key meets no gap before it meets the key. */
  lemma StillAhead<K, V>(fl: seq<Flag>, keys: seq<K>, vals: seq<V>, home: K -> Home,
                         m: map<K, V>, at: map<K, nat>, k: K, t: nat)
    requires Stores(fl, keys, vals, home, m, at) && IsPow2(|fl|) && Fits(home(k), |fl|)
    requires forall s :: 0 <= s < t ==>
               var i := Walk(home(k), |fl|, s); fl[i].del || keys[i] != k
    ensures k in m ==> t < |fl| && !fl[Walk(home(k), |fl|, t)].empty
  {
    if k in m {
      assert Kept(fl, keys, vals, home, m, at, k);
      var s :| 0 <= s < |fl| && Walk(home(k), |fl|, s) == at[k] && NoGap(fl, home(k), s);
      assert s >= t;
    }
  }

  lemma StoresInsert<K, V>(fl: seq<Flag>, keys: seq<K>, vals: seq<V>, home: K -> Home,
                           m: map<K, V>, at: map<K, nat>, k: K, x: nat)
    requires Stores(fl, keys, vals, home, m, at) && Fits(home(k), |fl|)
    requires k !in m && x < |fl| && fl[x] != LIVE && Reaches(fl, home(k), x)
    ensures Stores(fl[x := LIVE], keys[x := k], vals, home, m[k := vals[x]], at[k := x])
  {
    var fl', keys', m', at' := fl[x := LIVE], keys[x := k], m[k := vals[x]], at[k := x];
    forall j | j in m'
      ensures Kept(fl', keys', vals, home, m', at', j)
    {
      if j != k { assert Kept(fl, keys, vals, home, m, at, j); }
      ReachesUpdate(fl, home(j), at'[j], x, LIVE);
    }
    forall i | 0 <= i < |fl|
      ensures Owner(fl', keys', at', i)
    {
      assert Owner(fl, keys, at, i);
    }
    assert at'.Keys == m'.Keys;
  }

  lemma StoresOverwrite<K, V>(fl: seq<Flag>, keys: seq<K>, vals: seq<V>, home: K -> Home,
                              m: map<K, V>, at: map<K, nat>, x: nat, v: V)
    requires Stores(fl, keys, vals, home, m, at)
    requires x < |fl| && fl[x] == LIVE
    ensures keys[x] in m
    ensures Stores(fl, keys, vals[x := v], home, m[keys[x] := v], at)
  {
    assert Owner(fl, keys, at, x);
    var m' := m[keys[x] := v];
    assert m'.Keys == m.Keys;
    forall j | j in m'
      ensures Kept(fl, keys, vals[x := v], home, m', at, j)
    {
      assert Kept(fl, keys, vals, home, m, at, j);
    }
  }

  lemma StoresDelete<K, V>(fl: seq<Flag>, keys: seq<K>, vals: seq<V>, home: K -> Home,
                           m: map<K, V>, at: map<K, nat>, x: nat)
    requires Stores(fl, keys, vals, home, m, at)
    requires x < |fl| && fl[x] == LIVE
    ensures keys[x] in m
    ensures Stores(fl[x := DELETED], keys, vals, home, m - {keys[x]}, at - {keys[x]})
  {
    assert Owner(fl, keys, at, x);
    var k := keys[x];
    var fl', m', at' := fl[x := DELETED], m - {k}, at - {k};
    assert at'.Keys == m'.Keys;
    forall j | j in m'
      ensures Kept(fl', keys, vals, home, m', at', j)
    {
      assert Kept(fl, keys, vals, home, m, at, j);
      ReachesUpdate(fl, home(j), at[j], x, DELETED);
    }
    forall i | 0 <= i < |fl|
      ensures Owner(fl', keys, at', i)
    {
      assert Owner(fl, keys, at, i);
    }
  }

  /** The arrays store s.m, and the two counters count the live and the non-empty buckets. */
  ghost predicate Counted<K, V>(s: Image<K, V>, keys: seq<K>, vals: seq<V>, size: int, nOccupied: int) {
    && Stores(s.fl, keys, vals, s.home, s.m, s.at)
    && size == |s.m| == Live(s.fl)
    && nOccupied == Occupied(s.fl)
  }

  lemma CountedNothing<K, V>(s: Image<K, V>, keys: seq<K>, vals: seq<V>)
    requires |keys| == |s.fl| && |vals| == |s.fl| && s.m == map[] && s.at == map[]
    requires forall i :: 0 <= i < |s.fl| ==> s.fl[i] == EMPTY
    ensures Counted(s, keys, vals, 0, 0)
  {
    StoresNothing(s.fl, keys, vals, s.home);
  }

  /** The image after the key of live bucket x is deleted. */
  ghost function Deleted<K, V>(s: Image<K, V>, x: nat, k: K): Image<K, V>
    requires x < |s.fl|
  {
    Image(s.fl[x := DELETED], s.home, s.m - {k}, s.at - {k})
  }

  lemma CountedDelete<K, V>(s: Image<K, V>, keys: seq<K>, vals: seq<V>, size: int, nOccupied: int, x: nat)
    requires Counted(s, keys, vals, size, nOccupied) && x < |s.fl| && s.fl[x] == LIVE
    ensures Counted(Deleted(s, x, keys[x]), keys, vals, size - 1, nOccupied)
    ensures size > 0
  {
    StoresDelete(s.fl, keys, vals, s.home, s.m, s.at, x);
    CountUpdate(s.fl, x, DELETED);
    MapSizes(s.m, keys[x], vals[x]);
  }

  /** The image after key k with value v is stored in bucket x. */
  ghost function Inserted<K, V>(s: Image<K, V>, x: nat, k: K, v: V): Image<K, V>
    requires x < |s.fl|
  {
    Image(s.fl[x := LIVE], s.home, s.m[k := v], s.at[k := x])
  }

  lemma CountedInsert<K, V>(s: Image<K, V>, keys: seq<K>, vals: seq<V>, size: int, nOccupied: int, k: K, x: nat)
    requires Counted(s, keys, vals, size, nOccupied) && Fits(s.home(k), |s.fl|)
    requires k !in s.m && x < |s.fl| && s.fl[x] != LIVE && Reaches(s.fl, s.home(k), x)
    ensures Counted(Inserted(s, x, k, vals[x]), keys[x := k], vals, size + 1,
                    if s.fl[x].empty then nOccupied + 1 else nOccupied)
  {
    StoresInsert(s.fl, keys, vals, s.home, s.m, s.at, k, x);
    CountUpdate(s.fl, x, LIVE);
    MapSizes(s.m, k, vals[x]);
  }

  lemma CountedOverwrite<K, V>(s: Image<K, V>, keys: seq<K>, vals: seq<V>, size: int, nOccupied: int, x: nat, v: V)
    requires Counted(s, keys, vals, size, nOccupied) && x < |s.fl| && s.fl[x] == LIVE
    ensures Counted(s.(m := s.m[keys[x] := v]), keys, vals[x := v], size, nOccupied)
  {
    StoresOverwrite(s.fl, keys, vals, s.home, s.m, s.at, x, v);
    assert s.m[keys[x] := v].Keys == s.m.Keys;
  }
}
