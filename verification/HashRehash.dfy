/** The invariant of the in-place rehash. While it runs, the same key and value arrays serve two
    tables: entries not yet moved are live under the old flags, entries already moved are occupied
    under the new ones, and at most one entry is in neither, held in local variables. */
module HashRehash {
  import opened HashFlags
  import opened Probe
  import opened HashModel

  predicate Taken(fl: seq<Flag>, i: nat) {
    i < |fl| && !fl[i].empty
  }

  predicate Unmoved(fl: seq<Flag>, i: nat) {
    i < |fl| && fl[i] == LIVE
  }

  /** The entry of k sits in bucket at[k], as a moved entry reachable in the new table or as one
      that is still to be moved. */
  ghost predicate Placed<K, V>(old': seq<Flag>, new': seq<Flag>, keys: seq<K>, vals: seq<V>,
                               home: K -> Home, m: map<K, V>, at: map<K, nat>, k: K)
    requires k in m && k in at && |keys| == |vals| && Fits(home(k), |new'|)
  {
    && at[k] < |keys| && keys[at[k]] == k && vals[at[k]] == m[k]
    && if Taken(new', at[k]) then Reaches(new', home(k), at[k]) else Unmoved(old', at[k])
  }

  /** A bucket in use holds a key whose bucket it is, and belongs to only one of the tables. */
  ghost predicate Owned<K>(old': seq<Flag>, new': seq<Flag>, keys: seq<K>, at: map<K, nat>, i: nat)
    requires i < |keys|
  {
    && (Unmoved(old', i) || Taken(new', i) ==> keys[i] in at && at[keys[i]] == i)
    && !(Unmoved(old', i) && Taken(new', i))
  }

  /** `hand` is the set of keys held outside the arrays: empty, or the one being moved. */
  ghost predicate Moving<K, V>(old': seq<Flag>, new': seq<Flag>, keys: seq<K>, vals: seq<V>,
                               home: K -> Home, m: map<K, V>, at: map<K, nat>, hand: set<K>)
  {
    && |keys| == |vals| && |old'| <= |keys| && |new'| <= |keys|
    && hand <= m.Keys && at.Keys == m.Keys - hand
    && (forall i :: 0 <= i < |new'| ==> new'[i] == EMPTY || new'[i] == LIVE)
    && (forall k :: k in m ==> Fits(home(k), |new'|))
    && (forall k :: k in at ==> Placed(old', new', keys, vals, home, m, at, k))
    && (forall i :: 0 <= i < |keys| ==> Owned(old', new', keys, at, i))
    && Occupied(new') + Live(old') + |hand| == |m|
  }

  lemma StartMoving<K, V>(old': seq<Flag>, new': seq<Flag>, keys: seq<K>, vals: seq<V>,
                          keys': seq<K>, vals': seq<V>, before: K -> Home, after: K -> Home,
                          m: map<K, V>, at: map<K, nat>)
    requires Stores(old', keys, vals, before, m, at) && Live(old') == |m|
    requires |keys'| == |vals'| && |old'| <= |keys'| && |new'| <= |keys'|
    requires keys'[..|old'|] == keys && vals'[..|old'|] == vals
    requires forall i :: 0 <= i < |new'| ==> new'[i] == EMPTY
    requires forall k :: k in m ==> Fits(after(k), |new'|)
    ensures Moving(old', new', keys', vals', after, m, at, {})
  {
    CountBounds(new');
    forall i | 0 <= i < |keys'|
      ensures Owned(old', new', keys', at, i)
    {
      if i < |old'| {
        assert keys'[i] == keys'[..|old'|][i];
        assert Owner(old', keys, at, i);
      }
    }
    forall k | k in at
      ensures Placed(old', new', keys', vals', after, m, at, k)
    {
      assert Kept(old', keys, vals, before, m, at, k);
      assert keys'[at[k]] == keys'[..|old'|][at[k]] && vals'[at[k]] == vals'[..|old'|][at[k]];
    }
  }

  lemma TombstoneUnmoved(fl: seq<Flag>, j: nat)
    requires j < |fl|
    ensures forall i: nat | Unmoved(fl[j := DELETED], i) :: Unmoved(fl, i) && i != j
  {
    forall i: nat | Unmoved(fl[j := DELETED], i) ensures Unmoved(fl, i) && i != j {
    }
  }

  /** The outer loop picks up the entry of old bucket j. */
  lemma PickUp<K, V>(old': seq<Flag>, new': seq<Flag>, keys: seq<K>, vals: seq<V>,
                     home: K -> Home, m: map<K, V>, at: map<K, nat>, j: nat)
    requires Moving(old', new', keys, vals, home, m, at, {}) && Unmoved(old', j)
    ensures keys[j] in m && vals[j] == m[keys[j]]
    ensures Moving(old'[j := DELETED], new', keys, vals, home, m, at - {keys[j]}, {keys[j]})
  {
    CountUpdate(old', j, DELETED);
    var c, old2 := keys[j], old'[j := DELETED];
    var at2 := at - {c};
    assert Owned(old', new', keys, at, j);
    assert Placed(old', new', keys, vals, home, m, at, c);
    forall k | k in at2
      ensures Placed(old2, new', keys, vals, home, m, at2, k)
    {
      assert Placed(old', new', keys, vals, home, m, at, k);
    }
    forall x | 0 <= x < |keys|
      ensures Owned(old2, new', keys, at2, x)
    {
      assert Owned(old', new', keys, at, x);
    }
  }

  /** The held entry goes to bucket i and the unmoved entry found there is held instead. */
  lemma KickOut<K, V>(old': seq<Flag>, new': seq<Flag>, keys: seq<K>, vals: seq<V>,
                      home: K -> Home, m: map<K, V>, at: map<K, nat>, k: K, i: nat)
    requires Moving(old', new', keys, vals, home, m, at, {k})
    requires i < |new'| && new'[i].empty && Reaches(new', home(k), i) && Unmoved(old', i)
    ensures keys[i] in m && vals[i] == m[keys[i]] && keys[i] != k
    ensures Live(old'[i := DELETED]) == Live(old') - 1
    ensures Moving(old'[i := DELETED], new'[i := LIVE], keys[i := k], vals[i := m[k]], home, m,
                   (at - {keys[i]})[k := i], {keys[i]})
  {
    assert Owned(old', new', keys, at, i);
    var c := keys[i];
    assert Placed(old', new', keys, vals, home, m, at, c);
    var old2, at2 := old'[i := DELETED], at - {c};
    CountUpdate(old', i, DELETED);
    forall j | j in at2
      ensures Placed(old2, new', keys, vals, home, m, at2, j)
    {
      assert Placed(old', new', keys, vals, home, m, at, j);
      assert Owned(old', new', keys, at, at[j]);
    }
    forall x | 0 <= x < |keys|
      ensures Owned(old2, new', keys, at2, x)
    {
      assert Owned(old', new', keys, at, x);
    }
    FillBucket(old2, new', keys, vals, home, m, at2, {c}, k, i);
  }

  /** Storing the entry of k in a bucket that neither table uses. */
  lemma FillBucket<K, V>(old': seq<Flag>, new': seq<Flag>, keys: seq<K>, vals: seq<V>,
                         home: K -> Home, m: map<K, V>, at: map<K, nat>, hand: set<K>, k: K, i: nat)
    requires k !in hand && Moving(old', new', keys, vals, home, m, at, hand + {k})
    requires i < |new'| && new'[i].empty && Reaches(new', home(k), i) && !Unmoved(old', i)
    ensures Moving(old', new'[i := LIVE], keys[i := k], vals[i := m[k]], home, m, at[k := i], hand)
  {
    var new2, keys2, vals2, at2 := new'[i := LIVE], keys[i := k], vals[i := m[k]], at[k := i];
    CountUpdate(new', i, LIVE);
    forall j | j in at2
      ensures Placed(old', new2, keys2, vals2, home, m, at2, j)
    {
      if j == k {
        ReachesUpdate(new', home(k), i, i, LIVE);
      } else {
        assert Placed(old', new', keys, vals, home, m, at, j);
        if Taken(new', at[j]) { ReachesUpdate(new', home(j), at[j], i, LIVE); }
      }
    }
    forall x | 0 <= x < |keys|
      ensures Owned(old', new2, keys2, at2, x)
    {
      assert Owned(old', new', keys, at, x);
    }
    assert at2.Keys == m.Keys - hand;
    assert |hand + {k}| == |hand| + 1;
  }

  /** The held entry goes to bucket i, which no unmoved entry uses. */
  lemma Settle<K, V>(old': seq<Flag>, new': seq<Flag>, keys: seq<K>, vals: seq<V>,
                     home: K -> Home, m: map<K, V>, at: map<K, nat>, k: K, i: nat)
    requires Moving(old', new', keys, vals, home, m, at, {k})
    requires i < |new'| && new'[i].empty && Reaches(new', home(k), i) && !Unmoved(old', i)
    ensures Moving(old', new'[i := LIVE], keys[i := k], vals[i := m[k]], home, m, at[k := i], {})
  {
    assert {} + {k} == {k};
    FillBucket(old', new', keys, vals, home, m, at, {}, k, i);
  }

  /** With every old entry moved, the first buckets of the arrays store the map under the new flags. */
  lemma DoneMoving<K, V>(old': seq<Flag>, new': seq<Flag>, keys: seq<K>, vals: seq<V>,
                         home: K -> Home, m: map<K, V>, at: map<K, nat>)
    requires Moving(old', new', keys, vals, home, m, at, {})
    requires forall i: nat :: !Unmoved(old', i)
    ensures Stores(new', keys[..|new'|], vals[..|new'|], home, m, at)
    ensures Occupied(new') == Live(new') == |m|
  {
    CountBounds(new');
    assert Live(old') == 0 by {
      CountBounds(old');
      forall i | 0 <= i < |old'| ensures old'[i] != LIVE {
        assert !Unmoved(old', i);
      }
    }
    forall i | 0 <= i < |new'|
      ensures Owner(new', keys[..|new'|], at, i)
    {
      assert Owned(old', new', keys, at, i);
    }
    forall k | k in m
      ensures Kept(new', keys[..|new'|], vals[..|new'|], home, m, at, k)
    {
      assert Placed(old', new', keys, vals, home, m, at, k);
    }
  }
}
