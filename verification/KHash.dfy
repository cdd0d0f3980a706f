/** khash: an open-addressing hash table that probes by double hashing, marks deletions with
    tombstones and rehashes in place. */
module KHash {
  import opened Bits
  import opened HashFlags
  import opened Probe
  import opened HashModel
  import opened HashRehash

  const MAX_BUCKETS: nat := 0x8000_0000

  /** `(khint_t)(n * __ac_HASH_UPPER + 0.5)` with the load factor 0.77 taken exactly. */
  function Upper(n: nat): nat {
    (77 * n + 50) / 100
  }

  /** The number of buckets `kh_resize` settles for. */
  function ResizedTo(requested: u32): (n: nat)
    ensures IsPow2(n) && 4 <= n <= MAX_BUCKETS
  {
    RoundUp32Total(requested);
    assert IsPow2(4);
    if RoundUp32(requested) < 4 then 4 else RoundUp32(requested)
  }

  /** The size of the table after `kh_put` found no room in n buckets. */
  function Wanted(n: nat, size: nat): nat {
    if n > 2 * size then n else if n == 0 then 4 else 2 * n
  }

  /** Either request of `kh_put` is met exactly, and leaves room. */
  lemma WantedFits(n: nat, size: nat)
    requires n == 0 || (IsPow2(n) && 4 <= n <= MAX_BUCKETS)
    requires n < MAX_BUCKETS || n > 2 * size
    requires size <= Upper(n)
    ensures size < Upper(Wanted(n, size))
    ensures ResizedTo(if n > 2 * size then n - 1 else n + 1) == Wanted(n, size)
  {
    if n == 0 {
      RoundUp32Least(1);
    } else {
      if n < MAX_BUCKETS { BelowTop(n); }
      RoundUp32Neighbours(n);
    }
  }

  /** `realloc` to n elements: the common prefix is kept. */
  method Realloc<T(0)>(a: array<T>, n: nat) returns (b: array<T>)
    ensures fresh(b) && b.Length == n
    ensures forall i :: 0 <= i < n && i < a.Length ==> b[i] == a[i]
  {
    b := new T[n];
    var i := 0;
    while i < n && i < a.Length
      invariant i <= n && i <= a.Length
      invariant forall j :: 0 <= j < i ==> b[j] == a[j]
    {
      b[i] := a[i];
      i := i + 1;
    }
  }

  /** Reallocate only if the array is too small. */
  method GrowTo<T(0)>(a: array<T>, n: nat) returns (b: array<T>)
    ensures b == a || fresh(b)
    ensures b.Length == if a.Length < n then n else a.Length
    ensures b[..a.Length] == a[..]
  {
    b := a;
    if a.Length < n { b := Realloc(a, n); }
  }

  /** Reallocate only if the array is too large. */
  method ShrinkTo<T(0)>(a: array<T>, n: nat) returns (b: array<T>)
    requires n <= a.Length
    ensures b == a || fresh(b)
    ensures b[..] == a[..n]
  {
    b := a;
    if a.Length > n { b := Realloc(a, n); }
  }

  /** `i = k & mask; inc = __ac_inc(k, mask)` */
  method FirstProbe(k: u32, n: nat) returns (i: nat, inc: nat)
    requires IsPow2(n) && n >= 4
    ensures HomeOf(k, n) == Home(i, inc) && Fits(Home(i, inc), n)
  {
    HomeFits(k, n);
    i, inc := StartOf(k, n), StrideOf(k, n);
  }

  /** `i = (i + inc) & mask` */
  method NextProbe(i: nat, inc: nat, n: nat, ghost h: Home, ghost t: nat) returns (i': nat)
    requires IsPow2(n) && Fits(h, n) && t < n && h.stride == inc && i == Walk(h, n, t)
    ensures i' == Walk(h, n, t + 1)
    ensures i' == h.start <==> t + 1 == n
  {
    MaskedStep(i, inc, n);
    BackAtStart(h, n, t + 1);
    i' := And(i + inc, n - 1);
  }

  /** The flags of n empty buckets. */
  method NewFlags(n: nat) returns (flags: array<bv32>, ghost fl: seq<Flag>)
    requires IsPow2(n)
    ensures fresh(flags) && Packs(flags[..], fl) && |fl| == n
    ensures forall i :: 0 <= i < n ==> fl[i] == EMPTY
  {
    if n >= 16 { MultipleOfSixteen(n); }
    flags := new bv32[WordsFor(n)];
    fl := FillEmpty(flags, n);
  }

  class Table<K(==, 0, !new), V(0)> {
    const hash: K -> u32
    var nBuckets: nat
    var size: nat
    var nOccupied: nat
    var upperBound: nat
    var flags: array<bv32>
    var keys: array<K>
    var vals: array<V>
    ghost var img: Image<K, V>

    /** The map the table stands for. */
    ghost function Contents(): map<K, V>
      reads this
    {
      img.m
    }

    ghost predicate IsLive(x: nat)
      reads this
    {
      x < |img.fl| && img.fl[x] == LIVE
    }

    ghost function Repr(): set<object>
      reads this
    {
      {this, flags, keys, vals}
    }

    ghost predicate Distinct()
      reads this
    {
      flags as object != keys && flags as object != vals && keys as object != vals
    }

    ghost predicate Homes(home: K -> Home, n: nat) {
      forall k {:trigger HomeOf(hash(k), n)} :: home(k) == HomeOf(hash(k), n)
    }

    /** The bucket counts are a legal khash configuration. */
    ghost predicate Sized()
      reads this
    {
      if nBuckets == 0 then upperBound == 0 && nOccupied == 0
      else IsPow2(nBuckets) && 4 <= nBuckets <= MAX_BUCKETS && nOccupied <= upperBound == Upper(nBuckets)
    }

    /** One more key can be stored: only a table of the greatest size, full of keys, cannot grow. */
    ghost predicate Extensible()
      reads this
    {
      nOccupied < upperBound || nBuckets < MAX_BUCKETS || nBuckets > 2 * size
    }

    ghost predicate Valid()
      reads this, flags, keys, vals
    {
      && Distinct() && Sized()
      && |img.fl| == nBuckets == keys.Length == vals.Length
      && Packs(flags[..], img.fl) && Homes(img.home, nBuckets)
      && Counted(img, keys[..], vals[..], size, nOccupied)
    }

    constructor (hash: K -> u32)
      ensures Valid() && fresh(Repr())
      ensures this.hash == hash && Contents() == map[] && nBuckets == 0 && size == 0
    {
      this.hash := hash;
      nBuckets, size, nOccupied, upperBound := 0, 0, 0, 0;
      flags := new bv32[0];
      keys := new K[0];
      vals := new V[0];
      img := Image([], k => HomeOf(hash(k), 0), map[], map[]);
    }

    /** `kh_clear`: every bucket is marked empty; the arrays stay allocated. */
    method Clear()
      requires Valid()
      modifies this, flags
      ensures Valid() && flags == old(flags) && keys == old(keys) && vals == old(vals)
      ensures Contents() == map[] && nBuckets == old(nBuckets) && size == 0
    {
      hide IsPow2, Log2, Pow2, Occupied, Live, Stores, HomeOf, Homes;
      ghost var fl := FillEmpty(flags, nBuckets);
      ghost var img' := Image(fl, img.home, map[], map[]);
      CountedNothing(img', keys[..], vals[..]);
      size, nOccupied := 0, 0;
      img := img';
    }

    /** `kh_get`: the bucket of the key, or the number of buckets when it is absent. */
    method Get(key: K) returns (x: nat)
      requires Valid()
      ensures x <= nBuckets
      ensures x < nBuckets <==> key in Contents()
      ensures x < nBuckets ==> IsLive(x) && keys[x] == key && vals[x] == Contents()[key]
    {
      if nBuckets == 0 {
        x := 0;
      } else {
        ghost var t;
        x, t := Search(flags, keys, key, hash(key), img.fl);
        SearchAnswer(img, keys[..], vals[..], key, x, t);
      }
    }

    /** `kh_del`: the bucket becomes a tombstone; nothing happens for a bucket without a live key. */
    method Delete(x: nat)
      requires Valid() && x <= nBuckets
      modifies this, flags
      ensures Valid() && flags == old(flags) && keys == old(keys) && vals == old(vals)
      ensures nBuckets == old(nBuckets) && size <= old(size)
      ensures nOccupied == old(nOccupied) && upperBound == old(upperBound) && img.home == old(img.home)
      ensures img.fl == if old(IsLive(x)) then old(img.fl)[x := DELETED] else old(img.fl)
      ensures Contents() == if old(IsLive(x)) then old(Contents()) - {keys[x]} else old(Contents())
    {
      if x != nBuckets {
        var either := IsEither(flags, x, img.fl);
        if !either { Entomb(x); }
      }
    }

    /** The two assignments of `kh_del`. */
    method Entomb(x: nat)
      requires Valid() && IsLive(x)
      modifies this, flags
      ensures Valid() && flags == old(flags) && keys == old(keys) && vals == old(vals)
      ensures nBuckets == old(nBuckets) && size == old(size) - 1
      ensures nOccupied == old(nOccupied) && upperBound == old(upperBound) && img.home == old(img.home)
      ensures img.fl == old(img.fl)[x := DELETED]
      ensures Contents() == old(Contents()) - {keys[x]}
    {
      hide IsPow2, Log2, Pow2, Occupied, Live, Stores, HomeOf, Homes, Packs;
      CountedDelete(img, keys[..], vals[..], size, nOccupied, x);
      SetDel(flags, x, img.fl);
      size := size - 1;
      img := Deleted(img, x, keys[x]);
    }

    /** `kh_value(h, x) = v` on a live bucket. */
    method SetValue(x: nat, v: V)
      requires Valid() && IsLive(x)
      modifies this, vals
      ensures Valid() && flags == old(flags) && keys == old(keys) && vals == old(vals)
      ensures nBuckets == old(nBuckets) && size == old(size)
      ensures nOccupied == old(nOccupied) && upperBound == old(upperBound)
      ensures img.fl == old(img.fl) && img.home == old(img.home)
      ensures Contents() == old(Contents())[keys[x] := v]
    {
      hide IsPow2, Log2, Pow2, Occupied, Live, Stores, HomeOf, Homes, Packs;
      CountedOverwrite(img, keys[..], vals[..], size, nOccupied, x, v);
      vals[x] := v;
      img := img.(m := img.m[keys[x] := v]);
      assert vals[..] == old(vals[..])[x := v];
    }

    /** `kh_put`: the bucket of the key, which is stored if it was absent. `ret` is 0 when the key was
        present, 1 when it took an empty bucket, 2 when it took a tombstone. The value slot of a new
        key keeps what it held before. */
    method Put(key: K) returns (x: nat, ret: nat)
      requires Valid() && Extensible()
      modifies Repr()
      ensures Valid() && fresh(Repr() - old(Repr()))
      ensures IsLive(x) && keys[x] == key
      ensures ret <= 2 && (ret == 0 <==> key in old(Contents()))
      ensures Contents() == old(Contents())[key := vals[x]]
      ensures ret == 0 ==> Contents() == old(Contents())
      ensures size == old(size) + (if ret == 0 then 0 else 1)
      ensures nOccupied == (if old(nOccupied) < old(upperBound) then old(nOccupied) else old(size))
                           + (if ret == 1 then 1 else 0)
      ensures nBuckets == if old(nOccupied) < old(upperBound) then old(nBuckets)
                          else Wanted(old(nBuckets), old(size))
      ensures Fits(HomeOf(hash(key), |img.fl|), |img.fl|)
      ensures ret != 0 ==> Takes(img.fl[x := Before(ret)], HomeOf(hash(key), |img.fl|), x, ret)
      ensures old(nOccupied) < old(upperBound) ==>
                old(img.fl) == (if ret == 0 then img.fl else img.fl[x := Before(ret)]) && upperBound == old(upperBound)
      ensures old(nOccupied) >= old(upperBound) ==> ret != 2
    {
      hide IsPow2, Log2, Pow2, Occupied, Live, Stores, HomeOf, Homes, Packs, Takes;
      ghost var full := nOccupied >= upperBound;
      if nOccupied >= upperBound { MakeRoom(); }
      ghost var fl, lean := img.fl, Occupied(img.fl) == Live(img.fl);
      x, ret := PutInto(key);
      if lean && ret != 0 { NoneToTake(fl, HomeOf(hash(key), |fl|), x, ret); }
    }

    /** The second half of `kh_put`, with room for a key. */
    method PutInto(key: K) returns (x: nat, ret: nat)
      requires Valid() && nOccupied < upperBound
      modifies this, flags, keys
      ensures Valid() && flags == old(flags) && keys == old(keys) && vals == old(vals)
      ensures IsLive(x) && keys[x] == key && ret <= 2 && (ret == 0 <==> key in old(Contents()))
      ensures Contents() == old(Contents())[key := vals[x]] && (ret == 0 ==> Contents() == old(Contents()))
      ensures size == old(size) + (if ret == 0 then 0 else 1) && nOccupied == old(nOccupied) + (if ret == 1 then 1 else 0)
      ensures nBuckets == old(nBuckets) && upperBound == old(upperBound)
      ensures Fits(HomeOf(hash(key), |img.fl|), |img.fl|)
      ensures old(img.fl) == if ret == 0 then img.fl else img.fl[x := Before(ret)]
      ensures ret != 0 ==> Takes(old(img.fl), HomeOf(hash(key), |img.fl|), x, ret)
    {
      hide IsPow2, Log2, Pow2, Occupied, Live, Stores, HomeOf, Packs, Takes, Site, FirstGap, NoTombstone;
      AllLegal(img, keys[..], vals[..], size, nOccupied);
      CountBounds(img.fl);
      ghost var t;
      x, t := Locate(flags, keys, key, hash(key), img.fl);
      LocateAnswer(img, keys[..], vals[..], key, x, t);
      if img.fl[x] != LIVE { SiteReached(img.fl, HomeOf(hash(key), |img.fl|), t, x); }
      var empty := IsEmpty(flags, x, img.fl);
      var del := IsDel(flags, x, img.fl);
      if empty {
        Fill(x, key, true);
        ret := 1;
      } else if del {
        Fill(x, key, false);
        ret := 2;
      } else {
        ret := 0;
      }
    }

    /** Storing a new key in bucket x; an empty bucket becomes occupied, a tombstone was so already. */
    method Fill(x: nat, key: K, empty: bool)
      requires Valid() && x < nBuckets && nOccupied < upperBound && key !in Contents()
      requires img.fl[x] == if empty then EMPTY else DELETED
      requires Fits(img.home(key), nBuckets) && Reaches(img.fl, img.home(key), x)
      modifies this, flags, keys
      ensures Valid() && flags == old(flags) && keys == old(keys) && vals == old(vals)
      ensures IsLive(x) && keys[x] == key && nBuckets == old(nBuckets)
      ensures Contents() == old(Contents())[key := vals[x]] && size == old(size) + 1
      ensures nOccupied == old(nOccupied) + (if empty then 1 else 0) && upperBound == old(upperBound)
      ensures img.fl == old(img.fl)[x := LIVE]
    {
      hide IsPow2, Log2, Pow2, Occupied, Live, Stores, HomeOf, Homes, Packs;
      CountedInsert(img, keys[..], vals[..], size, nOccupied, key, x);
      keys[x] := key;
      ClearBoth(flags, x, img.fl);
      size := size + 1;
      if empty { nOccupied := nOccupied + 1; }
      img := Inserted(img, x, key, vals[x]);
      assert keys[..] == old(keys[..])[x := key];
    }

    /** The first step of `kh_put`: when no bucket may be filled any more, the table is rehashed, in
        place if tombstones are the reason and to twice the size otherwise. */
    method MakeRoom()
      requires Valid() && Extensible() && nOccupied >= upperBound
      modifies Repr()
      ensures Valid() && fresh(Repr() - old(Repr()))
      ensures nOccupied == size < upperBound && Contents() == old(Contents()) && size == old(size)
      ensures nBuckets == Wanted(old(nBuckets), old(size))
    {
      hide IsPow2, Log2, Pow2, Stores, HomeOf, Homes, Packs, ResizedTo;
      CountBounds(img.fl);
      WantedFits(nBuckets, size);
      ghost var n := Wanted(nBuckets, size);
      Resize(if nBuckets > size * 2 then nBuckets - 1 else nBuckets + 1, n);
    }

    /** `kh_resize`: a request too small for the stored keys is refused; otherwise every entry is
        moved to the table of the new size, in place. */
    method Resize(requested: u32, ghost n: nat)
      requires Valid() && n == ResizedTo(requested)
      modifies Repr()
      ensures Valid() && fresh(Repr() - old(Repr()))
      ensures Contents() == old(Contents()) && size == old(size)
      ensures size >= Upper(n) ==>
                nBuckets == old(nBuckets) && nOccupied == old(nOccupied) && img == old(img)
      ensures size < Upper(n) ==> nBuckets == n && nOccupied == size
    {
      hide IsPow2, Log2, Pow2, Occupied, Live, Stores, HomeOf, Homes, Packs, RoundUp32;
      var m: nat := RoundUp32(requested);
      if m < 4 { m := 4; }
      if size < Upper(m) { RehashNew(m); }
    }

    /** With new flags that say that every bucket is empty. */
    method RehashNew(n: nat)
      requires Valid() && IsPow2(n) && 4 <= n <= MAX_BUCKETS && size < Upper(n)
      modifies Repr()
      ensures Valid() && fresh(Repr() - old(Repr()))
      ensures Contents() == old(Contents()) && size == old(size)
      ensures nBuckets == n && nOccupied == size
    {
      hide Valid, IsPow2, Contents, Packs, Upper;
      var newFlags, newFl := NewFlags(n);
      Rehash(n, newFlags, newFl);
    }

    /** The rehashing half of `kh_resize`. */
    method Rehash(n: nat, newFlags: array<bv32>, ghost newFl: seq<Flag>)
      requires newFlags as object !in Repr() && Packs(newFlags[..], newFl) && |newFl| == n
      requires forall i :: 0 <= i < n ==> newFl[i] == EMPTY
      requires Valid() && IsPow2(n) && 4 <= n <= MAX_BUCKETS && size < Upper(n)
      modifies Repr(), newFlags
      ensures Valid() && fresh(Repr() - old(Repr()) - {newFlags})
      ensures Contents() == old(Contents()) && size == old(size)
      ensures nBuckets == n && nOccupied == size
    {
      hide IsPow2, Log2, Pow2, Occupied, Live, Stores, Moving, HomeOf, Packs;
      ghost var newHome := k => HomeOf(hash(k), n);
      forall k | k in img.m ensures Fits(newHome(k), n) { HomeFits(hash(k), n); }
      assert |img.m| == size && Homes(newHome, n);
      hide Homes, Counted;
      Expand(n, newFl, newHome);
      ghost var newFl', at := MoveAll(newFlags, n, newFl, newHome);
      Adopt(newFlags, n, newFl', newHome, at);
    }

    /** `kh_resize` makes room for the new buckets before anything moves. */
    method Expand(n: nat, ghost newFl: seq<Flag>, ghost newHome: K -> Home)
      requires Valid() && |newFl| == n
      requires forall i :: 0 <= i < n ==> newFl[i] == EMPTY
      requires forall k :: k in img.m ==> Fits(newHome(k), n)
      modifies this`keys, this`vals
      ensures Distinct()
      ensures (keys == old(keys) || fresh(keys)) && (vals == old(vals) || fresh(vals))
      ensures n <= keys.Length && Moving(img.fl, newFl, keys[..], vals[..], newHome, img.m, img.at, {})
    {
      hide IsPow2, Log2, Pow2, Occupied, Live, Stores, HomeOf, Homes, Packs;
      keys := GrowTo(keys, n);
      vals := GrowTo(vals, n);
      StartMoving(img.fl, newFl, old(keys[..]), old(vals[..]), keys[..], vals[..], img.home, newHome, img.m, img.at);
    }

    /** The end of `kh_resize`: the arrays are cut to size and the new flags replace the old ones. */
    method Adopt(newFlags: array<bv32>, n: nat, ghost newFl: seq<Flag>, ghost newHome: K -> Home,
                 ghost at: map<K, nat>)
      requires newFlags as object != keys && newFlags as object != vals && keys as object != vals
      requires Packs(newFlags[..], newFl) && |newFl| == n <= keys.Length && keys.Length == vals.Length
      requires Homes(newHome, n) && IsPow2(n) && 4 <= n <= MAX_BUCKETS
      requires Stores(newFl, keys[..n], vals[..n], newHome, img.m, at)
      requires Occupied(newFl) == Live(newFl) == |img.m| == size && size < Upper(n)
      modifies this
      ensures Valid() && flags == newFlags
      ensures (keys == old(keys) || fresh(keys)) && (vals == old(vals) || fresh(vals))
      ensures Contents() == old(Contents()) && size == old(size) && nBuckets == n && nOccupied == size
    {
      hide IsPow2, Log2, Pow2, Occupied, Live, Stores, HomeOf, Homes, Packs;
      CutArrays(n);
      flags := newFlags;
      nBuckets := n;
      nOccupied := size;
      upperBound := Upper(n);
      img := Image(newFl, newHome, img.m, at);
    }

    method CutArrays(n: nat)
      requires keys as object != vals && n <= keys.Length && n <= vals.Length
      modifies this`keys, this`vals
      ensures keys[..] == old(keys[..n]) && vals[..] == old(vals[..n]) && keys as object != vals
      ensures (keys == old(keys) || fresh(keys)) && (vals == old(vals) || fresh(vals))
    {
      keys := ShrinkTo(keys, n);
      vals := ShrinkTo(vals, n);
    }

    /** The loop of `kh_resize` over the old buckets. */
    method MoveAll(newFlags: array<bv32>, n: nat, ghost newFl: seq<Flag>, ghost newHome: K -> Home)
        returns (ghost newFl': seq<Flag>, ghost at: map<K, nat>)
      requires Distinct() && newFlags as object !in Repr()
      requires Packs(flags[..], img.fl) && Packs(newFlags[..], newFl) && Homes(newHome, n)
      requires |img.fl| == nBuckets && |newFl| == n && IsPow2(n) && 4 <= n && |img.m| < n
      requires Moving(img.fl, newFl, keys[..], vals[..], newHome, img.m, img.at, {})
      modifies flags, newFlags, keys, vals
      ensures Packs(newFlags[..], newFl') && |newFl'| == n <= keys.Length && keys.Length == vals.Length
      ensures Stores(newFl', keys[..n], vals[..n], newHome, img.m, at)
      ensures Occupied(newFl') == Live(newFl') == |img.m|
    {
      hide IsPow2, Log2, Pow2, Occupied, Live, Stores, HomeOf, Homes, Packs;
      ghost var oldFl := img.fl;
      newFl', at := newFl, img.at;
      var j := 0;
      while j != nBuckets
        invariant j <= nBuckets
        invariant Packs(flags[..], oldFl) && Packs(newFlags[..], newFl')
        invariant |oldFl| == nBuckets && |newFl'| == n
        invariant Moving(oldFl, newFl', keys[..], vals[..], newHome, img.m, at, {})
        invariant forall i: nat :: i < j ==> !Unmoved(oldFl, i)
        decreases nBuckets - j
      {
        oldFl, newFl', at := MoveOne(newFlags, n, j, oldFl, newFl', newHome, at);
        j := j + 1;
      }
      DoneMoving(oldFl, newFl', keys[..], vals[..], newHome, img.m, at);
      assert keys[..][..n] == keys[..n] && vals[..][..n] == vals[..n];
    }

    /** One round of that loop. */
    method MoveOne(newFlags: array<bv32>, n: nat, j: nat, ghost oldFl: seq<Flag>, ghost newFl: seq<Flag>,
                   ghost newHome: K -> Home, ghost at: map<K, nat>)
        returns (ghost oldFl': seq<Flag>, ghost newFl': seq<Flag>, ghost at': map<K, nat>)
      requires Distinct() && newFlags as object !in Repr() && j < nBuckets
      requires Packs(flags[..], oldFl) && Packs(newFlags[..], newFl) && Homes(newHome, n)
      requires |oldFl| == nBuckets && |newFl| == n && IsPow2(n) && 4 <= n && |img.m| < n
      requires Moving(oldFl, newFl, keys[..], vals[..], newHome, img.m, at, {})
      modifies flags, newFlags, keys, vals
      ensures Packs(flags[..], oldFl') && Packs(newFlags[..], newFl')
      ensures |oldFl'| == nBuckets && |newFl'| == n
      ensures Moving(oldFl', newFl', keys[..], vals[..], newHome, img.m, at', {})
      ensures forall i: nat :: (Unmoved(oldFl', i) ==> Unmoved(oldFl, i)) && (i == j ==> !Unmoved(oldFl', i))
    {
      hide IsPow2, Log2, Pow2, Occupied, Live, HomeOf, Homes, Packs;
      oldFl', newFl', at' := oldFl, newFl, at;
      var either := IsEither(flags, j, oldFl);
      if !either {
        var key, val := keys[j], vals[j];
        PickUp(oldFl, newFl, keys[..], vals[..], newHome, img.m, at, j);
        SetDel(flags, j, oldFl);
        TombstoneUnmoved(oldFl, j);
        oldFl', newFl', at' := MoveChain(newFlags, n, key, val, oldFl[j := DELETED], newFl, newHome, at - {key});
      }
    }

    /** The kick-out loop of `kh_resize`: the held entry is stored in the new table; as long as that
        takes the bucket of an entry not yet moved, the displaced entry is held and stored next. */
    method MoveChain(newFlags: array<bv32>, n: nat, key: K, val: V, ghost oldFl: seq<Flag>,
                     ghost newFl: seq<Flag>, ghost newHome: K -> Home, ghost at: map<K, nat>)
        returns (ghost oldFl': seq<Flag>, ghost newFl': seq<Flag>, ghost at': map<K, nat>)
      requires Distinct() && newFlags as object !in Repr()
      requires Packs(flags[..], oldFl) && Packs(newFlags[..], newFl) && Homes(newHome, n)
      requires |oldFl| == nBuckets && |newFl| == n && IsPow2(n) && 4 <= n && |img.m| < n
      requires Moving(oldFl, newFl, keys[..], vals[..], newHome, img.m, at, {key})
      requires img.m[key] == val
      modifies flags, newFlags, keys, vals
      ensures Packs(flags[..], oldFl') && Packs(newFlags[..], newFl')
      ensures |oldFl'| == nBuckets && |newFl'| == n
      ensures Moving(oldFl', newFl', keys[..], vals[..], newHome, img.m, at', {})
      ensures forall i: nat :: Unmoved(oldFl', i) ==> Unmoved(oldFl, i)
    {
      hide IsPow2, Log2, Pow2, Occupied, Live, HomeOf, Packs;
      var key, val := key, val;
      oldFl', newFl', at' := oldFl, newFl, at;
      while true
        invariant Packs(flags[..], oldFl') && Packs(newFlags[..], newFl')
        invariant |oldFl'| == nBuckets && |newFl'| == n
        invariant Moving(oldFl', newFl', keys[..], vals[..], newHome, img.m, at', {key})
        invariant img.m[key] == val
        invariant forall i: nat :: Unmoved(oldFl', i) ==> Unmoved(oldFl, i)
        decreases Live(oldFl')
      {
        var i := FreeBucket(newFlags, hash(key), newFl', n);
        ClearEmpty(newFlags, i, newFl');
        var kick := i < nBuckets;
        if kick {
          var either := IsEither(flags, i, oldFl');
          kick := !either;
        }
        if kick {
          KickOut(oldFl', newFl', keys[..], vals[..], newHome, img.m, at', key, i);
          var tmpKey, tmpVal := keys[i], vals[i];
          at' := (at' - {keys[i]})[key := i];
          keys[i], vals[i] := key, val;
          key, val := tmpKey, tmpVal;
          SetDel(flags, i, oldFl');
          oldFl', newFl' := oldFl'[i := DELETED], newFl'[i := LIVE];
        } else {
          Settle(oldFl', newFl', keys[..], vals[..], newHome, img.m, at', key, i);
          keys[i], vals[i] := key, val;
          at' := at'[key := i];
          newFl' := newFl'[i := LIVE];
          break;
        }
      }
    }
  }

  /** The probe loop of `kh_get`. It walks until it meets the key or a gap, or has been once around. */
  method Search<K(==)>(flags: array<bv32>, keys: array<K>, key: K, k: u32, ghost fl: seq<Flag>)
      returns (x: nat, ghost t: nat)
    requires Packs(flags[..], fl) && |fl| == keys.Length && IsPow2(|fl|) && |fl| >= 4
    ensures Fits(HomeOf(k, |fl|), |fl|) && t <= |fl| && x <= |fl|
    ensures forall s :: 0 <= s < t ==>
              var j := Walk(HomeOf(k, |fl|), |fl|, s); fl[j].del || keys[j] != key
    ensures x == |fl| ==> t == |fl| || fl[Walk(HomeOf(k, |fl|), |fl|, t)].empty
    ensures x < |fl| ==> fl[x] == LIVE && keys[x] == key
  {
    hide IsPow2, Log2, Pow2, Occupied, Packs, HomeOf;
    var n := keys.Length;
    var i, inc := FirstProbe(k, n);
    ghost var h := HomeOf(k, n);
    t := 0;
    var last := i;
    var empty := IsEmpty(flags, i, fl);
    var del := IsDel(flags, i, fl);
    while !empty && (del || keys[i] != key)
      invariant t < n && i == Walk(h, n, t)
      invariant forall s :: 0 <= s < t ==> var j := Walk(h, n, s); fl[j].del || keys[j] != key
      invariant empty == fl[i].empty && del == fl[i].del
      decreases n - t
    {
      i := NextProbe(i, inc, n, h, t);
      t := t + 1;
      if i == last { return n, t; }
      empty := IsEmpty(flags, i, fl);
      del := IsDel(flags, i, fl);
    }
    var either := IsEither(flags, i, fl);
    x := if either then n else i;
  }

  /** What the probe loop of `kh_get` found out. */
  lemma SearchAnswer<K, V>(s: Image<K, V>, keys: seq<K>, vals: seq<V>, key: K, x: nat, t: nat)
    requires Stores(s.fl, keys, vals, s.home, s.m, s.at) && IsPow2(|s.fl|) && Fits(s.home(key), |s.fl|)
    requires t <= |s.fl| && x <= |s.fl|
    requires forall i :: 0 <= i < t ==>
               var j := Walk(s.home(key), |s.fl|, i); s.fl[j].del || keys[j] != key
    requires x == |s.fl| ==> t == |s.fl| || s.fl[Walk(s.home(key), |s.fl|, t)].empty
    requires x < |s.fl| ==> s.fl[x] == LIVE && keys[x] == key
    ensures x < |s.fl| <==> key in s.m
    ensures x < |s.fl| ==> vals[x] == s.m[key]
  {
    StillAhead(s.fl, keys, vals, s.home, s.m, s.at, key, t);
    if x < |s.fl| {
      assert Owner(s.fl, keys, s.at, x);
      assert Kept(s.fl, keys, vals, s.home, s.m, s.at, key);
    }
  }

  /** The probe loop of `kh_put`: the bucket of the key, or else the last tombstone met before the
      gap, or else the gap. */
  method Locate<K(==)>(flags: array<bv32>, keys: array<K>, key: K, k: u32, ghost fl: seq<Flag>)
      returns (x: nat, ghost t: nat)
    requires Packs(flags[..], fl) && |fl| == keys.Length && IsPow2(|fl|) && |fl| >= 4
    requires Occupied(fl) < |fl| && forall i :: 0 <= i < |fl| ==> Legal(fl[i])
    ensures Fits(HomeOf(k, |fl|), |fl|) && x < |fl| && t < |fl|
    ensures forall s :: 0 <= s < t ==>
              var j := Walk(HomeOf(k, |fl|), |fl|, s); fl[j].del || keys[j] != key
    ensures fl[x] == LIVE ==> keys[x] == key
    ensures fl[x] != LIVE ==> FirstGap(fl, HomeOf(k, |fl|), t) && Site(fl, HomeOf(k, |fl|), t, x)
  {
    hide IsPow2, Log2, Pow2, Occupied, Packs, HomeOf, NoTombstone, LastTombstone, Site;
    var n := keys.Length;
    var i, inc := FirstProbe(k, n);
    ghost var h := HomeOf(k, n);
    t := 0;
    var site: nat := n;
    ghost var st: nat := 0;
    x := n;
    var empty := IsEmpty(flags, i, fl);
    NothingMet(fl, h);
    if empty {
      x := i;
      NoSite(fl, h, t);
    } else {
      var last := i;
      var del := IsDel(flags, i, fl);
      while !empty && (del || keys[i] != key)
        invariant t < n && i == Walk(h, n, t) && NoGap(fl, h, t) && x == n
        invariant forall s :: 0 <= s < t ==> var j := Walk(h, n, s); fl[j].del || keys[j] != key
        invariant empty == fl[i].empty && del == fl[i].del
        invariant if site == n then NoTombstone(fl, h, t) else LastTombstone(fl, h, t, st) && site == Walk(h, n, st)
        decreases n - t
      {
        OneProbe(fl, h, t, st);
        if del {
          site := i;
          st := t;
        }
        i := NextProbe(i, inc, n, h, t);
        t := t + 1;
        GapAhead(fl, h, t);
        if i == last {
          x := site;
          break;
        }
        empty := IsEmpty(flags, i, fl);
        del := IsDel(flags, i, fl);
      }
      if x == n {
        if empty && site != n {
          x := site;
          TombstoneSite(fl, h, t, st);
        } else {
          x := i;
          if site == n { NoSite(fl, h, t); }
        }
      }
    }
  }

  lemma NothingMet(fl: seq<Flag>, h: Home)
    requires Fits(h, |fl|)
    ensures Walk(h, |fl|, 0) == h.start && NoGap(fl, h, 0) && NoTombstone(fl, h, 0)
  {
  }

  /** What one more probe adds to the tombstones met. */
  lemma OneProbe(fl: seq<Flag>, h: Home, t: nat, st: nat)
    requires Fits(h, |fl|) && Legal(fl[Walk(h, |fl|, t)])
    ensures fl[Walk(h, |fl|, t)].del ==> LastTombstone(fl, h, t + 1, t)
    ensures !fl[Walk(h, |fl|, t)].del && NoTombstone(fl, h, t) ==> NoTombstone(fl, h, t + 1)
    ensures !fl[Walk(h, |fl|, t)].del && LastTombstone(fl, h, t, st) ==> LastTombstone(fl, h, t + 1, st)
  {
  }

  lemma NoSite(fl: seq<Flag>, h: Home, t: nat)
    requires Fits(h, |fl|) && NoTombstone(fl, h, t)
    ensures Site(fl, h, t, Walk(h, |fl|, t))
  {
  }

  lemma TombstoneSite(fl: seq<Flag>, h: Home, t: nat, st: nat)
    requires Fits(h, |fl|) && LastTombstone(fl, h, t, st)
    ensures Site(fl, h, t, Walk(h, |fl|, st)) && fl[Walk(h, |fl|, st)] == DELETED
  {
  }

  /** What a bucket was before a new key took it with code 1 or 2. */
  function Before(ret: nat): Flag {
    if ret == 1 then EMPTY else DELETED
  }

  lemma AllLegal<K, V>(s: Image<K, V>, keys: seq<K>, vals: seq<V>, size: int, nOccupied: int)
    requires Counted(s, keys, vals, size, nOccupied)
    ensures forall i :: 0 <= i < |s.fl| ==> Legal(s.fl[i])
  {
    forall i | 0 <= i < |s.fl|
      ensures Legal(s.fl[i])
    {
      assert Owner(s.fl, keys, s.at, i);
    }
  }

  lemma LocateAnswer<K, V>(s: Image<K, V>, keys: seq<K>, vals: seq<V>, key: K, x: nat, t: nat)
    requires Stores(s.fl, keys, vals, s.home, s.m, s.at) && IsPow2(|s.fl|) && Fits(s.home(key), |s.fl|)
    requires t < |s.fl| && x < |s.fl|
    requires forall i :: 0 <= i < t ==>
               var j := Walk(s.home(key), |s.fl|, i); s.fl[j].del || keys[j] != key
    requires s.fl[x] == LIVE ==> keys[x] == key
    requires s.fl[x] != LIVE ==> FirstGap(s.fl, s.home(key), t)
    ensures Legal(s.fl[x])
    ensures s.fl[x] == LIVE <==> key in s.m
    ensures s.fl[x] == LIVE ==> vals[x] == s.m[key]
  {
    StillAhead(s.fl, keys, vals, s.home, s.m, s.at, key, t);
    assert Owner(s.fl, keys, s.at, x);
    if s.fl[x] == LIVE { assert Kept(s.fl, keys, vals, s.home, s.m, s.at, key); }
  }

  /** The first empty bucket of the new table on the probe path of hash value k. */
  method FreeBucket(flags: array<bv32>, k: u32, ghost fl: seq<Flag>, n: nat) returns (i: nat)
    requires Packs(flags[..], fl) && |fl| == n && IsPow2(n) && n >= 4
    requires Occupied(fl) < n
    ensures Fits(HomeOf(k, n), n)
    ensures i < n && fl[i].empty && Reaches(fl, HomeOf(k, n), i)
  {
    ghost var h, t := HomeOf(k, n), 0;
    var inc: nat;
    i, inc := FirstProbe(k, n);
    var empty := IsEmpty(flags, i, fl);
    while !empty
      invariant t < n && i == Walk(h, n, t) && NoGap(fl, h, t) && empty == fl[i].empty
      decreases n - t
    {
      i := NextProbe(i, inc, n, h, t);
      t := t + 1;
      GapAhead(fl, h, t);
      empty := IsEmpty(flags, i, fl);
    }
  }
}
