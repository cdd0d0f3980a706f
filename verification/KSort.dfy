/** Selection and stable merge sort over any element type with a strict weak order. */
module KSort {

  /** `lt` is a strict weak order: asymmetric, and "not greater" is transitive. */
  ghost predicate WeakOrder<T(!new)>(lt: (T, T) -> bool) {
    && (forall x, y :: lt(x, y) ==> !lt(y, x))
    && (forall x, y, z :: Le(lt, x, y) && Le(lt, y, z) ==> Le(lt, x, z))
  }

  predicate Le<T>(lt: (T, T) -> bool, x: T, y: T) {
    !lt(y, x)
  }

  predicate Same<T>(lt: (T, T) -> bool, x: T, y: T) {
    Le(lt, x, y) && Le(lt, y, x)
  }

  lemma Transitive<T(!new)>(lt: (T, T) -> bool, x: T, y: T, z: T)
    requires WeakOrder(lt) && Le(lt, x, y) && Le(lt, y, z)
    ensures Le(lt, x, z)
  {
  }

  lemma Total<T(!new)>(lt: (T, T) -> bool, x: T, y: T)
    requires WeakOrder(lt)
    ensures Le(lt, x, y) || Le(lt, y, x)
    ensures lt(x, y) ==> Le(lt, x, y)
  {
  }

  // ---------- merge sort: the meaning ----------

  ghost predicate Sorted<T>(lt: (T, T) -> bool, s: seq<T>) {
    forall i, j :: 0 <= i < j < |s| ==> Le(lt, s[i], s[j])
  }

  /** The elements of s that are equivalent to v, in their order. */
  function Class<T>(lt: (T, T) -> bool, s: seq<T>, v: T): seq<T> {
    if s == [] then [] else (if Same(lt, s[0], v) then [s[0]] else []) + Class(lt, s[1..], v)
  }

  /** Equivalent elements stand in the same order in both. */
  ghost predicate Stable<T(!new)>(lt: (T, T) -> bool, s: seq<T>, r: seq<T>) {
    forall v :: Class(lt, s, v) == Class(lt, r, v)
  }

  function Merge<T>(lt: (T, T) -> bool, a: seq<T>, b: seq<T>): (r: seq<T>)
    ensures |r| == |a| + |b|
  {
    if a == [] then b
    else if b == [] then a
    else if lt(b[0], a[0]) then [b[0]] + Merge(lt, a, b[1..])
    else [a[0]] + Merge(lt, a[1..], b)
  }

  /** One pass: each run of the given length is merged with the one after it; the last run may be
      short or have no partner. */
  function Pass<T>(lt: (T, T) -> bool, s: seq<T>, step: nat): (r: seq<T>)
    requires step > 0
    ensures |r| == |s|
    decreases |s|
  {
    if |s| <= step then s
    else
      var e := if |s| < 2 * step then |s| else 2 * step;
      Merge(lt, s[..step], s[step..e]) + Pass(lt, s[e..], step)
  }

  /** Every run of the given length is sorted. */
  ghost predicate RunsSorted<T>(lt: (T, T) -> bool, s: seq<T>, step: nat)
    requires step > 0
    decreases |s|
  {
    if |s| <= step then Sorted(lt, s) else Sorted(lt, s[..step]) && RunsSorted(lt, s[step..], step)
  }

  lemma {:induction false} ClassAppend<T>(lt: (T, T) -> bool, a: seq<T>, b: seq<T>, v: T)
    ensures Class(lt, a + b, v) == Class(lt, a, v) + Class(lt, b, v)
  {
    hide Same;
    if a == [] {
      assert a + b == b && Class(lt, a, v) + Class(lt, b, v) == Class(lt, b, v);
    } else {
      hide Class;
      var rest := a[1..];
      assert a == [a[0]] + rest && a + b == [a[0]] + (rest + b);
      ClassCons(lt, a[0], rest, v);
      ClassCons(lt, a[0], rest + b, v);
      ClassAppend(lt, rest, b, v);
      Join3(if Same(lt, a[0], v) then [a[0]] else [], Class(lt, rest, v), Class(lt, b, v));
    }
  }

  lemma {:induction false} ClassNone<T>(lt: (T, T) -> bool, s: seq<T>, v: T)
    requires forall i :: 0 <= i < |s| ==> !Same(lt, s[i], v)
    ensures Class(lt, s, v) == []
  {
    if s != [] { ClassNone(lt, s[1..], v); }
  }

  lemma ClassCons<T>(lt: (T, T) -> bool, x: T, s: seq<T>, v: T)
    ensures Class(lt, [x] + s, v) == (if Same(lt, x, v) then [x] else []) + Class(lt, s, v)
  {
    assert ([x] + s)[1..] == s;
  }

  /** Merging sorted runs keeps the order within each class. */
  lemma {:induction false} MergeStable<T(!new)>(lt: (T, T) -> bool, a: seq<T>, b: seq<T>, v: T)
    requires WeakOrder(lt) && Sorted(lt, a) && Sorted(lt, b)
    ensures Class(lt, Merge(lt, a, b), v) == Class(lt, a, v) + Class(lt, b, v)
  {
    hide Class, WeakOrder;
    if a == [] {
      ClassNone(lt, a, v);
    } else if b == [] {
      ClassNone(lt, b, v);
    } else if lt(b[0], a[0]) {
      MergeStable(lt, a, b[1..], v);
      ClassCons(lt, b[0], Merge(lt, a, b[1..]), v);
      ClassCons(lt, b[0], b[1..], v);
      assert [b[0]] + b[1..] == b;
      if Same(lt, b[0], v) {
        forall i | 0 <= i < |a|
          ensures !Same(lt, a[i], v)
        {
          NotSame(lt, b[0], a[0], a[i], v);
        }
        ClassNone(lt, a, v);
      }
    } else {
      MergeStable(lt, a[1..], b, v);
      ClassCons(lt, a[0], Merge(lt, a[1..], b), v);
      ClassCons(lt, a[0], a[1..], v);
      assert [a[0]] + a[1..] == a;
    }
  }

  /** What is not below something greater than v is not equivalent to v. */
  lemma NotSame<T(!new)>(lt: (T, T) -> bool, x: T, y: T, z: T, v: T)
    requires WeakOrder(lt) && lt(x, y) && Same(lt, x, v) && (z == y || Le(lt, y, z))
    ensures !Same(lt, z, v)
  {
    if Same(lt, z, v) {
      assert Le(lt, z, v) && Le(lt, v, x);
      Transitive(lt, z, v, x);
      if z != y { Transitive(lt, y, z, x); }
    }
  }

  lemma {:induction false} MergeSorted<T(!new)>(lt: (T, T) -> bool, a: seq<T>, b: seq<T>)
    requires WeakOrder(lt) && Sorted(lt, a) && Sorted(lt, b)
    ensures Sorted(lt, Merge(lt, a, b))
    ensures forall i :: 0 <= i < |Merge(lt, a, b)| ==> Merge(lt, a, b)[i] in a || Merge(lt, a, b)[i] in b
  {
    hide WeakOrder;
    if a != [] && b != [] {
      if lt(b[0], a[0]) {
        MergeSorted(lt, a, b[1..]);
        Total(lt, b[0], a[0]);
        PutFirst(lt, b[0], Merge(lt, a, b[1..]), a, b[1..]);
      } else {
        MergeSorted(lt, a[1..], b);
        PutFirst(lt, a[0], Merge(lt, a[1..], b), b, a[1..]);
      }
    }
  }

  /** x goes before m, whose elements are those of p, whose first is not below x, and of q. */
  lemma PutFirst<T(!new)>(lt: (T, T) -> bool, x: T, m: seq<T>, p: seq<T>, q: seq<T>)
    requires WeakOrder(lt) && Sorted(lt, m) && Sorted(lt, p) && p != [] && Le(lt, x, p[0])
    requires forall y :: y in q ==> Le(lt, x, y)
    requires forall i :: 0 <= i < |m| ==> m[i] in p || m[i] in q
    ensures Sorted(lt, [x] + m)
  {
    var r := [x] + m;
    forall i, j | 0 <= i < j < |r|
      ensures Le(lt, r[i], r[j])
    {
      if i == 0 {
        assert r[j] == m[j - 1];
        if m[j - 1] in p {
          var k :| 0 <= k < |p| && p[k] == m[j - 1];
          if k > 0 { Transitive(lt, x, p[0], p[k]); }
        }
      } else {
        assert r[i] == m[i - 1] && r[j] == m[j - 1];
      }
    }
  }

  /** A pass doubles the length of the sorted runs and is stable. */
  lemma {:induction false} PassSorts<T(!new)>(lt: (T, T) -> bool, s: seq<T>, step: nat)
    requires WeakOrder(lt) && step > 0 && RunsSorted(lt, s, step)
    ensures RunsSorted(lt, Pass(lt, s, step), 2 * step)
    decreases |s|
  {
    hide WeakOrder, Merge;
    if |s| > step {
      var e, m := PassHead(lt, s, step);
      var rest := s[e..];
      MergeSorted(lt, s[..step], s[step..e]);
      PassSorts(lt, rest, step);
      var r := Pass(lt, s, step);
      if |s| <= 2 * step {
        assert r == m;
      } else {
        assert r[..2 * step] == m && r[2 * step..] == Pass(lt, rest, step);
      }
    }
  }

  /** The first pair of runs. */
  lemma PassHead<T>(lt: (T, T) -> bool, s: seq<T>, step: nat) returns (e: nat, m: seq<T>)
    requires step > 0 && RunsSorted(lt, s, step) && |s| > step
    ensures step < e <= |s| && e == (if |s| < 2 * step then |s| else 2 * step) && |m| == e
    ensures Sorted(lt, s[..step]) && Sorted(lt, s[step..e]) && RunsSorted(lt, s[e..], step)
    ensures m == Merge(lt, s[..step], s[step..e]) && Pass(lt, s, step) == m + Pass(lt, s[e..], step)
  {
    e := if |s| < 2 * step then |s| else 2 * step;
    m := Merge(lt, s[..step], s[step..e]);
    var tail := s[step..];
    if |tail| <= step {
      assert tail == s[step..e];
    } else {
      assert tail[..step] == s[step..e] && tail[step..] == s[e..];
    }
    if e == |s| { assert s[e..] == []; }
  }

  lemma {:induction false} PassStable<T(!new)>(lt: (T, T) -> bool, s: seq<T>, step: nat, v: T)
    requires WeakOrder(lt) && step > 0 && RunsSorted(lt, s, step)
    ensures Class(lt, Pass(lt, s, step), v) == Class(lt, s, v)
    decreases |s|
  {
    hide WeakOrder, Merge, Class;
    if |s| > step {
      var e, m := PassHead(lt, s, step);
      MergeStable(lt, s[..step], s[step..e], v);
      PassStable(lt, s[e..], step, v);
      ClassAppend(lt, m, Pass(lt, s[e..], step), v);
      ClassAppend(lt, s[..step], s[step..e], v);
      ClassAppend(lt, s[..e], s[e..], v);
      assert s[..e] == s[..step] + s[step..e] && s == s[..e] + s[e..];
    }
  }

  lemma {:induction false} SingletonRuns<T>(lt: (T, T) -> bool, s: seq<T>)
    ensures RunsSorted(lt, s, 1)
    decreases |s|
  {
    if |s| > 1 { SingletonRuns(lt, s[1..]); }
  }

  lemma {:induction false} CountInClass<T>(lt: (T, T) -> bool, s: seq<T>, v: T)
    requires Same(lt, v, v)
    ensures multiset(Class(lt, s, v))[v] == multiset(s)[v]
  {
    if s != [] {
      CountInClass(lt, s[1..], v);
      assert s == [s[0]] + s[1..];
    }
  }

  /** What is stable is a permutation. */
  lemma StableIsPermutation<T(!new)>(lt: (T, T) -> bool, s: seq<T>, r: seq<T>)
    requires WeakOrder(lt) && Stable(lt, s, r)
    ensures multiset(s) == multiset(r)
  {
    forall v
      ensures multiset(s)[v] == multiset(r)[v]
    {
      Total(lt, v, v);
      CountInClass(lt, s, v);
      CountInClass(lt, r, v);
      assert Class(lt, s, v) == Class(lt, r, v);
    }
  }

  /** Sorted and stable leaves no choice. */
  lemma {:induction false} SortedStableUnique<T(!new)>(lt: (T, T) -> bool, r: seq<T>, q: seq<T>)
    requires WeakOrder(lt) && Sorted(lt, r) && Sorted(lt, q) && Stable(lt, r, q)
    ensures r == q
  {
    StableIsPermutation(lt, r, q);
    assert |multiset(r)| == |r| && |multiset(q)| == |q|;
    if r != [] {
      var x, y := r[0], q[0];
      assert y in multiset(r) && x in multiset(q);
      var i :| 0 <= i < |r| && r[i] == y;
      var j :| 0 <= j < |q| && q[j] == x;
      Total(lt, x, x);
      Total(lt, y, y);
      assert Same(lt, x, x) && Same(lt, y, x);
      assert Class(lt, r, x)[0] == x && Class(lt, q, x)[0] == y;
      assert Class(lt, r, x) == Class(lt, q, x);
      forall v
        ensures Class(lt, r[1..], v) == Class(lt, q[1..], v)
      {
        assert Class(lt, r, v) == Class(lt, q, v);
        var h := if Same(lt, x, v) then [x] else [];
        assert Class(lt, r, v)[|h|..] == Class(lt, r[1..], v);
        assert Class(lt, q, v)[|h|..] == Class(lt, q[1..], v);
      }
      SortedStableUnique(lt, r[1..], q[1..]);
    }
  }

  // ---------- merge sort: the program ----------

  /** `ks_mergesort`: the passes alternate between the array and the temporary buffer, and the result
      is copied back when it ends in the buffer. */
  method MergeSort<T(!new)>(lt: (T, T) -> bool, a: array<T>, temp: array<T>)
    requires WeakOrder(lt) && a != temp && temp.Length >= a.Length
    modifies a, temp
    ensures Sorted(lt, a[..]) && Stable(lt, old(a[..]), a[..])
    ensures multiset(a[..]) == multiset(old(a[..]))
  {
    hide WeakOrder, RunsSorted, Pass, Stable;
    var n := a.Length;
    var src, dst, step, curr := a, temp, 1, 0;
    ghost var s := a[..];
    assert a[..n] == s;
    SingletonRuns(lt, s);
    StableSelf(lt, s);
    while step < n
      invariant step > 0 && (curr == 0 ==> src == a && dst == temp) && (curr == 1 ==> src == temp && dst == a)
      invariant curr == 0 || curr == 1
      invariant RunsSorted(lt, src[..n], step) && Stable(lt, s, src[..n])
      decreases n - step
    {
      ghost var cur := src[..n];
      if step == 1 {
        PairPass(lt, src, dst, n);
      } else {
        MergePass(lt, src, dst, n, step);
      }
      PassSorts(lt, cur, step);
      PassKeepsStable(lt, s, cur, step);
      src, dst, step, curr := dst, src, 2 * step, 1 - curr;
    }
    OneRun(lt, src[..n], step);
    ghost var sorted := src[..n];
    if curr == 1 {
      var i := 0;
      while i < n
        invariant 0 <= i <= n && temp[..n] == sorted && a[..i] == temp[..i]
      {
        a[i] := temp[i];
        i := i + 1;
      }
    }
    assert a[..] == a[..n] == sorted;
    StableIsPermutation(lt, s, a[..]);
  }

  lemma StableSelf<T(!new)>(lt: (T, T) -> bool, s: seq<T>)
    ensures Stable(lt, s, s)
  {
  }

  lemma PassKeepsStable<T(!new)>(lt: (T, T) -> bool, s: seq<T>, cur: seq<T>, step: nat)
    requires WeakOrder(lt) && step > 0 && RunsSorted(lt, cur, step) && Stable(lt, s, cur)
    ensures Stable(lt, s, Pass(lt, cur, step))
  {
    forall v
      ensures Class(lt, s, v) == Class(lt, Pass(lt, cur, step), v)
    {
      PassStable(lt, cur, step, v);
    }
  }

  lemma OneRun<T>(lt: (T, T) -> bool, s: seq<T>, step: nat)
    requires step > 0 && RunsSorted(lt, s, step) && |s| <= step
    ensures Sorted(lt, s)
  {
  }

  /** The first pass compares neighbours. */
  method PairPass<T>(lt: (T, T) -> bool, a: array<T>, b: array<T>, n: nat)
    requires a != b && n <= a.Length && n <= b.Length
    modifies b
    ensures b[..n] == Pass(lt, a[..n], 1)
  {
    hide Pass, Merge;
    ghost var s := a[..n];
    var i := 0;
    while i < n
      invariant 0 <= i <= n
      invariant b[..i] + Pass(lt, s[i..], 1) == Pass(lt, s, 1)
    {
      PairStep(lt, s, i);
      ghost var done := b[..i];
      if i == n - 1 {
        b[i] := a[i];
        i := i + 1;
      } else {
        if lt(a[i + 1], a[i]) {
          b[i], b[i + 1] := a[i + 1], a[i];
        } else {
          b[i], b[i + 1] := a[i], a[i + 1];
        }
        i := i + 2;
      }
      assert b[..i] == done + b[|done|..i];
    }
    PassEmpty(lt, s, n, 1);
  }

  lemma PassEmpty<T>(lt: (T, T) -> bool, s: seq<T>, n: nat, step: nat)
    requires n == |s| && step > 0
    ensures Pass(lt, s[n..], step) == []
  {
  }

  lemma PairStep<T>(lt: (T, T) -> bool, s: seq<T>, i: nat)
    requires i < |s|
    ensures i == |s| - 1 ==> Pass(lt, s[i..], 1) == [s[i]] && Pass(lt, s[i + 1..], 1) == []
    ensures i < |s| - 1 ==>
      Pass(lt, s[i..], 1) == (if lt(s[i + 1], s[i]) then [s[i + 1], s[i]] else [s[i], s[i + 1]]) + Pass(lt, s[i + 2..], 1)
  {
    hide Merge;
    if i < |s| - 1 {
      PassPair(lt, s[i..]);
      MergePair(lt, s[i], s[i + 1]);
      assert s[i..][2..] == s[i + 2..];
    }
  }

  lemma PassPair<T>(lt: (T, T) -> bool, t: seq<T>)
    requires |t| >= 2
    ensures Pass(lt, t, 1) == Merge(lt, [t[0]], [t[1]]) + Pass(lt, t[2..], 1)
  {
    hide Merge;
    assert t[..1] == [t[0]] && t[1..2] == [t[1]];
  }

  lemma MergePair<T>(lt: (T, T) -> bool, x: T, y: T)
    ensures Merge(lt, [x], [y]) == if lt(y, x) then [y, x] else [x, y]
  {
    assert [x][1..] == [] && [y][1..] == [];
  }

  /** The other passes merge pairs of runs. */
  method MergePass<T>(lt: (T, T) -> bool, a: array<T>, b: array<T>, n: nat, step: nat)
    requires a != b && n <= a.Length && n <= b.Length && step > 0
    modifies b
    ensures b[..n] == Pass(lt, a[..n], step)
  {
    hide Pass, Merge;
    ghost var s := a[..n];
    var i := 0;
    while i < n
      invariant 0 <= i && (i <= n ==> b[..i] + Pass(lt, s[i..], step) == Pass(lt, s, step))
      invariant i > n ==> b[..n] == Pass(lt, s, step)
      decreases n - i
    {
      ghost var done := b[..i];
      var ea, eb;
      if n < i + step {
        ea, eb := n, 0;
      } else {
        ea, eb := i + step, if n < i + 2 * step then n else i + 2 * step;
      }
      MergeRuns(lt, a, b, n, i, ea, eb, step);
      RoundDone(lt, s, i, step);
      i := i + 2 * step;
      ghost var e := if i < n then i else n;
      assert b[..e] == done + b[|done|..e];
    }
    if i == n { PassEmpty(lt, s, n, step); }
  }

  /** What one round of a pass has to leave at position i. */
  function Round<T>(lt: (T, T) -> bool, s: seq<T>, i: nat, step: nat): seq<T>
    requires i < |s| && step > 0
  {
    if |s| < i + step then s[i..]
    else Merge(lt, s[i..i + step], s[i + step..if |s| < i + 2 * step then |s| else i + 2 * step])
  }

  lemma RoundDone<T>(lt: (T, T) -> bool, s: seq<T>, i: nat, step: nat)
    requires i < |s| && step > 0
    ensures Pass(lt, s[i..], step) ==
      Round(lt, s, i, step) + (if i + 2 * step < |s| then Pass(lt, s[i + 2 * step..], step) else [])
  {
    hide Merge;
    var t := s[i..];
    if |s| > i + step {
      var e := if |t| < 2 * step then |t| else 2 * step;
      assert t[..step] == s[i..i + step] && t[step..e] == s[i + step..i + e] && t[e..] == s[i + e..];
    } else if |s| == i + step {
      assert s[i..i + step] == t && s[i + step..|s|] == [];
      MergeRest(lt, t, []);
    }
  }

  /** Merges the run from i to ea and the run from i + step to eb into the other buffer; a missing
      second run has its end before its start. */
  method MergeRuns<T>(lt: (T, T) -> bool, a: array<T>, b: array<T>, n: nat, i: nat, ea: nat, eb: nat, step: nat)
    requires a != b && i < n <= a.Length && n <= b.Length && step > 0
    requires if n < i + step then ea == n && eb == 0
             else ea == i + step && eb == (if n < i + 2 * step then n else i + 2 * step)
    modifies b
    ensures var e := if i + 2 * step < n then i + 2 * step else n;
            b[..i] == old(b[..i]) && b[i..e] == Round(lt, a[..n], i, step)
  {
    hide Merge, Round, From;
    ghost var s, before := a[..n], b[..i];
    RoundIsMerge(lt, s, i, step, ea, eb);
    var j, k, p;
    ghost var out;
    j, k, p, out := MergeBoth(lt, a, b, n, i, ea, i + step, eb);
    MergeRest(lt, From(s, j, ea), From(s, k, eb));
    p := CopyRun(a, b, n, j, ea, p);
    p := CopyRun(a, b, n, k, eb, p);
    Assoc4(before, out, From(s, j, ea), From(s, k, eb));
    BehindPrefix(b, before, Round(lt, s, i, step), p);
  }

  lemma Assoc4<T>(a: seq<T>, b: seq<T>, c: seq<T>, d: seq<T>)
    ensures a + b + c + d == a + (b + (c + d))
  {
  }

  lemma BehindPrefix<T>(b: array<T>, before: seq<T>, t: seq<T>, p: nat)
    requires p <= b.Length && b[..p] == before + t
    ensures b[..|before|] == before && b[|before|..p] == t
  {
    assert b[..|before|] == b[..p][..|before|];
  }

  method Put<T>(b: array<T>, p: nat, x: T)
    requires p < b.Length
    modifies b
    ensures b[..p + 1] == old(b[..p]) + [x]
  {
    b[p] := x;
  }

  /** While both runs have elements, the smaller one, or the one of the first run, is taken. */
  method MergeBoth<T>(lt: (T, T) -> bool, a: array<T>, b: array<T>, n: nat, i: nat, ea: nat, k0: nat, eb: nat)
    returns (j: nat, k: nat, p: nat, ghost out: seq<T>)
    requires a != b && i <= ea <= n <= a.Length && eb <= n <= b.Length
    requires ea + |From(a[..n], k0, eb)| <= n
    modifies b
    ensures j <= ea && p + |From(a[..n], j, ea)| + |From(a[..n], k, eb)| == ea + |From(a[..n], k0, eb)|
    ensures From(a[..n], j, ea) == [] || From(a[..n], k, eb) == []
    ensures p <= n && b[..p] == old(b[..i]) + out
    ensures out + Merge(lt, From(a[..n], j, ea), From(a[..n], k, eb)) == Merge(lt, From(a[..n], i, ea), From(a[..n], k0, eb))
  {
    hide Merge, From;
    ghost var s, before := a[..n], b[..i];
    ghost var goal := Merge(lt, From(s, i, ea), From(s, k0, eb));
    j, k, p, out := i, k0, i, [];
    assert out + goal == goal && before + out == before;
    while j < ea && k < eb
      invariant j <= ea && p + |From(s, j, ea)| + |From(s, k, eb)| == ea + |From(s, k0, eb)|
      invariant p <= n && b[..p] == before + out
      invariant out + Merge(lt, From(s, j, ea), From(s, k, eb)) == goal
      decreases ea - j + (eb - k)
    {
      ghost var x;
      j, k, x := MergeOne(lt, a, b, n, j, ea, k, eb, p);
      p := p + 1;
      Join3(out, [x], Merge(lt, From(s, j, ea), From(s, k, eb)));
      Join3(before, out, [x]);
      out := out + [x];
    }
  }

  method MergeOne<T>(lt: (T, T) -> bool, a: array<T>, b: array<T>, n: nat, j: nat, ea: nat, k: nat, eb: nat, p: nat)
    returns (j': nat, k': nat, ghost x: T)
    requires a != b && j < ea <= n <= a.Length && k < eb <= n && p < b.Length
    modifies b
    ensures b[..p + 1] == old(b[..p]) + [x]
    ensures (j' == j + 1 && k' == k) || (j' == j && k' == k + 1)
    ensures var s := a[..n]; Merge(lt, From(s, j, ea), From(s, k, eb)) == [x] + Merge(lt, From(s, j', ea), From(s, k', eb))
  {
    hide Merge, From;
    ghost var s := a[..n];
    MergeStep(lt, s, j, ea, k, eb);
    assert a[k] == s[k] && a[j] == s[j];
    if lt(a[k], a[j]) {
      x := a[k];
      Put(b, p, a[k]);
      return j, k + 1, x;
    } else {
      x := a[j];
      Put(b, p, a[j]);
      return j + 1, k, x;
    }
  }

  lemma Join3<T>(a: seq<T>, b: seq<T>, c: seq<T>)
    ensures a + b + c == a + (b + c)
  {
  }

  /** What is left of one run is copied. */
  method CopyRun<T>(a: array<T>, b: array<T>, n: nat, from: nat, end: nat, at: nat) returns (p: nat)
    requires a != b && end <= n <= a.Length && at + |From(a[..n], from, end)| <= b.Length
    modifies b
    ensures p == at + |From(a[..n], from, end)|
    ensures b[..p] == old(b[..at]) + From(a[..n], from, end)
  {
    ghost var s, before := a[..n], b[..at];
    ghost var goal := before + From(s, from, end);
    hide From;
    var j := from;
    p := at;
    while j < end
      invariant p + |From(s, j, end)| == |goal|
      invariant b[..p] + From(s, j, end) == goal
      decreases end - j
    {
      FromFirst(s, j, end);
      assert a[j] == s[j];
      ghost var done := b[..p];
      Put(b, p, a[j]);
      Join3(done, [a[j]], From(s, j + 1, end));
      j := j + 1;
      p := p + 1;
    }
    assert b[..p] + [] == b[..p];
  }

  lemma FromFirst<T>(s: seq<T>, j: nat, end: nat)
    requires j < end <= |s|
    ensures From(s, j, end) == [s[j]] + From(s, j + 1, end)
  {
  }

  /** What is left of the second run; nothing when its end is before its start. */
  function From<T>(s: seq<T>, k: nat, eb: nat): (r: seq<T>)
    requires eb <= |s|
    ensures |r| == if k <= eb then eb - k else 0
  {
    if k <= eb then s[k..eb] else []
  }

  lemma RoundIsMerge<T>(lt: (T, T) -> bool, s: seq<T>, i: nat, step: nat, ea: nat, eb: nat)
    requires i < |s| && step > 0
    requires if |s| < i + step then ea == |s| && eb == 0
             else ea == i + step && eb == (if |s| < i + 2 * step then |s| else i + 2 * step)
    ensures Round(lt, s, i, step) == Merge(lt, From(s, i, ea), From(s, i + step, eb))
    ensures ea <= |s| && ea + |From(s, i + step, eb)| == i + |Round(lt, s, i, step)|
    ensures |Round(lt, s, i, step)| == (if i + 2 * step < |s| then i + 2 * step else |s|) - i
  {
    hide Merge;
    assert s[i..|s|] == s[i..];
    if |s| < i + step { MergeRest(lt, s[i..], []); }
  }

  lemma MergeStep<T>(lt: (T, T) -> bool, s: seq<T>, j: nat, ea: nat, k: nat, eb: nat)
    requires j < ea <= |s| && k < eb <= |s|
    ensures Merge(lt, From(s, j, ea), From(s, k, eb)) ==
            if lt(s[k], s[j]) then [s[k]] + Merge(lt, From(s, j, ea), From(s, k + 1, eb))
            else [s[j]] + Merge(lt, From(s, j + 1, ea), From(s, k, eb))
  {
    assert s[j..ea][1..] == s[j + 1..ea] && s[k..eb][1..] == s[k + 1..eb];
  }

  lemma MergeRest<T>(lt: (T, T) -> bool, x: seq<T>, y: seq<T>)
    requires x == [] || y == []
    ensures Merge(lt, x, y) == x + y
  {
  }
}
