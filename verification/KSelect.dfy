/** Selection of the element of a given rank, by partitioning a shrinking window in place. */
module KSelect {
  import opened KSort

  /** Everything before position m is not greater than everything from m on. */
  ghost predicate Split<T>(lt: (T, T) -> bool, s: seq<T>, m: int) {
    forall i, j :: 0 <= i < m <= j < |s| ==> Le(lt, s[i], s[j])
  }

  /** Position k holds what a sorted array would have there. */
  ghost predicate Final<T>(lt: (T, T) -> bool, s: seq<T>, k: nat)
    requires k < |s|
  {
    && (forall i :: 0 <= i < k ==> Le(lt, s[i], s[k]))
    && (forall j :: k < j < |s| ==> Le(lt, s[k], s[j]))
  }

  /** The window is separated from what is around it, and k is in it or final. */
  ghost predicate Window<T>(lt: (T, T) -> bool, s: seq<T>, low: int, high: int, k: nat) {
    && k < |s| && 0 <= low && high < |s|
    && Split(lt, s, low) && Split(lt, s, high + 1)
    && (low <= k <= high || Final(lt, s, k))
  }

  function Swapped<T>(s: seq<T>, i: nat, j: nat): (r: seq<T>)
    requires i < |s| && j < |s|
    ensures |r| == |s| && multiset(r) == multiset(s)
  {
    SwapCounts(s, i, j);
    s[i := s[j]][j := s[i]]
  }

  lemma SwapCounts<T>(s: seq<T>, i: nat, j: nat)
    requires i < |s| && j < |s|
    ensures multiset(s[i := s[j]][j := s[i]]) == multiset(s)
  {
  }

  /** A swap inside the window keeps it. */
  lemma SwapKeeps<T>(lt: (T, T) -> bool, s: seq<T>, low: int, high: int, k: nat, i: nat, j: nat)
    requires Window(lt, s, low, high, k) && low <= i <= high && low <= j <= high
    ensures Window(lt, Swapped(s, i, j), low, high, k)
  {
    var r := Swapped(s, i, j);
    forall p, q | 0 <= p < low <= q < |r|
      ensures Le(lt, r[p], r[q])
    {
      assert r[p] == s[p] && (r[q] == s[q] || r[q] == s[i] || r[q] == s[j]);
    }
    forall p, q | 0 <= p < high + 1 <= q < |r|
      ensures Le(lt, r[p], r[q])
    {
      assert r[q] == s[q] && (r[p] == s[p] || r[p] == s[i] || r[p] == s[j]);
    }
  }

  method Swap<T>(a: array<T>, i: nat, j: nat)
    requires i < a.Length && j < a.Length
    modifies a
    ensures a[i] == old(a[j]) && a[j] == old(a[i]) && forall x :: 0 <= x < a.Length && x != i && x != j ==> a[x] == old(a[x])
    ensures a[..] == Swapped(old(a[..]), i, j)
  {
    a[i], a[j] := a[j], a[i];
  }

  /** What partitioning around the element at hh leaves: the positions between hh and ll hold
      equivalent elements. */
  ghost predicate Parted<T>(lt: (T, T) -> bool, s: seq<T>, low: int, high: int, ll: int, hh: int) {
    && 0 <= low < hh < high < |s| && hh < ll <= high
    && (forall i :: low <= i < ll ==> Le(lt, s[i], s[hh]))
    && (forall j :: hh < j <= high ==> Le(lt, s[hh], s[j]))
  }

  /** The smaller window after a partition. */
  lemma Narrow<T(!new)>(lt: (T, T) -> bool, s: seq<T>, low: int, high: int, k: nat, ll: int, hh: int)
    requires WeakOrder(lt) && Window(lt, s, low, high, k) && Parted(lt, s, low, high, ll, hh)
    ensures Window(lt, s, if hh <= k then ll else low, if hh >= k then hh - 1 else high, k)
  {
    hide WeakOrder;
    var v := s[hh];
    Total(lt, v, v);
    forall i, j | low <= i < ll <= j <= high ensures Le(lt, s[i], s[j]) { Transitive(lt, s[i], v, s[j]); }
    forall i, j | low <= i < hh <= j <= high ensures Le(lt, s[i], s[j]) { if j > hh { Transitive(lt, s[i], v, s[j]); } }
    if low <= k <= high && hh <= k < ll {
      forall i | 0 <= i < k ensures Le(lt, s[i], s[k]) {
        if low <= i { Transitive(lt, s[i], v, s[k]); }
      }
      forall j | k < j < |s| ensures Le(lt, s[k], s[j]) {
        if j <= high { Transitive(lt, s[k], v, s[j]); }
      }
    }
  }

  /** The median of three goes to the front of the window, the smallest of them behind it. */
  ghost predicate Primed<T>(lt: (T, T) -> bool, s: seq<T>, low: nat, high: nat)
    requires low + 2 <= high < |s|
  {
    Le(lt, s[low + 1], s[low]) && Le(lt, s[low], s[high])
  }

  /** Between the scans: up to ll nothing is greater than the pivot, from hh on nothing is less. */
  ghost predicate Scanned<T>(lt: (T, T) -> bool, s: seq<T>, low: nat, high: nat, ll: int, hh: int)
    requires low + 2 <= high < |s|
  {
    && low < ll <= hh <= high && ll < high && (ll == low + 1 ==> ll < hh)
    && (forall i :: low <= i <= ll ==> Le(lt, s[i], s[low]))
    && (forall j :: hh <= j <= high ==> Le(lt, s[low], s[j]))
  }

  function Middle(low: nat, high: nat): (mid: nat)
    requires low + 2 <= high
    ensures low < mid < high
  {
    low + (high - low) / 2
  }

  method MedianFirst<T(!new)>(lt: (T, T) -> bool, a: array<T>, low: nat, high: nat, ghost k: nat)
    requires WeakOrder(lt) && low + 2 <= high && Window(lt, a[..], low, high, k)
    modifies a
    ensures Window(lt, a[..], low, high, k) && multiset(a[..]) == multiset(old(a[..]))
    ensures Primed(lt, a[..], low, high)
  {
    hide Window, WeakOrder, Swapped;
    WindowBounds(lt, a[..], low, high, k);
    var mid := Middle(low, high);
    if lt(a[high], a[mid]) {
      Total(lt, a[high], a[mid]);
      SwapIn(lt, a, mid, high, low, high, k);
    }
    assert Le(lt, a[mid], a[high]);
    if lt(a[high], a[low]) {
      Total(lt, a[high], a[low]);
      Transitive(lt, a[mid], a[high], a[low]);
      SwapIn(lt, a, low, high, low, high, k);
    }
    assert Le(lt, a[mid], a[high]) && Le(lt, a[low], a[high]);
    if lt(a[low], a[mid]) {
      Total(lt, a[low], a[mid]);
      SwapIn(lt, a, mid, low, low, high, k);
    }
    assert Le(lt, a[mid], a[low]) && Le(lt, a[low], a[high]);
    SwapIn(lt, a, mid, low + 1, low, high, k);
  }

  method SwapIn<T(!new)>(lt: (T, T) -> bool, a: array<T>, i: nat, j: nat, low: nat, high: nat, ghost k: nat)
    requires low <= i <= high < a.Length && low <= j <= high && Window(lt, a[..], low, high, k)
    modifies a
    ensures Window(lt, a[..], low, high, k) && multiset(a[..]) == multiset(old(a[..]))
    ensures a[..] == Swapped(old(a[..]), i, j)
    ensures a[i] == old(a[j]) && a[j] == old(a[i]) && forall x :: 0 <= x < a.Length && x != i && x != j ==> a[x] == old(a[x])
  {
    hide Window;
    SwapKeeps(lt, a[..], low, high, k, i, j);
    Swap(a, i, j);
  }

  lemma WindowBounds<T>(lt: (T, T) -> bool, s: seq<T>, low: int, high: int, k: nat)
    requires Window(lt, s, low, high, k)
    ensures 0 <= low && high < |s| && k < |s|
  {
  }

  /** `do ++ll; while (a[ll] < pivot)` */
  method ScanUp<T(!new)>(lt: (T, T) -> bool, a: array<T>, low: nat, high: nat, from: int, hh: int) returns (ll: int)
    requires low + 2 <= high < a.Length && Scanned(lt, a[..], low, high, from, hh)
    ensures from < ll <= high && Le(lt, a[low], a[ll])
    ensures forall i :: from < i < ll ==> lt(a[i], a[low])
  {
    ghost var stop := if from < hh then hh else from + 1;
    assert Le(lt, a[..][low], a[..][stop]);
    ll := from + 1;
    while lt(a[ll], a[low])
      invariant from < ll <= stop
      invariant forall i :: from < i < ll ==> lt(a[i], a[low])
      decreases stop - ll
    {
      ll := ll + 1;
    }
  }

  /** `do --hh; while (pivot < a[hh])` */
  method ScanDown<T(!new)>(lt: (T, T) -> bool, a: array<T>, low: nat, high: nat, ll: int, from: int) returns (hh: int)
    requires low + 2 <= high < a.Length && Scanned(lt, a[..], low, high, ll, from)
    ensures low < hh < from && Le(lt, a[hh], a[low])
    ensures forall j :: hh < j < from ==> lt(a[low], a[j])
  {
    ghost var stop := if ll < from then ll else from - 1;
    assert Le(lt, a[..][stop], a[..][low]);
    hh := from - 1;
    while lt(a[low], a[hh])
      invariant stop <= hh < from
      invariant forall j :: hh < j < from ==> lt(a[low], a[j])
      decreases hh - stop
    {
      hh := hh - 1;
    }
  }

  /** Two elements on the wrong sides change places. */
  lemma ScannedOn<T(!new)>(lt: (T, T) -> bool, s: seq<T>, low: nat, high: nat, ll: int, hh: int, ll': int, hh': int)
    requires WeakOrder(lt) && low + 2 <= high < |s| && Scanned(lt, s, low, high, ll, hh)
    requires ll < ll' <= high && Le(lt, s[low], s[ll']) && forall i :: ll < i < ll' ==> lt(s[i], s[low])
    requires low < hh' < hh && Le(lt, s[hh'], s[low]) && forall j :: hh' < j < hh ==> lt(s[low], s[j])
    ensures ll' <= hh' ==> Scanned(lt, Swapped(s, ll', hh'), low, high, ll', hh')
    ensures hh' < ll' ==> Parted(lt, Swapped(s, low, hh'), low, high, ll', hh')
  {
    hide WeakOrder;
    var v := s[low];
    Total(lt, v, v);
    forall i | low <= i < ll' ensures Le(lt, s[i], v) {
      if i > ll { Total(lt, s[i], v); }
    }
    forall j | hh' < j <= high ensures Le(lt, v, s[j]) {
      if j < hh { Total(lt, v, s[j]); }
    }
  }

  /** Partitions the window around its first element. */
  method Partition<T(!new)>(lt: (T, T) -> bool, a: array<T>, low: nat, high: nat, ghost k: nat) returns (ll: int, hh: int)
    requires WeakOrder(lt) && low + 2 <= high < a.Length && Window(lt, a[..], low, high, k)
    requires Primed(lt, a[..], low, high)
    modifies a
    ensures Window(lt, a[..], low, high, k) && multiset(a[..]) == multiset(old(a[..]))
    ensures Parted(lt, a[..], low, high, ll, hh)
  {
    hide Window, WeakOrder, Scanned, Parted;
    ll, hh := low + 1, high;
    ScannedInit(lt, a[..], low, high);
    while true
      invariant Window(lt, a[..], low, high, k) && multiset(a[..]) == multiset(old(a[..]))
      invariant Scanned(lt, a[..], low, high, ll, hh)
      decreases hh - ll
    {
      ScannedBounds(lt, a[..], low, high, ll, hh);
      var up := ScanUp(lt, a, low, high, ll, hh);
      var down := ScanDown(lt, a, low, high, ll, hh);
      ScannedOn(lt, a[..], low, high, ll, hh, up, down);
      ll, hh := up, down;
      if hh < ll { break; }
      SwapIn(lt, a, ll, hh, low, high, k);
    }
    SwapIn(lt, a, low, hh, low, high, k);
  }

  lemma ScannedInit<T(!new)>(lt: (T, T) -> bool, s: seq<T>, low: nat, high: nat)
    requires WeakOrder(lt) && low + 2 <= high < |s| && Primed(lt, s, low, high)
    ensures Scanned(lt, s, low, high, low + 1, high)
  {
    Total(lt, s[low], s[low]);
  }

  lemma ScannedBounds<T>(lt: (T, T) -> bool, s: seq<T>, low: nat, high: nat, ll: int, hh: int)
    requires low + 2 <= high < |s| && Scanned(lt, s, low, high, ll, hh)
    ensures low < ll <= hh <= high
  {
  }

  // ---------- the rank ----------

  /** How many elements of s are less than v, and how many are not greater. */
  function Less<T>(lt: (T, T) -> bool, s: seq<T>, v: T): nat {
    if s == [] then 0 else (if lt(s[0], v) then 1 else 0) + Less(lt, s[1..], v)
  }

  function NotGreater<T>(lt: (T, T) -> bool, s: seq<T>, v: T): nat {
    if s == [] then 0 else (if Le(lt, s[0], v) then 1 else 0) + NotGreater(lt, s[1..], v)
  }

  lemma {:induction false} LessSplit<T>(lt: (T, T) -> bool, a: seq<T>, b: seq<T>, v: T)
    ensures Less(lt, a + b, v) == Less(lt, a, v) + Less(lt, b, v)
    ensures NotGreater(lt, a + b, v) == NotGreater(lt, a, v) + NotGreater(lt, b, v)
  {
    if a == [] {
      assert a + b == b;
    } else {
      assert (a + b)[1..] == a[1..] + b;
      LessSplit(lt, a[1..], b, v);
    }
  }

  lemma {:induction false} LessBounds<T>(lt: (T, T) -> bool, s: seq<T>, v: T)
    ensures Less(lt, s, v) <= |s|
    ensures (forall i :: 0 <= i < |s| ==> Le(lt, v, s[i])) ==> Less(lt, s, v) == 0
    ensures (forall i :: 0 <= i < |s| ==> Le(lt, s[i], v)) ==> NotGreater(lt, s, v) == |s|
  {
    if s != [] { LessBounds(lt, s[1..], v); }
  }

  /** The result has exactly its rank: at most kk elements are less than it, and more than kk are not
      greater. */
  lemma FinalRank<T(!new)>(lt: (T, T) -> bool, s: seq<T>, k: nat)
    requires WeakOrder(lt) && k < |s| && Final(lt, s, k)
    ensures Less(lt, s, s[k]) <= k < NotGreater(lt, s, s[k])
  {
    var v := s[k];
    Total(lt, v, v);
    var a, b := s[..k], s[k..];
    assert s == a + b;
    LessSplit(lt, a, b, v);
    LessBounds(lt, a, v);
    LessBounds(lt, b, v);
    var c, d := s[..k + 1], s[k + 1..];
    assert s == c + d;
    LessSplit(lt, c, d, v);
    LessBounds(lt, c, v);
  }

  lemma LessWithout<T>(lt: (T, T) -> bool, r: seq<T>, i: nat, v: T)
    requires i < |r|
    ensures var rest := r[..i] + r[i + 1..];
      && multiset(r) == multiset(rest) + multiset{r[i]}
      && Less(lt, r, v) == (if lt(r[i], v) then 1 else 0) + Less(lt, rest, v)
      && NotGreater(lt, r, v) == (if Le(lt, r[i], v) then 1 else 0) + NotGreater(lt, rest, v)
  {
    var x, a, b := r[i], r[..i], r[i + 1..];
    assert r == a + ([x] + b) && ([x] + b)[1..] == b;
    LessSplit(lt, a, [x] + b, v);
    LessSplit(lt, a, b, v);
  }

  lemma Cancel<T>(a: multiset<T>, b: multiset<T>, c: multiset<T>)
    requires a + c == b + c
    ensures a == b
  {
    assert a == (a + c) - c && b == (b + c) - c;
  }

  lemma WithoutOne<T>(s: seq<T>, i: nat)
    requires i < |s|
    ensures multiset(s) == multiset(s[..i] + s[i + 1..]) + multiset{s[i]}
  {
    assert s == s[..i] + [s[i]] + s[i + 1..];
  }

  /** The place of s's first element in r; without it they are still permutations. */
  lemma FirstIn<T>(s: seq<T>, r: seq<T>) returns (i: nat)
    requires multiset(s) == multiset(r) && s != []
    ensures i < |r| && r[i] == s[0] && multiset(s[1..]) == multiset(r[..i] + r[i + 1..])
  {
    assert s[0] in multiset(s);
    i :| 0 <= i < |r| && r[i] == s[0];
    WithoutOne(r, i);
    WithoutOne(s, 0);
    assert s[..0] + s[1..] == s[1..];
    Cancel(multiset(s[1..]), multiset(r[..i] + r[i + 1..]), multiset{s[0]});
  }

  lemma NoneIn<T>(r: seq<T>)
    requires multiset(r) == multiset{}
    ensures r == []
  {
    assert |multiset(r)| == |r|;
  }

  /** Counting does not depend on the order, so the rank is one in the original array. */
  lemma {:induction false} LessPermuted<T>(lt: (T, T) -> bool, s: seq<T>, r: seq<T>, v: T)
    requires multiset(s) == multiset(r)
    ensures Less(lt, s, v) == Less(lt, r, v) && NotGreater(lt, s, v) == NotGreater(lt, r, v)
  {
    hide Less, NotGreater;
    if s == [] {
      NoneIn(r);
    } else {
      var i := FirstIn(s, r);
      LessWithout(lt, r, i, v);
      LessWithout(lt, s, 0, v);
      assert s[..0] + s[0 + 1..] == s[1..];
      LessPermuted(lt, s[1..], r[..i] + r[i + 1..], v);
    }
  }

  lemma Ranked<T(!new)>(lt: (T, T) -> bool, s: seq<T>, r: seq<T>, k: nat)
    requires WeakOrder(lt) && multiset(s) == multiset(r) && k < |r| && Final(lt, r, k)
    ensures Less(lt, s, r[k]) <= k < NotGreater(lt, s, r[k])
  {
    FinalRank(lt, r, k);
    LessPermuted(lt, s, r, r[k]);
  }

  // ---------- the program ----------

  /** `ks_ksmall`: the element of rank kk. */
  method KSmall<T(!new)>(lt: (T, T) -> bool, a: array<T>, kk: nat) returns (r: T)
    requires WeakOrder(lt) && kk < a.Length
    modifies a
    ensures multiset(a[..]) == multiset(old(a[..]))
    ensures r == a[kk] && Final(lt, a[..], kk)
    ensures Less(lt, old(a[..]), r) <= kk < NotGreater(lt, old(a[..]), r)
  {
    hide WeakOrder, Window, Parted, Primed;
    ghost var s := a[..];
    var low, high := 0, a.Length - 1;
    WholeWindow(lt, a[..], kk);
    while true
      invariant Window(lt, a[..], low, high, kk) && multiset(a[..]) == multiset(old(a[..]))
      decreases high - low
    {
      WindowBounds(lt, a[..], low, high, kk);
      if high <= low {
        Closed(lt, a[..], low, high, kk);
        Ranked(lt, s, a[..], kk);
        return a[kk];
      }
      if high == low + 1 {
        if lt(a[high], a[low]) {
          Total(lt, a[high], a[low]);
          SwapIn(lt, a, low, high, low, high, kk);
        }
        ClosedPair(lt, a[..], low, high, kk);
        Ranked(lt, s, a[..], kk);
        return a[kk];
      }
      MedianFirst(lt, a, low, high, kk);
      var ll, hh := Partition(lt, a, low, high, kk);
      PartedBounds(lt, a[..], low, high, ll, hh);
      Narrow(lt, a[..], low, high, kk, ll, hh);
      if hh <= kk { low := ll; }
      if hh >= kk { high := hh - 1; }
    }
  }

  lemma PartedBounds<T>(lt: (T, T) -> bool, s: seq<T>, low: int, high: int, ll: int, hh: int)
    requires Parted(lt, s, low, high, ll, hh)
    ensures 0 <= low < hh < ll <= high
  {
  }

  lemma WholeWindow<T>(lt: (T, T) -> bool, s: seq<T>, k: nat)
    requires k < |s|
    ensures Window(lt, s, 0, |s| - 1, k)
  {
  }

  /** A window of at most one element has k final. */
  lemma Closed<T>(lt: (T, T) -> bool, s: seq<T>, low: int, high: int, k: nat)
    requires Window(lt, s, low, high, k) && high <= low
    ensures Final(lt, s, k)
  {
  }

  lemma ClosedPair<T>(lt: (T, T) -> bool, s: seq<T>, low: int, high: int, k: nat)
    requires Window(lt, s, low, high, k) && high == low + 1 && Le(lt, s[low], s[high])
    ensures Final(lt, s, k)
  {
  }
}
