/** The number theory of double hashing: an odd stride over a table of 2^p buckets visits every
    bucket exactly once before it returns to where it started. */
module Probe {
  import opened Arith
  import opened Bits

  /** The bucket reached after t probes. */
  function Slot(start: nat, stride: nat, n: nat, t: nat): (i: nat)
    requires n > 0
    ensures i < n
  {
    (start + t * stride) % n
  }

  /** The inverse of an odd stride modulo 2^p, one bit at a time. */
  function Inverse(stride: nat, p: nat): nat {
    if p == 0 then 0
    else
      var u := Inverse(stride, p - 1);
      if (u * stride) % Pow2(p) == 1 then u else u + Pow2(p - 1)
  }

  lemma {:induction false} InverseCorrect(stride: nat, p: nat)
    requires stride % 2 == 1
    ensures (Inverse(stride, p) * stride - 1) % Pow2(p) == 0
  {
    if p > 0 {
      var m, u := Pow2(p - 1), Inverse(stride, p - 1);
      InverseCorrect(stride, p - 1);
      LiftInverse(stride, u, m);
    }
  }

  lemma LiftInverse(stride: nat, u: nat, m: nat)
    requires stride % 2 == 1 && m > 0 && (u * stride - 1) % m == 0
    ensures var v := if (u * stride) % (2 * m) == 1 then u else u + m;
            (v * stride - 1) % (2 * m) == 0
  {
    var x, q := u * stride, (u * stride - 1) / m;
    QuotientOf(x - 1, m, q);
    if x % (2 * m) == 1 {
      LessOne(x, 2 * m);
    } else {
      var h, g := q / 2, stride / 2;
      if q % 2 == 0 {
        EvenQuotient(x, m, q, h);
        DivUnique(x, 2 * m, h, 1);
      }
      OddQuotient(stride, u, m, q, h, g);
      DivUnique((u + m) * stride - 1, 2 * m, h + g + 1, 0);
    }
  }

  lemma QuotientOf(x: int, m: nat, q: int)
    requires m > 0 && x % m == 0 && q == x / m
    ensures x == m * q
  {
  }

  lemma LessOne(x: int, d: nat)
    requires d > 1 && x % d == 1
    ensures (x - 1) % d == 0
  {
    DivUnique(1, d, 0, 1);
    ModEqual(x, 1, d);
  }

  lemma EvenQuotient(x: int, m: int, q: int, h: int)
    requires x - 1 == m * q && q == 2 * h
    ensures x == (2 * m) * h + 1
  {
  }

  lemma OddQuotient(stride: int, u: int, m: int, q: int, h: int, g: int)
    requires u * stride - 1 == m * q && q == 2 * h + 1 && stride == 2 * g + 1
    ensures (u + m) * stride - 1 == (2 * m) * (h + g + 1)
  {
    calc {
      (u + m) * stride - 1;
      u * stride - 1 + m * stride;
      m * q + m * stride;
      m * (2 * h + 1) + m * (2 * g + 1);
      (2 * m) * (h + g + 1);
    }
  }

  /** The number of probes after which bucket x is reached. */
  function TimeOf(start: nat, stride: nat, p: nat, x: nat): nat {
    ((x - start) * Inverse(stride, p)) % Pow2(p)
  }

  lemma SlotOfTime(start: nat, stride: nat, p: nat, x: nat)
    requires stride % 2 == 1 && x < Pow2(p)
    ensures TimeOf(start, stride, p, x) < Pow2(p)
    ensures Slot(start, stride, Pow2(p), TimeOf(start, stride, p, x)) == x
  {
    hide Pow2, Inverse;
    var n, u, e := Pow2(p), Inverse(stride, p), x - start;
    InverseCorrect(stride, p);
    var q, t := QuotRem(e * u, n);
    var w, zero := QuotRem(u * stride - 1, n);
    var c := SolveStride(e, u, stride, n, q, t, w);
    SlotFrom(start, stride, n, t, x, c);
  }

  lemma SlotFrom(start: nat, stride: nat, n: nat, t: nat, x: nat, c: int)
    requires x < n && start + t * stride == x + n * c
    ensures Slot(start, stride, n, t) == x
  {
    DivUnique(start + t * stride, n, c, x);
  }

  lemma SolveStride(e: int, u: int, stride: int, n: int, q: int, t: int, w: int) returns (c: int)
    requires e * u == n * q + t && u * stride == n * w + 1
    ensures t * stride == e + n * c
  {
    c := e * w - q * stride;
    calc {
      t * stride;
      (e * u - n * q) * stride;
      e * (u * stride) - n * (q * stride);
      e * (n * w + 1) - n * (q * stride);
      e + n * (e * w - q * stride);
    }
  }

  lemma SlotInjective(start: nat, stride: nat, p: nat, s: nat, t: nat)
    requires stride % 2 == 1 && s < Pow2(p) && t < Pow2(p)
    requires Slot(start, stride, Pow2(p), s) == Slot(start, stride, Pow2(p), t)
    ensures s == t
  {
    var n, u, d := Pow2(p), Inverse(stride, p), s - t;
    InverseCorrect(stride, p);
    var k := SlotDifference(start, stride, n, s, t);
    var w, zero := QuotRem(u * stride - 1, n);
    var c := CancelStride(d, stride, u, n, k, w);
    SmallMultiple(d, n, c);
  }

  lemma SlotDifference(start: nat, stride: nat, n: nat, s: nat, t: nat) returns (k: int)
    requires n > 0 && Slot(start, stride, n, s) == Slot(start, stride, n, t)
    ensures (s - t) * stride == n * k
  {
    var a, b := start + s * stride, start + t * stride;
    var i, r := QuotRem(a, n);
    var j, r' := QuotRem(b, n);
    Distribute(n, i, j);
    k := i - j;
  }

  lemma CancelStride(d: int, stride: int, u: int, n: int, k: int, w: int) returns (c: int)
    requires d * stride == n * k && u * stride == n * w + 1
    ensures d == n * c
  {
    c := k * u - d * w;
    calc {
      n * (k * u - d * w);
      (n * k) * u - d * (n * w);
      (d * stride) * u - d * (u * stride - 1);
      d;
    }
  }

  lemma SmallMultiple(d: int, n: int, c: int)
    requires n > 0 && d == n * c && -n < d < n
    ensures d == 0
  {
    if c > 0 {
      MulAtLeast(n, c);
    } else if c < 0 {
      MulAtLeast(n, -c);
    }
  }

  lemma SlotIs(start: nat, stride: nat, n: nat, t: nat)
    requires n > 0
    ensures Slot(start, stride, n, t) == (start + t * stride) % n
  {
  }

  lemma OneMore(stride: nat, t: nat)
    ensures (t + 1) * stride == t * stride + stride
  {
  }

  lemma SlotNext(start: nat, stride: nat, n: nat, t: nat)
    requires n > 0
    ensures Slot(start, stride, n, t + 1) == (Slot(start, stride, n, t) + stride) % n
  {
    hide *;
    SlotIs(start, stride, n, t);
    SlotIs(start, stride, n, t + 1);
    OneMore(stride, t);
    ModAdd(start + t * stride, stride, n);
  }

  /** Where the probing of a key starts and how far it jumps. */
  datatype Home = Home(start: nat, stride: nat)

  predicate Fits(h: Home, n: nat) {
    h.start < n && h.stride < n && h.stride % 2 == 1
  }

  /** The bucket reached after t steps `i = (i + inc) & mask`. */
  function Walk(h: Home, n: nat, t: nat): (i: nat)
    requires Fits(h, n)
    ensures i < n
  {
    if t == 0 then h.start
    else
      var i := Walk(h, n, t - 1) + h.stride;
      if i < n then i else i - n
  }

  lemma MaskedStep(i: nat, stride: nat, n: nat)
    requires IsPow2(n) && i < n && stride < n
    ensures And(i + stride, n - 1) == if i + stride < n then i + stride else i + stride - n
  {
    AndMask(i + stride, Log2(n));
    DivUnique(i + stride, n, if i + stride < n then 0 else 1, if i + stride < n then i + stride else i + stride - n);
  }

  lemma {:induction false} WalkIsSlot(h: Home, n: nat, t: nat)
    requires Fits(h, n)
    ensures Walk(h, n, t) == Slot(h.start, h.stride, n, t)
  {
    if t == 0 {
      DivUnique(h.start, n, 0, h.start);
    } else {
      WalkIsSlot(h, n, t - 1);
      SlotNext(h.start, h.stride, n, t - 1);
      var i := Walk(h, n, t - 1) + h.stride;
      DivUnique(i, n, if i < n then 0 else 1, if i < n then i else i - n);
    }
  }

  /** Every bucket is visited at exactly one of the first n probes. */
  lemma FullCycle(h: Home, n: nat, x: nat)
    requires Fits(h, n) && IsPow2(n) && x < n
    ensures exists t :: 0 <= t < n && Walk(h, n, t) == x
    ensures forall s, t :: 0 <= s < n && 0 <= t < n && Walk(h, n, s) == x && Walk(h, n, t) == x ==> s == t
  {
    var p := Log2(n);
    SlotOfTime(h.start, h.stride, p, x);
    WalkIsSlot(h, n, TimeOf(h.start, h.stride, p, x));
    forall s, t | 0 <= s < n && 0 <= t < n && Walk(h, n, s) == x && Walk(h, n, t) == x
      ensures s == t
    {
      WalkIsSlot(h, n, s);
      WalkIsSlot(h, n, t);
      SlotInjective(h.start, h.stride, p, s, t);
    }
  }

  /** After n probes the walk is back where it started, and not before. */
  lemma BackAtStart(h: Home, n: nat, t: nat)
    requires Fits(h, n) && IsPow2(n) && 0 < t <= n
    ensures Walk(h, n, t) == h.start <==> t == n
  {
    WalkIsSlot(h, n, t);
    WalkIsSlot(h, n, 0);
    if t < n {
      if Walk(h, n, t) == h.start { SlotInjective(h.start, h.stride, Log2(n), 0, t); }
    } else {
      ModShift(h.start, n, h.stride);
    }
  }

  /** `k & mask` */
  function StartOf(k: u32, n: nat): nat
    requires n > 0
  {
    And(k, n - 1)
  }

  /** `((k>>3 ^ k<<3) | 1) & mask` */
  function StrideOf(k: u32, n: nat): nat
    requires n > 0
  {
    And(Or(Xor(k / 8, (k * 8) % WORD), 1), n - 1)
  }

  function HomeOf(k: u32, n: nat): Home {
    if n == 0 then Home(0, 0) else Home(StartOf(k, n), StrideOf(k, n))
  }

  lemma OrOneIsOdd(x: nat)
    ensures Or(x, 1) % 2 == 1
  {
  }

  lemma MaskedOdd(x: nat, p: nat)
    requires x % 2 == 1 && p >= 1
    ensures And(x, Ones(p)) < Pow2(p) && And(x, Ones(p)) % 2 == 1
  {
    hide And;
    AndMask(x, p);
    ModDouble(x, Pow2(p - 1));
  }

  /** In a table of 2^p >= 2 buckets every hash value has a home: both masks stay inside the table
      and the stride is odd. */
  lemma HomeFits(k: u32, n: nat)
    requires IsPow2(n) && n >= 2
    ensures Fits(HomeOf(k, n), n)
  {
    var p, mix := Log2(n), Xor(k / 8, (k * 8) % WORD);
    AndMask(k, p);
    OrOneIsOdd(mix);
    MaskedOdd(Or(mix, 1), p);
  }
}
