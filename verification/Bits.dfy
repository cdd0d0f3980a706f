/** Machine-word arithmetic of the C sources, on natural numbers.

    The bitwise operators are defined bit by bit; the lemmas give the arithmetical meaning of the
    idioms the sources rely on: masking by a power of two minus one, and smearing the top bit
    downwards to find a power of two. */
module Bits {
  import opened Arith

  const WORD: nat := 0x1_0000_0000

  /** A 32-bit unsigned value (`khint_t`, `unsigned int`). */
  type u32 = x: nat | x < WORD

  function Pow2(n: nat): (r: nat)
    ensures r > 0
  {
    if n == 0 then 1 else 2 * Pow2(n - 1)
  }

  /** The n low bits set. */
  function Ones(n: nat): nat {
    Pow2(n) - 1
  }

  function Log2(n: nat): nat {
    if n <= 1 then 0 else 1 + Log2(n / 2)
  }

  /** `x >> s` */
  function Shr(x: nat, s: nat): nat {
    QuotientNonnegative(x, Pow2(s));
    x / Pow2(s)
  }

  predicate IsPow2(n: nat) {
    n == Pow2(Log2(n))
  }

  function And(a: nat, b: nat): nat {
    if a == 0 || b == 0 then 0
    else 2 * And(a / 2, b / 2) + (if a % 2 == 1 && b % 2 == 1 then 1 else 0)
  }

  function Or(a: nat, b: nat): nat
    decreases a + b
  {
    if a == 0 then b else if b == 0 then a
    else 2 * Or(a / 2, b / 2) + (if a % 2 == 1 || b % 2 == 1 then 1 else 0)
  }

  function Xor(a: nat, b: nat): nat
    decreases a + b
  {
    if a == 0 then b else if b == 0 then a
    else 2 * Xor(a / 2, b / 2) + (a + b) % 2
  }

  lemma {:induction false} Pow2Add(a: nat, b: nat)
    ensures Pow2(a + b) == Pow2(a) * Pow2(b)
  {
    if a > 0 {
      Pow2Add(a - 1, b);
      assert Pow2(a + b) == 2 * Pow2(a - 1 + b);
    }
  }

  lemma {:induction false} Pow2Mono(a: nat, b: nat)
    requires a <= b
    ensures Pow2(a) <= Pow2(b)
  {
    if a < b { Pow2Mono(a, b - 1); }
  }

  lemma Pow2Reflects(a: nat, b: nat)
    requires Pow2(a) < Pow2(b)
    ensures a < b
  {
    if b <= a { Pow2Mono(b, a); }
  }

  lemma {:induction false} Log2Pow2(p: nat)
    ensures Log2(Pow2(p)) == p && IsPow2(Pow2(p))
  {
    if p > 0 { Log2Pow2(p - 1); }
  }

  lemma Pow2Values()
    ensures Pow2(30) == 0x4000_0000 && Pow2(31) == 0x8000_0000 && Pow2(32) == WORD
  {
    assert Pow2(8) == 256;
    Pow2Add(8, 8);
    assert Pow2(16) == 0x1_0000;
    Pow2Add(14, 16);
    assert Pow2(14) == 0x4000;
  }

  lemma DivPow2(x: nat, a: nat, b: nat)
    ensures Shr(Shr(x, a), b) == Shr(x, a + b)
  {
    Pow2Add(a, b);
    DivDiv(x, Pow2(a), Pow2(b));
  }

  lemma AndOdd(a: nat, b: nat)
    requires a > 0
    ensures And(a, 2 * b + 1) == 2 * And(a / 2, b) + a % 2
  {
    assert (2 * b + 1) / 2 == b && (2 * b + 1) % 2 == 1;
  }

  lemma AndNothing(k: nat, p: nat)
    requires p == 0 || k == 0
    ensures And(k, Ones(p)) == k % Pow2(p)
  {
    if k == 0 { DivUnique(0, Pow2(p), 0, 0); }
  }

  /** `k & (n - 1)` is `k mod n` when n is a power of two. */
  lemma {:induction false} AndMask(k: nat, p: nat)
    ensures And(k, Ones(p)) == k % Pow2(p)
  {
    hide And;
    if p > 0 && k > 0 {
      AndMask(k / 2, p - 1);
      var m := Pow2(p - 1);
      assert Ones(p) == 2 * Ones(p - 1) + 1;
      AndOdd(k, Ones(p - 1));
      ModDouble(k, m);
    } else {
      AndNothing(k, p);
    }
  }

  lemma ModDouble(k: nat, m: nat)
    requires m > 0
    ensures k % (2 * m) == 2 * (k / 2 % m) + k % 2
  {
    var h := k / 2;
    var q, r := h / m, h % m;
    assert h == m * q + r;
    Distribute(2, m * q, r);
    Assoc(2, m, q);
    DivUnique(k, 2 * m, q, 2 * r + k % 2);
  }

  lemma OrHalf(x: nat, y: nat)
    ensures Or(x, y) / 2 == Or(x / 2, y / 2)
  {
  }

  lemma {:induction false} OrDiv(x: nat, y: nat, a: nat)
    ensures Shr(Or(x, y), a) == Or(Shr(x, a), Shr(y, a))
  {
    if a > 0 {
      OrDiv(x / 2, y / 2, a - 1);
      HalfThenDiv(Or(x, y), a);
      HalfThenDiv(x, a);
      HalfThenDiv(y, a);
      OrHalf(x, y);
    }
  }

  lemma HalfThenDiv(x: nat, a: nat)
    requires a > 0
    ensures Shr(x / 2, a - 1) == Shr(x, a)
  {
    DivDiv(x, 2, Pow2(a - 1));
  }

  /** A number whose top m of m+s bits are ones, or-ed with q low ones that reach those bits. */
  lemma {:induction false} OrOnes(x: nat, s: nat, m: nat, q: nat)
    requires Shr(x, s) == Ones(m) && s <= q <= m + s
    ensures Or(x, Ones(q)) == Ones(m + s)
    decreases m + s
  {
    if q > 0 {
      assert Ones(q) / 2 == Ones(q - 1) && Ones(q) % 2 == 1;
      OrWithOdd(x, Ones(q));
      if s > 0 {
        HalfThenDiv(x, s);
        OrOnes(x / 2, s - 1, m, q - 1);
      } else {
        assert Ones(m) / 2 == Ones(m - 1);
        OrOnes(x / 2, 0, m - 1, q - 1);
      }
    }
  }

  lemma OrWithOdd(x: nat, y: nat)
    requires y % 2 == 1
    ensures Or(x, y) == 2 * Or(x / 2, y / 2) + 1
  {
  }

  lemma {:induction false} OnesDiv(m: nat, d: nat)
    ensures Shr(Ones(m), d) == if d <= m then Ones(m - d) else 0
  {
    if d <= m {
      Pow2Add(d, m - d);
      var a, b := Pow2(d), Pow2(m - d);
      Distribute(a, b, 1);
      DivUnique(Ones(m), a, b - 1, a - 1);
    } else {
      Pow2Mono(m, d);
      DivUnique(Ones(m), Pow2(d), 0, Ones(m));
    }
  }

  /** The top m bits of a (p+1)-bit number are ones. */
  predicate TopOnes(j: nat, p: nat, m: nat)
    requires m <= p + 1
  {
    Shr(j, p + 1 - m) == Ones(m)
  }

  function Least(a: nat, b: nat): nat {
    if a <= b then a else b
  }

  function Fold(j: nat, s: nat): nat {
    Or(j, Shr(j, s))
  }

  lemma FoldStep(j: nat, p: nat, m: nat, s: nat)
    requires 1 <= m <= p + 1 && TopOnes(j, p, m)
    requires s <= m || m == p + 1
    ensures TopOnes(Fold(j, s), p, Least(m + s, p + 1))
  {
    var m' := Least(m + s, p + 1);
    var a, a' := p + 1 - m, p + 1 - m';
    var d := s + a' - a;
    var q := if d <= m then m - d else 0;
    assert Shr(Shr(j, s), a') == Ones(q) by {
      DivPow2(j, s, a');
      DivPow2(j, a, d);
      OnesDiv(m, d);
    }
    OrDiv(j, Shr(j, s), a');
    DivPow2(j, a', a - a');
    OrOnes(Shr(j, a'), a - a', m, q);
  }

  /** i folds with doubling shifts: `j |= j>>1; j |= j>>2; j |= j>>4; ...` */
  function Folds(j: nat, i: nat): nat
    decreases j, i
  {
    if i == 0 then j else Fold(Folds(j, i - 1), Pow2(i - 1))
  }

  /** All five folds of a 32-bit word: shifts by 1, 2, 4, 8 and 16. */
  function Smear(j: nat): nat {
    Folds(j, 5)
  }

  lemma {:induction false} FoldsFill(j: nat, p: nat, i: nat)
    requires Pow2(p) <= j < Pow2(p + 1)
    ensures TopOnes(Folds(j, i), p, Least(Pow2(i), p + 1))
  {
    if i == 0 {
      DivUnique(j, Pow2(p), 1, j - Pow2(p));
    } else {
      FoldsFill(j, p, i - 1);
      FoldStep(Folds(j, i - 1), p, Least(Pow2(i - 1), p + 1), Pow2(i - 1));
    }
  }

  /** Smearing fills every bit below the top one. */
  lemma SmearFills(j: nat, p: nat)
    requires p < 32 && Pow2(p) <= j < Pow2(p + 1)
    ensures Smear(j) == Ones(p + 1)
  {
    FoldsFill(j, p, 5);
  }

  lemma {:induction false} TopBit(j: nat)
    requires j > 0
    ensures Pow2(Log2(j)) <= j < Pow2(Log2(j) + 1)
  {
    if j > 1 { TopBit(j / 2); }
  }

  /** `--x` on a 32-bit word. */
  function Decrement(x: u32): u32 {
    if x == 0 then WORD - 1 else x - 1
  }

  /** `++x` on a 32-bit word. */
  function Increment(x: nat): u32 {
    if x + 1 < WORD then x + 1 else 0
  }

  /** `kroundup32`: decrement, smear, increment, all modulo 2^32. */
  function RoundUp32(x: u32): u32 {
    Increment(Smear(Decrement(x)))
  }

  lemma RoundUp32Above(x: u32, p: nat)
    requires p <= 30 && Pow2(p) < x <= Pow2(p + 1)
    ensures RoundUp32(x) == Pow2(p + 1)
  {
    Pow2Values();
    Pow2Mono(p + 1, 31);
    SmearFills(x - 1, p);
  }

  lemma {:induction false} FoldsZero(i: nat)
    ensures Folds(0, i) == 0
  {
    if i > 0 { FoldsZero(i - 1); }
  }

  /** 0 wraps around to 0, and 1 is a power of two already. */
  lemma RoundUp32Least(x: u32)
    requires x <= 1
    ensures RoundUp32(x) == x
  {
    if x == 1 {
      FoldsZero(5);
    } else {
      Pow2Values();
      SmearFills(Decrement(x), 31);
    }
  }

  /** Up to 2^31 the macro yields the least power of two that is at least x; 0 stays 0. */
  lemma RoundUp32IsLeast(x: u32)
    requires x <= 0x8000_0000
    ensures x == 0 ==> RoundUp32(x) == 0
    ensures x > 0 ==> IsPow2(RoundUp32(x)) && x <= RoundUp32(x) <= 0x8000_0000
    ensures forall q: nat :: 0 < x <= Pow2(q) ==> RoundUp32(x) <= Pow2(q)
  {
    hide RoundUp32, IsPow2, Log2;
    Pow2Values();
    if x <= 1 {
      RoundUp32Least(x);
      Log2Pow2(0);
    } else {
      TopBit(x - 1);
      var p := Log2(x - 1);
      Pow2Reflects(p, 31);
      RoundUp32Above(x, p);
      Pow2Mono(p + 1, 31);
      Log2Pow2(p + 1);
      forall q: nat | x <= Pow2(q) ensures RoundUp32(x) <= Pow2(q) {
        if q <= p { Pow2Mono(q, p); }
        Pow2Mono(p + 1, Largest(p + 1, q));
      }
    }
  }

  function Largest(a: nat, b: nat): nat {
    if a >= b then a else b
  }

  /** Above 2^31 the macro overflows to 0. */
  lemma RoundUp32Overflow(x: u32)
    requires x > 0x8000_0000
    ensures RoundUp32(x) == 0
  {
    Pow2Values();
    SmearFills(x - 1, 31);
  }

  lemma RoundUp32Total(x: u32)
    ensures RoundUp32(x) == 0 || (IsPow2(RoundUp32(x)) && RoundUp32(x) <= 0x8000_0000)
  {
    if x > 0x8000_0000 { RoundUp32Overflow(x); } else { RoundUp32IsLeast(x); }
  }

  /** One less than a power of two rounds up to it, one more rounds up to its double. */
  lemma RoundUp32Neighbours(n: u32)
    requires IsPow2(n) && 4 <= n <= 0x8000_0000
    ensures RoundUp32(n - 1) == n
    ensures n <= 0x4000_0000 ==> RoundUp32(n + 1) == 2 * n
  {
    Pow2Values();
    var p := Log2(n);
    assert Pow2(1) == 2 && Pow2(0) == 1;
    Pow2Reflects(p, 32);
    RoundUp32Above(n - 1, p - 1);
    if n <= 0x4000_0000 {
      Pow2Reflects(p, 31);
      RoundUp32Above(n + 1, p);
    }
  }

  lemma MultipleOfSixteen(n: nat)
    requires IsPow2(n) && n >= 16
    ensures n % 16 == 0
  {
    var p := Log2(n);
    assert Pow2(3) == 8 && Pow2(4) == 16;
    Pow2Reflects(3, p);
    Pow2Add(4, p - 4);
  }

  lemma BelowTop(n: nat)
    requires IsPow2(n) && n < 0x8000_0000
    ensures n <= 0x4000_0000
  {
    Pow2Values();
    Pow2Reflects(Log2(n), 31);
    Pow2Mono(Log2(n), 30);
  }
}
