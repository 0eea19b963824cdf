/** Powers of two, integer logarithm, and the unsigned widths of the source. */
module Arith {

  const U32_LIMIT: nat := 0x1_0000_0000
  const U64_LIMIT: nat := 0x1_0000_0000_0000_0000

  function Pow2(n: nat): (r: nat)
    ensures r >= 1
  {
    if n == 0 then 1 else 2 * Pow2(n - 1)
  }

  /** `u32::ilog2`: position of the highest set bit. */
  function Ilog2(n: nat): (k: nat)
    requires n >= 1
    ensures Pow2(k) <= n < Pow2(k + 1)
  {
    if n == 1 then 0 else 1 + Ilog2(n / 2)
  }

  /** Number of set bits. */
  function PopCount(n: nat): nat {
    if n == 0 then 0 else n % 2 + PopCount(n / 2)
  }

  /** Clearing the highest set bit removes exactly one set bit. */
  lemma {:induction false} PopCountClearTop(n: nat)
    requires n >= 1
    ensures PopCount(n - Pow2(Ilog2(n))) + 1 == PopCount(n)
  {
    if n > 1 {
      var p := Pow2(Ilog2(n / 2));
      assert Pow2(Ilog2(n)) == 2 * p;
      PopCountClearTop(n / 2);
      assert (n - 2 * p) / 2 == n / 2 - p && (n - 2 * p) % 2 == n % 2;
    }
  }

  lemma {:induction false} PopCountPositive(n: nat)
    ensures n > 0 ==> PopCount(n) > 0
  {
    if n > 1 {
      PopCountPositive(n / 2);
    }
  }

  lemma {:induction false} Pow2Increasing(a: nat, b: nat)
    requires a <= b
    ensures Pow2(a) <= Pow2(b)
    decreases b - a
  {
    if a < b {
      Pow2Increasing(a, b - 1);
    }
  }

  /** Division rounded down, by repeated subtraction. */
  function Quotient(n: nat, d: nat): nat
    requires d > 0
    decreases n
  {
    if n < d then 0 else 1 + Quotient(n - d, d)
  }

  /** Division rounded up. */
  function DivCeil(a: nat, b: nat): nat
    requires b > 0
  {
    Quotient(a + b - 1, b)
  }

  function Min(a: int, b: int): int {
    if a <= b then a else b
  }

  /** `amount * of / total`, rounded down: a proportional share. */
  function Share(amount: nat, of: nat, total: nat): nat
    requires total > 0
  {
    Quotient(amount * of, total)
  }

  lemma {:induction false} DivBounds(n: nat, d: nat)
    requires d > 0
    ensures Quotient(n, d) * d <= n < (Quotient(n, d) + 1) * d
    decreases n
  {
    if n >= d {
      DivBounds(n - d, d);
      assert Quotient(n, d) * d == Quotient(n - d, d) * d + d;
    }
  }

  /** Repeated subtraction is the built-in division. */
  lemma QuotientIsDivision(n: nat, d: nat)
    requires d > 0
    ensures Quotient(n, d) == n / d
  {
    DivBounds(n, d);
    assert n == d * (n / d) + n % d;
    var q, r := Quotient(n, d), n / d;
    if q < r {
      MulMono(q + 1, r, d, d);
    }
    if r < q {
      MulMono(r + 1, q, d, d);
    }
  }

  lemma ShareIsDivision(amount: nat, of: nat, total: nat)
    requires total > 0
    ensures Share(amount, of, total) == amount * of / total
  {
    QuotientIsDivision(amount * of, total);
  }

  lemma DivCeilIsDivision(n: nat, d: nat)
    requires d > 0
    ensures DivCeil(n, d) == (n + d - 1) / d
  {
    QuotientIsDivision(n + d - 1, d);
  }

  lemma QuotientMono(m: nat, n: nat, d: nat)
    requires d > 0 && m <= n
    ensures Quotient(m, d) <= Quotient(n, d)
  {
    DivBounds(m, d);
    DivBounds(n, d);
    if Quotient(m, d) > Quotient(n, d) {
      MulMono(Quotient(n, d) + 1, Quotient(m, d), d, d);
    }
  }

  lemma DivCeilBounds(n: nat, d: nat)
    requires d > 0
    ensures n <= DivCeil(n, d) * d < n + d
  {
    DivBounds(n + d - 1, d);
  }

  lemma MulMono(a: nat, b: nat, c: nat, d: nat)
    requires a <= b && c <= d
    ensures a * c <= b * d
  {
    assert a * c <= b * c <= b * d;
  }

  lemma SquareMono(a: nat, b: nat)
    requires a * a < b * b
    ensures a < b
  {
    if a >= b {
      MulMono(b, a, b, a);
    }
  }

  lemma MulCancel(a: nat, b: nat, c: nat)
    requires c > 0 && a * c <= b * c
    ensures a <= b
  {
    assert (b + 1) * c == b * c + c;
    if a > b {
      MulMono(b + 1, a, c, c);
    }
  }

  lemma ShareBounds(amount: nat, of: nat, total: nat, m: nat)
    requires total > 0 && m <= Share(amount, of, total)
    ensures m * total <= amount * of
  {
    DivBounds(amount * of, total);
    MulMono(m, Share(amount, of, total), total, total);
  }

  ghost predicate Counts(p: nat -> bool, i: nat) {
    p(i) ==> p(i + 1)
  }

  /** What holds of zero and passes from each number to the next holds of all. */
  lemma {:induction false} CountUp(p: nat -> bool, n: nat)
    requires p(0) && forall i: nat {:trigger Counts(p, i)} :: Counts(p, i)
    ensures p(n)
  {
    if n > 0 {
      CountUp(p, n - 1);
      assert Counts(p, n - 1);
    }
  }
}
