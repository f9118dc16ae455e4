/** Rounding a request size up to the transfer alignment, and arithmetic on chunk boundaries. */
module Alignment {
  function Pow2(k: nat): (r: nat)
    ensures r > 0
  {
    if k == 0 then 1 else 2 * Pow2(k - 1)
  }

  /** The value with its `k` low bits cleared: what masking with the complement of 2^k - 1 does. */
  function ClearLowBits(x: nat, k: nat): nat {
    if k == 0 then x else 2 * ClearLowBits(x / 2, k - 1)
  }

  function AlignUp(value: nat, k: nat): nat { ClearLowBits(value + (Pow2(k) - 1), k) }

  lemma Doubled(c: nat, p: nat, q: nat)
    requires c == p * q
    ensures 2 * c == (2 * p) * q
  {
  }

  /** Clearing the low bits takes off the remainder. */
  lemma {:induction false} ClearLowBitsRemainder(x: nat, k: nat)
    ensures ClearLowBits(x, k) % Pow2(k) == 0 && ClearLowBits(x, k) <= x < ClearLowBits(x, k) + Pow2(k)
  {
    if k > 0 {
      ClearLowBitsRemainder(x / 2, k - 1);
      LowBitsStep(x, ClearLowBits(x / 2, k - 1), Pow2(k - 1));
    }
  }

  lemma LowBitsStep(x: nat, c: nat, p: nat)
    requires p > 0 && c % p == 0 && c <= x / 2 < c + p
    ensures (2 * c) % (2 * p) == 0 && 2 * c <= x < 2 * c + 2 * p
  {
    var q := c / p;
    assert c == p * q;
    Doubled(c, p, q);
    MultipleRemainder(q, 2 * p);
  }

  lemma ProductGap(d: int, n: int)
    requires n >= 0
    ensures d >= 1 ==> d * n >= n
    ensures d <= -1 ==> d * n <= -n
  {
    if d >= 1 {
      assert d * n == n + (d - 1) * n && (d - 1) * n >= 0;
    } else if d <= -1 {
      assert d * n == -n + (d + 1) * n && (-(d + 1)) * n >= 0;
    }
  }

  lemma UniqueRemainder(x: nat, n: nat, q: nat, r: nat)
    requires n > 0 && x == q * n + r && r < n
    ensures x % n == r && x / n == q
  {
    var a, b := x / n, x % n;
    assert x == a * n + b;
    assert (a - q) * n == a * n - q * n;
    ProductGap(a - q, n);
  }

  lemma MultipleRemainder(q: nat, n: nat)
    requires n > 0
    ensures (n * q) % n == 0
  {
    UniqueRemainder(n * q, n, q, 0);
  }

  lemma AddWhole(x: nat, n: nat)
    requires n > 0
    ensures (x + n) % n == x % n
  {
    UniqueRemainder(x + n, n, x / n + 1, x % n);
  }

  /** `AlignUp` gives the least multiple of the alignment that is not below the value. */
  lemma AlignUpLeast(value: nat, k: nat)
    ensures AlignUp(value, k) % Pow2(k) == 0 && value <= AlignUp(value, k) < value + Pow2(k)
    ensures forall m: nat :: m % Pow2(k) == 0 && value <= m ==> AlignUp(value, k) <= m
  {
    ClearLowBitsRemainder(value + (Pow2(k) - 1), k);
    forall m: nat | m % Pow2(k) == 0 && value <= m ensures AlignUp(value, k) <= m {
      if m < AlignUp(value, k) {
        MultiplesApart(m, AlignUp(value, k), Pow2(k));
      }
    }
  }

  lemma MultiplesApart(a: nat, b: nat, n: nat)
    requires n > 0 && a % n == 0 && b % n == 0 && a < b
    ensures b >= a + n
  {
    var d := b / n - a / n;
    assert b - a == d * n;
    ProductGap(d, n);
    ProductGap(-d, n);
  }

  lemma AlignUpMonotone(a: nat, b: nat, k: nat)
    requires a <= b
    ensures AlignUp(a, k) <= AlignUp(b, k)
  {
    AlignUpLeast(a, k);
    AlignUpLeast(b, k);
  }
}
