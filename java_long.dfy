/** Java's 64-bit `long` and the two operators on it that the model layer uses:
    truncating remainder and wrapping subtraction. */
module JavaLong {

  const MIN_LONG: int := -0x8000_0000_0000_0000
  const MAX_LONG: int := 0x7FFF_FFFF_FFFF_FFFF

  /** A Java `long`. */
  newtype Long = x: int | MIN_LONG <= x <= MAX_LONG

  /** Java's `a % b` on longs: the remainder of division truncated toward zero.
      Its magnitude is what is left of `|a|` after taking out as many `|b|` as
      fit, and its sign is the dividend's (Dafny's own `%` is Euclidean, never
      negative). */
  function JavaRem(a: Long, b: Long): (r: int)
    requires b != 0
    ensures -Abs(b as int) < r < Abs(b as int)
    ensures a >= 0 ==> r >= 0
    ensures a <= 0 ==> r <= 0
  {
    var m: int := NatRem(Abs(a as int), Abs(b as int));
    if a >= 0 then m else -m
  }

  /** What is left of `n` after subtracting `m` as often as it fits. */
  function NatRem(n: nat, m: nat): (r: nat)
    requires m > 0
    ensures r < m && r <= n
    decreases n
  {
    if n < m then n else NatRem(n - m, m)
  }

  function Abs(x: int): (r: int)
    ensures r >= 0 && (r == x || r == -x)
  {
    if x < 0 then -x else x
  }

  /** Java's `a - b` on longs: the exact difference reduced into the long range
      (two's-complement wrap-around). */
  function Sub(a: Long, b: Long): (r: Long)
    ensures (r as int - (a as int - b as int)) % 0x1_0000_0000_0000_0000 == 0
    ensures MIN_LONG <= a as int - b as int <= MAX_LONG ==> r as int == a as int - b as int
  {
    Wrap(a as int - b as int)
  }

  /** The long congruent to `x` modulo 2^64. */
  function Wrap(x: int): (r: Long)
    ensures (r as int - x) % 0x1_0000_0000_0000_0000 == 0
    ensures MIN_LONG <= x <= MAX_LONG ==> r as int == x
  {
    ((x - MIN_LONG) % 0x1_0000_0000_0000_0000 + MIN_LONG) as Long
  }

  /** Repeated subtraction computes Dafny's Euclidean remainder. */
  lemma {:induction false} NatRemIsEuclidean(n: nat, m: nat)
    requires m > 0
    ensures NatRem(n, m) == n % m
  {
    if n >= m {
      NatRemIsEuclidean(n - m, m);
      assert (n - m) % m == n % m by {
        assert n == (n - m) + 1 * m;
        ShiftByMultiple(n - m, 1, m);
      }
    }
  }

  /** Adding a multiple of `m` leaves the remainder unchanged. */
  lemma ShiftByMultiple(x: int, k: int, m: int)
    requires m > 0
    ensures (x + k * m) % m == x % m
  {
    var q, r := x / m, x % m;
    var q', r' := (x + k * m) / m, (x + k * m) % m;
    assert x + k * m == (q + k) * m + r;
    assert r' - r == (q + k - q') * m;
    if q + k - q' != 0 {
      NonZeroMultipleIsLarge(q + k - q', m);
    }
  }

  /** On a non-negative dividend and a positive divisor, Java's remainder is
      Dafny's. */
  lemma JavaRemOfNonNegative(a: Long, b: Long)
    requires a >= 0 && b > 0
    ensures JavaRem(a, b) == (a as int) % (b as int)
  {
    NatRemIsEuclidean(a as int, b as int);
  }

  /** For a positive divisor and a dividend of either sign, Java's remainder is
      zero exactly when Dafny's is: divisibility does not depend on how the
      quotient is rounded. */
  lemma JavaRemZeroIff(a: Long, b: Long)
    requires b > 0
    ensures JavaRem(a, b) == 0 <==> (a as int) % (b as int) == 0
  {
    NatRemIsEuclidean(Abs(a as int), b as int);
    if a < 0 {
      DivisibleNegated(-(a as int), b as int);
    }
  }

  /** `m` divides `n` exactly when it divides `-n`. */
  lemma DivisibleNegated(n: int, m: int)
    requires m > 0
    ensures n % m == 0 <==> (-n) % m == 0
  {
    if n % m == 0 {
      assert -n == (-(n / m)) * m;
      MultipleIsDivisible(-(n / m), m);
    }
    if (-n) % m == 0 {
      assert n == (-((-n) / m)) * m;
      MultipleIsDivisible(-((-n) / m), m);
    }
  }

  /** A multiple of `m` leaves no remainder. */
  lemma MultipleIsDivisible(q: int, m: int)
    requires m > 0
    ensures (q * m) % m == 0
  {
    var d, r := (q * m) / m, (q * m) % m;
    assert q * m == d * m + r;
    assert r == (q - d) * m by {
      assert q * m - d * m == (q - d) * m;
    }
    if q - d != 0 {
      NonZeroMultipleIsLarge(q - d, m);
    }
  }

  /** A non-zero multiple of `m` is at least `m` away from zero. */
  lemma NonZeroMultipleIsLarge(t: int, m: int)
    requires m > 0 && t != 0
    ensures t * m >= m || t * m <= -m
  {
    if t > 0 {
      assert t * m == (t - 1) * m + m;
      assert (t - 1) * m >= 0;
    } else {
      assert t * m == -((-t - 1) * m) - m;
      assert (-t - 1) * m >= 0;
    }
  }

  /** Subtracting one positive long from another never wraps. */
  lemma SubOfPositivesIsExact(a: Long, b: Long)
    requires a > 0 && b > 0
    ensures Sub(a, b) as int == a as int - b as int
  {
  }
}
