/**
  Fixed-point arithmetic on integers: "ray" values carry 27 decimals, and every
  product or quotient of two rays is rounded half up.  Division truncates toward
  zero, as the big-number library does once it keeps no decimal places.
 */
module RayMath {

  const RAY := 1_000_000_000_000_000_000_000_000_000
  const HALF_RAY := 500_000_000_000_000_000_000_000_000
  const WAD_RAY_RATIO := 1_000_000_000
  const PERCENTAGE_FACTOR := 10_000
  const HALF_PERCENTAGE := 5_000
  const ONE_YEAR := 31_536_000
  const MAX_UINT_AMOUNT :=
    115792089237316195423570985008687907853269984665640564039457584007913129639935

  function Abs(n: int): nat {
    if n < 0 then -n else n
  }

  /** Division that truncates toward zero; Dafny's own `/` rounds down instead. */
  function TruncDiv(n: int, d: int): int
    requires d != 0
  {
    var magnitude := Abs(n) / Abs(d);
    if (n < 0) == (d < 0) then magnitude else -magnitude
  }

  function RayMul(a: int, b: int): int {
    TruncDiv(HALF_RAY + a * b, RAY)
  }

  function RayDiv(a: int, b: int): int
    requires b != 0
  {
    TruncDiv(TruncDiv(b, 2) + a * RAY, b)
  }

  function WadToRay(a: int): int {
    a * WAD_RAY_RATIO
  }

  function PercentMul(a: int, b: int): int {
    TruncDiv(HALF_PERCENTAGE + a * b, PERCENTAGE_FACTOR)
  }

  // ---------- truncating division ----------

  lemma QuotientBounds(n: int, d: int)
    requires n >= 0 && d > 0
    ensures 0 <= TruncDiv(n, d) == n / d
    ensures TruncDiv(n, d) * d <= n < TruncDiv(n, d) * d + d
  {
    assert n == d * (n / d) + n % d;
  }

  lemma ProductLe(k: int, a: int, b: int)
    requires k >= 0 && a <= b
    ensures k * a <= k * b
  {
  }

  lemma MultiplesCompare(p: int, q: int, d: int)
    requires d > 0
    requires p * d < q * d + d
    ensures p <= q
  {
    assert p > q ==> p * d >= (q + 1) * d;
  }

  lemma QuotientUnique(n: int, d: int, q: int)
    requires n >= 0 && d > 0
    requires q * d <= n < q * d + d
    ensures TruncDiv(n, d) == q
  {
    hide *;
    QuotientBounds(n, d);
    MultiplesCompare(TruncDiv(n, d), q, d);
    MultiplesCompare(q, TruncDiv(n, d), d);
  }

  lemma QuotientMonotone(m: int, n: int, d: int)
    requires 0 <= m <= n && d > 0
    ensures TruncDiv(m, d) <= TruncDiv(n, d)
  {
    hide *;
    QuotientBounds(m, d);
    QuotientBounds(n, d);
    MultiplesCompare(TruncDiv(m, d), TruncDiv(n, d), d);
  }

  /** A truncated quotient is at least `q` whenever the numerator is at least `q * d`, even below zero. */
  lemma QuotientAtLeast(n: int, d: int, q: int)
    requires d > 0
    requires q * d <= n
    ensures q <= TruncDiv(n, d)
  {
    if n >= 0 {
      QuotientBounds(n, d);
      MultiplesCompare(q, TruncDiv(n, d), d);
    } else {
      QuotientBounds(-n, d);
      MultiplesCompare(q, -TruncDiv(-n, d), d) by {
        assert (-TruncDiv(-n, d)) * d == -(TruncDiv(-n, d) * d);
      }
    }
  }

  // ---------- rounding bounds ----------

  /** A ray product is the nearest integer to the exact product, ties upward. */
  lemma RayMulBounds(a: int, b: int)
    requires a >= 0 && b >= 0
    ensures 0 <= RayMul(a, b)
    ensures -HALF_RAY < RayMul(a, b) * RAY - a * b <= HALF_RAY
  {
    assert a * b >= 0;
    QuotientBounds(HALF_RAY + a * b, RAY);
  }

  /** A ray quotient is within half a divisor of the exact quotient. */
  lemma RayDivBounds(a: int, b: int)
    requires a >= 0 && b > 0
    ensures 0 <= RayDiv(a, b)
    ensures -b <= 2 * (RayDiv(a, b) * b - a * RAY) <= b
    ensures RayDiv(a, b) * b <= b / 2 + a * RAY < RayDiv(a, b) * b + b
  {
    assert TruncDiv(b, 2) == b / 2;
    QuotientBounds(b / 2 + a * RAY, b);
  }

  lemma RayMulMonotone(a: int, b: int, c: int, d: int)
    requires 0 <= a <= c && 0 <= b <= d
    ensures 0 <= RayMul(a, b) <= RayMul(c, d)
  {
    assert 0 <= a * b <= c * d by {
      assert 0 <= a * b <= a * d <= c * d;
    }
    QuotientBounds(HALF_RAY + a * b, RAY);
    QuotientMonotone(HALF_RAY + a * b, HALF_RAY + c * d, RAY);
  }

  lemma RayDivMonotone(a: int, c: int, b: int)
    requires 0 <= a <= c && b > 0
    ensures 0 <= RayDiv(a, b) <= RayDiv(c, b)
  {
    assert TruncDiv(b, 2) == b / 2;
    QuotientBounds(b / 2 + a * RAY, b);
    QuotientMonotone(b / 2 + a * RAY, b / 2 + c * RAY, b);
  }

  lemma RayMulByRay(a: int)
    requires a >= 0
    ensures RayMul(a, RAY) == a == RayMul(RAY, a)
  {
    QuotientUnique(HALF_RAY + a * RAY, RAY, a);
  }

  lemma RayMulZero(a: int)
    ensures RayMul(a, 0) == 0 == RayMul(0, a)
  {
  }

  lemma RayMulCommutes(a: int, b: int)
    ensures RayMul(a, b) == RayMul(b, a)
  {
    assert a * b == b * a;
  }

  /** Multiplying by a factor of at least one ray never shrinks an amount. */
  lemma RayMulGrows(a: int, factor: int)
    requires a >= 0 && factor >= RAY
    ensures a <= RayMul(a, factor)
    ensures a <= RayMul(factor, a)
  {
    RayMulByRay(a);
    RayMulMonotone(a, RAY, a, factor);
    RayMulCommutes(a, factor);
  }

  /** A percentage of at most 100% never enlarges an amount. */
  lemma PercentMulShrinks(a: int, percentage: int)
    requires a >= 0 && 0 <= percentage <= PERCENTAGE_FACTOR
    ensures 0 <= PercentMul(a, percentage) <= a
  {
    assert 0 <= a * percentage <= a * PERCENTAGE_FACTOR;
    QuotientBounds(HALF_PERCENTAGE + a * percentage, PERCENTAGE_FACTOR);
  }

  lemma PercentMulBounds(a: int, percentage: int)
    requires a >= 0 && percentage >= 0
    ensures -HALF_PERCENTAGE <= PercentMul(a, percentage) * PERCENTAGE_FACTOR - a * percentage <= HALF_PERCENTAGE
  {
    assert a * percentage >= 0;
    QuotientBounds(HALF_PERCENTAGE + a * percentage, PERCENTAGE_FACTOR);
  }

  // ---------- the round trip of scaling ----------

  /** Unscaling by an index of at least one ray and scaling back returns the scaled amount. */
  lemma ScalingRoundTrip(scaled: int, index: int)
    requires scaled >= 0 && index >= RAY
    ensures RayDiv(RayMul(scaled, index), index) == scaled
  {
    var amount := RayMul(scaled, index);
    RayMulBounds(scaled, index);
    if index == RAY {
      RayMulByRay(scaled);
    }
    assert TruncDiv(index, 2) == index / 2;
    QuotientUnique(index / 2 + amount * RAY, index, scaled);
  }

  /** Below one ray two scaled amounts collapse into the same amount, so the round trip must fail somewhere. */
  lemma {:induction false} InjectiveScalingGrows(index: int, n: nat)
    requires index > 0
    requires forall scaled: nat :: RayDiv(RayMul(scaled, index), index) == scaled
    ensures RayMul(n, index) >= n
  {
    RayMulBounds(n, index);
    if n > 0 {
      InjectiveScalingGrows(index, n - 1);
      RayMulMonotone(n - 1, index, n, index);
      assert RayDiv(RayMul(n - 1, index), index) != RayDiv(RayMul(n, index), index);
    }
  }

  /** The scaling round trip is exact for every amount if and only if the index is at least one ray. */
  lemma ScalingExactIffIndexAtLeastRay(index: int)
    requires index > 0
    ensures (forall scaled: nat :: RayDiv(RayMul(scaled, index), index) == scaled) <==> index >= RAY
  {
    if index >= RAY {
      forall scaled: nat ensures RayDiv(RayMul(scaled, index), index) == scaled {
        ScalingRoundTrip(scaled, index);
      }
    } else if forall scaled: nat :: RayDiv(RayMul(scaled, index), index) == scaled {
      InjectiveScalingGrows(index, RAY);
      RayMulByRay(index);
    }
  }

  /** An amount that an unscaled balance covers is worth no more scaled units than the balance holds. */
  lemma ScaledCover(amount: int, scaled: int, index: int)
    requires 0 <= amount <= RayMul(scaled, index)
    requires scaled >= 0 && index >= RAY
    ensures 0 <= RayDiv(amount, index) <= scaled
  {
    RayDivMonotone(amount, RayMul(scaled, index), index);
    ScalingRoundTrip(scaled, index);
  }

  // ---------- adding to and taking from a scaled balance ----------

  /** Two amounts differ by at most one unit and half the index, counted in rays. */
  predicate Near(a: int, b: int, index: int) {
    -(2 * RAY + index) <= 2 * RAY * (a - b) <= 2 * RAY + index
  }

  lemma ScaledPlus(amount: int, scaled: int, index: int)
    requires amount >= 0 && scaled >= 0 && index >= RAY
    ensures Near(RayMul(scaled + RayDiv(amount, index), index), RayMul(scaled, index) + amount, index)
  {
    hide RayMul, RayDiv;
    var q := RayDiv(amount, index);
    RayDivBounds(amount, index);
    RayMulBounds(scaled, index);
    RayMulBounds(scaled + q, index);
    assert (scaled + q) * index == scaled * index + q * index;
  }

  lemma ScaledMinus(amount: int, scaled: int, index: int)
    requires scaled >= 0 && index >= RAY && 0 <= amount && RayDiv(amount, index) <= scaled
    ensures Near(RayMul(scaled - RayDiv(amount, index), index), RayMul(scaled, index) - amount, index)
  {
    hide RayMul, RayDiv;
    var q := RayDiv(amount, index);
    RayDivBounds(amount, index);
    RayMulBounds(scaled, index);
    RayMulBounds(scaled - q, index);
    assert (scaled - q) * index == scaled * index - q * index;
  }

  /** Rounding a product of any sign is off by at most one and a half units. */
  lemma RayMulAnySign(a: int, b: int)
    ensures -(3 * RAY) <= 2 * (RayMul(a, b) * RAY - a * b) <= 3 * RAY
  {
    var n := HALF_RAY + a * b;
    if n >= 0 {
      QuotientBounds(n, RAY);
    } else {
      QuotientBounds(-n, RAY);
    }
  }

  /** Taking off more than there is rounds a negative amount, which costs up to one unit more. */
  lemma ScaledMinusAny(amount: int, scaled: int, index: int)
    requires scaled >= 0 && index >= RAY && 0 <= amount
    ensures Near(RayMul(scaled - RayDiv(amount, index), index), RayMul(scaled, index) - amount, 2 * RAY + index)
  {
    hide RayMul, RayDiv;
    var q := RayDiv(amount, index);
    RayDivBounds(amount, index);
    RayMulBounds(scaled, index);
    RayMulAnySign(scaled - q, index);
    assert (scaled - q) * index == scaled * index - q * index;
  }
}
