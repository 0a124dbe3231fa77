/**
  How far the rounded three-term compounding factor can be from true compounding.
  Real numbers stand for the exact values that the integer code approximates.
 */
module Compounding {
  import opened RayMath
  import opened Interest

  /** True compounding: the power `base ^ n`. */
  ghost function Power(base: real, n: nat): real {
    if n == 0 then 1.0 else base * Power(base, n - 1)
  }

  /** The binomial expansion of (1 + z) ^ n cut after the third power, without rounding. */
  ghost function Expansion(z: real, n: nat): real {
    Cubic(n as real, Pairs(n) as real, Triples(n) as real, z)
  }

  ghost function Cubic(a: real, b: real, c: real, z: real): real {
    1.0 + a * z + b * (z * z) + c * (z * z * z)
  }

  ghost function InRays(a: int): real {
    a as real / RAY as real
  }

  lemma ScaleLe(k: real, a: real, b: real)
    requires k >= 0.0 && a <= b
    ensures k * a <= k * b
  {
    assert k * (b - a) >= 0.0;
  }

  lemma NonNegativeProduct(a: real, b: real)
    requires a >= 0.0 && b >= 0.0
    ensures a * b >= 0.0
  {
  }

  /** One more factor 1 + z turns the coefficients of a cubic into the next row of Pascal's triangle. */
  lemma PascalRow(a: real, b: real, c: real, a': real, b': real, c': real, z: real, row: real)
    requires z >= 0.0 && c >= 0.0
    requires row == Cubic(a, b, c, z)
    requires a' == a + 1.0 && b' == b + a && c' == c + b
    ensures Cubic(a', b', c', z) <= (1.0 + z) * row
  {
    hide Cubic;
    var square := z * z;
    var cube := z * square;
    CubicIs(a, b, c, z, square, cube);
    CubicIs(a', b', c', z, square, cube);
    FourthNonNegative(c, z, square, cube);
    Shifted(a, b, c, z, square, cube, row);
    PascalSum(a, b, c, a', b', c', z, square, cube, c * (z * cube), row, z * row);
    OneMore(z, row);
  }

  lemma FourthNonNegative(c: real, z: real, square: real, cube: real)
    requires c >= 0.0 && z >= 0.0 && square == z * z && cube == z * square
    ensures c * (z * cube) >= 0.0
  {
    NonNegativeProduct(z, z);
    NonNegativeProduct(z, square);
    NonNegativeProduct(z, cube);
    NonNegativeProduct(c, z * cube);
  }

  lemma CubicIs(a: real, b: real, c: real, z: real, square: real, cube: real)
    requires square == z * z && cube == z * square
    ensures Cubic(a, b, c, z) == 1.0 + a * z + b * square + c * cube
  {
  }

  lemma OneMore(z: real, row: real)
    ensures (1.0 + z) * row == row + z * row
  {
  }

  lemma SumTimes(sum: real, a: real, b: real, k: real)
    requires sum == a + b
    ensures sum * k == a * k + b * k
  {
  }

  lemma PascalLinear(az: real, bs: real, cc: real, z: real, bz: real, cs: real, az': real, bs': real, cc': real,
                     rest: real, row: real, shifted: real)
    requires rest >= 0.0 && az' == az + z && bs' == bs + bz && cc' == cc + cs
    requires row == 1.0 + az + bs + cc && shifted == z + bz + cs + rest
    ensures 1.0 + az' + bs' + cc' <= row + shifted
  {
  }

  lemma PascalSum(a: real, b: real, c: real, a': real, b': real, c': real,
                  z: real, square: real, cube: real, rest: real, row: real, shifted: real)
    requires rest >= 0.0 && a' == a + 1.0 && b' == b + a && c' == c + b
    requires row == 1.0 + a * z + b * square + c * cube
    requires shifted == z + a * square + b * cube + rest
    ensures 1.0 + a' * z + b' * square + c' * cube <= row + shifted
  {
    SumTimes(a', a, 1.0, z);
    SumTimes(b', b, a, square);
    SumTimes(c', c, b, cube);
    assert 1.0 * z == z;
    PascalLinear(a * z, b * square, c * cube, z, a * square, b * cube, a' * z, b' * square, c' * cube, rest, row, shifted);
  }

  lemma Shifted(a: real, b: real, c: real, z: real, square: real, cube: real, row: real)
    requires square == z * z && cube == z * square
    requires row == 1.0 + a * z + b * square + c * cube
    ensures z * row == z + a * square + b * cube + c * (z * cube)
  {
    assert z * (a * z) == a * square && z * (b * square) == b * cube && z * (c * cube) == c * (z * cube);
  }

  lemma ExpansionStep(z: real, n: nat)
    requires z >= 0.0
    ensures Expansion(z, n + 1) <= (1.0 + z) * Expansion(z, n)
  {
    hide Cubic;
    PascalRow(n as real, Pairs(n) as real, Triples(n) as real,
              (n + 1) as real, Pairs(n + 1) as real, Triples(n + 1) as real, z, Expansion(z, n));
  }

  /** Cutting the expansion of a power of 1 + z only ever loses positive terms. */
  lemma {:induction false} ExpansionBelowPower(z: real, n: nat)
    requires z >= 0.0
    ensures Expansion(z, n) <= Power(1.0 + z, n)
  {
    hide Expansion;
    if n == 0 {
      ExpansionAtZero(z);
    } else {
      ExpansionBelowPower(z, n - 1);
      ExpansionStep(z, n - 1);
      var base := 1.0 + z;
      ScaleLe(base, Expansion(z, n - 1), Power(base, n - 1));
      assert Power(base, n) == base * Power(base, n - 1);
      assert Expansion(z, n) <= base * Expansion(z, n - 1);
    }
  }

  lemma ExpansionAtZero(z: real)
    ensures Expansion(z, 0) == 1.0
  {
  }

  ghost function CubeAllowance(z: real): real {
    (z + 1.0) * 0.5
  }

  /** Rounding allowance of the factor: half a unit for each pair and at most one for each triple. */
  ghost function Slack(x: int, n: nat): real {
    HalfPairs(n) + Triples(n) as real * CubeAllowance(InRays(x))
  }

  ghost function HalfPairs(n: nat): real {
    0.5 * Pairs(n) as real
  }

  ghost function SquareError(x: int): real {
    RayMul(x, x) as real - RAY as real * (InRays(x) * InRays(x))
  }

  ghost function CubeError(x: int): real {
    RayMul(RayMul(x, x), x) as real - RAY as real * (InRays(x) * InRays(x) * InRays(x))
  }

  lemma RoundedSquare(x: int)
    requires x >= 0
    ensures -0.5 <= SquareError(x) <= 0.5
  {
    RayMulBounds(x, x);
    var r, z := RAY as real, InRays(x);
    assert x as real == z * r;
    assert (x * x) as real == r * (r * (z * z));
    assert -0.5 * r <= RayMul(x, x) as real * r - (x * x) as real <= 0.5 * r;
  }

  lemma DivideBounds(a: real, r: real)
    requires r > 0.0
    requires -0.5 * r <= a * r <= 0.5 * r
    ensures -0.5 <= a <= 0.5
  {
    assert a > 0.5 ==> (a - 0.5) * r > 0.0;
    assert a < -0.5 ==> (-0.5 - a) * r > 0.0;
  }

  lemma ScaleHalf(k: real, e: real, half: real)
    requires k >= 0.0 && -0.5 <= e <= 0.5 && half == 0.5 * k
    ensures -half <= k * e <= half
  {
    assert k * (0.5 - e) >= 0.0;
    assert k * (0.5 + e) >= 0.0;
  }

  /** Rounding a product whose first factor is already off by a little. */
  lemma RoundedProduct(square: real, exactSquare: real, z: real, cube: real, r: real, half: real)
    requires -half <= z * (square - r * exactSquare) <= half
    requires -0.5 <= cube - square * z <= 0.5
    ensures -(0.5 + half) <= cube - r * (exactSquare * z) <= 0.5 + half
  {
    assert square * z == r * (exactSquare * z) + z * (square - r * exactSquare);
    AddBounds(cube - square * z, 0.5, z * (square - r * exactSquare), half);
  }

  lemma AddBounds(a: real, u: real, b: real, v: real)
    requires -u <= a <= u && -v <= b <= v
    ensures -(u + v) <= a + b <= u + v
  {
  }

  lemma CubeProduct(x: int)
    requires x >= 0
    ensures -0.5 <= RayMul(RayMul(x, x), x) as real - RayMul(x, x) as real * InRays(x) <= 0.5
  {
    hide RayMul;
    var r, z := RAY as real, InRays(x);
    var square := RayMul(x, x);
    RayMulBounds(x, x);
    RayMulBounds(square, x);
    var cube := RayMul(square, x);
    assert x as real == z * r;
    assert (square * x) as real == (square as real * z) * r;
    DivideBounds(cube as real - square as real * z, r);
  }

  lemma RoundedCube(x: int)
    requires x >= 0
    ensures -CubeAllowance(InRays(x)) <= CubeError(x) <= CubeAllowance(InRays(x))
  {
    hide RayMul, InRays;
    var r, z := RAY as real, InRays(x);
    CubeProduct(x);
    RoundedSquare(x);
    assert z >= 0.0 by {
      InRaysNonNegative(x);
    }
    ScaleHalf(z, SquareError(x), 0.5 * z);
    RoundedProduct(RayMul(x, x) as real, z * z, z, RayMul(RayMul(x, x), x) as real, r, 0.5 * z);
  }

  lemma InRaysNonNegative(x: int)
    requires x >= 0
    ensures InRays(x) >= 0.0
  {
  }

  lemma ScaleAbs(k: real, e: real, h: real)
    requires k >= 0.0 && -h <= e <= h
    ensures -(k * h) <= k * e <= k * h
  {
    ScaleLe(k, e, h);
    ScaleLe(k, -h, e);
    assert k * (-h) == -(k * h);
  }

  lemma ErrorTerms(r: real, z: real, n: real, b: real, c: real, square: real, cube: real, e: real)
    requires e == Cubic(n, b, c, z)
    ensures r + (z * r) * n + b * square + c * cube - r * e
      == b * (square - r * (z * z)) + c * (cube - r * (z * z * z))
  {
    var z2, z3 := z * z, z * z * z;
    assert r * (1.0 + n * z + b * z2 + c * z3) == r + (z * r) * n + b * (r * z2) + c * (r * z3);
    assert b * (square - r * z2) == b * square - b * (r * z2);
    assert c * (cube - r * z3) == c * cube - c * (r * z3);
  }

  lemma FactorError(x: int, n: nat)
    ensures Factor(x, n) as real - RAY as real * Expansion(InRays(x), n)
      == Pairs(n) as real * SquareError(x) + Triples(n) as real * CubeError(x)
  {
    hide RayMul, Pairs, Triples, Factor, InRays, Cubic;
    FactorAsReal(x, n);
    ErrorTerms(RAY as real, InRays(x), n as real, Pairs(n) as real, Triples(n) as real,
               RayMul(x, x) as real, RayMul(RayMul(x, x), x) as real, Expansion(InRays(x), n));
  }

  /** The factor is the cut expansion, up to the rounding of the square and of the cube. */
  lemma FactorNearExpansion(x: nat, n: nat)
    ensures -Slack(x, n) <= Factor(x, n) as real - RAY as real * Expansion(InRays(x), n) <= Slack(x, n)
  {
    hide RayMul, Pairs, HalfPairs, Triples, CubeAllowance, Factor, InRays, Expansion, SquareError, CubeError;
    SquareTerm(x, n);
    RoundedCube(x);
    FactorError(x, n);
    ScaleAbs(Triples(n) as real, CubeError(x), CubeAllowance(InRays(x)));
    AddBounds(Pairs(n) as real * SquareError(x), HalfPairs(n),
              Triples(n) as real * CubeError(x), Triples(n) as real * CubeAllowance(InRays(x)));
  }

  lemma SquareTerm(x: int, n: nat)
    requires x >= 0
    ensures -HalfPairs(n) <= Pairs(n) as real * SquareError(x) <= HalfPairs(n)
  {
    hide Pairs, SquareError;
    RoundedSquare(x);
    ScaleHalf(Pairs(n) as real, SquareError(x), HalfPairs(n));
  }

  lemma FactorAsReal(x: int, n: nat)
    ensures Factor(x, n) as real == RAY as real + (InRays(x) * RAY as real) * n as real
      + Pairs(n) as real * RayMul(x, x) as real + Triples(n) as real * RayMul(RayMul(x, x), x) as real
  {
    hide RayMul, Pairs, Triples;
    assert InRays(x) * RAY as real == x as real;
    assert (x * n) as real == x as real * n as real;
    assert (Pairs(n) * RayMul(x, x)) as real == Pairs(n) as real * RayMul(x, x) as real;
    assert (Triples(n) * RayMul(RayMul(x, x), x)) as real == Triples(n) as real * RayMul(RayMul(x, x), x) as real;
  }

  /** Compounding for one second at rate per year `rate`, exactly. */
  ghost function PerSecond(rate: int): real {
    rate as real / (ONE_YEAR as real * RAY as real)
  }

  lemma {:induction false} PowerMonotone(a: real, b: real, n: nat)
    requires 1.0 <= a <= b
    ensures 1.0 <= Power(a, n) <= Power(b, n)
  {
    if n > 0 {
      PowerMonotone(a, b, n - 1);
      FactorsGrow(a, b, Power(a, n - 1), Power(b, n - 1));
    }
  }

  lemma FactorsGrow(a: real, b: real, p: real, q: real)
    requires 1.0 <= a <= b && 1.0 <= p <= q
    ensures 1.0 <= a * p <= b * q
  {
    ScaleLe(p, 1.0, a);
    ScaleLe(a, p, q);
    ScaleLe(q, a, b);
  }

  /**
    A debt is never charged more than true compounding every second at its yearly rate,
    beyond the stated rounding allowance.
   */
  lemma CompoundedBelowTruePower(rate: int, current: int, last: int)
    requires rate >= 0 && current >= last
    ensures var n := current - last;
      CompoundedInterest(rate, current, last) as real
      <= RAY as real * Power(1.0 + PerSecond(rate), n) + Slack(TruncDiv(rate, ONE_YEAR), n)
  {
    hide Factor, Expansion, CompoundedInterest, Slack, TruncDiv;
    var n := current - last;
    var x := TruncDiv(rate, ONE_YEAR);
    CompoundedIsFactor(rate, current, last);
    FactorNearExpansion(x, n);
    ExpansionBelowPower(InRays(x), n);
    assert 0.0 <= InRays(x) <= PerSecond(rate) by {
      QuotientBounds(rate, ONE_YEAR);
      assert x as real <= rate as real / ONE_YEAR as real;
      assert rate as real / (ONE_YEAR as real * RAY as real) == (rate as real / ONE_YEAR as real) / RAY as real;
    }
    PowerMonotone(1.0 + InRays(x), 1.0 + PerSecond(rate), n);
  }
}
