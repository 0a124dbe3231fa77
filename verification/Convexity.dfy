/**
  Why the pooled stable debt drifts below the borrowers' own debts: compounding is convex in
  the rate, and the pool compounds everybody at the debt-weighted average rate.
 */
module Convexity {
  import opened RayMath
  import opened Interest
  import opened Compounding
  import opened StableDebt

  datatype Loan = Loan(principal: nat, rate: nat)

  function Principals(loans: seq<Loan>): nat {
    if loans == [] then 0 else Principals(loans[..|loans| - 1]) + loans[|loans| - 1].principal
  }

  /** Sum of principal times yearly rate. */
  function Weights(loans: seq<Loan>): nat {
    if loans == [] then 0
    else
      var last := loans[|loans| - 1];
      Weights(loans[..|loans| - 1]) + last.principal * last.rate
  }

  // ---------- without rounding ----------

  /** Slope of the unrounded compounding polynomial. */
  ghost function Slope(z: real, n: nat): real {
    n as real + Pairs(n) as real * (2.0 * z) + Triples(n) as real * (3.0 * (z * z))
  }

  lemma TangentSquare(m: real, z: real)
    ensures z * z >= m * m + (2.0 * m) * (z - m)
  {
    assert z * z - m * m - (2.0 * m) * (z - m) == (z - m) * (z - m);
  }

  lemma TangentCube(m: real, z: real)
    requires m >= 0.0 && z >= 0.0
    ensures z * z * z >= m * m * m + (3.0 * (m * m)) * (z - m)
  {
    var square := (z - m) * (z - m);
    NonNegativeProduct(square, z + 2.0 * m);
    assert z * z * z - m * m * m - (3.0 * (m * m)) * (z - m) == square * (z + 2.0 * m);
  }

  lemma TangentCubic(a: real, b: real, c: real, m: real, z: real)
    requires b >= 0.0 && c >= 0.0 && m >= 0.0 && z >= 0.0
    ensures Cubic(a, b, c, z) >= Cubic(a, b, c, m) + (a + b * (2.0 * m) + c * (3.0 * (m * m))) * (z - m)
  {
    TangentSquare(m, z);
    TangentCube(m, z);
    TangentSum(a, b, c, m, m * m, m * m * m, z, z * z, z * z * z, 2.0 * m, 3.0 * (m * m), z - m);
  }

  lemma TangentSum(a: real, b: real, c: real, m1: real, m2: real, m3: real, z1: real, z2: real, z3: real,
                   s: real, t: real, d: real)
    requires b >= 0.0 && c >= 0.0
    requires z1 == m1 + d && z2 >= m2 + s * d && z3 >= m3 + t * d
    ensures 1.0 + a * z1 + b * z2 + c * z3 >= 1.0 + a * m1 + b * m2 + c * m3 + (a + b * s + c * t) * d
  {
    ScaleLe(b, m2 + s * d, z2);
    ScaleLe(c, m3 + t * d, z3);
    Distributes(a, b, c, s, t, d);
    assert b * (m2 + s * d) == b * m2 + b * (s * d) && c * (m3 + t * d) == c * m3 + c * (t * d);
  }

  lemma Distributes(a: real, b: real, c: real, s: real, t: real, d: real)
    ensures (a + b * s + c * t) * d == a * d + b * (s * d) + c * (t * d)
  {
  }

  /** The polynomial lies above each of its tangents. */
  lemma ExpansionAboveTangent(m: real, z: real, n: nat)
    requires m >= 0.0 && z >= 0.0
    ensures Expansion(z, n) >= Expansion(m, n) + Slope(m, n) * (z - m)
  {
    hide Cubic, Pairs, Triples;
    TangentCubic(n as real, Pairs(n) as real, Triples(n) as real, m, z);
  }

  /** Sum of principal times `z(rate)`, and sum of principal times the polynomial at `z(rate)`. */
  ghost function Moment(loans: seq<Loan>, z: int -> real): real {
    if loans == [] then 0.0
    else
      var last := loans[|loans| - 1];
      Moment(loans[..|loans| - 1], z) + last.principal as real * z(last.rate)
  }

  ghost function Charge(loans: seq<Loan>, z: int -> real, n: nat): real {
    if loans == [] then 0.0
    else
      var last := loans[|loans| - 1];
      Charge(loans[..|loans| - 1], z, n) + last.principal as real * Expansion(z(last.rate), n)
  }

  lemma TangentSumStep(charge: real, weight: real, moment: real, p: real, z: real, m: real,
                       atM: real, atZ: real, slope: real)
    requires p >= 0.0
    requires charge >= weight * atM + slope * (moment - m * weight)
    requires atZ >= atM + slope * (z - m)
    ensures charge + p * atZ >= (weight + p) * atM + slope * ((moment + p * z) - m * (weight + p))
  {
    ScaleLe(p, atM + slope * (z - m), atZ);
    assert p * (atM + slope * (z - m)) == p * atM + slope * (p * z - m * p);
    assert slope * (moment - m * weight) + slope * (p * z - m * p) == slope * ((moment + p * z) - m * (weight + p));
  }

  /** Summing the tangent inequality over all borrowers. */
  lemma {:induction false} ChargeAboveTangent(loans: seq<Loan>, z: int -> real, m: real, n: nat)
    requires m >= 0.0
    requires forall rate: nat :: z(rate) >= 0.0
    ensures Charge(loans, z, n)
      >= Principals(loans) as real * Expansion(m, n) + Slope(m, n) * (Moment(loans, z) - m * Principals(loans) as real)
  {
    hide Expansion, Slope;
    if loans != [] {
      var front, last := loans[..|loans| - 1], loans[|loans| - 1];
      ChargeAboveTangent(front, z, m, n);
      ExpansionAboveTangent(m, z(last.rate), n);
      TangentSumStep(Charge(front, z, n), Principals(front) as real, Moment(front, z), last.principal as real,
                     z(last.rate), m, Expansion(m, n), Expansion(z(last.rate), n), Slope(m, n));
      assert Principals(loans) as real == Principals(front) as real + last.principal as real;
    }
  }

  lemma {:induction false} MomentOfExactRates(loans: seq<Loan>)
    ensures Moment(loans, PerSecond) == PerSecond(Weights(loans))
  {
    if loans != [] {
      var front, last := loans[..|loans| - 1], loans[|loans| - 1];
      MomentOfExactRates(front);
      var k := ONE_YEAR as real * RAY as real;
      assert last.principal as real * (last.rate as real / k) == (last.principal * last.rate) as real / k;
    }
  }

  /**
    Without rounding, compounding the pooled debt at the debt-weighted average rate never
    charges more than compounding every borrower at their own rate.
   */
  lemma AverageRateNeverOvercharges(loans: seq<Loan>, average: real, n: nat)
    requires average >= 0.0
    requires average * Principals(loans) as real == PerSecond(Weights(loans))
    ensures Principals(loans) as real * Expansion(average, n) <= Charge(loans, PerSecond, n)
  {
    hide Expansion, Slope, Principals, Weights;
    ChargeAboveTangent(loans, PerSecond, average, n);
    MomentOfExactRates(loans);
    assert Moment(loans, PerSecond) - average * Principals(loans) as real == 0.0;
    assert Slope(average, n) * 0.0 == 0.0;
  }

  // ---------- with the rounding of the code ----------

  ghost function TruncatedPerSecond(rate: int): real {
    InRays(TruncDiv(rate, ONE_YEAR))
  }

  /** What the borrowers owe together, each at their own rate. */
  function Balances(loans: seq<Loan>, lastUpdated: int, currentTimestamp: int): int {
    if loans == [] then 0
    else
      var last := loans[|loans| - 1];
      Balances(loans[..|loans| - 1], lastUpdated, currentTimestamp)
        + StableDebtTokenBalance(last.principal, last.rate, lastUpdated, currentTimestamp)
  }

  /** Rounding allowance of all balances: half a unit each, plus the allowance of each factor. */
  ghost function Allowance(loans: seq<Loan>, n: nat): real {
    if loans == [] then 0.0
    else
      var last := loans[|loans| - 1];
      Allowance(loans[..|loans| - 1], n) + 0.5
        + last.principal as real * Slack(TruncDiv(last.rate, ONE_YEAR), n) / RAY as real
  }

  lemma DivideByRay(p: real, comp: real, exact: real, slack: real, balance: real, r: real)
    requires p >= 0.0 && r > 0.0
    requires -slack <= comp - r * exact <= slack
    requires -(0.5 * r) <= balance * r - p * comp <= 0.5 * r
    ensures p * exact <= balance + (0.5 + p * slack / r)
    ensures balance <= p * exact + (0.5 + p * slack / r)
  {
    ScaleAbs(p, comp - r * exact, slack);
    var a, pc, share := p * exact, p * comp, p * slack / r;
    assert p * (comp - r * exact) == pc - a * r;
    assert share * r == p * slack;
    Sum(a * r, pc, balance * r, 0.5 * r, share * r);
    CancelWithAllowance(a, balance, share, 0.5 * r, r);
    CancelWithAllowance(balance, a, share, 0.5 * r, r);
  }

  lemma Sum(a: real, b: real, c: real, d: real, e: real)
    requires -e <= b - a <= e
    requires -d <= c - b <= d
    ensures a <= c + d + e && c <= a + d + e
  {
  }

  lemma CancelWithAllowance(a: real, b: real, share: real, half: real, r: real)
    requires r > 0.0 && half == 0.5 * r
    requires a * r <= b * r + half + share * r
    ensures a <= b + (0.5 + share)
  {
    Distribute(b, share, half, r);
    CancelFactor(a, b + (0.5 + share), r);
  }

  lemma Distribute(a: real, share: real, half: real, r: real)
    requires half == 0.5 * r
    ensures (a + (0.5 + share)) * r == a * r + half + share * r
  {
  }

  lemma CancelFactor(a: real, b: real, r: real)
    requires r > 0.0 && a * r <= b * r
    ensures a <= b
  {
    assert a > b ==> (a - b) * r > 0.0;
  }

  /** A rounded balance is its principal times the unrounded polynomial, within the allowance of one loan. */
  lemma BalanceNearExact(principal: nat, rate: nat, last: int, current: int)
    requires last != 0 && current >= last
    ensures var n := current - last;
      var exact := principal as real * Expansion(TruncatedPerSecond(rate), n);
      var allowed := 0.5 + principal as real * Slack(TruncDiv(rate, ONE_YEAR), n) / RAY as real;
      -allowed <= TotalStableDebt(principal, rate, last, current) as real - exact <= allowed
  {
    hide Expansion, Slack, Factor, TruncDiv, InRays, CompoundedInterest, RayMul;
    var n := current - last;
    var x := TruncDiv(rate, ONE_YEAR);
    var comp := CompoundedInterest(rate, current, last);
    CompoundedIsFactor(rate, current, last);
    FactorNearExpansion(x, n);
    CompoundedMonotone(rate, rate, current, current, last);
    RayMulBounds(comp, principal);
    assert (comp * principal) as real == principal as real * comp as real;
    DivideByRay(principal as real, comp as real, Expansion(InRays(x), n), Slack(x, n),
                RayMul(comp, principal) as real, RAY as real);
  }

  lemma {:induction false} BalancesCoverCharge(loans: seq<Loan>, last: int, current: int)
    requires last != 0 && current >= last
    ensures Charge(loans, TruncatedPerSecond, current - last)
      <= Balances(loans, last, current) as real + Allowance(loans, current - last)
  {
    hide Expansion, Slack, TruncDiv, TruncatedPerSecond, StableDebtTokenBalance, TotalStableDebt;
    if loans != [] {
      var loan := loans[|loans| - 1];
      BalancesCoverCharge(loans[..|loans| - 1], last, current);
      BalanceNearExact(loan.principal, loan.rate, last, current);
      BalanceIsTotal(loan.principal, loan.rate, last, current);
    }
  }

  function TruncatedWeights(loans: seq<Loan>): nat {
    if loans == [] then 0
    else
      var last := loans[|loans| - 1];
      QuotientBounds(last.rate, ONE_YEAR);
      TruncatedWeights(loans[..|loans| - 1]) + last.principal * TruncDiv(last.rate, ONE_YEAR)
  }

  lemma {:induction false} MomentOfTruncatedRates(loans: seq<Loan>)
    ensures Moment(loans, TruncatedPerSecond) == TruncatedWeights(loans) as real / RAY as real
  {
    hide TruncDiv;
    if loans != [] {
      var front, last := loans[..|loans| - 1], loans[|loans| - 1];
      MomentOfTruncatedRates(front);
      var x := TruncDiv(last.rate, ONE_YEAR);
      assert last.principal as real * (x as real / RAY as real) == (last.principal * x) as real / RAY as real;
    }
  }

  /** Truncating every rate to whole units per second loses less than one unit per second and unit of principal. */
  lemma {:induction false} TruncationLosesLittle(loans: seq<Loan>)
    ensures Weights(loans) <= TruncatedWeights(loans) * ONE_YEAR + (ONE_YEAR - 1) * Principals(loans)
  {
    hide TruncDiv;
    if loans != [] {
      var front, last := loans[..|loans| - 1], loans[|loans| - 1];
      TruncationLosesLittle(front);
      TruncationOfOneLoan(last.principal, last.rate);
    }
  }

  lemma TruncationOfOneLoan(principal: nat, rate: nat)
    ensures principal * rate <= (principal * TruncDiv(rate, ONE_YEAR)) * ONE_YEAR + (ONE_YEAR - 1) * principal
  {
    hide TruncDiv;
    QuotientBounds(rate, ONE_YEAR);
    var x := TruncDiv(rate, ONE_YEAR);
    var bound := x * ONE_YEAR + (ONE_YEAR - 1);
    ProductMonotone(principal, principal, rate, bound);
    assert principal * bound == (principal * x) * ONE_YEAR + (ONE_YEAR - 1) * principal;
  }

  lemma TruncatedAverage(loans: seq<Loan>, average: nat)
    requires average * Principals(loans) <= Weights(loans)
    ensures TruncDiv(average, ONE_YEAR) * Principals(loans) <= TruncatedWeights(loans) + Principals(loans)
  {
    hide TruncDiv, Weights, TruncatedWeights, Principals;
    var p := Principals(loans);
    var x := TruncDiv(average, ONE_YEAR);
    QuotientBounds(average, ONE_YEAR);
    TruncationLosesLittle(loans);
    assert (x * p) * ONE_YEAR <= average * p by {
      assert (x * ONE_YEAR) * p <= average * p;
      assert (x * ONE_YEAR) * p == (x * p) * ONE_YEAR;
    }
  }

  /**
    The pooled stable debt, compounded by the code at any rate that does not exceed the
    debt-weighted average, stays below the borrowers' own balances up to an explicit allowance:
    half a unit per rounded balance, the rounding of each compounding factor, and one unit per
    second lost by truncating the yearly rates.
   */
  lemma PooledDebtBelowBalances(loans: seq<Loan>, average: nat, last: int, current: int)
    requires last != 0 && current >= last
    requires average * Principals(loans) <= Weights(loans)
    ensures var n := current - last;
      var x := TruncDiv(average, ONE_YEAR);
      var p := Principals(loans) as real;
      TotalStableDebt(Principals(loans), average, last, current) as real
      <= Balances(loans, last, current) as real + Allowance(loans, n)
         + (0.5 + p * Slack(x, n) / RAY as real) + Slope(InRays(x), n) * (p / RAY as real)
  {
    hide Expansion, Slack, Slope, TruncDiv, Principals, Weights, TruncatedWeights, Balances, Charge, Moment,
         Allowance, TotalStableDebt;
    var n := current - last;
    var x := TruncDiv(average, ONE_YEAR);
    var m := InRays(x);
    QuotientBounds(average, ONE_YEAR);
    BalanceNearExact(Principals(loans), average, last, current);
    BalancesCoverCharge(loans, last, current);
    TruncatedRatesNonNegative();
    ChargeAboveTangent(loans, TruncatedPerSecond, m, n);
    MomentOfTruncatedRates(loans);
    TruncatedAverage(loans, average);
    SlopeNonNegative(m, n);
    var p := Principals(loans) as real;
    MomentShortfall(TruncatedWeights(loans), Principals(loans), x);
    ScaleLe(Slope(m, n), -(p / RAY as real), Moment(loans, TruncatedPerSecond) - m * p);
    assert Slope(m, n) * (-(p / RAY as real)) == -(Slope(m, n) * (p / RAY as real));
  }

  lemma TruncatedRatesNonNegative()
    ensures forall rate: nat :: TruncatedPerSecond(rate) >= 0.0
  {
    forall rate: nat ensures TruncatedPerSecond(rate) >= 0.0 {
      QuotientBounds(rate, ONE_YEAR);
    }
  }

  lemma SlopeNonNegative(m: real, n: nat)
    requires m >= 0.0
    ensures Slope(m, n) >= 0.0
  {
    NonNegativeProduct(m, m);
    NonNegativeProduct(Pairs(n) as real, 2.0 * m);
    NonNegativeProduct(Triples(n) as real, 3.0 * (m * m));
  }

  lemma MomentShortfall(weights: nat, principals: nat, x: nat)
    requires x * principals <= weights + principals
    ensures weights as real / RAY as real - InRays(x) * principals as real >= -(principals as real / RAY as real)
  {
    assert InRays(x) * principals as real == (x * principals) as real / RAY as real;
  }

  // ---------- the average the code keeps ----------

  /** The average rate after the loans were added to the pool one after the other. */
  function PoolRate(loans: seq<Loan>): int {
    if loans == [] then 0
    else
      var front, last := loans[..|loans| - 1], loans[|loans| - 1];
      AverageStableBorrowRate(PoolRate(front), Principals(front), last.principal, last.rate)
  }

  /** Because every update truncates, the kept average never exceeds the true debt-weighted average. */
  lemma {:induction false} PoolRateBelowWeightedAverage(loans: seq<Loan>)
    ensures 0 <= PoolRate(loans)
    ensures PoolRate(loans) * Principals(loans) <= Weights(loans)
  {
    hide AverageStableBorrowRate;
    if loans != [] {
      var front, last := loans[..|loans| - 1], loans[|loans| - 1];
      PoolRateBelowWeightedAverage(front);
      if Principals(front) + last.principal > 0 {
        AddedLoanKeepsAverageBetween(PoolRate(front), Principals(front), last.principal, last.rate);
      } else {
        EmptyPoolRate(PoolRate(front), last.rate);
      }
    }
  }

  lemma EmptyPoolRate(average: int, rate: int)
    ensures AverageStableBorrowRate(average, 0, 0, rate) == 0
  {
  }

  /** The drift of the pool: its debt at the kept average stays below the sum of the borrowers' balances. */
  lemma PoolDriftsBelow(loans: seq<Loan>, last: int, current: int)
    requires last != 0 && current >= last
    ensures PoolRate(loans) >= 0
    ensures var n := current - last;
      var x := TruncDiv(PoolRate(loans), ONE_YEAR);
      var p := Principals(loans) as real;
      TotalStableDebt(Principals(loans), PoolRate(loans), last, current) as real
      <= Balances(loans, last, current) as real + Allowance(loans, n)
         + (0.5 + p * Slack(x, n) / RAY as real) + Slope(InRays(x), n) * (p / RAY as real)
  {
    hide Slack, Slope, TruncDiv, Principals, Weights, Balances, Allowance, TotalStableDebt;
    PoolRateBelowWeightedAverage(loans);
    PooledDebtBelowBalances(loans, PoolRate(loans), last, current);
  }
}
