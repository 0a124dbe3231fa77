/**
  The reserve and user records, their two indexes, and the balances read through them.
 */
module Reserve {
  import opened RayMath
  import opened Interest

  datatype ReserveData = ReserveData(
    totalLiquidity: int,
    availableLiquidity: int,
    totalStableDebt: int,
    totalVariableDebt: int,
    principalStableDebt: int,
    scaledVariableDebt: int,
    averageStableBorrowRate: int,
    variableBorrowRate: int,
    stableBorrowRate: int,
    utilizationRate: int,
    liquidityIndex: int,
    variableBorrowIndex: int,
    marketStableRate: int,
    lastUpdateTimestamp: int,
    totalStableDebtLastUpdated: int,
    liquidityRate: int)

  datatype UserReserveData = UserReserveData(
    scaledLTokenBalance: int,
    currentLTokenBalance: int,
    currentStableDebt: int,
    currentVariableDebt: int,
    principalStableDebt: int,
    scaledVariableDebt: int,
    liquidityRate: int,
    stableBorrowRate: int,
    stableRateLastUpdated: int,
    usageAsCollateralEnabled: bool,
    walletBalance: int)

  // ---------- indexes ----------

  /** The liquidity index as it is viewed at a given time. */
  function NormalizedIncome(r: ReserveData, currentTimestamp: int): int {
    if r.liquidityRate == 0 then
      r.liquidityIndex
    else
      RayMul(LinearInterest(r.liquidityRate, currentTimestamp, r.lastUpdateTimestamp), r.liquidityIndex)
  }

  /** The variable borrow index as it is viewed at a given time. */
  function NormalizedDebt(rate: int, index: int, lastUpdateTimestamp: int, currentTimestamp: int): int {
    if rate == 0 then
      index
    else
      RayMul(CompoundedInterest(rate, currentTimestamp, lastUpdateTimestamp), index)
  }

  /** The liquidity index that an update at a given time stores. */
  function LiquidityIndex(r: ReserveData, timestamp: int): int {
    if r.utilizationRate == 0 then
      r.liquidityIndex
    else
      RayMul(LinearInterest(r.liquidityRate, timestamp, r.lastUpdateTimestamp), r.liquidityIndex)
  }

  /** The variable borrow index that an update at a given time stores. */
  function VariableBorrowIndex(r: ReserveData, timestamp: int): int {
    if r.totalVariableDebt == 0 then
      r.variableBorrowIndex
    else
      RayMul(CompoundedInterest(r.variableBorrowRate, timestamp, r.lastUpdateTimestamp), r.variableBorrowIndex)
  }

  // ---------- balances ----------

  function ScaledLTokenBalance(u: UserReserveData, index: int, amountAdded: int, amountTaken: int): int
    requires index != 0
  {
    u.scaledLTokenBalance + RayDiv(amountAdded, index) - RayDiv(amountTaken, index)
  }

  function LTokenBalance(r: ReserveData, u: UserReserveData, currentTimestamp: int): int {
    RayMul(u.scaledLTokenBalance, NormalizedIncome(r, currentTimestamp))
  }

  function VariableDebtTokenBalance(r: ReserveData, u: UserReserveData, currentTimestamp: int): int {
    RayMul(u.scaledVariableDebt,
           NormalizedDebt(r.variableBorrowRate, r.variableBorrowIndex, r.lastUpdateTimestamp, currentTimestamp))
  }

  // ---------- growth ----------

  /** The part of the standing conditions that index growth rests on. */
  predicate Indexed(r: ReserveData, timestamp: int) {
    && RAY <= r.liquidityIndex && RAY <= r.variableBorrowIndex
    && 0 <= r.liquidityRate && 0 <= r.variableBorrowRate
    && r.lastUpdateTimestamp <= timestamp
  }

  /** Neither the stored nor the viewed indexes ever decrease. */
  lemma IndexesGrow(r: ReserveData, timestamp: int)
    requires Indexed(r, timestamp)
    ensures r.liquidityIndex <= LiquidityIndex(r, timestamp)
    ensures r.liquidityIndex <= NormalizedIncome(r, timestamp)
    ensures r.variableBorrowIndex <= VariableBorrowIndex(r, timestamp)
    ensures r.variableBorrowIndex
      <= NormalizedDebt(r.variableBorrowRate, r.variableBorrowIndex, r.lastUpdateTimestamp, timestamp)
  {
    hide RayMul, LinearInterest, CompoundedInterest;
    LinearMonotone(r.liquidityRate, r.liquidityRate, timestamp, timestamp, r.lastUpdateTimestamp);
    CompoundedMonotone(r.variableBorrowRate, r.variableBorrowRate, timestamp, timestamp, r.lastUpdateTimestamp);
    RayMulGrows(r.liquidityIndex, LinearInterest(r.liquidityRate, timestamp, r.lastUpdateTimestamp));
    RayMulGrows(r.variableBorrowIndex, CompoundedInterest(r.variableBorrowRate, timestamp, r.lastUpdateTimestamp));
  }

  /** Viewed at the moment of the update itself, both indexes are the stored ones. */
  lemma IndexesAtOnce(r: ReserveData)
    requires RAY <= r.liquidityIndex && RAY <= r.variableBorrowIndex
    ensures LiquidityIndex(r, r.lastUpdateTimestamp) == r.liquidityIndex == NormalizedIncome(r, r.lastUpdateTimestamp)
    ensures VariableBorrowIndex(r, r.lastUpdateTimestamp) == r.variableBorrowIndex
    ensures NormalizedDebt(r.variableBorrowRate, r.variableBorrowIndex, r.lastUpdateTimestamp, r.lastUpdateTimestamp)
      == r.variableBorrowIndex
  {
    hide RayMul;
    RayMulByRay(r.liquidityIndex);
    RayMulByRay(r.variableBorrowIndex);
    QuotientUnique(0, ONE_YEAR, 0);
  }

  // ---------- view and update ----------

  /** A factor of one ray plus `gain` leaves an index unchanged exactly while the gain is worth less than half a unit. */
  lemma GainTooSmall(gain: int, index: int)
    requires gain >= 0 && index >= RAY
    ensures RayMul(RAY + gain, index) == index <==> gain * index < HALF_RAY
  {
    hide TruncDiv, RayMul;
    RayMulBounds(RAY + gain, index);
    assert (RAY + gain) * index == RAY * index + gain * index;
    assert gain * index >= 0;
  }

  /**
    The viewed income and the stored liquidity index agree exactly when the reserve is in use, or
    when the interest since the last update would not have moved the index anyway.
   */
  lemma IncomeViewAgrees(r: ReserveData, timestamp: int)
    requires Indexed(r, timestamp)
    ensures NormalizedIncome(r, timestamp) == LiquidityIndex(r, timestamp)
      <==> r.utilizationRate != 0
           || (LinearInterest(r.liquidityRate, timestamp, r.lastUpdateTimestamp) - RAY) * r.liquidityIndex < HALF_RAY
  {
    hide RayMul, LinearInterest;
    var factor := LinearInterest(r.liquidityRate, timestamp, r.lastUpdateTimestamp);
    LinearMonotone(r.liquidityRate, r.liquidityRate, timestamp, timestamp, r.lastUpdateTimestamp);
    GainTooSmall(factor - RAY, r.liquidityIndex);
    assert RAY + (factor - RAY) == factor;
    if r.liquidityRate == 0 {
      ZeroRateFactors(timestamp, r.lastUpdateTimestamp);
      RayMulByRay(r.liquidityIndex);
    }
  }

  /**
    The viewed debt and the stored variable borrow index agree exactly when some variable debt is
    outstanding, or when the interest since the last update would not have moved the index anyway.
   */
  lemma DebtViewAgrees(r: ReserveData, timestamp: int)
    requires Indexed(r, timestamp)
    ensures NormalizedDebt(r.variableBorrowRate, r.variableBorrowIndex, r.lastUpdateTimestamp, timestamp)
      == VariableBorrowIndex(r, timestamp)
      <==> r.totalVariableDebt != 0
           || (CompoundedInterest(r.variableBorrowRate, timestamp, r.lastUpdateTimestamp) - RAY)
              * r.variableBorrowIndex < HALF_RAY
  {
    hide RayMul, CompoundedInterest;
    var factor := CompoundedInterest(r.variableBorrowRate, timestamp, r.lastUpdateTimestamp);
    CompoundedMonotone(r.variableBorrowRate, r.variableBorrowRate, timestamp, timestamp, r.lastUpdateTimestamp);
    GainTooSmall(factor - RAY, r.variableBorrowIndex);
    assert RAY + (factor - RAY) == factor;
    if r.variableBorrowRate == 0 {
      ZeroRateFactors(timestamp, r.lastUpdateTimestamp);
      RayMulByRay(r.variableBorrowIndex);
    }
  }

  /**
    A user's viewed variable debt is always the one the update computes: either some variable debt is
    outstanding and the two indexes agree, or the user owes nothing under both.
   */
  lemma UserDebtViewAgrees(r: ReserveData, u: UserReserveData, timestamp: int)
    requires Indexed(r, timestamp)
    requires r.totalVariableDebt == 0 ==> u.scaledVariableDebt == 0
    ensures VariableDebtTokenBalance(r, u, timestamp)
      == RayMul(u.scaledVariableDebt, VariableBorrowIndex(r, timestamp))
  {
    hide RayMul, NormalizedDebt, VariableBorrowIndex;
    if r.totalVariableDebt == 0 {
      RayMulZero(NormalizedDebt(r.variableBorrowRate, r.variableBorrowIndex, r.lastUpdateTimestamp, timestamp));
      RayMulZero(VariableBorrowIndex(r, timestamp));
    } else {
      DebtViewAgrees(r, timestamp);
    }
  }

  // ---------- what depositors are credited ----------

  lemma IncomeIsLinear(r: ReserveData, now: int)
    requires Indexed(r, now)
    ensures NormalizedIncome(r, now)
      == RayMul(LinearInterest(r.liquidityRate, now, r.lastUpdateTimestamp), r.liquidityIndex)
  {
    hide RayMul, LinearInterest;
    if r.liquidityRate == 0 {
      ZeroRateFactors(now, r.lastUpdateTimestamp);
      RayMulByRay(r.liquidityIndex);
    }
  }

  /**
    Over any period after an update, a user's claim grows by the rate times the elapsed part of a year of
    the claim at the update, up to rounding: half a unit of that interest, one unit of the claims, and
    twice the claim in rays.
   */
  lemma ClaimGrows(r: ReserveData, u: UserReserveData, t1: int, t2: int)
    requires Indexed(r, r.lastUpdateTimestamp) && u.scaledLTokenBalance >= 0 && r.lastUpdateTimestamp <= t1 <= t2
    ensures var claim, growth := LTokenBalance(r, u, r.lastUpdateTimestamp), LTokenBalance(r, u, t2) - LTokenBalance(r, u, t1);
      var earned := r.liquidityRate * (t2 - t1);
      (2 * claim - 1) * earned - ONE_YEAR * (4 * claim + 1 + 2 * RAY) <= 2 * RAY * ONE_YEAR * growth
      <= (2 * claim + 1) * earned + ONE_YEAR * (4 * claim + 1 + 2 * RAY)
  {
    hide RayMul, LinearInterest;
    var last, index, scaled := r.lastUpdateTimestamp, r.liquidityIndex, u.scaledLTokenBalance;
    var f1, f2 := LinearInterest(r.liquidityRate, t1, last), LinearInterest(r.liquidityRate, t2, last);
    IncomeIsLinear(r, t1);
    IncomeIsLinear(r, t2);
    IndexesAtOnce(r);
    LinearBounds(r.liquidityRate, t1, last);
    LinearBounds(r.liquidityRate, t2, last);
    LinearMonotone(r.liquidityRate, r.liquidityRate, t1, t2, last);
    RayMulBounds(f1, index);
    RayMulBounds(f2, index);
    RayMulBounds(scaled, index);
    RayMulGrows(scaled, index);
    RayMulBounds(scaled, RayMul(f1, index));
    RayMulBounds(scaled, RayMul(f2, index));
    FactorDifference(r.liquidityRate, t1 - last, t2 - last, f1 - RAY, f2 - RAY);
    GrowthBounds(scaled, index, RayMul(scaled, index), f2 - f1, RayMul(f2, index) - RayMul(f1, index),
                 LTokenBalance(r, u, t2) - LTokenBalance(r, u, t1), r.liquidityRate * (t2 - t1), f1, f2,
                 RayMul(f1, index), RayMul(f2, index), LTokenBalance(r, u, t1), LTokenBalance(r, u, t2));
  }

  lemma FactorDifference(rate: int, n1: int, n2: int, g1: int, g2: int)
    requires g1 * ONE_YEAR <= rate * n1 < g1 * ONE_YEAR + ONE_YEAR
    requires g2 * ONE_YEAR <= rate * n2 < g2 * ONE_YEAR + ONE_YEAR
    ensures -ONE_YEAR <= (g2 - g1) * ONE_YEAR - rate * (n2 - n1) <= ONE_YEAR
  {
    assert rate * (n2 - n1) == rate * n2 - rate * n1;
  }

  lemma GrowthBounds(scaled: int, index: int, claim: int, df: int, di: int, growth: int, earned: int,
                     f1: int, f2: int, i1: int, i2: int, c1: int, c2: int)
    requires 0 <= scaled <= claim && 0 <= index && 0 <= earned
    requires df == f2 - f1 && di == i2 - i1 && growth == c2 - c1
    requires -HALF_RAY < claim * RAY - scaled * index <= HALF_RAY
    requires -HALF_RAY < i1 * RAY - f1 * index <= HALF_RAY && -HALF_RAY < i2 * RAY - f2 * index <= HALF_RAY
    requires -HALF_RAY < c1 * RAY - scaled * i1 <= HALF_RAY && -HALF_RAY < c2 * RAY - scaled * i2 <= HALF_RAY
    requires -ONE_YEAR <= df * ONE_YEAR - earned <= ONE_YEAR
    ensures (2 * claim - 1) * earned - ONE_YEAR * (4 * claim + 1 + 2 * RAY) <= 2 * RAY * ONE_YEAR * growth
      <= (2 * claim + 1) * earned + ONE_YEAR * (4 * claim + 1 + 2 * RAY)
  {
    var held := scaled * index;
    DifferenceTimes(f1, f2, index);
    DifferenceTimes(i1, i2, scaled);
    RoundedDifference(i1, i2, f1 * index, f2 * index);
    RoundedDifference(c1, c2, i1 * scaled, i2 * scaled);
    GrowthInRays(scaled, index, df, di, growth);
    NonNegativeProducts(scaled, index);
    YearlyGrowth(held, df, earned);
    HeldIsClaim(held, claim, earned);
    GrowthSum(growth, scaled, held, held * df, held * earned, claim, (2 * claim - 1) * earned, (2 * claim + 1) * earned);
  }

  lemma DifferenceTimes(a: int, b: int, k: int)
    ensures (b - a) * k == b * k - a * k
  {
  }

  lemma RoundedDifference(a: int, b: int, p: int, q: int)
    requires -HALF_RAY < a * RAY - p <= HALF_RAY && -HALF_RAY < b * RAY - q <= HALF_RAY
    ensures -RAY <= (b - a) * RAY - (q - p) <= RAY
  {
  }

  /** The roundings put together: everything is linear in the products. */
  lemma GrowthSum(growth: int, scaled: int, held: int, grown: int, yearly: int, claim: int, low: int, high: int)
    requires 0 <= scaled <= claim && held <= claim * RAY + HALF_RAY
    requires -(scaled * RAY + RAY * RAY) <= growth * RAY * RAY - grown <= scaled * RAY + RAY * RAY
    requires -(held * ONE_YEAR) <= grown * ONE_YEAR - yearly <= held * ONE_YEAR
    requires low * HALF_RAY <= yearly <= high * HALF_RAY
    ensures low - ONE_YEAR * (4 * claim + 1 + 2 * RAY) <= 2 * RAY * ONE_YEAR * growth <= high + ONE_YEAR * (4 * claim + 1 + 2 * RAY)
  {
  }

  lemma NonNegativeProducts(a: int, b: int)
    requires 0 <= a && 0 <= b
    ensures 0 <= a * b
  {
  }

  lemma GrowthInRays(scaled: int, index: int, df: int, di: int, growth: int)
    requires 0 <= scaled
    requires -RAY <= di * RAY - df * index <= RAY && -RAY <= growth * RAY - di * scaled <= RAY
    ensures -(scaled * RAY + RAY * RAY) <= growth * RAY * RAY - scaled * index * df <= scaled * RAY + RAY * RAY
  {
    assert growth * RAY * RAY - scaled * di * RAY == (growth * RAY - scaled * di) * RAY;
    ProductLe(scaled, -RAY, di * RAY - df * index);
    ProductLe(scaled, di * RAY - df * index, RAY);
    assert scaled * (di * RAY - df * index) == scaled * di * RAY - scaled * index * df;
  }

  lemma YearlyGrowth(held: int, df: int, earned: int)
    requires 0 <= held && -ONE_YEAR <= df * ONE_YEAR - earned <= ONE_YEAR
    ensures -(held * ONE_YEAR) <= held * df * ONE_YEAR - held * earned <= held * ONE_YEAR
  {
    ProductLe(held, -ONE_YEAR, df * ONE_YEAR - earned);
    ProductLe(held, df * ONE_YEAR - earned, ONE_YEAR);
    assert held * (df * ONE_YEAR - earned) == held * df * ONE_YEAR - held * earned;
  }

  lemma HeldIsClaim(held: int, claim: int, earned: int)
    requires 0 <= earned && -HALF_RAY < claim * RAY - held <= HALF_RAY
    ensures (2 * claim - 1) * earned * HALF_RAY <= held * earned <= (2 * claim + 1) * earned * HALF_RAY
  {
    assert RAY == 2 * HALF_RAY;
    ProductLe(earned, (2 * claim - 1) * HALF_RAY, held);
    ProductLe(earned, held, (2 * claim + 1) * HALF_RAY);
    assert earned * ((2 * claim - 1) * HALF_RAY) == (2 * claim - 1) * earned * HALF_RAY;
    assert earned * ((2 * claim + 1) * HALF_RAY) == (2 * claim + 1) * earned * HALF_RAY;
  }

  // ---------- accruing in two steps ----------

  /** Splitting an accrual at an unchanged rate can only lose the truncation of the first factor and two roundings. */
  lemma TwoStepAccrual(rate: int, index: int, t0: int, t1: int, t2: int)
    requires rate >= 0 && index >= RAY && t0 <= t1 <= t2
    ensures var second := LinearInterest(rate, t2, t1);
      var once := RayMul(LinearInterest(rate, t2, t0), index);
      var twice := RayMul(second, RayMul(LinearInterest(rate, t1, t0), index));
      2 * RAY * once <= 2 * RAY * twice + 2 * index + second + 2 * RAY
  {
    hide RayMul, LinearInterest;
    var first, second, whole := LinearInterest(rate, t1, t0), LinearInterest(rate, t2, t1), LinearInterest(rate, t2, t0);
    LinearMonotone(rate, rate, t1, t1, t0);
    LinearMonotone(rate, rate, t2, t2, t1);
    LinearMonotone(rate, rate, t2, t2, t0);
    LinearSplits(rate, t0, t1, t2);
    var middle := RayMul(first, index);
    RayMulBounds(first, index);
    RayMulBounds(second, middle);
    RayMulBounds(whole, index);
    TwoStepChain(index, first - RAY, second - RAY, whole, middle, RayMul(second, middle), RayMul(whole, index));
  }

  lemma LinearSplits(rate: int, t0: int, t1: int, t2: int)
    requires rate >= 0 && t0 <= t1 <= t2
    ensures LinearInterest(rate, t2, t0) <= LinearInterest(rate, t1, t0) + LinearInterest(rate, t2, t1) - RAY + 1
  {
    hide TruncDiv;
    assert rate * (t2 - t0) == rate * (t1 - t0) + rate * (t2 - t1);
    assert rate * (t1 - t0) >= 0 && rate * (t2 - t1) >= 0;
    QuotientBounds(rate * (t1 - t0), ONE_YEAR);
    QuotientBounds(rate * (t2 - t1), ONE_YEAR);
    QuotientBounds(rate * (t2 - t0), ONE_YEAR);
  }

  lemma TwoStepChain(index: int, k1: int, k2: int, whole: int, middle: int, twice: int, once: int)
    requires index >= RAY && k1 >= 0 && k2 >= 0
    requires whole <= RAY + k1 + k2 + 1
    requires -HALF_RAY < middle * RAY - (RAY + k1) * index
    requires -HALF_RAY < twice * RAY - (RAY + k2) * middle
    requires once * RAY - whole * index <= HALF_RAY
    ensures 2 * RAY * once <= 2 * RAY * twice + 2 * index + (RAY + k2) + 2 * RAY
  {
    var f2, grown := RAY + k2, (RAY + k1) * index;
    LowerStep(f2, grown, middle, twice);
    FactorsMultiply(k1, k2, index);
    ProductLe(index, whole, RAY + k1 + k2 + 1);
    assert index * (RAY + k1 + k2 + 1) == (RAY + k1 + k2) * index + index;
  }

  lemma LowerStep(f2: int, grown: int, middle: int, twice: int)
    requires f2 >= 0
    requires -HALF_RAY < middle * RAY - grown
    requires -HALF_RAY < twice * RAY - f2 * middle
    ensures f2 * grown <= RAY * (twice * RAY) + HALF_RAY * RAY + HALF_RAY * f2
  {
    ProductLe(f2, grown - HALF_RAY, middle * RAY);
    assert f2 * (middle * RAY) == RAY * (f2 * middle);
    assert f2 * (grown - HALF_RAY) == f2 * grown - HALF_RAY * f2;
  }

  lemma FactorsMultiply(k1: int, k2: int, index: int)
    requires k1 >= 0 && k2 >= 0 && index >= 0
    ensures RAY * ((RAY + k1 + k2) * index) <= (RAY + k2) * ((RAY + k1) * index)
  {
    assert k1 * k2 >= 0;
    assert (k1 * k2) * index >= 0;
    assert (RAY + k2) * ((RAY + k1) * index) == RAY * ((RAY + k1 + k2) * index) + (k1 * k2) * index;
  }
}
