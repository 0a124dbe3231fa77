/**
  One accrual period keeps the reserve solvent: what depositors are credited is covered by the
  cash in the reserve and by what borrowers are charged.
 */
module Solvency {
  import opened RayMath
  import opened Interest
  import opened Rates
  import opened Reserve
  import opened StableDebt

  /** The reserve's totals add up, and its rates are the ones the strategy sets for them. */
  predicate Priced(s: Strategy, r: ReserveData)
    requires s.Valid()
  {
    && 0 <= r.availableLiquidity && 0 <= r.totalStableDebt && 0 <= r.averageStableBorrowRate
    && 0 <= r.scaledVariableDebt
    && RAY <= r.liquidityIndex && RAY <= r.variableBorrowIndex
    && r.totalVariableDebt == RayMul(r.scaledVariableDebt, r.variableBorrowIndex)
    && r.totalLiquidity == r.availableLiquidity + r.totalStableDebt + r.totalVariableDebt
    && 0 <= r.totalVariableDebt
    && r.utilizationRate == UtilizationRate(r.totalStableDebt, r.totalVariableDebt, r.totalLiquidity)
    && var rates := RatesAt(s, r.marketStableRate, r.utilizationRate, r.totalStableDebt, r.totalVariableDebt,
                            r.averageStableBorrowRate);
       r.liquidityRate == rates.liquidityRate && r.variableBorrowRate == rates.variableBorrowRate
  }

  /** The recorded stable debt is what the principal has grown to by the date of the record. */
  predicate Dated(r: ReserveData) {
    && 0 <= r.principalStableDebt && r.totalStableDebtLastUpdated <= r.lastUpdateTimestamp
    && r.totalStableDebt == TotalStableDebt(r.principalStableDebt, r.averageStableBorrowRate,
                                            r.totalStableDebtLastUpdated, r.lastUpdateTimestamp)
  }

  /**
    Rounding allowance, times two rays, of the stable side: the principal goes on compounding from its
    own date, and from there earns a little less than the recorded total would by itself.
   */
  function StableShortfall(r: ReserveData, now: int): int
    requires r.totalStableDebtLastUpdated <= r.lastUpdateTimestamp <= now
  {
    var x, m, n := TruncDiv(r.averageStableBorrowRate, ONE_YEAR), r.lastUpdateTimestamp - r.totalStableDebtLastUpdated,
      now - r.lastUpdateTimestamp;
    x * n + r.principalStableDebt * (n * Curvature(x, m)) / RAY + 1 + 2 * RAY
  }

  /** The unit in which the solvency inequality is free of fractions. */
  const SOLVENCY_UNIT := 2 * RAY * RAY * WAD_RAY_RATIO * ONE_YEAR

  /**
    Rounding allowance of one period, in solvency units: the rounding of the rates per second that
    passed, and half a unit for every rounded product behind a balance.
   */
  function SolvencySlack(elapsed: int, debts: int, liquidity: int, overall: int,
                         linear: int, compounded: int, scaledClaim: int, scaledDebt: int, stableShortfall: int): int
  {
    elapsed * IncomeSlack(debts, liquidity, overall)
    + 2 * RAY * WAD_RAY_RATIO * (ONE_YEAR - 1) * (elapsed * debts)
    + RAY * WAD_RAY_RATIO * ONE_YEAR * (linear + compounded + scaledClaim + scaledDebt + 2 * RAY + stableShortfall)
  }

  // ---------- balances behind an index ----------

  /** A balance read through a grown index is the old balance grown, up to the rounding of three products. */
  lemma GrownBalance(scaled: int, index: int, factor: int)
    requires scaled >= 0 && index >= RAY && factor >= RAY
    ensures var before, after := RayMul(scaled, index), RayMul(scaled, RayMul(factor, index));
      0 <= before
      && 2 * (factor * before) - (factor + scaled + RAY) <= 2 * RAY * after
      && 2 * RAY * after <= 2 * (factor * before) + (factor + scaled + RAY)
  {
    hide RayMul;
    var grown := RayMul(factor, index);
    var before, after := RayMul(scaled, index), RayMul(scaled, grown);
    RayMulBounds(scaled, index);
    RayMulBounds(factor, index);
    RayMulBounds(scaled, grown);
    GrownChain(scaled, factor, scaled * index, scaled * grown, factor * index, grown, before, after) by {
      assert scaled * (factor * index) == factor * (scaled * index);
    }
  }

  lemma GrownChain(scaled: int, factor: int, si: int, sg: int, fi: int, grown: int, before: int, after: int)
    requires scaled >= 0 && factor >= 0
    requires sg == scaled * grown && scaled * fi == factor * si
    requires -HALF_RAY < before * RAY - si <= HALF_RAY
    requires -HALF_RAY < grown * RAY - fi <= HALF_RAY
    requires -HALF_RAY < after * RAY - sg <= HALF_RAY
    ensures 2 * (factor * before) - (factor + scaled + RAY) <= 2 * RAY * after
    ensures 2 * RAY * after <= 2 * (factor * before) + (factor + scaled + RAY)
  {
    Spread(scaled, grown * RAY - fi);
    Spread(factor, before * RAY - si);
    assert scaled * (grown * RAY - fi) == RAY * (scaled * grown) - scaled * fi;
    assert factor * (before * RAY - si) == RAY * (factor * before) - factor * si;
  }

  lemma Spread(k: int, e: int)
    requires k >= 0 && -HALF_RAY <= e <= HALF_RAY
    ensures -(HALF_RAY * k) <= k * e <= HALF_RAY * k
  {
    ProductLe(k, e, HALF_RAY);
    ProductLe(k, -HALF_RAY, e);
  }

  // ---------- one period ----------

  /** What depositors can claim after the period, times two rays; what they hold in excess of the liquidity grows with it. */
  lemma GrownClaim(r: ReserveData, u: UserReserveData, excess: int, now: int)
    requires Indexed(r, now) && u.scaledLTokenBalance >= 0
    requires RayMul(u.scaledLTokenBalance, r.liquidityIndex) <= r.totalLiquidity + excess
    ensures var linear := LinearInterest(r.liquidityRate, now, r.lastUpdateTimestamp);
      RAY <= linear
      && 2 * RAY * LTokenBalance(r, u, now)
         <= 2 * (linear * r.totalLiquidity) + 2 * (linear * excess) + (linear + u.scaledLTokenBalance + RAY)
  {
    hide RayMul, LinearInterest;
    var linear := LinearInterest(r.liquidityRate, now, r.lastUpdateTimestamp);
    LinearMonotone(r.liquidityRate, r.liquidityRate, now, now, r.lastUpdateTimestamp);
    IncomeIsLinear(r, now);
    GrownBalance(u.scaledLTokenBalance, r.liquidityIndex, linear);
    ProductLe(linear, RayMul(u.scaledLTokenBalance, r.liquidityIndex), r.totalLiquidity + excess);
    assert linear * (r.totalLiquidity + excess) == linear * r.totalLiquidity + linear * excess;
  }

  lemma LinearGain(rate: int, elapsed: int, linear: int, liquidity: int)
    requires rate >= 0 && elapsed >= 0 && liquidity >= 0
    requires linear == TruncDiv(rate * elapsed, ONE_YEAR) + RAY
    ensures ONE_YEAR * ((linear - RAY) * liquidity) <= elapsed * (rate * liquidity)
  {
    hide TruncDiv;
    ProductMonotone(rate, rate, elapsed, elapsed);
    QuotientBounds(rate * elapsed, ONE_YEAR);
    ProductLe(liquidity, (linear - RAY) * ONE_YEAR, rate * elapsed);
    assert liquidity * ((linear - RAY) * ONE_YEAR) == ONE_YEAR * ((linear - RAY) * liquidity);
    assert liquidity * (rate * elapsed) == elapsed * (rate * liquidity);
  }

  /** Compounding charges at least the linear interest, less one unit per second and unit of debt. */
  lemma CompoundedGain(rate: int, last: int, now: int, debt: int)
    requires rate >= 0 && last <= now && debt >= 0
    ensures var compounded := CompoundedInterest(rate, now, last);
      RAY <= compounded
      && (now - last) * (debt * rate) - (ONE_YEAR - 1) * ((now - last) * debt)
         <= ONE_YEAR * ((compounded - RAY) * debt)
  {
    hide TruncDiv, Factor, CompoundedInterest;
    var n := now - last;
    var x := TruncDiv(rate, ONE_YEAR);
    var compounded := CompoundedInterest(rate, now, last);
    CompoundedIsFactor(rate, now, last);
    FactorMonotone(x, x, n, n);
    QuotientBounds(rate, ONE_YEAR);
    CompoundedGainChain(rate, x, n, debt, compounded - RAY);
  }

  lemma CompoundedGainChain(rate: int, x: int, n: int, debt: int, gain: int)
    requires n >= 0 && debt >= 0
    requires rate <= x * ONE_YEAR + (ONE_YEAR - 1)
    requires x * n <= gain
    ensures n * (debt * rate) - (ONE_YEAR - 1) * (n * debt) <= ONE_YEAR * (gain * debt)
  {
    var nd := n * debt;
    assert nd >= 0;
    ProductLe(nd, rate, x * ONE_YEAR + (ONE_YEAR - 1));
    assert nd * rate == n * (debt * rate);
    assert nd * (x * ONE_YEAR + (ONE_YEAR - 1)) == ONE_YEAR * (nd * x) + (ONE_YEAR - 1) * nd;
    ProductLe(debt, x * n, gain);
    assert debt * (x * n) == nd * x;
    assert debt * gain == gain * debt;
  }

  /** What variable borrowers owe after the period, times two rays. */
  lemma GrownVariableDebt(r: ReserveData, now: int)
    requires Indexed(r, now) && r.scaledVariableDebt >= 0
    requires r.totalVariableDebt == RayMul(r.scaledVariableDebt, r.variableBorrowIndex)
    ensures var compounded := CompoundedInterest(r.variableBorrowRate, now, r.lastUpdateTimestamp);
      RAY <= compounded
      && 2 * (compounded * r.totalVariableDebt) - (compounded + r.scaledVariableDebt + RAY)
         <= 2 * RAY * RayMul(r.scaledVariableDebt, VariableBorrowIndex(r, now))
  {
    hide RayMul, CompoundedInterest;
    var compounded := CompoundedInterest(r.variableBorrowRate, now, r.lastUpdateTimestamp);
    CompoundedMonotone(r.variableBorrowRate, r.variableBorrowRate, now, now, r.lastUpdateTimestamp);
    GrownBalance(r.scaledVariableDebt, r.variableBorrowIndex, compounded);
    if r.totalVariableDebt == 0 {
      assert compounded * 0 == 0;
    }
  }

  /** What stable borrowers owe after the period is at least the recorded debt with simple interest, up to the allowance. */
  lemma GrownStableDebt(r: ReserveData, now: int)
    requires Dated(r) && 0 <= r.averageStableBorrowRate && r.lastUpdateTimestamp <= now
    ensures var x, n := TruncDiv(r.averageStableBorrowRate, ONE_YEAR), now - r.lastUpdateTimestamp;
      0 <= x && 0 <= r.totalStableDebt
      && 2 * (RAY * r.totalStableDebt + x * n * r.totalStableDebt) - StableShortfall(r, now)
         <= 2 * RAY * TotalStableDebt(r.principalStableDebt, r.averageStableBorrowRate, r.totalStableDebtLastUpdated, now)
  {
    hide RayMul, TruncDiv, CompoundedInterest, Factor, Curvature, TotalStableDebt;
    var rate, last := r.averageStableBorrowRate, r.totalStableDebtLastUpdated;
    var x, m, n := TruncDiv(rate, ONE_YEAR), r.lastUpdateTimestamp - last, now - r.lastUpdateTimestamp;
    var p := r.principalStableDebt;
    TotalNearFactor(p, rate, last, r.lastUpdateTimestamp);
    TotalNearFactor(p, rate, last, now);
    assert now - last == m + n;
    FactorGain(x, m, n);
    RoundedUp(p * (n * Curvature(x, m)));
    NonNegativeGain(x, n);
    PrincipalGain(p, x * n, Factor(x, m), Factor(x, m + n), n * Curvature(x, m), r.totalStableDebt,
                  TotalStableDebt(p, rate, last, now), p * (n * Curvature(x, m)) / RAY + 1);
  }

  lemma RoundedUp(a: int)
    ensures a <= (a / RAY + 1) * RAY
  {
  }

  lemma NonNegativeGain(x: int, n: int)
    requires x >= 0 && n >= 0
    ensures x * n >= 0
  {
  }

  lemma TotalNearFactor(p: int, rate: int, last: int, now: int)
    requires p >= 0 && rate >= 0 && last <= now
    ensures TruncDiv(rate, ONE_YEAR) >= 0
    ensures var total, factor := TotalStableDebt(p, rate, last, now), Factor(TruncDiv(rate, ONE_YEAR), now - last);
      0 <= total && -HALF_RAY < total * RAY - factor * p <= HALF_RAY
  {
    hide RayMul, TruncDiv, CompoundedInterest, Factor;
    CompoundedIsFactor(rate, now, last);
    FactorMonotone(TruncDiv(rate, ONE_YEAR), TruncDiv(rate, ONE_YEAR), now - last, now - last);
    RayMulBounds(Factor(TruncDiv(rate, ONE_YEAR), now - last), p);
  }

  lemma PrincipalGain(p: int, xn: int, before: int, after: int, curvature: int, total: int, totalAfter: int, share: int)
    requires p >= 0 && xn >= 0
    requires 2 * (xn * before) - curvature <= 2 * RAY * (after - before)
    requires total * RAY - before * p <= HALF_RAY && -HALF_RAY < total * RAY - before * p
    requires -HALF_RAY < totalAfter * RAY - after * p
    requires p * curvature <= share * RAY
    ensures 2 * (RAY * total + xn * total) - (xn + share + 2 * RAY) <= 2 * RAY * totalAfter
  {
    ProductLe(p, 2 * (xn * before) - curvature, 2 * RAY * (after - before));
    assert p * (2 * (xn * before) - curvature) == 2 * (xn * (before * p)) - p * curvature;
    assert p * (2 * RAY * (after - before)) == 2 * RAY * (after * p - before * p);
    ProductLe(xn, total * RAY - HALF_RAY, before * p);
    assert xn * (total * RAY - HALF_RAY) == RAY * (xn * total) - HALF_RAY * xn;
  }

  /** Simple interest per second is at least the yearly interest, less one unit per second and unit of debt. */
  lemma SimpleGain(rate: int, n: int, debt: int)
    requires rate >= 0 && n >= 0 && debt >= 0
    ensures n * (debt * rate) - (ONE_YEAR - 1) * (n * debt) <= ONE_YEAR * (TruncDiv(rate, ONE_YEAR) * n * debt)
  {
    hide TruncDiv;
    QuotientBounds(rate, ONE_YEAR);
    CompoundedGainChain(rate, TruncDiv(rate, ONE_YEAR), n, debt, TruncDiv(rate, ONE_YEAR) * n);
  }

  /** Putting the three sides together; every product below is a single unknown to the arithmetic. */
  lemma Balance(
    available: int, stable: int, variable: int, liquidity: int,
    claim: int, stableAfter: int, variableAfter: int,
    linearGain: int, stableGain: int, variableGain: int,
    income: int, owed: int, elapsedDebts: int, incomeSlack: int,
    linear: int, compounded: int, scaledClaim: int, scaledDebt: int, stableShortfall: int, excessGrown: int)
    requires liquidity == available + stable + variable
    requires 2 * RAY * claim <= 2 * (RAY * liquidity + linearGain) + 2 * excessGrown + (linear + scaledClaim + RAY)
    requires 2 * (RAY * variable + variableGain) - (compounded + scaledDebt + RAY) <= 2 * RAY * variableAfter
    requires 2 * (RAY * stable + stableGain) - stableShortfall <= 2 * RAY * stableAfter
    requires ONE_YEAR * linearGain <= income
    requires owed - (ONE_YEAR - 1) * elapsedDebts <= ONE_YEAR * (stableGain + variableGain)
    requires 2 * RAY * WAD_RAY_RATIO * income <= 2 * RAY * WAD_RAY_RATIO * owed + incomeSlack
    ensures SOLVENCY_UNIT * claim <= SOLVENCY_UNIT * (available + stableAfter + variableAfter)
      + incomeSlack + 2 * RAY * WAD_RAY_RATIO * (ONE_YEAR - 1) * elapsedDebts
      + RAY * WAD_RAY_RATIO * ONE_YEAR * (linear + compounded + scaledClaim + scaledDebt + 2 * RAY + stableShortfall)
      + 2 * RAY * WAD_RAY_RATIO * ONE_YEAR * excessGrown
  {
  }

  /** The rounding allowance of one period from a reserve, for depositors that hold a scaled amount together. */
  function PeriodSlack(r: ReserveData, scaledClaim: int, now: int): int
    requires Indexed(r, now) && r.totalStableDebtLastUpdated <= r.lastUpdateTimestamp
  {
    SolvencySlack(now - r.lastUpdateTimestamp, r.totalStableDebt + r.totalVariableDebt, r.totalLiquidity,
                  OverallBorrowRate(r.totalStableDebt, r.totalVariableDebt, r.variableBorrowRate, r.averageStableBorrowRate),
                  LinearInterest(r.liquidityRate, now, r.lastUpdateTimestamp),
                  CompoundedInterest(r.variableBorrowRate, now, r.lastUpdateTimestamp),
                  scaledClaim, r.scaledVariableDebt, StableShortfall(r, now))
  }

  lemma PricedIsIndexed(s: Strategy, r: ReserveData, now: int)
    requires s.Valid() && Priced(s, r) && r.lastUpdateTimestamp <= now
    ensures Indexed(r, now)
  {
    hide RayMul, RatesAt, UtilizationRate, OverallBorrowRate, InterestOwed, IncomeSlack;
    LendersPaidByBorrowers(s, r.marketStableRate, r.totalStableDebt, r.totalVariableDebt, r.averageStableBorrowRate,
                           r.totalLiquidity);
  }

  /**
    Solvency of one accrual period.  If what depositors hold exceeds the liquidity of a priced reserve
    by no more than some amount, then after any time it exceeds the cash and the debts that an update
    accrues by no more than that amount grown by the period, and the stated rounding allowance.
   */
  lemma AccrualKeepsSolvency(s: Strategy, r: ReserveData, depositors: UserReserveData, excess: int, now: int)
    requires s.Valid() && Priced(s, r) && Dated(r) && r.lastUpdateTimestamp <= now
    requires depositors.scaledLTokenBalance >= 0
    requires LTokenBalance(r, depositors, r.lastUpdateTimestamp) <= r.totalLiquidity + excess
    ensures Indexed(r, now)
    ensures SOLVENCY_UNIT * LTokenBalance(r, depositors, now)
      <= SOLVENCY_UNIT * (r.availableLiquidity
                          + TotalStableDebt(r.principalStableDebt, r.averageStableBorrowRate, r.totalStableDebtLastUpdated, now)
                          + RayMul(r.scaledVariableDebt, VariableBorrowIndex(r, now)))
         + PeriodSlack(r, depositors.scaledLTokenBalance, now)
         + 2 * RAY * WAD_RAY_RATIO * ONE_YEAR * (LinearInterest(r.liquidityRate, now, r.lastUpdateTimestamp) * excess)
  {
    hide RayMul, TruncDiv, CompoundedInterest, LinearInterest, TotalStableDebt, RatesAt, UtilizationRate, OverallBorrowRate,
         VariableBorrowIndex, LTokenBalance, InterestOwed, IncomeSlack, StableShortfall, Dated;
    var last, n := r.lastUpdateTimestamp, now - r.lastUpdateTimestamp;
    var stable, variable, liquidity := r.totalStableDebt, r.totalVariableDebt, r.totalLiquidity;
    var linear := LinearInterest(r.liquidityRate, now, last);
    var cv := CompoundedInterest(r.variableBorrowRate, now, last);
    var stableGain := TruncDiv(r.averageStableBorrowRate, ONE_YEAR) * n * stable;
    PricedIsIndexed(s, r, now);
    DatedOrder(r);
    LendersPaidByBorrowers(s, r.marketStableRate, stable, variable, r.averageStableBorrowRate, liquidity);
    ClaimAtOnce(r, depositors);
    GrownClaim(r, depositors, excess, now);
    GrownVariableDebt(r, now);
    GrownStableDebt(r, now);
    CompoundedGain(r.variableBorrowRate, last, now, variable);
    SimpleGain(r.averageStableBorrowRate, n, stable);
    LinearParts(r.liquidityRate, last, now, liquidity);
    var owed := InterestOwed(stable, variable, r.averageStableBorrowRate, r.variableBorrowRate);
    var overall := OverallBorrowRate(stable, variable, r.variableBorrowRate, r.averageStableBorrowRate);
    ElapsedIncome(n, r.liquidityRate * liquidity, owed, IncomeSlack(stable + variable, liquidity, overall));
    ElapsedOwed(n, stable, variable, r.averageStableBorrowRate, r.variableBorrowRate);
    FactorSplits(linear, liquidity);
    FactorSplits(cv, variable);
    Balance(r.availableLiquidity, stable, variable, liquidity, LTokenBalance(r, depositors, now),
            TotalStableDebt(r.principalStableDebt, r.averageStableBorrowRate, r.totalStableDebtLastUpdated, now),
            RayMul(r.scaledVariableDebt, VariableBorrowIndex(r, now)),
            (linear - RAY) * liquidity, stableGain, (cv - RAY) * variable,
            n * (r.liquidityRate * liquidity), n * owed, n * (stable + variable),
            n * IncomeSlack(stable + variable, liquidity, overall),
            linear, cv, depositors.scaledLTokenBalance, r.scaledVariableDebt, StableShortfall(r, now), linear * excess);
  }

  lemma DatedOrder(r: ReserveData)
    requires Dated(r)
    ensures r.totalStableDebtLastUpdated <= r.lastUpdateTimestamp
  {
    hide TotalStableDebt;
  }

  lemma FactorSplits(factor: int, amount: int)
    ensures factor * amount == RAY * amount + (factor - RAY) * amount
  {
  }

  lemma ClaimAtOnce(r: ReserveData, u: UserReserveData)
    requires RAY <= r.liquidityIndex && RAY <= r.variableBorrowIndex
    ensures LTokenBalance(r, u, r.lastUpdateTimestamp) == RayMul(u.scaledLTokenBalance, r.liquidityIndex)
  {
    IndexesAtOnce(r);
  }

  lemma LinearParts(rate: int, last: int, now: int, liquidity: int)
    requires rate >= 0 && last <= now && liquidity >= 0
    ensures ONE_YEAR * ((LinearInterest(rate, now, last) - RAY) * liquidity) <= (now - last) * (rate * liquidity)
  {
    hide TruncDiv;
    LinearGain(rate, now - last, LinearInterest(rate, now, last), liquidity);
  }

  lemma ElapsedIncome(n: int, income: int, owed: int, slack: int)
    requires n >= 0
    requires 2 * RAY * WAD_RAY_RATIO * income <= 2 * RAY * WAD_RAY_RATIO * owed + slack
    ensures 2 * RAY * WAD_RAY_RATIO * (n * income) <= 2 * RAY * WAD_RAY_RATIO * (n * owed) + n * slack
  {
    var k := 2 * RAY * WAD_RAY_RATIO;
    ProductLe(n, k * income, k * owed + slack);
    assert n * (k * income) == k * (n * income);
    assert n * (k * owed + slack) == k * (n * owed) + n * slack;
  }

  lemma ElapsedOwed(n: int, stable: int, variable: int, averageRate: int, variableRate: int)
    ensures n * InterestOwed(stable, variable, averageRate, variableRate)
      == n * (variable * variableRate) + n * (stable * averageRate)
    ensures n * (stable + variable) == n * stable + n * variable
  {
  }
}
