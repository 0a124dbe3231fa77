/**
  Utilization, the kinked rate curve, and the rate credited to depositors.
 */
module Rates {
  import opened RayMath

  /** Parameters of one reserve's interest rate strategy, with the reserve factor in basis points. */
  datatype Strategy = Strategy(
    optimalUtilizationRate: int,
    baseVariableBorrowRate: int,
    variableRateSlope1: int,
    variableRateSlope2: int,
    stableRateSlope1: int,
    stableRateSlope2: int,
    reserveFactor: int)
  {
    predicate Valid() {
      && 0 < optimalUtilizationRate < RAY
      && 0 <= baseVariableBorrowRate
      && 0 <= variableRateSlope1 && 0 <= variableRateSlope2
      && 0 <= stableRateSlope1 && 0 <= stableRateSlope2
      && 0 <= reserveFactor <= PERCENTAGE_FACTOR
    }
  }

  datatype InterestRates = InterestRates(liquidityRate: int, stableBorrowRate: int, variableBorrowRate: int)

  function UtilizationRate(totalStableDebt: int, totalVariableDebt: int, totalLiquidity: int): int
    requires totalLiquidity == 0 ==> totalStableDebt == 0 && totalVariableDebt == 0
  {
    if totalStableDebt == 0 && totalVariableDebt == 0 then
      0
    else
      RayDiv(totalStableDebt + totalVariableDebt, totalLiquidity)
  }

  function OverallBorrowRate(totalStableDebt: int, totalVariableDebt: int, variableRate: int, averageStableRate: int): int {
    var totalBorrows := totalStableDebt + totalVariableDebt;
    if totalBorrows == 0 then
      0
    else
      var weightedVariableRate := RayMul(WadToRay(totalVariableDebt), variableRate);
      var weightedStableRate := RayMul(WadToRay(totalStableDebt), averageStableRate);
      RayDiv(weightedVariableRate + weightedStableRate, WadToRay(totalBorrows))
  }

  /** One kinked curve: `slope1` is climbed up to the optimum, `slope2` between the optimum and full use. */
  function KinkedRate(base: int, slope1: int, slope2: int, optimal: int, utilization: int): int
    requires 0 < optimal < RAY
  {
    if utilization > optimal then
      base + slope1 + RayMul(slope2, RayDiv(utilization - optimal, RAY - optimal))
    else
      base + RayMul(slope1, RayDiv(utilization, optimal))
  }

  function VariableRate(s: Strategy, utilization: int): int
    requires s.Valid()
  {
    KinkedRate(s.baseVariableBorrowRate, s.variableRateSlope1, s.variableRateSlope2,
               s.optimalUtilizationRate, utilization)
  }

  function StableRate(s: Strategy, marketStableRate: int, utilization: int): int
    requires s.Valid()
  {
    KinkedRate(marketStableRate, s.stableRateSlope1, s.stableRateSlope2,
               s.optimalUtilizationRate, utilization)
  }

  /** The depositors' share: the overall rate on the utilized part, less the reserve factor. */
  function LiquidityRate(s: Strategy, overallRate: int, utilization: int): int {
    PercentMul(RayMul(overallRate, utilization), PERCENTAGE_FACTOR - s.reserveFactor)
  }

  function RatesAt(s: Strategy, marketStableRate: int, utilization: int,
                   totalStableDebt: int, totalVariableDebt: int, averageStableRate: int): InterestRates
    requires s.Valid()
  {
    var variable := VariableRate(s, utilization);
    var overall := OverallBorrowRate(totalStableDebt, totalVariableDebt, variable, averageStableRate);
    InterestRates(LiquidityRate(s, overall, utilization), StableRate(s, marketStableRate, utilization), variable)
  }

  /** The rate calculation as it runs: two accumulators are topped up along the branch that applies. */
  method CalcInterestRates(s: Strategy, marketStableRate: int, utilizationRate: int,
                           totalStableDebt: int, totalVariableDebt: int, averageStableBorrowRate: int)
      returns (rates: InterestRates)
    requires s.Valid()
    ensures rates == RatesAt(s, marketStableRate, utilizationRate, totalStableDebt, totalVariableDebt,
                             averageStableBorrowRate)
  {
    hide RayMul, RayDiv, PercentMul;
    var stableBorrowRate := marketStableRate;
    var variableBorrowRate := s.baseVariableBorrowRate;
    var optimalRate := s.optimalUtilizationRate;
    var excessRate := RAY - optimalRate;
    if utilizationRate > optimalRate {
      var excessUtilizationRateRatio := RayDiv(utilizationRate - s.optimalUtilizationRate, excessRate);
      stableBorrowRate := stableBorrowRate + s.stableRateSlope1 +
      RayMul(s.stableRateSlope2, excessUtilizationRateRatio);
      variableBorrowRate := variableBorrowRate + s.variableRateSlope1 +
      RayMul(s.variableRateSlope2, excessUtilizationRateRatio);
    } else {
      stableBorrowRate := stableBorrowRate +
      RayMul(s.stableRateSlope1, RayDiv(utilizationRate, optimalRate));
      variableBorrowRate := variableBorrowRate +
      RayMul(RayDiv(utilizationRate, optimalRate), s.variableRateSlope1);
      RayMulCommutes(RayDiv(utilizationRate, optimalRate), s.variableRateSlope1);
    }
    var expectedOverallRate := OverallBorrowRate(totalStableDebt, totalVariableDebt,
                                                 variableBorrowRate, averageStableBorrowRate);
    var liquidityRate := PercentMul(RayMul(expectedOverallRate, utilizationRate),
                                    PERCENTAGE_FACTOR - s.reserveFactor);
    rates := InterestRates(liquidityRate, stableBorrowRate, variableBorrowRate);
  }

  // ---------- utilization ----------

  /** Utilization stays within one ray exactly when the debts do not exceed the liquidity, up to rounding. */
  lemma UtilizationAtMostRay(stable: int, variable: int, liquidity: int)
    requires stable >= 0 && variable >= 0 && liquidity > 0
    ensures 0 <= UtilizationRate(stable, variable, liquidity)
    ensures UtilizationRate(stable, variable, liquidity) <= RAY
      <==> (stable + variable - liquidity) * RAY < liquidity - liquidity / 2
  {
    hide RayDiv;
    if stable + variable > 0 {
      RayDivBounds(stable + variable, liquidity);
      QuotientAtMostRay(stable + variable, liquidity, RayDiv(stable + variable, liquidity));
    }
  }

  lemma QuotientAtMostRay(debts: int, liquidity: int, u: int)
    requires liquidity > 0
    requires u * liquidity <= liquidity / 2 + debts * RAY < u * liquidity + liquidity
    ensures u <= RAY <==> (debts - liquidity) * RAY < liquidity - liquidity / 2
  {
    WithinRay(debts * RAY, liquidity, liquidity / 2, u, u * liquidity);
  }

  lemma WithinRay(scaledDebts: int, liquidity: int, half: int, u: int, product: int)
    requires liquidity > 0 && product == u * liquidity
    requires product <= half + scaledDebts < product + liquidity
    ensures u <= RAY <==> scaledDebts - RAY * liquidity < liquidity - half
  {
    if u <= RAY {
      ProductLe(liquidity, u, RAY);
    } else {
      ProductLe(liquidity, RAY + 1, u);
    }
  }

  lemma RayDivSelf(a: int)
    requires a > 0
    ensures RayDiv(a, a) == RAY
  {
    assert TruncDiv(a, 2) == a / 2;
    QuotientUnique(a / 2 + a * RAY, a, RAY);
  }

  lemma UtilizationMonotone(debts: int, more: int, available: int)
    requires 0 <= debts <= more && available >= 0 && available + debts > 0
    ensures 0 <= RayDiv(debts, available + debts) <= RayDiv(more, available + more)
  {
    hide RayDiv;
    RayDivBounds(debts, available + debts);
    RayDivBounds(more, available + more);
    if available == 0 {
      RayDivSelf(debts);
      RayDivSelf(more);
    } else if debts < more {
      CrossRatios(debts, more, available, RayDiv(debts, available + debts), RayDiv(more, available + more));
    }
  }

  /** If the larger ratio were rounded below the smaller one, the two roundings would have to overlap. */
  lemma CrossRatios(debts: int, more: int, available: int, u: int, v: int)
    requires 0 <= debts < more && available > 0
    requires u * (available + debts) <= (available + debts) / 2 + debts * RAY
    requires (available + more) / 2 + more * RAY < v * (available + more) + (available + more)
    ensures u <= v
  {
    var a, b := available + debts, available + more;
    CrossedProducts(debts, more, available);
    if u > v {
      ProductLe(a, v + 1, u);
      CrossContradiction(a, b, debts, more, v + 1);
    }
  }

  lemma CrossedProducts(debts: int, more: int, available: int)
    requires 0 <= debts < more && available > 0
    ensures debts * (available + more) < more * (available + debts)
  {
    assert more * (available + debts) - debts * (available + more) == (more - debts) * available;
    assert (more - debts) * available > 0;
  }

  lemma CrossContradiction(a: int, b: int, debts: int, more: int, w: int)
    requires 0 < a && 0 < b && debts * b < more * a
    requires 2 * (w * a) <= a + 2 * debts * RAY
    ensures b + 2 * more * RAY > 2 * (w * b)
  {
    assert b * (2 * (w * a)) == a * (2 * (w * b));
    assert b * (a + 2 * debts * RAY) == a * b + 2 * RAY * (debts * b);
    assert a * (b + 2 * more * RAY) == a * b + 2 * RAY * (more * a);
    if b + 2 * more * RAY <= 2 * (w * b) {
      ProductLe(b, 2 * (w * a), a + 2 * debts * RAY);
      ProductLe(a, b + 2 * more * RAY, 2 * (w * b));
    }
  }

  // ---------- the kinked curve ----------

  lemma ExcessRatioInRange(optimal: int, u: int)
    requires 0 < optimal < u <= RAY
    ensures 0 <= RayDiv(u - optimal, RAY - optimal) <= RAY
  {
    hide RayDiv;
    RayDivMonotone(u - optimal, RAY - optimal, RAY - optimal);
    RayDivSelf(RAY - optimal);
  }

  lemma BaseRatioInRange(optimal: int, u: int)
    requires 0 < optimal < RAY && 0 <= u <= optimal
    ensures 0 <= RayDiv(u, optimal) <= RAY
  {
    hide RayDiv;
    RayDivMonotone(u, optimal, optimal);
    RayDivSelf(optimal);
  }

  /** The curve never leaves the band between its base and the sum of base and slopes. */
  lemma KinkedRateInBand(base: int, slope1: int, slope2: int, optimal: int, u: int)
    requires slope1 >= 0 && slope2 >= 0 && 0 < optimal < RAY && 0 <= u <= RAY
    ensures base <= KinkedRate(base, slope1, slope2, optimal, u) <= base + slope1 + slope2
    ensures u <= optimal ==> KinkedRate(base, slope1, slope2, optimal, u) <= base + slope1
    ensures u >= optimal ==> KinkedRate(base, slope1, slope2, optimal, u) >= base + slope1
  {
    hide RayDiv, RayMul;
    if u > optimal {
      ExcessRatioInRange(optimal, u);
      RayMulMonotone(slope2, RayDiv(u - optimal, RAY - optimal), slope2, RAY);
      RayMulByRay(slope2);
    } else {
      BaseRatioInRange(optimal, u);
      RayMulMonotone(slope1, RayDiv(u, optimal), slope1, RAY);
      RayMulByRay(slope1);
      KinkValues(base, slope1, slope2, optimal);
    }
  }

  /** At the optimum exactly the first slope has been climbed, at full use both have, at rest none. */
  lemma KinkValues(base: int, slope1: int, slope2: int, optimal: int)
    requires slope1 >= 0 && slope2 >= 0 && 0 < optimal < RAY
    ensures KinkedRate(base, slope1, slope2, optimal, 0) == base
    ensures KinkedRate(base, slope1, slope2, optimal, optimal) == base + slope1
    ensures KinkedRate(base, slope1, slope2, optimal, RAY) == base + slope1 + slope2
  {
    hide RayDiv, RayMul;
    RayDivSelf(optimal);
    RayDivSelf(RAY - optimal);
    RayMulByRay(slope1);
    RayMulByRay(slope2);
    RayDivZero(optimal);
    RayMulZero(slope1);
  }

  lemma RayDivZero(b: int)
    requires b > 0
    ensures RayDiv(0, b) == 0
  {
    assert TruncDiv(b, 2) == b / 2;
    QuotientUnique(b / 2, b, 0);
  }

  /** More use never lowers a rate, whether both points lie on one side of the kink or on both. */
  lemma KinkedRateMonotone(base: int, slope1: int, slope2: int, optimal: int, u1: int, u2: int)
    requires slope1 >= 0 && slope2 >= 0 && 0 < optimal < RAY && 0 <= u1 <= u2
    ensures base <= KinkedRate(base, slope1, slope2, optimal, u1) <= KinkedRate(base, slope1, slope2, optimal, u2)
  {
    hide RayDiv, RayMul;
    if u2 > optimal {
      RayDivMonotone(if u1 > optimal then u1 - optimal else 0, u2 - optimal, RAY - optimal);
      RayMulMonotone(slope2, RayDiv(if u1 > optimal then u1 - optimal else 0, RAY - optimal),
                     slope2, RayDiv(u2 - optimal, RAY - optimal));
      if u1 > optimal {
      } else {
        KinkedRateInBand(base, slope1, slope2, optimal, u1);
      }
    } else {
      RayDivMonotone(u1, u2, optimal);
      RayMulMonotone(slope1, RayDiv(u1, optimal), slope1, RayDiv(u2, optimal));
    }
    if u1 > optimal {
      RayDivMonotone(0, u1 - optimal, RAY - optimal);
      RayMulMonotone(slope2, 0, slope2, RayDiv(u1 - optimal, RAY - optimal));
    } else {
      KinkedRateInBand(base, slope1, slope2, optimal, u1);
    }
  }

  /** Both borrow rates of a strategy are monotone in utilization and stay inside their bands. */
  lemma BorrowRatesFollowUtilization(s: Strategy, market: int, u1: int, u2: int)
    requires s.Valid() && 0 <= u1 <= u2 <= RAY
    ensures VariableRate(s, u1) <= VariableRate(s, u2)
    ensures StableRate(s, market, u1) <= StableRate(s, market, u2)
    ensures s.baseVariableBorrowRate <= VariableRate(s, u1)
    ensures VariableRate(s, u2) <= s.baseVariableBorrowRate + s.variableRateSlope1 + s.variableRateSlope2
    ensures market <= StableRate(s, market, u1)
    ensures StableRate(s, market, u2) <= market + s.stableRateSlope1 + s.stableRateSlope2
    ensures VariableRate(s, s.optimalUtilizationRate) == s.baseVariableBorrowRate + s.variableRateSlope1
    ensures StableRate(s, market, s.optimalUtilizationRate) == market + s.stableRateSlope1
    ensures VariableRate(s, RAY) == s.baseVariableBorrowRate + s.variableRateSlope1 + s.variableRateSlope2
    ensures StableRate(s, market, RAY) == market + s.stableRateSlope1 + s.stableRateSlope2
  {
    hide KinkedRate;
    KinkedRateMonotone(s.baseVariableBorrowRate, s.variableRateSlope1, s.variableRateSlope2, s.optimalUtilizationRate, u1, u2);
    KinkedRateMonotone(market, s.stableRateSlope1, s.stableRateSlope2, s.optimalUtilizationRate, u1, u2);
    KinkedRateInBand(s.baseVariableBorrowRate, s.variableRateSlope1, s.variableRateSlope2, s.optimalUtilizationRate, u2);
    KinkedRateInBand(market, s.stableRateSlope1, s.stableRateSlope2, s.optimalUtilizationRate, u2);
    KinkValues(s.baseVariableBorrowRate, s.variableRateSlope1, s.variableRateSlope2, s.optimalUtilizationRate);
    KinkValues(market, s.stableRateSlope1, s.stableRateSlope2, s.optimalUtilizationRate);
  }

  // ---------- interpolation ----------

  /**
    What is climbed of a slope is the share `part` of `whole`, up to rounding: at most half a unit, and half
    a unit of the share's own rounding.
   */
  predicate Interpolates(climbed: int, slope: int, part: int, whole: int) {
    -(whole * (slope + RAY)) <= 2 * RAY * (climbed * whole - slope * part) <= whole * (slope + RAY)
  }

  /** A share of a slope, by a rounded ratio and a rounded product. */
  lemma ClimbedShare(slope: int, part: int, whole: int)
    requires slope >= 0 && part >= 0 && whole > 0
    ensures Interpolates(RayMul(slope, RayDiv(part, whole)), slope, part, whole)
  {
    hide RayMul, RayDiv;
    var ratio := RayDiv(part, whole);
    var climbed := RayMul(slope, ratio);
    RayDivBounds(part, whole);
    RayMulBounds(slope, ratio);
    ShareBounds(slope, part, whole, ratio, climbed);
  }

  lemma ShareBounds(slope: int, part: int, whole: int, ratio: int, climbed: int)
    requires slope >= 0 && whole > 0
    requires -whole <= 2 * (ratio * whole - part * RAY) <= whole
    requires -HALF_RAY < climbed * RAY - slope * ratio <= HALF_RAY
    ensures Interpolates(climbed, slope, part, whole)
  {
    var a, b := ratio * whole - part * RAY, climbed * RAY - slope * ratio;
    ProductLe(slope, -whole, 2 * a);
    ProductLe(slope, 2 * a, whole);
    ProductLe(whole, -RAY, 2 * b);
    ProductLe(whole, 2 * b, RAY);
    assert RAY * (climbed * whole - slope * part) == whole * b + slope * a by {
      assert whole * b == RAY * (climbed * whole) - slope * (ratio * whole);
      assert slope * a == slope * (ratio * whole) - RAY * (slope * part);
    }
    assert slope * -whole == -(whole * slope) && whole * (slope + RAY) == whole * slope + whole * RAY;
  }

  /**
    Between the points of the kink both borrow rates climb along straight lines: the first slope in
    proportion to the use of the optimum, the second in proportion to the use of what is above it.
   */
  lemma RatesInterpolate(s: Strategy, market: int, u: int, stableDebt: int, variableDebt: int, averageRate: int)
    requires s.Valid() && 0 <= u <= RAY
    ensures var rates, optimal := RatesAt(s, market, u, stableDebt, variableDebt, averageRate), s.optimalUtilizationRate;
      && (u <= optimal ==>
        && Interpolates(rates.variableBorrowRate - s.baseVariableBorrowRate, s.variableRateSlope1, u, optimal)
        && Interpolates(rates.stableBorrowRate - market, s.stableRateSlope1, u, optimal))
      && (u > optimal ==>
        && Interpolates(rates.variableBorrowRate - s.baseVariableBorrowRate - s.variableRateSlope1, s.variableRateSlope2,
                        u - optimal, RAY - optimal)
        && Interpolates(rates.stableBorrowRate - market - s.stableRateSlope1, s.stableRateSlope2,
                        u - optimal, RAY - optimal))
  {
    hide RayMul, RayDiv, OverallBorrowRate, LiquidityRate, Interpolates;
    var optimal := s.optimalUtilizationRate;
    if u <= optimal {
      ClimbedShare(s.variableRateSlope1, u, optimal);
      ClimbedShare(s.stableRateSlope1, u, optimal);
    } else {
      ClimbedShare(s.variableRateSlope2, u - optimal, RAY - optimal);
      ClimbedShare(s.stableRateSlope2, u - optimal, RAY - optimal);
    }
  }

  // ---------- the overall rate ----------

  /** Interest owed per year at the moment: each debt times its own rate. */
  function InterestOwed(stable: int, variable: int, averageRate: int, variableRate: int): int {
    variable * variableRate + stable * averageRate
  }

  lemma WeightedBorrows(stable: int, variable: int, averageRate: int, variableRate: int)
    requires stable >= 0 && variable >= 0 && averageRate >= 0 && variableRate >= 0
    ensures var w := RayMul(WadToRay(variable), variableRate) + RayMul(WadToRay(stable), averageRate);
      0 <= w
      && -RAY <= w * RAY - WAD_RAY_RATIO * InterestOwed(stable, variable, averageRate, variableRate) <= RAY
  {
    hide RayMul;
    RayMulBounds(WadToRay(variable), variableRate);
    RayMulBounds(WadToRay(stable), averageRate);
    assert (variable * WAD_RAY_RATIO) * variableRate == WAD_RAY_RATIO * (variable * variableRate);
    assert (stable * WAD_RAY_RATIO) * averageRate == WAD_RAY_RATIO * (stable * averageRate);
  }

  /** The overall rate times the total debt is the interest owed, up to one ray and half the debt. */
  lemma OverallRateBounds(stable: int, variable: int, averageRate: int, variableRate: int)
    requires stable >= 0 && variable >= 0 && averageRate >= 0 && variableRate >= 0
    ensures var overall := OverallBorrowRate(stable, variable, variableRate, averageRate);
      var total := WadToRay(stable + variable);
      0 <= overall
      && -(2 * RAY + total)
         <= 2 * (overall * total - WAD_RAY_RATIO * InterestOwed(stable, variable, averageRate, variableRate))
         <= 2 * RAY + total
  {
    hide RayMul, RayDiv, InterestOwed;
    var total := WadToRay(stable + variable);
    if stable + variable > 0 {
      WeightedBorrows(stable, variable, averageRate, variableRate);
      var w := RayMul(WadToRay(variable), variableRate) + RayMul(WadToRay(stable), averageRate);
      RayDivBounds(w, total);
    } else {
      NothingOwed(averageRate, variableRate);
    }
  }

  lemma NothingOwed(averageRate: int, variableRate: int)
    ensures InterestOwed(0, 0, averageRate, variableRate) == 0
  {
  }

  /** The overall rate lies between the two rates it averages, within one ray over the debt plus one half. */
  lemma OverallRateBetween(stable: int, variable: int, averageRate: int, variableRate: int)
    requires stable > 0 && variable > 0 && averageRate >= 0 && variableRate >= 0
    ensures var overall := OverallBorrowRate(stable, variable, variableRate, averageRate);
      var total := WadToRay(stable + variable);
      var low := if averageRate <= variableRate then averageRate else variableRate;
      var high := if averageRate <= variableRate then variableRate else averageRate;
      2 * low * total - (2 * RAY + total) <= 2 * overall * total <= 2 * high * total + (2 * RAY + total)
  {
    hide OverallBorrowRate;
    OverallRateBounds(stable, variable, averageRate, variableRate);
    var low := if averageRate <= variableRate then averageRate else variableRate;
    var high := if averageRate <= variableRate then variableRate else averageRate;
    ProductLe(variable, low, variableRate);
    ProductLe(variable, variableRate, high);
    ProductLe(stable, low, averageRate);
    ProductLe(stable, averageRate, high);
  }

  /** Depositors never earn a higher rate than borrowers pay on average. */
  lemma LiquidityRateAtMostOverall(s: Strategy, overall: int, u: int)
    requires s.Valid() && overall >= 0 && 0 <= u
    ensures 0 <= LiquidityRate(s, overall, u) <= RayMul(overall, u)
    ensures u <= RAY ==> LiquidityRate(s, overall, u) <= overall
    ensures u == 0 ==> LiquidityRate(s, overall, u) == 0
  {
    hide RayMul, PercentMul;
    RayMulBounds(overall, u);
    PercentMulShrinks(RayMul(overall, u), PERCENTAGE_FACTOR - s.reserveFactor);
    if u <= RAY {
      RayMulMonotone(overall, u, overall, RAY);
      RayMulByRay(overall);
    }
    RayMulZero(overall);
  }

  /** Rounding allowance, times two rays, of the yearly income credited to depositors. */
  function IncomeSlack(debts: int, liquidity: int, overall: int): int {
    2 * RAY * RAY + RAY * (WAD_RAY_RATIO * debts) + WAD_RAY_RATIO * (liquidity * (overall + RAY))
  }

  /**
    Lenders are never paid more than borrowers owe: the rate credited on all liquidity is at most
    the interest owed on all debts, up to the stated rounding allowance.
   */
  lemma LendersPaidByBorrowers(s: Strategy, market: int, stable: int, variable: int, averageRate: int, liquidity: int)
    requires s.Valid()
    requires stable >= 0 && variable >= 0 && averageRate >= 0 && liquidity >= 0
    requires liquidity == 0 ==> stable == 0 && variable == 0
    ensures var u := UtilizationRate(stable, variable, liquidity);
      var rates := RatesAt(s, market, u, stable, variable, averageRate);
      var overall := OverallBorrowRate(stable, variable, rates.variableBorrowRate, averageRate);
      0 <= rates.liquidityRate && 0 <= rates.variableBorrowRate && 0 <= overall
      && 2 * RAY * WAD_RAY_RATIO * (rates.liquidityRate * liquidity)
         <= 2 * RAY * WAD_RAY_RATIO * InterestOwed(stable, variable, averageRate, rates.variableBorrowRate)
            + IncomeSlack(stable + variable, liquidity, overall)
  {
    hide RayMul, RayDiv, PercentMul, OverallBorrowRate, InterestOwed, LiquidityRate, VariableRate, UtilizationRate, StableRate;
    var u := UtilizationRate(stable, variable, liquidity);
    UsedLiquidity(stable, variable, liquidity);
    VariableRateNonNegative(s, u);
    var v := VariableRate(s, u);
    OverallRateBounds(stable, variable, averageRate, v);
    var overall := OverallBorrowRate(stable, variable, v, averageRate);
    LiquidityRateAtMostOverall(s, overall, u);
    var rate := LiquidityRate(s, overall, u);
    if liquidity == 0 {
      NothingOwed(averageRate, v);
    } else {
      RayMulBounds(overall, u);
      IncomeChain(rate, overall, u, RayMul(overall, u), liquidity, stable + variable,
                  InterestOwed(stable, variable, averageRate, v));
    }
  }

  lemma VariableRateNonNegative(s: Strategy, u: int)
    requires s.Valid() && u >= 0
    ensures VariableRate(s, u) >= 0
  {
    hide KinkedRate;
    KinkedRateMonotone(s.baseVariableBorrowRate, s.variableRateSlope1, s.variableRateSlope2,
                       s.optimalUtilizationRate, u, u);
  }

  lemma UsedLiquidity(stable: int, variable: int, liquidity: int)
    requires stable >= 0 && variable >= 0 && liquidity >= 0
    requires liquidity == 0 ==> stable == 0 && variable == 0
    ensures var u := UtilizationRate(stable, variable, liquidity);
      0 <= u && 2 * (stable + variable) * RAY - liquidity <= 2 * (u * liquidity) <= 2 * (stable + variable) * RAY + liquidity
  {
    hide RayDiv;
    if stable + variable > 0 {
      RayDivBounds(stable + variable, liquidity);
    }
  }

  lemma IncomeChain(rate: int, overall: int, u: int, used: int, liquidity: int, debts: int, owed: int)
    requires 0 <= rate <= used && overall >= 0 && liquidity > 0 && debts >= 0
    requires used * RAY - overall * u <= HALF_RAY
    requires 2 * (u * liquidity) <= 2 * debts * RAY + liquidity
    requires 2 * (overall * WadToRay(debts) - WAD_RAY_RATIO * owed) <= 2 * RAY + WadToRay(debts)
    ensures 2 * RAY * WAD_RAY_RATIO * (rate * liquidity)
      <= 2 * RAY * WAD_RAY_RATIO * owed + IncomeSlack(debts, liquidity, overall)
  {
    IncomeOnDebts(rate, overall, u, used, liquidity, debts);
    assert overall * WadToRay(debts) == WAD_RAY_RATIO * (overall * debts);
    assert liquidity * (overall + RAY) == liquidity * overall + RAY * liquidity;
  }

  lemma IncomeOnDebts(rate: int, overall: int, u: int, used: int, liquidity: int, debts: int)
    requires 0 <= rate <= used && overall >= 0 && liquidity > 0
    requires used * RAY - overall * u <= HALF_RAY
    requires 2 * (u * liquidity) <= 2 * debts * RAY + liquidity
    ensures 2 * RAY * (rate * liquidity) <= 2 * RAY * (overall * debts) + liquidity * overall + RAY * liquidity
  {
    ProductLe(liquidity, rate, used);
    ProductLe(liquidity, used * RAY, overall * u + HALF_RAY);
    assert liquidity * (used * RAY) == RAY * (used * liquidity);
    assert liquidity * (overall * u + HALF_RAY) == overall * (u * liquidity) + HALF_RAY * liquidity;
    ProductLe(overall, 2 * (u * liquidity), 2 * debts * RAY + liquidity);
    assert overall * (2 * debts * RAY + liquidity) == 2 * RAY * (overall * debts) + liquidity * overall;
  }

  /** The lenders' share of what borrowers owe reaches them: nothing but the reserve factor and rounding is kept back. */
  lemma LendersShareReachesThem(s: Strategy, market: int, stable: int, variable: int, averageRate: int, liquidity: int)
    requires s.Valid()
    requires stable >= 0 && variable >= 0 && averageRate >= 0 && liquidity > 0
    ensures var u := UtilizationRate(stable, variable, liquidity);
      var rates := RatesAt(s, market, u, stable, variable, averageRate);
      var overall := OverallBorrowRate(stable, variable, rates.variableBorrowRate, averageRate);
      (PERCENTAGE_FACTOR - s.reserveFactor)
      * (2 * RAY * WAD_RAY_RATIO * InterestOwed(stable, variable, averageRate, rates.variableBorrowRate)
         - IncomeSlack(stable + variable, liquidity, overall))
      <= 2 * RAY * WAD_RAY_RATIO * PERCENTAGE_FACTOR * (rates.liquidityRate * liquidity)
         + RAY * WAD_RAY_RATIO * PERCENTAGE_FACTOR * liquidity
  {
    hide RayMul, RayDiv, PercentMul, OverallBorrowRate, InterestOwed, VariableRate, UtilizationRate, StableRate;
    var u := UtilizationRate(stable, variable, liquidity);
    UsedLiquidity(stable, variable, liquidity);
    VariableRateNonNegative(s, u);
    var v := VariableRate(s, u);
    OverallRateBounds(stable, variable, averageRate, v);
    var overall := OverallBorrowRate(stable, variable, v, averageRate);
    var used := RayMul(overall, u);
    RayMulBounds(overall, u);
    PercentMulBounds(used, PERCENTAGE_FACTOR - s.reserveFactor);
    UsedIncome(overall, u, used, liquidity, stable + variable, InterestOwed(stable, variable, averageRate, v));
    ShareOfIncome(LiquidityRate(s, overall, u), used, PERCENTAGE_FACTOR - s.reserveFactor, liquidity,
                  2 * RAY * WAD_RAY_RATIO * InterestOwed(stable, variable, averageRate, v)
                  - IncomeSlack(stable + variable, liquidity, overall));
  }

  /** The income before the reserve factor is at least what borrowers owe, up to the rounding allowance. */
  lemma UsedIncome(overall: int, u: int, used: int, liquidity: int, debts: int, owed: int)
    requires overall >= 0 && liquidity > 0 && debts >= 0
    requires -HALF_RAY <= used * RAY - overall * u
    requires 2 * debts * RAY - liquidity <= 2 * (u * liquidity)
    requires -(2 * RAY + WadToRay(debts)) <= 2 * (overall * WadToRay(debts) - WAD_RAY_RATIO * owed)
    ensures 2 * RAY * WAD_RAY_RATIO * owed - IncomeSlack(debts, liquidity, overall)
      <= 2 * RAY * WAD_RAY_RATIO * (used * liquidity)
  {
    hide IncomeSlack, WadToRay;
    UsedOnDebts(overall, u, used, liquidity, debts);
    WadProduct(overall, debts);
    SlackParts(debts, liquidity, overall);
    UsedParts(overall * debts, owed, debts, liquidity * overall, liquidity, used * liquidity,
              IncomeSlack(debts, liquidity, overall));
  }

  lemma WadProduct(overall: int, debts: int)
    ensures WadToRay(debts) == WAD_RAY_RATIO * debts
    ensures overall * WadToRay(debts) == WAD_RAY_RATIO * (overall * debts)
  {
  }

  lemma SlackParts(debts: int, liquidity: int, overall: int)
    ensures IncomeSlack(debts, liquidity, overall)
      == 2 * RAY * RAY + RAY * (WAD_RAY_RATIO * debts) + WAD_RAY_RATIO * (liquidity * overall) + WAD_RAY_RATIO * (RAY * liquidity)
  {
    assert liquidity * (overall + RAY) == liquidity * overall + RAY * liquidity;
  }

  lemma UsedParts(weight: int, owed: int, debts: int, spread: int, liquidity: int, used: int, slack: int)
    requires slack == 2 * RAY * RAY + RAY * (WAD_RAY_RATIO * debts) + WAD_RAY_RATIO * spread + WAD_RAY_RATIO * (RAY * liquidity)
    requires 2 * RAY * weight - spread - RAY * liquidity <= 2 * RAY * used
    requires -(2 * RAY + WAD_RAY_RATIO * debts) <= 2 * (WAD_RAY_RATIO * weight - WAD_RAY_RATIO * owed)
    ensures 2 * RAY * WAD_RAY_RATIO * owed - slack <= 2 * RAY * WAD_RAY_RATIO * used
  {
  }

  lemma UsedOnDebts(overall: int, u: int, used: int, liquidity: int, debts: int)
    requires overall >= 0 && liquidity > 0
    requires -HALF_RAY <= used * RAY - overall * u
    requires 2 * debts * RAY - liquidity <= 2 * (u * liquidity)
    ensures 2 * RAY * (overall * debts) - liquidity * overall - RAY * liquidity <= 2 * RAY * (used * liquidity)
  {
    ProductLe(liquidity, overall * u - HALF_RAY, used * RAY);
    assert liquidity * (used * RAY) == RAY * (used * liquidity);
    assert liquidity * (overall * u - HALF_RAY) == overall * (u * liquidity) - HALF_RAY * liquidity;
    ProductLe(overall, 2 * debts * RAY - liquidity, 2 * (u * liquidity));
    assert overall * (2 * debts * RAY - liquidity) == 2 * RAY * (overall * debts) - liquidity * overall;
  }

  lemma ShareOfIncome(rate: int, used: int, share: int, liquidity: int, income: int)
    requires share >= 0 && liquidity > 0
    requires -HALF_PERCENTAGE <= rate * PERCENTAGE_FACTOR - used * share
    requires income <= 2 * RAY * WAD_RAY_RATIO * (used * liquidity)
    ensures share * income <= 2 * RAY * WAD_RAY_RATIO * PERCENTAGE_FACTOR * (rate * liquidity)
      + RAY * WAD_RAY_RATIO * PERCENTAGE_FACTOR * liquidity
  {
    var k := 2 * RAY * WAD_RAY_RATIO;
    ProductLe(share, income, k * (used * liquidity));
    assert share * (k * (used * liquidity)) == k * (liquidity * (used * share));
    ProductLe(liquidity, used * share, rate * PERCENTAGE_FACTOR + HALF_PERCENTAGE);
    assert liquidity * (rate * PERCENTAGE_FACTOR + HALF_PERCENTAGE)
      == PERCENTAGE_FACTOR * (rate * liquidity) + HALF_PERCENTAGE * liquidity;
  }
}
