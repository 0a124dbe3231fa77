/**
  What each action makes of the reserve record and of the acting user's record.  Every action on
  the reserve is the same sequence: accrue both indexes and debts up to the transaction, move the
  amounts, add up the liquidity, and set the rates for the new utilization.
 */
module Actions {
  import opened RayMath
  import opened Interest
  import opened Rates
  import opened Reserve
  import opened StableDebt

  datatype RateMode = Stable | Variable

  /** Standing conditions of a reserve record between actions. */
  predicate Consistent(r: ReserveData) {
    && Indexed(r, r.lastUpdateTimestamp) && 0 <= r.lastUpdateTimestamp
    && 0 <= r.availableLiquidity && 0 <= r.averageStableBorrowRate
    && 0 <= r.principalStableDebt <= r.totalStableDebt
    && 0 <= r.scaledVariableDebt <= r.totalVariableDebt
    && 0 <= r.marketStableRate && 0 <= r.stableBorrowRate && 0 <= r.utilizationRate
    && 0 <= r.totalLiquidity
    && Utilizable(r)
    && (r.utilizationRate == 0 ==> r.liquidityRate == 0)
    && r.totalStableDebtLastUpdated <= r.lastUpdateTimestamp
  }

  /** Without liquidity there is nothing that could be utilized. */
  predicate Utilizable(r: ReserveData) {
    r.totalLiquidity == 0 ==> r.totalStableDebt == 0 && r.totalVariableDebt == 0
  }

  /** Standing conditions of a user record. */
  predicate UserConsistent(u: UserReserveData, clock: int) {
    && 0 <= u.scaledLTokenBalance && 0 <= u.scaledVariableDebt
    && 0 <= u.principalStableDebt && 0 <= u.currentStableDebt
    && 0 <= u.currentLTokenBalance && 0 <= u.currentVariableDebt && 0 <= u.walletBalance
    && 0 <= u.stableBorrowRate && u.stableRateLastUpdated <= clock
  }

  // ---------- the common sequence ----------

  /** Both indexes and both debts, carried forward to the time of a transaction. */
  function Accrued(r: ReserveData, t: int): ReserveData {
    var index := VariableBorrowIndex(r, t);
    r.(liquidityIndex := LiquidityIndex(r, t),
       variableBorrowIndex := index,
       totalStableDebt := TotalStableDebt(r.principalStableDebt, r.averageStableBorrowRate,
                                          r.totalStableDebtLastUpdated, t),
       totalVariableDebt := RayMul(r.scaledVariableDebt, index),
       lastUpdateTimestamp := t)
  }

  function Balanced(r: ReserveData): ReserveData {
    r.(totalLiquidity := r.availableLiquidity + r.totalStableDebt + r.totalVariableDebt)
  }

  function Utilized(r: ReserveData): ReserveData
    requires Utilizable(r)
  {
    r.(utilizationRate := UtilizationRate(r.totalStableDebt, r.totalVariableDebt, r.totalLiquidity))
  }

  /** Utilization and the three rates that follow from the current totals. */
  function Repriced(s: Strategy, r: ReserveData): ReserveData
    requires s.Valid() && Utilizable(r)
  {
    var used := Utilized(r);
    var rates := RatesAt(s, r.marketStableRate, used.utilizationRate, r.totalStableDebt, r.totalVariableDebt,
                         r.averageStableBorrowRate);
    used.(liquidityRate := rates.liquidityRate,
          stableBorrowRate := rates.stableBorrowRate,
          variableBorrowRate := rates.variableBorrowRate)
  }

  /** The debts of an already priced reserve as they are seen at a later time; the rates stay. */
  function Seen(r: ReserveData, now: int): ReserveData {
    Balanced(
      r.(totalStableDebt := TotalStableDebt(r.principalStableDebt, r.averageStableBorrowRate,
                                            r.totalStableDebtLastUpdated, now),
         totalVariableDebt := RayMul(r.scaledVariableDebt,
                                     NormalizedDebt(r.variableBorrowRate, r.variableBorrowIndex,
                                                    r.lastUpdateTimestamp, now))))
  }

  // ---------- amounts ----------

  function WithdrawnAmount(r: ReserveData, u: UserReserveData, amount: int, t: int): int {
    if amount == MAX_UINT_AMOUNT then LTokenBalance(r, u, t) else amount
  }

  function StableBalance(u: UserReserveData, t: int): int {
    StableDebtTokenBalance(u.principalStableDebt, u.stableBorrowRate, u.stableRateLastUpdated, t)
  }

  function DebtInMode(r: ReserveData, u: UserReserveData, mode: RateMode, t: int): int {
    if mode == Stable then StableBalance(u, t) else VariableDebtTokenBalance(r, u, t)
  }

  function RepaidAmount(r: ReserveData, u: UserReserveData, mode: RateMode, amount: int, t: int): int {
    if Abs(amount) == MAX_UINT_AMOUNT then DebtInMode(r, u, mode, t) else amount
  }

  // ---------- moving the amounts ----------

  function Deposited(r: ReserveData, amount: int, t: int): ReserveData {
    Accrued(r, t).(availableLiquidity := r.availableLiquidity + amount,
                   totalLiquidity := r.totalLiquidity + amount)
  }

  function Withdrawn(r: ReserveData, amount: int, t: int): ReserveData {
    Accrued(r, t).(availableLiquidity := r.availableLiquidity - amount)
  }

  function BorrowedStable(r: ReserveData, amount: int, t: int): ReserveData {
    var d := Accrued(r, t);
    d.(availableLiquidity := r.availableLiquidity - amount,
       principalStableDebt := d.totalStableDebt + amount,
       totalStableDebt := d.totalStableDebt + amount,
       averageStableBorrowRate := AverageStableBorrowRate(r.averageStableBorrowRate, d.totalStableDebt, amount,
                                                          r.stableBorrowRate),
       totalStableDebtLastUpdated := t)
  }

  function BorrowedVariable(r: ReserveData, amount: int, t: int): ReserveData
    requires VariableBorrowIndex(r, t) != 0
  {
    var d := Accrued(r, t);
    var scaled := r.scaledVariableDebt + RayDiv(amount, d.variableBorrowIndex);
    d.(availableLiquidity := r.availableLiquidity - amount,
       scaledVariableDebt := scaled,
       totalVariableDebt := RayMul(scaled, d.variableBorrowIndex),
       totalStableDebt := StableDebtTokenBalance(r.principalStableDebt, r.averageStableBorrowRate,
                                                 r.totalStableDebtLastUpdated, t))
  }

  /** Stable debt and average rate of the pool without a repaid amount; both are cleared once either would be negative. */
  function PoolWithout(averageRate: int, debt: int, amount: int, rate: int): (int, int) {
    var left := debt - amount;
    if left < 0 then
      (0, 0)
    else
      var average := AverageStableBorrowRate(averageRate, debt, -amount, rate);
      if average < 0 then (0, 0) else (left, average)
  }

  function RepaidStable(r: ReserveData, amount: int, rate: int, t: int): ReserveData {
    var d := Accrued(r, t);
    var (left, average) := PoolWithout(r.averageStableBorrowRate, d.totalStableDebt, amount, rate);
    d.(availableLiquidity := r.availableLiquidity + amount,
       principalStableDebt := left,
       totalStableDebt := left,
       averageStableBorrowRate := average,
       totalStableDebtLastUpdated := t)
  }

  /** The stable total keeps the value of the last snapshot here; only the variable side is accrued. */
  function RepaidVariable(r: ReserveData, amount: int, t: int): ReserveData
    requires VariableBorrowIndex(r, t) != 0
  {
    var d := Accrued(r, t);
    var scaled := r.scaledVariableDebt - RayDiv(amount, d.variableBorrowIndex);
    d.(availableLiquidity := r.availableLiquidity + amount,
       scaledVariableDebt := scaled,
       totalVariableDebt := RayMul(scaled, d.variableBorrowIndex),
       totalStableDebt := r.totalStableDebt)
  }

  function SwappedToVariable(r: ReserveData, stableDebt: int, rate: int, t: int): ReserveData
    requires VariableBorrowIndex(r, t) != 0
  {
    var d := Accrued(r, t);
    var scaled := r.scaledVariableDebt + RayDiv(stableDebt, d.variableBorrowIndex);
    var left := d.totalStableDebt - stableDebt;
    d.(scaledVariableDebt := scaled,
       totalVariableDebt := RayMul(scaled, d.variableBorrowIndex),
       principalStableDebt := left,
       totalStableDebt := left,
       averageStableBorrowRate := AverageStableBorrowRate(r.averageStableBorrowRate, left + stableDebt, -stableDebt, rate),
       totalStableDebtLastUpdated := t)
  }

  /** The new average weighs the stable total of the last snapshot, not the accrued one. */
  function SwappedToStable(r: ReserveData, variableDebt: int, t: int): ReserveData
    requires VariableBorrowIndex(r, t) != 0
  {
    var d := Accrued(r, t);
    var scaled := r.scaledVariableDebt - RayDiv(variableDebt, d.variableBorrowIndex);
    d.(scaledVariableDebt := scaled,
       totalVariableDebt := RayMul(scaled, d.variableBorrowIndex),
       principalStableDebt := d.totalStableDebt + variableDebt,
       totalStableDebt := d.totalStableDebt + variableDebt,
       averageStableBorrowRate := AverageStableBorrowRate(r.averageStableBorrowRate, r.totalStableDebt, variableDebt,
                                                          r.stableBorrowRate),
       totalStableDebtLastUpdated := t)
  }

  // ---------- guards ----------

  /** A variable repay or a swap to stable divides by the liquidity it leaves; that must not be zero while there is debt. */
  predicate RepayDefined(r: ReserveData, amount: int, t: int) {
    VariableBorrowIndex(r, t) != 0 && Utilizable(Balanced(RepaidVariable(r, amount, t)))
  }

  predicate SwapDefined(r: ReserveData, variableDebt: int, t: int) {
    VariableBorrowIndex(r, t) != 0 && Utilizable(Balanced(SwappedToStable(r, variableDebt, t)))
  }

  predicate CanDeposit(r: ReserveData, amount: int, t: int) {
    Consistent(r) && r.lastUpdateTimestamp <= t && 0 <= amount
  }

  predicate CanWithdraw(r: ReserveData, u: UserReserveData, amount: int, t: int) {
    && Consistent(r) && r.lastUpdateTimestamp <= t && UserConsistent(u, r.lastUpdateTimestamp)
    && 0 <= WithdrawnAmount(r, u, amount, t) <= r.availableLiquidity
  }

  predicate CanBorrow(r: ReserveData, u: UserReserveData, amount: int, t: int, now: int) {
    && Consistent(r) && r.lastUpdateTimestamp <= t <= now && UserConsistent(u, r.lastUpdateTimestamp)
    && 0 < amount <= r.availableLiquidity
  }

  predicate CanRepay(r: ReserveData, u: UserReserveData, amount: int, mode: RateMode, t: int) {
    && Consistent(r) && r.lastUpdateTimestamp <= t && UserConsistent(u, r.lastUpdateTimestamp)
    && 0 <= RepaidAmount(r, u, mode, amount, t) <= DebtInMode(r, u, mode, t)
    && (mode == Variable ==> RepayDefined(r, RepaidAmount(r, u, mode, amount, t), t))
  }

  /** The accrued pool can give up the user's debt without its total or its average rate turning negative. */
  predicate PoolCovers(r: ReserveData, u: UserReserveData, t: int) {
    var total := Accrued(r, t).totalStableDebt;
    var debt := StableBalance(u, t);
    && debt <= total
    && (debt < total ==> u.stableBorrowRate * debt < r.averageStableBorrowRate * total + (total - debt))
  }

  predicate CanSwap(r: ReserveData, u: UserReserveData, mode: RateMode, t: int) {
    && Consistent(r) && r.lastUpdateTimestamp <= t && UserConsistent(u, r.lastUpdateTimestamp)
    && 0 < DebtInMode(r, u, mode, t)
    && (mode == Stable ==> PoolCovers(r, u, t))
    && (mode == Variable ==> SwapDefined(r, VariableDebtTokenBalance(r, u, t), t))
  }

  // ---------- what accrual guarantees ----------

  lemma AccrualFacts(r: ReserveData, t: int)
    requires Consistent(r) && r.lastUpdateTimestamp <= t
    ensures var d := Accrued(r, t);
      && RAY <= r.liquidityIndex <= d.liquidityIndex
      && RAY <= r.variableBorrowIndex <= d.variableBorrowIndex
      && r.principalStableDebt <= d.totalStableDebt
      && r.scaledVariableDebt <= d.totalVariableDebt
  {
    hide RayMul, LiquidityIndex, VariableBorrowIndex, TotalStableDebt;
    IndexesGrow(r, t);
    StableBalanceGrows(r.principalStableDebt, r.averageStableBorrowRate, r.totalStableDebtLastUpdated, t);
    RayMulGrows(r.scaledVariableDebt, VariableBorrowIndex(r, t));
  }

  /** Debts that were zero stay zero, so a deposit leaves something to utilize whenever there is debt. */
  lemma DepositUtilizable(r: ReserveData, amount: int, t: int)
    requires CanDeposit(r, amount, t)
    ensures Utilizable(Deposited(r, amount, t))
  {
    hide VariableBorrowIndex, LiquidityIndex, CompoundedInterest;
    RayMulZero(VariableBorrowIndex(r, t));
    RayMulZero(CompoundedInterest(r.averageStableBorrowRate, t, r.totalStableDebtLastUpdated));
  }

  // ---------- debts after each movement ----------

  lemma ScaledGrows(scaled: int, index: int)
    requires scaled >= 0 && index >= RAY
    ensures scaled <= RayMul(scaled, index)
  {
    RayMulGrows(scaled, index);
  }

  lemma WithdrawnFacts(r: ReserveData, amount: int, t: int)
    requires Consistent(r) && r.lastUpdateTimestamp <= t && 0 <= amount <= r.availableLiquidity
    ensures var w := Withdrawn(r, amount, t);
      0 <= w.availableLiquidity && 0 <= w.principalStableDebt <= w.totalStableDebt
      && 0 <= w.scaledVariableDebt <= w.totalVariableDebt
  {
    hide RayMul, LiquidityIndex, VariableBorrowIndex, TotalStableDebt;
    AccrualFacts(r, t);
  }

  lemma BorrowedStableFacts(r: ReserveData, amount: int, t: int)
    requires Consistent(r) && r.lastUpdateTimestamp <= t && 0 < amount <= r.availableLiquidity
    ensures var b := BorrowedStable(r, amount, t);
      0 <= b.availableLiquidity && 0 < b.principalStableDebt <= b.totalStableDebt
      && 0 <= b.scaledVariableDebt <= b.totalVariableDebt && 0 <= b.averageStableBorrowRate
  {
    hide RayMul, LiquidityIndex, VariableBorrowIndex, TotalStableDebt, AverageStableBorrowRate;
    AccrualFacts(r, t);
    AddedLoanKeepsAverageBetween(r.averageStableBorrowRate, Accrued(r, t).totalStableDebt, amount, r.stableBorrowRate);
  }

  lemma BorrowedVariableFacts(r: ReserveData, amount: int, t: int)
    requires Consistent(r) && r.lastUpdateTimestamp <= t && 0 < amount <= r.availableLiquidity
    ensures VariableBorrowIndex(r, t) >= RAY
    ensures var b := BorrowedVariable(r, amount, t);
      0 <= b.availableLiquidity && 0 <= b.principalStableDebt <= b.totalStableDebt
      && 0 <= r.scaledVariableDebt <= b.scaledVariableDebt <= b.totalVariableDebt
  {
    hide RayMul, RayDiv, LiquidityIndex, VariableBorrowIndex, TotalStableDebt, StableDebtTokenBalance;
    AccrualFacts(r, t);
    var index := VariableBorrowIndex(r, t);
    RayDivBounds(amount, index);
    ScaledGrows(r.scaledVariableDebt + RayDiv(amount, index), index);
    StableBalanceGrows(r.principalStableDebt, r.averageStableBorrowRate, r.totalStableDebtLastUpdated, t);
  }

  /** Whatever is repaid, the pool's stable debt and average rate never turn negative. */
  lemma PoolWithoutNonNegative(averageRate: int, debt: int, amount: int, rate: int)
    ensures var (left, average) := PoolWithout(averageRate, debt, amount, rate);
      0 <= left && 0 <= average
    ensures var (left, average) := PoolWithout(averageRate, debt, amount, rate);
      left == debt - amount || (left == 0 && average == 0)
  {
    hide AverageStableBorrowRate;
  }

  lemma RepaidStableFacts(r: ReserveData, amount: int, rate: int, t: int)
    requires Consistent(r) && r.lastUpdateTimestamp <= t && 0 <= amount
    ensures var p := RepaidStable(r, amount, rate, t);
      0 <= p.availableLiquidity && 0 <= p.principalStableDebt <= p.totalStableDebt
      && 0 <= p.scaledVariableDebt <= p.totalVariableDebt && 0 <= p.averageStableBorrowRate
  {
    hide RayMul, LiquidityIndex, VariableBorrowIndex, TotalStableDebt, PoolWithout;
    AccrualFacts(r, t);
    PoolWithoutNonNegative(r.averageStableBorrowRate, Accrued(r, t).totalStableDebt, amount, rate);
  }

  /** A user's variable debt, turned into scaled units at the stored index, is at most their scaled debt. */
  lemma VariableDebtCover(r: ReserveData, u: UserReserveData, amount: int, t: int)
    requires Consistent(r) && r.lastUpdateTimestamp <= t && 0 <= u.scaledVariableDebt
    requires r.totalVariableDebt == 0 ==> u.scaledVariableDebt == 0
    requires 0 <= amount <= VariableDebtTokenBalance(r, u, t)
    ensures VariableBorrowIndex(r, t) >= RAY
    ensures 0 <= RayDiv(amount, VariableBorrowIndex(r, t)) <= u.scaledVariableDebt
    ensures amount == VariableDebtTokenBalance(r, u, t)
      ==> RayDiv(amount, VariableBorrowIndex(r, t)) == u.scaledVariableDebt
  {
    hide RayMul, RayDiv, VariableBorrowIndex, VariableDebtTokenBalance;
    IndexesGrow(r, t);
    UserDebtViewAgrees(r, u, t);
    ScaledCover(amount, u.scaledVariableDebt, VariableBorrowIndex(r, t));
    ScalingRoundTrip(u.scaledVariableDebt, VariableBorrowIndex(r, t));
  }

  lemma ViewsGrow(r: ReserveData, t: int, now: int)
    requires Indexed(r, t) && t <= now
    ensures NormalizedDebt(r.variableBorrowRate, r.variableBorrowIndex, r.lastUpdateTimestamp, t)
      <= NormalizedDebt(r.variableBorrowRate, r.variableBorrowIndex, r.lastUpdateTimestamp, now)
  {
    hide RayMul, CompoundedInterest;
    CompoundedMonotone(r.variableBorrowRate, r.variableBorrowRate, t, now, r.lastUpdateTimestamp);
    RayMulMonotone(CompoundedInterest(r.variableBorrowRate, t, r.lastUpdateTimestamp), r.variableBorrowIndex,
                   CompoundedInterest(r.variableBorrowRate, now, r.lastUpdateTimestamp), r.variableBorrowIndex);
  }

  lemma ViewAtLeastStored(r: ReserveData, t: int)
    requires Indexed(r, t)
    ensures VariableBorrowIndex(r, t)
      <= NormalizedDebt(r.variableBorrowRate, r.variableBorrowIndex, r.lastUpdateTimestamp, t)
  {
    hide RayMul, CompoundedInterest;
    IndexesGrow(r, t);
    ZeroRateFactors(t, r.lastUpdateTimestamp);
    RayMulByRay(r.variableBorrowIndex);
  }

  /** Giving back all of a variable debt, as it is viewed then or later, takes at least the user's scaled debt. */
  lemma FullDebtTakesAtLeast(r: ReserveData, u: UserReserveData, t: int, now: int)
    requires Indexed(r, t) && t <= now && 0 <= u.scaledVariableDebt
    ensures VariableBorrowIndex(r, t) >= RAY
    ensures u.scaledVariableDebt <= RayDiv(VariableDebtTokenBalance(r, u, now), VariableBorrowIndex(r, t))
    ensures 0 <= VariableDebtTokenBalance(r, u, now)
  {
    hide RayMul, RayDiv, NormalizedDebt, CompoundedInterest, VariableBorrowIndex;
    var index, viewed := VariableBorrowIndex(r, t),
      NormalizedDebt(r.variableBorrowRate, r.variableBorrowIndex, r.lastUpdateTimestamp, now);
    IndexesGrow(r, t);
    ViewAtLeastStored(r, t);
    ViewsGrow(r, t, now);
    RayMulMonotone(u.scaledVariableDebt, index, u.scaledVariableDebt, viewed);
    RayDivMonotone(RayMul(u.scaledVariableDebt, index), RayMul(u.scaledVariableDebt, viewed), index);
    ScalingRoundTrip(u.scaledVariableDebt, index);
  }

  /** The debt as it is viewed at `now` unscales to the user's scaled debt: it is within half an index of it. */
  predicate Unscales(r: ReserveData, u: UserReserveData, t: int, now: int) {
    var index := VariableBorrowIndex(r, t);
    VariableDebtTokenBalance(r, u, now) * RAY < u.scaledVariableDebt * index + index - index / 2
  }

  /** Giving back all of the debt takes exactly the user's scaled debt if and only if the viewed debt unscales to it. */
  lemma FullDebtTakesExactlyIff(r: ReserveData, u: UserReserveData, t: int, now: int)
    requires Indexed(r, t) && t <= now && 0 <= u.scaledVariableDebt
    ensures VariableBorrowIndex(r, t) >= RAY
    ensures RayDiv(VariableDebtTokenBalance(r, u, now), VariableBorrowIndex(r, t)) == u.scaledVariableDebt
      <==> Unscales(r, u, t, now)
  {
    hide RayMul, RayDiv, VariableDebtTokenBalance, VariableBorrowIndex;
    var index, debt := VariableBorrowIndex(r, t), VariableDebtTokenBalance(r, u, now);
    FullDebtTakesAtLeast(r, u, t, now);
    RayDivBounds(debt, index);
    QuotientIs(debt, index, RayDiv(debt, index), u.scaledVariableDebt);
  }

  lemma QuotientIs(debt: int, index: int, quotient: int, scaled: int)
    requires index > 0 && scaled <= quotient
    requires quotient * index <= index / 2 + debt * RAY < quotient * index + index
    ensures quotient == scaled <==> debt * RAY < scaled * index + index - index / 2
  {
    if quotient > scaled {
      ProductLe(index, scaled + 1, quotient);
    }
  }

  /** It does whenever no total variable debt means that the user has none, at the time of the transaction itself. */
  lemma UnscalesAtOnce(r: ReserveData, u: UserReserveData, t: int)
    requires Consistent(r) && r.lastUpdateTimestamp <= t && 0 <= u.scaledVariableDebt
    requires r.totalVariableDebt == 0 ==> u.scaledVariableDebt == 0
    ensures Unscales(r, u, t, t)
  {
    hide RayMul, RayDiv, VariableDebtTokenBalance, VariableBorrowIndex, Unscales;
    FullDebtTakesAtLeast(r, u, t, t);
    VariableDebtCover(r, u, VariableDebtTokenBalance(r, u, t), t);
    FullDebtTakesExactlyIff(r, u, t, t);
  }

  /** Every repay within the debt stays within the user's scaled debt if and only if the full one does. */
  lemma RepaysWithinScaledDebtIff(r: ReserveData, u: UserReserveData, t: int)
    requires Consistent(r) && r.lastUpdateTimestamp <= t && 0 <= u.scaledVariableDebt
    ensures VariableBorrowIndex(r, t) >= RAY
    ensures (forall amount :: 0 <= amount <= VariableDebtTokenBalance(r, u, t)
               ==> RayDiv(amount, VariableBorrowIndex(r, t)) <= u.scaledVariableDebt)
      <==> Unscales(r, u, t, t)
  {
    hide RayMul, RayDiv, VariableDebtTokenBalance, VariableBorrowIndex, Unscales;
    var index, debt := VariableBorrowIndex(r, t), VariableDebtTokenBalance(r, u, t);
    FullDebtTakesAtLeast(r, u, t, t);
    FullDebtTakesExactlyIff(r, u, t, t);
    forall amount | 0 <= amount <= debt ensures RayDiv(amount, index) <= RayDiv(debt, index) {
      RayDivMonotone(amount, debt, index);
    }
  }

  /**
    The reserve's scaled debt stays non-negative under every variable repay within the user's debt
    if and only if the user owes no more scaled debt than the reserve records.
   */
  lemma RepaysKeepReserveDebtIff(r: ReserveData, u: UserReserveData, t: int)
    requires Consistent(r) && r.lastUpdateTimestamp <= t && UserConsistent(u, r.lastUpdateTimestamp)
    ensures VariableBorrowIndex(r, t) >= RAY
    ensures (forall amount :: 0 <= amount <= VariableDebtTokenBalance(r, u, t)
               ==> 0 <= RepaidVariable(r, amount, t).scaledVariableDebt)
      <==> u.scaledVariableDebt <= r.scaledVariableDebt
  {
    hide RayMul, RayDiv, VariableBorrowIndex, LiquidityIndex, TotalStableDebt, VariableDebtTokenBalance;
    FullDebtTakesAtLeast(r, u, t, t);
    if u.scaledVariableDebt <= r.scaledVariableDebt {
      forall amount | 0 <= amount <= VariableDebtTokenBalance(r, u, t)
        ensures 0 <= RepaidVariable(r, amount, t).scaledVariableDebt
      {
        VariableDebtCover(r, u, amount, t);
      }
    } else {
      assert RepaidVariable(r, VariableDebtTokenBalance(r, u, t), t).scaledVariableDebt < 0;
    }
  }

  /** A swap to stable keeps it non-negative under exactly the same condition. */
  lemma SwapKeepsReserveDebtIff(r: ReserveData, u: UserReserveData, t: int)
    requires Consistent(r) && r.lastUpdateTimestamp <= t && UserConsistent(u, r.lastUpdateTimestamp)
    ensures VariableBorrowIndex(r, t) >= RAY
    ensures 0 <= SwappedToStable(r, VariableDebtTokenBalance(r, u, t), t).scaledVariableDebt
      <==> u.scaledVariableDebt <= r.scaledVariableDebt
  {
    hide RayMul, RayDiv, VariableBorrowIndex, LiquidityIndex, TotalStableDebt, VariableDebtTokenBalance,
         AverageStableBorrowRate;
    FullDebtTakesAtLeast(r, u, t, t);
    if u.scaledVariableDebt <= r.scaledVariableDebt {
      VariableDebtCover(r, u, VariableDebtTokenBalance(r, u, t), t);
    }
  }

  /** While the reserve's scaled debt stays non-negative, a variable repay leaves no negative total. */
  lemma RepaidVariableFacts(r: ReserveData, amount: int, t: int)
    requires Consistent(r) && r.lastUpdateTimestamp <= t && 0 <= amount
    requires VariableBorrowIndex(r, t) != 0 && RayDiv(amount, VariableBorrowIndex(r, t)) <= r.scaledVariableDebt
    ensures var p := RepaidVariable(r, amount, t);
      0 <= p.availableLiquidity && 0 <= p.principalStableDebt <= p.totalStableDebt
      && 0 <= p.scaledVariableDebt <= p.totalVariableDebt
    ensures RepayDefined(r, amount, t)
  {
    hide RayMul, RayDiv, LiquidityIndex, VariableBorrowIndex, TotalStableDebt;
    IndexesGrow(r, t);
    ScaledGrows(r.scaledVariableDebt - RayDiv(amount, VariableBorrowIndex(r, t)), VariableBorrowIndex(r, t));
  }

  /** The average without a removed debt is non-negative exactly under the guard that the pool covers it. */
  lemma RemovalNonNegative(averageRate: int, total: int, debt: int, rate: int)
    requires averageRate >= 0 && rate >= 0 && 0 <= debt <= total
    ensures 0 <= AverageStableBorrowRate(averageRate, (total - debt) + debt, -debt, rate)
      <==> debt == total || rate * debt < averageRate * total + (total - debt)
  {
    hide TruncDiv;
    if debt < total {
      RemovalQuotient(averageRate, total - debt, debt, rate);
      var n := averageRate * total - rate * debt;
      if n >= 0 {
        QuotientBounds(n, total - debt);
      } else {
        NegativeQuotient(n, total - debt);
      }
    } else {
      assert averageRate * total >= 0;
    }
  }

  /** What is left of the pool after a repay is kept if and only if its average rate does not turn negative. */
  lemma PoolKeepsLeftoverIff(averageRate: int, debt: int, amount: int, rate: int)
    requires averageRate >= 0 && rate >= 0 && 0 <= amount <= debt
    ensures PoolWithout(averageRate, debt, amount, rate).0 == debt - amount
      <==> debt == amount || rate * amount < averageRate * debt + (debt - amount)
  {
    hide AverageStableBorrowRate;
    RemovalNonNegative(averageRate, debt, amount, rate);
  }

  /** A leftover that is written off is at most what the repaid loan's rate exceeds the average by, as a share of it. */
  lemma ErasedLeftoverBound(averageRate: int, debt: int, amount: int, rate: int)
    requires averageRate >= 0 && rate >= 0 && 0 <= amount <= debt
    requires PoolWithout(averageRate, debt, amount, rate).0 != debt - amount
    ensures (averageRate + 1) * (debt - amount) <= (rate - averageRate) * amount
  {
    hide PoolWithout;
    PoolKeepsLeftoverIff(averageRate, debt, amount, rate);
    assert averageRate * debt == averageRate * (debt - amount) + averageRate * amount;
    assert (averageRate + 1) * (debt - amount) == averageRate * (debt - amount) + (debt - amount);
    assert (rate - averageRate) * amount == rate * amount - averageRate * amount;
  }

  /** It need not be small: nearly a fifth of this pool is written off. */
  lemma ErasedLeftoverNotSmall()
    ensures PoolWithout(50, 329, 267, 100) == (0, 0)
  {
    PoolKeepsLeftoverIff(50, 329, 267, 100);
  }

  lemma NegativeQuotient(n: int, d: int)
    requires n < 0 < d
    ensures 0 <= TruncDiv(n, d) <==> -n < d
  {
    QuotientBounds(-n, d);
    if -n < d {
      QuotientUnique(-n, d, 0);
    } else {
      MultiplesCompare(1, TruncDiv(-n, d), d);
    }
  }

  lemma SwappedToVariableFacts(r: ReserveData, u: UserReserveData, t: int)
    requires CanSwap(r, u, Stable, t)
    ensures VariableBorrowIndex(r, t) >= RAY
    ensures var w := SwappedToVariable(r, StableBalance(u, t), u.stableBorrowRate, t);
      0 <= w.principalStableDebt <= w.totalStableDebt && 0 <= w.averageStableBorrowRate
      && r.scaledVariableDebt <= w.scaledVariableDebt <= w.totalVariableDebt
  {
    hide RayMul, RayDiv, LiquidityIndex, VariableBorrowIndex, TotalStableDebt, AverageStableBorrowRate, StableBalance;
    AccrualFacts(r, t);
    var debt, index := StableBalance(u, t), VariableBorrowIndex(r, t);
    RayDivBounds(debt, index);
    ScaledGrows(r.scaledVariableDebt + RayDiv(debt, index), index);
    RemovalNonNegative(r.averageStableBorrowRate, Accrued(r, t).totalStableDebt, debt, u.stableBorrowRate);
  }

  /** The same for a swap to stable. */
  lemma SwappedToStableFacts(r: ReserveData, debt: int, t: int)
    requires Consistent(r) && r.lastUpdateTimestamp <= t && 0 < debt
    requires VariableBorrowIndex(r, t) != 0 && RayDiv(debt, VariableBorrowIndex(r, t)) <= r.scaledVariableDebt
    ensures var w := SwappedToStable(r, debt, t);
      0 < w.principalStableDebt <= w.totalStableDebt && 0 <= w.averageStableBorrowRate
      && 0 <= w.scaledVariableDebt <= w.totalVariableDebt
    ensures SwapDefined(r, debt, t)
  {
    hide RayMul, RayDiv, LiquidityIndex, VariableBorrowIndex, TotalStableDebt, AverageStableBorrowRate;
    AccrualFacts(r, t);
    ScaledGrows(r.scaledVariableDebt - RayDiv(debt, VariableBorrowIndex(r, t)), VariableBorrowIndex(r, t));
    AddedLoanKeepsAverageBetween(r.averageStableBorrowRate, r.totalStableDebt, debt, r.stableBorrowRate);
  }

  // ---------- the reserve after each action ----------

  function ReserveAfterDeposit(s: Strategy, r: ReserveData, amount: int, t: int): ReserveData
    requires s.Valid() && CanDeposit(r, amount, t)
  {
    DepositUtilizable(r, amount, t);
    Repriced(s, Deposited(r, amount, t))
  }

  function ReserveAfterWithdraw(s: Strategy, r: ReserveData, u: UserReserveData, amount: int, t: int): ReserveData
    requires s.Valid() && CanWithdraw(r, u, amount, t)
  {
    var taken := WithdrawnAmount(r, u, amount, t);
    WithdrawnFacts(r, taken, t);
    Repriced(s, Balanced(Withdrawn(r, taken, t)))
  }

  function ReserveAtBorrow(s: Strategy, r: ReserveData, u: UserReserveData, amount: int, mode: RateMode, t: int): ReserveData
    requires s.Valid() && CanBorrow(r, u, amount, t, t)
  {
    match mode
    case Stable =>
      BorrowedStableFacts(r, amount, t);
      Repriced(s, Balanced(BorrowedStable(r, amount, t)))
    case Variable =>
      BorrowedVariableFacts(r, amount, t);
      Repriced(s, Balanced(BorrowedVariable(r, amount, t)))
  }

  /** A borrow is priced at the transaction and then seen at a possibly later time. */
  function ReserveAfterBorrow(s: Strategy, r: ReserveData, u: UserReserveData, amount: int, mode: RateMode,
                              t: int, now: int): ReserveData
    requires s.Valid() && CanBorrow(r, u, amount, t, now)
  {
    var seen := Seen(ReserveAtBorrow(s, r, u, amount, mode, t), now);
    BorrowSeenUtilizable(s, r, u, amount, mode, t, now);
    Utilized(seen)
  }

  function ReserveAfterRepay(s: Strategy, r: ReserveData, u: UserReserveData, amount: int, mode: RateMode, t: int): ReserveData
    requires s.Valid() && CanRepay(r, u, amount, mode, t)
  {
    var repaid := RepaidAmount(r, u, mode, amount, t);
    match mode
    case Stable =>
      RepaidStableFacts(r, repaid, u.stableBorrowRate, t);
      Repriced(s, Balanced(RepaidStable(r, repaid, u.stableBorrowRate, t)))
    case Variable =>
      Repriced(s, Balanced(RepaidVariable(r, repaid, t)))
  }

  function ReserveAfterSwap(s: Strategy, r: ReserveData, u: UserReserveData, mode: RateMode, t: int): ReserveData
    requires s.Valid() && CanSwap(r, u, mode, t)
  {
    match mode
    case Stable =>
      SwappedToVariableFacts(r, u, t);
      Repriced(s, Balanced(SwappedToVariable(r, StableBalance(u, t), u.stableBorrowRate, t)))
    case Variable =>
      Repriced(s, Balanced(SwappedToStable(r, VariableDebtTokenBalance(r, u, t), t)))
  }

  // ---------- pricing ----------

  /** Rates never turn negative, and an unused reserve pays nothing. */
  lemma RepricedFacts(s: Strategy, r: ReserveData)
    requires s.Valid() && Utilizable(r)
    requires 0 <= r.totalLiquidity && 0 <= r.totalStableDebt && 0 <= r.totalVariableDebt
    requires 0 <= r.averageStableBorrowRate && 0 <= r.marketStableRate
    ensures var p := Repriced(s, r);
      && 0 <= p.utilizationRate && 0 <= p.liquidityRate && 0 <= p.variableBorrowRate
      && r.marketStableRate <= p.stableBorrowRate
      && (p.utilizationRate == 0 ==> p.liquidityRate == 0)
  {
    hide UtilizationRate, OverallBorrowRate, LiquidityRate, VariableRate, StableRate;
    UtilizationNonNegative(r.totalStableDebt, r.totalVariableDebt, r.totalLiquidity);
    var u := UtilizationRate(r.totalStableDebt, r.totalVariableDebt, r.totalLiquidity);
    CurvesNonNegative(s, r.marketStableRate, u);
    OverallRateBounds(r.totalStableDebt, r.totalVariableDebt, r.averageStableBorrowRate, VariableRate(s, u));
    LiquidityRateAtMostOverall(s, OverallBorrowRate(r.totalStableDebt, r.totalVariableDebt, VariableRate(s, u),
                                                    r.averageStableBorrowRate), u);
  }

  lemma UtilizationNonNegative(stable: int, variable: int, liquidity: int)
    requires 0 <= stable && 0 <= variable && 0 <= liquidity
    requires liquidity == 0 ==> stable == 0 && variable == 0
    ensures 0 <= UtilizationRate(stable, variable, liquidity)
  {
    hide RayDiv;
    if stable + variable > 0 {
      RayDivBounds(stable + variable, liquidity);
    }
  }

  lemma CurvesNonNegative(s: Strategy, market: int, u: int)
    requires s.Valid() && 0 <= u
    ensures 0 <= VariableRate(s, u) && market <= StableRate(s, market, u)
  {
    hide KinkedRate;
    KinkedRateMonotone(s.baseVariableBorrowRate, s.variableRateSlope1, s.variableRateSlope2, s.optimalUtilizationRate, u, u);
    KinkedRateMonotone(market, s.stableRateSlope1, s.stableRateSlope2, s.optimalUtilizationRate, u, u);
  }

  lemma DebtsSeenLater(s: Strategy, r: ReserveData, u: UserReserveData, amount: int, mode: RateMode, t: int, now: int)
    requires s.Valid() && CanBorrow(r, u, amount, t, now)
    ensures var b := ReserveAtBorrow(s, r, u, amount, mode, t);
      && Consistent(b)
      && 0 <= b.totalStableDebt <= Seen(b, now).totalStableDebt
      && b.totalVariableDebt <= Seen(b, now).totalVariableDebt
  {
    hide RayMul, RayDiv, AverageStableBorrowRate, LiquidityIndex, VariableBorrowIndex, TotalStableDebt,
         StableDebtTokenBalance, NormalizedDebt, UtilizationRate, RatesAt, CompoundedInterest;
    AccrualFacts(r, t);
    match mode {
      case Stable =>
        BorrowedStableFacts(r, amount, t);
        RepricedFacts(s, Balanced(BorrowedStable(r, amount, t)));
      case Variable =>
        BorrowedVariableFacts(r, amount, t);
        RepricedFacts(s, Balanced(BorrowedVariable(r, amount, t)));
        StableSeenLater(r, t, now);
    }
    var b := ReserveAtBorrow(s, r, u, amount, mode, t);
    IndexesGrow(b, now);
    RayMulMonotone(b.scaledVariableDebt, b.variableBorrowIndex, b.scaledVariableDebt,
                   NormalizedDebt(b.variableBorrowRate, b.variableBorrowIndex, t, now));
    StableBalanceGrows(b.principalStableDebt, b.averageStableBorrowRate, b.totalStableDebtLastUpdated, now);
  }

  lemma StableSeenLater(r: ReserveData, t: int, now: int)
    requires Consistent(r) && r.lastUpdateTimestamp <= t <= now
    ensures StableDebtTokenBalance(r.principalStableDebt, r.averageStableBorrowRate, r.totalStableDebtLastUpdated, t)
      <= TotalStableDebt(r.principalStableDebt, r.averageStableBorrowRate, r.totalStableDebtLastUpdated, now)
  {
    hide RayMul, CompoundedInterest;
    var p, rate, last := r.principalStableDebt, r.averageStableBorrowRate, r.totalStableDebtLastUpdated;
    StableBalanceGrows(p, rate, last, now);
    CompoundedMonotone(rate, rate, t, now, last);
    RayMulMonotone(p, CompoundedInterest(rate, t, last), p, CompoundedInterest(rate, now, last));
    RayMulCommutes(p, CompoundedInterest(rate, now, last));
  }

  lemma BorrowSeenUtilizable(s: Strategy, r: ReserveData, u: UserReserveData, amount: int, mode: RateMode, t: int, now: int)
    requires s.Valid() && CanBorrow(r, u, amount, t, now)
    ensures Utilizable(Seen(ReserveAtBorrow(s, r, u, amount, mode, t), now))
  {
    hide ReserveAtBorrow;
    DebtsSeenLater(s, r, u, amount, mode, t, now);
  }
}
