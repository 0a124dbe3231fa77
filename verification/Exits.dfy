/**
  Leaving a position: full withdrawals, full repays and swaps of the rate mode are exact, or exact
  up to a stated rounding.
 */
module Exits {
  import opened RayMath
  import opened Interest
  import opened Rates
  import opened Reserve
  import opened StableDebt
  import opened Actions
  import opened Runs

  /** Withdrawing the maximum empties the balance exactly and switches collateral use off. */
  lemma FullWithdrawalIsExact(s: Strategy, st: State, user: string, t: int)
    requires s.Valid() && Enabled(st, Withdraw(user, MAX_UINT_AMOUNT, t))
    requires st.users[user].currentLTokenBalance != 0
    ensures var before, after := st.users[user], Step(s, st, Withdraw(user, MAX_UINT_AMOUNT, t)).users[user];
      && after.scaledLTokenBalance == 0 && after.currentLTokenBalance == 0
      && !after.usageAsCollateralEnabled
      && after.walletBalance == before.walletBalance + LTokenBalance(st.reserve, before, t)
  {
    hide RayMul, RayDiv, LiquidityIndex, VariableBorrowIndex, StableDebtTokenBalance, VariableDebtTokenBalance,
         LTokenBalance, StepReserve, Consistent;
    var a := Withdraw(user, MAX_UINT_AMOUNT, t);
    var r, u := st.reserve, st.users[user];
    StepIndexes(s, st, a);
    StepIndexesAtLeastRay(s, st, a);
    WithdrawCover(r, u, LTokenBalance(r, u, t), t);
    ScaledDeposit(0, StepReserve(s, st, a).liquidityIndex);
  }

  /**
    Repaying the maximum of the variable debt never leaves scaled debt.  It leaves none, and not less
    than none, if and only if the debt that the user's record shows unscales to the user's scaled debt;
    and it takes the user's scaled debt off the reserve if and only if the debt at the transaction does.
   */
  lemma FullVariableRepayIff(s: Strategy, st: State, user: string, ownRepay: bool, t: int, now: int)
    requires s.Valid() && Enabled(st, Repay(user, MAX_UINT_AMOUNT, Variable, ownRepay, t, now))
    ensures var a := Repay(user, MAX_UINT_AMOUNT, Variable, ownRepay, t, now);
      var r, before, after := st.reserve, st.users[user], Step(s, st, a).users[user];
      && after.scaledVariableDebt <= 0
      && (after.scaledVariableDebt == 0 <==> Unscales(r, before, t, now))
      && (Unscales(r, before, t, now) ==> after.currentVariableDebt == 0)
      && (Step(s, st, a).reserve.scaledVariableDebt == r.scaledVariableDebt - before.scaledVariableDebt
          <==> Unscales(r, before, t, t))
      && Step(s, st, a).reserve.availableLiquidity == r.availableLiquidity + VariableDebtTokenBalance(r, before, t)
  {
    hide RayMul, RayDiv, LiquidityIndex, VariableBorrowIndex, StableDebtTokenBalance, VariableDebtTokenBalance,
         LTokenBalance, StepReserve, RepayDefined, Unscales;
    var a := Repay(user, MAX_UINT_AMOUNT, Variable, ownRepay, t, now);
    var r, u := st.reserve, st.users[user];
    StepIndexes(s, st, a);
    StepIndexesAtLeastRay(s, st, a);
    ReserveDebtChange(s, st, a);
    UserDebtChange(s, st, a);
    ReserveCashChange(s, st, a);
    FullDebtTakesAtLeast(r, u, t, now);
    FullDebtTakesExactlyIff(r, u, t, now);
    FullDebtTakesExactlyIff(r, u, t, t);
    RayMulZero(VariableBorrowIndex(r, t));
  }

  /** Looked at right away, the full repay is exact if no total variable debt means that the user has none. */
  lemma FullVariableRepayIsExact(s: Strategy, st: State, user: string, ownRepay: bool, t: int)
    requires s.Valid() && Enabled(st, Repay(user, MAX_UINT_AMOUNT, Variable, ownRepay, t, t))
    requires st.reserve.totalVariableDebt == 0 ==> st.users[user].scaledVariableDebt == 0
    ensures var a := Repay(user, MAX_UINT_AMOUNT, Variable, ownRepay, t, t);
      var before, after := st.users[user], Step(s, st, a).users[user];
      && after.scaledVariableDebt == 0 && after.currentVariableDebt == 0
      && Step(s, st, a).reserve.scaledVariableDebt == st.reserve.scaledVariableDebt - before.scaledVariableDebt
  {
    hide VariableDebtTokenBalance, StepReserve, StepUser, RepayDefined, Unscales;
    UnscalesAtOnce(st.reserve, st.users[user], t);
    FullVariableRepayIff(s, st, user, ownRepay, t, t);
  }

  /** Repaying the maximum of the stable debt clears the user's stable record, whenever it is looked at. */
  lemma FullStableRepayIsExact(s: Strategy, st: State, user: string, ownRepay: bool, t: int, now: int)
    requires s.Valid() && Enabled(st, Repay(user, MAX_UINT_AMOUNT, Stable, ownRepay, t, now))
    ensures var after := Step(s, st, Repay(user, MAX_UINT_AMOUNT, Stable, ownRepay, t, now)).users[user];
      && after.principalStableDebt == 0 && after.currentStableDebt == 0
      && after.stableBorrowRate == 0 && after.stableRateLastUpdated == 0
      && forall later :: StableBalance(after, later) == 0
  {
    hide RayMul, RayDiv, LiquidityIndex, VariableBorrowIndex, VariableDebtTokenBalance, LTokenBalance, StepReserve,
         Consistent, CompoundedInterest;
  }

  // ---------- swapping the rate mode ----------

  /** A user without stable debt who swaps their variable debt to stable. */
  predicate FreshSwap(st: State, user: string, t: int) {
    && Enabled(st, Swap(user, Variable, t))
    && st.users[user].principalStableDebt == 0 == st.users[user].currentStableDebt
  }

  lemma NoStableBalance(u: UserReserveData, t: int)
    requires u.principalStableDebt == 0
    ensures StableBalance(u, t) == 0
  {
    hide CompoundedInterest;
    RayMulZero(CompoundedInterest(u.stableBorrowRate, t, u.stableRateLastUpdated));
  }

  lemma SingleWeight(amount: int, rate: int)
    requires amount > 0 && rate >= 0
    ensures UserStableRate(0, 0, amount, rate) == rate
    ensures forall before :: UserStableRate(0, before, amount, rate) == rate
  {
    hide TruncDiv;
    assert amount * rate >= 0;
    assert amount * rate == rate * amount;
    QuotientUnique(amount * rate, amount, rate);
  }

  /** What the first half of the round trip leaves behind. */
  lemma SwappedOnce(s: Strategy, st: State, user: string, t: int)
    requires s.Valid() && FreshSwap(st, user, t)
    ensures var r, u := st.reserve, st.users[user];
      var mid := Step(s, st, Swap(user, Variable, t));
      var debt := VariableDebtTokenBalance(r, u, t);
      && mid.reserve.lastUpdateTimestamp == t == mid.reserve.totalStableDebtLastUpdated
      && mid.reserve.variableBorrowIndex == VariableBorrowIndex(r, t)
      && RAY <= VariableBorrowIndex(r, t) && 0 < debt
      && mid.reserve.scaledVariableDebt == r.scaledVariableDebt - RayDiv(debt, VariableBorrowIndex(r, t))
      && mid.reserve.principalStableDebt == Accrued(r, t).totalStableDebt + debt
      && mid.reserve.averageStableBorrowRate
         == AverageStableBorrowRate(r.averageStableBorrowRate, r.totalStableDebt, debt, r.stableBorrowRate)
      && mid.users[user].scaledVariableDebt == 0
      && mid.users[user].principalStableDebt == debt
      && mid.users[user].stableRateLastUpdated == t
      && mid.users[user].stableBorrowRate == r.stableBorrowRate
  {
    hide RayMul, RayDiv, LiquidityIndex, VariableBorrowIndex, TotalStableDebt, RatesAt, UtilizationRate,
         AverageStableBorrowRate, VariableDebtTokenBalance, LTokenBalance, UserStableRate, StableDebtTokenBalance;
    var a := Swap(user, Variable, t);
    StepIndexes(s, st, a);
    StepIndexesAtLeastRay(s, st, a);
    ReserveDebtChange(s, st, a);
    NoStableBalance(st.users[user], t);
    SingleWeight(VariableDebtTokenBalance(st.reserve, st.users[user], t), st.reserve.stableBorrowRate);
  }

  // ---------- whether the second swap is possible ----------

  /**
    The user owes no more scaled debt than the reserve records, and with other stable debt in the
    pool, the average it will have after the first swap covers the loan's own rate.
   */
  predicate CanSwapBack(st: State, user: string, t: int)
    requires FreshSwap(st, user, t)
  {
    var r, u := st.reserve, st.users[user];
    var debt, others := VariableDebtTokenBalance(r, u, t), Accrued(r, t).totalStableDebt;
    && u.scaledVariableDebt <= r.scaledVariableDebt
    && (others > 0 ==>
          r.stableBorrowRate * debt
          < AverageStableBorrowRate(r.averageStableBorrowRate, r.totalStableDebt, debt, r.stableBorrowRate) * (others + debt)
            + others)
  }

  /** The swap back is possible if and only if that holds before the first swap. */
  lemma SwapBackEnabledIff(s: Strategy, st: State, user: string, t: int)
    requires s.Valid() && FreshSwap(st, user, t)
    ensures Enabled(Step(s, st, Swap(user, Variable, t)), Swap(user, Stable, t)) <==> CanSwapBack(st, user, t)
  {
    hide RayMul, RayDiv, LiquidityIndex, VariableBorrowIndex, VariableDebtTokenBalance, StepReserve, StepUser,
         AverageStableBorrowRate, TotalStableDebt, StableDebtTokenBalance, Covered, Consistent, UserConsistent;
    var a, mid := Swap(user, Variable, t), Step(s, st, Swap(user, Variable, t));
    var r, u := st.reserve, st.users[user];
    SwappedOnce(s, st, user, t);
    StepSoundIff(s, st, a);
    CoveredSwap(st, user, t);
    AccrualFacts(r, t);
    OthersNonNegative(r, t);
    BalanceAtOnce(mid.users[user], t);
    TotalAtOnce(mid.reserve.principalStableDebt, mid.reserve.averageStableBorrowRate, t);
  }

  lemma OthersNonNegative(r: ReserveData, t: int)
    requires Consistent(r) && r.lastUpdateTimestamp <= t
    ensures 0 <= Accrued(r, t).totalStableDebt
  {
    hide RayMul, LiquidityIndex, VariableBorrowIndex, TotalStableDebt;
    AccrualFacts(r, t);
  }

  lemma CoveredSwap(st: State, user: string, t: int)
    requires Enabled(st, Swap(user, Variable, t))
    ensures Covered(st, Swap(user, Variable, t)) <==> st.users[user].scaledVariableDebt <= st.reserve.scaledVariableDebt
  {
    hide RayMul, RayDiv, LiquidityIndex, VariableBorrowIndex, TotalStableDebt, VariableDebtTokenBalance,
         AverageStableBorrowRate, Consistent, StableBalance;
    SwapKeepsReserveDebtIff(st.reserve, st.users[user], t);
  }

  lemma BalanceAtOnce(u: UserReserveData, t: int)
    requires u.stableRateLastUpdated == t
    ensures StableBalance(u, t) == u.principalStableDebt
  {
  }

  /** For instance whenever the user's debt is within one unit of interest per ray and unit of the pool's weight. */
  lemma SmallDebtsSwapBack(st: State, user: string, t: int)
    requires FreshSwap(st, user, t) && st.users[user].scaledVariableDebt <= st.reserve.scaledVariableDebt
    requires var r := st.reserve;
      var others := Accrued(r, t).totalStableDebt;
      && r.totalStableDebt <= others
      && VariableDebtTokenBalance(r, st.users[user], t)
         <= r.averageStableBorrowRate * r.totalStableDebt + (others - r.totalStableDebt)
    ensures CanSwapBack(st, user, t)
  {
    hide RayMul, VariableDebtTokenBalance, AverageStableBorrowRate, Accrued, SwapDefined, UserConsistent, StableBalance;
    var r := st.reserve;
    var debt, others := VariableDebtTokenBalance(r, st.users[user], t), Accrued(r, t).totalStableDebt;
    AddedLoanKeepsAverageBetween(r.averageStableBorrowRate, r.totalStableDebt, debt, r.stableBorrowRate);
    var average := AverageStableBorrowRate(r.averageStableBorrowRate, r.totalStableDebt, debt, r.stableBorrowRate);
    ProductLe(average, r.totalStableDebt + debt, others + debt);
  }

  // ---------- the round trip ----------

  /**
    Swapping to stable and back at one moment restores the user's and the reserve's scaled variable
    debt and leaves the reserve's stable principal at its accrued value, all exactly.
   */
  lemma SwapRoundTrip(s: Strategy, st: State, user: string, t: int)
    requires s.Valid() && FreshSwap(st, user, t)
    requires CanSwapBack(st, user, t)
    ensures Enabled(Step(s, st, Swap(user, Variable, t)), Swap(user, Stable, t))
    ensures var back := Step(s, Step(s, st, Swap(user, Variable, t)), Swap(user, Stable, t));
      && back.users[user].scaledVariableDebt == st.users[user].scaledVariableDebt
      && back.users[user].principalStableDebt == 0
      && back.reserve.scaledVariableDebt == st.reserve.scaledVariableDebt
      && back.reserve.principalStableDebt == Accrued(st.reserve, t).totalStableDebt
      && back.reserve.availableLiquidity == st.reserve.availableLiquidity
  {
    hide RayMul, RayDiv, LiquidityIndex, VariableBorrowIndex, VariableDebtTokenBalance, StepReserve, StepUser,
         Consistent, UserConsistent, CanSwap, Accrued, AverageStableBorrowRate;
    SwapBackEnabledIff(s, st, user, t);
    var mid := Step(s, st, Swap(user, Variable, t));
    var a := Swap(user, Stable, t);
    var r, u := st.reserve, st.users[user];
    SwappedOnce(s, st, user, t);
    ReserveCashChange(s, st, Swap(user, Variable, t));
    ReserveCashChange(s, mid, a);
    ReserveDebtChange(s, mid, a);
    UserDebtChange(s, mid, a);
    SwappedBack(s, mid, user, t);
    FreshDebtCover(r, u, t);
  }

  lemma FreshDebtCover(r: ReserveData, u: UserReserveData, t: int)
    requires CanSwap(r, u, Variable, t) && u.scaledVariableDebt <= r.scaledVariableDebt
    ensures VariableBorrowIndex(r, t) >= RAY
    ensures RayDiv(VariableDebtTokenBalance(r, u, t), VariableBorrowIndex(r, t)) == u.scaledVariableDebt
  {
    hide RayMul, RayDiv, VariableBorrowIndex, VariableDebtTokenBalance, SwapDefined;
    VariableDebtCover(r, u, VariableDebtTokenBalance(r, u, t), t);
  }

  /** Swapping a stable debt taken at this very moment: nothing accrues, and the principal is given back. */
  lemma SwappedBack(s: Strategy, mid: State, user: string, t: int)
    requires s.Valid() && Enabled(mid, Swap(user, Stable, t))
    requires mid.reserve.lastUpdateTimestamp == t == mid.reserve.totalStableDebtLastUpdated
    requires mid.users[user].stableRateLastUpdated == t
    ensures StableBalance(mid.users[user], t) == mid.users[user].principalStableDebt
    ensures VariableBorrowIndex(mid.reserve, t) == mid.reserve.variableBorrowIndex
    ensures var back := Step(s, mid, Swap(user, Stable, t));
      && back.users[user].principalStableDebt == 0
      && back.reserve.principalStableDebt == mid.reserve.principalStableDebt - mid.users[user].principalStableDebt
      && back.reserve.averageStableBorrowRate
         == AverageStableBorrowRate(mid.reserve.averageStableBorrowRate, mid.reserve.principalStableDebt,
                                    -mid.users[user].principalStableDebt, mid.users[user].stableBorrowRate)
  {
    hide RayMul, RayDiv, LiquidityIndex, VariableBorrowIndex, RatesAt, UtilizationRate,
         AverageStableBorrowRate, VariableDebtTokenBalance, LTokenBalance, CompoundedInterest, PoolCovers;
    IndexesAtOnce(mid.reserve);
    TotalAtOnce(mid.reserve.principalStableDebt, mid.reserve.averageStableBorrowRate, t);
  }

  /**
    When nothing accrued since the last snapshot and other stable debt is outstanding, the round trip
    never raises the average stable rate and lowers it only by the rounding of one loan.
   */
  lemma SwapRoundTripAverage(s: Strategy, st: State, user: string, t: int)
    requires s.Valid() && FreshSwap(st, user, t)
    requires CanSwapBack(st, user, t)
    requires Accrued(st.reserve, t).totalStableDebt == st.reserve.totalStableDebt > 0
    ensures Enabled(Step(s, st, Swap(user, Variable, t)), Swap(user, Stable, t))
    ensures var back := Step(s, Step(s, st, Swap(user, Variable, t)), Swap(user, Stable, t));
      var debt := VariableDebtTokenBalance(st.reserve, st.users[user], t);
      var before, after := st.reserve.averageStableBorrowRate, back.reserve.averageStableBorrowRate;
      after <= before && before - after <= 1 + (debt - 1 + st.reserve.totalStableDebt - 1) / st.reserve.totalStableDebt
  {
    hide RayMul, RayDiv, LiquidityIndex, VariableBorrowIndex, VariableDebtTokenBalance, StepReserve, StepUser,
         UserConsistent, Accrued, AverageStableBorrowRate, PoolCovers;
    SwapBackEnabledIff(s, st, user, t);
    SwappedOnce(s, st, user, t);
    SwappedBack(s, Step(s, st, Swap(user, Variable, t)), user, t);
    RemovedLoanRestoresAverage(st.reserve.averageStableBorrowRate, st.reserve.totalStableDebt,
                               VariableDebtTokenBalance(st.reserve, st.users[user], t), st.reserve.stableBorrowRate);
  }

  /** A swap from stable to variable changes what the user owes by at most 1 + index / 2 rays. */
  lemma SwapToVariableKeepsDebt(s: Strategy, st: State, a: Action)
    requires s.Valid() && Enabled(st, a) && a.Swap? && a.mode == Stable
    ensures var r, u, after := st.reserve, st.users[a.user], Step(s, st, a).users[a.user];
      var accrued := RayMul(u.scaledVariableDebt, VariableBorrowIndex(r, a.at));
      && after.currentStableDebt == 0
      && Near(after.currentVariableDebt, StableBalance(u, a.at) + accrued, VariableBorrowIndex(r, a.at))
      && ((r.totalVariableDebt == 0 ==> u.scaledVariableDebt == 0) ==> accrued == VariableDebtTokenBalance(r, u, a.at))
  {
    hide RayMul, RayDiv, LiquidityIndex, VariableBorrowIndex, StableDebtTokenBalance, VariableDebtTokenBalance,
         LTokenBalance, StepReserve, PoolCovers, Near;
    var r, u := st.reserve, st.users[a.user];
    StepIndexes(s, st, a);
    StepIndexesAtLeastRay(s, st, a);
    UserBalances(r, u, a.at);
    ScaledPlus(StableBalance(u, a.at), u.scaledVariableDebt, VariableBorrowIndex(r, a.at));
    if r.totalVariableDebt == 0 ==> u.scaledVariableDebt == 0 {
      UserDebtViewAgrees(r, u, a.at);
    }
  }
}
