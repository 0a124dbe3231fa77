/**
  What each action makes of the acting user's record, given the reserve before and after it.
 */
module UserActions {
  import opened RayMath
  import opened Reserve
  import opened StableDebt
  import opened Actions

  /**
    Besides the deposit itself, this step rewrites the user's principal stable debt with their
    variable debt: two chained assignments share that target and the later one wins.
   */
  function UserAfterDeposit(before: ReserveData, after: ReserveData, u: UserReserveData, amount: int, t: int): UserReserveData
    requires after.liquidityIndex != 0
  {
    var variableDebt := VariableDebtTokenBalance(before, u, t);
    u.(scaledLTokenBalance := ScaledLTokenBalance(u, after.liquidityIndex, amount, 0),
       currentLTokenBalance := LTokenBalance(before, u, t) + amount,
       currentStableDebt := StableBalance(u, t),
       currentVariableDebt := variableDebt,
       principalStableDebt := variableDebt,
       liquidityRate := after.liquidityRate,
       usageAsCollateralEnabled := u.currentLTokenBalance == 0 || u.usageAsCollateralEnabled,
       walletBalance := u.walletBalance - amount)
  }

  function UserAfterWithdraw(before: ReserveData, after: ReserveData, u: UserReserveData, amount: int, t: int): UserReserveData
    requires after.liquidityIndex != 0
  {
    var taken := WithdrawnAmount(before, u, amount, t);
    var left := LTokenBalance(before, u, t) - taken;
    u.(scaledLTokenBalance := ScaledLTokenBalance(u, after.liquidityIndex, 0, taken),
       currentLTokenBalance := left,
       currentStableDebt := StableBalance(u, t),
       currentVariableDebt := VariableDebtTokenBalance(before, u, t),
       liquidityRate := after.liquidityRate,
       usageAsCollateralEnabled := u.currentLTokenBalance == 0 || (left != 0 && u.usageAsCollateralEnabled),
       walletBalance := u.walletBalance + taken)
  }

  /** A variable borrow adds to the scaled debt of the whole reserve, not to that of the user. */
  function UserAfterBorrow(before: ReserveData, after: ReserveData, u: UserReserveData, amount: int, mode: RateMode,
                           t: int, now: int): UserReserveData
    requires after.variableBorrowIndex != 0
    requires mode == Stable ==> StableBalance(u, t) + amount != 0
  {
    var owing :=
      match mode
      case Stable =>
        var debt := StableBalance(u, t);
        var rate := UserStableRate(debt, u.stableBorrowRate, amount, before.stableBorrowRate);
        u.(principalStableDebt := debt + amount,
           stableRateLastUpdated := t,
           stableBorrowRate := rate,
           currentStableDebt := StableDebtTokenBalance(debt + amount, rate, t, now))
      case Variable =>
        u.(scaledVariableDebt := before.scaledVariableDebt + RayDiv(amount, after.variableBorrowIndex),
           currentStableDebt := StableBalance(u, now));
    owing.(currentVariableDebt := VariableDebtTokenBalance(after, owing, now),
           liquidityRate := after.liquidityRate,
           currentLTokenBalance := LTokenBalance(after, u, now),
           walletBalance := u.walletBalance + amount)
  }

  /** A variable repay leaves the accrued stable debt as the principal and the principal as the current debt. */
  function UserAfterRepay(before: ReserveData, after: ReserveData, u: UserReserveData, amount: int, mode: RateMode,
                          ownRepay: bool, t: int, now: int): UserReserveData
    requires after.variableBorrowIndex != 0
  {
    var repaid := RepaidAmount(before, u, mode, amount, now);
    var stableDebt := StableBalance(u, now);
    var owing :=
      match mode
      case Stable =>
        var left := stableDebt - repaid;
        u.(currentVariableDebt := VariableDebtTokenBalance(before, u, now),
           principalStableDebt := left,
           currentStableDebt := left,
           stableBorrowRate := if left == 0 then 0 else u.stableBorrowRate,
           stableRateLastUpdated := if left == 0 then 0 else t)
      case Variable =>
        var scaled := u.scaledVariableDebt - RayDiv(repaid, after.variableBorrowIndex);
        u.(currentStableDebt := u.principalStableDebt,
           principalStableDebt := stableDebt,
           scaledVariableDebt := scaled,
           currentVariableDebt := RayMul(scaled, after.variableBorrowIndex));
    owing.(liquidityRate := after.liquidityRate,
           currentLTokenBalance := LTokenBalance(before, u, t),
           walletBalance := if ownRepay then u.walletBalance - repaid else u.walletBalance)
  }

  /** A swap to stable starts from the user's last recorded stable debt, without accruing it. */
  function UserAfterSwap(before: ReserveData, after: ReserveData, u: UserReserveData, mode: RateMode, t: int): UserReserveData
    requires after.variableBorrowIndex != 0
    requires mode == Variable ==> StableBalance(u, t) + VariableDebtTokenBalance(before, u, t) != 0
  {
    var stableDebt, variableDebt := StableBalance(u, t), VariableDebtTokenBalance(before, u, t);
    var owing :=
      match mode
      case Stable =>
        var scaled := u.scaledVariableDebt + RayDiv(stableDebt, after.variableBorrowIndex);
        u.(currentStableDebt := 0,
           principalStableDebt := 0,
           stableBorrowRate := 0,
           scaledVariableDebt := scaled,
           currentVariableDebt := RayMul(scaled, after.variableBorrowIndex),
           stableRateLastUpdated := 0)
      case Variable =>
        u.(principalStableDebt := u.currentStableDebt + variableDebt,
           currentStableDebt := u.currentStableDebt + variableDebt,
           stableBorrowRate := UserStableRate(stableDebt, u.stableBorrowRate, variableDebt, before.stableBorrowRate),
           stableRateLastUpdated := t,
           currentVariableDebt := 0,
           scaledVariableDebt := 0);
    owing.(currentLTokenBalance := LTokenBalance(before, u, t),
           liquidityRate := after.liquidityRate)
  }

  function UserAfterSetUseAsCollateral(u: UserReserveData, useAsCollateral: bool): UserReserveData {
    u.(usageAsCollateralEnabled := useAsCollateral)
  }
}
