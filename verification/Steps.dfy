/**
  The calculation of every action as it runs: a record is filled field by field, amounts and
  records are overwritten along the branch that applies.  Each calculation is proved to produce
  the record that the action's definition prescribes.
 */
module Steps {
  import opened RayMath
  import opened Rates
  import opened Reserve
  import opened StableDebt
  import opened Actions
  import opened UserActions

  // ---------- the reserve ----------

  method CalcReserveAfterDeposit(s: Strategy, amountDeposited: int, before: ReserveData, txTimestamp: int)
      returns (expected: ReserveData)
    requires s.Valid() && CanDeposit(before, amountDeposited, txTimestamp)
    ensures expected == ReserveAfterDeposit(s, before, amountDeposited, txTimestamp)
  {
    hide RayMul, RayDiv, LiquidityIndex, VariableBorrowIndex, TotalStableDebt, UtilizationRate, RatesAt;
    DepositUtilizable(before, amountDeposited, txTimestamp);
    expected := before.(lastUpdateTimestamp := txTimestamp);
    expected := expected.(totalLiquidity := before.totalLiquidity + amountDeposited);
    expected := expected.(availableLiquidity := before.availableLiquidity + amountDeposited);
    expected := expected.(liquidityIndex := LiquidityIndex(before, txTimestamp));
    expected := expected.(variableBorrowIndex := VariableBorrowIndex(before, txTimestamp));
    expected := expected.(totalStableDebt := TotalStableDebt(before.principalStableDebt, before.averageStableBorrowRate,
                                                             before.totalStableDebtLastUpdated, txTimestamp));
    expected := expected.(totalVariableDebt := RayMul(before.scaledVariableDebt, expected.variableBorrowIndex));
    expected := expected.(utilizationRate := UtilizationRate(expected.totalStableDebt, expected.totalVariableDebt,
                                                             expected.totalLiquidity));
    var rates := CalcInterestRates(s, before.marketStableRate, expected.utilizationRate, expected.totalStableDebt,
                                   expected.totalVariableDebt, expected.averageStableBorrowRate);
    expected := expected.(liquidityRate := rates.liquidityRate);
    expected := expected.(stableBorrowRate := rates.stableBorrowRate);
    expected := expected.(variableBorrowRate := rates.variableBorrowRate);
  }

  method CalcReserveAfterWithdraw(s: Strategy, amountWithdrawn: int, before: ReserveData, user: UserReserveData,
                                  txTimestamp: int)
      returns (expected: ReserveData)
    requires s.Valid() && CanWithdraw(before, user, amountWithdrawn, txTimestamp)
    ensures expected == ReserveAfterWithdraw(s, before, user, amountWithdrawn, txTimestamp)
  {
    hide RayMul, RayDiv, LiquidityIndex, VariableBorrowIndex, TotalStableDebt, UtilizationRate, RatesAt, LTokenBalance;
    WithdrawnFacts(before, WithdrawnAmount(before, user, amountWithdrawn, txTimestamp), txTimestamp);
    var amount := amountWithdrawn;
    if amount == MAX_UINT_AMOUNT {
      amount := LTokenBalance(before, user, txTimestamp);
    }
    expected := before.(lastUpdateTimestamp := txTimestamp);
    expected := expected.(availableLiquidity := before.availableLiquidity - amount);
    expected := expected.(liquidityIndex := LiquidityIndex(before, txTimestamp));
    expected := expected.(variableBorrowIndex := VariableBorrowIndex(before, txTimestamp));
    expected := expected.(totalStableDebt := TotalStableDebt(before.principalStableDebt, before.averageStableBorrowRate,
                                                             before.totalStableDebtLastUpdated, txTimestamp));
    expected := expected.(totalVariableDebt := RayMul(expected.scaledVariableDebt, expected.variableBorrowIndex));
    expected := expected.(totalLiquidity := before.availableLiquidity - amount + expected.totalVariableDebt +
                                            expected.totalStableDebt);
    expected := expected.(utilizationRate := UtilizationRate(expected.totalStableDebt, expected.totalVariableDebt,
                                                             expected.totalLiquidity));
    var rates := CalcInterestRates(s, before.marketStableRate, expected.utilizationRate, expected.totalStableDebt,
                                   expected.totalVariableDebt, expected.averageStableBorrowRate);
    expected := expected.(liquidityRate := rates.liquidityRate);
    expected := expected.(stableBorrowRate := rates.stableBorrowRate);
    expected := expected.(variableBorrowRate := rates.variableBorrowRate);
  }

  method CalcReserveAfterBorrow(s: Strategy, amountBorrowed: int, mode: RateMode, before: ReserveData,
                                user: UserReserveData, txTimestamp: int, currentTimestamp: int)
      returns (expected: ReserveData)
    requires s.Valid() && CanBorrow(before, user, amountBorrowed, txTimestamp, currentTimestamp)
    ensures expected == ReserveAfterBorrow(s, before, user, amountBorrowed, mode, txTimestamp, currentTimestamp)
  {
    if mode == Stable {
      expected := CalcReserveAfterStableBorrow(s, amountBorrowed, before, user, txTimestamp, currentTimestamp);
    } else {
      expected := CalcReserveAfterVariableBorrow(s, amountBorrowed, before, user, txTimestamp, currentTimestamp);
    }
  }

  method CalcReserveAfterStableBorrow(s: Strategy, amountBorrowed: int, before: ReserveData,
                                      user: UserReserveData, txTimestamp: int, currentTimestamp: int)
      returns (expected: ReserveData)
    requires s.Valid() && CanBorrow(before, user, amountBorrowed, txTimestamp, currentTimestamp)
    ensures expected == ReserveAfterBorrow(s, before, user, amountBorrowed, Stable, txTimestamp, currentTimestamp)
  {
    hide RayMul, RayDiv, LiquidityIndex, VariableBorrowIndex, TotalStableDebt, UtilizationRate, RatesAt,
         AverageStableBorrowRate, NormalizedDebt, Consistent;
    BorrowedStableFacts(before, amountBorrowed, txTimestamp);
    BorrowSeenUtilizable(s, before, user, amountBorrowed, Stable, txTimestamp, currentTimestamp);
    expected := before;
    expected := expected.(liquidityIndex := LiquidityIndex(before, txTimestamp));
    expected := expected.(variableBorrowIndex := VariableBorrowIndex(before, txTimestamp));
    expected := expected.(availableLiquidity := before.availableLiquidity - amountBorrowed);
    expected := expected.(lastUpdateTimestamp := txTimestamp, totalStableDebtLastUpdated := txTimestamp);
    var variableDebtAfterTx := RayMul(expected.scaledVariableDebt, expected.variableBorrowIndex);
    var stableDebtUntilTx := TotalStableDebt(before.principalStableDebt, before.averageStableBorrowRate,
                                             before.totalStableDebtLastUpdated, txTimestamp);
    expected := expected.(principalStableDebt := stableDebtUntilTx + amountBorrowed);
    expected := expected.(averageStableBorrowRate := AverageStableBorrowRate(
                            before.averageStableBorrowRate, stableDebtUntilTx, amountBorrowed, before.stableBorrowRate));
    var totalLiquidityAfterTx := expected.availableLiquidity + expected.principalStableDebt + variableDebtAfterTx;
    var utilizationRateAfterTx := UtilizationRate(expected.principalStableDebt, variableDebtAfterTx, totalLiquidityAfterTx);
    var rates := CalcInterestRates(s, before.marketStableRate, utilizationRateAfterTx, expected.principalStableDebt,
                                   variableDebtAfterTx, expected.averageStableBorrowRate);
    expected := expected.(liquidityRate := rates.liquidityRate);
    expected := expected.(stableBorrowRate := rates.stableBorrowRate);
    expected := expected.(variableBorrowRate := rates.variableBorrowRate);
    expected := expected.(totalStableDebt := TotalStableDebt(expected.principalStableDebt, expected.averageStableBorrowRate,
                                                             txTimestamp, currentTimestamp));
    expected := expected.(totalVariableDebt := RayMul(
                            before.scaledVariableDebt,
                            NormalizedDebt(expected.variableBorrowRate, expected.variableBorrowIndex, txTimestamp, currentTimestamp)));
    expected := expected.(totalLiquidity := expected.availableLiquidity + expected.totalVariableDebt + expected.totalStableDebt);
    expected := expected.(utilizationRate := UtilizationRate(expected.totalStableDebt, expected.totalVariableDebt,
                                                             expected.totalLiquidity));
  }

  method CalcReserveAfterVariableBorrow(s: Strategy, amountBorrowed: int, before: ReserveData,
                                        user: UserReserveData, txTimestamp: int, currentTimestamp: int)
      returns (expected: ReserveData)
    requires s.Valid() && CanBorrow(before, user, amountBorrowed, txTimestamp, currentTimestamp)
    ensures expected == ReserveAfterBorrow(s, before, user, amountBorrowed, Variable, txTimestamp, currentTimestamp)
  {
    hide RayMul, RayDiv, LiquidityIndex, VariableBorrowIndex, TotalStableDebt, StableDebtTokenBalance, UtilizationRate,
         RatesAt, NormalizedDebt, Consistent;
    BorrowedVariableFacts(before, amountBorrowed, txTimestamp);
    BorrowSeenUtilizable(s, before, user, amountBorrowed, Variable, txTimestamp, currentTimestamp);
    expected := before;
    expected := expected.(liquidityIndex := LiquidityIndex(before, txTimestamp));
    expected := expected.(variableBorrowIndex := VariableBorrowIndex(before, txTimestamp));
    expected := expected.(availableLiquidity := before.availableLiquidity - amountBorrowed);
    expected := expected.(lastUpdateTimestamp := txTimestamp);
    var stableDebtAfterTx := StableDebtTokenBalance(before.principalStableDebt, before.averageStableBorrowRate,
                                                    before.totalStableDebtLastUpdated, txTimestamp);
    expected := expected.(totalStableDebt := TotalStableDebt(before.principalStableDebt, before.averageStableBorrowRate,
                                                             before.totalStableDebtLastUpdated, currentTimestamp));
    expected := expected.(scaledVariableDebt := before.scaledVariableDebt + RayDiv(amountBorrowed, expected.variableBorrowIndex));
    var variableDebtAfterTx := RayMul(expected.scaledVariableDebt, expected.variableBorrowIndex);
    assert BorrowedVariable(before, amountBorrowed, txTimestamp).totalStableDebt == stableDebtAfterTx;
    assert BorrowedVariable(before, amountBorrowed, txTimestamp).totalVariableDebt == variableDebtAfterTx;
    var utilizationRateAfterTx := UtilizationRate(stableDebtAfterTx, variableDebtAfterTx,
                                                  expected.availableLiquidity + stableDebtAfterTx + variableDebtAfterTx);
    var rates := CalcInterestRates(s, before.marketStableRate, utilizationRateAfterTx, stableDebtAfterTx,
                                   variableDebtAfterTx, expected.averageStableBorrowRate);
    expected := expected.(liquidityRate := rates.liquidityRate);
    expected := expected.(stableBorrowRate := rates.stableBorrowRate);
    expected := expected.(variableBorrowRate := rates.variableBorrowRate);
    expected := expected.(totalVariableDebt := RayMul(
                            expected.scaledVariableDebt,
                            NormalizedDebt(expected.variableBorrowRate, expected.variableBorrowIndex, txTimestamp, currentTimestamp)));
    expected := expected.(totalLiquidity := expected.availableLiquidity + expected.totalStableDebt + expected.totalVariableDebt);
    expected := expected.(utilizationRate := UtilizationRate(expected.totalStableDebt, expected.totalVariableDebt,
                                                             expected.totalLiquidity));
  }

  method CalcReserveAfterRepay(s: Strategy, amountRepaid: int, mode: RateMode, before: ReserveData,
                               user: UserReserveData, txTimestamp: int)
      returns (expected: ReserveData)
    requires s.Valid() && CanRepay(before, user, amountRepaid, mode, txTimestamp)
    ensures expected == ReserveAfterRepay(s, before, user, amountRepaid, mode, txTimestamp)
  {
    hide RayMul, RayDiv, LiquidityIndex, VariableBorrowIndex, TotalStableDebt, UtilizationRate, RatesAt,
         AverageStableBorrowRate, StableDebtTokenBalance, VariableDebtTokenBalance;
    var amount := amountRepaid;
    var userStableDebt := StableBalance(user, txTimestamp);
    var userVariableDebt := VariableDebtTokenBalance(before, user, txTimestamp);
    if Abs(amount) == MAX_UINT_AMOUNT {
      if mode == Stable {
        amount := userStableDebt;
      } else {
        amount := userVariableDebt;
      }
    }
    expected := before;
    expected := expected.(liquidityIndex := LiquidityIndex(before, txTimestamp));
    expected := expected.(variableBorrowIndex := VariableBorrowIndex(before, txTimestamp));
    if mode == Stable {
      RepaidStableFacts(before, amount, user.stableBorrowRate, txTimestamp);
      var expectedDebt := TotalStableDebt(before.principalStableDebt, before.averageStableBorrowRate,
                                          before.totalStableDebtLastUpdated, txTimestamp);
      expected := expected.(principalStableDebt := expectedDebt - amount, totalStableDebt := expectedDebt - amount);
      if expected.totalStableDebt < 0 {
        expected := expected.(principalStableDebt := 0, totalStableDebt := 0, averageStableBorrowRate := 0);
      } else {
        expected := expected.(averageStableBorrowRate := AverageStableBorrowRate(
                                before.averageStableBorrowRate, expectedDebt, -amount, user.stableBorrowRate));
        if expected.averageStableBorrowRate < 0 {
          expected := expected.(principalStableDebt := 0, totalStableDebt := 0, averageStableBorrowRate := 0);
        }
      }
      expected := expected.(totalVariableDebt := RayMul(expected.scaledVariableDebt, expected.variableBorrowIndex));
      expected := expected.(totalStableDebtLastUpdated := txTimestamp);
    } else {
      expected := expected.(scaledVariableDebt := before.scaledVariableDebt - RayDiv(amount, expected.variableBorrowIndex));
      expected := expected.(totalVariableDebt := RayMul(expected.scaledVariableDebt, expected.variableBorrowIndex));
      expected := expected.(totalStableDebt := before.totalStableDebt);
    }
    expected := expected.(availableLiquidity := before.availableLiquidity + amount);
    expected := expected.(totalLiquidity := expected.availableLiquidity + expected.totalStableDebt + expected.totalVariableDebt);
    expected := expected.(utilizationRate := UtilizationRate(expected.totalStableDebt, expected.totalVariableDebt,
                                                             expected.totalLiquidity));
    var rates := CalcInterestRates(s, before.marketStableRate, expected.utilizationRate, expected.totalStableDebt,
                                   expected.totalVariableDebt, expected.averageStableBorrowRate);
    expected := expected.(liquidityRate := rates.liquidityRate);
    expected := expected.(stableBorrowRate := rates.stableBorrowRate);
    expected := expected.(variableBorrowRate := rates.variableBorrowRate);
    expected := expected.(lastUpdateTimestamp := txTimestamp);
  }

  method CalcReserveAfterSwap(s: Strategy, before: ReserveData, user: UserReserveData, mode: RateMode, txTimestamp: int)
      returns (expected: ReserveData)
    requires s.Valid() && CanSwap(before, user, mode, txTimestamp)
    ensures expected == ReserveAfterSwap(s, before, user, mode, txTimestamp)
  {
    hide RayMul, RayDiv, LiquidityIndex, VariableBorrowIndex, TotalStableDebt, UtilizationRate, RatesAt,
         AverageStableBorrowRate, StableDebtTokenBalance, VariableDebtTokenBalance;
    var variableDebt := VariableDebtTokenBalance(before, user, txTimestamp);
    var stableDebt := StableBalance(user, txTimestamp);
    expected := before.(lastUpdateTimestamp := txTimestamp, totalStableDebtLastUpdated := txTimestamp);
    expected := expected.(liquidityIndex := LiquidityIndex(before, txTimestamp));
    expected := expected.(variableBorrowIndex := VariableBorrowIndex(before, txTimestamp));
    var stableDebtUntilTx := TotalStableDebt(before.principalStableDebt, before.averageStableBorrowRate,
                                             before.totalStableDebtLastUpdated, txTimestamp);
    if mode == Stable {
      SwappedToVariableFacts(before, user, txTimestamp);
      expected := expected.(scaledVariableDebt := before.scaledVariableDebt + RayDiv(stableDebt, expected.variableBorrowIndex));
      expected := expected.(totalVariableDebt := RayMul(expected.scaledVariableDebt, expected.variableBorrowIndex));
      expected := expected.(principalStableDebt := stableDebtUntilTx - stableDebt,
                            totalStableDebt := stableDebtUntilTx - stableDebt);
      expected := expected.(averageStableBorrowRate := AverageStableBorrowRate(
                              before.averageStableBorrowRate, expected.principalStableDebt + stableDebt, -stableDebt,
                              user.stableBorrowRate));
    } else {
      expected := expected.(principalStableDebt := stableDebtUntilTx + variableDebt,
                            totalStableDebt := stableDebtUntilTx + variableDebt);
      expected := expected.(scaledVariableDebt := before.scaledVariableDebt - RayDiv(variableDebt, expected.variableBorrowIndex));
      expected := expected.(totalVariableDebt := RayMul(expected.scaledVariableDebt, expected.variableBorrowIndex));
      expected := expected.(averageStableBorrowRate := AverageStableBorrowRate(
                              before.averageStableBorrowRate, before.totalStableDebt, variableDebt, before.stableBorrowRate));
    }
    expected := expected.(totalLiquidity := before.availableLiquidity + expected.totalStableDebt + expected.totalVariableDebt);
    expected := expected.(utilizationRate := UtilizationRate(expected.totalStableDebt, expected.totalVariableDebt,
                                                             expected.totalLiquidity));
    var rates := CalcInterestRates(s, before.marketStableRate, expected.utilizationRate, expected.totalStableDebt,
                                   expected.totalVariableDebt, expected.averageStableBorrowRate);
    expected := expected.(liquidityRate := rates.liquidityRate);
    expected := expected.(stableBorrowRate := rates.stableBorrowRate);
    expected := expected.(variableBorrowRate := rates.variableBorrowRate);
  }

  // ---------- the user ----------

  method CalcUserAfterDeposit(amountDeposited: int, before: ReserveData, after: ReserveData, user: UserReserveData,
                              txTimestamp: int)
      returns (expected: UserReserveData)
    requires after.liquidityIndex != 0
    ensures expected == UserAfterDeposit(before, after, user, amountDeposited, txTimestamp)
  {
    hide RayMul, RayDiv, LTokenBalance, StableDebtTokenBalance, VariableDebtTokenBalance;
    expected := user;
    expected := expected.(currentStableDebt := StableBalance(user, txTimestamp));
    expected := expected.(currentVariableDebt := VariableDebtTokenBalance(before, user, txTimestamp));
    expected := expected.(liquidityRate := after.liquidityRate);
    expected := expected.(scaledLTokenBalance := ScaledLTokenBalance(user, after.liquidityIndex, amountDeposited, 0));
    expected := expected.(currentLTokenBalance := LTokenBalance(before, user, txTimestamp) + amountDeposited);
    if user.currentLTokenBalance == 0 {
      expected := expected.(usageAsCollateralEnabled := true);
    } else {
      expected := expected.(usageAsCollateralEnabled := user.usageAsCollateralEnabled);
    }
    expected := expected.(walletBalance := user.walletBalance - amountDeposited);
    var stableDebt := StableBalance(user, txTimestamp);
    expected := expected.(principalStableDebt := stableDebt, currentStableDebt := stableDebt);
    var variableDebt := VariableDebtTokenBalance(before, user, txTimestamp);
    expected := expected.(principalStableDebt := variableDebt, currentVariableDebt := variableDebt);
  }

  method CalcUserAfterWithdraw(amountWithdrawn: int, before: ReserveData, after: ReserveData, user: UserReserveData,
                               txTimestamp: int)
      returns (expected: UserReserveData)
    requires after.liquidityIndex != 0
    ensures expected == UserAfterWithdraw(before, after, user, amountWithdrawn, txTimestamp)
  {
    hide RayMul, RayDiv, LTokenBalance, StableDebtTokenBalance, VariableDebtTokenBalance;
    expected := user;
    var lTokenBalance := LTokenBalance(before, user, txTimestamp);
    var amount := amountWithdrawn;
    if amount == MAX_UINT_AMOUNT {
      amount := lTokenBalance;
    }
    expected := expected.(scaledLTokenBalance := ScaledLTokenBalance(user, after.liquidityIndex, 0, amount));
    expected := expected.(currentLTokenBalance := lTokenBalance - amount);
    expected := expected.(currentStableDebt := StableBalance(user, txTimestamp));
    expected := expected.(currentVariableDebt := VariableDebtTokenBalance(before, user, txTimestamp));
    expected := expected.(liquidityRate := after.liquidityRate);
    if user.currentLTokenBalance == 0 {
      expected := expected.(usageAsCollateralEnabled := true);
    } else {
      if expected.currentLTokenBalance == 0 {
        expected := expected.(usageAsCollateralEnabled := false);
      } else {
        expected := expected.(usageAsCollateralEnabled := user.usageAsCollateralEnabled);
      }
    }
    expected := expected.(walletBalance := user.walletBalance + amount);
  }

  method CalcUserAfterBorrow(amountBorrowed: int, mode: RateMode, before: ReserveData, after: ReserveData,
                             user: UserReserveData, txTimestamp: int, currentTimestamp: int)
      returns (expected: UserReserveData)
    requires after.variableBorrowIndex != 0
    requires mode == Stable ==> StableBalance(user, txTimestamp) + amountBorrowed != 0
    ensures expected == UserAfterBorrow(before, after, user, amountBorrowed, mode, txTimestamp, currentTimestamp)
  {
    hide RayMul, RayDiv, StableDebtTokenBalance, NormalizedDebt, NormalizedIncome, UserStableRate;
    expected := user;
    if mode == Stable {
      var stableDebtUntilTx := StableBalance(user, txTimestamp);
      expected := expected.(principalStableDebt := stableDebtUntilTx + amountBorrowed);
      expected := expected.(stableRateLastUpdated := txTimestamp);
      expected := expected.(stableBorrowRate := UserStableRate(stableDebtUntilTx, user.stableBorrowRate, amountBorrowed,
                                                               before.stableBorrowRate));
      expected := expected.(currentStableDebt := StableDebtTokenBalance(expected.principalStableDebt,
                                                                        expected.stableBorrowRate, txTimestamp, currentTimestamp));
    } else {
      expected := expected.(scaledVariableDebt := before.scaledVariableDebt +
                                                  RayDiv(amountBorrowed, after.variableBorrowIndex));
      expected := expected.(currentStableDebt := StableBalance(user, currentTimestamp));
    }
    expected := expected.(currentVariableDebt := VariableDebtTokenBalance(after, expected, currentTimestamp));
    expected := expected.(liquidityRate := after.liquidityRate);
    expected := expected.(currentLTokenBalance := LTokenBalance(after, user, currentTimestamp));
    expected := expected.(walletBalance := user.walletBalance + amountBorrowed);
  }

  method CalcUserAfterRepay(totalRepaid: int, mode: RateMode, before: ReserveData, after: ReserveData,
                            user: UserReserveData, ownRepay: bool, txTimestamp: int, currentTimestamp: int)
      returns (expected: UserReserveData)
    requires after.variableBorrowIndex != 0
    ensures expected == UserAfterRepay(before, after, user, totalRepaid, mode, ownRepay, txTimestamp, currentTimestamp)
  {
    hide RayMul, RayDiv, LTokenBalance, StableDebtTokenBalance, VariableDebtTokenBalance;
    expected := user;
    var variableDebt := VariableDebtTokenBalance(before, user, currentTimestamp);
    var stableDebt := StableBalance(user, currentTimestamp);
    var amount := totalRepaid;
    if Abs(amount) == MAX_UINT_AMOUNT {
      amount := if mode == Stable then stableDebt else variableDebt;
    }
    if mode == Stable {
      expected := expected.(currentVariableDebt := variableDebt);
      expected := expected.(principalStableDebt := stableDebt - amount, currentStableDebt := stableDebt - amount);
      if expected.currentStableDebt == 0 {
        expected := expected.(stableBorrowRate := 0, stableRateLastUpdated := 0);
      } else {
        expected := expected.(stableBorrowRate := user.stableBorrowRate);
        expected := expected.(stableRateLastUpdated := txTimestamp);
      }
    } else {
      expected := expected.(currentStableDebt := user.principalStableDebt);
      expected := expected.(principalStableDebt := stableDebt);
      expected := expected.(scaledVariableDebt := user.scaledVariableDebt - RayDiv(amount, after.variableBorrowIndex));
      expected := expected.(currentVariableDebt := RayMul(expected.scaledVariableDebt, after.variableBorrowIndex));
    }
    expected := expected.(liquidityRate := after.liquidityRate);
    expected := expected.(currentLTokenBalance := LTokenBalance(before, user, txTimestamp));
    if ownRepay {
      expected := expected.(walletBalance := user.walletBalance - amount);
    } else {
      expected := expected.(walletBalance := user.walletBalance);
    }
  }

  method CalcUserAfterSwap(before: ReserveData, after: ReserveData, user: UserReserveData, mode: RateMode, txTimestamp: int)
      returns (expected: UserReserveData)
    requires after.variableBorrowIndex != 0
    requires mode == Variable ==> StableBalance(user, txTimestamp) + VariableDebtTokenBalance(before, user, txTimestamp) != 0
    ensures expected == UserAfterSwap(before, after, user, mode, txTimestamp)
  {
    hide RayMul, RayDiv, LTokenBalance, StableDebtTokenBalance, VariableDebtTokenBalance, UserStableRate;
    expected := user;
    var stableDebtBalance := StableBalance(user, txTimestamp);
    var variableDebtBalance := VariableDebtTokenBalance(before, user, txTimestamp);
    expected := expected.(currentLTokenBalance := LTokenBalance(before, user, txTimestamp));
    if mode == Stable {
      expected := expected.(currentStableDebt := 0, principalStableDebt := 0);
      expected := expected.(stableBorrowRate := 0);
      expected := expected.(scaledVariableDebt := user.scaledVariableDebt + RayDiv(stableDebtBalance, after.variableBorrowIndex));
      expected := expected.(currentVariableDebt := RayMul(expected.scaledVariableDebt, after.variableBorrowIndex));
      expected := expected.(stableRateLastUpdated := 0);
    } else {
      expected := expected.(principalStableDebt := user.currentStableDebt + variableDebtBalance,
                            currentStableDebt := user.currentStableDebt + variableDebtBalance);
      expected := expected.(stableBorrowRate := UserStableRate(stableDebtBalance, user.stableBorrowRate, variableDebtBalance,
                                                               before.stableBorrowRate));
      expected := expected.(stableRateLastUpdated := txTimestamp);
      expected := expected.(currentVariableDebt := 0, scaledVariableDebt := 0);
    }
    expected := expected.(liquidityRate := after.liquidityRate);
  }
}
