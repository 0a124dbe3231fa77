/**
  What each action does to the balances of the user who takes it, read back through the views right
  after the transaction: a claim or a debt moves by the amount, exactly or up to one rounded scaling.
 */
module Balances {
  import opened RayMath
  import opened Interest
  import opened Rates
  import opened Reserve
  import opened StableDebt
  import opened Actions
  import opened Runs

  // ---------- views right after a step ----------

  /** After a step, both views read the indexes of the common accrual. */
  lemma ViewsAfterStep(s: Strategy, st: State, a: Action, u: UserReserveData)
    requires s.Valid() && Enabled(st, a) && !a.SetUseAsCollateral?
    ensures var after := StepReserve(s, st, a);
      && LTokenBalance(after, u, a.at) == RayMul(u.scaledLTokenBalance, LiquidityIndex(st.reserve, a.at))
      && VariableDebtTokenBalance(after, u, a.at) == RayMul(u.scaledVariableDebt, VariableBorrowIndex(st.reserve, a.at))
      && RAY <= LiquidityIndex(st.reserve, a.at) && RAY <= VariableBorrowIndex(st.reserve, a.at)
  {
    hide StepReserve, RayMul, LiquidityIndex, VariableBorrowIndex, NormalizedIncome, NormalizedDebt, Enabled;
    StepIndexes(s, st, a);
    StepIndexesAtLeastRay(s, st, a);
    IndexesAtOnce(StepReserve(s, st, a));
  }

  /** Before the step, a user's claim already reads the index that the step stores. */
  lemma ClaimBefore(st: State, a: Action)
    requires Enabled(st, a) && !a.SetUseAsCollateral?
    ensures var u := st.users[a.user];
      && LTokenBalance(st.reserve, u, a.at) == RayMul(u.scaledLTokenBalance, LiquidityIndex(st.reserve, a.at))
      && 0 <= u.scaledLTokenBalance
  {
    hide Consistent, RayMul, LiquidityIndex, NormalizedIncome, Enabled;
    EnabledFacts(st, a);
    IncomeViewIsIndex(st.reserve, a.at);
  }

  /** The same for a variable debt, as long as no total debt means that the user has none. */
  lemma DebtBefore(st: State, a: Action)
    requires Enabled(st, a) && !a.SetUseAsCollateral?
    requires st.reserve.totalVariableDebt == 0 ==> st.users[a.user].scaledVariableDebt == 0
    ensures var u := st.users[a.user];
      && VariableDebtTokenBalance(st.reserve, u, a.at) == RayMul(u.scaledVariableDebt, VariableBorrowIndex(st.reserve, a.at))
      && 0 <= u.scaledVariableDebt
  {
    hide RayMul, VariableBorrowIndex, VariableDebtTokenBalance, Enabled;
    EnabledFacts(st, a);
    UserDebtViewAgrees(st.reserve, st.users[a.user], a.at);
  }

  // ---------- claims ----------

  /** A deposit raises the user's claim by the amount deposited. */
  lemma DepositCreditsAmount(s: Strategy, st: State, a: Action)
    requires s.Valid() && Enabled(st, a) && a.Deposit?
    ensures var after, u := Step(s, st, a), st.users[a.user];
      Near(LTokenBalance(after.reserve, after.users[a.user], a.at), LTokenBalance(st.reserve, u, a.at) + a.amount,
           LiquidityIndex(st.reserve, a.at))
  {
    hide RayMul, RayDiv, LiquidityIndex, LTokenBalance, StepReserve, VariableDebtTokenBalance, StableBalance, Consistent, Near;
    var u := st.users[a.user];
    StepIndexes(s, st, a);
    ViewsAfterStep(s, st, a, StepUser(s, st, a));
    ClaimBefore(st, a);
    ScaledPlus(a.amount, u.scaledLTokenBalance, LiquidityIndex(st.reserve, a.at));
    DepositScaled(s, st, a);
  }

  lemma DepositScaled(s: Strategy, st: State, a: Action)
    requires s.Valid() && Enabled(st, a) && a.Deposit?
    ensures LiquidityIndex(st.reserve, a.at) >= RAY
    ensures StepUser(s, st, a).scaledLTokenBalance
      == st.users[a.user].scaledLTokenBalance + RayDiv(a.amount, LiquidityIndex(st.reserve, a.at))
  {
    hide RayDiv, LiquidityIndex, LTokenBalance, StepReserve, VariableDebtTokenBalance, StableBalance, Consistent;
    StepIndexes(s, st, a);
    StepIndexesAtLeastRay(s, st, a);
    RayDivZero(LiquidityIndex(st.reserve, a.at));
  }

  /** A withdrawal lowers the user's claim by the amount paid out. */
  lemma WithdrawDebitsAmount(s: Strategy, st: State, a: Action)
    requires s.Valid() && Enabled(st, a) && a.Withdraw?
    ensures var after, u := Step(s, st, a), st.users[a.user];
      Near(LTokenBalance(after.reserve, after.users[a.user], a.at),
           LTokenBalance(st.reserve, u, a.at) - WithdrawnAmount(st.reserve, u, a.amount, a.at),
           LiquidityIndex(st.reserve, a.at))
  {
    hide RayMul, RayDiv, LiquidityIndex, LTokenBalance, StepReserve, WithdrawnAmount, Consistent, Near;
    var u := st.users[a.user];
    ViewsAfterStep(s, st, a, StepUser(s, st, a));
    ClaimBefore(st, a);
    WithdrawScaled(s, st, a);
    ScaledCover(WithdrawnAmount(st.reserve, u, a.amount, a.at), u.scaledLTokenBalance, LiquidityIndex(st.reserve, a.at));
    ScaledMinus(WithdrawnAmount(st.reserve, u, a.amount, a.at), u.scaledLTokenBalance, LiquidityIndex(st.reserve, a.at));
  }

  lemma WithdrawScaled(s: Strategy, st: State, a: Action)
    requires s.Valid() && Enabled(st, a) && a.Withdraw?
    ensures LiquidityIndex(st.reserve, a.at) >= RAY
    ensures var taken := WithdrawnAmount(st.reserve, st.users[a.user], a.amount, a.at);
      0 <= taken <= LTokenBalance(st.reserve, st.users[a.user], a.at)
      && StepUser(s, st, a).scaledLTokenBalance
         == st.users[a.user].scaledLTokenBalance - RayDiv(taken, LiquidityIndex(st.reserve, a.at))
  {
    hide RayDiv, LiquidityIndex, LTokenBalance, StepReserve, VariableDebtTokenBalance, StableBalance, Consistent,
         WithdrawnAmount;
    StepIndexes(s, st, a);
    StepIndexesAtLeastRay(s, st, a);
    RayDivZero(LiquidityIndex(st.reserve, a.at));
  }

  // ---------- stable debt ----------

  /** A stable borrow raises the user's stable debt by exactly the amount, at a rate between the old one and the reserve's. */
  lemma StableBorrowAddsAmount(s: Strategy, st: State, a: Action)
    requires s.Valid() && Enabled(st, a) && a.Borrow? && a.mode == Stable
    ensures var u, after := st.users[a.user], Step(s, st, a).users[a.user];
      && StableBalance(after, a.at) == StableBalance(u, a.at) + a.amount
      && (var low := if u.stableBorrowRate <= st.reserve.stableBorrowRate then u.stableBorrowRate else st.reserve.stableBorrowRate;
          var high := if u.stableBorrowRate <= st.reserve.stableBorrowRate then st.reserve.stableBorrowRate else u.stableBorrowRate;
          low <= after.stableBorrowRate <= high)
  {
    hide StepReserve, CompoundedInterest, RayMul, VariableDebtTokenBalance, LTokenBalance, Consistent, UserStableRate;
    var u := st.users[a.user];
    EnabledFacts(st, a);
    StepIndexesAtLeastRay(s, st, a);
    UserBalances(st.reserve, u, a.at);
    BorrowRates(st.reserve);
    UserRateBetween(StableBalance(u, a.at), u.stableBorrowRate, a.amount, st.reserve.stableBorrowRate);
  }

  lemma BorrowRates(r: ReserveData)
    requires Consistent(r)
    ensures 0 <= r.stableBorrowRate
  {
  }

  /** A user's new stable rate is a weighted average of the old rate and the new one. */
  lemma UserRateBetween(balance: int, rate: int, amount: int, newRate: int)
    requires balance >= 0 && amount >= 0 && rate >= 0 && newRate >= 0 && balance + amount > 0
    ensures (if rate <= newRate then rate else newRate)
      <= UserStableRate(balance, rate, amount, newRate) <= (if rate <= newRate then newRate else rate)
  {
    hide TruncDiv;
    AddedLoanKeepsAverageBetween(rate, balance, amount, newRate);
    assert balance * rate + amount * newRate == rate * balance + newRate * amount;
  }

  /** A stable repay leaves what the user owed when it was looked at, less exactly the amount repaid. */
  lemma StableRepayTakesAmount(s: Strategy, st: State, a: Action)
    requires s.Valid() && Enabled(st, a) && a.Repay? && a.mode == Stable
    ensures var u, after := st.users[a.user], Step(s, st, a).users[a.user];
      StableBalance(after, a.at) == StableBalance(u, a.seenAt) - RepaidAmount(st.reserve, u, Stable, a.amount, a.seenAt)
  {
    hide StepReserve, CompoundedInterest, RayMul, VariableDebtTokenBalance, LTokenBalance, Consistent, RepaidAmount;
    StepIndexesAtLeastRay(s, st, a);
  }

  // ---------- variable debt ----------

  /**
    A variable repay lowers the user's variable debt, accrued to the transaction, by the amount repaid,
    with one more unit of rounding if that is more than the user's scaled debt.
   */
  lemma VariableRepayTakesAmount(s: Strategy, st: State, a: Action)
    requires s.Valid() && Enabled(st, a) && a.Repay? && a.mode == Variable
    ensures var r, u, after := st.reserve, st.users[a.user], Step(s, st, a);
      var index := VariableBorrowIndex(r, a.at);
      var accrued, repaid := RayMul(u.scaledVariableDebt, index), RepaidAmount(r, u, Variable, a.amount, a.seenAt);
      var left := VariableDebtTokenBalance(after.reserve, after.users[a.user], a.at);
      && Near(left, accrued - repaid, 2 * RAY + index)
      && (ScaledPaid(st, a) <= u.scaledVariableDebt ==> Near(left, accrued - repaid, index))
      && ((r.totalVariableDebt == 0 ==> u.scaledVariableDebt == 0) ==> accrued == VariableDebtTokenBalance(r, u, a.at))
  {
    hide RayMul, RayDiv, VariableBorrowIndex, VariableDebtTokenBalance, StepReserve, StepUser, RepaidAmount, Consistent,
         Near, StableBalance, LTokenBalance, RepayDefined;
    var r, u := st.reserve, st.users[a.user];
    var index, repaid := VariableBorrowIndex(r, a.at), RepaidAmount(r, u, Variable, a.amount, a.seenAt);
    ViewsAfterStep(s, st, a, StepUser(s, st, a));
    UserDebtChange(s, st, a);
    RepaidWithinDebt(st, a);
    ScaledMinusAny(repaid, u.scaledVariableDebt, index);
    if RayDiv(repaid, index) <= u.scaledVariableDebt {
      ScaledMinus(repaid, u.scaledVariableDebt, index);
    }
    if r.totalVariableDebt == 0 ==> u.scaledVariableDebt == 0 {
      DebtBefore(st, a);
    }
  }

  /**
    A variable borrow leaves the user owing the amount on top of all variable debt of the reserve,
    so it adds just the amount when all of that debt was theirs.
   */
  lemma VariableBorrowAddsToAllDebt(s: Strategy, st: State, a: Action)
    requires s.Valid() && Enabled(st, a) && a.Borrow? && a.mode == Variable
    ensures var after, u := Step(s, st, a), st.users[a.user];
      && Near(RayMul(after.users[a.user].scaledVariableDebt, VariableBorrowIndex(st.reserve, a.at)),
              Accrued(st.reserve, a.at).totalVariableDebt + a.amount, VariableBorrowIndex(st.reserve, a.at))
      && (u.scaledVariableDebt == st.reserve.scaledVariableDebt
          ==> Near(RayMul(after.users[a.user].scaledVariableDebt, VariableBorrowIndex(st.reserve, a.at)),
                   VariableDebtTokenBalance(st.reserve, u, a.at) + a.amount, VariableBorrowIndex(st.reserve, a.at)))
  {
    hide RayMul, RayDiv, VariableBorrowIndex, LiquidityIndex, TotalStableDebt, VariableDebtTokenBalance, StepReserve,
         StepUser, UserConsistent, Near, StableBalance, LTokenBalance;
    EnabledFacts(st, a);
    UserDebtChange(s, st, a);
    ScaledPlus(a.amount, st.reserve.scaledVariableDebt, VariableBorrowIndex(st.reserve, a.at));
    if st.users[a.user].scaledVariableDebt == st.reserve.scaledVariableDebt {
      DebtBefore(st, a);
    }
  }
}
