/**
  The reserve and its users as a state machine, and what holds along every run of it.
 */
module Runs {
  import opened RayMath
  import opened Interest
  import opened Rates
  import opened Reserve
  import opened StableDebt
  import opened Actions
  import U = UserActions
  import opened Ledger

  datatype State = State(reserve: ReserveData, users: Users)

  datatype Action =
    | Deposit(user: string, amount: int, at: int)
    | Withdraw(user: string, amount: int, at: int)
    | Borrow(user: string, amount: int, mode: RateMode, at: int, seenAt: int)
    | Repay(user: string, amount: int, mode: RateMode, ownRepay: bool, at: int, seenAt: int)
    | Swap(user: string, mode: RateMode, at: int)
    | SetUseAsCollateral(user: string, useAsCollateral: bool)

  predicate Sound(st: State) {
    && Consistent(st.reserve)
    && forall k :: k in st.users ==> UserConsistent(st.users[k], st.reserve.lastUpdateTimestamp)
  }

  predicate Enabled(st: State, a: Action) {
    && Sound(st)
    && a.user in st.users
    && var r, u := st.reserve, st.users[a.user];
       match a
       case Deposit(_, amount, at) => CanDeposit(r, amount, at) && amount <= u.walletBalance
       case Withdraw(_, amount, at) =>
         CanWithdraw(r, u, amount, at) && WithdrawnAmount(r, u, amount, at) <= LTokenBalance(r, u, at)
       case Borrow(_, amount, mode, at, seenAt) => CanBorrow(r, u, amount, at, seenAt)
       case Repay(_, amount, mode, ownRepay, at, seenAt) =>
         CanRepay(r, u, amount, mode, at) && at <= seenAt
         && (ownRepay ==> RepaidAmount(r, u, mode, amount, seenAt) <= u.walletBalance)
       case Swap(_, mode, at) => CanSwap(r, u, mode, at)
       case SetUseAsCollateral(_, _) => true
  }

  function StepReserve(s: Strategy, st: State, a: Action): ReserveData
    requires s.Valid() && Enabled(st, a)
  {
    var r, u := st.reserve, st.users[a.user];
    match a
    case Deposit(_, amount, at) => ReserveAfterDeposit(s, r, amount, at)
    case Withdraw(_, amount, at) => ReserveAfterWithdraw(s, r, u, amount, at)
    case Borrow(_, amount, mode, at, seenAt) => ReserveAfterBorrow(s, r, u, amount, mode, at, seenAt)
    case Repay(_, amount, mode, _, at, _) => ReserveAfterRepay(s, r, u, amount, mode, at)
    case Swap(_, mode, at) => ReserveAfterSwap(s, r, u, mode, at)
    case SetUseAsCollateral(_, _) => r
  }

  // ---------- every step moves the indexes on ----------

  /** Neither index and no date goes back. */
  predicate MovesOn(r: ReserveData, after: ReserveData) {
    && RAY <= r.liquidityIndex <= after.liquidityIndex
    && RAY <= r.variableBorrowIndex <= after.variableBorrowIndex
    && r.lastUpdateTimestamp <= after.lastUpdateTimestamp
  }

  /** The indexes each action leaves behind are the ones of the common accrual. */
  lemma StepIndexes(s: Strategy, st: State, a: Action)
    requires s.Valid() && Enabled(st, a) && !a.SetUseAsCollateral?
    ensures StepReserve(s, st, a).liquidityIndex == LiquidityIndex(st.reserve, a.at)
    ensures StepReserve(s, st, a).variableBorrowIndex == VariableBorrowIndex(st.reserve, a.at)
    ensures StepReserve(s, st, a).lastUpdateTimestamp == a.at
  {
    hide RayMul, RayDiv, LiquidityIndex, VariableBorrowIndex, TotalStableDebt, RatesAt, UtilizationRate,
         AverageStableBorrowRate, StableDebtTokenBalance, VariableDebtTokenBalance, PoolWithout, PoolCovers,
         WithdrawnAmount, RepaidAmount, LTokenBalance, NormalizedDebt, Consistent, UserConsistent;
  }

  /** What holds of the records before every enabled action that happens at a time. */
  lemma EnabledFacts(st: State, a: Action)
    requires Enabled(st, a) && !a.SetUseAsCollateral?
    ensures Consistent(st.reserve) && st.reserve.lastUpdateTimestamp <= a.at && a.user in st.users
    ensures UserConsistent(st.users[a.user], st.reserve.lastUpdateTimestamp)
  {
    hide Consistent, UserConsistent, StableBalance, VariableDebtTokenBalance, LTokenBalance, RepayDefined, SwapDefined,
         RepaidAmount, WithdrawnAmount;
  }

  lemma StepMovesOn(s: Strategy, st: State, a: Action)
    requires s.Valid() && Enabled(st, a)
    ensures MovesOn(st.reserve, StepReserve(s, st, a))
  {
    if a.SetUseAsCollateral? {
      assert StepReserve(s, st, a) == st.reserve;
    } else {
      hide StepReserve, LiquidityIndex, VariableBorrowIndex, Enabled;
      StepIndexes(s, st, a);
      EnabledFacts(st, a);
      IndexesGrow(st.reserve, a.at);
    }
  }

  // ---------- one step keeps the reserve consistent ----------

  /** What a step that keeps the reserve's scaled debt non-negative guarantees about the reserve. */
  predicate Advances(r: ReserveData, after: ReserveData) {
    Consistent(after) && MovesOn(r, after)
  }

  /** Scaled variable debt that an action takes off the reserve. */
  function ScaledTaken(st: State, a: Action): int
    requires Enabled(st, a)
  {
    var r, u := st.reserve, st.users[a.user];
    match a
    case Repay(_, amount, mode, _, at, _) =>
      if mode == Variable then RayDiv(RepaidAmount(r, u, mode, amount, at), VariableBorrowIndex(r, at)) else 0
    case Swap(_, mode, at) =>
      if mode == Variable then RayDiv(VariableDebtTokenBalance(r, u, at), VariableBorrowIndex(r, at)) else 0
    case _ => 0
  }

  /** Scaled variable debt that a repay takes off its user, whose record shows what was owed when it was looked at. */
  function ScaledPaid(st: State, a: Action): int
    requires Enabled(st, a)
  {
    if a.Repay? && a.mode == Variable then
      RayDiv(RepaidAmount(st.reserve, st.users[a.user], Variable, a.amount, a.seenAt), VariableBorrowIndex(st.reserve, a.at))
    else 0
  }

  /** The reserve records at least the scaled variable debt that the action takes off it. */
  predicate CoveredByReserve(st: State, a: Action)
    requires Enabled(st, a)
  {
    ScaledTaken(st, a) <= st.reserve.scaledVariableDebt
  }

  /** And so does the user. */
  predicate Covered(st: State, a: Action)
    requires Enabled(st, a)
  {
    CoveredByReserve(st, a) && ScaledPaid(st, a) <= st.users[a.user].scaledVariableDebt
  }

  lemma PricedIsConsistent(s: Strategy, r: ReserveData)
    requires s.Valid() && Utilizable(r)
    requires RAY <= r.liquidityIndex && RAY <= r.variableBorrowIndex
    requires 0 <= r.availableLiquidity && 0 <= r.averageStableBorrowRate && 0 <= r.marketStableRate
    requires 0 <= r.principalStableDebt <= r.totalStableDebt
    requires 0 <= r.scaledVariableDebt <= r.totalVariableDebt
    requires 0 <= r.totalLiquidity
    requires r.totalStableDebtLastUpdated <= r.lastUpdateTimestamp && 0 <= r.lastUpdateTimestamp
    ensures Consistent(Repriced(s, r))
  {
    hide UtilizationRate, RatesAt;
    RepricedFacts(s, r);
  }

  lemma DepositAdvances(s: Strategy, r: ReserveData, amount: int, t: int)
    requires s.Valid() && CanDeposit(r, amount, t)
    ensures Advances(r, ReserveAfterDeposit(s, r, amount, t))
  {
    hide RayMul, LiquidityIndex, VariableBorrowIndex, TotalStableDebt, RatesAt, UtilizationRate;
    AccrualFacts(r, t);
    DepositUtilizable(r, amount, t);
    PricedIsConsistent(s, Deposited(r, amount, t));
  }

  lemma WithdrawAdvances(s: Strategy, r: ReserveData, u: UserReserveData, amount: int, t: int)
    requires s.Valid() && CanWithdraw(r, u, amount, t)
    ensures Advances(r, ReserveAfterWithdraw(s, r, u, amount, t))
  {
    hide RayMul, LiquidityIndex, VariableBorrowIndex, TotalStableDebt, RatesAt, UtilizationRate, LTokenBalance;
    AccrualFacts(r, t);
    var taken := WithdrawnAmount(r, u, amount, t);
    WithdrawnFacts(r, taken, t);
    PricedIsConsistent(s, Balanced(Withdrawn(r, taken, t)));
  }

  lemma BorrowAdvances(s: Strategy, r: ReserveData, u: UserReserveData, amount: int, mode: RateMode, t: int, now: int)
    requires s.Valid() && CanBorrow(r, u, amount, t, now)
    ensures Advances(r, ReserveAfterBorrow(s, r, u, amount, mode, t, now))
  {
    hide RayMul, LiquidityIndex, VariableBorrowIndex, TotalStableDebt, RatesAt, UtilizationRate, ReserveAtBorrow,
         NormalizedDebt;
    var b := ReserveAtBorrow(s, r, u, amount, mode, t);
    DebtsSeenLater(s, r, u, amount, mode, t, now);
    BorrowSeenUtilizable(s, r, u, amount, mode, t, now);
    BorrowKeepsIndexes(s, r, u, amount, mode, t);
    var seen := Seen(b, now);
    UtilizationNonNegative(seen.totalStableDebt, seen.totalVariableDebt, seen.totalLiquidity);
    UnusedStaysUnused(b.totalStableDebt + b.totalVariableDebt, seen.totalStableDebt + seen.totalVariableDebt,
                      b.availableLiquidity);
    SeenUtilization(s, r, u, amount, mode, t, now);
  }

  lemma BorrowKeepsIndexes(s: Strategy, r: ReserveData, u: UserReserveData, amount: int, mode: RateMode, t: int)
    requires s.Valid() && CanBorrow(r, u, amount, t, t)
    ensures var b := ReserveAtBorrow(s, r, u, amount, mode, t);
      && r.liquidityIndex <= b.liquidityIndex && r.variableBorrowIndex <= b.variableBorrowIndex
      && b.lastUpdateTimestamp == t
      && b.totalLiquidity == b.availableLiquidity + b.totalStableDebt + b.totalVariableDebt
      && b.utilizationRate == UtilizationOf(b.totalStableDebt + b.totalVariableDebt, b.totalLiquidity)
  {
    hide RayMul, RayDiv, LiquidityIndex, VariableBorrowIndex, TotalStableDebt, StableDebtTokenBalance, RatesAt,
         AverageStableBorrowRate;
    AccrualFacts(r, t);
    match mode {
      case Stable => BorrowedStableFacts(r, amount, t);
      case Variable => BorrowedVariableFacts(r, amount, t);
    }
  }

  /** Utilization as a function of the summed debts. */
  function UtilizationOf(debts: int, liquidity: int): int {
    if debts == 0 || liquidity == 0 then 0 else RayDiv(debts, liquidity)
  }

  lemma UnusedStaysUnused(debts: int, more: int, available: int)
    requires 0 <= debts <= more && 0 <= available
    ensures UtilizationOf(more, available + more) == 0 ==> UtilizationOf(debts, available + debts) == 0
  {
    hide RayDiv;
    if debts > 0 {
      UtilizationMonotone(debts, more, available);
    }
  }

  lemma SeenUtilization(s: Strategy, r: ReserveData, u: UserReserveData, amount: int, mode: RateMode, t: int, now: int)
    requires s.Valid() && CanBorrow(r, u, amount, t, now)
    ensures var seen := Seen(ReserveAtBorrow(s, r, u, amount, mode, t), now);
      Utilizable(seen)
      && Utilized(seen).utilizationRate == UtilizationOf(seen.totalStableDebt + seen.totalVariableDebt, seen.totalLiquidity)
  {
    hide ReserveAtBorrow, Seen, RayDiv;
    DebtsSeenLater(s, r, u, amount, mode, t, now);
    BorrowSeenUtilizable(s, r, u, amount, mode, t, now);
  }

  lemma RepayAdvances(s: Strategy, st: State, a: Action)
    requires s.Valid() && Enabled(st, a) && a.Repay? && CoveredByReserve(st, a)
    ensures Consistent(StepReserve(s, st, a))
  {
    hide RayMul, RayDiv, LiquidityIndex, VariableBorrowIndex, TotalStableDebt, RatesAt, UtilizationRate, PoolWithout,
         StableBalance, VariableDebtTokenBalance, RepaidAmount;
    var r, u := st.reserve, st.users[a.user];
    AccrualFacts(r, a.at);
    var repaid := RepaidAmount(r, u, a.mode, a.amount, a.at);
    match a.mode {
      case Stable =>
        RepaidStableFacts(r, repaid, u.stableBorrowRate, a.at);
        PricedIsConsistent(s, Balanced(RepaidStable(r, repaid, u.stableBorrowRate, a.at)));
      case Variable =>
        RepaidVariableFacts(r, repaid, a.at);
        PricedIsConsistent(s, Balanced(RepaidVariable(r, repaid, a.at)));
    }
  }

  lemma SwapAdvances(s: Strategy, st: State, a: Action)
    requires s.Valid() && Enabled(st, a) && a.Swap? && CoveredByReserve(st, a)
    ensures Consistent(StepReserve(s, st, a))
  {
    hide RayMul, RayDiv, LiquidityIndex, VariableBorrowIndex, TotalStableDebt, RatesAt, UtilizationRate,
         AverageStableBorrowRate, StableBalance, VariableDebtTokenBalance, PoolCovers;
    var r, u := st.reserve, st.users[a.user];
    AccrualFacts(r, a.at);
    match a.mode {
      case Stable =>
        SwappedToVariableFacts(r, u, a.at);
        PricedIsConsistent(s, Balanced(SwappedToVariable(r, StableBalance(u, a.at), u.stableBorrowRate, a.at)));
      case Variable =>
        var debt := VariableDebtTokenBalance(r, u, a.at);
        SwappedToStableFacts(r, debt, a.at);
        PricedIsConsistent(s, Balanced(SwappedToStable(r, debt, a.at)));
    }
  }

  /** An action keeps the reserve consistent if it takes off no more scaled debt than is recorded. */
  lemma StepAdvances(s: Strategy, st: State, a: Action)
    requires s.Valid() && Enabled(st, a) && CoveredByReserve(st, a)
    ensures Advances(st.reserve, StepReserve(s, st, a))
  {
    hide ReserveAfterDeposit, ReserveAfterWithdraw, ReserveAfterBorrow, ReserveAfterRepay, ReserveAfterSwap,
         CanDeposit, CanWithdraw, CanBorrow, CanRepay, CanSwap, LTokenBalance, CoveredByReserve;
    var r, u := st.reserve, st.users[a.user];
    StepMovesOn(s, st, a);
    match a {
      case Deposit(_, amount, at) => DepositAdvances(s, r, amount, at);
      case Withdraw(_, amount, at) => WithdrawAdvances(s, r, u, amount, at);
      case Borrow(_, amount, mode, at, seenAt) => BorrowAdvances(s, r, u, amount, mode, at, seenAt);
      case Repay(_, _, _, _, _, _) => RepayAdvances(s, st, a);
      case Swap(_, _, _) => SwapAdvances(s, st, a);
      case SetUseAsCollateral(_, _) =>
    }
  }

  // ---------- one step of the whole state ----------

  function StepUser(s: Strategy, st: State, a: Action): UserReserveData
    requires s.Valid() && Enabled(st, a)
  {
    StepMovesOn(s, st, a);
    StepDefined(st, a);
    var r, after, u := st.reserve, StepReserve(s, st, a), st.users[a.user];
    match a
    case Deposit(_, amount, at) => U.UserAfterDeposit(r, after, u, amount, at)
    case Withdraw(_, amount, at) => U.UserAfterWithdraw(r, after, u, amount, at)
    case Borrow(_, amount, mode, at, seenAt) => U.UserAfterBorrow(r, after, u, amount, mode, at, seenAt)
    case Repay(_, amount, mode, ownRepay, at, seenAt) => U.UserAfterRepay(r, after, u, amount, mode, ownRepay, at, seenAt)
    case Swap(_, mode, at) => U.UserAfterSwap(r, after, u, mode, at)
    case SetUseAsCollateral(_, useAsCollateral) => U.UserAfterSetUseAsCollateral(u, useAsCollateral)
  }

  /** The weighted averages of a user's stable rate never divide by zero. */
  lemma StepDefined(st: State, a: Action)
    requires Enabled(st, a)
    ensures a.Borrow? && a.mode == Stable ==> StableBalance(st.users[a.user], a.at) + a.amount > 0
    ensures a.Swap? && a.mode == Variable ==>
      StableBalance(st.users[a.user], a.at) + VariableDebtTokenBalance(st.reserve, st.users[a.user], a.at) > 0
  {
    hide StableDebtTokenBalance, VariableDebtTokenBalance;
    var u := st.users[a.user];
    if a.Borrow? || a.Swap? {
      StableBalanceGrows(u.principalStableDebt, u.stableBorrowRate, u.stableRateLastUpdated, a.at);
    }
  }

  function Step(s: Strategy, st: State, a: Action): State
    requires s.Valid() && Enabled(st, a)
  {
    State(StepReserve(s, st, a), st.users[a.user := StepUser(s, st, a)])
  }

  // ---------- users stay consistent ----------

  lemma UserBalances(r: ReserveData, u: UserReserveData, t: int)
    requires Consistent(r) && r.lastUpdateTimestamp <= t && UserConsistent(u, r.lastUpdateTimestamp)
    ensures 0 <= u.principalStableDebt <= StableBalance(u, t)
    ensures 0 <= u.scaledVariableDebt <= VariableDebtTokenBalance(r, u, t)
    ensures 0 <= u.scaledLTokenBalance <= LTokenBalance(r, u, t)
  {
    hide RayMul, StableDebtTokenBalance, NormalizedIncome, NormalizedDebt;
    StableBalanceGrows(u.principalStableDebt, u.stableBorrowRate, u.stableRateLastUpdated, t);
    IndexesGrow(r, t);
    RayMulGrows(u.scaledVariableDebt, NormalizedDebt(r.variableBorrowRate, r.variableBorrowIndex, r.lastUpdateTimestamp, t));
    RayMulGrows(u.scaledLTokenBalance, NormalizedIncome(r, t));
  }

  /** In a consistent reserve the viewed income always is the index that an update stores. */
  lemma IncomeViewIsIndex(r: ReserveData, t: int)
    requires Consistent(r) && r.lastUpdateTimestamp <= t
    ensures NormalizedIncome(r, t) == LiquidityIndex(r, t)
  {
    hide RayMul, LinearInterest;
    ZeroRateFactors(t, r.lastUpdateTimestamp);
    RayMulByRay(r.liquidityIndex);
  }

  lemma WithdrawCover(r: ReserveData, u: UserReserveData, taken: int, t: int)
    requires Consistent(r) && r.lastUpdateTimestamp <= t && 0 <= u.scaledLTokenBalance
    requires 0 <= taken <= LTokenBalance(r, u, t)
    ensures LiquidityIndex(r, t) >= RAY
    ensures 0 <= RayDiv(taken, LiquidityIndex(r, t)) <= u.scaledLTokenBalance
    ensures taken == LTokenBalance(r, u, t) ==> RayDiv(taken, LiquidityIndex(r, t)) == u.scaledLTokenBalance
  {
    hide RayMul, RayDiv, LiquidityIndex, NormalizedIncome;
    IndexesGrow(r, t);
    IncomeViewIsIndex(r, t);
    ScaledCover(taken, u.scaledLTokenBalance, LiquidityIndex(r, t));
    ScalingRoundTrip(u.scaledLTokenBalance, LiquidityIndex(r, t));
  }

  lemma UserRateNonNegative(balance: int, rate: int, amount: int, newRate: int)
    requires balance >= 0 && rate >= 0 && amount >= 0 && newRate >= 0 && balance + amount > 0
    ensures 0 <= UserStableRate(balance, rate, amount, newRate)
  {
    hide TruncDiv;
    assert balance * rate >= 0 && amount * newRate >= 0;
    QuotientBounds(balance * rate + amount * newRate, balance + amount);
  }

  lemma StepIndexesAtLeastRay(s: Strategy, st: State, a: Action)
    requires s.Valid() && Enabled(st, a)
    ensures RAY <= StepReserve(s, st, a).liquidityIndex && RAY <= StepReserve(s, st, a).variableBorrowIndex
  {
    hide StepReserve;
    StepMovesOn(s, st, a);
  }

  lemma DepositKeepsUser(s: Strategy, st: State, a: Action)
    requires s.Valid() && Enabled(st, a) && a.Deposit?
    ensures UserConsistent(StepUser(s, st, a), a.at)
  {
    hide RayMul, RayDiv, LiquidityIndex, VariableBorrowIndex, StableDebtTokenBalance, VariableDebtTokenBalance,
         LTokenBalance, StepReserve, Consistent;
    StepIndexesAtLeastRay(s, st, a);
    UserBalances(st.reserve, st.users[a.user], a.at);
    ScaledDeposit(a.amount, StepReserve(s, st, a).liquidityIndex);
  }

  lemma WithdrawKeepsUser(s: Strategy, st: State, a: Action)
    requires s.Valid() && Enabled(st, a) && a.Withdraw?
    ensures UserConsistent(StepUser(s, st, a), a.at)
  {
    hide RayMul, RayDiv, LiquidityIndex, VariableBorrowIndex, StableDebtTokenBalance, VariableDebtTokenBalance,
         LTokenBalance, StepReserve, Consistent, WithdrawnAmount;
    var r, u := st.reserve, st.users[a.user];
    StepIndexes(s, st, a);
    StepIndexesAtLeastRay(s, st, a);
    UserBalances(r, u, a.at);
    WithdrawCover(r, u, WithdrawnAmount(r, u, a.amount, a.at), a.at);
    ScaledDeposit(0, StepReserve(s, st, a).liquidityIndex);
  }

  lemma BorrowKeepsUser(s: Strategy, st: State, a: Action)
    requires s.Valid() && Enabled(st, a) && a.Borrow?
    ensures UserConsistent(StepUser(s, st, a), a.at)
  {
    hide RayMul, RayDiv, LiquidityIndex, VariableBorrowIndex, StableDebtTokenBalance, NormalizedIncome, NormalizedDebt,
         StepReserve, UserStableRate;
    var r, u := st.reserve, st.users[a.user];
    StepDefined(st, a);
    StepIndexesAtLeastRay(s, st, a);
    UserBalances(r, u, a.at);
    if a.mode == Stable {
      UserRateNonNegative(StableBalance(u, a.at), u.stableBorrowRate, a.amount, r.stableBorrowRate);
      StableBalanceGrows(StableBalance(u, a.at) + a.amount,
                         UserStableRate(StableBalance(u, a.at), u.stableBorrowRate, a.amount, r.stableBorrowRate),
                         a.at, a.seenAt);
    } else {
      ScaledDeposit(a.amount, StepReserve(s, st, a).variableBorrowIndex);
      StableBalanceGrows(u.principalStableDebt, u.stableBorrowRate, u.stableRateLastUpdated, a.seenAt);
    }
    BorrowViews(s, st, a, StepUser(s, st, a).scaledVariableDebt);
  }

  /** What a borrower sees of the reserve afterwards is not negative. */
  lemma BorrowViews(s: Strategy, st: State, a: Action, scaled: int)
    requires s.Valid() && Enabled(st, a) && a.Borrow? && 0 <= scaled
    ensures var after := StepReserve(s, st, a);
      0 <= NormalizedIncome(after, a.seenAt)
      && 0 <= RayMul(st.users[a.user].scaledLTokenBalance, NormalizedIncome(after, a.seenAt))
      && 0 <= RayMul(scaled, NormalizedDebt(after.variableBorrowRate, after.variableBorrowIndex, after.lastUpdateTimestamp, a.seenAt))
  {
    hide RayMul, NormalizedIncome, NormalizedDebt, StepReserve, ReserveAfterBorrow;
    var after := StepReserve(s, st, a);
    assert after == ReserveAfterBorrow(s, st.reserve, st.users[a.user], a.amount, a.mode, a.at, a.seenAt) by {
      BorrowStep(s, st, a);
    }
    BorrowAdvances(s, st.reserve, st.users[a.user], a.amount, a.mode, a.at, a.seenAt);
    StepIndexes(s, st, a);
    IndexesGrow(after, a.seenAt);
    RayMulGrows(st.users[a.user].scaledLTokenBalance, NormalizedIncome(after, a.seenAt));
    RayMulGrows(scaled, NormalizedDebt(after.variableBorrowRate, after.variableBorrowIndex, after.lastUpdateTimestamp, a.seenAt));
  }

  lemma BorrowStep(s: Strategy, st: State, a: Action)
    requires s.Valid() && Enabled(st, a) && a.Borrow?
    ensures StepReserve(s, st, a)
      == ReserveAfterBorrow(s, st.reserve, st.users[a.user], a.amount, a.mode, a.at, a.seenAt)
  {
    hide ReserveAfterBorrow;
  }

  lemma RepayKeepsUser(s: Strategy, st: State, a: Action)
    requires s.Valid() && Enabled(st, a) && a.Repay? && Covered(st, a)
    ensures UserConsistent(StepUser(s, st, a), a.at)
  {
    hide RayMul, RayDiv, LiquidityIndex, VariableBorrowIndex, StableDebtTokenBalance, VariableDebtTokenBalance,
         LTokenBalance, StepReserve, RepaidAmount;
    var r, u := st.reserve, st.users[a.user];
    StepIndexes(s, st, a);
    StepIndexesAtLeastRay(s, st, a);
    UserBalances(r, u, a.at);
    UserBalances(r, u, a.seenAt);
    RepaidWithinDebt(st, a);
    if a.mode == Variable {
      ScaledGrows(StepUser(s, st, a).scaledVariableDebt, VariableBorrowIndex(r, a.at));
    }
  }

  /** Whenever a repay is looked at, what the user's record shows as repaid is within the debt it shows. */
  lemma RepaidWithinDebt(st: State, a: Action)
    requires Enabled(st, a) && a.Repay?
    ensures var r, u := st.reserve, st.users[a.user];
      0 <= RepaidAmount(r, u, a.mode, a.amount, a.seenAt) <= DebtInMode(r, u, a.mode, a.seenAt)
  {
    hide RayMul, StableDebtTokenBalance, VariableDebtTokenBalance, RepayDefined, UserConsistent, Consistent;
    EnabledFacts(st, a);
    UserBalances(st.reserve, st.users[a.user], a.seenAt);
    DebtsGrow(st.reserve, st.users[a.user], a.at, a.seenAt);
  }

  lemma DebtsGrow(r: ReserveData, u: UserReserveData, t: int, now: int)
    requires Consistent(r) && r.lastUpdateTimestamp <= t <= now && UserConsistent(u, r.lastUpdateTimestamp)
    ensures StableBalance(u, t) <= StableBalance(u, now)
    ensures VariableDebtTokenBalance(r, u, t) <= VariableDebtTokenBalance(r, u, now)
  {
    hide RayMul, NormalizedDebt;
    StableBalanceMonotone(u.principalStableDebt, u.stableBorrowRate, u.stableRateLastUpdated, t, now);
    ViewsGrow(r, t, now);
    IndexesGrow(r, t);
    RayMulMonotone(u.scaledVariableDebt, NormalizedDebt(r.variableBorrowRate, r.variableBorrowIndex, r.lastUpdateTimestamp, t),
                   u.scaledVariableDebt, NormalizedDebt(r.variableBorrowRate, r.variableBorrowIndex, r.lastUpdateTimestamp, now));
  }

  lemma SwapKeepsUser(s: Strategy, st: State, a: Action)
    requires s.Valid() && Enabled(st, a) && a.Swap?
    ensures UserConsistent(StepUser(s, st, a), a.at)
  {
    hide RayMul, RayDiv, LiquidityIndex, VariableBorrowIndex, StableDebtTokenBalance, VariableDebtTokenBalance,
         LTokenBalance, StepReserve, UserStableRate, PoolCovers;
    var r, u := st.reserve, st.users[a.user];
    StepDefined(st, a);
    StepIndexesAtLeastRay(s, st, a);
    UserBalances(r, u, a.at);
    if a.mode == Stable {
      ScaledDeposit(StableBalance(u, a.at), StepReserve(s, st, a).variableBorrowIndex);
      ScaledGrows(StepUser(s, st, a).scaledVariableDebt, StepReserve(s, st, a).variableBorrowIndex);
    } else {
      UserRateNonNegative(StableBalance(u, a.at), u.stableBorrowRate, VariableDebtTokenBalance(r, u, a.at), r.stableBorrowRate);
    }
  }

  lemma ScaledDeposit(amount: int, index: int)
    requires amount >= 0 && index >= RAY
    ensures 0 <= RayDiv(amount, index) && RayDiv(0, index) == 0
  {
    hide RayDiv;
    RayDivBounds(amount, index);
    RayDivZero(index);
  }

  lemma StepUserConsistent(s: Strategy, st: State, a: Action)
    requires s.Valid() && Enabled(st, a) && Covered(st, a)
    ensures UserConsistent(StepUser(s, st, a), StepReserve(s, st, a).lastUpdateTimestamp)
  {
    hide StepUser, StepReserve, CanDeposit, CanWithdraw, CanBorrow, CanRepay, CanSwap, Covered, RepaidAmount;
    match a {
      case Deposit(_, _, _) => DepositKeepsUser(s, st, a); StepIndexes(s, st, a);
      case Withdraw(_, _, _) => WithdrawKeepsUser(s, st, a); StepIndexes(s, st, a);
      case Borrow(_, _, _, _, _) => BorrowKeepsUser(s, st, a); StepIndexes(s, st, a);
      case Repay(_, _, _, _, _, _) => RepayKeepsUser(s, st, a); StepIndexes(s, st, a);
      case Swap(_, _, _) => SwapKeepsUser(s, st, a); StepIndexes(s, st, a);
      case SetUseAsCollateral(_, _) => CollateralKeepsUser(s, st, a);
    }
  }

  lemma CollateralKeepsUser(s: Strategy, st: State, a: Action)
    requires s.Valid() && Enabled(st, a) && a.SetUseAsCollateral?
    ensures UserConsistent(StepUser(s, st, a), StepReserve(s, st, a).lastUpdateTimestamp)
  {
  }

  /**
    An enabled action keeps the whole state sound if and only if the reserve and the user have at
    least the scaled variable debt that the action takes off each of them.
   */
  lemma StepSoundIff(s: Strategy, st: State, a: Action)
    requires s.Valid() && Enabled(st, a)
    ensures Sound(Step(s, st, a)) <==> Covered(st, a)
  {
    hide StepUser, StepReserve, Enabled, Covered;
    SoundUsers(st, a);
    if Covered(st, a) {
      CoveredBoth(st, a);
      StepAdvances(s, st, a);
      StepUserConsistent(s, st, a);
    } else {
      UncoveredShows(s, st, a);
      NegativeIsUnsound(Step(s, st, a), a.user);
    }
  }

  lemma SoundUsers(st: State, a: Action)
    requires Enabled(st, a)
    ensures Sound(st) && a.user in st.users
  {
    hide Sound;
  }

  /** Only variable repays and swaps to stable take anything off. */
  lemma OthersAreCovered(st: State, a: Action)
    requires Enabled(st, a) && ((a.Repay? || a.Swap?) ==> a.mode == Stable)
    ensures Covered(st, a)
  {
    hide StableBalance, VariableDebtTokenBalance, LTokenBalance, RepaidAmount, WithdrawnAmount, PoolCovers;
  }

  lemma NegativeIsUnsound(st: State, user: string)
    requires user in st.users
    requires st.reserve.scaledVariableDebt < 0 || st.users[user].scaledVariableDebt < 0
    ensures !Sound(st)
  {
  }

  lemma CoveredBoth(st: State, a: Action)
    requires Enabled(st, a) && Covered(st, a)
    ensures CoveredByReserve(st, a)
  {
    hide Enabled, CoveredByReserve;
  }

  lemma UncoveredShows(s: Strategy, st: State, a: Action)
    requires s.Valid() && Enabled(st, a) && !Covered(st, a)
    ensures StepReserve(s, st, a).scaledVariableDebt < 0 || StepUser(s, st, a).scaledVariableDebt < 0
  {
    hide StepReserve, StepUser, RayDiv, VariableBorrowIndex, VariableDebtTokenBalance, RepaidAmount, CanDeposit, CanWithdraw,
         CanBorrow, PoolCovers, StableBalance;
    assert !a.SetUseAsCollateral?;
    ReserveDebtChange(s, st, a);
    UserDebtChange(s, st, a);
  }

  // ---------- runs ----------

  /** The actions can be taken one after the other. */
  ghost predicate Runnable(s: Strategy, st: State, actions: seq<Action>)
    requires s.Valid()
    decreases |actions|
  {
    actions == [] || (Enabled(st, actions[0]) && Runnable(s, Step(s, st, actions[0]), actions[1..]))
  }

  ghost function Run(s: Strategy, st: State, actions: seq<Action>): State
    requires s.Valid() && Runnable(s, st, actions)
    decreases |actions|
  {
    if actions == [] then st else Run(s, Step(s, st, actions[0]), actions[1..])
  }

  /** Along every run both indexes stay at least one ray and never decrease. */
  lemma {:induction false} RunMovesOn(s: Strategy, st: State, actions: seq<Action>)
    requires s.Valid() && Sound(st) && Runnable(s, st, actions)
    ensures MovesOn(st.reserve, Run(s, st, actions).reserve)
    decreases |actions|
  {
    hide StepUser, StepReserve, Enabled, UserConsistent;
    if |actions| == 1 {
      StepMovesOn(s, st, actions[0]);
      assert Run(s, Step(s, st, actions[0]), actions[1..]) == Step(s, st, actions[0]);
    } else if actions != [] {
      var next := Step(s, st, actions[0]);
      StepMovesOn(s, st, actions[0]);
      SoundUsers(next, actions[1..][0]);
      RunMovesOn(s, next, actions[1..]);
    }
  }

  /** A run that is not empty is its last step, taken from some state. */
  lemma {:induction false} LastStep(s: Strategy, st: State, actions: seq<Action>) returns (before: State)
    requires s.Valid() && Runnable(s, st, actions) && actions != []
    ensures Enabled(before, actions[|actions| - 1])
    ensures Run(s, st, actions) == Step(s, before, actions[|actions| - 1])
    decreases |actions|
  {
    hide Enabled, StepReserve, StepUser;
    var next := Step(s, st, actions[0]);
    if |actions| == 1 {
      before := st;
      assert Run(s, next, actions[1..]) == next;
    } else {
      before := LastStep(s, next, actions[1..]);
    }
  }

  // ---------- conservation of scaled variable debt ----------

  /** The reserve's scaled variable debt is the sum of the users' scaled variable debts. */
  ghost predicate DebtMatches(st: State) {
    SumOf(st.users, ScaledDebtOf) == st.reserve.scaledVariableDebt
  }

  /** A variable borrower owes all variable debt of the reserve at the moment of the borrow. */
  predicate SoleVariableBorrower(st: State, a: Action)
    requires a.user in st.users
  {
    a.Borrow? && a.mode == Variable ==> st.users[a.user].scaledVariableDebt == st.reserve.scaledVariableDebt
  }

  /** Besides, a variable repay takes the same scaled debt off its user and the reserve. */
  predicate KeepsDebts(st: State, a: Action)
    requires Enabled(st, a)
  {
    SoleVariableBorrower(st, a) && (a.Repay? && a.mode == Variable ==> ScaledPaid(st, a) == ScaledTaken(st, a))
  }

  /** A repay of everything is looked at right away; a repay of a given amount may be looked at later. */
  predicate Prompt(a: Action) {
    a.Repay? && Abs(a.amount) == MAX_UINT_AMOUNT ==> a.seenAt == a.at
  }

  lemma PromptRepaysSame(st: State, a: Action)
    requires Enabled(st, a) && Prompt(a) && a.Repay?
    ensures RepaidAmount(st.reserve, st.users[a.user], a.mode, a.amount, a.seenAt)
      == RepaidAmount(st.reserve, st.users[a.user], a.mode, a.amount, a.at)
    ensures ScaledPaid(st, a) == ScaledTaken(st, a) || a.mode == Stable
  {
    hide DebtInMode, RayDiv, Consistent, UserConsistent, VariableBorrowIndex, RepayDefined;
  }

  /** By how much an action changes the scaled variable debt of the reserve and of its user. */
  lemma ReserveDebtChange(s: Strategy, st: State, a: Action)
    requires s.Valid() && Enabled(st, a) && !a.SetUseAsCollateral?
    ensures var r, u, index := st.reserve, st.users[a.user], VariableBorrowIndex(st.reserve, a.at);
      RAY <= index
      && StepReserve(s, st, a).scaledVariableDebt == r.scaledVariableDebt +
         match a
         case Deposit(_, _, _) => 0
         case Withdraw(_, _, _) => 0
         case Borrow(_, amount, mode, _, _) => if mode == Variable then RayDiv(amount, index) else 0
         case Repay(_, amount, mode, _, at, _) =>
           if mode == Variable then -RayDiv(RepaidAmount(r, u, mode, amount, at), index) else 0
         case Swap(_, mode, at) =>
           if mode == Stable then RayDiv(StableBalance(u, at), index)
           else -RayDiv(VariableDebtTokenBalance(r, u, at), index)
  {
    hide RayMul, RayDiv, LiquidityIndex, VariableBorrowIndex, TotalStableDebt, RatesAt, UtilizationRate,
         AverageStableBorrowRate, StableDebtTokenBalance, VariableDebtTokenBalance, PoolWithout, PoolCovers,
         WithdrawnAmount, RepaidAmount, LTokenBalance, NormalizedDebt, Consistent, UserConsistent;
    StepIndexes(s, st, a);
    StepIndexesAtLeastRay(s, st, a);
  }

  lemma UserDebtChange(s: Strategy, st: State, a: Action)
    requires s.Valid() && Enabled(st, a) && !a.SetUseAsCollateral?
    ensures var r, u, index := st.reserve, st.users[a.user], VariableBorrowIndex(st.reserve, a.at);
      RAY <= index
      && StepUser(s, st, a).scaledVariableDebt ==
         match a
         case Deposit(_, _, _) => u.scaledVariableDebt
         case Withdraw(_, _, _) => u.scaledVariableDebt
         case Borrow(_, amount, mode, _, _) =>
           if mode == Variable then r.scaledVariableDebt + RayDiv(amount, index) else u.scaledVariableDebt
         case Repay(_, amount, mode, _, _, seenAt) =>
           if mode == Variable then u.scaledVariableDebt - RayDiv(RepaidAmount(r, u, mode, amount, seenAt), index)
           else u.scaledVariableDebt
         case Swap(_, mode, at) =>
           if mode == Stable then u.scaledVariableDebt + RayDiv(StableBalance(u, at), index) else 0
  {
    hide RayMul, RayDiv, LiquidityIndex, VariableBorrowIndex, StableDebtTokenBalance, VariableDebtTokenBalance,
         RepaidAmount, LTokenBalance, NormalizedDebt, NormalizedIncome, Consistent, UserConsistent, StepReserve,
         UserStableRate;
    StepIndexes(s, st, a);
    StepIndexesAtLeastRay(s, st, a);
  }

  /**
    An action keeps the reserve's scaled variable debt equal to the sum over its users if and only if a
    variable borrower already owed all variable debt, and a variable repay takes the same scaled debt
    off its user and the reserve.
   */
  lemma StepConservesDebtIff(s: Strategy, st: State, a: Action)
    requires s.Valid() && Enabled(st, a) && DebtMatches(st)
    ensures DebtMatches(Step(s, st, a)) <==> KeepsDebts(st, a)
  {
    hide RayDiv, VariableBorrowIndex, StableBalance, RepaidAmount, StepReserve, StepUser, Enabled, VariableDebtTokenBalance;
    SoundUsers(st, a);
    SumUpdate(st.users, ScaledDebtOf, a.user, StepUser(s, st, a));
    if a.SetUseAsCollateral? {
      CollateralMovesNothing(s, st, a);
    } else {
      ReserveDebtChange(s, st, a);
      UserDebtChange(s, st, a);
      if a.Swap? && a.mode == Variable {
        SwapTakesWholeDebt(st, a);
      }
    }
  }

  /** While the debts match, a swap to stable takes exactly the user's scaled debt off the reserve. */
  lemma SwapTakesWholeDebt(st: State, a: Action)
    requires Enabled(st, a) && a.Swap? && a.mode == Variable && DebtMatches(st)
    ensures VariableBorrowIndex(st.reserve, a.at) >= RAY
    ensures RayDiv(VariableDebtTokenBalance(st.reserve, st.users[a.user], a.at), VariableBorrowIndex(st.reserve, a.at))
      == st.users[a.user].scaledVariableDebt
  {
    hide RayDiv, VariableBorrowIndex, VariableDebtTokenBalance, DebtMatches, Enabled;
    EnabledFacts(st, a);
    SoundUsers(st, a);
    MatchingDebtCoversUser(st, a.user);
    FullDebtTakesAtLeast(st.reserve, st.users[a.user], a.at, a.at);
    VariableDebtCover(st.reserve, st.users[a.user], VariableDebtTokenBalance(st.reserve, st.users[a.user], a.at), a.at);
  }

  lemma CollateralMovesNothing(s: Strategy, st: State, a: Action)
    requires s.Valid() && Enabled(st, a) && a.SetUseAsCollateral?
    ensures StepReserve(s, st, a) == st.reserve
    ensures StepUser(s, st, a).scaledVariableDebt == st.users[a.user].scaledVariableDebt
    ensures StepUser(s, st, a).walletBalance == st.users[a.user].walletBalance
  {
  }

  /** While the debts match, no user's scaled debt exceeds the reserve's, as a repay or a swap to stable needs. */
  lemma MatchingDebtCoversUser(st: State, user: string)
    requires Sound(st) && DebtMatches(st) && user in st.users
    ensures st.users[user].scaledVariableDebt <= st.reserve.scaledVariableDebt
  {
    hide Consistent;
    MemberAtMostSum(st.users, ScaledDebtOf, user);
  }

  /** Along the run, every action keeps the debts. */
  ghost predicate DebtKeepingRun(s: Strategy, st: State, actions: seq<Action>)
    requires s.Valid() && Runnable(s, st, actions)
    decreases |actions|
  {
    actions == [] || (KeepsDebts(st, actions[0]) && DebtKeepingRun(s, Step(s, st, actions[0]), actions[1..]))
  }

  /** Scaled variable debt is conserved between the reserve and its users along every such run. */
  lemma {:induction false} RunConservesDebt(s: Strategy, st: State, actions: seq<Action>)
    requires s.Valid() && Runnable(s, st, actions) && DebtMatches(st)
    requires DebtKeepingRun(s, st, actions)
    ensures DebtMatches(Run(s, st, actions))
    decreases |actions|
  {
    hide StepReserve, StepUser, Enabled, DebtMatches;
    if actions != [] {
      StepConservesDebtIff(s, st, actions[0]);
      RunConservesDebt(s, Step(s, st, actions[0]), actions[1..]);
    }
  }

  // ---------- what the guards alone guarantee ----------

  /**
    What the callers see to: nobody pays or takes more than there is, repays more than they owe, or
    swaps a debt they do not have; a swap out of the stable pool is covered by it; time moves on.
   */
  predicate Requested(st: State, a: Action) {
    && a.user in st.users
    && var r, u := st.reserve, st.users[a.user];
       match a
       case Deposit(_, amount, at) => r.lastUpdateTimestamp <= at && 0 <= amount <= u.walletBalance
       case Withdraw(_, amount, at) =>
         var taken := WithdrawnAmount(r, u, amount, at);
         r.lastUpdateTimestamp <= at && 0 <= taken <= r.availableLiquidity && taken <= LTokenBalance(r, u, at)
       case Borrow(_, amount, _, at, seenAt) => r.lastUpdateTimestamp <= at <= seenAt && 0 < amount <= r.availableLiquidity
       case Repay(_, amount, mode, ownRepay, at, seenAt) =>
         && r.lastUpdateTimestamp <= at <= seenAt
         && 0 <= RepaidAmount(r, u, mode, amount, at) <= DebtInMode(r, u, mode, at)
         && (ownRepay ==> RepaidAmount(r, u, mode, amount, seenAt) <= u.walletBalance)
       case Swap(_, mode, at) =>
         r.lastUpdateTimestamp <= at && 0 < DebtInMode(r, u, mode, at) && (mode == Stable ==> PoolCovers(r, u, at))
       case SetUseAsCollateral(_, _) => true
  }

  /** Nothing divides by zero and nothing turns negative when a requested action is taken while the debts match. */
  lemma RequestedIsCovered(st: State, a: Action)
    requires Sound(st) && DebtMatches(st) && Requested(st, a) && Prompt(a)
    ensures Enabled(st, a) && Covered(st, a)
  {
    hide RayMul, RayDiv, LiquidityIndex, VariableBorrowIndex, TotalStableDebt, StableBalance, VariableDebtTokenBalance,
         LTokenBalance, WithdrawnAmount, PoolCovers, DebtMatches, RepayDefined, SwapDefined, RepaidAmount, Consistent;
    if (a.Repay? || a.Swap?) && a.mode == Variable {
      MatchingDebtCoversUser(st, a.user);
      RequestedDebtIsCovered(st.reserve, st.users[a.user], a.at,
        if a.Repay? then RepaidAmount(st.reserve, st.users[a.user], Variable, a.amount, a.at)
        else VariableDebtTokenBalance(st.reserve, st.users[a.user], a.at));
      if a.Repay? {
        PromptRepaysSame(st, a);
      }
    } else {
      SoundFacts(st);
    }
  }

  lemma SoundFacts(st: State)
    requires Sound(st)
    ensures 0 <= st.reserve.scaledVariableDebt
  {
    hide UserConsistent;
  }

  lemma RequestedDebtIsCovered(r: ReserveData, u: UserReserveData, t: int, amount: int)
    requires Consistent(r) && r.lastUpdateTimestamp <= t && UserConsistent(u, r.lastUpdateTimestamp)
    requires u.scaledVariableDebt <= r.scaledVariableDebt && 0 <= amount <= VariableDebtTokenBalance(r, u, t)
    ensures VariableBorrowIndex(r, t) >= RAY
    ensures RayDiv(amount, VariableBorrowIndex(r, t)) <= u.scaledVariableDebt <= r.scaledVariableDebt
    ensures RepayDefined(r, amount, t) && (amount > 0 ==> SwapDefined(r, amount, t))
  {
    hide RayDiv, VariableBorrowIndex, VariableDebtTokenBalance, RepayDefined, SwapDefined;
    VariableDebtCover(r, u, amount, t);
    RepaidVariableFacts(r, amount, t);
    if amount > 0 {
      SwappedToStableFacts(r, amount, t);
    }
  }

  /**
    Every action of the run is requested in the state it meets, every variable borrower is a sole one,
    and a repay of everything is looked at right away.
   */
  ghost predicate Admitted(s: Strategy, st: State, actions: seq<Action>)
    requires s.Valid()
    decreases |actions|
  {
    actions == []
    || (&& Requested(st, actions[0]) && SoleVariableBorrower(st, actions[0]) && Prompt(actions[0])
        && (Enabled(st, actions[0]) ==> Admitted(s, Step(s, st, actions[0]), actions[1..])))
  }

  /**
    From a sound state whose debts match, every run of requested actions can be taken to its end, and
    in the end no total, balance, wallet or rate is negative, the debts still match, and neither index
    has decreased.  Of a repay it is only assumed that it is within the debt.
   */
  lemma {:induction false} RunSound(s: Strategy, st: State, actions: seq<Action>)
    requires s.Valid() && Sound(st) && DebtMatches(st) && Admitted(s, st, actions)
    ensures Runnable(s, st, actions)
    ensures Sound(Run(s, st, actions)) && DebtMatches(Run(s, st, actions))
    ensures MovesOn(st.reserve, Run(s, st, actions).reserve)
    decreases |actions|
  {
    hide StepReserve, StepUser, Enabled, Requested, UserConsistent, DebtMatches, Covered;
    if actions != [] {
      RequestedIsCovered(st, actions[0]);
      var next := Step(s, st, actions[0]);
      StepSoundIff(s, st, actions[0]);
      PromptKeepsDebts(st, actions[0]);
      StepConservesDebtIff(s, st, actions[0]);
      StepMovesOn(s, st, actions[0]);
      RunSound(s, next, actions[1..]);
    }
  }

  lemma PromptKeepsDebts(st: State, a: Action)
    requires Enabled(st, a) && SoleVariableBorrower(st, a) && Prompt(a)
    ensures KeepsDebts(st, a)
  {
    hide Enabled, ScaledPaid, ScaledTaken, Prompt;
    if a.Repay? {
      PromptRepaysSame(st, a);
    }
  }

  /** Of any other run, all states but the last are sound; the last is if and only if its step was covered. */
  lemma RunEndsSoundIff(s: Strategy, st: State, actions: seq<Action>) returns (before: State)
    requires s.Valid() && Runnable(s, st, actions) && actions != []
    ensures Enabled(before, actions[|actions| - 1]) && Sound(before)
    ensures Run(s, st, actions) == Step(s, before, actions[|actions| - 1])
    ensures Sound(Run(s, st, actions)) <==> Covered(before, actions[|actions| - 1])
  {
    hide Sound, StepReserve, StepUser, Covered;
    before := LastStep(s, st, actions);
    StepSoundIff(s, before, actions[|actions| - 1]);
  }

  // ---------- conservation of cash ----------

  /** Everything in the wallets and in the reserve. */
  ghost function Cash(st: State): int {
    SumOf(st.users, WalletOf) + st.reserve.availableLiquidity
  }

  function MovedAmount(st: State, a: Action): int
    requires a.user in st.users
  {
    var r, u := st.reserve, st.users[a.user];
    match a
    case Deposit(_, amount, at) => amount
    case Withdraw(_, amount, at) => -WithdrawnAmount(r, u, amount, at)
    case Borrow(_, amount, _, _, _) => -amount
    case Repay(_, amount, mode, _, at, _) => RepaidAmount(r, u, mode, amount, at)
    case Swap(_, _, _) => 0
    case SetUseAsCollateral(_, _) => 0
  }

  lemma ReserveCashChange(s: Strategy, st: State, a: Action)
    requires s.Valid() && Enabled(st, a)
    ensures StepReserve(s, st, a).availableLiquidity == st.reserve.availableLiquidity + MovedAmount(st, a)
  {
    hide RayMul, RayDiv, LiquidityIndex, VariableBorrowIndex, TotalStableDebt, RatesAt, UtilizationRate,
         AverageStableBorrowRate, StableDebtTokenBalance, VariableDebtTokenBalance, PoolWithout, PoolCovers,
         WithdrawnAmount, RepaidAmount, LTokenBalance, NormalizedDebt, Consistent, UserConsistent;
  }

  /** What the action takes out of its user's wallet; somebody else's repay takes nothing. */
  function PaidAmount(st: State, a: Action): int
    requires a.user in st.users
  {
    if a.Repay? then
      if a.ownRepay then RepaidAmount(st.reserve, st.users[a.user], a.mode, a.amount, a.seenAt) else 0
    else MovedAmount(st, a)
  }

  lemma UserCashChange(s: Strategy, st: State, a: Action)
    requires s.Valid() && Enabled(st, a)
    ensures StepUser(s, st, a).walletBalance == st.users[a.user].walletBalance - PaidAmount(st, a)
  {
    hide RayMul, RayDiv, LiquidityIndex, VariableBorrowIndex, StableDebtTokenBalance, VariableDebtTokenBalance,
         RepaidAmount, WithdrawnAmount, LTokenBalance, NormalizedDebt, NormalizedIncome, Consistent, UserConsistent,
         StepReserve, UserStableRate;
  }

  /**
    Cash only moves between a wallet and the reserve: a prompt own repay conserves it like every other
    action, a repay on somebody's behalf brings in its own amount.
   */
  lemma StepConservesCash(s: Strategy, st: State, a: Action)
    requires s.Valid() && Enabled(st, a)
    ensures Cash(Step(s, st, a)) == Cash(st) + MovedAmount(st, a) - PaidAmount(st, a)
    ensures Prompt(a) && (a.Repay? ==> a.ownRepay) ==> MovedAmount(st, a) == PaidAmount(st, a)
    ensures a.Repay? && !a.ownRepay ==> PaidAmount(st, a) == 0
  {
    if Prompt(a) && a.Repay? {
      PromptRepaysSame(st, a);
    }
    hide StepReserve, StepUser, RepaidAmount, Prompt, Sound, CanDeposit, CanWithdraw, CanBorrow, CanRepay, CanSwap;
    SumUpdate(st.users, WalletOf, a.user, StepUser(s, st, a));
    ReserveCashChange(s, st, a);
    UserCashChange(s, st, a);
  }

  /** With prompt and own repays only, every run conserves cash. */
  lemma {:induction false} RunConservesCash(s: Strategy, st: State, actions: seq<Action>)
    requires s.Valid() && Runnable(s, st, actions)
    requires forall i :: 0 <= i < |actions| ==> Prompt(actions[i]) && (actions[i].Repay? ==> actions[i].ownRepay)
    ensures Cash(Run(s, st, actions)) == Cash(st)
    decreases |actions|
  {
    hide Step, Enabled, Cash, MovedAmount, PaidAmount, Prompt;
    if actions != [] {
      StepConservesCash(s, st, actions[0]);
      RunConservesCash(s, Step(s, st, actions[0]), actions[1..]);
    }
  }
}
