/**
  What each action leaves in the records: the debt a user goes on owing, the recorded balances against
  the ones read back through the views, the collateral flag, and what the action does not touch.
 */
module Records {
  import opened RayMath
  import opened Interest
  import opened Rates
  import opened Reserve
  import opened StableDebt
  import opened Actions
  import opened Runs
  import opened Balances

  // ---------- stable debt as it goes on ----------

  /** A debt of a principal at a rate since some date, with every second after that charged; date zero means that it is not charged. */
  function Owing(principal: int, rate: int, since: int, later: int): int {
    if since == 0 then principal else RayMul(principal, CompoundedInterest(rate, later, since))
  }

  lemma BalanceIsOwing(u: UserReserveData, later: int)
    requires 0 <= u.principalStableDebt && u.stableRateLastUpdated <= later
    ensures StableBalance(u, later) == Owing(u.principalStableDebt, u.stableBorrowRate, u.stableRateLastUpdated, later)
  {
    hide RayMul;
    ZeroRateFactors(later, u.stableRateLastUpdated);
    RayMulByRay(u.principalStableDebt);
  }

  /** After a stable repay, what is left goes on compounding at the rate the user had, from the transaction. */
  lemma StableRepayKeepsRate(s: Strategy, st: State, a: Action, later: int)
    requires s.Valid() && Enabled(st, a) && a.Repay? && a.mode == Stable && a.at <= later
    ensures var u, after := st.users[a.user], Step(s, st, a).users[a.user];
      var left := StableBalance(u, a.seenAt) - RepaidAmount(st.reserve, u, Stable, a.amount, a.seenAt);
      && 0 <= left
      && StableBalance(after, later) == Owing(left, u.stableBorrowRate, a.at, later)
      && (left > 0 ==> after.stableBorrowRate == u.stableBorrowRate && after.stableRateLastUpdated == a.at)
  {
    hide StepReserve, RayMul, VariableDebtTokenBalance, LTokenBalance, Consistent, RepaidAmount, StableDebtTokenBalance,
         CompoundedInterest, Owing;
    var u, after := st.users[a.user], Step(s, st, a).users[a.user];
    StepIndexesAtLeastRay(s, st, a);
    RepaidWithinDebt(st, a);
    EnabledFacts(st, a);
    if after.principalStableDebt == 0 {
      NothingOwed(after, later);
      NothingOwing(u.stableBorrowRate, a.at, later);
    } else {
      BalanceIsOwing(after, later);
    }
  }

  lemma NothingOwed(u: UserReserveData, later: int)
    requires u.principalStableDebt == 0
    ensures StableBalance(u, later) == 0
  {
    hide CompoundedInterest;
    RayMulZero(CompoundedInterest(u.stableBorrowRate, later, u.stableRateLastUpdated));
  }

  lemma NothingOwing(rate: int, since: int, later: int)
    ensures Owing(0, rate, since, later) == 0
  {
    hide CompoundedInterest;
    RayMulZero(CompoundedInterest(rate, later, since));
  }

  /**
    After a stable borrow the whole debt goes on at the average of the old and the new rate, weighted by
    the accrued debt and the loan and cut to a whole unit, from the transaction.
   */
  lemma StableBorrowGoesOn(s: Strategy, st: State, a: Action, later: int)
    requires s.Valid() && Enabled(st, a) && a.Borrow? && a.mode == Stable && a.at <= later
    ensures var r, u, after := st.reserve, st.users[a.user], Step(s, st, a).users[a.user];
      var debt, rate := StableBalance(u, a.at), after.stableBorrowRate;
      && StableBalance(after, later) == Owing(debt + a.amount, rate, a.at, later)
      && Weighs(rate, debt, u.stableBorrowRate, a.amount, r.stableBorrowRate)
  {
    hide StepReserve, RayMul, VariableDebtTokenBalance, LTokenBalance, StableDebtTokenBalance, CompoundedInterest, Owing,
         UserStableRate, Weighs;
    var u := st.users[a.user];
    EnabledFacts(st, a);
    StepIndexesAtLeastRay(s, st, a);
    UserBalances(st.reserve, u, a.at);
    RateWeighs(StableBalance(u, a.at), u.stableBorrowRate, a.amount, st.reserve.stableBorrowRate);
    BalanceIsOwing(Step(s, st, a).users[a.user], later);
  }

  /** The rate is the average of two, weighted by two amounts, cut to a whole unit. */
  predicate Weighs(rate: int, amount1: int, rate1: int, amount2: int, rate2: int) {
    var weight := amount1 * rate1 + amount2 * rate2;
    0 <= rate && rate * (amount1 + amount2) <= weight < rate * (amount1 + amount2) + (amount1 + amount2)
  }

  lemma RateWeighs(balance: int, rate: int, amount: int, newRate: int)
    requires 0 <= balance && 0 <= rate && 0 < amount && 0 <= newRate
    ensures Weighs(UserStableRate(balance, rate, amount, newRate), balance, rate, amount, newRate)
  {
    hide TruncDiv;
    assert 0 <= balance * rate && 0 <= amount * newRate;
    QuotientBounds(balance * rate + amount * newRate, balance + amount);
  }

  /**
    After a swap to stable the recorded stable debt and the accrued variable debt go on together; the rate
    weighs the accrued stable debt, at the rate the user had, against the variable debt at the reserve's.
   */
  lemma SwapToStableGoesOn(s: Strategy, st: State, a: Action, later: int)
    requires s.Valid() && Enabled(st, a) && a.Swap? && a.mode == Variable && a.at <= later
    ensures var r, u, after := st.reserve, st.users[a.user], Step(s, st, a).users[a.user];
      var debt, rate := VariableDebtTokenBalance(r, u, a.at), after.stableBorrowRate;
      && StableBalance(after, later) == Owing(u.currentStableDebt + debt, rate, a.at, later)
      && Weighs(rate, StableBalance(u, a.at), u.stableBorrowRate, debt, r.stableBorrowRate)
      && after.scaledVariableDebt == 0
  {
    hide StepReserve, RayMul, VariableDebtTokenBalance, LTokenBalance, StableDebtTokenBalance, CompoundedInterest, Owing,
         UserStableRate, Weighs, SwapDefined;
    var u := st.users[a.user];
    EnabledFacts(st, a);
    StepIndexesAtLeastRay(s, st, a);
    UserBalances(st.reserve, u, a.at);
    RateWeighs(StableBalance(u, a.at), u.stableBorrowRate, VariableDebtTokenBalance(st.reserve, u, a.at), st.reserve.stableBorrowRate);
    BalanceIsOwing(Step(s, st, a).users[a.user], later);
  }

  /** After a swap to variable no stable debt is owed at any time, and the views read the same debt as before, up to rounding. */
  lemma SwapToVariableEndsStableDebt(s: Strategy, st: State, a: Action)
    requires s.Valid() && Enabled(st, a) && a.Swap? && a.mode == Stable
    ensures var r, u, next := st.reserve, st.users[a.user], Step(s, st, a);
      var after, accrued := next.users[a.user], RayMul(u.scaledVariableDebt, VariableBorrowIndex(r, a.at));
      && (forall later :: StableBalance(after, later) == 0)
      && after.stableBorrowRate == 0 && after.stableRateLastUpdated == 0
      && Near(StableBalance(after, a.at) + VariableDebtTokenBalance(next.reserve, after, a.at),
              StableBalance(u, a.at) + accrued, VariableBorrowIndex(r, a.at))
      && ((r.totalVariableDebt == 0 ==> u.scaledVariableDebt == 0) ==> accrued == VariableDebtTokenBalance(r, u, a.at))
  {
    hide RayMul, RayDiv, VariableBorrowIndex, StableDebtTokenBalance, VariableDebtTokenBalance, LTokenBalance, StepReserve,
         PoolCovers, Near;
    var r, u, after := st.reserve, st.users[a.user], StepUser(s, st, a);
    StepIndexes(s, st, a);
    StepIndexesAtLeastRay(s, st, a);
    UserBalances(r, u, a.at);
    ViewsAfterStep(s, st, a, after);
    ScaledPlus(StableBalance(u, a.at), u.scaledVariableDebt, VariableBorrowIndex(r, a.at));
    forall later ensures StableBalance(after, later) == 0 {
      NothingOwed(after, later);
    }
    if r.totalVariableDebt == 0 ==> u.scaledVariableDebt == 0 {
      DebtBefore(st, a);
    }
  }

  // ---------- what an action does not touch ----------

  /** The stable debt of a user, as it is recorded. */
  predicate SameStableDebt(u: UserReserveData, v: UserReserveData) {
    && u.principalStableDebt == v.principalStableDebt && u.stableBorrowRate == v.stableBorrowRate
    && u.stableRateLastUpdated == v.stableRateLastUpdated
  }

  /**
    Claims move with deposits and withdrawals only.  Withdrawals and variable borrows leave the stable debt
    alone at all times; a deposit and a variable repay rewrite its principal, but not its rate or its date.
   */
  lemma UserKeeps(s: Strategy, st: State, a: Action)
    requires s.Valid() && Enabled(st, a)
    ensures var r, u, after := st.reserve, st.users[a.user], Step(s, st, a).users[a.user];
      && (!a.Deposit? && !a.Withdraw? ==> after.scaledLTokenBalance == u.scaledLTokenBalance)
      && (a.Withdraw? || a.SetUseAsCollateral? || (a.Borrow? && a.mode == Variable) ==> SameStableDebt(after, u))
      && (a.Deposit? ==> SameStableDebt(after, u.(principalStableDebt := VariableDebtTokenBalance(r, u, a.at))))
      && (a.Repay? && a.mode == Variable ==> SameStableDebt(after, u.(principalStableDebt := StableBalance(u, a.seenAt))))
      && (a.SetUseAsCollateral? ==> after.scaledVariableDebt == u.scaledVariableDebt && after.walletBalance == u.walletBalance)
  {
    hide StepReserve, RayMul, RayDiv, VariableDebtTokenBalance, LTokenBalance, StableBalance, Consistent, UserConsistent,
         RepaidAmount, WithdrawnAmount, RepayDefined, SwapDefined, PoolCovers, UserStableRate, StableDebtTokenBalance;
    StepIndexesAtLeastRay(s, st, a);
  }

  /** Other users are not touched. */
  lemma OthersKeep(s: Strategy, st: State, a: Action, other: string)
    requires s.Valid() && Enabled(st, a) && other in st.users && other != a.user
    ensures other in Step(s, st, a).users && Step(s, st, a).users[other] == st.users[other]
  {
    hide StepReserve, StepUser, Enabled;
  }

  /**
    The pool's principal, average rate and date move with stable borrows, stable repays and swaps only, which
    date the pool at the transaction and leave no interest outside the principal.  A deposit or a withdrawal
    accrues the total of the pool; a variable repay keeps the total of the last snapshot.
   */
  lemma ReserveKeeps(s: Strategy, st: State, a: Action)
    requires s.Valid() && Enabled(st, a)
    ensures var r, after := st.reserve, Step(s, st, a).reserve;
      && after.marketStableRate == r.marketStableRate
      && (a.Deposit? || a.Withdraw? || a.SetUseAsCollateral? || ((a.Borrow? || a.Repay?) && a.mode == Variable)
          ==> SamePool(after, r))
      && (a.Deposit? || a.Withdraw? ==> after.totalStableDebt == Accrued(r, a.at).totalStableDebt)
      && (a.Repay? && a.mode == Variable ==> after.totalStableDebt == r.totalStableDebt)
      && (((a.Borrow? || a.Repay?) && a.mode == Stable) || a.Swap? ==> after.totalStableDebtLastUpdated == a.at)
      && ((a.Repay? && a.mode == Stable) || a.Swap? ==> after.principalStableDebt == after.totalStableDebt)
      && (a.Borrow? && a.mode == Stable ==> after.principalStableDebt == Accrued(r, a.at).totalStableDebt + a.amount)
  {
    hide RayMul, RayDiv, LiquidityIndex, VariableBorrowIndex, TotalStableDebt, RatesAt, UtilizationRate,
         AverageStableBorrowRate, StableDebtTokenBalance, VariableDebtTokenBalance, PoolWithout, PoolCovers,
         WithdrawnAmount, RepaidAmount, LTokenBalance, NormalizedDebt, Consistent, UserConsistent;
  }

  predicate SamePool(r: ReserveData, q: ReserveData) {
    && r.principalStableDebt == q.principalStableDebt && r.averageStableBorrowRate == q.averageStableBorrowRate
    && r.totalStableDebtLastUpdated == q.totalStableDebtLastUpdated
  }

  // ---------- a borrow that is looked at later ----------

  /**
    Looking at a borrow later changes no index, rate, date or principal: only the two debts, which are then
    those that an update at that moment would accrue, and the liquidity and utilization that follow from them.
   */
  lemma BorrowSeenLater(s: Strategy, r: ReserveData, u: UserReserveData, amount: int, mode: RateMode, t: int, now: int)
    requires s.Valid() && CanBorrow(r, u, amount, t, now)
    ensures var once, seen := ReserveAfterBorrow(s, r, u, amount, mode, t, t), ReserveAfterBorrow(s, r, u, amount, mode, t, now);
      && seen.liquidityIndex == once.liquidityIndex && seen.variableBorrowIndex == once.variableBorrowIndex
      && seen.liquidityRate == once.liquidityRate && seen.stableBorrowRate == once.stableBorrowRate
      && seen.variableBorrowRate == once.variableBorrowRate && seen.lastUpdateTimestamp == once.lastUpdateTimestamp
      && seen.scaledVariableDebt == once.scaledVariableDebt && seen.availableLiquidity == once.availableLiquidity
      && SamePool(seen, once) && seen.marketStableRate == once.marketStableRate
      && seen.totalStableDebt == Accrued(once, now).totalStableDebt
      && seen.totalVariableDebt == Accrued(once, now).totalVariableDebt
      && seen.totalLiquidity == seen.availableLiquidity + seen.totalStableDebt + seen.totalVariableDebt
      && Utilizable(seen)
      && seen.utilizationRate == UtilizationRate(seen.totalStableDebt, seen.totalVariableDebt, seen.totalLiquidity)
  {
    hide RayMul, RayDiv, AverageStableBorrowRate, LiquidityIndex, TotalStableDebt, CompoundedInterest, UtilizationRate, RatesAt,
         StableDebtTokenBalance, NormalizedDebt, VariableBorrowIndex, ReserveAtBorrow;
    var b := ReserveAtBorrow(s, r, u, amount, mode, t);
    BorrowSeenUtilizable(s, r, u, amount, mode, t, t);
    BorrowSeenUtilizable(s, r, u, amount, mode, t, now);
    DebtsSeenLater(s, r, u, amount, mode, t, t);
    DebtsSeenLater(s, r, u, amount, mode, t, now);
    BorrowDated(s, r, u, amount, mode, t);
    VariableViewIsAccrual(b, ReserveAfterBorrow(s, r, u, amount, mode, t, t), now);
  }

  lemma BorrowDated(s: Strategy, r: ReserveData, u: UserReserveData, amount: int, mode: RateMode, t: int)
    requires s.Valid() && CanBorrow(r, u, amount, t, t)
    ensures ReserveAtBorrow(s, r, u, amount, mode, t).lastUpdateTimestamp == t
  {
    hide RayMul, RayDiv, AverageStableBorrowRate, LiquidityIndex, VariableBorrowIndex, TotalStableDebt, RatesAt, UtilizationRate,
         StableDebtTokenBalance, Consistent, UserConsistent;
  }

  /** The debt that a later view shows is the one an update would accrue, also where there is none. */
  lemma VariableViewIsAccrual(b: ReserveData, once: ReserveData, now: int)
    requires Consistent(b) && b.lastUpdateTimestamp <= now && once.scaledVariableDebt == b.scaledVariableDebt
    requires once.variableBorrowIndex == b.variableBorrowIndex && once.variableBorrowRate == b.variableBorrowRate
    requires once.lastUpdateTimestamp == b.lastUpdateTimestamp && b.totalVariableDebt <= once.totalVariableDebt
    requires once.totalVariableDebt == RayMul(b.scaledVariableDebt, NormalizedDebt(b.variableBorrowRate, b.variableBorrowIndex,
                                                                                   b.lastUpdateTimestamp, b.lastUpdateTimestamp))
    ensures RayMul(b.scaledVariableDebt, NormalizedDebt(b.variableBorrowRate, b.variableBorrowIndex, b.lastUpdateTimestamp, now))
      == RayMul(once.scaledVariableDebt, VariableBorrowIndex(once, now))
  {
    hide RayMul, CompoundedInterest;
    ZeroRateFactors(now, b.lastUpdateTimestamp);
    RayMulByRay(b.variableBorrowIndex);
    RayMulZero(b.variableBorrowIndex);
    RayMulZero(NormalizedDebt(b.variableBorrowRate, b.variableBorrowIndex, b.lastUpdateTimestamp, now));
    RayMulZero(VariableBorrowIndex(once, now));
  }

  // ---------- rates ----------

  /** Utilization and all three rates are those that the strategy sets for the record's own totals. */
  predicate PricedByTotals(s: Strategy, r: ReserveData)
    requires s.Valid()
  {
    && Utilizable(r)
    && r.utilizationRate == UtilizationRate(r.totalStableDebt, r.totalVariableDebt, r.totalLiquidity)
    && var rates := RatesAt(s, r.marketStableRate, r.utilizationRate, r.totalStableDebt, r.totalVariableDebt,
                            r.averageStableBorrowRate);
       r.liquidityRate == rates.liquidityRate && r.stableBorrowRate == rates.stableBorrowRate
       && r.variableBorrowRate == rates.variableBorrowRate
  }

  lemma RepricedByTotals(s: Strategy, r: ReserveData)
    requires s.Valid() && Utilizable(r)
    ensures PricedByTotals(s, Repriced(s, r))
  {
    hide RatesAt, UtilizationRate;
  }

  /** Every action but a borrow and the choice of collateral leaves the rates for the totals it leaves. */
  lemma StepIsPriced(s: Strategy, st: State, a: Action)
    requires s.Valid() && Enabled(st, a) && !a.SetUseAsCollateral? && !a.Borrow?
    ensures PricedByTotals(s, Step(s, st, a).reserve)
  {
    hide RayMul, RayDiv, LiquidityIndex, VariableBorrowIndex, TotalStableDebt, Repriced, PricedByTotals, StepUser,
         AverageStableBorrowRate, StableBalance, VariableDebtTokenBalance, PoolWithout, PoolCovers,
         WithdrawnAmount, RepaidAmount, LTokenBalance, UserConsistent;
    var r, u := st.reserve, st.users[a.user];
    match a {
      case Deposit(_, amount, at) =>
        DepositUtilizable(r, amount, at);
        RepricedByTotals(s, Deposited(r, amount, at));
      case Withdraw(_, amount, at) =>
        var taken := WithdrawnAmount(r, u, amount, at);
        WithdrawnFacts(r, taken, at);
        RepricedByTotals(s, Balanced(Withdrawn(r, taken, at)));
      case Repay(_, amount, mode, _, at, _) =>
        var repaid := RepaidAmount(r, u, mode, amount, at);
        match mode {
          case Stable =>
            RepaidStableFacts(r, repaid, u.stableBorrowRate, at);
            RepricedByTotals(s, Balanced(RepaidStable(r, repaid, u.stableBorrowRate, at)));
          case Variable =>
            RepricedByTotals(s, Balanced(RepaidVariable(r, repaid, at)));
        }
      case Swap(_, mode, at) =>
        match mode {
          case Stable =>
            SwappedToVariableFacts(r, u, at);
            RepricedByTotals(s, Balanced(SwappedToVariable(r, StableBalance(u, at), u.stableBorrowRate, at)));
          case Variable =>
            RepricedByTotals(s, Balanced(SwappedToStable(r, VariableDebtTokenBalance(r, u, at), at)));
        }
      case _ =>
    }
  }

  /**
    A borrow is priced for the totals at the transaction and keeps those rates; for a variable borrow the
    stable side of these totals is accrued, unless the pool has no date, in which case it is the principal.
   */
  lemma BorrowIsPriced(s: Strategy, r: ReserveData, u: UserReserveData, amount: int, mode: RateMode, t: int, now: int)
    requires s.Valid() && CanBorrow(r, u, amount, t, now)
    ensures var priced, seen := ReserveAtBorrow(s, r, u, amount, mode, t), ReserveAfterBorrow(s, r, u, amount, mode, t, now);
      && PricedByTotals(s, priced)
      && seen.liquidityRate == priced.liquidityRate && seen.stableBorrowRate == priced.stableBorrowRate
      && seen.variableBorrowRate == priced.variableBorrowRate && priced.lastUpdateTimestamp == t
      && priced.totalLiquidity == priced.availableLiquidity + priced.totalStableDebt + priced.totalVariableDebt
      && (mode == Stable ==> priced.totalStableDebt == Accrued(r, t).totalStableDebt + amount)
      && (mode == Variable ==>
            priced.totalStableDebt == if r.totalStableDebtLastUpdated == 0 then r.principalStableDebt
                                      else Accrued(r, t).totalStableDebt)
  {
    hide RayMul, RayDiv, LiquidityIndex, VariableBorrowIndex, TotalStableDebt, RatesAt, UtilizationRate,
         AverageStableBorrowRate, StableDebtTokenBalance, NormalizedDebt, UserConsistent;
    BorrowSeenUtilizable(s, r, u, amount, mode, t, now);
    PoolBalance(r, t);
    match mode {
      case Stable =>
        BorrowedStableFacts(r, amount, t);
      case Variable =>
        BorrowedVariableFacts(r, amount, t);
    }
  }

  lemma PoolBalance(r: ReserveData, t: int)
    requires Consistent(r) && r.lastUpdateTimestamp <= t
    ensures StableDebtTokenBalance(r.principalStableDebt, r.averageStableBorrowRate, r.totalStableDebtLastUpdated, t)
      == if r.totalStableDebtLastUpdated == 0 then r.principalStableDebt
         else TotalStableDebt(r.principalStableDebt, r.averageStableBorrowRate, r.totalStableDebtLastUpdated, t)
  {
    hide RayMul, CompoundedInterest;
    if r.totalStableDebtLastUpdated != 0 {
      BalanceIsTotal(r.principalStableDebt, r.averageStableBorrowRate, r.totalStableDebtLastUpdated, t);
    }
  }

  // ---------- amounts ----------

  /** Everything is withdrawn by the maximum alone, and repaid by the maximum of either sign; other amounts are taken as they are. */
  lemma WholeAmounts(r: ReserveData, u: UserReserveData, mode: RateMode, amount: int, t: int)
    ensures WithdrawnAmount(r, u, amount, t) == if amount == MAX_UINT_AMOUNT then LTokenBalance(r, u, t) else amount
    ensures RepaidAmount(r, u, mode, amount, t)
      == (if amount == MAX_UINT_AMOUNT || amount == -MAX_UINT_AMOUNT then
            match mode case Stable => StableBalance(u, t) case Variable => VariableDebtTokenBalance(r, u, t)
          else amount)
  {
    hide LTokenBalance, StableBalance, VariableDebtTokenBalance;
  }

  // ---------- recorded balances and views ----------

  /**
    The recorded claim is the one that is read back from the next state: exactly, except after a deposit or
    a withdrawal, where it is within the rounding of one scaled amount.
   */
  lemma RecordedClaimIsViewed(s: Strategy, st: State, a: Action)
    requires s.Valid() && Enabled(st, a) && !a.SetUseAsCollateral?
    ensures var next, after := Step(s, st, a), Step(s, st, a).users[a.user];
      && Near(after.currentLTokenBalance, LTokenBalance(next.reserve, after, if a.Borrow? then a.seenAt else a.at),
              LiquidityIndex(st.reserve, a.at))
      && (!a.Deposit? && !a.Withdraw?
          ==> after.currentLTokenBalance == LTokenBalance(next.reserve, after, if a.Borrow? then a.seenAt else a.at))
      && after.liquidityRate == next.reserve.liquidityRate
  {
    hide StepReserve, RayMul, RayDiv, LiquidityIndex, VariableDebtTokenBalance, LTokenBalance, StableBalance, Consistent,
         UserConsistent, RepaidAmount, WithdrawnAmount, RepayDefined, SwapDefined, PoolCovers, UserStableRate,
         StableDebtTokenBalance, Near;
    var next, after := Step(s, st, a), Step(s, st, a).users[a.user];
    EnabledFacts(st, a);
    StepIndexesAtLeastRay(s, st, a);
    ViewsAfterStep(s, st, a, after);
    ClaimBefore(st, a);
    if a.Deposit? {
      DepositCreditsAmount(s, st, a);
      NearBack(LTokenBalance(next.reserve, after, a.at), after.currentLTokenBalance, LiquidityIndex(st.reserve, a.at));
    } else if a.Withdraw? {
      WithdrawDebitsAmount(s, st, a);
      NearBack(LTokenBalance(next.reserve, after, a.at), after.currentLTokenBalance, LiquidityIndex(st.reserve, a.at));
    } else {
      UserKeeps(s, st, a);
      ClaimReadsScaled(next.reserve, after, st.users[a.user], if a.Borrow? then a.seenAt else a.at);
      NearItself(after.currentLTokenBalance, LiquidityIndex(st.reserve, a.at));
    }
  }

  lemma ClaimReadsScaled(r: ReserveData, u: UserReserveData, v: UserReserveData, t: int)
    requires u.scaledLTokenBalance == v.scaledLTokenBalance
    ensures LTokenBalance(r, u, t) == LTokenBalance(r, v, t)
  {
  }

  lemma NearBack(a: int, b: int, index: int)
    requires Near(a, b, index)
    ensures Near(b, a, index)
  {
  }

  lemma NearItself(a: int, index: int)
    requires 0 <= index
    ensures Near(a, a, index)
  {
  }

  /**
    The recorded stable debt is the one read back at the time the record is looked at, except after a deposit
    and after a variable repay, which rewrite the principal; after a stable repay it is read at the transaction.
   */
  lemma RecordedStableDebtIsViewed(s: Strategy, st: State, a: Action)
    requires s.Valid() && Enabled(st, a) && !a.SetUseAsCollateral? && !a.Deposit?
    requires a.Repay? ==> a.mode == Stable
    ensures var after := Step(s, st, a).users[a.user];
      after.currentStableDebt == StableBalance(after, if a.Borrow? then a.seenAt else a.at)
  {
    hide StepReserve, RayMul, RayDiv, VariableDebtTokenBalance, LTokenBalance, Consistent, RepaidAmount, WithdrawnAmount,
         UserStableRate, CompoundedInterest, PoolCovers, SwapDefined;
    StepIndexesAtLeastRay(s, st, a);
  }

  /** Where a deposit and a variable repay leave the recorded debt: at the accrued one, and at the old principal. */
  lemma RecordedStableDebtLeft(s: Strategy, st: State, a: Action)
    requires s.Valid() && Enabled(st, a) && (a.Deposit? || (a.Repay? && a.mode == Variable))
    ensures var u, after := st.users[a.user], Step(s, st, a).users[a.user];
      after.currentStableDebt == if a.Deposit? then StableBalance(u, a.at) else u.principalStableDebt
  {
    hide StepReserve, RayMul, RayDiv, VariableDebtTokenBalance, LTokenBalance, Consistent, RepaidAmount, StableBalance,
         RepayDefined;
    StepIndexesAtLeastRay(s, st, a);
  }

  /**
    The recorded variable debt is the one read back from the next state: at the time the record is looked at
    after a borrow, and at the transaction otherwise, as long as no total debt means that the user has none.
   */
  lemma RecordedVariableDebtIsViewed(s: Strategy, st: State, a: Action)
    requires s.Valid() && Enabled(st, a) && !a.SetUseAsCollateral?
    requires st.reserve.totalVariableDebt == 0 ==> st.users[a.user].scaledVariableDebt == 0
    requires a.Repay? && a.mode == Stable ==> a.seenAt == a.at
    ensures var next, after := Step(s, st, a), Step(s, st, a).users[a.user];
      after.currentVariableDebt == VariableDebtTokenBalance(next.reserve, after, if a.Borrow? then a.seenAt else a.at)
  {
    hide StepReserve, RayMul, RayDiv, VariableBorrowIndex, VariableDebtTokenBalance, LTokenBalance, StableBalance, Consistent,
         UserConsistent, RepaidAmount, WithdrawnAmount, RepayDefined, SwapDefined, PoolCovers, UserStableRate,
         StableDebtTokenBalance;
    var next, after := Step(s, st, a), Step(s, st, a).users[a.user];
    EnabledFacts(st, a);
    StepIndexes(s, st, a);
    StepIndexesAtLeastRay(s, st, a);
    if a.Borrow? {
      DebtReadsScaled(next.reserve, after, a.seenAt);
    } else {
      ViewsAfterStep(s, st, a, after);
      DebtBefore(st, a);
      RayMulZero(VariableBorrowIndex(st.reserve, a.at));
    }
  }

  lemma DebtReadsScaled(r: ReserveData, u: UserReserveData, t: int)
    ensures forall v: UserReserveData | v.scaledVariableDebt == u.scaledVariableDebt ::
      VariableDebtTokenBalance(r, v, t) == VariableDebtTokenBalance(r, u, t)
  {
  }

  // ---------- collateral ----------

  /**
    The flag is switched on by a choice, or by a deposit or withdrawal of a user who had no balance recorded;
    and off by a choice, or by withdrawing the whole of a balance that was recorded.
   */
  lemma CollateralSwitchesIff(s: Strategy, st: State, a: Action)
    requires s.Valid() && Enabled(st, a)
    ensures var r, u, after := st.reserve, st.users[a.user], Step(s, st, a).users[a.user];
      && (!u.usageAsCollateralEnabled ==>
            (after.usageAsCollateralEnabled
             <==> ((a.Deposit? || a.Withdraw?) && u.currentLTokenBalance == 0) || (a.SetUseAsCollateral? && a.useAsCollateral)))
      && (u.usageAsCollateralEnabled ==>
            (!after.usageAsCollateralEnabled
             <==> (a.Withdraw? && u.currentLTokenBalance != 0 && WithdrawnAmount(r, u, a.amount, a.at) == LTokenBalance(r, u, a.at))
                  || (a.SetUseAsCollateral? && !a.useAsCollateral)))
  {
    hide StepReserve, RayMul, RayDiv, VariableDebtTokenBalance, LTokenBalance, StableBalance, Consistent, UserConsistent,
         RepaidAmount, WithdrawnAmount, RepayDefined, SwapDefined, PoolCovers, UserStableRate, StableDebtTokenBalance;
    StepIndexesAtLeastRay(s, st, a);
  }
}
