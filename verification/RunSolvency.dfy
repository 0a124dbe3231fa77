/**
  Solvency along runs: what all users can claim together stays within the liquidity of the reserve, up
  to an allowance that grows with every period and every rounded or forgiven amount.
 */
module RunSolvency {
  import opened RayMath
  import opened Interest
  import opened Rates
  import opened Reserve
  import opened StableDebt
  import opened Actions
  import opened Ledger
  import opened Runs
  import opened Solvency
  import D = Discrepancies
  import T = Totals

  // ---------- which actions settle the reserve ----------

  /** The reserve is sound, its totals add up and are up to date, and its rates are the strategy's for them. */
  predicate Settled(s: Strategy, st: State)
    requires s.Valid()
  {
    Sound(st) && Priced(s, st.reserve) && Dated(st.reserve)
  }

  /**
    The action leaves totals that are up to date: no deposit onto accrued interest, no variable repay
    while stable interest has accrued, no borrow that is looked at only later, and no variable borrow
    from a pool whose stable debt has no date.
   */
  predicate Settles(r: ReserveData, a: Action) {
    match a
    case Deposit(_, _, at) => T.Quiet(r, at)
    case Borrow(_, _, mode, at, seenAt) =>
      seenAt == at && (mode == Variable ==> r.totalStableDebtLastUpdated != 0 || r.principalStableDebt == 0)
    case Repay(_, _, mode, _, at, _) => mode == Variable ==> Accrued(r, at).totalStableDebt == r.totalStableDebt
    case _ => true
  }

  lemma RepricedIsPriced(s: Strategy, r: ReserveData)
    requires s.Valid()
    requires 0 <= r.availableLiquidity && 0 <= r.totalStableDebt && 0 <= r.averageStableBorrowRate
    requires RAY <= r.liquidityIndex && RAY <= r.variableBorrowIndex
    requires 0 <= r.scaledVariableDebt <= r.totalVariableDebt == RayMul(r.scaledVariableDebt, r.variableBorrowIndex)
    requires T.AddsUp(r)
    ensures Utilizable(r) && Priced(s, Repriced(s, r))
  {
    hide RatesAt, UtilizationRate, RayMul;
  }

  lemma DepositPrices(s: Strategy, r: ReserveData, amount: int, t: int)
    requires s.Valid() && CanDeposit(r, amount, t) && Priced(s, r) && T.Quiet(r, t)
    ensures Priced(s, ReserveAfterDeposit(s, r, amount, t)) && Dated(ReserveAfterDeposit(s, r, amount, t))
  {
    hide RayMul, LiquidityIndex, VariableBorrowIndex, TotalStableDebt, RatesAt, UtilizationRate;
    AccrualFacts(r, t);
    DepositUtilizable(r, amount, t);
    RepricedIsPriced(s, Deposited(r, amount, t));
  }

  lemma WithdrawPrices(s: Strategy, r: ReserveData, u: UserReserveData, amount: int, t: int)
    requires s.Valid() && CanWithdraw(r, u, amount, t)
    ensures Priced(s, ReserveAfterWithdraw(s, r, u, amount, t)) && Dated(ReserveAfterWithdraw(s, r, u, amount, t))
  {
    hide RayMul, LiquidityIndex, VariableBorrowIndex, TotalStableDebt, RatesAt, UtilizationRate, LTokenBalance, Priced;
    AccrualFacts(r, t);
    var taken := WithdrawnAmount(r, u, amount, t);
    WithdrawnFacts(r, taken, t);
    RepricedIsPriced(s, Balanced(Withdrawn(r, taken, t)));
  }

  /** A borrow that is looked at right away shows the totals it was priced with. */
  lemma BorrowSeenAtOnce(s: Strategy, r: ReserveData, u: UserReserveData, amount: int, mode: RateMode, t: int)
    requires s.Valid() && CanBorrow(r, u, amount, t, t)
    requires mode == Variable ==> r.totalStableDebtLastUpdated != 0 || r.principalStableDebt == 0
    ensures ReserveAfterBorrow(s, r, u, amount, mode, t, t) == ReserveAtBorrow(s, r, u, amount, mode, t)
  {
    hide RayMul, RayDiv, LiquidityIndex, VariableBorrowIndex, TotalStableDebt, StableDebtTokenBalance, RatesAt,
         UtilizationRate, AverageStableBorrowRate, NormalizedDebt;
    var b := ReserveAtBorrow(s, r, u, amount, mode, t);
    DebtsSeenLater(s, r, u, amount, mode, t, t);
    BorrowSeenUtilizable(s, r, u, amount, mode, t, t);
    IndexesAtOnce(b);
    match mode {
      case Stable =>
        TotalAtOnce(b.principalStableDebt, b.averageStableBorrowRate, t);
      case Variable =>
        BalanceIsTotalHere(r, t);
    }
  }

  lemma BalanceIsTotalHere(r: ReserveData, t: int)
    requires Consistent(r) && r.lastUpdateTimestamp <= t
    requires r.totalStableDebtLastUpdated != 0 || r.principalStableDebt == 0
    ensures StableDebtTokenBalance(r.principalStableDebt, r.averageStableBorrowRate, r.totalStableDebtLastUpdated, t)
      == TotalStableDebt(r.principalStableDebt, r.averageStableBorrowRate, r.totalStableDebtLastUpdated, t)
  {
    hide RayMul, CompoundedInterest;
    if r.totalStableDebtLastUpdated != 0 {
      BalanceIsTotal(r.principalStableDebt, r.averageStableBorrowRate, r.totalStableDebtLastUpdated, t);
    } else {
      RayMulZero(CompoundedInterest(r.averageStableBorrowRate, t, r.totalStableDebtLastUpdated));
    }
  }

  lemma BorrowPrices(s: Strategy, r: ReserveData, u: UserReserveData, amount: int, mode: RateMode, t: int)
    requires s.Valid() && CanBorrow(r, u, amount, t, t)
    requires mode == Variable ==> r.totalStableDebtLastUpdated != 0 || r.principalStableDebt == 0
    ensures Priced(s, ReserveAtBorrow(s, r, u, amount, mode, t)) && Dated(ReserveAtBorrow(s, r, u, amount, mode, t))
  {
    hide RayMul, RayDiv, LiquidityIndex, VariableBorrowIndex, TotalStableDebt, StableDebtTokenBalance, RatesAt,
         UtilizationRate, AverageStableBorrowRate, Priced;
    AccrualFacts(r, t);
    match mode {
      case Stable =>
        BorrowedStableFacts(r, amount, t);
        RepricedIsPriced(s, Balanced(BorrowedStable(r, amount, t)));
        TotalAtOnce(BorrowedStable(r, amount, t).principalStableDebt, BorrowedStable(r, amount, t).averageStableBorrowRate, t);
      case Variable =>
        BorrowedVariableFacts(r, amount, t);
        RepricedIsPriced(s, Balanced(BorrowedVariable(r, amount, t)));
        BalanceIsTotalHere(r, t);
    }
  }

  lemma RepayPrices(s: Strategy, st: State, a: Action)
    requires s.Valid() && Enabled(st, a) && a.Repay? && Covered(st, a) && Settles(st.reserve, a)
    ensures Priced(s, StepReserve(s, st, a)) && Dated(StepReserve(s, st, a))
  {
    hide RayMul, RayDiv, LiquidityIndex, VariableBorrowIndex, TotalStableDebt, RatesAt, UtilizationRate, PoolWithout,
         StableBalance, VariableDebtTokenBalance, RepaidAmount, Priced;
    var r, u := st.reserve, st.users[a.user];
    AccrualFacts(r, a.at);
    var repaid := RepaidAmount(r, u, a.mode, a.amount, a.at);
    match a.mode {
      case Stable =>
        var p := RepaidStable(r, repaid, u.stableBorrowRate, a.at);
        RepaidStableFacts(r, repaid, u.stableBorrowRate, a.at);
        RepricedIsPriced(s, Balanced(p));
        TotalAtOnce(p.principalStableDebt, p.averageStableBorrowRate, a.at);
      case Variable =>
        RepaidVariableFacts(r, repaid, a.at);
        RepricedIsPriced(s, Balanced(RepaidVariable(r, repaid, a.at)));
    }
  }

  lemma SwapPrices(s: Strategy, st: State, a: Action)
    requires s.Valid() && Enabled(st, a) && a.Swap? && Covered(st, a)
    ensures Priced(s, StepReserve(s, st, a)) && Dated(StepReserve(s, st, a))
  {
    hide RayMul, RayDiv, LiquidityIndex, VariableBorrowIndex, TotalStableDebt, RatesAt, UtilizationRate,
         AverageStableBorrowRate, StableBalance, VariableDebtTokenBalance, PoolCovers, Priced;
    var r, u := st.reserve, st.users[a.user];
    AccrualFacts(r, a.at);
    match a.mode {
      case Stable =>
        var w := SwappedToVariable(r, StableBalance(u, a.at), u.stableBorrowRate, a.at);
        SwappedToVariableFacts(r, u, a.at);
        RepricedIsPriced(s, Balanced(w));
        TotalAtOnce(w.principalStableDebt, w.averageStableBorrowRate, a.at);
      case Variable =>
        var debt := VariableDebtTokenBalance(r, u, a.at);
        var w := SwappedToStable(r, debt, a.at);
        SwappedToStableFacts(r, debt, a.at);
        RepricedIsPriced(s, Balanced(w));
        TotalAtOnce(w.principalStableDebt, w.averageStableBorrowRate, a.at);
    }
  }

  /** Every such action leaves a settled state, unless it takes more scaled debt off the reserve than that records. */
  lemma StepSettles(s: Strategy, st: State, a: Action)
    requires s.Valid() && Settled(s, st) && Enabled(st, a) && Covered(st, a) && Settles(st.reserve, a)
    ensures Settled(s, Step(s, st, a))
  {
    hide ReserveAfterDeposit, ReserveAfterWithdraw, ReserveAfterBorrow, ReserveAtBorrow, ReserveAfterRepay, ReserveAfterSwap,
         Priced, Dated, CanDeposit, CanWithdraw, CanBorrow, CanRepay, CanSwap, LTokenBalance, StepUser, Covered, T.Quiet,
         Consistent, UserConsistent;
    var r, u := st.reserve, st.users[a.user];
    StepSoundIff(s, st, a);
    match a {
      case Deposit(_, amount, at) => DepositPrices(s, r, amount, at);
      case Withdraw(_, amount, at) => WithdrawPrices(s, r, u, amount, at);
      case Borrow(_, amount, mode, at, seenAt) =>
        BorrowSeenAtOnce(s, r, u, amount, mode, at);
        BorrowPrices(s, r, u, amount, mode, at);
      case Repay(_, _, _, _, _, _) => RepayPrices(s, st, a);
      case Swap(_, _, _) => SwapPrices(s, st, a);
      case SetUseAsCollateral(_, _) =>
    }
  }

  // ---------- what the users can claim ----------

  /** What all users together can claim: their scaled balances, read at the index. */
  ghost function Claims(st: State): int {
    RayMul(SumOf(st.users, ScaledClaimOf), st.reserve.liquidityIndex)
  }

  /** The claims exceed the liquidity of the reserve by no more than an allowance. */
  ghost predicate SolventWithin(st: State, allowance: real) {
    Claims(st) as real <= st.reserve.totalLiquidity as real + allowance
  }

  /** All depositors in one record. */
  function Depositors(scaled: int): UserReserveData {
    UserReserveData(scaled, 0, 0, 0, 0, 0, 0, 0, 0, false, 0)
  }

  lemma ClaimsNonNegative(st: State)
    requires Sound(st)
    ensures 0 <= SumOf(st.users, ScaledClaimOf)
  {
    hide Consistent;
    SumNonNegative(st.users, ScaledClaimOf);
  }

  // ---------- one period ----------

  /** What an allowance has grown to after a period, with the rounding of that period. */
  ghost function Grown(r: ReserveData, scaledClaim: int, now: int, allowance: real): real
    requires Indexed(r, now) && r.totalStableDebtLastUpdated <= r.lastUpdateTimestamp
  {
    allowance * (LinearInterest(r.liquidityRate, now, r.lastUpdateTimestamp) as real / RAY as real)
    + PeriodSlack(r, scaledClaim, now) as real / SOLVENCY_UNIT as real
  }

  lemma InUnits(claim: int, backing: int, slack: int, grown: int)
    requires SOLVENCY_UNIT * claim
      <= SOLVENCY_UNIT * backing + slack + 2 * RAY * WAD_RAY_RATIO * ONE_YEAR * grown
    ensures claim as real <= backing as real + (slack as real / SOLVENCY_UNIT as real + grown as real / RAY as real)
  {
    assert grown as real / RAY as real == (2 * RAY * WAD_RAY_RATIO * ONE_YEAR * grown) as real / SOLVENCY_UNIT as real;
    assert SOLVENCY_UNIT as real * (claim as real - backing as real)
      <= slack as real + (2 * RAY * WAD_RAY_RATIO * ONE_YEAR * grown) as real;
  }

  lemma GrownExcess(linear: int, excess: int, allowance: real)
    requires linear >= 0 && excess as real <= allowance
    ensures (linear * excess) as real / RAY as real <= allowance * (linear as real / RAY as real)
  {
    assert linear as real * (allowance - excess as real) >= 0.0;
    assert (linear * excess) as real == linear as real * excess as real;
    assert allowance * (linear as real / RAY as real) == (linear as real * allowance) / RAY as real;
  }

  lemma SettledFacts(s: Strategy, st: State)
    requires s.Valid() && Settled(s, st)
    ensures Consistent(st.reserve) && T.AddsUp(st.reserve)
    ensures st.reserve.totalStableDebtLastUpdated <= st.reserve.lastUpdateTimestamp
    ensures RAY <= st.reserve.liquidityIndex && RAY <= st.reserve.variableBorrowIndex
  {
    hide RayMul, RatesAt, UtilizationRate, UserConsistent, TotalStableDebt;
  }

  /**
    Solvency at any moment after a settled state: if the claims were within an allowance of the
    liquidity, then what users can claim at that moment is within the grown allowance of the cash and
    the debts that an update would accrue.
   */
  lemma PeriodKeepsSolvency(s: Strategy, st: State, now: int, allowance: real)
    requires s.Valid() && Settled(s, st) && SolventWithin(st, allowance) && st.reserve.lastUpdateTimestamp <= now
    ensures Indexed(st.reserve, now)
    ensures var scaled, d := SumOf(st.users, ScaledClaimOf), Accrued(st.reserve, now);
      RayMul(scaled, d.liquidityIndex) as real
      <= (d.availableLiquidity + d.totalStableDebt + d.totalVariableDebt) as real + Grown(st.reserve, scaled, now, allowance)
  {
    hide RayMul, LinearInterest, LiquidityIndex, VariableBorrowIndex, TotalStableDebt, PeriodSlack, Priced, Dated,
         UserConsistent, NormalizedIncome, Consistent, SumOf;
    var r := st.reserve;
    var scaled := SumOf(st.users, ScaledClaimOf);
    var depositors := Depositors(scaled);
    SettledFacts(s, st);
    ClaimsNonNegative(st);
    ClaimAtOnce(r, depositors);
    var excess := RayMul(scaled, r.liquidityIndex) - r.totalLiquidity;
    AccrualKeepsSolvency(s, r, depositors, excess, now);
    IncomeViewIsIndex(r, now);
    var linear := LinearInterest(r.liquidityRate, now, r.lastUpdateTimestamp);
    LinearMonotone(r.liquidityRate, r.liquidityRate, now, now, r.lastUpdateTimestamp);
    var d := Accrued(r, now);
    InUnits(RayMul(scaled, d.liquidityIndex), d.availableLiquidity + d.totalStableDebt + d.totalVariableDebt,
            PeriodSlack(r, scaled, now), linear * excess);
    GrownExcess(linear, excess, allowance);
  }

  // ---------- one action ----------

  /** Twice the rounding, in rays, of the one balance that the action scales, if it does. */
  function Rounded(r: ReserveData, a: Action): int
    requires !a.SetUseAsCollateral?
  {
    match a
    case Deposit(_, _, at) => 2 * RAY + LiquidityIndex(r, at)
    case Withdraw(_, _, at) => 2 * RAY + LiquidityIndex(r, at)
    case Borrow(_, _, mode, at, _) => if mode == Variable then 2 * RAY + VariableBorrowIndex(r, at) else 0
    case Repay(_, _, mode, _, at, _) => if mode == Variable then 2 * RAY + VariableBorrowIndex(r, at) else 0
    case Swap(_, _, at) => 2 * RAY + VariableBorrowIndex(r, at)
  }

  /** Stable debt that a repay writes off because the pool's average rate would turn negative. */
  function Forgiven(st: State, a: Action): int
    requires a.user in st.users
  {
    if a.Repay? && a.mode == Stable then
      var r, u := st.reserve, st.users[a.user];
      var total, repaid := Accrued(r, a.at).totalStableDebt, RepaidAmount(r, u, Stable, a.amount, a.at);
      var (kept, _) := PoolWithout(r.averageStableBorrowRate, total, repaid, u.stableBorrowRate);
      if total < repaid then 0 else total - repaid - kept
    else 0
  }

  /** When a repay writes debt off, and how much of it at most. */
  lemma ForgivenIff(st: State, a: Action)
    requires Enabled(st, a) && a.Repay? && a.mode == Stable
    ensures var r, u := st.reserve, st.users[a.user];
      var total, repaid := Accrued(r, a.at).totalStableDebt, RepaidAmount(r, u, Stable, a.amount, a.at);
      && 0 <= Forgiven(st, a)
      && (Forgiven(st, a) > 0
          <==> (repaid < total && r.averageStableBorrowRate * total + (total - repaid) <= u.stableBorrowRate * repaid))
      && (Forgiven(st, a) > 0 ==>
            (r.averageStableBorrowRate + 1) * Forgiven(st, a) <= (u.stableBorrowRate - r.averageStableBorrowRate) * repaid)
  {
    hide RayMul, LiquidityIndex, VariableBorrowIndex, TotalStableDebt, PoolWithout, StableBalance, RepaidAmount;
    var r, u := st.reserve, st.users[a.user];
    var total, repaid := Accrued(r, a.at).totalStableDebt, RepaidAmount(r, u, Stable, a.amount, a.at);
    PoolWithoutNonNegative(r.averageStableBorrowRate, total, repaid, u.stableBorrowRate);
    if repaid <= total {
      PoolKeepsLeftoverIff(r.averageStableBorrowRate, total, repaid, u.stableBorrowRate);
      if Forgiven(st, a) > 0 {
        ErasedLeftoverBound(r.averageStableBorrowRate, total, repaid, u.stableBorrowRate);
      }
    }
  }

  /** By how much an action changes the scaled balances. */
  function ScaledAdded(st: State, a: Action): int
    requires a.user in st.users && LiquidityIndex(st.reserve, if a.SetUseAsCollateral? then 0 else a.at) != 0
  {
    match a
    case Deposit(_, amount, at) => RayDiv(amount, LiquidityIndex(st.reserve, at))
    case Withdraw(_, amount, at) =>
      -RayDiv(WithdrawnAmount(st.reserve, st.users[a.user], amount, at), LiquidityIndex(st.reserve, at))
    case _ => 0
  }

  lemma UserClaimChange(s: Strategy, st: State, a: Action)
    requires s.Valid() && Enabled(st, a) && !a.SetUseAsCollateral?
    ensures RAY <= LiquidityIndex(st.reserve, a.at)
    ensures StepUser(s, st, a).scaledLTokenBalance == st.users[a.user].scaledLTokenBalance + ScaledAdded(st, a)
  {
    hide RayMul, RayDiv, LiquidityIndex, VariableBorrowIndex, StableDebtTokenBalance, VariableDebtTokenBalance,
         RepaidAmount, WithdrawnAmount, LTokenBalance, NormalizedDebt, NormalizedIncome, Consistent, UserConsistent,
         StepReserve, UserStableRate;
    StepIndexes(s, st, a);
    StepIndexesAtLeastRay(s, st, a);
    RayDivZero(LiquidityIndex(st.reserve, a.at));
  }

  lemma ClaimChange(s: Strategy, st: State, a: Action)
    requires s.Valid() && Enabled(st, a) && !a.SetUseAsCollateral?
    ensures RAY <= LiquidityIndex(st.reserve, a.at)
    ensures SumOf(Step(s, st, a).users, ScaledClaimOf) == SumOf(st.users, ScaledClaimOf) + ScaledAdded(st, a)
  {
    hide LiquidityIndex, StepUser, StepReserve, Enabled, ScaledAdded;
    SoundUsers(st, a);
    UserClaimChange(s, st, a);
    SumUpdate(st.users, ScaledClaimOf, a.user, StepUser(s, st, a));
  }

  /** Cash and accrued debts at the time of an action. */
  function Backing(r: ReserveData, t: int): int {
    var d := Accrued(r, t);
    d.availableLiquidity + d.totalStableDebt + d.totalVariableDebt
  }

  /** What an action brings into the reserve for its depositors: a deposit, or less a withdrawal. */
  function Contributed(st: State, a: Action): int
    requires a.user in st.users
  {
    match a
    case Deposit(_, amount, _) => amount
    case Withdraw(_, amount, at) => -WithdrawnAmount(st.reserve, st.users[a.user], amount, at)
    case _ => 0
  }

  /** The claims change by what is contributed, up to one rounded balance. */
  lemma ClaimsFollow(s: Strategy, st: State, a: Action)
    requires s.Valid() && Enabled(st, a) && !a.SetUseAsCollateral?
    ensures var accrued := RayMul(SumOf(st.users, ScaledClaimOf), LiquidityIndex(st.reserve, a.at));
      var rounded := if a.Deposit? || a.Withdraw? then Rounded(st.reserve, a) else 0;
      2 * RAY * Claims(Step(s, st, a)) <= 2 * RAY * (accrued + Contributed(st, a)) + rounded
  {
    hide RayMul, RayDiv, LiquidityIndex, VariableBorrowIndex, StepUser, StepReserve, Enabled, WithdrawnAmount, SumOf;
    var scaled, index := SumOf(st.users, ScaledClaimOf), LiquidityIndex(st.reserve, a.at);
    SoundUsers(st, a);
    StepIndexes(s, st, a);
    ClaimChange(s, st, a);
    ClaimsNonNegative(st);
    if a.Deposit? {
      DepositNonNegative(st, a);
      ScaledPlus(a.amount, scaled, index);
    } else if a.Withdraw? {
      var taken := WithdrawnAmount(st.reserve, st.users[a.user], a.amount, a.at);
      WithdrawWithinClaims(st, a);
      ScaledMinus(taken, scaled, index);
    }
  }

  lemma DepositNonNegative(st: State, a: Action)
    requires Enabled(st, a) && a.Deposit?
    ensures 0 <= a.amount
  {
  }

  lemma WithdrawWithinClaims(st: State, a: Action)
    requires Enabled(st, a) && a.Withdraw?
    ensures var taken := WithdrawnAmount(st.reserve, st.users[a.user], a.amount, a.at);
      && RAY <= LiquidityIndex(st.reserve, a.at) && 0 <= taken
      && RayDiv(taken, LiquidityIndex(st.reserve, a.at)) <= SumOf(st.users, ScaledClaimOf)
  {
    hide RayMul, RayDiv, LiquidityIndex, LTokenBalance, WithdrawnAmount, Consistent, SumOf;
    WithdrawCover(st.reserve, st.users[a.user], WithdrawnAmount(st.reserve, st.users[a.user], a.amount, a.at), a.at);
    MemberAtMostSum(st.users, ScaledClaimOf, a.user);
  }

  /** The liquidity follows the accrued backing: nothing but contributions, rounding and forgiven debt changes it. */
  lemma LiquidityFollows(s: Strategy, st: State, a: Action)
    requires s.Valid() && Settled(s, st) && Enabled(st, a) && Covered(st, a) && Settles(st.reserve, a)
    requires !a.SetUseAsCollateral?
    ensures var rounded := if a.Deposit? || a.Withdraw? then 0 else Rounded(st.reserve, a);
      2 * RAY * (Backing(st.reserve, a.at) + Contributed(st, a))
      <= 2 * RAY * (StepReserve(s, st, a).totalLiquidity + Forgiven(st, a)) + rounded
  {
    hide Backing, Forgiven, Rounded, StepReserve, Settled, Settles, Covered, Enabled, Contributed;
    SettledFacts(s, st);
    match a {
      case Deposit(_, _, _) => DepositLiquidity(s, st, a);
      case Withdraw(_, _, _) => WithdrawLiquidity(s, st, a);
      case Borrow(_, _, _, _, _) => BorrowLiquidity(s, st, a);
      case Repay(_, _, _, _, _, _) => RepayLiquidity(s, st, a);
      case Swap(_, _, _) => SwapLiquidity(s, st, a);
    }
  }

  lemma DepositLiquidity(s: Strategy, st: State, a: Action)
    requires s.Valid() && T.AddsUp(st.reserve) && Enabled(st, a) && Settles(st.reserve, a) && a.Deposit?
    ensures Backing(st.reserve, a.at) + Contributed(st, a) == StepReserve(s, st, a).totalLiquidity + Forgiven(st, a)
  {
    hide RayMul, LiquidityIndex, VariableBorrowIndex, TotalStableDebt, RatesAt, UtilizationRate, Consistent, UserConsistent;
  }

  lemma WithdrawLiquidity(s: Strategy, st: State, a: Action)
    requires s.Valid() && Enabled(st, a) && a.Withdraw?
    ensures Backing(st.reserve, a.at) + Contributed(st, a) == StepReserve(s, st, a).totalLiquidity + Forgiven(st, a)
  {
    hide RayMul, LiquidityIndex, VariableBorrowIndex, TotalStableDebt, RatesAt, UtilizationRate, Consistent, UserConsistent,
         LTokenBalance, WithdrawnAmount;
  }

  lemma BorrowLiquidity(s: Strategy, st: State, a: Action)
    requires s.Valid() && Enabled(st, a) && Settles(st.reserve, a) && a.Borrow?
    ensures 2 * RAY * (Backing(st.reserve, a.at) + Contributed(st, a))
      <= 2 * RAY * (StepReserve(s, st, a).totalLiquidity + Forgiven(st, a)) + Rounded(st.reserve, a)
  {
    hide RayMul, RayDiv, LiquidityIndex, VariableBorrowIndex, TotalStableDebt, StableDebtTokenBalance, RatesAt,
         UtilizationRate, AverageStableBorrowRate, UserConsistent, ReserveAfterBorrow, Consistent;
    var r, u := st.reserve, st.users[a.user];
    BorrowSeenAtOnce(s, r, u, a.amount, a.mode, a.at);
    if a.mode == Variable {
      EnabledFacts(st, a);
      ReserveFacts(r, a.at);
      BalanceIsTotalHere(r, a.at);
      ScaledPlus(a.amount, r.scaledVariableDebt, VariableBorrowIndex(r, a.at));
    }
  }

  lemma ReserveFacts(r: ReserveData, t: int)
    requires Consistent(r) && r.lastUpdateTimestamp <= t
    ensures RAY <= VariableBorrowIndex(r, t) && 0 <= r.scaledVariableDebt
  {
    hide VariableBorrowIndex;
    IndexesGrow(r, t);
  }

  lemma RepayLiquidity(s: Strategy, st: State, a: Action)
    requires s.Valid() && Enabled(st, a) && Covered(st, a) && Settles(st.reserve, a) && a.Repay?
    ensures 2 * RAY * (Backing(st.reserve, a.at) + Contributed(st, a))
      <= 2 * RAY * (StepReserve(s, st, a).totalLiquidity + Forgiven(st, a)) + Rounded(st.reserve, a)
  {
    hide RayMul, RayDiv, LiquidityIndex, VariableBorrowIndex, TotalStableDebt, RatesAt, UtilizationRate, PoolWithout,
         StableBalance, VariableDebtTokenBalance, RepaidAmount, Consistent, UserConsistent;
    var r, u := st.reserve, st.users[a.user];
    var repaid := RepaidAmount(r, u, a.mode, a.amount, a.at);
    EnabledFacts(st, a);
    ReserveFacts(r, a.at);
    if a.mode == Stable {
      PoolWithoutNonNegative(r.averageStableBorrowRate, Accrued(r, a.at).totalStableDebt, repaid, u.stableBorrowRate);
    } else {
      ScaledMinus(repaid, r.scaledVariableDebt, VariableBorrowIndex(r, a.at));
    }
  }

  lemma SwapLiquidity(s: Strategy, st: State, a: Action)
    requires s.Valid() && Enabled(st, a) && Covered(st, a) && a.Swap?
    ensures 2 * RAY * (Backing(st.reserve, a.at) + Contributed(st, a))
      <= 2 * RAY * (StepReserve(s, st, a).totalLiquidity + Forgiven(st, a)) + Rounded(st.reserve, a)
  {
    hide RayMul, RayDiv, LiquidityIndex, VariableBorrowIndex, TotalStableDebt, RatesAt, UtilizationRate, PoolCovers,
         StableBalance, VariableDebtTokenBalance, AverageStableBorrowRate, Consistent, UserConsistent;
    var r, u := st.reserve, st.users[a.user];
    EnabledFacts(st, a);
    ReserveFacts(r, a.at);
    if a.mode == Stable {
      ScaledPlus(StableBalance(u, a.at), r.scaledVariableDebt, VariableBorrowIndex(r, a.at));
    } else {
      ScaledMinus(VariableDebtTokenBalance(r, u, a.at), r.scaledVariableDebt, VariableBorrowIndex(r, a.at));
    }
  }

  /** The allowance after an action: grown since the last one, plus the rounding and the debt it forgives. */
  ghost function NextAllowance(st: State, a: Action, allowance: real): real
    requires Enabled(st, a)
  {
    EnabledIndexed(st, a);
    if a.SetUseAsCollateral? then allowance
    else
      Grown(st.reserve, SumOf(st.users, ScaledClaimOf), a.at, allowance)
      + Rounded(st.reserve, a) as real / (2 * RAY) as real + Forgiven(st, a) as real
  }

  lemma EnabledIndexed(st: State, a: Action)
    requires Enabled(st, a)
    ensures a.user in st.users
    ensures !a.SetUseAsCollateral? ==>
      Indexed(st.reserve, a.at) && st.reserve.totalStableDebtLastUpdated <= st.reserve.lastUpdateTimestamp
  {
    hide UserConsistent, StableBalance, VariableDebtTokenBalance, LTokenBalance, RepaidAmount, WithdrawnAmount;
  }

  /** One action keeps the claims within the next allowance. */
  lemma StepKeepsSolvency(s: Strategy, st: State, a: Action, allowance: real)
    requires s.Valid() && Settled(s, st) && Enabled(st, a) && Covered(st, a) && Settles(st.reserve, a)
    requires SolventWithin(st, allowance)
    ensures SolventWithin(Step(s, st, a), NextAllowance(st, a, allowance))
  {
    if a.SetUseAsCollateral? {
      hide Settled, Enabled, Covered, SumOf, RayMul, StepReserve, StepUser;
      SoundUsers(st, a);
      CollateralKeepsClaims(s, st, a);
    } else {
      hide Settled, Enabled, Covered, Settles, SumOf, RayMul, StepReserve, StepUser, Grown, Rounded, Forgiven, Contributed,
           LiquidityIndex, VariableBorrowIndex, TotalStableDebt;
      SoundUsers(st, a);
      EnabledFacts(st, a);
      PeriodKeepsSolvency(s, st, a.at, allowance);
      ClaimsFollow(s, st, a);
      LiquidityFollows(s, st, a);
      InRays(Claims(Step(s, st, a)), StepReserve(s, st, a).totalLiquidity,
             RayMul(SumOf(st.users, ScaledClaimOf), LiquidityIndex(st.reserve, a.at)), Backing(st.reserve, a.at),
             Contributed(st, a), Rounded(st.reserve, a), Forgiven(st, a));
    }
  }

  lemma InRays(claims: int, liquidity: int, accrued: int, backing: int, contributed: int, rounded: int, forgiven: int)
    requires 2 * RAY * claims - 2 * RAY * liquidity
      <= 2 * RAY * (accrued + contributed) - 2 * RAY * (backing + contributed) + rounded + 2 * RAY * forgiven
    ensures claims as real - liquidity as real
      <= accrued as real - backing as real + rounded as real / (2 * RAY) as real + forgiven as real
  {
    var gap := claims - liquidity - accrued + backing - forgiven;
    assert 2 * RAY * gap <= rounded;
    assert (2 * RAY) as real * gap as real <= rounded as real;
  }

  lemma CollateralKeepsClaims(s: Strategy, st: State, a: Action)
    requires s.Valid() && Enabled(st, a) && a.SetUseAsCollateral?
    ensures Claims(Step(s, st, a)) == Claims(st) && StepReserve(s, st, a) == st.reserve
  {
    hide SumOf, RayMul, Consistent, UserConsistent;
    SumUpdate(st.users, ScaledClaimOf, a.user, StepUser(s, st, a));
  }

  // ---------- runs ----------

  /** Every action of the run settles the reserve in the state it meets. */
  ghost predicate SettlingRun(s: Strategy, st: State, actions: seq<Action>)
    requires s.Valid()
    decreases |actions|
  {
    actions == []
    || (&& Enabled(st, actions[0]) && Covered(st, actions[0]) && Settles(st.reserve, actions[0])
        && SettlingRun(s, Step(s, st, actions[0]), actions[1..]))
  }

  /** The allowance accumulated along a run. */
  ghost function RunAllowance(s: Strategy, st: State, actions: seq<Action>, allowance: real): real
    requires s.Valid() && SettlingRun(s, st, actions)
    decreases |actions|
  {
    if actions == [] then allowance
    else RunAllowance(s, Step(s, st, actions[0]), actions[1..], NextAllowance(st, actions[0], allowance))
  }

  /** Solvency along every such run: the claims of all users stay within the accumulated allowance of the liquidity. */
  lemma {:induction false} RunStaysSolvent(s: Strategy, st: State, actions: seq<Action>, allowance: real)
    requires s.Valid() && Settled(s, st) && SolventWithin(st, allowance) && SettlingRun(s, st, actions)
    ensures Runnable(s, st, actions)
    ensures Settled(s, Run(s, st, actions))
    ensures SolventWithin(Run(s, st, actions), RunAllowance(s, st, actions, allowance))
    decreases |actions|
  {
    hide Enabled, Covered, Settles, Settled, SolventWithin, StepReserve, StepUser, NextAllowance;
    if actions != [] {
      var next := Step(s, st, actions[0]);
      StepSettles(s, st, actions[0]);
      StepKeepsSolvency(s, st, actions[0], allowance);
      RunStaysSolvent(s, next, actions[1..], NextAllowance(st, actions[0], allowance));
    }
  }

  /** And at any moment after the run, what users can claim is covered by the cash and the debts accrued until then. */
  lemma ClaimsCoveredAfterRun(s: Strategy, st: State, actions: seq<Action>, allowance: real, now: int)
    requires s.Valid() && Settled(s, st) && SolventWithin(st, allowance) && SettlingRun(s, st, actions)
    ensures Runnable(s, st, actions)
    ensures var end := Run(s, st, actions);
      end.reserve.lastUpdateTimestamp <= now ==>
        var scaled, d := SumOf(end.users, ScaledClaimOf), Accrued(end.reserve, now);
        && Indexed(end.reserve, now) && end.reserve.totalStableDebtLastUpdated <= end.reserve.lastUpdateTimestamp
        && RayMul(scaled, d.liquidityIndex) as real
           <= (d.availableLiquidity + d.totalStableDebt + d.totalVariableDebt) as real
              + Grown(end.reserve, scaled, now, RunAllowance(s, st, actions, allowance))
  {
    hide Settled, SolventWithin, Run, Runnable, RunAllowance, Grown, SumOf, RayMul, Accrued;
    RunStaysSolvent(s, st, actions, allowance);
    var end := Run(s, st, actions);
    SettledFacts(s, end);
    if end.reserve.lastUpdateTimestamp <= now {
      PeriodKeepsSolvency(s, end, now, RunAllowance(s, st, actions, allowance));
    }
  }

  /** Every action of the run is requested, prompt, sole and settling in the state it meets. */
  ghost predicate SettlingRequests(s: Strategy, st: State, actions: seq<Action>)
    requires s.Valid()
    decreases |actions|
  {
    actions == []
    || (&& Requested(st, actions[0]) && SoleVariableBorrower(st, actions[0]) && Prompt(actions[0])
        && Settles(st.reserve, actions[0])
        && (Enabled(st, actions[0]) ==> SettlingRequests(s, Step(s, st, actions[0]), actions[1..])))
  }

  /** While the debts match, such requests can all be taken, and take no more scaled debt off than there is. */
  lemma {:induction false} RequestsSettle(s: Strategy, st: State, actions: seq<Action>)
    requires s.Valid() && Sound(st) && DebtMatches(st) && SettlingRequests(s, st, actions)
    ensures SettlingRun(s, st, actions)
    decreases |actions|
  {
    hide StepReserve, StepUser, Enabled, Requested, Sound, DebtMatches, Covered, Settles, Prompt, SoleVariableBorrower;
    if actions != [] {
      RequestedIsCovered(st, actions[0]);
      StepSoundIff(s, st, actions[0]);
      PromptKeepsDebts(st, actions[0]);
      StepConservesDebtIff(s, st, actions[0]);
      RequestsSettle(s, Step(s, st, actions[0]), actions[1..]);
    }
  }

  /**
    Solvency from the guards alone: from a settled state whose debts match, the claims of all users stay
    within the accumulated allowance along every run of such requests, and the debts still match.
   */
  lemma RequestsStaySolvent(s: Strategy, st: State, actions: seq<Action>, allowance: real)
    requires s.Valid() && Settled(s, st) && DebtMatches(st) && SolventWithin(st, allowance)
    requires SettlingRequests(s, st, actions)
    ensures SettlingRun(s, st, actions) && Runnable(s, st, actions)
    ensures Settled(s, Run(s, st, actions))
    ensures SolventWithin(Run(s, st, actions), RunAllowance(s, st, actions, allowance))
  {
    hide Sound, Priced, Dated, SolventWithin, SettlingRun, Runnable, RunAllowance, Run;
    RequestsSettle(s, st, actions);
    RunStaysSolvent(s, st, actions, allowance);
  }

  // ---------- the situation occurs ----------

  /** A strategy with positive slopes and a tenth of the income kept back. */
  const SAMPLE_STRATEGY := Strategy(9 * (RAY / 10), 0, RAY / 25, 3 * (RAY / 5), RAY / 50, 3 * (RAY / 5), 1_000)

  const CASH := 10 * D.LARGE_LOAN

  const LOAN := 4 * D.LARGE_LOAN

  /** A depositor holds all the claims. */
  function Depositor(claims: nat): UserReserveData {
    D.PlainUser(0, 0).(scaledLTokenBalance := claims, currentLTokenBalance := claims)
  }

  /** A reserve of cash only, that lends at a stable rate of ten percent. */
  function SampleReserve(cash: nat): ReserveData {
    D.PlainReserve(cash, 0, 0).(stableBorrowRate := D.YEARLY_RATE)
  }

  function SampleState(cash: nat): State {
    State(SampleReserve(cash), map["first" := D.PlainUser(0, 0), "second" := Depositor(cash)])
  }

  lemma UnusedRates()
    ensures SAMPLE_STRATEGY.Valid()
    ensures var rates := RatesAt(SAMPLE_STRATEGY, 0, 0, 0, 0, 0);
      rates.liquidityRate == 0 && rates.variableBorrowRate == 0
  {
    hide KinkedRate, LiquidityRate;
    KinkValues(0, RAY / 25, 3 * (RAY / 5), 9 * (RAY / 10));
    LiquidityRateAtMostOverall(SAMPLE_STRATEGY, 0, 0);
  }

  lemma SampleReserveSettled(cash: nat)
    ensures SAMPLE_STRATEGY.Valid()
    ensures Priced(SAMPLE_STRATEGY, SampleReserve(cash)) && Dated(SampleReserve(cash)) && Consistent(SampleReserve(cash))
  {
    hide RayMul, RatesAt, CompoundedInterest;
    UnusedRates();
    RayMulZero(RAY);
    RayMulZero(CompoundedInterest(0, 1, 1));
  }

  lemma SampleFacts(cash: nat)
    ensures var st := SampleState(cash);
      && "first" in st.users && st.reserve == SampleReserve(cash)
      && Claims(st) == cash == st.reserve.totalLiquidity && SolventWithin(st, 0.0)
    ensures SAMPLE_STRATEGY.Valid() && Settled(SAMPLE_STRATEGY, SampleState(cash))
  {
    hide Priced, Dated, UtilizationRate, Consistent, RayMul;
    SampleReserveSettled(cash);
    var users := map["first" := D.PlainUser(0, 0), "second" := Depositor(cash)];
    SumPick(users, ScaledClaimOf, "first");
    SumPick(users - {"first"}, ScaledClaimOf, "second");
    assert users - {"first"} - {"second"} == map[];
    RayMulByRay(cash);
  }

  /** What the first borrow leaves: forty percent is lent out, depositors earn, and the debt grows within a second. */
  lemma SampleBorrowed()
    ensures LOAN <= CASH
    ensures Consistent(SampleReserve(CASH))
    ensures var b := BorrowedStable(SampleReserve(CASH), LOAN, 1);
      && b.totalStableDebt == LOAN == b.principalStableDebt && b.totalVariableDebt == 0
      && b.averageStableBorrowRate == D.YEARLY_RATE && b.availableLiquidity == CASH - LOAN
  {
    hide RayMul, CompoundedInterest, VariableBorrowIndex, LiquidityIndex, TruncDiv, Consistent;
    SampleReserveSettled(CASH);
    RayMulZero(CompoundedInterest(0, 1, 1));
    RayMulZero(VariableBorrowIndex(SampleReserve(CASH), 1));
    QuotientUnique(D.YEARLY_RATE * LOAN, LOAN, D.YEARLY_RATE);
  }

  lemma SampleUtilization()
    ensures UtilizationRate(LOAN, 0, CASH) == 2 * (RAY / 5)
  {
    hide TruncDiv;
    QuotientUnique(CASH, 2, 5 * D.LARGE_LOAN);
    QuotientUnique(5 * D.LARGE_LOAN + LOAN * RAY, CASH, 2 * (RAY / 5));
  }

  lemma SampleOverallRate(variableRate: int)
    ensures OverallBorrowRate(LOAN, 0, variableRate, D.YEARLY_RATE) == D.YEARLY_RATE
  {
    hide TruncDiv;
    var total := WadToRay(LOAN);
    QuotientUnique(HALF_RAY, RAY, 0);
    QuotientUnique(HALF_RAY + total * D.YEARLY_RATE, RAY, total / 10);
    QuotientUnique(total, 2, total / 2);
    QuotientUnique(total / 2 + (total / 10) * RAY, total, D.YEARLY_RATE);
  }

  lemma SampleLiquidityRate()
    ensures LiquidityRate(SAMPLE_STRATEGY, D.YEARLY_RATE, 2 * (RAY / 5)) == 9 * (RAY / 250)
  {
    hide RayMul, PercentMul;
    SamplePaid();
    SampleLendersPart();
  }

  lemma SamplePaid()
    ensures RayMul(D.YEARLY_RATE, 2 * (RAY / 5)) == RAY / 25
  {
    QuotientUnique(HALF_RAY + D.YEARLY_RATE * (2 * (RAY / 5)), RAY, RAY / 25);
  }

  lemma SampleLendersPart()
    ensures PercentMul(RAY / 25, 9_000) == 9 * (RAY / 250)
  {
    QuotientUnique(HALF_PERCENTAGE + RAY / 25 * 9_000, PERCENTAGE_FACTOR, 9 * (RAY / 250));
  }

  lemma SampleDebtGrows()
    ensures TotalStableDebt(LOAN, D.YEARLY_RATE, 1, 2) == LOAN + 13
  {
    hide CompoundedInterest;
    D.OneSecondFactor();
    QuotientUnique(HALF_RAY + (RAY + 3_170_979_198_376_458_650) * LOAN, RAY, LOAN + 13);
  }

  /** The state between the two borrows. */
  lemma SampleAfterBorrow()
    ensures var st, a := SampleState(CASH), Borrow("first", LOAN, Stable, 1, 1);
      && SAMPLE_STRATEGY.Valid() && Enabled(st, a)
      && var r := StepReserve(SAMPLE_STRATEGY, st, a);
         && r.liquidityRate == 9 * (RAY / 250) && r.availableLiquidity == CASH - LOAN && r.lastUpdateTimestamp == 1
         && r.totalStableDebt == LOAN && Accrued(r, 2).totalStableDebt == LOAN + 13
  {
    hide Sound, Enabled, StepUser, ReserveAfterBorrow, Claims, SampleReserve, UtilizationRate, Priced, Dated, BorrowedStable,
         Consistent, LiquidityIndex, VariableBorrowIndex, TotalStableDebt;
    var st, a := SampleState(CASH), Borrow("first", LOAN, Stable, 1, 1);
    SampleFacts(CASH);
    SampleReserveFields(CASH);
    SoundBorrowEnabled(st, "first", LOAN, 1);
    BorrowStep(SAMPLE_STRATEGY, st, a);
    SampleReserveAfter(st.users["first"]) by {
      CanBorrowEnabled(st, a);
    }
    SampleDebtGrows();
  }

  lemma SampleReserveFields(cash: nat)
    ensures var r := SampleReserve(cash);
      r.availableLiquidity == cash && r.lastUpdateTimestamp == 1 && r.marketStableRate == 0
  {
    hide UtilizationRate;
  }

  lemma CanBorrowEnabled(st: State, a: Action)
    requires Enabled(st, a) && a.Borrow?
    ensures CanBorrow(st.reserve, st.users[a.user], a.amount, a.at, a.seenAt)
  {
    hide CanBorrow;
  }

  lemma SampleReserveAfter(u: UserReserveData)
    requires SAMPLE_STRATEGY.Valid() && CanBorrow(SampleReserve(CASH), u, LOAN, 1, 1)
    ensures var r := ReserveAfterBorrow(SAMPLE_STRATEGY, SampleReserve(CASH), u, LOAN, Stable, 1, 1);
      && r.liquidityRate == 9 * (RAY / 250) && r.availableLiquidity == CASH - LOAN && r.lastUpdateTimestamp == 1
      && r.totalStableDebt == LOAN && r.principalStableDebt == LOAN && r.averageStableBorrowRate == D.YEARLY_RATE
      && r.totalStableDebtLastUpdated == 1
  {
    hide UtilizationRate, OverallBorrowRate, LiquidityRate, SampleReserve, Consistent, UserConsistent, RayMul,
         AverageStableBorrowRate, TotalStableDebt, LiquidityIndex, VariableBorrowIndex, KinkedRate;
    SampleBorrowed();
    SampleReserveFields(CASH);
    BorrowSeenAtOnce(SAMPLE_STRATEGY, SampleReserve(CASH), u, LOAN, Stable, 1);
    BorrowedStableFacts(SampleReserve(CASH), LOAN, 1);
    SampleUtilization();
    SampleOverallRate(VariableRate(SAMPLE_STRATEGY, 2 * (RAY / 5)));
    SampleLiquidityRate();
  }

  /** What the solvency theorem assumes of a state and a run. */
  ghost predicate SolvencyApplies(s: Strategy, st: State, actions: seq<Action>, allowance: real) {
    s.Valid() && Settled(s, st) && SolventWithin(st, allowance) && SettlingRun(s, st, actions)
  }

  /**
    Ten billion units of cash, of which a user borrows four at the stable rate and, a second later, one
    unit more: every assumption is met, and interest accrues to depositors and on the debt in between.
   */
  lemma SolvencyAppliesToARun()
    ensures SolvencyApplies(SAMPLE_STRATEGY, SampleState(CASH),
                            [Borrow("first", LOAN, Stable, 1, 1), Borrow("first", 1, Stable, 2, 2)], 0.0)
    ensures var st, a := SampleState(CASH), Borrow("first", LOAN, Stable, 1, 1);
      && SAMPLE_STRATEGY.Valid() && Enabled(st, a)
      && var mid := Step(SAMPLE_STRATEGY, st, a).reserve;
         mid.liquidityRate > 0 && Accrued(mid, 2).totalStableDebt == mid.totalStableDebt + 13
  {
    hide Settled, Sound, Enabled, Covered, StepReserve, StepUser, SampleState, Accrued, SolventWithin;
    var st := SampleState(CASH);
    var a, b := Borrow("first", LOAN, Stable, 1, 1), Borrow("first", 1, Stable, 2, 2);
    SampleFacts(CASH);
    SampleAfterBorrow();
    var mid := Step(SAMPLE_STRATEGY, st, a);
    OthersAreCovered(st, a);
    StepSoundIff(SAMPLE_STRATEGY, st, a);
    SoundBorrowEnabled(mid, "first", 1, 2);
    OthersAreCovered(mid, b);
    SettlingRunOfTwo(SAMPLE_STRATEGY, st, a, b);
  }

  lemma SettlingRunOfTwo(s: Strategy, st: State, a: Action, b: Action)
    requires s.Valid() && Enabled(st, a) && Covered(st, a) && Settles(st.reserve, a)
    requires var mid := Step(s, st, a); Enabled(mid, b) && Covered(mid, b) && Settles(mid.reserve, b)
    ensures SettlingRun(s, st, [a, b])
  {
    hide Enabled, Covered, Settles, StepReserve, StepUser;
    var mid := Step(s, st, a);
    assert SettlingRun(s, Step(s, mid, b), [b][1..]);
    assert [a, b][1..] == [b];
  }

  lemma SoundBorrowEnabled(st: State, user: string, amount: nat, t: int)
    requires Sound(st) && user in st.users && st.reserve.lastUpdateTimestamp <= t
    requires 0 < amount <= st.reserve.availableLiquidity
    ensures Enabled(st, Borrow(user, amount, Stable, t, t))
  {
    hide Consistent, UserConsistent;
  }
}
