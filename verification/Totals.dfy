/**
  When the reserve's totals add up and its utilization stays within one ray.
 */
module Totals {
  import opened RayMath
  import opened Rates
  import opened Reserve
  import opened StableDebt
  import opened Actions
  import opened Runs

  /** The total liquidity is the cash plus the debts. */
  predicate AddsUp(r: ReserveData) {
    r.totalLiquidity == r.availableLiquidity + r.totalStableDebt + r.totalVariableDebt
  }

  /** Besides, the utilization does not exceed one ray. */
  predicate InBalance(r: ReserveData) {
    AddsUp(r) && 0 <= r.utilizationRate <= RAY
  }

  lemma BalancedUtilization(r: ReserveData)
    requires 0 <= r.availableLiquidity && 0 <= r.totalStableDebt && 0 <= r.totalVariableDebt
    ensures Utilizable(Balanced(r)) && InBalance(Utilized(Balanced(r)))
  {
    hide UtilizationRate;
    var liquidity := r.availableLiquidity + r.totalStableDebt + r.totalVariableDebt;
    if liquidity > 0 {
      UtilizationAtMostRay(r.totalStableDebt, r.totalVariableDebt, liquidity);
    } else {
      EmptyUtilization();
    }
  }

  lemma EmptyUtilization()
    ensures UtilizationRate(0, 0, 0) == 0
  {
  }

  lemma RepricedInBalance(s: Strategy, r: ReserveData)
    requires s.Valid()
    requires 0 <= r.availableLiquidity && 0 <= r.totalStableDebt && 0 <= r.totalVariableDebt
    ensures Utilizable(Balanced(r)) && InBalance(Repriced(s, Balanced(r)))
  {
    hide RatesAt, UtilizationRate;
    BalancedUtilization(r);
  }

  /** Withdraw, borrow, repay and swap make the totals add up whatever state they start from. */
  lemma OtherStepsAddUp(s: Strategy, st: State, a: Action)
    requires s.Valid() && Enabled(st, a) && !a.Deposit? && !a.SetUseAsCollateral?
    ensures AddsUp(StepReserve(s, st, a))
  {
    hide RayMul, RayDiv, LiquidityIndex, VariableBorrowIndex, TotalStableDebt, RatesAt, UtilizationRate,
         AverageStableBorrowRate, StableDebtTokenBalance, VariableDebtTokenBalance, PoolWithout, PoolCovers,
         WithdrawnAmount, RepaidAmount, LTokenBalance, NormalizedDebt, UserConsistent, Consistent;
  }

  /** And unless they take more scaled debt off the reserve than it records, the utilization ends within one ray. */
  lemma OtherStepsRebalance(s: Strategy, st: State, a: Action)
    requires s.Valid() && Enabled(st, a) && !a.Deposit? && !a.SetUseAsCollateral?
    ensures AddsUp(StepReserve(s, st, a))
    ensures CoveredByReserve(st, a) ==> InBalance(StepReserve(s, st, a))
  {
    hide RayMul, RayDiv, LiquidityIndex, VariableBorrowIndex, TotalStableDebt, RatesAt, UtilizationRate,
         AverageStableBorrowRate, StableDebtTokenBalance, VariableDebtTokenBalance, PoolWithout, PoolCovers,
         WithdrawnAmount, RepaidAmount, LTokenBalance, NormalizedDebt, UserConsistent, ReserveAtBorrow, Repriced;
    OtherStepsAddUp(s, st, a);
    if CoveredByReserve(st, a) {
      var r, u := st.reserve, st.users[a.user];
      match a {
        case Withdraw(_, amount, at) =>
          var taken := WithdrawnAmount(r, u, amount, at);
          WithdrawnFacts(r, taken, at);
          RepricedInBalance(s, Withdrawn(r, taken, at));
        case Borrow(_, amount, mode, at, seenAt) =>
          DebtsSeenLater(s, r, u, amount, mode, at, seenAt);
          SeenInBalance(ReserveAtBorrow(s, r, u, amount, mode, at), seenAt);
        case Repay(_, _, _, _, _, _) =>
          RepayRebalances(s, st, a);
        case Swap(_, _, _) =>
          SwapRebalances(s, st, a);
      }
    }
  }

  lemma SeenInBalance(b: ReserveData, now: int)
    requires Consistent(b)
    requires 0 <= b.totalStableDebt <= Seen(b, now).totalStableDebt
    requires b.totalVariableDebt <= Seen(b, now).totalVariableDebt
    ensures Utilizable(Seen(b, now)) && InBalance(Utilized(Seen(b, now)))
  {
    hide RayMul, TotalStableDebt, NormalizedDebt, UtilizationRate;
    BalancedUtilization(Seen(b, now));
    assert Balanced(Seen(b, now)) == Seen(b, now);
  }

  lemma RepayRebalances(s: Strategy, st: State, a: Action)
    requires s.Valid() && Enabled(st, a) && a.Repay? && CoveredByReserve(st, a)
    ensures InBalance(StepReserve(s, st, a))
  {
    hide RayMul, RayDiv, LiquidityIndex, VariableBorrowIndex, TotalStableDebt, Repriced, PoolWithout,
         StableBalance, VariableDebtTokenBalance, RepaidAmount;
    var r, u := st.reserve, st.users[a.user];
    var repaid := RepaidAmount(r, u, a.mode, a.amount, a.at);
    match a.mode {
      case Stable =>
        RepaidStableFacts(r, repaid, u.stableBorrowRate, a.at);
        RepricedInBalance(s, RepaidStable(r, repaid, u.stableBorrowRate, a.at));
      case Variable =>
        RepaidVariableFacts(r, repaid, a.at);
        RepricedInBalance(s, RepaidVariable(r, repaid, a.at));
    }
  }

  lemma SwapRebalances(s: Strategy, st: State, a: Action)
    requires s.Valid() && Enabled(st, a) && a.Swap? && CoveredByReserve(st, a)
    ensures InBalance(StepReserve(s, st, a))
  {
    hide RayMul, RayDiv, LiquidityIndex, VariableBorrowIndex, TotalStableDebt, Repriced,
         AverageStableBorrowRate, StableBalance, VariableDebtTokenBalance, PoolCovers;
    var r, u := st.reserve, st.users[a.user];
    match a.mode {
      case Stable =>
        SwappedToVariableFacts(r, u, a.at);
        RepricedInBalance(s, SwappedToVariable(r, StableBalance(u, a.at), u.stableBorrowRate, a.at));
      case Variable =>
        var debt := VariableDebtTokenBalance(r, u, a.at);
        SwappedToStableFacts(r, debt, a.at);
        RepricedInBalance(s, SwappedToStable(r, debt, a.at));
    }
  }

  /** No interest on the debts since the last snapshot of the reserve. */
  predicate Quiet(r: ReserveData, t: int) {
    var d := Accrued(r, t);
    d.totalStableDebt + d.totalVariableDebt == r.totalStableDebt + r.totalVariableDebt
  }

  /** A deposit keeps the utilization within one ray exactly when the accrued debts are covered by the recorded liquidity. */
  lemma DepositUtilizationIff(s: Strategy, r: ReserveData, amount: int, t: int)
    requires s.Valid() && CanDeposit(r, amount, t) && 0 < r.totalLiquidity + amount
    ensures var d := Accrued(r, t);
      var liquidity := r.totalLiquidity + amount;
      ReserveAfterDeposit(s, r, amount, t).utilizationRate <= RAY
      <==> (d.totalStableDebt + d.totalVariableDebt - liquidity) * RAY < liquidity - liquidity / 2
  {
    hide RayMul, LiquidityIndex, VariableBorrowIndex, TotalStableDebt, UtilizationRate, RatesAt;
    var d := Accrued(r, t);
    AccrualFacts(r, t);
    DepositUtilizable(r, amount, t);
    UtilizationAtMostRay(d.totalStableDebt, d.totalVariableDebt, r.totalLiquidity + amount);
  }

  /**
    From a balanced reserve, a step makes the totals add up if and only if it is not a deposit onto
    accrued interest; a step that leaves a sound state then ends in balance.
   */
  lemma StepTotalsIff(s: Strategy, st: State, a: Action)
    requires s.Valid() && Enabled(st, a) && InBalance(st.reserve)
    ensures AddsUp(StepReserve(s, st, a)) <==> (a.Deposit? ==> Quiet(st.reserve, a.at))
    ensures CoveredByReserve(st, a) ==> (InBalance(StepReserve(s, st, a)) <==> (a.Deposit? ==> Quiet(st.reserve, a.at)))
  {
    hide Enabled, ReserveAfterDeposit, ReserveAfterWithdraw, ReserveAfterBorrow, ReserveAfterRepay, ReserveAfterSwap,
         Quiet, CoveredByReserve;
    if a.Deposit? {
      DepositEnabled(st, a);
      DepositTotals(s, st.reserve, a.amount, a.at);
    } else if a.SetUseAsCollateral? {
      CollateralMovesNothing(s, st, a);
    } else {
      OtherStepsRebalance(s, st, a);
    }
  }

  lemma DepositEnabled(st: State, a: Action)
    requires Enabled(st, a) && a.Deposit?
    ensures CanDeposit(st.reserve, a.amount, a.at)
  {
  }

  lemma DepositTotals(s: Strategy, r: ReserveData, amount: int, t: int)
    requires s.Valid() && CanDeposit(r, amount, t) && InBalance(r)
    ensures var after := ReserveAfterDeposit(s, r, amount, t);
      (AddsUp(after) <==> Quiet(r, t)) && (InBalance(after) <==> Quiet(r, t))
  {
    hide RayMul, LiquidityIndex, VariableBorrowIndex, TotalStableDebt, UtilizationRate, RatesAt;
    AccrualFacts(r, t);
    DepositUtilizable(r, amount, t);
    var moved := Deposited(r, amount, t);
    if Quiet(r, t) {
      assert Balanced(moved) == moved;
      BalancedUtilization(moved);
    }
  }

  /** Along the run, no deposit is made onto interest that accrued since the last snapshot. */
  ghost predicate QuietDeposits(s: Strategy, st: State, actions: seq<Action>)
    requires s.Valid() && Runnable(s, st, actions)
    decreases |actions|
  {
    actions == []
    || (&& (actions[0].Deposit? ==> Quiet(st.reserve, actions[0].at))
        && QuietDeposits(s, Step(s, st, actions[0]), actions[1..]))
  }

  /** Along every such run the totals add up, and the utilization stays within one ray in every sound state. */
  lemma {:induction false} RunStaysInBalance(s: Strategy, st: State, actions: seq<Action>)
    requires s.Valid() && Runnable(s, st, actions) && InBalance(st.reserve)
    requires QuietDeposits(s, st, actions)
    ensures AddsUp(Run(s, st, actions).reserve)
    ensures Sound(Run(s, st, actions)) ==> InBalance(Run(s, st, actions).reserve)
    decreases |actions|
  {
    hide Enabled, InBalance, StepReserve, StepUser, Quiet, Covered, CoveredByReserve, Sound;
    if actions == [] {
      BalanceAddsUp(st.reserve);
    } else {
      var next := Step(s, st, actions[0]);
      StepTotalsIff(s, st, actions[0]);
      StepSoundIff(s, st, actions[0]);
      if Covered(st, actions[0]) {
        CoveredBoth(st, actions[0]);
      }
      if |actions| == 1 {
        assert Run(s, next, actions[1..]) == next;
      } else {
        SoundUsers(next, actions[1..][0]);
        RunStaysInBalance(s, next, actions[1..]);
      }
    }
  }

  lemma BalanceAddsUp(r: ReserveData)
    requires InBalance(r)
    ensures AddsUp(r)
  {
  }

  /** Any other action makes the totals add up again, wherever it comes in a run, and a sound state is in balance again. */
  lemma RunEndsInBalance(s: Strategy, st: State, actions: seq<Action>)
    requires s.Valid() && Runnable(s, st, actions) && actions != []
    requires !actions[|actions| - 1].Deposit? && !actions[|actions| - 1].SetUseAsCollateral?
    ensures AddsUp(Run(s, st, actions).reserve)
    ensures Sound(Run(s, st, actions)) ==> InBalance(Run(s, st, actions).reserve)
  {
    hide Enabled, InBalance, StepReserve, StepUser, Covered, CoveredByReserve, Sound;
    var before := RunEndsSoundIff(s, st, actions);
    OtherStepsRebalance(s, before, actions[|actions| - 1]);
    if Covered(before, actions[|actions| - 1]) {
      CoveredBoth(before, actions[|actions| - 1]);
    }
  }
}
