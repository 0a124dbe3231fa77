/**
  Where the calculations do not keep what one would expect of them, each with the exact condition
  under which they do, and with a state in which they do not.
 */
module Discrepancies {
  import opened RayMath
  import opened Interest
  import opened Rates
  import opened Reserve
  import opened StableDebt
  import opened Actions
  import opened Ledger
  import opened Runs
  import opened Totals

  // ---------- stable debt of a user who does something else ----------

  /** Scaling by a factor of at least one ray tells principals apart. */
  lemma BalanceTellsPrincipal(u: UserReserveData, principal: int, t: int)
    requires u.stableBorrowRate >= 0 && t >= u.stableRateLastUpdated
    requires u.principalStableDebt >= 0 && principal >= 0
    ensures StableBalance(u.(principalStableDebt := principal), t) == StableBalance(u, t)
      <==> principal == u.principalStableDebt
  {
    hide RayMul, CompoundedInterest;
    var factor := CompoundedInterest(u.stableBorrowRate, t, u.stableRateLastUpdated);
    CompoundedMonotone(u.stableBorrowRate, u.stableBorrowRate, t, t, u.stableRateLastUpdated);
    ScalingRoundTrip(u.principalStableDebt, factor);
    ScalingRoundTrip(principal, factor);
  }

  /** A balance is read from three fields only. */
  lemma SameStableFields(u: UserReserveData, v: UserReserveData, t: int)
    requires v.stableBorrowRate == u.stableBorrowRate && v.stableRateLastUpdated == u.stableRateLastUpdated
    ensures StableBalance(v, t) == StableBalance(u.(principalStableDebt := v.principalStableDebt), t)
  {
  }

  /** A deposit leaves the user's stable debt alone if and only if their variable debt happens to equal its principal. */
  lemma DepositKeepsStableDebtIff(s: Strategy, st: State, user: string, amount: int, t: int)
    requires s.Valid() && Enabled(st, Deposit(user, amount, t))
    ensures var after := Step(s, st, Deposit(user, amount, t)).users[user];
      StableBalance(after, t) == StableBalance(st.users[user], t)
      <==> VariableDebtTokenBalance(st.reserve, st.users[user], t) == st.users[user].principalStableDebt
  {
    hide RayMul, RayDiv, StableBalance, VariableDebtTokenBalance, LTokenBalance, StepReserve;
    var a := Deposit(user, amount, t);
    var u := st.users[user];
    StepIndexesAtLeastRay(s, st, a);
    UserBalances(st.reserve, u, t);
    SameStableFields(u, StepUser(s, st, a), t);
    BalanceTellsPrincipal(u, VariableDebtTokenBalance(st.reserve, u, t), t);
  }

  /** A variable repay leaves the user's stable debt alone if and only if no interest accrued on it: the principal is rebased, its date is not. */
  lemma VariableRepayKeepsStableDebtIff(s: Strategy, st: State, a: Action)
    requires s.Valid() && Enabled(st, a) && a.Repay? && a.mode == Variable
    ensures var u, after := st.users[a.user], Step(s, st, a).users[a.user];
      StableBalance(after, a.seenAt) == StableBalance(u, a.seenAt)
      <==> StableBalance(u, a.seenAt) == u.principalStableDebt
  {
    hide RayMul, RayDiv, StableBalance, VariableDebtTokenBalance, LTokenBalance, StepReserve, RepaidAmount, RepayDefined;
    var u := st.users[a.user];
    StepIndexesAtLeastRay(s, st, a);
    UserBalances(st.reserve, u, a.seenAt);
    SameStableFields(u, StepUser(s, st, a), a.seenAt);
    BalanceTellsPrincipal(u, StableBalance(u, a.seenAt), a.seenAt);
  }

  /** A swap to stable takes over all the user owes if and only if their recorded stable debt is up to date. */
  lemma SwapToStableKeepsDebtIff(s: Strategy, st: State, user: string, t: int)
    requires s.Valid() && Enabled(st, Swap(user, Variable, t))
    ensures var u, after := st.users[user], Step(s, st, Swap(user, Variable, t)).users[user];
      StableBalance(after, t) + VariableDebtTokenBalance(Step(s, st, Swap(user, Variable, t)).reserve, after, t)
      == StableBalance(u, t) + VariableDebtTokenBalance(st.reserve, u, t)
      <==> u.currentStableDebt == StableBalance(u, t)
  {
    hide RayMul, RayDiv, StepReserve, NormalizedDebt, NormalizedIncome, UserStableRate, CompoundedInterest;
    var a := Swap(user, Variable, t);
    StepIndexesAtLeastRay(s, st, a);
    StepDefined(st, a);
    var r := StepReserve(s, st, a);
    RayMulZero(NormalizedDebt(r.variableBorrowRate, r.variableBorrowIndex, r.lastUpdateTimestamp, t));
  }

  // ---------- states in which they fail ----------

  const PLAIN_STRATEGY := Strategy(HALF_RAY, 0, 0, 0, 0, 0, 0)

  /** A balanced reserve at time 1 with both indexes at one ray and no rates. */
  function PlainReserve(available: nat, stable: nat, variable: nat): ReserveData {
    ReserveData(
      available + stable + variable, available, stable, variable, stable, variable,
      0, 0, 0, UtilizationRate(stable, variable, available + stable + variable), RAY, RAY, 0, 1, 1, 0)
  }

  lemma PlainReserveConsistent(available: nat, stable: nat, variable: nat)
    ensures Consistent(PlainReserve(available, stable, variable))
  {
    hide UtilizationRate;
    UtilizationNonNegative(stable, variable, available + stable + variable);
  }

  /** A user with ten units in the wallet. */
  function PlainUser(stable: nat, scaledVariable: nat): UserReserveData {
    UserReserveData(0, 0, stable, scaledVariable, stable, scaledVariable, 0, 0, 1, false, 10)
  }

  function PlainState(available: nat, stable: nat, u1: UserReserveData, u2: UserReserveData): State
    requires u1.scaledVariableDebt >= 0 && u2.scaledVariableDebt >= 0
  {
    State(PlainReserve(available, stable, u1.scaledVariableDebt + u2.scaledVariableDebt), map["first" := u1, "second" := u2])
  }

  lemma PlainSum(u1: UserReserveData, u2: UserReserveData)
    ensures SumOf(map["first" := u1, "second" := u2], ScaledDebtOf) == u1.scaledVariableDebt + u2.scaledVariableDebt
  {
    var users := map["first" := u1, "second" := u2];
    SumPick(users, ScaledDebtOf, "first");
    SumPick(users - {"first"}, ScaledDebtOf, "second");
    assert users - {"first"} - {"second"} == map[];
  }

  lemma PlainStateSound(available: nat, stable: nat, u1: UserReserveData, u2: UserReserveData)
    requires UserConsistent(u1, 1) && UserConsistent(u2, 1)
    ensures Sound(PlainState(available, stable, u1, u2))
  {
    hide UtilizationRate, Consistent, UserConsistent;
    NonNegativeDebts(u1, u2);
    PlainReserveConsistent(available, stable, u1.scaledVariableDebt + u2.scaledVariableDebt);
  }

  lemma NonNegativeDebts(u1: UserReserveData, u2: UserReserveData)
    requires UserConsistent(u1, 1) && UserConsistent(u2, 1)
    ensures 0 <= u1.scaledVariableDebt && 0 <= u2.scaledVariableDebt
  {
  }

  // ---------- variable debt that outgrows the reserve's ----------

  /** A sound state at time 1 whose variable index is still one ray. */
  predicate AtOneRay(st: State) {
    Sound(st) && st.reserve.lastUpdateTimestamp == 1 && st.reserve.variableBorrowIndex == RAY
  }

  lemma DebtsAtOneRay(st: State, u: UserReserveData)
    requires AtOneRay(st) && 0 <= u.scaledVariableDebt
    ensures VariableBorrowIndex(st.reserve, 1) == RAY
    ensures VariableDebtTokenBalance(st.reserve, u, 1) == u.scaledVariableDebt
  {
    hide RayMul, VariableBorrowIndex, NormalizedDebt, UserConsistent;
    IndexesAtOnce(st.reserve);
    RayMulByRay(u.scaledVariableDebt);
  }

  lemma RayDivByRay(a: nat)
    ensures RayDiv(a, RAY) == a
  {
    QuotientUnique(HALF_RAY + a * RAY, RAY, a);
  }

  lemma BorrowAtOneRay(st: State, user: string, amount: nat)
    requires AtOneRay(st) && user in st.users && 0 < amount <= st.reserve.availableLiquidity
    ensures var a := Borrow(user, amount, Variable, 1, 1);
      && PLAIN_STRATEGY.Valid() && Enabled(st, a)
      && var next := Step(PLAIN_STRATEGY, st, a);
         && AtOneRay(next)
         && next.reserve.scaledVariableDebt == st.reserve.scaledVariableDebt + amount
         && next.users[user].scaledVariableDebt == st.reserve.scaledVariableDebt + amount
         && next.reserve.availableLiquidity == st.reserve.availableLiquidity - amount
         && next.users[user].walletBalance == st.users[user].walletBalance + amount
  {
    hide StepReserve, StepUser, Consistent, UserConsistent, VariableBorrowIndex, RayDiv, Covered;
    var a := Borrow(user, amount, Variable, 1, 1);
    DebtsAtOneRay(st, PlainUser(0, 0));
    OthersAreCovered(st, a);
    StepSoundIff(PLAIN_STRATEGY, st, a);
    StepIndexes(PLAIN_STRATEGY, st, a);
    ReserveDebtChange(PLAIN_STRATEGY, st, a);
    UserDebtChange(PLAIN_STRATEGY, st, a);
    ReserveCashChange(PLAIN_STRATEGY, st, a);
    UserCashChange(PLAIN_STRATEGY, st, a);
    RayDivByRay(amount);
  }

  lemma NegativeByRay(n: int)
    requires n < 0
    ensures RayMul(n, RAY) == n + 1
  {
    QuotientUnique(-(HALF_RAY + n * RAY), RAY, -(n + 1));
  }

  lemma RepayAtOneRayDefined(st: State, amount: nat)
    requires AtOneRay(st) && 0 < st.reserve.availableLiquidity
    ensures RepayDefined(st.reserve, amount, 1)
  {
    hide RayMul, RayDiv, VariableBorrowIndex, LiquidityIndex, TotalStableDebt, UserConsistent;
    DebtsAtOneRay(st, PlainUser(0, 0));
    RayDivByRay(amount);
    var left := st.reserve.scaledVariableDebt - amount;
    if left < 0 {
      NegativeByRay(left);
    } else {
      RayMulByRay(left);
    }
  }

  lemma RepayAtOneRay(st: State, user: string, amount: nat)
    requires AtOneRay(st) && user in st.users && 0 < st.reserve.availableLiquidity
    requires amount <= st.users[user].scaledVariableDebt && amount <= st.users[user].walletBalance < MAX_UINT_AMOUNT
    ensures var a := Repay(user, amount, Variable, true, 1, 1);
      && PLAIN_STRATEGY.Valid() && Enabled(st, a)
      && var next := Step(PLAIN_STRATEGY, st, a);
         && (amount <= st.reserve.scaledVariableDebt <==> AtOneRay(next))
         && next.reserve.scaledVariableDebt == st.reserve.scaledVariableDebt - amount
         && next.users[user].scaledVariableDebt == st.users[user].scaledVariableDebt - amount
         && next.reserve.availableLiquidity == st.reserve.availableLiquidity + amount
  {
    hide StepReserve, StepUser, Consistent, UserConsistent, VariableBorrowIndex, RayDiv, RepayDefined,
         VariableDebtTokenBalance;
    var a := Repay(user, amount, Variable, true, 1, 1);
    assert Enabled(st, a) by {
      UserDebtNonNegative(st, user);
      DebtsAtOneRay(st, st.users[user]);
      RepayAtOneRayDefined(st, amount);
    }
    DebtsAtOneRay(st, PlainUser(0, 0));
    StepSoundIff(PLAIN_STRATEGY, st, a);
    StepIndexes(PLAIN_STRATEGY, st, a);
    ReserveDebtChange(PLAIN_STRATEGY, st, a);
    UserDebtChange(PLAIN_STRATEGY, st, a);
    ReserveCashChange(PLAIN_STRATEGY, st, a);
    RayDivByRay(amount);
  }

  lemma UserDebtNonNegative(st: State, user: string)
    requires Sound(st) && user in st.users
    ensures 0 <= st.users[user].scaledVariableDebt
  {
    hide Consistent;
  }

  /** Two users owe one unit each; when the first borrows another, the debts no longer add up. */
  lemma VariableBorrowBreaksDebt(cash: nat)
    requires 0 < cash
    ensures var st := PlainState(cash, 0, PlainUser(0, 1), PlainUser(0, 1));
      var a := Borrow("first", 1, Variable, 1, 1);
      PLAIN_STRATEGY.Valid() && Enabled(st, a) && DebtMatches(st) && !DebtMatches(Step(PLAIN_STRATEGY, st, a))
  {
    hide Sound, Enabled, Step, PlainReserve;
    var st := PlainState(cash, 0, PlainUser(0, 1), PlainUser(0, 1));
    PlainStateAtOneRay(cash);
    PlainSum(PlainUser(0, 1), PlainUser(0, 1));
    BorrowAtOneRay(st, "first", 1);
    StepConservesDebtIff(PLAIN_STRATEGY, st, Borrow("first", 1, Variable, 1, 1));
  }

  lemma PlainStateAtOneRay(cash: nat)
    ensures var st := PlainState(cash, 0, PlainUser(0, 1), PlainUser(0, 1));
      && AtOneRay(st) && st.reserve.availableLiquidity == cash && st.reserve.scaledVariableDebt == 2
  {
    hide Sound;
    PlainStateSound(cash, 0, PlainUser(0, 1), PlainUser(0, 1));
  }

  /**
    After that borrow the second user repays; the first now owes three units while the reserve records
    two, so that repaying no more than the debt leaves the reserve with a negative scaled debt.
   */
  lemma RepayWithinDebtTurnsReserveNegative(cash: nat)
    requires 1 < cash
    ensures var st := PlainState(cash, 0, PlainUser(0, 1), PlainUser(0, 1));
      var actions := [Borrow("first", 1, Variable, 1, 1), Repay("second", 1, Variable, true, 1, 1),
                      Repay("first", 3, Variable, true, 1, 1)];
      && PLAIN_STRATEGY.Valid() && DebtMatches(st) && Runnable(PLAIN_STRATEGY, st, actions)
      && Run(PLAIN_STRATEGY, st, actions).reserve.scaledVariableDebt == -1
      && !Sound(Run(PLAIN_STRATEGY, st, actions))
  {
    hide Sound, Enabled, StepReserve, StepUser, PlainReserve;
    var st := PlainState(cash, 0, PlainUser(0, 1), PlainUser(0, 1));
    var a0, a1, a2 := Borrow("first", 1, Variable, 1, 1), Repay("second", 1, Variable, true, 1, 1),
      Repay("first", 3, Variable, true, 1, 1);
    PlainStateAtOneRay(cash);
    PlainSum(PlainUser(0, 1), PlainUser(0, 1));
    BorrowAtOneRay(st, "first", 1);
    var st1 := Step(PLAIN_STRATEGY, st, a0);
    RepayAtOneRay(st1, "second", 1);
    var st2 := Step(PLAIN_STRATEGY, st1, a1);
    assert st2.users["first"] == st1.users["first"];
    RepayAtOneRay(st2, "first", 3);
    var st3 := Step(PLAIN_STRATEGY, st2, a2);
    NegativeIsUnsound(st3, "first");
    RunOfThree(st, a0, a1, a2);
  }

  lemma RunOfThree(st: State, a0: Action, a1: Action, a2: Action)
    requires PLAIN_STRATEGY.Valid() && Enabled(st, a0)
    requires Enabled(Step(PLAIN_STRATEGY, st, a0), a1)
    requires Enabled(Step(PLAIN_STRATEGY, Step(PLAIN_STRATEGY, st, a0), a1), a2)
    ensures Runnable(PLAIN_STRATEGY, st, [a0, a1, a2])
    ensures Run(PLAIN_STRATEGY, st, [a0, a1, a2])
      == Step(PLAIN_STRATEGY, Step(PLAIN_STRATEGY, Step(PLAIN_STRATEGY, st, a0), a1), a2)
  {
    hide Enabled, StepReserve, StepUser;
    var st1 := Step(PLAIN_STRATEGY, st, a0);
    var st2 := Step(PLAIN_STRATEGY, st1, a1);
    var st3 := Step(PLAIN_STRATEGY, st2, a2);
    assert Runnable(PLAIN_STRATEGY, st3, []) && Run(PLAIN_STRATEGY, st3, []) == st3;
    assert [a0, a1, a2][1..] == [a1, a2] && [a1, a2][1..] == [a2] && [a2][1..] == [];
    assert Runnable(PLAIN_STRATEGY, st2, [a2]) && Run(PLAIN_STRATEGY, st2, [a2]) == st3;
    assert Runnable(PLAIN_STRATEGY, st1, [a1, a2]) && Run(PLAIN_STRATEGY, st1, [a1, a2]) == st3;
  }

  // ---------- stable debt that is dropped or charged twice ----------

  lemma SoundDepositEnabled(st: State, user: string, amount: nat, t: int)
    requires Sound(st) && user in st.users && st.reserve.lastUpdateTimestamp <= t
    requires amount <= st.users[user].walletBalance
    ensures Enabled(st, Deposit(user, amount, t))
  {
    hide Consistent, UserConsistent;
  }

  /** A user with a stable debt of five and no variable debt no longer owes it after a deposit. */
  lemma DepositForgetsStableDebt()
    ensures var st := PlainState(10, 5, PlainUser(5, 0), PlainUser(0, 0));
      var a := Deposit("first", 1, 1);
      && PLAIN_STRATEGY.Valid() && Enabled(st, a)
      && StableBalance(Step(PLAIN_STRATEGY, st, a).users["first"], 1) != StableBalance(st.users["first"], 1)
  {
    hide Step, VariableDebtTokenBalance, StableBalance, Sound, Enabled, UtilizationRate;
    var st := PlainState(10, 5, PlainUser(5, 0), PlainUser(0, 0));
    PlainStateSound(10, 5, PlainUser(5, 0), PlainUser(0, 0));
    SoundDepositEnabled(st, "first", 1, 1);
    PlainVariableDebt(st.reserve, PlainUser(5, 0), 1);
    DepositKeepsStableDebtIff(PLAIN_STRATEGY, st, "first", 1, 1);
  }

  /** Ten percent a year. */
  const YEARLY_RATE := RAY / 10

  const LARGE_LOAN := 1_000_000_000

  /** A user with a large stable loan, taken at time 1 for ten percent a year. */
  function GrowingUser(scaledVariable: nat): UserReserveData {
    PlainUser(LARGE_LOAN, scaledVariable).(stableBorrowRate := YEARLY_RATE)
  }

  lemma OneSecondFactor()
    ensures CompoundedInterest(YEARLY_RATE, 2, 1) == RAY + 3_170_979_198_376_458_650
  {
    hide CompoundedInterest;
    QuotientUnique(YEARLY_RATE, ONE_YEAR, 3_170_979_198_376_458_650);
    CompoundedIsFactor(YEARLY_RATE, 2, 1);
    ShortFactors(3_170_979_198_376_458_650);
  }

  lemma LoanGrows(u: UserReserveData)
    requires u.principalStableDebt == LARGE_LOAN && u.stableBorrowRate == YEARLY_RATE && u.stableRateLastUpdated == 1
    ensures StableBalance(u, 2) == LARGE_LOAN + 3
  {
    hide CompoundedInterest;
    OneSecondFactor();
    QuotientUnique(HALF_RAY + LARGE_LOAN * (RAY + 3_170_979_198_376_458_650), RAY, LARGE_LOAN + 3);
  }

  lemma PlainVariableDebt(r: ReserveData, u: UserReserveData, t: int)
    requires r.variableBorrowRate == 0 && r.variableBorrowIndex == RAY && u.scaledVariableDebt >= 0
    ensures VariableDebtTokenBalance(r, u, t) == u.scaledVariableDebt
  {
    hide RayMul;
    RayMulByRay(u.scaledVariableDebt);
  }

  /** Owing one unit of variable debt beside the stable loan, a second later. */
  lemma GrowingState()
    ensures var st := PlainState(10, LARGE_LOAN, GrowingUser(1), PlainUser(0, 0));
      && Sound(st) && DebtMatches(st)
      && st.reserve.lastUpdateTimestamp == 1
      && VariableDebtTokenBalance(st.reserve, st.users["first"], 2) == 1
      && StableBalance(st.users["first"], 2) == LARGE_LOAN + 3
  {
    hide Sound, UtilizationRate, VariableDebtTokenBalance, StableBalance;
    var st := PlainState(10, LARGE_LOAN, GrowingUser(1), PlainUser(0, 0));
    PlainStateSound(10, LARGE_LOAN, GrowingUser(1), PlainUser(0, 0));
    PlainSum(GrowingUser(1), PlainUser(0, 0));
    PlainVariableDebt(st.reserve, st.users["first"], 2);
    LoanGrows(st.users["first"]);
  }

  /** Repaying variable debt a second later charges the same second of stable interest twice. */
  lemma VariableRepayChargesTwice()
    ensures var st := PlainState(10, LARGE_LOAN, GrowingUser(1), PlainUser(0, 0));
      var a := Repay("first", 1, Variable, true, 2, 2);
      && PLAIN_STRATEGY.Valid() && Enabled(st, a)
      && StableBalance(Step(PLAIN_STRATEGY, st, a).users["first"], 2) != StableBalance(st.users["first"], 2)
  {
    hide Sound, Enabled, Covered, Step, VariableDebtTokenBalance, StableBalance, DebtMatches, UtilizationRate;
    var st := PlainState(10, LARGE_LOAN, GrowingUser(1), PlainUser(0, 0));
    GrowingState();
    RequestedIsCovered(st, Repay("first", 1, Variable, true, 2, 2));
    VariableRepayKeepsStableDebtIff(PLAIN_STRATEGY, st, Repay("first", 1, Variable, true, 2, 2));
  }

  /** Swapping variable debt to stable a second after the last record forgets that second of stable interest. */
  lemma SwapToStableForgetsInterest()
    ensures var st := PlainState(10, LARGE_LOAN, GrowingUser(1), PlainUser(0, 0));
      var a := Swap("first", Variable, 2);
      && PLAIN_STRATEGY.Valid() && Enabled(st, a)
      && Step(PLAIN_STRATEGY, st, a).users["first"].principalStableDebt
         != StableBalance(st.users["first"], 2) + VariableDebtTokenBalance(st.reserve, st.users["first"], 2)
  {
    hide Sound, Enabled, Covered, StepReserve, VariableDebtTokenBalance, StableBalance, DebtMatches, UtilizationRate,
         UserStableRate, LTokenBalance;
    var st := PlainState(10, LARGE_LOAN, GrowingUser(1), PlainUser(0, 0));
    GrowingState();
    RequestedIsCovered(st, Swap("first", Variable, 2));
    StepDefined(st, Swap("first", Variable, 2));
    StepIndexesAtLeastRay(PLAIN_STRATEGY, st, Swap("first", Variable, 2));
  }

  // ---------- a deposit onto accrued interest ----------

  /** A deposit onto accrued interest can push the recorded utilization beyond one ray. */
  lemma DepositOverstatesUtilization()
    ensures var r := PlainReserve(0, LARGE_LOAN, 0).(averageStableBorrowRate := YEARLY_RATE);
      PLAIN_STRATEGY.Valid() && CanDeposit(r, 1, 2) && ReserveAfterDeposit(PLAIN_STRATEGY, r, 1, 2).utilizationRate > RAY
  {
    hide UtilizationRate, Consistent, RayMul, CompoundedInterest, ReserveAfterDeposit;
    var r := PlainReserve(0, LARGE_LOAN, 0).(averageStableBorrowRate := YEARLY_RATE);
    assert Consistent(r) by {
      LentOutReserveConsistent();
    }
    DepositUtilizationIff(PLAIN_STRATEGY, r, 1, 2);
    LoanGrows(GrowingUser(0));
    BalanceIsTotal(LARGE_LOAN, YEARLY_RATE, 1, 2);
    RayMulZero(VariableBorrowIndex(r, 2));
  }

  lemma LentOutReserveConsistent()
    ensures Consistent(PlainReserve(0, LARGE_LOAN, 0).(averageStableBorrowRate := YEARLY_RATE))
  {
    hide UtilizationRate;
    UtilizationNonNegative(LARGE_LOAN, 0, LARGE_LOAN);
  }

  // ---------- a repay that is looked at later than it happened ----------

  /** All variable debt is owed by one user, at ten percent a year, with as much again in their wallet. */
  function IndebtedState(cash: nat): State {
    State(PlainReserve(cash, 0, LARGE_LOAN).(variableBorrowRate := YEARLY_RATE),
          map["first" := PlainUser(0, LARGE_LOAN).(walletBalance := 2 * LARGE_LOAN)])
  }

  lemma IndebtedSound(cash: nat)
    ensures var st := IndebtedState(cash);
      && Sound(st) && "first" in st.users && st.reserve.lastUpdateTimestamp == 1
      && st.reserve.scaledVariableDebt == LARGE_LOAN == st.users["first"].scaledVariableDebt
      && st.users["first"].walletBalance == 2 * LARGE_LOAN
  {
    hide UtilizationRate;
    UtilizationNonNegative(0, LARGE_LOAN, cash + LARGE_LOAN);
  }

  lemma IndebtedViews(cash: nat)
    ensures var st := IndebtedState(cash);
      && VariableBorrowIndex(st.reserve, 1) == RAY
      && VariableDebtTokenBalance(st.reserve, st.users["first"], 1) == LARGE_LOAN
      && VariableDebtTokenBalance(st.reserve, st.users["first"], 2) == LARGE_LOAN + 3
  {
    hide CompoundedInterest, UtilizationRate;
    IndexesAtOnce(IndebtedState(cash).reserve);
    OneSecondFactor();
    RayMulByRay(LARGE_LOAN);
    RayMulByRay(RAY + 3_170_979_198_376_458_650);
    QuotientUnique(HALF_RAY + LARGE_LOAN * (RAY + 3_170_979_198_376_458_650), RAY, LARGE_LOAN + 3);
  }

  lemma FullRepayEnabled(st: State, user: string, at: int, seenAt: int)
    requires Sound(st) && user in st.users && st.reserve.lastUpdateTimestamp <= at <= seenAt
    requires st.users[user].scaledVariableDebt <= st.reserve.scaledVariableDebt
    requires VariableDebtTokenBalance(st.reserve, st.users[user], seenAt) <= st.users[user].walletBalance
    ensures Enabled(st, Repay(user, MAX_UINT_AMOUNT, Variable, true, at, seenAt))
  {
    hide Consistent, VariableDebtTokenBalance, VariableBorrowIndex, RepayDefined, RayDiv;
    FullDebtTakesAtLeast(st.reserve, st.users[user], at, at) by {
      SoundIndexed(st, at);
    }
    RequestedDebtIsCovered(st.reserve, st.users[user], at, VariableDebtTokenBalance(st.reserve, st.users[user], at));
  }

  lemma SoundIndexed(st: State, t: int)
    requires Sound(st) && st.reserve.lastUpdateTimestamp <= t
    ensures Indexed(st.reserve, t)
  {
    hide UserConsistent;
  }

  /** A repay of everything, looked at a second later, pays that second's interest too: three more than the user's scaled debt. */
  lemma FullRepaySeenLaterOverpays(cash: nat)
    ensures var st := IndebtedState(cash);
      var a := Repay("first", MAX_UINT_AMOUNT, Variable, true, 1, 2);
      && PLAIN_STRATEGY.Valid() && Enabled(st, a)
      && Step(PLAIN_STRATEGY, st, a).users["first"].scaledVariableDebt == -3
      && Step(PLAIN_STRATEGY, st, a).reserve.scaledVariableDebt == 0
  {
    hide Sound, Enabled, StepReserve, StepUser, VariableDebtTokenBalance, VariableBorrowIndex, RayDiv, IndebtedState;
    IndebtedSound(cash);
    IndebtedViews(cash);
    var st, a := IndebtedState(cash), Repay("first", MAX_UINT_AMOUNT, Variable, true, 1, 2);
    FullRepayEnabled(st, "first", 1, 2);
    ReserveDebtChange(PLAIN_STRATEGY, st, a);
    UserDebtChange(PLAIN_STRATEGY, st, a);
    RayDivByRay(LARGE_LOAN);
    RayDivByRay(LARGE_LOAN + 3);
  }
}
