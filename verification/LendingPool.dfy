/**
  One reserve with its users, updated in place by the actions.
 */
module LendingPool {
  import opened Rates
  import opened Reserve
  import opened Actions
  import opened Ledger
  import U = UserActions
  import opened Steps
  import R = Runs

  class LendingReserve {
    const strategy: Strategy
    var reserve: ReserveData
    var users: Users

    ghost predicate Valid()
      reads this
    {
      strategy.Valid() && R.Sound(State())
    }

    function State(): R.State
      reads this
    {
      R.State(reserve, users)
    }

    constructor (strategy: Strategy, reserve: ReserveData, users: Users)
      requires strategy.Valid() && R.Sound(R.State(reserve, users))
      ensures Valid() && State() == R.State(reserve, users) && this.strategy == strategy
    {
      this.strategy := strategy;
      this.reserve := reserve;
      this.users := users;
    }

    method Deposit(user: string, amount: int, txTimestamp: int)
      requires Valid() && R.Enabled(State(), R.Deposit(user, amount, txTimestamp))
      modifies this
      ensures Valid() && State() == R.Step(strategy, old(State()), R.Deposit(user, amount, txTimestamp))
    {
      hide Consistent, UserConsistent, R.Covered, ReserveAfterDeposit, CanDeposit, U.UserAfterDeposit;
      ghost var a := R.Deposit(user, amount, txTimestamp);
      R.OthersAreCovered(State(), a);
      R.StepSoundIff(strategy, State(), a);
      R.StepDefined(State(), a);
      R.StepIndexesAtLeastRay(strategy, State(), a);
      var before := users[user];
      var after := CalcReserveAfterDeposit(strategy, amount, reserve, txTimestamp);
      var userAfter := CalcUserAfterDeposit(amount, reserve, after, before, txTimestamp);
      reserve := after;
      users := users[user := userAfter];
    }

    method Withdraw(user: string, amount: int, txTimestamp: int)
      requires Valid() && R.Enabled(State(), R.Withdraw(user, amount, txTimestamp))
      modifies this
      ensures Valid() && State() == R.Step(strategy, old(State()), R.Withdraw(user, amount, txTimestamp))
    {
      hide Consistent, UserConsistent, R.Covered, ReserveAfterWithdraw, CanWithdraw, U.UserAfterWithdraw, LTokenBalance;
      ghost var a := R.Withdraw(user, amount, txTimestamp);
      R.OthersAreCovered(State(), a);
      R.StepSoundIff(strategy, State(), a);
      R.StepDefined(State(), a);
      R.StepIndexesAtLeastRay(strategy, State(), a);
      var before := users[user];
      var after := CalcReserveAfterWithdraw(strategy, amount, reserve, before, txTimestamp);
      var userAfter := CalcUserAfterWithdraw(amount, reserve, after, before, txTimestamp);
      reserve := after;
      users := users[user := userAfter];
    }

    method Borrow(user: string, amount: int, mode: RateMode, txTimestamp: int, currentTimestamp: int)
      requires Valid() && R.Enabled(State(), R.Borrow(user, amount, mode, txTimestamp, currentTimestamp))
      modifies this
      ensures Valid() && State() == R.Step(strategy, old(State()), R.Borrow(user, amount, mode, txTimestamp, currentTimestamp))
    {
      hide Consistent, UserConsistent, R.Covered, ReserveAfterBorrow, CanBorrow, U.UserAfterBorrow, StableBalance;
      ghost var a := R.Borrow(user, amount, mode, txTimestamp, currentTimestamp);
      R.OthersAreCovered(State(), a);
      R.StepSoundIff(strategy, State(), a);
      R.StepDefined(State(), a);
      R.StepIndexesAtLeastRay(strategy, State(), a);
      var before := users[user];
      var after := CalcReserveAfterBorrow(strategy, amount, mode, reserve, before, txTimestamp, currentTimestamp);
      var userAfter := CalcUserAfterBorrow(amount, mode, reserve, after, before, txTimestamp, currentTimestamp);
      reserve := after;
      users := users[user := userAfter];
    }

    method Repay(user: string, amount: int, mode: RateMode, ownRepay: bool, txTimestamp: int, currentTimestamp: int)
      requires Valid() && R.Enabled(State(), R.Repay(user, amount, mode, ownRepay, txTimestamp, currentTimestamp))
      modifies this
      ensures Valid() <==> old(R.Covered(State(), R.Repay(user, amount, mode, ownRepay, txTimestamp, currentTimestamp)))
      ensures State() == R.Step(strategy, old(State()), R.Repay(user, amount, mode, ownRepay, txTimestamp, currentTimestamp))
    {
      hide Consistent, UserConsistent, ReserveAfterRepay, CanRepay, U.UserAfterRepay, R.Covered, RepaidAmount;
      ghost var a := R.Repay(user, amount, mode, ownRepay, txTimestamp, currentTimestamp);
      R.StepSoundIff(strategy, State(), a);
      R.StepDefined(State(), a);
      R.StepIndexesAtLeastRay(strategy, State(), a);
      var before := users[user];
      var after := CalcReserveAfterRepay(strategy, amount, mode, reserve, before, txTimestamp);
      var userAfter := CalcUserAfterRepay(amount, mode, reserve, after, before, ownRepay, txTimestamp, currentTimestamp);
      reserve := after;
      users := users[user := userAfter];
    }

    method SwapRateMode(user: string, mode: RateMode, txTimestamp: int)
      requires Valid() && R.Enabled(State(), R.Swap(user, mode, txTimestamp))
      modifies this
      ensures Valid() <==> old(R.Covered(State(), R.Swap(user, mode, txTimestamp)))
      ensures State() == R.Step(strategy, old(State()), R.Swap(user, mode, txTimestamp))
    {
      hide Consistent, UserConsistent, ReserveAfterSwap, CanSwap, U.UserAfterSwap, StableBalance, VariableDebtTokenBalance, R.Covered;
      ghost var a := R.Swap(user, mode, txTimestamp);
      R.StepSoundIff(strategy, State(), a);
      R.StepDefined(State(), a);
      R.StepIndexesAtLeastRay(strategy, State(), a);
      var before := users[user];
      var after := CalcReserveAfterSwap(strategy, reserve, before, mode, txTimestamp);
      var userAfter := CalcUserAfterSwap(reserve, after, before, mode, txTimestamp);
      reserve := after;
      users := users[user := userAfter];
    }

    method SetUseAsCollateral(user: string, useAsCollateral: bool)
      requires Valid() && R.Enabled(State(), R.SetUseAsCollateral(user, useAsCollateral))
      modifies this
      ensures Valid() && State() == R.Step(strategy, old(State()), R.SetUseAsCollateral(user, useAsCollateral))
    {
      hide Consistent, R.Covered;
      R.OthersAreCovered(State(), R.SetUseAsCollateral(user, useAsCollateral));
      R.StepSoundIff(strategy, State(), R.SetUseAsCollateral(user, useAsCollateral));
      users := users[user := users[user].(usageAsCollateralEnabled := useAsCollateral)];
    }
  }
}
