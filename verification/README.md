# Verification model of the lending reserve calculations

The repository describes an Aave-style lending reserve through a calculation model: given the
reserve record and a user record before a transaction, it computes both records afterwards, in
fixed-point ray arithmetic, and every on-chain result is compared with that. This project models
these calculations in Dafny and proves what they promise, for single formulas, for single
transactions, and for every run of transactions. Two deployment helpers are modelled as well: the
linker that writes library addresses into bytecode, and the scripts that initialise and configure
the reserves of a market in batches.

## How it is organised

- `RayMath`, `Interest`, `Rates`, `Reserve`, `StableDebt`: the arithmetic helpers as functions, with
  their laws. `Compounding` relates the three-term polynomial to true compounding, over `real`;
  `Convexity` and `AverageLoss` explain the drift of the pooled stable debt and its average rate.
- `Backing`, `Drift`: the pool along runs of stable borrows and repays, without rounding. `Restart` is
  about compounding that starts anew, `DriftLimits` where the pool gets ahead, and `DriftRecords` ties
  the runs to the records of the calculations.
- `Actions`, `UserActions`: what each action makes of the two records. `Steps` has the same steps in
  the imperative form of the source, each proved to produce that record.
- `Ledger`, `Runs`: the reserve with all its users as a state machine, its invariants and what it
  conserves. `LendingPool` is the object that is updated in place.
- `Balances`, `Records`, `Totals`, `Exits`, `Solvency`, `RunSolvency`: what depositors and borrowers can
  rely on, and what each action leaves in the records.
- `Discrepancies`: where the calculations do not keep a promise, with a concrete state for each and
  the exact condition under which they do.
- `LinkBytecode`, `Chunk`, `InitReserves`, `ConfigureReserves`: the deployment helpers.

## Modelling decisions

- Numbers are integers and every division truncates toward zero, as the scenario suite configures
  it (test-suites/test-palmy/scenario.spec.ts:22-25); `TruncDiv` models this for negative
  numerators too.
- The strategy of a reserve is a parameter; the source looks it up by symbol
  (calculations.ts:1232-1237). `Strategy.Valid` states what the shipped strategies satisfy
  (markets/electrolend/rateStrategies.ts:6-25) and a reserve factor of at most 100%.
- Some steps leave timestamps, symbol and market rate unset, and the comparison skips those fields
  (test-suites/test-palmy/helpers/actions.ts:43-54). In a run the symbol and the market rate are
  carried, the reserve is dated at the transaction, and the pool's stable debt is dated whenever its
  principal is rebased. Addresses, decimals and the user's copy of the variable index are omitted.
- `Consistent` and `UserConsistent` state the standing conditions of the records. `Requested` states
  what the callers of an action see to: times that move on, non-negative amounts, no more than is in
  the wallet, available or owed, and for a swap out of the stable pool that its debt and weighted
  rate cover the user's. `Enabled` adds that the records are consistent and that a variable repay or
  a swap to stable does not divide by a liquidity of zero (`RepayDefined`, `SwapDefined`).
- No guard bounds a user's scaled variable debt by the reserve's. Whether an action takes off no more
  than the reserve and the user have (`Covered`) is proved where it follows, and is otherwise the condition
  of an equivalence.
- A borrow is priced, and a repay taken off the reserve, at its transaction; the user may be looked at
  later, and a repay is then charged at that moment (calculations.ts:687-733). All other actions are
  looked at at the transaction itself.
- Randomness, networks and contracts are parameters: which addresses are usable, what is recorded,
  which address the k-th deployment gets, which assets are already enabled.

## What the proofs bring to light

- A variable borrow adds to the reserve's scaled debt instead of the user's (calculations.ts:634):
  the sum over users survives exactly when the borrower owed all of it. Otherwise the users together
  owe more than the reserve records, and repays within their debts can drive the reserve's scaled
  debt below zero (lines 544-546).
- A deposit overwrites the user's stable principal with the variable debt (lines 76-81), and adds to
  a liquidity total without the interest accrued since (line 163), so that utilization can exceed one
  ray.
- A variable repay rebases the stable principal without dating it, and a swap to stable drops the
  interest accrued on an earlier stable debt (line 925).
- Removing a just-added loan of `a` from a pool of `D` can lower the average rate by more than
  1 + a/D. It never does exactly when `a mod D` is zero or divides `D`; 1 + ceil((a-1)/D) always holds.
- A full variable repay that is looked at later is charged later too, and the user ends with a negative
  scaled debt once the interest in between reaches half an index (lines 701-733). It is exact only below
  that.
- The leftover of the stable pool that a repay erases need not be small (lines 530-539).
- The pooled stable debt is below the sum of the borrowers' debts by convexity alone, before any
  rounding: whenever loans are taken and given back, if everybody is accrued at the same moments,
  nobody repays at too low a rate, and nobody adds too dear a loan to a cheap one. By their own dates
  the borrowers can owe less than the pool, because its compounding starts anew with every loan; along
  such runs it stays below true compounding.
- A further loan is merged with the borrower's earlier ones at the weighted rate (lines 605-626), which
  lowers what that borrower will owe but not what the pool will: at yearly rates of 3%, 25% and 110% the
  pool gets ahead of the borrowers together, with no repay at all.
- A repay at a rate below the average can leave the pool at a rate above that of every remaining
  borrower, and later ahead of what they owe.

## Model

| member | source | states |
|---|---|---|
| RayMath.RayMulBounds | test-suites/test-palmy/helpers/utils/math.ts:55-57 | ray multiplication is within half a ray of the exact product, never negative |
| RayMath.RayDivBounds | test-suites/test-palmy/helpers/utils/math.ts:59-67 | ray division is within half a divisor of the exact quotient, never negative |
| RayMath.RayMulMonotone | test-suites/test-palmy/helpers/utils/math.ts:55-57 | ray multiplication keeps the order of its operands |
| RayMath.RayMulGrows | test-suites/test-palmy/helpers/utils/math.ts:55-57 | scaling by a factor of at least one ray never shrinks an amount |
| RayMath.PercentMulBounds | test-suites/test-palmy/helpers/utils/math.ts:83-88 | a percentage is within half a basis point of the exact share |
| RayMath.PercentMulShrinks | test-suites/test-palmy/helpers/utils/math.ts:83-88 | a percentage of at most 100% never enlarges an amount |
| RayMath.ScalingRoundTrip | test-suites/test-palmy/helpers/utils/math.ts:55-67 | for every index of at least one ray, unscaling what scaling gave returns the scaled amount exactly |
| RayMath.ScalingExactIffIndexAtLeastRay | test-suites/test-palmy/helpers/utils/math.ts:55-67 | scaling and unscaling is exact for all amounts if and only if the index is at least one ray |
| RayMath.ScaledCover | test-suites/test-palmy/helpers/utils/math.ts:55-67 | an amount within a balance never unscales to more than the scaled balance |
| Interest.CompoundedIsFactor | test-suites/test-palmy/helpers/utils/calculations.ts:1192-1222 | the compounding polynomial with its truncated halves and sixths equals the one with exact binomial coefficients |
| Interest.CompoundedMonotone | test-suites/test-palmy/helpers/utils/calculations.ts:1192-1222 | the compounding factor is never below one ray and never falls when rate or time grow |
| Interest.LinearMonotone | test-suites/test-palmy/helpers/utils/calculations.ts:1177-1190 | the linear factor is never below one ray and never falls when rate or time grow |
| Interest.LinearBounds | test-suites/test-palmy/helpers/utils/calculations.ts:1177-1190 | the linear factor is one ray and the rate times the elapsed part of a year, cut to a whole unit |
| Interest.CompoundedCoversLinear | test-suites/test-palmy/helpers/utils/calculations.ts:1177-1222 | compounding plus one unit per second is at least the linear factor, and equals it after zero and one second |
| Interest.FactorGain | test-suites/test-palmy/helpers/utils/calculations.ts:1192-1222 | a debt that has compounded for some time earns at least simple interest over any further time, up to an explicit curvature term |
| Compounding.ExpansionBelowPower | test-suites/test-palmy/helpers/utils/calculations.ts:1192-1222 | the three-term polynomial without rounding is at most the power (1 + z)^n, for every n |
| Compounding.FactorNearExpansion | test-suites/test-palmy/helpers/utils/calculations.ts:1192-1222 | the rounded factor is within a stated allowance of the unrounded polynomial, on both sides |
| Compounding.CompoundedBelowTruePower | test-suites/test-palmy/helpers/utils/calculations.ts:1192-1222 | a debt is never charged more than true per-second compounding at its yearly rate, beyond the rounding allowance |
| Rates.CalcInterestRates | test-suites/test-palmy/helpers/utils/calculations.ts:1224-1291 | the branch-wise accumulation of the three rates equals the kinked curves and the depositors' share that the lemmas below are about |
| Rates.UtilizationAtMostRay | test-suites/test-palmy/helpers/utils/calculations.ts:1314-1326 | utilization is at most one ray if and only if the debts exceed the liquidity by less than rounding |
| Rates.UtilizationMonotone | test-suites/test-palmy/helpers/utils/calculations.ts:1314-1326 | more debt on the same cash never lowers the rounded utilization |
| Rates.KinkedRateInBand | test-suites/test-palmy/helpers/utils/calculations.ts:1239-1278 | each curve stays between its base and base + both slopes, and between the right pair on each side of the kink |
| Rates.BorrowRatesFollowUtilization | test-suites/test-palmy/helpers/utils/calculations.ts:1239-1278 | variable and stable rates never fall with utilization, also across the kink, never leave their bands, and take the configured values at the optimum and at full use |
| Rates.RatesInterpolate | test-suites/test-palmy/helpers/utils/calculations.ts:1239-1280 | on both sides of the kink both borrow rates climb in proportion to the use of the optimum, respectively of what is above it, within half a unit and the rounding of the ratio |
| Rates.OverallRateBounds | test-suites/test-palmy/helpers/utils/calculations.ts:1293-1312 | the overall borrow rate times all debts is the interest owed, within an explicit allowance on both sides |
| Rates.OverallRateBetween | test-suites/test-palmy/helpers/utils/calculations.ts:1293-1312 | the overall borrow rate lies between the two rates within RAY/T + 1/2, T being the debt in ray scale |
| Rates.LiquidityRateAtMostOverall | test-suites/test-palmy/helpers/utils/calculations.ts:1280-1291 | depositors never earn a higher rate than borrowers pay on average, and nothing on an unused reserve |
| Rates.LendersPaidByBorrowers | test-suites/test-palmy/helpers/utils/calculations.ts:1224-1326 | the income credited on all liquidity is at most the interest owed on all debts plus an explicit allowance |
| Rates.LendersShareReachesThem | test-suites/test-palmy/helpers/utils/calculations.ts:1224-1326 | the income credited on all liquidity is at least the lenders' share of the interest owed, less an explicit allowance |
| Reserve.IndexesGrow | test-suites/test-palmy/helpers/utils/calculations.ts:1328-1412 | neither index, stored or viewed, ever goes back |
| Reserve.IncomeViewAgrees | test-suites/test-palmy/helpers/utils/calculations.ts:1328-1348 | the viewed income equals the index an update stores if and only if the reserve is used or the gain is too small to show, although the two test different guards |
| Reserve.DebtViewAgrees | test-suites/test-palmy/helpers/utils/calculations.ts:1350-1370 | the viewed debt index equals the stored one if and only if there is variable debt or the gain is too small to show |
| Reserve.UserDebtViewAgrees | test-suites/test-palmy/helpers/utils/calculations.ts:1137-1152 | a user's viewed variable debt equals their scaled debt at the index an update stores, whenever no total debt means no scaled debt |
| Reserve.ClaimGrows | test-suites/test-palmy/helpers/utils/calculations.ts:1328-1348 | over any period a user's claim grows by rate times elapsed part of a year of the claim at the last update, within a stated rounding on both sides |
| Reserve.TwoStepAccrual | test-suites/test-palmy/helpers/utils/calculations.ts:1384-1397 | accruing in two steps at one rate gives at least the one-step index less index/RAY + L2/(2 RAY) + 1 |
| StableDebt.StableBalanceGrows | test-suites/test-palmy/helpers/utils/calculations.ts:1154-1175 | a stable balance and the pooled total never shrink, whichever shortcut applies |
| StableDebt.BalanceIsTotal | test-suites/test-palmy/helpers/utils/calculations.ts:1414-1427 | once a stable debt is dated, the balance of one borrower and the pooled total grow by the same formula |
| StableDebt.AddedLoanKeepsAverageBetween | test-suites/test-palmy/helpers/utils/calculations.ts:1101-1117 | adding a loan puts the average between the old average and the loan's rate, losing less than one unit of weight per unit of debt |
| StableDebt.RemovedLoanRestoresAverage | test-suites/test-palmy/helpers/utils/calculations.ts:505-540 | removing a just-added loan never raises the average and lowers it by at most 1 + ceil((a-1)/D) |
| StableDebt.RemovalLossIsAttained | test-suites/test-palmy/helpers/utils/calculations.ts:1101-1117 | a pool of ten whose average falls by two when a just-added loan of three is removed, more than 1 + 3/10 |
| AverageLoss.LossAlwaysSmallIff | test-suites/test-palmy/helpers/utils/calculations.ts:1101-1117 | the loss stays within 1 + a/D for all rates if and only if a mod D is zero or divides D |
| AverageLoss.LossSmallIff | test-suites/test-palmy/helpers/utils/calculations.ts:1101-1117 | for given rates the loss stays within 1 + a/D if and only if what was rounded away fits into that many totals, or exceeds the weighted average |
| Convexity.ExpansionAboveTangent | test-suites/test-palmy/helpers/utils/calculations.ts:1192-1222 | the compounding polynomial is convex in the rate: it lies above each of its tangents |
| Convexity.AverageRateNeverOvercharges | test-suites/test-palmy/helpers/utils/calculations.ts:517-522 | without rounding, any number of stable loans together owe at least what the pool owes at their debt-weighted average rate |
| Convexity.PoolRateBelowWeightedAverage | test-suites/test-palmy/helpers/utils/calculations.ts:1101-1117 | the average the pool computes from loans added one after the other, with no interest accruing between them, never exceeds the true weighted average |
| Convexity.PooledDebtBelowBalances | test-suites/test-palmy/helpers/utils/calculations.ts:1414-1427 | with rounding, and for loans that start at one date, the pooled debt is at most the sum of the borrowers' own balances plus a stated allowance |
| Convexity.PoolDriftsBelow | test-suites/test-palmy/helpers/utils/calculations.ts:517-522 | the same for the rate the pool itself arrives at when it takes loans that start at one date, one after the other: the drift that the clamps after a repay have to expect |
| Backing.WaitingKeepsBacking | test-suites/test-palmy/helpers/utils/calculations.ts:1192-1222 | a pool whose charges above every level of the rate are backed by the borrowers' stays so while everybody grows at their own rates |
| Backing.BackedBetween | test-suites/test-palmy/helpers/utils/calculations.ts:1101-1117 | backing at the ends of a range of rates and at the borrowers' rates inside is backing at every level between, so that finitely many comparisons decide |
| Drift.StepKeepsBackingIff | test-suites/test-palmy/helpers/utils/calculations.ts:505-626 | a borrow or a repay, with both its clamps and with a borrower's loans merged, keeps the pool backed if and only if it is backed at the borrowers' rates above the repaid one, or between the borrower's own and the further loan's |
| Drift.MergeKeepsLevel | test-suites/test-palmy/helpers/utils/calculations.ts:1372-1382 | a further loan, merged at the weighted rate, keeps the backing at every level outside the two rates, and at all levels after everything was repaid |
| Drift.GuardedKeepsBacking | test-suites/test-palmy/helpers/utils/calculations.ts:505-626 | the backing is kept whenever the borrower's own rate is at least the further loan's, or the pool's before a repay, or the pool's afterwards |
| Drift.PoolNeverAhead | test-suites/test-palmy/helpers/utils/calculations.ts:304-337 | along every run of such stable borrows, first or further ones, and repays, at whatever dates, the pool owes without rounding at most what the borrowers owe together, each accrued at the same moments |
| Drift.GuardedPoolNeverAhead | test-suites/test-palmy/helpers/utils/calculations.ts:304-337 | the same for every run whose further loans and repays all meet those guards on the rates |
| Drift.PoolBelowTrueCompounding | test-suites/test-palmy/helpers/utils/calculations.ts:1192-1222 | along such a run it never owes more than the borrowers do when every debt compounds every second at the rate booked for it |
| Drift.CompoundedInParts | test-suites/test-palmy/helpers/utils/calculations.ts:1192-1222 | compounding every second over two parts is compounding over both together, unlike the polynomial |
| DriftLimits.FurtherLoanLetsPoolAhead | test-suites/test-palmy/helpers/utils/calculations.ts:605-626 | two loans, and a dearer one that the second borrower adds, after which the pool gets ahead of the borrowers without rounding and with no repay |
| DriftLimits.LowRateRepayLetsPoolAhead | test-suites/test-palmy/helpers/utils/calculations.ts:505-540 | a run in which a repay below the average leaves the pool at a rate above all that is left, and then ahead of the borrowers |
| DriftLimits.PoolOvertakesOwnDates | test-suites/test-palmy/helpers/utils/calculations.ts:304-337 | for every positive rate, two loans two seconds apart after which the pool owes more than the borrowers do from their own dates |
| DriftRecords.StableBorrowIsEvent | test-suites/test-palmy/helpers/utils/calculations.ts:304-337 | the average that a stable borrow computes is at most the weighted one, and total and average it leaves are those of the drift's next pool |
| DriftRecords.StableBorrowMerges | test-suites/test-palmy/helpers/utils/calculations.ts:605-626 | the user's record after a stable borrow is the merged debt of the drift, with its rate rounded down to a whole unit |
| DriftRecords.StableRepayIsEvent | test-suites/test-palmy/helpers/utils/calculations.ts:505-540 | the total and average that a stable repay leaves, with both clamps, are those of the drift's next pool, and the user's debt the next debt |
| DriftRecords.StableRepayReduces | test-suites/test-palmy/helpers/utils/calculations.ts:701-726 | the user's record after a partial stable repay is the repay event's next debt, at the same rate, dated at the transaction |
| DriftRecords.FurtherLoanLetsRoundedPoolAhead | test-suites/test-palmy/helpers/utils/calculations.ts:605-626 | by the rounded formulas, with loans at 3%, 25% and 110% a year and terms of ten years: the pool gets ahead by 25 of 268 thousand units after a further loan |
| DriftRecords.LowRateRepayLetsRoundedPoolAhead | test-suites/test-palmy/helpers/utils/calculations.ts:505-540 | the same loans, the second repaid in full: the pool gets ahead by 300 of 294 thousand units |
| Restart.RestartCostsIff | test-suites/test-palmy/helpers/utils/calculations.ts:1192-1222 | compounding that starts anew never charges less than one period, and charges the same if and only if the rate is zero, a part is empty, or both last at most three seconds together |
| Restart.StartingAnewNeverCheaper | test-suites/test-palmy/helpers/utils/calculations.ts:1192-1222 | nor does it when it starts anew any number of times |
| Actions.PoolWithoutNonNegative | test-suites/test-palmy/helpers/utils/calculations.ts:505-540 | whatever is repaid, the pool's stable debt and average rate do not turn negative; they are reduced or both cleared |
| Actions.PoolKeepsLeftoverIff | test-suites/test-palmy/helpers/utils/calculations.ts:514-540 | what a repay leaves of the pool is kept, and not erased, if and only if the repaid weight stays below the pool's weighted rate plus the leftover |
| Actions.ErasedLeftoverBound | test-suites/test-palmy/helpers/utils/calculations.ts:530-539 | an erased leftover, times the average rate plus one, is at most the repaid amount times the excess of the loan's rate over the average |
| Actions.ErasedLeftoverNotSmall | test-suites/test-palmy/helpers/utils/calculations.ts:530-539 | a repay of 267 from a pool of 329 that erases the remaining 62: the leftover need not be small |
| Actions.RemovalNonNegative | test-suites/test-palmy/helpers/utils/calculations.ts:812-832 | a swap out of the pool leaves a non-negative average if and only if the pool's weighted rate covers the debt's |
| Actions.FullDebtTakesAtLeast | test-suites/test-palmy/helpers/utils/calculations.ts:544-546 | giving back all of a variable debt, as it is viewed at the transaction or later, takes at least the user's scaled debt off the reserve or the user |
| Actions.FullDebtTakesExactlyIff | test-suites/test-palmy/helpers/utils/calculations.ts:544-546 | it takes exactly the user's scaled debt, whenever it is viewed, if and only if the viewed debt is less than half an index above the scaled debt at the index of the transaction |
| Actions.RepaysWithinScaledDebtIff | test-suites/test-palmy/helpers/utils/calculations.ts:544-554 | no repay within the debt takes more scaled debt than the user has if and only if the full one does not, by that same condition |
| Actions.RepaysKeepReserveDebtIff | test-suites/test-palmy/helpers/utils/calculations.ts:544-546 | every variable repay within the user's debt leaves the reserve's scaled debt non-negative if and only if the user owes no more scaled debt than the reserve records |
| Actions.SwapKeepsReserveDebtIff | test-suites/test-palmy/helpers/utils/calculations.ts:834-843 | a swap to stable leaves it non-negative under exactly the same condition |
| Actions.RepricedFacts | test-suites/test-palmy/helpers/utils/calculations.ts:1224-1291 | no rate turns negative for non-negative totals, and zero utilization comes with a zero liquidity rate |
| Actions.DebtsSeenLater | test-suites/test-palmy/helpers/utils/calculations.ts:372-400 | debts of a borrow seen later than the transaction are at least those it was priced with |
| Steps.CalcReserveAfterDeposit | test-suites/test-palmy/helpers/utils/calculations.ts:154-212 | the field-by-field update after a deposit yields the modelled record |
| Steps.CalcReserveAfterWithdraw | test-suites/test-palmy/helpers/utils/calculations.ts:214-283 | the update after a withdrawal, with the whole-balance amount resolved first |
| Steps.CalcReserveAfterBorrow | test-suites/test-palmy/helpers/utils/calculations.ts:285-458 | the update after a borrow in either mode, priced at the transaction and seen at a later time |
| Steps.CalcReserveAfterRepay | test-suites/test-palmy/helpers/utils/calculations.ts:460-592 | the update after a repay, with the clamps on stable debt and average rate |
| Steps.CalcReserveAfterSwap | test-suites/test-palmy/helpers/utils/calculations.ts:770-878 | the update after a rate mode swap in either direction |
| Steps.CalcUserAfterDeposit | test-suites/test-palmy/helpers/utils/calculations.ts:15-84 | the user record after a deposit, including the overwritten stable principal |
| Steps.CalcUserAfterWithdraw | test-suites/test-palmy/helpers/utils/calculations.ts:86-152 | the user record after a withdrawal |
| Steps.CalcUserAfterBorrow | test-suites/test-palmy/helpers/utils/calculations.ts:594-673 | the user record after a borrow, including the reserve-wide scaled debt |
| Steps.CalcUserAfterRepay | test-suites/test-palmy/helpers/utils/calculations.ts:675-755 | the user record after a repay in either mode, own or on somebody's behalf |
| Steps.CalcUserAfterSwap | test-suites/test-palmy/helpers/utils/calculations.ts:880-943 | the user record after a rate mode swap |
| Runs.IncomeViewIsIndex | test-suites/test-palmy/helpers/utils/calculations.ts:1328-1348 | in every state a run can reach, the viewed income is the index that an update stores |
| Runs.StepMovesOn | test-suites/test-palmy/helpers/utils/calculations.ts:154-878 | no action moves an index or a date back, whatever it does to the debts |
| Runs.StepAdvances | test-suites/test-palmy/helpers/utils/calculations.ts:154-878 | an action that takes off no more scaled debt than the reserve records keeps the reserve consistent |
| Runs.StepSoundIff | test-suites/test-palmy/helpers/utils/calculations.ts:15-943 | an action keeps the reserve and all users consistent if and only if the reserve and the user each have at least the scaled debt that it takes off them; a repay looked at later may take more off the user than off the reserve |
| Runs.RunMovesOn | test-suites/test-palmy/helpers/utils/calculations.ts:1384-1412 | along every run both indexes stay at least one ray and never decrease |
| Runs.RequestedIsCovered | test-suites/test-palmy/helpers/utils/calculations.ts:460-592 | while the debts match, what the callers see to is enough: a repay within the debt, looked at right away or for a given amount, and a possible swap neither divide by zero nor take off more than there is |
| Runs.RunSound | test-suites/test-palmy/helpers/utils/calculations.ts:15-943 | from a sound state whose debts match, every run of requested actions with sole variable borrowers, and full repays looked at right away, can be taken to its end, and no total, balance, wallet or rate turns negative, the debts still match, and no index decreases |
| Runs.RunEndsSoundIff | test-suites/test-palmy/helpers/utils/calculations.ts:15-943 | of any other run, the end is sound if and only if reserve and user have the scaled debt that the last step takes off each of them |
| Runs.ReserveDebtChange | test-suites/test-palmy/helpers/utils/calculations.ts:285-592 | by how much each action changes the reserve's scaled variable debt |
| Runs.UserDebtChange | test-suites/test-palmy/helpers/utils/calculations.ts:594-943 | what each action makes of the user's scaled variable debt |
| Runs.PromptRepaysSame | test-suites/test-palmy/helpers/utils/calculations.ts:701-733 | a repay of a given amount, looked at any time, and a full repay looked at right away are the same amount to user and reserve |
| Runs.StepConservesDebtIff | test-suites/test-palmy/helpers/utils/calculations.ts:634-636 | an enabled action keeps the reserve's scaled debt equal to the sum over users if and only if a variable borrower owed all of it, and a variable repay takes the same off user and reserve |
| Runs.RunConservesDebt | test-suites/test-palmy/helpers/utils/calculations.ts:406-408 | the equality holds along every run whose actions each meet that condition |
| Runs.MatchingDebtCoversUser | test-suites/test-palmy/helpers/utils/calculations.ts:547-554 | while the equality holds, no user owes more scaled debt than the reserve records |
| Runs.StepConservesCash | test-suites/test-palmy/helpers/utils/calculations.ts:15-592 | cash only moves between a wallet and the reserve, up to the difference between what a repay gives the reserve and what its user is charged; that is zero for an own repay of a given amount and for a full one looked at right away |
| Runs.RunConservesCash | test-suites/test-palmy/helpers/utils/calculations.ts:15-592 | wallets plus available liquidity stay the same along every run of such own repays |
| Balances.DepositCreditsAmount | test-suites/test-palmy/helpers/utils/calculations.ts:15-84 | a deposit raises the user's claim by the amount, within 1 + index/(2 RAY) |
| Balances.WithdrawDebitsAmount | test-suites/test-palmy/helpers/utils/calculations.ts:86-152 | a withdrawal lowers the user's claim by the amount paid out, within 1 + index/(2 RAY) |
| Balances.StableBorrowAddsAmount | test-suites/test-palmy/helpers/utils/calculations.ts:605-632 | a stable borrow adds exactly the amount, at a rate between the user's old rate and the reserve's |
| Balances.UserRateBetween | test-suites/test-palmy/helpers/utils/calculations.ts:1372-1382 | a user's stable rate is a weighted average: it stays between the old and the new rate |
| Balances.StableRepayTakesAmount | test-suites/test-palmy/helpers/utils/calculations.ts:701-726 | a stable repay takes exactly the amount repaid off the stable debt as it is looked at |
| Balances.VariableRepayTakesAmount | test-suites/test-palmy/helpers/utils/calculations.ts:727-740 | a variable repay lowers the variable debt accrued to the transaction by the amount, within 1 + index/(2 RAY), and within one unit more if it takes more than the user's scaled debt |
| Balances.VariableBorrowAddsToAllDebt | test-suites/test-palmy/helpers/utils/calculations.ts:633-646 | a variable borrow leaves the user owing all variable debt of the reserve plus the amount |
| Records.StableRepayKeepsRate | test-suites/test-palmy/helpers/utils/calculations.ts:701-726 | what a stable repay leaves goes on compounding at the rate the user had, from the transaction, at every later time |
| Records.StableBorrowGoesOn | test-suites/test-palmy/helpers/utils/calculations.ts:605-632 | after a stable borrow the accrued debt and the loan go on compounding together from the transaction, at the rate weighted by both and cut to a whole unit |
| Records.SwapToStableGoesOn | test-suites/test-palmy/helpers/utils/calculations.ts:916-938 | after a swap to stable the recorded stable and the accrued variable debt go on compounding from the transaction, at the rate weighted by the accrued ones |
| Records.SwapToVariableEndsStableDebt | test-suites/test-palmy/helpers/utils/calculations.ts:898-915 | after a swap to variable no stable debt is owed at any later time, and the debts that the next state's views read are those before, within 1 + index/(2 RAY) |
| Records.UserKeeps | test-suites/test-palmy/helpers/utils/calculations.ts:15-943 | which of a user's claim and stable debt fields each action leaves alone, and what a deposit and a variable repay make of the principal |
| Records.OthersKeep | test-suites/test-palmy/helpers/utils/calculations.ts:15-943 | no action touches another user |
| Records.ReserveKeeps | test-suites/test-palmy/helpers/utils/calculations.ts:154-878 | which actions move the pool's principal, average rate and date, and which accrue its total or keep that of the last snapshot |
| Records.BorrowSeenLater | test-suites/test-palmy/helpers/utils/calculations.ts:372-400 | looking at a borrow later changes only its debts, to those an update would then accrue, and the totals that follow |
| Records.StepIsPriced | test-suites/test-palmy/helpers/utils/calculations.ts:1224-1291 | every other action leaves the utilization and all three rates that the strategy sets for the totals it leaves |
| Records.BorrowIsPriced | test-suites/test-palmy/helpers/utils/calculations.ts:285-370 | a borrow keeps the rates for the totals at the transaction; their stable side is not accrued if the pool has no date |
| Records.WholeAmounts | test-suites/test-palmy/helpers/utils/calculations.ts:701-704 | the maximum alone withdraws everything, the maximum of either sign repays everything, every other amount is taken as it is |
| Records.RecordedClaimIsViewed | test-suites/test-palmy/helpers/utils/calculations.ts:15-943 | the recorded claim and rate are those read back from the next state, exactly or within one scaled amount |
| Records.RecordedStableDebtIsViewed | test-suites/test-palmy/helpers/utils/calculations.ts:86-943 | the recorded stable debt is the one read back, except after a deposit or a variable repay |
| Records.RecordedStableDebtLeft | test-suites/test-palmy/helpers/utils/calculations.ts:15-84 | a deposit records the accrued stable debt, a variable repay the old principal |
| Records.RecordedVariableDebtIsViewed | test-suites/test-palmy/helpers/utils/calculations.ts:15-943 | the recorded variable debt is the one read back from the next state, unless the reserve has no variable debt while the user has |
| Records.CollateralSwitchesIff | test-suites/test-palmy/helpers/utils/calculations.ts:52-147 | collateral is switched on only by choice or by a deposit or withdrawal without a recorded balance, and off only by choice or by withdrawing all of a recorded one |
| Totals.OtherStepsRebalance | test-suites/test-palmy/helpers/utils/calculations.ts:214-592 | withdraw, borrow, repay and swap re-establish total = available + stable + variable from any state, and utilization in [0, RAY] unless they take more scaled debt off the reserve than it records |
| Totals.DepositUtilizationIff | test-suites/test-palmy/helpers/utils/calculations.ts:154-212 | a deposit keeps utilization within one ray if and only if the accrued debts are covered by the recorded liquidity |
| Totals.StepTotalsIff | test-suites/test-palmy/helpers/utils/calculations.ts:154-592 | from a balanced reserve an action makes the totals add up if and only if it is not a deposit onto accrued interest; the utilization follows under the same condition as soundness |
| Totals.RunStaysInBalance | test-suites/test-palmy/helpers/utils/calculations.ts:154-878 | the identity holds along every run without such deposits, and the utilization range wherever the state is sound |
| Totals.RunEndsInBalance | test-suites/test-palmy/helpers/utils/calculations.ts:214-878 | any other action restores the identity wherever it comes in a run, and the utilization range if the state it leaves is sound |
| Solvency.GrownStableDebt | test-suites/test-palmy/helpers/utils/calculations.ts:1414-1427 | the pooled stable debt, compounding from its own date, earns at least simple interest on the recorded total, up to a stated shortfall |
| Solvency.AccrualKeepsSolvency | test-suites/test-palmy/helpers/utils/calculations.ts:1177-1326 | if what depositors hold exceeds the liquidity by some amount, then after any time it exceeds the cash and the debts an update accrues by no more than that amount grown, and an explicit allowance |
| RunSolvency.StepSettles | test-suites/test-palmy/helpers/utils/calculations.ts:154-878 | quiet deposits, withdrawals, borrows looked at at once, repays and swaps leave totals that add up and are up to date, and the strategy's rates for them |
| RunSolvency.PeriodKeepsSolvency | test-suites/test-palmy/helpers/utils/calculations.ts:1177-1326 | at any later moment all users' claims together are covered by cash and accrued debts, up to the grown allowance |
| RunSolvency.StepKeepsSolvency | test-suites/test-palmy/helpers/utils/calculations.ts:154-878 | each action keeps the sum of all users' claims within the liquidity and the next allowance: grown, plus one rounded balance, plus the stable debt a clamp forgives |
| RunSolvency.ForgivenIff | test-suites/test-palmy/helpers/utils/calculations.ts:528-540 | when a repay erases stable debt, and how much of it at most |
| RunSolvency.RunStaysSolvent | test-suites/test-palmy/helpers/utils/calculations.ts:15-943 | along every run of such actions the claims of all users stay within the accumulated allowance of the liquidity |
| RunSolvency.ClaimsCoveredAfterRun | test-suites/test-palmy/helpers/utils/calculations.ts:1177-1326 | at any moment after such a run the claims are covered by the cash and the debts accrued until then, up to the accumulated allowance |
| RunSolvency.RequestsStaySolvent | test-suites/test-palmy/helpers/utils/calculations.ts:15-943 | the same from the guards alone: when the debts match at first, every such run of requests by sole variable borrowers can be taken, and the claims stay covered |
| RunSolvency.SolvencyAppliesToARun | test-suites/test-palmy/helpers/utils/calculations.ts:285-458 | a concrete state and run under a strategy with positive slopes that meet every assumption of the solvency theorem, with interest accruing in between |
| Exits.FullWithdrawalIsExact | test-suites/test-palmy/helpers/utils/calculations.ts:97-147 | withdrawing everything leaves scaled and current balance zero, collateral use off, and the whole claim in the wallet |
| Exits.FullVariableRepayIff | test-suites/test-palmy/helpers/utils/calculations.ts:701-733 | repaying all variable debt, looked at whenever, never leaves scaled debt; it leaves exactly none if and only if the viewed debt is less than half an index above the scaled debt at the transaction, and the reserve loses exactly the scaled debt of the user if and only if the debt viewed at the transaction is |
| Exits.FullVariableRepayIsExact | test-suites/test-palmy/helpers/utils/calculations.ts:701-733 | looked at right away it leaves no debt, and takes exactly the user's scaled debt off the reserve, when no total variable debt means no scaled debt |
| Exits.FullStableRepayIsExact | test-suites/test-palmy/helpers/utils/calculations.ts:705-726 | repaying all stable debt leaves no stable debt at any later time, whenever it is looked at |
| Exits.SwapBackEnabledIff | test-suites/test-palmy/helpers/utils/calculations.ts:812-832 | for a user without stable debt, the swap back is possible if and only if a condition on the state before the first swap holds: the reserve records the user's debt, and the pool's new average covers the loan's rate |
| Exits.SmallDebtsSwapBack | test-suites/test-palmy/helpers/utils/calculations.ts:812-843 | that condition holds whenever the user's debt is at most the pool's average rate times its debt, plus the interest since the snapshot |
| Exits.SwapRoundTrip | test-suites/test-palmy/helpers/utils/calculations.ts:770-943 | variable to stable and back at one time is then possible and restores the scaled debts of user and reserve and the pool's stable principal |
| Exits.SwapRoundTripAverage | test-suites/test-palmy/helpers/utils/calculations.ts:812-843 | when nothing accrued since the snapshot, the round trip never raises the pool's average rate and lowers it by at most the removal loss |
| Exits.SwapToVariableKeepsDebt | test-suites/test-palmy/helpers/utils/calculations.ts:898-915 | a swap from stable to variable keeps the sum of the user's debts, accrued to the swap, within 1 + index/(2 RAY) |
| Discrepancies.VariableBorrowBreaksDebt | test-suites/test-palmy/helpers/utils/calculations.ts:634-636 | two equal borrowers for whom a variable borrow breaks the sum of scaled debts |
| Discrepancies.RepayWithinDebtTurnsReserveNegative | test-suites/test-palmy/helpers/utils/calculations.ts:544-546 | a run of a variable borrow and two repays within the debts that ends with a scaled reserve debt of minus one |
| Discrepancies.DepositKeepsStableDebtIff | test-suites/test-palmy/helpers/utils/calculations.ts:76-81 | a deposit keeps the user's stable debt if and only if their variable debt equals their stable principal |
| Discrepancies.DepositForgetsStableDebt | test-suites/test-palmy/helpers/utils/calculations.ts:76-81 | a user whose stable debt a deposit drops |
| Discrepancies.VariableRepayKeepsStableDebtIff | test-suites/test-palmy/helpers/utils/calculations.ts:727-740 | a variable repay, looked at whenever, keeps the stable debt if and only if no interest accrued on it, because the principal is rebased but not dated |
| Discrepancies.VariableRepayChargesTwice | test-suites/test-palmy/helpers/utils/calculations.ts:727-740 | a user whose stable interest is charged again after a variable repay |
| Discrepancies.SwapToStableKeepsDebtIff | test-suites/test-palmy/helpers/utils/calculations.ts:916-938 | a swap to stable takes over all debt if and only if the recorded stable debt is up to date |
| Discrepancies.SwapToStableForgetsInterest | test-suites/test-palmy/helpers/utils/calculations.ts:925-927 | a user whose accrued stable interest a swap drops |
| Discrepancies.DepositOverstatesUtilization | test-suites/test-palmy/helpers/utils/calculations.ts:163-166 | a deposit after which utilization exceeds one ray |
| Discrepancies.FullRepaySeenLaterOverpays | test-suites/test-palmy/helpers/utils/calculations.ts:701-733 | an enabled repay of everything, looked at a second later, that leaves a scaled debt of minus three and none in the reserve |
| LendingPool.LendingReserve.Deposit | test-suites/test-palmy/helpers/utils/calculations.ts:15-212 | the object after a deposit is the successor state of the run relation, and stays valid |
| LendingPool.LendingReserve.Withdraw | test-suites/test-palmy/helpers/utils/calculations.ts:86-283 | the object after a withdrawal is the successor state of the run relation, and stays valid |
| LendingPool.LendingReserve.Borrow | test-suites/test-palmy/helpers/utils/calculations.ts:285-673 | the object after a borrow is the successor state of the run relation, and stays valid |
| LendingPool.LendingReserve.Repay | test-suites/test-palmy/helpers/utils/calculations.ts:460-755 | the object after a repay, looked at then or later, is the successor state of the run relation, and stays valid if and only if reserve and user have the scaled debt taken off each |
| LendingPool.LendingReserve.SwapRateMode | test-suites/test-palmy/helpers/utils/calculations.ts:770-943 | the object after a rate mode swap is the successor state of the run relation, and stays valid under the same condition |
| LendingPool.LendingReserve.SetUseAsCollateral | test-suites/test-palmy/helpers/utils/calculations.ts:757-768 | the object after a change of the collateral flag is the successor state of the run relation, and stays valid |
| Ledger.SumUpdate | test-suites/test-palmy/helpers/utils/calculations.ts:728-733 | changing one user changes the sum over users by the difference of that user |
| LinkBytecode.Link | helpers/contracts-helpers.ts:268-289 | the three nested loops apply exactly the patches of the libraries whose address is given, in iteration order |
| LinkBytecode.SpliceKeepsLengthIff | helpers/contracts-helpers.ts:281-284 | one in-range placeholder keeps the length if and only if the address has its length |
| LinkBytecode.LinkWritesAddresses | helpers/contracts-helpers.ts:268-289 | length is kept, every linked placeholder holds its address, every other character is unchanged |
| LinkBytecode.OrderDoesNotMatter | helpers/contracts-helpers.ts:271-286 | patches that agree give the same text in every order |
| LinkBytecode.OrderIrrelevantIff | helpers/contracts-helpers.ts:271-286 | all orders of the same patches give one text if and only if patches agree wherever they overlap |
| LinkBytecode.PatchIffPlaced | helpers/contracts-helpers.ts:271-286 | a link applies a patch if and only if it is the address of a library that is given, at some placeholder of that library in some file |
| LinkBytecode.LinkIntoDisjointPlaceholders | helpers/contracts-helpers.ts:268-289 | if no two placeholders of linked libraries overlap and the addresses fit, every placeholder of every linked library in every file holds that library's address, everything else and the length are unchanged, and no order matters |
| LinkBytecode.LinkInStages | helpers/contracts-helpers.ts:268-289 | linking some libraries and later the others equals linking all at once |
| Chunk.ConcatOfChunksIff | helpers/misc-utils.ts:84-92 | joining the chunks gives back the array if and only if the chunk size is positive or the array is empty |
| Chunk.ChunkSizes | helpers/misc-utils.ts:84-92 | there are ceil(n/size) chunks, all full but the last, which is not empty |
| Chunk.ChunksAlign | helpers/misc-utils.ts:84-92 | chunks of parallel arrays stay aligned element by element |
| InitReserves.Initializer.InitReserves | helpers/init-helpers.ts:120-226 | the loop over the reserves and the batch loop: cache, deployments, collected inputs, error and sent batches |
| InitReserves.Initializer.CollectReserve | helpers/init-helpers.ts:126-209 | the loop body of a listed reserve: deploy if missing, check in order, collect |
| InitReserves.Initializer.SendBatches | helpers/init-helpers.ts:211-225 | one transaction per chunk, under the symbols of that chunk |
| InitReserves.ArgumentsTellStrategy | helpers/init-helpers.ts:139-152 | the constructor arguments are the provider and, position by position, the strategy's parameters |
| InitReserves.RefusalIff | helpers/init-helpers.ts:159-188 | a reserve is refused with the error of the first check that fails, in the source's order |
| InitReserves.RefusedVisit | helpers/init-helpers.ts:137-188 | a refused reserve is not collected and nothing is sent, but its missing strategy has been deployed |
| InitReserves.InputIsChecked | helpers/init-helpers.ts:190-208 | a reserve is sent with exactly the recorded addresses that were checked, all usable, and its own parameters |
| InitReserves.TokensTellApart | helpers/init-helpers.ts:201-206 | no two reserves share a token name of one kind, and no two tokens of a market a symbol |
| InitReserves.ShippedNames | helpers/init-helpers.ts:201-206 | the names and symbols that the shipped prefixes give, with and without a symbol prefix |
| InitReserves.ListedIff | helpers/init-helpers.ts:124-128 | visited are exactly the reserves whose symbol has a token address |
| InitReserves.ListedInOrder | helpers/init-helpers.ts:124-128 | in the order in which they are given |
| InitReserves.DeploymentsAreFirstUses | helpers/init-helpers.ts:137-158 | the deployments are those of the first listed uses of missing names, in order, each cached under its own new address |
| InitReserves.RateStrategiesAreDeployed | helpers/init-helpers.ts:137-152 | arguments are kept for exactly the deployed names, and are those of a deployment |
| InitReserves.DeployedIffMissing | helpers/init-helpers.ts:137-158 | a name is deployed if and only if it was not supplied and a listed reserve uses it |
| InitReserves.NothingDeployedTwice | helpers/init-helpers.ts:137-158 | no name is deployed twice |
| InitReserves.CacheHoldsGivenOrDeployed | helpers/init-helpers.ts:119-158 | supplied addresses are never replaced, and every other cached address is the one its deployment returned |
| InitReserves.InputsFollowListedReserves | helpers/init-helpers.ts:189-209 | symbols and inputs follow the listed reserves in order, each input with the address finally cached for its strategy name |
| InitReserves.SucceedsIff | helpers/init-helpers.ts:159-188 | nothing is thrown if and only if every listed reserve passes its checks and every new strategy gets a usable address |
| InitReserves.EachReserveSentOnce | helpers/init-helpers.ts:211-225 | the batches send every listed reserve exactly once, in order, one per transaction |
| ConfigureReserves.ConfigureReserves | helpers/init-helpers.ts:253-351 | the loop with its three skips, the error before any call, and the calls that follow |
| ConfigureReserves.RefusedIff | helpers/init-helpers.ts:287-309 | the script stops if and only if an eligible asset has an unusable token address |
| ConfigureReserves.FirstRefusedIsFirst | helpers/init-helpers.ts:313-315 | the error names the first eligible asset with an unusable address |
| ConfigureReserves.ConfiguredIff | helpers/init-helpers.ts:289-311 | an asset is collected if and only if it has an address, a loan-to-value, and is not enabled yet |
| ConfigureReserves.EligibleInOrder | helpers/init-helpers.ts:279-330 | the assets are collected in the order in which they are given |
| ConfigureReserves.InputTellsAsset | helpers/init-helpers.ts:318-326 | an eligible asset is configured under its own token address with its own parameters, field by field |
| ConfigureReserves.EveryInputConfiguredOnce | helpers/init-helpers.ts:325-350 | every input is configured exactly once and in order, in ceil(n/20) calls, and the admin is put back |
| ConfigureReserves.HelperConfiguresEachBatch | helpers/init-helpers.ts:325-350 | whenever a batch is configured, the helper is the pool admin and the batch is non-empty and at most 20 long |

## Left out

- Stable rate rebalancing (calculations.ts:945-1076, 1119-1135): it adds ray-scaled amounts to unscaled totals and divides by negative values, so there is no clean law to state.
- Steps.CalcUserAfterDeposit: states the stable debt fields as the code leaves them; that they are wrong is stated separately, in `Discrepancies`.
- RunSolvency.RunStaysSolvent: covers runs whose deposits come without accrued interest, whose variable repays come without accrued stable interest, and whose borrows are looked at at once; other actions leave totals or rates of an earlier moment, and then nothing bounds what depositors are credited by what borrowers owe.
- RunSolvency.StepSettles: leaves out a variable borrow from a pool whose stable debt has no date, which is priced with a balance that is not accrued.
- Exits.SwapRoundTrip: is stated for a user without earlier stable debt; with it the first swap drops the interest on it.
- Exits.SwapRoundTripAverage: needs a stable total that is already accrued, because the swap weighs the total of the last snapshot.
- Exits.FullVariableRepayIsExact: states one case that a caller can check before; Exits.FullVariableRepayIff has the exact condition.
- Reserve.UserDebtViewAgrees: needs zero total variable debt to mean that the user has no scaled debt, as in every state where no user owes more than the reserve records.
- Convexity.PooledDebtBelowBalances: takes all loans to start at one date; its allowance for rounding is not carried over several dates, where Drift.PoolNeverAhead compares without rounding.
- Convexity.PoolRateBelowWeightedAverage: adds the loans with no interest accruing between them, as does Convexity.PoolDriftsBelow; Drift.PoolNeverAhead lets interest accrue, without rounding.
- Drift.PoolNeverAhead: assumes the pool backed, after each repay and each further loan, at the rates that Drift.StepKeepsBackingIff names; without that it is false, as DriftLimits and DriftRecords show. It is about borrows and repays: swaps, which weigh the total of the last snapshot, and the rounding of balances and of a user's merged rate are left out.
- Runs.RunConservesDebt: assumes that each action keeps the debts, and Runs.RunSound sole variable borrowers; Runs.StepConservesDebtIff shows that this is needed.
- The 20-decimal mode of the number library, which other specs use.
- wadMul, wadDiv, rayToWad and percentDiv: not used by the modelled calculations.
- Gas costs, wallets' native balance, events and waiting for transactions, and the reads that fill the records.
- The lookup of strategy parameters by symbol, and addresses, symbols and decimals in the records.
- InitReserves.SucceedsIff: takes the address checks of the libraries as given predicates; the later, repeated check of the token address (init-helpers.ts:182-184) can never fail and has no error of its own.
- Object keys that clash with built-in properties, and printing, in the initialisation scripts.
- The on-chain contracts, liquidation, flash loans and permits: their source is not part of this model.
