/**
  The records that the calculations keep, as events of the drift; and the two ways in which the pool gets
  ahead of the borrowers, by the rounded formulas themselves and at rates and terms of a yearly scale.
 */
module DriftRecords {
  import opened RayMath
  import opened Interest
  import opened StableDebt
  import opened Reserve
  import opened Compounding
  import opened UserActions
  import A = Actions
  import B = Backing
  import D = Drift

  // ---------- the calculations as events ----------

  /** The pool of a reserve, accrued to a moment. */
  ghost function PoolOf(r: ReserveData, t: int): B.Pool {
    B.Pool(A.Accrued(r, t).totalStableDebt as real, PerSecond(r.averageStableBorrowRate))
  }

  ghost function DebtOf(u: UserReserveData, t: int): B.Debt {
    B.Debt(A.StableBalance(u, t) as real, PerSecond(u.stableBorrowRate))
  }

  /** What one unit of a yearly rate charges a second. */
  ghost function Second(): (s: real)
    ensures s > 0.0
  {
    1.0 / (ONE_YEAR as real * RAY as real)
  }

  lemma PerSecondTimes(a: int, x: int)
    ensures PerSecond(a) * x as real == Second() * (a * x) as real
  {
    var k := ONE_YEAR as real * RAY as real;
    assert a as real / k == Second() * a as real;
    assert (a * x) as real == a as real * x as real;
    B.Associates(Second(), a as real, x as real);
  }

  /** The averages of whole numbers, as rates per second. */
  lemma PerSecondAverage(average: int, total: int, a: int, x: int, b: int, y: int)
    ensures average * total <= a * x + b * y
      <==> PerSecond(average) * total as real <= PerSecond(a) * x as real + PerSecond(b) * y as real
  {
    PerSecondTimes(average, total);
    PerSecondTimes(a, x);
    PerSecondTimes(b, y);
    hide PerSecond, Second;
    SameOrder(Second(), average * total, a * x, b * y);
  }

  lemma SameOrder(unit: real, s: int, p: int, q: int)
    requires unit > 0.0
    ensures s <= p + q <==> unit * s as real <= unit * p as real + unit * q as real
  {
    assert unit * (p + q) as real == unit * p as real + unit * q as real;
    if s <= p + q {
      ScaleLe(unit, s as real, (p + q) as real);
    } else {
      B.StrictScale(unit, (p + q) as real, s as real);
    }
  }

  /** The average that a stable borrow computes is possible, and the pool it leaves is the next one. */
  lemma StableBorrowIsEvent(r: ReserveData, amount: int, t: int, debts: seq<B.Debt>, i: nat)
    requires A.Consistent(r) && r.lastUpdateTimestamp <= t && 0 < amount && i <= |debts|
    ensures var after := A.BorrowedStable(r, amount, t);
      var e := D.Borrow(0, i, amount as real, PerSecond(r.stableBorrowRate), PerSecond(after.averageStableBorrowRate));
      && D.Possible(debts, PoolOf(r, t), e)
      && D.PoolStep(PoolOf(r, t), e) == B.Pool(after.totalStableDebt as real, PerSecond(after.averageStableBorrowRate))
      && after.totalStableDebt == after.principalStableDebt
  {
    hide RayMul, LiquidityIndex, VariableBorrowIndex, TotalStableDebt, PerSecond, Expansion;
    A.AccrualFacts(r, t);
    var total := A.Accrued(r, t).totalStableDebt;
    var average := A.BorrowedStable(r, amount, t).averageStableBorrowRate;
    AverageBelowWeighted(r.averageStableBorrowRate, total, amount, r.stableBorrowRate);
    PerSecondAverage(average, total + amount, r.averageStableBorrowRate, total, r.stableBorrowRate, amount);
    PerSecondNonNegative(average);
    PerSecondNonNegative(r.stableBorrowRate);
    B.NoTime(debts, PoolOf(r, t));
  }

  lemma PerSecondNonNegative(rate: int)
    requires rate >= 0
    ensures PerSecond(rate) >= 0.0
  {
  }

  lemma AverageBelowWeighted(averageRate: int, total: int, amount: int, rate: int)
    requires 0 <= averageRate && 0 <= total && 0 < amount && 0 <= rate
    ensures var average := AverageStableBorrowRate(averageRate, total, amount, rate);
      0 <= average && average * (total + amount) <= averageRate * total + rate * amount
  {
    NonNegativeWeights(averageRate, total, rate, amount);
    QuotientBounds(averageRate * total + rate * amount, total + amount);
  }

  lemma NonNegativeWeights(a: int, x: int, b: int, y: int)
    requires 0 <= a && 0 <= x && 0 <= b && 0 <= y
    ensures 0 <= a * x + b * y
  {
  }

  /** The user's record after a further stable borrow is the merged debt, its rate rounded down to a whole unit. */
  lemma StableBorrowMerges(r: ReserveData, after: ReserveData, u: UserReserveData, amount: int, t: int, now: int)
    requires after.variableBorrowIndex != 0 && 0 < amount && 0 <= r.stableBorrowRate
    requires 0 <= A.StableBalance(u, t) && 0 <= u.stableBorrowRate
    ensures var booked := UserAfterBorrow(r, after, u, amount, A.Stable, t, now);
      var merged := D.Merged(DebtOf(u, t), amount as real, PerSecond(r.stableBorrowRate));
      && merged.balance == booked.principalStableDebt as real
      && PerSecond(booked.stableBorrowRate) <= merged.rate < PerSecond(booked.stableBorrowRate + 1)
      && booked.stableRateLastUpdated == t
  {
    hide RayMul, RayDiv, A.StableBalance, TruncDiv, PerSecond;
    var b, z, l := A.StableBalance(u, t), u.stableBorrowRate, r.stableBorrowRate;
    var rate := UserStableRate(b, z, amount, l);
    NonNegativeWeights(b, z, amount, l);
    QuotientBounds(b * z + amount * l, b + amount);
    assert b * z == z * b && amount * l == l * amount && (b + amount) * (rate + 1) == rate * (b + amount) + (b + amount);
    PerSecondAverage(rate, b + amount, z, b, l, amount);
    PerSecondAverage(rate + 1, b + amount, z, b, l, amount);
    MergedRateBetween(DebtOf(u, t), amount as real, PerSecond(l), PerSecond(rate), PerSecond(rate + 1));
  }

  lemma MergedRateBetween(d: B.Debt, principal: real, rate: real, low: real, high: real)
    requires 0.0 <= d.balance && 0.0 < principal
    requires low * (d.balance + principal) <= d.rate * d.balance + rate * principal < high * (d.balance + principal)
    ensures low <= D.Merged(d, principal, rate).rate < high
  {
    var sum, weight := d.balance + principal, d.balance * d.rate + principal * rate;
    var m := weight / sum;
    assert m * sum == weight;
    if m < low {
      B.StrictScale(sum, m, low);
    }
    if m >= high {
      ScaleLe(sum, high, m);
    }
  }

  /** The clamps and the average of a stable repay are those of the event. */
  lemma StableRepayIsEvent(r: ReserveData, u: UserReserveData, amount: int, t: int, debts: seq<B.Debt>, i: nat)
    requires A.Consistent(r) && r.lastUpdateTimestamp <= t && 0 <= u.stableBorrowRate
    requires i < |debts| && debts[i] == DebtOf(u, t) && 0 <= amount <= A.StableBalance(u, t)
    ensures var total, after := A.Accrued(r, t).totalStableDebt, A.RepaidStable(r, amount, u.stableBorrowRate, t);
      var average := AverageStableBorrowRate(r.averageStableBorrowRate, total, -amount, u.stableBorrowRate);
      var e := D.Repay(0, i, amount as real, PerSecond(average));
      && D.Possible(debts, PoolOf(r, t), e)
      && D.PoolStep(PoolOf(r, t), e) == B.Pool(after.totalStableDebt as real, PerSecond(after.averageStableBorrowRate))
      && D.DebtsStep(debts, e)[i] == B.Debt((A.StableBalance(u, t) - amount) as real, PerSecond(u.stableBorrowRate))
  {
    hide RayMul, LiquidityIndex, VariableBorrowIndex, TotalStableDebt, PerSecond, Expansion, A.StableBalance, TruncDiv;
    A.AccrualFacts(r, t);
    var total := A.Accrued(r, t).totalStableDebt;
    var average := AverageStableBorrowRate(r.averageStableBorrowRate, total, -amount, u.stableBorrowRate);
    B.NoTime(debts, PoolOf(r, t));
    PerSecondSign(average);
    PerSecondSign(0);
    if 0 < average && amount <= total {
      PositiveAverageBelow(r.averageStableBorrowRate, total, amount, u.stableBorrowRate);
      PerSecondAverage(average, total - amount, r.averageStableBorrowRate, total, u.stableBorrowRate, -amount);
    }
  }

  /** The user's record after a stable repay is the event's next debt; nothing is left of the rate with nothing owed. */
  lemma StableRepayReduces(r: ReserveData, after: ReserveData, u: UserReserveData, amount: int, ownRepay: bool, t: int,
                           debts: seq<B.Debt>, i: nat, average: real)
    requires after.variableBorrowIndex != 0 && i < |debts| && debts[i] == DebtOf(u, t)
    requires 0 <= amount < A.StableBalance(u, t) && amount != MAX_UINT_AMOUNT
    ensures var booked := UserAfterRepay(r, after, u, amount, A.Stable, ownRepay, t, t);
      DebtOf(booked, t) == D.DebtsStep(debts, D.Repay(0, i, amount as real, average))[i]
      && booked.stableRateLastUpdated == t
  {
    hide UserAfterRepay, A.StableBalance, PerSecond, D.DebtsStep;
    RepaidRecord(r, after, u, amount, ownRepay, t);
    RepaidDebt(debts, i, amount as real, average);
  }

  lemma RepaidDebt(debts: seq<B.Debt>, i: nat, amount: real, average: real)
    requires i < |debts|
    ensures |D.DebtsStep(debts, D.Repay(0, i, amount, average))| == |debts|
    ensures D.DebtsStep(debts, D.Repay(0, i, amount, average))[i] == B.Debt(debts[i].balance - amount, debts[i].rate)
  {
    hide B.Accrued, B.PoolAt, D.Merged;
    B.NoTime(debts, D.EMPTY);
  }

  lemma RepaidRecord(r: ReserveData, after: ReserveData, u: UserReserveData, amount: int, ownRepay: bool, t: int)
    requires after.variableBorrowIndex != 0
    requires 0 <= amount < A.StableBalance(u, t) && amount != MAX_UINT_AMOUNT
    ensures var booked := UserAfterRepay(r, after, u, amount, A.Stable, ownRepay, t, t);
      && A.StableBalance(booked, t) == A.StableBalance(u, t) - amount
      && booked.stableBorrowRate == u.stableBorrowRate && booked.stableRateLastUpdated == t
  {
    hide RayMul, RayDiv, CompoundedInterest, VariableDebtTokenBalance, LTokenBalance, LiquidityIndex;
  }

  lemma PerSecondSign(rate: int)
    ensures PerSecond(rate) > 0.0 <==> rate > 0
    ensures PerSecond(rate) < 0.0 <==> rate < 0
    ensures PerSecond(0) == 0.0
  {
  }

  lemma PositiveAverageBelow(averageRate: int, total: int, amount: int, rate: int)
    requires 0 <= amount <= total
    requires AverageStableBorrowRate(averageRate, total, -amount, rate) > 0
    ensures AverageStableBorrowRate(averageRate, total, -amount, rate) * (total - amount) <= averageRate * total + rate * -amount
  {
    var weight := averageRate * total + rate * -amount;
    if weight >= 0 {
      QuotientBounds(weight, total - amount);
    } else {
      QuotientBounds(-weight, total - amount);
    }
  }

  // ---------- ahead by the rounded formulas ----------

  /** Stable debt of a borrower or of the pool, dated at one moment, with its yearly rate. */
  datatype Stable = Stable(principal: int, rate: int)

  function Later(d: Stable, t: int, n: int): Stable {
    Stable(StableDebtTokenBalance(d.principal, d.rate, t, t + n), d.rate)
  }

  function PoolLater(pool: Stable, t: int, n: int): Stable {
    Stable(TotalStableDebt(pool.principal, pool.rate, t, t + n), pool.rate)
  }

  function WithLoan(pool: Stable, amount: int, rate: int): Stable {
    Stable(pool.principal + amount, AverageStableBorrowRate(pool.rate, pool.principal, amount, rate))
  }

  function WithFurtherLoan(d: Stable, amount: int, rate: int): Stable
    requires d.principal + amount != 0
  {
    Stable(d.principal + amount, UserStableRate(d.principal, d.rate, amount, rate))
  }

  function WithoutDebt(pool: Stable, d: Stable): Stable {
    var (left, average) := A.PoolWithout(pool.rate, pool.principal, d.principal, d.rate);
    Stable(left, average)
  }

  /** Ten years. */
  const DECADE := 10 * ONE_YEAR

  const UNIT := 1_000_000_000_000_000_000

  /** Two units at three percent a year, and ten at twenty-five percent. */
  const FIRST := Stable(2 * UNIT, 3 * (RAY / 100))
  const SECOND := Stable(10 * UNIT, RAY / 4)

  /** A thousand units at a hundred and ten percent. */
  const THIRD := Stable(1_000 * UNIT, 11 * (RAY / 10))

  lemma RayMulIs(a: nat, b: nat, q: nat)
    requires q * RAY <= HALF_RAY + a * b < q * RAY + RAY
    ensures RayMul(a, b) == q
  {
    hide TruncDiv;
    QuotientUnique(HALF_RAY + a * b, RAY, q);
  }

  lemma CompoundedIs(rate: nat, t: int, n: nat, x: nat, square: nat, cube: nat, factor: nat)
    requires x * ONE_YEAR <= rate < x * ONE_YEAR + ONE_YEAR
    requires RayMul(x, x) == square && RayMul(square, x) == cube
    requires 6 * factor == 6 * RAY + 6 * (x * n) + 3 * (n * (n - 1) * square) + n * (n - 1) * (n - 2) * cube
    ensures CompoundedInterest(rate, t + n, t) == factor
  {
    hide CompoundedInterest, Factor, TruncDiv, RayMul;
    QuotientUnique(rate, ONE_YEAR, x);
    CompoundedIsFactor(rate, t + n, t);
    FactorIs(x, n, square, cube, factor);
  }

  /** A growth over some time from its intermediate values. */
  lemma GrownIs(principal: nat, rate: nat, t: nat, n: nat, x: nat, square: nat, cube: nat, factor: nat, balance: nat)
    requires t > 0 && rate > 0 && n > 0
    requires x * ONE_YEAR <= rate < x * ONE_YEAR + ONE_YEAR
    requires square * RAY <= HALF_RAY + x * x < square * RAY + RAY
    requires cube * RAY <= HALF_RAY + square * x < cube * RAY + RAY
    requires 6 * factor == 6 * RAY + 6 * (x * n) + 3 * (n * (n - 1) * square) + n * (n - 1) * (n - 2) * cube
    requires balance * RAY <= HALF_RAY + factor * principal < balance * RAY + RAY
    ensures PoolLater(Stable(principal, rate), t, n) == Stable(balance, rate) == Later(Stable(principal, rate), t, n)
  {
    RayMulIs(x, x, square);
    RayMulIs(square, x, cube);
    RayMulIs(factor, principal, balance);
    assert principal * factor == factor * principal;
    RayMulIs(principal, factor, balance);
    hide CompoundedInterest, RayMul;
    CompoundedIs(rate, t, n, x, square, cube, factor);
  }

  lemma FactorIs(x: nat, n: nat, square: nat, cube: nat, factor: nat)
    requires RayMul(x, x) == square && RayMul(square, x) == cube
    requires 6 * factor == 6 * RAY + 6 * (x * n) + 3 * (n * (n - 1) * square) + n * (n - 1) * (n - 2) * cube
    ensures Factor(x, n) == factor
  {
    hide RayMul, Pairs, Triples;
    PairsClosedForm(n);
    TriplesClosedForm(n);
    SixTimes(Pairs(n), Triples(n), n * (n - 1), n * (n - 1) * (n - 2), square, cube);
  }

  lemma SixTimes(pairs: int, triples: int, two: int, six: int, square: int, cube: int)
    requires two == 2 * pairs && six == 6 * triples
    ensures 3 * (two * square) + six * cube == 6 * (pairs * square) + 6 * (triples * cube)
  {
  }

  function TwoLoans(): Stable {
    WithLoan(WithLoan(Stable(0, 0), FIRST.principal, FIRST.rate), SECOND.principal, SECOND.rate)
  }

  lemma TwoLoansAre()
    ensures TwoLoans() == Stable(12 * UNIT, 213_333_333_333_333_333_333_333_333)
  {
    QuotientUnique(FIRST.rate * FIRST.principal, FIRST.principal, FIRST.rate);
    QuotientUnique(FIRST.rate * FIRST.principal + SECOND.rate * SECOND.principal, 12 * UNIT, 213_333_333_333_333_333_333_333_333);
  }

  lemma ThirdAdded()
    ensures WithLoan(Stable(84_351_825_916_867_928_974, 213_333_333_333_333_333_333_333_333), THIRD.principal, THIRD.rate)
      == Stable(1_084_351_825_916_867_928_974, 1_031_026_120_374_061_903_579_116_648)
  {
    QuotientUnique(213_333_333_333_333_333_333_333_333 * 84_351_825_916_867_928_974 + THIRD.rate * THIRD.principal,
                   1_084_351_825_916_867_928_974, 1_031_026_120_374_061_903_579_116_648);
  }

  lemma FurtherAdded()
    ensures WithFurtherLoan(Stable(92_281_422_883_581_387_615, SECOND.rate), THIRD.principal, THIRD.rate)
      == Stable(1_092_281_422_883_581_387_615, 1_028_187_729_089_113_635_502_696_734)
  {
    QuotientUnique(92_281_422_883_581_387_615 * SECOND.rate + THIRD.principal * THIRD.rate,
                   1_092_281_422_883_581_387_615, 1_028_187_729_089_113_635_502_696_734);
  }

  /**
    Ten years later the second borrower takes the third loan on top.  Everybody is accrued at the same
    moments, and after ten more years the pool is ahead of both borrowers by more than twenty-five units.
   */
  lemma FurtherLoanLetsRoundedPoolAhead(t: nat)
    requires t > 0
    ensures var later := t + DECADE;
      var pool := WithLoan(PoolLater(TwoLoans(), t, DECADE), THIRD.principal, THIRD.rate);
      var first, second := Later(FIRST, t, DECADE), Later(SECOND, t, DECADE);
      && second.principal + THIRD.principal != 0
      && PoolLater(pool, later, DECADE).principal
         > Later(first, later, DECADE).principal
           + Later(WithFurtherLoan(second, THIRD.principal, THIRD.rate), later, DECADE).principal + 25 * UNIT
  {
    hide Later, PoolLater, WithLoan, WithFurtherLoan, TwoLoans;
    var later := t + DECADE;
    TwoLoansAre();
    GrownIs(12_000_000_000_000_000_000, 213_333_333_333_333_333_333_333_333, t, DECADE, 6_764_755_623_203_111_787, 45_761_918_642, 310,
            7_029_318_826_405_660_747_864_960_000, 84_351_825_916_867_928_974);
    ThirdAdded();
    GrownIs(1_084_351_825_916_867_928_974, 1_031_026_120_374_061_903_579_116_648, later, DECADE, 32_693_623_806_889_329_768, 1_068_873_037_626, 34_945,
            247_125_276_396_258_753_764_987_200_000, 267_970_744_690_493_843_183_855);
    GrownIs(2_000_000_000_000_000_000, 30_000_000_000_000_000_000_000_000, t, DECADE, 951_293_759_512_937_595, 904_959_817, 1,
            1_350_227_193_232_912_412_919_760_000, 2_700_454_386_465_824_826);
    GrownIs(2_700_454_386_465_824_826, 30_000_000_000_000_000_000_000_000, later, DECADE, 951_293_759_512_937_595, 904_959_817, 1,
            1_350_227_193_232_912_412_919_760_000, 3_646_226_946_691_257_192);
    GrownIs(10_000_000_000_000_000_000, 250_000_000_000_000_000_000_000_000, t, DECADE, 7_927_447_995_941_146_626, 62_844_431_728, 498,
            9_228_142_288_358_138_761_454_080_000, 92_281_422_883_581_387_615);
    FurtherAdded();
    GrownIs(1_092_281_422_883_581_387_615, 1_028_187_729_089_113_635_502_696_734, later, DECADE, 32_603_619_009_675_089_913, 1_062_995_972_528, 34_658,
            245_304_445_254_941_150_025_997_600_000, 267_941_488_502_734_714_003_201);
  }

  lemma SecondRemoved()
    ensures WithoutDebt(Stable(1_084_351_825_916_867_928_974, 1_031_026_120_374_061_903_579_116_648), Stable(92_281_422_883_581_387_615, SECOND.rate))
      == Stable(992_070_403_033_286_541_359, 1_103_676_409_584_376_618_234_946_332)
  {
    QuotientUnique(1_031_026_120_374_061_903_579_116_648 * 1_084_351_825_916_867_928_974 - SECOND.rate * 92_281_422_883_581_387_615,
                   992_070_403_033_286_541_359, 1_103_676_409_584_376_618_234_946_332);
  }

  /**
    If instead somebody else takes the third loan and the second borrower repays everything, the pool goes
    on at a higher rate than any borrower left, and is ahead by more than three hundred units.
   */
  lemma LowRateRepayLetsRoundedPoolAhead(t: nat)
    requires t > 0
    ensures var later := t + DECADE;
      var pool := WithLoan(PoolLater(TwoLoans(), t, DECADE), THIRD.principal, THIRD.rate);
      var first, rest := Later(FIRST, t, DECADE), WithoutDebt(pool, Later(SECOND, t, DECADE));
      && rest.rate > THIRD.rate > first.rate
      && PoolLater(rest, later, DECADE).principal
         > Later(first, later, DECADE).principal + Later(THIRD, later, DECADE).principal + 300 * UNIT
  {
    hide Later, PoolLater, WithLoan, WithoutDebt, TwoLoans;
    var later := t + DECADE;
    TwoLoansAre();
    GrownIs(12_000_000_000_000_000_000, 213_333_333_333_333_333_333_333_333, t, DECADE, 6_764_755_623_203_111_787, 45_761_918_642, 310,
            7_029_318_826_405_660_747_864_960_000, 84_351_825_916_867_928_974);
    ThirdAdded();
    GrownIs(2_000_000_000_000_000_000, 30_000_000_000_000_000_000_000_000, t, DECADE, 951_293_759_512_937_595, 904_959_817, 1,
            1_350_227_193_232_912_412_919_760_000, 2_700_454_386_465_824_826);
    GrownIs(2_700_454_386_465_824_826, 30_000_000_000_000_000_000_000_000, later, DECADE, 951_293_759_512_937_595, 904_959_817, 1,
            1_350_227_193_232_912_412_919_760_000, 3_646_226_946_691_257_192);
    GrownIs(10_000_000_000_000_000_000, 250_000_000_000_000_000_000_000_000, t, DECADE, 7_927_447_995_941_146_626, 62_844_431_728, 498,
            9_228_142_288_358_138_761_454_080_000, 92_281_422_883_581_387_615);
    SecondRemoved();
    GrownIs(992_070_403_033_286_541_359, 1_103_676_409_584_376_618_234_946_332, later, DECADE, 34_997_349_365_308_746_138, 1_224_814_462_597, 42_865,
            297_005_488_563_539_123_659_353_520_000, 294_650_354_742_328_434_993_922);
    GrownIs(1_000_000_000_000_000_000_000, 1_100_000_000_000_000_000_000_000_000, later, DECADE, 34_880_771_182_141_045_154, 1_216_668_198_261, 42_438,
            294_331_632_046_345_063_989_453_520_000, 294_331_632_046_345_063_989_454);
  }
}
