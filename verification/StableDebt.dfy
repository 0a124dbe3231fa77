/**
  Stable-rate debt: the balance of one borrower, the pooled total, and the
  debt-weighted average rate the pool keeps instead of every borrower's own rate.
 */
module StableDebt {
  import opened RayMath
  import opened Interest

  function AverageStableBorrowRate(averageBefore: int, totalBefore: int, amountChanged: int, rate: int): int {
    var weightedTotalBorrows := averageBefore * totalBefore;
    var weightedAmountBorrowed := rate * amountChanged;
    var totalBorrowedStable := totalBefore + amountChanged;
    if totalBorrowedStable == 0 then
      0
    else
      TruncDiv(weightedTotalBorrows + weightedAmountBorrowed, totalBorrowedStable)
  }

  function UserStableRate(balanceBefore: int, rateBefore: int, amount: int, rateNew: int): int
    requires balanceBefore + amount != 0
  {
    TruncDiv(balanceBefore * rateBefore + amount * rateNew, balanceBefore + amount)
  }

  function StableDebtTokenBalance(principal: int, rate: int, lastUpdated: int, currentTimestamp: int): int {
    if rate == 0 || currentTimestamp == lastUpdated || lastUpdated == 0 then
      principal
    else
      RayMul(principal, CompoundedInterest(rate, currentTimestamp, lastUpdated))
  }

  function TotalStableDebt(principal: int, averageRate: int, lastUpdated: int, currentTimestamp: int): int {
    RayMul(CompoundedInterest(averageRate, currentTimestamp, lastUpdated), principal)
  }

  // ---------- balances ----------

  /** A stable balance never shrinks, whichever of its shortcuts applies. */
  lemma StableBalanceGrows(principal: int, rate: int, last: int, current: int)
    requires principal >= 0 && rate >= 0 && current >= last
    ensures principal <= StableDebtTokenBalance(principal, rate, last, current)
    ensures principal <= TotalStableDebt(principal, rate, last, current)
  {
    hide CompoundedInterest, RayMul;
    CompoundedMonotone(rate, rate, current, current, last);
    RayMulGrows(principal, CompoundedInterest(rate, current, last));
  }

  lemma StableBalanceMonotone(principal: int, rate: int, last: int, current: int, later: int)
    requires principal >= 0 && rate >= 0 && last <= current <= later
    ensures StableDebtTokenBalance(principal, rate, last, current) <= StableDebtTokenBalance(principal, rate, last, later)
  {
    hide CompoundedInterest, RayMul;
    CompoundedMonotone(rate, rate, current, later, last);
    RayMulMonotone(principal, CompoundedInterest(rate, current, last), principal, CompoundedInterest(rate, later, last));
    RayMulGrows(principal, CompoundedInterest(rate, later, last));
  }

  /** Once some debt was ever recorded, a single balance and a pooled total grow by the same formula. */
  lemma BalanceIsTotal(principal: int, rate: int, last: int, current: int)
    requires principal >= 0 && current >= last && last != 0
    ensures StableDebtTokenBalance(principal, rate, last, current) == TotalStableDebt(principal, rate, last, current)
  {
    hide RayMul;
    ZeroRateFactors(current, last);
    RayMulByRay(principal);
    RayMulCommutes(principal, CompoundedInterest(rate, current, last));
  }

  lemma TotalAtOnce(principal: int, rate: int, now: int)
    requires principal >= 0
    ensures TotalStableDebt(principal, rate, now, now) == principal
  {
    RayMulByRay(principal);
  }

  // ---------- the average rate ----------

  lemma WeightedBetween(a: int, b: int, p: int, q: int)
    requires p >= 0 && q >= 0
    ensures (if a <= b then a else b) * (p + q) <= a * p + b * q <= (if a <= b then b else a) * (p + q)
  {
    if a <= b {
      assert a * q <= b * q && a * p <= b * p;
    } else {
      assert b * q <= a * q && b * p <= a * p;
    }
  }

  /** Adding a loan moves the average to a rate between the old average and the loan's rate. */
  lemma AddedLoanKeepsAverageBetween(average: int, total: int, amount: int, rate: int)
    requires average >= 0 && rate >= 0 && total >= 0 && amount >= 0 && total + amount > 0
    ensures (if average <= rate then average else rate)
      <= AverageStableBorrowRate(average, total, amount, rate)
      <= (if average <= rate then rate else average)
    ensures AverageStableBorrowRate(average, total, amount, rate) * (total + amount) <= average * total + rate * amount
    ensures average * total + rate * amount
      < AverageStableBorrowRate(average, total, amount, rate) * (total + amount) + (total + amount)
  {
    hide TruncDiv;
    WeightedBetween(average, rate, total, amount);
    var weighted := average * total + rate * amount;
    assert weighted >= 0 by {
      assert average * total >= 0 && rate * amount >= 0;
    }
    QuotientBounds(weighted, total + amount);
    var result := TruncDiv(weighted, total + amount);
    MultiplesCompare(if average <= rate then average else rate, result, total + amount);
    MultiplesCompare(result, if average <= rate then rate else average, total + amount);
  }

  /**
    Taking a just-added loan out again never raises the average above what it was before, and
    lowers it by at most 1 + ceil((amount - 1) / total).
   */
  lemma RemovedLoanRestoresAverage(average: int, total: int, amount: int, rate: int)
    requires average >= 0 && rate >= 0 && total > 0 && amount > 0
    ensures var added := AverageStableBorrowRate(average, total, amount, rate);
      var restored := AverageStableBorrowRate(added, total + amount, -amount, rate);
      restored <= average && average - restored <= 1 + (amount - 1 + total - 1) / total
  {
    hide TruncDiv, AverageStableBorrowRate;
    var added := AverageStableBorrowRate(average, total, amount, rate);
    AddedLoanKeepsAverageBetween(average, total, amount, rate);
    var weighted := added * (total + amount) - rate * amount;
    assert AverageStableBorrowRate(added, total + amount, -amount, rate) == TruncDiv(weighted, total) by {
      RemovalQuotient(added, total, amount, rate);
    }
    TruncDivUpper(weighted, total, average);
    var loss := 1 + (amount - 1 + total - 1) / total;
    assert (average - loss) * total <= weighted by {
      assert weighted > average * total - (total + amount);
      QuotientBounds(amount - 1 + total - 1, total);
      assert loss * total >= amount - 1 + total;
      assert (average - loss) * total == average * total - loss * total;
    }
    QuotientAtLeast(weighted, total, average - loss);
  }

  lemma RemovalQuotient(added: int, total: int, amount: int, rate: int)
    requires total > 0
    ensures AverageStableBorrowRate(added, total + amount, -amount, rate)
      == TruncDiv(added * (total + amount) - rate * amount, total)
  {
    hide TruncDiv;
    assert rate * -amount == -(rate * amount);
  }

  lemma TruncDivUpper(n: int, d: int, q: int)
    requires d > 0 && q >= 0 && n <= q * d
    ensures TruncDiv(n, d) <= q
  {
    if n >= 0 {
      QuotientBounds(n, d);
      MultiplesCompare(TruncDiv(n, d), q, d);
    } else {
      QuotientBounds(-n, d);
    }
  }

  /** The loss of the previous lemma is attained: a loan of 3 on a pool of 10 costs two units of the rate. */
  lemma RemovalLossIsAttained()
    ensures AverageStableBorrowRate(3, 10, 3, 7) == 3
    ensures AverageStableBorrowRate(3, 13, -3, 7) == 1
  {
  }
}
