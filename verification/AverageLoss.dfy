/**
  How much rounding can cost the pool's average rate when a just-added loan is removed again, and
  for which amounts the loss stays within 1 + amount / total whatever the rates are.
 */
module AverageLoss {
  import opened RayMath
  import opened StableDebt

  function Restored(average: int, total: int, amount: int, rate: int): int {
    AverageStableBorrowRate(AverageStableBorrowRate(average, total, amount, rate), total + amount, -amount, rate)
  }

  /** Whatever the rates are, the average loses at most 1 + amount / total. */
  ghost predicate LossAlwaysSmall(total: nat, amount: nat)
    requires total > 0
  {
    forall average: nat, rate: nat :: average - Restored(average, total, amount, rate) <= 1 + amount / total
  }

  /** The amount beyond whole multiples of the total is nothing, or goes into the total without remainder. */
  predicate EvenShare(total: nat, amount: nat)
    requires total > 0
  {
    amount % total == 0 || total % (amount % total) == 0
  }

  /** Removing the loan divides the weighted total, less what adding it rounded away. */
  lemma RestoredQuotient(average: nat, total: nat, amount: nat, rate: nat)
    returns (added: int, lost: int)
    requires total > 0 && amount > 0
    ensures 0 <= lost < total + amount
    ensures Restored(average, total, amount, rate) == TruncDiv(average * total - lost, total)
    ensures average * total + rate * amount == added * (total + amount) + lost
  {
    hide TruncDiv;
    var weighted := average * total + rate * amount;
    QuotientBounds(weighted, total + amount);
    added := TruncDiv(weighted, total + amount);
    lost := weighted - added * (total + amount);
    RemovalQuotient(added, total, amount, rate);
  }

  // ---------- an even share ----------

  lemma MultipleBelow(s: nat, z: int, bound: nat)
    requires s > 0 && s * z < s * bound
    ensures s * z <= s * bound - s
  {
    assert z >= bound ==> s * z >= s * bound;
    assert s * (bound - 1) == s * bound - s;
    assert z <= bound - 1 ==> s * z <= s * (bound - 1);
  }

  /** With an even share, what is rounded away is a multiple of that share, so it leaves room for one more. */
  lemma LostLeavesShare(total: nat, amount: nat, average: int, rate: int, added: int, lost: int)
    requires total > 0 && amount % total > 0 && total % (amount % total) == 0
    requires average * total + rate * amount == added * (total + amount) + lost && lost < total + amount
    ensures lost <= total + amount - amount % total
  {
    var s, q := amount % total, amount / total;
    var x := total / s;
    assert total == s * x;
    assert amount == q * total + s;
    var y := q * x + 1;
    assert amount == s * y by {
      assert q * (s * x) == s * (q * x);
      assert s * (q * x + 1) == s * (q * x) + s;
    }
    var z := average * x + rate * y - added * (x + y);
    assert lost == s * z by {
      assert average * (s * x) == s * (average * x);
      assert rate * (s * y) == s * (rate * y);
      assert added * (s * x + s * y) == s * (added * (x + y));
      assert s * z == s * (average * x) + s * (rate * y) - s * (added * (x + y));
    }
    assert total + amount == s * (x + y);
    MultipleBelow(s, z, x + y);
  }

  lemma WholeShares(total: nat, amount: nat)
    requires total > 0
    ensures (1 + amount / total) * total == total + amount - amount % total
  {
  }

  lemma EvenShareLosesLittle(total: nat, amount: nat, average: nat, rate: nat)
    requires total > 0 && amount > 0 && EvenShare(total, amount)
    ensures average - Restored(average, total, amount, rate) <= 1 + amount / total
  {
    hide TruncDiv, Restored;
    var added, lost := RestoredQuotient(average, total, amount, rate);
    if amount % total > 0 {
      LostLeavesShare(total, amount, average, rate, added, lost);
    }
    WholeShares(total, amount);
    var most := 1 + amount / total;
    assert (average - most) * total == average * total - most * total;
    QuotientAtLeast(average * total - lost, total, average - most);
  }

  // ---------- any other share ----------

  /** With an uneven share there is a pair of rates for which almost a whole unit is rounded away. */
  lemma UnevenShareLosesMore(total: nat, amount: nat) returns (average: nat, rate: nat)
    requires total > 0 && amount > 0 && !EvenShare(total, amount)
    ensures average - Restored(average, total, amount, rate) == 2 + amount / total
  {
    hide TruncDiv;
    var s, q := amount % total, amount / total;
    var m, w := total / s, total % s;
    average := q + 2;
    rate := average + 1 + m * (q + 1);
    var j := 1 + m * (q + 1);
    var n := total + amount;
    StepsAround(total, amount, s, q, m, w);
    var added := average + j - m - 1;
    assert average * total + rate * amount == average * n + j * amount by {
      assert rate * amount == average * amount + j * amount;
    }
    assert added * n == average * n + (j - m) * n - n;
    QuotientUnique(average * total + rate * amount, n, added);
    RemovalQuotient(added, total, amount, rate);
    assert added * n - rate * amount == average * total - (n - w);
    assert average * total - (n - w) == w + (total - s);
    QuotientUnique(w + (total - s), total, 0);
  }

  /** Going around the total plus the amount in steps of the amount misses the start by the remainder `w`. */
  lemma StepsAround(total: nat, amount: nat, s: nat, q: nat, m: nat, w: nat)
    requires amount == q * total + s && total == m * s + w
    ensures (1 + m * (q + 1)) * amount == (1 + m * (q + 1) - m) * (total + amount) - w
    ensures (q + 2) * total - (total + amount - w) == w + (total - s)
  {
    var j, n := 1 + m * (q + 1), total + amount;
    assert n == (q + 1) * total + s;
    assert j * total == w + m * n by {
      assert j * total == total + m * ((q + 1) * total);
      assert m * n == m * ((q + 1) * total) + m * s;
    }
    assert j * amount == j * n - j * total;
    assert (j - m) * n == j * n - m * n;
  }

  /** The loss stays within 1 + amount / total for all rates if and only if the amount is an even share. */
  lemma LossAlwaysSmallIff(total: nat, amount: nat)
    requires total > 0 && amount > 0
    ensures LossAlwaysSmall(total, amount) <==> EvenShare(total, amount)
  {
    hide Restored;
    if EvenShare(total, amount) {
      forall average: nat, rate: nat ensures average - Restored(average, total, amount, rate) <= 1 + amount / total {
        EvenShareLosesLittle(total, amount, average, rate);
      }
    } else {
      var average, rate := UnevenShareLosesMore(total, amount);
      assert average - Restored(average, total, amount, rate) > 1 + amount / total;
    }
  }

  // ---------- for given rates ----------

  /** What adding the loan rounds away. */
  function Lost(average: nat, total: nat, amount: nat, rate: nat): int
    requires total > 0
  {
    (average * total + rate * amount) % (total + amount)
  }

  lemma RemainderIs(n: nat, d: nat, q: int, m: int)
    requires d > 0 && n == q * d + m && 0 <= m < d
    ensures n % d == m
  {
    hide TruncDiv;
    QuotientBounds(n, d);
    QuotientUnique(n, d, q);
  }

  /** For given rates the loss stays within 1 + amount / total if and only if not much was rounded away, or all of the average was. */
  lemma LossSmallIff(average: nat, total: nat, amount: nat, rate: nat)
    requires total > 0 && amount > 0
    ensures average - Restored(average, total, amount, rate) <= 1 + amount / total
      <==> (Lost(average, total, amount, rate) <= (1 + amount / total) * total
            || average * total < Lost(average, total, amount, rate))
  {
    hide Restored, TruncDiv, Lost;
    var added, lost := RestoredQuotient(average, total, amount, rate);
    LostIs(average, total, amount, rate, added, lost);
    if lost <= average * total {
      LossOfPart(average, total, amount, lost);
    } else {
      LossOfEverything(average, total, amount, lost);
    }
  }

  lemma LostIs(average: nat, total: nat, amount: nat, rate: nat, added: int, lost: int)
    requires total > 0 && 0 <= lost < total + amount
    requires average * total + rate * amount == added * (total + amount) + lost
    ensures Lost(average, total, amount, rate) == lost
  {
    RemainderIs(average * total + rate * amount, total + amount, added, lost);
  }

  lemma LossOfPart(average: nat, total: nat, amount: nat, lost: nat)
    requires total > 0 && lost <= average * total
    ensures average - TruncDiv(average * total - lost, total) <= 1 + amount / total
      <==> lost <= (1 + amount / total) * total
  {
    hide TruncDiv;
    var left := TruncDiv(average * total - lost, total);
    QuotientBounds(average * total - lost, total);
    LossCounted(average - left, 1 + amount / total, total, average * total - left * total, lost) by {
      assert (average - left) * total == average * total - left * total;
    }
  }

  lemma LossCounted(loss: int, most: int, total: int, weight: int, lost: int)
    requires total > 0 && weight == loss * total && weight - total < lost <= weight
    ensures lost <= most * total <==> loss <= most
  {
    if loss <= most {
      ProductLe(total, loss, most);
    } else {
      ProductLe(total, most, loss - 1);
    }
  }

  /** When more than the weighted average was rounded away, truncation toward zero rounds in favour of the average. */
  lemma LossOfEverything(average: nat, total: nat, amount: nat, lost: nat)
    requires total > 0 && amount > 0 && average * total < lost < total + amount
    ensures average - TruncDiv(average * total - lost, total) <= 1 + amount / total
  {
    hide TruncDiv;
    var over := lost - average * total;
    var most := 1 + amount / total;
    var q := TruncDiv(over, total);
    QuotientBounds(over, total);
    NegatedQuotient(over, total);
    WholeShares(total, amount);
    assert (average + q) * total == average * total + q * total;
    MultiplesCompare(average + q, most, total);
  }

  lemma NegatedQuotient(n: int, d: int)
    requires n > 0 && d > 0
    ensures TruncDiv(-n, d) == -TruncDiv(n, d)
  {
  }
}
