/**
  How a rate turns into growth: the linear factor credited to depositors and the
  three-term compounding factor charged to borrowers.
 */
module Interest {
  import opened RayMath

  /** 1 + rate * elapsed / year, in rays. */
  function LinearInterest(rate: int, currentTimestamp: int, lastUpdateTimestamp: int): int {
    var timeDifference := currentTimestamp - lastUpdateTimestamp;
    TruncDiv(rate * timeDifference, ONE_YEAR) + RAY
  }

  /** The first four terms of the binomial expansion of (1 + rate per second) ^ elapsed, in rays. */
  function CompoundedInterest(rate: int, currentTimestamp: int, lastUpdateTimestamp: int): int {
    var timeDifference := currentTimestamp - lastUpdateTimestamp;
    if timeDifference == 0 then
      RAY
    else
      var expMinusOne := timeDifference - 1;
      var expMinusTwo := if timeDifference > 2 then timeDifference - 2 else 0;
      var ratePerSecond := TruncDiv(rate, ONE_YEAR);
      var basePowerTwo := RayMul(ratePerSecond, ratePerSecond);
      var basePowerThree := RayMul(basePowerTwo, ratePerSecond);
      var secondTerm := TruncDiv(timeDifference * expMinusOne * basePowerTwo, 2);
      var thirdTerm := TruncDiv(timeDifference * expMinusOne * expMinusTwo * basePowerThree, 6);
      RAY + ratePerSecond * timeDifference + secondTerm + thirdTerm
  }

  // ---------- the factor without its divisions ----------

  /** Number of pairs, respectively triples, that can be chosen among `n` seconds. */
  function Pairs(n: nat): nat {
    if n == 0 then 0 else Pairs(n - 1) + n - 1
  }

  function Triples(n: nat): nat {
    if n == 0 then 0 else Triples(n - 1) + Pairs(n - 1)
  }

  lemma {:induction false} PairsClosedForm(n: nat)
    ensures 2 * Pairs(n) == n * (n - 1)
  {
    if n > 0 {
      PairsClosedForm(n - 1);
    }
  }

  lemma {:induction false} TriplesClosedForm(n: nat)
    ensures 6 * Triples(n) == n * (n - 1) * (n - 2)
  {
    if n > 0 {
      TriplesClosedForm(n - 1);
      PairsClosedForm(n - 1);
      NextTriples(n - 1, (n - 1) * (n - 2), 6 * Triples(n - 1));
    }
  }

  lemma NextTriples(m: int, k: int, before: int)
    requires k == m * (m - 1) && before == k * (m - 2)
    ensures before + 3 * k == (m + 1) * m * (m - 1)
  {
    assert before + 3 * k == (m + 1) * k;
  }

  lemma {:induction false} ChoicesMonotone(m: nat, n: nat)
    requires m <= n
    ensures Pairs(m) <= Pairs(n) && Triples(m) <= Triples(n)
    decreases n
  {
    if m < n {
      ChoicesMonotone(m, n - 1);
    }
  }

  /** The compounding factor for a per-second rate `x` over `n` seconds. */
  function Factor(x: int, n: nat): int {
    var square := RayMul(x, x);
    RAY + x * n + Pairs(n) * square + Triples(n) * RayMul(square, x)
  }

  lemma ExactHalf(n: int, a: int, b: int)
    requires n >= 0 && 2 * a == n && b >= 0
    ensures TruncDiv(n * b, 2) == a * b
  {
    assert n * b == (a * b) * 2;
    assert a * b >= 0;
    QuotientUnique(n * b, 2, a * b);
  }

  lemma ExactSixth(n: int, a: int, b: int)
    requires n >= 0 && 6 * a == n && b >= 0
    ensures TruncDiv(n * b, 6) == a * b
  {
    assert n * b == (a * b) * 6;
    assert a * b >= 0;
    QuotientUnique(n * b, 6, a * b);
  }

  /** Neither halving nor division by six ever loses anything in the compounding factor. */
  lemma CompoundedIsFactor(rate: int, current: int, last: int)
    requires rate >= 0 && current >= last
    ensures TruncDiv(rate, ONE_YEAR) >= 0
    ensures CompoundedInterest(rate, current, last) == Factor(TruncDiv(rate, ONE_YEAR), current - last)
  {
    var n := current - last;
    var x := TruncDiv(rate, ONE_YEAR);
    QuotientBounds(rate, ONE_YEAR);
    RayMulBounds(x, x);
    RayMulBounds(RayMul(x, x), x);
    if n > 0 {
      PairsClosedForm(n);
      TriplesClosedForm(n);
      ExactHalf(n * (n - 1), Pairs(n), RayMul(x, x));
      var e := if n > 2 then n - 2 else 0;
      assert n * (n - 1) * e == n * (n - 1) * (n - 2);
      ExactSixth(n * (n - 1) * e, Triples(n), RayMul(RayMul(x, x), x));
    }
  }

  // ---------- order ----------

  lemma FactorMonotone(x: int, y: int, m: nat, n: nat)
    requires 0 <= x <= y && m <= n
    ensures RAY <= Factor(x, m) <= Factor(y, n)
    ensures RAY + x * m <= Factor(x, m)
  {
    hide RayMul, Pairs, Triples;
    ChoicesMonotone(m, n);
    RayMulMonotone(x, x, y, y);
    RayMulMonotone(RayMul(x, x), x, RayMul(y, y), y);
    ProductMonotone(x, y, m, n);
    ProductMonotone(Pairs(m), Pairs(n), RayMul(x, x), RayMul(y, y));
    ProductMonotone(Triples(m), Triples(n), RayMul(RayMul(x, x), x), RayMul(RayMul(y, y), y));
  }

  lemma ProductMonotone(a: int, b: int, c: int, d: int)
    requires 0 <= a <= b && 0 <= c <= d
    ensures 0 <= a * c <= b * d
  {
    assert a * c <= a * d <= b * d;
  }

  /** Compounding never shrinks a debt, and charges no less for a higher rate or a longer time. */
  lemma CompoundedMonotone(rate: int, higher: int, current: int, later: int, last: int)
    requires 0 <= rate <= higher && last <= current <= later
    ensures RAY <= CompoundedInterest(rate, current, last) <= CompoundedInterest(higher, later, last)
  {
    CompoundedIsFactor(rate, current, last);
    CompoundedIsFactor(higher, later, last);
    QuotientMonotone(rate, higher, ONE_YEAR);
    FactorMonotone(TruncDiv(rate, ONE_YEAR), TruncDiv(higher, ONE_YEAR), current - last, later - last);
  }

  lemma LinearMonotone(rate: int, higher: int, current: int, later: int, last: int)
    requires 0 <= rate <= higher && last <= current <= later
    ensures RAY <= LinearInterest(rate, current, last) <= LinearInterest(higher, later, last)
  {
    ProductMonotone(rate, higher, current - last, later - last);
    QuotientBounds(rate * (current - last), ONE_YEAR);
    QuotientMonotone(rate * (current - last), higher * (later - last), ONE_YEAR);
  }

  /** The linear factor is one ray and the rate times the elapsed part of a year, cut to a whole unit. */
  lemma LinearBounds(rate: int, current: int, last: int)
    requires 0 <= rate && last <= current
    ensures (LinearInterest(rate, current, last) - RAY) * ONE_YEAR <= rate * (current - last)
    ensures rate * (current - last) < (LinearInterest(rate, current, last) - RAY) * ONE_YEAR + ONE_YEAR
  {
    ProductMonotone(0, rate, 0, current - last);
    QuotientBounds(rate * (current - last), ONE_YEAR);
  }

  lemma ZeroRateFactors(current: int, last: int)
    requires current >= last
    ensures LinearInterest(0, current, last) == RAY == CompoundedInterest(0, current, last)
  {
    var n := current - last;
    CompoundedIsFactor(0, current, last);
    assert Pairs(n) * 0 == 0 == Triples(n) * 0;
  }

  /**
    Borrowers are charged at least what a linear credit would earn, up to one unit per second
    lost by truncating the rate per second.  The two factors coincide after zero and one second.
   */
  lemma CompoundedCoversLinear(rate: int, current: int, last: int)
    requires rate >= 0 && current >= last
    ensures LinearInterest(rate, current, last) <= CompoundedInterest(rate, current, last) + (current - last)
    ensures current - last <= 1 ==> LinearInterest(rate, current, last) == CompoundedInterest(rate, current, last)
  {
    hide Factor, CompoundedInterest, TruncDiv;
    var n := current - last;
    var x := TruncDiv(rate, ONE_YEAR);
    CompoundedIsFactor(rate, current, last);
    FactorMonotone(x, x, n, n);
    LinearOfSplitRate(rate, n);
    ShortFactors(x);
  }

  lemma LinearOfSplitRate(rate: int, n: nat)
    requires rate >= 0
    ensures TruncDiv(rate * n, ONE_YEAR) <= TruncDiv(rate, ONE_YEAR) * n + n
    ensures n <= 1 ==> TruncDiv(rate * n, ONE_YEAR) == TruncDiv(rate, ONE_YEAR) * n
  {
    hide TruncDiv;
    QuotientBounds(rate, ONE_YEAR);
    SplitRateProduct(rate, TruncDiv(rate, ONE_YEAR), n);
    QuotientBounds(rate * n, ONE_YEAR);
    MultiplesCompare(TruncDiv(rate * n, ONE_YEAR), TruncDiv(rate, ONE_YEAR) * n + n, ONE_YEAR);
    if n == 0 {
      QuotientUnique(0, ONE_YEAR, 0);
    }
  }

  lemma SplitRateProduct(rate: nat, x: nat, n: nat)
    requires rate <= x * ONE_YEAR + ONE_YEAR
    ensures 0 <= rate * n <= (x * n + n) * ONE_YEAR
  {
    var bound := x * ONE_YEAR + ONE_YEAR;
    ProductMonotone(rate, bound, n, n);
    assert bound * n == (x * n + n) * ONE_YEAR;
  }

  lemma ShortFactors(x: int)
    ensures Factor(x, 0) == RAY && Factor(x, 1) == RAY + x
  {
    assert Pairs(1) == 0 && Triples(1) == 0;
  }

  // ---------- growth over a second period ----------

  lemma {:induction false} PairsSplit(m: nat, n: nat)
    ensures Pairs(m + n) == Pairs(m) + m * n + Pairs(n)
  {
    if n > 0 {
      PairsSplit(m, n - 1);
      assert m * n == m * (n - 1) + m;
    }
  }

  lemma {:induction false} TriplesSplit(m: nat, n: nat)
    ensures Triples(m + n) == Triples(m) + Pairs(m) * n + m * Pairs(n) + Triples(n)
  {
    if n > 0 {
      TriplesSplit(m, n - 1);
      PairsSplit(m, n - 1);
      TriplesSplitStep(m, n - 1, Pairs(m), Pairs(n - 1));
    }
  }

  lemma TriplesSplitStep(m: int, n: int, pm: int, pn: int)
    ensures pm * (n + 1) + m * (pn + n) == (pm * n + m * pn) + (pm + m * n)
  {
  }

  /** How far compounding from the start falls short of compounding anew, per second and in half rays. */
  function Curvature(x: int, m: nat): int {
    RAY * m + RAY * Pairs(m) + 2 * (Triples(m) * (x * RayMul(RayMul(x, x), x)))
  }

  /** Whatever has accrued over `m` seconds earns at least simple interest over the next `n`, up to the curvature. */
  lemma FactorGain(x: int, m: nat, n: nat)
    requires x >= 0
    ensures 2 * (x * n * Factor(x, m)) - n * Curvature(x, m) <= 2 * RAY * (Factor(x, m + n) - Factor(x, m))
  {
    hide RayMul, Pairs, Triples;
    var square, cube := RayMul(x, x), RayMul(RayMul(x, x), x);
    RayMulBounds(x, x);
    RayMulBounds(square, x);
    PairsSplit(m, n);
    TriplesSplit(m, n);
    FactorGainChain(x, m, n, square, cube, Pairs(m), Pairs(n), Triples(m), Triples(n));
  }

  lemma FactorGainChain(x: nat, m: nat, n: nat, square: nat, cube: nat, pm: nat, pn: nat, tm: nat, tn: nat)
    requires x * x - HALF_RAY <= square * RAY && square * x - HALF_RAY <= cube * RAY
    ensures 2 * (x * n * (RAY + x * m + pm * square + tm * cube)) - n * (RAY * m + RAY * pm + 2 * (tm * (x * cube)))
      <= 2 * RAY * ((RAY + x * (m + n) + (pm + m * n + pn) * square + (tm + pm * n + m * pn + tn) * cube)
                    - (RAY + x * m + pm * square + tm * cube))
  {
    var gain := x * n + (m * n + pn) * square + (pm * n + m * pn + tn) * cube;
    GainSplits(x, m, n, square, cube, pm, pn, tm, tn);
    LeastGain(m * n, pm * n, pn, m * pn + tn, x * n, square, cube, gain);
    Scaled(m * n, x * x, square * RAY);
    Scaled(pm * n, square * x, cube * RAY);
    SimpleInterest(x, m, n, square, cube, pm, tm);
  }

  lemma GainSplits(x: int, m: int, n: int, square: int, cube: int, pm: int, pn: int, tm: int, tn: int)
    ensures (RAY + x * (m + n) + (pm + m * n + pn) * square + (tm + pm * n + m * pn + tn) * cube)
      - (RAY + x * m + pm * square + tm * cube)
      == x * n + (m * n + pn) * square + (pm * n + m * pn + tn) * cube
  {
    assert x * (m + n) == x * m + x * n;
    assert (pm + m * n + pn) * square == pm * square + (m * n + pn) * square;
    assert (tm + pm * n + m * pn + tn) * cube == tm * cube + (pm * n + m * pn + tn) * cube;
  }

  lemma LeastGain(mn: nat, pmn: nat, pn: nat, rest: nat, xn: int, square: nat, cube: nat, gain: int)
    requires gain == xn + (mn + pn) * square + (pmn + rest) * cube
    ensures xn + mn * square + pmn * cube <= gain
  {
    assert (mn + pn) * square == mn * square + pn * square;
    assert (pmn + rest) * cube == pmn * cube + rest * cube;
    assert pn * square >= 0 && rest * cube >= 0;
  }

  lemma Scaled(k: nat, a: int, b: int)
    requires a - HALF_RAY <= b
    ensures 2 * (k * a) - RAY * k <= 2 * (k * b)
  {
    ProductLe(k, a - HALF_RAY, b);
    assert k * (a - HALF_RAY) == k * a - HALF_RAY * k;
  }

  lemma SimpleInterest(x: int, m: int, n: int, square: int, cube: int, pm: int, tm: int)
    ensures x * n * (RAY + x * m + pm * square + tm * cube)
      == RAY * (x * n) + m * n * (x * x) + pm * n * (square * x) + n * (tm * (x * cube))
    ensures n * (RAY * m + RAY * pm + 2 * (tm * (x * cube)))
      == RAY * (m * n) + RAY * (pm * n) + 2 * (n * (tm * (x * cube)))
    ensures m * n * (square * RAY) == RAY * (m * n * square) && pm * n * (cube * RAY) == RAY * (pm * n * cube)
  {
    var k := x * n;
    Distribute(k, RAY, x * m, pm * square, tm * cube);
    Regroup(x, n, x, m);
    Regroup(x, n, square, pm);
    Regroup(x, n, cube, tm);
    assert tm * n * (cube * x) == n * (tm * (x * cube));
    Distribute(n, RAY * m, RAY * pm, 2 * (tm * (x * cube)), 0);
    assert n * (RAY * m) == RAY * (m * n) && n * (RAY * pm) == RAY * (pm * n);
  }

  lemma Distribute(k: int, a: int, b: int, c: int, d: int)
    ensures k * (a + b + c + d) == k * a + k * b + k * c + k * d
  {
  }

  lemma Regroup(x: int, n: int, a: int, m: int)
    ensures x * n * (m * a) == m * n * (a * x)
  {
  }
}
