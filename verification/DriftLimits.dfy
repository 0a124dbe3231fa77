/**
  Where the pool does get ahead of the borrowers: by their own dates, and without the conditions on further
  loans and on repays.
 */
module DriftLimits {
  import opened Interest
  import opened Compounding
  import opened Backing
  import opened Drift
  import opened Restart

  // ---------- own dates ----------

  /**
    The pool can owe more than the borrowers do from their own dates: for every positive rate, two
    loans at that rate two seconds apart, looked at two seconds later.
   */
  lemma PoolOvertakesOwnDates(z: real, principal: real)
    requires 0.0 < z && 0.0 < principal
    ensures var events := [Borrow(0, 0, 1.0, z, z), Borrow(2, 1, principal, z, z)];
      && BackedRun([], EMPTY, events)
      && PoolAt(PoolAfter(EMPTY, events), 2) > Expansion(z, 4) + principal * Expansion(z, 2)
  {
    hide Expansion, DebtsStep, PoolStep, PoolAt, Possible, HigherRatesBack, Reaches;
    var first, second, one, pool := Borrow(0, 0, 1.0, z, z), Borrow(2, 1, principal, z, z), [Debt(1.0, z)], Pool(1.0, z);
    assert [] + [first] == [first] && [first] + [second] == [first, second] && [] + one == one;
    EmptyReached();
    LoanAtOnce([], EMPTY, first);
    ReachesNext([], [], EMPTY, first, one, pool);
    LoanAtSameRate(one, pool, second);
    ReachesNext([first], one, pool, second, DebtsStep(one, second), PoolStep(pool, second));
    ReachedRun([first, second], DebtsStep(one, second), PoolStep(pool, second));
    SecondLoanGrows(z, principal);
  }

  lemma SecondLoanGrows(z: real, principal: real)
    requires 0.0 < z
    ensures PoolAt(Pool(PoolAt(Pool(1.0, z), 2) + principal, z), 2) > Expansion(z, 4) + principal * Expansion(z, 2)
  {
    hide Expansion;
    RestartCostsIff(z, 2, 2);
    AddedGrowth(Expansion(z, 2), principal, Expansion(z, 4));
  }

  /** A first loan at the pool's own rate leaves the average at that rate. */
  lemma LoanAtSameRate(debts: seq<Debt>, pool: Pool, e: Event)
    requires e.Borrow? && e.borrower == |debts| && 0.0 < e.principal && 0.0 <= e.rate == e.average == pool.rate
    ensures Possible(debts, pool, e) && HigherRatesBack(debts, pool, e)
    ensures PoolStep(pool, e) == Pool(PoolAt(pool, e.wait) + e.principal, e.rate)
  {
    hide PoolAt;
    assert e.rate * (PoolAt(pool, e.wait) + e.principal) == e.rate * PoolAt(pool, e.wait) + e.rate * e.principal;
  }

  lemma AddedGrowth(growth: real, principal: real, single: real)
    requires single < growth * growth
    ensures single + principal * growth < (growth + principal) * growth
  {
  }

  /** A run from the empty pool ends at these debts and this pool. */
  ghost predicate Reaches(events: seq<Event>, debts: seq<Debt>, pool: Pool) {
    BackedRun([], EMPTY, events) && DebtsAfter([], events) == debts && PoolAfter(EMPTY, events) == pool
  }

  lemma EmptyReached()
    ensures Reaches([], [], EMPTY)
  {
  }

  lemma ReachedRun(events: seq<Event>, debts: seq<Debt>, pool: Pool)
    requires Reaches(events, debts, pool)
    ensures BackedRun([], EMPTY, events) && DebtsAfter([], events) == debts && PoolAfter(EMPTY, events) == pool
  {
    hide BackedRun, DebtsAfter, PoolAfter;
  }

  lemma ReachesNext(events: seq<Event>, debts: seq<Debt>, pool: Pool, e: Event, debts': seq<Debt>, pool': Pool)
    requires Reaches(events, debts, pool) && Possible(debts, pool, e) && HigherRatesBack(debts, pool, e)
    requires debts' == DebtsStep(debts, e) && pool' == PoolStep(pool, e)
    ensures Reaches(events + [e], debts', pool')
  {
    hide Possible, HigherRatesBack, DebtsStep, PoolStep, BackedRun, DebtsAfter, PoolAfter;
    RunExtends([], EMPTY, events, e);
  }

  lemma {:induction false} RunExtends(debts: seq<Debt>, pool: Pool, events: seq<Event>, e: Event)
    requires BackedRun(debts, pool, events)
    ensures PoolAfter(pool, events + [e]) == PoolStep(PoolAfter(pool, events), e)
    ensures DebtsAfter(debts, events + [e]) == DebtsStep(DebtsAfter(debts, events), e)
    ensures var after, grown := PoolAfter(pool, events), DebtsAfter(debts, events);
      (Possible(grown, after, e) && HigherRatesBack(grown, after, e)) ==> BackedRun(debts, pool, events + [e])
    decreases |events|
  {
    hide Possible, HigherRatesBack, DebtsStep, PoolStep;
    if events == [] {
      assert ([] + [e])[1..] == [] && events + [e] == [e];
      assert BackedRun(DebtsStep(debts, e), PoolStep(pool, e), []);
    } else {
      assert (events + [e])[1..] == events[1..] + [e];
      RunExtends(DebtsStep(debts, events[0]), PoolStep(pool, events[0]), events[1..], e);
    }
  }

  // ---------- why the condition is needed ----------

  const TWO_LOANS := [Borrow(0, 0, 1.0, 0.0, 0.0), Borrow(0, 1, 1.0, 2.0, 1.0)]

  /** One unit is borrowed at a rate of zero, and one at a rate of two. */
  lemma TwoLoansReached()
    ensures Reaches(TWO_LOANS, [Debt(1.0, 0.0), Debt(1.0, 2.0)], Pool(2.0, 1.0))
  {
    hide Possible, HigherRatesBack, DebtsStep, PoolStep, Reaches;
    var a, b := Borrow(0, 0, 1.0, 0.0, 0.0), Borrow(0, 1, 1.0, 2.0, 1.0);
    var one, two := [Debt(1.0, 0.0)], [Debt(1.0, 0.0), Debt(1.0, 2.0)];
    assert [] + one == one && one + [Debt(1.0, 2.0)] == two;
    assert [] + [a] == [a] && [a] + [b] == TWO_LOANS;
    EmptyReached();
    LoanAtOnce([], EMPTY, a);
    ReachesNext([], [], EMPTY, a, one, Pool(1.0, 0.0));
    LoanAtOnce(one, Pool(1.0, 0.0), b);
    ReachesNext([a], one, Pool(1.0, 0.0), b, two, Pool(2.0, 1.0));
  }

  lemma LoanAtOnce(debts: seq<Debt>, pool: Pool, e: Event)
    requires e.Borrow? && e.borrower == |debts| && e.wait == 0 && 0.0 < e.principal && 0.0 <= e.rate && 0.0 <= e.average
    requires e.average * (pool.total + e.principal) <= pool.rate * pool.total + e.rate * e.principal
    ensures Possible(debts, pool, e) && HigherRatesBack(debts, pool, e)
    ensures DebtsStep(debts, e) == debts + [Debt(e.principal, e.rate)]
    ensures PoolStep(pool, e) == Pool(pool.total + e.principal, e.average)
  {
    hide Accrued, PoolAt;
    NoTime(debts, pool);
  }

  lemma TwoSeconds(z: real)
    ensures Expansion(z, 2) == (1.0 + z) * (1.0 + z)
  {
    assert Pairs(1) == 0 && Pairs(2) == 1 && Triples(2) == 0;
    assert (1.0 + z) * (1.0 + z) == 1.0 + 2.0 * z + z * z;
  }

  lemma TwoLoansGrown()
    ensures Accrued([Debt(1.0, 0.0), Debt(1.0, 2.0)], 2) == [Debt(1.0, 0.0), Debt(9.0, 2.0)]
    ensures PoolAt(Pool(2.0, 1.0), 2) == 8.0
  {
    hide Expansion;
    TwoSeconds(0.0);
    TwoSeconds(1.0);
    TwoSeconds(2.0);
  }

  /**
    Two seconds after those loans the second borrower takes four units more at a rate of a hundred.  The
    pool goes on at a higher rate than the borrowers together, and gets ahead of them.
   */
  lemma FurtherLoanLetsPoolAhead()
    ensures var e := Borrow(2, 1, 4.0, 100.0, 34.0);
      && BackedRun([], EMPTY, TWO_LOANS) && Possible(DebtsAfter([], TWO_LOANS), PoolAfter(EMPTY, TWO_LOANS), e)
      && PoolAt(PoolAfter(EMPTY, TWO_LOANS + [e]), 2) > Owed(Accrued(DebtsAfter([], TWO_LOANS + [e]), 2))
  {
    hide BackedRun, PoolAfter, DebtsAfter, Possible, Owed, Accrued, PoolAt, DebtsStep, PoolStep, Reaches;
    TwoLoansReached();
    ReachedRun(TWO_LOANS, [Debt(1.0, 0.0), Debt(1.0, 2.0)], Pool(2.0, 1.0));
    FurtherLoanTaken();
    RunExtends([], EMPTY, TWO_LOANS, Borrow(2, 1, 4.0, 100.0, 34.0));
    FurtherLoanGrown();
  }

  lemma FurtherLoanTaken()
    ensures var two, e := [Debt(1.0, 0.0), Debt(1.0, 2.0)], Borrow(2, 1, 4.0, 100.0, 34.0);
      && Possible(two, Pool(2.0, 1.0), e)
      && DebtsStep(two, e) == [Debt(1.0, 0.0), Debt(13.0, 418.0 / 13.0)]
      && PoolStep(Pool(2.0, 1.0), e) == Pool(12.0, 34.0)
  {
    hide Accrued, PoolAt;
    TwoLoansGrown();
    assert Merged(Debt(9.0, 2.0), 4.0, 100.0) == Debt(13.0, 418.0 / 13.0);
  }

  lemma FurtherLoanGrown()
    ensures PoolAt(Pool(12.0, 34.0), 2) == 14700.0
    ensures Owed(Accrued([Debt(1.0, 0.0), Debt(13.0, 418.0 / 13.0)], 2)) < 14300.0
  {
    hide Expansion;
    TwoSeconds(0.0);
    TwoSeconds(34.0);
    TwoSeconds(418.0 / 13.0);
    OwedByTwo(Accrued([Debt(1.0, 0.0), Debt(13.0, 418.0 / 13.0)], 2));
  }

  lemma OwedByTwo(debts: seq<Debt>)
    requires |debts| == 2
    ensures Owed(debts) == debts[0].balance + debts[1].balance
  {
    assert debts[..1][..0] == [] && Owed(debts[..1]) == debts[0].balance;
  }

  /**
    If instead a third borrower takes those four units, and the second repays the nine they owe by then,
    the pool goes on at a rate above all that is left, and gets ahead of the borrowers.
   */
  lemma LowRateRepayLetsPoolAhead()
    ensures var run, e := TWO_LOANS + [Borrow(2, 2, 4.0, 100.0, 34.0)], Repay(0, 1, 9.0, 130.0);
      && BackedRun([], EMPTY, run) && Possible(DebtsAfter([], run), PoolAfter(EMPTY, run), e)
      && PoolAt(PoolAfter(EMPTY, run + [e]), 2) > Owed(Accrued(DebtsAfter([], run + [e]), 2))
  {
    hide BackedRun, PoolAfter, DebtsAfter, Possible, HigherRatesBack, Owed, Accrued, PoolAt, DebtsStep, PoolStep, Reaches;
    var c, d, three := Borrow(2, 2, 4.0, 100.0, 34.0), Repay(0, 1, 9.0, 130.0), [Debt(1.0, 0.0), Debt(9.0, 2.0), Debt(4.0, 100.0)];
    TwoLoansReached();
    ThirdLoanTaken();
    ReachesNext(TWO_LOANS, [Debt(1.0, 0.0), Debt(1.0, 2.0)], Pool(2.0, 1.0), c, three, Pool(12.0, 34.0));
    ReachedRun(TWO_LOANS + [c], three, Pool(12.0, 34.0));
    GrownLoanRepaid();
    RunExtends([], EMPTY, TWO_LOANS + [c], d);
    RestGrown();
  }

  lemma ThirdLoanTaken()
    ensures var two, c := [Debt(1.0, 0.0), Debt(1.0, 2.0)], Borrow(2, 2, 4.0, 100.0, 34.0);
      && Possible(two, Pool(2.0, 1.0), c) && HigherRatesBack(two, Pool(2.0, 1.0), c)
      && DebtsStep(two, c) == [Debt(1.0, 0.0), Debt(9.0, 2.0), Debt(4.0, 100.0)]
      && PoolStep(Pool(2.0, 1.0), c) == Pool(12.0, 34.0)
  {
    hide Accrued, PoolAt;
    TwoLoansGrown();
  }

  lemma GrownLoanRepaid()
    ensures var three, d := [Debt(1.0, 0.0), Debt(9.0, 2.0), Debt(4.0, 100.0)], Repay(0, 1, 9.0, 130.0);
      && Possible(three, Pool(12.0, 34.0), d)
      && DebtsStep(three, d) == [Debt(1.0, 0.0), Debt(0.0, 2.0), Debt(4.0, 100.0)]
      && PoolStep(Pool(12.0, 34.0), d) == Pool(3.0, 130.0)
  {
    hide Accrued, PoolAt;
    NoTime([Debt(1.0, 0.0), Debt(9.0, 2.0), Debt(4.0, 100.0)], Pool(12.0, 34.0));
  }

  lemma RestGrown()
    ensures PoolAt(Pool(3.0, 130.0), 2) == 51483.0
    ensures Owed(Accrued([Debt(1.0, 0.0), Debt(0.0, 2.0), Debt(4.0, 100.0)], 2)) == 40805.0
  {
    hide Expansion;
    TwoSeconds(0.0);
    TwoSeconds(100.0);
    TwoSeconds(130.0);
    OwedByThree(Accrued([Debt(1.0, 0.0), Debt(0.0, 2.0), Debt(4.0, 100.0)], 2));
  }

  lemma OwedByThree(debts: seq<Debt>)
    requires |debts| == 3
    ensures Owed(debts) == debts[0].balance + debts[1].balance + debts[2].balance
  {
    var two, one := debts[..2], debts[..1];
    assert two[..1] == one && one[..0] == [];
    assert Owed(one) == one[0].balance && Owed(two) == Owed(one) + two[1].balance;
  }
}
