/**
  The drift of the pooled stable debt along runs of borrows and repays at different dates, by any number
  of borrowers who may each borrow repeatedly.  Every event accrues the pool at its average rate, adds or
  removes the amount, and averages again; a borrower's own loans are merged at their weighted rate.
  Without rounding, the pool never owes more than the borrowers do, each accrued at their own rate at the
  same moments, as long as nobody repays at too low a rate or adds too dear a loan to a cheap one.
 */
module Drift {
  import opened Compounding
  import opened Backing

  /**
    After some seconds a borrower takes a loan, or repays; `average` is the new average rate.  Borrowers are
    numbered in the order of their first loans.
   */
  datatype Event =
    | Borrow(wait: nat, borrower: nat, principal: real, rate: real, average: real)
    | Repay(wait: nat, borrower: nat, amount: real, average: real)

  /** The new average is at most the weighted one; rounding down is allowed. */
  ghost predicate Possible(debts: seq<Debt>, pool: Pool, e: Event) {
    var total := PoolAt(pool, e.wait);
    match e
    case Borrow(_, i, principal, rate, average) =>
      && i <= |debts| && 0.0 < principal && 0.0 <= rate && 0.0 <= average
      && average * (total + principal) <= pool.rate * total + rate * principal
    case Repay(wait, i, amount, average) =>
      && i < |debts| && 0.0 <= amount <= Accrued(debts, wait)[i].balance
      && (0.0 < average && amount <= total ==> average * (total - amount) <= pool.rate * total - debts[i].rate * amount)
  }

  /** A pool that would turn negative, or whose average rate would, is erased. */
  ghost function PoolStep(pool: Pool, e: Event): Pool {
    var total := PoolAt(pool, e.wait);
    match e
    case Borrow(_, _, principal, _, average) => Pool(total + principal, average)
    case Repay(_, _, amount, average) =>
      if total < amount || average < 0.0 then Pool(0.0, 0.0) else Pool(total - amount, average)
  }

  /** A further loan goes into the borrower's debt, at the rate weighted by the amounts. */
  ghost function Merged(d: Debt, principal: real, rate: real): Debt {
    var balance := d.balance + principal;
    Debt(balance, if balance == 0.0 then d.rate else (d.balance * d.rate + principal * rate) / balance)
  }

  ghost function DebtsStep(debts: seq<Debt>, e: Event): seq<Debt> {
    var accrued := Accrued(debts, e.wait);
    match e
    case Borrow(_, i, principal, rate, _) =>
      if i < |debts| then accrued[i := Merged(accrued[i], principal, rate)] else accrued + [Debt(principal, rate)]
    case Repay(_, i, amount, _) =>
      if i < |debts| then accrued[i := Debt(accrued[i].balance - amount, debts[i].rate)] else accrued
  }

  /** The two steps keep balances, totals and rates from turning negative. */
  lemma StepNonNegative(debts: seq<Debt>, pool: Pool, e: Event)
    requires NonNegative(debts) && 0.0 <= PoolAt(pool, e.wait) && Possible(debts, pool, e)
    ensures NonNegative(DebtsStep(debts, e)) && 0.0 <= PoolStep(pool, e).total && 0.0 <= PoolStep(pool, e).rate
  {
    hide Expansion, PoolAt, Merged;
    AccruedNonNegative(debts, e.wait);
    if e.Borrow? && e.borrower < |debts| {
      MergedNonNegative(Accrued(debts, e.wait)[e.borrower], e.principal, e.rate);
    }
  }

  lemma MergedNonNegative(d: Debt, principal: real, rate: real)
    requires 0.0 <= d.balance && 0.0 <= d.rate && 0.0 < principal && 0.0 <= rate
    ensures 0.0 <= Merged(d, principal, rate).balance && 0.0 <= Merged(d, principal, rate).rate
  {
    NonNegativeProduct(d.balance, d.rate);
    NonNegativeProduct(principal, rate);
  }

  // ---------- borrowing ----------

  /** A first loan keeps the pool backed. */
  lemma FirstLoanKeepsBacking(debts: seq<Debt>, pool: Pool, e: Event)
    requires Backed(debts, pool) && e.Borrow? && e.borrower == |debts| && Possible(debts, pool, e)
    ensures Backed(DebtsStep(debts, e), PoolStep(pool, e))
  {
    hide Above, Expansion;
    WaitingKeepsBacking(debts, pool, e.wait);
    StepNonNegative(debts, pool, e);
    var accrued, total, d := Accrued(debts, e.wait), PoolAt(pool, e.wait), Debt(e.principal, e.rate);
    var next, after := DebtsStep(debts, e), PoolStep(pool, e);
    forall level ensures BackedAt(next, after, level) {
      assert BackedAt(accrued, Pool(total, pool.rate), level);
      AboveAppend(accrued, d, level);
      PartAtLeast(d, level);
      LoanAdded(total, pool.rate, e.principal, e.rate, e.average, level);
    }
  }

  lemma LoanAdded(total: real, rate: real, principal: real, z: real, average: real, level: real)
    requires average * (total + principal) <= rate * total + z * principal
    ensures (total + principal) * (average - level) <= total * (rate - level) + principal * (z - level)
  {
    Expanded(total + principal, average, level);
    Expanded(total, rate, level);
    Expanded(principal, z, level);
    Expanded(level, total, -principal);
  }

  lemma Expanded(a: real, b: real, c: real)
    ensures a * (b - c) == b * a - c * a
  {
  }

  /** Merging keeps the charge over every level that the borrower's own rate reaches. */
  lemma MergedCharge(d: Debt, principal: real, rate: real, level: real)
    requires 0.0 <= d.balance && 0.0 < principal
    ensures var m := Merged(d, principal, rate);
      m.balance * (m.rate - level) == d.balance * (d.rate - level) + principal * (rate - level)
  {
    var sum, weight := d.balance + principal, d.balance * d.rate + principal * rate;
    var m := weight / sum;
    assert sum * m == weight;
    Expanded(sum, m, level);
    Expanded(d.balance, d.rate, level);
    Expanded(principal, rate, level);
    Expanded(level, d.balance, -principal);
  }

  /** A further loan needs no more backing, except at the levels between the borrower's own rate and the loan's. */
  lemma MergeKeepsPart(d: Debt, principal: real, rate: real, level: real)
    requires 0.0 <= d.balance && 0.0 < principal
    requires d.balance == 0.0 || level <= d.rate || rate <= level
    ensures Part(d, level) + principal * (rate - level) <= Part(Merged(d, principal, rate), level)
  {
    hide Part, Merged;
    var m := Merged(d, principal, rate);
    MergedCharge(d, principal, rate, level);
    MergedBalance(d, principal, rate);
    if level <= d.rate {
      PartIs(d.balance, d.rate, level);
      PartAtLeast(m, level);
    } else {
      NoPart(d, level);
      if d.balance == 0.0 {
        PartAtLeast(m, level);
      } else {
        PartNonNegative(m, level);
        NoCharge(principal, rate, level);
      }
    }
  }

  lemma MergedBalance(d: Debt, principal: real, rate: real)
    ensures Merged(d, principal, rate).balance == d.balance + principal
  {
  }

  lemma NoPart(d: Debt, level: real)
    requires d.rate <= level
    ensures Part(d, level) == 0.0
  {
  }

  lemma MergeKeepsLevel(debts: seq<Debt>, pool: Pool, e: Event, level: real)
    requires Backed(debts, pool) && e.Borrow? && e.borrower < |debts| && Possible(debts, pool, e)
    requires debts[e.borrower].balance == 0.0 || level <= debts[e.borrower].rate || e.rate <= level
    ensures BackedAt(DebtsStep(debts, e), PoolStep(pool, e), level)
  {
    hide Above, Expansion, Merged;
    WaitingKeepsBacking(debts, pool, e.wait);
    var accrued, total, i := Accrued(debts, e.wait), PoolAt(pool, e.wait), e.borrower;
    var merged := Merged(accrued[i], e.principal, e.rate);
    assert BackedAt(accrued, Pool(total, pool.rate), level);
    AboveUpdate(accrued, i, merged, level);
    MergeKeepsPart(accrued[i], e.principal, e.rate, level);
    LoanAdded(total, pool.rate, e.principal, e.rate, e.average, level);
  }

  // ---------- repaying ----------

  lemma RepayKeepsLevel(debts: seq<Debt>, pool: Pool, e: Event, level: real)
    requires Backed(debts, pool) && e.Repay? && Possible(debts, pool, e) && level <= debts[e.borrower].rate
    ensures BackedAt(DebtsStep(debts, e), PoolStep(pool, e), level)
  {
    hide Above, Expansion, Backed, BackedAt;
    WaitingKeepsBacking(debts, pool, e.wait);
    var accrued, total := Accrued(debts, e.wait), PoolAt(pool, e.wait);
    var next, after := DebtsStep(debts, e), PoolStep(pool, e);
    if total < e.amount || e.average < 0.0 {
      ErasedBacked(accrued, Pool(total, pool.rate), next, e.borrower, e.amount, level);
    } else if e.average == 0.0 {
      ZeroRateBacked(accrued, Pool(total, pool.rate), next, e.borrower, e.amount, level);
    } else {
      RemovalKeepsLevel(accrued, Pool(total, pool.rate), next, e.borrower, e.amount, e.average, level);
    }
  }

  lemma RemovalKeepsLevel(accrued: seq<Debt>, pool: Pool, next: seq<Debt>, i: nat, amount: real, average: real, level: real)
    requires Backed(accrued, pool) && i < |accrued| && level <= accrued[i].rate
    requires average * (pool.total - amount) <= pool.rate * pool.total - accrued[i].rate * amount
    requires next == accrued[i := Debt(accrued[i].balance - amount, accrued[i].rate)]
    ensures BackedAt(next, Pool(pool.total - amount, average), level)
  {
    hide Above, Part, NonNegative;
    assert BackedAt(accrued, pool, level);
    AboveUpdate(accrued, i, next[i], level);
    PartsDiffer(accrued[i].balance, amount, accrued[i].rate, level);
    LoanRemoved(pool.total, pool.rate, amount, accrued[i].rate, average, level);
  }

  /** What a repay leaves of the borrowers' debts; none of it is negative. */
  ghost predicate Reduced(accrued: seq<Debt>, next: seq<Debt>, i: nat, amount: real) {
    && i < |accrued| && 0.0 <= amount <= accrued[i].balance
    && next == accrued[i := Debt(accrued[i].balance - amount, accrued[i].rate)]
  }

  lemma ErasedBacked(accrued: seq<Debt>, pool: Pool, next: seq<Debt>, i: nat, amount: real, level: real)
    requires Backed(accrued, pool) && Reduced(accrued, next, i, amount)
    ensures BackedAt(next, Pool(0.0, 0.0), level)
  {
    hide Above;
    AboveNonNegative(next, level);
  }

  /** A pool at a rate of zero is backed by the borrowers' total alone. */
  lemma ZeroRateBacked(accrued: seq<Debt>, pool: Pool, next: seq<Debt>, i: nat, amount: real, level: real)
    requires Backed(accrued, pool) && Reduced(accrued, next, i, amount) && amount <= pool.total
    ensures BackedAt(next, Pool(pool.total - amount, 0.0), level)
  {
    hide Above, Owed;
    AboveNonNegative(next, level);
    if level < 0.0 {
      BackedTotal(accrued, pool);
      OwedUpdate(accrued, i, next[i]);
      AboveNonNegative(next, 0.0);
      AboveNegativeLevel(next, level);
      ScaleLe(-level, pool.total - amount, Owed(next));
      assert -level * Owed(next) == -(level * Owed(next));
    } else {
      NoCharge(pool.total - amount, 0.0, level);
    }
  }

  lemma PartsDiffer(balance: real, amount: real, z: real, level: real)
    requires level <= z
    ensures Part(Debt(balance, z), level) - Part(Debt(balance - amount, z), level) == amount * (z - level)
  {
    hide Part;
    PartIs(balance, z, level);
    PartIs(balance - amount, z, level);
    Remainder(balance, amount, z - level);
  }

  lemma Remainder(balance: real, amount: real, excess: real)
    ensures balance * excess - (balance - amount) * excess == amount * excess
  {
  }

  lemma LoanRemoved(total: real, rate: real, amount: real, z: real, average: real, level: real)
    requires average * (total - amount) <= rate * total - z * amount
    ensures (total - amount) * (average - level) <= total * (rate - level) - amount * (z - level)
  {
    Expanded(total - amount, average, level);
    Expanded(total, rate, level);
    Expanded(amount, z, level);
    Expanded(level, total, amount);
  }

  // ---------- what keeps the pool backed ----------

  /**
    After the event, the pool is backed at those rates of the borrowers that are higher than the one of the
    borrower concerned and, for a further loan, lower than that of the loan.
   */
  ghost predicate HigherRatesBack(debts: seq<Debt>, pool: Pool, e: Event) {
    e.borrower < |debts| ==>
      var next, after, own := DebtsStep(debts, e), PoolStep(pool, e), debts[e.borrower].rate;
      forall j :: 0 <= j < |next| && own < next[j].rate && (e.Borrow? ==> next[j].rate < e.rate)
        ==> BackedAt(next, after, next[j].rate)
  }

  /** An event keeps the pool backed at all levels if and only if it is backed at those finitely many rates. */
  lemma StepKeepsBackingIff(debts: seq<Debt>, pool: Pool, e: Event)
    requires Backed(debts, pool) && Possible(debts, pool, e)
    ensures Backed(DebtsStep(debts, e), PoolStep(pool, e)) <==> HigherRatesBack(debts, pool, e)
  {
    hide Above, Expansion, BackedAt, Possible, DebtsStep, PoolStep;
    WaitingKeepsBacking(debts, pool, e.wait);
    StepNonNegative(debts, pool, e);
    if e.borrower < |debts| {
      if HigherRatesBack(debts, pool, e) {
        forall level ensures BackedAt(DebtsStep(debts, e), PoolStep(pool, e), level) {
          if e.Borrow? {
            FurtherLoanKeepsLevel(debts, pool, e, level);
          } else {
            RepayKeepsHigherLevel(debts, pool, e, level);
          }
        }
      }
    } else {
      FirstBorrower(debts, pool, e);
      FirstLoanKeepsBacking(debts, pool, e);
    }
  }

  lemma FirstBorrower(debts: seq<Debt>, pool: Pool, e: Event)
    requires Possible(debts, pool, e) && |debts| <= e.borrower
    ensures e.Borrow? && e.borrower == |debts|
  {
    hide PoolAt, Accrued;
  }

  lemma FurtherLoanKeepsLevel(debts: seq<Debt>, pool: Pool, e: Event, level: real)
    requires Backed(debts, pool) && e.Borrow? && e.borrower < |debts| && Possible(debts, pool, e)
    requires HigherRatesBack(debts, pool, e)
    ensures BackedAt(DebtsStep(debts, e), PoolStep(pool, e), level)
  {
    hide Above, BackedAt, Possible, DebtsStep, PoolStep;
    var own := debts[e.borrower].rate;
    if own < level < e.rate {
      MergeKeepsLevel(debts, pool, e, own);
      MergeKeepsLevel(debts, pool, e, e.rate);
      BackedBetween(DebtsStep(debts, e), PoolStep(pool, e), own, e.rate, level);
    } else {
      MergeKeepsLevel(debts, pool, e, level);
    }
  }

  lemma RepayKeepsHigherLevel(debts: seq<Debt>, pool: Pool, e: Event, level: real)
    requires Backed(debts, pool) && e.Repay? && Possible(debts, pool, e) && HigherRatesBack(debts, pool, e)
    requires NonNegative(DebtsStep(debts, e)) && 0.0 <= PoolStep(pool, e).total
    ensures BackedAt(DebtsStep(debts, e), PoolStep(pool, e), level)
  {
    hide Above, BackedAt, PoolAt, Accrued;
    var own, after := debts[e.borrower].rate, PoolStep(pool, e);
    if level <= own {
      RepayKeepsLevel(debts, pool, e, level);
    } else {
      var to := if level < after.rate then after.rate else level;
      RepayKeepsLevel(debts, pool, e, own);
      BackedAboveRate(DebtsStep(debts, e), after, to);
      BackedBetween(DebtsStep(debts, e), after, own, to, level);
    }
  }

  /**
    What a borrower or the pool can see to: a further loan at no more than the borrower's own rate, or after
    everything was repaid; a repay at no less than the pool's; or a pool that goes on at no more than the
    borrower's own rate.
   */
  ghost predicate Guarded(debts: seq<Debt>, pool: Pool, e: Event) {
    e.borrower < |debts| ==>
      var d := debts[e.borrower];
      || PoolStep(pool, e).rate <= d.rate
      || (match e
          case Borrow(_, _, _, rate, _) => rate <= d.rate || d.balance == 0.0
          case Repay(_, _, _, _) => pool.rate <= d.rate)
  }

  /** Every such event keeps the pool backed. */
  lemma GuardedKeepsBacking(debts: seq<Debt>, pool: Pool, e: Event)
    requires Backed(debts, pool) && Possible(debts, pool, e) && Guarded(debts, pool, e)
    ensures HigherRatesBack(debts, pool, e)
  {
    hide Above, BackedAt, Expansion;
    WaitingKeepsBacking(debts, pool, e.wait);
    StepNonNegative(debts, pool, e);
    if e.borrower < |debts| {
      var next, after, own := DebtsStep(debts, e), PoolStep(pool, e), debts[e.borrower].rate;
      forall j | 0 <= j < |next| && own < next[j].rate && (e.Borrow? ==> next[j].rate < e.rate)
        ensures BackedAt(next, after, next[j].rate)
      {
        GuardedKeepsLevel(debts, pool, e, next[j].rate);
      }
    }
  }

  lemma GuardedKeepsLevel(debts: seq<Debt>, pool: Pool, e: Event, level: real)
    requires Backed(debts, pool) && Possible(debts, pool, e) && Guarded(debts, pool, e) && e.borrower < |debts|
    requires NonNegative(DebtsStep(debts, e)) && 0.0 <= PoolStep(pool, e).total && 0.0 <= PoolAt(pool, e.wait)
    requires debts[e.borrower].rate < level && (e.Borrow? ==> level < e.rate)
    ensures BackedAt(DebtsStep(debts, e), PoolStep(pool, e), level)
  {
    hide Above, PoolAt, Accrued, Merged;
    var after := PoolStep(pool, e);
    if after.rate <= level {
      BackedAboveRate(DebtsStep(debts, e), after, level);
    } else if e.Borrow? {
      MergeKeepsLevel(debts, pool, e, level);
    } else {
      AboveNonNegative(DebtsStep(debts, e), level);
      if after.total > 0.0 {
        AverageFalls(PoolAt(pool, e.wait), pool.rate, e.amount, debts[e.borrower].rate, e.average);
      }
    }
  }

  lemma AverageFalls(total: real, rate: real, amount: real, z: real, average: real)
    requires 0.0 <= amount < total && rate <= z
    requires average * (total - amount) <= rate * total - z * amount
    ensures average <= rate
  {
    ScaleLe(amount, rate, z);
    assert rate * (total - amount) == rate * total - amount * rate;
    if average > rate {
      StrictScale(total - amount, rate, average);
    }
  }

  // ---------- runs ----------

  /** Every event is possible, and leaves the pool backed at the rates at stake. */
  ghost predicate BackedRun(debts: seq<Debt>, pool: Pool, events: seq<Event>)
    decreases |events|
  {
    events == []
    || (&& Possible(debts, pool, events[0]) && HigherRatesBack(debts, pool, events[0])
        && BackedRun(DebtsStep(debts, events[0]), PoolStep(pool, events[0]), events[1..]))
  }

  ghost function PoolAfter(pool: Pool, events: seq<Event>): Pool
    decreases |events|
  {
    if events == [] then pool else PoolAfter(PoolStep(pool, events[0]), events[1..])
  }

  ghost function DebtsAfter(debts: seq<Debt>, events: seq<Event>): seq<Debt>
    decreases |events|
  {
    if events == [] then debts else DebtsAfter(DebtsStep(debts, events[0]), events[1..])
  }

  lemma {:induction false} RunKeepsBacking(debts: seq<Debt>, pool: Pool, events: seq<Event>)
    requires Backed(debts, pool) && BackedRun(debts, pool, events)
    ensures Backed(DebtsAfter(debts, events), PoolAfter(pool, events))
    decreases |events|
  {
    hide Backed, Possible, HigherRatesBack, PoolStep, DebtsStep;
    if events != [] {
      StepKeepsBackingIff(debts, pool, events[0]);
      RunKeepsBacking(DebtsStep(debts, events[0]), PoolStep(pool, events[0]), events[1..]);
    }
  }

  const EMPTY := Pool(0.0, 0.0)

  /**
    From an empty pool, along every such run of borrows and repays at whatever dates, the pool at any later
    moment owes no more than the borrowers together, each accrued at their own rate at the same moments.
   */
  lemma PoolNeverAhead(events: seq<Event>, n: nat)
    requires BackedRun([], EMPTY, events)
    ensures PoolAt(PoolAfter(EMPTY, events), n) <= Owed(Accrued(DebtsAfter([], events), n))
  {
    hide Expansion, PoolAfter, DebtsAfter, BackedRun, Owed;
    EmptyBacked();
    RunKeepsBacking([], EMPTY, events);
    WaitingKeepsBacking(DebtsAfter([], events), PoolAfter(EMPTY, events), n);
    BackedTotal(Accrued(DebtsAfter([], events), n), Pool(PoolAt(PoolAfter(EMPTY, events), n), PoolAfter(EMPTY, events).rate));
  }

  lemma EmptyBacked()
    ensures Backed([], EMPTY)
  {
  }

  /** Every event is possible and guarded. */
  ghost predicate GuardedRun(debts: seq<Debt>, pool: Pool, events: seq<Event>)
    decreases |events|
  {
    events == []
    || (&& Possible(debts, pool, events[0]) && Guarded(debts, pool, events[0])
        && GuardedRun(DebtsStep(debts, events[0]), PoolStep(pool, events[0]), events[1..]))
  }

  lemma {:induction false} GuardedRunIsBacked(debts: seq<Debt>, pool: Pool, events: seq<Event>)
    requires Backed(debts, pool) && GuardedRun(debts, pool, events)
    ensures BackedRun(debts, pool, events)
    decreases |events|
  {
    hide Backed, Possible, Guarded, HigherRatesBack, PoolStep, DebtsStep;
    if events != [] {
      GuardedKeepsBacking(debts, pool, events[0]);
      StepKeepsBackingIff(debts, pool, events[0]);
      GuardedRunIsBacked(DebtsStep(debts, events[0]), PoolStep(pool, events[0]), events[1..]);
    }
  }

  /** With guards alone the pool is never ahead. */
  lemma GuardedPoolNeverAhead(events: seq<Event>, n: nat)
    requires GuardedRun([], EMPTY, events)
    ensures BackedRun([], EMPTY, events)
    ensures PoolAt(PoolAfter(EMPTY, events), n) <= Owed(Accrued(DebtsAfter([], events), n))
  {
    hide Expansion, PoolAfter, DebtsAfter, BackedRun, GuardedRun, Owed;
    EmptyBacked();
    GuardedRunIsBacked([], EMPTY, events);
    PoolNeverAhead(events, n);
  }

  // ---------- true compounding ----------

  /** The debts with every second compounded, which does not depend on when they are rebased. */
  ghost function Compounded(debts: seq<Debt>, n: nat): seq<Debt> {
    seq(|debts|, i requires 0 <= i < |debts| => Debt(debts[i].balance * Power(1.0 + debts[i].rate, n), debts[i].rate))
  }

  lemma {:induction false} PowerSplit(base: real, m: nat, n: nat)
    ensures Power(base, m + n) == Power(base, m) * Power(base, n)
  {
    if m > 0 {
      PowerSplit(base, m - 1, n);
      Associates(base, Power(base, m - 1), Power(base, n));
    }
  }

  /** Compounding every second may be interrupted anywhere. */
  lemma CompoundedInParts(debts: seq<Debt>, m: nat, n: nat)
    ensures Compounded(Compounded(debts, m), n) == Compounded(debts, m + n)
  {
    hide Power;
    forall i | 0 <= i < |debts| ensures Compounded(Compounded(debts, m), n)[i] == Compounded(debts, m + n)[i] {
      PowerSplit(1.0 + debts[i].rate, m, n);
      Associates(debts[i].balance, Power(1.0 + debts[i].rate, m), Power(1.0 + debts[i].rate, n));
    }
  }

  /** The event on debts that compound every second at the rates booked for them. */
  ghost function TrueStep(truth: seq<Debt>, debts: seq<Debt>, e: Event): seq<Debt> {
    var compounded := Compounded(truth, e.wait);
    match e
    case Borrow(_, i, principal, rate, _) =>
      if i < |truth| && i < |debts| then
        compounded[i := Debt(compounded[i].balance + principal, Merged(Accrued(debts, e.wait)[i], principal, rate).rate)]
      else
        compounded + [Debt(principal, rate)]
    case Repay(_, i, amount, _) =>
      if i < |truth| then compounded[i := Debt(compounded[i].balance - amount, truth[i].rate)] else compounded
  }

  ghost function TrueAfter(truth: seq<Debt>, debts: seq<Debt>, events: seq<Event>): seq<Debt>
    decreases |events|
  {
    if events == [] then truth else TrueAfter(TrueStep(truth, debts, events[0]), DebtsStep(debts, events[0]), events[1..])
  }

  /** The same borrowers at the same rates, each owing at most as much. */
  ghost predicate Within(debts: seq<Debt>, others: seq<Debt>) {
    && |debts| == |others|
    && forall i :: 0 <= i < |debts| ==> debts[i].rate == others[i].rate && debts[i].balance <= others[i].balance
  }

  lemma AccruedWithinCompounded(debts: seq<Debt>, others: seq<Debt>, n: nat)
    requires NonNegative(debts) && Within(debts, others)
    ensures Within(Accrued(debts, n), Compounded(others, n))
  {
    hide Expansion, Power;
    forall i | 0 <= i < |debts| ensures Accrued(debts, n)[i].balance <= Compounded(others, n)[i].balance {
      ExpansionMonotone(debts[i].rate, debts[i].rate, n);
      ExpansionBelowPower(debts[i].rate, n);
      ScaleLe(debts[i].balance, Expansion(debts[i].rate, n), Power(1.0 + debts[i].rate, n));
      ScaleLe(Power(1.0 + debts[i].rate, n), debts[i].balance, others[i].balance);
    }
  }

  lemma StepWithinCompounded(debts: seq<Debt>, pool: Pool, truth: seq<Debt>, e: Event)
    requires NonNegative(debts) && Within(debts, truth) && Possible(debts, pool, e)
    ensures Within(DebtsStep(debts, e), TrueStep(truth, debts, e))
  {
    hide Expansion, Power, PoolAt;
    AccruedWithinCompounded(debts, truth, e.wait);
  }

  lemma {:induction false} RunWithinCompounded(debts: seq<Debt>, pool: Pool, truth: seq<Debt>, events: seq<Event>)
    requires Backed(debts, pool) && Within(debts, truth) && BackedRun(debts, pool, events)
    ensures Within(DebtsAfter(debts, events), TrueAfter(truth, debts, events)) && NonNegative(DebtsAfter(debts, events))
    decreases |events|
  {
    hide HigherRatesBack, Possible, PoolStep, DebtsStep, TrueStep, BackedAt;
    if events != [] {
      StepWithinCompounded(debts, pool, truth, events[0]);
      StepKeepsBackingIff(debts, pool, events[0]);
      RunWithinCompounded(DebtsStep(debts, events[0]), PoolStep(pool, events[0]), TrueStep(truth, debts, events[0]),
                          events[1..]);
    }
  }

  lemma {:induction false} WithinOwed(debts: seq<Debt>, others: seq<Debt>)
    requires Within(debts, others)
    ensures Owed(debts) <= Owed(others)
  {
    if debts != [] {
      WithinOwed(debts[..|debts| - 1], others[..|others| - 1]);
    }
  }

  /** So the pool never owes more than the borrowers do when every debt compounds every second. */
  lemma PoolBelowTrueCompounding(events: seq<Event>, n: nat)
    requires BackedRun([], EMPTY, events)
    ensures PoolAt(PoolAfter(EMPTY, events), n) <= Owed(Compounded(TrueAfter([], [], events), n))
  {
    hide Expansion, Power, PoolAfter, DebtsAfter, TrueAfter, BackedRun, Owed, Compounded, Accrued;
    PoolNeverAhead(events, n);
    EmptyBacked();
    RunWithinCompounded([], EMPTY, [], events);
    AccruedWithinCompounded(DebtsAfter([], events), TrueAfter([], [], events), n);
    WithinOwed(Accrued(DebtsAfter([], events), n), Compounded(TrueAfter([], [], events), n));
  }
}
