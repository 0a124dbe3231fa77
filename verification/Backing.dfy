/**
  A pooled debt at one average rate against the debts of single borrowers, each at their own rate, without
  rounding.  The debts back the pool if, above every level of the rate, they charge at least what it does;
  then the pool owes no more than they do, and waiting keeps it so.
 */
module Backing {
  import opened Interest
  import opened Compounding
  import opened Convexity

  /** What one borrower owes, and their rate per second. */
  datatype Debt = Debt(balance: real, rate: real)

  datatype Pool = Pool(total: real, rate: real)

  ghost function Accrued(debts: seq<Debt>, n: nat): seq<Debt> {
    seq(|debts|, i requires 0 <= i < |debts| => Debt(debts[i].balance * Expansion(debts[i].rate, n), debts[i].rate))
  }

  ghost function PoolAt(pool: Pool, n: nat): real {
    pool.total * Expansion(pool.rate, n)
  }

  lemma NoTime(debts: seq<Debt>, pool: Pool)
    ensures PoolAt(pool, 0) == pool.total && Accrued(debts, 0) == debts
  {
    hide Expansion;
    ExpansionAtZero(pool.rate);
    forall i | 0 <= i < |debts| ensures Accrued(debts, 0)[i] == debts[i] {
      ExpansionAtZero(debts[i].rate);
    }
  }

  // ---------- sums over the borrowers ----------

  ghost function Owed(debts: seq<Debt>): real {
    if debts == [] then 0.0 else Owed(debts[..|debts| - 1]) + debts[|debts| - 1].balance
  }

  /** The part of a debt's charge that is above a level of the rate. */
  ghost function Part(d: Debt, level: real): real {
    if d.rate > level then d.balance * (d.rate - level) else 0.0
  }

  ghost function Above(debts: seq<Debt>, level: real): real {
    if debts == [] then 0.0 else Above(debts[..|debts| - 1], level) + Part(debts[|debts| - 1], level)
  }

  lemma AboveAppend(debts: seq<Debt>, d: Debt, level: real)
    ensures Above(debts + [d], level) == Above(debts, level) + Part(d, level)
  {
    hide Part;
    assert (debts + [d])[..|debts|] == debts;
  }

  lemma {:induction false} AboveUpdate(debts: seq<Debt>, i: nat, d: Debt, level: real)
    requires i < |debts|
    ensures Above(debts[i := d], level) == Above(debts, level) - Part(debts[i], level) + Part(d, level)
  {
    hide Part;
    var k := |debts| - 1;
    if i == k {
      assert debts[i := d][..k] == debts[..k];
    } else {
      assert debts[i := d][..k] == debts[..k][i := d];
      AboveUpdate(debts[..k], i, d, level);
    }
  }

  ghost predicate NonNegative(debts: seq<Debt>) {
    forall i :: 0 <= i < |debts| ==> 0.0 <= debts[i].balance && 0.0 <= debts[i].rate
  }

  lemma {:induction false} AboveNonNegative(debts: seq<Debt>, level: real)
    requires NonNegative(debts)
    ensures 0.0 <= Above(debts, level)
  {
    if debts != [] {
      AboveNonNegative(debts[..|debts| - 1], level);
      PartNonNegative(debts[|debts| - 1], level);
    }
  }

  lemma PartNonNegative(d: Debt, level: real)
    requires 0.0 <= d.balance
    ensures 0.0 <= Part(d, level)
  {
    if d.rate > level {
      NonNegativeProduct(d.balance, d.rate - level);
    }
  }

  /** Below a level of zero every rate counts in full. */
  lemma {:induction false} AboveNegativeLevel(debts: seq<Debt>, level: real)
    requires NonNegative(debts) && level < 0.0
    ensures Above(debts, level) == Above(debts, 0.0) - level * Owed(debts)
  {
    if debts != [] {
      var front, last := debts[..|debts| - 1], debts[|debts| - 1];
      AboveNegativeLevel(front, level);
      LevelPart(last.balance, last.rate, level, Owed(front), Owed(debts));
    }
  }

  lemma LevelPart(balance: real, rate: real, level: real, front: real, all: real)
    requires 0.0 <= rate && level < 0.0 && all == front + balance
    ensures Part(Debt(balance, rate), level) == Part(Debt(balance, rate), 0.0) - level * all + level * front
  {
    assert balance * (rate - level) == balance * rate - level * balance;
    assert level * all == level * front + level * balance;
  }

  // ---------- the invariant ----------

  /** At every level of the rate, the debts' charges above it back those of the pool. */
  ghost predicate BackedAt(debts: seq<Debt>, pool: Pool, level: real) {
    pool.total * (pool.rate - level) <= Above(debts, level)
  }

  ghost predicate Backed(debts: seq<Debt>, pool: Pool) {
    && NonNegative(debts) && 0.0 <= pool.total && 0.0 <= pool.rate
    && forall level :: BackedAt(debts, pool, level)
  }

  /** A backed pool owes no more than the borrowers. */
  lemma BackedTotal(debts: seq<Debt>, pool: Pool)
    requires Backed(debts, pool)
    ensures pool.total <= Owed(debts)
  {
    hide Above, Owed;
    var missing, weight := pool.total - Owed(debts), Above(debts, 0.0);
    if missing > 0.0 {
      AboveNonNegative(debts, 0.0);
      var level := -((weight + 1.0) / missing);
      NegativeQuotientOf(weight + 1.0, missing, level);
      AboveNegativeLevel(debts, level);
      assert BackedAt(debts, pool, level);
      TooLowLevel(pool.total, pool.rate, Owed(debts), missing, weight, level);
    }
  }

  lemma NegativeQuotientOf(a: real, d: real, level: real)
    requires 0.0 < a && 0.0 < d && level == -(a / d)
    ensures level < 0.0 && level * d == -a
  {
  }

  lemma TooLowLevel(total: real, rate: real, balances: real, missing: real, weight: real, level: real)
    requires 0.0 <= total && 0.0 <= rate && missing == total - balances && level * missing == -(weight + 1.0)
    ensures total * (rate - level) > weight - level * balances
  {
    NonNegativeProduct(total, rate);
    assert total * (rate - level) == total * rate - level * total;
    assert level * missing == level * total - level * balances;
  }

  // ---------- waiting ----------

  lemma PowersMonotone(a: real, b: real)
    requires 0.0 <= a <= b
    ensures 0.0 <= a * a <= b * b && 0.0 <= a * a * a <= b * b * b
  {
    ScaleLe(a, a, b);
    ScaleLe(b, a, b);
    NonNegativeProduct(a, a);
    NonNegativeProduct(a * a, a);
    ScaleLe(a * a, a, b);
    ScaleLe(b, a * a, b * b);
  }

  lemma CubicMonotone(x: real, p: real, t: real, a1: real, a2: real, a3: real, b1: real, b2: real, b3: real)
    requires 0.0 <= x && 0.0 <= p && 0.0 <= t
    requires 0.0 <= a1 <= b1 && 0.0 <= a2 <= b2 && 0.0 <= a3 <= b3
    ensures 1.0 <= 1.0 + x * a1 + p * a2 + t * a3 <= 1.0 + x * b1 + p * b2 + t * b3
  {
    ScaleLe(x, a1, b1);
    ScaleLe(p, a2, b2);
    ScaleLe(t, a3, b3);
    NonNegativeProduct(x, a1);
    NonNegativeProduct(p, a2);
    NonNegativeProduct(t, a3);
  }

  lemma ExpansionMonotone(a: real, b: real, n: nat)
    requires 0.0 <= a <= b
    ensures 1.0 <= Expansion(a, n) <= Expansion(b, n)
  {
    hide Pairs, Triples;
    PowersMonotone(a, b);
    CubicMonotone(n as real, Pairs(n) as real, Triples(n) as real, a, a * a, a * a * a, b, b * b, b * b * b);
  }

  lemma AccruedFront(debts: seq<Debt>, n: nat, k: nat)
    requires k <= |debts|
    ensures Accrued(debts, n)[..k] == Accrued(debts[..k], n)
  {
    hide Expansion;
    forall i | 0 <= i < k ensures Accrued(debts, n)[..k][i] == Accrued(debts[..k], n)[i] {
      assert debts[..k][i] == debts[i];
    }
  }

  /**
    Growth times the excess over a level is convex in the rate: it stays above its tangent at `m`, which
    has the slope `k` and crosses zero at `start`.
   */
  lemma GrownExcess(z: real, m: real, level: real, start: real, k: real, atZ: real, atM: real, slope: real)
    requires 0.0 <= slope && atZ >= atM + slope * (z - m)
    requires k == atM + slope * (m - level) && k * (m - start) == atM * (m - level)
    requires level < z
    ensures k * (z - start) <= atZ * (z - level)
  {
    var tangent, d, e := atM + slope * (z - m), z - m, m - level;
    ScaleLe(z - level, tangent, atZ);
    SquareNonNegative(d);
    NonNegativeProduct(slope, d * d);
    TangentGap(atM, slope, d, e);
    assert k * (z - start) == k * d + k * (m - start);
  }

  lemma SquareNonNegative(d: real)
    ensures 0.0 <= d * d
  {
  }

  lemma TangentGap(atM: real, slope: real, d: real, e: real)
    ensures (atM + slope * d) * (d + e) - (atM + slope * e) * d - atM * e == slope * (d * d)
  {
    assert (atM + slope * d) * (d + e) == atM * d + atM * e + (slope * d) * d + (slope * d) * e;
    assert (atM + slope * e) * d == atM * d + (slope * e) * d;
  }

  lemma GrownPart(d: Debt, m: real, level: real, start: real, k: real, n: nat)
    requires 0.0 <= d.balance && 0.0 <= d.rate && 0.0 <= m && level <= start
    requires k == Expansion(m, n) + Slope(m, n) * (m - level) && k * (m - start) == Expansion(m, n) * (m - level)
    ensures k * Part(d, start) <= Part(Debt(d.balance * Expansion(d.rate, n), d.rate), level)
  {
    hide Expansion, Slope;
    var z := d.rate;
    ExpansionMonotone(z, z, n);
    NonNegativeProduct(d.balance, Expansion(z, n));
    PartNonNegative(Debt(d.balance * Expansion(z, n), z), level);
    if z > start {
      ExpansionAboveTangent(m, z, n);
      SlopeNonNegative(m, n);
      GrownExcess(z, m, level, start, k, Expansion(z, n), Expansion(m, n), Slope(m, n));
      ScaleLe(d.balance, k * (z - start), Expansion(z, n) * (z - level));
      Swapped(d.balance, k, z - start, Expansion(z, n), z - level);
    }
  }

  lemma Swapped(b: real, k: real, x: real, growth: real, y: real)
    ensures b * (k * x) == k * (b * x) && b * (growth * y) == b * growth * y
  {
  }

  lemma Associates(a: real, b: real, c: real)
    ensures a * (b * c) == a * b * c
  {
  }

  lemma {:induction false} GrownAbove(debts: seq<Debt>, m: real, level: real, start: real, k: real, n: nat)
    requires NonNegative(debts) && 0.0 <= m && level <= start
    requires k == Expansion(m, n) + Slope(m, n) * (m - level) && k * (m - start) == Expansion(m, n) * (m - level)
    ensures k * Above(debts, start) <= Above(Accrued(debts, n), level)
  {
    hide Expansion, Slope, Part;
    if debts != [] {
      var front, last := debts[..|debts| - 1], debts[|debts| - 1];
      GrownAbove(front, m, level, start, k, n);
      GrownPart(last, m, level, start, k, n);
      AccruedFront(debts, n, |front|);
      assert Accrued(debts, n)[|front|] == Debt(last.balance * Expansion(last.rate, n), last.rate);
      AddScaled(k, Above(front, start), Part(last, start), Above(debts, start));
    }
  }

  lemma AddScaled(k: real, a: real, b: real, sum: real)
    requires sum == a + b
    ensures k * sum == k * a + k * b
  {
  }

  /** Where the tangent crosses zero. */
  lemma TangentStart(m: real, level: real, atM: real, slope: real) returns (start: real, k: real)
    requires 1.0 <= atM && 0.0 <= slope && level < m
    ensures k == atM + slope * (m - level) && k * (m - start) == atM * (m - level)
    ensures level <= start && 0.0 < k
  {
    NonNegativeProduct(slope, m - level);
    k := atM + slope * (m - level);
    var share := atM * (m - level) / k;
    start := m - share;
    ScaleLe(m - level, atM, k);
    assert k * share == atM * (m - level);
    assert share <= m - level by {
      if share > m - level {
        StrictScale(k, m - level, share);
      }
    }
  }

  lemma StrictScale(k: real, a: real, b: real)
    requires 0.0 < k && a < b
    ensures k * a < k * b
  {
  }

  /** Waiting keeps the pool backed. */
  lemma WaitingKeepsBacking(debts: seq<Debt>, pool: Pool, n: nat)
    requires Backed(debts, pool)
    ensures Backed(Accrued(debts, n), Pool(PoolAt(pool, n), pool.rate))
  {
    hide BackedAt;
    AccruedNonNegative(debts, n);
    hide Expansion, Above, NonNegative;
    ExpansionMonotone(pool.rate, pool.rate, n);
    NonNegativeProduct(pool.total, Expansion(pool.rate, n));
    forall level ensures BackedAt(Accrued(debts, n), Pool(PoolAt(pool, n), pool.rate), level) {
      WaitingKeepsLevel(debts, pool, n, level);
    }
  }

  lemma AccruedNonNegative(debts: seq<Debt>, n: nat)
    requires NonNegative(debts)
    ensures NonNegative(Accrued(debts, n))
  {
    hide Expansion;
    forall i | 0 <= i < |debts| ensures 0.0 <= Accrued(debts, n)[i].balance {
      ExpansionMonotone(debts[i].rate, debts[i].rate, n);
      NonNegativeProduct(debts[i].balance, Expansion(debts[i].rate, n));
    }
  }

  lemma WaitingKeepsLevel(debts: seq<Debt>, pool: Pool, n: nat, level: real)
    requires Backed(debts, pool)
    ensures BackedAt(Accrued(debts, n), Pool(PoolAt(pool, n), pool.rate), level)
  {
    hide Expansion, Slope, Above, NonNegative, Accrued;
    var m, atM, slope := pool.rate, Expansion(pool.rate, n), Slope(pool.rate, n);
    ExpansionMonotone(m, m, n);
    NonNegativeProduct(pool.total, atM);
    if m <= level {
      AccruedNonNegative(debts, n);
      AboveNonNegative(Accrued(debts, n), level);
      NonNegativeProduct(pool.total * atM, level - m);
      assert pool.total * atM * (m - level) == -(pool.total * atM * (level - m));
    } else {
      SlopeNonNegative(m, n);
      var start, k := TangentStart(m, level, atM, slope);
      GrownAbove(debts, m, level, start, k, n);
      assert BackedAt(debts, pool, start);
      ScaleLe(k, pool.total * (m - start), Above(debts, start));
      Swapped(pool.total, k, m - start, atM, m - level);
    }
  }

  lemma PartAtLeast(d: Debt, level: real)
    requires 0.0 <= d.balance
    ensures d.balance * (d.rate - level) <= Part(d, level)
  {
    if d.rate <= level {
      NoCharge(d.balance, d.rate, level);
    }
  }

  lemma PartIs(balance: real, z: real, level: real)
    requires level <= z
    ensures Part(Debt(balance, z), level) == balance * (z - level)
  {
    if z == level {
      assert z - level == 0.0;
    }
  }

  lemma {:induction false} OwedUpdate(debts: seq<Debt>, i: nat, d: Debt)
    requires i < |debts|
    ensures Owed(debts[i := d]) == Owed(debts) - debts[i].balance + d.balance
  {
    var k := |debts| - 1;
    if i == k {
      assert debts[i := d][..k] == debts[..k];
    } else {
      assert debts[i := d][..k] == debts[..k][i := d];
      OwedUpdate(debts[..k], i, d);
    }
  }

  // ---------- finitely many levels are enough ----------

  /** The highest rate up to a level, or `from`. */
  lemma {:induction false} NearestBelow(debts: seq<Debt>, from: real, level: real) returns (lo: real)
    requires from <= level
    ensures from <= lo <= level
    ensures lo == from || exists j :: 0 <= j < |debts| && debts[j].rate == lo
    ensures forall j :: 0 <= j < |debts| ==> debts[j].rate <= lo || debts[j].rate > level
  {
    lo := from;
    if debts != [] {
      var k := |debts| - 1;
      lo := NearestBelow(debts[..k], from, level);
      if lo < debts[k].rate <= level {
        lo := debts[k].rate;
      }
    }
  }

  /** The lowest rate from a level on, or `to`. */
  lemma {:induction false} NearestAbove(debts: seq<Debt>, to: real, level: real) returns (hi: real)
    requires level <= to
    ensures level <= hi <= to
    ensures hi == to || exists j :: 0 <= j < |debts| && debts[j].rate == hi
    ensures forall j :: 0 <= j < |debts| ==> debts[j].rate >= hi || debts[j].rate < level
  {
    hi := to;
    if debts != [] {
      var k := |debts| - 1;
      hi := NearestAbove(debts[..k], to, level);
      if level <= debts[k].rate < hi {
        hi := debts[k].rate;
      }
    }
  }

  /** Between two neighbouring rates the charges fall along a line. */
  lemma {:induction false} AboveIsLinear(debts: seq<Debt>, lo: real, level: real, hi: real)
    requires lo <= level <= hi
    requires forall j :: 0 <= j < |debts| ==> debts[j].rate <= lo || debts[j].rate >= hi
    ensures (hi - lo) * Above(debts, level) == (hi - level) * Above(debts, lo) + (level - lo) * Above(debts, hi)
  {
    hide Part;
    if debts != [] {
      var k := |debts| - 1;
      AboveIsLinear(debts[..k], lo, level, hi);
      PartIsLinear(debts[k], lo, level, hi);
      LineSum(hi - lo, hi - level, level - lo, Above(debts[..k], level), Above(debts[..k], lo), Above(debts[..k], hi),
              Part(debts[k], level), Part(debts[k], lo), Part(debts[k], hi));
    }
  }

  lemma LineSum(width: real, right: real, left: real, a: real, b: real, c: real, p: real, q: real, r: real)
    requires width * a == right * b + left * c && width * p == right * q + left * r
    ensures width * (a + p) == right * (b + q) + left * (c + r)
  {
    assert width * (a + p) == width * a + width * p;
    assert right * (b + q) == right * b + right * q && left * (c + r) == left * c + left * r;
  }

  lemma PartIsLinear(d: Debt, lo: real, level: real, hi: real)
    requires lo <= level <= hi && (d.rate <= lo || d.rate >= hi)
    ensures (hi - lo) * Part(d, level) == (hi - level) * Part(d, lo) + (level - lo) * Part(d, hi)
  {
    if d.rate >= hi {
      PartIs(d.balance, d.rate, lo);
      PartIs(d.balance, d.rate, level);
      PartIs(d.balance, d.rate, hi);
      LinePoint(d.balance, d.rate, lo, level, hi);
    }
  }

  lemma LinePoint(b: real, z: real, lo: real, level: real, hi: real)
    ensures (hi - lo) * (b * (z - level)) == (hi - level) * (b * (z - lo)) + (level - lo) * (b * (z - hi))
  {
    assert (hi - lo) * (z - level) == (hi - level) * (z - lo) + (level - lo) * (z - hi);
    assert (hi - lo) * (b * (z - level)) == b * ((hi - lo) * (z - level));
    assert (hi - level) * (b * (z - lo)) == b * ((hi - level) * (z - lo));
    assert (level - lo) * (b * (z - hi)) == b * ((level - lo) * (z - hi));
  }

  /** Backing at both ends of a range, and at each rate inside, is backing at every level between. */
  lemma BackedBetween(debts: seq<Debt>, pool: Pool, from: real, to: real, level: real)
    requires from <= level <= to
    requires BackedAt(debts, pool, from) && BackedAt(debts, pool, to)
    requires forall j :: 0 <= j < |debts| && from < debts[j].rate < to ==> BackedAt(debts, pool, debts[j].rate)
    ensures BackedAt(debts, pool, level)
  {
    hide Above, BackedAt;
    var lo := NearestBelow(debts, from, level);
    var hi := NearestAbove(debts, to, level);
    assert BackedAt(debts, pool, lo) && BackedAt(debts, pool, hi);
    if lo < level < hi {
      AboveIsLinear(debts, lo, level, hi);
      BackedInside(debts, pool, lo, level, hi);
    }
  }

  lemma BackedInside(debts: seq<Debt>, pool: Pool, lo: real, level: real, hi: real)
    requires lo < level < hi && BackedAt(debts, pool, lo) && BackedAt(debts, pool, hi)
    requires (hi - lo) * Above(debts, level) == (hi - level) * Above(debts, lo) + (level - lo) * Above(debts, hi)
    ensures BackedAt(debts, pool, level)
  {
    hide Above;
    LinePoint(pool.total, pool.rate, lo, level, hi);
    ScaleLe(hi - level, pool.total * (pool.rate - lo), Above(debts, lo));
    ScaleLe(level - lo, pool.total * (pool.rate - hi), Above(debts, hi));
    if pool.total * (pool.rate - level) > Above(debts, level) {
      StrictScale(hi - lo, Above(debts, level), pool.total * (pool.rate - level));
    }
  }

  /** Above its own rate a pool needs no backing. */
  lemma BackedAboveRate(debts: seq<Debt>, pool: Pool, level: real)
    requires NonNegative(debts) && 0.0 <= pool.total && pool.rate <= level
    ensures BackedAt(debts, pool, level)
  {
    hide Above, NonNegative;
    var charge := pool.total * (pool.rate - level);
    assert charge <= 0.0 by {
      NoCharge(pool.total, pool.rate, level);
    }
    AboveNonNegative(debts, level);
    assert charge <= Above(debts, level);
  }

  lemma NoCharge(total: real, rate: real, level: real)
    requires 0.0 <= total && rate <= level
    ensures total * (rate - level) <= 0.0
  {
    ScaleLe(total, rate, level);
  }
}
