/**
  What it costs that compounding starts anew: the polynomial over a whole time against the product over
  its parts, which differ by powers of the rate above the third.
 */
module Restart {
  import opened Interest
  import opened Compounding
  import opened Backing

  /** Coefficient of the lowest power that starting anew adds. */
  ghost function Restarted(m: nat, n: nat): nat {
    m * Triples(n) + Pairs(m) * Pairs(n) + Triples(m) * n
  }

  /** Products as single terms, so that what follows is linear in them. */
  ghost function Times(a: real, b: real): real {
    a * b
  }

  lemma TimesSums(a: real, b: real, c: real, d: real, k: real)
    ensures Times(a + b + c + d, k) == Times(a, k) + Times(b, k) + Times(c, k) + Times(d, k)
    ensures Times(0.0, k) == 0.0
  {
  }

  lemma TimesPairs(a: real, x: real, b: real, y: real)
    ensures Times(Times(a, x), Times(b, y)) == Times(Times(a, b), Times(x, y))
  {
  }

  lemma TimesPowers(z: real)
    ensures var s := Times(z, z);
      var c := Times(z, s);
      && Times(z, c) == Times(s, s) == Times(c, z)
      && Times(s, c) == Times(z, Times(s, s)) == Times(c, s)
      && Times(c, c) == Times(s, Times(s, s))
  {
  }

  lemma TimesExpands(a: real, b: real, c: real, d: real, e: real, f: real)
    ensures Times(1.0 + a + b + c, 1.0 + d + e + f)
      == 1.0 + (a + d) + (b + Times(a, d) + e) + (c + Times(b, d) + Times(a, e) + f)
        + (Times(a, f) + Times(b, e) + Times(c, d)) + (Times(b, f) + Times(c, e)) + Times(c, f)
  {
  }

  lemma CubicInTimes(a: real, b: real, c: real, z: real)
    ensures Cubic(a, b, c, z) == 1.0 + Times(a, z) + Times(b, Times(z, z)) + Times(c, Times(z, Times(z, z)))
  {
  }

  /** The powers of the rate above the third. */
  ghost function HigherTerms(z: real, fourth: real, fifth: real, sixth: real): real {
    var s := Times(z, z);
    Times(fourth, Times(s, s)) + (Times(fifth, Times(z, Times(s, s))) + Times(sixth, Times(s, Times(s, s))))
  }

  lemma ProductOfCubics(z: real, m: real, pm: real, tm: real, n: real, pn: real, tn: real)
    ensures Times(Cubic(m, pm, tm, z), Cubic(n, pn, tn, z))
      == Cubic(m + n, pm + Times(m, n) + pn, tm + Times(pm, n) + Times(m, pn) + tn, z)
        + HigherTerms(z, Times(m, tn) + Times(pm, pn) + Times(tm, n), Times(pm, tn) + Times(tm, pn), Times(tm, tn))
  {
    hide Cubic, Times;
    var s := Times(z, z);
    var c := Times(z, s);
    CubicInTimes(m, pm, tm, z);
    CubicInTimes(n, pn, tn, z);
    CubicInTimes(m + n, pm + Times(m, n) + pn, tm + Times(pm, n) + Times(m, pn) + tn, z);
    TimesExpands(Times(m, z), Times(pm, s), Times(tm, c), Times(n, z), Times(pn, s), Times(tn, c));
    TimesPairs(m, z, n, z);
    TimesPairs(pm, s, n, z);
    TimesPairs(m, z, pn, s);
    TimesPairs(m, z, tn, c);
    TimesPairs(pm, s, pn, s);
    TimesPairs(tm, c, n, z);
    TimesPairs(pm, s, tn, c);
    TimesPairs(tm, c, pn, s);
    TimesPairs(tm, c, tn, c);
    TimesPowers(z);
    SquareTimes(z);
    TimesSums(m, n, 0.0, 0.0, z);
    TimesSums(pm, Times(m, n), pn, 0.0, s);
    TimesSums(tm, Times(pm, n), Times(m, pn), tn, c);
    TimesSums(Times(m, tn), Times(pm, pn), Times(tm, n), 0.0, Times(s, s));
    TimesSums(Times(pm, tn), Times(tm, pn), 0.0, 0.0, Times(z, Times(s, s)));
  }

  lemma SquareTimes(z: real)
    ensures Times(Times(z, z), z) == Times(z, Times(z, z))
  {
  }

  /** Compounding over `m` seconds and then anew over `n` multiplies up to the fourth power and beyond. */
  lemma RestartIs(z: real, m: nat, n: nat)
    ensures Times(Expansion(z, m), Expansion(z, n))
      == Expansion(z, m + n)
        + HigherTerms(z, Restarted(m, n) as real, (Pairs(m) * Triples(n) + Triples(m) * Pairs(n)) as real,
                      (Triples(m) * Triples(n)) as real)
  {
    hide Pairs, Triples, Cubic, HigherTerms, Times;
    PairsSplit(m, n);
    TriplesSplit(m, n);
    RealProduct(m, n);
    RealProduct(Pairs(m), n);
    RealProduct(m, Pairs(n));
    RealProduct(m, Triples(n));
    RealProduct(Pairs(m), Pairs(n));
    RealProduct(Triples(m), n);
    RealProduct(Pairs(m), Triples(n));
    RealProduct(Triples(m), Pairs(n));
    RealProduct(Triples(m), Triples(n));
    ProductOfCubics(z, m as real, Pairs(m) as real, Triples(m) as real, n as real, Pairs(n) as real, Triples(n) as real);
  }

  lemma RealProduct(a: int, b: int)
    ensures (a * b) as real == Times(a as real, b as real)
  {
  }

  lemma TimesNonNegative(a: real, b: real)
    requires 0.0 <= a && 0.0 <= b
    ensures 0.0 <= Times(a, b)
    ensures 0.0 < a && 0.0 < b ==> 0.0 < Times(a, b)
  {
  }

  lemma HigherNonNegative(z: real, fourth: real, fifth: real, sixth: real)
    requires 0.0 <= z && 0.0 <= fourth && 0.0 <= fifth && 0.0 <= sixth
    ensures HigherTerms(z, fourth, fifth, sixth) >= 0.0
    ensures 0.0 < z && 0.0 < fourth ==> HigherTerms(z, fourth, fifth, sixth) > 0.0
  {
    hide Times;
    var s := Times(z, z);
    TimesNonNegative(z, z);
    TimesNonNegative(s, s);
    TimesNonNegative(z, Times(s, s));
    TimesNonNegative(s, Times(s, s));
    TimesNonNegative(fourth, Times(s, s));
    TimesNonNegative(fifth, Times(z, Times(s, s)));
    TimesNonNegative(sixth, Times(s, Times(s, s)));
  }

  lemma {:induction false} SmallCounts(n: nat)
    ensures Pairs(n) > 0 <==> n >= 2
    ensures Triples(n) > 0 <==> n >= 3
  {
    if n > 0 {
      SmallCounts(n - 1);
    }
  }

  /**
    Starting anew never charges less, and charges the same if and only if the rate is zero, or there is no
    second part to either side, or the whole time is at most three seconds.
   */
  lemma RestartCostsIff(z: real, m: nat, n: nat)
    requires 0.0 <= z
    ensures Expansion(z, m + n) <= Expansion(z, m) * Expansion(z, n)
    ensures Expansion(z, m + n) == Expansion(z, m) * Expansion(z, n) <==> z == 0.0 || m == 0 || n == 0 || m + n <= 3
  {
    hide Expansion, HigherTerms, Pairs, Triples, Times;
    var fourth, fifth, sixth := Restarted(m, n), Pairs(m) * Triples(n) + Triples(m) * Pairs(n), Triples(m) * Triples(n);
    RestartIs(z, m, n);
    HigherNonNegative(z, fourth as real, fifth as real, sixth as real);
    RestartedIff(m, n);
    TimesIs(Expansion(z, m), Expansion(z, n));
    if z == 0.0 || fourth == 0 {
      NoHigherTerms(z, m, n);
    }
  }

  lemma TimesIs(a: real, b: real)
    ensures Times(a, b) == a * b
  {
  }

  lemma RestartedIff(m: nat, n: nat)
    ensures Restarted(m, n) > 0 <==> m > 0 && n > 0 && m + n >= 4
  {
    hide Pairs, Triples;
    SmallCounts(m);
    SmallCounts(n);
    ProductPositiveIff(m, Triples(n));
    ProductPositiveIff(Pairs(m), Pairs(n));
    ProductPositiveIff(Triples(m), n);
  }

  lemma ProductPositiveIff(a: nat, b: nat)
    ensures a * b >= 0
    ensures a * b > 0 <==> a > 0 && b > 0
  {
  }

  lemma NoHigherTerms(z: real, m: nat, n: nat)
    requires z == 0.0 || Restarted(m, n) == 0
    ensures HigherTerms(z, Restarted(m, n) as real, (Pairs(m) * Triples(n) + Triples(m) * Pairs(n)) as real,
                        (Triples(m) * Triples(n)) as real) == 0.0
  {
    hide Pairs, Triples, HigherTerms;
    if z == 0.0 {
      HigherAtZero(Restarted(m, n) as real, (Pairs(m) * Triples(n) + Triples(m) * Pairs(n)) as real,
                   (Triples(m) * Triples(n)) as real);
    } else {
      RestartedIff(m, n);
      SmallCounts(m);
      SmallCounts(n);
      ProductPositiveIff(Pairs(m), Triples(n));
      ProductPositiveIff(Triples(m), Pairs(n));
      ProductPositiveIff(Triples(m), Triples(n));
      NoCoefficients(z);
    }
  }

  lemma HigherAtZero(fourth: real, fifth: real, sixth: real)
    ensures HigherTerms(0.0, fourth, fifth, sixth) == 0.0
  {
  }

  lemma NoCoefficients(z: real)
    ensures HigherTerms(z, 0.0, 0.0, 0.0) == 0.0
  {
  }

  ghost function Anew(z: real, waits: seq<nat>): real {
    if waits == [] then 1.0 else Anew(z, waits[..|waits| - 1]) * Expansion(z, waits[|waits| - 1])
  }

  function Elapsed(waits: seq<nat>): nat {
    if waits == [] then 0 else Elapsed(waits[..|waits| - 1]) + waits[|waits| - 1]
  }

  /** However often compounding starts anew, it never charges less than one long period. */
  lemma {:induction false} StartingAnewNeverCheaper(z: real, waits: seq<nat>)
    requires 0.0 <= z
    ensures Expansion(z, Elapsed(waits)) <= Anew(z, waits)
  {
    hide Expansion;
    if waits == [] {
      ExpansionAtZero(z);
    } else {
      var front, last := waits[..|waits| - 1], waits[|waits| - 1];
      StartingAnewNeverCheaper(z, front);
      RestartCostsIff(z, Elapsed(front), last);
      ExpansionMonotone(z, z, last);
      ChainedGrowth(Expansion(z, Elapsed(front)), Anew(z, front), Expansion(z, last), Expansion(z, Elapsed(waits)), Anew(z, waits));
    }
  }

  lemma ChainedGrowth(whole: real, parts: real, growth: real, longer: real, anew: real)
    requires whole <= parts && 0.0 <= growth && longer <= whole * growth && anew == parts * growth
    ensures longer <= anew
  {
    ScaleLe(growth, whole, parts);
  }
}
