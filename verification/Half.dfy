/** IEEE 754 binary16 patterns and the rounding of non-negative reals to them. */
module Half {
  import opened Indexing

  type Pattern = h: int | 0 <= h < 0x1_0000

  /** Exponent field 31 holds the infinities and NaNs, from this magnitude on. */
  const INFINITY: Pattern := 0x7C00

  const SIGN: int := 0x8000

  predicate Finite(h: Pattern) {
    h < INFINITY || SIGN <= h < SIGN + INFINITY
  }

  /** The magnitude of a pattern without its sign, in units of 2^-24, the least subnormal. */
  function Units(m: nat): nat {
    if m < 1024 then m else (1024 + m % 1024) * Pow2(m / 1024 - 1)
  }

  const UNIT: real := 16777216.0

  function Value(h: Pattern): real
    requires Finite(h)
  {
    if h < SIGN then Units(h) as real / UNIT else -(Units(h - SIGN) as real / UNIT)
  }

  /** The greatest magnitude up to `m` that is at most `u` units. */
  function Below(u: real, m: nat): (k: nat)
    requires u >= 0.0
    ensures k <= m
    ensures Units(k) as real <= u
    ensures k < m ==> u < Units(k + 1) as real
  {
    if m == 0 || Units(m) as real <= u then m else Below(u, m - 1)
  }

  /** roundTiesToEven of section 4.3.1 of IEEE 754-2019; from the midpoint above the greatest finite value on, infinity. */
  function Round(x: real): (h: Pattern)
    requires x >= 0.0
    ensures h <= INFINITY
  {
    var u := x * UNIT;
    var k := Below(u, INFINITY);
    if k == INFINITY then INFINITY
    else
      var down, up := u - Units(k) as real, Units(k + 1) as real - u;
      if down < up || (down == up && k % 2 == 0) then k else k + 1
  }

  // ----- the patterns are ordered like their values

  lemma UnitsStep(m: nat)
    ensures Units(m) < Units(m + 1)
    ensures 1024 <= m ==> Units(m + 1) - Units(m) == Pow2(m / 1024 - 1)
    ensures 1024 <= m ==> 1024 * Pow2(m / 1024 - 1) <= Units(m)
  {
    var e, r := m / 1024, m % 1024;
    if 1024 <= m {
      var p := Pow2(e - 1);
      NormalStep(r, p);
      DivideUnique(m + 1, 1024, if r == 1023 then e + 1 else e, if r == 1023 then 0 else r + 1);
      assert r == 1023 ==> Pow2(e) == 2 * p;
    } else if m == 1023 {
      assert Units(1024) == 1024 * Pow2(0);
    }
  }

  lemma NormalStep(r: nat, p: nat)
    ensures (1024 + (r + 1)) * p == (1024 + r) * p + p
    ensures 1024 * p <= (1024 + r) * p
    ensures r == 1023 ==> 1024 * (2 * p) == (1024 + r) * p + p
  {
  }

  lemma {:induction false} UnitsOrdered(m: nat, n: nat)
    requires m < n
    ensures Units(m) < Units(n)
    decreases n
  {
    UnitsStep(n - 1);
    if m < n - 1 {
      UnitsOrdered(m, n - 1);
    }
  }

  lemma BelowUnits(m: nat, limit: nat)
    requires m <= limit
    ensures Below(Units(m) as real, limit) == m
  {
    var k := Below(Units(m) as real, limit);
    if k < m {
      if k + 1 < m { UnitsOrdered(k + 1, m); }
      assert false;
    }
    if m < k {
      UnitsOrdered(m, k);
      assert false;
    }
  }

  /** Rounding a representable value returns its pattern. */
  lemma RoundOfValue(h: Pattern)
    requires h < INFINITY
    ensures Round(Value(h)) == h
  {
    hide Units, Below;
    assert Value(h) * UNIT == Units(h) as real;
    BelowUnits(h, INFINITY);
    UnitsStep(h);
  }

  lemma Pow2Values()
    ensures Pow2(29) == 0x2000_0000 && Pow2(30) == 0x4000_0000
  {
    assert Pow2(10) == 1024;
    assert Pow2(20) == 1024 * 1024;
  }

  /** Half the least subnormal still rounds to zero, the tie going to the even pattern. */
  lemma RoundZeroIff(x: real)
    requires x >= 0.0
    ensures Round(x) == 0 <==> 2.0 * x * UNIT <= 1.0
  {
    var u := x * UNIT;
    var k := Below(u, INFINITY);
    if 1 <= k {
      if 1 < k { UnitsOrdered(1, k); }
      assert Round(x) >= 1;
    } else {
      assert Units(0) == 0 && Units(1) == 1;
    }
  }

  /** The least real that rounds to infinity is 65520, the midpoint between 65504 and 65536. */
  lemma RoundFiniteIff(x: real)
    requires x >= 0.0
    ensures Round(x) < INFINITY <==> x < 65520.0
  {
    var u := x * UNIT;
    var k := Below(u, INFINITY);
    Pow2Values();
    assert Units(INFINITY) == 1024 * Pow2(30);
    assert Units(INFINITY - 1) == 2047 * Pow2(29);
    if k < INFINITY - 1 {
      if k + 1 < INFINITY - 1 { UnitsOrdered(k + 1, INFINITY - 1); }
    }
  }

  /** No finite non-negative pattern is closer to `x` than the one it rounds to. */
  lemma RoundNearest(x: real, m: Pattern)
    requires 0.0 <= x < 65520.0 && m < INFINITY
    ensures Round(x) < INFINITY
    ensures Distance(Value(Round(x)), x) <= Distance(Value(m), x)
  {
    hide Units, Below, Round, Distance, Value;
    RoundFiniteIff(x);
    NearestInUnits(x, m);
    ScaledDistance(Round(x), x);
    ScaledDistance(m, x);
  }

  lemma NearestInUnits(x: real, m: Pattern)
    requires 0.0 <= x && Round(x) < INFINITY && m < INFINITY
    ensures Distance(Units(Round(x)) as real, x * UNIT) <= Distance(Units(m) as real, x * UNIT)
  {
    hide Units, Below, Round, Distance;
    var k := RoundInUnits(x);
    if m < k {
      UnitsOrdered(m, k);
    } else if k + 1 < m {
      UnitsOrdered(k + 1, m);
    }
    NearestOfTwo(x * UNIT, Units(k) as real, Units(k + 1) as real, Units(Round(x)) as real, Units(m) as real);
  }

  /** A finite rounding picks the nearer of the two neighbours. */
  lemma RoundInUnits(x: real) returns (k: nat)
    requires 0.0 <= x && Round(x) < INFINITY
    ensures k < INFINITY
    ensures Units(k) as real <= x * UNIT < Units(k + 1) as real
    ensures (Round(x) == k && x * UNIT - Units(k) as real <= Units(k + 1) as real - x * UNIT)
         || (Round(x) == k + 1 && Units(k + 1) as real - x * UNIT <= x * UNIT - Units(k) as real)
  {
    hide Units;
    k := Below(x * UNIT, INFINITY);
  }

  /** Of two patterns that are equally near, the even one is taken. */
  lemma RoundTieEven(x: real, m: Pattern)
    requires 0.0 <= x < 65520.0 && m < INFINITY && m != Round(x)
    requires Round(x) < INFINITY && Distance(Value(Round(x)), x) == Distance(Value(m), x)
    ensures Round(x) % 2 == 0
  {
    hide Units, Value;
    ScaledDistance(Round(x), x);
    ScaledDistance(m, x);
    var u := x * UNIT;
    assert Distance(Units(Round(x)) as real, u) == Distance(Units(m) as real, u);
    var k := Below(u, INFINITY);
    if m < k {
      UnitsOrdered(m, k);
    } else if k + 1 < m {
      UnitsOrdered(k + 1, m);
    }
  }

  /** Signs, exponents and fractions as section 3.4 of IEEE 754-2019 reads them. */
  lemma Landmarks()
    ensures Value(0) == 0.0 && Value(0x0001) == 1.0 / 16777216.0 && Value(0x0400) == 1.0 / 16384.0
    ensures Value(0x3C00) == 1.0 && Value(0x3C01) == 1.0 + 1.0 / 1024.0 && Value(0x7BFF) == 65504.0 && Value(0xC000) == -2.0
    ensures !Finite(0x7C00) && !Finite(0x7E00) && Finite(0x8000) && !Finite(0xFC00)
  {
    Pow2Values();
    assert Pow2(14) == 16384 && Pow2(15) == 32768;
    assert Units(0x3C00) == 1024 * Pow2(14) && Units(0x3C01) == 1025 * Pow2(14) && Units(0x4000) == 1024 * Pow2(15);
    assert Units(0x7BFF) == 2047 * Pow2(29);
    LeastNormal();
  }

  lemma NearestOfTwo(u: real, lo: real, hi: real, chosen: real, other: real)
    requires lo <= u < hi
    requires (chosen == lo && u - lo <= hi - u) || (chosen == hi && hi - u <= u - lo)
    requires other <= lo || hi <= other
    ensures Distance(chosen, u) <= Distance(other, u)
  {
  }

  lemma ScaledDistance(h: Pattern, x: real)
    requires h < INFINITY
    ensures Finite(h) && Distance(Value(h), x) == Distance(Units(h) as real, x * UNIT) / UNIT
  {
    hide Units;
  }

  function Distance(a: real, b: real): real {
    if a < b then b - a else a - b
  }

  lemma GapSmall(k: nat)
    requires 1024 <= k
    ensures 1024 * (Units(k + 1) - Units(k)) <= Units(k)
  {
    hide Units;
    UnitsStep(k);
  }

  /** From the least normal value on, rounding moves a scale by at most one part in 2048. */
  lemma RoundRelativeError(x: real)
    requires 1.0 <= x * 16384.0 && x < 65520.0
    ensures Round(x) < INFINITY
    ensures Distance(Value(Round(x)), x) <= x / 2048.0
  {
    hide Units, Below, Round, Value;
    RoundFiniteIff(x);
    var k := RoundInUnits(x);
    LeastNormal();
    if k < 1024 {
      if k + 1 < 1024 { UnitsOrdered(k + 1, 1024); }
      assert false;
    }
    GapSmall(k);
    ScaledDistance(Round(x), x);
  }

  lemma LeastNormal()
    ensures Units(1024) == 1024
  {
    assert Pow2(0) == 1;
  }
}
