/** What the bit patterns of `ratio` and `percent` mean as numbers: the 64-bit format of IEEE 754. */
module Doubles {
  import opened Words
  import opened Bits
  import opened Observations

  const FRACTION: nat := 0x10_0000_0000_0000

  function Negative(pattern: u64): bool { pattern >= 0x8000_0000_0000_0000 }

  function Exponent(pattern: u64): (e: nat)
    ensures e < 2048
  {
    pattern / FRACTION % 2048
  }

  /** Neither an infinity nor a NaN. */
  predicate Finite(pattern: u64) { Exponent(pattern) != 2047 }

  /** The absolute value of a finite pattern in units of 2^-1074, the smallest positive double. */
  function Magnitude(pattern: u64): nat {
    if Exponent(pattern) == 0 then pattern % FRACTION
    else (FRACTION + pattern % FRACTION) * Power2(Exponent(pattern) - 1)
  }

  /** The number a finite pattern denotes. */
  function Number(pattern: u64): real {
    var size := Magnitude(pattern) as real / Power2(1074) as real;
    if Negative(pattern) then -size else size
  }

  lemma {:induction false} PowersGrow(m: nat, n: nat)
    requires m <= n
    ensures Power2(m) <= Power2(n)
    decreases n
  {
    if m < n {
      PowersGrow(m, n - 1);
    }
  }

  lemma PatternParts(pattern: u64)
    requires !Negative(pattern)
    ensures pattern == Exponent(pattern) * FRACTION + pattern % FRACTION
  {
  }

  lemma Scaled(a: nat, b: nat, p: nat)
    requires a <= b
    ensures a * p <= b * p
    ensures a < b && p > 0 ==> a * p < b * p
  {
  }

  lemma MagnitudeBounds(pattern: u64)
    ensures var e, m := Exponent(pattern), Magnitude(pattern);
      if e == 0 then m < FRACTION else FRACTION * Power2(e - 1) <= m < FRACTION * Power2(e)
  {
    var e, f := Exponent(pattern), pattern % FRACTION;
    if e > 0 {
      var p := Power2(e - 1);
      Scaled(FRACTION, FRACTION + f, p);
      Scaled(FRACTION + f, 2 * FRACTION, p);
      assert Power2(e) == 2 * p;
      assert 2 * FRACTION * p == FRACTION * (2 * p);
    }
  }

  /** Non-negative doubles are ordered like their patterns. */
  lemma MagnitudesGrow(p: u64, q: u64)
    requires p < q && !Negative(q)
    ensures Magnitude(p) < Magnitude(q)
  {
    PatternParts(p);
    PatternParts(q);
    MagnitudeBounds(p);
    MagnitudeBounds(q);
    var e, g := Exponent(p), Exponent(q);
    if e == g {
      Scaled(FRACTION + p % FRACTION, FRACTION + q % FRACTION, if e == 0 then 1 else Power2(e - 1));
    } else {
      assert e < g;
      PowersGrow(e, g - 1);
      Scaled(Power2(e), Power2(g - 1), FRACTION);
      PowersGrow(0, g - 1);
      Scaled(1, Power2(g - 1), FRACTION);
    }
  }

  lemma OneMagnitude()
    ensures Finite(DOUBLE_ONE) && !Negative(DOUBLE_ONE) && Magnitude(DOUBLE_ONE) == 1 * Power2(1074)
  {
    assert Exponent(DOUBLE_ONE) == 1023 && DOUBLE_ONE % FRACTION == 0;
    SmallPowers();
    assert Magnitude(DOUBLE_ONE) == FRACTION * Power2(1022);
    hide Power2;
    hide Magnitude;
    DoublePower(52, 1022);
  }

  lemma HundredMagnitude()
    ensures Finite(DOUBLE_HUNDRED) && !Negative(DOUBLE_HUNDRED) && Magnitude(DOUBLE_HUNDRED) == 100 * Power2(1074)
  {
    assert Exponent(DOUBLE_HUNDRED) == 1029 && DOUBLE_HUNDRED % FRACTION == 0x9_0000_0000_0000;
    SmallPowers();
    DoublePower(46, 1028);
    hide Power2;
    Distribute(100, 0x4000_0000_0000, Power2(1028), 0);
  }

  lemma SmallPowers()
    ensures Power2(52) == FRACTION && Power2(46) == 0x4000_0000_0000
  {
    Power2Values();
    DoublePower(32, 8);
    assert Power2(6) == 64 && Power2(4) == 16;
    DoublePower(40, 6);
    assert Power2(46) == 0x4000_0000_0000;
    DoublePower(46, 6);
  }

  lemma FiniteBelow(p: u64, q: u64)
    requires p <= q && !Negative(q) && Finite(q)
    ensures Finite(p)
  {
    PatternParts(p);
    PatternParts(q);
  }

  lemma PositiveWithin(pattern: u64, limit: u64, n: nat)
    requires !Negative(pattern) && !Negative(limit) && Finite(limit) && Magnitude(limit) == n * Power2(1074)
    ensures DoubleWithin(pattern, limit) <==> Finite(pattern) && 0.0 <= Number(pattern) <= n as real
  {
    assert pattern != DOUBLE_MINUS_ZERO;
    assert Number(pattern) == Magnitude(pattern) as real / Power2(1074) as real;
    if pattern <= limit {
      FiniteBelow(pattern, limit);
    }
    hide Negative;
    hide Finite;
    hide Magnitude;
    hide Power2;
    hide Number;
    if pattern < limit {
      MagnitudesGrow(pattern, limit);
    } else if pattern > limit {
      MagnitudesGrow(limit, pattern);
    }
    Quotient(Magnitude(pattern), Power2(1074), n);
  }

  lemma NegativeWithin(pattern: u64, limit: u64, n: nat)
    requires Negative(pattern) && !Negative(limit)
    ensures DoubleWithin(pattern, limit) <==> Finite(pattern) && 0.0 <= Number(pattern) <= n as real
  {
    NegativeZero(pattern);
    assert Number(pattern) == -(Magnitude(pattern) as real / Power2(1074) as real);
    hide Finite;
    hide Magnitude;
    hide Power2;
    hide Number;
    Quotient(Magnitude(pattern), Power2(1074), 0);
  }

  /** The malformed check on patterns is the comparison of numbers: finite, and between zero and the limit. */
  lemma WithinIsBetween(pattern: u64, limit: u64, n: nat)
    requires !Negative(limit) && Finite(limit) && Magnitude(limit) == n * Power2(1074)
    ensures DoubleWithin(pattern, limit) <==> Finite(pattern) && 0.0 <= Number(pattern) <= n as real
  {
    hide Finite;
    hide Magnitude;
    hide Power2;
    hide Number;
    hide DoubleWithin;
    if Negative(pattern) {
      NegativeWithin(pattern, limit, n);
    } else {
      PositiveWithin(pattern, limit, n);
    }
  }

  lemma NegativeZero(pattern: u64)
    requires Negative(pattern)
    ensures Magnitude(pattern) == 0 && Finite(pattern) <==> pattern == DOUBLE_MINUS_ZERO
  {
    MagnitudeBounds(pattern);
    if Exponent(pattern) > 0 {
      PowersGrow(0, Exponent(pattern) - 1);
      Scaled(1, Power2(Exponent(pattern) - 1), FRACTION);
    }
  }

  lemma Quotient(m: nat, one: nat, n: nat)
    requires one > 0
    ensures 0.0 <= m as real / one as real
    ensures m > 0 ==> m as real / one as real > 0.0
    ensures m <= n * one <==> m as real / one as real <= n as real
  {
    var q := m as real / one as real;
    assert q * one as real == m as real;
    if q <= n as real {
      assert q * one as real <= n as real * one as real;
    } else {
      assert q * one as real > n as real * one as real;
    }
  }

  /** An observation is well-formed if and only if it does not end before it begins and both numbers are in range. */
  lemma WellFormedNumbers(o: Observation)
    ensures WellFormed(o) <==>
      && o.begin <= o.end
      && Finite(o.ratio) && 0.0 <= Number(o.ratio) <= 1.0
      && Finite(o.percent) && 0.0 <= Number(o.percent) <= 100.0
  {
    hide Number;
    hide Magnitude;
    hide Finite;
    hide Negative;
    hide Power2;
    hide DoubleWithin;
    OneMagnitude();
    HundredMagnitude();
    WithinIsBetween(o.ratio, DOUBLE_ONE, 1);
    WithinIsBetween(o.percent, DOUBLE_HUNDRED, 100);
  }
}
