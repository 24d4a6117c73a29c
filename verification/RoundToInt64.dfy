/** `int64FromFloat` of `metrics/recorder.go`, over the finite values a double can take: a significand
    below 2^53 in magnitude times a power of two. */
module RoundToInt64 {
  import opened Wrappers

  const TWO_53 := 0x20_0000_0000_0000
  const TWO_63 := 0x8000_0000_0000_0000

  datatype Double = NaN | Infinite | Finite(significand: int, exponent: int)

  function Pow2(n: nat): nat {
    if n == 0 then 1 else 2 * Pow2(n - 1)
  }

  /** 2^e for any integer e. */
  function Scale(e: int): real
    ensures Scale(e) > 0.0
  {
    if e >= 0 then PowPositive(e); Pow2(e) as real else PowPositive(-e); 1.0 / Pow2(-e) as real
  }

  lemma {:induction false} PowPositive(n: nat)
    ensures Pow2(n) >= 1
  {
    if n > 0 {
      PowPositive(n - 1);
    }
  }

  predicate Representable(d: Double) {
    d.Finite? ==> -TWO_53 < d.significand < TWO_53
  }

  function Value(d: Double): real
    requires d.Finite?
  {
    d.significand as real * Scale(d.exponent)
  }

  /** `math.Round`: half away from zero. */
  function Round(x: real): int {
    if x >= 0.0 then (x + 0.5).Floor else -((-x + 0.5).Floor)
  }

  /** None when the source reports false. */
  function Int64FromFloat(d: Double): Option<int> {
    if !d.Finite? then None
    else
      var rounded := Round(Value(d));
      if rounded >= TWO_63 || rounded < -TWO_63 then None else Some(rounded)
  }

  // ---------------------------------------------------------------- what rounding means

  /** Round to nearest, ties away from zero (section 4.3.1 of IEEE 754-2008). */
  predicate NearestTiesAway(x: real, n: int) {
    && -0.5 <= x - n as real <= 0.5
    && (x - n as real == 0.5 ==> x < 0.0)
    && (n as real - x == 0.5 ==> x > 0.0)
  }

  lemma RoundIsNearest(x: real, n: int)
    ensures NearestTiesAway(x, n) <==> n == Round(x)
  {
  }

  lemma RoundIsMonotone(x: real, y: real)
    requires x <= y
    ensures Round(x) <= Round(y)
  {
  }

  // ---------------------------------------------------------------- the shape of doubles near 2^63

  lemma {:induction false} PowSplits(a: nat, b: nat)
    ensures Pow2(a + b) == Pow2(a) * Pow2(b)
  {
    if a > 0 {
      PowSplits(a - 1, b);
    }
  }

  lemma {:induction false} PowMonotone(a: nat, b: nat)
    requires a <= b
    ensures Pow2(a) <= Pow2(b)
    decreases b - a
  {
    if a < b {
      PowMonotone(a, b - 1);
    }
  }

  lemma ScaleBelow(e: int, n: nat)
    requires e <= n
    ensures Scale(e) <= Pow2(n) as real
  {
    PowPositive(n);
    if e >= 0 {
      PowMonotone(e, n);
    } else {
      PowPositive(-e);
    }
  }

  lemma CastOfProduct(a: int, b: int)
    ensures (a * b) as real == a as real * b as real
  {
  }

  lemma Regroup(a: int, b: int, c: int)
    ensures a * (b * c) == (a * b) * c
  {
  }

  /** With an exponent of at least `n` the value is a whole multiple of 2^n. */
  lemma ValueIsMultiple(d: Double, n: nat) returns (k: int)
    requires d.Finite? && d.exponent >= n
    ensures Value(d) == (k * Pow2(n)) as real
  {
    var m, p := d.significand, Pow2(d.exponent - n);
    k := m * p;
    PowSplits(d.exponent - n, n);
    CastOfProduct(m, Pow2(d.exponent));
    Regroup(m, p, Pow2(n));
  }

  lemma Scaled(a: real, b: real, c: real)
    requires a <= b && c >= 0.0
    ensures a * c <= b * c
  {
  }

  lemma ScaledWithin(x: real, top: real, s: real, bound: real)
    requires -top <= x <= top && 0.0 < s <= bound
    ensures x * s <= top * bound
  {
    Scaled(x, top, s);
    Scaled(s, bound, top);
    assert top * s == s * top;
    assert bound * top == top * bound;
  }

  lemma Products(m: int, s: real, bound: real)
    requires -TWO_53 < m < TWO_53 && 0.0 < s <= bound
    ensures -((TWO_53 - 1) as real * bound) <= m as real * s <= (TWO_53 - 1) as real * bound
  {
    var x, y, top := m as real, -(m as real), (TWO_53 - 1) as real;
    ScaledWithin(x, top, s, bound);
    ScaledWithin(y, top, s, bound);
    assert y * s == -(x * s);
  }

  lemma {:induction false} PowValues()
    ensures Pow2(0) == 1 && Pow2(10) == 1024 && Pow2(11) == 2048
  {
    assert Pow2(5) == 32;
    assert Pow2(10) == 1024;
  }

  /** No double lies strictly between 2^63 - 1024 and 2^63: `math.MaxInt64` is not one of them. */
  lemma NoDoubleJustBelowTwo63(d: Double)
    requires d.Finite? && Representable(d)
    ensures !((TWO_63 - 1024) as real < Value(d) < TWO_63 as real)
  {
    hide Pow2, Scale;
    PowValues();
    if d.exponent >= 11 {
      var k := ValueIsMultiple(d, 11);
    } else {
      ScaleBelow(d.exponent, 10);
      Products(d.significand, Scale(d.exponent), 1024.0);
      assert (TWO_53 - 1) as real * 1024.0 == (TWO_63 - 1024) as real;
    }
  }

  lemma WholeRoundsToItself(x: real, k: int)
    requires x == k as real
    ensures Round(x) == k
  {
  }

  /** From 2^53 on doubles are integers, so rounding does nothing to them. */
  lemma LargeDoublesAreIntegers(d: Double)
    requires d.Finite? && Representable(d)
    requires Value(d) >= TWO_53 as real || Value(d) <= -(TWO_53 as real)
    ensures Round(Value(d)) as real == Value(d)
  {
    PowValues();
    if d.exponent >= 0 {
      var k := ValueIsMultiple(d, 0);
      WholeRoundsToItself(Value(d), k * Pow2(0));
    } else {
      ScaleBelow(d.exponent, 0);
      Products(d.significand, Scale(d.exponent), 1.0);
    }
  }

  // ---------------------------------------------------------------- int64FromFloat

  /** Accepted exactly when the nearest integer, ties away, is an int64; then it is that integer, it is
      within one half of the input, and it never overflows. */
  lemma AcceptsIffNearestFits(d: Double, n: int)
    requires d.Finite? && NearestTiesAway(Value(d), n)
    ensures Int64FromFloat(d) == if -TWO_63 <= n < TWO_63 then Some(n) else None
  {
    RoundIsNearest(Value(d), n);
  }

  /** The check against the rounded value, said of the double itself: the accepted range is closed, and
      its upper end, 1024 below 2^63, is the largest result there is. */
  lemma AcceptedDoubles(d: Double)
    requires Representable(d)
    ensures Int64FromFloat(d).Some? <==> d.Finite? && -(TWO_63 as real) <= Value(d) <= (TWO_63 - 1024) as real
    ensures Int64FromFloat(d).Some? ==> -TWO_63 <= Int64FromFloat(d).value <= TWO_63 - 1024
  {
    if d.Finite? {
      NoDoubleJustBelowTwo63(d);
      if Value(d) >= TWO_53 as real || Value(d) <= -(TWO_53 as real) {
        LargeDoublesAreIntegers(d);
      }
    }
  }

  lemma Monotone(a: Double, b: Double)
    requires Int64FromFloat(a).Some? && Int64FromFloat(b).Some? && Value(a) <= Value(b)
    ensures Int64FromFloat(a).value <= Int64FromFloat(b).value
  {
    RoundIsMonotone(Value(a), Value(b));
  }

  /** Why the bound is 2^63 with `>=`: `math.MaxInt64` rounds up to the double 2^63, and a comparison
      `rounded > float64(math.MaxInt64)` would let that double through to an overflowing conversion. */
  lemma ConvertedMaxInt64WouldOverflow()
    ensures var d := Finite(1, 63);
            Representable(d) && Round(Value(d)) == TWO_63 && !(Round(Value(d)) > TWO_63) && Int64FromFloat(d).None?
  {
    TwoToThe63();
  }

  lemma TwoToThe63()
    ensures Pow2(63) == TWO_63
  {
    assert Pow2(4) == 16;
    PowSplits(4, 4);
    PowSplits(8, 8);
    PowSplits(16, 16);
    PowSplits(32, 31);
    assert Pow2(32) == 2 * Pow2(31);
  }
}
