/**
 * Rounding of monetary and percentage values. `Math.round(n * 100) / 100`
 * and `Math.round(n * 10) / 10` are modelled on real numbers: `Math.round`
 * rounds halves toward positive infinity, i.e. it is `floor(x + 1/2)`.
 */
module Money {

  /** `Math.round(x * scale) / scale`. */
  function RoundTo(x: real, scale: real): real
    requires scale > 0.0
  {
    (x * scale + 0.5).Floor as real / scale
  }

  /**
   * The two-decimal rounding `round` of the statistics service: a whole
   * number of cents, in the half-open half-cent interval around `x`.
   * `Round2Unique` shows that these two facts determine the result.
   */
  function Round2(x: real): (r: real)
    ensures (r * 100.0).Floor as real == r * 100.0
    ensures x - 0.005 < r <= x + 0.005
  {
    RoundError(x, 100.0);
    RoundGrid(x, 100.0);
    RoundTo(x, 100.0)
  }

  /** The one-decimal rounding used for period-over-period changes: a whole number of tenths. */
  function Round1(x: real): (r: real)
    ensures (r * 10.0).Floor as real == r * 10.0
    ensures x - 0.05 < r <= x + 0.05
  {
    RoundError(x, 10.0);
    RoundGrid(x, 10.0);
    RoundTo(x, 10.0)
  }

  /** A whole number of cents within `(x - 0.005, x + 0.005]` can only be `Round2(x)`. */
  lemma Round2Unique(x: real, r: real)
    requires (r * 100.0).Floor as real == r * 100.0
    requires x - 0.005 < r <= x + 0.005
    ensures r == Round2(x)
  {
    var a, b := (r * 100.0).Floor, (Round2(x) * 100.0).Floor;
    assert x * 100.0 - 0.5 < a as real <= x * 100.0 + 0.5;
    assert x * 100.0 - 0.5 < b as real <= x * 100.0 + 0.5;
    assert a == b;
  }

  /** A whole number of tenths within `(x - 0.05, x + 0.05]` can only be `Round1(x)`. */
  lemma Round1Unique(x: real, r: real)
    requires (r * 10.0).Floor as real == r * 10.0
    requires x - 0.05 < r <= x + 0.05
    ensures r == Round1(x)
  {
    var a, b := (r * 10.0).Floor, (Round1(x) * 10.0).Floor;
    assert x * 10.0 - 0.5 < a as real <= x * 10.0 + 0.5;
    assert x * 10.0 - 0.5 < b as real <= x * 10.0 + 0.5;
    assert a == b;
  }

  /** The definition of `RoundTo`, for arguments the solver does not unfold on its own. */
  lemma RoundToUnfold(x: real, scale: real)
    requires scale > 0.0
    ensures RoundTo(x, scale) == (x * scale + 0.5).Floor as real / scale
  {
  }

  /** Multiplying a quotient by its divisor gives back the dividend. */
  lemma DivTimesBack(t: real, n: real)
    requires n > 0.0
    ensures (t / n) * n == t
  {
    assert t / n * n == t * (n / n);
  }

  /** Dividing by a positive number keeps order. */
  lemma DivMonotone(a: real, b: real, s: real)
    requires s > 0.0 && a <= b
    ensures a / s <= b / s
  {
    assert b / s - a / s == (b - a) / s;
  }

  /** A total between `n` times two bounds has a mean between those bounds. */
  lemma MeanBetween(n: real, lo: real, hi: real, total: real)
    requires n > 0.0 && n * lo <= total <= n * hi
    ensures lo <= total / n
    ensures total / n <= hi
  {
    DivMonotone(n * lo, total, n);
    DivMonotone(total, n * hi, n);
    assert (n * lo) / n == lo && (n * hi) / n == hi;
  }

  /** Rounding moves a value by at most half a unit of the last kept digit. */
  lemma RoundError(x: real, scale: real)
    requires scale > 0.0
    ensures x - 0.5 / scale < RoundTo(x, scale) <= x + 0.5 / scale
  {
    var f := (x * scale + 0.5).Floor;
    assert x * scale - 0.5 < f as real <= x * scale + 0.5;
    DivMonotone(f as real, x * scale + 0.5, scale);
    assert (f as real - (x * scale - 0.5)) / scale > 0.0;
    assert (x * scale - 0.5) / scale == x - 0.5 / scale;
    assert (x * scale + 0.5) / scale == x + 0.5 / scale;
  }

  /** A rounded value is a whole number of units of its last kept digit. */
  lemma RoundGrid(x: real, scale: real)
    requires scale > 0.0
    ensures (RoundTo(x, scale) * scale).Floor as real == RoundTo(x, scale) * scale
  {
    var f := (x * scale + 0.5).Floor;
    RoundToUnfold(x, scale);
    assert RoundTo(x, scale) * scale == f as real;
  }

  /** Rounding never reverses the order of two values. */
  lemma RoundMonotone(x: real, y: real, scale: real)
    requires scale > 0.0 && x <= y
    ensures RoundTo(x, scale) <= RoundTo(y, scale)
  {
    assert y * scale - x * scale == (y - x) * scale;
    var a, b := x * scale + 0.5, y * scale + 0.5;
    assert a <= b;
    assert a.Floor as real <= a && b < b.Floor as real + 1.0;
    assert a.Floor <= b.Floor;
    DivMonotone(a.Floor as real, b.Floor as real, scale);
  }

  /** Zero rounds to zero, so rounding keeps the weak sign of a value. */
  lemma RoundKeepsSign(x: real, scale: real)
    requires scale > 0.0
    ensures RoundTo(0.0, scale) == 0.0
    ensures x >= 0.0 ==> RoundTo(x, scale) >= 0.0
    ensures x <= 0.0 ==> RoundTo(x, scale) <= 0.0
  {
    RoundToUnfold(0.0, scale);
    if x >= 0.0 {
      RoundMonotone(0.0, x, scale);
    } else {
      RoundMonotone(x, 0.0, scale);
    }
  }

  /** Rounding an already rounded value changes nothing. */
  lemma RoundIdempotent(x: real, scale: real)
    requires scale > 0.0
    ensures RoundTo(RoundTo(x, scale), scale) == RoundTo(x, scale)
  {
    var f := (x * scale + 0.5).Floor;
    var r := f as real / scale;
    assert r * scale == f as real;
    assert (r * scale + 0.5).Floor == f;
    RoundToUnfold(r, scale);
  }
}
