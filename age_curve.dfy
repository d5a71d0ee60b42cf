/** The age curve: a quadratic multiplier that peaks at a configured age and is
    clipped to a band, so that extreme ages neither zero out nor inflate a rating. */
module AgeCurve {

  /** NumPy's `clip(f, lo, hi)`, that is `minimum(maximum(f, lo), hi)`. */
  function Clip(f: real, lo: real, hi: real): real
  {
    var raised := if f < lo then lo else f;
    if raised > hi then hi else raised
  }

  /** `1 - alpha * (age - peak)**2`, clipped to [minf, maxf]. */
  function Curve(age: int, peak: int, alpha: real, minf: real, maxf: real): real
  {
    var d := (age - peak) as real;
    Clip(1.0 - alpha * (d * d), minf, maxf)
  }

  const PEAK: int := 30
  const ALPHA: real := 0.0025
  const MIN_FACTOR: real := 0.8
  const MAX_FACTOR: real := 1.2

  /** The age factor with the default parameters (peak 30, alpha 0.0025, band [0.8, 1.2]). */
  function AgeRatio(age: int): real
  {
    Curve(age, PEAK, ALPHA, MIN_FACTOR, MAX_FACTOR)
  }

  /** With an ordered band, the clipped value always lies inside the band. */
  lemma CurveInBand(age: int, peak: int, alpha: real, minf: real, maxf: real)
    requires minf <= maxf
    ensures minf <= Curve(age, peak, alpha, minf, maxf) <= maxf
  {
  }

  /** The curve is symmetric about its peak, whatever the parameters. */
  lemma CurveSymmetric(k: int, peak: int, alpha: real, minf: real, maxf: real)
    ensures Curve(peak - k, peak, alpha, minf, maxf) == Curve(peak + k, peak, alpha, minf, maxf)
  {
    var x := k as real;
    assert ((peak - k) - peak) as real == -x;
    assert ((peak + k) - peak) as real == x;
    assert (-x) * (-x) == x * x;
  }

  /** The default factor lies in [0.8, 1.2]; because alpha is positive it never exceeds 1.0. */
  lemma AgeRatioBounds(age: int)
    ensures MIN_FACTOR <= AgeRatio(age) <= 1.0 <= MAX_FACTOR
  {
    var d := (age - PEAK) as real;
    SquareNonNegative(d);
    assert ALPHA * (d * d) >= 0.0;
  }

  lemma SquareNonNegative(d: real)
    ensures d * d >= 0.0
  {
    if d < 0.0 {
      assert d * d == (-d) * (-d);
    }
  }

  /** At the peak age the factor is exactly 1.0. */
  lemma AgeRatioAtPeak()
    ensures AgeRatio(PEAK) == 1.0
  {
    assert (PEAK - PEAK) as real == 0.0;
  }

  /** Ages 30 - k and 30 + k get the same factor. */
  lemma AgeRatioSymmetric(k: int)
    ensures AgeRatio(PEAK - k) == AgeRatio(PEAK + k)
  {
    CurveSymmetric(k, PEAK, ALPHA, MIN_FACTOR, MAX_FACTOR);
  }

  /** The upper clamp never binds: the factor is the quadratic raised to the floor 0.8. */
  lemma AgeRatioUpperClampInactive(age: int)
    ensures var d := (age - PEAK) as real;
            var f := 1.0 - ALPHA * (d * d);
            AgeRatio(age) == (if f < MIN_FACTOR then MIN_FACTOR else f)
  {
    var d := (age - PEAK) as real;
    SquareNonNegative(d);
    assert 1.0 - ALPHA * (d * d) <= 1.0;
  }

  /** The floor 0.8 is reached exactly nine or more years away from the peak. */
  lemma AgeRatioFloor(age: int)
    ensures AgeRatio(age) == MIN_FACTOR <==> (age <= PEAK - 9 || age >= PEAK + 9)
  {
    var d := (age - PEAK) as real;
    if age <= PEAK - 9 || age >= PEAK + 9 {
      SquareAtLeast(d, 9.0);
      assert d * d >= 81.0;
      assert 1.0 - ALPHA * (d * d) < MIN_FACTOR;
    } else {
      assert -8.0 <= d <= 8.0;
      SquareAtMost(d, 8.0);
      assert d * d <= 64.0;
      assert 1.0 - ALPHA * (d * d) > MIN_FACTOR;
    }
  }

  lemma SquareAtLeast(d: real, n: real)
    requires n >= 0.0
    requires d >= n || d <= -n
    ensures d * d >= n * n
  {
    var a := if d >= 0.0 then d else -d;
    assert d * d == a * a;
    assert a >= n;
    assert a * a >= n * a >= n * n;
  }

  lemma SquareAtMost(d: real, n: real)
    requires n >= 0.0
    requires -n <= d <= n
    ensures d * d <= n * n
  {
    var a := if d >= 0.0 then d else -d;
    assert d * d == a * a;
    assert 0.0 <= a <= n;
    assert a * a <= n * a <= n * n;
  }

  /** Moving further from the peak never raises the factor. */
  lemma AgeRatioFallsAwayFromPeak(a: int, b: int)
    requires PEAK <= a <= b || b <= a <= PEAK
    ensures AgeRatio(b) <= AgeRatio(a)
  {
    var da, db := (a - PEAK) as real, (b - PEAK) as real;
    SquareFurther(da, db);
    assert ALPHA * (da * da) <= ALPHA * (db * db);
    ClipMono(1.0 - ALPHA * (db * db), 1.0 - ALPHA * (da * da), MIN_FACTOR, MAX_FACTOR);
  }

  lemma SquareFurther(da: real, db: real)
    requires 0.0 <= da <= db || db <= da <= 0.0
    ensures da * da <= db * db
  {
    var xa := if da >= 0.0 then da else -da;
    var xb := if db >= 0.0 then db else -db;
    assert da * da == xa * xa && db * db == xb * xb;
    assert xa * xa <= xa * xb <= xb * xb;
  }

  lemma ClipMono(f: real, g: real, lo: real, hi: real)
    requires f <= g
    ensures Clip(f, lo, hi) <= Clip(g, lo, hi)
  {
  }
}
