/** Min-max rescaling of a population of values to [0,1], shared by the
    ratio, fantasy-point and team-score normalisations. */
module MinMax {

  /** Python's `min` over a non-empty list. */
  function MinOf(xs: seq<real>): real
    requires |xs| > 0
  {
    if |xs| == 1 then xs[0]
    else
      var rest := MinOf(xs[1..]);
      if xs[0] <= rest then xs[0] else rest
  }

  /** Python's `max` over a non-empty list. */
  function MaxOf(xs: seq<real>): real
    requires |xs| > 0
  {
    if |xs| == 1 then xs[0]
    else
      var rest := MaxOf(xs[1..]);
      if xs[0] >= rest then xs[0] else rest
  }

  /** The minimum is a member of the population and no member is below it. */
  lemma {:induction false} MinOfIsLeast(xs: seq<real>)
    requires |xs| > 0
    ensures MinOf(xs) in xs
    ensures forall i :: 0 <= i < |xs| ==> MinOf(xs) <= xs[i]
  {
    if |xs| > 1 {
      MinOfIsLeast(xs[1..]);
      assert forall i :: 1 <= i < |xs| ==> xs[i] == xs[1..][i - 1];
    }
  }

  /** The maximum is a member of the population and no member is above it. */
  lemma {:induction false} MaxOfIsGreatest(xs: seq<real>)
    requires |xs| > 0
    ensures MaxOf(xs) in xs
    ensures forall i :: 0 <= i < |xs| ==> xs[i] <= MaxOf(xs)
  {
    if |xs| > 1 {
      MaxOfIsGreatest(xs[1..]);
      assert forall i :: 1 <= i < |xs| ==> xs[i] == xs[1..][i - 1];
    }
  }

  /** `(v - lo) / (hi - lo) if hi > lo else 0`. */
  function Scale(v: real, lo: real, hi: real): real
  {
    if hi > lo then (v - lo) / (hi - lo) else 0.0
  }

  /** A value of the population, rescaled by the population bounds. */
  function Rescale(v: real, xs: seq<real>): real
    requires |xs| > 0
  {
    Scale(v, MinOf(xs), MaxOf(xs))
  }

  /** All values of the population are equal. */
  predicate AllEqual(xs: seq<real>)
  {
    forall i, j :: 0 <= i < |xs| && 0 <= j < |xs| ==> xs[i] == xs[j]
  }

  /** Every member of the population rescales into [0,1]. */
  lemma RescaleInUnit(v: real, xs: seq<real>)
    requires v in xs
    ensures 0.0 <= Rescale(v, xs) <= 1.0
  {
    MinOfIsLeast(xs);
    MaxOfIsGreatest(xs);
    var lo, hi := MinOf(xs), MaxOf(xs);
    if hi > lo {
      assert lo <= v <= hi;
      assert v - lo <= hi - lo;
      DivAtMostOne(v - lo, hi - lo);
    }
  }

  lemma DivAtMostOne(a: real, b: real)
    requires 0.0 <= a <= b && b > 0.0
    ensures 0.0 <= a / b <= 1.0
  {
    assert a / b * b == a;
  }

  /** The population minimum always rescales to 0. */
  lemma RescaleAtMin(xs: seq<real>)
    requires |xs| > 0
    ensures Rescale(MinOf(xs), xs) == 0.0
  {
  }

  /** The population maximum rescales to 1 exactly when the population is not degenerate. */
  lemma RescaleAtMax(xs: seq<real>)
    requires |xs| > 0
    ensures Rescale(MaxOf(xs), xs) == 1.0 <==> !AllEqual(xs)
  {
    DegenerateIffAllEqual(xs);
    MinOfIsLeast(xs);
    MaxOfIsGreatest(xs);
    var lo, hi := MinOf(xs), MaxOf(xs);
    assert lo <= xs[0] <= hi;
    if hi > lo {
      DivSelf(hi - lo);
      assert Rescale(MaxOf(xs), xs) == 1.0;
    } else {
      assert Rescale(MaxOf(xs), xs) == 0.0;
    }
  }

  lemma DivSelf(d: real)
    requires d > 0.0
    ensures d / d == 1.0
  {
  }

  /** The bounds coincide exactly when every value is the same. */
  lemma DegenerateIffAllEqual(xs: seq<real>)
    requires |xs| > 0
    ensures MaxOf(xs) == MinOf(xs) <==> AllEqual(xs)
  {
    MinOfIsLeast(xs);
    MaxOfIsGreatest(xs);
    if MaxOf(xs) == MinOf(xs) {
      forall i, j | 0 <= i < |xs| && 0 <= j < |xs| ensures xs[i] == xs[j] {
        assert MinOf(xs) <= xs[i] <= MaxOf(xs);
        assert MinOf(xs) <= xs[j] <= MaxOf(xs);
      }
    }
    if AllEqual(xs) {
      var i :| 0 <= i < |xs| && xs[i] == MinOf(xs);
      var j :| 0 <= j < |xs| && xs[j] == MaxOf(xs);
      assert xs[i] == xs[j];
    }
  }

  /** A degenerate population rescales to 0 everywhere. */
  lemma RescaleDegenerate(v: real, xs: seq<real>)
    requires |xs| > 0 && AllEqual(xs)
    ensures Rescale(v, xs) == 0.0
  {
    DegenerateIffAllEqual(xs);
  }

  /** Rescaling by a non-degenerate population is strictly increasing. */
  lemma RescaleMonotone(v: real, w: real, xs: seq<real>)
    requires |xs| > 0 && !AllEqual(xs) && v < w
    ensures Rescale(v, xs) < Rescale(w, xs)
  {
    DegenerateIffAllEqual(xs);
    MinOfIsLeast(xs);
    MaxOfIsGreatest(xs);
    var lo, hi := MinOf(xs), MaxOf(xs);
    assert hi > lo;
    DivStrict(v - lo, w - lo, hi - lo);
  }

  lemma DivStrict(a: real, b: real, c: real)
    requires a < b && c > 0.0
    ensures a / c < b / c
  {
    assert b / c - a / c == (b - a) / c;
  }
}
