/**
 * The interval statistics behind the jitter-based uncertainty: the
 * consecutive differences of tick instants, their mean and population
 * variance (as `statistics.mean` and `statistics.pstdev` compute them, with
 * the square root left to the caller), and the uncertainty formula.
 */
module Statistics {

  function Id(x: real): real { x }

  /**
   * x squared. The second factor goes through `Id` so that the solver keeps a
   * product of two terms, which its arithmetic handles, instead of turning it
   * into a power, which it does not.
   */
  function Square(x: real): real { x * Id(x) }

  /** A square is non-negative, and zero only at zero. */
  lemma SquareSign(x: real)
    ensures Square(x) >= 0.0
    ensures Square(x) == 0.0 <==> x == 0.0
  {
  }

  /** Sum of the values, added in list order. */
  function Sum(xs: seq<real>): real
  {
    if xs == [] then 0.0 else Sum(xs[..|xs| - 1]) + xs[|xs| - 1]
  }

  /** Arithmetic mean; Python raises on an empty list, so it is not defined there. */
  function Mean(xs: seq<real>): real
    requires |xs| > 0
  {
    Sum(xs) / |xs| as real
  }

  /** Sum of squared deviations from `m`. */
  function SquaredDeviations(xs: seq<real>, m: real): real
  {
    if xs == [] then 0.0
    else SquaredDeviations(xs[..|xs| - 1], m) + Square(xs[|xs| - 1] - m)
  }

  /** Population variance: mean squared deviation from the mean. */
  function PopVariance(xs: seq<real>): real
    requires |xs| > 0
  {
    SquaredDeviations(xs, Mean(xs)) / |xs| as real
  }

  /** `sd` is what `statistics.pstdev(xs)` returns: the non-negative square root of the variance. */
  predicate IsPopStdDev(sd: real, xs: seq<real>)
    requires |xs| > 0
  {
    sd >= 0.0 && Square(sd) == PopVariance(xs)
  }

  predicate AllEqual(xs: seq<real>)
  {
    forall i :: 0 <= i < |xs| ==> xs[i] == xs[0]
  }

  predicate NonNegative(xs: seq<real>)
  {
    forall i :: 0 <= i < |xs| ==> xs[i] >= 0.0
  }

  /** Consecutive differences of a list of instants: one fewer than the instants. */
  function Intervals(instants: seq<real>): (r: seq<real>)
    ensures |r| == if instants == [] then 0 else |instants| - 1
  {
    if |instants| <= 1 then []
    else Intervals(instants[..|instants| - 1]) + [instants[|instants| - 1] - instants[|instants| - 2]]
  }

  /**
   * The current implied by the mean interval minus the current implied by an
   * interval one standard deviation longer.
   */
  function Uncertainty(charge: real, mean: real, sd: real): real
    requires mean > 0.0 && sd >= 0.0
  {
    charge / mean - charge / (mean + sd)
  }

  /** Dividing and multiplying back by a non-zero duration gives the amount back. */
  lemma QuotientTimesDivisor(amount: real, duration: real)
    requires duration != 0.0
    ensures amount / duration * duration == amount
  {
  }

  /** A sum of non-negative values is non-negative, and zero only when every value is. */
  lemma {:induction false} SumOfNonNegative(xs: seq<real>)
    requires NonNegative(xs)
    ensures Sum(xs) >= 0.0
    ensures Sum(xs) == 0.0 ==> forall i :: 0 <= i < |xs| ==> xs[i] == 0.0
  {
    if xs != [] {
      var init := xs[..|xs| - 1];
      assert NonNegative(init) by {
        forall i | 0 <= i < |init| ensures init[i] >= 0.0 { assert init[i] == xs[i]; }
      }
      SumOfNonNegative(init);
      if Sum(xs) == 0.0 {
        forall i | 0 <= i < |xs| ensures xs[i] == 0.0 {
          if i < |init| { assert xs[i] == init[i]; }
        }
      }
    }
  }

  /** The squared deviations vanish exactly when every value equals the centre. */
  lemma {:induction false} SquaredDeviationsZero(xs: seq<real>, m: real)
    ensures SquaredDeviations(xs, m) >= 0.0
    ensures SquaredDeviations(xs, m) == 0.0 <==> forall i :: 0 <= i < |xs| ==> xs[i] == m
  {
    if xs != [] {
      var init := xs[..|xs| - 1];
      SquaredDeviationsZero(init, m);
      SquareSign(xs[|xs| - 1] - m);
      assert forall i :: 0 <= i < |init| ==> xs[i] == init[i];
      if SquaredDeviations(xs, m) == 0.0 {
        forall i | 0 <= i < |xs| ensures xs[i] == m {
          if i < |init| { assert xs[i] == init[i]; }
        }
      }
    }
  }

  /** A list of equal values sums to that value times its length. */
  lemma {:induction false} SumOfEqual(xs: seq<real>, c: real)
    requires forall i :: 0 <= i < |xs| ==> xs[i] == c
    ensures Sum(xs) == |xs| as real * c
  {
    if xs != [] {
      var init := xs[..|xs| - 1];
      assert forall i :: 0 <= i < |init| ==> init[i] == xs[i];
      SumOfEqual(init, c);
      assert |xs| as real * c == |init| as real * c + c;
    }
  }

  /** The population variance is zero exactly when all values are equal. */
  lemma VarianceZeroIffAllEqual(xs: seq<real>)
    requires |xs| > 0
    ensures PopVariance(xs) >= 0.0
    ensures PopVariance(xs) == 0.0 <==> AllEqual(xs)
  {
    var n := |xs| as real;
    SquaredDeviationsZero(xs, Mean(xs));
    if AllEqual(xs) {
      SumOfEqual(xs, xs[0]);
      assert Mean(xs) == xs[0];
    }
    if PopVariance(xs) == 0.0 {
      assert SquaredDeviations(xs, Mean(xs)) == PopVariance(xs) * n;
    }
  }

  /** The standard deviation is zero exactly when all values are equal. */
  lemma StdDevZeroIffAllEqual(sd: real, xs: seq<real>)
    requires |xs| > 0 && IsPopStdDev(sd, xs)
    ensures sd == 0.0 <==> AllEqual(xs)
  {
    VarianceZeroIffAllEqual(xs);
    SquareSign(sd);
  }

  /** Non-negative values that are not all equal have a positive mean. */
  lemma MeanPositive(xs: seq<real>)
    requires |xs| > 0 && NonNegative(xs) && !AllEqual(xs)
    ensures Mean(xs) > 0.0
  {
    SumOfNonNegative(xs);
    if Sum(xs) == 0.0 {
      assert AllEqual(xs);
    }
  }

  /** For a positive charge and a nonzero deviation the uncertainty is positive and below the mean current. */
  lemma UncertaintyBounds(charge: real, mean: real, sd: real)
    requires charge > 0.0 && mean > 0.0 && sd > 0.0
    ensures 0.0 < Uncertainty(charge, mean, sd) < charge / mean
  {
    var slow := charge / (mean + sd);
    assert slow * (mean + sd) == charge;
    assert slow > 0.0;
    assert charge / mean * mean == charge;
    assert slow * mean < charge;
  }

  /** Appending an instant appends its distance from the previous one. */
  lemma {:induction false} IntervalsAppend(instants: seq<real>, t: real)
    requires instants != []
    ensures Intervals(instants + [t]) == Intervals(instants) + [t - instants[|instants| - 1]]
  {
    var extended := instants + [t];
    assert extended[..|extended| - 1] == instants;
    assert extended[|extended| - 1] == t;
    assert extended[|extended| - 2] == instants[|instants| - 1];
  }

  /** Appending a non-negative value keeps a list non-negative. */
  lemma NonNegativeAppend(xs: seq<real>, x: real)
    requires NonNegative(xs) && x >= 0.0
    ensures NonNegative(xs + [x])
  {
    var ys := xs + [x];
    forall i | 0 <= i < |ys| ensures ys[i] >= 0.0 {
      if i < |xs| { assert ys[i] == xs[i]; }
    }
  }

  /** A suffix of a non-negative list is non-negative. */
  lemma NonNegativeSuffix(xs: seq<real>, k: nat)
    requires NonNegative(xs) && k <= |xs|
    ensures NonNegative(xs[k..])
  {
    var ys := xs[k..];
    forall i | 0 <= i < |ys| ensures ys[i] >= 0.0 {
      assert ys[i] == xs[k + i];
    }
  }

  /**
   * Non-negative intervals with a non-zero population standard deviation
   * have a positive mean, so the uncertainty formula never divides by zero.
   */
  lemma JitterMeanPositive(sd: real, xs: seq<real>)
    requires |xs| > 0 && NonNegative(xs) && IsPopStdDev(sd, xs) && sd != 0.0
    ensures sd > 0.0 && Mean(xs) > 0.0
  {
    StdDevZeroIffAllEqual(sd, xs);
    MeanPositive(xs);
  }
}
