/** Sums of a weight over a sequence: every count and every termination measure below is one of these. */
module Sums {

  ghost function Sum<T>(xs: seq<T>, weight: T -> nat): nat {
    if xs == [] then 0 else weight(xs[0]) + Sum(xs[1..], weight)
  }

  /** Replacing one element exchanges its weight and leaves the rest of the sum alone. */
  lemma {:induction false} SumUpdate<T>(xs: seq<T>, i: nat, x: T, weight: T -> nat)
    requires i < |xs|
    ensures Sum(xs[i := x], weight) + weight(xs[i]) == Sum(xs, weight) + weight(x)
  {
    if i == 0 {
      assert xs[i := x][1..] == xs[1..];
    } else {
      assert xs[i := x][1..] == xs[1..][i - 1 := x];
      SumUpdate(xs[1..], i - 1, x, weight);
    }
  }

  /** The sum is monotone in its elements, and strictly so if one of them grows. */
  lemma {:induction false} SumMonotone<T>(xs: seq<T>, ys: seq<T>, weight: T -> nat)
    requires |xs| == |ys|
    requires forall i | 0 <= i < |xs| :: weight(xs[i]) <= weight(ys[i])
    ensures Sum(xs, weight) <= Sum(ys, weight)
    ensures (exists i | 0 <= i < |xs| :: weight(xs[i]) < weight(ys[i])) ==> Sum(xs, weight) < Sum(ys, weight)
  {
    if xs != [] {
      SumMonotone(xs[1..], ys[1..], weight);
      if i :| 0 <= i < |xs| && weight(xs[i]) < weight(ys[i]) && i > 0 {
        assert weight(xs[1..][i - 1]) < weight(ys[1..][i - 1]);
      }
    }
  }

  /** A weight that is nowhere larger has no larger sum, and a smaller one if it is smaller somewhere. */
  lemma {:induction false} SumDominated<T>(xs: seq<T>, low: T -> nat, high: T -> nat)
    requires forall i | 0 <= i < |xs| :: low(xs[i]) <= high(xs[i])
    ensures Sum(xs, low) <= Sum(xs, high)
    ensures (exists i | 0 <= i < |xs| :: low(xs[i]) < high(xs[i])) ==> Sum(xs, low) < Sum(xs, high)
  {
    if xs != [] {
      SumDominated(xs[1..], low, high);
      if i :| 0 <= i < |xs| && low(xs[i]) < high(xs[i]) && i > 0 {
        assert low(xs[1..][i - 1]) < high(xs[1..][i - 1]);
      }
    }
  }

  /** A sum bounds each of its terms. */
  lemma {:induction false} SumAtLeast<T>(xs: seq<T>, i: nat, weight: T -> nat)
    requires i < |xs|
    ensures weight(xs[i]) <= Sum(xs, weight)
  {
    if i > 0 {
      SumAtLeast(xs[1..], i - 1, weight);
    }
  }

  /** A sum of equal weights is a product. */
  lemma {:induction false} SumConstant<T>(xs: seq<T>, weight: T -> nat, w: nat)
    requires forall i | 0 <= i < |xs| :: weight(xs[i]) == w
    ensures Sum(xs, weight) == w * |xs|
  {
    if xs != [] {
      SumConstant(xs[1..], weight, w);
    }
  }
}
