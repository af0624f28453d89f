/** Python's `sum`, `min` and `max` over a list of numbers, and the mean
    the reports compute as `sum(xs) / len(xs) if xs else 0.0`. */
module Aggregates {

  /** `sum(xs)` */
  function SumReal(xs: seq<real>): real {
    if xs == [] then 0.0 else SumReal(xs[..|xs| - 1]) + xs[|xs| - 1]
  }

  /** `max(xs)` */
  function MaxReal(xs: seq<real>): real
    requires xs != []
  {
    if |xs| == 1 then xs[0]
    else
      var m := MaxReal(xs[..|xs| - 1]);
      if xs[|xs| - 1] > m then xs[|xs| - 1] else m
  }

  /** `min(xs)` */
  function MinReal(xs: seq<real>): real
    requires xs != []
  {
    if |xs| == 1 then xs[0]
    else
      var m := MinReal(xs[..|xs| - 1]);
      if xs[|xs| - 1] < m then xs[|xs| - 1] else m
  }

  /** `sum(xs) / len(xs) if xs else 0.0` */
  function Mean(xs: seq<real>): real {
    if |xs| > 0 then SumReal(xs) / |xs| as real else 0.0
  }

  lemma {:induction false} MaxRealIsMax(xs: seq<real>)
    requires xs != []
    ensures MaxReal(xs) in xs
    ensures forall x :: x in xs ==> x <= MaxReal(xs)
  {
    if |xs| > 1 {
      MaxRealIsMax(xs[..|xs| - 1]);
      assert xs == xs[..|xs| - 1] + [xs[|xs| - 1]];
    }
  }

  lemma {:induction false} MinRealIsMin(xs: seq<real>)
    requires xs != []
    ensures MinReal(xs) in xs
    ensures forall x :: x in xs ==> MinReal(xs) <= x
  {
    if |xs| > 1 {
      MinRealIsMin(xs[..|xs| - 1]);
      assert xs == xs[..|xs| - 1] + [xs[|xs| - 1]];
    }
  }

  /** A sum of `n` numbers between `lo` and `hi` lies between `n * lo` and
      `n * hi`. */
  lemma {:induction false} SumBounds(xs: seq<real>, lo: real, hi: real)
    requires forall x :: x in xs ==> lo <= x <= hi
    ensures |xs| as real * lo <= SumReal(xs) <= |xs| as real * hi
  {
    if xs != [] {
      var init := xs[..|xs| - 1];
      assert forall x :: x in init ==> x in xs;
      SumBounds(init, lo, hi);
      assert xs[|xs| - 1] in xs;
      assert |xs| as real * lo == |init| as real * lo + lo;
      assert |xs| as real * hi == |init| as real * hi + hi;
    }
  }

  /** The mean of a non-empty list lies between its least and its greatest
      element. */
  lemma MeanBetweenMinAndMax(xs: seq<real>)
    requires xs != []
    ensures MinReal(xs) <= Mean(xs) <= MaxReal(xs)
  {
    MinRealIsMin(xs);
    MaxRealIsMax(xs);
    var n, lo, hi := |xs| as real, MinReal(xs), MaxReal(xs);
    SumBounds(xs, lo, hi);
    DivideBetween(SumReal(xs), n, lo, hi);
  }

  lemma DivideBetween(s: real, n: real, lo: real, hi: real)
    requires n > 0.0 && n * lo <= s <= n * hi
    ensures lo <= s / n <= hi
  {
    assert s / n - lo == (s - n * lo) / n;
    assert hi - s / n == (n * hi - s) / n;
  }
}
