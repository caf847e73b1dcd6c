/** Arithmetic helpers over `real`: sums and means that skip missing values
    the way pandas reductions do, clipping, truncation and minima. */
module Numbers {
  import opened Wrappers

  /** Sum of a sequence, accumulated from the back. */
  function Sum(xs: seq<real>): real
  {
    if |xs| == 0 then 0.0 else Sum(xs[..|xs| - 1]) + xs[|xs| - 1]
  }

  /** Arithmetic mean; missing (NaN) for an empty sequence. */
  function Mean(xs: seq<real>): (r: Option<real>)
    ensures r.None? <==> |xs| == 0
    ensures r.Some? ==> r.value * (|xs| as real) == Sum(xs)
    ensures IsMeanOf(r, xs)
  {
    if |xs| == 0 then None else Some(Sum(xs) / (|xs| as real))
  }

  /** `m` is the arithmetic mean of `xs`: missing exactly when `xs` is
      empty, and otherwise `m` times the count is the sum. */
  predicate IsMeanOf(m: Option<real>, xs: seq<real>) {
    (m.None? <==> |xs| == 0) && (m.Some? ==> m.value * (|xs| as real) == Sum(xs))
  }

  lemma {:induction false} SumBounds(xs: seq<real>, lo: real, hi: real)
    requires forall i :: 0 <= i < |xs| ==> lo <= xs[i] <= hi
    ensures (|xs| as real) * lo <= Sum(xs) <= (|xs| as real) * hi
  {
    if |xs| > 0 {
      SumBounds(xs[..|xs| - 1], lo, hi);
    }
  }

  /** A mean lies between any lower and upper bound of its values. */
  lemma MeanBounds(xs: seq<real>, lo: real, hi: real)
    requires |xs| > 0
    requires forall i :: 0 <= i < |xs| ==> lo <= xs[i] <= hi
    ensures lo <= Mean(xs).value <= hi
  {
    SumBounds(xs, lo, hi);
    var n := |xs| as real;
    var m := Mean(xs).value;
    assert (m - lo) * n >= 0.0 && (hi - m) * n >= 0.0;
  }

  /** A mean given by its defining property lies within the bounds of its values. */
  lemma MeanOfWithin(m: Option<real>, xs: seq<real>, lo: real, hi: real)
    requires IsMeanOf(m, xs) && m.Some?
    requires forall i :: 0 <= i < |xs| ==> lo <= xs[i] <= hi
    ensures lo <= m.value <= hi
  {
    MeanBounds(xs, lo, hi);
    SameProduct(m.value, Mean(xs).value, |xs| as real);
  }

  /** Two reals with equal products by a positive factor are equal. */
  lemma SameProduct(a: real, b: real, n: real)
    requires n > 0.0 && a * n == b * n
    ensures a == b
  {
    assert (a - b) * n == 0.0;
  }

  /** The present values of a column, in order (pandas `dropna`). */
  function Present(xs: seq<Option<real>>): (r: seq<real>)
    ensures |r| <= |xs|
    ensures forall x :: x in r <==> Some(x) in xs
  {
    if |xs| == 0 then []
    else
      var rest := Present(xs[1..]);
      assert forall x :: Some(x) in xs <==> Some(x) == xs[0] || Some(x) in xs[1..];
      match xs[0]
      case Some(v) => [v] + rest
      case None => rest
  }

  /** The first present value (pandas `first` aggregation, which skips NaN). */
  function FirstPresent<T>(xs: seq<Option<T>>): (r: Option<T>)
    ensures r.None? <==> forall i :: 0 <= i < |xs| ==> xs[i].None?
    ensures r.Some? ==> exists i :: 0 <= i < |xs| && xs[i] == r && forall j :: 0 <= j < i ==> xs[j].None?
  {
    if |xs| == 0 then None
    else if xs[0].Some? then xs[0]
    else
      var r := FirstPresent(xs[1..]);
      assert forall i :: 1 <= i < |xs| ==> xs[i] == xs[1..][i - 1];
      r
  }

  /** Mean of the present values, missing when none is present (pandas `mean`). */
  function MeanPresent(xs: seq<Option<real>>): Option<real>
  {
    Mean(Present(xs))
  }

  /** pandas `clip(lo, hi)`. */
  function Clamp(x: real, lo: real, hi: real): (r: real)
    requires lo <= hi
    ensures lo <= r <= hi
    ensures lo <= x <= hi ==> r == x
    ensures x < lo ==> r == lo
    ensures x > hi ==> r == hi
  {
    if x < lo then lo else if x > hi then hi else x
  }

  /** Conversion of a float to an integer (`int(x)`, `astype(int)`): rounds toward zero. */
  function Trunc(x: real): (r: int)
    ensures x >= 0.0 ==> r as real <= x < r as real + 1.0
    ensures x < 0.0 ==> r as real - 1.0 < x <= r as real
  {
    if x >= 0.0 then x.Floor else -((-x).Floor)
  }

  /** Smallest element of a non-empty sequence. */
  function MinOf(xs: seq<real>): (r: real)
    requires |xs| > 0
    ensures r in xs
    ensures forall i :: 0 <= i < |xs| ==> r <= xs[i]
  {
    if |xs| == 1 then xs[0]
    else
      var m := MinOf(xs[1..]);
      assert forall i :: 1 <= i < |xs| ==> xs[i] == xs[1..][i - 1];
      if xs[0] <= m then xs[0] else m
  }
}
