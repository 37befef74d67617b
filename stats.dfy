/** Reductions over numeric columns that skip missing values, as pandas'
    `sum`, `mean`, `max`, `min` and `std` do by default. */
module Stats {
  import opened Wrappers

  /** The values that are present, in their original order (`dropna`). */
  function Present(xs: seq<Option<real>>): (r: seq<real>)
    ensures |r| <= |xs|
    ensures forall v :: v in r <==> Some(v) in xs
    ensures forall v :: multiset(r)[v] == multiset(xs)[Some(v)]
    decreases |xs|
  {
    if xs == [] then []
    else
      var front := xs[..|xs| - 1];
      assert xs == front + [xs[|xs| - 1]];
      assert multiset(xs) == multiset(front) + multiset{xs[|xs| - 1]};
      Present(front) + (match xs[|xs| - 1] case Some(v) => [v] case None => [])
  }

  lemma {:induction false} PresentEmpty(xs: seq<Option<real>>)
    ensures Present(xs) == [] <==> forall i :: 0 <= i < |xs| ==> xs[i].None?
  {
    forall i | 0 <= i < |xs| && xs[i].Some? ensures xs[i].value in Present(xs) {
      assert xs[i] in xs;
    }
    if Present(xs) != [] {
      assert Some(Present(xs)[0]) in xs;
    }
  }

  function Sum(xs: seq<real>): real
    decreases |xs|
  {
    if xs == [] then 0.0 else Sum(xs[..|xs| - 1]) + xs[|xs| - 1]
  }

  function Max(xs: seq<real>): (r: real)
    requires xs != []
    ensures r in xs
    ensures forall i :: 0 <= i < |xs| ==> xs[i] <= r
    decreases |xs|
  {
    if |xs| == 1 then xs[0]
    else
      var m := Max(xs[..|xs| - 1]);
      assert xs == xs[..|xs| - 1] + [xs[|xs| - 1]];
      if xs[|xs| - 1] > m then xs[|xs| - 1] else m
  }

  function Min(xs: seq<real>): (r: real)
    requires xs != []
    ensures r in xs
    ensures forall i :: 0 <= i < |xs| ==> r <= xs[i]
    decreases |xs|
  {
    if |xs| == 1 then xs[0]
    else
      var m := Min(xs[..|xs| - 1]);
      assert xs == xs[..|xs| - 1] + [xs[|xs| - 1]];
      if xs[|xs| - 1] < m then xs[|xs| - 1] else m
  }

  function Mean(xs: seq<real>): real
    requires xs != []
  {
    Sum(xs) / |xs| as real
  }

  /** A sum of values within [lo, hi] lies within [n * lo, n * hi]. */
  lemma {:induction false} SumBounds(xs: seq<real>, lo: real, hi: real)
    requires forall i :: 0 <= i < |xs| ==> lo <= xs[i] <= hi
    ensures |xs| as real * lo <= Sum(xs) <= |xs| as real * hi
    decreases |xs|
  {
    if xs != [] {
      var front := xs[..|xs| - 1];
      SumBounds(front, lo, hi);
      assert |xs| as real * lo == |front| as real * lo + lo;
      assert |xs| as real * hi == |front| as real * hi + hi;
    }
  }

  /** The mean lies between the minimum and the maximum. */
  lemma MeanBetween(xs: seq<real>)
    requires xs != []
    ensures Min(xs) <= Mean(xs) <= Max(xs)
  {
    var n := |xs| as real;
    var lo, hi := Min(xs), Max(xs);
    SumBounds(xs, lo, hi);
    DivideBounds(Sum(xs), n, lo, hi);
  }

  lemma DivideBounds(s: real, n: real, lo: real, hi: real)
    requires n > 0.0 && n * lo <= s <= n * hi
    ensures lo <= s / n <= hi
  {
    assert (s / n) * n == s;
  }

  /** The skip-NaN mean, maximum and minimum of a column; each is missing
      exactly when no value of the column is present. */
  datatype Aggregate = Aggregate(mean: Option<real>, max: Option<real>, min: Option<real>)

  /** The extremes of the present values are present and bound every present value. */
  lemma PresentBounds(xs: seq<Option<real>>)
    requires Present(xs) != []
    ensures Some(Max(Present(xs))) in xs && Some(Min(Present(xs))) in xs
    ensures forall i :: 0 <= i < |xs| && xs[i].Some? ==>
      Min(Present(xs)) <= xs[i].value <= Max(Present(xs))
    ensures Min(Present(xs)) <= Mean(Present(xs)) <= Max(Present(xs))
  {
    var vs := Present(xs);
    MeanBetween(vs);
    forall i | 0 <= i < |xs| && xs[i].Some?
      ensures Min(vs) <= xs[i].value <= Max(vs)
    {
      assert xs[i] in xs;
      var k :| 0 <= k < |vs| && vs[k] == xs[i].value;
    }
  }

  function AggregateOf(xs: seq<Option<real>>): (r: Aggregate)
    ensures r.mean.None? <==> forall i :: 0 <= i < |xs| ==> xs[i].None?
    ensures r.mean.None? <==> r.max.None? && r.min.None?
    ensures r.mean.Some? ==> r.max.Some? && r.min.Some?
    ensures r.max.Some? ==> Some(r.max.value) in xs
    ensures r.max.Some? ==> forall i :: 0 <= i < |xs| && xs[i].Some? ==> xs[i].value <= r.max.value
    ensures r.min.Some? ==> Some(r.min.value) in xs
    ensures r.min.Some? ==> forall i :: 0 <= i < |xs| && xs[i].Some? ==> r.min.value <= xs[i].value
    ensures r.mean.Some? ==> r.min.value <= r.mean.value <= r.max.value
  {
    var vs := Present(xs);
    PresentEmpty(xs);
    if vs == [] then Aggregate(None, None, None)
    else
      PresentBounds(xs);
      Aggregate(Some(Mean(vs)), Some(Max(vs)), Some(Min(vs)))
  }

  /** Values that all lie in [lo, hi) have their minimum and maximum there too. */
  lemma AggregateWithin(xs: seq<Option<real>>, lo: real, hi: real)
    requires forall t :: 0 <= t < |xs| && xs[t].Some? ==> lo <= xs[t].value < hi
    ensures AggregateOf(xs).max.Some? ==> lo <= AggregateOf(xs).min.value <= AggregateOf(xs).max.value < hi
  {
    var a := AggregateOf(xs);
    if a.max.Some? {
      var i :| 0 <= i < |xs| && xs[i] == Some(a.max.value);
      var j :| 0 <= j < |xs| && xs[j] == Some(a.min.value);
    }
  }

  function SumSquaredDeviations(xs: seq<real>, m: real): (r: real)
    ensures r >= 0.0
    decreases |xs|
  {
    if xs == [] then 0.0
    else
      var d := xs[|xs| - 1] - m;
      assert d * d >= 0.0 by {
        if d < 0.0 {
          assert d * d == (-d) * (-d);
        }
      }
      SumSquaredDeviations(xs[..|xs| - 1], m) + d * d
  }

  /** The sample variance (divisor n - 1), the square of pandas' default
      `std`; undefined below two values. */
  function SampleVariance(xs: seq<real>): (r: Option<real>)
    ensures r.Some? <==> |xs| >= 2
    ensures r.Some? ==> r.value >= 0.0
  {
    if |xs| < 2 then None
    else Some(SumSquaredDeviations(xs, Mean(xs)) / (|xs| - 1) as real)
  }
}
