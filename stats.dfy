/** The statistics the aggregations compute, over real numbers: sum, count, mean,
    minimum, maximum and median. */
module Stats {
  import opened Order
  import opened Grouping

  function Sum(xs: seq<real>): real
    decreases |xs|
  {
    if xs == [] then 0.0 else xs[0] + Sum(xs[1..])
  }

  function Mean(xs: seq<real>): real
    requires |xs| > 0
  {
    Sum(xs) / |xs| as real
  }

  function Min(xs: seq<real>): (m: real)
    requires |xs| > 0
    ensures m in xs && forall i :: 0 <= i < |xs| ==> m <= xs[i]
    decreases |xs|
  {
    if |xs| == 1 then xs[0]
    else
      var rest := Min(xs[1..]);
      assert forall i :: 1 <= i < |xs| ==> xs[i] == xs[1..][i - 1];
      if xs[0] <= rest then xs[0] else rest
  }

  function Max(xs: seq<real>): (m: real)
    requires |xs| > 0
    ensures m in xs && forall i :: 0 <= i < |xs| ==> xs[i] <= m
    decreases |xs|
  {
    if |xs| == 1 then xs[0]
    else
      var rest := Max(xs[1..]);
      assert forall i :: 1 <= i < |xs| ==> xs[i] == xs[1..][i - 1];
      if xs[0] >= rest then xs[0] else rest
  }

  lemma {:induction false} SumAppend(a: seq<real>, b: seq<real>)
    ensures Sum(a + b) == Sum(a) + Sum(b)
    decreases |a|
  {
    if a != [] {
      assert (a + b)[1..] == a[1..] + b;
      SumAppend(a[1..], b);
    } else {
      assert a + b == b;
    }
  }

  /** A sum lies between `n` times the least and `n` times the greatest summand. */
  lemma {:induction false} SumBetween(xs: seq<real>, lo: real, hi: real)
    requires forall i :: 0 <= i < |xs| ==> lo <= xs[i] <= hi
    ensures |xs| as real * lo <= Sum(xs) <= |xs| as real * hi
    decreases |xs|
  {
    if xs != [] {
      assert forall i :: 0 <= i < |xs| - 1 ==> xs[1..][i] == xs[i + 1];
      SumBetween(xs[1..], lo, hi);
    }
  }

  /** A mean lies within any bounds of its values. */
  lemma MeanWithin(xs: seq<real>, lo: real, hi: real)
    requires |xs| > 0
    requires forall i :: 0 <= i < |xs| ==> lo <= xs[i] <= hi
    ensures lo <= Mean(xs) <= hi
  {
    SumBetween(xs, lo, hi);
    QuotientBetween(Sum(xs), |xs| as real, lo, hi);
  }

  /** The mean of a group never leaves the range of its values. */
  lemma MeanBetween(xs: seq<real>)
    requires |xs| > 0
    ensures Min(xs) <= Mean(xs) <= Max(xs)
  {
    MeanWithin(xs, Min(xs), Max(xs));
  }

  lemma QuotientBetween(s: real, n: real, lo: real, hi: real)
    requires n > 0.0 && n * lo <= s <= n * hi
    ensures lo <= s / n <= hi
  {
    assert s / n * n == s;
  }

  function RealLess(a: real, b: real): bool { a < b }

  function Identity(x: real): real { x }

  /** The values in ascending order. */
  function Ascending(xs: seq<real>): seq<real>
  {
    SortBy(xs, Identity, RealLess)
  }

  lemma AscendingSpec(xs: seq<real>)
    ensures multiset(Ascending(xs)) == multiset(xs) && |Ascending(xs)| == |xs|
    ensures forall i, j :: 0 <= i < j < |Ascending(xs)| ==> Ascending(xs)[i] <= Ascending(xs)[j]
  {
    assert StrictTotalOrder(RealLess);
    SortBySpec(xs, Identity, RealLess);
    assert |multiset(Ascending(xs))| == |multiset(xs)|;
  }

  /** pandas' median: the middle value, or the mean of the two middle values of an even
      count. */
  function Median(xs: seq<real>): real
    requires |xs| > 0
  {
    AscendingSpec(xs);
    var s := Ascending(xs);
    var n := |s|;
    if n % 2 == 1 then s[n / 2] else (s[n / 2 - 1] + s[n / 2]) / 2.0
  }

  /** The median of a group never leaves the range of its values. */
  lemma MedianBetween(xs: seq<real>)
    requires |xs| > 0
    ensures Min(xs) <= Median(xs) <= Max(xs)
  {
    AscendingSpec(xs);
    var s := Ascending(xs);
    var n := |s|;
    forall i | 0 <= i < n ensures Min(xs) <= s[i] <= Max(xs) {
      assert s[i] in multiset(s);
      assert s[i] in xs;
    }
  }
}
