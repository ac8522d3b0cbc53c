/**
 The percentile rank every PickScore factor goes through: `_normalize` in
 app/pickscore/engine.py over the sorted distributions of `_distribution` in
 app/laptops/pickscore_adapter.py.
 */
module Percentile {
  import opened Common

  /** One factor's range: its sorted catalog values, and the min-max bounds used when there are none. */
  datatype Range = Range(min: real, max: real, values: seq<real>)

  ghost predicate Sorted(values: seq<real>) {
    forall i, j :: 0 <= i <= j < |values| ==> values[i] <= values[j]
  }

  /** How many of the first n values lie strictly below v. */
  function Below(values: seq<real>, v: real, n: nat): nat
    requires n <= |values|
  {
    if n == 0 then 0 else Below(values, v, n - 1) + if values[n - 1] < v then 1 else 0
  }

  function Equal(values: seq<real>, v: real, n: nat): nat
    requires n <= |values|
  {
    if n == 0 then 0 else Equal(values, v, n - 1) + if values[n - 1] == v then 1 else 0
  }

  lemma {:induction false} CountsOfSplit(values: seq<real>, v: real, n: nat, left: nat, right: nat)
    requires left <= right && n <= |values|
    requires forall i :: 0 <= i < n ==> (i < left <==> values[i] < v)
    requires forall i :: 0 <= i < n ==> (i < right <==> values[i] <= v)
    ensures Below(values, v, n) == (if n < left then n else left)
    ensures Below(values, v, n) + Equal(values, v, n) == (if n < right then n else right)
  {
    if n == 0 {
    } else {
      CountsOfSplit(values, v, n - 1, left, right);
    }
  }

  /** bisect.bisect_left: the binary search finds the number of values below v. */
  method BisectLeft(values: seq<real>, v: real) returns (lo: nat)
    requires Sorted(values)
    ensures lo == Below(values, v, |values|)
    ensures lo <= |values| && (forall i :: 0 <= i < |values| ==> (i < lo <==> values[i] < v))
  {
    lo := 0;
    var hi := |values|;
    while lo < hi
      invariant lo <= hi <= |values|
      invariant forall i :: 0 <= i < lo ==> values[i] < v
      invariant forall i :: hi <= i < |values| ==> values[i] >= v
    {
      var mid := (lo + hi) / 2;
      if values[mid] < v {
        lo := mid + 1;
      } else {
        hi := mid;
      }
    }
    ghost var right := FirstAbove(values, v, lo);
    CountsOfSplit(values, v, |values|, lo, right);
  }

  method BisectRight(values: seq<real>, v: real) returns (lo: nat)
    requires Sorted(values)
    ensures lo == Below(values, v, |values|) + Equal(values, v, |values|)
    ensures lo <= |values| && (forall i :: 0 <= i < |values| ==> (i < lo <==> values[i] <= v))
  {
    lo := 0;
    var hi := |values|;
    while lo < hi
      invariant lo <= hi <= |values|
      invariant forall i :: 0 <= i < lo ==> values[i] <= v
      invariant forall i :: hi <= i < |values| ==> values[i] > v
    {
      var mid := (lo + hi) / 2;
      if v < values[mid] {
        hi := mid;
      } else {
        lo := mid + 1;
      }
    }
    var left := BisectLeft(values, v);
    assert left > 0 ==> values[left - 1] < v;
    CountsOfSplit(values, v, |values|, left, lo);
  }

  ghost function FirstAbove(values: seq<real>, v: real, from: nat): (r: nat)
    requires Sorted(values) && from <= |values|
    requires forall i :: 0 <= i < from ==> values[i] <= v
    ensures from <= r <= |values|
    ensures forall i :: 0 <= i < |values| ==> (i < r <==> values[i] <= v)
    decreases |values| - from
  {
    if from < |values| && values[from] <= v then FirstAbove(values, v, from + 1) else from
  }

  // --- The normalised score ----------------------------------------------------------------

  function Clamp(x: real): real {
    if x < 0.0 then 0.0 else if x > 100.0 then 100.0 else x
  }

  /** The share of the catalog below v, the middle of the block tied with it, as a percentage. */
  function Share(values: seq<real>, v: real): real
    requires values != []
  {
    (Below(values, v, |values|) as real + Equal(values, v, |values|) as real / 2.0) / |values| as real * 100.0
  }

  function Linear(v: real, lo: real, hi: real): real
    requires lo < hi
  {
    (v - lo) / (hi - lo) * 100.0
  }

  function Norm(value: Option<real>, r: Range, inverse: bool): real {
    if value.None? then 50.0
    else if r.values == [] && r.max <= r.min then 50.0
    else
      var score := Clamp(if r.values != [] then Share(r.values, value.value) else Linear(value.value, r.min, r.max));
      if inverse then 100.0 - score else score
  }

  method Normalize(value: Option<real>, r: Range, inverse: bool) returns (score: real)
    requires Sorted(r.values)
    ensures score == Norm(value, r, inverse)
  {
    if value.None? {
      return 50.0;
    }
    var v := value.value;
    if r.values != [] {
      var below := BisectLeft(r.values, v);
      var right := BisectRight(r.values, v);
      var equal := right - below;
      score := (below as real + equal as real / 2.0) / |r.values| as real * 100.0;
    } else {
      if r.max <= r.min {
        return 50.0;
      }
      score := (v - r.min) / (r.max - r.min) * 100.0;
    }
    score := Clamp(score);
    if inverse {
      score := 100.0 - score;
    }
  }

  // --- Ranks ---------------------------------------------------------------------------------

  /** Twice the mid-rank contribution of a to v: 2 below it, 1 tied with it, 0 above it. */
  function Weight(a: real, v: real): int {
    if a < v then 2 else if a == v then 1 else 0
  }

  function Rank2(values: seq<real>, v: real, n: nat): nat
    requires n <= |values|
  {
    if n == 0 then 0 else Rank2(values, v, n - 1) + Weight(values[n - 1], v)
  }

  lemma {:induction false} RankIsBelowAndEqual(values: seq<real>, v: real, n: nat)
    requires n <= |values|
    ensures Rank2(values, v, n) == 2 * Below(values, v, n) + Equal(values, v, n) <= 2 * n
  {
    if n == 0 {
    } else {
      RankIsBelowAndEqual(values, v, n - 1);
    }
  }

  lemma {:induction false} RankIsMonotone(values: seq<real>, u: real, v: real, n: nat)
    requires n <= |values| && u <= v
    ensures Rank2(values, u, n) <= Rank2(values, v, n)
  {
    if n == 0 {
    } else {
      RankIsMonotone(values, u, v, n - 1);
    }
  }

  /** k half-places of a catalog of n, as a percentage. */
  function Steps(k: nat, n: nat): real
    requires n > 0
  {
    if k == 0 then 0.0 else Steps(k - 1, n) + 50.0 / n as real
  }

  lemma {:induction false} StepsAdd(a: nat, b: nat, n: nat)
    requires n > 0
    ensures Steps(a + b, n) == Steps(a, n) + Steps(b, n)
  {
    if b == 0 {
    } else {
      StepsAdd(a, b - 1, n);
    }
  }

  lemma {:induction false} StepsIsProduct(k: nat, n: nat)
    requires n > 0
    ensures Steps(k, n) == k as real * (50.0 / n as real)
  {
    if k == 0 {
    } else {
      StepsIsProduct(k - 1, n);
      var unit := 50.0 / n as real;
      assert (k - 1) as real * unit + unit == k as real * unit;
    }
  }

  lemma {:induction false} StepsGrow(a: nat, b: nat, n: nat)
    requires n > 0 && a <= b
    ensures Steps(a, n) <= Steps(b, n)
    decreases b
  {
    if a < b {
      assert 50.0 / n as real > 0.0;
      StepsGrow(a, b - 1, n);
    }
  }

  lemma FullSteps(n: nat)
    requires n > 0
    ensures Steps(2 * n, n) == 100.0 && Steps(n * n, n) == 50.0 * n as real
  {
    var x := n as real;
    StepsIsProduct(2 * n, n);
    StepsIsProduct(n * n, n);
    assert x * (50.0 / x) == 50.0;
    assert (n * n) as real == x * x && x * x * (50.0 / x) == x * (x * (50.0 / x));
    assert (2 * n) as real * (50.0 / x) == 2.0 * (x * (50.0 / x));
  }

  lemma HalfPlaces(below: nat, equal: nat, n: nat)
    requires n > 0
    ensures (below as real + equal as real / 2.0) / n as real * 100.0 == Steps(2 * below + equal, n)
  {
    var unit := 1.0 / n as real;
    var half := below as real + equal as real / 2.0;
    StepsIsProduct(2 * below + equal, n);
    assert half / n as real == half * unit && 50.0 / n as real == 50.0 * unit;
  }

  lemma ShareIsRank(values: seq<real>, v: real)
    requires values != []
    ensures Share(values, v) == Steps(Rank2(values, v, |values|), |values|)
    ensures 0.0 <= Steps(Rank2(values, v, |values|), |values|) <= 100.0
  {
    var n := |values|;
    RankIsBelowAndEqual(values, v, n);
    HalfPlaces(Below(values, v, n), Equal(values, v, n), n);
    StepsArePercentages(Rank2(values, v, n), n);
  }

  lemma StepsArePercentages(k: nat, n: nat)
    requires n > 0 && k <= 2 * n
    ensures 0.0 <= Steps(k, n) <= 100.0
  {
    FullSteps(n);
    StepsGrow(0, k, n);
    StepsGrow(k, 2 * n, n);
  }

  // --- What the rank promises ------------------------------------------------------------------

  lemma ScoreIsAPercentage(value: Option<real>, r: Range, inverse: bool)
    ensures 0.0 <= Norm(value, r, inverse) <= 100.0
  {
  }

  /** The inverse form is the complement to 100, also on both neutral paths. */
  lemma InverseIsComplement(value: Option<real>, r: Range)
    ensures Norm(value, r, true) + Norm(value, r, false) == 100.0
  {
  }

  lemma MulOrder(a: real, b: real, c: real)
    requires a <= b && 0.0 <= c
    ensures a * c <= b * c
  {
    assert (b - a) * c >= 0.0;
  }

  lemma ShareIsMonotone(values: seq<real>, u: real, v: real)
    requires values != [] && u <= v
    ensures Share(values, u) <= Share(values, v)
  {
    ShareIsRank(values, u);
    ShareIsRank(values, v);
    RankIsMonotone(values, u, v, |values|);
    StepsGrow(Rank2(values, u, |values|), Rank2(values, v, |values|), |values|);
  }

  lemma LinearIsMonotone(u: real, v: real, lo: real, hi: real)
    requires lo < hi && u <= v
    ensures Linear(u, lo, hi) <= Linear(v, lo, hi)
  {
    var unit := 1.0 / (hi - lo);
    MulOrder(u - lo, v - lo, unit);
    assert (u - lo) / (hi - lo) == (u - lo) * unit;
    assert (v - lo) / (hi - lo) == (v - lo) * unit;
  }

  /** A larger value never scores lower, and with `inverse` never higher. */
  lemma ScoreIsMonotone(u: real, v: real, r: Range)
    requires u <= v
    ensures Norm(Some(u), r, false) <= Norm(Some(v), r, false)
    ensures Norm(Some(u), r, true) >= Norm(Some(v), r, true)
  {
    if r.values != [] {
      ShareIsMonotone(r.values, u, v);
    } else if r.min < r.max {
      LinearIsMonotone(u, v, r.min, r.max);
    }
  }

  // --- The mean ----------------------------------------------------------------------------

  /** The ranks of the first m values among the first n. */
  function RankSum(values: seq<real>, m: nat, n: nat): nat
    requires m <= |values| && n <= |values|
  {
    if m == 0 then 0 else RankSum(values, m - 1, n) + Rank2(values, values[m - 1], n)
  }

  /** A new value gains from each earlier one exactly what it does not give to it. */
  lemma {:induction false} OneMoreValue(values: seq<real>, m: nat, n: nat)
    requires m <= n < |values|
    ensures RankSum(values, m, n + 1) + Rank2(values, values[n], m) == RankSum(values, m, n) + 2 * m
  {
    if m == 0 {
    } else {
      OneMoreValue(values, m - 1, n);
      assert Weight(values[n], values[m - 1]) + Weight(values[m - 1], values[n]) == 2;
    }
  }

  lemma {:induction false} RanksSumToSquare(values: seq<real>, n: nat)
    requires n <= |values|
    ensures RankSum(values, n, n) == n * n
  {
    if n == 0 {
    } else {
      RanksSumToSquare(values, n - 1);
      OneMoreValue(values, n - 1, n - 1);
    }
  }

  function Sum(xs: seq<real>, m: nat): real
    requires m <= |xs|
  {
    if m == 0 then 0.0 else Sum(xs, m - 1) + xs[m - 1]
  }

  /** Every catalog value's own score. */
  function Scores(r: Range, inverse: bool): (xs: seq<real>)
    ensures |xs| == |r.values| && forall i :: 0 <= i < |xs| ==> xs[i] == Norm(Some(r.values[i]), r, inverse)
  {
    seq(|r.values|, i requires 0 <= i < |r.values| => Norm(Some(r.values[i]), r, inverse))
  }

  lemma {:induction false} SumIsRankSum(values: seq<real>, xs: seq<real>, m: nat)
    requires m <= |values| == |xs|
    requires forall i :: 0 <= i < |xs| ==> xs[i] == Steps(Rank2(values, values[i], |values|), |values|)
    ensures m > 0 ==> Sum(xs, m) == Steps(RankSum(values, m, |values|), |values|)
  {
    if m == 0 {
    } else {
      SumIsRankSum(values, xs, m - 1);
      StepsAdd(RankSum(values, m - 1, |values|), Rank2(values, values[m - 1], |values|), |values|);
    }
  }

  lemma {:induction false} SumOfComplements(xs: seq<real>, ys: seq<real>, m: nat)
    requires m <= |xs| == |ys|
    requires forall i :: 0 <= i < |xs| ==> xs[i] + ys[i] == 100.0
    ensures Sum(xs, m) + Sum(ys, m) == 100.0 * m as real
  {
    if m == 0 {
    } else {
      SumOfComplements(xs, ys, m - 1);
    }
  }

  lemma CatalogScoreIsRank(r: Range, v: real)
    requires r.values != []
    ensures Norm(Some(v), r, false) == Steps(Rank2(r.values, v, |r.values|), |r.values|)
  {
    ShareIsRank(r.values, v);
  }

  /** Over a non-empty catalog the scores of its own values average exactly 50, in both directions, ties or not. */
  lemma MeanIsFifty(r: Range, inverse: bool)
    requires r.values != []
    ensures Sum(Scores(r, inverse), |r.values|) == 50.0 * |r.values| as real
  {
    var n := |r.values|;
    var xs, ys := Scores(r, false), Scores(r, true);
    forall i | 0 <= i < n
      ensures xs[i] == Steps(Rank2(r.values, r.values[i], n), n)
      ensures xs[i] + ys[i] == 100.0
    {
      CatalogScoreIsRank(r, r.values[i]);
      InverseIsComplement(Some(r.values[i]), r);
    }
    SumIsRankSum(r.values, xs, n);
    RanksSumToSquare(r.values, n);
    FullSteps(n);
    SumOfComplements(xs, ys, n);
  }
}
