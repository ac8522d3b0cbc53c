/**
 The ranking metric of app/rag/evaluation.py. The discount 1 / log2(position + 1) enters only
 as a positive sequence that never increases, so every result holds for the logarithm's and
 for any other such discount.
 */
module Ndcg {
  import opened Common
  import Rounding

  type Discount = nat -> real

  ghost predicate Decreasing(w: Discount) {
    (forall i: nat :: w(i) > 0.0) && (forall i: nat, j: nat :: i <= j ==> w(j) <= w(i))
  }

  ghost predicate StrictlyDecreasing(w: Discount) {
    (forall i: nat :: w(i) > 0.0) && (forall i: nat, j: nat :: i < j ==> w(j) < w(i))
  }

  /** A list read past its end holds zeros. */
  function At(s: seq<int>, i: nat): int {
    if i < |s| then s[i] else 0
  }

  function Dcg(s: seq<int>, w: Discount, n: nat): real {
    if n == 0 then 0.0 else Dcg(s, w, n - 1) + At(s, n - 1) as real * w(n - 1)
  }

  /** `dcg_at_k`: only the first k entries, of however many there are, count. */
  function DcgAtK(s: seq<int>, k: nat, w: Discount): real {
    Dcg(s, w, if k < |s| then k else |s|)
  }

  lemma {:induction false} PaddingAddsNothing(s: seq<int>, w: Discount, n: nat)
    requires |s| <= n
    ensures Dcg(s, w, n) == Dcg(s, w, |s|)
    decreases n
  {
    if n > |s| {
      PaddingAddsNothing(s, w, n - 1);
    }
  }

  // --- sorted(labels, reverse=True) ------------------------------------------------------

  function Insert(x: int, s: seq<int>): seq<int> {
    if s == [] || x >= s[0] then [x] + s else [s[0]] + Insert(x, s[1..])
  }

  function SortDesc(s: seq<int>): seq<int> {
    if s == [] then [] else Insert(s[0], SortDesc(s[1..]))
  }

  ghost predicate Descending(s: seq<int>) {
    forall i, j :: 0 <= i <= j < |s| ==> s[i] >= s[j]
  }

  lemma {:induction false} InsertKeepsOrder(x: int, s: seq<int>)
    requires Descending(s)
    ensures Descending(Insert(x, s))
    ensures Insert(x, s)[0] == (if s == [] || x >= s[0] then x else s[0])
  {
    if s != [] && x < s[0] {
      InsertKeepsOrder(x, s[1..]);
      HeadKeepsOrder(s[0], Insert(x, s[1..]));
    }
  }

  lemma HeadKeepsOrder(x: int, s: seq<int>)
    requires Descending(s) && (s != [] ==> x >= s[0])
    ensures Descending([x] + s)
  {
  }

  lemma {:induction false} InsertKeepsContents(x: int, s: seq<int>)
    ensures multiset(Insert(x, s)) == multiset(s) + multiset{x}
  {
    if s != [] && x < s[0] {
      InsertKeepsContents(x, s[1..]);
      assert s == [s[0]] + s[1..];
    }
  }

  lemma {:induction false} SortDescSorts(s: seq<int>)
    ensures Descending(SortDesc(s)) && multiset(SortDesc(s)) == multiset(s)
  {
    if s == [] {
    } else {
      SortDescSorts(s[1..]);
      InsertKeepsOrder(s[0], SortDesc(s[1..]));
      InsertKeepsContents(s[0], SortDesc(s[1..]));
      assert s == [s[0]] + s[1..];
    }
  }

  function Ndcg(relevance: seq<int>, ideal: seq<int>, k: nat, w: Discount): real {
    var dcg, idcg := DcgAtK(relevance, k, w), DcgAtK(SortDesc(ideal), k, w);
    if idcg > 0.0 then dcg / idcg else 0.0
  }

  // --- Prefix sums decide every discount -------------------------------------------------

  function Prefix(s: seq<int>, n: nat): int {
    if n == 0 then 0 else Prefix(s, n - 1) + At(s, n - 1)
  }

  ghost predicate Dominated(a: seq<int>, b: seq<int>, k: nat) {
    forall j: nat :: j <= k ==> Prefix(a, j) <= Prefix(b, j)
  }

  function Gap(a: seq<int>, b: seq<int>, n: nat): int {
    Prefix(b, n) - Prefix(a, n)
  }

  /** What is left of the difference of two DCGs when the last weight's share of the gap is taken out. */
  function Slack(a: seq<int>, b: seq<int>, w: Discount, n: nat): real {
    Dcg(b, w, n) - Dcg(a, w, n) - Gap(a, b, n) as real * w(n)
  }

  lemma SlackGrows(a: seq<int>, b: seq<int>, w: Discount, n: nat)
    ensures Slack(a, b, w, n + 1) == Slack(a, b, w, n) + Gap(a, b, n + 1) as real * (w(n) - w(n + 1))
  {
    Expand(At(a, n) as real, At(b, n) as real, Gap(a, b, n) as real, w(n), w(n + 1));
    assert Gap(a, b, n + 1) == Gap(a, b, n) + At(b, n) - At(a, n);
  }

  lemma Expand(x: real, y: real, g: real, u: real, v: real)
    ensures y * u - x * u + g * u - (g + y - x) * v == (g + y - x) * (u - v)
  {
  }

  /** Summation by parts: with every prefix gap non-negative, so is the slack. */
  lemma {:induction false} SlackIsNonnegative(a: seq<int>, b: seq<int>, w: Discount, n: nat)
    requires Decreasing(w) && Dominated(a, b, n)
    ensures Slack(a, b, w, n) >= 0.0
  {
    if n == 0 {
    } else {
      var p: nat := n - 1;
      SlackIsNonnegative(a, b, w, p);
      SlackGrows(a, b, w, p);
      assert Prefix(a, n) <= Prefix(b, n);
      NonnegativeProduct(Gap(a, b, n) as real, w(p) - w(n));
    }
  }

  /** Under a strictly falling discount, one positive gap makes it positive. */
  lemma {:induction false} SlackIsPositive(a: seq<int>, b: seq<int>, w: Discount, n: nat, j: nat)
    requires Decreasing(w) && StrictlyDecreasing(w) && Dominated(a, b, n)
    requires j <= n && Gap(a, b, j) > 0
    ensures Slack(a, b, w, n) > 0.0
  {
    var p: nat := n - 1;
    SlackGrows(a, b, w, p);
    assert Prefix(a, n) <= Prefix(b, n);
    var gap, drop := Gap(a, b, n) as real, w(p) - w(n);
    assert drop > 0.0;
    NonnegativeProduct(gap, drop);
    assert Slack(a, b, w, n) == Slack(a, b, w, p) + gap * drop;
    if j == n {
      SlackIsNonnegative(a, b, w, p);
    } else {
      SlackIsPositive(a, b, w, p, j);
    }
  }

  lemma NonnegativeProduct(a: real, b: real)
    requires a >= 0.0 && b >= 0.0
    ensures a * b >= 0.0
    ensures a > 0.0 && b > 0.0 ==> a * b > 0.0
  {
  }

  lemma DominatedDcg(a: seq<int>, b: seq<int>, w: Discount, n: nat)
    requires Decreasing(w) && Dominated(a, b, n)
    ensures Dcg(a, w, n) <= Dcg(b, w, n)
    ensures StrictlyDecreasing(w) && Dcg(a, w, n) == Dcg(b, w, n) ==> forall j: nat :: j <= n ==> Gap(a, b, j) == 0
  {
    SlackIsNonnegative(a, b, w, n);
    assert Prefix(a, n) <= Prefix(b, n);
    NonnegativeProduct(Gap(a, b, n) as real, w(n));
    if StrictlyDecreasing(w) && Dcg(a, w, n) == Dcg(b, w, n) {
      forall j: nat | j <= n
        ensures Gap(a, b, j) == 0
      {
        assert Prefix(a, j) <= Prefix(b, j);
        if Gap(a, b, j) > 0 {
          SlackIsPositive(a, b, w, n, j);
        }
      }
    }
  }

  // --- A ranking of distinct ids never beats the sorted labels ------------------------------

  datatype Label<Id> = Label(id: Id, relevance: int)

  ghost predicate DistinctLabels<Id(!new)>(t: seq<Label<Id>>) {
    forall i, j :: 0 <= i < j < |t| ==> t[i].id != t[j].id
  }

  ghost predicate Distinct<Id(!new)>(ids: seq<Id>) {
    forall i, j :: 0 <= i < j < |ids| ==> ids[i] != ids[j]
  }

  ghost predicate NonnegativeLabels<Id(!new)>(t: seq<Label<Id>>) {
    forall i :: 0 <= i < |t| ==> t[i].relevance >= 0
  }

  /** ground_truth.get(id, 0) */
  function Get<Id(==)>(t: seq<Label<Id>>, id: Id): int {
    if t == [] then 0 else if t[0].id == id then t[0].relevance else Get(t[1..], id)
  }

  function Values<Id>(t: seq<Label<Id>>): seq<int> {
    if t == [] then [] else [t[0].relevance] + Values(t[1..])
  }

  function Relevance<Id(==)>(t: seq<Label<Id>>, ids: seq<Id>): (r: seq<int>)
    ensures |r| == |ids| && forall i :: 0 <= i < |ids| ==> r[i] == Get(t, ids[i])
  {
    seq(|ids|, i requires 0 <= i < |ids| => Get(t, ids[i]))
  }

  function InsertLabel<Id>(x: Label<Id>, t: seq<Label<Id>>): seq<Label<Id>> {
    if t == [] || x.relevance >= t[0].relevance then [x] + t else [t[0]] + InsertLabel(x, t[1..])
  }

  /** The labels with their ids, in the order of the sorted values. */
  function SortLabels<Id>(t: seq<Label<Id>>): seq<Label<Id>> {
    if t == [] then [] else InsertLabel(t[0], SortLabels(t[1..]))
  }

  lemma {:induction false} InsertLabelValues<Id(!new)>(x: Label<Id>, t: seq<Label<Id>>)
    ensures Values(InsertLabel(x, t)) == Insert(x.relevance, Values(t))
  {
    if t == [] || x.relevance >= t[0].relevance {
      assert ([x] + t)[1..] == t;
    } else {
      InsertLabelValues(x, t[1..]);
      assert InsertLabel(x, t)[1..] == InsertLabel(x, t[1..]);
      assert Values(t)[1..] == Values(t[1..]);
    }
  }

  lemma {:induction false} InsertLabelLookup<Id(!new)>(x: Label<Id>, t: seq<Label<Id>>, id: Id)
    requires forall i :: 0 <= i < |t| ==> t[i].id != x.id
    ensures Get(InsertLabel(x, t), id) == if id == x.id then x.relevance else Get(t, id)
  {
    if t == [] || x.relevance >= t[0].relevance {
      assert ([x] + t)[1..] == t;
    } else {
      InsertLabelLookup(x, t[1..], id);
      assert InsertLabel(x, t)[1..] == InsertLabel(x, t[1..]);
    }
  }

  lemma {:induction false} InsertLabelContents<Id(!new)>(x: Label<Id>, t: seq<Label<Id>>)
    ensures multiset(InsertLabel(x, t)) == multiset(t) + multiset{x}
  {
    if t != [] && x.relevance < t[0].relevance {
      InsertLabelContents(x, t[1..]);
      assert t == [t[0]] + t[1..];
    }
  }

  lemma {:induction false} SortLabelsValues<Id(!new)>(t: seq<Label<Id>>)
    ensures Values(SortLabels(t)) == SortDesc(Values(t))
  {
    if t == [] {
    } else {
      SortLabelsValues(t[1..]);
      InsertLabelValues(t[0], SortLabels(t[1..]));
      assert Values(t)[1..] == Values(t[1..]);
    }
  }

  lemma {:induction false} SortLabelsContents<Id(!new)>(t: seq<Label<Id>>)
    ensures multiset(SortLabels(t)) == multiset(t)
  {
    if t == [] {
    } else {
      SortLabelsContents(t[1..]);
      InsertLabelContents(t[0], SortLabels(t[1..]));
      assert t == [t[0]] + t[1..];
    }
  }

  lemma {:induction false} SortLabelsLookup<Id(!new)>(t: seq<Label<Id>>, id: Id)
    requires DistinctLabels(t)
    ensures Get(SortLabels(t), id) == Get(t, id)
  {
    if t == [] {
    } else {
      var sorted := SortLabels(t[1..]);
      SortLabelsLookup(t[1..], id);
      SortLabelsContents(t[1..]);
      forall i | 0 <= i < |sorted|
        ensures sorted[i].id != t[0].id
      {
        assert sorted[i] in multiset(t[1..]);
      }
      InsertLabelLookup(t[0], sorted, id);
    }
  }

  function Gained<Id(==)>(t: seq<Label<Id>>, ids: seq<Id>): int {
    if ids == [] then 0 else Get(t, ids[0]) + Gained(t, ids[1..])
  }

  function Without<Id>(ids: seq<Id>, i: nat): seq<Id>
    requires i < |ids|
  {
    ids[..i] + ids[i + 1..]
  }

  lemma {:induction false} GainedWithout<Id(!new)>(t: seq<Label<Id>>, ids: seq<Id>, i: nat)
    requires i < |ids|
    ensures Gained(t, ids) == Get(t, ids[i]) + Gained(t, Without(ids, i))
  {
    if i == 0 {
      assert Without(ids, 0) == ids[1..];
    } else {
      GainedWithout(t, ids[1..], i - 1);
      assert Without(ids, i)[1..] == Without(ids[1..], i - 1);
    }
  }

  lemma {:induction false} GainedWithoutTheHead<Id(!new)>(t: seq<Label<Id>>, ids: seq<Id>)
    requires t != [] && t[0].id !in ids
    ensures Gained(t, ids) == Gained(t[1..], ids)
  {
    if ids == [] {
    } else {
      GainedWithoutTheHead(t, ids[1..]);
    }
  }

  lemma {:induction false} HeadIsLargest<Id(!new)>(t: seq<Label<Id>>, id: Id)
    requires t != [] && Descending(Values(t)) && NonnegativeLabels(t)
    ensures 0 <= Get(t, id) <= t[0].relevance
  {
    if |t| > 1 && t[0].id != id {
      assert Values(t)[1..] == Values(t[1..]);
      assert Values(t)[0] >= Values(t)[1] == t[1].relevance;
      HeadIsLargest(t[1..], id);
    }
  }

  lemma {:induction false} PrefixOfCons(x: int, s: seq<int>, n: nat)
    requires n > 0
    ensures Prefix([x] + s, n) == x + Prefix(s, n - 1)
  {
    if n > 1 {
      PrefixOfCons(x, s, n - 1);
    }
  }

  /** n distinct ids gain at most the n largest labels. */
  lemma {:induction false} TopLabelsGainMost<Id(!new)>(t: seq<Label<Id>>, ids: seq<Id>)
    requires Descending(Values(t)) && NonnegativeLabels(t) && Distinct(ids)
    ensures Gained(t, ids) <= Prefix(Values(t), |ids|)
    decreases |t| + |ids|
  {
    if ids == [] {
    } else {
      if t == [] {
        TopLabelsGainMost(t, ids[1..]);
      } else {
        var i: nat := if t[0].id in ids then var j: nat :| j < |ids| && ids[j] == t[0].id; j else 0;
        var rest := Without(ids, i);
        GainedWithout(t, ids, i);
        HeadIsLargest(t, ids[i]);
        GainedWithoutTheHead(t, rest);
        assert Values(t) == [t[0].relevance] + Values(t[1..]);
        assert Values(t)[1..] == Values(t[1..]);
        TopLabelsGainMost(t[1..], rest);
        PrefixOfCons(t[0].relevance, Values(t[1..]), |ids|);
      }
    }
  }

  lemma {:induction false} GainedIsPrefix<Id(!new)>(t: seq<Label<Id>>, ids: seq<Id>, n: nat)
    requires n <= |ids|
    ensures Prefix(Relevance(t, ids), n) == Gained(t, ids[..n])
  {
    if n == 0 {
    } else {
      GainedIsPrefix(t, ids, n - 1);
      GainedWithout(t, ids[..n], n - 1);
      assert Without(ids[..n], n - 1) == ids[..n - 1];
    }
  }

  lemma {:induction false} GainedOfSameLookup<Id(!new)>(t: seq<Label<Id>>, u: seq<Label<Id>>, ids: seq<Id>)
    requires forall id :: Get(t, id) == Get(u, id)
    ensures Gained(t, ids) == Gained(u, ids)
  {
    if ids == [] {
    } else {
      GainedOfSameLookup(t, u, ids[1..]);
    }
  }

  lemma {:induction false} PrefixPastTheEnd(s: seq<int>, n: nat)
    requires |s| <= n
    ensures Prefix(s, n) == Prefix(s, |s|)
    decreases n
  {
    if n > |s| {
      PrefixPastTheEnd(s, n - 1);
    }
  }

  lemma {:induction false} PrefixGrows(s: seq<int>, m: nat, n: nat)
    requires m <= n && forall i :: 0 <= i < |s| ==> s[i] >= 0
    ensures Prefix(s, m) <= Prefix(s, n)
    decreases n
  {
    if m < n {
      PrefixGrows(s, m, n - 1);
    }
  }

  lemma {:induction false} ValuesAt<Id(!new)>(t: seq<Label<Id>>)
    ensures |Values(t)| == |t| && forall i :: 0 <= i < |t| ==> Values(t)[i] == t[i].relevance
  {
    if t == [] {
    } else {
      ValuesAt(t[1..]);
    }
  }

  /** Every prefix of a ranking of distinct ids is worth at most the same prefix of the sorted labels. */
  lemma RankingIsDominated<Id(!new)>(t: seq<Label<Id>>, ids: seq<Id>, k: nat)
    requires DistinctLabels(t) && NonnegativeLabels(t) && Distinct(ids)
    ensures Dominated(Relevance(t, ids), SortDesc(Values(t)), k)
  {
    var r, s := Relevance(t, ids), SortDesc(Values(t));
    NonnegativeSort(t);
    forall j: nat | j <= k
      ensures Prefix(r, j) <= Prefix(s, j)
    {
      if j <= |ids| {
        TopOfRanking(t, ids, j);
      } else {
        TopOfRanking(t, ids, |ids|);
        PrefixPastTheEnd(r, j);
        PrefixGrows(s, |ids|, j);
      }
    }
  }

  lemma TopOfRanking<Id(!new)>(t: seq<Label<Id>>, ids: seq<Id>, j: nat)
    requires DistinctLabels(t) && NonnegativeLabels(t) && Distinct(ids) && j <= |ids|
    ensures Prefix(Relevance(t, ids), j) <= Prefix(SortDesc(Values(t)), j)
  {
    var sorted := SortLabels(t);
    SortLabelsValues(t);
    SortDescSorts(Values(t));
    SortedLabelsAreNonnegative(t);
    forall id
      ensures Get(t, id) == Get(sorted, id)
    {
      SortLabelsLookup(t, id);
    }
    GainedIsPrefix(t, ids, j);
    GainedOfSameLookup(t, sorted, ids[..j]);
    TopLabelsGainMost(sorted, ids[..j]);
  }

  lemma SortedLabelsAreNonnegative<Id(!new)>(t: seq<Label<Id>>)
    requires NonnegativeLabels(t)
    ensures NonnegativeLabels(SortLabels(t))
  {
    SortLabelsContents(t);
    forall i | 0 <= i < |SortLabels(t)|
      ensures SortLabels(t)[i].relevance >= 0
    {
      assert SortLabels(t)[i] in multiset(t);
    }
  }

  lemma NonnegativeSort<Id(!new)>(t: seq<Label<Id>>)
    requires NonnegativeLabels(t)
    ensures forall i :: 0 <= i < |SortDesc(Values(t))| ==> SortDesc(Values(t))[i] >= 0
  {
    ValuesAt(t);
    SortIsNonnegative(Values(t));
  }

  // --- The bound -----------------------------------------------------------------------------

  lemma AtKIsPadded(s: seq<int>, k: nat, w: Discount)
    ensures DcgAtK(s, k, w) == Dcg(s, w, k)
  {
    if |s| < k {
      PaddingAddsNothing(s, w, k);
    }
  }

  lemma {:induction false} DcgIsNonnegative(s: seq<int>, w: Discount, n: nat)
    requires Decreasing(w) && forall i :: 0 <= i < |s| ==> s[i] >= 0
    ensures Dcg(s, w, n) >= 0.0
    ensures (exists i: nat :: i < n && At(s, i) > 0) <==> Dcg(s, w, n) > 0.0
  {
    if n == 0 {
    } else {
      DcgIsNonnegative(s, w, n - 1);
      NonnegativeProduct(At(s, n - 1) as real, w(n - 1));
      assert forall i: nat :: i < n && At(s, i) > 0 ==> i < n - 1 || At(s, n - 1) > 0;
    }
  }

  lemma RatioBounds(a: real, b: real)
    requires b > 0.0 && a >= 0.0
    ensures a / b >= 0.0
    ensures a <= b <==> a / b <= 1.0
    ensures a == b <==> a / b == 1.0
    ensures a == 0.0 <==> a / b == 0.0
  {
    assert a / b * b == a;
  }

  /**
   NDCG at k is in [0, 1] for every ranking of distinct ids and every non-negative
   labelling, whatever is unlabelled, however long either list is, for any k.
   */
  lemma NdcgIsAFraction<Id(!new)>(t: seq<Label<Id>>, ids: seq<Id>, k: nat, w: Discount)
    requires DistinctLabels(t) && NonnegativeLabels(t) && Distinct(ids) && Decreasing(w)
    ensures 0.0 <= Ndcg(Relevance(t, ids), Values(t), k, w) <= 1.0
  {
    var r, s := Relevance(t, ids), SortDesc(Values(t));
    AtKIsPadded(r, k, w);
    AtKIsPadded(s, k, w);
    RankingIsDominated(t, ids, k);
    DominatedDcg(r, s, w, k);
    RelevanceIsNonnegative(t, ids);
    DcgIsNonnegative(r, w, k);
    if Dcg(s, w, k) > 0.0 {
      RatioBounds(Dcg(r, w, k), Dcg(s, w, k));
    }
  }

  lemma {:induction false} GetIsNonnegative<Id(!new)>(t: seq<Label<Id>>, id: Id)
    requires NonnegativeLabels(t)
    ensures Get(t, id) >= 0
  {
    if t == [] {
    } else {
      GetIsNonnegative(t[1..], id);
    }
  }

  lemma RelevanceIsNonnegative<Id(!new)>(t: seq<Label<Id>>, ids: seq<Id>)
    requires NonnegativeLabels(t)
    ensures forall i :: 0 <= i < |ids| ==> Relevance(t, ids)[i] >= 0
  {
    forall i | 0 <= i < |ids|
      ensures Relevance(t, ids)[i] >= 0
    {
      GetIsNonnegative(t, ids[i]);
    }
  }

  /**
   With the logarithm, or any other strictly falling discount, 1 means the first k places hold the
   ideal labels in order.
   */
  lemma OneMeansPerfectOrder<Id(!new)>(t: seq<Label<Id>>, ids: seq<Id>, k: nat, w: Discount)
    requires DistinctLabels(t) && NonnegativeLabels(t) && Distinct(ids)
    requires Decreasing(w) && StrictlyDecreasing(w)
    requires DcgAtK(SortDesc(Values(t)), k, w) > 0.0
    ensures Ndcg(Relevance(t, ids), Values(t), k, w) == 1.0 <==>
              forall i: nat :: i < k ==> At(Relevance(t, ids), i) == At(SortDesc(Values(t)), i)
  {
    var r, s := Relevance(t, ids), SortDesc(Values(t));
    AtKIsPadded(r, k, w);
    AtKIsPadded(s, k, w);
    RankingIsDominated(t, ids, k);
    DominatedDcg(r, s, w, k);
    RelevanceIsNonnegative(t, ids);
    DcgIsNonnegative(r, w, k);
    RatioBounds(Dcg(r, w, k), Dcg(s, w, k));
    if Dcg(r, w, k) == Dcg(s, w, k) {
      forall i: nat | i < k
        ensures At(r, i) == At(s, i)
      {
        assert Gap(r, s, i) == 0 && Gap(r, s, i + 1) == 0;
      }
    } else if forall i: nat :: i < k ==> At(r, i) == At(s, i) {
      SameEntriesSameDcg(r, s, w, k);
    }
  }

  lemma {:induction false} SameEntriesSameDcg(a: seq<int>, b: seq<int>, w: Discount, n: nat)
    requires forall i: nat :: i < n ==> At(a, i) == At(b, i)
    ensures Dcg(a, w, n) == Dcg(b, w, n)
  {
    if n == 0 {
    } else {
      SameEntriesSameDcg(a, b, w, n - 1);
    }
  }

  /**
   0 means nothing relevant made the first k places. (The docstring of `ndcg_at_k` says it
   means all relevant results were ranked last; ranked last within the first k, they still score.)
   */
  lemma ZeroMeansNothingRelevantShown<Id(!new)>(t: seq<Label<Id>>, ids: seq<Id>, k: nat, w: Discount)
    requires DistinctLabels(t) && NonnegativeLabels(t) && Distinct(ids) && Decreasing(w)
    ensures Ndcg(Relevance(t, ids), Values(t), k, w) == 0.0 <==> forall i: nat :: i < k ==>
            At(Relevance(t, ids), i) <= 0
  {
    var r, s := Relevance(t, ids), SortDesc(Values(t));
    AtKIsPadded(r, k, w);
    AtKIsPadded(s, k, w);
    RankingIsDominated(t, ids, k);
    DominatedDcg(r, s, w, k);
    RelevanceIsNonnegative(t, ids);
    DcgIsNonnegative(r, w, k);
    if Dcg(s, w, k) > 0.0 {
      RatioBounds(Dcg(r, w, k), Dcg(s, w, k));
    }
  }

  // --- The bound of `ndcg_at_k` on its own -----------------------------------------------------

  /** Called on lists that are not one labelling, `ndcg_at_k` can leave [0, 1]: its docstring needs its caller. */
  lemma UnrelatedListsBreakTheBound(w: Discount)
    requires Decreasing(w)
    ensures Ndcg([3], [1], 1, w) == 3.0
  {
    AtKIsPadded([3], 1, w);
    assert SortDesc([1]) == [1];
    assert Dcg([3], w, 1) == 0.0 + 3.0 * w(0) && Dcg([1], w, 1) == 0.0 + 1.0 * w(0);
    assert 3.0 * w(0) / w(0) == 3.0;
  }

  /** Weight `big` for the first j places and 1 for every later one. */
  function Spike(j: nat, big: nat): Discount {
    (i: nat) => if i < j then big as real else 1.0
  }

  lemma {:induction false} SpikeDcg(s: seq<int>, j: nat, big: nat, n: nat)
    ensures Dcg(s, Spike(j, big), n) ==
            (if n <= j then big * Prefix(s, n) else big * Prefix(s, j) + Prefix(s, n) - Prefix(s, j)) as real
  {
    if n == 0 {
    } else {
      SpikeDcg(s, j, big, n - 1);
      OneMoreTerm(big, Prefix(s, n - 1), At(s, n - 1));
    }
  }

  lemma OneMoreTerm(big: int, sum: int, x: int)
    ensures (big * sum) as real + x as real * big as real == (big * (sum + x)) as real
  {
    assert x as real * big as real == (x * big) as real;
    assert big * (sum + x) == big * sum + x * big;
  }

  /**
   On arbitrary non-negative lists the bound holds for every discount exactly when each
   prefix of the ranking is worth at most the same prefix of the sorted labels.
   */
  lemma BoundedForEveryDiscountIffDominated(r: seq<int>, ideal: seq<int>, k: nat)
    requires forall i :: 0 <= i < |r| ==> r[i] >= 0
    requires forall i :: 0 <= i < |ideal| ==> ideal[i] >= 0
    requires Prefix(SortDesc(ideal), k) > 0
    ensures (forall w: Discount :: Decreasing(w) ==> Ndcg(r, ideal, k, w) <= 1.0) <==> Dominated(r, SortDesc(ideal), k)
  {
    var s := SortDesc(ideal);
    if Dominated(r, s, k) {
      forall w: Discount | Decreasing(w)
        ensures Ndcg(r, ideal, k, w) <= 1.0
      {
        AtKIsPadded(r, k, w);
        AtKIsPadded(s, k, w);
        DominatedDcg(r, s, w, k);
        DcgIsNonnegative(r, w, k);
        if Dcg(s, w, k) > 0.0 {
          RatioBounds(Dcg(r, w, k), Dcg(s, w, k));
        }
      }
    } else {
      var j: nat :| j <= k && Prefix(r, j) > Prefix(s, j);
      var w := SpikeExposes(r, ideal, k, j);
      assert Decreasing(w) && !(Ndcg(r, ideal, k, w) <= 1.0);
    }
  }

  /** One prefix worth more than the ideal's is enough for some discount to push the score past 1. */
  lemma SpikeExposes(r: seq<int>, ideal: seq<int>, k: nat, j: nat) returns (w: Discount)
    requires forall i :: 0 <= i < |r| ==> r[i] >= 0
    requires forall i :: 0 <= i < |ideal| ==> ideal[i] >= 0
    requires Prefix(SortDesc(ideal), k) > 0 && j <= k && Prefix(r, j) > Prefix(SortDesc(ideal), j)
    ensures Decreasing(w) && Ndcg(r, ideal, k, w) > 1.0
  {
    var s := SortDesc(ideal);
    var big := Prefix(s, k) + 1;
    w := Spike(j, big);
    SortIsNonnegative(ideal);
    PrefixGrows(s, 0, j);
    PrefixGrows(s, j, k);
    PrefixGrows(r, j, k);
    SpikeDcg(s, j, big, k);
    SpikeDcg(r, j, big, k);
    ProductGap(big, Prefix(s, j), Prefix(r, j));
    AboveOne(r, ideal, k, w);
  }

  lemma {:induction false} ProductGap(big: nat, low: nat, high: nat)
    requires big > 0 && low < high
    ensures low <= big * low && big * low + big <= big * high
  {
    if low > 0 {
      ProductGap(big, low - 1, high - 1);
      assert big * low == big * (low - 1) + big && big * high == big * (high - 1) + big;
    } else {
      AtLeastOnce(big, high);
    }
  }

  lemma {:induction false} AtLeastOnce(big: nat, n: nat)
    requires n > 0
    ensures big <= big * n
  {
    if n > 1 {
      AtLeastOnce(big, n - 1);
      assert big * n == big * (n - 1) + big;
    }
  }

  lemma AboveOne(r: seq<int>, ideal: seq<int>, k: nat, w: Discount)
    requires Dcg(r, w, k) > Dcg(SortDesc(ideal), w, k) > 0.0
    ensures Ndcg(r, ideal, k, w) > 1.0
  {
    AtKIsPadded(r, k, w);
    AtKIsPadded(SortDesc(ideal), k, w);
    RatioBounds(Dcg(r, w, k), Dcg(SortDesc(ideal), w, k));
  }

  lemma SortIsNonnegative(s: seq<int>)
    requires forall i :: 0 <= i < |s| ==> s[i] >= 0
    ensures forall i :: 0 <= i < |SortDesc(s)| ==> SortDesc(s)[i] >= 0
  {
    SortDescSorts(s);
    forall i | 0 <= i < |SortDesc(s)|
      ensures SortDesc(s)[i] >= 0
    {
      assert SortDesc(s)[i] in multiset(s);
    }
  }

  // --- The evaluation run ----------------------------------------------------------------------

  /** One test case and what the pipeline returned for it. */
  datatype Case<Id> = Case(labels: seq<Label<Id>>, gated: bool, candidates: seq<Id>)

  ghost predicate WellLabelled<Id(!new)>(c: Case<Id>) {
    DistinctLabels(c.labels) && NonnegativeLabels(c.labels) && Distinct(c.candidates)
  }

  function CaseScore<Id(==)>(c: Case<Id>, k: nat, w: Discount): real {
    if c.gated || c.candidates == [] then 0.0
    else
      var ranking := if k < |c.candidates| then c.candidates[..k] else c.candidates;
      Rounding.RoundTo4(Ndcg(Relevance(c.labels, ranking), SortDesc(Values(c.labels)), k, w))
  }

  /** A gated case, and one without candidates, scores 0; any other the NDCG of its first k candidates, rounded. */
  lemma ACaseIsScoredByItsFirstCandidates<Id(!new)>(c: Case<Id>, k: nat, w: Discount, ranking: seq<Id>)
    requires ranking <= c.candidates && |ranking| == (if k < |c.candidates| then k else |c.candidates|)
    ensures c.gated || c.candidates == [] ==> CaseScore(c, k, w) == 0.0
    ensures !c.gated && c.candidates != [] ==>
              -0.00005 <= CaseScore(c, k, w) - Ndcg(Relevance(c.labels, ranking), Values(c.labels), k, w) <= 0.00005
  {
    assert ranking == if k < |c.candidates| then c.candidates[..k] else c.candidates;
    SortingTwiceIsOnce(Values(c.labels));
    Rounding.RoundIsNearest(Ndcg(Relevance(c.labels, ranking), Values(c.labels), k, w) * 10000.0);
  }

  function Total(scores: seq<real>, n: nat): real
    requires n <= |scores|
  {
    if n == 0 then 0.0 else Total(scores, n - 1) + scores[n - 1]
  }

  /** Between n scores each from lo to hi the total is from n times lo to n times hi, so the mean is between them. */
  lemma {:induction false} TotalIsBetween(scores: seq<real>, lo: real, hi: real, n: nat)
    requires n <= |scores| && forall i :: 0 <= i < |scores| ==> lo <= scores[i] <= hi
    ensures lo * n as real <= Total(scores, n) <= hi * n as real
  {
    if n == 0 {
    } else {
      var m := (n - 1) as real;
      TotalIsBetween(scores, lo, hi, n - 1);
      OneMoreTimes(lo, m, n as real);
      OneMoreTimes(hi, m, n as real);
    }
  }

  lemma MeanIsAFraction(scores: seq<real>)
    requires scores != [] && forall i :: 0 <= i < |scores| ==> 0.0 <= scores[i] <= 1.0
    ensures 0.0 <= Rounding.RoundTo4(Total(scores, |scores|) / |scores| as real) <= 1.0
  {
    TotalIsBetween(scores, 0.0, 1.0, |scores|);
    RatioBounds(Total(scores, |scores|), |scores| as real);
    Rounding.RoundTo4Between(Total(scores, |scores|) / |scores| as real, 0, 1);
  }

  lemma OneMoreTimes(x: real, m: real, n: real)
    requires n == m + 1.0
    ensures x * n == x * m + x
  {
  }

  /** A case that scores more raises the total by just as much. */
  lemma {:induction false} OneCaseMovesTheTotal(scores: seq<real>, k: nat, x: real, n: nat)
    requires k < |scores| && n <= |scores|
    ensures Total(scores[k := x], n) == Total(scores, n) + if k < n then x - scores[k] else 0.0
  {
    if n == 0 {
    } else {
      OneCaseMovesTheTotal(scores, k, x, n - 1);
    }
  }

  method ScoreCase<Id(==, !new)>(c: Case<Id>, k: nat, w: Discount) returns (score: real)
    requires Decreasing(w) && WellLabelled(c)
    ensures score == CaseScore(c, k, w) && 0.0 <= score <= 1.0
  {
    score := 0.0;
    CaseScoreIsAFraction(c, k, w);
    if !c.gated && c.candidates != [] {
      var ranking := if k < |c.candidates| then c.candidates[..k] else c.candidates;
      score := Rounding.RoundTo4(Ndcg(Relevance(c.labels, ranking), SortDesc(Values(c.labels)), k, w));
    }
  }

  method ScoreCases<Id(==, !new)>(cases: seq<Case<Id>>, k: nat, w: Discount) returns (scores: seq<real>)
    requires Decreasing(w) && forall i :: 0 <= i < |cases| ==> WellLabelled(cases[i])
    ensures |scores| == |cases| && forall i :: 0 <= i < |cases| ==> scores[i] == CaseScore(cases[i], k, w)
    ensures forall i :: 0 <= i < |cases| ==> 0.0 <= scores[i] <= 1.0
  {
    scores := [];
    for n := 0 to |cases|
      invariant |scores| == n
      invariant forall i :: 0 <= i < n ==> scores[i] == CaseScore(cases[i], k, w)
      invariant forall i :: 0 <= i < n ==> 0.0 <= scores[i] <= 1.0
    {
      var score := ScoreCase(cases[n], k, w);
      scores := scores + [score];
    }
  }

  method Mean(scores: seq<real>) returns (mean: real)
    requires scores != []
    ensures mean == Total(scores, |scores|) / |scores| as real
  {
    var total := 0.0;
    for n := 0 to |scores|
      invariant total == Total(scores, n)
    {
      total := total + scores[n];
    }
    mean := total / |scores| as real;
  }

  /** `evaluate_test_suite`: the per-case scores and the rounded mean of them, as reported. */
  method EvaluateTestSuite<Id(==, !new)>(cases: seq<Case<Id>>, k: nat, w: Discount)
    returns (scores: seq<real>, average: real)
    requires Decreasing(w) && forall i :: 0 <= i < |cases| ==> WellLabelled(cases[i])
    ensures |scores| == |cases| && forall i :: 0 <= i < |cases| ==> scores[i] == CaseScore(cases[i], k, w)
    ensures forall i :: 0 <= i < |cases| ==> 0.0 <= scores[i] <= 1.0
    ensures average == if cases == [] then 0.0 else Rounding.RoundTo4(Total(scores, |scores|) / |scores| as real)
    ensures 0.0 <= average <= 1.0
  {
    scores := ScoreCases(cases, k, w);
    average := 0.0;
    if scores != [] {
      MeanIsAFraction(scores);
      var mean := Mean(scores);
      average := Rounding.RoundTo4(mean);
    }
  }

  lemma CaseScoreIsAFraction<Id(!new)>(c: Case<Id>, k: nat, w: Discount)
    requires Decreasing(w) && WellLabelled(c)
    ensures 0.0 <= CaseScore(c, k, w) <= 1.0
  {
    var ranking := if k < |c.candidates| then c.candidates[..k] else c.candidates;
    SortingTwiceIsOnce(Values(c.labels));
    NdcgIsAFraction(c.labels, ranking, k, w);
    Rounding.RoundTo4Between(Ndcg(Relevance(c.labels, ranking), Values(c.labels), k, w), 0, 1);
  }

  lemma {:induction false} SortOfSorted(s: seq<int>)
    requires Descending(s)
    ensures SortDesc(s) == s
  {
    if s == [] {
    } else {
      SortOfSorted(s[1..]);
      assert s == [s[0]] + s[1..];
      assert s[1..] == [] || s[0] >= s[1..][0];
    }
  }

  lemma SortingTwiceIsOnce(s: seq<int>)
    ensures SortDesc(SortDesc(s)) == SortDesc(s)
  {
    SortDescSorts(s);
    SortOfSorted(SortDesc(s));
  }
}
