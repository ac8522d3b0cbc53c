/**
 The ranking of one use case in app/laptops/pickscore_general.py: sort by a total key, keep
 one laptop per family, and only then cut to the limit.
 */
module Ranking {
  import opened Common
  import opened Deduplication

  datatype Row = Row(id: nat, score: Option<real>, proxy: bool, price: real, family: Option<FamilyId>)

  /** A row whose score was not withheld. */
  datatype Scored = Scored(id: nat, score: real, proxy: bool, price: real, family: Option<FamilyId>)

  function RowOf(r: Scored): Row { Row(r.id, Some(r.score), r.proxy, r.price, r.family) }

  function FamilyOf(r: Scored): Option<FamilyId> { r.family }

  /** The sort key: proxied GPUs last where they are demoted, then score, price and id. */
  predicate Before(a: Scored, b: Scored, demote: bool) {
    if demote && a.proxy != b.proxy then b.proxy
    else if a.score != b.score then a.score > b.score
    else if a.price != b.price then a.price < b.price
    else a.id < b.id
  }

  ghost predicate DistinctRows(rows: seq<Row>) {
    forall i, j :: 0 <= i < j < |rows| ==> rows[i].id != rows[j].id
  }

  ghost predicate DistinctIds(rows: seq<Scored>) {
    forall i, j :: 0 <= i < j < |rows| ==> rows[i].id != rows[j].id
  }

  ghost predicate Ordered(rows: seq<Scored>, demote: bool) {
    forall i, j :: 0 <= i < j < |rows| ==> Before(rows[i], rows[j], demote)
  }

  function ScoreOf(r: Row): Scored
    requires r.score.Some?
  {
    Scored(r.id, r.score.value, r.proxy, r.price, r.family)
  }

  /** The rows of the list that have a score. */
  function ScoredOf(rows: seq<Row>, n: nat): seq<Scored>
    requires n <= |rows|
  {
    if n == 0 then [] else ScoredOf(rows, n - 1) + if rows[n - 1].score.Some? then [ScoreOf(rows[n - 1])] else []
  }

  lemma {:induction false} ScoredAreRows(rows: seq<Row>, n: nat)
    requires n <= |rows|
    ensures forall r :: r in ScoredOf(rows, n) <==> RowOf(r) in rows[..n]
    ensures DistinctRows(rows) ==> DistinctIds(ScoredOf(rows, n))
  {
    if n == 0 {
    } else {
      ScoredAreRows(rows, n - 1);
      assert rows[..n] == rows[..n - 1] + [rows[n - 1]];
      if DistinctRows(rows) {
        var before := ScoredOf(rows, n - 1);
        forall i | 0 <= i < |before|
          ensures before[i].id != rows[n - 1].id
        {
          assert RowOf(before[i]) in rows[..n - 1];
        }
      }
    }
  }

  /** Where a row goes in an ordered list. */
  method Place(sorted: seq<Scored>, r: Scored, demote: bool) returns (p: nat)
    requires Ordered(sorted, demote) && forall i :: 0 <= i < |sorted| ==> sorted[i].id != r.id
    ensures p <= |sorted| && Ordered(sorted[..p] + [r] + sorted[p..], demote)
  {
    p := |sorted|;
    while p > 0 && !Before(sorted[p - 1], r, demote)
      invariant p <= |sorted| && forall i :: p <= i < |sorted| ==> Before(r, sorted[i], demote)
    {
      p := p - 1;
    }
  }

  method SortRows(rows: seq<Scored>, demote: bool) returns (sorted: seq<Scored>)
    requires DistinctIds(rows)
    ensures Ordered(sorted, demote) && multiset(sorted) == multiset(rows)
  {
    sorted := [];
    for n := 0 to |rows|
      invariant Ordered(sorted, demote) && multiset(sorted) == multiset(rows[..n])
    {
      assert rows[..n + 1] == rows[..n] + [rows[n]];
      forall i | 0 <= i < |sorted|
        ensures sorted[i].id != rows[n].id
      {
        assert sorted[i] in multiset(sorted);
        assert sorted[i] in rows[..n];
      }
      var p := Place(sorted, rows[n], demote);
      assert sorted == sorted[..p] + sorted[p..];
      sorted := sorted[..p] + [rows[n]] + sorted[p..];
    }
    assert rows[..|rows|] == rows;
  }

  /** What a request answers with, over whatever order the database returned the rows in. */
  ghost predicate IsRanking(rows: seq<Row>, demote: bool, limit: nat, ranking: seq<Scored>) {
    exists sorted, out :: Ranks(rows, demote, limit, ranking, sorted, out)
  }

  /** `sorted` is the list before deduplication, `out` after it. */
  ghost predicate Ranks(rows: seq<Row>, demote: bool, limit: nat, ranking: seq<Scored>, sorted: seq<Scored>,
      out: seq<Scored>) {
    && Ordered(sorted, demote) && multiset(sorted) == multiset(ScoredOf(rows, |rows|))
    && Filled(sorted, FamilyOf, None, out, |sorted|)
    && ranking == out[..if limit < |out| then limit else |out|]
  }

  method GetRanking(rows: seq<Row>, demote: bool, limit: nat) returns (ranking: seq<Scored>)
    requires DistinctRows(rows)
    ensures IsRanking(rows, demote, limit, ranking)
  {
    var scored: seq<Scored> := [];
    for n := 0 to |rows|
      invariant scored == ScoredOf(rows, n)
    {
      if rows[n].score.Some? {
        scored := scored + [ScoreOf(rows[n])];
      }
    }
    ScoredAreRows(rows, |rows|);
    var sorted := SortRows(scored, demote);
    var out := Deduplicate(sorted, FamilyOf, None);
    ranking := out[..if limit < |out| then limit else |out|];
    assert Ranks(rows, demote, limit, ranking, sorted, out);
  }

  // --- What the ranking is -----------------------------------------------------------------

  /** The laptops a request could list. */
  ghost predicate Eligible(rows: seq<Row>, r: Scored) {
    RowOf(r) in rows
  }

  /** A laptop is listed unless one of its own family is listed ahead of it, or the list is full of better ones. */
  ghost predicate Accounted(ranking: seq<Scored>, limit: nat, demote: bool, r: Scored) {
    || r in ranking
    || (r.family.Some? && exists q :: q in ranking && q.family == r.family && Before(q, r, demote))
    || (|ranking| == limit && forall q :: q in ranking ==> Before(q, r, demote))
  }

  lemma SortedHoldsTheEligible(rows: seq<Row>, sorted: seq<Scored>)
    requires multiset(sorted) == multiset(ScoredOf(rows, |rows|))
    ensures forall r :: r in sorted <==> Eligible(rows, r)
  {
    ScoredAreRows(rows, |rows|);
    assert rows[..|rows|] == rows;
    forall r
      ensures r in sorted <==> Eligible(rows, r)
    {
      assert r in multiset(sorted) <==> r in multiset(ScoredOf(rows, |rows|));
    }
  }

  /** With no preference, each place shows the item it was opened for. */
  lemma PlacesShowTheirFirst(sorted: seq<Scored>, out: seq<Scored>, k: nat)
    requires Filled(sorted, FamilyOf, None, out, |sorted|) && k < |out|
    ensures out[k] == sorted[Slots(sorted, FamilyOf, |sorted|)[k]]
  {
    var i := Slots(sorted, FamilyOf, |sorted|)[k];
    SlotsAreTheFirsts(sorted, FamilyOf, |sorted|);
    if sorted[i].family.Some? {
      FirstMemberStands(sorted, FamilyOf, i, |sorted|);
    }
  }

  lemma PlacesAreOrdered(sorted: seq<Scored>, out: seq<Scored>, demote: bool)
    requires Filled(sorted, FamilyOf, None, out, |sorted|) && Ordered(sorted, demote)
    ensures Ordered(out, demote)
  {
    SlotsAreTheFirsts(sorted, FamilyOf, |sorted|);
    forall k, l | 0 <= k < l < |out|
      ensures Before(out[k], out[l], demote)
    {
      PlacesShowTheirFirst(sorted, out, k);
      PlacesShowTheirFirst(sorted, out, l);
    }
  }

  /** Each eligible laptop is placed, or follows a place of its family. */
  lemma PlaceOf(sorted: seq<Scored>, out: seq<Scored>, demote: bool, i: nat) returns (k: nat)
    requires Filled(sorted, FamilyOf, None, out, |sorted|) && Ordered(sorted, demote) && i < |sorted|
    ensures k < |out|
    ensures out[k] == sorted[i]
            || (sorted[i].family.Some? && out[k].family == sorted[i].family && Before(out[k], sorted[i], demote))
  {
    var s := Slots(sorted, FamilyOf, |sorted|);
    SlotsAreTheFirsts(sorted, FamilyOf, |sorted|);
    if sorted[i].family.Some? {
      k := EveryFamilyHasAPlace(sorted, FamilyOf, None, out, i);
    } else {
      assert i in s;
      k :| 0 <= k < |s| && s[k] == i;
    }
    PlacesShowTheirFirst(sorted, out, k);
  }

  lemma CutKeepsAccounts(out: seq<Scored>, limit: nat, demote: bool, k: nat, r: Scored)
    requires Ordered(out, demote) && k < |out|
    requires out[k] == r || (r.family.Some? && out[k].family == r.family && Before(out[k], r, demote))
    ensures Accounted(out[..if limit < |out| then limit else |out|], limit, demote, r)
  {
    var ranking := out[..if limit < |out| then limit else |out|];
    if k < |ranking| {
      assert ranking[k] == out[k];
    } else {
      forall q | q in ranking
        ensures Before(q, r, demote)
      {
        var j :| 0 <= j < |ranking| && ranking[j] == q;
        assert Before(out[j], out[k], demote);
      }
    }
  }

  /**
   The ranking lists eligible laptops in key order, one per family, as many as the limit and
   the catalog allow, and every laptop it leaves out is outranked by a listed one of its own
   family or by a full list.
   */
  lemma RankingIsTheBestOfEachFamily(rows: seq<Row>, demote: bool, limit: nat, ranking: seq<Scored>)
    requires IsRanking(rows, demote, limit, ranking)
    ensures Ordered(ranking, demote) && forall r :: r in ranking ==> Eligible(rows, r)
    ensures forall k, l :: 0 <= k < l < |ranking| ==> ranking[k].family.None? || ranking[k].family != ranking[l].family
    ensures forall r :: Eligible(rows, r) ==> Accounted(ranking, limit, demote, r)
  {
    var sorted, out :| Ranks(rows, demote, limit, ranking, sorted, out);
    SortedHoldsTheEligible(rows, sorted);
    OnePerFamily(sorted, FamilyOf, None, out);
    PlacesAreOrdered(sorted, out, demote);
    forall k | 0 <= k < |ranking|
      ensures ranking[k] in sorted
    {
      assert ranking[k] == out[k];
    }
    forall r | Eligible(rows, r)
      ensures Accounted(ranking, limit, demote, r)
    {
      assert r in sorted;
      var i :| 0 <= i < |sorted| && sorted[i] == r;
      var k := PlaceOf(sorted, out, demote, i);
      CutKeepsAccounts(out, limit, demote, k, r);
    }
  }

  /**
   Of two listed laptops the earlier one has the higher score, at equal scores the lower price, and
   at equal prices the lower id; where proxied GPUs are demoted, only among those that are proxied
   alike, and the proxied ones come last.
   */
  lemma RankingGoesByScoreThenPrice(rows: seq<Row>, demote: bool, limit: nat, ranking: seq<Scored>, k: nat, l: nat)
    requires IsRanking(rows, demote, limit, ranking) && k < l < |ranking|
    ensures var a, b := ranking[k], ranking[l];
            if demote && a.proxy != b.proxy then !a.proxy && b.proxy
            else
              && a.score >= b.score
              && (a.score == b.score ==> a.price <= b.price)
              && (a.score == b.score && a.price == b.price ==> a.id < b.id)
  {
    RankingIsTheBestOfEachFamily(rows, demote, limit, ranking);
    assert Before(ranking[k], ranking[l], demote);
  }

  /** The cut comes after the deduplication: the list is as long as the limit and the product lines allow. */
  lemma RankingIsFull(rows: seq<Row>, demote: bool, limit: nat, ranking: seq<Scored>)
    requires IsRanking(rows, demote, limit, ranking)
    ensures var all := ScoredOf(rows, |rows|);
            var lines := |FamiliesIn(all, FamilyOf, |all|)| + Familyless(all, FamilyOf, |all|);
            |ranking| == if limit < lines then limit else lines
  {
    var sorted, out :| Ranks(rows, demote, limit, ranking, sorted, out);
    var all := ScoredOf(rows, |rows|);
    OnePerFamily(sorted, FamilyOf, None, out);
    FamiliesOfPermutation(sorted, all);
    FamilylessOfPermutation(sorted, all);
  }

  lemma FamiliesOfPermutation(a: seq<Scored>, b: seq<Scored>)
    requires multiset(a) == multiset(b)
    ensures FamiliesIn(a, FamilyOf, |a|) == FamiliesIn(b, FamilyOf, |b|)
  {
    FamiliesAreWithin(a, b);
    FamiliesAreWithin(b, a);
  }

  lemma FamiliesAreWithin(a: seq<Scored>, b: seq<Scored>)
    requires multiset(a) == multiset(b)
    ensures FamiliesIn(a, FamilyOf, |a|) <= FamiliesIn(b, FamilyOf, |b|)
  {
    forall f | f in FamiliesIn(a, FamilyOf, |a|)
      ensures f in FamiliesIn(b, FamilyOf, |b|)
    {
      var i :| 0 <= i < |a| && a[i].family == Some(f);
      assert a[i] in multiset(b);
      var j :| 0 <= j < |b| && b[j] == a[i];
      assert FamilyOf(b[j]) == Some(f);
    }
  }

  lemma OneLess(b: seq<Scored>, j: nat)
    requires j < |b|
    ensures multiset(b[..j] + b[j + 1..]) == multiset(b) - multiset{b[j]}
  {
    assert b == b[..j] + [b[j]] + b[j + 1..];
  }

  lemma {:induction false} FamilylessOfPermutation(a: seq<Scored>, b: seq<Scored>)
    requires multiset(a) == multiset(b)
    ensures Familyless(a, FamilyOf, |a|) == Familyless(b, FamilyOf, |b|)
    decreases |a|
  {
    assert |a| == |multiset(a)| == |multiset(b)| == |b|;
    if a == [] {
    } else {
      var n := |a| - 1;
      var r := a[n];
      assert r in multiset(b);
      var j :| 0 <= j < |b| && b[j] == r;
      var rest := b[..j] + b[j + 1..];
      assert a[..n] == a[..n] + a[n + 1..];
      OneLess(a, n);
      OneLess(b, j);
      FamilylessOfPermutation(a[..n], rest);
      FamilylessWithout(b, j, |b|);
      FamilylessPrefix(a[..n], a, n);
    }
  }

  lemma {:induction false} FamilylessPrefix(a: seq<Scored>, b: seq<Scored>, n: nat)
    requires n <= |a| && n <= |b| && forall i :: 0 <= i < n ==> a[i] == b[i]
    ensures Familyless(a, FamilyOf, n) == Familyless(b, FamilyOf, n)
  {
    if n == 0 {
    } else {
      FamilylessPrefix(a, b, n - 1);
    }
  }

  lemma {:induction false} FamilylessWithout(b: seq<Scored>, j: nat, n: nat)
    requires j < n <= |b|
    ensures var rest := b[..j] + b[j + 1..];
            Familyless(b, FamilyOf, n) == Familyless(rest, FamilyOf, n - 1) + if b[j].family.None? then 1 else 0
  {
    var rest := b[..j] + b[j + 1..];
    if j == n - 1 {
      FamilylessPrefix(b, rest, j);
    } else {
      FamilylessWithout(b, j, n - 1);
      assert rest[n - 2] == b[n - 1];
    }
  }

  // --- The same catalog ranks the same -------------------------------------------------------

  lemma HeadIsLeast(a: seq<Scored>, r: Scored, demote: bool)
    requires Ordered(a, demote) && r in multiset(a)
    ensures a != [] && (r == a[0] || Before(a[0], r, demote))
  {
    var i :| 0 <= i < |a| && a[i] == r;
  }

  lemma HeadsAgree(a: seq<Scored>, b: seq<Scored>, demote: bool)
    requires Ordered(a, demote) && Ordered(b, demote) && multiset(a) == multiset(b) && a != [] && b != []
    ensures a[0] == b[0]
  {
    assert a[0] in multiset(a) && b[0] in multiset(b);
    HeadIsLeast(a, b[0], demote);
    HeadIsLeast(b, a[0], demote);
  }

  lemma TailIsOneLess(a: seq<Scored>, demote: bool)
    requires a != [] && Ordered(a, demote)
    ensures Ordered(a[1..], demote) && multiset(a[1..]) == multiset(a) - multiset{a[0]}
    ensures a == [a[0]] + a[1..]
  {
    assert a == [a[0]] + a[1..];
  }

  lemma {:induction false} OrderedIsUnique(a: seq<Scored>, b: seq<Scored>, demote: bool)
    requires Ordered(a, demote) && Ordered(b, demote) && multiset(a) == multiset(b)
    ensures a == b
  {
    assert |a| == |multiset(a)| == |multiset(b)| == |b|;
    if a == [] {
    } else {
      HeadsAgree(a, b, demote);
      TailIsOneLess(a, demote);
      TailIsOneLess(b, demote);
      OrderedIsUnique(a[1..], b[1..], demote);
    }
  }

  lemma SameCount(last: Row, r: Scored)
    requires last.score.Some?
    ensures RowOf(r) == last <==> r == ScoreOf(last)
  {
  }

  lemma UnscoredIsNoRow(last: Row, r: Scored)
    requires last.score.None?
    ensures RowOf(r) != last
  {
  }

  lemma ScoredOneMore(rows: seq<Row>, n: nat)
    requires n < |rows|
    ensures rows[..n + 1] == rows[..n] + [rows[n]]
    ensures ScoredOf(rows, n + 1) ==
            if rows[n].score.Some? then ScoredOf(rows, n) + [ScoreOf(rows[n])] else ScoredOf(rows, n)
  {
    var m := n + 1;
    assert ScoredOf(rows, m) == ScoredOf(rows, m - 1) + if rows[m - 1].score.Some? then [ScoreOf(rows[m - 1])] else [];
  }

  lemma {:induction false} ScoredOfPermutation(rows: seq<Row>, n: nat, r: Scored)
    requires n <= |rows|
    ensures multiset(ScoredOf(rows, n))[r] == multiset(rows[..n])[RowOf(r)]
  {
    if n == 0 {
    } else {
      var m := n - 1;
      ScoredOfPermutation(rows, m, r);
      ScoredOneMore(rows, m);
      CountOfMore(rows[..m], rows[m], RowOf(r));
      if rows[m].score.Some? {
        SameCount(rows[m], r);
        CountOfMore(ScoredOf(rows, m), ScoreOf(rows[m]), r);
      } else {
        UnscoredIsNoRow(rows[m], r);
      }
    }
  }

  lemma SameScored(rows: seq<Row>, rows': seq<Row>)
    requires multiset(rows) == multiset(rows')
    ensures multiset(ScoredOf(rows, |rows|)) == multiset(ScoredOf(rows', |rows'|))
  {
    var all, all' := ScoredOf(rows, |rows|), ScoredOf(rows', |rows'|);
    assert rows[..|rows|] == rows && rows'[..|rows'|] == rows';
    forall r
      ensures multiset(all)[r] == multiset(all')[r]
    {
      ScoredOfPermutation(rows, |rows|, r);
      ScoredOfPermutation(rows', |rows'|, r);
    }
  }

  /** Identical requests answer identically, in whatever order the database returns the rows. */
  lemma RankingIgnoresRowOrder(rows: seq<Row>, rows': seq<Row>, demote: bool, limit: nat, ranking: seq<Scored>,
      ranking': seq<Scored>)
    requires multiset(rows) == multiset(rows')
    requires IsRanking(rows, demote, limit, ranking) && IsRanking(rows', demote, limit, ranking')
    ensures ranking == ranking'
  {
    SameScored(rows, rows');
    var s, out :| Ranks(rows, demote, limit, ranking, s, out);
    var s', out' :| Ranks(rows', demote, limit, ranking', s', out');
    OrderedIsUnique(s, s', demote);
    assert out == out';
  }
}
