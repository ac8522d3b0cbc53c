/**
 A factor's range as `_distribution` of app/laptops/pickscore_adapter.py makes it from the
 catalog's values: what the percentile scorer assumes of its ranges holds of every catalog.
 */
module Distributions {
  import opened Percentile

  function Insert(x: real, s: seq<real>): seq<real> {
    if s == [] || x <= s[0] then [x] + s else [s[0]] + Insert(x, s[1..])
  }

  /** Python's sorted. */
  function Ascending(s: seq<real>): seq<real> {
    if s == [] then [] else Insert(s[0], Ascending(s[1..]))
  }

  function Distribution(values: seq<real>): Range {
    var ordered := Ascending(values);
    if ordered == [] then Range(0.0, 0.0, []) else Range(ordered[0], ordered[|ordered| - 1], ordered)
  }

  lemma HeadKeepsOrder(x: real, s: seq<real>)
    requires Sorted(s) && (s != [] ==> x <= s[0])
    ensures Sorted([x] + s)
  {
  }

  lemma {:induction false} InsertKeepsOrder(x: real, s: seq<real>)
    requires Sorted(s)
    ensures Sorted(Insert(x, s))
    ensures Insert(x, s)[0] == (if s == [] || x <= s[0] then x else s[0])
  {
    if s == [] || x <= s[0] {
      HeadKeepsOrder(x, s);
    } else {
      InsertKeepsOrder(x, s[1..]);
      HeadKeepsOrder(s[0], Insert(x, s[1..]));
    }
  }

  lemma {:induction false} InsertKeepsContents(x: real, s: seq<real>)
    ensures multiset(Insert(x, s)) == multiset(s) + multiset{x}
  {
    if s != [] && x > s[0] {
      InsertKeepsContents(x, s[1..]);
      assert s == [s[0]] + s[1..];
    }
  }

  lemma {:induction false} AscendingSorts(s: seq<real>)
    ensures Sorted(Ascending(s)) && multiset(Ascending(s)) == multiset(s)
  {
    if s == [] {
    } else {
      AscendingSorts(s[1..]);
      InsertKeepsOrder(s[0], Ascending(s[1..]));
      InsertKeepsContents(s[0], Ascending(s[1..]));
      assert s == [s[0]] + s[1..];
    }
  }

  /**
   The range holds the catalog's values, one entry each, in order, and its bounds are the least and
   the greatest of them.
   */
  lemma DistributionIsRanked(values: seq<real>)
    ensures var r := Distribution(values);
            && Sorted(r.values) && multiset(r.values) == multiset(values)
            && (values != [] ==> r.min in values && r.max in values)
            && forall v :: v in values ==> r.min <= v <= r.max
  {
    var r := Distribution(values);
    AscendingSorts(values);
    assert |multiset(r.values)| == |r.values| && |multiset(values)| == |values|;
    forall v
      ensures v in values <==> v in r.values
    {
      assert v in multiset(values) <==> v in multiset(r.values);
    }
  }

  lemma LeastFirst(s: seq<real>, v: real)
    requires Sorted(s) && v in multiset(s)
    ensures s != [] && s[0] <= v
  {
    var i :| 0 <= i < |s| && s[i] == v;
  }

  lemma TailIsOneLess(s: seq<real>)
    requires s != [] && Sorted(s)
    ensures Sorted(s[1..]) && multiset(s[1..]) == multiset(s) - multiset{s[0]} && s == [s[0]] + s[1..]
  {
    assert s == [s[0]] + s[1..];
  }

  lemma HeadsAgree(a: seq<real>, b: seq<real>)
    requires Sorted(a) && Sorted(b) && multiset(a) == multiset(b) && a != [] && b != []
    ensures a[0] == b[0]
  {
    assert a[0] in multiset(a) && b[0] in multiset(b);
    LeastFirst(a, b[0]);
    LeastFirst(b, a[0]);
  }

  lemma {:induction false} SortedIsUnique(a: seq<real>, b: seq<real>)
    requires Sorted(a) && Sorted(b) && multiset(a) == multiset(b)
    ensures a == b
  {
    assert |a| == |multiset(a)| == |multiset(b)| == |b|;
    if a == [] {
    } else {
      HeadsAgree(a, b);
      TailIsOneLess(a);
      TailIsOneLess(b);
      SortedIsUnique(a[1..], b[1..]);
    }
  }

  /** The order in which the catalog is read changes no range, and so no score. */
  lemma DistributionIgnoresOrder(a: seq<real>, b: seq<real>)
    requires multiset(a) == multiset(b)
    ensures Distribution(a) == Distribution(b)
  {
    AscendingSorts(a);
    AscendingSorts(b);
    SortedIsUnique(Ascending(a), Ascending(b));
  }
}
