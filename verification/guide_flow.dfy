/**
 From a guide to the prices it writes: `match` followed by an apply, as apply_guide of
 app/laptops/price_guide_service.py runs them.
 */
module GuideFlow {
  import opened Common
  import opened PriceMatch
  import PriceMatchLaws
  import opened PriceApply

  /** The claims have rows, and the first is priced. */
  ghost predicate Priced(list: seq<Claim>) {
    forall k :: 0 <= k < |list| ==> list[k].rows != [] && list[k].rows[0].price.Some?
  }

  function QuoteOf(claim: Claim): Quote {
    Quote(claim.row.id, if claim.rows != [] then claim.rows[0].price.GetOr(0.0) else 0.0)
  }

  function QuotesOf(list: seq<Claim>): (quotes: seq<Quote>)
    ensures |quotes| == |list| && forall k :: 0 <= k < |list| ==> quotes[k] == QuoteOf(list[k])
  {
    seq(|list|, k requires 0 <= k < |list| => QuoteOf(list[k]))
  }

  lemma DistinctQuotes(list: seq<Claim>, laptops: map<nat, Laptop>)
    requires PriceMatchLaws.DistinctLaptops(list) && forall k :: 0 <= k < |list| ==> list[k].row.id in laptops
    ensures Quotable(laptops, QuotesOf(list))
  {
  }

  /** A match hands an apply distinct, known laptops, each with a price the guide states. */
  lemma MatchesCanBeApplied(r: Rules, guide: seq<GuideRow>, catalog: seq<CatalogRow>, result: MatchResult,
      laptops: map<nat, Laptop>)
    requires IsMatch(r, guide, catalog, result) && Ids(catalog) <= laptops.Keys
    ensures Quotable(laptops, QuotesOf(result.matched)) && Priced(result.matched)
  {
    var list := result.matched;
    forall k | 0 <= k < |list|
      ensures list[k].row.id in laptops && list[k].rows != [] && list[k].rows[0].price.Some?
      ensures PriceMatchLaws.DistinctLaptops(list)
    {
      MatchedIsPriced(r, guide, catalog, result, k);
    }
    DistinctQuotes(list, laptops);
  }

  lemma MatchedIsPriced(r: Rules, guide: seq<GuideRow>, catalog: seq<CatalogRow>, result: MatchResult, k: nat)
    requires IsMatch(r, guide, catalog, result) && k < |result.matched|
    ensures var claim := result.matched[k];
            claim.row.id in Ids(catalog) && claim.rows != [] && claim.rows[0].price.Some?
    ensures PriceMatchLaws.DistinctLaptops(result.matched)
  {
    var claim := result.matched[k];
    PriceMatchLaws.ListHolds(r, guide, catalog, result, Matched, k);
    PriceMatchLaws.ClaimersArePriced(r, catalog, guide, claim.row.id, claim.rows[0]);
    assert Holds(catalog, claim.row.id);
  }

  /** An apply writes no laptop the match put on another list, or on none. */
  lemma AnApplyWritesOnlyMatches(r: Rules, guide: seq<GuideRow>, catalog: seq<CatalogRow>, result: MatchResult, b: Book,
      run: Run, c: CatalogRow)
    requires IsMatch(r, guide, catalog, result) && DistinctIds(catalog) && Ids(catalog) <= b.laptops.Keys
    requires c in catalog && !PriceMatchLaws.OnList(result.matched, c) && c.id in b.laptops
    ensures Quotable(b.laptops, QuotesOf(result.matched))
    ensures Applied(b, QuotesOf(result.matched), |result.matched|, run).laptops[c.id] == b.laptops[c.id]
  {
    MatchesCanBeApplied(r, guide, catalog, result, b.laptops);
    var quotes := QuotesOf(result.matched);
    forall i | 0 <= i < |quotes|
      ensures quotes[i].laptop != c.id
    {
      var row := result.matched[i].row;
      MatchedRow(r, guide, catalog, result, i);
      if row.id == c.id {
        SameRow(catalog, row, c);
      }
    }
    UntouchedSoFar(b, quotes, |quotes|, run, c.id);
  }

  /** Two matches of one guide quote one price for a laptop, whatever the order of the rows. */
  lemma QuoteIgnoresOrder(r: Rules, guide: seq<GuideRow>, guide': seq<GuideRow>, catalog: seq<CatalogRow>,
      catalog': seq<CatalogRow>, result: MatchResult, result': MatchResult, k: nat)
    returns (l: nat)
    requires multiset(guide) == multiset(guide') && multiset(catalog) == multiset(catalog') && DistinctIds(catalog)
    requires IsMatch(r, guide, catalog, result) && IsMatch(r, guide', catalog', result') && k < |result.matched|
    ensures l < |result'.matched| && QuoteOf(result'.matched[l]) == QuoteOf(result.matched[k])
  {
    var c := result.matched[k].row;
    MatchedRow(r, guide, catalog, result, k);
    PriceMatchLaws.MatchIgnoresOrder(r, guide, guide', catalog, catalog', result, result', c);
    l :| 0 <= l < |result'.matched| && result'.matched[l].row == c;
    MatchedRow(r, guide', catalog', result', l);
    PriceMatchLaws.ClaimsIgnoreOrder(r, guide, guide', catalog, catalog', c.id);
    OnePrice(r, guide, catalog, result, k, result'.matched[l].rows);
  }

  lemma MatchedRow(r: Rules, guide: seq<GuideRow>, catalog: seq<CatalogRow>, result: MatchResult, k: nat)
    requires IsMatch(r, guide, catalog, result) && k < |result.matched|
    ensures var claim := result.matched[k];
            && claim.row in catalog && PriceMatchLaws.OnList(result.matched, claim.row)
            && claim.rows == ClaimsOn(Judge(r, catalog), guide, |guide|, claim.row.id) && claim.rows != []
  {
    PriceMatchLaws.ListHolds(r, guide, catalog, result, Matched, k);
  }

  /** The first row of a match, however its rows are ordered, has the match's price. */
  lemma OnePrice(r: Rules, guide: seq<GuideRow>, catalog: seq<CatalogRow>, result: MatchResult, k: nat,
      rows: seq<GuideRow>)
    requires IsMatch(r, guide, catalog, result) && k < |result.matched|
    requires rows != [] && multiset(rows) == multiset(result.matched[k].rows)
    ensures result.matched[k].rows != [] && rows[0].price == result.matched[k].rows[0].price
  {
    var claim := result.matched[k];
    PriceMatchLaws.SameMembers(rows, claim.rows, rows[0]);
    var i :| 0 <= i < |claim.rows| && claim.rows[i] == rows[0];
    assert claim in result.matched + result.suffixRule + result.baseCode;
    PriceMatchLaws.MatchesHaveOnePrice(r, guide, catalog, result, claim, i);
  }

  /** What an apply leaves on a laptop does not depend on the order of the guide's rows, or of the catalog's. */
  lemma AnApplyIgnoresOrder(r: Rules, guide: seq<GuideRow>, guide': seq<GuideRow>, catalog: seq<CatalogRow>,
      catalog': seq<CatalogRow>, result: MatchResult, result': MatchResult, b: Book, run: Run, id: nat)
    requires multiset(guide) == multiset(guide') && multiset(catalog) == multiset(catalog')
             && DistinctIds(catalog) && DistinctIds(catalog')
    requires IsMatch(r, guide, catalog, result) && IsMatch(r, guide', catalog', result')
    requires Ids(catalog) <= b.laptops.Keys && Ids(catalog') <= b.laptops.Keys && id in b.laptops
    ensures Quotable(b.laptops, QuotesOf(result.matched)) && Quotable(b.laptops, QuotesOf(result'.matched))
    ensures Applied(b, QuotesOf(result.matched), |result.matched|, run).laptops[id] ==
            Applied(b, QuotesOf(result'.matched), |result'.matched|, run).laptops[id]
  {
    MatchesCanBeApplied(r, guide, catalog, result, b.laptops);
    MatchesCanBeApplied(r, guide', catalog', result', b.laptops);
    var quotes, quotes' := QuotesOf(result.matched), QuotesOf(result'.matched);
    if k :| 0 <= k < |quotes| && quotes[k].laptop == id {
      var l := QuoteIgnoresOrder(r, guide, guide', catalog, catalog', result, result', k);
      AppliedOn(b, quotes, |quotes|, run, k);
      AppliedOn(b, quotes', |quotes'|, run, l);
    } else {
      UntouchedSoFar(b, quotes, |quotes|, run, id);
      if l :| 0 <= l < |quotes'| && quotes'[l].laptop == id {
        var k := QuoteIgnoresOrder(r, guide', guide, catalog', catalog, result', result, l);
        assert false;
      } else {
        UntouchedSoFar(b, quotes', |quotes'|, run, id);
      }
    }
  }
}
