/**
 What `match` of app/laptops/price_guide.py promises about every guide and every catalog.
 */
module PriceMatchLaws {
  import opened Common
  import opened PriceMatch
  import SkuKeys

  // --- Every row and every laptop goes to one place ---------------------------------------------

  function IsClaiming(judge: GuideRow -> Verdict): GuideRow -> bool {
    (g: GuideRow) => judge(g).Claims?
  }

  /** The three lists and the claiming rows together are the guide, row for row. */
  lemma {:induction false} EveryRowIsCountedOnce(judge: GuideRow -> Verdict, guide: seq<GuideRow>, n: nat)
    requires n <= |guide|
    ensures |Where(guide, IsUnpriced(judge), n)| + |Where(guide, IsUnmatched(judge), n)| + |Doubts(judge, guide, n)|
            + |Where(guide, IsClaiming(judge), n)| == n
  {
    if n == 0 {
    } else {
      var m := n - 1;
      EveryRowIsCountedOnce(judge, guide, m);
      OneMoreRow(guide, IsUnpriced(judge), m);
      OneMoreRow(guide, IsUnmatched(judge), m);
      OneMoreRow(guide, IsClaiming(judge), m);
      assert |Doubts(judge, guide, n)| == |Doubts(judge, guide, m)| + if judge(guide[m]).Ambiguous? then 1 else 0;
    }
  }

  lemma OneMoreRow<T>(s: seq<T>, p: T -> bool, m: nat)
    requires m < |s|
    ensures s[..m + 1] == s[..m] + [s[m]]
    ensures Where(s, p, m + 1) == if p(s[m]) then Where(s, p, m) + [s[m]] else Where(s, p, m)
  {
  }

  // --- What the claim lists hold ------------------------------------------------------------------

  ghost predicate NoRepeats(order: seq<nat>) {
    forall i, j :: 0 <= i < j < |order| ==> order[i] != order[j]
  }

  lemma {:induction false} ExtendedHolds(order: seq<nat>, laptops: seq<CatalogRow>, n: nat, id: nat)
    requires n <= |laptops| && NoRepeats(order)
    ensures NoRepeats(Extended(order, laptops, n))
    ensures id in Extended(order, laptops, n) <==> id in order || Among(laptops, n, id)
  {
    if n == 0 {
    } else {
      var m := n - 1;
      ExtendedHolds(order, laptops, m, id);
      assert Among(laptops, n, id) <==> Among(laptops, m, id) || laptops[m].id == id;
    }
  }

  /** The first claims name each claimed laptop once. */
  lemma {:induction false} FirstClaimedHolds(judge: GuideRow -> Verdict, guide: seq<GuideRow>, n: nat, id: nat)
    requires n <= |guide|
    ensures NoRepeats(FirstClaimed(judge, guide, n))
    ensures id in FirstClaimed(judge, guide, n) <==> ClaimsOn(judge, guide, n, id) != []
  {
    if n == 0 {
    } else {
      var m := n - 1;
      FirstClaimedHolds(judge, guide, m, id);
      var v := judge(guide[m]);
      if v.Claims? {
        ExtendedHolds(FirstClaimed(judge, guide, m), v.laptops, |v.laptops|, id);
        assert Claiming(v, id) <==> Among(v.laptops, |v.laptops|, id);
      }
    }
  }

  /** Every claim on the list is that of a laptop of the order, and in the class. */
  ghost predicate ClaimsAreOf(r: Rules, catalog: seq<CatalogRow>, judge: GuideRow -> Verdict, guide: seq<GuideRow>,
      class_: Class, order: seq<nat>, list: seq<Claim>) {
    forall k :: 0 <= k < |list| ==>
      && list[k].row in catalog && list[k].row.id in order && list[k] == ClaimOf(judge, guide, list[k].row)
      && ClassOf(r, list[k].row, list[k].rows) == class_
  }

  ghost predicate DistinctLaptops(list: seq<Claim>) {
    forall k, l :: 0 <= k < l < |list| ==> list[k].row.id != list[l].row.id
  }

  lemma {:induction false} ClaimListHolds(r: Rules, catalog: seq<CatalogRow>, judge: GuideRow -> Verdict,
      guide: seq<GuideRow>, class_: Class, order: seq<nat>, n: nat)
    requires n <= |order| && AllHeld(catalog, order) && NoRepeats(order)
    ensures var list := ClaimList(r, catalog, judge, guide, class_, order, n);
            ClaimsAreOf(r, catalog, judge, guide, class_, order[..n], list) && DistinctLaptops(list)
  {
    if n == 0 {
    } else {
      var m := n - 1;
      ClaimListHolds(r, catalog, judge, guide, class_, order, m);
      var list, claim := ClaimList(r, catalog, judge, guide, class_, order, m),
                         ClaimOf(judge, guide, RowWithId(catalog, order[m]));
      assert order[..n] == order[..m] + [claim.row.id];
      assert claim.row.id !in order[..m];
      LongerOrder(r, catalog, judge, guide, class_, order[..m], list, claim.row.id);
      if ClassOf(r, claim.row, claim.rows) == class_ {
        OneMoreClaim(r, catalog, judge, guide, class_, order[..m], list, claim);
        assert ClaimList(r, catalog, judge, guide, class_, order, n) == list + [claim];
      } else {
        assert ClaimList(r, catalog, judge, guide, class_, order, n) == list;
      }
    }
  }

  lemma LongerOrder(r: Rules, catalog: seq<CatalogRow>, judge: GuideRow -> Verdict, guide: seq<GuideRow>,
      class_: Class, order: seq<nat>, list: seq<Claim>, id: nat)
    requires ClaimsAreOf(r, catalog, judge, guide, class_, order, list)
    ensures ClaimsAreOf(r, catalog, judge, guide, class_, order + [id], list)
  {
  }

  lemma OneMoreClaim(r: Rules, catalog: seq<CatalogRow>, judge: GuideRow -> Verdict, guide: seq<GuideRow>,
      class_: Class, order: seq<nat>, list: seq<Claim>, claim: Claim)
    requires ClaimsAreOf(r, catalog, judge, guide, class_, order, list) && DistinctLaptops(list)
    requires claim.row in catalog && claim.row.id !in order && claim == ClaimOf(judge, guide, claim.row)
    requires ClassOf(r, claim.row, claim.rows) == class_
    ensures ClaimsAreOf(r, catalog, judge, guide, class_, order + [claim.row.id], list + [claim])
    ensures DistinctLaptops(list + [claim])
  {
  }

  lemma {:induction false} ClaimListIsFull(r: Rules, catalog: seq<CatalogRow>, judge: GuideRow -> Verdict,
      guide: seq<GuideRow>, class_: Class, order: seq<nat>, n: nat, i: nat)
    requires i < n <= |order| && AllHeld(catalog, order)
    requires var claim := ClaimOf(judge, guide, RowWithId(catalog, order[i]));
             ClassOf(r, claim.row, claim.rows) == class_
    ensures ClaimOf(judge, guide, RowWithId(catalog, order[i])) in ClaimList(r, catalog, judge, guide, class_, order, n)
  {
    if i < n - 1 {
      ClaimListIsFull(r, catalog, judge, guide, class_, order, n - 1, i);
    } else {
    }
  }

  ghost function ListFor(result: MatchResult, class_: Class): seq<Claim> {
    match class_
    case Conflict => result.conflict
    case SuffixRule => result.suffixRule
    case BaseCode => result.baseCode
    case Matched => result.matched
  }

  ghost predicate OnList(list: seq<Claim>, c: CatalogRow) {
    exists k :: 0 <= k < |list| && list[k].row == c
  }

  /** Each list holds its own claims, of laptops that belong to it. */
  lemma ListHolds(r: Rules, guide: seq<GuideRow>, catalog: seq<CatalogRow>, result: MatchResult, class_: Class, k: nat)
    requires IsMatch(r, guide, catalog, result) && k < |ListFor(result, class_)|
    ensures DistinctLaptops(ListFor(result, class_))
    ensures var claim := ListFor(result, class_)[k];
            claim == ClaimOf(Judge(r, catalog), guide, claim.row)
            && Belongs(r, catalog, Judge(r, catalog), guide, class_, claim.row)
  {
    var judge, claim := Judge(r, catalog), ListFor(result, class_)[k];
    var order := FirstClaimed(judge, guide, |guide|);
    FirstClaimedHolds(judge, guide, |guide|, claim.row.id);
    ClaimListHolds(r, catalog, judge, guide, class_, order, |order|);
    assert order[..|order|] == order;
  }

  /** The claims that are not in conflict. */
  ghost predicate IsAgreed(result: MatchResult, claim: Claim) {
    claim in result.matched + result.suffixRule + result.baseCode
  }

  lemma AgreedMeansNoConflict(r: Rules, guide: seq<GuideRow>, catalog: seq<CatalogRow>, result: MatchResult,
      claim: Claim)
    requires IsMatch(r, guide, catalog, result) && IsAgreed(result, claim)
    ensures claim.rows == ClaimsOn(Judge(r, catalog), guide, |guide|, claim.row.id)
    ensures ClassOf(r, claim.row, claim.rows) != Conflict
  {
    if k :| 0 <= k < |result.matched| && result.matched[k] == claim {
      ListHolds(r, guide, catalog, result, Matched, k);
    } else if k :| 0 <= k < |result.suffixRule| && result.suffixRule[k] == claim {
      ListHolds(r, guide, catalog, result, SuffixRule, k);
    } else {
      var k :| 0 <= k < |result.baseCode| && result.baseCode[k] == claim;
      ListHolds(r, guide, catalog, result, BaseCode, k);
    }
  }

  lemma OnListIffBelongs(r: Rules, guide: seq<GuideRow>, catalog: seq<CatalogRow>, result: MatchResult, class_: Class,
      c: CatalogRow)
    requires IsMatch(r, guide, catalog, result) && c in catalog
    ensures OnList(ListFor(result, class_), c) <==> Belongs(r, catalog, Judge(r, catalog), guide, class_, c)
  {
    var judge, list := Judge(r, catalog), ListFor(result, class_);
    var order := FirstClaimed(judge, guide, |guide|);
    if k :| 0 <= k < |list| && list[k].row == c {
      ListHolds(r, guide, catalog, result, class_, k);
    }
    if Belongs(r, catalog, judge, guide, class_, c) {
      FirstClaimedHolds(judge, guide, |guide|, c.id);
      var i :| 0 <= i < |order| && order[i] == c.id;
      SameRow(catalog, RowWithId(catalog, order[i]), c);
      ClaimListIsFull(r, catalog, judge, guide, class_, order, |order|, i);
      var k :| 0 <= k < |list| && list[k] == ClaimOf(judge, guide, c);
    }
  }

  /**
   A claimed laptop is on the one list of its class and no other; an unclaimed one is on none,
   and is reported uncovered unless an ambiguous row names it.
   */
  lemma EveryLaptopGoesToOneList(r: Rules, guide: seq<GuideRow>, catalog: seq<CatalogRow>, result: MatchResult,
      c: CatalogRow)
    requires IsMatch(r, guide, catalog, result) && c in catalog
    ensures var rows := ClaimsOn(Judge(r, catalog), guide, |guide|, c.id);
            && (OnList(result.conflict, c) <==> rows != [] && ClassOf(r, c, rows) == Conflict)
            && (OnList(result.suffixRule, c) <==> rows != [] && ClassOf(r, c, rows) == SuffixRule)
            && (OnList(result.baseCode, c) <==> rows != [] && ClassOf(r, c, rows) == BaseCode)
            && (OnList(result.matched, c) <==> rows != [] && ClassOf(r, c, rows) == Matched)
            && (c in result.uncovered <==> rows == [] && !InDoubt(Judge(r, catalog), guide, |guide|, c.id))
  {
    OnListIffBelongs(r, guide, catalog, result, Conflict, c);
    OnListIffBelongs(r, guide, catalog, result, SuffixRule, c);
    OnListIffBelongs(r, guide, catalog, result, BaseCode, c);
    OnListIffBelongs(r, guide, catalog, result, Matched, c);
    AllHolds(catalog, IsUncovered(Judge(r, catalog), guide), c);
  }

  /** A claiming row is priced, and claims a laptop. */
  lemma ClaimersArePriced(r: Rules, catalog: seq<CatalogRow>, guide: seq<GuideRow>, id: nat, g: GuideRow)
    requires g in ClaimsOn(Judge(r, catalog), guide, |guide|, id)
    ensures g in guide && g.price.Some? && Claiming(VerdictOf(r, catalog, g), id)
  {
    AllHolds(guide, Claimers(Judge(r, catalog), id), g);
  }

  // --- What a match means ------------------------------------------------------------------------

  /** All guide rows of a match agree on one price; so do those waiting for an admin. */
  lemma MatchesHaveOnePrice(r: Rules, guide: seq<GuideRow>, catalog: seq<CatalogRow>, result: MatchResult, claim: Claim,
      i: nat)
    requires IsMatch(r, guide, catalog, result) && i < |claim.rows|
    requires IsAgreed(result, claim)
    ensures claim.rows[i].price.Some? && claim.rows[i].price == claim.rows[0].price
  {
    AgreedMeansNoConflict(r, guide, catalog, result, claim);
    assert !PricesDiffer(claim.rows);
    ClaimersArePriced(r, catalog, guide, claim.row.id, claim.rows[i]);
  }

  /** A matched laptop and the rows that price it never state different panels. */
  lemma MatchesAgreeOnThePanel(r: Rules, guide: seq<GuideRow>, catalog: seq<CatalogRow>, result: MatchResult,
      claim: Claim, i: nat)
    requires IsMatch(r, guide, catalog, result) && i < |claim.rows|
    requires IsAgreed(result, claim)
    ensures r.panel(claim.row.panel).None? || r.panel(claim.rows[i].panel).None?
            || r.panel(claim.row.panel) == r.panel(claim.rows[i].panel)
  {
    AgreedMeansNoConflict(r, guide, catalog, result, claim);
    assert !PanelsDiffer(r, claim.row, claim.rows);
  }

  /** A laptop with a SKU of its own is claimed, or doubted, only by guide rows with its SKU key. */
  lemma ASkuIsPricedByItsOwnKey(r: Rules, catalog: seq<CatalogRow>, guide: seq<GuideRow>, c: CatalogRow, g: GuideRow)
    requires DistinctIds(catalog) && c in catalog && c.sku.Some?
    requires Claiming(VerdictOf(r, catalog, g), c.id) || Doubting(VerdictOf(r, catalog, g), c.id)
    ensures r.key(g.sku) == r.key(c.sku.value) && VerdictOf(r, catalog, g).Claims?
  {
    var v := VerdictOf(r, catalog, g);
    var rows := if v.Claims? then v.laptops else v.candidates;
    var i :| 0 <= i < |rows| && rows[i].id == c.id;
    VerdictIsFromCatalog(r, catalog, g, rows[i]);
    SameRow(catalog, rows[i], c);
    AllHolds(catalog, KeyIs(r, r.key(g.sku)), c);
    assert c in WithKey(r, catalog, r.key(g.sku));
  }

  /** Every priced row claims every laptop of its SKU key, so two of them at two prices are a conflict. */
  lemma TwoPricesConflict(r: Rules, guide: seq<GuideRow>, catalog: seq<CatalogRow>, result: MatchResult, c: CatalogRow,
      g: GuideRow, h: GuideRow)
    requires IsMatch(r, guide, catalog, result) && c in catalog && c.sku.Some? && g in guide && h in guide
    requires r.key(g.sku) == r.key(h.sku) == r.key(c.sku.value)
    requires g.price.Some? && h.price.Some? && g.price != h.price
    ensures OnList(result.conflict, c)
  {
    var judge := Judge(r, catalog);
    var rows := ClaimsOn(judge, guide, |guide|, c.id);
    KeyClaims(r, guide, catalog, c, g);
    KeyClaims(r, guide, catalog, c, h);
    var i :| 0 <= i < |rows| && rows[i] == g;
    var j :| 0 <= j < |rows| && rows[j] == h;
    assert PricesDiffer(rows);
    EveryLaptopGoesToOneList(r, guide, catalog, result, c);
  }

  lemma KeyClaims(r: Rules, guide: seq<GuideRow>, catalog: seq<CatalogRow>, c: CatalogRow, g: GuideRow)
    requires c in catalog && c.sku.Some? && g in guide && r.key(g.sku) == r.key(c.sku.value) && g.price.Some?
    ensures g in ClaimsOn(Judge(r, catalog), guide, |guide|, c.id)
  {
    AllHolds(catalog, KeyIs(r, r.key(g.sku)), c);
    var v := VerdictOf(r, catalog, g);
    assert v.Claims? && c in v.laptops;
    var i :| 0 <= i < |v.laptops| && v.laptops[i] == c;
    assert Holds(v.laptops, c.id);
    AllHolds(guide, Claimers(Judge(r, catalog), c.id), g);
  }

  // --- Order does not matter -----------------------------------------------------------------------

  lemma {:induction false} CountWhere<T>(s: seq<T>, p: T -> bool, n: nat, x: T)
    requires n <= |s|
    ensures multiset(Where(s, p, n))[x] == if p(x) then multiset(s[..n])[x] else 0
  {
    if n == 0 {
    } else {
      var m := n - 1;
      CountWhere(s, p, m, x);
      OneMoreRow(s, p, m);
      CountOfMore(s[..m], s[m], x);
      if p(s[m]) {
        CountOfMore(Where(s, p, m), s[m], x);
      }
    }
  }

  /** Selecting from a reordered list selects the same elements. */
  lemma SelectionIgnoresOrder<T(!new)>(s: seq<T>, s': seq<T>, p: T -> bool)
    requires multiset(s) == multiset(s')
    ensures multiset(All(s, p)) == multiset(All(s', p)) && |All(s, p)| == |All(s', p)|
  {
    assert s[..|s|] == s && s'[..|s'|] == s';
    forall x
      ensures multiset(All(s, p))[x] == multiset(All(s', p))[x]
    {
      CountWhere(s, p, |s|, x);
      CountWhere(s', p, |s'|, x);
    }
    assert multiset(All(s, p)) == multiset(All(s', p));
    assert |multiset(All(s, p))| == |All(s, p)| && |multiset(All(s', p))| == |All(s', p)|;
  }

  lemma SameMembers<T>(s: seq<T>, s': seq<T>, x: T)
    requires multiset(s) == multiset(s')
    ensures x in s <==> x in s'
  {
    assert x in multiset(s) <==> x in multiset(s');
  }

  /** The two verdicts are one, up to the order in which they list laptops. */
  ghost predicate SameVerdict(v: Verdict, v': Verdict) {
    match v
    case Unpriced => v'.Unpriced?
    case Unmatched => v'.Unmatched?
    case Ambiguous(cs) => v'.Ambiguous? && multiset(cs) == multiset(v'.candidates)
    case Claims(cs) => v'.Claims? && multiset(cs) == multiset(v'.laptops)
  }

  lemma NamedIgnoresOrder(r: Rules, g: GuideRow, rows: seq<CatalogRow>, rows': seq<CatalogRow>)
    requires multiset(rows) == multiset(rows')
    ensures multiset(Named(r, g, rows)) == multiset(Named(r, g, rows'))
  {
    SelectionIgnoresOrder(rows, rows', (c: CatalogRow) => r.names(c, g.model));
    if r.base(g.model).Some? {
      SelectionIgnoresOrder(rows, rows', (c: CatalogRow) => r.names(c, r.base(g.model).value));
    }
  }

  lemma VerdictIgnoresCatalogOrder(r: Rules, catalog: seq<CatalogRow>, catalog': seq<CatalogRow>, g: GuideRow)
    requires multiset(catalog) == multiset(catalog')
    ensures SameVerdict(VerdictOf(r, catalog, g), VerdictOf(r, catalog', g))
  {
    var none, none' := All(catalog, Lacks), All(catalog', Lacks);
    SelectionIgnoresOrder(catalog, catalog', KeyIs(r, r.key(g.sku)));
    SelectionIgnoresOrder(catalog, catalog', Lacks);
    NamedIgnoresOrder(r, g, none, none');
    SelectionIgnoresOrder(Named(r, g, none), Named(r, g, none'), (c: CatalogRow) => Fits(r, g, c));
  }

  lemma HoldsIgnoresOrder(rows: seq<CatalogRow>, rows': seq<CatalogRow>, id: nat)
    requires multiset(rows) == multiset(rows') && Holds(rows, id)
    ensures Holds(rows', id)
  {
    var i :| 0 <= i < |rows| && rows[i].id == id;
    SameMembers(rows, rows', rows[i]);
  }

  lemma ClaimingIgnoresOrder(v: Verdict, v': Verdict, id: nat)
    requires SameVerdict(v, v')
    ensures (Claiming(v, id) <==> Claiming(v', id)) && (Doubting(v, id) <==> Doubting(v', id))
  {
    var rows := if v.Claims? then v.laptops else if v.Ambiguous? then v.candidates else [];
    var rows' := if v'.Claims? then v'.laptops else if v'.Ambiguous? then v'.candidates else [];
    if Holds(rows, id) {
      HoldsIgnoresOrder(rows, rows', id);
    }
    if Holds(rows', id) {
      HoldsIgnoresOrder(rows', rows, id);
    }
  }

  lemma {:induction false} WhereAgrees<T>(s: seq<T>, p: T -> bool, q: T -> bool, n: nat)
    requires n <= |s| && forall i :: 0 <= i < n ==> p(s[i]) == q(s[i])
    ensures Where(s, p, n) == Where(s, q, n)
  {
    if n == 0 {
    } else {
      WhereAgrees(s, p, q, n - 1);
    }
  }

  lemma ClaimsIgnoreOrder(r: Rules, guide: seq<GuideRow>, guide': seq<GuideRow>, catalog: seq<CatalogRow>,
      catalog': seq<CatalogRow>, id: nat)
    requires multiset(guide) == multiset(guide') && multiset(catalog) == multiset(catalog')
    ensures multiset(ClaimsOn(Judge(r, catalog), guide, |guide|, id)) ==
            multiset(ClaimsOn(Judge(r, catalog'), guide', |guide'|, id))
  {
    var p, q := Claimers(Judge(r, catalog), id), Claimers(Judge(r, catalog'), id);
    forall i | 0 <= i < |guide|
      ensures p(guide[i]) == q(guide[i])
    {
      VerdictIgnoresCatalogOrder(r, catalog, catalog', guide[i]);
      ClaimingIgnoresOrder(VerdictOf(r, catalog, guide[i]), VerdictOf(r, catalog', guide[i]), id);
    }
    WhereAgrees(guide, p, q, |guide|);
    SelectionIgnoresOrder(guide, guide', q);
  }

  lemma DoubtIgnoresOrder(r: Rules, guide: seq<GuideRow>, guide': seq<GuideRow>, catalog: seq<CatalogRow>,
      catalog': seq<CatalogRow>, id: nat)
    requires multiset(guide) == multiset(guide') && multiset(catalog) == multiset(catalog')
    requires InDoubt(Judge(r, catalog), guide, |guide|, id)
    ensures InDoubt(Judge(r, catalog'), guide', |guide'|, id)
  {
    var i :| 0 <= i < |guide| && Doubting(VerdictOf(r, catalog, guide[i]), id);
    VerdictIgnoresCatalogOrder(r, catalog, catalog', guide[i]);
    ClaimingIgnoresOrder(VerdictOf(r, catalog, guide[i]), VerdictOf(r, catalog', guide[i]), id);
    SameMembers(guide, guide', guide[i]);
    var j :| 0 <= j < |guide'| && guide'[j] == guide[i];
    assert Doubting(Judge(r, catalog')(guide'[j]), id);
  }

  lemma PricesIgnoreOrder(rows: seq<GuideRow>, rows': seq<GuideRow>)
    requires multiset(rows) == multiset(rows') && PricesDiffer(rows)
    ensures PricesDiffer(rows')
  {
    var i, j :| 0 <= i < |rows| && 0 <= j < |rows| && rows[i].price != rows[j].price;
    SameMembers(rows, rows', rows[i]);
    SameMembers(rows, rows', rows[j]);
  }

  lemma PanelsIgnoreOrder(r: Rules, c: CatalogRow, rows: seq<GuideRow>, rows': seq<GuideRow>)
    requires multiset(rows) == multiset(rows') && PanelsDiffer(r, c, rows)
    ensures PanelsDiffer(r, c, rows')
  {
    var i :| 0 <= i < |rows| && r.panel(rows[i].panel).Some? && r.panel(rows[i].panel) != r.panel(c.panel);
    SameMembers(rows, rows', rows[i]);
  }

  lemma NeedsIgnoreOrder(r: Rules, c: CatalogRow, rows: seq<GuideRow>, rows': seq<GuideRow>)
    requires multiset(rows) == multiset(rows')
    ensures NeedsSuffixRule(r, c, rows) ==> NeedsSuffixRule(r, c, rows')
    ensures NeedsBaseCode(r, c, rows) ==> NeedsBaseCode(r, c, rows')
  {
    forall i | 0 <= i < |rows'|
      ensures rows'[i] in rows
    {
      SameMembers(rows, rows', rows'[i]);
    }
  }

  lemma ClassIgnoresOrder(r: Rules, c: CatalogRow, rows: seq<GuideRow>, rows': seq<GuideRow>)
    requires multiset(rows) == multiset(rows')
    ensures ClassOf(r, c, rows) == ClassOf(r, c, rows')
  {
    if PricesDiffer(rows) {
      PricesIgnoreOrder(rows, rows');
    }
    if PricesDiffer(rows') {
      PricesIgnoreOrder(rows', rows);
    }
    if PanelsDiffer(r, c, rows) {
      PanelsIgnoreOrder(r, c, rows, rows');
    }
    if PanelsDiffer(r, c, rows') {
      PanelsIgnoreOrder(r, c, rows', rows);
    }
    NeedsIgnoreOrder(r, c, rows, rows');
    NeedsIgnoreOrder(r, c, rows', rows);
  }

  /** Reordering the guide's rows, or the catalog's, moves no laptop from one list to another. */
  lemma MatchIgnoresOrder(r: Rules, guide: seq<GuideRow>, guide': seq<GuideRow>, catalog: seq<CatalogRow>,
      catalog': seq<CatalogRow>, result: MatchResult, result': MatchResult, c: CatalogRow)
    requires multiset(guide) == multiset(guide') && multiset(catalog) == multiset(catalog') && c in catalog
    requires IsMatch(r, guide, catalog, result) && IsMatch(r, guide', catalog', result')
    ensures OnList(result.matched, c) <==> OnList(result'.matched, c)
    ensures OnList(result.conflict, c) <==> OnList(result'.conflict, c)
    ensures OnList(result.suffixRule, c) <==> OnList(result'.suffixRule, c)
    ensures OnList(result.baseCode, c) <==> OnList(result'.baseCode, c)
    ensures c in result.uncovered <==> c in result'.uncovered
  {
    SameMembers(catalog, catalog', c);
    EveryLaptopGoesToOneList(r, guide, catalog, result, c);
    EveryLaptopGoesToOneList(r, guide', catalog', result', c);
    ClaimsIgnoreOrder(r, guide, guide', catalog, catalog', c.id);
    var rows := ClaimsOn(Judge(r, catalog), guide, |guide|, c.id);
    var rows' := ClaimsOn(Judge(r, catalog'), guide', |guide'|, c.id);
    assert |multiset(rows)| == |rows| && |multiset(rows')| == |rows'|;
    ClassIgnoresOrder(r, c, rows, rows');
    if InDoubt(Judge(r, catalog), guide, |guide|, c.id) {
      DoubtIgnoresOrder(r, guide, guide', catalog, catalog', c.id);
    }
    if InDoubt(Judge(r, catalog'), guide', |guide'|, c.id) {
      DoubtIgnoresOrder(r, guide', guide, catalog', catalog, c.id);
    }
  }

  // --- The suffix rule ----------------------------------------------------------------------------

  ghost predicate KeysAreSkuKeys(r: Rules) {
    forall s :: r.key(s) == SkuKeys.SkuKey(r.canon(s))
  }

  /**
   A claimed laptop with a SKU waits under the suffix rule exactly when nothing about its rows
   conflicts and each of them prints its SKU with the other ending, -WP for -W or -W for -WP;
   it is matched exactly when, again without a conflict, some row prints its SKU as it is.
   */
  lemma SuffixRuleIffEveryRowDiffersByP(r: Rules, guide: seq<GuideRow>, catalog: seq<CatalogRow>, result: MatchResult,
      c: CatalogRow)
    requires KeysAreSkuKeys(r) && DistinctIds(catalog) && IsMatch(r, guide, catalog, result)
    requires c in catalog && c.sku.Some?
    ensures var rows := ClaimsOn(Judge(r, catalog), guide, |guide|, c.id);
            var agreed := rows != [] && ClassOf(r, c, rows) != Conflict;
            && (OnList(result.suffixRule, c) <==>
                  agreed && forall i :: 0 <= i < |rows| ==>
                    SkuKeys.DifferByFinalP(r.canon(rows[i].sku), r.canon(c.sku.value)))
            && (OnList(result.matched, c) <==>
                  agreed && exists i :: 0 <= i < |rows| && r.canon(rows[i].sku) == r.canon(c.sku.value))
            && !OnList(result.baseCode, c)
  {
    var judge := Judge(r, catalog);
    var rows := ClaimsOn(judge, guide, |guide|, c.id);
    EveryLaptopGoesToOneList(r, guide, catalog, result, c);
    forall i | 0 <= i < |rows|
      ensures r.canon(rows[i].sku) != r.canon(c.sku.value) <==>
                SkuKeys.DifferByFinalP(r.canon(rows[i].sku), r.canon(c.sku.value))
      ensures r.canon(c.sku.value) == "" ==> r.canon(rows[i].sku) == ""
    {
      ClaimersArePriced(r, catalog, guide, c.id, rows[i]);
      ASkuIsPricedByItsOwnKey(r, catalog, guide, c, rows[i]);
      SkuKeys.OnlyWAndWpReadAsOne(r.canon(rows[i].sku), r.canon(c.sku.value));
      if SkuKeys.DifferByFinalP(r.canon(rows[i].sku), r.canon(c.sku.value)) {
        SkuKeys.DifferentMeansNotBlank(r.canon(rows[i].sku), r.canon(c.sku.value));
      }
    }
    if r.canon(c.sku.value) == "" && rows != [] {
      assert r.canon(rows[0].sku) == r.canon(c.sku.value);
    }
  }
}

/** The SKU rule on text that is already stripped and upper-cased. */
module SkuKeys {
  function SkuKey(canon: string): string {
    if |canon| >= 2 && canon[|canon| - 2] == 'W' && canon[|canon| - 1] == 'P' then canon[..|canon| - 1] else canon
  }

  /** One of them is the other with a P after its final W. */
  predicate DifferByFinalP(a: string, b: string) {
    || (a != [] && a[|a| - 1] == 'W' && b == a + "P")
    || (b != [] && b[|b| - 1] == 'W' && a == b + "P")
  }

  lemma DifferentMeansNotBlank(a: string, b: string)
    requires DifferByFinalP(a, b)
    ensures a != b && a != "" && b != ""
  {
    assert |a| != |b|;
  }

  /** Two SKUs share a key exactly when they are equal or differ by a P after a final W. */
  lemma OnlyWAndWpReadAsOne(a: string, b: string)
    ensures SkuKey(a) == SkuKey(b) <==> a == b || DifferByFinalP(a, b)
  {
    if SkuKey(a) == SkuKey(b) && a != b {
      if |a| < |b| {
        assert b == SkuKey(b) + "P";
      } else {
        assert a == SkuKey(a) + "P";
      }
    }
  }
}
