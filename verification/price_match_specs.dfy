/**
 Which laptops without a SKU a guide row may price, stated of the rows and laptops themselves:
 the specification path of app/laptops/price_guide.py.
 */
module PriceMatchSpecs {
  import opened Common
  import opened PriceMatch
  import opened PriceMatchLaws

  // --- One row --------------------------------------------------------------------------------

  /** The row states a CPU, its RAM and its storage, and the laptop has just these. */
  predicate SameSpecs(r: Rules, g: GuideRow, c: CatalogRow) {
    && r.part(g.cpu).Some? && r.part(c.cpu) == r.part(g.cpu)
    && g.ram.Some? && c.ram == g.ram
    && g.ssd.Some? && c.ssd == g.ssd
  }

  /** Some laptop without a SKU names the row's full model code. */
  predicate FullCodeIsNamed(r: Rules, catalog: seq<CatalogRow>, g: GuideRow) {
    exists i :: 0 <= i < |catalog| && catalog[i].sku.None? && r.names(catalog[i], g.model)
  }

  /** The laptop names the full code, or, when no laptop without a SKU does, the base code. */
  predicate NamesTheCode(r: Rules, catalog: seq<CatalogRow>, g: GuideRow, c: CatalogRow) {
    if FullCodeIsNamed(r, catalog, g) then r.names(c, g.model)
    else r.base(g.model).Some? && r.names(c, r.base(g.model).value)
  }

  /** A laptop without a SKU that the row may price: same machine by every rule there is. */
  predicate IsSpecMatch(r: Rules, catalog: seq<CatalogRow>, g: GuideRow, c: CatalogRow) {
    && c in catalog && c.sku.None?
    && SameSpecs(r, g, c) && r.letterFits(g, c) && NamesTheCode(r, catalog, g, c)
  }

  lemma CandidatesAreSpecMatches(r: Rules, catalog: seq<CatalogRow>, g: GuideRow, c: CatalogRow)
    ensures c in SpecCandidates(r, g, All(catalog, Lacks)) <==> IsSpecMatch(r, catalog, g, c)
  {
    var noSku := All(catalog, Lacks);
    AllHolds(catalog, Lacks, c);
    NamedAreThose(r, catalog, g, c);
    AllHolds(Named(r, g, noSku), (d: CatalogRow) => Fits(r, g, d), c);
  }

  lemma NamedAreThose(r: Rules, catalog: seq<CatalogRow>, g: GuideRow, c: CatalogRow)
    ensures c in Named(r, g, All(catalog, Lacks)) <==> c in catalog && c.sku.None? && NamesTheCode(r, catalog, g, c)
  {
    var noSku := All(catalog, Lacks);
    var full := All(noSku, (d: CatalogRow) => r.names(d, g.model));
    AllHolds(catalog, Lacks, c);
    AllHolds(noSku, (d: CatalogRow) => r.names(d, g.model), c);
    FullCodeIff(r, catalog, g);
    if full == [] && r.base(g.model).Some? {
      AllHolds(noSku, (d: CatalogRow) => r.names(d, r.base(g.model).value), c);
    }
  }

  lemma FullCodeIff(r: Rules, catalog: seq<CatalogRow>, g: GuideRow)
    ensures FullCodeIsNamed(r, catalog, g) <==> All(All(catalog, Lacks), (d: CatalogRow) => r.names(d, g.model)) != []
  {
    var noSku := All(catalog, Lacks);
    var full := All(noSku, (d: CatalogRow) => r.names(d, g.model));
    if full != [] {
      AllHolds(noSku, (d: CatalogRow) => r.names(d, g.model), full[0]);
      AllHolds(catalog, Lacks, full[0]);
    }
    if i :| 0 <= i < |catalog| && catalog[i].sku.None? && r.names(catalog[i], g.model) {
      AllHolds(catalog, Lacks, catalog[i]);
      AllHolds(noSku, (d: CatalogRow) => r.names(d, g.model), catalog[i]);
    }
  }

  /** Some laptop carries the row's SKU, as far as keys tell. */
  predicate SkuIsCarried(r: Rules, catalog: seq<CatalogRow>, g: GuideRow) {
    exists i :: 0 <= i < |catalog| && catalog[i].sku.Some? && r.key(catalog[i].sku.value) == r.key(g.sku)
  }

  lemma CarriersAre(r: Rules, catalog: seq<CatalogRow>, g: GuideRow)
    ensures SkuIsCarried(r, catalog, g) <==> WithKey(r, catalog, r.key(g.sku)) != []
  {
    var hits := WithKey(r, catalog, r.key(g.sku));
    if hits != [] {
      AllHolds(catalog, KeyIs(r, r.key(g.sku)), hits[0]);
    }
    if i :| 0 <= i < |catalog| && catalog[i].sku.Some? && r.key(catalog[i].sku.value) == r.key(g.sku) {
      AllHolds(catalog, KeyIs(r, r.key(g.sku)), catalog[i]);
    }
  }

  /**
   A row without a price says nothing. A priced one whose SKU some laptop carries claims exactly
   those laptops, and no laptop by its specification.
   */
  lemma ASkuClaimsItsCarriers(r: Rules, catalog: seq<CatalogRow>, g: GuideRow)
    ensures g.price.None? <==> VerdictOf(r, catalog, g).Unpriced?
    ensures g.price.Some? && SkuIsCarried(r, catalog, g) ==>
              && VerdictOf(r, catalog, g).Claims?
              && forall c :: c in VerdictOf(r, catalog, g).laptops <==>
                   c in catalog && c.sku.Some? && r.key(c.sku.value) == r.key(g.sku)
  {
    CarriersAre(r, catalog, g);
    if g.price.Some? && SkuIsCarried(r, catalog, g) {
      forall c
        ensures c in VerdictOf(r, catalog, g).laptops <==>
                  c in catalog && c.sku.Some? && r.key(c.sku.value) == r.key(g.sku)
      {
        AllHolds(catalog, KeyIs(r, r.key(g.sku)), c);
      }
    }
  }

  /**
   A priced row whose SKU no laptop carries: it claims the one laptop that matches its
   specification, is ambiguous about several, and is unmatched when there is none.
   */
  lemma SpecsDecideTheRest(r: Rules, catalog: seq<CatalogRow>, g: GuideRow)
    requires DistinctIds(catalog) && g.price.Some? && !SkuIsCarried(r, catalog, g)
    ensures match VerdictOf(r, catalog, g)
            case Unpriced => false
            case Unmatched => forall c :: !IsSpecMatch(r, catalog, g, c)
            case Claims(laptops) => |laptops| == 1 && forall c :: c in laptops <==> IsSpecMatch(r, catalog, g, c)
            case Ambiguous(candidates) =>
              && |candidates| > 1 && DistinctIds(candidates)
              && forall c :: c in candidates <==> IsSpecMatch(r, catalog, g, c)
  {
    CarriersAre(r, catalog, g);
    var candidates := SpecCandidates(r, g, All(catalog, Lacks));
    forall c
      ensures c in candidates <==> IsSpecMatch(r, catalog, g, c)
    {
      CandidatesAreSpecMatches(r, catalog, g, c);
    }
    VerdictHasDistinctIds(r, catalog, g);
  }

  /** A laptop without a SKU that a row claims or is in doubt about matches that row's specification. */
  lemma FoundWithoutASkuIsASpecMatch(r: Rules, catalog: seq<CatalogRow>, g: GuideRow, c: CatalogRow)
    requires DistinctIds(catalog) && c in catalog && c.sku.None?
    requires Claiming(VerdictOf(r, catalog, g), c.id) || Doubting(VerdictOf(r, catalog, g), c.id)
    ensures IsSpecMatch(r, catalog, g, c) && !SkuIsCarried(r, catalog, g)
  {
    var v := VerdictOf(r, catalog, g);
    var rows := if v.Claims? then v.laptops else v.candidates;
    var i :| 0 <= i < |rows| && rows[i].id == c.id;
    VerdictIsFromCatalog(r, catalog, g, rows[i]);
    SameRow(catalog, rows[i], c);
    ASkuClaimsItsCarriers(r, catalog, g);
    CarriersAre(r, catalog, g);
    CandidatesAreSpecMatches(r, catalog, g, c);
  }

  // --- A whole match ----------------------------------------------------------------------------

  lemma {:induction false} DoubtsHold(judge: GuideRow -> Verdict, guide: seq<GuideRow>, n: nat, d: Doubt)
    requires n <= |guide|
    ensures d in Doubts(judge, guide, n) <==>
              judge(d.row) == Ambiguous(d.candidates) && exists i :: 0 <= i < n && guide[i] == d.row
  {
    if n == 0 {
    } else {
      DoubtsHold(judge, guide, n - 1, d);
    }
  }

  /** Two laptops have the row's specification. */
  ghost predicate SeveralMatch(r: Rules, catalog: seq<CatalogRow>, g: GuideRow) {
    exists c: CatalogRow, d: CatalogRow ::
      c.id != d.id && IsSpecMatch(r, catalog, g, c) && IsSpecMatch(r, catalog, g, d)
  }

  lemma TheClaimedOneIsTheOnlyOne(r: Rules, catalog: seq<CatalogRow>, g: GuideRow, c: CatalogRow, d: CatalogRow)
    requires DistinctIds(catalog) && g.price.Some? && !SkuIsCarried(r, catalog, g)
    requires !VerdictOf(r, catalog, g).Ambiguous?
    requires IsSpecMatch(r, catalog, g, c) && IsSpecMatch(r, catalog, g, d)
    ensures c.id == d.id
  {
    SpecsDecideTheRest(r, catalog, g);
    var v := VerdictOf(r, catalog, g);
    assert c in v.laptops && d in v.laptops;
  }

  lemma AmbiguousMeansSeveral(r: Rules, catalog: seq<CatalogRow>, g: GuideRow)
    requires DistinctIds(catalog) && g.price.Some? && !SkuIsCarried(r, catalog, g)
    ensures VerdictOf(r, catalog, g).Ambiguous? <==> SeveralMatch(r, catalog, g)
  {
    var v := VerdictOf(r, catalog, g);
    if v.Ambiguous? {
      SpecsDecideTheRest(r, catalog, g);
      assert v.candidates[0] in v.candidates && v.candidates[1] in v.candidates;
      assert v.candidates[0].id != v.candidates[1].id;
    } else {
      forall c, d | IsSpecMatch(r, catalog, g, c) && IsSpecMatch(r, catalog, g, d)
        ensures c.id == d.id
      {
        TheClaimedOneIsTheOnlyOne(r, catalog, g, c, d);
      }
    }
  }

  /**
   Where the guide's rows are reported: without a price, matching no laptop, or matching several;
   and how many rows there are of each kind and of those that claim a laptop.
   */
  lemma EveryRowIsReported(r: Rules, guide: seq<GuideRow>, catalog: seq<CatalogRow>, result: MatchResult, g: GuideRow)
    requires IsMatch(r, guide, catalog, result)
    ensures g in result.unpriced <==> g in guide && g.price.None?
    ensures g in result.unmatched <==>
              && g in guide && g.price.Some? && !SkuIsCarried(r, catalog, g)
              && forall c :: !IsSpecMatch(r, catalog, g, c)
    ensures |result.unpriced| + |result.unmatched| + |result.ambiguous|
            + |All(guide, IsClaiming(Judge(r, catalog)))| == |guide|
  {
    var judge := Judge(r, catalog);
    AllHolds(guide, IsUnpriced(judge), g);
    AllHolds(guide, IsUnmatched(judge), g);
    EveryRowIsCountedOnce(judge, guide, |guide|);
    ASkuClaimsItsCarriers(r, catalog, g);
    if g.price.Some? && !SkuIsCarried(r, catalog, g) {
      SpecsDecideTheRest(r, catalog, g);
      var v := VerdictOf(r, catalog, g);
      if v.Claims? {
        assert IsSpecMatch(r, catalog, g, v.laptops[0]);
      } else if v.Ambiguous? {
        assert IsSpecMatch(r, catalog, g, v.candidates[0]);
      }
    }
  }

  /** A row is reported ambiguous exactly when several laptops match it, and then with just these. */
  lemma EveryDoubtIsReported(r: Rules, guide: seq<GuideRow>, catalog: seq<CatalogRow>, result: MatchResult, g: GuideRow)
    requires IsMatch(r, guide, catalog, result)
    ensures (exists d :: d in result.ambiguous && d.row == g) <==>
              g in guide && g.price.Some? && !SkuIsCarried(r, catalog, g) && SeveralMatch(r, catalog, g)
    ensures forall d :: d in result.ambiguous && d.row == g ==>
              forall c :: c in d.candidates <==> IsSpecMatch(r, catalog, g, c)
  {
    var judge, v := Judge(r, catalog), VerdictOf(r, catalog, g);
    ASkuClaimsItsCarriers(r, catalog, g);
    if g.price.Some? && !SkuIsCarried(r, catalog, g) {
      AmbiguousMeansSeveral(r, catalog, g);
      SpecsDecideTheRest(r, catalog, g);
    }
    forall d | d in result.ambiguous && d.row == g
      ensures g in guide && v == Ambiguous(d.candidates)
    {
      DoubtsHold(judge, guide, |guide|, d);
    }
    if g in guide && v.Ambiguous? {
      DoubtsHold(judge, guide, |guide|, Doubt(g, v.candidates));
      assert Doubt(g, v.candidates) in result.ambiguous;
    }
  }

  /**
   Whatever a match would write, or have confirmed, of a laptop without a SKU: each of its rows is
   of this laptop's CPU, RAM, storage, letter and code. On the list of matches some row names its
   full code, and on the base-code list none does.
   */
  lemma ClaimsWithoutASkuAreSpecMatches(r: Rules, guide: seq<GuideRow>, catalog: seq<CatalogRow>, result: MatchResult,
      class_: Class, k: nat)
    requires IsMatch(r, guide, catalog, result) && k < |ListFor(result, class_)|
    requires ListFor(result, class_)[k].row.sku.None?
    ensures var claim := ListFor(result, class_)[k];
            && claim.rows != []
            && (forall i :: 0 <= i < |claim.rows| ==> IsSpecMatch(r, catalog, claim.rows[i], claim.row))
            && class_ != SuffixRule
            && (class_ == Matched ==> exists i :: 0 <= i < |claim.rows| && r.names(claim.row, claim.rows[i].model))
            && (class_ == BaseCode ==> forall i :: 0 <= i < |claim.rows| ==> !r.names(claim.row, claim.rows[i].model))
  {
    var claim := ListFor(result, class_)[k];
    ListHolds(r, guide, catalog, result, class_, k);
    forall i | 0 <= i < |claim.rows|
      ensures IsSpecMatch(r, catalog, claim.rows[i], claim.row)
    {
      ClaimersArePriced(r, catalog, guide, claim.row.id, claim.rows[i]);
      FoundWithoutASkuIsASpecMatch(r, catalog, claim.rows[i], claim.row);
    }
  }

  lemma PricesDifferIff(rows: seq<GuideRow>)
    ensures PricesDiffer(rows) <==> exists g, h :: g in rows && h in rows && g.price != h.price
  {
    if PricesDiffer(rows) {
      var i, j :| 0 <= i < |rows| && 0 <= j < |rows| && rows[i].price != rows[j].price;
      assert rows[i] in rows && rows[j] in rows;
    }
    if g, h :| g in rows && h in rows && g.price != h.price {
      var i :| 0 <= i < |rows| && rows[i] == g;
      var j :| 0 <= j < |rows| && rows[j] == h;
      assert PricesDiffer(rows);
    }
  }

  /** Both state a panel, and not the same. */
  predicate OtherPanel(r: Rules, g: GuideRow, c: CatalogRow) {
    r.panel(g.panel).Some? && r.panel(c.panel).Some? && r.panel(g.panel) != r.panel(c.panel)
  }

  lemma PanelsDifferIff(r: Rules, c: CatalogRow, rows: seq<GuideRow>)
    ensures PanelsDiffer(r, c, rows) <==> exists g :: g in rows && OtherPanel(r, g, c)
  {
    if PanelsDiffer(r, c, rows) {
      var i :| 0 <= i < |rows| && r.panel(rows[i].panel).Some? && r.panel(rows[i].panel) != r.panel(c.panel);
      assert rows[i] in rows;
    }
    if g :| g in rows && OtherPanel(r, g, c) {
      var i :| 0 <= i < |rows| && rows[i] == g;
      assert PanelsDiffer(r, c, rows);
    }
  }

  /** A laptop is in conflict exactly when two of its rows differ in price, or one states another panel. */
  lemma ConflictIff(r: Rules, guide: seq<GuideRow>, catalog: seq<CatalogRow>, result: MatchResult, c: CatalogRow)
    requires IsMatch(r, guide, catalog, result) && c in catalog
    ensures var rows := ClaimsOn(Judge(r, catalog), guide, |guide|, c.id);
            OnList(result.conflict, c) <==>
              || (exists g, h :: g in rows && h in rows && g.price != h.price)
              || (exists g :: g in rows && OtherPanel(r, g, c))
  {
    var rows := ClaimsOn(Judge(r, catalog), guide, |guide|, c.id);
    EveryLaptopGoesToOneList(r, guide, catalog, result, c);
    PricesDifferIff(rows);
    PanelsDifferIff(r, c, rows);
  }
}
