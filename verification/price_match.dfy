/**
 Which catalog row each product guide row prices: `match` of app/laptops/price_guide.py. The
 text rules (CPU part numbers, whole-token names, panel words) are parameters.
 */
module PriceMatch {
  import opened Common

  type Text = string

  /** A SKU as printed or typed, before it is stripped and upper-cased. */
  type Sku(==,!new)

  datatype Panel = Oled | Other

  datatype GuideRow = GuideRow(
    sku: Sku, model: Text, price: Option<real>, cpu: Text, ram: Option<nat>, ssd: Option<nat>, panel: Text)

  /** `sku` is None where the source's field is null or empty. */
  datatype CatalogRow = CatalogRow(
    id: nat, model: Text, name: Text, cpu: Text, ram: Option<nat>, ssd: Option<nat>, sku: Option<Sku>, panel: Text)

  datatype Rules = Rules(
    key: Sku -> Text,                     // the SKU with -WP read as -W
    canon: Sku -> Text,                   // the SKU stripped and upper-cased
    part: Text -> Option<Text>,           // the comparable CPU key
    base: Text -> Option<Text>,           // the base code a model code starts with
    names: (CatalogRow, Text) -> bool,    // the row names the code as a whole token
    letterFits: (GuideRow, CatalogRow) -> bool,
    panel: Text -> Option<Panel>)

  datatype Claim = Claim(row: CatalogRow, rows: seq<GuideRow>)
  datatype Doubt = Doubt(row: GuideRow, candidates: seq<CatalogRow>)

  /** The elements among the first n that p holds of, in order. */
  function Where<T>(s: seq<T>, p: T -> bool, n: nat): seq<T>
    requires n <= |s|
  {
    if n == 0 then [] else Where(s, p, n - 1) + if p(s[n - 1]) then [s[n - 1]] else []
  }

  function All<T>(s: seq<T>, p: T -> bool): seq<T> {
    Where(s, p, |s|)
  }

  lemma {:induction false} WhereHolds<T>(s: seq<T>, p: T -> bool, n: nat, x: T)
    requires n <= |s|
    ensures x in Where(s, p, n) <==> p(x) && exists i :: 0 <= i < n && s[i] == x
  {
    if n == 0 {
    } else {
      WhereHolds(s, p, n - 1, x);
    }
  }

  lemma AllHolds<T>(s: seq<T>, p: T -> bool, x: T)
    ensures x in All(s, p) <==> p(x) && x in s
  {
    WhereHolds(s, p, |s|, x);
  }

  // --- What one guide row finds --------------------------------------------------------------

  predicate Lacks(c: CatalogRow) { c.sku.None? }

  predicate HasKey(r: Rules, k: Text, c: CatalogRow) {
    c.sku.Some? && r.key(c.sku.value) == k
  }

  function KeyIs(r: Rules, k: Text): CatalogRow -> bool {
    (c: CatalogRow) => HasKey(r, k, c)
  }

  function WithKey(r: Rules, catalog: seq<CatalogRow>, k: Text): seq<CatalogRow> {
    All(catalog, KeyIs(r, k))
  }

  predicate Fits(r: Rules, g: GuideRow, c: CatalogRow) {
    r.part(c.cpu) == r.part(g.cpu) && c.ram == g.ram && c.ssd == g.ssd && r.letterFits(g, c)
  }

  function Named(r: Rules, g: GuideRow, noSku: seq<CatalogRow>): seq<CatalogRow> {
    var full := All(noSku, (c: CatalogRow) => r.names(c, g.model));
    if full != [] then full
    else match r.base(g.model)
      case Some(base) => All(noSku, (c: CatalogRow) => r.names(c, base))
      case None => []
  }

  function SpecCandidates(r: Rules, g: GuideRow, noSku: seq<CatalogRow>): seq<CatalogRow> {
    if r.part(g.cpu).None? || g.ram.None? || g.ssd.None? then []
    else All(Named(r, g, noSku), (c: CatalogRow) => Fits(r, g, c))
  }

  datatype Verdict = Unpriced | Unmatched | Ambiguous(candidates: seq<CatalogRow>) | Claims(laptops: seq<CatalogRow>)

  /** What becomes of a guide row: it depends on the row and the catalog alone. */
  function VerdictOf(r: Rules, catalog: seq<CatalogRow>, g: GuideRow): Verdict {
    if g.price.None? then Unpriced
    else
      var hits := WithKey(r, catalog, r.key(g.sku));
      if hits != [] then Claims(hits)
      else
        var candidates := SpecCandidates(r, g, All(catalog, Lacks));
        if candidates == [] then Unmatched
        else if |candidates| > 1 then Ambiguous(candidates)
        else Claims(candidates)
  }

  /** The verdict on each row of a guide. */
  function Judge(r: Rules, catalog: seq<CatalogRow>): GuideRow -> Verdict {
    (g: GuideRow) => VerdictOf(r, catalog, g)
  }

  // --- What one laptop is claimed by -----------------------------------------------------------

  predicate Holds(rows: seq<CatalogRow>, id: nat) {
    exists i :: 0 <= i < |rows| && rows[i].id == id
  }

  predicate Claiming(v: Verdict, id: nat) {
    v.Claims? && Holds(v.laptops, id)
  }

  predicate Doubting(v: Verdict, id: nat) {
    v.Ambiguous? && Holds(v.candidates, id)
  }

  function Claimers(judge: GuideRow -> Verdict, id: nat): GuideRow -> bool {
    (g: GuideRow) => Claiming(judge(g), id)
  }

  /** The rows among the first n that claim the laptop, in the guide's order. */
  function ClaimsOn(judge: GuideRow -> Verdict, guide: seq<GuideRow>, n: nat, id: nat): seq<GuideRow>
    requires n <= |guide|
  {
    Where(guide, Claimers(judge, id), n)
  }

  predicate InDoubt(judge: GuideRow -> Verdict, guide: seq<GuideRow>, n: nat, id: nat)
    requires n <= |guide|
  {
    exists i :: 0 <= i < n && Doubting(judge(guide[i]), id)
  }

  predicate PricesDiffer(rows: seq<GuideRow>) {
    exists i, j :: 0 <= i < |rows| && 0 <= j < |rows| && rows[i].price != rows[j].price
  }

  predicate PanelsDiffer(r: Rules, c: CatalogRow, rows: seq<GuideRow>) {
    && r.panel(c.panel).Some?
    && exists i :: 0 <= i < |rows| && r.panel(rows[i].panel).Some? && r.panel(rows[i].panel) != r.panel(c.panel)
  }

  predicate NeedsSuffixRule(r: Rules, c: CatalogRow, rows: seq<GuideRow>) {
    c.sku.Some? && r.canon(c.sku.value) != "" && forall i :: 0 <= i < |rows| ==>
        r.canon(rows[i].sku) != r.canon(c.sku.value)
  }

  predicate NeedsBaseCode(r: Rules, c: CatalogRow, rows: seq<GuideRow>) {
    c.sku.None? && forall i :: 0 <= i < |rows| ==> !r.names(c, rows[i].model)
  }

  datatype Class = Conflict | SuffixRule | BaseCode | Matched

  function ClassOf(r: Rules, c: CatalogRow, rows: seq<GuideRow>): Class {
    if PricesDiffer(rows) || PanelsDiffer(r, c, rows) then Conflict
    else if NeedsSuffixRule(r, c, rows) then SuffixRule
    else if NeedsBaseCode(r, c, rows) then BaseCode
    else Matched
  }

  function IsUnpriced(judge: GuideRow -> Verdict): GuideRow -> bool {
    (g: GuideRow) => judge(g).Unpriced?
  }

  function IsUnmatched(judge: GuideRow -> Verdict): GuideRow -> bool {
    (g: GuideRow) => judge(g).Unmatched?
  }

  function IsUncovered(judge: GuideRow -> Verdict, guide: seq<GuideRow>): CatalogRow -> bool {
    (c: CatalogRow) => ClaimsOn(judge, guide, |guide|, c.id) == [] && !InDoubt(judge, guide, |guide|, c.id)
  }

  function Doubts(judge: GuideRow -> Verdict, guide: seq<GuideRow>, n: nat): seq<Doubt>
    requires n <= |guide|
  {
    if n == 0 then []
    else
      var v := judge(guide[n - 1]);
      Doubts(judge, guide, n - 1) + if v.Ambiguous? then [Doubt(guide[n - 1], v.candidates)] else []
  }

  datatype MatchResult = MatchResult(
    matched: seq<Claim>, conflict: seq<Claim>, suffixRule: seq<Claim>, baseCode: seq<Claim>,
    ambiguous: seq<Doubt>, unmatched: seq<GuideRow>, unpriced: seq<GuideRow>, uncovered: seq<CatalogRow>)

  ghost predicate DistinctIds(catalog: seq<CatalogRow>) {
    forall i, j :: 0 <= i < j < |catalog| ==> catalog[i].id != catalog[j].id
  }

  /** The laptop, with every guide row that claims it. */
  function ClaimOf(judge: GuideRow -> Verdict, guide: seq<GuideRow>, c: CatalogRow): Claim {
    Claim(c, ClaimsOn(judge, guide, |guide|, c.id))
  }

  ghost predicate Belongs(r: Rules, catalog: seq<CatalogRow>, judge: GuideRow -> Verdict, guide: seq<GuideRow>,
      class_: Class, c: CatalogRow) {
    var claim := ClaimOf(judge, guide, c);
    c in catalog && claim.rows != [] && ClassOf(r, c, claim.rows) == class_
  }

  /** The ids after the first n laptops are claimed too: a new one goes to the end. */
  function Extended(order: seq<nat>, laptops: seq<CatalogRow>, n: nat): seq<nat>
    requires n <= |laptops|
  {
    if n == 0 then order
    else
      var before := Extended(order, laptops, n - 1);
      if laptops[n - 1].id in before then before else before + [laptops[n - 1].id]
  }

  /** The claimed laptops in the order in which the first n rows first claim them. */
  function FirstClaimed(judge: GuideRow -> Verdict, guide: seq<GuideRow>, n: nat): seq<nat>
    requires n <= |guide|
  {
    if n == 0 then []
    else
      var before, v := FirstClaimed(judge, guide, n - 1), judge(guide[n - 1]);
      if v.Claims? then Extended(before, v.laptops, |v.laptops|) else before
  }

  ghost function RowWithId(catalog: seq<CatalogRow>, id: nat): (c: CatalogRow)
    requires Holds(catalog, id)
    ensures c in catalog && c.id == id
  {
    var i :| 0 <= i < |catalog| && catalog[i].id == id;
    catalog[i]
  }

  ghost predicate AllHeld(catalog: seq<CatalogRow>, order: seq<nat>) {
    forall i :: 0 <= i < |order| ==> Holds(catalog, order[i])
  }

  /** The claims of one class among the first n laptops of `order`. */
  ghost function ClaimList(r: Rules, catalog: seq<CatalogRow>, judge: GuideRow -> Verdict, guide: seq<GuideRow>,
      class_: Class, order: seq<nat>, n: nat): seq<Claim>
    requires n <= |order| && AllHeld(catalog, order)
  {
    if n == 0 then []
    else
      var claim := ClaimOf(judge, guide, RowWithId(catalog, order[n - 1]));
      ClaimList(r, catalog, judge, guide, class_, order, n - 1)
      + if ClassOf(r, claim.row, claim.rows) == class_ then [claim] else []
  }

  /** The four claim lists, each in the order of the first claims. */
  ghost predicate AreListsUpTo(r: Rules, catalog: seq<CatalogRow>, judge: GuideRow -> Verdict, guide: seq<GuideRow>,
      order: seq<nat>, n: nat, result: MatchResult)
    requires n <= |order|
  {
    && AllHeld(catalog, order)
    && result.conflict == ClaimList(r, catalog, judge, guide, Conflict, order, n)
    && result.suffixRule == ClaimList(r, catalog, judge, guide, SuffixRule, order, n)
    && result.baseCode == ClaimList(r, catalog, judge, guide, BaseCode, order, n)
    && result.matched == ClaimList(r, catalog, judge, guide, Matched, order, n)
  }

  /** The whole result, every list in its order. */
  ghost predicate IsMatch(r: Rules, guide: seq<GuideRow>, catalog: seq<CatalogRow>, result: MatchResult) {
    var judge := Judge(r, catalog);
    var order := FirstClaimed(judge, guide, |guide|);
    && result.unpriced == All(guide, IsUnpriced(judge))
    && result.unmatched == All(guide, IsUnmatched(judge))
    && result.ambiguous == Doubts(judge, guide, |guide|)
    && AreListsUpTo(r, catalog, judge, guide, order, |order|, result)
    && result.uncovered == All(catalog, IsUncovered(judge, guide))
    && DistinctIds(catalog)
  }

  function Ids(rows: seq<CatalogRow>): (ids: set<nat>)
    ensures forall id :: id in ids <==> Holds(rows, id)
  {
    set i | 0 <= i < |rows| :: rows[i].id
  }

  // --- The first pass --------------------------------------------------------------------------

  function RowsIn(bySku: map<Text, seq<CatalogRow>>, k: Text): seq<CatalogRow> {
    if k in bySku then bySku[k] else []
  }

  function ClaimsIn(claims: map<nat, seq<GuideRow>>, id: nat): seq<GuideRow> {
    if id in claims then claims[id] else []
  }

  method IndexBySku(r: Rules, catalog: seq<CatalogRow>) returns (bySku: map<Text, seq<CatalogRow>>)
    ensures forall k :: RowsIn(bySku, k) == WithKey(r, catalog, k)
  {
    bySku := map[];
    for i := 0 to |catalog|
      invariant forall k :: RowsIn(bySku, k) == Where(catalog, KeyIs(r, k), i)
    {
      if catalog[i].sku.Some? {
        var k := r.key(catalog[i].sku.value);
        bySku := bySku[k := RowsIn(bySku, k) + [catalog[i]]];
      }
    }
  }

  /** One row's verdict, from the index instead of the catalog. */
  method Look(r: Rules, g: GuideRow, catalog: seq<CatalogRow>, bySku: map<Text, seq<CatalogRow>>,
      noSku: seq<CatalogRow>)
    returns (v: Verdict)
    requires noSku == All(catalog, Lacks) && forall k :: RowsIn(bySku, k) == WithKey(r, catalog, k)
    ensures v == VerdictOf(r, catalog, g)
  {
    if g.price.None? {
      return Unpriced;
    }
    var hits := RowsIn(bySku, r.key(g.sku));
    if hits != [] {
      return Claims(hits);
    }
    var candidates := SpecCandidates(r, g, noSku);
    if candidates == [] {
      v := Unmatched;
    } else if |candidates| > 1 {
      v := Ambiguous(candidates);
    } else {
      v := Claims(candidates);
    }
  }

  /** `claims` is a dictionary, whose keys keep the order they were first put in: that is `order`. */
  ghost predicate Listed(claims: map<nat, seq<GuideRow>>, order: seq<nat>) {
    && (forall id :: id in claims ==> claims[id] != [])
    && (forall id :: id in claims <==> id in order)
    && (forall i, j :: 0 <= i < j < |order| ==> order[i] != order[j])
  }

  ghost predicate Collected(judge: GuideRow -> Verdict, guide: seq<GuideRow>, n: nat, claims: map<nat, seq<GuideRow>>,
      order: seq<nat>)
    requires n <= |guide|
  {
    && (forall id :: ClaimsIn(claims, id) == ClaimsOn(judge, guide, n, id))
    && Listed(claims, order) && order == FirstClaimed(judge, guide, n)
  }

  ghost predicate Doubted(judge: GuideRow -> Verdict, guide: seq<GuideRow>, n: nat, inDoubt: set<nat>)
    requires n <= |guide|
  {
    forall id :: id in inDoubt <==> InDoubt(judge, guide, n, id)
  }

  ghost predicate Among(laptops: seq<CatalogRow>, n: nat, id: nat)
    requires n <= |laptops|
  {
    exists i :: 0 <= i < n && laptops[i].id == id
  }

  /** The first n laptops got one more row each. */
  ghost predicate Grown(before: map<nat, seq<GuideRow>>, after: map<nat, seq<GuideRow>>, laptops: seq<CatalogRow>,
      n: nat, g: GuideRow)
    requires n <= |laptops|
  {
    forall id :: ClaimsIn(after, id) == ClaimsIn(before, id) + if Among(laptops, n, id) then [g] else []
  }

  lemma GrownOneMore(before: map<nat, seq<GuideRow>>, after: map<nat, seq<GuideRow>>, laptops: seq<CatalogRow>, n: nat,
      g: GuideRow)
    requires n < |laptops| && DistinctIds(laptops) && Grown(before, after, laptops, n, g)
    ensures Grown(before, after[laptops[n].id := ClaimsIn(after, laptops[n].id) + [g]], laptops, n + 1, g)
  {
    var m := n + 1;
    var after' := after[laptops[n].id := ClaimsIn(after, laptops[n].id) + [g]];
    forall id
      ensures ClaimsIn(after', id) == ClaimsIn(before, id) + if Among(laptops, m, id) then [g] else []
    {
      assert Among(laptops, m, id) <==> Among(laptops, n, id) || laptops[n].id == id;
      assert ClaimsIn(after, id) == ClaimsIn(before, id) + if Among(laptops, n, id) then [g] else [];
    }
  }

  lemma ListedOneMore(claims: map<nat, seq<GuideRow>>, order: seq<nat>, id: nat, rows: seq<GuideRow>)
    requires Listed(claims, order) && rows != []
    ensures Listed(claims[id := rows], if id in order then order else order + [id])
  {
  }

  /** One guide row claims every laptop of the list. */
  method AddClaims(claims: map<nat, seq<GuideRow>>, order: seq<nat>, laptops: seq<CatalogRow>, g: GuideRow)
    returns (after: map<nat, seq<GuideRow>>, order': seq<nat>)
    requires Listed(claims, order) && DistinctIds(laptops)
    ensures Listed(after, order') && order' == Extended(order, laptops, |laptops|)
    ensures Grown(claims, after, laptops, |laptops|, g)
  {
    after, order' := claims, order;
    for n := 0 to |laptops|
      invariant Listed(after, order') && order' == Extended(order, laptops, n)
      invariant Grown(claims, after, laptops, n, g)
    {
      var id := laptops[n].id;
      GrownOneMore(claims, after, laptops, n, g);
      ListedOneMore(after, order', id, ClaimsIn(after, id) + [g]);
      if id !in after {
        order' := order' + [id];
      }
      after := after[id := ClaimsIn(after, id) + [g]];
    }
  }

  lemma ClaimsGrow(judge: GuideRow -> Verdict, guide: seq<GuideRow>, n: nat)
    requires n < |guide|
    ensures forall id :: ClaimsOn(judge, guide, n + 1, id) ==
                         ClaimsOn(judge, guide, n, id) + if Claiming(judge(guide[n]), id) then [guide[n]] else []
  {
  }

  lemma DoubtGrows(judge: GuideRow -> Verdict, guide: seq<GuideRow>, n: nat, before: set<nat>, after: set<nat>)
    requires n < |guide| && Doubted(judge, guide, n, before)
    requires forall id :: id in after <==> id in before || Doubting(judge(guide[n]), id)
    ensures Doubted(judge, guide, n + 1, after)
  {
  }

  method ClaimRow(judge: GuideRow -> Verdict, guide: seq<GuideRow>, n: nat, claims: map<nat, seq<GuideRow>>,
      order: seq<nat>, laptops: seq<CatalogRow>)
    returns (after: map<nat, seq<GuideRow>>, order': seq<nat>)
    requires n < |guide| && Collected(judge, guide, n, claims, order)
    requires judge(guide[n]) == Claims(laptops) && DistinctIds(laptops)
    ensures Collected(judge, guide, n + 1, after, order')
  {
    after, order' := AddClaims(claims, order, laptops, guide[n]);
    RowIsCollected(judge, guide, n, claims, order, laptops, after, order');
  }

  lemma RowIsCollected(judge: GuideRow -> Verdict, guide: seq<GuideRow>, n: nat, claims: map<nat, seq<GuideRow>>,
      order: seq<nat>, laptops: seq<CatalogRow>, after: map<nat, seq<GuideRow>>, order': seq<nat>)
    requires n < |guide| && Collected(judge, guide, n, claims, order) && judge(guide[n]) == Claims(laptops)
    requires Listed(after, order') && order' == Extended(order, laptops, |laptops|)
    requires Grown(claims, after, laptops, |laptops|, guide[n])
    ensures Collected(judge, guide, n + 1, after, order')
  {
    ClaimsGrow(judge, guide, n);
    forall id
      ensures ClaimsIn(after, id) == ClaimsOn(judge, guide, n + 1, id)
    {
      assert Claiming(judge(guide[n]), id) <==> Among(laptops, |laptops|, id);
      assert ClaimsIn(claims, id) == ClaimsOn(judge, guide, n, id);
    }
  }

  lemma NothingClaimed(judge: GuideRow -> Verdict, guide: seq<GuideRow>, n: nat, claims: map<nat, seq<GuideRow>>,
      order: seq<nat>)
    requires n < |guide| && Collected(judge, guide, n, claims, order) && !judge(guide[n]).Claims?
    ensures Collected(judge, guide, n + 1, claims, order)
  {
    ClaimsGrow(judge, guide, n);
  }

  datatype Pass = Pass(unpriced: seq<GuideRow>, unmatched: seq<GuideRow>, ambiguous: seq<Doubt>,
                       claims: map<nat, seq<GuideRow>>, order: seq<nat>, inDoubt: set<nat>)

  /** What the first n rows leave. */
  ghost predicate Taken(judge: GuideRow -> Verdict, guide: seq<GuideRow>, n: nat, p: Pass)
    requires n <= |guide|
  {
    && p.unpriced == Where(guide, IsUnpriced(judge), n) && p.unmatched == Where(guide, IsUnmatched(judge), n)
    && p.ambiguous == Doubts(judge, guide, n)
    && Collected(judge, guide, n, p.claims, p.order) && Doubted(judge, guide, n, p.inDoubt)
  }

  method TakeRow(judge: GuideRow -> Verdict, guide: seq<GuideRow>, n: nat, v: Verdict, before: Pass) returns (p: Pass)
    requires n < |guide| && Taken(judge, guide, n, before) && v == judge(guide[n])
    requires v.Claims? ==> DistinctIds(v.laptops)
    ensures Taken(judge, guide, n + 1, p)
  {
    p := before;
    match v {
      case Unpriced => p := p.(unpriced := p.unpriced + [guide[n]]);
      case Unmatched => p := p.(unmatched := p.unmatched + [guide[n]]);
      case Ambiguous(candidates) =>
        p := p.(ambiguous := p.ambiguous + [Doubt(guide[n], candidates)], inDoubt := p.inDoubt + Ids(candidates));
      case Claims(laptops) =>
        var claims, order := ClaimRow(judge, guide, n, p.claims, p.order, laptops);
        p := p.(claims := claims, order := order);
    }
    if !v.Claims? {
      NothingClaimed(judge, guide, n, before.claims, before.order);
    }
    DoubtGrows(judge, guide, n, before.inDoubt, p.inDoubt);
  }

  /** The first pass: every guide row goes to one list, or claims its laptops. */
  method ClaimAll(r: Rules, guide: seq<GuideRow>, catalog: seq<CatalogRow>) returns (p: Pass)
    requires DistinctIds(catalog)
    ensures Taken(Judge(r, catalog), guide, |guide|, p)
  {
    var bySku := IndexBySku(r, catalog);
    var noSku := All(catalog, Lacks);
    var judge := Judge(r, catalog);
    p := Pass([], [], [], map[], [], {});
    for n := 0 to |guide|
      invariant Taken(judge, guide, n, p)
    {
      var v := Look(r, guide[n], catalog, bySku, noSku);
      VerdictHasDistinctIds(r, catalog, guide[n]);
      p := TakeRow(judge, guide, n, v, p);
    }
  }

  lemma {:induction false} WhereDistinct(s: seq<CatalogRow>, p: CatalogRow -> bool, n: nat)
    requires n <= |s| && DistinctIds(s)
    ensures DistinctIds(Where(s, p, n))
  {
    if n == 0 {
    } else {
      WhereDistinct(s, p, n - 1);
      var before := Where(s, p, n - 1);
      forall i | 0 <= i < |before|
        ensures before[i].id != s[n - 1].id
      {
        WhereHolds(s, p, n - 1, before[i]);
      }
    }
  }

  lemma VerdictHasDistinctIds(r: Rules, catalog: seq<CatalogRow>, g: GuideRow)
    requires DistinctIds(catalog)
    ensures var v := VerdictOf(r, catalog, g);
            (v.Claims? ==> DistinctIds(v.laptops)) && (v.Ambiguous? ==> DistinctIds(v.candidates))
  {
    var noSku := All(catalog, Lacks);
    WhereDistinct(catalog, KeyIs(r, r.key(g.sku)), |catalog|);
    WhereDistinct(catalog, Lacks, |catalog|);
    WhereDistinct(noSku, (c: CatalogRow) => r.names(c, g.model), |noSku|);
    if r.base(g.model).Some? {
      WhereDistinct(noSku, (c: CatalogRow) => r.names(c, r.base(g.model).value), |noSku|);
    }
    var named := Named(r, g, noSku);
    assert DistinctIds(named);
    WhereDistinct(named, (c: CatalogRow) => Fits(r, g, c), |named|);
  }

  /** A laptop a guide row found is one of the catalog's, and if it has a SKU, found by it. */
  lemma VerdictIsFromCatalog(r: Rules, catalog: seq<CatalogRow>, g: GuideRow, c: CatalogRow)
    requires var v := VerdictOf(r, catalog, g); (v.Claims? && c in v.laptops) || (v.Ambiguous? && c in v.candidates)
    ensures c in catalog
    ensures c.sku.Some? ==> r.key(c.sku.value) == r.key(g.sku)
  {
    AllHolds(catalog, KeyIs(r, r.key(g.sku)), c);
    var noSku := All(catalog, Lacks);
    AllHolds(catalog, Lacks, c);
    AllHolds(noSku, (c: CatalogRow) => r.names(c, g.model), c);
    if r.base(g.model).Some? {
      AllHolds(noSku, (c: CatalogRow) => r.names(c, r.base(g.model).value), c);
    }
    AllHolds(Named(r, g, noSku), (c: CatalogRow) => Fits(r, g, c), c);
  }

  /** A claimed laptop is one of the catalog's. */
  lemma ClaimedIsInCatalog(r: Rules, catalog: seq<CatalogRow>, guide: seq<GuideRow>, id: nat)
    requires ClaimsOn(Judge(r, catalog), guide, |guide|, id) != []
    ensures Holds(catalog, id)
  {
    var judge := Judge(r, catalog);
    var g := ClaimsOn(judge, guide, |guide|, id)[0];
    WhereHolds(guide, Claimers(judge, id), |guide|, g);
    var v := VerdictOf(r, catalog, g);
    var i :| 0 <= i < |v.laptops| && v.laptops[i].id == id;
    VerdictIsFromCatalog(r, catalog, g, v.laptops[i]);
  }

  // --- The second pass ----------------------------------------------------------------------------

  ghost predicate IsIndex(byId: map<nat, CatalogRow>, catalog: seq<CatalogRow>) {
    && (forall id :: id in byId <==> Holds(catalog, id))
    && (forall id :: id in byId ==> byId[id] in catalog && byId[id].id == id)
  }

  method RowsById(catalog: seq<CatalogRow>) returns (byId: map<nat, CatalogRow>)
    requires DistinctIds(catalog)
    ensures IsIndex(byId, catalog)
  {
    byId := map[];
    for i := 0 to |catalog|
      invariant forall id :: id in byId <==> exists j :: 0 <= j < i && catalog[j].id == id
      invariant forall id :: id in byId ==> byId[id] in catalog && byId[id].id == id
    {
      byId := byId[catalog[i].id := catalog[i]];
    }
  }

  lemma SameRow(catalog: seq<CatalogRow>, a: CatalogRow, b: CatalogRow)
    requires DistinctIds(catalog) && a in catalog && b in catalog && a.id == b.id
    ensures a == b
  {
  }

  /** The lists the second pass leaves alone. */
  predicate SameOtherLists(a: MatchResult, b: MatchResult) {
    a.ambiguous == b.ambiguous && a.unmatched == b.unmatched && a.unpriced == b.unpriced && a.uncovered == b.uncovered
  }

  /** The claim goes to the end of its own list. */
  method PutClaim(r: Rules, before: MatchResult, claim: Claim, ghost catalog: seq<CatalogRow>,
      ghost judge: GuideRow -> Verdict, ghost guide: seq<GuideRow>, ghost order: seq<nat>, ghost n: nat)
    returns (result: MatchResult)
    requires n < |order| && AreListsUpTo(r, catalog, judge, guide, order, n, before)
    requires claim == ClaimOf(judge, guide, RowWithId(catalog, order[n]))
    ensures AreListsUpTo(r, catalog, judge, guide, order, n + 1, result)
    ensures SameOtherLists(before, result)
  {
    ghost var m := n + 1;
    assert m - 1 == n;
    if PricesDiffer(claim.rows) || PanelsDiffer(r, claim.row, claim.rows) {
      result := before.(conflict := before.conflict + [claim]);
    } else if NeedsSuffixRule(r, claim.row, claim.rows) {
      result := before.(suffixRule := before.suffixRule + [claim]);
    } else if NeedsBaseCode(r, claim.row, claim.rows) {
      result := before.(baseCode := before.baseCode + [claim]);
    } else {
      result := before.(matched := before.matched + [claim]);
    }
    assert AreListsUpTo(r, catalog, judge, guide, order, m, result);
  }

  lemma OrderIsHeld(r: Rules, catalog: seq<CatalogRow>, guide: seq<GuideRow>, claims: map<nat, seq<GuideRow>>,
      order: seq<nat>)
    requires Collected(Judge(r, catalog), guide, |guide|, claims, order)
    ensures AllHeld(catalog, order)
  {
    forall i | 0 <= i < |order|
      ensures Holds(catalog, order[i])
    {
      assert ClaimsIn(claims, order[i]) == ClaimsOn(Judge(r, catalog), guide, |guide|, order[i]);
      ClaimedIsInCatalog(r, catalog, guide, order[i]);
    }
  }

  lemma NextClaim(catalog: seq<CatalogRow>, judge: GuideRow -> Verdict, guide: seq<GuideRow>,
      claims: map<nat, seq<GuideRow>>, order: seq<nat>, byId: map<nat, CatalogRow>, n: nat)
    requires n < |order| && AllHeld(catalog, order) && IsIndex(byId, catalog) && DistinctIds(catalog)
    requires Collected(judge, guide, |guide|, claims, order)
    ensures order[n] in byId && order[n] in claims
    ensures Claim(byId[order[n]], claims[order[n]]) == ClaimOf(judge, guide, RowWithId(catalog, order[n]))
  {
    var id := order[n];
    assert Holds(catalog, id) && id in claims;
    SameRow(catalog, byId[id], RowWithId(catalog, id));
    assert ClaimsIn(claims, id) == ClaimsOn(judge, guide, |guide|, id);
  }

  /** Every laptop of the order has its row and its claims at hand. */
  ghost predicate AtHand(catalog: seq<CatalogRow>, judge: GuideRow -> Verdict, guide: seq<GuideRow>,
      claims: map<nat, seq<GuideRow>>, order: seq<nat>, byId: map<nat, CatalogRow>) {
    AllHeld(catalog, order) && forall i :: 0 <= i < |order| ==>
      && order[i] in byId && order[i] in claims
      && Claim(byId[order[i]], claims[order[i]]) == ClaimOf(judge, guide, RowWithId(catalog, order[i]))
  }

  /** The loop of the second pass. */
  method SortInOrder(r: Rules, ghost catalog: seq<CatalogRow>, ghost judge: GuideRow -> Verdict,
      ghost guide: seq<GuideRow>, claims: map<nat, seq<GuideRow>>, order: seq<nat>, byId: map<nat, CatalogRow>,
      start: MatchResult)
    returns (result: MatchResult)
    requires AtHand(catalog, judge, guide, claims, order, byId)
    requires start.matched == start.conflict == start.suffixRule == start.baseCode == []
    ensures AreListsUpTo(r, catalog, judge, guide, order, |order|, result)
    ensures SameOtherLists(start, result)
  {
    result := start;
    for n := 0 to |order|
      invariant AreListsUpTo(r, catalog, judge, guide, order, n, result)
      invariant SameOtherLists(start, result)
    {
      result := PutClaim(r, result, Claim(byId[order[n]], claims[order[n]]), catalog, judge, guide, order, n);
    }
  }

  /** The second pass: every claimed laptop goes to one of four lists, in the order of the first claims. */
  method SortClaims(r: Rules, guide: seq<GuideRow>, catalog: seq<CatalogRow>, claims: map<nat, seq<GuideRow>>,
      order: seq<nat>, start: MatchResult)
    returns (result: MatchResult)
    requires DistinctIds(catalog) && Collected(Judge(r, catalog), guide, |guide|, claims, order)
    requires start.matched == start.conflict == start.suffixRule == start.baseCode == []
    ensures AreListsUpTo(r, catalog, Judge(r, catalog), guide, order, |order|, result)
    ensures SameOtherLists(start, result)
  {
    var byId := RowsById(catalog);
    OrderIsHeld(r, catalog, guide, claims, order);
    AllAtHand(catalog, Judge(r, catalog), guide, claims, order, byId);
    result := SortInOrder(r, catalog, Judge(r, catalog), guide, claims, order, byId, start);
  }

  lemma AllAtHand(catalog: seq<CatalogRow>, judge: GuideRow -> Verdict, guide: seq<GuideRow>,
      claims: map<nat, seq<GuideRow>>, order: seq<nat>, byId: map<nat, CatalogRow>)
    requires AllHeld(catalog, order) && IsIndex(byId, catalog) && DistinctIds(catalog)
    requires Collected(judge, guide, |guide|, claims, order)
    ensures AtHand(catalog, judge, guide, claims, order, byId)
  {
    forall i | 0 <= i < |order|
      ensures order[i] in byId && order[i] in claims
      ensures Claim(byId[order[i]], claims[order[i]]) == ClaimOf(judge, guide, RowWithId(catalog, order[i]))
    {
      NextClaim(catalog, judge, guide, claims, order, byId, i);
    }
  }

  method Uncovered(judge: GuideRow -> Verdict, guide: seq<GuideRow>, catalog: seq<CatalogRow>,
      claims: map<nat, seq<GuideRow>>, order: seq<nat>, inDoubt: set<nat>)
    returns (uncovered: seq<CatalogRow>)
    requires Collected(judge, guide, |guide|, claims, order) && Doubted(judge, guide, |guide|, inDoubt)
    ensures uncovered == All(catalog, IsUncovered(judge, guide))
  {
    uncovered := [];
    for n := 0 to |catalog|
      invariant uncovered == Where(catalog, IsUncovered(judge, guide), n)
    {
      var id := catalog[n].id;
      assert ClaimsIn(claims, id) == ClaimsOn(judge, guide, |guide|, id);
      if id !in claims && id !in inDoubt {
        uncovered := uncovered + [catalog[n]];
      }
    }
  }

  method Match(r: Rules, guide: seq<GuideRow>, catalog: seq<CatalogRow>) returns (result: MatchResult)
    requires DistinctIds(catalog)
    ensures IsMatch(r, guide, catalog, result)
  {
    var p := ClaimAll(r, guide, catalog);
    var uncovered := Uncovered(Judge(r, catalog), guide, catalog, p.claims, p.order, p.inDoubt);
    var start := MatchResult([], [], [], [], p.ambiguous, p.unmatched, p.unpriced, uncovered);
    result := SortClaims(r, guide, catalog, p.claims, p.order, start);
  }
}
