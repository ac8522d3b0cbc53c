/**
 PickScore: app/pickscore/engine.py. Benchmark marks come resolved or unresolved, brand
 names and preferences lower-cased; everything from a mark or a spec value to the published
 score is here.
 */
module PickScore {
  import opened Common
  import opened Percentile
  import Rounding

  datatype Factor = Price | Cpu | Gpu | RamStorage | Portability | Battery | ScreenSize | Brand

  /** The order `calculate_pick_score` adds the factors in. */
  const FACTORS: seq<Factor> := [Price, Cpu, Gpu, RamStorage, Portability, Battery, ScreenSize, Brand]

  datatype Product = Product(
    brand: string, price: real, cpuMark: Option<real>, gpuMark: Option<real>,
    ramGb: real, storageGb: real, hdd: bool, weightKg: Option<real>, batteryWh: real, displayInch: real)

  datatype Ranges = Ranges(
    price: Range, cpu: Range, gpu: Range, ram: Range, storage: Range, weight: Range, battery: Range)

  /** A stored preference row; `budgetMax` is budget["max"]. */
  datatype Pref = Pref(
    budgetMax: Option<real>, screen: seq<string>, brands: seq<string>,
    priorities: map<Factor, int>, purposes: seq<string>, portability: string)

  /** Personalized mode has a preference row; general mode has a use-case profile or the default one. */
  datatype Mode = Personalized(pref: Pref) | General(profile: Option<map<Factor, real>>)

  // --- Factor scores ---------------------------------------------------------------------

  const DECAY_K: real := 2.0

  function BudgetOf(mode: Mode): Option<real> {
    if mode.Personalized? && mode.pref.budgetMax.Some?
        && mode.pref.budgetMax.value > 0.0 then mode.pref.budgetMax else None
  }

  /** 1 within budget, falling to 0 at half over it. */
  function Penalty(price: real, budget: real): real
    requires budget > 0.0
  {
    if price <= budget then 1.0
    else
      var left := 1.0 - DECAY_K * ((price - budget) / budget);
      if left < 0.0 then 0.0 else left
  }

  function PriceScore(p: Product, r: Ranges, mode: Mode): real {
    if p.price == 0.0 then 50.0
    else
      var base := Norm(Some(p.price), r.price, true);
      match BudgetOf(mode)
      case None => base
      case Some(budget) => base * Penalty(p.price, budget)
  }

  function MarkScore(mark: Option<real>, r: Range): real {
    if mark.None? then 50.0 else Norm(mark, r, false)
  }

  function RamStorageScore(p: Product, r: Ranges): real {
    var ram := Norm(Some(p.ramGb), r.ram, false);
    var storage := Norm(Some(p.storageGb), r.storage, false);
    var docked := if !p.hdd then storage else if storage - 15.0 < 0.0 then 0.0 else storage - 15.0;
    ram * 0.6 + docked * 0.4
  }

  predicate Has(s: string, part: string) {
    exists i :: 0 <= i <= |s| && part <= s[i..]
  }

  function UserBucket(wish: string): int {
    if Has(wish, "13") || Has(wish, "14") then 0
    else if Has(wish, "15") || Has(wish, "16") then 1
    else 2
  }

  function ProductBucket(inch: real): int {
    if inch <= 14.0 then 0 else if inch <= 16.0 then 1 else 2
  }

  function ScreenScore(p: Product, mode: Mode): real {
    if mode.General? || mode.pref.screen == [] then 50.0
    else
      var gap := UserBucket(mode.pref.screen[0]) - ProductBucket(p.displayInch);
      var distance := if gap < 0 then -gap else gap;
      var score := 100.0 - distance as real * 40.0;
      if score < 0.0 then 0.0 else score
  }

  function BrandScore(p: Product, mode: Mode): real {
    if mode.General? || mode.pref.brands == [] || "no preference" in mode.pref.brands then 50.0
    else if p.brand in mode.pref.brands then 100.0 else 50.0
  }

  function FactorScore(f: Factor, p: Product, r: Ranges, mode: Mode): real {
    match f
    case Price => PriceScore(p, r, mode)
    case Cpu => MarkScore(p.cpuMark, r.cpu)
    case Gpu => MarkScore(p.gpuMark, r.gpu)
    case RamStorage => RamStorageScore(p, r)
    case Portability => Norm(p.weightKg, r.weight, true)
    case Battery => Norm(Some(p.batteryWh), r.battery, false)
    case ScreenSize => ScreenScore(p, mode)
    case Brand => BrandScore(p, mode)
  }

  // --- Weights ---------------------------------------------------------------------------

  const DEFAULT_PRIORITY: map<Factor, real> := map[
    Price := 8.0, Cpu := 7.0, Gpu := 6.0, RamStorage := 5.0,
    Portability := 4.0, Battery := 3.0, ScreenSize := 2.0, Brand := 1.0]

  const PURPOSE_MODIFIERS: map<string, map<Factor, real>> := map[
    "Office/Study" := map[Price := 1.3, Battery := 1.2, Portability := 1.2, Cpu := 1.1],
    "Programming/Development" := map[Cpu := 1.3, RamStorage := 1.3, Price := 1.1, Battery := 1.1],
    "Gaming" := map[Gpu := 1.3, Cpu := 1.2, RamStorage := 1.1],
    "Creative Work" := map[Gpu := 1.3, Cpu := 1.2, RamStorage := 1.2, ScreenSize := 1.1],
    "General Use" := map[Price := 1.3, Cpu := 1.2, RamStorage := 1.2, Portability := 1.1, Battery := 1.1]]

  function Modifier(purpose: string, f: Factor): real {
    if purpose in PURPOSE_MODIFIERS && f in PURPOSE_MODIFIERS[purpose] then PURPOSE_MODIFIERS[purpose][f] else 1.0
  }

  function Max(a: real, b: real): real {
    if a < b then b else a
  }

  function Min(a: real, b: real): real {
    if b < a then b else a
  }

  /** The modifiers of the first n purposes, folded into one. */
  function PurposeMod(purposes: seq<string>, f: Factor, n: nat): real
    requires n <= |purposes|
  {
    if n == 0 then 1.0 else Min(1.3, Max(PurposeMod(purposes, f, n - 1), Modifier(purposes[n - 1], f)))
  }

  function PortabilityMult(answer: string): real {
    var a := if answer == "" then "Neutral" else answer;
    if "Yes" <= a then 1.4 else if "Neutral" <= a then 1.0 else if "No" <= a then 0.5 else 1.0
  }

  function BaseWeight(mode: Mode, f: Factor): real {
    match mode
    case Personalized(pref) => if f in pref.priorities then pref.priorities[f] as real else 1.0
    case General(profile) =>
      var base := if profile.Some? && profile.value != map[] then profile.value else DEFAULT_PRIORITY;
      if f in base then base[f] else 1.0
  }

  function PurposeOf(mode: Mode, f: Factor): real {
    if mode.Personalized? then PurposeMod(mode.pref.purposes, f, |mode.pref.purposes|) else 1.0
  }

  function PortabilityOf(mode: Mode, f: Factor): real {
    if mode.Personalized? && f.Portability? then PortabilityMult(mode.pref.portability) else 1.0
  }

  function Times(base: real, mod: real, mult: real): real {
    base * mod * mult
  }

  function RawWeight(mode: Mode, f: Factor): real {
    Times(BaseWeight(mode, f), PurposeOf(mode, f), PortabilityOf(mode, f))
  }

  /** The weights before they are scaled, in the order of FACTORS. */
  function RawWeights(mode: Mode): (ws: seq<real>)
    ensures |ws| == |FACTORS| && forall i :: 0 <= i < |FACTORS| ==> ws[i] == RawWeight(mode, FACTORS[i])
  {
    seq(|FACTORS|, i requires 0 <= i < |FACTORS| => RawWeight(mode, FACTORS[i]))
  }

  function TotalWeight(mode: Mode): real {
    Sum(RawWeights(mode), |FACTORS|)
  }

  function Scaled(ws: seq<real>, total: real): (vs: seq<real>)
    requires total != 0.0
    ensures |vs| == |ws| && forall i :: 0 <= i < |ws| ==> vs[i] == ws[i] / total
  {
    seq(|ws|, i requires 0 <= i < |ws| => ws[i] / total)
  }

  function FinalWeights(mode: Mode): (ws: seq<real>)
    requires TotalWeight(mode) != 0.0
    ensures |ws| == |FACTORS|
  {
    Scaled(RawWeights(mode), TotalWeight(mode))
  }

  /** `_compute_weights`; None is its ZeroDivisionError, when the weights add up to 0. */
  method ComputeWeights(mode: Mode) returns (weights: Option<seq<real>>)
    ensures weights.None? <==> TotalWeight(mode) == 0.0
    ensures weights.Some? ==> weights.value == FinalWeights(mode)
  {
    var raw: seq<real> := [];
    for i := 0 to |FACTORS|
      invariant |raw| == i && forall j :: 0 <= j < i ==> raw[j] == RawWeight(mode, FACTORS[j])
    {
      var w := ComputeRawWeight(mode, FACTORS[i]);
      raw := raw + [w];
    }
    assert raw == RawWeights(mode);
    var total := 0.0;
    for i := 0 to |FACTORS|
      invariant total == Sum(raw, i)
    {
      total := total + raw[i];
    }
    if total == 0.0 {
      return None;
    }
    var scaled: seq<real> := [];
    for i := 0 to |FACTORS|
      invariant |scaled| == i && forall j :: 0 <= j < i ==> scaled[j] == raw[j] / total
    {
      scaled := scaled + [raw[i] / total];
    }
    assert scaled == Scaled(raw, total);
    weights := Some(scaled);
  }

  method ComputeRawWeight(mode: Mode, f: Factor) returns (w: real)
    ensures w == RawWeight(mode, f)
  {
    var mod := 1.0;
    if mode.Personalized? {
      mod := FoldPurposes(mode.pref.purposes, f);
    }
    assert mod == PurposeOf(mode, f);
    w := Times(BaseWeight(mode, f), mod, PortabilityOf(mode, f));
  }

  method FoldPurposes(purposes: seq<string>, f: Factor) returns (mod: real)
    ensures mod == PurposeMod(purposes, f, |purposes|)
  {
    mod := 1.0;
    for i := 0 to |purposes|
      invariant mod == PurposeMod(purposes, f, i)
    {
      mod := Min(1.3, Max(mod, Modifier(purposes[i], f)));
    }
  }

  // --- The score ---------------------------------------------------------------------------

  /** The sum of the first n products. */
  function Dot(xs: seq<real>, ws: seq<real>, n: nat): real
    requires n <= |xs| && n <= |ws|
  {
    if n == 0 then 0.0 else Dot(xs, ws, n - 1) + xs[n - 1] * ws[n - 1]
  }

  function FactorScores(p: Product, r: Ranges, mode: Mode): (xs: seq<real>)
    ensures |xs| == |FACTORS| && forall i :: 0 <= i < |FACTORS| ==> xs[i] == FactorScore(FACTORS[i], p, r, mode)
  {
    seq(|FACTORS|, i requires 0 <= i < |FACTORS| => FactorScore(FACTORS[i], p, r, mode))
  }

  function Weighed(scores: seq<real>, mode: Mode): real
    requires TotalWeight(mode) != 0.0 && |scores| == |FACTORS|
  {
    Dot(scores, FinalWeights(mode), |FACTORS|)
  }

  function WeightedSum(p: Product, r: Ranges, mode: Mode): real
    requires TotalWeight(mode) != 0.0
  {
    Weighed(FactorScores(p, r, mode), mode)
  }

  /** Neither processor was identified, so there is no score to publish. */
  predicate Withheld(p: Product) {
    p.cpuMark.None? && p.gpuMark.None?
  }

  function Score(p: Product, r: Ranges, mode: Mode): Option<int>
    requires TotalWeight(mode) != 0.0
  {
    if Withheld(p) then None
    else
      var n := Rounding.Round(WeightedSum(p, r, mode));
      Some(if n < 0 then 0 else if n > 100 then 100 else n)
  }

  ghost predicate SortedRanges(r: Ranges) {
    Sorted(r.price.values) && Sorted(r.cpu.values) && Sorted(r.gpu.values) && Sorted(r.ram.values)
    && Sorted(r.storage.values) && Sorted(r.weight.values) && Sorted(r.battery.values)
  }

  method ScoreFactor(f: Factor, p: Product, r: Ranges, mode: Mode) returns (score: real)
    requires SortedRanges(r)
    ensures score == FactorScore(f, p, r, mode)
  {
    match f
    case Price =>
      if p.price == 0.0 {
        return 50.0;
      }
      score := Normalize(Some(p.price), r.price, true);
      var budget := BudgetOf(mode);
      if budget.Some? && p.price > budget.value {
        score := score * Max(0.0, 1.0 - DECAY_K * ((p.price - budget.value) / budget.value));
      }
    case Cpu =>
      score := 50.0;
      if p.cpuMark.Some? {
        score := Normalize(p.cpuMark, r.cpu, false);
      }
    case Gpu =>
      score := 50.0;
      if p.gpuMark.Some? {
        score := Normalize(p.gpuMark, r.gpu, false);
      }
    case RamStorage =>
      var ram := Normalize(Some(p.ramGb), r.ram, false);
      var storage := Normalize(Some(p.storageGb), r.storage, false);
      if p.hdd {
        storage := Max(0.0, storage - 15.0);
      }
      score := ram * 0.6 + storage * 0.4;
    case Portability =>
      score := Normalize(p.weightKg, r.weight, true);
    case Battery =>
      score := Normalize(Some(p.batteryWh), r.battery, false);
    case ScreenSize =>
      score := ScreenScore(p, mode);
    case Brand =>
      score := BrandScore(p, mode);
  }

  method ScoreFactors(p: Product, r: Ranges, mode: Mode) returns (scores: seq<real>)
    requires SortedRanges(r)
    ensures scores == FactorScores(p, r, mode)
  {
    scores := [];
    for i := 0 to |FACTORS|
      invariant |scores| == i && forall j :: 0 <= j < i ==> scores[j] == FactorScore(FACTORS[j], p, r, mode)
    {
      var score := ScoreFactor(FACTORS[i], p, r, mode);
      scores := scores + [score];
    }
  }

  method AddContributions(scores: seq<real>, weights: seq<real>) returns (sum: real)
    requires |scores| == |weights|
    ensures sum == Dot(scores, weights, |scores|)
  {
    sum := 0.0;
    for i := 0 to |scores|
      invariant sum == Dot(scores, weights, i)
    {
      var contribution := scores[i] * weights[i];
      sum := sum + contribution;
    }
  }

  /** `calculate_pick_score`, without its notes and breakdown rounding. */
  method CalculatePickScore(p: Product, r: Ranges, mode: Mode) returns (answer: Result<Option<int>, string>)
    requires SortedRanges(r)
    ensures answer.Err? <==> TotalWeight(mode) == 0.0
    ensures answer.Ok? ==> answer.value == Score(p, r, mode)
  {
    var weights := ComputeWeights(mode);
    if weights.None? {
      return Err("ZeroDivisionError");
    }
    var scores := ScoreFactors(p, r, mode);
    var sum := AddContributions(scores, weights.value);
    if Withheld(p) {
      return Ok(None);
    }
    var n := Rounding.Round(sum);
    answer := Ok(Some(if n > 100 then 100 else if n < 0 then 0 else n));
  }

  // --- Bounds --------------------------------------------------------------------------------

  ghost predicate FairWeights(mode: Mode) {
    && TotalWeight(mode) > 0.0
    && forall i :: 0 <= i < |FACTORS| ==> RawWeights(mode)[i] >= 0.0
  }

  lemma PenaltyIsAShare(price: real, budget: real)
    requires budget > 0.0
    ensures 0.0 <= Penalty(price, budget) <= 1.0
  {
    if price > budget {
      assert (price - budget) / budget >= 0.0;
    }
  }

  lemma ShareOf(x: real, share: real)
    requires 0.0 <= x <= 100.0 && 0.0 <= share <= 1.0
    ensures 0.0 <= x * share <= 100.0
  {
    NonnegativeProduct(x, share);
    NonnegativeProduct(x, 1.0 - share);
    assert x * (1.0 - share) == x - x * share;
  }

  lemma NonnegativeProduct(a: real, b: real)
    requires a >= 0.0 && b >= 0.0
    ensures a * b >= 0.0
  {
  }

  lemma FactorIsAPercentage(f: Factor, p: Product, r: Ranges, mode: Mode)
    ensures 0.0 <= FactorScore(f, p, r, mode) <= 100.0
  {
    match f {
      case Price =>
        var budget := BudgetOf(mode);
        if p.price != 0.0 && budget.Some? {
          PenaltyIsAShare(p.price, budget.value);
          ShareOf(Norm(Some(p.price), r.price, true), Penalty(p.price, budget.value));
        }
      case RamStorage =>
        ScoreIsAPercentage(Some(p.ramGb), r.ram, false);
        ScoreIsAPercentage(Some(p.storageGb), r.storage, false);
      case _ =>
    }
  }

  lemma {:induction false} ScaledSum(ws: seq<real>, total: real, n: nat)
    requires total > 0.0 && n <= |ws|
    ensures Sum(Scaled(ws, total), n) == Sum(ws, n) / total
  {
    if n == 0 {
    } else {
      ScaledSum(ws, total, n - 1);
      AddQuotients(Sum(ws, n - 1), ws[n - 1], total);
    }
  }

  lemma AddQuotients(a: real, b: real, t: real)
    requires t != 0.0
    ensures a / t + b / t == (a + b) / t
  {
  }

  lemma QuotientFacts(a: real, t: real)
    requires t > 0.0
    ensures t / t == 1.0
    ensures a >= 0.0 ==> a / t >= 0.0
  {
  }

  /** The final weights are shares of one. */
  lemma WeightsSumToOne(mode: Mode)
    requires FairWeights(mode)
    ensures Sum(FinalWeights(mode), |FACTORS|) == 1.0
    ensures forall i :: 0 <= i < |FACTORS| ==> FinalWeights(mode)[i] >= 0.0
  {
    ScaledSum(RawWeights(mode), TotalWeight(mode), |FACTORS|);
    forall i | 0 <= i < |FACTORS|
      ensures FinalWeights(mode)[i] >= 0.0
    {
      QuotientFacts(RawWeights(mode)[i], TotalWeight(mode));
    }
    QuotientFacts(0.0, TotalWeight(mode));
  }

  /** A weighted sum of percentages is at most 100 times the weights' sum. */
  lemma {:induction false} DotIsAnAverage(xs: seq<real>, ws: seq<real>, n: nat)
    requires n <= |xs| && n <= |ws|
    requires forall i :: 0 <= i < |xs| ==> 0.0 <= xs[i] <= 100.0
    requires forall i :: 0 <= i < |ws| ==> ws[i] >= 0.0
    ensures 0.0 <= Dot(xs, ws, n) <= 100.0 * Sum(ws, n)
  {
    if n == 0 {
    } else {
      DotIsAnAverage(xs, ws, n - 1);
      MulOrder(0.0, xs[n - 1], ws[n - 1]);
      MulOrder(xs[n - 1], 100.0, ws[n - 1]);
    }
  }

  lemma {:induction false} DotIsMonotone(xs: seq<real>, ys: seq<real>, ws: seq<real>, n: nat)
    requires n <= |xs| && n <= |ys| && n <= |ws|
    requires forall i :: 0 <= i < n ==> xs[i] <= ys[i]
    requires forall i :: 0 <= i < |ws| ==> ws[i] >= 0.0
    ensures Dot(xs, ws, n) <= Dot(ys, ws, n)
  {
    if n == 0 {
    } else {
      var m := n - 1;
      DotIsMonotone(xs, ys, ws, m);
      MulOrder(xs[m], ys[m], ws[m]);
      assert Dot(xs, ws, n) == Dot(xs, ws, m) + xs[m] * ws[m];
      assert Dot(ys, ws, n) == Dot(ys, ws, m) + ys[m] * ws[m];
    }
  }

  lemma FactorScoresArePercentages(p: Product, r: Ranges, mode: Mode)
    ensures forall i :: 0 <= i < |FACTORS| ==> 0.0 <= FactorScores(p, r, mode)[i] <= 100.0
  {
    forall i | 0 <= i < |FACTORS|
      ensures 0.0 <= FactorScores(p, r, mode)[i] <= 100.0
    {
      FactorIsAPercentage(FACTORS[i], p, r, mode);
    }
  }

  /** With non-negative weights the sum is already in 0..100: the final clamp never changes a score. */
  lemma ScoreIsTheRoundedAverage(p: Product, r: Ranges, mode: Mode)
    requires FairWeights(mode) && !Withheld(p)
    ensures Score(p, r, mode) == Some(Rounding.Round(WeightedSum(p, r, mode)))
    ensures 0 <= Score(p, r, mode).value <= 100
  {
    WeightsSumToOne(mode);
    FactorScoresArePercentages(p, r, mode);
    DotIsAnAverage(FactorScores(p, r, mode), FinalWeights(mode), |FACTORS|);
    Rounding.RoundBetween(WeightedSum(p, r, mode), 0, 100);
  }

  // --- Dominance ------------------------------------------------------------------------------

  /** `a` is at least as good as `b` in every measured respect, and alike in the rest; both are fully resolved. */
  ghost predicate Dominates(a: Product, b: Product) {
    && a.price <= b.price && a.price != 0.0 && b.price != 0.0
    && a.cpuMark.Some? && b.cpuMark.Some? && a.cpuMark.value >= b.cpuMark.value
    && a.gpuMark.Some? && b.gpuMark.Some? && a.gpuMark.value >= b.gpuMark.value
    && a.ramGb >= b.ramGb && a.storageGb >= b.storageGb && a.batteryWh >= b.batteryWh
    && a.weightKg.Some? && b.weightKg.Some? && a.weightKg.value <= b.weightKg.value
    && a.hdd == b.hdd && a.brand == b.brand && a.displayInch == b.displayInch
  }

  lemma PenaltyFalls(low: real, high: real, budget: real)
    requires budget > 0.0 && low <= high
    ensures Penalty(low, budget) >= Penalty(high, budget)
  {
    PenaltyIsAShare(high, budget);
    if budget < low {
      var unit := 1.0 / budget;
      MulOrder(low - budget, high - budget, unit);
      assert (low - budget) / budget == (low - budget) * unit && (high - budget) / budget == (high - budget) * unit;
    }
  }

  lemma CheaperScoresHigher(a: Product, b: Product, r: Ranges, mode: Mode)
    requires a.price <= b.price && a.price != 0.0 && b.price != 0.0
    ensures PriceScore(a, r, mode) >= PriceScore(b, r, mode)
  {
    ScoreIsMonotone(a.price, b.price, r.price);
    if BudgetOf(mode).Some? {
      AttenuatedScoreFalls(Norm(Some(a.price), r.price, true), Norm(Some(b.price), r.price, true),
                           a.price, b.price, BudgetOf(mode).value);
    }
  }

  lemma AttenuatedScoreFalls(x: real, y: real, low: real, high: real, budget: real)
    requires 0.0 <= y <= x && low <= high && budget > 0.0
    ensures x * Penalty(low, budget) >= y * Penalty(high, budget)
  {
    PenaltyFalls(low, high, budget);
    PenaltyIsAShare(high, budget);
    ProductOrder(y, x, Penalty(high, budget), Penalty(low, budget));
  }

  lemma ProductOrder(y: real, x: real, q: real, p: real)
    requires 0.0 <= y <= x && 0.0 <= q <= p
    ensures y * q <= x * p
  {
    MulOrder(y, x, q);
    MulOrder(q, p, x);
  }

  lemma DominantFactor(f: Factor, a: Product, b: Product, r: Ranges, mode: Mode)
    requires Dominates(a, b)
    ensures FactorScore(f, a, r, mode) >= FactorScore(f, b, r, mode)
  {
    match f {
      case Price => CheaperScoresHigher(a, b, r, mode);
      case Cpu => ScoreIsMonotone(b.cpuMark.value, a.cpuMark.value, r.cpu);
      case Gpu => ScoreIsMonotone(b.gpuMark.value, a.gpuMark.value, r.gpu);
      case RamStorage =>
        ScoreIsMonotone(b.ramGb, a.ramGb, r.ram);
        ScoreIsMonotone(b.storageGb, a.storageGb, r.storage);
      case Portability => ScoreIsMonotone(a.weightKg.value, b.weightKg.value, r.weight);
      case Battery => ScoreIsMonotone(b.batteryWh, a.batteryWh, r.battery);
      case ScreenSize =>
      case Brand =>
    }
  }

  /** A laptop that is nowhere worse never gets a lower PickScore, for any user, profile and catalog. */
  lemma Dominance(a: Product, b: Product, r: Ranges, mode: Mode)
    requires Dominates(a, b) && FairWeights(mode)
    ensures Score(a, r, mode).Some? && Score(b, r, mode).Some?
    ensures Score(a, r, mode).value >= Score(b, r, mode).value
  {
    forall i | 0 <= i < |FACTORS|
      ensures FactorScores(b, r, mode)[i] <= FactorScores(a, r, mode)[i]
    {
      DominantFactor(FACTORS[i], a, b, r, mode);
    }
    WeightsSumToOne(mode);
    DotIsMonotone(FactorScores(b, r, mode), FactorScores(a, r, mode), FinalWeights(mode), |FACTORS|);
    Rounding.RoundIsMonotone(WeightedSum(b, r, mode), WeightedSum(a, r, mode));
  }

  /**
   A budget changes nothing up to its maximum, where personalized and general mode agree;
   past it the price score falls in a straight line and is gone at half over budget.
   */
  lemma BudgetAttenuation(p: Product, r: Ranges, mode: Mode)
    requires p.price != 0.0 && BudgetOf(mode).Some?
    ensures var budget, base := BudgetOf(mode).value, PriceScore(p, r, General(None));
            var score := PriceScore(p, r, mode);
            && (p.price <= budget ==> score == base)
            && (budget <= p.price <= 1.5 * budget ==> score * budget == base * (3.0 * budget - 2.0 * p.price))
            && (p.price >= 1.5 * budget ==> score == 0.0)
  {
    var budget := BudgetOf(mode).value;
    var over := (p.price - budget) / budget;
    assert over * budget == p.price - budget;
    if budget < p.price {
      OverRatio(p.price, budget);
      LineThrough(PriceScore(p, r, General(None)), over, budget, p.price);
    }
  }

  lemma OverRatio(price: real, budget: real)
    requires budget > 0.0
    ensures price <= 1.5 * budget ==> (price - budget) / budget <= 0.5
    ensures price >= 1.5 * budget ==> (price - budget) / budget >= 0.5
  {
    var unit := 1.0 / budget;
    assert (price - budget) / budget == (price - budget) * unit;
    assert 0.5 * budget * unit == 0.5;
    if price <= 1.5 * budget {
      MulOrder(price - budget, 0.5 * budget, unit);
    } else {
      MulOrder(0.5 * budget, price - budget, unit);
    }
  }

  lemma LineThrough(base: real, over: real, budget: real, price: real)
    requires over * budget == price - budget
    ensures base * (1.0 - 2.0 * over) * budget == base * (3.0 * budget - 2.0 * price)
  {
    assert (1.0 - 2.0 * over) * budget == budget - 2.0 * (over * budget);
    assert base * (1.0 - 2.0 * over) * budget == base * ((1.0 - 2.0 * over) * budget);
  }

  /** A hard disk costs a machine 6 points of the memory factor, or all of its storage share when that is less. */
  lemma HardDiskCost(p: Product, r: Ranges)
    ensures var storage := Norm(Some(p.storageGb), r.storage, false);
            RamStorageScore(p.(hdd := false), r) - RamStorageScore(p.(hdd := true), r)
            == if storage >= 15.0 then 6.0 else 0.4 * storage
  {
  }

  // --- Purposes --------------------------------------------------------------------------------

  lemma ModifierBounds(purpose: string, f: Factor)
    ensures 1.0 <= Modifier(purpose, f) <= 1.3
  {
  }

  /** Several purposes fold to the largest of their modifiers. */
  lemma {:induction false} PurposesFoldToTheLargest(purposes: seq<string>, f: Factor, n: nat)
    requires n <= |purposes|
    ensures 1.0 <= PurposeMod(purposes, f, n) <= 1.3
    ensures forall i :: 0 <= i < n ==> Modifier(purposes[i], f) <= PurposeMod(purposes, f, n)
    ensures PurposeMod(purposes, f, n) == 1.0 ||
            exists i :: 0 <= i < n && Modifier(purposes[i], f) == PurposeMod(purposes, f, n)
  {
    if n == 0 {
    } else {
      PurposesFoldToTheLargest(purposes, f, n - 1);
      ModifierBounds(purposes[n - 1], f);
    }
  }

  /** The order in which a user picked purposes, and picking one twice, change no weight. */
  lemma PurposeOrderIsIrrelevant(a: seq<string>, b: seq<string>, f: Factor)
    requires forall x :: x in a <==> x in b
    ensures PurposeMod(a, f, |a|) == PurposeMod(b, f, |b|)
  {
    PurposesFoldToTheLargest(a, f, |a|);
    PurposesFoldToTheLargest(b, f, |b|);
    assert forall i :: 0 <= i < |a| ==> a[i] in b;
    assert forall i :: 0 <= i < |b| ==> b[i] in a;
  }

  /**
   Whatever the purposes and portability, stored priorities make fair weights exactly when none
   is negative and some factor has a positive one. A factor without a priority counts as 1; that
   all eight are 0, or that one is negative, nothing in the request schema rules out.
   */
  lemma PrioritiesMakeFairWeights(mode: Mode)
    requires mode.Personalized?
    ensures FairWeights(mode) <==>
              && (forall f :: f in mode.pref.priorities ==> mode.pref.priorities[f] >= 0)
              && (exists f: Factor :: f !in mode.pref.priorities || mode.pref.priorities[f] > 0)
  {
    FairWeightsIff(mode);
    if FairWeights(mode) {
      var f: Factor :| BaseWeight(mode, f) > 0.0;
      assert f !in mode.pref.priorities || mode.pref.priorities[f] > 0;
      forall f | f in mode.pref.priorities
        ensures mode.pref.priorities[f] >= 0
      {
        assert BaseWeight(mode, f) >= 0.0;
      }
    } else if f: Factor :| f !in mode.pref.priorities || mode.pref.priorities[f] > 0 {
      assert BaseWeight(mode, f) > 0.0;
    }
  }

  /** Weights are fair exactly when no base weight is negative and one is positive. */
  lemma FairWeightsIff(mode: Mode)
    ensures FairWeights(mode) <==>
              && (forall f: Factor :: BaseWeight(mode, f) >= 0.0)
              && (exists f: Factor :: BaseWeight(mode, f) > 0.0)
  {
    if (forall f: Factor :: BaseWeight(mode, f) >= 0.0) && (exists f: Factor :: BaseWeight(mode, f) > 0.0) {
      var f: Factor :| BaseWeight(mode, f) > 0.0;
      BaseWeightsMakeFairWeights(mode, IndexOf(f));
    }
    if FairWeights(mode) {
      FairWeightsComeFromBaseWeights(mode);
    }
  }

  function IndexOf(f: Factor): (i: nat)
    ensures i < |FACTORS| && FACTORS[i] == f
  {
    match f
    case Price => 0
    case Cpu => 1
    case Gpu => 2
    case RamStorage => 3
    case Portability => 4
    case Battery => 5
    case ScreenSize => 6
    case Brand => 7
  }

  lemma FairWeightsComeFromBaseWeights(mode: Mode)
    requires FairWeights(mode)
    ensures forall f: Factor :: BaseWeight(mode, f) >= 0.0
    ensures exists f: Factor :: BaseWeight(mode, f) > 0.0
  {
    forall f: Factor
      ensures BaseWeight(mode, f) >= 0.0
      ensures RawWeight(mode, f) > 0.0 ==> BaseWeight(mode, f) > 0.0
    {
      assert RawWeights(mode)[IndexOf(f)] == RawWeight(mode, f);
      BaseWeightSign(mode, f);
    }
    var i := PositiveTerm(RawWeights(mode), |FACTORS|);
    assert RawWeight(mode, FACTORS[i]) > 0.0;
  }

  lemma {:induction false} PositiveTerm(ws: seq<real>, n: nat) returns (i: nat)
    requires n <= |ws| && Sum(ws, n) > 0.0
    ensures i < n && ws[i] > 0.0
  {
    if ws[n - 1] > 0.0 {
      i := n - 1;
    } else {
      i := PositiveTerm(ws, n - 1);
    }
  }

  lemma BaseWeightSign(mode: Mode, f: Factor)
    requires RawWeight(mode, f) >= 0.0
    ensures BaseWeight(mode, f) >= 0.0
    ensures RawWeight(mode, f) > 0.0 ==> BaseWeight(mode, f) > 0.0
  {
    if mode.Personalized? {
      PurposesFoldToTheLargest(mode.pref.purposes, f, |mode.pref.purposes|);
    }
    FactorSign(BaseWeight(mode, f), PurposeOf(mode, f), PortabilityOf(mode, f));
  }

  lemma FactorSign(base: real, mod: real, mult: real)
    requires mod > 0.0 && mult > 0.0 && Times(base, mod, mult) >= 0.0
    ensures base >= 0.0
    ensures Times(base, mod, mult) > 0.0 ==> base > 0.0
  {
  }

  lemma BaseWeightsMakeFairWeights(mode: Mode, heavy: nat)
    requires heavy < |FACTORS| && BaseWeight(mode, FACTORS[heavy]) > 0.0
    requires forall i :: 0 <= i < |FACTORS| ==> BaseWeight(mode, FACTORS[i]) >= 0.0
    ensures FairWeights(mode)
  {
    forall i | 0 <= i < |FACTORS|
      ensures RawWeights(mode)[i] >= 0.0
      ensures BaseWeight(mode, FACTORS[i]) > 0.0 ==> RawWeights(mode)[i] > 0.0
    {
      RawWeightSign(mode, FACTORS[i]);
    }
    SumIsPositive(RawWeights(mode), heavy, |FACTORS|);
  }

  /** The weight profiles of the use cases, which the stored general scores are computed with. */
  const USE_CASE_PRIORITIES: map<string, map<Factor, real>> := map[
    "office_study" := map[Price := 9.0, Cpu := 6.0, Gpu := 2.0, RamStorage := 5.0,
                          Portability := 7.0, Battery := 8.0, ScreenSize := 2.0, Brand := 1.0],
    "programming" := map[Price := 6.0, Cpu := 9.0, Gpu := 3.0, RamStorage := 9.0,
                         Portability := 4.0, Battery := 6.0, ScreenSize := 4.0, Brand := 1.0],
    "gaming" := map[Price := 4.0, Cpu := 8.0, Gpu := 10.0, RamStorage := 7.0,
                    Portability := 1.0, Battery := 1.0, ScreenSize := 4.0, Brand := 1.0],
    "creative_work" := map[Price := 3.0, Cpu := 8.0, Gpu := 9.0, RamStorage := 8.0,
                           Portability := 3.0, Battery := 3.0, ScreenSize := 5.0, Brand := 1.0],
    "general_use" := map[Price := 9.0, Cpu := 7.0, Gpu := 2.0, RamStorage := 7.0,
                         Portability := 6.0, Battery := 6.0, ScreenSize := 4.0, Brand := 2.0]]

  lemma ProfilesAreFullAndPositive(useCase: string, f: Factor)
    requires useCase in USE_CASE_PRIORITIES
    ensures f in USE_CASE_PRIORITIES[useCase] && USE_CASE_PRIORITIES[useCase][f] > 0.0
  {
  }

  /** Every stored general score is weighed fairly, and so is a score without preferences or profile. */
  lemma GeneralWeightsAreFair(useCase: string)
    ensures FairWeights(General(None))
    ensures useCase in USE_CASE_PRIORITIES ==> FairWeights(General(Some(USE_CASE_PRIORITIES[useCase])))
  {
    BaseWeightsMakeFairWeights(General(None), 0);
    if useCase in USE_CASE_PRIORITIES {
      var mode := General(Some(USE_CASE_PRIORITIES[useCase]));
      forall f: Factor
        ensures BaseWeight(mode, f) > 0.0
      {
        ProfilesAreFullAndPositive(useCase, f);
      }
      BaseWeightsMakeFairWeights(mode, 0);
    }
  }

  lemma RawWeightSign(mode: Mode, f: Factor)
    requires BaseWeight(mode, f) >= 0.0
    ensures RawWeight(mode, f) >= 0.0
    ensures BaseWeight(mode, f) > 0.0 ==> RawWeight(mode, f) > 0.0
  {
    if mode.Personalized? {
      PurposesFoldToTheLargest(mode.pref.purposes, f, |mode.pref.purposes|);
    }
    ProductSign(BaseWeight(mode, f), PurposeOf(mode, f), PortabilityOf(mode, f));
  }

  lemma ProductSign(base: real, mod: real, mult: real)
    requires base >= 0.0 && mod > 0.0 && mult > 0.0
    ensures Times(base, mod, mult) >= 0.0
    ensures base > 0.0 ==> Times(base, mod, mult) > 0.0
  {
  }

  lemma {:induction false} SumIsPositive(ws: seq<real>, heavy: nat, n: nat)
    requires heavy < |ws| && n <= |ws|
    requires forall i :: 0 <= i < |ws| ==> ws[i] >= 0.0
    requires ws[heavy] > 0.0
    ensures Sum(ws, n) >= 0.0 && (heavy < n ==> Sum(ws, n) > 0.0)
  {
    if n == 0 {
    } else {
      SumIsPositive(ws, heavy, n - 1);
    }
  }
}
