/**
 What a PickScore is made of, stated of the laptop, the catalog and the wishes themselves:
 which datum each factor of app/pickscore/engine.py scores, how high, and how heavily it weighs.
 */
module PickScoreLaws {
  import opened Common
  import opened Percentile
  import opened PickScore

  // --- Mid-ranks ------------------------------------------------------------------------------

  /** The places of the first n values that hold less than v. */
  function PlacesBelow(values: seq<real>, v: real, n: nat): set<nat>
    requires n <= |values|
  {
    set i: nat | i < n && values[i] < v
  }

  function PlacesTied(values: seq<real>, v: real, n: nat): set<nat>
    requires n <= |values|
  {
    set i: nat | i < n && values[i] == v
  }

  lemma {:induction false} BelowCountsPlaces(values: seq<real>, v: real, n: nat)
    requires n <= |values|
    ensures Below(values, v, n) == |PlacesBelow(values, v, n)|
  {
    if n == 0 {
    } else {
      var m := n - 1;
      BelowCountsPlaces(values, v, m);
      assert PlacesBelow(values, v, n) == PlacesBelow(values, v, m) + if values[m] < v then {m} else {};
    }
  }

  lemma {:induction false} EqualCountsPlaces(values: seq<real>, v: real, n: nat)
    requires n <= |values|
    ensures Equal(values, v, n) == |PlacesTied(values, v, n)|
  {
    if n == 0 {
    } else {
      var m := n - 1;
      EqualCountsPlaces(values, v, m);
      assert PlacesTied(values, v, n) == PlacesTied(values, v, m) + if values[m] == v then {m} else {};
    }
  }

  /** As a percentage of the catalog: all that lie below v, and half of those tied with it. */
  ghost predicate IsMidRank(score: real, values: seq<real>, v: real) {
    score * |values| as real
    == 100.0 * |PlacesBelow(values, v, |values|)| as real + 50.0 * |PlacesTied(values, v, |values|)| as real
  }

  /**
   The score of one datum against its range: 50 when it is unknown or the range tells nothing,
   its mid-rank in the catalog, and without a catalog its place between the bounds.
   */
  ghost predicate Measures(score: real, value: Option<real>, r: Range) {
    match value
    case None => score == 50.0
    case Some(v) =>
      if r.values != [] then IsMidRank(score, r.values, v)
      else if r.max <= r.min then score == 50.0
      else if v <= r.min then score == 0.0
      else if v >= r.max then score == 100.0
      else score * (r.max - r.min) == 100.0 * (v - r.min)
  }

  /** Both directions of the percentile measure the datum they are given; the inverse one from the far end. */
  lemma NormMeasures(value: Option<real>, r: Range)
    ensures Measures(Norm(value, r, false), value, r)
    ensures Measures(100.0 - Norm(value, r, true), value, r)
  {
    InverseIsComplement(value, r);
    if value.Some? {
      if r.values != [] {
        ShareIsMidRank(r.values, value.value);
      } else if r.min < r.max {
        PlaceBetweenBounds(value.value, r.min, r.max);
      }
    }
  }

  lemma ShareIsMidRank(values: seq<real>, v: real)
    requires values != []
    ensures IsMidRank(Share(values, v), values, v) && 0.0 <= Share(values, v) <= 100.0
  {
    var n := |values|;
    BelowCountsPlaces(values, v, n);
    EqualCountsPlaces(values, v, n);
    ShareIsRank(values, v);
    var half := Below(values, v, n) as real + Equal(values, v, n) as real / 2.0;
    assert half / n as real * n as real == half;
  }

  lemma PlaceBetweenBounds(v: real, lo: real, hi: real)
    requires lo < hi
    ensures Linear(v, lo, hi) * (hi - lo) == 100.0 * (v - lo)
    ensures v <= lo ==> Linear(v, lo, hi) <= 0.0
    ensures v >= hi ==> Linear(v, lo, hi) >= 100.0
    ensures lo <= v <= hi ==> 0.0 <= Linear(v, lo, hi) <= 100.0
  {
    var share := (v - lo) / (hi - lo);
    assert share * (hi - lo) == v - lo;
    LinearAt(lo, hi);
    if v <= lo {
      LinearIsMonotone(v, lo, lo, hi);
    } else {
      LinearIsMonotone(lo, v, lo, hi);
    }
    if v <= hi {
      LinearIsMonotone(v, hi, lo, hi);
    } else {
      LinearIsMonotone(hi, v, lo, hi);
    }
  }

  lemma LinearAt(lo: real, hi: real)
    requires lo < hi
    ensures Linear(lo, lo, hi) == 0.0 && Linear(hi, lo, hi) == 100.0
  {
    var spread := hi - lo;
    assert spread / spread == 1.0;
  }

  /** There is one such score. */
  lemma OneScoreMeasures(x: real, y: real, value: Option<real>, r: Range)
    requires Measures(x, value, r) && Measures(y, value, r)
    ensures x == y
  {
    match value {
      case None =>
      case Some(v) =>
        if r.values != [] {
          SameQuotient(x, y, |r.values| as real);
        } else if r.min < v < r.max {
          SameQuotient(x, y, r.max - r.min);
        }
    }
  }

  lemma SameQuotient(x: real, y: real, d: real)
    requires d > 0.0 && x * d == y * d
    ensures x == y
  {
    if x < y {
      PositiveProduct(y - x, d);
    } else if y < x {
      PositiveProduct(x - y, d);
    }
  }

  lemma PositiveProduct(a: real, b: real)
    requires a > 0.0 && b > 0.0
    ensures a * b > 0.0
  {
  }

  // --- Each factor scores its own datum -------------------------------------------------------

  /** Whatever the mode: an unidentified part scores 50, and lighter and longer-lasting laptops rank higher. */
  lemma PartsAreMeasured(p: Product, r: Ranges, mode: Mode)
    ensures Measures(FactorScore(Cpu, p, r, mode), p.cpuMark, r.cpu)
    ensures Measures(FactorScore(Gpu, p, r, mode), p.gpuMark, r.gpu)
    ensures Measures(100.0 - FactorScore(Portability, p, r, mode), p.weightKg, r.weight)
    ensures Measures(FactorScore(Battery, p, r, mode), Some(p.batteryWh), r.battery)
  {
    NormMeasures(p.cpuMark, r.cpu);
    NormMeasures(p.gpuMark, r.gpu);
    NormMeasures(p.weightKg, r.weight);
    NormMeasures(Some(p.batteryWh), r.battery);
  }

  /** 60 per cent memory and 40 per cent storage, the latter 15 points down, but not below 0, on a hard disk. */
  lemma MemoryIsMeasured(p: Product, r: Ranges, mode: Mode, ram: real, storage: real)
    requires Measures(ram, Some(p.ramGb), r.ram) && Measures(storage, Some(p.storageGb), r.storage)
    ensures var score := FactorScore(RamStorage, p, r, mode);
            && (!p.hdd ==> 10.0 * score == 6.0 * ram + 4.0 * storage)
            && (p.hdd && storage >= 15.0 ==> 10.0 * score == 6.0 * ram + 4.0 * storage - 60.0)
            && (p.hdd && storage <= 15.0 ==> 10.0 * score == 6.0 * ram)
  {
    NormMeasures(Some(p.ramGb), r.ram);
    NormMeasures(Some(p.storageGb), r.storage);
    OneScoreMeasures(ram, Norm(Some(p.ramGb), r.ram, false), Some(p.ramGb), r.ram);
    OneScoreMeasures(storage, Norm(Some(p.storageGb), r.storage, false), Some(p.storageGb), r.storage);
  }

  /** A missing price scores 50 in every mode; otherwise cheaper ranks higher, for anybody alike up to the budget. */
  lemma PriceIsMeasured(p: Product, r: Ranges, mode: Mode)
    ensures p.price == 0.0 ==> FactorScore(Price, p, r, mode) == 50.0
    ensures p.price != 0.0 && (mode.General? || mode.pref.budgetMax.None?) ==>
              Measures(100.0 - FactorScore(Price, p, r, mode), Some(p.price), r.price)
    ensures p.price != 0.0 && mode.Personalized? && mode.pref.budgetMax.Some? && mode.pref.budgetMax.value <= 0.0 ==>
              Measures(100.0 - FactorScore(Price, p, r, mode), Some(p.price), r.price)
  {
    NormMeasures(Some(p.price), r.price);
  }

  /** A stated budget takes nothing up to its maximum, half at a quarter over it, and all at half over it. */
  lemma AStatedBudgetAttenuates(p: Product, r: Ranges, pref: Pref, rank: real)
    requires p.price != 0.0 && Measures(100.0 - rank, Some(p.price), r.price)
    requires pref.budgetMax.Some? && pref.budgetMax.value > 0.0
    ensures var budget, score := pref.budgetMax.value, FactorScore(Price, p, r, Personalized(pref));
            && (p.price <= budget ==> score == rank)
            && (budget <= p.price <= 1.5 * budget ==> score * budget == rank * (3.0 * budget - 2.0 * p.price))
            && (p.price >= 1.5 * budget ==> score == 0.0)
  {
    RankIsThePriceScore(p, r, rank);
    BudgetAttenuation(p, r, Personalized(pref));
  }

  lemma RankIsThePriceScore(p: Product, r: Ranges, rank: real)
    requires p.price != 0.0 && Measures(100.0 - rank, Some(p.price), r.price)
    ensures PriceScore(p, r, General(None)) == rank
  {
    NormMeasures(Some(p.price), r.price);
    OneScoreMeasures(100.0 - rank, 100.0 - Norm(Some(p.price), r.price, true), Some(p.price), r.price);
  }

  /** A factor score depends on nothing but the one datum, range and wish it is about. */
  lemma FactorsReadTheirOwnInput(p: Product, q: Product, r: Ranges, s: Ranges, m: Mode, n: Mode)
    ensures p.cpuMark == q.cpuMark && r.cpu == s.cpu ==> FactorScore(Cpu, p, r, m) == FactorScore(Cpu, q, s, n)
    ensures p.gpuMark == q.gpuMark && r.gpu == s.gpu ==> FactorScore(Gpu, p, r, m) == FactorScore(Gpu, q, s, n)
    ensures p.weightKg == q.weightKg && r.weight == s.weight ==>
              FactorScore(Portability, p, r, m) == FactorScore(Portability, q, s, n)
    ensures p.batteryWh == q.batteryWh && r.battery == s.battery ==>
              FactorScore(Battery, p, r, m) == FactorScore(Battery, q, s, n)
    ensures (p.ramGb, p.storageGb, p.hdd, r.ram, r.storage) == (q.ramGb, q.storageGb, q.hdd, s.ram, s.storage) ==>
              FactorScore(RamStorage, p, r, m) == FactorScore(RamStorage, q, s, n)
    ensures p.price == q.price && r.price == s.price && m == n ==>
              FactorScore(Price, p, r, m) == FactorScore(Price, q, s, n)
    ensures p.displayInch == q.displayInch && m == n ==>
              FactorScore(ScreenSize, p, r, m) == FactorScore(ScreenSize, q, s, n)
    ensures p.brand == q.brand && m == n ==> FactorScore(Brand, p, r, m) == FactorScore(Brand, q, s, n)
  {
  }

  // --- Wishes ---------------------------------------------------------------------------------

  /** A text has a part exactly when it reads: something, the part, something. */
  lemma HasIff(s: string, part: string)
    ensures Has(s, part) <==> exists before, after :: s == before + part + after
  {
    if Has(s, part) {
      var i :| 0 <= i <= |s| && part <= s[i..];
      assert s == s[..i] + part + s[i..][|part|..];
    }
    if before, after :| s == before + part + after {
      assert part <= s[|before|..];
    }
  }

  /**
   The screen factor over the first wish: 100 for a screen of the size wished for, 60 for the next
   size and 20 for the farthest, with sizes parted at 14 and 16 inches. Nothing wished: 50.
   */
  lemma ScreenTable(p: Product, r: Ranges, mode: Mode)
    ensures mode.General? || mode.pref.screen == [] ==> FactorScore(ScreenSize, p, r, mode) == 50.0
    ensures mode.Personalized? && mode.pref.screen != [] ==>
              var wish, score, inch := mode.pref.screen[0], FactorScore(ScreenSize, p, r, mode), p.displayInch;
              var small, medium := Has(wish, "13") || Has(wish, "14"), Has(wish, "15") || Has(wish, "16");
              score == if small then (if inch <= 14.0 then 100.0 else if inch <= 16.0 then 60.0 else 20.0)
                       else if medium then (if 14.0 < inch <= 16.0 then 100.0 else 60.0)
                       else if inch > 16.0 then 100.0 else if inch > 14.0 then 60.0 else 20.0
  {
  }

  /** A wished brand is worth 50 points over any other; with no wish every brand scores 50. */
  lemma AWishedBrandScoresHigher(p: Product, q: Product, r: Ranges, mode: Mode)
    ensures mode.General? || mode.pref.brands == [] || "no preference" in mode.pref.brands ==>
              FactorScore(Brand, p, r, mode) == 50.0
    ensures mode.Personalized? && "no preference" !in mode.pref.brands
            && p.brand in mode.pref.brands && q.brand !in mode.pref.brands ==>
              FactorScore(Brand, p, r, mode) == 100.0 && FactorScore(Brand, q, r, mode) == 50.0
  {
  }

  // --- What a factor weighs -------------------------------------------------------------------

  predicate Boosts(purpose: string, f: Factor) {
    purpose in PURPOSE_MODIFIERS && f in PURPOSE_MODIFIERS[purpose]
  }

  /** The largest modifier the purposes list for the factor, 1 when they list none. */
  predicate IsBoost(purposes: seq<string>, f: Factor, boost: real) {
    && boost >= 1.0
    && (forall i :: 0 <= i < |purposes| && Boosts(purposes[i], f) ==> PURPOSE_MODIFIERS[purposes[i]][f] <= boost)
    && (boost == 1.0 ||
        exists i :: 0 <= i < |purposes| && Boosts(purposes[i], f) && PURPOSE_MODIFIERS[purposes[i]][f] == boost)
  }

  lemma FoldIsTheBoost(purposes: seq<string>, f: Factor, boost: real)
    requires IsBoost(purposes, f, boost)
    ensures PurposeMod(purposes, f, |purposes|) == boost
  {
    var n := |purposes|;
    PurposesFoldToTheLargest(purposes, f, n);
    if boost != 1.0 {
      var i :| 0 <= i < n && Boosts(purposes[i], f) && PURPOSE_MODIFIERS[purposes[i]][f] == boost;
      assert Modifier(purposes[i], f) == boost;
    }
    if PurposeMod(purposes, f, n) != 1.0 {
      var i :| 0 <= i < n && Modifier(purposes[i], f) == PurposeMod(purposes, f, n);
      assert Boosts(purposes[i], f);
    }
  }

  /** An answer counts by its first words; what is neither a yes nor a no is neutral. */
  function AnswerFactor(answer: string): real {
    if "Yes" <= answer then 1.4 else if "No" <= answer then 0.5 else 1.0
  }

  lemma AnswersCount(answer: string)
    ensures PortabilityMult(answer) == AnswerFactor(answer)
  {
    var a := if answer == "" then "Neutral" else answer;
    assert "Yes" <= a ==> a[0] == 'Y';
    assert "No" <= a ==> a[1] == 'o';
    assert "Neutral" <= a ==> a[0] == 'N' && a[1] == 'e';
  }

  /** A stored priority, 1 where none is stored, times the boost; for portability also times the answer. */
  lemma WhatAPreferenceWeighs(pref: Pref, f: Factor, boost: real)
    requires IsBoost(pref.purposes, f, boost)
    ensures var priority := if f in pref.priorities then pref.priorities[f] as real else 1.0;
            RawWeight(Personalized(pref), f)
            == Times(priority, boost, if f == Portability then AnswerFactor(pref.portability) else 1.0)
  {
    FoldIsTheBoost(pref.purposes, f, boost);
    AnswersCount(pref.portability);
  }

  /** Without a preference the profile's weight counts, 1 where it names none, and the default one without a profile. */
  lemma WhatAProfileWeighs(profile: Option<map<Factor, real>>, f: Factor)
    ensures var weights := if profile == None || profile == Some(map[]) then DEFAULT_PRIORITY else profile.value;
            RawWeight(General(profile), f) == if f in weights then weights[f] else 1.0
  {
  }

  /** The default profile counts the factors down from 8 to 1, in the order of FACTORS. */
  lemma TheDefaultCountsDown(i: nat)
    requires i < |FACTORS|
    ensures RawWeight(General(None), FACTORS[i]) == 8.0 - i as real
  {
  }

  /** A factor's share of the score is its weight's share of all the weights. */
  lemma SharesAreProportional(mode: Mode, f: Factor)
    requires TotalWeight(mode) != 0.0
    ensures FinalWeights(mode)[IndexOf(f)] * TotalWeight(mode) == RawWeight(mode, f)
  {
    var ws := RawWeights(mode);
    QuotientTimes(ws[IndexOf(f)], TotalWeight(mode));
  }

  lemma QuotientTimes(w: real, total: real)
    requires total != 0.0
    ensures w / total * total == w
  {
  }

  /** Where a purpose's modifiers prefer one factor to another, so do the weights of its use case. */
  ghost predicate Mirrors(purpose: string, useCase: string) {
    purpose in PURPOSE_MODIFIERS && useCase in USE_CASE_PRIORITIES
    && forall f: Factor, g: Factor :: Prefers(PURPOSE_MODIFIERS[purpose], f, g) ==>
         Prefers(USE_CASE_PRIORITIES[useCase], f, g)
  }

  /** The first factor counts more than the second; one that is not named counts 1. */
  predicate Prefers(weights: map<Factor, real>, f: Factor, g: Factor) {
    (if f in weights then weights[f] else 1.0) > if g in weights then weights[g] else 1.0
  }

  lemma OfficeMirrors()
    ensures Mirrors("Office/Study", "office_study")
  {
  }

  lemma ProgrammingMirrors()
    ensures Mirrors("Programming/Development", "programming")
  {
  }

  lemma GamingMirrors()
    ensures Mirrors("Gaming", "gaming")
  {
  }

  lemma CreativeWorkMirrors()
    ensures Mirrors("Creative Work", "creative_work")
  {
  }

  lemma GeneralUseMirrors()
    ensures Mirrors("General Use", "general_use")
  {
  }

  /** The modifiers of each purpose rank the factors as the weights of its use case do. */
  lemma PurposesMirrorTheProfiles()
    ensures Mirrors("Office/Study", "office_study") && Mirrors("Programming/Development", "programming")
    ensures Mirrors("Gaming", "gaming") && Mirrors("Creative Work", "creative_work")
    ensures Mirrors("General Use", "general_use")
  {
    OfficeMirrors();
    ProgrammingMirrors();
    GamingMirrors();
    CreativeWorkMirrors();
    GeneralUseMirrors();
  }

  lemma {:induction false} SumsDiffer(xs: seq<real>, ys: seq<real>, k: nat, n: nat)
    requires |xs| == |ys| && k < |xs| && n <= |xs|
    requires forall i :: 0 <= i < |xs| && i != k ==> xs[i] == ys[i]
    ensures Sum(xs, n) - Sum(ys, n) == if k < n then xs[k] - ys[k] else 0.0
  {
    if n == 0 {
    } else {
      SumsDiffer(xs, ys, k, n - 1);
    }
  }

  lemma {:induction false} SumHoldsTwo(xs: seq<real>, j: nat, k: nat, n: nat)
    requires j < |xs| && k < |xs| && j != k && n <= |xs|
    requires forall i :: 0 <= i < |xs| ==> xs[i] >= 0.0
    ensures Sum(xs, n) >= (if j < n then xs[j] else 0.0) + if k < n then xs[k] else 0.0
  {
    if n == 0 {
    } else {
      SumHoldsTwo(xs, j, k, n - 1);
    }
  }

  lemma LargerPartLargerShare(low: real, high: real, rest: real)
    requires 0.0 <= low < high && rest > 0.0
    ensures low / (low + rest) < high / (high + rest)
  {
    var a, b := low + rest, high + rest;
    var x, y := low / a, high / b;
    PositiveProduct(high - low, rest);
    assert low * b < high * a;
    assert x * a == low && y * b == high;
    assert x * (a * b) == x * a * b && y * (a * b) == y * b * a;
    PositiveProduct(a, b);
    CancelFactor(x, y, a * b);
  }

  lemma CancelFactor(x: real, y: real, c: real)
    requires c > 0.0 && x * c < y * c
    ensures x < y
  {
    if y <= x {
      MulOrder(y, x, c);
    }
  }

  lemma AnswerMovesOnlyPortability(pref: Pref, low: string, high: string)
    requires AnswerFactor(low) < AnswerFactor(high)
    requires Portability in pref.priorities ==> pref.priorities[Portability] > 0
    ensures var l, h := Personalized(pref.(portability := low)), Personalized(pref.(portability := high));
            && RawWeight(l, Portability) < RawWeight(h, Portability)
            && forall f :: f != Portability ==> RawWeight(l, f) == RawWeight(h, f)
  {
    var l := Personalized(pref.(portability := low));
    AnswersCount(low);
    AnswersCount(high);
    PurposesFoldToTheLargest(pref.purposes, Portability, |pref.purposes|);
    StricterTimes(BaseWeight(l, Portability), PurposeOf(l, Portability), AnswerFactor(low), AnswerFactor(high));
  }

  /**
   Wanting portability more, from no over neutral to yes, makes weight count for strictly more of
   the score, unless its priority is 0 or nothing else counts at all; and no other raw weight moves.
   */
  lemma PortabilityAnswersWeighInOrder(pref: Pref, low: string, high: string, other: Factor)
    requires AnswerFactor(low) < AnswerFactor(high)
    requires Portability in pref.priorities ==> pref.priorities[Portability] > 0
    requires forall f :: f in pref.priorities ==> pref.priorities[f] >= 0
    requires other != Portability && (other in pref.priorities ==> pref.priorities[other] > 0)
    ensures var l, h := Personalized(pref.(portability := low)), Personalized(pref.(portability := high));
            && FairWeights(l) && FairWeights(h)
            && FinalWeights(l)[IndexOf(Portability)] < FinalWeights(h)[IndexOf(Portability)]
            && forall f :: f != Portability ==> RawWeight(l, f) == RawWeight(h, f)
  {
    var l, h := Personalized(pref.(portability := low)), Personalized(pref.(portability := high));
    var k, j := IndexOf(Portability), IndexOf(other);
    var ls, hs := RawWeights(l), RawWeights(h);
    PrioritiesMakeFairWeights(l);
    PrioritiesMakeFairWeights(h);
    AnswerMovesOnlyPortability(pref, low, high);
    RawWeightSign(l, other);
    assert ls[j] == RawWeight(l, other) && ls[k] == RawWeight(l, Portability) && hs[k] == RawWeight(h, Portability);
    OneLargerWeight(ls, hs, j, k);
  }

  lemma OneLargerWeight(ls: seq<real>, hs: seq<real>, j: nat, k: nat)
    requires |ls| == |hs| && j < |ls| && k < |ls| && j != k
    requires forall i :: 0 <= i < |ls| ==> ls[i] >= 0.0
    requires forall i :: 0 <= i < |ls| && i != k ==> ls[i] == hs[i]
    requires ls[j] > 0.0 && ls[k] < hs[k]
    ensures Sum(ls, |ls|) > 0.0 && Sum(hs, |hs|) > 0.0
    ensures ls[k] / Sum(ls, |ls|) < hs[k] / Sum(hs, |hs|)
  {
    SumsDiffer(hs, ls, k, |ls|);
    SumHoldsTwo(ls, j, k, |ls|);
    LargerPartLargerShare(ls[k], hs[k], Sum(ls, |ls|) - ls[k]);
  }

  lemma StricterTimes(base: real, mod: real, low: real, high: real)
    requires base > 0.0 && mod > 0.0 && low < high
    ensures Times(base, mod, low) < Times(base, mod, high)
  {
    PositiveProduct(base, mod);
    PositiveProduct(base * mod, high - low);
  }

  // --- From the factors to the score -----------------------------------------------------------

  /** Alike everywhere but at k. */
  predicate AlikeBut(xs: seq<real>, ys: seq<real>, k: nat) {
    k < |xs| == |ys| && forall i :: 0 <= i < |xs| && i != k ==> xs[i] == ys[i]
  }

  lemma {:induction false} DotsDiffer(xs: seq<real>, ys: seq<real>, ws: seq<real>, k: nat, n: nat)
    requires AlikeBut(xs, ys, k) && |xs| == |ws| && n <= |xs|
    ensures Dot(xs, ws, n) - Dot(ys, ws, n) == if k < n then (xs[k] - ys[k]) * ws[k] else 0.0
  {
    if n == 0 {
    } else {
      DotsDiffer(xs, ys, ws, k, n - 1);
    }
  }

  /** Two score lists alike but in one factor weigh as much apart as that factor's difference times its share. */
  lemma OneScoreMovesTheSumByItsShare(xs: seq<real>, ys: seq<real>, mode: Mode, k: nat)
    requires TotalWeight(mode) != 0.0 && |xs| == |FACTORS| && AlikeBut(xs, ys, k)
    ensures Weighed(xs, mode) - Weighed(ys, mode) == (xs[k] - ys[k]) * FinalWeights(mode)[k]
  {
    DotsDiffer(xs, ys, FinalWeights(mode), k, |FACTORS|);
  }

  /** Two laptops alike in all factor scores but one differ in the score by that factor's difference times its share. */
  lemma OneFactorMovesTheScoreByItsShare(p: Product, q: Product, r: Ranges, mode: Mode, k: nat)
    requires TotalWeight(mode) != 0.0
    requires AlikeBut(FactorScores(p, r, mode), FactorScores(q, r, mode), k)
    ensures WeightedSum(p, r, mode) - WeightedSum(q, r, mode)
            == (FactorScores(p, r, mode)[k] - FactorScores(q, r, mode)[k]) * FinalWeights(mode)[k]
  {
    OneScoreMovesTheSumByItsShare(FactorScores(p, r, mode), FactorScores(q, r, mode), mode, k);
  }

  lemma {:induction false} DotOfEqualScores(xs: seq<real>, ws: seq<real>, x: real, n: nat)
    requires n <= |xs| == |ws| && forall i :: 0 <= i < |xs| ==> xs[i] == x
    ensures Dot(xs, ws, n) == x * Sum(ws, n)
  {
    if n == 0 {
    } else {
      DotOfEqualScores(xs, ws, x, n - 1);
    }
  }

  /** A laptop that scores x in every factor has x as its weighted sum, whatever the weights. */
  lemma EvenFactorsGiveTheirOwnScore(p: Product, r: Ranges, mode: Mode, x: real)
    requires FairWeights(mode)
    requires forall f: Factor :: FactorScore(f, p, r, mode) == x
    ensures WeightedSum(p, r, mode) == x
  {
    WeightsSumToOne(mode);
    DotOfEqualScores(FactorScores(p, r, mode), FinalWeights(mode), x, |FACTORS|);
  }

  /** The score is withheld only when both processors are unknown; one unknown counts as a 50 like any other. */
  lemma WithheldIffBothUnknown(p: Product, r: Ranges, mode: Mode)
    requires TotalWeight(mode) != 0.0
    ensures Score(p, r, mode).None? <==> p.cpuMark.None? && p.gpuMark.None?
    ensures p.cpuMark.None? ==> FactorScore(Cpu, p, r, mode) == 50.0
    ensures p.gpuMark.None? ==> FactorScore(Gpu, p, r, mode) == 50.0
  {
  }
}
