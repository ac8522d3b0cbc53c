/**
 What the token budget promises over whole runs: every rolling window's charges against the
 budget, when calls return in any order and their charges are corrected while others wait.
 */
module BudgetWindows {
  /** A charge: when its call was admitted, at what estimate, and what it stands at now. */
  datatype Entry = Entry(time: real, estimate: nat, tokens: nat, corrected: bool)

  /** The tracked charges are `history[first..]`. */
  datatype Sys = Sys(history: seq<Entry>, first: nat, now: real)

  datatype Step =
    | Admit(time: real, tokens: nat)
    | Wait(time: real, tokens: nat)
    | Correct(i: nat, tokens: nat)

  function Tokens(e: Entry): nat { e.tokens }

  /** The smaller of what a charge was admitted at and what it stands at. */
  function Floor(e: Entry): nat { if e.tokens < e.estimate then e.tokens else e.estimate }

  /** By how much the correction raised a charge. */
  function Raise(e: Entry): nat { e.tokens - Floor(e) }

  /** The total of entries i..n. */
  function Span(h: seq<Entry>, i: nat, n: nat, f: Entry -> nat): nat
    requires n <= |h|
  {
    if n <= i then 0 else Span(h, i, n - 1, f) + f(h[n - 1])
  }

  function FirstLive(h: seq<Entry>, first: nat, now: real, window: real): (k: nat)
    requires first <= |h|
    ensures first <= k <= |h|
    decreases |h| - first
  {
    if first < |h| && now - h[first].time >= window then FirstLive(h, first + 1, now, window) else first
  }

  predicate HasRoom(h: seq<Entry>, first: nat, tokens: nat, budget: nat)
    requires first <= |h|
  {
    first == |h| || Span(h, first, |h|, Tokens) + tokens <= budget
  }

  predicate Enabled(s: Sys, step: Step, budget: nat, window: real) {
    s.first <= |s.history| &&
    match step
    case Admit(time, tokens) => s.now <= time
        && HasRoom(s.history, FirstLive(s.history, s.first, time, window), tokens, budget)
    case Wait(time, tokens) => s.now <= time
        && !HasRoom(s.history, FirstLive(s.history, s.first, time, window), tokens, budget)
    case Correct(i, tokens) => i < |s.history| && !s.history[i].corrected && tokens > 0
  }

  function After(s: Sys, step: Step, budget: nat, window: real): Sys
    requires Enabled(s, step, budget, window)
  {
    match step
    case Admit(time, tokens) =>
      Sys(s.history + [Entry(time, tokens, tokens, false)], FirstLive(s.history, s.first, time, window), time)
    case Wait(time, _) => s.(first := FirstLive(s.history, s.first, time, window), now := time)
    case Correct(i, tokens) => s.(history := s.history[i := s.history[i].(tokens := tokens, corrected := true)])
  }

  ghost predicate Ordered(h: seq<Entry>, now: real) {
    && (forall i, j :: 0 <= i <= j < |h| ==> h[i].time <= h[j].time)
    && (forall i :: 0 <= i < |h| ==> h[i].time <= now)
  }

  ghost predicate Expired(h: seq<Entry>, first: nat, now: real, window: real) {
    first <= |h| && forall i :: 0 <= i < first ==> now - h[i].time >= window
  }

  ghost predicate Untouched(h: seq<Entry>) {
    forall i :: 0 <= i < |h| && !h[i].corrected ==> h[i].tokens == h[i].estimate
  }

  /** Any two charges less than a window apart, and all between them, fit the budget. */
  ghost predicate Fits(h: seq<Entry>, budget: nat, window: real) {
    forall i, j :: 0 <= i < j < |h| && h[j].time - h[i].time < window ==> Span(h, i, j + 1, Floor) <= budget
  }

  ghost predicate Inv(s: Sys, budget: nat, window: real) {
    && Ordered(s.history, s.now) && Expired(s.history, s.first, s.now, window)
    && Untouched(s.history) && Fits(s.history, budget, window)
  }

  lemma {:induction false} FirstLiveIsFirst(h: seq<Entry>, first: nat, now: real, window: real)
    requires first <= |h|
    requires forall i :: 0 <= i < first ==> now - h[i].time >= window
    ensures var k := FirstLive(h, first, now, window);
            && (forall i :: 0 <= i < k ==> now - h[i].time >= window)
            && (k < |h| ==> now - h[k].time < window)
    decreases |h| - first
  {
    if first < |h| && now - h[first].time >= window {
      FirstLiveIsFirst(h, first + 1, now, window);
    }
  }

  lemma {:induction false} SpanOfPrefix(h: seq<Entry>, g: seq<Entry>, i: nat, n: nat, f: Entry -> nat)
    requires n <= |h| && n <= |g| && forall k :: 0 <= k < n ==> h[k] == g[k]
    ensures Span(h, i, n, f) == Span(g, i, n, f)
  {
    if n > i {
      SpanOfPrefix(h, g, i, n - 1, f);
    }
  }

  /** A shorter span of entries that each count no more totals no more. */
  lemma {:induction false} SpanIsMonotone(h: seq<Entry>, g: seq<Entry>, i: nat, k: nat, n: nat, f: Entry -> nat,
      f': Entry -> nat)
    requires k <= i && n <= |h| && n <= |g|
    requires forall m :: i <= m < n ==> f(h[m]) <= f'(g[m])
    ensures Span(h, i, n, f) <= Span(g, k, n, f')
  {
    if n > i {
      SpanIsMonotone(h, g, i, k, n - 1, f, f');
    }
  }

  lemma AdmitKeepsFits(h: seq<Entry>, first: nat, time: real, tokens: nat, budget: nat, window: real)
    requires Ordered(h, time) && Fits(h, budget, window) && Expired(h, first, time, window)
    requires HasRoom(h, first, tokens, budget)
    ensures Fits(h + [Entry(time, tokens, tokens, false)], budget, window)
  {
    var g := h + [Entry(time, tokens, tokens, false)];
    forall i, j | 0 <= i < j < |g| && g[j].time - g[i].time < window
      ensures Span(g, i, j + 1, Floor) <= budget
    {
      if j < |h| {
        SpanOfPrefix(g, h, i, j + 1, Floor);
      } else {
        assert i >= first;
        SpanOfPrefix(g, h, i, |h|, Floor);
        SpanIsMonotone(h, h, i, first, |h|, Floor, Tokens);
      }
    }
  }

  lemma CorrectKeepsFits(h: seq<Entry>, m: nat, tokens: nat, budget: nat, window: real)
    requires Fits(h, budget, window) && Untouched(h) && m < |h| && !h[m].corrected
    ensures Fits(h[m := h[m].(tokens := tokens, corrected := true)], budget, window)
  {
    var g := h[m := h[m].(tokens := tokens, corrected := true)];
    forall i, j | 0 <= i < j < |g| && g[j].time - g[i].time < window
      ensures Span(g, i, j + 1, Floor) <= budget
    {
      SpanIsMonotone(g, h, i, i, j + 1, Floor, Floor);
    }
  }

  lemma CorrectKeepsTheRest(h: seq<Entry>, first: nat, m: nat, tokens: nat, now: real, window: real)
    requires Ordered(h, now) && Expired(h, first, now, window) && Untouched(h) && m < |h|
    ensures var g := h[m := h[m].(tokens := tokens, corrected := true)];
            Ordered(g, now) && Expired(g, first, now, window) && Untouched(g)
  {
    var g := h[m := h[m].(tokens := tokens, corrected := true)];
    assert forall i :: 0 <= i < |h| ==> g[i].time == h[i].time;
  }

  lemma AdmitKeepsTheRest(h: seq<Entry>, first: nat, e: Entry, now: real, window: real)
    requires Ordered(h, now) && Expired(h, first, now, window) && Untouched(h) && e.time == now
             && e.tokens == e.estimate
    ensures Ordered(h + [e], now) && Expired(h + [e], first, now, window) && Untouched(h + [e])
  {
  }

  lemma StepKeepsInv(s: Sys, step: Step, budget: nat, window: real)
    requires Inv(s, budget, window) && Enabled(s, step, budget, window)
    ensures Inv(After(s, step, budget, window), budget, window)
  {
    match step
    case Admit(time, tokens) =>
      var first := FirstLive(s.history, s.first, time, window);
      FirstLiveIsFirst(s.history, s.first, time, window);
      AdmitKeepsTheRest(s.history, first, Entry(time, tokens, tokens, false), time, window);
      AdmitKeepsFits(s.history, first, time, tokens, budget, window);
    case Wait(time, _) =>
      FirstLiveIsFirst(s.history, s.first, time, window);
    case Correct(i, tokens) =>
      CorrectKeepsTheRest(s.history, s.first, i, tokens, s.now, window);
      CorrectKeepsFits(s.history, i, tokens, budget, window);
  }

  // --- Runs ------------------------------------------------------------------------------

  predicate IsRun(s: Sys, steps: seq<Step>, budget: nat, window: real)
    decreases |steps|
  {
    steps == [] ||
    (Enabled(s, steps[0], budget, window) && IsRun(After(s, steps[0], budget, window), steps[1..], budget, window))
  }

  function Run(s: Sys, steps: seq<Step>, budget: nat, window: real): Sys
    requires IsRun(s, steps, budget, window)
    decreases |steps|
  {
    if steps == [] then s else Run(After(s, steps[0], budget, window), steps[1..], budget, window)
  }

  lemma {:induction false} RunKeepsInv(s: Sys, steps: seq<Step>, budget: nat, window: real)
    requires Inv(s, budget, window) && IsRun(s, steps, budget, window)
    ensures Inv(Run(s, steps, budget, window), budget, window)
    decreases |steps|
  {
    if steps == [] {
    } else {
      StepKeepsInv(s, steps[0], budget, window);
      RunKeepsInv(After(s, steps[0], budget, window), steps[1..], budget, window);
    }
  }

  // --- Rolling windows -------------------------------------------------------------------

  predicate InWindow(e: Entry, from: real, window: real) {
    from <= e.time < from + window
  }

  /** What the charges in [from, from + window), among the first n, come to. */
  function WindowTotal(h: seq<Entry>, n: nat, from: real, window: real, f: Entry -> nat): nat
    requires n <= |h|
  {
    if n == 0 then 0
    else WindowTotal(h, n - 1, from, window, f) + if InWindow(h[n - 1], from, window) then f(h[n - 1]) else 0
  }

  function WindowCount(h: seq<Entry>, n: nat, from: real, window: real): nat
    requires n <= |h|
  {
    if n == 0 then 0 else WindowCount(h, n - 1, from, window) + if InWindow(h[n - 1], from, window) then 1 else 0
  }

  lemma {:induction false} NothingBefore(h: seq<Entry>, n: nat, from: real, window: real, f: Entry -> nat)
    requires n <= |h| && forall i :: 0 <= i < n ==> h[i].time < from
    ensures WindowTotal(h, n, from, window, f) == 0 && WindowCount(h, n, from, window) == 0
  {
    if n == 0 {
    } else {
      NothingBefore(h, n - 1, from, window, f);
    }
  }

  /** The charges of a window that holds the last of n charges are a span that ends with it. */
  lemma {:induction false} WindowIsASpan(h: seq<Entry>, n: nat, from: real, window: real, f: Entry -> nat, now: real)
    returns (i: nat)
    requires 0 < n <= |h| && Ordered(h, now) && InWindow(h[n - 1], from, window)
    ensures i < n && InWindow(h[i], from, window)
    ensures WindowTotal(h, n, from, window, f) == Span(h, i, n, f) && WindowCount(h, n, from, window) == n - i
  {
    if n > 1 && InWindow(h[n - 2], from, window) {
      i := WindowIsASpan(h, n - 1, from, window, f, now);
    } else {
      i := n - 1;
      assert n > 1 ==> h[n - 2].time <= h[n - 1].time;
      NothingBefore(h, n - 1, from, window, f);
      assert Span(h, i, i, f) == 0;
    }
  }

  lemma {:induction false} WindowsFit(h: seq<Entry>, n: nat, from: real, window: real, budget: nat, now: real)
    requires n <= |h| && Ordered(h, now) && Fits(h, budget, window)
    ensures WindowCount(h, n, from, window) <= 1 || WindowTotal(h, n, from, window, Floor) <= budget
  {
    if n == 0 {
    } else {
      if InWindow(h[n - 1], from, window) {
        var i := WindowIsASpan(h, n, from, window, Floor, now);
        assert i < n - 1 ==> Span(h, i, n - 1 + 1, Floor) <= budget;
      } else {
        WindowsFit(h, n - 1, from, window, budget, now);
      }
    }
  }

  lemma {:induction false} TokensAreFloorAndRaise(h: seq<Entry>, n: nat, from: real, window: real)
    requires n <= |h|
    ensures WindowTotal(h, n, from, window, Tokens) ==
            WindowTotal(h, n, from, window, Floor) + WindowTotal(h, n, from, window, Raise)
  {
    if n == 0 {
    } else {
      TokensAreFloorAndRaise(h, n - 1, from, window);
    }
  }

  /**
   In every run, whatever the corrections, a rolling window that holds more than one call
   exceeds the budget by at most what corrections raised the charges in it.
   */
  lemma OvershootIsWhatWasRaised(start: real, steps: seq<Step>, budget: nat, window: real, from: real)
    requires IsRun(Sys([], 0, start), steps, budget, window)
    ensures var h := Run(Sys([], 0, start), steps, budget, window).history;
            WindowCount(h, |h|, from, window) <= 1
            || WindowTotal(h, |h|, from, window, Tokens) <= budget + WindowTotal(h, |h|, from, window, Raise)
  {
    RunKeepsInv(Sys([], 0, start), steps, budget, window);
    var s := Run(Sys([], 0, start), steps, budget, window);
    WindowsFit(s.history, |s.history|, from, window, budget, s.now);
    TokensAreFloorAndRaise(s.history, |s.history|, from, window);
  }

  lemma {:induction false} NothingRaised(h: seq<Entry>, n: nat, from: real, window: real)
    requires n <= |h| && forall i :: 0 <= i < |h| ==> h[i].tokens <= h[i].estimate
    ensures WindowTotal(h, n, from, window, Raise) == 0
  {
    if n == 0 {
    } else {
      NothingRaised(h, n - 1, from, window);
    }
  }

  /** When no correction raised a charge, every rolling window is within the budget or holds a single call. */
  lemma WindowsStayWithinBudget(start: real, steps: seq<Step>, budget: nat, window: real, from: real)
    requires IsRun(Sys([], 0, start), steps, budget, window)
    requires forall e :: e in Run(Sys([], 0, start), steps, budget, window).history ==> e.tokens <= e.estimate
    ensures var h := Run(Sys([], 0, start), steps, budget, window).history;
            WindowCount(h, |h|, from, window) <= 1 || WindowTotal(h, |h|, from, window, Tokens) <= budget
  {
    var h := Run(Sys([], 0, start), steps, budget, window).history;
    OvershootIsWhatWasRaised(start, steps, budget, window, from);
    NothingRaised(h, |h|, from, window);
  }

  /**
   The condition is needed: any correction above an estimate that left room for a second
   call breaks the budget in some run, here one admitting that second call at the same moment.
   */
  lemma AnyRaiseCanBreakTheBudget(estimate: nat, reported: nat, budget: nat, window: real)
    requires 0 < estimate < budget && estimate < reported && window > 0.0
    ensures var steps := [Admit(0.0, estimate), Admit(0.0, budget - estimate), Correct(0, reported)];
            && IsRun(Sys([], 0, 0.0), steps, budget, window)
            && var h := Run(Sys([], 0, 0.0), steps, budget, window).history;
               WindowCount(h, |h|, 0.0, window) == 2 && WindowTotal(h, |h|, 0.0, window, Tokens) > budget
  {
    var s0 := Sys([], 0, 0.0);
    var a, b, c := Admit(0.0, estimate), Admit(0.0, budget - estimate), Correct(0, reported);
    var s1 := After(s0, a, budget, window);
    assert Span(s1.history, 0, 1, Tokens) == estimate;
    var s2 := After(s1, b, budget, window);
    var s3 := After(s2, c, budget, window);
    var steps := [a, b, c];
    assert steps[1..] == [b, c] && [b, c][1..] == [c] && [c][1..] == [];
    assert IsRun(s3, [], budget, window) && IsRun(s2, [c], budget, window) && IsRun(s1, [b, c], budget, window);
    assert Run(s1, [b, c], budget, window) == Run(s2, [c], budget, window) == Run(s3, [], budget, window);
    assert Run(s0, steps, budget, window) == s3;
    var h := s3.history;
    assert h == [Entry(0.0, estimate, reported, true), Entry(0.0, budget - estimate, budget - estimate, false)];
    assert WindowTotal(h, 1, 0.0, window, Tokens) == reported;
    assert WindowCount(h, 1, 0.0, window) == 1;
  }

  /** A call bigger than the whole budget is let in only on its own, and then at once. */
  lemma OversizedCallGoesAlone(s: Sys, time: real, tokens: nat, budget: nat, window: real)
    requires s.first <= |s.history| && s.now <= time && tokens > budget
    ensures Enabled(s, Admit(time, tokens), budget, window) <==>
            FirstLive(s.history, s.first, time, window) == |s.history|
  {
  }
}
