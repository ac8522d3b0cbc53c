/**
 The class of token_budget.dfy takes the steps of budget_windows.dfy: an admission is the
 machine's, and so is every refusal, from whatever state the corrections of others have left.
 */
module BudgetRefinement {
  import opened Common
  import opened TokenBudgets
  import W = BudgetWindows

  ghost function EntryOf(c: Charge): W.Entry
    reads c
  {
    W.Entry(c.time, c.estimate, c.tokens, c.corrected)
  }

  /** The first n charges as the machine sees them. */
  ghost function Entries(history: seq<Charge>, n: nat): (h: seq<W.Entry>)
    requires n <= |history|
    reads history
    ensures |h| == n
  {
    if n == 0 then [] else Entries(history, n - 1) + [EntryOf(history[n - 1])]
  }

  lemma {:induction false} EntryAt(history: seq<Charge>, n: nat, i: nat)
    requires i < n <= |history|
    ensures Entries(history, n)[i] == EntryOf(history[i])
  {
    if i < n - 1 {
      EntryAt(history, n - 1, i);
    }
  }

  /** The tracked charges are those of the history from d on. */
  ghost predicate FromIndex(spent: seq<Charge>, history: seq<Charge>, d: nat) {
    d + |spent| == |history| && forall i :: 0 <= i < |spent| ==> spent[i] == history[d + i]
  }

  lemma TrackedFromIndex(spent: seq<Charge>, history: seq<Charge>, now: real, window: real)
    requires Tracks(spent, history, now, window)
    ensures |spent| <= |history| && FromIndex(spent, history, |history| - |spent|)
  {
  }

  lemma {:induction false} SameTotal(history: seq<Charge>, n: nat, spent: seq<Charge>, d: nat, k: nat)
    requires FromIndex(spent, history, d) && n <= |history| && d + k <= n && k <= |spent|
    ensures W.Span(Entries(history, n), d, d + k, W.Tokens) == Total(spent, k)
  {
    if k == 0 {
    } else {
      SameTotal(history, n, spent, d, k - 1);
      EntryAt(history, n, d + k - 1);
      assert spent[k - 1] == history[d + (k - 1)];
    }
  }

  ghost predicate IsStep(before: W.Sys, step: W.Step, budget: nat, window: real, after: W.Sys) {
    W.Enabled(before, step, budget, window) && W.After(before, step, budget, window) == after
  }

  /** What has expired by now is what the machine drops: from the old first live charge to the new one. */
  lemma {:induction false} FirstLiveIs(h: seq<W.Entry>, before: nat, d: nat, now: real, window: real)
    requires before <= d <= |h|
    requires forall i :: before <= i < d ==> now - h[i].time >= window
    requires d < |h| ==> now - h[d].time < window
    ensures W.FirstLive(h, before, now, window) == d
    decreases d - before
  {
    if before == d {
    } else {
      FirstLiveIs(h, before + 1, d, now, window);
    }
  }

  /** The charges before d have expired, as the machine sees them. */
  lemma ExpiredEntries(history: seq<Charge>, n: nat, d: nat, now: real, window: real)
    requires d <= n <= |history| && forall i :: 0 <= i < d ==> now - history[i].time >= window
    ensures forall i :: 0 <= i < d ==> now - Entries(history, n)[i].time >= window
  {
    forall i | 0 <= i < d
      ensures now - Entries(history, n)[i].time >= window
    {
      EntryAt(history, n, i);
    }
  }

  /** What is left of the history before its last charge, as the machine sees it. */
  lemma BeforeTheLast(history: seq<Charge>, spent: seq<Charge>, d: nat, now: real, window: real, budget: nat)
    requires FromIndex(spent, history, d) && spent != []
    requires |spent| > 1 ==> now - spent[0].time < window
    requires |spent| == 1 || Total(spent, |spent|) <= budget
    ensures var h := Entries(history, |history| - 1);
            && (d < |h| ==> now - h[d].time < window)
            && (d == |h| || W.Span(h, d, |h|, W.Tokens) + spent[|spent| - 1].tokens <= budget)
  {
    SameTotal(history, |history| - 1, spent, d, |spent| - 1);
    if |spent| > 1 {
      assert spent[0] == history[d + 0];
      EntryAt(history, |history| - 1, d);
    }
  }

  /** What `Acquire` promises is the machine's Admit step, from any earlier clock and first live charge. */
  lemma AdmissionIsAStep(history: seq<Charge>, spent: seq<Charge>, entry: Charge, tokens: nat, before: nat, last: real,
      now: real, window: real, budget: nat)
    requires Tracks(spent, history, now, window) && IsAdmitted(spent, entry, tokens, now, window, budget)
    requires before <= |history| - |spent| && last <= now
    ensures var n, d := |history| - 1, |history| - |spent|;
            IsStep(W.Sys(Entries(history, n), before, last), W.Admit(now, tokens), budget, window,
                   W.Sys(Entries(history, n + 1), d, now))
  {
    var n, d := |history| - 1, |history| - |spent|;
    TrackedFromIndex(spent, history, now, window);
    BeforeTheLast(history, spent, d, now, window, budget);
    ExpiredEntries(history, n, d, now, window);
    FirstLiveIs(Entries(history, n), before, d, now, window);
    SameLast(history, spent, d);
    LastEntry(history, n, W.Entry(now, tokens, tokens, false));
  }

  lemma SameLast(history: seq<Charge>, spent: seq<Charge>, d: nat)
    requires FromIndex(spent, history, d) && spent != []
    ensures history != [] && history[|history| - 1] == spent[|spent| - 1]
  {
    assert spent[|spent| - 1] == history[d + (|spent| - 1)];
  }

  lemma LastEntry(history: seq<Charge>, n: nat, e: W.Entry)
    requires n + 1 == |history| && EntryOf(history[n]) == e
    ensures Entries(history, n + 1) == Entries(history, n) + [e]
  {
  }

  lemma WaitIsAStep(h: seq<W.Entry>, before: nat, d: nat, tokens: nat, last: real, now: real, window: real, budget: nat)
    requires before <= d < |h| && last <= now && W.FirstLive(h, before, now, window) == d
    requires W.Span(h, d, |h|, W.Tokens) + tokens > budget
    ensures IsStep(W.Sys(h, before, last), W.Wait(now, tokens), budget, window, W.Sys(h, d, now))
  {
  }

  /** A turn of the loop that admits nothing is the machine's Wait step. */
  lemma RefusalIsAStep(history: seq<Charge>, spent: seq<Charge>, tokens: nat, before: nat, last: real, now: real,
      window: real, budget: nat)
    requires Tracks(spent, history, now, window) && spent != [] && now - spent[0].time < window
    requires Total(spent, |spent|) + tokens > budget
    requires before <= |history| - |spent| && last <= now
    ensures IsStep(W.Sys(Entries(history, |history|), before, last), W.Wait(now, tokens), budget, window,
                   W.Sys(Entries(history, |history|), |history| - |spent|, now))
  {
    var n, d := |history|, |history| - |spent|;
    TrackedFromIndex(spent, history, now, window);
    SameTotal(history, n, spent, d, |spent|);
    assert spent[0] == history[d + 0];
    EntryAt(history, n, d);
    ExpiredEntries(history, n, d, now, window);
    FirstLiveIs(Entries(history, n), before, d, now, window);
    WaitIsAStep(Entries(history, n), before, d, tokens, last, now, window, budget);
  }

  // --- The object's own calls are steps ---------------------------------------------------

  ghost function SysOf(b: TokenBudget, clock: Clock): W.Sys
    reads b, clock, b.history
    requires b.Valid(clock)
  {
    W.Sys(Entries(b.history, |b.history|), |b.history| - |b.spent|, clock.now)
  }

  /** No two calls hold one charge: `Acquire` hands out a new one each time. */
  ghost predicate Distinct(charges: seq<Charge>) {
    forall i, j :: 0 <= i < j < |charges| ==> charges[i] != charges[j]
  }

  lemma {:induction false} EntriesAre(history: seq<Charge>, n: nat, h: seq<W.Entry>)
    requires n <= |history| && n <= |h| && forall i :: 0 <= i < n ==> h[i] == EntryOf(history[i])
    ensures Entries(history, n) == h[..n]
    ensures n == |h| ==> Entries(history, n) == h
  {
    assert n == |h| ==> h[..n] == h;
    if n == 0 {
    } else {
      EntriesAre(history, n - 1, h);
      assert h[..n] == h[..n - 1] + [h[n - 1]];
    }
  }

  lemma EveryEntryAt(history: seq<Charge>, n: nat)
    requires n <= |history|
    ensures forall i :: 0 <= i < n ==> Entries(history, n)[i] == EntryOf(history[i])
  {
    forall i | 0 <= i < n
      ensures Entries(history, n)[i] == EntryOf(history[i])
    {
      EntryAt(history, n, i);
    }
  }

  /** Each turn of the loop takes the machine from the state it found to the state it left. */
  method AttemptIsAStep(b: TokenBudget, tokens: nat, clock: Clock) returns (admitted: Option<Charge>)
    requires b.Valid(clock)
    modifies b`spent, b`history, clock`now
    ensures b.Valid(clock)
    ensures if admitted.None? then b.history == old(b.history)
            else fresh(admitted.value) && b.history == old(b.history) + [admitted.value]
    ensures IsStep(old(SysOf(b, clock)),
                   if admitted.Some? then W.Admit(clock.now, tokens) else W.Wait(clock.now, tokens),
                   b.budget, b.window, SysOf(b, clock))
  {
    ghost var at, n := SysOf(b, clock), |b.history|;
    EveryEntryAt(b.history, n);
    var sum;
    admitted, sum := b.Attempt(tokens, clock);
    EntriesAre(b.history, n, at.history);
    if admitted.Some? {
      AdmissionIsAStep(b.history, b.spent, admitted.value, tokens, at.first, at.now, clock.now, b.window, b.budget);
    } else {
      RefusalIsAStep(b.history, b.spent, tokens, at.first, at.now, clock.now, b.window, b.budget);
    }
  }

  lemma CorrectIsAStep(h: seq<W.Entry>, i: nat, tokens: nat, first: nat, now: real, window: real, budget: nat)
    requires i < |h| && !h[i].corrected && tokens > 0 && first <= |h|
    ensures IsStep(W.Sys(h, first, now), W.Correct(i, tokens), budget, window,
                   W.Sys(h[i := h[i].(tokens := tokens, corrected := true)], first, now))
  {
  }

  /** A call that returns a number corrects the charge it holds, which is one step too. */
  method OnLlmEndIsAStep(calls: ModelCalls, runId: nat, reported: nat, b: TokenBudget, clock: Clock, i: nat)
    requires b.Valid(clock) && Distinct(b.history) && reported != 0
    requires runId in calls.charged && i < |b.history| && calls.charged[runId] == b.history[i]
    requires !b.history[i].corrected
    modifies calls, calls.charged.Values
    ensures b.Valid(clock)
    ensures IsStep(old(SysOf(b, clock)), W.Correct(i, reported), b.budget, b.window, SysOf(b, clock))
  {
    ghost var n := |b.history|;
    ghost var h := Entries(b.history, n);
    EveryEntryAt(b.history, n);
    calls.OnLlmEnd(runId, Some(reported));
    EntriesAre(b.history, n, h[i := h[i].(tokens := reported, corrected := true)]);
    CorrectIsAStep(h, i, reported, |b.history| - |b.spent|, clock.now, b.window, b.budget);
  }
}
