/**
 The per-turn call log of app/agent/monitoring_service.py. The entry an open run shares
 with `model_calls` is an index into that list here, so a callback changes it in place in
 both at once, as in the source.
 */
module Monitoring {
  import opened Common

  type Run = nat

  /** A model's name, which the log only ever compares. */
  type Model = nat

  datatype Entry = Entry(
    step: nat, number: nat, model: Model, position: nat, answered: bool,
    errorType: Option<string>, timed: bool, tokensIn: Option<nat>, tokensOut: Option<nat>)

  datatype ModelAt = ModelAt(model: Model, position: nat)

  datatype Tokens = Tokens(tin: nat, tout: nat)

  datatype Log = Log(
    calls: seq<Entry>, open: map<Run, nat>, step: nat,
    model: Option<Model>, position: Option<nat>, fallback: bool,
    tokensIn: Option<nat>, tokensOut: Option<nat>, usage: map<ModelAt, Tokens>)

  const Empty := Log([], map[], 1, None, None, false, None, None, map[])

  function Started(l: Log, run: Run, model: Model, position: nat): Log {
    var e := Entry(l.step, |l.calls| + 1, model, position, false, None, false, None, None);
    l.(calls := l.calls + [e], open := l.open[run := |l.calls|])
  }

  predicate Wf(l: Log) {
    forall r :: r in l.open ==> l.open[r] < |l.calls|
  }

  function Charged(usage: map<ModelAt, Tokens>, key: ModelAt, tin: nat, tout: nat): map<ModelAt, Tokens> {
    usage[key := Plus(Row(usage, key), Tokens(tin, tout))]
  }

  /** A call that answered. Tokens are recorded only when the provider reported any. */
  function Ended(l: Log, run: Run, tin: nat, tout: nat): Log
    requires Wf(l)
  {
    if run !in l.open then l
    else
      var i := l.open[run];
      var e := l.calls[i].(answered := true, timed := true);
      var base := l.(open := l.open - {run}, model := Some(e.model), position := Some(e.position),
                     fallback := l.fallback || e.position > 0, step := l.step + 1);
      if tin != 0 || tout != 0
      then base.(calls := l.calls[i := e.(tokensIn := Some(tin), tokensOut := Some(tout))],
                 tokensIn := Some(l.tokensIn.GetOr(0) + tin), tokensOut := Some(l.tokensOut.GetOr(0) + tout),
                 usage := Charged(l.usage, ModelAt(e.model, e.position), tin, tout))
      else base.(calls := l.calls[i := e])
  }

  function Errored(l: Log, run: Run, errorType: string): Log
    requires Wf(l)
  {
    if run !in l.open then l
    else
      var i := l.open[run];
      l.(open := l.open - {run}, calls := l.calls[i := l.calls[i].(timed := true, errorType := Some(errorType))])
  }

  const UNFINISHED: string := "Unfinished"

  ghost function Finalized(l: Log): Log {
    l.(open := map[],
       calls := seq(|l.calls|, i requires 0 <= i < |l.calls| =>
                  if exists r :: r in l.open && l.open[r] == i
                  then l.calls[i].(timed := true, errorType := Some(UNFINISHED))
                  else l.calls[i]))
  }

  class Handler {
    var modelCalls: seq<Entry>
    var llmRuns: map<Run, nat>
    var step: nat
    var model: Option<Model>
    var modelPosition: Option<nat>
    var fallbackTriggered: bool
    var inputTokens: Option<nat>
    var outputTokens: Option<nat>
    var usageByModel: map<ModelAt, Tokens>

    ghost function View(): Log
      reads this
    {
      Log(modelCalls, llmRuns, step, model, modelPosition, fallbackTriggered, inputTokens, outputTokens, usageByModel)
    }

    constructor ()
      ensures View() == Empty
    {
      modelCalls, llmRuns, step := [], map[], 1;
      model, modelPosition, fallbackTriggered := None, None, false;
      inputTokens, outputTokens, usageByModel := None, None, map[];
    }

    method OnChatModelStart(run: Run, modelName: Model, position: nat)
      modifies this
      ensures View() == Started(old(View()), run, modelName, position)
    {
      llmRuns := llmRuns[run := |modelCalls|];
      modelCalls := modelCalls + [Entry(step, |modelCalls| + 1, modelName, position, false, None, false, None, None)];
    }

    /** The totals of the turn and the row of one model take the reported tokens. */
    method AddTokens(key: ModelAt, tin: nat, tout: nat)
      modifies this`inputTokens, this`outputTokens, this`usageByModel
      ensures View() == old(View()).(tokensIn := Some(old(inputTokens).GetOr(0) + tin),
                                     tokensOut := Some(old(outputTokens).GetOr(0) + tout),
                                     usage := Charged(old(usageByModel), key, tin, tout))
    {
      inputTokens, outputTokens := Some(inputTokens.GetOr(0) + tin), Some(outputTokens.GetOr(0) + tout);
      usageByModel := Charged(usageByModel, key, tin, tout);
    }

    method OnLlmEnd(run: Run, tin: nat, tout: nat)
      requires Wf(View())
      modifies this
      ensures View() == Ended(old(View()), run, tin, tout)
    {
      if run !in llmRuns {
        return;
      }
      var i := llmRuns[run];
      var e := modelCalls[i].(answered := true, timed := true);
      model, modelPosition, fallbackTriggered := Some(e.model), Some(e.position), fallbackTriggered || e.position > 0;
      if tin != 0 || tout != 0 {
        e := e.(tokensIn := Some(tin), tokensOut := Some(tout));
        AddTokens(ModelAt(e.model, e.position), tin, tout);
      }
      llmRuns, modelCalls, step := llmRuns - {run}, modelCalls[i := e], step + 1;
    }

    method OnLlmError(run: Run, errorType: string)
      requires Wf(View())
      modifies this
      ensures View() == Errored(old(View()), run, errorType)
    {
      if run !in llmRuns {
        return;
      }
      var i := llmRuns[run];
      llmRuns := llmRuns - {run};
      modelCalls := modelCalls[i := modelCalls[i].(timed := true, errorType := Some(errorType))];
    }

    method FinalizeIncompleteCalls()
      requires Wf(View())
      modifies this
      ensures View() == Finalized(old(View()))
    {
      var todo := llmRuns.Keys;
      while todo != {}
        invariant todo <= llmRuns.Keys && llmRuns == old(llmRuns) && |modelCalls| == |old(modelCalls)|
        invariant View() == old(View()).(calls := modelCalls)
        invariant forall i :: 0 <= i < |modelCalls| ==>
                    modelCalls[i] == if exists r :: r in llmRuns && r !in todo && llmRuns[r] == i
                                     then old(modelCalls)[i].(timed := true, errorType := Some(UNFINISHED))
                                     else old(modelCalls)[i]
      {
        var r :| r in todo;
        todo := todo - {r};
        var i := llmRuns[r];
        modelCalls := modelCalls[i := modelCalls[i].(timed := true, errorType := Some(UNFINISHED))];
      }
      llmRuns := map[];
    }
  }

  // --- Every log a turn can leave --------------------------------------------------------

  datatype Callback =
    | Start(run: Run, model: Model, position: nat)
    | End(run: Run, tin: nat, tout: nat)
    | Error(run: Run, errorType: string)

  /** Run ids are unique: no call is opened under an id that is still open. */
  predicate Allowed(l: Log, c: Callback) {
    c.Start? ==> c.run !in l.open
  }

  function OnCallback(l: Log, c: Callback): Log
    requires Wf(l)
  {
    match c
    case Start(run, model, position) => Started(l, run, model, position)
    case End(run, tin, tout) => Ended(l, run, tin, tout)
    case Error(run, errorType) => Errored(l, run, errorType)
  }

  datatype Sums = Sums(answers: nat, spent: Tokens)

  /** The answers among the first n calls, and the tokens all models spent on them. */
  function SumsOf(calls: seq<Entry>, n: nat): Sums
    requires n <= |calls|
  {
    if n == 0 then Sums(0, Tokens(0, 0))
    else
      var before, e := SumsOf(calls, n - 1), calls[n - 1];
      Sums(before.answers + (if e.answered then 1 else 0), Plus(before.spent, Spend(e)))
  }

  /** What the calls of one model at one chain position spent. */
  function SpentBy(calls: seq<Entry>, n: nat, k: ModelAt): Tokens
    requires n <= |calls|
  {
    if n == 0 then Tokens(0, 0)
    else if KeyOf(calls[n - 1]) == k then Plus(SpentBy(calls, n - 1, k), Spend(calls[n - 1]))
    else SpentBy(calls, n - 1, k)
  }

  function KeyOf(e: Entry): ModelAt {
    ModelAt(e.model, e.position)
  }

  function Spend(e: Entry): Tokens {
    Tokens(e.tokensIn.GetOr(0), e.tokensOut.GetOr(0))
  }

  function Plus(a: Tokens, b: Tokens): Tokens {
    Tokens(a.tin + b.tin, a.tout + b.tout)
  }

  function Row(usage: map<ModelAt, Tokens>, k: ModelAt): Tokens {
    if k in usage then usage[k] else Tokens(0, 0)
  }

  /** The sum of the usage rows, which is what lands in llm_usage_logs. */
  ghost function UsageTotal(usage: map<ModelAt, Tokens>): Tokens {
    if usage == map[] then Tokens(0, 0)
    else
      var k :| k in usage;
      var rest := UsageTotal(usage - {k});
      Plus(usage[k], rest)
  }

  ghost predicate LogOk(l: Log) {
    && OpenOk(l)
    && StepOk(l)
    && FallbackOk(l)
  }

  /** Calls are numbered 1..n in order, and the open runs are exactly the calls with no end yet. */
  ghost predicate OpenOk(l: Log) {
    OpenArePending(l) && UntimedAreOpen(l)
  }

  ghost predicate OpenArePending(l: Log) {
    && Wf(l)
    && (forall i :: 0 <= i < |l.calls| ==> l.calls[i].number == i + 1)
    && (forall r :: r in l.open ==> Pending(l.calls[l.open[r]]))
    && (forall r, q :: r in l.open && q in l.open && l.open[r] == l.open[q] ==> r == q)
  }

  ghost predicate UntimedAreOpen(l: Log) {
    forall i :: 0 <= i < |l.calls| ==> l.calls[i].timed || IsOpen(l.open, i)
  }

  ghost predicate IsOpen(open: map<Run, nat>, i: int) {
    exists r :: r in open && open[r] == i
  }

  /** The step number is one more than the answers so far. */
  ghost predicate StepOk(l: Log) {
    && l.step == SumsOf(l.calls, |l.calls|).answers + 1
    && (l.model.Some? <==> l.step > 1) && (l.position.Some? <==> l.step > 1)
  }

  ghost predicate FallbackOk(l: Log) {
    l.fallback <==> BackupAnswered(l.calls)
  }

  /** The turn's totals are the sum over its calls and the sum over the per-model rows. */
  ghost predicate TokensOk(l: Log) {
    Tokens(l.tokensIn.GetOr(0), l.tokensOut.GetOr(0)) == SumsOf(l.calls, |l.calls|).spent == UsageTotal(l.usage)
  }

  /** The usage row of k holds what k's calls spent, and nothing else. */
  ghost predicate RowOk(l: Log, k: ModelAt) {
    SpentBy(l.calls, |l.calls|, k) == Row(l.usage, k)
  }

  predicate Pending(e: Entry) {
    !e.timed && !e.answered && e.errorType.None? && e.tokensIn.None? && e.tokensOut.None?
  }

  ghost predicate BackupAnswered(calls: seq<Entry>) {
    exists i :: 0 <= i < |calls| && calls[i].answered && calls[i].position > 0
  }

  lemma {:induction false} SamePrefixSameSums(a: seq<Entry>, b: seq<Entry>, n: nat, k: ModelAt)
    requires n <= |a| && n <= |b| && forall j :: 0 <= j < n ==> a[j] == b[j]
    ensures SumsOf(a, n) == SumsOf(b, n)
    ensures SpentBy(a, n, k) == SpentBy(b, n, k)
  {
    if n == 0 {
    } else {
      SamePrefixSameSums(a, b, n - 1, k);
    }
  }

  /** Closing a pending call adds what it spent, to its own model's row and to no other. */
  lemma {:induction false} UpdateSums(calls: seq<Entry>, i: nat, e: Entry, n: nat, k: ModelAt)
    requires i < n <= |calls| && Pending(calls[i]) && KeyOf(e) == KeyOf(calls[i])
    ensures var after := calls[i := e];
            && SumsOf(after, n).answers == SumsOf(calls, n).answers + (if e.answered then 1 else 0)
            && SumsOf(after, n).spent == Plus(SumsOf(calls, n).spent, Spend(e))
            && SpentBy(after, n, k) ==
               if k == KeyOf(e) then Plus(SpentBy(calls, n, k), Spend(e)) else SpentBy(calls, n, k)
  {
    if i == n - 1 {
      SamePrefixSameSums(calls, calls[i := e], n - 1, k);
    } else {
      UpdateSums(calls, i, e, n - 1, k);
    }
  }

  lemma {:induction false} UsageTotalOfKey(usage: map<ModelAt, Tokens>, k: ModelAt)
    requires k in usage
    ensures UsageTotal(usage) == Plus(usage[k], UsageTotal(usage - {k}))
    decreases |usage|
  {
    var j :| j in usage && UsageTotal(usage) == Plus(usage[j], UsageTotal(usage - {j}));
    if j != k {
      UsageTotalOfKey(usage - {j}, k);
      UsageTotalOfKey(usage - {k}, j);
      assert usage - {j} - {k} == usage - {k} - {j};
      assert (usage - {j})[k] == usage[k] && (usage - {k})[j] == usage[j];
      assert UsageTotal(usage) == Plus(usage[j], Plus(usage[k], UsageTotal(usage - {j} - {k})));
    }
  }

  lemma ChargedTotal(usage: map<ModelAt, Tokens>, k: ModelAt, tin: nat, tout: nat)
    ensures UsageTotal(Charged(usage, k, tin, tout)) == Plus(UsageTotal(usage), Tokens(tin, tout))
  {
    var after := Charged(usage, k, tin, tout);
    UsageTotalOfKey(after, k);
    if k in usage {
      UsageTotalOfKey(usage, k);
      assert after - {k} == usage - {k};
    } else {
      assert after - {k} == usage;
    }
  }

  // --- Opening a call ----------------------------------------------------------------------

  function NewEntry(l: Log, model: Model, position: nat): Entry {
    Entry(l.step, |l.calls| + 1, model, position, false, None, false, None, None)
  }

  lemma StartKeepsOpen(l: Log, run: Run, model: Model, position: nat)
    requires OpenOk(l) && run !in l.open
    ensures OpenOk(Started(l, run, model, position))
  {
    StartKeepsPending(l, run, model, position);
    StartKeepsUntimed(l, run, model, position);
  }

  lemma StartKeepsPending(l: Log, run: Run, model: Model, position: nat)
    requires OpenArePending(l) && run !in l.open
    ensures OpenArePending(Started(l, run, model, position))
  {
  }

  lemma StartKeepsUntimed(l: Log, run: Run, model: Model, position: nat)
    requires UntimedAreOpen(l) && run !in l.open
    ensures UntimedAreOpen(Started(l, run, model, position))
  {
    var l' := Started(l, run, model, position);
    assert l'.open[run] == |l.calls|;
    forall i | 0 <= i < |l.calls| && !l.calls[i].timed
      ensures IsOpen(l'.open, i)
    {
      var r :| r in l.open && l.open[r] == i;
      assert l'.open[r] == i;
    }
  }

  lemma AppendSums(calls: seq<Entry>, e: Entry, k: ModelAt)
    requires Pending(e)
    ensures SumsOf(calls + [e], |calls| + 1) == SumsOf(calls, |calls|)
    ensures SpentBy(calls + [e], |calls| + 1, k) == SpentBy(calls, |calls|, k)
  {
    SamePrefixSameSums(calls, calls + [e], |calls|, k);
  }

  lemma StartKeepsSums(l: Log, run: Run, model: Model, position: nat, k: ModelAt)
    ensures var l' := Started(l, run, model, position);
            && (StepOk(l) ==> StepOk(l'))
            && (TokensOk(l) ==> TokensOk(l'))
            && (RowOk(l, k) ==> RowOk(l', k))
  {
    AppendSums(l.calls, NewEntry(l, model, position), k);
  }

  lemma StartKeepsFallback(l: Log, run: Run, model: Model, position: nat)
    requires FallbackOk(l)
    ensures FallbackOk(Started(l, run, model, position))
  {
    var e := NewEntry(l, model, position);
    assert forall i :: 0 <= i < |l.calls| ==> (l.calls + [e])[i] == l.calls[i];
  }

  // --- Closing a call ----------------------------------------------------------------------

  /** `run`'s entry becomes `e`, and the run is no longer open. */
  function Closed(l: Log, run: Run, e: Entry): Log
    requires Wf(l) && run in l.open
  {
    l.(calls := l.calls[l.open[run] := e], open := l.open - {run})
  }

  predicate Closes(was: Entry, e: Entry) {
    Pending(was) && e.timed && KeyOf(e) == KeyOf(was) && e.number == was.number
  }

  lemma ClosingKeepsOpen(l: Log, run: Run, e: Entry)
    requires OpenOk(l) && run in l.open && Closes(l.calls[l.open[run]], e)
    ensures OpenOk(Closed(l, run, e))
  {
    var l' := Closed(l, run, e);
    forall i | 0 <= i < |l'.calls| && !l'.calls[i].timed
      ensures IsOpen(l'.open, i)
    {
      assert IsOpen(l.open, i);
      var r :| r in l.open && l.open[r] == i;
      assert r in l'.open && l'.open[r] == i;
    }
  }

  lemma UpdateBackups(calls: seq<Entry>, i: nat, e: Entry)
    requires i < |calls| && !calls[i].answered
    ensures BackupAnswered(calls[i := e]) <==> BackupAnswered(calls) || (e.answered && e.position > 0)
  {
    assert calls[i := e][i] == e;
    assert forall j :: 0 <= j < |calls| && j != i ==> calls[i := e][j] == calls[j];
  }

  lemma EndIsClosed(l: Log, run: Run, tin: nat, tout: nat)
    requires OpenOk(l) && run in l.open
    ensures var was, e := l.calls[l.open[run]], Ended(l, run, tin, tout).calls[l.open[run]];
            && Closes(was, e) && Spend(e) == Tokens(tin, tout) && e.answered
            && Ended(l, run, tin, tout).calls == Closed(l, run, e).calls
            && Ended(l, run, tin, tout).open == Closed(l, run, e).open
  {
  }

  lemma EndKeepsOpen(l: Log, run: Run, tin: nat, tout: nat)
    requires OpenOk(l) && run in l.open
    ensures OpenOk(Ended(l, run, tin, tout))
  {
    EndIsClosed(l, run, tin, tout);
    ClosingKeepsOpen(l, run, Ended(l, run, tin, tout).calls[l.open[run]]);
  }

  lemma EndKeepsSums(l: Log, run: Run, tin: nat, tout: nat)
    requires OpenOk(l) && run in l.open
    ensures StepOk(l) ==> StepOk(Ended(l, run, tin, tout))
    ensures TokensOk(l) ==> TokensOk(Ended(l, run, tin, tout))
  {
    var e := Ended(l, run, tin, tout).calls[l.open[run]];
    EndIsClosed(l, run, tin, tout);
    UpdateSums(l.calls, l.open[run], e, |l.calls|, KeyOf(e));
    ChargedTotal(l.usage, KeyOf(e), tin, tout);
  }

  lemma EndKeepsFallback(l: Log, run: Run, tin: nat, tout: nat)
    requires OpenOk(l) && FallbackOk(l) && run in l.open
    ensures FallbackOk(Ended(l, run, tin, tout))
  {
    EndIsClosed(l, run, tin, tout);
    UpdateBackups(l.calls, l.open[run], Ended(l, run, tin, tout).calls[l.open[run]]);
  }

  lemma EndKeepsRow(l: Log, run: Run, tin: nat, tout: nat, k: ModelAt)
    requires OpenOk(l) && RowOk(l, k) && run in l.open
    ensures RowOk(Ended(l, run, tin, tout), k)
  {
    EndIsClosed(l, run, tin, tout);
    UpdateSums(l.calls, l.open[run], Ended(l, run, tin, tout).calls[l.open[run]], |l.calls|, k);
  }

  function ErrorEntry(l: Log, run: Run, errorType: string): Entry
    requires Wf(l) && run in l.open
  {
    l.calls[l.open[run]].(timed := true, errorType := Some(errorType))
  }

  lemma ErrorKeepsOpen(l: Log, run: Run, errorType: string)
    requires OpenOk(l) && run in l.open
    ensures OpenOk(Errored(l, run, errorType))
  {
    ClosingKeepsOpen(l, run, ErrorEntry(l, run, errorType));
  }

  lemma UnansweredKeepsSums(calls: seq<Entry>, i: nat, e: Entry, k: ModelAt)
    requires i < |calls| && Pending(calls[i]) && KeyOf(e) == KeyOf(calls[i])
    requires !e.answered && e.tokensIn.None? && e.tokensOut.None?
    ensures SumsOf(calls[i := e], |calls|) == SumsOf(calls, |calls|)
    ensures SpentBy(calls[i := e], |calls|, k) == SpentBy(calls, |calls|, k)
  {
    UpdateSums(calls, i, e, |calls|, k);
    assert Spend(e) == Tokens(0, 0);
  }

  lemma ErrorKeepsSums(l: Log, run: Run, errorType: string, k: ModelAt)
    requires OpenOk(l) && run in l.open
    ensures var l' := Errored(l, run, errorType);
            && (StepOk(l) ==> StepOk(l'))
            && (TokensOk(l) ==> TokensOk(l'))
            && (RowOk(l, k) ==> RowOk(l', k))
  {
    UnansweredKeepsSums(l.calls, l.open[run], ErrorEntry(l, run, errorType), k);
  }

  lemma ErrorKeepsFallback(l: Log, run: Run, errorType: string)
    requires OpenOk(l) && FallbackOk(l) && run in l.open
    ensures FallbackOk(Errored(l, run, errorType))
  {
    UpdateBackups(l.calls, l.open[run], ErrorEntry(l, run, errorType));
  }

  ghost predicate Consistent(l: Log) {
    LogOk(l) && TokensOk(l)
  }

  /** No callback, however the calls overlap, breaks the log. */
  lemma CallbackKeepsLog(l: Log, c: Callback)
    requires Consistent(l) && Allowed(l, c)
    ensures Consistent(OnCallback(l, c))
  {
    match c
    case Start(run, model, position) =>
      StartKeepsOpen(l, run, model, position);
      StartKeepsSums(l, run, model, position, ModelAt(model, position));
      StartKeepsFallback(l, run, model, position);
    case End(run, tin, tout) =>
      if run in l.open {
        EndKeepsOpen(l, run, tin, tout);
        EndKeepsSums(l, run, tin, tout);
        EndKeepsFallback(l, run, tin, tout);
      }
    case Error(run, errorType) =>
      if run in l.open {
        ErrorKeepsOpen(l, run, errorType);
        ErrorKeepsSums(l, run, errorType, KeyOf(l.calls[l.open[run]]));
        ErrorKeepsFallback(l, run, errorType);
      }
  }

  lemma CallbackKeepsRow(l: Log, c: Callback, k: ModelAt)
    requires OpenOk(l) && RowOk(l, k) && Allowed(l, c)
    ensures RowOk(OnCallback(l, c), k)
  {
    match c
    case Start(run, model, position) => StartKeepsSums(l, run, model, position, k);
    case End(run, tin, tout) => if run in l.open { EndKeepsRow(l, run, tin, tout, k); }
    case Error(run, errorType) => if run in l.open { ErrorKeepsSums(l, run, errorType, k); }
  }

  ghost predicate AllowedAll(l: Log, cs: seq<Callback>)
    decreases |cs|
  {
    cs != [] ==> Allowed(l, cs[0]) && (Wf(l) ==> AllowedAll(OnCallback(l, cs[0]), cs[1..]))
  }

  ghost function Replay(l: Log, cs: seq<Callback>): Log
    decreases |cs|
  {
    if cs == [] || !Wf(l) then l else Replay(OnCallback(l, cs[0]), cs[1..])
  }

  /** Calls may overlap in any way, as long as run ids do not clash: the log stays consistent throughout. */
  lemma {:induction false} EveryLogIsConsistent(l: Log, cs: seq<Callback>)
    requires Consistent(l) && AllowedAll(l, cs)
    ensures Consistent(Replay(l, cs))
    decreases |cs|
  {
    if cs == [] {
    } else {
      CallbackKeepsLog(l, cs[0]);
      EveryLogIsConsistent(OnCallback(l, cs[0]), cs[1..]);
    }
  }

  /** After finalising no call is open, and every call that had no end says so. */
  lemma FinalizedClosesEverything(l: Log)
    requires OpenOk(l)
    ensures var f := Finalized(l);
            && f.open == map[] && |f.calls| == |l.calls|
            && (forall i :: 0 <= i < |f.calls| ==> f.calls[i].timed)
            && (forall i :: 0 <= i < |f.calls| ==>
                  f.calls[i] == if l.calls[i].timed then l.calls[i]
                                else l.calls[i].(timed := true, errorType := Some(UNFINISHED)))
  {
    assert forall r :: r in l.open ==> !l.calls[l.open[r]].timed;
  }

  // --- Sequential calls ------------------------------------------------------------------

  /** One call from start to end; the agent loop makes them one after the other. */
  datatype Finished = Finished(run: Run, model: Model, position: nat, error: Option<string>, tin: nat, tout: nat)

  function Opening(f: Finished): Callback {
    Start(f.run, f.model, f.position)
  }

  function Closing(f: Finished): Callback {
    if f.error.Some? then Error(f.run, f.error.value) else End(f.run, f.tin, f.tout)
  }

  function Logged(l: Log, f: Finished): Log
    requires Wf(l)
  {
    OnCallback(OnCallback(l, Opening(f)), Closing(f))
  }

  lemma LoggedKeepsLog(l: Log, f: Finished)
    requires Consistent(l) && f.run !in l.open
    ensures Consistent(Logged(l, f))
  {
    CallbackKeepsLog(l, Opening(f));
    CallbackKeepsLog(OnCallback(l, Opening(f)), Closing(f));
  }

  /** What the log says of one call, besides its step: its model, its place, its tokens, and its error if it failed. */
  predicate Tells(e: Entry, f: Finished, number: nat) {
    var reported := f.error.None? && (f.tin != 0 || f.tout != 0);
    && e.number == number && e.model == f.model && e.position == f.position && e.timed
    && e.answered == f.error.None? && e.errorType == f.error
    && e.tokensIn == (if reported then Some(f.tin) else None)
    && e.tokensOut == (if reported then Some(f.tout) else None)
  }

  lemma LoggedCall(l: Log, f: Finished)
    requires Wf(l) && l.open == map[]
    ensures var e := Logged(l, f);
            && e.open == map[] && |e.calls| == |l.calls| + 1
            && (forall i :: 0 <= i < |l.calls| ==> e.calls[i] == l.calls[i])
            && e.calls[|l.calls|].step == l.step
            && Tells(e.calls[|l.calls|], f, |l.calls| + 1)
            && (if f.error.None? then e.step == l.step + 1 && e.model == Some(f.model) && e.position == Some(f.position)
                else e.step == l.step && e.model == l.model && e.position == l.position)
  {
    assert OnCallback(l, Opening(f)).open - {f.run} == map[];
  }

  function LoggedAll(fs: seq<Finished>): (l: Log)
    ensures Consistent(l) && l.open == map[]
  {
    if fs == [] then Empty
    else
      var before := LoggedAll(fs[..|fs| - 1]);
      LoggedKeepsLog(before, fs[|fs| - 1]);
      LoggedCall(before, fs[|fs| - 1]);
      Logged(before, fs[|fs| - 1])
  }

  function AnswersIn(fs: seq<Finished>): nat {
    if fs == [] then 0 else AnswersIn(fs[..|fs| - 1]) + if fs[|fs| - 1].error.None? then 1 else 0
  }

  function LastAnswered(fs: seq<Finished>): Option<Finished> {
    if fs == [] then None
    else if fs[|fs| - 1].error.None? then Some(fs[|fs| - 1])
    else LastAnswered(fs[..|fs| - 1])
  }

  lemma {:induction false} LoggedTotals(fs: seq<Finished>)
    ensures var l := LoggedAll(fs);
            && |l.calls| == |fs|
            && l.step == AnswersIn(fs) + 1
            && l.model == (match LastAnswered(fs) case None => None case Some(f) => Some(f.model))
            && l.position == (match LastAnswered(fs) case None => None case Some(f) => Some(f.position))
  {
    if fs == [] {
    } else {
      LoggedTotals(fs[..|fs| - 1]);
      LoggedCall(LoggedAll(fs[..|fs| - 1]), fs[|fs| - 1]);
    }
  }

  lemma {:induction false} LoggedEntry(fs: seq<Finished>, i: nat)
    requires i < |fs|
    ensures var l := LoggedAll(fs);
            && |l.calls| == |fs|
            && l.calls[i].step == AnswersIn(fs[..i]) + 1
            && Tells(l.calls[i], fs[i], i + 1)
  {
    var init := fs[..|fs| - 1];
    LoggedTotals(init);
    LoggedCall(LoggedAll(init), fs[|fs| - 1]);
    if i < |init| {
      LoggedEntry(init, i);
      assert init[..i] == fs[..i];
    } else {
      assert init == fs[..i];
    }
  }

  /**
   The log of a turn: one entry per call in order, holding just what that call did and why it
   failed if it did; call i belongs to step 1 + (answers before it), so a step is failures
   followed by at most one answer; and `model` and `model_position` are those of the last call
   that answered.
   */
  lemma SequentialLog(fs: seq<Finished>)
    ensures var l := LoggedAll(fs);
            && Consistent(l) && |l.calls| == |fs|
            && (forall i :: 0 <= i < |fs| ==>
                  l.calls[i].step == AnswersIn(fs[..i]) + 1 && Tells(l.calls[i], fs[i], i + 1))
            && l.model == (match LastAnswered(fs) case None => None case Some(f) => Some(f.model))
            && l.position == (match LastAnswered(fs) case None => None case Some(f) => Some(f.position))
  {
    LoggedTotals(fs);
    forall i | 0 <= i < |fs|
      ensures LoggedAll(fs).calls[i].step == AnswersIn(fs[..i]) + 1
              && Tells(LoggedAll(fs).calls[i], fs[i], i + 1)
    {
      LoggedEntry(fs, i);
    }
  }

  /** Each per-model usage row of the turn is what that model's answered calls reported. */
  lemma {:induction false} UsageRows(fs: seq<Finished>, k: ModelAt)
    ensures var l := LoggedAll(fs); RowOk(l, k)
  {
    if fs == [] {
    } else {
      var before, f := LoggedAll(fs[..|fs| - 1]), fs[|fs| - 1];
      UsageRows(fs[..|fs| - 1], k);
      CallbackKeepsLog(before, Opening(f));
      CallbackKeepsRow(before, Opening(f), k);
      CallbackKeepsRow(OnCallback(before, Opening(f)), Closing(f), k);
    }
  }

  /** `fallback_triggered` is up exactly when a call that answered was not the primary's. */
  lemma FallbackMeansABackupAnswered(fs: seq<Finished>)
    ensures LoggedAll(fs).fallback <==> exists i :: 0 <= i < |fs| && fs[i].error.None? && fs[i].position > 0
  {
    SequentialLog(fs);
    var l := LoggedAll(fs);
    assert forall i :: 0 <= i < |fs| ==> Tells(l.calls[i], fs[i], i + 1);
  }
}
