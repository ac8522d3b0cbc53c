/**
 The outbound token budget of eval/run_eval.py: each call is charged an estimate before it is
 sent, and the charge is replaced by the reported number once the call returns.
 */
module TokenBudgets {
  import opened Common

  /** One `[time, tokens]` entry; `estimate` remembers what it was admitted with. */
  class Charge {
    const time: real
    ghost const estimate: nat
    var tokens: nat
    ghost var corrected: bool

    constructor (time: real, tokens: nat)
      ensures this.time == time && this.tokens == tokens && estimate == tokens && !corrected
    {
      this.time, this.tokens, estimate, corrected := time, tokens, tokens, false;
    }
  }

  /** A monotone clock whose sleeps never end early; each reading may come any amount later than the last. */
  class Clock {
    var now: real
    ghost var sleeps: nat

    constructor (now: real)
      ensures this.now == now && sleeps == 0
    {
      this.now, sleeps := now, 0;
    }

    method Read() returns (t: real)
      modifies this`now
      ensures t == now >= old(now)
    {
      var late: real :| late >= 0.0;
      now := now + late;
      t := now;
    }

    method Sleep(seconds: real)
      requires seconds > 0.0
      modifies this
      ensures now >= old(now) + seconds && sleeps == old(sleeps) + 1
    {
      var late: real :| late >= 0.0;
      now, sleeps := now + seconds + late, sleeps + 1;
    }
  }

  function Total(charges: seq<Charge>, n: nat): nat
    requires n <= |charges|
    reads charges
  {
    if n == 0 then 0 else Total(charges, n - 1) + charges[n - 1].tokens
  }

  ghost predicate Ordered(charges: seq<Charge>) {
    forall i, j :: 0 <= i <= j < |charges| ==> charges[i].time <= charges[j].time
  }

  /** The tracked charges are the latest ones, and every other one has left the window. */
  ghost predicate Tracks(spent: seq<Charge>, history: seq<Charge>, now: real, window: real) {
    && |spent| <= |history| && spent == history[|history| - |spent|..]
    && Ordered(history)
    && (forall i :: 0 <= i < |history| ==> history[i].time <= now)
    && (forall i :: 0 <= i < |history| - |spent| ==> now - history[i].time >= window)
  }

  ghost predicate NoneHadRoom(totals: seq<nat>, tokens: nat, budget: nat) {
    forall i :: 0 <= i < |totals| ==> totals[i] + tokens > budget
  }

  /** The latest charge is this one, and with it the window holds one call or is within the budget. */
  ghost predicate IsAdmitted(spent: seq<Charge>, entry: Charge, tokens: nat, now: real, window: real, budget: nat)
    reads spent, entry
  {
    && entry.time == now && entry.tokens == entry.estimate == tokens && !entry.corrected
    && spent != [] && spent[|spent| - 1] == entry
    && (forall i :: 0 <= i < |spent| - 1 ==> now - spent[i].time < window)
    && (|spent| == 1 || Total(spent, |spent|) <= budget)
  }

  lemma AdmittedLast(live: seq<Charge>, entry: Charge, tokens: nat, now: real, window: real, budget: nat)
    requires entry.time == now && entry.tokens == entry.estimate == tokens && !entry.corrected
    requires forall i :: 0 <= i < |live| ==> now - live[i].time < window
    requires live == [] || Total(live, |live|) + tokens <= budget
    ensures IsAdmitted(live + [entry], entry, tokens, now, window, budget)
  {
    TotalOfMore(live, entry);
  }

  lemma TracksOrdered(spent: seq<Charge>, history: seq<Charge>, now: real, window: real)
    requires Tracks(spent, history, now, window)
    ensures Ordered(spent)
  {
    var d := |history| - |spent|;
    assert forall i :: 0 <= i < |spent| ==> spent[i] == history[d + i];
  }

  lemma TracksLater(spent: seq<Charge>, kept: seq<Charge>, history: seq<Charge>, now: real, later: real, window: real)
    requires Tracks(spent, history, now, window) && now <= later
    requires |kept| <= |spent| && kept == spent[|spent| - |kept|..]
    requires forall i :: 0 <= i < |spent| - |kept| ==> later - spent[i].time >= window
    ensures Tracks(kept, history, later, window)
  {
    var d := |history| - |spent|;
    assert kept == history[|history| - |kept|..];
    forall i | 0 <= i < |history| - |kept|
      ensures later - history[i].time >= window
    {
      if i >= d {
        assert history[i] == spent[i - d];
      }
    }
  }

  lemma TracksOneMore(spent: seq<Charge>, history: seq<Charge>, entry: Charge, window: real)
    requires Tracks(spent, history, entry.time, window)
    ensures Tracks(spent + [entry], history + [entry], entry.time, window)
  {
  }

  class TokenBudget {
    const budget: nat
    const window: real
    var spent: seq<Charge>
    /** Every charge ever handed out, in order; the calls that hold them may correct them. */
    var history: seq<Charge>

    constructor (budget: nat, window: real)
      ensures this.budget == budget && this.window == window && spent == history == []
    {
      this.budget, this.window := budget, window;
      spent, history := [], [];
    }

    ghost predicate Valid(clock: Clock)
      reads this, clock
    {
      Tracks(spent, history, clock.now, window)
    }

    /** The rebuilt list `[e for e in spent if now - e[0] < window]`. */
    method Unexpired(now: real) returns (kept: seq<Charge>)
      requires Ordered(spent)
      ensures |kept| <= |spent| && kept == spent[|spent| - |kept|..]
      ensures forall i :: 0 <= i < |spent| ==> (now - spent[i].time < window <==> i >= |spent| - |kept|)
    {
      kept := [];
      for i := 0 to |spent|
        invariant |kept| <= i && kept == spent[i - |kept|..i]
        invariant forall j :: 0 <= j < i ==> (now - spent[j].time < window <==> j >= i - |kept|)
      {
        assert i > 0 ==> spent[i - 1].time <= spent[i].time;
        if now - spent[i].time < window {
          kept := kept + [spent[i]];
        }
      }
    }

    method Sum() returns (total: nat)
      ensures total == Total(spent, |spent|)
    {
      total := 0;
      for i := 0 to |spent|
        invariant total == Total(spent, i)
      {
        total := total + spent[i].tokens;
      }
    }

    /** What other calls may do while this one sleeps: replace the tokens of any charge. */
    method OthersReturn()
      modifies history
    {
      for i := 0 to |history| {
        var reported: nat := *;
        history[i].tokens, history[i].corrected := reported, true;
      }
    }

    /** Reads the clock and drops what has left the window. */
    method Refresh(clock: Clock) returns (now: real)
      requires Valid(clock)
      modifies this`spent, clock`now
      ensures Valid(clock) && clock.now == now >= old(clock.now)
      ensures |spent| <= |old(spent)| && forall i :: 0 <= i < |spent| ==> now - spent[i].time < window
      ensures old(spent) != [] && old(clock.now) - old(spent)[0].time >= window ==> |spent| < |old(spent)|
    {
      TracksOrdered(spent, history, clock.now, window);
      ghost var before, last := spent, clock.now;
      now := clock.Read();
      spent := Unexpired(now);
      TracksLater(before, spent, history, last, now, window);
      assert forall i :: 0 <= i < |spent| ==> spent[i] == before[|before| - |spent| + i];
    }

    /** How many more refreshes it can take for the list to empty. */
    ghost function WaitsLeft(now: real): nat
      reads this
    {
      |spent| + if spent == [] || now - spent[0].time < window then 1 else 0
    }

    /** Sleeps, while other calls may return. */
    method SleepUntilTheOldestExpires(clock: Clock)
      requires Valid(clock) && spent != [] && clock.now - spent[0].time < window
      modifies clock, history
      ensures Valid(clock) && clock.now - spent[0].time >= window && clock.sleeps == old(clock.sleeps) + 1
    {
      ghost var last := clock.now;
      clock.Sleep(spent[0].time + window - clock.now);
      TracksLater(spent, spent, history, last, clock.now, window);
      OthersReturn();
    }

    /**
     Waits until the window has room and then records the call. Each wait expires the oldest
     charge, so it ends; `Valid` makes `spent` the charges still in the window at admission.
     `waited` lists the live totals it met before each of its sleeps: none left room for the call.
     */
    method Acquire(tokens: nat, clock: Clock) returns (entry: Charge, ghost waited: seq<nat>)
      requires Valid(clock)
      modifies this`spent, this`history, clock, history
      ensures Valid(clock) && fresh(entry) && IsAdmitted(spent, entry, tokens, clock.now, window, budget)
      ensures history == old(history) + [entry]
      ensures clock.sleeps == old(clock.sleeps) + |waited| && NoneHadRoom(waited, tokens, budget)
    {
      waited := [];
      while true
        invariant history == old(history) && Valid(clock)
        invariant clock.sleeps == old(clock.sleeps) + |waited| && NoneHadRoom(waited, tokens, budget)
        decreases WaitsLeft(clock.now)
      {
        var admitted, sum := Attempt(tokens, clock);
        if admitted.Some? {
          return admitted.value, waited;
        }
        waited := waited + [sum];
        SleepUntilTheOldestExpires(clock);
      }
    }

    /** One turn of the loop: admits the call if the window has room for it now. */
    method Attempt(tokens: nat, clock: Clock) returns (admitted: Option<Charge>, sum: nat)
      requires Valid(clock)
      modifies this`spent, this`history, clock`now
      ensures Valid(clock) && clock.now >= old(clock.now)
      ensures admitted.Some? ==>
                && fresh(admitted.value) && IsAdmitted(spent, admitted.value, tokens, clock.now, window, budget)
                && history == old(history) + [admitted.value] && |spent| <= |old(spent)| + 1
      ensures admitted.None? ==>
                && history == old(history) && |spent| <= |old(spent)|
                && sum == Total(spent, |spent|) && sum + tokens > budget
                && spent != [] && clock.now - spent[0].time < window
                && WaitsLeft(clock.now) <= old(WaitsLeft(clock.now))
    {
      var now := Refresh(clock);
      sum := Sum();
      if spent == [] || sum + tokens <= budget {
        var entry := Admit(now, tokens);
        admitted := Some(entry);
      } else {
        admitted := None;
      }
    }

    method Admit(now: real, tokens: nat) returns (entry: Charge)
      requires Tracks(spent, history, now, window)
      requires forall i :: 0 <= i < |spent| ==> now - spent[i].time < window
      requires spent == [] || Total(spent, |spent|) + tokens <= budget
      modifies this`spent, this`history
      ensures fresh(entry) && IsAdmitted(spent, entry, tokens, now, window, budget)
      ensures spent == old(spent) + [entry] && history == old(history) + [entry]
      ensures Tracks(spent, history, now, window)
    {
      entry := new Charge(now, tokens);
      TracksOneMore(spent, history, entry, window);
      AdmittedLast(spent, entry, tokens, now, window, budget);
      spent, history := spent + [entry], history + [entry];
    }
  }

  lemma TotalOfMore(charges: seq<Charge>, extra: Charge)
    ensures Total(charges + [extra], |charges| + 1) == Total(charges, |charges|) + extra.tokens
  {
    TotalOfPrefix(charges + [extra], charges, |charges|);
  }

  lemma {:induction false} TotalOfPrefix(a: seq<Charge>, b: seq<Charge>, n: nat)
    requires n <= |a| && n <= |b| && forall i :: 0 <= i < n ==> a[i] == b[i]
    ensures Total(a, n) == Total(b, n)
  {
    if n == 0 {
    } else {
      TotalOfPrefix(a, b, n - 1);
    }
  }

  // --- The calls that hold the charges ------------------------------------------------------

  /** The callback of one turn: `charged` holds the charge of each call in flight. */
  class ModelCalls {
    var charged: map<nat, Charge>

    constructor ()
      ensures charged == map[]
    {
      charged := map[];
    }

    /** Only the Gemma models are charged. */
    method OnChatModelStart(runId: nat, gemma: bool, estimate: nat, budget: TokenBudget, clock: Clock)
      requires budget.Valid(clock)
      modifies this, budget`spent, budget`history, clock, budget.history
      ensures budget.Valid(clock)
      ensures !gemma ==> charged == old(charged) && budget.history == old(budget.history)
      ensures gemma ==> |budget.history| == |old(budget.history)| + 1
                        && charged == old(charged)[runId := budget.history[|budget.history| - 1]]
                        && charged[runId].estimate == charged[runId].tokens == estimate
    {
      if gemma {
        ghost var waited;
        var entry;
        entry, waited := budget.Acquire(estimate, clock);
        charged := charged[runId := entry];
      }
    }

    /** The charge leaves `charged` here, so it is corrected at most once, and never to nothing. */
    method OnLlmEnd(runId: nat, reported: Option<nat>)
      modifies this, charged.Values
      ensures charged == old(charged) - {runId}
      ensures runId in old(charged) ==>
                old(charged)[runId].tokens ==
                if reported.Some? && reported.value != 0 then reported.value else old(charged[runId].tokens)
      ensures runId in old(charged) && reported.Some? && reported.value != 0 ==> old(charged)[runId].corrected
      ensures forall e :: e in old(charged).Values && (runId !in old(charged) || e != old(charged)[runId]) ==>
              e.tokens == old(e.tokens) && e.corrected == old(e.corrected)
    {
      if runId in charged {
        var entry := charged[runId];
        assert entry in charged.Values;
        charged := charged - {runId};
        if reported.Some? && reported.value != 0 {
          entry.tokens, entry.corrected := reported.value, true;
        }
      }
    }
  }
}
