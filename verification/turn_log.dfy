/** The call log of a whole agent turn: the calls StickyFallback makes, as the handler records them. */
module TurnLog {
  import opened Common
  import AgentTurn
  import opened Monitoring

  /** Call i of the turn. Its recorded position comes from the model's tag, which is its place in the chain. */
  function Record(calls: seq<AgentTurn.Call>, chain: nat -> Model): (fs: seq<Finished>)
    ensures |fs| == |calls|
    ensures forall i :: 0 <= i < |calls| ==>
              fs[i].position == calls[i].position && fs[i].error.None? == calls[i].error.None?
              && fs[i].model == chain(calls[i].position)
  {
    if calls == [] then []
    else
      var n := |calls| - 1;
      Record(calls[..n], chain)
      + [Finished(n, chain(calls[n].position), calls[n].position,
                  if calls[n].error.None? then None else Some(""), 0, 0)]
  }

  lemma {:induction false} AnswerCounts(calls: seq<AgentTurn.Call>, chain: nat -> Model)
    ensures AnswersIn(Record(calls, chain)) == AnswersBack(calls) == AgentTurn.AnswersIn(calls)
  {
    if calls == [] {
    } else {
      var n := |calls| - 1;
      AnswerCounts(calls[..n], chain);
      assert Record(calls, chain)[..n] == Record(calls[..n], chain);
      AnswersFromBack(calls);
    }
  }

  function AnswersBack(calls: seq<AgentTurn.Call>): nat {
    if calls == [] then 0 else AnswersBack(calls[..|calls| - 1]) + if calls[|calls| - 1].error.None? then 1 else 0
  }

  lemma {:induction false} AnswersFromBack(calls: seq<AgentTurn.Call>)
    requires calls != []
    ensures AgentTurn.AnswersIn(calls) ==
            AgentTurn.AnswersIn(calls[..|calls| - 1]) + if calls[|calls| - 1].error.None? then 1 else 0
  {
    var n := |calls| - 1;
    if n == 0 {
    } else {
      AnswersFromBack(calls[1..]);
      assert calls[1..][..n - 1] == calls[..n][1..];
    }
  }

  /** A backup answered somewhere exactly when one answered last, since the chain never goes back up. */
  lemma LastAnswerTellsAll(calls: seq<AgentTurn.Call>, n: nat)
    requires AgentTurn.Sticky(calls, 0, n) && calls != [] && calls[|calls| - 1].error.None?
    ensures (exists i :: 0 <= i < |calls| && calls[i].error.None? && calls[i].position > 0) <==>
            calls[|calls| - 1].position > 0
  {
    forall i | 0 <= i < |calls|
      ensures calls[i].position <= calls[|calls| - 1].position
    {
      AgentTurn.StickyNeverGoesBack(calls, 0, n, i, |calls| - 1);
    }
  }

  ghost predicate LogsReply(l: Log, calls: seq<AgentTurn.Call>, chain: nat -> Model) {
    && calls != []
    && var wrote := calls[|calls| - 1].position;
       && l.position == Some(wrote) && l.model == Some(chain(wrote))
       && (l.fallback <==> wrote > 0)
       && l.step == AgentTurn.AnswersIn(calls) + 1
       && |l.calls| == |calls| == AgentTurn.AnswersIn(calls) + wrote
  }

  lemma StickyCallsAreLogged(calls: seq<AgentTurn.Call>, n: nat, chain: nat -> Model)
    requires AgentTurn.Sticky(calls, 0, n) && calls != [] && calls[|calls| - 1].error.None?
    ensures LogsReply(LoggedAll(Record(calls, chain)), calls, chain)
  {
    var fs := Record(calls, chain);
    AgentTurn.StickyCost(calls, 0, n);
    AgentTurn.LastCallLeavesTheChain(calls, 0, n);
    AnswerCounts(calls, chain);
    LoggedTotals(fs);
    assert LastAnswered(fs) == Some(fs[|fs| - 1]);
    FallbackMeansABackupAnswered(fs);
    LastAnswerTellsAll(calls, n);
    assert forall i :: 0 <= i < |calls| ==>
             fs[i].position == calls[i].position && fs[i].error.None? == calls[i].error.None?;
  }

  /**
   When a turn replied: the log counts one step per answered step, names the model that
   wrote the reply and its position, and `fallback_triggered` says exactly whether the
   reply came from a backup.
   */
  lemma TurnIsLogged(messages: seq<AgentTurn.Message>, script: seq<AgentTurn.Attempt>, deadline: Option<real>, n: nat,
      chain: nat -> Model)
    requires n > 0 && AgentTurn.Turn(messages + [AgentTurn.Human], script, deadline, n).end.Replied?
    ensures var calls := AgentTurn.Turn(messages + [AgentTurn.Human], script, deadline, n).calls;
            LogsReply(LoggedAll(Record(calls, chain)), calls, chain)
  {
    AgentTurn.TurnIsSticky(messages + [AgentTurn.Human], script, deadline, n);
    StickyCallsAreLogged(AgentTurn.Turn(messages + [AgentTurn.Human], script, deadline, n).calls, n, chain);
  }
}
