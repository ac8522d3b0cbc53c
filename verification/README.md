# PickWise kernels, verified

A Dafny model of the parts of the PickWise backend that state a rule about every run or every
input, with proofs of those rules. `dafny verify dfyconfig.toml` checks the whole project.

Code that changes state is a class whose methods are proved against specification functions;
code that computes is functions and lemmas. Where several threads, sessions or requests take
part, the specification functions become the steps of a state machine and the theorems are
about every run of it.

| files | subject |
|---|---|
| `common.dfy`, `rounding.dfy` | options, results and counts; Python's half-to-even rounding |
| `scoring_cache.dfy`, `scoring_protocol.dfy` | the stale-while-revalidate scoring cache and its interleavings with commits and builds |
| `llm_stream.dfy`, `agent_turn.dfy`, `agent_turn_laws.dfy`, `monitoring.dfy`, `turn_log.dfy` | one model call, the sticky fallback over a turn, what the client sees, and the run log |
| `jobs.dfy` | the background job lifecycle under cancels, failures and restarts |
| `distribution.dfy`, `percentile.dfy`, `pickscore.dfy`, `pickscore_laws.dfy` | catalog ranges, percentile scores, weights and the PickScore |
| `ndcg.dfy` | the NDCG bound, by the rearrangement inequality |
| `rate_limiter.dfy`, `token_budget.dfy`, `budget_windows.dfy`, `budget_refinement.dfy` | the inbound limiter and the outbound token budget |
| `families.dfy`, `dedup.dfy`, `ranking.dfy` | family assignment, deduplication and the use-case ranking |
| `price_match.dfy`, `price_match_laws.dfy`, `price_match_specs.dfy`, `price_apply.dfy`, `guide_flow.dfy` | matching a product guide to the catalog and writing its prices |
| `model_specs.dfy`, `model_chains.dfy`, `model_settings.dfy`, `settings_protocol.dfy` | validating, storing, resolving and caching the model chains |

## Where the code and its documentation part

- `ndcg_at_k` says its output is always in [0, 1]. On arbitrary lists it is not (`Ndcg.UnrelatedListsBreakTheBound`); on the lists its caller passes it is (`Ndcg.NdcgIsAFraction`), and `Ndcg.BoundedForEveryDiscountIffDominated` says exactly when. Its docstring also reads 0.0 as "ranked last"; it means nothing relevant in the first k places.
- `run_job` calls its `finally` the backstop for every path. The early cancel is outside the `try`, and `Jobs.RunEndsTerminal` says exactly which runs leave a job unfinished. The run can also lose an outcome it has written, in two ways (`Jobs.OutcomeStandsIff`): the lookup for its own log line raises (`Jobs.CompletedTurnsFailedWhenTheLogLookupRaises`), or a late cancel makes the backstop fail a completed job (`Jobs.ALateCancelFailsACompletedJob`).
- `cancel_job` checks the status and then writes its own, so its write may come after the job has finished. The scripts of a run hold checks and writes apart, in every gap: `Jobs.FinalJob` gives the row every script leaves, and `Jobs.TerminalIsForeverIff` says when a finished job can still be reopened after its run.
- `_record` appends to a deque that pruning may just have dropped from the table. It happens to a key that finds the table full, at 10,000 keys, and is not one of them (`RateLimiter.HitIsLostExactlyWhenPruned`), and then its limit does not hold: every run over a set of keys keeps it exactly when the set has at most 10,000 (`RateLimiter.TheLimitHoldsIffTheKeysFit`), and `RateLimiter.BurstBreaksTheLimitIffNoRoom` says which single call is the one to fear.
- `apply_guide` says applying again changes nothing. `PriceApply.ApplyingTwiceIsOnce` gives the exact condition: no price of 0 was written.
- `_apply_update` says it validates the whole change against the chain it produces, but it plans on `resolve`, which may answer with the copy of a failed read or of older rows. `ModelSettings.FinishedUpdateIsErrorFreeIff` says exactly when the stored configuration is then in error, `ModelSettings.AFailedReadLetsAnErrorIn` gives the input, and `ModelSettings.UpdateTakesEffect` says when the chain it produces is the one it validated.
- `_apply_update` says nothing is half-applied, but it writes in two commits. `ModelSettings.HalfAppliedIsErrorFreeIff` says exactly when stopping between them leaves the configuration in error.
- `TokenBudget` keeps its budget only while corrections do not raise a charge; `BudgetWindows.OvershootIsWhatWasRaised` bounds what happens when they do, and `BudgetWindows.AnyRaiseCanBreakTheBudget` shows the condition is needed.

## Model

| member | source | states |
|---|---|---|
| `ScoringCache.Cache.Invalidate` | app/pickscore/ranges_cache.py:45-49 | moves the generation on by one and changes nothing else |
| `ScoringCache.Cache.Store` | app/pickscore/ranges_cache.py:52-56 | files a copy, its time and its generation, unless a copy of a newer generation is already there |
| `ScoringCache.Cache.Get` | app/pickscore/ranges_cache.py:59-70 | returns the copy there is and starts a rebuild exactly when that copy is stale or expired and no rebuild is running |
| `ScoringCache.Cache.Warm` | app/pickscore/ranges_cache.py:73-76 | starts a rebuild whatever the copy's state, unless one is running |
| `ScoringCache.Cache.StartRebuild` | app/pickscore/ranges_cache.py:79-84 | spawns a thread holding the current generation exactly when none is running |
| `ScoringCache.Cache.Rebuild` | app/pickscore/ranges_cache.py:87-96 | stores what the build returned under the generation captured at its start, and clears the flag even when the build raised |
| `ScoringProtocol.StepKeepsInv` | app/pickscore/ranges_cache.py:41-96 | every atomic step of sessions, inline builds, rebuild threads and outside writers keeps the cache invariant |
| `ScoringProtocol.ACommittedWriteInvalidates` | app/laptops/pickscore_adapter.py:202-215 | from any state a flushed source write can be committed, and its after_commit moves the generation on by one and stands for this commit |
| `ScoringProtocol.ARolledBackWriteInvalidates` | app/laptops/pickscore_adapter.py:202-215 | a source write that is rolled back leaves its mark on the session, whose next commit moves the generation on all the same |
| `ScoringProtocol.AnUnrelatedCommitInvalidatesNothing` | app/laptops/pickscore_adapter.py:202-215 | a session that touches no source table changes nothing of the cache when it commits |
| `ScoringProtocol.FiledCopyKnowsItsGeneration` | app/laptops/pickscore_adapter.py:53-77 | in every interleaving, a copy filed under generation g is a database state that held every commit whose invalidate moved the counter to g or below |
| `ScoringProtocol.FreshCopyMissesOnlyUninvalidated` | app/laptops/pickscore_adapter.py:198-214 | a copy served as fresh lacks at most commits whose own after_commit has not run yet and commits made outside this process |
| `ScoringProtocol.OneRebuildAtATime` | app/pickscore/ranges_cache.py:79-96 | a rebuild thread is alive exactly when `_refreshing` is up, and there are never two |
| `ScoringProtocol.GenerationsOnlyGrow` | app/pickscore/ranges_cache.py:45-56 | the built generation never falls and never passes the current one, and a copy once there is never lost |
| `ScoringProtocol.OneMoreGetConverges` | app/pickscore/ranges_cache.py:59-96 | once this process's writes have settled, finishing any running rebuild, one more get and its rebuild leave the cache idle and current, and equal to the database except exactly when the get found a fresh copy that misses a commit made outside the process |
| `ScoringProtocol.ConvergenceLasts` | app/pickscore/ranges_cache.py:52-96 | a cache that so equals the database goes on doing so through any gets, rebuilds and inline builds until the next commit, when no inline build of the current generation has read a state without some outside commit |
| `ScoringProtocol.RunStaysConverged` | app/pickscore/ranges_cache.py:52-96 | from any state whose copy, and whose every read that could still replace it, is the database, nothing but a commit takes the copy away from it |
| `ScoringProtocol.ExpiredCopyIsReplaced` | app/pickscore/ranges_cache.py:66-70 | a write this process never saw is picked up by the first get after the copy's time to live |
| `ScoringProtocol.UndisturbedInlineBuildFillsTheCache` | app/laptops/pickscore_adapter.py:62-77 | a cold build that no write overtakes files the whole database under the current generation |
| `ScoringProtocol.OvertakenRebuildStaysStale` | app/pickscore/ranges_cache.py:52-56 | a rebuild overtaken by a write between its read and its store is stored as stale, so the next get starts another, or is dropped in favour of a newer copy |
| `LlmStream.IsFallbackEligible` | app/common/llm.py:80-93 | the first exception of the cause chain that says anything decides, and it is one another model may fix: unavailable, transport, timeout, 429 or 5xx |
| `LlmStream.TheOutermostDecisiveExceptionSettles` | app/common/llm.py:80-93 | an outage, deadline, transport failure or time-out is worth another model, an API error exactly when it is a 429 or 5xx, and only an exception that is none of these is judged by its causes |
| `LlmStream.ClassifiedIsHandledIffEligible` | app/common/llm.py:96-104 | a classified exception is one the fallback handles exactly when the original was eligible, and it carries the original as its cause |
| `LlmStream.FirstChunkDeadline` | app/common/llm.py:120-136 | only the first item is timed; a provider timeout in its place reads as the deadline too |
| `LlmStream.AStream` | app/common/llm.py:177-188 | yields the chunks and raises as classified before the first of them, as interrupted after it |
| `LlmStream.ACallIsHonest` | app/common/llm.py:120-188 | a call whose provider is in time passes on all its chunks and its failure, wrapped at most, with the causes kept; one that times out passes on nothing but that |
| `LlmStream.FallsBackExactlyWhenNothingWasShown` | app/common/llm.py:120-188 | a failed call falls back exactly when it showed nothing and its cause is eligible or its first chunk came late; a stream that has shown a chunk is never retried |
| `AgentTurn.ContentToText` | app/agent/graph.py:547-570 | the text blocks in order, and the thinking blocks only when there is no text at all |
| `AgentTurnLaws.TextBlocksAreShown` | app/agent/graph.py:517-530 | a text block or a plain string put anywhere among a message's blocks puts its text at that place of what is shown |
| `AgentTurnLaws.OtherBlocksAreNotShown` | app/agent/graph.py:517-530 | a thinking block or a block of another kind put anywhere puts nothing into the text shown |
| `AgentTurnLaws.ThinkingBlocksAreThinking` | app/agent/graph.py:504-514 | a thinking block put anywhere puts its thought at that place of the thinking shown, and any other block puts nothing there |
| `AgentTurnLaws.AStringIsText` | app/agent/graph.py:504-530 | a message that is a string is all text and no thinking |
| `AgentTurnLaws.OnlyThoughtsReadAsThoughts` | app/agent/graph.py:547-570 | a message of thinking blocks alone reads as its thoughts in order |
| `AgentTurnLaws.TextSpeaksForTheMessage` | app/agent/graph.py:547-570 | a message with any text reads as that text alone |
| `AgentTurnLaws.ThoughtsAreNotText` | app/agent/graph.py:517-530 | two messages that differ only in their thoughts show the same text |
| `AgentTurnLaws.ThoughtsStayPrivate` | app/agent/graph.py:457-501 | for two event streams that differ only in thoughts a client gets the same tokens, resets, tool notices and results, and the same reply unless that is of a message without text |
| `AgentTurnLaws.EverythingStreamedIsShown` | app/agent/graph.py:465-493 | the tokens are the chunks' texts, the thinking events their thoughts and the notices the tools started, all in order |
| `AgentTurnLaws.StepEnds` | app/agent/graph.py:118-132 | a step calls consecutive models and ends in the first answer, in the first failure no other model may fix, or, past the end of the chain, in the failure of its first call |
| `AgentTurn.PositionToStartAt` | app/agent/graph.py:92-101 | the position the turn's last AI message was answered at, and 0 right after a human message |
| `AgentTurn.AwrapModelCall` | app/agent/graph.py:118-132 | walks the chain from the sticky start, stops at the first answer or unhandled error, and re-raises the first handled error when the chain runs out |
| `AgentTurn.StickyCost` | app/agent/graph.py:104-132 | a turn's calls are its answers plus the positions it left, whatever the failures |
| `AgentTurn.TurnIsSticky` | app/agent/graph.py:92-132 | across all steps of a turn each step starts where the last one answered, and a reply comes from the last call |
| `AgentTurn.TurnCost` | app/agent/graph.py:92-132 | positions never go back and stay in range; S answered steps over n models cost at most S + n - 1 calls when the turn replied and S + n when its last step raised |
| `AgentTurn.NewTurnStartsAtThePrimary` | app/agent/graph.py:92-101 | whatever answered before, a new human message starts at the primary |
| `AgentTurn.StreamAgent` | app/agent/graph.py:453-501 | emits exactly the client events of the event stream, and a final event only when the stream ended without raising |
| `AgentTurn.TurnOnScreen` | app/agent/graph.py:457-501 | when a turn replies, the screen holds exactly what its last call streamed: no text of an earlier step or of a failed call is left |
| `AgentTurn.FinalReplyIsOnTheScreen` | app/agent/graph.py:457-501 | at the final event, a client that appends tokens and clears on turn_reset holds exactly the reply whenever the last call streamed text, and that text is one model's |
| `AgentTurn.ResultsAreTheLatestSearch` | app/agent/graph.py:494-501 | the results of the final event are those of the turn's latest search, and only if it was confident and found something |
| `Monitoring.Handler.OnChatModelStart` | app/agent/monitoring_service.py:68-95 | opens one entry for the run at the current step, with its model and chain position |
| `Monitoring.Handler.OnLlmEnd` | app/agent/monitoring_service.py:132-156 | closes the run's entry as answered, counts the step, names the model, raises the fallback flag and adds the tokens to the turn and to the model's row |
| `Monitoring.Handler.OnLlmError` | app/agent/monitoring_service.py:158-165 | closes the run's entry with its error and changes nothing else |
| `Monitoring.Handler.FinalizeIncompleteCalls` | app/agent/monitoring_service.py:167-181 | closes every open entry as unfinished and leaves the others alone |
| `Monitoring.CallbackKeepsLog` | app/agent/monitoring_service.py:68-181 | no callback breaks the log's consistency, however the calls overlap |
| `Monitoring.CallbackKeepsRow` | app/agent/monitoring_service.py:150-156 | every callback keeps each per-model row equal to the tokens of that model's answered calls |
| `Monitoring.EveryLogIsConsistent` | app/agent/monitoring_service.py:68-181 | after any allowed sequence of callbacks the totals, steps, positions and open set agree with the entries |
| `Monitoring.FinalizedClosesEverything` | app/agent/monitoring_service.py:167-181 | after finalising no call is open, closed calls are untouched and the rest say they never ended |
| `Monitoring.SequentialLog` | app/agent/monitoring_service.py:68-165 | for sequential calls: one entry per call in order, holding that call's model, place, tokens and error; each step is failures followed by at most one answer; and model and position are those of the last answer |
| `Monitoring.UsageRows` | app/agent/monitoring_service.py:150-156 | each per-model row of a turn is exactly what that model's answered calls reported |
| `Monitoring.FallbackMeansABackupAnswered` | app/agent/monitoring_service.py:136-138 | the fallback flag is up exactly when some answered call was not at position 0 |
| `TurnLog.AnswerCounts` | app/agent/monitoring_service.py:136-139 | the log's answered calls are the turn's answered calls |
| `TurnLog.LastAnswerTellsAll` | app/agent/graph.py:118-132 | in a sticky turn some backup answered exactly when the last answer came from one |
| `TurnLog.TurnIsLogged` | app/agent/monitoring_service.py:136-139 | when a turn replied, the log counts one step per answer, names the model and position that wrote the reply, and the fallback flag says exactly whether that was a backup |
| `Jobs.JobTable.CreateJob` | app/common/job_service.py:199-225 | adds a queued job with its total |
| `Jobs.JobTable.CheckCancel` | app/common/job_router.py:125-141 | 404 without the row and 409 on a finished job; otherwise the row as it is, and the request goes on to write exactly when the job is not being cancelled already |
| `Jobs.ACheckPassesIffTheJobRuns` | app/common/job_router.py:132-144 | of all jobs a request can find only a queued or processing one lets it go on to write |
| `Jobs.JobTable.WriteCancel` | app/common/job_router.py:141-146 | a request that passed its check makes the job cancelling whatever the row holds by then, and touches no other job |
| `Jobs.JobTable.CancelJob` | app/common/job_router.py:125-148 | a request nothing comes between: 404 without the row, 409 on a finished job, otherwise the job is cancelling and nothing else changes |
| `Jobs.JobTable.ResetStaleJobs` | app/common/job_service.py:359-393 | fails exactly the unfinished jobs and counts them, or writes nothing when the query or commit fails |
| `Jobs.JobProgress.Update` | app/common/job_service.py:86-100 | mutates its own row only, and remembers the status that row had before |
| `Jobs.JobProgress.RunWorkerStep` | app/common/job_service.py:114-146 | a worker's bookkeeping step, or a check or write of a cancel request between two of them |
| `Jobs.JobProgress.RunJob` | app/common/job_service.py:275-345 | runs the job through its try, except and finally exactly as the script dictates: what raises, and in which gaps cancel requests check and write |
| `Jobs.JobProgress.Try` | app/common/job_service.py:296-321 | the worker's result is recorded as cancelled or completed, and a failing lookup of the job's type after that still counts as a failure |
| `Jobs.FinalJob` | app/common/job_service.py:296-345 | the exact row any run that gets to its worker leaves: what it settled on, unless a late cancel overwrote that, and then, as for a job that was never settled, what the backstop makes of it |
| `Jobs.RunEndsTerminal` | app/common/job_service.py:275-345 | once mark_processing has committed, the run ends terminal exactly when the early cancel could be written, or else when the backstop could or an outcome was settled that no late cancel overwrote |
| `Jobs.OutcomeStandsIff` | app/common/job_service.py:312-345 | the outcome of a returning worker is the run's last word exactly when neither its log line's lookup fails and is recorded, nor a cancel checked before the outcome writes after it; otherwise the job is failed, or cancelling if the backstop fails too, and its result is kept |
| `Jobs.ALateCancelFailsACompletedJob` | app/common/job_router.py:132-144 | a run in which nothing raises, all work is done and the result is stored ends failed, because a cancel checked before the completion is written after it |
| `Jobs.AtomicRequestsNeverOverwrite` | app/common/job_router.py:132-144 | were the check and the write of every request one transaction, no run could lose its outcome to a cancel |
| `Jobs.GapCancelsIffOneLands` | app/common/job_router.py:125-144 | whatever requests come between two writes of the run, they leave the row alone or cancelling, the latter exactly when a write follows a check that a live job passed |
| `Jobs.ReturnedMeansTerminal` | app/common/job_service.py:323-345 | a run that returns leaves the job terminal and stamped finished, as long as the backstop could be written |
| `Jobs.TheWorkerNeverFinishesTheJob` | app/common/job_service.py:114-146 | no worker step under any interleaving of cancels sets a terminal status |
| `Jobs.CancelIsSeenAtTheNextUpdate` | app/common/job_service.py:102-112 | the worker is told to stop exactly when some update of its own came after a cancel had landed |
| `Jobs.CleanRunOutcome` | app/common/job_service.py:286-345 | with every write succeeding, the final status of every script: cancelled when a cancel landed before the start or before the worker's last update, failed when the worker did not return or a late cancel overwrote the outcome, completed otherwise |
| `Jobs.CompletedTurnsFailedWhenTheLogLookupRaises` | app/common/job_service.py:318-326 | a finished job is turned into a failed one, keeping its result, when the lookup for its own log line raises |
| `Jobs.TerminalIsForeverIff` | app/common/job_router.py:132-144 | a finished job stays as it is under every later sequence of requests and restarts exactly when no request that was checked while it ran is still to write |
| `Jobs.ARestartEndsEveryJob` | app/common/job_service.py:359-393 | after a restart whose reset goes through every job is finished, whatever requests and failed resets come before and after it |
| `Jobs.CountersAddUp` | app/common/job_service.py:122-146 | over every sequence of worker steps succeeded grows by the counts reported as successes, failed by those reported as failures, processed by both, the total is the last one set, and the stored errors are the first fifty reported |
| `Jobs.RunKeepsCounters` | app/common/job_service.py:275-345 | a whole run, however it ends, leaves exactly the counters, total and errors its worker reported, and those it began with when the worker never started |
| `Jobs.SettledRunRecords` | app/common/job_service.py:148-191 | what a settled run leaves in the row: a returned payload or the earlier result, the first 2,000 characters of a raised message, and that the job has started and finished |
| `Jobs.SettledIff` | app/common/job_service.py:296-333 | a run that gets to its worker settles on something exactly when there is a failure and it can be recorded, or the worker returned and its outcome could be written |
| `Jobs.RunRaisesIff` | app/common/job_service.py:286-345 | what reaches the caller is a failing early write or a tear-down, and nothing the worker raises |
| `Jobs.AFailedJobSaysWhy` | app/common/job_service.py:323-393 | no run, whatever raises and whenever requests come, and no restart leaves a failed job without a message |
| `Jobs.ProgressIsHonest` | app/common/job_model.py:198-219 | the percentage stays in 0..100, never falls as items are counted, and only completing or failing snaps it to 100 |
| `Jobs.ProgressIsTheShareProcessed` | app/common/job_model.py:198-219 | while a job runs the percentage is the share of its total that is processed |
| `Percentile.BisectLeft` | app/pickscore/engine.py:89-95 | the binary search returns the number of values below v |
| `Percentile.BisectRight` | app/pickscore/engine.py:89-95 | the binary search returns the number of values at or below v |
| `Percentile.Normalize` | app/pickscore/engine.py:63-104 | neutral without a value, the mid-rank percentile found by bisection, or the min-max line when there is no distribution |
| `Percentile.ScoreIsAPercentage` | app/pickscore/engine.py:63-104 | every score is in 0..100, on every path |
| `Percentile.InverseIsComplement` | app/pickscore/engine.py:63-104 | the inverse form is the complement to 100, on every path |
| `Percentile.ScoreIsMonotone` | app/pickscore/engine.py:85-104 | a larger value never scores lower, and never higher in the inverse form |
| `Percentile.MeanIsFifty` | app/pickscore/engine.py:85-104 | the scores of a catalog's own values average exactly 50 in both directions, for any ties |
| `Distributions.DistributionIsRanked` | app/laptops/pickscore_adapter.py:31-50 | a factor's range is the catalog's values, one entry each, sorted, with the least and the greatest of them as bounds |
| `Distributions.DistributionIgnoresOrder` | app/laptops/pickscore_adapter.py:31-50 | the order in which the catalog is read changes no range |
| `PickScore.FoldPurposes` | app/pickscore/engine.py:336-339 | several purposes fold to the largest modifier of the factor |
| `PickScore.ComputeRawWeight` | app/pickscore/engine.py:332-360 | a factor's weight before scaling |
| `PickScore.ComputeWeights` | app/pickscore/engine.py:325-363 | the scaled weights, and the division failure exactly when they add up to 0 |
| `PickScore.ScoreFactor` | app/pickscore/engine.py:124-313 | each factor's score by its own rule |
| `PickScore.ScoreFactors` | app/pickscore/engine.py:378-391 | all factor scores in the order of the factor list |
| `PickScore.CalculatePickScore` | app/pickscore/engine.py:366-454 | the rounded, clamped weighted sum, or no score when a benchmark is unresolved |
| `PickScoreLaws.PartsAreMeasured` | app/pickscore/engine.py:184-295 | the CPU factor is the mid-rank of the CPU mark in the catalog's CPU marks and the GPU factor that of the GPU mark, weight ranks from the far end and battery from the near one; an unknown datum scores 50 |
| `PickScoreLaws.MemoryIsMeasured` | app/pickscore/engine.py:282-287 | the memory factor is 60 per cent the memory's rank and 40 per cent the storage's, less 15 points but not below 0 on a hard disk |
| `PickScoreLaws.PriceIsMeasured` | app/pickscore/engine.py:159-175 | a missing price scores 50 and any other its rank from the far end, in both modes alike when no usable budget is stated |
| `PickScoreLaws.AStatedBudgetAttenuates` | app/pickscore/engine.py:164-181 | a positive budget maximum takes nothing from that rank up to itself, a share in a straight line past it, and all of it at half over |
| `PickScoreLaws.NormMeasures` | app/pickscore/engine.py:85-104 | the percentile is all values below and half of those tied, counted by position; without a distribution the place between the bounds; and 50 where nothing is known |
| `PickScoreLaws.OneScoreMeasures` | app/pickscore/engine.py:85-104 | there is one such score |
| `PickScoreLaws.FactorsReadTheirOwnInput` | app/pickscore/engine.py:124-313 | a factor score depends on nothing but its own datum, range and wish |
| `PickScoreLaws.ScreenTable` | app/pickscore/engine.py:298-304 | the screen factor is 100 for the size wished for first, 60 for the next size and 20 for the farthest, and 50 with nothing wished |
| `PickScoreLaws.AWishedBrandScoresHigher` | app/pickscore/engine.py:306-313 | a wished brand scores 100 and any other 50; with no wish every brand scores 50 |
| `PickScoreLaws.WhatAPreferenceWeighs` | app/pickscore/engine.py:325-360 | a stored priority, or 1, times the largest modifier the purposes list, and for portability times 1.4, 1 or 0.5 by the answer |
| `PickScoreLaws.WhatAProfileWeighs` | app/pickscore/engine.py:346-353 | a general score weighs by the profile, 1 where it names no weight, and by the default without one |
| `PickScoreLaws.SharesAreProportional` | app/pickscore/engine.py:355-363 | a factor's final weight is its weight's share of all weights |
| `PickScoreLaws.PortabilityAnswersWeighInOrder` | app/pickscore/engine.py:341-360 | a keener portability answer makes weight count for a strictly larger share of the score and changes no other raw weight |
| `PickScoreLaws.PurposesMirrorTheProfiles` | app/pickscore/engine.py:22-48 | where a purpose's modifiers prefer one factor to another, so do the weights of its use case |
| `PickScoreLaws.TheDefaultCountsDown` | app/pickscore/engine.py:8-18 | the default weights count down from 8 to 1 over the factors |
| `PickScoreLaws.OneFactorMovesTheScoreByItsShare` | app/pickscore/engine.py:414-428 | two laptops alike in all factor scores but one differ in the sum by that difference times the factor's share |
| `PickScoreLaws.EvenFactorsGiveTheirOwnScore` | app/pickscore/engine.py:414-428 | a laptop that scores the same in every factor has that as its sum, whatever the weights |
| `PickScoreLaws.WithheldIffBothUnknown` | app/pickscore/engine.py:430-446 | no score exactly when neither processor is known; one unknown counts as 50 |
| `PickScore.FactorIsAPercentage` | app/pickscore/engine.py:124-313 | every factor scores in 0..100 for every product, range and preference |
| `PickScore.WeightsSumToOne` | app/pickscore/engine.py:355-363 | with non-negative weights of positive total the final weights are shares of one |
| `PickScore.ScoreIsTheRoundedAverage` | app/pickscore/engine.py:414-445 | every published score is in 0..100 and the final clamp never changes it |
| `PickScore.Dominance` | app/pickscore/engine.py:366-454 | a laptop that is nowhere worse, both resolved and otherwise alike, never gets a lower PickScore, for any user, weights and catalog |
| `PickScore.BudgetAttenuation` | app/pickscore/engine.py:124-181 | a budget changes nothing up to its maximum; past it the price score falls in a straight line and is gone at half over budget |
| `PickScore.HardDiskCost` | app/pickscore/engine.py:282-287 | a hard disk costs 6 points of the memory factor, or the whole storage share when that is less |
| `PickScore.PurposesFoldToTheLargest` | app/pickscore/engine.py:336-339 | the folded modifier is in 1..1.3, bounds each purpose's and is one of them |
| `PickScore.PurposeOrderIsIrrelevant` | app/pickscore/engine.py:336-339 | the order of purposes, and repeating one, change no weight |
| `PickScore.PrioritiesMakeFairWeights` | app/pickscore/engine.py:325-363 | stored priorities make fair weights exactly when none is negative and some factor has a positive one or none at all |
| `PickScore.GeneralWeightsAreFair` | app/laptops/pickscore_general.py:41-65 | the default priorities and every use-case profile make fair weights, so every stored general score is a rounded weighted average |
| `Rounding.RoundIsNearest` | app/pickscore/engine.py:443-446 | rounding stays within half a point and keeps whole numbers, as Python's round does |
| `Rounding.RoundIsMonotone` | app/pickscore/engine.py:443-446 | half-to-even rounding never reorders two scores |
| `Ndcg.SortDescSorts` | app/rag/evaluation.py:61-61 | the ideal list is the labels, descending |
| `Ndcg.TopLabelsGainMost` | app/rag/evaluation.py:161-163 | n distinct ids gain at most the n largest labels |
| `Ndcg.RankingIsDominated` | app/rag/evaluation.py:161-163 | every prefix of a ranking of distinct ids is worth at most the same prefix of the sorted labels |
| `Ndcg.DominatedDcg` | app/rag/evaluation.py:37-46 | under any positive falling discount a list dominated prefix by prefix has no larger DCG, with equality under a strict discount only when no prefix differs |
| `Ndcg.NdcgIsAFraction` | app/rag/evaluation.py:49-61 | NDCG at k is in [0, 1] for every ranking of distinct ids, every non-negative labelling, any k and any positive falling discount |
| `Ndcg.OneMeansPerfectOrder` | app/rag/evaluation.py:54-57 | 1 means exactly that the first k places hold the ideal labels in order |
| `Ndcg.ZeroMeansNothingRelevantShown` | app/rag/evaluation.py:54-57 | 0 means exactly that no place of the first k holds a relevant id |
| `Ndcg.UnrelatedListsBreakTheBound` | app/rag/evaluation.py:54-57 | on lists that are not one labelling the score can be 3 |
| `Ndcg.BoundedForEveryDiscountIffDominated` | app/rag/evaluation.py:49-61 | on arbitrary non-negative lists the bound holds for every discount exactly when the ideal dominates the ranking prefix by prefix |
| `Ndcg.EvaluateTestSuite` | app/rag/evaluation.py:134-183 | one rounded score per case, and their rounded mean, each in [0, 1] |
| `Ndcg.ACaseIsScoredByItsFirstCandidates` | app/rag/evaluation.py:147-176 | a gated case or one without candidates scores 0, any other the NDCG of its first k candidates to within half a ten-thousandth |
| `Ndcg.TotalIsBetween` | app/rag/evaluation.py:176-183 | the mean of the scores lies between any bounds of them |
| `Ndcg.OneCaseMovesTheTotal` | app/rag/evaluation.py:176-183 | a case that scores more raises the total by just as much |
| `Ndcg.CaseScoreIsAFraction` | app/rag/evaluation.py:147-176 | a case's reported, rounded score is in [0, 1], gated or not |
| `Ndcg.SortingTwiceIsOnce` | app/rag/evaluation.py:161-163 | sorting the already sorted labels, as the caller and ndcg_at_k both do, changes nothing |
| `RateLimiter.Limiter.PruneAll` | app/common/http_rate_limit.py:37-40 | drops exactly the keys whose deque is empty or idle for over an hour |
| `RateLimiter.Limiter.Record` | app/common/http_rate_limit.py:43-65 | trims, rejects with the seconds left or accepts, prunes over the cap, and appends to a deque the table may no longer hold |
| `RateLimiter.DecidesAsIfNothingWereForgotten` | app/common/http_rate_limit.py:53-59 | the decision is the one a limiter that never forgets would make: accept exactly when fewer than limit accepted hits are inside the window |
| `RateLimiter.RunKeepsTheCap` | app/common/http_rate_limit.py:43-65 | the table never tracks more than 10,000 keys: the key that would be one too many prunes its own empty deque |
| `RateLimiter.NoWindowExceedsTheLimit` | app/common/http_rate_limit.py:43-65 | over every run none of whose calls loses the key a hit, no half-open window of the key holds more than its limit of accepted hits, whatever other keys do |
| `RateLimiter.TheLimitHoldsIffTheKeysFit` | app/common/http_rate_limit.py:43-65 | with a monotone clock, every run over a set of keys keeps the limit of one of them exactly when the set has at most 10,000 keys, or the window no length |
| `RateLimiter.BurstBreaksTheLimitIffNoRoom` | app/common/http_rate_limit.py:61-65 | after any run that kept the key's hits, its next calls at one instant can break its limit exactly when the table holds 10,000 keys and it is not one of them |
| `RateLimiter.FewKeysAreSafe` | app/common/http_rate_limit.py:61-62 | with a monotone clock and at most 10,000 possible keys, every run is such a run |
| `RateLimiter.RetryAfterIsExact` | app/common/http_rate_limit.py:58-59 | a rejection counts for nothing, any earlier retry is rejected again, and waiting exactly the returned seconds succeeds |
| `RateLimiter.PruningIsInvisible` | app/common/http_rate_limit.py:37-40 | for windows up to an hour, pruning changes no later decision about any key |
| `RateLimiter.HitIsLostExactlyWhenPruned` | app/common/http_rate_limit.py:61-65 | an accepted hit is lost exactly when the call finds 10,000 keys tracked and its own not among them |
| `RateLimiter.OverTheCapTheBoundFails` | app/common/http_rate_limit.py:61-65 | any 10,001 keys have a run from the empty table, one call of each of 10,000 of them and then calls of the last, in which that one gets more than its limit through |
| `TokenBudgets.TokenBudget.Unexpired` | eval/run_eval.py:131-131 | the rebuilt list is exactly the charges still inside the window |
| `TokenBudgets.TokenBudget.Acquire` | eval/run_eval.py:127-136 | ends after finitely many waits; the charge is recorded with the window's charges, alone or within the budget, and each wait met a total that left no room |
| `TokenBudgets.TokenBudget.Attempt` | eval/run_eval.py:130-136 | one turn of the loop: admits the call when the window has room, otherwise leaves the oldest charge to wait for |
| `TokenBudgets.ModelCalls.OnChatModelStart` | eval/run_eval.py:162-171 | charges Gemma calls, and only those, under their run id |
| `TokenBudgets.ModelCalls.OnLlmEnd` | eval/run_eval.py:173-180 | replaces the charge by the reported tokens once, never by nothing, and touches no other charge |
| `BudgetRefinement.AdmissionIsAStep` | eval/run_eval.py:127-136 | what acquire promises on return is the run machine's Admit step, from any earlier clock and first live charge |
| `BudgetRefinement.AttemptIsAStep` | eval/run_eval.py:130-136 | each turn of the loop takes the run machine from the state it found to the state it left, by Admit or by Wait |
| `BudgetRefinement.OnLlmEndIsAStep` | eval/run_eval.py:173-180 | a reported number corrects the charge its call holds, which is the machine's Correct step |
| `BudgetRefinement.RefusalIsAStep` | eval/run_eval.py:130-136 | a turn of the loop that admits nothing is the machine's Wait step, from any earlier clock and first live charge |
| `BudgetWindows.StepKeepsInv` | eval/run_eval.py:127-136 | admitting, waiting and correcting in any order keep every two charges less than a window apart, and all between them, within the budget |
| `BudgetWindows.OvershootIsWhatWasRaised` | eval/run_eval.py:115-136 | in every run a rolling window with more than one call exceeds the budget by at most what corrections raised its charges |
| `BudgetWindows.WindowsStayWithinBudget` | eval/run_eval.py:115-136 | when no correction raised a charge, every rolling window is within the budget or holds one call |
| `BudgetWindows.AnyRaiseCanBreakTheBudget` | eval/run_eval.py:173-180 | any correction above an estimate that left room for another call breaks the budget in some run |
| `BudgetWindows.OversizedCallGoesAlone` | eval/run_eval.py:133-133 | a call bigger than the budget is admitted exactly when the window is empty |
| `Families.FamilyStore.ResolveFamilyId` | app/laptops/family_service.py:33-70 | the one family of the assigned laptops with this key, and none when there are none or several |
| `Families.FamilyStore.MoveLaptops` | app/laptops/family_service.py:73-158 | an unknown id writes nothing and is reported; otherwise exactly the requested laptops are in the target, the counts add up, and the emptied families are exactly those that had members and have none |
| `Families.FamilyStore.RegroupUnassigned` | app/laptops/family_service.py:161-239 | places every unassigned laptop by its key's families, founds one family per orphan key, leaves the straddling ones, touches no assigned laptop, and reports the exact counts |
| `Families.FamilyStore.PlaceGroup` | app/laptops/family_service.py:207-232 | adopts the key's one family, founds one when it has none, and stays out when it has several |
| `Families.FamilyStore.FamiliesByKey` | app/laptops/family_service.py:188-195 | the families of every key over the assigned laptops |
| `Families.FamilyStore.GroupUnassigned` | app/laptops/family_service.py:197-199 | the unassigned laptops of every key |
| `Families.LeftNullIffStraddling` | app/laptops/family_service.py:207-209 | after grouping, the unassigned laptops are exactly those whose key spans two or more families, before and after |
| `Families.RegroupIsIdempotent` | app/laptops/family_service.py:161-239 | grouping a second time changes no laptop and founds no family |
| `Families.RegroupAgreesWithResolve` | app/laptops/family_service.py:33-70 | wherever resolving the name would have named a family, grouping puts the laptop there |
| `Families.PlacedKeysResolve` | app/laptops/family_service.py:211-232 | a laptop the grouping placed has a key that resolves to its family from then on |
| `Families.MergeIsCarriedForward` | app/laptops/family_service.py:169-176 | once all assigned laptops of a key are moved into one family, the key resolves to it and grouping sends it the rest |
| `Deduplication.Deduplicate` | app/laptops/family_service.py:244-283 | one item per slot, the slots being the family-less items and each family's first item, each filled by its family's champion |
| `Deduplication.SlotsAreTheFirsts` | app/laptops/family_service.py:268-281 | the places are, in order, exactly the first occurrences |
| `Deduplication.SlotsAreCounted` | app/laptops/family_service.py:244-283 | there are as many places as families and family-less items |
| `Deduplication.OnePerFamily` | app/laptops/family_service.py:244-283 | each place shows an item of the list from its own family, and no family has two places |
| `Deduplication.EveryFamilyHasAPlace` | app/laptops/family_service.py:254-257 | every family has a place no later than any of its items |
| `Deduplication.DeduplicatingTwiceIsOnce` | app/laptops/family_service.py:244-283 | deduplicating a deduplicated list changes nothing |
| `Deduplication.FirstMemberStands` | app/laptops/family_service.py:262-263 | without a preference the family's first item represents it |
| `Deduplication.NearestMemberStands` | app/laptops/family_service.py:286-309 | with a budget the earliest of the items nearest the budget represents the family |
| `Ranking.GetRanking` | app/laptops/pickscore_general.py:177-230 | sorts the scored rows by the total key, deduplicates, then cuts |
| `Ranking.SortRows` | app/laptops/pickscore_general.py:212-225 | an ordered permutation of the rows |
| `Ranking.RankingIsTheBestOfEachFamily` | app/laptops/pickscore_general.py:177-230 | the ranking is in key order, one laptop per family, and every scored laptop left out is outranked by a listed one of its family or by a full list |
| `Ranking.RankingGoesByScoreThenPrice` | app/laptops/pickscore_general.py:211-225 | of two listed laptops the earlier has the higher score, then the lower price, then the lower id, and where proxied GPUs are demoted they come after all others |
| `Ranking.RankingIsFull` | app/laptops/pickscore_general.py:227-230 | its length is the smaller of the limit and the number of families plus family-less laptops |
| `Ranking.RankingIgnoresRowOrder` | app/laptops/pickscore_general.py:213-225 | the same catalog ranks the same in whatever order the database returns the rows |
| `PriceMatch.IndexBySku` | app/laptops/price_guide.py:155-158 | for every key, the laptops with that SKU key in catalog order |
| `PriceMatch.Look` | app/laptops/price_guide.py:167-182 | one row's verdict: unpriced, claiming by SKU, unmatched, ambiguous, or claiming one laptop by its specification |
| `PriceMatch.ClaimAll` | app/laptops/price_guide.py:166-182 | the first pass sorts every guide row into its list or adds its claims, in guide order |
| `PriceMatch.SortClaims` | app/laptops/price_guide.py:184-193 | the second pass puts each claimed laptop on the list of its class, in the order of the first claims |
| `PriceMatch.Match` | app/laptops/price_guide.py:153-196 | the whole result, every list in its order: three row lists, four laptop lists in the order of the first claims, and the uncovered laptops |
| `PriceMatchLaws.FirstClaimedHolds` | app/laptops/price_guide.py:161-182 | the first claims name each claimed laptop once |
| `PriceMatchLaws.ListHolds` | app/laptops/price_guide.py:184-193 | each list holds the claims of distinct catalog laptops, each with all its rows and of the list's class |
| `PriceMatch.VerdictIsFromCatalog` | app/laptops/price_guide.py:138-150 | whatever a row finds is in the catalog, and if it has a SKU it was found by that SKU's key |
| `PriceMatchSpecs.ASkuClaimsItsCarriers` | app/laptops/price_guide.py:167-175 | a row is without a price exactly when its verdict says so, and a priced row whose SKU some laptop carries claims exactly the carriers |
| `PriceMatchSpecs.EveryRowIsReported` | app/laptops/price_guide.py:166-182 | a row is on the unpriced list exactly when it has no price, on the unmatched one exactly when it is priced and no laptop carries its SKU or has its specification, and the lists and the claiming rows are as many as the guide's rows |
| `PriceMatchSpecs.EveryDoubtIsReported` | app/laptops/price_guide.py:176-180 | a row is on the ambiguous list exactly when several laptops have its specification and none carries its SKU, and then with just these laptops |
| `PriceMatchSpecs.SpecsDecideTheRest` | app/laptops/price_guide.py:138-150 | any other priced row claims the one laptop without a SKU that has its CPU part, RAM and SSD, fits its letter and names its code; is ambiguous about exactly those when there are several; and is unmatched exactly when there is none |
| `PriceMatchSpecs.FoundWithoutASkuIsASpecMatch` | app/laptops/price_guide.py:138-150 | whatever laptop without a SKU a row claims or doubts has the row's CPU part, RAM and SSD, all stated, fits its letter, and names the full code, or the base code when no laptop without a SKU names the full one |
| `PriceMatchSpecs.ClaimsWithoutASkuAreSpecMatches` | app/laptops/price_guide.py:184-195 | every row of every claim list on a laptop without a SKU has that laptop's specification; on the matches some row's full code is named, on the base-code list none is |
| `PriceMatchSpecs.ConflictIff` | app/laptops/price_guide.py:184-187 | a laptop is in conflict exactly when two of its rows state different prices or one states another panel than the catalog |
| `PriceMatchLaws.EveryRowIsCountedOnce` | app/laptops/price_guide.py:166-182 | unpriced, unmatched, ambiguous and claiming rows together are the guide, row for row |
| `PriceMatchLaws.EveryLaptopGoesToOneList` | app/laptops/price_guide.py:184-195 | a claimed laptop is on the one list of its class; an unclaimed one is uncovered unless an ambiguous row names it |
| `PriceMatchLaws.ClaimersArePriced` | app/laptops/price_guide.py:167-174 | every row on a claim is a priced row of the guide |
| `PriceMatchLaws.MatchesHaveOnePrice` | app/laptops/price_guide.py:184-193 | all rows of a match, or of a claim awaiting confirmation, agree on one price |
| `PriceMatchLaws.MatchesAgreeOnThePanel` | app/laptops/price_guide.py:184-187 | no row of a match states a panel other than the laptop's |
| `PriceMatchLaws.ASkuIsPricedByItsOwnKey` | app/laptops/price_guide.py:159-182 | a laptop with a SKU is claimed only by rows of its own key and is never in doubt |
| `PriceMatchLaws.TwoPricesConflict` | app/laptops/price_guide.py:89-94 | two priced rows of a laptop's key at two prices make it a conflict |
| `PriceMatchLaws.VerdictIgnoresCatalogOrder` | app/laptops/price_guide.py:138-150 | a row's verdict does not depend on the order of the catalog |
| `PriceMatchLaws.MatchIgnoresOrder` | app/laptops/price_guide.py:153-196 | reordering the guide or the catalog moves no laptop between the lists |
| `SkuKeys.OnlyWAndWpReadAsOne` | app/laptops/price_guide.py:89-94 | two normalised SKUs share a key exactly when equal or differing by a P after a final W |
| `PriceMatchLaws.SuffixRuleIffEveryRowDiffersByP` | app/laptops/price_guide.py:89-100 | a claimed laptop with a SKU waits under the suffix rule exactly when nothing conflicts and every row prints its SKU with the other of -W and -WP, and is matched exactly when some row prints it as it is |
| `PriceApply.PriceBook.WriteGuidePrice` | app/laptops/price_guide_service.py:184-191 | sets the price and Last Checked and appends one history row naming the guide |
| `PriceApply.PriceBook.ApplyOne` | app/laptops/price_guide_service.py:271-283 | fills, rechecks or leaves one matched laptop as the fill rule says |
| `PriceApply.PriceBook.ApplyGuide` | app/laptops/price_guide_service.py:252-299 | applies every quote decided from the history of the start, and reports the exact counts |
| `PriceApply.PriceBook.UseGuidePrice` | app/laptops/price_guide_service.py:194-224 | refuses the whole selection when one laptop is not waiting on this guide; otherwise every selected laptop has the guide's price and a new Last Checked, and the history is extended by one row for each price that moved |
| `PriceApply.SelectableIff` | app/laptops/price_guide_service.py:205-210 | what may be selected, and at which price: the laptops of the lists that wait, and the matched ones with another price that no guide gave, at their matched quote |
| `PriceApply.AppliedOn` | app/laptops/price_guide_service.py:47-52 | what an apply leaves on a laptop: filled from the guide, rechecked, or untouched, by the fill rule alone |
| `PriceApply.AnApplyFollowsTheRule` | app/laptops/price_guide_service.py:266-283 | a quoted laptop gets the guide's price and this moment when it has no price or another that a guide gave, this moment when it has this price and was last checked before the upload or never, and stays as it is otherwise |
| `PriceApply.TheReportCounts` | app/laptops/price_guide_service.py:264-297 | the reported numbers are those of the laptops the rule fills, rechecks and leaves to differ |
| `PriceApply.EveryFillIsRecorded` | app/laptops/price_guide_service.py:275-277 | an apply adds one history row per fill and no other |
| `PriceApply.EveryQuoteIsCounted` | app/laptops/price_guide_service.py:271-283 | every quote is filled, rechecked, unreported or differing |
| `PriceApply.AppliesKeepOwnedPrice` | app/laptops/price_guide_service.py:47-52 | over any applies of any guides, a non-zero price whose latest source is not a guide never changes |
| `PriceApply.ApplyingTwiceIsOnce` | app/laptops/price_guide_service.py:252-299 | a second apply changes nothing at all exactly when no quote of 0 meets a laptop without a price of its own |
| `PriceApply.AZeroIsWrittenAgain` | app/laptops/price_guide_service.py:48-49 | a written price of 0 is written again by every apply |
| `PriceApply.AUsedPriceIsSettled` | app/laptops/price_guide_service.py:194-224 | what any later quote finds of a laptop whose guide price was used: the same price is confirmed; another is filled in when the used price replaced the page's or the laptop's was a guide's already, and stays differing otherwise; a used 0 is filled over by anything |
| `GuideFlow.MatchesCanBeApplied` | app/laptops/price_guide_service.py:266-273 | a match hands the apply distinct laptops of the catalog, each with a stated price |
| `GuideFlow.AnApplyWritesOnlyMatches` | app/laptops/price_guide_service.py:271-273 | no laptop on another list, or on none, is written by an apply |
| `GuideFlow.AnApplyIgnoresOrder` | app/laptops/price_guide_service.py:252-299 | what an apply leaves on a laptop does not depend on the order of the guide's or the catalog's rows |
| `ModelSpecs.SpecReadsBack` | app/common/llm_config.py:85-90 | a stored spec parses to its own provider and model |
| `ModelSpecs.ParseSpecSplitsAtTheFirstColon` | app/common/llm_config.py:85-90 | every text: the parts before and after the first colon, stripped, or the default provider and the whole text, without a leading models/ |
| `ModelSpecs.AcceptedSpecsAre` | app/common/llm_config.py:97-116 | which specs are accepted, character by character, and which of the four refusals each other one gets, in their order |
| `ModelSpecs.SpellingsOfAModel` | app/common/llm_config.py:85-116 | bare or with the provider, with or without models/, and spaced at will, a model id is validated as the same spec |
| `ModelSpecs.StripDropsSpaces` | app/common/llm_config.py:85-90 | stripping gives what stands between the white space around it |
| `ModelSpecs.SplitsAtTheFirstComma` | app/common/llm_config.py:138-140 | every environment text: each stretch between commas stripped, the empty ones dropped |
| `ModelSpecs.ValidateSpecIsIdempotent` | app/common/llm_config.py:97-116 | validating a validated spec gives it back |
| `ModelSpecs.NormalIffUnchanged` | app/common/llm_config.py:97-116 | validation leaves exactly the specs in the stored form unchanged |
| `ModelSpecs.SplitOfJoin` | app/common/llm_config.py:138-140 | joining a list of clean items and splitting the text gives the list back |
| `ModelSpecs.BackupsSurviveTheEnvironment` | app/config.py:104-111 | a validated backup list written to the environment's form reads back as itself |
| `ModelChains.ValidateBackups` | app/common/llm_config.py:119-135 | the normalised list, or the first broken rule in order, the cap last |
| `ModelChains.AcceptedIff` | app/common/llm_config.py:119-135 | a list is accepted exactly when each value is valid, no two are one model, none is the primary and they fit the cap |
| `ModelChains.OnlyTheAgentIsCapped` | app/common/llm_config.py:119-135 | with the real checks the agent's list may hold two backups and every other list any number |
| `ModelChains.TheFirstBrokenRuleIsReported` | app/common/llm_config.py:119-135 | a refusal names the first value that breaks a rule and the rule it breaks, and the cap only when every value is in order |
| `ModelChains.UnchangedIffBackups` | app/common/llm_config.py:119-135 | validation leaves exactly the proper backup lists unchanged |
| `ModelChains.ValidUnderAnotherPrimary` | app/common/settings_router.py:209-214 | a valid list stays valid under another primary exactly when that primary is not in it |
| `ModelChains.StartupMakesEnvValid` | app/config.py:90-111 | texts that pass the two startup validators make a valid environment for the real checker and cap, and the joined list is read back as the checked backups |
| `ModelChains.CheckerIsStable` | app/common/llm_config.py:97-116 | the real checker accepts its own answers unchanged |
| `ModelChains.EveryResolvedChainIsValid` | app/common/llm_config.py:191-261 | whatever is stored, the resolved chain is a valid primary and distinct valid backups, none of them the primary, within the cap |
| `ModelChains.EnvironmentBackupsAreInEffect` | app/common/llm_config.py:206-225 | when no list is stored, or the stored one is rejected, the backups in effect are the environment's other than the primary in effect, all of them and in their order |
| `ModelChains.NoRowsMeanTheEnvironment` | app/common/llm_config.py:191-225 | with no rows a valid environment's primary and its whole list are in effect |
| `ModelChains.StoredPrimaryIsInEffectIff` | app/common/llm_config.py:191-203 | a stored primary is in effect, normalised, exactly when it is valid; otherwise the environment's is |
| `ModelChains.StoredBackupsAreInEffectIff` | app/common/llm_config.py:206-225 | a stored list is in effect, normalised, exactly when it is accepted with the primary in effect |
| `ModelChains.ResolvedChainIsBuiltWhole` | app/common/llm.py:245-246 | the built chain is the primary followed by the resolved backups, none dropped, repeated or moved |
| `ModelChains.BuiltIsDistinct` | app/common/llm.py:245-246 | any built chain starts at the primary and repeats no model |
| `ModelSettings.Settings.ResolveModels` | app/common/llm_config.py:231-261 | a hit returns the copy; otherwise the rows, or no rows after a failed read, are resolved and kept; the answer is always what one of the two resolves to |
| `ModelSettings.Settings.SetPrimary` | app/common/app_settings.py:58-70 | writes the row and moves the generation |
| `ModelSettings.Settings.DeletePrimary` | app/common/app_settings.py:73-79 | removes the row if there is one and moves the generation either way |
| `ModelSettings.Settings.SetBackups` | app/common/app_settings.py:58-70 | writes the row and moves the generation |
| `ModelSettings.Settings.DeleteBackups` | app/common/app_settings.py:73-79 | removes the row if there is one and moves the generation either way |
| `ModelSettings.Settings.ApplyUpdate` | app/common/settings_router.py:184-243 | plans on what the rows resolve to, or on what no rows resolve to while a failed read's copy is in force; a refused update writes nothing; an accepted one writes exactly the planned rows and outdates the copy |
| `ModelSettings.PlannedAsAsked` | app/common/settings_router.py:184-214 | an update is planned as a change exactly when its primary is valid or left as it is, and its backups, or the stored ones it leaves, are accepted with that primary |
| `ModelSettings.OnlyNamedModelsAreLookedUp` | app/common/settings_router.py:216-230 | with a provider's list the same update is refused exactly when it names a model that is not on it, the primary first |
| `ModelSettings.FinishedUpdateIsErrorFreeIff` | app/common/settings_router.py:184-243 | a finished update of an error-free configuration, planned on any chain, leaves an error-free one exactly when the list then stored does not hold the primary then in effect |
| `ModelSettings.UpdateTakesEffect` | app/common/settings_router.py:184-243 | a finished update whose copy is right about the fields it leaves out, so any that names both fields, resolves without error to the chain it validated |
| `ModelSettings.UpdateOfATrueCopyTakesEffect` | app/common/settings_router.py:184-243 | a finished update of an error-free configuration, planned on the rows themselves, leaves an error-free one that resolves to the chain it validated |
| `ModelSettings.AFailedReadLetsAnErrorIn` | app/common/settings_router.py:209-214 | while a failed read's copy is in force, making the only stored backup the primary is accepted and leaves the list rejected |
| `ModelSettings.HalfAppliedIsErrorFreeIff` | app/common/settings_router.py:232-242 | between the two commits, whatever chain the update was planned on, the configuration is error-free exactly when no list is stored or it does not hold the primary then in effect |
| `ModelSettings.InterruptedSwapIsInError` | app/common/settings_router.py:232-242 | swapping the primary with its only backup, cut off after the first commit, leaves the stored list rejected |
| `SettingsProtocol.StepKeepsInv` | app/common/llm_config.py:231-261 | every interleaved step of writers and readers keeps each copy honest about its generation and time |
| `SettingsProtocol.AnswersReflectBumpedWrites` | app/common/llm_config.py:237-261 | in every interleaving, an answer from a read that worked reflects every write of this process bumped before the call and every commit at least one time to live older |
| `SettingsProtocol.AWriteBumpsForItsCommit` | app/common/app_settings.py:58-79 | a write of this process is a commit followed by a bump that stands for that commit; another process's is a commit alone |
| `SettingsProtocol.ABumpEmptiesTheCache` | app/common/app_settings.py:34-36 | a call begun after a bump never hits a copy made before it |
| `SettingsProtocol.AnUnbumpedWriteCanBeMissed` | app/common/app_settings.py:66-69 | between a commit and its bump a copy without the write can still be answered with |

## Left out

- Floating point: prices, scores, weights, times and discounts are reals, and the logarithm is an arbitrary positive falling discount.
- Text rules: seed keys of product names, CPU part numbers, whole-token names, panel words, base codes and the stripping and upper-casing of SKUs are parameters; the -W and -WP rule and the model specs are modelled as text.
- Providers, LangChain, the database and the clock: a model call is a script of chunks and a failure, a build is the commits it read, and times are arguments or a monotone clock.
- Routes, SQL listings, authentication, prompts, logging, dashboards, migrations, scrapers and the Apple configurator: plumbing and single-branch case analysis.
- Scoring cache: an inline caller's own uncommitted writes, and a thread that cannot be started. A built value is the prefix of the commit log its build read; what a build computes from it is not part of this model.
- `_build`: which values enter which range, the benchmark fallback range, and `generate_all_pick_scores`'s upsert of score rows.
- Non-streaming `_generate` and `_agenerate`: they share the classification and the deadline that are modelled.
- Agent turn: tool implementations; a tool run is its name, confidence and results. A turn is cut where the script of attempts ends.
- Run log: tool-call entries, previews and durations; an entry is referred to by its index where the source shares a dictionary.
- Jobs: a row deleted while its job runs, a process killed inside the final backstop, a cancel written between the read and the commit of one bookkeeping update, time estimates and stored parameters.
- PickScore: notes, flags and the rounding of the displayed breakdown; benchmark marks are given, resolved or not.
- Jobs.JobTable.CancelJob: is the request nothing comes between; the two halves are `Jobs.JobTable.CheckCancel` and `Jobs.JobTable.WriteCancel`.
- RateLimiter.Limiter.Record: requires a limit of at least 1; a limit of 0 would read the first hit of an empty deque.
- RateLimiter.NoWindowExceedsTheLimit: takes one `_record` call as one step; the source runs it in a threadpool without a lock, and calls that overlap between the length check and the append can each be accepted.
- TokenBudgets.Clock.Sleep: never ends early; asyncio's sleep may by its clock's resolution.
- Families.FamilyStore.RegroupUnassigned: keys and members are taken in any order, so which member gives a new family its brand, and its display name, are not fixed; report order is left out likewise.
- Families.FamilyStore.MoveLaptops: the emptied families are a set, not the list sorted by id.
- PriceMatch.Match: requires distinct catalog ids, which are primary keys.
- PriceApply.PriceBook.UseGuidePrice: takes the selection in any order, as the source iterates over a set, so the order of the added history rows is free; the status change of a laptop whose price becomes 0, guide deletion, the preview and an unknown guide id are left out.
- Ranking.GetRanking: laptop ids are compared as numbers where the source compares their text; any total order would do.
- ModelSettings.Settings.ApplyUpdate: sees no writes of other processes, whose older copies the lemmas about any planned chain cover; covers one use; settings are decoded rows, so JSON is its parsed value or not a list, and the provider's model list is a parameter.
- SettingsProtocol.AnswersReflectBumpedWrites: one process's cache; what other processes cache is not part of this model. A bump is taken as one step, while the source increments without a lock.
