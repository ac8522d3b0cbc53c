/**
 The scoring cache under concurrency: request sessions that write the source tables
 (app/laptops/pickscore_adapter.py:198-214), inline builds (lines 53-77), background
 rebuilds (ranges_cache.py:79-96) and writers this process cannot see.

 The database is its commit log, and a copy is the prefix of the log its build read, so
 "what the copy knows" and "what the database holds" are both plain sequences. The ghost
 map `invalidated` remembers, per commit, the generation its `invalidate()` moved the
 counter to.
 */
module ScoringProtocol {
  import opened Common
  import opened ScoringCache

  /** `session.info[_WRITTEN]`, the uncommitted source write, and the pending after_commit. */
  datatype Session = Session(flagged: bool, writing: bool, committed: Option<nat>)

  datatype Build<W> = Build(atGeneration: int, read: Option<seq<W>>, ended: bool)

  datatype Sys<W> = Sys(
    cache: State<seq<W>>,
    log: seq<W>,
    sessions: map<nat, Session>,
    threads: seq<Build<W>>,
    inline: map<nat, Build<W>>,
    invalidated: map<nat, int>,
    unseen: set<nat>)

  datatype Step<W> =
    | Flush(sid: nat, source: bool)
    | Rollback(sid: nat)
    | Commit(sid: nat, w: W)
    | AfterCommit(sid: nat)
    | BareCommit(sid: nat)
    | OutsideCommit(w: W)
    | Get(now: real)
    | Warm
    | ThreadRead(t: nat)
    | ThreadStore(t: nat, now: real)
    | ThreadFail(t: nat)
    | ThreadExit(t: nat)
    | InlineBegin(b: nat)
    | InlineRead(b: nat)
    | InlineStore(b: nat, now: real)
    | InlineFail(b: nat)

  function Boot<W>(): Sys<W> {
    Sys(Fresh(), [], map[], [], map[], map[], {})
  }

  function SessionOf<W>(s: Sys<W>, sid: nat): Session {
    if sid in s.sessions then s.sessions[sid] else Session(false, false, None)
  }

  /** A session whose commit is done but whose after_commit listener has not run yet does nothing else. */
  predicate Enabled<W>(s: Sys<W>, step: Step<W>) {
    match step
    case Flush(sid, _) => SessionOf(s, sid).committed.None?
    case Rollback(sid) => SessionOf(s, sid).committed.None?
    case Commit(sid, _) => SessionOf(s, sid).committed.None? && SessionOf(s, sid).writing
    case AfterCommit(sid) => SessionOf(s, sid).committed.Some?
    case BareCommit(sid) => SessionOf(s, sid).committed.None? && !SessionOf(s, sid).writing
    case OutsideCommit(_) => true
    case Get(_) => true
    case Warm => true
    case ThreadRead(t) => t < |s.threads| && s.threads[t].read.None? && !s.threads[t].ended
    case ThreadStore(t, _) => t < |s.threads| && s.threads[t].read.Some? && !s.threads[t].ended
    case ThreadFail(t) => t < |s.threads| && !s.threads[t].ended
    case ThreadExit(t) => t < |s.threads| && s.threads[t].ended
    case InlineBegin(b) => b !in s.inline
    case InlineRead(b) => b in s.inline && s.inline[b].read.None?
    case InlineStore(b, _) => b in s.inline && s.inline[b].read.Some?
    case InlineFail(b) => b in s.inline
  }

  function Spawn<W>(s: Sys<W>, cache: State<seq<W>>, started: bool): Sys<W> {
    s.(cache := cache,
       threads := if started then s.threads + [Build(s.cache.generation, None, false)] else s.threads)
  }

  function Apply<W>(s: Sys<W>, step: Step<W>): Sys<W>
    requires Enabled(s, step)
  {
    match step
    case Flush(sid, source) =>
      var x := SessionOf(s, sid);
      s.(sessions := s.sessions[sid := x.(flagged := x.flagged || source, writing := x.writing || source)])
    case Rollback(sid) =>
      // session.info outlives the rollback, so the flag stays up.
      s.(sessions := s.sessions[sid := SessionOf(s, sid).(writing := false)])
    case Commit(sid, w) =>
      s.(log := s.log + [w],
         sessions := s.sessions[sid := SessionOf(s, sid).(writing := false, committed := Some(|s.log|))])
    case AfterCommit(sid) =>
      var x := SessionOf(s, sid);
      var cache := if x.flagged then Invalidated(s.cache) else s.cache;
      s.(cache := cache,
         invalidated := if x.flagged then s.invalidated[x.committed.value := cache.generation] else s.invalidated,
         sessions := s.sessions[sid := Session(false, x.writing, None)])
    case BareCommit(sid) =>
      // Nothing to commit to the source tables, but a flag left by a rolled-back write still invalidates.
      s.(cache := if SessionOf(s, sid).flagged then Invalidated(s.cache) else s.cache,
         sessions := s.sessions[sid := Session(false, false, None)])
    case OutsideCommit(w) =>
      s.(log := s.log + [w], unseen := s.unseen + {|s.log|})
    case Get(now) =>
      Spawn(s, Requested(s.cache, now), Starts(s.cache, now))
    case Warm =>
      Spawn(s, s.cache.(refreshing := true), !s.cache.refreshing)
    case ThreadRead(t) =>
      s.(threads := s.threads[t := s.threads[t].(read := Some(s.log))])
    case ThreadStore(t, now) =>
      var b := s.threads[t];
      s.(cache := Stored(s.cache, b.read.value, b.atGeneration, now), threads := s.threads[t := b.(ended := true)])
    case ThreadFail(t) =>
      s.(threads := s.threads[t := s.threads[t].(ended := true)])
    case ThreadExit(t) =>
      s.(cache := Finished(s.cache), threads := s.threads[..t] + s.threads[t + 1..])
    case InlineBegin(b) =>
      s.(inline := s.inline[b := Build(s.cache.generation, None, false)])
    case InlineRead(b) =>
      s.(inline := s.inline[b := s.inline[b].(read := Some(s.log))])
    case InlineStore(b, now) =>
      var x := s.inline[b];
      s.(cache := Stored(s.cache, x.read.value, x.atGeneration, now), inline := s.inline - {b})
    case InlineFail(b) =>
      s.(inline := s.inline - {b})
  }

  predicate Legal<W>(s: Sys<W>, steps: seq<Step<W>>)
    decreases |steps|
  {
    steps == [] || (Enabled(s, steps[0]) && Legal(Apply(s, steps[0]), steps[1..]))
  }

  function Run<W>(s: Sys<W>, steps: seq<Step<W>>): Sys<W>
    requires Legal(s, steps)
    decreases |steps|
  {
    if steps == [] then s else Run(Apply(s, steps[0]), steps[1..])
  }

  ghost predicate Reachable<W(!new)>(s: Sys<W>) {
    exists steps: seq<Step<W>> :: Legal(Boot(), steps) && Run(Boot(), steps) == s
  }

  // --- What a copy knows -------------------------------------------------------------

  /** `read` is a database state that already held every commit invalidated at generation g or earlier. */
  ghost predicate KnowsUpTo<W>(s: Sys<W>, read: seq<W>, g: int) {
    && read <= s.log
    && forall i :: i in s.invalidated && s.invalidated[i] <= g ==> i < |read|
  }

  ghost predicate BuildOk<W>(s: Sys<W>, b: Build<W>) {
    && 0 <= b.atGeneration <= s.cache.generation
    && (b.read.Some? ==> KnowsUpTo(s, b.read.value, b.atGeneration))
  }

  /** Commit i is waiting for its session's after_commit listener. */
  ghost predicate Awaiting<W>(s: Sys<W>, i: nat) {
    exists sid :: sid in s.sessions && s.sessions[sid].committed == Some(i)
  }

  ghost predicate Inv<W>(s: Sys<W>) {
    && -1 <= s.cache.builtGeneration <= s.cache.generation
    && 0 <= s.cache.generation
    && (s.cache.data.None? <==> s.cache.builtGeneration == -1)
    && (s.cache.data.Some? ==> KnowsUpTo(s, s.cache.data.value, s.cache.builtGeneration))
    && (if s.cache.refreshing then |s.threads| == 1 else s.threads == [])
    && (forall t :: 0 <= t < |s.threads| ==> BuildOk(s, s.threads[t]))
    && (forall b :: b in s.inline ==> BuildOk(s, s.inline[b]))
    && (forall i :: i in s.invalidated ==> i < |s.log| && 0 < s.invalidated[i] <= s.cache.generation)
    && (forall sid :: sid in s.sessions ==> SessionOk(s, s.sessions[sid]))
    && Covered(s)
  }

  /** Every commit is invalidated, on its way to being so, or one this process cannot see. */
  ghost predicate Covered<W>(s: Sys<W>) {
    forall i: nat :: i < |s.log| ==> i in s.invalidated || i in s.unseen || Awaiting(s, i)
  }

  ghost predicate SessionOk<W>(s: Sys<W>, x: Session) {
    && (x.writing ==> x.flagged)
    && (x.committed.Some? ==> x.flagged && !x.writing && x.committed.value < |s.log|)
  }

  lemma CopiesSurvive<W>(s: Sys<W>, s': Sys<W>)
    requires Inv(s)
    requires s.log <= s'.log && s.cache.generation <= s'.cache.generation
    requires forall i :: i in s'.invalidated ==>
               (i in s.invalidated && s'.invalidated[i] == s.invalidated[i]) || s'.invalidated[i] > s.cache.generation
    ensures forall read, g :: g <= s.cache.generation && KnowsUpTo(s, read, g) ==> KnowsUpTo(s', read, g)
    ensures forall b :: BuildOk(s, b) ==> BuildOk(s', b)
  {
  }

  lemma StepKeepsInv<W>(s: Sys<W>, step: Step<W>)
    requires Inv(s) && Enabled(s, step)
    ensures Inv(Apply(s, step))
  {
    if BySession(step) {
      SessionStepKeepsCoverage(s, step);
      SessionStepKeepsInv(s, step);
    } else {
      BuildStepKeepsCoverage(s, step);
      if ByInlineBuild(step) {
        InlineStepKeepsInv(s, step);
      } else {
        ThreadStepKeepsInv(s, step);
      }
    }
  }

  ghost predicate ByInlineBuild<W>(step: Step<W>) {
    step.InlineBegin? || step.InlineRead? || step.InlineStore? || step.InlineFail?
  }

  ghost predicate BySession<W>(step: Step<W>) {
    step.Flush? || step.Rollback? || step.Commit? || step.AfterCommit? || step.BareCommit?
  }

  lemma SessionStepKeepsInv<W>(s: Sys<W>, step: Step<W>)
    requires Inv(s) && Enabled(s, step) && BySession(step) && Covered(Apply(s, step))
    ensures Inv(Apply(s, step))
  {
    CopiesSurvive(s, Apply(s, step));
  }

  lemma InlineStepKeepsInv<W>(s: Sys<W>, step: Step<W>)
    requires Inv(s) && Enabled(s, step) && ByInlineBuild(step) && Covered(Apply(s, step))
    ensures Inv(Apply(s, step))
  {
    CopiesSurvive(s, Apply(s, step));
  }

  lemma ThreadStepKeepsInv<W>(s: Sys<W>, step: Step<W>)
    requires Inv(s) && Enabled(s, step) && !BySession(step) && !ByInlineBuild(step) && Covered(Apply(s, step))
    ensures Inv(Apply(s, step))
  {
    CopiesSurvive(s, Apply(s, step));
  }

  lemma BuildStepKeepsCoverage<W>(s: Sys<W>, step: Step<W>)
    requires Inv(s) && Enabled(s, step) && !BySession(step)
    ensures Covered(Apply(s, step))
  {
    assert forall i: nat :: Awaiting(s, i) ==> Awaiting(Apply(s, step), i);
  }

  lemma SessionStepKeepsCoverage<W>(s: Sys<W>, step: Step<W>)
    requires Inv(s) && Enabled(s, step) && BySession(step)
    ensures Covered(Apply(s, step))
  {
    var s' := Apply(s, step);
    forall i: nat | i < |s'.log|
      ensures i in s'.invalidated || i in s.unseen || Awaiting(s', i)
    {
      if i == |s.log| {
        assert s'.sessions[step.sid].committed == Some(i);
      } else if Awaiting(s, i) {
        var sid :| sid in s.sessions && s.sessions[sid].committed == Some(i);
        assert sid in s'.sessions;
        assert sid != step.sid ==> s'.sessions[sid].committed == Some(i);
      }
    }
  }

  lemma {:induction false} RunKeepsInv<W>(s: Sys<W>, steps: seq<Step<W>>)
    requires Inv(s) && Legal(s, steps)
    ensures Inv(Run(s, steps))
    decreases |steps|
  {
    if steps == [] {
    } else {
      StepKeepsInv(s, steps[0]);
      RunKeepsInv(Apply(s, steps[0]), steps[1..]);
    }
  }

  lemma ReachableInv<W(!new)>(s: Sys<W>)
    requires Reachable(s)
    ensures Inv(s)
  {
    var steps: seq<Step<W>> :| Legal(Boot(), steps) && Run(Boot(), steps) == s;
    RunKeepsInv(Boot(), steps);
  }

  // --- What a session's write does -----------------------------------------------------

  /** A source write that is flushed and committed is in the database, and its after_commit outdates every copy. */
  lemma ACommittedWriteInvalidates<W>(s: Sys<W>, sid: nat, w: W)
    requires SessionOf(s, sid).committed.None?
    ensures Legal(s, [Flush(sid, true), Commit(sid, w), AfterCommit(sid)])
    ensures var after := Run(s, [Flush(sid, true), Commit(sid, w), AfterCommit(sid)]);
            && after.log == s.log + [w]
            && after.cache == s.cache.(generation := s.cache.generation + 1)
            && after.invalidated == s.invalidated[|s.log| := s.cache.generation + 1]
  {
    var s1 := Apply(s, Flush(sid, true));
    var s2 := Apply(s1, Commit(sid, w));
    LegalOfThree(s, Flush(sid, true), Commit(sid, w), AfterCommit(sid));
    assert SessionOf(s2, sid) == Session(true, false, Some(|s.log|));
  }

  /** A source write that is rolled back outdates every copy all the same, once its session commits something else. */
  lemma ARolledBackWriteInvalidates<W>(s: Sys<W>, sid: nat)
    requires SessionOf(s, sid).committed.None?
    ensures Legal(s, [Flush(sid, true), Rollback(sid), BareCommit(sid)])
    ensures var after := Run(s, [Flush(sid, true), Rollback(sid), BareCommit(sid)]);
            after.log == s.log && after.cache == s.cache.(generation := s.cache.generation + 1)
  {
    LegalOfThree(s, Flush(sid, true), Rollback(sid), BareCommit(sid));
  }

  /** A session that touches no source table outdates nothing. */
  lemma AnUnrelatedCommitInvalidatesNothing<W>(s: Sys<W>, sid: nat)
    requires SessionOf(s, sid) == Session(false, false, None)
    ensures Legal(s, [Flush(sid, false), Rollback(sid), BareCommit(sid)])
    ensures var after := Run(s, [Flush(sid, false), Rollback(sid), BareCommit(sid)]);
            after.log == s.log && after.cache == s.cache
  {
    LegalOfThree(s, Flush(sid, false), Rollback(sid), BareCommit(sid));
  }

  lemma LegalOfThree<W>(s: Sys<W>, a: Step<W>, b: Step<W>, c: Step<W>)
    requires Enabled(s, a) && Enabled(Apply(s, a), b) && Enabled(Apply(Apply(s, a), b), c)
    ensures Legal(s, [a, b, c]) && Run(s, [a, b, c]) == Apply(Apply(Apply(s, a), b), c)
  {
    assert [a, b, c][1..] == [b, c] && [b, c][1..] == [c] && [c][1..] == [];
    var s1, s2 := Apply(s, a), Apply(Apply(s, a), b);
    assert Legal(Apply(s2, c), []) && Run(Apply(s2, c), []) == Apply(s2, c);
    assert Legal(s2, [c]) && Run(s2, [c]) == Apply(s2, c);
    assert Legal(s1, [b, c]) && Run(s1, [b, c]) == Apply(s2, c);
  }

  // --- Safety over every interleaving -------------------------------------------------

  /** A copy filed under generation g was read after every commit whose invalidate moved the counter to g or below. */
  lemma FiledCopyKnowsItsGeneration<W(!new)>(s: Sys<W>)
    requires Reachable(s) && s.cache.data.Some?
    ensures s.cache.data.value <= s.log
    ensures forall i :: i in s.invalidated && s.invalidated[i] <= s.cache.builtGeneration ==> i < |s.cache.data.value|
  {
    ReachableInv(s);
  }

  /**
   A copy `get` serves as fresh is the database minus, at worst, commits still on their
   way to their own after_commit listener and commits made outside this process.
   */
  lemma FreshCopyMissesOnlyUninvalidated<W(!new)>(s: Sys<W>, now: real)
    requires Reachable(s) && s.cache.data.Some? && !Stale(s.cache, now)
    ensures s.cache.data.value <= s.log
    ensures forall i: nat :: |s.cache.data.value| <= i < |s.log| ==>
              i !in s.invalidated && (Awaiting(s, i) || i in s.unseen)
  {
    ReachableInv(s);
  }

  /** A rebuild thread is alive exactly when `_refreshing` is up, and there are never two. */
  lemma OneRebuildAtATime<W(!new)>(s: Sys<W>)
    requires Reachable(s)
    ensures |s.threads| <= 1
    ensures s.cache.refreshing <==> |s.threads| == 1
  {
    ReachableInv(s);
  }

  lemma GenerationsOnlyGrow<W(!new)>(s: Sys<W>, step: Step<W>)
    requires Reachable(s) && Enabled(s, step)
    ensures s.cache.builtGeneration <= Apply(s, step).cache.builtGeneration <= Apply(s, step).cache.generation
    ensures s.cache.generation <= Apply(s, step).cache.generation
    ensures s.cache.data.Some? ==> Apply(s, step).cache.data.Some?
  {
    ReachableInv(s);
    StepKeepsInv(s, step);
  }

  // --- Convergence --------------------------------------------------------------------

  /** No commit of this process is on its way to its listener. */
  ghost predicate WritesSettled<W>(s: Sys<W>) {
    forall sid :: sid in s.sessions ==> s.sessions[sid].committed.None?
  }

  /** The copy misses no commit made outside this process. */
  ghost predicate MissesNoneUnseen<W>(s: Sys<W>, read: seq<W>) {
    forall i :: i in s.unseen && i < |s.log| ==> i < |read|
  }

  /** The next step of the one running rebuild, when its build succeeds. */
  function RebuildStep<W>(s: Sys<W>, now: real): Step<W>
    requires s.threads != []
  {
    if s.threads[0].ended then ThreadExit(0)
    else if s.threads[0].read.Some? then ThreadStore(0, now)
    else ThreadRead(0)
  }

  function StepsLeft<W>(s: Sys<W>): nat {
    if s.threads == [] then 0
    else if s.threads[0].ended then 1
    else if s.threads[0].read.Some? then 2
    else 3
  }

  /** The running rebuild, if any, carried to its exit. */
  function FinishRebuild<W>(s: Sys<W>, now: real): Sys<W>
    requires |s.threads| <= 1
    decreases StepsLeft(s)
  {
    if s.threads == [] then s else FinishRebuild(Apply(s, RebuildStep(s, now)), now)
  }

  lemma {:induction false} FinishRebuildRuns<W>(s: Sys<W>, now: real)
    requires Inv(s)
    ensures var e := FinishRebuild(s, now);
            && Inv(e) && e.threads == [] && e.log == s.log && e.sessions == s.sessions && e.unseen == s.unseen
            && e.inline == s.inline
            && e.cache.generation == s.cache.generation
            && (s.cache.data.Some? ==> e.cache.data.Some?)
    decreases StepsLeft(s)
  {
    if s.threads == [] {
    } else {
      var next := Apply(s, RebuildStep(s, now));
      StepKeepsInv(s, RebuildStep(s, now));
      assert next.log == s.log && next.sessions == s.sessions && next.unseen == s.unseen && next.inline == s.inline;
      FinishRebuildRuns(next, now);
    }
  }

  lemma NewRebuildStoresTheDatabase<W>(s: Sys<W>, now: real)
    requires Inv(s) && s.threads == [Build(s.cache.generation, None, false)]
    ensures FinishRebuild(s, now).cache == State(Some(s.log), now, s.cache.generation, s.cache.generation, false)
  {
    var read := Apply(s, ThreadRead(0));
    assert RebuildStep(s, now) == ThreadRead(0);
    assert read.threads == [Build(s.cache.generation, Some(s.log), false)];
    var stored := Apply(read, ThreadStore(0, now));
    assert RebuildStep(read, now) == ThreadStore(0, now);
    assert stored.threads == [Build(s.cache.generation, Some(s.log), true)];
    var done := Apply(stored, ThreadExit(0));
    assert RebuildStep(stored, now) == ThreadExit(0) && done.threads == [];
    assert FinishRebuild(stored, now) == FinishRebuild(done, now) == done;
    assert FinishRebuild(s, now) == FinishRebuild(read, now) == FinishRebuild(stored, now);
  }

  /** Let any running rebuild finish, make one `get`, and let the rebuild that starts finish. */
  function OneMoreGet<W>(s: Sys<W>, now0: real, now1: real, now2: real): Sys<W>
    requires Inv(s)
  {
    FinishRebuildRuns(s, now0);
    FinishRebuild(Apply(FinishRebuild(s, now0), Get(now1)), now2)
  }

  /**
   Once this process's writes have settled, one more `get` and its rebuild leave the cache idle,
   current, and equal to the database, except exactly when the copy the `get` finds is fresh and
   misses a commit made outside this process.
   */
  lemma OneMoreGetConverges<W(!new)>(s: Sys<W>, now0: real, now1: real, now2: real)
    requires Reachable(s) && s.cache.data.Some? && WritesSettled(s)
    ensures Inv(s) && Inv(OneMoreGet(s, now0, now1, now2))
    ensures FinishRebuild(s, now0).cache.data.Some?
    ensures var found, e := FinishRebuild(s, now0).cache, OneMoreGet(s, now0, now1, now2);
            && e.log == s.log && e.sessions == s.sessions && e.unseen == s.unseen && e.inline == s.inline
            && e.cache.builtGeneration == e.cache.generation == s.cache.generation
            && !e.cache.refreshing && e.threads == []
            && (e.cache.data == Some(e.log) <==> Stale(found, now1) || MissesNoneUnseen(s, found.data.value))
  {
    ReachableInv(s);
    FinishRebuildRuns(s, now0);
    var idle := FinishRebuild(s, now0);
    StepKeepsInv(idle, Get(now1));
    var asked := Apply(idle, Get(now1));
    FinishRebuildRuns(asked, now2);
    if Stale(idle.cache, now1) {
      NewRebuildStoresTheDatabase(asked, now2);
    } else {
      FreshIsEverythingIff(idle);
    }
  }

  lemma FreshIsEverythingIff<W>(s: Sys<W>)
    requires Inv(s) && WritesSettled(s) && s.cache.data.Some? && s.cache.builtGeneration == s.cache.generation
    ensures s.cache.data == Some(s.log) <==> MissesNoneUnseen(s, s.cache.data.value)
  {
    CurrentReadIsEverythingIff(s, s.cache.data.value, s.cache.generation);
  }

  /** A read that knows every invalidated commit is the whole log unless it misses one from outside. */
  lemma CurrentReadIsEverythingIff<W>(s: Sys<W>, read: seq<W>, g: int)
    requires Inv(s) && WritesSettled(s) && KnowsUpTo(s, read, g) && g >= s.cache.generation
    ensures read == s.log <==> MissesNoneUnseen(s, read)
  {
    if MissesNoneUnseen(s, read) && s.log != [] {
      var last: nat := |s.log| - 1;
      assert !Awaiting(s, last);
      assert last in s.invalidated || last in s.unseen;
    }
    assert read == s.log[..|read|];
    assert s.log[..|s.log|] == s.log;
  }

  // --- Staying converged ----------------------------------------------------------------

  /** The build will file nothing but the database over the copy there is. */
  ghost predicate FilesTheDatabase<W>(s: Sys<W>, b: Build<W>) {
    b.read.Some? && b.atGeneration >= s.cache.builtGeneration ==> b.read.value == s.log
  }

  /** The copy is the database, and so is every read that could still be filed over it. */
  ghost predicate Converged<W>(s: Sys<W>) {
    && s.cache.data == Some(s.log)
    && (forall t :: 0 <= t < |s.threads| ==> FilesTheDatabase(s, s.threads[t]))
    && (forall b :: b in s.inline ==> FilesTheDatabase(s, s.inline[b]))
  }

  predicate Commits<W>(step: Step<W>) {
    step.Commit? || step.OutsideCommit?
  }

  /** Whatever gets, rebuilds and inline builds come, nothing but a commit takes the copy away from the database. */
  lemma StepStaysConverged<W>(s: Sys<W>, step: Step<W>)
    requires Converged(s) && Enabled(s, step) && !Commits(step)
    ensures Converged(Apply(s, step)) && Apply(s, step).log == s.log
  {
    if ByInlineBuild(step) {
      InlineStepStaysConverged(s, step);
    } else if !BySession(step) {
      ThreadStepStaysConverged(s, step);
    }
  }

  lemma InlineStepStaysConverged<W>(s: Sys<W>, step: Step<W>)
    requires Converged(s) && Enabled(s, step) && ByInlineBuild(step)
    ensures Converged(Apply(s, step)) && Apply(s, step).log == s.log
  {
  }

  lemma ThreadStepStaysConverged<W>(s: Sys<W>, step: Step<W>)
    requires Converged(s) && Enabled(s, step) && !BySession(step) && !ByInlineBuild(step) && !Commits(step)
    ensures Converged(Apply(s, step)) && Apply(s, step).log == s.log
  {
  }

  lemma {:induction false} RunStaysConverged<W>(s: Sys<W>, steps: seq<Step<W>>)
    requires Converged(s) && Legal(s, steps) && forall i :: 0 <= i < |steps| ==> !Commits(steps[i])
    ensures Converged(Run(s, steps)) && Run(s, steps).cache.data == Some(s.log)
    decreases |steps|
  {
    if steps == [] {
    } else {
      StepStaysConverged(s, steps[0]);
      RunStaysConverged(Apply(s, steps[0]), steps[1..]);
    }
  }

  /** Every inline build that holds the current generation and has read misses no commit made outside this process. */
  ghost predicate InlineMissesNoneUnseen<W>(s: Sys<W>) {
    forall b :: b in s.inline && s.inline[b].read.Some? && s.inline[b].atGeneration == s.cache.generation ==>
      MissesNoneUnseen(s, s.inline[b].read.value)
  }

  lemma IdleIsConverged<W>(s: Sys<W>)
    requires Inv(s) && WritesSettled(s) && InlineMissesNoneUnseen(s) && s.threads == []
    requires s.cache.data == Some(s.log) && s.cache.builtGeneration == s.cache.generation
    ensures Converged(s)
  {
    forall b | b in s.inline
      ensures FilesTheDatabase(s, s.inline[b])
    {
      var x := s.inline[b];
      assert BuildOk(s, x);
      if x.read.Some? && x.atGeneration >= s.cache.builtGeneration {
        CurrentReadIsEverythingIff(s, x.read.value, x.atGeneration);
      }
    }
  }

  /**
   What that `get` leaves stays the database until the next commit, when no inline build that
   holds the current generation has read a state without some commit made outside this process.
   */
  lemma ConvergenceLasts<W(!new)>(s: Sys<W>, now0: real, now1: real, now2: real, later: seq<Step<W>>)
    requires Reachable(s) && s.cache.data.Some? && WritesSettled(s) && InlineMissesNoneUnseen(s)
    ensures Inv(s)
    ensures var e := OneMoreGet(s, now0, now1, now2);
            e.cache.data == Some(e.log) && Legal(e, later) && (forall i :: 0 <= i < |later| ==> !Commits(later[i])) ==>
              Run(e, later).cache.data == Some(s.log)
  {
    OneMoreGetConverges(s, now0, now1, now2);
    var e := OneMoreGet(s, now0, now1, now2);
    if e.cache.data == Some(e.log) {
      IdleIsConverged(e);
      if Legal(e, later) && forall i :: 0 <= i < |later| ==> !Commits(later[i]) {
        RunStaysConverged(e, later);
      }
    }
  }

  /** A write this process never saw is picked up too, by the first `get` after the copy's time is up. */
  lemma ExpiredCopyIsReplaced<W(!new)>(s: Sys<W>, now1: real, now2: real)
    requires Reachable(s) && s.cache.data.Some? && s.threads == []
    requires now1 - s.cache.builtAt > CACHE_TTL
    ensures Inv(s)
    ensures var e := OneMoreGet(s, now1, now1, now2);
            e.cache.data == Some(s.log) && e.cache.builtAt == now2 && !e.cache.refreshing
  {
    ReachableInv(s);
    StepKeepsInv(s, Get(now1));
    NewRebuildStoresTheDatabase(Apply(s, Get(now1)), now2);
  }

  /** The cold path: an inline build that no write overtakes fills an empty cache with the database. */
  lemma UndisturbedInlineBuildFillsTheCache<W(!new)>(s: Sys<W>, b: nat, now: real)
    requires Reachable(s) && b !in s.inline
    ensures var s1 := Apply(s, InlineBegin(b));
            var s2 := Apply(s1, InlineRead(b));
            Apply(s2, InlineStore(b, now)).cache ==
            s.cache.(data := Some(s.log), builtAt := now, builtGeneration := s.cache.generation)
  {
    ReachableInv(s);
  }

  /**
   A write whose commit and invalidation both land while a rebuild is between its read
   and its store is never filed as current: the stored copy is stale, so the next `get`
   starts another rebuild, unless a newer copy is already there, which is kept.
   */
  lemma OvertakenRebuildStaysStale<W(!new)>(s: Sys<W>, now: real, later: real)
    requires Reachable(s) && Enabled(s, ThreadStore(0, now))
    requires s.threads[0].atGeneration < s.cache.generation
    ensures var e := Apply(s, ThreadStore(0, now));
            if s.threads[0].atGeneration >= s.cache.builtGeneration
            then e.cache.data == s.threads[0].read && Stale(e.cache, later)
                 && Starts(Apply(e, ThreadExit(0)).cache, later)
            else e.cache == s.cache && e.cache.data.Some?
  {
    ReachableInv(s);
    StepKeepsInv(s, ThreadStore(0, now));
  }
}
