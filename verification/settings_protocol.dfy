/**
 Concurrent readers and writers of the model settings: writers commit and then bump the
 generation, readers capture the generation, read the database and store a copy under it
 (app/common/app_settings.py and `resolve` of app/common/llm_config.py). A run is any
 interleaving of the steps below. That each of them is atomic is an assumption for the bump,
 which is an increment without a lock.
 */
module SettingsProtocol {
  import opened Common

  const TTL: real := 30.0

  /** What a read saw: the first `version` commits, or nothing because it failed. */
  datatype Read = Failed | Saw(version: nat)

  datatype Copy = Copy(generation: nat, time: real, read: Read)

  /** A call of resolve: it holds its captured generation and time, and later what it read. */
  datatype Resolver = Started(generation: nat, time: real) | HasRead(copy: Copy)

  /**
   `commits` are the times of all commits of the settings table, by any process; `bumps[k]` is
   the commit the k-th bump of this process stands for; `unbumped` are commits of this process
   whose bump is still to come.
   */
  datatype Sys = Sys(
    commits: seq<real>, bumps: seq<nat>, unbumped: seq<nat>, resolvers: map<nat, Resolver>, cache: Option<Copy>,
    now: real)

  datatype Step =
    | Tick(time: real)
    | Commit
    | ForeignCommit
    | Bump(i: nat)
    | BumpWithoutCommit
    | Begin(id: nat)
    | ReturnHit(id: nat)
    | ReadRows(id: nat, ok: bool)
    | Store(id: nat)

  predicate IsHit(s: Sys, id: nat) {
    && id in s.resolvers && s.resolvers[id].Started? && s.cache.Some?
    && s.cache.value.generation == s.resolvers[id].generation
    && s.resolvers[id].time - s.cache.value.time < TTL
  }

  predicate Enabled(s: Sys, step: Step) {
    match step
    case Tick(time) => s.now <= time
    case Commit => true
    case ForeignCommit => true
    case Bump(i) => i < |s.unbumped|
    case BumpWithoutCommit => true
    case Begin(id) => id !in s.resolvers
    case ReturnHit(id) => IsHit(s, id)
    case ReadRows(id, _) => id in s.resolvers && s.resolvers[id].Started?
    case Store(id) => id in s.resolvers && s.resolvers[id].HasRead?
  }

  function After(s: Sys, step: Step): Sys
    requires Enabled(s, step)
  {
    match step
    case Tick(time) => s.(now := time)
    case Commit => s.(commits := s.commits + [s.now], unbumped := s.unbumped + [|s.commits| + 1])
    case ForeignCommit => s.(commits := s.commits + [s.now])
    case Bump(i) => s.(bumps := s.bumps + [s.unbumped[i]], unbumped := s.unbumped[..i] + s.unbumped[i + 1..])
    case BumpWithoutCommit => s.(bumps := s.bumps + [0])
    case Begin(id) => s.(resolvers := s.resolvers[id := Started(|s.bumps|, s.now)])
    case ReturnHit(id) => s.(resolvers := s.resolvers - {id})
    case ReadRows(id, ok) =>
      var r := s.resolvers[id];
      s.(resolvers := s.resolvers[id := HasRead(Copy(r.generation, r.time, if ok then Saw(|s.commits|) else Failed))])
    case Store(id) => s.(cache := Some(s.resolvers[id].copy), resolvers := s.resolvers - {id})
  }

  // --- The invariant -------------------------------------------------------------------------------

  ghost predicate Clocked(commits: seq<real>, now: real) {
    forall i :: 0 <= i < |commits| ==> commits[i] <= now
  }

  ghost predicate Known(bumps: seq<nat>, n: nat) {
    forall k :: 0 <= k < |bumps| ==> bumps[k] <= n
  }

  /** The first g bumps stand for commits among the first v. */
  ghost predicate Covers(bumps: seq<nat>, g: nat, v: nat) {
    g <= |bumps| && forall k :: 0 <= k < g ==> bumps[k] <= v
  }

  /** Every commit before the time is among the first v. */
  ghost predicate SawBefore(commits: seq<real>, time: real, v: nat) {
    v <= |commits| && forall i :: v <= i < |commits| ==> commits[i] >= time
  }

  ghost predicate CopyOk(s: Sys, c: Copy) {
    && c.generation <= |s.bumps| && c.time <= s.now
    && (c.read.Saw? ==> Covers(s.bumps, c.generation, c.read.version) && SawBefore(s.commits, c.time, c.read.version))
  }

  ghost predicate ResolverOk(s: Sys, r: Resolver) {
    match r
    case Started(g, time) => g <= |s.bumps| && time <= s.now
    case HasRead(c) => CopyOk(s, c)
  }

  ghost predicate Inv(s: Sys) {
    && Clocked(s.commits, s.now) && Known(s.bumps, |s.commits|) && Known(s.unbumped, |s.commits|)
    && (forall id :: id in s.resolvers ==> ResolverOk(s, s.resolvers[id]))
    && (s.cache.Some? ==> CopyOk(s, s.cache.value))
  }

  /** A later state, as far as copies already made can tell. */
  ghost predicate Extends(s: Sys, s': Sys) {
    && s.bumps <= s'.bumps && s.commits <= s'.commits && s.now <= s'.now
    && forall i :: |s.commits| <= i < |s'.commits| ==> s'.commits[i] >= s.now
  }

  lemma CopyStaysOk(s: Sys, s': Sys, c: Copy)
    requires Extends(s, s') && CopyOk(s, c)
    ensures CopyOk(s', c)
  {
  }

  lemma StepExtends(s: Sys, step: Step)
    requires Enabled(s, step)
    ensures Extends(s, After(s, step))
  {
  }

  lemma ResolverStaysOk(s: Sys, s': Sys, r: Resolver)
    requires Extends(s, s') && ResolverOk(s, r)
    ensures ResolverOk(s', r)
  {
    if r.HasRead? {
      CopyStaysOk(s, s', r.copy);
    }
  }

  /** A read made now covers every bump so far and every commit so far. */
  lemma FreshReadIsOk(s: Sys, g: nat, time: real, ok: bool)
    requires Inv(s) && g <= |s.bumps| && time <= s.now
    ensures CopyOk(s, Copy(g, time, if ok then Saw(|s.commits|) else Failed))
  {
  }

  lemma StepKeepsCommits(s: Sys, step: Step)
    requires Inv(s) && Enabled(s, step)
    ensures var s' := After(s, step);
            Clocked(s'.commits, s'.now) && Known(s'.bumps, |s'.commits|) && Known(s'.unbumped, |s'.commits|)
  {
  }

  lemma StepKeepsInv(s: Sys, step: Step)
    requires Inv(s) && Enabled(s, step)
    ensures Inv(After(s, step))
  {
    var s' := After(s, step);
    StepExtends(s, step);
    StepKeepsCommits(s, step);
    forall id | id in s'.resolvers
      ensures ResolverOk(s', s'.resolvers[id])
    {
      if id in s.resolvers {
        ResolverStaysOk(s, s', s.resolvers[id]);
        if step.ReadRows? && step.id == id {
          FreshReadIsOk(s, s.resolvers[id].generation, s.resolvers[id].time, step.ok);
        }
      }
    }
    if s.cache.Some? {
      CopyStaysOk(s, s', s.cache.value);
    }
    if step.Store? {
      CopyStaysOk(s, s', s.resolvers[step.id].copy);
    }
  }

  predicate IsRun(s: Sys, steps: seq<Step>)
    decreases |steps|
  {
    steps == [] || (Enabled(s, steps[0]) && IsRun(After(s, steps[0]), steps[1..]))
  }

  function Run(s: Sys, steps: seq<Step>): Sys
    requires IsRun(s, steps)
    decreases |steps|
  {
    if steps == [] then s else Run(After(s, steps[0]), steps[1..])
  }

  lemma {:induction false} RunKeepsInv(s: Sys, steps: seq<Step>)
    requires Inv(s) && IsRun(s, steps)
    ensures Inv(Run(s, steps))
    decreases |steps|
  {
    if steps == [] {
    } else {
      StepKeepsInv(s, steps[0]);
      RunKeepsInv(After(s, steps[0]), steps[1..]);
    }
  }

  /** A process starts with no copy and whatever others have already committed. */
  predicate IsStart(s: Sys) {
    && s.bumps == [] && s.unbumped == [] && s.resolvers == map[] && s.cache == None
    && forall i :: 0 <= i < |s.commits| ==> s.commits[i] <= s.now
  }

  // --- What a caller gets ----------------------------------------------------------------------------

  /** What resolve answers from: the copy it hit, or its own read. */
  ghost predicate Answers(s: Sys, id: nat, c: Copy) {
    (IsHit(s, id) && c == s.cache.value) || (id in s.resolvers && s.resolvers[id] == HasRead(c))
  }

  /**
   In every interleaving, an answer from a read that worked reflects every write of this
   process whose bump came before the call, and every commit of any process that is at least
   one time-to-live older than the call.
   */
  lemma AnswersReflectBumpedWrites(start: Sys, steps: seq<Step>, id: nat, c: Copy, k: nat, i: nat)
    requires IsStart(start) && IsRun(start, steps) && Answers(Run(start, steps), id, c) && c.read.Saw?
    ensures var s := Run(start, steps);
            var called := if s.resolvers[id].Started? then s.resolvers[id].time else c.time;
            var generation := if s.resolvers[id].Started? then s.resolvers[id].generation else c.generation;
            && (k < generation ==> k < |s.bumps| && s.bumps[k] <= c.read.version)
            && (i < |s.commits| && s.commits[i] <= called - TTL ==> i < c.read.version)
  {
    RunKeepsInv(start, steps);
    var s := Run(start, steps);
    assert ResolverOk(s, s.resolvers[id]);
    assert CopyOk(s, c);
  }

  /** A write of this process is a commit and then a bump that stands for it; another process's is a commit alone. */
  lemma AWriteBumpsForItsCommit(s: Sys)
    ensures Enabled(s, Commit) && Enabled(After(s, Commit), Bump(|s.unbumped|))
    ensures var after := After(After(s, Commit), Bump(|s.unbumped|));
            after == s.(commits := s.commits + [s.now], bumps := s.bumps + [|after.commits|])
    ensures Enabled(s, ForeignCommit) && After(s, ForeignCommit) == s.(commits := s.commits + [s.now])
  {
    var k := |s.unbumped|;
    var between := After(s, Commit);
    assert between.unbumped[..k] + between.unbumped[k + 1..] == s.unbumped;
  }

  /** Once a write has been bumped, no copy made before it is answered with again. */
  lemma ABumpEmptiesTheCache(s: Sys, i: nat, step: Step, id: nat)
    requires Inv(s) && (step == Bump(i) || step == BumpWithoutCommit) && Enabled(s, step) && id !in s.resolvers
    ensures Enabled(After(s, step), Begin(id)) && !IsHit(After(After(s, step), Begin(id)), id)
  {
  }

  /** Between a commit and its bump, a copy without the write can still be answered with. */
  lemma AnUnbumpedWriteCanBeMissed()
    ensures var start := Sys([], [], [], map[], None, 0.0);
            var steps := [Begin(0), ReadRows(0, true), Store(0), Commit, Begin(1)];
            && IsStart(start) && IsRun(start, steps)
            && var s := Run(start, steps);
               IsHit(s, 1) && s.cache.value.read == Saw(0) && |s.commits| == 1
  {
    var s0 := Sys([], [], [], map[], None, 0.0);
    var s1 := After(s0, Begin(0));
    var s2 := After(s1, ReadRows(0, true));
    var s3 := After(s2, Store(0));
    var s4 := After(s3, Commit);
    var s5 := After(s4, Begin(1));
    var steps := [Begin(0), ReadRows(0, true), Store(0), Commit, Begin(1)];
    assert steps[1..] == [ReadRows(0, true), Store(0), Commit, Begin(1)];
    assert [ReadRows(0, true), Store(0), Commit, Begin(1)][1..] == [Store(0), Commit, Begin(1)];
    assert [Store(0), Commit, Begin(1)][1..] == [Commit, Begin(1)];
    assert [Commit, Begin(1)][1..] == [Begin(1)] && [Begin(1)][1..] == [];
    assert IsRun(s4, [Begin(1)]) && Run(s4, [Begin(1)]) == Run(s5, []) == s5;
    assert IsRun(s3, [Commit, Begin(1)]) && Run(s3, [Commit, Begin(1)]) == s5;
    assert IsRun(s2, [Store(0), Commit, Begin(1)]) && Run(s2, [Store(0), Commit, Begin(1)]) == s5;
    assert IsRun(s1, steps[1..]) && Run(s1, steps[1..]) == s5;
  }
}
