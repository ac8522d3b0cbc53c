/**
 The background-job lifecycle: app/common/job_service.py, `cancel_job` in job_router.py
 and the progress figure of job_model.py.

 Every read-mutate-commit of the runner is one transaction on the row. A cancel request is
 two: the endpoint checks the status and only later writes its own. `RunOf` is a whole
 `run_job` call as a function of a script: what the worker does, which database writes
 raise, and in which gaps between transactions requests check and write. The theorems range
 over every script, hence over every interleaving.
 */
module Jobs {
  import opened Common
  import Rounding

  datatype Status = Queued | Processing | Cancelling | Completed | Failed | Cancelled

  predicate Terminal(s: Status) {
    s.Completed? || s.Failed? || s.Cancelled?
  }

  datatype ItemError = ItemError(item: string, error: string)

  /** The worker's result payload, which is only ever passed through. */
  type Payload = nat

  datatype Job = Job(
    status: Status, total: int, processed: int, succeeded: int, failed: int, errors: seq<ItemError>,
    errorMessage: Option<string>, result: Option<Payload>, started: bool, finished: bool)

  const MAX_STORED_ERRORS := 50

  const NO_STATUS: string := "Job ended without reporting a terminal status."
  const INTERRUPTED: string :=
    "Interrupted — the server restarted while this job was running. Re-run it; completed items are not repeated."

  function NewJob(total: int): Job {
    Job(Queued, total, 0, 0, 0, [], None, None, false, false)
  }

  // --- The transactions ------------------------------------------------------------------

  function MarkedProcessing(j: Job): Job {
    j.(status := if j.status.Cancelling? then Cancelling else Processing, started := true)
  }

  function MarkedCompleted(j: Job, result: Option<Payload>): Job {
    j.(status := Completed, finished := true, result := if result.Some? then result else j.result)
  }

  function MarkedCancelled(j: Job, result: Option<Payload>): Job {
    j.(status := Cancelled, finished := true, result := if result.Some? then result else j.result)
  }

  function MarkedFailed(j: Job, message: string): Job {
    j.(status := Failed, finished := true,
       errorMessage := Some(if |message| > 2000 then message[..2000] else message))
  }

  function Advanced(j: Job, succeeded: bool, item: Option<string>, error: string, count: int): Job {
    var k := j.(processed := j.processed + count);
    if succeeded then k.(succeeded := j.succeeded + count)
    else k.(failed := j.failed + count,
            errors := if error != "" && |j.errors| < MAX_STORED_ERRORS
                      then j.errors + [ItemError(item.GetOr("unknown"), error)] else j.errors)
  }

  function TotalSet(j: Job, total: int): Job {
    j.(total := total)
  }

  function Backstopped(j: Job): Job {
    if Terminal(j.status) then j
    else j.(status := Failed, finished := true,
            errorMessage := Some(if j.errorMessage.GetOr("") != "" then j.errorMessage.value else NO_STATUS))
  }

  function Reset(j: Job): Job {
    if Terminal(j.status) then j
    else j.(status := Failed, finished := true, errorMessage := Some(INTERRUPTED))
  }

  // --- Cancel requests -------------------------------------------------------------------

  /** `pending` counts the requests that have passed the endpoint's check and not written yet. */
  datatype Row = Row(job: Job, pending: nat)

  datatype Poke = CancelChecks | CancelWrites

  /** A live row that is not being cancelled already is the one case in which the endpoint goes on to write. */
  predicate Cancellable(s: Status) {
    !Terminal(s) && !s.Cancelling?
  }

  /** The write sets the status whatever the row holds by then. */
  function Poked(r: Row, p: Poke): Row {
    match p
    case CancelChecks => if Cancellable(r.job.status) then r.(pending := r.pending + 1) else r
    case CancelWrites => if r.pending > 0 then Row(r.job.(status := Cancelling), r.pending - 1) else r
  }

  /** Of all the jobs a request can find, only one that is queued or processing lets it go on to write. */
  lemma ACheckPassesIffTheJobRuns(r: Row)
    ensures Poked(r, CancelChecks) ==
            Row(r.job, r.pending + if r.job.status == Queued || r.job.status == Processing then 1 else 0)
  {
  }

  /** The first n requests of a gap between two transactions. */
  function PokedAll(r: Row, gap: seq<Poke>, n: nat): Row
    requires n <= |gap|
  {
    if n == 0 then r else Poked(PokedAll(r, gap, n - 1), gap[n - 1])
  }

  function Gap(r: Row, gap: seq<Poke>): Row {
    PokedAll(r, gap, |gap|)
  }

  // --- One run ---------------------------------------------------------------------------

  datatype WorkerStep =
    | Advance(succeeded: bool, item: Option<string>, error: string, count: int)
    | SetTotal(total: int)
    | Cancel(poke: Poke)

  /** The worker returns, raises an Exception, or is torn down by something that is not one. */
  datatype WorkerEnd = Returns(payload: Option<Payload>) | Raises(message: string) | TornDown

  /** What happens around and inside one `run_job`; `raises` flags are failing writes, the lists are gaps. */
  datatype Script = Script(
    whileQueued: seq<Poke>, markRaises: bool, afterMark: seq<Poke>,
    earlyCancelRaises: bool, earlyLookupRaises: bool,
    work: seq<WorkerStep>, end: WorkerEnd,
    afterWork: seq<Poke>, outcomeRaises: bool, afterOutcome: seq<Poke>, lookupRaises: bool,
    failureRaises: bool, beforeBackstop: seq<Poke>, backstopRaises: bool)

  /** `seen` is JobProgress._status: the row's status as the last bookkeeping write found it. */
  datatype Progress = Progress(row: Row, seen: Option<Status>)

  datatype RunEnd = RunEnd(row: Row, raised: bool)

  /** A bookkeeping write of the runner: it leaves the endpoint's requests where they are. */
  function Written(r: Row, j: Job): Row {
    r.(job := j)
  }

  function Worked(p: Progress, step: WorkerStep): Progress {
    var j := p.row.job;
    match step
    case Advance(ok, item, error, count) =>
      Progress(Written(p.row, Advanced(j, ok, item, error, count)), Some(j.status))
    case SetTotal(n) => Progress(Written(p.row, TotalSet(j, n)), Some(j.status))
    case Cancel(poke) => p.(row := Poked(p.row, poke))
  }

  /** After the first n steps of the worker. */
  function WorkedAll(p: Progress, work: seq<WorkerStep>, n: nat): Progress
    requires n <= |work|
  {
    if n == 0 then p else Worked(WorkedAll(p, work, n - 1), work[n - 1])
  }

  const WRITE_ERROR: string := "OperationalError"

  /** What the body of the `try` leaves: the row, and the message of the exception it ended in, if any. */
  datatype Tried = Tried(row: Row, failure: Option<string>)

  function OutcomeOf(p: Progress, payload: Option<Payload>): Job {
    if p.seen == Some(Cancelling) then MarkedCancelled(p.row.job, payload) else MarkedCompleted(p.row.job, payload)
  }

  function TryOf(p: Progress, s: Script): Tried {
    var w := WorkedAll(p, s.work, |s.work|);
    match s.end
    case TornDown => Tried(w.row, None)
    case Raises(message) => Tried(w.row, Some(message))
    case Returns(payload) =>
      var worked := w.(row := Gap(w.row, s.afterWork));
      if s.outcomeRaises then Tried(Gap(worked.row, s.afterOutcome), Some(WRITE_ERROR))
      else
        Tried(Gap(Written(worked.row, OutcomeOf(worked, payload)), s.afterOutcome),
              // The job-type lookup of the closing log line is inside the same try.
              if s.lookupRaises then Some(WRITE_ERROR) else None)
  }

  function AfterTry(t: Tried, s: Script): Row {
    if t.failure.Some? && !s.failureRaises then Written(t.row, MarkedFailed(t.row.job, t.failure.value)) else t.row
  }

  function Finally(r: Row, s: Script): Row {
    var k := Gap(r, s.beforeBackstop);
    if s.backstopRaises then k else Written(k, Backstopped(k.job))
  }

  function RunOf(r: Row, s: Script): RunEnd {
    var queued := Gap(r, s.whileQueued);
    if s.markRaises then RunEnd(queued, true)
    else
      var marked := Gap(Written(queued, MarkedProcessing(queued.job)), s.afterMark);
      if queued.job.status.Cancelling? then
        if s.earlyCancelRaises then RunEnd(marked, true)
        else RunEnd(Written(marked, MarkedCancelled(marked.job, None)), s.earlyLookupRaises)
      else
        RunEnd(Finally(AfterTry(TryOf(Progress(marked, Some(queued.job.status)), s), s), s), s.end.TornDown?)
  }

  // --- The objects -----------------------------------------------------------------------

  class JobTable {
    var rows: map<nat, Job>
    /** Per job, the cancel requests between their check and their write. */
    var pending: map<nat, nat>

    constructor ()
      ensures rows == map[] && pending == map[]
    {
      rows, pending := map[], map[];
    }

    function RowOf(id: nat): Row
      reads this
      requires id in rows
    {
      Row(rows[id], if id in pending then pending[id] else 0)
    }

    method CreateJob(id: nat, total: int)
      requires id !in rows
      modifies this`rows
      ensures rows == old(rows)[id := NewJob(total)]
    {
      rows := rows[id := NewJob(total)];
    }

    /** The endpoint's check: 404 without the row, 409 on a finished job; `goesOn` says whether it will write. */
    method CheckCancel(id: nat) returns (answer: Result<Job, int>, goesOn: bool)
      modifies this`pending
      ensures id !in rows ==> answer == Err(404) && !goesOn && pending == old(pending)
      ensures id in rows ==>
                && answer == (if Terminal(rows[id].status) then Err(409) else Ok(rows[id]))
                && (goesOn <==> Cancellable(rows[id].status))
                && RowOf(id) == Poked(old(RowOf(id)), CancelChecks)
                && forall other :: other in rows && other != id ==> RowOf(other) == old(RowOf(other))
    {
      if id !in rows {
        return Err(404), false;
      }
      var job := rows[id];
      if Terminal(job.status) {
        return Err(409), false;
      }
      goesOn := !job.status.Cancelling?;
      if goesOn {
        pending := pending[id := RowOf(id).pending + 1];
      }
      answer := Ok(job);
    }

    /** The endpoint's write, of a request that passed its check. */
    method WriteCancel(id: nat)
      requires id in rows
      modifies this
      ensures rows.Keys == old(rows.Keys)
      ensures RowOf(id) == Poked(old(RowOf(id)), CancelWrites)
      ensures forall other :: other in rows && other != id ==> RowOf(other) == old(RowOf(other))
    {
      if RowOf(id).pending > 0 {
        rows, pending := rows[id := rows[id].(status := Cancelling)], pending[id := RowOf(id).pending - 1];
      }
    }

    /** A whole request that nothing comes between. */
    method CancelJob(id: nat) returns (answer: Result<Job, int>)
      modifies this
      ensures id !in old(rows) ==> answer == Err(404) && rows == old(rows)
      ensures id in old(rows) ==>
                && rows.Keys == old(rows.Keys) && RowOf(id).pending == old(RowOf(id)).pending
                && rows[id] == (if Cancellable(old(rows)[id].status) then old(rows)[id].(status := Cancelling)
                                else old(rows)[id])
                && answer == (if Terminal(old(rows)[id].status) then Err(409) else Ok(rows[id]))
                && forall other :: other in rows && other != id ==> RowOf(other) == old(RowOf(other))
    {
      var goesOn;
      answer, goesOn := CheckCancel(id);
      if goesOn {
        WriteCancel(id);
        answer := Ok(rows[id]);
      }
    }

    /** Startup recovery; a failing query or commit writes nothing. */
    method ResetStaleJobs(fails: bool) returns (count: nat)
      modifies this`rows
      ensures fails ==> rows == old(rows) && count == 0
      ensures !fails ==> rows == map id | id in old(rows) :: Reset(old(rows)[id])
      ensures !fails ==> count == |set id | id in old(rows) && !Terminal(old(rows)[id].status)|
    {
      if fails {
        return 0;
      }
      var stale := set id | id in rows && !Terminal(rows[id].status);
      var todo, after := stale, rows;
      while todo != {}
        invariant todo <= stale && rows == old(rows) && after.Keys == rows.Keys
        invariant forall id :: id in rows ==> after[id] == if id in todo then rows[id] else Reset(rows[id])
      {
        var id :| id in todo;
        todo, after := todo - {id}, after[id := Reset(rows[id])];
      }
      rows := after;
      count := |stale|;
    }
  }

  class JobProgress {
    const table: JobTable
    const id: nat
    var seen: Option<Status>

    constructor (table: JobTable, id: nat)
      ensures this.table == table && this.id == id && seen == None
    {
      this.table, this.id, seen := table, id, None;
    }

    ghost function View(): Progress
      reads this, table
      requires id in table.rows
    {
      Progress(table.RowOf(id), seen)
    }

    method Update(mutate: Job -> Job)
      modifies this, table`rows
      ensures table.rows.Keys == old(table.rows.Keys)
      ensures forall other :: other in table.rows && other != id ==> table.rows[other] == old(table.rows)[other]
      ensures id !in old(table.rows) ==> seen == old(seen)
      ensures id in old(table.rows) ==>
                table.rows[id] == mutate(old(table.rows)[id]) && seen == Some(old(table.rows)[id].status)
    {
      if id !in table.rows {
        return;
      }
      var job := table.rows[id];
      seen := Some(job.status);
      table.rows := table.rows[id := mutate(job)];
    }

    method RunWorkerStep(step: WorkerStep)
      requires id in table.rows
      modifies this, table
      ensures table.rows.Keys == old(table.rows.Keys)
      ensures View() == Worked(old(View()), step)
    {
      match step
      case Advance(ok, item, error, count) => Update(j => Advanced(j, ok, item, error, count));
      case SetTotal(n) => Update(j => TotalSet(j, n));
      case Cancel(poke) => CancelPokes(poke);
    }

    method CancelPokes(poke: Poke)
      requires id in table.rows
      modifies table
      ensures table.rows.Keys == old(table.rows.Keys)
      ensures table.RowOf(id) == Poked(old(table.RowOf(id)), poke)
    {
      match poke
      case CancelChecks => var _, _ := table.CheckCancel(id);
      case CancelWrites => table.WriteCancel(id);
    }

    /** The requests of one gap. */
    method RequestsCome(gap: seq<Poke>)
      requires id in table.rows
      modifies table
      ensures table.rows.Keys == old(table.rows.Keys)
      ensures table.RowOf(id) == Gap(old(table.RowOf(id)), gap)
    {
      for i := 0 to |gap|
        invariant table.rows.Keys == old(table.rows.Keys)
        invariant table.RowOf(id) == PokedAll(old(table.RowOf(id)), gap, i)
      {
        CancelPokes(gap[i]);
      }
    }

    /** `run_job`: its try, except and finally spelled out along the script. */
    method RunJob(s: Script) returns (raised: bool)
      requires id in table.rows
      modifies this, table
      ensures table.rows.Keys == old(table.rows.Keys)
      ensures RunEnd(table.RowOf(id), raised) == RunOf(old(table.RowOf(id)), s)
    {
      seen := None;
      RequestsCome(s.whileQueued);
      if s.markRaises {
        return true;
      }
      Update(MarkedProcessing);
      RequestsCome(s.afterMark);
      if seen == Some(Cancelling) {
        if s.earlyCancelRaises {
          return true;
        }
        Update(j => MarkedCancelled(j, None));
        return s.earlyLookupRaises;
      }
      var failure := Try(s);
      ExceptAndFinally(failure, s);
      raised := s.end.TornDown?;
    }

    method ExceptAndFinally(failure: Option<string>, s: Script)
      requires id in table.rows
      modifies this, table
      ensures table.rows.Keys == old(table.rows.Keys)
      ensures table.RowOf(id) == Finally(AfterTry(Tried(old(table.RowOf(id)), failure), s), s)
    {
      if failure.Some? && !s.failureRaises {
        Update(j => MarkedFailed(j, failure.value));
      }
      RequestsCome(s.beforeBackstop);
      if !s.backstopRaises && !Terminal(table.rows[id].status) {
        Update(Backstopped);
      }
    }

    method Try(s: Script) returns (failure: Option<string>)
      requires id in table.rows
      modifies this, table
      ensures table.rows.Keys == old(table.rows.Keys)
      ensures Tried(table.RowOf(id), failure) == TryOf(old(View()), s)
    {
      for i := 0 to |s.work|
        invariant table.rows.Keys == old(table.rows.Keys)
        invariant View() == WorkedAll(old(View()), s.work, i)
      {
        RunWorkerStep(s.work[i]);
      }
      match s.end
      case TornDown => return None;
      case Raises(message) => return Some(message);
      case Returns(payload) =>
        RequestsCome(s.afterWork);
        if s.outcomeRaises {
          RequestsCome(s.afterOutcome);
          return Some(WRITE_ERROR);
        }
        if seen == Some(Cancelling) {
          Update(j => MarkedCancelled(j, payload));
        } else {
          Update(j => MarkedCompleted(j, payload));
        }
        RequestsCome(s.afterOutcome);
        failure := if s.lookupRaises then Some(WRITE_ERROR) else None;
    }
  }

  // --- Where a cancel lands --------------------------------------------------------------

  /** Before request n of a gap some request has passed its check: one from before the gap, or one of the first n. */
  ghost predicate Armed(r: Row, gap: seq<Poke>, n: nat)
    requires n <= |gap|
  {
    r.pending > 0 || (Cancellable(r.job.status) && exists k :: 0 <= k < n && gap[k].CancelChecks?)
  }

  ghost predicate LandsAt(r: Row, gap: seq<Poke>, i: nat)
    requires i < |gap|
  {
    gap[i].CancelWrites? && Armed(r, gap, i)
  }

  ghost predicate Lands(r: Row, gap: seq<Poke>, n: nat)
    requires n <= |gap|
  {
    exists i :: 0 <= i < n && LandsAt(r, gap, i)
  }

  /** The requests of a gap leave the row alone or cancelling, and the latter exactly when one of them lands. */
  lemma {:induction false} GapCancelsIffOneLands(r: Row, gap: seq<Poke>, n: nat)
    requires n <= |gap|
    ensures PokedAll(r, gap, n).job == if Lands(r, gap, n) then r.job.(status := Cancelling) else r.job
    ensures !Lands(r, gap, n) ==> (PokedAll(r, gap, n).pending > 0 <==> Armed(r, gap, n))
  {
    if n == 0 {
    } else {
      var m := n - 1;
      GapCancelsIffOneLands(r, gap, m);
      assert n == m + 1;
      assert Lands(r, gap, n) <==> Lands(r, gap, m) || LandsAt(r, gap, m);
      assert Armed(r, gap, n) <==> Armed(r, gap, m) || (Cancellable(r.job.status) && gap[m].CancelChecks?);
    }
  }

  /** A finished row is overwritten by a request that had passed its check before the row was finished. */
  predicate Overwritten(r: Row, gap: seq<Poke>) {
    r.pending > 0 && CancelWrites in gap
  }

  lemma FinishedRowIsOverwrittenIff(r: Row, gap: seq<Poke>)
    requires Terminal(r.job.status)
    ensures Gap(r, gap).job == if Overwritten(r, gap) then r.job.(status := Cancelling) else r.job
    ensures !Overwritten(r, gap) ==> (Gap(r, gap).pending > 0 <==> r.pending > 0)
  {
    GapCancelsIffOneLands(r, gap, |gap|);
    if Overwritten(r, gap) {
      var i :| 0 <= i < |gap| && gap[i] == CancelWrites;
      assert LandsAt(r, gap, i);
    }
  }

  /** The endpoint's requests among the worker's steps arm and land as they do in a gap. */
  ghost predicate ArmedInWork(r: Row, work: seq<WorkerStep>, n: nat)
    requires n <= |work|
  {
    r.pending > 0 || (Cancellable(r.job.status) && exists k :: 0 <= k < n && work[k] == Cancel(CancelChecks))
  }

  ghost predicate LandsInWork(r: Row, work: seq<WorkerStep>, i: nat)
    requires i < |work|
  {
    work[i] == Cancel(CancelWrites) && ArmedInWork(r, work, i)
  }

  ghost predicate CancelledBy(r: Row, work: seq<WorkerStep>, n: nat)
    requires n <= |work|
  {
    r.job.status.Cancelling? || exists i :: 0 <= i < n && LandsInWork(r, work, i)
  }

  /** Some bookkeeping write of the worker's own came after a cancel had landed. */
  ghost predicate Noticed(r: Row, work: seq<WorkerStep>, n: nat)
    requires n <= |work|
  {
    exists k :: 0 <= k < n && !work[k].Cancel? && CancelledBy(r, work, k)
  }

  /** A later bookkeeping write tells the worker about a cancel that landed before it, and only such a one. */
  lemma {:induction false} CancelIsSeenAtTheNextUpdate(p: Progress, work: seq<WorkerStep>, n: nat)
    requires n <= |work|
    requires !Terminal(p.row.job.status) && p.seen != Some(Cancelling)
    ensures !Terminal(WorkedAll(p, work, n).row.job.status)
    ensures WorkedAll(p, work, n).row.job.status.Cancelling? <==> CancelledBy(p.row, work, n)
    ensures !CancelledBy(p.row, work, n) ==>
              (WorkedAll(p, work, n).row.pending > 0 <==> ArmedInWork(p.row, work, n))
    ensures WorkedAll(p, work, n).seen == Some(Cancelling) <==> Noticed(p.row, work, n)
  {
    if n == 0 {
    } else {
      var m := n - 1;
      CancelIsSeenAtTheNextUpdate(p, work, m);
      assert n == m + 1;
      assert CancelledBy(p.row, work, n) <==> CancelledBy(p.row, work, m) || LandsInWork(p.row, work, m);
      assert ArmedInWork(p.row, work, n) <==>
               ArmedInWork(p.row, work, m) || (Cancellable(p.row.job.status) && work[m] == Cancel(CancelChecks));
      assert Noticed(p.row, work, n) <==>
               Noticed(p.row, work, m) || (!work[m].Cancel? && CancelledBy(p.row, work, m));
    }
  }

  // --- Every run ends --------------------------------------------------------------------

  predicate CancelledBeforeStart(r: Row, s: Script) {
    Gap(r, s.whileQueued).job.status.Cancelling?
  }

  /** The row and the runner's memory as the worker starts. */
  function Started(r: Row, s: Script): Progress {
    var queued := Gap(r, s.whileQueued);
    Progress(Gap(Written(queued, MarkedProcessing(queued.job)), s.afterMark), Some(queued.job.status))
  }

  /** The row and the runner's memory as the outcome is written, when the worker returns. */
  function AtOutcome(r: Row, s: Script): Progress {
    var w := WorkedAll(Started(r, s), s.work, |s.work|);
    w.(row := Gap(w.row, s.afterWork))
  }

  /** Only `run_job` itself ever sets a terminal status. */
  lemma TheWorkerNeverFinishesTheJob(r: Row, s: Script)
    requires !CancelledBeforeStart(r, s)
    ensures !Terminal(WorkedAll(Started(r, s), s.work, |s.work|).row.job.status)
    ensures !Terminal(AtOutcome(r, s).row.job.status)
  {
    var queued := Gap(r, s.whileQueued);
    GapCancelsIffOneLands(Written(queued, MarkedProcessing(queued.job)), s.afterMark, |s.afterMark|);
    CancelIsSeenAtTheNextUpdate(Started(r, s), s.work, |s.work|);
    GapCancelsIffOneLands(WorkedAll(Started(r, s), s.work, |s.work|).row, s.afterWork, |s.afterWork|);
  }

  /** The last terminal status the try and its except recorded, and the requests that come after it. */
  datatype Settlement = Settlement(row: Row, later: seq<Poke>)

  function Settled(r: Row, s: Script): Option<Settlement> {
    var t := TryOf(Started(r, s), s);
    if t.failure.Some? && !s.failureRaises then
      Some(Settlement(Written(t.row, MarkedFailed(t.row.job, t.failure.value)), s.beforeBackstop))
    else if s.end.Returns? && !s.outcomeRaises then
      Some(Settlement(Outcome(r, s), s.afterOutcome + s.beforeBackstop))
    else None
  }

  /** The row right after the outcome of a returning worker was written. */
  function Outcome(r: Row, s: Script): Row
    requires s.end.Returns?
  {
    Written(AtOutcome(r, s).row, OutcomeOf(AtOutcome(r, s), s.end.payload))
  }

  predicate Kept(s: Settlement) {
    !Overwritten(s.row, s.later)
  }

  /**
   What any run that gets to its worker leaves, whatever raises and whenever requests come: the
   status it settled on if no late cancel overwrote that, and otherwise whatever the backstop
   makes of a job that is cancelling or was never settled.
   */
  lemma FinalJob(r: Row, s: Script)
    requires !s.markRaises && !CancelledBeforeStart(r, s)
    ensures var final, settled := RunOf(r, s).row.job, Settled(r, s);
            if settled.None? then
              if s.backstopRaises then !Terminal(final.status) else final.status.Failed? && final.finished
            else if Kept(settled.value) then final == settled.value.row.job
            else
              var reopened := settled.value.row.job.(status := Cancelling);
              final == if s.backstopRaises then reopened else Backstopped(reopened)
  {
    TheWorkerNeverFinishesTheJob(r, s);
    var t := TryOf(Started(r, s), s);
    var after := AfterTry(t, s);
    if t.failure.Some? && !s.failureRaises {
      FinishedRowIsOverwrittenIff(after, s.beforeBackstop);
    } else if s.end.Returns? && !s.outcomeRaises {
      SettledThroughTwoGaps(Outcome(r, s), s.afterOutcome, s.beforeBackstop);
    } else {
      if s.end.Returns? {
        GapCancelsIffOneLands(AtOutcome(r, s).row, s.afterOutcome, |s.afterOutcome|);
      }
      GapCancelsIffOneLands(after, s.beforeBackstop, |s.beforeBackstop|);
    }
  }

  lemma SettledThroughTwoGaps(r: Row, one: seq<Poke>, two: seq<Poke>)
    requires Terminal(r.job.status)
    ensures Gap(Gap(r, one), two).job ==
            if Overwritten(r, one + two) then r.job.(status := Cancelling) else r.job
  {
    FinishedRowIsOverwrittenIff(r, one);
    if Overwritten(r, one) {
      GapCancelsIffOneLands(Gap(r, one), two, |two|);
    } else {
      FinishedRowIsOverwrittenIff(Gap(r, one), two);
    }
  }

  /**
   Once `mark_processing` has committed, the run leaves the job in a terminal status exactly
   when the early cancel could be written (it has no backstop), or else when the backstop could
   or what the run settled on was not overwritten.
   */
  lemma RunEndsTerminal(r: Row, s: Script)
    requires !s.markRaises
    ensures Terminal(RunOf(r, s).row.job.status) <==>
              if CancelledBeforeStart(r, s) then !s.earlyCancelRaises
              else !s.backstopRaises || (Settled(r, s).Some? && Kept(Settled(r, s).value))
  {
    if CancelledBeforeStart(r, s) {
      var queued := Gap(r, s.whileQueued);
      GapCancelsIffOneLands(Written(queued, MarkedProcessing(queued.job)), s.afterMark, |s.afterMark|);
    } else {
      FinalJob(r, s);
    }
  }

  /** A `run_job` that returns has finished its job, as long as the backstop could be written. */
  lemma ReturnedMeansTerminal(r: Row, s: Script)
    requires !RunOf(r, s).raised && !s.backstopRaises
    ensures Terminal(RunOf(r, s).row.job.status) && RunOf(r, s).row.job.finished
  {
    RunEndsTerminal(r, s);
    if !CancelledBeforeStart(r, s) {
      FinalJob(r, s);
    }
  }

  /**
   The two ways a finished job loses its outcome within its own run: the lookup of the closing
   log line raises and that is recorded, or a cancel that was checked before the outcome writes
   after it. The job is failed then, or left cancelling when the backstop cannot be written.
   */
  lemma OutcomeStandsIff(r: Row, s: Script)
    requires !s.markRaises && !CancelledBeforeStart(r, s)
    requires s.end.Returns? && !s.outcomeRaises
    ensures var final, outcome := RunOf(r, s).row.job, Outcome(r, s);
            && (outcome.job.status.Completed? || outcome.job.status.Cancelled?)
            && (final == outcome.job <==> final.status == outcome.job.status)
            && (final == outcome.job <==>
                  && !(s.lookupRaises && !s.failureRaises)
                  && !(outcome.pending > 0 && CancelWrites in s.afterOutcome + s.beforeBackstop))
            && (final != outcome.job ==> final.status.Failed? || (final.status.Cancelling? && s.backstopRaises))
            && final.result == outcome.job.result
  {
    FinalJob(r, s);
    GapCancelsIffOneLands(Outcome(r, s), s.afterOutcome, |s.afterOutcome|);
  }

  /** A late cancel turns a completed job into a failed one: all its work done, its result kept, nothing raised. */
  lemma ALateCancelFailsACompletedJob(total: int, payload: nat)
    ensures var s := Script([], false, [], false, false, [], Returns(Some(payload)), [CancelChecks], false,
                            [CancelWrites], false, false, [], false);
            var final := RunOf(Row(NewJob(total), 0), s);
            && Outcome(Row(NewJob(total), 0), s).job.status == Completed && !final.raised
            && final.row.job ==
               Outcome(Row(NewJob(total), 0), s).job.(status := Failed, errorMessage := Some(NO_STATUS))
            && final.row.job.result == Some(payload)
  {
    var r, none: seq<Poke> := Row(NewJob(total), 0), [];
    var s := Script(none, false, none, false, false, [], Returns(Some(payload)), [CancelChecks], false,
                    [CancelWrites], false, false, none, false);
    assert forall q: Row :: Gap(q, none) == q;
    assert forall q: Row, p: Poke :: Gap(q, [p]) == Poked(PokedAll(q, [p], 0), p) == Poked(q, p);
    assert AtOutcome(r, s) == Progress(Row(MarkedProcessing(r.job), 1), Some(Queued));
    FinalJob(r, s);
  }

  /** Every check of the gap is followed by its write at once. */
  ghost predicate AtomicGap(gap: seq<Poke>) {
    forall i :: 0 <= i < |gap| && gap[i].CancelChecks? ==> i + 1 < |gap| && gap[i + 1].CancelWrites?
  }

  ghost predicate AtomicWork(work: seq<WorkerStep>) {
    forall i :: 0 <= i < |work| && work[i] == Cancel(CancelChecks) ==>
                  i + 1 < |work| && work[i + 1] == Cancel(CancelWrites)
  }

  lemma {:induction false} AtomicGapLeavesNothingPending(r: Row, gap: seq<Poke>, n: nat)
    requires n <= |gap| && AtomicGap(gap) && r.pending == 0
    ensures PokedAll(r, gap, n).pending <= if n > 0 && gap[n - 1].CancelChecks? then 1 else 0
  {
    if n == 0 {
    } else {
      AtomicGapLeavesNothingPending(r, gap, n - 1);
    }
  }

  lemma {:induction false} AtomicWorkLeavesNothingPending(p: Progress, work: seq<WorkerStep>, n: nat)
    requires n <= |work| && AtomicWork(work) && p.row.pending == 0
    ensures WorkedAll(p, work, n).row.pending <= if n > 0 && work[n - 1] == Cancel(CancelChecks) then 1 else 0
  {
    if n == 0 {
    } else {
      AtomicWorkLeavesNothingPending(p, work, n - 1);
    }
  }

  /** Were each request's check and write one transaction, no run could lose its outcome to a cancel. */
  lemma AtomicRequestsNeverOverwrite(r: Row, s: Script)
    requires r.pending == 0 && s.end.Returns?
    requires AtomicGap(s.whileQueued) && AtomicGap(s.afterMark) && AtomicWork(s.work) && AtomicGap(s.afterWork)
    ensures Outcome(r, s).pending == 0
  {
    var queued := Gap(r, s.whileQueued);
    var marked := Written(queued, MarkedProcessing(queued.job));
    AtomicGapLeavesNothingPending(r, s.whileQueued, |s.whileQueued|);
    AtomicGapLeavesNothingPending(marked, s.afterMark, |s.afterMark|);
    AtomicWorkLeavesNothingPending(Started(r, s), s.work, |s.work|);
    AtomicGapLeavesNothingPending(WorkedAll(Started(r, s), s.work, |s.work|).row, s.afterWork, |s.afterWork|);
  }

  /**
   When every write goes through, the status a run ends in is decided by the worker and by when
   cancels land: one that lands before the worker's last update stops the job as cancelled, one
   that lands between that update and the outcome is lost, and one that was checked before the
   outcome and lands after it makes the job a failed one.
   */
  lemma CleanRunOutcome(r: Row, s: Script)
    requires !s.markRaises && !s.earlyCancelRaises && !s.outcomeRaises && !s.lookupRaises && !s.failureRaises
             && !s.backstopRaises
    ensures RunOf(r, s).row.job.status ==
            if CancelledBeforeStart(r, s) then Cancelled
            else if !s.end.Returns? then Failed
            else if Overwritten(AtOutcome(r, s).row, s.afterOutcome + s.beforeBackstop) then Failed
            else if Noticed(Started(r, s).row, s.work, |s.work|) then Cancelled
            else Completed
  {
    if CancelledBeforeStart(r, s) {
    } else {
      FinalJob(r, s);
      var queued := Gap(r, s.whileQueued);
      GapCancelsIffOneLands(Written(queued, MarkedProcessing(queued.job)), s.afterMark, |s.afterMark|);
      CancelIsSeenAtTheNextUpdate(Started(r, s), s.work, |s.work|);
    }
  }

  /** A finished job is turned into a failed one, keeping its result, when the lookup for its own log line raises. */
  lemma CompletedTurnsFailedWhenTheLogLookupRaises(r: Row, s: Script)
    requires !s.markRaises && !CancelledBeforeStart(r, s) && !s.failureRaises
    requires s.end.Returns? && !s.outcomeRaises && Outcome(r, s).pending == 0
    ensures var clean := RunOf(r, s.(lookupRaises := false)).row.job;
            var e := RunOf(r, s.(lookupRaises := true)).row.job;
            && clean == Outcome(r, s).job && Terminal(clean.status)
            && e == clean.(status := Failed, errorMessage := Some(WRITE_ERROR))
  {
    var clean, e := s.(lookupRaises := false), s.(lookupRaises := true);
    assert AtOutcome(r, clean) == AtOutcome(r, s) == AtOutcome(r, e);
    assert Started(r, clean) == Started(r, s) == Started(r, e);
    FinalJob(r, clean);
    FinalJob(r, e);
    FinishedRowIsOverwrittenIff(Outcome(r, s), s.afterOutcome);
  }

  /**
   What a settled run records besides the status: a returning worker's payload, if it gave one, in
   place of any earlier result; a raising one's message, to 2000 characters; and that the job has
   started and finished.
   */
  lemma SettledRunRecords(r: Row, s: Script)
    requires !s.markRaises && !CancelledBeforeStart(r, s) && Settled(r, s).Some?
    ensures var j := Settled(r, s).value.row.job;
            && j.started && j.finished
            && (s.end.Returns? && !s.outcomeRaises ==>
                  j.result == if s.end.payload.Some? then s.end.payload else r.job.result)
            && (s.end.Raises? ==>
                  && j.status == Failed && j.result == r.job.result
                  && |j.errorMessage.GetOr("")| <= 2000 && j.errorMessage.GetOr("") <= s.end.message
                  && (|s.end.message| <= 2000 ==> j.errorMessage == Some(s.end.message))
                  && (|s.end.message| > 2000 ==> |j.errorMessage.GetOr("")| == 2000))
            && (s.end.Returns? && s.outcomeRaises ==> j.status == Failed && j.errorMessage == Some(WRITE_ERROR))
  {
    WorkKeepsTheRest(r, s);
    if s.end.Returns? {
      var w := WorkedAll(Started(r, s), s.work, |s.work|).row;
      GapCancelsIffOneLands(w, s.afterWork, |s.afterWork|);
      GapCancelsIffOneLands(AtOutcome(r, s).row, s.afterOutcome, |s.afterOutcome|);
      GapCancelsIffOneLands(Outcome(r, s), s.afterOutcome, |s.afterOutcome|);
    }
  }

  /**
   A run that gets to its worker settles on something exactly when there is a failure to record and
   it can be recorded, or a worker that returned and whose outcome could be written.
   */
  lemma SettledIff(r: Row, s: Script)
    requires !s.markRaises && !CancelledBeforeStart(r, s)
    ensures Settled(r, s).Some? <==>
              match s.end
              case TornDown => false
              case Raises(_) => !s.failureRaises
              case Returns(_) => !s.failureRaises || !s.outcomeRaises
  {
  }

  /** What reaches the caller: a failing early write, or a tear-down; nothing the worker raises does. */
  lemma RunRaisesIff(r: Row, s: Script)
    ensures RunOf(r, s).raised <==>
              if s.markRaises then true
              else if CancelledBeforeStart(r, s) then s.earlyCancelRaises || s.earlyLookupRaises
              else s.end.TornDown?
  {
  }

  // --- A failed job says why ----------------------------------------------------------------------

  predicate SaysWhy(j: Job) {
    j.status.Failed? ==> j.errorMessage.Some?
  }

  lemma {:induction false} GapKeepsReasons(r: Row, gap: seq<Poke>, n: nat)
    requires n <= |gap| && SaysWhy(r.job)
    ensures SaysWhy(PokedAll(r, gap, n).job)
  {
    if n == 0 {
    } else {
      GapKeepsReasons(r, gap, n - 1);
    }
  }

  lemma {:induction false} WorkKeepsReasons(p: Progress, work: seq<WorkerStep>, n: nat)
    requires n <= |work| && SaysWhy(p.row.job)
    ensures SaysWhy(WorkedAll(p, work, n).row.job)
  {
    if n == 0 {
    } else {
      WorkKeepsReasons(p, work, n - 1);
    }
  }

  lemma FinallyKeepsReasons(r: Row, s: Script)
    requires SaysWhy(r.job)
    ensures SaysWhy(Finally(r, s).job)
  {
    GapKeepsReasons(r, s.beforeBackstop, |s.beforeBackstop|);
  }

  lemma TryKeepsReasons(p: Progress, s: Script)
    requires SaysWhy(p.row.job)
    ensures SaysWhy(TryOf(p, s).row.job)
  {
    WorkKeepsReasons(p, s.work, |s.work|);
    var w := WorkedAll(p, s.work, |s.work|);
    if s.end.Returns? {
      GapKeepsReasons(w.row, s.afterWork, |s.afterWork|);
      var worked := w.(row := Gap(w.row, s.afterWork));
      GapKeepsReasons(worked.row, s.afterOutcome, |s.afterOutcome|);
      GapKeepsReasons(Written(worked.row, OutcomeOf(worked, s.end.payload)), s.afterOutcome, |s.afterOutcome|);
    }
  }

  /** Whatever raises and whenever requests come, no run and no restart leaves a failed job without a message. */
  lemma AFailedJobSaysWhy(r: Row, s: Script)
    requires SaysWhy(r.job)
    ensures SaysWhy(RunOf(r, s).row.job) && SaysWhy(Reset(RunOf(r, s).row.job))
  {
    var queued := Gap(r, s.whileQueued);
    GapKeepsReasons(r, s.whileQueued, |s.whileQueued|);
    if !s.markRaises {
      var marked := Written(queued, MarkedProcessing(queued.job));
      GapKeepsReasons(marked, s.afterMark, |s.afterMark|);
      if !queued.job.status.Cancelling? {
        var p := Progress(Gap(marked, s.afterMark), Some(queued.job.status));
        TryKeepsReasons(p, s);
        FinallyKeepsReasons(AfterTry(TryOf(p, s), s), s);
      }
    }
  }

  // --- What the worker and requests leave alone ----------------------------------------------------

  /** Neither requests nor the worker touch the result, and the worker finds the job marked as started. */
  lemma WorkKeepsTheRest(r: Row, s: Script)
    requires !CancelledBeforeStart(r, s)
    ensures var j := WorkedAll(Started(r, s), s.work, |s.work|).row.job;
            j.started && j.result == r.job.result
  {
    var queued := Gap(r, s.whileQueued);
    GapCancelsIffOneLands(r, s.whileQueued, |s.whileQueued|);
    GapCancelsIffOneLands(Written(queued, MarkedProcessing(queued.job)), s.afterMark, |s.afterMark|);
    WorkKeepsResult(Started(r, s), s.work, |s.work|);
  }

  lemma {:induction false} WorkKeepsResult(p: Progress, work: seq<WorkerStep>, n: nat)
    requires n <= |work|
    ensures var j := WorkedAll(p, work, n).row.job;
            j.started == p.row.job.started && j.result == p.row.job.result
  {
    if n == 0 {
    } else {
      WorkKeepsResult(p, work, n - 1);
    }
  }

  // --- After the run ---------------------------------------------------------------------

  /** A restart runs the startup reset, whose failing query or commit is swallowed. */
  datatype Later = Request(poke: Poke) | ServerRestarted(resetFails: bool)

  /** A restart takes the requests under way down with it. */
  function AfterOne(r: Row, later: Later): Row {
    match later
    case Request(poke) => Poked(r, poke)
    case ServerRestarted(resetFails) => Row(if resetFails then r.job else Reset(r.job), 0)
  }

  function After(r: Row, later: seq<Later>): Row
    decreases |later|
  {
    if later == [] then r else After(AfterOne(r, later[0]), later[1..])
  }

  /** A restart whose reset goes through ends any job that was left unfinished, whatever comes before and after it. */
  lemma {:induction false} ARestartEndsEveryJob(r: Row, later: seq<Later>)
    requires ServerRestarted(false) in later
    ensures Terminal(After(r, later).job.status)
    decreases |later|
  {
    var r' := AfterOne(r, later[0]);
    if later[0] == ServerRestarted(false) {
      TerminalUntouched(r', later[1..]);
    } else {
      ARestartEndsEveryJob(r', later[1..]);
    }
  }

  lemma {:induction false} TerminalUntouched(r: Row, later: seq<Later>)
    requires Terminal(r.job.status) && r.pending == 0
    ensures After(r, later) == r
    decreases |later|
  {
    if later == [] {
    } else {
      TerminalUntouched(AfterOne(r, later[0]), later[1..]);
    }
  }

  predicate Unmoved(r: Row, later: seq<Later>) {
    After(r, later).job == r.job
  }

  /**
   A finished job stays as it is under whatever requests and restarts come later, exactly when no
   request that was checked while it ran is still to write.
   */
  lemma TerminalIsForeverIff(r: Row)
    requires Terminal(r.job.status)
    ensures (forall later :: Unmoved(r, later)) <==> r.pending == 0
  {
    if r.pending == 0 {
      forall later
        ensures Unmoved(r, later)
      {
        TerminalUntouched(r, later);
      }
    } else {
      var later := [Request(CancelWrites)];
      assert After(r, later) == After(AfterOne(r, later[0]), later[1..]) == AfterOne(r, later[0]);
      assert !Unmoved(r, later);
    }
  }

  // --- Counters --------------------------------------------------------------------------

  /** The errors the first n steps reported, in order. */
  function ReportedErrors(work: seq<WorkerStep>, n: nat): seq<ItemError>
    requires n <= |work|
  {
    if n == 0 then []
    else
      var last := work[n - 1];
      ReportedErrors(work, n - 1)
      + if last.Advance? && !last.succeeded
          && last.error != "" then [ItemError(last.item.GetOr("unknown"), last.error)] else []
  }

  /** What the first n steps counted as done with this outcome. */
  function Counted(work: seq<WorkerStep>, succeeded: bool, n: nat): int
    requires n <= |work|
  {
    if n == 0 then 0
    else
      var last := work[n - 1];
      Counted(work, succeeded, n - 1) + if last.Advance? && last.succeeded == succeeded then last.count else 0
  }

  /** The total as the first n steps last corrected it. */
  function TotalAfter(work: seq<WorkerStep>, was: int, n: nat): int
    requires n <= |work|
  {
    if n == 0 then was else if work[n - 1].SetTotal? then work[n - 1].total else TotalAfter(work, was, n - 1)
  }

  function Capped(errors: seq<ItemError>): seq<ItemError> {
    if |errors| <= MAX_STORED_ERRORS then errors else errors[..MAX_STORED_ERRORS]
  }

  /** The counters of j are those of the start, moved on by the first n steps. */
  ghost predicate CountersAre(j: Job, start: Job, work: seq<WorkerStep>, n: nat)
    requires n <= |work|
  {
    && j.succeeded == start.succeeded + Counted(work, true, n)
    && j.failed == start.failed + Counted(work, false, n)
    && j.processed == start.processed + Counted(work, true, n) + Counted(work, false, n)
    && j.total == TotalAfter(work, start.total, n)
    && (start.errors == [] ==> j.errors == Capped(ReportedErrors(work, n)))
  }

  /** Every item is counted once, as what it was; the stored errors are the first fifty reported. */
  lemma {:induction false} CountersAddUp(p: Progress, work: seq<WorkerStep>, n: nat)
    requires n <= |work|
    ensures CountersAre(WorkedAll(p, work, n).row.job, p.row.job, work, n)
  {
    if n == 0 {
    } else {
      var m := n - 1;
      CountersAddUp(p, work, m);
      StepKeepsCounters(WorkedAll(p, work, m), p.row.job, work, m);
      assert WorkedAll(p, work, n) == Worked(WorkedAll(p, work, m), work[m]);
    }
  }

  lemma StepKeepsCounters(p: Progress, start: Job, work: seq<WorkerStep>, m: nat)
    requires m < |work| && CountersAre(p.row.job, start, work, m)
    ensures CountersAre(Worked(p, work[m]).row.job, start, work, m + 1)
  {
  }

  /** A whole run counts the items of its worker, if that started, and leaves the counters alone if not. */
  lemma RunKeepsCounters(r: Row, s: Script)
    ensures if s.markRaises || CancelledBeforeStart(r, s) then SameCounters(r.job, RunOf(r, s).row.job)
            else CountersAre(RunOf(r, s).row.job, r.job, s.work, |s.work|)
  {
    var queued := Gap(r, s.whileQueued);
    GapKeepsCounters(r, s.whileQueued);
    GapKeepsCounters(Written(queued, MarkedProcessing(queued.job)), s.afterMark);
    if !s.markRaises && !CancelledBeforeStart(r, s) {
      CountersAddUp(Started(r, s), s.work, |s.work|);
      TryKeepsCounters(Started(r, s), s);
    }
  }

  lemma GapKeepsCounters(r: Row, gap: seq<Poke>)
    ensures SameCounters(r.job, Gap(r, gap).job)
  {
    GapCancelsIffOneLands(r, gap, |gap|);
  }

  lemma TryKeepsCounters(p: Progress, s: Script)
    ensures var w := WorkedAll(p, s.work, |s.work|).row.job;
            && SameCounters(w, TryOf(p, s).row.job)
            && SameCounters(w, Finally(AfterTry(TryOf(p, s), s), s).job)
  {
    var w, t := WorkedAll(p, s.work, |s.work|), TryOf(p, s);
    if s.end.Returns? {
      var worked := w.(row := Gap(w.row, s.afterWork));
      GapKeepsCounters(w.row, s.afterWork);
      GapKeepsCounters(worked.row, s.afterOutcome);
      GapKeepsCounters(Written(worked.row, OutcomeOf(worked, s.end.payload)), s.afterOutcome);
    }
    assert SameCounters(w.row.job, t.row.job);
    GapKeepsCounters(AfterTry(t, s), s.beforeBackstop);
  }

  ghost predicate SameCounters(a: Job, b: Job) {
    a.processed == b.processed && a.succeeded == b.succeeded && a.failed == b.failed && a.errors == b.errors
    && a.total == b.total
  }

  // --- What a poller reads ---------------------------------------------------------------

  function Share(j: Job): real {
    if j.total <= 0 then 0.0 else Rounding.RoundTo1(Capped1(Ratio(j.processed, j.total)) * 100.0)
  }

  function Ratio(done: int, total: int): real
    requires total > 0
  {
    done as real / total as real
  }

  function Capped1(x: real): real {
    if x < 1.0 then x else 1.0
  }

  /** JobRead.from_job's progress_percentage. */
  function Percentage(j: Job): real {
    if j.status.Cancelled? then Share(j)
    else if Terminal(j.status) then 100.0
    else Share(j)
  }

  lemma RatioGrows(a: int, b: int, total: int)
    requires total > 0 && 0 <= a <= b
    ensures 0.0 <= Ratio(a, total) <= Ratio(b, total)
  {
    var t := total as real;
    assert (b - a) as real / t >= 0.0;
    assert b as real / t == a as real / t + (b - a) as real / t;
  }

  /** A live job's bar is the share of its items that are processed, to the nearest tenth of a percent. */
  lemma ProgressIsTheShareProcessed(j: Job)
    requires !Terminal(j.status) && 0 <= j.processed <= j.total && j.total > 0
    ensures -0.05 <= Percentage(j) - Ratio(j.processed, j.total) * 100.0 <= 0.05
  {
    RatioGrows(j.processed, j.total, j.total);
    var x := Ratio(j.processed, j.total) * 100.0;
    assert Capped1(Ratio(j.processed, j.total)) == Ratio(j.processed, j.total);
    Rounding.RoundIsNearest(x * 10.0);
  }

  /** The bar stays within 0..100, never moves back while items are counted, and only finishing snaps it to 100. */
  lemma ProgressIsHonest(j: Job, more: int)
    requires j.processed >= 0 && more >= 0
    ensures 0.0 <= Percentage(j) <= 100.0
    ensures Percentage(j) <= Percentage(j.(processed := j.processed + more))
    ensures j.status.Completed? || j.status.Failed? ==> Percentage(j) == 100.0
    ensures !Terminal(j.status) ==> Percentage(MarkedCancelled(j, None)) == Percentage(j)
  {
    if j.total > 0 {
      RatioGrows(j.processed, j.processed + more, j.total);
      var x, y := Capped1(Ratio(j.processed, j.total)) * 100.0, Capped1(Ratio(j.processed + more, j.total)) * 100.0;
      Rounding.RoundTo1Between(x, 0, 100);
      Rounding.RoundTo1IsMonotone(x, y);
    }
  }
}
