/**
 The single consumer around the queue, and every step that can interleave with it: enqueues,
 claims, progress writes, publication, finishing, cancellation, other writers of clip rows,
 and a restart of the process.
 */
module WorkerLoop {
  import opened ClipStates
  import opened Wrappers
  import opened JobQueue

  /**
   The record claimed by the consumer. It is not refreshed: a later cancel reaches the row only, and
   `stopping` says that the consumer looked at the row and saw the request.
   */
  datatype Held = Held(id: JobId, job: Job, published: bool, stopping: bool)

  datatype System = System(rows: Rows, held: Option<Held>)

  datatype Outcome = Success | Failure | Stopped | Retry

  datatype Step =
    | Enqueue(batch: seq<NewJob>)
    | Claim(id: JobId, now: Time)
    | Progress(now: Time)
    | Look
    | Publish
    | Finish(outcome: Outcome, now: Time)
    | Cancel(id: JobId, now: Time)
    | WriteClip(clip: ClipId, row: ClipRow)
    | Restart(now: Time)

  /** The record `_finish` hands to the queue. */
  function Closing(job: Job, outcome: Outcome, now: Time): Job {
    match outcome
    case Retry => job.(state := Queued, started := None)
    case Success => job.(state := Succeeded, finished := Some(now), cancelRequested := false)
    case Failure => job.(state := Failed, finished := Some(now), cancelRequested := false)
    case Stopped => job.(state := Cancelled, finished := Some(now), cancelRequested := true)
  }

  predicate MayRetry(job: Job) {
    job.kind == Compile && job.attempt < job.maxAttempts
  }

  /** The kinds of work that run a process, look for a cancel while it runs, and publish what it made. */
  predicate Interruptible(kind: Kind) {
    kind == Compile || kind == Edit
  }

  /** When the consumer records which outcome; `flag` is what the row says about cancellation. */
  predicate MayFinish(held: Held, flag: bool, outcome: Outcome) {
    match outcome
    case Success => !held.stopping && held.job.kind != Unsupported && (Interruptible(held.job.kind) ==> held.published)
    case Stopped => held.stopping
    case Retry => MayRetry(held.job)
    case Failure => MayRetry(held.job) ==> flag
  }

  predicate AtWork(s: System) {
    && s.held.Some? && s.held.value.id in s.rows.jobs && Interruptible(s.held.value.job.kind)
    && !s.held.value.published && !s.held.value.stopping
  }

  ghost predicate Enabled(s: System, step: Step) {
    match step
    case Enqueue(_) => true
    case Claim(id, _) => s.held.None? && Idle(s.rows.jobs) && NextInLine(s.rows.jobs, id)
    case Progress(_) => s.held.Some? && s.held.value.id in s.rows.jobs
    case Look => AtWork(s)
    case Publish => AtWork(s)
    case Finish(outcome, _) =>
      && s.held.Some? && s.held.value.id in s.rows.jobs
      && MayFinish(s.held.value, s.rows.jobs[s.held.value.id].cancelRequested, outcome)
    case Cancel(id, _) => id in s.rows.jobs
    case WriteClip(_, _) => true
    case Restart(_) => true
  }

  /** A compilation makes its clip ready, an edit sends it back to be compiled. */
  function Published(clips: map<ClipId, ClipRow>, job: Job): map<ClipId, ClipRow> {
    var clip := job.fingerprint.clip;
    if clip !in clips then clips
    else if job.kind == Compile then clips[clip := ClipRow(Ready, true)]
    else WithClip(clips, clip, Discovered)
  }

  ghost function Apply(s: System, step: Step): System
    requires Enabled(s, step)
  {
    match step
    case Enqueue(batch) => var after := Enqueued(s.rows, batch); if after.Some? then s.(rows := after.value) else s
    case Claim(id, now) =>
      var rows := Claimed(s.rows, id, now);
      System(rows, Some(Held(id, rows.jobs[id], false, false)))
    case Progress(now) => s.(rows := Updated(s.rows, s.held.value.id, s.held.value.job, now))
    case Look => s.(held := Some(s.held.value.(stopping := s.rows.jobs[s.held.value.id].cancelRequested)))
    case Publish =>
      System(s.rows.(clips := Published(s.rows.clips, s.held.value.job)), Some(s.held.value.(published := true)))
    case Finish(outcome, now) =>
      System(Updated(s.rows, s.held.value.id, Closing(s.held.value.job, outcome, now), now), None)
    case Cancel(id, now) => s.(rows := CancelRequested(s.rows, id, now))
    case WriteClip(clip, row) => s.(rows := s.rows.(clips := s.rows.clips[clip := row]))
    case Restart(now) => System(Recovered(s.rows, now), None)
  }

  // ---------- The invariant ----------

  predicate JobOk(job: Job) {
    && job.attempt <= job.maxAttempts
    && (job.state == Queued ==> job.attempt < job.maxAttempts)
    && (job.state == Running ==> 1 <= job.attempt)
    && (job.finished.Some? <==> !job.Active())
  }

  function AttemptCount(attempts: seq<AttemptRow>, id: JobId): nat {
    if attempts == [] then 0
    else AttemptCount(attempts[..|attempts| - 1], id) + if attempts[|attempts| - 1].job == id then 1 else 0
  }

  /** Every attempt row carries its ordinal among the rows of its job. */
  predicate Numbered(attempts: seq<AttemptRow>) {
    attempts == [] ||
    (Numbered(attempts[..|attempts| - 1]) &&
     attempts[|attempts| - 1].number == AttemptCount(attempts, attempts[|attempts| - 1].job))
  }

  ghost predicate OneActivePerFingerprint(jobs: map<JobId, Job>) {
    forall a, b ::
      a in jobs && b in jobs && jobs[a].Active() && jobs[b].Active() &&
      jobs[a].fingerprint == jobs[b].fingerprint ==>
        a == b
  }

  ghost predicate HeldIsRunning(s: System) {
    && (forall id :: id in s.rows.jobs && s.rows.jobs[id].state == Running ==> s.held.Some? && s.held.value.id == id)
    && (s.held.Some? ==>
          var held := s.held.value;
          && held.id in s.rows.jobs && held.job.state == Running
          && s.rows.jobs[held.id].(cancelRequested := held.job.cancelRequested) == held.job
          && (held.job.cancelRequested ==> s.rows.jobs[held.id].cancelRequested)
          && (held.published || held.stopping ==> Interruptible(held.job.kind))
          && !(held.published && held.stopping))
  }

  ghost predicate AttemptsMatch(rows: Rows) {
    && Numbered(rows.attempts)
    && forall id :: AttemptCount(rows.attempts, id) == if id in rows.jobs then rows.jobs[id].attempt else 0
  }

  ghost predicate Inv(s: System) {
    && (forall id :: id in s.rows.jobs ==> JobOk(s.rows.jobs[id]))
    && OneActivePerFingerprint(s.rows.jobs)
    && HeldIsRunning(s)
    && AttemptsMatch(s.rows)
  }

  lemma {:induction false} ClosingKeepsCounts(attempts: seq<AttemptRow>, closing: JobId, state: JobState, now: Time)
    ensures var closed := AttemptsClosed(attempts, closing, state, now);
      (forall id :: AttemptCount(closed, id) == AttemptCount(attempts, id)) && (Numbered(attempts) ==> Numbered(closed))
  {
    if attempts != [] {
      var front, last := attempts[..|attempts| - 1], attempts[|attempts| - 1];
      var closed := AttemptsClosed(attempts, closing, state, now);
      ClosingKeepsCounts(front, closing, state, now);
      assert front + [last] == attempts;
      assert AttemptsClosed(front, closing, state, now) + [closed[|front|]] == closed;
    }
  }

  lemma {:induction false} EnqueuedKeeps(rows: Rows, batch: seq<NewJob>)
    requires Enqueued(rows, batch).Some?
    ensures var after := Enqueued(rows, batch).value;
      && after.attempts == rows.attempts
      && (forall id :: id in rows.jobs ==> id in after.jobs && after.jobs[id] == rows.jobs[id])
      && (forall id :: id in after.jobs && id !in rows.jobs ==>
            after.jobs[id].state == Queued && after.jobs[id].attempt == 0 && after.jobs[id].finished.None?)
      && (OneActivePerFingerprint(rows.jobs) ==> OneActivePerFingerprint(after.jobs))
  {
    if batch != [] {
      var front, last := batch[..|batch| - 1], batch[|batch| - 1];
      EnqueuedKeeps(rows, front);
      var before := Enqueued(rows, front).value;
      if !HasDuplicate(before.jobs, last.fingerprint) && OneActivePerFingerprint(rows.jobs) {
        forall id | id in before.jobs && before.jobs[id].Active()
          ensures before.jobs[id].fingerprint != last.fingerprint {
          assert !Duplicates(before.jobs, last.fingerprint, id);
        }
      }
    }
  }

  lemma ClaimedMatches(rows: Rows, id: JobId, now: Time)
    requires AttemptsMatch(rows) && id in rows.jobs
    ensures AttemptsMatch(Claimed(rows, id, now))
  {
  }

  lemma UpdatedMatches(rows: Rows, id: JobId, job: Job, now: Time)
    requires AttemptsMatch(rows) && id in rows.jobs && job.attempt == rows.jobs[id].attempt
    ensures AttemptsMatch(Updated(rows, id, job, now))
  {
    ClosingKeepsCounts(rows.attempts, id, job.state, now);
  }

  /** The attempt rows keep matching the attempt counters. */
  lemma StepKeepsAttempts(s: System, step: Step)
    requires Inv(s) && Enabled(s, step)
    ensures AttemptsMatch(Apply(s, step).rows)
  {
    match step {
      case Enqueue(batch) => if Enqueued(s.rows, batch).Some? { EnqueuedKeeps(s.rows, batch); }
      case Claim(id, now) => ClaimedMatches(s.rows, id, now);
      case Progress(now) => UpdatedMatches(s.rows, s.held.value.id, s.held.value.job, now);
      case Finish(outcome, now) =>
        UpdatedMatches(s.rows, s.held.value.id, Closing(s.held.value.job, outcome, now), now);
      case _ =>
    }
  }

  /** What every step keeps. */
  lemma StepKeepsInv(s: System, step: Step)
    requires Inv(s) && Enabled(s, step)
    ensures Inv(Apply(s, step))
  {
    StepKeepsAttempts(s, step);
    StepKeepsJobs(s, step);
    StepKeepsHeld(s, step);
  }

  ghost predicate JobsOk(jobs: map<JobId, Job>) {
    (forall id :: id in jobs ==> JobOk(jobs[id])) && OneActivePerFingerprint(jobs)
  }

  lemma RowWriteKeepsJobs(jobs: map<JobId, Job>, id: JobId, job: Job)
    requires JobsOk(jobs) && id in jobs && JobOk(job) && job.fingerprint == jobs[id].fingerprint
    requires job.Active() ==> jobs[id].Active()
    ensures JobsOk(jobs[id := job])
  {
  }

  lemma RestartKeepsJobs(rows: Rows, now: Time)
    requires JobsOk(rows.jobs)
    ensures JobsOk(Recovered(rows, now).jobs)
  {
  }

  /** The running job is the one the consumer holds. */
  lemma StepKeepsHeld(s: System, step: Step)
    requires Inv(s) && Enabled(s, step)
    ensures HeldIsRunning(Apply(s, step))
  {
    if step.Enqueue? && Enqueued(s.rows, step.batch).Some? {
      EnqueuedKeeps(s.rows, step.batch);
    }
  }

  lemma StepKeepsJobs(s: System, step: Step)
    requires Inv(s) && Enabled(s, step)
    ensures JobsOk(Apply(s, step).rows.jobs)
  {
    var jobs, after := s.rows.jobs, Apply(s, step).rows.jobs;
    match step {
      case Enqueue(batch) => if Enqueued(s.rows, batch).Some? { EnqueuedKeeps(s.rows, batch); }
      case Claim(id, _) => RowWriteKeepsJobs(jobs, id, after[id]);
      case Progress(_) => RowWriteKeepsJobs(jobs, s.held.value.id, after[s.held.value.id]);
      case Finish(_, _) => RowWriteKeepsJobs(jobs, s.held.value.id, after[s.held.value.id]);
      case Cancel(id, _) => RowWriteKeepsJobs(jobs, id, after[id]);
      case Restart(now) => RestartKeepsJobs(s.rows, now);
      case _ =>
    }
  }

  /** A finished job is never touched again, and no job row disappears or changes what it stands for. */
  lemma StepKeepsFinished(s: System, step: Step, id: JobId)
    requires Inv(s) && Enabled(s, step) && id in s.rows.jobs
    ensures var after := Apply(s, step).rows.jobs;
      && id in after
      && (!s.rows.jobs[id].Active() ==> after[id] == s.rows.jobs[id])
      && var was := s.rows.jobs[id];
        after[id].(state := was.state, started := was.started, finished := was.finished, attempt := was.attempt,
          cancelRequested := was.cancelRequested) == was
  {
    if step.Enqueue? && Enqueued(s.rows, step.batch).Some? {
      EnqueuedKeeps(s.rows, step.batch);
    }
  }

  // ---------- Whole runs ----------

  ghost predicate Legal(s: System, run: seq<Step>)
    decreases |run|
  {
    run == [] || (Enabled(s, run[0]) && Legal(Apply(s, run[0]), run[1..]))
  }

  ghost function Exec(s: System, run: seq<Step>): System
    requires Legal(s, run)
    decreases |run|
  {
    if run == [] then s else Exec(Apply(s, run[0]), run[1..])
  }

  lemma ExecCons(s: System, step: Step, rest: seq<Step>)
    requires Enabled(s, step) && Legal(Apply(s, step), rest)
    ensures Legal(s, [step] + rest) && Exec(s, [step] + rest) == Exec(Apply(s, step), rest)
    ensures Claims([step] + rest) == (if step.Claim? then 1 else 0) + Claims(rest)
  {
  }

  lemma {:induction false} RunInTwo(s: System, a: seq<Step>, b: seq<Step>)
    ensures Legal(s, a + b) <==> Legal(s, a) && Legal(Exec(s, a), b)
    ensures Legal(s, a + b) ==> Exec(s, a + b) == Exec(Exec(s, a), b)
    decreases |a|
  {
    if a == [] {
      assert a + b == b;
    } else {
      assert (a + b)[0] == a[0] && (a + b)[1..] == a[1..] + b;
      if Enabled(s, a[0]) {
        RunInTwo(Apply(s, a[0]), a[1..], b);
      }
    }
  }

  const EMPTY: System := System(Rows(map[], map[], []), None)

  /** Safety over every run, from any state that satisfies the invariant and so from the empty one. */
  lemma {:induction false} RunKeepsInv(s: System, run: seq<Step>)
    requires Inv(s) && Legal(s, run)
    ensures Inv(Exec(s, run))
    ensures forall id :: id in s.rows.jobs ==> id in Exec(s, run).rows.jobs
    ensures forall id ::
      id in s.rows.jobs && !s.rows.jobs[id].Active() ==> Exec(s, run).rows.jobs[id] == s.rows.jobs[id]
    decreases |run|
  {
    if run != [] {
      StepKeepsInv(s, run[0]);
      forall id | id in s.rows.jobs { StepKeepsFinished(s, run[0], id); }
      RunKeepsInv(Apply(s, run[0]), run[1..]);
    }
  }

  /** The invariant in the reader's terms, for every state reachable from the empty database. */
  lemma ReachableStates(run: seq<Step>)
    requires Legal(EMPTY, run)
    ensures var jobs := Exec(EMPTY, run).rows.jobs;
      && (forall a, b :: a in jobs && b in jobs && jobs[a].state == Running && jobs[b].state == Running ==> a == b)
      && (forall a, b ::
          a in jobs && b in jobs && jobs[a].Active() && jobs[b].Active() &&
          jobs[a].fingerprint == jobs[b].fingerprint ==>
            a == b)
      && (forall id :: id in jobs && jobs[id].state == Queued ==> jobs[id].attempt < jobs[id].maxAttempts)
      && (forall id :: id in jobs && jobs[id].state == Running ==> 1 <= jobs[id].attempt <= jobs[id].maxAttempts)
      && (forall id :: id in jobs ==> (jobs[id].finished.Some? <==> jobs[id].state in {Succeeded, Failed, Cancelled}))
      && (forall id :: id in jobs ==> AttemptCount(Exec(EMPTY, run).rows.attempts, id) == jobs[id].attempt)
  {
    assert Inv(EMPTY);
    RunKeepsInv(EMPTY, run);
  }

  /** No overtaking: once a job has been claimed, nothing stamped earlier is ever claimed again. */
  lemma NoOvertaking(s: System, claim: Step, run: seq<Step>, k: nat)
    requires Inv(s) && claim.Claim? && Legal(s, [claim] + run)
    requires k < |run| && run[k].Claim? && run[k].id in s.rows.jobs
    ensures !(s.rows.jobs[run[k].id].created < s.rows.jobs[claim.id].created)
  {
    var early := run[k].id;
    assert ([claim] + run)[1..] == run;
    StepKeepsInv(s, claim);
    StepKeepsFinished(s, claim, early);
    if !s.rows.jobs[early].Active() {
      FinishedIsNeverClaimed(Apply(s, claim), run, k);
    }
  }

  lemma {:induction false} FinishedIsNeverClaimed(s: System, run: seq<Step>, k: nat)
    requires Inv(s) && Legal(s, run) && k < |run| && run[k].Claim?
    requires run[k].id in s.rows.jobs
    ensures s.rows.jobs[run[k].id].Active()
    decreases k
  {
    if k > 0 {
      StepKeepsInv(s, run[0]);
      StepKeepsFinished(s, run[0], run[k].id);
      FinishedIsNeverClaimed(Apply(s, run[0]), run[1..], k - 1);
    }
  }

  // ---------- Stamps that grow: first in, first claimed ----------

  /** New jobs are stamped no earlier than what is in the table. */
  ghost predicate StampsGrow(s: System, step: Step) {
    step.Enqueue? ==>
      forall k, id :: 0 <= k < |step.batch| && id in s.rows.jobs ==> s.rows.jobs[id].created <= step.batch[k].created
  }

  ghost predicate StampedInOrder(s: System, run: seq<Step>)
    requires Legal(s, run)
    decreases |run|
  {
    run == [] || (StampsGrow(s, run[0]) && StampedInOrder(Apply(s, run[0]), run[1..]))
  }

  lemma {:induction false} EnqueuedStamps(rows: Rows, batch: seq<NewJob>, id: JobId)
    requires Enqueued(rows, batch).Some? && id in Enqueued(rows, batch).value.jobs && id !in rows.jobs
    ensures exists k :: 0 <= k < |batch| && Enqueued(rows, batch).value.jobs[id].created == batch[k].created
  {
    var front, last := batch[..|batch| - 1], batch[|batch| - 1];
    var before := Enqueued(rows, front).value;
    if id in before.jobs {
      EnqueuedStamps(rows, front, id);
      var k :| 0 <= k < |front| && before.jobs[id].created == front[k].created;
      assert batch[k] == front[k];
    } else {
      assert id == last.id;
    }
  }

  /** No active job is stamped before the anchor. */
  ghost predicate NothingBefore(s: System, anchor: JobId) {
    anchor in s.rows.jobs &&
    forall id ::
      id in s.rows.jobs && s.rows.jobs[id].Active() ==> s.rows.jobs[anchor].created <= s.rows.jobs[id].created
  }

  lemma StepKeepsNothingBefore(s: System, step: Step, anchor: JobId)
    requires Inv(s) && Enabled(s, step) && StampsGrow(s, step) && NothingBefore(s, anchor)
    ensures NothingBefore(Apply(s, step), anchor)
    ensures Apply(s, step).rows.jobs[anchor].created == s.rows.jobs[anchor].created
  {
    var after := Apply(s, step).rows.jobs;
    StepKeepsFinished(s, step, anchor);
    forall id | id in after && after[id].Active() ensures after[anchor].created <= after[id].created {
      if id in s.rows.jobs {
        StepKeepsFinished(s, step, id);
      } else {
        EnqueuedStamps(s.rows, step.batch, id);
      }
    }
  }

  lemma {:induction false} RunKeepsCreated(s: System, run: seq<Step>, id: JobId)
    requires Inv(s) && Legal(s, run) && id in s.rows.jobs
    ensures id in Exec(s, run).rows.jobs && Exec(s, run).rows.jobs[id].created == s.rows.jobs[id].created
    decreases |run|
  {
    if run != [] {
      StepKeepsInv(s, run[0]);
      StepKeepsFinished(s, run[0], id);
      RunKeepsCreated(Apply(s, run[0]), run[1..], id);
    }
  }

  lemma {:induction false} LaterClaimsAreLater(s: System, run: seq<Step>, k: nat, anchor: JobId)
    requires Inv(s) && Legal(s, run) && StampedInOrder(s, run) && NothingBefore(s, anchor) && k < |run| && run[k].Claim?
    ensures var end := Exec(s, run).rows.jobs;
      run[k].id in end && s.rows.jobs[anchor].created <= end[run[k].id].created
    decreases k
  {
    if k == 0 {
      RunKeepsCreated(s, run, run[0].id);
    } else {
      StepKeepsInv(s, run[0]);
      StepKeepsNothingBefore(s, run[0], anchor);
      LaterClaimsAreLater(Apply(s, run[0]), run[1..], k - 1, anchor);
    }
  }

  /** With growing stamps the claims of a whole run come in stamp order, whatever is enqueued, retried or restarted. */
  lemma {:induction false} ClaimsComeInStampOrder(s: System, run: seq<Step>, i: nat, k: nat)
    requires Inv(s) && Legal(s, run) && StampedInOrder(s, run) && i < k < |run| && run[i].Claim? && run[k].Claim?
    ensures var end := Exec(s, run).rows.jobs;
      run[i].id in end && run[k].id in end && end[run[i].id].created <= end[run[k].id].created
    decreases i
  {
    var next := Apply(s, run[0]);
    StepKeepsInv(s, run[0]);
    if i == 0 {
      assert NothingBefore(next, run[0].id);
      LaterClaimsAreLater(next, run[1..], k - 1, run[0].id);
      RunKeepsCreated(next, run[1..], run[0].id);
    } else {
      ClaimsComeInStampOrder(next, run[1..], i - 1, k - 1);
    }
  }

  // ---------- Progress: claims are paid from a finite budget ----------

  function Allowance(job: Job): nat {
    if job.Active() && job.attempt < job.maxAttempts then job.maxAttempts - job.attempt else 0
  }

  /** The sum of what the active jobs may still claim. */
  ghost function Budget(jobs: map<JobId, Job>): nat {
    Sum(map id | id in jobs :: Allowance(jobs[id]))
  }

  lemma BudgetOfUpdate(jobs: map<JobId, Job>, id: JobId, job: Job)
    ensures Budget(jobs[id := job]) + (if id in jobs then Allowance(jobs[id]) else 0) == Budget(jobs) + Allowance(job)
  {
    var allowances := map i | i in jobs :: Allowance(jobs[i]);
    SumOfUpdate(allowances, id, Allowance(job));
    var after := jobs[id := job];
    assert (map i | i in after :: Allowance(after[i])) == allowances[id := Allowance(job)];
  }

  function Granted(batch: seq<NewJob>): nat {
    if batch == [] then 0 else Granted(batch[..|batch| - 1]) + batch[|batch| - 1].maxAttempts
  }

  lemma {:induction false} BudgetOfEnqueue(rows: Rows, batch: seq<NewJob>)
    requires Enqueued(rows, batch).Some?
    ensures Budget(Enqueued(rows, batch).value.jobs) <= Budget(rows.jobs) + Granted(batch)
  {
    if batch != [] {
      var front, last := batch[..|batch| - 1], batch[|batch| - 1];
      BudgetOfEnqueue(rows, front);
      var before := Enqueued(rows, front).value;
      if !HasDuplicate(before.jobs, last.fingerprint) {
        var after := Inserted(before, last);
        BudgetOfUpdate(before.jobs, last.id, after.jobs[last.id]);
      }
    }
  }

  function Claims(run: seq<Step>): nat {
    if run == [] then 0 else (if run[0].Claim? then 1 else 0) + Claims(run[1..])
  }

  function Income(run: seq<Step>): nat {
    if run == [] then 0 else (if run[0].Enqueue? then Granted(run[0].batch) else 0) + Income(run[1..])
  }

  lemma BudgetOfRestart(s: System, now: Time)
    ensures Budget(Apply(s, Restart(now)).rows.jobs) == Budget(s.rows.jobs)
  {
    var jobs, after := s.rows.jobs, Apply(s, Restart(now)).rows.jobs;
    assert forall id :: id in jobs ==> Allowance(after[id]) == Allowance(jobs[id]);
    assert (map id | id in jobs :: Allowance(jobs[id])) == (map id | id in after :: Allowance(after[id]));
  }

  lemma StepSpends(s: System, step: Step)
    requires Inv(s) && Enabled(s, step)
    ensures Budget(Apply(s, step).rows.jobs) + (if step.Claim? then 1 else 0)
         <= Budget(s.rows.jobs) + (if step.Enqueue? then Granted(step.batch) else 0)
  {
    var jobs, after := s.rows.jobs, Apply(s, step).rows.jobs;
    match step {
      case Enqueue(batch) => if Enqueued(s.rows, batch).Some? { BudgetOfEnqueue(s.rows, batch); }
      case Claim(id, now) => BudgetOfUpdate(jobs, id, after[id]);
      case Progress(_) => BudgetOfUpdate(jobs, s.held.value.id, after[s.held.value.id]);
      case Finish(_, _) => BudgetOfUpdate(jobs, s.held.value.id, after[s.held.value.id]);
      case Cancel(id, _) => BudgetOfUpdate(jobs, id, after[id]);
      case Restart(now) => BudgetOfRestart(s, now);
      case _ =>
    }
  }

  /** Any run claims at most what its jobs were allowed: restarts, retries and cancels included. */
  lemma {:induction false} ClaimsAreBounded(s: System, run: seq<Step>)
    requires Inv(s) && Legal(s, run)
    ensures Claims(run) + Budget(Exec(s, run).rows.jobs) <= Budget(s.rows.jobs) + Income(run)
    decreases |run|
  {
    if run != [] {
      StepKeepsInv(s, run[0]);
      StepSpends(s, run[0]);
      ClaimsAreBounded(Apply(s, run[0]), run[1..]);
    }
  }
}
