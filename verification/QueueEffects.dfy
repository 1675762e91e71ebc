/** What the queue's steps do to the rows beside the jobs: clip states and attempt rows. */
module QueueEffects {
  import opened ClipBacking
  import opened ClipStates
  import opened JobQueue
  import opened WorkerLoop
  import opened Wrappers

  /** The step ended, by this outcome, a compile job of the clip. */
  predicate Closes(s: System, step: Step, clip: ClipId, outcome: Outcome) {
    && step.Finish? && step.outcome == outcome
    && s.held.Some? && s.held.value.job.kind == Compile && s.held.value.job.fingerprint.clip == clip
  }

  /** The step published the result of a job of this kind on the clip. */
  predicate Publishes(s: System, step: Step, clip: ClipId, kind: Kind) {
    step.Publish? && s.held.Some? && s.held.value.job.kind == kind && s.held.value.job.fingerprint.clip == clip
  }

  predicate CancelsQueued(s: System, step: Step, clip: ClipId) {
    && step.Cancel? && step.id in s.rows.jobs
    && s.rows.jobs[step.id].state == Queued && s.rows.jobs[step.id].kind == Compile &&
         s.rows.jobs[step.id].fingerprint.clip == clip
  }

  /** Which step moves a clip to which state, for every step the queue itself makes. */
  lemma ClipStateIsExplained(s: System, step: Step, clip: ClipId)
    requires Inv(s) && Enabled(s, step) && clip in s.rows.clips && !step.WriteClip?
    ensures clip in Apply(s, step).rows.clips
    ensures var was, now := s.rows.clips[clip], Apply(s, step).rows.clips[clip];
      now.state != was.state ==>
        match now.state
        case Ready => Publishes(s, step, clip, Compile) && now.outputAvailable
        case Broken => Closes(s, step, clip, Failure)
        case Compiling => step.Claim? && s.rows.jobs[step.id].fingerprint.clip == clip
        case Pending => step.Enqueue? || Closes(s, step, clip, Retry)
        case Stale => was.outputAvailable && (Closes(s, step, clip, Stopped) || CancelsQueued(s, step, clip))
        case Discovered =>
          Publishes(s, step, clip, Edit) ||
            (!was.outputAvailable && (Closes(s, step, clip, Stopped) || CancelsQueued(s, step, clip)))
        case _ => false
    ensures s.rows.clips[clip].outputAvailable ==> Apply(s, step).rows.clips[clip].outputAvailable
    ensures forall outcome :: Closes(s, step, clip, outcome) ==>
      Apply(s, step).rows.clips[clip].state ==
        match outcome
        case Success => s.rows.clips[clip].state
        case Failure => Broken
        case Retry => Pending
        case Stopped => Uncompiled(s.rows.clips[clip])
  {
    if step.Enqueue? && Enqueued(s.rows, step.batch).Some? {
      EnqueuedClips(s.rows, step.batch, clip);
    }
    if step.Finish? { FinishSettlesClip(s, step, clip); }
  }

  /** Closing a compile job settles its clip by the outcome; closing any other job leaves the clip alone. */
  lemma FinishSettlesClip(s: System, step: Step, clip: ClipId)
    requires Inv(s) && Enabled(s, step) && clip in s.rows.clips && step.Finish?
    ensures clip in Apply(s, step).rows.clips
    ensures Apply(s, step).rows.clips[clip].outputAvailable == s.rows.clips[clip].outputAvailable
    ensures Apply(s, step).rows.clips[clip].state ==
      if !Closes(s, step, clip, step.outcome) then s.rows.clips[clip].state
      else match step.outcome
        case Success => s.rows.clips[clip].state
        case Failure => Broken
        case Retry => Pending
        case Stopped => Uncompiled(s.rows.clips[clip])
  {
  }

  lemma {:induction false} EnqueuedClips(rows: Rows, batch: seq<NewJob>, clip: ClipId)
    requires Enqueued(rows, batch).Some? && clip in rows.clips
    ensures var after := Enqueued(rows, batch).value;
      && clip in after.clips && after.clips[clip].outputAvailable == rows.clips[clip].outputAvailable
      && (after.clips[clip] == rows.clips[clip] || after.clips[clip].state == Pending)
  {
    if batch != [] {
      EnqueuedClips(rows, batch[..|batch| - 1], clip);
    }
  }

  /** A restart puts the running job back in the queue below its cap and fails it at it, and touches nothing else. */
  lemma RestartIsExact(s: System, now: Time)
    ensures var after := Apply(s, Restart(now));
      && after.held.None? && after.rows.clips == s.rows.clips && after.rows.attempts == s.rows.attempts
      && after.rows.jobs.Keys == s.rows.jobs.Keys
      && forall id :: id in s.rows.jobs ==>
           var was, job := s.rows.jobs[id], after.rows.jobs[id];
           if was.state != Running then job == was
           else if was.attempt < was.maxAttempts then
             job.state == Queued && job.started.None? && job == was.(state := job.state, started := job.started)
           else
             job.state == Failed && job.finished == Some(now) &&
               job == was.(state := job.state, finished := job.finished)
  {
  }

  // ---------- What an enqueue inserts ----------

  /** The row of a request as inserted: its own columns, waiting, never claimed, not cancelled. */
  predicate IsFreshRowOf(job: Job, request: NewJob) {
    && job.kind == request.kind && job.fingerprint == request.fingerprint
    && job.created == request.created && job.maxAttempts == request.maxAttempts
    && job.state == Queued && job.attempt == 0 && !job.cancelRequested && job.started.None? && job.finished.None?
  }

  /** A job that compiles the clip and was not there before. */
  predicate NewlyCompiled(before: map<JobId, Job>, after: map<JobId, Job>, clip: ClipId) {
    exists id :: id in after && id !in before && after[id].kind == Compile && after[id].fingerprint.clip == clip
  }

  ghost predicate InsertedFor(before: map<JobId, Job>, after: map<JobId, Job>, batch: seq<NewJob>, id: JobId)
    requires id in after
  {
    exists k :: 0 <= k < |batch| && batch[k].id == id && IsFreshRowOf(after[id], batch[k])
      && !HasDuplicate(before, batch[k].fingerprint)
  }

  /** Every new row is a requested one that nothing active stood for, and the clips it compiles, no others, wait. */
  lemma {:induction false} EnqueuedAsRequested(rows: Rows, batch: seq<NewJob>)
    requires Enqueued(rows, batch).Some?
    ensures var after := Enqueued(rows, batch).value;
      && (forall id :: id in after.jobs && id !in rows.jobs ==> InsertedFor(rows.jobs, after.jobs, batch, id))
      && after.clips.Keys == rows.clips.Keys
      && (forall clip :: clip in rows.clips ==>
            after.clips[clip] == if NewlyCompiled(rows.jobs, after.jobs, clip)
              then ClipRow(Pending, rows.clips[clip].outputAvailable) else rows.clips[clip])
  {
    if batch != [] {
      var front, last := batch[..|batch| - 1], batch[|batch| - 1];
      EnqueuedAsRequested(rows, front);
      EnqueuedKeeps(rows, front);
      var before, after := Enqueued(rows, front).value, Enqueued(rows, batch).value;
      forall id | id in before.jobs && id !in rows.jobs ensures InsertedFor(rows.jobs, after.jobs, batch, id) {
        var k :| 0 <= k < |front| && front[k].id == id && IsFreshRowOf(before.jobs[id], front[k])
          && !HasDuplicate(rows.jobs, front[k].fingerprint);
        assert batch[k] == front[k];
      }
      if !HasDuplicate(before.jobs, last.fingerprint) {
        LastIsInserted(rows, before, last, batch);
      }
    }
  }

  lemma LastIsInserted(rows: Rows, before: Rows, last: NewJob, batch: seq<NewJob>)
    requires batch != [] && last == batch[|batch| - 1] && last.id !in before.jobs
    requires forall id :: id in rows.jobs ==> id in before.jobs && before.jobs[id] == rows.jobs[id]
    requires !HasDuplicate(before.jobs, last.fingerprint)
    ensures var after := Inserted(before, last);
      && last.id !in rows.jobs && InsertedFor(rows.jobs, after.jobs, batch, last.id)
      && forall clip :: NewlyCompiled(rows.jobs, after.jobs, clip) <==>
           NewlyCompiled(rows.jobs, before.jobs, clip) || (last.kind == Compile && last.fingerprint.clip == clip)
  {
    var after := Inserted(before, last);
    if HasDuplicate(rows.jobs, last.fingerprint) {
      var id :| Duplicates(rows.jobs, last.fingerprint, id);
      assert Duplicates(before.jobs, last.fingerprint, id);
    }
    forall clip ensures NewlyCompiled(rows.jobs, after.jobs, clip) <==>
        NewlyCompiled(rows.jobs, before.jobs, clip) || (last.kind == Compile && last.fingerprint.clip == clip) {
      if NewlyCompiled(rows.jobs, before.jobs, clip) {
        var id :| id in before.jobs && id !in rows.jobs && before.jobs[id].kind == Compile &&
          before.jobs[id].fingerprint.clip == clip;
        assert id in after.jobs && after.jobs[id] == before.jobs[id];
      }
      assert after.jobs[last.id].kind == last.kind;
    }
  }

  /** After an accepted batch every entry has an active job. */
  lemma {:induction false} ActiveAfterEnqueue(rows: Rows, batch: seq<NewJob>)
    requires Enqueued(rows, batch).Some?
    ensures forall k :: 0 <= k < |batch| ==> HasDuplicate(Enqueued(rows, batch).value.jobs, batch[k].fingerprint)
  {
    if batch != [] {
      var front, last := batch[..|batch| - 1], batch[|batch| - 1];
      ActiveAfterEnqueue(rows, front);
      var before, after := Enqueued(rows, front).value.jobs, Enqueued(rows, batch).value.jobs;
      forall k | 0 <= k < |batch| ensures HasDuplicate(after, batch[k].fingerprint) {
        if k < |front| {
          assert front[k] == batch[k];
          var id :| Duplicates(before, batch[k].fingerprint, id);
          assert Duplicates(after, batch[k].fingerprint, id);
        } else if !HasDuplicate(before, last.fingerprint) {
          assert Duplicates(after, last.fingerprint, last.id);
        }
      }
    }
  }

  // ---------- Attempt rows ----------

  /** Exactly the running job has an open attempt row. */
  ghost predicate OpenIffRunning(s: System) {
    && (forall k :: 0 <= k < |s.rows.attempts| && s.rows.attempts[k].finished.None? ==>
          s.held.Some? && s.held.value.id == s.rows.attempts[k].job)
    && (s.held.Some? ==> HasOpenAttempt(s.rows.attempts, s.held.value.id))
  }

  ghost predicate HasOpenAttempt(attempts: seq<AttemptRow>, id: JobId) {
    exists k :: 0 <= k < |attempts| && attempts[k].job == id && attempts[k].finished.None?
  }

  lemma {:induction false} ClosedRows(attempts: seq<AttemptRow>, id: JobId, state: JobState, now: Time)
    ensures var closed := AttemptsClosed(attempts, id, state, now);
      forall k :: 0 <= k < |attempts| ==>
        closed[k] == if attempts[k].job == id && attempts[k].finished.None?
          then attempts[k].(state := state, finished := Some(now)) else attempts[k]
  {
    if attempts != [] {
      ClosedRows(attempts[..|attempts| - 1], id, state, now);
    }
  }

  /** Every step keeps the attempt rows in agreement, except exactly a restart that interrupts a running job. */
  lemma StepKeepsAttemptsOpen(s: System, step: Step)
    requires Inv(s) && OpenIffRunning(s) && Enabled(s, step)
    ensures OpenIffRunning(Apply(s, step)) <==> !(step.Restart? && s.held.Some?)
  {
    var after := Apply(s, step);
    match step {
      case Enqueue(batch) => if Enqueued(s.rows, batch).Some? { EnqueuedKeeps(s.rows, batch); }
      case Claim(id, now) =>
        assert after.rows.attempts[|s.rows.attempts|].job == id;
        assert HasOpenAttempt(after.rows.attempts, id);
      case Finish(outcome, now) =>
        ClosedRows(s.rows.attempts, s.held.value.id, Closing(s.held.value.job, outcome, now).state, now);
      case _ => assert after.rows.attempts == s.rows.attempts;
    }
  }
}
