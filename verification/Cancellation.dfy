/**
 Cancelling a job that is running: the request is a flag on the row, the consumer acts only on what it
 sees when it looks, and every write of its snapshot puts the flag back to what it was at the claim.
 */
module Cancellation {
  import opened Wrappers
  import opened JobQueue
  import opened WorkerLoop

  // ---------- What a look sees ----------

  /** Some request for the job came after the last progress write. */
  predicate CancelPending(steps: seq<Step>, id: JobId) {
    steps != [] &&
    var front, last := steps[..|steps| - 1], steps[|steps| - 1];
    !last.Progress? && ((last.Cancel? && last.id == id) || CancelPending(front, id))
  }

  /** At some look the snapshot's flag was up, or a request was pending. */
  predicate Seen(snapshot: bool, steps: seq<Step>, id: JobId) {
    steps != [] &&
    var front, last := steps[..|steps| - 1], steps[|steps| - 1];
    Seen(snapshot, front, id) || (last.Look? && (snapshot || CancelPending(front, id)))
  }

  /** The steps of one stay of a job with the consumer: neither its outcome nor a restart. */
  predicate WhileHeld(steps: seq<Step>) {
    forall k :: 0 <= k < |steps| ==> !steps[k].Finish? && !steps[k].Restart?
  }

  predicate PublishedIn(steps: seq<Step>) {
    exists k :: 0 <= k < |steps| && steps[k].Publish?
  }

  /** As a claim leaves the consumer. */
  ghost predicate JustClaimed(s: System) {
    && Inv(s) && s.held.Some? && !s.held.value.published && !s.held.value.stopping
    && s.rows.jobs[s.held.value.id] == s.held.value.job
  }

  lemma ClaimHolds(s: System, id: JobId, now: Time)
    requires Inv(s) && Enabled(s, Claim(id, now))
    ensures JustClaimed(Apply(s, Claim(id, now)))
    ensures var held := Apply(s, Claim(id, now)).held.value;
      held.id == id && held.job.cancelRequested == s.rows.jobs[id].cancelRequested &&
        held.job.kind == s.rows.jobs[id].kind
  {
    StepKeepsInv(s, Claim(id, now));
  }

  lemma PublishedInMore(steps: seq<Step>)
    requires steps != []
    ensures PublishedIn(steps) <==> PublishedIn(steps[..|steps| - 1]) || steps[|steps| - 1].Publish?
  {
  }

  /** One step of a stay. */
  lemma HeldStep(s: System, step: Step)
    requires Inv(s) && s.held.Some? && Enabled(s, step) && !step.Finish? && !step.Restart?
    ensures Inv(Apply(s, step)) && Apply(s, step).held.Some?
    ensures var was, now, id := s.held.value, Apply(s, step).held.value, s.held.value.id;
      && now.id == id && now.job == was.job
      && now.published == (was.published || step.Publish?)
      && now.stopping == (was.stopping || (step.Look? && s.rows.jobs[id].cancelRequested))
      && (Apply(s, step).rows.jobs[id].cancelRequested <==>
            if step.Progress? then was.job.cancelRequested
              else s.rows.jobs[id].cancelRequested || (step.Cancel? && step.id == id))
  {
    StepKeepsInv(s, step);
    if step.Enqueue? && Enqueued(s.rows, step.batch).Some? {
      EnqueuedKeeps(s.rows, step.batch);
    }
  }

  /** Through a whole stay: what the row's flag says, and whether the consumer has seen a request. */
  lemma {:induction false} StayOfJob(s: System, steps: seq<Step>)
    requires JustClaimed(s) && Legal(s, steps) && WhileHeld(steps)
    ensures var end, held := Exec(s, steps), s.held.value;
      && Inv(end) && end.held.Some? && end.held.value.id == held.id && end.held.value.job == held.job
      && (end.rows.jobs[held.id].cancelRequested <==> held.job.cancelRequested || CancelPending(steps, held.id))
      && (end.held.value.stopping <==> Seen(held.job.cancelRequested, steps, held.id))
      && (end.held.value.published <==> PublishedIn(steps))
  {
    if steps != [] {
      var front, last := steps[..|steps| - 1], steps[|steps| - 1];
      assert steps == front + [last];
      RunInTwo(s, front, [last]);
      StayOfJob(s, front);
      var before := Exec(s, front);
      assert [last][0] == last && [last][1..] == [];
      HeldStep(before, last);
      PublishedInMore(steps);
    }
  }

  /** At a look the request is seen exactly when the snapshot carried it, or one came after the last progress write. */
  lemma LookSeesIff(s: System, id: JobId, now: Time, steps: seq<Step>)
    requires Inv(s) && Legal(s, [Claim(id, now)] + steps + [Look]) && WhileHeld(steps)
    ensures var end := Exec(s, [Claim(id, now)] + steps + [Look]);
      end.held.Some? && (end.held.value.stopping <==> s.rows.jobs[id].cancelRequested || CancelPending(steps, id))
  {
    assert [Claim(id, now)] + steps + [Look] == [Claim(id, now)] + (steps + [Look]);
    var claimed := ClaimedThen(s, id, now, steps + [Look]);
    RunInTwo(claimed, steps, [Look]);
    StayOfJob(claimed, steps);
    assert [Look][0] == Look && [Look][1..] == [];
    HeldStep(Exec(claimed, steps), Look);
  }

  lemma ClaimedThen(s: System, id: JobId, now: Time, rest: seq<Step>) returns (claimed: System)
    requires Inv(s) && Legal(s, [Claim(id, now)] + rest)
    ensures Enabled(s, Claim(id, now)) && claimed == Apply(s, Claim(id, now)) && JustClaimed(claimed) &&
      Legal(claimed, rest)
    ensures Exec(s, [Claim(id, now)] + rest) == Exec(claimed, rest)
    ensures claimed.held.value.id == id
    ensures claimed.held.value.job.cancelRequested == s.rows.jobs[id].cancelRequested &&
      claimed.held.value.job.kind == s.rows.jobs[id].kind
  {
    assert ([Claim(id, now)] + rest)[0] == Claim(id, now) && ([Claim(id, now)] + rest)[1..] == rest;
    ClaimHolds(s, id, now);
    claimed := Apply(s, Claim(id, now));
  }

  // ---------- When a request is honoured ----------

  /**
   A claimed job that runs to success or to a stop ends cancelled exactly when some look saw the request. A retry
   drops what came meanwhile, a success erases it, and a compilation fails below its cap only because of one.
   */
  lemma CancelledIffSeen(s: System, id: JobId, now: Time, steps: seq<Step>, outcome: Outcome,
      t: Time)
    requires Inv(s) && Legal(s, [Claim(id, now)] + steps + [Finish(outcome, t)]) && WhileHeld(steps)
    ensures var flag, kind := s.rows.jobs[id].cancelRequested, s.rows.jobs[id].kind;
      var end, seen := Exec(s, [Claim(id, now)] + steps + [Finish(outcome, t)]), Seen(flag, steps, id);
      && id in end.rows.jobs && var job := end.rows.jobs[id];
      && (outcome == Success || outcome == Stopped ==>
          (job.state == Cancelled <==> seen) && (job.state == Succeeded <==> !seen))
      && (job.state == Cancelled ==> seen)
      && (seen ==> Interruptible(kind) && !PublishedIn(steps) && job.state != Succeeded)
      && (job.state == Queued ==> job.cancelRequested == flag)
      && (job.state == Succeeded ==> !job.cancelRequested)
      && (job.state == Failed && kind == Compile && job.attempt < job.maxAttempts ==> flag || CancelPending(steps, id))
  {
    var closing := Finish(outcome, t);
    assert [Claim(id, now)] + steps + [closing] == [Claim(id, now)] + (steps + [closing]);
    var claimed := ClaimedThen(s, id, now, steps + [closing]);
    RunInTwo(claimed, steps, [closing]);
    StayOfJob(claimed, steps);
    assert [closing][0] == closing && [closing][1..] == [];
  }

  /** What the consumer never looks at: maintenance work, and anything once its result is published. */
  lemma NeverLookedAt(s: System, t: Time)
    requires Inv(s) && s.held.Some?
    requires s.held.value.published || s.held.value.job.kind == Scan || s.held.value.job.kind == Cleanup
    ensures var cancelled := Apply(s, Cancel(s.held.value.id, t));
      && cancelled.rows.jobs[s.held.value.id].cancelRequested
      && !Enabled(cancelled, Look) && !Enabled(cancelled, Finish(Stopped, t)) && Enabled(cancelled, Finish(Success, t))
      && var done := Apply(cancelled, Finish(Success, t)).rows.jobs[s.held.value.id];
      done.state == Succeeded && !done.cancelRequested
  {
  }

  /** A request that lands before a progress write is out of sight of every later look. */
  lemma {:induction false} CancelIsLost(s: System, t: Time)
    requires JustClaimed(s) && Interruptible(s.held.value.job.kind) && !s.held.value.job.cancelRequested
    ensures var steps := [Cancel(s.held.value.id, t), Progress(t), Look, Publish, Finish(Success, t)];
      && Legal(s, steps) && s.held.value.id in Exec(s, steps).rows.jobs
      && Exec(s, steps).rows.jobs[s.held.value.id].state == Succeeded
  {
    var id := s.held.value.id;
    var requested := Apply(s, Cancel(id, t));
    StepKeepsInv(s, Cancel(id, t));
    StepKeepsInv(requested, Progress(t));
    FiveSteps(s, Cancel(id, t), Progress(t), Look, Publish, Finish(Success, t));
  }

  lemma FiveSteps(s: System, a: Step, b: Step, c: Step, d: Step, e: Step)
    requires Enabled(s, a) && Enabled(Apply(s, a), b) && Enabled(Apply(Apply(s, a), b), c)
    requires Enabled(Apply(Apply(Apply(s, a), b), c), d) && Enabled(Apply(Apply(Apply(Apply(s, a), b), c), d), e)
    ensures Legal(s, [a, b, c, d, e]) && Exec(s, [a, b, c, d, e]) == Apply(Apply(Apply(Apply(Apply(s, a), b), c), d), e)
  {
    var s1 := Apply(s, a);
    var s2 := Apply(s1, b);
    var s3 := Apply(s2, c);
    var s4 := Apply(s3, d);
    ExecCons(s4, e, []);
    ExecCons(s3, d, [e]);
    ExecCons(s2, c, [d, e]);
    ExecCons(s1, b, [c, d, e]);
    ExecCons(s, a, [b, c, d, e]);
    assert [e] + [] == [e] && [d] + [e] == [d, e] && [c] + [d, e] == [c, d, e];
    assert [b] + [c, d, e] == [b, c, d, e] && [a] + [b, c, d, e] == [a, b, c, d, e];
  }

  // ---------- Only what was requested is cancelled ----------

  predicate Requested(run: seq<Step>, id: JobId) {
    exists k :: 0 <= k < |run| && run[k].Cancel? && run[k].id == id
  }

  /** Some trace of a request for the job: on its row, in the consumer's snapshot, or in what it saw. */
  predicate Marked(s: System, id: JobId) {
    || (id in s.rows.jobs && (s.rows.jobs[id].cancelRequested || s.rows.jobs[id].state == Cancelled))
    || (s.held.Some? && s.held.value.id == id && (s.held.value.job.cancelRequested || s.held.value.stopping))
  }

  lemma StepMarksOnlyRequested(s: System, step: Step, id: JobId)
    requires Inv(s) && Enabled(s, step) && !Marked(s, id) && !(step.Cancel? && step.id == id)
    ensures !Marked(Apply(s, step), id)
  {
    if step.Enqueue? && Enqueued(s.rows, step.batch).Some? {
      EnqueuedAreUnmarked(s.rows, step.batch, id);
    }
  }

  lemma {:induction false} EnqueuedAreUnmarked(rows: Rows, batch: seq<NewJob>, id: JobId)
    requires Enqueued(rows, batch).Some?
    requires id in rows.jobs ==> !rows.jobs[id].cancelRequested && rows.jobs[id].state != Cancelled
    ensures var after := Enqueued(rows, batch).value.jobs;
      id in after ==> !after[id].cancelRequested && after[id].state != Cancelled
  {
    if batch != [] {
      EnqueuedAreUnmarked(rows, batch[..|batch| - 1], id);
    }
  }

  lemma {:induction false} MarkedOnlyIfRequested(s: System, run: seq<Step>, id: JobId)
    requires Inv(s) && Legal(s, run) && !Marked(s, id)
    ensures Marked(Exec(s, run), id) ==> Requested(run, id)
    decreases |run|
  {
    if run != [] && !(run[0].Cancel? && run[0].id == id) {
      StepKeepsInv(s, run[0]);
      StepMarksOnlyRequested(s, run[0], id);
      MarkedOnlyIfRequested(Apply(s, run[0]), run[1..], id);
      if Requested(run[1..], id) {
        var k :| 0 <= k < |run[1..]| && run[1..][k].Cancel? && run[1..][k].id == id;
        assert run[k + 1].Cancel? && run[k + 1].id == id;
      }
    }
  }

  /** Over any run from the empty database: a job is cancelled, or flagged, only if its cancellation was requested. */
  lemma CancelledOnlyIfRequested(run: seq<Step>, id: JobId)
    requires Legal(EMPTY, run) && id in Exec(EMPTY, run).rows.jobs
    ensures var job := Exec(EMPTY, run).rows.jobs[id];
      job.state == Cancelled || job.cancelRequested ==> Requested(run, id)
  {
    assert Inv(EMPTY);
    MarkedOnlyIfRequested(EMPTY, run, id);
  }

  /** A request on a queued job is final, and cancelling twice is cancelling once. */
  lemma CancelIsIdempotent(rows: Rows, id: JobId, t: Time, u: Time)
    requires id in rows.jobs
    ensures CancelRequested(CancelRequested(rows, id, t), id, u) == CancelRequested(rows, id, t)
    ensures rows.jobs[id].state == Queued ==> CancelRequested(rows, id, t).jobs[id].state == Cancelled
  {
  }
}
