/** The consumer object: one call of `run_once` is a claim, the work with all that arrives meanwhile, and an outcome. */
module Consumer {
  import opened ClipStates
  import opened Wrappers
  import opened JobQueue
  import opened WorkerLoop

  /** How the work on a claimed job went, when it was not stopped. */
  datatype Verdict = Good | Bad | Raised

  /** Which outcome the consumer records, given what it holds and what the row says about cancellation. */
  function OutcomeOf(held: Held, flag: bool, verdict: Verdict): Outcome {
    if verdict == Raised then if MayRetry(held.job) && !flag then Retry else Failure
    else if held.stopping then Stopped
    else if verdict == Bad || held.job.kind == Unsupported then if MayRetry(held.job) then Retry else Failure
    else Success
  }

  // ---------- What happens between the claim and the outcome ----------

  /** The consumer's progress writes and looks, and the steps of other threads. */
  ghost predicate Arrives(s: System, step: Step) {
    && (step.Progress? || step.Look? || step.Cancel? || step.Enqueue? || step.WriteClip?)
    && Enabled(s, step)
    && (step.Progress? ==> s.held.Some? && Interruptible(s.held.value.job.kind))
  }

  /** The steps a list of moments leads to; a moment that finds nothing to do leads to none. */
  ghost function Happened(s: System, moments: seq<Step>): seq<Step>
    decreases |moments|
  {
    if moments == [] then []
    else if Arrives(s, moments[0]) then [moments[0]] + Happened(Apply(s, moments[0]), moments[1..])
    else Happened(s, moments[1..])
  }

  /** The same job is still held, with the same snapshot. */
  ghost predicate StillHeld(s: System, after: System) {
    && s.held.Some? && after.held.Some?
    && after.held.value.(stopping := s.held.value.stopping) == s.held.value
  }

  lemma {:induction false} WorkIsLegal(s: System, moments: seq<Step>)
    requires Inv(s) && s.held.Some?
    ensures Legal(s, Happened(s, moments))
    ensures var after := Exec(s, Happened(s, moments)); Inv(after) && StillHeld(s, after)
    decreases |moments|
  {
    if moments != [] {
      var next := if Arrives(s, moments[0]) then Apply(s, moments[0]) else s;
      if Arrives(s, moments[0]) {
        StepKeepsInv(s, moments[0]);
        WorkIsLegal(next, moments[1..]);
        ExecCons(s, moments[0], Happened(next, moments[1..]));
      } else {
        WorkIsLegal(next, moments[1..]);
      }
    }
  }

  /** A call of `run_once`: `work` is what happens before the outcome is known, `late` what arrives while it is
      published. */
  datatype Course = Course(work: seq<Step>, verdict: Verdict, late: seq<Step>, now: Time)

  ghost function Worked(s: System, moments: seq<Step>): System
    requires Inv(s) && s.held.Some?
    ensures Inv(Worked(s, moments)) && StillHeld(s, Worked(s, moments))
  {
    WorkIsLegal(s, moments);
    Exec(s, Happened(s, moments))
  }

  lemma WorkedInTurn(s: System, moments: seq<Step>)
    requires Inv(s) && s.held.Some? && moments != []
    ensures var next := if Arrives(s, moments[0]) then Apply(s, moments[0]) else s;
      Inv(next) && next.held.Some? && Worked(s, moments) == Worked(next, moments[1..])
  {
    if Arrives(s, moments[0]) {
      var next := Apply(s, moments[0]);
      StepKeepsInv(s, moments[0]);
      WorkIsLegal(next, moments[1..]);
      ExecCons(s, moments[0], Happened(next, moments[1..]));
    }
  }

  ghost function Concluded(s: System, verdict: Verdict): Outcome
    requires Inv(s) && s.held.Some?
  {
    OutcomeOf(s.held.value, s.rows.jobs[s.held.value.id].cancelRequested, verdict)
  }

  /** Published work is followed by what arrives late; everything else is closed at once. */
  ghost predicate PublishesNext(s: System, verdict: Verdict)
    requires Inv(s) && s.held.Some?
  {
    Concluded(s, verdict) == Success && Interruptible(s.held.value.job.kind)
  }

  ghost function AfterClaim(s: System, course: Course): seq<Step>
    requires Inv(s) && s.held.Some? && !s.held.value.published
  {
    var worked := Worked(s, course.work);
    var closing := [Finish(Concluded(worked, course.verdict), course.now)];
    Happened(s, course.work) +
    if PublishesNext(worked, course.verdict) then
      [Publish] + (Happened(Apply(worked, Publish), course.late) + closing)
    else closing
  }

  /** Whatever arrives, the steps of a call are legal and end with nothing held. */
  lemma CourseIsLegal(s: System, course: Course)
    requires Inv(s) && s.held.Some? && !s.held.value.published
    ensures Legal(s, AfterClaim(s, course))
    ensures var worked := Worked(s, course.work);
      PublishesNext(worked, course.verdict) ==>
        Legal(Apply(worked, Publish), Happened(Apply(worked, Publish), course.late))
    ensures var end := Exec(s, AfterClaim(s, course));
      var worked := Worked(s, course.work);
      var last := if PublishesNext(worked, course.verdict)
                  then Exec(Apply(worked, Publish), Happened(Apply(worked, Publish), course.late)) else worked;
      && Enabled(last, Finish(Concluded(worked, course.verdict), course.now))
      && end == Apply(last, Finish(Concluded(worked, course.verdict), course.now)) && Inv(end)
  {
    var worked := Worked(s, course.work);
    WorkIsLegal(s, course.work);
    var closing := Finish(Concluded(worked, course.verdict), course.now);
    assert [closing] + [] == [closing];
    if PublishesNext(worked, course.verdict) {
      var published := Apply(worked, Publish);
      StepKeepsInv(worked, Publish);
      WorkIsLegal(published, course.late);
      var late := Happened(published, course.late);
      var last := Exec(published, late);
      ExecCons(last, closing, []);
      RunInTwo(published, late, [closing]);
      ExecCons(worked, Publish, late + [closing]);
      RunInTwo(s, Happened(s, course.work), [Publish] + (late + [closing]));
      StepKeepsInv(last, closing);
    } else {
      ExecCons(worked, closing, []);
      RunInTwo(s, Happened(s, course.work), [closing]);
      StepKeepsInv(worked, closing);
    }
  }

  // ---------- Call after call ----------

  function QueuedJobs(jobs: map<JobId, Job>): set<JobId> {
    set id | id in jobs && jobs[id].state == Queued
  }

  lemma FirstIsClaimable(s: System, now: Time)
    requires Inv(s) && s.held.None? && QueuedJobs(s.rows.jobs) != {}
    ensures Enabled(s, Step.Claim(FirstOf(s.rows.jobs, QueuedJobs(s.rows.jobs)), now))
  {
    var first := FirstOf(s.rows.jobs, QueuedJobs(s.rows.jobs));
    forall id | id in s.rows.jobs && s.rows.jobs[id].state == Queued ensures Earlier(s.rows.jobs, first, id) {
      assert id in QueuedJobs(s.rows.jobs);
    }
  }

  lemma ClaimableIsFirst(s: System, id: JobId, now: Time)
    requires Enabled(s, Step.Claim(id, now))
    ensures id in QueuedJobs(s.rows.jobs) && id == FirstOf(s.rows.jobs, QueuedJobs(s.rows.jobs))
  {
    assert id in QueuedJobs(s.rows.jobs);
    var first := FirstOf(s.rows.jobs, QueuedJobs(s.rows.jobs));
    assert Earlier(s.rows.jobs, first, id) && Earlier(s.rows.jobs, id, first);
  }

  /** One call: the first queued job is claimed and followed through, or nothing happens. */
  ghost function Called(s: System, course: Course): (after: System)
    requires Inv(s) && s.held.None?
    ensures Inv(after) && after.held.None?
  {
    var queued := QueuedJobs(s.rows.jobs);
    if queued == {} then s else
      FirstIsClaimable(s, course.now);
      var claim := Step.Claim(FirstOf(s.rows.jobs, queued), course.now);
      StepKeepsInv(s, claim);
      CourseIsLegal(Apply(s, claim), course);
      Exec(Apply(s, claim), AfterClaim(Apply(s, claim), course))
  }

  ghost function Served(s: System, courses: seq<Course>): (after: System)
    requires Inv(s) && s.held.None?
    ensures Inv(after) && after.held.None?
    decreases |courses|
  {
    if courses == [] then s else Served(Called(s, courses[0]), courses[1..])
  }

  predicate NoEnqueues(steps: seq<Step>) {
    forall k :: 0 <= k < |steps| ==> !steps[k].Enqueue?
  }

  predicate NothingNew(course: Course) {
    NoEnqueues(course.work) && NoEnqueues(course.late)
  }

  lemma {:induction false} NoIncome(steps: seq<Step>)
    requires NoEnqueues(steps)
    ensures Income(steps) == 0
  {
    if steps != [] {
      NoIncome(steps[1..]);
    }
  }

  lemma {:induction false} HappenedIsNothingNew(s: System, moments: seq<Step>)
    requires NoEnqueues(moments)
    ensures NoEnqueues(Happened(s, moments))
    decreases |moments|
  {
    if moments != [] {
      HappenedIsNothingNew(if Arrives(s, moments[0]) then Apply(s, moments[0]) else s, moments[1..]);
    }
  }

  lemma AfterClaimIsNothingNew(claimed: System, course: Course)
    requires Inv(claimed) && claimed.held.Some? && !claimed.held.value.published && NothingNew(course)
    ensures NoEnqueues(AfterClaim(claimed, course))
  {
    var worked := Worked(claimed, course.work);
    HappenedIsNothingNew(claimed, course.work);
    if PublishesNext(worked, course.verdict) {
      HappenedIsNothingNew(Apply(worked, Publish), course.late);
    }
  }

  lemma RunSpendsNothing(s: System, run: seq<Step>)
    requires Inv(s) && Legal(s, run) && NoEnqueues(run)
    ensures Budget(Exec(s, run).rows.jobs) <= Budget(s.rows.jobs)
  {
    NoIncome(run);
    ClaimsAreBounded(s, run);
  }

  lemma CallSpends(s: System, course: Course)
    requires Inv(s) && s.held.None? && QueuedJobs(s.rows.jobs) != {} && NothingNew(course)
    ensures Budget(Called(s, course).rows.jobs) < Budget(s.rows.jobs)
  {
    FirstIsClaimable(s, course.now);
    var claim := Step.Claim(FirstOf(s.rows.jobs, QueuedJobs(s.rows.jobs)), course.now);
    StepKeepsInv(s, claim);
    StepSpends(s, claim);
    var claimed := Apply(s, claim);
    CourseIsLegal(claimed, course);
    AfterClaimIsNothingNew(claimed, course);
    RunSpendsNothing(claimed, AfterClaim(claimed, course));
  }

  ghost predicate Drained(jobs: map<JobId, Job>) {
    forall id :: id in jobs ==> !jobs[id].Active()
  }

  lemma NoBudgetNoActive(s: System)
    requires Inv(s) && s.held.None? && Budget(s.rows.jobs) == 0
    ensures Drained(s.rows.jobs)
  {
    var allowances := map id | id in s.rows.jobs :: Allowance(s.rows.jobs[id]);
    forall id | id in s.rows.jobs ensures !s.rows.jobs[id].Active() {
      SumSplit(allowances, id);
      assert allowances[id] == 0;
    }
  }

  lemma NoneQueuedNoneActive(s: System)
    requires Inv(s) && s.held.None? && QueuedJobs(s.rows.jobs) == {}
    ensures Drained(s.rows.jobs)
  {
    forall id | id in s.rows.jobs ensures !s.rows.jobs[id].Active() {
      assert id !in QueuedJobs(s.rows.jobs);
    }
  }

  /** Without new jobs, as many calls as there are attempts left empty the queue, whatever else arrives meanwhile. */
  lemma {:induction false} ServingDrainsTheQueue(s: System, courses: seq<Course>)
    requires Inv(s) && s.held.None? && |courses| >= Budget(s.rows.jobs)
    requires forall course :: course in courses ==> NothingNew(course)
    ensures Drained(Served(s, courses).rows.jobs)
    decreases |courses|
  {
    if QueuedJobs(s.rows.jobs) == {} {
      NoneQueuedNoneActive(s);
      IdleCallsChangeNothing(s, courses);
    } else if courses == [] {
      NoBudgetNoActive(s);
    } else {
      assert courses[0] in courses && forall course :: course in courses[1..] ==> course in courses;
      CallSpends(s, courses[0]);
      ServingDrainsTheQueue(Called(s, courses[0]), courses[1..]);
    }
  }

  lemma {:induction false} IdleCallsChangeNothing(s: System, courses: seq<Course>)
    requires Inv(s) && s.held.None? && QueuedJobs(s.rows.jobs) == {}
    ensures Served(s, courses) == s
    decreases |courses|
  {
    if courses != [] {
      IdleCallsChangeNothing(s, courses[1..]);
    }
  }

  class JobWorker {
    const queue: PersistentJobQueue
    var held: Option<Held>

    constructor (queue: PersistentJobQueue)
      ensures this.queue == queue && held.None?
    {
      this.queue := queue;
      held := None;
    }

    ghost function State(): System
      reads this, queue
    {
      System(queue.Contents(), held)
    }

    method Claim(now: Time) returns (claimed: Option<JobId>)
      requires held.None?
      modifies this, queue
      ensures claimed.None? ==> State() == old(State())
      ensures claimed.None? ==> !Idle(queue.jobs) || QueuedJobs(queue.jobs) == {}
      ensures claimed.Some? ==> Enabled(old(State()), Step.Claim(claimed.value, now))
      ensures claimed.Some? ==> State() == Apply(old(State()), Step.Claim(claimed.value, now))
    {
      claimed := queue.ClaimNext(now);
      if claimed.Some? {
        held := Some(Held(claimed.value, queue.jobs[claimed.value], false, false));
      }
    }

    method WriteProgress(now: Time)
      requires Enabled(State(), Progress(now))
      modifies queue
      ensures State() == Apply(old(State()), Progress(now))
    {
      var _ := queue.Update(held.value.id, held.value.job, now);
    }

    /** `_cancelled`: the consumer reads the flag of the row, not of its snapshot. */
    method LookForCancel()
      requires Enabled(State(), Look)
      modifies this
      ensures State() == Apply(old(State()), Look)
    {
      held := Some(held.value.(stopping := queue.jobs[held.value.id].cancelRequested));
    }

    method PublishResult()
      requires Enabled(State(), Publish)
      modifies this, queue
      ensures State() == Apply(old(State()), Publish)
    {
      queue.clips := Published(queue.clips, held.value.job);
      held := Some(held.value.(published := true));
    }

    method Close(outcome: Outcome, now: Time)
      requires Enabled(State(), Finish(outcome, now))
      modifies this, queue
      ensures State() == Apply(old(State()), Finish(outcome, now))
    {
      var _ := queue.Update(held.value.id, Closing(held.value.job, outcome, now), now);
      held := None;
    }

    /** One moment of the work: the consumer's own doing, or another thread's. */
    method Pass(step: Step)
      requires Inv(State()) && held.Some?
      modifies this, queue
      ensures State() == if Arrives(old(State()), step) then Apply(old(State()), step) else old(State())
    {
      var job := held.value.job;
      match step {
        case Progress(now) =>
          if Interruptible(job.kind) { WriteProgress(now); }
        case Look =>
          if Interruptible(job.kind) && !held.value.published && !held.value.stopping { LookForCancel(); }
        case Cancel(id, now) =>
          var _ := queue.RequestCancel(id, now);
        case Enqueue(batch) =>
          var _ := queue.EnqueueMany(batch);
        case WriteClip(clip, row) =>
          queue.clips := queue.clips[clip := row];
        case _ =>
      }
    }

    method Work(moments: seq<Step>)
      requires Inv(State()) && held.Some?
      modifies this, queue
      ensures State() == Worked(old(State()), moments)
    {
      ghost var start := State();
      for k := 0 to |moments|
        invariant Inv(State()) && held.Some?
        invariant Worked(State(), moments[k..]) == Worked(start, moments)
      {
        WorkedInTurn(State(), moments[k..]);
        assert moments[k..][0] == moments[k] && moments[k..][1..] == moments[k + 1..];
        Pass(moments[k]);
      }
    }

    /** Every call is a legal run of the state machine, ends idle, and retries only below the cap. */
    method RunOnce(course: Course) returns (claimed: Option<JobId>, retryScheduled: bool)
      requires held.None? && Inv(State())
      modifies this, queue
      ensures held.None? && Inv(State())
      ensures State() == Called(old(State()), course)
      ensures claimed.None? ==> State() == old(State()) && !retryScheduled
      ensures claimed.Some? ==> claimed.value in old(queue.jobs) && claimed.value in queue.jobs
      ensures claimed.Some? ==> Enabled(old(State()), Step.Claim(claimed.value, course.now))
      ensures claimed.Some? ==>
                var start := Apply(old(State()), Step.Claim(claimed.value, course.now));
                && Inv(start) && !start.held.value.published && Legal(start, AfterClaim(start, course))
                && State() == Exec(start, AfterClaim(start, course))
      ensures claimed.Some? ==> (retryScheduled <==> queue.jobs[claimed.value].state == Queued)
      ensures retryScheduled ==> queue.jobs[claimed.value].attempt < queue.jobs[claimed.value].maxAttempts
      ensures claimed.Some? && !retryScheduled ==> !queue.jobs[claimed.value].Active()
    {
      ghost var before := State();
      claimed := Claim(course.now);
      retryScheduled := false;
      if claimed.None? {
        return;
      }
      ClaimableIsFirst(before, claimed.value, course.now);
      StepKeepsInv(before, Step.Claim(claimed.value, course.now));
      retryScheduled := FollowThrough(course);
    }

    /** From the claim to the outcome. */
    method FollowThrough(course: Course) returns (retryScheduled: bool)
      requires Inv(State()) && held.Some? && !held.value.published
      modifies this, queue
      ensures held.None? && Inv(State())
      ensures Legal(old(State()), AfterClaim(old(State()), course))
      ensures State() == Exec(old(State()), AfterClaim(old(State()), course))
      ensures var id := old(held).value.id;
        && id in queue.jobs && (retryScheduled <==> queue.jobs[id].state == Queued)
        && (retryScheduled ==> queue.jobs[id].attempt < queue.jobs[id].maxAttempts)
        && (!retryScheduled ==> !queue.jobs[id].Active())
    {
      CourseIsLegal(State(), course);
      Work(course.work);
      var outcome := OutcomeOf(held.value, queue.jobs[held.value.id].cancelRequested, course.verdict);
      retryScheduled := outcome == Retry;
      if outcome == Success && Interruptible(held.value.job.kind) {
        ghost var worked := State();
        PublishResult();
        StepKeepsInv(worked, Publish);
        Work(course.late);
      }
      Close(outcome, course.now);
    }

    /** The consumer's loop, for as many rounds as there are courses. */
    method Consume(courses: seq<Course>)
      requires held.None? && Inv(State())
      modifies this, queue
      ensures held.None? && State() == Served(old(State()), courses)
    {
      for k := 0 to |courses|
        invariant held.None? && Inv(State())
        invariant Served(State(), courses[k..]) == Served(old(State()), courses)
      {
        assert courses[k..][0] == courses[k] && courses[k..][1..] == courses[k + 1..];
        var _, _ := RunOnce(courses[k]);
      }
    }
  }
}
