/**
 What one call of the consumer leaves behind, on the rows before and after it: the end of the claimed job, its
 flags, and the state of its clip, whatever arrives meanwhile.
 */
module CallOutcomes {
  import opened Cancellation
  import opened ClipStates
  import opened Consumer
  import opened JobQueue
  import opened QueueEffects
  import opened WorkerLoop
  import opened Wrappers

  ghost function AsClaimed(s: System, id: JobId, now: Time): System
    requires Inv(s) && Enabled(s, Step.Claim(id, now))
  {
    Apply(s, Step.Claim(id, now))
  }

  /** What arrives while the consumer works on the job. */
  ghost function Arrivals(s: System, id: JobId, course: Course): seq<Step>
    requires Inv(s) && Enabled(s, Step.Claim(id, course.now))
  {
    Happened(AsClaimed(s, id, course.now), course.work)
  }

  lemma {:induction false} HappenedWhileHeld(s: System, moments: seq<Step>)
    ensures WhileHeld(Happened(s, moments)) && !PublishedIn(Happened(s, moments))
    decreases |moments|
  {
    if moments != [] {
      HappenedWhileHeld(if Arrives(s, moments[0]) then Apply(s, moments[0]) else s, moments[1..]);
    }
  }

  /** Arrivals that can all happen, one after the other, all do. */
  lemma {:induction false} PossibleArrivalsHappen(s: System, moments: seq<Step>)
    requires Inv(s) && s.held.Some? && Interruptible(s.held.value.job.kind) && Legal(s, moments)
    requires forall m :: m in moments ==> m.Progress? || m.Look? || m.Cancel? || m.Enqueue? || m.WriteClip?
    ensures Happened(s, moments) == moments
    decreases |moments|
  {
    if moments != [] {
      assert moments[0] in moments && forall m :: m in moments[1..] ==> m in moments;
      StepKeepsInv(s, moments[0]);
      HeldStep(s, moments[0]);
      PossibleArrivalsHappen(Apply(s, moments[0]), moments[1..]);
    }
  }

  // ---------- The claimed job ----------

  /** How a claimed job may end: `flagged` if its row asks for a cancel, `seen` if a look saw that. */
  predicate Decided(state: JobState, was: Job, flagged: bool, seen: bool, verdict: Verdict) {
    var again := was.kind == Compile && was.attempt + 1 < was.maxAttempts;
    && state != Running
    && (state == Succeeded <==> verdict == Good && !seen && was.kind != Unsupported)
    && (state == Cancelled <==> verdict != Raised && seen)
    && (state == Queued <==> again && ((verdict == Bad && !seen) || (verdict == Raised && !flagged)))
  }

  /** The call claims the first job in line, and nothing when none is queued. */
  lemma CallTakesTheFirst(s: System, course: Course, id: JobId)
    requires Inv(s) && s.held.None? && Enabled(s, Step.Claim(id, course.now))
    ensures QueuedJobs(s.rows.jobs) != {} && FirstOf(s.rows.jobs, QueuedJobs(s.rows.jobs)) == id
    ensures var claimed := AsClaimed(s, id, course.now);
      && JustClaimed(claimed) && Legal(claimed, AfterClaim(claimed, course))
      && Called(s, course) == Exec(claimed, AfterClaim(claimed, course))
  {
    ClaimableIsFirst(s, id, course.now);
    ClaimHolds(s, id, course.now);
    CourseIsLegal(AsClaimed(s, id, course.now), course);
  }

  /** What the consumer has in hand when the work is over, and what the row then says. */
  lemma AfterWork(s: System, course: Course, id: JobId)
    requires Inv(s) && s.held.None? && Enabled(s, Step.Claim(id, course.now))
    ensures JustClaimed(AsClaimed(s, id, course.now))
    ensures var claimed := AsClaimed(s, id, course.now);
      var steps, was := Arrivals(s, id, course), s.rows.jobs[id];
      var worked := Worked(claimed, course.work);
      && worked.held.value.id == id && !worked.held.value.published
      && worked.held.value.job == was.(state := Running, started := Some(course.now), attempt := was.attempt + 1)
      && (worked.held.value.stopping <==> Seen(was.cancelRequested, steps, id))
      && (worked.rows.jobs[id].cancelRequested <==> was.cancelRequested || CancelPending(steps, id))
  {
    var claimed := AsClaimed(s, id, course.now);
    ClaimHolds(s, id, course.now);
    WorkIsLegal(claimed, course.work);
    HappenedWhileHeld(claimed, course.work);
    StayOfJob(claimed, Arrivals(s, id, course));
  }

  /** The system in which the consumer records the outcome of the work. */
  ghost function Closed(worked: System, verdict: Verdict, late: seq<Step>): System
    requires Inv(worked) && worked.held.Some? && !worked.held.value.published
  {
    if PublishesNext(worked, verdict) then
      var published := Apply(worked, Publish);
      StepKeepsInv(worked, Publish);
      Worked(published, late)
    else worked
  }

  lemma CallCloses(s: System, course: Course, id: JobId)
    requires Inv(s) && s.held.None? && Enabled(s, Step.Claim(id, course.now))
    ensures var claimed := AsClaimed(s, id, course.now);
      && JustClaimed(claimed) && var worked := Worked(claimed, course.work);
      && !worked.held.value.published
      && var last := Closed(worked, course.verdict, course.late);
      var closing := Finish(Concluded(worked, course.verdict), course.now);
      && last.held.Some? && last.held.value.id == id && last.held.value.job == worked.held.value.job
      && Inv(last) && Enabled(last, closing) && Called(s, course) == Apply(last, closing)
  {
    CallTakesTheFirst(s, course, id);
    AfterWork(s, course, id);
    var claimed := AsClaimed(s, id, course.now);
    CourseIsLegal(claimed, course);
    var worked := Worked(claimed, course.work);
    if PublishesNext(worked, course.verdict) {
      StepKeepsInv(worked, Publish);
      WorkIsLegal(Apply(worked, Publish), course.late);
    }
  }

  /** The row of a job whose call is over. */
  predicate EndsAs(job: Job, was: Job, now: Time) {
    && job.attempt == was.attempt + 1 && job.maxAttempts == was.maxAttempts
    && job.kind == was.kind && job.fingerprint == was.fingerprint && job.created == was.created
    && if job.state == Queued then
         job.started.None? && job.finished.None? && job.cancelRequested == was.cancelRequested
       else
         job.started == job.finished == Some(now) && (job.cancelRequested <==> job.state == Cancelled)
  }

  lemma ConcludedIsTheEnd(worked: System, was: Job, now: Time, verdict: Verdict)
    requires Inv(worked) && worked.held.Some? && !worked.held.value.published && was.finished.None?
    requires worked.held.value.job == was.(state := Running, started := Some(now), attempt := was.attempt + 1)
    ensures var held := worked.held.value;
      var closing := Closing(held.job, Concluded(worked, verdict), now);
      && EndsAs(closing, was, now)
      && Decided(closing.state, was, worked.rows.jobs[held.id].cancelRequested, held.stopping, verdict)
  {
  }

  lemma CallRecords(s: System, course: Course, id: JobId)
    requires Inv(s) && s.held.None? && Enabled(s, Step.Claim(id, course.now))
    ensures JustClaimed(AsClaimed(s, id, course.now))
    ensures var worked := Worked(AsClaimed(s, id, course.now), course.work);
      && !worked.held.value.published && id in Called(s, course).rows.jobs
      && Called(s, course).rows.jobs[id] ==
           Closing(worked.held.value.job, Concluded(worked, course.verdict), course.now)
  {
    CallCloses(s, course, id);
  }

  /**
   One call decides the claimed job by the verdict of its work, by what its row asks for and by what a look saw.
   Good work of a supported kind succeeds; failed work and an exception are tried again only for a compilation below
   its cap, an exception moreover only while no cancel is asked for; a seen request cancels unless work raised.
   */
  lemma CallDecidesJob(s: System, course: Course, id: JobId)
    requires Inv(s) && s.held.None? && Enabled(s, Step.Claim(id, course.now))
    ensures id in Called(s, course).rows.jobs
    ensures var was, job := s.rows.jobs[id], Called(s, course).rows.jobs[id];
      var steps := Arrivals(s, id, course);
      var flagged, seen := was.cancelRequested || CancelPending(steps, id), Seen(was.cancelRequested, steps, id);
      EndsAs(job, was, course.now) && Decided(job.state, was, flagged, seen, course.verdict)
  {
    AfterWork(s, course, id);
    CallRecords(s, course, id);
    ConcludedIsTheEnd(Worked(AsClaimed(s, id, course.now), course.work), s.rows.jobs[id], course.now, course.verdict);
  }

  // ---------- The clip of the claimed job ----------

  /** No other compile job of the clip is active but those that were. */
  ghost predicate Bystanders(was: map<JobId, Job>, now: map<JobId, Job>, id: JobId, clip: ClipId) {
    forall j :: j in now && j != id && now[j].Compiles(clip) ==> j in was && was[j].Compiles(clip)
  }

  /** The arrival is not about the clip: no new job of it, no write of it, no cancel of another job that compiles it. */
  predicate Spares(was: map<JobId, Job>, m: Step, id: JobId, clip: ClipId) {
    match m
    case Enqueue(batch) => forall k :: 0 <= k < |batch| ==> batch[k].fingerprint.clip != clip
    case WriteClip(written, _) => written != clip
    case Cancel(j, _) => j != id && j in was ==> !was[j].Compiles(clip)
    case _ => true
  }

  lemma SparedArrival(was: map<JobId, Job>, s: System, m: Step, id: JobId, clip: ClipId)
    requires Inv(s) && s.held.Some? && s.held.value.id == id && Arrives(s, m) && Spares(was, m, id, clip)
    requires Bystanders(was, s.rows.jobs, id, clip) && clip in s.rows.clips
    ensures var after := Apply(s, m);
      && Bystanders(was, after.rows.jobs, id, clip)
      && clip in after.rows.clips && after.rows.clips[clip] == s.rows.clips[clip]
  {
    if m.Enqueue? && Enqueued(s.rows, m.batch).Some? {
      EnqueuedKeeps(s.rows, m.batch);
      EnqueuedAsRequested(s.rows, m.batch);
    }
  }

  lemma {:induction false} SparedArrivals(was: map<JobId, Job>, s: System, moments: seq<Step>, id: JobId, clip: ClipId)
    requires Inv(s) && s.held.Some? && s.held.value.id == id && Bystanders(was, s.rows.jobs, id, clip)
    requires clip in s.rows.clips && forall m :: m in moments ==> Spares(was, m, id, clip)
    ensures var after := Worked(s, moments);
      && Bystanders(was, after.rows.jobs, id, clip)
      && clip in after.rows.clips && after.rows.clips[clip] == s.rows.clips[clip]
    decreases |moments|
  {
    if moments == [] {
      assert Happened(s, moments) == [];
    } else {
      assert moments[0] in moments && forall m :: m in moments[1..] ==> m in moments;
      WorkedInTurn(s, moments);
      if Arrives(s, moments[0]) {
        SparedArrival(was, s, moments[0], id, clip);
        HeldStep(s, moments[0]);
        SparedArrivals(was, Apply(s, moments[0]), moments[1..], id, clip);
      } else {
        SparedArrivals(was, s, moments[1..], id, clip);
      }
    }
  }

  /** What a call makes of a clip nothing else is about, given the job and the state it ended in. */
  function ClipAfter(row: ClipRow, clip: ClipId, job: Job, end: JobState): ClipRow {
    if job.fingerprint.clip != clip then row else
      match job.kind
      case Compile =>
        (match end
         case Succeeded => ClipRow(Ready, true)
         case Queued => ClipRow(Pending, row.outputAvailable)
         case Failed => ClipRow(Broken, row.outputAvailable)
         case _ => ClipRow(if row.outputAvailable then Stale else Discovered, row.outputAvailable))
      case Edit => if end == Succeeded then ClipRow(Discovered, row.outputAvailable) else row
      case _ => row
  }

  /** The clip before the outcome is recorded: made ready or discovered by a publication, untouched otherwise. */
  function ClipBefore(row: ClipRow, clip: ClipId, job: Job, published: bool): ClipRow {
    if job.fingerprint.clip != clip then row
    else if job.kind == Compile then if published then ClipRow(Ready, true) else ClipRow(Compiling, row.outputAvailable)
    else if job.kind == Edit && published then ClipRow(Discovered, row.outputAvailable) else row
  }

  lemma PublishingSettlesClip(worked: System, course: Course, id: JobId, was: map<JobId, Job>, row: ClipRow,
      clip: ClipId)
    requires Inv(worked) && worked.held.Some? && !worked.held.value.published && worked.held.value.id == id
    requires clip in worked.rows.clips && Bystanders(was, worked.rows.jobs, id, clip)
    requires forall m :: m in course.late ==> Spares(was, m, id, clip)
    requires worked.rows.clips[clip] == ClipBefore(row, clip, worked.held.value.job, false)
    ensures var last := Closed(worked, course.verdict, course.late);
      clip in last.rows.clips && last.rows.clips[clip] ==
        ClipBefore(row, clip, worked.held.value.job, Concluded(worked, course.verdict) == Success)
  {
    if PublishesNext(worked, course.verdict) {
      StepKeepsInv(worked, Publish);
      SparedArrivals(was, Apply(worked, Publish), course.late, id, clip);
    }
  }

  lemma OutcomeSettlesClip(last: System, outcome: Outcome, now: Time, row: ClipRow, clip: ClipId)
    requires Inv(last) && last.held.Some? && Enabled(last, Finish(outcome, now)) && clip in last.rows.clips
    requires last.rows.clips[clip] == ClipBefore(row, clip, last.held.value.job, outcome == Success)
    ensures var after := Apply(last, Finish(outcome, now)).rows;
      && clip in after.clips && last.held.value.id in after.jobs
      && after.clips[clip] == ClipAfter(row, clip, last.held.value.job, after.jobs[last.held.value.id].state)
  {
    FinishSettlesClip(last, Finish(outcome, now), clip);
  }

  lemma ClaimIsAboutItsClip(s: System, id: JobId, now: Time, clip: ClipId)
    requires Inv(s) && Enabled(s, Step.Claim(id, now)) && clip in s.rows.clips
    ensures var claimed := AsClaimed(s, id, now);
      && Bystanders(s.rows.jobs, claimed.rows.jobs, id, clip)
      && clip in claimed.rows.clips
      && claimed.rows.clips[clip] ==
           if s.rows.jobs[id].kind == Compile && s.rows.jobs[id].fingerprint.clip == clip
           then ClipRow(Compiling, s.rows.clips[clip].outputAvailable) else s.rows.clips[clip]
  {
  }

  /**
   One call and the clips: a compilation leaves its clip ready with an output exactly if it succeeded, waiting if it is
   to be tried again, failed or released otherwise, with the output it had; an edit that succeeded sends its clip back
   to be compiled; every other clip stands still.
   */
  lemma CallSettlesClips(s: System, course: Course, id: JobId, clip: ClipId)
    requires Inv(s) && s.held.None? && Enabled(s, Step.Claim(id, course.now)) && clip in s.rows.clips
    requires forall m :: m in course.work + course.late ==> Spares(s.rows.jobs, m, id, clip)
    ensures var after := Called(s, course).rows;
      && id in after.jobs && clip in after.clips
      && after.clips[clip] == ClipAfter(s.rows.clips[clip], clip, s.rows.jobs[id], after.jobs[id].state)
  {
    assert forall m :: m in course.work ==> m in course.work + course.late;
    assert forall m :: m in course.late ==> m in course.work + course.late;
    var claimed, was := AsClaimed(s, id, course.now), s.rows.jobs;
    AfterWork(s, course, id);
    CallCloses(s, course, id);
    ClaimIsAboutItsClip(s, id, course.now, clip);
    SparedArrivals(was, claimed, course.work, id, clip);
    var worked := Worked(claimed, course.work);
    PublishingSettlesClip(worked, course, id, was, s.rows.clips[clip], clip);
    var last := Closed(worked, course.verdict, course.late);
    OutcomeSettlesClip(last, Concluded(worked, course.verdict), course.now, s.rows.clips[clip], clip);
  }

  // ---------- Work that keeps failing ----------

  /** Work that fails or raises, while nobody cancels or enqueues anything. */
  predicate FailsUndisturbed(course: Course) {
    course.verdict != Good && forall m :: m in course.work ==> Quiet(m)
  }

  predicate Quiet(m: Step) {
    m.Progress? || m.Look? || m.WriteClip?
  }

  ghost predicate OthersStand(was: map<JobId, Job>, now: map<JobId, Job>, id: JobId) {
    now.Keys == was.Keys && forall j :: j in was && j != id ==> now[j] == was[j]
  }

  lemma QuietStep(s: System, m: Step)
    requires Inv(s) && s.held.Some? && Arrives(s, m) && Quiet(m)
    ensures OthersStand(s.rows.jobs, Apply(s, m).rows.jobs, s.held.value.id)
  {
  }

  /** Progress writes, looks and clip writes leave every other job alone. */
  lemma {:induction false} QuietWork(s: System, moments: seq<Step>, id: JobId)
    requires Inv(s) && s.held.Some? && s.held.value.id == id
    requires forall m :: m in moments ==> Quiet(m)
    ensures OthersStand(s.rows.jobs, Worked(s, moments).rows.jobs, id)
    decreases |moments|
  {
    if moments == [] {
      assert Happened(s, moments) == [];
    } else {
      assert moments[0] in moments && forall m :: m in moments[1..] ==> m in moments;
      WorkedInTurn(s, moments);
      if Arrives(s, moments[0]) {
        QuietStep(s, moments[0]);
        HeldStep(s, moments[0]);
        QuietWork(Apply(s, moments[0]), moments[1..], id);
      } else {
        QuietWork(s, moments[1..], id);
      }
    }
  }

  lemma {:induction false} QuietMomentsAskNothing(s: System, moments: seq<Step>)
    requires forall m :: m in moments ==> Quiet(m)
    ensures forall k :: 0 <= k < |Happened(s, moments)| ==> !Happened(s, moments)[k].Cancel?
    decreases |moments|
  {
    if moments != [] {
      assert moments[0] in moments && forall m :: m in moments[1..] ==> m in moments;
      QuietMomentsAskNothing(if Arrives(s, moments[0]) then Apply(s, moments[0]) else s, moments[1..]);
    }
  }

  lemma {:induction false} NoCancelNothingSeen(steps: seq<Step>, id: JobId)
    requires forall k :: 0 <= k < |steps| ==> !steps[k].Cancel?
    ensures !CancelPending(steps, id) && !Seen(false, steps, id)
  {
    if steps != [] {
      NoCancelNothingSeen(steps[..|steps| - 1], id);
    }
  }

  lemma ClaimLeavesOthers(s: System, id: JobId, now: Time)
    requires Inv(s) && Enabled(s, Step.Claim(id, now))
    ensures OthersStand(s.rows.jobs, AsClaimed(s, id, now).rows.jobs, id)
  {
  }

  lemma FinishLeavesOthers(last: System, outcome: Outcome, now: Time)
    requires Inv(last) && last.held.Some? && Enabled(last, Finish(outcome, now))
    ensures OthersStand(last.rows.jobs, Apply(last, Finish(outcome, now)).rows.jobs, last.held.value.id)
  {
  }

  lemma FailureIsNotPublished(worked: System, course: Course)
    requires Inv(worked) && worked.held.Some? && !worked.held.value.published && course.verdict != Good
    ensures Closed(worked, course.verdict, course.late) == worked
  {
  }

  lemma OthersStandThroughout(s: System, course: Course, id: JobId)
    requires Inv(s) && s.held.None? && Enabled(s, Step.Claim(id, course.now)) && FailsUndisturbed(course)
    ensures OthersStand(s.rows.jobs, Called(s, course).rows.jobs, id)
  {
    var claimed := AsClaimed(s, id, course.now);
    AfterWork(s, course, id);
    CallCloses(s, course, id);
    var worked := Worked(claimed, course.work);
    ClaimLeavesOthers(s, id, course.now);
    QuietWork(claimed, course.work, id);
    FailureIsNotPublished(worked, course);
    FinishLeavesOthers(worked, Concluded(worked, course.verdict), course.now);
  }

  lemma StaysFirst(was: map<JobId, Job>, now: map<JobId, Job>, id: JobId)
    requires NextInLine(was, id) && OthersStand(was, now, id)
    requires now[id].state == Queued && now[id].created == was[id].created
    ensures NextInLine(now, id)
  {
  }

  /** One failed try: the job is queued again, or failed at its cap, and every other row stands still. */
  lemma FailedTry(s: System, course: Course, id: JobId)
    requires Inv(s) && s.held.None? && NextInLine(s.rows.jobs, id) && FailsUndisturbed(course)
    requires s.rows.jobs[id].kind == Compile && !s.rows.jobs[id].cancelRequested
    ensures var was, after := s.rows.jobs, Called(s, course).rows.jobs;
      && OthersStand(was, after, id) && id in after && EndsAs(after[id], was[id], course.now)
      && after[id].state == if was[id].attempt + 1 < was[id].maxAttempts then Queued else Failed
  {
    assert Enabled(s, Step.Claim(id, course.now));
    CallDecidesJob(s, course, id);
    OthersStandThroughout(s, course, id);
    QuietMomentsAskNothing(AsClaimed(s, id, course.now), course.work);
    NoCancelNothingSeen(Arrivals(s, id, course), id);
  }

  /** A compilation that keeps failing is claimed until its cap and then failed; nothing else is claimed before. */
  lemma {:induction false} TriedToItsCap(s: System, id: JobId, courses: seq<Course>)
    requires Inv(s) && s.held.None? && NextInLine(s.rows.jobs, id)
    requires s.rows.jobs[id].kind == Compile && !s.rows.jobs[id].cancelRequested
    requires |courses| <= s.rows.jobs[id].maxAttempts - s.rows.jobs[id].attempt
    requires forall course :: course in courses ==> FailsUndisturbed(course)
    ensures var was, end := s.rows.jobs, Served(s, courses).rows.jobs;
      && OthersStand(was, end, id) && id in end && end[id].attempt == was[id].attempt + |courses|
      && end[id].state == if end[id].attempt < was[id].maxAttempts then Queued else Failed
    decreases |courses|
  {
    if courses != [] {
      assert courses[0] in courses && forall course :: course in courses[1..] ==> course in courses;
      FailedTry(s, courses[0], id);
      var after := Called(s, courses[0]);
      if |courses| > 1 {
        StaysFirst(s.rows.jobs, after.rows.jobs, id);
        TriedToItsCap(after, id, courses[1..]);
      }
    }
  }

  lemma OnlyRequestIsFirst(s: System, request: NewJob)
    requires Inv(s) && s.held.None? && (forall id :: id in s.rows.jobs ==> !s.rows.jobs[id].Active())
    requires request.id !in s.rows.jobs
    ensures var jobs := Apply(s, Enqueue([request])).rows.jobs;
      request.id in jobs && NextInLine(jobs, request.id) && IsFreshRowOf(jobs[request.id], request)
  {
    var batch := [request];
    assert batch[..0] == [] && Enqueued(s.rows, batch[..0]) == Some(s.rows);
    EnqueuedAsRequested(s.rows, batch);
    EnqueuedKeeps(s.rows, batch);
  }

  /** From the request on: enqueued into an idle queue, tried exactly as often as the request says, and then failed. */
  lemma RequestIsTriedAsOften(s: System, request: NewJob, courses: seq<Course>)
    requires Inv(s) && s.held.None? && (forall id :: id in s.rows.jobs ==> !s.rows.jobs[id].Active())
    requires request.kind == Compile && request.id !in s.rows.jobs && |courses| <= request.maxAttempts
    requires forall course :: course in courses ==> FailsUndisturbed(course)
    ensures var enqueued := Apply(s, Enqueue([request]));
      && Inv(enqueued) && request.id in enqueued.rows.jobs
      && var end := Served(enqueued, courses).rows;
      && request.id in end.jobs && end.jobs[request.id].attempt == |courses|
      && end.jobs[request.id].state == (if |courses| < request.maxAttempts then Queued else Failed)
      && AttemptCount(end.attempts, request.id) == |courses|
  {
    StepKeepsInv(s, Enqueue([request]));
    OnlyRequestIsFirst(s, request);
    TriedToItsCap(Apply(s, Enqueue([request])), request.id, courses);
  }
}
