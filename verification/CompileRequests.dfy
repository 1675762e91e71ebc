/** Turning a compile request into a batch of jobs: eligibility, finished work, and the disk budget. */
module CompileRequests {
  import opened ClipStates
  import opened JobQueue
  import opened QueueEffects
  import opened WorkerLoop
  import opened Wrappers

  datatype Strategy = ChangedOrMissing | StaleOnly | ScanOnly

  /** A clip row with what the request reads of it, and the id drawn for its job. */
  datatype Candidate = Candidate(
    clip: ClipId, state: ClipState, source: int, size: nat, outputAvailable: bool, outputOnDisk: bool, job: JobId)

  datatype CompileRequest = CompileRequest(
    clips: Option<set<ClipId>>, strategy: Strategy, skipIfProcessing: bool, maxAttempts: Positive)

  datatype CompileError = InsufficientDisk | DuplicateId

  predicate Eligible(r: CompileRequest, c: Candidate) {
    && (r.clips.Some? ==> c.clip in r.clips.value)
    && (c.state in {Stale, Broken} || (c.state == Discovered && r.strategy != StaleOnly)
        || (c.state in {Pending, Compiling} && !r.skipIfProcessing))
  }

  function FingerprintOf(c: Candidate, profile: int): Fingerprint {
    Fingerprint(c.clip, c.source, profile)
  }

  ghost predicate HasSucceeded(jobs: map<JobId, Job>, fingerprint: Fingerprint) {
    exists id :: id in jobs && jobs[id].state == Succeeded && jobs[id].fingerprint == fingerprint
  }

  /** The output is there and was made from exactly these inputs. */
  ghost predicate UpToDate(jobs: map<JobId, Job>, c: Candidate, profile: int) {
    c.outputAvailable && c.outputOnDisk && HasSucceeded(jobs, FingerprintOf(c, profile))
  }

  ghost function Wanted(jobs: map<JobId, Job>, r: CompileRequest, clips: seq<Candidate>, profile: int): seq<Candidate> {
    if clips == [] then [] else
      var front, last := Wanted(jobs, r, clips[..|clips| - 1], profile), clips[|clips| - 1];
      if Eligible(r, last) && !UpToDate(jobs, last, profile) then front + [last] else front
  }

  function NewJobOf(c: Candidate, r: CompileRequest, profile: int, now: Time): NewJob {
    NewJob(c.job, Compile, now, FingerprintOf(c, profile), r.maxAttempts)
  }

  function BatchOf(wanted: seq<Candidate>, r: CompileRequest, profile: int, now: Time): (batch: seq<NewJob>)
    ensures |batch| == |wanted| && forall k :: 0 <= k < |batch| ==> batch[k] == NewJobOf(wanted[k], r, profile, now)
  {
    seq(|wanted|, k requires 0 <= k < |wanted| => NewJobOf(wanted[k], r, profile, now))
  }

  function TotalSize(clips: seq<Candidate>): nat {
    if clips == [] then 0 else TotalSize(clips[..|clips| - 1]) + clips[|clips| - 1].size
  }

  /** The reserve survives the whole batch; an empty batch needs no disk at all. */
  predicate Fits(wanted: seq<Candidate>, available: int, reserve: int) {
    wanted == [] || available - TotalSize(wanted) >= reserve
  }

  lemma {:induction false} WantedGrows(jobs: map<JobId, Job>, r: CompileRequest, clips: seq<Candidate>, profile: int,
      k: nat)
    requires k <= |clips|
    ensures var some, all := Wanted(jobs, r, clips[..k], profile), Wanted(jobs, r, clips, profile);
      TotalSize(some) <= TotalSize(all) && |some| <= |all|
    decreases |clips| - k
  {
    if k == |clips| {
      assert clips[..k] == clips;
    } else {
      WantedStep(jobs, r, clips, profile, k);
      WantedGrows(jobs, r, clips, profile, k + 1);
    }
  }

  lemma WantedStep(jobs: map<JobId, Job>, r: CompileRequest, clips: seq<Candidate>, profile: int, k: nat)
    requires k < |clips|
    ensures var some, more := Wanted(jobs, r, clips[..k], profile), Wanted(jobs, r, clips[..k + 1], profile);
      if Eligible(r, clips[k]) && !UpToDate(jobs, clips[k], profile)
      then more == some + [clips[k]] && TotalSize(more) == TotalSize(some) + clips[k].size
      else more == some
  {
    assert clips[..k + 1][..k] == clips[..k];
    var some := Wanted(jobs, r, clips[..k], profile);
    assert (some + [clips[k]])[..|some|] == some;
  }

  /** The running byte count of the loop refuses exactly the batches that do not fit as a whole. */
  method PlanBatch(jobs: map<JobId, Job>, r: CompileRequest, clips: seq<Candidate>, profile: int, available: int,
      reserve: int)
    returns (planned: Option<seq<Candidate>>)
    ensures planned.Some? <==> Fits(Wanted(jobs, r, clips, profile), available, reserve)
    ensures planned.Some? && planned.value != [] ==> TotalSize(planned.value) + reserve <= available
    ensures planned.None? ==> TotalSize(Wanted(jobs, r, clips, profile)) + reserve > available
    ensures planned.Some? ==> planned.value == Wanted(jobs, r, clips, profile)
  {
    var wanted: seq<Candidate> := [];
    var remaining := available;
    for k := 0 to |clips|
      invariant wanted == Wanted(jobs, r, clips[..k], profile)
      invariant remaining == available - TotalSize(wanted)
      invariant wanted == [] || remaining >= reserve
    {
      var c := clips[k];
      WantedStep(jobs, r, clips, profile, k);
      var made := exists id ::
        id in jobs && jobs[id].state == Succeeded && jobs[id].fingerprint == FingerprintOf(c, profile);
      if Eligible(r, c) && !(c.outputAvailable && c.outputOnDisk && made) {
        if remaining - c.size < reserve {
          WantedGrows(jobs, r, clips, profile, k + 1);
          return None;
        }
        remaining := remaining - c.size;
        wanted := wanted + [c];
      }
    }
    assert clips[..|clips|] == clips;
    planned := Some(wanted);
  }

  class JobService {
    const queue: PersistentJobQueue
    const reserve: int

    constructor (queue: PersistentJobQueue, reserve: int)
      ensures this.queue == queue && this.reserve == reserve
    {
      this.queue, this.reserve := queue, reserve;
    }

    /** The compile part of `enqueue_compile`: one batch of exactly the wanted clips, or nothing. */
    method EnqueueCompile(r: CompileRequest, clips: seq<Candidate>, profile: int, available: int, now: Time)
      returns (result: Result<seq<JobId>, CompileError>)
      requires r.strategy != ScanOnly
      modifies queue
      ensures var before := old(queue.Contents());
        var wanted := Wanted(before.jobs, r, clips, profile);
        var after := Enqueued(before, BatchOf(wanted, r, profile, now));
        if WorkUnderWay(before.jobs) && r.skipIfProcessing then
          && queue.Contents() == before && result.Ok? && |result.value| == 1
          && result.value[0] in before.jobs && before.jobs[result.value[0]].Active() &&
               before.jobs[result.value[0]].kind == Compile
        else if !Fits(wanted, available, reserve) then result == Err(InsufficientDisk) && queue.Contents() == before
        else if after.None? then result == Err(DuplicateId) && queue.Contents() == before
        else
          && result.Ok? && queue.Contents() == after.value && |result.value| == |wanted|
          && forall k ::
               0 <= k < |wanted| ==> Duplicates(queue.jobs, FingerprintOf(wanted[k], profile), result.value[k])
    {
      var jobs := queue.jobs;
      var active := set id | id in jobs && jobs[id].Active() && jobs[id].kind == Compile;
      var first := SelectFirst(jobs, active);
      assert forall id :: id in jobs && jobs[id].Active() && jobs[id].kind == Compile ==> id in active;
      if first.Some? && r.skipIfProcessing {
        assert WorkUnderWay(jobs);
        return Ok([first.value]);
      }
      var wanted := PlanBatch(jobs, r, clips, profile, available, reserve);
      if wanted.None? {
        return Err(InsufficientDisk);
      }
      var enqueued := queue.EnqueueMany(BatchOf(wanted.value, r, profile, now));
      result := if enqueued.Err? then Err(DuplicateId) else Ok(enqueued.value);
    }
  }

  ghost predicate WorkUnderWay(jobs: map<JobId, Job>) {
    exists id :: id in jobs && jobs[id].Active() && jobs[id].kind == Compile
  }

  /** After an accepted request every wanted clip has a live job for its current source and profile, and no clip was
      taken that did not ask for it. */
  lemma {:induction false} WantedIffNeeded(jobs: map<JobId, Job>, r: CompileRequest, clips: seq<Candidate>,
      profile: int, c: Candidate)
    ensures c in Wanted(jobs, r, clips, profile) <==> c in clips && Eligible(r, c) && !UpToDate(jobs, c, profile)
  {
    if clips != [] {
      WantedIffNeeded(jobs, r, clips[..|clips| - 1], profile, c);
    }
  }

  /**
   A clip is wanted exactly if it is asked for, in a state the strategy takes, and lacks a finished output of its
   current inputs. Stale and failed clips are taken always, discovered ones unless only stale work is asked for, busy
   ones unless they are to be skipped; ready, invalid and deleted clips never.
   */
  lemma TakenByState(jobs: map<JobId, Job>, r: CompileRequest, clips: seq<Candidate>, profile: int, c: Candidate)
    ensures c in Wanted(jobs, r, clips, profile) <==>
      && c in clips && (r.clips.Some? ==> c.clip in r.clips.value)
      && (match c.state
          case Stale => true
          case Broken => true
          case Discovered => r.strategy != StaleOnly
          case Pending => !r.skipIfProcessing
          case Compiling => !r.skipIfProcessing
          case _ => false)
      && !(c.outputAvailable && c.outputOnDisk &&
           exists id ::
             id in jobs && jobs[id].state == Succeeded &&
               jobs[id].fingerprint == Fingerprint(c.clip, c.source, profile))
  {
    WantedIffNeeded(jobs, r, clips, profile, c);
  }

  lemma {:induction false} TotalSizeAdds(a: seq<Candidate>, b: seq<Candidate>)
    ensures TotalSize(a + b) == TotalSize(a) + TotalSize(b)
    ensures forall c: Candidate :: TotalSize([c]) == c.size
  {
    if b == [] {
      assert a + b == a;
    } else {
      assert (a + b)[..|a + b| - 1] == a + b[..|b| - 1];
      TotalSizeAdds(a, b[..|b| - 1]);
    }
  }

  /** The new job is a compilation of this clip's current inputs, as the request wants it. */
  predicate CompilesAsAsked(job: Job, c: Candidate, r: CompileRequest, profile: int, now: Time) {
    && job.kind == Compile && job.fingerprint == Fingerprint(c.clip, c.source, profile)
    && job.state == Queued && job.attempt == 0 && job.maxAttempts == r.maxAttempts && job.created == now
  }

  /**
   What an accepted request leaves: an active job for every wanted clip's current inputs; every new job is such a
   compilation with the request's cap, and exactly the clips of new jobs wait for it.
   */
  lemma RequestIsServed(rows: Rows, r: CompileRequest, clips: seq<Candidate>, profile: int, now: Time)
    requires Enqueued(rows, BatchOf(Wanted(rows.jobs, r, clips, profile), r, profile, now)).Some?
    ensures var wanted := Wanted(rows.jobs, r, clips, profile);
      var after := Enqueued(rows, BatchOf(wanted, r, profile, now)).value;
      && (forall c :: c in wanted ==> HasDuplicate(after.jobs, Fingerprint(c.clip, c.source, profile)))
      && (forall id :: id in after.jobs && id !in rows.jobs ==>
            exists c :: c in wanted && c.job == id && CompilesAsAsked(after.jobs[id], c, r, profile, now))
      && (forall id :: id in rows.jobs ==> id in after.jobs && after.jobs[id] == rows.jobs[id])
      && (forall clip :: clip in rows.clips ==>
            clip in after.clips && after.clips[clip] == if NewlyCompiled(rows.jobs, after.jobs, clip)
              then ClipRow(Pending, rows.clips[clip].outputAvailable) else rows.clips[clip])
  {
    var wanted := Wanted(rows.jobs, r, clips, profile);
    var batch := BatchOf(wanted, r, profile, now);
    var after := Enqueued(rows, batch).value;
    EnqueuedAsRequested(rows, batch);
    EnqueuedKeeps(rows, batch);
    ActiveAfterEnqueue(rows, batch);
    forall c | c in wanted ensures HasDuplicate(after.jobs, Fingerprint(c.clip, c.source, profile)) {
      var k :| 0 <= k < |wanted| && wanted[k] == c;
      assert HasDuplicate(after.jobs, batch[k].fingerprint);
    }
    forall id | id in after.jobs && id !in rows.jobs
      ensures exists c :: c in wanted && c.job == id && CompilesAsAsked(after.jobs[id], c, r, profile, now) {
      assert InsertedFor(rows.jobs, after.jobs, batch, id);
      var k :| 0 <= k < |batch| && batch[k].id == id && IsFreshRowOf(after.jobs[id], batch[k]);
      assert wanted[k] in wanted && CompilesAsAsked(after.jobs[id], wanted[k], r, profile, now);
    }
  }
}
