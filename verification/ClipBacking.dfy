/** A promise the queue keeps only up to a condition: a clip shown as pending or compiling has a job behind it. */
module ClipBacking {
  import opened ClipStates
  import opened Wrappers
  import opened JobQueue
  import opened WorkerLoop

  predicate Busy(state: ClipState) {
    state == Pending || state == Compiling
  }

  /** An active compile job works on the clip and has not already published it. */
  ghost predicate HasOpenJob(s: System, clip: ClipId) {
    exists id :: OpenJob(s, id, clip)
  }

  predicate OpenJob(s: System, id: JobId, clip: ClipId) {
    && id in s.rows.jobs && s.rows.jobs[id].Compiles(clip)
    && !(s.held.Some? && s.held.value.published && s.held.value.id == id)
  }

  ghost predicate Backed(s: System) {
    forall clip :: clip in s.rows.clips && Busy(s.rows.clips[clip].state) ==> HasOpenJob(s, clip)
  }

  /** Restart recovery fails this job, and leaves its clip as it was. */
  predicate Exhausted(job: Job) {
    job.state == Running && job.kind == Compile && job.attempt >= job.maxAttempts
  }

  ghost predicate QueuedFor(jobs: map<JobId, Job>, clip: ClipId) {
    exists id :: id in jobs && jobs[id].state == Queued && jobs[id].Compiles(clip)
  }

  /** The guard: only a restart over an exhausted job and a foreign write of a busy state can strand a clip. */
  ghost predicate Keeps(s: System, step: Step) {
    match step
    case Restart(_) =>
      forall id :: id in s.rows.jobs && Exhausted(s.rows.jobs[id]) ==>
        var clip := s.rows.jobs[id].fingerprint.clip;
        clip in s.rows.clips && Busy(s.rows.clips[clip].state) ==> QueuedFor(s.rows.jobs, clip)
    case WriteClip(clip, row) => Busy(row.state) ==> HasOpenJob(s, clip)
    case _ => true
  }

  lemma EnqueueKeepsBacked(rows: Rows, held: Option<Held>, batch: seq<NewJob>)
    requires Backed(System(rows, held)) && Enqueued(rows, batch).Some?
    requires held.Some? ==> held.value.id in rows.jobs
    ensures Backed(System(Enqueued(rows, batch).value, held))
  {
    if batch != [] {
      var front, last := batch[..|batch| - 1], batch[|batch| - 1];
      EnqueueKeepsBacked(rows, held, front);
      EnqueuedKeeps(rows, front);
      var before := Enqueued(rows, front).value;
      if !HasDuplicate(before.jobs, last.fingerprint) {
        var s, after := System(before, held), System(Inserted(before, last), held);
        forall clip | clip in after.rows.clips && Busy(after.rows.clips[clip].state) ensures HasOpenJob(after, clip) {
          if last.kind == Compile && clip == last.fingerprint.clip {
            assert OpenJob(after, last.id, clip);
          } else {
            var id :| OpenJob(s, id, clip);
            assert OpenJob(after, id, clip);
          }
        }
      }
    }
  }

  lemma StepPreservesOpenJobs(s: System, step: Step, id: JobId, clip: ClipId)
    requires Inv(s) && Enabled(s, step) && OpenJob(s, id, clip) && !step.Enqueue? && !step.Restart?
    ensures OpenJob(Apply(s, step), id, clip) ||
      !Busy((if clip in Apply(s, step).rows.clips then Apply(s, step).rows.clips[clip] else ClipRow(Ready, true)).state)
  {
  }

  lemma BackedAfterRestart(s: System, now: Time)
    requires Inv(s) && Backed(s)
    ensures Backed(Apply(s, Restart(now))) <==> Keeps(s, Restart(now))
  {
    var after := Apply(s, Restart(now));
    forall clip | clip in s.rows.clips && Busy(s.rows.clips[clip].state)
      ensures HasOpenJob(after, clip) <==>
        (QueuedFor(s.rows.jobs, clip) ||
          exists id :: id in s.rows.jobs && s.rows.jobs[id].Compiles(clip) && !Exhausted(s.rows.jobs[id]))
    {
      forall id | id in s.rows.jobs
        ensures OpenJob(after, id, clip) <==> s.rows.jobs[id].Compiles(clip) && !Exhausted(s.rows.jobs[id]) {
      }
    }
  }

  /** Exactly when a step leaves every busy clip with a job behind it. */
  lemma StepKeepsBacked(s: System, step: Step)
    requires Inv(s) && Backed(s) && Enabled(s, step)
    ensures Backed(Apply(s, step)) <==> Keeps(s, step)
  {
    var after := Apply(s, step);
    if step.Restart? {
      BackedAfterRestart(s, step.now);
    } else if step.Enqueue? {
      if Enqueued(s.rows, step.batch).Some? { EnqueueKeepsBacked(s.rows, s.held, step.batch); }
    } else {
      forall clip | clip in after.rows.clips && Busy(after.rows.clips[clip].state)
        ensures (step.WriteClip? && step.clip == clip) || HasOpenJob(after, clip)
      {
        if clip in s.rows.clips && Busy(s.rows.clips[clip].state) {
          var id :| OpenJob(s, id, clip);
          StepPreservesOpenJobs(s, step, id, clip);
        } else if step.Claim? {
          assert OpenJob(after, step.id, clip);
        } else if step.Finish? {
          assert OpenJob(after, s.held.value.id, clip);
        }
      }
      if step.WriteClip? {
        assert after.rows.clips[step.clip] == step.row;
        assert forall id :: OpenJob(after, id, step.clip) <==> OpenJob(s, id, step.clip);
      }
    }
  }

  ghost predicate KeepsThroughout(s: System, run: seq<Step>)
    requires Legal(s, run)
    decreases |run|
  {
    run == [] || (Keeps(s, run[0]) && KeepsThroughout(Apply(s, run[0]), run[1..]))
  }

  /** Any interleaving of jobs, fingerprints, cancels and retries keeps busy clips backed while the guard holds. */
  lemma {:induction false} RunKeepsBacked(s: System, run: seq<Step>)
    requires Inv(s) && Backed(s) && Legal(s, run) && KeepsThroughout(s, run)
    ensures Backed(Exec(s, run))
    decreases |run|
  {
    if run != [] {
      StepKeepsInv(s, run[0]);
      StepKeepsBacked(s, run[0]);
      RunKeepsBacked(Apply(s, run[0]), run[1..]);
    }
  }

  lemma ThreeSteps(s: System, a: Step, b: Step, c: Step)
    requires Enabled(s, a) && Enabled(Apply(s, a), b) && Enabled(Apply(Apply(s, a), b), c)
    ensures Legal(s, [a, b, c]) && Exec(s, [a, b, c]) == Apply(Apply(Apply(s, a), b), c)
  {
    ExecCons(Apply(Apply(s, a), b), c, []);
    ExecCons(Apply(s, a), b, [c]);
    ExecCons(s, a, [b, c]);
    assert [c] + [] == [c] && [b] + [c] == [b, c] && [a] + [b, c] == [a, b, c];
  }

  /** Recovery strands a clip: a job at its cap fails, its clip stays compiling and its attempt row stays open. */
  lemma RestartStrandsClip(request: NewJob, row: ClipRow, t: Time)
    requires request.kind == Compile && request.maxAttempts == 1
    ensures var clip := request.fingerprint.clip;
      var start := System(Rows(map[], map[clip := row], []), None);
      var run := [Enqueue([request]), Claim(request.id, t), Restart(t)];
      && Legal(start, run)
      && var end := Exec(start, run);
      && request.id in end.rows.jobs && end.rows.jobs[request.id].state == Failed
      && clip in end.rows.clips && end.rows.clips[clip].state == Compiling && !HasOpenJob(end, clip)
      && end.rows.attempts == [AttemptRow(request.id, 1, Running, None)]
  {
    var clip := request.fingerprint.clip;
    var s0 := System(Rows(map[], map[clip := row], []), None);
    var run := [Enqueue([request]), Claim(request.id, t), Restart(t)];
    assert [request][..0] == [];
    assert !HasDuplicate(s0.rows.jobs, request.fingerprint);
    assert Enqueued(s0.rows, [request]) == Some(Inserted(s0.rows, request));
    var s1 := Apply(s0, run[0]);
    assert s1 == System(Inserted(s0.rows, request), None);
    assert NextInLine(s1.rows.jobs, request.id) && Idle(s1.rows.jobs);
    var s2 := Apply(s1, run[1]);
    var s3 := Apply(s2, run[2]);
    ThreeSteps(s0, run[0], run[1], run[2]);
  }
}
