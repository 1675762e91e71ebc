/** What the first delivery of a keyed request does to the tables, route by route. */
module RequestEffects {
  import opened ClipStates
  import opened Idempotency
  import opened JobQueue
  import opened QueueEffects
  import opened WorkerLoop
  import opened Wrappers

  /** The request took effect now: it is remembered with its answer, and nothing else of the server moved but rows. */
  ghost predicate TookEffect(s: Server, d: Delivery, after: Server, response: Response) {
    && d.key !in s.records && response.Accepted?
    && after == Server(s.system.(rows := after.system.rows),
                       s.records[d.key := Remembered(d.payload, response.ids)], s.created + [d.key])
  }

  /** Some queued job compiles the clip. */
  ghost predicate Awaited(jobs: map<JobId, Job>, clip: ClipId) {
    exists id :: id in jobs && jobs[id].state == Queued && jobs[id].kind == Compile && jobs[id].fingerprint.clip == clip
  }

  /** A clip that no longer waits is stale if it has an output, and undiscovered work otherwise. */
  function Released(row: ClipRow): ClipRow {
    ClipRow(if row.outputAvailable then Stale else Discovered, row.outputAvailable)
  }

  function CancelledAt(job: Job, now: Time): Job {
    match job.state
    case Queued => job.(state := Cancelled, finished := Some(now), cancelRequested := true)
    case Running => job.(cancelRequested := true)
    case _ => job
  }

  /** A first cancel-all ends every queued job, flags the running one, spares the finished, and releases the clips. */
  lemma CancelAllTakesEffect(s: Server, d: Delivery)
    requires d.key !in s.records && d.create.CancelAll?
    ensures var (after, response) := Delivered(s, d);
      var was, now := s.system.rows, after.system.rows;
      && TookEffect(s, d, after, response)
      && (forall id :: id in response.ids <==> id in was.jobs && was.jobs[id].Active())
      && now.jobs.Keys == was.jobs.Keys
      && (forall id :: id in was.jobs ==> now.jobs[id] == CancelledAt(was.jobs[id], d.create.now))
      && now.clips.Keys == was.clips.Keys
      && (forall clip :: clip in was.clips ==>
            now.clips[clip] == if Awaited(was.jobs, clip) then Released(was.clips[clip]) else was.clips[clip])
      && now.attempts == was.attempts
  {
    var rows := s.system.rows;
    var ids := InOrder(rows.jobs, ActiveJobs(rows.jobs));
    InOrderElements(rows.jobs, ActiveJobs(rows.jobs));
    CancelEachIsSimultaneous(rows, ids, d.create.now);
    forall clip ensures ReleasedBy(rows.jobs, ids, clip) <==> Awaited(rows.jobs, clip) {
      if Awaited(rows.jobs, clip) {
        var id :| id in rows.jobs && rows.jobs[id].state == Queued && rows.jobs[id].kind == Compile &&
          rows.jobs[id].fingerprint.clip == clip;
        assert id in ids && rows.jobs[id].Compiles(clip);
      }
    }
  }

  /** A first cancel of one job: refused if there is none, otherwise it touches that row and its waiting clip only. */
  lemma CancelOneTakesEffect(s: Server, d: Delivery)
    requires d.key !in s.records && d.create.CancelOne?
    ensures var (after, response) := Delivered(s, d);
      var id, was, now := d.create.job, s.system.rows, after.system.rows;
      if id !in was.jobs then after == s && response == Refused else
        && TookEffect(s, d, after, response) && response.ids == [id]
        && now.jobs.Keys == was.jobs.Keys
        && (forall other :: other in was.jobs ==>
              now.jobs[other] == if other == id then CancelledAt(was.jobs[id], d.create.at) else was.jobs[other])
        && now.clips.Keys == was.clips.Keys
        && (forall clip :: clip in was.clips ==>
              now.clips[clip] ==
                if was.jobs[id].state == Queued && was.jobs[id].kind == Compile && was.jobs[id].fingerprint.clip == clip
                then Released(was.clips[clip]) else was.clips[clip])
        && now.attempts == was.attempts
  {
  }

  /** A report answers with the job under way and changes no row. */
  lemma ReportTakesEffect(s: Server, d: Delivery)
    requires d.key !in s.records && d.create.Report?
    ensures var (after, response) := Delivered(s, d);
      if d.create.id !in s.system.rows.jobs then after == s && response == Refused
      else TookEffect(s, d, after, response) && response.ids == [d.create.id] && after.system == s.system
  {
  }

  /**
   A first submission that is accepted leaves an active job for every entry of its batch and answers with the first;
   new rows are the requested ones, old rows stand still, and exactly the clips of new compilations wait.
   */
  lemma SubmissionTakesEffect(s: Server, d: Delivery)
    requires d.key !in s.records && d.create.Submit?
    ensures var (after, response) := Delivered(s, d);
      var batch, was, now := d.create.batch, s.system.rows, after.system.rows;
      if response.Accepted? then
        && TookEffect(s, d, after, response) && batch != []
        && (forall k :: 0 <= k < |batch| ==> HasDuplicate(now.jobs, batch[k].fingerprint))
        && |response.ids| == 1 && Duplicates(now.jobs, batch[0].fingerprint, response.ids[0])
        && (forall id :: id in was.jobs ==> id in now.jobs && now.jobs[id] == was.jobs[id])
        && (forall id :: id in now.jobs && id !in was.jobs ==> InsertedFor(was.jobs, now.jobs, batch, id))
        && now.clips.Keys == was.clips.Keys
        && (forall clip :: clip in was.clips ==>
              now.clips[clip] == if NewlyCompiled(was.jobs, now.jobs, clip)
                then ClipRow(Pending, was.clips[clip].outputAvailable) else was.clips[clip])
        && now.attempts == was.attempts
      else after == s && response == Refused
  {
    var rows, batch := s.system.rows, d.create.batch;
    if batch != [] && Enqueued(rows, batch).Some? {
      EnqueuedKeeps(rows, batch);
      EnqueuedAsRequested(rows, batch);
      ActiveAfterEnqueue(rows, batch);
      ActiveIdIsActive(Enqueued(rows, batch).value.jobs, batch[0].fingerprint);
    }
  }

  /** A remembered key is answered from the record and changes nothing, whatever the request would do now. */
  lemma RememberedIsReplayed(s: Server, d: Delivery)
    requires d.key in s.records
    ensures var (after, response) := Delivered(s, d);
      var record := s.records[d.key];
      && after == s
      && (response == Conflict <==> d.payload != record.payload)
      && (response == Accepted(record.ids) <==>
            d.payload == record.payload && forall id :: id in record.ids ==> id in s.system.rows.jobs)
      && (response == Unavailable <==>
            d.payload == record.payload && exists id :: id in record.ids && id !in s.system.rows.jobs)
  {
  }

  /** No id of the batch is taken or drawn twice. */
  predicate FreshIds(jobs: map<JobId, Job>, batch: seq<NewJob>) {
    && (forall k :: 0 <= k < |batch| ==> batch[k].id !in jobs)
    && forall i, k :: 0 <= i < k < |batch| ==> batch[i].id != batch[k].id
  }

  lemma {:induction false} FreshBatchIsEnqueued(rows: Rows, batch: seq<NewJob>)
    requires FreshIds(rows.jobs, batch)
    ensures Enqueued(rows, batch).Some?
  {
    if batch != [] {
      var front, last := batch[..|batch| - 1], batch[|batch| - 1];
      assert forall k :: 0 <= k < |front| ==> front[k] == batch[k];
      FreshBatchIsEnqueued(rows, front);
      EnqueuedAsRequested(rows, front);
    }
  }

  /** A submission with fresh ids is refused only if it is empty. */
  lemma FreshSubmissionIsAccepted(s: Server, d: Delivery)
    requires d.key !in s.records && d.create.Submit? && FreshIds(s.system.rows.jobs, d.create.batch)
    ensures Delivered(s, d).1.Accepted? <==> d.create.batch != []
  {
    FreshBatchIsEnqueued(s.system.rows, d.create.batch);
  }
}
