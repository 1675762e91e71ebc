/**
 The persistent job queue: rows of the `jobs`, `clips` and `job_attempts` tables, the
 transition each statement makes on them, and the class whose methods perform it.
 */
module JobQueue {
  import opened ClipStates
  import opened Wrappers

  /** Ids order by the rank of their text. */
  datatype JobId = JobId(rank: int)

  type ClipId = int
  type Time = int
  type Positive = n: int | 1 <= n witness 1

  datatype Kind = Compile | Scan | Cleanup | Edit | Unsupported

  datatype JobState = Queued | Running | Succeeded | Failed | Cancelled

  /** The digest of clip, source and profile fingerprints, taken as an injective value. */
  datatype Fingerprint = Fingerprint(clip: ClipId, source: int, profile: int)

  datatype Job = Job(
    kind: Kind, state: JobState, created: Time, started: Option<Time>, finished: Option<Time>,
    fingerprint: Fingerprint, attempt: nat, maxAttempts: Positive, cancelRequested: bool)
  {
    predicate Active() {
      state == Queued || state == Running
    }

    predicate Compiles(clip: ClipId) {
      Active() && kind == Compile && fingerprint.clip == clip
    }
  }

  /** What a caller chooses about a new job; every other column starts at its default. */
  datatype NewJob = NewJob(id: JobId, kind: Kind, created: Time, fingerprint: Fingerprint, maxAttempts: Positive)

  datatype ClipRow = ClipRow(state: ClipState, outputAvailable: bool)

  datatype AttemptRow = AttemptRow(job: JobId, number: nat, state: JobState, finished: Option<Time>)

  datatype Rows = Rows(jobs: map<JobId, Job>, clips: map<ClipId, ClipRow>, attempts: seq<AttemptRow>)

  datatype QueueError = KeyError | IntegrityError

  // ---------- What each statement does to the rows ----------

  function WithClip(clips: map<ClipId, ClipRow>, clip: ClipId, state: ClipState): map<ClipId, ClipRow> {
    if clip in clips then clips[clip := clips[clip].(state := state)] else clips
  }

  /** The state a clip falls back to when its job is cancelled. */
  function Uncompiled(row: ClipRow): ClipState {
    if row.outputAvailable then Stale else Discovered
  }

  function ClipReleased(clips: map<ClipId, ClipRow>, clip: ClipId): map<ClipId, ClipRow> {
    if clip in clips then WithClip(clips, clip, Uncompiled(clips[clip])) else clips
  }

  ghost predicate Duplicates(jobs: map<JobId, Job>, fingerprint: Fingerprint, id: JobId) {
    id in jobs && jobs[id].Active() && jobs[id].fingerprint == fingerprint
  }

  ghost predicate HasDuplicate(jobs: map<JobId, Job>, fingerprint: Fingerprint) {
    exists id :: Duplicates(jobs, fingerprint, id)
  }

  function Inserted(rows: Rows, request: NewJob): Rows {
    var job := Job(request.kind, Queued, request.created, None, None, request.fingerprint, 0, request.maxAttempts,
      false);
    rows.(jobs := rows.jobs[request.id := job],
          clips := if request.kind == Compile then WithClip(rows.clips, request.fingerprint.clip, Pending)
            else rows.clips)
  }

  /** The rows after a batch, or None when a primary key clashes and the transaction rolls back. */
  ghost function Enqueued(rows: Rows, batch: seq<NewJob>): Option<Rows> {
    if batch == [] then Some(rows) else
      var before := Enqueued(rows, batch[..|batch| - 1]);
      var last := batch[|batch| - 1];
      if before.None? then None
      else if HasDuplicate(before.value.jobs, last.fingerprint) then before
      else if last.id in before.value.jobs then None
      else Some(Inserted(before.value, last))
  }

  predicate Earlier(jobs: map<JobId, Job>, a: JobId, b: JobId)
    requires a in jobs && b in jobs
  {
    jobs[a].created < jobs[b].created || (jobs[a].created == jobs[b].created && a.rank <= b.rank)
  }

  ghost predicate Idle(jobs: map<JobId, Job>) {
    forall id :: id in jobs ==> jobs[id].state != Running
  }

  ghost predicate NextInLine(jobs: map<JobId, Job>, id: JobId) {
    && id in jobs && jobs[id].state == Queued
    && forall other :: other in jobs && jobs[other].state == Queued ==> Earlier(jobs, id, other)
  }

  function Claimed(rows: Rows, id: JobId, now: Time): Rows
    requires id in rows.jobs
  {
    var job := rows.jobs[id].(state := Running, started := Some(now), attempt := rows.jobs[id].attempt + 1);
    Rows(rows.jobs[id := job],
         if job.kind == Compile then WithClip(rows.clips, job.fingerprint.clip, Compiling) else rows.clips,
         rows.attempts + [AttemptRow(id, job.attempt, Running, None)])
  }

  function AttemptsClosed(attempts: seq<AttemptRow>, id: JobId, state: JobState, now: Time): (closed: seq<AttemptRow>)
    ensures |closed| == |attempts|
  {
    if attempts == [] then [] else
      var a := attempts[|attempts| - 1];
      AttemptsClosed(attempts[..|attempts| - 1], id, state, now) +
      [if a.job == id && a.finished.None? then a.(state := state, finished := Some(now)) else a]
  }

  /** `update` writes the caller's record over the row: every mutable column, including the cancel flag. */
  function Updated(rows: Rows, id: JobId, job: Job, now: Time): Rows
    requires id in rows.jobs
  {
    var row := rows.jobs[id].(state := job.state, started := job.started, finished := job.finished,
                              attempt := job.attempt, cancelRequested := job.cancelRequested);
    var clip := job.fingerprint.clip;
    Rows(rows.jobs[id := row],
         if job.kind != Compile then rows.clips else
         match job.state
         case Queued => WithClip(rows.clips, clip, Pending)
         case Failed => WithClip(rows.clips, clip, Broken)
         case Cancelled => ClipReleased(rows.clips, clip)
         case _ => rows.clips,
         if job.state == Running then rows.attempts else AttemptsClosed(rows.attempts, id, job.state, now))
  }

  function JobCancelled(job: Job, now: Time): Job {
    if job.state == Queued then job.(state := Cancelled, cancelRequested := true, finished := Some(now))
    else if job.state == Running then job.(cancelRequested := true)
    else job
  }

  function CancelRequested(rows: Rows, id: JobId, now: Time): Rows
    requires id in rows.jobs
  {
    var job := rows.jobs[id];
    rows.(jobs := rows.jobs[id := JobCancelled(job, now)],
          clips := if job.state == Queued && job.kind == Compile
                   then ClipReleased(rows.clips, job.fingerprint.clip) else rows.clips)
  }

  function JobRecovered(job: Job, now: Time): Job {
    if job.state != Running then job
    else if job.attempt < job.maxAttempts then job.(state := Queued, started := None)
    else job.(state := Failed, finished := Some(now))
  }

  /** Restart recovery touches the `jobs` table only. */
  function Recovered(rows: Rows, now: Time): Rows {
    rows.(jobs := map id | id in rows.jobs :: JobRecovered(rows.jobs[id], now))
  }

  function RunningRequeued(jobs: map<JobId, Job>): map<JobId, Job> {
    map id | id in jobs ::
      if jobs[id].state == Running && jobs[id].attempt < jobs[id].maxAttempts
      then jobs[id].(state := Queued, started := None) else jobs[id]
  }

  function RunningFailed(jobs: map<JobId, Job>, now: Time): map<JobId, Job> {
    map id | id in jobs ::
      if jobs[id].state == Running && jobs[id].attempt >= jobs[id].maxAttempts
      then jobs[id].(state := Failed, finished := Some(now)) else jobs[id]
  }

  lemma RecoveryInTwoStatements(jobs: map<JobId, Job>, now: Time)
    ensures RunningFailed(RunningRequeued(jobs), now) == map id | id in jobs :: JobRecovered(jobs[id], now)
  {
  }

  // ---------- Cancelling every active job ----------

  ghost function CancelEach(rows: Rows, ids: seq<JobId>, now: Time): (after: Rows)
    requires forall id :: id in ids ==> id in rows.jobs
    ensures after.jobs.Keys == rows.jobs.Keys
  {
    if ids == [] then rows
    else CancelRequested(CancelEach(rows, ids[..|ids| - 1], now), ids[|ids| - 1], now)
  }

  ghost predicate ReleasedBy(jobs: map<JobId, Job>, ids: seq<JobId>, clip: ClipId) {
    exists id :: id in ids && id in jobs && jobs[id].state == Queued && jobs[id].Compiles(clip)
  }

  function AllCancelled(jobs: map<JobId, Job>, ids: seq<JobId>, now: Time): map<JobId, Job> {
    map id | id in jobs :: if id in ids then JobCancelled(jobs[id], now) else jobs[id]
  }

  ghost function AllReleased(rows: Rows, ids: seq<JobId>): map<ClipId, ClipRow> {
    map clip | clip in rows.clips ::
      if ReleasedBy(rows.jobs, ids, clip) then rows.clips[clip].(state := Uncompiled(rows.clips[clip]))
        else rows.clips[clip]
  }

  lemma CancelOneMore(rows: Rows, ids: seq<JobId>, id: JobId, now: Time)
    requires id in rows.jobs
    ensures AllCancelled(rows.jobs, ids + [id], now)
         == AllCancelled(rows.jobs, ids, now)[id := JobCancelled(AllCancelled(rows.jobs, ids, now)[id], now)]
    ensures var job := AllCancelled(rows.jobs, ids, now)[id];
      AllReleased(rows, ids + [id]) == if job.state == Queued && job.kind == Compile
        then ClipReleased(AllReleased(rows, ids), job.fingerprint.clip)
        else AllReleased(rows, ids)
  {
    forall clip ensures ReleasedBy(rows.jobs, ids + [id], clip) <==>
        ReleasedBy(rows.jobs, ids, clip) || (rows.jobs[id].state == Queued && rows.jobs[id].Compiles(clip)) {
      assert id in ids + [id];
    }
  }

  /** One request at a time, in any order, is the same as cancelling the listed jobs at once. */
  lemma {:induction false} CancelEachIsSimultaneous(rows: Rows, ids: seq<JobId>, now: Time)
    requires forall id :: id in ids ==> id in rows.jobs
    ensures var after := CancelEach(rows, ids, now);
      && after.jobs == AllCancelled(rows.jobs, ids, now)
      && after.clips == AllReleased(rows, ids)
      && after.attempts == rows.attempts
  {
    if ids != [] {
      var front, last := ids[..|ids| - 1], ids[|ids| - 1];
      CancelEachIsSimultaneous(rows, front, now);
      assert ids == front + [last];
      CancelOneMore(rows, front, last, now);
    }
  }

  // ---------- The queue object ----------

  /** `ORDER BY created_at, id LIMIT 1` over a set of rows. */
  method SelectFirst(jobs: map<JobId, Job>, ids: set<JobId>) returns (first: Option<JobId>)
    requires ids <= jobs.Keys
    ensures first.None? <==> ids == {}
    ensures first.Some? ==> first.value in ids && forall id :: id in ids ==> Earlier(jobs, first.value, id)
  {
    if ids == {} {
      return None;
    }
    var best := AnyOf(ids);
    var rest := ids - {best};
    while rest != {}
      invariant rest <= ids && best in ids
      invariant forall id :: id in ids && id !in rest ==> Earlier(jobs, best, id)
      decreases rest
    {
      var id := AnyOf(rest);
      rest := rest - {id};
      if !Earlier(jobs, best, id) {
        best := id;
      }
    }
    first := Some(best);
  }

  lemma {:induction false} FirstExists(jobs: map<JobId, Job>, ids: set<JobId>)
    requires ids != {} && ids <= jobs.Keys
    ensures exists first :: first in ids && IsFirst(jobs, ids, first)
    decreases |ids|
  {
    var id := Chosen(ids);
    var others := ids - {id};
    assert forall other :: other in ids <==> other == id || other in others;
    if others == {} {
      assert IsFirst(jobs, ids, id);
    } else {
      FirstExists(jobs, others);
      var first :| first in others && IsFirst(jobs, others, first);
      assert IsFirst(jobs, ids, if Earlier(jobs, first, id) then first else id);
    }
  }

  ghost predicate IsFirst(jobs: map<JobId, Job>, ids: set<JobId>, first: JobId)
    requires ids <= jobs.Keys
  {
    first in jobs && forall id :: id in ids ==> Earlier(jobs, first, id)
  }

  ghost function FirstOf(jobs: map<JobId, Job>, ids: set<JobId>): (first: JobId)
    requires ids != {} && ids <= jobs.Keys
    ensures first in ids && IsFirst(jobs, ids, first)
  {
    FirstExists(jobs, ids);
    var first :| first in ids && IsFirst(jobs, ids, first);
    first
  }

  /** The jobs of a set as `ORDER BY created_at, id` lists them. */
  ghost function InOrder(jobs: map<JobId, Job>, ids: set<JobId>): (ordered: seq<JobId>)
    requires ids <= jobs.Keys
    ensures forall k :: 0 <= k < |ordered| ==> ordered[k] in ids
    decreases |ids|
  {
    if ids == {} then [] else
      var first := FirstOf(jobs, ids);
      [first] + InOrder(jobs, ids - {first})
  }

  lemma {:induction false} InOrderElements(jobs: map<JobId, Job>, ids: set<JobId>)
    requires ids <= jobs.Keys
    ensures forall id :: id in InOrder(jobs, ids) <==> id in ids
    decreases |ids|
  {
    if ids != {} {
      InOrderElements(jobs, ids - {FirstOf(jobs, ids)});
    }
  }

  ghost predicate InTurn(jobs: map<JobId, Job>, ids: seq<JobId>) {
    && (forall k :: 0 <= k < |ids| ==> ids[k] in jobs)
    && forall i, k :: 0 <= i < k < |ids| ==> ids[i] != ids[k] && Earlier(jobs, ids[i], ids[k])
  }

  lemma {:induction false} InOrderIsSorted(jobs: map<JobId, Job>, ids: set<JobId>)
    requires ids <= jobs.Keys
    ensures InTurn(jobs, InOrder(jobs, ids))
    decreases |ids|
  {
    if ids != {} {
      var first := FirstOf(jobs, ids);
      var rest := InOrder(jobs, ids - {first});
      InOrderIsSorted(jobs, ids - {first});
      assert forall k :: 0 <= k < |rest| ==> rest[k] in ids - {first};
    }
  }

  lemma InOrderFirst(jobs: map<JobId, Job>, ids: set<JobId>, first: JobId)
    requires ids <= jobs.Keys && first in ids && forall id :: id in ids ==> Earlier(jobs, first, id)
    ensures InOrder(jobs, ids) == [first] + InOrder(jobs, ids - {first})
  {
    assert Earlier(jobs, FirstOf(jobs, ids), first);
  }

  /** `ORDER BY created_at, id` over a set of rows. */
  method SelectOrdered(jobs: map<JobId, Job>, ids: set<JobId>) returns (ordered: seq<JobId>)
    requires ids <= jobs.Keys
    ensures ordered == InOrder(jobs, ids)
  {
    ordered := [];
    var rest := ids;
    while rest != {}
      invariant rest <= ids && ordered + InOrder(jobs, rest) == InOrder(jobs, ids)
      decreases rest
    {
      var first := SelectFirst(jobs, rest);
      InOrderFirst(jobs, rest, first.value);
      ordered, rest := ordered + [first.value], rest - {first.value};
    }
  }

  function ActiveJobs(jobs: map<JobId, Job>): set<JobId> {
    set id | id in jobs && jobs[id].Active()
  }

  /** Cancelling each active job cancels or flags every active job and no other. */
  lemma CancelAllReachesTheActive(rows: Rows, now: Time)
    ensures var cancelled := InOrder(rows.jobs, ActiveJobs(rows.jobs));
      && (forall id :: id in cancelled <==> id in rows.jobs && rows.jobs[id].Active())
      && (forall id :: id in cancelled ==> id in rows.jobs)
      && var after := CancelEach(rows, cancelled, now).jobs;
      forall id :: id in rows.jobs ==> id in after && after[id] == JobCancelled(rows.jobs[id], now)
  {
    InOrderElements(rows.jobs, ActiveJobs(rows.jobs));
    CancelEachIsSimultaneous(rows, InOrder(rows.jobs, ActiveJobs(rows.jobs)), now);
  }

  class PersistentJobQueue {
    var jobs: map<JobId, Job>
    var clips: map<ClipId, ClipRow>
    var attempts: seq<AttemptRow>

    ghost function Contents(): Rows
      reads this
    {
      Rows(jobs, clips, attempts)
    }

    /** A batch is one transaction: duplicates of active work are returned instead of inserted. */
    method EnqueueMany(batch: seq<NewJob>) returns (result: Result<seq<JobId>, QueueError>)
      modifies this
      ensures result.Ok? <==> Enqueued(old(Contents()), batch).Some?
      ensures result.Ok? ==> Contents() == Enqueued(old(Contents()), batch).value
      ensures result.Ok? ==> |result.value| == |batch|
      ensures result.Ok? ==> forall k :: 0 <= k < |batch| ==> Duplicates(jobs, batch[k].fingerprint, result.value[k])
      ensures result.Err? ==> result.error == IntegrityError && Contents() == old(Contents())
    {
      var jobsBefore, clipsBefore := jobs, clips;
      var results := [];
      for k := 0 to |batch|
        invariant Enqueued(old(Contents()), batch[..k]) == Some(Contents())
        invariant jobsBefore == old(jobs) && clipsBefore == old(clips) && attempts == old(attempts)
        invariant |results| == k
        invariant forall i :: 0 <= i < k ==> Duplicates(jobs, batch[i].fingerprint, results[i])
      {
        assert batch[..k + 1][..k] == batch[..k];
        var result := EnqueueNext(batch[k]);
        if result.None? {
          EnqueuedStaysNone(old(Contents()), batch, k + 1);
          jobs, clips := jobsBefore, clipsBefore;
          return Err(IntegrityError);
        }
        results := results + [result.value];
      }
      assert batch[..|batch|] == batch;
      result := Ok(results);
    }

    /** One entry of a batch: the active duplicate, or a new row; None when the primary key clashes. */
    method EnqueueNext(request: NewJob) returns (result: Option<JobId>)
      modifies this`jobs, this`clips
      ensures result.None? ==> Contents() == old(Contents())
      ensures result.None? <==> !HasDuplicate(old(jobs), request.fingerprint) && request.id in old(jobs)
      ensures result.Some? ==> Duplicates(jobs, request.fingerprint, result.value)
      ensures result.Some? ==>
        Contents() ==
          if HasDuplicate(old(jobs), request.fingerprint) then old(Contents())
          else Inserted(old(Contents()), request)
    {
      var same := set id | id in jobs && jobs[id].Active() && jobs[id].fingerprint == request.fingerprint;
      assert forall id :: Duplicates(jobs, request.fingerprint, id) <==> id in same;
      result := SelectFirst(jobs, same);
      if result.None? {
        if request.id in jobs {
          return None;
        }
        jobs := jobs[request.id :=
          Job(request.kind, Queued, request.created, None, None, request.fingerprint, 0, request.maxAttempts, false)];
        if request.kind == Compile {
          clips := WithClip(clips, request.fingerprint.clip, Pending);
        }
        result := Some(request.id);
      }
    }

    /** Claims the earliest queued job, and only while nothing is running. */
    method ClaimNext(now: Time) returns (claimed: Option<JobId>)
      modifies this
      ensures claimed.None? ==> Contents() == old(Contents())
      ensures claimed.None? ==> !Idle(jobs) || forall id :: id in jobs ==> jobs[id].state != Queued
      ensures claimed.Some? ==> Idle(old(jobs)) && NextInLine(old(jobs), claimed.value)
      ensures claimed.Some? ==> forall id :: id in old(jobs) && old(jobs)[id].state == Queued ==>
        old(jobs)[claimed.value].created < old(jobs)[id].created ||
        (old(jobs)[claimed.value].created == old(jobs)[id].created && claimed.value.rank <= id.rank)
      ensures claimed.Some? ==> Contents() == Claimed(old(Contents()), claimed.value, now)
    {
      var queued := set id | id in jobs && jobs[id].state == Queued;
      claimed := SelectFirst(jobs, queued);
      if claimed.None? {
        assert forall id :: id in jobs && jobs[id].state == Queued ==> id in queued;
        return;
      }
      var id := claimed.value;
      if exists other :: other in jobs && jobs[other].state == Running {
        return None;
      }
      jobs := jobs[id := jobs[id].(state := Running, started := Some(now), attempt := jobs[id].attempt + 1)];
      attempts := attempts + [AttemptRow(id, jobs[id].attempt, Running, None)];
      if jobs[id].kind == Compile {
        clips := WithClip(clips, jobs[id].fingerprint.clip, Compiling);
      }
    }

    method Update(id: JobId, job: Job, now: Time) returns (result: Result<Job, QueueError>)
      modifies this
      ensures id !in old(jobs) ==> result == Err(KeyError) && Contents() == old(Contents())
      ensures id in old(jobs) ==> Contents() == Updated(old(Contents()), id, job, now) && result == Ok(jobs[id])
    {
      if id !in jobs {
        return Err(KeyError);
      }
      jobs := jobs[id := jobs[id].(state := job.state, started := job.started, finished := job.finished,
                                   attempt := job.attempt, cancelRequested := job.cancelRequested)];
      if job.state != Running {
        attempts := AttemptsClosed(attempts, id, job.state, now);
      }
      if job.kind == Compile {
        var clip := job.fingerprint.clip;
        match job.state {
          case Queued => clips := WithClip(clips, clip, Pending);
          case Failed => clips := WithClip(clips, clip, Broken);
          case Cancelled => clips := ClipReleased(clips, clip);
          case _ =>
        }
      }
      result := Ok(jobs[id]);
    }

    method RequestCancel(id: JobId, now: Time) returns (result: Result<Job, QueueError>)
      modifies this
      ensures id !in old(jobs) ==> result == Err(KeyError) && Contents() == old(Contents())
      ensures id in old(jobs) ==> Contents() == CancelRequested(old(Contents()), id, now) && result == Ok(jobs[id])
    {
      if id !in jobs {
        return Err(KeyError);
      }
      var row := jobs[id];
      if row.Active() {
        if row.state == Queued {
          jobs := jobs[id := row.(state := Cancelled, cancelRequested := true, finished := Some(now))];
          if row.kind == Compile {
            clips := ClipReleased(clips, row.fingerprint.clip);
          }
        } else {
          jobs := jobs[id := row.(cancelRequested := true)];
        }
      }
      assert jobs == old(jobs)[id := JobCancelled(row, now)];
      result := Ok(jobs[id]);
    }

    /** The active jobs in claim order. */
    method SelectActive() returns (ids: seq<JobId>)
      ensures ids == InOrder(jobs, ActiveJobs(jobs))
      ensures forall id :: id in ids <==> id in jobs && jobs[id].Active()
      ensures InTurn(jobs, ids)
      ensures forall i, k :: 0 <= i < k < |ids| ==>
        jobs[ids[i]].created < jobs[ids[k]].created ||
        (jobs[ids[i]].created == jobs[ids[k]].created && ids[i].rank < ids[k].rank)
    {
      ids := SelectOrdered(jobs, ActiveJobs(jobs));
      InOrderElements(jobs, ActiveJobs(jobs));
      InOrderIsSorted(jobs, ActiveJobs(jobs));
    }

    /** Cancel-all: lists exactly the active jobs, leaves none queued, touches no finished one. */
    method CancelActive(now: Time) returns (cancelled: seq<JobId>)
      modifies this
      ensures cancelled == InOrder(old(jobs), ActiveJobs(old(jobs)))
      ensures forall id :: id in cancelled <==> id in old(jobs) && old(jobs)[id].Active()
      ensures Contents() == CancelEach(old(Contents()), cancelled, now)
      ensures jobs.Keys == old(jobs).Keys
      ensures forall id :: id in jobs ==> jobs[id] == JobCancelled(old(jobs)[id], now)
      ensures forall id ::
        id in jobs ==> jobs[id].state != Queued && (jobs[id].state == Running ==> jobs[id].cancelRequested)
    {
      CancelAllReachesTheActive(Contents(), now);
      cancelled := SelectActive();
      CancelListed(cancelled, now);
    }

    method CancelListed(ids: seq<JobId>, now: Time)
      requires forall id :: id in ids ==> id in jobs
      modifies this
      ensures Contents() == CancelEach(old(Contents()), ids, now)
    {
      for k := 0 to |ids|
        invariant Contents() == CancelEach(old(Contents()), ids[..k], now)
      {
        assert ids[..k + 1][..k] == ids[..k];
        var _ := RequestCancel(ids[k], now);
      }
      assert ids[..|ids|] == ids;
    }

    /** The two recovery statements a restarted worker runs before it consumes again. */
    method Recover(now: Time)
      modifies this
      ensures Contents() == Recovered(old(Contents()), now)
    {
      RecoveryInTwoStatements(jobs, now);
      jobs := RunningRequeued(jobs);
      jobs := RunningFailed(jobs, now);
    }
  }

  lemma {:induction false} EnqueuedStaysNone(rows: Rows, batch: seq<NewJob>, k: nat)
    requires k <= |batch| && Enqueued(rows, batch[..k]).None?
    ensures Enqueued(rows, batch).None?
    decreases |batch| - k
  {
    if k == |batch| {
      assert batch[..k] == batch;
    } else {
      assert batch[..k + 1][..k] == batch[..k];
      EnqueuedStaysNone(rows, batch, k + 1);
    }
  }
}
