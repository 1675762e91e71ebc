/**
 Keyed job requests at the worker's API: a request is remembered under its idempotency key in the
 same transaction that enqueues its jobs, and any later delivery of the key replays those jobs.
 */
module Idempotency {
  import opened JobQueue
  import opened QueueEffects
  import opened Sequences
  import opened WorkerLoop
  import opened Wrappers

  /** An occurrence token or a generated key. */
  datatype Key = Key(collection: int, minute: int)

  /** What was remembered: the digest of operation and payload, and the ids of the jobs returned. */
  datatype Remembered = Remembered(payload: int, ids: seq<JobId>)

  /** `created` lists the keys whose create step took effect, in order. */
  datatype Server = Server(system: System, records: map<Key, Remembered>, created: seq<Key>)

  /**
   What the create step of an arriving request would do now: raise, enqueue a batch, report the job already under
   way, cancel one job, or cancel every active one. Only an enqueue is also protected by deduplication.
   */
  datatype Create =
    | Refuse
    | Submit(batch: seq<NewJob>)
    | Report(id: JobId)
    | CancelOne(job: JobId, at: Time)
    | CancelAll(now: Time)

  /** One arrival of a request. */
  datatype Delivery = Delivery(key: Key, payload: int, create: Create)

  datatype Response = Accepted(ids: seq<JobId>) | Conflict | Unavailable | Refused

  function ActiveIds(jobs: map<JobId, Job>, fingerprint: Fingerprint): set<JobId> {
    set id | id in jobs && jobs[id].Active() && jobs[id].fingerprint == fingerprint
  }

  /** The one active job with a fingerprint. */
  ghost function ActiveId(jobs: map<JobId, Job>, fingerprint: Fingerprint): JobId {
    if ActiveIds(jobs, fingerprint) == {} then JobId(0) else Chosen(ActiveIds(jobs, fingerprint))
  }

  datatype Effect = Effect(rows: Rows, ids: seq<JobId>)

  /** A submission answers with its first job; an empty one raises. */
  ghost function Created(rows: Rows, create: Create): Option<Effect> {
    match create
    case Refuse => None
    case Submit(batch) =>
      var after := Enqueued(rows, batch);
      if batch == [] || after.None? then None
      else Some(Effect(after.value, [ActiveId(after.value.jobs, batch[0].fingerprint)]))
    case Report(id) => if id in rows.jobs then Some(Effect(rows, [id])) else None
    case CancelOne(id, now) => if id in rows.jobs then Some(Effect(CancelRequested(rows, id, now), [id])) else None
    case CancelAll(now) =>
      var ids := InOrder(rows.jobs, ActiveJobs(rows.jobs));
      Some(Effect(CancelEach(rows, ids, now), ids))
  }

  ghost function Delivered(s: Server, d: Delivery): (Server, Response) {
    if d.key in s.records then
      var record := s.records[d.key];
      if record.payload != d.payload then (s, Conflict)
      else if exists id :: id in record.ids && id !in s.system.rows.jobs then (s, Unavailable)
      else (s, Accepted(record.ids))
    else
      var effect := Created(s.system.rows, d.create);
      if effect.None? then (s, Refused) else
        (Server(s.system.(rows := effect.value.rows), s.records[d.key := Remembered(d.payload, effect.value.ids)],
          s.created + [d.key]),
         Accepted(effect.value.ids))
  }

  // ---------- Runs: deliveries between the steps of the worker ----------

  datatype Event = Arrives(d: Delivery) | Works(step: Step)

  ghost predicate Possible(s: Server, e: Event) {
    e.Works? ==> Enabled(s.system, e.step)
  }

  ghost function Next(s: Server, e: Event): Server
    requires Possible(s, e)
  {
    match e
    case Arrives(d) => Delivered(s, d).0
    case Works(step) => s.(system := Apply(s.system, step))
  }

  ghost predicate PossibleRun(s: Server, run: seq<Event>)
    decreases |run|
  {
    run == [] || (Possible(s, run[0]) && PossibleRun(Next(s, run[0]), run[1..]))
  }

  ghost function Run(s: Server, run: seq<Event>): Server
    requires PossibleRun(s, run)
    decreases |run|
  {
    if run == [] then s else Run(Next(s, run[0]), run[1..])
  }

  /** Created exactly once per remembered key, and every remembered job still exists. */
  ghost predicate Sound(s: Server) {
    && Inv(s.system)
    && Unique(s.created)
    && (forall key :: key in s.created <==> key in s.records)
    && forall key, id :: key in s.records && id in s.records[key].ids ==> id in s.system.rows.jobs
  }

  const START := Server(WorkerLoop.EMPTY, map[], [])

  lemma ActiveIdIsActive(jobs: map<JobId, Job>, fingerprint: Fingerprint)
    requires HasDuplicate(jobs, fingerprint)
    ensures Duplicates(jobs, fingerprint, ActiveId(jobs, fingerprint))
  {
    var id :| Duplicates(jobs, fingerprint, id);
    assert id in ActiveIds(jobs, fingerprint);
  }

  /** Cancelling one job after the other is that many steps of the state machine. */
  lemma {:induction false} CancelEachKeepsInv(system: System, ids: seq<JobId>, now: Time)
    requires Inv(system) && forall id :: id in ids ==> id in system.rows.jobs
    ensures Inv(system.(rows := CancelEach(system.rows, ids, now)))
  {
    if ids != [] {
      var front, last := ids[..|ids| - 1], ids[|ids| - 1];
      CancelEachKeepsInv(system, front, now);
      StepKeepsInv(system.(rows := CancelEach(system.rows, front, now)), Cancel(last, now));
    }
  }

  lemma SubmitKeepsInv(system: System, batch: seq<NewJob>)
    requires Inv(system) && batch != [] && Enqueued(system.rows, batch).Some?
    ensures var rows := Enqueued(system.rows, batch).value;
      && Inv(system.(rows := rows)) && (forall id :: id in system.rows.jobs ==> id in rows.jobs)
      && ActiveId(rows.jobs, batch[0].fingerprint) in rows.jobs
  {
    StepKeepsInv(system, Enqueue(batch));
    EnqueuedKeeps(system.rows, batch);
    ActiveAfterEnqueue(system.rows, batch);
    ActiveIdIsActive(Enqueued(system.rows, batch).value.jobs, batch[0].fingerprint);
  }

  lemma CreateKeepsInv(system: System, create: Create)
    requires Inv(system) && Created(system.rows, create).Some?
    ensures var effect := Created(system.rows, create).value;
      && Inv(system.(rows := effect.rows))
      && (forall id :: id in system.rows.jobs ==> id in effect.rows.jobs)
      && (forall id :: id in effect.ids ==> id in effect.rows.jobs)
  {
    match create {
      case Submit(batch) => SubmitKeepsInv(system, batch);
      case CancelOne(id, now) => StepKeepsInv(system, Cancel(id, now));
      case CancelAll(now) => CancelEachKeepsInv(system, InOrder(system.rows.jobs, ActiveJobs(system.rows.jobs)), now);
      case _ =>
    }
  }

  lemma EventKeepsSound(s: Server, e: Event)
    requires Sound(s) && Possible(s, e)
    ensures Sound(Next(s, e))
    ensures forall key :: key in s.records ==> key in Next(s, e).records && Next(s, e).records[key] == s.records[key]
  {
    match e {
      case Works(step) =>
        StepKeepsInv(s.system, step);
        forall id | id in s.system.rows.jobs { StepKeepsFinished(s.system, step, id); }
      case Arrives(d) =>
        if d.key !in s.records && Created(s.system.rows, d.create).Some? {
          CreateKeepsInv(s.system, d.create);
        }
    }
  }

  /** Over any run, each key's create step takes effect at most once, and exactly when the key is remembered. */
  lemma {:induction false} CreatedAtMostOnce(s: Server, run: seq<Event>)
    requires Sound(s) && PossibleRun(s, run)
    ensures Sound(Run(s, run))
    ensures forall key :: key in s.records ==> key in Run(s, run).records && Run(s, run).records[key] == s.records[key]
    decreases |run|
  {
    if run != [] {
      EventKeepsSound(s, run[0]);
      CreatedAtMostOnce(Next(s, run[0]), run[1..]);
    }
  }

  /** Whatever happened since, a retry of an accepted request gets the same jobs; a different request under its key
      is a conflict. */
  lemma RetryIsReplayed(s: Server, d: Delivery, between: seq<Event>, again: Delivery)
    requires Sound(s) && Delivered(s, d).1.Accepted? && again.key == d.key
    requires PossibleRun(Delivered(s, d).0, between)
    ensures var later := Run(Delivered(s, d).0, between);
      Delivered(later, again) == (later, if again.payload == d.payload then Delivered(s, d).1 else Conflict)
  {
    EventKeepsSound(s, Arrives(d));
    CreatedAtMostOnce(Delivered(s, d).0, between);
  }

  lemma RememberedArrivalIsIdle(s: Server, d: Delivery)
    requires d.key in s.records
    ensures Next(s, Arrives(d)) == s
  {
  }

  lemma RunFrom(s: Server, e: Event, rest: seq<Event>)
    ensures PossibleRun(s, [e] + rest) <==> Possible(s, e) && PossibleRun(Next(s, e), rest)
    ensures PossibleRun(s, [e] + rest) ==> Run(s, [e] + rest) == Run(Next(s, e), rest)
  {
    assert ([e] + rest)[0] == e && ([e] + rest)[1..] == rest;
  }

  /** Inserting a retry anywhere after its key was remembered leaves the run possible and its final state unchanged. */
  lemma {:induction false} InsertedRetryIsInvisible(s: Server, before: seq<Event>, d: Delivery, after: seq<Event>)
    requires PossibleRun(s, before) && d.key in Run(s, before).records
    requires PossibleRun(s, before + after)
    ensures PossibleRun(s, before + [Arrives(d)] + after)
    ensures Run(s, before + [Arrives(d)] + after) == Run(s, before + after)
    decreases |before|
  {
    if before == [] {
      assert before + after == after && before + [Arrives(d)] + after == [Arrives(d)] + after;
      RememberedArrivalIsIdle(s, d);
      RunFrom(s, Arrives(d), after);
    } else {
      var e, front := before[0], before[1..];
      assert before == [e] + front && before + after == [e] + (front + after);
      assert before + [Arrives(d)] + after == [e] + (front + [Arrives(d)] + after);
      RunFrom(s, e, front);
      RunFrom(s, e, front + after);
      InsertedRetryIsInvisible(Next(s, e), front, d, after);
      RunFrom(s, e, front + [Arrives(d)] + after);
    }
  }

  /** A retried cancel-all answers with the jobs the first one met and leaves every job enqueued since alone. */
  lemma RetriedCancelAllSparesLaterJobs(s: Server, d: Delivery, between: seq<Event>, again: Delivery)
    requires Sound(s) && d.create.CancelAll? && d.key !in s.records
    requires again.key == d.key && again.payload == d.payload
    requires PossibleRun(Delivered(s, d).0, between)
    ensures var later := Run(Delivered(s, d).0, between);
      var (after, response) := Delivered(later, again);
      && after == later && response.Accepted?
      && (forall id :: id in response.ids <==> id in s.system.rows.jobs && s.system.rows.jobs[id].Active())
      && (forall id :: id in later.system.rows.jobs && id !in s.system.rows.jobs ==>
            id !in response.ids && after.system.rows.jobs[id] == later.system.rows.jobs[id])
  {
    InOrderElements(s.system.rows.jobs, ActiveJobs(s.system.rows.jobs));
    RetryIsReplayed(s, d, between, again);
  }

  // ---------- The API object ----------

  class WorkerApi {
    const queue: PersistentJobQueue
    var records: map<Key, Remembered>
    ghost var held: Option<Held>
    ghost var created: seq<Key>

    constructor (queue: PersistentJobQueue)
      ensures this.queue == queue && records == map[] && created == [] && held == None
    {
      this.queue, records, created, held := queue, map[], [], None;
    }

    ghost function State(): Server
      reads this, queue
    {
      Server(System(queue.Contents(), held), records, created)
    }

    /** `_replay_or_remember_job` and `_replay_or_remember_jobs`: replay, or create and remember in one transaction. */
    method ReplayOrRemember(d: Delivery) returns (response: Response)
      requires OneActivePerFingerprint(queue.jobs)
      modifies this, queue
      ensures (State(), response) == Delivered(old(State()), d)
    {
      if d.key in records {
        var record := records[d.key];
        if record.payload != d.payload { return Conflict; }
        if exists id :: id in record.ids && id !in queue.jobs { return Unavailable; }
        return Accepted(record.ids);
      }
      var ids := Perform(d.create);
      if ids.None? { return Refused; }
      records := records[d.key := Remembered(d.payload, ids.value)];
      created := created + [d.key];
      response := Accepted(ids.value);
    }

    /** The create callbacks of the keyed routes. */
    method Perform(create: Create) returns (ids: Option<seq<JobId>>)
      requires OneActivePerFingerprint(queue.jobs)
      modifies queue
      ensures var effect := Created(old(queue.Contents()), create);
        if effect.None? then ids.None? && queue.Contents() == old(queue.Contents())
        else ids == Some(effect.value.ids) && queue.Contents() == effect.value.rows
    {
      match create {
        case Refuse => return None;
        case Submit(batch) => ids := Enqueue(batch);
        case Report(id) => return if id in queue.jobs then Some([id]) else None;
        case CancelOne(id, now) =>
          var cancelled := queue.RequestCancel(id, now);
          return if cancelled.Ok? then Some([id]) else None;
        case CancelAll(now) =>
          var cancelled := queue.CancelActive(now);
          return Some(cancelled);
      }
    }

    method Enqueue(batch: seq<NewJob>) returns (ids: Option<seq<JobId>>)
      requires OneActivePerFingerprint(queue.jobs)
      modifies queue
      ensures var effect := Created(old(queue.Contents()), Submit(batch));
        if effect.None? then ids.None? && queue.Contents() == old(queue.Contents())
        else ids == Some(effect.value.ids) && queue.Contents() == effect.value.rows
    {
      if batch == [] { return None; }
      ghost var before := queue.Contents();
      var enqueued := queue.EnqueueMany(batch);
      if enqueued.Err? { return None; }
      EnqueuedKeeps(before, batch);
      var first := enqueued.value[0];
      ActiveIdIsActive(queue.jobs, batch[0].fingerprint);
      assert Duplicates(queue.jobs, batch[0].fingerprint, first);
      ids := Some([first]);
    }
  }
}
