/** What playback history promises over whole runs: no repeats within a round, and one reset a day. */
module HistoryRuns {
  import opened Wrappers
  import opened History
  import opened Sequences

  datatype Event =
    | Pick(r: Request)
    | DryRun(r: Request)
    | Reset(collection: Option<CollectionId>, now: int)
    | Tick(now: int)

  /** One successful pick, with what was eligible at the time. */
  datatype Entry = Entry(collection: CollectionId, clip: ClipId, round: int, eligible: seq<ClipId>)

  datatype Session = Session(collections: Collections, log: seq<Entry>)

  function Logged(collections: Collections, config: Config, r: Request): seq<Entry> {
    match Answer(collections, config, r)
    case Ok(Selection(Some(clip), round, _)) => [Entry(r.collection, clip, round, Eligible(r.offered))]
    case _ => []
  }

  function After(s: Session, config: Config, event: Event): Session {
    match event
    case Pick(r) => Session(AfterSelect(s.collections, config, r), s.log + Logged(s.collections, config, r))
    case DryRun(_) => s
    case Reset(collection, now) =>
      s.(collections := ResetAmong(s.collections, config, Named(s.collections, collection), now))
    case Tick(now) => s.(collections := Reconciled(s.collections, config, now))
  }

  function Play(s: Session, config: Config, events: seq<Event>): Session {
    if events == [] then s
    else After(Play(s, config, events[..|events| - 1]), config, events[|events| - 1])
  }

  function TimeOf(event: Event): int {
    match event
    case Pick(r) => r.now
    case DryRun(r) => r.now
    case Reset(_, now) => now
    case Tick(now) => now
  }

  // ---------- No repeat ----------

  /** Some pick of the collection after entry `i` and before `end` had the clip out of its eligible set. */
  ghost predicate DroppedOut(log: seq<Entry>, i: int, end: int, collection: CollectionId, clip: ClipId) {
    exists j :: 0 <= i < j < end <= |log| && DropsOut(log[j], collection, clip)
  }

  predicate DropsOut(e: Entry, collection: CollectionId, clip: ClipId) {
    e.collection == collection && clip !in e.eligible
  }

  ghost predicate NoRepeat(log: seq<Entry>) {
    forall i, k ::
      0 <= i < k < |log| && log[i].collection == log[k].collection && log[i].clip == log[k].clip &&
        log[i].round == log[k].round
      ==> DroppedOut(log, i, k, log[i].collection, log[i].clip)
  }

  ghost predicate RoundsGrow(log: seq<Entry>) {
    forall i, k :: 0 <= i < k < |log| && log[i].collection == log[k].collection ==> log[i].round <= log[k].round
  }

  /** The record remembers every pick of its current round, except those that dropped out since. */
  ghost predicate Remembers(s: Session, i: int)
    requires 0 <= i < |s.log|
  {
    var e := s.log[i];
    && e.collection in s.collections
    && e.round <= s.collections[e.collection].round
    && (e.round == s.collections[e.collection].round ==>
          e.clip in s.collections[e.collection].played || DroppedOut(s.log, i, |s.log|, e.collection, e.clip))
  }

  ghost predicate Sound(s: Session) {
    && (forall i :: 0 <= i < |s.log| ==> Remembers(s, i))
    && (forall i :: 0 <= i < |s.log| ==> s.log[i].clip in s.log[i].eligible)
    && NoRepeat(s.log) && RoundsGrow(s.log)
  }

  lemma ResetKeepsSound(s: Session, config: Config, ids: set<CollectionId>, now: int)
    requires Sound(s)
    ensures Sound(s.(collections := ResetAmong(s.collections, config, ids, now)))
  {
    var after := s.(collections := ResetAmong(s.collections, config, ids, now));
    forall i | 0 <= i < |s.log| ensures Remembers(after, i) {
      assert Remembers(s, i);
    }
  }

  lemma DroppedOutLater(log: seq<Entry>, e: Entry, i: int, end: int, collection: CollectionId, clip: ClipId)
    requires DroppedOut(log, i, end, collection, clip)
    ensures DroppedOut(log + [e], i, end, collection, clip)
    ensures DroppedOut(log + [e], i, |log| + 1, collection, clip)
  {
    var j :| 0 <= i < j < end <= |log| && DropsOut(log[j], collection, clip);
    assert (log + [e])[j] == log[j];
  }

  /** Storing a pick: the round may only grow, and within a round only ineligible clips are forgotten. */
  ghost predicate Continues(was: Option<Record>, stored: Record, e: Entry) {
    && e.round == stored.round && e.clip in stored.played && e.clip in e.eligible
    && (was.Some? ==> was.value.round <= stored.round)
    && (was.Some? && was.value.round == stored.round ==>
          e.clip !in was.value.played &&
            forall id :: id in was.value.played && id in e.eligible ==> id in stored.played)
  }

  lemma StoreRemembers(s: Session, stored: Record, e: Entry, i: int)
    requires 0 <= i < |s.log| && Remembers(s, i) && Continues(RecordOf(s.collections, e.collection), stored, e)
    ensures Remembers(Session(s.collections[e.collection := stored], s.log + [e]), i)
    ensures s.log[i].collection == e.collection ==> s.log[i].round <= e.round
    ensures s.log[i].collection == e.collection && s.log[i].clip == e.clip && s.log[i].round == e.round
      ==> DroppedOut(s.log, i, |s.log|, e.collection, e.clip)
  {
    var log, n, earlier := s.log + [e], |s.log|, s.log[i];
    assert log[i] == earlier && log[n] == e;
    if DroppedOut(s.log, i, n, earlier.collection, earlier.clip) {
      DroppedOutLater(s.log, e, i, n, earlier.collection, earlier.clip);
    } else if earlier.collection == e.collection && earlier.clip !in e.eligible {
      assert DropsOut(log[n], earlier.collection, earlier.clip);
    }
  }

  lemma StoreKeepsSound(s: Session, stored: Record, e: Entry)
    requires Sound(s) && Continues(RecordOf(s.collections, e.collection), stored, e)
    ensures Sound(Session(s.collections[e.collection := stored], s.log + [e]))
  {
    var after, n := Session(s.collections[e.collection := stored], s.log + [e]), |s.log|;
    forall i | 0 <= i < n {
      StoreRemembers(s, stored, e, i);
    }
    forall i, k | 0 <= i < k <= n && after.log[i].collection == after.log[k].collection
        && after.log[i].clip == after.log[k].clip && after.log[i].round == after.log[k].round
      ensures DroppedOut(after.log, i, k, after.log[i].collection, after.log[i].clip)
    {
      assert after.log[i] == s.log[i];
      assert DroppedOut(s.log, i, k, s.log[i].collection, s.log[i].clip);
      DroppedOutLater(s.log, e, i, k, s.log[i].collection, s.log[i].clip);
    }
    assert Remembers(after, n);
  }

  lemma PickContinues(collections: Collections, config: Config, r: Request, clip: ClipId)
    requires clip in TurnAt(collections, config, r).remaining
    ensures var turn, record :=
      TurnAt(collections, config, r), RecordOf(Reconciled(collections, config, r.now), r.collection);
      Continues(record, Stored(record, turn, clip, config, r.now),
        Entry(r.collection, clip, turn.round, Eligible(r.offered)))
  {
    var eligible, record := Eligible(r.offered), RecordOf(Reconciled(collections, config, r.now), r.collection);
    if record.Some? {
      var played := Kept(record.value.played, eligible, true);
      KeptElements(record.value.played, eligible, true);
      KeptElements(eligible, played, false);
    } else {
      KeptElements(eligible, [], false);
    }
  }

  lemma StepKeepsSound(s: Session, config: Config, event: Event)
    requires Sound(s)
    ensures Sound(After(s, config, event))
  {
    match event {
      case Reset(collection, now) => ResetKeepsSound(s, config, Named(s.collections, collection), now);
      case Tick(now) => ResetKeepsSound(s, config, OutdatedIds(s.collections, config, now), now);
      case DryRun(_) =>
      case Pick(r) =>
        ResetKeepsSound(s, config, OutdatedIds(s.collections, config, r.now), r.now);
        var reconciled := s.(collections := Reconciled(s.collections, config, r.now));
        if Logged(s.collections, config, r) == [] {
          assert After(s, config, event) == reconciled;
        } else {
          var e := Logged(s.collections, config, r)[0];
          var record := RecordOf(reconciled.collections, r.collection);
          PickContinues(s.collections, config, r, e.clip);
          StoreKeepsSound(reconciled, Stored(record, TurnAt(s.collections, config, r), e.clip, config, r.now), e);
        }
    }
  }

  /** Over any run: rounds never go back, and a clip comes up twice in a round only if it was ineligible in between. */
  lemma {:induction false} NoRepeatOverAnyRun(s: Session, config: Config, events: seq<Event>)
    requires Sound(s)
    ensures Sound(Play(s, config, events))
    ensures NoRepeat(Play(s, config, events).log) && RoundsGrow(Play(s, config, events).log)
  {
    if events != [] {
      NoRepeatOverAnyRun(s, config, events[..|events| - 1]);
      StepKeepsSound(Play(s, config, events[..|events| - 1]), config, events[|events| - 1]);
    }
  }

  /** A store as it is loaded, with nothing picked yet, is a sound start. */
  lemma LoadedIsSound(loaded: Collections)
    ensures Sound(Session(loaded, []))
  {
  }

  // ---------- The daily reset ----------

  /** A reset instant falls in the half-open interval from `a` to `b`. */
  ghost predicate Crossed(a: int, b: int, resetTime: int) {
    exists day: int :: a < ResetInstant(day, resetTime) <= b
  }

  function ResetInstant(day: int, resetTime: int): int {
    day * DAY + resetTime
  }

  /** Two instants share a period exactly when no reset instant lies between them. */
  lemma SamePeriodIffNotCrossed(a: int, b: int, resetTime: int)
    requires a <= b && 0 <= resetTime < DAY
    ensures Period(a, resetTime) == Period(b, resetTime) <==> !Crossed(a, b, resetTime)
  {
    var p, q := Period(a, resetTime), Period(b, resetTime);
    if p != q {
      assert a < ResetInstant(q, resetTime) <= b;
    } else {
      forall day: int ensures !(a < ResetInstant(day, resetTime) <= b) {
        if day <= p { assert day * DAY <= p * DAY; } else { assert day * DAY >= (p + 1) * DAY; }
      }
    }
  }

  /** A pick, of any collection, or a tick of the listener finds the record's period over. */
  predicate Rolls(s: Session, config: Config, event: Event, c: CollectionId) {
    !event.DryRun? && c in s.collections && Outdated(s.collections[c], config, TimeOf(event))
  }

  /** How often a run rolled the record over. */
  function Rollovers(s: Session, config: Config, events: seq<Event>, c: CollectionId): nat {
    if events == [] then 0 else
      var front, last := events[..|events| - 1], events[|events| - 1];
      Rollovers(s, config, front, c) + if Rolls(Play(s, config, front), config, last, c) then 1 else 0
  }

  /** When the store was last reconciled; a dry run works on a copy. */
  function LastStored(start: int, events: seq<Event>): int {
    if events == [] then start
    else if events[|events| - 1].DryRun? then LastStored(start, events[..|events| - 1])
    else TimeOf(events[|events| - 1])
  }

  /** How many of the events found a reset instant behind them since the store was last reconciled. */
  ghost function Crossings(start: int, events: seq<Event>, resetTime: int): nat {
    if events == [] then 0 else
      var front, last := events[..|events| - 1], events[|events| - 1];
      Crossings(start, front, resetTime) +
      if !last.DryRun? && Crossed(LastStored(start, front), TimeOf(last), resetTime) then 1 else 0
  }

  /** What one event does to a record in daily mode, whichever collection it is for. */
  lemma DailyStep(s: Session, config: Config, event: Event, c: CollectionId)
    requires config.mode == Daily && c in s.collections && !event.Reset?
    ensures var was, after, rolls := s.collections[c], After(s, config, event).collections, Rolls(s, config, event, c);
      && c in after
      && after[c].period == (if event.DryRun? then was.period else Period(TimeOf(event), config.resetTime))
      && after[c].lastReset == (if rolls then Some(TimeOf(event)) else was.lastReset)
      && after[c].round >= was.round + if rolls then 1 else 0
  {
  }

  lemma {:induction false} LastStoredInTime(start: int, events: seq<Event>, end: int)
    requires start <= end && forall i :: 0 <= i < |events| ==> TimeOf(events[i]) <= end
    ensures LastStored(start, events) <= end
  {
    if events != [] {
      LastStoredInTime(start, events[..|events| - 1], end);
    }
  }

  /**
   Over any picks, dry runs and ticks in order of time, the listener and the lazy reconcile together reset a record
   exactly once per stretch with a reset instant in it, and never within a period.
   */
  lemma {:induction false} DailyResetsOncePerCrossing(s: Session, config: Config, c: CollectionId, start: int,
      events: seq<Event>)
    requires config.mode == Daily && 0 <= config.resetTime < DAY
    requires c in s.collections && s.collections[c].period == Period(start, config.resetTime)
    requires forall i :: 0 <= i < |events| ==> !events[i].Reset? && start <= TimeOf(events[i])
    requires forall i, k :: 0 <= i <= k < |events| ==> TimeOf(events[i]) <= TimeOf(events[k])
    ensures var after := Play(s, config, events).collections;
      && c in after && after[c].period == Period(LastStored(start, events), config.resetTime)
      && Rollovers(s, config, events, c) == Crossings(start, events, config.resetTime)
      && after[c].round >= s.collections[c].round + Rollovers(s, config, events, c)
  {
    if events != [] {
      var front, last := events[..|events| - 1], events[|events| - 1];
      assert forall i :: 0 <= i < |front| ==> front[i] == events[i];
      DailyResetsOncePerCrossing(s, config, c, start, front);
      DailyStep(Play(s, config, front), config, last, c);
      LastStoredInTime(start, front, TimeOf(last));
      SamePeriodIffNotCrossed(LastStored(start, front), TimeOf(last), config.resetTime);
    }
  }
}
