/**
 No-repeat playback history: rounds over a changing set of eligible clips, dry runs, explicit
 resets and the daily reset. Times are local seconds at a fixed offset.
 */
module History {
  import opened Sequences
  import opened Wrappers

  type CollectionId = int

  /** An id is a non-empty string, or blank. */
  datatype ClipId = Blank | ClipId(key: int)

  const DAY := 86400

  datatype ResetMode = OnExhaustion | Daily

  datatype Playback = Random | Ordered

  datatype Config = Config(mode: ResetMode, resetTime: int)

  datatype Record = Record(period: int, round: int, played: seq<ClipId>, last: Option<ClipId>, lastReset: Option<int>,
    resetPending: bool)

  type Collections = map<CollectionId, Record>

  datatype Selection = Selection(clip: Option<ClipId>, round: int, historyReset: bool)

  datatype HistoryError = ChooserError

  /** One request: the chooser's answer is a parameter, consulted only in random mode. */
  datatype Request = Request(collection: CollectionId, offered: seq<ClipId>, playback: Playback, choice: ClipId,
    now: int)

  // ---------- The pure parts ----------

  function Period(now: int, resetTime: int): int {
    var date := now / DAY;
    if now >= date * DAY + resetTime then date else date - 1
  }

  function ResetRecord(record: Record, config: Config, now: int): Record {
    Record(Period(now, config.resetTime), record.round + 1, [], None, Some(now), true)
  }

  predicate Outdated(record: Record, config: Config, now: int) {
    config.mode == Daily && record.period != Period(now, config.resetTime)
  }

  function ResetAmong(collections: Collections, config: Config, ids: set<CollectionId>, now: int): Collections {
    map c | c in collections :: if c in ids then ResetRecord(collections[c], config, now) else collections[c]
  }

  function OutdatedIds(collections: Collections, config: Config, now: int): set<CollectionId> {
    set c | c in collections && Outdated(collections[c], config, now)
  }

  function Reconciled(collections: Collections, config: Config, now: int): Collections {
    ResetAmong(collections, config, OutdatedIds(collections, config, now), now)
  }

  /** An explicit reset names one collection, or every known one. */
  function Named(collections: Collections, collection: Option<CollectionId>): set<CollectionId> {
    set c | c in collections && (collection.None? || collection.value == c)
  }

  /** First occurrences of the non-empty ids, in order. */
  function Eligible(offered: seq<ClipId>): seq<ClipId> {
    if offered == [] then [] else
      var front, last := Eligible(offered[..|offered| - 1]), offered[|offered| - 1];
      if last == Blank || last in front then front else front + [last]
  }

  lemma {:induction false} EligibleIds(offered: seq<ClipId>)
    ensures forall id :: id in Eligible(offered) <==> id in offered && id != Blank
    ensures Unique(offered) && Blank !in offered ==> Eligible(offered) == offered
  {
    if offered != [] {
      EligibleIds(offered[..|offered| - 1]);
    }
  }

  lemma {:induction false} EligibleIsUnique(offered: seq<ClipId>)
    ensures Unique(Eligible(offered))
  {
    if offered != [] {
      EligibleIsUnique(offered[..|offered| - 1]);
    }
  }

  datatype Turn = Turn(round: int, historyReset: bool, played: seq<ClipId>, remaining: seq<ClipId>)

  function RecordOf(collections: Collections, collection: CollectionId): Option<Record> {
    if collection in collections then Some(collections[collection]) else None
  }

  /** The round a pick falls in: the played clips that are still eligible, or a new round once none is left. */
  function TurnOf(record: Option<Record>, wasReset: bool, eligible: seq<ClipId>): Turn {
    var round := if record.Some? then record.value.round else 1;
    var played := if record.Some? then Kept(record.value.played, eligible, true) else [];
    var historyReset := record.Some? && (wasReset || record.value.resetPending);
    var remaining := Kept(eligible, played, false);
    if eligible != [] && remaining == [] then Turn(round + 1, true, [], eligible)
    else Turn(round, historyReset, played, remaining)
  }

  function TurnAt(collections: Collections, config: Config, r: Request): Turn {
    var wasReset := r.collection in collections && Outdated(collections[r.collection], config, r.now);
    TurnOf(RecordOf(Reconciled(collections, config, r.now), r.collection), wasReset, Eligible(r.offered))
  }

  function AnswerIn(turn: Turn, r: Request): Result<Selection, HistoryError> {
    if turn.remaining == [] then Ok(Selection(None, turn.round, turn.historyReset)) else
      var clip := if r.playback == Ordered then turn.remaining[0] else r.choice;
      if clip in turn.remaining then Ok(Selection(Some(clip), turn.round, turn.historyReset)) else Err(ChooserError)
  }

  function Answer(collections: Collections, config: Config, r: Request): Result<Selection, HistoryError> {
    AnswerIn(TurnAt(collections, config, r), r)
  }

  /** The record a successful pick stores. */
  function Stored(record: Option<Record>, turn: Turn, clip: ClipId, config: Config, now: int): Record {
    Record(Period(now, config.resetTime), turn.round, turn.played + [clip], Some(clip),
           if record.Some? then record.value.lastReset else None, false)
  }

  function AfterSelect(collections: Collections, config: Config, r: Request): Collections {
    var reconciled := Reconciled(collections, config, r.now);
    var turn := TurnAt(collections, config, r);
    var answer := AnswerIn(turn, r);
    if answer.Err? || answer.value.clip.None? then reconciled
    else reconciled[r.collection :=
      Stored(RecordOf(reconciled, r.collection), turn, answer.value.clip.value, config, r.now)]
  }

  // ---------- The store ----------

  class PlaybackHistoryStore {
    const config: Config
    var collections: Collections

    constructor (config: Config, loaded: Collections)
      ensures this.config == config && collections == loaded
    {
      this.config, collections := config, loaded;
    }

    /** Resets every record whose period is over, one at a time. */
    method Reconcile(now: int) returns (resetIds: set<CollectionId>)
      modifies this
      ensures resetIds == OutdatedIds(old(collections), config, now)
      ensures collections == Reconciled(old(collections), config, now)
    {
      resetIds := {};
      if config.mode == Daily {
        resetIds := set c | c in collections && collections[c].period != Period(now, config.resetTime);
      }
      assert forall c :: c in resetIds <==> c in OutdatedIds(collections, config, now);
      ResetEach(resetIds, now);
    }

    method ResetEach(ids: set<CollectionId>, now: int)
      requires ids <= collections.Keys
      modifies this
      ensures collections == ResetAmong(old(collections), config, ids, now)
    {
      var rest := ids;
      assert forall d :: d in collections ==> collections[d] == ResetAmong(collections, config, ids - rest, now)[d];
      while rest != {}
        invariant rest <= ids
        invariant collections == ResetAmong(old(collections), config, ids - rest, now)
        decreases rest
      {
        var c := AnyOf(rest);
        collections := collections[c := ResetRecord(collections[c], config, now)];
        assert forall d ::
          d in collections ==> collections[d] == ResetAmong(old(collections), config, ids - (rest - {c}), now)[d];
        rest := rest - {c};
      }
    }

    method Select(r: Request, dryRun: bool) returns (result: Result<Selection, HistoryError>)
      modifies this
      ensures result == Answer(old(collections), config, r)
      ensures collections == if dryRun then old(collections) else AfterSelect(old(collections), config, r)
    {
      var before := collections;
      var eligible := Eligible(r.offered);
      var resetIds := Reconcile(r.now);
      var record := if r.collection in collections then Some(collections[r.collection]) else None;
      var round, historyReset, played := 1, false, [];
      if record.Some? {
        round := record.value.round;
        historyReset := r.collection in resetIds || record.value.resetPending;
        played := Kept(record.value.played, eligible, true);
      }
      var remaining := Kept(eligible, played, false);
      if eligible != [] && remaining == [] {
        round, historyReset, played, remaining := round + 1, true, [], eligible;
      }
      assert TurnAt(before, config, r) == Turn(round, historyReset, played, remaining);
      if remaining == [] {
        result := Ok(Selection(None, round, historyReset));
      } else {
        var clip := if r.playback == Ordered then remaining[0] else r.choice;
        if clip !in remaining {
          result := Err(ChooserError);
        } else {
          result := Ok(Selection(Some(clip), round, historyReset));
          collections := collections[r.collection :=
            Record(Period(r.now, config.resetTime), round, played + [clip], Some(clip),
                   if record.Some? then record.value.lastReset else None, false)];
        }
      }
      if dryRun {
        collections := before;
      }
    }

    method Reset(collection: Option<CollectionId>, now: int) returns (resetIds: set<CollectionId>)
      modifies this
      ensures resetIds == Named(old(collections), collection)
      ensures collections == ResetAmong(old(collections), config, resetIds, now)
    {
      resetIds := set c | c in collections && (collection.None? || collection.value == c);
      ResetEach(resetIds, now);
    }
  }

  /** A dry run answers what the next real pick of an ordered mode in the same period will return. */
  lemma DryRunPredictsOrderedPick(collections: Collections, config: Config, dry: Request, actual: Request)
    requires dry.playback == Ordered && actual == dry.(choice := actual.choice, now := actual.now)
    requires Period(dry.now, config.resetTime) == Period(actual.now, config.resetTime)
    ensures Answer(collections, config, dry) == Answer(collections, config, actual)
  {
  }

  /**
   After an explicit reset every eligible clip of the named collection can be picked again, in a later round that
   announces the reset, whatever was played before; an ordered mode starts over. Other collections stand still.
   */
  lemma ResetOffersEverything(collections: Collections, config: Config, named: Option<CollectionId>, now: int,
      r: Request)
    requires r.collection in collections && (named.Some? ==> named.value == r.collection)
    requires r.choice in r.offered && r.choice != Blank && r.playback == Random
    ensures var reset := ResetAmong(collections, config, Named(collections, named), now);
      var round := collections[r.collection].round + if Outdated(reset[r.collection], config, r.now) then 2 else 1;
      && reset.Keys == collections.Keys
      && reset[r.collection] ==
           Record(Period(now, config.resetTime), collections[r.collection].round + 1, [], None, Some(now), true)
      && (forall other :: other in collections && named == Some(r.collection) && other != r.collection ==>
            reset[other] == collections[other])
      && Answer(reset, config, r) == Ok(Selection(Some(r.choice), round, true))
      && Answer(reset, config, r.(playback := Ordered)) == Ok(Selection(Some(Eligible(r.offered)[0]), round, true))
  {
    var eligible := Eligible(r.offered);
    EligibleIds(r.offered);
    assert Kept([], eligible, true) == [];
    KeptNoneOut(eligible);
  }

  lemma {:induction false} KeptNoneOut(eligible: seq<ClipId>)
    ensures Kept(eligible, [], false) == eligible
  {
    if eligible != [] {
      KeptNoneOut(eligible[..|eligible| - 1]);
    }
  }

  /**
   A pick stores what it answered: the clip as last played and as played in the answered round, after what was played
   before and is still offered unless the round is new, with any announced reset taken off.
   */
  lemma PickIsStored(collections: Collections, config: Config, r: Request)
    requires var answer := Answer(collections, config, r); answer.Ok? && answer.value.clip.Some?
    ensures var answer, after := Answer(collections, config, r).value, AfterSelect(collections, config, r);
      var before := RecordOf(Reconciled(collections, config, r.now), r.collection);
      && r.collection in after && var record := after[r.collection];
      && record.period == Period(r.now, config.resetTime) && record.round == answer.round
      && record.last == answer.clip && !record.resetPending
      && record.lastReset == (if before.Some? then before.value.lastReset else None)
      && answer.clip.value in r.offered && answer.clip.value != Blank
      && (forall id :: id in record.played <==>
            || id == answer.clip.value
            || (before.Some? && answer.round == before.value.round && id in before.value.played && id in r.offered &&
                id != Blank))
      && (before.Some? && answer.round == before.value.round ==> answer.clip.value !in before.value.played)
  {
    var before := RecordOf(Reconciled(collections, config, r.now), r.collection);
    var eligible := Eligible(r.offered);
    EligibleIds(r.offered);
    if before.Some? {
      KeptElements(before.value.played, eligible, true);
      KeptElements(eligible, Kept(before.value.played, eligible, true), false);
    } else {
      KeptElements(eligible, [], false);
    }
  }

  /** A pick leaves every other collection as reconciliation alone would. */
  lemma OthersUnaffected(collections: Collections, config: Config, r: Request, other: CollectionId)
    requires other in collections && other != r.collection
    ensures other in AfterSelect(collections, config, r)
    ensures AfterSelect(collections, config, r)[other] == Reconciled(collections, config, r.now)[other]
    ensures config.mode == OnExhaustion ==> AfterSelect(collections, config, r)[other] == collections[other]
  {
  }
}
