/** Rounds are fair: with a standing offer every clip of a collection gets its share of the picks, and ordered modes
    cycle. */
module Fairness {
  import opened Wrappers
  import opened History
  import opened HistoryRuns
  import opened Sequences

  /** The clips picked for a collection, in order. */
  function PickedFor(log: seq<Entry>, c: CollectionId): seq<ClipId> {
    if log == [] then [] else
      var front, last := PickedFor(log[..|log| - 1], c), log[|log| - 1];
      if last.collection == c then front + [last.clip] else front
  }

  /**
   The offer of the collection stands, and nothing resets its record: no explicit reset of it, and in daily mode
   all that reconciles the store falls in one period. Other collections, dry runs and ticks may come in between.
   */
  predicate Steady(config: Config, event: Event, c: CollectionId, offered: seq<ClipId>, period: int) {
    match event
    case Pick(r) =>
      (r.collection == c ==> r.offered == offered) &&
        (config.mode == Daily ==> Period(r.now, config.resetTime) == period)
    case DryRun(_) => true
    case Reset(collection, _) => collection.Some? && collection.value != c
    case Tick(now) => config.mode == Daily ==> Period(now, config.resetTime) == period
  }

  predicate AllSteady(config: Config, events: seq<Event>, c: CollectionId, offered: seq<ClipId>, period: int) {
    forall k :: 0 <= k < |events| ==> Steady(config, events[k], c, offered, period)
  }

  /** Where a collection stands: the clips of the current round have one play more than the completed rounds. */
  ghost predicate Tallied(round: int, played: seq<ClipId>, eligible: seq<ClipId>, picks: seq<ClipId>) {
    && round >= 1 && Unique(played) && 1 <= |played| <= |eligible|
    && (forall id :: id in played ==> id in eligible)
    && forall id :: id in eligible ==> Count(picks, id) == round - 1 + if id in played then 1 else 0
  }

  lemma CountOfPick(picks: seq<ClipId>, pick: ClipId)
    ensures forall id :: Count(picks + [pick], id) == Count(picks, id) + if id == pick then 1 else 0
  {
  }

  /** One more pick keeps the tally, whatever the chooser answers; a full round starts the next. */
  lemma PickKeepsTally(record: Record, turn: Turn, eligible: seq<ClipId>, picks: seq<ClipId>, pick: ClipId)
    requires Unique(eligible) && turn == TurnOf(Some(record), false, eligible) && pick in turn.remaining
    requires Tallied(record.round, record.played, eligible, picks)
    ensures Tallied(turn.round, turn.played + [pick], eligible, picks + [pick])
    ensures if |record.played| == |eligible| then turn.round == record.round + 1 && turn.played == []
            else turn.round == record.round && turn.played == record.played
  {
    NextTurn(record, turn, eligible);
    KeptElements(eligible, record.played, false);
    CountOfPick(picks, pick);
    UniqueFits(turn.played + [pick], eligible);
  }

  /** While the offer stands still, a round ends exactly when every eligible clip was played. */
  lemma NextTurn(record: Record, turn: Turn, eligible: seq<ClipId>)
    requires Unique(eligible) && turn == TurnOf(Some(record), false, eligible)
    requires Unique(record.played) && 1 <= |record.played| && forall id :: id in record.played ==> id in eligible
    ensures if |record.played| == |eligible|
      then
        turn.round == record.round + 1 && turn.played == [] && turn.remaining == eligible &&
        (forall id :: id in eligible ==> id in record.played)
      else
        turn.round == record.round && turn.played == record.played &&
        turn.remaining == Kept(eligible, record.played, false)
  {
    PartIsWhole(record.played, eligible);
    KeptAll(record.played, eligible, true);
    assert record.played[0] in eligible;
  }

  lemma FirstPickIsTallied(turn: Turn, eligible: seq<ClipId>, pick: ClipId)
    requires Unique(eligible) && turn == TurnOf(None, false, eligible) && pick in turn.remaining
    ensures Tallied(turn.round, turn.played + [pick], eligible, [pick])
    ensures turn.round == 1 && turn.played == []
  {
    KeptAll(eligible, [], false);
    UniqueFits([pick], eligible);
    assert [] + [pick] == [pick];
    assert forall id :: Count<ClipId>([], id) == 0;
  }

  /** In an ordered mode the played clips stay a prefix of the offer. */
  lemma OrderedPick(record: Option<Record>, turn: Turn, eligible: seq<ClipId>)
    requires Unique(eligible) && turn == TurnOf(record, false, eligible) && turn.remaining != []
    requires record.Some? ==> record.value.played <= eligible
    ensures turn.played + [turn.remaining[0]] <= eligible
  {
    var m := if record.Some? then |record.value.played| else 0;
    OrderedTurn(record, turn, eligible, m);
    var first := if m == |eligible| then 0 else m;
    assert eligible[..first] + [eligible[first]] == eligible[..first + 1];
  }

  lemma OrderedTurn(record: Option<Record>, turn: Turn, eligible: seq<ClipId>, m: nat)
    requires Unique(eligible) && turn == TurnOf(record, false, eligible) && turn.remaining != []
    requires m <= |eligible| && if record.Some? then record.value.played == eligible[..m] else m == 0
    ensures var first := if m == |eligible| then 0 else m;
      turn.played == eligible[..first] && turn.remaining == eligible[first..]
  {
    assert Kept(if record.Some? then record.value.played else [], eligible, true) == eligible[..m] by {
      KeptPrefix(eligible, m);
    }
    assert Kept(eligible, eligible[..m], false) == eligible[m..] by {
      KeptAfterPrefix(eligible, m);
    }
    assert eligible[..0] == [] && eligible[0..] == eligible;
  }

  /** How many picks it takes to complete that many rounds of `n` clips. */
  function PicksOf(rounds: int, n: nat): nat {
    if rounds <= 0 then 0 else PicksOf(rounds - 1, n) + n
  }

  /** The position `k` picks reach with `n` clips: `round - 1` full rounds and `m` clips of the current one. */
  predicate AtPosition(k: int, round: int, n: nat, m: nat) {
    round >= 1 && k == PicksOf(round - 1, n) + m
  }

  lemma NextPosition(k: int, round: int, n: nat, m: nat)
    requires AtPosition(k, round, n, m)
    ensures AtPosition(k + 1, round, n, m + 1)
    ensures m == n ==> AtPosition(k + 1, round + 1, n, 1)
  {
  }

  lemma {:induction false} PicksOfProduct(rounds: nat, n: nat)
    ensures PicksOf(rounds, n) == rounds * n
  {
    if rounds > 0 {
      PicksOfProduct(rounds - 1, n);
      assert rounds * n == (rounds - 1) * n + n;
    }
  }

  lemma PickAdvances(record: Record, turn: Turn, eligible: seq<ClipId>, picks: seq<ClipId>, pick: ClipId)
    requires Unique(eligible) && turn == TurnOf(Some(record), false, eligible) && pick in turn.remaining
    requires Tallied(record.round, record.played, eligible, picks) &&
      AtPosition(|picks|, record.round, |eligible|, |record.played|)
    ensures Tallied(turn.round, turn.played + [pick], eligible, picks + [pick])
    ensures AtPosition(|picks + [pick]|, turn.round, |eligible|, |turn.played + [pick]|)
  {
    PickKeepsTally(record, turn, eligible, picks, pick);
    var k, n, m := |picks|, |eligible|, |turn.played|;
    NextPosition(k, record.round, n, |record.played|);
    assert |picks + [pick]| == k + 1 && |turn.played + [pick]| == m + 1;
    assert AtPosition(k + 1, turn.round, n, m + 1);
  }

  lemma Remainder(q: nat, n: nat, r: nat)
    requires r < n
    ensures (q * n + r) / n == q && (q * n + r) % n == r
  {
    var t := q * n + r;
    var d := t / n - q;
    assert d * n == (t / n) * n - q * n == r - t % n;
  }

  lemma Quotients(k: int, round: int, n: nat, m: nat)
    requires AtPosition(k, round, n, m) && 0 < m <= n
    ensures k / n == if m == n then round else round - 1
    ensures k % n == if m == n then 0 else m
    ensures (k + n - 1) / n == round
  {
    PicksOfProduct(round - 1, n);
    assert round * n == (round - 1) * n + n;
    Remainder(if m == n then round else round - 1, n, if m == n then 0 else m);
    Remainder(round, n, m - 1);
  }

  /** `k` picks from `n` clips: the round is ceiling(k/n) and every clip was played floor(k/n) or ceiling(k/n) times. */
  ghost predicate Fair(round: int, eligible: seq<ClipId>, picks: seq<ClipId>) {
    && |eligible| > 0
    && round == (|picks| + |eligible| - 1) / |eligible|
    && forall id ::
         id in eligible ==> |picks| / |eligible| <= Count(picks, id) <= (|picks| + |eligible| - 1) / |eligible|
  }

  lemma TallyIsFair(round: int, played: seq<ClipId>, eligible: seq<ClipId>, picks: seq<ClipId>)
    requires Unique(eligible) && Tallied(round, played, eligible, picks) &&
      AtPosition(|picks|, round, |eligible|, |played|)
    ensures Fair(round, eligible, picks)
  {
    PartIsWhole(played, eligible);
    Quotients(|picks|, round, |eligible|, |played|);
  }

  lemma PositionInCycle(k: nat, round: int, n: nat, m: nat)
    requires AtPosition(k, round, n, m) && 0 < m <= n
    ensures k >= 1 && (k - 1) % n == m - 1
  {
    PicksOfProduct(round - 1, n);
    Remainder(round - 1, n, m - 1);
  }

  // ---------- One event ----------

  /** The record, if any, is of the current period. */
  predicate InPeriod(s: Session, config: Config, c: CollectionId, period: int) {
    c in s.collections && config.mode == Daily ==> s.collections[c].period == period
  }

  /** Where a collection stands after the picks in the log. */
  ghost predicate Standing(s: Session, c: CollectionId, eligible: seq<ClipId>) {
    var picks := PickedFor(s.log, c);
    if picks == [] then c !in s.collections else
      && c in s.collections && var record := s.collections[c];
      && Tallied(record.round, record.played, eligible, picks)
      && AtPosition(|picks|, record.round, |eligible|, |record.played|)
  }

  lemma PickedForMore(log: seq<Entry>, e: Entry, c: CollectionId)
    ensures PickedFor(log + [e], c) == PickedFor(log, c) + if e.collection == c then [e.clip] else []
  {
    assert (log + [e])[..|log|] == log;
  }

  /** What a successful pick of the collection leaves. */
  lemma PickStores(s: Session, config: Config, r: Request, period: int)
    requires InPeriod(s, config, r.collection, period) &&
      (config.mode == Daily ==> Period(r.now, config.resetTime) == period)
    ensures var logged := Logged(s.collections, config, r);
      var record := RecordOf(s.collections, r.collection);
      var turn := TurnOf(record, false, Eligible(r.offered));
      var after := AfterSelect(s.collections, config, r);
      if logged == [] then RecordOf(after, r.collection) == record else
        && |logged| == 1 && logged[0].collection == r.collection && logged[0].clip in turn.remaining
        && (r.playback == Ordered ==> logged[0].clip == turn.remaining[0])
        && r.collection in after && after[r.collection] == Stored(record, turn, logged[0].clip, config, r.now)
  {
  }

  /** Every other event leaves the record and the picks of the collection alone. */
  lemma OthersStandBy(s: Session, config: Config, event: Event, c: CollectionId, offered: seq<ClipId>, period: int)
    requires InPeriod(s, config, c, period) && Steady(config, event, c, offered, period)
    requires !(event.Pick? && event.r.collection == c)
    ensures RecordOf(After(s, config, event).collections, c) == RecordOf(s.collections, c)
    ensures PickedFor(After(s, config, event).log, c) == PickedFor(s.log, c)
  {
    match event {
      case Pick(r) =>
        var logged := Logged(s.collections, config, r);
        if logged == [] { assert s.log + logged == s.log; } else { PickedForMore(s.log, logged[0], c); }
      case _ =>
    }
  }

  lemma EventKeepsStanding(s: Session, config: Config, event: Event, c: CollectionId, offered: seq<ClipId>, period: int)
    requires InPeriod(s, config, c, period) && Steady(config, event, c, offered, period) &&
      Standing(s, c, Eligible(offered))
    ensures InPeriod(After(s, config, event), config, c, period) &&
      Standing(After(s, config, event), c, Eligible(offered))
  {
    if event.Pick? && event.r.collection == c {
      PickKeepsStanding(s, config, event.r, offered, period);
    } else {
      OthersStandBy(s, config, event, c, offered, period);
    }
  }

  lemma PickKeepsStanding(s: Session, config: Config, r: Request, offered: seq<ClipId>, period: int)
    requires InPeriod(s, config, r.collection, period) && Steady(config, Pick(r), r.collection, offered, period)
    requires Standing(s, r.collection, Eligible(offered))
    ensures var after := After(s, config, Pick(r));
      InPeriod(after, config, r.collection, period) && Standing(after, r.collection, Eligible(offered))
  {
    var c, eligible, logged := r.collection, Eligible(offered), Logged(s.collections, config, r);
    PickStores(s, config, r, period);
    EligibleIsUnique(offered);
    if logged == [] {
      assert s.log + logged == s.log;
    } else {
      var picks, record := PickedFor(s.log, c), RecordOf(s.collections, c);
      var turn := TurnOf(record, false, eligible);
      assert logged == [logged[0]];
      PickedForMore(s.log, logged[0], c);
      if picks == [] {
        FirstPickIsTallied(turn, eligible, logged[0].clip);
        assert [] + [logged[0].clip] == [logged[0].clip];
      } else {
        PickAdvances(record.value, turn, eligible, picks, logged[0].clip);
      }
    }
  }

  // ---------- Any run ----------

  lemma {:induction false} RunKeepsStanding(
      s: Session, config: Config, events: seq<Event>, c: CollectionId, offered: seq<ClipId>, period: int)
    requires PickedFor(s.log, c) == [] && c !in s.collections && AllSteady(config, events, c, offered, period)
    ensures var end := Play(s, config, events); InPeriod(end, config, c, period) && Standing(end, c, Eligible(offered))
  {
    if events != [] {
      RunKeepsStanding(s, config, events[..|events| - 1], c, offered, period);
      EventKeepsStanding(Play(s, config, events[..|events| - 1]), config, events[|events| - 1], c, offered, period);
    }
  }

  /** With a standing offer and any chooser, every clip gets its fair share of the picks, whatever happens in
      between. */
  lemma {:induction false} FairShares(s: Session, config: Config, events: seq<Event>, c: CollectionId,
      offered: seq<ClipId>, period: int)
    requires PickedFor(s.log, c) == [] && c !in s.collections && AllSteady(config, events, c, offered, period)
    ensures var end := Play(s, config, events);
      PickedFor(end.log, c) != [] ==>
        c in end.collections && Fair(end.collections[c].round, Eligible(offered), PickedFor(end.log, c))
  {
    RunKeepsStanding(s, config, events, c, offered, period);
    EligibleIsUnique(offered);
    var end := Play(s, config, events);
    if PickedFor(end.log, c) != [] {
      TallyIsFair(end.collections[c].round, end.collections[c].played, Eligible(offered), PickedFor(end.log, c));
    }
  }

  // ---------- Ordered modes ----------

  predicate OrderedFor(event: Event, c: CollectionId) {
    event.Pick? && event.r.collection == c ==> event.r.playback == Ordered
  }

  /** The offer over and over. */
  predicate Cycles(picks: seq<ClipId>, offer: seq<ClipId>) {
    picks == [] || (offer != [] && forall k :: 0 <= k < |picks| ==> picks[k] == offer[k % |offer|])
  }

  /** What was played this round is the beginning of the offer, ending in the last pick. */
  ghost predicate Aligned(s: Session, c: CollectionId, eligible: seq<ClipId>) {
    var picks := PickedFor(s.log, c);
    picks != [] ==>
      && c in s.collections && var played := s.collections[c].played;
      && played <= eligible && played != [] && played[|played| - 1] == picks[|picks| - 1]
  }

  lemma PickAligns(s: Session, config: Config, r: Request, period: int)
    requires InPeriod(s, config, r.collection, period) && r.playback == Ordered
    requires config.mode == Daily ==> Period(r.now, config.resetTime) == period
    requires var record := RecordOf(s.collections, r.collection);
      record.Some? ==> record.value.played <= Eligible(r.offered)
    requires Logged(s.collections, config, r) != []
    ensures Aligned(After(s, config, Pick(r)), r.collection, Eligible(r.offered))
  {
    var logged, record := Logged(s.collections, config, r), RecordOf(s.collections, r.collection);
    PickStores(s, config, r, period);
    EligibleIsUnique(r.offered);
    assert logged == [logged[0]];
    PickedForMore(s.log, logged[0], r.collection);
    OrderedPick(record, TurnOf(record, false, Eligible(r.offered)), Eligible(r.offered));
  }

  lemma PickKeepsAligned(s: Session, config: Config, r: Request, offered: seq<ClipId>, period: int)
    requires InPeriod(s, config, r.collection, period) && Steady(config, Pick(r), r.collection, offered, period)
    requires Standing(s, r.collection, Eligible(offered)) && Aligned(s, r.collection, Eligible(offered)) &&
      r.playback == Ordered
    ensures Aligned(After(s, config, Pick(r)), r.collection, Eligible(offered))
  {
    if Logged(s.collections, config, r) == [] {
      PickStores(s, config, r, period);
      assert s.log + Logged(s.collections, config, r) == s.log;
    } else {
      PickAligns(s, config, r, period);
    }
  }

  lemma EventKeepsAligned(s: Session, config: Config, event: Event, c: CollectionId, offered: seq<ClipId>, period: int)
    requires InPeriod(s, config, c, period) && Steady(config, event, c, offered, period) && OrderedFor(event, c)
    requires Standing(s, c, Eligible(offered)) && Aligned(s, c, Eligible(offered))
    ensures Aligned(After(s, config, event), c, Eligible(offered))
  {
    if event.Pick? && event.r.collection == c {
      PickKeepsAligned(s, config, event.r, offered, period);
    } else {
      OthersStandBy(s, config, event, c, offered, period);
    }
  }

  lemma StandingIsAtPick(s: Session, c: CollectionId, eligible: seq<ClipId>)
    requires Standing(s, c, eligible) && Aligned(s, c, eligible) && PickedFor(s.log, c) != []
    ensures var picks := PickedFor(s.log, c);
      eligible != [] && picks[|picks| - 1] == eligible[(|picks| - 1) % |eligible|]
  {
    var record, picks := s.collections[c], PickedFor(s.log, c);
    PositionInCycle(|picks|, record.round, |eligible|, |record.played|);
  }

  lemma EventAddsOnePick(s: Session, config: Config, event: Event, c: CollectionId)
    ensures var was, now := PickedFor(s.log, c), PickedFor(After(s, config, event).log, c);
      now == was || (|now| == |was| + 1 && now[..|was|] == was)
  {
    if event.Pick? {
      var logged := Logged(s.collections, config, event.r);
      if logged == [] { assert s.log + logged == s.log; } else { PickedForMore(s.log, logged[0], c); }
    }
  }

  lemma CyclesMore(picks: seq<ClipId>, offer: seq<ClipId>)
    requires picks != [] && Cycles(picks[..|picks| - 1], offer)
    requires offer != [] && picks[|picks| - 1] == offer[(|picks| - 1) % |offer|]
    ensures Cycles(picks, offer)
  {
    forall k | 0 <= k < |picks| ensures picks[k] == offer[k % |offer|] {
      if k < |picks| - 1 { assert picks[..|picks| - 1][k] == picks[k]; }
    }
  }

  /** In an ordered mode the picks of a collection go through the offer in order, over and over, whatever happens in
      between. */
  lemma {:induction false} OrderedCycle(
      s: Session, config: Config, events: seq<Event>, c: CollectionId, offered: seq<ClipId>, period: int)
    requires PickedFor(s.log, c) == [] && c !in s.collections && AllSteady(config, events, c, offered, period)
    requires forall k :: 0 <= k < |events| ==> OrderedFor(events[k], c)
    ensures var end := Play(s, config, events);
      Aligned(end, c, Eligible(offered)) && Cycles(PickedFor(end.log, c), Eligible(offered))
  {
    if events != [] {
      var front, last := events[..|events| - 1], events[|events| - 1];
      var before, end := Play(s, config, front), Play(s, config, events);
      OrderedCycle(s, config, front, c, offered, period);
      RunKeepsStanding(s, config, front, c, offered, period);
      RunKeepsStanding(s, config, events, c, offered, period);
      EventKeepsAligned(before, config, last, c, offered, period);
      EventAddsOnePick(before, config, last, c);
      var was, now := PickedFor(before.log, c), PickedFor(end.log, c);
      if now != was {
        assert now[..|now| - 1] == was;
        StandingIsAtPick(end, c, Eligible(offered));
        CyclesMore(now, Eligible(offered));
      }
    }
  }
}
