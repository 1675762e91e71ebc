/**
 The compilation schedule: what the coordinator predicts as the next run, against the test the
 dispatcher makes on every minute tick. Times are local seconds at a fixed offset.
 */
module Schedule {
  import opened Wrappers

  const DAY := 86400
  const MINUTE := 60

  /** Monday is 0; day 0 of the epoch was a Thursday. */
  function Weekday(day: int): int {
    (day + 3) % 7
  }

  /** Weekdays go round, and the calendar agrees: the first of January 2024, day 19723, was a Monday. */
  lemma WeekdaysGoRound(day: int)
    ensures 0 <= Weekday(day) <= 6 && Weekday(day + 1) == (if Weekday(day) == 6 then 0 else Weekday(day) + 1)
    ensures Weekday(0) == 3 && Weekday(19723) == 0
  {
  }

  function DayOf(t: int): int {
    t / DAY
  }

  /** `request` stands for the strategy and options the dispatcher sends. */
  datatype CompilationSchedule = CompilationSchedule(collection: int, enabled: bool, weekdays: seq<int>,
    localTime: int, request: int)
  {
    /** What the constructor of a schedule checks, plus the range of a time of day. */
    predicate Valid() {
      (forall day :: day in weekdays ==> 0 <= day <= 6) && 0 <= localTime < DAY
    }

    /** The instant the schedule names on a day. */
    function On(day: int): int {
      day * DAY + localTime
    }
  }

  type Schedules = seq<CompilationSchedule>

  predicate AllValid(schedules: Schedules) {
    forall s :: s in schedules ==> s.Valid()
  }

  /** The dispatcher's test: weekday, hour and minute. */
  predicate Due(s: CompilationSchedule, t: int) {
    && s.enabled
    && Weekday(DayOf(t)) in s.weekdays
    && (t % DAY) / MINUTE == s.localTime / MINUTE
  }

  /** The instants a schedule names, to the second. */
  predicate Occurs(s: CompilationSchedule, t: int) {
    s.enabled && Weekday(DayOf(t)) in s.weekdays && t % DAY == s.localTime
  }

  ghost predicate NoneBefore(schedules: Schedules, now: int, end: int) {
    forall s, t :: s in schedules && now <= t < end ==> !Occurs(s, t)
  }

  /** The earliest instant from now on that any schedule names. */
  ghost predicate Predicts(schedules: Schedules, now: int, next: int) {
    next >= now && (exists s :: s in schedules && Occurs(s, next)) && NoneBefore(schedules, now, next)
  }

  /** The schedule names an instant `offset` days from now, and it is not past. */
  predicate Reaches(s: CompilationSchedule, now: int, offset: int) {
    Weekday(DayOf(now) + offset) in s.weekdays && s.On(DayOf(now) + offset) >= now
  }

  /** Eight day offsets reach every weekday at or after any instant. */
  lemma EightOffsetsSuffice(s: CompilationSchedule, now: int, weekday: int) returns (offset: int)
    requires s.Valid() && weekday in s.weekdays
    ensures 0 <= offset < 8 && Reaches(s, now, offset)
  {
    offset := 1 + (weekday - Weekday(DayOf(now) + 1)) % 7;
    assert Weekday(DayOf(now) + offset) == weekday;
  }

  /** The first occurrence of one schedule at or after `now`: the inner loop with its break. */
  method FirstOccurrence(s: CompilationSchedule, now: int) returns (first: Option<int>)
    requires s.Valid() && s.enabled
    ensures first.None? <==> s.weekdays == []
    ensures first.Some? ==> first.value >= now && Occurs(s, first.value)
    ensures first.Some? ==> NoneBefore([s], now, first.value)
  {
    first := None;
    var offset := 0;
    while offset < 8
      invariant 0 <= offset <= 8
      invariant forall k :: 0 <= k < offset ==> !Reaches(s, now, k)
      invariant first.None?
    {
      if Reaches(s, now, offset) {
        var day := DayOf(now) + offset;
        first := Some(s.On(day));
        forall t | now <= t < s.On(day) ensures !Occurs(s, t) {
          var k := DayOf(t) - DayOf(now);
          assert Occurs(s, t) ==> t == s.On(DayOf(now) + k) && k < offset;
          assert Occurs(s, t) ==> Reaches(s, now, k);
        }
        return;
      }
      offset := offset + 1;
    }
    if s.weekdays != [] {
      ghost var k := EightOffsetsSuffice(s, now, s.weekdays[0]);
    }
  }

  /** `_next_schedule`: the earliest instant any enabled schedule names, or None when none names any. */
  method NextSchedule(schedules: Schedules, now: int) returns (next: Option<int>)
    requires AllValid(schedules)
    ensures next.None? <==> forall s :: s in schedules && s.enabled ==> s.weekdays == []
    ensures next.Some? ==> Predicts(schedules, now, next.value)
  {
    next := None;
    for i := 0 to |schedules|
      invariant next.None? <==> forall s :: s in schedules[..i] && s.enabled ==> s.weekdays == []
      invariant next.Some? ==> next.value >= now && exists s :: s in schedules && Occurs(s, next.value)
      invariant next.Some? ==> NoneBefore(schedules[..i], now, next.value)
    {
      var s := schedules[i];
      assert schedules[..i + 1] == schedules[..i] + [s];
      if s.enabled {
        var first := FirstOccurrence(s, now);
        assert s in [s];
        if first.Some? && (next.None? || first.value < next.value) {
          next := first;
        }
      }
    }
    assert schedules[..|schedules|] == schedules;
  }

  // ---------- Prediction against dispatch ----------

  ghost predicate FiresFirstAt(schedules: Schedules, now: int, r: int) {
    && now <= r && r % MINUTE == 0
    && (exists s :: s in schedules && Due(s, r))
    && forall s, t :: s in schedules && now <= t < r && t % MINUTE == 0 ==> !Due(s, t)
  }

  lemma TickOccurs(s: CompilationSchedule, t: int)
    requires s.Valid() && t % MINUTE == 0
    ensures Due(s, t) <==> s.enabled && Weekday(DayOf(t)) in s.weekdays && t == s.On(DayOf(t)) - s.localTime % MINUTE
  {
    var second := t % DAY;
    assert second % MINUTE == 0;
    assert second == MINUTE * (second / MINUTE);
  }

  /** A due tick is the start of the minute of an occurrence. */
  lemma DueNamesOccurrence(s: CompilationSchedule, t: int)
    requires s.Valid() && t % MINUTE == 0 && Due(s, t)
    ensures Occurs(s, t + s.localTime % MINUTE)
  {
    TickOccurs(s, t);
  }

  /** No tick before the prediction is due, except the start of its own minute. */
  lemma OnlyItsOwnMinuteIsDue(schedules: Schedules, now: int, next: int, s: CompilationSchedule, t: int)
    requires AllValid(schedules) && Predicts(schedules, now, next)
    requires s in schedules && now <= t < next && t % MINUTE == 0 && Due(s, t)
    ensures t == next - next % MINUTE
  {
    DueNamesOccurrence(s, t);
    var named := t + s.localTime % MINUTE;
    assert next <= named;
  }

  lemma OwnMinuteIsDue(s: CompilationSchedule, next: int)
    requires s.Valid() && Occurs(s, next)
    ensures next % MINUTE == s.localTime % MINUTE
    ensures var t := next - next % MINUTE; t % MINUTE == 0 && Due(s, t)
  {
    assert next == s.On(DayOf(next));
    assert next % MINUTE == s.localTime % MINUTE;
    var t := next - s.localTime % MINUTE;
    assert t % MINUTE == 0;
    TickOccurs(s, t);
  }

  /** The prediction is the dispatcher's next firing exactly when the schedule that names it has whole minutes. */
  lemma PredictionIsNextFiringIff(schedules: Schedules, now: int, next: int)
    requires AllValid(schedules) && Predicts(schedules, now, next)
    ensures forall s :: s in schedules && Occurs(s, next) ==>
      (FiresFirstAt(schedules, now, next) <==> s.localTime % MINUTE == 0)
  {
    forall s | s in schedules && Occurs(s, next)
      ensures FiresFirstAt(schedules, now, next) <==> s.localTime % MINUTE == 0 {
      OwnMinuteIsDue(s, next);
      forall other, t | other in schedules && now <= t < next && t % MINUTE == 0 && Due(other, t)
        ensures t == next - next % MINUTE {
        OnlyItsOwnMinuteIsDue(schedules, now, next, other, t);
      }
    }
  }

  /** Otherwise the dispatcher fires at the start of the predicted minute if that is still ahead, and after the
      prediction if not. */
  lemma PredictionAgainstFiring(schedules: Schedules, now: int, next: int, firing: int)
    requires AllValid(schedules) && Predicts(schedules, now, next) && FiresFirstAt(schedules, now, firing)
    ensures var minute := next - next % MINUTE;
      if minute >= now then firing == minute else firing > next
    ensures firing == next <==> next % MINUTE == 0
  {
    var minute := next - next % MINUTE;
    var namer :| namer in schedules && Occurs(namer, next);
    OwnMinuteIsDue(namer, next);
    var s :| s in schedules && Due(s, firing);
    if firing < next {
      OnlyItsOwnMinuteIsDue(schedules, now, next, s, firing);
    }
  }

  /** A schedule with its time cut to the minute. */
  function Cut(s: CompilationSchedule): CompilationSchedule {
    s.(localTime := s.localTime - s.localTime % MINUTE)
  }

  function CutAll(schedules: Schedules): (whole: Schedules)
    ensures |whole| == |schedules| && forall i :: 0 <= i < |whole| ==> whole[i] == Cut(schedules[i])
  {
    seq(|schedules|, i requires 0 <= i < |schedules| => Cut(schedules[i]))
  }

  lemma CutKeepsDue(s: CompilationSchedule)
    requires s.Valid()
    ensures Cut(s).Valid() && Cut(s).localTime % MINUTE == 0
    ensures forall t :: Due(Cut(s), t) <==> Due(s, t)
  {
    assert s.localTime - s.localTime % MINUTE == MINUTE * (s.localTime / MINUTE);
  }

  /** For any times of day, the next firing is the prediction made for the times cut to the minute. */
  lemma CutPredictsFiring(schedules: Schedules, now: int, firing: int)
    requires AllValid(schedules) && Predicts(CutAll(schedules), now, firing)
    ensures FiresFirstAt(schedules, now, firing)
  {
    var whole := CutAll(schedules);
    forall i | 0 <= i < |schedules|
      ensures whole[i].Valid() && whole[i].localTime % MINUTE == 0 &&
        forall t :: Due(whole[i], t) <==> Due(schedules[i], t)
    {
      assert schedules[i] in schedules;
      CutKeepsDue(schedules[i]);
    }
    var namer :| namer in whole && Occurs(namer, firing);
    PredictionIsNextFiringIff(whole, now, firing);
    var i :| 0 <= i < |whole| && Due(whole[i], firing);
    assert schedules[i] in schedules;
    forall s, t | s in schedules && now <= t < firing && t % MINUTE == 0 ensures !Due(s, t) {
      var k :| 0 <= k < |schedules| && schedules[k] == s;
      assert whole[k] in whole;
    }
  }
}
