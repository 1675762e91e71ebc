/** What one tick of the dispatcher does: which occurrences it sends, reports and stores, and which it leaves alone. */
module Ticks {
  import opened Dispatch
  import opened Idempotency
  import opened Schedule
  import opened Wrappers

  /** The occurrence of a schedule in the minute of `now`. */
  function Occurrence(s: CompilationSchedule, now: int): Key {
    Key(s.collection, now / MINUTE)
  }

  /** Some schedule of the list is due, and this is its occurrence. */
  ghost predicate Calls(schedules: Schedules, now: int, token: Key) {
    exists s :: s in schedules && Due(s, now) && token == Occurrence(s, now)
  }

  predicate Done(tokens: Tokens, token: Key) {
    token in tokens && tokens[token] == Succeeded
  }

  // ---------- Only what is due ----------

  /** Whatever differs between two worlds, or was reported, belongs to an occurrence that was called. */
  ghost predicate OnlyCalled(w: World, h: Handled, schedules: Schedules, now: int) {
    && (forall token :: token in h.runs ==> Calls(schedules, now, token))
    && (forall token :: token in h.world.server.records && token !in w.server.records ==> Calls(schedules, now, token))
    && (forall token :: token in h.world.tokens && (token !in w.tokens || h.world.tokens[token] != w.tokens[token]) ==>
          Calls(schedules, now, token))
  }

  lemma {:induction false} MutateRemembersItsKey(s: Server, key: Key, payload: int, network: seq<Attempt>, k: nat)
    requires k <= MAX_REQUEST_ATTEMPTS
    ensures forall other ::
      other in Mutated(s, key, payload, network, k).0.records ==> other in s.records || other == key
    decreases MAX_REQUEST_ATTEMPTS - k
  {
    if k < MAX_REQUEST_ATTEMPTS {
      var attempt := AttemptAt(network, k);
      MutateRemembersItsKey(s, key, payload, network, k + 1);
      MutateRemembersItsKey(Delivered(s, Delivery(key, payload, attempt.create)).0, key, payload, network, k + 1);
    }
  }

  lemma DispatchTouchesOwnToken(h: Handled, limit: nat, s: CompilationSchedule, now: int, link: seq<Attempt>)
    ensures var after, token := Dispatched(h, limit, s, now, link), Occurrence(s, now);
      && (!Due(s, now) ==> after == h)
      && (forall other :: other in after.runs ==> other in h.runs || other == token)
      && (forall other :: other in after.world.server.records ==> other in h.world.server.records || other == token)
      && (forall other :: other in after.world.tokens && other != token ==>
            other in h.world.tokens && after.world.tokens[other] == h.world.tokens[other])
  {
    MutateRemembersItsKey(h.world.server, Occurrence(s, now), s.request, link, 0);
  }

  lemma CalledByMore(schedules: Schedules, now: int, token: Key)
    requires schedules != []
    ensures var front, last := schedules[..|schedules| - 1], schedules[|schedules| - 1];
      Calls(schedules, now, token) <==> Calls(front, now, token) || (Due(last, now) && token == Occurrence(last, now))
  {
    var front, last := schedules[..|schedules| - 1], schedules[|schedules| - 1];
    assert forall s :: s in schedules <==> s in front || s == last;
  }

  /** A tick sends, reports and stores only occurrences of schedules that are due. */
  lemma {:induction false} OnlyDueIsSent(w: World, limit: nat, schedules: Schedules, now: int, links: seq<seq<Attempt>>)
    ensures OnlyCalled(w, HandledDue(w, limit, schedules, now, links), schedules, now)
    decreases |schedules|
  {
    if schedules != [] {
      var k := |schedules| - 1;
      OnlyDueIsSent(w, limit, schedules[..k], now, links);
      DispatchTouchesOwnToken(HandledDue(w, limit, schedules[..k], now, links), limit, schedules[k], now,
        LinkAt(links, k));
      forall token ensures Calls(schedules, now, token) <==>
          Calls(schedules[..k], now, token) || (Due(schedules[k], now) && token == Occurrence(schedules[k], now)) {
        CalledByMore(schedules, now, token);
      }
    }
  }

  /** With nothing due but what already succeeded, the world stands still. */
  lemma {:induction false} NothingToDoIsSilent(w: World, limit: nat, schedules: Schedules, now: int,
      links: seq<seq<Attempt>>)
    requires forall s :: s in schedules && Due(s, now) ==> Done(w.tokens, Occurrence(s, now))
    ensures HandledDue(w, limit, schedules, now, links) == Handled(w, [], false)
    decreases |schedules|
  {
    if schedules != [] {
      var k := |schedules| - 1;
      assert schedules[k] in schedules && forall s :: s in schedules[..k] ==> s in schedules;
      NothingToDoIsSilent(w, limit, schedules[..k], now, links);
    }
  }

  // ---------- All that is due ----------

  /** The first attempt is answered, and the worker accepts. */
  ghost predicate IsAnswered(server: Server, s: CompilationSchedule, now: int, link: seq<Attempt>) {
    && AttemptAt(link, 0).fate == Answered
    && Delivered(server, Delivery(Occurrence(s, now), s.request, AttemptAt(link, 0).create)).1.Accepted?
  }

  ghost predicate AllAnswered(w: World, limit: nat, schedules: Schedules, now: int, links: seq<seq<Attempt>>) {
    forall k :: 0 <= k < |schedules| && Due(schedules[k], now) ==>
      IsAnswered(HandledDue(w, limit, schedules[..k], now, links).world.server, schedules[k], now, LinkAt(links, k))
  }

  /** Reported, or done before; and what is reported is not stored as anything but done. */
  ghost predicate Served(w: World, h: Handled, schedules: Schedules, now: int) {
    && !h.raised
    && (forall s ::
        s in schedules && Due(s, now) && !Done(w.tokens, Occurrence(s, now)) ==> Occurrence(s, now) in h.runs)
    && (forall token :: token in h.runs && token in h.world.tokens ==> h.world.tokens[token] == Succeeded)
    && (forall token :: Done(h.world.tokens, token) ==> Done(w.tokens, token) || token in h.runs)
  }

  lemma AnsweredDispatch(w: World, h: Handled, limit: nat, front: Schedules, s: CompilationSchedule, now: int,
      link: seq<Attempt>)
    requires Served(w, h, front, now) && (Due(s, now) ==> IsAnswered(h.world.server, s, now, link))
    ensures Served(w, Dispatched(h, limit, s, now, link), front + [s], now)
  {
    var after, token := Dispatched(h, limit, s, now, link), Occurrence(s, now);
    assert forall other :: other in front + [s] <==> other in front || other == s;
    if Due(s, now) && !Done(h.world.tokens, token) {
      assert after.runs == h.runs + [token] && !after.raised;
    }
  }

  lemma {:induction false} AnsweredTick(w: World, limit: nat, schedules: Schedules, now: int, links: seq<seq<Attempt>>)
    requires AllAnswered(w, limit, schedules, now, links)
    ensures Served(w, HandledDue(w, limit, schedules, now, links), schedules, now)
    decreases |schedules|
  {
    if schedules != [] {
      var k := |schedules| - 1;
      assert forall i :: 0 <= i < k ==> schedules[..k][..i] == schedules[..i] && schedules[..k][i] == schedules[i];
      AnsweredTick(w, limit, schedules[..k], now, links);
      assert schedules == schedules[..k] + [schedules[k]];
      AnsweredDispatch(w, HandledDue(w, limit, schedules[..k], now, links), limit, schedules[..k], schedules[k], now,
        LinkAt(links, k));
    }
  }

  /** When every link answers and the worker accepts, every due occurrence that was not done is reported and
      remembered. */
  lemma AllDueIsServed(w: World, limit: nat, schedules: Schedules, now: int, links: seq<seq<Attempt>>)
    requires Faithful(w) && AllAnswered(w, limit, schedules, now, links)
    ensures var h := HandledDue(w, limit, schedules, now, links);
      && Served(w, h, schedules, now)
      && forall s :: s in schedules && Due(s, now) ==> Occurrence(s, now) in h.world.server.records
  {
    AnsweredTick(w, limit, schedules, now, links);
    TickIsFaithful(w, limit, schedules, now, links);
  }

  // ---------- The first failure ----------

  /** The tick went well up to this schedule, which was due and not done and got no acceptance, and it ended there. */
  ghost predicate FailsAt(w: World, limit: nat, schedules: Schedules, now: int, links: seq<seq<Attempt>>, k: nat)
    requires k < |schedules|
  {
    var before, h := HandledDue(w, limit, schedules[..k], now, links), HandledDue(w, limit, schedules, now, links);
    var token := Occurrence(schedules[k], now);
    && Due(schedules[k], now) && !Done(before.world.tokens, token) && !before.raised
    && !Mutated(before.world.server, token, schedules[k].request, LinkAt(links, k), 0).1.Success?
    && h.runs == before.runs && (token in h.world.tokens ==> h.world.tokens[token] == Failed)
    && h == HandledDue(w, limit, schedules[..k + 1], now, links)
  }

  /** A tick is raised exactly when some due occurrence got no acceptance; nothing after it is sent. */
  lemma {:induction false} FirstFailureEndsTheTick(w: World, limit: nat, schedules: Schedules, now: int,
      links: seq<seq<Attempt>>)
    ensures var h := HandledDue(w, limit, schedules, now, links);
      h.raised <==> exists k :: 0 <= k < |schedules| && FailsAt(w, limit, schedules, now, links, k)
    decreases |schedules|
  {
    var h := HandledDue(w, limit, schedules, now, links);
    if schedules != [] {
      var n := |schedules| - 1;
      var front := schedules[..n];
      FirstFailureEndsTheTick(w, limit, front, now, links);
      assert schedules[..n + 1] == schedules;
      if HandledDue(w, limit, front, now, links).raised {
        var k :| 0 <= k < n && FailsAt(w, limit, front, now, links, k);
        assert front[..k] == schedules[..k] && front[..k + 1] == schedules[..k + 1];
        assert FailsAt(w, limit, schedules, now, links, k);
      } else if h.raised {
        assert FailsAt(w, limit, schedules, now, links, n);
      } else if exists k :: 0 <= k < |schedules| && FailsAt(w, limit, schedules, now, links, k) {
        var k :| 0 <= k < |schedules| && FailsAt(w, limit, schedules, now, links, k);
        FailingScheduleRaises(w, limit, schedules, now, links, k);
      }
    }
  }

  lemma FailingScheduleRaises(w: World, limit: nat, schedules: Schedules, now: int, links: seq<seq<Attempt>>, k: nat)
    requires k < |schedules| && FailsAt(w, limit, schedules, now, links, k)
    ensures HandledDue(w, limit, schedules, now, links).raised
  {
    assert schedules[..k + 1][..k] == schedules[..k];
  }

  // ---------- One mutation ----------

  predicate Arrived(attempt: Attempt) {
    attempt.fate == ResponseLost || attempt.fate == Answered
  }

  /** Some attempt from number `k` on is answered. */
  predicate AnsweredFrom(network: seq<Attempt>, k: nat) {
    exists i :: k <= i < MAX_REQUEST_ATTEMPTS && AttemptAt(network, i).fate == Answered
  }

  /** Once remembered, the key is answered with what is remembered as soon as an answer gets through. */
  lemma {:induction false} RememberedIsAnswered(s: Server, key: Key, payload: int, network: seq<Attempt>, k: nat)
    requires Sound(s) && key in s.records && s.records[key].payload == payload && k <= MAX_REQUEST_ATTEMPTS
    ensures Mutated(s, key, payload, network, k)
         == (s, if AnsweredFrom(network, k) then Success(s.records[key].ids) else GaveUp)
    decreases MAX_REQUEST_ATTEMPTS - k
  {
    if k < MAX_REQUEST_ATTEMPTS {
      RememberedIsAnswered(s, key, payload, network, k + 1);
    }
  }

  lemma {:induction false} LostAttemptsChangeNothing(s: Server, key: Key, payload: int, network: seq<Attempt>, k: nat,
      j: nat)
    requires k <= j <= MAX_REQUEST_ATTEMPTS && forall i :: k <= i < j ==> !Arrived(AttemptAt(network, i))
    ensures Mutated(s, key, payload, network, k) == Mutated(s, key, payload, network, j)
    decreases j - k
  {
    if k < j {
      LostAttemptsChangeNothing(s, key, payload, network, k + 1, j);
    }
  }

  /**
   The first request that arrives decides, whether or not its response does: if the worker accepts it, its effect is
   the effect of the whole mutation, and the client learns the ids as soon as one answer gets through. If the worker
   refuses it, nothing happened: the client is rejected if it hears of it, and goes on if it does not.
   */
  lemma FirstArrivalDecides(s: Server, key: Key, payload: int, network: seq<Attempt>, j: nat)
    requires Sound(s) && j < 3 && Arrived(AttemptAt(network, j))
    requires forall i :: 0 <= i < j ==> !Arrived(AttemptAt(network, i))
    ensures var (server, response) := Delivered(s, Delivery(key, payload, AttemptAt(network, j).create));
      Mutated(s, key, payload, network, 0) ==
        if response.Accepted? then (server, if AnsweredFrom(network, j) then Success(response.ids) else GaveUp)
        else if AttemptAt(network, j).fate == Answered then (s, Rejected)
        else Mutated(s, key, payload, network, j + 1)
  {
    var d := Delivery(key, payload, AttemptAt(network, j).create);
    LostAttemptsChangeNothing(s, key, payload, network, 0, j);
    DeliveryHasOneEffect(s, d);
    if Delivered(s, d).1.Accepted? {
      RememberedIsAnswered(Delivered(s, d).0, key, payload, network, j + 1);
    }
  }

  /** No more than three attempts are made. */
  lemma {:induction false} ThreeAttemptsAtMost(s: Server, key: Key, payload: int, network: seq<Attempt>,
      other: seq<Attempt>, k: nat)
    requires k <= 3 && forall i :: k <= i < 3 ==> AttemptAt(network, i) == AttemptAt(other, i)
    ensures k <= MAX_REQUEST_ATTEMPTS && Mutated(s, key, payload, network, k) == Mutated(s, key, payload, other, k)
    decreases 3 - k
  {
    if k < 3 {
      var d := Delivery(key, payload, AttemptAt(network, k).create);
      ThreeAttemptsAtMost(s, key, payload, network, other, k + 1);
      ThreeAttemptsAtMost(Delivered(s, d).0, key, payload, network, other, k + 1);
    }
  }

  /** When nothing arrives, nothing happens and the client gives up. */
  lemma NothingArrives(s: Server, key: Key, payload: int, network: seq<Attempt>)
    requires forall i :: 0 <= i < MAX_REQUEST_ATTEMPTS ==> !Arrived(AttemptAt(network, i))
    ensures Mutated(s, key, payload, network, 0) == (s, GaveUp)
  {
    LostAttemptsChangeNothing(s, key, payload, network, 0, MAX_REQUEST_ATTEMPTS);
  }
}
