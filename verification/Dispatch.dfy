/**
 The integration's side of scheduled compilation: a client that retries over a lossy link with a
 stable key, a durable but bounded store of occurrence tokens, and the dispatcher over both.
 */
module Dispatch {
  import opened Idempotency
  import opened Schedule
  import opened Sequences
  import opened Wrappers
  import JobQueue

  // ---------- The client ----------

  /** What the network does to one attempt. `Busy` is a transient answer given before the request is processed. */
  datatype Fate = RequestLost | ResponseLost | Busy | Answered

  datatype Attempt = Attempt(fate: Fate, create: Create)

  datatype ClientResult = Success(ids: seq<JobQueue.JobId>) | Rejected | GaveUp

  const MAX_REQUEST_ATTEMPTS: nat := 3

  function AttemptAt(network: seq<Attempt>, k: nat): Attempt {
    if k < |network| then network[k] else Attempt(RequestLost, Refuse)
  }

  /** The attempts from number `k` on. */
  ghost function Mutated(s: Server, key: Key, payload: int, network: seq<Attempt>, k: nat): (Server, ClientResult)
    requires k <= MAX_REQUEST_ATTEMPTS
    decreases MAX_REQUEST_ATTEMPTS - k
  {
    if k == MAX_REQUEST_ATTEMPTS then (s, GaveUp) else
      var attempt := AttemptAt(network, k);
      var (after, response) := Delivered(s, Delivery(key, payload, attempt.create));
      match attempt.fate
      case Answered => (after, if response.Accepted? then Success(response.ids) else Rejected)
      case ResponseLost => Mutated(after, key, payload, network, k + 1)
      case _ => Mutated(s, key, payload, network, k + 1)
  }

  /** The server moved from `s` to `after` by at most one creation under `key`. */
  ghost predicate OneEffect(s: Server, after: Server, key: Key) {
    && Sound(after)
    && (after == s || (key !in s.created && after.created == s.created + [key]))
    && (forall other :: other in s.records ==> other in after.records && after.records[other] == s.records[other])
  }

  lemma DeliveryHasOneEffect(s: Server, d: Delivery)
    requires Sound(s)
    ensures OneEffect(s, Delivered(s, d).0, d.key)
    ensures Delivered(s, d).0 != s ==> d.key in Delivered(s, d).0.records
    ensures var (after, response) := Delivered(s, d);
      response.Accepted? ==> d.key in after.records && after.records[d.key] == Remembered(d.payload, response.ids)
  {
    EventKeepsSound(s, Arrives(d));
  }

  lemma OneEffectThenNone(s: Server, between: Server, after: Server, key: Key)
    requires OneEffect(s, between, key) && OneEffect(between, after, key) && (between != s ==> after == between)
    ensures OneEffect(s, after, key)
  {
  }

  /** However the link behaves: the create step took effect at most once more, and a success means it did. */
  lemma {:induction false} MutateTakesEffectAtMostOnce(s: Server, key: Key, payload: int, network: seq<Attempt>, k: nat)
    requires Sound(s) && k <= MAX_REQUEST_ATTEMPTS
    ensures var (after, result) := Mutated(s, key, payload, network, k);
      && OneEffect(s, after, key)
      && (result.Success? ==> key in after.records && after.records[key] == Remembered(payload, result.ids))
    decreases MAX_REQUEST_ATTEMPTS - k
  {
    if k < MAX_REQUEST_ATTEMPTS {
      var attempt := AttemptAt(network, k);
      var d := Delivery(key, payload, attempt.create);
      DeliveryHasOneEffect(s, d);
      var after := Delivered(s, d).0;
      if attempt.fate == ResponseLost {
        MutateTakesEffectAtMostOnce(after, key, payload, network, k + 1);
        if after != s { RememberedMutateIsSilent(after, key, payload, network, k + 1); }
        OneEffectThenNone(s, after, Mutated(after, key, payload, network, k + 1).0, key);
      } else if attempt.fate != Answered {
        MutateTakesEffectAtMostOnce(s, key, payload, network, k + 1);
      }
    }
  }

  /** A key the server remembers can be sent again without any effect. */
  lemma {:induction false} RememberedMutateIsSilent(s: Server, key: Key, payload: int, network: seq<Attempt>, k: nat)
    requires key in s.records && k <= MAX_REQUEST_ATTEMPTS
    ensures Mutated(s, key, payload, network, k).0 == s
    decreases MAX_REQUEST_ATTEMPTS - k
  {
    if k < MAX_REQUEST_ATTEMPTS {
      RememberedMutateIsSilent(s, key, payload, network, k + 1);
    }
  }

  class WorkerApiClient {
    const api: WorkerApi

    constructor (api: WorkerApi)
      ensures this.api == api
    {
      this.api := api;
    }

    /** One delivery to the worker. */
    method Send(d: Delivery) returns (response: Response)
      requires Sound(api.State())
      modifies api, api.queue
      ensures (api.State(), response) == Delivered(old(api.State()), d)
      ensures Sound(api.State())
    {
      EventKeepsSound(api.State(), Arrives(d));
      response := api.ReplayOrRemember(d);
    }

    /** One attempt: an answer ends the mutation, anything else leaves the rest to the next attempt. */
    method TryOnce(key: Key, payload: int, network: seq<Attempt>, k: nat) returns (answer: Option<ClientResult>)
      requires Sound(api.State()) && k < MAX_REQUEST_ATTEMPTS
      modifies api, api.queue
      ensures Sound(api.State())
      ensures Mutated(old(api.State()), key, payload, network, k) ==
              if answer.Some? then (api.State(), answer.value) else Mutated(api.State(), key, payload, network, k + 1)
    {
      var attempt := AttemptAt(network, k);
      answer := None;
      if attempt.fate == ResponseLost || attempt.fate == Answered {
        var response := Send(Delivery(key, payload, attempt.create));
        if attempt.fate == Answered {
          answer := Some(if response.Accepted? then Success(response.ids) else Rejected);
        }
      }
    }

    /** The bounded retry loop of `_async_mutate`. */
    method Mutate(key: Key, payload: int, network: seq<Attempt>) returns (result: ClientResult)
      requires Sound(api.State())
      modifies api, api.queue
      ensures (api.State(), result) == Mutated(old(api.State()), key, payload, network, 0)
      ensures Sound(api.State())
    {
      for k := 0 to MAX_REQUEST_ATTEMPTS
        invariant Sound(api.State())
        invariant Mutated(api.State(), key, payload, network, k) == Mutated(old(api.State()), key, payload, network, 0)
      {
        var answer := TryOnce(key, payload, network, k);
        if answer.Some? {
          return answer.value;
        }
      }
      result := GaveUp;
    }
  }

  // ---------- The token store ----------

  datatype TokenState = Pending | Failed | Succeeded

  type Tokens = map<Key, TokenState>

  /** Text order: the collection id comes first in a token. */
  predicate Before(a: Key, b: Key) {
    a.collection < b.collection || (a.collection == b.collection && a.minute < b.minute)
  }

  function NewerThan(tokens: Tokens, token: Key): set<Key> {
    set other | other in tokens && Before(token, other)
  }

  /** The `limit` last tokens in text order. */
  function Pruned(tokens: Tokens, limit: nat): Tokens {
    map token | token in tokens && |NewerThan(tokens, token)| < limit :: tokens[token]
  }

  predicate Begins(tokens: Tokens, token: Key) {
    !(token in tokens && tokens[token] == Succeeded)
  }

  ghost predicate Ascending(keys: seq<Key>) {
    forall i, k :: 0 <= i < k < |keys| ==> Before(keys[i], keys[k])
  }

  class ConfigEntryRunTokenStore {
    const limit: nat
    var states: Tokens

    constructor (limit: nat, states: Tokens)
      requires limit >= 1
      ensures this.limit == limit && this.states == states
    {
      this.limit, this.states := limit, states;
    }

    /** Sorted by text, then the last `limit` entries. */
    method Persist(next: Tokens)
      modifies this
      ensures states == Pruned(next, limit)
    {
      var ordered := SortTokens(next.Keys);
      LastAreNewest(next, ordered, limit);
      states := Restricted(next, ordered[if |ordered| > limit then |ordered| - limit else 0..]);
    }

    method Begin(token: Key) returns (begun: bool)
      modifies this
      ensures begun == Begins(old(states), token)
      ensures states == if begun then Pruned(old(states)[token := Pending], limit) else old(states)
    {
      if token in states && states[token] == Succeeded { return false; }
      Persist(states[token := Pending]);
      begun := true;
    }

    method Record(token: Key, state: TokenState)
      modifies this
      ensures states == Pruned(old(states)[token := state], limit)
    {
      Persist(states[token := state]);
    }
  }

  method Restricted(tokens: Tokens, kept: seq<Key>) returns (result: Tokens)
    requires forall token :: token in kept ==> token in tokens
    ensures result == map token | token in tokens && token in kept :: tokens[token]
  {
    result := map[];
    for k := 0 to |kept|
      invariant forall token :: token in result <==> token in kept[..k]
      invariant forall token :: token in result ==> token in tokens && result[token] == tokens[token]
    {
      assert kept[k] in kept && kept[..k + 1] == kept[..k] + [kept[k]];
      result := result[kept[k] := tokens[kept[k]]];
    }
    assert kept[..|kept|] == kept;
  }

  method SortTokens(tokens: set<Key>) returns (ordered: seq<Key>)
    ensures Ascending(ordered) && forall token :: token in ordered <==> token in tokens
  {
    ordered := [];
    var rest := tokens;
    while rest != {}
      invariant Ascending(ordered) && rest <= tokens
      invariant forall token :: token in ordered <==> token in tokens && token !in rest
      invariant forall i, token :: 0 <= i < |ordered| && token in rest ==> Before(ordered[i], token)
      decreases rest
    {
      var least := AnyOf(rest);
      var others := rest - {least};
      while others != {}
        invariant least in rest && others <= rest
        invariant forall token :: token in rest && token !in others ==> token == least || Before(least, token)
        decreases others
      {
        var other := AnyOf(others);
        others := others - {other};
        if Before(other, least) { least := other; }
      }
      ordered, rest := ordered + [least], rest - {least};
    }
  }

  lemma NewerCount(tokens: Tokens, ordered: seq<Key>, k: nat)
    requires Ascending(ordered) && k < |ordered| && forall token :: token in ordered <==> token in tokens
    ensures |NewerThan(tokens, ordered[k])| == |ordered| - 1 - k
    decreases |ordered| - k
  {
    var newer := NewerThan(tokens, ordered[k]);
    if k + 1 == |ordered| {
      assert newer == {};
    } else {
      NewerCount(tokens, ordered, k + 1);
      assert ordered[k + 1] in ordered;
      assert newer == NewerThan(tokens, ordered[k + 1]) + {ordered[k + 1]};
    }
  }

  lemma LastAreNewest(tokens: Tokens, ordered: seq<Key>, limit: nat)
    requires Ascending(ordered) && forall token :: token in ordered <==> token in tokens
    ensures var kept := ordered[if |ordered| > limit then |ordered| - limit else 0..];
      forall token :: token in kept <==> token in tokens && |NewerThan(tokens, token)| < limit
  {
    var first := if |ordered| > limit then |ordered| - limit else 0;
    forall token ensures token in ordered[first..] <==> token in tokens && |NewerThan(tokens, token)| < limit {
      if token in tokens {
        var k :| 0 <= k < |ordered| && ordered[k] == token;
        NewerCount(tokens, ordered, k);
      }
    }
  }

  // ---------- The dispatcher ----------

  /** The worker as the network leaves it, and the tokens as last persisted. */
  datatype World = World(server: Server, tokens: Tokens)

  datatype Handled = Handled(world: World, runs: seq<Key>, raised: bool)

  function TokenOf(s: CompilationSchedule, now: int): Key {
    Key(s.collection, now / MINUTE)
  }

  function LinkAt(links: seq<seq<Attempt>>, k: nat): seq<Attempt> {
    if k < |links| then links[k] else []
  }

  ghost function Dispatched(h: Handled, limit: nat, s: CompilationSchedule, now: int, link: seq<Attempt>): Handled {
    var token := TokenOf(s, now);
    if !Due(s, now) || !Begins(h.world.tokens, token) then h else
      var begun := Pruned(h.world.tokens[token := Pending], limit);
      var (server, result) := Mutated(h.world.server, token, s.request, link, 0);
      if result.Success? then Handled(World(server, Pruned(begun[token := Succeeded], limit)), h.runs + [token], false)
      else Handled(World(server, Pruned(begun[token := Failed], limit)), h.runs, true)
  }

  /** One tick over the schedules in collection order; the first failing dispatch ends it. */
  ghost function HandledDue(world: World, limit: nat, schedules: Schedules, now: int, links: seq<seq<Attempt>>): Handled
    decreases |schedules|
  {
    if schedules == [] then Handled(world, [], false) else
      var k := |schedules| - 1;
      var before := HandledDue(world, limit, schedules[..k], now, links);
      if before.raised then before else Dispatched(before, limit, schedules[k], now, LinkAt(links, k))
  }

  class CompilationScheduler {
    const client: WorkerApiClient
    const store: ConfigEntryRunTokenStore

    constructor (client: WorkerApiClient, store: ConfigEntryRunTokenStore)
      ensures this.client == client && this.store == store
    {
      this.client, this.store := client, store;
    }

    ghost function Contents(): World
      reads this, client, client.api, client.api.queue, store
    {
      World(client.api.State(), store.states)
    }

    method HandleDue(schedules: Schedules, now: int, links: seq<seq<Attempt>>) returns (runs: seq<Key>, raised: bool)
      requires Sound(client.api.State())
      modifies client.api, client.api.queue, store
      ensures Handled(Contents(), runs, raised) == HandledDue(old(Contents()), store.limit, schedules, now, links)
      ensures Sound(client.api.State())
    {
      ghost var start := Contents();
      runs, raised := [], false;
      for k := 0 to |schedules|
        invariant Sound(client.api.State()) && !raised
        invariant Handled(Contents(), runs, raised) == HandledDue(start, store.limit, schedules[..k], now, links)
      {
        assert schedules[..k + 1][..k] == schedules[..k];
        var s := schedules[k];
        if Due(s, now) {
          var token := TokenOf(s, now);
          var begun := store.Begin(token);
          if begun {
            var result := client.Mutate(token, s.request, LinkAt(links, k));
            if !result.Success? {
              store.Record(token, Failed);
              raised := true;
              RaisedEndsTheTick(start, store.limit, schedules, now, links, k + 1);
              return;
            }
            store.Record(token, Succeeded);
            runs := runs + [token];
          }
        }
      }
      assert schedules[..|schedules|] == schedules;
    }
  }

  lemma {:induction false} RaisedEndsTheTick(world: World, limit: nat, schedules: Schedules, now: int,
      links: seq<seq<Attempt>>, k: nat)
    requires k <= |schedules| && HandledDue(world, limit, schedules[..k], now, links).raised
    ensures HandledDue(world, limit, schedules, now, links) == HandledDue(world, limit, schedules[..k], now, links)
    decreases |schedules| - k
  {
    if k == |schedules| {
      assert schedules[..k] == schedules;
    } else {
      assert schedules[..k + 1][..k] == schedules[..k];
      RaisedEndsTheTick(world, limit, schedules, now, links, k + 1);
    }
  }

  // ---------- End to end ----------

  /** Ticks, a crash between begin and record, lost tokens, and anything else that happens at the worker. */
  datatype Happening =
    | Tick(schedules: Schedules, now: int, links: seq<seq<Attempt>>)
    | Crash(token: Key, request: int, link: seq<Attempt>)
    | LoseTokens(lost: set<Key>)
    | AtWorker(e: Event)

  ghost predicate CanHappen(w: World, h: Happening) {
    h.AtWorker? ==> Possible(w.server, h.e)
  }

  ghost function Afterwards(w: World, limit: nat, h: Happening): World
    requires CanHappen(w, h)
  {
    match h
    case Tick(schedules, now, links) => HandledDue(w, limit, schedules, now, links).world
    case Crash(token, request, link) =>
      if !Begins(w.tokens, token) then w
      else World(Mutated(w.server, token, request, link, 0).0, Pruned(w.tokens[token := Pending], limit))
    case LoseTokens(lost) => w.(tokens := w.tokens - lost)
    case AtWorker(e) => w.(server := Next(w.server, e))
  }

  ghost predicate Plausible(w: World, limit: nat, history: seq<Happening>)
    decreases |history|
  {
    history == [] || (CanHappen(w, history[0]) && Plausible(Afterwards(w, limit, history[0]), limit, history[1..]))
  }

  ghost function Outcome(w: World, limit: nat, history: seq<Happening>): World
    requires Plausible(w, limit, history)
    decreases |history|
  {
    if history == [] then w else Outcome(Afterwards(w, limit, history[0]), limit, history[1..])
  }

  /** Every effect happened once, and a token marked succeeded stands for an effect. */
  ghost predicate Faithful(w: World) {
    Sound(w.server) && forall token :: token in w.tokens && w.tokens[token] == Succeeded ==> token in w.server.records
  }

  lemma DispatchIsFaithful(before: Handled, limit: nat, schedule: CompilationSchedule, now: int, link: seq<Attempt>)
    requires Faithful(before.world) && forall token :: token in before.runs ==> token in before.world.server.records
    ensures var h := Dispatched(before, limit, schedule, now, link);
      && Faithful(h.world)
      && (forall token :: token in h.runs ==> token in h.world.server.records)
      && (forall token :: token in before.world.server.records ==> token in h.world.server.records)
  {
    MutateTakesEffectAtMostOnce(before.world.server, TokenOf(schedule, now), schedule.request, link, 0);
  }

  lemma {:induction false} TickIsFaithful(w: World, limit: nat, schedules: Schedules, now: int,
      links: seq<seq<Attempt>>)
    requires Faithful(w)
    ensures var h := HandledDue(w, limit, schedules, now, links);
      && Faithful(h.world)
      && (forall token :: token in h.runs ==> token in h.world.server.records)
      && (forall token :: token in w.server.records ==> token in h.world.server.records)
    decreases |schedules|
  {
    if schedules != [] {
      var k := |schedules| - 1;
      TickIsFaithful(w, limit, schedules[..k], now, links);
      DispatchIsFaithful(HandledDue(w, limit, schedules[..k], now, links), limit, schedules[k], now, LinkAt(links, k));
    }
  }

  lemma HappeningIsFaithful(w: World, limit: nat, h: Happening)
    requires Faithful(w) && CanHappen(w, h)
    ensures Faithful(Afterwards(w, limit, h))
  {
    match h {
      case Tick(schedules, now, links) => TickIsFaithful(w, limit, schedules, now, links);
      case Crash(token, request, link) => MutateTakesEffectAtMostOnce(w.server, token, request, link, 0);
      case LoseTokens(_) =>
      case AtWorker(e) => EventKeepsSound(w.server, e);
    }
  }

  /** Exactly once, end to end: over lost messages, retries, re-dispatch, crashes and pruned tokens, no key is
      created twice. */
  lemma {:induction false} ExactlyOnceEndToEnd(w: World, limit: nat, history: seq<Happening>)
    requires Faithful(w) && Plausible(w, limit, history)
    ensures Faithful(Outcome(w, limit, history))
    ensures Unique(Outcome(w, limit, history).server.created)
    decreases |history|
  {
    if history != [] {
      HappeningIsFaithful(w, limit, history[0]);
      ExactlyOnceEndToEnd(Afterwards(w, limit, history[0]), limit, history[1..]);
    }
  }

  const FIRST_START := World(START, map[])

  /** From the first start of both sides: no key is created twice, and a token marked succeeded was created exactly
      once. */
  lemma ExactlyOnceFromTheStart(limit: nat, history: seq<Happening>)
    requires Plausible(FIRST_START, limit, history)
    ensures var end := Outcome(FIRST_START, limit, history);
      && Unique(end.server.created)
      && forall token :: token in end.tokens && end.tokens[token] == Succeeded ==> token in end.server.created
  {
    ExactlyOnceEndToEnd(FIRST_START, limit, history);
  }
}
