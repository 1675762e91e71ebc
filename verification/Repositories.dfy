/**
 The transactional repositories of collections and profiles: optimistic revisions, a single
 default collection, an audit trail and idempotency records. A rejected call rolls back.
 */
module Repositories {
  import opened Wrappers

  type Id = int
  type Key = int

  datatype CollectionRow = CollectionRow(isDefault: bool, profile: Id, body: int, revision: nat)

  datatype ProfileRow = ProfileRow(name: int, settings: int, version: nat, revision: nat)

  datatype Action = CollectionCreated | CollectionPatched | DefaultDemoted | ProfileCreated | ProfilePatched
  {
    predicate ForCollection() {
      CollectionCreated? || CollectionPatched? || DefaultDemoted?
    }
  }

  datatype Audit = Audit(action: Action, target: Id)

  datatype Request =
    | CreateCollection(id: Id, isDefault: bool, profile: Id, body: int)
    | PatchCollection(id: Id, revision: nat, newDefault: Option<bool>, newProfile: Option<Id>, newBody: Option<int>)
    | CreateProfile(id: Id, name: int, settings: int)
    | PatchProfile(id: Id, revision: nat, newName: Option<int>, newSettings: Option<int>)

  datatype Response = Collection(row: CollectionRow) | Profile(profile: ProfileRow)

  datatype Failure = MissingCaller | KeyConflict | EmptyPatch | NotFound | Stale | AlreadyExists

  /** The fingerprint of an idempotency record is an injective digest, so the request itself. */
  datatype Remembered = Remembered(actor: int, request: Request, response: Response)

  datatype Caller = Caller(actor: Option<int>, key: Option<Key>)

  datatype Store = Store(
    collections: map<Id, CollectionRow>, profiles: map<Id, ProfileRow>,
    audits: multiset<Audit>, remembered: map<Key, Remembered>)

  type Outcome = Result<Response, Failure>

  // ---------- What a call does ----------

  function OtherDefaults(collections: map<Id, CollectionRow>, keep: Id): set<Id> {
    set id | id in collections && id != keep && collections[id].isDefault
  }

  function Demoted(collections: map<Id, CollectionRow>, ids: set<Id>): map<Id, CollectionRow> {
    map id | id in collections ::
      if id in ids then collections[id].(isDefault := false, revision := collections[id].revision + 1)
        else collections[id]
  }

  function Demotions(ids: set<Id>): multiset<Audit> {
    multiset(set id | id in ids :: Audit(DefaultDemoted, id))
  }

  function DemotedAmong(store: Store, ids: set<Id>): Store {
    store.(collections := Demoted(store.collections, ids), audits := store.audits + Demotions(ids))
  }

  lemma DemoteNone(store: Store, ids: set<Id>)
    ensures DemotedAmong(store, ids - ids) == store && ids - {} == ids
  {
  }

  /** One row more of those still to demote. */
  lemma DemoteNext(store: Store, ids: set<Id>, rest: set<Id>, id: Id)
    requires id in rest && rest <= ids && id in store.collections
    ensures var before, after := DemotedAmong(store, ids - rest), DemotedAmong(store, ids - (rest - {id}));
      var row := store.collections[id];
      && before.collections[id] == row
      && after.collections == before.collections[id := row.(isDefault := false, revision := row.revision + 1)]
      && after.audits == before.audits + multiset{Audit(DefaultDemoted, id)}
  {
  }

  function WithDefaultAt(store: Store, keep: Id): Store {
    DemotedAmong(store, OtherDefaults(store.collections, keep))
  }

  function Patched(row: CollectionRow, r: Request): CollectionRow
    requires r.PatchCollection?
  {
    CollectionRow(if r.newDefault.Some? then r.newDefault.value else row.isDefault,
                  if r.newProfile.Some? then r.newProfile.value else row.profile,
                  if r.newBody.Some? then r.newBody.value else row.body,
                  row.revision + 1)
  }

  function PatchedProfile(row: ProfileRow, r: Request): ProfileRow
    requires r.PatchProfile?
  {
    ProfileRow(if r.newName.Some? then r.newName.value else row.name,
               if r.newSettings.Some? then r.newSettings.value else row.settings,
               row.version + 1, row.revision + 1)
  }

  predicate IsEmpty(r: Request) {
    || (r.PatchCollection? && r.newDefault.None? && r.newProfile.None? && r.newBody.None?)
    || (r.PatchProfile? && r.newName.None? && r.newSettings.None?)
  }

  /** Why a fresh request is refused, if it is. */
  function Refusal(store: Store, r: Request): Option<Failure> {
    match r
    case CreateCollection(id, _, profile, _) =>
      if profile !in store.profiles then Some(NotFound) else
        if id in store.collections then Some(AlreadyExists) else None
    case PatchCollection(id, revision, _, newProfile, _) =>
      if IsEmpty(r) then Some(EmptyPatch)
      else if newProfile.Some? && newProfile.value !in store.profiles then Some(NotFound)
      else if id !in store.collections then Some(NotFound)
      else if store.collections[id].revision != revision then Some(Stale) else None
    case CreateProfile(id, _, _) => if id in store.profiles then Some(AlreadyExists) else None
    case PatchProfile(id, revision, _, _) =>
      if IsEmpty(r) then Some(EmptyPatch)
      else if id !in store.profiles then Some(NotFound)
      else if store.profiles[id].revision != revision then Some(Stale) else None
  }

  function TakesDefault(r: Request): bool {
    (r.CreateCollection? && r.isDefault) || (r.PatchCollection? && r.newDefault == Some(true))
  }

  function ActionOf(r: Request): Action {
    match r
    case CreateCollection(_, _, _, _) => CollectionCreated
    case PatchCollection(_, _, _, _, _) => CollectionPatched
    case CreateProfile(_, _, _) => ProfileCreated
    case PatchProfile(_, _, _, _) => ProfilePatched
  }

  function ResponseTo(store: Store, r: Request): Response
    requires Refusal(store, r).None?
  {
    match r
    case CreateCollection(_, isDefault, profile, body) => Collection(CollectionRow(isDefault, profile, body, 1))
    case PatchCollection(id, _, _, _, _) => Collection(Patched(store.collections[id], r))
    case CreateProfile(_, name, settings) => Profile(ProfileRow(name, settings, 1, 1))
    case PatchProfile(id, _, _, _) => Profile(PatchedProfile(store.profiles[id], r))
  }

  function Performed(store: Store, actor: int, key: Key, r: Request): Store
    requires Refusal(store, r).None?
  {
    var response := ResponseTo(store, r);
    var before := if TakesDefault(r) then WithDefaultAt(store, r.id) else store;
    Store(if response.Collection? then before.collections[r.id := response.row] else before.collections,
          if response.Profile? then before.profiles[r.id := response.profile] else before.profiles,
          before.audits + multiset{Audit(ActionOf(r), r.id)},
          before.remembered[key := Remembered(actor, r, response)])
  }

  function Handled(store: Store, caller: Caller, r: Request): (Store, Outcome) {
    if caller.actor.None? || caller.key.None? then (store, Err(MissingCaller))
    else if caller.key.value in store.remembered then
      var record := store.remembered[caller.key.value];
      if record.actor != caller.actor.value || record.request != r then (store, Err(KeyConflict))
        else (store, Ok(record.response))
    else if Refusal(store, r).Some? then (store, Err(Refusal(store, r).value))
    else (Performed(store, caller.actor.value, caller.key.value, r), Ok(ResponseTo(store, r)))
  }

  // ---------- The repository object ----------

  class Repository {
    var collections: map<Id, CollectionRow>
    var profiles: map<Id, ProfileRow>
    var audits: multiset<Audit>
    var remembered: map<Key, Remembered>

    ghost function Contents(): Store
      reads this
    {
      Store(collections, profiles, audits, remembered)
    }

    method Replay(caller: Caller, r: Request) returns (replay: Option<Outcome>)
      ensures replay.None? ==> caller.actor.Some? && caller.key.Some? && caller.key.value !in remembered
      ensures replay.Some? ==> Handled(Contents(), caller, r) == (Contents(), replay.value)
    {
      if caller.actor.None? || caller.key.None? {
        return Some(Err(MissingCaller));
      }
      if caller.key.value !in remembered {
        return None;
      }
      var record := remembered[caller.key.value];
      if record.actor != caller.actor.value || record.request != r {
        return Some(Err(KeyConflict));
      }
      replay := Some(Ok(record.response));
    }

    method Demote(id: Id)
      requires id in collections
      modifies this`collections, this`audits
      ensures collections ==
        old(collections)[id := old(collections)[id].(isDefault := false, revision := old(collections)[id].revision + 1)]
      ensures audits == old(audits) + multiset{Audit(DefaultDemoted, id)}
    {
      collections := collections[id := collections[id].(isDefault := false, revision := collections[id].revision + 1)];
      audits := audits + multiset{Audit(DefaultDemoted, id)};
    }

    /** One row and one audit event at a time. */
    method DemoteOtherDefaults(keep: Id)
      modifies this`collections, this`audits
      ensures Contents() == WithDefaultAt(old(Contents()), keep)
    {
      ghost var start := Contents();
      var ids := OtherDefaults(collections, keep);
      var rest := ids;
      DemoteNone(start, ids);
      while rest != {}
        invariant rest <= ids <= start.collections.Keys
        invariant Contents() == DemotedAmong(start, ids - rest)
        decreases rest
      {
        var id := AnyOf(rest);
        DemoteNext(start, ids, rest, id);
        Demote(id);
        rest := rest - {id};
      }
    }

    method Create(caller: Caller, id: Id, isDefault: bool, profile: Id, body: int) returns (result: Outcome)
      modifies this
      ensures (Contents(), result) == Handled(old(Contents()), caller, CreateCollection(id, isDefault, profile, body))
    {
      var r := CreateCollection(id, isDefault, profile, body);
      var replay := Replay(caller, r);
      if replay.Some? { return replay.value; }
      if profile !in profiles { return Err(NotFound); }
      var collectionsBefore, auditsBefore := collections, audits;
      if isDefault { DemoteOtherDefaults(id); }
      if id in collections {
        collections, audits := collectionsBefore, auditsBefore;
        return Err(AlreadyExists);
      }
      collections := collections[id := CollectionRow(isDefault, profile, body, 1)];
      audits := audits + multiset{Audit(CollectionCreated, id)};
      remembered := remembered[caller.key.value := Remembered(caller.actor.value, r, Collection(collections[id]))];
      result := Ok(Collection(collections[id]));
    }

    method Patch(caller: Caller, r: Request) returns (result: Outcome)
      requires r.PatchCollection?
      modifies this
      ensures (Contents(), result) == Handled(old(Contents()), caller, r)
    {
      var replay := Replay(caller, r);
      if replay.Some? { return replay.value; }
      if IsEmpty(r) { return Err(EmptyPatch); }
      if r.newProfile.Some? && r.newProfile.value !in profiles { return Err(NotFound); }
      var collectionsBefore, auditsBefore := collections, audits;
      if r.newDefault == Some(true) { DemoteOtherDefaults(r.id); }
      if r.id !in collections || collections[r.id].revision != r.revision {
        result := Err(if r.id !in collections then NotFound else Stale);
        collections, audits := collectionsBefore, auditsBefore;
        return;
      }
      collections := collections[r.id := Patched(collections[r.id], r)];
      audits := audits + multiset{Audit(CollectionPatched, r.id)};
      remembered := remembered[caller.key.value := Remembered(caller.actor.value, r, Collection(collections[r.id]))];
      result := Ok(Collection(collections[r.id]));
    }

    method CreateProfile(caller: Caller, id: Id, name: int, settings: int) returns (result: Outcome)
      modifies this
      ensures (Contents(), result) == Handled(old(Contents()), caller, Request.CreateProfile(id, name, settings))
    {
      var r := Request.CreateProfile(id, name, settings);
      var replay := Replay(caller, r);
      if replay.Some? { return replay.value; }
      if id in profiles { return Err(AlreadyExists); }
      profiles := profiles[id := ProfileRow(name, settings, 1, 1)];
      audits := audits + multiset{Audit(ProfileCreated, id)};
      remembered := remembered[caller.key.value := Remembered(caller.actor.value, r, Profile(profiles[id]))];
      result := Ok(Profile(profiles[id]));
    }

    method PatchProfile(caller: Caller, r: Request) returns (result: Outcome)
      requires r.PatchProfile?
      modifies this
      ensures (Contents(), result) == Handled(old(Contents()), caller, r)
    {
      var replay := Replay(caller, r);
      if replay.Some? { return replay.value; }
      if IsEmpty(r) { return Err(EmptyPatch); }
      if r.id !in profiles || profiles[r.id].revision != r.revision {
        return Err(if r.id !in profiles then NotFound else Stale);
      }
      profiles := profiles[r.id := PatchedProfile(profiles[r.id], r)];
      audits := audits + multiset{Audit(ProfilePatched, r.id)};
      remembered := remembered[caller.key.value := Remembered(caller.actor.value, r, Profile(profiles[r.id]))];
      result := Ok(Profile(profiles[r.id]));
    }
  }

  // ---------- Conservation ----------

  function CollectionEvents(audits: multiset<Audit>, id: Id): nat {
    audits[Audit(CollectionCreated, id)] + audits[Audit(CollectionPatched, id)] + audits[Audit(DefaultDemoted, id)]
  }

  function ProfileEvents(audits: multiset<Audit>, id: Id): nat {
    audits[Audit(ProfileCreated, id)] + audits[Audit(ProfilePatched, id)]
  }

  /** The revision a seeded profile starts with comes without an audit event. */
  function Unaudited(seeded: set<Id>, id: Id): nat {
    if id in seeded then 1 else 0
  }

  ghost predicate Conserved(store: Store, seeded: set<Id>) {
    && seeded <= store.profiles.Keys
    && (forall id ::
        CollectionEvents(store.audits, id) == if id in store.collections then store.collections[id].revision else 0)
    && (forall id ::
        ProfileEvents(store.audits, id) + Unaudited(seeded, id) ==
          if id in store.profiles then store.profiles[id].revision else 0)
    && (forall id :: id in store.profiles ==> store.profiles[id].version == store.profiles[id].revision)
    && (forall a, b ::
        a in store.collections && b in store.collections && store.collections[a].isDefault &&
        store.collections[b].isDefault ==>
          a == b)
  }

  lemma DemotionCounts(audits: multiset<Audit>, ids: set<Id>)
    ensures forall id ::
      CollectionEvents(audits + Demotions(ids), id) == CollectionEvents(audits, id) + if id in ids then 1 else 0
    ensures forall id :: ProfileEvents(audits + Demotions(ids), id) == ProfileEvents(audits, id)
  {
  }

  lemma DemotionKeepsConserved(store: Store, keep: Id, seeded: set<Id>)
    requires Conserved(store, seeded)
    ensures Conserved(WithDefaultAt(store, keep), seeded)
    ensures forall id :: id in store.collections && id != keep ==> !WithDefaultAt(store, keep).collections[id].isDefault
    ensures keep in store.collections ==> WithDefaultAt(store, keep).collections[keep] == store.collections[keep]
  {
    DemotionCounts(store.audits, OtherDefaults(store.collections, keep));
  }

  lemma AuditCounts(audits: multiset<Audit>, action: Action, id: Id)
    ensures var after := audits + multiset{Audit(action, id)};
      && (forall i ::
          CollectionEvents(after, i) == CollectionEvents(audits, i) +
            if i == id && action.ForCollection() then 1 else 0)
      && (forall i ::
          ProfileEvents(after, i) == ProfileEvents(audits, i) + if i == id && !action.ForCollection() then 1 else 0)
  {
  }

  lemma CollectionWriteKeepsConserved(store: Store, id: Id, row: CollectionRow, action: Action, seeded: set<Id>)
    requires Conserved(store, seeded) && action in {CollectionCreated, CollectionPatched}
    requires row.revision == 1 + if id in store.collections then store.collections[id].revision else 0
    requires row.isDefault ==>
      forall other :: other in store.collections && other != id ==> !store.collections[other].isDefault
    ensures Conserved(store.(collections := store.collections[id := row],
      audits := store.audits + multiset{Audit(action, id)}), seeded)
  {
    AuditCounts(store.audits, action, id);
  }

  lemma ProfileWriteKeepsConserved(store: Store, id: Id, row: ProfileRow, action: Action, seeded: set<Id>)
    requires Conserved(store, seeded) && action in {ProfileCreated, ProfilePatched}
    requires row.version == row.revision == 1 + if id in store.profiles then store.profiles[id].revision else 0
    ensures Conserved(store.(profiles := store.profiles[id := row],
      audits := store.audits + multiset{Audit(action, id)}), seeded)
  {
    AuditCounts(store.audits, action, id);
  }

  lemma PerformedKeepsConserved(store: Store, actor: int, key: Key, r: Request, seeded: set<Id>)
    requires Conserved(store, seeded) && Refusal(store, r).None?
    ensures Conserved(Performed(store, actor, key, r), seeded)
  {
    var before := store;
    if TakesDefault(r) {
      DemotionKeepsConserved(store, r.id, seeded);
      before := WithDefaultAt(store, r.id);
    }
    var after := Performed(store, actor, key, r);
    match ResponseTo(store, r) {
      case Collection(row) =>
        CollectionWriteKeepsConserved(before, r.id, row, ActionOf(r), seeded);
        assert after.(remembered := before.remembered) ==
          before.(collections := before.collections[r.id := row],
            audits := before.audits + multiset{Audit(ActionOf(r), r.id)});
      case Profile(row) =>
        ProfileWriteKeepsConserved(before, r.id, row, ActionOf(r), seeded);
        assert after.(remembered := before.remembered) ==
          before.(profiles := before.profiles[r.id := row],
            audits := before.audits + multiset{Audit(ActionOf(r), r.id)});
    }
  }

  /** Revisions count audit events, the default is unique, profile version and revision agree; after any call. */
  lemma CallKeepsConserved(store: Store, caller: Caller, r: Request, seeded: set<Id>)
    requires Conserved(store, seeded)
    ensures Conserved(Handled(store, caller, r).0, seeded)
  {
    if caller.actor.Some? && caller.key.Some? && caller.key.value !in store.remembered && Refusal(store, r).None? {
      PerformedKeepsConserved(store, caller.actor.value, caller.key.value, r, seeded);
    }
  }

  /** A refused call, a replay and a conflicting key leave every table as it was. */
  lemma RejectedOrReplayedChangesNothing(store: Store, caller: Caller, r: Request)
    ensures Handled(store, caller, r).1.Err? ==> Handled(store, caller, r).0 == store
    ensures caller.actor.None? || caller.key.None? <==> Handled(store, caller, r).1 == Err(MissingCaller)
    ensures caller.key.Some? && caller.key.value in store.remembered ==> Handled(store, caller, r).0 == store
    ensures Handled(store, caller, r).1.Ok? ==>
      caller.key.Some? && caller.key.value in Handled(store, caller, r).0.remembered
  {
  }

  /** Taking the default moves it: afterwards the named collection is the default, and the only one. */
  lemma TakingTheDefaultMovesIt(store: Store, caller: Caller, r: Request)
    requires TakesDefault(r) && Handled(store, caller, r).0 != store
    ensures var after := Handled(store, caller, r).0;
      r.id in after.collections &&
        forall id :: id in after.collections ==> (after.collections[id].isDefault <==> id == r.id)
  {
  }

  predicate IsFresh(store: Store, caller: Caller) {
    caller.actor.Some? && caller.key.Some? && caller.key.value !in store.remembered
  }

  /** A call about a collection adds its own audit event and one for every other default it demotes, and no other. */
  lemma AuditsAreExact(store: Store, caller: Caller, r: Request)
    requires IsFresh(store, caller) && (r.CreateCollection? || r.PatchCollection?) && Handled(store, caller, r).1.Ok?
    ensures var own := Audit(if r.CreateCollection? then CollectionCreated else CollectionPatched, r.id);
      var takes := if r.CreateCollection? then r.isDefault else r.newDefault == Some(true);
      forall a :: Handled(store, caller, r).0.audits[a] == store.audits[a] + (if a == own then 1 else 0) +
        (if && takes && a.action == DefaultDemoted && a.target != r.id
            && a.target in store.collections && store.collections[a.target].isDefault then 1 else 0)
  {
    var ids := OtherDefaults(store.collections, r.id);
    forall a ensures Demotions(ids)[a] == if a.action == DefaultDemoted && a.target in ids then 1 else 0 {
      assert a in Demotions(ids) <==> a.action == DefaultDemoted && a.target in ids;
    }
  }

  /** A patch changes the columns it names and no others, in its own row and no other, apart from demotions. */
  lemma PatchIsExact(store: Store, caller: Caller, r: Request)
    requires r.PatchCollection? && Handled(store, caller, r).0 != store
    ensures r.id in store.collections && r.id in Handled(store, caller, r).0.collections
    ensures var was, now := store.collections[r.id], Handled(store, caller, r).0.collections[r.id];
      && Handled(store, caller, r).1 == Ok(Collection(now)) && now.revision == was.revision + 1 == r.revision + 1
      && now.isDefault == (if r.newDefault.Some? then r.newDefault.value else was.isDefault)
      && now.profile == (if r.newProfile.Some? then r.newProfile.value else was.profile)
      && now.body == (if r.newBody.Some? then r.newBody.value else was.body)
    ensures forall id :: id in store.collections && id != r.id ==>
      var was, now := store.collections[id], Handled(store, caller, r).0.collections[id];
      now.profile == was.profile && now.body == was.body &&
      (now != was ==> was.isDefault && !now.isDefault && now.revision == was.revision + 1 && r.newDefault == Some(true))
  {
  }

  /** When a call under a fresh key succeeds, and which failure it reports otherwise. */
  lemma FreshCallSucceedsIff(store: Store, caller: Caller, r: Request)
    requires IsFresh(store, caller)
    ensures var result := Handled(store, caller, r).1;
      match r
      case CreateCollection(id, _, profile, _) =>
        && (result.Ok? <==> profile in store.profiles && id !in store.collections)
        && (result == Err(NotFound) <==> profile !in store.profiles)
        && (result.Err? ==> result.error in {NotFound, AlreadyExists})
      case PatchCollection(id, revision, newDefault, newProfile, newBody) =>
        && (result == Err(EmptyPatch) <==> newDefault.None? && newProfile.None? && newBody.None?)
        && (result == Err(NotFound) <==>
              result != Err(EmptyPatch) &&
              (id !in store.collections || (newProfile.Some? && newProfile.value !in store.profiles)))
        && (result.Err? ==> result.error in {EmptyPatch, NotFound, Stale})
        && (result == Err(Stale) ==> id in store.collections && store.collections[id].revision != revision)
        && (result.Ok? ==> id in store.collections && store.collections[id].revision == revision)
      case CreateProfile(id, _, _) =>
        if id in store.profiles then result == Err(AlreadyExists) else result.Ok?
      case PatchProfile(id, revision, newName, newSettings) =>
        && (result == Err(EmptyPatch) <==> newName.None? && newSettings.None?)
        && (result == Err(NotFound) <==> result != Err(EmptyPatch) && id !in store.profiles)
        && (result.Err? ==> result.error in {EmptyPatch, NotFound, Stale})
        && (result == Err(Stale) ==> id in store.profiles && store.profiles[id].revision != revision)
        && (result.Ok? ==> id in store.profiles && store.profiles[id].revision == revision)
  {
  }

  /** A creation inserts the row it describes at revision one, demotes other defaults if it takes the default, and
      audits. */
  lemma CreateIsExact(store: Store, caller: Caller, r: Request)
    requires IsFresh(store, caller) && r.CreateCollection? && Handled(store, caller, r).1.Ok?
    ensures var after, row := Handled(store, caller, r).0, CollectionRow(r.isDefault, r.profile, r.body, 1);
      && Handled(store, caller, r).1 == Ok(Collection(row)) && after.profiles == store.profiles
      && after.collections.Keys == store.collections.Keys + {r.id} && after.collections[r.id] == row
      && (forall id :: id in store.collections ==>
            var was := store.collections[id];
            after.collections[id] == if r.isDefault && was.isDefault
              then CollectionRow(false, was.profile, was.body, was.revision + 1) else was)
  {
  }

  /** Calls about profiles touch the one row, write what they name, and count one version and one revision. */
  lemma ProfileCallIsExact(store: Store, caller: Caller, r: Request)
    requires IsFresh(store, caller) && (r.CreateProfile? || r.PatchProfile?) && Handled(store, caller, r).1.Ok?
    ensures var after, result := Handled(store, caller, r).0, Handled(store, caller, r).1.value;
      && after.collections == store.collections && r.id in after.profiles
      && result == Profile(after.profiles[r.id])
      && after.profiles == store.profiles[r.id := after.profiles[r.id]]
      && (r.CreateProfile? ==> r.id !in store.profiles && after.profiles[r.id] == ProfileRow(r.name, r.settings, 1, 1))
      && (r.PatchProfile? ==>
            && r.id in store.profiles
            && var was, now := store.profiles[r.id], after.profiles[r.id];
            && (now.name == if r.newName.Some? then r.newName.value else was.name)
            && (now.settings == if r.newSettings.Some? then r.newSettings.value else was.settings)
            && now.version == was.version + 1 && now.revision == was.revision + 1)
      && after.audits == store.audits +
           multiset{Audit(if r.CreateProfile? then ProfileCreated else ProfilePatched, r.id)}
  {
  }

  // ---------- Whole runs ----------

  datatype Call = Call(caller: Caller, r: Request)

  /** What reaches the tables: requests, and at every start of the worker the seeding of its built-in profile. */
  datatype Occasion = Requested(call: Call) | Startup(builtin: Id, name: int, settings: int)

  /** The seeding inserts its row unless the id is taken, without an audit event. */
  function Started(store: Store, builtin: Id, name: int, settings: int): Store {
    if builtin in store.profiles then store
      else store.(profiles := store.profiles[builtin := ProfileRow(name, settings, 1, 1)])
  }

  function After(store: Store, o: Occasion): Store {
    match o
    case Requested(call) => Handled(store, call.caller, call.r).0
    case Startup(builtin, name, settings) => Started(store, builtin, name, settings)
  }

  function Run(store: Store, occasions: seq<Occasion>): Store
    decreases |occasions|
  {
    if occasions == [] then store else Run(After(store, occasions[0]), occasions[1..])
  }

  /** A start inserts the built-in profile as given if its id is free, and never touches a row that is there. */
  lemma SeedingIsExact(store: Store, builtin: Id, name: int, settings: int)
    ensures var after := After(store, Startup(builtin, name, settings));
      && after.collections == store.collections && after.audits == store.audits && after.remembered == store.remembered
      && after.profiles.Keys == store.profiles.Keys + {builtin}
      && forall id :: id in after.profiles ==>
           after.profiles[id] == if id in store.profiles then store.profiles[id] else ProfileRow(name, settings, 1, 1)
  {
  }

  function SeededBy(store: Store, seeded: set<Id>, o: Occasion): set<Id> {
    if o.Startup? && o.builtin !in store.profiles then seeded + {o.builtin} else seeded
  }

  /** The profiles that were inserted by a seeding. */
  function SeededIn(store: Store, seeded: set<Id>, occasions: seq<Occasion>): set<Id>
    decreases |occasions|
  {
    if occasions == [] then seeded
    else SeededIn(After(store, occasions[0]), SeededBy(store, seeded, occasions[0]), occasions[1..])
  }

  function Revision(store: Store, r: Request): int {
    if r.PatchCollection? || r.CreateCollection?
    then if r.id in store.collections then store.collections[r.id].revision else 0
    else if r.id in store.profiles then store.profiles[r.id].revision else 0
  }

  /** The migrated database of a first start. */
  const EMPTY := Store(map[], map[], multiset{}, map[])

  lemma CallKeepsKeysAndRevisions(store: Store, call: Call, r: Request)
    ensures var after := Handled(store, call.caller, call.r).0;
      && (forall key :: key in store.remembered ==>
            key in after.remembered && after.remembered[key] == store.remembered[key])
      && Revision(store, r) <= Revision(after, r)
  {
  }

  lemma OccasionKeepsKeysAndRevisions(store: Store, o: Occasion, r: Request)
    ensures forall key ::
      key in store.remembered ==>
        key in After(store, o).remembered && After(store, o).remembered[key] == store.remembered[key]
    ensures Revision(store, r) <= Revision(After(store, o), r)
  {
    if o.Requested? {
      CallKeepsKeysAndRevisions(store, o.call, r);
    }
  }

  /** Over any run from any store: keys stay remembered with their responses, and no revision falls. */
  lemma {:induction false} RunKeepsKeysAndRevisions(store: Store, occasions: seq<Occasion>, r: Request)
    ensures var end := Run(store, occasions);
      forall key :: key in store.remembered ==> key in end.remembered && end.remembered[key] == store.remembered[key]
    ensures Revision(store, r) <= Revision(Run(store, occasions), r)
    decreases |occasions|
  {
    if occasions != [] {
      OccasionKeepsKeysAndRevisions(store, occasions[0], r);
      RunKeepsKeysAndRevisions(After(store, occasions[0]), occasions[1..], r);
    }
  }

  lemma OccasionKeepsConserved(store: Store, seeded: set<Id>, o: Occasion)
    requires Conserved(store, seeded)
    ensures Conserved(After(store, o), SeededBy(store, seeded, o))
  {
    if o.Requested? {
      CallKeepsConserved(store, o.call.caller, o.call.r, seeded);
    }
  }

  /** Conservation over any run of requests and restarts. */
  lemma {:induction false} RunKeepsConserved(store: Store, seeded: set<Id>, occasions: seq<Occasion>)
    requires Conserved(store, seeded)
    ensures Conserved(Run(store, occasions), SeededIn(store, seeded, occasions))
    decreases |occasions|
  {
    if occasions != [] {
      OccasionKeepsConserved(store, seeded, occasions[0]);
      RunKeepsConserved(After(store, occasions[0]), SeededBy(store, seeded, occasions[0]), occasions[1..]);
    }
  }

  /** Once the built-in profile is there, further starts seed nothing. */
  lemma {:induction false} SeededOnce(store: Store, seeded: set<Id>, occasions: seq<Occasion>, builtin: Id)
    requires builtin in store.profiles
    requires forall o :: o in occasions && o.Startup? ==> o.builtin == builtin
    ensures SeededIn(store, seeded, occasions) == seeded && builtin in Run(store, occasions).profiles
    decreases |occasions|
  {
    if occasions != [] {
      assert occasions[0] in occasions && forall o :: o in occasions[1..] ==> o in occasions;
      SeededOnce(After(store, occasions[0]), seeded, occasions[1..], builtin);
    }
  }

  /** The worker starts on an empty database, seeds its profile, and serves any sequence of requests and restarts. */
  lemma DeployedDatabaseIsConserved(builtin: Id, name: int, settings: int, occasions: seq<Occasion>)
    requires forall o :: o in occasions && o.Startup? ==> o.builtin == builtin
    ensures var end := Run(EMPTY, [Startup(builtin, name, settings)] + occasions);
      && builtin in end.profiles
      && (forall id :: id in end.collections ==> CollectionEvents(end.audits, id) == end.collections[id].revision)
      && (forall id :: id in end.profiles ==>
            && end.profiles[id].version == end.profiles[id].revision
            && ProfileEvents(end.audits, id) == end.profiles[id].revision - if id == builtin then 1 else 0)
      && (forall a, b ::
          a in end.collections && b in end.collections && end.collections[a].isDefault &&
          end.collections[b].isDefault ==>
            a == b)
  {
    var first := Startup(builtin, name, settings);
    var all := [first] + occasions;
    assert all[0] == first && all[1..] == occasions;
    assert Conserved(EMPTY, {});
    RunKeepsConserved(EMPTY, {}, all);
    SeededOnce(After(EMPTY, first), {} + {builtin}, occasions, builtin);
    assert SeededIn(EMPTY, {}, all) == {builtin};
  }

  /** Of two patches with distinct keys carrying the same revision, at most one succeeds, whatever runs in between. */
  lemma StalePatchLoses(store: Store, first: Call, between: seq<Occasion>, second: Call)
    requires first.r.PatchCollection? || first.r.PatchProfile?
    requires first.r.PatchCollection? == second.r.PatchCollection? && first.r.PatchProfile? == second.r.PatchProfile?
    requires first.r.id == second.r.id && first.r.revision == second.r.revision
    requires first.caller.key.Some? && first.caller.key.value !in store.remembered
    requires Handled(store, first.caller, first.r).1.Ok?
    requires var later := Run(Handled(store, first.caller, first.r).0, between);
      second.caller.key.Some? ==> second.caller.key.value !in later.remembered
    ensures var later := Run(Handled(store, first.caller, first.r).0, between);
      Handled(later, second.caller, second.r).1.Err? && Handled(later, second.caller, second.r).0 == later
  {
    var after := Handled(store, first.caller, first.r).0;
    RunKeepsKeysAndRevisions(after, between, first.r);
  }

  predicate Remembers(store: Store, call: Call, response: Response) {
    && call.caller.actor.Some? && call.caller.key.Some? && call.caller.key.value in store.remembered
    && store.remembered[call.caller.key.value] == Remembered(call.caller.actor.value, call.r, response)
  }

  lemma SuccessIsRemembered(store: Store, call: Call)
    requires Handled(store, call.caller, call.r).1.Ok?
    ensures Remembers(Handled(store, call.caller, call.r).0, call, Handled(store, call.caller, call.r).1.value)
  {
  }

  /** Another request, or another actor, under a key that succeeded is refused as a conflict, however late. */
  lemma OtherUseOfKeyConflicts(store: Store, call: Call, between: seq<Occasion>, other: Call)
    requires Handled(store, call.caller, call.r).1.Ok?
    requires other.caller.key == call.caller.key && other.caller.actor.Some?
    ensures var later := Run(Handled(store, call.caller, call.r).0, between);
      if other.r == call.r && other.caller.actor == call.caller.actor
      then Handled(later, other.caller, other.r) == (later, Handled(store, call.caller, call.r).1)
      else Handled(later, other.caller, other.r) == (later, Err(KeyConflict))
  {
    var (after, result) := Handled(store, call.caller, call.r);
    SuccessIsRemembered(store, call);
    RunKeepsKeysAndRevisions(after, between, call.r);
    assert Remembers(Run(after, between), call, result.value);
  }

  /** A repeated call, however late, returns the first response and changes nothing. */
  lemma RetryReplays(store: Store, call: Call, between: seq<Occasion>)
    requires Handled(store, call.caller, call.r).1.Ok?
    ensures var later := Run(Handled(store, call.caller, call.r).0, between);
      Handled(later, call.caller, call.r) == (later, Handled(store, call.caller, call.r).1)
  {
    OtherUseOfKeyConflicts(store, call, between, call);
  }
}
