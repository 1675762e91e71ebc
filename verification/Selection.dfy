/**
 Which clips the integration may play and in what order, against the order the library manager
 shows. Strings are modelled by their rank in code-point order.
 */
module Selection {
  import opened Wrappers
  import opened Sequences
  import History
  import Fairness
  import HistoryRuns

  type ClipId = History.ClipId
  type CollectionId = int

  datatype State = Ready | Deleted | OtherState

  /** The rank of an output path and of its case-folded form; rank 0 is the empty or missing path. */
  datatype Path = Path(folded: nat, text: nat)

  datatype Clip = Clip(id: ClipId, idRank: int, collection: CollectionId, state: State, path: Path,
    outputAvailable: bool)

  datatype Mode = Random | Sequential | Custom

  // ---------- Sorting by (folded path, path, id) ----------

  predicate Less(a: Clip, b: Clip) {
    || a.path.folded < b.path.folded
    || (a.path.folded == b.path.folded && a.path.text < b.path.text)
    || (a.path == b.path && a.idRank < b.idRank)
  }

  function Insert(c: Clip, sorted: seq<Clip>): seq<Clip> {
    if sorted == [] || Less(c, sorted[0]) then [c] + sorted else [sorted[0]] + Insert(c, sorted[1..])
  }

  function Sorted(clips: seq<Clip>): seq<Clip> {
    if clips == [] then [] else Insert(clips[0], Sorted(clips[1..]))
  }

  /** The clips that belong to a set, in their order. */
  function Where(clips: seq<Clip>, keep: set<Clip>): seq<Clip> {
    if clips == [] then [] else (if clips[0] in keep then [clips[0]] else []) + Where(clips[1..], keep)
  }

  /** Ids are primary keys, and their rank is theirs alone. */
  ghost predicate DistinctIds(clips: seq<Clip>) {
    forall i, k :: 0 <= i < k < |clips| ==> clips[i].id != clips[k].id && clips[i].idRank != clips[k].idRank
  }

  ghost predicate InOrder(clips: seq<Clip>) {
    forall i, k :: 0 <= i < k < |clips| ==> Less(clips[i], clips[k])
  }

  lemma ConsInOrder(first: Clip, rest: seq<Clip>)
    requires InOrder(rest) && forall d :: d in rest ==> Less(first, d)
    ensures InOrder([first] + rest)
  {
  }

  lemma {:induction false} InsertSorts(c: Clip, sorted: seq<Clip>)
    requires InOrder(sorted) && forall d :: d in sorted ==> d.idRank != c.idRank
    ensures InOrder(Insert(c, sorted)) && multiset(Insert(c, sorted)) == multiset(sorted) + multiset{c}
    ensures forall d :: d in Insert(c, sorted) <==> d == c || d in sorted
  {
    if sorted != [] {
      var tail := sorted[1..];
      assert sorted == [sorted[0]] + tail;
      if !Less(c, sorted[0]) {
        InsertSorts(c, tail);
        assert forall d :: d in tail ==> Less(sorted[0], d);
        ConsInOrder(sorted[0], Insert(c, tail));
      } else {
        assert forall d :: d in sorted ==> Less(c, d);
        ConsInOrder(c, sorted);
      }
    }
  }

  lemma {:induction false} InsertKeepsDistinct(c: Clip, sorted: seq<Clip>)
    requires InOrder(sorted) && DistinctIds(sorted) && forall d :: d in sorted ==> d.id != c.id && d.idRank != c.idRank
    ensures DistinctIds(Insert(c, sorted))
  {
    if sorted != [] && !Less(c, sorted[0]) {
      InsertKeepsDistinct(c, sorted[1..]);
      InsertSorts(c, sorted[1..]);
      assert forall d :: d in sorted[1..] ==> d.id != sorted[0].id && d.idRank != sorted[0].idRank;
    }
  }

  lemma {:induction false} SortedSorts(clips: seq<Clip>)
    requires DistinctIds(clips)
    ensures InOrder(Sorted(clips)) && DistinctIds(Sorted(clips)) && multiset(Sorted(clips)) == multiset(clips)
    ensures forall c :: c in Sorted(clips) <==> c in clips
  {
    if clips != [] {
      SortedSorts(clips[1..]);
      assert clips == [clips[0]] + clips[1..];
      InsertSorts(clips[0], Sorted(clips[1..]));
      InsertKeepsDistinct(clips[0], Sorted(clips[1..]));
    }
  }

  lemma HasElement(clips: seq<Clip>)
    requires clips != []
    ensures exists c :: c in clips
  {
    assert clips[0] in clips;
  }

  /** Sorted clips go by case-folded path, then by path, then by id. */
  lemma SortedByName(clips: seq<Clip>)
    requires DistinctIds(clips)
    ensures |Sorted(clips)| == |clips| && forall i, k :: 0 <= i < k < |clips| ==>
      var a, b := Sorted(clips)[i], Sorted(clips)[k];
      && a.path.folded <= b.path.folded
      && (a.path.folded == b.path.folded ==> a.path.text <= b.path.text)
      && (a.path == b.path ==> a.idRank < b.idRank)
  {
    SortedSorts(clips);
    assert |multiset(Sorted(clips))| == |multiset(clips)|;
  }

  /** There is only one way to put distinct keys in order. */
  lemma {:induction false} OrderIsUnique(a: seq<Clip>, b: seq<Clip>)
    requires InOrder(a) && InOrder(b) && forall c :: c in a <==> c in b
    ensures a == b
    decreases |a|
  {
    if a == [] || b == [] {
      if a != [] { HasElement(a); }
      if b != [] { HasElement(b); }
    } else {
      assert a[0] in b && b[0] in a;
      assert a[0] == b[0];
      forall c | c in a[1..] ensures c in b[1..] {
        assert c in a && Less(a[0], c);
        assert c in b && c != b[0];
      }
      forall c | c in b[1..] ensures c in a[1..] {
        assert c in b && Less(b[0], c);
        assert c in a && c != a[0];
      }
      OrderIsUnique(a[1..], b[1..]);
    }
  }

  lemma {:induction false} WhereElements(clips: seq<Clip>, keep: set<Clip>)
    ensures forall c :: c in Where(clips, keep) <==> c in clips && c in keep
  {
    if clips != [] {
      WhereElements(clips[1..], keep);
      assert forall c :: c in clips <==> c == clips[0] || c in clips[1..];
    }
  }

  lemma {:induction false} WhereInOrder(clips: seq<Clip>, keep: set<Clip>)
    requires InOrder(clips)
    ensures InOrder(Where(clips, keep))
  {
    if clips != [] {
      WhereInOrder(clips[1..], keep);
      WhereElements(clips[1..], keep);
      assert forall c :: c in clips[1..] ==> Less(clips[0], c);
    }
  }

  lemma {:induction false} WhereDistinct(clips: seq<Clip>, keep: set<Clip>)
    requires DistinctIds(clips)
    ensures DistinctIds(Where(clips, keep))
  {
    if clips != [] {
      WhereDistinct(clips[1..], keep);
      WhereElements(clips[1..], keep);
      assert forall c :: c in clips[1..] ==> c.id != clips[0].id && c.idRank != clips[0].idRank;
    }
  }

  /** Sorting commutes with filtering. */
  lemma SortingCommutesWithFiltering(clips: seq<Clip>, keep: set<Clip>)
    requires DistinctIds(clips)
    ensures Where(Sorted(clips), keep) == Sorted(Where(clips, keep))
  {
    SortedSorts(clips);
    WhereElements(clips, keep);
    WhereDistinct(clips, keep);
    WhereElements(Sorted(clips), keep);
    WhereInOrder(Sorted(clips), keep);
    SortedSorts(Where(clips, keep));
    OrderIsUnique(Where(Sorted(clips), keep), Sorted(Where(clips, keep)));
  }

  /** Two filters that split a third split its result. */
  lemma {:induction false} WhereSplits(clips: seq<Clip>, whole: set<Clip>, part: set<Clip>, rest: set<Clip>)
    requires part !! rest && forall c :: c in clips ==> (c in whole <==> c in part || c in rest)
    ensures multiset(Where(clips, whole)) == multiset(Where(clips, part)) + multiset(Where(clips, rest))
  {
    if clips != [] {
      WhereSplits(clips[1..], whole, part, rest);
    }
  }

  // ---------- The integration's side ----------

  predicate Playable(c: Clip, collection: CollectionId) {
    c.collection == collection && c.outputAvailable && c.path.text != 0 && c.state != Deleted
  }

  /** Up-to-date outputs when there are any, otherwise whatever still has a file. */
  function Candidates(clips: seq<Clip>, collection: CollectionId): seq<Clip> {
    var playable := Where(clips, set c | c in clips && Playable(c, collection));
    var ready := Where(playable, set c | c in playable && c.state == Ready);
    if ready != [] then ready else playable
  }

  function WithId(clips: seq<Clip>, id: ClipId): set<Clip> {
    set c | c in clips && c.id == id
  }

  function Unlisted(clips: seq<Clip>, ids: seq<ClipId>): set<Clip> {
    set c | c in clips && c.id !in ids
  }

  /** The clips with the listed ids, in listed order; unknown ids are skipped. */
  function Listed(clips: seq<Clip>, ids: seq<ClipId>): seq<Clip> {
    if ids == [] then [] else Where(clips, WithId(clips, ids[0])) + Listed(clips, ids[1..])
  }

  function Arranged(candidates: seq<Clip>, mode: Mode, ordered: seq<ClipId>): seq<Clip> {
    match mode
    case Random => candidates
    case Sequential => Sorted(candidates)
    case Custom => Listed(Sorted(candidates), ordered) + Where(Sorted(candidates), Unlisted(candidates, ordered))
  }

  function Ids(clips: seq<Clip>): (ids: seq<ClipId>)
    ensures |ids| == |clips| && forall i :: 0 <= i < |ids| ==> ids[i] == clips[i].id
  {
    seq(|clips|, i requires 0 <= i < |clips| => clips[i].id)
  }

  /** A clip is a candidate exactly when it is playable, and up to date unless nothing playable is. */
  lemma CandidateIff(clips: seq<Clip>, collection: CollectionId, c: Clip)
    ensures c in Candidates(clips, collection) <==>
      && c in clips
      && c.collection == collection && c.outputAvailable && c.path.text > 0 &&
           (c.state == Ready || c.state == OtherState)
      && (c.state == Ready || !exists d ::
            d in clips && d.collection == collection && d.outputAvailable && d.path.text > 0 && d.state == Ready)
  {
    var all := set c | c in clips && Playable(c, collection);
    var playable := Where(clips, all);
    WhereElements(clips, all);
    var readies := set c | c in playable && c.state == Ready;
    WhereElements(playable, readies);
    var ready := Where(playable, readies);
    assert ready != [] ==> ready[0] in ready;
    assert forall d :: d in ready <==> d in clips && Playable(d, collection) && d.state == Ready;
  }

  lemma CandidatesAreDistinct(clips: seq<Clip>, collection: CollectionId)
    requires DistinctIds(clips)
    ensures DistinctIds(Candidates(clips, collection))
  {
    var all := set c | c in clips && Playable(c, collection);
    var playable := Where(clips, all);
    WhereDistinct(clips, all);
    WhereDistinct(playable, set c | c in playable && c.state == Ready);
  }

  lemma {:induction false} ListedAndUnlisted(clips: seq<Clip>, ids: seq<ClipId>)
    requires DistinctIds(clips) && Unique(ids)
    ensures multiset(Listed(clips, ids)) + multiset(Where(clips, Unlisted(clips, ids))) == multiset(clips)
  {
    if ids == [] {
      WhereAll(clips, Unlisted(clips, ids));
    } else {
      assert ids == [ids[0]] + ids[1..];
      ListedAndUnlisted(clips, ids[1..]);
      WhereSplits(clips, Unlisted(clips, ids[1..]), WithId(clips, ids[0]), Unlisted(clips, ids));
    }
  }

  lemma {:induction false} WhereAll(clips: seq<Clip>, keep: set<Clip>)
    requires forall c :: c in clips ==> c in keep
    ensures Where(clips, keep) == clips
  {
    if clips != [] { WhereAll(clips[1..], keep); }
  }

  lemma {:induction false} WhereOne(clips: seq<Clip>, keep: set<Clip>, id: ClipId)
    requires DistinctIds(clips) && forall c :: c in clips ==> (c in keep <==> c.id == id)
    ensures Ids(Where(clips, keep)) == if id in Ids(clips) then [id] else []
  {
    if clips != [] {
      WhereOne(clips[1..], keep, id);
      assert Ids(clips) == [clips[0].id] + Ids(clips[1..]);
      assert clips[0].id !in Ids(clips[1..]);
      if clips[0].id == id {
        assert |Ids(Where(clips[1..], keep))| == 0;
      }
    }
  }

  /** The listed part is the order the user gave, restricted to what can be played. */
  lemma {:induction false} ListedFollowsTheList(clips: seq<Clip>, ids: seq<ClipId>)
    requires DistinctIds(clips)
    ensures Ids(Listed(clips, ids)) == Kept(ids, Ids(clips), true)
  {
    if ids != [] {
      var head, tail := Where(clips, WithId(clips, ids[0])), Listed(clips, ids[1..]);
      ListedFollowsTheList(clips, ids[1..]);
      WhereOne(clips, WithId(clips, ids[0]), ids[0]);
      assert Ids(head + tail) == Ids(head) + Ids(tail);
      assert ids == [ids[0]] + ids[1..];
      KeptOfConcat([ids[0]], ids[1..], Ids(clips), true);
      KeptAll([ids[0]], Ids(clips), true);
    }
  }

  /** Every mode plays exactly the candidates; custom order is the list first, then the rest sequentially. */
  lemma ArrangedIsPermutation(candidates: seq<Clip>, mode: Mode, ordered: seq<ClipId>)
    requires DistinctIds(candidates) && Unique(ordered)
    ensures multiset(Arranged(candidates, mode, ordered)) == multiset(candidates)
    ensures mode == Sequential ==> InOrder(Arranged(candidates, mode, ordered))
    ensures mode == Custom ==>
      exists listed, rest :: Arranged(candidates, mode, ordered) == listed + rest && InOrder(rest)
        && Ids(listed) == Kept(ordered, Ids(Sorted(candidates)), true)
        && forall c :: c in rest <==> c in candidates && c.id !in ordered
  {
    var sorted := Sorted(candidates);
    SortedSorts(candidates);
    if mode == Custom {
      ListedAndUnlisted(sorted, ordered);
      assert Unlisted(sorted, ordered) == Unlisted(candidates, ordered);
      ListedFollowsTheList(sorted, ordered);
      WhereInOrder(sorted, Unlisted(candidates, ordered));
      WhereElements(sorted, Unlisted(candidates, ordered));
      assert Arranged(candidates, mode, ordered) ==
        Listed(sorted, ordered) + Where(sorted, Unlisted(candidates, ordered));
    }
  }

  // ---------- The manager's side ----------

  function IndexOf(clips: seq<Clip>, id: ClipId): (k: nat)
    requires id in Ids(clips)
    ensures k < |clips| && clips[k].id == id
  {
    FirstAt(Ids(clips), id)
  }

  function LiveSet(rows: seq<Clip>, collection: CollectionId): set<Clip> {
    set c | c in rows && c.collection == collection && c.state != Deleted
  }

  /** The live rows of one collection, in the order the rows were read. */
  function Live(rows: seq<Clip>, collection: CollectionId): seq<Clip> {
    Where(rows, LiveSet(rows, collection))
  }

  /** The position the playback-order editor shows for a row. */
  function Rank(rows: seq<Clip>, c: Clip): nat
    requires c.id in Ids(Sorted(Live(rows, c.collection)))
  {
    IndexOf(Sorted(Live(rows, c.collection)), c.id)
  }

  lemma LiveRowHasRank(rows: seq<Clip>, c: Clip) returns (k: nat)
    requires DistinctIds(rows) && c in rows && c.state != Deleted
    ensures var sorted := Sorted(Live(rows, c.collection));
      k < |sorted| && sorted[k] == c && c.id in Ids(sorted) && Rank(rows, c) == k && InOrder(sorted)
  {
    var keep := LiveSet(rows, c.collection);
    WhereElements(rows, keep);
    WhereDistinct(rows, keep);
    SortedSorts(Where(rows, keep));
    var sorted := Sorted(Live(rows, c.collection));
    assert c in sorted;
    k :| 0 <= k < |sorted| && sorted[k] == c;
  }

  /** The ranks increase along the sequential playing order: what is played is in the order shown. */
  lemma SequentialOrderFollowsRanks(rows: seq<Clip>, collection: CollectionId, i: nat, k: nat)
    requires DistinctIds(rows) && i < k < |Sorted(Candidates(rows, collection))|
    ensures var played := Sorted(Candidates(rows, collection));
      && played[i].collection == played[k].collection == collection
      && played[i].id in Ids(Sorted(Live(rows, collection))) && played[k].id in Ids(Sorted(Live(rows, collection)))
      && Rank(rows, played[i]) < Rank(rows, played[k])
  {
    var candidates := Candidates(rows, collection);
    var a, b := Sorted(candidates)[i], Sorted(candidates)[k];
    CandidateIff(rows, collection, a);
    CandidateIff(rows, collection, b);
    CandidatesAreDistinct(rows, collection);
    SortedSorts(candidates);
    assert a in Sorted(candidates) && b in Sorted(candidates);
    assert Less(a, b);
    var p := LiveRowHasRank(rows, a);
    var q := LiveRowHasRank(rows, b);
  }

  lemma {:induction false} WhereAppend(clips: seq<Clip>, c: Clip, keep: set<Clip>)
    ensures Where(clips + [c], keep) == Where(clips, keep) + if c in keep then [c] else []
  {
    if clips != [] {
      assert (clips + [c])[1..] == clips[1..] + [c];
      WhereAppend(clips[1..], c, keep);
    } else {
      assert clips + [c] == [c];
    }
  }

  /** The id stands for a live row of one of the collections. */
  ghost predicate Shown(rows: seq<Clip>, collections: set<CollectionId>, id: ClipId) {
    exists c :: c in rows && c.state != Deleted && c.collection in collections && c.id == id
  }

  method GroupRows(rows: seq<Clip>) returns (groups: map<CollectionId, seq<Clip>>)
    ensures forall g :: g in groups ==> groups[g] == Live(rows, g)
    ensures forall c :: c in rows && c.state != Deleted ==> c.collection in groups
  {
    groups := map[];
    for k := 0 to |rows|
      invariant forall g :: g in groups ==> groups[g] == Where(rows[..k], LiveSet(rows, g))
      invariant forall g :: g !in groups ==> Where(rows[..k], LiveSet(rows, g)) == []
    {
      var row := rows[k];
      assert rows[..k + 1] == rows[..k] + [row];
      forall g {
        WhereAppend(rows[..k], row, LiveSet(rows, g));
      }
      if row.state != Deleted {
        var group := if row.collection in groups then groups[row.collection] else [];
        groups := groups[row.collection := group + [row]];
      }
    }
    assert rows[..|rows|] == rows;
    forall c | c in rows && c.state != Deleted ensures c.collection in groups {
      WhereElements(rows, LiveSet(rows, c.collection));
      assert c in Live(rows, c.collection);
    }
  }

  method RankGroup(ordered: seq<Clip>, before: map<ClipId, nat>) returns (ranks: map<ClipId, nat>)
    requires DistinctIds(ordered)
    ensures forall id :: id in ranks <==> id in before || id in Ids(ordered)
    ensures forall id :: id in ranks ==> ranks[id] == if id in Ids(ordered) then IndexOf(ordered, id) else before[id]
  {
    ranks := before;
    for rank := 0 to |ordered|
      invariant forall id :: id in ranks <==> id in before || id in Ids(ordered[..rank])
      invariant forall id ::
        id in ranks ==> ranks[id] == if id in Ids(ordered[..rank]) then IndexOf(ordered, id) else before[id]
      invariant forall id :: id in Ids(ordered[..rank]) ==> id in Ids(ordered)
    {
      assert Ids(ordered[..rank + 1]) == Ids(ordered[..rank]) + [ordered[rank].id];
      ranks := ranks[ordered[rank].id := rank];
    }
    assert ordered[..|ordered|] == ordered;
  }

  /** `_clip_payloads`: group the live rows by collection, sort each group, number it. */
  method Ranks(rows: seq<Clip>) returns (ranks: map<ClipId, nat>)
    requires DistinctIds(rows)
    ensures forall c :: c in rows && c.state != Deleted ==> RankedIn(rows, c, ranks)
    ensures forall id :: id in ranks ==> exists c :: c in rows && c.state != Deleted && c.id == id
  {
    var groups := GroupRows(rows);
    ranks := map[];
    var rest := groups.Keys;
    while rest != {}
      invariant rest <= groups.Keys
      invariant forall id :: id in ranks ==> Shown(rows, groups.Keys - rest, id)
      invariant forall c :: c in rows && c.state != Deleted && c.collection !in rest ==> RankedIn(rows, c, ranks)
      decreases rest
    {
      var g := AnyOf(rest);
      ghost var done := groups.Keys - rest;
      SortedRowsOf(rows, g);
      var before := ranks;
      ranks := RankGroup(Sorted(groups[g]), before);
      rest := rest - {g};
      forall c | c in rows && c.state != Deleted && c.collection !in rest ensures RankedIn(rows, c, ranks) {
        if c.collection == g {
          var k := LiveRowHasRank(rows, c);
        } else {
          assert RankedIn(rows, c, before);
          assert c.id !in Ids(Sorted(groups[g]));
        }
      }
      forall id | id in ranks ensures Shown(rows, groups.Keys - rest, id) {
        if id in Ids(Sorted(groups[g])) {
          var k := IndexOf(Sorted(groups[g]), id);
          assert Sorted(groups[g])[k] in Sorted(groups[g]);
        } else {
          assert Shown(rows, done, id);
        }
      }
    }
  }

  ghost predicate RankedIn(rows: seq<Clip>, c: Clip, ranks: map<ClipId, nat>) {
    c.id in Ids(Sorted(Live(rows, c.collection))) && c.id in ranks && ranks[c.id] == Rank(rows, c)
  }

  lemma SortedRowsOf(rows: seq<Clip>, g: CollectionId)
    requires DistinctIds(rows)
    ensures DistinctIds(Sorted(Live(rows, g)))
    ensures forall c :: c in Sorted(Live(rows, g)) <==> c in rows && c.collection == g && c.state != Deleted
    ensures forall c :: c in rows && (c.collection != g || c.state == Deleted) ==> c.id !in Ids(Sorted(Live(rows, g)))
  {
    WhereElements(rows, LiveSet(rows, g));
    WhereDistinct(rows, LiveSet(rows, g));
    SortedSorts(Live(rows, g));
    var sorted := Sorted(Live(rows, g));
    forall c | c in rows && (c.collection != g || c.state == Deleted) ensures c.id !in Ids(sorted) {
      forall k | 0 <= k < |sorted| ensures sorted[k].id != c.id {
        assert sorted[k] in sorted;
        var i :| 0 <= i < |rows| && rows[i] == c;
        var j :| 0 <= j < |rows| && rows[j] == sorted[k];
        assert i < j || j < i;
      }
    }
  }

  // ---------- Played as shown ----------

  /** The history keeps the whole offer: its ids are distinct and none is blank. */
  lemma OfferIsEligible(rows: seq<Clip>, collection: CollectionId)
    requires DistinctIds(rows) && forall c :: c in rows ==> c.id != History.Blank
    ensures var offer := Ids(Sorted(Candidates(rows, collection))); History.Eligible(offer) == offer
  {
    var shown := Sorted(Candidates(rows, collection));
    CandidatesAreDistinct(rows, collection);
    SortedSorts(Candidates(rows, collection));
    forall i | 0 <= i < |shown| ensures shown[i].id != History.Blank {
      assert shown[i] in shown;
      CandidateIff(rows, collection, shown[i]);
    }
    History.EligibleIds(Ids(shown));
  }

  /** Sequential picks from an unchanged catalog, among any other events, go through the clips as the manager shows
      them, over and over. */
  lemma SequentialPlaybackCycles(rows: seq<Clip>, collection: CollectionId, s: HistoryRuns.Session,
      config: History.Config, events: seq<HistoryRuns.Event>, period: int)
    requires DistinctIds(rows) && forall c :: c in rows ==> c.id != History.Blank
    requires Fairness.PickedFor(s.log, collection) == [] && collection !in s.collections
    requires Fairness.AllSteady(config, events, collection, Ids(Sorted(Candidates(rows, collection))), period)
    requires forall k :: 0 <= k < |events| ==> Fairness.OrderedFor(events[k], collection)
    ensures var shown, picks := Sorted(Candidates(rows, collection)),
                                Fairness.PickedFor(HistoryRuns.Play(s, config, events).log, collection);
      picks == [] || (shown != [] && forall k :: 0 <= k < |picks| ==> picks[k] == shown[k % |shown|].id)
  {
    OfferIsEligible(rows, collection);
    Fairness.OrderedCycle(s, config, events, collection, Ids(Sorted(Candidates(rows, collection))), period);
  }
}
