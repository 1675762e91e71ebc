/**
 One clip over any number of scans: its state is decided by what each scan found of it, and that decides
 when a clip that is shown as ready was compiled from what is on disk.
 */
module CatalogRuns {
  import opened Catalog
  import opened CatalogIndex
  import opened ClipStates
  import opened Wrappers

  // ---------- What one scan makes of one row ----------

  /** The file at the row's path, no file, or the same content at a path that had no row; or another collection was
      scanned. */
  datatype Sighting =
    | Found(content: Content, profile: Profile, valid: bool)
    | Missing
    | Relocated(at: Profile, sound: bool)
    | Elsewhere

  /** What a row knows about its clip. */
  datatype Standing = Standing(state: ClipState, source: Option<Content>, profile: Option<Profile>)

  function StandingOf(row: Clip): Standing {
    Standing(row.state, row.metadata.source, row.metadata.profile)
  }

  function FromProbe(valid: bool): ClipState {
    if valid then Discovered else Invalid
  }

  /** The next standing, given whether the clip has an output. */
  function Seen(s: Standing, output: bool, x: Sighting): Standing {
    match x
    case Found(content, profile, valid) =>
      if s.source != Some(content) || s.profile != Some(profile)
      then Standing(if output then Stale else FromProbe(valid), Some(content), Some(profile))
      else if s.state != Deleted then s
      else s.(state := if output && valid then Ready else FromProbe(valid))
    case Missing => s.(state := Deleted)
    case Relocated(at, sound) => Standing(FromProbe(sound), s.source, Some(at))
    case Elsewhere => s
  }

  ghost predicate GoodRun(run: (Disk, Source)) {
    run.1.profile.Some? && GoodListing(run.0, run.1.files)
  }

  /** Read off the disk where the row's file is listed; whether a missing file was followed shows in the row's path. */
  ghost function SightingOf(before: Pass, run: (Disk, Source), id: ClipId): Sighting
    requires GoodRun(run) && id in before.clips
  {
    var (disk, source) := run;
    var row, after := before.clips[id], AfterCollection(before, disk, source);
    if source.collection != row.collection then Elsewhere
    else if row.path in source.files then
      Found(disk.files[row.path], source.profile.value, disk.ProbeOf(row.path).valid)
    else if after.Ok? && id in after.value.clips && after.value.clips[id].path != row.path then
      Relocated(source.profile.value, disk.ProbeOf(after.value.clips[id].path).valid)
    else Missing
  }

  /** The walk leaves a row without a listed file alone, or follows its content to a listed path. */
  ghost predicate LeftOrMoved(was: Clip, now: Clip, disk: Disk, profile: Profile, files: seq<Path>) {
    now == was ||
    (now.path in files && now.path in disk.files && was.metadata.source == Some(disk.files[now.path])
     && now == Moved(disk, profile, now.path, was))
  }

  lemma {:induction false} UnlistedRowIsLeftOrMoved(
      start: Pass, disk: Disk, c: CollectionId, profile: Profile, files: seq<Path>, id: ClipId)
    requires WellFormed(start) && GoodListing(disk, files)
    requires id in start.clips && start.clips[id].collection == c && start.clips[id].path !in files
    ensures AfterFiles(start, disk, c, profile, files).Some?
    ensures var now := AfterFiles(start, disk, c, profile, files).value.clips;
      id in now && LeftOrMoved(start.clips[id], now[id], disk, profile, files)
  {
    if files != [] {
      var front, last := files[..|files| - 1], files[|files| - 1];
      assert last in files && last !in front && forall p :: p in front ==> p in files;
      WalkIndexes(start, disk, c, profile, front);
      UnlistedRowIsLeftOrMoved(start, disk, c, profile, front, id);
      var now := AfterFiles(start, disk, c, profile, front).value;
      FileWritesOneRow(now, disk, c, profile, last);
      assert id !in RowsAt(now.clips, c, last);
    }
  }

  lemma UnlistedRowAfterScan(before: Pass, run: (Disk, Source), id: ClipId)
    requires WellFormed(before) && GoodRun(run) && id in before.clips
    requires run.1.collection == before.clips[id].collection && before.clips[id].path !in run.1.files
    requires AfterCollection(before, run.0, run.1).Ok? && id in AfterCollection(before, run.0, run.1).value.clips
    ensures StandingOf(AfterCollection(before, run.0, run.1).value.clips[id])
         == Seen(StandingOf(before.clips[id]), before.clips[id].outputAvailable, SightingOf(before, run, id))
  {
    var (disk, source) := run;
    UnlistedRowIsLeftOrMoved(before, disk, source.collection, source.profile.value, source.files, id);
  }

  /** One scan: the row's standing moves by what was seen of it. */
  lemma RowAfterScan(before: Pass, run: (Disk, Source), id: ClipId)
    requires WellFormed(before) && GoodRun(run) && id in before.clips
    ensures AfterCollection(before, run.0, run.1).Ok?
    ensures var after := AfterCollection(before, run.0, run.1).value;
      && WellFormed(after) && id in after.clips && Kept(before.clips[id], after.clips[id])
      && StandingOf(after.clips[id])
         == Seen(StandingOf(before.clips[id]), before.clips[id].outputAvailable, SightingOf(before, run, id))
  {
    var (disk, source) := run;
    CollectionIndexIsExact(before, disk, source);
    if source.collection == before.clips[id].collection {
      if before.clips[id].path in source.files {
        RowAtListedFile(before, disk, source, id);
      } else {
        UnlistedRowAfterScan(before, run, id);
      }
    }
  }

  // ---------- Any number of scans ----------

  function SeenAll(s: Standing, output: bool, xs: seq<Sighting>): Standing {
    if xs == [] then s else Seen(SeenAll(s, output, xs[..|xs| - 1]), output, xs[|xs| - 1])
  }

  ghost predicate GoodRuns(runs: seq<(Disk, Source)>) {
    forall k :: 0 <= k < |runs| ==> GoodRun(runs[k])
  }

  ghost function Sightings(start: Pass, runs: seq<(Disk, Source)>, id: ClipId): (xs: seq<Sighting>)
    requires WellFormed(start) && GoodRuns(runs) && id in start.clips
    ensures |xs| == |runs|
    decreases |runs|, 0
  {
    if runs == [] then [] else
      var front, last := runs[..|runs| - 1], runs[|runs| - 1];
      RowAfterScans(start, front, id);
      Sightings(start, front, id) + [SightingOf(AfterScans(start, front).value, last, id)]
  }

  /** After any scans the state and the recorded snapshot of a clip are a function of what the scans found of it. */
  lemma {:induction false} RowAfterScans(start: Pass, runs: seq<(Disk, Source)>, id: ClipId)
    requires WellFormed(start) && GoodRuns(runs) && id in start.clips
    ensures AfterScans(start, runs).Some?
    ensures var after := AfterScans(start, runs).value;
      && WellFormed(after) && id in after.clips && Kept(start.clips[id], after.clips[id])
      && StandingOf(after.clips[id])
         == SeenAll(StandingOf(start.clips[id]), start.clips[id].outputAvailable, Sightings(start, runs, id))
    decreases |runs|, 1
  {
    if runs != [] {
      var front, last := runs[..|runs| - 1], runs[|runs| - 1];
      RowAfterScans(start, front, id);
      var before := AfterScans(start, front).value;
      RowAfterScan(before, last, id);
      assert Sightings(start, runs, id)[..|runs| - 1] == Sightings(start, front, id);
    }
  }

  // ---------- When ready means current ----------

  /** The inputs the row was last seen with. */
  function Recorded(s: Standing, xs: seq<Sighting>): (Option<Content>, Option<Profile>) {
    if xs == [] then (s.source, s.profile) else
      var before := Recorded(s, xs[..|xs| - 1]);
      match xs[|xs| - 1]
      case Found(content, profile, _) => (Some(content), Some(profile))
      case Relocated(at, _) => (before.0, Some(at))
      case _ => before
  }

  /** The scan found the file with other content or under another profile. */
  predicate Changed(s: Standing, xs: seq<Sighting>, k: nat)
    requires k < |xs|
  {
    xs[k].Found? && Recorded(s, xs[..k]) != (Some(xs[k].content), Some(xs[k].profile))
  }

  /** The last scan of the collection found no file. */
  predicate Away(xs: seq<Sighting>) {
    xs != [] && (xs[|xs| - 1].Missing? || (xs[|xs| - 1].Elsewhere? && Away(xs[..|xs| - 1])))
  }

  /** The file is back as it was last seen, and probes well. */
  predicate ReturnedWell(s: Standing, xs: seq<Sighting>, k: nat)
    requires k < |xs|
  {
    xs[k].Found? && !Changed(s, xs, k) && Away(xs[..k]) && xs[k].valid
  }

  /** The file was there all along, unchanged, or the scan was of another collection. */
  predicate Uneventful(s: Standing, xs: seq<Sighting>, k: nat)
    requires k < |xs|
  {
    xs[k].Elsewhere? || (xs[k].Found? && !Changed(s, xs, k) && !Away(xs[..k]))
  }

  predicate UneventfulFrom(s: Standing, xs: seq<Sighting>, k: nat) {
    forall j :: k <= j < |xs| ==> Uneventful(s, xs, j)
  }

  /** The last thing that happened is that the file returned, unchanged and sound. */
  predicate LastReturnedWell(s: Standing, xs: seq<Sighting>) {
    exists k :: 0 <= k < |xs| && ReturnedWell(s, xs, k) && UneventfulFrom(s, xs, k + 1)
  }

  lemma FrontEvents(s: Standing, xs: seq<Sighting>, k: nat)
    requires k + 1 < |xs|
    ensures var front := xs[..|xs| - 1];
      && (Uneventful(s, front, k) <==> Uneventful(s, xs, k))
      && (ReturnedWell(s, front, k) <==> ReturnedWell(s, xs, k))
  {
    assert xs[..|xs| - 1][..k] == xs[..k];
  }

  lemma UneventfulFront(s: Standing, xs: seq<Sighting>, k: nat)
    requires xs != [] && k < |xs|
    ensures UneventfulFrom(s, xs, k) <==> UneventfulFrom(s, xs[..|xs| - 1], k) && Uneventful(s, xs, |xs| - 1)
  {
    var front, n := xs[..|xs| - 1], |xs| - 1;
    forall j | k <= j < n ensures Uneventful(s, front, j) <==> Uneventful(s, xs, j) {
      FrontEvents(s, xs, j);
    }
    if UneventfulFrom(s, xs, k) {
      assert Uneventful(s, xs, n);
      forall j | k <= j < n ensures Uneventful(s, front, j) {
        assert Uneventful(s, xs, j);
      }
    }
  }

  lemma LastReturnedFront(s: Standing, xs: seq<Sighting>)
    requires xs != []
    ensures var front, n := xs[..|xs| - 1], |xs| - 1;
      LastReturnedWell(s, xs) <==> ReturnedWell(s, xs, n) || (LastReturnedWell(s, front) && Uneventful(s, xs, n))
  {
    var front, n := xs[..|xs| - 1], |xs| - 1;
    if ReturnedWell(s, xs, n) {
      assert UneventfulFrom(s, xs, n + 1);
    } else if LastReturnedWell(s, xs) {
      var k :| 0 <= k < |xs| && ReturnedWell(s, xs, k) && UneventfulFrom(s, xs, k + 1);
      FrontEvents(s, xs, k);
      UneventfulFront(s, xs, k + 1);
    } else if LastReturnedWell(s, front) && Uneventful(s, xs, n) {
      var k :| 0 <= k < |front| && ReturnedWell(s, front, k) && UneventfulFrom(s, front, k + 1);
      FrontEvents(s, xs, k);
      UneventfulFront(s, xs, k + 1);
    }
  }

  /** What the sightings make of a clip that was ready, in terms of what happened last. */
  lemma {:induction false} ReadyBySightings(s: Standing, xs: seq<Sighting>)
    requires s.state == Ready
    ensures var end := SeenAll(s, true, xs);
      && (end.source, end.profile) == Recorded(s, xs)
      && (end.state == Deleted <==> Away(xs))
      && (end.state == Ready <==> UneventfulFrom(s, xs, 0) || LastReturnedWell(s, xs))
      && (UneventfulFrom(s, xs, 0) ==> Recorded(s, xs) == (s.source, s.profile))
  {
    if xs != [] {
      ReadyBySightings(s, xs[..|xs| - 1]);
      UneventfulFront(s, xs, 0);
      LastReturnedFront(s, xs);
    }
  }

  /**
   A clip compiled from a snapshot, after any scans: it is ready exactly when nothing happened to its file, or what
   happened last is that the file returned unchanged and sound. So it is shown as ready for other inputs than it was
   compiled from exactly when what happened last is such a return, to inputs that had changed before.
   */
  lemma ReadyAfterScansIff(start: Pass, runs: seq<(Disk, Source)>, id: ClipId, row: Clip,
                           content: Content, profile: Profile, bounds: Bounds)
    requires WellFormed(start) && GoodRuns(runs)
    requires id in start.clips && start.clips[id] == Published(row, content, profile, bounds)
    ensures AfterScans(start, runs).Some? && id in AfterScans(start, runs).value.clips
    ensures NeverMistaken(start, runs, id) ==> Sightings(start, runs, id) == SightingsAt(runs, row.collection, row.path)
    ensures var s, xs := StandingOf(start.clips[id]), Sightings(start, runs, id);
      var after := AfterScans(start, runs).value.clips[id];
      && (after.metadata.source, after.metadata.profile) == Recorded(s, xs)
      && (after.state == Ready <==> UneventfulFrom(s, xs, 0) || LastReturnedWell(s, xs))
      && (after.state == Ready && Recorded(s, xs) != (Some(content), Some(profile)) <==>
            LastReturnedWell(s, xs) && Recorded(s, xs) != (Some(content), Some(profile)))
  {
    RowAfterScans(start, runs, id);
    ReadyBySightings(StandingOf(start.clips[id]), Sightings(start, runs, id));
    if NeverMistaken(start, runs, id) {
      SightingsAreAtPath(start, runs, id);
    }
  }

  // ---------- On the disks alone ----------

  /** If the row's file is gone, no path without a row has what the row recorded, so no other file is taken for it. */
  ghost predicate NoNewcomer(before: Pass, run: (Disk, Source), id: ClipId)
    requires GoodRun(run) && id in before.clips
  {
    var row := before.clips[id];
    run.1.collection == row.collection && row.path !in run.1.files ==>
      forall p :: p in run.1.files && RowsAt(before.clips, run.1.collection, p) == {} ==>
        Some(run.0.files[p]) != row.metadata.source
  }

  lemma {:induction false} UnmatchedRowIsLeft(
      start: Pass, disk: Disk, c: CollectionId, profile: Profile, files: seq<Path>, id: ClipId)
    requires WellFormed(start) && GoodListing(disk, files)
    requires id in start.clips && start.clips[id].collection == c && start.clips[id].path !in files
    requires forall p ::
      p in files && RowsAt(start.clips, c, p) == {} ==> Some(disk.files[p]) != start.clips[id].metadata.source
    ensures AfterFiles(start, disk, c, profile, files).Some?
    ensures id in AfterFiles(start, disk, c, profile, files).value.clips
    ensures AfterFiles(start, disk, c, profile, files).value.clips[id] == start.clips[id]
  {
    if files != [] {
      var front, last := files[..|files| - 1], files[|files| - 1];
      assert last in files && last !in front && forall p :: p in front ==> p in files;
      WalkIndexes(start, disk, c, profile, front);
      UnmatchedRowIsLeft(start, disk, c, profile, front, id);
      var now := AfterFiles(start, disk, c, profile, front).value;
      FileWritesOneRow(now, disk, c, profile, last);
      assert id !in RowsAt(now.clips, c, last);
      if RowsAt(start.clips, c, last) != {} {
        var there := Chosen(RowsAt(start.clips, c, last));
        assert there in RowsAt(now.clips, c, last);
      } else {
        assert id !in MissingRows(now.clips, disk, c, disk.files[last]);
      }
    }
  }

  /** What a scan finds at a path, when no other file can be taken for the one that is gone. */
  function SightingAt(run: (Disk, Source), c: CollectionId, p: Path): Sighting {
    var (disk, source) := run;
    if source.collection != c then Elsewhere
    else if p in source.files && p in disk.files && source.profile.Some? then
      Found(disk.files[p], source.profile.value, disk.ProbeOf(p).valid)
    else Missing
  }

  lemma SightingIsAtPath(before: Pass, run: (Disk, Source), id: ClipId)
    requires WellFormed(before) && GoodRun(run) && id in before.clips && NoNewcomer(before, run, id)
    ensures SightingOf(before, run, id) == SightingAt(run, before.clips[id].collection, before.clips[id].path)
    ensures AfterCollection(before, run.0, run.1).Ok? && id in AfterCollection(before, run.0, run.1).value.clips
    ensures AfterCollection(before, run.0, run.1).value.clips[id].path == before.clips[id].path
  {
    var (disk, source) := run;
    var row := before.clips[id];
    CollectionIndexIsExact(before, disk, source);
    if source.collection == row.collection {
      if row.path in source.files {
        RowAtListedFile(before, disk, source, id);
      } else {
        WalkIndexes(before, disk, source.collection, source.profile.value, source.files);
        UnmatchedRowIsLeft(before, disk, source.collection, source.profile.value, source.files, id);
      }
    }
  }

  /** Throughout the scans no other file can be taken for the clip's. */
  ghost predicate NeverMistaken(start: Pass, runs: seq<(Disk, Source)>, id: ClipId) {
    runs == [] ||
    var front, last := runs[..|runs| - 1], runs[|runs| - 1];
    var before := AfterScans(start, front);
    NeverMistaken(start, front, id) && before.Some? && GoodRun(last) && id in before.value.clips &&
      NoNewcomer(before.value, last, id)
  }

  function SightingsAt(runs: seq<(Disk, Source)>, c: CollectionId, p: Path): (xs: seq<Sighting>)
    ensures |xs| == |runs| && forall k :: 0 <= k < |runs| ==> xs[k] == SightingAt(runs[k], c, p)
  {
    if runs == [] then [] else SightingsAt(runs[..|runs| - 1], c, p) + [SightingAt(runs[|runs| - 1], c, p)]
  }

  lemma GoodRunsMore(runs: seq<(Disk, Source)>)
    requires runs != [] && GoodRuns(runs[..|runs| - 1]) && GoodRun(runs[|runs| - 1])
    ensures GoodRuns(runs)
  {
    forall k | 0 <= k < |runs| ensures GoodRun(runs[k]) {
      if k < |runs| - 1 { assert runs[..|runs| - 1][k] == runs[k]; }
    }
  }

  /** Then the clip stays at its path, and what the scans find of it is there to read on the disks. */
  lemma {:induction false} SightingsAreAtPath(start: Pass, runs: seq<(Disk, Source)>, id: ClipId)
    requires WellFormed(start) && id in start.clips && NeverMistaken(start, runs, id)
    ensures GoodRuns(runs) &&
      Sightings(start, runs, id) == SightingsAt(runs, start.clips[id].collection, start.clips[id].path)
    ensures AfterScans(start, runs).Some? && id in AfterScans(start, runs).value.clips
    ensures AfterScans(start, runs).value.clips[id].path == start.clips[id].path
  {
    if runs != [] {
      var front, last := runs[..|runs| - 1], runs[|runs| - 1];
      SightingsAreAtPath(start, front, id);
      RowAfterScans(start, front, id);
      GoodRunsMore(runs);
      SightingIsAtPath(AfterScans(start, front).value, last, id);
    }
  }

  /** A file that vanishes and returns unchanged: whatever the row was, stale included, it is ready if it has an
      output and probes well. */
  lemma {:induction false} VanishedAndReturned(start: Pass, runs: seq<(Disk, Source)>, id: ClipId)
    requires |runs| >= 2 && WellFormed(start) && id in start.clips && NeverMistaken(start, runs, id)
    requires var c, p := start.clips[id].collection, start.clips[id].path;
      SightingAt(runs[|runs| - 2], c, p) == Missing && SightingAt(runs[|runs| - 1], c, p).Found?
    requires var before, last := AfterScans(start, runs[..|runs| - 1]).value, runs[|runs| - 1];
      Unmodified(last.0, last.1.profile.value, start.clips[id].path, before.clips[id])
    ensures AfterScans(start, runs).Some? && id in AfterScans(start, runs).value.clips
    ensures var row := AfterScans(start, runs).value.clips[id];
      row.state == Ready <==> start.clips[id].outputAvailable && runs[|runs| - 1].0.ProbeOf(start.clips[id].path).valid
  {
    var n := |runs| - 1;
    SightingsAreAtPath(start, runs, id);
    SightingsAreAtPath(start, runs[..n], id);
    RowAfterScans(start, runs, id);
    RowAfterScans(start, runs[..n], id);
    var xs := SightingsAt(runs, start.clips[id].collection, start.clips[id].path);
    assert xs[..n] == SightingsAt(runs[..n], start.clips[id].collection, start.clips[id].path);
    BackFromMissing(StandingOf(start.clips[id]), start.clips[id].outputAvailable, xs);
  }

  lemma BackFromMissing(s: Standing, output: bool, xs: seq<Sighting>)
    requires |xs| >= 2 && xs[|xs| - 2].Missing? && xs[|xs| - 1].Found?
    requires var before := SeenAll(s, output, xs[..|xs| - 1]);
      before.source == Some(xs[|xs| - 1].content) && before.profile == Some(xs[|xs| - 1].profile)
    ensures SeenAll(s, output, xs).state == Ready <==> output && xs[|xs| - 1].valid
  {
    assert xs[..|xs| - 1][|xs| - 2] == xs[|xs| - 2];
  }

  /** Where no path but the clip's own is listed, nothing can be taken for it. */
  lemma {:induction false} AloneIsNeverMistaken(start: Pass, runs: seq<(Disk, Source)>, id: ClipId)
    requires WellFormed(start) && id in start.clips && GoodRuns(runs)
    requires forall k, p ::
      0 <= k < |runs| && runs[k].1.collection == start.clips[id].collection && p in runs[k].1.files ==>
        p == start.clips[id].path
    ensures NeverMistaken(start, runs, id)
  {
    if runs != [] {
      var n := |runs| - 1;
      var front := runs[..n];
      AloneIsNeverMistaken(start, front, id);
      RowAfterScans(start, front, id);
      SightingsAreAtPath(start, front, id);
    }
  }

  /** The clip's file alone, with some content. */
  function Holding(row: Clip, content: Content, profile: Profile): (Disk, Source) {
    (Disk(map[row.path := content], map[], map[row.path := Probe(true, 0, 0)]),
      Source(row.collection, [row.path], Some(profile)))
  }

  function Emptied(row: Clip, profile: Profile): (Disk, Source) {
    (Disk(map[], map[], map[]), Source(row.collection, [], Some(profile)))
  }

  lemma ReplacedGoneAndBack(s: Standing, content: Content, profile: Profile)
    requires s.source != Some(content)
    ensures SeenAll(s, true, [Found(content, profile, true), Missing, Found(content, profile, true)])
         == Standing(Ready, Some(content), Some(profile))
  {
    var found := Found(content, profile, true);
    var xs := [found, Missing, found];
    assert xs[..2] == [found, Missing] && [found, Missing][..1] == [found] && [found][..0] == [];
    assert SeenAll(s, true, [found]) == Standing(Stale, Some(content), Some(profile));
    assert SeenAll(s, true, [found, Missing]) == Standing(Deleted, Some(content), Some(profile));
  }

  /** From any compiled clip: its file is replaced, vanishes and returns, and the clip is ready for content it was
      not compiled from. */
  lemma ReadyForOtherInputs(row: Clip, content: Content, other: Content, profile: Profile, bounds: Bounds)
    requires other != content
    ensures var start := Pass(map[0 := Published(row, content, profile, bounds)], 1, ZERO);
      var end := AfterScans(start, [Holding(row, other, profile), Emptied(row, profile), Holding(row, other, profile)]);
      && end.Some? && 0 in end.value.clips
      && StandingOf(end.value.clips[0]) == Standing(Ready, Some(other), Some(profile))
  {
    var start := Pass(map[0 := Published(row, content, profile, bounds)], 1, ZERO);
    var runs := [Holding(row, other, profile), Emptied(row, profile), Holding(row, other, profile)];
    assert forall k :: 0 <= k < |runs| ==> GoodRun(runs[k]);
    AloneIsNeverMistaken(start, runs, 0);
    RowAfterScans(start, runs, 0);
    SightingsAreAtPath(start, runs, 0);
    var found := Found(other, profile, true);
    assert SightingsAt(runs, row.collection, row.path) == [found, Missing, found];
    ReplacedGoneAndBack(StandingOf(start.clips[0]), other, profile);
  }
}
