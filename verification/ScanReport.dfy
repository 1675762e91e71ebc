/** What a scan adds to the catalog, and what its summary counts. */
module ScanReport {
  import opened Catalog
  import opened CatalogIndex
  import opened ClipStates
  import opened Wrappers

  // ---------- New rows ----------

  /** The row of a file nothing was known of: as scanned, never compiled, with an output path of its own. */
  predicate IsUncompiledRow(row: Clip, id: ClipId, disk: Disk, profile: Profile) {
    && row.path in disk.files && var probe := disk.ProbeOf(row.path);
    && row.metadata == Metadata(Some(disk.files[row.path]), Some(profile), probe.details, None)
    && row.state == (if probe.valid then Discovered else Invalid) && row.duration == probe.duration
    && !row.outputAvailable && row.output == Some(OutputPath(row.collection, id))
  }

  ghost predicate NewRowsUncompiled(start: Clips, now: Clips, disk: Disk, c: CollectionId, profile: Profile,
      done: seq<Path>) {
    forall id :: id in now && id !in start ==>
      now[id].collection == c && now[id].path in done && IsUncompiledRow(now[id], id, disk, profile)
  }

  /** The row a walk writes for its next file is one of the starting catalog or a new one, never one it added. */
  lemma TargetIsOldOrNew(start: Pass, now: Pass, disk: Disk, c: CollectionId, profile: Profile, done: seq<Path>,
      p: Path)
    requires Walked(start, now, disk, c, profile, done) && p in disk.files && p !in done
    requires NewRowsUncompiled(start.clips, now.clips, disk, c, profile, done)
    ensures Target(now, disk, c, p) in now.clips ==> Target(now, disk, c, p) in start.clips
  {
    FileWritesOneRow(now, disk, c, profile, p);
  }

  lemma AddedRow(now: Pass, disk: Disk, c: CollectionId, profile: Profile, p: Path)
    requires WellFormed(now) && p in disk.files
    ensures var id, row := Target(now, disk, c, p), Row(now, disk, c, profile, p);
      var counted := Counted(now, disk, c, profile, p);
      if id in now.clips then counted.added == now.tally.added
      else row.collection == c && row.path == p && IsUncompiledRow(row, id, disk, profile) &&
           counted.added == now.tally.added + 1
  {
    FileWritesOneRow(now, disk, c, profile, p);
  }

  lemma WriteCounts(clips: Clips, id: ClipId, row: Clip)
    ensures |clips[id := row]| == |clips| + if id in clips then 0 else 1
  {
    assert clips[id := row].Keys == clips.Keys + {id};
    assert |clips[id := row]| == |clips[id := row].Keys| && |clips| == |clips.Keys|;
  }

  lemma FileAddsUncompiledRow(start: Pass, now: Pass, disk: Disk, c: CollectionId, profile: Profile, done: seq<Path>,
      p: Path)
    requires Walked(start, now, disk, c, profile, done) && p in disk.files && p !in done
    requires NewRowsUncompiled(start.clips, now.clips, disk, c, profile, done)
    ensures var after := AfterFile(now, disk, c, profile, p);
      && NewRowsUncompiled(start.clips, after.clips, disk, c, profile, done + [p])
      && after.tally.added + |now.clips| == now.tally.added + |after.clips|
  {
    var id, row := Target(now, disk, c, p), Row(now, disk, c, profile, p);
    TargetIsOldOrNew(start, now, disk, c, profile, done, p);
    AddedRow(now, disk, c, profile, p);
    WriteCounts(now.clips, id, row);
  }

  lemma WalkTakesNext(start: Pass, disk: Disk, c: CollectionId, profile: Profile, files: seq<Path>)
    requires files != [] && files[|files| - 1] in disk.files
    requires AfterFiles(start, disk, c, profile, files[..|files| - 1]).Some?
    ensures AfterFiles(start, disk, c, profile, files) ==
      Some(AfterFile(AfterFiles(start, disk, c, profile, files[..|files| - 1]).value, disk, c, profile,
        files[|files| - 1]))
  {
  }

  lemma NextAddsUncompiledRow(start: Pass, disk: Disk, c: CollectionId, profile: Profile, done: seq<Path>, p: Path)
    requires WellFormed(start) && GoodListing(disk, done) && p in disk.files && p !in done
    requires AfterFiles(start, disk, c, profile, done).Some?
    requires NewRowsUncompiled(start.clips, AfterFiles(start, disk, c, profile, done).value.clips, disk, c,
      profile, done)
    ensures var now := AfterFiles(start, disk, c, profile, done).value;
      var after := AfterFile(now, disk, c, profile, p);
      && NewRowsUncompiled(start.clips, after.clips, disk, c, profile, done + [p])
      && after.tally.added + |now.clips| == now.tally.added + |after.clips|
  {
    WalkIndexes(start, disk, c, profile, done);
    FileAddsUncompiledRow(start, AfterFiles(start, disk, c, profile, done).value, disk, c, profile, done, p);
  }

  /** A walk adds rows for listed files only, uncompiled, and counts each of them. */
  lemma {:induction false} WalkAddsUncompiledRows(start: Pass, disk: Disk, c: CollectionId, profile: Profile,
      files: seq<Path>)
    requires WellFormed(start) && GoodListing(disk, files)
    ensures AfterFiles(start, disk, c, profile, files).Some?
    ensures var now := AfterFiles(start, disk, c, profile, files).value;
      && NewRowsUncompiled(start.clips, now.clips, disk, c, profile, files)
      && now.tally.added + |start.clips| == start.tally.added + |now.clips|
  {
    if files != [] {
      var front, last := files[..|files| - 1], files[|files| - 1];
      assert last in files && last !in front && forall p :: p in front ==> p in files;
      WalkAddsUncompiledRows(start, disk, c, profile, front);
      WalkTakesNext(start, disk, c, profile, files);
      NextAddsUncompiledRow(start, disk, c, profile, front, last);
      assert front + [last] == files;
    }
  }

  // ---------- The rest of the summary ----------

  /** The row already says what a scan of its file finds. */
  predicate SaysAlready(row: Clip, disk: Disk, profile: Profile) {
    && row.path in disk.files && row.state != Deleted
    && row.metadata.source == Some(disk.files[row.path]) && row.metadata.profile == Some(profile)
  }

  function Unchanged(clips: Clips, disk: Disk, c: CollectionId, profile: Profile, files: seq<Path>): set<ClipId> {
    set id | id in clips && clips[id].collection == c && clips[id].path in files &&
      SaysAlready(clips[id], disk, profile)
  }

  function Unprobed(disk: Disk, files: seq<Path>): set<Path> {
    set p | p in files && !disk.ProbeOf(p).valid
  }

  lemma OneMoreUnchanged(clips: Clips, disk: Disk, c: CollectionId, profile: Profile, done: seq<Path>, p: Path)
    requires p !in done
    ensures |Unchanged(clips, disk, c, profile, done + [p])|
         == |Unchanged(clips, disk, c, profile, done)| + |Unchanged(clips, disk, c, profile, [p])|
    ensures |Unprobed(disk, done + [p])| == |Unprobed(disk, done)| + if disk.ProbeOf(p).valid then 0 else 1
  {
    var was, one := Unchanged(clips, disk, c, profile, done), Unchanged(clips, disk, c, profile, [p]);
    assert Unchanged(clips, disk, c, profile, done + [p]) == was + one;
    assert was !! one;
    assert Unprobed(disk, done + [p]) == Unprobed(disk, done) + if disk.ProbeOf(p).valid then {} else {p};
  }

  /** Before its file is walked, the row at a path is the one of the starting catalog. */
  lemma RowsAtStart(start: Pass, now: Pass, disk: Disk, c: CollectionId, profile: Profile, done: seq<Path>, p: Path)
    requires Walked(start, now, disk, c, profile, done) && p in disk.files && p !in done
    requires NewRowsUncompiled(start.clips, now.clips, disk, c, profile, done)
    ensures RowsAt(now.clips, c, p) == RowsAt(start.clips, c, p)
    ensures forall id :: id in RowsAt(now.clips, c, p) ==> now.clips[id] == start.clips[id]
  {
    forall id ensures id in RowsAt(now.clips, c, p) <==> id in RowsAt(start.clips, c, p) {
    }
  }

  lemma FileCountsUnchanged(now: Pass, disk: Disk, c: CollectionId, profile: Profile, p: Path)
    requires WellFormed(now) && p in disk.files
    ensures var counted := Counted(now, disk, c, profile, p);
      && counted.same == now.tally.same + |Unchanged(now.clips, disk, c, profile, [p])|
      && counted.invalid == now.tally.invalid + (if disk.ProbeOf(p).valid then 0 else 1)
      && counted.deleted == now.tally.deleted
  {
    var here, same := RowsAt(now.clips, c, p), Unchanged(now.clips, disk, c, profile, [p]);
    assert same <= here;
    if here != {} {
      var id := Target(now, disk, c, p);
      FileWritesOneRow(now, disk, c, profile, p);
      assert Chosen(here) == id;
      assert forall other :: other in here <==> other == id;
      assert same == if SaysAlready(now.clips[id], disk, profile) then {id} else {};
    }
  }

  lemma FileIsCounted(start: Pass, now: Pass, disk: Disk, c: CollectionId, profile: Profile, done: seq<Path>, p: Path)
    requires Walked(start, now, disk, c, profile, done) && p in disk.files && p !in done
    requires NewRowsUncompiled(start.clips, now.clips, disk, c, profile, done)
    ensures var counted := AfterFile(now, disk, c, profile, p).tally;
      && counted.same == now.tally.same + |Unchanged(start.clips, disk, c, profile, [p])|
      && counted.invalid == now.tally.invalid + (if disk.ProbeOf(p).valid then 0 else 1)
      && counted.deleted == now.tally.deleted
  {
    FileCountsUnchanged(now, disk, c, profile, p);
    RowsAtStart(start, now, disk, c, profile, done, p);
    forall id ensures id in Unchanged(now.clips, disk, c, profile, [p]) <==>
        id in Unchanged(start.clips, disk, c, profile, [p]) {
      assert id in RowsAt(now.clips, c, p) <==> id in RowsAt(start.clips, c, p);
    }
    assert Unchanged(now.clips, disk, c, profile, [p]) == Unchanged(start.clips, disk, c, profile, [p]);
  }

  lemma NextIsCounted(start: Pass, disk: Disk, c: CollectionId, profile: Profile, done: seq<Path>, p: Path)
    requires WellFormed(start) && GoodListing(disk, done) && p in disk.files && p !in done
    ensures AfterFiles(start, disk, c, profile, done).Some?
    ensures var now := AfterFiles(start, disk, c, profile, done).value;
      var counted := AfterFile(now, disk, c, profile, p).tally;
      && counted.same == now.tally.same + |Unchanged(start.clips, disk, c, profile, [p])|
      && counted.invalid == now.tally.invalid + (if disk.ProbeOf(p).valid then 0 else 1)
      && counted.deleted == now.tally.deleted
  {
    WalkIndexes(start, disk, c, profile, done);
    WalkAddsUncompiledRows(start, disk, c, profile, done);
    FileIsCounted(start, AfterFiles(start, disk, c, profile, done).value, disk, c, profile, done, p);
  }

  lemma {:induction false} WalkIsCounted(start: Pass, disk: Disk, c: CollectionId, profile: Profile, files: seq<Path>)
    requires WellFormed(start) && GoodListing(disk, files)
    ensures AfterFiles(start, disk, c, profile, files).Some?
    ensures var tally := AfterFiles(start, disk, c, profile, files).value.tally;
      && tally.same == start.tally.same + |Unchanged(start.clips, disk, c, profile, files)|
      && tally.invalid == start.tally.invalid + |Unprobed(disk, files)|
      && tally.deleted == start.tally.deleted
  {
    if files == [] {
      assert Unchanged(start.clips, disk, c, profile, files) == {} && Unprobed(disk, files) == {};
    } else {
      var front, last := files[..|files| - 1], files[|files| - 1];
      assert last in files && last !in front && forall p :: p in front ==> p in files;
      WalkIsCounted(start, disk, c, profile, front);
      NextIsCounted(start, disk, c, profile, front, last);
      OneMoreUnchanged(start.clips, disk, c, profile, front, last);
      assert front + [last] == files;
    }
  }

  // ---------- One collection ----------

  /** The rows that lost their file. */
  function Lost(before: Clips, after: Clips): set<ClipId> {
    set id | id in before && id in after && before[id].state != Deleted && after[id].state == Deleted
  }

  lemma ListedAreLive(start: Pass, walked: Pass, disk: Disk, c: CollectionId, profile: Profile, files: seq<Path>,
      id: ClipId)
    requires Walked(start, walked, disk, c, profile, files)
    requires id in walked.clips && walked.clips[id].collection == c && walked.clips[id].path in files
    ensures walked.clips[id].state != Deleted
  {
    var p := walked.clips[id].path;
    var settled :| At(walked.clips, c, p, settled) && Settled(disk, profile, p, walked.clips[settled]);
    assert settled == id;
  }

  lemma SweptAreLost(start: Pass, walked: Pass, disk: Disk, c: CollectionId, profile: Profile, files: seq<Path>)
    requires Walked(start, walked, disk, c, profile, files)
    requires NewRowsUncompiled(start.clips, walked.clips, disk, c, profile, files)
    ensures var gone := Gone(walked.clips, c, files);
      && gone == Lost(start.clips, Swept(walked.clips, gone))
      && NewRowsUncompiled(start.clips, Swept(walked.clips, gone), disk, c, profile, files)
  {
    var gone := Gone(walked.clips, c, files);
    var after := Swept(walked.clips, gone);
    forall id | id in after ensures id in gone <==> id in Lost(start.clips, after) {
      if walked.clips[id].collection == c && walked.clips[id].path in files {
        ListedAreLive(start, walked, disk, c, profile, files, id);
      }
    }
  }

  /**
   The summary of one collection: added counts the new rows, deleted the rows that lost their file, unchanged those
   that already said what is on disk, invalid the files that do not probe; every other file was modified.
   */
  lemma CollectionSummaryIsExact(start: Pass, disk: Disk, source: Source)
    requires WellFormed(start) && source.profile.Some? && GoodListing(disk, source.files)
    ensures AfterCollection(start, disk, source).Ok?
    ensures var after := AfterCollection(start, disk, source).value;
      && NewRowsUncompiled(start.clips, after.clips, disk, source.collection, source.profile.value, source.files)
      && after.tally.added + |start.clips| == start.tally.added + |after.clips|
      && after.tally.deleted == start.tally.deleted + |Lost(start.clips, after.clips)|
      && after.tally.same == start.tally.same +
           |Unchanged(start.clips, disk, source.collection, source.profile.value, source.files)|
      && after.tally.invalid == start.tally.invalid + |Unprobed(disk, source.files)|
      && after.tally.added + after.tally.modified + after.tally.same
         == start.tally.added + start.tally.modified + start.tally.same + |source.files|
  {
    var c, profile, files := source.collection, source.profile.value, source.files;
    WalkIndexes(start, disk, c, profile, files);
    WalkAddsUncompiledRows(start, disk, c, profile, files);
    WalkIsCounted(start, disk, c, profile, files);
    var walked := AfterFiles(start, disk, c, profile, files).value;
    SweptAreLost(start, walked, disk, c, profile, files);
    assert Swept(walked.clips, Gone(walked.clips, c, files)).Keys == walked.clips.Keys;
    SameSize(walked.clips, Swept(walked.clips, Gone(walked.clips, c, files)));
  }

  lemma SameSize(a: Clips, b: Clips)
    requires a.Keys == b.Keys
    ensures |a| == |b|
  {
    assert |a| == |a.Keys| && |b| == |b.Keys|;
  }

  // ---------- The whole scan ----------

  /** A source of the scan lists the new row's file. */
  ghost predicate ListedUncompiled(row: Clip, id: ClipId, disk: Disk, sources: seq<Source>) {
    exists s :: s in sources && s.collection == row.collection && row.path in s.files && s.profile.Some? &&
      IsUncompiledRow(row, id, disk, s.profile.value)
  }

  /** Up to here no row of the collection was touched and none was added to it. */
  ghost predicate Untouched(start: Clips, before: Clips, c: CollectionId) {
    && (forall id :: id in start ==> id in before && before[id].collection == start[id].collection)
    && (forall id :: id in start && start[id].collection == c ==> before[id] == start[id])
    && (forall id :: id in before && id !in start ==> before[id].collection != c)
  }

  /** The scan of the collection left every other row as it was. */
  ghost predicate Confined(before: Clips, after: Clips, c: CollectionId) {
    && (forall id :: id in before ==> id in after)
    && (forall id :: id in before && before[id].collection != c ==> after[id] == before[id])
  }

  lemma LostInTurn(start: Clips, before: Clips, after: Clips, c: CollectionId)
    requires Untouched(start, before, c) && Confined(before, after, c)
    ensures |Lost(start, after)| == |Lost(start, before)| + |Lost(before, after)|
  {
    forall id ensures id in Lost(start, after) <==> id in Lost(start, before) || id in Lost(before, after) {
    }
    assert Lost(start, after) == Lost(start, before) + Lost(before, after);
    assert Lost(start, before) !! Lost(before, after);
  }

  ghost predicate NewRowsListed(start: Clips, now: Clips, disk: Disk, sources: seq<Source>) {
    forall id :: id in now && id !in start ==> ListedUncompiled(now[id], id, disk, sources)
  }

  lemma ListedInTurn(start: Clips, before: Clips, after: Clips, disk: Disk, sources: seq<Source>)
    requires sources != [] && sources[|sources| - 1].profile.Some?
    requires var last := sources[|sources| - 1];
      && Untouched(start, before, last.collection) && Confined(before, after, last.collection)
      && NewRowsUncompiled(before, after, disk, last.collection, last.profile.value, last.files)
    requires NewRowsListed(start, before, disk, sources[..|sources| - 1])
    ensures NewRowsListed(start, after, disk, sources)
  {
    var front, last := sources[..|sources| - 1], sources[|sources| - 1];
    assert last in sources && forall s :: s in front ==> s in sources;
    forall id | id in after && id !in start ensures ListedUncompiled(after[id], id, disk, sources) {
      if id in before {
        assert ListedUncompiled(before[id], id, disk, front);
      }
    }
  }

  /** The last source of a scan touches its own collection, which the others left alone. */
  lemma LastSourceIsApart(start: Pass, disk: Disk, sources: seq<Source>)
    requires WellFormed(start) && GoodSources(disk, sources) && sources != []
    ensures AfterScan(start, disk, sources[..|sources| - 1]).Ok? && AfterScan(start, disk, sources).Ok?
    ensures var before, after :=
      AfterScan(start, disk, sources[..|sources| - 1]).value, AfterScan(start, disk, sources);
      var last := sources[|sources| - 1];
      && WellFormed(before) && last.profile.Some? && GoodListing(disk, last.files)
      && after == AfterCollection(before, disk, last)
      && Untouched(start.clips, before.clips, last.collection)
      && Confined(before.clips, after.value.clips, last.collection)
  {
    var front, last := sources[..|sources| - 1], sources[|sources| - 1];
    assert last in sources && forall s :: s in front ==> s in sources;
    ScanKeepsRows(start, disk, front);
    CollectionIndexIsExact(AfterScan(start, disk, front).value, disk, last);
  }

  /**
   The whole scan: every row it adds belongs to a listed file, with source and profile as on disk, discovered or
   invalid as it probes, never compiled; added counts these rows and deleted the rows that lost their file.
   */
  lemma {:induction false} ScanAddsUncompiledRows(start: Pass, disk: Disk, sources: seq<Source>)
    requires WellFormed(start) && GoodSources(disk, sources)
    ensures AfterScan(start, disk, sources).Ok?
    ensures var after := AfterScan(start, disk, sources).value;
      && NewRowsListed(start.clips, after.clips, disk, sources)
      && after.tally.added + |start.clips| == start.tally.added + |after.clips|
      && after.tally.deleted == start.tally.deleted + |Lost(start.clips, after.clips)|
  {
    if sources == [] {
      assert Lost(start.clips, start.clips) == {};
    } else {
      var front, last := sources[..|sources| - 1], sources[|sources| - 1];
      assert forall s :: s in front ==> s in sources;
      ScanAddsUncompiledRows(start, disk, front);
      LastSourceIsApart(start, disk, sources);
      var before, after := AfterScan(start, disk, front).value, AfterScan(start, disk, sources).value;
      CollectionSummaryIsExact(before, disk, last);
      ListedInTurn(start.clips, before.clips, after.clips, disk, sources);
      LostInTurn(start.clips, before.clips, after.clips, last.collection);
    }
  }

  // ---------- When a scan fails ----------

  predicate Readable(disk: Disk, source: Source) {
    source.profile.Some? && forall p :: p in source.files ==> p in disk.files
  }

  lemma {:induction false} WalkSucceedsIff(start: Pass, disk: Disk, c: CollectionId, profile: Profile, files: seq<Path>)
    ensures AfterFiles(start, disk, c, profile, files).Some? <==> forall p :: p in files ==> p in disk.files
  {
    if files != [] {
      var front, last := files[..|files| - 1], files[|files| - 1];
      WalkSucceedsIff(start, disk, c, profile, front);
      assert forall p :: p in files <==> p in front || p == last;
    }
  }

  /** The first source that cannot be read, and why. */
  ghost predicate FailsAt(disk: Disk, sources: seq<Source>, error: ScanError, k: nat) {
    && k < |sources| && !Readable(disk, sources[k]) && (forall i :: 0 <= i < k ==> Readable(disk, sources[i]))
    && error == if sources[k].profile.None? then ProfileUnavailable else FileUnreadable
  }

  /** A scan fails exactly when some collection's profile or some listed file cannot be read, and names the first. */
  lemma {:induction false} ScanFailsIff(start: Pass, disk: Disk, sources: seq<Source>)
    ensures AfterScan(start, disk, sources).Ok? <==> forall s :: s in sources ==> Readable(disk, s)
    ensures AfterScan(start, disk, sources).Err? ==>
      exists k :: FailsAt(disk, sources, AfterScan(start, disk, sources).error, k)
  {
    if sources != [] {
      var n := |sources| - 1;
      var front, last := sources[..n], sources[n];
      var before := AfterScan(start, disk, front);
      ScanFailsIff(start, disk, front);
      assert forall s :: s in sources <==> s in front || s == last;
      if before.Err? {
        var k :| FailsAt(disk, front, before.error, k);
        assert FailsAt(disk, sources, before.error, k);
      } else {
        if last.profile.Some? {
          WalkSucceedsIff(before.value, disk, last.collection, last.profile.value, last.files);
        }
        if !Readable(disk, last) {
          assert forall i :: 0 <= i < n ==> sources[i] in front;
          assert FailsAt(disk, sources, AfterScan(start, disk, sources).error, n);
        }
      }
    }
  }
}
