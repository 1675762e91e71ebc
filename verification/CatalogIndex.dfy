/** What a scan leaves behind: an exact index of the disk, and a state that scanning again does not change. */
module CatalogIndex {
  import opened Catalog
  import opened ClipStates
  import opened Wrappers

  predicate At(clips: Clips, c: CollectionId, p: Path, id: ClipId) {
    id in clips && clips[id].collection == c && clips[id].path == p
  }

  /** The row says what a scan of its file would say again. */
  predicate Settled(disk: Disk, profile: Profile, p: Path, row: Clip)
    requires p in disk.files
  {
    row.state != Deleted && row.duration == disk.ProbeOf(p).duration &&
      row.metadata == Retained(disk, Scanned(disk, profile, p), row)
  }

  /** Some settled row stands at the path. */
  ghost predicate Indexed(clips: Clips, disk: Disk, c: CollectionId, profile: Profile, p: Path)
    requires p in disk.files
  {
    exists id :: At(clips, c, p, id) && Settled(disk, profile, p, clips[id])
  }

  /** Refreshing a settled row is the identity, and refreshing any row settles it. */
  lemma RefreshSettles(disk: Disk, profile: Profile, p: Path, row: Clip)
    requires p in disk.files
    ensures Settled(disk, profile, p, Refreshed(disk, profile, p, row))
    ensures Settled(disk, profile, p, Moved(disk, profile, p, row))
    ensures Settled(disk, profile, p, row) && row.path == p ==>
      Refreshed(disk, profile, p, row) == row && Unmodified(disk, profile, p, row)
  {
  }

  ghost predicate GoodListing(disk: Disk, files: seq<Path>) {
    && (forall p :: p in files ==> p in disk.files)
    && forall i, k :: 0 <= i < k < |files| ==> files[i] != files[k]
  }

  /** How far a row of the starting catalog may have been changed by a walk. */
  predicate Kept(before: Clip, after: Clip) {
    after.collection == before.collection && after.output == before.output &&
      after.outputAvailable == before.outputAvailable
  }

  /** What a walk may have done to each row of the starting catalog, and which rows it may have added. */
  ghost predicate Tracked(start: Clips, now: Clips, disk: Disk, c: CollectionId, profile: Profile, done: seq<Path>) {
    && (forall id :: id in start ==> id in now && Kept(start[id], now[id]))
    && (forall id :: id in start && start[id].collection != c ==> now[id] == start[id])
    && (forall id :: id in now && id !in start ==> now[id].collection == c && now[id].path in done)
    && (forall id :: id in start && start[id].collection == c && start[id].path in disk.files ==>
          now[id] == if start[id].path in done then Refreshed(disk, profile, start[id].path, start[id]) else start[id])
    && (forall id :: id in start && start[id].path !in disk.files ==> now[id] == start[id] || now[id].path in done)
  }

  ghost predicate Walked(start: Pass, now: Pass, disk: Disk, c: CollectionId, profile: Profile, done: seq<Path>) {
    && WellFormed(now) && start.nextId <= now.nextId
    && (forall p :: p in done ==> p in disk.files && Indexed(now.clips, disk, c, profile, p))
    && Tracked(start.clips, now.clips, disk, c, profile, done)
    && now.tally.added + now.tally.modified + now.tally.same
       == start.tally.added + start.tally.modified + start.tally.same + |done|
    && now.tally.deleted == start.tally.deleted
  }

  /** The write for one more file, to the row that stood there, to a row whose file is gone, or to a new row. */
  lemma WriteIsTracked(start: Clips, now: Clips, disk: Disk, c: CollectionId, profile: Profile, done: seq<Path>,
      p: Path, id: ClipId, row: Clip)
    requires Tracked(start, now, disk, c, profile, done) && p in disk.files && p !in done
    requires row.collection == c && row.path == p
    requires id in now ==>
      now[id].collection == c && Kept(now[id], row) && (now[id].path == p || now[id].path !in disk.files)
    requires id in now && now[id].path == p ==> row == Refreshed(disk, profile, p, now[id])
    requires forall other :: other in RowsAt(now, c, p) ==> other == id
    ensures Tracked(start, now[id := row], disk, c, profile, done + [p])
  {
    forall other | other in start && start[other].collection == c && start[other].path == p
      ensures other == id && now[other] == start[other] {
      assert other in RowsAt(now, c, p);
    }
  }

  lemma FileExtendsWalk(start: Pass, now: Pass, disk: Disk, c: CollectionId, profile: Profile, done: seq<Path>, p: Path)
    requires WellFormed(start) && Walked(start, now, disk, c, profile, done) && p in disk.files && p !in done
    ensures Walked(start, AfterFile(now, disk, c, profile, p), disk, c, profile, done + [p])
  {
    FileKeepsWellFormed(now, disk, c, profile, p);
    FileWritesOneRow(now, disk, c, profile, p);
    var id, row, after := Target(now, disk, c, p), Row(now, disk, c, profile, p), AfterFile(now, disk, c, profile, p);
    RowIsSettled(now, disk, c, profile, p);
    WriteIsTracked(start.clips, now.clips, disk, c, profile, done, p, id, row);
    assert At(after.clips, c, p, id);
    forall q | q in done ensures q in disk.files && Indexed(after.clips, disk, c, profile, q) {
      StillIndexed(now.clips, after.clips, disk, c, profile, q, id);
    }
  }

  lemma RowIsSettled(now: Pass, disk: Disk, c: CollectionId, profile: Profile, p: Path)
    requires WellFormed(now) && p in disk.files
    ensures Settled(disk, profile, p, Row(now, disk, c, profile, p))
    ensures var id := Target(now, disk, c, p);
      id in now.clips && now.clips[id].path == p ==>
        Row(now, disk, c, profile, p) == Refreshed(disk, profile, p, now.clips[id])
  {
  }

  /** A write to a row that stood elsewhere keeps a path indexed. */
  lemma StillIndexed(clips: Clips, after: Clips, disk: Disk, c: CollectionId, profile: Profile, q: Path, id: ClipId)
    requires q in disk.files && Indexed(clips, disk, c, profile, q) && !At(clips, c, q, id)
    requires forall other :: other in clips && other != id ==> other in after && after[other] == clips[other]
    ensures Indexed(after, disk, c, profile, q)
  {
  }

  lemma {:induction false} WalkIndexes(start: Pass, disk: Disk, c: CollectionId, profile: Profile, files: seq<Path>)
    requires WellFormed(start) && GoodListing(disk, files)
    ensures AfterFiles(start, disk, c, profile, files).Some?
    ensures Walked(start, AfterFiles(start, disk, c, profile, files).value, disk, c, profile, files)
  {
    if files != [] {
      var front, last := files[..|files| - 1], files[|files| - 1];
      assert last in files && forall p :: p in front ==> p in files;
      WalkIndexes(start, disk, c, profile, front);
      FileExtendsWalk(start, AfterFiles(start, disk, c, profile, front).value, disk, c, profile, front, last);
      assert front + [last] == files;
    }
  }

  // ---------- The exact index ----------

  ghost predicate LiveAt(clips: Clips, c: CollectionId, p: Path) {
    exists id :: At(clips, c, p, id) && clips[id].state != Deleted
  }

  /** Non-deleted rows and listed files are in bijection. */
  ghost predicate ExactIndex(clips: Clips, c: CollectionId, files: seq<Path>) {
    && PathUnique(clips)
    && (forall p :: p in files ==> LiveAt(clips, c, p))
    && (forall id :: id in clips && clips[id].collection == c && clips[id].state != Deleted ==> clips[id].path in files)
  }

  /** One collection: the index is exact, every row and output survives, other collections stand still, and every
      file is counted once. */
  lemma CollectionIndexIsExact(start: Pass, disk: Disk, source: Source)
    requires WellFormed(start) && source.profile.Some? && GoodListing(disk, source.files)
    ensures AfterCollection(start, disk, source).Ok?
    ensures var after := AfterCollection(start, disk, source).value;
      && WellFormed(after) && ExactIndex(after.clips, source.collection, source.files)
      && (forall p :: p in source.files ==> Indexed(after.clips, disk, source.collection, source.profile.value, p))
      && (forall id :: id in start.clips ==> id in after.clips && Kept(start.clips[id], after.clips[id]))
      && (forall id ::
          id in start.clips && start.clips[id].collection != source.collection ==> after.clips[id] == start.clips[id])
      && after.tally.added + after.tally.modified + after.tally.same
         == start.tally.added + start.tally.modified + start.tally.same + |source.files|
  {
    var c, files := source.collection, source.files;
    WalkIndexes(start, disk, c, source.profile.value, files);
    var walked := AfterFiles(start, disk, c, source.profile.value, files).value;
    var after := AfterCollection(start, disk, source).value;
    forall p | p in files ensures Indexed(after.clips, disk, c, source.profile.value, p) && LiveAt(after.clips, c, p) {
      var id :| At(walked.clips, c, p, id) && Settled(disk, source.profile.value, p, walked.clips[id]);
      assert At(after.clips, c, p, id) && after.clips[id] == walked.clips[id];
    }
  }

  // ---------- What happens to one row ----------

  lemma RowAtListedFile(start: Pass, disk: Disk, source: Source, id: ClipId)
    requires WellFormed(start) && source.profile.Some? && GoodListing(disk, source.files)
    requires id in start.clips && start.clips[id].collection == source.collection &&
      start.clips[id].path in source.files
    ensures AfterCollection(start, disk, source).Ok? && id in AfterCollection(start, disk, source).value.clips
    ensures AfterCollection(start, disk, source).value.clips[id]
         == Refreshed(disk, source.profile.value, start.clips[id].path, start.clips[id])
  {
    WalkIndexes(start, disk, source.collection, source.profile.value, source.files);
  }

  /** A ready clip whose snapshot is current stays ready; otherwise the scan marks it stale, and nothing else
      decides. */
  lemma ReadyIffCurrent(start: Pass, disk: Disk, source: Source, id: ClipId)
    requires WellFormed(start) && source.profile.Some? && GoodListing(disk, source.files)
    requires id in start.clips && start.clips[id].collection == source.collection &&
      start.clips[id].path in source.files
    requires start.clips[id].state == Ready && start.clips[id].outputAvailable
    ensures AfterCollection(start, disk, source).Ok? && id in AfterCollection(start, disk, source).value.clips
    ensures var row := AfterCollection(start, disk, source).value.clips[id];
      && row.path == start.clips[id].path && row.outputAvailable
      && row.state == (if Unmodified(disk, source.profile.value, start.clips[id].path, start.clips[id]) then Ready
           else Stale)
      && Unmodified(disk, source.profile.value, row.path, row)
  {
    RowAtListedFile(start, disk, source, id);
  }

  /** A clip without an output follows the probe of its file once anything about it changed, and is left alone
      otherwise. */
  lemma UncompiledFollowsProbe(start: Pass, disk: Disk, source: Source, id: ClipId)
    requires WellFormed(start) && source.profile.Some? && GoodListing(disk, source.files)
    requires id in start.clips && start.clips[id].collection == source.collection &&
      start.clips[id].path in source.files
    requires !start.clips[id].outputAvailable && start.clips[id].state != Deleted
    ensures AfterCollection(start, disk, source).Ok? && id in AfterCollection(start, disk, source).value.clips
    ensures var was, now := start.clips[id], AfterCollection(start, disk, source).value.clips[id];
      if Unmodified(disk, source.profile.value, was.path, was) then now.state == was.state
      else now.state in {Discovered, Invalid} && (now.state == Invalid <==> !disk.ProbeOf(was.path).valid)
  {
    RowAtListedFile(start, disk, source, id);
  }

  /** A row keeps its timing across a scan exactly while sound bounds belong to the output that is on disk. */
  lemma TimingIsKeptIff(start: Pass, disk: Disk, source: Source, id: ClipId)
    requires WellFormed(start) && source.profile.Some? && GoodListing(disk, source.files)
    requires id in start.clips && start.clips[id].collection == source.collection &&
      start.clips[id].path in source.files
    ensures AfterCollection(start, disk, source).Ok? && id in AfterCollection(start, disk, source).value.clips
    ensures var was, now := start.clips[id], AfterCollection(start, disk, source).value.clips[id];
      now.metadata == Metadata(Some(disk.files[was.path]), source.profile, disk.ProbeOf(was.path).details,
        if && was.outputAvailable && was.output.Some? && was.output.value in disk.outputs
           && was.metadata.bounds.Some? && was.metadata.bounds.value.sound
           && was.metadata.bounds.value.output == disk.outputs[was.output.value]
        then was.metadata.bounds else None)
  {
    RowAtListedFile(start, disk, source, id);
  }

  /** The row as a finished compilation leaves it: the job's own snapshot goes into the metadata. */
  function Published(row: Clip, content: Content, profile: Profile, bounds: Bounds): Clip {
    row.(state := Ready, outputAvailable := true,
         metadata := row.metadata.(source := Some(content), profile := Some(profile), bounds := Some(bounds)))
  }

  /** The scan after a compilation: ready exactly when the job worked on what is on disk now, with its timing kept. */
  lemma PublishedThenScanned(start: Pass, disk: Disk, source: Source, id: ClipId, row: Clip, content: Content,
      profile: Profile, bounds: Bounds)
    requires WellFormed(start) && source.profile.Some? && GoodListing(disk, source.files)
    requires id in start.clips && start.clips[id] == Published(row, content, profile, bounds)
    requires row.collection == source.collection && row.path in source.files
    ensures AfterCollection(start, disk, source).Ok? && id in AfterCollection(start, disk, source).value.clips
    ensures var after := AfterCollection(start, disk, source).value.clips[id];
      && (after.state == Ready <==> disk.files[row.path] == content && source.profile.value == profile)
      && (after.state != Ready ==> after.state == Stale)
      && (after.metadata.bounds == Some(bounds) <==>
            bounds.sound && row.output.Some? && row.output.value in disk.outputs &&
              disk.outputs[row.output.value] == bounds.output)
  {
    ReadyIffCurrent(start, disk, source, id);
    RowAtListedFile(start, disk, source, id);
  }

  /** One scan after another: each pass has its own disk and profile. */
  ghost function AfterScans(start: Pass, runs: seq<(Disk, Source)>): Option<Pass> {
    if runs == [] then Some(start) else
      var before, last := AfterScans(start, runs[..|runs| - 1]), runs[|runs| - 1];
      if before.None? then None else
        match AfterCollection(before.value, last.0, last.1) case Ok(pass) => Some(pass) case Err(_) => None
  }

  ghost predicate SameSnapshot(runs: seq<(Disk, Source)>, row: Clip) {
    forall k :: 0 <= k < |runs| ==>
      && runs[k].1.collection == row.collection && runs[k].1.profile.Some? && GoodListing(runs[k].0, runs[k].1.files)
      && row.path in runs[k].1.files && Unmodified(runs[k].0, runs[k].1.profile.value, row.path, row)
  }

  /** A compiled clip stays ready under any number of scans while its file and profile match the compiled snapshot. */
  lemma {:induction false} ReadyStaysReady(start: Pass, runs: seq<(Disk, Source)>, id: ClipId)
    requires WellFormed(start) && id in start.clips && start.clips[id].state == Ready && start.clips[id].outputAvailable
    requires SameSnapshot(runs, start.clips[id])
    ensures AfterScans(start, runs).Some? && WellFormed(AfterScans(start, runs).value)
    ensures var clips := AfterScans(start, runs).value.clips;
      && id in clips && clips[id].state == Ready && clips[id].outputAvailable
      && clips[id].collection == start.clips[id].collection && clips[id].path == start.clips[id].path
      && clips[id].metadata.source == start.clips[id].metadata.source &&
           clips[id].metadata.profile == start.clips[id].metadata.profile
  {
    if runs != [] {
      var front, last := runs[..|runs| - 1], runs[|runs| - 1];
      assert forall k :: 0 <= k < |front| ==> front[k] == runs[k];
      ReadyStaysReady(start, front, id);
      var before := AfterScans(start, front).value;
      assert runs[|runs| - 1] == last;
      CollectionIndexIsExact(before, last.0, last.1);
      ReadyIffCurrent(before, last.0, last.1, id);
    }
  }

  /** The row recorded the content now at `p`, and its own file is gone. */
  predicate LostContent(clips: Clips, disk: Disk, c: CollectionId, p: Path, id: ClipId)
    requires p in disk.files
  {
    && id in clips && clips[id].collection == c && clips[id].path !in disk.files
    && clips[id].metadata.source == Some(disk.files[p])
  }

  /** No other new path shows the content of this one. */
  ghost predicate AloneWithContent(start: Clips, disk: Disk, c: CollectionId, files: seq<Path>, p: Path)
    requires p in disk.files && GoodListing(disk, files)
  {
    forall q ::
      q in files && q != p && (forall id :: id in start && start[id].collection == c ==> start[id].path != q) ==>
      disk.files[q] != disk.files[p]
  }

  /** One row, and only one, lost the content. */
  ghost predicate OneLostContent(clips: Clips, disk: Disk, c: CollectionId, p: Path)
    requires p in disk.files
  {
    exists one :: LostContent(clips, disk, c, p, one) &&
      forall other :: LostContent(clips, disk, c, p, other) ==> other == one
  }

  lemma OneLostIsOneMissing(clips: Clips, disk: Disk, c: CollectionId, p: Path)
    requires p in disk.files
    ensures OneLostContent(clips, disk, c, p) <==> |MissingRows(clips, disk, c, disk.files[p])| == 1
  {
    var missing := MissingRows(clips, disk, c, disk.files[p]);
    assert forall id :: id in missing <==> LostContent(clips, disk, c, p, id);
    if |missing| == 1 {
      var one := Chosen(missing);
      forall other | LostContent(clips, disk, c, p, other) ensures other == one {
        SingletonElement(missing, other, one);
      }
      assert LostContent(clips, disk, c, p, one);
    } else if OneLostContent(clips, disk, c, p) {
      var one :| LostContent(clips, disk, c, p, one) &&
        forall other :: LostContent(clips, disk, c, p, other) ==> other == one;
      forall id | id in missing ensures id == one {
        assert LostContent(clips, disk, c, p, id);
      }
      OnlyElement(missing, one);
    }
  }

  /**
   A new file takes over an old row exactly when one row, and only one, lost the file's content; it is that row, with
   its id and its output. Otherwise the file gets a new row.
   */
  lemma MovedFileKeepsItsIdIff(start: Pass, disk: Disk, source: Source, p: Path)
    requires WellFormed(start) && source.profile.Some? && GoodListing(disk, source.files) && p in source.files
    requires forall id :: id in start.clips && start.clips[id].collection == source.collection ==>
      start.clips[id].path != p
    requires AloneWithContent(start.clips, disk, source.collection, source.files, p)
    ensures AfterCollection(start, disk, source).Ok?
    ensures var c, after := source.collection, AfterCollection(start, disk, source).value.clips;
      && (exists id :: At(after, c, p, id))
      && forall id :: At(after, c, p, id) ==>
           && (id in start.clips <==> OneLostContent(start.clips, disk, c, p))
           && (id in start.clips ==> LostContent(start.clips, disk, c, p, id) && Kept(start.clips[id], after[id]))
  {
    var c, profile, files := source.collection, source.profile.value, source.files;
    CollectionIndexIsExact(start, disk, source);
    assert forall id :: id !in RowsAt(start.clips, c, p);
    MoveIsInferred(start, disk, c, profile, files, p);
    OneLostIsOneMissing(start.clips, disk, c, p);
    var walked, after := AfterFiles(start, disk, c, profile, files).value, AfterCollection(start, disk, source).value;
    assert LiveAt(after.clips, c, p);
    assert forall id :: At(after.clips, c, p, id) ==> At(walked.clips, c, p, id);
  }

  /** Another file's write leaves the rows that lost the content, and the path, as they were. */
  lemma OtherWriteKeepsMissing(now: Pass, disk: Disk, c: CollectionId, profile: Profile, other: Path, p: Path)
    requires WellFormed(now) && other in disk.files && p in disk.files && other != p && RowsAt(now.clips, c, p) == {}
    requires RowsAt(now.clips, c, other) == {} ==> disk.files[other] != disk.files[p]
    ensures var after := AfterFile(now, disk, c, profile, other).clips;
      MissingRows(after, disk, c, disk.files[p]) == MissingRows(now.clips, disk, c, disk.files[p]) &&
      RowsAt(after, c, p) == {}
  {
    FileWritesOneRow(now, disk, c, profile, other);
  }

  /** The write for the file itself: the one row that lost its content, or a new one. */
  lemma FileTakesOver(now: Pass, disk: Disk, c: CollectionId, profile: Profile, p: Path)
    requires WellFormed(now) && p in disk.files && RowsAt(now.clips, c, p) == {}
    ensures var missing := MissingRows(now.clips, disk, c, disk.files[p]);
      forall id :: At(AfterFile(now, disk, c, profile, p).clips, c, p, id) ==>
        if |missing| == 1 then id in missing else id == now.nextId
  {
    var missing, after := MissingRows(now.clips, disk, c, disk.files[p]), AfterFile(now, disk, c, profile, p).clips;
    forall id | At(after, c, p, id) ensures if |missing| == 1 then id in missing else id == now.nextId {
      assert id != Target(now, disk, c, p) ==> id in RowsAt(now.clips, c, p);
    }
  }

  /** The write for another file leaves the rows at a path with a file alone. */
  lemma OtherWriteKeepsPath(now: Pass, disk: Disk, c: CollectionId, profile: Profile, other: Path, p: Path)
    requires WellFormed(now) && other in disk.files && p in disk.files && other != p
    ensures forall id :: At(AfterFile(now, disk, c, profile, other).clips, c, p, id) ==> At(now.clips, c, p, id)
  {
    FileWritesOneRow(now, disk, c, profile, other);
  }

  lemma NewPathIsAlone(start: Pass, now: Pass, disk: Disk, c: CollectionId, profile: Profile, done: seq<Path>,
      files: seq<Path>, other: Path, p: Path)
    requires Walked(start, now, disk, c, profile, done) && GoodListing(disk, files) && other in files && other != p
    requires p in disk.files && AloneWithContent(start.clips, disk, c, files, p) && other !in done
    ensures RowsAt(now.clips, c, other) == {} ==> disk.files[other] != disk.files[p]
  {
    if RowsAt(now.clips, c, other) == {} {
      forall id | id in start.clips && start.clips[id].collection == c ensures start.clips[id].path != other {
        assert id !in RowsAt(now.clips, c, other);
      }
    }
  }

  lemma {:induction false} MoveIsInferred(start: Pass, disk: Disk, c: CollectionId, profile: Profile, files: seq<Path>,
      p: Path)
    requires WellFormed(start) && GoodListing(disk, files) && p in disk.files && RowsAt(start.clips, c, p) == {}
    requires AloneWithContent(start.clips, disk, c, files, p)
    ensures AfterFiles(start, disk, c, profile, files).Some?
    ensures var now := AfterFiles(start, disk, c, profile, files).value;
      var missing := MissingRows(start.clips, disk, c, disk.files[p]);
      if p !in files then MissingRows(now.clips, disk, c, disk.files[p]) == missing && RowsAt(now.clips, c, p) == {}
      else forall id :: At(now.clips, c, p, id) ==> if |missing| == 1 then id in missing else id !in start.clips
  {
    if files != [] {
      var front, last := files[..|files| - 1], files[|files| - 1];
      assert last in files && last !in front && forall q :: q in front ==> q in files;
      assert forall q :: q in files ==> q in front || q == last;
      WalkIndexes(start, disk, c, profile, front);
      MoveIsInferred(start, disk, c, profile, front, p);
      var now := AfterFiles(start, disk, c, profile, front).value;
      if last == p {
        FileTakesOver(now, disk, c, profile, p);
      } else if p in front {
        OtherWriteKeepsPath(now, disk, c, profile, last, p);
      } else {
        NewPathIsAlone(start, now, disk, c, profile, front, files, last, p);
        OtherWriteKeepsMissing(now, disk, c, profile, last, p);
      }
    }
  }

  // ---------- All collections, and scanning again ----------

  ghost predicate GoodSources(disk: Disk, sources: seq<Source>) {
    && (forall s :: s in sources ==> s.profile.Some? && GoodListing(disk, s.files))
    && forall i, k :: 0 <= i < k < |sources| ==> sources[i].collection != sources[k].collection
  }

  function FileCount(sources: seq<Source>): nat {
    if sources == [] then 0 else FileCount(sources[..|sources| - 1]) + |sources[|sources| - 1].files|
  }

  ghost predicate ScannedOnce(clips: Clips, disk: Disk, s: Source)
    requires s.profile.Some? && GoodListing(disk, s.files)
  {
    ExactIndex(clips, s.collection, s.files) &&
      forall p :: p in s.files ==> Indexed(clips, disk, s.collection, s.profile.value, p)
  }

  lemma ScannedOnceIsLocal(before: Pass, after: Pass, disk: Disk, s: Source)
    requires s.profile.Some? && GoodListing(disk, s.files) && ScannedOnce(before.clips, disk, s) && WellFormed(after)
    requires forall id ::
      id in before.clips && before.clips[id].collection == s.collection ==>
        id in after.clips && after.clips[id] == before.clips[id]
    requires forall id :: id in after.clips && after.clips[id].collection == s.collection ==> id in before.clips
    requires forall id ::
      id in before.clips && id in after.clips ==> after.clips[id].collection == before.clips[id].collection
    ensures ScannedOnce(after.clips, disk, s)
  {
  }

  ghost predicate Selected(sources: seq<Source>, c: CollectionId) {
    exists s :: s in sources && s.collection == c
  }

  /** Rows and outputs survive, unselected collections stand still, and every file is counted once. */
  lemma {:induction false} ScanKeepsRows(start: Pass, disk: Disk, sources: seq<Source>)
    requires WellFormed(start) && GoodSources(disk, sources)
    ensures AfterScan(start, disk, sources).Ok?
    ensures var after := AfterScan(start, disk, sources).value;
      && WellFormed(after)
      && (forall id :: id in start.clips ==> id in after.clips && Kept(start.clips[id], after.clips[id]))
      && (forall id ::
          id in start.clips && !Selected(sources, start.clips[id].collection) ==> after.clips[id] == start.clips[id])
      && (forall id :: id in after.clips && id !in start.clips ==> Selected(sources, after.clips[id].collection))
      && after.tally.added + after.tally.modified + after.tally.same
         == start.tally.added + start.tally.modified + start.tally.same + FileCount(sources)
  {
    if sources != [] {
      var front, last := sources[..|sources| - 1], sources[|sources| - 1];
      assert last in sources && forall s :: s in front ==> s in sources;
      ScanKeepsRows(start, disk, front);
      CollectionIndexIsExact(AfterScan(start, disk, front).value, disk, last);
      NewRowsAreLocal(AfterScan(start, disk, front).value, disk, last);
    }
  }

  /** The catalog is an exact index of the disk for every scanned collection. */
  lemma {:induction false} ScanIndexIsExact(start: Pass, disk: Disk, sources: seq<Source>)
    requires WellFormed(start) && GoodSources(disk, sources)
    ensures AfterScan(start, disk, sources).Ok? && WellFormed(AfterScan(start, disk, sources).value)
    ensures forall s :: s in sources ==> ScannedOnce(AfterScan(start, disk, sources).value.clips, disk, s)
  {
    ScanKeepsRows(start, disk, sources);
    if sources != [] {
      var front, last := sources[..|sources| - 1], sources[|sources| - 1];
      assert last in sources && forall s :: s in front ==> s in sources;
      ScanIndexIsExact(start, disk, front);
      var before, after := AfterScan(start, disk, front).value, AfterScan(start, disk, sources).value;
      CollectionIndexIsExact(before, disk, last);
      NewRowsAreLocal(before, disk, last);
      forall s | s in sources ensures ScannedOnce(after.clips, disk, s) {
        if s != last {
          var k :| 0 <= k < |sources| && sources[k] == s;
          assert s == front[k] && s.collection != last.collection;
          ScannedOnceIsLocal(before, after, disk, s);
        }
      }
    }
  }

  lemma NewRowsAreLocal(start: Pass, disk: Disk, source: Source)
    requires WellFormed(start) && source.profile.Some? && GoodListing(disk, source.files)
    ensures AfterCollection(start, disk, source).Ok?
    ensures forall id :: id in AfterCollection(start, disk, source).value.clips && id !in start.clips ==>
              AfterCollection(start, disk, source).value.clips[id].collection == source.collection
  {
    WalkIndexes(start, disk, source.collection, source.profile.value, source.files);
  }

  lemma {:induction false} SettledFilesAreSkipped(start: Pass, disk: Disk, c: CollectionId, profile: Profile,
      files: seq<Path>)
    requires WellFormed(start) &&
      forall p :: p in files ==> p in disk.files && Indexed(start.clips, disk, c, profile, p)
    ensures AfterFiles(start, disk, c, profile, files).Some?
    ensures var now := AfterFiles(start, disk, c, profile, files).value;
      && now.clips == start.clips && now.nextId == start.nextId
      && now.tally == start.tally.(same := start.tally.same + |files|, invalid := now.tally.invalid)
  {
    if files != [] {
      var front, last := files[..|files| - 1], files[|files| - 1];
      assert last in files && forall p :: p in front ==> p in files;
      SettledFilesAreSkipped(start, disk, c, profile, front);
      var id :| At(start.clips, c, last, id) && Settled(disk, profile, last, start.clips[id]);
      var now := AfterFiles(start, disk, c, profile, front).value;
      assert id in RowsAt(now.clips, c, last);
      FileWritesOneRow(now, disk, c, profile, last);
      RefreshSettles(disk, profile, last, start.clips[id]);
      assert start.clips[id := start.clips[id]] == start.clips;
    }
  }

  lemma SettledCollectionIsSkipped(start: Pass, disk: Disk, source: Source)
    requires WellFormed(start) && source.profile.Some? && GoodListing(disk, source.files) &&
      ScannedOnce(start.clips, disk, source)
    ensures var after := AfterCollection(start, disk, source);
      && after.Ok? && after.value.clips == start.clips && after.value.nextId == start.nextId
      && after.value.tally ==
           start.tally.(same := start.tally.same + |source.files|, invalid := after.value.tally.invalid)
  {
    SettledFilesAreSkipped(start, disk, source.collection, source.profile.value, source.files);
    var gone := Gone(start.clips, source.collection, source.files);
    assert forall id :: id !in gone;
    assert gone == {};
    assert Swept(start.clips, gone) == start.clips;
  }

  /** Rescanning an indexed catalog changes nothing and reports nothing but unchanged files. */
  lemma {:induction false} RescanIsFixpoint(start: Pass, disk: Disk, sources: seq<Source>)
    requires WellFormed(start) && GoodSources(disk, sources)
    requires forall s :: s in sources ==> ScannedOnce(start.clips, disk, s)
    ensures AfterScan(start, disk, sources).Ok?
    ensures var after := AfterScan(start, disk, sources).value;
      && after.clips == start.clips && after.nextId == start.nextId
      && after.tally == start.tally.(same := start.tally.same + FileCount(sources), invalid := after.tally.invalid)
  {
    if sources != [] {
      var front, last := sources[..|sources| - 1], sources[|sources| - 1];
      assert last in sources && forall s :: s in front ==> s in sources;
      RescanIsFixpoint(start, disk, front);
      SettledCollectionIsSkipped(AfterScan(start, disk, front).value, disk, last);
    }
  }

  /** Two scans in a row: the second is silent. */
  lemma SecondScanIsSilent(start: Pass, disk: Disk, sources: seq<Source>)
    requires WellFormed(start) && GoodSources(disk, sources)
    ensures AfterScan(start, disk, sources).Ok?
    ensures var first := AfterScan(start, disk, sources).value;
      var second := AfterScan(first.(tally := ZERO), disk, sources);
      && second.Ok? && second.value.clips == first.clips && second.value.nextId == first.nextId
      && second.value.tally.added == second.value.tally.modified == second.value.tally.deleted == 0
      && second.value.tally.same == FileCount(sources)
  {
    ScanIndexIsExact(start, disk, sources);
    RescanIsFixpoint(AfterScan(start, disk, sources).value.(tally := ZERO), disk, sources);
  }
}
