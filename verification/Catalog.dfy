/**
 The catalog scan: one pass over the files of each collection that inserts, refreshes or moves
 clip rows, and a sweep that marks the rows whose files are gone.
 */
module Catalog {
  import opened ClipStates
  import opened Wrappers

  type CollectionId = int
  type ClipId = int
  type Path = int

  /** File contents and profile settings stand for their injective fingerprints. */
  type Content = int
  type Profile = int

  datatype OutputPath = OutputPath(collection: CollectionId, clip: ClipId)

  datatype Probe = Probe(valid: bool, duration: int, details: int)

  /** Measured bounds of a compiled file, the fingerprint they belong to, and whether they are sound numbers. */
  datatype Bounds = Bounds(sound: bool, values: int, output: Content)

  datatype Metadata = Metadata(source: Option<Content>, profile: Option<Profile>, details: int, bounds: Option<Bounds>)

  datatype Clip = Clip(
    collection: CollectionId, path: Path, output: Option<OutputPath>, state: ClipState,
    duration: int, outputAvailable: bool, metadata: Metadata)

  type Clips = map<ClipId, Clip>

  /** The disk during a scan: source files, compiled files and what the probe says of a source file. */
  datatype Disk = Disk(files: map<Path, Content>, outputs: map<OutputPath, Content>, probes: map<Path, Probe>)
  {
    function ProbeOf(p: Path): Probe {
      if p in probes then probes[p] else Probe(false, 0, 0)
    }
  }

  /** One enabled collection: its walked files, and its profile fingerprint unless that cannot be computed. */
  datatype Source = Source(collection: CollectionId, files: seq<Path>, profile: Option<Profile>)

  datatype Tally = Tally(added: nat, modified: nat, deleted: nat, invalid: nat, same: nat)

  const ZERO := Tally(0, 0, 0, 0, 0)

  datatype Pass = Pass(clips: Clips, nextId: ClipId, tally: Tally)

  datatype ScanError = ProfileUnavailable | FileUnreadable

  // ---------- One file ----------

  function RowsAt(clips: Clips, c: CollectionId, p: Path): set<ClipId> {
    set id | id in clips && clips[id].collection == c && clips[id].path == p
  }

  /** Rows of the collection with this content whose old file is gone. */
  function MissingRows(clips: Clips, disk: Disk, c: CollectionId, content: Content): set<ClipId> {
    set id | id in clips && clips[id].collection == c && clips[id].metadata.source == Some(content) &&
      clips[id].path !in disk.files
  }

  /** The clip row a file belongs to: the row at its path, else the one row it must have moved from, else a new row. */
  ghost function Target(pass: Pass, disk: Disk, c: CollectionId, p: Path): ClipId
    requires p in disk.files
  {
    var here, missing := RowsAt(pass.clips, c, p), MissingRows(pass.clips, disk, c, disk.files[p]);
    if here != {} then Chosen(here) else if |missing| == 1 then Chosen(missing) else pass.nextId
  }

  /** What the scan knows of a file by itself; everything else in the metadata is rebuilt from scratch. */
  function Scanned(disk: Disk, profile: Profile, p: Path): Metadata
    requires p in disk.files
  {
    Metadata(Some(disk.files[p]), Some(profile), disk.ProbeOf(p).details, None)
  }

  /** A rebuilt row inherits its timing when the output on disk is the one the timing was taken from. */
  function Retained(disk: Disk, scanned: Metadata, row: Clip): Metadata {
    if row.outputAvailable && row.output.Some? && row.metadata.bounds.Some? && row.metadata.bounds.value.sound
       && row.output.value in disk.outputs && disk.outputs[row.output.value] == row.metadata.bounds.value.output
    then scanned.(bounds := row.metadata.bounds) else scanned
  }

  function StateOf(probe: Probe): ClipState {
    if probe.valid then Discovered else Invalid
  }

  predicate Unmodified(disk: Disk, profile: Profile, p: Path, row: Clip)
    requires p in disk.files
  {
    row.metadata.source == Some(disk.files[p]) && row.metadata.profile == Some(profile)
  }

  /** The row at a path after its file was seen again. */
  function Refreshed(disk: Disk, profile: Profile, p: Path, row: Clip): Clip
    requires p in disk.files
  {
    var probe := disk.ProbeOf(p);
    var state :=
      if !Unmodified(disk, profile, p, row) then if row.outputAvailable then Stale else StateOf(probe)
      else if row.state != Deleted then row.state
      else if row.outputAvailable && probe.valid then Ready else StateOf(probe);
    row.(state := state, duration := probe.duration, metadata := Retained(disk, Scanned(disk, profile, p), row))
  }

  function Moved(disk: Disk, profile: Profile, p: Path, row: Clip): Clip
    requires p in disk.files
  {
    row.(path := p, state := StateOf(disk.ProbeOf(p)), duration := disk.ProbeOf(p).duration,
         metadata := Retained(disk, Scanned(disk, profile, p), row))
  }

  function Inserted(disk: Disk, c: CollectionId, profile: Profile, p: Path, id: ClipId): Clip
    requires p in disk.files
  {
    Clip(c, p, Some(OutputPath(c, id)), StateOf(disk.ProbeOf(p)), disk.ProbeOf(p).duration, false,
      Scanned(disk, profile, p))
  }

  ghost function Row(pass: Pass, disk: Disk, c: CollectionId, profile: Profile, p: Path): Clip
    requires p in disk.files
  {
    var id := Target(pass, disk, c, p);
    if RowsAt(pass.clips, c, p) != {} && id in pass.clips then Refreshed(disk, profile, p, pass.clips[id])
    else if |MissingRows(pass.clips, disk, c, disk.files[p])| == 1 && id in pass.clips
      then Moved(disk, profile, p, pass.clips[id])
    else Inserted(disk, c, profile, p, id)
  }

  ghost function Counted(pass: Pass, disk: Disk, c: CollectionId, profile: Profile, p: Path): Tally
    requires p in disk.files
  {
    var here, id := RowsAt(pass.clips, c, p), Target(pass, disk, c, p);
    var t := if disk.ProbeOf(p).valid then pass.tally else pass.tally.(invalid := pass.tally.invalid + 1);
    if here == {} then
      if |MissingRows(pass.clips, disk, c, disk.files[p])| == 1 then t.(modified := t.modified + 1)
        else t.(added := t.added + 1)
    else if id in pass.clips && Unmodified(disk, profile, p, pass.clips[id]) && pass.clips[id].state != Deleted
    then t.(same := t.same + 1) else t.(modified := t.modified + 1)
  }

  ghost function AfterFile(pass: Pass, disk: Disk, c: CollectionId, profile: Profile, p: Path): Pass
    requires p in disk.files
  {
    var id := Target(pass, disk, c, p);
    Pass(pass.clips[id := Row(pass, disk, c, profile, p)],
         if id == pass.nextId then pass.nextId + 1 else pass.nextId,
         Counted(pass, disk, c, profile, p))
  }

  // ---------- One collection, and all of them ----------

  ghost function AfterFiles(pass: Pass, disk: Disk, c: CollectionId, profile: Profile, files: seq<Path>): Option<Pass> {
    if files == [] then Some(pass) else
      var before, last := AfterFiles(pass, disk, c, profile, files[..|files| - 1]), files[|files| - 1];
      if before.None? || last !in disk.files then None else Some(AfterFile(before.value, disk, c, profile, last))
  }

  function Gone(clips: Clips, c: CollectionId, files: seq<Path>): set<ClipId> {
    set id | id in clips && clips[id].collection == c && clips[id].path !in files && clips[id].state != Deleted
  }

  function Swept(clips: Clips, gone: set<ClipId>): Clips {
    map id | id in clips :: if id in gone then clips[id].(state := Deleted) else clips[id]
  }

  ghost function AfterCollection(pass: Pass, disk: Disk, source: Source): Result<Pass, ScanError> {
    if source.profile.None? then Err(ProfileUnavailable) else
      var walked := AfterFiles(pass, disk, source.collection, source.profile.value, source.files);
      if walked.None? then Err(FileUnreadable) else
        var gone := Gone(walked.value.clips, source.collection, source.files);
        Ok(walked.value.(clips := Swept(walked.value.clips, gone),
                         tally := walked.value.tally.(deleted := walked.value.tally.deleted + |gone|)))
  }

  ghost function AfterScan(pass: Pass, disk: Disk, sources: seq<Source>): Result<Pass, ScanError> {
    if sources == [] then Ok(pass) else
      var before := AfterScan(pass, disk, sources[..|sources| - 1]);
      if before.Err? then before else AfterCollection(before.value, disk, sources[|sources| - 1])
  }

  // ---------- Well-formed catalogs ----------

  ghost predicate PathUnique(clips: Clips) {
    forall a, b ::
      a in clips && b in clips && clips[a].collection == clips[b].collection &&
      clips[a].path == clips[b].path ==>
        a == b
  }

  ghost predicate WellFormed(pass: Pass) {
    PathUnique(pass.clips) && forall id :: id in pass.clips ==> id < pass.nextId
  }

  /** The service object; a scan is one transaction, so an error restores the rows it started from. */
  class CatalogService {
    var clips: Clips
    var nextId: ClipId

    ghost predicate Valid()
      reads this
    {
      WellFormed(Pass(clips, nextId, ZERO))
    }

    method ScanFile(disk: Disk, c: CollectionId, profile: Profile, p: Path, tally: Tally) returns (after: Tally)
      requires Valid() && p in disk.files
      modifies this
      ensures Pass(clips, nextId, after) == AfterFile(Pass(old(clips), old(nextId), tally), disk, c, profile, p)
    {
      ghost var start := Pass(clips, nextId, tally);
      var probe := disk.ProbeOf(p);
      after := if probe.valid then tally else tally.(invalid := tally.invalid + 1);
      var here := RowsAt(clips, c, p);
      if here == {} {
        var missing := MissingRows(clips, disk, c, disk.files[p]);
        if |missing| == 1 {
          var id := AnyOf(missing);
          SingletonElement(missing, id, Target(start, disk, c, p));
          clips := clips[id := Moved(disk, profile, p, clips[id])];
          after := after.(modified := after.modified + 1);
        } else {
          clips := clips[nextId := Inserted(disk, c, profile, p, nextId)];
          nextId := nextId + 1;
          after := after.(added := after.added + 1);
        }
      } else {
        var id := AnyOf(here);
        assert id == Target(start, disk, c, p);
        var row := clips[id];
        if Unmodified(disk, profile, p, row) && row.state != Deleted {
          after := after.(same := after.same + 1);
        } else {
          after := after.(modified := after.modified + 1);
        }
        clips := clips[id := Refreshed(disk, profile, p, row)];
      }
    }

    /** Missing files keep their rows and outputs; only the state changes. */
    method Sweep(gone: set<ClipId>)
      requires gone <= clips.Keys
      modifies this
      ensures clips == Swept(old(clips), gone) && nextId == old(nextId)
    {
      var rest := gone;
      assert Swept(clips, {}) == clips;
      while rest != {}
        invariant rest <= gone && clips == Swept(old(clips), gone - rest) && nextId == old(nextId)
        decreases rest
      {
        var id := AnyOf(rest);
        rest := rest - {id};
        clips := clips[id := clips[id].(state := Deleted)];
        assert clips == Swept(old(clips), gone - rest);
      }
      assert gone - rest == gone;
    }

    /** The walk over one collection's files, then the sweep over its remaining rows. */
    method ScanCollection(disk: Disk, source: Source, tally: Tally) returns (after: Result<Tally, ScanError>)
      requires Valid()
      modifies this
      ensures var spec := AfterCollection(Pass(old(clips), old(nextId), tally), disk, source);
        if spec.Ok? then after.Ok? && Pass(clips, nextId, after.value) == spec.value else after == Err(spec.error)
      ensures after.Ok? ==> Valid()
    {
      if source.profile.None? {
        return Err(ProfileUnavailable);
      }
      ghost var start := Pass(clips, nextId, tally);
      var c, profile, t := source.collection, source.profile.value, tally;
      for k := 0 to |source.files|
        invariant AfterFiles(start, disk, c, profile, source.files[..k]) == Some(Pass(clips, nextId, t))
        invariant Valid()
      {
        var p := source.files[k];
        assert source.files[..k + 1][..k] == source.files[..k];
        if p !in disk.files {
          WalkStaysBroken(start, disk, c, profile, source.files, k + 1);
          return Err(FileUnreadable);
        }
        FileKeepsWellFormed(Pass(clips, nextId, t), disk, c, profile, p);
        t := ScanFile(disk, c, profile, p, t);
      }
      assert source.files[..|source.files|] == source.files;
      var gone := Gone(clips, c, source.files);
      Sweep(gone);
      after := Ok(t.(deleted := t.deleted + |gone|));
    }

    /** `scan` of the selected collections: all of them, or none of the rows change. */
    method Scan(disk: Disk, sources: seq<Source>) returns (summary: Result<Tally, ScanError>)
      requires Valid()
      modifies this
      ensures Valid()
      ensures var spec := AfterScan(Pass(old(clips), old(nextId), ZERO), disk, sources);
        if spec.Ok? then summary == Ok(spec.value.tally) && clips == spec.value.clips && nextId == spec.value.nextId
        else summary == Err(spec.error) && clips == old(clips) && nextId == old(nextId)
    {
      ghost var start := Pass(clips, nextId, ZERO);
      var clipsBefore, nextBefore, t := clips, nextId, ZERO;
      for k := 0 to |sources|
        invariant AfterScan(start, disk, sources[..k]) == Ok(Pass(clips, nextId, t))
        invariant Valid() && clipsBefore == old(clips) && nextBefore == old(nextId)
      {
        assert sources[..k + 1][..k] == sources[..k];
        var one := ScanCollection(disk, sources[k], t);
        if one.Err? {
          ScanStaysFailed(start, disk, sources, k + 1);
          clips, nextId := clipsBefore, nextBefore;
          return Err(one.error);
        }
        t := one.value;
      }
      assert sources[..|sources|] == sources;
      summary := Ok(t);
    }
  }

  lemma {:induction false} WalkStaysBroken(pass: Pass, disk: Disk, c: CollectionId, profile: Profile, files: seq<Path>,
      k: nat)
    requires k <= |files| && AfterFiles(pass, disk, c, profile, files[..k]).None?
    ensures AfterFiles(pass, disk, c, profile, files).None?
    decreases |files| - k
  {
    if k == |files| {
      assert files[..k] == files;
    } else {
      assert files[..k + 1][..k] == files[..k];
      WalkStaysBroken(pass, disk, c, profile, files, k + 1);
    }
  }

  lemma {:induction false} ScanStaysFailed(pass: Pass, disk: Disk, sources: seq<Source>, k: nat)
    requires k <= |sources| && AfterScan(pass, disk, sources[..k]).Err?
    ensures AfterScan(pass, disk, sources) == AfterScan(pass, disk, sources[..k])
    decreases |sources| - k
  {
    if k == |sources| {
      assert sources[..k] == sources;
    } else {
      assert sources[..k + 1][..k] == sources[..k];
      ScanStaysFailed(pass, disk, sources, k + 1);
    }
  }

  /** One file is one row written: the row at its path, a row whose file is gone, or a new one. */
  lemma FileWritesOneRow(pass: Pass, disk: Disk, c: CollectionId, profile: Profile, p: Path)
    requires WellFormed(pass) && p in disk.files
    ensures var id, row := Target(pass, disk, c, p), Row(pass, disk, c, profile, p);
      && row.collection == c && row.path == p && row.state != Deleted
      && (id in pass.clips ==>
            && pass.clips[id].collection == c && (pass.clips[id].path == p || pass.clips[id].path !in disk.files)
            && row.output == pass.clips[id].output && row.outputAvailable == pass.clips[id].outputAvailable)
      && (id !in pass.clips ==> id == pass.nextId)
      && (forall other :: other in RowsAt(pass.clips, c, p) ==> other == id)
  {
  }

  lemma FileKeepsWellFormed(pass: Pass, disk: Disk, c: CollectionId, profile: Profile, p: Path)
    requires WellFormed(pass) && p in disk.files
    ensures WellFormed(AfterFile(pass, disk, c, profile, p))
  {
    FileWritesOneRow(pass, disk, c, profile, p);
    var id, after := Target(pass, disk, c, p), AfterFile(pass, disk, c, profile, p).clips;
    forall a | a in after && after[a].collection == c && after[a].path == p ensures a == id {
      assert a != id ==> a in RowsAt(pass.clips, c, p);
    }
  }
}
