/**
 The library manager's lifecycle operations on a clip's files: trash, restore and permanent
 deletion. Each records its intent first, moves every selected file, and commits last.
 */
module Library {
  import opened ClipStates
  import opened Moves
  import opened Wrappers

  type ClipId = int
  type RecordId = int

  datatype Target = SourceOnly | OutputOnly | Both

  datatype ClipRow = ClipRow(source: int, output: Option<int>, state: ClipState, outputAvailable: bool)

  datatype TrashStatus = PendingTrash | ActiveTrash | FailedTrash | Restored

  /** Original locations of what was trashed; the trash location of a part follows from the record id. */
  datatype TrashRecord = TrashRecord(clip: ClipId, source: Option<int>, output: Option<int>, status: TrashStatus)

  datatype RequestStatus = PendingDelete | FailedDelete | StagedDelete | Completed | CompletedWithResidue

  datatype World = World(
    files: Files, clips: map<ClipId, ClipRow>, trash: map<RecordId, TrashRecord>,
    requests: map<RecordId, RequestStatus>, nextId: RecordId)

  datatype LibraryError =
    | KeyError | Unavailable | BadConfirmation | NotRecorded | RolledBack | CompensationFailed | CommitFailed

  /** Every failure point of one operation: recording and auditing the intent, each move, the commit, each undo, each
      unlink. */
  datatype Faults = Faults(records: bool, audits: bool, moves: seq<Fault>, commits: bool, undo: seq<Fault>,
    unlinks: seq<bool>)

  // ---------- What an operation selects ----------

  predicate WantsSource(target: Target) {
    target != OutputOnly
  }

  predicate WantsOutput(target: Target) {
    target != SourceOnly
  }

  /** `_source_path` and `_output_path` raise unless the selected files are there. */
  predicate Selectable(w: World, row: ClipRow, target: Target) {
    && (WantsSource(target) ==> Source(row.source) in w.files)
    && (WantsOutput(target) ==> row.outputAvailable && row.output.Some? && Compiled(row.output.value) in w.files)
  }

  function Plan(source: Option<int>, output: Option<int>, id: RecordId, staging: bool): seq<Move> {
    (if source.Some?
     then [Move(Source(source.value), if staging then Staged(id, SourceFile) else InTrash(id, SourceFile))]
     else []) +
    (if output.Some?
     then [Move(Compiled(output.value), if staging then Staged(id, OutputFile) else InTrash(id, OutputFile))]
     else [])
  }

  function SourceOf(row: ClipRow, target: Target): Option<int> {
    if WantsSource(target) then Some(row.source) else None
  }

  function OutputOf(row: ClipRow, target: Target): Option<int> {
    if WantsOutput(target) then row.output else None
  }

  lemma PlanIsDisjoint(source: Option<int>, output: Option<int>, id: RecordId, staging: bool)
    ensures Disjoint(Plan(source, output, id, staging)) && Disjoint(Reversed(Plan(source, output, id, staging)))
  {
  }

  // ---------- What an operation does ----------

  function TrashedRow(row: ClipRow, target: Target): ClipRow {
    row.(state := if WantsSource(target) then Deleted else row.state,
         outputAvailable := row.outputAvailable && !WantsOutput(target))
  }

  function RestoredRow(row: ClipRow, record: TrashRecord): ClipRow {
    var available := row.outputAvailable || record.output.Some?;
    row.(state := if available then Ready else Discovered, outputAvailable := available)
  }

  /** What is raised: the original error, or that the compensation failed as well. */
  function FailureOf(t: Transfer): LibraryError {
    if t.undone then RolledBack else CompensationFailed
  }

  function AfterTrash(w: World, clip: ClipId, target: Target, f: Faults): (World, Result<RecordId, LibraryError>) {
    if clip !in w.clips then (w, Err(KeyError)) else
    if !Selectable(w, w.clips[clip], target) then (w, Err(Unavailable)) else
    if !f.records then (w, Err(NotRecorded)) else
    AfterTrashing(w, clip, target, TrashPlan(w, clip, target), f)
  }

  /** The moves of a trash, into the directory of the next record. */
  function TrashPlan(w: World, clip: ClipId, target: Target): seq<Move>
    requires clip in w.clips
  {
    Plan(SourceOf(w.clips[clip], target), OutputOf(w.clips[clip], target), w.nextId, false)
  }

  function AfterTrashing(w: World, clip: ClipId, target: Target, plan: seq<Move>, f: Faults):
      (World, Result<RecordId, LibraryError>)
    requires clip in w.clips
  {
    var row, id := w.clips[clip], w.nextId;
    var record := TrashRecord(clip, SourceOf(row, target), OutputOf(row, target), FailedTrash);
    if !f.audits then (w.(trash := w.trash[id := record], nextId := id + 1), Err(NotRecorded)) else
    var t := Transferred(w.files, plan, f.moves, f.commits, f.undo);
    if t.ok then
      (w.(files := t.files, clips := w.clips[clip := TrashedRow(row, target)],
          trash := w.trash[id := record.(status := ActiveTrash)], nextId := id + 1), Ok(id))
    else (w.(files := t.files, trash := w.trash[id := record], nextId := id + 1), Err(FailureOf(t)))
  }

  /** Active, not restored, and its clip row still exists. */
  predicate Restorable(w: World, id: RecordId) {
    id in w.trash && w.trash[id].status == ActiveTrash && w.trash[id].clip in w.clips
  }

  function RestorePlan(record: TrashRecord, id: RecordId): seq<Move> {
    Reversed(Plan(record.source, record.output, id, false))
  }

  function AfterRestore(w: World, id: RecordId, f: Faults): (World, Result<ClipRow, LibraryError>) {
    if !Restorable(w, id) then (w, Err(KeyError)) else
    var record := w.trash[id];
    var back := RestorePlan(record, id);
    if exists m :: m in back && m.from !in w.files then (w, Err(Unavailable)) else
    if !f.audits then (w, Err(RolledBack)) else
    var t := Transferred(w.files, back, f.moves, f.commits, f.undo);
    if t.ok then
      var row := RestoredRow(w.clips[record.clip], record);
      (w.(files := t.files, clips := w.clips[record.clip := row], trash := w.trash[id := record.(status := Restored)]),
        Ok(row))
    else (w.(files := t.files), Err(FailureOf(t)))
  }

  function Unlinked(files: Files, plan: seq<Move>, unlinks: seq<bool>): Files {
    if plan == [] then files else
      var k := |plan| - 1;
      var before := Unlinked(files, plan[..k], unlinks);
      if k < |unlinks| && !unlinks[k] then before else before - {plan[k].to}
  }

  predicate LeavesResidue(plan: seq<Move>, unlinks: seq<bool>) {
    exists k :: 0 <= k < |plan| && k < |unlinks| && !unlinks[k]
  }

  function AfterDelete(w: World, clip: ClipId, target: Target, confirmed: bool, f: Faults):
      (World, Result<RequestStatus, LibraryError>) {
    if !confirmed then (w, Err(BadConfirmation)) else
    if clip !in w.clips then (w, Err(KeyError)) else
    if !Selectable(w, w.clips[clip], target) then (w, Err(Unavailable)) else
    if !f.records then (w, Err(NotRecorded)) else
    AfterStaging(w, clip, target, StagePlan(w, clip, target), f)
  }

  /** The moves of a permanent deletion, into its own staging directory. */
  function StagePlan(w: World, clip: ClipId, target: Target): seq<Move>
    requires clip in w.clips
  {
    Plan(SourceOf(w.clips[clip], target), OutputOf(w.clips[clip], target), w.nextId, true)
  }

  function AfterStaging(w: World, clip: ClipId, target: Target, plan: seq<Move>, f: Faults):
      (World, Result<RequestStatus, LibraryError>)
    requires clip in w.clips
  {
    var id := w.nextId;
    if !f.audits then (w.(requests := w.requests[id := FailedDelete], nextId := id + 1), Err(NotRecorded)) else
    var t := Transferred(w.files, plan, f.moves, true, f.undo);
    if !t.ok then
      (w.(files := t.files, requests := w.requests[id := FailedDelete], nextId := id + 1), Err(FailureOf(t)))
    else if !f.commits then
      (w.(files := t.files, requests := w.requests[id := PendingDelete], nextId := id + 1), Err(CommitFailed))
    else
    var status := if LeavesResidue(plan, f.unlinks) then CompletedWithResidue else Completed;
    (w.(files := Unlinked(t.files, plan, f.unlinks), clips := w.clips[clip := TrashedRow(w.clips[clip], target)],
        requests := w.requests[id := status], nextId := id + 1), Ok(status))
  }

  // ---------- The manager object ----------

  class LibraryManager {
    var files: Files
    var clips: map<ClipId, ClipRow>
    var trash: map<RecordId, TrashRecord>
    var requests: map<RecordId, RequestStatus>
    var nextId: RecordId

    ghost function Contents(): World
      reads this
    {
      World(files, clips, trash, requests, nextId)
    }

    method MoveExact(m: Move, fault: Fault) returns (done: bool)
      modifies this`files
      ensures Step(files, done) == Moved(old(files), m, fault)
    {
      if m.to in files || fault == NoDirectory {
        return false;
      }
      if m.from !in files {
        return false;
      }
      if fault.CopyFails? {
        if fault.partial.Some? { files := files[m.to := fault.partial.value]; }
        return false;
      }
      files := files[m.to := files[m.from]];
      if fault == UnlinkFails {
        return false;
      }
      files := files - {m.from};
      done := true;
    }

    /** Reverses the exact files that moved, last first, and keeps going after a failure. */
    method CompensateMoves(moves: seq<Move>, undo: seq<Fault>) returns (undone: bool)
      modifies this`files
      ensures Step(files, undone) == Compensated(old(files), moves, undo)
    {
      undone := true;
      var k := |moves|;
      assert moves[..k] == moves;
      while k > 0
        invariant 0 <= k <= |moves|
        invariant Compensated(old(files), moves, undo) ==
          var rest := Compensated(files, moves[..k], undo); Step(rest.files, rest.done && undone)
      {
        k := k - 1;
        assert moves[..k + 1][..k] == moves[..k];
        var done := MoveExact(Back(moves[k]), FaultAt(undo, k));
        undone := undone && done;
      }
    }

    /** Moves the selected files one after the other and commits; what moved is taken back when anything fails. */
    method MoveAll(plan: seq<Move>, faults: seq<Fault>, commits: bool, undo: seq<Fault>)
        returns (ok: bool, undone: bool)
      modifies this`files
      ensures var t := Transferred(old(files), plan, faults, commits, undo);
        files == t.files && ok == t.ok && undone == t.undone
    {
      ContinuedIsTransferred(files, [], plan, faults, commits, undo);
      assert From(faults, 0) == faults && From(undo, 0) == undo;
      ghost var goal := Continued(files, [], plan, faults, commits, undo);
      var moves: seq<Move> := [];
      ok, undone := true, true;
      for k := 0 to |plan|
        invariant moves == plan[..k] && ok && undone
        invariant Continued(files, moves, plan[k..], faults, commits, undo) == goal
      {
        ok := MoveExact(plan[k], FaultAt(faults, k));
        assert plan[k..][0] == plan[k] && plan[k..][1..] == plan[k + 1..];
        if !ok {
          undone := CompensateMoves(moves, undo);
          return;
        }
        moves := moves + [plan[k]];
      }
      if !commits {
        ok := false;
        undone := CompensateMoves(moves, undo);
      }
    }

    /** `_clip_row` and the path checks of an operation, before anything is recorded. */
    method Refuse(clip: ClipId, target: Target) returns (error: Option<LibraryError>)
      ensures error == if clip !in clips then Some(KeyError) else
        if !Selectable(Contents(), clips[clip], target) then Some(Unavailable) else None
    {
      if clip !in clips { return Some(KeyError); }
      var row := clips[clip];
      if WantsSource(target) && Source(row.source) !in files { return Some(Unavailable); }
      if WantsOutput(target) && (!row.outputAvailable || row.output.None? || Compiled(row.output.value) !in files) {
        return Some(Unavailable);
      }
      error := None;
    }

    method MoveToTrash(clip: ClipId, target: Target, f: Faults) returns (result: Result<RecordId, LibraryError>)
      modifies this
      ensures (Contents(), result) == AfterTrash(old(Contents()), clip, target, f)
    {
      var refused := Refuse(clip, target);
      if refused.Some? { return Err(refused.value); }
      if !f.records { return Err(NotRecorded); }
      var row := clips[clip];
      result := TrashRecorded(clip, target, Plan(SourceOf(row, target), OutputOf(row, target), nextId, false), f);
    }

    method TrashRecorded(clip: ClipId, target: Target, plan: seq<Move>, f: Faults)
        returns (result: Result<RecordId, LibraryError>)
      requires clip in clips
      modifies this
      ensures (Contents(), result) == AfterTrashing(old(Contents()), clip, target, plan, f)
    {
      var row, id := clips[clip], nextId;
      var record := TrashRecord(clip, SourceOf(row, target), OutputOf(row, target), PendingTrash);
      trash, nextId := trash[id := record], id + 1;
      var ok, undone := false, true;
      if f.audits {
        ok, undone := MoveAll(plan, f.moves, f.commits, f.undo);
      }
      var settled := record.(status := if ok then ActiveTrash else FailedTrash);
      trash := trash[id := settled];
      assert trash == old(trash)[id := settled];
      if ok {
        clips := clips[clip := TrashedRow(row, target)];
        return Ok(id);
      }
      result := Err(if !f.audits then NotRecorded else if undone then RolledBack else CompensationFailed);
    }

    method Restore(id: RecordId, f: Faults) returns (result: Result<ClipRow, LibraryError>)
      modifies this
      ensures (Contents(), result) == AfterRestore(old(Contents()), id, f)
    {
      if id !in trash || trash[id].status != ActiveTrash { return Err(KeyError); }
      var record := trash[id];
      if record.clip !in clips { return Err(KeyError); }
      var back := RestorePlan(record, id);
      if exists m :: m in back && m.from !in files { return Err(Unavailable); }
      if !f.audits { return Err(RolledBack); }
      var ok, undone := MoveAll(back, f.moves, f.commits, f.undo);
      if !ok {
        return Err(if undone then RolledBack else CompensationFailed);
      }
      trash := trash[id := record.(status := Restored)];
      clips := clips[record.clip := RestoredRow(clips[record.clip], record)];
      result := Ok(clips[record.clip]);
    }

    /** Unlinks each staged file; one that cannot be unlinked is reported as residue. */
    method UnlinkStaged(plan: seq<Move>, unlinks: seq<bool>) returns (residue: bool)
      modifies this`files
      ensures files == Unlinked(old(files), plan, unlinks)
      ensures residue <==> LeavesResidue(plan, unlinks)
    {
      residue := false;
      for k := 0 to |plan|
        invariant files == Unlinked(old(files), plan[..k], unlinks)
        invariant residue <==> LeavesResidue(plan[..k], unlinks)
      {
        assert plan[..k + 1][..k] == plan[..k];
        if k < |unlinks| && !unlinks[k] {
          residue := true;
        } else {
          files := files - {plan[k].to};
        }
      }
      assert plan[..|plan|] == plan;
    }

    method PermanentlyDelete(clip: ClipId, target: Target, confirmed: bool, f: Faults)
        returns (result: Result<RequestStatus, LibraryError>)
      modifies this
      ensures (Contents(), result) == AfterDelete(old(Contents()), clip, target, confirmed, f)
    {
      if !confirmed { return Err(BadConfirmation); }
      var refused := Refuse(clip, target);
      if refused.Some? { return Err(refused.value); }
      if !f.records { return Err(NotRecorded); }
      var row := clips[clip];
      result := DeleteRecorded(clip, target, Plan(SourceOf(row, target), OutputOf(row, target), nextId, true), f);
    }

    /** The audit of the intent, then the moves into staging. */
    method Stage(plan: seq<Move>, f: Faults) returns (failure: Option<LibraryError>)
      modifies this`files
      ensures !f.audits ==> files == old(files) && failure == Some(NotRecorded)
      ensures f.audits ==>
        var t := Transferred(old(files), plan, f.moves, true, f.undo);
        files == t.files && failure == if t.ok then None else Some(FailureOf(t))
    {
      if !f.audits { return Some(NotRecorded); }
      var ok, undone := MoveAll(plan, f.moves, true, f.undo);
      failure := if ok then None else Some(if undone then RolledBack else CompensationFailed);
    }

    /** Stages every target before any unlink; only the unlinks cannot be taken back. */
    method DeleteRecorded(clip: ClipId, target: Target, plan: seq<Move>, f: Faults)
        returns (result: Result<RequestStatus, LibraryError>)
      requires clip in clips
      modifies this
      ensures (Contents(), result) == AfterStaging(old(Contents()), clip, target, plan, f)
    {
      var id := nextId;
      requests, nextId := requests[id := PendingDelete], id + 1;
      var failure := Stage(plan, f);
      if failure.Some? {
        requests := requests[id := FailedDelete];
        assert requests == old(requests)[id := FailedDelete];
        return Err(failure.value);
      }
      if !f.commits { return Err(CommitFailed); }
      var status := Complete(id, clip, target, plan, f.unlinks);
      assert requests == old(requests)[id := status];
      result := Ok(status);
    }

    /** The commit and what follows: the clip lets go of its files, the staged files go, and the request is closed. */
    method Complete(id: RecordId, clip: ClipId, target: Target, plan: seq<Move>, unlinks: seq<bool>)
        returns (status: RequestStatus)
      requires clip in clips
      modifies this`files, this`requests, this`clips
      ensures clips == old(clips)[clip := TrashedRow(old(clips)[clip], target)]
      ensures files == Unlinked(old(files), plan, unlinks)
      ensures status == if LeavesResidue(plan, unlinks) then CompletedWithResidue else Completed
      ensures requests == old(requests)[id := status]
    {
      clips := clips[clip := TrashedRow(clips[clip], target)];
      requests := requests[id := StagedDelete];
      var residue := UnlinkStaged(plan, unlinks);
      status := if residue then CompletedWithResidue else Completed;
      requests := requests[id := status];
      assert requests == old(requests)[id := status];
    }
  }

  // ---------- What the operations promise ----------

  lemma TrashPlanIsSound(w: World, clip: ClipId, target: Target)
    requires clip in w.clips
    ensures Disjoint(TrashPlan(w, clip, target)) && Disjoint(StagePlan(w, clip, target))
    ensures Selectable(w, w.clips[clip], target) ==>
      (forall m :: m in TrashPlan(w, clip, target) ==> m.from in w.files) &&
        (forall m :: m in StagePlan(w, clip, target) ==> m.from in w.files)
  {
  }

  /** Trash: for every failure point, every selected file survives at its original or its recorded path, all other
      paths stand still. */
  lemma TrashLosesNothing(w: World, clip: ClipId, target: Target, f: Faults)
    requires clip in w.clips && Selectable(w, w.clips[clip], target)
    ensures var after, plan := AfterTrash(w, clip, target, f).0, TrashPlan(w, clip, target);
      && (forall m :: m in plan ==> m.from in w.files && Survives(w.files, after.files, m))
      && (forall p :: !Touches(plan, p) ==> SameAt(w.files, after.files, p))
      && (after.files != w.files ==> w.nextId in after.trash && after.trash[w.nextId].clip == clip)
  {
    TrashPlanIsSound(w, clip, target);
    TransferLosesNothing(w.files, TrashPlan(w, clip, target), f.moves, f.commits, f.undo);
  }

  /** A trash that succeeds moved exactly the selected files, recorded where they came from, and hid them from the
      clip. */
  lemma SuccessfulTrash(w: World, clip: ClipId, target: Target, f: Faults)
    requires AfterTrash(w, clip, target, f).1.Ok?
    ensures var (after, id) := AfterTrash(w, clip, target, f);
      var row, now := w.clips[clip], after.clips[clip];
      && Relocated(w.files, after.files, TrashPlan(w, clip, target))
      && Restorable(after, id.value) && after.trash[id.value].clip == clip
      && after.trash[id.value].source == (if target == OutputOnly then None else Some(row.source))
      && after.trash[id.value].output == (if target == SourceOnly then None else row.output)
      && now.source == row.source && now.output == row.output
      && now.state == (if target == OutputOnly then row.state else Deleted)
      && (now.outputAvailable <==> target == SourceOnly && row.outputAvailable)
      && forall other :: other in w.clips && other != clip ==> after.clips[other] == w.clips[other]
  {
    TrashPlanIsSound(w, clip, target);
    SuccessRelocates(w.files, TrashPlan(w, clip, target), f.moves, f.commits, f.undo);
  }

  /** A failed trash leaves the clip as it was, and the files as they were exactly when the failure was clean. */
  lemma FailedTrashIsAtomicIffClean(w: World, clip: ClipId, target: Target, f: Faults)
    requires clip in w.clips && Selectable(w, w.clips[clip], target) && f.records && f.audits
    requires AfterTrash(w, clip, target, f).1.Err?
    ensures var after := AfterTrash(w, clip, target, f).0;
      && after.clips == w.clips && after.trash[w.nextId].status == FailedTrash
      && (after.files == w.files <==> CleanFaults(w.files, TrashPlan(w, clip, target), f.moves, f.undo))
  {
    TrashPlanIsSound(w, clip, target);
    FailureIsAtomicIffClean(w.files, TrashPlan(w, clip, target), f.moves, f.commits, f.undo);
  }

  /** Restore gives the same guarantee, and keeps the record restorable when it fails. */
  lemma RestoreLosesNothing(w: World, id: RecordId, f: Faults)
    requires Restorable(w, id) && forall m :: m in RestorePlan(w.trash[id], id) ==> m.from in w.files
    ensures var (after, result) := AfterRestore(w, id, f);
      var back := RestorePlan(w.trash[id], id);
      && (forall m :: m in back ==> Survives(w.files, after.files, m))
      && (forall p :: !Touches(back, p) ==> SameAt(w.files, after.files, p))
      && (result.Err? ==> after.clips == w.clips && after.trash == w.trash)
      && (result.Err? && f.audits ==> (after.files == w.files <==> CleanFaults(w.files, back, f.moves, f.undo)))
  {
    var record := w.trash[id];
    var back := RestorePlan(record, id);
    PlanIsDisjoint(record.source, record.output, id, false);
    TransferLosesNothing(w.files, back, f.moves, f.commits, f.undo);
    if f.audits && !Transferred(w.files, back, f.moves, f.commits, f.undo).ok {
      FailureIsAtomicIffClean(w.files, back, f.moves, f.commits, f.undo);
    }
  }

  /** Permanent deletion destroys nothing before every target is staged; until then it is a transfer like any other. */
  lemma FailedDeleteLosesNothing(w: World, clip: ClipId, target: Target, f: Faults)
    requires clip in w.clips && Selectable(w, w.clips[clip], target)
    requires AfterDelete(w, clip, target, true, f).1.Err?
    ensures var after, plan := AfterDelete(w, clip, target, true, f).0, StagePlan(w, clip, target);
      && after.clips == w.clips
      && (forall m :: m in plan ==> m.from in w.files && Survives(w.files, after.files, m))
      && (forall p :: !Touches(plan, p) ==> SameAt(w.files, after.files, p))
  {
    TrashPlanIsSound(w, clip, target);
    TransferLosesNothing(w.files, StagePlan(w, clip, target), f.moves, true, f.undo);
  }

  /** A failed deletion leaves the files as they were exactly when staging failed cleanly; a failed commit strands
      them in staging. */
  lemma FailedDeleteIsAtomicIff(w: World, clip: ClipId, target: Target, f: Faults)
    requires clip in w.clips && Selectable(w, w.clips[clip], target) && f.records && f.audits
    requires AfterDelete(w, clip, target, true, f).1.Err?
    ensures var (after, result) := AfterDelete(w, clip, target, true, f);
      var plan := StagePlan(w, clip, target);
      && (result.error == CommitFailed <==> FirstFailure(w.files, plan, f.moves) == |plan|)
      && (after.files == w.files <==>
          FirstFailure(w.files, plan, f.moves) < |plan| && CleanFaults(w.files, plan, f.moves, f.undo))
  {
    var plan := StagePlan(w, clip, target);
    TrashPlanIsSound(w, clip, target);
    OutcomeOfFaults(w.files, plan, f.moves, true, f.undo);
    if Transferred(w.files, plan, f.moves, true, f.undo).ok {
      SuccessRelocates(w.files, plan, f.moves, true, f.undo);
      assert plan[0] in plan;
    } else {
      FailureIsAtomicIffClean(w.files, plan, f.moves, true, f.undo);
    }
  }

  /** A completed deletion removes exactly the selected files; what could not be unlinked is left in staging and
      reported. */
  lemma SuccessfulDelete(w: World, clip: ClipId, target: Target, f: Faults)
    requires AfterDelete(w, clip, target, true, f).1.Ok?
    ensures var (after, status) := AfterDelete(w, clip, target, true, f);
      var row, now, plan := w.clips[clip], after.clips[clip], StagePlan(w, clip, target);
      && (forall m :: m in plan ==> m.from in w.files && m.from !in after.files && m.to !in w.files)
      && (status.value == Completed ==> forall m :: m in plan ==> m.to !in after.files)
      && (forall p :: !Touches(plan, p) ==> SameAt(w.files, after.files, p))
      && now.state == (if target == OutputOnly then row.state else Deleted)
      && (now.outputAvailable <==> target == SourceOnly && row.outputAvailable)
  {
    TrashPlanIsSound(w, clip, target);
    StagedThenUnlinked(w.files, StagePlan(w, clip, target), f);
  }

  lemma StagedThenUnlinked(files: Files, plan: seq<Move>, f: Faults)
    requires Disjoint(plan) && Transferred(files, plan, f.moves, true, f.undo).ok
    ensures var after := Unlinked(Transferred(files, plan, f.moves, true, f.undo).files, plan, f.unlinks);
      && (forall m :: m in plan ==> m.from in files && m.from !in after && m.to !in files)
      && (!LeavesResidue(plan, f.unlinks) ==> forall m :: m in plan ==> m.to !in after)
      && (forall p :: !Touches(plan, p) ==> SameAt(files, after, p))
  {
    SuccessRelocates(files, plan, f.moves, true, f.undo);
    UnlinkAfterRelocation(files, Transferred(files, plan, f.moves, true, f.undo).files, plan, f.unlinks);
  }

  lemma UnlinkAfterRelocation(before: Files, staged: Files, plan: seq<Move>, unlinks: seq<bool>)
    requires Relocated(before, staged, plan)
    ensures var after := Unlinked(staged, plan, unlinks);
      && (forall m :: m in plan ==> m.from !in after)
      && (!LeavesResidue(plan, unlinks) ==> forall m :: m in plan ==> m.to !in after)
      && (forall p :: !Touches(plan, p) ==> SameAt(before, after, p))
  {
    UnlinkTakesStagedOnly(staged, plan, unlinks);
    var after := Unlinked(staged, plan, unlinks);
    forall p | !Touches(plan, p) ensures SameAt(before, after, p) {
      assert !IsDestination(plan, p);
      assert SameAt(before, staged, p) && SameAt(staged, after, p);
    }
  }

  predicate IsDestination(plan: seq<Move>, p: Path) {
    exists m :: m in plan && p == m.to
  }

  lemma {:induction false} UnlinkTakesStagedOnly(files: Files, plan: seq<Move>, unlinks: seq<bool>)
    ensures forall p :: !IsDestination(plan, p) ==> SameAt(files, Unlinked(files, plan, unlinks), p)
    ensures forall p :: p in Unlinked(files, plan, unlinks) ==> p in files
    ensures !LeavesResidue(plan, unlinks) ==> forall m :: m in plan ==> m.to !in Unlinked(files, plan, unlinks)
  {
    if plan != [] {
      var front, last := plan[..|plan| - 1], plan[|plan| - 1];
      UnlinkTakesStagedOnly(files, front, unlinks);
      assert forall m :: m in plan <==> m in front || m == last;
      assert forall p :: IsDestination(plan, p) <==> IsDestination(front, p) || p == last.to;
      if !LeavesResidue(plan, unlinks) {
        assert |front| < |unlinks| ==> unlinks[|front|];
        assert !LeavesResidue(front, unlinks);
      }
    }
  }

  /** Trash then restore is a round trip: all files, the output flag and, up to its documented reset, the state come
      back. */
  lemma TrashThenRestore(w: World, clip: ClipId, target: Target, f: Faults, g: Faults)
    requires AfterTrash(w, clip, target, f).1.Ok?
    requires var (trashed, id) := AfterTrash(w, clip, target, f); AfterRestore(trashed, id.value, g).1.Ok?
    ensures var (trashed, id) := AfterTrash(w, clip, target, f);
      var (back, row) := AfterRestore(trashed, id.value, g);
      && back.files == w.files
      && row.value == w.clips[clip].(state := if w.clips[clip].outputAvailable then Ready else Discovered)
      && back.clips == w.clips[clip := row.value]
      && forall h :: AfterRestore(back, id.value, h) == (back, Err(KeyError))
  {
    var trashed, plan := AfterTrash(w, clip, target, f).0, TrashPlan(w, clip, target);
    RoundTripOfFiles(w, clip, target, f, g);
    assert Reversed(plan) == RestorePlan(trashed.trash[w.nextId], w.nextId);
  }

  lemma RoundTripOfFiles(w: World, clip: ClipId, target: Target, f: Faults, g: Faults)
    requires clip in w.clips
    requires var plan := TrashPlan(w, clip, target);
      var there := Transferred(w.files, plan, f.moves, f.commits, f.undo);
      there.ok && Transferred(there.files, Reversed(plan), g.moves, g.commits, g.undo).ok
    ensures var plan := TrashPlan(w, clip, target);
      var there := Transferred(w.files, plan, f.moves, f.commits, f.undo);
      Transferred(there.files, Reversed(plan), g.moves, g.commits, g.undo).files == w.files
  {
    var plan := TrashPlan(w, clip, target);
    var there := Transferred(w.files, plan, f.moves, f.commits, f.undo).files;
    PlanIsDisjoint(SourceOf(w.clips[clip], target), OutputOf(w.clips[clip], target), w.nextId, false);
    SuccessRelocates(w.files, plan, f.moves, f.commits, f.undo);
    SuccessRelocates(there, Reversed(plan), g.moves, g.commits, g.undo);
    RelocatedThereAndBack(w.files, there, Transferred(there, Reversed(plan), g.moves, g.commits, g.undo).files, plan);
  }

  /** Nothing reoccupied the original paths and nothing fails: then the restore goes through. */
  lemma RestoreSucceedsIffFree(w: World, id: RecordId)
    requires Restorable(w, id) && forall m :: m in RestorePlan(w.trash[id], id) ==> m.from in w.files
    ensures AfterRestore(w, id, Faults(true, true, [], true, [], [])).1.Ok? <==>
      forall m :: m in RestorePlan(w.trash[id], id) ==> m.to !in w.files
  {
    PlanIsDisjoint(w.trash[id].source, w.trash[id].output, id, false);
    FaultlessTransferSucceeds(w.files, RestorePlan(w.trash[id], id), true, []);
  }
}
