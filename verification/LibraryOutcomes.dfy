/** Every exit of the lifecycle operations, decided by the rows, the files and the faults alone. */
module LibraryOutcomes {
  import opened ClipStates
  import opened Library
  import opened Moves
  import opened Wrappers

  // ---------- What is moved where ----------

  predicate TakesSource(target: Target) {
    target == SourceOnly || target == Both
  }

  predicate TakesOutput(target: Target) {
    target == OutputOnly || target == Both
  }

  /** A selected file is not there. */
  predicate SelectionMissing(w: World, row: ClipRow, target: Target) {
    || (TakesSource(target) && Source(row.source) !in w.files)
    || (TakesOutput(target) && !(row.outputAvailable && row.output.Some? && Compiled(row.output.value) in w.files))
  }

  /** A trash moves the selected files into its record's directory, a deletion into its own staging directory. */
  lemma PlansAreExact(w: World, clip: ClipId, target: Target)
    requires clip in w.clips && !SelectionMissing(w, w.clips[clip], target)
    ensures var row := w.clips[clip];
      && TrashPlan(w, clip, target) ==
           (if TakesSource(target) then [Move(Source(row.source), InTrash(w.nextId, SourceFile))] else []) +
           (if TakesOutput(target) then [Move(Compiled(row.output.value), InTrash(w.nextId, OutputFile))] else [])
      && StagePlan(w, clip, target) ==
           (if TakesSource(target) then [Move(Source(row.source), Staged(w.nextId, SourceFile))] else []) +
           (if TakesOutput(target) then [Move(Compiled(row.output.value), Staged(w.nextId, OutputFile))] else [])
  {
  }

  /** What the failure of a transfer is called: everything moved was taken back, or not. */
  function Reported(files: Files, plan: seq<Move>, f: Faults): LibraryError {
    if Undoable(f.undo, FirstFailure(files, plan, f.moves)) then RolledBack else CompensationFailed
  }

  // ---------- Trash ----------

  /** The record a trash leaves under the next id, beside the ones there were. */
  predicate Recorded(w: World, after: World, clip: ClipId, target: Target, status: TrashStatus)
    requires clip in w.clips
  {
    var row := w.clips[clip];
    && after.nextId == w.nextId + 1 && after.requests == w.requests
    && after.trash == w.trash[w.nextId := TrashRecord(clip, if TakesSource(target) then Some(row.source) else None,
         if TakesOutput(target) then row.output else None, status)]
  }

  lemma TrashIsDecided(w: World, clip: ClipId, target: Target, f: Faults)
    ensures var (after, result) := AfterTrash(w, clip, target, f);
      if clip !in w.clips then after == w && result == Err(KeyError)
      else if SelectionMissing(w, w.clips[clip], target) then after == w && result == Err(Unavailable)
      else if !f.records then after == w && result == Err(NotRecorded)
      else if !f.audits then
        Recorded(w, after, clip, target, FailedTrash) && after.files == w.files && after.clips == w.clips &&
        result == Err(NotRecorded)
      else
        var plan := TrashPlan(w, clip, target);
        if FirstFailure(w.files, plan, f.moves) == |plan| && f.commits then
          Recorded(w, after, clip, target, ActiveTrash) && result == Ok(w.nextId)
        else
          Recorded(w, after, clip, target, FailedTrash) && after.clips == w.clips &&
          result == Err(Reported(w.files, plan, f))
  {
    if clip in w.clips {
      TrashPlanIsSound(w, clip, target);
      OutcomeOfFaults(w.files, TrashPlan(w, clip, target), f.moves, f.commits, f.undo);
    }
  }

  // ---------- Restore ----------

  predicate TrashedFileMissing(w: World, record: TrashRecord, id: RecordId) {
    || (record.source.Some? && InTrash(id, SourceFile) !in w.files)
    || (record.output.Some? && InTrash(id, OutputFile) !in w.files)
  }

  lemma OriginsOfRestore(w: World, id: RecordId)
    requires id in w.trash
    ensures TrashedFileMissing(w, w.trash[id], id) <==>
      exists m :: m in RestorePlan(w.trash[id], id) && m.from !in w.files
  {
    var record := w.trash[id];
    var back := RestorePlan(record, id);
    if record.source.Some? { assert back[0] in back; }
    if record.output.Some? { assert back[|back| - 1] in back; }
  }

  /** The clip of a record whose files came back. */
  function BackRow(row: ClipRow, record: TrashRecord): ClipRow {
    var available := row.outputAvailable || record.output.Some?;
    ClipRow(row.source, row.output, if available then Ready else Discovered, available)
  }

  /** A restore that is begun goes through or is taken back. */
  lemma RestoringIsDecided(w: World, id: RecordId, f: Faults)
    requires Restorable(w, id) && !TrashedFileMissing(w, w.trash[id], id) && f.audits
    ensures var (after, result) := AfterRestore(w, id, f);
      var record := w.trash[id];
      var back, row := RestorePlan(record, id), BackRow(w.clips[record.clip], record);
      if FirstFailure(w.files, back, f.moves) == |back| && f.commits then
        && result == Ok(row) && Relocated(w.files, after.files, back)
        && after == World(after.files, w.clips[record.clip := row], w.trash[id := record.(status := Restored)],
                          w.requests, w.nextId)
      else
        after == w.(files := after.files) && result == Err(Reported(w.files, back, f))
  {
    var record := w.trash[id];
    var back := RestorePlan(record, id);
    OriginsOfRestore(w, id);
    PlanIsDisjoint(record.source, record.output, id, false);
    OutcomeOfFaults(w.files, back, f.moves, f.commits, f.undo);
    if Transferred(w.files, back, f.moves, f.commits, f.undo).ok {
      SuccessRelocates(w.files, back, f.moves, f.commits, f.undo);
    }
  }

  lemma RestoreIsDecided(w: World, id: RecordId, f: Faults)
    ensures var (after, result) := AfterRestore(w, id, f);
      if id !in w.trash || w.trash[id].status != ActiveTrash || w.trash[id].clip !in w.clips then
        after == w && result == Err(KeyError)
      else if TrashedFileMissing(w, w.trash[id], id) then after == w && result == Err(Unavailable)
      else if !f.audits then after == w && result == Err(RolledBack)
      else
        var record := w.trash[id];
        var back, row := RestorePlan(record, id), BackRow(w.clips[record.clip], record);
        if FirstFailure(w.files, back, f.moves) == |back| && f.commits then
          && result == Ok(row) && Relocated(w.files, after.files, back)
          && after == World(after.files, w.clips[record.clip := row], w.trash[id := record.(status := Restored)],
                            w.requests, w.nextId)
        else
          after == w.(files := after.files) && result == Err(Reported(w.files, back, f))
  {
    if Restorable(w, id) {
      OriginsOfRestore(w, id);
      if !TrashedFileMissing(w, w.trash[id], id) && f.audits {
        RestoringIsDecided(w, id, f);
      }
    }
  }

  // ---------- Permanent deletion ----------

  predicate UnlinkFailsAt(unlinks: seq<bool>, k: nat) {
    k < |unlinks| && !unlinks[k]
  }

  /** The request under the next id, beside the ones there were; trash records stand still. */
  predicate Requested(w: World, after: World, status: RequestStatus) {
    && after.nextId == w.nextId + 1 && after.trash == w.trash
    && after.requests == w.requests[w.nextId := status]
  }

  lemma StagingIsDecided(w: World, clip: ClipId, target: Target, plan: seq<Move>, f: Faults)
    requires clip in w.clips && Disjoint(plan) && f.audits
    ensures var (after, result) := AfterStaging(w, clip, target, plan, f);
      if FirstFailure(w.files, plan, f.moves) < |plan| then
        Requested(w, after, FailedDelete) && after.clips == w.clips && result == Err(Reported(w.files, plan, f))
      else if !f.commits then
        Requested(w, after, PendingDelete) && after.clips == w.clips && result == Err(CommitFailed)
      else
        var status := if LeavesResidue(plan, f.unlinks) then CompletedWithResidue else Completed;
        && Requested(w, after, status) && result == Ok(status)
        && after.files == Unlinked(Transferred(w.files, plan, f.moves, true, f.undo).files, plan, f.unlinks)
  {
    OutcomeOfFaults(w.files, plan, f.moves, true, f.undo);
  }

  lemma ResidueIff(plan: seq<Move>, unlinks: seq<bool>)
    ensures LeavesResidue(plan, unlinks) <==> exists k :: 0 <= k < |plan| && UnlinkFailsAt(unlinks, k)
  {
    if exists k :: 0 <= k < |plan| && UnlinkFailsAt(unlinks, k) {
      var k :| 0 <= k < |plan| && UnlinkFailsAt(unlinks, k);
      assert LeavesResidue(plan, unlinks);
    } else if LeavesResidue(plan, unlinks) {
      var k :| 0 <= k < |plan| && k < |unlinks| && !unlinks[k];
      assert UnlinkFailsAt(unlinks, k);
    }
  }

  lemma DeleteIsDecided(w: World, clip: ClipId, target: Target, confirmed: bool, f: Faults)
    ensures var (after, result) := AfterDelete(w, clip, target, confirmed, f);
      if !confirmed then after == w && result == Err(BadConfirmation)
      else if clip !in w.clips then after == w && result == Err(KeyError)
      else if SelectionMissing(w, w.clips[clip], target) then after == w && result == Err(Unavailable)
      else if !f.records then after == w && result == Err(NotRecorded)
      else if !f.audits then
        after == World(w.files, w.clips, w.trash, w.requests[w.nextId := FailedDelete], w.nextId + 1) &&
        result == Err(NotRecorded)
      else
        var plan := StagePlan(w, clip, target);
        if FirstFailure(w.files, plan, f.moves) < |plan| then
          Requested(w, after, FailedDelete) && after.clips == w.clips && result == Err(Reported(w.files, plan, f))
        else if !f.commits then
          Requested(w, after, PendingDelete) && after.clips == w.clips && result == Err(CommitFailed)
        else
          var status := if exists k :: 0 <= k < |plan| && UnlinkFailsAt(f.unlinks, k)
                        then CompletedWithResidue else Completed;
          && Requested(w, after, status) && result == Ok(status)
          && forall k :: 0 <= k < |plan| ==> (plan[k].to in after.files <==> UnlinkFailsAt(f.unlinks, k))
  {
    if clip in w.clips {
      var plan := StagePlan(w, clip, target);
      TrashPlanIsSound(w, clip, target);
      if f.audits {
        StagingIsDecided(w, clip, target, plan, f);
        ResidueIff(plan, f.unlinks);
        ResidueIsExact(w.files, plan, f);
      }
    }
  }

  lemma ResidueIsExact(files: Files, plan: seq<Move>, f: Faults)
    requires Disjoint(plan)
    ensures FirstFailure(files, plan, f.moves) == |plan| ==>
      var after := Unlinked(Transferred(files, plan, f.moves, true, f.undo).files, plan, f.unlinks);
      forall k :: 0 <= k < |plan| ==> (plan[k].to in after <==> UnlinkFailsAt(f.unlinks, k))
  {
    OutcomeOfFaults(files, plan, f.moves, true, f.undo);
    if FirstFailure(files, plan, f.moves) == |plan| {
      SuccessRelocates(files, plan, f.moves, true, f.undo);
      UnlinkedExactly(Transferred(files, plan, f.moves, true, f.undo).files, plan, f.unlinks);
    }
  }

  /** Exactly the staged files whose unlink failed are left. */
  lemma {:induction false} UnlinkedExactly(files: Files, plan: seq<Move>, unlinks: seq<bool>)
    requires Disjoint(plan) && forall m :: m in plan ==> m.to in files
    ensures forall k ::
      0 <= k < |plan| ==> (plan[k].to in Unlinked(files, plan, unlinks) <==> UnlinkFailsAt(unlinks, k))
  {
    if plan != [] {
      var n := |plan| - 1;
      var front := plan[..n];
      assert forall m :: m in front ==> m in plan;
      UnlinkedExactly(files, front, unlinks);
      UnlinkTakesStagedOnly(files, front, unlinks);
      assert plan[n] in plan && plan[n].to in Unlinked(files, front, unlinks) by {
        assert !IsDestination(front, plan[n].to);
      }
      forall k | 0 <= k < n
        ensures plan[k].to in Unlinked(files, plan, unlinks) <==> UnlinkFailsAt(unlinks, k) {
        assert plan[k].to != plan[n].to;
      }
    }
  }
}
