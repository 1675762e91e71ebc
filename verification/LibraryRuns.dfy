/** Trash and restore with other operations of the library manager in between. */
module LibraryRuns {
  import opened Library
  import opened Moves
  import opened Wrappers

  datatype Operation =
    | Trash(clip: ClipId, target: Target, f: Faults)
    | Restoring(id: RecordId, f: Faults)
    | Delete(clip: ClipId, target: Target, confirmed: bool, f: Faults)

  function Done(w: World, op: Operation): World {
    match op
    case Trash(clip, target, f) => AfterTrash(w, clip, target, f).0
    case Restoring(id, f) => AfterRestore(w, id, f).0
    case Delete(clip, target, confirmed, f) => AfterDelete(w, clip, target, confirmed, f).0
  }

  function DoneAll(w: World, ops: seq<Operation>): World {
    if ops == [] then w else Done(DoneAll(w, ops[..|ops| - 1]), ops[|ops| - 1])
  }

  // ---------- Operations on other clips ----------

  /** The places of a clip's files, and of what one record of it holds in trash. */
  predicate Own(row: ClipRow, id: RecordId, p: Path) {
    || p == Source(row.source)
    || (row.output.Some? && p == Compiled(row.output.value))
    || (p.InTrash? && p.id == id)
  }

  predicate ApartFrom(row: ClipRow, source: Option<int>, output: Option<int>) {
    source != Some(row.source) && (output.None? || output != row.output)
  }

  /** The operation is about another clip, which has files of its own. */
  predicate Foreign(w: World, op: Operation, clip: ClipId, row: ClipRow, id: RecordId) {
    match op
    case Trash(other, _, _) =>
      other != clip && (other in w.clips ==> ApartFrom(row, Some(w.clips[other].source), w.clips[other].output))
    case Delete(other, _, _, _) =>
      other != clip && (other in w.clips ==> ApartFrom(row, Some(w.clips[other].source), w.clips[other].output))
    case Restoring(other, _) =>
      other != id &&
      (other in w.trash ==> w.trash[other].clip != clip && ApartFrom(row, w.trash[other].source, w.trash[other].output))
  }

  predicate AllForeign(w: World, ops: seq<Operation>, clip: ClipId, row: ClipRow, id: RecordId) {
    ops == [] ||
    (AllForeign(w, ops[..|ops| - 1], clip, row, id) &&
      Foreign(DoneAll(w, ops[..|ops| - 1]), ops[|ops| - 1], clip, row, id))
  }

  /** The clip, its record and the files at their places are the same in both worlds. */
  ghost predicate SameFor(a: World, b: World, clip: ClipId, row: ClipRow, id: RecordId) {
    && clip in a.clips && clip in b.clips && a.clips[clip] == b.clips[clip]
    && id in a.trash && id in b.trash && a.trash[id] == b.trash[id]
    && id < a.nextId && id < b.nextId
    && forall p :: Own(row, id, p) ==> SameAt(a.files, b.files, p)
  }

  lemma ForeignPlan(row: ClipRow, id: RecordId, source: Option<int>, output: Option<int>, other: RecordId,
      staging: bool)
    requires ApartFrom(row, source, output) && other != id
    ensures forall p :: Own(row, id, p) ==> !Touches(Plan(source, output, other, staging), p)
    ensures forall p :: Own(row, id, p) ==> !Touches(Reversed(Plan(source, output, other, staging)), p)
  {
  }

  lemma TransferSparesOwn(files: Files, plan: seq<Move>, f: Faults, commits: bool, row: ClipRow, id: RecordId)
    requires forall p :: Own(row, id, p) ==> !Touches(plan, p)
    ensures forall p :: Own(row, id, p) ==> SameAt(files, Transferred(files, plan, f.moves, commits, f.undo).files, p)
  {
    forall p | Own(row, id, p) {
      TransferIsLocal(files, plan, f.moves, commits, f.undo, p);
    }
  }

  lemma UnlinkSparesOwn(files: Files, plan: seq<Move>, unlinks: seq<bool>, row: ClipRow, id: RecordId)
    requires forall p :: Own(row, id, p) ==> !Touches(plan, p)
    ensures forall p :: Own(row, id, p) ==> SameAt(files, Unlinked(files, plan, unlinks), p)
  {
    UnlinkTakesStagedOnly(files, plan, unlinks);
    forall p | Own(row, id, p) ensures !IsDestination(plan, p) {
      assert !Touches(plan, p);
    }
  }

  lemma TrashSparesOthers(w: World, op: Operation, clip: ClipId, row: ClipRow, id: RecordId)
    requires op.Trash? && SameFor(w, w, clip, row, id) && Foreign(w, op, clip, row, id)
    ensures SameFor(w, Done(w, op), clip, row, id)
  {
    if op.clip in w.clips {
      var source, output := SourceOf(w.clips[op.clip], op.target), OutputOf(w.clips[op.clip], op.target);
      ForeignPlan(row, id, source, output, w.nextId, false);
      TransferSparesOwn(w.files, TrashPlan(w, op.clip, op.target), op.f, op.f.commits, row, id);
    }
  }

  lemma StagingSparesOthers(w: World, other: ClipId, target: Target, plan: seq<Move>, f: Faults, clip: ClipId,
      row: ClipRow, id: RecordId)
    requires SameFor(w, w, clip, row, id) && other in w.clips && other != clip
    requires forall p :: Own(row, id, p) ==> !Touches(plan, p)
    ensures SameFor(w, AfterStaging(w, other, target, plan, f).0, clip, row, id)
  {
    TransferSparesOwn(w.files, plan, f, true, row, id);
    UnlinkSparesOwn(Transferred(w.files, plan, f.moves, true, f.undo).files, plan, f.unlinks, row, id);
  }

  lemma DeleteSparesOthers(w: World, op: Operation, clip: ClipId, row: ClipRow, id: RecordId)
    requires op.Delete? && SameFor(w, w, clip, row, id) && Foreign(w, op, clip, row, id)
    ensures SameFor(w, Done(w, op), clip, row, id)
  {
    if op.clip in w.clips {
      var source, output := SourceOf(w.clips[op.clip], op.target), OutputOf(w.clips[op.clip], op.target);
      ForeignPlan(row, id, source, output, w.nextId, true);
      StagingSparesOthers(w, op.clip, op.target, StagePlan(w, op.clip, op.target), op.f, clip, row, id);
    }
  }

  lemma RestoreSparesOthers(w: World, op: Operation, clip: ClipId, row: ClipRow, id: RecordId)
    requires op.Restoring? && SameFor(w, w, clip, row, id) && Foreign(w, op, clip, row, id)
    ensures SameFor(w, Done(w, op), clip, row, id)
  {
    if op.id in w.trash {
      var record := w.trash[op.id];
      ForeignPlan(row, id, record.source, record.output, op.id, false);
      TransferSparesOwn(w.files, RestorePlan(record, op.id), op.f, op.f.commits, row, id);
    }
  }

  lemma {:induction false} OthersAreSpared(w: World, ops: seq<Operation>, clip: ClipId, row: ClipRow, id: RecordId)
    requires SameFor(w, w, clip, row, id) && AllForeign(w, ops, clip, row, id)
    ensures SameFor(w, DoneAll(w, ops), clip, row, id)
  {
    if ops != [] {
      var before, last := DoneAll(w, ops[..|ops| - 1]), ops[|ops| - 1];
      OthersAreSpared(w, ops[..|ops| - 1], clip, row, id);
      match last {
        case Trash(_, _, _) => TrashSparesOthers(before, last, clip, row, id);
        case Delete(_, _, _, _) => DeleteSparesOthers(before, last, clip, row, id);
        case Restoring(_, _) => RestoreSparesOthers(before, last, clip, row, id);
      }
    }
  }

  // ---------- A restore depends on its own paths only ----------

  lemma MovedAgrees(a: Files, b: Files, m: Move, fault: Fault)
    requires SameAt(a, b, m.from) && SameAt(a, b, m.to)
    ensures Moved(a, m, fault).done == Moved(b, m, fault).done
    ensures forall p :: SameAt(a, b, p) ==> SameAt(Moved(a, m, fault).files, Moved(b, m, fault).files, p)
  {
  }

  lemma {:induction false} TransferAgrees(a: Files, b: Files, plan: seq<Move>, faults: seq<Fault>, commits: bool,
      undo: seq<Fault>)
    requires forall p :: Touches(plan, p) ==> SameAt(a, b, p)
    ensures var s, t := Transferred(a, plan, faults, commits, undo), Transferred(b, plan, faults, commits, undo);
      s.ok == t.ok && s.undone == t.undone && forall p :: SameAt(a, b, p) ==> SameAt(s.files, t.files, p)
    decreases |plan|
  {
    if plan != [] {
      var m, tail := plan[0], plan[1..];
      assert m in plan && Touches(plan, m.from) && Touches(plan, m.to);
      assert forall p :: Touches(tail, p) ==> Touches(plan, p);
      MovedAgrees(a, b, m, FaultAt(faults, 0));
      var x, y := Moved(a, m, FaultAt(faults, 0)), Moved(b, m, FaultAt(faults, 0));
      if x.done {
        TransferAgrees(x.files, y.files, tail, Rest(faults), commits, Rest(undo));
        var s := Transferred(x.files, tail, Rest(faults), commits, Rest(undo));
        var t := Transferred(y.files, tail, Rest(faults), commits, Rest(undo));
        MovedAgrees(s.files, t.files, Back(m), FaultAt(undo, 0));
      }
    }
  }

  lemma RestoreAgrees(a: World, b: World, clip: ClipId, row: ClipRow, id: RecordId, g: Faults)
    requires SameFor(a, b, clip, row, id) && a.trash[id].clip == clip
    requires forall p :: Touches(RestorePlan(a.trash[id], id), p) ==> Own(row, id, p)
    ensures AfterRestore(a, id, g).1 == AfterRestore(b, id, g).1
    ensures forall p :: Own(row, id, p) ==> SameAt(AfterRestore(a, id, g).0.files, AfterRestore(b, id, g).0.files, p)
  {
    var back := RestorePlan(a.trash[id], id);
    TransferAgrees(a.files, b.files, back, g.moves, g.commits, g.undo);
    forall m | m in back ensures m.from in a.files <==> m.from in b.files {
      assert Touches(back, m.from);
    }
  }

  // ---------- Trash, anything else, restore ----------

  const FAULTLESS := Faults(true, true, [], true, [], [])

  /** A faultless restore right after a successful trash goes through. */
  lemma RestoreAfterTrashSucceeds(w: World, clip: ClipId, target: Target, f: Faults)
    requires AfterTrash(w, clip, target, f).1.Ok?
    ensures var (trashed, id) := AfterTrash(w, clip, target, f); AfterRestore(trashed, id.value, FAULTLESS).1.Ok?
  {
    var trashed, plan := AfterTrash(w, clip, target, f).0, TrashPlan(w, clip, target);
    SuccessfulTrash(w, clip, target, f);
    var back := RestorePlan(trashed.trash[w.nextId], w.nextId);
    assert back == Reversed(plan);
    forall m | m in back ensures m.from in trashed.files && m.to !in trashed.files {
      var k :| 0 <= k < |back| && back[k] == m;
      assert plan[k] in plan && m == Back(plan[k]);
    }
    RestoreSucceedsIffFree(trashed, w.nextId);
  }

  lemma RecordIsOwn(w: World, clip: ClipId, target: Target, f: Faults)
    requires AfterTrash(w, clip, target, f).1.Ok?
    ensures var (trashed, id) := AfterTrash(w, clip, target, f);
      && SameFor(trashed, trashed, clip, w.clips[clip], id.value) && trashed.trash[id.value].clip == clip
      && forall p :: Touches(RestorePlan(trashed.trash[id.value], id.value), p) ==> Own(w.clips[clip], id.value, p)
  {
    var row, trashed := w.clips[clip], AfterTrash(w, clip, target, f).0;
    var back := RestorePlan(trashed.trash[w.nextId], w.nextId);
    forall p | Touches(back, p) ensures Own(row, w.nextId, p) {
      assert back == Reversed(TrashPlan(w, clip, target));
    }
  }

  /**
   Any operations on other clips in between, whatever fails in them, change nothing about a later restore: it ends
   as it would have at once, and with no faults it brings every file of the clip back.
   */
  lemma RestoreLater(w: World, clip: ClipId, target: Target, f: Faults, ops: seq<Operation>, g: Faults)
    requires AfterTrash(w, clip, target, f).1.Ok?
    requires var (trashed, id) := AfterTrash(w, clip, target, f);
      AllForeign(trashed, ops, clip, w.clips[clip], id.value)
    ensures var (trashed, id) := AfterTrash(w, clip, target, f);
      var later := DoneAll(trashed, ops);
      var (back, result) := AfterRestore(later, id.value, g);
      && result == AfterRestore(trashed, id.value, g).1
      && (g == FAULTLESS ==> result.Ok?)
      && (result.Ok? ==> forall p :: Own(w.clips[clip], id.value, p) ==> SameAt(w.files, back.files, p))
  {
    var trashed, id := AfterTrash(w, clip, target, f).0, w.nextId;
    var row := w.clips[clip];
    RecordIsOwn(w, clip, target, f);
    OthersAreSpared(trashed, ops, clip, row, id);
    RestoreAgrees(trashed, DoneAll(trashed, ops), clip, row, id, g);
    RestoreAfterTrashSucceeds(w, clip, target, f);
    if AfterRestore(trashed, id, g).1.Ok? {
      TrashThenRestore(w, clip, target, f, g);
    }
  }
}
