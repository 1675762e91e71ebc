/**
 Moving files so that failure is survivable: one move with its cross-device fallback, and a
 transfer of several files that is undone in reverse order when a later step fails.
 */
module Moves {
  import opened Wrappers

  type Bytes = int

  datatype Part = SourceFile | OutputFile

  datatype Path = Source(n: int) | Compiled(n: int) | InTrash(id: int, part: Part) | Staged(id: int, part: Part)

  type Files = map<Path, Bytes>

  datatype Move = Move(from: Path, to: Path)

  /** How one move meets the file system: what fails, and what a failing copy leaves behind. */
  datatype Fault = Renames | CopiesAcross | NoDirectory | CopyFails(partial: Option<Bytes>) | UnlinkFails

  datatype Step = Step(files: Files, done: bool)

  /** `_move_exact`: refuse an occupied destination, rename, or copy and then unlink. */
  function Moved(files: Files, m: Move, fault: Fault): Step {
    if m.to in files || fault == NoDirectory || m.from !in files then Step(files, false) else
    match fault
    case CopyFails(partial) => Step(if partial.Some? then files[m.to := partial.value] else files, false)
    case UnlinkFails => Step(files[m.to := files[m.from]], false)
    case _ => Step(files[m.to := files[m.from]] - {m.from}, true)
  }

  function Back(m: Move): Move {
    Move(m.to, m.from)
  }

  function FaultAt(faults: seq<Fault>, k: nat): Fault {
    if k < |faults| then faults[k] else Renames
  }

  function Rest(faults: seq<Fault>): seq<Fault> {
    if faults == [] then [] else faults[1..]
  }

  /** `undone`: every completed move was taken back; `residue`: the move that failed left something behind. */
  datatype Transfer = Transfer(files: Files, ok: bool, undone: bool, residue: bool)
  {
    predicate Clean() {
      undone && !residue
    }
  }

  /** Move everything, then commit; on any failure move back what was moved, last first, each independently. */
  function Transferred(files: Files, plan: seq<Move>, faults: seq<Fault>, commits: bool, undo: seq<Fault>): Transfer
    decreases |plan|
  {
    if plan == [] then Transfer(files, commits, true, false) else
      var first := Moved(files, plan[0], FaultAt(faults, 0));
      if !first.done then Transfer(first.files, false, true, first.files != files) else
        var rest := Transferred(first.files, plan[1..], Rest(faults), commits, Rest(undo));
        if rest.ok then rest else
          var back := Moved(rest.files, Back(plan[0]), FaultAt(undo, 0));
          Transfer(back.files, false, rest.undone && back.done, rest.residue)
  }

  // ---------- No bytes are lost ----------

  predicate Touches(plan: seq<Move>, p: Path) {
    exists m :: m in plan && (p == m.from || p == m.to)
  }

  /** No path plays two roles in a plan. */
  ghost predicate Disjoint(plan: seq<Move>) {
    && (forall m :: m in plan ==> m.from != m.to)
    && forall i, k :: 0 <= i < k < |plan| ==>
         plan[i].from != plan[k].from && plan[i].from != plan[k].to && plan[i].to != plan[k].from &&
           plan[i].to != plan[k].to
  }

  /** The bytes that were at the origin are at the origin or at the recorded destination. */
  predicate Survives(start: Files, files: Files, m: Move)
    requires m.from in start
  {
    (m.from in files && files[m.from] == start[m.from]) || (m.to in files && files[m.to] == start[m.from])
  }

  predicate SameAt(a: Files, b: Files, p: Path) {
    if p in a then p in b && b[p] == a[p] else p !in b
  }

  /** A move and a move back, whatever goes wrong, keep the bytes at one end and touch nothing else. */
  lemma MoveSurvives(start: Files, files: Files, m: Move, fault: Fault)
    requires m.from in start && m.from != m.to && Survives(start, files, m)
    ensures Survives(start, Moved(files, m, fault).files, m)
    ensures Survives(start, Moved(files, Back(m), fault).files, m)
    ensures forall p :: p != m.from && p != m.to ==> SameAt(files, Moved(files, m, fault).files, p)
    ensures forall p :: p != m.from && p != m.to ==> SameAt(files, Moved(files, Back(m), fault).files, p)
  {
  }

  lemma HeadIsApart(plan: seq<Move>)
    requires Disjoint(plan) && plan != []
    ensures Disjoint(plan[1..]) && !Touches(plan[1..], plan[0].from) && !Touches(plan[1..], plan[0].to)
    ensures forall m :: m in plan <==> m == plan[0] || m in plan[1..]
    ensures forall p :: Touches(plan, p) <==> Touches(plan[1..], p) || p == plan[0].from || p == plan[0].to
  {
  }

  /** For every failure point and every failing compensation: each file survives, and no other path changes. */
  lemma {:induction false} TransferLosesNothing(files: Files, plan: seq<Move>, faults: seq<Fault>, commits: bool,
      undo: seq<Fault>)
    requires Disjoint(plan) && forall m :: m in plan ==> m.from in files
    ensures var after := Transferred(files, plan, faults, commits, undo).files;
      && (forall m :: m in plan ==> Survives(files, after, m))
      && (forall p :: !Touches(plan, p) ==> SameAt(files, after, p))
    decreases |plan|
  {
    if plan != [] {
      var m, tail := plan[0], plan[1..];
      HeadIsApart(plan);
      MoveSurvives(files, files, m, FaultAt(faults, 0));
      var first := Moved(files, m, FaultAt(faults, 0));
      if first.done {
        OriginsStay(files, first.files, tail, m);
        TransferLosesNothing(first.files, tail, Rest(faults), commits, Rest(undo));
        var rest := Transferred(first.files, tail, Rest(faults), commits, Rest(undo));
        assert SameAt(first.files, rest.files, m.from) && SameAt(first.files, rest.files, m.to);
        MoveSurvives(files, rest.files, m, FaultAt(undo, 0));
        var after := Transferred(files, plan, faults, commits, undo).files;
        assert after == rest.files || after == Moved(rest.files, Back(m), FaultAt(undo, 0)).files;
        OriginsStay(rest.files, after, tail, m);
      } else {
        OriginsStay(files, first.files, tail, m);
      }
    }
  }

  /** What happens at the two ends of one move leaves the other moves' paths alone. */
  lemma OriginsStay(before: Files, after: Files, tail: seq<Move>, m: Move)
    requires forall p :: p != m.from && p != m.to ==> SameAt(before, after, p)
    requires !Touches(tail, m.from) && !Touches(tail, m.to)
    ensures forall other :: other in tail ==> SameAt(before, after, other.from) && SameAt(before, after, other.to)
  {
  }

  // ---------- Failure is atomic, exactly when it is clean ----------

  lemma {:induction false} CleanFailureRestores(files: Files, plan: seq<Move>, faults: seq<Fault>, commits: bool,
      undo: seq<Fault>)
    requires Disjoint(plan)
    ensures var t := Transferred(files, plan, faults, commits, undo); !t.ok && t.Clean() ==> t.files == files
    decreases |plan|
  {
    if plan != [] {
      var m := plan[0];
      HeadIsApart(plan);
      var first := Moved(files, m, FaultAt(faults, 0));
      if first.done {
        CleanFailureRestores(first.files, plan[1..], Rest(faults), commits, Rest(undo));
      }
    }
  }

  /** A difference away from a move's own paths outlives its undo. */
  lemma TailShows(files: Files, m: Move, fault: Fault, rest: Files, undo: Fault, p: Path)
    requires p != m.from && p != m.to && !SameAt(Moved(files, m, fault).files, rest, p)
    ensures !SameAt(files, Moved(rest, Back(m), undo).files, p)
  {
  }

  lemma {:induction false} UncleanFailureShows(files: Files, plan: seq<Move>, faults: seq<Fault>, commits: bool,
      undo: seq<Fault>)
    returns (p: Path)
    requires Disjoint(plan)
    requires !Transferred(files, plan, faults, commits, undo).ok &&
      !Transferred(files, plan, faults, commits, undo).Clean()
    ensures Touches(plan, p) && !SameAt(files, Transferred(files, plan, faults, commits, undo).files, p)
    decreases |plan|
  {
    var m, tail := plan[0], plan[1..];
    HeadIsApart(plan);
    var first := Moved(files, m, FaultAt(faults, 0));
    p := m.to;
    if first.done {
      var rest := Transferred(first.files, tail, Rest(faults), commits, Rest(undo));
      if rest.Clean() {
        CleanFailureRestores(first.files, tail, Rest(faults), commits, Rest(undo));
      } else {
        p := UncleanFailureShows(first.files, tail, Rest(faults), commits, Rest(undo));
        TailShows(files, m, FaultAt(faults, 0), rest.files, FaultAt(undo, 0), p);
      }
    }
  }

  lemma FailureIsAtomicIfClean(files: Files, plan: seq<Move>, faults: seq<Fault>, commits: bool, undo: seq<Fault>)
    requires Disjoint(plan) && !Transferred(files, plan, faults, commits, undo).ok
    ensures Transferred(files, plan, faults, commits, undo).files == files <==>
      Transferred(files, plan, faults, commits, undo).Clean()
  {
    CleanFailureRestores(files, plan, faults, commits, undo);
    if !Transferred(files, plan, faults, commits, undo).Clean() {
      var p := UncleanFailureShows(files, plan, faults, commits, undo);
    }
  }

  // ---------- The same, on the files and the faults alone ----------

  /** The primitive of a move goes through. */
  predicate Carries(fault: Fault) {
    fault == Renames || fault == CopiesAcross
  }

  predicate Movable(files: Files, m: Move, fault: Fault) {
    m.from in files && m.to !in files && Carries(fault)
  }

  /** A move that fails with something new at its destination: a partial copy, or a copy whose origin would not go. */
  predicate LeavesBehind(files: Files, m: Move, fault: Fault) {
    m.from in files && m.to !in files && (fault == UnlinkFails || (fault.CopyFails? && fault.partial.Some?))
  }

  /** How many moves go through before one fails. */
  function FirstFailure(files: Files, plan: seq<Move>, faults: seq<Fault>): (k: nat)
    ensures k <= |plan|
    decreases |plan|
  {
    if plan == [] || !Movable(files, plan[0], FaultAt(faults, 0)) then 0
    else 1 + FirstFailure(files, plan[1..], Rest(faults))
  }

  /** The undo of each of the first `k` moves goes through. */
  predicate Undoable(undo: seq<Fault>, k: nat) {
    forall i :: 0 <= i < k ==> Carries(FaultAt(undo, i))
  }

  /** The failing move leaves nothing behind, and every move before it can be taken back. */
  predicate CleanFaults(files: Files, plan: seq<Move>, faults: seq<Fault>, undo: seq<Fault>) {
    var k := FirstFailure(files, plan, faults);
    (k < |plan| ==> !LeavesBehind(files, plan[k], FaultAt(faults, k))) && Undoable(undo, k)
  }

  lemma UndoableAfterFirst(undo: seq<Fault>, k: nat)
    ensures Undoable(undo, k + 1) <==> Carries(FaultAt(undo, 0)) && Undoable(Rest(undo), k)
  {
    assert forall i :: 0 <= i < k ==> FaultAt(Rest(undo), i) == FaultAt(undo, i + 1);
    if Carries(FaultAt(undo, 0)) && Undoable(Rest(undo), k) {
      forall i | 0 <= i < k + 1 ensures Carries(FaultAt(undo, i)) {
        if i > 0 { assert Carries(FaultAt(Rest(undo), i - 1)); }
      }
    }
  }

  lemma CleanFaultsAfterFirst(files: Files, plan: seq<Move>, faults: seq<Fault>, undo: seq<Fault>)
    requires plan != [] && Movable(files, plan[0], FaultAt(faults, 0))
    ensures CleanFaults(files, plan, faults, undo) <==>
      Carries(FaultAt(undo, 0)) && CleanFaults(files, plan[1..], Rest(faults), Rest(undo))
  {
    var k := FirstFailure(files, plan[1..], Rest(faults));
    UndoableAfterFirst(undo, k);
  }

  /** The faults are judged by the plan's own paths only. */
  lemma {:induction false} FirstFailureIsLocal(a: Files, b: Files, plan: seq<Move>, faults: seq<Fault>)
    requires forall m :: m in plan ==> SameAt(a, b, m.from) && SameAt(a, b, m.to)
    ensures FirstFailure(a, plan, faults) == FirstFailure(b, plan, faults)
    ensures var k := FirstFailure(a, plan, faults);
      k < |plan| ==> (LeavesBehind(a, plan[k], FaultAt(faults, k)) <==> LeavesBehind(b, plan[k], FaultAt(faults, k)))
    decreases |plan|
  {
    if plan != [] {
      assert plan[0] in plan && forall m :: m in plan[1..] ==> m in plan;
      FirstFailureIsLocal(a, b, plan[1..], Rest(faults));
    }
  }

  lemma MoveIsLocal(files: Files, m: Move, fault: Fault, p: Path)
    requires p != m.from && p != m.to
    ensures SameAt(files, Moved(files, m, fault).files, p)
  {
  }

  lemma {:induction false} TransferIsLocal(files: Files, plan: seq<Move>, faults: seq<Fault>, commits: bool,
      undo: seq<Fault>, p: Path)
    requires !Touches(plan, p)
    ensures SameAt(files, Transferred(files, plan, faults, commits, undo).files, p)
    decreases |plan|
  {
    if plan != [] {
      assert plan[0] in plan && forall m :: m in plan[1..] ==> m in plan;
      var first := Moved(files, plan[0], FaultAt(faults, 0)).files;
      var rest := Transferred(first, plan[1..], Rest(faults), commits, Rest(undo)).files;
      MoveIsLocal(files, plan[0], FaultAt(faults, 0), p);
      TransferIsLocal(first, plan[1..], Rest(faults), commits, Rest(undo), p);
      MoveIsLocal(rest, Back(plan[0]), FaultAt(undo, 0), p);
    }
  }

  /** Which faults let a transfer succeed, and which let it fail cleanly. */
  lemma {:induction false} OutcomeOfFaults(files: Files, plan: seq<Move>, faults: seq<Fault>, commits: bool,
      undo: seq<Fault>)
    requires Disjoint(plan)
    ensures var t := Transferred(files, plan, faults, commits, undo);
      && (t.ok <==> FirstFailure(files, plan, faults) == |plan| && commits)
      && (!t.ok ==> (t.Clean() <==> CleanFaults(files, plan, faults, undo)))
      && (!t.ok ==> (t.undone <==> Undoable(undo, FirstFailure(files, plan, faults))))
    decreases |plan|
  {
    if plan != [] {
      var m, tail := plan[0], plan[1..];
      HeadIsApart(plan);
      var first := Moved(files, m, FaultAt(faults, 0));
      if first.done {
        OriginsStay(files, first.files, tail, m);
        FirstFailureIsLocal(files, first.files, tail, Rest(faults));
        OutcomeOfFaults(first.files, tail, Rest(faults), commits, Rest(undo));
        CleanFaultsAfterFirst(files, plan, faults, undo);
        UndoableAfterFirst(undo, FirstFailure(first.files, tail, Rest(faults)));
        TransferIsLocal(first.files, tail, Rest(faults), commits, Rest(undo), m.from);
        TransferIsLocal(first.files, tail, Rest(faults), commits, Rest(undo), m.to);
      }
    }
  }

  /**
   A failed transfer leaves the files as they were exactly when the failing move leaves nothing behind and
   the undo of every move before it goes through.
   */
  lemma FailureIsAtomicIffClean(files: Files, plan: seq<Move>, faults: seq<Fault>, commits: bool, undo: seq<Fault>)
    requires Disjoint(plan) && !Transferred(files, plan, faults, commits, undo).ok
    ensures Transferred(files, plan, faults, commits, undo).files == files <==> CleanFaults(files, plan, faults, undo)
  {
    FailureIsAtomicIfClean(files, plan, faults, commits, undo);
    OutcomeOfFaults(files, plan, faults, commits, undo);
  }

  // ---------- Success ----------

  /** Every file of the plan relocated, nothing else touched. */
  ghost predicate Relocated(before: Files, after: Files, plan: seq<Move>) {
    && (forall m ::
        m in plan ==>
          m.from in before && m.to !in before && m.from !in after && m.to in after && after[m.to] == before[m.from])
    && forall p :: !Touches(plan, p) ==> SameAt(before, after, p)
  }

  lemma {:induction false} SuccessRelocates(files: Files, plan: seq<Move>, faults: seq<Fault>, commits: bool,
      undo: seq<Fault>)
    requires Disjoint(plan) && Transferred(files, plan, faults, commits, undo).ok
    ensures Relocated(files, Transferred(files, plan, faults, commits, undo).files, plan) && commits
    decreases |plan|
  {
    if plan != [] {
      var m, tail := plan[0], plan[1..];
      HeadIsApart(plan);
      var first := Moved(files, m, FaultAt(faults, 0));
      SuccessRelocates(first.files, tail, Rest(faults), commits, Rest(undo));
      var after := Transferred(files, plan, faults, commits, undo).files;
      OriginsStay(files, first.files, tail, m);
      assert SameAt(first.files, after, m.from) && SameAt(first.files, after, m.to);
      forall p | !Touches(plan, p) ensures SameAt(files, after, p) {
        assert SameAt(files, first.files, p) && SameAt(first.files, after, p);
      }
    }
  }

  /** Without faults a transfer succeeds exactly when every origin is there, every destination free, and the commit
      goes through. */
  lemma {:induction false} FaultlessTransferSucceeds(files: Files, plan: seq<Move>, commits: bool, undo: seq<Fault>)
    requires Disjoint(plan)
    ensures Transferred(files, plan, [], commits, undo).ok <==>
      commits && forall m :: m in plan ==> m.from in files && m.to !in files
    decreases |plan|
  {
    if plan != [] {
      var m, tail := plan[0], plan[1..];
      HeadIsApart(plan);
      var first := Moved(files, m, Renames);
      if first.done {
        FaultlessTransferSucceeds(first.files, tail, commits, Rest(undo));
        OriginsStay(files, first.files, tail, m);
      }
    }
  }

  function Reversed(plan: seq<Move>): (back: seq<Move>)
    ensures |back| == |plan| && forall i :: 0 <= i < |plan| ==> back[i] == Back(plan[i])
  {
    seq(|plan|, i requires 0 <= i < |plan| => Back(plan[i]))
  }

  /** Relocating there and back, in any order of faults that lets both succeed, is the identity. */
  lemma RelocatedThereAndBack(before: Files, between: Files, after: Files, plan: seq<Move>)
    requires Relocated(before, between, plan) && Relocated(between, after, Reversed(plan))
    ensures after == before
  {
    var back := Reversed(plan);
    forall m | m in plan ensures Back(m) in back {
      var k :| 0 <= k < |plan| && plan[k] == m;
      assert back[k] == Back(m);
    }
    forall p ensures p in before <==> p in after
      ensures p in before ==> before[p] == after[p]
    {
      if Touches(plan, p) {
        var m :| m in plan && (p == m.from || p == m.to);
        assert Back(m) in back;
      } else {
        assert SameAt(before, between, p) && SameAt(between, after, p);
      }
    }
  }

  // ---------- The same transfer as a loop over the plan and a reverse loop over what was moved ----------

  /** Compensation of completed moves: last first, each attempted even when another failed. */
  function Compensated(files: Files, moves: seq<Move>, undo: seq<Fault>): Step
    decreases |moves|
  {
    if moves == [] then Step(files, true) else
      var k := |moves| - 1;
      var back := Moved(files, Back(moves[k]), FaultAt(undo, k));
      var rest := Compensated(back.files, moves[..k], undo);
      Step(rest.files, rest.done && back.done)
  }

  function From(faults: seq<Fault>, k: nat): seq<Fault> {
    if k <= |faults| then faults[k..] else []
  }

  function Abandoned(files: Files, moves: seq<Move>, undo: seq<Fault>, residue: bool): Transfer {
    var step := Compensated(files, moves, undo);
    Transfer(step.files, false, step.done, residue)
  }

  function Continued(files: Files, moves: seq<Move>, plan: seq<Move>, faults: seq<Fault>, commits: bool,
      undo: seq<Fault>): Transfer
    decreases |plan|
  {
    if plan == [] then if commits then Transfer(files, true, true, false) else Abandoned(files, moves, undo, false) else
      var first := Moved(files, plan[0], FaultAt(faults, |moves|));
      if !first.done then Abandoned(first.files, moves, undo, first.files != files)
      else Continued(first.files, moves + [plan[0]], plan[1..], faults, commits, undo)
  }

  lemma {:induction false} ContinuedIsTransferred(files: Files, moves: seq<Move>, plan: seq<Move>, faults: seq<Fault>,
      commits: bool, undo: seq<Fault>)
    ensures var t := Transferred(files, plan, From(faults, |moves|), commits, From(undo, |moves|));
      Continued(files, moves, plan, faults, commits, undo) ==
      if t.ok then t else
        var step := Compensated(t.files, moves, undo);
        Transfer(step.files, false, t.undone && step.done, t.residue)
    decreases |plan|
  {
    if plan != [] {
      var more := moves + [plan[0]];
      var first := Moved(files, plan[0], FaultAt(faults, |moves|));
      assert Rest(From(faults, |moves|)) == From(faults, |more|) && Rest(From(undo, |moves|)) == From(undo, |more|);
      if first.done {
        ContinuedIsTransferred(first.files, more, plan[1..], faults, commits, undo);
        assert more[..|moves|] == moves && more[|moves|] == plan[0];
      }
    }
  }
}
