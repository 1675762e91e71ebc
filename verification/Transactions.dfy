/**
 Nested transactions: a depth counter and a rollback-only flag on one connection, run over any
 tree of writes, raises, handlers and nested blocks.
 */
module Transactions {
  type Store = map<int, int>

  /** `Attempt` is a handler for `Exception`; an `Interrupt` (a `BaseException`) passes through it. */
  datatype Statement =
    | Write(key: int, value: int)
    | Raise
    | Interrupt
    | Attempt(body: seq<Statement>)
    | Block(body: seq<Statement>)

  datatype Signal = Fine | Error | Abort

  /** The writes performed, how control left, and whether an exception crossed a block boundary on the way. */
  datatype Trace = Trace(writes: seq<(int, int)>, signal: Signal, crossed: bool)

  // ---------- The reference: no connection, no depth, no flag ----------

  function Traced(program: seq<Statement>): Trace
    decreases program, 0
  {
    if program == [] then Trace([], Fine, false) else
      var first := TracedOne(program[0]);
      if first.signal != Fine then first else
        var rest := Traced(program[1..]);
        Trace(first.writes + rest.writes, rest.signal, first.crossed || rest.crossed)
  }

  function TracedOne(s: Statement): Trace
    decreases s, 1
  {
    match s
    case Write(key, value) => Trace([(key, value)], Fine, false)
    case Raise => Trace([], Error, false)
    case Interrupt => Trace([], Abort, false)
    case Attempt(body) => var t := Traced(body); if t.signal == Error then t.(signal := Fine) else t
    case Block(body) => var t := Traced(body); t.(crossed := t.crossed || t.signal == Error)
  }

  function Written(store: Store, writes: seq<(int, int)>): Store
    decreases |writes|
  {
    if writes == [] then store else Written(store[writes[0].0 := writes[0].1], writes[1..])
  }

  lemma {:induction false} WrittenInTurn(store: Store, a: seq<(int, int)>, b: seq<(int, int)>)
    ensures Written(store, a + b) == Written(Written(store, a), b)
    decreases |a|
  {
    if a == [] {
      assert a + b == b;
    } else {
      assert (a + b)[1..] == a[1..] + b;
      WrittenInTurn(store[a[0].0 := a[0].1], a[1..], b);
    }
  }

  /** The position of the last write to a key. */
  predicate LastWriteAt(writes: seq<(int, int)>, key: int, i: int) {
    0 <= i < |writes| && writes[i].0 == key && forall k :: i < k < |writes| ==> writes[k].0 != key
  }

  /** Every key holds the value last written to it, and a key never written holds what it held. */
  ghost predicate HoldsLastWrites(before: Store, after: Store, writes: seq<(int, int)>) {
    && (forall key, i :: LastWriteAt(writes, key, i) ==> key in after && after[key] == writes[i].1)
    && forall key :: (forall i :: 0 <= i < |writes| ==> writes[i].0 != key) ==>
         (key in after <==> key in before) && (key in after ==> after[key] == before[key])
  }

  lemma {:induction false} WrittenHoldsLastWrites(store: Store, writes: seq<(int, int)>)
    ensures HoldsLastWrites(store, Written(store, writes), writes)
    decreases |writes|
  {
    if writes != [] {
      var rest, after := writes[1..], Written(store, writes);
      var first := store[writes[0].0 := writes[0].1];
      WrittenHoldsLastWrites(first, rest);
      forall key, i | LastWriteAt(writes, key, i) ensures key in after && after[key] == writes[i].1 {
        if i > 0 {
          assert LastWriteAt(rest, key, i - 1);
        } else {
          assert forall k :: 0 <= k < |rest| ==> rest[k] == writes[k + 1];
        }
      }
      forall key | forall i :: 0 <= i < |writes| ==> writes[i].0 != key
        ensures (key in after <==> key in store) && (key in after ==> after[key] == store[key]) {
        assert forall k :: 0 <= k < |rest| ==> rest[k] == writes[k + 1];
        assert writes[0].0 != key;
      }
    }
  }

  /** An exception left some block, the outermost one included. */
  predicate RollsBack(body: seq<Statement>) {
    Traced(body).crossed || Traced(body).signal == Error
  }

  // ---------- The connection ----------

  class Database {
    var committed: Store
    var working: Store
    var depth: nat
    var rollbackOnly: bool

    constructor (store: Store)
      ensures committed == working == store && depth == 0 && !rollbackOnly
    {
      committed, working, depth, rollbackOnly := store, store, 0, false;
    }

    /** Runs statements on the open connection. */
    method Run(program: seq<Statement>) returns (signal: Signal)
      requires depth > 0
      modifies this
      ensures depth == old(depth) && committed == old(committed)
      ensures signal == Traced(program).signal
      ensures working == Written(old(working), Traced(program).writes)
      ensures rollbackOnly == (old(rollbackOnly) || Traced(program).crossed)
      decreases program, 0
    {
      if program == [] {
        return Fine;
      }
      match program[0] {
        case Write(key, value) =>
          working := working[key := value];
          assert working == Written(old(working), [(key, value)]);
          signal := Fine;
        case Raise => signal := Error;
        case Interrupt => signal := Abort;
        case Attempt(body) =>
          signal := Run(body);
          if signal == Error { signal := Fine; }
        case Block(body) => signal := Transaction(body);
      }
      if signal == Fine {
        WrittenInTurn(old(working), TracedOne(program[0]).writes, Traced(program[1..]).writes);
        signal := Run(program[1..]);
      }
    }

    /** A `with database.transaction()` block at any depth. */
    method Transaction(body: seq<Statement>) returns (signal: Signal)
      requires depth == 0 ==> working == committed
      modifies this
      ensures depth == old(depth) && signal == Traced(body).signal
      ensures old(depth) == 0 ==> working == committed && !rollbackOnly
      ensures old(depth) == 0 ==>
        committed == if RollsBack(body) then old(committed) else Written(old(committed), Traced(body).writes)
      ensures old(depth) == 0 && !RollsBack(body) ==> HoldsLastWrites(old(committed), committed, Traced(body).writes)
      ensures old(depth) > 0 ==> committed == old(committed) && working == Written(old(working), Traced(body).writes)
      ensures old(depth) > 0 ==> rollbackOnly == (old(rollbackOnly) || RollsBack(body))
      decreases body, 1
    {
      var outer := depth;
      if outer == 0 {
        rollbackOnly := false;
      }
      depth := outer + 1;
      signal := Run(body);
      if signal == Error {
        rollbackOnly := true;
      }
      depth := outer;
      if outer == 0 {
        if rollbackOnly {
          working := committed;
        } else {
          WrittenHoldsLastWrites(committed, Traced(body).writes);
          committed := working;
        }
        rollbackOnly := false;
      }
    }
  }

  // ---------- What the reference promises ----------

  /** The same program with every inner block boundary erased. */
  function Flattened(program: seq<Statement>): seq<Statement>
    decreases program, 0
  {
    if program == [] then [] else FlattenedOne(program[0]) + Flattened(program[1..])
  }

  function FlattenedOne(s: Statement): seq<Statement>
    decreases s, 1
  {
    match s
    case Attempt(body) => [Attempt(Flattened(body))]
    case Block(body) => Flattened(body)
    case _ => [s]
  }

  lemma {:induction false} TracedConcat(a: seq<Statement>, b: seq<Statement>)
    ensures Traced(a + b) ==
      if Traced(a).signal != Fine then Traced(a)
      else Trace(Traced(a).writes + Traced(b).writes, Traced(b).signal, Traced(a).crossed || Traced(b).crossed)
    decreases |a|
  {
    if a == [] {
      assert a + b == b;
    } else {
      assert (a + b)[1..] == a[1..] + b;
      TracedConcat(a[1..], b);
      assert (TracedOne(a[0]).writes + Traced(a[1..]).writes) + Traced(b).writes
          == TracedOne(a[0]).writes + (Traced(a[1..]).writes + Traced(b).writes);
    }
  }

  /** Nesting changes neither the writes nor the way control leaves; it adds only the reasons to roll back. */
  lemma {:induction false} FlatteningKeepsTrace(program: seq<Statement>)
    ensures Traced(Flattened(program)).writes == Traced(program).writes
    ensures Traced(Flattened(program)).signal == Traced(program).signal
    ensures !Traced(Flattened(program)).crossed
    decreases program, 0
  {
    if program != [] {
      FlatteningKeepsOne(program[0]);
      FlatteningKeepsTrace(program[1..]);
      TracedConcat(FlattenedOne(program[0]), Flattened(program[1..]));
    }
  }

  lemma FlatteningKeepsOne(s: Statement)
    ensures Traced(FlattenedOne(s)).writes == TracedOne(s).writes
    ensures Traced(FlattenedOne(s)).signal == TracedOne(s).signal
    ensures !Traced(FlattenedOne(s)).crossed
    decreases s, 1
  {
    match s {
      case Attempt(body) => FlatteningKeepsTrace(body);
      case Block(body) => FlatteningKeepsTrace(body);
      case _ =>
    }
  }

  /** A list of writes, and where it stands when it is run. */
  function Writes(writes: seq<(int, int)>): seq<Statement> {
    if writes == [] then [] else [Write(writes[0].0, writes[0].1)] + Writes(writes[1..])
  }

  /** Straight-line writes are performed as listed, whatever comes before or after them. */
  lemma {:induction false} WritesAreTraced(writes: seq<(int, int)>, rest: seq<Statement>)
    ensures Traced(Writes(writes) + rest) == Traced(rest).(writes := writes + Traced(rest).writes)
    decreases |writes|
  {
    if writes == [] {
      assert Writes(writes) + rest == rest;
    } else {
      assert (Writes(writes) + rest)[1..] == Writes(writes[1..]) + rest;
      WritesAreTraced(writes[1..], rest);
      assert [writes[0]] + (writes[1..] + Traced(rest).writes) == writes + Traced(rest).writes;
    }
  }

  /** The final store of an outermost block, as `Transaction` leaves it. */
  function Outcome(store: Store, body: seq<Statement>): Store {
    if RollsBack(body) then store else Written(store, Traced(body).writes)
  }

  /** A block that is not rolled back leaves each key with the value last written to it; straight-line writes are. */
  lemma LastWriteIsCommitted(store: Store, body: seq<Statement>)
    ensures !RollsBack(body) ==> HoldsLastWrites(store, Outcome(store, body), Traced(body).writes)
    ensures forall writes :: body == Writes(writes) ==> HoldsLastWrites(store, Outcome(store, body), writes)
  {
    WrittenHoldsLastWrites(store, Traced(body).writes);
    forall writes | body == Writes(writes) ensures HoldsLastWrites(store, Outcome(store, body), writes) {
      WritesAreTraced(writes, []);
      assert Writes(writes) + [] == body && writes + [] == writes;
    }
  }

  /** All or nothing: nested blocks commit what one flat transaction commits, or nothing at all. */
  lemma NestedIsFlatOrNothing(store: Store, body: seq<Statement>)
    ensures !RollsBack(body) ==> Outcome(store, body) == Outcome(store, Flattened(body))
    ensures RollsBack(body) ==> Outcome(store, body) == store
    ensures RollsBack(Flattened(body)) <==> Traced(body).signal == Error
  {
    FlatteningKeepsTrace(body);
  }

  /** Catching the exception of a nested block does not save the outer transaction. */
  lemma CaughtFailureStillRollsBack(store: Store, before: seq<Statement>, nested: seq<Statement>,
      after: seq<Statement>)
    requires Traced(before).signal == Fine && Traced(nested).signal == Error
    ensures Outcome(store, before + [Attempt([Block(nested)])] + after) == store
  {
    var guarded := Attempt([Block(nested)]);
    assert Traced([Block(nested)]) == TracedOne(Block(nested)) by {
      assert [Block(nested)][1..] == [];
    }
    assert TracedOne(guarded).crossed;
    TracedConcat([guarded], after);
    TracedConcat(before, [guarded] + after);
    assert before + [guarded] + after == before + ([guarded] + after);
  }

  /** Catching it inside the block that raised does save it. */
  lemma FailureHandledInsideCommits(store: Store, before: seq<Statement>, risky: seq<Statement>)
    requires Traced(before).signal == Fine && !Traced(before).crossed
    requires Traced(risky).signal == Error && !Traced(risky).crossed
    ensures Outcome(store, before + [Block([Attempt(risky)])]) ==
      Written(Written(store, Traced(before).writes), Traced(risky).writes)
  {
    var handled := [Attempt(risky)];
    assert handled[1..] == [] && [Block(handled)][1..] == [];
    assert Traced(handled).writes == Traced(risky).writes;
    assert Traced([Block(handled)]).writes == Traced(risky).writes;
    TracedConcat(before, [Block(handled)]);
    WrittenInTurn(store, Traced(before).writes, Traced(risky).writes);
  }

  /** An interrupt out of a nested block commits the writes before it: no boundary it passes counts as crossed. */
  lemma InterruptPassesBlocks(store: Store, done: seq<Statement>, body: seq<Statement>, rest: seq<Statement>)
    requires Traced(done).signal == Fine && Traced(body).signal == Abort
    requires !Traced(done).crossed && !Traced(body).crossed
    ensures Outcome(store, done + [Block(body)] + rest) == Written(store, Traced(done).writes + Traced(body).writes)
  {
    assert done + [Block(body)] + rest == done + ([Block(body)] + rest);
    assert ([Block(body)] + rest)[0] == Block(body);
    TracedConcat(done, [Block(body)] + rest);
  }

  /** An uncaught exception rolls everything back. */
  lemma ErrorRollsBack(store: Store, done: seq<Statement>, rest: seq<Statement>)
    requires Traced(done).signal == Fine
    ensures Outcome(store, done + [Raise] + rest) == store
  {
    assert done + [Raise] + rest == done + ([Raise] + rest);
    assert ([Raise] + rest)[0] == Raise;
    TracedConcat(done, [Raise] + rest);
  }

  /** A handler for `Exception` lets an interrupt through, and keeps the writes made before either. */
  lemma HandlersStopErrorsOnly(body: seq<Statement>, rest: seq<Statement>)
    ensures var t := Traced(body);
      Traced([Attempt(body)] + rest) ==
        if t.signal == Abort then t
        else Trace(t.writes + Traced(rest).writes, Traced(rest).signal, t.crossed || Traced(rest).crossed)
  {
    assert ([Attempt(body)] + rest)[0] == Attempt(body) && ([Attempt(body)] + rest)[1..] == rest;
  }

  /** An interrupt is no `Exception`: the work before it is committed, unless an exception had crossed a block by
      then. */
  lemma InterruptCommitsPrefix(store: Store, done: seq<Statement>, rest: seq<Statement>)
    requires Traced(done).signal == Fine
    ensures Outcome(store, done + [Interrupt] + rest) ==
      if Traced(done).crossed then store else Written(store, Traced(done).writes)
  {
    assert done + [Interrupt] + rest == done + ([Interrupt] + rest);
    assert ([Interrupt] + rest)[0] == Interrupt;
    TracedConcat(done, [Interrupt] + rest);
    assert Traced(done).writes + [] == Traced(done).writes;
  }
}
