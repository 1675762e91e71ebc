/** What the bounded token store still knows after any sequence of begins and recordings. */
module RunTokens {
  import opened Dispatch
  import opened Idempotency
  import opened Wrappers

  datatype Use = Begin(token: Key) | Record(token: Key, state: TokenState)

  function After(tokens: Tokens, use: Use, limit: nat): Tokens {
    match use
    case Begin(token) => if Begins(tokens, token) then Pruned(tokens[token := Pending], limit) else tokens
    case Record(token, state) => Pruned(tokens[token := state], limit)
  }

  function AfterAll(tokens: Tokens, uses: seq<Use>, limit: nat): Tokens {
    if uses == [] then tokens else After(AfterAll(tokens, uses[..|uses| - 1], limit), uses[|uses| - 1], limit)
  }

  /** Every token the store ever held or was asked about. */
  function Mentioned(keys: set<Key>, uses: seq<Use>): set<Key> {
    if uses == [] then keys else Mentioned(keys, uses[..|uses| - 1]) + {uses[|uses| - 1].token}
  }

  // ---------- The last tokens of a set ----------

  function Later(keys: set<Key>, token: Key): set<Key> {
    set other | other in keys && Before(token, other)
  }

  function Last(keys: set<Key>, limit: nat): set<Key> {
    set token | token in keys && |Later(keys, token)| < limit
  }

  lemma PrunedKeys(tokens: Tokens, limit: nat)
    ensures Pruned(tokens, limit).Keys == Last(tokens.Keys, limit)
  {
    forall token ensures NewerThan(tokens, token) == Later(tokens.Keys, token) {
    }
  }

  lemma Fewer(a: set<Key>, b: set<Key>)
    requires a <= b
    ensures |a| <= |b|
  {
    assert b == a + (b - a);
  }

  lemma {:induction false} LeastExists(keys: set<Key>) returns (least: Key)
    requires keys != {}
    ensures least in keys && forall other :: other in keys && other != least ==> Before(least, other)
    decreases |keys|
  {
    var some := Chosen(keys);
    var others := keys - {some};
    assert forall other :: other in keys <==> other == some || other in others;
    if others == {} {
      least := some;
    } else {
      var rest := LeastExists(others);
      least := if Before(rest, some) then rest else some;
    }
  }

  /** A set of enough tokens has exactly `limit` last ones. */
  lemma {:induction false} LastAreMany(keys: set<Key>, limit: nat)
    ensures |Last(keys, limit)| == if |keys| < limit then |keys| else limit
    decreases |keys|
  {
    if keys != {} {
      var least := LeastExists(keys);
      var others := keys - {least};
      LastAreMany(others, limit);
      assert Later(keys, least) == others;
      forall token | token in others ensures Later(keys, token) == Later(others, token) {
      }
      assert Last(keys, limit) == Last(others, limit) + if |others| < limit then {least} else {};
    }
  }

  /** Dropping early tokens does not let a token that had enough later ones back in. */
  lemma LaterAmongLast(keys: set<Key>, token: Key, limit: nat)
    requires |Later(keys, token)| >= limit
    ensures |Later(Last(keys, limit), token)| >= limit
  {
    var later := Later(keys, token);
    forall other | other in later ensures Later(keys, other) == Later(later, other) {
    }
    assert Later(Last(keys, limit), token) == Last(later, limit);
    LastAreMany(later, limit);
  }

  /** Adding to the last tokens, and taking the last again, is taking the last of all. */
  lemma LastOfLast(keys: set<Key>, token: Key, limit: nat)
    ensures Last(Last(keys, limit) + {token}, limit) == Last(keys + {token}, limit)
  {
    var all, kept := keys + {token}, Last(keys, limit) + {token};
    forall x ensures x in Last(kept, limit) <==> x in Last(all, limit) {
      Fewer(Later(kept, x), Later(all, x));
      Fewer(Later(keys, x), Later(all, x));
      if x in Last(kept, limit) {
        forall y | y in Later(all, x) ensures y in Later(kept, x) {
          if y != token && y !in Last(keys, limit) {
            LaterAmongLast(keys, y, limit);
            Fewer(Later(Last(keys, limit), y), Later(kept, x));
          }
        }
        Fewer(Later(all, x), Later(kept, x));
      }
    }
  }

  // ---------- Any sequence of uses ----------

  /** The start fits the bound, as everything the store persists does. */
  predicate Bounded(tokens: Tokens, limit: nat) {
    Last(tokens.Keys, limit) == tokens.Keys
  }

  /** The store holds exactly the `limit` last tokens ever mentioned. */
  lemma {:induction false} StoreHoldsTheLast(tokens: Tokens, uses: seq<Use>, limit: nat)
    requires Bounded(tokens, limit)
    ensures AfterAll(tokens, uses, limit).Keys == Last(Mentioned(tokens.Keys, uses), limit)
  {
    if uses != [] {
      var front, last := uses[..|uses| - 1], uses[|uses| - 1];
      StoreHoldsTheLast(tokens, front, limit);
      var before, known := AfterAll(tokens, front, limit), Mentioned(tokens.Keys, front);
      if last.Begin? && !Begins(before, last.token) {
        assert known + {last.token} == known;
      } else {
        var state := if last.Begin? then Pending else last.state;
        PrunedKeys(before[last.token := state], limit);
        assert before[last.token := state].Keys == Last(known, limit) + {last.token};
        LastOfLast(known, last.token, limit);
      }
    }
  }

  /** The last recording for the token said succeeded. */
  predicate RecordedSucceeded(uses: seq<Use>, token: Key) {
    uses != [] &&
    var front, last := uses[..|uses| - 1], uses[|uses| - 1];
    if last.Record? && last.token == token then last.state == Succeeded else RecordedSucceeded(front, token)
  }

  lemma {:induction false} RecordedIsMentioned(keys: set<Key>, uses: seq<Use>, token: Key)
    requires RecordedSucceeded(uses, token)
    ensures token in Mentioned(keys, uses)
  {
    var front, last := uses[..|uses| - 1], uses[|uses| - 1];
    if !(last.Record? && last.token == token) {
      RecordedIsMentioned(keys, front, token);
    }
  }

  lemma {:induction false} StoredAsSucceeded(tokens: Tokens, uses: seq<Use>, token: Key, limit: nat)
    requires Bounded(tokens, limit) && RecordedSucceeded(uses, token)
    ensures token in AfterAll(tokens, uses, limit) ==> AfterAll(tokens, uses, limit)[token] == Succeeded
  {
    var front, last := uses[..|uses| - 1], uses[|uses| - 1];
    if !(last.Record? && last.token == token) {
      StoredAsSucceeded(tokens, front, token, limit);
      if last == Begin(token) && token !in AfterAll(tokens, front, limit) {
        RecordedIsMentioned(tokens.Keys, front, token);
        StoreHoldsTheLast(tokens, front, limit);
        StoreHoldsTheLast(tokens, uses, limit);
        assert Mentioned(tokens.Keys, uses) == Mentioned(tokens.Keys, front);
      }
    }
  }

  /**
   An occurrence recorded as succeeded is refused from then on exactly while fewer than `limit` later-sorting
   tokens were ever mentioned; after that it begins again, every time it is asked for.
   */
  lemma SucceededIsKeptIff(tokens: Tokens, uses: seq<Use>, token: Key, limit: nat)
    requires Bounded(tokens, limit) && RecordedSucceeded(uses, token)
    ensures !Begins(AfterAll(tokens, uses, limit), token) <==> |Later(Mentioned(tokens.Keys, uses), token)| < limit
  {
    StoreHoldsTheLast(tokens, uses, limit);
    StoredAsSucceeded(tokens, uses, token, limit);
    RecordedIsMentioned(tokens.Keys, uses, token);
  }

  // ---------- The newest occurrence can be the one forgotten ----------

  function FirstMinutes(n: nat): (keys: set<Key>)
    ensures |keys| == n && forall key :: key in keys <==> key.collection == 2 && 0 <= key.minute < n
  {
    if n == 0 then {} else FirstMinutes(n - 1) + {Key(2, n - 1)}
  }

  /** One success a minute for a collection whose id sorts last. */
  function Successes(n: nat): (uses: seq<Use>)
    ensures |uses| == n
  {
    if n == 0 then [] else Successes(n - 1) + [Record(Key(2, n - 1), Succeeded)]
  }

  lemma {:induction false} SuccessesAreMentioned(n: nat)
    ensures Mentioned({}, Successes(n)) == FirstMinutes(n)
    ensures forall i :: 0 <= i < n ==> RecordedSucceeded(Successes(n), Key(2, i))
  {
    if n > 0 {
      SuccessesAreMentioned(n - 1);
      assert Successes(n)[..n - 1] == Successes(n - 1);
    }
  }

  /** For every limit: as many successes of one collection, then the newest of a collection sorting first, and only
      the newest is forgotten. */
  lemma NewestIsForgotten(limit: nat)
    requires limit >= 1
    ensures var newest := Key(1, limit);
      var stored := AfterAll(map[], Successes(limit) + [Record(newest, Succeeded)], limit);
      && Begins(stored, newest)
      && forall i :: 0 <= i < limit ==> Key(2, i).minute < newest.minute && !Begins(stored, Key(2, i))
  {
    var newest, uses := Key(1, limit), Successes(limit) + [Record(Key(1, limit), Succeeded)];
    var start: Tokens := map[];
    assert uses[..limit] == Successes(limit) && uses[limit] == Record(newest, Succeeded);
    SuccessesAreMentioned(limit);
    var known := Mentioned(start.Keys, uses);
    assert start.Keys == {};
    assert known == FirstMinutes(limit) + {newest};
    assert Later(known, newest) == FirstMinutes(limit);
    SucceededIsKeptIff(start, uses, newest, limit);
    forall i | 0 <= i < limit ensures !Begins(AfterAll(start, uses, limit), Key(2, i)) {
      SucceededIsKeptIff(start, uses, Key(2, i), limit);
      FewerAfterMinute(limit, i);
    }
  }

  lemma FewerAfterMinute(limit: nat, i: nat)
    requires i < limit
    ensures |Later(FirstMinutes(limit) + {Key(1, limit)}, Key(2, i))| < limit
  {
    Fewer(Later(FirstMinutes(limit) + {Key(1, limit)}, Key(2, i)), FirstMinutes(limit) - {Key(2, i)});
  }
}
