/** Facts about duplicate-free sequences and order-preserving filters. */
module Sequences {
  ghost predicate Unique<T(!new)>(s: seq<T>) {
    forall i, k :: 0 <= i < k < |s| ==> s[i] != s[k]
  }

  function Count<T(==)>(s: seq<T>, x: T): nat {
    if s == [] then 0 else Count(s[..|s| - 1], x) + if s[|s| - 1] == x then 1 else 0
  }

  /** The first position at which an element stands. */
  function FirstAt<T(==)>(s: seq<T>, x: T): (k: nat)
    requires x in s
    ensures k < |s| && s[k] == x && x !in s[..k]
  {
    if s[0] == x then 0 else 1 + FirstAt(s[1..], x)
  }

  /** The elements of `s` that are (or are not) among the given ones, in order. */
  function Kept<T(==)>(s: seq<T>, among: seq<T>, wanted: bool): seq<T> {
    if s == [] then [] else
      var front, last := Kept(s[..|s| - 1], among, wanted), s[|s| - 1];
      if (last in among) == wanted then front + [last] else front
  }

  lemma {:induction false} KeptElements<T(!new)>(s: seq<T>, among: seq<T>, wanted: bool)
    ensures forall x :: x in Kept(s, among, wanted) <==> x in s && (x in among) == wanted
    ensures Unique(s) ==> Unique(Kept(s, among, wanted))
  {
    if s != [] {
      KeptElements(s[..|s| - 1], among, wanted);
    }
  }

  lemma {:induction false} UniqueFits<T(!new)>(a: seq<T>, b: seq<T>)
    requires Unique(a) && forall x :: x in a ==> x in b
    ensures |a| <= |b|
  {
    if a != [] {
      var front, last := a[..|a| - 1], a[|a| - 1];
      assert last in a;
      var i :| 0 <= i < |b| && b[i] == last;
      var others := b[..i] + b[i + 1..];
      forall x | x in front ensures x in others {
        assert x in a;
        var k :| 0 <= k < |b| && b[k] == x;
        assert others[if k < i then k else k - 1] == x;
      }
      UniqueFits(front, others);
    }
  }

  /** A duplicate-free part of a duplicate-free whole is as long exactly when nothing is left over. */
  lemma PartIsWhole<T(!new)>(part: seq<T>, whole: seq<T>)
    requires Unique(part) && Unique(whole) && forall x :: x in part ==> x in whole
    ensures |part| <= |whole|
    ensures Kept(whole, part, false) == [] <==> |part| == |whole|
    ensures |part| == |whole| ==> forall x :: x in whole ==> x in part
  {
    UniqueFits(part, whole);
    KeptElements(whole, part, false);
    var left := Kept(whole, part, false);
    if left == [] {
      forall x | x in whole ensures x in part {
        assert x in left <==> x !in part;
      }
      UniqueFits(whole, part);
    } else {
      assert left[0] in left;
      UniqueFits(part + [left[0]], whole);
    }
  }

  lemma {:induction false} KeptAll<T(!new)>(s: seq<T>, among: seq<T>, wanted: bool)
    ensures (forall x :: x in s ==> (x in among) == wanted) ==> Kept(s, among, wanted) == s
    ensures (forall x :: x in s ==> (x in among) != wanted) ==> Kept(s, among, wanted) == []
  {
    if s != [] {
      KeptAll(s[..|s| - 1], among, wanted);
    }
  }

  lemma {:induction false} KeptOfConcat<T(!new)>(a: seq<T>, b: seq<T>, among: seq<T>, wanted: bool)
    ensures Kept(a + b, among, wanted) == Kept(a, among, wanted) + Kept(b, among, wanted)
    decreases |b|
  {
    if b == [] {
      assert a + b == a;
    } else {
      assert (a + b)[..|a + b| - 1] == a + b[..|b| - 1];
      KeptOfConcat(a, b[..|b| - 1], among, wanted);
    }
  }

  lemma KeptPrefix<T(!new)>(s: seq<T>, m: nat)
    requires m <= |s|
    ensures Kept(s[..m], s, true) == s[..m]
  {
    assert forall x :: x in s[..m] ==> x in s;
    KeptAll(s[..m], s, true);
  }

  lemma KeptBehind<T(!new)>(front: seq<T>, back: seq<T>)
    requires forall x :: x in back ==> x !in front
    ensures Kept(front + back, front, false) == back
  {
    KeptOfConcat(front, back, front, false);
    KeptAll(front, front, false);
    KeptAll(back, front, false);
  }

  lemma KeptAfterPrefix<T(!new)>(s: seq<T>, m: nat)
    requires Unique(s) && m <= |s|
    ensures Kept(s, s[..m], false) == s[m..]
  {
    KeptBehind(s[..m], s[m..]);
    assert s[..m] + s[m..] == s;
  }
}
