/** Members, order and repetition in sequences. */
module Sequences {
  function Members<T(==)>(s: seq<T>): set<T> {
    set x | x in s
  }

  lemma MembersHas<T(!new)>(s: seq<T>)
    ensures forall x :: x in s <==> x in Members(s)
  {
  }

  lemma NoMembers<T>()
    ensures Members<T>([]) == {}
  {
  }

  lemma MembersAppend<T>(s: seq<T>, x: T)
    ensures Members(s + [x]) == Members(s) + {x}
  {
  }

  predicate Increasing(s: seq<int>) {
    forall i, j :: 0 <= i < j < |s| ==> s[i] < s[j]
  }

  /** Some position of `x`. */
  ghost function PositionOf<T>(s: seq<T>, x: T): (i: nat)
    requires x in s
    ensures i < |s| && s[i] == x
  {
    var i :| 0 <= i < |s| && s[i] == x;
    i
  }

  /** The first element, or the default of an empty sequence. */
  lemma EmptyOrFirst<T>(s: seq<T>, otherwise: T) returns (first: T)
    ensures |s| == 0 || first in s
  {
    first := if |s| == 0 then otherwise else s[0];
  }

  lemma Twice<T>(s: seq<T>, i: nat, j: nat)
    requires i < j < |s| && s[i] == s[j]
    ensures multiset(s)[s[i]] >= 2
  {
    assert s == s[..j] + s[j..];
    assert s[..j][i] == s[i] && s[j..][0] == s[j];
    assert s[i] in multiset(s[..j]) && s[i] in multiset(s[j..]);
  }

  lemma FewerLeft<T>(all: set<T>, done: set<T>, x: T)
    requires x in all && x !in done
    ensures |all - (done + {x})| < |all - done|
  {
    assert all - done == (all - (done + {x})) + {x};
  }
}
