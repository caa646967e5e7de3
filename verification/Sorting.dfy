/** Python's `sorted`, as a stable insertion sort, and sums that do not depend on order. */
module Sorting {
  import opened Sequences

  ghost predicate TotalPreorder<T(!new)>(le: (T, T) -> bool) {
    && (forall a, b :: le(a, b) || le(b, a))
    && (forall a, b, c :: le(a, b) && le(b, c) ==> le(a, c))
  }

  ghost predicate SortedBy<T>(le: (T, T) -> bool, s: seq<T>) {
    forall i, j :: 0 <= i < j < |s| ==> le(s[i], s[j])
  }

  /** `x` goes behind every element it does not precede, so equal keys keep their order. */
  function Insert<T>(le: (T, T) -> bool, x: T, s: seq<T>): seq<T> {
    if |s| == 0 then [x]
    else if le(s[|s| - 1], x) then s + [x]
    else Insert(le, x, s[..|s| - 1]) + [s[|s| - 1]]
  }

  function Sort<T>(le: (T, T) -> bool, s: seq<T>): seq<T> {
    if |s| == 0 then [] else Insert(le, s[|s| - 1], Sort(le, s[..|s| - 1]))
  }

  lemma {:induction false} InsertPermutes<T>(le: (T, T) -> bool, x: T, s: seq<T>)
    ensures multiset(Insert(le, x, s)) == multiset(s) + multiset{x}
  {
    if |s| == 0 {
    } else {
      assert s == s[..|s| - 1] + [s[|s| - 1]];
      InsertPermutes(le, x, s[..|s| - 1]);
    }
  }

  lemma {:induction false} SortPermutes<T>(le: (T, T) -> bool, s: seq<T>)
    ensures multiset(Sort(le, s)) == multiset(s)
    ensures |Sort(le, s)| == |s|
    ensures forall x :: x in Sort(le, s) <==> x in s
  {
    if |s| == 0 {
    } else {
      SortPermutes(le, s[..|s| - 1]);
      InsertPermutes(le, s[|s| - 1], Sort(le, s[..|s| - 1]));
      assert s == s[..|s| - 1] + [s[|s| - 1]];
    }
    assert |multiset(Sort(le, s))| == |multiset(s)|;
    forall x
      ensures x in Sort(le, s) <==> x in s
    {
      assert x in Sort(le, s) <==> x in multiset(Sort(le, s));
      assert x in s <==> x in multiset(s);
    }
  }

  lemma {:induction false} InsertSorted<T(!new)>(le: (T, T) -> bool, x: T, s: seq<T>)
    requires TotalPreorder(le) && SortedBy(le, s)
    ensures SortedBy(le, Insert(le, x, s))
  {
    if |s| > 0 && !le(s[|s| - 1], x) {
      var front, last := s[..|s| - 1], s[|s| - 1];
      InsertSorted(le, x, front);
      InsertPermutes(le, x, front);
      var r := Insert(le, x, front);
      forall i | 0 <= i < |r|
        ensures le(r[i], last)
      {
        assert r[i] in multiset(r);
        if r[i] != x {
          assert r[i] in multiset(front);
          assert r[i] in front;
        }
      }
    }
  }

  lemma {:induction false} SortSorts<T(!new)>(le: (T, T) -> bool, s: seq<T>)
    requires TotalPreorder(le)
    ensures SortedBy(le, Sort(le, s))
  {
    if |s| == 0 {
    } else {
      SortSorts(le, s[..|s| - 1]);
      InsertSorted(le, s[|s| - 1], Sort(le, s[..|s| - 1]));
    }
  }

  ghost function SumOver<T>(f: T -> real, s: seq<T>): real {
    if |s| == 0 then 0.0 else SumOver(f, s[..|s| - 1]) + f(s[|s| - 1])
  }

  lemma {:induction false} SumConcat<T>(f: T -> real, a: seq<T>, b: seq<T>)
    ensures SumOver(f, a + b) == SumOver(f, a) + SumOver(f, b)
  {
    if |b| == 0 {
      assert a + b == a;
    } else {
      SumConcat(f, a, b[..|b| - 1]);
      assert (a + b)[..|a + b| - 1] == a + b[..|b| - 1];
    }
  }

  ghost function Without<T>(t: seq<T>, i: nat): (r: seq<T>)
    requires i < |t|
    ensures |r| == |t| - 1
  {
    t[..i] + t[i + 1..]
  }

  lemma WithoutOne<T>(t: seq<T>, i: nat)
    requires i < |t|
    ensures multiset(Without(t, i)) == multiset(t) - multiset{t[i]}
  {
    SplitAt(t, i);
  }

  /** A sum over a list depends only on what the list holds. */
  lemma {:induction false} SumPermutes<T>(f: T -> real, s: seq<T>, t: seq<T>)
    requires multiset(s) == multiset(t)
    ensures SumOver(f, s) == SumOver(f, t)
    decreases |s|
  {
    hide SumOver, Without;
    assert |multiset(s)| == |s| && |multiset(t)| == |t|;
    if |s| == 0 {
      assert s == t;
    } else {
      var m := |s| - 1;
      WithoutOne(s, m);
      assert s[m] in multiset(t);
      var i :| 0 <= i < |t| && t[i] == s[m];
      WithoutOne(t, i);
      SumPermutes(f, Without(s, m), Without(t, i));
      SumWithout(f, s, m);
      SumWithout(f, t, i);
    }
  }

  lemma {:induction false} SumAppend<T>(f: T -> real, a: seq<T>, x: T)
    ensures SumOver(f, a + [x]) == SumOver(f, a) + f(x)
  {
    assert (a + [x])[..|a|] == a;
  }

  lemma SplitAt<T>(t: seq<T>, i: nat)
    requires i < |t|
    ensures t == (t[..i] + [t[i]]) + t[i + 1..]
  {
  }

  lemma {:induction false} SumWithout<T>(f: T -> real, t: seq<T>, i: nat)
    requires i < |t|
    ensures SumOver(f, t) == SumOver(f, Without(t, i)) + f(t[i])
  {
    hide SumOver;
    var a, b := t[..i], t[i + 1..];
    SplitAt(t, i);
    SumConcat(f, a, b);
    SumConcat(f, a + [t[i]], b);
    SumAppend(f, a, t[i]);
  }

  /** Lexicographic order on strings. */
  predicate StringLe(a: string, b: string) {
    |a| == 0 || (|b| > 0 && (a[0] < b[0] || (a[0] == b[0] && StringLe(a[1..], b[1..]))))
  }

  /** Dictionary order: a prefix comes first, and otherwise the first difference decides. */
  ghost predicate Alphabetical(a: string, b: string) {
    a <= b || exists k :: 0 <= k < |a| && k < |b| && a[..k] == b[..k] && a[k] < b[k]
  }

  lemma {:induction false} StringLeIsAlphabetical(a: string, b: string)
    ensures StringLe(a, b) <==> Alphabetical(a, b)
  {
    if |a| == 0 || |b| == 0 || a[0] != b[0] {
      if |a| > 0 && |b| > 0 {
        assert a[..0] == b[..0];
      }
    } else {
      StringLeIsAlphabetical(a[1..], b[1..]);
      AlphabeticalTail(a, b);
    }
  }

  lemma AlphabeticalTail(a: string, b: string)
    requires |a| > 0 && |b| > 0 && a[0] == b[0]
    ensures Alphabetical(a, b) <==> Alphabetical(a[1..], b[1..])
  {
    assert a == [a[0]] + a[1..] && b == [b[0]] + b[1..];
    if k :| 0 <= k < |a| && k < |b| && a[..k] == b[..k] && a[k] < b[k] {
      assert a[1..][..k - 1] == a[..k][1..] && b[1..][..k - 1] == b[..k][1..];
      assert a[1..][k - 1] == a[k] && b[1..][k - 1] == b[k];
    }
    if k :| 0 <= k < |a[1..]| && k < |b[1..]| && a[1..][..k] == b[1..][..k] && a[1..][k] < b[1..][k] {
      assert a[..k + 1] == [a[0]] + a[1..][..k] && b[..k + 1] == [b[0]] + b[1..][..k];
      assert a[k + 1] < b[k + 1];
    }
  }

  lemma {:induction false} StringLeTotal(a: string, b: string)
    ensures StringLe(a, b) || StringLe(b, a)
  {
    if |a| > 0 && |b| > 0 {
      StringLeTotal(a[1..], b[1..]);
    }
  }

  lemma {:induction false} StringLeTransitive(a: string, b: string, c: string)
    requires StringLe(a, b) && StringLe(b, c)
    ensures StringLe(a, c)
  {
    if |a| > 0 && a[0] == b[0] && b[0] == c[0] {
      StringLeTransitive(a[1..], b[1..], c[1..]);
    }
  }

  lemma {:induction false} StringLeAntisymmetric(a: string, b: string)
    requires StringLe(a, b) && StringLe(b, a)
    ensures a == b
  {
    if |a| == 0 {
    } else {
      StringLeAntisymmetric(a[1..], b[1..]);
      assert a == [a[0]] + a[1..] && b == [b[0]] + b[1..];
    }
  }

  // ----- sets of integers -----

  /** `sorted` on a set of integers. */
  method SortedSet(s: set<int>) returns (sorted: seq<int>)
    ensures Increasing(sorted) && Members(sorted) == s
  {
    hide Members;
    sorted := [];
    var rest := s;
    NoMembers<int>();
    while rest != {}
      invariant Members(sorted) + rest == s && Members(sorted) !! rest
      invariant Increasing(sorted)
      invariant forall i, x :: 0 <= i < |sorted| && x in rest ==> sorted[i] < x
      decreases rest
    {
      LeastExists(rest);
      var least :| IsLeast(rest, least);
      MembersAppend(sorted, least);
      sorted := sorted + [least];
      rest := rest - {least};
    }
  }

  predicate IsLeast(s: set<int>, least: int) {
    least in s && forall x :: x in s ==> least <= x
  }

  lemma {:induction false} LeastExists(s: set<int>)
    requires s != {}
    ensures exists least :: IsLeast(s, least)
    decreases |s|
  {
    assert (forall y :: y !in s) ==> s == {};
    var y :| y in s;
    var rest := s - {y};
    assert forall x :: x in s ==> x == y || x in rest;
    if rest == {} {
      assert IsLeast(s, y);
    } else {
      LeastExists(rest);
      var least :| IsLeast(rest, least);
      assert IsLeast(s, if y < least then y else least);
    }
  }
}
