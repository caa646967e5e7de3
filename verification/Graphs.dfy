/** Finite directed graphs over string ids: paths, reachability, cycles. */
module Graphs {
  type Edges = set<(string, string)>

  ghost predicate Linked(edges: Edges, p: seq<string>, i: int)
    requires 0 <= i < |p| - 1
  {
    (p[i], p[i + 1]) in edges
  }

  ghost predicate IsPath(edges: Edges, p: seq<string>) {
    forall i :: 0 <= i < |p| - 1 ==> Linked(edges, p, i)
  }

  ghost predicate PathFrom(edges: Edges, a: string, b: string, p: seq<string>) {
    |p| >= 2 && p[0] == a && p[|p| - 1] == b && IsPath(edges, p)
  }

  /** One or more edges lead from `a` to `b`. */
  ghost predicate Reaches(edges: Edges, a: string, b: string) {
    exists p :: PathFrom(edges, a, b, p)
  }

  ghost predicate Acyclic(edges: Edges) {
    forall a :: !Reaches(edges, a, a)
  }

  lemma ReachesEdge(edges: Edges, a: string, b: string)
    requires (a, b) in edges
    ensures Reaches(edges, a, b)
  {
    var p := [a, b];
    assert Linked(edges, p, 0);
    assert PathFrom(edges, a, b, p);
  }

  /** Extending a walk by one more edge. */
  lemma ReachesThen(edges: Edges, a: string, b: string, c: string)
    requires Reaches(edges, a, b) && (b, c) in edges
    ensures Reaches(edges, a, c)
  {
    var p :| PathFrom(edges, a, b, p);
    var q := p + [c];
    forall i | 0 <= i < |q| - 1
      ensures Linked(edges, q, i)
    {
      if i < |p| - 1 {
        assert Linked(edges, p, i);
      }
    }
    assert PathFrom(edges, a, c, q);
  }

  /** Along a path a quantity that grows with every edge has grown. */
  lemma {:induction false} RankGrows(edges: Edges, rank: map<string, int>, p: seq<string>, i: nat)
    requires forall e :: e in edges ==> e.0 in rank && e.1 in rank && rank[e.0] < rank[e.1]
    requires IsPath(edges, p) && 0 < i < |p|
    ensures p[0] in rank && p[i] in rank && rank[p[0]] < rank[p[i]]
  {
    assert Linked(edges, p, i - 1);
    assert (p[i - 1], p[i]) in edges;
    if i > 1 {
      RankGrows(edges, rank, p, i - 1);
    }
  }

  /** A numbering that grows along every edge rules out cycles. */
  lemma RankedIsAcyclic(edges: Edges, rank: map<string, int>)
    requires forall e :: e in edges ==> e.0 in rank && e.1 in rank && rank[e.0] < rank[e.1]
    ensures Acyclic(edges)
  {
    forall a
      ensures !Reaches(edges, a, a)
    {
      forall p
        ensures !PathFrom(edges, a, a, p)
      {
        if |p| >= 2 && IsPath(edges, p) {
          RankGrows(edges, rank, p, |p| - 1);
        }
      }
    }
  }

  // ----- no sources, then a cycle -----

  lemma {:induction false} Pigeonhole(s: set<string>, p: seq<string>)
    requires forall i :: 0 <= i < |p| ==> p[i] in s
    requires |p| > |s|
    ensures exists i, j :: 0 <= i < j < |p| && p[i] == p[j]
    decreases |s|
  {
    var last := |p| - 1;
    if j :| 0 <= j < last && p[j] == p[last] {
    } else {
      var front := p[..last];
      Pigeonhole(s - {p[last]}, front);
      var i, j :| 0 <= i < j < |front| && front[i] == front[j];
      assert p[i] == p[j];
    }
  }

  ghost predicate HasPredecessor(edges: Edges, s: set<string>, v: string) {
    exists u :: u in s && (u, v) in edges
  }

  ghost predicate Backed(edges: Edges, s: set<string>) {
    forall v {:trigger HasPredecessor(edges, s, v)} :: v in s ==> HasPredecessor(edges, s, v)
  }

  lemma Predecessor(edges: Edges, s: set<string>, v: string) returns (u: string)
    requires Backed(edges, s) && v in s
    ensures u in s && (u, v) in edges
  {
    assert HasPredecessor(edges, s, v);
    u :| u in s && (u, v) in edges;
  }

  /** A walk of any length into a node, inside a set where every node has a predecessor. */
  lemma {:induction false} WalkTo(edges: Edges, s: set<string>, v: string, n: nat) returns (p: seq<string>)
    requires Backed(edges, s) && v in s
    ensures |p| == n + 1 && IsPath(edges, p) && (forall i :: 0 <= i < |p| ==> p[i] in s) && p[n] == v
    decreases n
  {
    hide Backed;
    if n == 0 {
      p := [v];
    } else {
      var u := Predecessor(edges, s, v);
      var q := WalkTo(edges, s, u, n - 1);
      p := q + [v];
      forall i | 0 <= i < |p| - 1
        ensures Linked(edges, p, i)
      {
        if i < |q| - 1 {
          assert Linked(edges, q, i);
        }
      }
    }
  }

  /** A non-empty set of nodes that all have predecessors inside it holds a cycle. */
  lemma BackedHasCycle(edges: Edges, s: set<string>)
    requires Backed(edges, s) && s != {}
    ensures !Acyclic(edges)
  {
    hide Backed;
    var v :| v in s;
    var p := WalkTo(edges, s, v, |s|);
    Pigeonhole(s, p);
    var i, j :| 0 <= i < j < |p| && p[i] == p[j];
    var c := p[i..j + 1];
    forall k | 0 <= k < |c| - 1
      ensures Linked(edges, c, k)
    {
      assert Linked(edges, p, i + k);
    }
    assert PathFrom(edges, p[i], p[i], c);
    assert Reaches(edges, p[i], p[i]);
  }
}
