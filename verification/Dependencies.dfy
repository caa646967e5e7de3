/** The recursive dependency check of packages/workloads/state_machine.py. */
module Dependencies {
  import opened Sequences
  import opened Wrappers
  import opened Graphs

  datatype DependencyJob = DependencyJob(id: string, dependencies: set<string>)

  datatype Fault = DependencyCycle | UnknownDependency(id: string)

  /** Jobs by id, each job reduced to its dependencies: a later job with the same id wins. */
  function ById(jobs: seq<DependencyJob>): map<string, set<string>> {
    if |jobs| == 0 then map[]
    else ById(jobs[..|jobs| - 1])[jobs[|jobs| - 1].id := jobs[|jobs| - 1].dependencies]
  }

  ghost function DependsOn(byId: map<string, set<string>>): Edges {
    set a, b | a in byId && b in byId[a] :: (a, b)
  }

  ghost predicate AllKnown(byId: map<string, set<string>>) {
    forall a :: a in byId ==> byId[a] <= byId.Keys
  }

  /** Every finished job's dependencies finished before it. */
  ghost predicate PostOrder(byId: map<string, set<string>>, finished: seq<string>) {
    forall k :: 0 <= k < |finished| ==> finished[k] in byId && byId[finished[k]] <= Members(finished[..k])
  }

  /** The jobs being visited form a path of dependencies that leads to `next`. */
  ghost predicate Trail(byId: map<string, set<string>>, stack: seq<string>, next: string) {
    && IsPath(DependsOn(byId), stack)
    && (|stack| > 0 ==> (stack[|stack| - 1], next) in DependsOn(byId))
  }

  lemma PathAppend(edges: Edges, stack: seq<string>, x: string)
    requires IsPath(edges, stack) && (|stack| > 0 ==> (stack[|stack| - 1], x) in edges)
    ensures IsPath(edges, stack + [x])
  {
    var p := stack + [x];
    forall i | 0 <= i < |p| - 1
      ensures Linked(edges, p, i)
    {
      if i < |stack| - 1 {
        assert Linked(edges, stack, i);
      }
    }
  }

  /** Meeting a job that is still being visited closes a cycle. */
  lemma TrailCloses(byId: map<string, set<string>>, stack: seq<string>, next: string)
    requires Trail(byId, stack, next) && next in stack
    ensures !Acyclic(DependsOn(byId))
  {
    hide DependsOn;
    var edges, p := DependsOn(byId), stack + [next];
    PathAppend(edges, stack, next);
    var i :| 0 <= i < |stack| && stack[i] == next;
    var c := p[i..];
    forall k | 0 <= k < |c| - 1
      ensures Linked(edges, c, k)
    {
      assert Linked(edges, p, i + k);
    }
    assert PathFrom(edges, next, next, c);
    assert Reaches(edges, next, next);
  }

  lemma PostOrderAppend(byId: map<string, set<string>>, finished: seq<string>, x: string)
    requires PostOrder(byId, finished) && x in byId && byId[x] <= Members(finished)
    ensures PostOrder(byId, finished + [x])
    ensures Members(finished + [x]) == Members(finished) + {x}
  {
    var all := finished + [x];
    forall k | 0 <= k < |all|
      ensures all[k] in byId && byId[all[k]] <= Members(all[..k])
    {
      if k < |finished| {
        assert all[..k] == finished[..k] && all[k] == finished[k];
      } else {
        assert all[..k] == finished;
      }
    }
  }

  ghost function FirstIndex(s: seq<string>, x: string): (i: nat)
    requires x in s
    ensures i < |s| && s[i] == x && x !in s[..i]
  {
    if x in s[..|s| - 1] then
      var i := FirstIndex(s[..|s| - 1], x);
      assert s[..|s| - 1][..i] == s[..i];
      i
    else
      assert s == s[..|s| - 1] + [s[|s| - 1]];
      |s| - 1
  }

  lemma FirstIndexBefore(s: seq<string>, j: nat, x: string)
    requires j <= |s| && x in s[..j] && x in s
    ensures FirstIndex(s, x) < j
  {
    var f := FirstIndex(s, x);
    var i :| 0 <= i < j && s[i] == x;
    forall k | 0 <= k < f
      ensures s[k] != x
    {
      assert s[..f][k] in s[..f];
    }
  }

  /** A post-order of all jobs shows that every dependency is known and that there is no cycle. */
  lemma PostOrderDecides(byId: map<string, set<string>>, finished: seq<string>)
    requires PostOrder(byId, finished) && Members(finished) == byId.Keys
    ensures AllKnown(byId) && Acyclic(DependsOn(byId))
  {
    hide Acyclic;
    var rank: map<string, int> := map x | x in byId :: 0 - FirstIndex(finished, x) as int;
    forall a, b | a in byId && b in byId[a]
      ensures b in byId && rank[a] < rank[b]
    {
      var k := FirstIndex(finished, a);
      assert b in Members(finished[..k]);
      assert b in Members(finished);
      FirstIndexBefore(finished, k, b);
    }
    RankedIsAcyclic(DependsOn(byId), rank);
  }

  lemma TrailExtends(byId: map<string, set<string>>, stack: seq<string>, next: string)
    requires Trail(byId, stack, next) && next in byId
    ensures forall d :: d in byId[next] ==> Trail(byId, stack + [next], d)
  {
    PathAppend(DependsOn(byId), stack, next);
  }

  /** The nested `visit` and the two sets it shares with its caller. */
  class Visitor {
    const byId: map<string, set<string>>
    var visiting: set<string>
    var visited: set<string>
    ghost var stack: seq<string>
    ghost var finished: seq<string>

    ghost predicate Valid()
      reads this
    {
      && visiting == Members(stack)
      && visiting <= byId.Keys
      && visited == Members(finished)
      && visited <= byId.Keys
      && PostOrder(byId, finished)
    }

    constructor (byId: map<string, set<string>>)
      ensures this.byId == byId && Valid() && stack == [] && visiting == {} && visited == {}
    {
      this.byId := byId;
      visiting, visited, stack, finished := {}, {}, [], [];
    }

    method Visit(jobId: string) returns (fault: Option<Fault>)
      requires Valid() && Trail(byId, stack, jobId)
      modifies this
      ensures fault.None? ==>
                && Valid() && stack == old(stack) && visiting == old(visiting)
                && old(visited) <= visited && jobId in visited
      ensures fault == Some(DependencyCycle) ==> !Acyclic(DependsOn(byId))
      ensures fault.Some? && fault.value.UnknownDependency? ==>
                fault.value.id !in byId
                && (fault.value.id == jobId || exists a :: a in byId && fault.value.id in byId[a])
      decreases |byId.Keys - visiting|, 0
    {
      hide PostOrder, Acyclic, Trail, Members, DependsOn;
      MembersHas(stack);
      if jobId in visiting {
        TrailCloses(byId, stack, jobId);
        return Some(DependencyCycle);
      }
      if jobId in visited {
        return None;
      }
      if jobId !in byId {
        return Some(UnknownDependency(jobId));
      }
      TrailExtends(byId, stack, jobId);
      MembersAppend(stack, jobId);
      FewerLeft(byId.Keys, visiting, jobId);
      visiting, stack := visiting + {jobId}, stack + [jobId];
      fault := VisitAll(jobId);
      if fault.Some? {
        return;
      }
      PostOrderAppend(byId, finished, jobId);
      assert visiting - {jobId} == old(visiting);
      visiting, stack := visiting - {jobId}, old(stack);
      visited, finished := visited + {jobId}, finished + [jobId];
    }

    /** The loop over a job's dependencies, in any order. */
    method VisitAll(jobId: string) returns (fault: Option<Fault>)
      requires Valid() && jobId in byId && forall d :: d in byId[jobId] ==> Trail(byId, stack, d)
      modifies this
      ensures fault.None? ==>
                && Valid() && stack == old(stack) && visiting == old(visiting)
                && old(visited) <= visited && byId[jobId] <= visited
      ensures fault == Some(DependencyCycle) ==> !Acyclic(DependsOn(byId))
      ensures fault.Some? && fault.value.UnknownDependency? ==>
                fault.value.id !in byId && exists a :: a in byId && fault.value.id in byId[a]
      decreases |byId.Keys - visiting|, 1
    {
      hide PostOrder, Acyclic, Trail, Members, DependsOn, Valid;
      var todo := byId[jobId];
      while todo != {}
        invariant todo <= byId[jobId] && byId[jobId] - todo <= visited
        invariant Valid() && stack == old(stack) && visiting == old(visiting)
        invariant old(visited) <= visited
        decreases todo
      {
        var dependency :| dependency in todo;
        fault := Visit(dependency);
        if fault.Some? {
          return;
        }
        todo := todo - {dependency};
      }
      return None;
    }
  }

  /** Accepts exactly when every dependency is a known job and no job depends on itself, however indirectly. */
  method ValidateDependencyGraph(jobs: seq<DependencyJob>) returns (fault: Option<Fault>)
    ensures fault.None? <==> AllKnown(ById(jobs)) && Acyclic(DependsOn(ById(jobs)))
    ensures fault == Some(DependencyCycle) ==> !Acyclic(DependsOn(ById(jobs)))
    ensures fault.Some? && fault.value.UnknownDependency? ==>
              fault.value.id !in ById(jobs) && exists a :: a in ById(jobs) && fault.value.id in ById(jobs)[a]
  {
    hide PostOrder, Acyclic, DependsOn;
    var byId := ById(jobs);
    var visitor := new Visitor(byId);
    var todo := byId.Keys;
    while todo != {}
      invariant todo <= byId.Keys && byId.Keys - todo <= visitor.visited
      invariant visitor.byId == byId && visitor.Valid() && visitor.stack == []
      decreases todo
    {
      var item :| item in todo;
      EmptyTrail(byId, item);
      fault := visitor.Visit(item);
      if fault.Some? {
        return;
      }
      todo := todo - {item};
    }
    PostOrderDecides(byId, visitor.finished);
    return None;
  }

  lemma EmptyTrail(byId: map<string, set<string>>, next: string)
    ensures Trail(byId, [], next)
  {
  }
}
