/** The asset graph checks of packages/topology/validation.py: Kahn's cycle check with capacity limits, and the
    breadth-first walk to an asset's descendants. */
module Topology {
  import opened Sequences
  import opened Wrappers
  import opened Graphs
  import opened Sorting

  datatype Asset = Asset(id: string, tenantId: string, capacityKw: real)

  datatype Relationship = Relationship(parentId: string, childId: string)

  datatype Verdict = Accepted | DuplicateAsset | Orphan | CrossTenant | Cycle | CapacityExceeded(parentId: string)

  // ----- what a valid topology is -----

  ghost predicate UniqueIds(assets: seq<Asset>) {
    forall i, j :: 0 <= i < j < |assets| ==> assets[i].id != assets[j].id
  }

  function Ids(assets: seq<Asset>): set<string> {
    set a | a in assets :: a.id
  }

  /** Assets by id. */
  function ById(assets: seq<Asset>): (m: map<string, Asset>)
    ensures m.Keys == Ids(assets)
    ensures forall id :: id in m ==> m[id] in assets && m[id].id == id
  {
    if |assets| == 0 then map[]
    else
      var front, last := assets[..|assets| - 1], assets[|assets| - 1];
      assert assets == front + [last];
      ById(front)[last.id := last]
  }

  ghost function EdgesOf(relationships: seq<Relationship>): Edges {
    set r | r in relationships :: (r.parentId, r.childId)
  }

  ghost predicate EndpointsKnown(assets: seq<Asset>, relationships: seq<Relationship>) {
    forall r :: r in relationships ==> r.parentId in Ids(assets) && r.childId in Ids(assets)
  }

  ghost predicate SameTenant(assets: seq<Asset>, relationships: seq<Relationship>) {
    forall r :: r in relationships && r.parentId in ById(assets) && r.childId in ById(assets) ==>
      ById(assets)[r.parentId].tenantId == ById(assets)[r.childId].tenantId
  }

  /** Children of one parent, an edge at a time and in order, so a repeated edge counts twice. */
  function ChildList(relationships: seq<Relationship>, parent: string): seq<string> {
    if |relationships| == 0 then []
    else
      var last := relationships[|relationships| - 1];
      ChildList(relationships[..|relationships| - 1], parent) + if last.parentId == parent then [last.childId] else []
  }

  function CapacitySum(byId: map<string, Asset>, ids: seq<string>): real {
    if |ids| == 0 then 0.0
    else
      CapacitySum(byId, ids[..|ids| - 1])
      + if ids[|ids| - 1] in byId then byId[ids[|ids| - 1]].capacityKw else 0.0
  }

  /** What one edge puts on a parent: the capacity of its child, and nothing on any other asset. */
  ghost function EdgeLoad(byId: map<string, Asset>, parent: string): Relationship -> real {
    (r: Relationship) => if r.parentId == parent && r.childId in byId then byId[r.childId].capacityKw else 0.0
  }

  /** A parent of positive capacity whose child edges, each counted with its child's capacity, come to more. */
  ghost predicate Overloaded(byId: map<string, Asset>, relationships: seq<Relationship>, parent: string)
    requires parent in byId
  {
    byId[parent].capacityKw > 0.0 && SumOver(EdgeLoad(byId, parent), relationships) > byId[parent].capacityKw
  }

  lemma CapacitySumAppend(byId: map<string, Asset>, ids: seq<string>, id: string)
    ensures CapacitySum(byId, ids + [id])
            == CapacitySum(byId, ids) + if id in byId then byId[id].capacityKw else 0.0
  {
    assert (ids + [id])[..|ids|] == ids;
  }

  /** Summing over a parent's child list is summing over its edges. */
  lemma {:induction false} CapacitySumIsEdgeLoad(
    byId: map<string, Asset>, relationships: seq<Relationship>, parent: string)
    ensures CapacitySum(byId, ChildList(relationships, parent)) == SumOver(EdgeLoad(byId, parent), relationships)
  {
    hide CapacitySum;
    if |relationships| == 0 {
      NoCapacity(byId);
    } else {
      var front, last := relationships[..|relationships| - 1], relationships[|relationships| - 1];
      CapacitySumIsEdgeLoad(byId, front, parent);
      if last.parentId == parent {
        CapacitySumAppend(byId, ChildList(front, parent), last.childId);
      } else {
        assert ChildList(relationships, parent) == ChildList(front, parent);
      }
    }
  }

  lemma NoCapacity(byId: map<string, Asset>)
    ensures CapacitySum(byId, []) == 0.0
  {
  }

  ghost predicate WithinBoundaries(assets: seq<Asset>, relationships: seq<Relationship>) {
    forall parent :: parent in ById(assets) ==> !Overloaded(ById(assets), relationships, parent)
  }

  ghost predicate ValidTopology(assets: seq<Asset>, relationships: seq<Relationship>) {
    && UniqueIds(assets)
    && EndpointsKnown(assets, relationships)
    && SameTenant(assets, relationships)
    && Acyclic(EdgesOf(relationships))
    && WithinBoundaries(assets, relationships)
  }

  // ----- counting -----

  lemma UniqueStep(front: seq<Asset>, last: Asset)
    ensures UniqueIds(front + [last]) <==> UniqueIds(front) && last.id !in Ids(front)
    ensures Ids(front + [last]) == Ids(front) + {last.id}
  {
    var all := front + [last];
    assert forall i :: 0 <= i < |front| ==> all[i] == front[i] && front[i] in front;
    if last.id in Ids(front) {
      var a :| a in front && a.id == last.id;
      var i :| 0 <= i < |front| && front[i] == a;
      assert all[i].id == all[|front|].id;
    } else {
      assert forall i :: 0 <= i < |front| ==> front[i].id in Ids(front);
    }
  }

  lemma {:induction false} IdsCount(assets: seq<Asset>)
    ensures |Ids(assets)| <= |assets|
    ensures |Ids(assets)| == |assets| <==> UniqueIds(assets)
  {
    if |assets| == 0 {
    } else {
      hide UniqueIds, Ids;
      var front, last := assets[..|assets| - 1], assets[|assets| - 1];
      assert assets == front + [last];
      UniqueStep(front, last);
      IdsCount(front);
    }
  }

  /** Edges into `v` whose parent is not yet done. */
  ghost function InCount(relationships: seq<Relationship>, v: string, done: set<string>): nat {
    if |relationships| == 0 then 0
    else
      var last := relationships[|relationships| - 1];
      InCount(relationships[..|relationships| - 1], v, done)
      + if last.childId == v && last.parentId !in done then 1 else 0
  }

  ghost function Occurrences(s: seq<string>, v: string): nat {
    multiset(s)[v]
  }

  lemma {:induction false} InCountZero(relationships: seq<Relationship>, v: string, done: set<string>)
    ensures InCount(relationships, v, done) == 0 <==>
            forall r :: r in relationships && r.childId == v ==> r.parentId in done
  {
    if |relationships| == 0 {
    } else {
      var front, last := relationships[..|relationships| - 1], relationships[|relationships| - 1];
      InCountZero(front, v, done);
      assert relationships == front + [last];
    }
  }

  /** Finishing a node releases one edge per occurrence in its child list. */
  lemma {:induction false} InCountDone(relationships: seq<Relationship>, v: string, done: set<string>, node: string)
    requires node !in done
    ensures InCount(relationships, v, done)
            == InCount(relationships, v, done + {node}) + Occurrences(ChildList(relationships, node), v)
  {
    if |relationships| == 0 {
    } else {
      var front, last := relationships[..|relationships| - 1], relationships[|relationships| - 1];
      InCountDone(front, v, done, node);
    }
  }

  lemma {:induction false} ChildMember(relationships: seq<Relationship>, parent: string, child: string)
    ensures child in ChildList(relationships, parent) <==>
            exists r :: r in relationships && r.parentId == parent && r.childId == child
  {
    if |relationships| == 0 {
    } else {
      var front, last := relationships[..|relationships| - 1], relationships[|relationships| - 1];
      ChildMember(front, parent, child);
      assert relationships == front + [last];
    }
  }

  function ChildrenIn(children: map<string, seq<string>>, node: string): seq<string> {
    if node in children then children[node] else []
  }

  // ----- Kahn's algorithm -----

  ghost predicate NoRepeat(s: seq<string>) {
    forall i, j :: 0 <= i < j < |s| ==> s[i] != s[j]
  }

  /** In-degrees count the edges from unfinished parents plus those of `rest`, the edges still to be released;
      the queue holds exactly the unfinished nodes of in-degree zero. */
  ghost predicate Counted(
    ids: set<string>, relationships: seq<Relationship>, done: set<string>, queue: seq<string>,
    indegree: map<string, int>, rest: seq<string>)
  {
    && indegree.Keys == ids
    && (forall v :: v in ids ==> indegree[v] == InCount(relationships, v, done) + Occurrences(rest, v))
    && NoRepeat(queue)
    && (forall v :: v in queue <==> v in ids && v !in done && indegree[v] == 0)
  }

  /** Every finished node's parents were finished before it. */
  ghost predicate Ordered(relationships: seq<Relationship>, processed: seq<string>) {
    forall r, j :: r in relationships && 0 <= j < |processed| && processed[j] == r.childId ==>
      r.parentId in processed[..j]
  }

  lemma NoRepeatAppend(s: seq<string>, x: string)
    requires NoRepeat(s) && x !in s
    ensures NoRepeat(s + [x])
  {
  }

  lemma NoRepeatTail(s: seq<string>)
    requires NoRepeat(s) && |s| > 0
    ensures NoRepeat(s[1..]) && s[0] !in s[1..]
    ensures forall x :: x in s <==> x == s[0] || x in s[1..]
  {
    assert s == [s[0]] + s[1..];
  }

  lemma {:induction false} MembersCount(s: seq<string>)
    requires NoRepeat(s)
    ensures |Members(s)| == |s|
  {
    if |s| == 0 {
    } else {
      var front, last := s[..|s| - 1], s[|s| - 1];
      MembersCount(front);
      assert s == front + [last];
      assert Members(s) == Members(front) + {last};
      assert last !in front;
    }
  }

  /** The loop over a node's children: lower each child's in-degree, queueing it when it reaches zero. */
  method Release(
    list: seq<string>, queue0: seq<string>, indegree0: map<string, int>,
    ghost ids: set<string>, ghost relationships: seq<Relationship>, ghost done: set<string>)
    returns (queue: seq<string>, indegree: map<string, int>)
    requires Counted(ids, relationships, done, queue0, indegree0, list)
    requires forall c :: c in list ==> c in ids && c !in done
    ensures Counted(ids, relationships, done, queue, indegree, [])
  {
    hide InCount, NoRepeat;
    queue, indegree := queue0, indegree0;
    for k := 0 to |list|
      invariant Counted(ids, relationships, done, queue, indegree, list[k..])
    {
      var child := list[k];
      assert list[k..] == [child] + list[k + 1..];
      assert child in list;
      indegree := indegree[child := indegree[child] - 1];
      if indegree[child] == 0 {
        assert child !in queue;
        NoRepeatAppend(queue, child);
        queue := queue + [child];
      }
    }
    assert list[|list|..] == [];
  }

  /** Popping a node keeps the counts, with that node's own edges still to be released. */
  lemma Popped(
    ids: set<string>, relationships: seq<Relationship>, processed: seq<string>, queue: seq<string>,
    indegree: map<string, int>)
    requires Counted(ids, relationships, Members(processed), queue, indegree, []) && |queue| > 0
    requires Ordered(relationships, processed) && NoRepeat(processed)
    requires forall r :: r in relationships ==> r.childId in ids
    ensures var node := queue[0];
            && node in ids && node !in processed
            && Members(processed + [node]) == Members(processed) + {node}
            && NoRepeat(processed + [node]) && Ordered(relationships, processed + [node])
            && Counted(
                 ids, relationships, Members(processed) + {node}, queue[1..], indegree, ChildList(relationships, node))
            && forall c :: c in ChildList(relationships, node) ==> c in ids && c !in Members(processed) + {node}
  {
    hide NoRepeat, InCount, ChildList;
    var node, done := queue[0], Members(processed);
    NoRepeatTail(queue);
    NoRepeatAppend(processed, node);
    InCountZero(relationships, node, done);
    OrderedAppend(relationships, processed, node);
    forall v | v in ids
      ensures indegree[v] == InCount(relationships, v, done + {node}) + Occurrences(ChildList(relationships, node), v)
    {
      InCountDone(relationships, v, done, node);
    }
    forall c | c in ChildList(relationships, node)
      ensures c in ids && c !in done + {node}
    {
      ChildMember(relationships, node, c);
      var r :| r in relationships && r.parentId == node && r.childId == c;
      forall j | 0 <= j < |processed|
        ensures processed[j] != c
      {
        PrefixIn(processed, j, node);
      }
    }
  }

  lemma PrefixIn(s: seq<string>, j: nat, x: string)
    requires j <= |s|
    ensures x in s[..j] ==> x in s
  {
  }

  lemma OrderedAppend(relationships: seq<Relationship>, processed: seq<string>, node: string)
    requires Ordered(relationships, processed)
    requires forall r :: r in relationships && r.childId == node ==> r.parentId in Members(processed)
    ensures Ordered(relationships, processed + [node])
  {
    var all := processed + [node];
    forall r, j | r in relationships && 0 <= j < |all| && all[j] == r.childId
      ensures r.parentId in all[..j]
    {
      if j < |processed| {
        assert processed[j] == r.childId && all[..j] == processed[..j];
      } else {
        assert all[..j] == processed;
      }
    }
  }

  /** Kahn's loop: the nodes it finishes, in order. */
  method Drain(
    relationships: seq<Relationship>, children: map<string, seq<string>>, queue0: seq<string>,
    indegree0: map<string, int>,
    ghost ids: set<string>) returns (visited: nat, ghost processed: seq<string>)
    requires Counted(ids, relationships, {}, queue0, indegree0, [])
    requires forall r :: r in relationships ==> r.childId in ids
    requires forall p :: ChildrenIn(children, p) == ChildList(relationships, p)
    ensures visited == |processed| && NoRepeat(processed) && Members(processed) <= ids
    ensures Ordered(relationships, processed)
    ensures forall v :: v in ids && v !in processed ==> InCount(relationships, v, Members(processed)) > 0
  {
    hide InCount, NoRepeat, Ordered, ChildList, Members, Counted;
    var queue, indegree := queue0, indegree0;
    visited, processed := 0, [];
    EmptyDone(relationships);
    while queue != []
      invariant visited == |processed| && NoRepeat(processed) && Members(processed) <= ids
      invariant Ordered(relationships, processed)
      invariant Counted(ids, relationships, Members(processed), queue, indegree, [])
      decreases |ids - Members(processed)|
    {
      var node := queue[0];
      ghost var before := Members(processed);
      Popped(ids, relationships, processed, queue, indegree);
      MembersHas(processed);
      queue := queue[1..];
      visited := visited + 1;
      processed := processed + [node];
      FewerLeft(ids, before, node);
      queue, indegree := Release(ChildrenIn(children, node), queue, indegree, ids, relationships, Members(processed));
    }
    MembersHas(processed);
    Drained(ids, relationships, Members(processed), indegree);
  }

  lemma Drained(ids: set<string>, relationships: seq<Relationship>, done: set<string>, indegree: map<string, int>)
    requires Counted(ids, relationships, done, [], indegree, [])
    ensures forall v :: v in ids && v !in done ==> InCount(relationships, v, done) > 0
  {
    hide InCount;
    forall v | v in ids && v !in done
      ensures InCount(relationships, v, done) > 0
    {
      assert v !in [];
      assert indegree[v] == InCount(relationships, v, done) + Occurrences([], v);
    }
  }

  lemma EmptyDone(relationships: seq<Relationship>)
    ensures NoRepeat([]) && Members<string>([]) == {} && Ordered(relationships, [])
  {
  }

  /** The drain finishes every node exactly when there is no cycle. */
  lemma DrainDecides(ids: set<string>, relationships: seq<Relationship>, processed: seq<string>)
    requires NoRepeat(processed) && Members(processed) <= ids && Ordered(relationships, processed)
    requires forall r :: r in relationships ==> r.parentId in ids && r.childId in ids
    requires forall v :: v in ids && v !in processed ==> InCount(relationships, v, Members(processed)) > 0
    ensures |processed| == |ids| <==> Acyclic(EdgesOf(relationships))
  {
    hide InCount, Acyclic, NoRepeat;
    var done := Members(processed);
    MembersCount(processed);
    if |processed| == |ids| {
      SameSize(done, ids);
      var rank := Positions(processed);
      forall e | e in EdgesOf(relationships)
        ensures e.0 in rank && e.1 in rank && rank[e.0] < rank[e.1]
      {
        var r :| r in relationships && e == (r.parentId, r.childId);
        assert r.childId in done && r.parentId in done;
        PositionsAt(processed, r.childId);
        var j := rank[r.childId];
        assert r.parentId in processed[..j];
        var i :| 0 <= i < j && processed[i] == r.parentId;
        PositionsAt(processed, r.parentId);
        NoRepeatIndex(processed, i, rank[r.parentId]);
      }
      RankedIsAcyclic(EdgesOf(relationships), rank);
    } else {
      var left := ids - done;
      assert ids == done + left;
      assert |left| == |ids| - |done|;
      forall v | v in left
        ensures HasPredecessor(EdgesOf(relationships), left, v)
      {
        InCountZero(relationships, v, done);
        var r :| r in relationships && r.childId == v && r.parentId !in done;
        assert (r.parentId, v) in EdgesOf(relationships);
      }
      BackedHasCycle(EdgesOf(relationships), left);
    }
  }

  lemma SameSize(a: set<string>, b: set<string>)
    requires a <= b && |a| == |b|
    ensures a == b
  {
    assert b == a + (b - a);
  }

  ghost function Positions(s: seq<string>): (m: map<string, int>)
    ensures m.Keys == Members(s)
    ensures forall x :: x in m ==> 0 <= m[x] < |s| && s[m[x]] == x
  {
    map x | x in Members(s) :: PositionOf(s, x)
  }

  lemma PositionsAt(s: seq<string>, x: string)
    requires x in s
    ensures x in Positions(s) && 0 <= Positions(s)[x] < |s| && s[Positions(s)[x]] == x
  {
  }

  lemma NoRepeatIndex(s: seq<string>, i: nat, j: nat)
    requires NoRepeat(s) && i < |s| && j < |s| && s[i] == s[j]
    ensures i == j
  {
  }

  // ----- validate_graph -----

  /** What the first loop has established about the relationships it has read. */
  ghost predicate Gathered(
    byId: map<string, Asset>, read: seq<Relationship>, children: map<string, seq<string>>, indegree: map<string, int>)
  {
    && indegree.Keys == byId.Keys
    && (forall v :: v in byId ==> indegree[v] == InCount(read, v, {}))
    && (forall p :: ChildrenIn(children, p) == ChildList(read, p))
    && (forall p :: p in children ==> p in byId)
    && (forall r :: r in read ==>
          r.parentId in byId && r.childId in byId && byId[r.parentId].tenantId == byId[r.childId].tenantId)
  }

  lemma GatherOne(
    byId: map<string, Asset>, read: seq<Relationship>, r: Relationship,
    children: map<string, seq<string>>, indegree: map<string, int>)
    requires Gathered(byId, read, children, indegree)
    requires r.parentId in byId && r.childId in byId && byId[r.parentId].tenantId == byId[r.childId].tenantId
    ensures Gathered(
              byId, read + [r],
              children[r.parentId := ChildrenIn(children, r.parentId) + [r.childId]],
              indegree[r.childId := indegree[r.childId] + 1])
  {
    hide InCount, ChildList;
    var children' := children[r.parentId := ChildrenIn(children, r.parentId) + [r.childId]];
    forall p
      ensures ChildrenIn(children', p) == ChildList(read + [r], p)
    {
      assert ChildrenIn(children, p) == ChildList(read, p);
      AppendRelationship(read, r, p);
    }
    forall v | v in byId
      ensures InCount(read + [r], v, {}) == InCount(read, v, {}) + if r.childId == v then 1 else 0
    {
      AppendRelationship(read, r, v);
    }
  }

  lemma AppendRelationship(read: seq<Relationship>, r: Relationship, id: string)
    ensures ChildList(read + [r], id)
            == if r.parentId == id then ChildList(read, id) + [r.childId] else ChildList(read, id)
    ensures InCount(read + [r], id, {}) == InCount(read, id, {}) + if r.childId == id then 1 else 0
  {
    assert (read + [r])[..|read|] == read;
    assert ChildList(read, id) + [] == ChildList(read, id);
  }

  lemma GatherNone(byId: map<string, Asset>)
    ensures Gathered(byId, [], map[], map id | id in byId :: 0)
  {
  }

  method Gather(byId: map<string, Asset>, relationships: seq<Relationship>)
    returns (fault: Option<Verdict>, children: map<string, seq<string>>, indegree: map<string, int>)
    ensures fault.None? ==> Gathered(byId, relationships, children, indegree)
    ensures fault == Some(Orphan) ==>
              exists r :: r in relationships && (r.parentId !in byId || r.childId !in byId)
    ensures fault == Some(CrossTenant) ==>
              exists r :: r in relationships && r.parentId in byId && r.childId in byId
                          && byId[r.parentId].tenantId != byId[r.childId].tenantId
    ensures fault.Some? ==> fault.value in {Orphan, CrossTenant}
  {
    hide Gathered;
    children, indegree := map[], map id | id in byId :: 0;
    GatherNone(byId);
    for k := 0 to |relationships|
      invariant Gathered(byId, relationships[..k], children, indegree)
    {
      var r := relationships[k];
      assert r in relationships && relationships[..k + 1] == relationships[..k] + [r];
      if r.parentId !in byId || r.childId !in byId {
        return Some(Orphan), children, indegree;
      }
      if byId[r.parentId].tenantId != byId[r.childId].tenantId {
        return Some(CrossTenant), children, indegree;
      }
      GatherOne(byId, relationships[..k], r, children, indegree);
      GatheredKeys(byId, relationships[..k], children, indegree);
      children := children[r.parentId := ChildrenIn(children, r.parentId) + [r.childId]];
      indegree := indegree[r.childId := indegree[r.childId] + 1];
    }
    assert relationships[..|relationships|] == relationships;
    return None, children, indegree;
  }

  lemma GatheredKeys(
    byId: map<string, Asset>, read: seq<Relationship>, children: map<string, seq<string>>, indegree: map<string, int>)
    requires Gathered(byId, read, children, indegree)
    ensures indegree.Keys == byId.Keys
  {
  }

  /** The nodes that start with in-degree zero, in asset order. */
  method Sources(assets: seq<Asset>, indegree: map<string, int>) returns (queue: seq<string>)
    requires UniqueIds(assets) && indegree.Keys == Ids(assets)
    ensures NoRepeat(queue)
    ensures forall v :: v in queue <==> v in indegree && indegree[v] == 0
  {
    queue := [];
    for k := 0 to |assets|
      invariant NoRepeat(queue)
      invariant forall v :: v in queue <==> v in Ids(assets[..k]) && v in indegree && indegree[v] == 0
    {
      var id := assets[k].id;
      assert assets[..k + 1] == assets[..k] + [assets[k]] && assets[k] in assets;
      assert Ids(assets[..k + 1]) == Ids(assets[..k]) + {id};
      assert id !in Ids(assets[..k]);
      if indegree[id] == 0 {
        NoRepeatAppend(queue, id);
        queue := queue + [id];
      }
    }
    assert assets[..|assets|] == assets;
  }

  /** The capacity pass over the parents that have children. */
  method FindOverload(
    byId: map<string, Asset>, children: map<string, seq<string>>, ghost relationships: seq<Relationship>)
    returns (overload: Option<string>)
    requires forall p :: ChildrenIn(children, p) == ChildList(relationships, p)
    requires forall p :: p in children ==> p in byId
    ensures overload.Some? ==> overload.value in byId && Overloaded(byId, relationships, overload.value)
    ensures overload.None? ==> forall p :: p in byId ==> !Overloaded(byId, relationships, p)
  {
    var todo := children.Keys;
    while todo != {}
      invariant todo <= children.Keys
      invariant forall p :: p in children && p !in todo ==> !Overloaded(byId, relationships, p)
      decreases todo
    {
      var parent :| parent in todo;
      assert ChildrenIn(children, parent) == ChildList(relationships, parent);
      CapacitySumIsEdgeLoad(byId, relationships, parent);
      if byId[parent].capacityKw > 0.0 && CapacitySum(byId, children[parent]) > byId[parent].capacityKw {
        return Some(parent);
      }
      todo := todo - {parent};
    }
    forall p | p in byId
      ensures !Overloaded(byId, relationships, p)
    {
      if p !in children {
        assert ChildrenIn(children, p) == [];
        CapacitySumIsEdgeLoad(byId, relationships, p);
        NoCapacity(byId);
      }
    }
    return None;
  }

  /** Accepts exactly the valid topologies, and names a fault that is really there. */
  method ValidateGraph(assets: seq<Asset>, relationships: seq<Relationship>) returns (verdict: Verdict)
    ensures verdict == Accepted <==> ValidTopology(assets, relationships)
    ensures verdict == DuplicateAsset <==> !UniqueIds(assets)
    ensures verdict == Orphan ==> !EndpointsKnown(assets, relationships)
    ensures verdict == CrossTenant ==> !SameTenant(assets, relationships)
    ensures verdict == Cycle <==>
              && UniqueIds(assets) && EndpointsKnown(assets, relationships) && SameTenant(assets, relationships)
              && !Acyclic(EdgesOf(relationships))
    ensures verdict.CapacityExceeded? ==>
              && Acyclic(EdgesOf(relationships)) && verdict.parentId in ById(assets)
              && Overloaded(ById(assets), relationships, verdict.parentId)
  {
    hide UniqueIds, Acyclic, EdgesOf, Overloaded, InCount, ChildList, NoRepeat, Ids, Ordered;
    var byId := ById(assets);
    IdsCount(assets);
    if |byId| != |assets| {
      return DuplicateAsset;
    }
    var fault, children, indegree := Gather(byId, relationships);
    if fault.Some? {
      return fault.value;
    }
    var queue := Sources(assets, indegree);
    assert Counted(byId.Keys, relationships, {}, queue, indegree, []);
    var visited, processed := Drain(relationships, children, queue, indegree, byId.Keys);
    DrainDecides(byId.Keys, relationships, processed);
    if visited != |assets| {
      return Cycle;
    }
    var overload := FindOverload(byId, children, relationships);
    if overload.Some? {
      return CapacityExceeded(overload.value);
    }
    return Accepted;
  }

  // ----- descendants -----

  ghost function AssetIds(assets: seq<Asset>): (ids: seq<string>)
    ensures |ids| == |assets| && forall k :: 0 <= k < |ids| ==> ids[k] == assets[k].id
  {
    seq(|assets|, k requires 0 <= k < |assets| => assets[k].id)
  }

  /** Every node named by an edge, so the walk can only visit finitely many. */
  ghost function Universe(relationships: seq<Relationship>): set<string> {
    set r | r in relationships :: r.childId
  }

  /** The walk so far: what is seen or queued is reachable, and nothing reachable in one more edge is missed. */
  ghost predicate Frontier(relationships: seq<Relationship>, root: string, seen: set<string>, queue: seq<string>) {
    && seen <= Universe(relationships)
    && (forall x :: x in seen || x in queue ==>
          x in Universe(relationships) && Reaches(EdgesOf(relationships), root, x))
    && (forall r :: r in relationships && (r.parentId == root || r.parentId in seen) ==>
          r.childId in seen || r.childId in queue)
  }

  lemma FrontierStart(relationships: seq<Relationship>, root: string)
    ensures Frontier(relationships, root, {}, ChildList(relationships, root))
  {
    hide ChildList, Reaches;
    forall x | x in ChildList(relationships, root)
      ensures x in Universe(relationships) && Reaches(EdgesOf(relationships), root, x)
    {
      ChildMember(relationships, root, x);
      ReachesEdge(EdgesOf(relationships), root, x);
    }
    forall r | r in relationships && r.parentId == root
      ensures r.childId in ChildList(relationships, root)
    {
      ChildMember(relationships, root, r.childId);
    }
  }

  lemma FrontierSkip(relationships: seq<Relationship>, root: string, seen: set<string>, queue: seq<string>)
    requires Frontier(relationships, root, seen, queue) && |queue| > 0 && queue[0] in seen
    ensures Frontier(relationships, root, seen, queue[1..])
  {
    hide Reaches, Universe;
    assert queue == [queue[0]] + queue[1..];
  }

  lemma FrontierVisit(relationships: seq<Relationship>, root: string, seen: set<string>, queue: seq<string>)
    requires Frontier(relationships, root, seen, queue) && |queue| > 0
    ensures Frontier(relationships, root, seen + {queue[0]}, queue[1..] + ChildList(relationships, queue[0]))
  {
    hide Reaches, ChildList;
    var item := queue[0];
    var kids := ChildList(relationships, item);
    assert queue == [item] + queue[1..];
    assert item in queue;
    forall x | x in kids
      ensures x in Universe(relationships) && Reaches(EdgesOf(relationships), root, x)
    {
      ChildMember(relationships, item, x);
      ReachesThen(EdgesOf(relationships), root, item, x);
    }
    forall r | r in relationships && r.parentId == item
      ensures r.childId in kids
    {
      ChildMember(relationships, item, r.childId);
    }
  }

  /** An exhausted frontier has seen everything reachable. */
  lemma FrontierEnd(relationships: seq<Relationship>, root: string, seen: set<string>)
    requires Frontier(relationships, root, seen, [])
    ensures forall x :: x in seen <==> Reaches(EdgesOf(relationships), root, x)
  {
    hide Reaches, Universe;
    forall x | Reaches(EdgesOf(relationships), root, x)
      ensures x in seen
    {
      var p := SomePath(EdgesOf(relationships), root, x);
      ClosedAlong(relationships, root, seen, p, |p| - 1);
    }
  }

  lemma SomePath(edges: Edges, a: string, b: string) returns (p: seq<string>)
    requires Reaches(edges, a, b)
    ensures PathFrom(edges, a, b, p)
  {
    p :| PathFrom(edges, a, b, p);
  }

  lemma {:induction false} ClosedAlong(
    relationships: seq<Relationship>, root: string, seen: set<string>, p: seq<string>, i: nat)
    requires Frontier(relationships, root, seen, []) && 0 < i < |p|
    requires p[0] == root && IsPath(EdgesOf(relationships), p)
    ensures p[i] in seen
  {
    hide Reaches, Universe;
    assert Linked(EdgesOf(relationships), p, i - 1);
    var r :| r in relationships && (r.parentId, r.childId) == (p[i - 1], p[i]);
    if i > 1 {
      ClosedAlong(relationships, root, seen, p, i - 1);
    }
  }

  method ChildIndex(relationships: seq<Relationship>) returns (children: map<string, seq<string>>)
    ensures forall p :: ChildrenIn(children, p) == ChildList(relationships, p)
  {
    children := map[];
    for k := 0 to |relationships|
      invariant forall p :: ChildrenIn(children, p) == ChildList(relationships[..k], p)
    {
      var r := relationships[k];
      assert relationships[..k + 1][..k] == relationships[..k];
      children := children[r.parentId := ChildrenIn(children, r.parentId) + [r.childId]];
    }
    assert relationships[..|relationships|] == relationships;
  }

  /** The assets reachable from `root` by one or more edges, each once; `None` is a KeyError. */
  method Descendants(assets: seq<Asset>, relationships: seq<Relationship>, root: string)
    returns (output: Option<seq<Asset>>)
    ensures output.Some? <==>
              root in Ids(assets) && forall x :: Reaches(EdgesOf(relationships), root, x) ==> x in Ids(assets)
    ensures output.Some? ==>
              && NoRepeat(AssetIds(output.value))
              && (forall a :: a in output.value ==> a in assets)
              && (forall x :: x in AssetIds(output.value) <==> Reaches(EdgesOf(relationships), root, x))
    ensures output.Some? && ValidTopology(assets, relationships) ==> root !in AssetIds(output.value)
  {
    hide Reaches, NoRepeat, ChildList, Ids, Frontier, ValidTopology, EdgesOf, Universe;
    var byId := ById(assets);
    if root !in byId {
      return None;
    }
    var edges := ChildIndex(relationships);
    var found: seq<Asset> := [];
    var queue, seen := ChildrenIn(edges, root), {};
    FrontierStart(relationships, root);
    EmptyDone(relationships);
    while queue != []
      invariant Frontier(relationships, root, seen, queue)
      invariant NoRepeat(AssetIds(found)) && (forall x :: x in AssetIds(found) <==> x in seen)
      invariant (forall a :: a in found ==> a in assets) && seen <= byId.Keys
      decreases |Universe(relationships) - seen|, |queue|
    {
      var item := queue[0];
      if item in seen {
        FrontierSkip(relationships, root, seen, queue);
        queue := queue[1..];
      } else {
        FrontierItem(relationships, root, seen, queue);
        if item !in byId {
          return None;
        }
        FrontierVisit(relationships, root, seen, queue);
        FewerLeft(Universe(relationships), seen, item);
        NoRepeatAppend(AssetIds(found), item);
        assert AssetIds(found + [byId[item]]) == AssetIds(found) + [item];
        seen := seen + {item};
        found := found + [byId[item]];
        queue := queue[1..] + ChildrenIn(edges, item);
      }
    }
    FrontierEnd(relationships, root, seen);
    output := Some(found);
    if ValidTopology(assets, relationships) { NotOwnDescendant(assets, relationships, root); }
  }

  lemma NotOwnDescendant(assets: seq<Asset>, relationships: seq<Relationship>, root: string)
    requires ValidTopology(assets, relationships)
    ensures !Reaches(EdgesOf(relationships), root, root)
  {
  }

  lemma FrontierItem(relationships: seq<Relationship>, root: string, seen: set<string>, queue: seq<string>)
    requires Frontier(relationships, root, seen, queue) && |queue| > 0
    ensures queue[0] in Universe(relationships) && Reaches(EdgesOf(relationships), root, queue[0])
  {
    assert queue[0] in queue;
  }
}
