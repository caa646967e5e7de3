/** The optimizer's problem stripped to what its search looks at, and the plain search it must agree with:
    try every option of every job in order, with no pruning, and keep the first cheapest placement.

    A placement is the vector of option numbers picked, so enumeration order is lexicographic order. */
module Exhaustive {
  import opened Wrappers
  import opened Contracts
  import opened Windows

  datatype Problem = Problem(
    options: seq<seq<Choice>>,
    costs: seq<seq<real>>,
    gpus: seq<nat>,
    capacity: map<int, int>)

  type Picks = seq<nat>

  ghost predicate WellFormed(p: Problem) {
    && |p.options| == |p.costs| == |p.gpus|
    && (forall i :: 0 <= i < |p.options| ==> |p.costs[i]| == |p.options[i]|)
    && (forall i, k, s :: 0 <= i < |p.options| && 0 <= k < |p.options[i]| && s in p.options[i][k] ==> s in p.capacity)
  }

  ghost predicate IsPicks(p: Problem, v: Picks) {
    |v| <= |p.options| && forall i :: 0 <= i < |v| ==> v[i] < |p.options[i]|
  }

  /** GPUs the picked options take from slot `s`. */
  ghost function Uses(p: Problem, v: Picks, s: int): nat
    requires WellFormed(p) && IsPicks(p, v)
  {
    if |v| == 0 then 0
    else
      var m := |v| - 1;
      Uses(p, v[..m], s) + Load(p.options[m][v[m]], p.gpus[m], s)
  }

  ghost function Cost(p: Problem, v: Picks): real
    requires WellFormed(p) && IsPicks(p, v)
  {
    if |v| == 0 then 0.0 else Cost(p, v[..|v| - 1]) + p.costs[|v| - 1][v[|v| - 1]]
  }

  /** Option `k` of the next job fits into what the picks so far leave free. */
  ghost predicate Fits(p: Problem, v: Picks, k: nat)
    requires WellFormed(p) && IsPicks(p, v) && |v| < |p.options| && k < |p.options[|v|]|
  {
    forall s :: s in p.options[|v|][k] ==> p.capacity[s] - Uses(p, v, s) >= p.gpus[|v|]
  }

  ghost predicate Placeable(p: Problem, v: Picks)
    requires WellFormed(p) && IsPicks(p, v)
  {
    |v| == 0 || (Placeable(p, v[..|v| - 1]) && Fits(p, v[..|v| - 1], v[|v| - 1]))
  }

  lemma {:induction false} PlaceablePrefix(p: Problem, w: Picks, i: nat)
    requires WellFormed(p) && IsPicks(p, w) && Placeable(p, w) && i <= |w|
    ensures Placeable(p, w[..i])
    ensures i < |w| ==> Fits(p, w[..i], w[i])
  {
    if i == |w| {
      assert w[..i] == w;
    } else {
      var front := w[..|w| - 1];
      PlaceablePrefix(p, front, i);
      assert front[..i] == w[..i];
    }
  }

  // ----- the reference search -----

  ghost predicate IsBest(p: Problem, best: Option<Picks>) {
    best.Some? ==> IsPicks(p, best.value)
  }

  ghost function Exhaust(p: Problem, v: Picks, best: Option<Picks>): (r: Option<Picks>)
    requires WellFormed(p) && IsPicks(p, v) && IsBest(p, best)
    ensures IsBest(p, r)
    decreases |p.options| - |v|, 1, 0
  {
    if |v| < |p.options| then Try(p, v, 0, best)
    else if best.Some? && Cost(p, v) >= Cost(p, best.value) then best
    else Some(v)
  }

  ghost function Try(p: Problem, v: Picks, k: nat, best: Option<Picks>): (r: Option<Picks>)
    requires WellFormed(p) && IsPicks(p, v) && IsBest(p, best)
    requires |v| < |p.options| && k <= |p.options[|v|]|
    ensures IsBest(p, r)
    decreases |p.options| - |v|, 0, |p.options[|v|]| - k
  {
    if k == |p.options[|v|]| then best
    else Try(p, v, k + 1, if Fits(p, v, k) then Exhaust(p, v + [k], best) else best)
  }

  // ----- what the reference search returns -----

  ghost predicate Completes(p: Problem, v: Picks, w: Picks)
    requires WellFormed(p)
  {
    IsPicks(p, w) && |w| == |p.options| && v <= w && Placeable(p, w)
  }

  ghost predicate Agree(a: Picks, b: Picks, m: nat) {
    m <= |a| && m <= |b| && forall i :: 0 <= i < m ==> a[i] == b[i]
  }

  ghost predicate LexLess(a: Picks, b: Picks) {
    exists j :: 0 <= j < |a| && j < |b| && Agree(a, b, j) && a[j] < b[j]
  }

  /** `r` costs no more than `w`, and on a tie `r` came first: it is the incumbent, or it precedes `w`. */
  ghost predicate Beats(p: Problem, best: Option<Picks>, r: Option<Picks>, w: Picks)
    requires WellFormed(p) && IsBest(p, r) && IsPicks(p, w)
  {
    && r.Some?
    && (Cost(p, r.value) < Cost(p, w) || (Cost(p, r.value) == Cost(p, w) && (r == best || !LexLess(w, r.value))))
  }

  ghost predicate Improves(p: Problem, v: Picks, best: Option<Picks>, r: Option<Picks>)
    requires WellFormed(p) && IsBest(p, best)
  {
    || r == best
    || (r.Some? && Completes(p, v, r.value) && (best.Some? ==> Cost(p, r.value) < Cost(p, best.value)))
  }

  lemma PrecedesOnBranch(a: Picks, b: Picks, m: nat)
    requires m < |a| && m < |b| && Agree(a, b, m) && a[m] < b[m]
    ensures !LexLess(b, a)
  {
  }

  lemma {:induction false} TryImproves(p: Problem, v: Picks, k: nat, best: Option<Picks>)
    requires WellFormed(p) && IsPicks(p, v) && IsBest(p, best) && Placeable(p, v)
    requires |v| < |p.options| && k <= |p.options[|v|]|
    ensures Improves(p, v, best, Try(p, v, k, best))
    ensures Try(p, v, k, best) == best ||
            (Try(p, v, k, best).Some? && |Try(p, v, k, best).value| > |v| && Try(p, v, k, best).value[|v|] >= k)
    decreases |p.options| - |v|, 0, |p.options[|v|]| - k
  {
    hide Placeable, Cost, Uses, Fits;
    if k < |p.options[|v|]| {
      var next := if Fits(p, v, k) then Exhaust(p, v + [k], best) else best;
      if Fits(p, v, k) {
        Extend(p, v, k);
        ExhaustImproves(p, v + [k], best);
      }
      TryImproves(p, v, k + 1, next);
    }
  }

  lemma {:induction false} ExhaustImproves(p: Problem, v: Picks, best: Option<Picks>)
    requires WellFormed(p) && IsPicks(p, v) && IsBest(p, best) && Placeable(p, v)
    ensures Improves(p, v, best, Exhaust(p, v, best))
    decreases |p.options| - |v|, 1, 0
  {
    if |v| < |p.options| {
      TryImproves(p, v, 0, best);
    }
  }

  /** Extending the picks by a fitting option keeps them placeable. */
  lemma Extend(p: Problem, v: Picks, k: nat)
    requires WellFormed(p) && IsPicks(p, v) && Placeable(p, v)
    requires |v| < |p.options| && k < |p.options[|v|]| && Fits(p, v, k)
    ensures IsPicks(p, v + [k]) && Placeable(p, v + [k])
  {
    assert (v + [k])[..|v|] == v;
  }

  /** A placement beaten by the incumbent stays beaten by whatever improves on that incumbent. */
  lemma BeatsOnward(p: Problem, v: Picks, best: Option<Picks>, next: Option<Picks>, r: Option<Picks>, w: Picks)
    requires WellFormed(p) && IsBest(p, best) && IsBest(p, next) && IsPicks(p, w)
    requires Beats(p, best, next, w) && Improves(p, v, next, r)
    ensures Beats(p, best, r, w)
  {
  }

  /** A placement on a later branch cannot displace an equally cheap one found on this branch. */
  lemma EarlierBranchWins(
    p: Problem, v: Picks, k: nat, best: Option<Picks>, next: Option<Picks>, r: Option<Picks>, w: Picks)
    requires WellFormed(p) && IsBest(p, best) && IsBest(p, next) && IsBest(p, r)
    requires IsPicks(p, w) && v <= w && |v| < |w| && k < w[|v|]
    requires Improves(p, v + [k], best, next) && Beats(p, next, r, w)
    ensures Beats(p, best, r, w)
  {
    if r == next && next != best {
      assert next.value[|v|] == (v + [k])[|v|];
      assert forall i :: 0 <= i < |v| ==> next.value[i] == (v + [k])[i] && w[i] == v[i];
      PrecedesOnBranch(next.value, w, |v|);
    }
  }

  /** The option a placement takes fits, and leads to that placement. */
  lemma BranchOf(p: Problem, v: Picks, w: Picks)
    requires WellFormed(p) && IsPicks(p, v) && |v| < |p.options| && Completes(p, v, w)
    ensures Placeable(p, v) && Fits(p, v, w[|v|])
    ensures Completes(p, v + [w[|v|]], w)
  {
    assert w[..|v|] == v;
    PlaceablePrefix(p, w, |v|);
    assert v + [w[|v|]] == w[..|v| + 1];
  }

  /** From one option onwards, nothing that completes the picks is cheaper, or as cheap and earlier. */
  lemma {:induction false} TryBeats(p: Problem, v: Picks, k: nat, best: Option<Picks>, w: Picks)
    requires WellFormed(p) && IsPicks(p, v) && IsBest(p, best) && Placeable(p, v)
    requires |v| < |p.options| && k <= |p.options[|v|]|
    requires Completes(p, v, w) && w[|v|] >= k
    ensures Beats(p, best, Try(p, v, k, best), w)
    decreases |p.options| - |v|, 0, |p.options[|v|]| - k
  {
    hide Placeable, Cost, Uses, Fits, LexLess, Agree;
    if w[|v|] == k {
      BranchOf(p, v, w);
      TryBeatsHere(p, v, k, best, w);
    } else if Fits(p, v, k) {
      Extend(p, v, k);
      var next := Exhaust(p, v + [k], best);
      TryBeats(p, v, k + 1, next, w);
      ExhaustImproves(p, v + [k], best);
      EarlierBranchWins(p, v, k, best, next, Try(p, v, k + 1, next), w);
    } else {
      TryBeats(p, v, k + 1, best, w);
    }
  }

  lemma {:induction false} TryBeatsHere(p: Problem, v: Picks, k: nat, best: Option<Picks>, w: Picks)
    requires WellFormed(p) && IsPicks(p, v) && IsBest(p, best) && Placeable(p, v)
    requires |v| < |p.options| && k < |p.options[|v|]| && Fits(p, v, k)
    requires Completes(p, v + [k], w)
    ensures Beats(p, best, Try(p, v, k, best), w)
    decreases |p.options| - |v|, 0, 0
  {
    hide Placeable, Cost, Uses, Fits, LexLess, Agree;
    Extend(p, v, k);
    var next := Exhaust(p, v + [k], best);
    ExhaustBeats(p, v + [k], best, w);
    TryImproves(p, v, k + 1, next);
    BeatsOnward(p, v, best, next, Try(p, v, k + 1, next), w);
  }

  lemma {:induction false} ExhaustBeats(p: Problem, v: Picks, best: Option<Picks>, w: Picks)
    requires WellFormed(p) && IsPicks(p, v) && IsBest(p, best) && Placeable(p, v)
    requires Completes(p, v, w)
    ensures Beats(p, best, Exhaust(p, v, best), w)
    decreases |p.options| - |v|, 1, 0
  {
    if |v| < |p.options| {
      TryBeats(p, v, 0, best, w);
    } else {
      assert w == v;
    }
  }

  /** The placement a complete search must return: placeable, of least cost, and the first such one. */
  ghost predicate FirstCheapest(p: Problem, v: Picks)
    requires WellFormed(p)
  {
    && Completes(p, [], v)
    && forall w :: Completes(p, [], w) ==>
         Cost(p, v) < Cost(p, w) || (Cost(p, v) == Cost(p, w) && !LexLess(w, v))
  }

  /** The reference search finds the first cheapest placement, or there is no placement at all. */
  lemma ExhaustIsFirstCheapest(p: Problem)
    requires WellFormed(p)
    ensures var r := Exhaust(p, [], None);
            if r.Some? then FirstCheapest(p, r.value) else forall w :: !Completes(p, [], w)
  {
    var r := Exhaust(p, [], None);
    ExhaustImproves(p, [], None);
    forall w | Completes(p, [], w)
      ensures Beats(p, None, r, w)
    {
      ExhaustBeats(p, [], None, w);
    }
  }

  lemma LexTotal(a: Picks, b: Picks, m: nat)
    requires |a| == |b| && Agree(a, b, m) && exists i :: m <= i < |a| && a[i] != b[i]
    ensures LexLess(a, b) || LexLess(b, a)
    decreases |a| - m
  {
    if a[m] == b[m] {
      LexTotal(a, b, m + 1);
    }
  }

  /** There is only one first cheapest placement. */
  lemma FirstCheapestUnique(p: Problem, v: Picks, w: Picks)
    requires WellFormed(p) && FirstCheapest(p, v) && FirstCheapest(p, w)
    ensures v == w
  {
    assert v == w || exists i :: 0 <= i < |v| && v[i] != w[i];
    if v != w {
      LexTotal(v, w, 0);
      assert false;
    }
  }

  // ----- pruning -----

  /** The search as it runs: a branch whose running cost already reaches the incumbent is cut. */
  ghost function Prune(p: Problem, v: Picks, best: Option<Picks>): (r: Option<Picks>)
    requires WellFormed(p) && IsPicks(p, v) && IsBest(p, best)
    ensures IsBest(p, r)
    ensures best.Some? ==> r.Some?
    decreases |p.options| - |v|, 1, 0
  {
    if best.Some? && Cost(p, v) >= Cost(p, best.value) then best
    else if |v| == |p.options| then Some(v)
    else PruneTry(p, v, 0, best)
  }

  ghost function PruneTry(p: Problem, v: Picks, k: nat, best: Option<Picks>): (r: Option<Picks>)
    requires WellFormed(p) && IsPicks(p, v) && IsBest(p, best)
    requires |v| < |p.options| && k <= |p.options[|v|]|
    ensures IsBest(p, r)
    ensures best.Some? ==> r.Some?
    decreases |p.options| - |v|, 0, |p.options[|v|]| - k
  {
    if k == |p.options[|v|]| then best
    else PruneTry(p, v, k + 1, if Fits(p, v, k) then Prune(p, v + [k], best) else best)
  }

  /** Only the first job may have options of negative cost. */
  ghost predicate TailNonNegative(p: Problem)
    requires WellFormed(p)
  {
    forall i, k :: 1 <= i < |p.costs| && 0 <= k < |p.costs[i]| ==> p.costs[i][k] >= 0.0
  }

  lemma CostExtend(p: Problem, v: Picks, k: nat)
    requires WellFormed(p) && IsPicks(p, v) && |v| < |p.options| && k < |p.options[|v|]|
    ensures IsPicks(p, v + [k]) && Cost(p, v + [k]) == Cost(p, v) + p.costs[|v|][k]
  {
    assert (v + [k])[..|v|] == v;
  }

  /** Exploring a branch that costs no less than the incumbent changes nothing. */
  lemma {:induction false} HopelessBranch(p: Problem, v: Picks, best: Picks)
    requires WellFormed(p) && IsPicks(p, v) && IsPicks(p, best)
    requires |v| > 0 && TailNonNegative(p) && Cost(p, v) >= Cost(p, best)
    ensures Exhaust(p, v, Some(best)) == Some(best)
    decreases |p.options| - |v|, 1, 0
  {
    if |v| < |p.options| {
      HopelessTry(p, v, 0, best);
    }
  }

  lemma {:induction false} HopelessTry(p: Problem, v: Picks, k: nat, best: Picks)
    requires WellFormed(p) && IsPicks(p, v) && IsPicks(p, best)
    requires |v| > 0 && TailNonNegative(p) && Cost(p, v) >= Cost(p, best)
    requires |v| < |p.options| && k <= |p.options[|v|]|
    ensures Try(p, v, k, Some(best)) == Some(best)
    decreases |p.options| - |v|, 0, |p.options[|v|]| - k
  {
    hide Cost, Fits, Placeable, Uses;
    if k < |p.options[|v|]| {
      CostExtend(p, v, k);
      assert p.costs[|v|][k] >= 0.0;
      HopelessBranch(p, v + [k], best);
      HopelessTry(p, v, k + 1, best);
    }
  }

  /** Pruning refines the exhaustive search. */
  lemma {:induction false} PruneIsExhaust(p: Problem, v: Picks, best: Option<Picks>)
    requires WellFormed(p) && IsPicks(p, v) && IsBest(p, best)
    requires TailNonNegative(p) && (|v| > 0 || best.None?)
    ensures Prune(p, v, best) == Exhaust(p, v, best)
    decreases |p.options| - |v|, 1, 0
  {
    hide Cost, Fits, Placeable, Uses;
    if best.Some? && Cost(p, v) >= Cost(p, best.value) {
      HopelessBranch(p, v, best.value);
    } else if |v| < |p.options| {
      PruneTryIsTry(p, v, 0, best);
    }
  }

  lemma {:induction false} PruneTryIsTry(p: Problem, v: Picks, k: nat, best: Option<Picks>)
    requires WellFormed(p) && IsPicks(p, v) && IsBest(p, best) && TailNonNegative(p)
    requires |v| < |p.options| && k <= |p.options[|v|]|
    ensures PruneTry(p, v, k, best) == Try(p, v, k, best)
    decreases |p.options| - |v|, 0, |p.options[|v|]| - k
  {
    hide Cost, Fits, Placeable, Uses;
    if k < |p.options[|v|]| {
      if Fits(p, v, k) {
        PruneIsExhaust(p, v + [k], best);
        PruneTryIsTry(p, v, k + 1, Exhaust(p, v + [k], best));
      } else {
        PruneTryIsTry(p, v, k + 1, best);
      }
    }
  }

  /** Whatever the costs, the pruned search misses a placement only when it already holds one. */
  lemma {:induction false} PruneFindsSome(p: Problem, v: Picks, best: Option<Picks>, w: Picks)
    requires WellFormed(p) && IsPicks(p, v) && IsBest(p, best) && Completes(p, v, w)
    ensures Prune(p, v, best).Some?
    decreases |p.options| - |v|, 1, 0
  {
    hide Cost, Fits, Placeable, Uses;
    if |v| < |p.options| {
      PruneTryFindsSome(p, v, 0, best, w);
    }
  }

  lemma {:induction false} PruneTryFindsSome(p: Problem, v: Picks, k: nat, best: Option<Picks>, w: Picks)
    requires WellFormed(p) && IsPicks(p, v) && IsBest(p, best)
    requires |v| < |p.options| && k <= |p.options[|v|]| && Completes(p, v, w) && w[|v|] >= k
    ensures PruneTry(p, v, k, best).Some?
    decreases |p.options| - |v|, 0, |p.options[|v|]| - k
  {
    hide Cost, Fits, Placeable, Uses;
    if w[|v|] == k {
      BranchOf(p, v, w);
      PruneFindsSome(p, v + [k], best, w);
    } else {
      PruneTryFindsSome(p, v, k + 1, if Fits(p, v, k) then Prune(p, v + [k], best) else best, w);
    }
  }

  // ----- feasibility by totals -----

  ghost predicate DistinctOptions(p: Problem) {
    forall i, k :: 0 <= i < |p.options| && 0 <= k < |p.options[i]| ==> Distinct(p.options[i][k])
  }

  /** No used slot is asked for more GPUs than it has, counting all jobs at once. */
  ghost predicate WithinCapacity(p: Problem, v: Picks)
    requires WellFormed(p) && IsPicks(p, v)
  {
    forall i, s :: 0 <= i < |v| && s in p.options[i][v[i]] ==> Uses(p, v, s) <= p.capacity[s]
  }

  /** Placing jobs one at a time into what is left free is the same as fitting them all at once. */
  lemma {:induction false} PlaceableIsWithinCapacity(p: Problem, v: Picks)
    requires WellFormed(p) && IsPicks(p, v) && DistinctOptions(p)
    ensures Placeable(p, v) <==> WithinCapacity(p, v)
  {
    if |v| == 0 {
    } else {
      var m := |v| - 1;
      var front, choice := v[..m], p.options[m][v[m]];
      PlaceableIsWithinCapacity(p, front);
      forall s
        ensures Uses(p, v, s) == Uses(p, front, s) + if s in choice then p.gpus[m] else 0
      {
        LoadDistinct(choice, p.gpus[m], s);
      }
      if Placeable(p, v) {
        forall i, s | 0 <= i < |v| && s in p.options[i][v[i]]
          ensures Uses(p, v, s) <= p.capacity[s]
        {
          if i < m { assert s in p.options[i][front[i]]; }
        }
      }
      if WithinCapacity(p, v) {
        forall i, s | 0 <= i < |front| && s in p.options[i][front[i]]
          ensures Uses(p, front, s) <= p.capacity[s]
        {
          assert s in p.options[i][v[i]];
        }
        assert Fits(p, front, v[m]);
      }
    }
  }
}
