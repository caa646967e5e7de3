/** Two identical one-hour jobs on two slots: the smallest requests on which the optimizer's claims can fail. */
module Samples {
  import opened Wrappers
  import opened Contracts
  import opened Windows
  import opened Exhaustive
  import opened Engine
  import opened Milp
  import opened MilpExact

  function SampleJob(id: string): Job {
    Job(id, ResourceRequest(1, 1.0, 1.0), Sla(10, 50), 0, false)
  }

  function SampleSlot(i: int, price: real, power: real): TimeSlot {
    TimeSlot(i, i, 1.0, 2, power, price, 0.0)
  }

  /** One GPU and one kilowatt per job; two GPUs and `power` kilowatts per slot. */
  function TwoByTwo(price0: real, price1: real, power: real): ScheduleInput {
    ScheduleInput([SampleJob("a"), SampleJob("b")], [SampleSlot(0, price0, power), SampleSlot(1, price1, power)])
  }

  function TwoByTwoProblem(price0: real, price1: real): Problem {
    Problem([[[0], [1]], [[0], [1]]], [[price0, price1], [price0, price1]], [1, 1], map[0 := 2, 1 := 2])
  }

  lemma OneOfTwo()
    ensures Combinations([0, 1], 1) == [[0], [1]]
    ensures Keep([[0], [1]], false) == [[0], [1]]
  {
    assert [0, 1][1..] == [1] && [1][1..] == [];
    var none: Choice := [];
    assert [1] + none == [1] && [0] + none == [0];
    assert Prepend(1, [none]) == [[1]] && Prepend(0, [none]) == [[0]];
    assert Combinations([1], 1) == Prepend(1, Combinations([], 0)) + Combinations([], 1) == [[1]];
    assert [[0], [1]][..1] == [[0]] && [[0]][..0] == [];
    assert Keep([[0]], false) == [[0]];
  }

  lemma SampleOptions(price0: real, price1: real, power: real, id: string)
    requires power >= 1.0
    ensures Plannable(TwoByTwo(price0, price1, power).slots, SampleJob(id))
    ensures OptionList(TwoByTwo(price0, price1, power).slots, SampleJob(id)) == [[0], [1]]
    ensures Costs(TwoByTwo(price0, price1, power).slots, SampleJob(id), [[0], [1]]) == [price0, price1]
  {
    hide ChoiceCost, EligibleIndices;
    var slots, job := TwoByTwo(price0, price1, power).slots, SampleJob(id);
    assert 1.0 / 1.0 == 1.0;
    assert Needed(slots, job) == 1;
    SampleEligible(price0, price1, power, id);
    OneOfTwo();
    SampleCost(price0, price1, power, id, 0);
    SampleCost(price0, price1, power, id, 1);
  }

  lemma SampleEligible(price0: real, price1: real, power: real, id: string)
    requires power >= 1.0
    ensures EligibleIndices(TwoByTwo(price0, price1, power).slots, SampleJob(id)) == [0, 1]
  {
    var slots, job := TwoByTwo(price0, price1, power).slots, SampleJob(id);
    assert slots[..1] == [slots[0]] && slots[..1][..0] == [];
    assert EligibleIndices(slots[..1], job) == [0];
  }

  lemma SampleCost(price0: real, price1: real, power: real, id: string, i: nat)
    requires i < 2
    ensures ChoiceCost(TwoByTwo(price0, price1, power).slots, SampleJob(id), [i]) == if i == 0 then price0 else price1
  {
    assert [i][..0] == [];
  }

  lemma SampleProblem(price0: real, price1: real, power: real)
    requires power >= 1.0
    ensures AllPlannable(TwoByTwo(price0, price1, power))
    ensures ProblemOf(TwoByTwo(price0, price1, power)) == TwoByTwoProblem(price0, price1)
  {
    var request := TwoByTwo(price0, price1, power);
    SampleOptions(price0, price1, power, "a");
    SampleOptions(price0, price1, power, "b");
    assert request.slots[..1] == [request.slots[0]];
    assert CapacityTable(request.slots[..1]) == map[0 := 2];
    assert ProblemOf(request).options == [[[0], [1]], [[0], [1]]];
  }

  // ----- negative prices -----

  lemma SampleWellFormed(price0: real, price1: real)
    ensures WellFormed(TwoByTwoProblem(price0, price1))
  {
  }

  lemma SampleCosts(price0: real, price1: real, i: nat, j: nat)
    requires i < 2 && j < 2
    ensures var p := TwoByTwoProblem(price0, price1);
            && WellFormed(p) && IsPicks(p, []) && IsPicks(p, [i]) && IsPicks(p, [i, j])
            && Cost(p, []) == 0.0
            && Cost(p, [i]) == p.costs[0][i]
            && Cost(p, [i, j]) == p.costs[0][i] + p.costs[1][j]
            && Fits(p, [], i) && Fits(p, [i], j) && Placeable(p, [i, j])
  {
    SampleWellFormed(price0, price1);
    var p := TwoByTwoProblem(price0, price1);
    assert [i, j][..1] == [i] && [i][..0] == [];
    forall s
      ensures Uses(p, [i], s) <= 1
    {
      OneSlotLoad(i, s);
      assert p.options[0][[i][0]] == [i];
      assert Uses(p, [i], s) == Uses(p, [i][..0], s) + Load([i], 1, s);
    }
  }

  lemma OneSlotLoad(i: int, s: int)
    ensures Load([i], 1, s) <= 1
  {
    assert [i][..0] == [];
  }

  ghost function Leaf(p: Problem, best: Option<Picks>, w: Picks): (r: Option<Picks>)
    requires WellFormed(p) && IsBest(p, best) && IsPicks(p, w)
    ensures r.Some? && IsBest(p, r)
  {
    if best.Some? && Cost(p, w) >= Cost(p, best.value) then best else Some(w)
  }

  lemma SampleInner(price0: real, price1: real, i: nat, best: Option<Picks>)
    requires i < 2 && WellFormed(TwoByTwoProblem(price0, price1)) && IsBest(TwoByTwoProblem(price0, price1), best)
    ensures var p := TwoByTwoProblem(price0, price1);
            IsPicks(p, [i]) && IsPicks(p, [i, 0]) && IsPicks(p, [i, 1]) &&
            PruneTry(p, [i], 0, best) == Leaf(p, Leaf(p, best, [i, 0]), [i, 1])
  {
    hide Cost, Fits, Placeable, Uses, WellFormed;
    var p := TwoByTwoProblem(price0, price1);
    SampleCosts(price0, price1, i, 0);
    SampleCosts(price0, price1, i, 1);
    assert [i] + [0] == [i, 0] && [i] + [1] == [i, 1];
    var next := Leaf(p, best, [i, 0]);
    assert Prune(p, [i, 0], best) == next;
    assert Prune(p, [i, 1], next) == Leaf(p, next, [i, 1]);
    assert PruneTry(p, [i], 2, Leaf(p, next, [i, 1])) == Leaf(p, next, [i, 1]);
    assert PruneTry(p, [i], 1, next) == Leaf(p, next, [i, 1]);
  }

  function SampleFirst(price0: real, price1: real): Picks {
    if price1 >= price0 then [0, 0] else [0, 1]
  }

  lemma SampleBranches(price0: real, price1: real)
    ensures var p, first := TwoByTwoProblem(price0, price1), SampleFirst(price0, price1);
            && WellFormed(p) && IsPicks(p, [0]) && IsPicks(p, [1]) && IsPicks(p, first)
            && IsPicks(p, [1, 0]) && IsPicks(p, [1, 1])
            && Prune(p, [0], None) == Some(first)
            && Prune(p, [1], Some(first)) ==
               if price1 >= Cost(p, first) then Some(first) else Leaf(p, Leaf(p, Some(first), [1, 0]), [1, 1])
  {
    hide Cost, Fits, Placeable, Uses, WellFormed, PruneTry;
    SampleCosts(price0, price1, 0, 0);
    SampleCosts(price0, price1, 0, 1);
    SampleCosts(price0, price1, 1, 0);
    SampleCosts(price0, price1, 1, 1);
    SampleInner(price0, price1, 0, None);
    SampleInner(price0, price1, 1, Some(SampleFirst(price0, price1)));
  }

  lemma PruneStep(p: Problem, v: Picks, k: nat, best: Option<Picks>)
    requires WellFormed(p) && IsPicks(p, v) && IsBest(p, best) && |v| < |p.options| && k < |p.options[|v|]|
    requires Fits(p, v, k)
    ensures PruneTry(p, v, k, best) == PruneTry(p, v, k + 1, Prune(p, v + [k], best))
    ensures best.None? && k == 0 ==> Prune(p, v, best) == PruneTry(p, v, 0, best)
    ensures k + 1 == |p.options[|v|]| ==> PruneTry(p, v, k + 1, Prune(p, v + [k], best)) == Prune(p, v + [k], best)
  {
  }

  lemma SampleOuter(price0: real, price1: real)
    ensures var p, first := TwoByTwoProblem(price0, price1), SampleFirst(price0, price1);
            && WellFormed(p) && IsPicks(p, first) && IsPicks(p, [1])
            && Prune(p, [], None) == Prune(p, [1], Some(first))
  {
    hide Cost, Fits, Placeable, Uses, WellFormed, PruneTry, Prune;
    var p := TwoByTwoProblem(price0, price1);
    SampleCosts(price0, price1, 0, 0);
    SampleCosts(price0, price1, 1, 0);
    SampleBranches(price0, price1);
    assert [] + [0] == [0] && [] + [1] == [1];
    PruneStep(p, [], 0, None);
    PruneStep(p, [], 1, Some(SampleFirst(price0, price1)));
  }

  lemma SampleCompletions(price0: real, price1: real, w: Picks)
    requires WellFormed(TwoByTwoProblem(price0, price1)) && Completes(TwoByTwoProblem(price0, price1), [], w)
    ensures w in [[0, 0], [0, 1], [1, 0], [1, 1]]
  {
    hide Placeable, WellFormed;
    assert w == [w[0], w[1]];
  }

  /** With negative prices a completed search can miss the optimum: on these requests it does so exactly when
      the second slot is cheaper and the first slot's price is not positive. */
  lemma NegativePricesMiss(price0: real, price1: real, power: real)
    requires power >= 1.0
    ensures AllPlannable(TwoByTwo(price0, price1, power)) && WellFormed(ProblemOf(TwoByTwo(price0, price1, power)))
    ensures Prune(ProblemOf(TwoByTwo(price0, price1, power)), [], None).Some?
    ensures var p := ProblemOf(TwoByTwo(price0, price1, power));
            (exists w :: Completes(p, [], w) && Cost(p, w) < Cost(p, Prune(p, [], None).value))
            <==> price1 < price0 <= 0.0
  {
    hide Cost, Fits, Placeable, Uses, WellFormed, Prune, ProblemOf, AllPlannable;
    SampleProblem(price0, price1, power);
    SampleBranches(price0, price1);
    SampleOuter(price0, price1);
    var p := TwoByTwoProblem(price0, price1);
    SampleCosts(price0, price1, 0, 0);
    SampleCosts(price0, price1, 0, 1);
    SampleCosts(price0, price1, 1, 0);
    SampleCosts(price0, price1, 1, 1);
    if price1 < price0 <= 0.0 {
      assert Completes(p, [], [1, 1]);
    } else {
      forall w | Completes(p, [], w)
        ensures Cost(p, w) >= Cost(p, Prune(p, [], None).value)
      {
        SampleCompletions(price0, price1, w);
      }
    }
  }

  // ----- joint power -----

  lemma SamplePower(price0: real, price1: real, power: real)
    requires power >= 1.0 && AllPlannable(TwoByTwo(price0, price1, power))
    requires ProblemOf(TwoByTwo(price0, price1, power)) == TwoByTwoProblem(price0, price1)
    ensures PowerFits(TwoByTwo(price0, price1, power), [0, 0]) <==> power >= 2.0
  {
    var request, p := TwoByTwo(price0, price1, power), TwoByTwoProblem(price0, price1);
    hide ProblemOf, AllPlannable;
    forall s
      ensures PowerUse(request.jobs, p.options, [0, 0], s, 2) == if s == 0 then 2.0 else 0.0
    {
      assert PowerUse(request.jobs, p.options, [0, 0], s, 1) == if s == 0 then 1.0 else 0.0;
    }
    assert PowerWithin(request, [0, 0], 0) <==> power >= 2.0;
  }

  /** The search checks power job by job, the compiled rows slot by slot. Two one-kilowatt jobs share the cheap slot in
      the only cheapest placement, so the rows have a solution at the exact optimum if and only if that slot has two
      kilowatts, and never one below it. */
  lemma SolversDisagree(price0: real, price1: real, power: real, cost: real, variables: seq<Variable>)
    requires power >= 1.0 && 0.0 <= price0 < price1 && cost == price0 + price0
    requires AllPlannable(TwoByTwo(price0, price1, power)) && Encodes(TwoByTwo(price0, price1, power), variables)
    ensures FirstCheapest(ProblemOf(TwoByTwo(price0, price1, power)), [0, 0])
    ensures Cost(ProblemOf(TwoByTwo(price0, price1, power)), [0, 0]) == cost
    ensures (exists x :: SolvedAt(TwoByTwo(price0, price1, power), variables, cost, x)) <==> power >= 2.0
    ensures forall x, c :: SolvedAt(TwoByTwo(price0, price1, power), variables, c, x) ==> cost <= c
  {
    hide Cost, Fits, Placeable, Uses, WellFormed, ProblemOf, AllPlannable, PowerFits, Encodes, SolvedAt;
    var request, p := TwoByTwo(price0, price1, power), TwoByTwoProblem(price0, price1);
    SampleProblem(price0, price1, power);
    SampleOptimum(price0, price1);
    SamplePower(price0, price1, power);
    EncodedFormed(request, variables);
    SolvableAtIff(request, variables, cost);
    if power >= 2.0 {
      assert CheapAndPowered(request, cost, [0, 0]);
    }
    forall x, c | SolvedAt(request, variables, c, x)
      ensures cost <= c
    {
      SolvableAtIff(request, variables, c);
    }
  }

  lemma SampleOptimum(price0: real, price1: real)
    requires 0.0 <= price0 < price1
    ensures var p := TwoByTwoProblem(price0, price1);
            && WellFormed(p) && FirstCheapest(p, [0, 0]) && Cost(p, [0, 0]) == price0 + price0
            && forall w :: Completes(p, [], w) ==> w == [0, 0] || Cost(p, w) > Cost(p, [0, 0])
  {
    hide Cost, Fits, Placeable, Uses, WellFormed;
    SampleCosts(price0, price1, 0, 0);
    SampleCosts(price0, price1, 0, 1);
    SampleCosts(price0, price1, 1, 0);
    SampleCosts(price0, price1, 1, 1);
    var p := TwoByTwoProblem(price0, price1);
    forall w | Completes(p, [], w)
      ensures w == [0, 0] || Cost(p, w) > Cost(p, [0, 0])
    {
      SampleCompletions(price0, price1, w);
    }
  }

  lemma EncodedFormed(request: ScheduleInput, variables: seq<Variable>)
    requires AllPlannable(request) && Encodes(request, variables)
    ensures WellFormed(ProblemOf(request))
  {
  }
}
