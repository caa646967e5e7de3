/** The integer model against the exact search: its solutions are the search's vectors that also respect
    every slot's joint power, at the same cost. */
module MilpExact {
  import opened Wrappers
  import opened Contracts
  import opened Windows
  import opened Exhaustive
  import opened Engine
  import opened Optimizer
  import opened Milp
  import opened MilpModel

  /** `x` chooses exactly the options picked by `v`, for the first `j` jobs. */
  ghost predicate Indicates(options: seq<seq<Choice>>, x: seq<bool>, v: Picks, j: nat)
    requires j <= |options| && j <= |v| && |x| == Offset(options, |options|)
  {
    forall i :: 0 <= i < j ==> IndicatesAt(options, x, v[i], i)
  }

  ghost predicate IndicatesAt(options: seq<seq<Choice>>, x: seq<bool>, pick: nat, i: nat)
    requires i < |options| && |x| == Offset(options, |options|)
  {
    OffsetMonotone(options, i, |options|);
    pick < |options[i]| && OnlyIn(x, Offset(options, i), |options[i]|, Offset(options, i) + pick)
  }

  /** Among the columns of one block, `x` chooses column `c` and no other. */
  ghost predicate OnlyIn(x: seq<bool>, lo: nat, n: nat, c: nat)
    requires lo + n <= |x|
  {
    lo <= c < lo + n && forall t :: lo <= t < lo + n ==> (x[t] <==> t == c)
  }

  // ----- one option per job -----

  lemma {:induction false} NoneChosen(x: seq<bool>, lo: nat, n: nat)
    requires lo + n <= |x|
    ensures CountTrue(x, lo, n) == 0 <==> forall t :: lo <= t < lo + n ==> !x[t]
  {
    if n == 0 {
    } else {
      NoneChosen(x, lo, n - 1);
    }
  }

  lemma {:induction false} OneChosen(x: seq<bool>, lo: nat, n: nat) returns (pick: nat)
    requires lo + n <= |x| && CountTrue(x, lo, n) == 1
    ensures OnlyIn(x, lo, n, lo + pick)
  {
    if x[lo + n - 1] {
      NoneChosen(x, lo, n - 1);
      pick := n - 1;
    } else {
      pick := OneChosen(x, lo, n - 1);
    }
  }

  lemma {:induction false} CountOne(x: seq<bool>, lo: nat, n: nat, pick: nat)
    requires lo + n <= |x| && OnlyIn(x, lo, n, lo + pick)
    ensures CountTrue(x, lo, n) == 1
  {
    if pick == n - 1 {
      NoneChosen(x, lo, n - 1);
    } else {
      CountOne(x, lo, n - 1, pick);
    }
  }

  /** Choosing one option per job is picking one option per job. */
  lemma {:induction false} VectorPicks(options: seq<seq<Choice>>, x: seq<bool>, j: nat) returns (v: Picks)
    requires j <= |options| && |x| == Offset(options, |options|)
    requires forall i :: 0 <= i < j ==> OneOption(options, x, i)
    ensures |v| == j && Indicates(options, x, v, j)
  {
    v := [];
    if j == 0 {
    } else {
      var front := VectorPicks(options, x, j - 1);
      OffsetMonotone(options, j - 1, |options|);
      assert OneOption(options, x, j - 1);
      var pick := OneChosen(x, Offset(options, j - 1), |options[j - 1]|);
      v := front + [pick];
      assert forall i :: 0 <= i < j - 1 ==> IndicatesAt(options, x, front[i], i);
    }
  }

  lemma PicksOneOption(options: seq<seq<Choice>>, x: seq<bool>, v: Picks, i: nat)
    requires |v| == |options| && i < |options| && |x| == Offset(options, |options|)
    requires Indicates(options, x, v, |options|)
    ensures OneOption(options, x, i)
  {
    assert IndicatesAt(options, x, v[i], i);
    OffsetMonotone(options, i, |options|);
    CountOne(x, Offset(options, i), |options[i]|, v[i]);
  }

  // ----- sums over chosen columns are sums over picks -----

  ghost function PickedSum(options: seq<seq<Choice>>, w: seq<real>, v: Picks, j: nat): real
    requires j <= |options| && j <= |v| && |w| == Offset(options, |options|)
    requires forall i :: 0 <= i < j ==> v[i] < |options[i]|
  {
    if j == 0 then 0.0
    else
      OffsetMonotone(options, j - 1, |options|);
      PickedSum(options, w, v, j - 1) + w[Offset(options, j - 1) + v[j - 1]]
  }

  lemma {:induction false} WithinBlock(w: seq<real>, x: seq<bool>, lo: nat, n: nat, pick: nat, len: nat)
    requires |w| == |x| && lo + len <= |x| && n <= len && OnlyIn(x, lo, len, lo + pick)
    ensures Total(w, x, lo + n) == Total(w, x, lo) + if pick < n then w[lo + pick] else 0.0
  {
    if n == 0 {
    } else {
      WithinBlock(w, x, lo, n - 1, pick, len);
    }
  }

  lemma IndicatedPick(options: seq<seq<Choice>>, x: seq<bool>, v: Picks, j: nat, i: nat)
    requires i < j <= |options| && j <= |v| && |x| == Offset(options, |options|)
    requires Indicates(options, x, v, j)
    ensures v[i] < |options[i]| && Offset(options, i) + |options[i]| <= |x|
    ensures OnlyIn(x, Offset(options, i), |options[i]|, Offset(options, i) + v[i])
    ensures Indicates(options, x, v, i)
  {
    assert IndicatesAt(options, x, v[i], i);
    OffsetMonotone(options, i, |options|);
  }

  lemma {:induction false} BlockTotal(options: seq<seq<Choice>>, w: seq<real>, x: seq<bool>, v: Picks, j: nat)
    requires j <= |options| && j <= |v| && |w| == |x| == Offset(options, |options|)
    requires Indicates(options, x, v, j) && forall i :: 0 <= i < j ==> v[i] < |options[i]|
    ensures Offset(options, j) <= |x|
    ensures Total(w, x, Offset(options, j)) == PickedSum(options, w, v, j)
  {
    hide OnlyIn, Indicates;
    OffsetMonotone(options, j, |options|);
    if j == 0 {
    } else {
      IndicatedPick(options, x, v, j, j - 1);
      BlockTotal(options, w, x, v, j - 1);
      WithinBlock(w, x, Offset(options, j - 1), |options[j - 1]|, v[j - 1], |options[j - 1]|);
    }
  }

  // ----- the three sums of the model -----

  /** Power, in kilowatts, that the picked options draw together in slot `s`. */
  ghost function PowerUse(jobs: seq<Job>, options: seq<seq<Choice>>, v: Picks, s: int, j: nat): real
    requires j <= |jobs| == |options| && j <= |v| && forall i :: 0 <= i < j ==> v[i] < |options[i]|
  {
    if j == 0 then 0.0
    else
      PowerUse(jobs, options, v, s, j - 1)
      + if s in options[j - 1][v[j - 1]]
        then jobs[j - 1].request.gpuCount as real * jobs[j - 1].request.powerKwPerGpu
        else 0.0
  }

  ghost predicate Encodes(request: ScheduleInput, variables: seq<Variable>)
    requires AllPlannable(request)
  {
    && WellFormed(ProblemOf(request))
    && |ProblemOf(request).options| == |request.jobs|
    && Laid(ProblemOf(request).options, variables, |request.jobs|)
    && |variables| == Offset(ProblemOf(request).options, |request.jobs|)
    && OwnedBy(variables, request.jobs)
  }

  lemma ColumnOf(options: seq<seq<Choice>>, variables: seq<Variable>, i: nat, k: nat)
    requires Laid(options, variables, |options|) && i < |options| && k < |options[i]|
    ensures Offset(options, i) + k < |variables|
    ensures variables[Offset(options, i) + k] == Variable(i, k, options[i][k])
  {
    assert BlockAt(options, variables, i);
  }

  lemma {:induction false} CostSum(request: ScheduleInput, variables: seq<Variable>, v: Picks)
    requires AllPlannable(request) && Encodes(request, variables) && IsPicks(ProblemOf(request), v)
    ensures PickedSum(ProblemOf(request).options, ColumnCosts(request, variables), v, |v|)
            == Cost(ProblemOf(request), v)
  {
    hide Laid, Offset, OptionList, Costs, WellFormed, AllPlannable, ChoiceCost, ProblemOf;
    if |v| == 0 {
    } else {
      var m := |v| - 1;
      CostSum(request, variables, v[..m]);
      PickedPrefix(ProblemOf(request).options, ColumnCosts(request, variables), v, m);
      ColumnOf(ProblemOf(request).options, variables, m, v[m]);
      OptionCost(request, m, v[m]);
    }
  }

  lemma {:induction false} PickedPrefix(options: seq<seq<Choice>>, w: seq<real>, v: Picks, j: nat)
    requires j <= |options| && j < |v| && |w| == Offset(options, |options|)
    requires forall i :: 0 <= i < |v| && i < |options| ==> v[i] < |options[i]|
    ensures PickedSum(options, w, v, j) == PickedSum(options, w, v[..|v| - 1], j)
  {
    if j == 0 {
    } else {
      PickedPrefix(options, w, v, j - 1);
    }
  }

  lemma {:induction false} GpuSum(request: ScheduleInput, variables: seq<Variable>, v: Picks, s: int)
    requires AllPlannable(request) && Encodes(request, variables) && IsPicks(ProblemOf(request), v)
    requires DistinctOptions(ProblemOf(request))
    ensures PickedSum(ProblemOf(request).options, Masked(variables, GpuWeights(request.jobs, variables), s), v, |v|)
            == Uses(ProblemOf(request), v, s) as real
  {
    hide Laid, Offset, OptionList, Costs, WellFormed, AllPlannable, Load, Distinct, ProblemOf;
    if |v| == 0 {
    } else {
      var m := |v| - 1;
      var p := ProblemOf(request);
      GpuSum(request, variables, v[..m], s);
      PickedPrefix(p.options, Masked(variables, GpuWeights(request.jobs, variables), s), v, m);
      ColumnOf(p.options, variables, m, v[m]);
      ProblemParts(request, m);
      assert Distinct(p.options[m][v[m]]);
      LoadDistinct(p.options[m][v[m]], p.gpus[m], s);
    }
  }

  lemma {:induction false} PowerSum(request: ScheduleInput, variables: seq<Variable>, v: Picks, s: int, j: nat)
    requires AllPlannable(request) && Encodes(request, variables) && IsPicks(ProblemOf(request), v) && j <= |v|
    ensures PickedSum(ProblemOf(request).options, Masked(variables, PowerWeights(request.jobs, variables), s), v, j)
            == PowerUse(request.jobs, ProblemOf(request).options, v, s, j)
  {
    hide Laid, Offset, OptionList, Costs, WellFormed, AllPlannable, ProblemOf;
    if j == 0 {
    } else {
      PowerSum(request, variables, v, s, j - 1);
      ColumnOf(ProblemOf(request).options, variables, j - 1, v[j - 1]);
    }
  }

  // ----- solutions of the model are vectors of the search -----

  /** Every slot, used or not, holds the GPUs and the power the picks ask of it together. */
  ghost predicate FitsEverySlot(request: ScheduleInput, v: Picks)
    requires AllPlannable(request) && WellFormed(ProblemOf(request)) && IsPicks(ProblemOf(request), v)
    requires |v| == |request.jobs| == |ProblemOf(request).options|
  {
    forall i :: 0 <= i < |request.slots| ==> FitsSlot(request, v, i)
  }

  ghost predicate FitsSlot(request: ScheduleInput, v: Picks, i: nat)
    requires AllPlannable(request) && WellFormed(ProblemOf(request)) && IsPicks(ProblemOf(request), v)
    requires |v| == |request.jobs| == |ProblemOf(request).options| && i < |request.slots|
  {
    && Uses(ProblemOf(request), v, request.slots[i].index) <= request.slots[i].gpuCapacity
    && PowerWithin(request, v, i)
  }

  ghost predicate PowerWithin(request: ScheduleInput, v: Picks, i: nat)
    requires AllPlannable(request) && IsPicks(ProblemOf(request), v)
    requires |v| == |request.jobs| == |ProblemOf(request).options| && i < |request.slots|
  {
    PowerUse(request.jobs, ProblemOf(request).options, v, request.slots[i].index, |v|)
    <= request.slots[i].powerCapacityKw
  }

  /** Sums of the model over an indicating vector, in the search's terms. */
  lemma IndicatedSums(request: ScheduleInput, variables: seq<Variable>, x: seq<bool>, v: Picks, s: int)
    requires AllPlannable(request) && Encodes(request, variables) && DistinctOptions(ProblemOf(request))
    requires |x| == |variables| && IsPicks(ProblemOf(request), v) && |v| == |request.jobs|
    requires Indicates(ProblemOf(request).options, x, v, |v|)
    ensures Total(ColumnCosts(request, variables), x, |x|) == Cost(ProblemOf(request), v)
    ensures Total(Masked(variables, GpuWeights(request.jobs, variables), s), x, |x|)
            == Uses(ProblemOf(request), v, s) as real
    ensures Total(Masked(variables, PowerWeights(request.jobs, variables), s), x, |x|)
            == PowerUse(request.jobs, ProblemOf(request).options, v, s, |v|)
  {
    hide Laid, AllPlannable, WellFormed, ProblemOf, DistinctOptions, Total, PickedSum, Masked, GpuWeights, PowerWeights,
      ColumnCosts, Cost, Uses, PowerUse, Indicates;
    var options := ProblemOf(request).options;
    BlockTotal(options, ColumnCosts(request, variables), x, v, |v|);
    BlockTotal(options, Masked(variables, GpuWeights(request.jobs, variables), s), x, v, |v|);
    BlockTotal(options, Masked(variables, PowerWeights(request.jobs, variables), s), x, v, |v|);
    CostSum(request, variables, v);
    GpuSum(request, variables, v, s);
    PowerSum(request, variables, v, s, |v|);
  }

  /** For the indicator of a vector of picks, the rows hold exactly when every slot fits. */
  lemma IndicatorMeaning(request: ScheduleInput, variables: seq<Variable>, x: seq<bool>, v: Picks)
    requires AllPlannable(request) && Encodes(request, variables) && DistinctOptions(ProblemOf(request))
    requires |x| == |variables| && IsPicks(ProblemOf(request), v) && |v| == |request.jobs|
    requires Indicates(ProblemOf(request).options, x, v, |v|)
    ensures Meaning(request, ProblemOf(request).options, variables, x) <==> FitsEverySlot(request, v)
    ensures Total(ColumnCosts(request, variables), x, |x|) == Cost(ProblemOf(request), v)
  {
    hide Laid, AllPlannable, WellFormed, ProblemOf, DistinctOptions, Total, Masked, GpuWeights, PowerWeights, OwnedBy,
      ColumnCosts, Cost, Uses, PowerUse, Indicates, OneOption;
    var options := ProblemOf(request).options;
    IndicatedSums(request, variables, x, v, 0);
    forall j | 0 <= j < |options|
      ensures OneOption(options, x, j)
    {
      PicksOneOption(options, x, v, j);
    }
    forall i | 0 <= i < |request.slots|
      ensures GpuRowFits(request, variables, x, i) && PowerRowFits(request, variables, x, i)
              <==> FitsSlot(request, v, i)
    {
      IndicatedSums(request, variables, x, v, request.slots[i].index);
    }
  }

  /** A vector that fits every slot can be placed by the search. */
  lemma FitsEverySlotCompletes(request: ScheduleInput, v: Picks)
    requires AllPlannable(request) && WellFormed(ProblemOf(request)) && UniqueSlots(request.slots)
    requires IsPicks(ProblemOf(request), v) && |v| == |request.jobs| == |ProblemOf(request).options|
    requires FitsEverySlot(request, v)
    ensures Completes(ProblemOf(request), [], v)
  {
    hide AllPlannable, WellFormed, Uses, PowerUse, OptionList, Costs, Placeable;
    var p := ProblemOf(request);
    ProblemWellFormed(request);
    PlaceableIsWithinCapacity(p, v);
    forall j, s | 0 <= j < |v| && s in p.options[j][v[j]]
      ensures Uses(p, v, s) <= p.capacity[s]
    {
      OptionSlots(p, j, v[j]);
      var slot :| slot in request.slots && slot.index == s;
      var i :| 0 <= i < |request.slots| && request.slots[i] == slot;
      assert FitsSlot(request, v, i);
    }
  }

  /** Every 0/1 solution of the model is a vector of the search that respects joint power, at the same cost. */
  lemma SolutionIsPicks(request: ScheduleInput, variables: seq<Variable>, x: seq<bool>) returns (v: Picks)
    requires AllPlannable(request) && Encodes(request, variables) && UniqueSlots(request.slots)
    requires |x| == |variables| && Shaped(ModelOf(request, ProblemOf(request).options, variables), |x|)
    requires Satisfies(ModelOf(request, ProblemOf(request).options, variables), x)
    ensures Completes(ProblemOf(request), [], v) && |v| == |request.jobs|
    ensures Indicates(ProblemOf(request).options, x, v, |v|)
    ensures FitsEverySlot(request, v)
    ensures Total(ModelOf(request, ProblemOf(request).options, variables).costs, x, |x|) == Cost(ProblemOf(request), v)
  {
    hide Laid, AllPlannable, WellFormed, ProblemOf, DistinctOptions, Total, GpuRowFits, PowerRowFits, RowsOf,
      Cost, OneOption, OwnedBy, Satisfies, FitsEverySlot, LowerBounds, UpperBounds, Placeable;
    var options := ProblemOf(request).options;
    ProblemWellFormed(request);
    RowsMean(request, options, variables, x);
    v := VectorPicks(options, x, |options|);
    IndicatesIsPicks(request, x, v);
    IndicatorMeaning(request, variables, x, v);
    FitsEverySlotCompletes(request, v);
  }

  lemma IndicatesIsPicks(request: ScheduleInput, x: seq<bool>, v: Picks)
    requires AllPlannable(request) && |v| == |ProblemOf(request).options|
    requires |x| == Offset(ProblemOf(request).options, |v|) && Indicates(ProblemOf(request).options, x, v, |v|)
    ensures IsPicks(ProblemOf(request), v)
  {
    hide AllPlannable, ProblemOf, OnlyIn;
    forall i | 0 <= i < |v|
      ensures v[i] < |ProblemOf(request).options[i]|
    {
      IndicatedPick(ProblemOf(request).options, x, v, |v|, i);
    }
  }

  ghost function Indicator(variables: seq<Variable>, v: Picks): (x: seq<bool>)
    requires forall t :: 0 <= t < |variables| ==> variables[t].job < |v|
    ensures |x| == |variables|
  {
    seq(|variables|, t requires 0 <= t < |variables| => v[variables[t].job] == variables[t].option)
  }

  lemma IndicatorIndicates(options: seq<seq<Choice>>, variables: seq<Variable>, v: Picks)
    requires Laid(options, variables, |options|) && |v| == |options|
    requires forall i :: 0 <= i < |v| ==> v[i] < |options[i]|
    ensures forall t :: 0 <= t < |variables| ==> variables[t].job < |v|
    ensures Indicates(options, Indicator(variables, v), v, |v|)
  {
    LaidOwned(options, variables, |options|);
    var x := Indicator(variables, v);
    forall i | 0 <= i < |v|
      ensures IndicatesAt(options, x, v[i], i)
    {
      OffsetMonotone(options, i, |options|);
      var lo := Offset(options, i);
      forall t | lo <= t < lo + |options[i]|
        ensures x[t] <==> t == lo + v[i]
      {
        ColumnOf(options, variables, i, t - lo);
      }
    }
  }

  /** Conversely, a vector of picks that fits every slot is a solution of the model, at the same cost. */
  lemma PicksAreSolution(request: ScheduleInput, variables: seq<Variable>, v: Picks)
    requires AllPlannable(request) && Encodes(request, variables) && UniqueSlots(request.slots)
    requires IsPicks(ProblemOf(request), v) && |v| == |request.jobs| && FitsEverySlot(request, v)
    ensures forall t :: 0 <= t < |variables| ==> variables[t].job < |v|
    ensures var x, m := Indicator(variables, v), ModelOf(request, ProblemOf(request).options, variables);
            && Shaped(m, |x|) && Satisfies(m, x)
            && Total(m.costs, x, |x|) == Cost(ProblemOf(request), v)
  {
    hide Laid, AllPlannable, WellFormed, ProblemOf, DistinctOptions, Total, GpuRowFits, PowerRowFits, RowsOf,
      Cost, OneOption, OwnedBy, Satisfies, FitsEverySlot, LowerBounds, UpperBounds, Indicates;
    ProblemWellFormed(request);
    IndicatorIndicates(ProblemOf(request).options, variables, v);
    var x := Indicator(variables, v);
    IndicatorMeaning(request, variables, x, v);
    RowsMean(request, ProblemOf(request).options, variables, x);
  }

  // ----- the two optima -----

  /** The exact optimum never exceeds the cost of any solution of the model. */
  lemma ExactNeverAbove(
    request: ScheduleInput, result: OptimizationResult, v: Picks, variables: seq<Variable>, x: seq<bool>)
    requires Justified(request, result, v) && result.status.Optimal? && NonNegativeTail(request)
    requires Encodes(request, variables) && UniqueSlots(request.slots) && |x| == |variables|
    requires Shaped(ModelOf(request, ProblemOf(request).options, variables), |x|)
    requires Satisfies(ModelOf(request, ProblemOf(request).options, variables), x)
    ensures result.plan.value.estimatedCost
            <= Total(ModelOf(request, ProblemOf(request).options, variables).costs, x, |x|)
  {
    hide Laid, AllPlannable, WellFormed, ProblemOf, Total, RowsOf, Cost, OwnedBy, Satisfies, FitsEverySlot, LowerBounds,
      UpperBounds, Placeable, Prune, PlanFits, NonNegativeTail, Shaped, Columns, Values, Starts, Flatten, ColumnCosts;
    var w := SolutionIsPicks(request, variables, x);
    OptimalMeansOptimal(request, result, v);
  }

  ghost predicate PowerFits(request: ScheduleInput, v: Picks)
    requires AllPlannable(request) && IsPicks(ProblemOf(request), v)
    requires |v| == |request.jobs| == |ProblemOf(request).options|
  {
    forall i :: 0 <= i < |request.slots| ==> PowerWithin(request, v, i)
  }

  /** Some placement as cheap as the exact plan also respects joint power. */
  ghost predicate CheapAndPowered(request: ScheduleInput, cost: real, w: Picks)
    requires AllPlannable(request) && WellFormed(ProblemOf(request))
  {
    && Completes(ProblemOf(request), [], w)
    && |w| == |request.jobs|
    && Cost(ProblemOf(request), w) == cost
    && PowerFits(request, w)
  }

  ghost predicate SolvedAt(request: ScheduleInput, variables: seq<Variable>, cost: real, x: seq<bool>)
    requires AllPlannable(request) && Encodes(request, variables)
  {
    var m := ModelOf(request, ProblemOf(request).options, variables);
    |x| == |variables| && Shaped(m, |x|) && Satisfies(m, x) && Total(m.costs, x, |x|) == cost
  }

  /** GPU limits alone: a placement of the search fits every slot of non-negative capacity. */
  lemma CompletesFitsGpus(request: ScheduleInput, v: Picks)
    requires AllPlannable(request) && WellFormed(ProblemOf(request)) && UniqueSlots(request.slots)
    requires Completes(ProblemOf(request), [], v) && |v| == |request.jobs| == |ProblemOf(request).options|
    requires forall s :: s in request.slots ==> s.gpuCapacity >= 0
    ensures PowerFits(request, v) ==> FitsEverySlot(request, v)
  {
    hide AllPlannable, WellFormed, Uses, OptionList, Costs, Placeable, PowerWithin;
    var p := ProblemOf(request);
    ProblemWellFormed(request);
    PlaceableIsWithinCapacity(p, v);
    if PowerFits(request, v) {
      forall i | 0 <= i < |request.slots|
        ensures FitsSlot(request, v, i)
      {
        var slot := request.slots[i];
        assert slot in request.slots;
        if s :| 0 <= s < |v| && slot.index in p.options[s][v[s]] {
          assert Uses(p, v, slot.index) <= p.capacity[slot.index];
        } else {
          UnusedSlot(p, v, slot.index);
        }
      }
    }
  }

  lemma {:induction false} UnusedSlot(p: Problem, v: Picks, s: int)
    requires WellFormed(p) && IsPicks(p, v) && DistinctOptions(p)
    requires forall i :: 0 <= i < |v| ==> s !in p.options[i][v[i]]
    ensures Uses(p, v, s) == 0
  {
    hide WellFormed, Distinct;
    if |v| == 0 {
    } else {
      UnusedSlot(p, v[..|v| - 1], s);
      OptionSlots(p, |v| - 1, v[|v| - 1]);
      LoadDistinct(p.options[|v| - 1][v[|v| - 1]], p.gpus[|v| - 1], s);
    }
  }

  /** The compiled rows have a solution of a given cost exactly when some placement of that cost respects joint
      power. */
  lemma SolvableAtIff(request: ScheduleInput, variables: seq<Variable>, cost: real)
    requires AllPlannable(request) && Encodes(request, variables) && UniqueSlots(request.slots)
    requires forall s :: s in request.slots ==> s.gpuCapacity >= 0
    ensures (exists x :: SolvedAt(request, variables, cost, x)) <==> (exists w :: CheapAndPowered(request, cost, w))
  {
    hide Laid, AllPlannable, WellFormed, ProblemOf, Total, RowsOf, Cost, OwnedBy, Satisfies, LowerBounds,
      UpperBounds, Placeable, Shaped, Columns, Values, Starts, Flatten, ColumnCosts, FitsSlot, PowerWithin;
    if x :| SolvedAt(request, variables, cost, x) {
      var w := SolutionIsPicks(request, variables, x);
      EverySlotPower(request, w);
      assert CheapAndPowered(request, cost, w);
    }
    if w :| CheapAndPowered(request, cost, w) {
      CompletesFitsGpus(request, w);
      PicksAreSolution(request, variables, w);
      assert SolvedAt(request, variables, cost, Indicator(variables, w));
    }
  }

  /** A placement that no other undercuts and that respects joint power. */
  ghost predicate CheapestAndPowered(request: ScheduleInput, w: Picks)
    requires AllPlannable(request) && WellFormed(ProblemOf(request))
  {
    && Completes(ProblemOf(request), [], w)
    && CheapAndPowered(request, Cost(ProblemOf(request), w), w)
    && forall u :: Completes(ProblemOf(request), [], u) ==> Cost(ProblemOf(request), w) <= Cost(ProblemOf(request), u)
  }

  /** The rows never have a solution below the exact optimum, and have one at it if and only if some cheapest placement
      respects joint power. */
  lemma OptimaAgreeIff(
    request: ScheduleInput, result: OptimizationResult, v: Picks, variables: seq<Variable>)
    requires Justified(request, result, v) && result.status.Optimal? && NonNegativeTail(request)
    requires Encodes(request, variables) && UniqueSlots(request.slots)
    requires forall s :: s in request.slots ==> s.gpuCapacity >= 0
    ensures forall x, cost :: SolvedAt(request, variables, cost, x) ==> result.plan.value.estimatedCost <= cost
    ensures (exists x :: SolvedAt(request, variables, result.plan.value.estimatedCost, x))
            <==> (exists w :: CheapestAndPowered(request, w))
  {
    hide AllPlannable, WellFormed, ProblemOf, Prune, PlanFits, Encodes, NonNegativeTail, PowerFits, Cost, Placeable,
      Satisfies, Shaped, Total, ModelOf;
    var exact := result.plan.value.estimatedCost;
    OptimalMeansOptimal(request, result, v);
    SolvableAtIff(request, variables, exact);
    forall x, cost | SolvedAt(request, variables, cost, x)
      ensures exact <= cost
    {
      ExactNeverAbove(request, result, v, variables, x);
    }
    if w :| CheapAndPowered(request, exact, w) {
      assert CheapestAndPowered(request, w);
    }
    if w :| CheapestAndPowered(request, w) {
      assert Cost(ProblemOf(request), w) == exact;
      assert CheapAndPowered(request, exact, w);
    }
  }

  // ----- requests on which the optima agree -----

  function JobPower(job: Job): real {
    job.request.gpuCount as real * job.request.powerKwPerGpu
  }

  /** Power of the first `j` jobs that may use the slot at all. */
  function EligiblePower(jobs: seq<Job>, slot: TimeSlot, j: nat): real
    requires j <= |jobs|
  {
    if j == 0 then 0.0
    else EligiblePower(jobs, slot, j - 1) + if Eligible(jobs[j - 1], slot) then JobPower(jobs[j - 1]) else 0.0
  }

  /** No job has negative power, and every slot could power all the jobs that may use it at once. */
  predicate AmplePower(request: ScheduleInput) {
    && (forall k :: 0 <= k < |request.jobs| ==> JobPower(request.jobs[k]) >= 0.0)
    && forall i :: 0 <= i < |request.slots| ==>
         EligiblePower(request.jobs, request.slots[i], |request.jobs|) <= request.slots[i].powerCapacityKw
  }

  lemma {:induction false} PowerBelowEligible(request: ScheduleInput, v: Picks, i: nat, j: nat)
    requires AllPlannable(request) && WellFormed(ProblemOf(request)) && UniqueSlots(request.slots)
    requires IsPicks(ProblemOf(request), v) && |v| == |request.jobs| == |ProblemOf(request).options|
    requires i < |request.slots| && j <= |v|
    requires forall k :: 0 <= k < |request.jobs| ==> JobPower(request.jobs[k]) >= 0.0
    ensures PowerUse(request.jobs, ProblemOf(request).options, v, request.slots[i].index, j)
            <= EligiblePower(request.jobs, request.slots[i], j)
  {
    hide WellFormed, AllPlannable, OptionList, Costs, JobPower, Eligible;
    if j == 0 {
    } else {
      PowerBelowEligible(request, v, i, j - 1);
      PickedEligible(request, i, j - 1, v[j - 1]);
      JobPowerIs(request.jobs[j - 1]);
    }
  }

  lemma JobPowerIs(job: Job)
    ensures JobPower(job) == job.request.gpuCount as real * job.request.powerKwPerGpu
  {
  }

  lemma PickedEligible(request: ScheduleInput, i: nat, j: nat, k: nat)
    requires AllPlannable(request) && UniqueSlots(request.slots) && i < |request.slots| && j < |request.jobs|
    requires k < |ProblemOf(request).options[j]|
    ensures request.slots[i].index in ProblemOf(request).options[j][k] ==> Eligible(request.jobs[j], request.slots[i])
  {
    hide OptionList, Eligible, Needed, Costs;
    var c := ProblemOf(request).options[j][k];
    assert request.jobs[j] in request.jobs;
    OptionSound(request.slots, request.jobs[j], c);
  }

  /** With ample power every placement of the search respects joint power, so the rows have a solution at the exact
      optimum and none below it. */
  lemma AmplePowerAgrees(
    request: ScheduleInput, result: OptimizationResult, v: Picks, variables: seq<Variable>)
    requires Justified(request, result, v) && result.status.Optimal? && NonNegativeTail(request)
    requires Encodes(request, variables) && UniqueSlots(request.slots) && AmplePower(request)
    requires forall s :: s in request.slots ==> s.gpuCapacity >= 0
    ensures exists x :: SolvedAt(request, variables, result.plan.value.estimatedCost, x)
    ensures forall x, cost :: SolvedAt(request, variables, cost, x) ==> result.plan.value.estimatedCost <= cost
  {
    hide AllPlannable, WellFormed, ProblemOf, Prune, PlanFits, Encodes, NonNegativeTail, PowerUse, EligiblePower,
      Satisfies, Shaped, Total, ModelOf;
    var exact := result.plan.value.estimatedCost;
    OptimaAgreeIff(request, result, v, variables);
    EncodedSize(request, variables);
    forall i | 0 <= i < |request.slots|
      ensures PowerWithin(request, v, i)
    {
      PowerBelowEligible(request, v, i, |v|);
    }
    OptimalMeansOptimal(request, result, v);
    assert CheapestAndPowered(request, v);
  }

  lemma EncodedSize(request: ScheduleInput, variables: seq<Variable>)
    requires AllPlannable(request) && Encodes(request, variables)
    ensures |ProblemOf(request).options| == |request.jobs|
  {
  }

  lemma EverySlotPower(request: ScheduleInput, v: Picks)
    requires AllPlannable(request) && WellFormed(ProblemOf(request)) && IsPicks(ProblemOf(request), v)
    requires |v| == |request.jobs| == |ProblemOf(request).options| && FitsEverySlot(request, v)
    ensures PowerFits(request, v)
  {
    hide AllPlannable, WellFormed, ProblemOf, Uses, PowerUse;
    forall i | 0 <= i < |request.slots|
      ensures PowerWithin(request, v, i)
    {
      assert FitsSlot(request, v, i);
    }
  }

  // ----- decoding -----

  lemma {:induction false} AllBelow(s: set<nat>, n: nat)
    requires forall j :: j in s ==> j < n
    ensures |s| <= n
    ensures |s| == n ==> forall j :: 0 <= j < n ==> j in s
  {
    if n == 0 {
    } else {
      AllBelow(s - {n - 1}, n - 1);
    }
  }

  ghost predicate Chooses(variables: seq<Variable>, x: seq<bool>, n: nat, j: nat)
    requires n <= |x| == |variables|
  {
    exists t :: 0 <= t < n && x[t] && variables[t].job == j
  }

  /** Column `t` is the last chosen one of job `j` among the first `n`. */
  ghost predicate LastChosen(variables: seq<Variable>, x: seq<bool>, n: nat, j: nat, t: nat)
    requires n <= |x| == |variables|
  {
    && t < n && x[t] && variables[t].job == j
    && forall u :: t < u < n && x[u] ==> variables[u].job != j
  }

  /** The last chosen column of job `j` stands for choice `c`. */
  ghost predicate ChoosesAs(variables: seq<Variable>, x: seq<bool>, n: nat, j: nat, c: Choice)
    requires n <= |x| == |variables|
  {
    exists t: nat :: LastChosen(variables, x, n, j, t) && variables[t].choice == c
  }

  lemma ChoosesOnward(variables: seq<Variable>, x: seq<bool>, n: nat, j: nat, c: Choice)
    requires n < |x| == |variables|
    ensures x[n] && variables[n].job == j && variables[n].choice == c ==> ChoosesAs(variables, x, n + 1, j, c)
    ensures ChoosesAs(variables, x, n, j, c) && !(x[n] && variables[n].job == j) ==>
              ChoosesAs(variables, x, n + 1, j, c)
  {
    if x[n] && variables[n].job == j && variables[n].choice == c {
      assert LastChosen(variables, x, n + 1, j, n);
    } else if ChoosesAs(variables, x, n, j, c) && !(x[n] && variables[n].job == j) {
      var t: nat :| LastChosen(variables, x, n, j, t) && variables[t].choice == c;
      assert LastChosen(variables, x, n + 1, j, t);
    }
  }

  /** `None` is the "no integer incumbent" exit: some job has no chosen column. The last chosen column of a job wins. */
  method Decode(variables: seq<Variable>, x: seq<bool>, jobs: nat) returns (choices: Option<seq<Choice>>)
    requires |x| == |variables| && forall t :: 0 <= t < |variables| ==> variables[t].job < jobs
    ensures choices.Some? <==> forall j :: 0 <= j < jobs ==> Chooses(variables, x, |x|, j)
    ensures choices.Some? ==> |choices.value| == jobs
    ensures choices.Some? ==> forall j :: 0 <= j < jobs ==> ChoosesAs(variables, x, |x|, j, choices.value[j])
  {
    var selected: map<nat, Choice> := map[];
    for t := 0 to |variables|
      invariant forall j :: j in selected ==> j < jobs
      invariant forall j :: j in selected ==> ChoosesAs(variables, x, t, j, selected[j])
      invariant forall u :: 0 <= u < t && x[u] ==> variables[u].job in selected
    {
      ghost var before := selected;
      if x[t] {
        selected := selected[variables[t].job := variables[t].choice];
      }
      forall j | j in selected
        ensures ChoosesAs(variables, x, t + 1, j, selected[j])
      {
        ChoosesOnward(variables, x, t, j, selected[j]);
        assert j in before || (x[t] && variables[t].job == j);
      }
    }
    AllBelow(selected.Keys, jobs);
    if |selected| != jobs {
      if forall j :: 0 <= j < jobs ==> Chooses(variables, x, |x|, j) {
        forall j | 0 <= j < jobs
          ensures j in selected.Keys
        {
          assert Chooses(variables, x, |x|, j);
        }
        Everything(selected.Keys, jobs);
      }
      return None;
    }
    forall j | 0 <= j < jobs
      ensures Chooses(variables, x, |x|, j)
    {
      assert ChoosesAs(variables, x, |x|, j, selected[j]);
    }
    choices := Some(seq(jobs, j requires 0 <= j < jobs && j in selected => selected[j]));
  }

  lemma {:induction false} Everything(s: set<nat>, n: nat)
    requires forall j :: 0 <= j < n ==> j in s
    requires forall j :: j in s ==> j < n
    ensures |s| == n
  {
    if n == 0 {
      assert s == {};
    } else {
      Everything(s - {n - 1}, n - 1);
    }
  }

  lemma LaidColumn(options: seq<seq<Choice>>, variables: seq<Variable>, t: nat)
    requires Laid(options, variables, |options|) && t < |variables|
    ensures variables[t].job < |options| && variables[t].option < |options[variables[t].job]|
    ensures t == Offset(options, variables[t].job) + variables[t].option
    ensures variables[t].choice == options[variables[t].job][variables[t].option]
  {
    LaidOwned(options, variables, |options|);
    ColumnOf(options, variables, variables[t].job, variables[t].option);
  }

  /** Decoding a solution of the model gives back the placement it stands for. */
  lemma DecodeRoundTrip(
    request: ScheduleInput, variables: seq<Variable>, x: seq<bool>, v: Picks, choices: seq<Choice>)
    requires AllPlannable(request) && Encodes(request, variables) && |x| == |variables|
    requires IsPicks(ProblemOf(request), v) && |v| == |request.jobs| == |choices|
    requires Indicates(ProblemOf(request).options, x, v, |v|)
    requires forall j :: 0 <= j < |v| ==> ChoosesAs(variables, x, |x|, j, choices[j])
    ensures choices == Chosen(ProblemOf(request), v)
  {
    hide AllPlannable, WellFormed, ProblemOf, Laid, Offset, Indicates;
    var options := ProblemOf(request).options;
    forall j | 0 <= j < |v|
      ensures choices[j] == options[j][v[j]]
    {
      assert ChoosesAs(variables, x, |x|, j, choices[j]);
      var t: nat :| LastChosen(variables, x, |x|, j, t) && variables[t].choice == choices[j];
      IndicatedPick(options, x, v, |v|, j);
      LaidColumn(options, variables, t);
    }
  }

  function MilpPlan(request: ScheduleInput, choices: seq<Choice>, objective: real): SchedulePlan
    requires |choices| == |request.jobs|
  {
    PlanOf(request, choices, objective).(strategy := "milp_highs", assumptions := ["time-indexed binary MILP"])
  }

  datatype Decoded = NoIncumbent | Rejected | Planned(plan: SchedulePlan)

  /** The 0/1 vector the solver found, its objective, and what becomes of them: no plan, a plan the validator raises
      on, or a plan. */
  method DecodePlan(request: ScheduleInput, variables: seq<Variable>, x: seq<bool>, objective: real)
    returns (decoded: Decoded, ghost v: Picks)
    requires AllPlannable(request) && Encodes(request, variables) && |x| == |variables|
    ensures decoded.Planned? ==> PlanFits(request, decoded.plan.allocations) && decoded.plan.estimatedCost == objective
    ensures Regular(request) && SolvedAt(request, variables, objective, x) ==>
              && decoded.Planned? && Completes(ProblemOf(request), [], v) && |v| == |request.jobs|
              && Indicates(ProblemOf(request).options, x, v, |v|) && FitsEverySlot(request, v)
              && decoded.plan == MilpPlan(request, Chosen(ProblemOf(request), v), objective)
              && objective == Cost(ProblemOf(request), v)
  {
    hide AllPlannable, WellFormed, ProblemOf, Laid, Offset, Indicates, Satisfies, Shaped, Total, ModelOf, PlanFits,
      Cost, Placeable, ChoosesAs, Chooses, FitsEverySlot, Aligned, DistinctJobIds, TotalEnergy, OwnedBy;
    v := [];
    ColumnsOwned(request, variables);
    var choices := Decode(variables, x, |request.jobs|);
    if SolvedAt(request, variables, objective, x) && Aligned(request.slots) {
      AlignedUnique(request.slots);
      v := SolutionIsPicks(request, variables, x);
      SolutionChooses(request, variables, x, v);
    }
    if choices.None? {
      return NoIncumbent, v;
    }
    var plan := MilpPlan(request, choices.value, objective);
    if SolvedAt(request, variables, objective, x) && Aligned(request.slots) && DistinctJobIds(request.jobs) {
      DecodeRoundTrip(request, variables, x, v, choices.value);
      PlanAccepted(request, PlanOf(request, choices.value, objective), v);
    }
    var verdict := ValidatePlan(request, plan.allocations);
    return if verdict == Valid then Planned(plan) else Rejected, v;
  }

  lemma ColumnsOwned(request: ScheduleInput, variables: seq<Variable>)
    requires AllPlannable(request) && Encodes(request, variables)
    ensures forall t :: 0 <= t < |variables| ==> variables[t].job < |request.jobs|
  {
  }

  /** A vector that picks an option for every job leaves no job without a chosen column. */
  lemma SolutionChooses(request: ScheduleInput, variables: seq<Variable>, x: seq<bool>, v: Picks)
    requires AllPlannable(request) && Encodes(request, variables) && |x| == |variables|
    requires IsPicks(ProblemOf(request), v) && |v| == |request.jobs|
    requires Indicates(ProblemOf(request).options, x, v, |v|)
    ensures forall j :: 0 <= j < |request.jobs| ==> Chooses(variables, x, |x|, j)
  {
    hide AllPlannable, WellFormed, ProblemOf, Laid, Offset, Indicates;
    var options := ProblemOf(request).options;
    forall j | 0 <= j < |request.jobs|
      ensures Chooses(variables, x, |x|, j)
    {
      IndicatedPick(options, x, v, |v|, j);
      ColumnOf(options, variables, j, v[j]);
    }
  }
}
