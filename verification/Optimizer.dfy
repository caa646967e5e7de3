/** `optimize` of packages/optimization/engine.py, from request to validated plan. */
module Optimizer {
  import opened Sequences
  import opened Wrappers
  import opened Contracts
  import opened Windows
  import opened Exhaustive
  import opened Engine
  import opened Placements

  datatype Status = Optimal | FeasibleTimeout | TimedOut | Infeasible

  datatype Diagnostic = JobNoFeasibleWindow(jobId: string) | SearchTimeout | GpuCapacityConflict

  datatype OptimizationResult = OptimizationResult(
    status: Status,
    plan: Option<SchedulePlan>,
    gap: real,
    diagnostics: seq<Diagnostic>)

  /** `Raised` is any exception: a bad slot duration, a slot number past the slot tuple, or a plan that
      the validator rejects. */
  datatype Outcome = Raised | Completed(result: OptimizationResult)

  function AllocationsOf(jobs: seq<Job>, choices: seq<Choice>): (allocations: seq<Allocation>)
    requires |jobs| == |choices|
    ensures |allocations| == |jobs|
  {
    seq(|jobs|, i requires 0 <= i < |jobs| =>
      Allocation(jobs[i].id, choices[i], jobs[i].request.gpuCount, "MIN_TOTAL_COST"))
  }

  function PlanOf(request: ScheduleInput, choices: seq<Choice>, cost: real): SchedulePlan
    requires |choices| == |request.jobs|
  {
    SchedulePlan(
      "exact_co_optimizer",
      AllocationsOf(request.jobs, choices),
      [],
      TotalEnergy(request.slots, request.jobs, choices),
      cost,
      ["perfect slot forecast", "single-site bounded MVP"],
      [],
      request)
  }

  /** The plan is the one built from the complete vector `v` of the search. */
  ghost predicate PlanFor(request: ScheduleInput, plan: SchedulePlan, v: Picks) {
    && AllPlannable(request)
    && WellFormed(ProblemOf(request))
    && Completes(ProblemOf(request), [], v)
    && |v| == |request.jobs|
    && plan == PlanOf(request, Chosen(ProblemOf(request), v), Cost(ProblemOf(request), v))
  }

  /** No job after the first can lower a running cost. */
  ghost predicate NonNegativeTail(request: ScheduleInput) {
    forall j, s :: 1 <= j < |request.jobs| && s in request.slots ==>
      SlotCost(request.slots, request.jobs[j], s.index) >= 0.0
  }

  lemma {:induction false} ChoiceCostNonNegative(slots: seq<TimeSlot>, job: Job, c: Choice)
    requires forall s :: s in slots ==> SlotCost(slots, job, s.index) >= 0.0
    requires forall x :: x in c ==> exists i :: 0 <= i < |slots| && slots[i].index == x
    ensures ChoiceCost(slots, job, c) >= 0.0
  {
    hide SlotCost;
    if |c| == 0 {
    } else {
      var front := c[..|c| - 1];
      assert forall x :: x in front ==> x in c;
      ChoiceCostNonNegative(slots, job, front);
      assert c[|c| - 1] in c;
      var i :| 0 <= i < |slots| && slots[i].index == c[|c| - 1];
      assert slots[i] in slots;
    }
  }

  lemma TailCosts(request: ScheduleInput)
    requires AllPlannable(request) && NonNegativeTail(request) && WellFormed(ProblemOf(request))
    ensures TailNonNegative(ProblemOf(request))
  {
    hide SlotCost, Plannable, WellFormed;
    var p := ProblemOf(request);
    forall i, k | 1 <= i < |p.costs| && 0 <= k < |p.costs[i]|
      ensures p.costs[i][k] >= 0.0
    {
      OptionSound(request.slots, request.jobs[i], p.options[i][k]);
      ChoiceCostNonNegative(request.slots, request.jobs[i], p.options[i][k]);
    }
  }

  // ----- the plan's own totals -----

  lemma {:induction false} UseIsUses(request: ScheduleInput, v: Picks, s: int, j: nat)
    requires AllPlannable(request) && WellFormed(ProblemOf(request))
    requires IsPicks(ProblemOf(request), v) && |v| == |request.jobs| && j <= |v|
    ensures Use(AllocationsOf(request.jobs, Chosen(ProblemOf(request), v))[..j], s)
            == Uses(ProblemOf(request), v[..j], s)
  {
    hide Load, WellFormed, AllPlannable, OptionList, Costs;
    if j == 0 {
    } else {
      var all := AllocationsOf(request.jobs, Chosen(ProblemOf(request), v));
      UseIsUses(request, v, s, j - 1);
      assert all[..j][..j - 1] == all[..j - 1];
      assert v[..j][..j - 1] == v[..j - 1];
    }
  }

  /** Whatever the slot numbering, no slot is given more GPUs than the slot of that index has. */
  lemma PlanWithinCapacity(request: ScheduleInput, plan: SchedulePlan, v: Picks)
    requires PlanFor(request, plan, v) && UniqueSlots(request.slots)
    ensures forall k, i :: 0 <= k < |plan.allocations| && i in plan.allocations[k].slotIndices ==>
              i in CapacityTable(request.slots) && Use(plan.allocations, i) <= CapacityTable(request.slots)[i]
  {
    hide WellFormed, Use, Uses, Cost, Placeable, AllPlannable, OptionList, Costs;
    var p := ProblemOf(request);
    ProblemWellFormed(request);
    PlaceableIsWithinCapacity(p, v);
    forall k, i | 0 <= k < |plan.allocations| && i in plan.allocations[k].slotIndices
      ensures i in p.capacity && Use(plan.allocations, i) <= p.capacity[i]
    {
      UseIsUses(request, v, i, |v|);
      OptionSlots(p, k, v[k]);
      assert plan.allocations[..|v|] == plan.allocations && v[..|v|] == v;
    }
  }

  /** With aligned slots and distinct job ids the validator accepts every plan of the search. */
  lemma PlanAccepted(request: ScheduleInput, plan: SchedulePlan, v: Picks)
    requires PlanFor(request, plan, v) && Aligned(request.slots) && DistinctJobIds(request.jobs)
    ensures PlanFits(request, plan.allocations)
  {
    hide WellFormed, Use, Uses, Cost, Placeable, OptionList, Costs, CapacityTable;
    AlignedUnique(request.slots);
    PlanWithinCapacity(request, plan, v);
    forall k | 0 <= k < |plan.allocations|
      ensures AllocationFits(request, plan.allocations, plan.allocations[k])
    {
      var job := request.jobs[k];
      var c := ProblemOf(request).options[k][v[k]];
      FindJobDistinct(request.jobs, k);
      OptionSound(request.slots, job, c);
      forall i | i in c
        ensures TimelySlot(request.slots, job.sla.deadline, i)
        ensures Use(plan.allocations, i) <= SlotAt(request.slots, i).gpuCapacity
      {
        assert i in plan.allocations[k].slotIndices;
        AlignedCapacity(request.slots, i);
        assert request.slots[i] in request.slots;
      }
    }
  }

  // ----- energy -----

  /** At one price for all slots an exact plan costs that price for every kilowatt hour it states. */
  lemma PlanEnergyPriced(request: ScheduleInput, plan: SchedulePlan, v: Picks, price: real)
    requires PlanFor(request, plan, v) && forall s :: s in request.slots ==> s.pricePerKwh == price
    ensures plan.estimatedCost == price * plan.energyIntentKwh
  {
    hide WellFormed, Placeable, Cost, ProblemOf, AllPlannable, TotalEnergy;
    ProblemSize(request);
    PicksPriced(request, v, price);
    assert request.jobs[..|v|] == request.jobs;
  }

  lemma {:induction false} PicksPriced(request: ScheduleInput, v: Picks, price: real)
    requires AllPlannable(request) && WellFormed(ProblemOf(request)) && IsPicks(ProblemOf(request), v)
    requires |v| <= |request.jobs| && forall s :: s in request.slots ==> s.pricePerKwh == price
    ensures Cost(ProblemOf(request), v)
            == price * TotalEnergy(request.slots, request.jobs[..|v|], Chosen(ProblemOf(request), v))
  {
    hide WellFormed, ProblemOf, AllPlannable, ChoiceCost, ChoiceEnergy;
    if |v| == 0 {
    } else {
      var m, p := |v| - 1, ProblemOf(request);
      PicksPriced(request, v[..m], price);
      ProblemSize(request);
      OptionCost(request, m, v[m]);
      ChoicePriced(request.slots, request.jobs[m], p.options[m][v[m]], price);
      assert Chosen(p, v)[..m] == Chosen(p, v[..m]) && request.jobs[..|v|][..m] == request.jobs[..m];
    }
  }

  lemma {:induction false} ChoicePriced(slots: seq<TimeSlot>, job: Job, c: Choice, price: real)
    requires forall s :: s in slots ==> s.pricePerKwh == price
    ensures ChoiceCost(slots, job, c) == price * ChoiceEnergy(slots, job, c)
  {
    if |c| == 0 {
    } else {
      ChoicePriced(slots, job, c[..|c| - 1], price);
    }
  }

  // ----- optimality over all placements -----

  ghost function SlotSets(allocations: seq<Allocation>): seq<set<int>> {
    seq(|allocations|, i requires 0 <= i < |allocations| => Members(allocations[i].slotIndices))
  }

  /** The plan is a placement of all jobs, and `estimatedCost` is what it costs. */
  ghost predicate Places(request: ScheduleInput, plan: SchedulePlan)
    requires AllPlannable(request)
  {
    && |plan.allocations| == |request.jobs|
    && IsPlacement(request, SlotSets(plan.allocations))
    && plan.estimatedCost == PlacementCost(request, SlotSets(plan.allocations), |request.jobs|)
  }

  lemma PlanPlaces(request: ScheduleInput, plan: SchedulePlan, v: Picks)
    requires PlanFor(request, plan, v) && Aligned(request.slots)
    ensures Places(request, plan)
  {
    hide Aligned, WellFormed, Cost, PlacementCost, IsPlacement, OptionList, Costs, Placeable, AllPlannable;
    var p := ProblemOf(request);
    PicksArePlacement(request, v);
    assert SlotSets(plan.allocations) == WindowsOf(p, v);
  }

  /** What a plan does for each job, in slots that are numbered by position: it books the job's GPUs in consecutive or,
      for a job that can be checkpointed, any increasing slots, each starting before the deadline and with the GPUs
      and the power for the whole job, and just as many of them as the job's hours take. */
  lemma PlanServesJobs(request: ScheduleInput, result: OptimizationResult, v: Picks, k: nat)
    requires Justified(request, result, v) && result.plan.Some? && Aligned(request.slots) && k < |request.jobs|
    ensures |result.plan.value.allocations| == |request.jobs|
    ensures var job, a := request.jobs[k], result.plan.value.allocations[k];
            && a.jobId == job.id && a.gpuCount == job.request.gpuCount
            && (forall s :: s in a.slotIndices ==>
                  && 0 <= s < |request.slots|
                  && request.slots[s].startsAt < job.sla.deadline
                  && request.slots[s].gpuCapacity >= job.request.gpuCount
                  && request.slots[s].powerCapacityKw >= job.request.powerKwPerGpu * job.request.gpuCount as real)
            && (forall i, j :: 0 <= i < j < |a.slotIndices| ==> a.slotIndices[i] < a.slotIndices[j])
            && (!job.checkpointable ==>
                  forall i :: 0 <= i < |a.slotIndices| ==> a.slotIndices[i] == a.slotIndices[0] + i)
            && |request.slots| > 0
            && LeastCovering(|a.slotIndices|, request.slots[0].durationHours, job.request.estimatedHours)
  {
    hide WellFormed, Cost, OptionList, Costs, Placeable, AllPlannable, Prune, PlanFits, LeastCovering, Aligned;
    var p := ProblemOf(request);
    var c, job := p.options[k][v[k]], request.jobs[k];
    PickedWindow(request, k, c);
    ElementsSize(c);
    MembersHas(c);
    if !job.checkpointable {
      ConsecutiveIsGapFree(c);
      forall i | 0 <= i < |c|
        ensures c[i] == c[0] + i
      {
        RunFrom(c, 0, i);
      }
    }
  }

  /** A first cheapest vector costs no more than any placement whatever. */
  lemma CheapestOfAll(request: ScheduleInput, v: Picks, windows: seq<set<int>>)
    requires AllPlannable(request) && WellFormed(ProblemOf(request)) && Aligned(request.slots)
    requires FirstCheapest(ProblemOf(request), v) && IsPlacement(request, windows)
    ensures Cost(ProblemOf(request), v) <= PlacementCost(request, windows, |request.jobs|)
  {
    hide Aligned, WellFormed, Cost, PlacementCost, ProblemOf, Placeable, AllPlannable;
    var w := PlacementIsPicks(request, windows);
    assert Completes(ProblemOf(request), [], w);
  }

  /** If the search has no complete vector there is no placement. */
  lemma NoVectorNoPlacement(request: ScheduleInput, windows: seq<set<int>>)
    requires AllPlannable(request) && WellFormed(ProblemOf(request)) && Aligned(request.slots)
    requires forall w :: !Completes(ProblemOf(request), [], w)
    ensures !IsPlacement(request, windows)
  {
    hide Aligned, WellFormed, Cost, PlacementCost, ProblemOf, Placeable, AllPlannable;
    if IsPlacement(request, windows) {
      var w := PlacementIsPicks(request, windows);
      assert false;
    }
  }

  // ----- the optimizer -----

  /** Every job's options, or `None` when one of them raises. */
  method AllOptions(request: ScheduleInput) returns (options: Option<seq<seq<Choice>>>)
    ensures options.Some? <==> AllPlannable(request)
    ensures options.Some? ==> options.value == ProblemOf(request).options
  {
    var lists: seq<seq<Choice>> := [];
    for i := 0 to |request.jobs|
      invariant |lists| == i
      invariant forall j :: 0 <= j < i ==>
        Plannable(request.slots, request.jobs[j]) && lists[j] == OptionList(request.slots, request.jobs[j])
    {
      var choices := JobOptions(request.slots, request.jobs[i]);
      if choices.None? {
        assert request.jobs[i] in request.jobs;
        return None;
      }
      lists := lists + [choices.value];
    }
    return Some(lists);
  }

  /** The jobs with no option at all. */
  method WithoutWindow(request: ScheduleInput, options: seq<seq<Choice>>) returns (empty: seq<Diagnostic>)
    requires |options| == |request.jobs|
    ensures |empty| > 0 <==> exists i :: 0 <= i < |options| && |options[i]| == 0
    ensures forall d :: d in empty <==>
              exists i :: 0 <= i < |options| && |options[i]| == 0 && d == JobNoFeasibleWindow(request.jobs[i].id)
  {
    empty := [];
    for i := 0 to |options|
      invariant |empty| > 0 <==> exists j :: 0 <= j < i && |options[j]| == 0
      invariant forall d :: d in empty <==>
        exists j :: 0 <= j < i && |options[j]| == 0 && d == JobNoFeasibleWindow(request.jobs[j].id)
    {
      if |options[i]| == 0 {
        empty := empty + [JobNoFeasibleWindow(request.jobs[i].id)];
      }
    }
  }

  /** How the search for a request goes out under a clock. */
  ghost function FateOf(request: ScheduleInput, clock: Clock): (fate: Fate)
    requires AllPlannable(request) && WellFormed(ProblemOf(request))
    ensures fate.Ended? && fate.best.Some? ==> Completes(ProblemOf(request), [], fate.best.value)
  {
    var fate := Walk(request.slots, ProblemOf(request), [], None, clock, 0);
    assert fate.Ended? && fate.best.Some? ==> Completes(ProblemOf(request), [], fate.best.value) by {
      if fate.Ended? {
        WalkCompletes(request.slots, ProblemOf(request), [], None, clock, 0);
      }
    }
    fate
  }

  /** The search proper: the best placement found, and whether a look at the clock came too late. */
  method RunSearch(request: ScheduleInput, options: seq<seq<Choice>>, clock: Clock)
    returns (raised: bool, timedOut: bool, best: Option<(real, seq<Choice>)>, ghost picks: Option<Picks>)
    requires AllPlannable(request) && WellFormed(ProblemOf(request)) && options == ProblemOf(request).options
    ensures raised <==> FateOf(request, clock).Broken?
    ensures !raised ==> picks == FateOf(request, clock).best
    ensures !raised ==> (timedOut <==> Late(clock, FateOf(request, clock).looks))
    ensures !raised && picks.None? ==> best.None?
    ensures !raised && picks.Some? ==>
              && Completes(ProblemOf(request), [], picks.value)
              && best == Some((Cost(ProblemOf(request), picks.value), Chosen(ProblemOf(request), picks.value)))
  {
    hide AllPlannable, WellFormed, ProblemOf, Completes, Walk, Late;
    var search := new Search(request, options, clock);
    LateNext(clock, 0);
    raised := search.Visit(0, 0.0);
    timedOut, picks, best := search.timedOut, search.bestPicks, None;
    if !raised && search.bestCost.Some? {
      best := Some((search.bestCost.value, search.bestChoices.value));
    }
  }

  /** What a result of the optimizer stands for, in terms of the search's vectors. */
  ghost predicate Justified(request: ScheduleInput, result: OptimizationResult, v: Picks) {
    && AllPlannable(request)
    && WellFormed(ProblemOf(request))
    && (result.plan.Some? <==> result.status.Optimal? || result.status.FeasibleTimeout?)
    && (result.plan.Some? ==>
          PlanFor(request, result.plan.value, v) && PlanFits(request, result.plan.value.allocations))
    && (result.status.Optimal? ==> Prune(ProblemOf(request), [], None) == Some(v))
    && (result.status.Infeasible? ==> forall w :: !Completes(ProblemOf(request), [], w))
    && (result.gap == 0.0 <==> result.status.Optimal? || result.status.Infeasible?)
  }

  /** What the clock makes of a request: the status and the vector of the plan follow from the two. */
  ghost predicate DecidedBy(request: ScheduleInput, clock: Clock, result: OptimizationResult, v: Picks) {
    && AllPlannable(request)
    && WellFormed(ProblemOf(request))
    && if LacksOption(ProblemOf(request)) then result.status.Infeasible?
       else
         var fate := FateOf(request, clock);
         && fate.Ended?
         && if fate.best.None? then result.status == if Late(clock, fate.looks) then TimedOut else Infeasible
            else
              && v == fate.best.value
              && result.status == if Late(clock, fate.looks) then FeasibleTimeout else Optimal
  }

  /** Some job has no option at all. */
  ghost predicate LacksOption(p: Problem) {
    exists i :: 0 <= i < |p.options| && |p.options[i]| == 0
  }

  /** The validator rejects the allocations of this vector. */
  ghost predicate Refused(request: ScheduleInput, v: Picks)
    requires AllPlannable(request) && IsPicks(ProblemOf(request), v) && |v| == |ProblemOf(request).options|
  {
    ProblemSize(request);
    !PlanFits(request, AllocationsOf(request.jobs, Chosen(ProblemOf(request), v)))
  }

  /** Exactly when the optimizer raises: on a bad duration, on a cost lookup past the slot tuple, or because the
      validator rejects its plan. */
  ghost predicate Raises(request: ScheduleInput, clock: Clock) {
    if !AllPlannable(request) then true
    else
      ProblemWellFormed(request);
      if LacksOption(ProblemOf(request)) then false
      else
        var fate := FateOf(request, clock);
        fate.Broken? || (fate.best.Some? && Refused(request, fate.best.value))
  }

  predicate OutOfTime(status: Status) {
    status.TimedOut? || status.FeasibleTimeout?
  }

  /** Some look at the clock, however late, would find the limit passed. */
  ghost predicate Expires(clock: Clock) {
    exists n: nat :: clock(n)
  }

  ghost predicate Feasible(request: ScheduleInput)
    requires AllPlannable(request)
  {
    exists windows :: IsPlacement(request, windows)
  }

  /** The search has a complete vector to find. For aligned slots this is feasibility; for other numberings it is what
      the optimizer goes by. */
  ghost predicate Solvable(request: ScheduleInput) {
    AllPlannable(request) && WellFormed(ProblemOf(request)) && exists w :: Completes(ProblemOf(request), [], w)
  }

  /** Requests whose slots sit where their indices say, with distinct jobs and usable durations. */
  ghost predicate Regular(request: ScheduleInput) {
    Aligned(request.slots) && DistinctJobIds(request.jobs) && AllPlannable(request)
  }

  /** Runs the search and validates its plan. `v` is the vector behind the plan. On a regular request and a clock that
      never expires the answer is `optimal` if and only if a placement exists and `infeasible` if and only if none
      does. */
  method Optimize(request: ScheduleInput, clock: Clock) returns (outcome: Outcome, ghost v: Picks)
    ensures outcome.Raised? <==> Raises(request, clock)
    ensures Regular(request) ==> outcome.Completed?
    ensures outcome.Completed? ==> Justified(request, outcome.result, v) && DecidedBy(request, clock, outcome.result, v)
    ensures outcome.Completed? && OutOfTime(outcome.result.status) ==> Expires(clock)
    ensures Regular(request) && !Expires(clock) ==>
              && (outcome.result.status.Optimal? <==> Feasible(request))
              && (outcome.result.status.Infeasible? <==> !Feasible(request))
  {
    hide WellFormed, Cost, ProblemOf, Prune, Aligned, DistinctJobIds, AllPlannable, PlanFits, OptionList, Walk, Late,
      Feasible, Expires, Raises, FateOf, Solvable;
    outcome, v := Answer(request, clock);
    if Regular(request) {
      RegularNeverRaises(request, clock);
    }
    if outcome.Completed? {
      TimeoutMeansExpired(request, clock, outcome.result, v);
      SettledMeans(request, outcome.result, v);
    }
  }

  lemma PlanIffSolved(request: ScheduleInput, result: OptimizationResult, v: Picks)
    requires Justified(request, result, v)
    ensures result.plan.Some? <==> result.status.Optimal? || result.status.FeasibleTimeout?
  {
  }

  lemma TimeoutMeansExpired(request: ScheduleInput, clock: Clock, result: OptimizationResult, v: Picks)
    requires DecidedBy(request, clock, result, v)
    ensures OutOfTime(result.status) ==> Expires(clock)
  {
    hide WellFormed, ProblemOf, AllPlannable, FateOf, LacksOption;
  }

  /** On a regular request the optimizer never raises. */
  lemma RegularNeverRaises(request: ScheduleInput, clock: Clock)
    requires Regular(request)
    ensures !Raises(request, clock)
  {
    hide WellFormed, Cost, ProblemOf, Aligned, DistinctJobIds, AllPlannable, PlanFits, OptionList, Walk, LacksOption,
      Placeable;
    ProblemWellFormed(request);
    var p := ProblemOf(request);
    AlignedPriced(request);
    PricedEnds(request.slots, p, [], None, clock, 0);
    var fate := FateOf(request, clock);
    if fate.best.Some? {
      var v := fate.best.value;
      ProblemSize(request);
      PlanAccepted(request, PlanOf(request, Chosen(p, v), Cost(p, v)), v);
    }
  }

  lemma AlignedPriced(request: ScheduleInput)
    requires AllPlannable(request) && Aligned(request.slots)
    ensures AllPriced(request.slots, ProblemOf(request))
  {
    var p := ProblemOf(request);
    forall i, k | 0 <= i < |p.options| && 0 <= k < |p.options[i]|
      ensures Priced(request.slots, p.options[i][k])
    {
      OptionSound(request.slots, request.jobs[i], p.options[i][k]);
    }
  }

  /** Without a timeout the status decides whether there is a complete vector, which for aligned slots is whether a
      placement exists. */
  lemma SettledMeans(request: ScheduleInput, result: OptimizationResult, v: Picks)
    requires Justified(request, result, v)
    ensures !OutOfTime(result.status) ==>
              && (result.status.Optimal? <==> Solvable(request))
              && (result.status.Infeasible? <==> !Solvable(request))
    ensures Aligned(request.slots) ==> (Solvable(request) <==> Feasible(request))
  {
    hide WellFormed, ProblemOf, Prune, Cost, Aligned, PlanFits, Feasible;
    if Aligned(request.slots) {
      SolvableIsFeasible(request);
    }
  }

  lemma SolvableIsFeasible(request: ScheduleInput)
    requires AllPlannable(request) && Aligned(request.slots)
    ensures Solvable(request) <==> Feasible(request)
  {
    hide WellFormed, ProblemOf, Cost, Aligned, IsPlacement, PlacementCost, AllPlannable, Placeable;
    ProblemWellFormed(request);
    if w :| Completes(ProblemOf(request), [], w) {
      PicksArePlacement(request, w);
    }
    if windows :| IsPlacement(request, windows) {
      var w := PlacementIsPicks(request, windows);
    }
  }

  /** The body of the optimizer. */
  method Answer(request: ScheduleInput, clock: Clock) returns (outcome: Outcome, ghost v: Picks)
    ensures outcome.Raised? <==> Raises(request, clock)
    ensures outcome.Completed? ==> Justified(request, outcome.result, v) && DecidedBy(request, clock, outcome.result, v)
  {
    hide WellFormed, Cost, ProblemOf, Prune, AllPlannable, PlanFits, OptionList, Walk, Late;
    v := [];
    var lists := AllOptions(request);
    if lists.None? {
      return Raised, v;
    }
    var options := lists.value;
    ProblemWellFormed(request);
    ProblemSize(request);
    var empty := WithoutWindow(request, options);
    if |empty| > 0 {
      NoOptionNoVector(request);
      return Completed(OptimizationResult(Infeasible, None, 0.0, empty)), v;
    }
    var raised, timedOut, best, picks := RunSearch(request, options, clock);
    if raised {
      return Raised, v;
    }
    if !timedOut {
      WalkIsPrune(request.slots, ProblemOf(request), [], None, clock, 0);
    }
    if best.None? {
      if timedOut {
        return Completed(OptimizationResult(TimedOut, None, 1.0, [SearchTimeout])), v;
      }
      NothingFound(ProblemOf(request));
      return Completed(OptimizationResult(Infeasible, None, 0.0, [GpuCapacityConflict])), v;
    }
    v := picks.value;
    var plan := PlanOf(request, best.value.1, best.value.0);
    var verdict := ValidatePlan(request, plan.allocations);
    if verdict != Valid {
      return Raised, v;
    }
    outcome := Completed(OptimizationResult(
      if timedOut then FeasibleTimeout else Optimal, Some(plan), if timedOut then 1.0 else 0.0, []));
  }

  lemma NoOptionNoVector(request: ScheduleInput)
    requires AllPlannable(request) && WellFormed(ProblemOf(request))
    requires exists i :: 0 <= i < |ProblemOf(request).options| && |ProblemOf(request).options[i]| == 0
    ensures forall w :: !Completes(ProblemOf(request), [], w)
  {
    hide AllPlannable, WellFormed, ProblemOf, Placeable;
  }

  lemma NothingFound(p: Problem)
    requires WellFormed(p) && Prune(p, [], None).None?
    ensures forall w :: !Completes(p, [], w)
  {
    hide WellFormed, Placeable, Prune;
    forall w | Completes(p, [], w)
      ensures false
    {
      PruneFindsSome(p, [], None, w);
    }
  }

  // ----- what the result means to a caller -----

  /** A completed search is globally optimal: no placement of all jobs is cheaper than the plan, and the
      plan is the first cheapest one in enumeration order. */
  lemma OptimalMeansOptimal(request: ScheduleInput, result: OptimizationResult, v: Picks)
    requires Justified(request, result, v) && result.status.Optimal?
    requires NonNegativeTail(request)
    ensures FirstCheapest(ProblemOf(request), v)
    ensures Aligned(request.slots) ==>
              forall windows :: IsPlacement(request, windows) ==>
                result.plan.value.estimatedCost <= PlacementCost(request, windows, |request.jobs|)
  {
    hide AllPlannable, WellFormed, ProblemOf, Prune, Exhaust, Cost, NonNegativeTail, FirstCheapest, Aligned,
      PlacementCost, PlanFits, IsWindow, GpuTotal;
    TailCosts(request);
    PruneIsExhaust(ProblemOf(request), [], None);
    ExhaustIsFirstCheapest(ProblemOf(request));
    if Aligned(request.slots) {
      forall windows | IsPlacement(request, windows)
        ensures result.plan.value.estimatedCost <= PlacementCost(request, windows, |request.jobs|)
      {
        CheapestOfAll(request, v, windows);
      }
    }
  }

  /** "infeasible" means that no placement exists, and any plan returned, timeout or not, is a placement
      whose cost the plan states. */
  lemma StatusMeans(request: ScheduleInput, result: OptimizationResult, v: Picks)
    requires Justified(request, result, v) && Aligned(request.slots)
    ensures result.status.Infeasible? ==> forall windows :: !IsPlacement(request, windows)
    ensures result.plan.Some? ==> Places(request, result.plan.value)
  {
    hide WellFormed, ProblemOf, Prune, Cost, Aligned, IsPlacement, PlacementCost, PlanFits, Places;
    if result.status.Infeasible? {
      forall windows
        ensures !IsPlacement(request, windows)
      {
        NoVectorNoPlacement(request, windows);
      }
    }
    if result.plan.Some? {
      PlanPlaces(request, result.plan.value, v);
    }
  }
}
