/** Re-solving a changed request: `change_slot_prices` of packages/explain/counterfactual.py and `run_what_if`
    of packages/whatif/service.py. */
module Scenarios {
  import opened Wrappers
  import opened Contracts
  import opened Windows
  import opened Exhaustive
  import opened Engine
  import opened Placements
  import opened Optimizer

  // ----- scaling prices -----

  function Repriced(request: ScheduleInput, m: real): (r: ScheduleInput)
    ensures |r.slots| == |request.slots| && r.jobs == request.jobs
  {
    request.(slots := seq(|request.slots|, i requires 0 <= i < |request.slots| =>
      request.slots[i].(pricePerKwh := request.slots[i].pricePerKwh * m)))
  }

  lemma {:induction false} RepricedEligible(slots: seq<TimeSlot>, slots': seq<TimeSlot>, job: Job, n: nat)
    requires n <= |slots| == |slots'|
    requires forall i :: 0 <= i < |slots| ==> slots'[i] == slots[i].(pricePerKwh := slots'[i].pricePerKwh)
    ensures EligibleIndices(slots'[..n], job) == EligibleIndices(slots[..n], job)
  {
    if n == 0 {
    } else {
      RepricedEligible(slots, slots', job, n - 1);
      assert slots[..n][..n - 1] == slots[..n - 1] && slots'[..n][..n - 1] == slots'[..n - 1];
    }
  }

  lemma RepricedOptions(request: ScheduleInput, m: real, job: Job)
    ensures Plannable(Repriced(request, m).slots, job) <==> Plannable(request.slots, job)
    ensures Plannable(request.slots, job) ==>
              OptionList(Repriced(request, m).slots, job) == OptionList(request.slots, job)
  {
    var slots, slots' := request.slots, Repriced(request, m).slots;
    RepricedEligible(slots, slots', job, |slots|);
    assert slots[..|slots|] == slots && slots'[..|slots|] == slots';
  }

  lemma {:induction false} RepricedCapacity(slots: seq<TimeSlot>, slots': seq<TimeSlot>, n: nat)
    requires n <= |slots| == |slots'|
    requires forall i :: 0 <= i < |slots| ==> slots'[i] == slots[i].(pricePerKwh := slots'[i].pricePerKwh)
    ensures CapacityTable(slots'[..n]) == CapacityTable(slots[..n])
  {
    hide CapacityTable, UniqueSlots, Indices;
    if n == 0 {
      assert slots[..0] == slots'[..0];
    } else {
      RepricedCapacity(slots, slots', n - 1);
      TableNext(slots, n - 1);
      TableNext(slots', n - 1);
    }
  }

  lemma TableNext(slots: seq<TimeSlot>, n: nat)
    requires n < |slots|
    ensures CapacityTable(slots[..n + 1]) == CapacityTable(slots[..n])[slots[n].index := slots[n].gpuCapacity]
  {
    hide UniqueSlots, Indices;
    assert slots[..n + 1][..n] == slots[..n];
  }

  lemma {:induction false} RepricedChoiceCost(request: ScheduleInput, m: real, job: Job, c: Choice)
    ensures ChoiceCost(Repriced(request, m).slots, job, c) == m * ChoiceCost(request.slots, job, c)
  {
    if |c| == 0 {
    } else {
      RepricedChoiceCost(request, m, job, c[..|c| - 1]);
      RepricedSlotCost(request, m, job, c[|c| - 1]);
    }
  }

  lemma RepricedSlotCost(request: ScheduleInput, m: real, job: Job, i: int)
    ensures SlotCost(Repriced(request, m).slots, job, i) == m * SlotCost(request.slots, job, i)
  {
    if InRange(request.slots, i) {
      var slot := SlotAt(request.slots, i);
      var e := slot.durationHours * job.request.gpuCount as real * job.request.powerKwPerGpu;
      ScaledProduct(e, slot.pricePerKwh, m);
    }
  }

  lemma ScaledProduct(e: real, price: real, m: real)
    ensures e * (price * m) == m * (e * price)
  {
  }

  /** The repriced problem differs in its costs only, and those are all scaled. */
  ghost predicate Scaled(p: Problem, p': Problem, m: real) {
    && p'.options == p.options && p'.gpus == p.gpus && p'.capacity == p.capacity
    && |p'.costs| == |p.costs|
    && forall i :: 0 <= i < |p.costs| ==> ScaledRow(p.costs[i], p'.costs[i], m)
  }

  ghost predicate ScaledRow(row: seq<real>, row': seq<real>, m: real) {
    |row'| == |row| && forall k :: 0 <= k < |row| ==> row'[k] == m * row[k]
  }

  lemma RepricedProblem(request: ScheduleInput, m: real)
    requires AllPlannable(request)
    ensures AllPlannable(Repriced(request, m))
    ensures Scaled(ProblemOf(request), ProblemOf(Repriced(request, m)), m)
  {
    hide OptionList, ChoiceCost, Plannable, CapacityTable;
    var request' := Repriced(request, m);
    forall j | j in request.jobs
      ensures Plannable(request'.slots, j) && OptionList(request'.slots, j) == OptionList(request.slots, j)
    {
      RepricedOptions(request, m, j);
    }
    var p, p' := ProblemOf(request), ProblemOf(request');
    forall i | 0 <= i < |p.costs|
      ensures p'.options[i] == p.options[i] && ScaledRow(p.costs[i], p'.costs[i], m)
    {
      assert request.jobs[i] in request.jobs;
      forall k | 0 <= k < |p.costs[i]|
        ensures p'.costs[i][k] == m * p.costs[i][k]
      {
        RepricedChoiceCost(request, m, request.jobs[i], p.options[i][k]);
      }
    }
    RepricedCapacity(request.slots, request'.slots, |request.slots|);
    assert request.slots[..|request.slots|] == request.slots && request'.slots[..|request.slots|] == request'.slots;
  }

  lemma {:induction false} ScaledCost(p: Problem, p': Problem, m: real, v: Picks)
    requires WellFormed(p) && WellFormed(p') && Scaled(p, p', m) && IsPicks(p, v)
    ensures IsPicks(p', v) && Cost(p', v) == m * Cost(p, v)
  {
    hide WellFormed;
    if |v| == 0 {
    } else {
      var i := |v| - 1;
      ScaledCost(p, p', m, v[..i]);
      RowWidth(p, i);
      assert ScaledRow(p.costs[i], p'.costs[i], m);
    }
  }

  lemma RowWidth(p: Problem, i: nat)
    requires WellFormed(p) && i < |p.options|
    ensures |p.costs| == |p.options| && |p.costs[i]| == |p.options[i]|
  {
  }

  lemma {:induction false} ScaledUses(p: Problem, p': Problem, m: real, v: Picks, s: int)
    requires WellFormed(p) && WellFormed(p') && Scaled(p, p', m) && IsPicks(p, v)
    ensures Uses(p', v, s) == Uses(p, v, s)
  {
    hide WellFormed;
    if |v| == 0 {
    } else {
      ScaledUses(p, p', m, v[..|v| - 1], s);
    }
  }

  lemma ScaledFits(p: Problem, p': Problem, m: real, v: Picks, k: nat)
    requires WellFormed(p) && WellFormed(p') && Scaled(p, p', m) && IsPicks(p, v)
    requires |v| < |p.options| && k < |p.options[|v|]|
    ensures Fits(p', v, k) <==> Fits(p, v, k)
  {
    hide WellFormed, Uses;
    OptionSlots(p, |v|, k);
    forall s | s in p.options[|v|][k]
      ensures Uses(p', v, s) == Uses(p, v, s)
    {
      ScaledUses(p, p', m, v, s);
    }
  }

  /** Scaling all costs by a positive factor does not change a single decision of the search. */
  lemma {:induction false} ScaledPrune(p: Problem, p': Problem, m: real, v: Picks, best: Option<Picks>)
    requires WellFormed(p) && WellFormed(p') && Scaled(p, p', m) && m > 0.0 && IsPicks(p, v) && IsBest(p, best)
    ensures Prune(p', v, best) == Prune(p, v, best)
    decreases |p.options| - |v|, 1, 0
  {
    hide WellFormed, Cost, Scaled, Fits;
    ScaledCost(p, p', m, v);
    SameOptions(p, p', m);
    if best.Some? {
      ScaledCost(p, p', m, best.value);
      ScaledOrder(m, Cost(p, v), Cost(p, best.value));
    }
    if |v| < |p.options| {
      ScaledPruneTry(p, p', m, v, 0, best);
    }
  }

  lemma SameOptions(p: Problem, p': Problem, m: real)
    requires Scaled(p, p', m)
    ensures p'.options == p.options
  {
  }

  lemma ScaledOrder(m: real, a: real, b: real)
    requires m > 0.0
    ensures m * a >= m * b <==> a >= b
  {
    if a >= b {
      assert m * (a - b) >= 0.0;
    } else {
      assert m * (b - a) > 0.0;
    }
  }

  lemma {:induction false} ScaledPruneTry(p: Problem, p': Problem, m: real, v: Picks, k: nat, best: Option<Picks>)
    requires WellFormed(p) && WellFormed(p') && Scaled(p, p', m) && m > 0.0 && IsPicks(p, v) && IsBest(p, best)
    requires |v| < |p.options| == |p'.options| && k <= |p.options[|v|]| && p'.options == p.options
    ensures PruneTry(p', v, k, best) == PruneTry(p, v, k, best)
    decreases |p.options| - |v|, 0, |p.options[|v|]| - k
  {
    hide WellFormed, Cost, Scaled, Fits, Prune;
    if k < |p.options[|v|]| {
      ScaledFits(p, p', m, v, k);
      if Fits(p, v, k) {
        ScaledPrune(p, p', m, v + [k], best);
        ScaledPruneTry(p, p', m, v, k + 1, Prune(p, v + [k], best));
      } else {
        ScaledPruneTry(p, p', m, v, k + 1, best);
      }
    }
  }

  /** Two completed runs, one at scaled prices: the same placement, and costs in proportion. */
  lemma SamePlacement(
    request: ScheduleInput, m: real, result: OptimizationResult, v: Picks, result': OptimizationResult, v': Picks)
    requires m > 0.0 && Justified(request, result, v) && Justified(Repriced(request, m), result', v')
    requires result.status.Optimal? && result'.status.Optimal?
    ensures v' == v
    ensures result'.plan.value.allocations == result.plan.value.allocations
    ensures result'.plan.value.estimatedCost == m * result.plan.value.estimatedCost
    ensures result'.plan.value.estimatedCost - result.plan.value.estimatedCost
            == Delta(m, result.plan.value.estimatedCost)
  {
    hide Delta, WellFormed, Cost, Scaled, Fits, Prune, AllPlannable, ProblemOf, PlanFits, Completes;
    RepricedProblem(request, m);
    var p, p' := ProblemOf(request), ProblemOf(Repriced(request, m));
    ScaledPrune(p, p', m, [], None);
    ScaledCost(p, p', m, v);
    SameOptions(p, p', m);
    Difference(m, result.plan.value.estimatedCost);
  }

  /** A run that proves one of the requests infeasible excludes any plan for the other, timed out or not. */
  lemma SameFeasibility(
    request: ScheduleInput, m: real, result: OptimizationResult, v: Picks, result': OptimizationResult, v': Picks)
    requires m > 0.0 && Justified(request, result, v) && Justified(Repriced(request, m), result', v')
    ensures result.status.Infeasible? ==> result'.plan.None?
    ensures result.plan.Some? ==> !result'.status.Infeasible?
  {
    hide WellFormed, Cost, Scaled, Fits, Prune, AllPlannable, ProblemOf, PlanFits, Placeable, Completes;
    RepricedProblem(request, m);
    var p, p' := ProblemOf(request), ProblemOf(Repriced(request, m));
    ScaledCompletes(p, p', m, v);
    ScaledCompletes(p, p', m, v');
  }

  lemma ScaledCompletes(p: Problem, p': Problem, m: real, w: Picks)
    requires WellFormed(p) && WellFormed(p') && Scaled(p, p', m)
    ensures Completes(p', [], w) <==> Completes(p, [], w)
  {
    hide WellFormed, Placeable;
    SameOptions(p, p', m);
    if IsPicks(p', w) {
      ScaledPlaceable(p, p', m, w);
    }
  }

  lemma {:induction false} ScaledPlaceable(p: Problem, p': Problem, m: real, v: Picks)
    requires WellFormed(p) && WellFormed(p') && Scaled(p, p', m) && IsPicks(p', v)
    ensures IsPicks(p, v) && (Placeable(p', v) <==> Placeable(p, v))
  {
    hide WellFormed, Fits;
    SameOptions(p, p', m);
    if |v| == 0 {
    } else {
      ScaledPlaceable(p, p', m, v[..|v| - 1]);
      ScaledFits(p, p', m, v[..|v| - 1], v[|v| - 1]);
    }
  }

  datatype Counterfactual = Counterfactual(changed: real, objectiveDelta: Option<real>, result: OptimizationResult)

  datatype Failure = BadMultiplier | SolverRaised

  /** Solves the request at its own and at scaled prices, each run under its own clock. `original` is the first run's
      result. If neither clock expires, a regular request gets a delta exactly when it is feasible. */
  method ChangeSlotPrices(request: ScheduleInput, multiplier: real, clock: Clock, clock': Clock)
    returns (r: Result<Counterfactual, Failure>, ghost original: OptimizationResult, ghost v: Picks, ghost v': Picks)
    ensures r == Err(BadMultiplier) <==> multiplier <= 0.0
    ensures r.Ok? ==> r.value.changed == multiplier && Justified(request, original, v)
    ensures r.Ok? ==> Justified(Repriced(request, multiplier), r.value.result, v')
    ensures r.Ok? && original.status.Optimal? && r.value.result.status.Optimal? ==>
              && original.plan.Some? && r.value.result.plan.Some?
              && r.value.result.plan.value.allocations == original.plan.value.allocations
              && r.value.objectiveDelta == Some(Delta(multiplier, original.plan.value.estimatedCost))
    ensures r.Ok? && original.status.Infeasible? ==> r.value.result.plan.None? && r.value.objectiveDelta.None?
    ensures r.Ok? && original.plan.Some? ==> !r.value.result.status.Infeasible?
    ensures r.Ok? && OutOfTime(original.status) ==> Expires(clock)
    ensures r.Ok? && OutOfTime(r.value.result.status) ==> Expires(clock')
    ensures multiplier > 0.0 && Regular(request) ==> r.Ok?
    ensures multiplier > 0.0 && Regular(request) && !Expires(clock) && !Expires(clock') ==>
              && (r.value.objectiveDelta.Some? <==> Feasible(request))
              && (r.value.result.status.Optimal? <==> Feasible(request))
              && (r.value.result.status.Infeasible? <==> !Feasible(request))
  {
    hide Justified, Repriced, Delta, Expires, Feasible, Regular, DecidedBy, Raises;
    original, v, v' := OptimizationResult(Infeasible, None, 0.0, []), [], [];
    if multiplier <= 0.0 {
      r := Err(BadMultiplier);
      return;
    }
    var first;
    first, v := Optimize(request, clock);
    RepricedRegular(request, multiplier);
    if first.Raised? {
      r := Err(SolverRaised);
      return;
    }
    original := first.result;
    var changed := Repriced(request, multiplier);
    var second;
    second, v' := Optimize(changed, clock');
    if second.Raised? {
      r := Err(SolverRaised);
      return;
    }
    var delta: Option<real> := None;
    if first.result.plan.Some? && second.result.plan.Some? {
      delta := Some(second.result.plan.value.estimatedCost - first.result.plan.value.estimatedCost);
    }
    PlanIffSolved(request, first.result, v);
    PlanIffSolved(changed, second.result, v');
    if first.result.status.Optimal? && second.result.status.Optimal? {
      SamePlacement(request, multiplier, first.result, v, second.result, v');
    }
    SameFeasibility(request, multiplier, first.result, v, second.result, v');
    r := Ok(Counterfactual(multiplier, delta, second.result));
  }

  lemma RepricedRegular(request: ScheduleInput, m: real)
    ensures Regular(request) ==> Regular(Repriced(request, m))
  {
    if Regular(request) {
      RepricedProblem(request, m);
    }
  }

  ghost function Delta(m: real, cost: real): real {
    (m - 1.0) * cost
  }

  lemma Difference(m: real, cost: real)
    ensures m * cost - cost == Delta(m, cost)
  {
  }

  // ----- scaling capacity -----

  /** Conversion to an integer, rounding toward zero. */
  function Trunc(x: real): int {
    if x >= 0.0 then x.Floor else -((-x).Floor)
  }

  function ScaledGpus(gpus: int, m: real): int {
    Trunc(gpus as real * m)
  }

  function ScaledKw(kw: real, m: real): real {
    kw * m
  }

  function Resized(request: ScheduleInput, m: real): (r: ScheduleInput)
    ensures |r.slots| == |request.slots| && r.jobs == request.jobs
  {
    request.(slots := seq(|request.slots|, i requires 0 <= i < |request.slots| =>
      request.slots[i].(
        gpuCapacity := ScaledGpus(request.slots[i].gpuCapacity, m),
        powerCapacityKw := ScaledKw(request.slots[i].powerCapacityKw, m))))
  }

  /** What a scenario changes: every slot gets the scaled power and, rounded toward zero, the scaled number of GPUs. */
  lemma ResizedMeans(request: ScheduleInput, m: real, i: nat)
    requires i < |request.slots|
    ensures var s, s' := request.slots[i], Resized(request, m).slots[i];
            var exact := s.gpuCapacity as real * m;
            && s' == s.(gpuCapacity := s'.gpuCapacity, powerCapacityKw := s.powerCapacityKw * m)
            && (exact >= 0.0 ==> s'.gpuCapacity as real <= exact < s'.gpuCapacity as real + 1.0)
            && (exact <= 0.0 ==> s'.gpuCapacity as real - 1.0 < exact <= s'.gpuCapacity as real)
  {
    var exact := request.slots[i].gpuCapacity as real * m;
    assert exact - 1.0 < exact.Floor as real <= exact;
    assert -exact - 1.0 < (-exact).Floor as real <= -exact;
  }

  /** Same slots, with at least as much GPU and power capacity in each. */
  ghost predicate Roomier(slots: seq<TimeSlot>, slots': seq<TimeSlot>) {
    && |slots'| == |slots|
    && forall i :: 0 <= i < |slots| ==> RoomierSlot(slots[i], slots'[i])
  }

  ghost predicate RoomierSlot(s: TimeSlot, s': TimeSlot) {
    && s'.index == s.index && s'.startsAt == s.startsAt && s'.durationHours == s.durationHours
    && s'.pricePerKwh == s.pricePerKwh && s'.carbonKgPerKwh == s.carbonKgPerKwh
    && s.gpuCapacity <= s'.gpuCapacity
    && s.powerCapacityKw <= s'.powerCapacityKw
  }

  ghost predicate NonNegativeCapacities(slots: seq<TimeSlot>) {
    forall s :: s in slots ==> s.gpuCapacity >= 0 && s.powerCapacityKw >= 0.0
  }

  lemma ResizedRoomier(request: ScheduleInput, m: real)
    requires NonNegativeCapacities(request.slots) && m > 0.0
    ensures m >= 1.0 ==> Roomier(request.slots, Resized(request, m).slots)
    ensures m <= 1.0 ==> Roomier(Resized(request, m).slots, request.slots)
  {
    hide ScaledGpus, ScaledKw, RoomierSlot;
    forall i | 0 <= i < |request.slots|
      ensures m >= 1.0 ==> RoomierSlot(request.slots[i], Resized(request, m).slots[i])
      ensures m <= 1.0 ==> RoomierSlot(Resized(request, m).slots[i], request.slots[i])
    {
      assert request.slots[i] in request.slots;
      ResizedSlot(request.slots[i], Resized(request, m).slots[i], m);
    }
  }

  lemma ResizedSlot(s: TimeSlot, s': TimeSlot, m: real)
    requires s.gpuCapacity >= 0 && s.powerCapacityKw >= 0.0 && m > 0.0
    requires s' == s.(gpuCapacity := ScaledGpus(s.gpuCapacity, m), powerCapacityKw := ScaledKw(s.powerCapacityKw, m))
    ensures m >= 1.0 ==> RoomierSlot(s, s')
    ensures m <= 1.0 ==> RoomierSlot(s', s)
  {
    hide ScaledGpus, ScaledKw;
    ScaledCapacity(s.gpuCapacity, m);
    ScaledPower(s.powerCapacityKw, m);
  }

  lemma ScaledCapacity(c: int, m: real)
    requires c >= 0 && m > 0.0
    ensures m >= 1.0 ==> c <= ScaledGpus(c, m)
    ensures m <= 1.0 ==> ScaledGpus(c, m) <= c
  {
    ScaledPower(c as real, m);
    var x := c as real * m;
    assert x == ScaledKw(c as real, m);
    assert x - 1.0 < x.Floor as real <= x;
  }

  lemma ScaledPower(x: real, m: real)
    requires x >= 0.0 && m > 0.0
    ensures ScaledKw(x, m) >= 0.0
    ensures m >= 1.0 ==> x <= ScaledKw(x, m)
    ensures m <= 1.0 ==> ScaledKw(x, m) <= x
  {
    if m >= 1.0 {
      assert x * (m - 1.0) >= 0.0;
    } else {
      assert x * (1.0 - m) >= 0.0;
    }
  }

  lemma RoomierWindow(slots: seq<TimeSlot>, slots': seq<TimeSlot>, job: Job, window: set<int>)
    requires Roomier(slots, slots') && Plannable(slots, job) && IsWindow(slots, job, window)
    ensures Plannable(slots', job) && IsWindow(slots', job, window)
  {
    assert RoomierSlot(slots[0], slots'[0]);
    forall s | s in window
      ensures 0 <= s < |slots'| && Eligible(job, slots'[s])
    {
      assert RoomierSlot(slots[s], slots'[s]);
    }
  }

  lemma RoomierCost(slots: seq<TimeSlot>, slots': seq<TimeSlot>, job: Job, i: int)
    requires Roomier(slots, slots')
    ensures SlotCost(slots', job, i) == SlotCost(slots, job, i)
  {
    if InRange(slots, i) {
      assert 0 <= i ==> RoomierSlot(slots[i], slots'[i]);
      assert i < 0 ==> RoomierSlot(slots[|slots| + i], slots'[|slots| + i]);
    }
  }

  lemma {:induction false} RoomierWindowCost(
    slots: seq<TimeSlot>, slots': seq<TimeSlot>, job: Job, window: set<int>, n: nat)
    requires Roomier(slots, slots')
    ensures WindowCost(slots', job, window, n) == WindowCost(slots, job, window, n)
  {
    hide SlotCost, Roomier;
    if n == 0 {
    } else {
      RoomierWindowCost(slots, slots', job, window, n - 1);
      RoomierCost(slots, slots', job, n - 1);
    }
  }

  lemma {:induction false} RoomierPlacementCost(
    request: ScheduleInput, request': ScheduleInput, windows: seq<set<int>>, j: nat)
    requires request'.jobs == request.jobs && Roomier(request.slots, request'.slots)
    requires j <= |request.jobs| == |windows|
    ensures PlacementCost(request', windows, j) == PlacementCost(request, windows, j)
  {
    if j == 0 {
    } else {
      RoomierPlacementCost(request, request', windows, j - 1);
      RoomierWindowCost(request.slots, request'.slots, request.jobs[j - 1], windows[j - 1], |request.slots|);
    }
  }

  /** More room keeps every placement and its cost. */
  lemma RoomierPlacement(request: ScheduleInput, request': ScheduleInput, windows: seq<set<int>>)
    requires request'.jobs == request.jobs && Roomier(request.slots, request'.slots)
    requires AllPlannable(request) && AllPlannable(request') && IsPlacement(request, windows)
    ensures IsPlacement(request', windows)
    ensures PlacementCost(request', windows, |windows|) == PlacementCost(request, windows, |windows|)
  {
    hide IsWindow, GpuTotal, Plannable, PlacementCost;
    RoomierPlacementCost(request, request', windows, |windows|);
    forall j | 0 <= j < |windows|
      ensures IsWindow(request'.slots, request.jobs[j], windows[j])
      ensures forall s :: s in windows[j] ==> 0 <= s < |request.slots|
    {
      RoomierWindow(request.slots, request'.slots, request.jobs[j], windows[j]);
      WindowInRange(request.slots, request.jobs[j], windows[j]);
    }
    forall j, s | 0 <= j < |windows| && s in windows[j]
      ensures GpuTotal(request.jobs, windows, s, |windows|) <= request'.slots[s].gpuCapacity
    {
      assert RoomierSlot(request.slots[s], request'.slots[s]);
    }
  }

  lemma WindowInRange(slots: seq<TimeSlot>, job: Job, window: set<int>)
    requires Plannable(slots, job) && IsWindow(slots, job, window)
    ensures forall s :: s in window ==> 0 <= s < |slots|
  {
  }

  lemma RoomierKeeps(request: ScheduleInput, request': ScheduleInput)
    requires request'.jobs == request.jobs && Roomier(request.slots, request'.slots)
    ensures AllPlannable(request') <==> AllPlannable(request)
    ensures Aligned(request'.slots) <==> Aligned(request.slots)
    ensures NonNegativeTail(request) ==> NonNegativeTail(request')
  {
    hide SlotCost;
    assert |request.slots| > 0 ==> RoomierSlot(request.slots[0], request'.slots[0]);
    forall i | 0 <= i < |request.slots|
      ensures request'.slots[i].index == request.slots[i].index
    {
      assert RoomierSlot(request.slots[i], request'.slots[i]);
    }
    if NonNegativeTail(request) {
      forall j, s' | 1 <= j < |request'.jobs| && s' in request'.slots
        ensures SlotCost(request'.slots, request'.jobs[j], s'.index) >= 0.0
      {
        var i :| 0 <= i < |request'.slots| && request'.slots[i] == s';
        assert request.slots[i] in request.slots;
        RoomierCost(request.slots, request'.slots, request.jobs[j], s'.index);
      }
    }
  }

  /** Solves the request with its capacities scaled. A factor of at least one never makes a feasible request
      infeasible and never raises the optimum; with a factor of at most one, every plan is still a placement of the
      request itself. */
  method RunWhatIf(request: ScheduleInput, multiplier: real, clock: Clock)
    returns (r: Result<OptimizationResult, Failure>, ghost v: Picks)
    ensures r == Err(BadMultiplier) <==> multiplier <= 0.0
    ensures r.Ok? ==> AllPlannable(request) && Justified(Resized(request, multiplier), r.value, v)
    ensures r.Ok? && multiplier <= 1.0 && Aligned(request.slots) && NonNegativeCapacities(request.slots) ==>
              r.value.plan.Some? ==> Places(request, r.value.plan.value)
    ensures r.Ok? && multiplier >= 1.0 && Aligned(request.slots) && NonNegativeCapacities(request.slots) ==>
              && (r.value.status.Infeasible? ==> forall windows :: !IsPlacement(request, windows))
              && (r.value.status.Optimal? && NonNegativeTail(request) ==>
                    forall windows :: IsPlacement(request, windows) ==>
                      r.value.plan.Some? &&
                      r.value.plan.value.estimatedCost <= PlacementCost(request, windows, |request.jobs|))
    ensures r.Ok? && OutOfTime(r.value.status) ==> Expires(clock)
    ensures multiplier > 0.0 && Regular(request) ==> r.Ok?
    ensures multiplier >= 1.0 && Regular(request) && NonNegativeCapacities(request.slots) && !Expires(clock) ==>
              Feasible(request) ==> r.value.status.Optimal?
  {
    hide Justified, Resized, IsPlacement, PlacementCost, NonNegativeTail, Roomier, AllPlannable, Aligned, Expires,
      DecidedBy, DistinctJobIds, Raises;
    v := [];
    if multiplier <= 0.0 {
      r := Err(BadMultiplier);
      return;
    }
    var scenario := Resized(request, multiplier);
    var outcome;
    outcome, v := Optimize(scenario, clock);
    ResizedAligned(request, multiplier);
    ResizedPlannable(request, multiplier);
    if outcome.Raised? {
      r := Err(SolverRaised);
      return;
    }
    r := Ok(outcome.result);
    JustifiedPlannable(scenario, outcome.result, v);
    PlanIffSolved(scenario, outcome.result, v);
    if multiplier <= 1.0 && Aligned(request.slots) && NonNegativeCapacities(request.slots) {
      ResizedRoomier(request, multiplier);
      RoomierKeeps(scenario, request);
      StatusMeans(scenario, outcome.result, v);
      if outcome.result.plan.Some? {
        RoomierPlacement(scenario, request, SlotSets(outcome.result.plan.value.allocations));
      }
    }
    if multiplier >= 1.0 && Aligned(request.slots) && NonNegativeCapacities(request.slots) {
      ResizedRoomier(request, multiplier);
      RoomierKeeps(request, scenario);
      StatusMeans(scenario, outcome.result, v);
      forall windows | IsPlacement(request, windows)
        ensures IsPlacement(scenario, windows)
        ensures |windows| == |request.jobs|
        ensures PlacementCost(scenario, windows, |windows|) == PlacementCost(request, windows, |windows|)
      {
        PlacementSize(request, windows);
        RoomierPlacement(request, scenario, windows);
      }
      if outcome.result.status.Optimal? && NonNegativeTail(request) {
        OptimalMeansOptimal(scenario, outcome.result, v);
      }
    }
  }

  lemma ResizedAligned(request: ScheduleInput, m: real)
    ensures Aligned(Resized(request, m).slots) <==> Aligned(request.slots)
  {
    assert forall i :: 0 <= i < |request.slots| ==> Resized(request, m).slots[i].index == request.slots[i].index;
  }

  lemma PlacementSize(request: ScheduleInput, windows: seq<set<int>>)
    requires AllPlannable(request) && IsPlacement(request, windows)
    ensures |windows| == |request.jobs|
  {
  }

  lemma JustifiedPlannable(request: ScheduleInput, result: OptimizationResult, v: Picks)
    requires Justified(request, result, v)
    ensures AllPlannable(request)
  {
  }

  lemma ResizedPlannable(request: ScheduleInput, m: real)
    ensures AllPlannable(Resized(request, m)) <==> AllPlannable(request)
  {
  }
}
