/** The exact optimizer against the greedy baselines: a baseline that places every job yields a placement the
    search could have chosen, so a completed search costs no more. */
module Baselines {
  import opened Sequences
  import opened Wrappers
  import opened Sorting
  import opened Contracts
  import opened Windows
  import opened Exhaustive
  import opened Engine
  import opened Placements
  import opened Optimizer
  import opened Objectives
  import opened Strategies

  /** The slots a list of allocations gives to a job id. */
  ghost function Lookup(allocations: seq<Allocation>, id: string): seq<int> {
    if |allocations| == 0 then []
    else if allocations[|allocations| - 1].jobId == id then allocations[|allocations| - 1].slotIndices
    else Lookup(allocations[..|allocations| - 1], id)
  }

  lemma {:induction false} LookupAt(allocations: seq<Allocation>, k: nat)
    requires OncePerJob(allocations) && k < |allocations|
    ensures Lookup(allocations, allocations[k].jobId) == allocations[k].slotIndices
  {
    var m := |allocations| - 1;
    if k < m {
      assert allocations[k].jobId != allocations[m].jobId;
      LookupAt(allocations[..m], k);
    }
  }

  ghost function WindowsFor(jobs: seq<Job>, allocations: seq<Allocation>): (windows: seq<set<int>>)
    ensures |windows| == |jobs|
  {
    seq(|jobs|, j requires 0 <= j < |jobs| => Members(Lookup(allocations, jobs[j].id)))
  }

  /** A booked slot list is one of the search's options, and spells a window. */
  lemma BookedIsOption(slots: seq<TimeSlot>, job: Job, c: seq<int>)
    requires Chronological(slots) && Plannable(slots, job) && Booked(slots, job, c)
    ensures Increasing(c) && IsWindow(slots, job, Members(c)) && c in OptionList(slots, job)
    ensures forall x :: x in c ==> 0 <= x < |slots|
  {
    hide UniqueSlots, OptionList, Consecutive, LeastCovering;
    ChronologicalUnique(slots);
    ElementsSize(c);
    ConsecutiveIsGapFree(c);
    forall x | x in Members(c)
      ensures 0 <= x < |slots| && OpenSlot(slots, job, x)
    {
      assert OpenIndex(slots, job, x);
      var i :| 0 <= i < |slots| && slots[i].index == x && OpenSlot(slots, job, i);
    }
    assert forall x :: x in c ==> x in Members(c);
    assert job.checkpointable ||
      forall a, x, b :: a in Members(c) && b in Members(c) && a <= x <= b ==> x in Members(c);
    OptionsAreWindows(slots, job, c);
  }

  // ----- sums over jobs, in either order -----

  ghost function GpuOf(allocations: seq<Allocation>, s: int): Job -> real {
    (job: Job) => if s in Members(Lookup(allocations, job.id)) then job.request.gpuCount as real else 0.0
  }

  ghost function CostOf(slots: seq<TimeSlot>, allocations: seq<Allocation>): Job -> real {
    (job: Job) => WindowCost(slots, job, Members(Lookup(allocations, job.id)), |slots|)
  }

  lemma {:induction false} GpuByJob(jobs: seq<Job>, allocations: seq<Allocation>, s: int, j: nat)
    requires j <= |jobs|
    ensures GpuTotal(jobs, WindowsFor(jobs, allocations), s, j) as real == SumOver(GpuOf(allocations, s), jobs[..j])
  {
    hide Lookup, Members;
    if j == 0 {
    } else {
      GpuByJob(jobs, allocations, s, j - 1);
      assert jobs[..j][..j - 1] == jobs[..j - 1];
    }
  }

  lemma {:induction false} CostByJob(request: ScheduleInput, allocations: seq<Allocation>, j: nat)
    requires j <= |request.jobs|
    ensures PlacementCost(request, WindowsFor(request.jobs, allocations), j)
            == SumOver(CostOf(request.slots, allocations), request.jobs[..j])
  {
    hide Lookup, Members, WindowCost;
    if j == 0 {
    } else {
      CostByJob(request, allocations, j - 1);
      assert request.jobs[..j][..j - 1] == request.jobs[..j - 1];
    }
  }

  lemma {:induction false} GpuByOwner(slots: seq<TimeSlot>, owners: seq<Job>, all: seq<Allocation>, s: int, k: nat)
    requires Chronological(slots) && Owned(slots, owners, all) && OncePerJob(all) && k <= |all|
    ensures Use(all[..k], s) as real == SumOver(GpuOf(all, s), owners[..k])
  {
    hide Lookup, Load, Distinct, Chronological, UniqueSlots, OncePerJob;
    if k == 0 {
    } else {
      GpuByOwner(slots, owners, all, s, k - 1);
      assert all[..k][..k - 1] == all[..k - 1] && owners[..k][..k - 1] == owners[..k - 1];
      ChronologicalUnique(slots);
      assert Booked(slots, owners[k - 1], all[k - 1].slotIndices);
      LoadDistinct(all[k - 1].slotIndices, all[k - 1].gpuCount, s);
      LookupAt(all, k - 1);
    }
  }

  /** The objectives' sum over an aligned slot list is the optimizer's. */
  lemma {:induction false} TotalsAreChoiceCost(slots: seq<TimeSlot>, job: Job, c: seq<int>)
    requires Aligned(slots) && forall x :: x in c ==> 0 <= x < |slots|
    ensures AllocationTotals(slots, job, job.request.gpuCount, c).cost == ChoiceCost(slots, job, c)
  {
    hide Aligned, SlotTotals, SlotCost;
    if |c| == 0 {
    } else {
      var front, last := c[..|c| - 1], c[|c| - 1];
      assert forall x :: x in front ==> x in c;
      assert last in c;
      TotalsAreChoiceCost(slots, job, front);
      SlotAligned(slots, job, last);
    }
  }

  lemma SlotAligned(slots: seq<TimeSlot>, job: Job, i: int)
    requires Aligned(slots) && 0 <= i < |slots|
    ensures SlotByIndex(slots, i) == Some(slots[i])
    ensures SlotTotals(slots[i], job, job.request.gpuCount).cost == SlotCost(slots, job, i)
  {
    SameSlotCost(slots, job, i);
    hide SlotTotals, SlotCost;
    AlignedUnique(slots);
    UniqueByIndex(slots, slots[i]);
  }

  lemma SameSlotCost(slots: seq<TimeSlot>, job: Job, i: int)
    requires 0 <= i < |slots|
    ensures SlotTotals(slots[i], job, job.request.gpuCount).cost == SlotCost(slots, job, i)
  {
  }

  lemma {:induction false} CostByOwner(slots: seq<TimeSlot>, owners: seq<Job>, all: seq<Allocation>, k: nat)
    requires Chronological(slots) && Owned(slots, owners, all) && OncePerJob(all) && k <= |all|
    requires forall j :: 0 <= j < |owners| ==> Plannable(slots, owners[j])
    ensures OwnedCost(slots, owners[..k], all[..k]) == SumOver(CostOf(slots, all), owners[..k])
  {
    hide Lookup, UniqueSlots, OncePerJob, AllocationTotals, WindowCost, ChoiceCost, Booked, OptionList, IsWindow,
      Increasing,
      Plannable;
    if k == 0 {
    } else {
      var job, c := owners[k - 1], all[k - 1].slotIndices;
      CostByOwner(slots, owners, all, k - 1);
      assert all[..k][..k - 1] == all[..k - 1] && owners[..k][..k - 1] == owners[..k - 1];
      LookupAt(all, k - 1);
      BookedIsOption(slots, job, c);
      TotalsAreChoiceCost(slots, job, c);
      ChoiceCostIsWindowCost(slots, job, c, |slots|);
    }
  }

  // ----- the theorem -----

  /** A greedy plan that leaves no job out is a placement, at the cost it states. */
  lemma GreedyIsPlacement(
    request: ScheduleInput, ordered: seq<Job>, plan: SchedulePlan, owners: seq<Job>, skipped: seq<Job>)
    requires AllPlannable(request) && Chronological(request.slots) && DistinctJobIds(request.jobs)
    requires multiset(ordered) == multiset(request.jobs)
    requires GreedyPlan(request.slots, ordered, plan, owners, skipped) && plan.unscheduled == []
    ensures IsPlacement(request, WindowsFor(request.jobs, plan.allocations))
    ensures PlacementCost(request, WindowsFor(request.jobs, plan.allocations), |request.jobs|) == plan.estimatedCost
  {
    hide Lookup, UniqueSlots, WindowCost, Booked, IsWindow, DistinctJobIds, OwnedCost, OwnedEnergy, Use, PlacementCost,
      GpuTotal, SumOver, CapacityTable, Members, Chronological, Plannable;
    var jobs, all, slots := request.jobs, plan.allocations, request.slots;
    var windows := WindowsFor(jobs, all);
    AllPlaced(request, ordered, plan, owners, skipped);
    assert owners[..|all|] == owners && all[..|all|] == all && jobs[..|jobs|] == jobs;
    SumPermutes(CostOf(slots, all), owners, jobs);
    CostByOwner(slots, owners, all, |all|);
    CostByJob(request, all, |jobs|);
    ChronologicalUnique(slots);
    forall j | 0 <= j < |jobs|
      ensures IsWindow(slots, jobs[j], windows[j])
      ensures forall s :: s in windows[j] ==>
                0 <= s < |slots| && GpuTotal(jobs, windows, s, |jobs|) <= slots[s].gpuCapacity
    {
      var k := OwnerOf(owners, jobs, j);
      LookupAt(all, k);
      BookedIsOption(slots, jobs[j], all[k].slotIndices);
      MembersHas(all[k].slotIndices);
      forall s | s in windows[j]
        ensures 0 <= s < |slots| && GpuTotal(jobs, windows, s, |jobs|) <= slots[s].gpuCapacity
      {
        SlotTotal(request, owners, all, s);
        ChronologicalUnique(slots);
        AlignedCapacity(slots, s);
      }
    }
  }

  lemma AllPlaced(request: ScheduleInput, ordered: seq<Job>, plan: SchedulePlan, owners: seq<Job>, skipped: seq<Job>)
    requires AllPlannable(request) && DistinctJobIds(request.jobs) && multiset(ordered) == multiset(request.jobs)
    requires GreedyPlan(request.slots, ordered, plan, owners, skipped) && plan.unscheduled == []
    ensures multiset(owners) == multiset(request.jobs)
    ensures OncePerJob(plan.allocations)
    ensures forall k :: 0 <= k < |owners| ==> owners[k] in request.jobs && Plannable(request.slots, owners[k])
  {
    hide Booked, UniqueSlots, OwnedCost, OwnedEnergy, NeverOverdrawn, DistinctJobIds, Plannable;
    assert skipped == [];
    forall i, j | 0 <= i < j < |plan.allocations|
      ensures plan.allocations[i].jobId != plan.allocations[j].jobId
    {
      DistinctCount(request.jobs, i, j, owners);
    }
    forall k | 0 <= k < |owners|
      ensures owners[k] in request.jobs
    {
      OwnerKnown(ordered, request.jobs, owners, skipped, k);
    }
  }

  lemma OwnerOf(owners: seq<Job>, jobs: seq<Job>, j: nat) returns (k: nat)
    requires multiset(owners) == multiset(jobs) && j < |jobs|
    ensures k < |owners| && owners[k] == jobs[j]
  {
    assert jobs[j] in multiset(jobs);
    assert jobs[j] in owners;
    k :| 0 <= k < |owners| && owners[k] == jobs[j];
  }

  lemma SlotTotal(request: ScheduleInput, owners: seq<Job>, all: seq<Allocation>, s: int)
    requires Chronological(request.slots) && Owned(request.slots, owners, all) && OncePerJob(all)
    requires multiset(owners) == multiset(request.jobs)
    ensures GpuTotal(request.jobs, WindowsFor(request.jobs, all), s, |request.jobs|) == Use(all, s)
  {
    hide Lookup, UniqueSlots, Booked, Use, GpuTotal, SumOver, Chronological, OncePerJob, Members, GpuOf;
    var jobs := request.jobs;
    assert owners[..|all|] == owners && all[..|all|] == all && jobs[..|jobs|] == jobs;
    SumPermutes(GpuOf(all, s), owners, jobs);
    GpuByOwner(request.slots, owners, all, s, |all|);
    GpuByJob(jobs, all, s, |jobs|);
  }

  /** With start times increasing, the exact optimizer never loses to a baseline that places every job. */
  lemma ExactNeverLoses(
    request: ScheduleInput, result: OptimizationResult, v: Picks,
    ordered: seq<Job>, plan: SchedulePlan, owners: seq<Job>, skipped: seq<Job>)
    requires Justified(request, result, v) && NonNegativeTail(request) && Chronological(request.slots)
    requires DistinctJobIds(request.jobs) && multiset(ordered) == multiset(request.jobs)
    requires GreedyPlan(request.slots, ordered, plan, owners, skipped) && plan.unscheduled == []
    ensures OutOfTime(result.status) || result.status.Optimal?
    ensures result.status.Optimal? ==> result.plan.value.estimatedCost <= plan.estimatedCost
  {
    hide WellFormed, ProblemOf, Prune, Cost, IsPlacement, PlacementCost, PlanFits, Places, GreedyPlan, DistinctJobIds,
      NonNegativeTail, AllPlannable, FirstCheapest;
    GreedyIsPlacement(request, ordered, plan, owners, skipped);
    StatusMeans(request, result, v);
    if result.status.Optimal? {
      OptimalMeansOptimal(request, result, v);
    }
  }
}
