/** Placements of all jobs stated without options, tuples or enumeration: one set of slots per job.

    With aligned slots these are, cost for cost, the vectors the search ranges over. */
module Placements {
  import opened Sequences
  import opened Contracts
  import opened Windows
  import opened Exhaustive
  import opened Engine

  /** Cost of running one job in the slots of `window` below `n`. */
  ghost function WindowCost(slots: seq<TimeSlot>, job: Job, window: set<int>, n: nat): real {
    if n == 0 then 0.0
    else WindowCost(slots, job, window, n - 1) + if n - 1 in window then SlotCost(slots, job, n - 1) else 0.0
  }

  /** GPUs that the first `j` jobs take from slot `s`. */
  ghost function GpuTotal(jobs: seq<Job>, windows: seq<set<int>>, s: int, j: nat): nat
    requires j <= |jobs| == |windows|
  {
    if j == 0 then 0
    else GpuTotal(jobs, windows, s, j - 1) + if s in windows[j - 1] then jobs[j - 1].request.gpuCount else 0
  }

  ghost function PlacementCost(request: ScheduleInput, windows: seq<set<int>>, j: nat): real
    requires j <= |request.jobs| == |windows|
  {
    if j == 0 then 0.0
    else
      PlacementCost(request, windows, j - 1)
      + WindowCost(request.slots, request.jobs[j - 1], windows[j - 1], |request.slots|)
  }

  /** Every job has a window, and no used slot is asked for more GPUs than it has. */
  ghost predicate IsPlacement(request: ScheduleInput, windows: seq<set<int>>)
    requires AllPlannable(request)
  {
    && |windows| == |request.jobs|
    && (forall j :: 0 <= j < |windows| ==> IsWindow(request.slots, request.jobs[j], windows[j]))
    && (forall j, s :: 0 <= j < |windows| && s in windows[j] ==>
          GpuTotal(request.jobs, windows, s, |windows|) <= request.slots[s].gpuCapacity)
  }

  lemma {:induction false} WindowCostAgree(slots: seq<TimeSlot>, job: Job, a: set<int>, b: set<int>, n: nat)
    requires forall x :: 0 <= x < n ==> (x in a <==> x in b)
    ensures WindowCost(slots, job, a, n) == WindowCost(slots, job, b, n)
  {
    if n == 0 {
    } else {
      WindowCostAgree(slots, job, a, b, n - 1);
    }
  }

  /** Summing a tuple slot by slot is summing its set over all slots. */
  lemma {:induction false} ChoiceCostIsWindowCost(slots: seq<TimeSlot>, job: Job, c: Choice, n: nat)
    requires Increasing(c) && forall x :: x in c ==> 0 <= x < n
    ensures ChoiceCost(slots, job, c) == WindowCost(slots, job, Members(c), n)
  {
    hide Increasing, SlotCost;
    if |c| > 0 {
      var last := |c| - 1;
      var front := c[..last];
      assert c == front + [c[last]];
      IncreasingFront(front, c[last]);
      assert c[last] in c;
      if c[last] == n - 1 {
        assert forall x :: x in front ==> x in c;
        ChoiceCostIsWindowCost(slots, job, front, n - 1);
        WindowCostAgree(slots, job, Members(front), Members(c), n - 1);
      } else {
        assert forall x :: x in c ==> 0 <= x < n - 1;
        ChoiceCostIsWindowCost(slots, job, c, n - 1);
        assert n - 1 !in Members(c);
      }
    } else {
      EmptyWindow(slots, job, n);
    }
  }

  lemma {:induction false} EmptyWindow(slots: seq<TimeSlot>, job: Job, n: nat)
    ensures WindowCost(slots, job, Members([]), n) == 0.0
  {
    if n == 0 {
    } else {
      EmptyWindow(slots, job, n - 1);
    }
  }

  /** The windows that a vector of option numbers stands for. */
  ghost function WindowsOf(p: Problem, v: Picks): (windows: seq<set<int>>)
    requires IsPicks(p, v)
    ensures |windows| == |v|
    ensures forall i :: 0 <= i < |v| ==> windows[i] == Members(p.options[i][v[i]])
  {
    seq(|v|, i requires 0 <= i < |v| => Members(p.options[i][v[i]]))
  }

  /** The option a vector picks for one job is an increasing tuple that spells a window. */
  lemma PickedWindow(request: ScheduleInput, i: nat, c: Choice)
    requires AllPlannable(request) && Aligned(request.slots) && i < |request.jobs|
    requires c in ProblemOf(request).options[i]
    ensures Increasing(c) && IsWindow(request.slots, request.jobs[i], Members(c))
    ensures forall x :: x in c ==> 0 <= x < |request.slots|
  {
    OptionsAreWindows(request.slots, request.jobs[i], c);
    assert forall x :: x in c ==> x in Members(c);
  }

  /** What the search accumulates job by job is what the windows cost and use. */
  lemma {:induction false} AccumulatedTotals(request: ScheduleInput, v: Picks, windows: seq<set<int>>, s: int)
    requires AllPlannable(request) && Aligned(request.slots) && WellFormed(ProblemOf(request))
    requires IsPicks(ProblemOf(request), v) && |windows| == |request.jobs|
    requires forall i :: 0 <= i < |v| ==> windows[i] == Members(ProblemOf(request).options[i][v[i]])
    ensures Cost(ProblemOf(request), v) == PlacementCost(request, windows, |v|)
    ensures Uses(ProblemOf(request), v, s) == GpuTotal(request.jobs, windows, s, |v|)
  {
    hide ProblemOf, Aligned, AllPlannable, WellFormed, Increasing, Distinct, Load, ChoiceCost, WindowCost, IsWindow;
    if |v| == 0 {
    } else {
      var m := |v| - 1;
      ProblemSize(request);
      ProblemParts(request, m);
      var c := ProblemOf(request).options[m][v[m]];
      AccumulatedTotals(request, v[..m], windows, s);
      PickedWindow(request, m, c);
      ChoiceCostIsWindowCost(request.slots, request.jobs[m], c, |request.slots|);
      IncreasingDistinct(c);
      LoadDistinct(c, request.jobs[m].request.gpuCount, s);
      OptionCost(request, m, v[m]);
    }
  }

  lemma IncreasingDistinct(c: seq<int>)
    requires Increasing(c)
    ensures Distinct(c)
  {
  }

  lemma AllTotals(request: ScheduleInput, v: Picks, windows: seq<set<int>>)
    requires AllPlannable(request) && Aligned(request.slots) && WellFormed(ProblemOf(request))
    requires IsPicks(ProblemOf(request), v) && |windows| == |request.jobs|
    requires forall i :: 0 <= i < |v| ==> windows[i] == Members(ProblemOf(request).options[i][v[i]])
    ensures Cost(ProblemOf(request), v) == PlacementCost(request, windows, |v|)
    ensures forall s :: Uses(ProblemOf(request), v, s) == GpuTotal(request.jobs, windows, s, |v|)
  {
    hide AllPlannable, Aligned, WellFormed, Cost, Uses, GpuTotal, PlacementCost, OptionList, Costs;
    AccumulatedTotals(request, v, windows, 0);
    forall s
      ensures Uses(ProblemOf(request), v, s) == GpuTotal(request.jobs, windows, s, |v|)
    {
      AccumulatedTotals(request, v, windows, s);
    }
  }

  /** A complete vector of the search is a placement of the same cost. */
  lemma PicksArePlacement(request: ScheduleInput, v: Picks)
    requires AllPlannable(request) && Aligned(request.slots) && WellFormed(ProblemOf(request))
    requires Completes(ProblemOf(request), [], v)
    ensures IsPlacement(request, WindowsOf(ProblemOf(request), v))
    ensures Cost(ProblemOf(request), v) == PlacementCost(request, WindowsOf(ProblemOf(request), v), |v|)
  {
    hide Aligned, WellFormed, Cost, Uses, GpuTotal, PlacementCost, IsWindow, OptionList, Costs, Placeable;
    var p := ProblemOf(request);
    var windows := WindowsOf(p, v);
    ProblemWellFormed(request);
    AlignedUnique(request.slots);
    PlaceableIsWithinCapacity(p, v);
    AllTotals(request, v, windows);
    forall j | 0 <= j < |windows|
      ensures IsWindow(request.slots, request.jobs[j], windows[j])
      ensures forall s :: s in windows[j] ==>
                0 <= s < |request.slots| &&
                GpuTotal(request.jobs, windows, s, |windows|) <= request.slots[s].gpuCapacity
    {
      PickedWindow(request, j, p.options[j][v[j]]);
      forall s | s in windows[j]
        ensures 0 <= s < |request.slots|
        ensures GpuTotal(request.jobs, windows, s, |windows|) <= request.slots[s].gpuCapacity
      {
        AlignedCapacity(request.slots, s);
      }
    }
  }

  /** Every placement is reached by some complete vector of the search, at the same cost. */
  lemma PlacementIsPicks(request: ScheduleInput, windows: seq<set<int>>) returns (v: Picks)
    requires AllPlannable(request) && Aligned(request.slots) && WellFormed(ProblemOf(request))
    requires IsPlacement(request, windows)
    ensures Completes(ProblemOf(request), [], v)
    ensures Cost(ProblemOf(request), v) == PlacementCost(request, windows, |windows|)
  {
    hide AllPlannable, Aligned, WellFormed, Cost, Uses, GpuTotal, PlacementCost, Costs, Placeable, Ascending, Needed;
    var p := ProblemOf(request);
    var n := |request.slots|;
    forall j | 0 <= j < |windows|
      ensures Ascending(windows[j], n) in p.options[j] && Members(Ascending(windows[j], n)) == windows[j]
    {
      ProblemParts(request, j);
      WindowHasOption(request.slots, request.jobs[j], windows[j]);
    }
    v := seq(|windows|, j requires 0 <= j < |windows| => PositionOf(p.options[j], Ascending(windows[j], n)));
    assert IsPicks(p, v);
    ProblemWellFormed(request);
    AlignedUnique(request.slots);
    AllTotals(request, v, windows);
    forall i, s | 0 <= i < |v| && s in p.options[i][v[i]]
      ensures Uses(p, v, s) <= p.capacity[s]
    {
      assert s in windows[i];
      AlignedCapacity(request.slots, s);
    }
    PlaceableIsWithinCapacity(p, v);
  }
}
