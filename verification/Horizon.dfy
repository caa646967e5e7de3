/** Requests for the rest of a horizon: the slots left after the first `k` keep their indices but not their positions,
    and cost lookups go by position. When this breaks the search of packages/optimization/engine.py. */
module Horizon {
  import opened Wrappers
  import opened Contracts
  import opened Windows
  import opened Exhaustive
  import opened Engine
  import opened Optimizer

  /** The slots are what is left of an aligned horizon after its first `k` slots. */
  ghost predicate Remaining(all: seq<TimeSlot>, k: nat, slots: seq<TimeSlot>) {
    Aligned(all) && k <= |all| && slots == all[k..]
  }

  /** Of the slots left, exactly the last `k` have an index past the tuple. */
  lemma TailInRange(all: seq<TimeSlot>, k: nat, slots: seq<TimeSlot>, i: int)
    requires Remaining(all, k, slots)
    ensures UniqueSlots(slots)
    ensures (exists s :: 0 <= s < |slots| && slots[s].index == i) ==> (InRange(slots, i) <==> i < |all| - k)
  {
    assert forall s :: 0 <= s < |slots| ==> slots[s].index == s + k;
  }

  /** Every option of the first job fits while nothing is placed. */
  lemma FirstFits(request: ScheduleInput, bad: nat)
    requires AllPlannable(request) && WellFormed(ProblemOf(request)) && UniqueSlots(request.slots)
    requires |request.jobs| > 0 && bad < |ProblemOf(request).options[0]|
    ensures Fits(ProblemOf(request), [], bad)
  {
    var p := ProblemOf(request);
    var c := p.options[0][bad];
    OptionSound(request.slots, request.jobs[0], c);
    forall s | s in c
      ensures p.capacity[s] - Uses(p, [], s) >= p.gpus[0]
    {
      var i :| 0 <= i < |request.slots| && request.slots[i].index == s && Eligible(request.jobs[0], request.slots[i]);
      assert request.slots[i] in request.slots;
    }
  }

  /** If the first look at the clock is in time and every job has an option, the optimizer raises as soon as the first
      job has an option past the slot tuple, whatever the other jobs and the later looks. */
  lemma FirstJobRaises(request: ScheduleInput, clock: Clock, bad: nat)
    requires AllPlannable(request) && UniqueSlots(request.slots) && |request.jobs| > 0 && !clock(0)
    requires !LacksOption(ProblemOf(request)) && bad < |ProblemOf(request).options[0]|
    requires !Priced(request.slots, ProblemOf(request).options[0][bad])
    ensures Raises(request, clock)
  {
    hide WellFormed, ProblemOf, AllPlannable, Priced, Fits, LacksOption, WalkTry;
    ProblemWellFormed(request);
    ProblemSize(request);
    FirstFits(request, bad);
    UnpricedBreaks(request.slots, ProblemOf(request), [], 0, None, clock, 1, bad);
  }

  /** Some option of job `j` uses one of the last `k` slots left. */
  ghost predicate Overhangs(request: ScheduleInput, all: seq<TimeSlot>, k: nat, j: nat)
    requires AllPlannable(request) && j < |request.jobs|
  {
    exists c, i :: c in ProblemOf(request).options[j] && i in c && i >= |all| - k
  }

  lemma OverhangUnpriced(request: ScheduleInput, all: seq<TimeSlot>, k: nat, j: nat, o: nat)
    requires AllPlannable(request) && Remaining(all, k, request.slots) && j < |request.jobs|
    requires o < |ProblemOf(request).options[j]|
    ensures Priced(request.slots, ProblemOf(request).options[j][o])
            <==> forall i :: i in ProblemOf(request).options[j][o] ==> i < |all| - k
  {
    hide ProblemOf, InRange, Remaining;
    ProblemParts(request, j);
    var c := ProblemOf(request).options[j][o];
    OptionSound(request.slots, request.jobs[j], c);
    forall i | i in c
      ensures InRange(request.slots, i) <==> i < |all| - k
    {
      TailInRange(all, k, request.slots, i);
    }
  }

  /** On the rest of a horizon the optimizer raises whenever the first job may use one of the last `k` slots left. */
  lemma RemainingRaises(request: ScheduleInput, all: seq<TimeSlot>, k: nat, clock: Clock)
    requires AllPlannable(request) && Remaining(all, k, request.slots) && |request.jobs| > 0 && !clock(0)
    requires !LacksOption(ProblemOf(request)) && Overhangs(request, all, k, 0)
    ensures Raises(request, clock)
  {
    hide ProblemOf, AllPlannable, LacksOption, Priced, Raises, Remaining;
    ProblemSize(request);
    var c, i :| c in ProblemOf(request).options[0] && i in c && i >= |all| - k;
    var o :| 0 <= o < |ProblemOf(request).options[0]| && ProblemOf(request).options[0][o] == c;
    OverhangUnpriced(request, all, k, 0, o);
    TailInRange(all, k, request.slots, i);
    FirstJobRaises(request, clock, o);
  }

  /** If no job may use one of them, no cost lookup fails. */
  lemma RemainingEnds(request: ScheduleInput, all: seq<TimeSlot>, k: nat, clock: Clock)
    requires AllPlannable(request) && Remaining(all, k, request.slots)
    requires forall j: nat :: j < |request.jobs| ==> !Overhangs(request, all, k, j)
    ensures WellFormed(ProblemOf(request)) && FateOf(request, clock).Ended?
  {
    hide ProblemOf, AllPlannable, WellFormed, Priced, Walk, Remaining;
    ProblemWellFormed(request);
    ProblemSize(request);
    var p := ProblemOf(request);
    forall j, o | 0 <= j < |p.options| && 0 <= o < |p.options[j]|
      ensures Priced(request.slots, p.options[j][o])
    {
      OverhangUnpriced(request, all, k, j, o);
      assert !Overhangs(request, all, k, j);
      assert p.options[j][o] in p.options[j];
    }
    PricedEnds(request.slots, p, [], None, clock, 0);
  }

  /** For a single job the two meet: a search whose first look is in time fails on a cost lookup if and only if some
      option of the job uses one of the last `k` slots left. */
  lemma OneJobBreaksIff(request: ScheduleInput, all: seq<TimeSlot>, k: nat, clock: Clock)
    requires AllPlannable(request) && Remaining(all, k, request.slots) && |request.jobs| == 1 && !clock(0)
    ensures WellFormed(ProblemOf(request))
    ensures FateOf(request, clock).Broken? <==> Overhangs(request, all, k, 0)
  {
    hide ProblemOf, AllPlannable, WellFormed, Priced, WalkTry, Remaining, Fits;
    ProblemWellFormed(request);
    ProblemSize(request);
    var p := ProblemOf(request);
    if Overhangs(request, all, k, 0) {
      var c, i :| c in p.options[0] && i in c && i >= |all| - k;
      var o :| 0 <= o < |p.options[0]| && p.options[0][o] == c;
      OverhangUnpriced(request, all, k, 0, o);
      TailInRange(all, k, request.slots, i);
      FirstFits(request, o);
      UnpricedBreaks(request.slots, p, [], 0, None, clock, 1, o);
    } else {
      RemainingEnds(request, all, k, clock);
    }
  }
}
