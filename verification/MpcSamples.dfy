/** Runs of two cycles of the controller, from its start: one releases more GPUs than the second cycle's slot has, one
    fails on the rest of the horizon. */
module MpcSamples {
  import opened Wrappers
  import opened Contracts
  import opened Windows
  import opened Exhaustive
  import opened Engine
  import opened Horizon
  import opened Optimizer
  import opened Mpc
  import opened Samples

  /** The second slot is the cheaper one, so both jobs go there. */
  function First(): ScheduleInput {
    TwoByTwo(2.0, 1.0, 2.0)
  }

  function FirstChoices(): seq<Choice> {
    [[1], [1]]
  }

  function FirstPlan(): SchedulePlan {
    PlanOf(First(), FirstChoices(), 2.0)
  }

  /** The second slot again, alone and with another capacity; no job is left to plan. */
  function Second(capacity: int): ScheduleInput {
    ScheduleInput([], [SampleSlot(1, 1.0, 2.0).(gpuCapacity := capacity)])
  }

  function Solved(plan: SchedulePlan): Outcome {
    Completed(OptimizationResult(Optimal, Some(plan), 0.0, []))
  }

  /** A clock that never finds the limit passed. */
  const Patient: Clock := (n: nat) => false

  function FirstCycle(): Event {
    CycleStep(Tick(First(), Observed({}, map[], 1.0), map[]), Patient, Solved(FirstPlan()), [1, 1])
  }

  function SecondCycle(capacity: int): Event {
    CycleStep(
      Tick(Second(capacity), Observed({}, map[], 0.0), map[]), Patient, Solved(PlanOf(Second(capacity), [], 0.0)), [])
  }

  function TwoCycles(capacity: int): seq<Event> {
    [FirstCycle(), SecondCycle(capacity)]
  }

  lemma FirstSearch()
    ensures AllPlannable(First()) && ProblemOf(First()) == TwoByTwoProblem(2.0, 1.0)
    ensures WellFormed(ProblemOf(First()))
    ensures Prune(ProblemOf(First()), [], None) == Some([1, 1])
    ensures Completes(ProblemOf(First()), [], [1, 1]) && Cost(ProblemOf(First()), [1, 1]) == 2.0
    ensures Chosen(ProblemOf(First()), [1, 1]) == FirstChoices()
  {
    hide Cost, Fits, Placeable, Uses, WellFormed, Prune, ProblemOf, AllPlannable;
    SampleProblem(2.0, 1.0, 2.0);
    SampleBranches(2.0, 1.0);
    SampleOuter(2.0, 1.0);
    SampleCosts(2.0, 1.0, 0, 1);
    SampleCosts(2.0, 1.0, 1, 0);
    SampleCosts(2.0, 1.0, 1, 1);
  }

  lemma FirstGenuine()
    ensures Genuine(FirstCycle())
  {
    hide Cost, WellFormed, Prune, ProblemOf, AllPlannable, Completes, PlanOf, PlanFits, Aligned, Walk, Raises;
    FirstSearch();
    FirstRegular();
    PlanAccepted(First(), FirstPlan(), [1, 1]);
    RegularNeverRaises(First(), Patient);
    AlignedPriced(First());
    PricedEnds(First().slots, ProblemOf(First()), [], None, Patient, 0);
    WalkIsPrune(First().slots, ProblemOf(First()), [], None, Patient, 0);
  }

  lemma FirstRegular()
    ensures Aligned(First().slots) && DistinctJobIds(First().jobs) && |First().jobs| == 2
  {
  }

  lemma SecondGenuine(capacity: int)
    ensures Genuine(SecondCycle(capacity))
  {
    var request := Second(capacity);
    ProblemWellFormed(request);
    var p := ProblemOf(request);
    assert p.options == [] && Chosen(p, []) == [];
    assert Prune(p, [], None) == Some([]);
    assert FateOf(request, Patient) == Ended(Some([]), 1);
  }

  lemma FirstLoad()
    ensures Use(FirstPlan().allocations, 1) == 2
    ensures forall a :: a in FirstPlan().allocations ==> Distinct(a.slotIndices)
  {
    var all := FirstPlan().allocations;
    assert all[..1] == [all[0]] && all[..1][..0] == [] && [1][..0] == [];
    assert Load([1], 1, 1) == 1;
    assert Use(all[..1], 1) == 1;
  }

  lemma AfterFirst()
    ensures After([FirstCycle()]).state == State(Some(FirstPlan()), {0}, 1)
    ensures |After([FirstCycle()]).records| == 1
  {
    hide Release, Churn;
    assert [FirstCycle()][..0] == [];
    FirstSlot(First(), {});
    assert First().slots[0] in First().slots;
  }

  /** A run in which the optimizer answers as it does, ending in a cycle that holds the first plan: it releases two
      GPUs into a slot of any capacity, so it overruns the slot if and only if the slot has fewer than two. */
  lemma HeldRunOverruns(capacity: int)
    ensures forall i :: 0 <= i < 2 ==> Genuine(TwoCycles(capacity)[i])
    ensures var records := After(TwoCycles(capacity)).records;
            && |records| == 2 && records[1].cycle.fallback == Some(LastSafePlan) && records[1].slot == Some(1)
            && records[1].request == Second(capacity)
            && Use(records[1].cycle.current, 1) == 2
            && (Use(records[1].cycle.current, 1) > capacity <==> capacity < 2)
  {
    hide Release, Churn, Genuine, Use, Distinct, PlanOf, Reconcile, AllPlannable;
    var events := TwoCycles(capacity);
    FirstGenuine();
    SecondGenuine(capacity);
    AfterFirst();
    assert events[..|events| - 1] == [FirstCycle()];
    FirstSlot(Second(capacity), {0});
    assert Second(capacity).slots[0] in Second(capacity).slots;
    FirstLoad();
    ReleaseUse(FirstPlan().allocations, 1);
  }

  // ----- the rest of the horizon -----

  /** Whatever the controller holds: a cycle on what is left of an aligned horizon after `k` slots raises whenever its
      first look at the clock is in time, every job has an option and the first may use one of the last `k` slots. */
  lemma TailCycleRaises(
    s: State, t: Tick, all: seq<TimeSlot>, k: nat, clock: Clock, outcome: Outcome, v: Picks)
    requires Genuine(CycleStep(t, clock, outcome, v)) && !clock(0)
    requires AllPlannable(t.request) && Remaining(all, k, t.request.slots) && |t.request.jobs| > 0
    requires !LacksOption(ProblemOf(t.request)) && Overhangs(t.request, all, k, 0)
    ensures Advance(s, t, outcome).None?
  {
    hide Raises, Remaining, Overhangs, LacksOption, ProblemOf, AllPlannable, Justified, DecidedBy, Reconcile, Decide;
    RemainingRaises(t.request, all, k, clock);
  }

  /** One job, left for the slot that the first cycle did not release. */
  function Rest(): ScheduleInput {
    ScheduleInput([SampleJob("b")], First().slots[1..])
  }

  function RestCycle(clock: Clock): Event {
    CycleStep(Tick(Rest(), Observed({}, map[], 1.0), map[]), clock, Raised, [])
  }

  lemma RestOptions()
    ensures AllPlannable(Rest()) && ProblemOf(Rest()).options == [[[1]]]
  {
    hide EligibleIndices, Combinations, Keep, Needed;
    RestSlot();
    OneOfOne();
    var slots, job := Rest().slots, SampleJob("b");
    assert OptionList(slots, job) == Keep(Combinations([1], 1), false) == [[1]];
    assert Rest().jobs == [job];
  }

  lemma RestSlot()
    ensures var slots, job := Rest().slots, SampleJob("b");
            && |slots| > 0 && slots[0].durationHours != 0.0
            && Needed(slots, job) == 1 && EligibleIndices(slots, job) == [1]
  {
    var slots, job := Rest().slots, SampleJob("b");
    assert slots == [SampleSlot(1, 1.0, 2.0)] && slots[..0] == [];
    assert 1.0 / 1.0 == 1.0;
    assert EligibleIndices(slots[..0], job) == [];
  }

  lemma OneOfOne()
    ensures Combinations([1], 1) == [[1]] && Keep([[1]], false) == [[1]]
  {
    var none: Choice := [];
    assert [1][1..] == [] && [1] + none == [1] && Prepend(1, [none]) == [[1]];
    assert [[1]][..0] == [];
  }

  lemma RestSolvable()
    ensures Solvable(Rest())
  {
    hide Fits, OptionList, Costs;
    RestOptions();
    ProblemWellFormed(Rest());
    var p := ProblemOf(Rest());
    FirstFits(Rest(), 0);
    assert [0][..0] == [];
    assert Completes(p, [], [0]);
  }

  lemma RestGenuine(clock: Clock)
    requires !clock(0)
    ensures Genuine(RestCycle(clock)) && Solvable(Rest()) && Rest().slots == First().slots[1..]
  {
    hide AllPlannable, ProblemOf, Raises, Solvable;
    RestSolvable();
    RestOptions();
    var all := First().slots;
    assert Remaining(all, 1, Rest().slots);
    assert [1] in ProblemOf(Rest()).options[0] && 1 in [1];
    assert Overhangs(Rest(), all, 1, 0);
    RemainingRaises(Rest(), all, 1, clock);
  }

  /** After a first cycle the request for the rest of the horizon makes the controller raise, on any clock that is not
      late at once: although the job fits the slot left and a safe plan is held, nothing is planned or released. */
  lemma RestCycleRaises(clock: Clock)
    requires !clock(0)
    ensures Genuine(FirstCycle()) && Genuine(RestCycle(clock))
    ensures Solvable(Rest()) && Rest().slots == First().slots[1..]
    ensures !Rewrites(Rest(), After([FirstCycle()]).state.executed) && After([FirstCycle()]).state.lastSafe.Some?
    ensures After([FirstCycle(), RestCycle(clock)]) == After([FirstCycle()])
  {
    hide Genuine, Solvable, Reconcile, Decide, FirstPlan;
    FirstGenuine();
    RestGenuine(clock);
    AfterFirst();
    assert [FirstCycle(), RestCycle(clock)][..1] == [FirstCycle()];
  }
}
