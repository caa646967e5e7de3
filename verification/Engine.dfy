/** The exact optimizer of packages/optimization/engine.py: branch and bound over the jobs' options,
    with a capacity table that is charged on the way down and refunded on the way back. */
module Engine {
  import opened Wrappers
  import opened Contracts
  import opened Windows
  import opened Exhaustive

  ghost predicate AllPlannable(request: ScheduleInput) {
    forall j :: j in request.jobs ==> Plannable(request.slots, j)
  }

  /** Cost of one slot for one job; a slot number past the end of the slot tuple makes the code raise. */
  function SlotCost(slots: seq<TimeSlot>, job: Job, i: int): real {
    if InRange(slots, i) then
      SlotAt(slots, i).durationHours * job.request.gpuCount as real * job.request.powerKwPerGpu
      * SlotAt(slots, i).pricePerKwh
    else 0.0
  }

  function ChoiceCost(slots: seq<TimeSlot>, job: Job, c: Choice): real {
    if |c| == 0 then 0.0 else ChoiceCost(slots, job, c[..|c| - 1]) + SlotCost(slots, job, c[|c| - 1])
  }

  function SlotEnergy(slots: seq<TimeSlot>, job: Job, i: int): real {
    if InRange(slots, i) then
      SlotAt(slots, i).durationHours * job.request.gpuCount as real * job.request.powerKwPerGpu
    else 0.0
  }

  function ChoiceEnergy(slots: seq<TimeSlot>, job: Job, c: Choice): real {
    if |c| == 0 then 0.0 else ChoiceEnergy(slots, job, c[..|c| - 1]) + SlotEnergy(slots, job, c[|c| - 1])
  }

  function TotalEnergy(slots: seq<TimeSlot>, jobs: seq<Job>, choices: seq<Choice>): real
    requires |jobs| == |choices|
  {
    if |jobs| == 0 then 0.0
    else
      var m := |jobs| - 1;
      TotalEnergy(slots, jobs[..m], choices[..m]) + ChoiceEnergy(slots, jobs[m], choices[m])
  }

  function Costs(slots: seq<TimeSlot>, job: Job, options: seq<Choice>): seq<real> {
    seq(|options|, k requires 0 <= k < |options| => ChoiceCost(slots, job, options[k]))
  }

  ghost function ProblemOf(request: ScheduleInput): Problem
    requires AllPlannable(request)
  {
    var n := |request.jobs|;
    Problem(
      seq(n, i requires 0 <= i < n => OptionList(request.slots, request.jobs[i])),
      seq(n, i requires 0 <= i < n =>
        Costs(request.slots, request.jobs[i], OptionList(request.slots, request.jobs[i]))),
      seq(n, i requires 0 <= i < n => request.jobs[i].request.gpuCount),
      CapacityTable(request.slots))
  }

  lemma ProblemWellFormed(request: ScheduleInput)
    requires AllPlannable(request)
    ensures WellFormed(ProblemOf(request))
    ensures UniqueSlots(request.slots) ==> DistinctOptions(ProblemOf(request))
  {
    var p := ProblemOf(request);
    forall i, k | 0 <= i < |p.options| && 0 <= k < |p.options[i]|
      ensures forall s :: s in p.options[i][k] ==> s in p.capacity
      ensures UniqueSlots(request.slots) ==> Distinct(p.options[i][k])
    {
      OptionSound(request.slots, request.jobs[i], p.options[i][k]);
    }
  }

  lemma ProblemSize(request: ScheduleInput)
    requires AllPlannable(request)
    ensures |ProblemOf(request).options| == |ProblemOf(request).gpus| == |request.jobs|
  {
  }

  lemma ProblemParts(request: ScheduleInput, i: nat)
    requires AllPlannable(request) && i < |request.jobs|
    ensures |ProblemOf(request).options| == |ProblemOf(request).gpus| == |request.jobs|
    ensures request.jobs[i] in request.jobs && Plannable(request.slots, request.jobs[i])
    ensures ProblemOf(request).options[i] == OptionList(request.slots, request.jobs[i])
    ensures ProblemOf(request).gpus[i] == request.jobs[i].request.gpuCount
  {
  }

  lemma OptionSlots(p: Problem, i: nat, k: nat)
    requires WellFormed(p) && i < |p.options| && k < |p.options[i]|
    ensures |p.options| == |p.gpus| && forall s :: s in p.options[i][k] ==> s in p.capacity.Keys
    ensures forall n :: 0 <= n < |p.options[i][k]| ==> p.options[i][k][n] in p.capacity.Keys
  {
    forall n | 0 <= n < |p.options[i][k]|
      ensures p.options[i][k][n] in p.capacity.Keys
    {
      var s := p.options[i][k][n];
      assert s in p.options[i][k];
    }
  }

  lemma OptionCost(request: ScheduleInput, i: nat, k: nat)
    requires AllPlannable(request) && i < |request.jobs| && k < |ProblemOf(request).options[i]|
    ensures |ProblemOf(request).costs| == |request.jobs|
    ensures |ProblemOf(request).costs[i]| == |ProblemOf(request).options[i]|
    ensures ProblemOf(request).costs[i][k]
            == ChoiceCost(request.slots, request.jobs[i], ProblemOf(request).options[i][k])
  {
  }

  /** The slot tuples that a vector of option numbers stands for. */
  ghost function Chosen(p: Problem, v: Picks): (choices: seq<Choice>)
    requires IsPicks(p, v)
    ensures |choices| == |v|
    ensures forall i :: 0 <= i < |v| ==> choices[i] == p.options[i][v[i]]
  {
    seq(|v|, i requires 0 <= i < |v| => p.options[i][v[i]])
  }

  /** Takes the job's GPUs from every slot of the choice. */
  method Charge(capacity: map<int, int>, choice: Choice, gpus: nat) returns (left: map<int, int>)
    requires forall n :: 0 <= n < |choice| ==> choice[n] in capacity
    ensures left.Keys == capacity.Keys
    ensures forall s :: s in left ==> left[s] == capacity[s] - Load(choice, gpus, s)
  {
    left := capacity;
    for n := 0 to |choice|
      invariant left.Keys == capacity.Keys
      invariant forall s :: s in left ==> left[s] == capacity[s] - Load(choice[..n], gpus, s)
    {
      assert choice[..n + 1][..n] == choice[..n];
      left := left[choice[n] := left[choice[n]] - gpus];
    }
    assert choice[..|choice|] == choice;
  }

  /** Gives the job's GPUs back to every slot of the choice. */
  method Refund(capacity: map<int, int>, choice: Choice, gpus: nat) returns (left: map<int, int>)
    requires forall n :: 0 <= n < |choice| ==> choice[n] in capacity
    ensures left.Keys == capacity.Keys
    ensures forall s :: s in left ==> left[s] == capacity[s] + Load(choice, gpus, s)
  {
    left := capacity;
    for n := 0 to |choice|
      invariant left.Keys == capacity.Keys
      invariant forall s :: s in left ==> left[s] == capacity[s] + Load(choice[..n], gpus, s)
    {
      assert choice[..n + 1][..n] == choice[..n];
      left := left[choice[n] := left[choice[n]] + gpus];
    }
    assert choice[..|choice|] == choice;
  }

  /** Whether the n-th look at the clock finds the time limit passed. */
  type Clock = nat -> bool

  /** One of the first `n` looks finds the limit passed. */
  ghost predicate Late(clock: Clock, n: nat) {
    exists k :: 0 <= k < n && clock(k)
  }

  lemma LateNext(clock: Clock, n: nat)
    ensures !Late(clock, 0)
    ensures Late(clock, n + 1) <==> Late(clock, n) || clock(n)
  {
    if clock(n) {
      assert Late(clock, n + 1);
    }
  }

  /** Being late once is being late ever after. */
  lemma LateOnward(clock: Clock, m: nat, n: nat)
    requires m <= n
    ensures Late(clock, m) ==> Late(clock, n)
  {
  }

  /** The cost lookup of a choice goes through: every slot number is a position of the slot tuple. */
  predicate Priced(slots: seq<TimeSlot>, c: Choice) {
    forall s :: s in c ==> InRange(slots, s)
  }

  /** How a search goes out: with the IndexError of a cost lookup, or with what it holds in the end and the number of
      looks at the clock it has taken by then. */
  datatype Fate = Broken | Ended(best: Option<Picks>, looks: nat)

  /** The pruned search under a clock, cost lookups included. */
  ghost function Walk(slots: seq<TimeSlot>, p: Problem, v: Picks, best: Option<Picks>, clock: Clock, n: nat)
    : (fate: Fate)
    requires WellFormed(p) && IsPicks(p, v) && IsBest(p, best)
    ensures fate.Ended? ==> IsBest(p, fate.best) && fate.looks > n
    decreases |p.options| - |v|, 1, 0
  {
    if clock(n) || (best.Some? && Cost(p, v) >= Cost(p, best.value)) then Ended(best, n + 1)
    else if |v| == |p.options| then Ended(Some(v), n + 1)
    else WalkTry(slots, p, v, 0, best, clock, n + 1)
  }

  ghost function WalkTry(
    slots: seq<TimeSlot>, p: Problem, v: Picks, k: nat, best: Option<Picks>, clock: Clock, n: nat): (fate: Fate)
    requires WellFormed(p) && IsPicks(p, v) && IsBest(p, best)
    requires |v| < |p.options| && k <= |p.options[|v|]|
    ensures fate.Ended? ==> IsBest(p, fate.best) && fate.looks >= n
    decreases |p.options| - |v|, 0, |p.options[|v|]| - k
  {
    if k == |p.options[|v|]| then Ended(best, n)
    else if !Fits(p, v, k) then WalkTry(slots, p, v, k + 1, best, clock, n)
    else if !Priced(slots, p.options[|v|][k]) then Broken
    else
      var next := Walk(slots, p, v + [k], best, clock, n);
      if next.Broken? then Broken else WalkTry(slots, p, v, k + 1, next.best, clock, next.looks)
  }

  /** A search that breaks nowhere and that no look finds late is the pruned search. */
  lemma {:induction false} WalkIsPrune(
    slots: seq<TimeSlot>, p: Problem, v: Picks, best: Option<Picks>, clock: Clock, n: nat)
    requires WellFormed(p) && IsPicks(p, v) && IsBest(p, best)
    requires Walk(slots, p, v, best, clock, n).Ended? && !Late(clock, Walk(slots, p, v, best, clock, n).looks)
    ensures Walk(slots, p, v, best, clock, n).best == Prune(p, v, best)
    decreases |p.options| - |v|, 1, 0
  {
    hide WellFormed, Cost, Fits, Late, Priced;
    LateNext(clock, n);
    LateOnward(clock, n + 1, Walk(slots, p, v, best, clock, n).looks);
    if |v| < |p.options| && !(best.Some? && Cost(p, v) >= Cost(p, best.value)) {
      WalkTryIsPruneTry(slots, p, v, 0, best, clock, n + 1);
    }
  }

  lemma {:induction false} WalkTryIsPruneTry(
    slots: seq<TimeSlot>, p: Problem, v: Picks, k: nat, best: Option<Picks>, clock: Clock, n: nat)
    requires WellFormed(p) && IsPicks(p, v) && IsBest(p, best)
    requires |v| < |p.options| && k <= |p.options[|v|]|
    requires WalkTry(slots, p, v, k, best, clock, n).Ended?
    requires !Late(clock, WalkTry(slots, p, v, k, best, clock, n).looks)
    ensures WalkTry(slots, p, v, k, best, clock, n).best == PruneTry(p, v, k, best)
    decreases |p.options| - |v|, 0, |p.options[|v|]| - k
  {
    hide WellFormed, Cost, Fits, Late, Walk, Prune, Priced;
    if k == |p.options[|v|]| {
    } else if Fits(p, v, k) {
      var next := Walk(slots, p, v + [k], best, clock, n);
      LateOnward(clock, next.looks, WalkTry(slots, p, v, k, best, clock, n).looks);
      WalkIsPrune(slots, p, v + [k], best, clock, n);
      WalkTryIsPruneTry(slots, p, v, k + 1, next.best, clock, next.looks);
    } else {
      WalkTryIsPruneTry(slots, p, v, k + 1, best, clock, n);
    }
  }

  /** What a search ends with completes its picks, unless it is what the search started with. */
  lemma {:induction false} WalkCompletes(
    slots: seq<TimeSlot>, p: Problem, v: Picks, best: Option<Picks>, clock: Clock, n: nat)
    requires WellFormed(p) && IsPicks(p, v) && IsBest(p, best) && Placeable(p, v)
    requires Walk(slots, p, v, best, clock, n).Ended?
    ensures var r := Walk(slots, p, v, best, clock, n).best; r == best || (r.Some? && Completes(p, [], r.value))
    decreases |p.options| - |v|, 1, 0
  {
    hide WellFormed, Cost, Fits, Priced, Placeable;
    if |v| < |p.options| && !clock(n) && !(best.Some? && Cost(p, v) >= Cost(p, best.value)) {
      WalkTryCompletes(slots, p, v, 0, best, clock, n + 1);
    }
  }

  lemma {:induction false} WalkTryCompletes(
    slots: seq<TimeSlot>, p: Problem, v: Picks, k: nat, best: Option<Picks>, clock: Clock, n: nat)
    requires WellFormed(p) && IsPicks(p, v) && IsBest(p, best) && Placeable(p, v)
    requires |v| < |p.options| && k <= |p.options[|v|]|
    requires WalkTry(slots, p, v, k, best, clock, n).Ended?
    ensures var r := WalkTry(slots, p, v, k, best, clock, n).best; r == best || (r.Some? && Completes(p, [], r.value))
    decreases |p.options| - |v|, 0, |p.options[|v|]| - k
  {
    hide WellFormed, Cost, Fits, Walk, Priced, Placeable;
    if k == |p.options[|v|]| {
    } else if Fits(p, v, k) {
      var next := Walk(slots, p, v + [k], best, clock, n);
      Extend(p, v, k);
      WalkCompletes(slots, p, v + [k], best, clock, n);
      WalkTryCompletes(slots, p, v, k + 1, next.best, clock, next.looks);
    } else {
      WalkTryCompletes(slots, p, v, k + 1, best, clock, n);
    }
  }

  // ----- when the search breaks -----

  ghost predicate AllPriced(slots: seq<TimeSlot>, p: Problem) {
    forall i, k :: 0 <= i < |p.options| && 0 <= k < |p.options[i]| ==> Priced(slots, p.options[i][k])
  }

  /** Without an option past the slot tuple the search does not break. */
  lemma {:induction false} PricedEnds(
    slots: seq<TimeSlot>, p: Problem, v: Picks, best: Option<Picks>, clock: Clock, n: nat)
    requires WellFormed(p) && IsPicks(p, v) && IsBest(p, best) && AllPriced(slots, p)
    ensures Walk(slots, p, v, best, clock, n).Ended?
    decreases |p.options| - |v|, 1, 0
  {
    hide WellFormed, Cost, Fits, Priced;
    if |v| < |p.options| {
      PricedTryEnds(slots, p, v, 0, best, clock, n + 1);
    }
  }

  lemma {:induction false} PricedTryEnds(
    slots: seq<TimeSlot>, p: Problem, v: Picks, k: nat, best: Option<Picks>, clock: Clock, n: nat)
    requires WellFormed(p) && IsPicks(p, v) && IsBest(p, best) && AllPriced(slots, p)
    requires |v| < |p.options| && k <= |p.options[|v|]|
    ensures WalkTry(slots, p, v, k, best, clock, n).Ended?
    decreases |p.options| - |v|, 0, |p.options[|v|]| - k
  {
    hide WellFormed, Cost, Fits, Walk, Priced;
    if k == |p.options[|v|]| {
    } else if Fits(p, v, k) {
      PricedEnds(slots, p, v + [k], best, clock, n);
      var next := Walk(slots, p, v + [k], best, clock, n);
      PricedTryEnds(slots, p, v, k + 1, next.best, clock, next.looks);
    } else {
      PricedTryEnds(slots, p, v, k + 1, best, clock, n);
    }
  }

  /** A level of the search breaks at any fitting option past the slot tuple that it has still to try, whatever the
      clock says further down. */
  lemma {:induction false} UnpricedBreaks(
    slots: seq<TimeSlot>, p: Problem, v: Picks, k: nat, best: Option<Picks>, clock: Clock, n: nat, bad: nat)
    requires WellFormed(p) && IsPicks(p, v) && IsBest(p, best)
    requires |v| < |p.options| && k <= bad < |p.options[|v|]|
    requires Fits(p, v, bad) && !Priced(slots, p.options[|v|][bad])
    ensures WalkTry(slots, p, v, k, best, clock, n).Broken?
    decreases bad - k
  {
    hide WellFormed, Cost, Fits, Walk, Priced;
    if k == bad {
    } else if Fits(p, v, k) && Priced(slots, p.options[|v|][k]) && Walk(slots, p, v + [k], best, clock, n).Ended? {
      var next := Walk(slots, p, v + [k], best, clock, n);
      UnpricedBreaks(slots, p, v, k + 1, next.best, clock, next.looks, bad);
    } else if !Fits(p, v, k) {
      UnpricedBreaks(slots, p, v, k + 1, best, clock, n, bad);
    }
  }

  /** The nested `search` closure and the variables it shares with `optimize`. */
  class Search {
    const request: ScheduleInput
    const options: seq<seq<Choice>>
    const clock: Clock
    ghost const problem: Problem
    var capacity: map<int, int>
    var current: seq<Choice>
    var bestCost: Option<real>
    var bestChoices: Option<seq<Choice>>
    var timedOut: bool
    var looks: nat
    ghost var picks: Picks
    ghost var bestPicks: Option<Picks>

    /** The problem being searched never changes. */
    ghost predicate Posed() {
      && AllPlannable(request)
      && problem == ProblemOf(request)
      && WellFormed(problem)
      && options == problem.options
      && |request.jobs| == |options|
      && forall i :: 0 <= i < |request.jobs| ==> problem.gpus[i] == request.jobs[i].request.gpuCount
    }

    /** The capacity table is the slots' capacity less what the current picks take. */
    ghost predicate Balanced(v: Picks)
      requires Posed() && IsPicks(problem, v)
      reads this
    {
      && capacity.Keys == problem.capacity.Keys
      && forall s :: s in capacity ==> capacity[s] == problem.capacity[s] - Uses(problem, v, s)
    }

    ghost predicate Incumbent()
      requires Posed()
      reads this
    {
      if bestPicks.None? then bestCost.None? && bestChoices.None?
      else
        && Completes(problem, [], bestPicks.value)
        && bestCost == Some(Cost(problem, bestPicks.value))
        && bestChoices == Some(Chosen(problem, bestPicks.value))
    }

    ghost predicate Valid()
      reads this
    {
      && Posed()
      && IsPicks(problem, picks)
      && Placeable(problem, picks)
      && current == Chosen(problem, picks)
      && Balanced(picks)
      && Incumbent()
    }

    constructor (request: ScheduleInput, options: seq<seq<Choice>>, clock: Clock)
      requires AllPlannable(request) && options == ProblemOf(request).options
      ensures Valid() && this.request == request && this.clock == clock
      ensures picks == [] && bestPicks == None && !timedOut && looks == 0
    {
      ProblemWellFormed(request);
      this.request, this.options, this.clock, this.problem := request, options, clock, ProblemOf(request);
      capacity, current := CapacityTable(request.slots), [];
      bestCost, bestChoices, timedOut, looks := None, None, false, 0;
      picks, bestPicks := [], None;
    }

    /** Descend into one option: charge the table and push the choice. */
    method Push(index: nat, k: nat)
      requires Valid() && index == |picks| < |options| && k < |options[index]| && Fits(problem, picks, k)
      modifies this`capacity, this`current, this`picks
      ensures Valid() && picks == old(picks) + [k]
    {
      hide ProblemOf, Completes, WellFormed, Placeable, Load, AllPlannable, Cost;
      Extend(problem, picks, k);
      OptionSlots(problem, index, k);
      capacity := Charge(capacity, options[index][k], request.jobs[index].request.gpuCount);
      current := current + [options[index][k]];
      picks := picks + [k];
      assert picks[..index] == old(picks);
    }

    /** Backtrack: pop the choice and refund the table. */
    method Pop(index: nat)
      requires Valid() && |picks| == index + 1
      modifies this`capacity, this`current, this`picks
      ensures Valid() && picks == old(picks)[..index]
    {
      hide ProblemOf, Completes, WellFormed, Load, AllPlannable, Cost;
      var choice := current[index];
      OptionSlots(problem, index, picks[index]);
      current := current[..index];
      capacity := Refund(capacity, choice, request.jobs[index].request.gpuCount);
      picks := picks[..index];
    }

    /** The recursive search, which looks at the clock once on entry. `raised` stands for the IndexError of a cost
        lookup past the slot tuple. */
    method Visit(index: nat, runningCost: real) returns (raised: bool)
      requires Valid() && index == |picks| && runningCost == Cost(problem, picks)
      requires timedOut <==> Late(clock, looks)
      modifies this
      ensures !raised ==> Valid() && picks == old(picks)
      ensures timedOut <==> Late(clock, looks)
      ensures Walk(request.slots, problem, old(picks), old(bestPicks), clock, old(looks))
              == if raised then Broken else Ended(bestPicks, looks)
      decreases |options| - index
    {
      hide ProblemOf, Placeable, WellFormed, AllPlannable, Uses, WalkTry, Cost, Late;
      var expired := clock(looks);
      LateNext(clock, looks);
      looks := looks + 1;
      if expired {
        timedOut := true;
        return false;
      }
      if bestCost.Some? && runningCost >= bestCost.value {
        return false;
      }
      if index == |request.jobs| {
        bestCost, bestChoices, bestPicks := Some(runningCost), Some(current), Some(picks);
        return false;
      }
      raised := Branch(index, runningCost);
    }

    /** The loop over one job's options. */
    method Branch(index: nat, runningCost: real) returns (raised: bool)
      requires Valid() && index == |picks| < |options| && runningCost == Cost(problem, picks)
      requires timedOut <==> Late(clock, looks)
      modifies this
      ensures !raised ==> Valid() && picks == old(picks)
      ensures timedOut <==> Late(clock, looks)
      ensures WalkTry(request.slots, problem, old(picks), 0, old(bestPicks), clock, old(looks))
              == if raised then Broken else Ended(bestPicks, looks)
      decreases |options| - index, 0
    {
      hide ProblemOf, Placeable, WellFormed, AllPlannable, Uses, Cost, Walk, Load, ChoiceCost, Late, Priced;
      var job := request.jobs[index];
      var k := 0;
      while k < |options[index]|
        invariant 0 <= k <= |options[index]|
        invariant Valid() && picks == old(picks)
        invariant timedOut <==> Late(clock, looks)
        invariant WalkTry(request.slots, problem, picks, 0, old(bestPicks), clock, old(looks))
                  == WalkTry(request.slots, problem, picks, k, bestPicks, clock, looks)
      {
        var choice := options[index][k];
        OptionSlots(problem, index, k);
        if forall s :: s in choice ==> capacity[s] >= job.request.gpuCount {
          assert Fits(problem, picks, k);
          Push(index, k);
          if !Priced(request.slots, choice) {
            return true;
          }
          var cost := ChoiceCost(request.slots, job, choice);
          CostExtend(problem, old(picks), k);
          OptionCost(request, index, k);
          raised := Visit(index + 1, runningCost + cost);
          if raised {
            return;
          }
          Pop(index);
        } else {
          assert !Fits(problem, picks, k);
        }
        k := k + 1;
      }
      return false;
    }
  }
}
