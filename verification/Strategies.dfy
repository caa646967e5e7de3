/** The greedy baselines of packages/scheduling/strategies.py. */
module Strategies {
  import opened Sequences
  import opened Wrappers
  import opened Sorting
  import opened Contracts
  import opened Windows
  import opened Objectives

  predicate StartLe(a: TimeSlot, b: TimeSlot) {
    a.startsAt <= b.startsAt
  }

  predicate PriceLe(a: TimeSlot, b: TimeSlot) {
    a.pricePerKwh < b.pricePerKwh || (a.pricePerKwh == b.pricePerKwh && a.startsAt <= b.startsAt)
  }

  predicate FifoLe(a: Job, b: Job) {
    a.submittedAt < b.submittedAt || (a.submittedAt == b.submittedAt && StringLe(a.id, b.id))
  }

  predicate PriorityEdfLe(a: Job, b: Job) {
    || a.sla.priority > b.sla.priority
    || (a.sla.priority == b.sla.priority &&
        (a.sla.deadline < b.sla.deadline || (a.sla.deadline == b.sla.deadline && StringLe(a.id, b.id))))
  }

  /** A slot this job can still use. */
  predicate Open(available: map<int, int>, job: Job, slot: TimeSlot)
    requires slot.index in available
  {
    && slot.startsAt < job.sla.deadline
    && available[slot.index] >= job.request.gpuCount
    && job.request.powerKwPerGpu * job.request.gpuCount as real <= slot.powerCapacityKw
  }

  function Candidates(slots: seq<TimeSlot>, available: map<int, int>, job: Job): seq<TimeSlot>
    requires forall s :: s in slots ==> s.index in available
  {
    if |slots| == 0 then []
    else
      var front, last := slots[..|slots| - 1], slots[|slots| - 1];
      assert forall s :: s in front ==> s in slots;
      assert last in slots;
      Candidates(front, available, job) + if Open(available, job, last) then [last] else []
  }

  /** The earliest, or the cheapest, `required` candidates, in time order. */
  function Pick(slots: seq<TimeSlot>, available: map<int, int>, job: Job, required: nat, price: bool): seq<TimeSlot>
    requires forall s :: s in slots ==> s.index in available
  {
    var candidates := Sort(if price then PriceLe else StartLe, Candidates(slots, available, job));
    Sort(StartLe, if required <= |candidates| then candidates[..required] else candidates)
  }

  function IndicesOf(slots: seq<TimeSlot>): (c: seq<int>)
    ensures |c| == |slots| && forall k :: 0 <= k < |c| ==> c[k] == slots[k].index
  {
    seq(|slots|, k requires 0 <= k < |slots| => slots[k].index)
  }

  // ----- what a pick holds -----

  lemma {:induction false} CandidateMember(slots: seq<TimeSlot>, available: map<int, int>, job: Job, s: TimeSlot)
    requires forall s :: s in slots ==> s.index in available
    ensures s in Candidates(slots, available, job) <==> s in slots && Open(available, job, s)
  {
    if |slots| == 0 {
    } else {
      var front, last := slots[..|slots| - 1], slots[|slots| - 1];
      assert forall s :: s in front ==> s in slots;
      CandidateMember(front, available, job, s);
    }
  }

  ghost predicate NoRepeat(slots: seq<TimeSlot>) {
    forall s :: multiset(slots)[s] <= 1
  }

  lemma {:induction false} CandidatesNoRepeat(slots: seq<TimeSlot>, available: map<int, int>, job: Job)
    requires forall s :: s in slots ==> s.index in available
    ensures multiset(Candidates(slots, available, job)) <= multiset(slots)
  {
    hide Open;
    if |slots| == 0 {
    } else {
      var front, last := slots[..|slots| - 1], slots[|slots| - 1];
      assert forall s :: s in front ==> s in slots;
      CandidatesNoRepeat(front, available, job);
      assert slots == front + [last];
      assert multiset(slots) == multiset(front) + multiset{last};
    }
  }

  lemma {:induction false} UniqueNoRepeat(slots: seq<TimeSlot>, s: TimeSlot)
    requires UniqueSlots(slots)
    ensures multiset(slots)[s] <= 1
  {
    if |slots| == 0 {
    } else {
      var front, last := slots[..|slots| - 1], slots[|slots| - 1];
      UniqueNoRepeat(front, s);
      assert slots == front + [last];
      forall i | 0 <= i < |front|
        ensures front[i] != last
      {
        assert slots[i].index != slots[|slots| - 1].index;
      }
    }
  }

  /** The first `k` of a sorted list are some of the list's members. */
  lemma SortedPrefix(le: (TimeSlot, TimeSlot) -> bool, s: seq<TimeSlot>, k: nat)
    ensures var sorted := Sort(le, s);
            var kept := if k <= |sorted| then sorted[..k] else sorted;
            && |kept| <= k
            && multiset(kept) <= multiset(s)
  {
    hide Sort;
    SortPermutes(le, s);
    var sorted := Sort(le, s);
    var kept := if k <= |sorted| then sorted[..k] else sorted;
    assert sorted == kept + sorted[|kept|..];
  }

  lemma StartLePreorder()
    ensures TotalPreorder(StartLe)
  {
  }

  /** Everything picked is an open slot, and no slot is picked twice. */
  lemma PickSound(slots: seq<TimeSlot>, available: map<int, int>, job: Job, required: nat, price: bool)
    requires forall s :: s in slots ==> s.index in available
    ensures var picked := Pick(slots, available, job, required, price);
            && |picked| <= required
            && (forall s :: s in picked ==> s in slots && Open(available, job, s))
            && multiset(picked) <= multiset(slots)
            && SortedBy(StartLe, picked)
  {
    hide Open, Candidates, Sort, SortedBy, TotalPreorder;
    var candidates := Candidates(slots, available, job);
    var le := if price then PriceLe else StartLe;
    var sorted := Sort(le, candidates);
    var kept := if required <= |sorted| then sorted[..required] else sorted;
    SortedPrefix(le, candidates, required);
    SortPermutes(StartLe, kept);
    StartLePreorder();
    SortSorts(StartLe, kept);
    CandidatesNoRepeat(slots, available, job);
    var picked := Pick(slots, available, job, required, price);
    forall s | s in picked
      ensures s in slots && Open(available, job, s)
    {
      assert s in multiset(kept);
      assert s in multiset(candidates);
      CandidateMember(slots, available, job, s);
    }
  }

  ghost predicate Chronological(slots: seq<TimeSlot>) {
    Aligned(slots) && forall i, j :: 0 <= i < j < |slots| ==> slots[i].startsAt < slots[j].startsAt
  }

  /** The slots of a pick, as indices: distinct, and increasing when slots are in time order. */
  lemma PickIndices(slots: seq<TimeSlot>, picked: seq<TimeSlot>)
    requires UniqueSlots(slots) && multiset(picked) <= multiset(slots) && SortedBy(StartLe, picked)
    ensures Distinct(IndicesOf(picked))
    ensures Chronological(slots) ==> Increasing(IndicesOf(picked))
  {
    var c := IndicesOf(picked);
    forall i, j | 0 <= i < j < |c|
      ensures c[i] != c[j]
      ensures Chronological(slots) ==> c[i] < c[j]
    {
      assert picked[i] in multiset(picked) && picked[j] in multiset(picked);
      assert picked[i] in slots && picked[j] in slots;
      if picked[i] == picked[j] {
        Twice(picked, i, j);
        UniqueNoRepeat(slots, picked[i]);
        assert false;
      }
      var a :| 0 <= a < |slots| && slots[a] == picked[i];
      var b :| 0 <= b < |slots| && slots[b] == picked[j];
      assert StartLe(picked[i], picked[j]);
    }
  }

  /** A pick prefers every slot it holds to every slot it leaves although the job could run there: by start, or, where
      prices count, by price first. */
  lemma PickPrefers(
    slots: seq<TimeSlot>, available: map<int, int>, job: Job, required: nat, price: bool, s: TimeSlot, t: TimeSlot)
    requires forall s :: s in slots ==> s.index in available
    requires s in Pick(slots, available, job, required, price)
    requires t in slots && t !in Pick(slots, available, job, required, price)
    requires t.startsAt < job.sla.deadline && available[t.index] >= job.request.gpuCount
    requires job.request.powerKwPerGpu * job.request.gpuCount as real <= t.powerCapacityKw
    ensures price ==> s.pricePerKwh <= t.pricePerKwh
    ensures price ==> s.pricePerKwh == t.pricePerKwh ==> s.startsAt <= t.startsAt
    ensures !price ==> s.startsAt <= t.startsAt
  {
    hide Candidates, Sort, Pick;
    CandidateMember(slots, available, job, t);
    PickOrders(slots, available, job, required, price, s, t);
  }

  lemma PickOrders(
    slots: seq<TimeSlot>, available: map<int, int>, job: Job, required: nat, price: bool, s: TimeSlot, t: TimeSlot)
    requires forall s :: s in slots ==> s.index in available
    requires s in Pick(slots, available, job, required, price)
    requires t in Candidates(slots, available, job) && t !in Pick(slots, available, job, required, price)
    ensures if price then PriceLe(s, t) else StartLe(s, t)
  {
    hide Open, Candidates, Sort;
    var candidates := Candidates(slots, available, job);
    var le := if price then PriceLe else StartLe;
    var sorted := Sort(le, candidates);
    var kept := if required <= |sorted| then sorted[..required] else sorted;
    SortPermutes(le, candidates);
    SortPermutes(StartLe, kept);
    assert TotalPreorder(le);
    SortSorts(le, candidates);
    assert s in kept && t in sorted && t !in kept;
    var i :| 0 <= i < |kept| && kept[i] == s;
    var j :| 0 <= j < |sorted| && sorted[j] == t;
    assert sorted == kept + sorted[|kept|..];
    forall k | 0 <= k < |kept|
      ensures sorted[k] != t
    {
      assert kept[k] in kept;
    }
    assert le(sorted[i], sorted[j]);
  }

  // ----- the greedy loop -----

  /** What the schedule promises about one job it places. */
  ghost predicate Booked(slots: seq<TimeSlot>, job: Job, c: seq<int>) {
    && |slots| > 0 && slots[0].durationHours != 0.0
    && LeastCovering(|c|, slots[0].durationHours, job.request.estimatedHours)
    && (job.checkpointable || Consecutive(c))
    && (forall x :: x in c ==> OpenIndex(slots, job, x))
    && (UniqueSlots(slots) ==> Distinct(c))
    && (Chronological(slots) ==> Increasing(c))
  }

  /** Index `x` belongs to a slot that starts in time and has the power, and the GPUs when indices are unique. */
  ghost predicate OpenIndex(slots: seq<TimeSlot>, job: Job, x: int) {
    exists i :: 0 <= i < |slots| && slots[i].index == x && OpenSlot(slots, job, i)
  }

  ghost predicate OpenSlot(slots: seq<TimeSlot>, job: Job, i: nat)
    requires i < |slots|
  {
    && slots[i].startsAt < job.sla.deadline
    && job.request.powerKwPerGpu * job.request.gpuCount as real <= slots[i].powerCapacityKw
    && (UniqueSlots(slots) ==> job.request.gpuCount <= slots[i].gpuCapacity)
  }

  /** The table is what the slots offer less what is allocated, and no allocated slot is overdrawn. */
  ghost predicate Balanced(slots: seq<TimeSlot>, available: map<int, int>, allocations: seq<Allocation>) {
    && available.Keys == Indices(slots)
    && (forall i :: i in available ==> available[i] == CapacityTable(slots)[i] - Use(allocations, i))
    && (UniqueSlots(slots) ==> forall k, i ::
          0 <= k < |allocations| && i in allocations[k].slotIndices ==> i in available && available[i] >= 0)
  }

  /** Each allocation belongs to a job of `owners`, position by position. */
  ghost predicate Owned(slots: seq<TimeSlot>, owners: seq<Job>, allocations: seq<Allocation>) {
    && |owners| == |allocations|
    && forall k :: 0 <= k < |owners| ==>
         && allocations[k].jobId == owners[k].id
         && allocations[k].gpuCount == owners[k].request.gpuCount
         && Booked(slots, owners[k], allocations[k].slotIndices)
  }

  ghost function OwnedCost(slots: seq<TimeSlot>, owners: seq<Job>, allocations: seq<Allocation>): real
    requires |owners| == |allocations|
  {
    if |owners| == 0 then 0.0
    else
      var m := |owners| - 1;
      OwnedCost(slots, owners[..m], allocations[..m])
      + AllocationTotals(slots, owners[m], allocations[m].gpuCount, allocations[m].slotIndices).cost
  }

  ghost predicate Named(jobs: seq<Job>, ids: seq<string>) {
    |jobs| == |ids| && forall k :: 0 <= k < |jobs| ==> ids[k] == jobs[k].id
  }

  function GreedyEnergy(slot: TimeSlot, job: Job): real {
    job.request.powerKwPerGpu * job.request.gpuCount as real * slot.durationHours
  }

  function GreedyCost(slot: TimeSlot, job: Job): real {
    GreedyEnergy(slot, job) * slot.pricePerKwh
  }

  /** Energy of one allocation, slot by slot. */
  ghost function AllocationEnergy(slots: seq<TimeSlot>, job: Job, indices: seq<int>): real {
    if |indices| == 0 then 0.0
    else
      var slot := SlotByIndex(slots, indices[|indices| - 1]);
      AllocationEnergy(slots, job, indices[..|indices| - 1])
      + if slot.Some? then Energy(slot.value, job, job.request.gpuCount) else 0.0
  }

  ghost function OwnedEnergy(slots: seq<TimeSlot>, owners: seq<Job>, allocations: seq<Allocation>): real
    requires |owners| == |allocations|
  {
    if |owners| == 0 then 0.0
    else
      var m := |owners| - 1;
      OwnedEnergy(slots, owners[..m], allocations[..m]) + AllocationEnergy(slots, owners[m], allocations[m].slotIndices)
  }

  /** The loop over the selected slots: charge the table and add up energy and cost. */
  method ChargeSelected(
    slots: seq<TimeSlot>, available0: map<int, int>, job: Job, selected: seq<TimeSlot>, energy0: real, cost0: real)
    returns (available: map<int, int>, energy: real, cost: real)
    requires available0.Keys == Indices(slots)
    requires forall k :: 0 <= k < |selected| ==> selected[k] in slots
    ensures available.Keys == available0.Keys
    ensures forall i :: i in available ==>
              available[i] == available0[i] - Load(IndicesOf(selected), job.request.gpuCount, i)
    ensures UniqueSlots(slots) ==>
              && cost == cost0 + AllocationTotals(slots, job, job.request.gpuCount, IndicesOf(selected)).cost
              && energy == energy0 + AllocationEnergy(slots, job, IndicesOf(selected))
  {
    hide UniqueSlots, SlotTotals, Energy, GreedyEnergy, GreedyCost;
    available, energy, cost := available0, energy0, cost0;
    for n := 0 to |selected|
      invariant available.Keys == available0.Keys
      invariant forall i :: i in available ==>
        available[i] == available0[i] - Load(IndicesOf(selected)[..n], job.request.gpuCount, i)
      invariant UniqueSlots(slots) ==>
        && cost == cost0 + AllocationTotals(slots, job, job.request.gpuCount, IndicesOf(selected)[..n]).cost
        && energy == energy0 + AllocationEnergy(slots, job, IndicesOf(selected)[..n])
    {
      var slot := selected[n];
      ghost var c := IndicesOf(selected);
      assert c[..n + 1][..n] == c[..n];
      available := available[slot.index := available[slot.index] - job.request.gpuCount];
      energy := energy + GreedyEnergy(slot, job);
      cost := cost + GreedyCost(slot, job);
      if UniqueSlots(slots) {
        UniqueByIndex(slots, slot);
        SlotCostOrder(slot, job);
      }
    }
    assert IndicesOf(selected)[..|selected|] == IndicesOf(selected);
  }

  lemma SlotCostOrder(slot: TimeSlot, job: Job)
    ensures GreedyEnergy(slot, job) == Energy(slot, job, job.request.gpuCount)
    ensures GreedyCost(slot, job) == SlotTotals(slot, job, job.request.gpuCount).cost
  {
    var p, g, d := job.request.powerKwPerGpu, job.request.gpuCount as real, slot.durationHours;
    assert p * g * d == d * g * p;
  }

  /** A placed job keeps the books balanced. */
  lemma PlacedBalanced(
    slots: seq<TimeSlot>, available0: map<int, int>, available: map<int, int>, allocations: seq<Allocation>,
    a: Allocation)
    requires Balanced(slots, available0, allocations) && available.Keys == available0.Keys
    requires forall i :: i in available ==> available[i] == available0[i] - Load(a.slotIndices, a.gpuCount, i)
    requires forall i :: i in a.slotIndices ==> i in available0 && available0[i] >= a.gpuCount
    requires UniqueSlots(slots) ==> Distinct(a.slotIndices)
    ensures Balanced(slots, available, allocations + [a])
  {
    hide UniqueSlots, Indices, CapacityTable, Load, Distinct;
    var all := allocations + [a];
    assert all[..|allocations|] == allocations;
    if UniqueSlots(slots) {
      forall k, i | 0 <= k < |all| && i in all[k].slotIndices
        ensures i in available && available[i] >= 0
      {
        LoadDistinct(a.slotIndices, a.gpuCount, i);
        if k < |allocations| { assert all[k] == allocations[k]; }
      }
    }
  }

  /** A pick of the right size and shape books its job. */
  lemma PickBooked(slots: seq<TimeSlot>, available: map<int, int>, allocations: seq<Allocation>, job: Job, price: bool)
    requires |slots| > 0 && slots[0].durationHours != 0.0 && Needed(slots, job) >= 0
    requires Balanced(slots, available, allocations) && forall s :: s in slots ==> s.index in available
    requires |Pick(slots, available, job, Needed(slots, job), price)| == Needed(slots, job)
    requires job.checkpointable || Consecutive(IndicesOf(Pick(slots, available, job, Needed(slots, job), price)))
    ensures Booked(slots, job, IndicesOf(Pick(slots, available, job, Needed(slots, job), price)))
    ensures forall i :: i in IndicesOf(Pick(slots, available, job, Needed(slots, job), price)) ==>
              i in available && available[i] >= job.request.gpuCount
    ensures forall s :: s in Pick(slots, available, job, Needed(slots, job), price) ==> s in slots
  {
    hide UniqueSlots, CapacityTable, Pick, Consecutive, Needed, Use, Increasing, Distinct, Chronological, SortedBy,
      LeastCovering;
    var picked := Pick(slots, available, job, Needed(slots, job), price);
    var c := IndicesOf(picked);
    NeededIsLeast(slots, job, |c|);
    PickSound(slots, available, job, Needed(slots, job), price);
    if UniqueSlots(slots) {
      PickIndices(slots, picked);
    } else {
      if Chronological(slots) { ChronologicalUnique(slots); }
    }
    forall x | x in c
      ensures OpenIndex(slots, job, x)
      ensures x in available && available[x] >= job.request.gpuCount
    {
      var k :| 0 <= k < |c| && c[k] == x;
      assert picked[k] in picked;
      var i :| 0 <= i < |slots| && slots[i] == picked[k];
      if UniqueSlots(slots) { TableAt(slots, i); }
      assert OpenSlot(slots, job, i);
    }
  }

  lemma ChronologicalUnique(slots: seq<TimeSlot>)
    requires Chronological(slots)
    ensures Aligned(slots) && UniqueSlots(slots)
  {
  }

  lemma TableAt(slots: seq<TimeSlot>, i: nat)
    requires UniqueSlots(slots) && i < |slots|
    ensures slots[i].index in CapacityTable(slots) && CapacityTable(slots)[slots[i].index] == slots[i].gpuCapacity
  {
    assert slots[i] in slots;
  }

  /** The books after some jobs: `owners` were placed, `skipped` were not, and together they are those jobs. */
  ghost predicate Books(
    slots: seq<TimeSlot>, done: seq<Job>, owners: seq<Job>, skipped: seq<Job>, available: map<int, int>,
    allocations: seq<Allocation>, unscheduled: seq<string>, cost: real, energy: real)
  {
    && Balanced(slots, available, allocations)
    && Owned(slots, owners, allocations)
    && Named(skipped, unscheduled)
    && multiset(owners) + multiset(skipped) == multiset(done)
    && (UniqueSlots(slots) ==>
          cost == OwnedCost(slots, owners, allocations) && energy == OwnedEnergy(slots, owners, allocations))
  }

  lemma BooksSkip(
    slots: seq<TimeSlot>, done: seq<Job>, owners: seq<Job>, skipped: seq<Job>, available: map<int, int>,
    allocations: seq<Allocation>, unscheduled: seq<string>, cost: real, energy: real, job: Job)
    requires Books(slots, done, owners, skipped, available, allocations, unscheduled, cost, energy)
    ensures Books(
              slots, done + [job], owners, skipped + [job], available, allocations, unscheduled + [job.id], cost,
              energy)
  {
    hide Balanced, Owned, UniqueSlots, OwnedCost, OwnedEnergy;
  }

  lemma BooksPlace(
    slots: seq<TimeSlot>, done: seq<Job>, owners: seq<Job>, skipped: seq<Job>, available0: map<int, int>,
    available: map<int, int>, allocations: seq<Allocation>, unscheduled: seq<string>, cost0: real, energy0: real,
    cost: real, energy: real, job: Job, a: Allocation)
    requires Books(slots, done, owners, skipped, available0, allocations, unscheduled, cost0, energy0)
    requires Balanced(slots, available, allocations + [a])
    requires a.jobId == job.id && a.gpuCount == job.request.gpuCount && Booked(slots, job, a.slotIndices)
    requires UniqueSlots(slots) ==>
               && cost == cost0 + AllocationTotals(slots, job, a.gpuCount, a.slotIndices).cost
               && energy == energy0 + AllocationEnergy(slots, job, a.slotIndices)
    ensures Books(slots, done + [job], owners + [job], skipped, available, allocations + [a], unscheduled, cost, energy)
  {
    hide Balanced, UniqueSlots, AllocationTotals, AllocationEnergy, Booked;
    assert (owners + [job])[..|owners|] == owners;
    assert (allocations + [a])[..|allocations|] == allocations;
  }

  // ----- what the loop computes -----

  /** The slots a job gets, if any: the pick, when it has the right size and shape. */
  ghost function Attempt(slots: seq<TimeSlot>, available: map<int, int>, job: Job, price: bool): Option<seq<int>>
    requires available.Keys == Indices(slots) && (|slots| > 0 ==> slots[0].durationHours != 0.0)
  {
    if |slots| == 0 || Needed(slots, job) < 0 then None
    else
      assert forall s :: s in slots ==> s.index in Indices(slots);
      var c := IndicesOf(Pick(slots, available, job, Needed(slots, job), price));
      if |c| == Needed(slots, job) && (job.checkpointable || Consecutive(c)) then Some(c) else None
  }

  /** The positions of the slots a job could still run in. */
  ghost function OpenPositions(slots: seq<TimeSlot>, available: map<int, int>, job: Job): set<int>
    requires forall s :: s in slots ==> s.index in available
  {
    set i | 0 <= i < |slots| && Open(available, job, slots[i])
  }

  lemma {:induction false} CandidateCount(slots: seq<TimeSlot>, available: map<int, int>, job: Job)
    requires forall s :: s in slots ==> s.index in available
    ensures |Candidates(slots, available, job)| == |OpenPositions(slots, available, job)|
  {
    hide Open;
    if |slots| == 0 {
      assert OpenPositions(slots, available, job) == {};
    } else {
      var m := |slots| - 1;
      assert forall s :: s in slots[..m] ==> s in slots;
      CandidateCount(slots[..m], available, job);
      var before := OpenPositions(slots[..m], available, job);
      assert OpenPositions(slots, available, job)
             == before + if Open(available, job, slots[m]) then {m} else {};
    }
  }

  /** A job that can be checkpointed is left out exactly when fewer slots are open to it than its hours take. */
  lemma SkippedIff(slots: seq<TimeSlot>, available: map<int, int>, job: Job, price: bool, n: nat)
    requires |slots| > 0 && Plannable(slots, job) && available.Keys == Indices(slots) && job.checkpointable
    requires LeastCovering(n, slots[0].durationHours, job.request.estimatedHours)
    requires forall s :: s in slots ==> s.index in available
    ensures Attempt(slots, available, job, price).None? <==> |OpenPositions(slots, available, job)| < n
  {
    hide Candidates, OpenPositions, Sort, LeastCovering, Needed;
    NeededIsLeast(slots, job, n);
    CandidateCount(slots, available, job);
    var candidates := Candidates(slots, available, job);
    var le := if price then PriceLe else StartLe;
    SortPermutes(le, candidates);
    var sorted := Sort(le, candidates);
    SortPermutes(StartLe, if n <= |sorted| then sorted[..n] else sorted);
  }

  ghost function Charged(available: map<int, int>, c: seq<int>, gpus: nat): (r: map<int, int>)
    ensures r.Keys == available.Keys
  {
    map i | i in available :: available[i] - Load(c, gpus, i)
  }

  datatype Ledger = Ledger(available: map<int, int>, allocations: seq<Allocation>, unscheduled: seq<string>)

  /** Job by job, in order: place the attempt or leave the job out. */
  ghost function Run(slots: seq<TimeSlot>, jobs: seq<Job>, code: string, price: bool): (l: Ledger)
    requires |slots| > 0 ==> slots[0].durationHours != 0.0
    ensures l.available.Keys == Indices(slots)
  {
    if |jobs| == 0 then Ledger(CapacityTable(slots), [], [])
    else
      var job, l := jobs[|jobs| - 1], Run(slots, jobs[..|jobs| - 1], code, price);
      var c := Attempt(slots, l.available, job, price);
      if c.None? then l.(unscheduled := l.unscheduled + [job.id])
      else
        Ledger(
          Charged(l.available, c.value, job.request.gpuCount),
          l.allocations + [Allocation(job.id, c.value, job.request.gpuCount, code)],
          l.unscheduled)
  }

  lemma RunStep(slots: seq<TimeSlot>, done: seq<Job>, job: Job, code: string, price: bool)
    requires |slots| > 0 ==> slots[0].durationHours != 0.0
    ensures var l, l' := Run(slots, done, code, price), Run(slots, done + [job], code, price);
            var c := Attempt(slots, l.available, job, price);
            if c.None? then l' == l.(unscheduled := l.unscheduled + [job.id])
            else l' == Ledger(
              Charged(l.available, c.value, job.request.gpuCount),
              l.allocations + [Allocation(job.id, c.value, job.request.gpuCount, code)],
              l.unscheduled)
  {
    assert (done + [job])[..|done|] == done;
  }

  /** The plan is what placing the jobs one by one, in this order and by this preference, comes to. */
  ghost predicate Follows(request: ScheduleInput, ordered: seq<Job>, code: string, price: bool, plan: SchedulePlan) {
    (|request.slots| > 0 ==> request.slots[0].durationHours != 0.0) ==>
      && plan.allocations == Run(request.slots, ordered, code, price).allocations
      && plan.unscheduled == Run(request.slots, ordered, code, price).unscheduled
  }

  /** Exactly when a strategy raises: on a zero slot duration, or because the validator rejects its plan. */
  ghost predicate Fails(request: ScheduleInput, ordered: seq<Job>, code: string, price: bool) {
    if |request.slots| > 0 && request.slots[0].durationHours == 0.0 then ordered != []
    else !PlanFits(request, Run(request.slots, ordered, code, price).allocations)
  }

  lemma NothingFits(request: ScheduleInput)
    ensures PlanFits(request, [])
  {
  }

  /** The requests a strategy may raise on. */
  ghost predicate Irregular(request: ScheduleInput) {
    || (|request.slots| > 0 && request.slots[0].durationHours == 0.0)
    || !Aligned(request.slots) || !DistinctJobIds(request.jobs)
  }

  /** `_schedule`: `None` is an exception, from a zero slot duration or from the validator. */
  method Schedule(request: ScheduleInput, ordered: seq<Job>, strategy: string, code: string, price: bool)
    returns (plan: Option<SchedulePlan>, ghost owners: seq<Job>, ghost skipped: seq<Job>)
    ensures plan.Some? && ordered != [] && |request.slots| > 0 ==> request.slots[0].durationHours != 0.0
    ensures plan.Some? ==> plan.value.strategy == strategy && Follows(request, ordered, code, price, plan.value)
    ensures plan.Some? ==> GreedyPlan(request.slots, ordered, plan.value, owners, skipped)
    ensures plan.Some? ==> PlanFits(request, plan.value.allocations)
    ensures plan.None? <==> Fails(request, ordered, code, price)
    ensures plan.None? ==> Irregular(request) || multiset(ordered) != multiset(request.jobs)
  {
    hide Books, PlanFits, Aligned, DistinctJobIds, Booked, Pick, Indices, Balanced, Load, CapacityTable, Run, Charged;
    ghost var timed := |request.slots| > 0 ==> request.slots[0].durationHours != 0.0;
    var available := CapacityTable(request.slots);
    var allocations: seq<Allocation> := [];
    var unscheduled: seq<string> := [];
    var cost, energy := 0.0, 0.0;
    owners, skipped := [], [];
    BooksOpen(request.slots);
    if timed { RunEmpty(request.slots, code, price); }
    for n := 0 to |ordered|
      invariant Books(request.slots, ordered[..n], owners, skipped, available, allocations, unscheduled, cost, energy)
      invariant if n == 0 then allocations == [] else timed
      invariant timed ==> Run(request.slots, ordered[..n], code, price) == Ledger(available, allocations, unscheduled)
    {
      var job := ordered[n];
      assert ordered[..n + 1] == ordered[..n] + [job];
      var selected: Option<seq<TimeSlot>> := None;
      if |request.slots| > 0 {
        if request.slots[0].durationHours == 0.0 {
          return None, owners, skipped;
        }
        var required := Needed(request.slots, job);
        if required >= 0 {
          BooksKeys(request.slots, ordered[..n], owners, skipped, available, allocations, unscheduled, cost, energy);
          var picked := Pick(request.slots, available, job, required, price);
          var consecutive := forall k :: 0 < k < |picked| ==> picked[k].index == picked[k - 1].index + 1;
          if |picked| == required && (job.checkpointable || consecutive) {
            PickBooked(request.slots, available, allocations, job, price);
            selected := Some(picked);
          }
        }
      }
      RunStep(request.slots, ordered[..n], job, code, price);
      if selected.None? {
        BooksSkip(request.slots, ordered[..n], owners, skipped, available, allocations, unscheduled, cost, energy, job);
        unscheduled, skipped := unscheduled + [job.id], skipped + [job];
      } else {
        ghost var available0, cost0, energy0 := available, cost, energy;
        var a := Allocation(job.id, IndicesOf(selected.value), job.request.gpuCount, code);
        available, energy, cost := ChargeSelected(request.slots, available, job, selected.value, energy, cost);
        BookedDistinct(request.slots, job, a.slotIndices);
        ChargedIs(available0, available, a.slotIndices, a.gpuCount);
        PlacedBalanced(request.slots, available0, available, allocations, a);
        BooksPlace(request.slots, ordered[..n], owners, skipped, available0, available, allocations, unscheduled,
                   cost0, energy0, cost, energy, job, a);
        allocations, owners := allocations + [a], owners + [job];
      }
    }
    assert ordered[..|ordered|] == ordered;
    var result := SchedulePlan(
      strategy, allocations, unscheduled, energy, cost, ["deterministic input snapshot"], [], request);
    BooksClose(request.slots, ordered, owners, skipped, available, result);
    if Aligned(request.slots) && DistinctJobIds(request.jobs) && multiset(ordered) == multiset(request.jobs) {
      GreedyAccepted(request, ordered, result, owners, skipped);
    }
    NothingFits(request);
    var verdict := ValidatePlan(request, allocations);
    if verdict != Valid {
      return None, owners, skipped;
    }
    plan := Some(result);
  }

  lemma RunEmpty(slots: seq<TimeSlot>, code: string, price: bool)
    requires |slots| > 0 ==> slots[0].durationHours != 0.0
    ensures Run(slots, [], code, price) == Ledger(CapacityTable(slots), [], [])
  {
  }

  lemma ChargedIs(available: map<int, int>, left: map<int, int>, c: seq<int>, gpus: nat)
    requires left.Keys == available.Keys && forall i :: i in left ==> left[i] == available[i] - Load(c, gpus, i)
    ensures Charged(available, c, gpus) == left
  {
  }

  lemma BooksOpen(slots: seq<TimeSlot>)
    ensures Books(slots, [], [], [], CapacityTable(slots), [], [], 0.0, 0.0)
  {
    hide UniqueSlots;
  }

  lemma BooksKeys(
    slots: seq<TimeSlot>, done: seq<Job>, owners: seq<Job>, skipped: seq<Job>, available: map<int, int>,
    allocations: seq<Allocation>, unscheduled: seq<string>, cost: real, energy: real)
    requires Books(slots, done, owners, skipped, available, allocations, unscheduled, cost, energy)
    ensures Balanced(slots, available, allocations) && available.Keys == Indices(slots)
    ensures forall s :: s in slots ==> s.index in available
  {
    hide UniqueSlots, Owned, OwnedCost, OwnedEnergy;
  }

  lemma BookedDistinct(slots: seq<TimeSlot>, job: Job, c: seq<int>)
    requires Booked(slots, job, c)
    ensures UniqueSlots(slots) ==> Distinct(c)
  {
  }

  /** What a greedy plan promises: every job placed or skipped, never both; placed jobs in bookable slots; no slot
      overdrawn; and the stated cost and energy are those of its allocations. */
  ghost predicate GreedyPlan(
    slots: seq<TimeSlot>, ordered: seq<Job>, plan: SchedulePlan, owners: seq<Job>, skipped: seq<Job>)
  {
    && Owned(slots, owners, plan.allocations)
    && Named(skipped, plan.unscheduled)
    && multiset(owners) + multiset(skipped) == multiset(ordered)
    && (UniqueSlots(slots) ==>
          && plan.estimatedCost == OwnedCost(slots, owners, plan.allocations)
          && plan.energyIntentKwh == OwnedEnergy(slots, owners, plan.allocations)
          && NeverOverdrawn(slots, plan.allocations))
  }

  ghost predicate NeverOverdrawn(slots: seq<TimeSlot>, allocations: seq<Allocation>) {
    forall k, i :: 0 <= k < |allocations| && i in allocations[k].slotIndices ==>
      i in CapacityTable(slots) && Use(allocations, i) <= CapacityTable(slots)[i]
  }

  lemma BooksClose(
    slots: seq<TimeSlot>, ordered: seq<Job>, owners: seq<Job>, skipped: seq<Job>, available: map<int, int>,
    plan: SchedulePlan)
    requires Books(
               slots, ordered, owners, skipped, available, plan.allocations, plan.unscheduled, plan.estimatedCost,
               plan.energyIntentKwh)
    ensures GreedyPlan(slots, ordered, plan, owners, skipped)
  {
    hide Owned, OwnedCost, OwnedEnergy, UniqueSlots, Use;
  }

  // ----- energy -----

  /** At one price for all slots a greedy plan costs that price for every kilowatt hour it states. */
  lemma GreedyPlanPriced(
    slots: seq<TimeSlot>, ordered: seq<Job>, plan: SchedulePlan, owners: seq<Job>, skipped: seq<Job>, price: real)
    requires GreedyPlan(slots, ordered, plan, owners, skipped) && UniqueSlots(slots)
    requires forall s :: s in slots ==> s.pricePerKwh == price
    ensures plan.estimatedCost == price * plan.energyIntentKwh
  {
    hide Owned, OwnedCost, OwnedEnergy, NeverOverdrawn, UniqueSlots;
    OwnedPriced(slots, owners, plan.allocations, price);
  }

  lemma {:induction false} OwnedPriced(
    slots: seq<TimeSlot>, owners: seq<Job>, allocations: seq<Allocation>, price: real)
    requires Owned(slots, owners, allocations) && forall s :: s in slots ==> s.pricePerKwh == price
    ensures OwnedCost(slots, owners, allocations) == price * OwnedEnergy(slots, owners, allocations)
  {
    hide Booked, AllocationTotals, AllocationEnergy;
    if |owners| == 0 {
    } else {
      var m := |owners| - 1;
      OwnedPriced(slots, owners[..m], allocations[..m], price);
      AllocationPriced(slots, owners[m], allocations[m].slotIndices, price);
      Distributes(price, OwnedEnergy(slots, owners[..m], allocations[..m]),
                  AllocationEnergy(slots, owners[m], allocations[m].slotIndices));
    }
  }

  lemma {:induction false} AllocationPriced(slots: seq<TimeSlot>, job: Job, indices: seq<int>, price: real)
    requires forall s :: s in slots ==> s.pricePerKwh == price
    ensures AllocationTotals(slots, job, job.request.gpuCount, indices).cost
            == price * AllocationEnergy(slots, job, indices)
  {
    hide SlotTotals, Energy, SlotByIndex, Indices, AllocationTotals, AllocationEnergy;
    if |indices| == 0 {
      LastSlot(slots, job, job.request.gpuCount, indices, 0);
      LastSlotEnergy(slots, job, indices, 0);
      assert indices == [];
    } else {
      var front, i := indices[..|indices| - 1], indices[|indices| - 1];
      AllocationPriced(slots, job, front, price);
      assert indices == front + [i];
      LastSlot(slots, job, job.request.gpuCount, front, i);
      LastSlotEnergy(slots, job, front, i);
      var slot := SlotByIndex(slots, i);
      if slot.Some? {
        SlotPriced(slot.value, job);
        Distributes(price, AllocationEnergy(slots, job, front), Energy(slot.value, job, job.request.gpuCount));
      }
    }
  }

  lemma LastSlotEnergy(slots: seq<TimeSlot>, job: Job, front: seq<int>, i: int)
    ensures AllocationEnergy(slots, job, []) == 0.0
    ensures var slot := SlotByIndex(slots, i);
            AllocationEnergy(slots, job, front + [i])
            == AllocationEnergy(slots, job, front)
               + if slot.Some? then Energy(slot.value, job, job.request.gpuCount) else 0.0
  {
    hide Energy, SlotByIndex;
    assert (front + [i])[..|front|] == front;
  }

  lemma SlotPriced(slot: TimeSlot, job: Job)
    ensures SlotTotals(slot, job, job.request.gpuCount).cost
            == slot.pricePerKwh * Energy(slot, job, job.request.gpuCount)
  {
    hide Energy;
  }

  lemma Distributes(price: real, a: real, b: real)
    ensures price * (a + b) == price * a + price * b
  {
  }

  // ----- greedy plans are accepted -----

  lemma OwnerKnown(ordered: seq<Job>, jobs: seq<Job>, owners: seq<Job>, skipped: seq<Job>, k: nat)
    requires multiset(owners) + multiset(skipped) == multiset(ordered) == multiset(jobs) && k < |owners|
    ensures owners[k] in jobs
  {
    assert owners[k] in multiset(owners);
    assert owners[k] in multiset(jobs);
  }

  lemma DistinctCount(jobs: seq<Job>, i: nat, j: nat, owners: seq<Job>)
    requires DistinctJobIds(jobs) && multiset(owners) <= multiset(jobs) && i < j < |owners|
    ensures owners[i].id != owners[j].id
  {
    assert owners[i] in multiset(owners) && owners[j] in multiset(owners);
    assert owners[i] in jobs && owners[j] in jobs;
    if owners[i] == owners[j] {
      Twice(owners, i, j);
      OnceIn(jobs, owners[i]);
      assert false;
    }
    var a :| 0 <= a < |jobs| && jobs[a] == owners[i];
    var b :| 0 <= b < |jobs| && jobs[b] == owners[j];
    assert a != b;
  }

  lemma {:induction false} OnceIn(jobs: seq<Job>, job: Job)
    requires DistinctJobIds(jobs)
    ensures multiset(jobs)[job] <= 1
  {
    if |jobs| == 0 {
    } else {
      var front, last := jobs[..|jobs| - 1], jobs[|jobs| - 1];
      OnceIn(front, job);
      assert jobs == front + [last];
      forall i | 0 <= i < |front|
        ensures front[i] != last
      {
        assert jobs[i].id != jobs[|jobs| - 1].id;
      }
    }
  }

  /** The validator accepts every greedy plan. */
  lemma GreedyAccepted(
    request: ScheduleInput, ordered: seq<Job>, plan: SchedulePlan, owners: seq<Job>, skipped: seq<Job>)
    requires GreedyPlan(request.slots, ordered, plan, owners, skipped)
    requires Aligned(request.slots) && DistinctJobIds(request.jobs) && multiset(ordered) == multiset(request.jobs)
    ensures PlanFits(request, plan.allocations)
  {
    hide Use, OwnedCost, OwnedEnergy, CapacityTable, DistinctJobIds, Increasing, Distinct, Consecutive, Chronological,
      Needed;
    var all := plan.allocations;
    AlignedUnique(request.slots);
    forall i, j | 0 <= i < j < |all|
      ensures all[i].jobId != all[j].jobId
    {
      DistinctCount(request.jobs, i, j, owners);
    }
    forall k | 0 <= k < |all|
      ensures AllocationFits(request, all, all[k])
    {
      OwnerKnown(ordered, request.jobs, owners, skipped, k);
      FindOwner(request.jobs, owners[k]);
      forall i | i in all[k].slotIndices
        ensures TimelySlot(request.slots, owners[k].sla.deadline, i)
        ensures Use(all, i) <= SlotAt(request.slots, i).gpuCapacity
      {
        assert OpenIndex(request.slots, owners[k], i);
        assert request.slots[i] in request.slots;
        TableAt(request.slots, i);
      }
    }
  }

  lemma FindOwner(jobs: seq<Job>, job: Job)
    requires DistinctJobIds(jobs) && job in jobs
    ensures FindJob(jobs, job.id) == Some(job)
  {
    var i :| 0 <= i < |jobs| && jobs[i] == job;
    FindJobDistinct(jobs, i);
  }

  /** The cost a greedy plan states is the energy cost the objectives recompute. */
  lemma {:induction false} CostRecomputed(request: ScheduleInput, owners: seq<Job>, allocations: seq<Allocation>)
    requires DistinctJobIds(request.jobs) && |owners| == |allocations|
    requires forall k :: 0 <= k < |owners| ==>
               && owners[k] in request.jobs
               && allocations[k].jobId == owners[k].id
    ensures PlanTotals(request, allocations).cost == OwnedCost(request.slots, owners, allocations)
  {
    hide DistinctJobIds, AllocationTotals;
    if |owners| == 0 {
    } else {
      var m := |owners| - 1;
      CostRecomputed(request, owners[..m], allocations[..m]);
      FindOwner(request.jobs, owners[m]);
    }
  }

  // ----- the three strategies -----

  lemma OrderedPermutes(le: (Job, Job) -> bool, jobs: seq<Job>)
    ensures multiset(Sort(le, jobs)) == multiset(jobs)
  {
    SortPermutes(le, jobs);
  }

  /** The order in which the jobs are served: first come first served, with the id deciding between jobs submitted at
      once; and by falling priority, then by deadline, then by id. */
  lemma OrdersSort(jobs: seq<Job>, i: nat, j: nat)
    requires i < j < |jobs|
    ensures |Sort(FifoLe, jobs)| == |Sort(PriorityEdfLe, jobs)| == |jobs|
    ensures var a, b := Sort(FifoLe, jobs)[i], Sort(FifoLe, jobs)[j];
            && a.submittedAt <= b.submittedAt
            && (a.submittedAt == b.submittedAt ==> Alphabetical(a.id, b.id))
    ensures var a, b := Sort(PriorityEdfLe, jobs)[i], Sort(PriorityEdfLe, jobs)[j];
            && a.sla.priority >= b.sla.priority
            && (a.sla.priority == b.sla.priority ==> a.sla.deadline <= b.sla.deadline)
            && (a.sla.priority == b.sla.priority && a.sla.deadline == b.sla.deadline ==> Alphabetical(a.id, b.id))
  {
    hide Sort, Alphabetical, StringLe;
    JobOrders();
    SortSorts(FifoLe, jobs);
    SortSorts(PriorityEdfLe, jobs);
    SortPermutes(FifoLe, jobs);
    SortPermutes(PriorityEdfLe, jobs);
    StringLeIsAlphabetical(Sort(FifoLe, jobs)[i].id, Sort(FifoLe, jobs)[j].id);
    StringLeIsAlphabetical(Sort(PriorityEdfLe, jobs)[i].id, Sort(PriorityEdfLe, jobs)[j].id);
  }

  lemma JobOrders()
    ensures TotalPreorder(FifoLe) && TotalPreorder(PriorityEdfLe)
  {
    forall a: Job, b: Job
      ensures FifoLe(a, b) || FifoLe(b, a)
      ensures PriorityEdfLe(a, b) || PriorityEdfLe(b, a)
    {
      StringLeTotal(a.id, b.id);
    }
    forall a: Job, b: Job, c: Job
      ensures FifoLe(a, b) && FifoLe(b, c) ==> FifoLe(a, c)
      ensures PriorityEdfLe(a, b) && PriorityEdfLe(b, c) ==> PriorityEdfLe(a, c)
    {
      if StringLe(a.id, b.id) && StringLe(b.id, c.id) {
        StringLeTransitive(a.id, b.id, c.id);
      }
    }
  }

  method ScheduleFifo(request: ScheduleInput)
    returns (plan: Option<SchedulePlan>, ghost owners: seq<Job>, ghost skipped: seq<Job>)
    ensures plan.Some? ==> GreedyPlan(request.slots, Sort(FifoLe, request.jobs), plan.value, owners, skipped)
    ensures plan.Some? ==> Follows(request, Sort(FifoLe, request.jobs), "FIFO", false, plan.value)
    ensures plan.None? <==> Fails(request, Sort(FifoLe, request.jobs), "FIFO", false)
    ensures plan.Some? ==> Recomputable(request, plan.value) && PlanFits(request, plan.value.allocations)
    ensures plan.None? ==> Irregular(request)
  {
    hide Follows, PlanFits, Irregular, GreedyPlan, Recomputable, Sort, Fails;
    OrderedPermutes(FifoLe, request.jobs);
    plan, owners, skipped := Schedule(request, Sort(FifoLe, request.jobs), "fifo", "FIFO", false);
    if plan.Some? { GreedyRecomputable(request, Sort(FifoLe, request.jobs), plan.value, owners, skipped); }
  }

  method SchedulePriorityEdf(request: ScheduleInput)
    returns (plan: Option<SchedulePlan>, ghost owners: seq<Job>, ghost skipped: seq<Job>)
    ensures plan.Some? ==> GreedyPlan(request.slots, Sort(PriorityEdfLe, request.jobs), plan.value, owners, skipped)
    ensures plan.Some? ==> Follows(request, Sort(PriorityEdfLe, request.jobs), "PRIORITY_EDF", false, plan.value)
    ensures plan.None? <==> Fails(request, Sort(PriorityEdfLe, request.jobs), "PRIORITY_EDF", false)
    ensures plan.Some? ==> Recomputable(request, plan.value) && PlanFits(request, plan.value.allocations)
    ensures plan.None? ==> Irregular(request)
  {
    hide Follows, PlanFits, Irregular, GreedyPlan, Recomputable, Sort, Fails;
    OrderedPermutes(PriorityEdfLe, request.jobs);
    plan, owners, skipped :=
      Schedule(request, Sort(PriorityEdfLe, request.jobs), "priority_edf", "PRIORITY_EDF", false);
    if plan.Some? { GreedyRecomputable(request, Sort(PriorityEdfLe, request.jobs), plan.value, owners, skipped); }
  }

  method SchedulePriceAware(request: ScheduleInput)
    returns (plan: Option<SchedulePlan>, ghost owners: seq<Job>, ghost skipped: seq<Job>)
    ensures plan.Some? ==> GreedyPlan(request.slots, Sort(PriorityEdfLe, request.jobs), plan.value, owners, skipped)
    ensures plan.Some? ==> Follows(request, Sort(PriorityEdfLe, request.jobs), "PRICE_AWARE", true, plan.value)
    ensures plan.None? <==> Fails(request, Sort(PriorityEdfLe, request.jobs), "PRICE_AWARE", true)
    ensures plan.Some? ==> Recomputable(request, plan.value) && PlanFits(request, plan.value.allocations)
    ensures plan.None? ==> Irregular(request)
  {
    hide Follows, PlanFits, Irregular, GreedyPlan, Recomputable, Sort, Fails;
    OrderedPermutes(PriorityEdfLe, request.jobs);
    plan, owners, skipped := Schedule(request, Sort(PriorityEdfLe, request.jobs), "price_aware", "PRICE_AWARE", true);
    if plan.Some? { GreedyRecomputable(request, Sort(PriorityEdfLe, request.jobs), plan.value, owners, skipped); }
  }

  ghost predicate Recomputable(request: ScheduleInput, plan: SchedulePlan) {
    UniqueSlots(request.slots) && DistinctJobIds(request.jobs) ==>
      plan.estimatedCost == PlanTotals(request, plan.allocations).cost
  }

  lemma GreedyRecomputable(
    request: ScheduleInput, ordered: seq<Job>, plan: SchedulePlan, owners: seq<Job>, skipped: seq<Job>)
    requires GreedyPlan(request.slots, ordered, plan, owners, skipped) && multiset(ordered) == multiset(request.jobs)
    ensures Recomputable(request, plan)
  {
    hide UniqueSlots, DistinctJobIds, PlanTotals, OwnedCost, OwnedEnergy, NeverOverdrawn, Booked;
    if UniqueSlots(request.slots) && DistinctJobIds(request.jobs) {
      forall k | 0 <= k < |owners|
        ensures owners[k] in request.jobs
      {
        OwnerKnown(ordered, request.jobs, owners, skipped, k);
      }
      CostRecomputed(request, owners, plan.allocations);
    }
  }
}
