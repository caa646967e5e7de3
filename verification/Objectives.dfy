/** The independent cost recomputation of packages/optimization/objectives.py. */
module Objectives {
  import opened Wrappers
  import opened Contracts

  datatype ObjectiveWeights = ObjectiveWeights(energyCost: real, carbon: real, delay: real)

  datatype ObjectiveBreakdown = ObjectiveBreakdown(
    energyCost: real,
    carbonKg: real,
    delayHours: real,
    weightedTotal: real)

  /** Lookup of a slot by index: a later slot with the same index wins. */
  function SlotByIndex(slots: seq<TimeSlot>, i: int): (found: Option<TimeSlot>)
    ensures found.Some? <==> i in Indices(slots)
    ensures found.Some? ==> found.value in slots && found.value.index == i
  {
    if |slots| == 0 then None
    else if slots[|slots| - 1].index == i then
      assert slots[|slots| - 1] in slots;
      Some(slots[|slots| - 1])
    else
      var found := SlotByIndex(slots[..|slots| - 1], i);
      assert slots == slots[..|slots| - 1] + [slots[|slots| - 1]];
      found
  }

  function Energy(slot: TimeSlot, job: Job, gpus: nat): real {
    slot.durationHours * gpus as real * job.request.powerKwPerGpu
  }

  /** Hours a job waits for one of its slots; instants count seconds. */
  function Delay(slot: TimeSlot, job: Job): real {
    var hours := (slot.startsAt - job.submittedAt) as real / 3600.0;
    if hours < 0.0 then 0.0 else hours
  }

  /** The three objectives, each summed over one allocation's slots. */
  datatype Totals = Totals(cost: real, carbon: real, delay: real)

  function SlotTotals(slot: TimeSlot, job: Job, gpus: nat): Totals {
    var energy := Energy(slot, job, gpus);
    Totals(energy * slot.pricePerKwh, energy * slot.carbonKgPerKwh, Delay(slot, job))
  }

  function Plus(a: Totals, b: Totals): Totals {
    Totals(a.cost + b.cost, a.carbon + b.carbon, a.delay + b.delay)
  }

  ghost predicate Known(request: ScheduleInput, a: Allocation) {
    FindJob(request.jobs, a.jobId).Some? && forall i :: i in a.slotIndices ==> i in Indices(request.slots)
  }

  ghost function AllocationTotals(slots: seq<TimeSlot>, job: Job, gpus: nat, indices: seq<int>): Totals {
    if |indices| == 0 then Totals(0.0, 0.0, 0.0)
    else
      var slot := SlotByIndex(slots, indices[|indices| - 1]);
      var rest := AllocationTotals(slots, job, gpus, indices[..|indices| - 1]);
      if slot.Some? then Plus(rest, SlotTotals(slot.value, job, gpus)) else rest
  }

  ghost function PlanTotals(request: ScheduleInput, allocations: seq<Allocation>): Totals {
    if |allocations| == 0 then Totals(0.0, 0.0, 0.0)
    else
      var a := allocations[|allocations| - 1];
      var rest := PlanTotals(request, allocations[..|allocations| - 1]);
      var job := FindJob(request.jobs, a.jobId);
      if job.Some? then Plus(rest, AllocationTotals(request.slots, job.value, a.gpuCount, a.slotIndices)) else rest
  }

  /** `None` stands for the KeyError of an unknown job or slot. */
  method EvaluateObjectives(request: ScheduleInput, allocations: seq<Allocation>, weights: ObjectiveWeights)
    returns (r: Option<ObjectiveBreakdown>)
    ensures r.Some? <==> forall k :: 0 <= k < |allocations| ==> Known(request, allocations[k])
    ensures r.Some? ==>
              var t := PlanTotals(request, allocations);
              && r.value.energyCost == t.cost && r.value.carbonKg == t.carbon && r.value.delayHours == t.delay
              && r.value.weightedTotal ==
                 t.cost * weights.energyCost + t.carbon * weights.carbon + t.delay * weights.delay
  {
    hide Indices, SlotTotals, AllocationTotals;
    var totals := Totals(0.0, 0.0, 0.0);
    for k := 0 to |allocations|
      invariant totals == PlanTotals(request, allocations[..k])
      invariant forall j :: 0 <= j < k ==> Known(request, allocations[j])
    {
      var a := allocations[k];
      assert allocations[..k + 1][..k] == allocations[..k];
      var job := FindJob(request.jobs, a.jobId);
      if job.None? {
        return None;
      }
      var sum := SumAllocation(request.slots, job.value, a.gpuCount, a.slotIndices, totals);
      if sum.None? {
        return None;
      }
      totals := sum.value;
    }
    assert allocations[..|allocations|] == allocations;
    return Some(ObjectiveBreakdown(
      totals.cost, totals.carbon, totals.delay,
      totals.cost * weights.energyCost + totals.carbon * weights.carbon + totals.delay * weights.delay));
  }

  /** The inner loop: add one allocation's slots to the running totals. */
  method SumAllocation(slots: seq<TimeSlot>, job: Job, gpus: nat, indices: seq<int>, before: Totals)
    returns (r: Option<Totals>)
    ensures r.Some? <==> forall i :: i in indices ==> i in Indices(slots)
    ensures r.Some? ==> r.value == Plus(before, AllocationTotals(slots, job, gpus, indices))
  {
    hide Indices, SlotTotals;
    var totals := before;
    for n := 0 to |indices|
      invariant totals == Plus(before, AllocationTotals(slots, job, gpus, indices[..n]))
      invariant forall i :: i in indices[..n] ==> i in Indices(slots)
    {
      var i := indices[n];
      assert indices[..n + 1] == indices[..n] + [i];
      assert indices[..n + 1][..n] == indices[..n];
      var slot := SlotByIndex(slots, i);
      if slot.None? {
        assert i in indices;
        return None;
      }
      totals := Plus(totals, SlotTotals(slot.value, job, gpus));
    }
    assert indices[..|indices|] == indices;
    return Some(totals);
  }

  // ----- what the totals are -----

  const Nothing := Totals(0.0, 0.0, 0.0)

  lemma PlusLaws(a: Totals, b: Totals, c: Totals)
    ensures Plus(a, Plus(b, c)) == Plus(Plus(a, b), c)
    ensures Plus(a, Nothing) == a
  {
  }

  lemma LastSlot(slots: seq<TimeSlot>, job: Job, gpus: nat, front: seq<int>, i: int)
    ensures AllocationTotals(slots, job, gpus, []) == Nothing
    ensures var slot := SlotByIndex(slots, i);
            AllocationTotals(slots, job, gpus, front + [i])
            == Plus(AllocationTotals(slots, job, gpus, front),
                    if slot.Some? then SlotTotals(slot.value, job, gpus) else Nothing)
  {
    hide SlotTotals, SlotByIndex;
    assert (front + [i])[..|front|] == front;
  }

  /** An allocation is charged slot by slot. */
  lemma {:induction false} SlotsAdd(slots: seq<TimeSlot>, job: Job, gpus: nat, front: seq<int>, back: seq<int>)
    ensures AllocationTotals(slots, job, gpus, front + back)
            == Plus(AllocationTotals(slots, job, gpus, front), AllocationTotals(slots, job, gpus, back))
  {
    hide SlotTotals, SlotByIndex, AllocationTotals, Plus;
    if |back| == 0 {
      assert front + back == front && back == [];
      LastSlot(slots, job, gpus, front, 0);
      PlusLaws(AllocationTotals(slots, job, gpus, front), Nothing, Nothing);
    } else {
      var rest, i := back[..|back| - 1], back[|back| - 1];
      SlotsAdd(slots, job, gpus, front, rest);
      LastSlot(slots, job, gpus, rest, i);
      LastSlot(slots, job, gpus, front + rest, i);
      assert back == rest + [i] && front + back == front + rest + [i];
      var slot := SlotByIndex(slots, i);
      PlusLaws(AllocationTotals(slots, job, gpus, front), AllocationTotals(slots, job, gpus, rest),
               if slot.Some? then SlotTotals(slot.value, job, gpus) else Nothing);
    }
  }

  lemma LastAllocation(request: ScheduleInput, front: seq<Allocation>, a: Allocation)
    ensures var job := FindJob(request.jobs, a.jobId);
            PlanTotals(request, front + [a])
            == Plus(PlanTotals(request, front),
                    if job.Some? then AllocationTotals(request.slots, job.value, a.gpuCount, a.slotIndices)
                    else Nothing)
  {
    hide AllocationTotals, FindJob;
    assert (front + [a])[..|front|] == front;
  }

  /** A plan is charged allocation by allocation. */
  lemma {:induction false} AllocationsAdd(request: ScheduleInput, front: seq<Allocation>, back: seq<Allocation>)
    ensures PlanTotals(request, front + back) == Plus(PlanTotals(request, front), PlanTotals(request, back))
  {
    hide AllocationTotals, FindJob, PlanTotals, Plus;
    if |back| == 0 {
      assert front + back == front && back == [];
      PlusLaws(PlanTotals(request, front), Nothing, Nothing);
      NoAllocation(request);
    } else {
      var rest, a := back[..|back| - 1], back[|back| - 1];
      AllocationsAdd(request, front, rest);
      LastAllocation(request, rest, a);
      LastAllocation(request, front + rest, a);
      assert back == rest + [a] && front + back == front + rest + [a];
      var job := FindJob(request.jobs, a.jobId);
      PlusLaws(PlanTotals(request, front), PlanTotals(request, rest),
               if job.Some? then AllocationTotals(request.slots, job.value, a.gpuCount, a.slotIndices) else Nothing);
    }
  }

  lemma NoAllocation(request: ScheduleInput)
    ensures PlanTotals(request, []) == Nothing
  {
  }

  /** What one slot of one allocation adds: the energy of its GPUs, priced and weighed with the slot's carbon, and the
      hours the job has waited by then. With the two lemmas above this settles the totals of every plan. */
  lemma OneSlotCharge(request: ScheduleInput, a: Allocation, job: Job, slot: TimeSlot)
    requires FindJob(request.jobs, a.jobId) == Some(job)
    requires UniqueSlots(request.slots) && slot in request.slots && a.slotIndices == [slot.index]
    ensures var kwh := slot.durationHours * a.gpuCount as real * job.request.powerKwPerGpu;
            var waited := slot.startsAt - job.submittedAt;
            PlanTotals(request, [a]) ==
              Totals(kwh * slot.pricePerKwh, kwh * slot.carbonKgPerKwh,
                     if waited <= 0 then 0.0 else waited as real / 3600.0)
  {
    hide AllocationTotals, PlanTotals, FindJob, SlotByIndex;
    UniqueByIndex(request.slots, slot);
    LastSlot(request.slots, job, a.gpuCount, [], slot.index);
    LastAllocation(request, [], a);
    NoAllocation(request);
    assert [] + [slot.index] == a.slotIndices && [] + [a] == [a];
  }

  lemma UniqueByIndex(slots: seq<TimeSlot>, slot: TimeSlot)
    requires UniqueSlots(slots) && slot in slots
    ensures SlotByIndex(slots, slot.index) == Some(slot)
  {
    var found := SlotByIndex(slots, slot.index).value;
    var i :| 0 <= i < |slots| && slots[i] == slot;
    var j :| 0 <= j < |slots| && slots[j] == found;
    assert i == j;
  }
}
