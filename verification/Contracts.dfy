/** The scheduling records and the plan validator of packages/scheduling/contracts.py.

    Decimal amounts are `real`, instants are `int`, and a slot number inside an allocation is
    looked up the way Python indexes a tuple, so a slot's `index` and its position may differ. */
module Contracts {
  import opened Wrappers

  type Hours = h: real | h > 0.0 witness 1.0

  datatype ResourceRequest = ResourceRequest(gpuCount: nat, estimatedHours: Hours, powerKwPerGpu: real)

  datatype Sla = Sla(deadline: int, priority: int)

  datatype Job = Job(id: string, request: ResourceRequest, sla: Sla, submittedAt: int, checkpointable: bool)

  datatype TimeSlot = TimeSlot(
    index: int,
    startsAt: int,
    durationHours: real,
    gpuCapacity: int,
    powerCapacityKw: real,
    pricePerKwh: real,
    carbonKgPerKwh: real)

  datatype ScheduleInput = ScheduleInput(jobs: seq<Job>, slots: seq<TimeSlot>)

  datatype Allocation = Allocation(jobId: string, slotIndices: seq<int>, gpuCount: nat, reasonCode: string)

  /** `inputHash` stands for the request it is the digest of. */
  datatype SchedulePlan = SchedulePlan(
    strategy: string,
    allocations: seq<Allocation>,
    unscheduled: seq<string>,
    energyIntentKwh: real,
    estimatedCost: real,
    assumptions: seq<string>,
    violations: seq<string>,
    inputHash: ScheduleInput)

  predicate DistinctJobIds(jobs: seq<Job>) {
    forall i, j :: 0 <= i < j < |jobs| ==> jobs[i].id != jobs[j].id
  }

  predicate UniqueSlots(slots: seq<TimeSlot>) {
    forall i, j :: 0 <= i < j < |slots| ==> slots[i].index != slots[j].index
  }

  /** Every slot sits at the position its index names. */
  predicate Aligned(slots: seq<TimeSlot>) {
    forall i :: 0 <= i < |slots| ==> slots[i].index == i
  }

  lemma AlignedUnique(slots: seq<TimeSlot>)
    requires Aligned(slots)
    ensures UniqueSlots(slots)
  {
  }

  lemma AlignedCapacity(slots: seq<TimeSlot>, s: int)
    requires Aligned(slots) && 0 <= s < |slots|
    ensures s in CapacityTable(slots) && CapacityTable(slots)[s] == slots[s].gpuCapacity
  {
    assert slots[s] in slots;
  }

  predicate InRange(slots: seq<TimeSlot>, i: int) {
    -|slots| <= i < |slots|
  }

  /** Indexing as Python does it, negative positions counted from the end. */
  function SlotAt(slots: seq<TimeSlot>, i: int): TimeSlot
    requires InRange(slots, i)
  {
    if 0 <= i then slots[i] else slots[|slots| + i]
  }

  function Indices(slots: seq<TimeSlot>): set<int> {
    set s | s in slots :: s.index
  }

  /** GPU capacity by slot index: a later slot with the same index wins. */
  function CapacityTable(slots: seq<TimeSlot>): (table: map<int, int>)
    ensures table.Keys == Indices(slots)
    ensures UniqueSlots(slots) ==> forall s :: s in slots ==> s.index in table && table[s.index] == s.gpuCapacity
  {
    if |slots| == 0 then map[] else
      var last := slots[|slots| - 1];
      assert slots == slots[..|slots| - 1] + [last];
      CapacityTable(slots[..|slots| - 1])[last.index := last.gpuCapacity]
  }

  /** Lookup of a job by id: a later job with the same id wins. */
  function FindJob(jobs: seq<Job>, id: string): (found: Option<Job>)
    ensures found.Some? ==> found.value in jobs && found.value.id == id
    ensures found.None? ==> forall job :: job in jobs ==> job.id != id
  {
    if |jobs| == 0 then None
    else if jobs[|jobs| - 1].id == id then Some(jobs[|jobs| - 1])
    else FindJob(jobs[..|jobs| - 1], id)
  }

  lemma FindJobDistinct(jobs: seq<Job>, i: nat)
    requires i < |jobs| && DistinctJobIds(jobs)
    ensures FindJob(jobs, jobs[i].id) == Some(jobs[i])
  {
    var found := FindJob(jobs, jobs[i].id);
    assert found.Some?;
    var j :| 0 <= j < |jobs| && jobs[j] == found.value;
    if j < i { assert jobs[j].id != jobs[i].id; }
    if i < j { assert jobs[i].id != jobs[j].id; }
  }

  /** GPUs that one job with this slot list takes from slot `i`. */
  function Load(slotIndices: seq<int>, gpus: nat, i: int): nat {
    if |slotIndices| == 0 then 0
    else Load(slotIndices[..|slotIndices| - 1], gpus, i) + if slotIndices[|slotIndices| - 1] == i then gpus else 0
  }

  lemma {:induction false} LoadPrefix(slotIndices: seq<int>, gpus: nat, i: int, k: nat)
    requires k <= |slotIndices|
    ensures Load(slotIndices[..k], gpus, i) <= Load(slotIndices, gpus, i)
  {
    if k == |slotIndices| {
      assert slotIndices[..k] == slotIndices;
    } else {
      var front := slotIndices[..|slotIndices| - 1];
      LoadPrefix(front, gpus, i, k);
      assert front[..k] == slotIndices[..k];
    }
  }

  predicate Distinct(s: seq<int>) {
    forall i, j :: 0 <= i < j < |s| ==> s[i] != s[j]
  }

  lemma {:induction false} LoadDistinct(slotIndices: seq<int>, gpus: nat, i: int)
    requires Distinct(slotIndices)
    ensures Load(slotIndices, gpus, i) == if i in slotIndices then gpus else 0
  {
    if |slotIndices| == 0 {
    } else {
      var front := slotIndices[..|slotIndices| - 1];
      LoadDistinct(front, gpus, i);
      assert slotIndices == front + [slotIndices[|slotIndices| - 1]];
    }
  }

  /** GPUs that a list of allocations takes from slot `i`. */
  function Use(allocations: seq<Allocation>, i: int): nat {
    if |allocations| == 0 then 0
    else
      var last := allocations[|allocations| - 1];
      Use(allocations[..|allocations| - 1], i) + Load(last.slotIndices, last.gpuCount, i)
  }

  lemma {:induction false} UsePrefix(allocations: seq<Allocation>, i: int, k: nat)
    requires k <= |allocations|
    ensures Use(allocations[..k], i) <= Use(allocations, i)
  {
    if k == |allocations| {
      assert allocations[..k] == allocations;
    } else {
      var front := allocations[..|allocations| - 1];
      UsePrefix(front, i, k);
      assert front[..k] == allocations[..k];
    }
  }

  predicate OncePerJob(allocations: seq<Allocation>) {
    forall i, j :: 0 <= i < j < |allocations| ==> allocations[i].jobId != allocations[j].jobId
  }

  predicate TimelySlot(slots: seq<TimeSlot>, deadline: int, i: int) {
    InRange(slots, i) && i in Indices(slots) && SlotAt(slots, i).startsAt < deadline
  }

  /** One allocation names a known job and only known slots that start before the job's deadline. */
  predicate Timely(request: ScheduleInput, a: Allocation) {
    && FindJob(request.jobs, a.jobId).Some?
    && forall i :: i in a.slotIndices ==>
         TimelySlot(request.slots, FindJob(request.jobs, a.jobId).value.sla.deadline, i)
  }

  /** A timely allocation whose slots can hold everything the whole plan puts there. */
  predicate AllocationFits(request: ScheduleInput, all: seq<Allocation>, a: Allocation) {
    && Timely(request, a)
    && forall i :: i in a.slotIndices ==> Use(all, i) <= SlotAt(request.slots, i).gpuCapacity
  }

  predicate PlanFits(request: ScheduleInput, allocations: seq<Allocation>) {
    && OncePerJob(allocations)
    && forall k :: 0 <= k < |allocations| ==> AllocationFits(request, allocations, allocations[k])
  }

  datatype Verdict = Valid | DuplicateJob | UnknownJob | UnknownSlot | OverCapacity | PastDeadline

  /** The fault a verdict names is really there, in the `k`-th allocation. */
  ghost predicate Blames(request: ScheduleInput, all: seq<Allocation>, k: int, verdict: Verdict)
    requires 0 <= k < |all|
  {
    match verdict
    case Valid => false
    case DuplicateJob => exists j :: 0 <= j < k && all[j].jobId == all[k].jobId
    case UnknownJob => FindJob(request.jobs, all[k].jobId).None?
    case UnknownSlot =>
      exists i :: i in all[k].slotIndices && !(InRange(request.slots, i) && i in Indices(request.slots))
    case OverCapacity => exists i ::
      i in all[k].slotIndices && InRange(request.slots, i) && Use(all, i) > SlotAt(request.slots, i).gpuCapacity
    case PastDeadline => exists i, job ::
      && i in all[k].slotIndices && InRange(request.slots, i)
      && FindJob(request.jobs, all[k].jobId) == Some(job)
      && SlotAt(request.slots, i).startsAt >= job.sla.deadline
  }

  /** Every slot charged so far still has room for its running total. */
  ghost predicate Roomy(request: ScheduleInput, used: map<int, int>, touched: set<int>) {
    forall i :: i in touched ==>
      InRange(request.slots, i) && i in used && used[i] <= SlotAt(request.slots, i).gpuCapacity
  }

  /** A slot's running total never exceeds what the whole plan puts there. */
  lemma RunningTotal(allocations: seq<Allocation>, k: nat, n: nat, i: int)
    requires k < |allocations| && n <= |allocations[k].slotIndices|
    ensures Use(allocations[..k], i) + Load(allocations[k].slotIndices[..n], allocations[k].gpuCount, i)
            <= Use(allocations[..k + 1], i) <= Use(allocations, i)
  {
    assert allocations[..k + 1][..k] == allocations[..k];
    LoadPrefix(allocations[k].slotIndices, allocations[k].gpuCount, i, n);
    UsePrefix(allocations, i, k + 1);
  }

  /** Accepts exactly the plans that fit, judging every slot by what the whole plan puts there even though
      the walk compares running totals only. */
  method ValidatePlan(request: ScheduleInput, allocations: seq<Allocation>) returns (verdict: Verdict)
    ensures verdict == Valid <==> PlanFits(request, allocations)
    ensures verdict != Valid ==> exists k :: 0 <= k < |allocations| && Blames(request, allocations, k, verdict)
  {
    var used: map<int, int> := map i | i in Indices(request.slots) :: 0;
    var placed: set<string> := {};
    ghost var touched: set<int> := {};
    var k := 0;
    while k < |allocations|
      invariant 0 <= k <= |allocations|
      invariant used.Keys == Indices(request.slots)
      invariant placed == set j | 0 <= j < k :: allocations[j].jobId
      invariant OncePerJob(allocations[..k])
      invariant forall i :: i in used ==> used[i] == Use(allocations[..k], i)
      invariant Roomy(request, used, touched)
      invariant forall j :: 0 <= j < k ==>
        Timely(request, allocations[j]) && forall i :: i in allocations[j].slotIndices ==> i in touched
    {
      var a := allocations[k];
      assert allocations[..k + 1] == allocations[..k] + [a];
      if a.jobId in placed {
        assert Blames(request, allocations, k, DuplicateJob);
        return DuplicateJob;
      }
      placed := placed + {a.jobId};
      var job := FindJob(request.jobs, a.jobId);
      if job.None? {
        assert !AllocationFits(request, allocations, a) && Blames(request, allocations, k, UnknownJob);
        return UnknownJob;
      }
      verdict, used, touched := WalkAllocation(request, allocations, k, job.value, used, touched);
      if verdict != Valid {
        return;
      }
      k := k + 1;
    }
    assert allocations[..k] == allocations;
    return Valid;
  }

  /** The inner loop: charge one allocation's slots, stopping at the first that does not fit. */
  method WalkAllocation(
    request: ScheduleInput, allocations: seq<Allocation>, k: nat, job: Job, before: map<int, int>,
    ghost touchedBefore: set<int>) returns (verdict: Verdict, used: map<int, int>, ghost touched: set<int>)
    requires k < |allocations|
    requires FindJob(request.jobs, allocations[k].jobId) == Some(job)
    requires before.Keys == Indices(request.slots)
    requires forall i :: i in before ==> before[i] == Use(allocations[..k], i)
    requires Roomy(request, before, touchedBefore)
    ensures verdict != Valid ==> !AllocationFits(request, allocations, allocations[k])
    ensures verdict != Valid ==> Blames(request, allocations, k, verdict)
    ensures verdict == Valid ==>
              && used.Keys == before.Keys
              && (forall i :: i in used ==> used[i] == Use(allocations[..k + 1], i))
              && touchedBefore <= touched
              && Roomy(request, used, touched)
              && Timely(request, allocations[k])
              && forall i :: i in allocations[k].slotIndices ==> i in touched
  {
    var a := allocations[k];
    used, touched := before, touchedBefore;
    var n := 0;
    while n < |a.slotIndices|
      invariant 0 <= n <= |a.slotIndices|
      invariant used.Keys == before.Keys
      invariant forall i :: i in used ==> used[i] == before[i] + Load(a.slotIndices[..n], a.gpuCount, i)
      invariant touchedBefore <= touched && Roomy(request, used, touched)
      invariant forall i :: i in a.slotIndices[..n] ==>
        i in touched && TimelySlot(request.slots, job.sla.deadline, i)
    {
      var i := a.slotIndices[n];
      assert a.slotIndices[..n + 1] == a.slotIndices[..n] + [i];
      assert i in a.slotIndices;
      if !InRange(request.slots, i) || i !in used {
        return UnknownSlot, used, touched;
      }
      var slot := SlotAt(request.slots, i);
      RunningTotal(allocations, k, n + 1, i);
      if used[i] + a.gpuCount > slot.gpuCapacity {
        return OverCapacity, used, touched;
      }
      if slot.startsAt >= job.sla.deadline {
        return PastDeadline, used, touched;
      }
      used, touched := used[i := used[i] + a.gpuCount], touched + {i};
      n := n + 1;
    }
    assert a.slotIndices[..n] == a.slotIndices;
    assert allocations[..k + 1][..k] == allocations[..k];
    return Valid, used, touched;
  }
}
