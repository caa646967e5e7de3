/** Plans as stored documents: how packages/mpc/controller.py writes a plan out field by field and rebuilds it. */
module Documents {
  import opened Wrappers
  import opened Contracts

  datatype Json =
    | Null
    | Integer(number: int)
    | Decimal(amount: real)
    | Text(text: string)
    | Digest(input: ScheduleInput)
    | List(items: seq<Json>)
    | Object(fields: map<string, Json>)

  // ----- writing -----

  function Texts(values: seq<string>): Json {
    List(seq(|values|, i requires 0 <= i < |values| => Text(values[i])))
  }

  function Integers(values: seq<int>): Json {
    List(seq(|values|, i requires 0 <= i < |values| => Integer(values[i])))
  }

  function WriteAllocation(a: Allocation): Json {
    Object(map[
      "job_id" := Text(a.jobId),
      "slot_indices" := Integers(a.slotIndices),
      "gpu_count" := Integer(a.gpuCount),
      "reason_code" := Text(a.reasonCode)])
  }

  function WritePlan(p: SchedulePlan): Json {
    Object(map[
      "strategy" := Text(p.strategy),
      "allocations" := List(seq(|p.allocations|, i requires 0 <= i < |p.allocations| =>
        WriteAllocation(p.allocations[i]))),
      "unscheduled" := Texts(p.unscheduled),
      "energy_intent_kwh" := Decimal(p.energyIntentKwh),
      "estimated_cost" := Decimal(p.estimatedCost),
      "assumptions" := Texts(p.assumptions),
      "violations" := Texts(p.violations),
      "input_hash" := Digest(p.inputHash)])
  }

  // ----- reading: `None` is an exception -----

  function Field(j: Json, name: string): Option<Json> {
    if j.Object? && name in j.fields then Some(j.fields[name]) else None
  }

  function ReadText(j: Option<Json>): Option<string> {
    if j.Some? && j.value.Text? then Some(j.value.text) else None
  }

  function ReadInteger(j: Option<Json>): Option<int> {
    if j.Some? && j.value.Integer? then Some(j.value.number) else None
  }

  function ReadDecimal(j: Option<Json>): Option<real> {
    if j.Some? && j.value.Decimal? then Some(j.value.amount) else None
  }

  function ReadTexts(items: seq<Json>): Option<seq<string>> {
    if |items| == 0 then Some([])
    else
      var front, last := ReadTexts(items[..|items| - 1]), ReadText(Some(items[|items| - 1]));
      if front.Some? && last.Some? then Some(front.value + [last.value]) else None
  }

  function ReadIntegers(items: seq<Json>): Option<seq<int>> {
    if |items| == 0 then Some([])
    else
      var front, last := ReadIntegers(items[..|items| - 1]), ReadInteger(Some(items[|items| - 1]));
      if front.Some? && last.Some? then Some(front.value + [last.value]) else None
  }

  function ReadAllocation(j: Json): Option<Allocation> {
    var jobId, slots := ReadText(Field(j, "job_id")), Field(j, "slot_indices");
    var gpus, reason := ReadInteger(Field(j, "gpu_count")), ReadText(Field(j, "reason_code"));
    if jobId.None? || slots.None? || !slots.value.List? || gpus.None? || gpus.value < 0 || reason.None? then None
    else
      var indices := ReadIntegers(slots.value.items);
      if indices.None? then None else Some(Allocation(jobId.value, indices.value, gpus.value, reason.value))
  }

  function ReadAllocations(items: seq<Json>): Option<seq<Allocation>> {
    if |items| == 0 then Some([])
    else
      var front, last := ReadAllocations(items[..|items| - 1]), ReadAllocation(items[|items| - 1]);
      if front.Some? && last.Some? then Some(front.value + [last.value]) else None
  }

  /** A list of texts under a name. */
  function ReadTextsAt(j: Json, name: string): Option<seq<string>> {
    var list := Field(j, name);
    if list.Some? && list.value.List? then ReadTexts(list.value.items) else None
  }

  function ReadAllocationsAt(j: Json, name: string): Option<seq<Allocation>> {
    var list := Field(j, name);
    if list.Some? && list.value.List? then ReadAllocations(list.value.items) else None
  }

  function ReadPlan(j: Json): Option<SchedulePlan> {
    var strategy, placed := ReadText(Field(j, "strategy")), ReadAllocationsAt(j, "allocations");
    var left, hash := ReadTextsAt(j, "unscheduled"), Field(j, "input_hash");
    var energy, cost := ReadDecimal(Field(j, "energy_intent_kwh")), ReadDecimal(Field(j, "estimated_cost"));
    var assumptions, violations := ReadTextsAt(j, "assumptions"), ReadTextsAt(j, "violations");
    if strategy.None? || placed.None? || left.None? || energy.None? || cost.None? || assumptions.None?
       || violations.None? || hash.None? || !hash.value.Digest? then None
    else
      Some(SchedulePlan(
        strategy.value, placed.value, left.value, energy.value, cost.value, assumptions.value, violations.value,
        hash.value.input))
  }

  // ----- round trips -----

  lemma {:induction false} TextsRoundTrip(values: seq<string>)
    ensures ReadTexts(Texts(values).items) == Some(values)
  {
    if |values| == 0 {
    } else {
      var front := values[..|values| - 1];
      TextsRoundTrip(front);
      assert Texts(values).items[..|values| - 1] == Texts(front).items;
      assert values == front + [values[|values| - 1]];
    }
  }

  lemma {:induction false} IntegersRoundTrip(values: seq<int>)
    ensures ReadIntegers(Integers(values).items) == Some(values)
  {
    if |values| == 0 {
    } else {
      var front := values[..|values| - 1];
      IntegersRoundTrip(front);
      assert Integers(values).items[..|values| - 1] == Integers(front).items;
      assert values == front + [values[|values| - 1]];
    }
  }

  lemma AllocationRoundTrip(a: Allocation)
    ensures ReadAllocation(WriteAllocation(a)) == Some(a)
  {
    IntegersRoundTrip(a.slotIndices);
  }

  lemma {:induction false} AllocationsRoundTrip(allocations: seq<Allocation>, items: seq<Json>)
    requires |items| == |allocations|
    requires forall i :: 0 <= i < |items| ==> items[i] == WriteAllocation(allocations[i])
    ensures ReadAllocations(items) == Some(allocations)
  {
    hide ReadAllocation, WriteAllocation;
    if |items| == 0 {
    } else {
      var m := |items| - 1;
      AllocationsRoundTrip(allocations[..m], items[..m]);
      AllocationRoundTrip(allocations[m]);
      assert allocations == allocations[..m] + [allocations[m]];
    }
  }

  /** Writing a plan out and rebuilding it field by field gives the plan back. */
  lemma PlanRoundTrip(p: SchedulePlan)
    ensures ReadPlan(WritePlan(p)) == Some(p)
  {
    hide WriteAllocation, ReadAllocations, ReadTexts;
    TextsRoundTrip(p.unscheduled);
    TextsRoundTrip(p.assumptions);
    TextsRoundTrip(p.violations);
    AllocationsRoundTrip(p.allocations, WritePlan(p).fields["allocations"].items);
  }
}
