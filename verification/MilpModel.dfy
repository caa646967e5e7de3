/** The model `HighsSolver.solve` builds for a request, what its rows mean, and how it relates to the
    exact search: same columns, same costs, and joint power limits that the search does not impose. */
module MilpModel {
  import opened Wrappers
  import opened Contracts
  import opened Windows
  import opened Engine
  import opened Milp

  // ----- building -----

  function GpuWeight(jobs: seq<Job>, v: Variable): real
    requires v.job < |jobs|
  {
    jobs[v.job].request.gpuCount as real
  }

  function PowerWeight(jobs: seq<Job>, v: Variable): real
    requires v.job < |jobs|
  {
    jobs[v.job].request.gpuCount as real * jobs[v.job].request.powerKwPerGpu
  }

  ghost predicate OwnedBy(variables: seq<Variable>, jobs: seq<Job>) {
    forall t :: 0 <= t < |variables| ==> variables[t].job < |jobs|
  }

  function GpuWeights(jobs: seq<Job>, variables: seq<Variable>): (w: seq<real>)
    requires forall t :: 0 <= t < |variables| ==> variables[t].job < |jobs|
    ensures |w| == |variables|
  {
    seq(|variables|, t requires 0 <= t < |variables| => GpuWeight(jobs, variables[t]))
  }

  function PowerWeights(jobs: seq<Job>, variables: seq<Variable>): (w: seq<real>)
    requires forall t :: 0 <= t < |variables| ==> variables[t].job < |jobs|
    ensures |w| == |variables|
  {
    seq(|variables|, t requires 0 <= t < |variables| => PowerWeight(jobs, variables[t]))
  }

  function ColumnCosts(request: ScheduleInput, variables: seq<Variable>): (w: seq<real>)
    requires forall t :: 0 <= t < |variables| ==> variables[t].job < |request.jobs|
    ensures |w| == |variables|
  {
    seq(|variables|, t requires 0 <= t < |variables| =>
      ChoiceCost(request.slots, request.jobs[variables[t].job], variables[t].choice))
  }

  ghost function RowsOf(request: ScheduleInput, options: seq<seq<Choice>>, variables: seq<Variable>): seq<seq<Entry>>
    requires OwnedBy(variables, request.jobs)
  {
    JobRows(options, |options|)
    + SlotRows(variables, GpuWeights(request.jobs, variables), request.slots, |request.slots|)
    + SlotRows(variables, PowerWeights(request.jobs, variables), request.slots, |request.slots|)
  }

  function LowerBounds(jobs: nat, slots: nat): seq<Option<real>> {
    seq(jobs + 2 * slots, r => if r < jobs then Some(1.0) else None)
  }

  function UpperBounds(request: ScheduleInput): seq<real> {
    seq(|request.jobs|, _ => 1.0)
    + seq(|request.slots|, i requires 0 <= i < |request.slots| => request.slots[i].gpuCapacity as real)
    + seq(|request.slots|, i requires 0 <= i < |request.slots| => request.slots[i].powerCapacityKw)
  }

  ghost function ModelOf(request: ScheduleInput, options: seq<seq<Choice>>, variables: seq<Variable>): Model
    requires OwnedBy(variables, request.jobs)
  {
    var rows := RowsOf(request, options, variables);
    Model(
      ColumnCosts(request, variables),
      LowerBounds(|request.jobs|, |request.slots|),
      UpperBounds(request),
      Starts(rows),
      Columns(Flatten(rows)),
      Values(Flatten(rows)))
  }

  lemma LaidOwned(options: seq<seq<Choice>>, variables: seq<Variable>, j: nat)
    requires j <= |options| && Laid(options, variables, j)
    ensures forall t :: 0 <= t < |variables| ==>
              variables[t].job < j && variables[t].option < |options[variables[t].job]|
              && t == Offset(options, variables[t].job) + variables[t].option
  {
    forall t | 0 <= t < |variables|
      ensures variables[t].job < j && variables[t].option < |options[variables[t].job]|
      ensures t == Offset(options, variables[t].job) + variables[t].option
    {
      var i, k := BlockOf(options, j, t);
      assert BlockAt(options, variables, i);
      assert variables[Offset(options, i) + k] == Variable(i, k, options[i][k]);
    }
  }

  /** Every column lies in some job's block. */
  lemma {:induction false} BlockOf(options: seq<seq<Choice>>, j: nat, t: nat) returns (i: nat, k: nat)
    requires j <= |options| && t < Offset(options, j)
    ensures i < j && k < |options[i]| && t == Offset(options, i) + k
  {
    if t < Offset(options, j - 1) {
      i, k := BlockOf(options, j - 1, t);
    } else {
      i, k := j - 1, t - Offset(options, j - 1);
    }
  }

  method AddJobRows(options: seq<seq<Choice>>, variableIndex: map<(nat, nat), nat>)
    returns (starts: seq<nat>, indices: seq<nat>, values: seq<real>)
    requires forall i, k :: 0 <= i < |options| && 0 <= k < |options[i]| ==>
               (i, k) in variableIndex && variableIndex[(i, k)] == Offset(options, i) + k
    ensures starts == Starts(JobRows(options, |options|))
    ensures indices == Columns(Flatten(JobRows(options, |options|)))
    ensures values == Values(Flatten(JobRows(options, |options|)))
  {
    hide Flatten, Starts, JobRow;
    starts, indices, values := [0], [], [];
    EmptyRows();
    for i := 0 to |options|
      invariant starts == Starts(JobRows(options, i))
      invariant indices == Columns(Flatten(JobRows(options, i)))
      invariant values == Values(Flatten(JobRows(options, i)))
    {
      ghost var rows, row := JobRows(options, i), JobRow(Offset(options, i), |options[i]|);
      indices, values := AddJobRow(variableIndex, i, |options[i]|, indices, values, Offset(options, i), rows);
      starts := starts + [|indices|];
      assert JobRows(options, i + 1) == rows + [row];
      StartsAppend(rows, row);
    }
  }

  lemma EmptyRows()
    ensures Starts([]) == [0] && Flatten([]) == []
  {
  }

  lemma StartsAppend(rows: seq<seq<Entry>>, row: seq<Entry>)
    ensures Starts(rows + [row]) == Starts(rows) + [|Flatten(rows + [row])|]
  {
    assert (rows + [row])[..|rows|] == rows;
  }

  method AddSlotRows(
    slots: seq<TimeSlot>, variables: seq<Variable>, weights: seq<real>,
    starts0: seq<nat>, indices0: seq<nat>, values0: seq<real>, ghost rows0: seq<seq<Entry>>)
    returns (starts: seq<nat>, indices: seq<nat>, values: seq<real>)
    requires |variables| == |weights|
    requires starts0 == Starts(rows0)
    requires indices0 == Columns(Flatten(rows0)) && values0 == Values(Flatten(rows0))
    ensures starts == Starts(rows0 + SlotRows(variables, weights, slots, |slots|))
    ensures indices == Columns(Flatten(rows0 + SlotRows(variables, weights, slots, |slots|)))
    ensures values == Values(Flatten(rows0 + SlotRows(variables, weights, slots, |slots|)))
  {
    hide Flatten, Starts, SlotRow;
    starts, indices, values := starts0, indices0, values0;
    assert rows0 + SlotRows(variables, weights, slots, 0) == rows0;
    for i := 0 to |slots|
      invariant starts == Starts(rows0 + SlotRows(variables, weights, slots, i))
      invariant indices == Columns(Flatten(rows0 + SlotRows(variables, weights, slots, i)))
      invariant values == Values(Flatten(rows0 + SlotRows(variables, weights, slots, i)))
    {
      ghost var rows := rows0 + SlotRows(variables, weights, slots, i);
      ghost var row := SlotRow(variables, weights, slots[i].index, |variables|);
      indices, values := AddSlotRow(variables, weights, slots[i].index, indices, values, rows);
      starts := starts + [|indices|];
      assert rows0 + SlotRows(variables, weights, slots, i + 1) == rows + [row];
      StartsAppend(rows, row);
    }
  }

  method BuildModel(request: ScheduleInput, options: seq<seq<Choice>>) returns (m: Model, variables: seq<Variable>)
    requires |options| == |request.jobs|
    ensures Laid(options, variables, |options|) && OwnedBy(variables, request.jobs)
    ensures m == ModelOf(request, options, variables)
  {
    hide Flatten, Starts, SlotRow, JobRow, Laid, Columns, Values;
    var variableIndex;
    variables, variableIndex := BuildVariables(options);
    LaidOwned(options, variables, |options|);
    var costs := ColumnCosts(request, variables);
    var starts, indices, values := AddJobRows(options, variableIndex);
    ghost var rows := JobRows(options, |options|);
    starts, indices, values :=
      AddSlotRows(request.slots, variables, GpuWeights(request.jobs, variables), starts, indices, values, rows);
    rows := rows + SlotRows(variables, GpuWeights(request.jobs, variables), request.slots, |request.slots|);
    starts, indices, values :=
      AddSlotRows(request.slots, variables, PowerWeights(request.jobs, variables), starts, indices, values, rows);
    m := Model(costs, LowerBounds(|request.jobs|, |request.slots|), UpperBounds(request), starts, indices, values);
  }

  // ----- meaning of the rows -----

  ghost function CountTrue(x: seq<bool>, lo: nat, n: nat): nat
    requires lo + n <= |x|
  {
    if n == 0 then 0 else CountTrue(x, lo, n - 1) + if x[lo + n - 1] then 1 else 0
  }

  /** The weight of a column where its choice holds slot `s`, else zero. */
  ghost function Masked(variables: seq<Variable>, weights: seq<real>, s: int): (w: seq<real>)
    requires |variables| == |weights|
    ensures |w| == |variables|
  {
    seq(|variables|, t requires 0 <= t < |variables| => if s in variables[t].choice then weights[t] else 0.0)
  }

  lemma EmptyRow(x: seq<bool>)
    ensures EntrySum([], x) == 0.0
  {
  }

  lemma {:induction false} JobRowSum(x: seq<bool>, first: nat, n: nat)
    requires first + n <= |x|
    ensures EntrySum(JobRow(first, n), x) == CountTrue(x, first, n) as real
  {
    hide EntrySum;
    if n == 0 {
      EmptyRow(x);
    } else {
      JobRowSum(x, first, n - 1);
      EntrySumAppend(JobRow(first, n - 1), Entry(first + n - 1, 1.0), x);
    }
  }

  lemma {:induction false} SlotRowSum(variables: seq<Variable>, weights: seq<real>, s: int, x: seq<bool>, n: nat)
    requires n <= |variables| == |weights| == |x|
    ensures EntrySum(SlotRow(variables, weights, s, n), x) == Total(Masked(variables, weights, s), x, n)
  {
    hide EntrySum;
    if n == 0 {
      EmptyRow(x);
    } else {
      SlotRowSum(variables, weights, s, x, n - 1);
      var front := SlotRow(variables, weights, s, n - 1);
      EntrySumAppend(front, Entry(n - 1, weights[n - 1]), x);
      assert front + [] == front;
    }
  }

  /** What a 0/1 vector must do: one option per job, and every slot's total GPU and total power within limits. */
  ghost predicate Meaning(request: ScheduleInput, options: seq<seq<Choice>>, variables: seq<Variable>, x: seq<bool>)
    requires |options| == |request.jobs| && Laid(options, variables, |options|)
    requires OwnedBy(variables, request.jobs) && |x| == |variables|
  {
    && (forall j :: 0 <= j < |options| ==> OneOption(options, x, j))
    && (forall i :: 0 <= i < |request.slots| ==> GpuRowFits(request, variables, x, i))
    && (forall i :: 0 <= i < |request.slots| ==> PowerRowFits(request, variables, x, i))
  }

  ghost predicate OneOption(options: seq<seq<Choice>>, x: seq<bool>, j: nat)
    requires j < |options| && |x| == Offset(options, |options|)
  {
    OffsetMonotone(options, j, |options|);
    CountTrue(x, Offset(options, j), |options[j]|) == 1
  }

  ghost predicate GpuRowFits(request: ScheduleInput, variables: seq<Variable>, x: seq<bool>, i: nat)
    requires OwnedBy(variables, request.jobs) && |x| == |variables| && i < |request.slots|
  {
    Total(Masked(variables, GpuWeights(request.jobs, variables), request.slots[i].index), x, |x|)
    <= request.slots[i].gpuCapacity as real
  }

  ghost predicate PowerRowFits(request: ScheduleInput, variables: seq<Variable>, x: seq<bool>, i: nat)
    requires OwnedBy(variables, request.jobs) && |x| == |variables| && i < |request.slots|
  {
    Total(Masked(variables, PowerWeights(request.jobs, variables), request.slots[i].index), x, |x|)
    <= request.slots[i].powerCapacityKw
  }

  lemma ColumnsInRange(request: ScheduleInput, options: seq<seq<Choice>>, variables: seq<Variable>, r: nat)
    requires |options| == |request.jobs| && Laid(options, variables, |options|) && OwnedBy(variables, request.jobs)
    requires r < |RowsOf(request, options, variables)|
    ensures forall e :: e in RowsOf(request, options, variables)[r] ==> e.column < |variables|
  {
    hide JobRow, SlotRow;
    if r < |options| {
      OffsetMonotone(options, r, |options|);
    }
  }

  lemma ModelShaped(request: ScheduleInput, options: seq<seq<Choice>>, variables: seq<Variable>)
    requires |options| == |request.jobs| && Laid(options, variables, |options|) && OwnedBy(variables, request.jobs)
    ensures Shaped(ModelOf(request, options, variables), |variables|)
    ensures forall e :: e in Flatten(RowsOf(request, options, variables)) ==> e.column < |variables|
  {
    hide JobRow, SlotRow, Flatten, Starts, Laid, OwnedBy;
    var rows, m := RowsOf(request, options, variables), ModelOf(request, options, variables);
    forall r, e: Entry | 0 <= r < |rows| && e in rows[r]
      ensures e.column < |variables|
    {
      ColumnsInRange(request, options, variables, r);
    }
    FlattenColumns(rows, |variables|);
    StartsAt(rows, 0);
    forall r | 0 <= r < |m.lower|
      ensures RowSpan(m, r)
    {
      RowSlice(rows, r);
    }
    forall t | 0 <= t < |m.rowIndices|
      ensures m.rowIndices[t] < |variables|
    {
      assert Flatten(rows)[t] in Flatten(rows);
    }
  }

  /** The activity of a row of the arrays is the sum over that row's entries. */
  lemma ActivityIsRowSum(
    request: ScheduleInput, options: seq<seq<Choice>>, variables: seq<Variable>, x: seq<bool>, r: nat)
    requires |options| == |request.jobs| && Laid(options, variables, |options|) && OwnedBy(variables, request.jobs)
    requires |x| == |variables| && r < |RowsOf(request, options, variables)|
    requires Shaped(ModelOf(request, options, variables), |x|)
    ensures forall e :: e in RowsOf(request, options, variables)[r] ==> e.column < |x|
    ensures Activity(ModelOf(request, options, variables), x, r) == EntrySum(RowsOf(request, options, variables)[r], x)
  {
    hide JobRow, SlotRow, Flatten, Starts, Laid, OwnedBy, EntrySum, Dot;
    var rows := RowsOf(request, options, variables);
    ModelShaped(request, options, variables);
    RowSlice(rows, r);
    DotIsEntrySum(Flatten(rows), x, Starts(rows)[r], Starts(rows)[r + 1]);
  }

  lemma JobRowMeaning(request: ScheduleInput, options: seq<seq<Choice>>, variables: seq<Variable>, x: seq<bool>, j: nat)
    requires |options| == |request.jobs| && Laid(options, variables, |options|) && OwnedBy(variables, request.jobs)
    requires |x| == |variables| && j < |options| && Shaped(ModelOf(request, options, variables), |x|)
    ensures j < |ModelOf(request, options, variables).lower|
    ensures RowHolds(ModelOf(request, options, variables), x, j) <==> OneOption(options, x, j)
  {
    hide JobRow, SlotRow, Flatten, Starts, OwnedBy, EntrySum, Dot, Columns, Values, CountTrue;
    ActivityIsRowSum(request, options, variables, x, j);
    OffsetMonotone(options, j, |options|);
    assert RowsOf(request, options, variables)[j] == JobRow(Offset(options, j), |options[j]|);
    JobRowSum(x, Offset(options, j), |options[j]|);
  }

  lemma SlotRowMeaning(
    request: ScheduleInput, options: seq<seq<Choice>>, variables: seq<Variable>, x: seq<bool>, i: nat)
    requires |options| == |request.jobs| && Laid(options, variables, |options|) && OwnedBy(variables, request.jobs)
    requires |x| == |variables| && i < |request.slots| && Shaped(ModelOf(request, options, variables), |x|)
    ensures |options| + |request.slots| + i < |ModelOf(request, options, variables).lower|
    ensures RowHolds(ModelOf(request, options, variables), x, |options| + i) <==> GpuRowFits(request, variables, x, i)
    ensures RowHolds(ModelOf(request, options, variables), x, |options| + |request.slots| + i)
            <==> PowerRowFits(request, variables, x, i)
  {
    hide JobRow, SlotRow, Flatten, Starts, Laid, EntrySum, Dot, Columns, Values, Masked, GpuWeights, PowerWeights;
    var n, k, s := |options|, |request.slots|, request.slots[i].index;
    var gpu, power := GpuWeights(request.jobs, variables), PowerWeights(request.jobs, variables);
    ActivityIsRowSum(request, options, variables, x, n + i);
    ActivityIsRowSum(request, options, variables, x, n + k + i);
    assert RowsOf(request, options, variables)[n + i] == SlotRow(variables, gpu, s, |variables|);
    assert RowsOf(request, options, variables)[n + k + i] == SlotRow(variables, power, s, |variables|);
    SlotRowSum(variables, gpu, s, x, |x|);
    SlotRowSum(variables, power, s, x, |x|);
  }

  /** The generated rows say exactly what they are meant to say. */
  lemma RowsMean(request: ScheduleInput, options: seq<seq<Choice>>, variables: seq<Variable>, x: seq<bool>)
    requires |options| == |request.jobs| && Laid(options, variables, |options|) && OwnedBy(variables, request.jobs)
    requires |x| == |variables|
    ensures Shaped(ModelOf(request, options, variables), |x|)
    ensures Satisfies(ModelOf(request, options, variables), x) <==> Meaning(request, options, variables, x)
  {
    hide RowHolds, OneOption, GpuRowFits, PowerRowFits, RowsOf, Columns, Values, Flatten, Starts;
    var m := ModelOf(request, options, variables);
    var n, k := |options|, |request.slots|;
    ModelShaped(request, options, variables);
    forall j | 0 <= j < n
      ensures RowHolds(m, x, j) <==> OneOption(options, x, j)
    {
      JobRowMeaning(request, options, variables, x, j);
    }
    forall i | 0 <= i < k
      ensures RowHolds(m, x, n + i) <==> GpuRowFits(request, variables, x, i)
      ensures RowHolds(m, x, n + k + i) <==> PowerRowFits(request, variables, x, i)
    {
      SlotRowMeaning(request, options, variables, x, i);
    }
    if Meaning(request, options, variables, x) {
      forall r | 0 <= r < |m.lower|
        ensures RowHolds(m, x, r)
      {
        if n <= r < n + k { assert GpuRowFits(request, variables, x, r - n); }
        if n + k <= r { assert PowerRowFits(request, variables, x, r - n - k); }
      }
    }
    if Satisfies(m, x) {
      forall i | 0 <= i < k
        ensures GpuRowFits(request, variables, x, i) && PowerRowFits(request, variables, x, i)
      {
        assert RowHolds(m, x, n + i) && RowHolds(m, x, n + k + i);
      }
    }
  }
}
