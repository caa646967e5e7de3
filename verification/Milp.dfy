/** The mixed-integer model of `HighsSolver.solve` in packages/optimization/solvers.py: one 0/1 column per
    (job, option), compressed sparse rows, and the decoding of a 0/1 solution. */
module Milp {
  import opened Wrappers
  import opened Contracts
  import opened Windows

  datatype Variable = Variable(job: nat, option: nat, choice: Choice)

  datatype Entry = Entry(column: nat, value: real)

  /** Rows in compressed sparse form; a lower bound of `None` is minus infinity. */
  datatype Model = Model(
    costs: seq<real>,
    lower: seq<Option<real>>,
    upper: seq<real>,
    rowStarts: seq<nat>,
    rowIndices: seq<nat>,
    rowValues: seq<real>)

  // ----- what a solver reads in the arrays -----

  ghost function Dot(indices: seq<nat>, values: seq<real>, x: seq<bool>, lo: nat, hi: nat): real
    requires lo <= hi <= |indices| == |values|
    requires forall t :: lo <= t < hi ==> indices[t] < |x|
    decreases hi
  {
    if lo == hi then 0.0
    else Dot(indices, values, x, lo, hi - 1) + if x[indices[hi - 1]] then values[hi - 1] else 0.0
  }

  ghost predicate RowSpan(m: Model, r: nat)
    requires |m.rowStarts| == |m.lower| + 1 && r < |m.lower|
  {
    m.rowStarts[r] <= m.rowStarts[r + 1] <= |m.rowIndices|
  }

  /** The arrays describe rows over `n` columns. */
  ghost predicate Shaped(m: Model, n: nat) {
    && |m.costs| == n
    && |m.lower| == |m.upper|
    && |m.rowStarts| == |m.lower| + 1
    && |m.rowIndices| == |m.rowValues|
    && (forall r :: 0 <= r < |m.lower| ==> RowSpan(m, r))
    && (forall t :: 0 <= t < |m.rowIndices| ==> m.rowIndices[t] < n)
  }

  ghost function Activity(m: Model, x: seq<bool>, r: nat): real
    requires Shaped(m, |x|) && r < |m.lower|
  {
    assert RowSpan(m, r);
    Dot(m.rowIndices, m.rowValues, x, m.rowStarts[r], m.rowStarts[r + 1])
  }

  ghost predicate RowHolds(m: Model, x: seq<bool>, r: nat)
    requires Shaped(m, |x|) && r < |m.lower|
  {
    && (m.lower[r].Some? ==> m.lower[r].value <= Activity(m, x, r))
    && Activity(m, x, r) <= m.upper[r]
  }

  ghost predicate Satisfies(m: Model, x: seq<bool>)
    requires Shaped(m, |x|)
  {
    forall r :: 0 <= r < |m.lower| ==> RowHolds(m, x, r)
  }

  /** Sum of the weights of the chosen columns below `n`. */
  ghost function Total(weights: seq<real>, x: seq<bool>, n: nat): real
    requires n <= |weights| && n <= |x|
  {
    if n == 0 then 0.0 else Total(weights, x, n - 1) + if x[n - 1] then weights[n - 1] else 0.0
  }

  // ----- rows as lists of entries -----

  ghost function EntrySum(row: seq<Entry>, x: seq<bool>): real
    requires forall e :: e in row ==> e.column < |x|
  {
    if |row| == 0 then 0.0
    else
      var last := row[|row| - 1];
      assert last in row;
      assert forall e :: e in row[..|row| - 1] ==> e in row;
      EntrySum(row[..|row| - 1], x) + if x[last.column] then last.value else 0.0
  }

  lemma EntrySumAppend(front: seq<Entry>, last: Entry, x: seq<bool>)
    requires last.column < |x| && forall e :: e in front ==> e.column < |x|
    ensures EntrySum(front + [last], x) == EntrySum(front, x) + if x[last.column] then last.value else 0.0
  {
    assert (front + [last])[..|front|] == front;
  }

  ghost function Flatten(rows: seq<seq<Entry>>): seq<Entry> {
    if |rows| == 0 then [] else Flatten(rows[..|rows| - 1]) + rows[|rows| - 1]
  }

  ghost function Starts(rows: seq<seq<Entry>>): seq<nat> {
    if |rows| == 0 then [0] else Starts(rows[..|rows| - 1]) + [|Flatten(rows)|]
  }

  ghost function Columns(entries: seq<Entry>): (s: seq<nat>)
    ensures |s| == |entries| && forall t :: 0 <= t < |s| ==> s[t] == entries[t].column
  {
    seq(|entries|, t requires 0 <= t < |entries| => entries[t].column)
  }

  ghost function Values(entries: seq<Entry>): (s: seq<real>)
    ensures |s| == |entries| && forall t :: 0 <= t < |s| ==> s[t] == entries[t].value
  {
    seq(|entries|, t requires 0 <= t < |entries| => entries[t].value)
  }

  lemma AppendEntry(entries: seq<Entry>, row: seq<Entry>, e: Entry)
    ensures Columns(entries + (row + [e])) == Columns(entries + row) + [e.column]
    ensures Values(entries + (row + [e])) == Values(entries + row) + [e.value]
  {
  }

  lemma FlattenAppend(rows: seq<seq<Entry>>, row: seq<Entry>)
    ensures Flatten(rows + [row]) == Flatten(rows) + row
  {
    assert (rows + [row])[..|rows|] == rows;
  }

  lemma {:induction false} StartsAt(rows: seq<seq<Entry>>, r: nat)
    requires r <= |rows|
    ensures |Starts(rows)| == |rows| + 1
    ensures Starts(rows)[r] == |Flatten(rows[..r])|
  {
    if r == |rows| {
      assert rows[..r] == rows;
      if r > 0 { StartsAt(rows[..r - 1], 0); }
    } else {
      StartsAt(rows[..|rows| - 1], r);
      assert rows[..|rows| - 1][..r] == rows[..r];
    }
  }

  lemma {:induction false} FlattenPrefix(rows: seq<seq<Entry>>, r: nat)
    requires r <= |rows|
    ensures |Flatten(rows[..r])| <= |Flatten(rows)|
    ensures Flatten(rows)[..|Flatten(rows[..r])|] == Flatten(rows[..r])
  {
    if r == |rows| {
      assert rows[..r] == rows;
    } else {
      FlattenPrefix(rows[..|rows| - 1], r);
      assert rows[..|rows| - 1][..r] == rows[..r];
    }
  }

  /** The slice between two row starts is that row. */
  lemma RowSlice(rows: seq<seq<Entry>>, r: nat)
    requires r < |rows|
    ensures |Starts(rows)| == |rows| + 1
    ensures Starts(rows)[r + 1] == Starts(rows)[r] + |rows[r]| <= |Flatten(rows)|
    ensures Flatten(rows)[Starts(rows)[r]..Starts(rows)[r + 1]] == rows[r]
  {
    StartsAt(rows, r);
    StartsAt(rows, r + 1);
    FlattenPrefix(rows, r + 1);
    assert rows[..r + 1][..r] == rows[..r];
  }

  lemma {:induction false} FlattenColumns(rows: seq<seq<Entry>>, n: nat)
    requires forall r, e: Entry :: 0 <= r < |rows| && e in rows[r] ==> e.column < n
    ensures forall e :: e in Flatten(rows) ==> e.column < n
  {
    if |rows| == 0 {
    } else {
      var front := rows[..|rows| - 1];
      forall r, e: Entry | 0 <= r < |front| && e in front[r]
        ensures e.column < n
      {
        assert e in rows[r];
      }
      FlattenColumns(front, n);
    }
  }

  lemma {:induction false} DotIsEntrySum(entries: seq<Entry>, x: seq<bool>, lo: nat, hi: nat)
    requires lo <= hi <= |entries| && forall e :: e in entries ==> e.column < |x|
    ensures forall e :: e in entries[lo..hi] ==> e.column < |x|
    ensures Dot(Columns(entries), Values(entries), x, lo, hi) == EntrySum(entries[lo..hi], x)
    decreases hi
  {
    if lo < hi {
      DotIsEntrySum(entries, x, lo, hi - 1);
      assert entries[lo..hi][..hi - 1 - lo] == entries[lo..hi - 1];
    }
  }

  // ----- columns -----

  /** Column number of a job's first option. */
  ghost function Offset(options: seq<seq<Choice>>, j: nat): nat
    requires j <= |options|
  {
    if j == 0 then 0 else Offset(options, j - 1) + |options[j - 1]|
  }

  lemma {:induction false} OffsetMonotone(options: seq<seq<Choice>>, i: nat, j: nat)
    requires i <= j <= |options|
    ensures Offset(options, i) <= Offset(options, j)
    ensures i < j ==> Offset(options, i) + |options[i]| <= Offset(options, j)
  {
    if i < j {
      OffsetMonotone(options, i, j - 1);
    }
  }

  /** One job's options occupy consecutive columns. */
  ghost predicate BlockAt(options: seq<seq<Choice>>, variables: seq<Variable>, i: nat)
    requires i < |options|
  {
    && Offset(options, i) + |options[i]| <= |variables|
    && forall k :: 0 <= k < |options[i]| ==> variables[Offset(options, i) + k] == Variable(i, k, options[i][k])
  }

  /** The column list lays the options out job by job. */
  ghost predicate Laid(options: seq<seq<Choice>>, variables: seq<Variable>, j: nat)
    requires j <= |options|
  {
    && |variables| == Offset(options, j)
    && forall i :: 0 <= i < j ==> BlockAt(options, variables, i)
  }

  lemma BlocksKept(options: seq<seq<Choice>>, before: seq<Variable>, after: seq<Variable>, j: nat)
    requires j <= |options| && before <= after
    requires forall i :: 0 <= i < j ==> BlockAt(options, before, i)
    ensures forall i :: 0 <= i < j ==> BlockAt(options, after, i)
  {
    forall i | 0 <= i < j
      ensures BlockAt(options, after, i)
    {
      assert BlockAt(options, before, i);
    }
  }

  method BuildVariables(options: seq<seq<Choice>>)
    returns (variables: seq<Variable>, variableIndex: map<(nat, nat), nat>)
    ensures Laid(options, variables, |options|)
    ensures forall i, k :: 0 <= i < |options| && 0 <= k < |options[i]| ==>
              (i, k) in variableIndex && variableIndex[(i, k)] == Offset(options, i) + k
  {
    variables, variableIndex := [], map[];
    for i := 0 to |options|
      invariant Laid(options, variables, i)
      invariant forall a, k :: 0 <= a < i && 0 <= k < |options[a]| ==>
        (a, k) in variableIndex && variableIndex[(a, k)] == Offset(options, a) + k
    {
      ghost var before := variables;
      variables, variableIndex := AddBlock(options, i, variables, variableIndex);
      BlocksKept(options, before, variables, i);
    }
  }

  /** Appends one job's columns and indexes them. */
  method AddBlock(options: seq<seq<Choice>>, i: nat, before: seq<Variable>, indexBefore: map<(nat, nat), nat>)
    returns (variables: seq<Variable>, variableIndex: map<(nat, nat), nat>)
    requires i < |options| && |before| == Offset(options, i)
    ensures before <= variables && |variables| == Offset(options, i + 1)
    ensures BlockAt(options, variables, i)
    ensures forall a, b :: a != i && (a, b) in indexBefore ==>
              (a, b) in variableIndex && variableIndex[(a, b)] == indexBefore[(a, b)]
    ensures forall k :: 0 <= k < |options[i]| ==>
              (i, k) in variableIndex && variableIndex[(i, k)] == Offset(options, i) + k
  {
    variables, variableIndex := before, indexBefore;
    for k := 0 to |options[i]|
      invariant |variables| == Offset(options, i) + k && before <= variables
      invariant forall b :: 0 <= b < k ==> variables[Offset(options, i) + b] == Variable(i, b, options[i][b])
      invariant forall a, b :: a != i && (a, b) in indexBefore ==>
        (a, b) in variableIndex && variableIndex[(a, b)] == indexBefore[(a, b)]
      invariant forall b :: 0 <= b < k ==> (i, b) in variableIndex && variableIndex[(i, b)] == Offset(options, i) + b
    {
      variableIndex := variableIndex[(i, k) := |variables|];
      variables := variables + [Variable(i, k, options[i][k])];
    }
  }

  // ----- the rows -----

  ghost function JobRow(first: nat, n: nat): (row: seq<Entry>)
    ensures forall e :: e in row ==> e.column < first + n
  {
    if n == 0 then [] else JobRow(first, n - 1) + [Entry(first + n - 1, 1.0)]
  }

  /** The columns below `n` whose choice holds slot `s`, with a weight for each. */
  ghost function SlotRow(variables: seq<Variable>, weights: seq<real>, s: int, n: nat): (row: seq<Entry>)
    requires n <= |variables| == |weights|
    ensures forall e :: e in row ==> e.column < n
  {
    if n == 0 then []
    else
      SlotRow(variables, weights, s, n - 1)
      + if s in variables[n - 1].choice then [Entry(n - 1, weights[n - 1])] else []
  }

  ghost function JobRows(options: seq<seq<Choice>>, j: nat): (rows: seq<seq<Entry>>)
    requires j <= |options|
    ensures |rows| == j
  {
    seq(j, i requires 0 <= i < j => JobRow(Offset(options, i), |options[i]|))
  }

  ghost function SlotRows(variables: seq<Variable>, weights: seq<real>, slots: seq<TimeSlot>, n: nat)
    : (rows: seq<seq<Entry>>)
    requires |variables| == |weights| && n <= |slots|
    ensures |rows| == n
  {
    seq(n, i requires 0 <= i < n => SlotRow(variables, weights, slots[i].index, |variables|))
  }

  /** One pass over the columns for one slot. */
  method AddSlotRow(
    variables: seq<Variable>, weights: seq<real>, s: int, indices0: seq<nat>, values0: seq<real>,
    ghost rows: seq<seq<Entry>>) returns (indices: seq<nat>, values: seq<real>)
    requires |variables| == |weights|
    requires indices0 == Columns(Flatten(rows)) && values0 == Values(Flatten(rows))
    ensures indices == Columns(Flatten(rows + [SlotRow(variables, weights, s, |variables|)]))
    ensures values == Values(Flatten(rows + [SlotRow(variables, weights, s, |variables|)]))
  {
    hide Columns, Values, Flatten;
    indices, values := indices0, values0;
    assert Flatten(rows) + [] == Flatten(rows);
    for n := 0 to |variables|
      invariant indices == Columns(Flatten(rows) + SlotRow(variables, weights, s, n))
      invariant values == Values(Flatten(rows) + SlotRow(variables, weights, s, n))
    {
      ghost var row := SlotRow(variables, weights, s, n);
      if s in variables[n].choice {
        AppendEntry(Flatten(rows), row, Entry(n, weights[n]));
        indices := indices + [n];
        values := values + [weights[n]];
      } else {
        assert row + [] == row;
      }
    }
    FlattenAppend(rows, SlotRow(variables, weights, s, |variables|));
  }

  /** One pass over one job's options. */
  method AddJobRow(
    variableIndex: map<(nat, nat), nat>, i: nat, n: nat, indices0: seq<nat>, values0: seq<real>,
    ghost first: nat, ghost rows: seq<seq<Entry>>) returns (indices: seq<nat>, values: seq<real>)
    requires forall k :: 0 <= k < n ==> (i, k) in variableIndex && variableIndex[(i, k)] == first + k
    requires indices0 == Columns(Flatten(rows)) && values0 == Values(Flatten(rows))
    ensures indices == Columns(Flatten(rows + [JobRow(first, n)]))
    ensures values == Values(Flatten(rows + [JobRow(first, n)]))
  {
    hide Columns, Values, Flatten;
    indices, values := indices0, values0;
    assert Flatten(rows) + [] == Flatten(rows);
    for k := 0 to n
      invariant indices == Columns(Flatten(rows) + JobRow(first, k))
      invariant values == Values(Flatten(rows) + JobRow(first, k))
    {
      AppendEntry(Flatten(rows), JobRow(first, k), Entry(first + k, 1.0));
      indices := indices + [variableIndex[(i, k)]];
      values := values + [1.0];
    }
    FlattenAppend(rows, JobRow(first, n));
  }
}
