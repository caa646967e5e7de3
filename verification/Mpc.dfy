/** The receding-horizon controller, packages/mpc/controller.py and packages/mpc/state_estimator.py: plan, release
    the earliest slot, fall back to the last validated plan, survive restarts. */
module Mpc {
  import opened Sequences
  import opened Sorting
  import opened Wrappers
  import opened Contracts
  import opened Documents
  import opened Windows
  import opened Exhaustive
  import opened Engine
  import opened Optimizer

  // ----- what was observed -----

  datatype Observed = Observed(completed: set<string>, progress: map<string, real>, dataQuality: real)

  datatype StateDiff = StateDiff(removed: set<string>, errors: map<string, real>, material: bool)

  function Abs(x: real): real {
    if x < 0.0 then -x else x
  }

  predicate Drifted(planned: map<string, real>, observed: Observed, job: string) {
    job in planned && job in observed.progress && Abs(observed.progress[job] - planned[job]) > 0.01
  }

  /** Material exactly when a planned job has vanished or has drifted by more than one percent. */
  function Reconcile(planned: map<string, real>, observed: Observed): (diff: StateDiff)
    ensures diff.material <==>
              exists job :: job in planned
                && (if job in observed.progress then Drifted(planned, observed, job) else job !in observed.completed)
  {
    var removed := planned.Keys - observed.progress.Keys - observed.completed;
    var errors := map job | job in planned && Drifted(planned, observed, job) :: observed.progress[job] - planned[job];
    assert forall job :: job in errors <==> Drifted(planned, observed, job);
    assert errors != map[] ==> exists job :: job in errors;
    assert removed != {} ==> exists job :: job in removed;
    assert forall job :: job in removed ==>
      job in planned && job !in observed.progress && job !in observed.completed;
    assert forall job :: job in planned && job !in observed.progress && job !in observed.completed ==> job in removed;
    StateDiff(removed, errors, removed != {} || errors != map[])
  }

  /** What the diff lists: planned jobs that vanished, and jobs off their plan by more than one percent, with the
      error. */
  lemma DiffMeans(planned: map<string, real>, observed: Observed, job: string)
    ensures var diff := Reconcile(planned, observed);
            && (job in diff.removed <==> job in planned && job !in observed.progress && job !in observed.completed)
            && (job in diff.errors <==>
                  job in planned && job in observed.progress
                  && !(-0.01 <= observed.progress[job] - planned[job] <= 0.01))
            && (job in diff.errors ==> planned[job] + diff.errors[job] == observed.progress[job])
  {
  }

  // ----- how much a plan changes -----

  function Placed(plan: SchedulePlan): set<(string, seq<int>)> {
    set a | a in plan.allocations :: (a.jobId, a.slotIndices)
  }

  function Churn(left: SchedulePlan, right: SchedulePlan): real {
    var l, r := Placed(left), Placed(right);
    var total := if |l + r| < 1 then 1 else |l + r|;
    |(l - r) + (r - l)| as real / total as real
  }

  /** The churn limit is passed exactly when more placements differ than are shared. */
  lemma ChurnLimit(left: SchedulePlan, right: SchedulePlan)
    ensures var l, r := Placed(left), Placed(right);
            Churn(left, right) > 0.5 <==> |(l - r) + (r - l)| > |l * r|
    ensures Churn(left, right) == Churn(right, left)
    ensures 0.0 <= Churn(left, right) <= 1.0
  {
    var l, r := Placed(left), Placed(right);
    var moved := (l - r) + (r - l);
    assert l + r == moved + l * r && moved !! l * r;
    assert (r - l) + (l - r) == moved && r + l == l + r;
    HalfOf(|moved|, |l * r|);
  }

  lemma HalfOf(moved: nat, kept: nat)
    ensures var total := if moved + kept < 1 then 1 else moved + kept;
            && (moved as real / total as real > 0.5 <==> moved > kept)
            && 0.0 <= moved as real / total as real <= 1.0
  {
    var total := if moved + kept < 1 then 1 else moved + kept;
    var q := moved as real / total as real;
    assert q * total as real == moved as real;
    assert moved + kept >= 1 ==> total as real == moved as real + kept as real;
    if q > 0.5 {
      assert q * total as real > 0.5 * total as real;
    } else {
      assert q * total as real <= 0.5 * total as real;
    }
  }

  // ----- one cycle -----

  datatype Fallback = LastSafePlan | StabilityHold

  datatype Reason = Divergence | LowDataQuality | PlanChurn | Optimized | FromOptimizer(diagnostic: Diagnostic)

  datatype Cycle = Cycle(
    id: int, diff: StateDiff, previous: Option<SchedulePlan>, plan: SchedulePlan, current: seq<Allocation>,
    fallback: Option<Fallback>, reasons: seq<Reason>)

  datatype State = State(lastSafe: Option<SchedulePlan>, executed: set<int>, sequence: int)

  /** The part of a list of allocations that runs in slot `i`. */
  function Release(allocations: seq<Allocation>, i: int): seq<Allocation> {
    if |allocations| == 0 then []
    else
      var last := allocations[|allocations| - 1];
      Release(allocations[..|allocations| - 1], i)
      + if i in last.slotIndices then [last.(slotIndices := [i])] else []
  }

  function ReleaseAt(plan: SchedulePlan, slot: Option<int>): seq<Allocation> {
    if slot.None? then [] else Release(plan.allocations, slot.value)
  }

  /** The smallest slot index not executed yet. */
  function Earliest(slots: seq<TimeSlot>, executed: set<int>): (slot: Option<int>)
    ensures slot.None? <==> forall s :: s in slots ==> s.index in executed
    ensures slot.Some? ==> slot.value !in executed && exists i :: 0 <= i < |slots| && slots[i].index == slot.value
    ensures slot.Some? ==> forall s :: s in slots && s.index !in executed ==> slot.value <= s.index
  {
    if |slots| == 0 then None
    else
      var last := slots[|slots| - 1];
      assert slots == slots[..|slots| - 1] + [last];
      var rest := Earliest(slots[..|slots| - 1], executed);
      if last.index in executed || (rest.Some? && rest.value <= last.index) then rest else
        assert slots[|slots| - 1].index == last.index; Some(last.index)
  }

  predicate Rewrites(request: ScheduleInput, executed: set<int>) {
    exists i :: 0 <= i < |request.slots| && request.slots[i].index in executed
  }

  datatype Decision = Decision(plan: SchedulePlan, fallback: Option<Fallback>, reasons: seq<Reason>)

  function Cited(diagnostics: seq<Diagnostic>): seq<Reason> {
    seq(|diagnostics|, i requires 0 <= i < |diagnostics| => FromOptimizer(diagnostics[i]))
  }

  /** The plan to follow, or nothing when there is neither a new plan nor an old one. */
  function Decide(previous: Option<SchedulePlan>, material: bool, quality: real, result: OptimizationResult)
    : Option<Decision>
  {
    var head := if material then [Divergence] else [];
    var blocked := quality < 0.6;
    if blocked || result.plan.None? then
      if previous.None? then None
      else Some(Decision(previous.value, Some(LastSafePlan),
                         head + if blocked then [LowDataQuality] else Cited(result.diagnostics)))
    else if previous.Some? && Churn(previous.value, result.plan.value) > 0.5 && !material then
      Some(Decision(previous.value, Some(StabilityHold), head + [PlanChurn]))
    else Some(Decision(result.plan.value, None, head + [Optimized]))
  }

  datatype Tick = Tick(request: ScheduleInput, observed: Observed, planned: map<string, real>)

  /** The state and the cycle that follow, or nothing when the call raises. */
  function Advance(s: State, t: Tick, outcome: Outcome): Option<(State, Cycle)> {
    var diff := Reconcile(t.planned, t.observed);
    if Rewrites(t.request, s.executed) || outcome.Raised? then None
    else
      var decision := Decide(s.lastSafe, diff.material, t.observed.dataQuality, outcome.result);
      if decision.None? then None
      else
        var d := decision.value;
        var slot := Earliest(t.request.slots, s.executed);
        Some((
          State(
            if d.fallback.None? then Some(d.plan) else s.lastSafe,
            if slot.Some? then s.executed + {slot.value} else s.executed,
            s.sequence + 1),
          Cycle(s.sequence + 1, diff, s.lastSafe, d.plan, ReleaseAt(d.plan, slot), d.fallback, d.reasons)))
  }

  // ----- the controller object -----

  /** The document of a state, with its executed slots in the order given. */
  function WriteState(penalty: real, s: State, executed: seq<int>): Json {
    Object(map[
      "stability_penalty" := Decimal(penalty),
      "last_safe" := if s.lastSafe.Some? then WritePlan(s.lastSafe.value) else Null,
      "executed_slots" := Integers(executed),
      "cycle_sequence" := Integer(s.sequence)])
  }

  /** Penalty and state rebuilt from a document, with the defaults for missing entries; `None` is an exception. */
  function ReadState(j: Json): Option<(real, State)> {
    if !j.Object? then None
    else
      var penalty := if "stability_penalty" in j.fields then ReadDecimal(Field(j, "stability_penalty")) else Some(0.01);
      var safe := if "last_safe" in j.fields then j.fields["last_safe"] else Null;
      var slots := if "executed_slots" in j.fields then j.fields["executed_slots"] else List([]);
      var sequence := if "cycle_sequence" in j.fields then ReadInteger(Field(j, "cycle_sequence")) else Some(0);
      if penalty.None? || !slots.List? || sequence.None? then None
      else
        var plan, executed := ReadPlan(safe), ReadIntegers(slots.items);
        if executed.None? || (safe.Object? && plan.None?) then None
        else Some((penalty.value,
                   State(if safe.Object? then plan else None, Members(executed.value), sequence.value)))
  }

  /** Entries that a document lacks read like the values a new controller starts with. */
  lemma DefaultsFillIn(fields: map<string, Json>)
    ensures "stability_penalty" !in fields ==>
              ReadState(Object(fields)) == ReadState(Object(fields["stability_penalty" := Decimal(0.01)]))
    ensures "last_safe" !in fields ==> ReadState(Object(fields)) == ReadState(Object(fields["last_safe" := Null]))
    ensures "executed_slots" !in fields ==>
              ReadState(Object(fields)) == ReadState(Object(fields["executed_slots" := List([])]))
    ensures "cycle_sequence" !in fields ==>
              ReadState(Object(fields)) == ReadState(Object(fields["cycle_sequence" := Integer(0)]))
    ensures ReadState(Object(map[])) == Some((0.01, Initial))
  {
    hide ReadPlan;
    assert Members<int>([]) == {};
  }

  /** A document that an export of this state writes. */
  ghost predicate Exports(penalty: real, s: State, d: Json) {
    exists executed :: Increasing(executed) && Members(executed) == s.executed && d == WriteState(penalty, s, executed)
  }

  class MpcController {
    var penalty: real
    var lastSafe: Option<SchedulePlan>
    var executed: set<int>
    var sequence: int
    var cycles: seq<Cycle>

    function Current(): State
      reads this
    {
      State(lastSafe, executed, sequence)
    }

    constructor (penalty: real)
      ensures Current() == Initial && cycles == [] && this.penalty == penalty
    {
      this.penalty := penalty;
      lastSafe, executed, sequence, cycles := None, {}, 0, [];
    }

    /** A controller rebuilt from an export continues where the exported one stopped; only its list of past
        cycles is empty. */
    static method FromState(d: Json) returns (controller: Option<MpcController>)
      ensures controller.Some? <==> ReadState(d).Some?
      ensures controller.Some? ==>
                && fresh(controller.value) && controller.value.cycles == []
                && (controller.value.penalty, controller.value.Current()) == ReadState(d).value
      ensures forall penalty, s :: Exports(penalty, s, d) ==>
                controller.Some? && controller.value.penalty == penalty && controller.value.Current() == s
    {
      hide ReadState, Exports;
      var read := ReadState(d);
      forall penalty, s | Exports(penalty, s, d)
        ensures read == Some((penalty, s))
      {
        RestoreRoundTrip(penalty, s, d);
      }
      if read.None? {
        return None;
      }
      var rebuilt := new MpcController(read.value.0);
      rebuilt.lastSafe, rebuilt.executed, rebuilt.sequence :=
        read.value.1.lastSafe, read.value.1.executed, read.value.1.sequence;
      return Some(rebuilt);
    }

    method ExportState() returns (d: Json)
      ensures Exports(penalty, Current(), d)
    {
      var sorted := SortedSet(executed);
      d := Object(map[
        "stability_penalty" := Decimal(penalty),
        "last_safe" := if lastSafe.Some? then WritePlan(lastSafe.value) else Null,
        "executed_slots" := Integers(sorted),
        "cycle_sequence" := Integer(sequence)]);
      assert d == WriteState(penalty, Current(), sorted);
    }

    /** One cycle. `outcome` is what the optimizer answered and `v` the vector behind its plan; a call that raises
        leaves the controller as it was. */
    method Run(t: Tick, clock: Clock) returns (cycle: Option<Cycle>, ghost outcome: Outcome, ghost v: Picks)
      modifies this
      ensures outcome.Raised? <==> Rewrites(t.request, old(executed)) || Raises(t.request, clock)
      ensures outcome.Completed? ==>
                Justified(t.request, outcome.result, v) && DecidedBy(t.request, clock, outcome.result, v)
      ensures outcome.Completed? && OutOfTime(outcome.result.status) ==> Expires(clock)
      ensures !Rewrites(t.request, old(executed)) && Regular(t.request) ==> outcome.Completed?
      ensures var next := Advance(old(Current()), t, outcome);
              if next.None? then cycle.None? && Current() == old(Current()) && cycles == old(cycles)
              else cycle == Some(next.value.1) && Current() == next.value.0 && cycles == old(cycles) + [next.value.1]
      ensures penalty == old(penalty)
    {
      hide Justified, Reconcile, Earliest, Release, Churn, Expires, Regular, DecidedBy, Feasible, Raises;
      outcome, v := Raised, [];
      if Rewrites(t.request, executed) {
        return None, outcome, v;
      }
      var previous := lastSafe;
      var diff := Reconcile(t.planned, t.observed);
      var answer;
      answer, v := Optimize(t.request, clock);
      outcome := answer;
      if answer.Raised? {
        return None, outcome, v;
      }
      var fallback, reasons := None, if diff.material then [Divergence] else [];
      var plan;
      if t.observed.dataQuality < 0.6 || answer.result.plan.None? {
        if previous.None? {
          return None, outcome, v;
        }
        plan, fallback := previous.value, Some(LastSafePlan);
        reasons := reasons +
          if t.observed.dataQuality < 0.6 then [LowDataQuality] else Cited(answer.result.diagnostics);
      } else {
        plan := answer.result.plan.value;
        if previous.Some? && Churn(previous.value, plan) > 0.5 && !diff.material {
          plan, fallback, reasons := previous.value, Some(StabilityHold), reasons + [PlanChurn];
        } else {
          lastSafe, reasons := Some(plan), reasons + [Optimized];
        }
      }
      var slot := Earliest(t.request.slots, executed);
      var current := [];
      if slot.Some? {
        current := ReleaseSlot(plan.allocations, slot.value);
        executed := executed + {slot.value};
      }
      sequence := sequence + 1;
      cycle := Some(Cycle(sequence, diff, previous, plan, current, fallback, reasons));
      cycles := cycles + [cycle.value];
    }
  }

  /** The allocations of the plan that run now, cut down to the one slot. */
  method ReleaseSlot(allocations: seq<Allocation>, i: int) returns (current: seq<Allocation>)
    ensures current == Release(allocations, i)
    ensures Use(current, i) <= Use(allocations, i)
    ensures forall k :: 0 <= k < |current| ==> current[k].slotIndices == [i]
  {
    current := [];
    for k := 0 to |allocations|
      invariant current == Release(allocations[..k], i)
      invariant forall j :: 0 <= j < |current| ==> current[j].slotIndices == [i]
    {
      if i in allocations[k].slotIndices {
        current := current + [allocations[k].(slotIndices := [i])];
      }
      assert allocations[..k + 1][..k] == allocations[..k];
    }
    assert allocations[..|allocations|] == allocations;
    ReleaseUse(allocations, i);
  }

  // ----- what a release uses -----

  lemma LoadAtLeast(slotIndices: seq<int>, gpus: nat, i: int)
    ensures i in slotIndices ==> Load(slotIndices, gpus, i) >= gpus
    ensures Load([i], gpus, i) == gpus
  {
    assert [i][..0] == [];
    if i in slotIndices {
      var k :| 0 <= k < |slotIndices| && slotIndices[k] == i;
      LoadPrefix(slotIndices, gpus, i, k + 1);
      assert slotIndices[..k + 1][..k] == slotIndices[..k];
    }
  }

  lemma UseAppend(allocations: seq<Allocation>, a: Allocation, i: int)
    ensures Use(allocations + [a], i) == Use(allocations, i) + Load(a.slotIndices, a.gpuCount, i)
  {
    assert (allocations + [a])[..|allocations|] == allocations;
  }

  /** A release takes no more GPUs from its slot than the plan does, and exactly as many when no allocation names
      the slot twice. */
  lemma {:induction false} ReleaseUse(allocations: seq<Allocation>, i: int)
    ensures Use(Release(allocations, i), i) <= Use(allocations, i)
    ensures (forall a :: a in allocations ==> Distinct(a.slotIndices)) ==>
              Use(Release(allocations, i), i) == Use(allocations, i)
  {
    hide Load, Distinct;
    if |allocations| == 0 {
    } else {
      var front, last := allocations[..|allocations| - 1], allocations[|allocations| - 1];
      ReleaseUse(front, i);
      LoadAtLeast(last.slotIndices, last.gpuCount, i);
      if i in last.slotIndices {
        UseAppend(Release(front, i), last.(slotIndices := [i]), i);
      } else {
        assert Release(allocations, i) == Release(front, i);
      }
      if forall a :: a in allocations ==> Distinct(a.slotIndices) {
        assert forall a :: a in front ==> a in allocations;
        assert last in allocations;
        LoadDistinct(last.slotIndices, last.gpuCount, i);
      }
    }
  }

  lemma {:induction false} ReleasedFrom(allocations: seq<Allocation>, i: int)
    ensures Release(allocations, i) != [] ==>
              exists k :: 0 <= k < |allocations| && i in allocations[k].slotIndices
  {
    if |allocations| == 0 {
    } else {
      ReleasedFrom(allocations[..|allocations| - 1], i);
      if Release(allocations[..|allocations| - 1], i) != [] {
        var k :| 0 <= k < |allocations| - 1 && i in allocations[..|allocations| - 1][k].slotIndices;
        assert i in allocations[k].slotIndices;
      }
    }
  }

  // ----- runs -----

  const Initial := State(None, {}, 0)

  datatype Event =
    | CycleStep(tick: Tick, clock: Clock, outcome: Outcome, v: Picks)
    | Restart(penalty: real, document: Json)

  /** The answer is the one the optimizer gives to the request under the clock. */
  ghost predicate Genuine(e: Event) {
    e.CycleStep? ==>
      && (e.outcome.Raised? <==> Raises(e.tick.request, e.clock))
      && (e.outcome.Completed? ==>
            && Justified(e.tick.request, e.outcome.result, e.v)
            && DecidedBy(e.tick.request, e.clock, e.outcome.result, e.v))
  }

  datatype Record = Record(request: ScheduleInput, slot: Option<int>, cycle: Cycle)

  /** The state, and every cycle that was ever returned, restarts included. */
  datatype Run = Run(state: State, records: seq<Record>)

  ghost function Next(run: Run, e: Event): Run {
    match e
    case CycleStep(t, _, outcome, _) =>
      var next := Advance(run.state, t, outcome);
      if next.None? then run
      else Run(next.value.0,
               run.records + [Record(t.request, Earliest(t.request.slots, run.state.executed), next.value.1)])
    case Restart(penalty, d) =>
      if Exports(penalty, run.state, d) && ReadState(d).Some? then run.(state := ReadState(d).value.1) else run
  }

  ghost function After(events: seq<Event>): Run {
    if |events| == 0 then Run(Initial, []) else Next(After(events[..|events| - 1]), events[|events| - 1])
  }

  /** Export and restore lose nothing the next cycle depends on. */
  lemma RestoreRoundTrip(penalty: real, s: State, d: Json)
    requires Exports(penalty, s, d)
    ensures ReadState(d) == Some((penalty, s))
  {
    hide WritePlan, ReadPlan, ReadIntegers, Members;
    var executed :| Increasing(executed) && Members(executed) == s.executed && d == WriteState(penalty, s, executed);
    IntegersRoundTrip(executed);
    if s.lastSafe.Some? {
      PlanRoundTrip(s.lastSafe.value);
      PlanIsObject(s.lastSafe.value);
    }
  }

  lemma PlanIsObject(p: SchedulePlan)
    ensures WritePlan(p).Object?
  {
  }

  /** The cycle's plan was computed and validated for its own request. */
  ghost predicate Planned(r: Record) {
    && r.cycle.fallback.None?
    && PlanFits(r.request, r.cycle.plan.allocations)
    && exists v :: PlanFor(r.request, r.cycle.plan, v)
  }

  ghost predicate Origin(records: seq<Record>, k: int, plan: SchedulePlan) {
    0 <= k < |records| && Planned(records[k]) && records[k].cycle.plan == plan
  }

  /** A held plan was planned in an earlier cycle. */
  ghost predicate Held(records: seq<Record>, plan: SchedulePlan) {
    exists k :: Origin(records, k, plan)
  }

  ghost predicate RecordOk(records: seq<Record>, k: nat)
    requires k < |records|
  {
    var r := records[k];
    && r.cycle.id == k + 1
    && r.cycle.current == ReleaseAt(r.cycle.plan, r.slot)
    && (r.slot.None? <==> |r.request.slots| == 0)
    && (r.slot.Some? ==> LeastIndex(r.request.slots, r.slot.value))
    && (if r.cycle.fallback.None? then Planned(r)
        else r.cycle.previous == Some(r.cycle.plan) && Held(records[..k], r.cycle.plan))
  }

  ghost predicate LeastIndex(slots: seq<TimeSlot>, i: int) {
    (exists k :: 0 <= k < |slots| && slots[k].index == i) && forall s :: s in slots ==> i <= s.index
  }

  ghost predicate RecordsOk(records: seq<Record>) {
    forall k: nat :: k < |records| ==> RecordOk(records, k)
  }

  /** A slot is in the executed set exactly when one cycle released it, and never two. */
  ghost predicate SlotsOnce(records: seq<Record>, executed: set<int>) {
    && (forall k :: 0 <= k < |records| && records[k].slot.Some? ==> records[k].slot.value in executed)
    && (forall x :: x in executed ==> exists k :: 0 <= k < |records| && records[k].slot == Some(x))
    && (forall j, k :: 0 <= j < k < |records| && records[j].slot.Some? ==> records[j].slot != records[k].slot)
  }

  ghost predicate Coherent(run: Run) {
    && run.state.sequence == |run.records|
    && SlotsOnce(run.records, run.state.executed)
    && (run.state.lastSafe.Some? ==> Held(run.records, run.state.lastSafe.value))
    && RecordsOk(run.records)
  }

  lemma HeldExtends(records: seq<Record>, r: Record, plan: SchedulePlan)
    requires Held(records, plan)
    ensures Held(records + [r], plan)
  {
    hide Planned;
    var k :| Origin(records, k, plan);
    assert (records + [r])[k] == records[k];
    assert Origin(records + [r], k, plan);
  }

  lemma HeldLast(records: seq<Record>, r: Record)
    requires Planned(r)
    ensures Held(records + [r], r.cycle.plan)
  {
    hide Planned;
    assert (records + [r])[|records|] == r;
    assert Origin(records + [r], |records|, r.cycle.plan);
  }

  lemma RecordExtends(records: seq<Record>, r: Record, k: nat)
    requires k < |records| && RecordOk(records, k)
    ensures RecordOk(records + [r], k)
  {
    hide Planned, Held, ReleaseAt, LeastIndex;
    assert (records + [r])[k] == records[k];
    assert (records + [r])[..k] == records[..k];
  }

  lemma SlotsExtend(records: seq<Record>, executed: set<int>, r: Record)
    requires SlotsOnce(records, executed)
    requires r.slot.Some? ==> r.slot.value !in executed
    ensures SlotsOnce(records + [r], if r.slot.Some? then executed + {r.slot.value} else executed)
  {
    var records' := records + [r];
    assert forall k :: 0 <= k < |records| ==> records'[k] == records[k];
    assert records'[|records|] == r;
  }

  /** The slot released is the earliest one of the request, since executed ones are refused. */
  lemma FirstSlot(request: ScheduleInput, executed: set<int>)
    requires !Rewrites(request, executed)
    ensures var slot := Earliest(request.slots, executed);
            && (slot.None? <==> |request.slots| == 0)
            && (slot.Some? ==> slot.value !in executed && LeastIndex(request.slots, slot.value))
  {
    hide Earliest;
    if |request.slots| > 0 {
      assert request.slots[0] in request.slots;
    }
  }

  lemma NewRecord(run: Run, t: Tick, outcome: Outcome, v: Picks)
    requires Coherent(run) && (outcome.Completed? ==> Justified(t.request, outcome.result, v))
    requires Advance(run.state, t, outcome).Some?
    ensures var r := Record(
              t.request, Earliest(t.request.slots, run.state.executed), Advance(run.state, t, outcome).value.1);
            && RecordOk(run.records + [r], |run.records|)
            && (r.cycle.fallback.None? ==> Planned(r))
  {
    hide Held, Earliest, ReleaseAt, LeastIndex, RecordsOk, SlotsOnce, PlanFor, PlanFits, Churn, Reconcile, Rewrites,
      Cited,
      Prune, Completes, AllPlannable, WellFormed, ProblemOf;
    FirstSlot(t.request, run.state.executed);
    var r := Record(t.request, Earliest(t.request.slots, run.state.executed), Advance(run.state, t, outcome).value.1);
    var records := run.records + [r];
    assert records[|run.records|] == r && records[..|run.records|] == run.records;
    if r.cycle.fallback.None? {
      assert PlanFor(t.request, r.cycle.plan, v);
    }
  }

  lemma CycleCoherent(run: Run, t: Tick, clock: Clock, outcome: Outcome, v: Picks)
    requires Coherent(run) && (outcome.Completed? ==> Justified(t.request, outcome.result, v))
    ensures Coherent(Next(run, CycleStep(t, clock, outcome, v)))
  {
    hide Held, Earliest, ReleaseAt, RecordOk, LeastIndex, SlotsOnce, Planned, Justified, Churn, Reconcile, Decide;
    if Advance(run.state, t, outcome).Some? {
      var r := Record(t.request, Earliest(t.request.slots, run.state.executed), Advance(run.state, t, outcome).value.1);
      NewRecord(run, t, outcome, v);
      FirstSlot(t.request, run.state.executed);
      SlotsExtend(run.records, run.state.executed, r);
      forall k: nat | k < |run.records| + 1
        ensures RecordOk(run.records + [r], k)
      {
        if k < |run.records| { RecordExtends(run.records, r, k); }
      }
      if r.cycle.fallback.None? {
        HeldLast(run.records, r);
      } else if run.state.lastSafe.Some? {
        HeldExtends(run.records, r, run.state.lastSafe.value);
      }
    }
  }

  /** Every run, restarts included, is coherent: ids count up by one, no slot is released twice, what is released is
      the earliest slot's part of the plan, and every plan followed was validated for its own or an earlier request. */
  lemma {:induction false} AlwaysCoherent(events: seq<Event>)
    requires forall i :: 0 <= i < |events| ==> Genuine(events[i])
    ensures Coherent(After(events))
  {
    hide Coherent, Next, Justified;
    if |events| == 0 {
      InitialCoherent();
    } else {
      var front, e := events[..|events| - 1], events[|events| - 1];
      AlwaysCoherent(front);
      match e
      case CycleStep(t, clock, outcome, v) => CycleCoherent(After(front), t, clock, outcome, v);
      case Restart(penalty, d) => RestartInert(After(front), penalty, d);
    }
  }

  lemma RestartInert(run: Run, penalty: real, d: Json)
    ensures Next(run, Restart(penalty, d)) == run
  {
    if Exports(penalty, run.state, d) {
      RestoreRoundTrip(penalty, run.state, d);
    }
  }

  lemma InitialCoherent()
    ensures Coherent(Run(Initial, []))
  {
  }

  /** A cycle with usable data and an answer in time, on slots of any numbering: it raises if and only if it would
      rewrite an executed slot, the optimizer raises, or there is neither a complete vector nor a held plan; and it
      falls back to the last safe plan if and only if there is no complete vector. */
  lemma FallbackMeansInfeasible(s: State, t: Tick, clock: Clock, outcome: Outcome, v: Picks)
    requires Genuine(CycleStep(t, clock, outcome, v)) && t.observed.dataQuality >= 0.6
    requires outcome.Completed? ==> !OutOfTime(outcome.result.status)
    ensures var next := Advance(s, t, outcome);
            && (next.None? <==>
                  || Rewrites(t.request, s.executed) || Raises(t.request, clock)
                  || (s.lastSafe.None? && !Solvable(t.request)))
            && (next.Some? ==> (next.value.1.fallback == Some(LastSafePlan) <==> !Solvable(t.request)))
  {
    hide Justified, DecidedBy, Raises, Solvable, Churn, Reconcile, Earliest, Release, Rewrites;
    if outcome.Completed? {
      SettledMeans(t.request, outcome.result, v);
      PlanIffSolved(t.request, outcome.result, v);
    }
  }

  /** Every planned job is done, or runs within one percent of its plan. */
  ghost predicate OnPlan(t: Tick) {
    forall job :: job in t.planned ==>
      if job in t.observed.progress then -0.01 <= t.observed.progress[job] - t.planned[job] <= 0.01
      else job in t.observed.completed
  }

  /** Which plan a cycle follows. Without usable data or without a new plan it is the held one; with a new plan the held
      one is kept exactly when all jobs are on plan and more placements differ between the two plans than they share,
      and otherwise the new plan is followed and held from then on. */
  lemma CycleFollows(s: State, t: Tick, outcome: Outcome)
    requires Advance(s, t, outcome).Some?
    ensures outcome.Completed?
    ensures var next, c, answer := Advance(s, t, outcome).value.0, Advance(s, t, outcome).value.1, outcome.result.plan;
            && c.previous == s.lastSafe
            && (t.observed.dataQuality < 0.6 || answer.None? ==> c.fallback == Some(LastSafePlan))
            && (t.observed.dataQuality >= 0.6 && answer.Some? ==>
                  (c.fallback == Some(StabilityHold) <==>
                     && s.lastSafe.Some? && OnPlan(t)
                     && Moved(s.lastSafe.value, answer.value) > Shared(s.lastSafe.value, answer.value)))
            && (c.fallback.Some? ==> s.lastSafe == Some(c.plan) && next.lastSafe == s.lastSafe)
            && (c.fallback.None? ==> answer == Some(c.plan) && next.lastSafe == answer)
            && (c.fallback == Some(LastSafePlan) ==> t.observed.dataQuality < 0.6 || answer.None?)
  {
    hide Churn, Earliest, ReleaseAt, Rewrites, Reconcile, OnPlan, Moved, Shared, Cited;
    MaterialIff(t);
    if s.lastSafe.Some? && outcome.result.plan.Some? {
      MovedMost(s.lastSafe.value, outcome.result.plan.value);
    }
  }

  lemma MovedMost(left: SchedulePlan, right: SchedulePlan)
    ensures Churn(left, right) > 0.5 <==> Moved(left, right) > Shared(left, right)
  {
    hide Churn, Placed;
    ChurnLimit(left, right);
  }

  /** The reasons of a cycle: each is given exactly when it applies, with the optimizer's own diagnostics where it
      found no plan. */
  lemma ReasonsMean(s: State, t: Tick, outcome: Outcome)
    requires Advance(s, t, outcome).Some?
    ensures outcome.Completed?
    ensures var c := Advance(s, t, outcome).value.1;
            && (Divergence in c.reasons <==> !OnPlan(t))
            && (LowDataQuality in c.reasons <==> t.observed.dataQuality < 0.6)
            && (PlanChurn in c.reasons <==> c.fallback == Some(StabilityHold))
            && (Optimized in c.reasons <==> c.fallback.None?)
            && forall d :: FromOptimizer(d) in c.reasons <==>
                 d in outcome.result.diagnostics && outcome.result.plan.None? && t.observed.dataQuality >= 0.6
  {
    hide Churn, Earliest, ReleaseAt, Rewrites, Reconcile, OnPlan, Cited;
    MaterialIff(t);
    CitedMeans(outcome.result.diagnostics);
  }

  lemma CitedMeans(diagnostics: seq<Diagnostic>)
    ensures forall r :: r in Cited(diagnostics) <==> r.FromOptimizer? && r.diagnostic in diagnostics
  {
    forall r
      ensures r in Cited(diagnostics) <==> r.FromOptimizer? && r.diagnostic in diagnostics
    {
      if r.FromOptimizer? && r.diagnostic in diagnostics {
        var i :| 0 <= i < |diagnostics| && diagnostics[i] == r.diagnostic;
        assert Cited(diagnostics)[i] == r;
      }
    }
  }

  lemma MaterialIff(t: Tick)
    ensures Reconcile(t.planned, t.observed).material <==> !OnPlan(t)
  {
    if Reconcile(t.planned, t.observed).material {
      var job :| job in t.planned
        && (if job in t.observed.progress then Drifted(t.planned, t.observed, job) else job !in t.observed.completed);
    }
  }

  /** Placements that only one of two plans has. */
  ghost function Moved(left: SchedulePlan, right: SchedulePlan): nat {
    |(Placed(left) - Placed(right)) + (Placed(right) - Placed(left))|
  }

  ghost function Shared(left: SchedulePlan, right: SchedulePlan): nat {
    |Placed(left) * Placed(right)|
  }

  /** A cycle releases exactly the plan's allocations of the slot, each cut down to that slot. */
  lemma {:induction false} ReleaseMeans(allocations: seq<Allocation>, i: int, b: Allocation)
    ensures b in Release(allocations, i) <==>
              exists k :: 0 <= k < |allocations| && i in allocations[k].slotIndices
                          && b == allocations[k].(slotIndices := [i])
  {
    if |allocations| == 0 {
    } else {
      var m := |allocations| - 1;
      ReleaseMeans(allocations[..m], i, b);
      if k :| 0 <= k < m && i in allocations[..m][k].slotIndices && b == allocations[..m][k].(slotIndices := [i]) {
        assert allocations[k] == allocations[..m][k];
      }
      if k :| 0 <= k < |allocations| && i in allocations[k].slotIndices && b == allocations[k].(slotIndices := [i]) {
        assert k < m ==> allocations[..m][k] == allocations[k];
      }
    }
  }

  // ----- what is released fits -----

  lemma PlannedUse(r: Record, i: int)
    requires Planned(r) && UniqueSlots(r.request.slots) && Release(r.cycle.plan.allocations, i) != []
    ensures i in CapacityTable(r.request.slots)
    ensures Use(r.cycle.plan.allocations, i) <= CapacityTable(r.request.slots)[i]
  {
    hide PlanFor, Use, Release, CapacityTable, PlanFits;
    var v :| PlanFor(r.request, r.cycle.plan, v);
    PlanWithinCapacity(r.request, r.cycle.plan, v);
    ReleasedFrom(r.cycle.plan.allocations, i);
  }

  lemma PlannedDistinct(r: Record)
    requires Planned(r) && UniqueSlots(r.request.slots)
    ensures forall a :: a in r.cycle.plan.allocations ==> Distinct(a.slotIndices)
  {
    hide PlanFits, Cost, Placeable, OptionList, TotalEnergy, Costs;
    var v :| PlanFor(r.request, r.cycle.plan, v);
    var p := ProblemOf(r.request);
    forall k | 0 <= k < |r.cycle.plan.allocations|
      ensures Distinct(r.cycle.plan.allocations[k].slotIndices)
    {
      OptionSound(r.request.slots, r.request.jobs[k], p.options[k][v[k]]);
    }
  }

  /** No run releases a slot twice, and cycle numbers never repeat or skip. */
  lemma NoSlotTwice(events: seq<Event>, j: nat, k: nat)
    requires forall i :: 0 <= i < |events| ==> Genuine(events[i])
    requires j < k < |After(events).records|
    ensures var records := After(events).records;
            && (records[j].slot.Some? ==> records[j].slot != records[k].slot)
            && records[k].cycle.id - records[j].cycle.id == k - j
  {
    hide After, Genuine, Held, ReleaseAt, LeastIndex, Planned;
    AlwaysCoherent(events);
    assert RecordOk(After(events).records, j) && RecordOk(After(events).records, k);
  }

  /** A cycle that follows its own plan never releases more GPUs than the slot has. */
  lemma OwnReleaseFits(events: seq<Event>, k: nat)
    requires forall i :: 0 <= i < |events| ==> Genuine(events[i])
    requires k < |After(events).records| && After(events).records[k].cycle.fallback.None?
    requires UniqueSlots(After(events).records[k].request.slots)
    ensures var r := After(events).records[k];
            r.cycle.current != [] ==>
              && r.slot.Some? && r.slot.value in CapacityTable(r.request.slots)
              && Use(r.cycle.current, r.slot.value) <= CapacityTable(r.request.slots)[r.slot.value]
  {
    hide After, Genuine, Held, LeastIndex, Planned, Use, Release, CapacityTable, UniqueSlots;
    AlwaysCoherent(events);
    var r := After(events).records[k];
    assert RecordOk(After(events).records, k);
    if r.cycle.current != [] {
      PlannedUse(r, r.slot.value);
      ReleaseUse(r.cycle.plan.allocations, r.slot.value);
    }
  }

  /** A cycle that follows a held plan releases no more than the slot had when that plan was made, in an earlier
      cycle; its load is what the held plan puts on the slot, so it fits the slot as it is now exactly when that
      load does. */
  lemma HeldReleaseFits(events: seq<Event>, k: nat) returns (j: nat)
    requires forall i :: 0 <= i < |events| ==> Genuine(events[i])
    requires k < |After(events).records| && After(events).records[k].cycle.fallback.Some?
    requires forall i :: 0 <= i < |After(events).records| ==> UniqueSlots(After(events).records[i].request.slots)
    ensures var records := After(events).records;
            var r := records[k];
            && j < k && records[j].cycle.plan == r.cycle.plan && Planned(records[j])
            && (r.cycle.current != [] ==>
                  && r.slot.Some? && r.slot.value in CapacityTable(records[j].request.slots)
                  && Use(r.cycle.current, r.slot.value) == Use(r.cycle.plan.allocations, r.slot.value)
                  && Use(r.cycle.current, r.slot.value) <= CapacityTable(records[j].request.slots)[r.slot.value])
  {
    hide After, Genuine, LeastIndex, Planned, Use, Release, CapacityTable, UniqueSlots, Distinct;
    AlwaysCoherent(events);
    var records := After(events).records;
    var r := records[k];
    assert RecordOk(records, k);
    j :| Origin(records[..k], j, r.cycle.plan);
    if r.cycle.current != [] {
      PlannedUse(records[j], r.slot.value);
      PlannedDistinct(records[j]);
      ReleaseUse(r.cycle.plan.allocations, r.slot.value);
    }
  }

  /** A held plan is not checked against the new request: its release fits the slot as it is now exactly when the
      load of the held plan on that slot does. */
  lemma HeldFitsIff(s: State, t: Tick, outcome: Outcome, slot: TimeSlot)
    requires Advance(s, t, outcome).Some? && Advance(s, t, outcome).value.1.fallback.Some?
    requires slot in t.request.slots && LeastIndex(t.request.slots, slot.index)
    requires forall a :: a in s.lastSafe.value.allocations ==> Distinct(a.slotIndices)
    ensures Use(Advance(s, t, outcome).value.1.current, slot.index) <= slot.gpuCapacity
            <==> Use(s.lastSafe.value.allocations, slot.index) <= slot.gpuCapacity
  {
    hide Use, Release, Distinct, Reconcile, Churn;
    FirstSlot(t.request, s.executed);
    ReleaseUse(s.lastSafe.value.allocations, slot.index);
  }

  /** Whatever plan is held and whatever load it puts on a fresh slot, once that slot has less room than the load
      a cycle without usable data releases the load all the same. */
  lemma HeldOverruns(s: State, slot: TimeSlot, result: OptimizationResult)
    requires s.lastSafe.Some? && slot.index !in s.executed
    requires forall a :: a in s.lastSafe.value.allocations ==> Distinct(a.slotIndices)
    requires slot.gpuCapacity < Use(s.lastSafe.value.allocations, slot.index)
    ensures exists t: Tick ::
              && t.request.slots == [slot] && Advance(s, t, Completed(result)).Some?
              && Use(Advance(s, t, Completed(result)).value.1.current, slot.index) > slot.gpuCapacity
  {
    hide Use, Release, Distinct, Churn;
    var t := Tick(ScheduleInput([], [slot]), Observed({}, map[], 0.0), map[]);
    assert t.request.slots[0] == slot && slot in t.request.slots;
    HeldFitsIff(s, t, Completed(result), slot);
  }
}
