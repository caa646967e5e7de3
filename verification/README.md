# ComputeWeaver: a verified model of the control plane's core

ComputeWeaver plans GPU jobs onto priced time slots and governs how plans are carried out. This project models the
parts of it that make strong promises, in Dafny 4.11, and proves those promises for all inputs, all runs and all
interleavings.

- **Planning.** `Contracts`, `Windows`, `Exhaustive`, `Engine`, `Placements` and `Optimizer` model the exact
  co-optimizer: a branch-and-bound search over a mutable capacity table is shown to refine an exhaustive search, whose
  result is shown to be the cheapest placement of all jobs, where a placement is one set of slots per job and knows
  nothing of the search. `Horizon` shows when it raises on what is left of a horizon. `Milp`, `MilpModel` and
  `MilpExact` model how the same problem is compiled into compressed sparse rows, prove what those rows mean and relate
  the two optima. `Strategies`, `Objectives` and `Baselines` model the greedy schedulers and compare them with the exact
  one. `Scenarios` models price counterfactuals and capacity what-ifs. `Samples` and `MpcSamples` hold the families of
  requests and runs on which a promise fails, with the exact condition.
- **Protocols.** `Idempotency`, `JobQueue` and `Quota` model transactions as atomic steps of a state machine. Every
  step is a function of the tables, a class performs it in place, and the theorems speak of all sequences of steps.
- **Graphs.** `Graphs`, `Topology` and `Dependencies`: queue-based cycle detection, reachability, depth-first checking.
- **Governance and versioned state.** `Approval` and `ActionGuard`, `Mpc` with its stored `Documents`,
  `Store` and `Audit`.
- **Rounding.** `Chargeback`.
- **Shared.** `Wrappers` (options and results), `Sequences` (members and order) and `Sorting` (stable sorting,
  order-independent sums).

Conventions. Decimals are `real`, points in time are `int`, exceptions are explicit results. The clock is an input: a
function that says, for each look the search takes at it, whether the time limit has passed. A digest stands for the
value it is taken of; in `Audit` it is a function parameter, collision-free where a theorem says so. Slot lookups
follow Python indexing, so a slot's index and its position are kept apart; theorems that need them equal say `Aligned`.

Where a promise does not hold of the code, the code is modelled as it is, a lemma exhibits the failure, and another
states when the promise does hold:

- the docstring of the exact search claims global optimality; with negative prices it can fail (`NegativePricesMiss`),
  and it holds when no job after the first has a negative slot cost (`OptimalMeansOptimal`);
- the exact search and the integer model disagree exactly when no cheapest placement respects joint power
  (`OptimaAgreeIff`, `SolversDisagree`), which ample power per slot rules out (`AmplePowerAgrees`);
- a retry looks up the cancellation of the calling action, not of the stored row (`IncoherentCallRevives`,
  `RetryKeepsExclusionIff`);
- a job's attempt limit does not bound its claims: crashes pass it (`AttemptsUnbounded`) and so do failures reported
  with an old snapshot (`StaleReportOverclaims`); a run keeps it exactly when no claim takes a row without an attempt
  left (`LimitKeptIff`);
- the guard does not compare an approval's risk with the action's (`TwoApproversIff`);
- costs are looked up by position, so after a first cycle the controller raises on the rest of its own horizon
  (`RestCycleRaises`), whenever the first job may use one of the last slots (`TailCycleRaises`, `OneJobBreaksIff`); the
  optimizer raises exactly on the requests and clocks that `Optimize` names, never on regular ones;
- a held plan is released without a look at the new capacities (`HeldFitsIff`, `HeldRunOverruns`);
- verifying one tenant of an in-memory audit log succeeds only for a prefix (`TenantChainIff`);
- the last chargeback share can be negative (`EqualShares`, `LastShareSign`).

## Model

| member | source | states |
|---|---|---|
| `Contracts.ValidatePlan` | packages/scheduling/contracts.py:55-70 | Accepts a plan exactly when every job is placed at most once, every allocation names a known job and known slots that start before the deadline, and every slot's total over the whole plan fits its GPUs, although the walk compares running totals only; a rejection names a fault that some allocation really has. |
| `Contracts.WalkAllocation` | packages/scheduling/contracts.py:63-70 | The inner loop: charges one allocation to the running table, stopping with the fault it meets; without a fault the table is what the plan so far puts on each slot. |
| `Contracts.RunningTotal` | packages/scheduling/contracts.py:66-68 | No running total in the walk exceeds what the whole plan puts on the slot, so the running check misses and invents no overload. |
| `Windows.JobOptions` | packages/optimization/engine.py:23-41 | The loop returns the option list of a job and raises exactly on a zero slot duration or a negative slot count; on slots numbered by position its members are exactly the increasing spellings of windows. |
| `Windows.OptionsAreWindows` | packages/optimization/engine.py:30-41 | A tuple is an option if and only if it is the increasing spelling of a window: just as many slots as cover the job's hours, each starting before its deadline with the GPUs and the power for the whole job, without gaps unless the job can be checkpointed. |
| `Windows.NeededIsLeast` | packages/optimization/engine.py:27-29 | Rounding up the quotient gives the least number n of slots with n times the duration at least the job's hours (none for a negative duration). |
| `Windows.WindowHasOption` | packages/optimization/engine.py:37-41 | Every window is spelled by an option and by no other, so enumeration neither misses nor repeats one. |
| `Windows.OptionSound` | packages/optimization/engine.py:30-41 | For any slot numbering, an option has the needed length, names eligible slots only and, with unique indices, none twice. |
| `Windows.ConsecutiveIsGapFree` | packages/optimization/engine.py:39 | The pairwise successor test on an increasing tuple holds exactly when the set of indices has no gap. |
| `Exhaustive.ExhaustIsFirstCheapest` | packages/optimization/engine.py:70-100 | Searching without pruning returns the cheapest complete placement that is first in enumeration order, or there is no complete placement. |
| `Exhaustive.FirstCheapestUnique` | packages/optimization/engine.py:70-100 | There is only one first cheapest placement. |
| `Exhaustive.PruneIsExhaust` | packages/optimization/engine.py:75-76 | Cutting a branch whose running cost reaches the best cost returns exactly what the search without pruning returns, provided no job after the first has a negative option cost. |
| `Exhaustive.PruneFindsSome` | packages/optimization/engine.py:70-100 | Whatever the costs, the pruned search returns a placement whenever one exists, so `infeasible` needs no sign condition. |
| `Exhaustive.PlaceableIsWithinCapacity` | packages/optimization/engine.py:83-85 | Placing jobs one after another into what is left free is possible exactly when all of them together fit every slot. |
| `Engine.Search.Visit` | packages/optimization/engine.py:70-100 | The recursive search with its shared table, choice stack, incumbent and clock: it fails on a cost lookup if and only if the reference search under the same clock does, and otherwise ends with the same incumbent and the same number of looks at the clock, table and stack restored; timed out exactly when one of those looks found the limit passed. |
| `Engine.Search.Branch` | packages/optimization/engine.py:81-100 | The loop over one job's options refines the reference loop under the same clock, failing cost lookups included, and restores table and stack. |
| `Engine.Search.Push` | packages/optimization/engine.py:84-86 | Descending charges the table so that it again equals what the current picks leave free. |
| `Engine.Search.Pop` | packages/optimization/engine.py:98-100 | Backtracking undoes Push: the table again equals what the remaining picks leave free. |
| `Engine.WalkIsPrune` | packages/optimization/engine.py:70-100 | A search that fails on no cost lookup and none of whose looks at the clock comes too late ends with what the pruned search without a clock returns. |
| `Engine.PricedEnds` | packages/optimization/engine.py:87-96 | If no option has a slot index past the slot tuple, the search fails on no cost lookup. |
| `Engine.UnpricedBreaks` | packages/optimization/engine.py:82-96 | A level of the search fails at any fitting option past the slot tuple that it has still to try, whatever the clock says further down. |
| `Engine.WalkCompletes` | packages/optimization/engine.py:77-80 | Whatever a search ends with is a complete placement, timed out or not. |
| `Engine.Charge` | packages/optimization/engine.py:84-85 | Lowers each slot by the job's GPUs once per occurrence in the choice and touches nothing else. |
| `Engine.Refund` | packages/optimization/engine.py:99-100 | Raises each slot by exactly what Charge took. |
| `Placements.PicksArePlacement` | packages/optimization/engine.py:70-100 | A complete vector of the search is a placement of all jobs in terms of slot sets, at the same cost. |
| `Placements.PlacementIsPicks` | packages/optimization/engine.py:70-100 | Every placement in terms of slot sets is reached by a complete vector of the search, at the same cost. |
| `Placements.AccumulatedTotals` | packages/optimization/engine.py:87-97 | The cost and GPU use accumulated job by job equal the sums over the windows as sets. |
| `Optimizer.Optimize` | packages/optimization/engine.py:44-147 | Raises if and only if a duration is unusable, the search under this clock fails on a cost lookup, or the validator rejects its plan; never on a regular request: aligned slots, distinct job ids, usable durations. Every result is justified and is the one that request and clock determine; a timeout status means that the clock expires. If the clock never does, a regular request is answered `optimal` if and only if a placement exists and `infeasible` if and only if none does. |
| `Optimizer.Answer` | packages/optimization/engine.py:50-147 | Raises exactly as the reference search, the option lists and the validator say; a plan exactly for `optimal` and `feasible_timeout`, always accepted by the validator; `optimal` only for the completed search's vector, `infeasible` only when no complete vector exists, gap zero exactly for those two; status and vector follow from the reference search under the same clock. |
| `Optimizer.RegularNeverRaises` | packages/optimization/engine.py:44-147 | On aligned slots, distinct job ids and usable durations the optimizer never raises, whatever the clock. |
| `Optimizer.SettledMeans` | packages/optimization/engine.py:104-147 | Without a timeout, for slots of any numbering, `optimal` if and only if a complete vector exists and `infeasible` if and only if none does; on aligned slots that is whether a placement exists. |
| `Optimizer.OptimalMeansOptimal` | packages/optimization/engine.py:44-49 | A plan marked `optimal` costs no more than any placement of all jobs whatever, and it is the first cheapest in enumeration order, when no job after the first has a negative slot cost. |
| `Optimizer.PlanServesJobs` | packages/optimization/engine.py:23-41 | Whatever the status, on slots numbered by position a returned plan books for each job its GPU count in increasing slots (consecutive ones unless it can be checkpointed), each starting before its deadline with enough GPUs and power for the whole job, and exactly the least number of slots that covers its hours. |
| `Optimizer.PlanEnergyPriced` | packages/optimization/engine.py:119-132 | If all slots have one price, the stated cost is that price times the stated energy. |
| `Optimizer.StatusMeans` | packages/optimization/engine.py:104-147 | `infeasible` means that no placement exists at any cost sign, and a plan returned after a timeout is still a placement whose cost the plan states. |
| `Optimizer.PlanAccepted` | packages/optimization/engine.py:137 | With aligned slots and distinct job ids the final validation never rejects the search's plan. |
| `Optimizer.PlanWithinCapacity` | packages/optimization/engine.py:64-100 | With any unique slot numbering, no slot is given more GPUs than the slot of that index has. |
| `Optimizer.CheapestOfAll` | packages/optimization/engine.py:44-49 | A first cheapest vector costs no more than any placement by slot sets. |
| `Optimizer.NoVectorNoPlacement` | packages/optimization/engine.py:104-114 | If the search has no complete vector there is no placement. |
| `Optimizer.RunSearch` | packages/optimization/engine.py:64-104 | Fails if and only if the reference search under the same clock does; otherwise what is handed to plan building is the choices and cost of the vector it ends with, and the timeout flag says whether one of its looks came too late. |
| `Optimizer.AllOptions` | packages/optimization/engine.py:51 | One option list per job, or an exception exactly when some job's list raises. |
| `Optimizer.WithoutWindow` | packages/optimization/engine.py:52-63 | Names exactly the jobs that have no option. |
| `Horizon.FirstJobRaises` | packages/optimization/engine.py:82-96 | If the first look at the clock is in time and every job has an option, the optimizer raises as soon as the first job has an option past the slot tuple. |
| `Horizon.RemainingRaises` | packages/optimization/engine.py:82-96 | On what is left of an aligned horizon after k slots the optimizer raises whenever the first job may use one of the last k slots. |
| `Horizon.RemainingEnds` | packages/optimization/engine.py:82-96 | If no job may use one of the last k slots left, the search fails on no cost lookup. |
| `Horizon.OneJobBreaksIff` | packages/optimization/engine.py:82-96 | For a single job and a first look in time, the search fails on a cost lookup if and only if some option of the job uses one of the last k slots left. |
| `Samples.NegativePricesMiss` | packages/optimization/engine.py:44-49 | The optimality claim in the docstring fails for negative prices: on two unit jobs and two slots, for all prices, the completed search misses the optimum if and only if the second price is below the first and the first is not positive. |
| `Milp.BuildVariables` | packages/optimization/solvers.py:56-63 | One column per job and option, in blocks by job, with an index that finds each of them. |
| `Milp.RowSlice` | packages/optimization/solvers.py:83-111 | In the compressed arrays, the slice between two row starts is that row and nothing else. |
| `Milp.AddSlotRow` | packages/optimization/solvers.py:95-111 | One pass over the columns appends to the arrays exactly the row of the columns that use the slot. |
| `Milp.AddJobRow` | packages/optimization/solvers.py:86-92 | One pass over a job's options appends to the arrays exactly the row of that job's columns. |
| `MilpModel.BuildModel` | packages/optimization/solvers.py:56-111 | The three loops produce the compressed form of one row per job, one GPU row per slot and one power row per slot, with their bounds and the column costs. |
| `MilpModel.RowsMean` | packages/optimization/solvers.py:79-111 | A 0/1 vector satisfies the compressed rows if and only if it chooses exactly one option per job and every slot's total GPUs and total power fit. |
| `MilpExact.SolutionIsPicks` | packages/optimization/solvers.py:56-111 | Every 0/1 solution is a complete vector of the exact search that also respects joint power, and its objective is that vector's cost. |
| `MilpExact.PicksAreSolution` | packages/optimization/solvers.py:56-111 | Conversely, every vector of picks that fits every slot, joint power included, is a solution of the model with its cost as objective. |
| `MilpExact.IndicatorMeaning` | packages/optimization/solvers.py:94-111 | For the indicator of a vector of picks, the rows hold exactly when every slot's GPU and power totals fit, and the objective is the vector's cost. |
| `MilpExact.ExactNeverAbove` | packages/optimization/solvers.py:56-111 | The exact optimum never exceeds the objective of any solution of the model. |
| `MilpExact.SolvableAtIff` | packages/optimization/solvers.py:79-111 | The compiled rows have a solution of a given cost if and only if some placement of that cost respects joint power. |
| `MilpExact.OptimaAgreeIff` | packages/optimization/solvers.py:103-111 | The rows never have a solution below the exact optimum, and have one at it if and only if some placement that no other undercuts respects joint power per slot, which the exact search checks for single jobs only. |
| `MilpExact.AmplePowerAgrees` | packages/optimization/solvers.py:103-111 | A condition on the request alone: if no job has negative power and every slot can power all jobs eligible for it at once, the rows have a solution at the exact optimum and none below it. |
| `Samples.SolversDisagree` | packages/optimization/solvers.py:103-111 | The two optima can differ: for two one-kilowatt jobs and two slots the compiled rows have a solution at the exact optimum if and only if the cheap slot has two kilowatts, and never one below it. |
| `MilpExact.Decode` | packages/optimization/solvers.py:149-153 | Decoding succeeds exactly when every job has a chosen column, and then gives each job the choice of the last of its chosen columns. |
| `MilpExact.DecodeRoundTrip` | packages/optimization/solvers.py:149-153 | Decoding a vector that stands for a placement gives back that placement's choices. |
| `MilpExact.DecodePlan` | packages/optimization/solvers.py:148-190 | A plan is returned only if the validator accepts it; every solution of the rows of a regular request is decoded to the plan of the placement it stands for, at the objective's cost, and accepted. |
| `Scenarios.ChangeSlotPrices` | packages/explain/counterfactual.py:19-29 | Refuses multipliers that are not positive; if both runs complete, the placement is the same and the reported delta is (m - 1) times the cost; an infeasible first run excludes any second plan, timed out or not, and a first plan excludes an infeasible second run. If neither clock expires, a regular request gets a delta if and only if it is feasible. |
| `Scenarios.ScaledPrune` | packages/optimization/engine.py:70-100 | Scaling all costs by a positive factor changes no decision of the search, ties and pruning included. |
| `Scenarios.SamePlacement` | packages/explain/counterfactual.py:19-29 | Two completed runs at proportional prices return the same allocations at proportional cost. |
| `Scenarios.SameFeasibility` | packages/explain/counterfactual.py:19-29 | If the request is infeasible at its own prices there is no plan at scaled prices, timed out or not; if it has a plan, the scaled run is not infeasible. |
| `Scenarios.RunWhatIf` | packages/whatif/service.py:17-33 | Refuses multipliers that are not positive; a factor of at least one, with rounding down of capacities, never makes a feasible request infeasible nor raises the optimum, and ends optimal if the clock does not expire; with a factor of at most one every plan is a placement of the unscaled request. |
| `Scenarios.ResizedMeans` | packages/whatif/service.py:20-27 | A scenario scales every slot's power exactly and its GPUs rounded toward zero, and changes nothing else. |
| `Scenarios.RoomierPlacement` | packages/whatif/service.py:17-33 | More room in every slot keeps every placement and its cost. |
| `Strategies.Schedule` | packages/scheduling/strategies.py:10-64 | The loop with its shared capacity table returns what placing the jobs one by one in the given order comes to; the plan passes validation, every job is in exactly one of allocations and unscheduled, no slot is overdrawn, cost and energy are the sums over its allocations; it raises if and only if there is a job and a zero first duration or the validator rejects what the placing comes to, never on aligned slots and distinct job ids. |
| `Strategies.PickSound` | packages/scheduling/strategies.py:24-35 | Slots picked for a job are open ones, at most as many as needed, none twice, in time order. |
| `Strategies.PickPrefers` | packages/scheduling/strategies.py:31-35 | A pick prefers each of its slots to each slot left out in which the job could still run (in time, enough free GPUs, enough power): earlier start, or for the price-aware strategy lower price and then earlier start. |
| `Strategies.SkippedIff` | packages/scheduling/strategies.py:22-39 | A job that can be checkpointed is left out if and only if fewer slots are still open to it than its hours take. |
| `Strategies.PickBooked` | packages/scheduling/strategies.py:35-39 | A pick of the needed size and shape uses only slots with enough free GPUs and is a proper booking for its job. |
| `Strategies.GreedyAccepted` | packages/scheduling/strategies.py:63 | The validator accepts every greedy plan on aligned slots and distinct job ids. |
| `Strategies.CostRecomputed` | packages/optimization/objectives.py:24-38 | The cost accumulated by the greedy loop is the energy cost that the objectives recompute from the allocations. |
| `Strategies.ScheduleFifo` | packages/scheduling/strategies.py:67-68 | Places jobs by submission time then id, earliest slots first; accepted by the validator, cost equal to the recomputed energy cost; raises if and only if there is a job and a zero first duration or the validator rejects those placements. |
| `Strategies.SchedulePriorityEdf` | packages/scheduling/strategies.py:71-73 | Places jobs by priority, deadline and id, earliest slots first, with the same guarantees. |
| `Strategies.SchedulePriceAware` | packages/scheduling/strategies.py:76-78 | Places jobs by priority, deadline and id, cheapest slots first, with the same guarantees. |
| `Strategies.OrdersSort` | packages/scheduling/strategies.py:67-78 | First come first served with ties by id, and falling priority, then deadline, then id, where ids compare in dictionary order: for every two positions of the job list. |
| `Strategies.GreedyPlanPriced` | packages/scheduling/strategies.py:40-44 | If all slots have one price, the stated cost of a greedy plan is that price times its stated energy. |
| `Sorting.StringLeIsAlphabetical` | packages/scheduling/strategies.py:68 | The comparison of ids is dictionary order: a prefix comes first, otherwise the first difference decides. |
| `Objectives.EvaluateObjectives` | packages/optimization/objectives.py:19-38 | Raises exactly on an unknown job or slot; otherwise energy cost, carbon, delay and weighted total are the sums over all allocated slots. |
| `Objectives.OneSlotCharge` | packages/optimization/objectives.py:29-36 | One slot of one allocation adds its energy times price, its energy times carbon intensity, and the hours waited since submission, never below zero. |
| `Objectives.SlotsAdd` | packages/optimization/objectives.py:31-36 | The totals of an allocation are the sums over its slots, however the list is split. |
| `Objectives.AllocationsAdd` | packages/optimization/objectives.py:29-36 | The totals of a plan are the sums over its allocations, however the list is split. |
| `Baselines.BookedIsOption` | packages/scheduling/strategies.py:24-52 | With start times increasing in slot index, the slots a greedy strategy books for a job are one of the exact search's options. |
| `Baselines.GreedyIsPlacement` | packages/scheduling/strategies.py:18-52 | A greedy plan that leaves no job out is a placement of all jobs at the cost it states. |
| `Baselines.ExactNeverLoses` | packages/scheduling/strategies.py:18-52 | If a greedy plan leaves no job out, the exact search is optimal unless it timed out, and when optimal it costs no more. |
| `Topology.ValidateGraph` | packages/topology/validation.py:9-38 | Accepts if and only if ids are unique, all endpoints exist and share a tenant, the graph with its multi-edges and self-loops has no cycle, and each parent of positive capacity covers the sum over its child edges; each rejection names a fault that is there, and `cycle` is reported exactly when the checks before it pass and a cycle exists. |
| `Topology.CapacitySumIsEdgeLoad` | packages/topology/validation.py:34-38 | What the loop sums over a parent's child list is the sum, over all relationships, of the child's capacity where the parent matches, repeated edges included; the boundary is stated as that sum. |
| `Topology.Drain` | packages/topology/validation.py:22-31 | The queue loop ends; the nodes it finishes are distinct and in dependency order, and every node left over still has an unfinished parent. |
| `Topology.DrainDecides` | packages/topology/validation.py:23-32 | All nodes are finished if and only if there is no cycle. |
| `Topology.Release` | packages/topology/validation.py:27-30 | Releasing a node's child edges keeps each counter equal to the number of unfinished incoming edges, and queues a child exactly when its counter reaches zero. |
| `Topology.Descendants` | packages/topology/validation.py:41-58 | Returns exactly the assets reachable from the root by one or more edges, each once, on cyclic input too; raises exactly when the root or a reachable id is unknown; on an accepted topology the root is not among them. |
| `Graphs.BackedHasCycle` | packages/topology/validation.py:31-32 | A non-empty set of nodes each of which has a predecessor in the set contains a cycle. |
| `Graphs.RankedIsAcyclic` | packages/topology/validation.py:31-32 | A numbering that grows along every edge rules out cycles. |
| `Dependencies.ValidateDependencyGraph` | packages/workloads/state_machine.py:47-66 | Accepts if and only if every dependency is a known job and no job depends on itself, however indirectly; a rejection names a cycle that exists or an unknown id that is really depended on. |
| `Dependencies.Visitor.Visit` | packages/workloads/state_machine.py:52-63 | The recursive visit ends because the unvisited ids shrink, leaves the `visiting` set as it found it, and finishes its job after all its dependencies or reports a real fault. |
| `Dependencies.PostOrderDecides` | packages/workloads/state_machine.py:47-66 | Finishing all jobs in post-order shows that every dependency is known and that there is no cycle. |
| `Dependencies.TrailCloses` | packages/workloads/state_machine.py:53-54 | Meeting a job that is still being visited closes a real cycle. |
| `Idempotency.IdempotencyStore.Begin` | packages/execution/idempotency.py:31-77 | The first transaction: cancelled, reused key, replay, in progress or run, in that order; only `run` changes the tables, to one started row. |
| `Idempotency.IdempotencyStore.RecordSuccess` | packages/execution/idempotency.py:90-98 | Marks the row of this key and intent succeeded with the result, and no other row; ResultIsReplayed says who gets it. |
| `Idempotency.IdempotencyStore.RecordFailure` | packages/execution/idempotency.py:80-88 | Marks the row of this key and intent failed, and no other row. |
| `Idempotency.IdempotencyStore.Cancel` | packages/execution/idempotency.py:125-166 | Refuses missing data, an active action and a different earlier cancellation; otherwise records the cancellation, once. |
| `Idempotency.AlwaysSafe` | packages/execution/idempotency.py:31-166 | Over every interleaving of begin, success, failure, crash and cancel whose calls name the action of their intent: a cancelled action has no started or succeeded row, each tenant and key has at most one operation in flight, and each operation in flight owns its started row. |
| `Idempotency.AlwaysOrderly` | packages/execution/idempotency.py:31-166 | Whatever actions the calls name, each tenant and key has at most one operation in flight, and each operation in flight owns its started row. |
| `Idempotency.SuccessIsFinal` | packages/execution/idempotency.py:57-58 | A recorded success and its result never change in any later state, whatever actions the calls name. |
| `Idempotency.ResultIsReplayed` | packages/execution/idempotency.py:54-99 | The result recorded by a running operation is what every later call with its tenant, key and intent is given, whatever happens in between, unless the action it names is cancelled. |
| `Idempotency.FailureIsRetried` | packages/execution/idempotency.py:54-68 | While an operation runs, a call with its key is told so; after it failed the next one runs; another intent is refused either way. |
| `Idempotency.CancellationAnswers` | packages/execution/idempotency.py:151-165 | After an accepted cancellation the same request is answered as recorded, and one with another actor or reason is refused. |
| `Idempotency.AtMostOneSuccess` | packages/execution/idempotency.py:31-99 | Each tenant and key succeeds at most once in every run from empty tables, whatever actions the calls name. |
| `Idempotency.CancelledNeverRuns` | packages/execution/idempotency.py:40-45 | Once an action is cancelled, no later call for it runs or replays anything. |
| `Idempotency.CancellationIsFinal` | packages/execution/idempotency.py:151-165 | A cancellation is never removed, and its actor and reason never change. |
| `Idempotency.OrphanStays` | packages/execution/idempotency.py:59-60 | A row whose operation crashed stays in progress in every later state: no call for its key runs or replays again. |
| `Idempotency.RetryKeepsExclusionIff` | packages/execution/idempotency.py:40-68 | For every run, with no assumption on the actions its calls name: cancelled actions are inactive after every prefix if and only if no call retries a failed row whose own action is cancelled; the code looks up the action of the call instead. |
| `Idempotency.IncoherentCallRevives` | packages/execution/idempotency.py:40-68 | Without the assumption that a call names the action of its intent, some run ends with a cancelled action that is active. |
| `JobQueue.PostgresJobQueue.Enqueue` | packages/jobs/queue.py:29-73 | Refuses a limit below one; a known key changes nothing and returns its row, or fails on different kind or payload; otherwise one new pending row. |
| `JobQueue.PostgresJobQueue.Claim` | packages/jobs/queue.py:75-115 | Claims the row with the smallest start time, then id, of those claimable and not locked, raising its attempt by one and leasing it to the worker; none only if no such row exists. |
| `JobQueue.PostgresJobQueue.Heartbeat` | packages/jobs/queue.py:117-127 | Exactly when the worker still holds the row, the lease then ends at the given time plus the lease length; otherwise nothing changes. |
| `JobQueue.PostgresJobQueue.Succeed` | packages/jobs/queue.py:129-142 | Completes the row and drops the lease exactly when the worker still holds it; otherwise nothing changes. |
| `JobQueue.PostgresJobQueue.Fail` | packages/jobs/queue.py:144-165 | Sends the row back or to the dead letters, by the snapshot's attempt, exactly when the worker still holds it; otherwise nothing changes. |
| `JobQueue.AlwaysSound` | packages/jobs/queue.py:75-165 | Over every run: attempt equals the number of claims, exactly the running rows hold a lease and it is the latest claimer's, a dead letter has used at least its allowed attempts, exactly succeeded rows have a result, and keys are unique. |
| `JobQueue.FinalForever` | packages/jobs/queue.py:117-165 | Succeeded and dead-letter rows never change again. |
| `JobQueue.LostLeaseIsInert` | packages/jobs/queue.py:117-165 | A worker whose job was last claimed by another worker changes nothing by heartbeat, success or failure. |
| `JobQueue.ClaimableFrom` | packages/jobs/queue.py:82-98 | Leases, retry delays and start times are kept to the instant: after a claim or held heartbeat at a time with a lease, a failure with an attempt left, or an enqueue, and until the holder reports or beats again, a claim of the row before that time plus lease (or delay, or start) changes nothing in any later state, and any claim from then on takes the row. |
| `JobQueue.PayloadTravels` | packages/jobs/queue.py:55-115 | Tenant, key, kind, payload and attempt limit of a row are those enqueued, in every later state. |
| `JobQueue.ResultIsKept` | packages/jobs/queue.py:129-142 | The result reported by the holder is the row's result in every later state. |
| `JobQueue.FailureIsKept` | packages/jobs/queue.py:144-165 | A failure is stored with its text, cut at 4000 characters; the row goes back to pending or, exactly when the snapshot has no attempt left, to the dead letters for good. |
| `JobQueue.RetryDelayDoubles` | packages/jobs/queue.py:147 | The retry delay is one second before any attempt, doubles with each of the first eight and is 256 from then on. |
| `JobQueue.RetryWaits` | packages/jobs/queue.py:147-154 | Every recorded failure moves the row between 2 and 256 seconds into the future; the cap of 300 is never reached. |
| `JobQueue.AttemptsUnbounded` | packages/jobs/queue.py:82-98 | The attempt limit does not bound claims: with one attempt allowed, any number of claims happens when workers die. |
| `JobQueue.OverclaimsAreExpiries` | packages/jobs/queue.py:82-98 | If failures are reported with current snapshots, a claim beyond the limit always takes over an expired lease, never a pending row. |
| `JobQueue.LimitKeptIff` | packages/jobs/queue.py:75-165 | Every run keeps every row within its allowed attempts if and only if no claim of the run takes a row that has no attempt left. |
| `JobQueue.FreshLimitKeptIff` | packages/jobs/queue.py:75-165 | If failures are reported with current snapshots, the only claims that break the limit take over the expired lease of a last attempt. |
| `JobQueue.StaleReportOverclaims` | packages/jobs/queue.py:144-165 | The other way past the limit: a worker that claims its own job twice and reports failure with the first snapshot sends a spent row back to the queue, and it is claimed three times of two. |
| `Quota.QuotaLedger.Configure` | packages/workloads/quota.py:25-50 | Refuses negative limits and limits below current usage; otherwise sets the tenant's limits and nothing else. |
| `Quota.QuotaLedger.Reserve` | packages/workloads/quota.py:57-107 | Refuses negative demand, a missing key and a key reused with other demand; a known key answers whether it is still held and changes nothing; otherwise reserves exactly when a ledger exists and all three limits allow. |
| `Quota.QuotaLedger.Release` | packages/workloads/quota.py:129-164 | Releases exactly the unreleased reservation of this key and demand, lowering usage by it; otherwise nothing changes. |
| `Quota.QuotaLedger.Usage` | packages/workloads/quota.py:173-186 | On conserved books, the usage read is what the tenant's unreleased reservations hold. |
| `Quota.AlwaysConserved` | packages/workloads/quota.py:25-164 | Under every mix of configure, reserve and release, each tenant's usage equals the sum and count of its unreleased reservations and stays within its limits, and keys are unique. |
| `Quota.ReserveRaises` | packages/workloads/quota.py:57-107 | A new key is granted if and only if the tenant has a ledger and all three limits allow it; usage then rises by exactly the demand and one job, and otherwise nothing changes. |
| `Quota.ReleaseLowers` | packages/workloads/quota.py:129-164 | On conserved books, a release naming a held reservation with its demand lowers usage by exactly that demand and one job; any other changes nothing. |
| `Quota.ReleaseUndoesReserve` | packages/workloads/quota.py:57-164 | Releasing a granted reservation leaves every ledger as it was before. |
| `Quota.ConfigureLimits` | packages/workloads/quota.py:25-50 | Limits are accepted if and only if none is negative and they cover current usage; usage and other tenants stay as they are. |
| `Quota.ClampNeverFires` | packages/workloads/quota.py:155-157 | A release that matches a reservation never needs the clamp at zero. |
| `Quota.ReserveOnce` | packages/workloads/quota.py:71-81 | After a granted reservation, reserving the same key again changes nothing, whatever happened in between. |
| `Quota.ReleaseOnce` | packages/workloads/quota.py:141-151 | After a release, releasing the same key again changes nothing, whatever happened in between. |
| `Approval.ApprovalWorkflow.Create` | packages/approval/workflow.py:39-44 | Refuses a count below the risk minimum, missing roles and a taken id; otherwise stores the request as given. |
| `Approval.ApprovalWorkflow.Approve` | packages/approval/workflow.py:180-198 | Refuses decided, expired, own and wrong-role votes in that order, marking an expired request; a second vote changes nothing; otherwise the vote is added and decides at the required count. |
| `Approval.ApprovalWorkflow.Reject` | packages/approval/workflow.py:223-231 | Rejects a pending request, repeats a rejection, refuses anything else. |
| `Approval.ApprovalWorkflow.Modify` | packages/approval/workflow.py:276-317 | Changes the terms only of a pending unvoted request, only for its requester, never below the risk minimum. |
| `Approval.AlwaysSound` | packages/approval/workflow.py:83-317 | In every run from freshly created requests: votes are by different people, none the requester, each in a required role; a request is approved exactly when its votes reach its quorum, which is the required count or one if that is zero; the required count is at least the minimum of its risk. |
| `Approval.ApprovedMeansQuorum` | packages/approval/workflow.py:194-196 | An approved request has exactly its quorum of different approvers: the required count, or one if that is zero, at least two from risk level 3 on, and the requester is not among them. |
| `Approval.QuorumApproves` | packages/approval/workflow.py:180-198 | Votes by different eligible actors in time are recorded one by one, and the request is approved by the vote that completes the quorum and not before; no other request changes. |
| `Approval.CreatedIsApproved` | packages/approval/workflow.py:39-198 | A new request with a count of at least two from level 3 on, one at level 2, and roles if it asks for votes, is stored, and approved by that many eligible votes. |
| `Approval.TermsGovern` | packages/approval/workflow.py:180-317 | Legal terms set by the requester of an untouched request are the ones it is then approved by: count, roles and expiry. |
| `Approval.RejectionIsFinal` | packages/approval/workflow.py:223-231 | A pending request that is rejected stays rejected, its votes unchanged, whatever is called. |
| `Approval.ExpiryIsFinal` | packages/approval/workflow.py:184-187 | A vote at or after the expiry is not counted and leaves the request expired for good. |
| `Approval.DecidedForever` | packages/approval/workflow.py:180-231 | A decided request is never changed again, whatever is called. |
| `Approval.VotesWereCast` | packages/approval/workflow.py:184-197 | Every recorded vote was cast by an approve call of the run, by that actor in that role, before the expiry the request ends up with. |
| `Approval.CreateSoundIff` | packages/approval/workflow.py:83-88 | Create stores a request as given, votes and status included: in every run whose requests come sound or already decided, all requests are sound in the end if and only if every request stored was, since no later call repairs a decided one. |
| `ActionGuard.Evaluate` | packages/execution/action_guard.py:42-74 | Raises exactly when a bounded parameter cannot be compared; otherwise the reasons are exactly the facts against the action, and it is allowed if and only if it meets every requirement. |
| `ActionGuard.CheckBounds` | packages/execution/action_guard.py:59-66 | The loop reports exactly the missing and violated bounds, or raises at a parameter that cannot be compared. |
| `ActionGuard.AllowedIsApproved` | packages/execution/action_guard.py:67-74 | An allowed action of level L2 or above has a live approval from the workflow for its plan and tenant, with different approvers, at least one, none the requester, each of whom voted before it expired. |
| `ActionGuard.TwoApproversIff` | packages/execution/action_guard.py:67-74 | The guard does not compare risks: an allowed action has two independent approvers if and only if its approval required two, which an approval of risk L3 or above always does. |
| `ActionGuard.OneApproverSuffices` | packages/execution/action_guard.py:67-74 | An allowed L4 action with a single approver exists, on an approval requested as L2. |
| `Mpc.Reconcile` | packages/mpc/state_estimator.py:25-32 | A difference is material if and only if a planned job is neither running nor completed, or has drifted by more than 0.01. |
| `Mpc.DiffMeans` | packages/mpc/state_estimator.py:25-32 | The diff lists exactly the planned jobs that are neither running nor completed, and with their errors exactly the jobs more than 0.01 off their plan. |
| `Mpc.ChurnLimit` | packages/mpc/controller.py:101-106 | Churn is symmetric, between 0 and 1, and above one half exactly when more placements differ than are shared. |
| `Mpc.MpcController.Run` | packages/mpc/controller.py:37-99 | One cycle advances the controller as specified for what the optimizer answered, which is what request and clock determine; the optimizer's part raises if and only if a slot was executed before or the optimizer raises; a raising cycle changes nothing. |
| `Mpc.CycleFollows` | packages/mpc/controller.py:49-74 | With data quality of at least 0.6 and a new plan, the hold happens if and only if a plan is held, no planned job vanished or drifted, and more placements differ between the two plans than they share; the held plan is then followed and kept. Below 0.6 or without a new plan the held plan is followed as last safe plan; otherwise the new one, and it is held from then on. |
| `Mpc.ReasonsMean` | packages/mpc/controller.py:53-74 | Each reason is given exactly when it applies, and the optimizer's diagnostics exactly when usable data gave no plan. |
| `Mpc.ReleaseMeans` | packages/mpc/controller.py:79-83 | A cycle releases exactly the allocations of its plan that use the slot, each cut down to it. |
| `Mpc.ReleaseSlot` | packages/mpc/controller.py:79-83 | The release is the plan cut down to the one slot and takes no more GPUs there than the plan does. |
| `Mpc.Earliest` | packages/mpc/controller.py:75-78 | The slot released is the smallest index not executed; none exactly when all are executed. |
| `Mpc.MpcController.ExportState` | packages/mpc/controller.py:112-118 | The document holds penalty, safe plan, sequence and the executed slots in increasing order, field by field. |
| `Mpc.MpcController.FromState` | packages/mpc/controller.py:120-146 | Rebuilds a controller field by field, with the defaults for missing entries, or raises; from an export it has exactly the exported penalty and state, and an empty list of past cycles. |
| `Mpc.DefaultsFillIn` | packages/mpc/controller.py:120-146 | A missing entry reads like the value a new controller has; an empty document is a new controller. |
| `Mpc.RestoreRoundTrip` | packages/mpc/controller.py:112-146 | Reading back a written state, its plan rebuilt allocation by allocation and its slots re-collected from the sorted list, gives the state every later cycle depends on. |
| `Documents.PlanRoundTrip` | packages/mpc/controller.py:115-143 | Writing a plan out field by field, assumptions, violations and input digest included, and rebuilding it gives the plan back. |
| `Mpc.AlwaysCoherent` | packages/mpc/controller.py:46-146 | Over every run, restarts included: ids count up by one, the executed set is exactly the slots released and none twice, each release is the followed plan at the request's earliest slot, and each plan followed was validated for its own request or is the held plan of an earlier cycle. |
| `Mpc.NoSlotTwice` | packages/mpc/controller.py:47-48 | No slot index is released by two cycles, and cycle numbers neither repeat nor skip. |
| `Mpc.FallbackMeansInfeasible` | packages/mpc/controller.py:56-66 | With usable data and an answer in time, on slots of any numbering: the cycle raises if and only if it would rewrite an executed slot, the optimizer raises, or there is neither a complete vector nor a held plan; it falls back to the last safe plan if and only if there is no complete vector. |
| `Mpc.OwnReleaseFits` | packages/mpc/controller.py:67-83 | A cycle that follows its own plan releases no more GPUs than the slot has. |
| `Mpc.HeldReleaseFits` | packages/mpc/controller.py:60-71 | A cycle that falls back follows a plan validated in an earlier cycle and releases no more than the slot had then. |
| `Mpc.HeldFitsIff` | packages/mpc/controller.py:60-83 | A held plan is not checked against the new request: its release fits the slot as it is now if and only if the held plan's load on that slot does. |
| `Mpc.HeldOverruns` | packages/mpc/controller.py:56-65 | From any state: whenever a fresh slot has less room than the held plan's load, a cycle with low data quality releases that load all the same. |
| `MpcSamples.HeldRunOverruns` | packages/mpc/controller.py:56-83 | A run from the start, with answers the optimizer gives: its second cycle releases two GPUs into a slot of any capacity, so it overruns the slot if and only if the slot has fewer than two. |
| `MpcSamples.TailCycleRaises` | packages/mpc/controller.py:46-51 | Whatever the controller holds, a cycle on what is left of an aligned horizon after k slots raises whenever its first look is in time, every job has an option and the first may use one of the last k slots. |
| `MpcSamples.RestCycleRaises` | packages/mpc/controller.py:46-51 | A run from the start: after one cycle the request for the rest of the horizon raises and changes nothing, although the job fits the slot left and a safe plan is held. |
| `Store.ResourceStore.Put` | apps/api/store.py:61-102 | Replays a known token or refuses it for another request, refuses a stale or missing tag on an existing resource, otherwise stores the next version and remembers the answer. |
| `Store.ResourceStore.Get` | apps/api/store.py:104-105 | On a well-versioned store the resource found is its highest version; not found means no version exists. |
| `Store.ResourceStore.History` | apps/api/store.py:122-131 | On a well-versioned store the history is versions 1, 2, ..., n in order, and the last is the current resource. |
| `Store.AlwaysVersioned` | apps/api/store.py:78-102 | After every run of writes, versions of each resource are exactly 1..n, each labelled with its own number and tag, the current one is the last, and every remembered answer is a stored version. |
| `Store.AfterKeeps` | apps/api/store.py:98-101 | No later write changes a stored version or a remembered answer, and versions only grow. |
| `Store.WriteIsReadBack` | apps/api/store.py:85-102 | A write with a new token is taken if and only if the resource is new or the tag is the current one; its body with the id set is then the next version, current at once and readable in every later state. |
| `Store.ReplayAnswers` | apps/api/store.py:79-84 | Sending a write again at any later time answers the resource stored the first time and changes nothing; the same token for another request is refused. |
| `Store.TagSpent` | apps/api/store.py:86-89 | After a write based on a tag has gone through, no later write based on that tag does. |
| `Store.NoLostUpdate` | apps/api/store.py:86-89 | In any interleaving, two updates of a resource never carry the same tag. |
| `Store.TenantsIsolated` | apps/api/store.py:78-102 | A tenant's resources, versions and remembered answers are what they would be had no other tenant written. |
| `Store.AnswersIsolated` | apps/api/store.py:78-102 | The answer to a tenant's write does not depend on other tenants' writes. |
| `Audit.VerifyChain` | packages/observability/audit.py:148-161 | True if and only if every record points at the digest before it and seals its own contents. |
| `Audit.AuditLog.Append` | packages/observability/audit.py:51-80 | Adds one record sealed onto the last digest; an intact log stays intact. |
| `Audit.AuditLog.ListRecords` | packages/observability/audit.py:190 | The tenant's records, all of them, in log order. |
| `Audit.AuditLog.VerifyTenant` | packages/observability/audit.py:192-203 | On an intact in-memory log, true if and only if the tenant's records are the first of the log. |
| `Audit.AlwaysChained` | packages/observability/audit.py:51-80 | After any appends the log verifies and holds the entries appended, in order. |
| `Audit.LastHashPinsLog` | packages/observability/audit.py:148-161 | With a collision-free digest, two verified logs with the same last digest are identical, so changing, dropping, inserting or reordering a record is detected. |
| `Audit.TenantChainIff` | packages/observability/audit.py:192-203 | In memory all tenants share one chain, so one tenant's records form a chain if and only if they are a prefix of the log. |
| `Audit.TenantsAlwaysChained` | packages/observability/audit.py:82-135 | In the persistent log, which links per tenant, every tenant's records always verify, however appends interleave. |
| `Chargeback.AllocateCost` | packages/chargeback/service.py:15-35 | Refuses exactly negative amounts or weights and then weightless splits; otherwise the shares sum exactly to the total, and the reconciliation error is never raised. |
| `Chargeback.Split` | packages/chargeback/service.py:23-32 | Every item but the last gets its rounded due and the last one the rest. |
| `Chargeback.QuantizeClose` | packages/chargeback/service.py:29 | Rounding to the quantum moves an amount by at most half a quantum and never below zero. |
| `Chargeback.SharesInOrder` | packages/chargeback/service.py:22 | The shares are the weighted keys, each exactly once, in dictionary order by dimension and within a dimension by value. |
| `Chargeback.SharesAreFair` | packages/chargeback/service.py:26-30 | Every share but the last is within half a quantum of its proportional due and not negative. |
| `Chargeback.LastShareIsClose` | packages/chargeback/service.py:26-32 | The last share is within (n - 1)/2 quanta of its proportional due. |
| `Chargeback.LastShareSign` | packages/chargeback/service.py:26-32 | The last share is not negative when it is due at least half a quantum for each of the other shares. |
| `Chargeback.EqualShares` | packages/chargeback/service.py:26-32 | For any number n of keys of equal weight, any total and any number of places: the last share is non-negative if and only if n - 1 times the rounded equal share total / n does not exceed the total. |
| `Chargeback.BoundAttained` | packages/chargeback/service.py:26-32 | The bound (n - 1)/2 quanta on the last share is attained on either side, for every number of keys and every quantum. |
| `Chargeback.LastShareCanBeNegative` | packages/chargeback/service.py:26-32 | Five cents over eight keys of equal weight leaves the last key minus two cents. |

## Left out

- Optimizer.OptimalMeansOptimal: the sign condition is sufficient for every request; that it is also necessary is shown on the two-by-two family only, because in general a negative cost may happen not to mislead the search.
- Horizon.RemainingRaises: sufficient only, with RemainingEnds as the other side; with several jobs which of them is priced past the tuple depends on the order of the search, and the exact condition is the reference search itself (Optimizer.Optimize).
- Mpc.HeldFitsIff: states the load of the held plan as the condition; nothing the controller stores bounds it by the new request.
- Chargeback.LastShareSign: the bound on the due share is sufficient only; the exact sign is stated for keys of equal weight (EqualShares), since for mixed weights it is just the sum of the other rounded shares.
- Scenarios.ChangeSlotPrices: says nothing about the delta when one of the two runs timed out, because a timed-out plan is arbitrary.
- Scenarios.RunWhatIf: assumes non-negative capacities, since scaling a negative one changes what "more room" means.
- MilpExact.AmplePowerAgrees: sufficient only; that scarce power can still leave the optima equal depends on which placements are cheapest.
- Mpc.MpcController.FromState: entries of another JSON type than an export writes count as an exception, although Python would convert some of them.
- ActionGuard.Evaluate: the order of the reasons is not part of the contract; infinite bounds are not modelled.
- JobQueue.PostgresJobQueue.Enqueue: two concurrent first enqueues of one key are not modelled; the unique index would fail one of them.
- Idempotency.IdempotencyStore.Cancel: the reason is taken as already stripped of surrounding blanks; stored error texts are not modelled.
- Decimal's 28-digit context: arithmetic is exact, so rounding of long products and quotients is not captured.
- The HiGHS call, the conversion to floating point and the model export in packages/optimization/solvers.py: the solver is any source of a 0/1 vector.
- The in-memory branches of packages/execution/idempotency.py and packages/workloads/quota.py, which keep less information than the persistent ones.
- The database branches of the approval workflow and the resource store, which follow the in-memory ones, and the expiry of remembered writes there.
- Single lookups and listings that only read: the store's list and get_version, the workflow's get and list, the queue's status.
- SQL itself: row locks, isolation levels, row-level security and serialization of JSON values are folded into atomic steps.
- Result fields that no decision reads: objective breakdown, run time, topology and forecast versions.
- Naive datetimes, except that modifying an approval with one is refused.
- packages/persistence/operations.py: another execute-once protocol whose finality needs a timing assumption.
- packages/simulation, packages/plans, packages/risk, packages/budgets, packages/sovereignty: tables, single branches and random simulation that would only add easy members.
- HTTP routing, the web client, the worker loop, connectors, identity, object storage and certification.
