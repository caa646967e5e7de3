/** Guarded execution against cancellation: the persistent branch of packages/execution/idempotency.py.

    Each database transaction is one step. Between a granted `Begin` and its outcome the caller's operation runs
    outside any transaction, so other steps interleave and the process may crash. An intent stands for its own
    digest: the digest is taken to be collision free. */
module Idempotency {
  import opened Wrappers

  datatype Intent = Intent(action: string, parameters: string)

  datatype Status = Started | Succeeded | Failed

  datatype Execution = Execution(actionId: string, intent: Intent, status: Status, result: Option<string>)

  datatype Cancellation = Cancellation(actorId: string, reason: string)

  /** Rows keyed by (tenant, idempotency key) and by (tenant, action). */
  datatype Tables = Tables(
    executions: map<(string, string), Execution>,
    cancellations: map<(string, string), Cancellation>)

  /** An operation in flight. */
  datatype Ticket = Ticket(tenant: string, key: string, intent: Intent)

  datatype BeginOutcome =
    Run | Replay(result: Option<string>) | MissingIds | ActionCancelled | DifferentIntent | InProgress

  datatype CancelOutcome = Recorded | AlreadyRecorded | MissingFields | ActionActive | DifferentCancellation

  // ----- the transactions -----

  function BeginOutcomeOf(t: Tables, tenant: string, key: string, intent: Intent, actionId: string): BeginOutcome {
    if tenant == "" || actionId == "" then MissingIds
    else if (tenant, actionId) in t.cancellations then ActionCancelled
    else if (tenant, key) in t.executions then
      var row := t.executions[(tenant, key)];
      if row.intent != intent then DifferentIntent
      else match row.status
           case Succeeded => Replay(row.result)
           case Started => InProgress
           case Failed => Run
    else Run
  }

  function Begun(t: Tables, tenant: string, key: string, intent: Intent, actionId: string): Tables {
    if (tenant, key) in t.executions then
      t.(executions := t.executions[(tenant, key) := t.executions[(tenant, key)].(status := Started)])
    else
      t.(executions := t.executions[(tenant, key) := Execution(actionId, intent, Started, None)])
  }

  /** The row a ticket's final update addresses. */
  predicate Addresses(t: Tables, k: Ticket) {
    (k.tenant, k.key) in t.executions && t.executions[(k.tenant, k.key)].intent == k.intent
  }

  function SucceedRow(t: Tables, k: Ticket, result: string): Tables {
    if !Addresses(t, k) then t
    else
      var row := t.executions[(k.tenant, k.key)];
      t.(executions := t.executions[(k.tenant, k.key) := row.(status := Succeeded, result := Some(result))])
  }

  function FailRow(t: Tables, k: Ticket): Tables {
    if !Addresses(t, k) then t
    else
      var row := t.executions[(k.tenant, k.key)];
      t.(executions := t.executions[(k.tenant, k.key) := row.(status := Failed)])
  }

  predicate Active(row: Execution) {
    row.status == Started || row.status == Succeeded
  }

  predicate HasActive(t: Tables, tenant: string, actionId: string) {
    exists k :: k in t.executions && k.0 == tenant && t.executions[k].actionId == actionId && Active(t.executions[k])
  }

  function CancelOutcomeOf(t: Tables, tenant: string, actionId: string, actorId: string, reason: string)
    : CancelOutcome
  {
    if actionId == "" || tenant == "" || actorId == "" || reason == "" then MissingFields
    else if HasActive(t, tenant, actionId) then ActionActive
    else if (tenant, actionId) in t.cancellations then
      if t.cancellations[(tenant, actionId)] == Cancellation(actorId, reason) then AlreadyRecorded
      else DifferentCancellation
    else Recorded
  }

  function Cancelled(t: Tables, tenant: string, actionId: string, actorId: string, reason: string): Tables {
    t.(cancellations := t.cancellations[(tenant, actionId) := Cancellation(actorId, reason)])
  }

  /** The store, updated in place by its transactions. */
  class IdempotencyStore {
    var executions: map<(string, string), Execution>
    var cancellations: map<(string, string), Cancellation>

    function Contents(): Tables
      reads this
    {
      Tables(executions, cancellations)
    }

    constructor ()
      ensures Contents() == Tables(map[], map[])
    {
      executions, cancellations := map[], map[];
    }

    /** The first transaction of `execute_once`. */
    method Begin(tenant: string, key: string, intent: Intent, actionId: string) returns (outcome: BeginOutcome)
      modifies this
      ensures outcome == BeginOutcomeOf(old(Contents()), tenant, key, intent, actionId)
      ensures Contents() ==
              if outcome == Run then Begun(old(Contents()), tenant, key, intent, actionId) else old(Contents())
    {
      if tenant == "" || actionId == "" {
        return MissingIds;
      }
      if (tenant, actionId) in cancellations {
        return ActionCancelled;
      }
      if (tenant, key) in executions {
        var row := executions[(tenant, key)];
        if row.intent != intent {
          return DifferentIntent;
        }
        if row.status == Succeeded {
          return Replay(row.result);
        }
        if row.status == Started {
          return InProgress;
        }
        executions := executions[(tenant, key) := row.(status := Started)];
      } else {
        executions := executions[(tenant, key) := Execution(actionId, intent, Started, None)];
      }
      return Run;
    }

    /** The transaction after the operation returned. */
    method RecordSuccess(ticket: Ticket, result: string)
      modifies this
      ensures Contents() == SucceedRow(old(Contents()), ticket, result)
      ensures Addresses(old(Contents()), ticket) ==>
                && (ticket.tenant, ticket.key) in executions
                && executions[(ticket.tenant, ticket.key)].status == Succeeded
                && executions[(ticket.tenant, ticket.key)].result == Some(result)
    {
      if Addresses(Contents(), ticket) {
        var k := (ticket.tenant, ticket.key);
        executions := executions[k := executions[k].(status := Succeeded, result := Some(result))];
      }
    }

    /** The transaction after the operation raised. */
    method RecordFailure(ticket: Ticket)
      modifies this
      ensures Contents() == FailRow(old(Contents()), ticket)
    {
      if Addresses(Contents(), ticket) {
        var k := (ticket.tenant, ticket.key);
        executions := executions[k := executions[k].(status := Failed)];
      }
    }

    method Cancel(tenant: string, actionId: string, actorId: string, reason: string) returns (outcome: CancelOutcome)
      modifies this
      ensures outcome == CancelOutcomeOf(old(Contents()), tenant, actionId, actorId, reason)
      ensures Contents() ==
              if outcome == Recorded then Cancelled(old(Contents()), tenant, actionId, actorId, reason)
              else old(Contents())
    {
      if actionId == "" || tenant == "" || actorId == "" || reason == "" {
        return MissingFields;
      }
      if exists k :: k in executions && k.0 == tenant && executions[k].actionId == actionId && Active(executions[k]) {
        return ActionActive;
      }
      if (tenant, actionId) in cancellations {
        var existing := cancellations[(tenant, actionId)];
        if existing.actorId != actorId || existing.reason != reason {
          return DifferentCancellation;
        }
        return AlreadyRecorded;
      }
      cancellations := cancellations[(tenant, actionId) := Cancellation(actorId, reason)];
      return Recorded;
    }
  }

  // ----- interleavings -----

  datatype State = State(tables: Tables, running: map<nat, Ticket>)

  datatype Event =
    | BeginStep(pid: nat, tenant: string, key: string, intent: Intent, actionId: string)
    | SucceedStep(pid: nat, result: string)
    | FailStep(pid: nat)
    | CrashStep(pid: nat)
    | CancelStep(tenant: string, actionId: string, actorId: string, reason: string)

  const Empty := State(Tables(map[], map[]), map[])

  /** One step; a worker that is already running an operation does not begin another. */
  ghost function Next(s: State, e: Event): State {
    match e
    case BeginStep(pid, tenant, key, intent, actionId) =>
      if pid !in s.running && BeginOutcomeOf(s.tables, tenant, key, intent, actionId) == Run then
        State(Begun(s.tables, tenant, key, intent, actionId), s.running[pid := Ticket(tenant, key, intent)])
      else s
    case SucceedStep(pid, result) =>
      if pid in s.running then State(SucceedRow(s.tables, s.running[pid], result), s.running - {pid}) else s
    case FailStep(pid) =>
      if pid in s.running then State(FailRow(s.tables, s.running[pid]), s.running - {pid}) else s
    case CrashStep(pid) => s.(running := s.running - {pid})
    case CancelStep(tenant, actionId, actorId, reason) =>
      if CancelOutcomeOf(s.tables, tenant, actionId, actorId, reason) == Recorded then
        s.(tables := Cancelled(s.tables, tenant, actionId, actorId, reason))
      else s
  }

  ghost function After(s: State, events: seq<Event>): State {
    if |events| == 0 then s else Next(After(s, events[..|events| - 1]), events[|events| - 1])
  }

  /** The caller passes the action its intent names. */
  ghost predicate Coherent(e: Event) {
    e.BeginStep? ==> e.intent.action == e.actionId
  }

  ghost predicate AllCoherent(events: seq<Event>) {
    forall i :: 0 <= i < |events| ==> Coherent(events[i])
  }

  /** A cancelled action has no started or succeeded row. */
  ghost predicate Exclusive(t: Tables) {
    forall k :: k in t.executions && t.executions[k].status in {Started, Succeeded} ==>
      (k.0, t.executions[k].actionId) !in t.cancellations
  }

  ghost predicate RowsConsistent(t: Tables) {
    forall k :: k in t.executions ==>
      && t.executions[k].intent.action == t.executions[k].actionId
      && (t.executions[k].status == Succeeded <==> t.executions[k].result.Some?)
  }

  /** Every operation in flight owns a started row of its own intent. */
  ghost predicate Backed(s: State) {
    forall p :: p in s.running ==>
      Addresses(s.tables, s.running[p])
      && s.tables.executions[(s.running[p].tenant, s.running[p].key)].status == Started
  }

  /** No two operations in flight share a key. */
  ghost predicate OneInFlight(s: State) {
    forall p, q :: p in s.running && q in s.running && p != q ==>
      (s.running[p].tenant, s.running[p].key) != (s.running[q].tenant, s.running[q].key)
  }

  ghost predicate Orderly(s: State) {
    Backed(s) && OneInFlight(s)
  }

  ghost predicate Safe(s: State) {
    Exclusive(s.tables) && RowsConsistent(s.tables) && Orderly(s)
  }

  lemma BeginSafe(s: State, e: Event)
    requires Safe(s) && Coherent(e) && e.BeginStep?
    ensures Safe(Next(s, e))
  {
    hide Exclusive, RowsConsistent, Orderly;
    StepOrderly(s, e);
    if Next(s, e) != s {
      BeginRows(s.tables, e.tenant, e.key, e.intent, e.actionId);
    }
  }

  lemma BeginRows(t: Tables, tenant: string, key: string, intent: Intent, actionId: string)
    requires Exclusive(t) && RowsConsistent(t) && intent.action == actionId
    requires BeginOutcomeOf(t, tenant, key, intent, actionId) == Run
    ensures Exclusive(Begun(t, tenant, key, intent, actionId))
            && RowsConsistent(Begun(t, tenant, key, intent, actionId))
  {
  }

  lemma BeginFlight(s: State, e: Event)
    requires Backed(s) && OneInFlight(s) && e.BeginStep? && e.pid !in s.running
    requires BeginOutcomeOf(s.tables, e.tenant, e.key, e.intent, e.actionId) == Run
    ensures Backed(Next(s, e)) && OneInFlight(Next(s, e))
  {
    var s' := Next(s, e);
    forall p | p in s.running
      ensures (s.running[p].tenant, s.running[p].key) != (e.tenant, e.key)
    {
      assert Addresses(s.tables, s.running[p]);
    }
  }

  lemma FinishFlight(s: State, e: Event)
    requires Orderly(s) && (e.SucceedStep? || e.FailStep?)
    ensures Orderly(Next(s, e))
  {
  }

  lemma StepOrderly(s: State, e: Event)
    requires Orderly(s)
    ensures Orderly(Next(s, e))
  {
    match e
    case BeginStep(_, _, _, _, _) =>
      if Next(s, e) != s {
        BeginFlight(s, e);
      }
    case SucceedStep(_, _) => FinishFlight(s, e);
    case FailStep(_) => FinishFlight(s, e);
    case CrashStep(_) =>
    case CancelStep(_, _, _, _) =>
  }

  /** Over every interleaving, crashes included and whatever actions the calls name: each (tenant, key) has at most one
      operation in flight, and each operation in flight owns its started row. */
  lemma {:induction false} AlwaysOrderly(s: State, events: seq<Event>)
    requires Orderly(s)
    ensures Orderly(After(s, events))
  {
    hide Orderly, Next;
    if |events| == 0 {
    } else {
      AlwaysOrderly(s, events[..|events| - 1]);
      StepOrderly(After(s, events[..|events| - 1]), events[|events| - 1]);
    }
  }

  lemma SucceedSafe(s: State, e: Event)
    requires Safe(s) && e.SucceedStep?
    ensures Safe(Next(s, e))
  {
  }

  lemma FailSafe(s: State, e: Event)
    requires Safe(s) && e.FailStep?
    ensures Safe(Next(s, e))
  {
  }

  lemma CancelSafe(s: State, e: Event)
    requires Safe(s) && e.CancelStep?
    ensures Safe(Next(s, e))
  {
    if Next(s, e) != s {
      CancelledExclusive(s.tables, e.tenant, e.actionId, e.actorId, e.reason);
    }
  }

  lemma CancelledExclusive(t: Tables, tenant: string, actionId: string, actorId: string, reason: string)
    requires Exclusive(t) && !HasActive(t, tenant, actionId)
    ensures Exclusive(Cancelled(t, tenant, actionId, actorId, reason))
  {
    forall k | k in t.executions && Active(t.executions[k])
      ensures k.0 != tenant || t.executions[k].actionId != actionId
    {
    }
  }

  lemma StepSafe(s: State, e: Event)
    requires Safe(s) && Coherent(e)
    ensures Safe(Next(s, e))
  {
    match e
    case BeginStep(_, _, _, _, _) => BeginSafe(s, e);
    case SucceedStep(_, _) => SucceedSafe(s, e);
    case FailStep(_) => FailSafe(s, e);
    case CrashStep(_) =>
    case CancelStep(_, _, _, _) => CancelSafe(s, e);
  }

  /** Over every interleaving, crashes included: a cancelled action never has a started or succeeded row, and each
      (tenant, key) has at most one operation in flight. */
  lemma {:induction false} AlwaysSafe(s: State, events: seq<Event>)
    requires Safe(s) && AllCoherent(events)
    ensures Safe(After(s, events))
  {
    hide Safe, Coherent, Next;
    if |events| == 0 {
    } else {
      AlwaysSafe(s, events[..|events| - 1]);
      StepSafe(After(s, events[..|events| - 1]), events[|events| - 1]);
    }
  }

  lemma EmptyOrderly()
    ensures Orderly(Empty) && Safe(Empty)
  {
  }

  // ----- success is final -----

  ghost predicate SucceededRow(s: State, k: (string, string), row: Execution) {
    k in s.tables.executions && s.tables.executions[k] == row && row.status == Succeeded
  }

  lemma StepKeepsSuccess(s: State, e: Event, k: (string, string), row: Execution)
    requires Orderly(s) && SucceededRow(s, k, row)
    ensures SucceededRow(Next(s, e), k, row)
  {
    assert k == (k.0, k.1);
  }

  /** Once recorded, a success and its result never change, whatever actions the calls name. */
  lemma {:induction false} SuccessIsFinal(s: State, events: seq<Event>, k: (string, string), row: Execution)
    requires Orderly(s) && SucceededRow(s, k, row)
    ensures SucceededRow(After(s, events), k, row)
  {
    hide Orderly, Next, SucceededRow;
    if |events| == 0 {
    } else {
      var front := events[..|events| - 1];
      SuccessIsFinal(s, front, k, row);
      AlwaysOrderly(s, front);
      StepKeepsSuccess(After(s, front), events[|events| - 1], k, row);
    }
  }

  /** Operations for key `k` that completed and were recorded along a run. */
  ghost function Successes(s: State, events: seq<Event>, k: (string, string)): nat {
    if |events| == 0 then 0
    else
      var before, e := After(s, events[..|events| - 1]), events[|events| - 1];
      Successes(s, events[..|events| - 1], k)
      + if e.SucceedStep? && e.pid in before.running && (before.running[e.pid].tenant, before.running[e.pid].key) == k
        then 1 else 0
  }

  ghost predicate HasSucceeded(s: State, k: (string, string)) {
    k in s.tables.executions && s.tables.executions[k].status == Succeeded
  }

  lemma SuccessStep(s: State, e: Event, k: (string, string))
    requires Orderly(s) && e.SucceedStep? && e.pid in s.running && (s.running[e.pid].tenant, s.running[e.pid].key) == k
    ensures !HasSucceeded(s, k) && HasSucceeded(Next(s, e), k)
  {
  }

  /** Each (tenant, key) succeeds at most once over every run from empty tables, whatever actions the calls name. */
  lemma {:induction false} AtMostOneSuccess(events: seq<Event>, k: (string, string))
    ensures Successes(Empty, events, k) <= 1
    ensures Successes(Empty, events, k) == 1 ==> HasSucceeded(After(Empty, events), k)
  {
    hide Orderly, Next, HasSucceeded;
    if |events| == 0 {
    } else {
      var front, e := events[..|events| - 1], events[|events| - 1];
      var before := After(Empty, front);
      AtMostOneSuccess(front, k);
      EmptyOrderly();
      AlwaysOrderly(Empty, front);
      if e.SucceedStep? && e.pid in before.running && (before.running[e.pid].tenant, before.running[e.pid].key) == k {
        SuccessStep(before, e, k);
      } else if HasSucceeded(before, k) {
        KeepsSuccess(before, e, k);
      }
    }
  }

  lemma KeepsSuccess(s: State, e: Event, k: (string, string))
    requires Orderly(s) && HasSucceeded(s, k)
    ensures HasSucceeded(Next(s, e), k)
  {
    StepKeepsSuccess(s, e, k, s.tables.executions[k]);
  }

  // ----- what a caller gets back -----

  /** The result of the one execution that completes is what every later call with the same key and intent is given,
      whatever happens in between, unless the action it names has been cancelled. */
  lemma ResultIsReplayed(s: State, p: nat, result: string, events: seq<Event>, actionId: string)
    requires Orderly(s) && p in s.running && s.running[p].tenant != "" && actionId != ""
    ensures var t, later := s.running[p], After(Next(s, SucceedStep(p, result)), events).tables;
            (t.tenant, actionId) !in later.cancellations ==>
              BeginOutcomeOf(later, t.tenant, t.key, t.intent, actionId) == Replay(Some(result))
  {
    hide After, Orderly;
    var e, t := SucceedStep(p, result), s.running[p];
    StepOrderly(s, e);
    RunningRow(s, p);
    var row := Next(s, e).tables.executions[(t.tenant, t.key)];
    SuccessIsFinal(Next(s, e), events, (t.tenant, t.key), row);
  }

  lemma RunningRow(s: State, p: nat)
    requires Orderly(s) && p in s.running
    ensures var t := s.running[p];
            && (t.tenant, t.key) in s.tables.executions
            && s.tables.executions[(t.tenant, t.key)].intent == t.intent
            && s.tables.executions[(t.tenant, t.key)].status == Started
  {
    assert Addresses(s.tables, s.running[p]);
  }

  /** While an execution runs, a call with its key is told so; after it failed, the next one runs; a call with another
      intent is refused either way. */
  lemma FailureIsRetried(s: State, p: nat, intent: Intent, actionId: string)
    requires Orderly(s) && p in s.running && s.running[p].tenant != "" && actionId != ""
    requires (s.running[p].tenant, actionId) !in s.tables.cancellations
    ensures var t, failed := s.running[p], Next(s, FailStep(p)).tables;
            && BeginOutcomeOf(s.tables, t.tenant, t.key, intent, actionId)
               == (if intent == t.intent then InProgress else DifferentIntent)
            && BeginOutcomeOf(failed, t.tenant, t.key, intent, actionId)
               == (if intent == t.intent then Run else DifferentIntent)
  {
    hide Orderly;
    RunningRow(s, p);
  }

  /** A cancellation that is accepted is kept with its actor and reason: the same call again is told that it is
      recorded, and one with another actor or reason is refused. */
  lemma CancellationAnswers(
    s: State, tenant: string, actionId: string, actor: string, reason: string, other: Cancellation)
    requires CancelOutcomeOf(s.tables, tenant, actionId, actor, reason) == Recorded
    requires other.actorId != "" && other.reason != ""
    ensures var later := Next(s, CancelStep(tenant, actionId, actor, reason)).tables;
            CancelOutcomeOf(later, tenant, actionId, other.actorId, other.reason)
            == if other == Cancellation(actor, reason) then AlreadyRecorded else DifferentCancellation
  {
    var later := Next(s, CancelStep(tenant, actionId, actor, reason)).tables;
    assert later.executions == s.tables.executions;
    assert HasActive(later, tenant, actionId) <==> HasActive(s.tables, tenant, actionId);
  }

  // ----- a crash leaves its row behind -----

  /** A started row whose operation is gone: the worker crashed before recording an outcome. */
  ghost predicate Orphaned(s: State, k: (string, string), row: Execution) {
    && k in s.tables.executions && s.tables.executions[k] == row && row.status == Started
    && forall p :: p in s.running ==> (s.running[p].tenant, s.running[p].key) != k
  }

  lemma StepKeepsOrphan(s: State, e: Event, k: (string, string), row: Execution)
    requires Orphaned(s, k, row)
    ensures Orphaned(Next(s, e), k, row)
  {
    assert k == (k.0, k.1);
  }

  /** Nothing ever picks a crashed execution up again: its key stays in progress in every later state. */
  lemma {:induction false} OrphanStays(s: State, events: seq<Event>, k: (string, string), row: Execution)
    requires Orphaned(s, k, row)
    ensures Orphaned(After(s, events), k, row)
    ensures forall intent, actionId ::
              var outcome := BeginOutcomeOf(After(s, events).tables, k.0, k.1, intent, actionId);
              outcome != Run && !outcome.Replay?
  {
    hide Orphaned, Next;
    if |events| == 0 {
    } else {
      OrphanStays(s, events[..|events| - 1], k, row);
      StepKeepsOrphan(After(s, events[..|events| - 1]), events[|events| - 1], k, row);
    }
    OrphanBlocks(After(s, events), k, row);
  }

  lemma OrphanBlocks(s: State, k: (string, string), row: Execution)
    requires Orphaned(s, k, row)
    ensures forall intent, actionId ::
              var outcome := BeginOutcomeOf(s.tables, k.0, k.1, intent, actionId);
              outcome != Run && !outcome.Replay?
  {
    assert k == (k.0, k.1);
  }

  // ----- cancellation is final -----

  /** A cancellation stays, with its actor and its reason. */
  lemma {:induction false} CancellationIsFinal(s: State, events: seq<Event>, a: (string, string))
    requires a in s.tables.cancellations
    ensures a in After(s, events).tables.cancellations
    ensures After(s, events).tables.cancellations[a] == s.tables.cancellations[a]
  {
    if |events| == 0 {
    } else {
      CancellationIsFinal(s, events[..|events| - 1], a);
    }
  }

  /** Once an action is cancelled, no later call for it runs or replays anything. */
  lemma CancelledNeverRuns(
    s: State, events: seq<Event>, tenant: string, actionId: string, key: string, intent: Intent)
    requires (tenant, actionId) in s.tables.cancellations
    ensures var outcome := BeginOutcomeOf(After(s, events).tables, tenant, key, intent, actionId);
            outcome == ActionCancelled || outcome == MissingIds
  {
    CancellationIsFinal(s, events, (tenant, actionId));
  }

  // ----- why the action must match the intent -----

  /** The step retries a failed row whose own action is cancelled; the code looks up the action of the call instead. */
  ghost predicate Revives(s: State, e: Event) {
    && e.BeginStep? && e.pid !in s.running
    && BeginOutcomeOf(s.tables, e.tenant, e.key, e.intent, e.actionId) == Run
    && (e.tenant, e.key) in s.tables.executions
    && (e.tenant, s.tables.executions[(e.tenant, e.key)].actionId) in s.tables.cancellations
  }

  lemma BeginKeepsExclusionIff(s: State, e: Event)
    requires Exclusive(s.tables) && e.BeginStep?
    ensures Exclusive(Next(s, e).tables) <==> !Revives(s, e)
  {
    var k, s' := (e.tenant, e.key), Next(s, e);
    if s' != s {
      assert s'.tables.executions[k].status == Started;
      assert Active(s'.tables.executions[k]);
    }
  }

  lemma FinishKeepsExclusion(s: State, e: Event)
    requires Exclusive(s.tables) && Orderly(s) && (e.SucceedStep? || e.FailStep?)
    ensures Exclusive(Next(s, e).tables)
  {
  }

  /** One step, whatever its call names: cancelled actions stay inactive exactly when the step revives none. */
  lemma StepKeepsExclusionIff(s: State, e: Event)
    requires Exclusive(s.tables) && Orderly(s)
    ensures Exclusive(Next(s, e).tables) <==> !Revives(s, e)
  {
    hide Exclusive, Orderly;
    match e
    case BeginStep(_, _, _, _, _) => BeginKeepsExclusionIff(s, e);
    case SucceedStep(_, _) => FinishKeepsExclusion(s, e);
    case FailStep(_) => FinishKeepsExclusion(s, e);
    case CrashStep(_) =>
    case CancelStep(_, _, _, _) =>
      if Next(s, e) != s {
        CancelledExclusive(s.tables, e.tenant, e.actionId, e.actorId, e.reason);
      }
  }

  /** Cancelled actions are inactive after every prefix of the run. */
  ghost predicate AlwaysExclusive(events: seq<Event>) {
    forall i :: 0 <= i <= |events| ==> Exclusive(After(Empty, events[..i]).tables)
  }

  ghost predicate NeverRevives(events: seq<Event>) {
    forall i :: 0 <= i < |events| ==> !Revives(After(Empty, events[..i]), events[i])
  }

  /** For every run, with no assumption on the actions its calls name: cancelled actions are inactive throughout if and
      only if no call retries a failed row whose own action is cancelled. */
  lemma {:induction false} RetryKeepsExclusionIff(events: seq<Event>)
    ensures AlwaysExclusive(events) <==> NeverRevives(events)
  {
    hide Exclusive, Orderly, Revives, Next;
    if |events| == 0 {
      EmptyExclusive();
    } else {
      var n := |events| - 1;
      var front, e := events[..n], events[n];
      RetryKeepsExclusionIff(front);
      EmptyOrderly();
      AlwaysOrderly(Empty, front);
      PrefixesSplit(events);
      if Exclusive(After(Empty, front).tables) {
        StepKeepsExclusionIff(After(Empty, front), e);
      }
    }
  }

  lemma PrefixesSplit(events: seq<Event>)
    requires |events| > 0
    ensures var front, e := events[..|events| - 1], events[|events| - 1];
            && (AlwaysExclusive(events) <==> AlwaysExclusive(front) && Exclusive(After(Empty, events).tables))
            && (NeverRevives(events) <==> NeverRevives(front) && !Revives(After(Empty, front), e))
            && (AlwaysExclusive(front) ==> Exclusive(After(Empty, front).tables))
  {
    hide Exclusive, Revives, After;
    var n := |events| - 1;
    var front := events[..n];
    assert events[..|events|] == events && front[..n] == front;
    assert forall i :: 0 <= i <= n ==> front[..i] == events[..i];
    assert forall i :: 0 <= i < n ==> front[i] == events[i];
  }

  lemma EmptyExclusive()
    ensures Exclusive(Empty.tables)
  {
  }

  lemma AfterFour(e0: Event, e1: Event, e2: Event, e3: Event)
    ensures After(Empty, [e0, e1, e2, e3]) == Next(Next(Next(Next(Empty, e0), e1), e2), e3)
  {
    hide Next;
    var events := [e0, e1, e2, e3];
    assert events[..3] == [e0, e1, e2] && [e0, e1, e2][..2] == [e0, e1] && [e0, e1][..1] == [e0] && [e0][..0] == [];
    assert After(Empty, [e0]) == Next(After(Empty, []), e0) == Next(Empty, e0);
    assert After(Empty, [e0, e1]) == Next(Next(Empty, e0), e1);
    assert After(Empty, [e0, e1, e2]) == Next(Next(Next(Empty, e0), e1), e2);
  }

  /** A call whose action differs from its intent's revives a cancelled action. */
  lemma IncoherentCallRevives()
    ensures exists events :: !Exclusive(After(Empty, events).tables)
  {
    hide After, Exclusive;
    var intent, k := Intent("a", ""), ("t", "k");
    var e0, e1 := BeginStep(0, "t", "k", intent, "a"), FailStep(0);
    var e2, e3 := CancelStep("t", "a", "u", "r"), BeginStep(1, "t", "k", intent, "b");
    var s2 := Next(Next(Empty, e0), e1);
    assert s2.tables == Tables(map[k := Execution("a", intent, Failed, None)], map[]) && s2.running == map[];
    var s3 := Next(s2, e2);
    assert !HasActive(s2.tables, "t", "a");
    assert s3.tables.cancellations == map[("t", "a") := Cancellation("u", "r")];
    var s4 := Next(s3, e3);
    NotExclusive(s4.tables, k);
    AfterFour(e0, e1, e2, e3);
    assert After(Empty, [e0, e1, e2, e3]) == s4;
  }

  lemma NotExclusive(t: Tables, k: (string, string))
    requires k in t.executions && Active(t.executions[k]) && (k.0, t.executions[k].actionId) in t.cancellations
    ensures !Exclusive(t)
  {
  }
}
