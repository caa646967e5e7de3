/** The gate before execution, packages/execution/action_guard.py: an action runs only if every check passes. */
module ActionGuard {
  import opened Wrappers
  import opened Approval

  /** What reading an action parameter as a decimal gives. Text that is no number, and NaN, cannot be compared:
      the comparison raises. */
  datatype Reading = Number(value: real) | Infinite | Incomparable

  datatype Bound = Bound(name: string, minimum: real, maximum: real)

  datatype Action = Action(
    planId: string, tenantId: string, kind: string, expectedVersion: string,
    parameters: map<string, Reading>, bounds: seq<Bound>, risk: RiskLevel, createdAt: int)

  datatype Guard = Guard(whitelist: set<string>, maxAge: int)

  datatype Context = Context(currentVersion: string, now: int, approval: Option<Request>)

  datatype Reason =
    | NotWhitelisted | ProhibitedCommand | StaleTarget | StaleAction
    | BoundMissing(name: string) | BoundViolation(name: string)
    | ApprovalRequired | ScopeMismatch | ApprovalExpired

  const Prohibited: set<string> := {"breaker", "relay", "pcs_switch", "firmware"}

  // ----- what each reason says -----

  predicate Within(b: Bound, reading: Reading) {
    reading.Number? && b.minimum <= reading.value <= b.maximum
  }

  function BoundReason(a: Action, b: Bound): Option<Reason> {
    if b.name !in a.parameters then Some(BoundMissing(b.name))
    else if Within(b, a.parameters[b.name]) then None
    else Some(BoundViolation(b.name))
  }

  function ApprovalReason(a: Action, c: Context): Option<Reason> {
    if a.risk < 2 then None
    else if c.approval.None? || c.approval.value.status != Approved then Some(ApprovalRequired)
    else if c.approval.value.planId != a.planId || c.approval.value.tenantId != a.tenantId then Some(ScopeMismatch)
    else if c.now >= c.approval.value.expiresAt then Some(ApprovalExpired)
    else None
  }

  /** The reason is a fact about the action. */
  ghost predicate Holds(g: Guard, a: Action, c: Context, reason: Reason) {
    match reason
    case NotWhitelisted => a.kind !in g.whitelist
    case ProhibitedCommand => a.kind in Prohibited
    case StaleTarget => c.currentVersion != a.expectedVersion
    case StaleAction => c.now - a.createdAt > g.maxAge
    case BoundMissing(_) => Reported(a, a.bounds, reason)
    case BoundViolation(_) => Reported(a, a.bounds, reason)
    case _ => ApprovalReason(a, c) == Some(reason)
  }

  ghost predicate Reported(a: Action, bounds: seq<Bound>, reason: Reason) {
    exists i :: 0 <= i < |bounds| && BoundReason(a, bounds[i]) == Some(reason)
  }

  /** Some bounded parameter cannot be compared, so the call raises. */
  predicate Raises(a: Action, bounds: seq<Bound>) {
    exists i :: 0 <= i < |bounds| && bounds[i].name in a.parameters && a.parameters[bounds[i].name] == Incomparable
  }

  /** Everything an action must meet to run. */
  ghost predicate Permitted(g: Guard, a: Action, c: Context) {
    && a.kind in g.whitelist && a.kind !in {"breaker", "relay", "pcs_switch", "firmware"}
    && c.currentVersion == a.expectedVersion && c.now - a.createdAt <= g.maxAge
    && (forall i :: 0 <= i < |a.bounds| ==>
          && a.bounds[i].name in a.parameters && a.parameters[a.bounds[i].name].Number?
          && a.bounds[i].minimum <= a.parameters[a.bounds[i].name].value <= a.bounds[i].maximum)
    && (a.risk >= 2 ==> Covered(a, c))
  }

  /** A live approval for this very plan and tenant. */
  ghost predicate Covered(a: Action, c: Context) {
    && c.approval.Some? && c.approval.value.status == Approved
    && c.approval.value.planId == a.planId && c.approval.value.tenantId == a.tenantId
    && c.now < c.approval.value.expiresAt
  }

  datatype Decision = Decision(allowed: bool, reasons: seq<Reason>)

  /** Absent when the call raises; otherwise the reasons are exactly the facts against the action, and it is
      allowed exactly when it meets every requirement. */
  method Evaluate(g: Guard, a: Action, c: Context) returns (r: Option<Decision>)
    ensures r.None? <==> Raises(a, a.bounds)
    ensures r.Some? ==> (r.value.allowed <==> Permitted(g, a, c))
    ensures r.Some? ==> forall reason :: reason in r.value.reasons <==> Holds(g, a, c, reason)
  {
    var reasons := [];
    if a.kind !in g.whitelist {
      reasons := reasons + [NotWhitelisted];
    }
    if a.kind in Prohibited {
      reasons := reasons + [ProhibitedCommand];
    }
    if c.currentVersion != a.expectedVersion {
      reasons := reasons + [StaleTarget];
    }
    if c.now - a.createdAt > g.maxAge {
      reasons := reasons + [StaleAction];
    }
    ghost var first := reasons;
    var found := CheckBounds(a);
    if found.None? {
      return None;
    }
    reasons := reasons + found.value;
    var approval := ApprovalReason(a, c);
    if approval.Some? {
      reasons := reasons + [approval.value];
    }
    forall reason
      ensures reason in reasons <==> Holds(g, a, c, reason)
    {
      assert reason in reasons <==> reason in first || reason in found.value || approval == Some(reason);
      if reason in found.value {
        assert Reported(a, a.bounds, reason);
        assert reason.BoundMissing? || reason.BoundViolation?;
      }
    }
    AllowedIffNoReason(g, a, c, reasons);
    return Some(Decision(|reasons| == 0, reasons));
  }

  /** The loop over the bounds: a reason per bound not met, or an exception at the first parameter that cannot be
      compared. */
  method CheckBounds(a: Action) returns (found: Option<seq<Reason>>)
    ensures found.None? <==> Raises(a, a.bounds)
    ensures found.Some? ==> forall reason :: reason in found.value <==> Reported(a, a.bounds, reason)
  {
    var reasons := [];
    var i := 0;
    while i < |a.bounds|
      invariant i <= |a.bounds|
      invariant forall k :: 0 <= k < i ==>
        !(a.bounds[k].name in a.parameters && a.parameters[a.bounds[k].name] == Incomparable)
      invariant forall reason :: reason in reasons <==> Reported(a, a.bounds[..i], reason)
    {
      var b := a.bounds[i];
      ghost var before := reasons;
      if b.name !in a.parameters {
        reasons := reasons + [BoundMissing(b.name)];
      } else {
        if a.parameters[b.name] == Incomparable {
          return None;
        }
        if !Within(b, a.parameters[b.name]) {
          reasons := reasons + [BoundViolation(b.name)];
        }
      }
      forall reason
        ensures reason in reasons <==> Reported(a, a.bounds[..i + 1], reason)
      {
        ReportedNext(a, i, reason);
        assert reason in reasons <==> reason in before || BoundReason(a, b) == Some(reason);
      }
      i := i + 1;
    }
    assert a.bounds[..i] == a.bounds;
    return Some(reasons);
  }

  lemma ReportedNext(a: Action, i: nat, reason: Reason)
    requires i < |a.bounds|
    ensures Reported(a, a.bounds[..i + 1], reason)
            <==> Reported(a, a.bounds[..i], reason) || BoundReason(a, a.bounds[i]) == Some(reason)
  {
    var s := a.bounds[..i + 1];
    assert forall k :: 0 <= k < i ==> s[k] == a.bounds[..i][k];
    assert s[i] == a.bounds[i];
  }

  lemma AllowedIffNoReason(g: Guard, a: Action, c: Context, reasons: seq<Reason>)
    requires forall reason :: reason in reasons <==> Holds(g, a, c, reason)
    ensures |reasons| == 0 <==> Permitted(g, a, c)
  {
    if |reasons| == 0 {
      assert !Holds(g, a, c, NotWhitelisted) && !Holds(g, a, c, ProhibitedCommand);
      assert !Holds(g, a, c, StaleTarget) && !Holds(g, a, c, StaleAction);
      assert !Holds(g, a, c, ApprovalRequired) && !Holds(g, a, c, ScopeMismatch) && !Holds(g, a, c, ApprovalExpired);
      forall i | 0 <= i < |a.bounds|
        ensures BoundReason(a, a.bounds[i]) == None
      {
        var name := a.bounds[i].name;
        assert !Holds(g, a, c, BoundMissing(name)) && !Holds(g, a, c, BoundViolation(name));
      }
    } else {
      assert reasons[0] in reasons && Holds(g, a, c, reasons[0]);
    }
  }

  // ----- with the approval workflow -----

  /** The approval handed to the guard is one the workflow holds after some run of calls. */
  ghost predicate FromWorkflow(events: seq<Event>, c: Context) {
    && (forall i :: 0 <= i < |events| ==> Fresh(events[i]))
    && (c.approval.Some? ==>
          c.approval.value.id in After(map[], events) && After(map[], events)[c.approval.value.id] == c.approval.value)
  }

  /** An allowed action of level L2 or above carries a live approval of its plan and tenant whose voters are all
      different, none of them the requester, at least one, and each voted in the run before the approval expired. */
  lemma AllowedIsApproved(g: Guard, a: Action, c: Context, events: seq<Event>)
    requires FromWorkflow(events, c) && Permitted(g, a, c) && a.risk >= 2
    ensures Covered(a, c)
    ensures var r := c.approval.value;
            && |Actors(r)| == |r.votes| == Quorum(r) >= 1
            && r.requestedBy !in Actors(r)
            && forall i :: 0 <= i < |r.votes| ==> Cast(events, r, r.votes[i])
  {
    hide After, Cast, Independent, Actors;
    AlwaysSound(events);
    VotesWereCast(events);
    var r := c.approval.value;
    assert Sound(After(map[], events)[r.id]);
    ApprovedMeansQuorum(r);
    VotesAreActors(r);
  }

  /** The guard compares the plan and the tenant of the approval, not its risk: an allowed action has two
      independent approvers exactly when its approval asked for two. */
  lemma TwoApproversIff(g: Guard, a: Action, c: Context, events: seq<Event>)
    requires FromWorkflow(events, c) && Permitted(g, a, c) && a.risk >= 2
    ensures |Actors(c.approval.value)| >= 2 <==> c.approval.value.requiredCount >= 2
    ensures c.approval.value.risk >= 3 ==> |Actors(c.approval.value)| >= 2
  {
    hide Permitted, FromWorkflow, Actors;
    AllowedIsApproved(g, a, c, events);
    ApprovalIsSound(c, events);
  }

  lemma ApprovalIsSound(c: Context, events: seq<Event>)
    requires FromWorkflow(events, c) && c.approval.Some?
    ensures Sound(c.approval.value)
  {
    hide After, Sound;
    AlwaysSound(events);
  }

  /** An L4 action allowed on one vote: its plan was submitted for approval as L2. */
  lemma OneApproverSuffices()
    ensures exists g, a, c, events ::
              FromWorkflow(events, c) && Permitted(g, a, c) && a.risk == 4 && |Actors(c.approval.value)| == 1
  {
    hide After, Next;
    var request := Request("r", "plan", "tenant", 2, "asker", 10, {"operator"}, 1, [], Pending);
    var approved := WithVote(request, "other", "operator");
    var events := [CreateStep(request), ApproveStep("r", "other", "operator", 5)];
    var g := Guard({"scale"}, 100);
    var a := Action("plan", "tenant", "scale", "v", map[], [], 4, 0);
    var c := Context("v", 6, Some(approved));
    CreateThenApprove(request, "other", "operator", 5);
    assert "scale" !in Prohibited;
    OneActor(approved);
    assert FromWorkflow(events, c) && Permitted(g, a, c);
  }

  lemma CreateThenApprove(r: Request, actor: string, role: string, now: int)
    requires CreateOf(map[], r).Ok? && r.status == Pending && r.votes == []
    requires now < r.expiresAt && actor != r.requestedBy && role in r.requiredRoles
    ensures After(map[], [CreateStep(r), ApproveStep(r.id, actor, role, now)]) == map[r.id := WithVote(r, actor, role)]
  {
    var events := [CreateStep(r), ApproveStep(r.id, actor, role, now)];
    assert events[..1][..0] == [] && After(map[], []) == map[];
    assert events[..1] == [CreateStep(r)];
    assert After(map[], events[..1]) == Next(map[], CreateStep(r)) == map[r.id := r];
    assert After(map[], events) == Next(map[r.id := r], events[1]);
  }

  lemma OneActor(r: Request)
    requires |r.votes| == 1
    ensures |Actors(r)| == 1
  {
    assert Actors(r) == {r.votes[0].actor};
  }
}
