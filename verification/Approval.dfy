/** The approval workflow of packages/approval/workflow.py, held in memory: who may vote, when a request is
    decided, and what may still be changed. */
module Approval {
  import opened Wrappers

  type RiskLevel = level: int | 0 <= level <= 4

  datatype Status = Pending | Approved | Rejected | Expired

  datatype Vote = Vote(actor: string, role: string)

  datatype Request = Request(
    id: string, planId: string, tenantId: string, risk: RiskLevel, requestedBy: string, expiresAt: int,
    requiredRoles: set<string>, requiredCount: int, votes: seq<Vote>, status: Status)

  type Requests = map<string, Request>

  datatype Error =
    | BelowMinimum | RolesRequired | IdTaken | NotFound | NotPending | IsExpired | OwnRequest | WrongRole
    | NotModifiable | NotRequester | NaiveExpiry

  function Minimum(risk: RiskLevel): nat {
    if risk >= 3 then 2 else if risk >= 2 then 1 else 0
  }

  predicate HasVoted(votes: seq<Vote>, actor: string) {
    exists i :: 0 <= i < |votes| && votes[i].actor == actor
  }

  // ----- the calls, as functions of the stored requests -----

  function CreateOf(m: Requests, r: Request): Result<Requests, Error> {
    if r.requiredCount < Minimum(r.risk) then Err(BelowMinimum)
    else if r.requiredCount > 0 && r.requiredRoles == {} then Err(RolesRequired)
    else if r.id in m then if m[r.id] == r then Ok(m) else Err(IdTaken)
    else Ok(m[r.id := r])
  }

  function WithVote(r: Request, actor: string, role: string): Request {
    var votes := r.votes + [Vote(actor, role)];
    r.(votes := votes, status := if |votes| >= r.requiredCount then Approved else Pending)
  }

  /** The stored requests afterwards, with the answer; an expired request is marked before the call fails. */
  function ApproveOf(m: Requests, id: string, actor: string, role: string, now: int)
    : (Requests, Result<Request, Error>)
  {
    if id !in m then (m, Err(NotFound))
    else
      var r := m[id];
      if r.status != Pending then (m, Err(NotPending))
      else if now >= r.expiresAt then (m[id := r.(status := Expired)], Err(IsExpired))
      else if actor == r.requestedBy then (m, Err(OwnRequest))
      else if role !in r.requiredRoles then (m, Err(WrongRole))
      else if HasVoted(r.votes, actor) then (m, Ok(r))
      else (m[id := WithVote(r, actor, role)], Ok(WithVote(r, actor, role)))
  }

  function RejectOf(m: Requests, id: string): Result<(Requests, Request), Error> {
    if id !in m then Err(NotFound)
    else if m[id].status == Rejected then Ok((m, m[id]))
    else if m[id].status != Pending then Err(NotPending)
    else Ok((m[id := m[id].(status := Rejected)], m[id].(status := Rejected)))
  }

  datatype Terms = Terms(expiresAt: int, zoned: bool, requiredRoles: set<string>, requiredCount: int)

  function ModificationError(r: Request, actor: string, terms: Terms): Option<Error> {
    if r.status != Pending || |r.votes| > 0 then Some(NotModifiable)
    else if actor != r.requestedBy then Some(NotRequester)
    else if terms.requiredCount < Minimum(r.risk) || (terms.requiredCount != 0 && terms.requiredRoles == {}) then
      Some(BelowMinimum)
    else if !terms.zoned then Some(NaiveExpiry)
    else None
  }

  function WithTerms(r: Request, terms: Terms): Request {
    r.(expiresAt := terms.expiresAt, requiredRoles := terms.requiredRoles, requiredCount := terms.requiredCount)
  }

  function ModifyOf(m: Requests, id: string, actor: string, terms: Terms): Result<(Requests, Request), Error> {
    if id !in m then Err(NotFound)
    else
      var error := ModificationError(m[id], actor, terms);
      if error.Some? then Err(error.value)
      else Ok((m[id := WithTerms(m[id], terms)], WithTerms(m[id], terms)))
  }

  /** The workflow object. */
  class ApprovalWorkflow {
    var requests: Requests

    constructor ()
      ensures requests == map[]
    {
      requests := map[];
    }

    method Create(r: Request) returns (error: Option<Error>)
      modifies this
      ensures var o := CreateOf(old(requests), r);
              if o.Ok? then error.None? && requests == o.value
              else error == Some(o.error) && requests == old(requests)
    {
      if r.requiredCount < Minimum(r.risk) {
        return Some(BelowMinimum);
      }
      if r.requiredCount > 0 && r.requiredRoles == {} {
        return Some(RolesRequired);
      }
      if r.id in requests {
        return if requests[r.id] == r then None else Some(IdTaken);
      }
      requests := requests[r.id := r];
      return None;
    }

    method Approve(id: string, actor: string, role: string, now: int) returns (answer: Result<Request, Error>)
      modifies this
      ensures (requests, answer) == ApproveOf(old(requests), id, actor, role, now)
    {
      if id !in requests {
        return Err(NotFound);
      }
      var r := requests[id];
      if r.status != Pending {
        return Err(NotPending);
      }
      if now >= r.expiresAt {
        requests := requests[id := r.(status := Expired)];
        return Err(IsExpired);
      }
      if actor == r.requestedBy {
        return Err(OwnRequest);
      }
      if role !in r.requiredRoles {
        return Err(WrongRole);
      }
      var i := 0;
      while i < |r.votes|
        invariant i <= |r.votes|
        invariant !HasVoted(r.votes[..i], actor)
        invariant requests == old(requests)
      {
        if r.votes[i].actor == actor {
          return Ok(r);
        }
        i := i + 1;
      }
      assert r.votes[..i] == r.votes;
      requests := requests[id := WithVote(r, actor, role)];
      return Ok(requests[id]);
    }

    method Reject(id: string) returns (answer: Result<Request, Error>)
      modifies this
      ensures var o := RejectOf(old(requests), id);
              if o.Ok? then answer == Ok(o.value.1) && requests == o.value.0
              else answer == Err(o.error) && requests == old(requests)
    {
      if id !in requests {
        return Err(NotFound);
      }
      var r := requests[id];
      if r.status == Rejected {
        return Ok(r);
      }
      if r.status != Pending {
        return Err(NotPending);
      }
      requests := requests[id := r.(status := Rejected)];
      return Ok(requests[id]);
    }

    method Modify(id: string, actor: string, terms: Terms) returns (answer: Result<Request, Error>)
      modifies this
      ensures var o := ModifyOf(old(requests), id, actor, terms);
              if o.Ok? then answer == Ok(o.value.1) && requests == o.value.0
              else answer == Err(o.error) && requests == old(requests)
    {
      if id !in requests {
        return Err(NotFound);
      }
      var error := ModificationError(requests[id], actor, terms);
      if error.Some? {
        return Err(error.value);
      }
      requests := requests[id := WithTerms(requests[id], terms)];
      return Ok(requests[id]);
    }
  }

  // ----- what a request never violates -----

  function Quorum(r: Request): int {
    if r.requiredCount < 1 then 1 else r.requiredCount
  }

  ghost predicate Independent(r: Request) {
    && (forall i :: 0 <= i < |r.votes| ==> r.votes[i].actor != r.requestedBy && r.votes[i].role in r.requiredRoles)
    && (forall i, j :: 0 <= i < j < |r.votes| ==> r.votes[i].actor != r.votes[j].actor)
  }

  /** Approved exactly when the quorum is reached, and never past it. */
  ghost predicate Counted(r: Request) {
    && r.requiredCount >= Minimum(r.risk)
    && |r.votes| <= Quorum(r)
    && (r.status == Approved <==> |r.votes| == Quorum(r))
  }

  ghost predicate Sound(r: Request) {
    Independent(r) && Counted(r)
  }

  ghost predicate AllSound(m: Requests) {
    forall id :: id in m ==> Sound(m[id]) && m[id].id == id
  }

  function Actors(r: Request): set<string> {
    set i | 0 <= i < |r.votes| :: r.votes[i].actor
  }

  lemma ActorsNext(r: Request, m: nat)
    requires m < |r.votes| && Independent(r)
    ensures Independent(r.(votes := r.votes[..m]))
    ensures Actors(r.(votes := r.votes[..m + 1])) == Actors(r.(votes := r.votes[..m])) + {r.votes[m].actor}
    ensures r.votes[m].actor !in Actors(r.(votes := r.votes[..m]))
  {
    var front, next := r.(votes := r.votes[..m]), r.(votes := r.votes[..m + 1]);
    assert forall i :: 0 <= i < m ==> front.votes[i] == r.votes[i] && next.votes[i] == r.votes[i];
    assert next.votes[m] == r.votes[m];
  }

  lemma {:induction false} VotesAreActors(r: Request)
    requires Independent(r)
    ensures |Actors(r)| == |r.votes|
    decreases |r.votes|
  {
    hide Independent, Actors;
    if |r.votes| == 0 {
      NoActors(r);
    } else {
      var m := |r.votes| - 1;
      ActorsNext(r, m);
      VotesAreActors(r.(votes := r.votes[..m]));
      assert r.votes[..m + 1] == r.votes && r.(votes := r.votes) == r;
    }
  }

  lemma NoActors(r: Request)
    requires |r.votes| == 0
    ensures Actors(r) == {}
  {
  }

  /** An approved request has as many different voters as it required, at least the minimum of its risk and at
      least one, and the requester is not among them. */
  lemma ApprovedMeansQuorum(r: Request)
    requires Sound(r) && r.status == Approved
    ensures |Actors(r)| == Quorum(r) >= (if r.risk >= 3 then 2 else 1)
    ensures |Actors(r)| >= 1 && r.requestedBy !in Actors(r)
  {
    VotesAreActors(r);
  }

  // ----- runs -----

  datatype Event =
    | CreateStep(request: Request)
    | ApproveStep(id: string, actor: string, role: string, now: int)
    | RejectStep(id: string)
    | ModifyStep(id: string, actor: string, terms: Terms)

  ghost function Next(m: Requests, e: Event): Requests {
    match e
    case CreateStep(r) => var o := CreateOf(m, r); if o.Ok? then o.value else m
    case ApproveStep(id, actor, role, now) => ApproveOf(m, id, actor, role, now).0
    case RejectStep(id) => var o := RejectOf(m, id); if o.Ok? then o.value.0 else m
    case ModifyStep(id, actor, terms) => var o := ModifyOf(m, id, actor, terms); if o.Ok? then o.value.0 else m
  }

  ghost function After(m: Requests, events: seq<Event>): Requests {
    if |events| == 0 then m else Next(After(m, events[..|events| - 1]), events[|events| - 1])
  }

  /** Created the way the service creates requests: pending and without votes. */
  predicate Fresh(e: Event) {
    e.CreateStep? ==> e.request.status == Pending && e.request.votes == []
  }

  /** The step stores a request under a new id. */
  ghost predicate Stores(m: Requests, e: Event) {
    e.CreateStep? && e.request.id !in m && CreateOf(m, e.request).Ok?
  }

  lemma StepSound(m: Requests, e: Event)
    requires AllSound(m) && (Stores(m, e) ==> Sound(e.request))
    ensures AllSound(Next(m, e))
  {
    hide Independent;
    var m' := Next(m, e);
    forall id | id in m'
      ensures Sound(m'[id]) && m'[id].id == id
    {
      if id !in m || m'[id] != m[id] {
        match e
        case CreateStep(r) =>
        case ApproveStep(_, actor, role, _) => VoteSound(m[id], actor, role);
        case RejectStep(_) => StatusKeepsVotes(m[id], Rejected);
        case ModifyStep(_, _, terms) => TermsSound(m[id], terms);
      }
    }
  }

  lemma FreshIsSound(r: Request)
    requires r.status == Pending && r.votes == [] && r.requiredCount >= Minimum(r.risk)
    ensures Sound(r)
  {
  }

  lemma StatusKeepsVotes(r: Request, status: Status)
    requires Sound(r) && r.status == Pending && status != Approved
    ensures Sound(r.(status := status))
  {
  }

  lemma TermsSound(r: Request, terms: Terms)
    requires Sound(r) && r.status == Pending && r.votes == [] && terms.requiredCount >= Minimum(r.risk)
    ensures Sound(WithTerms(r, terms))
  {
  }

  lemma VoteSound(r: Request, actor: string, role: string)
    requires Sound(r) && r.status == Pending
    ensures Sound(r.(status := Expired))
    ensures actor != r.requestedBy && role in r.requiredRoles && !HasVoted(r.votes, actor)
            ==> Sound(WithVote(r, actor, role))
  {
    if actor != r.requestedBy && role in r.requiredRoles && !HasVoted(r.votes, actor) {
      var r' := WithVote(r, actor, role);
      assert forall i :: 0 <= i < |r.votes| ==> r'.votes[i] == r.votes[i];
      assert |r'.votes| == |r.votes| + 1;
    }
  }

  /** In every run of creates, votes, rejections and modifications every request is sound. */
  lemma {:induction false} AlwaysSound(events: seq<Event>)
    requires forall i :: 0 <= i < |events| ==> Fresh(events[i])
    ensures AllSound(After(map[], events))
  {
    hide AllSound, Next;
    if |events| == 0 {
      NothingIsSound();
    } else {
      var m, e := After(map[], events[..|events| - 1]), events[|events| - 1];
      AlwaysSound(events[..|events| - 1]);
      if Stores(m, e) {
        FreshIsSound(e.request);
      }
      StepSound(m, e);
    }
  }

  lemma NothingIsSound()
    ensures AllSound(map[])
  {
  }

  /** A decided request is never changed again, whatever is called. */
  lemma {:induction false} DecidedForever(m: Requests, events: seq<Event>, id: string)
    requires id in m && m[id].status != Pending
    ensures id in After(m, events) && After(m, events)[id] == m[id]
  {
    if |events| == 0 {
    } else {
      DecidedForever(m, events[..|events| - 1], id);
      DecidedStep(After(m, events[..|events| - 1]), events[|events| - 1], id);
    }
  }

  lemma DecidedStep(m: Requests, e: Event, id: string)
    requires id in m && m[id].status != Pending
    ensures id in Next(m, e) && Next(m, e)[id] == m[id]
  {
  }

  // ----- how a request gets approved -----

  /** A vote that counts for this request: in time, in a required role, and not the requester's. */
  ghost predicate Eligible(r: Request, e: Event) {
    e.ApproveStep? && e.id == r.id && e.now < r.expiresAt && e.actor != r.requestedBy && e.role in r.requiredRoles
  }

  /** Votes that count, all of different actors who have not voted yet. */
  ghost predicate Ballots(r: Request, events: seq<Event>) {
    && (forall i :: 0 <= i < |events| ==> Eligible(r, events[i]) && !HasVoted(r.votes, events[i].actor))
    && (forall i, j :: 0 <= i < j < |events| ==> events[i].actor != events[j].actor)
  }

  ghost function VotesOf(r: Request, events: seq<Event>): seq<Vote>
    requires Ballots(r, events)
  {
    seq(|events|, i requires 0 <= i < |events| => Vote(events[i].actor, events[i].role))
  }

  /** Each of these votes is recorded, in order, and the request is approved by the one that completes the quorum and
      not before. No other request changes. */
  lemma {:induction false} QuorumApproves(m: Requests, id: string, events: seq<Event>)
    requires AllSound(m) && id in m && m[id].status == Pending
    requires Ballots(m[id], events) && |m[id].votes| + |events| <= Quorum(m[id])
    ensures var r := m[id];
            var complete := |r.votes| + |events| == Quorum(r);
            After(m, events) == m[id :=
              r.(votes := r.votes + VotesOf(r, events), status := if complete then Approved else Pending)]
  {
    hide HasVoted;
    var r := m[id];
    assert Sound(r) && r.id == id;
    if |events| == 0 {
      assert r.votes + VotesOf(r, events) == r.votes;
    } else {
      var front, e := events[..|events| - 1], events[|events| - 1];
      QuorumApproves(m, id, front);
      var r' := After(m, front)[id];
      BallotIsNew(r, events);
      assert VotesOf(r, events) == VotesOf(r, front) + [Vote(e.actor, e.role)];
      assert r.votes + VotesOf(r, events) == r'.votes + [Vote(e.actor, e.role)];
    }
  }

  lemma BallotIsNew(r: Request, events: seq<Event>)
    requires Ballots(r, events) && |events| > 0
    ensures !HasVoted(r.votes + VotesOf(r, events[..|events| - 1]), events[|events| - 1].actor)
  {
  }

  /** Terms that the requester of an untouched request sets are the ones it is decided by. */
  lemma TermsGovern(m: Requests, id: string, terms: Terms, events: seq<Event>)
    requires AllSound(m) && id in m && m[id].status == Pending && m[id].votes == []
    requires terms.zoned && terms.requiredCount >= Minimum(m[id].risk)
    requires terms.requiredCount > 0 ==> terms.requiredRoles != {}
    requires |events| == if terms.requiredCount < 1 then 1 else terms.requiredCount
    requires forall i :: 0 <= i < |events| ==>
               && events[i].ApproveStep? && events[i].id == id && events[i].now < terms.expiresAt
               && events[i].actor != m[id].requestedBy && events[i].role in terms.requiredRoles
    requires forall i, j :: 0 <= i < j < |events| ==> events[i].actor != events[j].actor
    ensures var decided := After(Next(m, ModifyStep(id, m[id].requestedBy, terms)), events);
            id in decided && decided[id].status == Approved
  {
    hide After;
    var e := ModifyStep(id, m[id].requestedBy, terms);
    assert Sound(m[id]);
    StepSound(m, e);
    QuorumApproves(Next(m, e), id, events);
  }

  /** A new request with legal terms is stored, and approved by the votes its terms ask for. */
  lemma CreatedIsApproved(m: Requests, r: Request, events: seq<Event>)
    requires AllSound(m) && r.id !in m && r.status == Pending && r.votes == []
    requires r.requiredCount >= (if r.risk >= 3 then 2 else if r.risk == 2 then 1 else 0)
    requires r.requiredCount > 0 ==> r.requiredRoles != {}
    requires Ballots(r, events) && |events| == if r.requiredCount < 1 then 1 else r.requiredCount
    ensures var decided := After(Next(m, CreateStep(r)), events);
            decided.Keys == m.Keys + {r.id} && decided[r.id].status == Approved
  {
    hide After;
    FreshIsSound(r);
    StepSound(m, CreateStep(r));
    QuorumApproves(Next(m, CreateStep(r)), r.id, events);
  }

  /** A pending request that is rejected stays rejected and gains no vote, whatever is called after. */
  lemma RejectionIsFinal(m: Requests, id: string, events: seq<Event>)
    requires id in m && m[id].status == Pending
    ensures var later := After(Next(m, RejectStep(id)), events);
            id in later && later[id] == m[id].(status := Rejected)
  {
    hide After;
    DecidedForever(Next(m, RejectStep(id)), events, id);
  }

  /** A vote that comes too late is not counted, and the request is expired for good. */
  lemma ExpiryIsFinal(m: Requests, e: Event, events: seq<Event>)
    requires e.ApproveStep? && e.id in m && m[e.id].status == Pending && e.now >= m[e.id].expiresAt
    ensures var later := After(Next(m, e), events);
            e.id in later && later[e.id] == m[e.id].(status := Expired)
  {
    hide After;
    DecidedForever(Next(m, e), events, e.id);
  }

  // ----- requests created in any state -----

  ghost predicate StoredAt(events: seq<Event>, i: nat)
    requires i < |events|
  {
    Stores(After(map[], events[..i]), events[i])
  }

  /** Every request the run stores is sound as it comes. */
  ghost predicate StoresOnlySound(events: seq<Event>) {
    forall i: nat :: i < |events| && StoredAt(events, i) ==> Sound(events[i].request)
  }

  ghost predicate SoundOrDecided(e: Event) {
    e.CreateStep? ==> Sound(e.request) || e.request.status != Pending
  }

  /** Some request was decided against the rules. */
  ghost predicate Spoilt(m: Requests) {
    exists id :: id in m && m[id].status != Pending && !Sound(m[id])
  }

  lemma StepSpoilt(m: Requests, e: Event)
    requires SoundOrDecided(e)
    ensures Spoilt(m) || (Stores(m, e) && !Sound(e.request)) ==> Spoilt(Next(m, e))
  {
    hide Sound;
    if Stores(m, e) && !Sound(e.request) {
      assert Next(m, e)[e.request.id] == e.request;
    } else if Spoilt(m) {
      var id :| id in m && m[id].status != Pending && !Sound(m[id]);
      DecidedStep(m, e, id);
    }
  }

  /** Create stores a request as given, votes and status included. In a run whose requests come sound or already
      decided, all requests are sound in the end if and only if every request stored was sound: no later call repairs
      one that was not. */
  lemma {:induction false} CreateSoundIff(events: seq<Event>)
    requires forall i :: 0 <= i < |events| ==> SoundOrDecided(events[i])
    ensures AllSound(After(map[], events)) <==> StoresOnlySound(events)
    ensures !StoresOnlySound(events) ==> Spoilt(After(map[], events))
  {
    hide Sound, Next, Stores, SoundOrDecided, Spoilt, AllSound;
    if |events| == 0 {
      NothingIsSound();
    } else {
      var front, e := events[..|events| - 1], events[|events| - 1];
      var m := After(map[], front);
      CreateSoundIff(front);
      StoresOnlySoundNext(events);
      StepSpoilt(m, e);
      SpoiltIsUnsound(Next(m, e));
      if StoresOnlySound(events) {
        StepSound(m, e);
      }
    }
  }

  lemma StoresOnlySoundNext(events: seq<Event>)
    requires |events| > 0
    ensures var front, e := events[..|events| - 1], events[|events| - 1];
            StoresOnlySound(events) <==>
            StoresOnlySound(front) && (Stores(After(map[], front), e) ==> Sound(e.request))
  {
    hide Sound, Next, CreateOf, After;
    var front, m := events[..|events| - 1], |events| - 1;
    assert StoredAt(events, m) <==> Stores(After(map[], front), events[m]);
    forall i: nat | i < m
      ensures StoredAt(front, i) <==> StoredAt(events, i)
    {
      assert front[..i] == events[..i] && front[i] == events[i];
    }
  }

  lemma SpoiltIsUnsound(m: Requests)
    ensures Spoilt(m) ==> !AllSound(m)
  {
    hide Sound;
  }

  // ----- where votes come from -----

  /** The vote was cast in the run, by an approve call made before the request's expiry. */
  ghost predicate Cast(events: seq<Event>, r: Request, v: Vote) {
    exists k :: 0 <= k < |events| && events[k].ApproveStep? && events[k].id == r.id
                && events[k].actor == v.actor && events[k].role == v.role && events[k].now < r.expiresAt
  }

  ghost predicate AllCast(m: Requests, events: seq<Event>) {
    forall id, i :: id in m && 0 <= i < |m[id].votes| ==> Cast(events, m[id], m[id].votes[i])
  }

  lemma CastExtends(events: seq<Event>, e: Event, r: Request, r': Request, v: Vote)
    requires Cast(events, r, v) && r'.id == r.id && r'.expiresAt == r.expiresAt
    ensures Cast(events + [e], r', v)
  {
    var k :| 0 <= k < |events| && events[k].ApproveStep? && events[k].id == r.id
             && events[k].actor == v.actor && events[k].role == v.role && events[k].now < r.expiresAt;
    assert (events + [e])[k] == events[k];
  }

  /** What one call can do to a stored vote list: keep it, with the expiry, or add the vote just cast. */
  lemma VoteStep(m: Requests, e: Event, id: string, i: nat)
    requires AllSound(m) && Fresh(e)
    requires id in Next(m, e) && i < |Next(m, e)[id].votes|
    ensures var r' := Next(m, e)[id];
            || (id in m && i < |m[id].votes| && r'.votes[i] == m[id].votes[i]
                && r'.id == m[id].id && r'.expiresAt == m[id].expiresAt)
            || (e.ApproveStep? && e.id == r'.id == id && e.now < r'.expiresAt && r'.votes[i] == Vote(e.actor, e.role))
  {
    hide Independent, Counted;
  }

  /** Every vote of every request was cast by an approve call of the run, before the expiry the request ends up
      with, by the voter and in the role recorded. */
  lemma {:induction false} VotesWereCast(events: seq<Event>)
    requires forall i :: 0 <= i < |events| ==> Fresh(events[i])
    ensures AllCast(After(map[], events), events)
  {
    hide AllSound, Next, Cast;
    if |events| == 0 {
    } else {
      var front, e := events[..|events| - 1], events[|events| - 1];
      assert events == front + [e];
      VotesWereCast(front);
      AlwaysSound(front);
      var m := After(map[], front);
      forall id, i | id in Next(m, e) && 0 <= i < |Next(m, e)[id].votes|
        ensures Cast(events, Next(m, e)[id], Next(m, e)[id].votes[i])
      {
        CastStep(m, front, e, id, i);
      }
    }
  }

  lemma CastStep(m: Requests, front: seq<Event>, e: Event, id: string, i: nat)
    requires AllSound(m) && Fresh(e) && AllCast(m, front)
    requires id in Next(m, e) && i < |Next(m, e)[id].votes|
    ensures Cast(front + [e], Next(m, e)[id], Next(m, e)[id].votes[i])
  {
    hide AllSound, Next, Cast;
    VoteStep(m, e, id, i);
    var r' := Next(m, e)[id];
    if id in m && i < |m[id].votes| && r'.votes[i] == m[id].votes[i]
       && r'.id == m[id].id && r'.expiresAt == m[id].expiresAt {
      CastExtends(front, e, m[id], r', r'.votes[i]);
    } else {
      JustCast(front, e, r', r'.votes[i]);
    }
  }

  lemma JustCast(front: seq<Event>, e: Event, r: Request, v: Vote)
    requires e.ApproveStep? && e.id == r.id && e.now < r.expiresAt && v == Vote(e.actor, e.role)
    ensures Cast(front + [e], r, v)
  {
    assert (front + [e])[|front|] == e;
  }
}
