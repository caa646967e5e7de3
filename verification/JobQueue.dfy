/** The leased job queue of packages/jobs/queue.py. Each SQL statement is one step; instants are seconds. */
module JobQueue {
  import opened Wrappers

  datatype Status = Pending | Running | Succeeded | DeadLetter

  datatype Row = Row(
    tenant: string,
    kind: string,
    payload: string,
    key: string,
    status: Status,
    attempt: nat,
    maxAttempts: int,
    availableAt: int,
    leasedBy: Option<string>,
    leaseExpiresAt: Option<int>,
    result: Option<string>,
    lastError: Option<string>)

  /** What a claim hands to its worker; later calls bring this snapshot back. */
  datatype DurableJob = DurableJob(id: nat, attempt: nat, maxAttempts: int)

  type Rows = map<nat, Row>

  function Min(a: int, b: int): int {
    if a <= b then a else b
  }

  function Pow2(n: nat): nat {
    if n == 0 then 1 else 2 * Pow2(n - 1)
  }

  function RetryDelay(attempt: nat): int {
    Min(300, Pow2(Min(attempt, 8)))
  }

  // ----- row updates -----

  predicate Claimable(row: Row, now: int) {
    || (row.status == Pending && row.availableAt <= now)
    || (row.status == Running && row.leaseExpiresAt.Some? && row.leaseExpiresAt.value <= now)
  }

  function Claimed(row: Row, worker: string, lease: int, now: int): Row {
    row.(status := Running, attempt := row.attempt + 1, leasedBy := Some(worker), leaseExpiresAt := Some(now + lease))
  }

  /** The guard of heartbeat, succeed and fail: still running under this worker's lease. */
  predicate HeldBy(rows: Rows, id: nat, worker: string) {
    id in rows && rows[id].status == Running && rows[id].leasedBy == Some(worker)
  }

  function Beaten(row: Row, lease: int, now: int): Row {
    row.(leaseExpiresAt := Some(now + lease))
  }

  function Completed(row: Row, result: string): Row {
    row.(status := Succeeded, result := Some(result), leasedBy := None, leaseExpiresAt := None)
  }

  function FailStatus(job: DurableJob): Status {
    if job.attempt >= job.maxAttempts then DeadLetter else Pending
  }

  /** Error texts are stored up to 4000 characters. */
  function Stored(error: string): string {
    if |error| <= 4000 then error else error[..4000]
  }

  function FailedRow(row: Row, job: DurableJob, error: string, now: int): Row {
    row.(
      status := FailStatus(job),
      lastError := Some(Stored(error)),
      availableAt := now + RetryDelay(job.attempt),
      leasedBy := None,
      leaseExpiresAt := None)
  }

  /** The order in which claims are served. */
  predicate Before(rows: Rows, a: nat, b: nat)
    requires a in rows && b in rows
  {
    rows[a].availableAt < rows[b].availableAt || (rows[a].availableAt == rows[b].availableAt && a <= b)
  }

  ghost predicate FirstClaimable(rows: Rows, now: int, locked: set<nat>, id: nat) {
    && id in rows && id !in locked && Claimable(rows[id], now)
    && forall other :: other in rows && other !in locked && Claimable(rows[other], now) ==>
         || rows[id].availableAt < rows[other].availableAt
         || (rows[id].availableAt == rows[other].availableAt && id <= other)
  }

  ghost predicate IsKey(rows: Rows, tenant: string, key: string, id: nat) {
    id in rows && rows[id].tenant == tenant && rows[id].key == key
  }

  datatype EnqueueOutcome = Enqueued(id: nat) | BadMaxAttempts | DifferentPayload

  /** The queue table, updated in place. Identifiers are handed out in order, starting at one. */
  class PostgresJobQueue {
    var rows: Rows
    var nextId: nat

    ghost predicate Valid()
      reads this
    {
      nextId >= 1 && forall id :: id in rows ==> 1 <= id < nextId
    }

    constructor ()
      ensures Valid() && rows == map[] && nextId == 1
    {
      rows, nextId := map[], 1;
    }

    method Enqueue(tenant: string, kind: string, payload: string, key: string, maxAttempts: int, availableAt: int)
      returns (outcome: EnqueueOutcome)
      requires Valid()
      modifies this
      ensures Valid()
      ensures outcome == BadMaxAttempts <==> maxAttempts < 1
      ensures maxAttempts >= 1 && (exists id :: IsKey(old(rows), tenant, key, id)) ==>
                && rows == old(rows) && nextId == old(nextId)
                && (outcome.Enqueued? ==> IsKey(rows, tenant, key, outcome.id)
                                          && rows[outcome.id].kind == kind && rows[outcome.id].payload == payload)
                && (outcome.DifferentPayload? ==> exists id ::
                      IsKey(rows, tenant, key, id) && (rows[id].kind != kind || rows[id].payload != payload))
      ensures maxAttempts >= 1 && !(exists id :: IsKey(old(rows), tenant, key, id)) ==>
                && outcome == Enqueued(old(nextId)) && nextId == old(nextId) + 1
                && rows == old(rows)[old(nextId) := NewRow(tenant, kind, payload, key, maxAttempts, availableAt)]
      ensures maxAttempts < 1 ==> rows == old(rows) && nextId == old(nextId)
    {
      if maxAttempts < 1 {
        return BadMaxAttempts;
      }
      for id := 1 to nextId
        invariant rows == old(rows) && nextId == old(nextId)
        invariant forall j :: 1 <= j < id ==> !IsKey(rows, tenant, key, j)
      {
        if id in rows && rows[id].tenant == tenant && rows[id].key == key {
          assert IsKey(rows, tenant, key, id);
          return if rows[id].kind != kind || rows[id].payload != payload then DifferentPayload else Enqueued(id);
        }
      }
      rows := rows[nextId := NewRow(tenant, kind, payload, key, maxAttempts, availableAt)];
      nextId := nextId + 1;
      return Enqueued(nextId - 1);
    }

    /** Claims the first claimable row that no other transaction has locked. `Err` is the lease-length error. */
    method Claim(worker: string, lease: int, now: int, locked: set<nat>) returns (job: Result<Option<DurableJob>, ()>)
      requires Valid()
      modifies this`rows
      ensures Valid()
      ensures job.Err? <==> lease < 5
      ensures job.Err? ==> rows == old(rows)
      ensures job == Ok(None) ==>
                rows == old(rows) && forall id :: id in rows && id !in locked ==> !Claimable(rows[id], now)
      ensures job.Ok? && job.value.Some? ==>
                var id := job.value.value.id;
                && FirstClaimable(old(rows), now, locked, id)
                && rows == old(rows)[id := Claimed(old(rows)[id], worker, lease, now)]
                && job.value.value == DurableJob(id, rows[id].attempt, rows[id].maxAttempts)
    {
      if lease < 5 {
        return Err(());
      }
      var best: Option<nat> := None;
      for id := 1 to nextId
        invariant best.Some? ==> 1 <= best.value < id && best.value in rows && best.value !in locked
                                 && Claimable(rows[best.value], now)
        invariant forall j :: 1 <= j < id && j in rows && j !in locked && Claimable(rows[j], now) ==>
          best.Some? && Before(rows, best.value, j)
      {
        if id in rows && id !in locked && Claimable(rows[id], now) {
          if best.None? || !Before(rows, best.value, id) {
            best := Some(id);
          }
        }
      }
      if best.None? {
        return Ok(None);
      }
      var id := best.value;
      rows := rows[id := Claimed(rows[id], worker, lease, now)];
      return Ok(Some(DurableJob(id, rows[id].attempt, rows[id].maxAttempts)));
    }

    method Heartbeat(job: DurableJob, worker: string, lease: int, now: int) returns (held: bool)
      requires Valid()
      modifies this`rows
      ensures Valid() && held == HeldBy(old(rows), job.id, worker)
      ensures held ==> rows == old(rows)[job.id := old(rows)[job.id].(leaseExpiresAt := Some(now + lease))]
      ensures !held ==> rows == old(rows)
    {
      held := HeldBy(rows, job.id, worker);
      if held {
        rows := rows[job.id := Beaten(rows[job.id], lease, now)];
      }
    }

    /** `held` is false when the code raises because the lease was lost. */
    method Succeed(job: DurableJob, worker: string, result: string) returns (held: bool)
      requires Valid()
      modifies this`rows
      ensures Valid() && held == HeldBy(old(rows), job.id, worker)
      ensures rows == if held then old(rows)[job.id := Completed(old(rows)[job.id], result)] else old(rows)
    {
      held := HeldBy(rows, job.id, worker);
      if held {
        rows := rows[job.id := Completed(rows[job.id], result)];
      }
    }

    /** Decides between retry and dead letter from the snapshot, not from the row. */
    method Fail(job: DurableJob, worker: string, error: string, now: int) returns (held: bool, status: Status)
      requires Valid()
      modifies this`rows
      ensures Valid() && held == HeldBy(old(rows), job.id, worker)
      ensures rows == if held then old(rows)[job.id := FailedRow(old(rows)[job.id], job, error, now)] else old(rows)
      ensures held ==> status == rows[job.id].status
    {
      status := FailStatus(job);
      held := HeldBy(rows, job.id, worker);
      if held {
        rows := rows[job.id := FailedRow(rows[job.id], job, error, now)];
      }
    }
  }

  function NewRow(tenant: string, kind: string, payload: string, key: string, maxAttempts: int, availableAt: int): Row {
    Row(tenant, kind, payload, key, Pending, 0, maxAttempts, availableAt, None, None, None, None)
  }

  // ----- runs -----

  datatype Claim = Claim(job: DurableJob, worker: string)

  /** The table together with the claims handed out so far, oldest first. */
  datatype State = State(rows: Rows, nextId: nat, claims: seq<Claim>)

  const Empty := State(map[], 1, [])

  /** Later calls name the claim whose snapshot they carry, by its number. A claim may take any claimable row, since
      other transactions may hold the earlier ones locked. */
  datatype Event =
    | EnqueueStep(tenant: string, kind: string, payload: string, key: string, maxAttempts: int, availableAt: int)
    | ClaimStep(id: nat, claimer: string, claimLease: int, claimNow: int)
    | HeartbeatStep(claim: nat, worker: string, lease: int, now: int)
    | SucceedStep(claim: nat, worker: string, result: string)
    | FailStep(claim: nat, worker: string, error: string, now: int)

  ghost function Next(s: State, e: Event): State {
    match e
    case EnqueueStep(tenant, kind, payload, key, maxAttempts, availableAt) =>
      if maxAttempts < 1 || exists id :: IsKey(s.rows, tenant, key, id) then s
      else s.(
        rows := s.rows[s.nextId := NewRow(tenant, kind, payload, key, maxAttempts, availableAt)],
        nextId := s.nextId + 1)
    case ClaimStep(id, worker, lease, now) =>
      if id in s.rows && lease >= 5 && Claimable(s.rows[id], now) then
        var row := Claimed(s.rows[id], worker, lease, now);
        s.(rows := s.rows[id := row],
           claims := s.claims + [Claim(DurableJob(id, row.attempt, row.maxAttempts), worker)])
      else s
    case HeartbeatStep(c, worker, lease, now) =>
      if c < |s.claims| && HeldBy(s.rows, s.claims[c].job.id, worker) then
        s.(rows := s.rows[s.claims[c].job.id := Beaten(s.rows[s.claims[c].job.id], lease, now)])
      else s
    case SucceedStep(c, worker, result) =>
      if c < |s.claims| && HeldBy(s.rows, s.claims[c].job.id, worker) then
        s.(rows := s.rows[s.claims[c].job.id := Completed(s.rows[s.claims[c].job.id], result)])
      else s
    case FailStep(c, worker, error, now) =>
      if c < |s.claims| && HeldBy(s.rows, s.claims[c].job.id, worker) then
        s.(rows := s.rows[s.claims[c].job.id := FailedRow(s.rows[s.claims[c].job.id], s.claims[c].job, error, now)])
      else s
  }

  ghost function After(s: State, events: seq<Event>): State {
    if |events| == 0 then s else Next(After(s, events[..|events| - 1]), events[|events| - 1])
  }

  ghost function ClaimCount(claims: seq<Claim>, id: nat): nat {
    if |claims| == 0 then 0
    else ClaimCount(claims[..|claims| - 1], id) + if claims[|claims| - 1].job.id == id then 1 else 0
  }

  /** The worker of a job's latest claim. */
  ghost function LastWorker(claims: seq<Claim>, id: nat): Option<string> {
    if |claims| == 0 then None
    else if claims[|claims| - 1].job.id == id then Some(claims[|claims| - 1].worker)
    else LastWorker(claims[..|claims| - 1], id)
  }

  ghost predicate RowSound(s: State, id: nat)
    requires id in s.rows
  {
    var row := s.rows[id];
    && 1 <= id < s.nextId
    && row.attempt == ClaimCount(s.claims, id)
    && row.maxAttempts >= 1
    && (row.status == Running <==> row.leasedBy.Some?)
    && (row.leasedBy.Some? <==> row.leaseExpiresAt.Some?)
    && (row.leasedBy.Some? ==> row.leasedBy == LastWorker(s.claims, id))
    && (row.status == DeadLetter ==> row.attempt >= row.maxAttempts)
    && (row.status == Succeeded <==> row.result.Some?)
  }

  /** A snapshot never runs ahead of its row. */
  ghost predicate ClaimSound(s: State, c: Claim) {
    c.job.id in s.rows && 1 <= c.job.attempt <= s.rows[c.job.id].attempt
    && c.job.maxAttempts == s.rows[c.job.id].maxAttempts
  }

  ghost predicate UniqueKeys(rows: Rows) {
    forall a, b :: a in rows && b in rows && a != b ==> (rows[a].tenant, rows[a].key) != (rows[b].tenant, rows[b].key)
  }

  ghost predicate Sound(s: State) {
    && s.nextId >= 1
    && (forall id :: id in s.rows ==> RowSound(s, id))
    && (forall c :: c in s.claims ==> ClaimSound(s, c))
    && UniqueKeys(s.rows)
  }

  lemma {:induction false} NoClaims(claims: seq<Claim>, id: nat)
    requires forall c :: c in claims ==> c.job.id != id
    ensures ClaimCount(claims, id) == 0 && LastWorker(claims, id) == None
  {
    if |claims| == 0 {
    } else {
      var front, last := claims[..|claims| - 1], claims[|claims| - 1];
      assert forall c :: c in front ==> c in claims;
      assert last in claims;
      NoClaims(front, id);
    }
  }

  lemma ClaimAppend(claims: seq<Claim>, c: Claim, id: nat)
    ensures ClaimCount(claims + [c], id) == ClaimCount(claims, id) + if c.job.id == id then 1 else 0
    ensures LastWorker(claims + [c], id) == if c.job.id == id then Some(c.worker) else LastWorker(claims, id)
  {
    assert (claims + [c])[..|claims|] == claims;
  }

  lemma EnqueueSound(s: State, e: Event)
    requires Sound(s) && e.EnqueueStep?
    ensures Sound(Next(s, e))
  {
    hide ClaimCount, LastWorker;
    var s' := Next(s, e);
    if s' != s {
      assert s.nextId !in s.rows;
      forall c | c in s.claims
        ensures c.job.id != s.nextId && ClaimSound(s', c)
      {
        assert ClaimSound(s, c);
      }
      NoClaims(s.claims, s.nextId);
      forall id | id in s'.rows
        ensures RowSound(s', id)
      {
        if id != s.nextId { assert RowSound(s, id); }
      }
      forall a | a in s.rows
        ensures (s.rows[a].tenant, s.rows[a].key) != (e.tenant, e.key)
      {
        assert !IsKey(s.rows, e.tenant, e.key, a);
      }
    }
  }

  lemma ClaimStepSound(s: State, e: Event)
    requires Sound(s) && e.ClaimStep?
    ensures Sound(Next(s, e))
  {
    hide ClaimCount, LastWorker;
    var s' := Next(s, e);
    if s' != s {
      var claim := s'.claims[|s.claims|];
      forall id | id in s'.rows
        ensures RowSound(s', id)
      {
        assert RowSound(s, id);
        ClaimAppend(s.claims, claim, id);
      }
      forall c | c in s'.claims
        ensures ClaimSound(s', c)
      {
        if c in s.claims { assert ClaimSound(s, c); }
      }
    }
  }

  /** The three lease-guarded steps change one running row and keep its attempt and limits. */
  lemma HeldSound(s: State, id: nat, worker: string, row: Row)
    requires Sound(s) && HeldBy(s.rows, id, worker)
    requires row.attempt == s.rows[id].attempt && row.maxAttempts == s.rows[id].maxAttempts
    requires row.tenant == s.rows[id].tenant && row.key == s.rows[id].key
    requires (row.status == Running && row.leasedBy == s.rows[id].leasedBy)
             || (row.status != Running && row.leasedBy.None?)
    requires row.leasedBy.Some? <==> row.leaseExpiresAt.Some?
    requires row.status == DeadLetter ==> row.attempt >= row.maxAttempts
    requires row.status == Succeeded <==> row.result.Some?
    ensures Sound(s.(rows := s.rows[id := row]))
  {
    hide ClaimCount, LastWorker;
    var s' := s.(rows := s.rows[id := row]);
    assert RowSound(s, id);
    forall i | i in s'.rows
      ensures RowSound(s', i)
    {
      assert RowSound(s, i);
    }
    forall c | c in s'.claims
      ensures ClaimSound(s', c)
    {
      assert ClaimSound(s, c);
    }
  }

  lemma StepSound(s: State, e: Event)
    requires Sound(s)
    ensures Sound(Next(s, e))
  {
    hide ClaimCount, LastWorker, UniqueKeys, RetryDelay;
    match e
    case EnqueueStep(_, _, _, _, _, _) => EnqueueSound(s, e);
    case ClaimStep(_, _, _, _) => ClaimStepSound(s, e);
    case HeartbeatStep(c, worker, lease, now) =>
      if Next(s, e) != s {
        var id := s.claims[c].job.id;
        assert RowSound(s, id);
        HeldSound(s, id, worker, Beaten(s.rows[id], lease, now));
      }
    case SucceedStep(c, worker, result) =>
      if Next(s, e) != s {
        var id := s.claims[c].job.id;
        HeldSound(s, id, worker, Completed(s.rows[id], result));
      }
    case FailStep(c, worker, error, now) =>
      if Next(s, e) != s {
        var id := s.claims[c].job.id;
        assert s.claims[c] in s.claims;
        assert RowSound(s, id) && ClaimSound(s, s.claims[c]);
        HeldSound(s, id, worker, FailedRow(s.rows[id], s.claims[c].job, error, now));
      }
  }

  /** Over every run: attempts count claims, only running rows hold a lease and it belongs to the latest claimer, and a
      dead letter has used up its attempts. */
  lemma {:induction false} AlwaysSound(events: seq<Event>)
    ensures Sound(After(Empty, events))
  {
    hide Sound, Next;
    if |events| == 0 {
      EmptySound();
    } else {
      AlwaysSound(events[..|events| - 1]);
      StepSound(After(Empty, events[..|events| - 1]), events[|events| - 1]);
    }
  }

  lemma EmptySound()
    ensures Sound(Empty)
  {
  }

  // ----- finality -----

  ghost predicate Final(s: State, id: nat, row: Row) {
    id in s.rows && s.rows[id] == row && (row.status == Succeeded || row.status == DeadLetter)
  }

  lemma StepKeepsFinal(s: State, e: Event, id: nat, row: Row)
    requires Sound(s) && Final(s, id, row)
    ensures Final(Next(s, e), id, row)
  {
    assert RowSound(s, id);
  }

  /** Succeeded and dead-letter rows never change again. */
  lemma {:induction false} FinalForever(s: State, events: seq<Event>, id: nat, row: Row)
    requires Sound(s) && Final(s, id, row)
    ensures Sound(After(s, events)) && Final(After(s, events), id, row)
  {
    hide Sound, Next, Final;
    if |events| == 0 {
    } else {
      var front := events[..|events| - 1];
      FinalForever(s, front, id, row);
      StepKeepsFinal(After(s, front), events[|events| - 1], id, row);
      StepSound(After(s, front), events[|events| - 1]);
    }
  }

  // ----- lost leases -----

  ghost predicate CallsBack(e: Event, c: nat, worker: string) {
    && (e.HeartbeatStep? || e.SucceedStep? || e.FailStep?)
    && e.claim == c && e.worker == worker
  }

  /** A worker whose job was last claimed by another worker cannot change anything. */
  lemma LostLeaseIsInert(s: State, e: Event, c: nat, worker: string)
    requires Sound(s) && CallsBack(e, c, worker) && c < |s.claims|
    requires LastWorker(s.claims, s.claims[c].job.id) != Some(worker)
    ensures Next(s, e) == s
  {
    hide ClaimCount, LastWorker;
    assert s.claims[c] in s.claims && ClaimSound(s, s.claims[c]);
    assert RowSound(s, s.claims[c].job.id);
  }

  // ----- retries -----

  lemma {:induction false} Pow2Monotone(a: nat, b: nat)
    requires a <= b
    ensures Pow2(a) <= Pow2(b)
  {
    if a < b {
      Pow2Monotone(a, b - 1);
    }
  }

  lemma RetryDelayBounds(attempt: nat)
    requires attempt >= 1
    ensures 2 <= RetryDelay(attempt) <= 256
  {
    var n := Min(attempt, 8);
    Pow2Monotone(1, n);
    Pow2Monotone(n, 8);
    assert Pow2(1) == 2;
    assert Pow2(4) == 16 && Pow2(8) == 256;
  }

  /** The delay starts at one second and doubles with each attempt, up to the eighth. */
  lemma RetryDelayDoubles(attempt: nat)
    ensures RetryDelay(0) == 1
    ensures RetryDelay(attempt + 1) == if attempt < 8 then 2 * RetryDelay(attempt) else RetryDelay(attempt)
    ensures attempt >= 8 ==> RetryDelay(attempt) == 256
  {
    Pow2Monotone(Min(attempt + 1, 8), 8);
    Pow2Monotone(Min(attempt, 8), 8);
    assert Pow2(4) == 16 && Pow2(8) == 256;
  }

  /** Every retry waits between 2 and 256 seconds; the 300-second cap is never reached. */
  lemma RetryWaits(s: State, e: Event)
    requires Sound(s) && e.FailStep? && e.claim < |s.claims| && HeldBy(s.rows, s.claims[e.claim].job.id, e.worker)
    ensures var id := s.claims[e.claim].job.id;
            e.now + 2 <= Next(s, e).rows[id].availableAt <= e.now + 256
  {
    hide RetryDelay, ClaimCount, LastWorker;
    assert s.claims[e.claim] in s.claims && ClaimSound(s, s.claims[e.claim]);
    RetryDelayBounds(s.claims[e.claim].job.attempt);
  }

  // ----- when a row can be claimed -----

  /** The step bars claims of row `id` until `until`: an effective claim or a heartbeat of the holder for the lease, a
      failure with an attempt left for the retry delay, a new row until its own time. */
  ghost predicate Bars(s: State, e: Event, id: nat, until: int) {
    match e
    case EnqueueStep(_, _, _, _, _, availableAt) => Next(s, e) != s && id == s.nextId && until == availableAt
    case ClaimStep(row, _, lease, now) => Next(s, e) != s && id == row && until == now + lease
    case HeartbeatStep(c, worker, lease, now) => Calls(s, c, worker, id) && until == now + lease
    case SucceedStep(_, _, _) => false
    case FailStep(c, worker, _, now) =>
      && Calls(s, c, worker, id) && s.claims[c].job.attempt < s.claims[c].job.maxAttempts
      && until == now + RetryDelay(s.claims[c].job.attempt)
  }

  /** A call with this claim finds the row held by its worker. */
  ghost predicate Calls(s: State, c: nat, worker: string, id: nat) {
    c < |s.claims| && s.claims[c].job.id == id && HeldBy(s.rows, id, worker)
  }

  /** No step reports on the row or extends its lease, and none claims it too early. */
  ghost predicate Undisturbed(s: State, events: seq<Event>, id: nat, until: int) {
    forall i :: 0 <= i < |events| ==> Passes(After(s, events[..i]), events[i], id, until)
  }

  ghost predicate Passes(s: State, e: Event, id: nat, until: int) {
    match e
    case EnqueueStep(_, _, _, _, _, _) => true
    case ClaimStep(row, _, _, now) => row == id ==> now < until
    case HeartbeatStep(c, worker, _, _) => !Calls(s, c, worker, id)
    case SucceedStep(c, worker, _) => !Calls(s, c, worker, id)
    case FailStep(c, worker, _, _) => !Calls(s, c, worker, id)
  }

  ghost predicate BarredUntil(s: State, id: nat, row: Row, until: int) {
    && id in s.rows && s.rows[id] == row
    && (|| (row.status == Running && row.leaseExpiresAt == Some(until))
        || (row.status == Pending && row.availableAt == until))
  }

  lemma StepKeepsBar(s: State, e: Event, id: nat, row: Row, until: int)
    requires Sound(s) && BarredUntil(s, id, row, until) && Passes(s, e, id, until)
    ensures BarredUntil(Next(s, e), id, row, until)
  {
    hide ClaimCount, LastWorker, UniqueKeys;
    assert RowSound(s, id);
  }

  lemma {:induction false} BarLasts(s: State, events: seq<Event>, id: nat, row: Row, until: int)
    requires Sound(s) && BarredUntil(s, id, row, until) && Undisturbed(s, events, id, until)
    ensures BarredUntil(After(s, events), id, row, until) && Sound(After(s, events))
  {
    hide Sound, Next, BarredUntil, Passes;
    if |events| == 0 {
    } else {
      var front := events[..|events| - 1];
      assert forall i :: 0 <= i < |front| ==> front[..i] == events[..i] && front[i] == events[i];
      BarLasts(s, front, id, row, until);
      StepKeepsBar(After(s, front), events[|events| - 1], id, row, until);
      StepSound(After(s, front), events[|events| - 1]);
    }
  }

  lemma BarsRow(s: State, e: Event, id: nat, until: int)
    requires Sound(s) && Bars(s, e, id, until)
    ensures id in Next(s, e).rows && BarredUntil(Next(s, e), id, Next(s, e).rows[id], until)
  {
    hide ClaimCount, LastWorker, UniqueKeys, RetryDelay;
    assert id in s.rows ==> RowSound(s, id);
  }

  /** Leases, retry delays and start times are kept to the instant. Whatever else happens, until the holder reports or
      extends its lease, a claim of the row before the time is over changes nothing, and any claim from then on takes
      the row and gives the worker a lease of its own. */
  lemma ClaimableFrom(s: State, e: Event, events: seq<Event>, id: nat, until: int, claim: Event)
    requires Sound(s) && Bars(s, e, id, until) && Undisturbed(Next(s, e), events, id, until)
    requires claim.ClaimStep? && claim.id == id && claim.claimLease >= 5
    ensures var later := After(Next(s, e), events);
            && id in later.rows
            && (claim.claimNow < until ==> Next(later, claim) == later)
            && (claim.claimNow >= until ==>
                  && Next(later, claim).rows[id].leasedBy == Some(claim.claimer)
                  && Next(later, claim).rows[id].attempt == later.rows[id].attempt + 1
                  && Bars(later, claim, id, claim.claimNow + claim.claimLease))
  {
    hide Sound, After, Bars, Passes, RetryDelay;
    StepSound(s, e);
    BarsRow(s, e, id, until);
    BarLasts(Next(s, e), events, id, Next(s, e).rows[id], until);
    TakesOver(After(Next(s, e), events), id, Next(s, e).rows[id], until, claim);
  }

  lemma TakesOver(s: State, id: nat, row: Row, until: int, claim: Event)
    requires BarredUntil(s, id, row, until) && claim.ClaimStep? && claim.id == id && claim.claimLease >= 5
    ensures claim.claimNow < until ==> Next(s, claim) == s
    ensures claim.claimNow >= until ==>
              && Next(s, claim).rows[id].leasedBy == Some(claim.claimer)
              && Next(s, claim).rows[id].attempt == row.attempt + 1
              && Bars(s, claim, id, claim.claimNow + claim.claimLease)
  {
    hide RetryDelay;
  }

  // ----- what a row carries -----

  /** What a worker is handed is what was enqueued: nothing that happens later changes it. */
  lemma {:induction false} PayloadTravels(s: State, e: Event, events: seq<Event>)
    requires Sound(s) && e.EnqueueStep? && Next(s, e) != s
    ensures Sound(After(Next(s, e), events))
    ensures var rows := After(Next(s, e), events).rows;
            && s.nextId in rows
            && rows[s.nextId].tenant == e.tenant && rows[s.nextId].key == e.key
            && rows[s.nextId].kind == e.kind && rows[s.nextId].payload == e.payload
            && rows[s.nextId].maxAttempts == e.maxAttempts
  {
    hide Sound;
    if |events| == 0 {
      StepSound(s, e);
    } else {
      PayloadTravels(s, e, events[..|events| - 1]);
      var before, last := After(Next(s, e), events[..|events| - 1]), events[|events| - 1];
      StepSound(before, last);
      PayloadStays(before, last, s.nextId);
    }
  }

  lemma PayloadStays(s: State, e: Event, id: nat)
    requires Sound(s) && id in s.rows
    ensures var row, row' := s.rows[id], Next(s, e).rows[id];
            && row'.tenant == row.tenant && row'.key == row.key && row'.kind == row.kind
            && row'.payload == row.payload && row'.maxAttempts == row.maxAttempts
  {
    hide ClaimCount, LastWorker, UniqueKeys, RetryDelay;
    assert RowSound(s, id);
  }

  /** A result reported by the holder is the row's result for good. */
  lemma ResultIsKept(s: State, e: Event, events: seq<Event>, id: nat)
    requires Sound(s) && e.SucceedStep? && Calls(s, e.claim, e.worker, id)
    ensures var rows := After(Next(s, e), events).rows;
            id in rows && rows[id].status == Succeeded && rows[id].result == Some(e.result)
  {
    hide Sound, After;
    StepSound(s, e);
    FinalForever(Next(s, e), events, id, Next(s, e).rows[id]);
  }

  /** A failure is kept as the row's last error, cut at 4000 characters; it is final exactly when the snapshot has no
      attempt left. */
  lemma FailureIsKept(s: State, e: Event, events: seq<Event>, id: nat)
    requires Sound(s) && e.FailStep? && Calls(s, e.claim, e.worker, id)
    ensures var row, job := Next(s, e).rows[id], s.claims[e.claim].job;
            && row.lastError.Some? && row.lastError.value <= e.error
            && |row.lastError.value| == Min(|e.error|, 4000)
            && row.status == (if job.attempt < job.maxAttempts then Pending else DeadLetter)
            && (job.attempt >= job.maxAttempts ==>
                  id in After(Next(s, e), events).rows && After(Next(s, e), events).rows[id] == row)
  {
    hide Sound, After, RetryDelay;
    StepSound(s, e);
    if s.claims[e.claim].job.attempt >= s.claims[e.claim].job.maxAttempts {
      FinalForever(Next(s, e), events, id, Next(s, e).rows[id]);
    }
  }

  // ----- attempts beyond the limit -----

  ghost function CrashLoop(n: nat): seq<Event> {
    if n == 0 then [EnqueueStep("t", "kind", "payload", "key", 1, 0)]
    else CrashLoop(n - 1) + [ClaimStep(1, "w", 5, 5 * n)]
  }

  /** Nothing bounds the attempts of a job whose workers die: with one attempt allowed, any number of claims happens. */
  lemma {:induction false} AttemptsUnbounded(n: nat)
    ensures var s := After(Empty, CrashLoop(n));
            && 1 in s.rows && s.rows[1].attempt == n && s.rows[1].maxAttempts == 1
            && (n == 0 ==> s.rows[1].status == Pending && s.rows[1].availableAt == 0)
            && (n > 0 ==> s.rows[1].status == Running && s.rows[1].leaseExpiresAt == Some(5 * n + 5))
  {
    if n == 0 {
      assert CrashLoop(0)[..0] == [];
      assert forall id :: !IsKey(Empty.rows, "t", "key", id);
    } else {
      AttemptsUnbounded(n - 1);
      assert CrashLoop(n)[..|CrashLoop(n - 1)|] == CrashLoop(n - 1);
    }
  }

  /** A failure report carries the row's own attempt number. */
  ghost predicate Fresh(s: State, e: Event) {
    e.FailStep? && e.claim < |s.claims| && HeldBy(s.rows, s.claims[e.claim].job.id, e.worker) ==>
      s.claims[e.claim].job.attempt == s.rows[s.claims[e.claim].job.id].attempt
  }

  ghost predicate AllFresh(s: State, events: seq<Event>) {
    forall i :: 0 <= i < |events| ==> Fresh(After(s, events[..i]), events[i])
  }

  ghost predicate PendingBelowLimit(s: State) {
    forall id :: id in s.rows && s.rows[id].status == Pending ==> s.rows[id].attempt < s.rows[id].maxAttempts
  }

  lemma StepKeepsPendingBelow(s: State, e: Event)
    requires Sound(s) && PendingBelowLimit(s) && Fresh(s, e)
    ensures PendingBelowLimit(Next(s, e))
  {
    hide ClaimCount, LastWorker, UniqueKeys;
    if e.FailStep? && Next(s, e) != s {
      assert s.claims[e.claim] in s.claims && ClaimSound(s, s.claims[e.claim]);
    }
  }

  /** When failures are reported with current snapshots, a claim that exceeds the limit always takes over an expired
      lease: the limit bounds reported failures, not crashes. */
  lemma {:induction false} OverclaimsAreExpiries(events: seq<Event>, e: Event)
    requires AllFresh(Empty, events) && e.ClaimStep? && Next(After(Empty, events), e) != After(Empty, events)
    ensures var s := After(Empty, events);
            e.id in s.rows && (s.rows[e.id].attempt >= s.rows[e.id].maxAttempts ==>
              s.rows[e.id].status == Running && s.rows[e.id].leaseExpiresAt.value <= e.claimNow)
  {
    hide ClaimCount, LastWorker, UniqueKeys, After;
    AlwaysSound(events);
    PendingAlwaysBelow(events);
    assert RowSound(After(Empty, events), e.id);
  }

  lemma {:induction false} PendingAlwaysBelow(events: seq<Event>)
    requires AllFresh(Empty, events)
    ensures PendingBelowLimit(After(Empty, events))
  {
    hide Sound, Next, PendingBelowLimit, Fresh;
    if |events| == 0 {
      EmptyBelow();
    } else {
      var front := events[..|events| - 1];
      assert forall i :: 0 <= i < |front| ==> front[..i] == events[..i] && front[i] == events[i];
      PendingAlwaysBelow(front);
      AlwaysSound(front);
      assert Fresh(After(Empty, events[..|events| - 1]), events[|events| - 1]);
      StepKeepsPendingBelow(After(Empty, front), events[|events| - 1]);
    }
  }

  lemma EmptyBelow()
    ensures PendingBelowLimit(Empty)
  {
  }

  // ----- which runs keep the limit -----

  /** No row was claimed more often than it may be. */
  ghost predicate WithinLimits(s: State) {
    forall id :: id in s.rows ==> s.rows[id].attempt <= s.rows[id].maxAttempts
  }

  /** The step claims a row that has no attempt left. */
  ghost predicate ClaimsSpent(s: State, e: Event) {
    && e.ClaimStep? && e.claimLease >= 5
    && e.id in s.rows && Claimable(s.rows[e.id], e.claimNow)
    && s.rows[e.id].attempt >= s.rows[e.id].maxAttempts
  }

  ghost predicate NeverClaimsSpent(s: State, events: seq<Event>) {
    forall i :: 0 <= i < |events| ==> !ClaimsSpent(After(s, events[..i]), events[i])
  }

  /** One step: the limits still hold exactly when they held and no spent row was claimed. */
  lemma StepWithinLimits(s: State, e: Event)
    requires Sound(s)
    ensures WithinLimits(Next(s, e)) <==> WithinLimits(s) && !ClaimsSpent(s, e)
  {
    hide ClaimCount, LastWorker, UniqueKeys;
    var s' := Next(s, e);
    forall id | id in s.rows
      ensures id in s'.rows && s'.rows[id].maxAttempts == s.rows[id].maxAttempts
      ensures s'.rows[id].attempt == s.rows[id].attempt + if s' != s && e.ClaimStep? && e.id == id then 1 else 0
    {
      assert RowSound(s, id);
    }
    if e.ClaimStep? && s' != s {
      assert RowSound(s, e.id);
    }
  }

  /** Every run keeps every row within its limit if and only if no claim of the run takes a row without an attempt
      left. */
  lemma {:induction false} LimitKeptIff(events: seq<Event>)
    ensures WithinLimits(After(Empty, events)) <==> NeverClaimsSpent(Empty, events)
  {
    hide Sound, Next, WithinLimits, ClaimsSpent;
    if |events| == 0 {
      EmptyWithinLimits();
    } else {
      var front, e := events[..|events| - 1], events[|events| - 1];
      assert forall i :: 0 <= i < |front| ==> front[..i] == events[..i] && front[i] == events[i];
      LimitKeptIff(front);
      AlwaysSound(front);
      StepWithinLimits(After(Empty, front), e);
    }
  }

  lemma EmptyWithinLimits()
    ensures WithinLimits(Empty)
  {
  }

  /** The step claims a row whose worker let the lease of the last allowed attempt expire. */
  ghost predicate TakesOverLast(s: State, e: Event) {
    ClaimsSpent(s, e) && s.rows[e.id].status == Running
  }

  ghost predicate LastAttemptsFinish(s: State, events: seq<Event>) {
    forall i :: 0 <= i < |events| ==> !TakesOverLast(After(s, events[..i]), events[i])
  }

  /** When failures are reported with current snapshots, the only way past the limit is to take over an expired last
      attempt. */
  lemma FreshLimitKeptIff(events: seq<Event>)
    requires AllFresh(Empty, events)
    ensures WithinLimits(After(Empty, events)) <==> LastAttemptsFinish(Empty, events)
  {
    hide Sound, Next, After, WithinLimits, Fresh;
    LimitKeptIff(events);
    forall i | 0 <= i < |events|
      ensures ClaimsSpent(After(Empty, events[..i]), events[i]) <==> TakesOverLast(After(Empty, events[..i]), events[i])
    {
      var front := events[..i];
      assert forall j :: 0 <= j < |front| ==> front[..j] == events[..j] && front[j] == events[j];
      PendingAlwaysBelow(front);
    }
  }

  /** A worker that claims its own job twice and reports failure with the first snapshot. */
  function StaleReport(): seq<Event> {
    [EnqueueStep("t", "kind", "payload", "key", 2, 0),
     ClaimStep(1, "w", 5, 0),
     ClaimStep(1, "w", 5, 5),
     FailStep(0, "w", "error", 6),
     ClaimStep(1, "w", 5, 8)]
  }

  function StaleRow(): Row {
    NewRow("t", "kind", "payload", "key", 2, 0)
  }

  function StaleState(row: Row, claims: seq<Claim>): State {
    State(map[1 := row], 2, claims)
  }

  lemma StaleClaims()
    ensures After(Empty, StaleReport()[..0]) == Empty
    ensures After(Empty, StaleReport()[..1]) == StaleState(StaleRow(), [])
    ensures var r1 := Claimed(StaleRow(), "w", 5, 0);
            var c1 := Claim(DurableJob(1, 1, 2), "w");
            && After(Empty, StaleReport()[..2]) == StaleState(r1, [c1])
            && After(Empty, StaleReport()[..3])
               == StaleState(Claimed(r1, "w", 5, 5), [c1, Claim(DurableJob(1, 2, 2), "w")])
  {
    var events := StaleReport();
    StepAt(events, 0);
    StepAt(events, 1);
    StepAt(events, 2);
    assert forall id :: !IsKey(Empty.rows, "t", "key", id);
  }

  lemma StaleFailure()
    ensures var s := After(Empty, StaleReport()[..4]);
            && s.nextId == 2 && s.rows.Keys == {1} && s.rows[1].status == Pending
            && s.rows[1].attempt == 2 && s.rows[1].maxAttempts == 2 && s.rows[1].availableAt == 8
  {
    StaleClaims();
    StepAt(StaleReport(), 3);
    assert Pow2(1) == 2;
  }

  /** The second way past the limit: the stale report sends a row without an attempt left back to the queue. No last
      attempt is taken over, and the row ends with three claims of two. */
  lemma StaleReportOverclaims()
    ensures LastAttemptsFinish(Empty, StaleReport()) && !AllFresh(Empty, StaleReport())
    ensures var s := After(Empty, StaleReport());
            1 in s.rows && s.rows[1].attempt == 3 && s.rows[1].maxAttempts == 2
  {
    hide After;
    var events := StaleReport();
    StaleClaims();
    StaleFailure();
    StepAt(events, 4);
    assert events[..5] == events;
    assert !Fresh(After(Empty, events[..3]), events[3]);
  }

  lemma StepAt(events: seq<Event>, i: nat)
    requires i < |events|
    ensures After(Empty, events[..i + 1]) == Next(After(Empty, events[..i]), events[i])
  {
    hide Next;
    assert events[..i + 1][..i] == events[..i];
  }
}
