/** The quota ledger of packages/workloads/quota.py, persistent branch: one ledger row per tenant and one
    reservation row per (tenant, key). Each call is one transaction. */
module Quota {
  import opened Wrappers

  datatype Limits = Limits(maxGpus: int, maxGpuHours: real, maxJobs: int)

  datatype Ledger = Ledger(limits: Limits, usedGpus: int, usedGpuHours: real, activeJobs: int)

  datatype Reservation = Reservation(tenant: string, key: string, gpus: int, gpuHours: real, released: bool)

  /** Reservation rows in insertion order. */
  datatype Books = Books(ledgers: map<string, Ledger>, reservations: seq<Reservation>)

  datatype Error = NegativeLimits | BelowUsage | NegativeDemand | MissingKey | DifferentDemand

  // ----- what is in use -----

  function Held(r: Reservation, tenant: string): bool {
    r.tenant == tenant && !r.released
  }

  ghost function GpusHeld(rs: seq<Reservation>, tenant: string): int {
    if |rs| == 0 then 0
    else GpusHeld(rs[..|rs| - 1], tenant) + if Held(rs[|rs| - 1], tenant) then rs[|rs| - 1].gpus else 0
  }

  ghost function HoursHeld(rs: seq<Reservation>, tenant: string): real {
    if |rs| == 0 then 0.0
    else HoursHeld(rs[..|rs| - 1], tenant) + if Held(rs[|rs| - 1], tenant) then rs[|rs| - 1].gpuHours else 0.0
  }

  ghost function JobsHeld(rs: seq<Reservation>, tenant: string): nat {
    if |rs| == 0 then 0
    else JobsHeld(rs[..|rs| - 1], tenant) + if Held(rs[|rs| - 1], tenant) then 1 else 0
  }

  /** The row with this tenant and key, if any. */
  function Find(rs: seq<Reservation>, tenant: string, key: string): (found: Option<nat>)
    ensures found.Some? ==> found.value < |rs| && rs[found.value].tenant == tenant && rs[found.value].key == key
    ensures found.None? ==> forall i :: 0 <= i < |rs| ==> rs[i].tenant != tenant || rs[i].key != key
  {
    if |rs| == 0 then None
    else if rs[|rs| - 1].tenant == tenant && rs[|rs| - 1].key == key then Some(|rs| - 1)
    else Find(rs[..|rs| - 1], tenant, key)
  }

  function Max0(x: int): int {
    if x < 0 then 0 else x
  }

  function Max0Hours(x: real): real {
    if x < 0.0 then 0.0 else x
  }

  // ----- the transactions -----

  predicate Covers(limits: Limits, l: Ledger) {
    l.usedGpus <= limits.maxGpus && l.usedGpuHours <= limits.maxGpuHours && l.activeJobs <= limits.maxJobs
  }

  function ConfigureOf(b: Books, tenant: string, limits: Limits): Result<Books, Error> {
    if limits.maxGpus < 0 || limits.maxJobs < 0 || limits.maxGpuHours < 0.0 then Err(NegativeLimits)
    else if tenant !in b.ledgers then Ok(b.(ledgers := b.ledgers[tenant := Ledger(limits, 0, 0.0, 0)]))
    else if Covers(limits, b.ledgers[tenant]) then
      Ok(b.(ledgers := b.ledgers[tenant := b.ledgers[tenant].(limits := limits)]))
    else Err(BelowUsage)
  }

  function Raised(l: Ledger, gpus: int, hours: real): Ledger {
    l.(usedGpus := l.usedGpus + gpus, usedGpuHours := l.usedGpuHours + hours, activeJobs := l.activeJobs + 1)
  }

  /** With the answer to the caller: whether the reservation is held. */
  function ReserveOf(b: Books, tenant: string, gpus: int, hours: real, key: string): Result<(Books, bool), Error> {
    if gpus < 0 || hours < 0.0 then Err(NegativeDemand)
    else if key == "" then Err(MissingKey)
    else
      var prior := Find(b.reservations, tenant, key);
      if prior.Some? then
        var r := b.reservations[prior.value];
        if r.gpus != gpus || r.gpuHours != hours then Err(DifferentDemand) else Ok((b, !r.released))
      else if tenant in b.ledgers && Covers(b.ledgers[tenant].limits, Raised(b.ledgers[tenant], gpus, hours)) then
        Ok((Books(
              b.ledgers[tenant := Raised(b.ledgers[tenant], gpus, hours)],
              b.reservations + [Reservation(tenant, key, gpus, hours, false)]), true))
      else Ok((b, false))
  }

  function Lowered(l: Ledger, gpus: int, hours: real): Ledger {
    l.(usedGpus := Max0(l.usedGpus - gpus),
       usedGpuHours := Max0Hours(l.usedGpuHours - hours),
       activeJobs := Max0(l.activeJobs - 1))
  }

  /** The reservation a release call matches: same key, not yet released, same demand. */
  function Releasable(b: Books, tenant: string, gpus: int, hours: real, key: string): Option<nat> {
    var found := Find(b.reservations, tenant, key);
    if found.Some?
       && !b.reservations[found.value].released
       && b.reservations[found.value].gpus == gpus && b.reservations[found.value].gpuHours == hours
    then found else None
  }

  function ReleaseOf(b: Books, tenant: string, gpus: int, hours: real, key: string): Result<Books, Error> {
    if key == "" then Err(MissingKey)
    else
      var i := Releasable(b, tenant, gpus, hours, key);
      if i.None? then Ok(b)
      else
        var reservations := b.reservations[i.value := b.reservations[i.value].(released := true)];
        Ok(Books(
             if tenant in b.ledgers then b.ledgers[tenant := Lowered(b.ledgers[tenant], gpus, hours)] else b.ledgers,
             reservations))
  }

  /** The ledger, updated in place. */
  class QuotaLedger {
    var ledgers: map<string, Ledger>
    var reservations: seq<Reservation>

    function Contents(): Books
      reads this
    {
      Books(ledgers, reservations)
    }

    constructor ()
      ensures Contents() == Books(map[], [])
    {
      ledgers, reservations := map[], [];
    }

    method Configure(tenant: string, limits: Limits) returns (error: Option<Error>)
      modifies this
      ensures var r := ConfigureOf(old(Contents()), tenant, limits);
              if r.Ok? then error.None? && Contents() == r.value
              else error == Some(r.error) && Contents() == old(Contents())
    {
      if limits.maxGpus < 0 || limits.maxJobs < 0 || limits.maxGpuHours < 0.0 {
        return Some(NegativeLimits);
      }
      if tenant !in ledgers {
        ledgers := ledgers[tenant := Ledger(limits, 0, 0.0, 0)];
      } else if Covers(limits, ledgers[tenant]) {
        ledgers := ledgers[tenant := ledgers[tenant].(limits := limits)];
      } else {
        return Some(BelowUsage);
      }
      return None;
    }

    method Reserve(tenant: string, gpus: int, hours: real, key: string) returns (answer: Result<bool, Error>)
      modifies this
      ensures var r := ReserveOf(old(Contents()), tenant, gpus, hours, key);
              if r.Ok? then answer == Ok(r.value.1) && Contents() == r.value.0
              else answer == Err(r.error) && Contents() == old(Contents())
    {
      if gpus < 0 || hours < 0.0 {
        return Err(NegativeDemand);
      }
      if key == "" {
        return Err(MissingKey);
      }
      var prior := Find(reservations, tenant, key);
      if prior.Some? {
        var r := reservations[prior.value];
        if r.gpus != gpus || r.gpuHours != hours {
          return Err(DifferentDemand);
        }
        return Ok(!r.released);
      }
      if tenant !in ledgers || !Covers(ledgers[tenant].limits, Raised(ledgers[tenant], gpus, hours)) {
        return Ok(false);
      }
      ledgers := ledgers[tenant := Raised(ledgers[tenant], gpus, hours)];
      reservations := reservations + [Reservation(tenant, key, gpus, hours, false)];
      return Ok(true);
    }

    method Release(tenant: string, gpus: int, hours: real, key: string) returns (error: Option<Error>)
      modifies this
      ensures var r := ReleaseOf(old(Contents()), tenant, gpus, hours, key);
              if r.Ok? then error.None? && Contents() == r.value
              else error == Some(r.error) && Contents() == old(Contents())
    {
      if key == "" {
        return Some(MissingKey);
      }
      var i := Releasable(Contents(), tenant, gpus, hours, key);
      if i.None? {
        return None;
      }
      reservations := reservations[i.value := reservations[i.value].(released := true)];
      if tenant in ledgers {
        ledgers := ledgers[tenant := Lowered(ledgers[tenant], gpus, hours)];
      }
      return None;
    }

    /** Usage of a tenant; zero without a ledger row. On conserved books it is what the reservations hold. */
    method Usage(tenant: string) returns (gpus: int, hours: real, jobs: int)
      ensures Conserved(Contents()) ==>
                && gpus == GpusHeld(reservations, tenant)
                && hours == HoursHeld(reservations, tenant)
                && jobs == JobsHeld(reservations, tenant)
    {
      if tenant in ledgers {
        gpus, hours, jobs := ledgers[tenant].usedGpus, ledgers[tenant].usedGpuHours, ledgers[tenant].activeJobs;
      } else {
        gpus, hours, jobs := 0, 0.0, 0;
        if Conserved(Contents()) { NothingHeld(reservations, tenant); }
      }
    }
  }

  // ----- conservation -----

  ghost predicate Balanced(b: Books, tenant: string)
    requires tenant in b.ledgers
  {
    var l := b.ledgers[tenant];
    && l.usedGpus == GpusHeld(b.reservations, tenant)
    && l.usedGpuHours == HoursHeld(b.reservations, tenant)
    && l.activeJobs == JobsHeld(b.reservations, tenant)
    && Covers(l.limits, l)
  }

  ghost predicate RowOk(b: Books, r: Reservation) {
    r.tenant in b.ledgers && r.gpus >= 0 && r.gpuHours >= 0.0
  }

  ghost predicate UniqueKeys(rs: seq<Reservation>) {
    forall i, j :: 0 <= i < j < |rs| ==> (rs[i].tenant, rs[i].key) != (rs[j].tenant, rs[j].key)
  }

  /** Usage is the sum and count of unreleased reservations, and within limits, for every tenant. */
  ghost predicate Conserved(b: Books) {
    && (forall tenant :: tenant in b.ledgers ==> Balanced(b, tenant))
    && (forall r :: r in b.reservations ==> RowOk(b, r))
    && UniqueKeys(b.reservations)
  }

  lemma {:induction false} NothingHeld(rs: seq<Reservation>, tenant: string)
    requires forall r :: r in rs ==> r.tenant != tenant
    ensures GpusHeld(rs, tenant) == 0 && HoursHeld(rs, tenant) == 0.0 && JobsHeld(rs, tenant) == 0
  {
    if |rs| == 0 {
    } else {
      assert forall r :: r in rs[..|rs| - 1] ==> r in rs;
      assert rs[|rs| - 1] in rs;
      NothingHeld(rs[..|rs| - 1], tenant);
    }
  }

  lemma HeldAppend(rs: seq<Reservation>, r: Reservation, tenant: string)
    ensures GpusHeld(rs + [r], tenant) == GpusHeld(rs, tenant) + if Held(r, tenant) then r.gpus else 0
    ensures HoursHeld(rs + [r], tenant) == HoursHeld(rs, tenant) + if Held(r, tenant) then r.gpuHours else 0.0
    ensures JobsHeld(rs + [r], tenant) == JobsHeld(rs, tenant) + if Held(r, tenant) then 1 else 0
  {
    assert (rs + [r])[..|rs|] == rs;
  }

  /** Marking a row released takes exactly its own demand out of the sums. */
  lemma {:induction false} HeldRelease(rs: seq<Reservation>, i: nat, tenant: string)
    requires i < |rs| && !rs[i].released
    ensures var rs' := rs[i := rs[i].(released := true)];
            && GpusHeld(rs', tenant) == GpusHeld(rs, tenant) - (if rs[i].tenant == tenant then rs[i].gpus else 0)
            && HoursHeld(rs', tenant)
               == HoursHeld(rs, tenant) - (if rs[i].tenant == tenant then rs[i].gpuHours else 0.0)
            && JobsHeld(rs', tenant) == JobsHeld(rs, tenant) - (if rs[i].tenant == tenant then 1 else 0)
  {
    var m := |rs| - 1;
    var rs' := rs[i := rs[i].(released := true)];
    if i == m {
      assert rs'[..m] == rs[..m];
    } else {
      HeldRelease(rs[..m], i, tenant);
      assert rs'[..m] == rs[..m][i := rs[i].(released := true)];
    }
  }

  lemma {:induction false} HeldNonNegative(rs: seq<Reservation>, tenant: string)
    requires forall r :: r in rs ==> r.gpus >= 0 && r.gpuHours >= 0.0
    ensures GpusHeld(rs, tenant) >= 0 && HoursHeld(rs, tenant) >= 0.0
  {
    if |rs| == 0 {
    } else {
      assert forall r :: r in rs[..|rs| - 1] ==> r in rs;
      assert rs[|rs| - 1] in rs;
      HeldNonNegative(rs[..|rs| - 1], tenant);
    }
  }

  lemma ConfigureConserves(b: Books, tenant: string, limits: Limits)
    requires Conserved(b)
    ensures ConfigureOf(b, tenant, limits).Ok? ==> Conserved(ConfigureOf(b, tenant, limits).value)
  {
    hide GpusHeld, HoursHeld, JobsHeld, UniqueKeys;
    var r := ConfigureOf(b, tenant, limits);
    if r.Ok? {
      if tenant !in b.ledgers {
        NothingHeld(b.reservations, tenant);
      }
      forall t | t in r.value.ledgers
        ensures Balanced(r.value, t)
      {
        if t != tenant || t in b.ledgers { assert Balanced(b, t); }
      }
      forall x | x in r.value.reservations
        ensures RowOk(r.value, x)
      {
        assert RowOk(b, x);
      }
    }
  }

  lemma ReserveConserves(b: Books, tenant: string, gpus: int, hours: real, key: string)
    requires Conserved(b)
    ensures var r := ReserveOf(b, tenant, gpus, hours, key); r.Ok? ==> Conserved(r.value.0)
  {
    hide GpusHeld, HoursHeld, JobsHeld;
    var r := ReserveOf(b, tenant, gpus, hours, key);
    if r.Ok? && r.value.0 != b {
      var b', row := r.value.0, Reservation(tenant, key, gpus, hours, false);
      forall t | t in b'.ledgers
        ensures Balanced(b', t)
      {
        assert Balanced(b, t);
        HeldAppend(b.reservations, row, t);
      }
      forall x | x in b'.reservations
        ensures RowOk(b', x)
      {
        if x in b.reservations { assert RowOk(b, x); }
      }
    }
  }

  lemma ReleaseConserves(b: Books, tenant: string, gpus: int, hours: real, key: string)
    requires Conserved(b)
    ensures var r := ReleaseOf(b, tenant, gpus, hours, key); r.Ok? ==> Conserved(r.value)
  {
    hide GpusHeld, HoursHeld, JobsHeld;
    var i := Releasable(b, tenant, gpus, hours, key);
    if key != "" && i.Some? {
      var b', row := ReleaseOf(b, tenant, gpus, hours, key).value, b.reservations[i.value];
      assert row in b.reservations && RowOk(b, row);
      ClampNeverFires(b, tenant, gpus, hours, key);
      forall t | t in b'.ledgers
        ensures Balanced(b', t)
      {
        assert Balanced(b, t);
        HeldRelease(b.reservations, i.value, t);
      }
      forall x | x in b'.reservations
        ensures RowOk(b', x)
      {
        var j :| 0 <= j < |b'.reservations| && b'.reservations[j] == x;
        assert RowOk(b, b.reservations[j]);
      }
    }
  }

  /** A release that matches a reservation never drives usage below zero. */
  lemma ClampNeverFires(b: Books, tenant: string, gpus: int, hours: real, key: string)
    requires Conserved(b) && Releasable(b, tenant, gpus, hours, key).Some?
    ensures tenant in b.ledgers
    ensures var l := b.ledgers[tenant];
            l.usedGpus - gpus >= 0 && l.usedGpuHours - hours >= 0.0 && l.activeJobs - 1 >= 0
  {
    hide GpusHeld, HoursHeld, JobsHeld, UniqueKeys;
    var i := Releasable(b, tenant, gpus, hours, key).value;
    var rs := b.reservations;
    assert rs[i] in rs && RowOk(b, rs[i]);
    assert Balanced(b, tenant);
    HeldRelease(rs, i, tenant);
    var rs' := rs[i := rs[i].(released := true)];
    forall r | r in rs'
      ensures r.gpus >= 0 && r.gpuHours >= 0.0
    {
      var j :| 0 <= j < |rs'| && rs'[j] == r;
      assert RowOk(b, rs[j]);
    }
    HeldNonNegative(rs', tenant);
  }

  // ----- what a call does to usage -----

  /** A new key is granted exactly when the tenant has a ledger and all three limits allow it, and then raises usage
      by what was asked and one job; otherwise nothing changes. */
  lemma ReserveRaises(b: Books, tenant: string, gpus: int, hours: real, key: string)
    requires gpus >= 0 && hours >= 0.0 && key != ""
    requires forall r :: r in b.reservations ==> r.tenant != tenant || r.key != key
    ensures var answer := ReserveOf(b, tenant, gpus, hours, key);
            && answer.Ok?
            && (answer.value.1 <==>
                  && tenant in b.ledgers
                  && b.ledgers[tenant].usedGpus + gpus <= b.ledgers[tenant].limits.maxGpus
                  && b.ledgers[tenant].usedGpuHours + hours <= b.ledgers[tenant].limits.maxGpuHours
                  && b.ledgers[tenant].activeJobs + 1 <= b.ledgers[tenant].limits.maxJobs)
            && (!answer.value.1 ==> answer.value.0 == b)
            && (answer.value.1 ==>
                  var l, b' := b.ledgers[tenant], answer.value.0;
                  && b'.reservations == b.reservations + [Reservation(tenant, key, gpus, hours, false)]
                  && b'.ledgers == b.ledgers[tenant :=
                       Ledger(l.limits, l.usedGpus + gpus, l.usedGpuHours + hours, l.activeJobs + 1)])
  {
    hide Find;
  }

  /** A release that names a held reservation and its demand gives back just that demand and one job; any other release
      changes nothing. */
  lemma ReleaseLowers(b: Books, tenant: string, gpus: int, hours: real, key: string, i: nat)
    requires Conserved(b) && key != ""
    requires i < |b.reservations| && b.reservations[i].tenant == tenant && b.reservations[i].key == key
    ensures var row := b.reservations[i];
            var matches := !row.released && row.gpus == gpus && row.gpuHours == hours;
            && ReleaseOf(b, tenant, gpus, hours, key).Ok?
            && var b' := ReleaseOf(b, tenant, gpus, hours, key).value;
               && (!matches ==> b' == b)
               && (matches ==>
                     && tenant in b.ledgers
                     && var l := b.ledgers[tenant];
                        && b'.reservations == b.reservations[i := Reservation(tenant, key, gpus, hours, true)]
                        && b'.ledgers == b.ledgers[tenant :=
                             Ledger(l.limits, l.usedGpus - gpus, l.usedGpuHours - hours, l.activeJobs - 1)])
  {
    hide Find, Balanced, RowOk;
    var found := Find(b.reservations, tenant, key);
    assert found == Some(i);
    if Releasable(b, tenant, gpus, hours, key).Some? {
      ClampNeverFires(b, tenant, gpus, hours, key);
    }
  }

  /** A reservation that is granted and then released leaves every ledger as it was. */
  lemma ReleaseUndoesReserve(b: Books, tenant: string, gpus: int, hours: real, key: string)
    requires Conserved(b) && gpus >= 0 && hours >= 0.0 && key != ""
    requires forall r :: r in b.reservations ==> r.tenant != tenant || r.key != key
    requires ReserveOf(b, tenant, gpus, hours, key).Ok? && ReserveOf(b, tenant, gpus, hours, key).value.1
    ensures var granted := ReserveOf(b, tenant, gpus, hours, key).value.0;
            && ReleaseOf(granted, tenant, gpus, hours, key).Ok?
            && ReleaseOf(granted, tenant, gpus, hours, key).value.ledgers == b.ledgers
  {
    hide ReserveOf, ReleaseOf, Conserved;
    ReserveRaises(b, tenant, gpus, hours, key);
    ReserveConserves(b, tenant, gpus, hours, key);
    var granted := ReserveOf(b, tenant, gpus, hours, key).value.0;
    ReleaseLowers(granted, tenant, gpus, hours, key, |b.reservations|);
  }

  /** New limits are accepted exactly when none is negative and they cover what is in use, and usage stays as it is. */
  lemma ConfigureLimits(b: Books, tenant: string, limits: Limits)
    ensures var answer := ConfigureOf(b, tenant, limits);
            && (answer.Ok? <==>
                  && limits.maxGpus >= 0 && limits.maxGpuHours >= 0.0 && limits.maxJobs >= 0
                  && (tenant in b.ledgers ==>
                        && b.ledgers[tenant].usedGpus <= limits.maxGpus
                        && b.ledgers[tenant].usedGpuHours <= limits.maxGpuHours
                        && b.ledgers[tenant].activeJobs <= limits.maxJobs))
            && (answer.Ok? ==>
                  && answer.value.reservations == b.reservations
                  && answer.value.ledgers.Keys == b.ledgers.Keys + {tenant}
                  && answer.value.ledgers[tenant].limits == limits
                  && (tenant in b.ledgers ==>
                        answer.value.ledgers[tenant] == b.ledgers[tenant].(limits := limits))
                  && forall t :: t in b.ledgers && t != tenant ==> answer.value.ledgers[t] == b.ledgers[t])
  {
  }

  // ----- runs -----

  datatype Event =
    | ConfigureStep(tenant: string, limits: Limits)
    | ReserveStep(tenant: string, gpus: int, hours: real, key: string)
    | ReleaseStep(tenant: string, gpus: int, hours: real, key: string)

  const Empty := Books(map[], [])

  ghost function Next(b: Books, e: Event): Books {
    match e
    case ConfigureStep(tenant, limits) =>
      var r := ConfigureOf(b, tenant, limits); if r.Ok? then r.value else b
    case ReserveStep(tenant, gpus, hours, key) =>
      var r := ReserveOf(b, tenant, gpus, hours, key); if r.Ok? then r.value.0 else b
    case ReleaseStep(tenant, gpus, hours, key) =>
      var r := ReleaseOf(b, tenant, gpus, hours, key); if r.Ok? then r.value else b
  }

  ghost function After(b: Books, events: seq<Event>): Books {
    if |events| == 0 then b else Next(After(b, events[..|events| - 1]), events[|events| - 1])
  }

  /** Under every mix of configure, reserve and release, usage equals what unreleased reservations hold. */
  lemma {:induction false} AlwaysConserved(events: seq<Event>)
    ensures Conserved(After(Empty, events))
  {
    hide Conserved, ConfigureOf, ReserveOf, ReleaseOf;
    if |events| == 0 {
      EmptyConserved();
    } else {
      var b, e := After(Empty, events[..|events| - 1]), events[|events| - 1];
      AlwaysConserved(events[..|events| - 1]);
      match e
      case ConfigureStep(tenant, limits) => ConfigureConserves(b, tenant, limits);
      case ReserveStep(tenant, gpus, hours, key) => ReserveConserves(b, tenant, gpus, hours, key);
      case ReleaseStep(tenant, gpus, hours, key) => ReleaseConserves(b, tenant, gpus, hours, key);
    }
  }

  lemma EmptyConserved()
    ensures Conserved(Empty)
  {
  }

  // ----- repeated calls -----

  /** A reservation row is never dropped, and a released row stays released. */
  ghost predicate Remembers(b: Books, tenant: string, key: string, gpus: int, hours: real, released: bool) {
    var i := Find(b.reservations, tenant, key);
    && i.Some?
    && b.reservations[i.value].gpus == gpus && b.reservations[i.value].gpuHours == hours
    && (released ==> b.reservations[i.value].released)
  }

  lemma {:induction false} FindAppend(rs: seq<Reservation>, r: Reservation, tenant: string, key: string)
    requires r.tenant != tenant || r.key != key
    ensures Find(rs + [r], tenant, key) == Find(rs, tenant, key)
  {
    assert (rs + [r])[..|rs|] == rs;
  }

  lemma {:induction false} FindUpdate(rs: seq<Reservation>, i: nat, tenant: string, key: string)
    requires i < |rs|
    ensures Find(rs[i := rs[i].(released := true)], tenant, key) == Find(rs, tenant, key)
  {
    var m := |rs| - 1;
    if i == m {
      assert rs[i := rs[i].(released := true)][..m] == rs[..m];
    } else {
      FindUpdate(rs[..m], i, tenant, key);
      assert rs[i := rs[i].(released := true)][..m] == rs[..m][i := rs[i].(released := true)];
    }
  }

  lemma StepRemembers(b: Books, e: Event, tenant: string, key: string, gpus: int, hours: real, released: bool)
    requires Remembers(b, tenant, key, gpus, hours, released)
    ensures Remembers(Next(b, e), tenant, key, gpus, hours, released)
  {
    if e.ReserveStep? && Next(b, e) != b {
      FindAppend(b.reservations, Reservation(e.tenant, e.key, e.gpus, e.hours, false), tenant, key);
    }
    if e.ReleaseStep? && Next(b, e) != b {
      FindUpdate(b.reservations, Releasable(b, e.tenant, e.gpus, e.hours, e.key).value, tenant, key);
    }
  }

  lemma {:induction false} AlwaysRemembers(
    b: Books, events: seq<Event>, tenant: string, key: string, gpus: int, hours: real, released: bool)
    requires Remembers(b, tenant, key, gpus, hours, released)
    ensures Remembers(After(b, events), tenant, key, gpus, hours, released)
  {
    hide Remembers, Next;
    if |events| == 0 {
    } else {
      AlwaysRemembers(b, events[..|events| - 1], tenant, key, gpus, hours, released);
      StepRemembers(After(b, events[..|events| - 1]), events[|events| - 1], tenant, key, gpus, hours, released);
    }
  }

  lemma GrantRemembers(b: Books, tenant: string, gpus: int, hours: real, key: string)
    requires var r := ReserveOf(b, tenant, gpus, hours, key); r.Ok? && r.value.1
    ensures Remembers(ReserveOf(b, tenant, gpus, hours, key).value.0, tenant, key, gpus, hours, false)
  {
    var r := ReserveOf(b, tenant, gpus, hours, key).value.0;
    if Find(b.reservations, tenant, key).None? {
      assert Find(r.reservations, tenant, key) == Some(|b.reservations|);
    }
  }

  lemma RepeatIsInert(b: Books, tenant: string, gpus: int, hours: real, key: string)
    requires Remembers(b, tenant, key, gpus, hours, false)
    ensures Next(b, ReserveStep(tenant, gpus, hours, key)) == b
  {
    hide Find;
  }

  /** However much happens in between, reserving the same key again changes nothing. */
  lemma ReserveOnce(b: Books, tenant: string, gpus: int, hours: real, key: string, events: seq<Event>)
    requires var r := ReserveOf(b, tenant, gpus, hours, key); r.Ok? && r.value.1
    ensures var b' := After(ReserveOf(b, tenant, gpus, hours, key).value.0, events);
            Next(b', ReserveStep(tenant, gpus, hours, key)) == b'
  {
    hide After, Remembers, ReserveOf, Next;
    var r := ReserveOf(b, tenant, gpus, hours, key).value.0;
    GrantRemembers(b, tenant, gpus, hours, key);
    AlwaysRemembers(r, events, tenant, key, gpus, hours, false);
    RepeatIsInert(After(r, events), tenant, gpus, hours, key);
  }

  /** Releasing the same key again, at any later time, changes nothing. */
  lemma ReleaseOnce(b: Books, tenant: string, gpus: int, hours: real, key: string, events: seq<Event>)
    requires key != "" && Releasable(b, tenant, gpus, hours, key).Some?
    ensures var b' := After(ReleaseOf(b, tenant, gpus, hours, key).value, events);
            Next(b', ReleaseStep(tenant, gpus, hours, key)) == b'
  {
    hide After;
    var b1 := ReleaseOf(b, tenant, gpus, hours, key).value;
    FindUpdate(b.reservations, Releasable(b, tenant, gpus, hours, key).value, tenant, key);
    assert Remembers(b1, tenant, key, gpus, hours, true);
    AlwaysRemembers(b1, events, tenant, key, gpus, hours, true);
  }
}
