/** The versioned resource store of apps/api/store.py, held in memory: optimistic concurrency, immutable versions
    and idempotent writes. A digest stands for the value it is taken of. */
module Store {
  import opened Sequences
  import opened Sorting
  import opened Wrappers

  type Body = map<string, string>

  datatype Etag = Etag(tenant: string, kind: string, version: int, body: Body)

  datatype Key = Key(tenant: string, kind: string, id: string)

  datatype Resource = Resource(key: Key, version: int, etag: Etag, body: Body)

  datatype Fingerprint = Fingerprint(kind: string, id: string, body: Body)

  datatype Replay = Replay(fingerprint: Fingerprint, resource: Resource)

  datatype State = State(
    items: map<Key, Resource>,
    versions: map<(Key, int), Resource>,
    idempotency: map<(string, string), Replay>)

  datatype Write = Write(key: Key, body: Body, token: string, ifMatch: Option<Etag>)

  datatype Error = KeyReused | Conflict | NotFound

  // ----- one write -----

  function FingerprintOf(w: Write): Fingerprint {
    Fingerprint(w.key.kind, w.key.id, w.body)
  }

  function Stored(w: Write, version: int): Resource {
    var body := w.body["id" := w.key.id];
    Resource(w.key, version, Etag(w.key.tenant, w.key.kind, version, body), body)
  }

  function VersionOf(s: State, key: Key): int {
    if key in s.items then s.items[key].version else 0
  }

  predicate Replays(s: State, w: Write) {
    (w.key.tenant, w.token) in s.idempotency
  }

  /** The stored resource and the state that follow, or the error raised. */
  function PutOf(s: State, w: Write): Result<(State, Resource), Error> {
    var token := (w.key.tenant, w.token);
    if token in s.idempotency then
      if s.idempotency[token].fingerprint != FingerprintOf(w) then Err(KeyReused)
      else Ok((s, s.idempotency[token].resource))
    else if w.key in s.items && w.ifMatch != Some(s.items[w.key].etag) then Err(Conflict)
    else
      var version := VersionOf(s, w.key) + 1;
      var resource := Stored(w, version);
      Ok((State(
            s.items[w.key := resource],
            s.versions[(w.key, version) := resource],
            s.idempotency[token := Replay(FingerprintOf(w), resource)]), resource))
  }

  // ----- the store object -----

  class ResourceStore {
    var items: map<Key, Resource>
    var versions: map<(Key, int), Resource>
    var idempotency: map<(string, string), Replay>

    function Contents(): State
      reads this
    {
      State(items, versions, idempotency)
    }

    constructor ()
      ensures Contents() == Empty
    {
      items, versions, idempotency := map[], map[], map[];
    }

    method Put(w: Write) returns (answer: Result<Resource, Error>)
      modifies this
      ensures var o := PutOf(old(Contents()), w);
              if o.Ok? then answer == Ok(o.value.1) && Contents() == o.value.0
              else answer == Err(o.error) && Contents() == old(Contents())
    {
      var token := (w.key.tenant, w.token);
      if token in idempotency {
        var replay := idempotency[token];
        if FingerprintOf(w) != replay.fingerprint {
          return Err(KeyReused);
        }
        return Ok(replay.resource);
      }
      if w.key in items && w.ifMatch != Some(items[w.key].etag) {
        return Err(Conflict);
      }
      var version := if w.key in items then items[w.key].version + 1 else 1;
      var resource := Stored(w, version);
      items := items[w.key := resource];
      versions := versions[(w.key, version) := resource];
      idempotency := idempotency[token := Replay(FingerprintOf(w), resource)];
      return Ok(resource);
    }

    method Get(key: Key) returns (answer: Result<Resource, Error>)
      ensures Versioned(Contents()) ==>
                match answer
                case Ok(r) => r.key == key && r.version >= 1
                              && (key, r.version) in versions && versions[(key, r.version)] == r
                              && (key, r.version + 1) !in versions
                case Err(e) => e == NotFound && forall v :: (key, v) !in versions
    {
      if Versioned(Contents()) {
        VersionRange(Contents(), key);
      }
      return if key in items then Ok(items[key]) else Err(NotFound);
    }

    /** Every version of the resource, oldest first: exactly 1, 2, ..., the current one, which is last. */
    method History(key: Key) returns (history: seq<Resource>)
      ensures Versioned(Contents()) ==>
                && |history| == VersionOf(Contents(), key)
                && (forall i :: 0 <= i < |history| ==> (key, i + 1) in versions && history[i] == versions[(key, i + 1)])
                && (key in items ==> history[|history| - 1] == items[key])
    {
      var numbers := set k | k in versions && k.0 == key :: k.1;
      assert forall v :: v in numbers <==> (key, v) in versions;
      var sorted := SortedSet(numbers);
      history := [];
      for i := 0 to |sorted|
        invariant |history| == i
        invariant forall j :: 0 <= j < i ==> (key, sorted[j]) in versions && history[j] == versions[(key, sorted[j])]
      {
        assert sorted[i] in Members(sorted);
        history := history + [versions[(key, sorted[i])]];
      }
      if Versioned(Contents()) {
        VersionRange(Contents(), key);
        RangeSorted(sorted, VersionOf(Contents(), key));
      }
    }
  }

  /** The sorted members of 1..n are 1, 2, ..., n. */
  lemma {:induction false} RangeSorted(sorted: seq<int>, n: nat)
    requires Increasing(sorted) && forall v :: v in Members(sorted) <==> 1 <= v <= n
    ensures |sorted| == n && forall i :: 0 <= i < n ==> sorted[i] == i + 1
  {
    hide Members;
    var first := EmptyOrFirst(sorted, 0);
    MembersHas(sorted);
    if n == 0 {
      assert first !in Members(sorted);
    } else {
      assert n in Members(sorted);
      NoMembers<int>();
      var front, last := sorted[..|sorted| - 1], sorted[|sorted| - 1];
      MembersAppend(front, last);
      assert front + [last] == sorted;
      forall v
        ensures v in Members(front) ==> v < last
      {
        MemberBelow(front, v, last);
      }
      assert last in Members(sorted);
      RangeSorted(front, n - 1);
    }
  }

  lemma MemberBelow(s: seq<int>, v: int, bound: int)
    requires forall i :: 0 <= i < |s| ==> s[i] < bound
    ensures v in Members(s) ==> v < bound
  {
  }

  // ----- versions -----

  ghost predicate WellVersioned(s: State, key: Key, v: int) {
    (key, v) in s.versions <==> 1 <= v <= VersionOf(s, key)
  }

  ghost predicate Labelled(r: Resource, key: Key, v: int) {
    r.key == key && r.version == v && r.etag == Etag(key.tenant, key.kind, v, r.body)
  }

  /** Stored versions are exactly 1..n, each under its own number and tag, and the current resource is the last. */
  ghost predicate Versioned(s: State) {
    && (forall key, v :: WellVersioned(s, key, v))
    && (forall k :: k in s.versions ==> Labelled(s.versions[k], k.0, k.1))
    && (forall key :: key in s.items ==>
          s.items[key].version >= 1 && (key, s.items[key].version) in s.versions
          && s.versions[(key, s.items[key].version)] == s.items[key])
    && (forall token :: token in s.idempotency ==>
          Recorded(s, token, s.idempotency[token]))
  }

  /** A remembered write still shows in the versions. */
  ghost predicate Recorded(s: State, token: (string, string), replay: Replay) {
    var r := replay.resource;
    && r.key.tenant == token.0 && replay.fingerprint.kind == r.key.kind && replay.fingerprint.id == r.key.id
    && r.body == replay.fingerprint.body["id" := r.key.id]
    && (r.key, r.version) in s.versions && s.versions[(r.key, r.version)] == r
  }

  lemma VersionRange(s: State, key: Key)
    requires Versioned(s)
    ensures VersionOf(s, key) >= 0 && forall v :: (key, v) in s.versions <==> 1 <= v <= VersionOf(s, key)
  {
    forall v
      ensures (key, v) in s.versions <==> 1 <= v <= VersionOf(s, key)
    {
      assert WellVersioned(s, key, v);
    }
  }

  const Empty := State(map[], map[], map[])

  ghost function Next(s: State, w: Write): State {
    var o := PutOf(s, w);
    if o.Ok? then o.value.0 else s
  }

  ghost function After(s: State, writes: seq<Write>): State {
    if |writes| == 0 then s else Next(After(s, writes[..|writes| - 1]), writes[|writes| - 1])
  }

  /** The write added a version. */
  ghost predicate Adds(s: State, w: Write) {
    !Replays(s, w) && PutOf(s, w).Ok?
  }

  lemma PutNumbers(s: State, w: Write, key: Key, v: int)
    requires Versioned(s) && Adds(s, w)
    ensures WellVersioned(Next(s, w), key, v)
  {
    assert WellVersioned(s, key, v) && WellVersioned(s, w.key, VersionOf(s, w.key) + 1);
    VersionRange(s, w.key);
  }

  lemma PutLabels(s: State, w: Write)
    requires Versioned(s) && Adds(s, w)
    ensures var s' := Next(s, w);
            && (forall k :: k in s'.versions ==> Labelled(s'.versions[k], k.0, k.1))
            && (forall key :: key in s'.items ==>
                  s'.items[key].version >= 1 && (key, s'.items[key].version) in s'.versions
                  && s'.versions[(key, s'.items[key].version)] == s'.items[key])
  {
    VersionRange(s, w.key);
  }

  lemma PutRecords(s: State, w: Write, token: (string, string))
    requires Versioned(s) && Adds(s, w) && token in Next(s, w).idempotency
    ensures Recorded(Next(s, w), token, Next(s, w).idempotency[token])
  {
    VersionRange(s, w.key);
    if token in s.idempotency {
      assert Recorded(s, token, s.idempotency[token]);
    }
  }

  lemma PutVersioned(s: State, w: Write)
    requires Versioned(s)
    ensures Versioned(Next(s, w))
  {
    hide PutOf, WellVersioned, Labelled, Recorded;
    if Adds(s, w) {
      forall key, v
        ensures WellVersioned(Next(s, w), key, v)
      {
        PutNumbers(s, w, key, v);
      }
      PutLabels(s, w);
      forall token | token in Next(s, w).idempotency
        ensures Recorded(Next(s, w), token, Next(s, w).idempotency[token])
      {
        PutRecords(s, w, token);
      }
    } else {
      NothingAdded(s, w);
    }
  }

  lemma NothingAdded(s: State, w: Write)
    requires !Adds(s, w)
    ensures Next(s, w) == s
  {
  }

  lemma {:induction false} AlwaysVersioned(writes: seq<Write>)
    ensures Versioned(After(Empty, writes))
  {
    hide Versioned, Next;
    if |writes| == 0 {
      EmptyVersioned();
    } else {
      AlwaysVersioned(writes[..|writes| - 1]);
      PutVersioned(After(Empty, writes[..|writes| - 1]), writes[|writes| - 1]);
    }
  }

  lemma EmptyVersioned()
    ensures Versioned(Empty)
  {
  }

  lemma StepKeeps(s: State, w: Write)
    requires Versioned(s)
    ensures forall k :: k in s.versions ==> k in Next(s, w).versions && Next(s, w).versions[k] == s.versions[k]
    ensures forall t :: t in s.idempotency ==>
              t in Next(s, w).idempotency && Next(s, w).idempotency[t] == s.idempotency[t]
    ensures forall key :: VersionOf(s, key) <= VersionOf(Next(s, w), key)
  {
    assert WellVersioned(s, w.key, VersionOf(s, w.key) + 1);
  }

  /** Once written a version is never changed, a remembered write is never forgotten, and versions only grow. */
  lemma {:induction false} AfterKeeps(s: State, writes: seq<Write>)
    requires Versioned(s)
    ensures Versioned(After(s, writes))
    ensures forall k :: k in s.versions ==>
              k in After(s, writes).versions && After(s, writes).versions[k] == s.versions[k]
    ensures forall t :: t in s.idempotency ==>
              t in After(s, writes).idempotency && After(s, writes).idempotency[t] == s.idempotency[t]
    ensures forall key :: VersionOf(s, key) <= VersionOf(After(s, writes), key)
  {
    hide Versioned, Next, VersionOf;
    if |writes| == 0 {
    } else {
      var s' := After(s, writes[..|writes| - 1]);
      AfterKeeps(s, writes[..|writes| - 1]);
      PutVersioned(s', writes[|writes| - 1]);
      StepKeeps(s', writes[|writes| - 1]);
      forall key
        ensures VersionOf(s, key) <= VersionOf(After(s, writes), key)
      {
        assert VersionOf(s, key) <= VersionOf(s', key);
      }
    }
  }

  /** However many writes come between, sending a write again, with any tag, answers the resource it stored the
      first time and changes nothing; the same token with another request is refused. */
  lemma ReplayAnswers(s: State, w: Write, writes: seq<Write>, again: Write)
    requires Versioned(s) && Adds(s, w) && again.key.tenant == w.key.tenant && again.token == w.token
    ensures var s' := After(Next(s, w), writes);
            if FingerprintOf(again) == FingerprintOf(w) then PutOf(s', again) == Ok((s', PutOf(s, w).value.1))
            else PutOf(s', again) == Err(KeyReused)
  {
    hide Versioned;
    PutVersioned(s, w);
    AfterKeeps(Next(s, w), writes);
    assert (w.key.tenant, w.token) in Next(s, w).idempotency;
  }

  /** After a write based on a tag has gone through, no other write based on that tag ever does. */
  lemma TagSpent(s: State, w: Write, writes: seq<Write>, other: Write)
    requires Versioned(s) && w.key in s.items && Adds(s, w)
    requires other.key == w.key && other.ifMatch == w.ifMatch
    ensures !Adds(After(Next(s, w), writes), other)
  {
    var s1 := Next(s, w);
    PutVersioned(s, w);
    AfterKeeps(s1, writes);
    var s2 := After(s1, writes);
    TagVersion(s, w.key);
    TagVersion(s2, w.key);
    assert VersionOf(s1, w.key) <= VersionOf(s2, w.key);
  }

  lemma TagVersion(s: State, key: Key)
    requires Versioned(s)
    ensures VersionOf(s, key) >= 0
    ensures key in s.items ==> s.items[key].etag.version == VersionOf(s, key)
  {
    if key in s.items {
      assert Labelled(s.versions[(key, s.items[key].version)], key, s.items[key].version);
    }
  }

  /** A write with a new token is taken exactly when the resource is new or the tag given is the current one. Its body,
      with the id set, is then the next version, current at once and readable for good. */
  lemma WriteIsReadBack(s: State, w: Write, writes: seq<Write>)
    requires Versioned(s) && !Replays(s, w)
    ensures PutOf(s, w).Ok? <==> w.key !in s.items || w.ifMatch == Some(s.items[w.key].etag)
    ensures PutOf(s, w).Err? ==> PutOf(s, w).error == Conflict
    ensures PutOf(s, w).Ok? ==>
              var r, later := PutOf(s, w).value.1, After(Next(s, w), writes);
              && r.key == w.key && r.version == VersionOf(s, w.key) + 1
              && r.body.Keys == w.body.Keys + {"id"} && r.body["id"] == w.key.id
              && (forall name :: name in w.body && name != "id" ==> r.body[name] == w.body[name])
              && w.key in Next(s, w).items && Next(s, w).items[w.key] == r
              && (r.key, r.version) in later.versions && later.versions[(r.key, r.version)] == r
  {
    hide Versioned, After;
    PutVersioned(s, w);
    AfterKeeps(Next(s, w), writes);
  }

  lemma {:induction false} AfterSplit(s: State, a: seq<Write>, b: seq<Write>)
    ensures After(s, a + b) == After(After(s, a), b)
  {
    hide Next;
    if |b| == 0 {
      assert a + b == a;
    } else {
      AfterSplit(s, a, b[..|b| - 1]);
      assert (a + b)[..|a + b| - 1] == a + b[..|b| - 1];
    }
  }

  /** The write at position `i` of the run changed an existing resource. */
  ghost predicate UpdatesAt(writes: seq<Write>, i: nat)
    requires i < |writes|
  {
    var s := After(Empty, writes[..i]);
    writes[i].key in s.items && Adds(s, writes[i])
  }

  /** No lost update: in any interleaving at most one write made from a given version of a resource goes through. */
  lemma NoLostUpdate(writes: seq<Write>, i: nat, j: nat)
    requires i < j < |writes| && UpdatesAt(writes, i) && UpdatesAt(writes, j)
    requires writes[i].key == writes[j].key
    ensures writes[i].ifMatch != writes[j].ifMatch
  {
    hide Adds, Versioned, Next;
    var s := After(Empty, writes[..i]);
    AlwaysVersioned(writes[..i]);
    var between := writes[i + 1..j];
    assert writes[..i + 1][..i] == writes[..i];
    assert After(Empty, writes[..i + 1]) == Next(s, writes[i]);
    assert writes[..j] == writes[..i + 1] + between;
    AfterSplit(Empty, writes[..i + 1], between);
    if writes[i].ifMatch == writes[j].ifMatch {
      TagSpent(s, writes[i], between, writes[j]);
    }
  }

  // ----- tenants -----

  /** The two states hold the same for the tenant. */
  ghost predicate SameFor(s: State, t: State, tenant: string) {
    && (forall key: Key :: key.tenant == tenant ==> Agree(s.items, t.items, key))
    && (forall key: Key, v: int :: key.tenant == tenant ==> Agree(s.versions, t.versions, (key, v)))
    && (forall token: string :: Agree(s.idempotency, t.idempotency, (tenant, token)))
  }

  ghost predicate Agree<K, V>(m: map<K, V>, n: map<K, V>, k: K) {
    (k in m <==> k in n) && (k in m ==> m[k] == n[k])
  }

  lemma OtherTenant(s: State, w: Write, tenant: string)
    requires w.key.tenant != tenant
    ensures SameFor(Next(s, w), s, tenant)
  {
  }

  lemma SameTenant(s: State, t: State, w: Write)
    requires SameFor(s, t, w.key.tenant)
    ensures SameFor(Next(s, w), Next(t, w), w.key.tenant)
    ensures PutOf(s, w).Ok? == PutOf(t, w).Ok?
    ensures PutOf(s, w).Ok? ==> PutOf(s, w).value.1 == PutOf(t, w).value.1
    ensures PutOf(s, w).Err? ==> PutOf(s, w).error == PutOf(t, w).error
  {
    assert Agree(s.items, t.items, w.key);
    assert Agree(s.idempotency, t.idempotency, (w.key.tenant, w.token));
  }

  ghost function Only(writes: seq<Write>, tenant: string): seq<Write> {
    if |writes| == 0 then []
    else Only(writes[..|writes| - 1], tenant)
         + if writes[|writes| - 1].key.tenant == tenant then [writes[|writes| - 1]] else []
  }

  /** Isolation: a tenant's resources, versions and replays are what they would be had no other tenant ever written,
      and so is the answer to the tenant's next write. */
  lemma {:induction false} TenantsIsolated(writes: seq<Write>, tenant: string)
    ensures SameFor(After(Empty, writes), After(Empty, Only(writes, tenant)), tenant)
    decreases |writes|
  {
    hide SameFor, Next;
    if |writes| == 0 {
      SameSelf(Empty, tenant);
    } else {
      var front, w := writes[..|writes| - 1], writes[|writes| - 1];
      TenantsIsolated(front, tenant);
      var s, t := After(Empty, front), After(Empty, Only(front, tenant));
      if w.key.tenant == tenant {
        SameTenant(s, t, w);
        assert (Only(front, tenant) + [w])[..|Only(front, tenant)|] == Only(front, tenant);
      } else {
        OtherTenant(s, w, tenant);
        SameTransitive(Next(s, w), s, t, tenant);
        assert Only(writes, tenant) == Only(front, tenant);
      }
    }
  }

  lemma SameSelf(s: State, tenant: string)
    ensures SameFor(s, s, tenant)
  {
  }

  lemma SameTransitive(a: State, b: State, c: State, tenant: string)
    requires SameFor(a, b, tenant) && SameFor(b, c, tenant)
    ensures SameFor(a, c, tenant)
  {
    forall key: Key | key.tenant == tenant
      ensures Agree(a.items, c.items, key)
    {
      assert Agree(a.items, b.items, key) && Agree(b.items, c.items, key);
    }
    forall key: Key, v: int | key.tenant == tenant
      ensures Agree(a.versions, c.versions, (key, v))
    {
      assert Agree(a.versions, b.versions, (key, v)) && Agree(b.versions, c.versions, (key, v));
    }
    forall token: string
      ensures Agree(a.idempotency, c.idempotency, (tenant, token))
    {
      assert Agree(a.idempotency, b.idempotency, (tenant, token))
             && Agree(b.idempotency, c.idempotency, (tenant, token));
    }
  }

  /** The answer a tenant gets does not depend on other tenants' writes. */
  lemma AnswersIsolated(writes: seq<Write>, w: Write)
    ensures var o, p := PutOf(After(Empty, writes), w), PutOf(After(Empty, Only(writes, w.key.tenant)), w);
            if o.Ok? then p.Ok? && o.value.1 == p.value.1 else p.Err? && o.error == p.error
  {
    hide SameFor, After, Only, PutOf;
    TenantsIsolated(writes, w.key.tenant);
    SameTenant(After(Empty, writes), After(Empty, Only(writes, w.key.tenant)), w);
  }
}
