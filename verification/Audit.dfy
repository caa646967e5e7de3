/** The hash-chained audit log of packages/observability/audit.py, in memory and persistent. The digest is a
    parameter; theorems about tampering assume it has no collisions. */
module Audit {
  datatype Entry = Entry(
    timestamp: int, actor: string, tenant: string, action: string, resource: string, outcome: string,
    correlation: string)

  datatype Record = Record(entry: Entry, previousHash: string, recordHash: string)

  type Digest = (Entry, string) -> string

  const Genesis := "GENESIS"

  /** No collisions, and never the text that starts a chain. */
  ghost predicate Ideal(h: Digest) {
    && (forall a, p :: h(a, p) != Genesis)
    && (forall a, p, b, q :: h(a, p) == h(b, q) ==> a == b && p == q)
  }

  function LastHash(records: seq<Record>): string {
    if |records| == 0 then Genesis else records[|records| - 1].recordHash
  }

  predicate Links(h: Digest, records: seq<Record>, i: nat)
    requires i < |records|
  {
    records[i].previousHash == LastHash(records[..i])
    && records[i].recordHash == h(records[i].entry, records[i].previousHash)
  }

  /** Every record points at the one before it and seals its own contents. */
  ghost predicate Chained(h: Digest, records: seq<Record>) {
    forall i: nat :: i < |records| ==> Links(h, records, i)
  }

  function Sealed(h: Digest, previous: string, e: Entry): Record {
    Record(e, previous, h(e, previous))
  }

  function RecordsOf(records: seq<Record>, tenant: string): seq<Record> {
    if |records| == 0 then []
    else RecordsOf(records[..|records| - 1], tenant)
         + if records[|records| - 1].entry.tenant == tenant then [records[|records| - 1]] else []
  }

  /** Walks the chain from its start, recomputing each digest. */
  method VerifyChain(h: Digest, records: seq<Record>) returns (ok: bool)
    ensures ok <==> Chained(h, records)
  {
    var previous := Genesis;
    for i := 0 to |records|
      invariant previous == LastHash(records[..i])
      invariant forall j: nat :: j < i ==> Links(h, records, j)
    {
      var record := records[i];
      if record.previousHash != previous {
        assert !Links(h, records, i);
        return false;
      }
      if h(record.entry, record.previousHash) != record.recordHash {
        assert !Links(h, records, i);
        return false;
      }
      previous := record.recordHash;
      assert records[..i + 1][i] == record;
    }
    return true;
  }

  class AuditLog {
    const hash: Digest
    var records: seq<Record>

    constructor (hash: Digest)
      ensures this.hash == hash && records == []
    {
      this.hash, records := hash, [];
    }

    /** A chained log stays chained. */
    method Append(e: Entry) returns (record: Record)
      modifies this
      ensures records == old(records) + [record]
      ensures record == Sealed(hash, LastHash(old(records)), e)
      ensures record.entry == e
      ensures Chained(hash, old(records)) ==> Chained(hash, records)
    {
      var previous := if |records| > 0 then records[|records| - 1].recordHash else Genesis;
      record := Record(e, previous, hash(e, previous));
      if Chained(hash, records) {
        AppendChained(hash, records, e);
      }
      records := records + [record];
    }

    method Verify() returns (ok: bool)
      ensures ok <==> Chained(hash, records)
    {
      ok := VerifyChain(hash, records);
    }

    method ListRecords(tenant: string) returns (own: seq<Record>)
      ensures own == RecordsOf(records, tenant)
      ensures forall r :: r in own <==> r in records && r.entry.tenant == tenant
    {
      own := [];
      for i := 0 to |records|
        invariant own == RecordsOf(records[..i], tenant)
        invariant forall r :: r in own <==> r in records[..i] && r.entry.tenant == tenant
      {
        if records[i].entry.tenant == tenant {
          own := own + [records[i]];
        }
        assert records[..i + 1][..i] == records[..i];
        assert records[..i + 1] == records[..i] + [records[i]];
      }
      assert records[..|records|] == records;
    }

    /** On a log that is itself intact, true exactly when the tenant's records are the first of the log. */
    method VerifyTenant(tenant: string) returns (ok: bool)
      ensures ok <==> Chained(hash, RecordsOf(records, tenant))
      ensures Ideal(hash) && Chained(hash, records) ==> (ok <==> RecordsOf(records, tenant) <= records)
    {
      var own := ListRecords(tenant);
      ok := VerifyChain(hash, own);
      if Ideal(hash) && Chained(hash, records) {
        TenantChainIff(hash, records, tenant);
      }
    }
  }

  // ----- appending and tampering -----

  lemma AppendChained(h: Digest, records: seq<Record>, e: Entry)
    requires Chained(h, records)
    ensures Chained(h, records + [Sealed(h, LastHash(records), e)])
  {
    var records' := records + [Sealed(h, LastHash(records), e)];
    forall i: nat | i < |records'|
      ensures Links(h, records', i)
    {
      if i < |records| {
        assert Links(h, records, i);
        assert records'[..i] == records[..i];
      } else {
        assert records'[..i] == records;
      }
    }
  }

  lemma PrefixChained(h: Digest, records: seq<Record>, n: nat)
    requires Chained(h, records) && n <= |records|
    ensures Chained(h, records[..n])
  {
    forall i: nat | i < n
      ensures Links(h, records[..n], i)
    {
      assert Links(h, records, i);
      assert records[..n][..i] == records[..i];
    }
  }

  /** The entries of a run of appends. */
  ghost function After(h: Digest, entries: seq<Entry>): seq<Record> {
    if |entries| == 0 then []
    else
      var records := After(h, entries[..|entries| - 1]);
      records + [Sealed(h, LastHash(records), entries[|entries| - 1])]
  }

  /** After any appends the log verifies, and it holds the entries appended, in order. */
  lemma {:induction false} AlwaysChained(h: Digest, entries: seq<Entry>)
    ensures Chained(h, After(h, entries))
    ensures |After(h, entries)| == |entries|
    ensures forall i :: 0 <= i < |entries| ==> After(h, entries)[i].entry == entries[i]
  {
    if |entries| == 0 {
    } else {
      AlwaysChained(h, entries[..|entries| - 1]);
      AppendChained(h, After(h, entries[..|entries| - 1]), entries[|entries| - 1]);
    }
  }

  /** Two verified logs with the same last digest are the same log: nothing can be changed, removed, inserted or
      reordered without changing the last digest or failing verification. */
  lemma {:induction false} LastHashPinsLog(h: Digest, a: seq<Record>, b: seq<Record>)
    requires Ideal(h) && Chained(h, a) && Chained(h, b) && LastHash(a) == LastHash(b)
    ensures a == b
    decreases |a|
  {
    if |a| == 0 || |b| == 0 {
      EmptyIffGenesis(h, a);
      EmptyIffGenesis(h, b);
    } else {
      var m, n := |a| - 1, |b| - 1;
      assert Links(h, a, m) && Links(h, b, n);
      assert a[m] == b[n];
      PrefixChained(h, a, m);
      PrefixChained(h, b, n);
      LastHashPinsLog(h, a[..m], b[..n]);
      assert a == a[..m] + [a[m]] && b == b[..n] + [b[n]];
    }
  }

  lemma EmptyIffGenesis(h: Digest, a: seq<Record>)
    requires Ideal(h) && Chained(h, a)
    ensures LastHash(a) == Genesis <==> a == []
  {
    if |a| > 0 {
      assert Links(h, a, |a| - 1);
    }
  }

  // ----- one tenant's records -----

  lemma {:induction false} LastOfTenant(records: seq<Record>, tenant: string) returns (k: nat)
    requires RecordsOf(records, tenant) != []
    ensures k < |records| && LastHash(RecordsOf(records, tenant)) == LastHash(records[..k + 1])
  {
    var m := |records| - 1;
    if records[m].entry.tenant == tenant {
      k := m;
    } else {
      assert RecordsOf(records, tenant) == RecordsOf(records[..m], tenant);
      k := LastOfTenant(records[..m], tenant);
      assert records[..m][..k + 1] == records[..k + 1];
    }
  }

  /** In memory there is one chain for all tenants, so a tenant's own records form a chain exactly when they are
      the first records of the log. */
  lemma TenantChainIff(h: Digest, records: seq<Record>, tenant: string)
    requires Ideal(h) && Chained(h, records)
    ensures Chained(h, RecordsOf(records, tenant)) <==> RecordsOf(records, tenant) <= records
  {
    hide Ideal;
    var own := RecordsOf(records, tenant);
    if own <= records {
      PrefixChained(h, records, |own|);
      assert records[..|own|] == own;
    } else if own != [] {
      if Chained(h, own) {
        var k := LastOfTenant(records, tenant);
        PrefixChained(h, records, k + 1);
        LastHashPinsLog(h, own, records[..k + 1]);
        assert false;
      }
    }
  }

  // ----- the persistent log -----

  /** Persistent appends link to the tenant's own last record. */
  ghost function Persisted(h: Digest, entries: seq<Entry>): seq<Record> {
    if |entries| == 0 then []
    else
      var records, e := Persisted(h, entries[..|entries| - 1]), entries[|entries| - 1];
      records + [Sealed(h, LastHash(RecordsOf(records, e.tenant)), e)]
  }

  lemma RecordsOfAppend(records: seq<Record>, r: Record, tenant: string)
    ensures RecordsOf(records + [r], tenant)
            == RecordsOf(records, tenant) + if r.entry.tenant == tenant then [r] else []
  {
    assert (records + [r])[..|records|] == records;
  }

  /** In the persistent log every tenant's records always verify, however tenants' appends interleave. */
  lemma {:induction false} TenantsAlwaysChained(h: Digest, entries: seq<Entry>, tenant: string)
    ensures Chained(h, RecordsOf(Persisted(h, entries), tenant))
  {
    if |entries| == 0 {
    } else {
      var front, e := entries[..|entries| - 1], entries[|entries| - 1];
      var records := Persisted(h, front);
      TenantsAlwaysChained(h, front, tenant);
      var r := Sealed(h, LastHash(RecordsOf(records, e.tenant)), e);
      RecordsOfAppend(records, r, tenant);
      if e.tenant == tenant {
        AppendChained(h, RecordsOf(records, tenant), e);
      } else {
        assert RecordsOf(records + [r], tenant) == RecordsOf(records, tenant);
      }
    }
  }
}
