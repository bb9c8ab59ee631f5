/**
 The idempotency store over a table.  Rows have no order of their own: the database
 may break ties between equal timestamps as it likes, so eviction is specified by
 what it may keep.  Any outcome but a fresh reservation is rolled back.
 */
module SqlIdempotency {
  import opened Wrappers
  import opened GatewayTypes
  import opened Idempotency

  type Table = map<IdempotencyKey, Record>

  function Live(rows: Table, before: Time): Table {
    map k | k in rows && rows[k].createdAt > before :: rows[k]
  }

  function Found(rows: Table, k: IdempotencyKey): Option<Record> {
    if k in rows then Some(rows[k]) else None
  }

  /** `kept` is what an eviction to `maxEntries` may leave of `all`: enough rows, none older than a deleted one. */
  ghost predicate KeepsNewest(all: Table, kept: Table, maxEntries: nat) {
    && (forall k :: k in kept ==> k in all && kept[k] == all[k])
    && |kept| == (if |all| > maxEntries then maxEntries else |all|)
    && forall r, k :: r in all && r !in kept && k in kept ==> all[r].createdAt <= all[k].createdAt
  }

  ghost predicate IsOldest(rows: Table, k: IdempotencyKey) {
    k in rows && forall j :: j in rows ==> rows[k].createdAt <= rows[j].createdAt
  }

  lemma {:induction false} OldestExists(rows: Table) returns (k: IdempotencyKey)
    requires |rows| > 0
    ensures IsOldest(rows, k)
    decreases |rows|
  {
    var any :| any in rows;
    var rest := rows - {any};
    assert rest.Keys == rows.Keys - {any};
    assert forall j :: j in rows ==> j == any || j in rest;
    if |rest| == 0 {
      k := any;
    } else {
      k := OldestExists(rest);
      if rows[any].createdAt < rows[k].createdAt {
        k := any;
      }
    }
  }

  class SqlIdempotencyStore {
    const ttl: int
    const maxEntries: nat
    var rows: Table

    constructor (ttl: int, maxEntries: nat)
      ensures this.ttl == ttl && this.maxEntries == maxEntries && rows == map[]
    {
      this.ttl, this.maxEntries, rows := ttl, maxEntries, map[];
    }

    method Reserve(principalId: string, idempotencyKey: string, now: Time) returns (r: ReserveOutcome)
      modifies this
      ensures var k := IdempotencyKey(principalId, idempotencyKey);
        && r == Outcome(Found(Live(old(rows), now - ttl), k))
        && if r == Fresh then KeepsNewest(Live(old(rows), now - ttl)[k := Record(now, Reserved, None)], rows,
          maxEntries)
           else rows == old(rows)
    {
      var k := IdempotencyKey(principalId, idempotencyKey);
      var pending := Live(rows, now - ttl);
      if k in pending {
        if Terminal(pending[k].status) && pending[k].response.Some? {
          return Replay(pending[k].response.value);
        }
        return Duplicate;
      }
      pending := pending[k := Record(now, Reserved, None)];
      var count := |pending|;
      if count > maxEntries {
        pending := DeleteOldest(pending, count - maxEntries);
      }
      rows := pending;  // commit
      return Fresh;
    }

    method MarkRunning(principalId: string, idempotencyKey: string)
      modifies this
      ensures rows == RunningRows(old(rows), IdempotencyKey(principalId, idempotencyKey))
    {
      var k := IdempotencyKey(principalId, idempotencyKey);
      if k in rows {
        rows := rows[k := rows[k].(status := Running)];
      }
    }

    method Complete(principalId: string, idempotencyKey: string, response: Response, status: OperationStatus, now: Time)
      modifies this
      ensures rows == CompletedRows(old(rows), IdempotencyKey(principalId, idempotencyKey), response, status, now)
    {
      var k := IdempotencyKey(principalId, idempotencyKey);
      var row := if k in rows then rows[k] else Record(now, status, None);
      rows := rows[k := row.(status := status, response := Some(response))];
    }
  }

  function RunningRows(rows: Table, k: IdempotencyKey): Table {
    if k in rows then rows[k := rows[k].(status := Running)] else rows
  }

  function CompletedRows(
    rows: Table, k: IdempotencyKey, response: Response, status: OperationStatus, now: Time): Table {
    rows[k := Record(if k in rows then rows[k].createdAt else now, status, Some(response))]
  }

  /** Select the `overflow` oldest rows and delete them. */
  method DeleteOldest(rows: Table, overflow: nat) returns (kept: Table)
    requires overflow <= |rows|
    ensures KeepsNewest(rows, kept, |rows| - overflow)
  {
    kept := rows;
    for n := 0 to overflow
      invariant |kept| == |rows| - n
      invariant KeepsNewest(rows, kept, |rows| - n)
    {
      ghost var oldest := OldestExists(kept);
      var k :| k in kept && forall j :: j in kept ==> kept[k].createdAt <= kept[j].createdAt;
      var rest := kept - {k};
      assert rest.Keys == kept.Keys - {k};
      kept := rest;
    }
  }

  // ---- the two stores side by side

  ghost function TableOf(es: Entries): Table {
    if |es| == 0 then map[] else TableOf(es[..|es| - 1])[es[|es| - 1].key := es[|es| - 1].record]
  }

  lemma {:induction false} TableIsLookup(es: Entries, k: IdempotencyKey)
    ensures Found(TableOf(es), k) == Lookup(es, k)
  {
    if |es| > 0 {
      TableIsLookup(es[..|es| - 1], k);
    }
  }

  lemma OneMoreKey(rows: Table, rows': Table, k: IdempotencyKey)
    requires rows'.Keys == rows.Keys + {k} && k !in rows
    ensures |rows'| == |rows| + 1
  {
    assert |rows'| == |rows'.Keys| && |rows| == |rows.Keys|;
  }

  /** Appending an entry with a new key adds that key to the table. */
  lemma {:induction false} TableGrows(es: Entries)
    requires DistinctKeys(es) && |es| > 0
    ensures var front, e := es[..|es| - 1], es[|es| - 1];
      TableOf(es).Keys == TableOf(front).Keys + {e.key} && e.key !in TableOf(front)
  {
    var front, e := es[..|es| - 1], es[|es| - 1];
    TableIsLookup(front, e.key);
    LookupFinds(front, e.key);
  }

  lemma {:induction false} TableSize(es: Entries)
    requires DistinctKeys(es)
    ensures |TableOf(es)| == |es|
  {
    if |es| > 0 {
      TableSize(es[..|es| - 1]);
      TableGrows(es);
      OneMoreKey(TableOf(es[..|es| - 1]), TableOf(es), es[|es| - 1].key);
    }
  }

  lemma SameTable(a: Table, b: Table)
    requires forall k :: Found(a, k) == Found(b, k)
    ensures a == b
  {
    forall k
      ensures k in a <==> k in b
      ensures k in a ==> a[k] == b[k]
    {
      assert Found(a, k) == Found(b, k);
    }
  }

  /** The in-memory eviction loop keeps what the ordered delete may keep. */
  lemma MemoryKeepsNewest(es: Entries, maxEntries: nat)
    requires DistinctKeys(es)
    ensures KeepsNewest(TableOf(es), TableOf(Evict(es, maxEntries)), maxEntries)
  {
    var kept := Evict(es, maxEntries);
    EvictRemovesOldest(es, maxEntries);
    TableSize(es);
    TableSize(kept);
    forall k | k in TableOf(kept)
      ensures k in TableOf(es) && TableOf(kept)[k] == TableOf(es)[k]
    {
      LookupRemains(kept, es, k);
      TableIsLookup(kept, k);
      TableIsLookup(es, k);
    }
    forall r, k | r in TableOf(es) && r !in TableOf(kept) && k in TableOf(kept)
      ensures TableOf(es)[r].createdAt <= TableOf(es)[k].createdAt
    {
      TableIsLookup(es, r);
      TableIsLookup(kept, r);
      TableIsLookup(kept, k);
      LookupFinds(es, r);
      LookupFinds(kept, r);
      LookupFinds(kept, k);
      assert Entry(r, TableOf(es)[r]) in es && Entry(r, TableOf(es)[r]) !in kept;
      assert Entry(k, TableOf(kept)[k]) in kept;
    }
  }

  /** No deleted row is as recent as a kept one. */
  ghost predicate NoTieAtCut(all: Table, kept: Table) {
    forall r, k :: r in all && r !in kept && k in all && k in kept ==> all[r].createdAt < all[k].createdAt
  }

  /** A row missing from an equally large table was replaced by some other row. */
  lemma Replacement(kept: Table, other: Table, k: IdempotencyKey) returns (j: IdempotencyKey)
    requires |kept| == |other| && k in kept && k !in other
    ensures j in other && j !in kept
  {
    if other.Keys <= kept.Keys {
      SubsetSize(other.Keys, kept.Keys - {k});
    }
    j :| j in other && j !in kept;
  }

  lemma NoTieForcesSubset(all: Table, kept: Table, other: Table, maxEntries: nat)
    requires KeepsNewest(all, kept, maxEntries) && KeepsNewest(all, other, maxEntries) && NoTieAtCut(all, kept)
    ensures kept.Keys <= other.Keys
  {
    forall k | k in kept
      ensures k in other
    {
      if k !in other {
        // the row kept in its place would be both at least as recent and strictly older
        var j := Replacement(kept, other, k);
      }
    }
  }

  /** Swap one kept row for a deleted row of the same age. */
  ghost function Swapped(all: Table, kept: Table, r: IdempotencyKey, k: IdempotencyKey): Table
    requires r in all
  {
    (kept - {k})[r := all[r]]
  }

  lemma SwapKeepsNewest(all: Table, kept: Table, maxEntries: nat, r: IdempotencyKey, k: IdempotencyKey)
    requires KeepsNewest(all, kept, maxEntries)
    requires r in all && r !in kept && k in kept && all[r].createdAt == all[k].createdAt
    ensures KeepsNewest(all, Swapped(all, kept, r, k), maxEntries) && Swapped(all, kept, r, k) != kept
  {
    var other := Swapped(all, kept, r, k);
    assert other.Keys == kept.Keys - {k} + {r};
    forall a, b | a in all && a !in other && b in other
      ensures all[a].createdAt <= all[b].createdAt
    {
      var a', b' := if a == k then r else a, if b == r then k else b;
      assert a' in all && a' !in kept && b' in kept;
    }
  }

  /** The eviction has only one possible result exactly when the cut falls between different timestamps. */
  lemma EvictionDeterminedIff(all: Table, kept: Table, maxEntries: nat)
    requires KeepsNewest(all, kept, maxEntries)
    ensures (forall other :: KeepsNewest(all, other, maxEntries) ==> other == kept) <==> NoTieAtCut(all, kept)
  {
    if NoTieAtCut(all, kept) {
      forall other | KeepsNewest(all, other, maxEntries)
        ensures other == kept
      {
        NoTieForcesSubset(all, kept, other, maxEntries);
        forall k | k in other
          ensures k in kept
        {
          if k !in kept {
            SubsetSize(kept.Keys, other.Keys - {k});
          }
        }
        assert kept == other;
      }
    } else {
      var r, k :| r in all && r !in kept && k in kept && all[r].createdAt >= all[k].createdAt;
      SwapKeepsNewest(all, kept, maxEntries, r, k);
    }
  }

  ghost predicate DistinctTimes(rows: Table) {
    forall a, b :: a in rows && b in rows && a != b ==> rows[a].createdAt != rows[b].createdAt
  }

  lemma LiveTable(es: Entries, before: Time)
    requires DistinctKeys(es)
    ensures DistinctKeys(Expire(es, before))
    ensures Live(TableOf(es), before) == TableOf(Expire(es, before))
  {
    ExpireKeepsLive(es, before);
    forall k
      ensures Found(Live(TableOf(es), before), k) == Found(TableOf(Expire(es, before)), k)
    {
      LookupExpire(es, before, k);
      TableIsLookup(es, k);
      TableIsLookup(Expire(es, before), k);
    }
    SameTable(Live(TableOf(es), before), TableOf(Expire(es, before)));
  }

  /** Inserting a new record into the dictionary inserts the same row. */
  lemma PutTable(rows: Table, live: Entries, k: IdempotencyKey, r: Record)
    requires DistinctKeys(live) && rows == TableOf(live)
    ensures DistinctKeys(Put(live, k, r)) && rows[k := r] == TableOf(Put(live, k, r))
  {
    PutAt(live, k, r);
    forall k'
      ensures Found(rows[k := r], k') == Found(TableOf(Put(live, k, r)), k')
    {
      LookupPut(live, k, r, k');
      TableIsLookup(live, k');
      TableIsLookup(Put(live, k, r), k');
    }
    SameTable(rows[k := r], TableOf(Put(live, k, r)));
  }

  /** A fresh reservation inserts the new record and evicts. */
  lemma {:induction false} FreshIsEviction(es: Entries, k: IdempotencyKey, now: Time, ttl: int, maxEntries: nat)
    requires ReserveOutcomeOf(es, k, now, ttl) == Fresh
    ensures ReserveEntries(es, k, now, ttl, maxEntries) ==
      Evict(Put(Expire(es, now - ttl), k, Record(now, Reserved, None)), maxEntries)
  {
  }

  /** Both stores hold the same records once the new one is in. */
  lemma {:induction false} InsertedTable(es: Entries, k: IdempotencyKey, before: Time, r: Record)
    requires DistinctKeys(es)
    ensures DistinctKeys(Put(Expire(es, before), k, r))
    ensures Live(TableOf(es), before)[k := r] == TableOf(Put(Expire(es, before), k, r))
  {
    LiveTable(es, before);
    PutTable(Live(TableOf(es), before), Expire(es, before), k, r);
  }

  lemma {:induction false} ReservedTable(es: Entries, k: IdempotencyKey, now: Time, ttl: int)
    requires DistinctKeys(es)
    ensures var inserted := Put(Expire(es, now - ttl), k, Record(now, Reserved, None));
      DistinctKeys(inserted) && Live(TableOf(es), now - ttl)[k := Record(now, Reserved, None)] == TableOf(inserted)
  {
    InsertedTable(es, k, now - ttl, Record(now, Reserved, None));
  }

  /**
   After a fresh reservation they hold the same records, if the live ones and the new one have
   distinct timestamps.
   */
  lemma {:induction false} FreshReservationsAgree(
    es: Entries, k: IdempotencyKey, now: Time, ttl: int, maxEntries: nat, inserted: Table, rows': Table)
    requires DistinctKeys(es) && ReserveOutcomeOf(es, k, now, ttl) == Fresh
    requires inserted == Live(TableOf(es), now - ttl)[k := Record(now, Reserved, None)]
    requires DistinctTimes(inserted) && KeepsNewest(inserted, rows', maxEntries)
    ensures rows' == TableOf(ReserveEntries(es, k, now, ttl, maxEntries))
  {
    ReservedTable(es, k, now, ttl);
    FreshIsEviction(es, k, now, ttl, maxEntries);
    EvictionsAgree(inserted, Put(Expire(es, now - ttl), k, Record(now, Reserved, None)), maxEntries, rows');
  }

  /** With distinct timestamps the ordered delete and the eviction loop leave the same records. */
  lemma EvictionsAgree(all: Table, es: Entries, maxEntries: nat, rows': Table)
    requires DistinctKeys(es) && all == TableOf(es) && DistinctTimes(all) && KeepsNewest(all, rows', maxEntries)
    ensures rows' == TableOf(Evict(es, maxEntries))
  {
    var kept := TableOf(Evict(es, maxEntries));
    MemoryKeepsNewest(es, maxEntries);
    DistinctMeansNoTie(all, kept, maxEntries);
    EvictionDeterminedIff(all, kept, maxEntries);
  }

  lemma DistinctMeansNoTie(all: Table, kept: Table, maxEntries: nat)
    requires DistinctTimes(all) && KeepsNewest(all, kept, maxEntries)
    ensures NoTieAtCut(all, kept)
  {
  }
}
