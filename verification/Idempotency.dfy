/**
 The in-memory idempotency store: a dictionary, in insertion order, from (principal,
 key) to a record.  Reserving expires old records and evicts the oldest ones.
 */
module Idempotency {
  import opened Wrappers
  import opened GatewayTypes

  datatype IdempotencyKey = IdempotencyKey(principalId: string, key: string)

  datatype OperationStatus = Reserved | Running | Succeeded | TransientFailed | PermanentFailed

  datatype Record = Record(createdAt: Time, status: OperationStatus, response: Option<Response>)

  datatype Entry = Entry(key: IdempotencyKey, record: Record)

  /** A dictionary in insertion order. */
  type Entries = seq<Entry>

  datatype ReserveOutcome = Fresh | Replay(response: Response) | Duplicate

  predicate Terminal(s: OperationStatus) {
    s == Succeeded || s == TransientFailed || s == PermanentFailed
  }

  ghost predicate DistinctKeys(es: Entries) {
    forall i, j :: 0 <= i < j < |es| ==> es[i].key != es[j].key
  }

  function Lookup(es: Entries, k: IdempotencyKey): Option<Record> {
    if |es| == 0 then None
    else if es[|es| - 1].key == k then Some(es[|es| - 1].record)
    else Lookup(es[..|es| - 1], k)
  }

  /** Assign to a key: in place when present, at the end when new. */
  function Put(es: Entries, k: IdempotencyKey, r: Record): Entries {
    if |es| == 0 then [Entry(k, r)]
    else if es[0].key == k then [Entry(k, r)] + es[1..]
    else [es[0]] + Put(es[1..], k, r)
  }

  function Expire(es: Entries, before: Time): Entries {
    if |es| == 0 then []
    else
      var front := Expire(es[..|es| - 1], before);
      if es[|es| - 1].record.createdAt <= before then front else front + [es[|es| - 1]]
  }

  /** The first entry among the oldest, as `min` picks it. */
  function OldestIndex(es: Entries): (i: nat)
    requires |es| > 0
    ensures i < |es|
    ensures forall j :: 0 <= j < |es| ==> es[i].record.createdAt <= es[j].record.createdAt
    ensures forall j :: 0 <= j < i ==> es[i].record.createdAt < es[j].record.createdAt
  {
    if |es| == 1 then 0
    else
      var i := OldestIndex(es[..|es| - 1]);
      if es[|es| - 1].record.createdAt < es[i].record.createdAt then |es| - 1 else i
  }

  function RemoveAt(es: Entries, i: nat): (r: Entries)
    requires i < |es|
    ensures |r| == |es| - 1
  {
    es[..i] + es[i + 1..]
  }

  function Evict(es: Entries, maxEntries: nat): (r: Entries)
    ensures |r| == if |es| > maxEntries then maxEntries else |es|
    decreases |es|
  {
    if |es| > maxEntries then Evict(RemoveAt(es, OldestIndex(es)), maxEntries) else es
  }

  function Outcome(found: Option<Record>): ReserveOutcome {
    match found
    case None => Fresh
    case Some(r) => if Terminal(r.status) && r.response.Some? then Replay(r.response.value) else Duplicate
  }

  function ReserveOutcomeOf(es: Entries, k: IdempotencyKey, now: Time, ttl: int): ReserveOutcome {
    Outcome(Lookup(Expire(es, now - ttl), k))
  }

  function ReserveEntries(es: Entries, k: IdempotencyKey, now: Time, ttl: int, maxEntries: nat): Entries {
    var live := Expire(es, now - ttl);
    if Lookup(live, k).None? then Evict(Put(live, k, Record(now, Reserved, None)), maxEntries) else live
  }

  function MarkRunningEntries(es: Entries, k: IdempotencyKey): Entries {
    var found := Lookup(es, k);
    if found.Some? then Put(es, k, found.value.(status := Running)) else es
  }

  function CompleteEntries(
    es: Entries, k: IdempotencyKey, response: Response, status: OperationStatus, now: Time): Entries {
    var found := Lookup(es, k);
    Put(es, k, Record(if found.Some? then found.value.createdAt else now, status, Some(response)))
  }

  class IdempotencyStore {
    const ttl: int
    const maxEntries: nat
    var keys: Entries

    constructor (ttl: int, maxEntries: nat)
      ensures this.ttl == ttl && this.maxEntries == maxEntries && keys == []
    {
      this.ttl, this.maxEntries, keys := ttl, maxEntries, [];
    }

    /** Duplicate stands for the DuplicateOperation exception. */
    method Reserve(principalId: string, idempotencyKey: string, now: Time) returns (r: ReserveOutcome)
      modifies this
      ensures var k := IdempotencyKey(principalId, idempotencyKey);
        && r == ReserveOutcomeOf(old(keys), k, now, ttl)
        && keys == ReserveEntries(old(keys), k, now, ttl, maxEntries)
    {
      var k := IdempotencyKey(principalId, idempotencyKey);
      keys := Expire(keys, now - ttl);
      var existing := Lookup(keys, k);
      if existing.Some? {
        if Terminal(existing.value.status) && existing.value.response.Some? {
          return Replay(existing.value.response.value);
        }
        return Duplicate;
      }
      keys := Put(keys, k, Record(now, Reserved, None));
      EvictOldestIfNeeded();
      return Fresh;
    }

    method EvictOldestIfNeeded()
      modifies this
      ensures keys == Evict(old(keys), maxEntries)
    {
      while |keys| > maxEntries
        invariant Evict(keys, maxEntries) == Evict(old(keys), maxEntries)
        decreases |keys|
      {
        keys := RemoveAt(keys, OldestIndex(keys));
      }
    }

    method MarkRunning(principalId: string, idempotencyKey: string)
      modifies this
      ensures keys == MarkRunningEntries(old(keys), IdempotencyKey(principalId, idempotencyKey))
    {
      var k := IdempotencyKey(principalId, idempotencyKey);
      var found := Lookup(keys, k);
      if found.Some? {
        keys := Put(keys, k, found.value.(status := Running));
      }
    }

    method Complete(principalId: string, idempotencyKey: string, response: Response, status: OperationStatus, now: Time)
      modifies this
      ensures keys == CompleteEntries(old(keys), IdempotencyKey(principalId, idempotencyKey), response, status, now)
    {
      var k := IdempotencyKey(principalId, idempotencyKey);
      var existing := Lookup(keys, k);
      var createdAt := if existing.Some? then existing.value.createdAt else now;
      keys := Put(keys, k, Record(createdAt, status, Some(response)));
    }
  }

  // ---- what the dictionary operations do to lookups

  lemma {:induction false} LookupAt(es: Entries, i: nat)
    requires DistinctKeys(es) && i < |es|
    ensures Lookup(es, es[i].key) == Some(es[i].record)
  {
    if i < |es| - 1 {
      LookupAt(es[..|es| - 1], i);
    }
  }

  lemma {:induction false} LookupFinds(es: Entries, k: IdempotencyKey)
    ensures Lookup(es, k).Some? ==> exists i :: 0 <= i < |es| && es[i] == Entry(k, Lookup(es, k).value)
    ensures Lookup(es, k).None? ==> forall i :: 0 <= i < |es| ==> es[i].key != k
  {
    if |es| > 0 && es[|es| - 1].key != k {
      LookupFinds(es[..|es| - 1], k);
      if Lookup(es, k).Some? {
        var i :| 0 <= i < |es| - 1 && es[..|es| - 1][i] == Entry(k, Lookup(es, k).value);
        assert es[i] == Entry(k, Lookup(es, k).value);
      }
    } else if |es| > 0 {
      assert es[|es| - 1] == Entry(k, Lookup(es, k).value);
    }
  }

  lemma {:induction false} PutAt(es: Entries, k: IdempotencyKey, r: Record)
    requires DistinctKeys(es)
    ensures DistinctKeys(Put(es, k, r))
    ensures |Put(es, k, r)| >= |es|
    ensures forall i :: 0 <= i < |es| ==> Put(es, k, r)[i] == if es[i].key == k then Entry(k, r) else es[i]
    ensures (forall i :: 0 <= i < |es| ==> es[i].key != k) ==> Put(es, k, r) == es + [Entry(k, r)]
    ensures (exists i :: 0 <= i < |es| && es[i].key == k) ==> |Put(es, k, r)| == |es|
  {
    if |es| > 0 && es[0].key != k {
      PutAt(es[1..], k, r);
      assert forall i :: 0 < i < |es| ==> es[1..][i - 1] == es[i];
    }
  }

  lemma {:induction false} LookupPut(es: Entries, k: IdempotencyKey, r: Record, k': IdempotencyKey)
    requires DistinctKeys(es)
    ensures DistinctKeys(Put(es, k, r))
    ensures Lookup(Put(es, k, r), k') == if k' == k then Some(r) else Lookup(es, k')
  {
    PutAt(es, k, r);
    LookupFinds(es, k');
    LookupFinds(es, k);
    var es' := Put(es, k, r);
    LookupFinds(es', k');
    if k' == k {
      if i :| 0 <= i < |es| && es[i].key == k {
        LookupAt(es', i);
      } else {
        LookupAt(es', |es|);
      }
    } else if Lookup(es, k').Some? {
      var i :| 0 <= i < |es| && es[i] == Entry(k', Lookup(es, k').value);
      LookupAt(es', i);
    }
  }

  /** `part` is what is left of `es` after removing entries. */
  ghost predicate Remains(part: Entries, es: Entries) {
    && DistinctKeys(part)
    && forall i :: 0 <= i < |part| ==> part[i] in es
  }

  lemma {:induction false} LookupRemains(part: Entries, es: Entries, k: IdempotencyKey)
    requires DistinctKeys(es) && Remains(part, es)
    ensures Lookup(part, k).Some? ==> Lookup(part, k) == Lookup(es, k)
  {
    LookupFinds(part, k);
    if Lookup(part, k).Some? {
      var i :| 0 <= i < |part| && part[i] == Entry(k, Lookup(part, k).value);
      var j :| 0 <= j < |es| && es[j] == part[i];
      LookupAt(es, j);
    }
  }

  lemma {:induction false} ExpireKeepsLive(es: Entries, before: Time)
    requires DistinctKeys(es)
    ensures Remains(Expire(es, before), es)
    ensures forall e :: e in Expire(es, before) <==> e in es && e.record.createdAt > before
  {
    if |es| > 0 {
      var front := es[..|es| - 1];
      ExpireKeepsLive(front, before);
      assert es == front + [es[|es| - 1]];
      assert forall e :: e in front ==> exists i :: 0 <= i < |front| && front[i] == e;
    }
  }

  lemma {:induction false} LookupExpire(es: Entries, before: Time, k: IdempotencyKey)
    requires DistinctKeys(es)
    ensures DistinctKeys(Expire(es, before))
    ensures Lookup(Expire(es, before), k)
         == if Lookup(es, k).Some? && Lookup(es, k).value.createdAt > before then Lookup(es, k) else None
  {
    ExpireKeepsLive(es, before);
    LookupRemains(Expire(es, before), es, k);
    LookupFinds(es, k);
    LookupFinds(Expire(es, before), k);
    if Lookup(es, k).Some? && Lookup(es, k).value.createdAt > before {
      assert Entry(k, Lookup(es, k).value) in es;
      assert Entry(k, Lookup(es, k).value) in Expire(es, before);
    }
  }

  lemma {:induction false} RemoveKeepsRest(es: Entries, i: nat)
    requires DistinctKeys(es) && i < |es|
    ensures Remains(RemoveAt(es, i), es)
    ensures forall e :: e in RemoveAt(es, i) <==> e in es && e != es[i]
  {
    assert es == es[..i] + [es[i]] + es[i + 1..];
  }

  /** Every removed entry is at most as recent as every kept one. */
  ghost predicate OldestGone(es: Entries, kept: Entries) {
    forall r, k :: r in es && r !in kept && k in kept ==> r.record.createdAt <= k.record.createdAt
  }

  lemma {:induction false} EvictRemovesOldest(es: Entries, maxEntries: nat)
    requires DistinctKeys(es)
    ensures Remains(Evict(es, maxEntries), es) && OldestGone(es, Evict(es, maxEntries))
    decreases |es|
  {
    if |es| > maxEntries {
      var i := OldestIndex(es);
      var rest := RemoveAt(es, i);
      RemoveKeepsRest(es, i);
      EvictRemovesOldest(rest, maxEntries);
      var kept := Evict(rest, maxEntries);
      forall r, k | r in es && r !in kept && k in kept
        ensures r.record.createdAt <= k.record.createdAt
      {
        assert k in rest;
        if r != es[i] {
          assert r in rest;
        }
      }
    }
  }

  /** A newest entry at the end outlives the eviction as long as anything may stay. */
  lemma {:induction false} NewestSurvives(es: Entries, e: Entry, maxEntries: nat)
    requires maxEntries >= 1
    requires forall i :: 0 <= i < |es| ==> es[i].record.createdAt <= e.record.createdAt
    ensures e in Evict(es + [e], maxEntries)
    decreases |es|
  {
    var all := es + [e];
    if |all| > maxEntries {
      var i := OldestIndex(all);
      assert i < |es|;
      assert RemoveAt(all, i) == RemoveAt(es, i) + [e];
      NewestSurvives(RemoveAt(es, i), e, maxEntries);
    }
  }

  /** A fresh reservation on a clock that never goes back leaves the new record in a store within its capacity. */
  lemma {:induction false} FreshReservation(es: Entries, k: IdempotencyKey, now: Time, ttl: int, maxEntries: nat)
    requires DistinctKeys(es) && ReserveOutcomeOf(es, k, now, ttl) == Fresh
    ensures |ReserveEntries(es, k, now, ttl, maxEntries)| <= maxEntries
    ensures maxEntries >= 1 && (forall i :: 0 <= i < |es| ==> es[i].record.createdAt <= now) ==>
      Lookup(ReserveEntries(es, k, now, ttl, maxEntries), k) == Some(Record(now, Reserved, None))
  {
    var live := Expire(es, now - ttl);
    ExpireKeepsLive(es, now - ttl);
    LookupFinds(live, k);
    PutAt(live, k, Record(now, Reserved, None));
    var e := Entry(k, Record(now, Reserved, None));
    if maxEntries >= 1 && (forall i :: 0 <= i < |es| ==> es[i].record.createdAt <= now) {
      forall i | 0 <= i < |live|
        ensures live[i].record.createdAt <= now
      {
        assert live[i] in es;
      }
      NewestSurvives(live, e, maxEntries);
      EvictRemovesOldest(live + [e], maxEntries);
      var kept := Evict(live + [e], maxEntries);
      var i :| 0 <= i < |kept| && kept[i] == e;
      LookupAt(kept, i);
    }
  }

  /** What a reservation does to any record: it stays as it was or goes, and the new record is as reserved. */
  lemma {:induction false} ReserveEffect(es: Entries, k: IdempotencyKey, now: Time, ttl: int, maxEntries: nat, k': IdempotencyKey)
    requires DistinctKeys(es)
    ensures var es' := ReserveEntries(es, k, now, ttl, maxEntries);
      && DistinctKeys(es')
      && (Lookup(es', k').Some? ==>
            Lookup(es', k') == Lookup(es, k')
            || (k' == k && ReserveOutcomeOf(es, k, now, ttl) == Fresh
              && Lookup(es', k') == Some(Record(now, Reserved, None))))
  {
    var live := Expire(es, now - ttl);
    LookupExpire(es, now - ttl, k');
    LookupExpire(es, now - ttl, k);
    if Lookup(live, k).None? {
      var r := Record(now, Reserved, None);
      LookupPut(live, k, r, k');
      EvictRemovesOldest(Put(live, k, r), maxEntries);
      LookupRemains(Evict(Put(live, k, r), maxEntries), Put(live, k, r), k');
    }
  }

  /** The record of a key that has just been freshly reserved is new, if it is still there. */
  lemma {:induction false} FreshRecord(es: Entries, k: IdempotencyKey, now: Time, ttl: int, maxEntries: nat)
    requires DistinctKeys(es) && ReserveOutcomeOf(es, k, now, ttl) == Fresh
    ensures var found := Lookup(ReserveEntries(es, k, now, ttl, maxEntries), k);
      found.Some? ==> found == Some(Record(now, Reserved, None))
  {
    var live, r := Expire(es, now - ttl), Record(now, Reserved, None);
    LookupExpire(es, now - ttl, k);
    LookupPut(live, k, r, k);
    EvictRemovesOldest(Put(live, k, r), maxEntries);
    LookupRemains(Evict(Put(live, k, r), maxEntries), Put(live, k, r), k);
  }

  // ---- what a caller learns and leaves, record by record

  /** The record of the key is there and younger than its lifetime. */
  ghost predicate Unexpired(es: Entries, k: IdempotencyKey, now: Time, ttl: int) {
    Lookup(es, k).Some? && now < Lookup(es, k).value.createdAt + ttl
  }

  /** A finished operation is replayed, an unfinished one refused, and anything else is new. */
  lemma {:induction false} OutcomeIff(es: Entries, k: IdempotencyKey, now: Time, ttl: int)
    requires DistinctKeys(es)
    ensures !Unexpired(es, k, now, ttl) ==> ReserveOutcomeOf(es, k, now, ttl) == Fresh
    ensures Unexpired(es, k, now, ttl) ==>
      var r := Lookup(es, k).value;
      ReserveOutcomeOf(es, k, now, ttl) ==
        if r.response.Some? && r.status != Reserved && r.status != Running then Replay(r.response.value) else Duplicate
  {
    LookupExpire(es, now - ttl, k);
  }

  /** Marking a key as running changes its status only, and no other record. */
  lemma {:induction false} RunningEffect(es: Entries, k: IdempotencyKey, k': IdempotencyKey)
    requires DistinctKeys(es)
    ensures var es' := MarkRunningEntries(es, k);
      Lookup(es', k') ==
        if k' == k && Lookup(es, k).Some?
        then Some(Record(Lookup(es, k).value.createdAt, Running, Lookup(es, k).value.response))
        else Lookup(es, k')
  {
    if Lookup(es, k).Some? {
      LookupPut(es, k, Lookup(es, k).value.(status := Running), k');
    }
  }

  /** Completing a key stores the response and how it ended, and leaves the moment of its reservation. */
  lemma {:induction false} CompleteEffect(
    es: Entries, k: IdempotencyKey, response: Response, status: OperationStatus, now: Time, k': IdempotencyKey)
    requires DistinctKeys(es)
    ensures var es' := CompleteEntries(es, k, response, status, now);
      Lookup(es', k') ==
        if k' != k then Lookup(es, k')
        else Some(Record(if Lookup(es, k).Some? then Lookup(es, k).value.createdAt else now, status, Some(response)))
  {
    LookupPut(es, k, Record(if Lookup(es, k).Some? then Lookup(es, k).value.createdAt else now, status,
      Some(response)), k');
  }
}
