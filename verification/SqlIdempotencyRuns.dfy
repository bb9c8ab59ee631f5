/**
 The two idempotency stores over whole runs of reservations, status updates and
 completions, with any clock readings.  A reservation that is not fresh expires old
 records for good in memory but only for the moment in the table, so the table may hold
 rows the dictionary has dropped.  The stores part when such a row is completed, and when
 a later reservation reads the clock so early that such a row is live again.
 */
module SqlIdempotencyRuns {
  import opened Wrappers
  import opened GatewayTypes
  import opened Idempotency
  import opened SqlIdempotency

  datatype Operation =
    | OpReserve(key: IdempotencyKey, now: Time)
    | OpMarkRunning(key: IdempotencyKey)
    | OpComplete(key: IdempotencyKey, response: Response, status: OperationStatus, now: Time)

  datatype Limits = Limits(ttl: int, maxEntries: nat)

  function Perform(lim: Limits, es: Entries, op: Operation): Entries {
    match op
    case OpReserve(key, now) => ReserveEntries(es, key, now, lim.ttl, lim.maxEntries)
    case OpMarkRunning(key) => MarkRunningEntries(es, key)
    case OpComplete(key, response, status, now) => CompleteEntries(es, key, response, status, now)
  }

  function Reply(lim: Limits, es: Entries, op: Operation): Option<ReserveOutcome> {
    match op
    case OpReserve(key, now) => Some(ReserveOutcomeOf(es, key, now, lim.ttl))
    case _ => None
  }

  function SqlReply(lim: Limits, rows: Table, op: Operation): Option<ReserveOutcome> {
    match op
    case OpReserve(key, now) => Some(Outcome(Found(Live(rows, now - lim.ttl), key)))
    case _ => None
  }

  /** The live rows and the new one, before the eviction. */
  ghost function InsertedRows(lim: Limits, rows: Table, key: IdempotencyKey, now: Time): Table {
    Live(rows, now - lim.ttl)[key := Record(now, Reserved, None)]
  }

  /** What the table may hold after an operation. */
  ghost predicate SqlStep(lim: Limits, rows: Table, op: Operation, rows': Table) {
    match op
    case OpReserve(key, now) =>
      if SqlReply(lim, rows, op) == Some(Fresh) then
        KeepsNewest(InsertedRows(lim, rows, key, now), rows', lim.maxEntries)
      else rows' == rows
    case OpMarkRunning(key) => rows' == RunningRows(rows, key)
    case OpComplete(key, response, status, now) => rows' == CompletedRows(rows, key, response, status, now)
  }

  /** The table holds the dictionary's records. */
  ghost predicate Matches(es: Entries, rows: Table) {
    DistinctKeys(es) && forall k :: Lookup(es, k).Some? ==> Found(rows, k) == Lookup(es, k)
  }

  /** A row that only the table still has. */
  ghost predicate OutlivedRow(es: Entries, rows: Table, k: IdempotencyKey) {
    k in rows && Lookup(es, k).None?
  }

  /** Such a row, not yet expired on the reading `now`. */
  ghost predicate LiveAgain(lim: Limits, es: Entries, rows: Table, k: IdempotencyKey, now: Time) {
    OutlivedRow(es, rows, k) && rows[k].createdAt > now - lim.ttl
  }

  /** The new record fits, or no row of the table alone is live and the eviction leaves the database no choice. */
  ghost predicate EvictsAlike(lim: Limits, es: Entries, rows: Table, key: IdempotencyKey, now: Time) {
    var all := InsertedRows(lim, rows, key, now);
    || |all| <= lim.maxEntries
    || ((forall k {:trigger LiveAgain(lim, es, rows, k, now)} :: !LiveAgain(lim, es, rows, k, now))
        && NoTieAtCut(all, TableOf(ReserveEntries(es, key, now, lim.ttl, lim.maxEntries))))
  }

  /** The step meets no row that only the table has, and leaves nothing to the database's choice. */
  ghost predicate Faithful(lim: Limits, es: Entries, rows: Table, op: Operation) {
    match op
    case OpReserve(key, now) =>
      && !LiveAgain(lim, es, rows, key, now)
      && (ReserveOutcomeOf(es, key, now, lim.ttl) == Fresh ==> EvictsAlike(lim, es, rows, key, now))
    case OpMarkRunning(_) => true
    case OpComplete(key, _, _, _) => !OutlivedRow(es, rows, key)
  }

  // ---- one reservation

  lemma LiveRowAgreesIff(lim: Limits, es: Entries, rows: Table, k: IdempotencyKey, now: Time)
    requires Matches(es, rows)
    ensures Found(Live(rows, now - lim.ttl), k) == Lookup(Expire(es, now - lim.ttl), k) <==>
      !LiveAgain(lim, es, rows, k, now)
  {
    LookupExpire(es, now - lim.ttl, k);
  }

  /** From matching stores a reservation is answered alike exactly when no row of its key is live in the table alone. */
  lemma ReservationAgreesIff(lim: Limits, es: Entries, rows: Table, key: IdempotencyKey, now: Time)
    requires Matches(es, rows)
    ensures Reply(lim, es, OpReserve(key, now)) == SqlReply(lim, rows, OpReserve(key, now))
      <==> !LiveAgain(lim, es, rows, key, now)
  {
    LiveRowAgreesIff(lim, es, rows, key, now);
    LookupExpire(es, now - lim.ttl, key);
  }

  // ---- one step

  lemma PutKeepsMatch(es: Entries, rows: Table, key: IdempotencyKey, r: Record)
    requires Matches(es, rows)
    ensures Matches(Put(es, key, r), rows[key := r])
  {
    LookupPut(es, key, r, key);
    forall k
      ensures Lookup(Put(es, key, r), k) == if k == key then Some(r) else Lookup(es, k)
    {
      LookupPut(es, key, r, k);
    }
  }

  /** What has expired in memory need not have gone from the table, nor the other way round. */
  lemma ExpiryKeepsMatch(es: Entries, rows: Table, before: Time)
    requires Matches(es, rows)
    ensures Matches(Expire(es, before), rows) && Matches(Expire(es, before), Live(rows, before))
  {
    var live := Expire(es, before);
    ExpireKeepsLive(es, before);
    forall k | Lookup(live, k).Some?
      ensures Found(rows, k) == Lookup(live, k) && Found(Live(rows, before), k) == Lookup(live, k)
    {
      LookupExpire(es, before, k);
    }
  }

  lemma MatchedSize(es: Entries, rows: Table)
    requires Matches(es, rows)
    ensures |es| <= |rows|
  {
    TableSize(es);
    forall k | k in TableOf(es)
      ensures k in rows
    {
      TableIsLookup(es, k);
      assert Found(rows, k) == Lookup(es, k);
    }
    assert TableOf(es).Keys <= rows.Keys;
    SubsetSize(TableOf(es).Keys, rows.Keys);
  }

  /** If everything fits, the ordered delete deletes nothing. */
  lemma NothingDeleted(all: Table, kept: Table, maxEntries: nat)
    requires KeepsNewest(all, kept, maxEntries) && |all| <= maxEntries
    ensures kept == all
  {
    forall k | k in all
      ensures k in kept
    {
      if k !in kept {
        SubsetSize(kept.Keys, all.Keys - {k});
      }
    }
  }

  lemma TableMatches(es: Entries)
    requires DistinctKeys(es)
    ensures Matches(es, TableOf(es))
  {
    forall k
      ensures Found(TableOf(es), k) == Lookup(es, k)
    {
      TableIsLookup(es, k);
    }
  }

  /** With no tie at the cut the eviction loop and the ordered delete leave the same records. */
  lemma EvictedTable(all: Table, es: Entries, kept: Entries, maxEntries: nat, rows': Table)
    requires DistinctKeys(es) && all == TableOf(es) && KeepsNewest(all, rows', maxEntries)
    requires kept == Evict(es, maxEntries) && NoTieAtCut(all, TableOf(kept))
    ensures DistinctKeys(kept) && rows' == TableOf(kept)
  {
    MemoryKeepsNewest(es, maxEntries);
    EvictRemovesOldest(es, maxEntries);
    EvictionDeterminedIff(all, TableOf(kept), maxEntries);
  }

  /** Evicting from these records leaves nothing to the database's choice that the dictionary would decide otherwise. */
  ghost predicate Determined(all: Table, put: Entries, maxEntries: nat) {
    |all| <= maxEntries || (all == TableOf(put) && NoTieAtCut(all, TableOf(Evict(put, maxEntries))))
  }

  /** Evictions of matching records leave matching records. */
  lemma EvictionKeepsMatch(all: Table, put: Entries, maxEntries: nat, rows': Table)
    requires Matches(put, all) && KeepsNewest(all, rows', maxEntries) && Determined(all, put, maxEntries)
    ensures Matches(Evict(put, maxEntries), rows')
  {
    if |all| <= maxEntries {
      NothingDeleted(all, rows', maxEntries);
      MatchedSize(put, all);
    } else {
      EvictedTable(all, put, Evict(put, maxEntries), maxEntries, rows');
      TableMatches(Evict(put, maxEntries));
    }
  }

  /** Without a row live in the table alone, both stores hold the same records once the new one is in. */
  lemma SameOnceInserted(lim: Limits, es: Entries, rows: Table, key: IdempotencyKey, now: Time, r: Record)
    requires Matches(es, rows)
      && forall k {:trigger LiveAgain(lim, es, rows, k, now)} :: !LiveAgain(lim, es, rows, k, now)
    ensures Live(rows, now - lim.ttl)[key := r] == TableOf(Put(Expire(es, now - lim.ttl), key, r))
  {
    var live := Expire(es, now - lim.ttl);
    ExpireKeepsLive(es, now - lim.ttl);
    forall k
      ensures Found(Live(rows, now - lim.ttl), k) == Found(TableOf(live), k)
    {
      assert !LiveAgain(lim, es, rows, k, now);
      LiveRowAgreesIff(lim, es, rows, k, now);
      TableIsLookup(live, k);
    }
    SameTable(Live(rows, now - lim.ttl), TableOf(live));
    PutTable(Live(rows, now - lim.ttl), live, key, r);
  }

  /** The records before the eviction: the live ones and the new one. */
  ghost function Inserted(lim: Limits, es: Entries, key: IdempotencyKey, now: Time): Entries {
    Put(Expire(es, now - lim.ttl), key, Record(now, Reserved, None))
  }

  lemma InsertionKeepsMatch(lim: Limits, es: Entries, rows: Table, key: IdempotencyKey, now: Time)
    requires Matches(es, rows)
    ensures Matches(Inserted(lim, es, key, now), InsertedRows(lim, rows, key, now))
  {
    ExpiryKeepsMatch(es, rows, now - lim.ttl);
    PutKeepsMatch(Expire(es, now - lim.ttl), Live(rows, now - lim.ttl), key, Record(now, Reserved, None));
  }

  lemma CutIsDetermined(lim: Limits, es: Entries, rows: Table, key: IdempotencyKey, now: Time)
    requires Matches(es, rows) && ReserveOutcomeOf(es, key, now, lim.ttl) == Fresh
    requires forall k {:trigger LiveAgain(lim, es, rows, k, now)} :: !LiveAgain(lim, es, rows, k, now)
    requires NoTieAtCut(InsertedRows(lim, rows, key, now),
      TableOf(ReserveEntries(es, key, now, lim.ttl, lim.maxEntries)))
    ensures Determined(InsertedRows(lim, rows, key, now), Inserted(lim, es, key, now), lim.maxEntries)
  {
    FreshIsEviction(es, key, now, lim.ttl, lim.maxEntries);
    SameOnceInserted(lim, es, rows, key, now, Record(now, Reserved, None));
  }

  /** Before its eviction a fresh reservation finds the stores ready for it. */
  lemma ReadyToEvict(lim: Limits, es: Entries, rows: Table, key: IdempotencyKey, now: Time)
    requires Matches(es, rows) && ReserveOutcomeOf(es, key, now, lim.ttl) == Fresh
    requires EvictsAlike(lim, es, rows, key, now)
    ensures Matches(Inserted(lim, es, key, now), InsertedRows(lim, rows, key, now))
    ensures Determined(InsertedRows(lim, rows, key, now), Inserted(lim, es, key, now), lim.maxEntries)
  {
    InsertionKeepsMatch(lim, es, rows, key, now);
    if |InsertedRows(lim, rows, key, now)| > lim.maxEntries {
      CutIsDetermined(lim, es, rows, key, now);
    }
  }

  lemma FreshKeepsMatch(lim: Limits, es: Entries, rows: Table, key: IdempotencyKey, now: Time, rows': Table)
    requires Matches(es, rows) && ReserveOutcomeOf(es, key, now, lim.ttl) == Fresh
    requires EvictsAlike(lim, es, rows, key, now)
    requires KeepsNewest(InsertedRows(lim, rows, key, now), rows', lim.maxEntries)
    ensures Matches(ReserveEntries(es, key, now, lim.ttl, lim.maxEntries), rows')
  {
    ReadyToEvict(lim, es, rows, key, now);
    FreshIsEviction(es, key, now, lim.ttl, lim.maxEntries);
    EvictionKeepsMatch(InsertedRows(lim, rows, key, now), Inserted(lim, es, key, now), lim.maxEntries, rows');
  }

  /** The store after a reservation that is not fresh. */
  lemma StaleIsExpired(lim: Limits, es: Entries, key: IdempotencyKey, now: Time)
    requires ReserveOutcomeOf(es, key, now, lim.ttl) != Fresh
    ensures ReserveEntries(es, key, now, lim.ttl, lim.maxEntries) == Expire(es, now - lim.ttl)
  {
  }

  lemma StaleKeepsMatch(lim: Limits, es: Entries, rows: Table, key: IdempotencyKey, now: Time)
    requires Matches(es, rows) && ReserveOutcomeOf(es, key, now, lim.ttl) != Fresh
    ensures Matches(ReserveEntries(es, key, now, lim.ttl, lim.maxEntries), rows)
  {
    StaleIsExpired(lim, es, key, now);
    ExpiryKeepsMatch(es, rows, now - lim.ttl);
  }

  lemma ReserveKeepsMatch(lim: Limits, es: Entries, rows: Table, key: IdempotencyKey, now: Time, rows': Table)
    requires Matches(es, rows)
    requires Faithful(lim, es, rows, OpReserve(key, now)) && SqlStep(lim, rows, OpReserve(key, now), rows')
    ensures Matches(ReserveEntries(es, key, now, lim.ttl, lim.maxEntries), rows')
  {
    ReservationAgreesIff(lim, es, rows, key, now);
    if ReserveOutcomeOf(es, key, now, lim.ttl) == Fresh {
      FreshKeepsMatch(lim, es, rows, key, now, rows');
    } else {
      StaleKeepsMatch(lim, es, rows, key, now);
    }
  }

  lemma RunningKeepsMatch(es: Entries, rows: Table, key: IdempotencyKey)
    requires Matches(es, rows)
    ensures Matches(MarkRunningEntries(es, key), RunningRows(rows, key))
  {
    if Lookup(es, key).Some? {
      PutKeepsMatch(es, rows, key, Lookup(es, key).value.(status := Running));
    }
  }

  lemma CompletionKeepsMatch(
    es: Entries, rows: Table, key: IdempotencyKey, response: Response, status: OperationStatus, now: Time)
    requires Matches(es, rows) && !OutlivedRow(es, rows, key)
    ensures Matches(CompleteEntries(es, key, response, status, now), CompletedRows(rows, key, response, status, now))
  {
    var found := Lookup(es, key);
    PutKeepsMatch(es, rows, key, Record(if found.Some? then found.value.createdAt else now, status, Some(response)));
  }

  /** A faithful step keeps the stores matched. */
  lemma StepKeepsMatch(lim: Limits, es: Entries, rows: Table, op: Operation, rows': Table)
    requires Matches(es, rows) && Faithful(lim, es, rows, op) && SqlStep(lim, rows, op, rows')
    ensures Matches(Perform(lim, es, op), rows')
  {
    match op
    case OpReserve(key, now) => ReserveKeepsMatch(lim, es, rows, key, now, rows');
    case OpMarkRunning(key) => RunningKeepsMatch(es, rows, key);
    case OpComplete(key, response, status, now) => CompletionKeepsMatch(es, rows, key, response, status, now);
  }

  // ---- runs

  ghost function Run(lim: Limits, ops: seq<Operation>): Entries {
    if |ops| == 0 then [] else Perform(lim, Run(lim, ops[..|ops| - 1]), ops[|ops| - 1])
  }

  /** A run of the table store and its successive states. */
  ghost predicate SqlRun(lim: Limits, ops: seq<Operation>, tables: seq<Table>) {
    && |tables| == |ops| + 1 && tables[0] == map[]
    && forall i :: 0 <= i < |ops| ==> SqlStep(lim, tables[i], ops[i], tables[i + 1])
  }

  ghost predicate FaithfulRun(lim: Limits, ops: seq<Operation>, tables: seq<Table>)
    requires |tables| == |ops| + 1
  {
    |ops| > 0 ==>
      var n := |ops| - 1;
      FaithfulRun(lim, ops[..n], tables[..n + 1]) && Faithful(lim, Run(lim, ops[..n]), tables[n], ops[n])
  }

  /** In a faithful run, whatever its clock, the stores stay matched and give the last operation the same answer. */
  lemma {:induction false} StoresAgree(lim: Limits, ops: seq<Operation>, tables: seq<Table>)
    requires SqlRun(lim, ops, tables) && FaithfulRun(lim, ops, tables)
    ensures Matches(Run(lim, ops), tables[|ops|])
    ensures |ops| > 0 ==>
      Reply(lim, Run(lim, ops[..|ops| - 1]), ops[|ops| - 1]) == SqlReply(lim, tables[|ops| - 1], ops[|ops| - 1])
  {
    if |ops| > 0 {
      var n := |ops| - 1;
      StoresAgree(lim, ops[..n], tables[..n + 1]);
      StepAgrees(lim, Run(lim, ops[..n]), tables[n], ops[n], tables[n + 1]);
    }
  }

  lemma StepAgrees(lim: Limits, es: Entries, rows: Table, op: Operation, rows': Table)
    requires Matches(es, rows) && Faithful(lim, es, rows, op) && SqlStep(lim, rows, op, rows')
    ensures Matches(Perform(lim, es, op), rows') && Reply(lim, es, op) == SqlReply(lim, rows, op)
  {
    StepKeepsMatch(lim, es, rows, op, rows');
    if op.OpReserve? {
      ReservationAgreesIff(lim, es, rows, op.key, op.now);
    }
  }

  // ---- a clock that never goes back

  function ClockOf(op: Operation, last: Time): Time {
    match op
    case OpReserve(_, now) => now
    case _ => last
  }

  /** The clock reading of the latest reservation, none earlier than `start`. */
  ghost function LastClock(ops: seq<Operation>, start: Time): Time {
    if |ops| == 0 then start else ClockOf(ops[|ops| - 1], LastClock(ops[..|ops| - 1], start))
  }

  /** Reservations are made on a clock that never goes back. */
  ghost predicate Ticking(ops: seq<Operation>, start: Time) {
    |ops| > 0 ==> Ticking(ops[..|ops| - 1], start) && LastClock(ops[..|ops| - 1], start) <= LastClock(ops, start)
  }

  /** Whatever only the table has, had expired by `last`. */
  ghost predicate OutlivedByNow(lim: Limits, es: Entries, rows: Table, last: Time) {
    forall k {:trigger OutlivedRow(es, rows, k)} :: OutlivedRow(es, rows, k) ==> rows[k].createdAt <= last - lim.ttl
  }

  /** On such a clock it is enough that no timestamp ties at an eviction's cut and no outlived row is completed. */
  ghost predicate Untied(lim: Limits, es: Entries, rows: Table, op: Operation) {
    match op
    case OpReserve(key, now) =>
      ReserveOutcomeOf(es, key, now, lim.ttl) == Fresh ==>
        NoTieAtCut(InsertedRows(lim, rows, key, now), TableOf(Perform(lim, es, op)))
    case OpMarkRunning(_) => true
    case OpComplete(key, _, _, _) => !OutlivedRow(es, rows, key)
  }

  ghost predicate UntiedRun(lim: Limits, ops: seq<Operation>, tables: seq<Table>)
    requires |tables| == |ops| + 1
  {
    |ops| > 0 ==>
      var n := |ops| - 1;
      UntiedRun(lim, ops[..n], tables[..n + 1]) && Untied(lim, Run(lim, ops[..n]), tables[n], ops[n])
  }

  lemma UntiedIsFaithful(lim: Limits, es: Entries, rows: Table, last: Time, op: Operation)
    requires OutlivedByNow(lim, es, rows, last) && last <= ClockOf(op, last) && Untied(lim, es, rows, op)
    ensures Faithful(lim, es, rows, op)
  {
  }

  lemma StaleStaysOutlived(lim: Limits, es: Entries, rows: Table, last: Time, now: Time)
    requires Matches(es, rows) && OutlivedByNow(lim, es, rows, last) && last <= now
    ensures OutlivedByNow(lim, Expire(es, now - lim.ttl), rows, now)
  {
    forall k | OutlivedRow(Expire(es, now - lim.ttl), rows, k)
      ensures rows[k].createdAt <= now - lim.ttl
    {
      LookupExpire(es, now - lim.ttl, k);
      if Lookup(es, k).None? {
        assert OutlivedRow(es, rows, k);
      } else {
        assert Found(rows, k) == Lookup(es, k);
      }
    }
  }

  lemma NoneLiveAgain(lim: Limits, es: Entries, rows: Table, last: Time, now: Time)
    requires OutlivedByNow(lim, es, rows, last) && last <= now
    ensures forall k {:trigger LiveAgain(lim, es, rows, k, now)} :: !LiveAgain(lim, es, rows, k, now)
  {
  }

  lemma EvictsUntied(lim: Limits, es: Entries, rows: Table, last: Time, key: IdempotencyKey, now: Time)
    requires Matches(es, rows) && OutlivedByNow(lim, es, rows, last) && last <= now
    ensures InsertedRows(lim, rows, key, now) == TableOf(Inserted(lim, es, key, now))
  {
    NoneLiveAgain(lim, es, rows, last, now);
    SameOnceInserted(lim, es, rows, key, now, Record(now, Reserved, None));
  }

  /** After a fresh reservation the stores hold the same records. */
  lemma FreshOutlivesNothing(
    lim: Limits, es: Entries, rows: Table, last: Time, key: IdempotencyKey, now: Time, rows': Table)
    requires Matches(es, rows) && OutlivedByNow(lim, es, rows, last) && last <= now
    requires Untied(lim, es, rows, OpReserve(key, now)) && ReserveOutcomeOf(es, key, now, lim.ttl) == Fresh
    requires KeepsNewest(InsertedRows(lim, rows, key, now), rows', lim.maxEntries)
    ensures rows' == TableOf(ReserveEntries(es, key, now, lim.ttl, lim.maxEntries))
  {
    EvictsUntied(lim, es, rows, last, key, now);
    InsertionKeepsMatch(lim, es, rows, key, now);
    FreshIsEviction(es, key, now, lim.ttl, lim.maxEntries);
    EvictedTable(InsertedRows(lim, rows, key, now), Inserted(lim, es, key, now),
                 ReserveEntries(es, key, now, lim.ttl, lim.maxEntries), lim.maxEntries, rows');
  }

  lemma TableOutlivesNothing(lim: Limits, es: Entries, last: Time)
    ensures OutlivedByNow(lim, es, TableOf(es), last)
  {
    forall k
      ensures !OutlivedRow(es, TableOf(es), k)
    {
      TableIsLookup(es, k);
    }
  }

  lemma ReserveKeepsOutlived(
    lim: Limits, es: Entries, rows: Table, last: Time, key: IdempotencyKey, now: Time, rows': Table)
    requires Matches(es, rows) && OutlivedByNow(lim, es, rows, last) && last <= now
    requires Untied(lim, es, rows, OpReserve(key, now)) && SqlStep(lim, rows, OpReserve(key, now), rows')
    ensures OutlivedByNow(lim, ReserveEntries(es, key, now, lim.ttl, lim.maxEntries), rows', now)
  {
    UntiedIsFaithful(lim, es, rows, last, OpReserve(key, now));
    ReservationAgreesIff(lim, es, rows, key, now);
    if ReserveOutcomeOf(es, key, now, lim.ttl) == Fresh {
      FreshOutlivesNothing(lim, es, rows, last, key, now, rows');
      TableOutlivesNothing(lim, ReserveEntries(es, key, now, lim.ttl, lim.maxEntries), now);
    } else {
      StaleStaysOutlived(lim, es, rows, last, now);
    }
  }

  lemma PutKeepsOutlived(lim: Limits, es: Entries, rows: Table, last: Time, key: IdempotencyKey, r: Record)
    requires DistinctKeys(es) && OutlivedByNow(lim, es, rows, last)
    ensures OutlivedByNow(lim, Put(es, key, r), rows[key := r], last)
  {
    var es', rows' := Put(es, key, r), rows[key := r];
    forall k | OutlivedRow(es', rows', k)
      ensures rows'[k].createdAt <= last - lim.ttl
    {
      LookupPut(es, key, r, k);
      assert OutlivedRow(es, rows, k);
    }
  }

  lemma StepKeepsOutlived(lim: Limits, es: Entries, rows: Table, last: Time, op: Operation, rows': Table)
    requires Matches(es, rows) && OutlivedByNow(lim, es, rows, last) && last <= ClockOf(op, last)
    requires Untied(lim, es, rows, op) && SqlStep(lim, rows, op, rows')
    ensures OutlivedByNow(lim, Perform(lim, es, op), rows', ClockOf(op, last))
  {
    match op
    case OpReserve(key, now) => ReserveKeepsOutlived(lim, es, rows, last, key, now, rows');
    case OpMarkRunning(key) =>
      if Lookup(es, key).Some? {
        PutKeepsOutlived(lim, es, rows, last, key, Lookup(es, key).value.(status := Running));
      } else if key in rows {
        assert forall k :: OutlivedRow(es, rows', k) ==>
          OutlivedRow(es, rows, k) && rows'[k].createdAt == rows[k].createdAt;
      }
    case OpComplete(key, response, status, now) =>
      var found := Lookup(es, key);
      PutKeepsOutlived(lim, es, rows, last, key,
        Record(if found.Some? then found.value.createdAt else now, status, Some(response)));
  }

  lemma {:induction false} TickingRunIsFaithful(lim: Limits, ops: seq<Operation>, tables: seq<Table>, start: Time)
    requires SqlRun(lim, ops, tables) && Ticking(ops, start) && UntiedRun(lim, ops, tables)
    ensures FaithfulRun(lim, ops, tables)
    ensures OutlivedByNow(lim, Run(lim, ops), tables[|ops|], LastClock(ops, start))
  {
    if |ops| > 0 {
      var n := |ops| - 1;
      TickingRunIsFaithful(lim, ops[..n], tables[..n + 1], start);
      StoresAgree(lim, ops[..n], tables[..n + 1]);
      UntiedIsFaithful(lim, Run(lim, ops[..n]), tables[n], LastClock(ops[..n], start), ops[n]);
      StepKeepsOutlived(lim, Run(lim, ops[..n]), tables[n], LastClock(ops[..n], start), ops[n], tables[n + 1]);
    }
  }

  // ---- where they part

  /**
   After a completion the stores answer the next reservation of the key alike exactly when
   the completed row was not an expired one that only the table still had.
   */
  lemma CompletionAgreesIff(
    lim: Limits, es: Entries, rows: Table, key: IdempotencyKey, response: Response, status: OperationStatus, now: Time)
    requires Matches(es, rows) && lim.ttl > 0 && Terminal(status)
    ensures var op, next := OpComplete(key, response, status, now), OpReserve(key, now);
      (Reply(lim, Perform(lim, es, op), next) == SqlReply(lim, CompletedRows(rows, key, response, status, now), next))
      <==> !(OutlivedRow(es, rows, key) && rows[key].createdAt <= now - lim.ttl)
  {
    var op, next := OpComplete(key, response, status, now), OpReserve(key, now);
    if OutlivedRow(es, rows, key) {
      LookupPut(es, key, Record(now, status, Some(response)), key);
      LookupExpire(Perform(lim, es, op), now - lim.ttl, key);
      assert Reply(lim, Perform(lim, es, op), next) == Some(Replay(response));
    } else {
      var rows' := CompletedRows(rows, key, response, status, now);
      CompletionKeepsMatch(es, rows, key, response, status, now);
      LookupPut(es, key, rows'[key], key);
      ReservationAgreesIff(lim, Perform(lim, es, op), rows', key, now);
    }
  }

  // ---- such a run

  const A := IdempotencyKey("p", "a")
  const B := IdempotencyKey("p", "b")
  const ANSWER := Response(true, Allowed, Id(1), "tool", ResultBody(JNull))
  const TEN := Limits(10, 100)

  /** `a` is reserved and outlives its reservation; `b` is reserved twice, which expires `a` in memory only. */
  function Parting(): seq<Operation> {
    [OpReserve(A, 0), OpReserve(B, 5), OpReserve(B, 10), OpComplete(A, ANSWER, Succeeded, 11)]
  }

  const HELD_A := Entry(A, Record(0, Reserved, None))
  const HELD_B := Entry(B, Record(5, Reserved, None))
  const DONE_A := Entry(A, Record(11, Succeeded, Some(ANSWER)))

  lemma ExpireTwo(x: Entry, y: Entry, before: Time)
    ensures Expire([], before) == [] && Expire([x], before) == (if x.record.createdAt <= before then [] else [x])
    ensures Expire([x, y], before)
      == (if x.record.createdAt <= before then [] else [x]) + (if y.record.createdAt <= before then [] else [y])
  {
    assert [x, y][..1] == [x] && [x][..0] == [];
  }

  lemma PutNew(x: Entry, k: IdempotencyKey, r: Record)
    requires x.key != k
    ensures Put([], k, r) == [Entry(k, r)] && Put([x], k, r) == [x, Entry(k, r)] && Lookup([x], k) == None
  {
    assert [x][1..] == [] && [x][..0] == [];
  }

  /** Both are in the table still when a late reader of the clock comes back for `a`. */
  function Lagging(): seq<Operation> {
    [OpReserve(A, 0), OpReserve(B, 5), OpReserve(B, 10)]
  }

  lemma FirstReservations()
    ensures Perform(TEN, [], OpReserve(A, 0)) == [HELD_A]
    ensures Perform(TEN, [HELD_A], OpReserve(B, 5)) == [HELD_A, HELD_B]
  {
    ExpireTwo(HELD_A, HELD_B, -5);
    PutNew(HELD_B, A, HELD_A.record);
    PutNew(HELD_A, B, HELD_B.record);
  }

  lemma RepeatExpires()
    ensures Perform(TEN, [HELD_A, HELD_B], OpReserve(B, 10)) == [HELD_B]
    ensures Perform(TEN, [HELD_B], OpComplete(A, ANSWER, Succeeded, 11)) == [HELD_B, DONE_A]
  {
    ExpireTwo(HELD_A, HELD_B, 0);
    PutNew(HELD_B, A, DONE_A.record);
  }

  lemma PartingStates()
    ensures Run(TEN, Parting()[..3]) == [HELD_B] && Run(TEN, Parting()) == [HELD_B, DONE_A]
  {
    var ops := Parting();
    FirstReservations();
    RepeatExpires();
    assert ops[..0] == [] && ops[..1][..0] == ops[..0] && ops[..2][..1] == ops[..1] && ops[..3][..2] == ops[..2]
      && ops[..4] == ops;
    assert Run(TEN, ops[..1]) == [HELD_A];
    assert Run(TEN, ops[..2]) == [HELD_A, HELD_B];
    assert Run(TEN, ops[..3]) == [HELD_B];
  }

  function PartingTables(): seq<Table> {
    var a, b := Record(0, Reserved, None), Record(5, Reserved, None);
    [map[], map[A := a], map[A := a, B := b], map[A := a, B := b], map[A := Record(0, Succeeded, Some(ANSWER)), B := b]]
  }

  lemma PartingIsARun()
    ensures SqlRun(TEN, Parting(), PartingTables())
  {
    var ops, t := Parting(), PartingTables();
    assert Live(t[0], -10) == map[];
    assert SqlStep(TEN, t[0], ops[0], t[1]);
    assert Live(t[1], -5) == t[1];
    assert SqlStep(TEN, t[1], ops[1], t[2]);
    assert B in Live(t[2], 0);
    assert SqlStep(TEN, t[2], ops[2], t[3]);
    assert CompletedRows(t[3], A, ANSWER, Succeeded, 11) == t[4];
    assert SqlStep(TEN, t[3], ops[3], t[4]);
  }

  /** After that run the dictionary replays a call under `a` that the table lets through again. */
  lemma StoresPart()
    ensures SqlRun(TEN, Parting(), PartingTables())
    ensures Reply(TEN, Run(TEN, Parting()), OpReserve(A, 12)) == Some(Replay(ANSWER))
    ensures SqlReply(TEN, PartingTables()[4], OpReserve(A, 12)) == Some(Fresh)
  {
    PartingIsARun();
    PartingStates();
    ExpireTwo(HELD_B, DONE_A, 2);
    assert [HELD_B] + [DONE_A] == [HELD_B, DONE_A];
    assert Lookup([HELD_B, DONE_A], A) == Some(DONE_A.record);
    assert A !in Live(PartingTables()[4], 2);
  }

  /**
   With no completion at all: a reservation with an earlier reading is fresh in memory and a
   duplicate in the table.
   */
  lemma EarlierReadingParts()
    ensures SqlRun(TEN, Lagging(), PartingTables()[..4])
    ensures Reply(TEN, Run(TEN, Lagging()), OpReserve(A, 9)) == Some(Fresh)
    ensures SqlReply(TEN, PartingTables()[3], OpReserve(A, 9)) == Some(Duplicate)
  {
    var ops, t := Parting(), PartingTables();
    PartingIsARun();
    PartingStates();
    assert Lagging() == ops[..3];
    ExpireTwo(HELD_B, HELD_A, -1);
    assert Lookup([HELD_B], A) == None by {
      PutNew(HELD_B, A, HELD_A.record);
    }
    assert A in Live(t[3], -1);
  }
}
