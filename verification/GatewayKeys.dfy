/**
 What idempotency keys guarantee over whole runs, in every interleaving: a key is reserved
 again only once some reservation has expired it, a lifetime after it was reserved, or it
 has been evicted; and a replay repeats what a call with that key returned.
 */
module GatewayKeys {
  import opened Wrappers
  import opened GatewayTypes
  import opened Idempotency
  import opened GatewayMachine

  // ---- reservations in the trace

  /** When the reservation of `key` that still stands was made; removals end it. */
  ghost function Standing(trace: seq<Event>, key: IdempotencyKey): Option<Time> {
    if |trace| == 0 then None
    else
      var before, e := Standing(trace[..|trace| - 1], key), trace[|trace| - 1];
      if !e.Reservation? then before
      else if key in e.evicted then None
      else if e.isFresh && e.key == key then Some(e.at)
      else if key in e.expired then None
      else before
  }

  /** Reservations that stand expire only when their lifetime is over, and bar a new one of the same key. */
  ghost predicate ReservationFits(ttl: int, before: seq<Event>, e: Event)
    requires e.Reservation?
  {
    && (forall key :: key in e.expired && Standing(before, key).Some? ==> Standing(before, key).value + ttl <= e.at)
    && (e.isFresh && Standing(before, e.key).Some? ==> e.key in e.expired)
  }

  ghost predicate WellReserved(ttl: int, trace: seq<Event>) {
    forall i :: 0 <= i < |trace| && trace[i].Reservation? ==> ReservationFits(ttl, trace[..i], trace[i])
  }

  predicate Reserves(e: Event, key: IdempotencyKey) {
    e.Reservation? && e.isFresh && e.key == key
  }

  ghost predicate EvictedBetween(trace: seq<Event>, key: IdempotencyKey, i: nat, j: nat)
    requires j <= |trace|
  {
    exists m :: i <= m < j && trace[m].Reservation? && key in trace[m].evicted
  }

  /** The reservation at `k` expires the key's standing reservation, the one made at `i`. */
  ghost predicate ExpiredAt(trace: seq<Event>, key: IdempotencyKey, i: nat, k: nat) {
    i < k < |trace| && trace[k].Reservation? && key in trace[k].expired && trace[i].Reservation?
      && Standing(trace[..k], key) == Some(trace[i].at)
  }

  /** Either the reservation at `i` still stands before `m`, or some reservation in between has expired it. */
  lemma {:induction false} StandsOrExpired(ttl: int, trace: seq<Event>, key: IdempotencyKey, i: nat, m: nat)
    requires WellReserved(ttl, trace) && i < m <= |trace| && Reserves(trace[i], key)
    requires !EvictedBetween(trace, key, i, m)
    ensures Standing(trace[..m], key) == Some(trace[i].at) || exists k :: i < k < m && ExpiredAt(trace, key, i, k)
    decreases m
  {
    var e := trace[m - 1];
    assert trace[..m][..m - 1] == trace[..m - 1];
    assert e.Reservation? ==> key !in e.evicted;
    if m > i + 1 {
      assert !EvictedBetween(trace, key, i, m - 1);
      StandsOrExpired(ttl, trace, key, i, m - 1);
      if Standing(trace[..m - 1], key) == Some(trace[i].at) {
        assert e.Reservation? ==> ReservationFits(ttl, trace[..m - 1], e);
        if e.Reservation? && key in e.expired {
          assert ExpiredAt(trace, key, i, m - 1);
        }
      }
    }
  }

  /**
   A key that was not evicted is reserved again only by, or after, a reservation that
   expires it on a reading at least a lifetime after the first.
   */
  lemma ReservedAgain(ttl: int, trace: seq<Event>, key: IdempotencyKey, i: nat, j: nat) returns (k: nat)
    requires WellReserved(ttl, trace) && i < j < |trace| && Reserves(trace[i], key) && Reserves(trace[j], key)
    requires !EvictedBetween(trace, key, i, j)
    ensures k <= j && ExpiredAt(trace, key, i, k) && trace[i].at + ttl <= trace[k].at
  {
    StandsOrExpired(ttl, trace, key, i, j);
    if Standing(trace[..j], key) == Some(trace[i].at) {
      k := j;
    } else {
      k :| i < k < j && ExpiredAt(trace, key, i, k);
    }
    assert ReservationFits(ttl, trace[..k], trace[k]);
  }

  // ---- the invariant

  lemma {:induction false} KeysOfLookup(es: Entries, k: IdempotencyKey)
    ensures k in KeysOf(es) <==> Lookup(es, k).Some?
  {
    if |es| > 0 {
      KeysOfLookup(es[..|es| - 1], k);
    }
  }

  /** A reservation that stands in the trace is in the store, as old as it was made. */
  ghost predicate StandingStored(trace: seq<Event>, es: Entries) {
    forall key :: Standing(trace, key).Some? ==>
      Lookup(es, key).Some? && Lookup(es, key).value.createdAt == Standing(trace, key).value
  }

  /** The call's own reservation is in the trace. */
  ghost predicate ReservedIn(cfg: Config, trace: seq<Event>, t: Tid, c: ToolCall) {
    exists i :: 0 <= i < |trace| && trace[i].Reservation? && trace[i].caller == t && Reserves(trace[i], KeyOf(cfg, c))
  }

  /** A call is marked reserved exactly while or after it holds a key, and is dispatched only then. */
  ghost predicate CallReserved(cfg: Config, trace: seq<Event>, t: Tid, c: ToolCall) {
    && (c.reserved ==> ReservedIn(cfg, trace, t, c))
    && (!c.reserved ==> c.pc.AtLimit? || c.pc.AtReserve? || c.pc.AtFailAudit? || c.pc.Done?)
  }

  /** The call returned `response` itself, having reserved `key`. */
  predicate Answered(cfg: Config, c: ToolCall, key: IdempotencyKey, response: Response) {
    c.reserved && c.pc == Done(response, false) && KeyOf(cfg, c) == key
  }

  ghost predicate AnsweredBySome(cfg: Config, calls: map<Tid, ToolCall>, key: IdempotencyKey, response: Response) {
    exists t :: t in calls && Answered(cfg, calls[t], key, response)
  }

  /** Every stored response was returned by a call with the key, and so was every replayed one. */
  ghost predicate Sourced(cfg: Config, es: Entries, calls: map<Tid, ToolCall>) {
    && (forall key :: Lookup(es, key).Some? && Lookup(es, key).value.response.Some? ==>
          AnsweredBySome(cfg, calls, key, Lookup(es, key).value.response.value))
    && (forall t :: t in calls && calls[t].pc.Done? && calls[t].pc.replayed ==>
          AnsweredBySome(cfg, calls, KeyOf(cfg, calls[t]), calls[t].pc.response))
  }

  ghost predicate DispatchReserved(cfg: Config, before: seq<Event>, e: Event)
    requires e.Dispatched?
  {
    exists i :: 0 <= i < |before| && before[i].Reservation? && before[i].caller == e.caller
      && Reserves(before[i], IdempotencyKey(e.principal.id, e.request.idempotencyKey))
  }

  ghost predicate Invariant(cfg: Config, s: System) {
    && DistinctKeys(s.store.keys)
    && StandingStored(s.trace, s.store.keys)
    && WellReserved(cfg.idempotencyTtl, s.trace)
    && (forall t :: t in s.calls ==> CallReserved(cfg, s.trace, t, s.calls[t]))
    && Sourced(cfg, s.store.keys, s.calls)
    && (forall i :: 0 <= i < |s.trace| && s.trace[i].Dispatched? ==> DispatchReserved(cfg, s.trace[..i], s.trace[i]))
  }

  // ---- what a step does to the keys

  /** The four things a step can do to the idempotency store. */
  ghost predicate KeysStep(cfg: Config, tid: Tid, s: Store, c: ToolCall, r: StepResult, clock: Time) {
    match c.pc
    case AtReserve => r == ReserveStep(cfg, tid, s, c)
    case AtMarkRunning =>
      r.store.keys == MarkRunningEntries(s.keys, KeyOf(cfg, c)) && r.events == [] && r.call == c.(pc := AtDispatch)
    case AtComplete(response, status) =>
      && r.store.keys == CompleteEntries(s.keys, KeyOf(cfg, c), response, status, clock)
      && r.events == [] && r.call == c.(pc := Done(response, false))
    case _ => r.store.keys == s.keys && QuietForKeys(c, r)
  }

  /** A step away from the idempotency store. */
  ghost predicate QuietForKeys(c: ToolCall, r: StepResult) {
    && r.call.request == c.request && r.call.reserved == c.reserved
    && |r.events| <= 1 && (|r.events| == 1 ==> !r.events[0].Reservation?)
    && (r.call.pc.Done? && r.call.pc.replayed ==> c.pc == r.call.pc)
    && (c.pc.Done? ==> r.call == c)
    && (!c.reserved && (c.pc.AtLimit? || c.pc.AtFailAudit? || c.pc.Done?) ==>
          r.call.pc.AtLimit? || r.call.pc.AtReserve? || r.call.pc.AtFailAudit? || r.call.pc.Done?)
  }

  lemma QuietSteps(cfg: Config, tid: Tid, s: Store, c: ToolCall, tick: Tick)
    requires c.pc.AtLimit? || c.pc.AtLookup? || c.pc.AtVerify? || c.pc.AtCreate? || c.pc.AtPendingAudit?
    ensures var r := Advance(cfg, tid, s, c, tick);
      r.store.keys == s.keys && QuietForKeys(c, r)
  {
  }

  lemma LaterQuietSteps(cfg: Config, tid: Tid, s: Store, c: ToolCall, tick: Tick)
    requires c.pc.AtDispatch? || c.pc.AtMarkFailed? || c.pc.AtMarkExecuted? || c.pc.AtSuccessAudit?
      || c.pc.AtFailAudit? || Finished(c)
    ensures var r := Advance(cfg, tid, s, c, tick);
      r.store.keys == s.keys && QuietForKeys(c, r)
  {
  }

  lemma EveryKeysStep(cfg: Config, tid: Tid, s: Store, c: ToolCall, tick: Tick)
    ensures KeysStep(cfg, tid, s, c, Advance(cfg, tid, s, c, tick), tick.clock)
  {
    if c.pc.AtLimit? || c.pc.AtLookup? || c.pc.AtVerify? || c.pc.AtCreate? || c.pc.AtPendingAudit? {
      QuietSteps(cfg, tid, s, c, tick);
    } else if !c.pc.AtReserve? && !c.pc.AtMarkRunning? && !c.pc.AtComplete? {
      LaterQuietSteps(cfg, tid, s, c, tick);
    }
  }

  // ---- pieces that carry over

  lemma StandingAppend(trace: seq<Event>, events: seq<Event>, key: IdempotencyKey)
    requires |events| <= 1 && (|events| == 1 ==> !events[0].Reservation?)
    ensures Standing(trace + events, key) == Standing(trace, key)
  {
    if |events| == 1 {
      assert (trace + events)[..|trace|] == trace;
    } else {
      assert trace + events == trace;
    }
  }

  lemma StandingReserved(trace: seq<Event>, e: Event, key: IdempotencyKey)
    requires e.Reservation?
    ensures Standing(trace + [e], key) ==
      if key in e.evicted then None
      else if e.isFresh && e.key == key then Some(e.at)
      else if key in e.expired then None
      else Standing(trace, key)
  {
    assert (trace + [e])[..|trace|] == trace;
  }

  lemma WellReservedAppend(ttl: int, trace: seq<Event>, events: seq<Event>)
    requires WellReserved(ttl, trace) && |events| <= 1
    requires |events| == 1 && events[0].Reservation? ==> ReservationFits(ttl, trace, events[0])
    ensures WellReserved(ttl, trace + events)
  {
    forall i | 0 <= i < |trace + events| && (trace + events)[i].Reservation?
      ensures ReservationFits(ttl, (trace + events)[..i], (trace + events)[i])
    {
      if i < |trace| {
        assert (trace + events)[..i] == trace[..i];
      } else {
        assert (trace + events)[..i] == trace;
      }
    }
  }

  lemma CallReservedLonger(cfg: Config, trace: seq<Event>, events: seq<Event>, t: Tid, c: ToolCall)
    requires CallReserved(cfg, trace, t, c)
    ensures CallReserved(cfg, trace + events, t, c)
  {
    if c.reserved {
      var i :| 0 <= i < |trace| && trace[i].Reservation? && trace[i].caller == t && Reserves(trace[i], KeyOf(cfg, c));
      assert (trace + events)[i] == trace[i];
    }
  }

  lemma DispatchesAppend(cfg: Config, trace: seq<Event>, events: seq<Event>)
    requires forall i :: 0 <= i < |trace| && trace[i].Dispatched? ==> DispatchReserved(cfg, trace[..i], trace[i])
    requires |events| <= 1 && (|events| == 1 && events[0].Dispatched? ==> DispatchReserved(cfg, trace, events[0]))
    ensures forall i :: 0 <= i < |trace + events| && (trace + events)[i].Dispatched? ==>
      DispatchReserved(cfg, (trace + events)[..i], (trace + events)[i])
  {
    forall i | 0 <= i < |trace + events| && (trace + events)[i].Dispatched?
      ensures DispatchReserved(cfg, (trace + events)[..i], (trace + events)[i])
    {
      if i < |trace| {
        assert (trace + events)[..i] == trace[..i];
      } else {
        assert (trace + events)[..i] == trace;
      }
    }
  }

  /** A call that has not answered yet is nobody's source, so changing it loses none. */
  lemma SourceStays(
    cfg: Config, calls: map<Tid, ToolCall>, tid: Tid, c': ToolCall, key: IdempotencyKey, response: Response)
    requires tid in calls ==> c' == calls[tid] || !calls[tid].pc.Done?
    requires AnsweredBySome(cfg, calls, key, response)
    ensures AnsweredBySome(cfg, calls[tid := c'], key, response)
  {
    var t :| t in calls && Answered(cfg, calls[t], key, response);
    assert t in calls[tid := c'] && Answered(cfg, calls[tid := c'][t], key, response);
  }

  lemma SourcedAfter(cfg: Config, es: Entries, es': Entries, calls: map<Tid, ToolCall>, tid: Tid, c': ToolCall)
    requires Sourced(cfg, es, calls)
    requires tid in calls ==> c' == calls[tid] || !calls[tid].pc.Done?
    requires c'.pc.Done? && c'.pc.replayed ==> AnsweredBySome(cfg, calls, KeyOf(cfg, c'), c'.pc.response)
    requires forall key :: Lookup(es', key).Some? && Lookup(es', key).value.response.Some? ==>
      || (Lookup(es, key).Some? && Lookup(es, key).value.response == Lookup(es', key).value.response)
      || Answered(cfg, c', key, Lookup(es', key).value.response.value)
    ensures Sourced(cfg, es', calls[tid := c'])
  {
    var calls' := calls[tid := c'];
    forall key | Lookup(es', key).Some? && Lookup(es', key).value.response.Some?
      ensures AnsweredBySome(cfg, calls', key, Lookup(es', key).value.response.value)
    {
      if Answered(cfg, c', key, Lookup(es', key).value.response.value) {
        assert tid in calls' && Answered(cfg, calls'[tid], key, Lookup(es', key).value.response.value);
      } else {
        SourceStays(cfg, calls, tid, c', key, Lookup(es', key).value.response.value);
      }
    }
    forall t | t in calls' && calls'[t].pc.Done? && calls'[t].pc.replayed
      ensures AnsweredBySome(cfg, calls', KeyOf(cfg, calls'[t]), calls'[t].pc.response)
    {
      SourceStays(cfg, calls, tid, c', KeyOf(cfg, calls'[t]), calls'[t].pc.response);
    }
  }

  // ---- the reservation step

  lemma ReserveEvent(cfg: Config, tid: Tid, s: Store, c: ToolCall)
    ensures var r := ReserveStep(cfg, tid, s, c);
      && |r.events| == 1 && r.events[0].Reservation? && r.events[0].caller == tid
      && r.events[0].key == KeyOf(cfg, c) && r.events[0].at == c.now
      && r.events[0].isFresh == ReserveOutcomeOf(s.keys, KeyOf(cfg, c), c.now, cfg.idempotencyTtl).Fresh?
      && r.store.keys == ReserveEntries(s.keys, KeyOf(cfg, c), c.now, cfg.idempotencyTtl, cfg.maxEntries)
      && r.call == c.(pc := r.call.pc, reserved := c.reserved || r.events[0].isFresh)
  {
  }

  /** The keys a reservation removes, as sets. */
  lemma ReserveSets(cfg: Config, tid: Tid, s: Store, c: ToolCall)
    ensures var r := ReserveStep(cfg, tid, s, c); var live := Expire(s.keys, c.now - cfg.idempotencyTtl);
      && r.events[0].Reservation?
      && r.events[0].expired == KeysOf(s.keys) - KeysOf(live)
      && r.events[0].evicted ==
        (if r.events[0].isFresh then KeysOf(live) + {KeyOf(cfg, c)} - KeysOf(r.store.keys) else {})
      && (r.events[0].isFresh <==> Lookup(live, KeyOf(cfg, c)).None?)
      && (!r.events[0].isFresh ==> r.store.keys == live)
  {
  }

  lemma ExpiredKeys(es: Entries, before: Time, key: IdempotencyKey)
    requires DistinctKeys(es)
    ensures key in KeysOf(es) - KeysOf(Expire(es, before)) <==>
      Lookup(es, key).Some? && Lookup(es, key).value.createdAt <= before
    ensures Lookup(Expire(es, before), key).None? && Lookup(es, key).Some? ==>
      key in KeysOf(es) - KeysOf(Expire(es, before))
  {
    LookupExpire(es, before, key);
    KeysOfLookup(es, key);
    KeysOfLookup(Expire(es, before), key);
  }

  /** What a reservation expires, told by lookups. */
  lemma ExpiredByReserve(cfg: Config, tid: Tid, s: Store, c: ToolCall, key: IdempotencyKey)
    requires DistinctKeys(s.keys)
    ensures var e := ReserveStep(cfg, tid, s, c).events[0];
      && (key in e.expired <==>
        Lookup(s.keys, key).Some? && Lookup(s.keys, key).value.createdAt <= c.now - cfg.idempotencyTtl)
      && (e.isFresh && key == KeyOf(cfg, c) && Lookup(s.keys, key).Some? ==> key in e.expired)
  {
    ReserveSets(cfg, tid, s, c);
    ExpiredKeys(s.keys, c.now - cfg.idempotencyTtl, key);
  }

  lemma KeptKeys(es: Entries, live: Entries, es': Entries, k: IdempotencyKey, key: IdempotencyKey)
    requires (Lookup(es, key).Some? && key !in KeysOf(es) - KeysOf(live)) || key == k
    requires key !in KeysOf(live) + {k} - KeysOf(es')
    ensures Lookup(es', key).Some?
  {
    KeysOfLookup(es, key);
    KeysOfLookup(es', key);
  }

  /** What neither expires nor is evicted stays, as does the new record. */
  lemma KeptByReserve(cfg: Config, tid: Tid, s: Store, c: ToolCall, key: IdempotencyKey)
    ensures var r := ReserveStep(cfg, tid, s, c); var e := r.events[0];
      && (Lookup(s.keys, key).Some? && key !in e.expired && key !in e.evicted ==> Lookup(r.store.keys, key).Some?)
      && (e.isFresh && key == KeyOf(cfg, c) && key !in e.evicted ==> Lookup(r.store.keys, key).Some?)
  {
    var r := ReserveStep(cfg, tid, s, c);
    var e, live := r.events[0], Expire(s.keys, c.now - cfg.idempotencyTtl);
    ReserveSets(cfg, tid, s, c);
    if e.isFresh {
      if key !in e.evicted && ((Lookup(s.keys, key).Some? && key !in e.expired) || key == KeyOf(cfg, c)) {
        KeptKeys(s.keys, live, r.store.keys, KeyOf(cfg, c), key);
      }
    } else {
      KeysOfLookup(s.keys, key);
      KeysOfLookup(live, key);
    }
  }

  lemma ReserveStoresStanding(cfg: Config, tid: Tid, trace: seq<Event>, s: Store, c: ToolCall)
    requires DistinctKeys(s.keys) && StandingStored(trace, s.keys)
    ensures var r := ReserveStep(cfg, tid, s, c);
      && DistinctKeys(r.store.keys) && StandingStored(trace + r.events, r.store.keys)
      && ReservationFits(cfg.idempotencyTtl, trace, r.events[0])
  {
    var r := ReserveStep(cfg, tid, s, c);
    var e := r.events[0];
    ReserveEvent(cfg, tid, s, c);
    ReserveEffect(s.keys, KeyOf(cfg, c), c.now, cfg.idempotencyTtl, cfg.maxEntries, KeyOf(cfg, c));
    assert r.events == [e];
    forall key | Standing(trace + r.events, key).Some?
      ensures Lookup(r.store.keys, key).Some?
      ensures Lookup(r.store.keys, key).value.createdAt == Standing(trace + r.events, key).value
    {
      StandingReserved(trace, e, key);
      ExpiredByReserve(cfg, tid, s, c, key);
      KeptByReserve(cfg, tid, s, c, key);
      ReserveEffect(s.keys, KeyOf(cfg, c), c.now, cfg.idempotencyTtl, cfg.maxEntries, key);
      if e.isFresh {
        FreshRecord(s.keys, KeyOf(cfg, c), c.now, cfg.idempotencyTtl, cfg.maxEntries);
      }
    }
    forall key
      ensures key in e.expired && Standing(trace, key).Some? ==> Standing(trace, key).value + cfg.idempotencyTtl <= e.at
      ensures e.isFresh && key == e.key && Standing(trace, key).Some? ==> key in e.expired
    {
      ExpiredByReserve(cfg, tid, s, c, key);
    }
  }

  lemma ReplayIsStored(es: Entries, k: IdempotencyKey, now: Time, ttl: int, response: Response)
    requires DistinctKeys(es) && ReserveOutcomeOf(es, k, now, ttl) == Replay(response)
    ensures Lookup(es, k).Some? && Lookup(es, k).value.response == Some(response)
  {
    LookupExpire(es, now - ttl, k);
  }

  /** A reservation returns nothing but a replay of the stored response, and stores none. */
  lemma ReserveReplays(cfg: Config, tid: Tid, s: Store, c: ToolCall)
    requires DistinctKeys(s.keys)
    ensures var r := ReserveStep(cfg, tid, s, c);
      && KeyOf(cfg, r.call) == KeyOf(cfg, c)
      && (r.call.pc.Done? ==>
        Lookup(s.keys, KeyOf(cfg, c)).Some? && Lookup(s.keys, KeyOf(cfg, c)).value.response == Some(r.call.pc.response))
  {
    var outcome := ReserveOutcomeOf(s.keys, KeyOf(cfg, c), c.now, cfg.idempotencyTtl);
    if outcome.Replay? {
      ReplayIsStored(s.keys, KeyOf(cfg, c), c.now, cfg.idempotencyTtl, outcome.response);
    }
  }

  lemma ReserveSources(cfg: Config, tid: Tid, s: Store, calls: map<Tid, ToolCall>, c: ToolCall)
    requires DistinctKeys(s.keys) && Sourced(cfg, s.keys, calls) && tid in calls && calls[tid] == c && c.pc.AtReserve?
    ensures var r := ReserveStep(cfg, tid, s, c);
      Sourced(cfg, r.store.keys, calls[tid := r.call])
  {
    var r := ReserveStep(cfg, tid, s, c);
    ReserveReplays(cfg, tid, s, c);
    ReserveEvent(cfg, tid, s, c);
    forall key
      ensures var found := Lookup(r.store.keys, key);
        found.Some? && found.value.response.Some? ==>
          Lookup(s.keys, key).Some? && Lookup(s.keys, key).value.response == found.value.response
    {
      ReserveEffect(s.keys, KeyOf(cfg, c), c.now, cfg.idempotencyTtl, cfg.maxEntries, key);
    }
    SourcedAfter(cfg, s.keys, r.store.keys, calls, tid, r.call);
  }

  lemma ReserveMarksCall(cfg: Config, tid: Tid, trace: seq<Event>, s: Store, c: ToolCall)
    requires CallReserved(cfg, trace, tid, c) && c.pc.AtReserve?
    ensures var r := ReserveStep(cfg, tid, s, c);
      CallReserved(cfg, trace + r.events, tid, r.call)
  {
    var r := ReserveStep(cfg, tid, s, c);
    ReserveEvent(cfg, tid, s, c);
    if c.reserved {
      CallReservedLonger(cfg, trace, r.events, tid, c);
    } else if r.events[0].isFresh {
      assert (trace + r.events)[|trace|] == r.events[0];
    }
  }

  // ---- the other steps

  lemma PutKeeps(cfg: Config, trace: seq<Event>, es: Entries, key: IdempotencyKey, record: Record)
    requires DistinctKeys(es) && StandingStored(trace, es)
    requires Lookup(es, key).Some? ==> record.createdAt == Lookup(es, key).value.createdAt
    ensures DistinctKeys(Put(es, key, record)) && StandingStored(trace, Put(es, key, record))
  {
    LookupPut(es, key, record, key);
    forall k | Standing(trace, k).Some?
      ensures Lookup(Put(es, key, record), k).Some?
      ensures Lookup(Put(es, key, record), k).value.createdAt == Standing(trace, k).value
    {
      LookupPut(es, key, record, k);
    }
  }

  lemma RunningKeeps(
    cfg: Config, trace: seq<Event>, es: Entries, calls: map<Tid, ToolCall>, tid: Tid, c': ToolCall, key: IdempotencyKey)
    requires DistinctKeys(es) && StandingStored(trace, es) && Sourced(cfg, es, calls)
    requires tid in calls && !calls[tid].pc.Done? && !c'.pc.Done?
    ensures var es' := MarkRunningEntries(es, key);
      DistinctKeys(es') && StandingStored(trace, es') && Sourced(cfg, es', calls[tid := c'])
  {
    var es' := MarkRunningEntries(es, key);
    if Lookup(es, key).Some? {
      var record := Lookup(es, key).value.(status := Running);
      PutKeeps(cfg, trace, es, key, record);
      forall k
        ensures Lookup(es', k).Some? ==>
          Lookup(es, k).Some? && Lookup(es', k).value.response == Lookup(es, k).value.response
      {
        LookupPut(es, key, record, k);
      }
    }
    SourcedAfter(cfg, es, es', calls, tid, c');
  }

  lemma CompleteKeeps(
    cfg: Config, trace: seq<Event>, es: Entries, calls: map<Tid, ToolCall>, tid: Tid, response: Response,
      status: OperationStatus, clock: Time)
    requires DistinctKeys(es) && StandingStored(trace, es) && Sourced(cfg, es, calls)
    requires tid in calls && calls[tid].reserved && calls[tid].pc.AtComplete?
    ensures var es' := CompleteEntries(es, KeyOf(cfg, calls[tid]), response, status, clock);
      && DistinctKeys(es') && StandingStored(trace, es')
      && Sourced(cfg, es', calls[tid := calls[tid].(pc := Done(response, false))])
  {
    var key, c' := KeyOf(cfg, calls[tid]), calls[tid].(pc := Done(response, false));
    var es' := CompleteEntries(es, key, response, status, clock);
    var record := Record(if Lookup(es, key).Some? then Lookup(es, key).value.createdAt else clock, status,
      Some(response));
    PutKeeps(cfg, trace, es, key, record);
    forall k
      ensures Lookup(es', k) == if k == key then Some(record) else Lookup(es, k)
    {
      LookupPut(es, key, record, k);
    }
    assert KeyOf(cfg, c') == key && Answered(cfg, c', key, response);
    SourcedAfter(cfg, es, es', calls, tid, c');
  }

  /** The dispatching call's reservation is in the trace. */
  lemma DispatchIsReserved(cfg: Config, trace: seq<Event>, tid: Tid, s: Store, c: ToolCall, tick: Tick)
    requires CallReserved(cfg, trace, tid, c)
    ensures var r := Advance(cfg, tid, s, c, tick);
      |r.events| == 1 && r.events[0].Dispatched? ==> DispatchReserved(cfg, trace, r.events[0])
  {
    var r := Advance(cfg, tid, s, c, tick);
    if |r.events| == 1 && r.events[0].Dispatched? {
      assert c.pc.AtDispatch? && c.reserved;
      var i :| 0 <= i < |trace| && trace[i].Reservation? && trace[i].caller == tid && Reserves(trace[i], KeyOf(cfg, c));
      assert trace[i].caller == r.events[0].caller;
    }
  }

  /** The parts of the invariant that a changed call and new keys must keep. */
  ghost predicate KeepsKeys(cfg: Config, s: System, tid: Tid, r: StepResult) {
    && |r.events| <= 1
    && DistinctKeys(r.store.keys)
    && StandingStored(s.trace + r.events, r.store.keys)
    && (|r.events| == 1 && r.events[0].Reservation? ==> ReservationFits(cfg.idempotencyTtl, s.trace, r.events[0]))
    && CallReserved(cfg, s.trace + r.events, tid, r.call)
    && Sourced(cfg, r.store.keys, s.calls[tid := r.call])
  }

  lemma QuietKeeps(cfg: Config, s: System, tid: Tid, r: StepResult)
    requires Invariant(cfg, s) && tid in s.calls && !s.calls[tid].pc.AtReserve? && !s.calls[tid].pc.AtMarkRunning?
    requires !s.calls[tid].pc.AtComplete?
    requires r.store.keys == s.store.keys && QuietForKeys(s.calls[tid], r)
    ensures KeepsKeys(cfg, s, tid, r)
  {
    var c := s.calls[tid];
    forall key
      ensures Standing(s.trace + r.events, key) == Standing(s.trace, key)
    {
      StandingAppend(s.trace, r.events, key);
    }
    CallReservedLonger(cfg, s.trace, r.events, tid, c);
    assert KeyOf(cfg, r.call) == KeyOf(cfg, c);
    SourcedAfter(cfg, s.store.keys, r.store.keys, s.calls, tid, r.call);
  }

  lemma StepKeepsKeys(cfg: Config, s: System, tid: Tid, r: StepResult, clock: Time)
    requires Invariant(cfg, s) && tid in s.calls && KeysStep(cfg, tid, s.store, s.calls[tid], r, clock)
    ensures KeepsKeys(cfg, s, tid, r)
  {
    var c := s.calls[tid];
    assert CallReserved(cfg, s.trace, tid, c);
    match c.pc
    case AtReserve =>
      ReserveEvent(cfg, tid, s.store, c);
      ReserveStoresStanding(cfg, tid, s.trace, s.store, c);
      ReserveSources(cfg, tid, s.store, s.calls, c);
      ReserveMarksCall(cfg, tid, s.trace, s.store, c);
    case AtMarkRunning =>
      assert s.trace + [] == s.trace;
      RunningKeeps(cfg, s.trace, s.store.keys, s.calls, tid, r.call, KeyOf(cfg, c));
    case AtComplete(response, status) =>
      assert s.trace + [] == s.trace;
      CompleteKeeps(cfg, s.trace, s.store.keys, s.calls, tid, response, status, clock);
    case _ => QuietKeeps(cfg, s, tid, r);
  }

  lemma AfterCallStep(cfg: Config, s: System, tid: Tid, r: StepResult)
    requires Invariant(cfg, s) && tid in s.calls && KeepsKeys(cfg, s, tid, r)
    requires |r.events| == 1 && r.events[0].Dispatched? ==> DispatchReserved(cfg, s.trace, r.events[0])
    ensures Invariant(cfg, s.(store := r.store, calls := s.calls[tid := r.call], trace := s.trace + r.events))
  {
    WellReservedAppend(cfg.idempotencyTtl, s.trace, r.events);
    DispatchesAppend(cfg, s.trace, r.events);
    forall t | t in s.calls && t != tid
      ensures CallReserved(cfg, s.trace + r.events, t, s.calls[t])
    {
      CallReservedLonger(cfg, s.trace, r.events, t, s.calls[t]);
    }
  }

  lemma StepCallKeeps(cfg: Config, s: System, tid: Tid, tick: Tick)
    requires Invariant(cfg, s) && tid in s.calls
    ensures Invariant(cfg, Act(cfg, s, StepCall(tid, tick)))
  {
    var r := Advance(cfg, tid, s.store, s.calls[tid], tick);
    EveryKeysStep(cfg, tid, s.store, s.calls[tid], tick);
    StepKeepsKeys(cfg, s, tid, r, tick.clock);
    DispatchIsReserved(cfg, s.trace, tid, s.store, s.calls[tid], tick);
    AfterCallStep(cfg, s, tid, r);
  }

  /** A step of no call: the keys stay, and a grant or a refusal is all it can add to the trace. */
  lemma OtherStepKeeps(cfg: Config, s: System, s': System, events: seq<Event>)
    requires Invariant(cfg, s) && s'.store.keys == s.store.keys && s'.calls == s.calls && s'.trace == s.trace + events
    requires |events| <= 1 && (|events| == 1 ==> events[0].Granted? || events[0].Refused?)
    ensures Invariant(cfg, s')
  {
    WellReservedAppend(cfg.idempotencyTtl, s.trace, events);
    DispatchesAppend(cfg, s.trace, events);
    forall key
      ensures Standing(s'.trace, key) == Standing(s.trace, key)
    {
      StandingAppend(s.trace, events, key);
    }
    forall t | t in s.calls
      ensures CallReserved(cfg, s'.trace, t, s.calls[t])
    {
      CallReservedLonger(cfg, s.trace, events, t, s.calls[t]);
    }
  }

  lemma StartKeeps(cfg: Config, s: System, tid: Tid, c: ToolCall)
    requires Invariant(cfg, s) && tid !in s.calls && !c.reserved && (c.pc.AtLimit? || c.pc.AtFailAudit?)
    ensures Invariant(cfg, s.(calls := s.calls[tid := c]))
  {
    SourcedAfter(cfg, s.store.keys, s.store.keys, s.calls, tid, c);
  }

  lemma ActKeeps(cfg: Config, s: System, action: Action)
    requires Invariant(cfg, s)
    ensures Invariant(cfg, Act(cfg, s, action))
  {
    match action
    case StartCall(tid, request, now) =>
      if tid !in s.calls {
        StartKeeps(cfg, s, tid, ToolCall(request, now, Admission(cfg, request), false, None));
      }
    case StepCall(tid, tick) =>
      if tid in s.calls {
        StepCallKeeps(cfg, s, tid, tick);
      }
    case StepRuling(tid) =>
      if tid in s.rulings {
        OtherStepKeeps(cfg, s, Act(cfg, s, action), Rule(cfg, s.store, s.rulings[tid]).events);
      }
    case _ =>
      assert s.trace + [] == s.trace;
      OtherStepKeeps(cfg, s, Act(cfg, s, action), []);
  }

  lemma {:induction false} RunInvariant(cfg: Config, actions: seq<Action>)
    ensures Invariant(cfg, Run(cfg, actions))
  {
    if |actions| > 0 {
      RunInvariant(cfg, actions[..|actions| - 1]);
      ActKeeps(cfg, Run(cfg, actions[..|actions| - 1]), actions[|actions| - 1]);
    }
  }

  // ---- the guarantees

  /** In every interleaving a replayed response is one that a call holding the same key returned itself. */
  lemma ReplayIsSourced(cfg: Config, actions: seq<Action>, t: Tid)
    requires var calls := Run(cfg, actions).calls; t in calls && calls[t].pc.Done? && calls[t].pc.replayed
    ensures var calls := Run(cfg, actions).calls;
      AnsweredBySome(cfg, calls, KeyOf(cfg, calls[t]), calls[t].pc.response)
  {
    RunInvariant(cfg, actions);
  }

  /**
   If two calls with one principal and key are both dispatched, each had made a
   reservation of that key; and the earlier of the two was evicted or was expired, at or
   before the later one, on a reading at least a lifetime after it.
   */
  lemma DispatchesApart(cfg: Config, actions: seq<Action>, p: nat, q: nat) returns (i: nat, j: nat)
    requires var trace := Run(cfg, actions).trace;
      && p < |trace| && q < |trace| && trace[p].Dispatched? && trace[q].Dispatched?
        && trace[p].caller != trace[q].caller
      && trace[p].principal.id == trace[q].principal.id
      && trace[p].request.idempotencyKey == trace[q].request.idempotencyKey
    ensures var trace := Run(cfg, actions).trace;
      var key := IdempotencyKey(trace[p].principal.id, trace[p].request.idempotencyKey);
      && i < p && j < q && i != j && Reserves(trace[i], key) && Reserves(trace[j], key)
      && trace[i].caller == trace[p].caller && trace[j].caller == trace[q].caller
      && Separated(cfg.idempotencyTtl, trace, key, if i < j then i else j, if i < j then j else i)
  {
    var trace := Run(cfg, actions).trace;
    var key := IdempotencyKey(trace[p].principal.id, trace[p].request.idempotencyKey);
    RunInvariant(cfg, actions);
    i := ReservationBehind(cfg, trace, p);
    j := ReservationBehind(cfg, trace, q);
    ReservationsSeparated(cfg.idempotencyTtl, trace, key, if i < j then i else j, if i < j then j else i);
  }

  /** The reservation at `i` was evicted before the one at `j`, or expired at or before it. */
  ghost predicate Separated(ttl: int, trace: seq<Event>, key: IdempotencyKey, i: nat, j: nat)
    requires i < j < |trace|
  {
    || EvictedBetween(trace, key, i, j)
    || exists k: nat :: k <= j && ExpiredAt(trace, key, i, k) && trace[i].at + ttl <= trace[k].at
  }

  lemma ReservationsSeparated(ttl: int, trace: seq<Event>, key: IdempotencyKey, i: nat, j: nat)
    requires WellReserved(ttl, trace) && i < j < |trace| && Reserves(trace[i], key) && Reserves(trace[j], key)
    ensures Separated(ttl, trace, key, i, j)
  {
    if !EvictedBetween(trace, key, i, j) {
      var k := ReservedAgain(ttl, trace, key, i, j);
    }
  }

  lemma ReservationBehind(cfg: Config, trace: seq<Event>, p: nat) returns (i: nat)
    requires p < |trace| && trace[p].Dispatched? && DispatchReserved(cfg, trace[..p], trace[p])
    ensures i < p && trace[i].Reservation? && trace[i].caller == trace[p].caller
    ensures Reserves(trace[i], IdempotencyKey(trace[p].principal.id, trace[p].request.idempotencyKey))
  {
    i :| 0 <= i < |trace[..p]| && trace[..p][i].Reservation? && trace[..p][i].caller == trace[p].caller
      && Reserves(trace[..p][i], IdempotencyKey(trace[p].principal.id, trace[p].request.idempotencyKey));
  }
}
