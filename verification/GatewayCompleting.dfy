/**
 When a stored response can be overwritten, exactly.  A call that has reserved a key and
 goes on to dispatch or fail owes the key a response; a call that only asks for approval
 never completes its key.  A stored response can be replaced precisely when a key is
 reserved anew, after an expiry or an eviction, by a call that will owe it a response
 while another call still does.
 */
module GatewayCompleting {
  import opened Wrappers
  import opened GatewayTypes
  import opened Idempotency
  import opened GatewayMachine
  import K = GatewayKeys

  /** The call has reserved its key and will complete it if it is not cut short. */
  predicate Completing(c: ToolCall) {
    && c.reserved
    && (c.pc.AtLookup? ==> c.request.approvalId.Some?)
    && (|| c.pc.AtLookup? || c.pc.AtVerify? || c.pc.AtMarkRunning? || c.pc.AtDispatch? || c.pc.AtMarkFailed?
        || c.pc.AtMarkExecuted? || c.pc.AtSuccessAudit? || c.pc.AtFailAudit? || c.pc.AtComplete?)
  }

  predicate Owes(cfg: Config, c: ToolCall, key: IdempotencyKey) {
    Completing(c) && KeyOf(cfg, c) == key
  }

  function StoredResponse(es: Entries, k: IdempotencyKey): Option<Response> {
    var found := Lookup(es, k);
    if found.Some? then found.value.response else None
  }

  /** A call is about to complete the key over a stored response. */
  ghost predicate Overwriting(cfg: Config, s: System, key: IdempotencyKey) {
    && StoredResponse(s.store.keys, key).Some?
    && exists t :: t in s.calls && s.calls[t].pc.AtComplete? && KeyOf(cfg, s.calls[t]) == key
  }

  ghost predicate ReservesFresh(cfg: Config, s: Store, c: ToolCall, key: IdempotencyKey) {
    c.pc.AtReserve? && KeyOf(cfg, c) == key && ReserveOutcomeOf(s.keys, key, c.now, cfg.idempotencyTtl) == Fresh
  }

  /** The action is a fresh reservation of the key. */
  ghost predicate ReservesAnew(cfg: Config, s: System, action: Action, key: IdempotencyKey) {
    action.StepCall? && action.tid in s.calls && ReservesFresh(cfg, s.store, s.calls[action.tid], key)
  }

  /** Once it has reserved its key, the call does not stop to ask for approval. */
  predicate GoesOn(cfg: Config, c: ToolCall) {
    !ToolOf(cfg, c).requiresApproval || c.request.approvalId.Some?
  }

  // ---- one step of one call

  /** What a step does to the key, to what the call owes it and to its stored response. */
  ghost predicate OwingStep(cfg: Config, tid: Tid, s: Store, c: ToolCall, r: StepResult, key: IdempotencyKey) {
    && KeyOf(cfg, r.call) == KeyOf(cfg, c)
    && (Owes(cfg, r.call, key) ==> Owes(cfg, c, key) || (ReservesFresh(cfg, s, c, key) && GoesOn(cfg, c)))
    && (ReservesFresh(cfg, s, c, key) && GoesOn(cfg, c) ==> Owes(cfg, r.call, key))
    && (StoredResponse(r.store.keys, key).Some? ==>
          StoredResponse(r.store.keys, key) == StoredResponse(s.keys, key) || StoresAnswer(cfg, s, c, r, key))
    && (c.pc.AtComplete? && KeyOf(cfg, c) == key ==> StoresAnswer(cfg, s, c, r, key))
    && (ReservesFresh(cfg, s, c, key) ==> StoredResponse(r.store.keys, key).None?)
    && (r.call.pc.AtLimit? || r.call.pc.AtReserve? ==> !r.call.reserved)
    && (c.pc.Done? ==> r.call == c)
    && |r.events| <= 1
    && (ReservesFresh(cfg, s, c, key) <==> |r.events| == 1 && K.Reserves(r.events[0], key))
    && (ReservesFresh(cfg, s, c, key) ==> r.events[0].caller == tid)
  }

  /** The call completes the key, with its own response, and has returned it. */
  ghost predicate StoresAnswer(cfg: Config, s: Store, c: ToolCall, r: StepResult, key: IdempotencyKey) {
    && c.pc.AtComplete? && KeyOf(cfg, c) == key
    && r.call == c.(pc := Done(c.pc.response, false))
    && StoredResponse(r.store.keys, key) == Some(c.pc.response)
  }

  /** A step away from the key's store: what the call owes it owed before. */
  ghost predicate OwesNothingNew(cfg: Config, c: ToolCall, r: StepResult) {
    && KeyOf(cfg, r.call) == KeyOf(cfg, c)
    && (Completing(r.call) ==> Completing(c))
    && (r.call.pc.AtLimit? || r.call.pc.AtReserve? ==> !r.call.reserved)
  }

  lemma EarlyStep(cfg: Config, tid: Tid, s: Store, c: ToolCall, tick: Tick)
    requires (c.pc.AtLimit? ==> !c.reserved)
    requires (c.pc.AtLimit? || c.pc.AtLookup? || c.pc.AtVerify? || c.pc.AtCreate? || c.pc.AtPendingAudit?)
    ensures OwesNothingNew(cfg, c, Advance(cfg, tid, s, c, tick))
  {
  }

  lemma LaterStep(cfg: Config, tid: Tid, s: Store, c: ToolCall, tick: Tick)
    requires c.pc.AtMarkRunning? || c.pc.AtDispatch? || c.pc.AtMarkFailed? || c.pc.AtMarkExecuted?
    ensures OwesNothingNew(cfg, c, Advance(cfg, tid, s, c, tick))
  {
  }

  lemma LastStep(cfg: Config, tid: Tid, s: Store, c: ToolCall, tick: Tick)
    requires c.pc.AtSuccessAudit? || c.pc.AtFailAudit? || c.pc.AtComplete? || Finished(c)
    ensures OwesNothingNew(cfg, c, Advance(cfg, tid, s, c, tick))
  {
  }

  lemma RunningKeepsStored(es: Entries, k: IdempotencyKey, key: IdempotencyKey)
    requires DistinctKeys(es)
    ensures StoredResponse(MarkRunningEntries(es, k), key) == StoredResponse(es, key)
  {
    if Lookup(es, k).Some? {
      LookupPut(es, k, Lookup(es, k).value.(status := Running), key);
    }
  }

  lemma CompletionStores(
    es: Entries, k: IdempotencyKey, response: Response, status: OperationStatus, clock: Time, key: IdempotencyKey)
    requires DistinctKeys(es)
    ensures DistinctKeys(CompleteEntries(es, k, response, status, clock))
    ensures StoredResponse(CompleteEntries(es, k, response, status, clock), key) ==
      if key == k then Some(response) else StoredResponse(es, key)
  {
    var found := Lookup(es, k);
    LookupPut(es, k, Record(if found.Some? then found.value.createdAt else clock, status, Some(response)), key);
  }

  lemma ReservationStoresNothing(
    es: Entries, k: IdempotencyKey, now: Time, ttl: int, maxEntries: nat, key: IdempotencyKey)
    requires DistinctKeys(es)
    ensures StoredResponse(ReserveEntries(es, k, now, ttl, maxEntries), key).Some? ==>
      StoredResponse(ReserveEntries(es, k, now, ttl, maxEntries), key) == StoredResponse(es, key)
    ensures ReserveOutcomeOf(es, k, now, ttl) == Fresh ==>
      StoredResponse(ReserveEntries(es, k, now, ttl, maxEntries), k).None?
  {
    ReserveEffect(es, k, now, ttl, maxEntries, key);
    if ReserveOutcomeOf(es, k, now, ttl) == Fresh {
      FreshRecord(es, k, now, ttl, maxEntries);
    }
  }

  lemma ReservationStep(cfg: Config, tid: Tid, s: Store, c: ToolCall, key: IdempotencyKey)
    requires DistinctKeys(s.keys) && c.pc.AtReserve? && !c.reserved
    ensures OwingStep(cfg, tid, s, c, ReserveStep(cfg, tid, s, c), key)
  {
    ReservationStoresNothing(s.keys, KeyOf(cfg, c), c.now, cfg.idempotencyTtl, cfg.maxEntries, key);
    ReservedCall(cfg, tid, s, c);
    K.ReserveEvent(cfg, tid, s, c);
  }

  /** A fresh reservation makes a call that goes on owe its key a response; any other leaves it owing nothing. */
  lemma ReservedCall(cfg: Config, tid: Tid, s: Store, c: ToolCall)
    requires c.pc.AtReserve? && !c.reserved
    ensures var r := ReserveStep(cfg, tid, s, c);
      && r.call.request == c.request && !r.call.pc.AtLimit? && !r.call.pc.AtReserve?
      && (Completing(r.call) <==>
        ReserveOutcomeOf(s.keys, KeyOf(cfg, c), c.now, cfg.idempotencyTtl) == Fresh && GoesOn(cfg, c))
      && r.store.keys == ReserveEntries(s.keys, KeyOf(cfg, c), c.now, cfg.idempotencyTtl, cfg.maxEntries)
  {
  }

  /** A step that owes nothing new and whose effect on the store is known. */
  lemma KnownStep(cfg: Config, tid: Tid, s: Store, c: ToolCall, r: StepResult, key: IdempotencyKey, clock: Time)
    requires DistinctKeys(s.keys) && !c.pc.AtReserve? && OwesNothingNew(cfg, c, r)
    requires K.KeysStep(cfg, tid, s, c, r, clock)
    ensures OwingStep(cfg, tid, s, c, r, key)
  {
    match c.pc
    case AtMarkRunning => RunningKeepsStored(s.keys, KeyOf(cfg, c), key);
    case AtComplete(response, status) => CompletionStores(s.keys, KeyOf(cfg, c), response, status, clock, key);
    case _ =>
  }

  lemma EveryStep(cfg: Config, tid: Tid, s: Store, c: ToolCall, tick: Tick, key: IdempotencyKey)
    requires DistinctKeys(s.keys) && (c.pc.AtLimit? || c.pc.AtReserve? ==> !c.reserved)
    ensures OwingStep(cfg, tid, s, c, Advance(cfg, tid, s, c, tick), key)
  {
    if c.pc.AtReserve? {
      ReservationStep(cfg, tid, s, c, key);
    } else {
      if c.pc.AtLimit? || c.pc.AtLookup? || c.pc.AtVerify? || c.pc.AtCreate? || c.pc.AtPendingAudit? {
        EarlyStep(cfg, tid, s, c, tick);
      } else if c.pc.AtMarkRunning? || c.pc.AtDispatch? || c.pc.AtMarkFailed? || c.pc.AtMarkExecuted? {
        LaterStep(cfg, tid, s, c, tick);
      } else {
        LastStep(cfg, tid, s, c, tick);
      }
      K.EveryKeysStep(cfg, tid, s, c, tick);
      KnownStep(cfg, tid, s, c, Advance(cfg, tid, s, c, tick), key, tick.clock);
    }
  }

  // ---- what every run keeps

  /** A call reserves once, and completes only a key it has reserved. */
  ghost predicate Sound(c: ToolCall) {
    && (c.pc.AtLimit? || c.pc.AtReserve? ==> !c.reserved)
    && (c.pc.AtComplete? ==> c.reserved)
  }

  ghost predicate AllSound(s: System) {
    DistinctKeys(s.store.keys) && forall t :: t in s.calls ==> Sound(s.calls[t])
  }

  ghost predicate EntersOnce(calls: map<Tid, ToolCall>) {
    forall t :: t in calls && (calls[t].pc.AtLimit? || calls[t].pc.AtReserve?) ==> !calls[t].reserved
  }

  lemma ActKeeps(cfg: Config, s: System, action: Action)
    requires DistinctKeys(s.store.keys) && EntersOnce(s.calls)
    ensures EntersOnce(Act(cfg, s, action).calls)
  {
    if action.StepCall? && action.tid in s.calls {
      EveryStep(cfg, action.tid, s.store, s.calls[action.tid], action.tick, KeyOf(cfg, s.calls[action.tid]));
    }
  }

  lemma {:induction false} RunEntersOnce(cfg: Config, actions: seq<Action>)
    ensures EntersOnce(Run(cfg, actions).calls)
  {
    if |actions| > 0 {
      RunEntersOnce(cfg, actions[..|actions| - 1]);
      K.RunInvariant(cfg, actions[..|actions| - 1]);
      ActKeeps(cfg, Run(cfg, actions[..|actions| - 1]), actions[|actions| - 1]);
    }
  }

  lemma RunSound(cfg: Config, actions: seq<Action>)
    ensures AllSound(Run(cfg, actions))
  {
    var s := Run(cfg, actions);
    RunEntersOnce(cfg, actions);
    K.RunInvariant(cfg, actions);
    forall t | t in s.calls
      ensures Sound(s.calls[t])
    {
      assert K.CallReserved(cfg, s.trace, t, s.calls[t]);
    }
  }

  // ---- when a stored response can be overwritten

  /** Two calls owe the key a response, or one does and a response is stored already. */
  ghost predicate AtRisk(cfg: Config, s: System, key: IdempotencyKey) {
    || (StoredResponse(s.store.keys, key).Some? && SomeOwing(cfg, s.calls, key))
    || exists t, u :: t in s.calls && u in s.calls && t != u && Owes(cfg, s.calls[t], key) && Owes(cfg, s.calls[u], key)
  }

  ghost predicate SomeOwing(cfg: Config, calls: map<Tid, ToolCall>, key: IdempotencyKey) {
    exists t :: t in calls && Owes(cfg, calls[t], key)
  }

  /** The key is not reserved anew in the course of the actions. */
  ghost predicate NoneReservesAnew(cfg: Config, s: System, actions: seq<Action>, key: IdempotencyKey)
    decreases |actions|
  {
    |actions| > 0 ==>
      !ReservesAnew(cfg, s, actions[0], key) && NoneReservesAnew(cfg, Act(cfg, s, actions[0]), actions[1..], key)
  }

  ghost predicate CanOverwrite(cfg: Config, s: System, key: IdempotencyKey) {
    exists more :: NoneReservesAnew(cfg, s, more, key) && Overwriting(cfg, From(cfg, s, more), key)
  }

  /** A call that reserves nothing anew leaves the key as safe as it was. */
  lemma StepIsSafe(cfg: Config, s: System, tid: Tid, r: StepResult, key: IdempotencyKey)
    requires AllSound(s) && !AtRisk(cfg, s, key) && tid in s.calls && OwingStep(cfg, tid, s.store, s.calls[tid], r, key)
    requires !ReservesFresh(cfg, s.store, s.calls[tid], key)
    ensures !AtRisk(cfg, s.(store := r.store, calls := s.calls[tid := r.call], trace := s.trace + r.events), key)
  {
    var calls' := s.calls[tid := r.call];
    assert forall t :: t in calls' && Owes(cfg, calls'[t], key) ==> t in s.calls && Owes(cfg, s.calls[t], key);
    if StoredResponse(r.store.keys, key).Some? && StoredResponse(s.store.keys, key).None? {
      assert Sound(s.calls[tid]) && Owes(cfg, s.calls[tid], key);
    }
  }

  lemma CallIsSafe(cfg: Config, s: System, tid: Tid, tick: Tick, key: IdempotencyKey)
    requires AllSound(s) && !AtRisk(cfg, s, key) && tid in s.calls && !ReservesFresh(cfg, s.store, s.calls[tid], key)
    ensures !AtRisk(cfg, Act(cfg, s, StepCall(tid, tick)), key)
  {
    assert Sound(s.calls[tid]);
    EveryStep(cfg, tid, s.store, s.calls[tid], tick, key);
    StepIsSafe(cfg, s, tid, Advance(cfg, tid, s.store, s.calls[tid], tick), key);
  }

  /** Only a fresh reservation of the key can put it at risk. */
  lemma OtherActionsAreSafe(cfg: Config, s: System, action: Action, key: IdempotencyKey)
    requires AllSound(s) && !AtRisk(cfg, s, key) && !ReservesAnew(cfg, s, action, key)
    ensures !AtRisk(cfg, Act(cfg, s, action), key)
  {
    if action.StepCall? && action.tid in s.calls {
      CallIsSafe(cfg, s, action.tid, action.tick, key);
    }
  }

  lemma {:induction false} SafeStaysSafe(cfg: Config, before: seq<Action>, more: seq<Action>, key: IdempotencyKey)
    requires !AtRisk(cfg, Run(cfg, before), key) && NoneReservesAnew(cfg, Run(cfg, before), more, key)
    ensures !AtRisk(cfg, From(cfg, Run(cfg, before), more), key)
    decreases |more|
  {
    if |more| > 0 {
      RunSound(cfg, before);
      OtherActionsAreSafe(cfg, Run(cfg, before), more[0], key);
      assert (before + [more[0]])[..|before|] == before;
      SafeStaysSafe(cfg, before + [more[0]], more[1..], key);
    }
  }

  lemma OverwritingIsAtRisk(cfg: Config, s: System, key: IdempotencyKey)
    requires AllSound(s) && Overwriting(cfg, s, key)
    ensures AtRisk(cfg, s, key)
  {
    var t :| t in s.calls && s.calls[t].pc.AtComplete? && KeyOf(cfg, s.calls[t]) == key;
    assert Sound(s.calls[t]) && Owes(cfg, s.calls[t], key);
  }

  // ---- making the overwriting happen

  const BACK := Tick(0, Id(0), Returned(JNull))

  /** A completing call comes nearer its completion and touches its own record's status at most. */
  ghost predicate Nearer(cfg: Config, s: Store, c: ToolCall, r: StepResult) {
    && Completing(r.call) && r.call.request == c.request && Rank(r.call.pc) < Rank(c.pc)
    && (r.store.keys == s.keys || r.store.keys == MarkRunningEntries(s.keys, KeyOf(cfg, c)))
  }

  lemma FirstHalfNearer(cfg: Config, tid: Tid, s: Store, c: ToolCall)
    requires Completing(c) && (c.pc.AtLookup? || c.pc.AtVerify? || c.pc.AtMarkRunning? || c.pc.AtDispatch?)
    ensures Nearer(cfg, s, c, Advance(cfg, tid, s, c, BACK))
  {
  }

  lemma SecondHalfNearer(cfg: Config, tid: Tid, s: Store, c: ToolCall)
    requires Completing(c) && (c.pc.AtMarkFailed? || c.pc.AtMarkExecuted? || c.pc.AtSuccessAudit? || c.pc.AtFailAudit?)
    ensures Nearer(cfg, s, c, Advance(cfg, tid, s, c, BACK))
  {
  }

  /** What a schedule for one call leaves of the others and of the stored responses. */
  ghost predicate OnlyMoves(cfg: Config, s: System, t: Tid, s': System) {
    && t in s.calls && t in s'.calls && s'.calls[t].request == s.calls[t].request
    && s'.calls == s.calls[t := s'.calls[t]]
    && DistinctKeys(s'.store.keys)
    && forall key :: StoredResponse(s'.store.keys, key) == StoredResponse(s.store.keys, key)
  }

  lemma NearerMoves(cfg: Config, s: System, t: Tid, r: StepResult)
    requires t in s.calls && DistinctKeys(s.store.keys) && Nearer(cfg, s.store, s.calls[t], r)
    ensures OnlyMoves(cfg, s, t, s.(store := r.store, calls := s.calls[t := r.call], trace := s.trace + r.events))
  {
    var k := KeyOf(cfg, s.calls[t]);
    if Lookup(s.store.keys, k).Some? {
      LookupPut(s.store.keys, k, Lookup(s.store.keys, k).value.(status := Running), k);
    }
    forall key
      ensures StoredResponse(r.store.keys, key) == StoredResponse(s.store.keys, key)
    {
      RunningKeepsStored(s.store.keys, k, key);
    }
  }

  lemma MovesNearer(cfg: Config, s: System, t: Tid)
    requires t in s.calls && DistinctKeys(s.store.keys) && Completing(s.calls[t]) && !s.calls[t].pc.AtComplete?
    ensures var s' := Act(cfg, s, StepCall(t, BACK));
      OnlyMoves(cfg, s, t, s') && Completing(s'.calls[t]) && Rank(s'.calls[t].pc) < Rank(s.calls[t].pc)
  {
    var c := s.calls[t];
    if c.pc.AtLookup? || c.pc.AtVerify? || c.pc.AtMarkRunning? || c.pc.AtDispatch? {
      FirstHalfNearer(cfg, t, s.store, c);
    } else {
      SecondHalfNearer(cfg, t, s.store, c);
    }
    NearerMoves(cfg, s, t, Advance(cfg, t, s.store, c, BACK));
  }

  /** A completing call can always be brought to its completion. */
  lemma {:induction false} ReachesCompletion(cfg: Config, s: System, t: Tid) returns (more: seq<Action>)
    requires t in s.calls && DistinctKeys(s.store.keys) && Completing(s.calls[t])
    ensures var s' := From(cfg, s, more);
      OnlyMoves(cfg, s, t, s') && s'.calls[t].pc.AtComplete?
    ensures forall key :: NoneReservesAnew(cfg, s, more, key)
    decreases Rank(s.calls[t].pc)
  {
    if s.calls[t].pc.AtComplete? {
      more := [];
    } else {
      var a := StepCall(t, BACK);
      var s1 := Act(cfg, s, a);
      MovesNearer(cfg, s, t);
      var rest := ReachesCompletion(cfg, s1, t);
      more := [a] + rest;
      assert more[1..] == rest;
      MovesTransitive(cfg, s, s1, From(cfg, s1, rest), t);
    }
  }

  lemma MovesTransitive(cfg: Config, a: System, b: System, c: System, t: Tid)
    requires OnlyMoves(cfg, a, t, b) && OnlyMoves(cfg, b, t, c)
    ensures OnlyMoves(cfg, a, t, c)
  {
    forall key
      ensures StoredResponse(c.store.keys, key) == StoredResponse(a.store.keys, key)
    {
      assert StoredResponse(b.store.keys, key) == StoredResponse(a.store.keys, key);
    }
  }

  lemma {:induction false} NoneReservesThen(
    cfg: Config, s: System, first: seq<Action>, second: seq<Action>, key: IdempotencyKey)
    requires NoneReservesAnew(cfg, s, first, key) && NoneReservesAnew(cfg, From(cfg, s, first), second, key)
    ensures NoneReservesAnew(cfg, s, first + second, key)
    decreases |first|
  {
    if |first| == 0 {
      assert first + second == second;
    } else {
      assert (first + second)[1..] == first[1..] + second && (first + second)[0] == first[0];
      NoneReservesThen(cfg, Act(cfg, s, first[0]), first[1..], second, key);
    }
  }

  lemma StoredRiskIsReal(cfg: Config, s: System, t: Tid, key: IdempotencyKey) returns (more: seq<Action>)
    requires DistinctKeys(s.store.keys) && t in s.calls && Owes(cfg, s.calls[t], key)
    requires StoredResponse(s.store.keys, key).Some?
    ensures NoneReservesAnew(cfg, s, more, key) && Overwriting(cfg, From(cfg, s, more), key)
  {
    more := ReachesCompletion(cfg, s, t);
    assert KeyOf(cfg, From(cfg, s, more).calls[t]) == key;
  }

  /** A call at its completion stores its response. */
  lemma Completes(cfg: Config, s: System, t: Tid)
    requires t in s.calls && s.calls[t].pc.AtComplete? && DistinctKeys(s.store.keys)
    ensures var s' := Act(cfg, s, StepCall(t, BACK));
      && DistinctKeys(s'.store.keys) && s'.calls == s.calls[t := s.calls[t].(pc := Done(s.calls[t].pc.response, false))]
      && StoredResponse(s'.store.keys, KeyOf(cfg, s.calls[t])) == Some(s.calls[t].pc.response)
  {
    var c := s.calls[t];
    CompletionStores(s.store.keys, KeyOf(cfg, c), c.pc.response, c.pc.status, BACK.clock, KeyOf(cfg, c));
  }

  lemma FirstCompletes(cfg: Config, s: System, t: Tid, u: Tid, key: IdempotencyKey) returns (more: seq<Action>)
    requires DistinctKeys(s.store.keys) && t != u && t in s.calls && u in s.calls
    requires Owes(cfg, s.calls[t], key) && Owes(cfg, s.calls[u], key)
    ensures NoneReservesAnew(cfg, s, more, key)
    ensures var s' := From(cfg, s, more);
      DistinctKeys(s'.store.keys) && u in s'.calls && Owes(cfg, s'.calls[u], key)
        && StoredResponse(s'.store.keys, key).Some?
  {
    var a := StepCall(t, BACK);
    var front := ReachesCompletion(cfg, s, t);
    var s1 := From(cfg, s, front);
    Completes(cfg, s1, t);
    more := front + [a];
    FromAppend(cfg, s, front, a);
    assert [a][1..] == [];
    assert NoneReservesAnew(cfg, s1, [a], key);
    NoneReservesThen(cfg, s, front, [a], key);
  }

  lemma RiskIsReal(cfg: Config, s: System, key: IdempotencyKey)
    requires DistinctKeys(s.store.keys) && AtRisk(cfg, s, key)
    ensures CanOverwrite(cfg, s, key)
  {
    if StoredResponse(s.store.keys, key).Some? && SomeOwing(cfg, s.calls, key) {
      var t :| t in s.calls && Owes(cfg, s.calls[t], key);
      var more := StoredRiskIsReal(cfg, s, t, key);
    } else {
      var t, u :| t in s.calls && u in s.calls && t != u && Owes(cfg, s.calls[t], key) && Owes(cfg, s.calls[u], key);
      var first := FirstCompletes(cfg, s, t, u, key);
      var second := StoredRiskIsReal(cfg, From(cfg, s, first), u, key);
      NoneReservesThen(cfg, s, first, second, key);
      FromThenFrom(cfg, s, first, second);
    }
  }

  /**
   From any reachable state, without a further fresh reservation of the key, a stored response
   can be overwritten exactly when it is at risk.
   */
  lemma OverwriteIff(cfg: Config, actions: seq<Action>, key: IdempotencyKey)
    ensures CanOverwrite(cfg, Run(cfg, actions), key) <==> AtRisk(cfg, Run(cfg, actions), key)
  {
    var s := Run(cfg, actions);
    RunSound(cfg, actions);
    if AtRisk(cfg, s, key) {
      RiskIsReal(cfg, s, key);
    } else if CanOverwrite(cfg, s, key) {
      var more :| NoneReservesAnew(cfg, s, more, key) && Overwriting(cfg, From(cfg, s, more), key);
      RunThenFrom(cfg, actions, more);
      RunSound(cfg, actions + more);
      OverwritingIsAtRisk(cfg, From(cfg, s, more), key);
      SafeStaysSafe(cfg, actions, more, key);
    }
  }

  // ---- the reservation that brings it about

  /**
   A fresh reservation puts its key at risk exactly when the call goes on and another call
   still owes the key a response.
   */
  lemma ReservationPutsAtRiskIff(cfg: Config, s: System, tid: Tid, tick: Tick, key: IdempotencyKey)
    requires AllSound(s) && !AtRisk(cfg, s, key) && ReservesAnew(cfg, s, StepCall(tid, tick), key)
    ensures AtRisk(cfg, Act(cfg, s, StepCall(tid, tick)), key) <==>
      GoesOn(cfg, s.calls[tid]) && SomeOwing(cfg, s.calls, key)
  {
    assert Sound(s.calls[tid]);
    EveryStep(cfg, tid, s.store, s.calls[tid], tick, key);
    ReserverOwes(cfg, s, tid, Advance(cfg, tid, s.store, s.calls[tid], tick), key);
  }

  lemma ReserverOwes(cfg: Config, s: System, tid: Tid, r: StepResult, key: IdempotencyKey)
    requires !AtRisk(cfg, s, key) && tid in s.calls && ReservesFresh(cfg, s.store, s.calls[tid], key)
    requires OwingStep(cfg, tid, s.store, s.calls[tid], r, key)
    ensures AtRisk(cfg, s.(store := r.store, calls := s.calls[tid := r.call], trace := s.trace + r.events), key)
      <==> GoesOn(cfg, s.calls[tid]) && SomeOwing(cfg, s.calls, key)
  {
    var calls' := s.calls[tid := r.call];
    assert !Owes(cfg, s.calls[tid], key);
    assert forall t :: t in calls' && t != tid ==> t in s.calls && calls'[t] == s.calls[t];
    if GoesOn(cfg, s.calls[tid]) && SomeOwing(cfg, s.calls, key) {
      var t :| t in s.calls && Owes(cfg, s.calls[t], key);
      assert t in calls' && tid in calls' && t != tid && Owes(cfg, calls'[t], key) && Owes(cfg, calls'[tid], key);
    }
  }

  /**
   A fresh reservation opens the way to an overwriting exactly when the call goes on and
   another call still owes the key a response.
   */
  lemma ReservationAllowsOverwriteIff(cfg: Config, actions: seq<Action>, tid: Tid, tick: Tick, key: IdempotencyKey)
    requires !AtRisk(cfg, Run(cfg, actions), key) && ReservesAnew(cfg, Run(cfg, actions), StepCall(tid, tick), key)
    ensures CanOverwrite(cfg, Run(cfg, actions + [StepCall(tid, tick)]), key)
      <==> GoesOn(cfg, Run(cfg, actions).calls[tid]) && SomeOwing(cfg, Run(cfg, actions).calls, key)
  {
    RunSound(cfg, actions);
    ReservationPutsAtRiskIff(cfg, Run(cfg, actions), tid, tick, key);
    assert (actions + [StepCall(tid, tick)])[..|actions|] == actions;
    OverwriteIff(cfg, actions + [StepCall(tid, tick)], key);
  }

  // ---- runs in which no owed key is reserved anew

  /** The key is reserved anew, by a call that goes on, only while no call owes it a response. */
  ghost predicate SettledRun(cfg: Config, actions: seq<Action>, key: IdempotencyKey) {
    |actions| > 0 ==>
      && SettledRun(cfg, actions[..|actions| - 1], key)
      && Settles(cfg, Run(cfg, actions[..|actions| - 1]), actions[|actions| - 1], key)
  }

  ghost predicate Settles(cfg: Config, s: System, action: Action, key: IdempotencyKey) {
    ReservesAnew(cfg, s, action, key) && GoesOn(cfg, s.calls[action.tid]) ==> !SomeOwing(cfg, s.calls, key)
  }

  lemma {:induction false} NeverAtRisk(cfg: Config, actions: seq<Action>, key: IdempotencyKey)
    requires SettledRun(cfg, actions, key)
    ensures !AtRisk(cfg, Run(cfg, actions), key)
  {
    if |actions| > 0 {
      var front, a := actions[..|actions| - 1], actions[|actions| - 1];
      NeverAtRisk(cfg, front, key);
      RunSound(cfg, front);
      if ReservesAnew(cfg, Run(cfg, front), a, key) {
        ReservationPutsAtRiskIff(cfg, Run(cfg, front), a.tid, a.tick, key);
      } else {
        OtherActionsAreSafe(cfg, Run(cfg, front), a, key);
      }
    }
  }

  /** In such a run no completion of the key finds a response to overwrite, whatever happens to other keys. */
  lemma NothingOverwritten(cfg: Config, actions: seq<Action>, key: IdempotencyKey)
    requires SettledRun(cfg, actions, key)
    ensures !Overwriting(cfg, Run(cfg, actions), key)
  {
    RunSound(cfg, actions);
    if Overwriting(cfg, Run(cfg, actions), key) {
      OverwritingIsAtRisk(cfg, Run(cfg, actions), key);
      NeverAtRisk(cfg, actions, key);
    }
  }
}
