/**
 When a replay repeats another response than the key's latest holder returned, exactly.
 After a run in which keys are reserved anew only while no call owes them a response, the
 next fresh reservation of a key makes such a replay possible precisely when some call
 still owes the key one: the late completion is what is replayed from then on.
 */
module GatewayReplays {
  import opened Wrappers
  import opened GatewayTypes
  import opened Idempotency
  import opened GatewayMachine
  import K = GatewayKeys
  import opened C = GatewayCompleting
  import opened O = GatewayWriteOnce

  /** A reservation on some reading is answered with a response that the key's latest holder has not returned. */
  ghost predicate ReplaysAnother(cfg: Config, s: System, key: IdempotencyKey) {
    exists now: Time, response: Response ::
      && ReserveOutcomeOf(s.store.keys, key, now, cfg.idempotencyTtl) == Replay(response)
      && !AnsweredByLast(cfg, s.trace, s.calls, key, response)
  }

  /** So it can come without a further fresh reservation of the key. */
  ghost predicate CanReplayAnother(cfg: Config, s: System, key: IdempotencyKey) {
    exists more :: NoneReservesAnew(cfg, s, more, key) && ReplaysAnother(cfg, From(cfg, s, more), key)
  }

  // ---- while nobody else owes the key a response

  lemma OwnedAppend(cfg: Config, before: seq<Action>, a: Action, key: IdempotencyKey)
    requires OwnedRun(cfg, before, key) && ReservesAlone(cfg, Run(cfg, before), a, key)
    ensures OwnedRun(cfg, before + [a], key) && Run(cfg, before + [a]) == Act(cfg, Run(cfg, before), a)
  {
    assert (before + [a])[..|before|] == before;
  }

  lemma MoveOne(before: seq<Action>, more: seq<Action>)
    requires |more| > 0
    ensures before + more == (before + [more[0]]) + more[1..]
  {
  }

  lemma {:induction false} OwnedGoesOn(cfg: Config, before: seq<Action>, more: seq<Action>, key: IdempotencyKey)
    requires OwnedRun(cfg, before, key) && NoneReservesAnew(cfg, Run(cfg, before), more, key)
    ensures OwnedRun(cfg, before + more, key)
    decreases |more|
  {
    if |more| == 0 {
      assert before + more == before;
    } else {
      OwnedAppend(cfg, before, more[0], key);
      OwnedGoesOn(cfg, before + [more[0]], more[1..], key);
      MoveOne(before, more);
    }
  }

  lemma OwnedReplaysLast(cfg: Config, actions: seq<Action>, key: IdempotencyKey)
    requires OwnedRun(cfg, actions, key)
    ensures !ReplaysAnother(cfg, Run(cfg, actions), key)
  {
    var s := Run(cfg, actions);
    O.RunInvariant(cfg, actions, key);
    RunSound(cfg, actions);
    forall now: Time, response: Response | ReserveOutcomeOf(s.store.keys, key, now, cfg.idempotencyTtl) ==
      Replay(response)
      ensures AnsweredByLast(cfg, s.trace, s.calls, key, response)
    {
      K.ReplayIsStored(s.store.keys, key, now, cfg.idempotencyTtl, response);
    }
  }

  lemma OwnedCannotReplayAnother(cfg: Config, actions: seq<Action>, key: IdempotencyKey)
    requires OwnedRun(cfg, actions, key)
    ensures !CanReplayAnother(cfg, Run(cfg, actions), key)
  {
    forall more | NoneReservesAnew(cfg, Run(cfg, actions), more, key)
      ensures !ReplaysAnother(cfg, From(cfg, Run(cfg, actions), more), key)
    {
      OwnedGoesOn(cfg, actions, more, key);
      OwnedReplaysLast(cfg, actions + more, key);
      RunThenFrom(cfg, actions, more);
    }
  }

  // ---- the latest holder

  lemma ActKeepsHolder(cfg: Config, s: System, action: Action, key: IdempotencyKey)
    requires AllSound(s) && !ReservesAnew(cfg, s, action, key)
    ensures LastHolder(Act(cfg, s, action).trace, key) == LastHolder(s.trace, key)
  {
    if action.StepCall? && action.tid in s.calls {
      assert Sound(s.calls[action.tid]);
      C.EveryStep(cfg, action.tid, s.store, s.calls[action.tid], action.tick, key);
      LastHolderAppend(s.trace, Advance(cfg, action.tid, s.store, s.calls[action.tid], action.tick).events, key);
    } else if action.StepRuling? && action.tid in s.rulings {
      LastHolderAppend(s.trace, Rule(cfg, s.store, s.rulings[action.tid]).events, key);
    }
  }

  lemma {:induction false} HolderStays(cfg: Config, before: seq<Action>, more: seq<Action>, key: IdempotencyKey)
    requires NoneReservesAnew(cfg, Run(cfg, before), more, key)
    ensures LastHolder(From(cfg, Run(cfg, before), more).trace, key) == LastHolder(Run(cfg, before).trace, key)
    decreases |more|
  {
    if |more| > 0 {
      RunSound(cfg, before);
      ActKeepsHolder(cfg, Run(cfg, before), more[0], key);
      assert (before + [more[0]])[..|before|] == before;
      HolderStays(cfg, before + [more[0]], more[1..], key);
    }
  }

  /** The call that reserves the key is its latest holder and has not answered. */
  ghost predicate HeldBy(s: System, tid: Tid, key: IdempotencyKey) {
    LastHolder(s.trace, key) == Some(tid) && tid in s.calls && !s.calls[tid].pc.Done?
  }

  lemma ReserverHolds(cfg: Config, s: System, tid: Tid, tick: Tick, key: IdempotencyKey)
    requires AllSound(s) && ReservesAnew(cfg, s, StepCall(tid, tick), key)
    ensures HeldBy(Act(cfg, s, StepCall(tid, tick)), tid, key)
  {
    var r := Advance(cfg, tid, s.store, s.calls[tid], tick);
    assert Sound(s.calls[tid]);
    C.EveryStep(cfg, tid, s.store, s.calls[tid], tick, key);
    LastHolderAppend(s.trace, r.events, key);
    assert !r.call.pc.Done?;
  }

  // ---- every completion is final

  predicate EndsFinal(c: ToolCall) {
    c.pc.AtComplete? ==> Terminal(c.pc.status)
  }

  lemma StepEndsFinal(cfg: Config, tid: Tid, s: Store, c: ToolCall, tick: Tick)
    requires EndsFinal(c)
    ensures EndsFinal(Advance(cfg, tid, s, c, tick).call)
  {
  }

  lemma {:induction false} RunEndsFinal(cfg: Config, actions: seq<Action>)
    ensures forall t :: t in Run(cfg, actions).calls ==> EndsFinal(Run(cfg, actions).calls[t])
  {
    if |actions| > 0 {
      var s, a := Run(cfg, actions[..|actions| - 1]), actions[|actions| - 1];
      RunEndsFinal(cfg, actions[..|actions| - 1]);
      if a.StepCall? && a.tid in s.calls {
        StepEndsFinal(cfg, a.tid, s.store, s.calls[a.tid], a.tick);
      }
    }
  }

  // ---- a late completion is replayed

  /** A completed key is replayed on the very reading of its creation. */
  lemma CompletedIsReplayed(
    es: Entries, k: IdempotencyKey, response: Response, status: OperationStatus, clock: Time, ttl: int)
    returns (now: Time)
    requires DistinctKeys(es) && Terminal(status) && ttl > 0
    ensures ReserveOutcomeOf(CompleteEntries(es, k, response, status, clock), k, now, ttl) == Replay(response)
  {
    var found := Lookup(es, k);
    now := if found.Some? then found.value.createdAt else clock;
    LookupPut(es, k, Record(now, status, Some(response)), k);
    LookupExpire(CompleteEntries(es, k, response, status, clock), now - ttl, k);
  }

  lemma LastStepReplays(cfg: Config, s: System, u: Tid, key: IdempotencyKey) returns (now: Time)
    requires DistinctKeys(s.store.keys) && cfg.idempotencyTtl > 0
    requires u in s.calls && s.calls[u].pc.AtComplete? && EndsFinal(s.calls[u]) && KeyOf(cfg, s.calls[u]) == key
    ensures ReserveOutcomeOf(Act(cfg, s, StepCall(u, BACK)).store.keys, key, now, cfg.idempotencyTtl) ==
      Replay(s.calls[u].pc.response)
  {
    var pc := s.calls[u].pc;
    now := CompletedIsReplayed(s.store.keys, key, pc.response, pc.status, BACK.clock, cfg.idempotencyTtl);
  }

  /** Let the call that still owes the key a response complete it, with the key held by another one. */
  lemma OwingReplaysAnother(cfg: Config, before: seq<Action>, t: Tid, u: Tid, key: IdempotencyKey)
    requires cfg.idempotencyTtl > 0 && t != u && HeldBy(Run(cfg, before), t, key)
    requires u in Run(cfg, before).calls && Owes(cfg, Run(cfg, before).calls[u], key)
    ensures CanReplayAnother(cfg, Run(cfg, before), key)
  {
    var s, a := Run(cfg, before), StepCall(u, BACK);
    RunSound(cfg, before);
    var front := ReachesCompletion(cfg, s, u);
    var s1 := From(cfg, s, front);
    RunThenFrom(cfg, before, front);
    RunEndsFinal(cfg, before + front);
    var now := LastStepReplays(cfg, s1, u, key);
    assert NoneReservesAnew(cfg, s1, [a], key);
    NoneReservesThen(cfg, s, front, [a], key);
    FromAppend(cfg, s, front, a);
    HolderStays(cfg, before, front + [a], key);
    var s2 := From(cfg, s, front + [a]);
    assert t in s2.calls && s2.calls[t] == s.calls[t];
    assert !AnsweredByLast(cfg, s2.trace, s2.calls, key, s1.calls[u].pc.response);
  }

  /**
   A fresh reservation that ends a so far owned run makes a replay of another response
   possible exactly when some call still owes the key one.
   */
  lemma ReservationAllowsAnotherReplayIff(cfg: Config, actions: seq<Action>, tid: Tid, tick: Tick, key: IdempotencyKey)
    requires cfg.idempotencyTtl > 0 && OwnedRun(cfg, actions, key)
    requires ReservesAnew(cfg, Run(cfg, actions), StepCall(tid, tick), key)
    ensures CanReplayAnother(cfg, Run(cfg, actions + [StepCall(tid, tick)]), key) <==>
      SomeOwing(cfg, Run(cfg, actions).calls, key)
  {
    var s, next := Run(cfg, actions), actions + [StepCall(tid, tick)];
    assert next[..|actions|] == actions;
    if SomeOwing(cfg, s.calls, key) {
      var u :| u in s.calls && Owes(cfg, s.calls[u], key);
      RunSound(cfg, actions);
      ReserverHolds(cfg, s, tid, tick, key);
      OwingReplaysAnother(cfg, next, tid, u, key);
    } else {
      OwnedAppend(cfg, actions, StepCall(tid, tick), key);
      OwnedCannotReplayAnother(cfg, next, key);
    }
  }
}
