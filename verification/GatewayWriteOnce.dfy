/**
 What a replay repeats.  If a key is reserved anew only while no call owes it a response,
 a stored response is the one the key's latest holder returned, and so is every replay of
 it, whatever happens to other keys.
 */
module GatewayWriteOnce {
  import opened Wrappers
  import opened GatewayTypes
  import opened Idempotency
  import opened GatewayMachine
  import opened K = GatewayKeys
  import opened C = GatewayCompleting

  /** A fresh reservation of the key finds no call that owes it a response. */
  ghost predicate ReservesAlone(cfg: Config, s: System, action: Action, key: IdempotencyKey) {
    ReservesAnew(cfg, s, action, key) ==> !SomeOwing(cfg, s.calls, key)
  }

  ghost predicate OwnedRun(cfg: Config, actions: seq<Action>, key: IdempotencyKey) {
    |actions| > 0 ==>
      && OwnedRun(cfg, actions[..|actions| - 1], key)
      && ReservesAlone(cfg, Run(cfg, actions[..|actions| - 1]), actions[|actions| - 1], key)
  }

  lemma {:induction false} OwnedIsSettled(cfg: Config, actions: seq<Action>, key: IdempotencyKey)
    requires OwnedRun(cfg, actions, key)
    ensures SettledRun(cfg, actions, key)
  {
    if |actions| > 0 {
      OwnedIsSettled(cfg, actions[..|actions| - 1], key);
    }
  }

  /** The call that made the latest fresh reservation of the key. */
  ghost function LastHolder(trace: seq<Event>, key: IdempotencyKey): Option<Tid> {
    if |trace| == 0 then None
    else if Reserves(trace[|trace| - 1], key) then Some(trace[|trace| - 1].caller)
    else LastHolder(trace[..|trace| - 1], key)
  }

  lemma LastHolderAppend(trace: seq<Event>, events: seq<Event>, key: IdempotencyKey)
    requires |events| <= 1
    ensures LastHolder(trace + events, key) ==
      if |events| == 1 && Reserves(events[0], key) then Some(events[0].caller) else LastHolder(trace, key)
  {
    if |events| == 1 {
      assert (trace + events)[..|trace|] == trace;
    } else {
      assert trace + events == trace;
    }
  }

  /** The latest holder of the key returned the response. */
  ghost predicate AnsweredByLast(
    cfg: Config, trace: seq<Event>, calls: map<Tid, ToolCall>, key: IdempotencyKey, response: Response) {
    var t := LastHolder(trace, key);
    t.Some? && t.value in calls && Answered(cfg, calls[t.value], key, response)
  }

  /** A call that owes the key a response is its latest holder, and nothing is stored for it yet. */
  ghost predicate OwnsAlone(cfg: Config, s: System, key: IdempotencyKey) {
    forall t :: t in s.calls && Owes(cfg, s.calls[t], key) ==>
      LastHolder(s.trace, key) == Some(t) && StoredResponse(s.store.keys, key).None?
  }

  /** A stored response is what the key's latest holder returned. */
  ghost predicate StoredByLast(cfg: Config, s: System, key: IdempotencyKey) {
    var stored := StoredResponse(s.store.keys, key);
    stored.Some? ==> AnsweredByLast(cfg, s.trace, s.calls, key, stored.value)
  }

  ghost predicate Invariant(cfg: Config, s: System, key: IdempotencyKey) {
    OwnsAlone(cfg, s, key) && StoredByLast(cfg, s, key)
  }

  lemma AfterCall(cfg: Config, s: System, tid: Tid, r: StepResult, key: IdempotencyKey)
    requires AllSound(s) && Invariant(cfg, s, key) && tid in s.calls
    requires OwingStep(cfg, tid, s.store, s.calls[tid], r, key)
    requires ReservesFresh(cfg, s.store, s.calls[tid], key) ==> !SomeOwing(cfg, s.calls, key)
    ensures Invariant(cfg, s.(store := r.store, calls := s.calls[tid := r.call], trace := s.trace + r.events), key)
  {
    var c, calls' := s.calls[tid], s.calls[tid := r.call];
    LastHolderAppend(s.trace, r.events, key);
    assert Sound(c);
    if c.pc.AtComplete? && KeyOf(cfg, c) == key {
      assert Owes(cfg, c, key);
    }
    forall t | t in calls' && Owes(cfg, calls'[t], key)
      ensures LastHolder(s.trace + r.events, key) == Some(t) && StoredResponse(r.store.keys, key).None?
    {
      if t in s.calls && Owes(cfg, s.calls[t], key) {
        assert SomeOwing(cfg, s.calls, key);
      }
    }
  }

  lemma CallKeeps(cfg: Config, s: System, tid: Tid, tick: Tick, key: IdempotencyKey)
    requires AllSound(s) && Invariant(cfg, s, key) && tid in s.calls && ReservesAlone(cfg, s, StepCall(tid, tick), key)
    ensures Invariant(cfg, Act(cfg, s, StepCall(tid, tick)), key)
  {
    assert Sound(s.calls[tid]);
    C.EveryStep(cfg, tid, s.store, s.calls[tid], tick, key);
    AfterCall(cfg, s, tid, Advance(cfg, tid, s.store, s.calls[tid], tick), key);
  }

  /** A step of no call reserves and stores nothing. */
  lemma OtherKeeps(cfg: Config, s: System, s': System, events: seq<Event>, key: IdempotencyKey)
    requires Invariant(cfg, s, key) && s'.store.keys == s.store.keys && s'.calls == s.calls
    requires s'.trace == s.trace + events
    requires |events| <= 1 && (|events| == 1 ==> !events[0].Reservation?)
    ensures Invariant(cfg, s', key)
  {
    LastHolderAppend(s.trace, events, key);
  }

  lemma StartKeeps(cfg: Config, s: System, tid: Tid, c: ToolCall, key: IdempotencyKey)
    requires Invariant(cfg, s, key) && tid !in s.calls && !c.reserved
    ensures Invariant(cfg, s.(calls := s.calls[tid := c]), key)
  {
  }

  lemma ActKeeps(cfg: Config, s: System, action: Action, key: IdempotencyKey)
    requires AllSound(s) && Invariant(cfg, s, key) && ReservesAlone(cfg, s, action, key)
    ensures Invariant(cfg, Act(cfg, s, action), key)
  {
    match action
    case StartCall(tid, request, now) =>
      if tid !in s.calls {
        StartKeeps(cfg, s, tid, ToolCall(request, now, Admission(cfg, request), false, None), key);
      }
    case StepCall(tid, tick) =>
      if tid in s.calls {
        CallKeeps(cfg, s, tid, tick, key);
      }
    case StepRuling(tid) =>
      if tid in s.rulings {
        OtherKeeps(cfg, s, Act(cfg, s, action), Rule(cfg, s.store, s.rulings[tid]).events, key);
      }
    case _ =>
      assert s.trace + [] == s.trace;
      OtherKeeps(cfg, s, Act(cfg, s, action), [], key);
  }

  lemma {:induction false} RunInvariant(cfg: Config, actions: seq<Action>, key: IdempotencyKey)
    requires OwnedRun(cfg, actions, key)
    ensures Invariant(cfg, Run(cfg, actions), key)
  {
    if |actions| > 0 {
      RunInvariant(cfg, actions[..|actions| - 1], key);
      RunSound(cfg, actions[..|actions| - 1]);
      ActKeeps(cfg, Run(cfg, actions[..|actions| - 1]), actions[|actions| - 1], key);
    }
  }

  /** A reservation that replays in such a run repeats what the key's latest holder returned. */
  lemma ReplayIsLastAnswer(cfg: Config, actions: seq<Action>, t: Tid, response: Response)
    requires t in Run(cfg, actions).calls && OwnedRun(cfg, actions, KeyOf(cfg, Run(cfg, actions).calls[t]))
    requires var s := Run(cfg, actions);
      ReserveOutcomeOf(s.store.keys, KeyOf(cfg, s.calls[t]), s.calls[t].now, cfg.idempotencyTtl) == Replay(response)
    ensures var s := Run(cfg, actions);
      AnsweredByLast(cfg, s.trace, s.calls, KeyOf(cfg, s.calls[t]), response)
  {
    var s := Run(cfg, actions);
    RunInvariant(cfg, actions, KeyOf(cfg, s.calls[t]));
    RunSound(cfg, actions);
    ReplayIsStored(s.store.keys, KeyOf(cfg, s.calls[t]), s.calls[t].now, cfg.idempotencyTtl, response);
  }
}
