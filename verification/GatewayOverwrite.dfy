/**
 Overwritings that happen: runs from the initial state in which a stored response is
 replaced by a different one, after the key has expired under its holder and after it has
 been evicted.
 */
module GatewayOverwrite {
  import opened Wrappers
  import opened GatewayTypes
  import opened Idempotency
  import opened GatewayMachine
  import C = GatewayCompleting
  import opened R = GatewayReuse

  function AnswerOf(cfg: Config, c: ToolCall, result: Json): Response {
    Response(true, Allowed, c.request.correlationId, ToolOf(cfg, c).toolName, ResultBody(result))
  }

  // ---- a holder runs up to its completion

  /** The system after a step of call `tid` that changes neither the approvals nor the limiter. */
  ghost predicate StepTo(s: System, tid: Tid, keys: Entries, c: ToolCall, s': System) {
    s'.store.keys == keys && s'.store.calls == s.store.calls && s'.calls == s.calls[tid := c]
  }

  lemma RunningStep(cfg: Config, s: System, tid: Tid, tick: Tick)
    requires tid in s.calls && s.calls[tid].pc.AtMarkRunning?
    ensures StepTo(s, tid, MarkRunningEntries(s.store.keys, KeyOf(cfg, s.calls[tid])), s.calls[tid].(pc := AtDispatch),
      Act(cfg, s, StepCall(tid, tick)))
  {
  }

  lemma DispatchStepTo(cfg: Config, s: System, tid: Tid, tick: Tick)
    requires tid in s.calls && s.calls[tid].pc.AtDispatch? && s.calls[tid].approval.None? && tick.outcome.Returned?
    ensures StepTo(s, tid, s.store.keys, s.calls[tid].(pc := AtSuccessAudit(tick.outcome.result)),
      Act(cfg, s, StepCall(tid, tick)))
  {
  }

  lemma SuccessStep(cfg: Config, s: System, tid: Tid, tick: Tick)
    requires tid in s.calls && s.calls[tid].pc.AtSuccessAudit?
    ensures StepTo(s, tid, s.store.keys,
                   s.calls[tid].(pc := AtComplete(AnswerOf(cfg, s.calls[tid], s.calls[tid].pc.result), Succeeded)),
                   Act(cfg, s, StepCall(tid, tick)))
  {
  }

  lemma LastThreeSteps(cfg: Config, s: System, tid: Tid, tick: Tick)
    requires tid in s.calls && s.calls[tid].pc.AtMarkRunning? && s.calls[tid].approval.None? && tick.outcome.Returned?
    ensures var a, c := StepCall(tid, tick), s.calls[tid];
      StepTo(s, tid, MarkRunningEntries(s.store.keys, KeyOf(cfg, c)),
             c.(pc := AtComplete(AnswerOf(cfg, c, tick.outcome.result), Succeeded)),
               Act(cfg, Act(cfg, Act(cfg, s, a), a), a))
  {
    var a := StepCall(tid, tick);
    RunningStep(cfg, s, tid, tick);
    DispatchStepTo(cfg, Act(cfg, s, a), tid, tick);
    SuccessStep(cfg, Act(cfg, Act(cfg, s, a), a), tid, tick);
  }

  function ThreeSteps(tid: Tid, tick: Tick): seq<Action> {
    [StepCall(tid, tick), StepCall(tid, tick), StepCall(tid, tick)]
  }

  lemma ReachesCompletion(cfg: Config, s: System, tid: Tid, tick: Tick)
    requires tid in s.calls && s.calls[tid].pc.AtMarkRunning? && s.calls[tid].approval.None? && tick.outcome.Returned?
    ensures StepTo(s, tid, MarkRunningEntries(s.store.keys, KeyOf(cfg, s.calls[tid])),
                   s.calls[tid].(pc := AtComplete(AnswerOf(cfg, s.calls[tid], tick.outcome.result), Succeeded)),
                   From(cfg, s, ThreeSteps(tid, tick)))
  {
    var a := StepCall(tid, tick);
    LastThreeSteps(cfg, s, tid, tick);
    assert [] + [a] == [a] && [a] + [a] == [a, a] && [a, a] + [a] == ThreeSteps(tid, tick);
    FromAppend(cfg, s, [], a);
    FromAppend(cfg, s, [a], a);
    FromAppend(cfg, s, [a, a], a);
  }

  lemma RunningKeepsDistinct(es: Entries, k: IdempotencyKey)
    requires DistinctKeys(es)
    ensures DistinctKeys(MarkRunningEntries(es, k))
  {
    if Lookup(es, k).Some? {
      LookupPut(es, k, Lookup(es, k).value.(status := Running), k);
    }
  }

  // ---- both complete

  lemma CompletionStores(cfg: Config, s: System, tid: Tid, tick: Tick)
    requires tid in s.calls && s.calls[tid].pc.AtComplete? && DistinctKeys(s.store.keys)
    ensures var s' := Act(cfg, s, StepCall(tid, tick));
      && C.StoredResponse(s'.store.keys, KeyOf(cfg, s.calls[tid])) == Some(s.calls[tid].pc.response)
      && DistinctKeys(s'.store.keys)
      && s'.calls == s.calls[tid := s.calls[tid].(pc := Done(s.calls[tid].pc.response, false))]
  {
    var c := s.calls[tid];
    C.CompletionStores(s.store.keys, KeyOf(cfg, c), c.pc.response, c.pc.status, tick.clock, KeyOf(cfg, c));
  }

  /** Of two calls completing one key, the one that completes last leaves its response. */
  lemma LastCompletionWins(cfg: Config, s: System, t: Tid, u: Tid, tickT: Tick, tickU: Tick)
    requires t != u && t in s.calls && u in s.calls && DistinctKeys(s.store.keys)
    requires s.calls[t].pc.AtComplete? && s.calls[u].pc.AtComplete? && KeyOf(cfg, s.calls[t]) == KeyOf(cfg, s.calls[u])
    ensures var key := KeyOf(cfg, s.calls[t]);
      var s1 := From(cfg, s, [StepCall(u, tickU)]);
      var s2 := From(cfg, s, [StepCall(u, tickU), StepCall(t, tickT)]);
      && C.StoredResponse(s1.store.keys, key) == Some(s.calls[u].pc.response)
      && C.StoredResponse(s2.store.keys, key) == Some(s.calls[t].pc.response)
  {
    var s1 := Act(cfg, s, StepCall(u, tickU));
    CompletionStores(cfg, s, u, tickU);
    CompletionStores(cfg, s1, t, tickT);
    FromAppend(cfg, s, [], StepCall(u, tickU));
    assert [] + [StepCall(u, tickU)] == [StepCall(u, tickU)];
    FromAppend(cfg, s, [StepCall(u, tickU)], StepCall(t, tickT));
    assert [StepCall(u, tickU)] + [StepCall(t, tickT)] == [StepCall(u, tickU), StepCall(t, tickT)];
  }

  /** Both calls run up to their completion. */
  function BothRun(t: Tid, u: Tid, tickT: Tick, tickU: Tick): seq<Action> {
    ThreeSteps(t, tickT) + ThreeSteps(u, tickU)
  }

  /** Two calls hold the key and stand before their dispatch. */
  ghost predicate BothHold(cfg: Config, s: System, t: Tid, u: Tid) {
    && t != u && t in s.calls && u in s.calls && DistinctKeys(s.store.keys)
    && s.calls[t].pc.AtMarkRunning? && s.calls[t].approval.None?
    && s.calls[u].pc.AtMarkRunning? && s.calls[u].approval.None?
    && KeyOf(cfg, s.calls[t]) == KeyOf(cfg, s.calls[u])
  }

  lemma BothReachCompletion(cfg: Config, s: System, t: Tid, u: Tid, tickT: Tick, tickU: Tick)
    requires BothHold(cfg, s, t, u) && tickT.outcome.Returned? && tickU.outcome.Returned?
    ensures var s' := From(cfg, s, BothRun(t, u, tickT, tickU));
      && DistinctKeys(s'.store.keys) && t in s'.calls && u in s'.calls
      && s'.calls[t] == s.calls[t].(pc := AtComplete(AnswerOf(cfg, s.calls[t], tickT.outcome.result), Succeeded))
      && s'.calls[u] == s.calls[u].(pc := AtComplete(AnswerOf(cfg, s.calls[u], tickU.outcome.result), Succeeded))
  {
    var s1 := From(cfg, s, ThreeSteps(t, tickT));
    ReachesCompletion(cfg, s, t, tickT);
    RunningKeepsDistinct(s.store.keys, KeyOf(cfg, s.calls[t]));
    ReachesCompletion(cfg, s1, u, tickU);
    RunningKeepsDistinct(s1.store.keys, KeyOf(cfg, s1.calls[u]));
    FromThenFrom(cfg, s, ThreeSteps(t, tickT), ThreeSteps(u, tickU));
  }

  /** From every state in which two calls hold a key, one answer can be stored and then replaced by the other. */
  lemma HoldersOverwrite(cfg: Config, s: System, t: Tid, u: Tid, tickT: Tick, tickU: Tick)
    requires BothHold(cfg, s, t, u) && tickT.outcome.Returned? && tickU.outcome.Returned?
    ensures var key := KeyOf(cfg, s.calls[t]);
      var s1 := From(cfg, s, BothRun(t, u, tickT, tickU) + [StepCall(u, tickU)]);
      var s2 := From(cfg, s, BothRun(t, u, tickT, tickU) + [StepCall(u, tickU), StepCall(t, tickT)]);
      && C.StoredResponse(s1.store.keys, key) == Some(AnswerOf(cfg, s.calls[u], tickU.outcome.result))
      && C.StoredResponse(s2.store.keys, key) == Some(AnswerOf(cfg, s.calls[t], tickT.outcome.result))
  {
    var both := From(cfg, s, BothRun(t, u, tickT, tickU));
    BothReachCompletion(cfg, s, t, u, tickT, tickU);
    assert KeyOf(cfg, both.calls[t]) == KeyOf(cfg, s.calls[t]) && KeyOf(cfg, both.calls[u]) == KeyOf(cfg, s.calls[u]);
    LastCompletionWins(cfg, both, t, u, tickT, tickU);
    FromThenFrom(cfg, s, BothRun(t, u, tickT, tickU), [StepCall(u, tickU)]);
    FromThenFrom(cfg, s, BothRun(t, u, tickT, tickU), [StepCall(u, tickU), StepCall(t, tickT)]);
  }

  // ---- from the initial state

  const FIRST_TICK := Tick(20, Id(1), Returned(JInt(1)))
  const SECOND_TICK := Tick(20, Id(1), Returned(JInt(2)))

  /** The stored response of the key before and after the last action. */
  ghost predicate Replaces(cfg: Config, actions: seq<Action>, last: Action, key: IdempotencyKey) {
    var before := C.StoredResponse(Run(cfg, actions).store.keys, key);
    var after := C.StoredResponse(Run(cfg, actions + [last]).store.keys, key);
    before.Some? && after.Some? && before != after
  }

  function Finishing(): seq<Action> {
    BothRun(Tid(1), Tid(2), FIRST_TICK, SECOND_TICK) + [StepCall(Tid(2), SECOND_TICK)]
  }

  lemma ScheduleHolds(cfg: Config, a: Time, m: Time, n: Time)
    requires Route(cfg, a, m, n)
    ensures BothHold(cfg, Run(cfg, Schedule(a, m, n)), Tid(1), Tid(2))
  {
    ScheduleShares(cfg, a, m, n);
    ReserveEffect(Second(m), KEY, n, cfg.idempotencyTtl, cfg.maxEntries, KEY);
  }

  lemma RunSplits(cfg: Config, x: seq<Action>, y: seq<Action>, last: Action)
    ensures Run(cfg, x + y) == From(cfg, Run(cfg, x), y)
    ensures Run(cfg, x + y + [last]) == From(cfg, Run(cfg, x), y + [last])
  {
    RunThenFrom(cfg, x, y);
    RunThenFrom(cfg, x, y + [last]);
    assert x + y + [last] == x + (y + [last]);
  }

  lemma AnswersDiffer(cfg: Config, a: Time, n: Time)
    ensures AnswerOf(cfg, Holding("key", a), JInt(1)) != AnswerOf(cfg, Holding("key", n), JInt(2))
  {
  }

  /** The two answers stored one after the other once both calls hold the key. */
  lemma HoldersReplace(cfg: Config, s: System, a: Time, n: Time)
    requires BothHold(cfg, s, Tid(1), Tid(2)) && KeyOf(cfg, s.calls[Tid(1)]) == KEY
    requires s.calls[Tid(1)] == Holding("key", a) && s.calls[Tid(2)] == Holding("key", n)
    ensures C.StoredResponse(From(cfg, s, Finishing()).store.keys, KEY) ==
      Some(AnswerOf(cfg, Holding("key", n), JInt(2)))
    ensures C.StoredResponse(From(cfg, s, Finishing() + [StepCall(Tid(1), FIRST_TICK)]).store.keys, KEY)
      == Some(AnswerOf(cfg, Holding("key", a), JInt(1)))
  {
    HoldersOverwrite(cfg, s, Tid(1), Tid(2), FIRST_TICK, SECOND_TICK);
    assert Finishing() + [StepCall(Tid(1), FIRST_TICK)]
      == BothRun(Tid(1), Tid(2), FIRST_TICK, SECOND_TICK)
        + [StepCall(Tid(2), SECOND_TICK), StepCall(Tid(1), FIRST_TICK)];
  }

  lemma RouteOverwrites(cfg: Config, a: Time, m: Time, n: Time)
    requires Route(cfg, a, m, n)
    ensures Replaces(cfg, Schedule(a, m, n) + Finishing(), StepCall(Tid(1), FIRST_TICK), KEY)
  {
    ScheduleShares(cfg, a, m, n);
    ScheduleHolds(cfg, a, m, n);
    HoldersReplace(cfg, Run(cfg, Schedule(a, m, n)), a, n);
    RunSplits(cfg, Schedule(a, m, n), Finishing(), StepCall(Tid(1), FIRST_TICK));
    AnswersDiffer(cfg, a, n);
  }

  /** A run in which the key expires under its holder and the response stored since is replaced. */
  lemma ExpiredKeyIsOverwritten()
    ensures Replaces(Demo(10, 3), Schedule(0, 10, 11) + Finishing(), StepCall(Tid(1), FIRST_TICK), KEY)
  {
    ByExpiry(10, 3, 0, 10, 11);
    RouteOverwrites(Demo(10, 3), 0, 10, 11);
  }

  /** A run in which the key is evicted well within its lifetime and the response stored since is replaced. */
  lemma EvictedKeyIsOverwritten()
    ensures Replaces(Demo(3_600_000_000, 1), Schedule(0, 1, 2) + Finishing(), StepCall(Tid(1), FIRST_TICK), KEY)
  {
    ByEviction(3_600_000_000, 0, 1, 2);
    RouteOverwrites(Demo(3_600_000_000, 1), 0, 1, 2);
  }
}
