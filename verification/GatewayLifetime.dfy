/**
 When two dispatched calls on one idempotency key are a lifetime apart.  A call reads the
 clock when it starts and reserves later, so a key may be expired on a late reading and
 then taken by a call with an earlier one.  The lifetime is kept exactly when the second
 call's reading is not earlier than the one on which the key expired.
 */
module GatewayLifetime {
  import opened Wrappers
  import opened GatewayTypes
  import opened Idempotency
  import opened GatewayMachine
  import opened K = GatewayKeys
  import opened R = GatewayReuse
  import Race = GatewayRace

  ghost predicate DispatchedBy(trace: seq<Event>, caller: Tid) {
    exists p :: 0 <= p < |trace| && trace[p].Dispatched? && trace[p].caller == caller
  }

  /**
   A key is reserved at `i`, expired at `k` and reserved again at `j`, never evicted, and both
   its holders are dispatched.
   */
  ghost predicate Reused(trace: seq<Event>, key: IdempotencyKey, i: nat, k: nat, j: nat) {
    && ExpiredAt(trace, key, i, k) && k < j < |trace|
    && Reserves(trace[i], key) && Reserves(trace[j], key) && !EvictedBetween(trace, key, i, j)
    && DispatchedBy(trace, trace[i].caller) && DispatchedBy(trace, trace[j].caller)
  }

  /** So it goes in the run, with the key expired on reading `m` and reserved again on reading `n`. */
  ghost predicate ReusedOn(
    cfg: Config, actions: seq<Action>, key: IdempotencyKey, i: nat, k: nat, j: nat, m: Time, n: Time) {
    var trace := Run(cfg, actions).trace;
    Reused(trace, key, i, k, j) && trace[k].at == m && trace[j].at == n
  }

  /** In every such run of every gateway with that lifetime the two reservations are a lifetime apart. */
  ghost predicate LifetimeKept(ttl: int, m: Time, n: Time) {
    forall cfg: Config, actions: seq<Action>, key: IdempotencyKey, i: nat, k: nat, j: nat ::
      cfg.idempotencyTtl == ttl && ReusedOn(cfg, actions, key, i, k, j, m, n) ==>
      Run(cfg, actions).trace[j].at - Run(cfg, actions).trace[i].at >= ttl
  }

  lemma LaterReadingKeeps(
    cfg: Config, actions: seq<Action>, key: IdempotencyKey, i: nat, k: nat, j: nat, m: Time, n: Time)
    requires ReusedOn(cfg, actions, key, i, k, j, m, n) && m <= n
    ensures Run(cfg, actions).trace[j].at - Run(cfg, actions).trace[i].at >= cfg.idempotencyTtl
  {
    RunInvariant(cfg, actions);
    var trace := Run(cfg, actions).trace;
    assert ReservationFits(cfg.idempotencyTtl, trace[..k], trace[k]);
  }

  // ---- an earlier reading breaks it

  lemma HolderDispatches(cfg: Config, s: System, tid: Tid, key: string, now: Time)
    requires cfg == Demo(cfg.idempotencyTtl, cfg.maxEntries) && tid in s.calls && s.calls[tid] == Holding(key, now)
    ensures var s' := From(cfg, s, ReserveActions(tid));
      && (forall t :: t in s.calls && t != tid ==> t in s'.calls && s'.calls[t] == s.calls[t])
      && |s'.trace| == |s.trace| + 1 && s.trace <= s'.trace
      && s'.trace[|s.trace|].Dispatched? && s'.trace[|s.trace|].caller == tid
  {
    var a := StepCall(tid, R.TICK);
    var s1 := Act(cfg, s, a);
    TwoSteps(cfg, s, a);
    assert s1.calls == s.calls[tid := Holding(key, now).(pc := AtDispatch)] && s1.trace == s.trace + [];
    Race.ActIsAdvance(cfg, s1, tid, R.TICK, DispatchStep(cfg, tid, s1.store, s1.calls[tid], R.TICK.outcome));
  }

  function DispatchBoth(): seq<Action> {
    ReserveActions(Tid(1)) + ReserveActions(Tid(2))
  }

  lemma BothDispatched(cfg: Config, a: Time, m: Time, n: Time)
    requires Route(cfg, a, m, n)
    ensures var trace, before := Run(cfg, Schedule(a, m, n) + DispatchBoth()).trace, Run(cfg, Schedule(a, m, n)).trace;
      && before <= trace && |trace| == |before| + 2
      && DispatchedBy(trace, Tid(1)) && DispatchedBy(trace, Tid(2))
  {
    var s := Run(cfg, Schedule(a, m, n));
    ScheduleShares(cfg, a, m, n);
    var s1 := From(cfg, s, ReserveActions(Tid(1)));
    HolderDispatches(cfg, s, Tid(1), "key", a);
    var s2 := From(cfg, s1, ReserveActions(Tid(2)));
    HolderDispatches(cfg, s1, Tid(2), "key", n);
    RunThenFrom(cfg, Schedule(a, m, n), DispatchBoth());
    FromThenFrom(cfg, s, ReserveActions(Tid(1)), ReserveActions(Tid(2)));
    assert s2.trace[|s.trace|] == s1.trace[|s.trace|];
  }

  /** In the schedule by expiry the third call's reservation expires the key, and nothing is evicted. */
  lemma ScheduleReuses(ttl: int, a: Time, m: Time, n: Time, trace: seq<Event>)
    requires a + ttl <= m && Route(Demo(ttl, 3), a, m, n) && |trace| >= 3
    requires var cfg := Demo(ttl, 3);
      trace[..3] == [Reserving(cfg, Tid(1), [], KEY, a), Reserving(cfg, Tid(3), First(a), OTHER, m),
        Reserving(cfg, Tid(2), Second(m), KEY, n)]
    ensures ExpiredAt(trace, KEY, 0, 1) && Reserves(trace[0], KEY) && Reserves(trace[2], KEY)
    ensures !EvictedBetween(trace, KEY, 0, 2)
    ensures trace[0].caller == Tid(1) && trace[2].caller == Tid(2)
  {
    assert trace[0] == trace[..3][0] && trace[1] == trace[..3][1] && trace[2] == trace[..3][2];
    assert trace[..1] == [trace[0]] && trace[..1][..0] == [];
    FirstEvictsNothing(ttl, a);
    ThirdExpiresKey(ttl, a, m);
  }

  lemma FirstEvictsNothing(ttl: int, a: Time)
    ensures KEY !in Reserving(Demo(ttl, 3), Tid(1), [], KEY, a).evicted
  {
    OneEntry(First(a)[0], a - ttl, KEY, Record(a, Reserved, None));
    assert ReserveEntries([], KEY, a, ttl, 3) == First(a);
    assert First(a)[0] in First(a);
  }

  lemma ThirdExpiresKey(ttl: int, a: Time, m: Time)
    requires a + ttl <= m
    ensures var e := Reserving(Demo(ttl, 3), Tid(3), First(a), OTHER, m);
      KEY in e.expired && KEY !in e.evicted
  {
    OneEntry(First(a)[0], m - ttl, KEY, Record(m, Reserved, None));
    assert First(a)[0] in First(a);
  }

  /** Whatever the lifetime, a reading earlier than the one on which the key expired takes it within the lifetime. */
  lemma EarlierReadingReuses(ttl: int, m: Time, n: Time) returns (actions: seq<Action>)
    requires n < m
    ensures ReusedOn(Demo(ttl, 3), actions, KEY, 0, 1, 2, m, n)
    ensures Run(Demo(ttl, 3), actions).trace[2].at - Run(Demo(ttl, 3), actions).trace[0].at < ttl
  {
    var cfg, a := Demo(ttl, 3), m - ttl;
    ByExpiry(ttl, 3, a, m, n);
    ScheduleShares(cfg, a, m, n);
    BothDispatched(cfg, a, m, n);
    actions := Schedule(a, m, n) + DispatchBoth();
    var before := Run(cfg, Schedule(a, m, n)).trace;
    assert Run(cfg, actions).trace[..3] == before;
    ScheduleReuses(ttl, a, m, n, Run(cfg, actions).trace);
  }

  /**
   The lifetime is kept exactly when the second reservation's reading is not earlier than the
   one on which the key expired.
   */
  lemma LifetimeKeptIff(ttl: int, m: Time, n: Time)
    ensures LifetimeKept(ttl, m, n) <==> m <= n
  {
    if m <= n {
      forall cfg: Config, actions: seq<Action>, key: IdempotencyKey, i: nat, k: nat, j: nat | cfg.idempotencyTtl == ttl
        && ReusedOn(cfg, actions, key, i, k, j, m, n)
        ensures Run(cfg, actions).trace[j].at - Run(cfg, actions).trace[i].at >= ttl
      {
        LaterReadingKeeps(cfg, actions, key, i, k, j, m, n);
      }
    } else {
      var actions := EarlierReadingReuses(ttl, m, n);
    }
  }
}
