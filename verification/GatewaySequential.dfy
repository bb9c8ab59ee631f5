/**
 Calls one after another.  A run in which a call starts only when every earlier call has
 ended meets the conditions of GatewayExclusive and of GatewayWriteOnce, so an approval
 is dispatched on at most once and no stored response is ever overwritten.  If besides
 the calls start on a clock that never goes back, reservations of one key are a lifetime
 apart and the rate limits hold.
 */
module GatewaySequential {
  import opened Wrappers
  import opened GatewayTypes
  import opened Idempotency
  import opened GatewayMachine
  import C = GatewayCompleting
  import K = GatewayKeys
  import H = GatewayHolding
  import X = GatewayExclusive
  import W = GatewayWriteOnce

  /** A call starts only when every earlier one has ended. */
  ghost predicate StartsLast(s: System, action: Action) {
    action.StartCall? ==> forall t :: t in s.calls ==> Finished(s.calls[t])
  }

  ghost predicate SequentialRun(cfg: Config, actions: seq<Action>) {
    |actions| > 0 ==>
      && SequentialRun(cfg, actions[..|actions| - 1])
      && StartsLast(Run(cfg, actions[..|actions| - 1]), actions[|actions| - 1])
  }

  ghost predicate OneInFlight(calls: map<Tid, ToolCall>) {
    forall t, u :: t in calls && u in calls && !Finished(calls[t]) && !Finished(calls[u]) ==> t == u
  }

  lemma FinishedStays(cfg: Config, tid: Tid, s: Store, c: ToolCall, tick: Tick)
    requires Finished(c)
    ensures Advance(cfg, tid, s, c, tick).call == c
  {
  }

  lemma OneInFlightAfter(calls: map<Tid, ToolCall>, tid: Tid, c': ToolCall)
    requires OneInFlight(calls)
    requires if tid in calls then Finished(calls[tid]) ==> c' == calls[tid] else forall t :: t in calls ==>
      Finished(calls[t])
    ensures OneInFlight(calls[tid := c'])
  {
  }

  lemma ActKeeps(cfg: Config, s: System, action: Action)
    requires OneInFlight(s.calls) && StartsLast(s, action)
    ensures OneInFlight(Act(cfg, s, action).calls)
  {
    if action.StartCall? && action.tid !in s.calls {
      OneInFlightAfter(s.calls, action.tid,
        ToolCall(action.request, action.now, Admission(cfg, action.request), false, None));
    } else if action.StepCall? && action.tid in s.calls {
      if Finished(s.calls[action.tid]) {
        FinishedStays(cfg, action.tid, s.store, s.calls[action.tid], action.tick);
      }
      OneInFlightAfter(s.calls, action.tid, Advance(cfg, action.tid, s.store, s.calls[action.tid], action.tick).call);
    }
  }

  lemma {:induction false} RunInvariant(cfg: Config, actions: seq<Action>)
    requires SequentialRun(cfg, actions)
    ensures OneInFlight(Run(cfg, actions).calls)
  {
    if |actions| > 0 {
      RunInvariant(cfg, actions[..|actions| - 1]);
      ActKeeps(cfg, Run(cfg, actions[..|actions| - 1]), actions[|actions| - 1]);
    }
  }

  /** Sequential runs never have two calls on one approval in flight. */
  lemma {:induction false} SequentialIsExclusive(cfg: Config, actions: seq<Action>, id: Id)
    requires SequentialRun(cfg, actions)
    ensures X.ExclusiveRun(cfg, actions, id)
  {
    if |actions| > 0 {
      SequentialIsExclusive(cfg, actions[..|actions| - 1], id);
    }
  }

  /** The only call in flight is about to reserve, so no call owes the key a response. */
  lemma NoneOwes(cfg: Config, s: System, action: Action, key: IdempotencyKey)
    requires OneInFlight(s.calls) && C.ReservesAnew(cfg, s, action, key)
    ensures !C.SomeOwing(cfg, s.calls, key)
  {
    forall t | t in s.calls
      ensures !C.Owes(cfg, s.calls[t], key)
    {
      assert t != action.tid ==> Finished(s.calls[t]);
    }
  }

  /** Sequential runs never reserve a key anew while a call still owes it a response. */
  lemma {:induction false} SequentialIsOwned(cfg: Config, actions: seq<Action>, key: IdempotencyKey)
    requires SequentialRun(cfg, actions)
    ensures W.OwnedRun(cfg, actions, key)
  {
    if |actions| > 0 {
      var front, a := actions[..|actions| - 1], actions[|actions| - 1];
      SequentialIsOwned(cfg, front, key);
      RunInvariant(cfg, front);
      if C.ReservesAnew(cfg, Run(cfg, front), a, key) {
        NoneOwes(cfg, Run(cfg, front), a, key);
      }
    }
  }

  /** With calls one after another, at most one dispatch on an approval comes back. */
  lemma DispatchedAtMostOnce(cfg: Config, actions: seq<Action>, id: Id)
    requires SequentialRun(cfg, actions)
    ensures H.Dispatches(Run(cfg, actions).trace, id) <= 1
  {
    SequentialIsExclusive(cfg, actions, id);
    X.DispatchedAtMostOnce(cfg, actions, id);
  }

  /**
   With calls one after another, a completion finds no response to overwrite, however often the
   key has been reserved.
   */
  lemma NothingOverwritten(cfg: Config, actions: seq<Action>, key: IdempotencyKey)
    requires SequentialRun(cfg, actions)
    ensures !C.Overwriting(cfg, Run(cfg, actions), key)
  {
    SequentialIsOwned(cfg, actions, key);
    W.OwnedIsSettled(cfg, actions, key);
    C.NothingOverwritten(cfg, actions, key);
  }

  // ---- on a clock that never goes back

  /** Calls start on readings that never go back. */
  ghost predicate StartClock(actions: seq<Action>) {
    forall i, j :: 0 <= i <= j < |actions| && actions[i].StartCall? && actions[j].StartCall? ==>
      actions[i].now <= actions[j].now
  }

  /** Every call's reading is that of a start. */
  ghost predicate AllStarted(calls: map<Tid, ToolCall>, actions: seq<Action>) {
    forall t :: t in calls ==> StartedAt(actions, calls[t].now)
  }

  ghost predicate StartedAt(actions: seq<Action>, now: Time) {
    exists i :: 0 <= i < |actions| && actions[i].StartCall? && actions[i].now == now
  }

  lemma StartedLonger(actions: seq<Action>, a: Action, now: Time)
    requires StartedAt(actions, now)
    ensures StartedAt(actions + [a], now)
  {
    var i :| 0 <= i < |actions| && actions[i].StartCall? && actions[i].now == now;
    assert (actions + [a])[i] == actions[i];
  }

  lemma StepKeepsReading(cfg: Config, tid: Tid, s: Store, c: ToolCall, tick: Tick)
    ensures Advance(cfg, tid, s, c, tick).call.now == c.now
  {
  }

  lemma {:induction false} RunStarted(cfg: Config, actions: seq<Action>)
    ensures AllStarted(Run(cfg, actions).calls, actions)
  {
    if |actions| > 0 {
      var front, a := actions[..|actions| - 1], actions[|actions| - 1];
      var s := Run(cfg, front);
      RunStarted(cfg, front);
      assert actions == front + [a];
      if a.StepCall? && a.tid in s.calls {
        StepKeepsReading(cfg, a.tid, s.store, s.calls[a.tid], a.tick);
      }
      forall t | t in Run(cfg, actions).calls
        ensures StartedAt(actions, Run(cfg, actions).calls[t].now)
      {
        if t in s.calls {
          StartedLonger(front, a, s.calls[t].now);
        } else {
          assert actions[|front|] == a;
        }
      }
    }
  }

  /** The call in flight has the latest reading. */
  ghost predicate LatestInFlight(calls: map<Tid, ToolCall>) {
    forall t, u :: t in calls && u in calls && !Finished(calls[u]) ==> calls[t].now <= calls[u].now
  }

  /** A reservation goes by its caller's reading. */
  ghost predicate ReadingsOfCallers(trace: seq<Event>, calls: map<Tid, ToolCall>) {
    forall i :: 0 <= i < |trace| && trace[i].Reservation? ==>
      trace[i].caller in calls && calls[trace[i].caller].now == trace[i].at
  }

  /** The readings that reservations go by never go back. */
  ghost predicate ReservationClock(trace: seq<Event>) {
    forall i, j :: 0 <= i <= j < |trace| && trace[i].Reservation? && trace[j].Reservation? ==>
      trace[i].at <= trace[j].at
  }

  ghost predicate InClock(s: System) {
    LatestInFlight(s.calls) && ReadingsOfCallers(s.trace, s.calls) && ReservationClock(s.trace)
  }

  /** The only reservation a step can make is its own call's. */
  lemma ReservationsOfStep(cfg: Config, tid: Tid, s: Store, c: ToolCall, tick: Tick)
    ensures var r := Advance(cfg, tid, s, c, tick);
      && |r.events| <= 1
      && (|r.events| == 1 && r.events[0].Reservation? ==>
        c.pc.AtReserve? && r.events[0].caller == tid && r.events[0].at == c.now)
  {
    K.EveryKeysStep(cfg, tid, s, c, tick);
    if c.pc.AtReserve? {
      K.ReserveEvent(cfg, tid, s, c);
    }
  }

  lemma ClockAfterCall(s: System, tid: Tid, c': ToolCall, events: seq<Event>)
    requires InClock(s) && tid in s.calls && c'.now == s.calls[tid].now
    requires (Finished(s.calls[tid]) ==> c' == s.calls[tid])
    requires |events| <= 1
    requires |events| == 1 && events[0].Reservation? ==>
      !Finished(s.calls[tid]) && events[0].caller == tid && events[0].at == c'.now
    ensures LatestInFlight(s.calls[tid := c']) && ReadingsOfCallers(s.trace + events, s.calls[tid := c'])
    ensures ReservationClock(s.trace + events)
  {
    var trace' := s.trace + events;
    forall i, j | 0 <= i <= j < |trace'| && trace'[i].Reservation? && trace'[j].Reservation?
      ensures trace'[i].at <= trace'[j].at
    {
      if j == |s.trace| && i < j {
        assert s.trace[i] == trace'[i];
      }
    }
  }

  lemma CallKeepsClock(cfg: Config, s: System, tid: Tid, tick: Tick)
    requires InClock(s) && tid in s.calls
    ensures InClock(Act(cfg, s, StepCall(tid, tick)))
  {
    var c := s.calls[tid];
    var r := Advance(cfg, tid, s.store, c, tick);
    StepKeepsReading(cfg, tid, s.store, c, tick);
    ReservationsOfStep(cfg, tid, s.store, c, tick);
    if Finished(c) {
      FinishedStays(cfg, tid, s.store, c, tick);
    }
    ClockAfterCall(s, tid, r.call, r.events);
  }

  lemma RulingKeepsClock(cfg: Config, s: System, tid: Tid)
    requires InClock(s) && tid in s.rulings
    ensures InClock(Act(cfg, s, StepRuling(tid)))
  {
    var events := Rule(cfg, s.store, s.rulings[tid]).events;
    assert |events| <= 1 && (|events| == 1 ==> !events[0].Reservation?);
  }

  lemma StartKeepsClock(s: System, tid: Tid, c: ToolCall)
    requires InClock(s) && tid !in s.calls
    requires (forall t :: t in s.calls ==> Finished(s.calls[t]) && s.calls[t].now <= c.now)
    ensures InClock(s.(calls := s.calls[tid := c]))
  {
  }

  lemma ActKeepsClock(cfg: Config, s: System, action: Action)
    requires InClock(s) && StartsLast(s, action)
    requires action.StartCall? ==> forall t :: t in s.calls ==> s.calls[t].now <= action.now
    ensures InClock(Act(cfg, s, action))
  {
    if action.StartCall? && action.tid !in s.calls {
      StartKeepsClock(s, action.tid, ToolCall(action.request, action.now, Admission(cfg, action.request), false, None));
    } else if action.StepCall? && action.tid in s.calls {
      CallKeepsClock(cfg, s, action.tid, action.tick);
    } else if action.StepRuling? && action.tid in s.rulings {
      RulingKeepsClock(cfg, s, action.tid);
    }
  }

  /** A start is no earlier than any call before it. */
  lemma StartsLater(cfg: Config, actions: seq<Action>, front: seq<Action>, a: Action)
    requires StartClock(actions) && actions == front + [a] && a.StartCall?
    ensures forall t :: t in Run(cfg, front).calls ==> Run(cfg, front).calls[t].now <= a.now
  {
    RunStarted(cfg, front);
    forall t | t in Run(cfg, front).calls
      ensures Run(cfg, front).calls[t].now <= a.now
    {
      var i :| 0 <= i < |front| && front[i].StartCall? && front[i].now == Run(cfg, front).calls[t].now;
      assert actions[i] == front[i] && actions[|front|] == a;
    }
  }

  lemma {:induction false} RunInClock(cfg: Config, actions: seq<Action>)
    requires SequentialRun(cfg, actions) && StartClock(actions)
    ensures InClock(Run(cfg, actions))
  {
    if |actions| > 0 {
      var front, a := actions[..|actions| - 1], actions[|actions| - 1];
      assert actions == front + [a];
      RunInClock(cfg, front);
      if a.StartCall? {
        StartsLater(cfg, actions, front, a);
      }
      ActKeepsClock(cfg, Run(cfg, front), a);
    }
  }

  /** With calls one after another on such a clock, reservations of a key are a lifetime apart unless it was evicted. */
  lemma ReservationsApart(cfg: Config, actions: seq<Action>, key: IdempotencyKey, i: nat, j: nat)
    requires SequentialRun(cfg, actions) && StartClock(actions)
    requires var trace := Run(cfg, actions).trace;
      i < j < |trace| && K.Reserves(trace[i], key) && K.Reserves(trace[j], key) && !K.EvictedBetween(trace, key, i, j)
    ensures Run(cfg, actions).trace[j].at - Run(cfg, actions).trace[i].at >= cfg.idempotencyTtl
  {
    RunInClock(cfg, actions);
    K.RunInvariant(cfg, actions);
    var k := K.ReservedAgain(cfg.idempotencyTtl, Run(cfg, actions).trace, key, i, j);
  }

  /** So are the reservations behind two dispatches under one principal and key. */
  lemma DispatchesApart(cfg: Config, actions: seq<Action>, p: nat, q: nat) returns (i: nat, j: nat)
    requires SequentialRun(cfg, actions) && StartClock(actions)
    requires var trace := Run(cfg, actions).trace;
      && p < |trace| && q < |trace| && trace[p].Dispatched? && trace[q].Dispatched?
        && trace[p].caller != trace[q].caller
      && trace[p].principal.id == trace[q].principal.id
      && trace[p].request.idempotencyKey == trace[q].request.idempotencyKey
    ensures var trace := Run(cfg, actions).trace;
      var key := IdempotencyKey(trace[p].principal.id, trace[p].request.idempotencyKey);
      && i < j < |trace| && K.Reserves(trace[i], key) && K.Reserves(trace[j], key)
      && {trace[i].caller, trace[j].caller} == {trace[p].caller, trace[q].caller}
      && (K.EvictedBetween(trace, key, i, j) || trace[j].at - trace[i].at >= cfg.idempotencyTtl)
  {
    var trace := Run(cfg, actions).trace;
    var key := IdempotencyKey(trace[p].principal.id, trace[p].request.idempotencyKey);
    var x, y := K.DispatchesApart(cfg, actions, p, q);
    i, j := if x < y then x else y, if x < y then y else x;
    if !K.EvictedBetween(trace, key, i, j) {
      ReservationsApart(cfg, actions, key, i, j);
    }
  }
}
