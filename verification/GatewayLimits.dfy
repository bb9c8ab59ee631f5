/**
 The rate limits over gateway runs.  The limiter of a run is what the checks of its calls
 make of it, in the order in which they are made; with calls one after another on a clock
 that never goes back the limits hold, and in an interleaving they may not.
 */
module GatewayLimits {
  import opened Wrappers
  import opened GatewayTypes
  import opened GatewayMachine
  import opened RateLimiter
  import opened RateLimiterOrder
  import G = GatewayApprovals
  import Q = GatewaySequential
  import R = GatewayReuse

  /** The registry files every tool under its own name. */
  ghost predicate WellNamed(cfg: Config) {
    forall name :: name in cfg.registry ==> cfg.registry[name].toolName == name
  }

  function LimitsOf(cfg: Config): Limits {
    toolName => if toolName in cfg.registry then cfg.registry[toolName].rateLimit else NO_TOOL.rateLimit
  }

  function CheckOf(cfg: Config, c: ToolCall): Call {
    Call(Key(Actor(cfg, c).id, ToolOf(cfg, c).toolName), c.now)
  }

  ghost predicate Checks(s: System, action: Action) {
    action.StepCall? && action.tid in s.calls && s.calls[action.tid].pc.AtLimit?
  }

  /** The checks a run makes of the limiter, in order. */
  ghost function Attempts(cfg: Config, actions: seq<Action>): seq<Call> {
    if |actions| == 0 then []
    else
      var s, a := Run(cfg, actions[..|actions| - 1]), actions[|actions| - 1];
      if Checks(s, a) then Attempts(cfg, actions[..|actions| - 1]) + [CheckOf(cfg, s.calls[a.tid])]
      else Attempts(cfg, actions[..|actions| - 1])
  }

  lemma AttemptsAppend(cfg: Config, front: seq<Action>, a: Action)
    ensures Attempts(cfg, front + [a]) ==
      if Checks(Run(cfg, front), a) then Attempts(cfg, front) + [CheckOf(cfg, Run(cfg, front).calls[a.tid])]
        else Attempts(cfg, front)
    ensures Run(cfg, front + [a]) == Act(cfg, Run(cfg, front), a)
  {
    assert (front + [a])[..|front|] == front;
  }

  /** A call at the limiter is for a registered tool, whose limit is its own. */
  lemma LimitOfCheck(cfg: Config, actions: seq<Action>, tid: Tid)
    requires WellNamed(cfg) && tid in Run(cfg, actions).calls && Run(cfg, actions).calls[tid].pc.AtLimit?
    ensures var c := Run(cfg, actions).calls[tid];
      LimitOf(LimitsOf(cfg), CheckOf(cfg, c).key) == ToolOf(cfg, c).rateLimit
  {
    G.RunInvariant(cfg, actions);
    var c := Run(cfg, actions).calls[tid];
    assert G.CallHolds(cfg, Run(cfg, actions).store.approvals, c);
    assert c.request.toolName in cfg.registry;
  }

  lemma OtherStepsCheckNothing(cfg: Config, tid: Tid, s: Store, c: ToolCall, tick: Tick)
    requires !c.pc.AtLimit?
    ensures Advance(cfg, tid, s, c, tick).store.calls == s.calls
  {
  }

  lemma LimitStepChecks(cfg: Config, tid: Tid, s: Store, c: ToolCall, tick: Tick)
    requires c.pc.AtLimit?
    ensures var r := Advance(cfg, tid, s, c, tick);
      && r.store.calls == MemoryCheck(s.calls, ToolOf(cfg, c).rateLimit, CheckOf(cfg, c))
      && (r.call.pc == AtFailAudit(ErrorCode.RateLimitExceeded) <==>
        !MemoryAccepts(s.calls, ToolOf(cfg, c).rateLimit, CheckOf(cfg, c)))
  {
  }

  /** A check makes of the gateway's limiter what it makes of the limiter run so far. */
  lemma CheckAgrees(cfg: Config, front: seq<Action>, a: Action)
    requires WellNamed(cfg) && Checks(Run(cfg, front), a)
    requires Run(cfg, front).store.calls == MemoryRun(LimitsOf(cfg), Attempts(cfg, front))
    ensures Act(cfg, Run(cfg, front), a).store.calls
      == MemoryRun(LimitsOf(cfg), Attempts(cfg, front) + [CheckOf(cfg, Run(cfg, front).calls[a.tid])])
  {
    var s := Run(cfg, front);
    LimitOfCheck(cfg, front, a.tid);
    LimitStepChecks(cfg, a.tid, s.store, s.calls[a.tid], a.tick);
    MemoryRunAppend(LimitsOf(cfg), Attempts(cfg, front), CheckOf(cfg, s.calls[a.tid]));
  }

  lemma OtherActionsCheckNothing(cfg: Config, s: System, a: Action)
    requires !Checks(s, a)
    ensures Act(cfg, s, a).store.calls == s.store.calls
  {
    if a.StepCall? && a.tid in s.calls {
      OtherStepsCheckNothing(cfg, a.tid, s.store, s.calls[a.tid], a.tick);
    }
  }

  /** In every interleaving the gateway's limiter is the limiter run on the checks made. */
  lemma {:induction false} LimiterOfRun(cfg: Config, actions: seq<Action>)
    requires WellNamed(cfg)
    ensures Run(cfg, actions).store.calls == MemoryRun(LimitsOf(cfg), Attempts(cfg, actions))
  {
    if |actions| > 0 {
      var front, a := actions[..|actions| - 1], actions[|actions| - 1];
      LimiterOfRun(cfg, front);
      if Checks(Run(cfg, front), a) {
        CheckAgrees(cfg, front, a);
      } else {
        OtherActionsCheckNothing(cfg, Run(cfg, front), a);
      }
    }
  }

  /** A call is refused for its rate exactly when the limiter, run on the checks made so far, rejects it. */
  lemma RefusedIff(cfg: Config, actions: seq<Action>, tid: Tid, tick: Tick)
    requires WellNamed(cfg) && Checks(Run(cfg, actions), StepCall(tid, tick))
    ensures var s' := Run(cfg, actions + [StepCall(tid, tick)]);
      && tid in s'.calls
      && (s'.calls[tid].pc == AtFailAudit(ErrorCode.RateLimitExceeded)
          <==> !MemoryAcceptsLast(LimitsOf(cfg), Attempts(cfg, actions) + [CheckOf(cfg, Run(cfg, actions).calls[tid])]))
  {
    var s := Run(cfg, actions);
    AttemptsAppend(cfg, actions, StepCall(tid, tick));
    LimitOfCheck(cfg, actions, tid);
    LimiterOfRun(cfg, actions);
    LimitStepChecks(cfg, tid, s.store, s.calls[tid], tick);
    MemoryRunAppend(LimitsOf(cfg), Attempts(cfg, actions), CheckOf(cfg, s.calls[tid]));
  }

  // ---- calls one after another

  /** Every check goes by the reading of a call. */
  ghost predicate ChecksOfCalls(attempts: seq<Call>, calls: map<Tid, ToolCall>) {
    forall c :: c in attempts ==> exists t :: t in calls && calls[t].now == c.at
  }

  lemma ChecksStay(attempts: seq<Call>, calls: map<Tid, ToolCall>, tid: Tid, c': ToolCall)
    requires ChecksOfCalls(attempts, calls) && (tid in calls ==> c'.now == calls[tid].now)
    ensures ChecksOfCalls(attempts, calls[tid := c'])
  {
    var calls' := calls[tid := c'];
    forall c | c in attempts
      ensures exists t :: t in calls' && calls'[t].now == c.at
    {
      var t :| t in calls && calls[t].now == c.at;
      assert t in calls' && calls'[t].now == c.at;
    }
  }

  lemma {:induction false} RunChecks(cfg: Config, actions: seq<Action>)
    ensures ChecksOfCalls(Attempts(cfg, actions), Run(cfg, actions).calls)
  {
    if |actions| > 0 {
      var front, a := actions[..|actions| - 1], actions[|actions| - 1];
      var s := Run(cfg, front);
      RunChecks(cfg, front);
      if a.StartCall? && a.tid !in s.calls {
        ChecksStay(Attempts(cfg, front), s.calls, a.tid,
          ToolCall(a.request, a.now, Admission(cfg, a.request), false, None));
      } else if a.StepCall? && a.tid in s.calls {
        var c' := Advance(cfg, a.tid, s.store, s.calls[a.tid], a.tick).call;
        Q.StepKeepsReading(cfg, a.tid, s.store, s.calls[a.tid], a.tick);
        ChecksStay(Attempts(cfg, front), s.calls, a.tid, c');
        assert a.tid in s.calls[a.tid := c'] && s.calls[a.tid := c'][a.tid].now == s.calls[a.tid].now;
      }
    }
  }

  lemma OrderedAppend(attempts: seq<Call>, c: Call)
    requires Nondecreasing(attempts) && forall d :: d in attempts ==> d.at <= c.at
    ensures Nondecreasing(attempts + [c])
  {
    assert forall i :: 0 <= i < |attempts| ==> attempts[i] in attempts;
  }

  /** With calls one after another on a clock that never goes back the limiter is checked in clock order. */
  lemma {:induction false} ChecksInOrder(cfg: Config, actions: seq<Action>)
    requires Q.SequentialRun(cfg, actions) && Q.StartClock(actions)
    ensures Nondecreasing(Attempts(cfg, actions))
  {
    if |actions| > 0 {
      var front, a := actions[..|actions| - 1], actions[|actions| - 1];
      var s := Run(cfg, front);
      ChecksInOrder(cfg, front);
      RunChecks(cfg, front);
      Q.RunInClock(cfg, front);
      if Checks(s, a) {
        forall d | d in Attempts(cfg, front)
          ensures d.at <= s.calls[a.tid].now
        {
          var t :| t in s.calls && s.calls[t].now == d.at;
        }
        OrderedAppend(Attempts(cfg, front), CheckOf(cfg, s.calls[a.tid]));
      }
    }
  }

  /** The checks of the calls that get past the limiter, in order. */
  ghost function LetThrough(cfg: Config, actions: seq<Action>): seq<Call> {
    if |actions| == 0 then []
    else
      var front, a := actions[..|actions| - 1], actions[|actions| - 1];
      if PassesLimiter(cfg, Run(cfg, front), a) then
        LetThrough(cfg, front) + [CheckOf(cfg, Run(cfg, front).calls[a.tid])]
      else LetThrough(cfg, front)
  }

  ghost predicate PassesLimiter(cfg: Config, s: System, a: Action) {
    Checks(s, a) &&
      var s' := Act(cfg, s, a);
      a.tid in s'.calls && s'.calls[a.tid].pc != AtFailAudit(ErrorCode.RateLimitExceeded)
  }

  lemma MemoryLogAppend(limits: Limits, front: seq<Call>, c: Call)
    ensures MemoryLog(limits, front + [c]) ==
      if MemoryAcceptsLast(limits, front + [c]) then MemoryLog(limits, front) + [c] else MemoryLog(limits, front)
  {
    assert (front + [c])[..|front|] == front;
  }

  lemma PassesIffAccepted(cfg: Config, front: seq<Action>, a: Action)
    requires WellNamed(cfg) && Checks(Run(cfg, front), a)
    ensures PassesLimiter(cfg, Run(cfg, front), a)
      <==> MemoryAcceptsLast(LimitsOf(cfg), Attempts(cfg, front) + [CheckOf(cfg, Run(cfg, front).calls[a.tid])])
  {
    RefusedIff(cfg, front, a.tid, a.tick);
    AttemptsAppend(cfg, front, a);
  }

  lemma LetThroughAppend(cfg: Config, front: seq<Action>, a: Action)
    ensures LetThrough(cfg, front + [a]) ==
      if PassesLimiter(cfg, Run(cfg, front), a) then
        LetThrough(cfg, front) + [CheckOf(cfg, Run(cfg, front).calls[a.tid])]
      else LetThrough(cfg, front)
  {
    assert (front + [a])[..|front|] == front;
  }

  /** In every interleaving these are the checks the limiter accepts. */
  lemma {:induction false} LetThroughIsAccepted(cfg: Config, actions: seq<Action>)
    requires WellNamed(cfg)
    ensures LetThrough(cfg, actions) == MemoryLog(LimitsOf(cfg), Attempts(cfg, actions))
  {
    if |actions| > 0 {
      var front, a := actions[..|actions| - 1], actions[|actions| - 1];
      LetThroughIsAccepted(cfg, front);
      LetThroughStep(cfg, front, a);
      LastApart(actions);
    }
  }

  lemma LastApart(actions: seq<Action>)
    requires |actions| > 0
    ensures actions == actions[..|actions| - 1] + [actions[|actions| - 1]]
  {
  }

  lemma LetThroughStep(cfg: Config, front: seq<Action>, a: Action)
    requires WellNamed(cfg) && LetThrough(cfg, front) == MemoryLog(LimitsOf(cfg), Attempts(cfg, front))
    ensures LetThrough(cfg, front + [a]) == MemoryLog(LimitsOf(cfg), Attempts(cfg, front + [a]))
  {
    AttemptsAppend(cfg, front, a);
    LetThroughAppend(cfg, front, a);
    if Checks(Run(cfg, front), a) {
      PassesIffAccepted(cfg, front, a);
      MemoryLogAppend(LimitsOf(cfg), Attempts(cfg, front), CheckOf(cfg, Run(cfg, front).calls[a.tid]));
    }
  }

  /** Then no window of a tool's limit lets more of a principal's calls through than the limit. */
  lemma GatewayWindowBound(cfg: Config, actions: seq<Action>, key: Key, lo: int)
    requires WellNamed(cfg) && Q.SequentialRun(cfg, actions) && Q.StartClock(actions)
    ensures CountBetween(LetThrough(cfg, actions), key, lo, lo + LengthOf(LimitsOf(cfg), key))
      <= Most(LimitsOf(cfg), key)
  {
    LetThroughIsAccepted(cfg, actions);
    ChecksInOrder(cfg, actions);
    MemoryWindowBound(LimitsOf(cfg), Attempts(cfg, actions), key, lo);
  }

  // ---- calls that overlap

  const STRICT := R.STATUS.(rateLimit := RateLimit(2, Minute))

  const DEMO := R.Demo(3_600_000_000, 100).(registry := map["status" := STRICT])

  const CALLER := Key("engineer-1", "status")

  /** Four calls start in clock order, the last a second after the third. */
  function Starting(): seq<Action> {
    [StartCall(Tid(1), R.RequestFor("key"), 0), StartCall(Tid(2), R.RequestFor("key"), 0),
     StartCall(Tid(3), R.RequestFor("key"), 59_000_000), StartCall(Tid(4), R.RequestFor("key"), 60_000_000)]
  }

  /** The fourth call is checked before the third. */
  function Overtaking(): seq<Action> {
    Starting() + [StepCall(Tid(1), R.TICK)] + [StepCall(Tid(2), R.TICK)] + [StepCall(Tid(4), R.TICK)]
      + [StepCall(Tid(3), R.TICK)]
  }

  lemma AfterStarting()
    ensures Run(DEMO, Starting()).calls
      == map[Tid(1) := R.AtEntry("key", 0), Tid(2) := R.AtEntry("key", 0), Tid(3) := R.AtEntry("key", 59_000_000),
        Tid(4) := R.AtEntry("key", 60_000_000)]
    ensures Attempts(DEMO, Starting()) == []
  {
    var x := Starting();
    assert x == [x[0]] + [x[1]] + [x[2]] + [x[3]] && [] + [x[0]] == [x[0]];
    AttemptsAppend(DEMO, [], x[0]);
    AttemptsAppend(DEMO, [x[0]], x[1]);
    AttemptsAppend(DEMO, [x[0]] + [x[1]], x[2]);
    AttemptsAppend(DEMO, [x[0]] + [x[1]] + [x[2]], x[3]);
  }

  ghost predicate Stands(actions: seq<Action>, tid: Tid, now: Time) {
    tid in Run(DEMO, actions).calls && Run(DEMO, actions).calls[tid] == R.AtEntry("key", now)
  }

  lemma NextCheck(front: seq<Action>, tid: Tid, now: Time)
    requires Stands(front, tid, now)
    ensures Attempts(DEMO, front + [StepCall(tid, R.TICK)]) == Attempts(DEMO, front) + [Call(CALLER, now)]
  {
    AttemptsAppend(DEMO, front, StepCall(tid, R.TICK));
  }

  lemma OthersStand(front: seq<Action>, tid: Tid, other: Tid, now: Time)
    requires Stands(front, other, now) && other != tid
    ensures Stands(front + [StepCall(tid, R.TICK)], other, now)
  {
    AttemptsAppend(DEMO, front, StepCall(tid, R.TICK));
  }

  lemma AllStand()
    ensures Stands(Starting(), Tid(1), 0) && Stands(Starting(), Tid(2), 0)
    ensures Stands(Starting(), Tid(3), 59_000_000) && Stands(Starting(), Tid(4), 60_000_000)
    ensures Attempts(DEMO, Starting()) == []
  {
    AfterStarting();
  }

  /** Each call still waits when its turn comes. */
  lemma OvertakingStands()
    ensures Stands(Starting() + [StepCall(Tid(1), R.TICK)], Tid(2), 0)
    ensures Stands(Starting() + [StepCall(Tid(1), R.TICK)] + [StepCall(Tid(2), R.TICK)], Tid(4), 60_000_000)
    ensures Stands(Starting() + [StepCall(Tid(1), R.TICK)] + [StepCall(Tid(2), R.TICK)] + [StepCall(Tid(4), R.TICK)],
      Tid(3), 59_000_000)
  {
    var x0 := Starting();
    var x1 := x0 + [StepCall(Tid(1), R.TICK)];
    var x2 := x1 + [StepCall(Tid(2), R.TICK)];
    AllStand();
    OthersStand(x0, Tid(1), Tid(2), 0);
    OthersStand(x0, Tid(1), Tid(3), 59_000_000);
    OthersStand(x0, Tid(1), Tid(4), 60_000_000);
    OthersStand(x1, Tid(2), Tid(3), 59_000_000);
    OthersStand(x1, Tid(2), Tid(4), 60_000_000);
    OthersStand(x2, Tid(4), Tid(3), 59_000_000);
  }

  lemma OvertakingChecks()
    ensures Attempts(DEMO, Overtaking()) == OutOfOrder(CALLER, 2, 60_000_000, 1_000_000)
  {
    var x0 := Starting();
    var x1 := x0 + [StepCall(Tid(1), R.TICK)];
    var x2 := x1 + [StepCall(Tid(2), R.TICK)];
    AllStand();
    OvertakingStands();
    NextCheck(x0, Tid(1), 0);
    NextCheck(x1, Tid(2), 0);
    NextCheck(x2, Tid(4), 60_000_000);
    NextCheck(x2 + [StepCall(Tid(4), R.TICK)], Tid(3), 59_000_000);
    assert Zeros(CALLER, 2) == [] + [Call(CALLER, 0)] + [Call(CALLER, 0)];
  }

  lemma OvertakingClock()
    ensures Q.StartClock(Overtaking())
  {
    assert forall i :: 4 <= i < |Overtaking()| ==> !Overtaking()[i].StartCall?;
  }

  /** Four calls that start in clock order and overlap: three are let through in one minute where two are allowed. */
  lemma OverlappingCallsExceed()
    ensures Q.StartClock(Overtaking())
    ensures CountBetween(LetThrough(DEMO, Overtaking()), CALLER, 0, LengthOf(LimitsOf(DEMO), CALLER))
      > LimitOf(LimitsOf(DEMO), CALLER).count
  {
    OvertakingClock();
    OvertakingChecks();
    LetThroughIsAccepted(DEMO, Overtaking());
    OutOfOrderExceeds(LimitsOf(DEMO), CALLER, 1_000_000);
  }
}
