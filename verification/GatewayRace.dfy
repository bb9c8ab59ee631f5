/**
 Two calls on one approval that are in flight together can both be dispatched, because
 the approval is checked before the dispatch and spent after it: schedules, and a run
 from the initial state.
 */
module GatewayRace {
  import opened Wrappers
  import opened GatewayTypes
  import opened Approvals
  import opened Idempotency
  import opened GatewayMachine
  import opened GatewayHolding
  import RateLimiter

  ghost predicate CanReserve(cfg: Config, s: Store, c: ToolCall) {
    var call := RateLimiter.Call(RateLimiter.Key(Actor(cfg, c).id, ToolOf(cfg, c).toolName), c.now);
    && RateLimiter.MemoryAccepts(s.calls, ToolOf(cfg, c).rateLimit, call)
    && cfg.validates(ToolOf(cfg, c), TrustedArguments(Sanitized(c), Actor(cfg, c), ToolOf(cfg, c)))
    && ReserveOutcomeOf(s.keys, KeyOf(cfg, c), c.now, cfg.idempotencyTtl) == Fresh
  }

  /** A call that is admitted, within its rate, on a new key and about an approved approval. */
  ghost predicate Ready(cfg: Config, s: Store, c: ToolCall) {
    && Admission(cfg, c.request) == AtLimit
    && c.pc == AtLimit && !c.reserved && c.approval == None
    && ToolOf(cfg, c).requiresApproval
    && CanReserve(cfg, s, c)
    && c.request.approvalId.Some? && c.request.approvalId.value in s.approvals.approvals
    && ApprovalFits(cfg, c, s.approvals.approvals[c.request.approvalId.value])
  }

  /** The store once the call has reserved its key and is about to be dispatched. */
  ghost function AfterReserve(cfg: Config, s: Store, c: ToolCall): Store {
    var call := RateLimiter.Call(RateLimiter.Key(Actor(cfg, c).id, ToolOf(cfg, c).toolName), c.now);
    Store(
      s.approvals,
      MarkRunningEntries(ReserveEntries(s.keys, KeyOf(cfg, c), c.now, cfg.idempotencyTtl, cfg.maxEntries),
        KeyOf(cfg, c)),
      RateLimiter.MemoryCheck(s.calls, ToolOf(cfg, c).rateLimit, call))
  }

  function FiveSteps(tid: Tid, tick: Tick): seq<Action> {
    [StepCall(tid, tick), StepCall(tid, tick), StepCall(tid, tick), StepCall(tid, tick), StepCall(tid, tick)]
  }

  /** A ready call gets within its rate and its key reserved. */
  lemma PassesToLookup(cfg: Config, tid: Tid, s: Store, c: ToolCall, tick: Tick)
    requires Ready(cfg, s, c)
    ensures var limited := Advance(cfg, tid, s, c, tick);
      var r := Advance(cfg, tid, limited.store, limited.call, tick);
      && limited.call == c.(pc := AtReserve) && limited.events == []
      && r.call == c.(pc := AtLookup, reserved := true) && |r.events| == 1 && r.events[0].Reservation?
      && r.store.(keys := MarkRunningEntries(r.store.keys, KeyOf(cfg, c))) == AfterReserve(cfg, s, c)
  {
  }

  /** The approval is looked up and fits. */
  lemma PassesToRunning(cfg: Config, tid: Tid, s: Store, c: ToolCall, tick: Tick)
    requires c.pc.AtLookup? && c.request.approvalId.Some? && c.request.approvalId.value in s.approvals.approvals
    requires ApprovalFits(cfg, c, s.approvals.approvals[c.request.approvalId.value])
    ensures Advance(cfg, tid, s, c, tick) == StepResult(s, c.(pc := AtVerify), [])
    ensures Advance(cfg, tid, s, c.(pc := AtVerify), tick) ==
      StepResult(s, c.(pc := AtMarkRunning, approval := c.request.approvalId), [])
  {
  }

  lemma ActIsAdvance(cfg: Config, s: System, tid: Tid, tick: Tick, r: StepResult)
    requires tid in s.calls && r == Advance(cfg, tid, s.store, s.calls[tid], tick)
    ensures Act(cfg, s, StepCall(tid, tick)) == System(r.store, s.calls[tid := r.call], s.rulings, s.trace + r.events)
  {
  }

  /** The system when a ready call stands at the look-up of its approval. */
  ghost predicate AtLookupAfter(cfg: Config, s: System, tid: Tid, s': System) {
    && tid in s.calls && tid in s'.calls
    && s'.calls == s.calls[tid := s.calls[tid].(pc := AtLookup, reserved := true)]
    && s'.store.(keys := MarkRunningEntries(s'.store.keys, KeyOf(cfg, s.calls[tid]))) ==
      AfterReserve(cfg, s.store, s.calls[tid])
    && s'.store.approvals == s.store.approvals
    && |s'.trace| == |s.trace| + 1 && s'.trace == s.trace + [s'.trace[|s.trace|]] && s'.trace[|s.trace|].Reservation?
  }

  lemma FirstTwoSteps(cfg: Config, s: System, tid: Tid, tick: Tick)
    requires tid in s.calls && Ready(cfg, s.store, s.calls[tid])
    ensures var a := StepCall(tid, tick);
      AtLookupAfter(cfg, s, tid, Act(cfg, Act(cfg, s, a), a))
  {
    var r1 := Advance(cfg, tid, s.store, s.calls[tid], tick);
    var s1 := Act(cfg, s, StepCall(tid, tick));
    ActIsAdvance(cfg, s, tid, tick, r1);
    PassesToLookup(cfg, tid, s.store, s.calls[tid], tick);
    ActIsAdvance(cfg, s1, tid, tick, Advance(cfg, tid, s1.store, s1.calls[tid], tick));
  }

  lemma LastThreeSteps(cfg: Config, s: System, tid: Tid, tick: Tick)
    requires tid in s.calls && s.calls[tid].pc == AtLookup
    requires s.calls[tid].request.approvalId.Some?
    requires s.calls[tid].request.approvalId.value in s.store.approvals.approvals
    requires ApprovalFits(cfg, s.calls[tid], s.store.approvals.approvals[s.calls[tid].request.approvalId.value])
    ensures var a, c := StepCall(tid, tick), s.calls[tid];
      Act(cfg, Act(cfg, Act(cfg, s, a), a), a)
        == s.(store := s.store.(keys := MarkRunningEntries(s.store.keys, KeyOf(cfg, c))),
              calls := s.calls[tid := c.(pc := AtDispatch, approval := c.request.approvalId)])
  {
    var a, c := StepCall(tid, tick), s.calls[tid];
    PassesToRunning(cfg, tid, s.store, c, tick);
    ActIsAdvance(cfg, s, tid, tick, StepResult(s.store, c.(pc := AtVerify), []));
    var s1 := Act(cfg, s, a);
    assert s1 == s.(calls := s.calls[tid := c.(pc := AtVerify)]);
    var running := c.(pc := AtMarkRunning, approval := c.request.approvalId);
    ActIsAdvance(cfg, s1, tid, tick, StepResult(s.store, running, []));
    var s2 := Act(cfg, s1, a);
    assert s2 == s.(calls := s.calls[tid := running]);
    ActIsAdvance(cfg, s2, tid, tick,
      Goto(s.store.(keys := MarkRunningEntries(s.store.keys, KeyOf(cfg, c))), running, AtDispatch));
  }

  /** The system when a ready call stands at its dispatch. */
  ghost predicate AtDispatchAfter(cfg: Config, s: System, tid: Tid, s': System) {
    && tid in s.calls
    && s'.store == AfterReserve(cfg, s.store, s.calls[tid])
    && s'.calls == s.calls[tid := s.calls[tid].(pc := AtDispatch, reserved := true,
      approval := s.calls[tid].request.approvalId)]
    && forall id :: Dispatches(s'.trace, id) == Dispatches(s.trace, id)
  }

  lemma LookupToDispatch(cfg: Config, s: System, tid: Tid, s2: System, tick: Tick)
    requires tid in s.calls && Ready(cfg, s.store, s.calls[tid]) && AtLookupAfter(cfg, s, tid, s2)
    ensures var a := StepCall(tid, tick);
      AtDispatchAfter(cfg, s, tid, Act(cfg, Act(cfg, Act(cfg, s2, a), a), a))
  {
    LastThreeSteps(cfg, s2, tid, tick);
    ReservingDispatchesNothing(s.trace, s2.trace[|s.trace|]);
  }

  /** Five steps take a ready call past the check of its approval, up to its dispatch. */
  lemma ReachesDispatch(cfg: Config, s: System, tid: Tid, tick: Tick)
    requires tid in s.calls && Ready(cfg, s.store, s.calls[tid])
    ensures AtDispatchAfter(cfg, s, tid, From(cfg, s, FiveSteps(tid, tick)))
  {
    var a := StepCall(tid, tick);
    FiveStepsUnfold(cfg, s, tid, tick);
    FirstTwoSteps(cfg, s, tid, tick);
    LookupToDispatch(cfg, s, tid, Act(cfg, Act(cfg, s, a), a), tick);
  }

  lemma ReservingDispatchesNothing(trace: seq<Event>, reservation: Event)
    requires reservation.Reservation?
    ensures forall id :: Dispatches(trace + [reservation], id) == Dispatches(trace, id)
  {
    forall id
      ensures Dispatches(trace + [reservation], id) == Dispatches(trace, id)
    {
      AppendDispatch(trace, reservation, id);
    }
  }

  lemma FiveStepsUnfold(cfg: Config, s: System, tid: Tid, tick: Tick)
    ensures var a := StepCall(tid, tick);
      From(cfg, s, FiveSteps(tid, tick)) == Act(cfg, Act(cfg, Act(cfg, Act(cfg, Act(cfg, s, a), a), a), a), a)
  {
    var a := StepCall(tid, tick);
    assert FiveSteps(tid, tick) == [a] + [a] + [a] + [a] + [a];
    FromAppend(cfg, s, [a] + [a] + [a] + [a], a);
    FromAppend(cfg, s, [a] + [a] + [a], a);
    FromAppend(cfg, s, [a] + [a], a);
    FromAppend(cfg, s, [a], a);
    FromAppend(cfg, s, [], a);
    assert [] + [a] == [a];
  }

  /** Dispatch two calls that both stand at their dispatch on the same approval. */
  lemma BothDispatch(cfg: Config, s: System, t: Tid, u: Tid, id: Id, tick: Tick)
    requires t != u && t in s.calls && u in s.calls && tick.outcome.Returned?
    requires s.calls[t].pc == AtDispatch && s.calls[u].pc == AtDispatch
    requires s.calls[t].approval == Some(id) && s.calls[u].approval == Some(id)
    ensures Dispatches(From(cfg, s, [StepCall(t, tick), StepCall(u, tick)]).trace, id) == Dispatches(s.trace, id) + 2
  {
    var s1 := Act(cfg, s, StepCall(t, tick));
    var s2 := Act(cfg, s1, StepCall(u, tick));
    var e, f := DispatchStep(cfg, t, s.store, s.calls[t], tick.outcome).events[0],
      DispatchStep(cfg, u, s1.store, s1.calls[u], tick.outcome).events[0];
    assert s1.trace == s.trace + [e] && s2.trace == s1.trace + [f];
    AppendDispatch(s.trace, e, id);
    AppendDispatch(s1.trace, f, id);
    assert [StepCall(t, tick), StepCall(u, tick)][1..] == [StepCall(u, tick)] && [StepCall(u, tick)][1..] == [];
    assert From(cfg, s1, [StepCall(u, tick)]) == From(cfg, s2, []);
  }

  /** The schedule: both calls run up to their dispatch, then both are dispatched. */
  function Interleaved(t: Tid, u: Tid, tick: Tick): seq<Action> {
    FiveSteps(t, tick) + FiveSteps(u, tick) + [StepCall(t, tick), StepCall(u, tick)]
  }

  /**
   From every state in which two calls stand ready on one approval, the second still so
   once the first has reserved its key, there is a schedule with two dispatches on it.
   */
  lemma TogetherDispatchTwice(cfg: Config, s: System, t: Tid, u: Tid, id: Id, tick: Tick)
    requires t != u && t in s.calls && u in s.calls && tick.outcome.Returned?
    requires Ready(cfg, s.store, s.calls[t]) && Ready(cfg, AfterReserve(cfg, s.store, s.calls[t]), s.calls[u])
    requires s.calls[t].request.approvalId == Some(id) && s.calls[u].request.approvalId == Some(id)
    ensures Dispatches(From(cfg, s, Interleaved(t, u, tick)).trace, id) == Dispatches(s.trace, id) + 2
  {
    var s1 := From(cfg, s, FiveSteps(t, tick));
    ReachesDispatch(cfg, s, t, tick);
    var s2 := From(cfg, s1, FiveSteps(u, tick));
    ReachesDispatch(cfg, s1, u, tick);
    BothDispatch(cfg, s2, t, u, id, tick);
    FromThenFrom(cfg, s, FiveSteps(t, tick) + FiveSteps(u, tick), [StepCall(t, tick), StepCall(u, tick)]);
    FromThenFrom(cfg, s, FiveSteps(t, tick), FiveSteps(u, tick));
  }

  // ---- such a state is reached

  const REQUESTER := Principal("engineer-1", Engineer, Human)
  const APPROVER := Principal("admin-1", Admin, Human)

  const DEPLOY := Tool("deploy", High, "deployments:operate", true, RateLimiter.RateLimit(5, RateLimiter.Minute), true,
    true)

  /** A gateway with one tool that needs approval, a requester and an approver. */
  const DEMO := Config(
    token => if token == "engineer-token" then Some(REQUESTER) else if token ==
      "admin-token" then Some(APPROVER) else None,
    map["deploy" := DEPLOY],
    {},
    (role, permission) => permission == "deployments:operate" || role == Admin,
    (tool, arguments) => true,
    arguments => "digest",
    arguments => "digest",
    3_600_000_000,
    3_600_000_000,
    10_000)

  const APPROVAL := Id(1)

  const TICK := Tick(10, APPROVAL, Returned(JNull))

  function DemoRequest(key: string, approvalId: Option<Id>): Request {
    Request("engineer-token", "deploy", map[], key, approvalId, Id(7), None, None)
  }

  const REQUESTED := NewApproval(REQUESTER, "deploy", map[], High, 0, 3_600_000_000, APPROVAL, None, None,
    Some("digest"),
                                 Some(Binding(None, None, "deploy", "engineer-1", "digest")))

  const DEPLOYS := RateLimiter.Key("engineer-1", "deploy")

  /** The engineer asks, and is told that approval is pending. */
  function Asking(): seq<Action> {
    [StartCall(Tid(0), DemoRequest("key-zero", None), 0), StepCall(Tid(0), TICK), StepCall(Tid(0), TICK),
      StepCall(Tid(0), TICK)]
  }

  function AskingCall(pc: Pc, reserved: bool): ToolCall {
    ToolCall(DemoRequest("key-zero", None), 0, pc, reserved, None)
  }

  const FIRST_KEYS := [Entry(IdempotencyKey("engineer-1", "key-zero"), Record(0, Reserved, None))]

  lemma AskLimit()
    ensures Advance(DEMO, Tid(0), INITIAL.store, AskingCall(AtLimit, false), TICK)
         == StepResult(INITIAL.store.(calls := map[DEPLOYS := [0]]), AskingCall(AtReserve, false), [])
  {
    assert RateLimiter.DropExpired([], 60_000_000, 0) + [0] == [0];
    assert RateLimiter.MemoryCheck(map[], DEPLOY.rateLimit, RateLimiter.Call(DEPLOYS, 0)) == map[DEPLOYS := [0]];
  }

  lemma AskReserve(s: Store)
    requires s.keys == []
    ensures var r := Advance(DEMO, Tid(0), s, AskingCall(AtReserve, false), TICK);
      && r.store == s.(keys := FIRST_KEYS) && r.call == AskingCall(AtCreate, true)
      && |r.events| == 1 && r.events[0].Reservation?
  {
    var k := IdempotencyKey("engineer-1", "key-zero");
    assert Put([], k, Record(0, Reserved, None)) == FIRST_KEYS;
  }

  lemma AskCreate(s: Store)
    requires s.approvals.approvals == map[]
    ensures var r := Advance(DEMO, Tid(0), s, AskingCall(AtCreate, true), TICK);
      && r.store.approvals.approvals == map[APPROVAL := REQUESTED] && r.store.keys == s.keys && r.store.calls == s.calls
      && r.events == [Created(Tid(0), REQUESTED)]
  {
    assert StripUntrusted(map[]) == map[];
    assert RequestedApproval(DEMO, AskingCall(AtCreate, true), APPROVAL) == REQUESTED;
  }

  ghost predicate Asked(s: System) {
    && s.store.approvals.approvals == map[APPROVAL := REQUESTED]
    && s.store.keys == FIRST_KEYS
    && s.store.calls == map[DEPLOYS := [0]]
    && s.calls.Keys == {Tid(0)} && s.rulings == map[]
    && |s.trace| == 2 && s.trace[0].Reservation? && s.trace[1].Created?
  }

  lemma AfterAsking()
    ensures Asked(From(DEMO, INITIAL, Asking()))
  {
    AskLimit();
    var s1 := Act(DEMO, INITIAL, Asking()[0]);
    var s2 := Act(DEMO, s1, Asking()[1]);
    AskReserve(s2.store);
    var s3 := Act(DEMO, s2, Asking()[2]);
    AskCreate(s3.store);
    var s4 := Act(DEMO, s3, Asking()[3]);
    AskingSteps();
  }

  lemma AskingSteps()
    ensures From(DEMO, INITIAL, Asking()) ==
      Act(DEMO, Act(DEMO, Act(DEMO, Act(DEMO, INITIAL, Asking()[0]), Asking()[1]), Asking()[2]), Asking()[3])
  {
    var a := Asking();
    FromAppend(DEMO, INITIAL, [], a[0]);
    FromAppend(DEMO, INITIAL, [a[0]], a[1]);
    FromAppend(DEMO, INITIAL, [a[0]] + [a[1]], a[2]);
    FromAppend(DEMO, INITIAL, [a[0]] + [a[1]] + [a[2]], a[3]);
    assert [] + [a[0]] == [a[0]];
    assert a == [a[0]] + [a[1]] + [a[2]] + [a[3]];
  }

  /** The administrator approves. */
  function Granting(): seq<Action> {
    [StartRuling(Tid(0), "admin-token", APPROVAL, Approving, 1), StepRuling(Tid(0)), StepRuling(Tid(0))]
  }

  function GrantRuling(pc: RulingPc): Ruling {
    Ruling(APPROVER, APPROVAL, Approving, 1, pc)
  }

  lemma GrantLookup(s: Store)
    requires s.approvals.approvals == map[APPROVAL := REQUESTED]
    ensures Rule(DEMO, s, GrantRuling(AtGet)) == RulingResult(s, GrantRuling(AtDecide), [])
  {
  }

  lemma GrantDecision(s: Store)
    requires s.approvals.approvals == map[APPROVAL := REQUESTED]
    ensures var r := Rule(DEMO, s, GrantRuling(AtDecide));
      && r.store.approvals.approvals == map[APPROVAL := ApprovedForm(REQUESTED, "admin-1", 1)]
      && r.store.keys == s.keys && r.store.calls == s.calls
      && r.events == [Granted(APPROVAL, APPROVER, 1)]
  {
  }

  lemma GrantingSteps(s: System)
    ensures From(DEMO, s, Granting()) == Act(DEMO, Act(DEMO, Act(DEMO, s, Granting()[0]), Granting()[1]), Granting()[2])
  {
    var a := Granting();
    FromAppend(DEMO, s, [], a[0]);
    FromAppend(DEMO, s, [a[0]], a[1]);
    FromAppend(DEMO, s, [a[0]] + [a[1]], a[2]);
    assert [] + [a[0]] == [a[0]];
    assert a == [a[0]] + [a[1]] + [a[2]];
  }

  lemma ActIsRule(s: System, r: RulingResult)
    requires Tid(0) in s.rulings && r == Rule(DEMO, s.store, s.rulings[Tid(0)])
    ensures Act(DEMO, s, StepRuling(Tid(0))) ==
      System(r.store, s.calls, s.rulings[Tid(0) := r.ruling], s.trace + r.events)
  {
  }

  lemma AfterGranting(s: System)
    requires s.store.approvals.approvals == map[APPROVAL := REQUESTED] && s.rulings == map[]
    ensures var s' := From(DEMO, s, Granting());
      && s'.store.approvals.approvals == map[APPROVAL := ApprovedForm(REQUESTED, "admin-1", 1)]
      && s'.store.keys == s.store.keys && s'.store.calls == s.store.calls && s'.calls == s.calls
      && s'.trace == s.trace + [Granted(APPROVAL, APPROVER, 1)]
  {
    GrantingSteps(s);
    var s1 := Act(DEMO, s, Granting()[0]);
    assert s1 == s.(rulings := map[Tid(0) := GrantRuling(AtGet)]);
    GrantLookup(s.store);
    ActIsRule(s1, RulingResult(s.store, GrantRuling(AtDecide), []));
    var s2 := Act(DEMO, s1, Granting()[1]);
    assert s2 == s.(rulings := map[Tid(0) := GrantRuling(AtDecide)]);
    GrantDecision(s.store);
    ActIsRule(s2, Rule(DEMO, s.store, GrantRuling(AtDecide)));
  }

  function Calling(): seq<Action> {
    [StartCall(Tid(1), DemoRequest("key-one", Some(APPROVAL)), 2),
      StartCall(Tid(2), DemoRequest("key-two", Some(APPROVAL)), 3)]
  }

  function FirstCall(): ToolCall {
    ToolCall(DemoRequest("key-one", Some(APPROVAL)), 2, AtLimit, false, None)
  }

  function SecondCall(): ToolCall {
    ToolCall(DemoRequest("key-two", Some(APPROVAL)), 3, AtLimit, false, None)
  }

  lemma AfterCalling(s: System)
    requires Tid(1) !in s.calls && Tid(2) !in s.calls
    ensures From(DEMO, s, Calling()) == s.(calls := s.calls[Tid(1) := FirstCall()][Tid(2) := SecondCall()])
  {
    FromAppend(DEMO, s, [], Calling()[0]);
    FromAppend(DEMO, s, [Calling()[0]], Calling()[1]);
    assert [] + [Calling()[0]] == [Calling()[0]];
    assert Calling() == [Calling()[0]] + [Calling()[1]];
  }

  ghost predicate Primed(s: Store) {
    && s.approvals.approvals == map[APPROVAL := ApprovedForm(REQUESTED, "admin-1", 1)]
    && s.keys == FIRST_KEYS
    && s.calls == map[DEPLOYS := [0]]
  }

  lemma FitsDemo(c: ToolCall)
    requires c.request.toolName == "deploy" && c.request.arguments == map[]
    requires c.request.workflowId == None && c.request.workflowNodeId == None
    ensures ApprovalFits(DEMO, c, ApprovedForm(REQUESTED, "admin-1", 1))
  {
    assert StripUntrusted(map[]) == map[];
  }

  function ReserverKey(key: string): IdempotencyKey {
    IdempotencyKey("engineer-1", key)
  }

  /** Only the asking call's key is in use. */
  lemma FreeKey(key: string)
    requires key != "key-zero"
    ensures DistinctKeys(FIRST_KEYS) && Lookup(FIRST_KEYS, ReserverKey(key)) == None
  {
    assert FIRST_KEYS[..0] == [];
  }

  lemma FreeKeyIsFresh(es: Entries, k: IdempotencyKey, now: Time, ttl: int)
    requires DistinctKeys(es) && Lookup(es, k) == None
    ensures ReserveOutcomeOf(es, k, now, ttl) == Fresh
  {
    LookupExpire(es, now - ttl, k);
  }

  /** Reserving and running one key leaves another one free. */
  lemma OtherKeyStaysFree(es: Entries, k: IdempotencyKey, now: Time, ttl: int, maxEntries: nat, other: IdempotencyKey)
    requires DistinctKeys(es) && Lookup(es, other) == None && other != k
    ensures var es' := MarkRunningEntries(ReserveEntries(es, k, now, ttl, maxEntries), k);
      DistinctKeys(es') && Lookup(es', other) == None
  {
    var reserved := ReserveEntries(es, k, now, ttl, maxEntries);
    ReserveEffect(es, k, now, ttl, maxEntries, other);
    if Lookup(reserved, k).Some? {
      LookupPut(reserved, k, Lookup(reserved, k).value.(status := Running), other);
    }
  }

  /** What is left to show for the two calls: that they are within the rate and that their keys are free. */
  lemma ReadyWhen(s: Store, c: ToolCall, key: string)
    requires (c == FirstCall() && key == "key-one") || (c == SecondCall() && key == "key-two")
    requires s.approvals.approvals == map[APPROVAL := ApprovedForm(REQUESTED, "admin-1", 1)]
    requires RateLimiter.MemoryAccepts(s.calls, DEPLOY.rateLimit, RateLimiter.Call(DEPLOYS, c.now))
    requires ReserveOutcomeOf(s.keys, ReserverKey(key), c.now, DEMO.idempotencyTtl) == Fresh
    ensures Ready(DEMO, s, c)
  {
    FitsDemo(c);
  }

  lemma FirstReady(s: Store)
    requires Primed(s)
    ensures Ready(DEMO, s, FirstCall())
  {
    FreeKey("key-one");
    FreeKeyIsFresh(s.keys, ReserverKey("key-one"), 2, DEMO.idempotencyTtl);
    FirstWithinRate(s.calls);
    ReadyWhen(s, FirstCall(), "key-one");
  }

  lemma FirstWithinRate(calls: RateLimiter.Deques)
    requires calls == map[DEPLOYS := [0]]
    ensures RateLimiter.MemoryAccepts(calls, DEPLOY.rateLimit, RateLimiter.Call(DEPLOYS, 2))
    ensures RateLimiter.MemoryCheck(calls, DEPLOY.rateLimit, RateLimiter.Call(DEPLOYS, 2)) == map[DEPLOYS := [0, 2]]
  {
    assert RateLimiter.DropExpired([0], 60_000_000, 2) == [0];
    assert [0] + [2] == [0, 2];
  }

  lemma SecondWithinRate(calls: RateLimiter.Deques)
    requires calls == map[DEPLOYS := [0, 2]]
    ensures RateLimiter.MemoryAccepts(calls, DEPLOY.rateLimit, RateLimiter.Call(DEPLOYS, 3))
  {
    assert RateLimiter.DropExpired([0, 2], 60_000_000, 3) == [0, 2];
  }

  /** What the first call's reservation leaves of the store. */
  lemma AfterFirst(s: Store)
    ensures AfterReserve(DEMO, s, FirstCall()) == Store(
      s.approvals,
      MarkRunningEntries(ReserveEntries(s.keys, ReserverKey("key-one"), 2, DEMO.idempotencyTtl, DEMO.maxEntries),
        ReserverKey("key-one")),
      RateLimiter.MemoryCheck(s.calls, DEPLOY.rateLimit, RateLimiter.Call(DEPLOYS, 2)))
  {
  }

  lemma SecondReady(s: Store)
    requires Primed(s)
    ensures Ready(DEMO, AfterReserve(DEMO, s, FirstCall()), SecondCall())
  {
    AfterFirst(s);
    var s' := AfterReserve(DEMO, s, FirstCall());
    FreeKey("key-two");
    OtherKeyStaysFree(s.keys, ReserverKey("key-one"), 2, DEMO.idempotencyTtl, DEMO.maxEntries, ReserverKey("key-two"));
    FreeKeyIsFresh(s'.keys, ReserverKey("key-two"), 3, DEMO.idempotencyTtl);
    FirstWithinRate(s.calls);
    SecondWithinRate(s'.calls);
    ReadyWhen(s', SecondCall(), "key-two");
  }

  function Prelude(): seq<Action> {
    Asking() + Granting() + Calling()
  }

  lemma PreludeParts()
    ensures From(DEMO, INITIAL, Prelude()) ==
      From(DEMO, From(DEMO, From(DEMO, INITIAL, Asking()), Granting()), Calling())
  {
    FromThenFrom(DEMO, INITIAL, Asking() + Granting(), Calling());
    FromThenFrom(DEMO, INITIAL, Asking(), Granting());
  }

  /** The prelude ends with both calls ready and nothing dispatched. */
  lemma AfterPrelude()
    ensures var s := From(DEMO, INITIAL, Prelude());
      && s.calls.Keys == {Tid(0), Tid(1), Tid(2)} && s.calls[Tid(1)] == FirstCall() && s.calls[Tid(2)] == SecondCall()
      && Primed(s.store)
      && Dispatches(s.trace, APPROVAL) == 0
  {
    PreludeParts();
    AfterAsking();
    AfterAsked(From(DEMO, INITIAL, Asking()));
  }

  lemma AfterAsked(s: System)
    requires Asked(s)
    ensures var s' := From(DEMO, From(DEMO, s, Granting()), Calling());
      && s'.calls.Keys == {Tid(0), Tid(1), Tid(2)} && s'.calls[Tid(1)] == FirstCall()
        && s'.calls[Tid(2)] == SecondCall()
      && Primed(s'.store)
      && Dispatches(s'.trace, APPROVAL) == 0
  {
    AfterGranting(s);
    AfterCalling(From(DEMO, s, Granting()));
    NothingDispatched(s.trace);
  }

  lemma NothingDispatched(trace: seq<Event>)
    requires |trace| == 2 && trace[0].Reservation? && trace[1].Created?
    ensures Dispatches(trace + [Granted(APPROVAL, APPROVER, 1)], APPROVAL) == 0
  {
    assert trace == [] + [trace[0]] + [trace[1]];
    AppendDispatch([], trace[0], APPROVAL);
    AppendDispatch([] + [trace[0]], trace[1], APPROVAL);
    AppendDispatch(trace, Granted(APPROVAL, APPROVER, 1), APPROVAL);
  }

  /** A run from the initial state in which one approval is dispatched on twice. */
  lemma TwoDispatchesAreReachable()
    ensures Dispatches(Run(DEMO, Prelude() + Interleaved(Tid(1), Tid(2), TICK)).trace, APPROVAL) == 2
  {
    var s := From(DEMO, INITIAL, Prelude());
    AfterPrelude();
    FirstReady(s.store);
    SecondReady(s.store);
    TogetherDispatchTwice(DEMO, s, Tid(1), Tid(2), APPROVAL, TICK);
    RunThenFrom(DEMO, [], Prelude());
    assert [] + Prelude() == Prelude();
    RunThenFrom(DEMO, Prelude(), Interleaved(Tid(1), Tid(2), TICK));
  }
}
