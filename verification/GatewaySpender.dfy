/**
 Who can spend an approval.  The binding of an approval is compared with the requester
 its own record names, so the check lets any call through that is about the approved
 request, whoever makes it: another principal with the tool's permission, and even the
 approver.
 */
module GatewaySpender {
  import opened Wrappers
  import opened GatewayTypes
  import opened Approvals
  import opened Idempotency
  import opened GatewayMachine
  import opened GatewayTerms
  import G = GatewayApprovals
  import Race = GatewayRace
  import RateLimiter

  // ---- what the check looks at

  /** The caller plays no part in it. */
  lemma FitsIff(cfg: Config, trace: seq<Event>, c: ToolCall, a: Approval)
    requires G.Backed(cfg, trace, a)
    ensures ApprovalFits(cfg, c, a) <==> a.status == Approved && G.AboutRequest(a, ToolOf(cfg, c), c.request)
  {
    StripSanitizes(c.request.arguments, a.arguments);
    if ApprovalFits(cfg, c, a) {
      G.FittingIsAbout(cfg, trace, c, a);
    }
  }

  ghost predicate PassesCheck(cfg: Config, s: System, t: Tid, tick: Tick) {
    var s' := Act(cfg, s, StepCall(t, tick));
    t in s'.calls && s'.calls[t].pc == AtMarkRunning
  }

  lemma ReachableIsBacked(cfg: Config, actions: seq<Action>, id: Id)
    requires id in Run(cfg, actions).store.approvals.approvals
    ensures G.Backed(cfg, Run(cfg, actions).trace, Run(cfg, actions).store.approvals.approvals[id])
  {
    G.RunInvariant(cfg, actions);
  }

  /**
   In every reachable state a call at the check of an approval passes it exactly when the
   record is approved and about the request; so does a call of another principal than the
   requester, where the program promises that it does not.
   */
  lemma AnyoneSpendsIff(cfg: Config, actions: seq<Action>, t: Tid, id: Id, tick: Tick)
    requires t in Run(cfg, actions).calls
    requires var c := Run(cfg, actions).calls[t]; c.pc == AtVerify && c.request.approvalId == Some(id)
    ensures var s := Run(cfg, actions);
      PassesCheck(cfg, s, t, tick) <==>
        id in s.store.approvals.approvals && s.store.approvals.approvals[id].status == Approved
        && G.AboutRequest(s.store.approvals.approvals[id], ToolOf(cfg, s.calls[t]), s.calls[t].request)
  {
    var s := Run(cfg, actions);
    Race.ActIsAdvance(cfg, s, t, tick, VerifyStep(cfg, s.store, s.calls[t]));
    if id in s.store.approvals.approvals {
      ReachableIsBacked(cfg, actions, id);
      FitsIff(cfg, s.trace, s.calls[t], s.store.approvals.approvals[id]);
    }
  }

  // ---- a run in which the approver spends

  function ApproversRequest(): Request {
    Race.DemoRequest("key-one", Some(Race.APPROVAL)).(authToken := "admin-token")
  }

  function ApproversCall(): ToolCall {
    ToolCall(ApproversRequest(), 2, AtLimit, false, None)
  }

  function Spending(): seq<Action> {
    Race.FiveSteps(Tid(1), Race.TICK) + [StepCall(Tid(1), Race.TICK)]
  }

  /** The engineer asks, the administrator approves, and makes the call. */
  function ApproverRun(): seq<Action> {
    Race.Asking() + Race.Granting() + [StartCall(Tid(1), ApproversRequest(), 2)] + Spending()
  }

  const APPROVERS_KEY := IdempotencyKey("admin-1", "key-one")

  lemma ApproverReadyWhen(s: Store)
    requires s.approvals.approvals == map[Race.APPROVAL := ApprovedForm(Race.REQUESTED, "admin-1", 1)]
    requires RateLimiter.MemoryAccepts(s.calls, Race.DEPLOY.rateLimit,
      RateLimiter.Call(RateLimiter.Key("admin-1", "deploy"), 2))
    requires ReserveOutcomeOf(s.keys, APPROVERS_KEY, 2, Race.DEMO.idempotencyTtl) == Fresh
    ensures Race.Ready(Race.DEMO, s, ApproversCall())
  {
    Race.FitsDemo(ApproversCall());
  }

  lemma ApproverReady(s: Store)
    requires Race.Primed(s)
    ensures Race.Ready(Race.DEMO, s, ApproversCall())
  {
    assert Race.FIRST_KEYS[..0] == [];
    Race.FreeKeyIsFresh(Race.FIRST_KEYS, APPROVERS_KEY, 2, Race.DEMO.idempotencyTtl);
    ApproverReadyWhen(s);
  }

  /** The last event of the run. */
  ghost predicate SpentByApprover(trace: seq<Event>) {
    && |trace| > 0
    && var e := trace[|trace| - 1];
      e.Dispatched? && e.principal == Race.APPROVER && e.approvalId == Some(Race.APPROVAL) && e.outcome.Returned?
  }

  lemma DispatchComesLast(s: System)
    requires Tid(1) in s.calls && s.calls[Tid(1)].request == ApproversRequest()
    requires s.calls[Tid(1)].pc == AtDispatch && s.calls[Tid(1)].approval == Some(Race.APPROVAL)
    ensures SpentByApprover(Act(Race.DEMO, s, StepCall(Tid(1), Race.TICK)).trace)
  {
    Race.ActIsAdvance(Race.DEMO, s, Tid(1), Race.TICK,
      DispatchStep(Race.DEMO, Tid(1), s.store, s.calls[Tid(1)], Race.TICK.outcome));
  }

  lemma ApproverReaches(s: System)
    requires Tid(1) !in s.calls && Race.Primed(s.store)
    ensures SpentByApprover(From(Race.DEMO, s, [StartCall(Tid(1), ApproversRequest(), 2)] + Spending()).trace)
  {
    var start := [StartCall(Tid(1), ApproversRequest(), 2)];
    var s1 := Act(Race.DEMO, s, start[0]);
    assert s1 == s.(calls := s.calls[Tid(1) := ApproversCall()]);
    FromAppend(Race.DEMO, s, [], start[0]);
    assert [] + [start[0]] == start;
    FromThenFrom(Race.DEMO, s, start, Spending());
    ApproverReady(s.store);
    Race.ReachesDispatch(Race.DEMO, s1, Tid(1), Race.TICK);
    FromAppend(Race.DEMO, s1, Race.FiveSteps(Tid(1), Race.TICK), StepCall(Tid(1), Race.TICK));
    DispatchComesLast(From(Race.DEMO, s1, Race.FiveSteps(Tid(1), Race.TICK)));
  }

  lemma ApproverRunParts()
    ensures Run(Race.DEMO, ApproverRun())
      == From(Race.DEMO, From(Race.DEMO, From(Race.DEMO, INITIAL, Race.Asking()), Race.Granting()),
              [StartCall(Tid(1), ApproversRequest(), 2)] + Spending())
  {
    var last := [StartCall(Tid(1), ApproversRequest(), 2)] + Spending();
    assert ApproverRun() == Race.Asking() + Race.Granting() + last && [] + ApproverRun() == ApproverRun();
    RunThenFrom(Race.DEMO, [], ApproverRun());
    FromThenFrom(Race.DEMO, INITIAL, Race.Asking() + Race.Granting(), last);
    FromThenFrom(Race.DEMO, INITIAL, Race.Asking(), Race.Granting());
  }

  /** The tool runs for the approver on the approval it granted to the engineer. */
  lemma ApproverSpends()
    ensures SpentByApprover(Run(Race.DEMO, ApproverRun()).trace)
    ensures Race.REQUESTED.requesterId != Race.APPROVER.id
  {
    Race.AfterAsking();
    var asked := From(Race.DEMO, INITIAL, Race.Asking());
    Race.AfterGranting(asked);
    ApproverReaches(From(Race.DEMO, asked, Race.Granting()));
    ApproverRunParts();
  }
}
