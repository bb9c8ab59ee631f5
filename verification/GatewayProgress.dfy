/**
 Where the checks of a call lead, by the request and the stores alone: which check refuses
 it and with which error, and when it is let through to its dispatch.
 */
module GatewayProgress {
  import opened Wrappers
  import opened GatewayTypes
  import opened Approvals
  import opened Idempotency
  import opened GatewayMachine
  import opened GatewayTerms
  import RateLimiter
  import Effects = ApprovalEffects
  import G = GatewayApprovals
  import A = GatewayAnswers
  import K = GatewayKeys
  import S = GatewaySpender

  /** Where the next step takes the call. */
  function Next(cfg: Config, s: System, t: Tid, tick: Tick): (pc: Pc)
    requires t in s.calls
  {
    Advance(cfg, t, s.store, s.calls[t], tick).call.pc
  }

  lemma NextIsActed(cfg: Config, s: System, t: Tid, tick: Tick)
    requires t in s.calls
    ensures var s' := Act(cfg, s, StepCall(t, tick));
      t in s'.calls && s'.calls[t].pc == Next(cfg, s, t, tick)
  {
  }

  /** There is room for one more call in the window, as the deque of this caller and tool tells it. */
  ghost predicate WithinRate(s: Store, m: A.Matter) {
    RateLimiter.MemoryAccepts(s.calls, m.tool.rateLimit,
      RateLimiter.Call(RateLimiter.Key(m.p.id, m.tool.toolName), m.now))
  }

  /** The routed arguments of a request are determined. */
  lemma RoutesOnce(a: Args, b: Args, raw: Args, role: Role, governed: bool)
    requires Routes(a, raw, role, governed) && Routes(b, raw, role, governed)
    ensures a == b
  {
    assert a.Keys == b.Keys;
  }

  lemma InvalidIff(cfg: Config, t: Tid, c: ToolCall)
    ensures A.Invalid(cfg, A.MatterOf(cfg, t, c)) <==>
      !cfg.validates(ToolOf(cfg, c), TrustedArguments(Sanitized(c), Actor(cfg, c), ToolOf(cfg, c)))
  {
    var m := A.MatterOf(cfg, t, c);
    var routed := TrustedArguments(Sanitized(c), m.p, m.tool);
    TrustedRoutes(c.request.arguments, m.p, m.tool);
    if other :| Routes(other, c.request.arguments, m.p.role, m.tool.requiresApproval) && !cfg.validates(m.tool, other) {
      RoutesOnce(routed, other, c.request.arguments, m.p.role, m.tool.requiresApproval);
    }
  }

  /** First the rate, then the arguments. */
  lemma LimitLeads(cfg: Config, actions: seq<Action>, t: Tid, tick: Tick)
    requires t in Run(cfg, actions).calls && Run(cfg, actions).calls[t].pc == AtLimit
    ensures var s := Run(cfg, actions);
      var m := A.MatterOf(cfg, t, s.calls[t]);
      && Cleared(cfg, m.request, m.p, m.tool)
      && Next(cfg, s, t, tick) ==
        if !WithinRate(s.store, m) then AtFailAudit(ErrorCode.RateLimitExceeded)
        else if A.Invalid(cfg, m) then AtFailAudit(MalformedArguments)
        else AtReserve
  {
    var s := Run(cfg, actions);
    G.RunInvariant(cfg, actions);
    A.CallIsReady(cfg, s.trace, s.store.approvals, s.calls[t]);
    InvalidIff(cfg, t, s.calls[t]);
  }

  /** What follows a reservation: the dispatch, a request for approval, or the check of the approval named. */
  ghost predicate Follows(m: A.Matter, pc: Pc) {
    if !m.tool.requiresApproval then pc == AtMarkRunning
    else if m.request.approvalId.None? then pc == AtCreate
    else pc == AtLookup
  }

  /** Then the key: an unfinished operation is refused, a finished one replayed. */
  lemma ReserveLeads(cfg: Config, actions: seq<Action>, t: Tid, tick: Tick)
    requires t in Run(cfg, actions).calls && Run(cfg, actions).calls[t].pc == AtReserve
    ensures var s := Run(cfg, actions);
      var m, pc := A.MatterOf(cfg, t, s.calls[t]), Next(cfg, s, t, tick);
      var k := IdempotencyKey(m.p.id, m.request.idempotencyKey);
      && Cleared(cfg, m.request, m.p, m.tool)
      && if !Unexpired(s.store.keys, k, m.now, cfg.idempotencyTtl) then Follows(m, pc)
         else
           var kept := Lookup(s.store.keys, k).value;
           pc == if kept.response.Some? && kept.status != Reserved && kept.status != Running
                 then Done(kept.response.value, true) else AtFailAudit(DuplicateOperation)
  {
    var s := Run(cfg, actions);
    G.RunInvariant(cfg, actions);
    A.CallIsReady(cfg, s.trace, s.store.approvals, s.calls[t]);
    K.RunInvariant(cfg, actions);
    ReserveStepLeads(cfg, t, s.store, s.calls[t]);
  }

  lemma ReserveStepLeads(cfg: Config, t: Tid, s: Store, c: ToolCall)
    requires DistinctKeys(s.keys)
    ensures var m, pc := A.MatterOf(cfg, t, c), ReserveStep(cfg, t, s, c).call.pc;
      var k := IdempotencyKey(m.p.id, m.request.idempotencyKey);
      if !Unexpired(s.keys, k, m.now, cfg.idempotencyTtl) then Follows(m, pc)
      else
        var kept := Lookup(s.keys, k).value;
        pc == if kept.response.Some? && kept.status != Reserved && kept.status != Running
              then Done(kept.response.value, true) else AtFailAudit(DuplicateOperation)
  {
    OutcomeIff(s.keys, KeyOf(cfg, c), c.now, cfg.idempotencyTtl);
  }

  /** A call that needs an approval and names none stores the record it asks for, in its own name. */
  lemma CreateLeads(cfg: Config, actions: seq<Action>, t: Tid, tick: Tick)
    requires t in Run(cfg, actions).calls && Run(cfg, actions).calls[t].pc == AtCreate
    requires tick.freshId !in Run(cfg, actions).store.approvals.approvals
    ensures var s := Run(cfg, actions);
      var m, r := A.MatterOf(cfg, t, s.calls[t]), Advance(cfg, t, s.store, s.calls[t], tick);
      var st' := r.store.approvals;
      && Cleared(cfg, m.request, m.p, m.tool)
      && r.call.pc == AtPendingAudit(tick.freshId) && r.store == s.store.(approvals := st')
      && tick.freshId in st'.approvals && st'.approvals[tick.freshId].id == tick.freshId
      && A.AskedFor(cfg, m, st'.approvals[tick.freshId])
      && Effects.Becomes(s.store.approvals, st', st'.approvals[tick.freshId], "approval.requested", m.p, m.now,
           "PENDING_APPROVAL", "Approval request created.")
  {
    var s := Run(cfg, actions);
    G.RunInvariant(cfg, actions);
    A.CallIsReady(cfg, s.trace, s.store.approvals, s.calls[t]);
    A.RequestedIsAskedFor(cfg, t, s.calls[t], tick.freshId);
    Effects.CreateEffect(s.store.approvals, RequestedApproval(cfg, s.calls[t], tick.freshId), Actor(cfg, s.calls[t]),
      s.calls[t].now);
  }

  /** Then the approval named: it must be there, and not have lapsed. */
  lemma LookupLeads(cfg: Config, actions: seq<Action>, t: Tid, id: Id, tick: Tick)
    requires t in Run(cfg, actions).calls
    requires var c := Run(cfg, actions).calls[t]; c.pc == AtLookup && c.request.approvalId == Some(id)
    ensures var s := Run(cfg, actions);
      var st := s.store.approvals;
      Next(cfg, s, t, tick) ==
        if id !in st.approvals then AtFailAudit(ApprovalNotFound)
        else if Effects.Lapsed(st.approvals[id], s.calls[t].now) then AtFailAudit(ErrorCode.ExpiredApproval)
        else AtVerify
  {
    var s := Run(cfg, actions);
    G.RunInvariant(cfg, actions);
    A.CallIsReady(cfg, s.trace, s.store.approvals, s.calls[t]);
    Effects.GetEffect(s.store.approvals, id, s.calls[t].now);
  }

  /** And it must be approved and about this request. */
  lemma VerifyLeads(cfg: Config, actions: seq<Action>, t: Tid, id: Id, tick: Tick)
    requires t in Run(cfg, actions).calls
    requires var c := Run(cfg, actions).calls[t]; c.pc == AtVerify && c.request.approvalId == Some(id)
    ensures var s := Run(cfg, actions);
      var st, m := s.store.approvals, A.MatterOf(cfg, t, s.calls[t]);
      && Cleared(cfg, m.request, m.p, m.tool)
      && Next(cfg, s, t, tick) ==
        if id in st.approvals && st.approvals[id].status == Approved
           && G.AboutRequest(st.approvals[id], m.tool, m.request)
        then AtMarkRunning else AtFailAudit(MalformedArguments)
  {
    var s := Run(cfg, actions);
    G.RunInvariant(cfg, actions);
    A.CallIsReady(cfg, s.trace, s.store.approvals, s.calls[t]);
    S.AnyoneSpendsIff(cfg, actions, t, id, tick);
    NextIsActed(cfg, s, t, tick);
    VerifyStepLeads(cfg, t, s.store, s.calls[t], tick);
  }

  lemma VerifyStepLeads(cfg: Config, t: Tid, s: Store, c: ToolCall, tick: Tick)
    requires c.pc == AtVerify
    ensures Advance(cfg, t, s, c, tick).call.pc in {AtMarkRunning, AtFailAudit(MalformedArguments)}
  {
  }
}
