/**
 The gateway object: call_tool, the rulings and the listings as methods over the four
 stores.  A call run to its end in one go does what the machine's call thread does, so
 every guarantee about runs of the machine covers it.
 */
module Gateway {
  import opened Wrappers
  import opened GatewayTypes
  import opened Approvals
  import opened Idempotency
  import opened GatewayMachine
  import RateLimiter
  import Effects = ApprovalEffects
  import Rulings = GatewayRulings
  import Terms = GatewayTerms

  /** What the environment supplies at each point of a call. */
  type Environment = nat -> Tick

  function StepOf(cfg: Config, s: Store, c: ToolCall, env: Environment): StepResult {
    Advance(cfg, Tid(0), s, c, env(Rank(c.pc)))
  }

  /** Run a call on its own until it ends. */
  function Finish(cfg: Config, s: Store, c: ToolCall, env: Environment): (Store, ToolCall)
    decreases Rank(c.pc)
  {
    var r := StepOf(cfg, s, c, env);
    if Rank(r.call.pc) < Rank(c.pc) then Finish(cfg, r.store, r.call, env) else (s, c)
  }

  /** The call as it enters the gateway. */
  function Entering(cfg: Config, request: Request, now: Time): ToolCall {
    ToolCall(request, now, Admission(cfg, request), false, None)
  }

  function Answer(c: ToolCall): Option<Response> {
    if c.pc.Done? then Some(c.pc.response) else None
  }

  /** Completing the key is the last step. */
  lemma CompletionEnds(
    cfg: Config, s: Store, c: ToolCall, response: Response, status: OperationStatus, env: Environment)
    ensures Finish(cfg, s, c.(pc := AtComplete(response, status)), env)
         == (s.(keys := CompleteEntries(s.keys, KeyOf(cfg, c), response, status, env(1).clock)),
           c.(pc := Done(response, false)))
  {
  }

  /** A failure is audited, and completes the key if the call reserved it. */
  lemma FailureEnds(cfg: Config, s: Store, c: ToolCall, code: ErrorCode, env: Environment)
    ensures var response := Response(false, Denied, c.request.correlationId, c.request.toolName, ErrorBody(code));
      var audited := Audited(s, AuditOf(cfg, c, c.request.toolName, env(2).clock, Denied,
                                        if Known(cfg, c) then Some(ToolOf(cfg, c).risk)
                                          else None, None, "DENIED", CodeText(code)));
      Finish(cfg, s, c.(pc := AtFailAudit(code)), env)
        == (if c.reserved then audited.(keys := CompleteEntries(s.keys, KeyOf(cfg, c), response, PermanentFailed,
          env(1).clock)) else audited,
            c.(pc := Done(response, false)))
  {
    var r := FailAuditStep(cfg, s, c.(pc := AtFailAudit(code)), code, env(2).clock);
    assert StepOf(cfg, s, c.(pc := AtFailAudit(code)), env) == r;
    if c.reserved {
      CompletionEnds(cfg, r.store, c, r.call.pc.response, PermanentFailed, env);
    } else {
      assert Finish(cfg, r.store, r.call, env) == (r.store, r.call);
    }
  }

  /** A success is audited and completes the key. */
  lemma SuccessEnds(cfg: Config, s: Store, c: ToolCall, result: Json, env: Environment)
    ensures var tool := ToolOf(cfg, c);
      var response := Response(true, Allowed, c.request.correlationId, tool.toolName, ResultBody(result));
      var audited := Audited(s,
        AuditOf(cfg, c, tool.toolName, env(3).clock, Allowed, Some(tool.risk), StatusIn(s, c.approval), "SUCCEEDED",
          "ALLOWED"));
      Finish(cfg, s, c.(pc := AtSuccessAudit(result)), env)
        == (audited.(keys := CompleteEntries(s.keys, KeyOf(cfg, c), response, Succeeded, env(1).clock)),
          c.(pc := Done(response, false)))
  {
    var r := SuccessAuditStep(cfg, s, c.(pc := AtSuccessAudit(result)), result, env(3).clock);
    assert StepOf(cfg, s, c.(pc := AtSuccessAudit(result)), env) == r;
    CompletionEnds(cfg, r.store, c, r.call.pc.response, Succeeded, env);
  }

  lemma ReserveStepGoesOn(cfg: Config, s: Store, c: ToolCall, env: Environment)
    requires c.pc == AtReserve
    ensures var r := ReserveStep(cfg, Tid(0), s, c);
      Finish(cfg, s, c, env) == Finish(cfg, r.store, r.call, env)
  {
    var r := ReserveStep(cfg, Tid(0), s, c);
    assert StepOf(cfg, s, c, env) == r;
  }

  lemma EndedStays(cfg: Config, s: Store, c: ToolCall, env: Environment)
    requires c.pc.Done?
    ensures Finish(cfg, s, c, env) == (s, c)
  {
  }

  /** Where the reservation leads: to the end of a replay, to a failure, or on with the key reserved. */
  lemma ReservationLeads(cfg: Config, s: Store, c: ToolCall, env: Environment)
    ensures var k := KeyOf(cfg, c);
      var s' := s.(keys := ReserveEntries(s.keys, k, c.now, cfg.idempotencyTtl, cfg.maxEntries));
      Finish(cfg, s, c.(pc := AtReserve), env) ==
        match ReserveOutcomeOf(s.keys, k, c.now, cfg.idempotencyTtl)
        case Replay(response) => (s', c.(pc := Done(response, true)))
        case Duplicate => Finish(cfg, s', c.(pc := AtFailAudit(DuplicateOperation)), env)
        case Fresh => Finish(cfg, s', c.(pc := AfterReservation(cfg, c), reserved := true), env)
  {
    var entering := c.(pc := AtReserve);
    var r := ReserveStep(cfg, Tid(0), s, entering);
    ReserveStepGoesOn(cfg, s, entering, env);
    assert AfterReservation(cfg, entering) == AfterReservation(cfg, c);
    if r.call.pc.Done? {
      EndedStays(cfg, r.store, r.call, env);
    }
  }

  /** Where the look-up of the named approval leads: to a failure, or on with the approval to spend. */
  lemma LookupLeads(cfg: Config, s: Store, c: ToolCall, env: Environment)
    requires c.request.approvalId.Some?
    ensures var looked := LookupStep(cfg, s, c.(pc := AtLookup));
      Finish(cfg, s, c.(pc := AtLookup), env) ==
        if looked.call.pc != AtVerify then Finish(cfg, looked.store, looked.call, env)
        else
          var checked := VerifyStep(cfg, looked.store, looked.call);
          Finish(cfg, checked.store, checked.call, env)
  {
    var looked := LookupStep(cfg, s, c.(pc := AtLookup));
    assert StepOf(cfg, s, c.(pc := AtLookup), env) == looked;
    if looked.call.pc == AtVerify {
      assert StepOf(cfg, looked.store, looked.call, env) == VerifyStep(cfg, looked.store, looked.call);
    }
  }

  /** Where the rate and schema checks lead. */
  lemma LimitLeads(cfg: Config, s: Store, c: ToolCall, env: Environment)
    requires c.pc == AtLimit
    ensures var tool := ToolOf(cfg, c);
      var call := RateLimiter.Call(RateLimiter.Key(Actor(cfg, c).id, tool.toolName), c.now);
      var s' := s.(calls := RateLimiter.MemoryCheck(s.calls, tool.rateLimit, call));
      Finish(cfg, s, c, env) ==
        if !RateLimiter.MemoryAccepts(s.calls, tool.rateLimit, call) then
          Finish(cfg, s', c.(pc := AtFailAudit(ErrorCode.RateLimitExceeded)), env)
        else if !cfg.validates(tool, TrustedArguments(Sanitized(c), Actor(cfg, c), tool)) then
          Finish(cfg, s', c.(pc := AtFailAudit(MalformedArguments)), env)
        else Finish(cfg, s', c.(pc := AtReserve), env)
  {
    var r := LimitStep(cfg, s, c);
    assert StepOf(cfg, s, c, env) == r;
    assert Finish(cfg, s, c, env) == Finish(cfg, r.store, r.call, env);
  }

  /** A new approval is audited with its status, and the call answers that it is pending. */
  lemma CreationEnds(cfg: Config, s: Store, c: ToolCall, env: Environment)
    requires env(8).freshId !in s.approvals.approvals
    ensures var a, tool := RequestedApproval(cfg, c, env(8).freshId), ToolOf(cfg, c);
      var created := s.(approvals := Create(s.approvals, a, Actor(cfg, c), c.now));
      var audited := Audited(created,
        AuditOf(cfg, c, tool.toolName, env(7).clock, PendingApproval, Some(tool.risk), Some(a.status),
                                              "PENDING_APPROVAL", "PENDING_APPROVAL"));
      Finish(cfg, s, c.(pc := AtCreate), env)
        == (audited, c.(pc := Done(Response(true, PendingApproval, c.request.correlationId, tool.toolName,
                                            PendingBody(a.id, a.status, tool.risk)), false)))
  {
    var id := env(8).freshId;
    var made := CreateStep(cfg, Tid(0), s, c.(pc := AtCreate), id);
    assert StepOf(cfg, s, c.(pc := AtCreate), env) == made;
    assert Finish(cfg, s, c.(pc := AtCreate), env) == Finish(cfg, made.store, made.call, env);
    PendingEnds(cfg, made.store, c, id, env);
  }

  lemma PendingEnds(cfg: Config, s: Store, c: ToolCall, id: Id, env: Environment)
    ensures var r := PendingAuditStep(cfg, s, c.(pc := AtPendingAudit(id)), id, env(7).clock);
      Finish(cfg, s, c.(pc := AtPendingAudit(id)), env) == (r.store, r.call)
  {
    var r := PendingAuditStep(cfg, s, c.(pc := AtPendingAudit(id)), id, env(7).clock);
    assert StepOf(cfg, s, c.(pc := AtPendingAudit(id)), env) == r;
    assert Finish(cfg, r.store, r.call, env) == (r.store, r.call);
  }

  /** A dispatch changes no store, and its outcome decides where the call goes on. */
  lemma DispatchLeads(cfg: Config, s: Store, c: ToolCall, env: Environment)
    ensures var r := DispatchStep(cfg, Tid(0), s, c.(pc := AtDispatch), env(5).outcome);
      Finish(cfg, s, c.(pc := AtDispatch), env) == Finish(cfg, s, r.call, env)
  {
    var r := DispatchStep(cfg, Tid(0), s, c.(pc := AtDispatch), env(5).outcome);
    assert StepOf(cfg, s, c.(pc := AtDispatch), env) == r;
  }

  /** A refused mark turns a success into a failure. */
  lemma ExecutedLeads(cfg: Config, s: Store, c: ToolCall, result: Json, env: Environment)
    requires c.approval.Some?
    ensures var (st', reply) := MarkExecuted(s.approvals, c.approval.value, Actor(cfg, c), env(4).clock, result);
      Finish(cfg, s, c.(pc := AtMarkExecuted(result)), env) ==
        Finish(cfg, s.(approvals := st'),
          c.(pc := if reply.Err? then AtFailAudit(reply.error) else AtSuccessAudit(result)), env)
  {
    var r := MarkExecutedStep(cfg, Tid(0), s, c.(pc := AtMarkExecuted(result)), result, env(4).clock);
    assert StepOf(cfg, s, c.(pc := AtMarkExecuted(result)), env) == r;
    assert Finish(cfg, s, c.(pc := AtMarkExecuted(result)), env) == Finish(cfg, r.store, r.call, env);
  }

  /** A refused mark replaces the error of the dispatch. */
  lemma FailedLeads(cfg: Config, s: Store, c: ToolCall, code: ErrorCode, env: Environment)
    requires c.approval.Some?
    ensures var (st', reply) := MarkFailed(s.approvals, c.approval.value, Actor(cfg, c), env(4).clock, CodeText(code));
      Finish(cfg, s, c.(pc := AtMarkFailed(code)), env) ==
        Finish(cfg, s.(approvals := st'), c.(pc := AtFailAudit(if reply.Err? then reply.error else code)), env)
  {
    var r := MarkFailedStep(cfg, Tid(0), s, c.(pc := AtMarkFailed(code)), code, env(4).clock);
    assert StepOf(cfg, s, c.(pc := AtMarkFailed(code)), env) == r;
    assert Finish(cfg, s, c.(pc := AtMarkFailed(code)), env) == Finish(cfg, r.store, r.call, env);
  }

  /** Why a caller may not read approvals. */
  function ReadRefusal(cfg: Config, authToken: string): ErrorCode {
    if cfg.authenticate(authToken).None? then ErrorCode.AuthenticationFailed else PermissionDenied
  }

  class McpGateway {
    const cfg: Config
    const limiter: RateLimiter.FixedWindowRateLimiter
    const idempotency: IdempotencyStore
    const approvals: ApprovalStore
    const auditLog: AuditLog

    ghost predicate Valid() {
      && approvals.auditLog == auditLog
      && approvals.ttl == cfg.approvalTtl
      && idempotency.ttl == cfg.idempotencyTtl && idempotency.maxEntries == cfg.maxEntries
    }

    ghost function State(): Store
      reads limiter, idempotency, approvals, approvals.auditLog
    {
      Store(approvals.State(), idempotency.keys, limiter.calls)
    }

    constructor (cfg: Config)
      ensures Valid() && State() == INITIAL.store
      ensures fresh(limiter) && fresh(idempotency) && fresh(approvals) && fresh(auditLog)
    {
      this.cfg := cfg;
      var log := new AuditLog();
      limiter := new RateLimiter.FixedWindowRateLimiter();
      idempotency := new IdempotencyStore(cfg.idempotencyTtl, cfg.maxEntries);
      approvals := new ApprovalStore(cfg.approvalTtl, log);
      auditLog := log;
    }

    /** The checks made before any store is touched; None lets the call through. */
    method Admit(request: Request) returns (refusal: Option<ErrorCode>)
      ensures Admission(cfg, request) == if refusal.Some? then AtFailAudit(refusal.value) else AtLimit
    {
      var principal := cfg.authenticate(request.authToken);
      if principal.None? {
        return Some(ErrorCode.AuthenticationFailed);
      }
      if request.toolName !in cfg.registry {
        return Some(UnknownTool);
      }
      var tool := cfg.registry[request.toolName];
      if tool.toolName in cfg.disabledTools || !tool.enabled {
        return Some(DisabledTool);
      }
      if !tool.executable {
        return Some(NonExecutableTool);
      }
      if !cfg.permits(principal.value.role, tool.requiredPermission) {
        return Some(PermissionDenied);
      }
      return None;
    }

    /** Audit a failure, and record the response under the key if it was reserved. */
    method Fail(c: ToolCall, code: ErrorCode, env: Environment) returns (r: Option<Response>)
      requires Valid()
      modifies idempotency, auditLog
      ensures var (s', c') := Finish(cfg, old(State()), c.(pc := AtFailAudit(code)), env);
        State() == s' && r == Answer(c')
    {
      FailureEnds(cfg, State(), c, code, env);
      var response := Response(false, Denied, c.request.correlationId, c.request.toolName, ErrorBody(code));
      auditLog.Append(AuditOf(cfg, c, c.request.toolName, env(2).clock, Denied,
        if Known(cfg, c) then Some(ToolOf(cfg, c).risk) else None,
                              None, "DENIED", CodeText(code)));
      if c.reserved {
        idempotency.Complete(Actor(cfg, c).id, c.request.idempotencyKey, response, PermanentFailed, env(1).clock);
      }
      return Some(response);
    }

    /** Audit a success and record the response under the key. */
    method Succeed(c: ToolCall, result: Json, env: Environment) returns (r: Option<Response>)
      requires Valid()
      modifies idempotency, auditLog
      ensures var (s', c') := Finish(cfg, old(State()), c.(pc := AtSuccessAudit(result)), env);
        State() == s' && r == Answer(c')
    {
      SuccessEnds(cfg, State(), c, result, env);
      var tool := ToolOf(cfg, c);
      var status := if c.approval.Some? && c.approval.value in approvals.approvals
        then Some(approvals.approvals[c.approval.value].status) else None;
      var response := Response(true, Allowed, c.request.correlationId, tool.toolName, ResultBody(result));
      auditLog.Append(AuditOf(cfg, c, tool.toolName, env(3).clock, Allowed, Some(tool.risk), status, "SUCCEEDED",
        "ALLOWED"));
      idempotency.Complete(Actor(cfg, c).id, c.request.idempotencyKey, response, Succeeded, env(1).clock);
      return Some(response);
    }

    /** Ask for approval and answer that it is pending. */
    method AskForApproval(c: ToolCall, env: Environment) returns (r: Option<Response>)
      requires Valid() && env(8).freshId !in approvals.approvals
      modifies approvals, auditLog
      ensures var (s', c') := Finish(cfg, old(State()), c.(pc := AtCreate), env);
        State() == s' && r == Answer(c')
    {
      CreationEnds(cfg, State(), c, env);
      var p, tool, args := Actor(cfg, c), ToolOf(cfg, c), Sanitized(c);
      var approval := approvals.CreateApproval(
        p, tool.toolName, args, tool.risk, c.now, env(8).freshId, c.request.workflowId, c.request.workflowNodeId,
        Some(cfg.hashArguments(args)),
        Some(BindingOf(cfg, c.request.workflowId, c.request.workflowNodeId, tool.toolName, p.id, args)));
      assert approval == RequestedApproval(cfg, c, env(8).freshId);
      auditLog.Append(AuditOf(cfg, c, tool.toolName, env(7).clock, PendingApproval, Some(tool.risk),
        Some(approval.status),
                              "PENDING_APPROVAL", "PENDING_APPROVAL"));
      return Some(Response(true, PendingApproval, c.request.correlationId, tool.toolName,
                           PendingBody(approval.id, approval.status, tool.risk)));
    }

    /** Look the named approval up and check it against the request; the error code if it does not serve. */
    method CheckApproval(c: ToolCall, id: Id) returns (refusal: Option<ErrorCode>)
      requires Valid() && c.request.approvalId == Some(id)
      modifies approvals, auditLog
      ensures var looked := LookupStep(cfg, old(State()), c);
        && State() == looked.store
        && if looked.call.pc == AtVerify
           then VerifyStep(cfg, State(), looked.call) ==
             (if refusal.Some? then Goto(State(), looked.call, AtFailAudit(refusal.value))
                                                          else StepResult(State(),
                                                            c.(pc := AtMarkRunning, approval := Some(id)), []))
           else refusal.Some? && looked.call.pc == AtFailAudit(refusal.value)
    {
      var reply := approvals.GetLive(id, c.now);
      if reply.Err? {
        return Some(reply.error);
      }
      if id in approvals.approvals && ApprovalFits(cfg, c, approvals.approvals[id]) {
        return None;
      }
      return Some(MalformedArguments);
    }

    /** Mark the key as running, then dispatch. */
    method Execute(c: ToolCall, env: Environment) returns (r: Option<Response>)
      requires Valid()
      modifies idempotency, approvals, auditLog
      ensures var (s', c') := Finish(cfg, old(State()), c.(pc := AtMarkRunning), env);
        State() == s' && r == Answer(c')
    {
      ghost var s := State();
      idempotency.MarkRunning(Actor(cfg, c).id, c.request.idempotencyKey);
      assert StepOf(cfg, s, c.(pc := AtMarkRunning), env) == Goto(State(), c, AtDispatch);
      r := Dispatch(c, env);
    }

    /** Dispatch the tool, then mark the approval and answer. */
    method Dispatch(c: ToolCall, env: Environment) returns (r: Option<Response>)
      requires Valid()
      modifies idempotency, approvals, auditLog
      ensures var (s', c') := Finish(cfg, old(State()), c.(pc := AtDispatch), env);
        State() == s' && r == Answer(c')
    {
      DispatchLeads(cfg, State(), c, env);
      match env(5).outcome {
        case Escaped => return None;
        case Returned(result) =>
          if c.approval.None? {
            r := Succeed(c, result, env);
          } else {
            r := FinishExecuted(c, result, env);
          }
        case ReturnedError => r := FinishFailed(c, MalformedArguments, env);
        case Raised(code) => r := FinishFailed(c, code, env);
      }
    }

    method FinishExecuted(c: ToolCall, result: Json, env: Environment) returns (r: Option<Response>)
      requires Valid() && c.approval.Some?
      modifies idempotency, approvals, auditLog
      ensures var (s', c') := Finish(cfg, old(State()), c.(pc := AtMarkExecuted(result)), env);
        State() == s' && r == Answer(c')
    {
      ExecutedLeads(cfg, State(), c, result, env);
      var reply := approvals.MarkOneExecuted(c.approval.value, Actor(cfg, c), env(4).clock, result);
      if reply.Err? {
        r := Fail(c, reply.error, env);
      } else {
        r := Succeed(c, result, env);
      }
    }

    method FinishFailed(c: ToolCall, code: ErrorCode, env: Environment) returns (r: Option<Response>)
      requires Valid()
      modifies idempotency, approvals, auditLog
      ensures var (s', c') :=
        Finish(cfg, old(State()), c.(pc := if c.approval.Some? then AtMarkFailed(code) else AtFailAudit(code)), env);
        State() == s' && r == Answer(c')
    {
      if c.approval.None? {
        r := Fail(c, code, env);
        return;
      }
      FailedLeads(cfg, State(), c, code, env);
      var reply := approvals.MarkOneFailed(c.approval.value, Actor(cfg, c), env(4).clock, CodeText(code));
      r := Fail(c, if reply.Err? then reply.error else code, env);
    }

    /** call_tool; None when an exception other than the gateway's own escapes. */
    method CallTool(request: Request, now: Time, env: Environment) returns (r: Option<Response>)
      requires Valid() && env(8).freshId !in approvals.approvals
      modifies limiter, idempotency, approvals, auditLog
      ensures var (s', c') := Finish(cfg, old(State()), Entering(cfg, request, now), env);
        State() == s' && r == Answer(c')
    {
      var c := ToolCall(request, now, AtLimit, false, None);
      var refusal := Admit(request);
      if refusal.Some? {
        r := Fail(c, refusal.value, env);
        return;
      }
      LimitLeads(cfg, State(), c, env);
      var tool, actor := ToolOf(cfg, c), Actor(cfg, c);
      var withinRate := limiter.Check(actor.id, tool.toolName, tool.rateLimit, now);
      if !withinRate {
        r := Fail(c, ErrorCode.RateLimitExceeded, env);
      } else if !cfg.validates(tool, TrustedArguments(Sanitized(c), actor, tool)) {
        r := Fail(c, MalformedArguments, env);
      } else {
        r := Reserved(c, env);
      }
    }

    /** The rest of call_tool, from the reservation of the idempotency key on. */
    method Reserved(c: ToolCall, env: Environment) returns (r: Option<Response>)
      requires Valid() && env(8).freshId !in approvals.approvals && !c.reserved && c.approval.None?
      modifies idempotency, approvals, auditLog
      ensures var (s', c') := Finish(cfg, old(State()), c.(pc := AtReserve), env);
        State() == s' && r == Answer(c')
    {
      ReservationLeads(cfg, State(), c, env);
      var outcome := idempotency.Reserve(Actor(cfg, c).id, c.request.idempotencyKey, c.now);
      match outcome {
        case Replay(response) =>
          return Some(response);
        case Duplicate =>
          r := Fail(c, DuplicateOperation, env);
        case Fresh =>
          var held := c.(reserved := true);
          if !ToolOf(cfg, c).requiresApproval {
            r := Execute(held, env);
          } else if c.request.approvalId.None? {
            r := AskForApproval(held, env);
          } else {
            r := SpendApproval(held, env);
          }
      }
    }

    method SpendApproval(c: ToolCall, env: Environment) returns (r: Option<Response>)
      requires Valid() && c.request.approvalId.Some?
      modifies idempotency, approvals, auditLog
      ensures var (s', c') := Finish(cfg, old(State()), c.(pc := AtLookup), env);
        State() == s' && r == Answer(c')
    {
      LookupLeads(cfg, State(), c, env);
      var refusal := CheckApproval(c.(pc := AtLookup), c.request.approvalId.value);
      if refusal.Some? {
        r := Fail(c, refusal.value, env);
      } else {
        r := Execute(c.(approval := c.request.approvalId), env);
      }
    }

    /** approve_operation and reject_operation. */
    method RuleOnOperation(authToken: string, id: Id, verb: Verb, now: Time) returns (reply: Reply)
      requires Valid()
      modifies approvals, auditLog
      ensures var p := cfg.authenticate(authToken);
        if p.None? then State() == old(State()) && reply == Err(ErrorCode.AuthenticationFailed)
        else
          var ruled := Rulings.Decide(cfg, old(State()), p.value, id, verb, now);
          State() == ruled.store && ruled.ruling.pc == Ruled(reply)
      ensures Effects.Keyed(old(State()).approvals) ==>
        && Rulings.RulingAnswered(cfg, old(State()).approvals, State().approvals, reply, authToken, id, verb, now)
        && State() == old(State()).(approvals := State().approvals)
    {
      var p := cfg.authenticate(authToken);
      if p.None? {
        return Err(ErrorCode.AuthenticationFailed);
      }
      if Effects.Keyed(State().approvals) {
        Rulings.RulingAnswers(cfg, State(), authToken, p.value, id, verb, now);
      }
      reply := approvals.GetLive(id, now);
      if reply.Err? {
        return;
      }
      if !MayApprove(cfg, p.value, reply.value.requesterId) {
        return Err(PermissionDenied);
      }
      match verb {
        case Approving => reply := approvals.ApproveOne(id, p.value, now);
        case Rejecting(reason) => reply := approvals.RejectOne(id, p.value, reason, now);
      }
    }

    /** list_approvals; the refusal when the caller may not list. */
    method ListApprovals(authToken: string, now: Time) returns (listed: Result<seq<Approval>, ErrorCode>)
      requires Valid()
      modifies approvals, auditLog
      ensures Terms.Reads(cfg, authToken) ==>
        && State() == old(State()).(approvals := ExpirePending(old(State()).approvals, now))
        && listed == Ok(Listed(State().approvals, None))
      ensures !Terms.Reads(cfg, authToken) ==>
        && State() == old(State())
        && listed == Err(if cfg.authenticate(authToken).None? then ErrorCode.AuthenticationFailed else PermissionDenied)
    {
      var p := cfg.authenticate(authToken);
      if p.None? {
        return Err(ErrorCode.AuthenticationFailed);
      }
      if !cfg.permits(p.value.role, APPROVE_PERMISSION) {
        return Err(PermissionDenied);
      }
      var found := approvals.ListAll(now, None);
      return Ok(found);
    }

    /** get_approval; the refusal when the caller may not read. */
    method GetApproval(authToken: string, id: Id, now: Time) returns (reply: Reply)
      requires Valid()
      modifies approvals, auditLog
      ensures Terms.Reads(cfg, authToken) ==>
        (State(), reply) == (old(State()).(approvals := Detail(old(State()).approvals, id, now).0),
          Detail(old(State()).approvals, id, now).1)
      ensures !Terms.Reads(cfg, authToken) ==>
        && State() == old(State())
        && reply == Err(if cfg.authenticate(authToken).None? then ErrorCode.AuthenticationFailed else PermissionDenied)
    {
      var p := cfg.authenticate(authToken);
      if p.None? {
        return Err(ErrorCode.AuthenticationFailed);
      }
      if !cfg.permits(p.value.role, APPROVE_PERMISSION) {
        return Err(PermissionDenied);
      }
      reply := approvals.GetDetail(id, now);
    }
  }

  // ---- a call in one go is a run of the machine

  /** The steps of one call, nothing in between. */
  ghost function Steps(cfg: Config, s: Store, c: ToolCall, tid: Tid, env: Environment): seq<Action>
    decreases Rank(c.pc)
  {
    var r := StepOf(cfg, s, c, env);
    if Rank(r.call.pc) < Rank(c.pc) then [StepCall(tid, env(Rank(c.pc)))] + Steps(cfg, r.store, r.call, tid, env)
      else []
  }

  /** Which thread a step belongs to shows in its events only. */
  lemma ThreadDoesNotMatter(cfg: Config, tid: Tid, s: Store, c: ToolCall, tick: Tick)
    ensures Advance(cfg, tid, s, c, tick).store == Advance(cfg, Tid(0), s, c, tick).store
    ensures Advance(cfg, tid, s, c, tick).call == Advance(cfg, Tid(0), s, c, tick).call
  {
  }

  /** Finishing a call in one go is stepping it to its end in the system. */
  lemma {:induction false} FinishIsSteps(cfg: Config, s: System, tid: Tid, env: Environment)
    requires tid in s.calls
    ensures var s' := From(cfg, s, Steps(cfg, s.store, s.calls[tid], tid, env));
      tid in s'.calls && (s'.store, s'.calls[tid]) == Finish(cfg, s.store, s.calls[tid], env)
    decreases Rank(s.calls[tid].pc)
  {
    var c := s.calls[tid];
    var r := StepOf(cfg, s.store, c, env);
    if Rank(r.call.pc) < Rank(c.pc) {
      var step := StepCall(tid, env(Rank(c.pc)));
      ThreadDoesNotMatter(cfg, tid, s.store, c, env(Rank(c.pc)));
      var s1 := Act(cfg, s, step);
      FinishIsSteps(cfg, s1, tid, env);
      var rest := Steps(cfg, r.store, r.call, tid, env);
      assert ([step] + rest)[1..] == rest;
    }
  }

  lemma EarlyStepLowersRank(cfg: Config, s: Store, c: ToolCall, env: Environment)
    requires c.pc.AtLimit? || c.pc.AtReserve? || c.pc.AtLookup? || c.pc.AtVerify?
    ensures Rank(StepOf(cfg, s, c, env).call.pc) < Rank(c.pc)
  {
  }

  lemma StoreStepLowersRank(cfg: Config, s: Store, c: ToolCall, env: Environment)
    requires c.pc.AtMarkRunning? || c.pc.AtDispatch? || c.pc.AtMarkFailed? || c.pc.AtMarkExecuted? || c.pc.AtComplete?
    ensures Rank(StepOf(cfg, s, c, env).call.pc) < Rank(c.pc)
  {
  }

  lemma AuditStepLowersRank(cfg: Config, s: Store, c: ToolCall, env: Environment)
    requires c.pc.AtPendingAudit? || c.pc.AtSuccessAudit? || c.pc.AtFailAudit?
             || (c.pc.AtCreate? && env(8).freshId !in s.approvals.approvals)
    ensures Rank(StepOf(cfg, s, c, env).call.pc) < Rank(c.pc)
  {
  }

  /** Every step brings a call nearer its end, unless it has ended or cannot create its approval. */
  lemma StepLowersRank(cfg: Config, s: Store, c: ToolCall, env: Environment)
    requires !Finished(c) && !(c.pc.AtCreate? && env(8).freshId in s.approvals.approvals)
    ensures Rank(StepOf(cfg, s, c, env).call.pc) < Rank(c.pc)
  {
    if c.pc.AtLimit? || c.pc.AtReserve? || c.pc.AtLookup? || c.pc.AtVerify? {
      EarlyStepLowersRank(cfg, s, c, env);
    } else if c.pc.AtMarkRunning? || c.pc.AtDispatch? || c.pc.AtMarkFailed? || c.pc.AtMarkExecuted?
      || c.pc.AtComplete? {
      StoreStepLowersRank(cfg, s, c, env);
    } else {
      AuditStepLowersRank(cfg, s, c, env);
    }
  }

  /** A call on its own always ends: answered, or left by an exception, unless its new approval id is taken. */
  lemma {:induction false} CallEnds(cfg: Config, s: Store, c: ToolCall, env: Environment)
    ensures var (s', c') := Finish(cfg, s, c, env);
      Finished(c') || (c'.pc.AtCreate? && env(8).freshId in s'.approvals.approvals)
    decreases Rank(c.pc)
  {
    var r := StepOf(cfg, s, c, env);
    if Rank(r.call.pc) < Rank(c.pc) {
      CallEnds(cfg, r.store, r.call, env);
    } else if !Finished(c) && !(c.pc.AtCreate? && env(8).freshId in s.approvals.approvals) {
      StepLowersRank(cfg, s, c, env);
    }
  }

  /**
   The store and the answer a call_tool leaves after any run of the gateway are those of
   a longer run of the machine.
   */
  lemma CallToolIsARun(cfg: Config, actions: seq<Action>, tid: Tid, request: Request, now: Time, env: Environment)
    returns (more: seq<Action>)
    requires tid !in Run(cfg, actions).calls
    ensures var s := Run(cfg, actions + more);
      && tid in s.calls
      && (s.store, s.calls[tid]) == Finish(cfg, Run(cfg, actions).store, Entering(cfg, request, now), env)
  {
    var s := Run(cfg, actions);
    var start := StartCall(tid, request, now);
    var s1 := Act(cfg, s, start);
    var steps := Steps(cfg, s1.store, s1.calls[tid], tid, env);
    more := [start] + steps;
    FinishIsSteps(cfg, s1, tid, env);
    assert ([start] + steps)[1..] == steps;
    RunThenFrom(cfg, actions, more);
  }
}
