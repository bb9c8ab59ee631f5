/**
 The argument fields a model could use to claim a role, a token, a permission or a risk
 level have no influence: two runs that differ only in them make the same decisions,
 dispatches, approvals and idempotency records, and differ only in audit digests.
 */
module GatewayNoninterference {
  import opened Wrappers
  import opened GatewayTypes
  import opened Approvals
  import opened GatewayMachine
  import opened GatewayTerms

  ghost predicate SameRequest(a: Request, b: Request) {
    a.(arguments := b.arguments) == b && StripUntrusted(a.arguments) == StripUntrusted(b.arguments)
  }

  /** Equal requests but for the arguments a model could use to make such a claim, present or not. */
  ghost predicate SameButClaims(a: Request, b: Request) {
    && a.(arguments := b.arguments) == b
    && forall field :: !Claim(field) ==>
      && (field in a.arguments <==> field in b.arguments)
      && (field in a.arguments ==> a.arguments[field] == b.arguments[field])
  }

  lemma ClaimsAreStripped(a: Request, b: Request)
    ensures SameButClaims(a, b) ==> SameRequest(a, b)
  {
    StripSanitizes(a.arguments, StripUntrusted(a.arguments));
    StripSanitizes(b.arguments, StripUntrusted(b.arguments));
    if SameButClaims(a, b) {
      assert Sanitizes(StripUntrusted(a.arguments), b.arguments);
      StripSanitizes(b.arguments, StripUntrusted(a.arguments));
    }
  }

  ghost predicate SameAction(a: Action, b: Action) {
    if a.StartCall? && b.StartCall? then a.tid == b.tid && a.now == b.now && SameButClaims(a.request, b.request)
      else a == b
  }

  ghost predicate SameAudit(a: AuditRecord, b: AuditRecord) {
    a.(argumentHash := None) == b.(argumentHash := None)
  }

  /** Equal approvals and events; audit records equal but for the argument digest. */
  ghost predicate SameApprovals(a: ApprovalState, b: ApprovalState) {
    && a.approvals == b.approvals && a.order == b.order && a.events == b.events
    && |a.audit| == |b.audit|
    && forall i :: 0 <= i < |a.audit| ==> SameAudit(a.audit[i], b.audit[i])
  }

  ghost predicate SameStore(a: Store, b: Store) {
    SameApprovals(a.approvals, b.approvals) && a.keys == b.keys && a.calls == b.calls
  }

  ghost predicate SameCall(a: ToolCall, b: ToolCall) {
    SameRequest(a.request, b.request) && a.(request := b.request) == b
  }

  /** Equal events; a dispatch has the same principal, tool, routed arguments, approval and outcome. */
  ghost predicate SameEvent(a: Event, b: Event) {
    if a.Dispatched? && b.Dispatched? then SameRequest(a.request, b.request) && a.(request := b.request) == b
      else a == b
  }

  ghost predicate SameTrace(a: seq<Event>, b: seq<Event>) {
    |a| == |b| && forall i :: 0 <= i < |a| ==> SameEvent(a[i], b[i])
  }

  ghost predicate SameSystem(a: System, b: System) {
    && SameStore(a.store, b.store)
    && a.calls.Keys == b.calls.Keys && (forall t :: t in a.calls ==> SameCall(a.calls[t], b.calls[t]))
    && a.rulings == b.rulings
    && SameTrace(a.trace, b.trace)
  }

  // ---- the approval operations

  lemma TransitionSame(
    a: ApprovalState, b: ApprovalState, r: Approval, eventType: string, actor: Principal, now: Time, execution: string,
    summary: string)
    requires SameApprovals(a, b)
    ensures SameApprovals(Transition(a, r, eventType, actor, now, execution, summary),
      Transition(b, r, eventType, actor, now, execution, summary))
  {
  }

  lemma GetSame(a: ApprovalState, b: ApprovalState, id: Id, now: Time)
    requires SameApprovals(a, b)
    ensures SameApprovals(Detail(a, id, now).0, Detail(b, id, now).0) && Detail(a, id, now).1 == Detail(b, id, now).1
    ensures SameApprovals(Get(a, id, now).0, Get(b, id, now).0) && Get(a, id, now).1 == Get(b, id, now).1
  {
    if id in a.approvals && Overdue(a.approvals[id], now) {
      TransitionSame(a, b, ExpiredForm(a.approvals[id]), "approval.expired", SYSTEM, now, "EXPIRED",
        "Approval expired.");
    }
  }

  lemma {:induction false} SweepSame(a: ApprovalState, b: ApprovalState, ids: seq<Id>, now: Time)
    requires SameApprovals(a, b)
    ensures SameApprovals(ExpireFirst(a, ids, now), ExpireFirst(b, ids, now))
  {
    if |ids| > 0 {
      SweepSame(a, b, ids[..|ids| - 1], now);
      GetSame(ExpireFirst(a, ids[..|ids| - 1], now), ExpireFirst(b, ids[..|ids| - 1], now), ids[|ids| - 1], now);
    }
  }

  lemma ApproveSame(a: ApprovalState, b: ApprovalState, id: Id, p: Principal, now: Time)
    requires SameApprovals(a, b)
    ensures SameApprovals(Approve(a, id, p, now).0, Approve(b, id, p, now).0)
    ensures Approve(a, id, p, now).1 == Approve(b, id, p, now).1
  {
    GetSame(a, b, id, now);
    var (a', r) := Get(a, id, now);
    if r.Ok? {
      TransitionSame(a', Get(b, id, now).0, ApprovedForm(r.value, p.id, now), "approval.approved", p, now, "APPROVED",
        "Approval granted.");
    }
  }

  lemma RejectSame(a: ApprovalState, b: ApprovalState, id: Id, p: Principal, reason: string, now: Time)
    requires SameApprovals(a, b)
    ensures SameApprovals(Reject(a, id, p, reason, now).0, Reject(b, id, p, reason, now).0)
    ensures Reject(a, id, p, reason, now).1 == Reject(b, id, p, reason, now).1
  {
    GetSame(a, b, id, now);
    var (a', r) := Get(a, id, now);
    if r.Ok? {
      TransitionSame(a', Get(b, id, now).0, RejectedForm(r.value, p.id, reason, now), "approval.rejected", p, now,
        "REJECTED", reason);
    }
  }

  lemma ExecutedSame(a: ApprovalState, b: ApprovalState, id: Id, p: Principal, now: Time, result: Json)
    requires SameApprovals(a, b)
    ensures SameApprovals(MarkExecuted(a, id, p, now, result).0, MarkExecuted(b, id, p, now, result).0)
    ensures MarkExecuted(a, id, p, now, result).1 == MarkExecuted(b, id, p, now, result).1
  {
    GetSame(a, b, id, now);
    var (a', r) := Get(a, id, now);
    if r.Ok? {
      TransitionSame(a', Get(b, id, now).0, ExecutedForm(r.value, now, result), "approval.executed", p, now,
        "EXECUTED", "Approved operation executed.");
    }
  }

  lemma FailedSame(a: ApprovalState, b: ApprovalState, id: Id, p: Principal, now: Time, reason: string)
    requires SameApprovals(a, b)
    ensures SameApprovals(MarkFailed(a, id, p, now, reason).0, MarkFailed(b, id, p, now, reason).0)
    ensures MarkFailed(a, id, p, now, reason).1 == MarkFailed(b, id, p, now, reason).1
  {
    if id in a.approvals {
      TransitionSame(a, b, FailedForm(a.approvals[id], reason), "approval.failed", p, now, "FAILED", reason);
    }
  }

  // ---- the steps of a call

  lemma {:induction false} TargetSame(a: Args, b: Args, fields: seq<string>)
    requires StripUntrusted(a) == StripUntrusted(b) && forall f :: f in fields ==> f !in UNTRUSTED_FIELDS
    ensures TargetResource(a, fields) == TargetResource(b, fields)
  {
    if |fields| > 0 {
      assert fields[0] in StripUntrusted(a) <==> fields[0] in StripUntrusted(b);
      assert fields[0] in a ==> StripUntrusted(a)[fields[0]] == a[fields[0]];
      assert fields[0] in b ==> StripUntrusted(b)[fields[0]] == b[fields[0]];
      TargetSame(a, b, fields[1..]);
    }
  }

  lemma AuditRecordSame(
    cfg: Config, a: ToolCall, b: ToolCall, toolName: string, clock: Time, decision: Decision, risk: Option<Risk>,
    status: Option<ApprovalStatus>, execution: string, summary: string)
    requires SameRequest(a.request, b.request)
    ensures SameAudit(AuditOf(cfg, a, toolName, clock, decision, risk, status, execution, summary),
                      AuditOf(cfg, b, toolName, clock, decision, risk, status, execution, summary))
  {
    TargetSame(a.request.arguments, b.request.arguments, RESOURCE_FIELDS);
  }

  lemma AuditedSame(a: Store, b: Store, r: AuditRecord, r': AuditRecord)
    requires SameStore(a, b) && SameAudit(r, r')
    ensures SameStore(Audited(a, r), Audited(b, r'))
  {
  }

  ghost predicate SameResult(a: StepResult, b: StepResult) {
    SameStore(a.store, b.store) && SameCall(a.call, b.call) && SameTrace(a.events, b.events)
  }

  /** The two calls are by the same principal, for the same tool, on the same key, with the same trusted arguments. */
  lemma SameSubject(cfg: Config, c: ToolCall, c': ToolCall)
    requires SameCall(c, c')
    ensures Actor(cfg, c) == Actor(cfg, c') && ToolOf(cfg, c) == ToolOf(cfg, c') && KeyOf(cfg, c) == KeyOf(cfg, c')
    ensures Sanitized(c) == Sanitized(c')
  {
  }

  lemma LimitSame(cfg: Config, tid: Tid, s: Store, s': Store, c: ToolCall, c': ToolCall, tick: Tick)
    requires SameStore(s, s') && SameCall(c, c') && c.pc.AtLimit?
    ensures SameResult(Advance(cfg, tid, s, c, tick), Advance(cfg, tid, s', c', tick))
  {
    SameSubject(cfg, c, c');
    LimitStepSame(cfg, s, s', c, c');
  }

  lemma LimitStepSame(cfg: Config, s: Store, s': Store, c: ToolCall, c': ToolCall)
    requires SameStore(s, s') && SameCall(c, c')
    requires Actor(cfg, c) == Actor(cfg, c') && ToolOf(cfg, c) == ToolOf(cfg, c') && Sanitized(c) == Sanitized(c')
    ensures SameResult(LimitStep(cfg, s, c), LimitStep(cfg, s', c'))
  {
  }

  lemma ReserveSame(cfg: Config, tid: Tid, s: Store, s': Store, c: ToolCall, c': ToolCall, tick: Tick)
    requires SameStore(s, s') && SameCall(c, c') && c.pc.AtReserve?
    ensures SameResult(Advance(cfg, tid, s, c, tick), Advance(cfg, tid, s', c', tick))
  {
    SameSubject(cfg, c, c');
    ReserveStepSame(cfg, tid, s, s', c, c');
  }

  lemma ReserveStepSame(cfg: Config, tid: Tid, s: Store, s': Store, c: ToolCall, c': ToolCall)
    requires SameStore(s, s') && SameCall(c, c')
    requires KeyOf(cfg, c) == KeyOf(cfg, c') && ToolOf(cfg, c) == ToolOf(cfg, c')
    ensures SameResult(ReserveStep(cfg, tid, s, c), ReserveStep(cfg, tid, s', c'))
  {
    var r, r' := ReserveStep(cfg, tid, s, c), ReserveStep(cfg, tid, s', c');
    assert r.events == r'.events;
    assert AfterReservation(cfg, c) == AfterReservation(cfg, c');
  }

  lemma RunningSame(cfg: Config, tid: Tid, s: Store, s': Store, c: ToolCall, c': ToolCall, tick: Tick)
    requires SameStore(s, s') && SameCall(c, c') && c.pc.AtMarkRunning?
    ensures SameResult(Advance(cfg, tid, s, c, tick), Advance(cfg, tid, s', c', tick))
  {
    SameSubject(cfg, c, c');
  }

  lemma VerifySame(cfg: Config, tid: Tid, s: Store, s': Store, c: ToolCall, c': ToolCall, tick: Tick)
    requires SameStore(s, s') && SameCall(c, c') && c.pc.AtVerify?
    ensures SameResult(Advance(cfg, tid, s, c, tick), Advance(cfg, tid, s', c', tick))
  {
  }

  lemma DispatchSame(cfg: Config, tid: Tid, s: Store, s': Store, c: ToolCall, c': ToolCall, tick: Tick)
    requires SameStore(s, s') && SameCall(c, c') && c.pc.AtDispatch?
    ensures SameResult(Advance(cfg, tid, s, c, tick), Advance(cfg, tid, s', c', tick))
  {
  }

  lemma StoreSame(cfg: Config, tid: Tid, s: Store, s': Store, c: ToolCall, c': ToolCall, tick: Tick)
    requires SameStore(s, s') && SameCall(c, c')
    requires c.pc.AtLookup? || c.pc.AtMarkFailed? || c.pc.AtMarkExecuted?
    ensures SameResult(Advance(cfg, tid, s, c, tick), Advance(cfg, tid, s', c', tick))
  {
    if c.pc.AtLookup? && c.request.approvalId.Some? {
      GetSame(s.approvals, s'.approvals, c.request.approvalId.value, c.now);
    } else if c.pc.AtMarkFailed? && c.approval.Some? {
      FailedSame(s.approvals, s'.approvals, c.approval.value, Actor(cfg, c), tick.clock, CodeText(c.pc.code));
    } else if c.pc.AtMarkExecuted? && c.approval.Some? {
      ExecutedSame(s.approvals, s'.approvals, c.approval.value, Actor(cfg, c), tick.clock, c.pc.result);
    }
  }

  lemma CreateSame(cfg: Config, tid: Tid, s: Store, s': Store, c: ToolCall, c': ToolCall, tick: Tick)
    requires SameStore(s, s') && SameCall(c, c') && c.pc.AtCreate?
    ensures SameResult(Advance(cfg, tid, s, c, tick), Advance(cfg, tid, s', c', tick))
  {
    assert RequestedApproval(cfg, c, tick.freshId) == RequestedApproval(cfg, c', tick.freshId);
    TransitionSame(s.approvals, s'.approvals, RequestedApproval(cfg, c, tick.freshId), "approval.requested",
      Actor(cfg, c), c.now,
                   "PENDING_APPROVAL", "Approval request created.");
  }

  lemma PendingAuditSame(cfg: Config, tid: Tid, s: Store, s': Store, c: ToolCall, c': ToolCall, tick: Tick)
    requires SameStore(s, s') && SameCall(c, c') && c.pc.AtPendingAudit?
    ensures SameResult(Advance(cfg, tid, s, c, tick), Advance(cfg, tid, s', c', tick))
  {
    var tool, status := ToolOf(cfg, c), StatusIn(s, Some(c.pc.id));
    AuditRecordSame(cfg, c, c', tool.toolName, tick.clock, PendingApproval, Some(tool.risk), status,
      "PENDING_APPROVAL", "PENDING_APPROVAL");
    AuditedSame(s, s', AuditOf(cfg, c, tool.toolName, tick.clock, PendingApproval, Some(tool.risk), status,
      "PENDING_APPROVAL", "PENDING_APPROVAL"),
                AuditOf(cfg, c', tool.toolName, tick.clock, PendingApproval, Some(tool.risk), status,
                  "PENDING_APPROVAL", "PENDING_APPROVAL"));
  }

  lemma SuccessAuditSame(cfg: Config, tid: Tid, s: Store, s': Store, c: ToolCall, c': ToolCall, tick: Tick)
    requires SameStore(s, s') && SameCall(c, c') && c.pc.AtSuccessAudit?
    ensures SameResult(Advance(cfg, tid, s, c, tick), Advance(cfg, tid, s', c', tick))
  {
    var tool, status := ToolOf(cfg, c), StatusIn(s, c.approval);
    AuditRecordSame(cfg, c, c', tool.toolName, tick.clock, Allowed, Some(tool.risk), status, "SUCCEEDED", "ALLOWED");
    AuditedSame(s, s', AuditOf(cfg, c, tool.toolName, tick.clock, Allowed, Some(tool.risk), status, "SUCCEEDED",
      "ALLOWED"),
                AuditOf(cfg, c', tool.toolName, tick.clock, Allowed, Some(tool.risk), status, "SUCCEEDED", "ALLOWED"));
  }

  lemma FailAuditSame(cfg: Config, tid: Tid, s: Store, s': Store, c: ToolCall, c': ToolCall, tick: Tick)
    requires SameStore(s, s') && SameCall(c, c') && c.pc.AtFailAudit?
    ensures SameResult(Advance(cfg, tid, s, c, tick), Advance(cfg, tid, s', c', tick))
  {
    var risk := if Known(cfg, c) then Some(ToolOf(cfg, c).risk) else None;
    AuditRecordSame(cfg, c, c', c.request.toolName, tick.clock, Denied, risk, None, "DENIED", CodeText(c.pc.code));
    AuditedSame(s, s', AuditOf(cfg, c, c.request.toolName, tick.clock, Denied, risk, None, "DENIED",
      CodeText(c.pc.code)),
                AuditOf(cfg, c', c.request.toolName, tick.clock, Denied, risk, None, "DENIED", CodeText(c.pc.code)));
  }

  lemma LastSame(cfg: Config, tid: Tid, s: Store, s': Store, c: ToolCall, c': ToolCall, tick: Tick)
    requires SameStore(s, s') && SameCall(c, c') && (c.pc.AtComplete? || Finished(c))
    ensures SameResult(Advance(cfg, tid, s, c, tick), Advance(cfg, tid, s', c', tick))
  {
  }

  /** From states that differ only in digests, calls that differ only in untrusted fields step alike. */
  lemma AdvanceSame(cfg: Config, tid: Tid, s: Store, s': Store, c: ToolCall, c': ToolCall, tick: Tick)
    requires SameStore(s, s') && SameCall(c, c')
    ensures SameResult(Advance(cfg, tid, s, c, tick), Advance(cfg, tid, s', c', tick))
  {
    if c.pc.AtLimit? {
      LimitSame(cfg, tid, s, s', c, c', tick);
    } else if c.pc.AtReserve? {
      ReserveSame(cfg, tid, s, s', c, c', tick);
    } else if c.pc.AtMarkRunning? {
      RunningSame(cfg, tid, s, s', c, c', tick);
    } else if c.pc.AtVerify? {
      VerifySame(cfg, tid, s, s', c, c', tick);
    } else if c.pc.AtLookup? || c.pc.AtMarkFailed? || c.pc.AtMarkExecuted? {
      StoreSame(cfg, tid, s, s', c, c', tick);
    } else if c.pc.AtDispatch? {
      DispatchSame(cfg, tid, s, s', c, c', tick);
    } else if c.pc.AtCreate? {
      CreateSame(cfg, tid, s, s', c, c', tick);
    } else if c.pc.AtPendingAudit? {
      PendingAuditSame(cfg, tid, s, s', c, c', tick);
    } else if c.pc.AtSuccessAudit? {
      SuccessAuditSame(cfg, tid, s, s', c, c', tick);
    } else if c.pc.AtFailAudit? {
      FailAuditSame(cfg, tid, s, s', c, c', tick);
    } else {
      LastSame(cfg, tid, s, s', c, c', tick);
    }
  }

  // ---- whole runs

  ghost predicate SameRuling(a: RulingResult, b: RulingResult) {
    SameStore(a.store, b.store) && a.ruling == b.ruling && a.events == b.events
  }

  lemma RuleSame(cfg: Config, s: Store, s': Store, r: Ruling)
    requires SameStore(s, s')
    ensures SameRuling(Rule(cfg, s, r), Rule(cfg, s', r))
  {
    match r.pc
    case AtGet => GetSame(s.approvals, s'.approvals, r.id, r.now);
    case AtDecide =>
      match r.verb {
        case Approving => ApproveSame(s.approvals, s'.approvals, r.id, r.principal, r.now);
        case Rejecting(reason) => RejectSame(s.approvals, s'.approvals, r.id, r.principal, reason, r.now);
      }
    case Ruled(_) =>
  }

  lemma TraceAppendSame(a: seq<Event>, b: seq<Event>, x: seq<Event>, y: seq<Event>)
    requires SameTrace(a, b) && SameTrace(x, y)
    ensures SameTrace(a + x, b + y)
  {
  }

  lemma AfterCallSame(s: System, s': System, tid: Tid, r: StepResult, r': StepResult)
    requires SameSystem(s, s') && tid in s.calls && SameResult(r, r')
    ensures SameSystem(s.(store := r.store, calls := s.calls[tid := r.call], trace := s.trace + r.events),
                       s'.(store := r'.store, calls := s'.calls[tid := r'.call], trace := s'.trace + r'.events))
  {
    TraceAppendSame(s.trace, s'.trace, r.events, r'.events);
  }

  lemma AfterRulingSame(s: System, s': System, tid: Tid, r: RulingResult, r': RulingResult)
    requires SameSystem(s, s') && tid in s.rulings && SameRuling(r, r')
    ensures SameSystem(s.(store := r.store, rulings := s.rulings[tid := r.ruling], trace := s.trace + r.events),
                       s'.(store := r'.store, rulings := s'.rulings[tid := r'.ruling], trace := s'.trace + r'.events))
  {
    TraceAppendSame(s.trace, s'.trace, r.events, r'.events);
  }

  lemma StepCallSame(cfg: Config, s: System, s': System, tid: Tid, tick: Tick)
    requires SameSystem(s, s')
    ensures SameSystem(Act(cfg, s, StepCall(tid, tick)), Act(cfg, s', StepCall(tid, tick)))
  {
    if tid in s.calls {
      AdvanceSame(cfg, tid, s.store, s'.store, s.calls[tid], s'.calls[tid], tick);
      AfterCallSame(s, s', tid, Advance(cfg, tid, s.store, s.calls[tid], tick),
        Advance(cfg, tid, s'.store, s'.calls[tid], tick));
    }
  }

  lemma StepRulingSame(cfg: Config, s: System, s': System, tid: Tid)
    requires SameSystem(s, s')
    ensures SameSystem(Act(cfg, s, StepRuling(tid)), Act(cfg, s', StepRuling(tid)))
  {
    if tid in s.rulings {
      RuleSame(cfg, s.store, s'.store, s.rulings[tid]);
      AfterRulingSame(s, s', tid, Rule(cfg, s.store, s.rulings[tid]), Rule(cfg, s'.store, s'.rulings[tid]));
    }
  }

  lemma StartCallSame(cfg: Config, s: System, s': System, tid: Tid, request: Request, request': Request, now: Time)
    requires SameSystem(s, s') && SameRequest(request, request')
    ensures SameSystem(Act(cfg, s, StartCall(tid, request, now)), Act(cfg, s', StartCall(tid, request', now)))
  {
    assert Admission(cfg, request) == Admission(cfg, request');
  }

  lemma StartRulingSame(cfg: Config, s: System, s': System, tid: Tid, authToken: string, id: Id, verb: Verb, now: Time)
    requires SameSystem(s, s')
    ensures SameSystem(Act(cfg, s, StartRuling(tid, authToken, id, verb, now)),
      Act(cfg, s', StartRuling(tid, authToken, id, verb, now)))
  {
  }

  lemma ListingSame(cfg: Config, s: System, s': System, authToken: string, now: Time)
    requires SameSystem(s, s')
    ensures SameSystem(Act(cfg, s, ListApprovals(authToken, now)), Act(cfg, s', ListApprovals(authToken, now)))
  {
    SweepSame(s.store.approvals, s'.store.approvals, s.store.approvals.order, now);
  }

  lemma ReadingSame(cfg: Config, s: System, s': System, authToken: string, id: Id, now: Time)
    requires SameSystem(s, s')
    ensures SameSystem(Act(cfg, s, GetApproval(authToken, id, now)), Act(cfg, s', GetApproval(authToken, id, now)))
  {
    GetSame(s.store.approvals, s'.store.approvals, id, now);
  }

  lemma ActSame(cfg: Config, s: System, s': System, a: Action, b: Action)
    requires SameSystem(s, s') && SameAction(a, b)
    ensures SameSystem(Act(cfg, s, a), Act(cfg, s', b))
  {
    match a
    case StartCall(tid, request, now) =>
      ClaimsAreStripped(request, b.request);
      StartCallSame(cfg, s, s', tid, request, b.request, now);
    case StepCall(tid, tick) => StepCallSame(cfg, s, s', tid, tick);
    case StartRuling(tid, authToken, id, verb, now) => StartRulingSame(cfg, s, s', tid, authToken, id, verb, now);
    case StepRuling(tid) => StepRulingSame(cfg, s, s', tid);
    case ListApprovals(authToken, now) => ListingSame(cfg, s, s', authToken, now);
    case GetApproval(authToken, id, now) => ReadingSame(cfg, s, s', authToken, id, now);
  }

  /** Two runs whose requests differ only in untrusted argument fields end alike, audit digests apart. */
  lemma {:induction false} UntrustedFieldsDoNotMatter(cfg: Config, a: seq<Action>, b: seq<Action>)
    requires |a| == |b| && forall i :: 0 <= i < |a| ==> SameAction(a[i], b[i])
    ensures SameSystem(Run(cfg, a), Run(cfg, b))
  {
    if |a| > 0 {
      var n := |a| - 1;
      UntrustedFieldsDoNotMatter(cfg, a[..n], b[..n]);
      ActSame(cfg, Run(cfg, a[..n]), Run(cfg, b[..n]), a[n], b[n]);
    }
  }
}
