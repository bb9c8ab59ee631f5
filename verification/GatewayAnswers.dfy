/**
 What a call's answer says of what the call did.  In every interleaving the events of a
 call, from its reservation to the spending of its approval, tell what it answers: a
 result only if its own dispatch returned it, the error its own dispatch ended with, an
 approval it has itself requested.
 */
module GatewayAnswers {
  import opened Wrappers
  import opened GatewayTypes
  import opened Approvals
  import opened Idempotency
  import opened GatewayMachine
  import opened GatewayTerms
  import Effects = ApprovalEffects
  import G = GatewayApprovals
  import K = GatewayKeys

  // ---- the events of a call

  ghost predicate OfCall(e: Event, t: Tid) {
    (e.Reservation? || e.Created? || e.Dispatched? || e.Spent?) && e.caller == t
  }

  ghost function Own(trace: seq<Event>, t: Tid): seq<Event> {
    if |trace| == 0 then []
    else
      var front, e := Own(trace[..|trace| - 1], t), trace[|trace| - 1];
      if OfCall(e, t) then front + [e] else front
  }

  lemma OwnAppend(trace: seq<Event>, e: Event, t: Tid)
    ensures Own(trace + [e], t) == if OfCall(e, t) then Own(trace, t) + [e] else Own(trace, t)
  {
    assert (trace + [e])[..|trace|] == trace;
  }

  /** A request, the moment it was made, and whom and what it stands for. */
  datatype Matter = Matter(caller: Tid, request: Request, now: Time, p: Principal, tool: Tool)

  // ---- what the events of a call can be

  /** It tried to reserve its key. */
  ghost predicate Reserves(m: Matter, e: Event) {
    && e.Reservation? && e.caller == m.caller && e.at == m.now
    && e.key == IdempotencyKey(m.p.id, m.request.idempotencyKey)
  }

  /** A pending record of what is asked for, by whom, when and until when. */
  ghost predicate AskedFor(cfg: Config, m: Matter, a: Approval) {
    && a.requesterId == m.p.id && a.requesterType == m.p.ptype
    && a.toolName == m.tool.toolName && a.risk == m.tool.risk
    && Sanitizes(a.arguments, m.request.arguments)
    && a.workflowId == m.request.workflowId && a.workflowNodeId == m.request.workflowNodeId
    && a.createdAt == m.now && a.expiresAt == m.now + cfg.approvalTtl
    && a.status == Pending && a.version == 1
    && a.approvedBy == None && a.approvedAt == None && a.rejectedBy == None && a.rejectedAt == None
    && a.executedAt == None && a.failureReason == None && a.executionResult == None
    && G.WellBound(cfg, a)
  }

  /** It requested an approval, because the tool needs one and none is named. */
  ghost predicate Asks(cfg: Config, m: Matter, e: Event) {
    && e.Created? && e.caller == m.caller
    && m.tool.requiresApproval && m.request.approvalId == None
    && AskedFor(cfg, m, e.approval)
  }

  /** It ran the tool, on the approval it names if the tool needs one. */
  ghost predicate Dispatches(cfg: Config, m: Matter, e: Event) {
    && e.Dispatched? && e.caller == m.caller
    && e.principal == m.p && e.tool == m.tool && e.request == m.request
    && Routes(e.routed, m.request.arguments, m.p.role, m.tool.requiresApproval)
    && (if m.tool.requiresApproval then m.request.approvalId.Some? && e.approvalId == m.request.approvalId
        else e.approvalId == None)
  }

  // ---- what it answers

  ghost function Denial(request: Request, code: ErrorCode): Pc {
    Done(Response(false, Denied, request.correlationId, request.toolName, ErrorBody(code)), false)
  }

  ghost function Success(m: Matter, result: Json): Pc {
    Done(Response(true, Allowed, m.request.correlationId, m.tool.toolName, ResultBody(result)), false)
  }

  /** It answers with the approval it has requested. */
  ghost predicate Awaits(m: Matter, a: Approval, pc: Pc) {
    && pc.Done? && !pc.replayed && pc.response.body.PendingBody?
    && pc.response == Response(true, PendingApproval, m.request.correlationId, m.tool.toolName,
                        PendingBody(a.id, pc.response.body.approvalStatus, m.tool.risk))
  }

  /** After a failed dispatch: the approval is marked failed, or somebody has spent it meanwhile. */
  ghost predicate Fails(m: Matter, code: ErrorCode, rest: seq<Event>, pc: Pc) {
    if m.tool.requiresApproval && m.request.approvalId.Some? then
      || (rest == [Spent(m.caller, m.request.approvalId.value, false)] && pc == Denial(m.request, code))
      || (rest == [] && pc == Denial(m.request, ApprovalDenied))
    else rest == [] && pc == Denial(m.request, code)
  }

  /** After a successful one: the approval is marked executed, or somebody has spent it meanwhile. */
  ghost predicate Succeeds(m: Matter, result: Json, rest: seq<Event>, pc: Pc) {
    if m.tool.requiresApproval && m.request.approvalId.Some? then
      || (rest == [Spent(m.caller, m.request.approvalId.value, true)] && pc == Success(m, result))
      || (rest == [] && pc == Denial(m.request, ApprovalDenied))
    else rest == [] && pc == Success(m, result)
  }

  ghost predicate Settled(m: Matter, outcome: Outcome, rest: seq<Event>, pc: Pc) {
    match outcome
    case Returned(result) => Succeeds(m, result, rest, pc)
    case ReturnedError => Fails(m, MalformedArguments, rest, pc)
    case Raised(code) => Fails(m, code, rest, pc)
    case Escaped => rest == [] && pc == Crashed
  }

  /** What the tool would be told does not pass its validation. */
  ghost predicate Invalid(cfg: Config, m: Matter) {
    exists routed ::
      Routes(routed, m.request.arguments, m.p.role, m.tool.requiresApproval) && !cfg.validates(m.tool, routed)
  }

  /** The answer of a request that was let in, told by the events of its call. */
  ghost predicate Explained(cfg: Config, m: Matter, own: seq<Event>, pc: Pc) {
    if |own| == 0 then
      || pc == Denial(m.request, ErrorCode.RateLimitExceeded)
      || (pc == Denial(m.request, MalformedArguments) && Invalid(cfg, m))
    else if !Reserves(m, own[0]) then false
    else if !own[0].isFresh then
      |own| == 1 && ((pc.Done? && pc.replayed) || pc == Denial(m.request, DuplicateOperation))
    else if |own| == 1 then NotServed(m, pc)
    else if own[1].Created? then |own| == 2 && Asks(cfg, m, own[1]) && Awaits(m, own[1].approval, pc)
    else Dispatches(cfg, m, own[1]) && Settled(m, own[1].outcome, own[2..], pc)
  }

  /** The approval named does not serve. */
  ghost predicate NotServed(m: Matter, pc: Pc) {
    && m.tool.requiresApproval && m.request.approvalId.Some?
    && (pc == Denial(m.request, ApprovalNotFound) || pc == Denial(m.request, ErrorCode.ExpiredApproval)
        || pc == Denial(m.request, MalformedArguments))
  }

  /** The answer of any request: of one that was turned away, or of one that was let in. */
  ghost predicate Answered(cfg: Config, t: Tid, request: Request, now: Time, own: seq<Event>, pc: Pc) {
    || (own == [] && exists code :: TurnedAway(cfg, request, code) && pc == Denial(request, code))
    || exists p, tool :: Cleared(cfg, request, p, tool) && Explained(cfg, Matter(t, request, now, p, tool), own, pc)
  }

  // ---- the story so far of a call in flight

  ghost function MatterOf(cfg: Config, t: Tid, c: ToolCall): Matter {
    Matter(t, c.request, c.now, Actor(cfg, c), ToolOf(cfg, c))
  }

  /** It has reserved its key, and that is all. */
  ghost predicate Holds(m: Matter, own: seq<Event>) {
    |own| == 1 && Reserves(m, own[0]) && own[0].isFresh
  }

  /** It has reserved its key and run the tool. */
  ghost predicate HasRun(cfg: Config, m: Matter, own: seq<Event>) {
    |own| == 2 && Reserves(m, own[0]) && own[0].isFresh && Dispatches(cfg, m, own[1])
  }

  ghost predicate FailedWith(outcome: Outcome, code: ErrorCode) {
    outcome == Raised(code) || (outcome == ReturnedError && code == MalformedArguments)
  }

  /** Whether it goes on with an approval, and which. */
  ghost predicate Takes(m: Matter, c: ToolCall) {
    if m.tool.requiresApproval then m.request.approvalId.Some? && c.approval == m.request.approvalId
    else c.approval == None
  }

  ghost predicate Story(cfg: Config, t: Tid, own: seq<Event>, c: ToolCall) {
    && c.reserved == (|own| > 0 && own[0].Reservation? && own[0].isFresh)
    && StoryAt(cfg, MatterOf(cfg, t, c), own, c)
  }

  ghost predicate StoryAt(cfg: Config, m: Matter, own: seq<Event>, c: ToolCall) {
    match c.pc
    case AtLimit => own == [] && c.approval == None
    case AtReserve => own == [] && c.approval == None
    case AtLookup => Holds(m, own) && m.tool.requiresApproval && m.request.approvalId.Some?
    case AtVerify => Holds(m, own) && m.tool.requiresApproval && m.request.approvalId.Some?
    case AtCreate => Holds(m, own) && m.tool.requiresApproval && m.request.approvalId.None?
    case AtPendingAudit(id) =>
      && |own| == 2 && Reserves(m, own[0]) && own[0].isFresh
      && Asks(cfg, m, own[1]) && own[1].approval.id == id
    case AtMarkRunning => Holds(m, own) && Takes(m, c)
    case AtDispatch => Holds(m, own) && Takes(m, c)
    case AtMarkFailed(code) =>
      HasRun(cfg, m, own) && Takes(m, c) && c.approval.Some? && FailedWith(own[1].outcome, code)
    case AtMarkExecuted(result) =>
      HasRun(cfg, m, own) && Takes(m, c) && c.approval.Some? && own[1].outcome == Returned(result)
    case AtSuccessAudit(result) => Takes(m, c) && Answered(cfg, m.caller, m.request, m.now, own, Success(m, result))
    case AtFailAudit(code) => Answered(cfg, m.caller, m.request, m.now, own, Denial(m.request, code))
    case AtComplete(response, status) =>
      && own != []
      && Answered(cfg, m.caller, m.request, m.now, own, Done(response, false))
      && status == (if response.ok then Succeeded else PermanentFailed)
    case Done(_, _) => Answered(cfg, m.caller, m.request, m.now, own, c.pc)
    case Crashed => Answered(cfg, m.caller, m.request, m.now, own, Crashed)
  }

  /** The call is let in. */
  ghost predicate LetIn(cfg: Config, c: ToolCall) {
    Cleared(cfg, c.request, Actor(cfg, c), ToolOf(cfg, c))
  }

  lemma ExplainedIsAnswered(cfg: Config, t: Tid, c: ToolCall, own: seq<Event>, pc: Pc)
    requires LetIn(cfg, c) && Explained(cfg, MatterOf(cfg, t, c), own, pc)
    ensures Answered(cfg, t, c.request, c.now, own, pc)
  {
  }

  // ---- one step

  /** The story goes on: the events of the step are the call's own. */
  ghost predicate GoesOn(cfg: Config, t: Tid, own: seq<Event>, r: StepResult) {
    && |r.events| <= 1 && (forall e :: e in r.events ==> OfCall(e, t))
    && Story(cfg, t, own + r.events, r.call)
  }

  lemma Silent(cfg: Config, t: Tid, own: seq<Event>, r: StepResult)
    requires r.events == [] && Story(cfg, t, own, r.call)
    ensures GoesOn(cfg, t, own, r)
  {
    assert own + r.events == own;
  }

  lemma LimitGoesOn(cfg: Config, t: Tid, own: seq<Event>, s: Store, c: ToolCall)
    requires c.pc.AtLimit? && Story(cfg, t, own, c) && LetIn(cfg, c)
    ensures GoesOn(cfg, t, own, LimitStep(cfg, s, c))
  {
    var r, m := LimitStep(cfg, s, c), MatterOf(cfg, t, c);
    if r.call.pc.AtFailAudit? {
      if r.call.pc.code == MalformedArguments {
        TrustedRoutes(c.request.arguments, m.p, m.tool);
        assert Invalid(cfg, m);
      }
      ExplainedIsAnswered(cfg, t, c, own, Denial(c.request, r.call.pc.code));
    }
    Silent(cfg, t, own, r);
  }

  /** Where a call goes on that has tried to reserve its key. */
  ghost predicate Reserving(cfg: Config, c: ToolCall, t: Tid, e: Event, c': ToolCall) {
    && Reserves(MatterOf(cfg, t, c), e)
    && if e.isFresh then c' == c.(pc := AfterReservation(cfg, c), reserved := true)
       else c' == c.(pc := c'.pc) && ((c'.pc.Done? && c'.pc.replayed) || c'.pc == AtFailAudit(DuplicateOperation))
  }

  lemma ReserveReserves(cfg: Config, t: Tid, s: Store, c: ToolCall)
    ensures var r := ReserveStep(cfg, t, s, c);
      |r.events| == 1 && r.events == [r.events[0]] && Reserving(cfg, c, t, r.events[0], r.call)
  {
  }

  lemma ReservingGoesOn(cfg: Config, t: Tid, c: ToolCall, e: Event, c': ToolCall)
    requires c.pc.AtReserve? && Story(cfg, t, [], c) && LetIn(cfg, c) && Reserving(cfg, c, t, e, c')
    ensures Story(cfg, t, [e], c')
  {
    if c'.pc.AtFailAudit? {
      ExplainedIsAnswered(cfg, t, c, [e], Denial(c.request, DuplicateOperation));
    } else if c'.pc.Done? {
      ExplainedIsAnswered(cfg, t, c, [e], c'.pc);
    }
  }

  lemma ReserveGoesOn(cfg: Config, t: Tid, own: seq<Event>, s: Store, c: ToolCall)
    requires c.pc.AtReserve? && Story(cfg, t, own, c) && LetIn(cfg, c)
    ensures GoesOn(cfg, t, own, ReserveStep(cfg, t, s, c))
  {
    var r := ReserveStep(cfg, t, s, c);
    ReserveReserves(cfg, t, s, c);
    ReservingGoesOn(cfg, t, c, r.events[0], r.call);
    assert own + r.events == [r.events[0]];
  }

  lemma LookupGoesOn(cfg: Config, t: Tid, own: seq<Event>, s: Store, c: ToolCall)
    requires c.pc.AtLookup? && Story(cfg, t, own, c) && LetIn(cfg, c) && Effects.Keyed(s.approvals)
    ensures GoesOn(cfg, t, own, LookupStep(cfg, s, c))
  {
    var r := LookupStep(cfg, s, c);
    Effects.GetEffect(s.approvals, c.request.approvalId.value, c.now);
    if r.call.pc.AtFailAudit? {
      ExplainedIsAnswered(cfg, t, c, own, Denial(c.request, r.call.pc.code));
    }
    Silent(cfg, t, own, r);
  }

  lemma VerifyGoesOn(cfg: Config, t: Tid, own: seq<Event>, s: Store, c: ToolCall)
    requires c.pc.AtVerify? && Story(cfg, t, own, c) && LetIn(cfg, c)
    ensures GoesOn(cfg, t, own, VerifyStep(cfg, s, c))
  {
    var r := VerifyStep(cfg, s, c);
    if r.call.pc.AtFailAudit? {
      ExplainedIsAnswered(cfg, t, c, own, Denial(c.request, MalformedArguments));
    }
    Silent(cfg, t, own, r);
  }

  lemma RequestedIsAskedFor(cfg: Config, t: Tid, c: ToolCall, id: Id)
    ensures AskedFor(cfg, MatterOf(cfg, t, c), RequestedApproval(cfg, c, id))
    ensures RequestedApproval(cfg, c, id).id == id
  {
    StripSanitizes(c.request.arguments, Sanitized(c));
  }

  lemma CreateGoesOn(cfg: Config, t: Tid, own: seq<Event>, s: Store, c: ToolCall, id: Id)
    requires c.pc.AtCreate? && Story(cfg, t, own, c)
    ensures GoesOn(cfg, t, own, CreateStep(cfg, t, s, c, id))
  {
    RequestedIsAskedFor(cfg, t, c, id);
  }

  lemma PendingGoesOn(cfg: Config, t: Tid, own: seq<Event>, s: Store, c: ToolCall, id: Id, clock: Time)
    requires c.pc == AtPendingAudit(id) && Story(cfg, t, own, c) && LetIn(cfg, c)
    ensures GoesOn(cfg, t, own, PendingAuditStep(cfg, s, c, id, clock))
  {
    var r := PendingAuditStep(cfg, s, c, id, clock);
    ExplainedIsAnswered(cfg, t, c, own, r.call.pc);
    Silent(cfg, t, own, r);
  }

  lemma RunningGoesOn(cfg: Config, t: Tid, own: seq<Event>, s: Store, c: ToolCall, r: StepResult)
    requires c.pc.AtMarkRunning? && Story(cfg, t, own, c) && r == Goto(r.store, c, AtDispatch)
    ensures GoesOn(cfg, t, own, r)
  {
    Silent(cfg, t, own, r);
  }

  lemma DispatchGoesOn(cfg: Config, t: Tid, own: seq<Event>, s: Store, c: ToolCall, outcome: Outcome)
    requires c.pc.AtDispatch? && Story(cfg, t, own, c) && LetIn(cfg, c)
    ensures GoesOn(cfg, t, own, DispatchStep(cfg, t, s, c, outcome))
  {
    var r, m := DispatchStep(cfg, t, s, c, outcome), MatterOf(cfg, t, c);
    TrustedRoutes(c.request.arguments, m.p, m.tool);
    var own' := own + r.events;
    assert HasRun(cfg, m, own') && own'[2..] == [];
    DispatchSettles(cfg, t, own', c, r.call.pc);
  }

  lemma DispatchSettles(cfg: Config, t: Tid, own: seq<Event>, c: ToolCall, pc: Pc)
    requires LetIn(cfg, c) && HasRun(cfg, MatterOf(cfg, t, c), own) && Takes(MatterOf(cfg, t, c), c)
    requires c.reserved && own[2..] == []
    requires match own[1].outcome
      case Returned(result) => pc == if c.approval.Some? then AtMarkExecuted(result) else AtSuccessAudit(result)
      case ReturnedError =>
        pc == if c.approval.Some? then AtMarkFailed(MalformedArguments) else AtFailAudit(MalformedArguments)
      case Raised(code) => pc == if c.approval.Some? then AtMarkFailed(code) else AtFailAudit(code)
      case Escaped => pc == Crashed
    ensures Story(cfg, t, own, c.(pc := pc))
  {
    var m := MatterOf(cfg, t, c);
    if pc.AtSuccessAudit? {
      ExplainedIsAnswered(cfg, t, c, own, Success(m, pc.result));
    } else if pc.AtFailAudit? {
      ExplainedIsAnswered(cfg, t, c, own, Denial(m.request, pc.code));
    } else if pc.Crashed? {
      ExplainedIsAnswered(cfg, t, c, own, Crashed);
    }
  }

  /** The record of an approval a call has taken up has been approved, and can only have been spent since. */
  ghost predicate TakenUp(st: ApprovalState, id: Id) {
    id in st.approvals && st.approvals[id].status in {Approved, Executed, Failed}
  }

  /** The mark is made, or it is refused because the approval has been spent. */
  ghost predicate Marked(c: ToolCall, t: Tid, outcome: Outcome, r: StepResult)
    requires c.approval.Some?
  {
    && r.call == c.(pc := r.call.pc)
    && (
      || (r.events == [] && r.call.pc == AtFailAudit(ApprovalDenied) && !outcome.Escaped?)
      || (r.events == [Spent(t, c.approval.value, true)] && outcome.Returned?
          && r.call.pc == AtSuccessAudit(outcome.result))
      || (r.events == [Spent(t, c.approval.value, false)] && r.call.pc.AtFailAudit?
          && FailedWith(outcome, r.call.pc.code)))
  }

  lemma MarkedGoesOn(cfg: Config, t: Tid, own: seq<Event>, c: ToolCall, r: StepResult)
    requires LetIn(cfg, c) && HasRun(cfg, MatterOf(cfg, t, c), own) && Takes(MatterOf(cfg, t, c), c)
    requires c.reserved && c.approval.Some? && Marked(c, t, own[1].outcome, r)
    ensures GoesOn(cfg, t, own, r)
  {
    var m := MatterOf(cfg, t, c);
    var own' := own + r.events;
    assert own'[2..] == r.events && own'[..2] == own;
    if r.call.pc.AtSuccessAudit? {
      ExplainedIsAnswered(cfg, t, c, own', Success(m, r.call.pc.result));
    } else {
      ExplainedIsAnswered(cfg, t, c, own', Denial(m.request, r.call.pc.code));
    }
  }

  lemma MarkFailedMarks(
    cfg: Config, t: Tid, s: Store, c: ToolCall, code: ErrorCode, clock: Time, outcome: Outcome)
    requires Effects.Keyed(s.approvals) && c.approval.Some? && TakenUp(s.approvals, c.approval.value)
    requires FailedWith(outcome, code)
    ensures Marked(c, t, outcome, MarkFailedStep(cfg, t, s, c, code, clock))
  {
    Effects.FailedEffect(s.approvals, c.approval.value, Actor(cfg, c), clock, CodeText(code));
  }

  lemma MarkExecutedMarks(cfg: Config, t: Tid, s: Store, c: ToolCall, result: Json, clock: Time)
    requires Effects.Keyed(s.approvals) && c.approval.Some? && TakenUp(s.approvals, c.approval.value)
    ensures Marked(c, t, Returned(result), MarkExecutedStep(cfg, t, s, c, result, clock))
  {
    Effects.ExecutedEffect(s.approvals, c.approval.value, Actor(cfg, c), clock, result);
  }

  lemma MarkFailedGoesOn(cfg: Config, t: Tid, own: seq<Event>, s: Store, c: ToolCall, clock: Time)
    requires c.pc.AtMarkFailed? && Story(cfg, t, own, c) && LetIn(cfg, c) && Effects.Keyed(s.approvals)
    requires c.approval.Some? ==> TakenUp(s.approvals, c.approval.value)
    ensures GoesOn(cfg, t, own, MarkFailedStep(cfg, t, s, c, c.pc.code, clock))
  {
    MarkFailedMarks(cfg, t, s, c, c.pc.code, clock, own[1].outcome);
    MarkedGoesOn(cfg, t, own, c, MarkFailedStep(cfg, t, s, c, c.pc.code, clock));
  }

  lemma MarkExecutedGoesOn(cfg: Config, t: Tid, own: seq<Event>, s: Store, c: ToolCall, clock: Time)
    requires c.pc.AtMarkExecuted? && Story(cfg, t, own, c) && LetIn(cfg, c) && Effects.Keyed(s.approvals)
    requires c.approval.Some? ==> TakenUp(s.approvals, c.approval.value)
    ensures GoesOn(cfg, t, own, MarkExecutedStep(cfg, t, s, c, c.pc.result, clock))
  {
    MarkExecutedMarks(cfg, t, s, c, c.pc.result, clock);
    MarkedGoesOn(cfg, t, own, c, MarkExecutedStep(cfg, t, s, c, c.pc.result, clock));
  }

  lemma NothingIsNoSuccess(cfg: Config, m: Matter, own: seq<Event>, result: Json)
    requires Answered(cfg, m.caller, m.request, m.now, own, Success(m, result))
    ensures own != []
  {
  }

  lemma SuccessGoesOn(cfg: Config, t: Tid, own: seq<Event>, s: Store, c: ToolCall, clock: Time)
    requires c.pc.AtSuccessAudit? && Story(cfg, t, own, c)
    ensures GoesOn(cfg, t, own, SuccessAuditStep(cfg, s, c, c.pc.result, clock))
  {
    var m := MatterOf(cfg, t, c);
    NothingIsNoSuccess(cfg, m, own, c.pc.result);
    Silent(cfg, t, own, SuccessAuditStep(cfg, s, c, c.pc.result, clock));
  }

  lemma FailureGoesOn(cfg: Config, t: Tid, own: seq<Event>, s: Store, c: ToolCall, clock: Time)
    requires c.pc.AtFailAudit? && Story(cfg, t, own, c)
    ensures GoesOn(cfg, t, own, FailAuditStep(cfg, s, c, c.pc.code, clock))
  {
    Silent(cfg, t, own, FailAuditStep(cfg, s, c, c.pc.code, clock));
  }

  lemma CompletionGoesOn(cfg: Config, t: Tid, own: seq<Event>, s: Store, c: ToolCall, clock: Time)
    requires c.pc.AtComplete? && Story(cfg, t, own, c)
    ensures GoesOn(cfg, t, own, CompleteStep(cfg, s, c, c.pc.response, c.pc.status, clock))
  {
    Silent(cfg, t, own, CompleteStep(cfg, s, c, c.pc.response, c.pc.status, clock));
  }

  /** What an invariant of the approvals says of a call that is about to take its next step. */
  lemma CallIsReady(cfg: Config, trace: seq<Event>, st: ApprovalState, c: ToolCall)
    requires G.L.Invariant(st) && G.AllBacked(cfg, trace, st) && G.CallHolds(cfg, st, c)
    ensures Effects.Keyed(st) && (G.InProgress(c.pc) ==> LetIn(cfg, c))
    ensures c.approval.Some? ==> TakenUp(st, c.approval.value)
  {
    if c.approval.Some? {
      assert G.Backed(cfg, trace, st.approvals[c.approval.value]);
    }
  }

  lemma EarlyGoesOn(cfg: Config, t: Tid, own: seq<Event>, s: Store, c: ToolCall, tick: Tick)
    requires Story(cfg, t, own, c) && LetIn(cfg, c) && Effects.Keyed(s.approvals)
    requires c.pc.AtLimit? || c.pc.AtReserve? || c.pc.AtLookup? || c.pc.AtVerify? || c.pc.AtCreate?
      || c.pc.AtPendingAudit?
    ensures GoesOn(cfg, t, own, Advance(cfg, t, s, c, tick))
  {
    match c.pc
    case AtLimit => LimitGoesOn(cfg, t, own, s, c);
    case AtReserve => ReserveGoesOn(cfg, t, own, s, c);
    case AtLookup => LookupGoesOn(cfg, t, own, s, c);
    case AtVerify => VerifyGoesOn(cfg, t, own, s, c);
    case AtCreate =>
      if tick.freshId in s.approvals.approvals {
        Silent(cfg, t, own, StepResult(s, c, []));
      } else {
        CreateGoesOn(cfg, t, own, s, c, tick.freshId);
      }
    case AtPendingAudit(id) => PendingGoesOn(cfg, t, own, s, c, id, tick.clock);
  }

  lemma RunGoesOn(cfg: Config, t: Tid, own: seq<Event>, s: Store, c: ToolCall, tick: Tick)
    requires Story(cfg, t, own, c) && LetIn(cfg, c) && Effects.Keyed(s.approvals)
    requires c.approval.Some? ==> TakenUp(s.approvals, c.approval.value)
    requires c.pc.AtMarkRunning? || c.pc.AtDispatch? || c.pc.AtMarkFailed? || c.pc.AtMarkExecuted?
    ensures GoesOn(cfg, t, own, Advance(cfg, t, s, c, tick))
  {
    match c.pc
    case AtMarkRunning => RunningGoesOn(cfg, t, own, s, c, Advance(cfg, t, s, c, tick));
    case AtDispatch => DispatchGoesOn(cfg, t, own, s, c, tick.outcome);
    case AtMarkFailed(_) => MarkFailedGoesOn(cfg, t, own, s, c, tick.clock);
    case AtMarkExecuted(_) => MarkExecutedGoesOn(cfg, t, own, s, c, tick.clock);
  }

  lemma LateGoesOn(cfg: Config, t: Tid, own: seq<Event>, s: Store, c: ToolCall, tick: Tick)
    requires Story(cfg, t, own, c)
    requires c.pc.AtSuccessAudit? || c.pc.AtFailAudit? || c.pc.AtComplete? || Finished(c)
    ensures GoesOn(cfg, t, own, Advance(cfg, t, s, c, tick))
  {
    match c.pc
    case AtSuccessAudit(_) => SuccessGoesOn(cfg, t, own, s, c, tick.clock);
    case AtFailAudit(_) => FailureGoesOn(cfg, t, own, s, c, tick.clock);
    case AtComplete(_, _) => CompletionGoesOn(cfg, t, own, s, c, tick.clock);
    case Done(_, _) => Silent(cfg, t, own, StepResult(s, c, []));
    case Crashed => Silent(cfg, t, own, StepResult(s, c, []));
  }

  /** Every step of a call continues its story. */
  lemma StepGoesOn(cfg: Config, t: Tid, trace: seq<Event>, s: Store, c: ToolCall, tick: Tick)
    requires G.L.Invariant(s.approvals) && G.AllBacked(cfg, trace, s.approvals) && G.CallHolds(cfg, s.approvals, c)
    requires Story(cfg, t, Own(trace, t), c)
    ensures GoesOn(cfg, t, Own(trace, t), Advance(cfg, t, s, c, tick))
  {
    CallIsReady(cfg, trace, s.approvals, c);
    if c.pc.AtSuccessAudit? || c.pc.AtFailAudit? || c.pc.AtComplete? || Finished(c) {
      LateGoesOn(cfg, t, Own(trace, t), s, c, tick);
    } else if c.pc.AtMarkRunning? || c.pc.AtDispatch? || c.pc.AtMarkFailed? || c.pc.AtMarkExecuted? {
      RunGoesOn(cfg, t, Own(trace, t), s, c, tick);
    } else {
      EarlyGoesOn(cfg, t, Own(trace, t), s, c, tick);
    }
  }

  // ---- whole runs

  ghost predicate AllStories(cfg: Config, trace: seq<Event>, calls: map<Tid, ToolCall>) {
    && (forall t :: t in calls ==> Story(cfg, t, Own(trace, t), calls[t]))
    && (forall t :: t !in calls ==> Own(trace, t) == [])
  }

  lemma OwnAppends(trace: seq<Event>, events: seq<Event>, t: Tid)
    requires |events| <= 1
    ensures (forall e :: e in events ==> OfCall(e, t)) ==> Own(trace + events, t) == Own(trace, t) + events
    ensures (forall e :: e in events ==> !OfCall(e, t)) ==> Own(trace + events, t) == Own(trace, t)
  {
    if |events| == 1 {
      OwnAppend(trace, events[0], t);
      assert events == [events[0]];
    } else {
      assert trace + events == trace;
    }
  }

  lemma StepCallKeeps(cfg: Config, s: System, tid: Tid, r: StepResult)
    requires AllStories(cfg, s.trace, s.calls) && tid in s.calls && GoesOn(cfg, tid, Own(s.trace, tid), r)
    ensures AllStories(cfg, s.trace + r.events, s.calls[tid := r.call])
  {
    forall t
      ensures t == tid ==> Own(s.trace + r.events, t) == Own(s.trace, t) + r.events
      ensures t != tid ==> Own(s.trace + r.events, t) == Own(s.trace, t)
    {
      OwnAppends(s.trace, r.events, t);
    }
  }

  lemma OtherKeeps(cfg: Config, s: System, events: seq<Event>)
    requires AllStories(cfg, s.trace, s.calls) && |events| <= 1
    requires forall e :: e in events ==> e.Granted? || e.Refused?
    ensures AllStories(cfg, s.trace + events, s.calls)
  {
    forall t
      ensures Own(s.trace + events, t) == Own(s.trace, t)
    {
      OwnAppends(s.trace, events, t);
    }
  }

  lemma StartStory(cfg: Config, t: Tid, request: Request, now: Time)
    ensures Story(cfg, t, [], ToolCall(request, now, Admission(cfg, request), false, None))
  {
    var c := ToolCall(request, now, Admission(cfg, request), false, None);
    if c.pc.AtFailAudit? {
      AdmissionIff(cfg, request, c.pc.code);
      assert TurnedAway(cfg, request, c.pc.code);
    }
  }

  lemma RulingEvents(cfg: Config, s: Store, r: Ruling)
    ensures var res := Rule(cfg, s, r);
      |res.events| <= 1 && forall e :: e in res.events ==> e.Granted? || e.Refused?
  {
  }

  lemma ActKeeps(cfg: Config, s: System, action: Action)
    requires G.Invariant(cfg, s) && AllStories(cfg, s.trace, s.calls)
    ensures AllStories(cfg, Act(cfg, s, action).trace, Act(cfg, s, action).calls)
  {
    if action.StepCall? && action.tid in s.calls {
      StepGoesOn(cfg, action.tid, s.trace, s.store, s.calls[action.tid], action.tick);
      StepCallKeeps(cfg, s, action.tid, Advance(cfg, action.tid, s.store, s.calls[action.tid], action.tick));
    } else if action.StepRuling? && action.tid in s.rulings {
      RulingEvents(cfg, s.store, s.rulings[action.tid]);
      OtherKeeps(cfg, s, Rule(cfg, s.store, s.rulings[action.tid]).events);
    } else if action.StartCall? {
      StartStory(cfg, action.tid, action.request, action.now);
    }
  }

  lemma {:induction false} RunTells(cfg: Config, actions: seq<Action>)
    ensures AllStories(cfg, Run(cfg, actions).trace, Run(cfg, actions).calls)
  {
    if |actions| > 0 {
      RunTells(cfg, actions[..|actions| - 1]);
      G.RunInvariant(cfg, actions[..|actions| - 1]);
      ActKeeps(cfg, Run(cfg, actions[..|actions| - 1]), actions[|actions| - 1]);
    }
  }

  /**
   In every run every answer is told by the events of its own call: ALLOWED with the
   result its dispatch returned and its approval spent on it, PENDING_APPROVAL with the
   approval it requested, DENIED with the error its dispatch ended in or the check it
   failed; and an exception that escapes is that of its own dispatch.
   */
  lemma EveryAnswerIsExplained(cfg: Config, actions: seq<Action>, t: Tid)
    requires t in Run(cfg, actions).calls && Finished(Run(cfg, actions).calls[t])
    ensures var s := Run(cfg, actions);
      Answered(cfg, t, s.calls[t].request, s.calls[t].now, Own(s.trace, t), s.calls[t].pc)
  {
    RunTells(cfg, actions);
    var s := Run(cfg, actions);
    StoryEnds(cfg, t, Own(s.trace, t), s.calls[t]);
  }

  lemma StoryEnds(cfg: Config, t: Tid, own: seq<Event>, c: ToolCall)
    requires Story(cfg, t, own, c) && Finished(c)
    ensures Answered(cfg, t, c.request, c.now, own, c.pc)
  {
  }

  /** An answer that says ALLOWED repeats what the call's own dispatch returned, and needs that dispatch. */
  lemma AllowedIsReturned(cfg: Config, actions: seq<Action>, t: Tid)
    requires t in Run(cfg, actions).calls
    requires var pc := Run(cfg, actions).calls[t].pc; pc.Done? && !pc.replayed && pc.response.decision == Allowed
    ensures var s := Run(cfg, actions);
      var own, response := Own(s.trace, t), s.calls[t].pc.response;
      && |own| >= 2 && own[1].Dispatched? && own[1].outcome.Returned?
      && response.ok && response.body == ResultBody(own[1].outcome.result)
      && (own[1].tool.requiresApproval ==>
            own[1].approvalId.Some? && own[2..] == [Spent(t, own[1].approvalId.value, true)])
  {
    EveryAnswerIsExplained(cfg, actions, t);
  }

  /** The record as the mark leaves it: by the caller, with the result, or with the text of the error. */
  ghost predicate MarkedAs(a: Approval, a': Approval, pc: Pc, clock: Time) {
    match pc
    case AtMarkExecuted(result) =>
      a' == a.(status := Executed, executedAt := Some(clock), executionResult := Some(result), version := a.version + 1)
    case AtMarkFailed(code) =>
      && a'.failureReason.Some? && Names(a'.failureReason.value, code)
      && a' == a.(status := Failed, failureReason := a'.failureReason, version := a.version + 1)
    case _ => false
  }

  /** A mark that is made changes the approval the call holds, and nothing else. */
  lemma MarksItsOwn(cfg: Config, t: Tid, s: Store, c: ToolCall, id: Id, tick: Tick)
    requires Effects.Keyed(s.approvals) && LetIn(cfg, c) && TakenUp(s.approvals, id) && c.approval == Some(id)
    requires c.pc.AtMarkExecuted? || c.pc.AtMarkFailed?
    ensures var r, a, p :=
      Advance(cfg, t, s, c, tick), s.approvals.approvals[id], cfg.authenticate(c.request.authToken);
      && r.store == s.(approvals := r.store.approvals)
      && if a.status != Approved then r.store == s && r.events == []
         else
           && r.events == [Spent(t, id, c.pc.AtMarkExecuted?)]
           && id in r.store.approvals.approvals && MarkedAs(a, r.store.approvals.approvals[id], c.pc, tick.clock)
           && |r.store.approvals.events| == |s.approvals.events| + 1
           && r.store.approvals.events[|s.approvals.events|].actorId == p.value.id
           && forall other :: other in s.approvals.approvals && other != id ==>
             && other in r.store.approvals.approvals
             && r.store.approvals.approvals[other] == s.approvals.approvals[other]
  {
    if c.pc.AtMarkExecuted? {
      Effects.ExecutedEffect(s.approvals, id, Actor(cfg, c), tick.clock, c.pc.result);
    } else {
      Effects.FailedEffect(s.approvals, id, Actor(cfg, c), tick.clock, CodeText(c.pc.code));
      CodeTextNames(c.pc.code);
    }
  }

  // ---- what is kept under the key

  /** The response is stored under the caller's key with how it ended, and a stored record keeps its age. */
  ghost predicate Stores(keys: Entries, keys': Entries, k: IdempotencyKey, response: Response, clock: Time) {
    var at := if Lookup(keys, k).Some? then Lookup(keys, k).value.createdAt else clock;
    && Lookup(keys', k) == Some(Record(at, if response.ok then Succeeded else PermanentFailed, Some(response)))
    && forall other :: other != k ==> Lookup(keys', other) == Lookup(keys, other)
  }

  lemma CompletionIsKept(cfg: Config, s: Store, c: ToolCall, response: Response, status: OperationStatus, clock: Time)
    requires DistinctKeys(s.keys) && status == (if response.ok then Succeeded else PermanentFailed)
    requires LetIn(cfg, c)
    ensures Stores(s.keys, CompleteStep(cfg, s, c, response, status, clock).store.keys,
              IdempotencyKey(cfg.authenticate(c.request.authToken).value.id, c.request.idempotencyKey), response, clock)
  {
    var k := KeyOf(cfg, c);
    forall other
      ensures var es' := CompleteEntries(s.keys, k, response, status, clock);
        other != k ==> Lookup(es', other) == Lookup(s.keys, other)
    {
      CompleteEffect(s.keys, k, response, status, clock, other);
    }
    CompleteEffect(s.keys, k, response, status, clock, k);
  }

  /** A call that has reserved its key stores its answer once that is audited; any other call returns at once. */
  lemma AuditLeads(cfg: Config, actions: seq<Action>, t: Tid, tick: Tick)
    requires t in Run(cfg, actions).calls
    requires var pc := Run(cfg, actions).calls[t].pc; pc.AtSuccessAudit? || pc.AtFailAudit?
    ensures var s := Run(cfg, actions);
      var own, s' := Own(s.trace, t), Act(cfg, s, StepCall(t, tick));
      if |own| > 0 && own[0].Reservation? && own[0].isFresh then s'.calls[t].pc.AtComplete? else s'.calls[t].pc.Done?
  {
    RunTells(cfg, actions);
    var s := Run(cfg, actions);
    SuccessHolds(cfg, t, Own(s.trace, t), s.calls[t]);
    AuditStepLeads(cfg, t, s.store, s.calls[t], tick);
  }

  lemma SuccessHolds(cfg: Config, t: Tid, own: seq<Event>, c: ToolCall)
    requires Story(cfg, t, own, c)
    ensures c.pc.AtSuccessAudit? ==> c.reserved
    ensures c.reserved == (|own| > 0 && own[0].Reservation? && own[0].isFresh)
  {
  }

  lemma AuditStepLeads(cfg: Config, t: Tid, s: Store, c: ToolCall, tick: Tick)
    requires c.pc.AtFailAudit? || (c.pc.AtSuccessAudit? && c.reserved)
    ensures var pc := Advance(cfg, t, s, c, tick).call.pc;
      if c.reserved then pc.AtComplete? else pc.Done?
  {
  }

  /** Its last step stores the answer under its caller's key. */
  lemma EveryAnswerIsKept(cfg: Config, actions: seq<Action>, t: Tid, tick: Tick)
    requires t in Run(cfg, actions).calls && Run(cfg, actions).calls[t].pc.AtComplete?
    ensures var s := Run(cfg, actions);
      var c, s' := s.calls[t], Act(cfg, s, StepCall(t, tick));
      && cfg.authenticate(c.request.authToken).Some?
      && Stores(s.store.keys, s'.store.keys,
           IdempotencyKey(cfg.authenticate(c.request.authToken).value.id, c.request.idempotencyKey), c.pc.response,
           tick.clock)
      && s'.calls[t].pc == Done(c.pc.response, false)
  {
    RunTells(cfg, actions);
    K.RunInvariant(cfg, actions);
    var s := Run(cfg, actions);
    CompletingIsLetIn(cfg, t, Own(s.trace, t), s.calls[t]);
    CompletionIsKept(cfg, s.store, s.calls[t], s.calls[t].pc.response, s.calls[t].pc.status, tick.clock);
  }

  lemma CompletingIsLetIn(cfg: Config, t: Tid, own: seq<Event>, c: ToolCall)
    requires Story(cfg, t, own, c) && c.pc.AtComplete?
    ensures LetIn(cfg, c) && c.pc.status == (if c.pc.response.ok then Succeeded else PermanentFailed)
  {
  }
}
