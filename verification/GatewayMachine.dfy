/**
 The gateway as a machine of small steps.  A tool call is a thread whose steps are the
 store methods it calls, each atomic because each holds its store's lock; the calls,
 the rulings on approvals and the approval listings interleave in any order.
 */
module GatewayMachine {
  import opened Wrappers
  import opened GatewayTypes
  import opened Approvals
  import opened Idempotency
  import RateLimiter

  datatype Tool = Tool(
    toolName: string,
    risk: Risk,
    requiredPermission: string,
    requiresApproval: bool,
    rateLimit: RateLimiter.RateLimit,
    executable: bool,
    enabled: bool)

  /** What the gateway is configured with; the functions stand for code outside the model. */
  datatype Config = Config(
    authenticate: string -> Option<Principal>,
    registry: map<string, Tool>,
    disabledTools: set<string>,
    permits: (Role, string) -> bool,
    validates: (Tool, Args) -> bool,
    hashArguments: Args -> string,
    argumentHash: Args -> string,
    approvalTtl: int,
    idempotencyTtl: int,
    maxEntries: nat)

  const APPROVE_PERMISSION := "approvals:approve"

  const UNTRUSTED_FIELDS := {"actor_role", "approval_token", "required_permission", "risk_level"}

  const ANONYMOUS := Principal("anonymous", Viewer, Human)

  const NO_TOOL := Tool("", ReadOnly, "", false, RateLimiter.RateLimit(0, RateLimiter.Minute), false, false)

  // ---- pure helpers

  function StripUntrusted(arguments: Args): Args {
    map key | key in arguments && key !in UNTRUSTED_FIELDS :: arguments[key]
  }

  function RoleText(role: Role): string {
    match role
    case Admin => "ADMIN"
    case Engineer => "ENGINEER"
    case Operator => "OPERATOR"
    case Viewer => "VIEWER"
  }

  function CodeText(code: ErrorCode): string {
    match code
    case AuthenticationFailed => "unauthorized_user"
    case UnknownTool => "unknown_tool"
    case DisabledTool => "tool_disabled"
    case NonExecutableTool => "tool_not_executable"
    case PermissionDenied => "permission_denied"
    case MalformedArguments => "malformed_arguments"
    case ServiceUnavailable => "service_unavailable"
    case ApprovalNotFound => "approval_not_found"
    case ExpiredApproval => "expired_approval"
    case DuplicateOperation => "duplicate_operation"
    case RateLimitExceeded => "rate_limit_exceeded"
    case ApprovalDenied => "approval_denied"
    case ToolTimeout => "timeout"
  }

  function TrustedArguments(arguments: Args, principal: Principal, tool: Tool): Args {
    var routed := arguments["actor_role" := JStr(RoleText(principal.role))];
    if tool.requiresApproval then routed["approval_token" := JStr("APPROVED_OPERATION_TOKEN")] else routed
  }

  const RESOURCE_FIELDS := ["device_id", "repository", "run_id", "job_id", "ticket_id", "document_id", "procedure_id"]

  /** The first resource field that holds a string or an integer; its text form is not modelled. */
  function TargetResource(arguments: Args, fields: seq<string>): Option<Json> {
    if |fields| == 0 then None
    else if fields[0] in arguments
      && (arguments[fields[0]].JStr? || arguments[fields[0]].JInt? || arguments[fields[0]].JBool?)
    then Some(arguments[fields[0]])
    else TargetResource(arguments, fields[1..])
  }

  function BindingOf(
    cfg: Config, workflowId: Option<Id>, workflowNodeId: Option<string>, toolName: string, actorId: string,
    arguments: Args): Binding {
    Binding(workflowId, workflowNodeId, toolName, actorId, cfg.hashArguments(arguments))
  }

  // ---- a tool call

  /** Names a call or a ruling in flight. */
  datatype Tid = Tid(number: int)

  datatype Outcome =
    | Returned(result: Json)      // the tool returned a result
    | ReturnedError               // the tool returned an error result
    | Raised(code: ErrorCode)     // the dispatch raised one of the gateway's exceptions
    | Escaped                     // any other exception: it leaves call_tool

  datatype Pc =
    | AtLimit
    | AtReserve
    | AtLookup
    | AtVerify
    | AtCreate
    | AtPendingAudit(id: Id)
    | AtMarkRunning
    | AtDispatch
    | AtMarkFailed(code: ErrorCode)
    | AtMarkExecuted(result: Json)
    | AtSuccessAudit(result: Json)
    | AtFailAudit(code: ErrorCode)
    | AtComplete(response: Response, status: OperationStatus)
    | Done(response: Response, replayed: bool)
    | Crashed

  /** `approval` is the approval the call goes on to spend. */
  datatype ToolCall = ToolCall(request: Request, now: Time, pc: Pc, reserved: bool, approval: Option<Id>)

  function Actor(cfg: Config, c: ToolCall): Principal {
    var p := cfg.authenticate(c.request.authToken);
    if p.Some? then p.value else ANONYMOUS
  }

  predicate Known(cfg: Config, c: ToolCall) {
    cfg.authenticate(c.request.authToken).Some? && c.request.toolName in cfg.registry
  }

  function ToolOf(cfg: Config, c: ToolCall): Tool {
    if c.request.toolName in cfg.registry then cfg.registry[c.request.toolName] else NO_TOOL
  }

  function Sanitized(c: ToolCall): Args {
    StripUntrusted(c.request.arguments)
  }

  function KeyOf(cfg: Config, c: ToolCall): IdempotencyKey {
    IdempotencyKey(Actor(cfg, c).id, c.request.idempotencyKey)
  }

  predicate Finished(c: ToolCall) {
    c.pc.Done? || c.pc.Crashed?
  }

  /** The checks that come before any store is touched. */
  function Admission(cfg: Config, request: Request): Pc {
    var p := cfg.authenticate(request.authToken);
    if p.None? then AtFailAudit(ErrorCode.AuthenticationFailed)
    else if request.toolName !in cfg.registry then AtFailAudit(UnknownTool)
    else
      var tool := cfg.registry[request.toolName];
      if tool.toolName in cfg.disabledTools || !tool.enabled then AtFailAudit(DisabledTool)
      else if !tool.executable then AtFailAudit(NonExecutableTool)
      else if !cfg.permits(p.value.role, tool.requiredPermission) then AtFailAudit(PermissionDenied)
      else AtLimit
  }

  datatype Store = Store(approvals: ApprovalState, keys: Entries, calls: RateLimiter.Deques)

  /** What the environment supplies to a step: a clock reading, a new id, the fate of a dispatch. */
  datatype Tick = Tick(clock: Time, freshId: Id, outcome: Outcome)

  datatype Event =
    | Reservation(caller: Tid, key: IdempotencyKey, at: Time, isFresh: bool, expired: set<IdempotencyKey>,
      evicted: set<IdempotencyKey>)
    | Created(caller: Tid, approval: Approval)
    | Granted(id: Id, approver: Principal, at: Time)
    | Refused(id: Id, rejector: Principal, reason: string, at: Time)
    | Dispatched(caller: Tid, principal: Principal, tool: Tool, request: Request, routed: Args, approvalId: Option<Id>,
      outcome: Outcome)
    | Spent(caller: Tid, id: Id, executed: bool)

  datatype StepResult = StepResult(store: Store, call: ToolCall, events: seq<Event>)

  function Goto(store: Store, c: ToolCall, pc: Pc): StepResult {
    StepResult(store, c.(pc := pc), [])
  }

  function LimitStep(cfg: Config, s: Store, c: ToolCall): StepResult {
    var tool := ToolOf(cfg, c);
    var call := RateLimiter.Call(RateLimiter.Key(Actor(cfg, c).id, tool.toolName), c.now);
    var s' := s.(calls := RateLimiter.MemoryCheck(s.calls, tool.rateLimit, call));
    if !RateLimiter.MemoryAccepts(s.calls, tool.rateLimit, call) then
      Goto(s', c, AtFailAudit(ErrorCode.RateLimitExceeded))
    else if !cfg.validates(tool, TrustedArguments(Sanitized(c), Actor(cfg, c), tool)) then
      Goto(s', c, AtFailAudit(MalformedArguments))
    else Goto(s', c, AtReserve)
  }

  function KeysOf(es: Entries): set<IdempotencyKey> {
    if |es| == 0 then {} else KeysOf(es[..|es| - 1]) + {es[|es| - 1].key}
  }

  function AfterReservation(cfg: Config, c: ToolCall): Pc {
    if !ToolOf(cfg, c).requiresApproval then AtMarkRunning
    else if c.request.approvalId.None? then AtCreate
    else AtLookup
  }

  function ReserveStep(cfg: Config, tid: Tid, s: Store, c: ToolCall): StepResult {
    var k := KeyOf(cfg, c);
    var live := Expire(s.keys, c.now - cfg.idempotencyTtl);
    var keys' := ReserveEntries(s.keys, k, c.now, cfg.idempotencyTtl, cfg.maxEntries);
    var outcome := ReserveOutcomeOf(s.keys, k, c.now, cfg.idempotencyTtl);
    var s' := s.(keys := keys');
    var event := Reservation(tid, k, c.now, outcome.Fresh?, KeysOf(s.keys) - KeysOf(live),
                             if outcome.Fresh? then KeysOf(live) + {k} - KeysOf(keys') else {});
    match outcome
    case Replay(response) => StepResult(s', c.(pc := Done(response, true)), [event])
    case Duplicate => StepResult(s', c.(pc := AtFailAudit(DuplicateOperation)), [event])
    case Fresh => StepResult(s', c.(pc := AfterReservation(cfg, c), reserved := true), [event])
  }

  function LookupStep(cfg: Config, s: Store, c: ToolCall): StepResult {
    if c.request.approvalId.None? then Goto(s, c, AtCreate)
    else
      var (st', r) := Get(s.approvals, c.request.approvalId.value, c.now);
      Goto(s.(approvals := st'), c, if r.Err? then AtFailAudit(r.error) else AtVerify)
  }

  /** The checks of the request against the approval record, as it stands when they are made. */
  predicate ApprovalFits(cfg: Config, c: ToolCall, a: Approval) {
    var tool := ToolOf(cfg, c);
    && a.toolName == tool.toolName && a.arguments == Sanitized(c)
    && (a.argumentsHash.Some? ==> a.argumentsHash.value == cfg.hashArguments(Sanitized(c)))
    && (a.workflowId.Some? ==> a.workflowId == c.request.workflowId)
    && (a.workflowNodeId.Some? ==> a.workflowNodeId == c.request.workflowNodeId)
    && (a.binding.Some? ==>
          a.binding.value == BindingOf(cfg, c.request.workflowId, c.request.workflowNodeId, tool.toolName,
            a.requesterId, Sanitized(c)))
    && a.status == Approved
  }

  function VerifyStep(cfg: Config, s: Store, c: ToolCall): StepResult {
    if c.request.approvalId.Some? && c.request.approvalId.value in s.approvals.approvals
       && ApprovalFits(cfg, c, s.approvals.approvals[c.request.approvalId.value])
    then StepResult(s, c.(pc := AtMarkRunning, approval := c.request.approvalId), [])
    else Goto(s, c, AtFailAudit(MalformedArguments))
  }

  function RequestedApproval(cfg: Config, c: ToolCall, id: Id): Approval {
    var p, tool, args := Actor(cfg, c), ToolOf(cfg, c), Sanitized(c);
    NewApproval(p, tool.toolName, args, tool.risk, c.now, cfg.approvalTtl, id, c.request.workflowId,
      c.request.workflowNodeId,
                Some(cfg.hashArguments(args)),
                Some(BindingOf(cfg, c.request.workflowId, c.request.workflowNodeId, tool.toolName, p.id, args)))
  }

  function CreateStep(cfg: Config, tid: Tid, s: Store, c: ToolCall, id: Id): StepResult {
    var a := RequestedApproval(cfg, c, id);
    StepResult(s.(approvals := Create(s.approvals, a, Actor(cfg, c), c.now)), c.(pc := AtPendingAudit(id)),
      [Created(tid, a)])
  }

  function AuditOf(
    cfg: Config, c: ToolCall, toolName: string, clock: Time, decision: Decision, risk: Option<Risk>,
    approvalStatus: Option<ApprovalStatus>, execution: string, summary: string): AuditRecord
  {
    AuditRecord(clock, Actor(cfg, c).id, Actor(cfg, c).role, toolName, c.request.correlationId, decision, risk,
                approvalStatus, execution, summary,
                Some(cfg.argumentHash(c.request.arguments)), TargetResource(c.request.arguments, RESOURCE_FIELDS))
  }

  function Audited(s: Store, r: AuditRecord): Store {
    s.(approvals := s.approvals.(audit := s.approvals.audit + [r]))
  }

  function StatusIn(s: Store, id: Option<Id>): Option<ApprovalStatus> {
    if id.Some? && id.value in s.approvals.approvals then Some(s.approvals.approvals[id.value].status) else None
  }

  function PendingAuditStep(cfg: Config, s: Store, c: ToolCall, id: Id, clock: Time): StepResult {
    var tool := ToolOf(cfg, c);
    var status := StatusIn(s, Some(id));
    Goto(Audited(s, AuditOf(cfg, c, tool.toolName, clock, PendingApproval, Some(tool.risk), status, "PENDING_APPROVAL",
      "PENDING_APPROVAL")), c,
         Done(Response(true, PendingApproval, c.request.correlationId, tool.toolName,
                       PendingBody(id, if status.Some? then status.value else Pending, tool.risk)), false))
  }

  function DispatchStep(cfg: Config, tid: Tid, s: Store, c: ToolCall, outcome: Outcome): StepResult {
    var p, tool := Actor(cfg, c), ToolOf(cfg, c);
    var event := Dispatched(tid, p, tool, c.request, TrustedArguments(Sanitized(c), p, tool), c.approval, outcome);
    var pc := match outcome
      case Returned(result) => if c.approval.Some? then AtMarkExecuted(result) else AtSuccessAudit(result)
      case ReturnedError =>
        if c.approval.Some? then AtMarkFailed(MalformedArguments) else AtFailAudit(MalformedArguments)
      case Raised(code) => if c.approval.Some? then AtMarkFailed(code) else AtFailAudit(code)
      case Escaped => Crashed;
    StepResult(s, c.(pc := pc), [event])
  }

  function MarkFailedStep(cfg: Config, tid: Tid, s: Store, c: ToolCall, code: ErrorCode, clock: Time): StepResult {
    if c.approval.None? then Goto(s, c, AtFailAudit(code))
    else
      var (st', r) := MarkFailed(s.approvals, c.approval.value, Actor(cfg, c), clock, CodeText(code));
      StepResult(s.(approvals := st'), c.(pc := AtFailAudit(if r.Err? then r.error else code)),
                 if r.Ok? then [Spent(tid, c.approval.value, false)] else [])
  }

  function MarkExecutedStep(cfg: Config, tid: Tid, s: Store, c: ToolCall, result: Json, clock: Time): StepResult {
    if c.approval.None? then Goto(s, c, AtSuccessAudit(result))
    else
      var (st', r) := MarkExecuted(s.approvals, c.approval.value, Actor(cfg, c), clock, result);
      StepResult(s.(approvals := st'), c.(pc := if r.Err? then AtFailAudit(r.error) else AtSuccessAudit(result)),
                 if r.Ok? then [Spent(tid, c.approval.value, true)] else [])
  }

  function SuccessAuditStep(cfg: Config, s: Store, c: ToolCall, result: Json, clock: Time): StepResult {
    var tool := ToolOf(cfg, c);
    Goto(Audited(s, AuditOf(cfg, c, tool.toolName, clock, Allowed, Some(tool.risk), StatusIn(s, c.approval),
      "SUCCEEDED", "ALLOWED")), c,
         AtComplete(Response(true, Allowed, c.request.correlationId, tool.toolName, ResultBody(result)), Succeeded))
  }

  function FailAuditStep(cfg: Config, s: Store, c: ToolCall, code: ErrorCode, clock: Time): StepResult {
    var response := Response(false, Denied, c.request.correlationId, c.request.toolName, ErrorBody(code));
    Goto(Audited(s, AuditOf(cfg, c, c.request.toolName, clock, Denied,
      if Known(cfg, c) then Some(ToolOf(cfg, c).risk) else None,
                            None, "DENIED", CodeText(code))), c,
         if c.reserved then AtComplete(response, PermanentFailed) else Done(response, false))
  }

  function CompleteStep(
    cfg: Config, s: Store, c: ToolCall, response: Response, status: OperationStatus, clock: Time): StepResult {
    Goto(s.(keys := CompleteEntries(s.keys, KeyOf(cfg, c), response, status, clock)), c, Done(response, false))
  }

  /** One step of a call; a step that would reuse an approval id is not taken. */
  function Advance(cfg: Config, tid: Tid, s: Store, c: ToolCall, tick: Tick): StepResult {
    match c.pc
    case AtLimit => LimitStep(cfg, s, c)
    case AtReserve => ReserveStep(cfg, tid, s, c)
    case AtLookup => LookupStep(cfg, s, c)
    case AtVerify => VerifyStep(cfg, s, c)
    case AtCreate =>
      if tick.freshId in s.approvals.approvals then StepResult(s, c, []) else CreateStep(cfg, tid, s, c, tick.freshId)
    case AtPendingAudit(id) => PendingAuditStep(cfg, s, c, id, tick.clock)
    case AtMarkRunning => Goto(s.(keys := MarkRunningEntries(s.keys, KeyOf(cfg, c))), c, AtDispatch)
    case AtDispatch => DispatchStep(cfg, tid, s, c, tick.outcome)
    case AtMarkFailed(code) => MarkFailedStep(cfg, tid, s, c, code, tick.clock)
    case AtMarkExecuted(result) => MarkExecutedStep(cfg, tid, s, c, result, tick.clock)
    case AtSuccessAudit(result) => SuccessAuditStep(cfg, s, c, result, tick.clock)
    case AtFailAudit(code) => FailAuditStep(cfg, s, c, code, tick.clock)
    case AtComplete(response, status) => CompleteStep(cfg, s, c, response, status, tick.clock)
    case Done(_, _) => StepResult(s, c, [])
    case Crashed => StepResult(s, c, [])
  }

  /** How far a call is from its end; every step but a refused creation lowers it. */
  function Rank(pc: Pc): nat {
    match pc
    case AtLimit => 12
    case AtReserve => 11
    case AtLookup => 10
    case AtVerify => 9
    case AtCreate => 8
    case AtPendingAudit(_) => 7
    case AtMarkRunning => 6
    case AtDispatch => 5
    case AtMarkFailed(_) => 4
    case AtMarkExecuted(_) => 4
    case AtSuccessAudit(_) => 3
    case AtFailAudit(_) => 2
    case AtComplete(_, _) => 1
    case Done(_, _) => 0
    case Crashed => 0
  }

  // ---- rulings on approvals

  datatype Verb = Approving | Rejecting(reason: string)

  datatype RulingPc = AtGet | AtDecide | Ruled(reply: Reply)

  /** approve_operation or reject_operation in flight. */
  datatype Ruling = Ruling(principal: Principal, id: Id, verb: Verb, now: Time, pc: RulingPc)

  predicate MayApprove(cfg: Config, p: Principal, requesterId: string) {
    cfg.permits(p.role, APPROVE_PERMISSION) && p.ptype != AiAgent && p.id != requesterId
  }

  datatype RulingResult = RulingResult(store: Store, ruling: Ruling, events: seq<Event>)

  function Rule(cfg: Config, s: Store, r: Ruling): RulingResult {
    match r.pc
    case AtGet =>
      var (st', reply) := Get(s.approvals, r.id, r.now);
      var pc := if reply.Err? then Ruled(reply)
        else if !MayApprove(cfg, r.principal, reply.value.requesterId) then Ruled(Err(PermissionDenied))
        else AtDecide;
      RulingResult(s.(approvals := st'), r.(pc := pc), [])
    case AtDecide =>
      var (st', reply) := match r.verb
        case Approving => Approve(s.approvals, r.id, r.principal, r.now)
        case Rejecting(reason) => Reject(s.approvals, r.id, r.principal, reason, r.now);
      RulingResult(s.(approvals := st'), r.(pc := Ruled(reply)),
                   if reply.Err? then []
                   else if r.verb.Approving? then [Granted(r.id, r.principal, r.now)]
                   else [Refused(r.id, r.principal, r.verb.reason, r.now)])
    case Ruled(_) => RulingResult(s, r, [])
  }

  // ---- the system

  datatype System = System(store: Store, calls: map<Tid, ToolCall>, rulings: map<Tid, Ruling>, trace: seq<Event>)

  datatype Action =
    | StartCall(tid: Tid, request: Request, now: Time)
    | StepCall(tid: Tid, tick: Tick)
    | StartRuling(tid: Tid, authToken: string, id: Id, verb: Verb, now: Time)
    | StepRuling(tid: Tid)
    | ListApprovals(authToken: string, now: Time)
    | GetApproval(authToken: string, id: Id, now: Time)

  const INITIAL := System(Store(ApprovalState(map[], [], [], []), [], map[]), map[], map[], [])

  predicate MayRead(cfg: Config, authToken: string) {
    var p := cfg.authenticate(authToken);
    p.Some? && cfg.permits(p.value.role, APPROVE_PERMISSION)
  }

  /** One step of the system; an action that does not apply changes nothing. */
  function Act(cfg: Config, s: System, action: Action): System {
    match action
    case StartCall(tid, request, now) =>
      if tid in s.calls then s
      else s.(calls := s.calls[tid := ToolCall(request, now, Admission(cfg, request), false, None)])
    case StepCall(tid, tick) =>
      if tid !in s.calls then s
      else
        var r := Advance(cfg, tid, s.store, s.calls[tid], tick);
        s.(store := r.store, calls := s.calls[tid := r.call], trace := s.trace + r.events)
    case StartRuling(tid, authToken, id, verb, now) =>
      var p := cfg.authenticate(authToken);
      if tid in s.rulings || p.None? then s
      else s.(rulings := s.rulings[tid := Ruling(p.value, id, verb, now, AtGet)])
    case StepRuling(tid) =>
      if tid !in s.rulings then s
      else
        var r := Rule(cfg, s.store, s.rulings[tid]);
        s.(store := r.store, rulings := s.rulings[tid := r.ruling], trace := s.trace + r.events)
    case ListApprovals(authToken, now) =>
      if MayRead(cfg, authToken) then s.(store := s.store.(approvals := ExpirePending(s.store.approvals, now))) else s
    case GetApproval(authToken, id, now) =>
      if MayRead(cfg, authToken) then s.(store := s.store.(approvals := Detail(s.store.approvals, id, now).0)) else s
  }

  /** The state after a run of actions, in any interleaving. */
  function Run(cfg: Config, actions: seq<Action>): System {
    if |actions| == 0 then INITIAL else Act(cfg, Run(cfg, actions[..|actions| - 1]), actions[|actions| - 1])
  }

  /** The state after further actions. */
  ghost function From(cfg: Config, s: System, actions: seq<Action>): System
    decreases |actions|
  {
    if |actions| == 0 then s else From(cfg, Act(cfg, s, actions[0]), actions[1..])
  }

  lemma {:induction false} RunThenFrom(cfg: Config, before: seq<Action>, actions: seq<Action>)
    ensures Run(cfg, before + actions) == From(cfg, Run(cfg, before), actions)
    decreases |actions|
  {
    if |actions| == 0 {
      assert before + actions == before;
    } else {
      assert (before + [actions[0]])[..|before|] == before;
      assert before + actions == (before + [actions[0]]) + actions[1..];
      RunThenFrom(cfg, before + [actions[0]], actions[1..]);
    }
  }

  lemma {:induction false} FromThenFrom(cfg: Config, s: System, first: seq<Action>, second: seq<Action>)
    ensures From(cfg, s, first + second) == From(cfg, From(cfg, s, first), second)
    decreases |first|
  {
    if |first| == 0 {
      assert first + second == second;
    } else {
      assert (first + second)[1..] == first[1..] + second;
      FromThenFrom(cfg, Act(cfg, s, first[0]), first[1..], second);
    }
  }

  lemma FromAppend(cfg: Config, s: System, actions: seq<Action>, a: Action)
    ensures From(cfg, s, actions + [a]) == Act(cfg, From(cfg, s, actions), a)
  {
    FromThenFrom(cfg, s, actions, [a]);
    assert [a][1..] == [];
    assert From(cfg, From(cfg, s, actions), [a]) == From(cfg, Act(cfg, From(cfg, s, actions), a), []);
  }
}
