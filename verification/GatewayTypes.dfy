/**
 The data the gateway handles: principals, tools, requests, responses, approval
 records, audit records.  Times are integers; error messages are dropped and
 only error codes kept.
 */
module GatewayTypes {
  import opened Wrappers

  datatype Role = Admin | Engineer | Operator | Viewer

  datatype PrincipalType = Human | AiAgent | Service

  datatype Principal = Principal(id: string, role: Role, ptype: PrincipalType)

  datatype Risk = ReadOnly | Low | Medium | High | CriticalRisk

  datatype Json =
    | JNull
    | JBool(b: bool)
    | JInt(n: int)
    | JStr(s: string)
    | JList(items: seq<Json>)
    | JMap(fields: map<string, Json>)

  type Args = map<string, Json>

  /** A UUID. */
  datatype Id = Id(number: int)

  type Time = int

  datatype ApprovalStatus = Pending | Approved | Rejected | Expired | Executed | Failed

  datatype Decision = Allowed | Denied | PendingApproval

  /** The codes of the gateway's own exceptions. */
  datatype ErrorCode =
    | AuthenticationFailed
    | UnknownTool
    | DisabledTool
    | NonExecutableTool
    | PermissionDenied
    | MalformedArguments
    | ServiceUnavailable
    | ApprovalNotFound
    | ExpiredApproval
    | DuplicateOperation
    | RateLimitExceeded
    | ApprovalDenied
    | ToolTimeout

  /** The payload whose digest binds an approval to a request; the digest is taken to be injective. */
  datatype Binding = Binding(
    workflowId: Option<Id>,
    workflowNodeId: Option<string>,
    toolName: string,
    actorId: string,
    argumentsHash: string)

  datatype Approval = Approval(
    id: Id,
    requesterId: string,
    requesterType: PrincipalType,
    toolName: string,
    arguments: Args,
    risk: Risk,
    status: ApprovalStatus,
    createdAt: Time,
    expiresAt: Time,
    approvedBy: Option<string>,
    approvedAt: Option<Time>,
    rejectedBy: Option<string>,
    rejectedAt: Option<Time>,
    executedAt: Option<Time>,
    failureReason: Option<string>,
    executionResult: Option<Json>,
    workflowId: Option<Id>,
    workflowNodeId: Option<string>,
    argumentsHash: Option<string>,
    binding: Option<Binding>,
    version: int)

  datatype ApprovalEvent = ApprovalEvent(
    approvalId: Id,
    eventType: string,
    timestamp: Time,
    actorId: string,
    status: ApprovalStatus,
    toolName: string)

  datatype AuditRecord = AuditRecord(
    timestamp: Time,
    actorId: string,
    actorRole: Role,
    toolName: string,
    correlationId: Id,
    decision: Decision,
    risk: Option<Risk>,
    approvalStatus: Option<ApprovalStatus>,
    executionStatus: string,
    summary: string,
    argumentHash: Option<string>,
    targetResource: Option<Json>)

  datatype Request = Request(
    authToken: string,
    toolName: string,
    arguments: Args,
    idempotencyKey: string,
    approvalId: Option<Id>,
    correlationId: Id,
    workflowId: Option<Id>,
    workflowNodeId: Option<string>)

  datatype Body =
    | ResultBody(result: Json)
    | PendingBody(approvalId: Id, approvalStatus: ApprovalStatus, risk: Risk)
    | ErrorBody(code: ErrorCode)

  datatype Response = Response(ok: bool, decision: Decision, correlationId: Id, toolName: string, body: Body)
}
