/**
 What the gateway promises, in terms of the request and the configuration alone: which
 requests it lets in, what it hands to a tool, and who may rule on an approval.  The
 lemmas say that the functions of the machine do exactly this.
 */
module GatewayTerms {
  import opened Wrappers
  import opened GatewayTypes
  import opened GatewayMachine

  // ---- admission

  /** An authenticated caller with the permission for a registered tool that is switched on and executable. */
  ghost predicate Cleared(cfg: Config, request: Request, p: Principal, tool: Tool) {
    && cfg.authenticate(request.authToken) == Some(p)
    && request.toolName in cfg.registry && cfg.registry[request.toolName] == tool
    && tool.toolName !in cfg.disabledTools && tool.enabled
    && tool.executable
    && cfg.permits(p.role, tool.requiredPermission)
  }

  /** The first check the request fails, in the order in which they are made. */
  ghost predicate TurnedAway(cfg: Config, request: Request, code: ErrorCode) {
    var p := cfg.authenticate(request.authToken);
    if p.None? then code == ErrorCode.AuthenticationFailed
    else if request.toolName !in cfg.registry then code == UnknownTool
    else
      var tool := cfg.registry[request.toolName];
      var off := tool.toolName in cfg.disabledTools || tool.enabled == false;
      || (off && code == DisabledTool)
      || (!off && !tool.executable && code == NonExecutableTool)
      || (!off && tool.executable && !cfg.permits(p.value.role, tool.requiredPermission) && code == PermissionDenied)
  }

  lemma AdmissionIff(cfg: Config, request: Request, code: ErrorCode)
    ensures Admission(cfg, request) == AtLimit <==> exists p, tool :: Cleared(cfg, request, p, tool)
    ensures Admission(cfg, request) == AtFailAudit(code) <==> TurnedAway(cfg, request, code)
  {
    var p := cfg.authenticate(request.authToken);
    if p.Some? && request.toolName in cfg.registry {
      var tool := cfg.registry[request.toolName];
      assert Admission(cfg, request) == AtLimit ==> Cleared(cfg, request, p.value, tool);
    }
  }

  lemma AdmittedIsCleared(cfg: Config, c: ToolCall)
    requires Admission(cfg, c.request) == AtLimit
    ensures Cleared(cfg, c.request, Actor(cfg, c), ToolOf(cfg, c))
  {
  }

  // ---- arguments

  /** The fields a model could use to claim what only the gateway may say. */
  predicate Claim(field: string) {
    field == "actor_role" || field == "approval_token" || field == "required_permission" || field == "risk_level"
  }

  /** The arguments without those fields. */
  ghost predicate Sanitizes(arguments: Args, raw: Args) {
    && (forall field :: field in arguments <==> field in raw && !Claim(field))
    && (forall field :: field in arguments ==> arguments[field] == raw[field])
  }

  lemma StripSanitizes(raw: Args, arguments: Args)
    ensures Sanitizes(arguments, raw) <==> arguments == StripUntrusted(raw)
  {
    forall field
      ensures field in StripUntrusted(raw) <==> field in raw && !Claim(field)
    {
    }
    if Sanitizes(arguments, raw) {
      assert arguments.Keys == StripUntrusted(raw).Keys;
    }
  }

  /** What the tool is told: the sanitized arguments, the caller's own role, and a token for an approved operation. */
  ghost predicate Routes(routed: Args, raw: Args, role: Role, governed: bool) {
    && (forall field :: field in routed <==>
          || field == "actor_role"
          || (field == "approval_token" && governed)
          || (field in raw && !Claim(field)))
    && (forall field :: field in raw && !Claim(field) ==> routed[field] == raw[field])
    && routed["actor_role"] == JStr(
          match role
          case Admin => "ADMIN"
          case Engineer => "ENGINEER"
          case Operator => "OPERATOR"
          case Viewer => "VIEWER")
    && (governed ==> routed["approval_token"] == JStr("APPROVED_OPERATION_TOKEN"))
  }

  lemma TrustedRoutes(raw: Args, p: Principal, tool: Tool)
    ensures Routes(TrustedArguments(StripUntrusted(raw), p, tool), raw, p.role, tool.requiresApproval)
  {
    StripSanitizes(raw, StripUntrusted(raw));
    assert "actor_role" != "approval_token";
  }

  // ---- the texts of the error codes

  predicate Names(text: string, code: ErrorCode) {
    || (code == ErrorCode.AuthenticationFailed && text == "unauthorized_user")
    || (code == UnknownTool && text == "unknown_tool")
    || (code == DisabledTool && text == "tool_disabled")
    || (code == NonExecutableTool && text == "tool_not_executable")
    || (code == PermissionDenied && text == "permission_denied")
    || (code == MalformedArguments && text == "malformed_arguments")
    || (code == ServiceUnavailable && text == "service_unavailable")
    || (code == ApprovalNotFound && text == "approval_not_found")
    || (code == ErrorCode.ExpiredApproval && text == "expired_approval")
    || (code == DuplicateOperation && text == "duplicate_operation")
    || (code == ErrorCode.RateLimitExceeded && text == "rate_limit_exceeded")
    || (code == ApprovalDenied && text == "approval_denied")
    || (code == ToolTimeout && text == "timeout")
  }

  lemma CodeTextNames(code: ErrorCode)
    ensures Names(CodeText(code), code)
  {
  }

  // ---- the resource a request is about

  /** The field holds a string, a number or a truth value. */
  ghost predicate Shows(arguments: Args, field: string) {
    field in arguments && (arguments[field].JStr? || arguments[field].JInt? || arguments[field].JBool?)
  }

  ghost predicate ShownFirst(arguments: Args, fields: seq<string>, i: nat)
    requires i < |fields|
  {
    Shows(arguments, fields[i]) && forall j :: 0 <= j < i ==> !Shows(arguments, fields[j])
  }

  /** The value of the first field that shows one, if any does. */
  ghost predicate FirstShown(arguments: Args, fields: seq<string>, target: Option<Json>) {
    if target.None? then forall i :: 0 <= i < |fields| ==> !Shows(arguments, fields[i])
    else exists i :: 0 <= i < |fields| && ShownFirst(arguments, fields, i) && target == Some(arguments[fields[i]])
  }

  lemma {:induction false} TargetIsFirst(arguments: Args, fields: seq<string>)
    ensures FirstShown(arguments, fields, TargetResource(arguments, fields))
  {
    if |fields| > 0 && Shows(arguments, fields[0]) {
      assert ShownFirst(arguments, fields, 0);
    } else if |fields| > 0 {
      var rest, target := fields[1..], TargetResource(arguments, fields[1..]);
      TargetIsFirst(arguments, rest);
      assert forall j :: 0 < j < |fields| ==> rest[j - 1] == fields[j];
      if target.Some? {
        var i :| 0 <= i < |rest| && ShownFirst(arguments, rest, i) && target == Some(arguments[rest[i]]);
        assert ShownFirst(arguments, fields, i + 1);
      }
    }
  }

  /** The fields that may name the resource, in the order in which they are looked at. */
  ghost predicate Targets(arguments: Args, target: Option<Json>) {
    FirstShown(arguments,
      ["device_id", "repository", "run_id", "job_id", "ticket_id", "document_id", "procedure_id"], target)
  }

  // ---- rulings

  /** May rule on what somebody else asked for. */
  ghost predicate Entitled(cfg: Config, p: Principal, requesterId: string) {
    cfg.permits(p.role, "approvals:approve") && p.ptype != AiAgent && p.id != requesterId
  }

  /** May read approvals. */
  ghost predicate Reads(cfg: Config, authToken: string) {
    cfg.authenticate(authToken).Some? && cfg.permits(cfg.authenticate(authToken).value.role, "approvals:approve")
  }

  /** The machine lets exactly these read and rule. */
  lemma MayIff(cfg: Config, authToken: string, p: Principal, requesterId: string)
    ensures MayRead(cfg, authToken) <==> Reads(cfg, authToken)
    ensures MayApprove(cfg, p, requesterId) <==> Entitled(cfg, p, requesterId)
  {
  }
}
