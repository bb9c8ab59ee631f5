/**
 The in-memory approval store.  Records are values in a dictionary that the store's
 methods reassign; every change of status appends an approval event and an audit record.
 */
module Approvals {
  import opened Wrappers
  import opened GatewayTypes

  datatype ApprovalState = ApprovalState(
    approvals: map<Id, Approval>,
    order: seq<Id>,
    events: seq<ApprovalEvent>,
    audit: seq<AuditRecord>)

  const SYSTEM := Principal("system", Admin, Service)

  function EventFor(a: Approval, eventType: string, actor: Principal, now: Time): ApprovalEvent {
    ApprovalEvent(a.id, eventType, now, actor.id, a.status, a.toolName)
  }

  function AuditFor(
    a: Approval, eventType: string, actor: Principal, now: Time, execution: string, summary: string): AuditRecord {
    AuditRecord(now, actor.id, actor.role, eventType, a.id, Allowed, Some(a.risk), Some(a.status), execution, summary,
      None, None)
  }

  /** Store the changed record and record the transition. */
  function Transition(
    st: ApprovalState, a: Approval, eventType: string, actor: Principal, now: Time, execution: string, summary: string)
    : ApprovalState
  {
    ApprovalState(
      st.approvals[a.id := a],
      if a.id in st.approvals then st.order else st.order + [a.id],
      st.events + [EventFor(a, eventType, actor, now)],
      st.audit + [AuditFor(a, eventType, actor, now, execution, summary)])
  }

  function NewApproval(
    principal: Principal, toolName: string, arguments: Args, risk: Risk, now: Time, ttl: int, id: Id,
    workflowId: Option<Id>, workflowNodeId: Option<string>, argumentsHash: Option<string>, binding: Option<Binding>)
    : Approval
  {
    Approval(id, principal.id, principal.ptype, toolName, arguments, risk, Pending, now, now + ttl,
             None, None, None, None, None, None, None,
             workflowId, workflowNodeId, argumentsHash, binding, 1)
  }

  function Create(st: ApprovalState, a: Approval, principal: Principal, now: Time): ApprovalState {
    Transition(st, a, "approval.requested", principal, now, "PENDING_APPROVAL", "Approval request created.")
  }

  predicate Overdue(a: Approval, now: Time) {
    a.status == Pending && now >= a.expiresAt
  }

  function ExpiredForm(a: Approval): Approval {
    a.(status := Expired, version := a.version + 1)
  }

  function ExpireIfNeeded(st: ApprovalState, id: Id, now: Time): ApprovalState
    requires id in st.approvals
  {
    var a := st.approvals[id];
    if Overdue(a, now) then
      Transition(st, ExpiredForm(a), "approval.expired", SYSTEM, now, "EXPIRED", "Approval expired.")
    else st
  }

  type Reply = Result<Approval, ErrorCode>

  function Detail(st: ApprovalState, id: Id, now: Time): (r: (ApprovalState, Reply))
  {
    if id !in st.approvals then (st, Err(ApprovalNotFound))
    else
      var st' := ExpireIfNeeded(st, id, now);
      if id in st'.approvals then (st', Ok(st'.approvals[id])) else (st', Err(ApprovalNotFound))
  }

  function Get(st: ApprovalState, id: Id, now: Time): (ApprovalState, Reply) {
    var (st', r) := Detail(st, id, now);
    if r.Ok? && r.value.status == Expired then (st', Err(ErrorCode.ExpiredApproval)) else (st', r)
  }

  function ApprovedForm(a: Approval, approver: string, now: Time): Approval {
    a.(status := Approved, approvedBy := Some(approver), approvedAt := Some(now), version := a.version + 1)
  }

  function RejectedForm(a: Approval, rejector: string, reason: string, now: Time): Approval {
    a.(status := Rejected, rejectedBy := Some(rejector), rejectedAt := Some(now), failureReason := Some(reason),
       version := a.version + 1)
  }

  function ExecutedForm(a: Approval, now: Time, result: Json): Approval {
    a.(status := Executed, executedAt := Some(now), executionResult := Some(result), version := a.version + 1)
  }

  function FailedForm(a: Approval, reason: string): Approval {
    a.(status := Failed, failureReason := Some(reason), version := a.version + 1)
  }

  /** What approving does once the record has been looked up. */
  function ApproveFound(st: ApprovalState, r: Reply, approver: Principal, now: Time): (ApprovalState, Reply) {
    if r.Err? then (st, r)
    else if r.value.status != Pending then (st, Err(ApprovalDenied))
    else
      var a := ApprovedForm(r.value, approver.id, now);
      (Transition(st, a, "approval.approved", approver, now, "APPROVED", "Approval granted."), Ok(a))
  }

  function Approve(st: ApprovalState, id: Id, approver: Principal, now: Time): (ApprovalState, Reply) {
    var (st', r) := Get(st, id, now);
    ApproveFound(st', r, approver, now)
  }

  function RejectFound(
    st: ApprovalState, r: Reply, rejector: Principal, reason: string, now: Time): (ApprovalState, Reply) {
    if r.Err? then (st, r)
    else if r.value.status != Pending then (st, Err(ApprovalDenied))
    else
      var a := RejectedForm(r.value, rejector.id, reason, now);
      (Transition(st, a, "approval.rejected", rejector, now, "REJECTED", reason), Ok(a))
  }

  function Reject(st: ApprovalState, id: Id, rejector: Principal, reason: string, now: Time): (ApprovalState, Reply) {
    var (st', r) := Get(st, id, now);
    RejectFound(st', r, rejector, reason, now)
  }

  function ExecuteFound(
    st: ApprovalState, r: Reply, actor: Principal, now: Time, result: Json): (ApprovalState, Reply) {
    if r.Err? then (st, r)
    else if r.value.status != Approved then (st, Err(ApprovalDenied))
    else
      var a := ExecutedForm(r.value, now, result);
      (Transition(st, a, "approval.executed", actor, now, "EXECUTED", "Approved operation executed."), Ok(a))
  }

  function MarkExecuted(st: ApprovalState, id: Id, actor: Principal, now: Time, result: Json): (ApprovalState, Reply) {
    var (st', r) := Get(st, id, now);
    ExecuteFound(st', r, actor, now, result)
  }

  function MarkFailed(st: ApprovalState, id: Id, actor: Principal, now: Time, reason: string): (ApprovalState, Reply) {
    if id !in st.approvals then (st, Err(ApprovalNotFound))
    else
      var current := st.approvals[id];
      if current.status != Approved && current.status != Pending then (st, Err(ApprovalDenied))
      else
        var a := FailedForm(current, reason);
        (Transition(st, a, "approval.failed", actor, now, "FAILED", reason), Ok(a))
  }

  /** Expire the overdue ones among the given approvals, one after another. */
  function ExpireFirst(st: ApprovalState, ids: seq<Id>, now: Time): ApprovalState {
    if |ids| == 0 then st
    else
      var st' := ExpireFirst(st, ids[..|ids| - 1], now);
      if ids[|ids| - 1] in st'.approvals then ExpireIfNeeded(st', ids[|ids| - 1], now) else st'
  }

  function ExpirePending(st: ApprovalState, now: Time): ApprovalState {
    ExpireFirst(st, st.order, now)
  }

  /** The records of the given approvals, in that order; only those of the wanted status if one is given. */
  function Values(st: ApprovalState, ids: seq<Id>, status: Option<ApprovalStatus>): seq<Approval> {
    if |ids| == 0 then []
    else
      var front, id := Values(st, ids[..|ids| - 1], status), ids[|ids| - 1];
      if id in st.approvals && (status.None? || st.approvals[id].status == status.value) then
        front + [st.approvals[id]] else front
  }

  function InsertByCreation(sorted: seq<Approval>, a: Approval): seq<Approval> {
    var n := |sorted| - 1;
    if n < 0 || sorted[n].createdAt <= a.createdAt then sorted + [a]
    else InsertByCreation(sorted[..n], a) + [sorted[n]]
  }

  /** The library's stable sort by creation time. */
  function SortByCreation(xs: seq<Approval>): seq<Approval> {
    if |xs| == 0 then [] else InsertByCreation(SortByCreation(xs[..|xs| - 1]), xs[|xs| - 1])
  }

  function Listed(st: ApprovalState, status: Option<ApprovalStatus>): seq<Approval> {
    SortByCreation(Values(st, st.order, status))
  }

  // ---- the store object

  class AuditLog {
    var records: seq<AuditRecord>

    constructor ()
      ensures records == []
    {
      records := [];
    }

    method Append(r: AuditRecord)
      modifies this
      ensures records == old(records) + [r]
    {
      records := records + [r];
    }
  }

  class ApprovalStore {
    const ttl: int
    const auditLog: AuditLog
    var approvals: map<Id, Approval>
    var order: seq<Id>
    var events: seq<ApprovalEvent>

    function State(): ApprovalState
      reads this, auditLog
    {
      ApprovalState(approvals, order, events, auditLog.records)
    }

    constructor (ttl: int, auditLog: AuditLog)
      ensures this.ttl == ttl && this.auditLog == auditLog
      ensures State() == ApprovalState(map[], [], [], auditLog.records)
    {
      this.ttl, this.auditLog := ttl, auditLog;
      approvals, order, events := map[], [], [];
    }

    /** Keep the changed record and append its event and audit record. */
    method RecordTransition(
      a: Approval, eventType: string, actor: Principal, now: Time, execution: string, summary: string)
      modifies this, auditLog
      ensures State() == Transition(old(State()), a, eventType, actor, now, execution, summary)
    {
      if a.id !in approvals {
        order := order + [a.id];
      }
      approvals := approvals[a.id := a];
      events := events + [EventFor(a, eventType, actor, now)];
      auditLog.Append(AuditFor(a, eventType, actor, now, execution, summary));
    }

    /** `id` is what the id factory hands out. */
    method CreateApproval(
      principal: Principal, toolName: string, arguments: Args, risk: Risk, now: Time, id: Id,
      workflowId: Option<Id>, workflowNodeId: Option<string>, argumentsHash: Option<string>, binding: Option<Binding>)
      returns (a: Approval)
      modifies this, auditLog
      ensures a == NewApproval(principal, toolName, arguments, risk, now, ttl, id, workflowId, workflowNodeId,
        argumentsHash, binding)
      ensures State() == Create(old(State()), a, principal, now)
    {
      a := NewApproval(principal, toolName, arguments, risk, now, ttl, id, workflowId, workflowNodeId, argumentsHash,
        binding);
      RecordTransition(a, "approval.requested", principal, now, "PENDING_APPROVAL", "Approval request created.");
    }

    method ExpireOne(id: Id, now: Time)
      requires id in approvals
      modifies this, auditLog
      ensures State() == ExpireIfNeeded(old(State()), id, now)
    {
      var a := approvals[id];
      if a.status == Pending && now >= a.expiresAt {
        RecordTransition(ExpiredForm(a), "approval.expired", SYSTEM, now, "EXPIRED", "Approval expired.");
      }
    }

    method GetDetail(id: Id, now: Time) returns (r: Reply)
      modifies this, auditLog
      ensures (State(), r) == Detail(old(State()), id, now)
    {
      if id !in approvals {
        return Err(ApprovalNotFound);
      }
      ExpireOne(id, now);
      return if id in approvals then Ok(approvals[id]) else Err(ApprovalNotFound);
    }

    method GetLive(id: Id, now: Time) returns (r: Reply)
      modifies this, auditLog
      ensures (State(), r) == Get(old(State()), id, now)
    {
      r := GetDetail(id, now);
      if r.Ok? && r.value.status == Expired {
        return Err(ErrorCode.ExpiredApproval);
      }
    }

    method ApproveOne(id: Id, approver: Principal, now: Time) returns (r: Reply)
      modifies this, auditLog
      ensures (State(), r) == Approve(old(State()), id, approver, now)
    {
      r := GetLive(id, now);
      if r.Err? {
        return;
      }
      if r.value.status != Pending {
        return Err(ApprovalDenied);
      }
      var a := ApprovedForm(r.value, approver.id, now);
      RecordTransition(a, "approval.approved", approver, now, "APPROVED", "Approval granted.");
      return Ok(a);
    }

    method RejectOne(id: Id, rejector: Principal, reason: string, now: Time) returns (r: Reply)
      modifies this, auditLog
      ensures (State(), r) == Reject(old(State()), id, rejector, reason, now)
    {
      r := GetLive(id, now);
      if r.Err? {
        return;
      }
      if r.value.status != Pending {
        return Err(ApprovalDenied);
      }
      var a := RejectedForm(r.value, rejector.id, reason, now);
      RecordTransition(a, "approval.rejected", rejector, now, "REJECTED", reason);
      return Ok(a);
    }

    method ExpireAllPending(now: Time)
      modifies this, auditLog
      ensures State() == ExpirePending(old(State()), now)
    {
      ghost var before := State();
      var ids := order;
      for k := 0 to |ids|
        invariant State() == ExpireFirst(before, ids[..k], now)
      {
        assert ids[..k + 1][..k] == ids[..k];
        if ids[k] in approvals {
          ExpireOne(ids[k], now);
        }
      }
      assert ids[..|ids|] == ids;
    }

    /** Expire what is overdue, then list the records in the order of their creation. */
    method ListAll(now: Time, status: Option<ApprovalStatus>) returns (listed: seq<Approval>)
      modifies this, auditLog
      ensures State() == ExpirePending(old(State()), now)
      ensures listed == Listed(State(), status)
    {
      ExpireAllPending(now);
      listed := [];
      for k := 0 to |order|
        invariant listed == Values(State(), order[..k], status)
      {
        assert order[..k + 1][..k] == order[..k];
        if order[k] in approvals && (status.None? || approvals[order[k]].status == status.value) {
          listed := listed + [approvals[order[k]]];
        }
      }
      assert order[..|order|] == order;
      listed := SortByCreation(listed);
    }

    method MarkOneExecuted(id: Id, actor: Principal, now: Time, result: Json) returns (r: Reply)
      modifies this, auditLog
      ensures (State(), r) == MarkExecuted(old(State()), id, actor, now, result)
    {
      r := GetLive(id, now);
      if r.Err? {
        return;
      }
      if r.value.status != Approved {
        return Err(ApprovalDenied);
      }
      var a := ExecutedForm(r.value, now, result);
      RecordTransition(a, "approval.executed", actor, now, "EXECUTED", "Approved operation executed.");
      return Ok(a);
    }

    method MarkOneFailed(id: Id, actor: Principal, now: Time, reason: string) returns (r: Reply)
      modifies this, auditLog
      ensures (State(), r) == MarkFailed(old(State()), id, actor, now, reason)
    {
      if id !in approvals {
        return Err(ApprovalNotFound);
      }
      var current := approvals[id];
      if current.status != Approved && current.status != Pending {
        return Err(ApprovalDenied);
      }
      var a := FailedForm(current, reason);
      RecordTransition(a, "approval.failed", actor, now, "FAILED", reason);
      return Ok(a);
    }
  }
}
