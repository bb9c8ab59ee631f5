/**
 What each operation of the approval store answers and leaves behind, field by field:
 which record it takes, which error it raises, and the event and the audit record it adds.
 */
module ApprovalEffects {
  import opened Wrappers
  import opened GatewayTypes
  import opened Approvals

  /** Every record is stored under its own id. */
  ghost predicate Keyed(st: ApprovalState) {
    forall id :: id in st.approvals ==> st.approvals[id].id == id
  }

  /** One record is stored, one event and one audit record tell of it, and nothing else changes. */
  ghost predicate Becomes(
    st: ApprovalState, st': ApprovalState, a: Approval, eventType: string, actor: Principal, now: Time,
    execution: string, summary: string)
  {
    && st'.approvals.Keys == st.approvals.Keys + {a.id} && st'.approvals[a.id] == a
    && (forall id :: id in st.approvals && id != a.id ==> st'.approvals[id] == st.approvals[id])
    && st'.order == (if a.id in st.approvals then st.order else st.order + [a.id])
    && st'.events == st.events + [ApprovalEvent(a.id, eventType, now, actor.id, a.status, a.toolName)]
    && st'.audit == st.audit +
         [AuditRecord(now, actor.id, actor.role, eventType, a.id, Allowed, Some(a.risk), Some(a.status), execution,
            summary, None, None)]
  }

  lemma TransitionBecomes(
    st: ApprovalState, a: Approval, eventType: string, actor: Principal, now: Time, execution: string, summary: string)
    ensures Becomes(st, Transition(st, a, eventType, actor, now, execution, summary), a, eventType, actor, now,
              execution, summary)
  {
  }

  /** A new record is announced in the name of whoever asks for it. */
  lemma CreateEffect(st: ApprovalState, a: Approval, principal: Principal, now: Time)
    ensures Becomes(st, Create(st, a, principal, now), a, "approval.requested", principal, now, "PENDING_APPROVAL",
              "Approval request created.")
  {
    TransitionBecomes(st, a, "approval.requested", principal, now, "PENDING_APPROVAL", "Approval request created.");
  }

  /** The record's deadline has passed before anybody ruled on it. */
  ghost predicate Lapsed(a: Approval, now: Time) {
    a.status == Expired || (a.status == Pending && now >= a.expiresAt)
  }

  /** A record that is found to have lapsed is marked expired by the system, once. */
  ghost predicate Lapses(st: ApprovalState, st': ApprovalState, a: Approval, now: Time) {
    if a.status == Expired then st' == st
    else Becomes(st, st', a.(status := Expired, version := a.version + 1), "approval.expired",
           Principal("system", Admin, Service), now, "EXPIRED", "Approval expired.")
  }

  /** Reading a record shows it as it stands, expired if its time is up. */
  lemma DetailEffect(st: ApprovalState, id: Id, now: Time)
    requires Keyed(st)
    ensures var (st', r) := Detail(st, id, now);
      if id !in st.approvals then st' == st && r == Err(ApprovalNotFound)
      else
        && (if Lapsed(st.approvals[id], now) then Lapses(st, st', st.approvals[id], now) else st' == st)
        && id in st'.approvals && r == Ok(st'.approvals[id])
  {
    if id in st.approvals && Overdue(st.approvals[id], now) {
      TransitionBecomes(st, ExpiredForm(st.approvals[id]), "approval.expired", SYSTEM, now, "EXPIRED",
        "Approval expired.");
    }
  }

  /** The answer of an operation that finds no live record. */
  ghost predicate FindsNone(st: ApprovalState, st': ApprovalState, r: Reply, id: Id, now: Time) {
    if id !in st.approvals then st' == st && r == Err(ApprovalNotFound)
    else Lapsed(st.approvals[id], now) && Lapses(st, st', st.approvals[id], now) && r == Err(ErrorCode.ExpiredApproval)
  }

  ghost predicate Live(st: ApprovalState, id: Id, now: Time) {
    id in st.approvals && !Lapsed(st.approvals[id], now)
  }

  lemma GetEffect(st: ApprovalState, id: Id, now: Time)
    requires Keyed(st)
    ensures var (st', r) := Get(st, id, now);
      if Live(st, id, now) then st' == st && r == Ok(st.approvals[id]) else FindsNone(st, st', r, id, now)
  {
    DetailEffect(st, id, now);
  }

  /** The record as it is once approved. */
  ghost predicate ApprovedAs(a: Approval, a': Approval, approver: Principal, now: Time) {
    a' == a.(status := Approved, approvedBy := Some(approver.id), approvedAt := Some(now), version := a.version + 1)
  }

  /** Approving takes a live pending record, and no other. */
  lemma ApproveEffect(st: ApprovalState, id: Id, approver: Principal, now: Time)
    requires Keyed(st)
    ensures var (st', r) := Approve(st, id, approver, now);
      if !Live(st, id, now) then FindsNone(st, st', r, id, now)
      else if st.approvals[id].status != Pending then st' == st && r == Err(ApprovalDenied)
      else
        && r.Ok? && ApprovedAs(st.approvals[id], r.value, approver, now)
        && Becomes(st, st', r.value, "approval.approved", approver, now, "APPROVED", "Approval granted.")
  {
    GetEffect(st, id, now);
    if Live(st, id, now) && st.approvals[id].status == Pending {
      TransitionBecomes(st, ApprovedForm(st.approvals[id], approver.id, now), "approval.approved", approver, now,
        "APPROVED", "Approval granted.");
    }
  }

  /** The record as it is once rejected. */
  ghost predicate RejectedAs(a: Approval, a': Approval, rejector: Principal, reason: string, now: Time) {
    a' == a.(status := Rejected, rejectedBy := Some(rejector.id), rejectedAt := Some(now),
             failureReason := Some(reason), version := a.version + 1)
  }

  /** So does rejecting. */
  lemma RejectEffect(st: ApprovalState, id: Id, rejector: Principal, reason: string, now: Time)
    requires Keyed(st)
    ensures var (st', r) := Reject(st, id, rejector, reason, now);
      if !Live(st, id, now) then FindsNone(st, st', r, id, now)
      else if st.approvals[id].status != Pending then st' == st && r == Err(ApprovalDenied)
      else
        && r.Ok? && RejectedAs(st.approvals[id], r.value, rejector, reason, now)
        && Becomes(st, st', r.value, "approval.rejected", rejector, now, "REJECTED", reason)
  {
    GetEffect(st, id, now);
    if Live(st, id, now) && st.approvals[id].status == Pending {
      TransitionBecomes(st, RejectedForm(st.approvals[id], rejector.id, reason, now), "approval.rejected", rejector,
        now, "REJECTED", reason);
    }
  }

  /** Only an approved record can be marked executed. */
  lemma ExecutedEffect(st: ApprovalState, id: Id, actor: Principal, now: Time, result: Json)
    requires Keyed(st)
    ensures var (st', r) := MarkExecuted(st, id, actor, now, result);
      if !Live(st, id, now) then FindsNone(st, st', r, id, now)
      else if st.approvals[id].status != Approved then st' == st && r == Err(ApprovalDenied)
      else var a := st.approvals[id];
        && r == Ok(a.(status := Executed, executedAt := Some(now), executionResult := Some(result),
                      version := a.version + 1))
        && Becomes(st, st', r.value, "approval.executed", actor, now, "EXECUTED", "Approved operation executed.")
  {
    GetEffect(st, id, now);
    if Live(st, id, now) && st.approvals[id].status == Approved {
      TransitionBecomes(st, ExecutedForm(st.approvals[id], now, result), "approval.executed", actor, now, "EXECUTED",
        "Approved operation executed.");
    }
  }

  /** An approved or a pending record can be marked failed, and the deadline plays no part. */
  lemma FailedEffect(st: ApprovalState, id: Id, actor: Principal, now: Time, reason: string)
    requires Keyed(st)
    ensures var (st', r) := MarkFailed(st, id, actor, now, reason);
      if id !in st.approvals then st' == st && r == Err(ApprovalNotFound)
      else var a := st.approvals[id];
        if a.status == Approved || a.status == Pending then
          && r == Ok(a.(status := Failed, failureReason := Some(reason), version := a.version + 1))
          && Becomes(st, st', r.value, "approval.failed", actor, now, "FAILED", reason)
        else st' == st && r == Err(ApprovalDenied)
  {
    if id in st.approvals {
      TransitionBecomes(st, FailedForm(st.approvals[id], reason), "approval.failed", actor, now, "FAILED", reason);
    }
  }

  // ---- the sweep

  /** The record after a sweep that visits it. */
  function SweptForm(a: Approval, now: Time): Approval {
    if a.status == Pending && now >= a.expiresAt then a.(status := Expired, version := a.version + 1) else a
  }

  /** What is overdue has expired, and every other record is as it was. */
  ghost predicate Swept(st: ApprovalState, st': ApprovalState, ids: seq<Id>, now: Time) {
    && st'.approvals.Keys == st.approvals.Keys && st'.order == st.order
    && forall id :: id in st.approvals ==>
      st'.approvals[id] == if id in ids then SweptForm(st.approvals[id], now) else st.approvals[id]
  }

  lemma SweptOne(st: ApprovalState, id: Id, now: Time)
    requires Keyed(st) && id in st.approvals
    ensures Swept(st, ExpireIfNeeded(st, id, now), [id], now) && Keyed(ExpireIfNeeded(st, id, now))
  {
    DetailEffect(st, id, now);
  }

  lemma SweptFurther(st: ApprovalState, st1: ApprovalState, st2: ApprovalState, ids: seq<Id>, id: Id, now: Time)
    requires Swept(st, st1, ids, now) && Swept(st1, st2, [id], now)
    ensures Swept(st, st2, ids + [id], now)
  {
  }

  lemma {:induction false} SweepEffect(st: ApprovalState, ids: seq<Id>, now: Time)
    requires Keyed(st)
    ensures Swept(st, ExpireFirst(st, ids, now), ids, now) && Keyed(ExpireFirst(st, ids, now))
  {
    if |ids| > 0 {
      var front, last := ids[..|ids| - 1], ids[|ids| - 1];
      SweepEffect(st, front, now);
      assert ids == front + [last];
      var st1 := ExpireFirst(st, front, now);
      if last in st1.approvals {
        SweptOne(st1, last, now);
        SweptFurther(st, st1, ExpireFirst(st, ids, now), front, last, now);
      }
    }
  }
}
