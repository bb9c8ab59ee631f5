/**
 The audit trails of the two approval stores.  Only the in-memory store audits an expiry,
 so the trails are equal exactly as long as no approval has expired.
 */
module SqlAuditTrails {
  import opened Wrappers
  import opened GatewayTypes
  import opened Approvals
  import opened ApprovalLifecycle
  import opened SqlApprovals

  const EXPIRY := "approval.expired"

  ghost predicate ExpiryAudited(audit: seq<AuditRecord>) {
    exists i :: 0 <= i < |audit| && audit[i].toolName == EXPIRY
  }

  ghost predicate SomeExpired(approvals: map<Id, Approval>) {
    exists id :: id in approvals && approvals[id].status == Expired
  }

  /** An expiry is on the in-memory trail exactly when some approval has expired. */
  ghost predicate ExpiriesTold(st: ApprovalState) {
    ExpiryAudited(st.audit) <==> SomeExpired(st.approvals)
  }

  lemma AppendAudited(audit: seq<AuditRecord>, r: AuditRecord)
    ensures ExpiryAudited(audit + [r]) <==> ExpiryAudited(audit) || r.toolName == EXPIRY
  {
    if ExpiryAudited(audit) {
      var i :| 0 <= i < |audit| && audit[i].toolName == EXPIRY;
      assert (audit + [r])[i].toolName == EXPIRY;
    }
    if r.toolName == EXPIRY {
      assert (audit + [r])[|audit|].toolName == EXPIRY;
    }
  }

  /** A transition expires its record exactly when it says so, and never touches an expired one. */
  lemma TransitionTells(
    st: ApprovalState, a: Approval, eventType: string, actor: Principal, now: Time, execution: string, summary: string)
    requires ExpiriesTold(st) && (eventType == EXPIRY <==> a.status == Expired)
    requires a.id in st.approvals ==> st.approvals[a.id].status != Expired
    ensures ExpiriesTold(Transition(st, a, eventType, actor, now, execution, summary))
  {
    AppendAudited(st.audit, AuditFor(a, eventType, actor, now, execution, summary));
    var approvals' := st.approvals[a.id := a];
    if SomeExpired(st.approvals) {
      var id :| id in st.approvals && st.approvals[id].status == Expired;
      assert id in approvals' && approvals'[id].status == Expired;
    }
    if a.status == Expired {
      assert a.id in approvals' && approvals'[a.id].status == Expired;
    }
  }

  lemma ExpireTells(st: ApprovalState, id: Id, now: Time)
    requires Invariant(st) && ExpiriesTold(st) && id in st.approvals
    ensures ExpiriesTold(ExpireIfNeeded(st, id, now))
  {
    var a := st.approvals[id];
    if Overdue(a, now) {
      TransitionTells(st, ExpiredForm(a), EXPIRY, SYSTEM, now, "EXPIRED", "Approval expired.");
    }
  }

  lemma {:induction false} SweepTells(st: ApprovalState, ids: seq<Id>, now: Time)
    requires Invariant(st) && ExpiriesTold(st)
    ensures ExpiriesTold(ExpireFirst(st, ids, now))
  {
    if |ids| > 0 {
      var front := ExpireFirst(st, ids[..|ids| - 1], now);
      SweepTells(st, ids[..|ids| - 1], now);
      ExpireFirstKeeps(st, ids[..|ids| - 1], now);
      if ids[|ids| - 1] in front.approvals {
        ExpireTells(front, ids[|ids| - 1], now);
      }
    }
  }

  lemma GetTells(st: ApprovalState, id: Id, now: Time)
    requires Invariant(st) && ExpiriesTold(st)
    ensures ExpiriesTold(Detail(st, id, now).0) && ExpiriesTold(Get(st, id, now).0)
  {
    GetKeeps(st, id, now);
    if id in st.approvals {
      ExpireTells(st, id, now);
    }
  }

  /** The record looked up is the stored one. */
  ghost predicate Stored(st: ApprovalState, r: Reply) {
    r.Ok? ==> r.value.id in st.approvals && st.approvals[r.value.id] == r.value
  }

  lemma FoundTells(st: ApprovalState, r: Reply, principal: Principal, reason: string, now: Time, result: Json)
    requires ExpiriesTold(st) && Stored(st, r)
    ensures ExpiriesTold(ApproveFound(st, r, principal, now).0)
    ensures ExpiriesTold(RejectFound(st, r, principal, reason, now).0)
    ensures ExpiriesTold(ExecuteFound(st, r, principal, now, result).0)
  {
    if r.Ok? && r.value.status == Pending {
      TransitionTells(st, ApprovedForm(r.value, principal.id, now), "approval.approved", principal, now, "APPROVED",
        "Approval granted.");
      TransitionTells(st, RejectedForm(r.value, principal.id, reason, now), "approval.rejected", principal, now,
        "REJECTED", reason);
    }
    if r.Ok? && r.value.status == Approved {
      TransitionTells(st, ExecutedForm(r.value, now, result), "approval.executed", principal, now, "EXECUTED",
        "Approved operation executed.");
    }
  }

  lemma DecisionTells(st: ApprovalState, id: Id, principal: Principal, reason: string, now: Time, result: Json)
    requires Invariant(st) && ExpiriesTold(st)
    ensures ExpiriesTold(Approve(st, id, principal, now).0) && ExpiriesTold(Reject(st, id, principal, reason, now).0)
    ensures ExpiriesTold(MarkExecuted(st, id, principal, now, result).0)
  {
    GetTells(st, id, now);
    GetKeeps(st, id, now);
    FoundTells(Get(st, id, now).0, Get(st, id, now).1, principal, reason, now, result);
  }

  lemma FailureTells(st: ApprovalState, id: Id, actor: Principal, now: Time, reason: string)
    requires Invariant(st) && ExpiriesTold(st)
    ensures ExpiriesTold(MarkFailed(st, id, actor, now, reason).0)
  {
    if id in st.approvals && (st.approvals[id].status == Approved || st.approvals[id].status == Pending) {
      TransitionTells(st, FailedForm(st.approvals[id], reason), "approval.failed", actor, now, "FAILED", reason);
    }
  }

  lemma PerformTells(st: ApprovalState, op: Operation)
    requires Invariant(st) && ExpiriesTold(st) && Permitted(st, op)
    ensures ExpiriesTold(Perform(st, op))
  {
    match op
    case OpCreate(a, principal, now) =>
      TransitionTells(st, a, "approval.requested", principal, now, "PENDING_APPROVAL", "Approval request created.");
    case OpDetail(id, now) => GetTells(st, id, now);
    case OpGet(id, now) => GetTells(st, id, now);
    case OpApprove(id, principal, now) => DecisionTells(st, id, principal, "", now, JNull);
    case OpReject(id, principal, reason, now) => DecisionTells(st, id, principal, reason, now, JNull);
    case OpExpirePending(now) => SweepTells(st, st.order, now);
    case OpMarkExecuted(id, principal, now, result) => DecisionTells(st, id, principal, "", now, result);
    case OpMarkFailed(id, principal, now, reason) => FailureTells(st, id, principal, now, reason);
  }

  lemma {:induction false} RunTells(ops: seq<Operation>)
    requires PermittedRun(ops)
    ensures ExpiriesTold(Run(ops))
  {
    if |ops| > 0 {
      RunTells(ops[..|ops| - 1]);
      RunInvariant(ops[..|ops| - 1]);
      PerformTells(Run(ops[..|ops| - 1]), ops[|ops| - 1]);
    }
  }

  // ---- the trails

  lemma {:induction false} WithoutNothing(audit: seq<AuditRecord>)
    ensures |WithoutExpiries(audit)| <= |audit|
    ensures ExpiryAudited(audit) ==> |WithoutExpiries(audit)| < |audit|
    ensures !ExpiryAudited(audit) ==> WithoutExpiries(audit) == audit
  {
    if |audit| > 0 {
      var front := audit[..|audit| - 1];
      WithoutNothing(front);
      assert audit == front + [audit[|audit| - 1]];
      AppendAudited(front, audit[|audit| - 1]);
    }
  }

  /** After every run of operations the two audit trails are equal exactly when no approval has expired. */
  lemma TrailsEqualIff(ops: seq<Operation>, dbs: seq<Db>, replies: seq<Option<Reply>>)
    requires PermittedRun(ops) && SqlRun(ops, dbs, replies)
    ensures dbs[|ops|].audit == Run(ops).audit <==> !SomeExpired(Run(ops).approvals)
  {
    StoresAgree(ops, dbs, replies);
    RunTells(ops);
    WithoutNothing(Run(ops).audit);
  }

  // ---- a run after which they differ

  const REQUESTER := Principal("p", Engineer, Human)

  const WAITING := NewApproval(REQUESTER, "tool", map[], High, 0, 10, Id(1), None, None, None, None)

  /** An approval is requested and looked at once it is overdue. */
  function Lapsing(): seq<Operation> {
    [OpCreate(WAITING, REQUESTER, 0), OpDetail(Id(1), 10)]
  }

  function LapsingTables(): seq<Db> {
    var empty := Db(map[], [], []);
    var created := SqlCreate(empty, WAITING, REQUESTER, 0);
    [empty, created, SqlDetail(created, Id(1), 10).0]
  }

  function LapsingReplies(): seq<Option<Reply>> {
    [None, Some(SqlDetail(LapsingTables()[1], Id(1), 10).1)]
  }

  lemma LapsingRuns()
    ensures PermittedRun(Lapsing()) && SqlRun(Lapsing(), LapsingTables(), LapsingReplies())
    ensures SomeExpired(Run(Lapsing()).approvals)
  {
    var ops := Lapsing();
    assert ops[..1] == [ops[0]] && ops[..1][..0] == [];
    var created := Create(EMPTY, WAITING, REQUESTER, 0);
    assert Run(ops[..1]) == created && Id(1) in created.approvals;
    assert Run(ops) == Detail(created, Id(1), 10).0;
    assert Id(1) in Run(ops).approvals && Run(ops).approvals[Id(1)].status == Expired;
  }

  /** The in-memory trail tells of the expiry; the table's does not. */
  lemma TrailsDiffer()
    ensures SqlRun(Lapsing(), LapsingTables(), LapsingReplies())
    ensures LapsingTables()[2].audit != Run(Lapsing()).audit
  {
    LapsingRuns();
    TrailsEqualIff(Lapsing(), LapsingTables(), LapsingReplies());
  }
}
