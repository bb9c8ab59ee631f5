/**
 What must have happened before a tool that needs approval is dispatched, in every
 interleaving: its approval was created for this very request and then granted, in
 time, by somebody entitled to grant it.
 */
module GatewayApprovals {
  import opened Wrappers
  import opened GatewayTypes
  import opened Approvals
  import L = ApprovalLifecycle
  import opened GatewayMachine
  import opened GatewayTerms

  /** The record as it was requested: what no transition ever changes. */
  ghost function Frozen(a: Approval): Approval {
    a.(status := Pending, approvedBy := None, approvedAt := None, rejectedBy := None, rejectedAt := None,
       executedAt := None, failureReason := None, executionResult := None, version := 1)
  }

  ghost predicate CreationOf(e: Event, a: Approval) {
    e.Created? && e.approval == Frozen(a)
  }

  /** The record tells of this grant, made in time by somebody entitled to it. */
  ghost predicate GrantFits(cfg: Config, e: Event, a: Approval) {
    && e.Granted? && e.id == a.id && e.at < a.expiresAt
    && Entitled(cfg, e.approver, a.requesterId)
    && a.approvedBy == Some(e.approver.id) && a.approvedAt == Some(e.at)
  }

  /** The record tells of this rejection, made in time by somebody entitled to it. */
  ghost predicate RefusalFits(cfg: Config, e: Event, a: Approval) {
    && e.Refused? && e.id == a.id && e.at < a.expiresAt
    && Entitled(cfg, e.rejector, a.requesterId)
    && a.rejectedBy == Some(e.rejector.id) && a.rejectedAt == Some(e.at) && a.failureReason == Some(e.reason)
  }

  /** The approval was requested and later granted. */
  ghost predicate GrantedFor(cfg: Config, trace: seq<Event>, a: Approval) {
    exists j, k :: 0 <= j < k < |trace| && CreationOf(trace[j], a) && GrantFits(cfg, trace[k], a)
  }

  /** The approval was requested and later rejected. */
  ghost predicate RefusedFor(cfg: Config, trace: seq<Event>, a: Approval) {
    exists j, k :: 0 <= j < k < |trace| && CreationOf(trace[j], a) && RefusalFits(cfg, trace[k], a)
  }

  ghost predicate WasCreated(trace: seq<Event>, a: Approval) {
    exists j :: 0 <= j < |trace| && CreationOf(trace[j], a)
  }

  /** The digests of a record are those of what it asks for. */
  ghost predicate WellBound(cfg: Config, a: Approval) {
    && a.argumentsHash == Some(cfg.hashArguments(a.arguments))
    && a.binding == Some(
      Binding(a.workflowId, a.workflowNodeId, a.toolName, a.requesterId, cfg.hashArguments(a.arguments)))
  }

  /** The trace accounts for the record. */
  ghost predicate Backed(cfg: Config, trace: seq<Event>, a: Approval) {
    && WasCreated(trace, a)
    && WellBound(cfg, a)
    && (a.approvedAt.Some? ==> a.status in {Approved, Executed, Failed} && GrantedFor(cfg, trace, a))
    && (a.status in {Approved, Executed} ==> a.approvedAt.Some?)
    && (a.status == Rejected ==> RefusedFor(cfg, trace, a))
  }

  ghost predicate AllBacked(cfg: Config, trace: seq<Event>, st: ApprovalState) {
    forall id :: id in st.approvals ==> Backed(cfg, trace, st.approvals[id])
  }

  /** Approvals are never lost, keep what was requested, stay approved once approved, and rest once executed. */
  ghost predicate Evolves(st: ApprovalState, st': ApprovalState) {
    forall id :: id in st.approvals ==>
      && id in st'.approvals
      && Frozen(st'.approvals[id]) == Frozen(st.approvals[id])
      && (st.approvals[id].approvedAt.Some? ==> st'.approvals[id].approvedAt.Some?)
      && (st.approvals[id].status == Executed ==> st'.approvals[id] == st.approvals[id])
  }

  /** Some pending records have expired; nothing else has changed. */
  ghost predicate OnlyExpires(st: ApprovalState, st': ApprovalState) {
    && st'.approvals.Keys == st.approvals.Keys
    && forall id :: id in st.approvals ==>
      || st'.approvals[id] == st.approvals[id]
      || (st.approvals[id].status == Pending && st'.approvals[id] == ExpiredForm(st.approvals[id]))
  }

  // ---- the trace only grows

  lemma GrantedForLonger(cfg: Config, trace: seq<Event>, more: seq<Event>, a: Approval)
    requires GrantedFor(cfg, trace, a)
    ensures GrantedFor(cfg, trace + more, a)
  {
    var j, k :| 0 <= j < k < |trace| && CreationOf(trace[j], a) && GrantFits(cfg, trace[k], a);
    assert CreationOf((trace + more)[j], a) && GrantFits(cfg, (trace + more)[k], a);
  }

  lemma RefusedForLonger(cfg: Config, trace: seq<Event>, more: seq<Event>, a: Approval)
    requires RefusedFor(cfg, trace, a)
    ensures RefusedFor(cfg, trace + more, a)
  {
    var j, k :| 0 <= j < k < |trace| && CreationOf(trace[j], a) && RefusalFits(cfg, trace[k], a);
    assert CreationOf((trace + more)[j], a) && RefusalFits(cfg, (trace + more)[k], a);
  }

  lemma WasCreatedLonger(trace: seq<Event>, more: seq<Event>, a: Approval)
    requires WasCreated(trace, a)
    ensures WasCreated(trace + more, a)
  {
    var j :| 0 <= j < |trace| && CreationOf(trace[j], a);
    assert CreationOf((trace + more)[j], a);
  }

  lemma BackedLonger(cfg: Config, trace: seq<Event>, more: seq<Event>, a: Approval)
    requires Backed(cfg, trace, a)
    ensures Backed(cfg, trace + more, a)
  {
    WasCreatedLonger(trace, more, a);
    if a.approvedAt.Some? {
      GrantedForLonger(cfg, trace, more, a);
    }
    if a.status == Rejected {
      RefusedForLonger(cfg, trace, more, a);
    }
  }

  lemma AllBackedLonger(cfg: Config, trace: seq<Event>, more: seq<Event>, st: ApprovalState)
    requires AllBacked(cfg, trace, st)
    ensures AllBacked(cfg, trace + more, st)
  {
    forall id | id in st.approvals
      ensures Backed(cfg, trace + more, st.approvals[id])
    {
      BackedLonger(cfg, trace, more, st.approvals[id]);
    }
  }

  // ---- effects of the store operations

  lemma ExpiredIsBacked(cfg: Config, trace: seq<Event>, a: Approval)
    requires Backed(cfg, trace, a) && a.status == Pending
    ensures Backed(cfg, trace, ExpiredForm(a)) && Frozen(ExpiredForm(a)) == Frozen(a)
  {
    SuccessorIsBacked(cfg, trace, a, ExpiredForm(a));
  }

  lemma ExpiriesKeep(cfg: Config, trace: seq<Event>, st: ApprovalState, st': ApprovalState)
    requires OnlyExpires(st, st') && AllBacked(cfg, trace, st)
    ensures AllBacked(cfg, trace, st') && Evolves(st, st')
  {
    forall id | id in st.approvals
      ensures Backed(cfg, trace, st'.approvals[id])
      ensures Frozen(st'.approvals[id]) == Frozen(st.approvals[id])
      ensures st.approvals[id].approvedAt.Some? ==> st'.approvals[id].approvedAt.Some?
      ensures st.approvals[id].status == Executed ==> st'.approvals[id] == st.approvals[id]
    {
      assert Backed(cfg, trace, st.approvals[id]);
      if st'.approvals[id] != st.approvals[id] {
        ExpiredIsBacked(cfg, trace, st.approvals[id]);
      }
    }
  }

  lemma ExpireOnlyExpires(st: ApprovalState, id: Id, now: Time)
    requires L.Invariant(st) && id in st.approvals
    ensures OnlyExpires(st, ExpireIfNeeded(st, id, now))
  {
    if Overdue(st.approvals[id], now) {
      assert ExpireIfNeeded(st, id, now).approvals == st.approvals[id := ExpiredForm(st.approvals[id])];
    }
  }

  lemma GetOnlyExpires(st: ApprovalState, id: Id, now: Time)
    requires L.Invariant(st)
    ensures OnlyExpires(st, Get(st, id, now).0) && OnlyExpires(st, Detail(st, id, now).0)
    ensures L.Invariant(Get(st, id, now).0) && L.Invariant(Detail(st, id, now).0)
  {
    L.GetKeeps(st, id, now);
    if id in st.approvals {
      ExpireOnlyExpires(st, id, now);
    }
  }

  lemma OnlyExpiresTransitive(a: ApprovalState, b: ApprovalState, c: ApprovalState)
    requires OnlyExpires(a, b) && OnlyExpires(b, c)
    ensures OnlyExpires(a, c)
  {
  }

  lemma {:induction false} SweepOnlyExpires(st: ApprovalState, ids: seq<Id>, now: Time)
    requires L.Invariant(st)
    ensures OnlyExpires(st, ExpireFirst(st, ids, now)) && L.Invariant(ExpireFirst(st, ids, now))
  {
    if |ids| > 0 {
      var front, last := ExpireFirst(st, ids[..|ids| - 1], now), ids[|ids| - 1];
      SweepOnlyExpires(st, ids[..|ids| - 1], now);
      L.ExpireFirstKeeps(st, ids, now);
      if last in front.approvals {
        ExpireOnlyExpires(front, last, now);
        OnlyExpiresTransitive(st, front, ExpireIfNeeded(front, last, now));
      }
    }
  }

  /** Storing one backed successor of a record keeps every record backed. */
  lemma TransitionKeeps(
    cfg: Config, trace: seq<Event>, st: ApprovalState, a: Approval,
    eventType: string, actor: Principal, now: Time, execution: string, summary: string)
    requires AllBacked(cfg, trace, st) && Backed(cfg, trace, a)
    requires a.id in st.approvals ==>
      && Frozen(a) == Frozen(st.approvals[a.id])
      && (st.approvals[a.id].approvedAt.Some? ==> a.approvedAt.Some?)
      && st.approvals[a.id].status != Executed
    ensures AllBacked(cfg, trace, Transition(st, a, eventType, actor, now, execution, summary))
    ensures Evolves(st, Transition(st, a, eventType, actor, now, execution, summary))
  {
  }

  lemma EvolvesTransitive(a: ApprovalState, b: ApprovalState, c: ApprovalState)
    requires Evolves(a, b) && Evolves(b, c)
    ensures Evolves(a, c)
  {
  }

  /** A record in another status is backed as before, as long as it tells of the same grant. */
  lemma SuccessorIsBacked(cfg: Config, trace: seq<Event>, a: Approval, a': Approval)
    requires Backed(cfg, trace, a) && Frozen(a') == Frozen(a)
    requires a'.approvedBy == a.approvedBy && a'.approvedAt == a.approvedAt && a'.status != Rejected
    requires a.approvedAt.Some? ==> a'.status in {Approved, Executed, Failed}
    requires a'.status in {Approved, Executed} ==> a.approvedAt.Some?
    ensures Backed(cfg, trace, a')
  {
    var j :| 0 <= j < |trace| && CreationOf(trace[j], a);
    assert CreationOf(trace[j], a');
    if a.approvedAt.Some? {
      var i, k :| 0 <= i < k < |trace| && CreationOf(trace[i], a) && GrantFits(cfg, trace[k], a);
      assert CreationOf(trace[i], a') && GrantFits(cfg, trace[k], a');
    }
  }

  /** A grant of a requested, still pending record backs its approved form. */
  lemma GrantBacks(cfg: Config, trace: seq<Event>, a: Approval, approver: Principal, now: Time)
    requires Backed(cfg, trace, a) && a.status == Pending && now < a.expiresAt
    requires Entitled(cfg, approver, a.requesterId)
    ensures Backed(cfg, trace + [Granted(a.id, approver, now)], ApprovedForm(a, approver.id, now))
  {
    var a' := ApprovedForm(a, approver.id, now);
    var trace' := trace + [Granted(a.id, approver, now)];
    assert Frozen(a') == Frozen(a);
    var j :| 0 <= j < |trace| && CreationOf(trace[j], a);
    assert CreationOf(trace'[j], a') && GrantFits(cfg, trace'[|trace|], a');
  }

  /** A rejection of a requested, still pending record backs its rejected form. */
  lemma RefusalBacks(cfg: Config, trace: seq<Event>, a: Approval, rejector: Principal, reason: string, now: Time)
    requires Backed(cfg, trace, a) && a.status == Pending && now < a.expiresAt
    requires Entitled(cfg, rejector, a.requesterId)
    ensures Backed(cfg, trace + [Refused(a.id, rejector, reason, now)], RejectedForm(a, rejector.id, reason, now))
  {
    var a' := RejectedForm(a, rejector.id, reason, now);
    var trace' := trace + [Refused(a.id, rejector, reason, now)];
    assert Frozen(a') == Frozen(a);
    var j :| 0 <= j < |trace| && CreationOf(trace[j], a);
    assert CreationOf(trace'[j], a') && RefusalFits(cfg, trace'[|trace|], a');
  }

  /** The record is the stored one, and not overdue. */
  ghost predicate Found(st: ApprovalState, a: Approval, now: Time) {
    a.id in st.approvals && st.approvals[a.id] == a && (a.status == Pending ==> now < a.expiresAt)
  }

  /** Looking an approval up may expire it, which keeps everything. */
  lemma LookedUpKeeps(cfg: Config, trace: seq<Event>, st: ApprovalState, id: Id, now: Time)
    requires L.Invariant(st) && AllBacked(cfg, trace, st)
    ensures var (st', r) := Get(st, id, now);
      && AllBacked(cfg, trace, st') && Evolves(st, st')
      && L.Invariant(st') && (r.Ok? ==> Found(st', r.value, now) && r.value.id == id)
  {
    L.GetKeeps(st, id, now);
    GetOnlyExpires(st, id, now);
    ExpiriesKeep(cfg, trace, st, Get(st, id, now).0);
  }

  /** What a decision adds to the trace: itself, if it was made. */
  ghost function Deciding(reply: Reply, e: Event): seq<Event> {
    if reply.Ok? then [e] else []
  }

  /** A grant of the record found keeps everything, once the grant is on the trace. */
  lemma GrantKeeps(cfg: Config, trace: seq<Event>, st: ApprovalState, r: Reply, id: Id, approver: Principal, now: Time)
    requires AllBacked(cfg, trace, st)
    requires r.Ok? ==> Found(st, r.value, now) && r.value.id == id && Entitled(cfg, approver, r.value.requesterId)
    ensures var (st', reply) := ApproveFound(st, r, approver, now);
      Evolves(st, st') && AllBacked(cfg, trace + Deciding(reply, Granted(id, approver, now)), st')
  {
    if r.Ok? && r.value.status == Pending {
      GrantBacks(cfg, trace, r.value, approver, now);
      AllBackedLonger(cfg, trace, [Granted(id, approver, now)], st);
      TransitionKeeps(cfg, trace + [Granted(id, approver, now)], st, ApprovedForm(r.value, approver.id, now),
                      "approval.approved", approver, now, "APPROVED", "Approval granted.");
    } else {
      assert trace + [] == trace;
    }
  }

  lemma ApproveKeeps(cfg: Config, trace: seq<Event>, st: ApprovalState, id: Id, approver: Principal, now: Time)
    requires L.Invariant(st) && AllBacked(cfg, trace, st)
    requires id in st.approvals && Entitled(cfg, approver, st.approvals[id].requesterId)
    ensures var (st', r) := Approve(st, id, approver, now);
      && L.Invariant(st') && Evolves(st, st')
      && AllBacked(cfg, trace + Deciding(r, Granted(id, approver, now)), st')
  {
    L.ApproveKeeps(st, id, approver, now);
    LookedUpKeeps(cfg, trace, st, id, now);
    var (st1, r1) := Get(st, id, now);
    assert Frozen(st1.approvals[id]) == Frozen(st.approvals[id]);
    GrantKeeps(cfg, trace, st1, r1, id, approver, now);
    EvolvesTransitive(st, st1, Approve(st, id, approver, now).0);
  }

  lemma RefusalKeeps(
    cfg: Config, trace: seq<Event>, st: ApprovalState, r: Reply, id: Id, rejector: Principal, reason: string, now: Time)
    requires AllBacked(cfg, trace, st)
    requires r.Ok? ==> Found(st, r.value, now) && r.value.id == id && Entitled(cfg, rejector, r.value.requesterId)
    ensures var (st', reply) := RejectFound(st, r, rejector, reason, now);
      Evolves(st, st') && AllBacked(cfg, trace + Deciding(reply, Refused(id, rejector, reason, now)), st')
  {
    if r.Ok? && r.value.status == Pending {
      RefusalBacks(cfg, trace, r.value, rejector, reason, now);
      AllBackedLonger(cfg, trace, [Refused(id, rejector, reason, now)], st);
      TransitionKeeps(cfg, trace + [Refused(id, rejector, reason, now)], st,
        RejectedForm(r.value, rejector.id, reason, now), "approval.rejected", rejector, now, "REJECTED", reason);
    } else {
      assert trace + [] == trace;
    }
  }

  lemma RejectKeeps(
    cfg: Config, trace: seq<Event>, st: ApprovalState, id: Id, rejector: Principal, reason: string, now: Time)
    requires L.Invariant(st) && AllBacked(cfg, trace, st)
    requires id in st.approvals && Entitled(cfg, rejector, st.approvals[id].requesterId)
    ensures var (st', r) := Reject(st, id, rejector, reason, now);
      && L.Invariant(st') && Evolves(st, st')
      && AllBacked(cfg, trace + Deciding(r, Refused(id, rejector, reason, now)), st')
  {
    L.RejectKeeps(st, id, rejector, reason, now);
    LookedUpKeeps(cfg, trace, st, id, now);
    var (st1, r1) := Get(st, id, now);
    assert Frozen(st1.approvals[id]) == Frozen(st.approvals[id]);
    RefusalKeeps(cfg, trace, st1, r1, id, rejector, reason, now);
    EvolvesTransitive(st, st1, Reject(st, id, rejector, reason, now).0);
  }

  lemma ExecutionKeeps(
    cfg: Config, trace: seq<Event>, st: ApprovalState, r: Reply, actor: Principal, now: Time, result: Json)
    requires AllBacked(cfg, trace, st) && (r.Ok? ==> Found(st, r.value, now))
    ensures var (st', reply) := ExecuteFound(st, r, actor, now, result);
      && Evolves(st, st') && AllBacked(cfg, trace, st')
      && (reply.Ok? ==> r.Ok? && ExecutedIn(st', r.value.id))
  {
    if r.Ok? && r.value.status == Approved {
      var a := ExecutedForm(r.value, now, result);
      SuccessorIsBacked(cfg, trace, r.value, a);
      TransitionKeeps(cfg, trace, st, a, "approval.executed", actor, now, "EXECUTED", "Approved operation executed.");
    }
  }

  lemma ExecutedKeeps(
    cfg: Config, trace: seq<Event>, st: ApprovalState, id: Id, actor: Principal, now: Time, result: Json)
    requires L.Invariant(st) && AllBacked(cfg, trace, st)
    ensures var (st', reply) := MarkExecuted(st, id, actor, now, result);
      && L.Invariant(st') && Evolves(st, st') && AllBacked(cfg, trace, st')
      && (reply.Ok? ==> ExecutedIn(st', id))
  {
    L.ExecutedKeeps(st, id, actor, now, result);
    LookedUpKeeps(cfg, trace, st, id, now);
    var (st1, r1) := Get(st, id, now);
    ExecutionKeeps(cfg, trace, st1, r1, actor, now, result);
    EvolvesTransitive(st, st1, MarkExecuted(st, id, actor, now, result).0);
  }

  lemma FailedKeeps(
    cfg: Config, trace: seq<Event>, st: ApprovalState, id: Id, actor: Principal, now: Time, reason: string)
    requires L.Invariant(st) && AllBacked(cfg, trace, st)
    ensures var st' := MarkFailed(st, id, actor, now, reason).0;
      L.Invariant(st') && Evolves(st, st') && AllBacked(cfg, trace, st')
  {
    L.FailedKeeps(st, id, actor, now, reason);
    if id in st.approvals && st.approvals[id].status in {Approved, Pending} {
      var a := FailedForm(st.approvals[id], reason);
      SuccessorIsBacked(cfg, trace, st.approvals[id], a);
      assert a.id == id;
      TransitionKeeps(cfg, trace, st, a, "approval.failed", actor, now, "FAILED", reason);
    }
  }

  lemma CreateKeeps(cfg: Config, tid: Tid, trace: seq<Event>, st: ApprovalState, c: ToolCall, id: Id)
    requires L.Invariant(st) && AllBacked(cfg, trace, st) && id !in st.approvals
    ensures var a := RequestedApproval(cfg, c, id);
      var st' := Create(st, a, Actor(cfg, c), c.now);
      L.Invariant(st') && Evolves(st, st') && AllBacked(cfg, trace + [Created(tid, a)], st')
  {
    var a := RequestedApproval(cfg, c, id);
    L.CreateKeeps(st, a, Actor(cfg, c), c.now);
    AllBackedLonger(cfg, trace, [Created(tid, a)], st);
    assert Frozen(a) == a && CreationOf((trace + [Created(tid, a)])[|trace|], a);
    TransitionKeeps(cfg, trace + [Created(tid, a)], st, a, "approval.requested", Actor(cfg, c), c.now,
      "PENDING_APPROVAL", "Approval request created.");
  }

  // ---- calls and rulings

  /** The record is about this request: same tool, same arguments, same workflow and node, absent or not. */
  ghost predicate AboutRequest(a: Approval, tool: Tool, request: Request) {
    && a.toolName == tool.toolName
    && Sanitizes(a.arguments, request.arguments)
    && a.workflowId == request.workflowId
    && a.workflowNodeId == request.workflowNodeId
  }

  /** A call that goes on to spend an approval holds an approved one that is about its request. */
  ghost predicate CallHolds(cfg: Config, st: ApprovalState, c: ToolCall) {
    && (c.approval.Some? ==> HoldsRecord(cfg, st, c, c.approval.value))
    && ((c.pc.AtMarkRunning? || c.pc.AtDispatch?) && ToolOf(cfg, c).requiresApproval ==> c.approval.Some?)
    && (c.pc.AtSuccessAudit? && c.approval.Some? ==> ExecutedIn(st, c.approval.value))
    && (c.pc.AtPendingAudit? ==> c.pc.id in st.approvals)
    && Vetted(cfg, c)
  }

  ghost predicate ExecutedIn(st: ApprovalState, id: Id) {
    id in st.approvals && st.approvals[id].status == Executed
  }

  ghost predicate HoldsRecord(cfg: Config, st: ApprovalState, c: ToolCall, id: Id) {
    && id in st.approvals
    && AboutRequest(st.approvals[id], ToolOf(cfg, c), c.request)
    && st.approvals[id].approvedAt.Some?
  }

  /** Past admission the request is cleared; past the limiter, what the tool is told is valid too. */
  ghost predicate Vetted(cfg: Config, c: ToolCall) {
    && (InProgress(c.pc) ==> Cleared(cfg, c.request, Actor(cfg, c), ToolOf(cfg, c)))
    && (InProgress(c.pc) && !c.pc.AtLimit? ==> Validated(cfg, c))
  }

  ghost predicate Validated(cfg: Config, c: ToolCall) {
    cfg.validates(ToolOf(cfg, c), TrustedArguments(Sanitized(c), Actor(cfg, c), ToolOf(cfg, c)))
  }

  /** The call has passed admission and has not failed or ended. */
  predicate InProgress(pc: Pc) {
    !(pc.AtFailAudit? || pc.AtComplete? || pc.Done? || pc.Crashed?)
  }

  ghost predicate RulingHolds(cfg: Config, st: ApprovalState, r: Ruling) {
    r.pc.AtDecide? ==> r.id in st.approvals && Entitled(cfg, r.principal, st.approvals[r.id].requesterId)
  }

  lemma HoldsAfter(cfg: Config, st: ApprovalState, st': ApprovalState, c: ToolCall)
    requires Evolves(st, st') && CallHolds(cfg, st, c)
    ensures CallHolds(cfg, st', c)
  {
    if c.approval.Some? {
      assert Frozen(st'.approvals[c.approval.value]) == Frozen(st.approvals[c.approval.value]);
    }
  }

  lemma RulingHoldsAfter(cfg: Config, st: ApprovalState, st': ApprovalState, r: Ruling)
    requires Evolves(st, st') && RulingHolds(cfg, st, r)
    ensures RulingHolds(cfg, st', r)
  {
    if r.pc.AtDecide? {
      assert Frozen(st'.approvals[r.id]) == Frozen(st.approvals[r.id]);
    }
  }

  ghost predicate StepKeeps(cfg: Config, trace: seq<Event>, st: ApprovalState, r: StepResult) {
    && L.Invariant(r.store.approvals)
    && Evolves(st, r.store.approvals)
    && AllBacked(cfg, trace + r.events, r.store.approvals)
    && CallHolds(cfg, r.store.approvals, r.call)
  }

  /** A step that leaves the records alone and takes no approval up. */
  ghost predicate Quiet(cfg: Config, s: Store, c: ToolCall, r: StepResult) {
    && r.store.approvals.(audit := s.approvals.audit) == s.approvals
    && r.call == c.(pc := r.call.pc, reserved := r.call.reserved)
    && (InProgress(r.call.pc) ==> InProgress(c.pc))
    && (InProgress(r.call.pc) && !r.call.pc.AtLimit? && c.pc.AtLimit? ==> Validated(cfg, c))
    && ((r.call.pc.AtMarkRunning? || r.call.pc.AtDispatch?) && ToolOf(cfg, c).requiresApproval ==> c.approval.Some?)
    && (r.call.pc.AtSuccessAudit? ==> c.approval.None?)
    && !r.call.pc.AtPendingAudit?
  }

  lemma QuietStep(cfg: Config, trace: seq<Event>, s: Store, c: ToolCall, r: StepResult)
    requires L.Invariant(s.approvals) && AllBacked(cfg, trace, s.approvals) && CallHolds(cfg, s.approvals, c)
    requires Quiet(cfg, s, c, r)
    ensures StepKeeps(cfg, trace, s.approvals, r)
  {
    AllBackedLonger(cfg, trace, r.events, s.approvals);
  }

  /** A look-up that at most expires its approval. */
  lemma LookedUpStepKeeps(cfg: Config, trace: seq<Event>, s: Store, c: ToolCall, st': ApprovalState, r: StepResult)
    requires CallHolds(cfg, s.approvals, c) && c.pc.AtLookup?
    requires r == Goto(s.(approvals := st'), c, r.call.pc) && !r.call.pc.AtLimit? && !r.call.pc.AtMarkRunning?
    requires !r.call.pc.AtDispatch?
    requires !r.call.pc.AtSuccessAudit? && !r.call.pc.AtPendingAudit?
    requires L.Invariant(st') && Evolves(s.approvals, st') && AllBacked(cfg, trace, st')
    ensures StepKeeps(cfg, trace, s.approvals, r)
  {
    assert trace + [] == trace;
    HoldsAfter(cfg, s.approvals, st', c);
  }

  lemma LookupKeeps(cfg: Config, trace: seq<Event>, s: Store, c: ToolCall)
    requires L.Invariant(s.approvals) && AllBacked(cfg, trace, s.approvals) && CallHolds(cfg, s.approvals, c)
    requires c.pc.AtLookup?
    ensures StepKeeps(cfg, trace, s.approvals, LookupStep(cfg, s, c))
  {
    if c.request.approvalId.Some? {
      LookedUpKeeps(cfg, trace, s.approvals, c.request.approvalId.value, c.now);
      LookedUpStepKeeps(cfg, trace, s, c, Get(s.approvals, c.request.approvalId.value, c.now).0, LookupStep(cfg, s, c));
    } else {
      EvolvesInPlace(s.approvals);
      LookedUpStepKeeps(cfg, trace, s, c, s.approvals, LookupStep(cfg, s, c));
    }
  }

  lemma EvolvesInPlace(st: ApprovalState)
    ensures Evolves(st, st)
  {
  }

  /** A check that is passed takes the approval up; the records stay as they are. */
  lemma VerifyKeeps(cfg: Config, trace: seq<Event>, s: Store, c: ToolCall)
    requires L.Invariant(s.approvals) && AllBacked(cfg, trace, s.approvals) && CallHolds(cfg, s.approvals, c)
    requires c.pc.AtVerify?
    ensures StepKeeps(cfg, trace, s.approvals, VerifyStep(cfg, s, c))
  {
    var r := VerifyStep(cfg, s, c);
    if r.call.pc.AtMarkRunning? {
      var id := c.request.approvalId.value;
      FittingIsAbout(cfg, trace, c, s.approvals.approvals[id]);
      TakenUpHolds(cfg, s.approvals, c, id);
    } else {
      assert r == Goto(s, c, r.call.pc);
    }
    SameRecordsKeep(cfg, trace, s, r);
  }

  lemma TakenUpHolds(cfg: Config, st: ApprovalState, c: ToolCall, id: Id)
    requires c.pc.AtVerify? && CallHolds(cfg, st, c) && HoldsRecord(cfg, st, c, id)
    ensures CallHolds(cfg, st, c.(pc := AtMarkRunning, approval := Some(id)))
  {
  }

  lemma SameRecordsKeep(cfg: Config, trace: seq<Event>, s: Store, r: StepResult)
    requires L.Invariant(s.approvals) && AllBacked(cfg, trace, s.approvals)
    requires r.store == s && r.events == [] && CallHolds(cfg, s.approvals, r.call)
    ensures StepKeeps(cfg, trace, s.approvals, r)
  {
    assert trace + r.events == trace;
  }

  /** An approved record that fits the request is about it, down to an absent workflow or node. */
  lemma FittingIsAbout(cfg: Config, trace: seq<Event>, c: ToolCall, a: Approval)
    requires Backed(cfg, trace, a) && ApprovalFits(cfg, c, a)
    ensures AboutRequest(a, ToolOf(cfg, c), c.request) && a.approvedAt.Some?
  {
    StripSanitizes(c.request.arguments, a.arguments);
  }

  lemma CreateStepKeeps(cfg: Config, tid: Tid, trace: seq<Event>, s: Store, c: ToolCall, id: Id)
    requires L.Invariant(s.approvals) && AllBacked(cfg, trace, s.approvals) && CallHolds(cfg, s.approvals, c)
    requires c.pc.AtCreate? && id !in s.approvals.approvals
    ensures StepKeeps(cfg, trace, s.approvals, CreateStep(cfg, tid, s, c, id))
  {
    CreateKeeps(cfg, tid, trace, s.approvals, c, id);
    CreatedHolds(cfg, trace, s.approvals, c, CreateStep(cfg, tid, s, c, id));
  }

  lemma CreatedHolds(cfg: Config, trace: seq<Event>, st: ApprovalState, c: ToolCall, r: StepResult)
    requires CallHolds(cfg, st, c) && c.pc.AtCreate? && r.call == c.(pc := r.call.pc) && r.call.pc.AtPendingAudit?
    requires r.call.pc.id in r.store.approvals.approvals
    requires L.Invariant(r.store.approvals) && Evolves(st, r.store.approvals)
    requires AllBacked(cfg, trace + r.events, r.store.approvals)
    ensures StepKeeps(cfg, trace, st, r)
  {
    HoldsAfter(cfg, st, r.store.approvals, c);
    WaitingHolds(cfg, r.store.approvals, c, r.call.pc.id);
  }

  lemma WaitingHolds(cfg: Config, st: ApprovalState, c: ToolCall, id: Id)
    requires CallHolds(cfg, st, c) && c.pc.AtCreate? && id in st.approvals
    ensures CallHolds(cfg, st, c.(pc := AtPendingAudit(id)))
  {
  }

  /** A mark, made or refused, after which the call goes on to its audit. */
  lemma MarkedKeeps(cfg: Config, trace: seq<Event>, s: Store, c: ToolCall, st': ApprovalState, r: StepResult)
    requires CallHolds(cfg, s.approvals, c) && (c.pc.AtMarkFailed? || c.pc.AtMarkExecuted?)
    requires r.store.approvals == st' && r.call == c.(pc := r.call.pc)
    requires r.call.pc.AtFailAudit? || r.call.pc.AtSuccessAudit?
    requires r.call.pc.AtSuccessAudit? && c.approval.Some? ==> ExecutedIn(st', c.approval.value)
    requires L.Invariant(st') && Evolves(s.approvals, st') && AllBacked(cfg, trace, st')
    ensures StepKeeps(cfg, trace, s.approvals, r)
  {
    HoldsAfter(cfg, s.approvals, st', c);
    AllBackedLonger(cfg, trace, r.events, st');
  }

  lemma MarkFailedKeeps(cfg: Config, tid: Tid, trace: seq<Event>, s: Store, c: ToolCall, clock: Time)
    requires L.Invariant(s.approvals) && AllBacked(cfg, trace, s.approvals) && CallHolds(cfg, s.approvals, c)
    requires c.pc.AtMarkFailed?
    ensures StepKeeps(cfg, trace, s.approvals, MarkFailedStep(cfg, tid, s, c, c.pc.code, clock))
  {
    var r := MarkFailedStep(cfg, tid, s, c, c.pc.code, clock);
    if c.approval.Some? {
      FailedKeeps(cfg, trace, s.approvals, c.approval.value, Actor(cfg, c), clock, CodeText(c.pc.code));
    } else {
      EvolvesInPlace(s.approvals);
    }
    MarkedKeeps(cfg, trace, s, c, r.store.approvals, r);
  }

  lemma MarkExecutedKeeps(cfg: Config, tid: Tid, trace: seq<Event>, s: Store, c: ToolCall, clock: Time)
    requires L.Invariant(s.approvals) && AllBacked(cfg, trace, s.approvals) && CallHolds(cfg, s.approvals, c)
    requires c.pc.AtMarkExecuted?
    ensures StepKeeps(cfg, trace, s.approvals, MarkExecutedStep(cfg, tid, s, c, c.pc.result, clock))
  {
    var r := MarkExecutedStep(cfg, tid, s, c, c.pc.result, clock);
    if c.approval.Some? {
      ExecutedKeeps(cfg, trace, s.approvals, c.approval.value, Actor(cfg, c), clock, c.pc.result);
      MarkExecutedHolds(cfg, trace, s, c, clock, r,
        MarkExecuted(s.approvals, c.approval.value, Actor(cfg, c), clock, c.pc.result));
    } else {
      EvolvesInPlace(s.approvals);
      MarkedKeeps(cfg, trace, s, c, s.approvals, r);
    }
  }

  lemma MarkExecutedHolds(
    cfg: Config, trace: seq<Event>, s: Store, c: ToolCall, clock: Time, r: StepResult,
    marked: (ApprovalState, Reply))
    requires CallHolds(cfg, s.approvals, c) && c.pc.AtMarkExecuted? && c.approval.Some?
    requires r.store.approvals == marked.0
    requires r.call == c.(pc := if marked.1.Err? then AtFailAudit(marked.1.error) else AtSuccessAudit(c.pc.result))
    requires L.Invariant(marked.0) && Evolves(s.approvals, marked.0) && AllBacked(cfg, trace, marked.0)
    requires marked.1.Ok? ==> ExecutedIn(marked.0, c.approval.value)
    ensures StepKeeps(cfg, trace, s.approvals, r)
  {
    MarkedKeeps(cfg, trace, s, c, marked.0, r);
  }

  /** The steps up to the dispatch that leave the records alone. */
  lemma EarlyStepsAreQuiet(cfg: Config, tid: Tid, s: Store, c: ToolCall, tick: Tick)
    requires c.pc.AtLimit? || c.pc.AtReserve? || c.pc.AtMarkRunning? || c.pc.AtDispatch?
    requires (c.pc.AtMarkRunning? || c.pc.AtDispatch?) && ToolOf(cfg, c).requiresApproval ==> c.approval.Some?
    ensures Quiet(cfg, s, c, Advance(cfg, tid, s, c, tick))
  {
  }

  /** The steps after it that only write to the audit log or to the idempotency store. */
  lemma LateStepsAreQuiet(cfg: Config, tid: Tid, s: Store, c: ToolCall, tick: Tick)
    requires c.pc.AtPendingAudit? || c.pc.AtSuccessAudit? || c.pc.AtFailAudit? || c.pc.AtComplete? || Finished(c)
    ensures Quiet(cfg, s, c, Advance(cfg, tid, s, c, tick))
  {
  }

  lemma AdvanceKeeps(cfg: Config, tid: Tid, trace: seq<Event>, s: Store, c: ToolCall, tick: Tick)
    requires L.Invariant(s.approvals) && AllBacked(cfg, trace, s.approvals) && CallHolds(cfg, s.approvals, c)
    ensures StepKeeps(cfg, trace, s.approvals, Advance(cfg, tid, s, c, tick))
  {
    if c.pc.AtLimit? || c.pc.AtReserve? || c.pc.AtMarkRunning? || c.pc.AtDispatch? {
      EarlyStepsAreQuiet(cfg, tid, s, c, tick);
      QuietStep(cfg, trace, s, c, Advance(cfg, tid, s, c, tick));
    } else if c.pc.AtPendingAudit? || c.pc.AtSuccessAudit? || c.pc.AtFailAudit? || c.pc.AtComplete? || Finished(c) {
      LateStepsAreQuiet(cfg, tid, s, c, tick);
      QuietStep(cfg, trace, s, c, Advance(cfg, tid, s, c, tick));
    } else if c.pc.AtLookup? {
      LookupKeeps(cfg, trace, s, c);
    } else if c.pc.AtVerify? {
      VerifyKeeps(cfg, trace, s, c);
    } else if c.pc.AtMarkFailed? {
      MarkFailedKeeps(cfg, tid, trace, s, c, tick.clock);
    } else if c.pc.AtMarkExecuted? {
      MarkExecutedKeeps(cfg, tid, trace, s, c, tick.clock);
    } else if tick.freshId in s.approvals.approvals {
      QuietStep(cfg, trace, s, c, StepResult(s, c, []));
    } else {
      CreateStepKeeps(cfg, tid, trace, s, c, tick.freshId);
    }
  }

  /** What a step of a ruling keeps. */
  ghost predicate RuleStepKeeps(cfg: Config, trace: seq<Event>, st: ApprovalState, res: RulingResult) {
    && L.Invariant(res.store.approvals) && Evolves(st, res.store.approvals)
    && AllBacked(cfg, trace + res.events, res.store.approvals)
    && RulingHolds(cfg, res.store.approvals, res.ruling)
    && |res.events| <= 1 && (|res.events| == 1 ==> !res.events[0].Dispatched?)
  }

  lemma RuleLookupKeeps(cfg: Config, trace: seq<Event>, s: Store, r: Ruling)
    requires L.Invariant(s.approvals) && AllBacked(cfg, trace, s.approvals) && r.pc.AtGet?
    ensures RuleStepKeeps(cfg, trace, s.approvals, Rule(cfg, s, r))
  {
    assert trace + [] == trace;
    LookedUpKeeps(cfg, trace, s.approvals, r.id, r.now);
  }

  /** The result of a decision that leaves these records and this reply. */
  ghost function Decided(s: Store, r: Ruling, decided: (ApprovalState, Reply), e: Event): RulingResult {
    RulingResult(s.(approvals := decided.0), r.(pc := Ruled(decided.1)), Deciding(decided.1, e))
  }

  lemma DecisionKeeps(
    cfg: Config, trace: seq<Event>, s: Store, r: Ruling, decided: (ApprovalState, Reply), e: Event)
    requires L.Invariant(decided.0) && Evolves(s.approvals, decided.0) && (e.Granted? || e.Refused?)
    requires AllBacked(cfg, trace + Deciding(decided.1, e), decided.0)
    ensures RuleStepKeeps(cfg, trace, s.approvals, Decided(s, r, decided, e))
  {
  }

  lemma RuleDecides(cfg: Config, s: Store, r: Ruling)
    requires r.pc.AtDecide?
    ensures r.verb.Approving? ==>
      Rule(cfg, s, r) ==
        Decided(s, r, Approve(s.approvals, r.id, r.principal, r.now), Granted(r.id, r.principal, r.now))
    ensures r.verb.Rejecting? ==>
      Rule(cfg, s, r) ==
        Decided(s, r, Reject(s.approvals, r.id, r.principal, r.verb.reason, r.now),
          Refused(r.id, r.principal, r.verb.reason, r.now))
  {
  }

  lemma DecisionIsKept(cfg: Config, trace: seq<Event>, s: Store, r: Ruling)
    requires L.Invariant(s.approvals) && AllBacked(cfg, trace, s.approvals) && RulingHolds(cfg, s.approvals, r)
    requires r.pc.AtDecide?
    ensures RuleStepKeeps(cfg, trace, s.approvals, Rule(cfg, s, r))
  {
    RuleDecides(cfg, s, r);
    if r.verb.Approving? {
      ApproveKeeps(cfg, trace, s.approvals, r.id, r.principal, r.now);
      DecisionKeeps(cfg, trace, s, r, Approve(s.approvals, r.id, r.principal, r.now),
        Granted(r.id, r.principal, r.now));
    } else {
      RejectKeeps(cfg, trace, s.approvals, r.id, r.principal, r.verb.reason, r.now);
      DecisionKeeps(cfg, trace, s, r, Reject(s.approvals, r.id, r.principal, r.verb.reason, r.now),
        Refused(r.id, r.principal, r.verb.reason, r.now));
    }
  }

  lemma RuleKeeps(cfg: Config, trace: seq<Event>, s: Store, r: Ruling)
    requires L.Invariant(s.approvals) && AllBacked(cfg, trace, s.approvals) && RulingHolds(cfg, s.approvals, r)
    ensures RuleStepKeeps(cfg, trace, s.approvals, Rule(cfg, s, r))
  {
    match r.pc
    case AtGet => RuleLookupKeeps(cfg, trace, s, r);
    case AtDecide =>
      DecisionIsKept(cfg, trace, s, r);
    case Ruled(_) => assert trace + [] == trace;
  }

  // ---- the system invariant

  /** What a dispatch event must have behind it in the trace before it. */
  ghost predicate DispatchBacked(cfg: Config, before: seq<Event>, e: Event)
    requires e.Dispatched?
  {
    && Cleared(cfg, e.request, e.principal, e.tool)
    && Routes(e.routed, e.request.arguments, e.principal.role, e.tool.requiresApproval)
    && cfg.validates(e.tool, e.routed)
    && (e.tool.requiresApproval ==>
          exists a: Approval :: e.approvalId == Some(a.id) && AboutRequest(a, e.tool, e.request)
            && GrantedFor(cfg, before, a))
  }

  ghost predicate CallsHold(cfg: Config, st: ApprovalState, calls: map<Tid, ToolCall>) {
    forall t :: t in calls ==> CallHolds(cfg, st, calls[t])
  }

  ghost predicate RulingsHold(cfg: Config, st: ApprovalState, rulings: map<Tid, Ruling>) {
    forall t :: t in rulings ==> RulingHolds(cfg, st, rulings[t])
  }

  ghost predicate TraceBacked(cfg: Config, trace: seq<Event>) {
    forall i :: 0 <= i < |trace| && trace[i].Dispatched? ==> DispatchBacked(cfg, trace[..i], trace[i])
  }

  ghost predicate Invariant(cfg: Config, s: System) {
    && L.Invariant(s.store.approvals)
    && AllBacked(cfg, s.trace, s.store.approvals)
    && CallsHold(cfg, s.store.approvals, s.calls)
    && RulingsHold(cfg, s.store.approvals, s.rulings)
    && TraceBacked(cfg, s.trace)
  }

  /** What holds of calls and rulings goes on holding as approvals evolve. */
  lemma OthersCarryOver(
    cfg: Config, st: ApprovalState, st': ApprovalState, calls: map<Tid, ToolCall>, rulings: map<Tid, Ruling>)
    requires Evolves(st, st') && CallsHold(cfg, st, calls) && RulingsHold(cfg, st, rulings)
    ensures CallsHold(cfg, st', calls) && RulingsHold(cfg, st', rulings)
  {
    forall t | t in calls
      ensures CallHolds(cfg, st', calls[t])
    {
      HoldsAfter(cfg, st, st', calls[t]);
    }
    forall t | t in rulings
      ensures RulingHolds(cfg, st', rulings[t])
    {
      RulingHoldsAfter(cfg, st, st', rulings[t]);
    }
  }

  ghost predicate EventsBacked(cfg: Config, trace: seq<Event>, events: seq<Event>) {
    |events| <= 1 && (|events| == 1 && events[0].Dispatched? ==> DispatchBacked(cfg, trace, events[0]))
  }

  lemma TraceCarriesOver(cfg: Config, trace: seq<Event>, more: seq<Event>)
    requires TraceBacked(cfg, trace) && EventsBacked(cfg, trace, more)
    ensures TraceBacked(cfg, trace + more)
  {
    forall i | 0 <= i < |trace + more| && (trace + more)[i].Dispatched?
      ensures DispatchBacked(cfg, (trace + more)[..i], (trace + more)[i])
    {
      if i < |trace| {
        assert (trace + more)[..i] == trace[..i];
      } else {
        assert (trace + more)[..i] == trace;
      }
    }
  }

  /** Only the dispatch step emits a dispatch event, and no step emits more than one event. */
  lemma EventsOfStep(cfg: Config, tid: Tid, s: Store, c: ToolCall, tick: Tick)
    ensures var r := Advance(cfg, tid, s, c, tick);
      |r.events| <= 1 && (|r.events| == 1 && r.events[0].Dispatched? ==> c.pc.AtDispatch?)
  {
  }

  /** The call about to dispatch has its approval behind it. */
  lemma DispatchIsBacked(cfg: Config, tid: Tid, trace: seq<Event>, s: Store, c: ToolCall, outcome: Outcome)
    requires L.Invariant(s.approvals) && AllBacked(cfg, trace, s.approvals) && CallHolds(cfg, s.approvals, c)
    requires c.pc.AtDispatch?
    ensures EventsBacked(cfg, trace, DispatchStep(cfg, tid, s, c, outcome).events)
  {
    TrustedRoutes(c.request.arguments, Actor(cfg, c), ToolOf(cfg, c));
    if ToolOf(cfg, c).requiresApproval {
      var a := s.approvals.approvals[c.approval.value];
      assert Backed(cfg, trace, a);
      assert a.id == c.approval.value && AboutRequest(a, ToolOf(cfg, c), c.request) && GrantedFor(cfg, trace, a);
    }
  }

  lemma AdvanceDispatches(cfg: Config, tid: Tid, s: Store, c: ToolCall, tick: Tick)
    requires c.pc.AtDispatch?
    ensures Advance(cfg, tid, s, c, tick) == DispatchStep(cfg, tid, s, c, tick.outcome)
  {
  }

  lemma StepIsBacked(cfg: Config, tid: Tid, trace: seq<Event>, s: Store, c: ToolCall, tick: Tick)
    requires L.Invariant(s.approvals) && AllBacked(cfg, trace, s.approvals) && CallHolds(cfg, s.approvals, c)
    ensures EventsBacked(cfg, trace, Advance(cfg, tid, s, c, tick).events)
  {
    if c.pc.AtDispatch? {
      AdvanceDispatches(cfg, tid, s, c, tick);
      DispatchIsBacked(cfg, tid, trace, s, c, tick.outcome);
    } else {
      EventsOfStep(cfg, tid, s, c, tick);
      NoDispatchIsBacked(cfg, trace, Advance(cfg, tid, s, c, tick).events);
    }
  }

  lemma NoDispatchIsBacked(cfg: Config, trace: seq<Event>, events: seq<Event>)
    requires |events| <= 1 && (|events| == 1 ==> !events[0].Dispatched?)
    ensures EventsBacked(cfg, trace, events)
  {
  }

  lemma StepCallKeeps(cfg: Config, s: System, tid: Tid, tick: Tick)
    requires Invariant(cfg, s) && tid in s.calls
    ensures Invariant(cfg, Act(cfg, s, StepCall(tid, tick)))
  {
    AdvanceKeeps(cfg, tid, s.trace, s.store, s.calls[tid], tick);
    StepIsBacked(cfg, tid, s.trace, s.store, s.calls[tid], tick);
    AfterCallStep(cfg, s, tid, Advance(cfg, tid, s.store, s.calls[tid], tick));
  }

  lemma AfterCallStep(cfg: Config, s: System, tid: Tid, r: StepResult)
    requires Invariant(cfg, s) && tid in s.calls && StepKeeps(cfg, s.trace, s.store.approvals, r)
    requires EventsBacked(cfg, s.trace, r.events)
    ensures Invariant(cfg, s.(store := r.store, calls := s.calls[tid := r.call], trace := s.trace + r.events))
  {
    OthersCarryOver(cfg, s.store.approvals, r.store.approvals, s.calls, s.rulings);
    TraceCarriesOver(cfg, s.trace, r.events);
  }

  lemma StepRulingKeeps(cfg: Config, s: System, tid: Tid)
    requires Invariant(cfg, s) && tid in s.rulings
    ensures Invariant(cfg, Act(cfg, s, StepRuling(tid)))
  {
    RuleKeeps(cfg, s.trace, s.store, s.rulings[tid]);
    AfterRuling(cfg, s, tid, Rule(cfg, s.store, s.rulings[tid]));
  }

  lemma AfterRuling(cfg: Config, s: System, tid: Tid, r: RulingResult)
    requires Invariant(cfg, s) && tid in s.rulings && RuleStepKeeps(cfg, s.trace, s.store.approvals, r)
    ensures Invariant(cfg, s.(store := r.store, rulings := s.rulings[tid := r.ruling], trace := s.trace + r.events))
  {
    OthersCarryOver(cfg, s.store.approvals, r.store.approvals, s.calls, s.rulings);
    TraceCarriesOver(cfg, s.trace, r.events);
  }

  lemma StartHolds(cfg: Config, st: ApprovalState, c: ToolCall)
    requires c.approval.None? && c.pc == Admission(cfg, c.request)
    ensures CallHolds(cfg, st, c)
  {
    if InProgress(c.pc) {
      AdmittedIsCleared(cfg, c);
    }
  }

  lemma StartCallKeeps(cfg: Config, s: System, tid: Tid, c: ToolCall)
    requires Invariant(cfg, s) && c.approval.None? && c.pc == Admission(cfg, c.request)
    ensures Invariant(cfg, s.(calls := s.calls[tid := c]))
  {
    StartHolds(cfg, s.store.approvals, c);
    assert CallsHold(cfg, s.store.approvals, s.calls[tid := c]);
  }

  lemma StartRulingKeeps(cfg: Config, s: System, tid: Tid, r: Ruling)
    requires Invariant(cfg, s) && r.pc.AtGet?
    ensures Invariant(cfg, s.(rulings := s.rulings[tid := r]))
  {
  }

  lemma ReadKeeps(cfg: Config, s: System, st': ApprovalState)
    requires Invariant(cfg, s) && L.Invariant(st') && OnlyExpires(s.store.approvals, st')
    ensures Invariant(cfg, s.(store := s.store.(approvals := st')))
  {
    ExpiriesKeep(cfg, s.trace, s.store.approvals, st');
    OthersCarryOver(cfg, s.store.approvals, st', s.calls, s.rulings);
  }

  lemma StartKeeps(cfg: Config, s: System, action: Action)
    requires Invariant(cfg, s) && (action.StartCall? || action.StartRuling?)
    ensures Invariant(cfg, Act(cfg, s, action))
  {
    if action.StartCall? {
      StartCallKeeps(cfg, s, action.tid,
        ToolCall(action.request, action.now, Admission(cfg, action.request), false, None));
    } else if cfg.authenticate(action.authToken).Some? {
      var p := cfg.authenticate(action.authToken).value;
      StartRulingKeeps(cfg, s, action.tid, Ruling(p, action.id, action.verb, action.now, AtGet));
    }
  }

  lemma ListKeeps(cfg: Config, s: System, now: Time)
    requires Invariant(cfg, s)
    ensures Invariant(cfg, s.(store := s.store.(approvals := ExpirePending(s.store.approvals, now))))
  {
    SweepOnlyExpires(s.store.approvals, s.store.approvals.order, now);
    ReadKeeps(cfg, s, ExpirePending(s.store.approvals, now));
  }

  lemma DetailKeeps(cfg: Config, s: System, id: Id, now: Time)
    requires Invariant(cfg, s)
    ensures Invariant(cfg, s.(store := s.store.(approvals := Detail(s.store.approvals, id, now).0)))
  {
    GetOnlyExpires(s.store.approvals, id, now);
    ReadKeeps(cfg, s, Detail(s.store.approvals, id, now).0);
  }

  lemma ListActKeeps(cfg: Config, s: System, authToken: string, now: Time)
    requires Invariant(cfg, s)
    ensures Invariant(cfg, Act(cfg, s, ListApprovals(authToken, now)))
  {
    ListKeeps(cfg, s, now);
  }

  lemma DetailActKeeps(cfg: Config, s: System, authToken: string, id: Id, now: Time)
    requires Invariant(cfg, s)
    ensures Invariant(cfg, Act(cfg, s, GetApproval(authToken, id, now)))
  {
    DetailKeeps(cfg, s, id, now);
  }

  lemma ActKeeps(cfg: Config, s: System, action: Action)
    requires Invariant(cfg, s)
    ensures Invariant(cfg, Act(cfg, s, action))
  {
    if action.StartCall? || action.StartRuling? {
      StartKeeps(cfg, s, action);
    } else if action.ListApprovals? {
      ListActKeeps(cfg, s, action.authToken, action.now);
    } else if action.GetApproval? {
      DetailActKeeps(cfg, s, action.authToken, action.id, action.now);
    } else if action.StepCall? && action.tid in s.calls {
      StepCallKeeps(cfg, s, action.tid, action.tick);
    } else if action.StepRuling? && action.tid in s.rulings {
      StepRulingKeeps(cfg, s, action.tid);
    } else {
      assert Act(cfg, s, action) == s;
    }
  }

  lemma {:induction false} RunInvariant(cfg: Config, actions: seq<Action>)
    ensures Invariant(cfg, Run(cfg, actions))
  {
    if |actions| > 0 {
      RunInvariant(cfg, actions[..|actions| - 1]);
      ActKeeps(cfg, Run(cfg, actions[..|actions| - 1]), actions[|actions| - 1]);
    }
  }

  /**
   In every run, whatever the interleaving, a dispatch is made for an authenticated
   principal with the permission for a registered, enabled, executable tool, carries that
   principal's role, and, if the tool needs approval, comes after the approval was
   created for this request and then granted in time by an entitled other person.
   */
  lemma EveryDispatchIsBacked(cfg: Config, actions: seq<Action>, i: nat)
    requires i < |Run(cfg, actions).trace| && Run(cfg, actions).trace[i].Dispatched?
    ensures DispatchBacked(cfg, Run(cfg, actions).trace[..i], Run(cfg, actions).trace[i])
  {
    RunInvariant(cfg, actions);
  }

  /**
   In every run a record that is approved or has been executed tells of its grant, and a
   rejected one of its rejection, its author and its reason: both came after the request,
   before its deadline, from an entitled other person.
   */
  lemma EveryRulingIsBacked(cfg: Config, actions: seq<Action>, id: Id)
    requires id in Run(cfg, actions).store.approvals.approvals
    ensures var s := Run(cfg, actions);
      var a := s.store.approvals.approvals[id];
      && a.id == id && WasCreated(s.trace, a)
      && (a.status == Approved || a.status == Executed ==> GrantedFor(cfg, s.trace, a))
      && (a.status == Rejected ==> RefusedFor(cfg, s.trace, a))
  {
    RunInvariant(cfg, actions);
    assert Backed(cfg, Run(cfg, actions).trace, Run(cfg, actions).store.approvals.approvals[id]);
  }
}
