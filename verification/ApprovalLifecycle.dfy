/**
 What every run of approval-store operations keeps: the life of each approval, told by
 its events, is a path of the lifecycle, and it never leaves a final status.
 */
module ApprovalLifecycle {
  import opened Wrappers
  import opened GatewayTypes
  import opened Approvals

  datatype Operation =
    | OpCreate(approval: Approval, principal: Principal, now: Time)
    | OpDetail(id: Id, now: Time)
    | OpGet(id: Id, now: Time)
    | OpApprove(id: Id, principal: Principal, now: Time)
    | OpReject(id: Id, principal: Principal, reason: string, now: Time)
    | OpExpirePending(now: Time)
    | OpMarkExecuted(id: Id, principal: Principal, now: Time, result: Json)
    | OpMarkFailed(id: Id, principal: Principal, now: Time, reason: string)

  /** Created records are new: pending, version one, under an id not handed out before. */
  ghost predicate Permitted(st: ApprovalState, op: Operation) {
    op.OpCreate? ==>
      && op.approval.id !in st.approvals
      && op.approval.status == Pending
      && op.approval.version == 1
      && op.approval.approvedAt == None
  }

  function Perform(st: ApprovalState, op: Operation): ApprovalState {
    match op
    case OpCreate(a, principal, now) => Create(st, a, principal, now)
    case OpDetail(id, now) => Detail(st, id, now).0
    case OpGet(id, now) => Get(st, id, now).0
    case OpApprove(id, principal, now) => Approve(st, id, principal, now).0
    case OpReject(id, principal, reason, now) => Reject(st, id, principal, reason, now).0
    case OpExpirePending(now) => ExpirePending(st, now)
    case OpMarkExecuted(id, principal, now, result) => MarkExecuted(st, id, principal, now, result).0
    case OpMarkFailed(id, principal, now, reason) => MarkFailed(st, id, principal, now, reason).0
  }

  const EMPTY := ApprovalState(map[], [], [], [])

  /** The events of one approval, in order. */
  ghost function EventsOf(events: seq<ApprovalEvent>, id: Id): seq<ApprovalEvent> {
    if |events| == 0 then []
    else
      var front, e := EventsOf(events[..|events| - 1], id), events[|events| - 1];
      if e.approvalId == id then front + [e] else front
  }

  /** The statuses an approval has gone through, as its events tell them. */
  ghost function History(events: seq<ApprovalEvent>, id: Id): seq<ApprovalStatus> {
    if |events| == 0 then []
    else
      var front, e := History(events[..|events| - 1], id), events[|events| - 1];
      if e.approvalId == id then front + [e.status] else front
  }

  predicate Final(s: ApprovalStatus) {
    s in {Rejected, Expired, Executed, Failed}
  }

  /** The lives an approval can have lived. */
  ghost predicate Life(h: seq<ApprovalStatus>) {
    || h == [Pending]
    || h == [Pending, Approved]
    || h == [Pending, Rejected]
    || h == [Pending, Expired]
    || h == [Pending, Failed]
    || h == [Pending, Approved, Executed]
    || h == [Pending, Approved, Failed]
  }

  ghost predicate LivesWell(a: Approval, h: seq<ApprovalStatus>) {
    && Life(h)
    && h[|h| - 1] == a.status
    && a.version == |h|
    && (|h| >= 2 && h[1] == Approved ==> a.approvedAt.Some? && a.approvedAt.value < a.expiresAt)
  }

  ghost predicate Distinct(ids: seq<Id>) {
    forall i, j :: 0 <= i < j < |ids| ==> ids[i] != ids[j]
  }

  ghost predicate Invariant(st: ApprovalState) {
    && (forall id :: id in st.approvals ==>
      st.approvals[id].id == id && LivesWell(st.approvals[id], History(st.events, id)))
    && (forall id :: id !in st.approvals ==> History(st.events, id) == [])
    && Distinct(st.order)
    && (forall id :: id in st.order <==> id in st.approvals)
  }

  lemma AppendEvent(events: seq<ApprovalEvent>, e: ApprovalEvent, id: Id)
    ensures EventsOf(events + [e], id) ==
      if e.approvalId == id then EventsOf(events, id) + [e] else EventsOf(events, id)
    ensures History(events + [e], id) ==
      if e.approvalId == id then History(events, id) + [e.status] else History(events, id)
  {
    assert (events + [e])[..|events|] == events;
  }

  /** A transition to a record that continues the life of the old one keeps the invariant. */
  lemma TransitionKeeps(
    st: ApprovalState, a: Approval, eventType: string, actor: Principal, now: Time, execution: string, summary: string)
    requires Invariant(st)
    requires LivesWell(a, History(st.events, a.id) + [a.status])
    ensures Invariant(Transition(st, a, eventType, actor, now, execution, summary))
  {
    var e := EventFor(a, eventType, actor, now);
    var st' := Transition(st, a, eventType, actor, now, execution, summary);
    forall id | id in st'.approvals
      ensures st'.approvals[id].id == id && LivesWell(st'.approvals[id], History(st'.events, id))
    {
      AppendEvent(st.events, e, id);
    }
    forall id | id !in st'.approvals
      ensures History(st'.events, id) == []
    {
      AppendEvent(st.events, e, id);
    }
    OrderKept(st, a, st');
  }

  lemma OrderKept(st: ApprovalState, a: Approval, st': ApprovalState)
    requires Distinct(st.order) && (forall id :: id in st.order <==> id in st.approvals)
    requires st'.approvals == st.approvals[a.id := a]
    requires st'.order == if a.id in st.approvals then st.order else st.order + [a.id]
    ensures Distinct(st'.order) && forall id :: id in st'.order <==> id in st'.approvals
  {
  }

  lemma CreateKeeps(st: ApprovalState, a: Approval, principal: Principal, now: Time)
    requires Invariant(st) && Permitted(st, OpCreate(a, principal, now))
    ensures Invariant(Create(st, a, principal, now))
  {
    assert History(st.events, a.id) == [];
    assert [] + [Pending] == [Pending];
    TransitionKeeps(st, a, "approval.requested", principal, now, "PENDING_APPROVAL", "Approval request created.");
  }

  /** A pending record has lived no further than its request; an approved one no further than its approval. */
  lemma StatusTellsHistory(st: ApprovalState, id: Id)
    requires Invariant(st) && id in st.approvals
    ensures st.approvals[id].status == Pending ==> History(st.events, id) == [Pending]
    ensures st.approvals[id].status == Approved ==> History(st.events, id) == [Pending, Approved]
    ensures st.approvals[id].status == Executed ==> History(st.events, id) == [Pending, Approved, Executed]
  {
    assert LivesWell(st.approvals[id], History(st.events, id));
  }

  lemma ExpireKeeps(st: ApprovalState, id: Id, now: Time)
    requires Invariant(st) && id in st.approvals
    ensures Invariant(ExpireIfNeeded(st, id, now))
  {
    var a := st.approvals[id];
    if Overdue(a, now) {
      StatusTellsHistory(st, id);
      TransitionKeeps(st, ExpiredForm(a), "approval.expired", SYSTEM, now, "EXPIRED", "Approval expired.");
    }
  }

  lemma GetKeeps(st: ApprovalState, id: Id, now: Time)
    requires Invariant(st)
    ensures Invariant(Detail(st, id, now).0) && Get(st, id, now).0 == Detail(st, id, now).0
    ensures var (st', r) := Get(st, id, now);
      r.Ok? ==> id in st'.approvals && r.value == st'.approvals[id] && r.value.id == id && !Overdue(r.value, now)
  {
    if id in st.approvals {
      ExpireKeeps(st, id, now);
    }
  }

  lemma {:induction false} ExpireFirstKeeps(st: ApprovalState, ids: seq<Id>, now: Time)
    requires Invariant(st)
    ensures Invariant(ExpireFirst(st, ids, now))
  {
    if |ids| > 0 {
      ExpireFirstKeeps(st, ids[..|ids| - 1], now);
      var st' := ExpireFirst(st, ids[..|ids| - 1], now);
      if ids[|ids| - 1] in st'.approvals {
        ExpireKeeps(st', ids[|ids| - 1], now);
      }
    }
  }

  lemma ApproveKeeps(st: ApprovalState, id: Id, principal: Principal, now: Time)
    requires Invariant(st)
    ensures Invariant(Approve(st, id, principal, now).0)
  {
    GetKeeps(st, id, now);
    var (st', r) := Get(st, id, now);
    if r.Ok? && r.value.status == Pending {
      StatusTellsHistory(st', id);
      TransitionKeeps(st', ApprovedForm(r.value, principal.id, now), "approval.approved", principal, now, "APPROVED",
        "Approval granted.");
    }
  }

  lemma RejectKeeps(st: ApprovalState, id: Id, principal: Principal, reason: string, now: Time)
    requires Invariant(st)
    ensures Invariant(Reject(st, id, principal, reason, now).0)
  {
    GetKeeps(st, id, now);
    var (st', r) := Get(st, id, now);
    if r.Ok? && r.value.status == Pending {
      StatusTellsHistory(st', id);
      TransitionKeeps(st', RejectedForm(r.value, principal.id, reason, now), "approval.rejected", principal, now,
        "REJECTED", reason);
    }
  }

  lemma ExecutedKeeps(st: ApprovalState, id: Id, actor: Principal, now: Time, result: Json)
    requires Invariant(st)
    ensures Invariant(MarkExecuted(st, id, actor, now, result).0)
  {
    GetKeeps(st, id, now);
    var (st', r) := Get(st, id, now);
    if r.Ok? && r.value.status == Approved {
      StatusTellsHistory(st', id);
      TransitionKeeps(st', ExecutedForm(r.value, now, result), "approval.executed", actor, now, "EXECUTED",
        "Approved operation executed.");
    }
  }

  lemma FailedKeeps(st: ApprovalState, id: Id, actor: Principal, now: Time, reason: string)
    requires Invariant(st)
    ensures Invariant(MarkFailed(st, id, actor, now, reason).0)
  {
    if id in st.approvals && (st.approvals[id].status == Approved || st.approvals[id].status == Pending) {
      StatusTellsHistory(st, id);
      TransitionKeeps(st, FailedForm(st.approvals[id], reason), "approval.failed", actor, now, "FAILED", reason);
    }
  }

  /** Every operation keeps the invariant. */
  lemma PerformKeeps(st: ApprovalState, op: Operation)
    requires Invariant(st) && Permitted(st, op)
    ensures Invariant(Perform(st, op))
  {
    match op
    case OpCreate(a, principal, now) => CreateKeeps(st, a, principal, now);
    case OpDetail(id, now) => GetKeeps(st, id, now);
    case OpGet(id, now) => GetKeeps(st, id, now);
    case OpApprove(id, principal, now) => ApproveKeeps(st, id, principal, now);
    case OpReject(id, principal, reason, now) => RejectKeeps(st, id, principal, reason, now);
    case OpExpirePending(now) => ExpireFirstKeeps(st, st.order, now);
    case OpMarkExecuted(id, principal, now, result) => ExecutedKeeps(st, id, principal, now, result);
    case OpMarkFailed(id, principal, now, reason) => FailedKeeps(st, id, principal, now, reason);
  }

  // ---- whole runs

  ghost function Run(ops: seq<Operation>): ApprovalState {
    if |ops| == 0 then EMPTY else Perform(Run(ops[..|ops| - 1]), ops[|ops| - 1])
  }

  ghost predicate PermittedRun(ops: seq<Operation>) {
    |ops| > 0 ==> PermittedRun(ops[..|ops| - 1]) && Permitted(Run(ops[..|ops| - 1]), ops[|ops| - 1])
  }

  lemma {:induction false} RunInvariant(ops: seq<Operation>)
    requires PermittedRun(ops)
    ensures Invariant(Run(ops))
  {
    if |ops| > 0 {
      RunInvariant(ops[..|ops| - 1]);
      PerformKeeps(Run(ops[..|ops| - 1]), ops[|ops| - 1]);
    }
  }

  /**
   In every reachable store: versions count events and stop at three, the last event
   tells the status, executed approvals were approved first, and approval came before
   the deadline.
   */
  lemma ReachableApproval(ops: seq<Operation>, id: Id)
    requires PermittedRun(ops) && id in Run(ops).approvals
    ensures var a, h := Run(ops).approvals[id], History(Run(ops).events, id);
      && a.version == |h| && 1 <= |h| <= 3
      && h[0] == Pending && h[|h| - 1] == a.status
      && (a.status == Executed ==> h == [Pending, Approved, Executed])
      && (a.status in {Approved, Executed} ==> a.approvedAt.Some? && a.approvedAt.value < a.expiresAt)
  {
    RunInvariant(ops);
    assert LivesWell(Run(ops).approvals[id], History(Run(ops).events, id));
  }

  // ---- final statuses

  lemma ExpireLeaves(st: ApprovalState, id: Id, now: Time, other: Id)
    requires Invariant(st) && id in st.approvals && other in st.approvals && Final(st.approvals[other].status)
    ensures other in ExpireIfNeeded(st, id, now).approvals
    ensures ExpireIfNeeded(st, id, now).approvals[other] == st.approvals[other]
  {
  }

  lemma {:induction false} ExpireFirstLeaves(st: ApprovalState, ids: seq<Id>, now: Time, other: Id)
    requires Invariant(st) && other in st.approvals && Final(st.approvals[other].status)
    ensures other in ExpireFirst(st, ids, now).approvals
    ensures ExpireFirst(st, ids, now).approvals[other] == st.approvals[other]
  {
    if |ids| > 0 {
      ExpireFirstLeaves(st, ids[..|ids| - 1], now, other);
      ExpireFirstKeeps(st, ids[..|ids| - 1], now);
    }
  }

  lemma GetLeaves(st: ApprovalState, id: Id, now: Time, other: Id)
    requires Invariant(st) && other in st.approvals && Final(st.approvals[other].status)
    ensures var st' := Get(st, id, now).0;
      other in st'.approvals && st'.approvals[other] == st.approvals[other]
  {
    if id in st.approvals {
      ExpireLeaves(st, id, now, other);
    }
  }

  lemma ApproveLeaves(st: ApprovalState, id: Id, principal: Principal, now: Time, other: Id)
    requires Invariant(st) && other in st.approvals && Final(st.approvals[other].status)
    ensures var st' := Approve(st, id, principal, now).0;
      other in st'.approvals && st'.approvals[other] == st.approvals[other]
  {
    GetLeaves(st, id, now, other);
    GetKeeps(st, id, now);
  }

  lemma RejectLeaves(st: ApprovalState, id: Id, principal: Principal, reason: string, now: Time, other: Id)
    requires Invariant(st) && other in st.approvals && Final(st.approvals[other].status)
    ensures var st' := Reject(st, id, principal, reason, now).0;
      other in st'.approvals && st'.approvals[other] == st.approvals[other]
  {
    GetLeaves(st, id, now, other);
    GetKeeps(st, id, now);
  }

  lemma ExecutedLeaves(st: ApprovalState, id: Id, actor: Principal, now: Time, result: Json, other: Id)
    requires Invariant(st) && other in st.approvals && Final(st.approvals[other].status)
    ensures var st' := MarkExecuted(st, id, actor, now, result).0;
      other in st'.approvals && st'.approvals[other] == st.approvals[other]
  {
    GetLeaves(st, id, now, other);
    GetKeeps(st, id, now);
  }

  lemma FailedLeaves(st: ApprovalState, id: Id, actor: Principal, now: Time, reason: string, other: Id)
    requires Invariant(st) && other in st.approvals && Final(st.approvals[other].status)
    ensures var st' := MarkFailed(st, id, actor, now, reason).0;
      other in st'.approvals && st'.approvals[other] == st.approvals[other]
  {
    assert id in st.approvals ==> st.approvals[id].id == id;
  }

  /** No operation changes an approval whose status is final. */
  lemma FinalIsFinal(st: ApprovalState, op: Operation, other: Id)
    requires Invariant(st) && Permitted(st, op) && other in st.approvals && Final(st.approvals[other].status)
    ensures other in Perform(st, op).approvals && Perform(st, op).approvals[other] == st.approvals[other]
  {
    match op
    case OpCreate(a, principal, now) =>
    case OpDetail(id, now) =>
      GetLeaves(st, id, now, other);
      GetKeeps(st, id, now);
    case OpGet(id, now) => GetLeaves(st, id, now, other);
    case OpApprove(id, principal, now) => ApproveLeaves(st, id, principal, now, other);
    case OpReject(id, principal, reason, now) => RejectLeaves(st, id, principal, reason, now, other);
    case OpExpirePending(now) => ExpireFirstLeaves(st, st.order, now, other);
    case OpMarkExecuted(id, principal, now, result) => ExecutedLeaves(st, id, principal, now, result, other);
    case OpMarkFailed(id, principal, now, reason) => FailedLeaves(st, id, principal, now, reason, other);
  }

  /** Once final, for ever final: the record is the same in every later state of the run. */
  lemma {:induction false} FinalForever(ops: seq<Operation>, k: nat, id: Id)
    requires PermittedRun(ops) && k <= |ops|
    requires id in Run(ops[..k]).approvals && Final(Run(ops[..k]).approvals[id].status)
    ensures id in Run(ops).approvals && Run(ops).approvals[id] == Run(ops[..k]).approvals[id]
    decreases |ops|
  {
    if k < |ops| {
      var front := ops[..|ops| - 1];
      assert front[..k] == ops[..k];
      FinalForever(front, k, id);
      RunInvariant(front);
      FinalIsFinal(Run(front), ops[|ops| - 1], id);
    } else {
      assert ops[..k] == ops;
    }
  }
}
