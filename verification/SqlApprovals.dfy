/**
 The approval store over tables, built from small transactions: expire one row, read
 one row, merge a changed copy.  Each operation of this store is shown to do what the
 in-memory store does, except that an expiry leaves no audit record here.
 */
module SqlApprovals {
  import opened Wrappers
  import opened GatewayTypes
  import opened Approvals
  import opened ApprovalLifecycle

  datatype Db = Db(rows: map<Id, Approval>, events: seq<ApprovalEvent>, audit: seq<AuditRecord>)

  // ---- transactions

  function ExpireRow(db: Db, id: Id, now: Time): Db
    requires id in db.rows
  {
    var row := db.rows[id];
    if Overdue(row, now) then
      db.(rows := db.rows[id := ExpiredForm(row)],
          events := db.events + [EventFor(ExpiredForm(row), "approval.expired", SYSTEM, now)])
    else db
  }

  function ReadRow(db: Db, id: Id): Reply {
    if id in db.rows then Ok(db.rows[id]) else Err(ApprovalNotFound)
  }

  function SaveRecord(db: Db, a: Approval, eventType: string, actor: Principal, now: Time): Db {
    db.(rows := db.rows[a.id := a], events := db.events + [EventFor(a, eventType, actor, now)])
  }

  function AuditTransition(
    db: Db, a: Approval, actor: Principal, now: Time, eventType: string, execution: string, summary: string): Db
  {
    db.(audit := db.audit + [AuditFor(a, eventType, actor, now, execution, summary)])
  }

  // ---- operations

  function SqlCreate(db: Db, a: Approval, principal: Principal, now: Time): Db {
    AuditTransition(SaveRecord(db, a, "approval.requested", principal, now),
                    a, principal, now, "approval.requested", "PENDING_APPROVAL", "Approval request created.")
  }

  function SqlDetail(db: Db, id: Id, now: Time): (Db, Reply) {
    if id !in db.rows then (db, Err(ApprovalNotFound))
    else
      var db' := ExpireRow(db, id, now);
      (db', ReadRow(db', id))
  }

  function SqlGet(db: Db, id: Id, now: Time): (Db, Reply) {
    var (db', r) := SqlDetail(db, id, now);
    if r.Ok? && r.value.status == Expired then (db', Err(ErrorCode.ExpiredApproval)) else (db', r)
  }

  /** Read a pending record and return a copy that has already moved on; nothing is written yet. */
  function TransitionPending(db: Db, id: Id, now: Time, status: ApprovalStatus): (Db, Reply) {
    var (db', r) := SqlGet(db, id, now);
    if r.Err? then (db', r)
    else if r.value.status != Pending then (db', Err(ApprovalDenied))
    else (db', Ok(r.value.(status := status, version := r.value.version + 1)))
  }

  function SqlApprove(db: Db, id: Id, approver: Principal, now: Time): (Db, Reply) {
    var (db', r) := TransitionPending(db, id, now, Approved);
    if r.Err? then (db', r)
    else
      var a := r.value.(approvedBy := Some(approver.id), approvedAt := Some(now));
      (AuditTransition(SaveRecord(db', a, "approval.approved", approver, now),
                       a, approver, now, "approval.approved", "APPROVED", "Approval granted."), Ok(a))
  }

  function SqlReject(db: Db, id: Id, rejector: Principal, reason: string, now: Time): (Db, Reply) {
    var (db', r) := TransitionPending(db, id, now, Rejected);
    if r.Err? then (db', r)
    else
      var a := r.value.(rejectedBy := Some(rejector.id), rejectedAt := Some(now), failureReason := Some(reason));
      (AuditTransition(SaveRecord(db', a, "approval.rejected", rejector, now),
                       a, rejector, now, "approval.rejected", "REJECTED", reason), Ok(a))
  }

  function SqlMarkExecuted(db: Db, id: Id, actor: Principal, now: Time, result: Json): (Db, Reply) {
    var (db', r) := SqlGet(db, id, now);
    if r.Err? then (db', r)
    else if r.value.status != Approved then (db', Err(ApprovalDenied))
    else
      var a := r.value.(status := Executed, executedAt := Some(now), executionResult := Some(result),
        version := r.value.version + 1);
      (AuditTransition(SaveRecord(db', a, "approval.executed", actor, now),
                       a, actor, now, "approval.executed", "EXECUTED", "Approved operation executed."), Ok(a))
  }

  function SqlMarkFailed(db: Db, id: Id, actor: Principal, now: Time, reason: string): (Db, Reply) {
    var r := ReadRow(db, id);
    if r.Err? then (db, r)
    else if r.value.status !in {Approved, Pending} then (db, Err(ApprovalDenied))
    else
      var a := r.value.(status := Failed, failureReason := Some(reason), version := r.value.version + 1);
      (AuditTransition(SaveRecord(db, a, "approval.failed", actor, now),
                       a, actor, now, "approval.failed", "FAILED", reason), Ok(a))
  }

  /** The rows of an expiry sweep come back in any order, so only each approval's own events are fixed. */
  ghost predicate SqlExpirePending(db: Db, now: Time, db': Db) {
    && db'.rows == SweptRows(db.rows, now)
    && db'.audit == db.audit
    && forall id :: EventsOf(db'.events, id) == SweptEvents(EventsOf(db.events, id), db.rows, id, now)
  }

  ghost function SweptRow(row: Approval, now: Time): Approval {
    if Overdue(row, now) then ExpiredForm(row) else row
  }

  ghost function SweptRows(rows: map<Id, Approval>, now: Time): map<Id, Approval> {
    map id | id in rows :: SweptRow(rows[id], now)
  }

  ghost function SweptEvents(
    events: seq<ApprovalEvent>, rows: map<Id, Approval>, id: Id, now: Time): seq<ApprovalEvent> {
    if id in rows && Overdue(rows[id], now)
    then events + [EventFor(ExpiredForm(rows[id]), "approval.expired", SYSTEM, now)] else events
  }

  /** The table while a sweep still has the rows in `todo` to expire. */
  ghost predicate PartlySwept(before: Db, todo: set<Id>, now: Time, db: Db) {
    && db.audit == before.audit
    && (forall id :: id in todo ==> id in before.rows && Overdue(before.rows[id], now) && before.rows[id].id == id)
    && db.rows.Keys == before.rows.Keys
    && (forall id :: id in db.rows ==>
          db.rows[id] == if id in todo then before.rows[id] else SweptRow(before.rows[id], now))
    && (forall id ::
          EventsOf(db.events, id) ==
            if id in todo then EventsOf(before.events, id)
            else SweptEvents(EventsOf(before.events, id), before.rows, id, now))
  }

  lemma SweepStep(before: Db, todo: set<Id>, now: Time, db: Db, id: Id)
    requires PartlySwept(before, todo, now, db) && id in todo
    ensures PartlySwept(before, todo - {id}, now, ExpireRow(db, id, now))
  {
    var e := EventFor(ExpiredForm(db.rows[id]), "approval.expired", SYSTEM, now);
    forall other
      ensures EventsOf(db.events + [e], other) ==
        if other in todo - {id} then EventsOf(before.events, other)
          else SweptEvents(EventsOf(before.events, other), before.rows, other, now)
    {
      AppendEvent(db.events, e, other);
    }
  }

  lemma SweepDone(before: Db, todo: set<Id>, now: Time, db: Db)
    requires PartlySwept(before, todo, now, db) && forall id :: id !in todo
    ensures SqlExpirePending(before, now, db)
  {
    assert forall id :: id in db.rows ==> db.rows[id] == SweptRows(before.rows, now)[id];
    assert db.rows == SweptRows(before.rows, now);
  }

  // ---- the store object

  class SqlApprovalStore {
    const ttl: int
    const auditLog: AuditLog
    var rows: map<Id, Approval>
    var events: seq<ApprovalEvent>

    function State(): Db
      reads this, auditLog
    {
      Db(rows, events, auditLog.records)
    }

    constructor (ttl: int, auditLog: AuditLog)
      ensures this.ttl == ttl && this.auditLog == auditLog && State() == Db(map[], [], auditLog.records)
    {
      this.ttl, this.auditLog, rows, events := ttl, auditLog, map[], [];
    }

    method Save(a: Approval, eventType: string, actor: Principal, now: Time)
      modifies this
      ensures State() == SaveRecord(old(State()), a, eventType, actor, now)
    {
      rows := rows[a.id := a];
      events := events + [EventFor(a, eventType, actor, now)];
    }

    method GetDetail(id: Id, now: Time) returns (r: Reply)
      modifies this
      ensures (State(), r) == SqlDetail(old(State()), id, now)
    {
      if id !in rows {
        return Err(ApprovalNotFound);
      }
      var row := rows[id];
      if row.status == Pending && now >= row.expiresAt {
        rows := rows[id := ExpiredForm(row)];
        events := events + [EventFor(ExpiredForm(row), "approval.expired", SYSTEM, now)];
      }
      return Ok(rows[id]);
    }

    method GetLive(id: Id, now: Time) returns (r: Reply)
      modifies this
      ensures (State(), r) == SqlGet(old(State()), id, now)
    {
      r := GetDetail(id, now);
      if r.Ok? && r.value.status == Expired {
        return Err(ErrorCode.ExpiredApproval);
      }
    }

    method CreateApproval(a: Approval, principal: Principal, now: Time)
      modifies this, auditLog
      ensures State() == SqlCreate(old(State()), a, principal, now)
    {
      Save(a, "approval.requested", principal, now);
      auditLog.Append(AuditFor(a, "approval.requested", principal, now, "PENDING_APPROVAL",
        "Approval request created."));
    }

    method MoveOn(id: Id, now: Time, status: ApprovalStatus) returns (r: Reply)
      modifies this
      ensures (State(), r) == TransitionPending(old(State()), id, now, status)
    {
      r := GetLive(id, now);
      if r.Err? {
        return;
      }
      if r.value.status != Pending {
        return Err(ApprovalDenied);
      }
      return Ok(r.value.(status := status, version := r.value.version + 1));
    }

    method ApproveOne(id: Id, approver: Principal, now: Time) returns (r: Reply)
      modifies this, auditLog
      ensures (State(), r) == SqlApprove(old(State()), id, approver, now)
    {
      r := MoveOn(id, now, Approved);
      if r.Err? {
        return;
      }
      var a := r.value.(approvedBy := Some(approver.id), approvedAt := Some(now));
      Save(a, "approval.approved", approver, now);
      auditLog.Append(AuditFor(a, "approval.approved", approver, now, "APPROVED", "Approval granted."));
      return Ok(a);
    }

    method RejectOne(id: Id, rejector: Principal, reason: string, now: Time) returns (r: Reply)
      modifies this, auditLog
      ensures (State(), r) == SqlReject(old(State()), id, rejector, reason, now)
    {
      r := MoveOn(id, now, Rejected);
      if r.Err? {
        return;
      }
      var a := r.value.(rejectedBy := Some(rejector.id), rejectedAt := Some(now), failureReason := Some(reason));
      Save(a, "approval.rejected", rejector, now);
      auditLog.Append(AuditFor(a, "approval.rejected", rejector, now, "REJECTED", reason));
      return Ok(a);
    }

    method ExpireAllPending(now: Time)
      requires forall id :: id in rows ==> rows[id].id == id  // approval_id is the primary key
      modifies this
      ensures SqlExpirePending(old(State()), now, State())
    {
      ghost var before := State();
      var todo := set id | id in rows && rows[id].status == Pending && rows[id].expiresAt <= now;
      while exists id :: id in todo
        invariant PartlySwept(before, todo, now, State())
        decreases todo
      {
        var id :| id in todo;
        SweepStep(before, todo, now, State(), id);
        todo := todo - {id};
        var row := ExpiredForm(rows[id]);
        rows := rows[id := row];
        events := events + [EventFor(row, "approval.expired", SYSTEM, now)];
      }
      SweepDone(before, todo, now, State());
    }

    method MarkOneExecuted(id: Id, actor: Principal, now: Time, result: Json) returns (r: Reply)
      modifies this, auditLog
      ensures (State(), r) == SqlMarkExecuted(old(State()), id, actor, now, result)
    {
      r := GetLive(id, now);
      if r.Err? {
        return;
      }
      if r.value.status != Approved {
        return Err(ApprovalDenied);
      }
      var a := r.value.(status := Executed, executedAt := Some(now), executionResult := Some(result),
        version := r.value.version + 1);
      Save(a, "approval.executed", actor, now);
      auditLog.Append(AuditFor(a, "approval.executed", actor, now, "EXECUTED", "Approved operation executed."));
      return Ok(a);
    }

    method MarkOneFailed(id: Id, actor: Principal, now: Time, reason: string) returns (r: Reply)
      modifies this, auditLog
      ensures (State(), r) == SqlMarkFailed(old(State()), id, actor, now, reason)
    {
      if id !in rows {
        return Err(ApprovalNotFound);
      }
      var current := rows[id];
      if current.status !in {Approved, Pending} {
        return Err(ApprovalDenied);
      }
      var a := current.(status := Failed, failureReason := Some(reason), version := current.version + 1);
      Save(a, "approval.failed", actor, now);
      auditLog.Append(AuditFor(a, "approval.failed", actor, now, "FAILED", reason));
      return Ok(a);
    }
  }

  // ---- refinement

  /** The audit records that are not about an expiry. */
  ghost function WithoutExpiries(audit: seq<AuditRecord>): seq<AuditRecord> {
    if |audit| == 0 then []
    else
      var front := WithoutExpiries(audit[..|audit| - 1]);
      if audit[|audit| - 1].toolName == "approval.expired" then front else front + [audit[|audit| - 1]]
  }

  /** Same records, same events per approval, same audit trail up to expiries. */
  ghost predicate Matches(st: ApprovalState, db: Db) {
    && db.rows == st.approvals
    && (forall id :: EventsOf(db.events, id) == EventsOf(st.events, id))
    && db.audit == WithoutExpiries(st.audit)
  }

  lemma AppendAudit(audit: seq<AuditRecord>, r: AuditRecord)
    ensures WithoutExpiries(audit + [r])
         == if r.toolName == "approval.expired" then WithoutExpiries(audit) else WithoutExpiries(audit) + [r]
  {
    assert (audit + [r])[..|audit|] == audit;
  }

  lemma AppendBoth(a: seq<ApprovalEvent>, b: seq<ApprovalEvent>, e: ApprovalEvent)
    requires forall id :: EventsOf(a, id) == EventsOf(b, id)
    ensures forall id :: EventsOf(a + [e], id) == EventsOf(b + [e], id)
  {
    forall id
      ensures EventsOf(a + [e], id) == EventsOf(b + [e], id)
    {
      AppendEvent(a, e, id);
      AppendEvent(b, e, id);
    }
  }

  lemma SaveMatches(
    st: ApprovalState, db: Db, a: Approval, eventType: string, actor: Principal, now: Time, execution: string,
      summary: string)
    requires Matches(st, db) && eventType != "approval.expired"
    ensures Matches(Transition(st, a, eventType, actor, now, execution, summary),
                    AuditTransition(SaveRecord(db, a, eventType, actor, now), a, actor, now, eventType, execution,
                      summary))
  {
    AppendAudit(st.audit, AuditFor(a, eventType, actor, now, execution, summary));
    AppendBoth(st.events, db.events, EventFor(a, eventType, actor, now));
  }

  lemma ExpireMatches(st: ApprovalState, db: Db, id: Id, now: Time)
    requires Invariant(st) && Matches(st, db) && id in st.approvals
    ensures Matches(ExpireIfNeeded(st, id, now), ExpireRow(db, id, now))
  {
    var e := EventFor(ExpiredForm(st.approvals[id]), "approval.expired", SYSTEM, now);
    AppendAudit(st.audit,
      AuditFor(ExpiredForm(st.approvals[id]), "approval.expired", SYSTEM, now, "EXPIRED", "Approval expired."));
    AppendBoth(st.events, db.events, e);
  }

  lemma GetMatches(st: ApprovalState, db: Db, id: Id, now: Time)
    requires Invariant(st) && Matches(st, db)
    ensures Matches(Get(st, id, now).0, SqlGet(db, id, now).0) && Get(st, id, now).1 == SqlGet(db, id, now).1
    ensures Matches(Detail(st, id, now).0, SqlDetail(db, id, now).0)
    ensures Detail(st, id, now).1 == SqlDetail(db, id, now).1
  {
    if id in st.approvals {
      ExpireMatches(st, db, id, now);
    }
  }

  lemma DecisionMatches(st: ApprovalState, db: Db, id: Id, principal: Principal, reason: string, now: Time)
    requires Invariant(st) && Matches(st, db)
    ensures Matches(Approve(st, id, principal, now).0, SqlApprove(db, id, principal, now).0)
    ensures Approve(st, id, principal, now).1 == SqlApprove(db, id, principal, now).1
    ensures Matches(Reject(st, id, principal, reason, now).0, SqlReject(db, id, principal, reason, now).0)
    ensures Reject(st, id, principal, reason, now).1 == SqlReject(db, id, principal, reason, now).1
  {
    GetMatches(st, db, id, now);
    var (st', r) := Get(st, id, now);
    var db' := SqlGet(db, id, now).0;
    if r.Ok? && r.value.status == Pending {
      SaveMatches(st', db', ApprovedForm(r.value, principal.id, now), "approval.approved", principal, now, "APPROVED",
        "Approval granted.");
      SaveMatches(st', db', RejectedForm(r.value, principal.id, reason, now), "approval.rejected", principal, now,
        "REJECTED", reason);
    }
  }

  lemma ExecutedMatches(st: ApprovalState, db: Db, id: Id, actor: Principal, now: Time, result: Json)
    requires Invariant(st) && Matches(st, db)
    ensures Matches(MarkExecuted(st, id, actor, now, result).0, SqlMarkExecuted(db, id, actor, now, result).0)
    ensures MarkExecuted(st, id, actor, now, result).1 == SqlMarkExecuted(db, id, actor, now, result).1
  {
    GetMatches(st, db, id, now);
    var (st', r) := Get(st, id, now);
    if r.Ok? && r.value.status == Approved {
      SaveMatches(st', SqlGet(db, id, now).0, ExecutedForm(r.value, now, result),
                  "approval.executed", actor, now, "EXECUTED", "Approved operation executed.");
    }
  }

  lemma FailedMatches(st: ApprovalState, db: Db, id: Id, actor: Principal, now: Time, reason: string)
    requires Invariant(st) && Matches(st, db)
    ensures Matches(MarkFailed(st, id, actor, now, reason).0, SqlMarkFailed(db, id, actor, now, reason).0)
    ensures MarkFailed(st, id, actor, now, reason).1 == SqlMarkFailed(db, id, actor, now, reason).1
  {
    if id in st.approvals && st.approvals[id].status in {Approved, Pending} {
      SaveMatches(st, db, FailedForm(st.approvals[id], reason), "approval.failed", actor, now, "FAILED", reason);
    }
  }

  /** The in-memory sweep, once it has passed the approvals in `done`. */
  ghost predicate Swept(st: ApprovalState, done: seq<Id>, now: Time, st': ApprovalState) {
    && st'.approvals.Keys == st.approvals.Keys
    && (forall id :: id in st.approvals ==>
          st'.approvals[id] == if id in done then SweptRow(st.approvals[id], now) else st.approvals[id])
    && (forall id ::
          EventsOf(st'.events, id) ==
            if id in done then SweptEvents(EventsOf(st.events, id), st.approvals, id, now) else EventsOf(st.events, id))
    && WithoutExpiries(st'.audit) == WithoutExpiries(st.audit)
  }

  lemma SweepOneRow(st: ApprovalState, done: seq<Id>, now: Time, st': ApprovalState, id: Id)
    requires Invariant(st) && Swept(st, done, now, st') && id in st.approvals && id !in done
    ensures var st'' := ExpireIfNeeded(st', id, now);
      && st''.approvals.Keys == st.approvals.Keys
      && forall other :: other in st.approvals ==>
           st''.approvals[other] ==
             if other in done + [id] then SweptRow(st.approvals[other], now) else st.approvals[other]
  {
    assert st'.approvals[id] == st.approvals[id];
    assert ExpireIfNeeded(st', id, now).approvals == st'.approvals[id := SweptRow(st.approvals[id], now)];
  }

  lemma SweepOneEvents(st: ApprovalState, done: seq<Id>, now: Time, st': ApprovalState, id: Id, other: Id)
    requires Invariant(st) && Swept(st, done, now, st') && id in st.approvals && id !in done
    ensures EventsOf(ExpireIfNeeded(st', id, now).events, other) ==
      if other in done + [id] then SweptEvents(EventsOf(st.events, other), st.approvals, other, now)
        else EventsOf(st.events, other)
  {
    assert ExpiredForm(st.approvals[id]).id == id && st'.approvals[id] == st.approvals[id];
    AppendEvent(st'.events, EventFor(ExpiredForm(st.approvals[id]), "approval.expired", SYSTEM, now), other);
  }

  lemma SweepOne(st: ApprovalState, done: seq<Id>, now: Time, st': ApprovalState, id: Id)
    requires Invariant(st) && Swept(st, done, now, st') && id in st.approvals && id !in done
    ensures Swept(st, done + [id], now, ExpireIfNeeded(st', id, now))
  {
    SweepOneRow(st, done, now, st', id);
    forall other
      ensures EventsOf(ExpireIfNeeded(st', id, now).events, other) ==
        if other in done + [id] then SweptEvents(EventsOf(st.events, other), st.approvals, other, now)
          else EventsOf(st.events, other)
    {
      SweepOneEvents(st, done, now, st', id, other);
    }
    AppendAudit(st'.audit,
      AuditFor(ExpiredForm(st'.approvals[id]), "approval.expired", SYSTEM, now, "EXPIRED", "Approval expired."));
  }

  lemma {:induction false} SweepEffect(st: ApprovalState, n: nat, now: Time)
    requires Invariant(st) && n <= |st.order|
    ensures Swept(st, st.order[..n], now, ExpireFirst(st, st.order[..n], now))
  {
    if n > 0 {
      SweepEffect(st, n - 1, now);
      assert st.order[..n][..n - 1] == st.order[..n - 1];
      assert st.order[..n] == st.order[..n - 1] + [st.order[n - 1]];
      assert st.order[n - 1] in st.order;
      SweepOne(st, st.order[..n - 1], now, ExpireFirst(st, st.order[..n - 1], now), st.order[n - 1]);
    }
  }

  lemma SweepMatches(st: ApprovalState, db: Db, now: Time, db': Db)
    requires Invariant(st) && Matches(st, db) && SqlExpirePending(db, now, db')
    ensures Matches(ExpirePending(st, now), db')
  {
    SweepEffect(st, |st.order|, now);
    assert st.order[..|st.order|] == st.order;
    SweptMatches(st, db, now, db', ExpirePending(st, now));
  }

  lemma SweptRowsMatch(st: ApprovalState, rows: map<Id, Approval>, now: Time, st': ApprovalState)
    requires Invariant(st) && Swept(st, st.order, now, st') && rows == SweptRows(st.approvals, now)
    ensures st'.approvals == rows
  {
    forall id | id in st.approvals
      ensures st'.approvals[id] == rows[id]
    {
      assert id in st.order;
    }
  }

  lemma SweptEventsMatch(st: ApprovalState, now: Time, st': ApprovalState, id: Id)
    requires Invariant(st) && Swept(st, st.order, now, st')
    ensures EventsOf(st'.events, id) == SweptEvents(EventsOf(st.events, id), st.approvals, id, now)
  {
    assert id in st.order <==> id in st.approvals;
  }

  lemma SweptMatches(st: ApprovalState, db: Db, now: Time, db': Db, st': ApprovalState)
    requires Invariant(st) && Matches(st, db) && SqlExpirePending(db, now, db') && Swept(st, st.order, now, st')
    ensures Matches(st', db')
  {
    SweptRowsMatch(st, db'.rows, now, st');
    forall id
      ensures EventsOf(db'.events, id) == EventsOf(st'.events, id)
    {
      SweptEventsMatch(st, now, st', id);
    }
  }

  /** What the table store may do for an operation, and what it answers. */
  ghost predicate SqlStep(db: Db, op: Operation, db': Db, reply: Option<Reply>) {
    match op
    case OpCreate(a, principal, now) => db' == SqlCreate(db, a, principal, now) && reply == None
    case OpDetail(id, now) => (db', reply) == (SqlDetail(db, id, now).0, Some(SqlDetail(db, id, now).1))
    case OpGet(id, now) => (db', reply) == (SqlGet(db, id, now).0, Some(SqlGet(db, id, now).1))
    case OpApprove(id, principal, now) =>
      (db', reply) == (SqlApprove(db, id, principal, now).0, Some(SqlApprove(db, id, principal, now).1))
    case OpReject(id, principal, reason, now) =>
      (db', reply) == (SqlReject(db, id, principal, reason, now).0, Some(SqlReject(db, id, principal, reason, now).1))
    case OpExpirePending(now) => SqlExpirePending(db, now, db') && reply == None
    case OpMarkExecuted(id, principal, now, result) =>
      (db', reply) == (SqlMarkExecuted(db, id, principal, now, result).0,
        Some(SqlMarkExecuted(db, id, principal, now, result).1))
    case OpMarkFailed(id, principal, now, reason) =>
      (db', reply) == (SqlMarkFailed(db, id, principal, now, reason).0,
        Some(SqlMarkFailed(db, id, principal, now, reason).1))
  }

  /** What the in-memory store answers. */
  ghost function ReplyOf(st: ApprovalState, op: Operation): Option<Reply> {
    match op
    case OpCreate(a, principal, now) => None
    case OpDetail(id, now) => Some(Detail(st, id, now).1)
    case OpGet(id, now) => Some(Get(st, id, now).1)
    case OpApprove(id, principal, now) => Some(Approve(st, id, principal, now).1)
    case OpReject(id, principal, reason, now) => Some(Reject(st, id, principal, reason, now).1)
    case OpExpirePending(now) => None
    case OpMarkExecuted(id, principal, now, result) => Some(MarkExecuted(st, id, principal, now, result).1)
    case OpMarkFailed(id, principal, now, reason) => Some(MarkFailed(st, id, principal, now, reason).1)
  }

  lemma StepMatches(st: ApprovalState, db: Db, op: Operation, db': Db, reply: Option<Reply>)
    requires Invariant(st) && Permitted(st, op) && Matches(st, db) && SqlStep(db, op, db', reply)
    ensures Matches(Perform(st, op), db') && reply == ReplyOf(st, op)
  {
    match op
    case OpCreate(a, principal, now) =>
      SaveMatches(st, db, a, "approval.requested", principal, now, "PENDING_APPROVAL", "Approval request created.");
    case OpDetail(id, now) => GetMatches(st, db, id, now);
    case OpGet(id, now) => GetMatches(st, db, id, now);
    case OpApprove(id, principal, now) => DecisionMatches(st, db, id, principal, "", now);
    case OpReject(id, principal, reason, now) => DecisionMatches(st, db, id, principal, reason, now);
    case OpExpirePending(now) => SweepMatches(st, db, now, db');
    case OpMarkExecuted(id, principal, now, result) => ExecutedMatches(st, db, id, principal, now, result);
    case OpMarkFailed(id, principal, now, reason) => FailedMatches(st, db, id, principal, now, reason);
  }

  /** A run of the table store: its successive states and its replies. */
  ghost predicate SqlRun(ops: seq<Operation>, dbs: seq<Db>, replies: seq<Option<Reply>>) {
    && |dbs| == |ops| + 1 && |replies| == |ops|
    && dbs[0] == Db(map[], [], [])
    && forall i :: 0 <= i < |ops| ==> SqlStep(dbs[i], ops[i], dbs[i + 1], replies[i])
  }

  /** For every list of operations the two stores stay matched and answer alike, however the sweeps are ordered. */
  lemma {:induction false} StoresAgree(ops: seq<Operation>, dbs: seq<Db>, replies: seq<Option<Reply>>)
    requires PermittedRun(ops) && SqlRun(ops, dbs, replies)
    ensures Matches(Run(ops), dbs[|ops|])
    ensures |ops| > 0 ==> replies[|ops| - 1] == ReplyOf(Run(ops[..|ops| - 1]), ops[|ops| - 1])
  {
    if |ops| > 0 {
      var n := |ops| - 1;
      assert SqlRun(ops[..n], dbs[..n + 1], replies[..n]);
      StoresAgree(ops[..n], dbs[..n + 1], replies[..n]);
      RunInvariant(ops[..n]);
      StepMatches(Run(ops[..n]), dbs[n], ops[n], dbs[n + 1], replies[n]);
    }
  }
}
