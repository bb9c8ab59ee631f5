/**
 The gateway over the three table stores, for calls made one after another.  It goes
 through the same steps as the gateway over the in-memory stores, but a look-up reads a
 copy of the approval where the other one reads a reference, so the copy still says
 APPROVED when the answer is audited.  A lone call is shown to be answered alike.
 */
module SqlGateway {
  import opened Wrappers
  import opened GatewayTypes
  import opened Approvals
  import opened Idempotency
  import I = Idempotency
  import opened GatewayMachine
  import opened Gateway
  import RateLimiter
  import L = ApprovalLifecycle
  import A = SqlApprovals
  import T = SqlIdempotency
  import M = SqlIdempotencyRuns
  import F = SqlRateLimiter

  datatype Tables = Tables(approvals: A.Db, keys: T.Table, calls: seq<RateLimiter.Call>)

  /** What the database decides by itself: which of equally old rows it deletes, and the order of an expiry sweep. */
  datatype Database = Database(evict: (T.Table, nat) -> T.Table, sweep: (A.Db, Time) -> A.Db)

  ghost predicate WellKeyed(db: A.Db) {
    forall id :: id in db.rows ==> db.rows[id].id == id
  }

  ghost predicate Lawful(d: Database) {
    && (forall all: T.Table, n: nat {:trigger d.evict(all, n)} :: T.KeepsNewest(all, d.evict(all, n), n))
    && (forall db: A.Db, now: Time {:trigger d.sweep(db, now)} :: WellKeyed(db) ==>
      A.SqlExpirePending(db, now, d.sweep(db, now)))
  }

  lemma {:induction false} CanEvict(all: T.Table, n: nat)
    ensures exists kept :: T.KeepsNewest(all, kept, n)
    decreases |all|
  {
    if |all| <= n {
      assert T.KeepsNewest(all, all, n);
    } else {
      var k := T.OldestExists(all);
      var rest := all - {k};
      assert rest.Keys == all.Keys - {k};
      CanEvict(rest, n);
      var kept :| T.KeepsNewest(rest, kept, n);
      assert T.KeepsNewest(all, kept, n);
    }
  }

  lemma {:induction false} CanSweep(before: A.Db, todo: set<Id>, now: Time, db: A.Db)
    requires A.PartlySwept(before, todo, now, db)
    ensures exists db' :: A.SqlExpirePending(before, now, db')
    decreases todo
  {
    if id :| id in todo {
      A.SweepStep(before, todo, now, db, id);
      CanSweep(before, todo - {id}, now, A.ExpireRow(db, id, now));
    } else {
      A.SweepDone(before, todo, now, db);
    }
  }

  ghost function SomeEviction(all: T.Table, n: nat): (kept: T.Table)
    ensures T.KeepsNewest(all, kept, n)
  {
    CanEvict(all, n);
    var kept :| T.KeepsNewest(all, kept, n);
    kept
  }

  ghost function SomeSweep(db: A.Db, now: Time): (db': A.Db)
    ensures WellKeyed(db) ==> A.SqlExpirePending(db, now, db')
  {
    if WellKeyed(db) then
      var todo := set id | id in db.rows && Overdue(db.rows[id], now);
      CanSweep(db, todo, now, db);
      var db' :| A.SqlExpirePending(db, now, db');
      db'
    else db
  }

  /** There is such a database. */
  lemma LawfulDatabase() returns (d: Database)
    ensures Lawful(d)
  {
    d := Database((all: T.Table, n: nat) => SomeEviction(all, n), (db, now) => SomeSweep(db, now));
  }

  /** A call over the tables carries the approval as it read it. */
  datatype TableCall = TableCall(call: ToolCall, read: Option<Approval>)

  function LimitsOfKeys(cfg: Config): M.Limits {
    M.Limits(cfg.idempotencyTtl, cfg.maxEntries)
  }

  function Going(x: TableCall, pc: Pc): TableCall {
    x.(call := x.call.(pc := pc))
  }

  // ---- the steps of a call

  function SqlLimitStep(cfg: Config, t: Tables, x: TableCall): (Tables, TableCall) {
    var c := x.call;
    var tool := ToolOf(cfg, c);
    var check := RateLimiter.Call(RateLimiter.Key(Actor(cfg, c).id, tool.toolName), c.now);
    (t.(calls := F.SqlCheck(t.calls, tool.rateLimit, check)),
     Going(x, if !F.SqlAccepts(t.calls, tool.rateLimit, check) then AtFailAudit(ErrorCode.RateLimitExceeded)
              else if !cfg.validates(tool, TrustedArguments(Sanitized(c), Actor(cfg, c), tool)) then
                AtFailAudit(MalformedArguments)
              else AtReserve))
  }

  function SqlReserveStep(cfg: Config, d: Database, t: Tables, x: TableCall): (Tables, TableCall) {
    var c, k := x.call, KeyOf(cfg, x.call);
    var live := T.Live(t.keys, c.now - cfg.idempotencyTtl);
    match I.Outcome(T.Found(live, k))
    case Replay(response) => (t, Going(x, Done(response, true)))
    case Duplicate => (t, Going(x, AtFailAudit(DuplicateOperation)))
    case Fresh =>
      (t.(keys := d.evict(live[k := Record(c.now, Reserved, None)], cfg.maxEntries)),
       x.(call := c.(pc := AfterReservation(cfg, c), reserved := true)))
  }

  function SqlLookupStep(t: Tables, x: TableCall): (Tables, TableCall) {
    if x.call.request.approvalId.None? then (t, Going(x, AtCreate))
    else
      var (db, r) := A.SqlGet(t.approvals, x.call.request.approvalId.value, x.call.now);
      (t.(approvals := db),
       if r.Err? then Going(x, AtFailAudit(r.error)) else Going(x, AtVerify).(read := Some(r.value)))
  }

  function SqlVerifyStep(cfg: Config, t: Tables, x: TableCall): (Tables, TableCall) {
    var c := x.call;
    if x.read.Some? && ApprovalFits(cfg, c, x.read.value)
    then (t, x.(call := c.(pc := AtMarkRunning, approval := c.request.approvalId)))
    else (t, Going(x, AtFailAudit(MalformedArguments)))
  }

  function Logged(t: Tables, r: AuditRecord): Tables {
    t.(approvals := t.approvals.(audit := t.approvals.audit + [r]))
  }

  function SqlCreateStep(cfg: Config, t: Tables, x: TableCall, id: Id): (Tables, TableCall) {
    var a := RequestedApproval(cfg, x.call, id);
    if id in t.approvals.rows then (t, x)
    else (t.(approvals := A.SqlCreate(t.approvals, a, Actor(cfg, x.call), x.call.now)),
      Going(x, AtPendingAudit(id)).(read := Some(a)))
  }

  function SqlPendingAuditStep(cfg: Config, t: Tables, x: TableCall, id: Id, clock: Time): (Tables, TableCall) {
    var c, tool := x.call, ToolOf(cfg, x.call);
    var status := if x.read.Some? then x.read.value.status else Pending;
    (Logged(t, AuditOf(cfg, c, tool.toolName, clock, PendingApproval, Some(tool.risk), Some(status),
      "PENDING_APPROVAL", "PENDING_APPROVAL")),
     Going(x, Done(Response(true, PendingApproval, c.request.correlationId, tool.toolName,
       PendingBody(id, status, tool.risk)), false)))
  }

  function SqlMarkStep(cfg: Config, t: Tables, x: TableCall, clock: Time): (Tables, TableCall)
    requires x.call.pc.AtMarkFailed? || x.call.pc.AtMarkExecuted?
  {
    var c := x.call;
    match c.pc
    case AtMarkFailed(code) =>
      if c.approval.None? then (t, Going(x, AtFailAudit(code)))
      else
        var (db, r) := A.SqlMarkFailed(t.approvals, c.approval.value, Actor(cfg, c), clock, CodeText(code));
        (t.(approvals := db), Going(x, AtFailAudit(if r.Err? then r.error else code)))
    case AtMarkExecuted(result) =>
      if c.approval.None? then (t, Going(x, AtSuccessAudit(result)))
      else
        var (db, r) := A.SqlMarkExecuted(t.approvals, c.approval.value, Actor(cfg, c), clock, result);
        (t.(approvals := db), Going(x, if r.Err? then AtFailAudit(r.error) else AtSuccessAudit(result)))
  }

  /** A success is audited with the status of the copy that was read before the approval was marked. */
  function SqlSuccessAuditStep(cfg: Config, t: Tables, x: TableCall, result: Json, clock: Time): (Tables, TableCall) {
    var c, tool := x.call, ToolOf(cfg, x.call);
    var status := if c.approval.Some? && x.read.Some? then Some(x.read.value.status) else None;
    (Logged(t, AuditOf(cfg, c, tool.toolName, clock, Allowed, Some(tool.risk), status, "SUCCEEDED", "ALLOWED")),
     Going(x, AtComplete(Response(true, Allowed, c.request.correlationId, tool.toolName, ResultBody(result)),
       Succeeded)))
  }

  function SqlFailAuditStep(cfg: Config, t: Tables, x: TableCall, code: ErrorCode, clock: Time): (Tables, TableCall) {
    var c := x.call;
    var response := Response(false, Denied, c.request.correlationId, c.request.toolName, ErrorBody(code));
    (Logged(t, AuditOf(cfg, c, c.request.toolName, clock, Denied,
      if Known(cfg, c) then Some(ToolOf(cfg, c).risk) else None,
                       None, "DENIED", CodeText(code))),
     Going(x, if c.reserved then AtComplete(response, PermanentFailed) else Done(response, false)))
  }

  function SqlAdvance(cfg: Config, d: Database, t: Tables, x: TableCall, tick: Tick): (Tables, TableCall) {
    match x.call.pc
    case AtLimit => SqlLimitStep(cfg, t, x)
    case AtReserve => SqlReserveStep(cfg, d, t, x)
    case AtLookup => SqlLookupStep(t, x)
    case AtVerify => SqlVerifyStep(cfg, t, x)
    case AtCreate => SqlCreateStep(cfg, t, x, tick.freshId)
    case AtPendingAudit(id) => SqlPendingAuditStep(cfg, t, x, id, tick.clock)
    case AtMarkRunning => (t.(keys := T.RunningRows(t.keys, KeyOf(cfg, x.call))), Going(x, AtDispatch))
    case AtDispatch => (t, x.(call := DispatchStep(cfg, Tid(0), INITIAL.store, x.call, tick.outcome).call))
    case AtMarkFailed(_) => SqlMarkStep(cfg, t, x, tick.clock)
    case AtMarkExecuted(_) => SqlMarkStep(cfg, t, x, tick.clock)
    case AtSuccessAudit(result) => SqlSuccessAuditStep(cfg, t, x, result, tick.clock)
    case AtFailAudit(code) => SqlFailAuditStep(cfg, t, x, code, tick.clock)
    case AtComplete(response, status) =>
      (t.(keys := T.CompletedRows(t.keys, KeyOf(cfg, x.call), response, status, tick.clock)),
        Going(x, Done(response, false)))
    case Done(_, _) => (t, x)
    case Crashed => (t, x)
  }

  /** Run a call over the tables on its own until it ends. */
  function SqlFinish(cfg: Config, d: Database, t: Tables, x: TableCall, env: Environment): (Tables, TableCall)
    decreases Rank(x.call.pc)
  {
    var (t', x') := SqlAdvance(cfg, d, t, x, env(Rank(x.call.pc)));
    if Rank(x'.call.pc) < Rank(x.call.pc) then SqlFinish(cfg, d, t', x', env) else (t, x)
  }

  // ---- stores that agree

  /** The same records, and the same events for each; the audit trails are another matter. */
  ghost predicate SameRecords(st: ApprovalState, db: A.Db) {
    db.rows == st.approvals && forall id :: L.EventsOf(db.events, id) == L.EventsOf(st.events, id)
  }

  /** What the stores have in common when the latest reading of the clock is `last`. */
  ghost predicate Alike(cfg: Config, s: Store, t: Tables, last: Time) {
    && L.Invariant(s.approvals) && SameRecords(s.approvals, t.approvals)
    && M.Matches(s.keys, t.keys) && M.OutlivedByNow(LimitsOfKeys(cfg), s.keys, t.keys, last)
  }

  /** The two stores of keys hold the very same records. */
  ghost predicate Tight(es: Entries, rows: T.Table) {
    forall k {:trigger M.OutlivedRow(es, rows, k)} :: !M.OutlivedRow(es, rows, k)
  }

  /** Where only a call with its key reserved can stand. */
  predicate HoldsKey(pc: Pc) {
    || pc.AtLookup? || pc.AtVerify? || pc.AtCreate? || pc.AtPendingAudit? || pc.AtMarkRunning? || pc.AtDispatch?
    || pc.AtMarkFailed? || pc.AtMarkExecuted? || pc.AtSuccessAudit? || pc.AtComplete?
  }

  ghost predicate CallAlike(s: Store, t: Tables, c: ToolCall, x: TableCall) {
    && x.call == c
    && (c.pc.AtVerify? ==>
          && c.request.approvalId.Some? && c.request.approvalId.value in s.approvals.approvals
          && x.read == Some(s.approvals.approvals[c.request.approvalId.value]))
    && (c.pc.AtPendingAudit? ==>
          c.pc.id in s.approvals.approvals && x.read == Some(s.approvals.approvals[c.pc.id]))
    && (c.pc.AtLimit? || c.pc.AtReserve? ==> !c.reserved)
    && (HoldsKey(c.pc) ==> c.reserved)
    && (c.reserved ==> Tight(s.keys, t.keys))
  }

  // ---- the approval operations

  /** No operation of the table store reads the audit trail. */
  lemma LookUpReadsNoAudit(db: A.Db, id: Id, now: Time, audit: seq<AuditRecord>)
    ensures A.SqlDetail(db.(audit := audit), id, now) ==
      (A.SqlDetail(db, id, now).0.(audit := audit), A.SqlDetail(db, id, now).1)
    ensures A.SqlGet(db.(audit := audit), id, now) ==
      (A.SqlGet(db, id, now).0.(audit := audit), A.SqlGet(db, id, now).1)
  {
  }

  lemma RulingReadsNoAudit(db: A.Db, id: Id, p: Principal, reason: string, now: Time, audit: seq<AuditRecord>)
    ensures var (db', r) := A.SqlApprove(db.(audit := audit), id, p, now);
      (db'.(audit := []), r) == (A.SqlApprove(db, id, p, now).0.(audit := []), A.SqlApprove(db, id, p, now).1)
    ensures var (db', r) := A.SqlReject(db.(audit := audit), id, p, reason, now);
      (db'.(audit := []), r) ==
        (A.SqlReject(db, id, p, reason, now).0.(audit := []), A.SqlReject(db, id, p, reason, now).1)
  {
    LookUpReadsNoAudit(db, id, now, audit);
  }

  lemma MarkReadsNoAudit(
    db: A.Db, id: Id, p: Principal, result: Json, reason: string, now: Time, audit: seq<AuditRecord>)
    ensures var (db', r) := A.SqlMarkExecuted(db.(audit := audit), id, p, now, result);
      (db'.(audit := []), r) ==
        (A.SqlMarkExecuted(db, id, p, now, result).0.(audit := []), A.SqlMarkExecuted(db, id, p, now, result).1)
    ensures var (db', r) := A.SqlMarkFailed(db.(audit := audit), id, p, now, reason);
      (db'.(audit := []), r) ==
        (A.SqlMarkFailed(db, id, p, now, reason).0.(audit := []), A.SqlMarkFailed(db, id, p, now, reason).1)
  {
    LookUpReadsNoAudit(db, id, now, audit);
  }

  lemma AuditIsNotRead(db: A.Db, op: L.Operation, db': A.Db, reply: Option<Reply>, audit: seq<AuditRecord>)
    returns (audit': seq<AuditRecord>)
    requires A.SqlStep(db, op, db', reply)
    ensures A.SqlStep(db.(audit := audit), op, db'.(audit := audit'), reply)
  {
    var db1 := db.(audit := audit);
    match op
    case OpCreate(a, principal, now) => audit' := A.SqlCreate(db1, a, principal, now).audit;
    case OpDetail(id, now) =>
      LookUpReadsNoAudit(db, id, now, audit);
      audit' := audit;
    case OpGet(id, now) =>
      LookUpReadsNoAudit(db, id, now, audit);
      audit' := audit;
    case OpApprove(id, principal, now) =>
      RulingReadsNoAudit(db, id, principal, "", now, audit);
      audit' := A.SqlApprove(db1, id, principal, now).0.audit;
    case OpReject(id, principal, reason, now) =>
      RulingReadsNoAudit(db, id, principal, reason, now, audit);
      audit' := A.SqlReject(db1, id, principal, reason, now).0.audit;
    case OpExpirePending(now) => audit' := audit;
    case OpMarkExecuted(id, principal, now, result) =>
      MarkReadsNoAudit(db, id, principal, result, "", now, audit);
      audit' := A.SqlMarkExecuted(db1, id, principal, now, result).0.audit;
    case OpMarkFailed(id, principal, now, reason) =>
      MarkReadsNoAudit(db, id, principal, JNull, reason, now, audit);
      audit' := A.SqlMarkFailed(db1, id, principal, now, reason).0.audit;
  }

  /** Each operation answers alike and keeps the records the same, whatever the audit trails hold. */
  lemma RecordsStaySame(st: ApprovalState, db: A.Db, op: L.Operation, db': A.Db, reply: Option<Reply>)
    requires L.Invariant(st) && L.Permitted(st, op) && SameRecords(st, db) && A.SqlStep(db, op, db', reply)
    ensures L.Invariant(L.Perform(st, op)) && SameRecords(L.Perform(st, op), db') && reply == A.ReplyOf(st, op)
  {
    var audit' := AuditIsNotRead(db, op, db', reply, A.WithoutExpiries(st.audit));
    A.StepMatches(st, db.(audit := A.WithoutExpiries(st.audit)), op, db'.(audit := audit'), reply);
    L.PerformKeeps(st, op);
  }

  // ---- one step

  ghost predicate StepAlike(cfg: Config, r: StepResult, after: (Tables, TableCall), last: Time) {
    Alike(cfg, r.store, after.0, last) && CallAlike(r.store, after.0, r.call, after.1)
  }

  /** Only the approvals may change, and the call does not stop where it needs more. */
  lemma ApprovalsOnly(
    cfg: Config, s: Store, t: Tables, c: ToolCall, x: TableCall, last: Time, r: StepResult, after: (Tables, TableCall))
    requires Alike(cfg, s, t, last) && CallAlike(s, t, c, x)
    requires r.store.keys == s.keys && after.0.keys == t.keys
    requires L.Invariant(r.store.approvals) && SameRecords(r.store.approvals, after.0.approvals)
    requires after.1.call == r.call && r.call.reserved == c.reserved
    requires !r.call.pc.AtVerify? && !r.call.pc.AtPendingAudit? && !r.call.pc.AtLimit?
    requires (r.call.pc.AtReserve? ==> !c.reserved)
    requires HoldsKey(r.call.pc) ==> c.reserved
    ensures StepAlike(cfg, r, after, last)
  {
  }

  lemma LimitSame(cfg: Config, s: Store, t: Tables, c: ToolCall, x: TableCall, last: Time)
    requires Alike(cfg, s, t, last) && CallAlike(s, t, c, x) && c.pc.AtLimit? && LimiterAlike(cfg, s, t, c)
    ensures StepAlike(cfg, LimitStep(cfg, s, c), SqlLimitStep(cfg, t, x), last)
  {
  }

  /** The limiters answer the call's check alike. */
  ghost predicate LimiterAlike(cfg: Config, s: Store, t: Tables, c: ToolCall) {
    var limit, check := ToolOf(cfg, c).rateLimit,
      RateLimiter.Call(RateLimiter.Key(Actor(cfg, c).id, ToolOf(cfg, c).toolName), c.now);
    RateLimiter.MemoryAccepts(s.calls, limit, check) == F.SqlAccepts(t.calls, limit, check)
  }

  lemma LookupSame(cfg: Config, s: Store, t: Tables, c: ToolCall, x: TableCall, last: Time)
    requires Alike(cfg, s, t, last) && CallAlike(s, t, c, x) && c.pc.AtLookup?
    ensures StepAlike(cfg, LookupStep(cfg, s, c), SqlLookupStep(t, x), last)
  {
    if c.request.approvalId.Some? {
      var id := c.request.approvalId.value;
      var (db, reply) := A.SqlGet(t.approvals, id, c.now);
      RecordsStaySame(s.approvals, t.approvals, L.OpGet(id, c.now), db, Some(reply));
    }
  }

  lemma VerifySame(cfg: Config, s: Store, t: Tables, c: ToolCall, x: TableCall, last: Time)
    requires Alike(cfg, s, t, last) && CallAlike(s, t, c, x) && c.pc.AtVerify?
    ensures StepAlike(cfg, VerifyStep(cfg, s, c), SqlVerifyStep(cfg, t, x), last)
  {
    ApprovalsOnly(cfg, s, t, c, x, last, VerifyStep(cfg, s, c), SqlVerifyStep(cfg, t, x));
  }

  lemma CreateSame(
    cfg: Config, tid: Tid, s: Store, t: Tables, c: ToolCall, x: TableCall, last: Time, id: Id)
    requires Alike(cfg, s, t, last) && CallAlike(s, t, c, x) && c.pc.AtCreate? && id !in s.approvals.approvals
    ensures StepAlike(cfg, CreateStep(cfg, tid, s, c, id), SqlCreateStep(cfg, t, x, id), last)
  {
    var a := RequestedApproval(cfg, c, id);
    RecordsStaySame(s.approvals, t.approvals, L.OpCreate(a, Actor(cfg, c), c.now),
                    A.SqlCreate(t.approvals, a, Actor(cfg, c), c.now), None);
  }

  lemma AuditSame(cfg: Config, s: Store, t: Tables, c: ToolCall, x: TableCall, last: Time, clock: Time)
    requires Alike(cfg, s, t, last) && CallAlike(s, t, c, x)
    ensures c.pc.AtPendingAudit? ==>
      StepAlike(cfg, PendingAuditStep(cfg, s, c, c.pc.id, clock), SqlPendingAuditStep(cfg, t, x, c.pc.id, clock), last)
    ensures c.pc.AtFailAudit? ==>
      StepAlike(cfg, FailAuditStep(cfg, s, c, c.pc.code, clock), SqlFailAuditStep(cfg, t, x, c.pc.code, clock), last)
  {
    if c.pc.AtPendingAudit? {
      ApprovalsOnly(cfg, s, t, c, x, last, PendingAuditStep(cfg, s, c, c.pc.id, clock),
        SqlPendingAuditStep(cfg, t, x, c.pc.id, clock));
    } else if c.pc.AtFailAudit? {
      ApprovalsOnly(cfg, s, t, c, x, last, FailAuditStep(cfg, s, c, c.pc.code, clock),
        SqlFailAuditStep(cfg, t, x, c.pc.code, clock));
    }
  }

  lemma SuccessSame(cfg: Config, s: Store, t: Tables, c: ToolCall, x: TableCall, last: Time, clock: Time)
    requires Alike(cfg, s, t, last) && CallAlike(s, t, c, x) && c.pc.AtSuccessAudit?
    ensures StepAlike(cfg, SuccessAuditStep(cfg, s, c, c.pc.result, clock),
      SqlSuccessAuditStep(cfg, t, x, c.pc.result, clock), last)
  {
    ApprovalsOnly(cfg, s, t, c, x, last, SuccessAuditStep(cfg, s, c, c.pc.result, clock),
      SqlSuccessAuditStep(cfg, t, x, c.pc.result, clock));
  }

  lemma MarkSame(cfg: Config, s: Store, t: Tables, c: ToolCall, x: TableCall, last: Time, clock: Time)
    requires Alike(cfg, s, t, last) && CallAlike(s, t, c, x)
    ensures c.pc.AtMarkFailed? ==>
      StepAlike(cfg, MarkFailedStep(cfg, Tid(0), s, c, c.pc.code, clock), SqlMarkStep(cfg, t, x, clock), last)
    ensures c.pc.AtMarkExecuted? ==>
      StepAlike(cfg, MarkExecutedStep(cfg, Tid(0), s, c, c.pc.result, clock), SqlMarkStep(cfg, t, x, clock), last)
  {
    if c.pc.AtMarkFailed? {
      MarkFailedSame(cfg, s, t, c, x, last, clock);
    } else if c.pc.AtMarkExecuted? {
      MarkExecutedSame(cfg, s, t, c, x, last, clock);
    }
  }

  lemma MarkFailedSame(cfg: Config, s: Store, t: Tables, c: ToolCall, x: TableCall, last: Time, clock: Time)
    requires Alike(cfg, s, t, last) && CallAlike(s, t, c, x) && c.pc.AtMarkFailed?
    ensures StepAlike(cfg, MarkFailedStep(cfg, Tid(0), s, c, c.pc.code, clock), SqlMarkStep(cfg, t, x, clock), last)
  {
    if c.approval.Some? {
      var id, p, reason := c.approval.value, Actor(cfg, c), CodeText(c.pc.code);
      var (db, reply) := A.SqlMarkFailed(t.approvals, id, p, clock, reason);
      RecordsStaySame(s.approvals, t.approvals, L.OpMarkFailed(id, p, clock, reason), db, Some(reply));
    }
    ApprovalsOnly(cfg, s, t, c, x, last, MarkFailedStep(cfg, Tid(0), s, c, c.pc.code, clock),
      SqlMarkStep(cfg, t, x, clock));
  }

  lemma MarkExecutedSame(cfg: Config, s: Store, t: Tables, c: ToolCall, x: TableCall, last: Time, clock: Time)
    requires Alike(cfg, s, t, last) && CallAlike(s, t, c, x) && c.pc.AtMarkExecuted?
    ensures StepAlike(cfg, MarkExecutedStep(cfg, Tid(0), s, c, c.pc.result, clock), SqlMarkStep(cfg, t, x, clock), last)
  {
    if c.approval.Some? {
      var id, p := c.approval.value, Actor(cfg, c);
      var (db, reply) := A.SqlMarkExecuted(t.approvals, id, p, clock, c.pc.result);
      RecordsStaySame(s.approvals, t.approvals, L.OpMarkExecuted(id, p, clock, c.pc.result), db, Some(reply));
    }
    ApprovalsOnly(cfg, s, t, c, x, last, MarkExecutedStep(cfg, Tid(0), s, c, c.pc.result, clock),
      SqlMarkStep(cfg, t, x, clock));
  }

  // ---- the steps on the idempotency key

  lemma TableIsTight(es: Entries)
    ensures Tight(es, T.TableOf(es))
  {
    forall k
      ensures !M.OutlivedRow(es, T.TableOf(es), k)
    {
      T.TableIsLookup(es, k);
    }
  }

  /** What a reservation leaves of matching stores. */
  lemma KeysAfterReserve(cfg: Config, es: Entries, rows: T.Table, k: IdempotencyKey, now: Time, rows': T.Table)
    requires M.Matches(es, rows) && M.OutlivedByNow(LimitsOfKeys(cfg), es, rows, now)
    requires M.Untied(LimitsOfKeys(cfg), es, rows, M.OpReserve(k, now))
    requires M.SqlStep(LimitsOfKeys(cfg), rows, M.OpReserve(k, now), rows')
    ensures var es' := ReserveEntries(es, k, now, cfg.idempotencyTtl, cfg.maxEntries);
      && M.Matches(es', rows') && M.OutlivedByNow(LimitsOfKeys(cfg), es', rows', now)
      && ReserveOutcomeOf(es, k, now, cfg.idempotencyTtl) ==
        I.Outcome(T.Found(T.Live(rows, now - cfg.idempotencyTtl), k))
      && (ReserveOutcomeOf(es, k, now, cfg.idempotencyTtl) == Fresh ==> Tight(es', rows'))
  {
    var lim, op := LimitsOfKeys(cfg), M.OpReserve(k, now);
    M.UntiedIsFaithful(lim, es, rows, now, op);
    M.ReservationAgreesIff(lim, es, rows, k, now);
    M.StepKeepsMatch(lim, es, rows, op, rows');
    M.StepKeepsOutlived(lim, es, rows, now, op, rows');
    if ReserveOutcomeOf(es, k, now, cfg.idempotencyTtl) == Fresh {
      M.FreshOutlivesNothing(lim, es, rows, now, k, now, rows');
      TableIsTight(ReserveEntries(es, k, now, cfg.idempotencyTtl, cfg.maxEntries));
    }
  }

  lemma ReserveIsSqlStep(cfg: Config, d: Database, t: Tables, x: TableCall)
    requires Lawful(d)
    ensures M.SqlStep(LimitsOfKeys(cfg), t.keys, M.OpReserve(KeyOf(cfg, x.call), x.call.now),
      SqlReserveStep(cfg, d, t, x).0.keys)
  {
    var all := M.InsertedRows(LimitsOfKeys(cfg), t.keys, KeyOf(cfg, x.call), x.call.now);
    assert T.KeepsNewest(all, d.evict(all, cfg.maxEntries), cfg.maxEntries);
  }

  lemma ReserveSame(cfg: Config, d: Database, s: Store, t: Tables, c: ToolCall, x: TableCall)
    requires Lawful(d) && Alike(cfg, s, t, c.now) && CallAlike(s, t, c, x) && c.pc.AtReserve?
    requires M.Untied(LimitsOfKeys(cfg), s.keys, t.keys, M.OpReserve(KeyOf(cfg, c), c.now))
    ensures StepAlike(cfg, ReserveStep(cfg, Tid(0), s, c), SqlReserveStep(cfg, d, t, x), c.now)
  {
    var (t', x') := SqlReserveStep(cfg, d, t, x);
    ReserveIsSqlStep(cfg, d, t, x);
    KeysAfterReserve(cfg, s.keys, t.keys, KeyOf(cfg, c), c.now, t'.keys);
  }

  lemma PutStaysTight(es: Entries, rows: T.Table, k: IdempotencyKey, r: Record)
    requires DistinctKeys(es) && Tight(es, rows)
    ensures Tight(Put(es, k, r), rows[k := r])
  {
    var es', rows' := Put(es, k, r), rows[k := r];
    forall j
      ensures !M.OutlivedRow(es', rows', j)
    {
      LookupPut(es, k, r, j);
      assert !M.OutlivedRow(es, rows, j);
    }
  }

  lemma RunningStaysTight(es: Entries, rows: T.Table, k: IdempotencyKey)
    requires M.Matches(es, rows) && Tight(es, rows)
    ensures Tight(MarkRunningEntries(es, k), T.RunningRows(rows, k))
  {
    assert !M.OutlivedRow(es, rows, k);
    if Lookup(es, k).Some? {
      assert T.Found(rows, k) == Lookup(es, k);
      PutStaysTight(es, rows, k, Lookup(es, k).value.(status := Running));
    }
  }

  lemma CompletionStaysTight(
    es: Entries, rows: T.Table, k: IdempotencyKey, response: Response, status: OperationStatus, now: Time)
    requires M.Matches(es, rows) && Tight(es, rows)
    ensures Tight(CompleteEntries(es, k, response, status, now), T.CompletedRows(rows, k, response, status, now))
  {
    var found := Lookup(es, k);
    assert !M.OutlivedRow(es, rows, k);
    assert found.Some? ==> T.Found(rows, k) == found;
    PutStaysTight(es, rows, k, Record(if found.Some? then found.value.createdAt else now, status, Some(response)));
  }

  lemma RunningSame(cfg: Config, s: Store, t: Tables, c: ToolCall, x: TableCall, last: Time, tick: Tick)
    requires Alike(cfg, s, t, last) && CallAlike(s, t, c, x) && c.pc.AtMarkRunning?
    ensures StepAlike(cfg, Goto(s.(keys := MarkRunningEntries(s.keys, KeyOf(cfg, c))), c, AtDispatch),
                      (t.(keys := T.RunningRows(t.keys, KeyOf(cfg, c))), Going(x, AtDispatch)), last)
  {
    var lim, k := LimitsOfKeys(cfg), KeyOf(cfg, c);
    M.StepKeepsMatch(lim, s.keys, t.keys, M.OpMarkRunning(k), T.RunningRows(t.keys, k));
    M.StepKeepsOutlived(lim, s.keys, t.keys, last, M.OpMarkRunning(k), T.RunningRows(t.keys, k));
    if c.reserved {
      RunningStaysTight(s.keys, t.keys, k);
    }
  }

  lemma CompleteSame(cfg: Config, s: Store, t: Tables, c: ToolCall, x: TableCall, last: Time, clock: Time)
    requires Alike(cfg, s, t, last) && CallAlike(s, t, c, x) && c.pc.AtComplete?
    ensures StepAlike(cfg, CompleteStep(cfg, s, c, c.pc.response, c.pc.status, clock),
                      (t.(keys := T.CompletedRows(t.keys, KeyOf(cfg, c), c.pc.response, c.pc.status, clock)),
                       Going(x, Done(c.pc.response, false))), last)
  {
    var lim, k := LimitsOfKeys(cfg), KeyOf(cfg, c);
    var op, rows' := M.OpComplete(k, c.pc.response, c.pc.status, clock),
      T.CompletedRows(t.keys, k, c.pc.response, c.pc.status, clock);
    assert !M.OutlivedRow(s.keys, t.keys, k);
    M.StepKeepsMatch(lim, s.keys, t.keys, op, rows');
    M.StepKeepsOutlived(lim, s.keys, t.keys, last, op, rows');
    CompletionStaysTight(s.keys, t.keys, k, c.pc.response, c.pc.status, clock);
  }

  // ---- a whole call

  /**
   What one call asks of the stores it finds: agreement of the limiters and no timestamp tie at
   the cut of its eviction.
   */
  ghost predicate Ready(cfg: Config, s: Store, t: Tables, c: ToolCall) {
    && (c.pc.AtLimit? ==> LimiterAlike(cfg, s, t, c))
    && (c.pc.AtLimit? || c.pc.AtReserve? ==>
          M.Untied(LimitsOfKeys(cfg), s.keys, t.keys, M.OpReserve(KeyOf(cfg, c), c.now)))
  }

  lemma DispatchSame(cfg: Config, s: Store, t: Tables, c: ToolCall, x: TableCall, last: Time, outcome: Outcome)
    requires Alike(cfg, s, t, last) && CallAlike(s, t, c, x) && c.pc.AtDispatch?
    ensures StepAlike(cfg, DispatchStep(cfg, Tid(0), s, c, outcome),
                      (t, x.(call := DispatchStep(cfg, Tid(0), INITIAL.store, c, outcome).call)), last)
  {
    ApprovalsOnly(cfg, s, t, c, x, last, DispatchStep(cfg, Tid(0), s, c, outcome),
                  (t, x.(call := DispatchStep(cfg, Tid(0), INITIAL.store, c, outcome).call)));
  }

  lemma EarlyStepSame(cfg: Config, d: Database, s: Store, t: Tables, c: ToolCall, x: TableCall, tick: Tick)
    requires Lawful(d) && Alike(cfg, s, t, c.now) && CallAlike(s, t, c, x) && Ready(cfg, s, t, c)
    requires c.pc.AtLimit? || c.pc.AtReserve? || c.pc.AtLookup? || c.pc.AtVerify? || c.pc.AtCreate?
    ensures StepAlike(cfg, Advance(cfg, Tid(0), s, c, tick), SqlAdvance(cfg, d, t, x, tick), c.now)
  {
    if c.pc.AtLimit? {
      LimitSame(cfg, s, t, c, x, c.now);
    } else if c.pc.AtReserve? {
      ReserveSame(cfg, d, s, t, c, x);
    } else if c.pc.AtLookup? {
      LookupSame(cfg, s, t, c, x, c.now);
    } else if c.pc.AtVerify? {
      VerifySame(cfg, s, t, c, x, c.now);
    } else if tick.freshId !in s.approvals.approvals {
      CreateSame(cfg, Tid(0), s, t, c, x, c.now, tick.freshId);
    }
  }

  lemma LateStepSame(cfg: Config, d: Database, s: Store, t: Tables, c: ToolCall, x: TableCall, tick: Tick)
    requires Alike(cfg, s, t, c.now) && CallAlike(s, t, c, x)
    requires !(c.pc.AtLimit? || c.pc.AtReserve? || c.pc.AtLookup? || c.pc.AtVerify? || c.pc.AtCreate?)
    ensures StepAlike(cfg, Advance(cfg, Tid(0), s, c, tick), SqlAdvance(cfg, d, t, x, tick), c.now)
  {
    if c.pc.AtPendingAudit? || c.pc.AtFailAudit? {
      AuditSame(cfg, s, t, c, x, c.now, tick.clock);
    } else if c.pc.AtMarkRunning? {
      RunningSame(cfg, s, t, c, x, c.now, tick);
    } else if c.pc.AtDispatch? {
      DispatchSame(cfg, s, t, c, x, c.now, tick.outcome);
    } else if c.pc.AtMarkFailed? || c.pc.AtMarkExecuted? {
      MarkSame(cfg, s, t, c, x, c.now, tick.clock);
    } else if c.pc.AtSuccessAudit? {
      SuccessSame(cfg, s, t, c, x, c.now, tick.clock);
    } else if c.pc.AtComplete? {
      CompleteSame(cfg, s, t, c, x, c.now, tick.clock);
    }
  }

  /** A step goes on with the same request and does not come back to the limiter. */
  ghost predicate MovesOn(c: ToolCall, c': ToolCall) {
    && c'.request == c.request && c'.now == c.now
    && (c'.pc.AtLimit? ==> c.pc.AtLimit? && c' == c) && (c'.pc.AtReserve? ==> c.pc.AtLimit? || c' == c)
  }

  lemma EarlyMovesOn(cfg: Config, s: Store, c: ToolCall, tick: Tick)
    requires c.pc.AtLimit? || c.pc.AtReserve? || c.pc.AtLookup? || c.pc.AtVerify? || c.pc.AtCreate?
    ensures var r := Advance(cfg, Tid(0), s, c, tick);
      MovesOn(c, r.call) && (c.pc.AtLimit? || r.store.calls == s.calls)
        && (c.pc.AtLimit? ==> r.store.keys == s.keys && r.call.pc != AtLimit)
  {
  }

  lemma LateMovesOn(cfg: Config, s: Store, c: ToolCall, tick: Tick)
    requires !(c.pc.AtLimit? || c.pc.AtReserve? || c.pc.AtLookup? || c.pc.AtVerify? || c.pc.AtCreate?)
    ensures var r := Advance(cfg, Tid(0), s, c, tick);
      MovesOn(c, r.call) && r.store.calls == s.calls
  {
  }

  lemma TablesCalls(cfg: Config, d: Database, t: Tables, x: TableCall, tick: Tick)
    ensures !x.call.pc.AtLimit? ==> SqlAdvance(cfg, d, t, x, tick).0.calls == t.calls
    ensures x.call.pc.AtLimit? ==> SqlAdvance(cfg, d, t, x, tick).0.keys == t.keys
  {
  }

  lemma StaysReady(cfg: Config, s: Store, t: Tables, c: ToolCall, r: StepResult, t': Tables)
    requires Ready(cfg, s, t, c) && MovesOn(c, r.call)
    requires c.pc.AtLimit? ==> r.store.keys == s.keys && t'.keys == t.keys && r.call.pc != AtLimit
    requires r.call == c ==> r.store == s && t' == t
    ensures Ready(cfg, r.store, t', r.call)
  {
    assert KeyOf(cfg, r.call) == KeyOf(cfg, c);
  }

  /** A lone call is answered alike and leaves the stores alike. */
  lemma {:induction false} CallSame(
    cfg: Config, d: Database, s: Store, t: Tables, c: ToolCall, x: TableCall, env: Environment)
    requires Lawful(d) && Alike(cfg, s, t, c.now) && CallAlike(s, t, c, x) && Ready(cfg, s, t, c)
    ensures Alike(cfg, Finish(cfg, s, c, env).0, SqlFinish(cfg, d, t, x, env).0, c.now)
    ensures SqlFinish(cfg, d, t, x, env).1.call == Finish(cfg, s, c, env).1
    decreases Rank(c.pc)
  {
    var tick := env(Rank(c.pc));
    var r, after := StepOf(cfg, s, c, env), SqlAdvance(cfg, d, t, x, tick);
    if c.pc.AtLimit? || c.pc.AtReserve? || c.pc.AtLookup? || c.pc.AtVerify? || c.pc.AtCreate? {
      EarlyStepSame(cfg, d, s, t, c, x, tick);
      EarlyMovesOn(cfg, s, c, tick);
    } else {
      LateStepSame(cfg, d, s, t, c, x, tick);
      LateMovesOn(cfg, s, c, tick);
    }
    TablesCalls(cfg, d, t, x, tick);
    if Rank(r.call.pc) < Rank(c.pc) {
      StaysReady(cfg, s, t, c, r, after.0);
      CallSame(cfg, d, r.store, after.0, r.call, after.1, env);
    }
  }
}
