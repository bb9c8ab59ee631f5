/**
 The two gateways over whole runs of calls, rulings, listings and readings made one after
 another: with one window for all rate limits, calls that start in clock order and no
 timestamp tie at an eviction's cut, every one of them is answered alike.
 */
module SqlGatewayRuns {
  import opened Wrappers
  import opened GatewayTypes
  import opened Approvals
  import opened Idempotency
  import opened GatewayMachine
  import opened Gateway
  import opened SqlGateway
  import opened RateLimiter
  import G = GatewayLimits
  import L = ApprovalLifecycle
  import A = SqlApprovals
  import T = SqlIdempotency
  import M = SqlIdempotencyRuns
  import F = SqlRateLimiter

  datatype Turn =
    | Calling(request: Request, now: Time, env: Environment)
    | Deciding(authToken: string, id: Id, verb: Verb, now: Time)
    | Listing(authToken: string, now: Time)
    | Reading(authToken: string, id: Id, now: Time)

  /** What a caller gets to see; of a listing its records, whatever their order. */
  datatype Sight =
    | Responded(response: Option<Response>)
    | Replied(reply: Reply)
    | Shown(records: Result<map<Id, Approval>, ErrorCode>)

  // ---- one turn

  function Decide(st: ApprovalState, p: Principal, id: Id, verb: Verb, now: Time): (ApprovalState, Reply) {
    match verb
    case Approving => Approve(st, id, p, now)
    case Rejecting(reason) => Reject(st, id, p, reason, now)
  }

  function Ruled(cfg: Config, st: ApprovalState, p: Principal, id: Id, verb: Verb, now: Time): (ApprovalState, Reply) {
    var (st', r) := Get(st, id, now);
    if r.Err? then (st', r)
    else if !MayApprove(cfg, p, r.value.requesterId) then (st', Err(PermissionDenied))
    else Decide(st', p, id, verb, now)
  }

  /** It is what approve_operation and reject_operation do. */
  lemma RuledIsRuling(cfg: Config, s: Store, p: Principal, id: Id, verb: Verb, now: Time)
    ensures var first := Rule(cfg, s, Ruling(p, id, verb, now, AtGet));
      var second := Rule(cfg, first.store, first.ruling);
      var (st', reply) := Ruled(cfg, s.approvals, p, id, verb, now);
      second.store == s.(approvals := st') && second.ruling.pc == RulingPc.Ruled(reply)
  {
  }

  function Serve(cfg: Config, s: Store, turn: Turn): (Store, Sight) {
    match turn
    case Calling(request, now, env) =>
      var (s', c') := Finish(cfg, s, Entering(cfg, request, now), env);
      (s', Responded(Answer(c')))
    case Deciding(authToken, id, verb, now) =>
      var p := cfg.authenticate(authToken);
      if p.None? then (s, Replied(Err(ErrorCode.AuthenticationFailed)))
      else
        var (st', reply) := Ruled(cfg, s.approvals, p.value, id, verb, now);
        (s.(approvals := st'), Replied(reply))
    case Listing(authToken, now) =>
      if !MayRead(cfg, authToken) then (s, Shown(Err(ReadRefusal(cfg, authToken))))
      else
        var st' := ExpirePending(s.approvals, now);
        (s.(approvals := st'), Shown(Ok(st'.approvals)))
    case Reading(authToken, id, now) =>
      if !MayRead(cfg, authToken) then (s, Replied(Err(ReadRefusal(cfg, authToken))))
      else
        var (st', reply) := Detail(s.approvals, id, now);
        (s.(approvals := st'), Replied(reply))
  }

  /** Listing and reading are for those who may approve; the others are told why not, and nothing happens. */
  lemma ReadingIsGuarded(cfg: Config, s: Store, turn: Turn)
    requires turn.Listing? || turn.Reading?
    ensures var p, (s', sight) := cfg.authenticate(turn.authToken), Serve(cfg, s, turn);
      if p.Some? && cfg.permits(p.value.role, "approvals:approve") then
        && s' == s.(approvals := s'.approvals)
        && (turn.Listing? ==>
              s'.approvals == ExpirePending(s.approvals, turn.now) && sight == Shown(Ok(s'.approvals.approvals)))
        && (turn.Reading? ==> (s'.approvals, sight.reply) == Detail(s.approvals, turn.id, turn.now) && sight.Replied?)
      else
        var code := if p.None? then ErrorCode.AuthenticationFailed else PermissionDenied;
        s' == s && sight == if turn.Listing? then Shown(Err(code)) else Replied(Err(code))
  {
  }

  function SqlDecide(db: A.Db, p: Principal, id: Id, verb: Verb, now: Time): (A.Db, Reply) {
    match verb
    case Approving => A.SqlApprove(db, id, p, now)
    case Rejecting(reason) => A.SqlReject(db, id, p, reason, now)
  }

  function SqlRuled(cfg: Config, db: A.Db, p: Principal, id: Id, verb: Verb, now: Time): (A.Db, Reply) {
    var (db', r) := A.SqlGet(db, id, now);
    if r.Err? then (db', r)
    else if !MayApprove(cfg, p, r.value.requesterId) then (db', Err(PermissionDenied))
    else SqlDecide(db', p, id, verb, now)
  }

  function SqlServe(cfg: Config, d: Database, t: Tables, turn: Turn): (Tables, Sight) {
    match turn
    case Calling(request, now, env) =>
      var (t', x') := SqlFinish(cfg, d, t, TableCall(Entering(cfg, request, now), None), env);
      (t', Responded(Answer(x'.call)))
    case Deciding(authToken, id, verb, now) =>
      var p := cfg.authenticate(authToken);
      if p.None? then (t, Replied(Err(ErrorCode.AuthenticationFailed)))
      else
        var (db, reply) := SqlRuled(cfg, t.approvals, p.value, id, verb, now);
        (t.(approvals := db), Replied(reply))
    case Listing(authToken, now) =>
      if !MayRead(cfg, authToken) then (t, Shown(Err(ReadRefusal(cfg, authToken))))
      else
        var db := d.sweep(t.approvals, now);
        (t.(approvals := db), Shown(Ok(db.rows)))
    case Reading(authToken, id, now) =>
      if !MayRead(cfg, authToken) then (t, Replied(Err(ReadRefusal(cfg, authToken))))
      else
        var (db, reply) := A.SqlDetail(t.approvals, id, now);
        (t.(approvals := db), Replied(reply))
  }

  // ---- turns that are no calls

  lemma RuledSame(cfg: Config, st: ApprovalState, db: A.Db, p: Principal, id: Id, verb: Verb, now: Time)
    requires L.Invariant(st) && SameRecords(st, db)
    ensures var (st', r) := Ruled(cfg, st, p, id, verb, now);
      var (db', r') := SqlRuled(cfg, db, p, id, verb, now);
      r' == r && L.Invariant(st') && SameRecords(st', db')
  {
    var (db1, r1) := A.SqlGet(db, id, now);
    RecordsStaySame(st, db, L.OpGet(id, now), db1, Some(r1));
    DecidedSame(L.Perform(st, L.OpGet(id, now)), db1, p, id, verb, now);
  }

  lemma DecidedSame(st: ApprovalState, db: A.Db, p: Principal, id: Id, verb: Verb, now: Time)
    requires L.Invariant(st) && SameRecords(st, db)
    ensures var (st', r) := Decide(st, p, id, verb, now);
      var (db', r') := SqlDecide(db, p, id, verb, now);
      r' == r && L.Invariant(st') && SameRecords(st', db')
  {
    var (db', r') := SqlDecide(db, p, id, verb, now);
    match verb
    case Approving => RecordsStaySame(st, db, L.OpApprove(id, p, now), db', Some(r'));
    case Rejecting(reason) => RecordsStaySame(st, db, L.OpReject(id, p, reason, now), db', Some(r'));
  }

  lemma SweepSame(d: Database, st: ApprovalState, db: A.Db, now: Time)
    requires Lawful(d) && L.Invariant(st) && SameRecords(st, db)
    ensures L.Invariant(ExpirePending(st, now)) && SameRecords(ExpirePending(st, now), d.sweep(db, now))
  {
    assert WellKeyed(db);
    RecordsStaySame(st, db, L.OpExpirePending(now), d.sweep(db, now), None);
  }

  lemma OtherTurnSame(cfg: Config, d: Database, s: Store, t: Tables, last: Time, turn: Turn)
    requires Lawful(d) && Alike(cfg, s, t, last) && !turn.Calling?
    ensures var (s', a) := Serve(cfg, s, turn);
      var (t', a') := SqlServe(cfg, d, t, turn);
      a' == a && Alike(cfg, s', t', last) && s'.calls == s.calls && t'.calls == t.calls
  {
    match turn
    case Deciding(authToken, id, verb, now) =>
      if cfg.authenticate(authToken).Some? {
        RuledSame(cfg, s.approvals, t.approvals, cfg.authenticate(authToken).value, id, verb, now);
      }
    case Listing(authToken, now) => SweepSame(d, s.approvals, t.approvals, now);
    case Reading(authToken, id, now) =>
      var (db, r) := A.SqlDetail(t.approvals, id, now);
      RecordsStaySame(s.approvals, t.approvals, L.OpDetail(id, now), db, Some(r));
  }

  // ---- the limiters over a run

  lemma {:induction false} FinishKeepsCalls(cfg: Config, s: Store, c: ToolCall, env: Environment)
    requires !c.pc.AtLimit?
    ensures Finish(cfg, s, c, env).0.calls == s.calls
    decreases Rank(c.pc)
  {
    var r := StepOf(cfg, s, c, env);
    if Rank(r.call.pc) < Rank(c.pc) {
      if c.pc.AtReserve? || c.pc.AtLookup? || c.pc.AtVerify? || c.pc.AtCreate? {
        EarlyMovesOn(cfg, s, c, env(Rank(c.pc)));
      } else {
        LateMovesOn(cfg, s, c, env(Rank(c.pc)));
      }
      FinishKeepsCalls(cfg, r.store, r.call, env);
    }
  }

  /** The call of a table call never stands at the limiter again. */
  lemma {:induction false} SqlFinishKeepsCalls(cfg: Config, d: Database, t: Tables, x: TableCall, env: Environment)
    requires !x.call.pc.AtLimit?
    ensures SqlFinish(cfg, d, t, x, env).0.calls == t.calls
    decreases Rank(x.call.pc)
  {
    var (t', x') := SqlAdvance(cfg, d, t, x, env(Rank(x.call.pc)));
    if Rank(x'.call.pc) < Rank(x.call.pc) {
      TablesCalls(cfg, d, t, x, env(Rank(x.call.pc)));
      SqlFinishKeepsCalls(cfg, d, t', x', env);
    }
  }

  /** One call makes one check, if it is admitted. */
  lemma CallsAfter(cfg: Config, s: Store, c: ToolCall, env: Environment)
    requires c.pc.AtLimit?
    ensures Finish(cfg, s, c, env).0.calls == MemoryCheck(s.calls, ToolOf(cfg, c).rateLimit, G.CheckOf(cfg, c))
  {
    var r := LimitStep(cfg, s, c);
    assert StepOf(cfg, s, c, env) == r;
    FinishKeepsCalls(cfg, r.store, r.call, env);
  }

  lemma SqlCallsAfter(cfg: Config, d: Database, t: Tables, x: TableCall, env: Environment)
    requires x.call.pc.AtLimit?
    ensures SqlFinish(cfg, d, t, x, env).0.calls ==
      F.SqlCheck(t.calls, ToolOf(cfg, x.call).rateLimit, G.CheckOf(cfg, x.call))
  {
    var after := SqlLimitStep(cfg, t, x);
    assert SqlAdvance(cfg, d, t, x, env(Rank(x.call.pc))) == after;
    SqlFinishKeepsCalls(cfg, d, after.0, after.1, env);
  }

  // ---- runs

  const NOTHING := Tables(A.Db(map[], [], []), map[], [])

  function After(cfg: Config, turns: seq<Turn>): Store {
    if |turns| == 0 then INITIAL.store else Serve(cfg, After(cfg, turns[..|turns| - 1]), turns[|turns| - 1]).0
  }

  function SqlAfter(cfg: Config, d: Database, turns: seq<Turn>): Tables {
    if |turns| == 0 then NOTHING else SqlServe(cfg, d, SqlAfter(cfg, d, turns[..|turns| - 1]), turns[|turns| - 1]).0
  }

  /** The clock reading of the latest call, none earlier than `start`. */
  function Latest(turns: seq<Turn>, start: Time): Time {
    if |turns| == 0 then start
    else if turns[|turns| - 1].Calling? then turns[|turns| - 1].now
    else Latest(turns[..|turns| - 1], start)
  }

  /** Calls start on a clock that never goes back. */
  predicate InClockOrder(turns: seq<Turn>, start: Time) {
    |turns| > 0 ==>
      InClockOrder(turns[..|turns| - 1], start) && Latest(turns[..|turns| - 1], start) <= Latest(turns, start)
  }

  /** No reservation of the run meets a timestamp tie at the cut of its eviction. */
  ghost predicate UntiedRun(cfg: Config, d: Database, turns: seq<Turn>) {
    |turns| > 0 ==>
      var front, turn := turns[..|turns| - 1], turns[|turns| - 1];
      && UntiedRun(cfg, d, front)
      && (turn.Calling? ==>
        UntiedCall(cfg, After(cfg, front), SqlAfter(cfg, d, front), Entering(cfg, turn.request, turn.now)))
  }

  ghost predicate UntiedCall(cfg: Config, s: Store, t: Tables, c: ToolCall) {
    c.pc.AtLimit? ==> M.Untied(LimitsOfKeys(cfg), s.keys, t.keys, M.OpReserve(KeyOf(cfg, c), c.now))
  }

  /** The checks the calls make of the limiter. */
  function Checks(cfg: Config, turns: seq<Turn>): seq<Call> {
    if |turns| == 0 then []
    else
      var front, turn := turns[..|turns| - 1], turns[|turns| - 1];
      if turn.Calling? && Admission(cfg, turn.request) == AtLimit
      then Checks(cfg, front) + [G.CheckOf(cfg, Entering(cfg, turn.request, turn.now))]
      else Checks(cfg, front)
  }

  /** The limiters have made the same checks, in clock order. */
  ghost predicate Checked(cfg: Config, s: Store, t: Tables, checks: seq<Call>, last: Time) {
    && s.calls == MemoryRun(G.LimitsOf(cfg), checks) && t.calls == F.SqlRun(G.LimitsOf(cfg), checks)
    && Nondecreasing(checks) && forall c :: c in checks ==> c.at <= last
  }

  lemma OwnLimit(cfg: Config, c: ToolCall)
    requires G.WellNamed(cfg) && Admission(cfg, c.request) == AtLimit
    ensures LimitOf(G.LimitsOf(cfg), G.CheckOf(cfg, c).key) == ToolOf(cfg, c).rateLimit
  {
  }

  lemma CheckedOnce(cfg: Config, s: Store, t: Tables, checks: seq<Call>, last: Time, c: ToolCall)
    requires G.WellNamed(cfg) && F.CommonWindow(G.LimitsOf(cfg)) && Admission(cfg, c.request) == AtLimit
    requires Checked(cfg, s, t, checks, last) && last <= c.now
    ensures LimiterAlike(cfg, s, t, c)
    ensures var limit, check := ToolOf(cfg, c).rateLimit, G.CheckOf(cfg, c);
      Checked(cfg, s.(calls := MemoryCheck(s.calls, limit, check)), t.(calls := F.SqlCheck(t.calls, limit, check)),
              checks + [check], c.now)
  {
    var check := G.CheckOf(cfg, c);
    OwnLimit(cfg, c);
    InOrderStill(checks, last, check);
    F.CommonWindowAgrees(G.LimitsOf(cfg), checks + [check]);
    MemoryRunAppend(G.LimitsOf(cfg), checks, check);
    F.SqlRunAppend(G.LimitsOf(cfg), checks, check);
  }

  lemma InOrderStill(checks: seq<Call>, last: Time, check: Call)
    requires Nondecreasing(checks) && (forall c :: c in checks ==> c.at <= last) && last <= check.at
    ensures Nondecreasing(checks + [check]) && forall c :: c in checks + [check] ==> c.at <= check.at
  {
    assert forall i :: 0 <= i < |checks| ==> checks[i] in checks;
  }

  lemma LaterAlike(cfg: Config, s: Store, t: Tables, last: Time, now: Time)
    requires Alike(cfg, s, t, last) && last <= now
    ensures Alike(cfg, s, t, now)
  {
  }

  /** What serving one call amounts to. */
  ghost predicate CallServed(
    cfg: Config, s': Store, t': Tables, c': ToolCall, x': TableCall, checks: seq<Call>, now: Time)
  {
    x'.call == c' && Alike(cfg, s', t', now) && Checked(cfg, s', t', checks, now)
  }

  lemma AdmittedCallSame(
    cfg: Config, d: Database, s: Store, t: Tables, checks: seq<Call>, last: Time, c: ToolCall, x: TableCall,
      env: Environment)
    requires Lawful(d) && G.WellNamed(cfg) && F.CommonWindow(G.LimitsOf(cfg)) && Admission(cfg, c.request) == AtLimit
    requires c.pc.AtLimit? && !c.reserved && x.call == c && last <= c.now && UntiedCall(cfg, s, t, c)
    requires Alike(cfg, s, t, last) && Checked(cfg, s, t, checks, last)
    ensures CallServed(cfg, Finish(cfg, s, c, env).0, SqlFinish(cfg, d, t, x, env).0, Finish(cfg, s, c, env).1,
                       SqlFinish(cfg, d, t, x, env).1, checks + [G.CheckOf(cfg, c)], c.now)
  {
    LaterAlike(cfg, s, t, last, c.now);
    CheckedOnce(cfg, s, t, checks, last, c);
    CallsAfter(cfg, s, c, env);
    SqlCallsAfter(cfg, d, t, x, env);
    CallSame(cfg, d, s, t, c, x, env);
  }

  lemma RefusedCallSame(
    cfg: Config, d: Database, s: Store, t: Tables, checks: seq<Call>, last: Time, c: ToolCall, x: TableCall,
      env: Environment)
    requires Lawful(d) && c.pc.AtFailAudit? && !c.reserved && x.call == c && last <= c.now
    requires Alike(cfg, s, t, last) && Checked(cfg, s, t, checks, last)
    ensures CallServed(cfg, Finish(cfg, s, c, env).0, SqlFinish(cfg, d, t, x, env).0, Finish(cfg, s, c, env).1,
                       SqlFinish(cfg, d, t, x, env).1, checks, c.now)
  {
    LaterAlike(cfg, s, t, last, c.now);
    FinishKeepsCalls(cfg, s, c, env);
    SqlFinishKeepsCalls(cfg, d, t, x, env);
    CallSame(cfg, d, s, t, c, x, env);
  }

  lemma CallTurnSame(cfg: Config, d: Database, s: Store, t: Tables, checks: seq<Call>, last: Time, turn: Turn)
    requires Lawful(d) && G.WellNamed(cfg) && F.CommonWindow(G.LimitsOf(cfg)) && turn.Calling? && last <= turn.now
    requires Alike(cfg, s, t, last) && Checked(cfg, s, t, checks, last)
    requires UntiedCall(cfg, s, t, Entering(cfg, turn.request, turn.now))
    ensures var (s', a) := Serve(cfg, s, turn);
      var (t', a') := SqlServe(cfg, d, t, turn);
      var c := Entering(cfg, turn.request, turn.now);
      && a' == a && Alike(cfg, s', t', turn.now)
      && Checked(cfg, s', t', if c.pc.AtLimit? then checks + [G.CheckOf(cfg, c)] else checks, turn.now)
  {
    var c := Entering(cfg, turn.request, turn.now);
    if c.pc.AtLimit? {
      AdmittedCallSame(cfg, d, s, t, checks, last, c, TableCall(c, None), turn.env);
    } else {
      RefusedCallSame(cfg, d, s, t, checks, last, c, TableCall(c, None), turn.env);
    }
  }

  lemma StartsAlike(cfg: Config, start: Time)
    ensures Alike(cfg, INITIAL.store, NOTHING, start) && Checked(cfg, INITIAL.store, NOTHING, [], start)
  {
  }

  /** Every turn of such a run is answered alike by the two gateways. */
  lemma {:induction false} GatewaysAgree(cfg: Config, d: Database, turns: seq<Turn>, start: Time)
    requires Lawful(d) && G.WellNamed(cfg) && F.CommonWindow(G.LimitsOf(cfg))
    requires InClockOrder(turns, start) && UntiedRun(cfg, d, turns)
    ensures Alike(cfg, After(cfg, turns), SqlAfter(cfg, d, turns), Latest(turns, start))
    ensures Checked(cfg, After(cfg, turns), SqlAfter(cfg, d, turns), Checks(cfg, turns), Latest(turns, start))
    ensures |turns| > 0 ==> var front, turn := turns[..|turns| - 1], turns[|turns| - 1];
      SqlServe(cfg, d, SqlAfter(cfg, d, front), turn).1 == Serve(cfg, After(cfg, front), turn).1
  {
    if |turns| == 0 {
      StartsAlike(cfg, start);
    } else {
      var front, turn := turns[..|turns| - 1], turns[|turns| - 1];
      GatewaysAgree(cfg, d, front, start);
      if turn.Calling? {
        CallTurnSame(cfg, d, After(cfg, front), SqlAfter(cfg, d, front), Checks(cfg, front), Latest(front, start),
          turn);
      } else {
        OtherTurnSame(cfg, d, After(cfg, front), SqlAfter(cfg, d, front), Latest(front, start), turn);
      }
    }
  }

  // ---- what the audit trails tell

  /**
   The trails are another matter.  When a call's approval is marked executed, the record of
   its answer tells EXECUTED in memory and still APPROVED over the tables.
   */
  lemma AuditedStatusDiffers(cfg: Config, s: Store, t: Tables, c: ToolCall, x: TableCall, clock: Time, later: Time)
    requires Alike(cfg, s, t, c.now) && CallAlike(s, t, c, x) && c.pc.AtMarkExecuted? && c.approval.Some?
    requires x.read.Some? && x.read.value.status == Approved
    requires MarkExecutedStep(cfg, Tid(0), s, c, c.pc.result, clock).call.pc.AtSuccessAudit?
    ensures var r, after := MarkExecutedStep(cfg, Tid(0), s, c, c.pc.result, clock), SqlMarkStep(cfg, t, x, clock);
      var trail := SuccessAuditStep(cfg, r.store, r.call, c.pc.result, later).store.approvals.audit;
      var sqlTrail := SqlSuccessAuditStep(cfg, after.0, after.1, c.pc.result, later).0.approvals.audit;
      && |trail| > 0 && trail[|trail| - 1].approvalStatus == Some(Executed)
      && |sqlTrail| > 0 && sqlTrail[|sqlTrail| - 1] == trail[|trail| - 1].(approvalStatus := Some(Approved))
  {
    var id := c.approval.value;
    L.GetKeeps(s.approvals, id, clock);
  }
}
