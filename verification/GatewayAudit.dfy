/**
 What the audit log contains, in every interleaving: it only grows, its length is the
 number of approval events plus the number of calls answered without a replay, and each
 such call has a record that tells what was asked and decided.
 */
module GatewayAudit {
  import opened Wrappers
  import opened GatewayTypes
  import opened Approvals
  import opened GatewayMachine
  import opened GatewayTerms
  import G = GatewayApprovals
  import A = GatewayAnswers

  /** The call has written its one audit record. */
  predicate Recorded(c: ToolCall) {
    c.pc.AtComplete? || (c.pc.Done? && !c.pc.replayed)
  }

  ghost function RecordedCalls(calls: map<Tid, ToolCall>): set<Tid> {
    set t | t in calls && Recorded(calls[t])
  }

  ghost predicate Invariant(s: System) {
    |s.store.approvals.audit| == |s.store.approvals.events| + |RecordedCalls(s.calls)|
  }

  /** The audit log is extended, by one record per new event and `extra` more. */
  ghost predicate Extends(st: ApprovalState, st': ApprovalState, extra: nat) {
    && st.audit <= st'.audit
    && st.events <= st'.events
    && |st'.audit| - |st.audit| == |st'.events| - |st.events| + extra
  }

  lemma ExtendsTransitive(a: ApprovalState, b: ApprovalState, c: ApprovalState)
    requires Extends(a, b, 0) && Extends(b, c, 0)
    ensures Extends(a, c, 0)
  {
  }

  lemma GetExtends(st: ApprovalState, id: Id, now: Time)
    ensures Extends(st, Detail(st, id, now).0, 0) && Extends(st, Get(st, id, now).0, 0)
  {
  }

  lemma {:induction false} SweepExtends(st: ApprovalState, ids: seq<Id>, now: Time)
    ensures Extends(st, ExpireFirst(st, ids, now), 0)
  {
    if |ids| > 0 {
      var front := ExpireFirst(st, ids[..|ids| - 1], now);
      SweepExtends(st, ids[..|ids| - 1], now);
      if ids[|ids| - 1] in front.approvals {
        ExtendsTransitive(st, front, ExpireIfNeeded(front, ids[|ids| - 1], now));
      }
    }
  }

  lemma DecisionExtends(st: ApprovalState, id: Id, p: Principal, reason: string, now: Time)
    ensures Extends(st, Approve(st, id, p, now).0, 0) && Extends(st, Reject(st, id, p, reason, now).0, 0)
  {
    GetExtends(st, id, now);
  }

  lemma MarkExtends(st: ApprovalState, id: Id, p: Principal, now: Time, result: Json, reason: string)
    ensures Extends(st, MarkExecuted(st, id, p, now, result).0, 0)
    ensures Extends(st, MarkFailed(st, id, p, now, reason).0, 0)
  {
    GetExtends(st, id, now);
  }

  /** A step writes its call's record exactly when the call comes to be recorded. */
  ghost predicate RecordsOnce(s: Store, c: ToolCall, r: StepResult) {
    && Extends(s.approvals, r.store.approvals, if Recorded(r.call) && !Recorded(c) then 1 else 0)
    && (Recorded(c) ==> Recorded(r.call))
  }

  lemma EarlyStepRecords(cfg: Config, tid: Tid, s: Store, c: ToolCall, tick: Tick)
    requires c.pc.AtLimit? || c.pc.AtVerify? || c.pc.AtMarkRunning? || c.pc.AtDispatch?
    ensures RecordsOnce(s, c, Advance(cfg, tid, s, c, tick))
  {
  }

  lemma KeyedStepRecords(cfg: Config, tid: Tid, s: Store, c: ToolCall, tick: Tick)
    requires c.pc.AtReserve? || c.pc.AtCreate?
    ensures RecordsOnce(s, c, Advance(cfg, tid, s, c, tick))
  {
  }

  lemma LookupStepRecords(cfg: Config, tid: Tid, s: Store, c: ToolCall, tick: Tick)
    requires c.pc.AtLookup?
    ensures RecordsOnce(s, c, Advance(cfg, tid, s, c, tick))
  {
    if c.request.approvalId.Some? {
      GetExtends(s.approvals, c.request.approvalId.value, c.now);
    }
  }

  lemma MarkStepRecords(cfg: Config, tid: Tid, s: Store, c: ToolCall, tick: Tick)
    requires c.pc.AtMarkFailed? || c.pc.AtMarkExecuted?
    ensures RecordsOnce(s, c, Advance(cfg, tid, s, c, tick))
  {
    if c.approval.Some? {
      var result, reason :=
        if c.pc.AtMarkExecuted? then c.pc.result else JNull, if c.pc.AtMarkFailed? then CodeText(c.pc.code) else "";
      MarkExtends(s.approvals, c.approval.value, Actor(cfg, c), tick.clock, result, reason);
    }
  }

  lemma LateStepRecords(cfg: Config, tid: Tid, s: Store, c: ToolCall, tick: Tick)
    requires c.pc.AtPendingAudit? || c.pc.AtSuccessAudit? || c.pc.AtFailAudit? || c.pc.AtComplete? || Finished(c)
    ensures RecordsOnce(s, c, Advance(cfg, tid, s, c, tick))
  {
  }

  lemma EveryStepRecords(cfg: Config, tid: Tid, s: Store, c: ToolCall, tick: Tick)
    ensures RecordsOnce(s, c, Advance(cfg, tid, s, c, tick))
  {
    if c.pc.AtLookup? {
      LookupStepRecords(cfg, tid, s, c, tick);
    } else if c.pc.AtMarkFailed? || c.pc.AtMarkExecuted? {
      MarkStepRecords(cfg, tid, s, c, tick);
    } else if c.pc.AtPendingAudit? || c.pc.AtSuccessAudit? || c.pc.AtFailAudit? || c.pc.AtComplete? || Finished(c) {
      LateStepRecords(cfg, tid, s, c, tick);
    } else if c.pc.AtReserve? || c.pc.AtCreate? {
      KeyedStepRecords(cfg, tid, s, c, tick);
    } else {
      EarlyStepRecords(cfg, tid, s, c, tick);
    }
  }

  lemma RecordedAfter(calls: map<Tid, ToolCall>, tid: Tid, c': ToolCall)
    requires tid in calls && Recorded(calls[tid]) ==> Recorded(c')
    ensures |RecordedCalls(calls[tid := c'])| ==
      |RecordedCalls(calls)| + if Recorded(c') && !(tid in calls && Recorded(calls[tid])) then 1 else 0
  {
    var before, after := RecordedCalls(calls), RecordedCalls(calls[tid := c']);
    if Recorded(c') {
      assert after == before + {tid};
    } else {
      assert after == before;
    }
  }

  lemma RuleExtends(cfg: Config, s: Store, r: Ruling)
    ensures Extends(s.approvals, Rule(cfg, s, r).store.approvals, 0)
  {
    GetExtends(s.approvals, r.id, r.now);
    DecisionExtends(s.approvals, r.id, r.principal, if r.verb.Rejecting? then r.verb.reason else "", r.now);
  }

  ghost predicate Keeps(s: System, s': System) {
    Invariant(s') && s.store.approvals.audit <= s'.store.approvals.audit
  }

  lemma StepCallKeeps(cfg: Config, s: System, tid: Tid, tick: Tick)
    requires Invariant(s) && tid in s.calls
    ensures Keeps(s, Act(cfg, s, StepCall(tid, tick)))
  {
    EveryStepRecords(cfg, tid, s.store, s.calls[tid], tick);
    AfterCall(s, tid, Advance(cfg, tid, s.store, s.calls[tid], tick));
  }

  lemma AfterCall(s: System, tid: Tid, r: StepResult)
    requires Invariant(s) && tid in s.calls && RecordsOnce(s.store, s.calls[tid], r)
    ensures Keeps(s, s.(store := r.store, calls := s.calls[tid := r.call], trace := s.trace + r.events))
  {
    RecordedAfter(s.calls, tid, r.call);
  }

  /** An action keeps the count and only appends to the log. */
  lemma ActKeeps(cfg: Config, s: System, action: Action)
    requires Invariant(s)
    ensures Keeps(s, Act(cfg, s, action))
  {
    match action
    case StartCall(tid, request, now) =>
      if tid !in s.calls {
        RecordedAfter(s.calls, tid, ToolCall(request, now, Admission(cfg, request), false, None));
      }
    case StepCall(tid, tick) =>
      if tid in s.calls {
        StepCallKeeps(cfg, s, tid, tick);
      }
    case StartRuling(tid, authToken, id, verb, now) =>
    case StepRuling(tid) =>
      if tid in s.rulings {
        RuleExtends(cfg, s.store, s.rulings[tid]);
      }
    case ListApprovals(authToken, now) => SweepExtends(s.store.approvals, s.store.approvals.order, now);
    case GetApproval(authToken, id, now) => GetExtends(s.store.approvals, id, now);
  }

  lemma {:induction false} RunInvariant(cfg: Config, actions: seq<Action>)
    ensures Invariant(Run(cfg, actions))
  {
    if |actions| > 0 {
      RunInvariant(cfg, actions[..|actions| - 1]);
      ActKeeps(cfg, Run(cfg, actions[..|actions| - 1]), actions[|actions| - 1]);
    }
  }

  /** The calls that returned without a replay. */
  ghost function Answered(calls: map<Tid, ToolCall>): set<Tid> {
    set t | t in calls && calls[t].pc.Done? && !calls[t].pc.replayed
  }

  lemma RecordedAreAnswered(calls: map<Tid, ToolCall>)
    requires forall t :: t in calls ==> Finished(calls[t])
    ensures RecordedCalls(calls) == Answered(calls)
  {
  }

  /**
   Once every call has ended, the log holds one record per approval event and one per call
   answered without a replay.
   */
  lemma AuditLength(cfg: Config, actions: seq<Action>)
    requires var calls := Run(cfg, actions).calls; forall t :: t in calls ==> Finished(calls[t])
    ensures var s := Run(cfg, actions);
      |s.store.approvals.audit| == |s.store.approvals.events| + |Answered(s.calls)|
  {
    RunInvariant(cfg, actions);
    RecordedAreAnswered(Run(cfg, actions).calls);
  }

  /** The log of an earlier state of a run is a prefix of the log of a later one. */
  lemma {:induction false} AuditOnlyGrows(cfg: Config, actions: seq<Action>, n: nat)
    requires n <= |actions|
    ensures Run(cfg, actions[..n]).store.approvals.audit <= Run(cfg, actions).store.approvals.audit
    decreases |actions|
  {
    if n == |actions| {
      assert actions[..n] == actions;
    } else {
      var front := actions[..|actions| - 1];
      assert front[..n] == actions[..n];
      AuditOnlyGrows(cfg, front, n);
      RunInvariant(cfg, front);
      ActKeeps(cfg, Run(cfg, front), actions[|actions| - 1]);
    }
  }

  // ---- what the records say

  /** What the record says of a decision: how the call ended, in short, and how its approval stands. */
  ghost predicate TellsDecision(r: AuditRecord, tool: Option<Tool>, response: Response) {
    match response.body
    case ResultBody(_) =>
      && response.decision == Allowed && r.executionStatus == "SUCCEEDED" && r.summary == "ALLOWED"
      && tool.Some? && r.approvalStatus == (if tool.value.requiresApproval then Some(Executed) else None)
    case PendingBody(_, status, _) =>
      && response.decision == PendingApproval
      && r.executionStatus == "PENDING_APPROVAL" && r.summary == "PENDING_APPROVAL"
      && r.approvalStatus == Some(status)
    case ErrorBody(code) =>
      && response.decision == Denied && r.executionStatus == "DENIED" && Names(r.summary, code)
      && r.approvalStatus == None
  }

  /** The tool a caller who is known has asked for. */
  ghost function AskedTool(cfg: Config, request: Request): Option<Tool> {
    if cfg.authenticate(request.authToken).Some? && request.toolName in cfg.registry
    then Some(cfg.registry[request.toolName]) else None
  }

  /** The record tells who made the call, for which tool, about what, with which arguments, and what was decided. */
  ghost predicate Tells(cfg: Config, r: AuditRecord, c: ToolCall)
    requires Recorded(c)
  {
    var p, tool := cfg.authenticate(c.request.authToken), AskedTool(cfg, c.request);
    && r.actorId == (if p.Some? then p.value.id else "anonymous")
    && r.actorRole == (if p.Some? then p.value.role else Viewer)
    && r.correlationId == c.request.correlationId
    && r.argumentHash == Some(cfg.argumentHash(c.request.arguments))
    && Targets(c.request.arguments, r.targetResource)
    && r.risk == (if tool.Some? then Some(tool.value.risk) else None)
    && r.toolName == c.pc.response.toolName
    && r.decision == c.pc.response.decision
    && TellsDecision(r, tool, c.pc.response)
  }

  ghost predicate Told(cfg: Config, audit: seq<AuditRecord>, c: ToolCall) {
    Recorded(c) ==> exists i :: 0 <= i < |audit| && Tells(cfg, audit[i], c)
  }

  ghost predicate AllTold(cfg: Config, s: System) {
    forall t :: t in s.calls ==> Told(cfg, s.store.approvals.audit, s.calls[t])
  }

  lemma ToldLonger(cfg: Config, audit: seq<AuditRecord>, audit': seq<AuditRecord>, c: ToolCall)
    requires Told(cfg, audit, c) && audit <= audit'
    ensures Told(cfg, audit', c)
  {
    if Recorded(c) {
      var i :| 0 <= i < |audit| && Tells(cfg, audit[i], c);
      assert audit'[i] == audit[i];
    }
  }

  /** One record is added, at this moment, and it tells the call. */
  ghost predicate Adds(cfg: Config, audit: seq<AuditRecord>, audit': seq<AuditRecord>, clock: Time, c: ToolCall)
    requires Recorded(c)
  {
    && |audit'| == |audit| + 1 && audit' == audit + [audit'[|audit|]]
    && audit'[|audit|].timestamp == clock && Tells(cfg, audit'[|audit|], c)
  }

  /** What an audited call has behind it: its caller and tool are known, unless it failed. */
  ghost predicate Audits(cfg: Config, st: ApprovalState, c: ToolCall) {
    && (c.pc.AtPendingAudit? || c.pc.AtSuccessAudit? ==> A.LetIn(cfg, c))
    && (c.pc.AtSuccessAudit? ==>
          if ToolOf(cfg, c).requiresApproval then c.approval.Some? && G.ExecutedIn(st, c.approval.value)
          else c.approval.None?)
    && (c.pc.AtPendingAudit? ==> c.pc.id in st.approvals)
  }

  /** The parts of a record that do not depend on how the call ended. */
  lemma RecordTells(
    cfg: Config, c: ToolCall, toolName: string, clock: Time, decision: Decision, risk: Option<Risk>,
    status: Option<ApprovalStatus>, execution: string, summary: string, pc: Pc)
    requires Recorded(c.(pc := pc)) && pc.response.toolName == toolName && pc.response.decision == decision
    requires risk == if AskedTool(cfg, c.request).Some? then Some(AskedTool(cfg, c.request).value.risk) else None
    requires TellsDecision(AuditOf(cfg, c, toolName, clock, decision, risk, status, execution, summary),
               AskedTool(cfg, c.request), pc.response)
    ensures Tells(cfg, AuditOf(cfg, c, toolName, clock, decision, risk, status, execution, summary), c.(pc := pc))
  {
    TargetIsFirst(c.request.arguments, RESOURCE_FIELDS);
  }

  lemma PendingAuditTells(cfg: Config, s: Store, c: ToolCall, id: Id, clock: Time)
    requires c.pc == AtPendingAudit(id) && Audits(cfg, s.approvals, c)
    ensures var r := PendingAuditStep(cfg, s, c, id, clock);
      && Recorded(r.call) && Adds(cfg, s.approvals.audit, r.store.approvals.audit, clock, r.call)
      && r.call.pc.response.body.PendingBody?
      && r.call.pc.response.body.approvalStatus == s.approvals.approvals[id].status
  {
    var r, tool := PendingAuditStep(cfg, s, c, id, clock), ToolOf(cfg, c);
    RecordTells(cfg, c, tool.toolName, clock, PendingApproval, Some(tool.risk), StatusIn(s, Some(id)),
      "PENDING_APPROVAL", "PENDING_APPROVAL", r.call.pc);
  }

  lemma SuccessAuditTells(cfg: Config, s: Store, c: ToolCall, result: Json, clock: Time)
    requires c.pc == AtSuccessAudit(result) && Audits(cfg, s.approvals, c)
    ensures var r := SuccessAuditStep(cfg, s, c, result, clock);
      Recorded(r.call) && Adds(cfg, s.approvals.audit, r.store.approvals.audit, clock, r.call)
  {
    var r, tool := SuccessAuditStep(cfg, s, c, result, clock), ToolOf(cfg, c);
    RecordTells(cfg, c, tool.toolName, clock, Allowed, Some(tool.risk), StatusIn(s, c.approval), "SUCCEEDED",
      "ALLOWED", r.call.pc);
  }

  lemma FailAuditTells(cfg: Config, s: Store, c: ToolCall, code: ErrorCode, clock: Time)
    requires c.pc == AtFailAudit(code)
    ensures var r := FailAuditStep(cfg, s, c, code, clock);
      Recorded(r.call) && Adds(cfg, s.approvals.audit, r.store.approvals.audit, clock, r.call)
  {
    var r := FailAuditStep(cfg, s, c, code, clock);
    CodeTextNames(code);
    RecordTells(cfg, c, c.request.toolName, clock, Denied,
      if Known(cfg, c) then Some(ToolOf(cfg, c).risk) else None, None, "DENIED", CodeText(code), r.call.pc);
  }

  /** The three steps that audit a call write one record, and it tells the call. */
  lemma AuditingStepTells(cfg: Config, tid: Tid, s: Store, c: ToolCall, tick: Tick)
    requires c.pc.AtPendingAudit? || c.pc.AtSuccessAudit? || c.pc.AtFailAudit?
    requires Audits(cfg, s.approvals, c)
    ensures var r := Advance(cfg, tid, s, c, tick);
      Recorded(r.call) && Adds(cfg, s.approvals.audit, r.store.approvals.audit, tick.clock, r.call)
  {
    if c.pc.AtPendingAudit? {
      PendingAuditTells(cfg, s, c, c.pc.id, tick.clock);
    } else if c.pc.AtSuccessAudit? {
      SuccessAuditTells(cfg, s, c, c.pc.result, tick.clock);
    } else {
      FailAuditTells(cfg, s, c, c.pc.code, tick.clock);
    }
  }

  lemma AddedIsTold(cfg: Config, audit: seq<AuditRecord>, audit': seq<AuditRecord>, clock: Time, c: ToolCall)
    requires Recorded(c) && Adds(cfg, audit, audit', clock, c)
    ensures Told(cfg, audit', c)
  {
    assert Tells(cfg, audit'[|audit|], c);
  }

  /** No other step makes a call recorded, and completing its key changes nothing the record tells. */
  lemma OtherStepRecordsNothing(cfg: Config, tid: Tid, s: Store, c: ToolCall, tick: Tick)
    requires !c.pc.AtPendingAudit? && !c.pc.AtSuccessAudit? && !c.pc.AtFailAudit?
    ensures var c' := Advance(cfg, tid, s, c, tick).call;
      Recorded(c') ==> Recorded(c) && c'.pc.response == c.pc.response && c'.request == c.request
  {
  }

  lemma StepTells(cfg: Config, tid: Tid, s: Store, c: ToolCall, tick: Tick)
    requires Told(cfg, s.approvals.audit, c) && Audits(cfg, s.approvals, c)
    ensures Told(cfg, Advance(cfg, tid, s, c, tick).store.approvals.audit, Advance(cfg, tid, s, c, tick).call)
  {
    if c.pc.AtPendingAudit? || c.pc.AtSuccessAudit? || c.pc.AtFailAudit? {
      AuditingStepTells(cfg, tid, s, c, tick);
      var r := Advance(cfg, tid, s, c, tick);
      AddedIsTold(cfg, s.approvals.audit, r.store.approvals.audit, tick.clock, r.call);
    } else {
      OtherStepRecordsNothing(cfg, tid, s, c, tick);
      EveryStepRecords(cfg, tid, s, c, tick);
      SameTale(cfg, s.approvals.audit, Advance(cfg, tid, s, c, tick).store.approvals.audit, c,
        Advance(cfg, tid, s, c, tick).call);
    }
  }

  lemma SameTale(cfg: Config, audit: seq<AuditRecord>, audit': seq<AuditRecord>, c: ToolCall, c': ToolCall)
    requires Told(cfg, audit, c) && audit <= audit'
    requires Recorded(c') ==> Recorded(c) && c'.pc.response == c.pc.response && c'.request == c.request
    ensures Told(cfg, audit', c')
  {
    if Recorded(c') {
      var i :| 0 <= i < |audit| && Tells(cfg, audit[i], c);
      assert Tells(cfg, audit'[i], c');
    }
  }

  lemma OthersTold(cfg: Config, s: System, audit': seq<AuditRecord>)
    requires AllTold(cfg, s) && s.store.approvals.audit <= audit'
    ensures forall t :: t in s.calls ==> Told(cfg, audit', s.calls[t])
  {
    forall t | t in s.calls
      ensures Told(cfg, audit', s.calls[t])
    {
      ToldLonger(cfg, s.store.approvals.audit, audit', s.calls[t]);
    }
  }

  lemma CallAudits(cfg: Config, t: Tid, own: seq<Event>, st: ApprovalState, c: ToolCall)
    requires G.CallHolds(cfg, st, c) && A.Story(cfg, t, own, c)
    ensures Audits(cfg, st, c)
  {
  }

  lemma ActTells(cfg: Config, s: System, action: Action)
    requires Invariant(s) && AllTold(cfg, s)
    requires action.StepCall? && action.tid in s.calls ==> Audits(cfg, s.store.approvals, s.calls[action.tid])
    ensures AllTold(cfg, Act(cfg, s, action))
  {
    ActKeeps(cfg, s, action);
    OthersTold(cfg, s, Act(cfg, s, action).store.approvals.audit);
    if action.StepCall? && action.tid in s.calls {
      StepTells(cfg, action.tid, s.store, s.calls[action.tid], action.tick);
    }
  }

  lemma RunAudits(cfg: Config, actions: seq<Action>, t: Tid)
    requires t in Run(cfg, actions).calls
    ensures Audits(cfg, Run(cfg, actions).store.approvals, Run(cfg, actions).calls[t])
  {
    A.RunTells(cfg, actions);
    G.RunInvariant(cfg, actions);
    var s := Run(cfg, actions);
    CallAudits(cfg, t, A.Own(s.trace, t), s.store.approvals, s.calls[t]);
  }

  lemma {:induction false} RunTells(cfg: Config, actions: seq<Action>)
    ensures AllTold(cfg, Run(cfg, actions))
  {
    if |actions| > 0 {
      var front := actions[..|actions| - 1];
      RunTells(cfg, front);
      RunInvariant(cfg, front);
      var action := actions[|actions| - 1];
      if action.StepCall? && action.tid in Run(cfg, front).calls {
        RunAudits(cfg, front, action.tid);
      }
      ActTells(cfg, Run(cfg, front), action);
    }
  }

  /** Every call answered without a replay has a record that tells its caller, tool, arguments and decision. */
  lemma EveryAnswerIsAudited(cfg: Config, actions: seq<Action>, t: Tid)
    requires t in Run(cfg, actions).calls && Recorded(Run(cfg, actions).calls[t])
    ensures exists i :: 0 <= i < |Run(cfg, actions).store.approvals.audit|
                     && Tells(cfg, Run(cfg, actions).store.approvals.audit[i], Run(cfg, actions).calls[t])
  {
    RunTells(cfg, actions);
    assert Told(cfg, Run(cfg, actions).store.approvals.audit, Run(cfg, actions).calls[t]);
  }
}
