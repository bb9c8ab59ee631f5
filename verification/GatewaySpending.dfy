/**
 How often an approval can be used.  In every interleaving it is spent by at most one
 call, and at most one call is answered as allowed on it.
 */
module GatewaySpending {
  import opened Wrappers
  import opened GatewayTypes
  import opened Approvals
  import L = ApprovalLifecycle
  import opened GatewayMachine
  import G = GatewayApprovals

  predicate Ended(a: Approval) {
    a.status == Executed || a.status == Failed
  }

  /** The calls that moved the approval to EXECUTED or FAILED, in order. */
  ghost function Spenders(trace: seq<Event>, id: Id): seq<Tid> {
    if |trace| == 0 then []
    else
      var front, e := Spenders(trace[..|trace| - 1], id), trace[|trace| - 1];
      if e.Spent? && e.id == id then front + [e.caller] else front
  }

  lemma AppendSpender(trace: seq<Event>, e: Event, id: Id)
    ensures Spenders(trace + [e], id) ==
      if e.Spent? && e.id == id then Spenders(trace, id) + [e.caller] else Spenders(trace, id)
  {
    assert (trace + [e])[..|trace|] == trace;
  }

  /** A step ends exactly the approval its event says was spent, if any; the others that are approved stay approved. */
  ghost predicate EndsOnly(st: ApprovalState, st': ApprovalState, events: seq<Event>) {
    && |events| <= 1
    && st.approvals.Keys <= st'.approvals.Keys
    && (forall id :: id in st'.approvals && id !in st.approvals ==> !Ended(st'.approvals[id]))
    && (forall id :: id in st.approvals ==>
          if |events| == 1 && events[0].Spent? && events[0].id == id
          then !Ended(st.approvals[id]) && Ended(st'.approvals[id])
          else
            && Ended(st'.approvals[id]) == Ended(st.approvals[id])
            && (st.approvals[id].status == Approved ==> st'.approvals[id].status == Approved))
    && (|events| == 1 && events[0].Spent? ==> events[0].id in st.approvals)
  }

  lemma ExpiriesEndNothing(st: ApprovalState, st': ApprovalState)
    requires G.OnlyExpires(st, st')
    ensures EndsOnly(st, st', [])
  {
  }

  /** One record changes in a state that differs by expiries only. */
  lemma ChangeEnds(st: ApprovalState, st1: ApprovalState, a: Approval, st': ApprovalState, events: seq<Event>)
    requires EndsOnly(st, st1, []) && a.id in st1.approvals && a.id in st.approvals
    requires st'.approvals == st1.approvals[a.id := a] && !Ended(st1.approvals[a.id]) && |events| <= 1
    requires if |events| == 1 && events[0].Spent? then events[0].id == a.id && Ended(a)
             else !Ended(a) && (st1.approvals[a.id].status == Approved ==> a.status == Approved)
    ensures EndsOnly(st, st', events)
  {
  }

  /** What a look-up finds. */
  ghost predicate FoundIn(st: ApprovalState, st1: ApprovalState, r: Reply) {
    EndsOnly(st, st1, [])
      && (r.Ok? ==> r.value.id in st.approvals && r.value.id in st1.approvals && st1.approvals[r.value.id] == r.value)
  }

  lemma LookUpFinds(st: ApprovalState, id: Id, now: Time)
    requires L.Invariant(st)
    ensures var (st1, r) := Get(st, id, now);
      FoundIn(st, st1, r) && (r.Ok? ==> r.value.id == id)
  {
    G.GetOnlyExpires(st, id, now);
    L.GetKeeps(st, id, now);
    ExpiriesEndNothing(st, Get(st, id, now).0);
  }

  lemma ExecuteFoundEnds(
    st: ApprovalState, st1: ApprovalState, r: Reply, actor: Principal, now: Time, result: Json, tid: Tid, id: Id)
    requires FoundIn(st, st1, r) && (r.Ok? ==> r.value.id == id)
    ensures var (st', reply) := ExecuteFound(st1, r, actor, now, result);
      EndsOnly(st, st', if reply.Ok? then [Spent(tid, id, true)] else [])
  {
    var (st', reply) := ExecuteFound(st1, r, actor, now, result);
    if reply.Ok? {
      ChangeEnds(st, st1, ExecutedForm(r.value, now, result), st', [Spent(tid, id, true)]);
    }
  }

  lemma ExecutedEnds(st: ApprovalState, id: Id, actor: Principal, now: Time, result: Json, tid: Tid)
    requires L.Invariant(st)
    ensures var (st', r) := MarkExecuted(st, id, actor, now, result);
      EndsOnly(st, st', if r.Ok? then [Spent(tid, id, true)] else [])
  {
    LookUpFinds(st, id, now);
    ExecuteFoundEnds(st, Get(st, id, now).0, Get(st, id, now).1, actor, now, result, tid, id);
  }

  lemma FailedEnds(st: ApprovalState, id: Id, actor: Principal, now: Time, reason: string, tid: Tid)
    requires L.Invariant(st)
    ensures var (st', r) := MarkFailed(st, id, actor, now, reason);
      EndsOnly(st, st', if r.Ok? then [Spent(tid, id, false)] else [])
  {
    if id in st.approvals && !Ended(st.approvals[id]) && st.approvals[id].status in {Approved, Pending} {
      var a := FailedForm(st.approvals[id], reason);
      assert MarkFailed(st, id, actor, now, reason).0.approvals == st.approvals[id := a];
    }
  }

  lemma RuleFoundEndsNothing(
    st: ApprovalState, st1: ApprovalState, r: Reply, p: Principal, reason: string, now: Time, id: Id)
    requires FoundIn(st, st1, r) && (r.Ok? ==> r.value.id == id)
    ensures var (st', reply) := ApproveFound(st1, r, p, now);
      EndsOnly(st, st', if reply.Ok? then [Granted(id, p, now)] else [])
    ensures var (st', reply) := RejectFound(st1, r, p, reason, now);
      EndsOnly(st, st', if reply.Ok? then [Refused(id, p, reason, now)] else [])
  {
    if r.Ok? && r.value.status == Pending {
      ChangeEnds(st, st1, ApprovedForm(r.value, p.id, now), ApproveFound(st1, r, p, now).0, [Granted(id, p, now)]);
      ChangeEnds(st, st1, RejectedForm(r.value, p.id, reason, now), RejectFound(st1, r, p, reason, now).0,
        [Refused(id, p, reason, now)]);
    }
  }

  lemma ApproveEndsNothing(st: ApprovalState, id: Id, approver: Principal, now: Time)
    requires L.Invariant(st)
    ensures var (st', r) := Approve(st, id, approver, now);
      EndsOnly(st, st', if r.Ok? then [Granted(id, approver, now)] else [])
  {
    LookUpFinds(st, id, now);
    RuleFoundEndsNothing(st, Get(st, id, now).0, Get(st, id, now).1, approver, "", now, id);
  }

  lemma RejectEndsNothing(st: ApprovalState, id: Id, rejector: Principal, reason: string, now: Time)
    requires L.Invariant(st)
    ensures var (st', r) := Reject(st, id, rejector, reason, now);
      EndsOnly(st, st', if r.Ok? then [Refused(id, rejector, reason, now)] else [])
  {
    LookUpFinds(st, id, now);
    RuleFoundEndsNothing(st, Get(st, id, now).0, Get(st, id, now).1, rejector, reason, now, id);
  }

  lemma MarkStepEnds(cfg: Config, tid: Tid, s: Store, c: ToolCall, tick: Tick)
    requires L.Invariant(s.approvals) && (c.pc.AtMarkFailed? || c.pc.AtMarkExecuted?)
    ensures var r := Advance(cfg, tid, s, c, tick);
      EndsOnly(s.approvals, r.store.approvals, r.events)
  {
    if c.approval.Some? {
      if c.pc.AtMarkFailed? {
        FailedEnds(s.approvals, c.approval.value, Actor(cfg, c), tick.clock, CodeText(c.pc.code), tid);
      } else {
        ExecutedEnds(s.approvals, c.approval.value, Actor(cfg, c), tick.clock, c.pc.result, tid);
      }
    }
  }

  /** Away from lookups, creations and marks, a step leaves every approval record alone. */
  lemma QuietRecords(cfg: Config, tid: Tid, s: Store, c: ToolCall, tick: Tick)
    requires !c.pc.AtLookup? && !c.pc.AtCreate? && !c.pc.AtMarkFailed? && !c.pc.AtMarkExecuted?
    ensures var r := Advance(cfg, tid, s, c, tick);
      r.store.approvals.approvals == s.approvals.approvals && |r.events| <= 1 && forall e :: e in r.events ==> !e.Spent?
  {
  }

  lemma SameRecordsEndNothing(st: ApprovalState, st': ApprovalState, events: seq<Event>)
    requires st'.approvals == st.approvals && |events| <= 1 && forall e :: e in events ==> !e.Spent?
    ensures EndsOnly(st, st', events)
  {
  }

  lemma LookupEndsNothing(cfg: Config, s: Store, c: ToolCall)
    requires L.Invariant(s.approvals)
    ensures EndsOnly(s.approvals, LookupStep(cfg, s, c).store.approvals, [])
  {
    if c.request.approvalId.Some? {
      G.GetOnlyExpires(s.approvals, c.request.approvalId.value, c.now);
      ExpiriesEndNothing(s.approvals, Get(s.approvals, c.request.approvalId.value, c.now).0);
    } else {
      SameRecordsEndNothing(s.approvals, s.approvals, []);
    }
  }

  lemma CreateEndsNothing(cfg: Config, tid: Tid, s: Store, c: ToolCall, id: Id)
    requires id !in s.approvals.approvals
    ensures EndsOnly(s.approvals, CreateStep(cfg, tid, s, c, id).store.approvals, CreateStep(cfg, tid, s, c, id).events)
  {
  }

  lemma OtherStepEnds(cfg: Config, tid: Tid, s: Store, c: ToolCall, tick: Tick)
    requires L.Invariant(s.approvals) && !c.pc.AtMarkFailed? && !c.pc.AtMarkExecuted?
    ensures var r := Advance(cfg, tid, s, c, tick);
      EndsOnly(s.approvals, r.store.approvals, r.events)
  {
    if c.pc.AtLookup? {
      LookupEndsNothing(cfg, s, c);
    } else if !c.pc.AtCreate? {
      QuietRecords(cfg, tid, s, c, tick);
      var r := Advance(cfg, tid, s, c, tick);
      SameRecordsEndNothing(s.approvals, r.store.approvals, r.events);
    } else if tick.freshId in s.approvals.approvals {
      SameRecordsEndNothing(s.approvals, s.approvals, []);
    } else {
      CreateEndsNothing(cfg, tid, s, c, tick.freshId);
    }
  }

  ghost predicate RulingEndsOnly(s: Store, r: RulingResult) {
    EndsOnly(s.approvals, r.store.approvals, r.events)
  }

  lemma RuleEnds(cfg: Config, s: Store, r: Ruling)
    requires L.Invariant(s.approvals)
    ensures RulingEndsOnly(s, Rule(cfg, s, r))
  {
    match r.pc
    case AtGet =>
      G.GetOnlyExpires(s.approvals, r.id, r.now);
      ExpiriesEndNothing(s.approvals, Get(s.approvals, r.id, r.now).0);
    case AtDecide =>
      match r.verb {
        case Approving => ApproveEndsNothing(s.approvals, r.id, r.principal, r.now);
        case Rejecting(reason) => RejectEndsNothing(s.approvals, r.id, r.principal, reason, r.now);
      }
    case Ruled(_) =>
      SameRecordsEndNothing(s.approvals, s.approvals, []);
  }

  lemma RuleSpendsNothing(cfg: Config, s: Store, r: Ruling)
    ensures forall e :: e in Rule(cfg, s, r).events ==> !e.Spent? && !e.Dispatched?
  {
  }

  // ---- spent at most once

  ghost predicate SpentOnce(trace: seq<Event>, st: ApprovalState) {
    forall id :: |Spenders(trace, id)| == if id in st.approvals && Ended(st.approvals[id]) then 1 else 0
  }

  lemma SpentOnceAfter(trace: seq<Event>, st: ApprovalState, st': ApprovalState, events: seq<Event>)
    requires SpentOnce(trace, st) && EndsOnly(st, st', events)
    ensures SpentOnce(trace + events, st')
  {
    forall id
      ensures |Spenders(trace + events, id)| == if id in st'.approvals && Ended(st'.approvals[id]) then 1 else 0
    {
      if |events| == 1 {
        AppendSpender(trace, events[0], id);
        assert trace + events == trace + [events[0]];
      } else {
        assert trace + events == trace;
      }
    }
  }

  /** The call has been, or is about to be, answered ALLOWED by its own dispatch. */
  predicate Allowing(c: ToolCall) {
    || c.pc.AtSuccessAudit?
    || (c.pc.AtComplete? && c.pc.response.decision == Allowed)
    || (c.pc.Done? && !c.pc.replayed && c.pc.response.decision == Allowed)
  }

  ghost predicate AllowedSpent(trace: seq<Event>, t: Tid, c: ToolCall) {
    Allowing(c) && c.approval.Some? ==> t in Spenders(trace, c.approval.value)
  }

  ghost predicate AllAllowedSpent(trace: seq<Event>, calls: map<Tid, ToolCall>) {
    forall t :: t in calls ==> AllowedSpent(trace, t, calls[t])
  }

  ghost predicate Invariant(s: System) {
    SpentOnce(s.trace, s.store.approvals) && AllAllowedSpent(s.trace, s.calls)
  }

  lemma AllowedSpentLonger(trace: seq<Event>, events: seq<Event>, t: Tid, c: ToolCall)
    requires |events| <= 1 && AllowedSpent(trace, t, c)
    ensures AllowedSpent(trace + events, t, c)
  {
    if c.approval.Some? {
      if |events| == 1 {
        AppendSpender(trace, events[0], c.approval.value);
        assert trace + events == trace + [events[0]];
      } else {
        assert trace + events == trace;
      }
    }
  }

  /** A call comes to be allowed on an approval only by marking it executed. */
  ghost predicate AllowedByMark(tid: Tid, c: ToolCall, r: StepResult) {
    && |r.events| <= 1
    && (Allowing(r.call) && r.call.approval.Some? ==>
          && r.call.approval == c.approval
          && (Allowing(c) || r.events == [Spent(tid, c.approval.value, true)]))
  }

  lemma EarlyAllowing(cfg: Config, tid: Tid, s: Store, c: ToolCall, tick: Tick)
    requires c.pc.AtLimit? || c.pc.AtReserve? || c.pc.AtLookup? || c.pc.AtVerify? || c.pc.AtCreate?
      || c.pc.AtPendingAudit?
    ensures AllowedByMark(tid, c, Advance(cfg, tid, s, c, tick))
  {
  }

  lemma MarkAllowing(cfg: Config, tid: Tid, s: Store, c: ToolCall, tick: Tick)
    requires c.pc.AtMarkRunning? || c.pc.AtDispatch? || c.pc.AtMarkFailed? || c.pc.AtMarkExecuted?
    ensures AllowedByMark(tid, c, Advance(cfg, tid, s, c, tick))
  {
  }

  lemma LateAllowing(cfg: Config, tid: Tid, s: Store, c: ToolCall, tick: Tick)
    requires c.pc.AtSuccessAudit? || c.pc.AtFailAudit? || c.pc.AtComplete? || Finished(c)
    ensures AllowedByMark(tid, c, Advance(cfg, tid, s, c, tick))
  {
  }

  lemma AllowingFrom(cfg: Config, tid: Tid, s: Store, c: ToolCall, tick: Tick)
    ensures AllowedByMark(tid, c, Advance(cfg, tid, s, c, tick))
  {
    if c.pc.AtSuccessAudit? || c.pc.AtFailAudit? || c.pc.AtComplete? || Finished(c) {
      LateAllowing(cfg, tid, s, c, tick);
    } else if c.pc.AtMarkRunning? || c.pc.AtDispatch? || c.pc.AtMarkFailed? || c.pc.AtMarkExecuted? {
      MarkAllowing(cfg, tid, s, c, tick);
    } else {
      EarlyAllowing(cfg, tid, s, c, tick);
    }
  }

  lemma AfterAllowedSpent(tid: Tid, trace: seq<Event>, c: ToolCall, r: StepResult)
    requires AllowedSpent(trace, tid, c) && AllowedByMark(tid, c, r)
    ensures AllowedSpent(trace + r.events, tid, r.call)
  {
    if Allowing(r.call) && r.call.approval.Some? {
      if Allowing(c) {
        AllowedSpentLonger(trace, r.events, tid, c);
      } else {
        AppendSpender(trace, r.events[0], c.approval.value);
      }
    }
  }

  lemma AllAllowedSpentLonger(trace: seq<Event>, events: seq<Event>, calls: map<Tid, ToolCall>)
    requires |events| <= 1 && AllAllowedSpent(trace, calls)
    ensures AllAllowedSpent(trace + events, calls)
  {
    forall t | t in calls
      ensures AllowedSpent(trace + events, t, calls[t])
    {
      AllowedSpentLonger(trace, events, t, calls[t]);
    }
  }

  /** What a step does to the approvals of a store: it ends at most the one its event names. */
  lemma StepEnds(cfg: Config, tid: Tid, s: Store, c: ToolCall, tick: Tick)
    requires L.Invariant(s.approvals)
    ensures var r := Advance(cfg, tid, s, c, tick);
      EndsOnly(s.approvals, r.store.approvals, r.events)
  {
    if c.pc.AtMarkFailed? || c.pc.AtMarkExecuted? {
      MarkStepEnds(cfg, tid, s, c, tick);
    } else {
      OtherStepEnds(cfg, tid, s, c, tick);
    }
  }

  /** A step of a call that ends what its events say keeps the invariant. */
  lemma AfterCall(s: System, tid: Tid, r: StepResult)
    requires Invariant(s) && tid in s.calls && EndsOnly(s.store.approvals, r.store.approvals, r.events)
    requires AllowedByMark(tid, s.calls[tid], r)
    ensures Invariant(s.(store := r.store, calls := s.calls[tid := r.call], trace := s.trace + r.events))
  {
    SpentOnceAfter(s.trace, s.store.approvals, r.store.approvals, r.events);
    AllAllowedSpentLonger(s.trace, r.events, s.calls);
    AfterAllowedSpent(tid, s.trace, s.calls[tid], r);
  }

  lemma StepCallKeeps(cfg: Config, s: System, tid: Tid, tick: Tick)
    requires L.Invariant(s.store.approvals) && Invariant(s) && tid in s.calls
    ensures Invariant(Act(cfg, s, StepCall(tid, tick)))
  {
    StepEnds(cfg, tid, s.store, s.calls[tid], tick);
    AllowingFrom(cfg, tid, s.store, s.calls[tid], tick);
    AfterCall(s, tid, Advance(cfg, tid, s.store, s.calls[tid], tick));
  }

  /** So does any other step. */
  lemma AfterOther(s: System, s': System, events: seq<Event>)
    requires Invariant(s) && EndsOnly(s.store.approvals, s'.store.approvals, events)
    requires s'.trace == s.trace + events && s'.calls == s.calls
    ensures Invariant(s')
  {
    SpentOnceAfter(s.trace, s.store.approvals, s'.store.approvals, events);
    AllAllowedSpentLonger(s.trace, events, s.calls);
  }

  lemma AfterRuling(s: System, tid: Tid, r: RulingResult)
    requires Invariant(s) && tid in s.rulings && RulingEndsOnly(s.store, r)
    ensures Invariant(s.(store := r.store, rulings := s.rulings[tid := r.ruling], trace := s.trace + r.events))
  {
    AfterOther(s, s.(store := r.store, rulings := s.rulings[tid := r.ruling], trace := s.trace + r.events), r.events);
  }

  lemma StepRulingKeeps(cfg: Config, s: System, tid: Tid)
    requires L.Invariant(s.store.approvals) && Invariant(s) && tid in s.rulings
    ensures Invariant(Act(cfg, s, StepRuling(tid)))
  {
    RuleEnds(cfg, s.store, s.rulings[tid]);
    AfterRuling(s, tid, Rule(cfg, s.store, s.rulings[tid]));
  }

  lemma ReadKeeps(s: System, st': ApprovalState)
    requires Invariant(s) && EndsOnly(s.store.approvals, st', [])
    ensures Invariant(s.(store := s.store.(approvals := st')))
  {
    assert s.trace + [] == s.trace;
    AfterOther(s, s.(store := s.store.(approvals := st')), []);
  }

  /** Listing or reading approvals ends nothing. */
  lemma ListActKeeps(cfg: Config, s: System, authToken: string, now: Time)
    requires L.Invariant(s.store.approvals) && Invariant(s)
    ensures Invariant(Act(cfg, s, ListApprovals(authToken, now)))
  {
    var st := s.store.approvals;
    G.SweepOnlyExpires(st, st.order, now);
    ExpiriesEndNothing(st, ExpirePending(st, now));
    ReadKeeps(s, ExpirePending(st, now));
  }

  lemma DetailActKeeps(cfg: Config, s: System, authToken: string, id: Id, now: Time)
    requires L.Invariant(s.store.approvals) && Invariant(s)
    ensures Invariant(Act(cfg, s, GetApproval(authToken, id, now)))
  {
    var st := s.store.approvals;
    G.GetOnlyExpires(st, id, now);
    ExpiriesEndNothing(st, Detail(st, id, now).0);
    ReadKeeps(s, Detail(st, id, now).0);
  }

  lemma ActKeeps(cfg: Config, s: System, action: Action)
    requires L.Invariant(s.store.approvals) && Invariant(s)
    ensures Invariant(Act(cfg, s, action))
  {
    match action
    case StartCall(tid, request, now) =>
    case StepCall(tid, tick) =>
      if tid in s.calls {
        StepCallKeeps(cfg, s, tid, tick);
      }
    case StartRuling(tid, authToken, id, verb, now) =>
    case StepRuling(tid) =>
      if tid in s.rulings {
        StepRulingKeeps(cfg, s, tid);
      }
    case ListApprovals(authToken, now) => ListActKeeps(cfg, s, authToken, now);
    case GetApproval(authToken, id, now) => DetailActKeeps(cfg, s, authToken, id, now);
  }

  lemma StoreInvariant(cfg: Config, actions: seq<Action>)
    ensures L.Invariant(Run(cfg, actions).store.approvals)
  {
    G.RunInvariant(cfg, actions);
  }

  lemma {:induction false} RunInvariant(cfg: Config, actions: seq<Action>)
    ensures Invariant(Run(cfg, actions))
  {
    if |actions| > 0 {
      RunInvariant(cfg, actions[..|actions| - 1]);
      StoreInvariant(cfg, actions[..|actions| - 1]);
      ActKeeps(cfg, Run(cfg, actions[..|actions| - 1]), actions[|actions| - 1]);
    }
  }

  /** In every interleaving at most one call moves an approval to EXECUTED or FAILED. */
  lemma SpentAtMostOnce(cfg: Config, actions: seq<Action>, id: Id)
    ensures |Spenders(Run(cfg, actions).trace, id)| <= 1
  {
    RunInvariant(cfg, actions);
  }

  /** In every interleaving at most one call is answered ALLOWED on an approval, replays aside. */
  lemma AllowedAtMostOnce(cfg: Config, actions: seq<Action>, t1: Tid, t2: Tid, id: Id)
    requires var calls := Run(cfg, actions).calls;
      && t1 in calls && t2 in calls
      && calls[t1].approval == Some(id) && calls[t2].approval == Some(id)
      && Allowing(calls[t1]) && Allowing(calls[t2])
    ensures t1 == t2
  {
    var s := Run(cfg, actions);
    RunInvariant(cfg, actions);
    SameSpender(s.trace, s.store.approvals, t1, s.calls[t1], t2, s.calls[t2], id);
  }

  lemma SameSpender(trace: seq<Event>, st: ApprovalState, t1: Tid, c1: ToolCall, t2: Tid, c2: ToolCall, id: Id)
    requires SpentOnce(trace, st) && AllowedSpent(trace, t1, c1) && AllowedSpent(trace, t2, c2)
    requires c1.approval == Some(id) && c2.approval == Some(id) && Allowing(c1) && Allowing(c2)
    ensures t1 == t2
  {
    assert |Spenders(trace, id)| <= 1;
  }
}
