/**
 How often a tool is dispatched on one approval, exactly.  A call takes an approval up
 when it passes the check of it and holds it until it has marked it.  Two dispatches on
 one approval can come back precisely when a call takes the approval up while another
 call holds it.
 */
module GatewayHolding {
  import opened Wrappers
  import opened GatewayTypes
  import opened Approvals
  import L = ApprovalLifecycle
  import opened GatewayMachine
  import G = GatewayApprovals
  import S = GatewaySpending

  /** A dispatch on the approval that ended in a result, an error result or a gateway exception. */
  predicate CameBack(e: Event, id: Id) {
    e.Dispatched? && e.approvalId == Some(id) && !e.outcome.Escaped?
  }

  ghost function Dispatches(trace: seq<Event>, id: Id): nat {
    if |trace| == 0 then 0 else Dispatches(trace[..|trace| - 1], id) + if CameBack(trace[|trace| - 1], id) then 1 else 0
  }

  lemma AppendDispatch(trace: seq<Event>, e: Event, id: Id)
    ensures Dispatches(trace + [e], id) == Dispatches(trace, id) + if CameBack(e, id) then 1 else 0
  {
    assert (trace + [e])[..|trace|] == trace;
  }

  lemma AppendDispatches(trace: seq<Event>, events: seq<Event>, id: Id)
    requires |events| <= 1
    ensures Dispatches(trace + events, id) == Dispatches(trace, id) + if |events| == 1
      && CameBack(events[0], id) then 1 else 0
  {
    if |events| == 1 {
      AppendDispatch(trace, events[0], id);
      assert trace + events == trace + [events[0]];
    } else {
      assert trace + events == trace;
    }
  }

  // ---- holding an approval

  /** The call has passed the check of the approval and is still to be dispatched on it. */
  predicate Waiting(c: ToolCall, id: Id) {
    c.approval == Some(id) && (c.pc.AtMarkRunning? || c.pc.AtDispatch?)
  }

  /** The call's dispatch on the approval came back and the approval is still to be marked. */
  predicate Marking(c: ToolCall, id: Id) {
    c.approval == Some(id) && (c.pc.AtMarkFailed? || c.pc.AtMarkExecuted?)
  }

  predicate Holds(c: ToolCall, id: Id) {
    Waiting(c, id) || Marking(c, id)
  }

  predicate BeforeSpending(pc: Pc) {
    pc.AtLimit? || pc.AtReserve? || pc.AtLookup? || pc.AtVerify? || pc.AtCreate? || pc.AtPendingAudit?
  }

  /** A call goes on with the approval its request named, once it has passed the check of it. */
  ghost predicate InOrder(c: ToolCall) {
    && (c.approval.Some? ==> c.approval == c.request.approvalId)
    && (BeforeSpending(c.pc) ==> c.approval.None?)
  }

  /** The call stands before the check of the approval and would pass it. */
  ghost predicate Passes(cfg: Config, s: Store, c: ToolCall, id: Id) {
    && c.pc.AtVerify? && c.request.approvalId == Some(id)
    && id in s.approvals.approvals && ApprovalFits(cfg, c, s.approvals.approvals[id])
  }

  /** The action is the step by which a call takes the approval up. */
  ghost predicate TakesUp(cfg: Config, s: System, action: Action, id: Id) {
    action.StepCall? && action.tid in s.calls && Passes(cfg, s.store, s.calls[action.tid], id)
  }

  // ---- one step of one call

  predicate ApprovedIn(st: ApprovalState, id: Id) {
    id in st.approvals && st.approvals[id].status == Approved
  }

  /** How a step moves a call through check, dispatch and mark of an approval. */
  ghost predicate HoldingStep(cfg: Config, s: Store, c: ToolCall, r: StepResult, id: Id) {
    && InOrder(r.call)
    && |r.events| <= 1
    && (Waiting(r.call, id) ==> Waiting(c, id) || Passes(cfg, s, c, id))
    && (Passes(cfg, s, c, id) ==> Waiting(r.call, id) && r.events == [])
    && (Marking(r.call, id) ==> |r.events| == 1 && CameBack(r.events[0], id))
    && (|r.events| == 1 && CameBack(r.events[0], id) ==> Waiting(c, id) && Marking(r.call, id))
    && (|r.events| == 1 && r.events[0].Dispatched? && r.events[0].approvalId == Some(id) ==> c.approval == Some(id))
    && (Marking(c, id) ==> !Holds(r.call, id))
    && (Marking(c, id) && ApprovedIn(s.approvals, id) ==> |r.events| == 1 && r.events[0].Spent? && r.events[0].id == id)
  }

  lemma EarlyStep(cfg: Config, tid: Tid, s: Store, c: ToolCall, tick: Tick, id: Id)
    requires InOrder(c) && (c.pc.AtLimit? || c.pc.AtReserve? || c.pc.AtLookup?)
    ensures HoldingStep(cfg, s, c, Advance(cfg, tid, s, c, tick), id)
  {
  }

  lemma CheckStep(cfg: Config, tid: Tid, s: Store, c: ToolCall, tick: Tick, id: Id)
    requires InOrder(c) && (c.pc.AtVerify? || c.pc.AtCreate? || c.pc.AtPendingAudit?)
    ensures HoldingStep(cfg, s, c, Advance(cfg, tid, s, c, tick), id)
  {
  }

  lemma DispatchingStep(cfg: Config, tid: Tid, s: Store, c: ToolCall, tick: Tick, id: Id)
    requires InOrder(c) && (c.pc.AtMarkRunning? || c.pc.AtDispatch?)
    ensures HoldingStep(cfg, s, c, Advance(cfg, tid, s, c, tick), id)
  {
  }

  lemma LastStep(cfg: Config, tid: Tid, s: Store, c: ToolCall, tick: Tick, id: Id)
    requires InOrder(c) && (c.pc.AtSuccessAudit? || c.pc.AtFailAudit? || c.pc.AtComplete? || Finished(c))
    ensures HoldingStep(cfg, s, c, Advance(cfg, tid, s, c, tick), id)
  {
  }

  /** The mark of an approved approval goes through. */
  lemma MarkGoesThrough(st: ApprovalState, id: Id, actor: Principal, now: Time, reason: string, result: Json)
    requires L.Invariant(st) && id in st.approvals && st.approvals[id].status == Approved
    ensures MarkFailed(st, id, actor, now, reason).1.Ok? && MarkExecuted(st, id, actor, now, result).1.Ok?
  {
    L.GetKeeps(st, id, now);
  }

  /** A mark leaves the call no longer holding the approval, and is refused only when it is not approved. */
  ghost predicate MarkResult(s: Store, c: ToolCall, r: StepResult) {
    && r.call == c.(pc := r.call.pc)
    && (r.call.pc.AtFailAudit? || r.call.pc.AtSuccessAudit?)
    && |r.events| <= 1 && (|r.events| == 1 ==> r.events[0].Spent? && c.approval == Some(r.events[0].id))
    && (c.approval.Some? && ApprovedIn(s.approvals, c.approval.value) ==> |r.events| == 1)
  }

  lemma MarkedStep(cfg: Config, s: Store, c: ToolCall, r: StepResult, id: Id)
    requires InOrder(c) && (c.pc.AtMarkFailed? || c.pc.AtMarkExecuted?) && MarkResult(s, c, r)
    ensures HoldingStep(cfg, s, c, r, id)
  {
  }

  lemma MarkFailedResult(cfg: Config, tid: Tid, s: Store, c: ToolCall, code: ErrorCode, clock: Time)
    requires L.Invariant(s.approvals) && c.pc == AtMarkFailed(code)
    ensures MarkResult(s, c, MarkFailedStep(cfg, tid, s, c, code, clock))
  {
    if c.approval.Some? && ApprovedIn(s.approvals, c.approval.value) {
      MarkGoesThrough(s.approvals, c.approval.value, Actor(cfg, c), clock, CodeText(code), JNull);
    }
  }

  lemma MarkExecutedResult(cfg: Config, tid: Tid, s: Store, c: ToolCall, result: Json, clock: Time)
    requires L.Invariant(s.approvals) && c.pc == AtMarkExecuted(result)
    ensures MarkResult(s, c, MarkExecutedStep(cfg, tid, s, c, result, clock))
  {
    if c.approval.Some? && ApprovedIn(s.approvals, c.approval.value) {
      MarkGoesThrough(s.approvals, c.approval.value, Actor(cfg, c), clock, "", result);
    }
  }

  lemma MarkStep(cfg: Config, tid: Tid, s: Store, c: ToolCall, tick: Tick, id: Id)
    requires L.Invariant(s.approvals) && InOrder(c) && (c.pc.AtMarkFailed? || c.pc.AtMarkExecuted?)
    ensures HoldingStep(cfg, s, c, Advance(cfg, tid, s, c, tick), id)
  {
    if c.pc.AtMarkFailed? {
      MarkFailedResult(cfg, tid, s, c, c.pc.code, tick.clock);
    } else {
      MarkExecutedResult(cfg, tid, s, c, c.pc.result, tick.clock);
    }
    MarkedStep(cfg, s, c, Advance(cfg, tid, s, c, tick), id);
  }

  lemma EveryStep(cfg: Config, tid: Tid, s: Store, c: ToolCall, tick: Tick, id: Id)
    requires L.Invariant(s.approvals) && InOrder(c)
    ensures HoldingStep(cfg, s, c, Advance(cfg, tid, s, c, tick), id)
  {
    if c.pc.AtLimit? || c.pc.AtReserve? || c.pc.AtLookup? {
      EarlyStep(cfg, tid, s, c, tick, id);
    } else if c.pc.AtVerify? || c.pc.AtCreate? || c.pc.AtPendingAudit? {
      CheckStep(cfg, tid, s, c, tick, id);
    } else if c.pc.AtMarkRunning? || c.pc.AtDispatch? {
      DispatchingStep(cfg, tid, s, c, tick, id);
    } else if c.pc.AtMarkFailed? || c.pc.AtMarkExecuted? {
      MarkStep(cfg, tid, s, c, tick, id);
    } else {
      LastStep(cfg, tid, s, c, tick, id);
    }
  }

  // ---- what every run keeps

  ghost predicate AllInOrder(calls: map<Tid, ToolCall>) {
    forall t :: t in calls ==> InOrder(calls[t])
  }

  ghost predicate SomeMarking(calls: map<Tid, ToolCall>, id: Id) {
    exists t :: t in calls && Marking(calls[t], id)
  }

  ghost predicate SomeHolding(calls: map<Tid, ToolCall>, id: Id) {
    exists t :: t in calls && Holds(calls[t], id)
  }

  /** What the dispatches that came back tell about the approval and the calls marking it. */
  ghost predicate Accounted(trace: seq<Event>, st: ApprovalState, calls: map<Tid, ToolCall>, id: Id) {
    && (SomeMarking(calls, id) ==> Dispatches(trace, id) >= 1)
    && (Dispatches(trace, id) >= 1 ==> id in st.approvals && st.approvals[id].approvedAt.Some?)
    && (Dispatches(trace, id) >= 1 && st.approvals[id].status == Approved ==> SomeMarking(calls, id))
  }

  ghost predicate AllAccounted(trace: seq<Event>, st: ApprovalState, calls: map<Tid, ToolCall>) {
    forall id :: Accounted(trace, st, calls, id)
  }

  ghost predicate Invariant(s: System) {
    AllInOrder(s.calls) && AllAccounted(s.trace, s.store.approvals, s.calls)
  }

  /** How a step moves a call through check, dispatch and mark of any approval. */
  ghost predicate EveryHoldingStep(cfg: Config, s: Store, c: ToolCall, r: StepResult) {
    forall id :: HoldingStep(cfg, s, c, r, id)
  }

  /** An approved record that has been granted before was approved before, unless just ended. */
  lemma StillApproved(cfg: Config, trace: seq<Event>, st: ApprovalState, st': ApprovalState, events: seq<Event>, id: Id)
    requires G.AllBacked(cfg, trace, st) && S.EndsOnly(st, st', events)
    requires id in st.approvals && st.approvals[id].approvedAt.Some? && id in st'.approvals
    requires st'.approvals[id].status == Approved
    ensures st.approvals[id].status == Approved && !(|events| == 1 && events[0].Spent? && events[0].id == id)
  {
    assert G.Backed(cfg, trace, st.approvals[id]);
    assert !S.Ended(st'.approvals[id]);
  }

  lemma MarkingMeansDispatched(
    trace: seq<Event>, events: seq<Event>, calls: map<Tid, ToolCall>, tid: Tid, c': ToolCall, id: Id)
    requires SomeMarking(calls, id) ==> Dispatches(trace, id) >= 1
    requires |events| <= 1 && (Marking(c', id) ==> |events| == 1 && CameBack(events[0], id))
    ensures SomeMarking(calls[tid := c'], id) ==> Dispatches(trace + events, id) >= 1
  {
    AppendDispatches(trace, events, id);
    var calls' := calls[tid := c'];
    if t :| t in calls' && Marking(calls'[t], id) {
      assert t != tid ==> t in calls && Marking(calls[t], id);
    }
  }

  /** A step of a call keeps what the dispatches tell. */
  lemma AccountedAfter(
    cfg: Config, trace: seq<Event>, st: ApprovalState, calls: map<Tid, ToolCall>, id: Id, s: Store, tid: Tid,
      r: StepResult)
    requires s.approvals == st && tid in calls && HoldingStep(cfg, s, calls[tid], r, id)
    requires G.AllBacked(cfg, trace, st) && G.CallHolds(cfg, st, calls[tid]) && Accounted(trace, st, calls, id)
    requires S.EndsOnly(st, r.store.approvals, r.events) && G.Evolves(st, r.store.approvals)
    ensures Accounted(trace + r.events, r.store.approvals, calls[tid := r.call], id)
  {
    MarkingMeansDispatched(trace, r.events, calls, tid, r.call, id);
    AppendDispatches(trace, r.events, id);
    if |r.events| == 1 && CameBack(r.events[0], id) {
      assert tid in calls[tid := r.call] && Marking(calls[tid := r.call][tid], id);
    } else if Dispatches(trace, id) >= 1 && r.store.approvals.approvals[id].status == Approved {
      MarkerStays(cfg, trace, st, calls, id, s, tid, r);
    }
  }

  /** As long as the approval stays approved, its marker is still to mark it. */
  lemma MarkerStays(
    cfg: Config, trace: seq<Event>, st: ApprovalState, calls: map<Tid, ToolCall>, id: Id, s: Store, tid: Tid,
      r: StepResult)
    requires s.approvals == st && tid in calls && HoldingStep(cfg, s, calls[tid], r, id)
    requires G.AllBacked(cfg, trace, st) && Accounted(trace, st, calls, id) && Dispatches(trace, id) >= 1
    requires S.EndsOnly(st, r.store.approvals, r.events)
    requires id in r.store.approvals.approvals && r.store.approvals.approvals[id].status == Approved
    ensures SomeMarking(calls[tid := r.call], id)
  {
    StillApproved(cfg, trace, st, r.store.approvals, r.events, id);
    var t :| t in calls && Marking(calls[t], id);
    assert t != tid;
    assert t in calls[tid := r.call] && Marking(calls[tid := r.call][t], id);
  }

  lemma AllAccountedAfter(
    cfg: Config, trace: seq<Event>, st: ApprovalState, calls: map<Tid, ToolCall>, s: Store, tid: Tid, r: StepResult)
    requires s.approvals == st && tid in calls && EveryHoldingStep(cfg, s, calls[tid], r)
    requires G.AllBacked(cfg, trace, st) && G.CallHolds(cfg, st, calls[tid]) && AllAccounted(trace, st, calls)
    requires S.EndsOnly(st, r.store.approvals, r.events) && G.Evolves(st, r.store.approvals)
    ensures AllAccounted(trace + r.events, r.store.approvals, calls[tid := r.call])
  {
    var trace', calls' := trace + r.events, calls[tid := r.call];
    forall id
      ensures Accounted(trace', r.store.approvals, calls', id)
    {
      AccountedAfter(cfg, trace, st, calls, id, s, tid, r);
    }
  }

  lemma InOrderAfter(cfg: Config, calls: map<Tid, ToolCall>, s: Store, tid: Tid, r: StepResult)
    requires AllInOrder(calls) && tid in calls && EveryHoldingStep(cfg, s, calls[tid], r)
    ensures AllInOrder(calls[tid := r.call])
  {
    assert HoldingStep(cfg, s, calls[tid], r, Id(0));
  }

  lemma StepHolds(cfg: Config, tid: Tid, s: Store, c: ToolCall, tick: Tick)
    requires L.Invariant(s.approvals) && InOrder(c)
    ensures EveryHoldingStep(cfg, s, c, Advance(cfg, tid, s, c, tick))
  {
    var r := Advance(cfg, tid, s, c, tick);
    forall id
      ensures HoldingStep(cfg, s, c, r, id)
    {
      EveryStep(cfg, tid, s, c, tick, id);
    }
  }

  lemma CallStepKeeps(cfg: Config, s: System, tid: Tid, tick: Tick)
    requires G.Invariant(cfg, s) && Invariant(s) && tid in s.calls
    ensures Invariant(Act(cfg, s, StepCall(tid, tick)))
  {
    G.AdvanceKeeps(cfg, tid, s.trace, s.store, s.calls[tid], tick);
    S.StepEnds(cfg, tid, s.store, s.calls[tid], tick);
    StepHolds(cfg, tid, s.store, s.calls[tid], tick);
    AfterCall(cfg, s, tid, Advance(cfg, tid, s.store, s.calls[tid], tick));
  }

  lemma AfterCall(cfg: Config, s: System, tid: Tid, r: StepResult)
    requires G.Invariant(cfg, s) && Invariant(s) && tid in s.calls && EveryHoldingStep(cfg, s.store, s.calls[tid], r)
    requires S.EndsOnly(s.store.approvals, r.store.approvals, r.events)
    requires G.StepKeeps(cfg, s.trace, s.store.approvals, r)
    ensures Invariant(s.(store := r.store, calls := s.calls[tid := r.call], trace := s.trace + r.events))
  {
    InOrderAfter(cfg, s.calls, s.store, tid, r);
    AllAccountedAfter(cfg, s.trace, s.store.approvals, s.calls, s.store, tid, r);
  }

  /** A step of no call: approvals evolve, nothing is spent, and no dispatch comes back. */
  lemma OtherKeeps(cfg: Config, s: System, st': ApprovalState, events: seq<Event>)
    requires G.Invariant(cfg, s) && Invariant(s) && |events| <= 1 && forall e :: e in events ==>
      !e.Spent? && !e.Dispatched?
    requires S.EndsOnly(s.store.approvals, st', events) && G.Evolves(s.store.approvals, st')
    ensures AllAccounted(s.trace + events, st', s.calls)
  {
    var trace' := s.trace + events;
    forall id
      ensures Accounted(trace', st', s.calls, id)
    {
      AppendDispatches(s.trace, events, id);
      assert Accounted(s.trace, s.store.approvals, s.calls, id);
      if Dispatches(s.trace, id) >= 1 && st'.approvals[id].status == Approved {
        StillApproved(cfg, s.trace, s.store.approvals, st', events, id);
      }
    }
  }

  /** A step of a ruling, as far as holding is concerned. */
  ghost predicate HarmlessRuling(cfg: Config, trace: seq<Event>, s: Store, r: RulingResult) {
    && G.Evolves(s.approvals, r.store.approvals) && S.EndsOnly(s.approvals, r.store.approvals, r.events)
    && |r.events| <= 1 && forall e :: e in r.events ==> !e.Spent? && !e.Dispatched?
  }

  lemma RulingIsHarmless(cfg: Config, trace: seq<Event>, s: Store, r: Ruling)
    requires L.Invariant(s.approvals) && G.AllBacked(cfg, trace, s.approvals) && G.RulingHolds(cfg, s.approvals, r)
    ensures HarmlessRuling(cfg, trace, s, Rule(cfg, s, r))
  {
    G.RuleKeeps(cfg, trace, s, r);
    S.RuleEnds(cfg, s, r);
    S.RuleSpendsNothing(cfg, s, r);
  }

  lemma RulingKeeps(cfg: Config, s: System, tid: Tid)
    requires G.Invariant(cfg, s) && Invariant(s) && tid in s.rulings
    ensures Invariant(Act(cfg, s, StepRuling(tid)))
  {
    RulingIsHarmless(cfg, s.trace, s.store, s.rulings[tid]);
    AfterRuling(cfg, s, tid, Rule(cfg, s.store, s.rulings[tid]));
  }

  lemma AfterRuling(cfg: Config, s: System, tid: Tid, r: RulingResult)
    requires G.Invariant(cfg, s) && Invariant(s) && tid in s.rulings && HarmlessRuling(cfg, s.trace, s.store, r)
    ensures Invariant(s.(store := r.store, rulings := s.rulings[tid := r.ruling], trace := s.trace + r.events))
  {
    OtherKeeps(cfg, s, r.store.approvals, r.events);
  }

  lemma ReadKeeps(cfg: Config, s: System, st': ApprovalState)
    requires G.Invariant(cfg, s) && Invariant(s) && G.OnlyExpires(s.store.approvals, st')
    ensures Invariant(s.(store := s.store.(approvals := st')))
  {
    S.ExpiriesEndNothing(s.store.approvals, st');
    G.ExpiriesKeep(cfg, s.trace, s.store.approvals, st');
    assert s.trace + [] == s.trace;
    OtherKeeps(cfg, s, st', []);
  }

  lemma StartKeeps(s: System, tid: Tid, c: ToolCall)
    requires Invariant(s) && tid !in s.calls && c.approval.None?
    ensures Invariant(s.(calls := s.calls[tid := c]))
  {
    var calls' := s.calls[tid := c];
    forall id
      ensures SomeMarking(calls', id) == SomeMarking(s.calls, id)
    {
      if t :| t in s.calls && Marking(s.calls[t], id) {
        assert t in calls' && Marking(calls'[t], id);
      }
    }
    forall id
      ensures Accounted(s.trace, s.store.approvals, calls', id)
    {
      assert Accounted(s.trace, s.store.approvals, s.calls, id);
    }
  }

  lemma ListKeeps(cfg: Config, s: System, now: Time)
    requires G.Invariant(cfg, s) && Invariant(s)
    ensures Invariant(s.(store := s.store.(approvals := ExpirePending(s.store.approvals, now))))
  {
    G.SweepOnlyExpires(s.store.approvals, s.store.approvals.order, now);
    ReadKeeps(cfg, s, ExpirePending(s.store.approvals, now));
  }

  lemma DetailKeeps(cfg: Config, s: System, id: Id, now: Time)
    requires G.Invariant(cfg, s) && Invariant(s)
    ensures Invariant(s.(store := s.store.(approvals := Detail(s.store.approvals, id, now).0)))
  {
    G.GetOnlyExpires(s.store.approvals, id, now);
    ReadKeeps(cfg, s, Detail(s.store.approvals, id, now).0);
  }

  lemma ActKeeps(cfg: Config, s: System, action: Action)
    requires G.Invariant(cfg, s) && Invariant(s)
    ensures Invariant(Act(cfg, s, action))
  {
    match action
    case StartCall(tid, request, now) =>
      if tid !in s.calls {
        StartKeeps(s, tid, ToolCall(request, now, Admission(cfg, request), false, None));
      }
    case StepCall(tid, tick) =>
      if tid in s.calls {
        CallStepKeeps(cfg, s, tid, tick);
      }
    case StartRuling(tid, authToken, id, verb, now) =>
    case StepRuling(tid) =>
      if tid in s.rulings {
        RulingKeeps(cfg, s, tid);
      }
    case ListApprovals(authToken, now) => ListKeeps(cfg, s, now);
    case GetApproval(authToken, id, now) => DetailKeeps(cfg, s, id, now);
  }

  lemma {:induction false} RunInvariant(cfg: Config, actions: seq<Action>)
    ensures Invariant(Run(cfg, actions))
  {
    if |actions| > 0 {
      RunInvariant(cfg, actions[..|actions| - 1]);
      G.RunInvariant(cfg, actions[..|actions| - 1]);
      ActKeeps(cfg, Run(cfg, actions[..|actions| - 1]), actions[|actions| - 1]);
    }
  }

  // ---- when a second dispatch can come back

  /** Dispatches that came back and calls still waiting for theirs make two or more. */
  ghost predicate AtRisk(s: System, id: Id) {
    || Dispatches(s.trace, id) >= 2
    || (Dispatches(s.trace, id) == 1 && exists t :: t in s.calls && Waiting(s.calls[t], id))
    || exists t, u :: t in s.calls && u in s.calls && t != u && Waiting(s.calls[t], id) && Waiting(s.calls[u], id)
  }

  /** No call takes the approval up in the course of the actions. */
  ghost predicate NoneTakesUp(cfg: Config, s: System, actions: seq<Action>, id: Id)
    decreases |actions|
  {
    |actions| > 0 ==> !TakesUp(cfg, s, actions[0], id) && NoneTakesUp(cfg, Act(cfg, s, actions[0]), actions[1..], id)
  }

  ghost predicate CanDispatchTwice(cfg: Config, s: System, id: Id) {
    exists more :: NoneTakesUp(cfg, s, more, id) && Dispatches(From(cfg, s, more).trace, id) >= 2
  }

  /** What an action does to the dispatches and to the calls waiting for one. */
  ghost predicate WaitersStep(s: System, s': System, id: Id, taker: Option<Tid>) {
    && WaitersFrom(s.calls, s'.calls, id, taker)
    && DispatchesStep(s.calls, s'.calls, s.trace, s'.trace, id)
  }

  /** At most one dispatch comes back, that of a call which waits no longer. */
  ghost predicate DispatchesStep(
    calls: map<Tid, ToolCall>, calls': map<Tid, ToolCall>, trace: seq<Event>, trace': seq<Event>, id: Id) {
    || Dispatches(trace', id) == Dispatches(trace, id)
    || (Dispatches(trace', id) == Dispatches(trace, id) + 1 && OneCeases(calls, calls', id))
  }

  /** Only the taker comes to wait. */
  ghost predicate WaitersFrom(calls: map<Tid, ToolCall>, calls': map<Tid, ToolCall>, id: Id, taker: Option<Tid>) {
    forall t :: t in calls' && Waiting(calls'[t], id) ==> (t in calls && Waiting(calls[t], id)) || taker == Some(t)
  }

  ghost predicate OneCeases(calls: map<Tid, ToolCall>, calls': map<Tid, ToolCall>, id: Id) {
    exists t :: t in calls && Waiting(calls[t], id) && t in calls' && !Waiting(calls'[t], id)
  }

  /** One call moves on. */
  lemma CallsWaiting(calls: map<Tid, ToolCall>, tid: Tid, c': ToolCall, id: Id, takes: bool)
    requires tid in calls && (Waiting(c', id) ==> Waiting(calls[tid], id) || takes)
    ensures WaitersFrom(calls, calls[tid := c'], id, if takes then Some(tid) else None)
  {
  }

  lemma CallsDispatched(
    calls: map<Tid, ToolCall>, tid: Tid, c': ToolCall, trace: seq<Event>, events: seq<Event>, id: Id)
    requires tid in calls && |events| <= 1
    requires |events| == 1 && CameBack(events[0], id) ==> Waiting(calls[tid], id) && !Waiting(c', id)
    ensures DispatchesStep(calls, calls[tid := c'], trace, trace + events, id)
  {
    AppendDispatches(trace, events, id);
    var calls' := calls[tid := c'];
    assert tid in calls' && calls'[tid] == c';
  }

  lemma CallWaiters(cfg: Config, s: System, tid: Tid, r: StepResult, id: Id)
    requires tid in s.calls && HoldingStep(cfg, s.store, s.calls[tid], r, id)
    ensures WaitersStep(s, s.(store := r.store, calls := s.calls[tid := r.call], trace := s.trace + r.events), id,
                        if Passes(cfg, s.store, s.calls[tid], id) then Some(tid) else None)
  {
    CallsWaiting(s.calls, tid, r.call, id, Passes(cfg, s.store, s.calls[tid], id));
    CallsDispatched(s.calls, tid, r.call, s.trace, r.events, id);
  }

  lemma StepWaiters(cfg: Config, s: System, tid: Tid, tick: Tick, id: Id)
    requires L.Invariant(s.store.approvals) && AllInOrder(s.calls) && tid in s.calls
    ensures WaitersStep(s, Act(cfg, s, StepCall(tid, tick)), id,
      if Passes(cfg, s.store, s.calls[tid], id) then Some(tid) else None)
  {
    EveryStep(cfg, tid, s.store, s.calls[tid], tick, id);
    CallWaiters(cfg, s, tid, Advance(cfg, tid, s.store, s.calls[tid], tick), id);
  }

  lemma RulingWaiters(cfg: Config, s: System, tid: Tid, id: Id)
    requires tid in s.rulings
    ensures WaitersStep(s, Act(cfg, s, StepRuling(tid)), id, None)
  {
    var r := Rule(cfg, s.store, s.rulings[tid]);
    S.RuleSpendsNothing(cfg, s.store, s.rulings[tid]);
    AppendDispatches(s.trace, r.events, id);
  }

  lemma NoTakerNoRisk(s: System, s': System, id: Id)
    requires WaitersStep(s, s', id, None) && !AtRisk(s, id)
    ensures !AtRisk(s', id)
  {
  }

  /** An action by which no call takes the approval up puts nothing at risk. */
  lemma OtherActionsAreSafe(cfg: Config, s: System, action: Action, id: Id)
    requires L.Invariant(s.store.approvals) && AllInOrder(s.calls) && !AtRisk(s, id) && !TakesUp(cfg, s, action, id)
    ensures !AtRisk(Act(cfg, s, action), id)
  {
    if action.StepCall? && action.tid in s.calls {
      StepWaiters(cfg, s, action.tid, action.tick, id);
      NoTakerNoRisk(s, Act(cfg, s, action), id);
    } else if action.StepRuling? && action.tid in s.rulings {
      RulingWaiters(cfg, s, action.tid, id);
      NoTakerNoRisk(s, Act(cfg, s, action), id);
    }
  }

  lemma {:induction false} SafeStaysSafe(cfg: Config, before: seq<Action>, more: seq<Action>, id: Id)
    requires !AtRisk(Run(cfg, before), id) && NoneTakesUp(cfg, Run(cfg, before), more, id)
    ensures !AtRisk(From(cfg, Run(cfg, before), more), id)
    decreases |more|
  {
    if |more| > 0 {
      RunInvariant(cfg, before);
      G.RunInvariant(cfg, before);
      OtherActionsAreSafe(cfg, Run(cfg, before), more[0], id);
      assert (before + [more[0]])[..|before|] == before;
      SafeStaysSafe(cfg, before + [more[0]], more[1..], id);
    }
  }

  // ---- making the second dispatch

  const BACK := Tick(0, Id(0), Returned(JNull))

  /** Two steps bring a waiting call's dispatch back, without touching the other calls. */
  lemma WaitingComesBack(cfg: Config, s: System, t: Tid, id: Id) returns (more: seq<Action>)
    requires t in s.calls && Waiting(s.calls[t], id)
    ensures NoneTakesUp(cfg, s, more, id)
    ensures var s' := From(cfg, s, more);
      Dispatches(s'.trace, id) == Dispatches(s.trace, id) + 1
        && (forall u :: u in s.calls && u != t ==> u in s'.calls && s'.calls[u] == s.calls[u])
  {
    var a := StepCall(t, BACK);
    if s.calls[t].pc.AtDispatch? {
      more := [a];
      DispatchComesBack(cfg, s, t, id);
      assert more[1..] == [];
      assert From(cfg, s, more) == From(cfg, Act(cfg, s, a), []);
    } else {
      more := [a, a];
      RunningStep(cfg, s, t, id);
      DispatchComesBack(cfg, Act(cfg, s, a), t, id);
      assert more[1..] == [a] && [a][1..] == [];
      assert From(cfg, Act(cfg, s, a), [a]) == From(cfg, Act(cfg, Act(cfg, s, a), a), []);
    }
  }

  lemma RunningStep(cfg: Config, s: System, t: Tid, id: Id)
    requires t in s.calls && s.calls[t].pc.AtMarkRunning? && s.calls[t].approval == Some(id)
    ensures var s' := Act(cfg, s, StepCall(t, BACK));
      s'.trace == s.trace && s'.calls == s.calls[t := s.calls[t].(pc := AtDispatch)]
  {
    assert s.trace + [] == s.trace;
  }

  lemma DispatchReturns(cfg: Config, s: System, t: Tid)
    requires t in s.calls && s.calls[t].pc.AtDispatch? && s.calls[t].approval.Some?
    ensures var s' := Act(cfg, s, StepCall(t, BACK));
      s'.calls == s.calls[t := s.calls[t].(pc := AtMarkExecuted(JNull))]
      && s'.trace == s.trace + DispatchStep(cfg, t, s.store, s.calls[t], Returned(JNull)).events
  {
  }

  lemma DispatchComesBack(cfg: Config, s: System, t: Tid, id: Id)
    requires t in s.calls && s.calls[t].pc.AtDispatch? && s.calls[t].approval == Some(id)
    ensures var s' := Act(cfg, s, StepCall(t, BACK));
      Dispatches(s'.trace, id) == Dispatches(s.trace, id) + 1
        && s'.calls == s.calls[t := s.calls[t].(pc := AtMarkExecuted(JNull))]
  {
    DispatchReturns(cfg, s, t);
    AppendDispatches(s.trace, DispatchStep(cfg, t, s.store, s.calls[t], Returned(JNull)).events, id);
  }

  lemma {:induction false} NoneTakesUpThen(cfg: Config, s: System, first: seq<Action>, second: seq<Action>, id: Id)
    requires NoneTakesUp(cfg, s, first, id) && NoneTakesUp(cfg, From(cfg, s, first), second, id)
    ensures NoneTakesUp(cfg, s, first + second, id)
    decreases |first|
  {
    if |first| == 0 {
      assert first + second == second;
    } else {
      assert (first + second)[1..] == first[1..] + second && (first + second)[0] == first[0];
      NoneTakesUpThen(cfg, Act(cfg, s, first[0]), first[1..], second, id);
    }
  }

  lemma RiskIsReal(cfg: Config, s: System, id: Id)
    requires AtRisk(s, id)
    ensures CanDispatchTwice(cfg, s, id)
  {
    if Dispatches(s.trace, id) >= 2 {
      assert From(cfg, s, []) == s && NoneTakesUp(cfg, s, [], id);
    } else if Dispatches(s.trace, id) == 1 {
      var t := WaitingOne(s, id);
      var more := WaitingComesBack(cfg, s, t, id);
    } else {
      var t, u :| t in s.calls && u in s.calls && t != u && Waiting(s.calls[t], id) && Waiting(s.calls[u], id);
      var first := WaitingComesBack(cfg, s, t, id);
      var second := WaitingComesBack(cfg, From(cfg, s, first), u, id);
      NoneTakesUpThen(cfg, s, first, second, id);
      FromThenFrom(cfg, s, first, second);
    }
  }

  lemma WaitingOne(s: System, id: Id) returns (t: Tid)
    requires AtRisk(s, id) && Dispatches(s.trace, id) == 1
    ensures t in s.calls && Waiting(s.calls[t], id)
  {
    t :| t in s.calls && Waiting(s.calls[t], id);
  }

  /**
   From any reachable state, without further calls taking the approval up, a second dispatch
   can come back exactly when it is at risk.
   */
  lemma DispatchTwiceIff(cfg: Config, actions: seq<Action>, id: Id)
    ensures CanDispatchTwice(cfg, Run(cfg, actions), id) <==> AtRisk(Run(cfg, actions), id)
  {
    var s := Run(cfg, actions);
    if AtRisk(s, id) {
      RiskIsReal(cfg, s, id);
    } else if CanDispatchTwice(cfg, s, id) {
      var more :| NoneTakesUp(cfg, s, more, id) && Dispatches(From(cfg, s, more).trace, id) >= 2;
      SafeStaysSafe(cfg, actions, more, id);
    }
  }

  // ---- taking an approval up

  /** Taking an approval up puts it at risk exactly when some call holds it already. */
  lemma TakingUpPutsAtRiskIff(cfg: Config, s: System, tid: Tid, tick: Tick, id: Id)
    requires L.Invariant(s.store.approvals) && Invariant(s) && !AtRisk(s, id)
    requires TakesUp(cfg, s, StepCall(tid, tick), id)
    ensures AtRisk(Act(cfg, s, StepCall(tid, tick)), id) <==> SomeHolding(s.calls, id)
  {
    var r := Advance(cfg, tid, s.store, s.calls[tid], tick);
    EveryStep(cfg, tid, s.store, s.calls[tid], tick, id);
    TakerWaits(cfg, s, tid, r, id);
    assert s.trace + [] == s.trace;
  }

  lemma TakerWaits(cfg: Config, s: System, tid: Tid, r: StepResult, id: Id)
    requires Invariant(s) && !AtRisk(s, id) && tid in s.calls && Passes(cfg, s.store, s.calls[tid], id)
    requires HoldingStep(cfg, s.store, s.calls[tid], r, id)
    ensures AtRisk(s.(store := r.store, calls := s.calls[tid := r.call], trace := s.trace + r.events), id) <==>
      SomeHolding(s.calls, id)
  {
    var s' := s.(store := r.store, calls := s.calls[tid := r.call], trace := s.trace + r.events);
    assert s.trace + [] == s.trace;
    assert Waiting(s'.calls[tid], id) && !Holds(s.calls[tid], id);
    assert Accounted(s.trace, s.store.approvals, s.calls, id);
    if SomeHolding(s.calls, id) {
      var t :| t in s.calls && Holds(s.calls[t], id);
      assert t != tid && s'.calls[t] == s.calls[t];
    }
  }

  /** Taking an approval up opens the way to a second dispatch exactly when some call holds it already. */
  lemma TakingUpAllowsTwiceIff(cfg: Config, actions: seq<Action>, tid: Tid, tick: Tick, id: Id)
    requires !AtRisk(Run(cfg, actions), id) && TakesUp(cfg, Run(cfg, actions), StepCall(tid, tick), id)
    ensures CanDispatchTwice(cfg, Run(cfg, actions + [StepCall(tid, tick)]), id) <==>
      SomeHolding(Run(cfg, actions).calls, id)
  {
    var s := Run(cfg, actions);
    RunInvariant(cfg, actions);
    G.RunInvariant(cfg, actions);
    TakingUpPutsAtRiskIff(cfg, s, tid, tick, id);
    assert (actions + [StepCall(tid, tick)])[..|actions|] == actions;
    DispatchTwiceIff(cfg, actions + [StepCall(tid, tick)], id);
  }

  // ---- runs in which nobody takes a held approval up

  /** The approval is taken up only while no call holds it. */
  ghost predicate HeldAlone(cfg: Config, actions: seq<Action>, id: Id) {
    |actions| > 0 ==>
      && HeldAlone(cfg, actions[..|actions| - 1], id)
      && (TakesUp(cfg, Run(cfg, actions[..|actions| - 1]), actions[|actions| - 1], id) ==>
            !SomeHolding(Run(cfg, actions[..|actions| - 1]).calls, id))
  }

  lemma {:induction false} NeverAtRisk(cfg: Config, actions: seq<Action>, id: Id)
    requires HeldAlone(cfg, actions, id)
    ensures !AtRisk(Run(cfg, actions), id)
  {
    if |actions| > 0 {
      var front, a := actions[..|actions| - 1], actions[|actions| - 1];
      NeverAtRisk(cfg, front, id);
      RunInvariant(cfg, front);
      G.RunInvariant(cfg, front);
      if TakesUp(cfg, Run(cfg, front), a, id) {
        TakingUpPutsAtRiskIff(cfg, Run(cfg, front), a.tid, a.tick, id);
      } else {
        OtherActionsAreSafe(cfg, Run(cfg, front), a, id);
      }
    }
  }

  /** If at most one call at a time holds the approval, at most one dispatch on it comes back. */
  lemma DispatchedAtMostOnce(cfg: Config, actions: seq<Action>, id: Id)
    requires HeldAlone(cfg, actions, id)
    ensures Dispatches(Run(cfg, actions).trace, id) <= 1
  {
    NeverAtRisk(cfg, actions, id);
  }
}
