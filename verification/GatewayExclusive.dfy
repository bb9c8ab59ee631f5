/**
 What a caller can do to have an approval dispatched on at most once: start a call that
 names it only when every earlier call naming it has ended.  Then no call takes the
 approval up while another one holds it.
 */
module GatewayExclusive {
  import opened Wrappers
  import opened GatewayTypes
  import opened GatewayMachine
  import opened H = GatewayHolding

  predicate Carries(c: ToolCall, id: Id) {
    c.request.approvalId == Some(id)
  }

  /** A call that names the approval starts only after every earlier call naming it has ended. */
  ghost predicate StartsAlone(s: System, action: Action, id: Id) {
    action.StartCall? && action.tid !in s.calls && action.request.approvalId == Some(id) ==>
      forall t :: t in s.calls && Carries(s.calls[t], id) ==> Finished(s.calls[t])
  }

  ghost predicate ExclusiveRun(cfg: Config, actions: seq<Action>, id: Id) {
    |actions| > 0 ==>
      && ExclusiveRun(cfg, actions[..|actions| - 1], id)
      && StartsAlone(Run(cfg, actions[..|actions| - 1]), actions[|actions| - 1], id)
  }

  /** At most one call in flight names the approval. */
  ghost predicate Alone(calls: map<Tid, ToolCall>, id: Id) {
    forall t, u :: t in calls && u in calls && InFlightOn(calls[t], id) && InFlightOn(calls[u], id) ==> t == u
  }

  predicate InFlightOn(c: ToolCall, id: Id) {
    Carries(c, id) && !Finished(c)
  }

  lemma StepKeepsRequest(cfg: Config, tid: Tid, s: Store, c: ToolCall, tick: Tick)
    ensures Advance(cfg, tid, s, c, tick).call.request == c.request
    ensures Finished(c) ==> Advance(cfg, tid, s, c, tick).call == c
  {
  }

  lemma AloneAfter(calls: map<Tid, ToolCall>, tid: Tid, c': ToolCall, id: Id)
    requires Alone(calls, id) && tid in calls && c'.request == calls[tid].request
    requires (Finished(calls[tid]) ==> c' == calls[tid])
    ensures Alone(calls[tid := c'], id)
  {
  }

  lemma ActKeeps(cfg: Config, s: System, action: Action, id: Id)
    requires Alone(s.calls, id) && StartsAlone(s, action, id)
    ensures Alone(Act(cfg, s, action).calls, id)
  {
    if action.StepCall? && action.tid in s.calls {
      StepKeepsRequest(cfg, action.tid, s.store, s.calls[action.tid], action.tick);
      AloneAfter(s.calls, action.tid, Advance(cfg, action.tid, s.store, s.calls[action.tid], action.tick).call, id);
    }
  }

  lemma {:induction false} RunInvariant(cfg: Config, actions: seq<Action>, id: Id)
    requires ExclusiveRun(cfg, actions, id)
    ensures Alone(Run(cfg, actions).calls, id)
  {
    if |actions| > 0 {
      RunInvariant(cfg, actions[..|actions| - 1], id);
      ActKeeps(cfg, Run(cfg, actions[..|actions| - 1]), actions[|actions| - 1], id);
    }
  }

  /** The only call in flight on the approval stands at its check, so none holds it. */
  lemma NoneHolds(cfg: Config, s: System, action: Action, id: Id)
    requires Alone(s.calls, id) && AllInOrder(s.calls) && TakesUp(cfg, s, action, id)
    ensures !SomeHolding(s.calls, id)
  {
    if t :| t in s.calls && Holds(s.calls[t], id) {
      assert InOrder(s.calls[t]);
      assert InFlightOn(s.calls[t], id) && InFlightOn(s.calls[action.tid], id);
    }
  }

  lemma {:induction false} ExclusiveIsHeldAlone(cfg: Config, actions: seq<Action>, id: Id)
    requires ExclusiveRun(cfg, actions, id)
    ensures HeldAlone(cfg, actions, id)
  {
    if |actions| > 0 {
      var front, a := actions[..|actions| - 1], actions[|actions| - 1];
      ExclusiveIsHeldAlone(cfg, front, id);
      RunInvariant(cfg, front, id);
      H.RunInvariant(cfg, front);
      if TakesUp(cfg, Run(cfg, front), a, id) {
        NoneHolds(cfg, Run(cfg, front), a, id);
      }
    }
  }

  /** With no two calls naming the approval in flight together, at most one dispatch on it comes back. */
  lemma DispatchedAtMostOnce(cfg: Config, actions: seq<Action>, id: Id)
    requires ExclusiveRun(cfg, actions, id)
    ensures Dispatches(Run(cfg, actions).trace, id) <= 1
  {
    ExclusiveIsHeldAlone(cfg, actions, id);
    H.DispatchedAtMostOnce(cfg, actions, id);
  }
}
