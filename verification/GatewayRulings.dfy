/**
 What approve_operation and reject_operation answer and leave behind, by the caller, the
 record and the clock alone.
 */
module GatewayRulings {
  import opened Wrappers
  import opened GatewayTypes
  import opened Approvals
  import opened GatewayMachine
  import opened GatewayTerms
  import opened ApprovalEffects

  /** A caller who is let through to a live record rules on it as the verb says, if it is still pending. */
  ghost predicate RulesOn(st: ApprovalState, st': ApprovalState, r: Reply, p: Principal, id: Id, verb: Verb, now: Time)
    requires Live(st, id, now)
  {
    var a := st.approvals[id];
    if a.status != Pending then st' == st && r == Err(ApprovalDenied)
    else
      && r.Ok?
      && match verb
         case Approving =>
           && ApprovedAs(a, r.value, p, now)
           && Becomes(st, st', r.value, "approval.approved", p, now, "APPROVED", "Approval granted.")
         case Rejecting(reason) =>
           && RejectedAs(a, r.value, p, reason, now)
           && Becomes(st, st', r.value, "approval.rejected", p, now, "REJECTED", reason)
  }

  /**
   An unknown caller is refused; a missing or lapsed record is reported; a caller who lacks
   the permission, is an AI agent or asked for the operation itself decides nothing.
   */
  ghost predicate RulingAnswered(
    cfg: Config, st: ApprovalState, st': ApprovalState, r: Reply, authToken: string, id: Id, verb: Verb, now: Time)
  {
    var p := cfg.authenticate(authToken);
    if p.None? then st' == st && r == Err(ErrorCode.AuthenticationFailed)
    else if !Live(st, id, now) then FindsNone(st, st', r, id, now)
    else if cfg.permits(p.value.role, "approvals:approve") && p.value.ptype != AiAgent
         && p.value.id != st.approvals[id].requesterId
    then RulesOn(st, st', r, p.value, id, verb, now)
    else st' == st && r == Err(PermissionDenied)
  }

  /** The two steps of a ruling, nothing in between. */
  function Decide(cfg: Config, s: Store, p: Principal, id: Id, verb: Verb, now: Time): RulingResult {
    var first := Rule(cfg, s, Ruling(p, id, verb, now, AtGet));
    Rule(cfg, first.store, first.ruling)
  }

  lemma DecisionRules(st: ApprovalState, p: Principal, id: Id, verb: Verb, now: Time)
    requires Keyed(st) && Live(st, id, now)
    ensures verb.Approving? ==>
      RulesOn(st, Approve(st, id, p, now).0, Approve(st, id, p, now).1, p, id, verb, now)
    ensures verb.Rejecting? ==>
      RulesOn(st, Reject(st, id, p, verb.reason, now).0, Reject(st, id, p, verb.reason, now).1, p, id, verb, now)
  {
    ApproveEffect(st, id, p, now);
    if verb.Rejecting? {
      RejectEffect(st, id, p, verb.reason, now);
    }
  }

  /** What a ruling in one go answers. */
  lemma RulingAnswers(cfg: Config, s: Store, authToken: string, p: Principal, id: Id, verb: Verb, now: Time)
    requires Keyed(s.approvals) && cfg.authenticate(authToken) == Some(p)
    ensures var r := Decide(cfg, s, p, id, verb, now);
      && r.ruling.pc.Ruled?
      && r.store == s.(approvals := r.store.approvals)
      && RulingAnswered(cfg, s.approvals, r.store.approvals, r.ruling.pc.reply, authToken, id, verb, now)
  {
    GetEffect(s.approvals, id, now);
    if Live(s.approvals, id, now) {
      DecisionRules(s.approvals, p, id, verb, now);
    }
  }
}
