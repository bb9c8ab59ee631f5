/**
 What find_path promises, in terms of the request and the fields of the edges alone: which
 routes it may answer, what a route costs, and that no permitted route costs less.
 */
module PathTerms {
  import opened CapabilityGraph
  import opened Frontier
  import opened PathSearch

  // ---- the score of an edge

  /** How dangerous a risk level is: the five known ones in order, and above them whatever is unknown. */
  function Danger(risk: string): nat {
    if risk == "READ_ONLY" then 0
    else if risk == "LOW" then 1
    else if risk == "MEDIUM" then 2
    else if risk == "HIGH" then 3
    else if risk == "CRITICAL" then 4
    else 5
  }

  /** A server whose name ends as those of this system do. */
  ghost predicate Local(server: string) {
    exists name :: server == name + "-mcp"
  }

  lemma EndsWithIff(s: string, suffix: string)
    ensures EndsWith(s, suffix) <==> exists front :: s == front + suffix
  {
    if EndsWith(s, suffix) {
      assert s == s[..|s| - |suffix|] + suffix;
    }
    if front :| s == front + suffix {
      assert s[|s| - |suffix|..] == suffix;
    }
  }

  lemma LocalIff(e: Edge)
    ensures Local(e.mcpServer) <==> EndsWith(e.mcpServer, "-mcp")
  {
    EndsWithIff(e.mcpServer, "-mcp");
  }

  /** A score rises one for one with the cost of the edge, and only cost, risk and server count. */
  lemma ScoreFollowsCost(a: Edge, b: Edge, riskWeight: bool)
    requires a.risk == b.risk && a.mcpServer == b.mcpServer
    ensures EdgeScore(b, riskWeight) - EdgeScore(a, riskWeight) == b.cost - a.cost
  {
  }

  /** It rises strictly with the danger, and does not depend on the risk in any other way. */
  lemma ScoreFollowsRisk(a: Edge, b: Edge, riskWeight: bool)
    requires a.cost == b.cost && a.mcpServer == b.mcpServer
    ensures EdgeScore(a, riskWeight) < EdgeScore(b, riskWeight) <==> Danger(a.risk) < Danger(b.risk)
    ensures EdgeScore(a, riskWeight) == EdgeScore(b, riskWeight) <==> Danger(a.risk) == Danger(b.risk)
  {
  }

  /** "lowest_risk" counts four times the risk that the other strategies count. */
  lemma RiskCountsFour(a: Edge, b: Edge)
    requires a.cost == b.cost && a.mcpServer == b.mcpServer
    ensures EdgeScore(b, true) - EdgeScore(a, true) == 4.0 * (EdgeScore(b, false) - EdgeScore(a, false))
  {
  }

  /** A local server is a tenth cheaper. */
  lemma LocalIsCheaper(a: Edge, b: Edge, riskWeight: bool)
    requires a.cost == b.cost && a.risk == b.risk && Local(a.mcpServer)
    ensures EdgeScore(b, riskWeight) - EdgeScore(a, riskWeight) == if Local(b.mcpServer) then 0.0 else 0.1
  {
    LocalIff(a);
    LocalIff(b);
  }

  /** What a step costs: its own cost, a penalty for its risk, and one for the way to its server. */
  ghost function StepCost(e: Edge, riskWeight: bool): real {
    var penalty := [0.0, 0.2, 1.0, 3.0, 8.0, 10.0][Danger(e.risk)];
    e.cost + (if riskWeight then penalty else penalty / 4.0) + (if Local(e.mcpServer) then 0.1 else 0.2)
  }

  lemma ScoreIsStepCost(e: Edge, riskWeight: bool)
    ensures EdgeScore(e, riskWeight) == StepCost(e, riskWeight)
    ensures RiskPenalty(e.risk) == [0.0, 0.2, 1.0, 3.0, 8.0, 10.0][Danger(e.risk)]
  {
    LocalIff(e);
  }

  // ---- routes

  /** An edge a strategy may use: switched on and, if it minds the policy, on no disabled server and allowed. */
  ghost predicate Permitted(g: Graph, request: PathRequest, filtered: bool, e: Edge) {
    && e in g.edges && e.enabled
    && (filtered ==> e.mcpServer !in request.disabledServers && g.policy(e, request.role, request.environment))
  }

  /** Permitted edges from `s` to `t`, each starting where the one before it ends. */
  ghost predicate Route(g: Graph, request: PathRequest, filtered: bool, s: string, t: string, p: seq<Edge>) {
    && (forall i :: 0 <= i < |p| ==> Permitted(g, request, filtered, p[i]))
    && (forall i :: 0 < i < |p| ==> p[i].sourceType == p[i - 1].destinationType)
    && (if |p| == 0 then s == t else p[0].sourceType == s && p[|p| - 1].destinationType == t)
  }

  lemma {:induction false} WalkIsRoute(
    g: Graph, request: PathRequest, filtered: bool, s: string, t: string, p: seq<Edge>)
    ensures IsWalk(RequestQuery(g, request, filtered), s, t, p) <==> Route(g, request, filtered, s, t, p)
    decreases |p|
  {
    if |p| > 0 {
      var front, e := p[..|p| - 1], p[|p| - 1];
      WalkIsRoute(g, request, filtered, s, e.sourceType, front);
      assert Usable(RequestQuery(g, request, filtered), e) && e in g.edges <==> Permitted(g, request, filtered, e);
      if Route(g, request, filtered, s, t, p) {
        assert forall i :: 0 <= i < |front| ==> front[i] == p[i];
      }
    }
  }

  /** The types a route passes, its start first. */
  ghost predicate Passes(s: string, p: seq<Edge>, nodes: seq<string>) {
    && |nodes| == |p| + 1 && nodes[0] == s
    && forall i :: 0 <= i < |p| ==> nodes[i + 1] == p[i].destinationType
  }

  lemma {:induction false} NodesPass(s: string, p: seq<Edge>)
    ensures Passes(s, p, NodesOf(s, p))
  {
    if |p| > 0 {
      NodesPass(s, p[..|p| - 1]);
    }
  }

  /** What a route costs, and how risky it is. */
  ghost function RouteCost(p: seq<Edge>, riskWeight: bool): real {
    if |p| == 0 then 0.0 else RouteCost(p[..|p| - 1], riskWeight) + StepCost(p[|p| - 1], riskWeight)
  }

  ghost function RouteRisk(p: seq<Edge>): real {
    if |p| == 0 then 0.0
    else RouteRisk(p[..|p| - 1]) + [0.0, 0.2, 1.0, 3.0, 8.0, 10.0][Danger(p[|p| - 1].risk)]
  }

  lemma {:induction false} CostsAgree(p: seq<Edge>, riskWeight: bool)
    ensures PathCost(Score(riskWeight), p) == RouteCost(p, riskWeight)
    ensures TotalScore(p) == RouteCost(p, false) && TotalRisk(p) == RouteRisk(p)
  {
    if |p| > 0 {
      CostsAgree(p[..|p| - 1], riskWeight);
      ScoreIsStepCost(p[|p| - 1], riskWeight);
      ScoreIsStepCost(p[|p| - 1], false);
    }
  }

  // ---- requests

  /** The text before the first colon, or all of it. */
  ghost predicate TypeOf(ref: string, s: string) {
    ':' !in s && (ref == s || exists rest :: ref == s + ":" + rest)
  }

  lemma {:induction false} ResourceTypeIsType(ref: string)
    ensures TypeOf(ref, ResourceType(ref))
  {
    if |ref| > 0 && ref[0] != ':' {
      var tail, s := ref[1..], ResourceType(ref[1..]);
      ResourceTypeIsType(tail);
      assert ref == [ref[0]] + tail;
      if tail != s {
        var rest :| tail == s + ":" + rest;
        assert ref == ([ref[0]] + s) + ":" + rest;
      }
    } else if |ref| > 0 {
      assert ref == "" + ":" + ref[1..];
    }
  }

  lemma TypeIsNoShorter(ref: string, a: string, b: string)
    requires TypeOf(ref, a) && TypeOf(ref, b)
    ensures |b| <= |a|
  {
    assert |b| <= |ref| && forall i :: 0 <= i < |b| ==> ref[i] == b[i] && b[i] in b;
    assert |a| < |ref| ==> ref[|a|] == ':';
  }

  /** Only one text is the type of a reference. */
  lemma TypeIsUnique(ref: string, a: string, b: string)
    requires TypeOf(ref, a) && TypeOf(ref, b)
    ensures a == b
  {
    TypeIsNoShorter(ref, a, b);
    TypeIsNoShorter(ref, b, a);
    assert a == ref[..|a|] && b == ref[..|b|];
  }

  /** The type a goal asks for: five goals have names of their own. */
  ghost predicate Leads(goal: string, t: string) {
    || (goal == "create_issue_for_latest_failed_build" && t == "ticket")
    || (goal == "deploy_to_staging" && t == "staging_environment")
    || (goal == "investigate_failed_build" && t == "build_logs")
    || (goal == "validate_deployment" && t == "validation")
    || (goal == "find_service_runbook" && t == "documentation")
    || (goal == t && goal != "create_issue_for_latest_failed_build" && goal != "deploy_to_staging"
        && goal != "investigate_failed_build" && goal != "validate_deployment" && goal != "find_service_runbook")
  }

  lemma GoalLeads(goal: string, t: string)
    ensures Leads(goal, t) <==> t == GoalType(goal)
  {
  }

  // ---- answers

  /** Among the permitted routes no other costs less, by the measure of the strategy. */
  ghost predicate Cheaper(strategy: string, a: seq<Edge>, b: seq<Edge>) {
    if strategy == "shortest" then |a| <= |b|
    else RouteCost(a, strategy == "lowest_risk") <= RouteCost(b, strategy == "lowest_risk")
  }

  /** A best permitted route with its totals, or word that there is none. */
  ghost predicate Found(g: Graph, request: PathRequest, s: string, t: string, r: CapabilityPath) {
    var filtered := request.strategy != "shortest";
    && r.source == request.source && r.goal == request.goal
    && if r.reachable then
         && Route(g, request, filtered, s, t, r.edges)
         && (forall p :: Route(g, request, filtered, s, t, p) ==> Cheaper(request.strategy, r.edges, p))
         && Passes(s, r.edges, r.nodes) && Distinct(r.nodes)
         && |r.tools| == |r.edges| && (forall i :: 0 <= i < |r.edges| ==> r.tools[i] == r.edges[i].toolName)
         && r.totalCost == RouteCost(r.edges, false) && r.riskScore == RouteRisk(r.edges)
         && r.policyCompliant
       else
         && (forall p :: !Route(g, request, filtered, s, t, p))
         && r.nodes == [s] && r.edges == [] && r.tools == [] && r.totalCost == 0.0 && r.riskScore == 0.0
         && !r.policyCompliant
  }

  lemma {:induction false} CheaperIffCost(strategy: string, a: seq<Edge>, b: seq<Edge>)
    ensures Cheaper(strategy, a, b) <==>
      var m := if strategy == "shortest" then Hops else Score(strategy == "lowest_risk");
      PathCost(m, a) <= PathCost(m, b)
  {
    HopsCountEdges(a);
    HopsCountEdges(b);
    CostsAgree(a, strategy == "lowest_risk");
    CostsAgree(b, strategy == "lowest_risk");
  }

  lemma BestIsFound(g: Graph, request: PathRequest, s: string, t: string, r: CapabilityPath)
    requires s == ResourceType(request.source) && t == GoalType(request.goal)
    requires Answers(g, request, request.strategy, r) && WellFormed(request, r)
    ensures Found(g, request, s, t, r)
  {
    var filtered := request.strategy != "shortest";
    forall p
      ensures IsWalk(RequestQuery(g, request, filtered), s, t, p) <==> Route(g, request, filtered, s, t, p)
    {
      WalkIsRoute(g, request, filtered, s, t, p);
    }
    if r.reachable {
      forall p | Route(g, request, filtered, s, t, p)
        ensures Cheaper(request.strategy, r.edges, p)
      {
        CheaperIffCost(request.strategy, r.edges, p);
      }
      NodesPass(s, r.edges);
      CostsAgree(r.edges, false);
    }
  }

  /** What find_path answers, whatever the strategy. */
  lemma AnswerIsFound(g: Graph, request: PathRequest, s: string, t: string, r: CapabilityPath)
    requires TypeOf(request.source, s) && Leads(request.goal, t)
    requires Answers(g, request, request.strategy, r) && WellFormed(request, r)
    ensures Found(g, request, s, t, r)
  {
    ResourceTypeIsType(request.source);
    TypeIsUnique(request.source, s, ResourceType(request.source));
    GoalLeads(request.goal, t);
    BestIsFound(g, request, s, t, r);
  }

  // ---- a direct way and a detour

  const TO_LOGS := Edge("run", "logs", "get_logs", "cicd-mcp", 1.0, "READ_ONLY", true)

  const TO_TICKET := Edge("logs", "ticket", "report_logs", "cicd-mcp", 1.0, "READ_ONLY", true)

  function Direct(risk: string): Edge {
    Edge("run", "ticket", "create_ticket", "cicd-mcp", 1.0, risk, true)
  }

  /** The policy allows everything. */
  function TwoWays(risk: string): Graph {
    Graph([Direct(risk), TO_LOGS, TO_TICKET], (edge, role, environment) => true)
  }

  function Asking(strategy: string): PathRequest {
    PathRequest("run", "ticket", "ENGINEER", "dev", strategy, [])
  }

  lemma AskingFor(strategy: string)
    ensures TypeOf(Asking(strategy).source, "run") && Leads(Asking(strategy).goal, "ticket")
  {
  }

  /** A route follows the arrows: it starts at "run", and what it goes on from is not a ticket. */
  lemma GoesOn(risk: string, strategy: string, filtered: bool, p: seq<Edge>, i: nat)
    requires Route(TwoWays(risk), Asking(strategy), filtered, "run", "ticket", p) && i < |p|
    ensures p[i] in [Direct(risk), TO_LOGS, TO_TICKET]
    ensures if i == 0 then p[i].sourceType == "run" else p[i].sourceType == p[i - 1].destinationType
    ensures i + 1 < |p| ==> p[i].destinationType != "ticket"
  {
    assert Permitted(TwoWays(risk), Asking(strategy), filtered, p[i]);
    assert i + 1 < |p| ==> Permitted(TwoWays(risk), Asking(strategy), filtered, p[i + 1]);
  }

  lemma OnlyTwoRoutes(risk: string, strategy: string, filtered: bool, p: seq<Edge>)
    requires Route(TwoWays(risk), Asking(strategy), filtered, "run", "ticket", p)
    ensures p == [Direct(risk)] || p == [TO_LOGS, TO_TICKET]
  {
    GoesOn(risk, strategy, filtered, p, 0);
    if p[0] == Direct(risk) {
      assert p == [p[0]];
    } else {
      GoesOn(risk, strategy, filtered, p, 1);
      assert p == [p[0], p[1]];
    }
  }

  lemma BothAreRoutes(risk: string, strategy: string, filtered: bool)
    ensures Route(TwoWays(risk), Asking(strategy), filtered, "run", "ticket", [Direct(risk)])
    ensures Route(TwoWays(risk), Asking(strategy), filtered, "run", "ticket", [TO_LOGS, TO_TICKET])
  {
  }

  lemma DetourCosts(riskWeight: bool)
    ensures RouteCost([TO_LOGS, TO_TICKET], riskWeight) == 2.2 && RouteRisk([TO_LOGS, TO_TICKET]) == 0.0
  {
    assert "cicd-mcp" == "cicd" + "-mcp";
    assert [TO_LOGS, TO_TICKET][..1] == [TO_LOGS] && [TO_LOGS][..0] == [];
    assert RouteCost([], riskWeight) == 0.0 && RouteRisk([]) == 0.0;
    assert RouteCost([TO_LOGS], riskWeight) == 1.1 && RouteRisk([TO_LOGS]) == 0.0;
  }

  lemma DirectCosts(risk: string, riskWeight: bool)
    ensures RouteRisk([Direct(risk)]) == [0.0, 0.2, 1.0, 3.0, 8.0, 10.0][Danger(risk)]
    ensures RouteCost([Direct(risk)], riskWeight) ==
      1.1 + (if riskWeight then RouteRisk([Direct(risk)]) else RouteRisk([Direct(risk)]) / 4.0)
  {
    assert "cicd-mcp" == "cicd" + "-mcp";
    assert [Direct(risk)][..0] == [];
    assert RouteCost([], riskWeight) == 0.0 && RouteRisk([]) == 0.0;
  }

  ghost predicate TakesDetour(r: CapabilityPath) {
    r.edges == [TO_LOGS, TO_TICKET] && r.totalCost == 2.2 && r.riskScore == 0.0
  }

  ghost predicate TakesDirect(risk: string, r: CapabilityPath) {
    && r.edges == [Direct(risk)] && r.riskScore == [0.0, 0.2, 1.0, 3.0, 8.0, 10.0][Danger(risk)]
    && r.totalCost == 1.1 + r.riskScore / 4.0
  }

  lemma PenaltyBetween(risk: string)
    ensures var penalty := [0.0, 0.2, 1.0, 3.0, 8.0, 10.0][Danger(risk)];
      && 0.0 <= penalty
      && (if Danger(risk) >= 3 then penalty >= 3.0 else penalty <= 1.0)
      && (if Danger(risk) >= 4 then penalty >= 8.0 else penalty <= 3.0)
  {
  }

  /** Of the two ways the cheaper. */
  lemma CheaperOf(risk: string, strategy: string, r: CapabilityPath)
    requires r.edges == [Direct(risk)] || r.edges == [TO_LOGS, TO_TICKET]
    requires Cheaper(strategy, r.edges, [Direct(risk)]) && Cheaper(strategy, r.edges, [TO_LOGS, TO_TICKET])
    requires r.totalCost == RouteCost(r.edges, false) && r.riskScore == RouteRisk(r.edges)
    ensures var minded := if strategy == "shortest" then 6 else if strategy == "lowest_risk" then 3 else 4;
      if Danger(risk) >= minded then TakesDetour(r) else TakesDirect(risk, r)
  {
    PenaltyBetween(risk);
    DetourCosts(false);
    DetourCosts(true);
    DirectCosts(risk, false);
    DirectCosts(risk, true);
  }

  /**
   "lowest_risk" takes the detour over two read-only edges as soon as the direct way is of
   HIGH risk, the default only when it is CRITICAL or unknown, and "shortest" never.
   */
  lemma DetourIff(risk: string, strategy: string, r: CapabilityPath)
    requires Answers(TwoWays(risk), Asking(strategy), strategy, r) && WellFormed(Asking(strategy), r)
    ensures r.reachable
    ensures var minded := if strategy == "shortest" then 6 else if strategy == "lowest_risk" then 3 else 4;
      if Danger(risk) >= minded then TakesDetour(r) else TakesDirect(risk, r)
  {
    var filtered := strategy != "shortest";
    AskingFor(strategy);
    AnswerIsFound(TwoWays(risk), Asking(strategy), "run", "ticket", r);
    BothAreRoutes(risk, strategy, filtered);
    assert r.reachable;
    OnlyTwoRoutes(risk, strategy, filtered, r.edges);
    CheaperOf(risk, strategy, r);
  }
}
