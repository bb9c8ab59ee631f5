/**
 The capability graph: resource types joined by tool edges, the score of an edge,
 and walks through the edges that a search may use.  Scores are reals, so rounding
 is not modelled.
 */
module CapabilityGraph {

  datatype Edge = Edge(
    sourceType: string,
    destinationType: string,
    toolName: string,
    mcpServer: string,
    cost: real,
    risk: string,
    enabled: bool)

  /** `policy(edge, role, environment)` is the workflow policy evaluator's verdict. */
  datatype Graph = Graph(edges: seq<Edge>, policy: (Edge, string, string) -> bool)

  /** Edge costs are declared non-negative by the source's edge model. */
  ghost predicate ValidGraph(g: Graph) {
    forall e :: e in g.edges ==> e.cost >= 0.0
  }

  function RiskPenalty(risk: string): (r: real)
    ensures r >= 0.0
  {
    match risk
    case "READ_ONLY" => 0.0
    case "LOW" => 0.2
    case "MEDIUM" => 1.0
    case "HIGH" => 3.0
    case "CRITICAL" => 8.0
    case _ => 10.0
  }

  predicate EndsWith(s: string, suffix: string) {
    |suffix| <= |s| && s[|s| - |suffix|..] == suffix
  }

  function EdgeScore(e: Edge, riskWeight: bool): real {
    var penalty := if riskWeight then RiskPenalty(e.risk) else RiskPenalty(e.risk) * 0.25;
    var latency := if EndsWith(e.mcpServer, "-mcp") then 0.1 else 0.2;
    e.cost + penalty + latency
  }

  /** What a search minimises: an edge score, or the number of edges. */
  datatype Metric = Score(riskWeight: bool) | Hops

  function Weight(m: Metric, e: Edge): real {
    match m
    case Score(riskWeight) => EdgeScore(e, riskWeight)
    case Hops => 1.0
  }

  /** The part of a request that decides which edges a search may use. */
  datatype Query = Query(
    graph: Graph,
    role: string,
    environment: string,
    disabledServers: set<string>,
    policyFilter: bool)

  predicate EdgeAllowed(q: Query, e: Edge) {
    e.mcpServer !in q.disabledServers && q.graph.policy(e, q.role, q.environment)
  }

  predicate Usable(q: Query, e: Edge) {
    e.enabled && (q.policyFilter ==> EdgeAllowed(q, e))
  }

  /** `p` is a walk from `s` to `t` along edges the search may use. */
  ghost predicate IsWalk(q: Query, s: string, t: string, p: seq<Edge>)
    decreases |p|
  {
    if |p| == 0 then
      s == t
    else
      var e := p[|p| - 1];
      e in q.graph.edges && Usable(q, e) && e.destinationType == t && IsWalk(q, s, e.sourceType, p[..|p| - 1])
  }

  ghost function PathCost(m: Metric, p: seq<Edge>): real {
    if |p| == 0 then 0.0 else PathCost(m, p[..|p| - 1]) + Weight(m, p[|p| - 1])
  }

  /** The resource types a walk visits, its source first. */
  ghost function NodesOf(s: string, p: seq<Edge>): (ns: seq<string>)
    ensures |ns| == |p| + 1
  {
    if |p| == 0 then [s] else NodesOf(s, p[..|p| - 1]) + [p[|p| - 1].destinationType]
  }

  ghost predicate Distinct<T>(s: seq<T>) {
    forall i, j :: 0 <= i < j < |s| ==> s[i] != s[j]
  }

  /** Every step costs something: at least a tenth for a score. */
  lemma WeightPositive(q: Query, m: Metric, e: Edge)
    requires ValidGraph(q.graph) && e in q.graph.edges
    ensures Weight(m, e) >= 0.1
  {
  }

  lemma {:induction false} HopsCountEdges(p: seq<Edge>)
    ensures PathCost(Hops, p) == |p| as real
  {
    if |p| > 0 {
      HopsCountEdges(p[..|p| - 1]);
    }
  }

  lemma WalkExtends(q: Query, m: Metric, s: string, p: seq<Edge>, e: Edge)
    requires IsWalk(q, s, e.sourceType, p) && e in q.graph.edges && Usable(q, e)
    ensures IsWalk(q, s, e.destinationType, p + [e])
    ensures PathCost(m, p + [e]) == PathCost(m, p) + Weight(m, e)
    ensures NodesOf(s, p + [e]) == NodesOf(s, p) + [e.destinationType]
  {
    assert (p + [e])[..|p + [e]| - 1] == p;
  }
}
