/**
 The invariant that Dijkstra's search and the breadth-first search have in common.
 A search keeps the distances it has settled and a frontier of partial paths; both
 searches drop an edge that leads back into the partial path it would extend.
 */
module Frontier {
  import opened CapabilityGraph

  /** A partial path: its last resource type, all its resource types, its edges. */
  datatype Trail = Trail(node: string, nodes: seq<string>, edges: seq<Edge>)

  ghost predicate GoodTrail(q: Query, s: string, best: map<string, real>, x: Trail) {
    && IsWalk(q, s, x.node, x.edges)
    && x.nodes == NodesOf(s, x.edges)
    && Distinct(x.nodes)
    && forall n :: n in x.nodes && n != x.node ==> n in best
  }

  /** Some frontier path ends at `node` and costs at most `bound`. */
  ghost predicate Offers(m: Metric, frontier: seq<Trail>, node: string, bound: real) {
    exists x :: x in frontier && x.node == node && PathCost(m, x.edges) <= bound
  }

  ghost predicate Optimal(q: Query, m: Metric, s: string, t: string, cost: real) {
    forall p :: IsWalk(q, s, t, p) ==> cost <= PathCost(m, p)
  }

  ghost predicate Closed(q: Query, m: Metric, best: map<string, real>, frontier: seq<Trail>) {
    forall e {:trigger Usable(q, e)} :: e in q.graph.edges && Usable(q, e) && e.sourceType in best ==>
      e.destinationType in best || Offers(m, frontier, e.destinationType, best[e.sourceType] + Weight(m, e))
  }

  ghost predicate Invariant(q: Query, m: Metric, s: string, best: map<string, real>, frontier: seq<Trail>) {
    && (forall x :: x in frontier ==> GoodTrail(q, s, best, x))
    && (forall v :: v in best ==> Optimal(q, m, s, v, best[v]))
    && Closed(q, m, best, frontier)
    && (s in best || Offers(m, frontier, s, 0.0))
  }

  ghost predicate Cheapest(m: Metric, frontier: seq<Trail>, x: Trail) {
    forall y :: y in frontier ==> PathCost(m, x.edges) <= PathCost(m, y.edges)
  }

  function Without<T(!new)>(s: seq<T>, i: nat): (r: seq<T>)
    requires i < |s|
    ensures |r| == |s| - 1
    ensures forall x :: x in s <==> x == s[i] || x in r
  {
    var r := s[..i] + s[i + 1..];
    assert s == s[..i] + [s[i]] + s[i + 1..];
    r
  }

  function Outgoing(edges: seq<Edge>, node: string): seq<Edge> {
    if |edges| == 0 then []
    else
      var front, e := Outgoing(edges[..|edges| - 1], node), edges[|edges| - 1];
      if e.sourceType == node && e.enabled then front + [e] else front
  }

  /** Exactly the enabled edges that leave the type. */
  lemma {:induction false} OutgoingMembers(edges: seq<Edge>, node: string)
    ensures forall e :: e in Outgoing(edges, node) <==> e in edges && e.sourceType == node && e.enabled
  {
    if |edges| > 0 {
      assert edges == edges[..|edges| - 1] + [edges[|edges| - 1]];
      OutgoingMembers(edges[..|edges| - 1], node);
    }
  }

  function Extend(x: Trail, e: Edge): Trail {
    Trail(e.destinationType, x.nodes + [e.destinationType], x.edges + [e])
  }

  /** An edge out of `x` that the search pushes: allowed, and not back into the path. */
  predicate Pushable(q: Query, x: Trail, e: Edge) {
    (q.policyFilter ==> EdgeAllowed(q, e)) && e.destinationType !in x.nodes
  }

  /** The partial paths pushed when `x` is expanded along the edges `out`. */
  function Extensions(q: Query, x: Trail, out: seq<Edge>): seq<Trail> {
    if |out| == 0 then []
    else
      var front, e := Extensions(q, x, out[..|out| - 1]), out[|out| - 1];
      if Pushable(q, x, e) then front + [Extend(x, e)] else front
  }

  lemma {:induction false} ExtensionsMembers(q: Query, x: Trail, out: seq<Edge>)
    ensures forall y :: y in Extensions(q, x, out) ==> exists e :: e in out && Pushable(q, x, e) && y == Extend(x, e)
    ensures forall e :: e in out && Pushable(q, x, e) ==> Extend(x, e) in Extensions(q, x, out)
  {
    if |out| > 0 {
      var n := |out| - 1;
      assert out == out[..n] + [out[n]];
      ExtensionsMembers(q, x, out[..n]);
    }
  }

  lemma ExtensionsStep(q: Query, x: Trail, out: seq<Edge>, k: nat)
    requires k < |out|
    ensures Extensions(q, x, out[..k + 1])
         == if Pushable(q, x, out[k]) then Extensions(q, x, out[..k])
           + [Extend(x, out[k])] else Extensions(q, x, out[..k])
  {
    assert out[..k + 1][..k] == out[..k];
  }

  lemma InitialInvariant(q: Query, m: Metric, s: string)
    ensures Invariant(q, m, s, map[], [Trail(s, [s], [])])
  {
    var x := Trail(s, [s], []);
    assert x in [x];
    assert PathCost(m, x.edges) <= 0.0;
    assert NodesOf(s, []) == [s];
  }

  lemma {:induction false} CostNonNegative(q: Query, m: Metric, s: string, t: string, p: seq<Edge>)
    requires ValidGraph(q.graph) && IsWalk(q, s, t, p)
    ensures PathCost(m, p) >= 0.0
    decreases |p|
  {
    if |p| > 0 {
      CostNonNegative(q, m, s, p[|p| - 1].sourceType, p[..|p| - 1]);
      WeightPositive(q, m, p[|p| - 1]);
    }
  }

  /** Every walk to an unsettled node crosses the frontier: some frontier path costs no more than the walk. */
  lemma {:induction false} FrontierCutsWalk(
    q: Query, m: Metric, s: string, best: map<string, real>, frontier: seq<Trail>, t: string, p: seq<Edge>)
    returns (x: Trail)
    requires ValidGraph(q.graph) && Invariant(q, m, s, best, frontier)
    requires t !in best && IsWalk(q, s, t, p)
    ensures x in frontier && PathCost(m, x.edges) <= PathCost(m, p)
    decreases |p|
  {
    CostNonNegative(q, m, s, t, p);
    if s !in best {
      x :| x in frontier && x.node == s && PathCost(m, x.edges) <= 0.0;
    } else {
      var e, front := p[|p| - 1], p[..|p| - 1];
      WeightPositive(q, m, e);
      if e.sourceType in best {
        assert Optimal(q, m, s, e.sourceType, best[e.sourceType]);
        assert Offers(m, frontier, t, best[e.sourceType] + Weight(m, e));
        x :| x in frontier && x.node == t && PathCost(m, x.edges) <= best[e.sourceType] + Weight(m, e);
      } else {
        x := FrontierCutsWalk(q, m, s, best, frontier, e.sourceType, front);
      }
    }
  }

  /** A cheapest frontier path to an unsettled node is a cheapest walk to it. */
  lemma CheapestIsOptimal(q: Query, m: Metric, s: string, best: map<string, real>, frontier: seq<Trail>, x: Trail)
    requires ValidGraph(q.graph) && Invariant(q, m, s, best, frontier)
    requires Cheapest(m, frontier, x) && x.node !in best
    ensures Optimal(q, m, s, x.node, PathCost(m, x.edges))
  {
    forall p | IsWalk(q, s, x.node, p)
      ensures PathCost(m, x.edges) <= PathCost(m, p)
    {
      var y := FrontierCutsWalk(q, m, s, best, frontier, x.node, p);
    }
  }

  /** With the frontier exhausted, an unsettled node is not reachable at all. */
  lemma ExhaustedMeansUnreachable(q: Query, m: Metric, s: string, best: map<string, real>, t: string)
    requires ValidGraph(q.graph) && Invariant(q, m, s, best, []) && t !in best
    ensures forall p :: !IsWalk(q, s, t, p)
  {
    forall p | IsWalk(q, s, t, p)
      ensures false
    {
      var y := FrontierCutsWalk(q, m, s, best, [], t, p);
    }
  }

  /** Dropping a frontier path to a settled node keeps the invariant. */
  lemma SkipKeepsInvariant(q: Query, m: Metric, s: string, best: map<string, real>, frontier: seq<Trail>, i: nat)
    requires Invariant(q, m, s, best, frontier)
    requires i < |frontier| && frontier[i].node in best
    ensures Invariant(q, m, s, best, Without(frontier, i))
  {
    var rest := Without(frontier, i);
    OffersSurvives(m, frontier, i, best);
    assert s in best || Offers(m, rest, s, 0.0);
  }

  lemma OffersSurvives(m: Metric, frontier: seq<Trail>, i: nat, best: map<string, real>)
    requires i < |frontier| && frontier[i].node in best
    ensures forall node, bound :: node !in best && Offers(m, frontier, node, bound) ==>
      Offers(m, Without(frontier, i), node, bound)
  {
    forall node, bound | node !in best && Offers(m, frontier, node, bound)
      ensures Offers(m, Without(frontier, i), node, bound)
    {
      var x :| x in frontier && x.node == node && PathCost(m, x.edges) <= bound;
      assert x in Without(frontier, i);
    }
  }

  lemma ExtendIsGood(q: Query, m: Metric, s: string, best: map<string, real>, x: Trail, e: Edge)
    requires GoodTrail(q, s, best, x) && x.node in best
    requires e in q.graph.edges && Usable(q, e) && e.sourceType == x.node && e.destinationType !in x.nodes
    ensures GoodTrail(q, s, best, Extend(x, e))
    ensures PathCost(m, Extend(x, e).edges) == PathCost(m, x.edges) + Weight(m, e)
  {
    WalkExtends(q, m, s, x.edges, e);
  }

  /** The frontier after frontier path `i` has been expanded. */
  function Expanded(q: Query, frontier: seq<Trail>, i: nat): seq<Trail>
    requires i < |frontier|
  {
    Without(frontier, i) + Extensions(q, frontier[i], Outgoing(q.graph.edges, frontier[i].node))
  }

  lemma ExpandKeepsTrails(
    q: Query, m: Metric, s: string, best: map<string, real>, frontier: seq<Trail>, i: nat, cost: real, y: Trail)
    requires i < |frontier| && y in Expanded(q, frontier, i)
    requires forall x :: x in frontier ==> GoodTrail(q, s, best, x)
    ensures GoodTrail(q, s, best[frontier[i].node := cost], y)
  {
    var x := frontier[i];
    var best' := best[x.node := cost];
    assert GoodTrail(q, s, best, x);
    if y in Without(frontier, i) {
      assert GoodTrail(q, s, best, y);
    } else {
      OutgoingMembers(q.graph.edges, x.node);
      ExtensionsMembers(q, x, Outgoing(q.graph.edges, x.node));
      var e :| e in Outgoing(q.graph.edges, x.node) && Pushable(q, x, e) && y == Extend(x, e);
      ExtendIsGood(q, m, s, best', x, e);
    }
  }

  lemma ExpandOffersNeighbour(
    q: Query, m: Metric, s: string, best: map<string, real>, frontier: seq<Trail>, i: nat, e: Edge)
    requires i < |frontier| && GoodTrail(q, s, best, frontier[i])
    requires e in q.graph.edges && Usable(q, e) && e.sourceType == frontier[i].node
    requires e.destinationType !in best && e.destinationType != frontier[i].node
    ensures Offers(m, Expanded(q, frontier, i), e.destinationType, PathCost(m, frontier[i].edges) + Weight(m, e))
  {
    var x := frontier[i];
    ExtendIsGood(q, m, s, best[x.node := 0.0], x, e);
    OutgoingMembers(q.graph.edges, x.node);
    ExtensionsMembers(q, x, Outgoing(q.graph.edges, x.node));
    assert Extend(x, e) in Expanded(q, frontier, i);
  }

  lemma ExpandKeepsOffer(
    q: Query, m: Metric, frontier: seq<Trail>, i: nat, node: string, bound: real)
    requires i < |frontier| && node != frontier[i].node && Offers(m, frontier, node, bound)
    ensures Offers(m, Expanded(q, frontier, i), node, bound)
  {
    var y :| y in frontier && y.node == node && PathCost(m, y.edges) <= bound;
    assert y in Without(frontier, i);
    assert y in Expanded(q, frontier, i);
  }

  /** Settling the cheapest frontier path and pushing its extensions keeps the invariant. */
  lemma ExpandKeepsInvariant(q: Query, m: Metric, s: string, best: map<string, real>, frontier: seq<Trail>, i: nat)
    requires ValidGraph(q.graph) && Invariant(q, m, s, best, frontier)
    requires i < |frontier| && frontier[i].node !in best && Cheapest(m, frontier, frontier[i])
    ensures Invariant(q, m, s, best[frontier[i].node := PathCost(m, frontier[i].edges)], Expanded(q, frontier, i))
  {
    var x, frontier' := frontier[i], Expanded(q, frontier, i);
    var best' := best[x.node := PathCost(m, x.edges)];
    assert GoodTrail(q, s, best, x);
    CheapestIsOptimal(q, m, s, best, frontier, x);
    forall y | y in frontier'
      ensures GoodTrail(q, s, best', y)
    {
      ExpandKeepsTrails(q, m, s, best, frontier, i, PathCost(m, x.edges), y);
    }
    forall e | e in q.graph.edges && Usable(q, e) && e.sourceType in best' && e.destinationType !in best'
      ensures Offers(m, frontier', e.destinationType, best'[e.sourceType] + Weight(m, e))
    {
      if e.sourceType == x.node {
        ExpandOffersNeighbour(q, m, s, best, frontier, i, e);
      } else {
        ExpandKeepsOffer(q, m, frontier, i, e.destinationType, best[e.sourceType] + Weight(m, e));
      }
    }
    if s !in best' {
      ExpandKeepsOffer(q, m, frontier, i, s, 0.0);
    }
  }

  // ---- settling in order of cost

  /** Nothing settled is dearer than what is still on the frontier. */
  ghost predicate Monotone(m: Metric, best: map<string, real>, frontier: seq<Trail>) {
    forall v, y :: v in best && y in frontier ==> best[v] <= PathCost(m, y.edges)
  }

  /** Every settled distance is that of a walk. */
  ghost predicate Attained(q: Query, m: Metric, s: string, best: map<string, real>) {
    forall v :: v in best ==> exists p :: IsWalk(q, s, v, p) && PathCost(m, p) == best[v]
  }

  lemma ExpandKeepsMonotone(q: Query, m: Metric, s: string, best: map<string, real>, frontier: seq<Trail>, i: nat)
    requires ValidGraph(q.graph) && Invariant(q, m, s, best, frontier) && Monotone(m, best, frontier)
    requires i < |frontier| && frontier[i].node !in best && Cheapest(m, frontier, frontier[i])
    ensures Monotone(m, best[frontier[i].node := PathCost(m, frontier[i].edges)], Expanded(q, frontier, i))
  {
    var x := frontier[i];
    forall y | y in Expanded(q, frontier, i)
      ensures PathCost(m, x.edges) <= PathCost(m, y.edges)
    {
      if y !in Without(frontier, i) {
        OutgoingMembers(q.graph.edges, x.node);
        ExtensionsMembers(q, x, Outgoing(q.graph.edges, x.node));
        var e :| e in Outgoing(q.graph.edges, x.node) && Pushable(q, x, e) && y == Extend(x, e);
        assert GoodTrail(q, s, best, x);
        WalkExtends(q, m, s, x.edges, e);
        WeightPositive(q, m, e);
      }
    }
    assert x in frontier;
  }

  /** A type that some walk reaches more cheaply than every frontier path is settled. */
  lemma CheaperIsSettled(
    q: Query, m: Metric, s: string, best: map<string, real>, frontier: seq<Trail>, bound: real, v: string, p: seq<Edge>)
    requires ValidGraph(q.graph) && Invariant(q, m, s, best, frontier)
    requires forall y :: y in frontier ==> bound <= PathCost(m, y.edges)
    requires IsWalk(q, s, v, p) && PathCost(m, p) < bound
    ensures v in best
  {
    if v !in best {
      var y := FrontierCutsWalk(q, m, s, best, frontier, v, p);
      assert false;
    }
  }
}
