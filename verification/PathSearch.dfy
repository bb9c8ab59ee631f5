/**
 The two path searches of the capability service: a lazy-deletion Dijkstra search and
 a breadth-first search, both with own-path pruning, and the strategy dispatch.
 The heap is a sequence from which the least (cost, sequence) entry is popped.
 */
module PathSearch {
  import opened Wrappers
  import opened CapabilityGraph
  import opened Frontier
  import opened EdgeOrder

  datatype PathRequest = PathRequest(
    source: string,
    goal: string,
    role: string,
    environment: string,
    strategy: string,
    disabledServers: seq<string>)

  datatype CapabilityPath = CapabilityPath(
    source: string,
    goal: string,
    reachable: bool,
    nodes: seq<string>,
    edges: seq<Edge>,
    tools: seq<string>,
    totalCost: real,
    riskScore: real,
    policyCompliant: bool)

  function Tools(edges: seq<Edge>): seq<string> {
    seq(|edges|, i requires 0 <= i < |edges| => edges[i].toolName)
  }

  function TotalScore(edges: seq<Edge>): real {
    if |edges| == 0 then 0.0 else TotalScore(edges[..|edges| - 1]) + EdgeScore(edges[|edges| - 1], false)
  }

  function TotalRisk(edges: seq<Edge>): real {
    if |edges| == 0 then 0.0 else TotalRisk(edges[..|edges| - 1]) + RiskPenalty(edges[|edges| - 1].risk)
  }

  function PathFromEdges(request: PathRequest, nodes: seq<string>, edges: seq<Edge>): CapabilityPath {
    CapabilityPath(request.source, request.goal, true, nodes, edges, Tools(edges), TotalScore(edges), TotalRisk(edges),
      true)
  }

  function Unreachable(request: PathRequest, sourceType: string): CapabilityPath {
    CapabilityPath(request.source, request.goal, false, [sourceType], [], [], 0.0, 0.0, false)
  }

  /** The answer is a cheapest walk that repeats no resource type, or says that there is no walk at all. */
  ghost predicate BestAnswer(q: Query, m: Metric, s: string, t: string, r: CapabilityPath) {
    if r.reachable then
      && IsWalk(q, s, t, r.edges)
      && Optimal(q, m, s, t, PathCost(m, r.edges))
      && r.nodes == NodesOf(s, r.edges)
      && Distinct(r.nodes)
      && r.tools == Tools(r.edges)
    else
      forall p :: !IsWalk(q, s, t, p)
  }

  datatype HeapEntry = HeapEntry(cost: real, sequence: nat, trail: Trail)

  predicate Before(a: HeapEntry, b: HeapEntry) {
    a.cost < b.cost || (a.cost == b.cost && a.sequence < b.sequence)
  }

  function MinIndex(heap: seq<HeapEntry>): (i: nat)
    requires |heap| > 0
    ensures i < |heap|
    ensures forall h :: h in heap ==> !Before(h, heap[i])
  {
    var n := |heap| - 1;
    if n == 0 then 0
    else
      var i := MinIndex(heap[..n]);
      assert heap == heap[..n] + [heap[n]];
      if Before(heap[n], heap[i]) then n else i
  }

  ghost function Trails(heap: seq<HeapEntry>): (r: seq<Trail>)
    ensures |r| == |heap|
  {
    seq(|heap|, i requires 0 <= i < |heap| => heap[i].trail)
  }

  /** Each heap entry carries the cost of its own partial path. */
  ghost predicate Priced(m: Metric, heap: seq<HeapEntry>) {
    forall h :: h in heap ==> h.cost == PathCost(m, h.trail.edges)
  }

  /** Entries are in the order in which they were pushed. */
  ghost predicate Numbered(heap: seq<HeapEntry>) {
    forall i, j :: 0 <= i < j < |heap| ==> heap[i].sequence < heap[j].sequence
  }

  ghost predicate NumberedBelow(heap: seq<HeapEntry>, pushed: nat) {
    Numbered(heap) && forall h :: h in heap ==> h.sequence < pushed
  }

  lemma PushKeepsNumbered(heap: seq<HeapEntry>, h: HeapEntry)
    requires NumberedBelow(heap, h.sequence)
    ensures NumberedBelow(heap + [h], h.sequence + 1)
  {
  }

  lemma PopKeepsNumbered(heap: seq<HeapEntry>, i: nat, pushed: nat)
    requires i < |heap| && NumberedBelow(heap, pushed)
    ensures NumberedBelow(Without(heap, i), pushed)
  {
    var rest := Without(heap, i);
    forall j, k | 0 <= j < k < |rest|
      ensures rest[j].sequence < rest[k].sequence
    {
      assert rest[j] == heap[if j < i then j else j + 1] && rest[k] == heap[if k < i then k else k + 1];
    }
  }

  /** The cheapest entry comes first, and among the cheapest the one pushed first. */
  lemma PopTakesCheapest(m: Metric, heap: seq<HeapEntry>)
    requires |heap| > 0 && Priced(m, heap)
    ensures Cheapest(m, Trails(heap), Trails(heap)[MinIndex(heap)])
    ensures Numbered(heap) ==>
      forall j :: 0 <= j < MinIndex(heap) ==> heap[MinIndex(heap)].cost < heap[j].cost
  {
    var i := MinIndex(heap);
    assert heap[i] in heap;
    if Numbered(heap) {
      forall j | 0 <= j < i
        ensures heap[i].cost < heap[j].cost
      {
        assert heap[j] in heap && !Before(heap[j], heap[i]);
      }
    }
    forall y | y in Trails(heap)
      ensures PathCost(m, heap[i].trail.edges) <= PathCost(m, y.edges)
    {
      var j :| 0 <= j < |heap| && Trails(heap)[j] == y;
      assert heap[j] in heap && !Before(heap[j], heap[i]);
    }
  }

  lemma PopKeepsRest(m: Metric, heap: seq<HeapEntry>, i: nat)
    requires i < |heap| && Priced(m, heap)
    ensures Trails(Without(heap, i)) == Without(Trails(heap), i)
    ensures Priced(m, Without(heap, i))
  {
  }

  /** Every resource type a walk from `s` can visit. */
  ghost function Types(q: Query, s: string): set<string> {
    {s} + set e | e in q.graph.edges :: e.destinationType
  }

  /** Settling one more type stays within the finitely many types there are. */
  lemma SettledBound(q: Query, s: string, best: map<string, real>, x: Trail)
    requires GoodTrail(q, s, best, x) && best.Keys <= Types(q, s) && x.node !in best
    ensures x.node in Types(q, s)
    ensures |best| < |Types(q, s)|
  {
    SubsetSize(best.Keys + {x.node}, Types(q, s));
  }

  /** How many edges leave a settled type. */
  ghost function EdgesFrom(edges: seq<Edge>, settled: set<string>): (n: nat)
    ensures n <= |edges|
  {
    if |edges| == 0 then 0
    else EdgesFrom(edges[..|edges| - 1], settled) + if edges[|edges| - 1].sourceType in settled then 1 else 0
  }

  lemma {:induction false} OutgoingIsNew(edges: seq<Edge>, settled: set<string>, node: string)
    requires node !in settled
    ensures EdgesFrom(edges, settled) + |Outgoing(edges, node)| <= EdgesFrom(edges, settled + {node})
  {
    if |edges| > 0 {
      OutgoingIsNew(edges[..|edges| - 1], settled, node);
    }
  }

  ghost predicate DijkstraInvariant(
    q: Query, m: Metric, s: string, t: string,
    heap: seq<HeapEntry>, best: map<string, real>, expanded: seq<string>, pushed: nat)
  {
    && Searching(q, m, s, best, Trails(heap))
    && Priced(m, heap)
    && t !in best
    && Counted(q, s, best, expanded, pushed)
  }

  /** Settled costs are least, attained, and no more than what the frontier costs. */
  ghost predicate Searching(q: Query, m: Metric, s: string, best: map<string, real>, frontier: seq<Trail>) {
    Invariant(q, m, s, best, frontier) && Monotone(m, best, frontier) && Attained(q, m, s, best)
  }

  /** The settled types, each expanded once, and the pushes made for them. */
  ghost predicate Counted(q: Query, s: string, best: map<string, real>, expanded: seq<string>, pushed: nat) {
    && best.Keys <= Types(q, s)
    && Distinct(expanded)
    && (forall v :: v in expanded <==> v in best)
    && pushed <= 1 + EdgesFrom(q.graph.edges, best.Keys)
  }

  lemma PoppedTrail(
    q: Query, m: Metric, s: string, t: string,
    heap: seq<HeapEntry>, best: map<string, real>, expanded: seq<string>, pushed: nat)
    requires |heap| > 0 && DijkstraInvariant(q, m, s, t, heap, best, expanded, pushed)
    ensures var h := heap[MinIndex(heap)];
      && GoodTrail(q, s, best, h.trail)
      && h.cost == PathCost(m, h.trail.edges)
      && (h.trail.node in best ==> best[h.trail.node] <= h.cost)
  {
    var h := heap[MinIndex(heap)];
    assert h in heap && Trails(heap)[MinIndex(heap)] == h.trail;
    assert h.trail in Trails(heap);
    assert h.trail.node in best ==> Optimal(q, m, s, h.trail.node, best[h.trail.node]);
  }

  lemma PoppedGoal(
    q: Query, m: Metric, s: string, t: string,
    heap: seq<HeapEntry>, best: map<string, real>, expanded: seq<string>, pushed: nat)
    requires ValidGraph(q.graph) && |heap| > 0 && DijkstraInvariant(q, m, s, t, heap, best, expanded, pushed)
    requires heap[MinIndex(heap)].trail.node == t
    ensures Optimal(q, m, s, t, PathCost(m, heap[MinIndex(heap)].trail.edges))
  {
    PopTakesCheapest(m, heap);
    CheapestIsOptimal(q, m, s, best, Trails(heap), Trails(heap)[MinIndex(heap)]);
  }

  lemma PoppedSettled(
    q: Query, m: Metric, s: string, t: string,
    heap: seq<HeapEntry>, best: map<string, real>, expanded: seq<string>, pushed: nat)
    requires |heap| > 0 && DijkstraInvariant(q, m, s, t, heap, best, expanded, pushed)
    requires heap[MinIndex(heap)].trail.node in best
    ensures DijkstraInvariant(q, m, s, t, Without(heap, MinIndex(heap)), best, expanded, pushed)
  {
    var i := MinIndex(heap);
    PopKeepsRest(m, heap, i);
    SkipKeepsInvariant(q, m, s, best, Trails(heap), i);
  }

  lemma SettleOnce(best: map<string, real>, expanded: seq<string>, node: string, cost: real)
    requires Distinct(expanded) && (forall v :: v in expanded <==> v in best) && node !in best
    ensures Distinct(expanded + [node]) && forall v :: v in expanded + [node] <==> v in best[node := cost]
  {
  }

  lemma PushKeepsPriced(m: Metric, heap: seq<HeapEntry>, h: HeapEntry)
    requires Priced(m, heap) && h.cost == PathCost(m, h.trail.edges)
    ensures Priced(m, heap + [h]) && Trails(heap + [h]) == Trails(heap) + [h.trail]
  {
  }

  /** Pops come in order of cost, so what is settled stays cheaper than the frontier. */
  lemma PoppedInOrder(
    q: Query, m: Metric, s: string, best: map<string, real>, heap: seq<HeapEntry>, frontier': seq<Trail>)
    requires ValidGraph(q.graph) && |heap| > 0 && Priced(m, heap) && heap[MinIndex(heap)].trail.node !in best
    requires Searching(q, m, s, best, Trails(heap))
    requires frontier' == Expanded(q, Trails(heap), MinIndex(heap))
    ensures var h := heap[MinIndex(heap)];
      Searching(q, m, s, best[h.trail.node := h.cost], frontier')
  {
    var i := MinIndex(heap);
    PopTakesCheapest(m, heap);
    ExpandKeepsInvariant(q, m, s, best, Trails(heap), i);
    ExpandKeepsMonotone(q, m, s, best, Trails(heap), i);
    assert heap[i] in heap && Trails(heap)[i] == heap[i].trail && heap[i].trail in Trails(heap);
    SettlesAttained(q, m, s, best, heap[i].trail);
  }

  lemma SettlesAttained(q: Query, m: Metric, s: string, best: map<string, real>, x: Trail)
    requires Attained(q, m, s, best) && GoodTrail(q, s, best, x)
    ensures Attained(q, m, s, best[x.node := PathCost(m, x.edges)])
  {
    var best' := best[x.node := PathCost(m, x.edges)];
    forall v | v in best'
      ensures exists p :: IsWalk(q, s, v, p) && PathCost(m, p) == best'[v]
    {
      if v == x.node {
        assert IsWalk(q, s, v, x.edges);
      }
    }
  }

  /** Settling a popped type makes progress within the finitely many types and edges there are. */
  lemma PoppedCounts(
    q: Query, s: string, best: map<string, real>, expanded: seq<string>, x: Trail, cost: real, pushed: nat,
      pushed': nat)
    requires GoodTrail(q, s, best, x) && x.node !in best && Counted(q, s, best, expanded, pushed)
    requires pushed' <= pushed + |Outgoing(q.graph.edges, x.node)|
    ensures var best' := best[x.node := cost];
      Counted(q, s, best', expanded + [x.node], pushed') && |best| < |best'| <= |Types(q, s)|
  {
    var best' := best[x.node := cost];
    assert best'.Keys == best.Keys + {x.node};
    SettledBound(q, s, best, x);
    OutgoingIsNew(q.graph.edges, best.Keys, x.node);
    SettleOnce(best, expanded, x.node, cost);
  }

  lemma PoppedNew(
    q: Query, m: Metric, s: string, t: string,
    heap: seq<HeapEntry>, best: map<string, real>, expanded: seq<string>, pushed: nat,
    heap': seq<HeapEntry>, pushed': nat)
    requires ValidGraph(q.graph) && |heap| > 0 && DijkstraInvariant(q, m, s, t, heap, best, expanded, pushed)
    requires var x := heap[MinIndex(heap)].trail; x.node !in best && x.node != t
    requires Trails(heap') == Expanded(q, Trails(heap), MinIndex(heap)) && Priced(m, heap')
    requires pushed' <= pushed + |Outgoing(q.graph.edges, heap[MinIndex(heap)].trail.node)|
    ensures var h := heap[MinIndex(heap)];
      && DijkstraInvariant(q, m, s, t, heap', best[h.trail.node := h.cost], expanded + [h.trail.node], pushed')
      && |best| < |best[h.trail.node := h.cost]| <= |Types(q, s)|
  {
    var h := heap[MinIndex(heap)];
    PoppedTrail(q, m, s, t, heap, best, expanded, pushed);
    PoppedInOrder(q, m, s, best, heap, Trails(heap'));
    PoppedCounts(q, s, best, expanded, h.trail, h.cost, pushed, pushed');
  }

  /** Push the extensions of a popped path onto the heap. */
  method PushOutgoing(q: Query, s: string, rest: seq<HeapEntry>, x: Trail, cost: real, sequence: nat, riskWeight: bool)
    returns (heap: seq<HeapEntry>, pushed: nat)
    requires q.policyFilter && IsWalk(q, s, x.node, x.edges)
    requires Priced(Score(riskWeight), rest) && cost == PathCost(Score(riskWeight), x.edges)
    ensures Priced(Score(riskWeight), heap)
    ensures Trails(heap) == Trails(rest) + Extensions(q, x, Outgoing(q.graph.edges, x.node))
    ensures sequence <= pushed <= sequence + |Outgoing(q.graph.edges, x.node)|
    ensures NumberedBelow(rest, sequence) ==> NumberedBelow(heap, pushed)
  {
    var out := Outgoing(q.graph.edges, x.node);
    OutgoingMembers(q.graph.edges, x.node);
    heap, pushed := rest, sequence;
    for k := 0 to |out|
      invariant Priced(Score(riskWeight), heap)
      invariant Trails(heap) == Trails(rest) + Extensions(q, x, out[..k])
      invariant sequence <= pushed <= sequence + k
      invariant NumberedBelow(rest, sequence) ==> NumberedBelow(heap, pushed)
    {
      ExtensionsStep(q, x, out, k);
      assert out[k] in out;
      var edge := out[k];
      if !EdgeAllowed(q, edge) {
        continue;
      }
      if edge.destinationType in x.nodes {
        continue;
      }
      WalkExtends(q, Score(riskWeight), s, x.edges, edge);
      var nextCost := cost + EdgeScore(edge, riskWeight);
      PushKeepsPriced(Score(riskWeight), heap, HeapEntry(nextCost, pushed, Extend(x, edge)));
      if NumberedBelow(rest, sequence) {
        PushKeepsNumbered(heap, HeapEntry(nextCost, pushed, Extend(x, edge)));
      }
      heap := heap + [HeapEntry(nextCost, pushed, Extend(x, edge))];
      pushed := pushed + 1;
    }
    assert out[..|out|] == out;
  }

  /**
   The expanded types are those some walk reaches more cheaply than the answer, and none
   that every walk reaches only at a higher cost; all that are reachable if there is no answer.
   */
  ghost predicate ExpandsUpTo(q: Query, m: Metric, s: string, t: string, r: CapabilityPath, expanded: seq<string>) {
    && (forall v :: v in expanded ==>
          v != t && exists p :: IsWalk(q, s, v, p) && (r.reachable ==> PathCost(m, p) <= PathCost(m, r.edges)))
    && (forall v, p :: v != t && IsWalk(q, s, v, p) && (r.reachable ==> PathCost(m, p) < PathCost(m, r.edges)) ==>
      v in expanded)
  }

  lemma ExpandedAtGoal(
    q: Query, m: Metric, s: string, t: string, best: map<string, real>, frontier: seq<Trail>, expanded: seq<string>,
    x: Trail, r: CapabilityPath)
    requires ValidGraph(q.graph) && Searching(q, m, s, best, frontier)
    requires x in frontier && Cheapest(m, frontier, x) && t !in best && forall v :: v in expanded <==> v in best
    requires r.reachable && r.edges == x.edges
    ensures ExpandsUpTo(q, m, s, t, r, expanded)
  {
    forall v | v in expanded
      ensures exists p :: IsWalk(q, s, v, p) && PathCost(m, p) <= PathCost(m, r.edges)
    {
      var p :| IsWalk(q, s, v, p) && PathCost(m, p) == best[v];
    }
    forall v, p | IsWalk(q, s, v, p) && PathCost(m, p) < PathCost(m, r.edges)
      ensures v in expanded
    {
      CheaperIsSettled(q, m, s, best, frontier, PathCost(m, r.edges), v, p);
    }
  }

  lemma ExpandedWhenExhausted(
    q: Query, m: Metric, s: string, t: string, best: map<string, real>, expanded: seq<string>, r: CapabilityPath)
    requires ValidGraph(q.graph) && Invariant(q, m, s, best, []) && Attained(q, m, s, best)
    requires t !in best && (forall v :: v in expanded <==> v in best) && !r.reachable
    ensures ExpandsUpTo(q, m, s, t, r, expanded)
  {
    forall v | v in expanded
      ensures exists p :: IsWalk(q, s, v, p)
    {
      var p :| IsWalk(q, s, v, p) && PathCost(m, p) == best[v];
    }
    forall v, p | IsWalk(q, s, v, p)
      ensures v in expanded
    {
      if v !in best {
        ExhaustedMeansUnreachable(q, m, s, best, v);
      }
    }
  }

  method Dijkstra(q: Query, request: PathRequest, sourceType: string, goalType: string, riskWeight: bool)
    returns (r: CapabilityPath, pushed: nat, ghost expanded: seq<string>)
    requires ValidGraph(q.graph) && q.policyFilter
    ensures BestAnswer(q, Score(riskWeight), sourceType, goalType, r)
    ensures r == if r.reachable then PathFromEdges(request, r.nodes, r.edges) else Unreachable(request, sourceType)
    ensures Distinct(expanded) && ExpandsUpTo(q, Score(riskWeight), sourceType, goalType, r, expanded)
    ensures pushed <= |q.graph.edges| + 1
  {
    ghost var m := Score(riskWeight);
    var heap := [HeapEntry(0.0, 0, Trail(sourceType, [sourceType], []))];
    var best: map<string, real> := map[];
    pushed, expanded := 1, [];
    InitialInvariant(q, m, sourceType);
    assert Trails(heap) == [Trail(sourceType, [sourceType], [])];
    while |heap| > 0
      invariant DijkstraInvariant(q, m, sourceType, goalType, heap, best, expanded, pushed)
      decreases |Types(q, sourceType)| - |best|, |heap|
    {
      var i := MinIndex(heap);
      var cost, current, x := heap[i].cost, heap[i].trail.node, heap[i].trail;
      var rest := Without(heap, i);
      PoppedTrail(q, m, sourceType, goalType, heap, best, expanded, pushed);
      if current == goalType {
        PoppedGoal(q, m, sourceType, goalType, heap, best, expanded, pushed);
        r := PathFromEdges(request, x.nodes, x.edges);
        PopTakesCheapest(m, heap);
        ExpandedAtGoal(q, m, sourceType, goalType, best, Trails(heap), expanded, Trails(heap)[i], r);
        return;
      }
      if current in best && best[current] <= cost {
        PoppedSettled(q, m, sourceType, goalType, heap, best, expanded, pushed);
        heap := rest;
        continue;
      }
      PopKeepsRest(m, heap, i);
      var heap', pushed' := PushOutgoing(q, sourceType, rest, x, cost, pushed, riskWeight);
      PoppedNew(q, m, sourceType, goalType, heap, best, expanded, pushed, heap', pushed');
      best := best[current := cost];
      heap, pushed, expanded := heap', pushed', expanded + [current];
    }
    assert Trails(heap) == [];
    ExhaustedMeansUnreachable(q, m, sourceType, best, goalType);
    r := Unreachable(request, sourceType);
    ExpandedWhenExhausted(q, m, sourceType, goalType, best, expanded, r);
  }

  /** A breadth-first queue: lengths never decrease and span at most two values. */
  ghost predicate ByLength(queue: seq<Trail>) {
    forall i, j :: 0 <= i <= j < |queue| ==>
      |queue[i].edges| <= |queue[j].edges| <= |queue[0].edges| + 1
  }

  ghost predicate BfsInvariant(
    q: Query, s: string, t: string, queue: seq<Trail>, depth: map<string, real>)
  {
    && Invariant(q, Hops, s, depth, queue)
    && ByLength(queue)
    && t !in depth
    && depth.Keys <= Types(q, s)
  }

  lemma FrontIsCheapest(queue: seq<Trail>)
    requires |queue| > 0 && ByLength(queue)
    ensures Cheapest(Hops, queue, queue[0])
  {
    forall y | y in queue
      ensures PathCost(Hops, queue[0].edges) <= PathCost(Hops, y.edges)
    {
      HopsCountEdges(queue[0].edges);
      HopsCountEdges(y.edges);
    }
  }

  lemma {:induction false} ExtensionsAreOneLonger(q: Query, x: Trail, out: seq<Edge>)
    ensures forall i :: 0 <= i < |Extensions(q, x, out)| ==> |Extensions(q, x, out)[i].edges| == |x.edges| + 1
  {
    if |out| > 0 {
      ExtensionsAreOneLonger(q, x, out[..|out| - 1]);
    }
  }

  lemma DequeueKeepsOrder(queue: seq<Trail>, more: seq<Trail>)
    requires |queue| > 0 && ByLength(queue)
    requires forall i :: 0 <= i < |more| ==> |more[i].edges| == |queue[0].edges| + 1
    ensures ByLength(queue[1..] + more)
  {
  }

  lemma DequeuedSettled(q: Query, s: string, t: string, queue: seq<Trail>, depth: map<string, real>)
    requires |queue| > 0 && BfsInvariant(q, s, t, queue, depth) && queue[0].node in depth
    ensures BfsInvariant(q, s, t, queue[1..], depth)
  {
    SkipKeepsInvariant(q, Hops, s, depth, queue, 0);
    assert Without(queue, 0) == queue[1..];
    DequeueKeepsOrder(queue, []);
    assert queue[1..] + [] == queue[1..];
  }

  lemma DequeuedNew(q: Query, s: string, t: string, queue: seq<Trail>, depth: map<string, real>)
    requires ValidGraph(q.graph) && |queue| > 0 && BfsInvariant(q, s, t, queue, depth)
    requires queue[0].node !in depth && queue[0].node != t
    ensures var x := queue[0];
      var depth' := depth[x.node := PathCost(Hops, x.edges)];
      && BfsInvariant(q, s, t, queue[1..] + Extensions(q, x, Outgoing(q.graph.edges, x.node)), depth')
      && |depth| < |depth'| <= |Types(q, s)|
  {
    var x := queue[0];
    var out := Outgoing(q.graph.edges, x.node);
    var depth' := depth[x.node := PathCost(Hops, x.edges)];
    assert Without(queue, 0) == queue[1..];
    assert Invariant(q, Hops, s, depth', queue[1..] + Extensions(q, x, out)) by {
      FrontIsCheapest(queue);
      ExpandKeepsInvariant(q, Hops, s, depth, queue, 0);
    }
    assert ByLength(queue[1..] + Extensions(q, x, out)) by {
      ExtensionsAreOneLonger(q, x, out);
      DequeueKeepsOrder(queue, Extensions(q, x, out));
    }
    assert depth'.Keys == depth.Keys + {x.node};
    assert GoodTrail(q, s, depth, x);
    SettledBound(q, s, depth, x);
  }

  /** The queue after the loop over the outgoing edges of `x`. */
  method EnqueueOutgoing(q: Query, rest: seq<Trail>, x: Trail) returns (queue: seq<Trail>)
    ensures queue == rest + Extensions(q, x, Outgoing(q.graph.edges, x.node))
  {
    var out := Outgoing(q.graph.edges, x.node);
    queue := rest;
    for k := 0 to |out|
      invariant queue == rest + Extensions(q, x, out[..k])
    {
      ExtensionsStep(q, x, out, k);
      var edge := out[k];
      if q.policyFilter && !EdgeAllowed(q, edge) {
        continue;
      }
      if edge.destinationType !in x.nodes {
        queue := queue + [Extend(x, edge)];
      }
    }
    assert out[..|out|] == out;
  }

  /** The queue is sorted in the order of the edges, and each type was settled by its first walk. */
  ghost predicate Ordering(
    q: Query, s: string, depth: map<string, real>, queue: seq<Trail>, first: map<string, seq<nat>>,
    marks: seq<seq<nat>>) {
    first.Keys == depth.Keys && Sorted(q.graph.edges, queue, marks) && FirstSettled(q, s, first, marks)
  }

  ghost predicate InEdgeOrder(q: Query, s: string, depth: map<string, real>, queue: seq<Trail>) {
    exists first, marks :: Ordering(q, s, depth, queue, first, marks)
  }

  lemma LengthsFollow(edges: seq<Edge>, queue: seq<Trail>, marks: seq<seq<nat>>)
    requires ByLength(queue) && NumbersAll(edges, marks, queue)
    ensures LengthsSpanTwo(marks)
  {
    forall i | 0 <= i < |marks|
      ensures |marks[0]| <= |marks[i]| <= |marks[0]| + 1
    {
      assert |queue[0].edges| <= |queue[i].edges| <= |queue[0].edges| + 1;
    }
  }

  /** All that a round of the search relies on. */
  ghost predicate BfsState(q: Query, s: string, t: string, queue: seq<Trail>, depth: map<string, real>) {
    BfsInvariant(q, s, t, queue, depth) && InEdgeOrder(q, s, depth, queue)
  }

  lemma BfsStarts(q: Query, s: string, t: string)
    ensures BfsState(q, s, t, [Trail(s, [s], [])], map[])
  {
    var none: map<string, seq<nat>>, empty: seq<nat> := map[], [];
    InitialInvariant(q, Hops, s);
    assert empty in [empty];
    assert Ordering(q, s, map[], [Trail(s, [s], [])], none, [empty]);
  }

  lemma BfsSkips(q: Query, s: string, t: string, queue: seq<Trail>, depth: map<string, real>)
    requires |queue| > 0 && BfsState(q, s, t, queue, depth) && queue[0].node in depth
    ensures BfsState(q, s, t, queue[1..], depth)
  {
    var first, marks :| Ordering(q, s, depth, queue, first, marks);
    DequeuedSettled(q, s, t, queue, depth);
    assert GoodTrail(q, s, depth, queue[0]) && Numbers(q.graph.edges, marks[0], queue[0].edges);
    SortedRest(q.graph.edges, queue, marks);
    DropKeepsSettled(q, s, first, marks, [], queue[0].node, queue[0].edges);
    assert marks[1..] + [] == marks[1..];
    assert Ordering(q, s, depth, queue[1..], first, marks[1..]);
  }

  lemma NewKeepsOrder(
    q: Query, s: string, t: string, queue: seq<Trail>, depth: map<string, real>, first: map<string, seq<nat>>,
      marks: seq<seq<nat>>)
    requires |queue| > 0 && BfsInvariant(q, s, t, queue, depth) && queue[0].node !in depth
    requires Ordering(q, s, depth, queue, first, marks)
    ensures var x := queue[0];
      Ordering(q, s, depth[x.node := PathCost(Hops, x.edges)],
        queue[1..] + Extensions(q, x, Outgoing(q.graph.edges, x.node)),
               first[x.node := marks[0]], marks[1..] + Pushed(q, x, marks[0], |q.graph.edges|))
  {
    var x := queue[0];
    assert GoodTrail(q, s, depth, x) && Numbers(q.graph.edges, marks[0], x.edges);
    FrontIsFirst(q, s, first, queue, marks);
    LengthsFollow(q.graph.edges, queue, marks);
    PushKeepsSorted(q, queue, marks);
    PushKeepsSettled(q, s, first, marks, x);
  }

  lemma BfsSettles(q: Query, s: string, t: string, queue: seq<Trail>, depth: map<string, real>)
    requires ValidGraph(q.graph) && |queue| > 0 && BfsState(q, s, t, queue, depth)
    requires queue[0].node !in depth && queue[0].node != t
    ensures var x := queue[0]; var depth' := depth[x.node := PathCost(Hops, x.edges)];
      && BfsState(q, s, t, queue[1..] + Extensions(q, x, Outgoing(q.graph.edges, x.node)), depth')
      && |depth| < |depth'| <= |Types(q, s)|
  {
    var first, marks :| Ordering(q, s, depth, queue, first, marks);
    DequeuedNew(q, s, t, queue, depth);
    NewKeepsOrder(q, s, t, queue, depth, first, marks);
  }

  lemma BfsFinds(q: Query, s: string, t: string, queue: seq<Trail>, depth: map<string, real>, request: PathRequest)
    requires ValidGraph(q.graph) && |queue| > 0 && BfsState(q, s, t, queue, depth) && queue[0].node == t
    ensures BestAnswer(q, Hops, s, t, PathFromEdges(request, queue[0].nodes, queue[0].edges))
    ensures FirstWalk(q, s, t, queue[0].edges)
  {
    var first, marks :| Ordering(q, s, depth, queue, first, marks);
    var x := queue[0];
    assert GoodTrail(q, s, depth, x) && Numbers(q.graph.edges, marks[0], x.edges);
    FrontIsCheapest(queue);
    CheapestIsOptimal(q, Hops, s, depth, queue, x);
    FrontIsFirst(q, s, first, queue, marks);
  }

  lemma BfsExhausts(q: Query, s: string, t: string, depth: map<string, real>, request: PathRequest)
    requires ValidGraph(q.graph) && BfsState(q, s, t, [], depth)
    ensures BestAnswer(q, Hops, s, t, Unreachable(request, s))
  {
    ExhaustedMeansUnreachable(q, Hops, s, depth, t);
  }

  method Bfs(q: Query, request: PathRequest, sourceType: string, goalType: string) returns (r: CapabilityPath)
    requires ValidGraph(q.graph)
    ensures BestAnswer(q, Hops, sourceType, goalType, r)
    ensures r == if r.reachable then PathFromEdges(request, r.nodes, r.edges) else Unreachable(request, sourceType)
    ensures r.reachable ==> FirstWalk(q, sourceType, goalType, r.edges)
  {
    var queue := [Trail(sourceType, [sourceType], [])];
    var visited: set<string> := {};
    ghost var depth: map<string, real> := map[];
    BfsStarts(q, sourceType, goalType);
    while |queue| > 0
      invariant BfsState(q, sourceType, goalType, queue, depth) && visited == depth.Keys
      decreases |Types(q, sourceType)| - |depth|, |queue|
    {
      var x := queue[0];
      if x.node == goalType {
        BfsFinds(q, sourceType, goalType, queue, depth, request);
        return PathFromEdges(request, x.nodes, x.edges);
      }
      if x.node in visited {
        BfsSkips(q, sourceType, goalType, queue, depth);
        queue := queue[1..];
        continue;
      }
      BfsSettles(q, sourceType, goalType, queue, depth);
      visited := visited + {x.node};
      depth := depth[x.node := PathCost(Hops, x.edges)];
      queue := EnqueueOutgoing(q, queue[1..], x);
    }
    BfsExhausts(q, sourceType, goalType, depth, request);
    r := Unreachable(request, sourceType);
  }

  function GoalType(goal: string): string {
    match goal
    case "create_issue_for_latest_failed_build" => "ticket"
    case "deploy_to_staging" => "staging_environment"
    case "investigate_failed_build" => "build_logs"
    case "validate_deployment" => "validation"
    case "find_service_runbook" => "documentation"
    case _ => goal
  }

  /** The text before the first colon, or all of it. */
  function ResourceType(ref: string): string {
    if |ref| == 0 || ref[0] == ':' then "" else [ref[0]] + ResourceType(ref[1..])
  }

  function RequestQuery(g: Graph, request: PathRequest, policyFilter: bool): Query {
    Query(g, request.role, request.environment, (set d | d in request.disabledServers), policyFilter)
  }

  /** What each strategy promises for a request. */
  ghost predicate Answers(g: Graph, request: PathRequest, strategy: string, r: CapabilityPath) {
    var s, t := ResourceType(request.source), GoalType(request.goal);
    match strategy
    case "lowest_risk" => BestAnswer(RequestQuery(g, request, true), Score(true), s, t, r)
    case "shortest" => BestAnswer(RequestQuery(g, request, false), Hops, s, t, r)
    case _ => BestAnswer(RequestQuery(g, request, true), Score(false), s, t, r)
  }

  /** Everything else in an answer follows from its nodes and edges: tools, cost, risk and the policy flag. */
  predicate WellFormed(request: PathRequest, r: CapabilityPath) {
    r ==
      if r.reachable then PathFromEdges(request, r.nodes, r.edges)
        else Unreachable(request, ResourceType(request.source))
  }

  /** Of the walks with the fewest edges, allowed or not, the first in the order of the edges. */
  ghost predicate FirstShortest(g: Graph, request: PathRequest, p: seq<Edge>) {
    FirstWalk(RequestQuery(g, request, false), ResourceType(request.source), GoalType(request.goal), p)
  }

  method FindPath(g: Graph, request: PathRequest) returns (r: CapabilityPath)
    requires ValidGraph(g)
    ensures Answers(g, request, request.strategy, r) && WellFormed(request, r)
    ensures request.strategy == "shortest" && r.reachable ==> FirstShortest(g, request, r.edges)
  {
    var goalType, sourceType := GoalType(request.goal), ResourceType(request.source);
    if request.strategy == "lowest_risk" {
      var p, n, e := Dijkstra(RequestQuery(g, request, true), request, sourceType, goalType, true);
      return p;
    }
    if request.strategy == "shortest" {
      r := Bfs(RequestQuery(g, request, false), request, sourceType, goalType);
      return;
    }
    var p, n, e := Dijkstra(RequestQuery(g, request, true), request, sourceType, goalType, false);
    return p;
  }

  lemma {:induction false} UnfilteredWalk(g: Graph, request: PathRequest, s: string, t: string, p: seq<Edge>)
    requires IsWalk(RequestQuery(g, request, true), s, t, p)
    ensures IsWalk(RequestQuery(g, request, false), s, t, p)
    decreases |p|
  {
    if |p| > 0 {
      UnfilteredWalk(g, request, s, p[|p| - 1].sourceType, p[..|p| - 1]);
    }
  }

  /** The two policy-filtered strategies agree on reachability, whatever the edge scores. */
  lemma FilteredStrategiesAgree(g: Graph, request: PathRequest, a: CapabilityPath, b: CapabilityPath)
    requires Answers(g, request, "lowest_risk", a) && Answers(g, request, "policy_compliant", b)
    ensures a.reachable == b.reachable
  {
    var q := RequestQuery(g, request, true);
    var s, t := ResourceType(request.source), GoalType(request.goal);
    assert a.reachable ==> IsWalk(q, s, t, a.edges);
    assert b.reachable ==> IsWalk(q, s, t, b.edges);
  }

  /** "shortest" reaches whatever a filtered strategy reaches, and never with more edges. */
  lemma ShortestIsNeverLonger(g: Graph, request: PathRequest, strategy: string, c: CapabilityPath, b: CapabilityPath)
    requires Answers(g, request, "shortest", c) && Answers(g, request, strategy, b) && b.reachable
    ensures c.reachable && |c.edges| <= |b.edges|
  {
    var s, t := ResourceType(request.source), GoalType(request.goal);
    if strategy != "shortest" {
      UnfilteredWalk(g, request, s, t, b.edges);
    }
    HopsCountEdges(b.edges);
    HopsCountEdges(c.edges);
  }

  // ---- the policy flag

  /** Every edge is on an enabled server and passes the policy for the requester. */
  ghost predicate AllAllowed(g: Graph, request: PathRequest, edges: seq<Edge>) {
    forall e :: e in edges ==> EdgeAllowed(RequestQuery(g, request, true), e)
  }

  /** An answer says "policy compliant" exactly when it is a path of allowed edges. */
  ghost predicate FlagRight(g: Graph, request: PathRequest, r: CapabilityPath) {
    r.policyCompliant <==> r.reachable && AllAllowed(g, request, r.edges)
  }

  lemma {:induction false} FilteredWalkAllowed(g: Graph, request: PathRequest, s: string, t: string, p: seq<Edge>)
    requires IsWalk(RequestQuery(g, request, true), s, t, p)
    ensures AllAllowed(g, request, p)
    decreases |p|
  {
    if |p| > 0 {
      FilteredWalkAllowed(g, request, s, p[|p| - 1].sourceType, p[..|p| - 1]);
      assert p == p[..|p| - 1] + [p[|p| - 1]];
    }
  }

  /** Whatever the strategy, the flag of a reachable answer is right exactly when its edges are all allowed. */
  lemma FlagRightIff(g: Graph, request: PathRequest, strategy: string, r: CapabilityPath)
    requires Answers(g, request, strategy, r) && WellFormed(request, r)
    ensures FlagRight(g, request, r) <==> !r.reachable || AllAllowed(g, request, r.edges)
  {
  }

  /** A filtered strategy's flag is always right. */
  lemma FilteredFlagIsRight(g: Graph, request: PathRequest, strategy: string, r: CapabilityPath)
    requires strategy != "shortest" && Answers(g, request, strategy, r) && WellFormed(request, r)
    ensures FlagRight(g, request, r)
  {
    if r.reachable {
      FilteredWalkAllowed(g, request, ResourceType(request.source), GoalType(request.goal), r.edges);
    }
  }

  lemma {:induction false} PrefixWalk(q: Query, s: string, t: string, p: seq<Edge>, i: nat)
    requires IsWalk(q, s, t, p) && i <= |p|
    ensures IsWalk(q, s, NodesOf(s, p)[i], p[..i])
    decreases |p|
  {
    if i < |p| {
      var n := |p| - 1;
      PrefixWalk(q, s, p[n].sourceType, p[..n], i);
      assert p[..n][..i] == p[..i];
    } else {
      assert p[..i] == p;
    }
  }

  /** A walk may skip from one visit of a type to a later one. */
  lemma {:induction false} Shortcut(q: Query, s: string, t: string, p: seq<Edge>, i: nat, j: nat)
    requires IsWalk(q, s, t, p) && i <= j <= |p| && NodesOf(s, p)[i] == NodesOf(s, p)[j]
    ensures IsWalk(q, s, t, p[..i] + p[j..])
    decreases |p|
  {
    if j == |p| {
      PrefixWalk(q, s, t, p, i);
      assert p[..i] + p[j..] == p[..i];
    } else {
      var n, front := |p| - 1, p[..|p| - 1];
      Shortcut(q, s, p[n].sourceType, front, i, j);
      assert p[..i] + p[j..] == (front[..i] + front[j..]) + [p[n]];
      WalkExtends(q, Hops, s, front[..i] + front[j..], p[n]);
    }
  }

  /** A shortest walk repeats no type, so it can be answered. */
  lemma ShortestRepeatsNothing(q: Query, s: string, t: string, p: seq<Edge>)
    requires IsWalk(q, s, t, p) && Optimal(q, Hops, s, t, PathCost(Hops, p))
    ensures Distinct(NodesOf(s, p))
  {
    forall i, j | 0 <= i < j < |NodesOf(s, p)|
      ensures NodesOf(s, p)[i] != NodesOf(s, p)[j]
    {
      if NodesOf(s, p)[i] == NodesOf(s, p)[j] {
        Shortcut(q, s, t, p, i, j);
        HopsCountEdges(p);
        HopsCountEdges(p[..i] + p[j..]);
      }
    }
  }

  /**
   The flag of the answer of "shortest" is right exactly when the first of the shortest walks
   is of allowed edges, or there is none.
   */
  lemma ShortestFlagRightIff(g: Graph, request: PathRequest, r: CapabilityPath)
    requires Answers(g, request, "shortest", r) && WellFormed(request, r)
    requires r.reachable ==> FirstShortest(g, request, r.edges)
    ensures FlagRight(g, request, r) <==> forall p :: FirstShortest(g, request, p) ==> AllAllowed(g, request, p)
  {
    var q, s, t := RequestQuery(g, request, false), ResourceType(request.source), GoalType(request.goal);
    FlagRightIff(g, request, "shortest", r);
    forall p | FirstShortest(g, request, p)
      ensures r.reachable && p == r.edges
    {
      FirstWalkIsShortest(q, s, t, p);
      assert r.reachable;
      FirstWalkIsUnique(q, s, t, p, r.edges);
    }
  }

  /** So no type is left out by pruning: the first shortest walk repeats none. */
  lemma FirstShortestRepeatsNothing(g: Graph, request: PathRequest, p: seq<Edge>)
    requires FirstShortest(g, request, p)
    ensures Distinct(NodesOf(ResourceType(request.source), p))
  {
    var q, s, t := RequestQuery(g, request, false), ResourceType(request.source), GoalType(request.goal);
    FirstWalkIsShortest(q, s, t, p);
    ShortestRepeatsNothing(q, s, t, p);
  }

  // ---- a wrong flag

  const DISABLED := Edge("run", "logs", "get_logs", "cicd-mcp", 1.0, "LOW", true)

  /** Everything passes the policy, but the only edge is on a disabled server. */
  const ONE_EDGE := Graph([DISABLED], (edge, role, environment) => true)

  const ASKED := PathRequest("run", "logs", "OPERATOR", "staging", "shortest", ["cicd-mcp"])

  lemma AskedTypes()
    ensures ResourceType(ASKED.source) == "run" && GoalType(ASKED.goal) == "logs"
  {
    assert "run"[1..] == "un" && "un"[1..] == "n" && "n"[1..] == "";
    assert ResourceType("n") == "n" && ResourceType("un") == "un";
  }

  lemma StaysPut(q: Query, p: seq<Edge>)
    requires q.graph == ONE_EDGE && IsWalk(q, "run", "run", p)
    ensures p == []
  {
  }

  lemma OnlyWalk(q: Query, p: seq<Edge>)
    requires q.graph == ONE_EDGE && IsWalk(q, "run", "logs", p)
    ensures p == [DISABLED]
  {
    StaysPut(q, p[..|p| - 1]);
    assert p == p[..|p| - 1] + [p[|p| - 1]];
  }

  /** Every answer to this request goes over a disabled server and is flagged as policy compliant. */
  lemma FlagCanBeWrong(r: CapabilityPath)
    requires Answers(ONE_EDGE, ASKED, ASKED.strategy, r) && WellFormed(ASKED, r)
    ensures r.reachable && r.edges == [DISABLED] && r.policyCompliant
    ensures !EdgeAllowed(RequestQuery(ONE_EDGE, ASKED, true), DISABLED) && !FlagRight(ONE_EDGE, ASKED, r)
  {
    var q := RequestQuery(ONE_EDGE, ASKED, false);
    AskedTypes();
    assert [DISABLED][..0] == [] && IsWalk(q, "run", "run", []);
    assert DISABLED in ONE_EDGE.edges && IsWalk(q, "run", "logs", [DISABLED]);
    OnlyWalk(q, r.edges);
    assert "cicd-mcp" in ASKED.disabledServers;
    assert DISABLED in r.edges;
  }
}
