/**
 Which of the shortest walks the breadth-first search answers: the one that comes first
 in the order of the edges.  A walk is numbered by the positions of its edges; shorter
 walks come before longer ones, equally long ones in lexicographic order.  The queue is
 always sorted, so a type is settled by the first of all the walks to it.
 */
module EdgeOrder {
  import opened CapabilityGraph
  import opened Frontier

  /** `w` numbers the edges of `p` by positions in the list of edges. */
  ghost predicate Numbers(edges: seq<Edge>, w: seq<nat>, p: seq<Edge>) {
    |w| == |p| && forall i :: 0 <= i < |w| ==> w[i] < |edges| && edges[w[i]] == p[i]
  }

  /** Of equally long walks, the one with the lower position where they first differ. */
  ghost predicate Before(w: seq<nat>, v: seq<nat>)
    requires |w| == |v|
    decreases |w|
  {
    |w| > 0 &&
      var n := |w| - 1;
      Before(w[..n], v[..n]) || (w[..n] == v[..n] && w[n] < v[n])
  }

  ghost predicate NotAfter(w: seq<nat>, v: seq<nat>) {
    |w| < |v| || (|w| == |v| && (w == v || Before(w, v)))
  }

  /** The walk comes first among all walks between its ends. */
  ghost predicate First(q: Query, s: string, t: string, w: seq<nat>) {
    && (exists p :: IsWalk(q, s, t, p) && Numbers(q.graph.edges, w, p))
    && forall p, v :: IsWalk(q, s, t, p) && Numbers(q.graph.edges, v, p) ==> NotAfter(w, v)
  }

  ghost predicate FirstWalk(q: Query, s: string, t: string, p: seq<Edge>) {
    exists w :: Numbers(q.graph.edges, w, p) && First(q, s, t, w)
  }

  // ---- the order

  lemma BeforeAppend(w: seq<nat>, v: seq<nat>, a: nat, b: nat)
    requires |w| == |v|
    ensures Before(w + [a], v + [b]) <==> Before(w, v) || (w == v && a < b)
  {
    assert (w + [a])[..|w|] == w && (v + [b])[..|v|] == v;
  }

  lemma {:induction false} BeforeTransitive(w: seq<nat>, v: seq<nat>, u: seq<nat>)
    requires |w| == |v| == |u| && Before(w, v) && Before(v, u)
    ensures Before(w, u)
    decreases |w|
  {
    var n := |w| - 1;
    if Before(w[..n], v[..n]) && Before(v[..n], u[..n]) {
      BeforeTransitive(w[..n], v[..n], u[..n]);
    }
  }

  lemma {:induction false} NeverBeforeItself(w: seq<nat>)
    ensures !Before(w, w)
    decreases |w|
  {
    if |w| > 0 {
      NeverBeforeItself(w[..|w| - 1]);
    }
  }

  lemma NotAfterTransitive(w: seq<nat>, v: seq<nat>, u: seq<nat>)
    requires NotAfter(w, v) && NotAfter(v, u)
    ensures NotAfter(w, u)
  {
    if |w| == |v| == |u| && w != v && v != u {
      BeforeTransitive(w, v, u);
    }
  }

  lemma NotAfterEachOther(w: seq<nat>, v: seq<nat>)
    requires NotAfter(w, v) && NotAfter(v, w)
    ensures w == v
  {
    if w != v {
      BeforeTransitive(w, v, w);
      NeverBeforeItself(w);
    }
  }

  lemma NotAfterAppend(w: seq<nat>, v: seq<nat>, a: nat)
    requires NotAfter(w, v)
    ensures NotAfter(w + [a], v + [a])
  {
    if |w| == |v| {
      BeforeAppend(w, v, a, a);
    }
  }

  /** There is only one first walk. */
  lemma FirstWalkIsUnique(q: Query, s: string, t: string, p: seq<Edge>, p': seq<Edge>)
    requires FirstWalk(q, s, t, p) && FirstWalk(q, s, t, p')
    ensures p == p'
  {
    var w :| Numbers(q.graph.edges, w, p) && First(q, s, t, w);
    var w' :| Numbers(q.graph.edges, w', p') && First(q, s, t, w');
    NotAfterEachOther(w, w');
  }

  lemma {:induction false} WalkIsNumbered(q: Query, s: string, t: string, p: seq<Edge>) returns (w: seq<nat>)
    requires IsWalk(q, s, t, p)
    ensures Numbers(q.graph.edges, w, p)
    decreases |p|
  {
    if |p| == 0 {
      w := [];
    } else {
      var n := |p| - 1;
      var front := WalkIsNumbered(q, s, p[n].sourceType, p[..n]);
      var i :| 0 <= i < |q.graph.edges| && q.graph.edges[i] == p[n];
      w := front + [i];
    }
  }

  /** The first walk is as short as any. */
  lemma FirstWalkIsShortest(q: Query, s: string, t: string, p: seq<Edge>)
    requires FirstWalk(q, s, t, p)
    ensures IsWalk(q, s, t, p) && Optimal(q, Hops, s, t, PathCost(Hops, p))
  {
    var w :| Numbers(q.graph.edges, w, p) && First(q, s, t, w);
    var p1 :| IsWalk(q, s, t, p1) && Numbers(q.graph.edges, w, p1);
    assert p1 == p;
    forall p' | IsWalk(q, s, t, p')
      ensures PathCost(Hops, p) <= PathCost(Hops, p')
    {
      var v := WalkIsNumbered(q, s, t, p');
      HopsCountEdges(p);
      HopsCountEdges(p');
    }
  }

  // ---- the sorted queue

  /**
   The queue's paths are numbered, in strict order, and no path is the extension of a later one
   or of one after it.
   */
  ghost predicate Sorted(edges: seq<Edge>, queue: seq<Trail>, marks: seq<seq<nat>>) {
    NumbersAll(edges, marks, queue) && Increasing(marks) && ParentsFirst(marks)
  }

  ghost predicate NumbersAll(edges: seq<Edge>, marks: seq<seq<nat>>, trails: seq<Trail>) {
    |marks| == |trails| && forall i :: 0 <= i < |marks| ==> Numbers(edges, marks[i], trails[i].edges)
  }

  ghost predicate Increasing(marks: seq<seq<nat>>) {
    forall i, j :: 0 <= i < j < |marks| ==> NotAfter(marks[i], marks[j]) && marks[i] != marks[j]
  }

  /** A path one longer than another one in the queue extends a path before it. */
  ghost predicate ParentsFirst(marks: seq<seq<nat>>) {
    forall i, j :: 0 <= i < |marks| && 0 <= j < |marks| && |marks[i]| == |marks[j]| + 1 ==>
      Before(marks[i][..|marks[j]|], marks[j])
  }

  /** Each settled type by its first walk, whose extensions lead to settled types or are in the queue. */
  ghost predicate FirstSettled(q: Query, s: string, first: map<string, seq<nat>>, marks: seq<seq<nat>>) {
    && (forall u {:trigger First(q, s, u, first[u])} :: u in first ==> First(q, s, u, first[u]))
    && (forall u, i: nat {:trigger Leaves(q, u, i)} :: u in first && i < |q.graph.edges| && Leaves(q, u, i) ==>
          q.graph.edges[i].destinationType in first || first[u] + [i] in marks)
    && (s in first || [] in marks)
  }

  ghost predicate Leaves(q: Query, u: string, i: nat)
    requires i < |q.graph.edges|
  {
    Usable(q, q.graph.edges[i]) && q.graph.edges[i].sourceType == u
  }

  /** Some path in the queue comes no later than any given walk to an unsettled type. */
  lemma {:induction false} QueueCutsWalk(
    q: Query, s: string, first: map<string, seq<nat>>, marks: seq<seq<nat>>, t: string, p: seq<Edge>, v: seq<nat>)
    returns (w: seq<nat>)
    requires FirstSettled(q, s, first, marks) && t !in first && IsWalk(q, s, t, p) && Numbers(q.graph.edges, v, p)
    ensures w in marks && NotAfter(w, v)
    decreases |p|
  {
    if s !in first {
      w := [];
    } else {
      var n := |p| - 1;
      var u := p[n].sourceType;
      assert Numbers(q.graph.edges, v[..n], p[..n]) && v == v[..n] + [v[n]];
      if u in first {
        assert Leaves(q, u, v[n]) && First(q, s, u, first[u]);
        w := first[u] + [v[n]];
        NotAfterAppend(first[u], v[..n], v[n]);
      } else {
        w := QueueCutsWalk(q, s, first, marks, u, p[..n], v[..n]);
        NotAfterTransitive(w, v[..n], v);
      }
    }
  }

  /** The front of the queue, if it ends at an unsettled type, is the first walk to it. */
  lemma FrontIsFirst(q: Query, s: string, first: map<string, seq<nat>>, queue: seq<Trail>, marks: seq<seq<nat>>)
    requires |queue| > 0 && Sorted(q.graph.edges, queue, marks) && FirstSettled(q, s, first, marks)
    requires queue[0].node !in first && IsWalk(q, s, queue[0].node, queue[0].edges)
    ensures First(q, s, queue[0].node, marks[0])
  {
    assert Numbers(q.graph.edges, marks[0], queue[0].edges);
    forall p, v | IsWalk(q, s, queue[0].node, p) && Numbers(q.graph.edges, v, p)
      ensures NotAfter(marks[0], v)
    {
      var w := QueueCutsWalk(q, s, first, marks, queue[0].node, p, v);
      NotAfterTransitive(marks[0], w, v);
    }
  }

  // ---- dropping the front

  lemma SortedRest(edges: seq<Edge>, queue: seq<Trail>, marks: seq<seq<nat>>)
    requires |queue| > 0 && Sorted(edges, queue, marks)
    ensures Sorted(edges, queue[1..], marks[1..])
  {
  }

  /** A numbered path ends where its last edge leads. */
  lemma EndsAt(q: Query, s: string, t: string, p: seq<Edge>, w: seq<nat>, i: nat)
    requires IsWalk(q, s, t, p) && Numbers(q.graph.edges, w + [i], p)
    ensures i < |q.graph.edges| && q.graph.edges[i].destinationType == t
  {
    assert (w + [i])[|w|] == i;
  }

  /** What a path to a settled type was in the queue for is settled already. */
  lemma DropKeepsSettled(
    q: Query, s: string, first: map<string, seq<nat>>, marks: seq<seq<nat>>, more: seq<seq<nat>>, t: string,
      p: seq<Edge>)
    requires |marks| > 0 && FirstSettled(q, s, first, marks) && t in first
    requires IsWalk(q, s, t, p) && Numbers(q.graph.edges, marks[0], p)
    ensures FirstSettled(q, s, first, marks[1..] + more)
  {
    forall w | w in marks
      ensures w == marks[0] || w in marks[1..] + more
    {
    }
    forall u, i: nat | u in first && i < |q.graph.edges| && Leaves(q, u, i)
      && q.graph.edges[i].destinationType !in first
      ensures first[u] + [i] in marks[1..] + more
    {
      if marks[0] == first[u] + [i] {
        EndsAt(q, s, t, p, first[u], i);
      }
    }
  }

  // ---- pushing extensions

  ghost predicate LengthsSpanTwo(marks: seq<seq<nat>>) {
    |marks| > 0 ==> forall v :: v in marks ==> |marks[0]| <= |v| <= |marks[0]| + 1
  }

  /** The numbers of the extensions of `x`, numbered `w`, along the first `n` edges. */
  ghost function Pushed(q: Query, x: Trail, w: seq<nat>, n: nat): seq<seq<nat>>
    requires n <= |q.graph.edges|
  {
    if n == 0 then []
    else if Takes(q, x, n - 1) then Pushed(q, x, w, n - 1) + [w + [n - 1]]
    else Pushed(q, x, w, n - 1)
  }

  lemma NumbersExtend(edges: seq<Edge>, w: seq<nat>, p: seq<Edge>, i: nat)
    requires Numbers(edges, w, p) && i < |edges|
    ensures Numbers(edges, w + [i], p + [edges[i]])
  {
  }

  lemma NumbersConcat(
    edges: seq<Edge>, marks: seq<seq<nat>>, trails: seq<Trail>, marks': seq<seq<nat>>, trails': seq<Trail>)
    requires NumbersAll(edges, marks, trails) && NumbersAll(edges, marks', trails')
    ensures NumbersAll(edges, marks + marks', trails + trails')
  {
  }

  lemma OutgoingStep(edges: seq<Edge>, node: string, n: nat)
    requires 0 < n <= |edges|
    ensures var front, e := Outgoing(edges[..n - 1], node), edges[n - 1];
      Outgoing(edges[..n], node) == if e.sourceType == node && e.enabled then front + [e] else front
  {
    assert edges[..n][..n - 1] == edges[..n - 1];
  }

  lemma ExtensionsAppend(q: Query, x: Trail, out: seq<Edge>, e: Edge)
    ensures Extensions(q, x, out + [e]) ==
      if Pushable(q, x, e) then Extensions(q, x, out) + [Extend(x, e)] else Extensions(q, x, out)
  {
    assert (out + [e])[..|out|] == out;
  }

  lemma NumbersOneMore(edges: seq<Edge>, marks: seq<seq<nat>>, trails: seq<Trail>, w: seq<nat>, x: Trail, i: nat)
    requires NumbersAll(edges, marks, trails) && Numbers(edges, w, x.edges) && i < |edges|
    ensures NumbersAll(edges, marks + [w + [i]], trails + [Extend(x, edges[i])])
  {
    NumbersExtend(edges, w, x.edges, i);
  }

  /** The extensions along the first `n` edges. */
  ghost function ExtensionsUpTo(q: Query, x: Trail, n: nat): seq<Trail>
    requires n <= |q.graph.edges|
  {
    if n == 0 then []
    else if Takes(q, x, n - 1) then ExtensionsUpTo(q, x, n - 1) + [Extend(x, q.graph.edges[n - 1])]
    else ExtensionsUpTo(q, x, n - 1)
  }

  lemma {:induction false} UpToIsOutgoing(q: Query, x: Trail, n: nat)
    requires n <= |q.graph.edges|
    ensures ExtensionsUpTo(q, x, n) == Extensions(q, x, Outgoing(q.graph.edges[..n], x.node))
  {
    if n > 0 {
      UpToIsOutgoing(q, x, n - 1);
      OutgoingStep(q.graph.edges, x.node, n);
      UpToStep(q, x, n, Outgoing(q.graph.edges[..n - 1], x.node), Outgoing(q.graph.edges[..n], x.node));
    }
  }

  lemma UpToStep(q: Query, x: Trail, n: nat, out: seq<Edge>, out': seq<Edge>)
    requires 0 < n <= |q.graph.edges| && ExtensionsUpTo(q, x, n - 1) == Extensions(q, x, out)
    requires var e := q.graph.edges[n - 1];
      out' == if e.sourceType == x.node && e.enabled then out + [e] else out
    ensures ExtensionsUpTo(q, x, n) == Extensions(q, x, out')
  {
    ExtensionsAppend(q, x, out, q.graph.edges[n - 1]);
  }

  ghost predicate Takes(q: Query, x: Trail, i: nat)
    requires i < |q.graph.edges|
  {
    q.graph.edges[i].sourceType == x.node && q.graph.edges[i].enabled && Pushable(q, x, q.graph.edges[i])
  }

  lemma {:induction false} PushedAreExtensions(q: Query, x: Trail, w: seq<nat>, n: nat)
    requires n <= |q.graph.edges| && Numbers(q.graph.edges, w, x.edges)
    ensures NumbersAll(q.graph.edges, Pushed(q, x, w, n), ExtensionsUpTo(q, x, n))
  {
    if n > 0 {
      PushedAreExtensions(q, x, w, n - 1);
      if Takes(q, x, n - 1) {
        NumbersOneMore(q.graph.edges, Pushed(q, x, w, n - 1), ExtensionsUpTo(q, x, n - 1), w, x, n - 1);
      }
    }
  }

  /** All of them are `w` and one more edge. */
  ghost predicate Extending(w: seq<nat>, marks: seq<seq<nat>>, n: nat) {
    forall j :: 0 <= j < |marks| ==> |marks[j]| == |w| + 1 && marks[j][..|w|] == w && marks[j][|w|] < n
  }

  lemma {:induction false} PushedAreIncreasing(q: Query, x: Trail, w: seq<nat>, n: nat)
    requires n <= |q.graph.edges|
    ensures Extending(w, Pushed(q, x, w, n), n) && Increasing(Pushed(q, x, w, n))
  {
    if n > 0 {
      var front := Pushed(q, x, w, n - 1);
      PushedAreIncreasing(q, x, w, n - 1);
      forall j | 0 <= j < |front|
        ensures NotAfter(front[j], w + [n - 1]) && front[j] != w + [n - 1]
      {
        assert front[j] == w + [front[j][|w|]];
        BeforeAppend(w, w, front[j][|w|], n - 1);
      }
    }
  }

  lemma {:induction false} PushedHas(q: Query, x: Trail, w: seq<nat>, n: nat, i: nat)
    requires i < n <= |q.graph.edges| && Leaves(q, x.node, i) && q.graph.edges[i].destinationType !in x.nodes
    ensures w + [i] in Pushed(q, x, w, n)
  {
    if i < n - 1 {
      PushedHas(q, x, w, n - 1, i);
    }
  }

  /** Extensions of the front go to the back of the queue in order. */
  lemma PushKeepsIncreasing(marks: seq<seq<nat>>, more: seq<seq<nat>>, n: nat)
    requires |marks| > 0 && Increasing(marks) && ParentsFirst(marks) && Increasing(more)
    requires LengthsSpanTwo(marks) && Extending(marks[0], more, n)
    ensures Increasing(marks[1..] + more)
  {
    forall k, l | 0 <= k < |marks| - 1 && 0 <= l < |more|
      ensures NotAfter(marks[1..][k], more[l]) && marks[1..][k] != more[l]
    {
      assert more[l] == marks[0] + [more[l][|marks[0]|]];
      ExtensionComesLater(marks, k + 1, more[l][|marks[0]|]);
    }
  }

  lemma ExtensionComesLater(marks: seq<seq<nat>>, k: nat, i: nat)
    requires 0 < k < |marks| && ParentsFirst(marks) && LengthsSpanTwo(marks)
    ensures NotAfter(marks[k], marks[0] + [i]) && marks[k] != marks[0] + [i]
  {
    var w, v := marks[0], marks[k];
    assert v in marks;
    if |v| == |w| + 1 {
      assert v == v[..|w|] + [v[|w|]];
      BeforeAppend(v[..|w|], w, v[|w|], i);
      NeverBeforeItself(w + [i]);
    }
  }

  /** What stands at each place of the new queue. */
  lemma QueuedAt(marks: seq<seq<nat>>, more: seq<seq<nat>>, n: nat, i: nat)
    requires |marks| > 0 && LengthsSpanTwo(marks) && Extending(marks[0], more, n) && i < |marks[1..] + more|
    ensures var v := (marks[1..] + more)[i];
      if i < |marks| - 1 then v == marks[i + 1] && |marks[0]| <= |v| <= |marks[0]| + 1
      else |v| == |marks[0]| + 1 && v[..|marks[0]|] == marks[0]
  {
    if i < |marks| - 1 {
      assert marks[i + 1] in marks;
    }
  }

  lemma PushKeepsParentsFirst(marks: seq<seq<nat>>, more: seq<seq<nat>>, n: nat)
    requires |marks| > 0 && Increasing(marks) && ParentsFirst(marks) && LengthsSpanTwo(marks)
    requires Extending(marks[0], more, n)
    ensures ParentsFirst(marks[1..] + more)
  {
    var all := marks[1..] + more;
    forall i, j | 0 <= i < |all| && 0 <= j < |all| && |all[i]| == |all[j]| + 1
      ensures Before(all[i][..|all[j]|], all[j])
    {
      QueuedAt(marks, more, n, i);
      QueuedAt(marks, more, n, j);
    }
  }

  lemma PushKeepsSorted(q: Query, queue: seq<Trail>, marks: seq<seq<nat>>)
    requires |queue| > 0 && Sorted(q.graph.edges, queue, marks) && LengthsSpanTwo(marks)
    ensures var x, n := queue[0], |q.graph.edges|;
      Sorted(q.graph.edges, queue[1..] + Extensions(q, x, Outgoing(q.graph.edges, x.node)),
        marks[1..] + Pushed(q, x, marks[0], n))
  {
    var x, n := queue[0], |q.graph.edges|;
    var more, trails := Pushed(q, x, marks[0], n), Extensions(q, x, Outgoing(q.graph.edges, x.node));
    assert Numbers(q.graph.edges, marks[0], x.edges);
    assert q.graph.edges[..n] == q.graph.edges;
    UpToIsOutgoing(q, x, n);
    PushedAreExtensions(q, x, marks[0], n);
    PushedAreIncreasing(q, x, marks[0], n);
    SortedOnceMore(q.graph.edges, queue, marks, trails, more, n);
  }

  lemma SortedOnceMore(
    edges: seq<Edge>, queue: seq<Trail>, marks: seq<seq<nat>>, trails: seq<Trail>, more: seq<seq<nat>>, n: nat)
    requires |queue| > 0 && Sorted(edges, queue, marks) && LengthsSpanTwo(marks)
    requires NumbersAll(edges, more, trails) && Extending(marks[0], more, n) && Increasing(more)
    ensures Sorted(edges, queue[1..] + trails, marks[1..] + more)
  {
    SortedRest(edges, queue, marks);
    NumbersConcat(edges, marks[1..], queue[1..], more, trails);
    PushKeepsIncreasing(marks, more, n);
    PushKeepsParentsFirst(marks, more, n);
  }

  /** Settling the front's type by its first walk, with the extensions in the queue. */
  lemma PushKeepsSettled(
    q: Query, s: string, first: map<string, seq<nat>>, marks: seq<seq<nat>>, x: Trail)
    requires |marks| > 0 && FirstSettled(q, s, first, marks) && First(q, s, x.node, marks[0])
    requires IsWalk(q, s, x.node, x.edges) && Numbers(q.graph.edges, marks[0], x.edges)
    requires forall n :: n in x.nodes && n != x.node ==> n in first
    requires x.node !in first
    ensures FirstSettled(q, s, first[x.node := marks[0]], marks[1..] + Pushed(q, x, marks[0], |q.graph.edges|))
  {
    var first', more := first[x.node := marks[0]], Pushed(q, x, marks[0], |q.graph.edges|);
    forall w | w in marks
      ensures w == marks[0] || w in marks[1..] + more
    {
    }
    forall u, i: nat | u in first' && i < |q.graph.edges| && Leaves(q, u, i)
      && q.graph.edges[i].destinationType !in first'
      ensures first'[u] + [i] in marks[1..] + more
    {
      if u == x.node {
        PushedHas(q, x, marks[0], |q.graph.edges|, i);
      } else if marks[0] == first[u] + [i] {
        EndsAt(q, s, x.node, x.edges, first[u], i);
      }
    }
    if marks[0] == [] {
      assert x.node == s;
    }
  }
}
