/**
 * The motion graph as the solution registration reads it, and the specification of
 * the three ways the registration walks a chain back from a goal (or joining)
 * vertex to the root of its tree.
 *
 * Vertex and edge properties are total functions over vertex ids, as the graph's
 * property maps are defined on every vertex of the graph.
 */
module MotionGraphs {
  import opened Costs

  type Vertex = nat

  /**
   * An in-edge of a vertex: its source vertex and its steer record, the points the
   * record yields from just after its start up to its end, in travel order.
   */
  datatype Edge<P> = Edge(source: Vertex, steerRecord: seq<P>)

  /**
   * The properties the registration reads: "vertex_position", the in-edges,
   * "vertex_predecessor" and "vertex_distance_accum" (the last two only exist in
   * optimal motion graphs).
   */
  datatype MotionGraph<P> = MotionGraph(
    position: Vertex -> P,
    inEdges: Vertex -> seq<Edge<P>>,
    predecessor: Vertex -> Vertex,
    distanceAccum: Vertex -> Cost)

  /** The space's distance metric, an external quasi-metric (not necessarily symmetric). */
  type Metric<!P> = (P, P) -> Cost

  /** The metric with its arguments exchanged. */
  function Flip<P>(dist: Metric<P>): Metric<P>
  {
    (a: P, b: P) => dist(b, a)
  }

  function Reversed<T>(s: seq<T>): (r: seq<T>)
    ensures |r| == |s|
  {
    if s == [] then [] else Reversed(s[1..]) + [s[0]]
  }

  lemma {:induction false} ReversedConcat<T>(a: seq<T>, b: seq<T>)
    ensures Reversed(a + b) == Reversed(b) + Reversed(a)
    decreases |a|
  {
    if a == [] {
      assert a + b == b;
    } else {
      assert (a + b)[1..] == a[1..] + b;
      ReversedConcat(a[1..], b);
    }
  }

  // ---------------------------------------------------------------------------
  // Basic motion graphs: follow the first in-edge until the root or a vertex
  // without in-edges.
  // ---------------------------------------------------------------------------

  /** Where the in-edge walk stops: at the root, or at a vertex of in-degree zero. */
  ghost predicate InEdgeWalkStops<P>(g: MotionGraph<P>, root: Vertex, v: Vertex)
  {
    g.inEdges(v) == [] || v == root
  }

  /** The in-edge walk from `v` stops within `n` steps. */
  ghost predicate InEdgeChainWithin<P>(g: MotionGraph<P>, root: Vertex, v: Vertex, n: nat)
    decreases n
  {
    InEdgeWalkStops(g, root, v) || (n > 0 && InEdgeChainWithin(g, root, g.inEdges(v)[0].source, n - 1))
  }

  /** The in-edge walk from `v` terminates (the chain of first in-edges has no cycle). */
  ghost predicate InEdgeChainFinite<P>(g: MotionGraph<P>, root: Vertex, v: Vertex)
  {
    exists n: nat :: InEdgeChainWithin(g, root, v, n)
  }

  /**
   * The outcome of a walk: the vertex where it stopped, the waypoints it puts in
   * front of the starting vertex's position, and the metric length of the edges walked.
   */
  datatype Walk<P> = Walk(end: Vertex, prefix: seq<P>, length: Cost)

  /** The points an edge contributes between its endpoints: its steer record, in steerable spaces. */
  function Spliced<P>(e: Edge<P>, steerable: bool): seq<P>
  {
    if steerable then e.steerRecord else []
  }

  ghost function InEdgeWalkFuel<P>(g: MotionGraph<P>, root: Vertex, v: Vertex, steerable: bool, dist: Metric<P>, n: nat): Walk<P>
    requires InEdgeChainWithin(g, root, v, n)
    decreases n
  {
    if InEdgeWalkStops(g, root, v) then Walk(v, [], Zero)
    else
      var e := g.inEdges(v)[0];
      var w := InEdgeWalkFuel(g, root, e.source, steerable, dist, n - 1);
      Walk(w.end, w.prefix + [g.position(e.source)] + Spliced(e, steerable),
           Add(dist(g.position(e.source), g.position(v)), w.length))
  }

  lemma {:induction false} InEdgeWalkFuelIndependent<P>(g: MotionGraph<P>, root: Vertex, v: Vertex, steerable: bool, dist: Metric<P>, n: nat, m: nat)
    requires InEdgeChainWithin(g, root, v, n) && InEdgeChainWithin(g, root, v, m)
    ensures InEdgeWalkFuel(g, root, v, steerable, dist, n) == InEdgeWalkFuel(g, root, v, steerable, dist, m)
    decreases n
  {
    if !InEdgeWalkStops(g, root, v) {
      InEdgeWalkFuelIndependent(g, root, g.inEdges(v)[0].source, steerable, dist, n - 1, m - 1);
    }
  }

  /** The walk along first in-edges from `v`. */
  ghost function InEdgeWalk<P>(g: MotionGraph<P>, root: Vertex, v: Vertex, steerable: bool, dist: Metric<P>): Walk<P>
    requires InEdgeChainFinite(g, root, v)
  {
    var n: nat :| InEdgeChainWithin(g, root, v, n);
    InEdgeWalkFuel(g, root, v, steerable, dist, n)
  }

  lemma InEdgeWalkIsFuel<P>(g: MotionGraph<P>, root: Vertex, v: Vertex, steerable: bool, dist: Metric<P>, n: nat)
    requires InEdgeChainWithin(g, root, v, n)
    ensures InEdgeChainFinite(g, root, v)
    ensures InEdgeWalk(g, root, v, steerable, dist) == InEdgeWalkFuel(g, root, v, steerable, dist, n)
  {
    var m: nat :| InEdgeChainWithin(g, root, v, m) && InEdgeWalk(g, root, v, steerable, dist) == InEdgeWalkFuel(g, root, v, steerable, dist, m);
    InEdgeWalkFuelIndependent(g, root, v, steerable, dist, n, m);
  }

  /** The vertex reached after `k` first-in-edge steps from `v`, stopping where the walk stops. */
  ghost function InEdgeAncestor<P>(g: MotionGraph<P>, root: Vertex, v: Vertex, k: nat): Vertex
    decreases k
  {
    if k == 0 || InEdgeWalkStops(g, root, v) then v
    else InEdgeAncestor(g, root, g.inEdges(v)[0].source, k - 1)
  }

  lemma {:induction false} InEdgeWalkFuelShape<P>(g: MotionGraph<P>, root: Vertex, v: Vertex, dist: Metric<P>, n: nat)
    requires InEdgeChainWithin(g, root, v, n)
    ensures var w := InEdgeWalkFuel(g, root, v, false, dist, n);
      InEdgeWalkStops(g, root, w.end)
      && InEdgeAncestor(g, root, v, |w.prefix|) == w.end
      && forall i :: 0 <= i < |w.prefix| ==> w.prefix[i] == g.position(InEdgeAncestor(g, root, v, |w.prefix| - i))
    decreases n
  {
    if !InEdgeWalkStops(g, root, v) {
      var u := g.inEdges(v)[0].source;
      InEdgeWalkFuelShape(g, root, u, dist, n - 1);
      var w' := InEdgeWalkFuel(g, root, u, false, dist, n - 1);
      var w := InEdgeWalkFuel(g, root, v, false, dist, n);
      assert w.prefix == w'.prefix + [g.position(u)];
      forall i | 0 <= i < |w.prefix|
        ensures w.prefix[i] == g.position(InEdgeAncestor(g, root, v, |w.prefix| - i))
      {
        if i < |w'.prefix| {
          assert w.prefix[i] == w'.prefix[i];
        }
      }
    }
  }

  lemma {:induction false} InEdgeWalkFuelEnd<P>(g: MotionGraph<P>, root: Vertex, v: Vertex, steerable: bool, dist: Metric<P>, n: nat)
    requires InEdgeChainWithin(g, root, v, n)
    ensures InEdgeWalkStops(g, root, InEdgeWalkFuel(g, root, v, steerable, dist, n).end)
    decreases n
  {
    if !InEdgeWalkStops(g, root, v) {
      InEdgeWalkFuelEnd(g, root, g.inEdges(v)[0].source, steerable, dist, n - 1);
    }
  }

  /**
   * The walk along first in-edges stops at the root or at a vertex without in-edges;
   * without steering, its waypoints are the positions of the vertices it passed,
   * farthest first, and it stopped at the vertex that many steps up the chain.
   */
  lemma InEdgeWalkShape<P>(g: MotionGraph<P>, root: Vertex, v: Vertex, steerable: bool, dist: Metric<P>)
    requires InEdgeChainFinite(g, root, v)
    ensures InEdgeWalkStops(g, root, InEdgeWalk(g, root, v, steerable, dist).end)
    ensures var w := InEdgeWalk(g, root, v, false, dist);
      InEdgeAncestor(g, root, v, |w.prefix|) == w.end
      && forall i :: 0 <= i < |w.prefix| ==> w.prefix[i] == g.position(InEdgeAncestor(g, root, v, |w.prefix| - i))
  {
    var n: nat :| InEdgeChainWithin(g, root, v, n);
    InEdgeWalkIsFuel(g, root, v, steerable, dist, n);
    InEdgeWalkIsFuel(g, root, v, false, dist, n);
    InEdgeWalkFuelEnd(g, root, v, steerable, dist, n);
    InEdgeWalkFuelShape(g, root, v, dist, n);
  }

  // ---------------------------------------------------------------------------
  // Optimal motion graphs, non-steerable: follow the predecessor map to the root.
  // ---------------------------------------------------------------------------

  ghost predicate PredChainWithin<P>(g: MotionGraph<P>, root: Vertex, v: Vertex, n: nat)
    decreases n
  {
    v == root || (n > 0 && PredChainWithin(g, root, g.predecessor(v), n - 1))
  }

  /** Following predecessors from `v` reaches the root. */
  ghost predicate PredChainFinite<P>(g: MotionGraph<P>, root: Vertex, v: Vertex)
  {
    exists n: nat :: PredChainWithin(g, root, v, n)
  }

  ghost function PredPrefixFuel<P>(g: MotionGraph<P>, root: Vertex, v: Vertex, n: nat): seq<P>
    requires PredChainWithin(g, root, v, n)
    decreases n
  {
    if v == root then []
    else PredPrefixFuel(g, root, g.predecessor(v), n - 1) + [g.position(g.predecessor(v))]
  }

  lemma {:induction false} PredPrefixFuelIndependent<P>(g: MotionGraph<P>, root: Vertex, v: Vertex, n: nat, m: nat)
    requires PredChainWithin(g, root, v, n) && PredChainWithin(g, root, v, m)
    ensures PredPrefixFuel(g, root, v, n) == PredPrefixFuel(g, root, v, m)
    decreases n
  {
    if v != root {
      PredPrefixFuelIndependent(g, root, g.predecessor(v), n - 1, m - 1);
    }
  }

  /** The positions of the predecessors of `v`, from the root's up to `v`'s predecessor's. */
  ghost function PredPrefix<P>(g: MotionGraph<P>, root: Vertex, v: Vertex): seq<P>
    requires PredChainFinite(g, root, v)
  {
    var n: nat :| PredChainWithin(g, root, v, n);
    PredPrefixFuel(g, root, v, n)
  }

  lemma PredPrefixIsFuel<P>(g: MotionGraph<P>, root: Vertex, v: Vertex, n: nat)
    requires PredChainWithin(g, root, v, n)
    ensures PredChainFinite(g, root, v)
    ensures PredPrefix(g, root, v) == PredPrefixFuel(g, root, v, n)
  {
    var m: nat :| PredChainWithin(g, root, v, m) && PredPrefix(g, root, v) == PredPrefixFuel(g, root, v, m);
    PredPrefixFuelIndependent(g, root, v, n, m);
  }

  /** The vertex `k` predecessor steps above `v`. */
  ghost function Ancestor<P>(g: MotionGraph<P>, v: Vertex, k: nat): Vertex
    decreases k
  {
    if k == 0 then v else Ancestor(g, g.predecessor(v), k - 1)
  }

  lemma {:induction false} PredPrefixFuelShape<P>(g: MotionGraph<P>, root: Vertex, v: Vertex, n: nat)
    requires PredChainWithin(g, root, v, n)
    ensures var p := PredPrefixFuel(g, root, v, n);
      Ancestor(g, v, |p|) == root
      && (forall k :: 0 <= k < |p| ==> Ancestor(g, v, k) != root)
      && (forall i :: 0 <= i < |p| ==> p[i] == g.position(Ancestor(g, v, |p| - i)))
    decreases n
  {
    if v != root {
      var u := g.predecessor(v);
      PredPrefixFuelShape(g, root, u, n - 1);
      var p' := PredPrefixFuel(g, root, u, n - 1);
      var p := PredPrefixFuel(g, root, v, n);
      assert p == p' + [g.position(u)];
      forall k | 0 <= k < |p|
        ensures Ancestor(g, v, k) != root
      {
        if k > 0 {
          assert Ancestor(g, v, k) == Ancestor(g, u, k - 1);
        }
      }
      forall i | 0 <= i < |p|
        ensures p[i] == g.position(Ancestor(g, v, |p| - i))
      {
        if i < |p'| {
          assert p[i] == p'[i];
        }
      }
    }
  }

  /**
   * The predecessor prefix names exactly the chain of predecessors: its length is
   * the number of steps to the root, the root is not met earlier, and its waypoints
   * are the ancestors' positions, the root's first.
   */
  lemma PredPrefixShape<P>(g: MotionGraph<P>, root: Vertex, v: Vertex)
    requires PredChainFinite(g, root, v)
    ensures var p := PredPrefix(g, root, v);
      Ancestor(g, v, |p|) == root
      && (forall k :: 0 <= k < |p| ==> Ancestor(g, v, k) != root)
      && (forall i :: 0 <= i < |p| ==> p[i] == g.position(Ancestor(g, v, |p| - i)))
      && (v != root ==> p != [] && p[0] == g.position(root))
  {
    var n: nat :| PredChainWithin(g, root, v, n);
    PredPrefixIsFuel(g, root, v, n);
    PredPrefixFuelShape(g, root, v, n);
  }

  // ---------------------------------------------------------------------------
  // Optimal motion graphs, steerable: follow predecessors, taking for each step the
  // first in-edge whose source is the predecessor, to splice its steer record.
  // ---------------------------------------------------------------------------

  /** Index of the first edge whose source is `u`, or `|edges|` when there is none. */
  function FirstEdgeFrom<P>(edges: seq<Edge<P>>, u: Vertex): (k: nat)
    ensures k <= |edges|
    ensures forall j :: 0 <= j < k ==> edges[j].source != u
    ensures k < |edges| ==> edges[k].source == u
  {
    if edges == [] then 0
    else if edges[0].source == u then 0
    else 1 + FirstEdgeFrom(edges[1..], u)
  }

  /** `v` has an in-edge from its predecessor. */
  ghost predicate HasEdgeFromPredecessor<P>(g: MotionGraph<P>, v: Vertex)
  {
    FirstEdgeFrom(g.inEdges(v), g.predecessor(v)) < |g.inEdges(v)|
  }

  ghost predicate MatchedChainWithin<P>(g: MotionGraph<P>, root: Vertex, v: Vertex, n: nat)
    decreases n
  {
    v == root || !HasEdgeFromPredecessor(g, v)
    || (n > 0 && MatchedChainWithin(g, root, g.predecessor(v), n - 1))
  }

  /** The matched walk from `v` reaches the root or a vertex with no edge from its predecessor. */
  ghost predicate MatchedChainFinite<P>(g: MotionGraph<P>, root: Vertex, v: Vertex)
  {
    exists n: nat :: MatchedChainWithin(g, root, v, n)
  }

  /**
   * The outcome of the matched walk: the vertex where it stopped, the waypoints it
   * collected, and whether it stopped because a vertex had no in-edge from its
   * predecessor (then `end` is that predecessor, already stepped to).
   */
  datatype Trace<P> = Trace(end: Vertex, prefix: seq<P>, broken: bool)

  ghost function MatchedWalkFuel<P>(g: MotionGraph<P>, root: Vertex, v: Vertex, n: nat): Trace<P>
    requires MatchedChainWithin(g, root, v, n)
    decreases n
  {
    if v == root then Trace(v, [], false)
    else
      var u := g.predecessor(v);
      var edges := g.inEdges(v);
      var k := FirstEdgeFrom(edges, u);
      if k == |edges| then Trace(u, [], true)
      else
        var t := MatchedWalkFuel(g, root, u, n - 1);
        Trace(t.end, t.prefix + [g.position(u)] + edges[k].steerRecord, t.broken)
  }

  lemma {:induction false} MatchedWalkFuelIndependent<P>(g: MotionGraph<P>, root: Vertex, v: Vertex, n: nat, m: nat)
    requires MatchedChainWithin(g, root, v, n) && MatchedChainWithin(g, root, v, m)
    ensures MatchedWalkFuel(g, root, v, n) == MatchedWalkFuel(g, root, v, m)
    decreases n
  {
    if v != root && HasEdgeFromPredecessor(g, v) {
      MatchedWalkFuelIndependent(g, root, g.predecessor(v), n - 1, m - 1);
    }
  }

  ghost function MatchedWalk<P>(g: MotionGraph<P>, root: Vertex, v: Vertex): Trace<P>
    requires MatchedChainFinite(g, root, v)
  {
    var n: nat :| MatchedChainWithin(g, root, v, n);
    MatchedWalkFuel(g, root, v, n)
  }

  lemma MatchedWalkIsFuel<P>(g: MotionGraph<P>, root: Vertex, v: Vertex, n: nat)
    requires MatchedChainWithin(g, root, v, n)
    ensures MatchedChainFinite(g, root, v)
    ensures MatchedWalk(g, root, v) == MatchedWalkFuel(g, root, v, n)
  {
    var m: nat :| MatchedChainWithin(g, root, v, m) && MatchedWalk(g, root, v) == MatchedWalkFuel(g, root, v, m);
    MatchedWalkFuelIndependent(g, root, v, n, m);
  }

  lemma {:induction false} MatchedWalkFuelShape<P>(g: MotionGraph<P>, root: Vertex, v: Vertex, n: nat)
    requires MatchedChainWithin(g, root, v, n)
    ensures var t := MatchedWalkFuel(g, root, v, n);
      (!t.broken ==> t.end == root)
      && (!t.broken && v != root ==> t.prefix != [] && t.prefix[0] == g.position(root))
    decreases n
  {
    if v != root && HasEdgeFromPredecessor(g, v) {
      MatchedWalkFuelShape(g, root, g.predecessor(v), n - 1);
    }
  }

  /**
   * A matched walk that was not cut short ends at the root, and then its waypoints
   * start at the root's position.
   */
  lemma MatchedWalkShape<P>(g: MotionGraph<P>, root: Vertex, v: Vertex)
    requires MatchedChainFinite(g, root, v)
    ensures var t := MatchedWalk(g, root, v);
      (!t.broken ==> t.end == root)
      && (!t.broken && v != root ==> t.prefix != [] && t.prefix[0] == g.position(root))
  {
    var n: nat :| MatchedChainWithin(g, root, v, n);
    MatchedWalkIsFuel(g, root, v, n);
    MatchedWalkFuelShape(g, root, v, n);
  }

  /**
   * A cut-short walk can end at the root all the same: with the root at 0, vertex 1
   * whose predecessor is the root and which has no in-edges, the walk from 1 steps
   * to the root and stops, collecting no waypoint and so missing the root's position.
   */
  lemma BrokenWalkCanEndAtRoot()
    ensures var g := MotionGraph((v: Vertex) => v as int, (v: Vertex) => [], (v: Vertex) => 0, (v: Vertex) => Zero);
      MatchedChainFinite(g, 0, 1)
      && MatchedWalk(g, 0, 1) == Trace(0, [], true)
  {
    var g := MotionGraph((v: Vertex) => v as int, (v: Vertex) => [], (v: Vertex) => 0, (v: Vertex) => Zero);
    assert MatchedChainWithin(g, 0, 1, 0);
    MatchedWalkIsFuel(g, 0, 1, 0);
  }
}
