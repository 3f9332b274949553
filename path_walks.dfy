/**
 * The loops of the registration routines that walk a chain of a motion graph and
 * put waypoints in front of (tree of the start) or behind (tree of the goal) the
 * waypoint container, each proved against the walk it performs.
 */
module PathWalks {
  import opened Costs
  import opened MotionGraphs

  /** Pushes a steer record's points to the front, last point first, so they end up in travel order. */
  method PrependSteerRecord<P>(wp: seq<P>, rec: seq<P>) returns (r: seq<P>)
    ensures r == rec + wp
  {
    r := wp;
    var k := |rec|;
    while k > 0
      invariant 0 <= k <= |rec|
      invariant r == rec[k..] + wp
    {
      k := k - 1;
      assert rec[k..] == [rec[k]] + rec[k + 1..];
      r := [rec[k]] + r;
    }
  }

  /** Pushes a steer record's points to the back, last point first, so they end up in reverse travel order. */
  method AppendSteerRecordReversed<P>(wp: seq<P>, rec: seq<P>) returns (r: seq<P>)
    ensures r == wp + Reversed(rec)
  {
    r := wp;
    var k := |rec|;
    assert rec[..k] == rec;
    while k > 0
      invariant 0 <= k <= |rec|
      invariant r + Reversed(rec[..k]) == wp + Reversed(rec)
    {
      k := k - 1;
      assert rec[..k + 1] == rec[..k] + [rec[k]];
      ReversedConcat(rec[..k], [rec[k]]);
      assert Reversed([rec[k]]) == [rec[k]];
      r := r + [rec[k]];
    }
    assert rec[..0] == [];
  }

  /** Reversing a prefix grown by one step: the step's record comes out first, then its vertex. */
  lemma ReversedStep<T>(r: seq<T>, prefix: seq<T>, x: T, rec: seq<T>)
    ensures r + Reversed(prefix + [x] + rec) == r + Reversed(rec) + [x] + Reversed(prefix)
  {
    ReversedConcat(prefix + [x], rec);
    ReversedConcat(prefix, [x]);
    assert Reversed([x]) == [x];
  }

  /** Advances an in-edge iterator to the first edge whose source is `u`. */
  method FindInEdgeFrom<P>(edges: seq<Edge<P>>, u: Vertex) returns (k: nat)
    ensures k == FirstEdgeFrom(edges, u)
  {
    k := 0;
    while k < |edges| && edges[k].source != u
      invariant k <= |edges|
      invariant forall j :: 0 <= j < k ==> edges[j].source != u
    {
      k := k + 1;
    }
  }

  /**
   * The first-in-edge walk of a basic motion graph, putting waypoints in front:
   * the walk from the goal (or first joining) vertex back to the start.
   */
  method WalkInEdgesBackward<P>(g: MotionGraph<P>, root: Vertex, v: Vertex, steerable: bool, dist: Metric<P>,
                                wp: seq<P>, total: Cost)
    returns (end: Vertex, r: seq<P>, total': Cost)
    requires InEdgeChainFinite(g, root, v)
    ensures var w := InEdgeWalk(g, root, v, steerable, dist);
      end == w.end && r == w.prefix + wp && total' == Add(total, w.length)
  {
    ghost var n: nat :| InEdgeChainWithin(g, root, v, n);
    InEdgeWalkIsFuel(g, root, v, steerable, dist, n);
    ghost var w0 := InEdgeWalkFuel(g, root, v, steerable, dist, n);
    end, r, total' := v, wp, total;
    while g.inEdges(end) != [] && end != root
      invariant InEdgeChainWithin(g, root, end, n)
      invariant var w := InEdgeWalkFuel(g, root, end, steerable, dist, n);
        w0.end == w.end && w0.prefix + wp == w.prefix + r && Add(total, w0.length) == Add(total', w.length)
      decreases n
    {
      var e := g.inEdges(end)[0];
      var u := e.source;
      ghost var w := InEdgeWalkFuel(g, root, u, steerable, dist, n - 1);
      assert w.prefix + [g.position(u)] + Spliced(e, steerable) + r == w.prefix + ([g.position(u)] + (Spliced(e, steerable) + r));
      if steerable {
        r := PrependSteerRecord(r, e.steerRecord);
      }
      AddLaws(total', dist(g.position(u), g.position(end)), w.length);
      total' := Add(total', dist(g.position(u), g.position(end)));
      end := u;
      r := [g.position(end)] + r;
      n := n - 1;
    }
    AddLaws(total', Zero, Zero);
  }

  /**
   * The first-in-edge walk of a basic motion graph, putting waypoints behind: the
   * walk from the second joining vertex back to the goal, so the waypoints come out
   * in reverse order of the tree's edges.
   */
  method WalkInEdgesForward<P>(g: MotionGraph<P>, root: Vertex, v: Vertex, steerable: bool, dist: Metric<P>,
                               wp: seq<P>, total: Cost)
    returns (end: Vertex, r: seq<P>, total': Cost)
    requires InEdgeChainFinite(g, root, v)
    ensures var w := InEdgeWalk(g, root, v, steerable, dist);
      end == w.end && r == wp + Reversed(w.prefix) && total' == Add(total, w.length)
  {
    ghost var n: nat :| InEdgeChainWithin(g, root, v, n);
    InEdgeWalkIsFuel(g, root, v, steerable, dist, n);
    ghost var w0 := InEdgeWalkFuel(g, root, v, steerable, dist, n);
    end, r, total' := v, wp, total;
    while g.inEdges(end) != [] && end != root
      invariant InEdgeChainWithin(g, root, end, n)
      invariant var w := InEdgeWalkFuel(g, root, end, steerable, dist, n);
        w0.end == w.end && wp + Reversed(w0.prefix) == r + Reversed(w.prefix)
        && Add(total, w0.length) == Add(total', w.length)
      decreases n
    {
      var e := g.inEdges(end)[0];
      var u := e.source;
      ghost var w := InEdgeWalkFuel(g, root, u, steerable, dist, n - 1);
      ReversedStep(r, w.prefix, g.position(u), Spliced(e, steerable));
      if steerable {
        r := AppendSteerRecordReversed(r, e.steerRecord);
      }
      AddLaws(total', dist(g.position(u), g.position(end)), w.length);
      total' := Add(total', dist(g.position(u), g.position(end)));
      end := u;
      r := r + [g.position(end)];
      n := n - 1;
    }
    AddLaws(total', Zero, Zero);
  }

  /** The predecessor walk of an optimal motion graph, putting waypoints in front. */
  method WalkPredecessorsBackward<P>(g: MotionGraph<P>, root: Vertex, v: Vertex, wp: seq<P>) returns (r: seq<P>)
    requires PredChainFinite(g, root, v)
    ensures r == PredPrefix(g, root, v) + wp
  {
    ghost var n: nat :| PredChainWithin(g, root, v, n);
    PredPrefixIsFuel(g, root, v, n);
    var cur := v;
    r := wp;
    while cur != root
      invariant PredChainWithin(g, root, cur, n)
      invariant PredPrefix(g, root, v) + wp == PredPrefixFuel(g, root, cur, n) + r
      decreases n
    {
      cur := g.predecessor(cur);
      r := [g.position(cur)] + r;
      n := n - 1;
    }
  }

  /** The predecessor walk of an optimal motion graph, putting waypoints behind. */
  method WalkPredecessorsForward<P>(g: MotionGraph<P>, root: Vertex, v: Vertex, wp: seq<P>) returns (r: seq<P>)
    requires PredChainFinite(g, root, v)
    ensures r == wp + Reversed(PredPrefix(g, root, v))
  {
    ghost var n: nat :| PredChainWithin(g, root, v, n);
    PredPrefixIsFuel(g, root, v, n);
    var cur := v;
    r := wp;
    while cur != root
      invariant PredChainWithin(g, root, cur, n)
      invariant wp + Reversed(PredPrefix(g, root, v)) == r + Reversed(PredPrefixFuel(g, root, cur, n))
      decreases n
    {
      var u := g.predecessor(cur);
      ReversedConcat(PredPrefixFuel(g, root, u, n - 1), [g.position(u)]);
      assert Reversed([g.position(u)]) == [g.position(u)];
      cur := u;
      r := r + [g.position(cur)];
      n := n - 1;
    }
  }

  /**
   * The matched walk of a steerable optimal motion graph, putting waypoints in
   * front; `broken` tells whether it stopped at a vertex with no in-edge from its
   * predecessor.
   */
  method WalkMatchedEdgesBackward<P>(g: MotionGraph<P>, root: Vertex, v: Vertex, wp: seq<P>)
    returns (end: Vertex, broken: bool, r: seq<P>)
    requires MatchedChainFinite(g, root, v)
    ensures var t := MatchedWalk(g, root, v);
      end == t.end && broken == t.broken && r == t.prefix + wp
  {
    ghost var n: nat :| MatchedChainWithin(g, root, v, n);
    MatchedWalkIsFuel(g, root, v, n);
    ghost var t0 := MatchedWalkFuel(g, root, v, n);
    end, broken, r := v, false, wp;
    while end != root
      invariant MatchedChainWithin(g, root, end, n)
      invariant var t := MatchedWalkFuel(g, root, end, n);
        t0.end == t.end && t0.broken == t.broken && t0.prefix + wp == t.prefix + r
      decreases n
    {
      var edges := g.inEdges(end);
      var u := g.predecessor(end);
      var k := FindInEdgeFrom(edges, u);
      if k == |edges| {
        end, broken := u, true;
        break;
      }
      ghost var t := MatchedWalkFuel(g, root, u, n - 1);
      assert t.prefix + [g.position(u)] + edges[k].steerRecord + r == t.prefix + ([g.position(u)] + (edges[k].steerRecord + r));
      r := PrependSteerRecord(r, edges[k].steerRecord);
      end := u;
      r := [g.position(end)] + r;
      n := n - 1;
    }
  }

  /** The matched walk of a steerable optimal motion graph, putting waypoints behind. */
  method WalkMatchedEdgesForward<P>(g: MotionGraph<P>, root: Vertex, v: Vertex, wp: seq<P>)
    returns (end: Vertex, broken: bool, r: seq<P>)
    requires MatchedChainFinite(g, root, v)
    ensures var t := MatchedWalk(g, root, v);
      end == t.end && broken == t.broken && r == wp + Reversed(t.prefix)
  {
    ghost var n: nat :| MatchedChainWithin(g, root, v, n);
    MatchedWalkIsFuel(g, root, v, n);
    ghost var t0 := MatchedWalkFuel(g, root, v, n);
    end, broken, r := v, false, wp;
    while end != root
      invariant MatchedChainWithin(g, root, end, n)
      invariant var t := MatchedWalkFuel(g, root, end, n);
        t0.end == t.end && t0.broken == t.broken && wp + Reversed(t0.prefix) == r + Reversed(t.prefix)
      decreases n
    {
      var edges := g.inEdges(end);
      var u := g.predecessor(end);
      var k := FindInEdgeFrom(edges, u);
      if k == |edges| {
        end, broken := u, true;
        break;
      }
      ghost var t := MatchedWalkFuel(g, root, u, n - 1);
      ReversedStep(r, t.prefix, g.position(u), edges[k].steerRecord);
      r := AppendSteerRecordReversed(r, edges[k].steerRecord);
      end := u;
      r := r + [g.position(end)];
      n := n - 1;
    }
  }
}
