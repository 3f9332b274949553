/**
 * The eight solution registration routines: basic or optimal motion graph, single
 * tree or two joined trees, each in a steerable and a non-steerable overload. The
 * overload pair of one routine is one method here, branching on whether the space
 * is steerable.
 */
module Registration {
  import opened Wrappers
  import opened Costs
  import opened SolutionMaps
  import opened MotionGraphs
  import opened PathWalks

  /**
   * What the routines use of the free space: whether it is steerable, its distance
   * metric, and the steer record of steering from one point toward another.
   */
  datatype FreeSpace<!P> = FreeSpace(steerable: bool, dist: Metric<P>, steer: (P, P) -> seq<P>)

  /** A cost that would become the new best: the map is empty or its first key is larger. */
  predicate BeatsBest<P>(c: Cost, s: seq<Solution<P>>)
  {
    s == [] || Less(c, s[0].cost)
  }

  /**
   * The outcome of a registration: accepted, the path is returned and stored under
   * its cost in front of every old entry; rejected, nothing is returned or stored.
   */
  ghost predicate Outcome<P>(r: Option<seq<P>>, before: seq<Solution<P>>, after: seq<Solution<P>>,
                             accepted: bool, cost: Cost, path: seq<P>)
  {
    (accepted ==> r == Some(path) && after == [Solution(cost, path)] + before)
    && (!accepted ==> r == None && after == before)
  }

  /** The waypoints after the goal vertex's position: none, unless the goal is at a positive distance. */
  function GoalTail<P>(space: FreeSpace<P>, from: P, goalPos: P, goalDistance: Cost): seq<P>
  {
    if !Positive(goalDistance) then []
    else if space.steerable then space.steer(from, goalPos) + [goalPos]
    else [goalPos]
  }

  /** The waypoints between the two joining vertices: the joining steer record, in steerable spaces. */
  function JoinLink<P>(space: FreeSpace<P>, p1: P, p2: P, joiningDistance: Cost): seq<P>
  {
    if space.steerable && Positive(joiningDistance) then space.steer(p1, p2) else []
  }

  /**
   * The metric the walk of the goal's tree charges: the steerable overload measures
   * from the edge's source to its target like every other walk, the non-steerable
   * one measures from the target to the source.
   */
  function GoalTreeMetric<P>(space: FreeSpace<P>): Metric<P>
  {
    if space.steerable then space.dist else Flip(space.dist)
  }

  /** The optimal walk of a single tree or of one tree of a joined pair terminates. */
  ghost predicate OptimalChainFinite<P>(space: FreeSpace<P>, g: MotionGraph<P>, root: Vertex, v: Vertex)
  {
    if space.steerable then MatchedChainFinite(g, root, v) else PredChainFinite(g, root, v)
  }

  /** The optimal walk reached its root (a predecessor walk always does). */
  ghost predicate OptimalWalkComplete<P>(space: FreeSpace<P>, g: MotionGraph<P>, root: Vertex, v: Vertex)
    requires OptimalChainFinite(space, g, root, v)
  {
    space.steerable ==> !MatchedWalk(g, root, v).broken && MatchedWalk(g, root, v).end == root
  }

  /** The waypoints the optimal walk puts before `v`'s position. */
  ghost function OptimalPrefix<P>(space: FreeSpace<P>, g: MotionGraph<P>, root: Vertex, v: Vertex): seq<P>
    requires OptimalChainFinite(space, g, root, v)
  {
    if space.steerable then MatchedWalk(g, root, v).prefix else PredPrefix(g, root, v)
  }

  // ---------------------------------------------------------------------------
  // Single tree, basic motion graph.
  // ---------------------------------------------------------------------------

  ghost function BasicSolutionCost<P>(space: FreeSpace<P>, g: MotionGraph<P>, startNode: Vertex, goalNode: Vertex, goalDistance: Cost): Cost
    requires InEdgeChainFinite(g, startNode, goalNode)
  {
    Add(goalDistance, InEdgeWalk(g, startNode, goalNode, space.steerable, space.dist).length)
  }

  ghost function BasicSolutionPath<P>(space: FreeSpace<P>, g: MotionGraph<P>, startNode: Vertex, goalNode: Vertex, goalPos: P, goalDistance: Cost): seq<P>
    requires InEdgeChainFinite(g, startNode, goalNode)
  {
    InEdgeWalk(g, startNode, goalNode, space.steerable, space.dist).prefix
      + [g.position(goalNode)] + GoalTail(space, g.position(goalNode), goalPos, goalDistance)
  }

  /**
   * `register_basic_solution_path_impl` on one tree: walks first in-edges from the
   * goal vertex, charging `goalDistance` plus each walked edge's metric length, and
   * stores the path when the walk ended at the start vertex with a cost below the best.
   */
  method RegisterBasicSolutionPath<P>(space: FreeSpace<P>, g: MotionGraph<P>, startNode: Vertex, goalNode: Vertex,
                                      goalPos: P, goalDistance: Cost, solutions: SolutionMap<P>)
    returns (r: Option<seq<P>>)
    requires solutions.Valid()
    requires InEdgeChainFinite(g, startNode, goalNode)
    modifies solutions
    ensures solutions.Valid()
    ensures var cost := BasicSolutionCost(space, g, startNode, goalNode, goalDistance);
      Outcome(r, old(solutions.entries), solutions.entries,
              InEdgeWalk(g, startNode, goalNode, space.steerable, space.dist).end == startNode
              && BeatsBest(cost, old(solutions.entries)),
              cost, BasicSolutionPath(space, g, startNode, goalNode, goalPos, goalDistance))
  {
    var wp: seq<P> := [];
    if Positive(goalDistance) {
      if space.steerable {
        var rec := space.steer(g.position(goalNode), goalPos);
        wp := [goalPos] + wp;
        wp := PrependSteerRecord(wp, rec);
      } else {
        wp := [goalPos] + wp;
      }
    }
    wp := [g.position(goalNode)] + wp;
    var end, path, total := WalkInEdgesBackward(g, startNode, goalNode, space.steerable, space.dist, wp, goalDistance);
    ghost var w := InEdgeWalk(g, startNode, goalNode, space.steerable, space.dist);
    assert path == BasicSolutionPath(space, g, startNode, goalNode, goalPos, goalDistance) by {
      assert path == w.prefix + ([g.position(goalNode)] + GoalTail(space, g.position(goalNode), goalPos, goalDistance));
    }
    if end == startNode && BeatsBest(total, solutions.entries) {
      PutBelowBest(solutions.entries, total, path);
      solutions.Put(total, path);
      r := Some(path);
    } else {
      r := None;
    }
  }

  // ---------------------------------------------------------------------------
  // Single tree, optimal motion graph.
  // ---------------------------------------------------------------------------

  function OptimalSolutionCost<P>(g: MotionGraph<P>, goalNode: Vertex, goalDistance: Cost): Cost
  {
    Add(g.distanceAccum(goalNode), goalDistance)
  }

  ghost function OptimalSolutionPath<P>(space: FreeSpace<P>, g: MotionGraph<P>, startNode: Vertex, goalNode: Vertex, goalPos: P, goalDistance: Cost): seq<P>
    requires OptimalChainFinite(space, g, startNode, goalNode)
  {
    OptimalPrefix(space, g, startNode, goalNode)
      + [g.position(goalNode)] + GoalTail(space, g.position(goalNode), goalPos, goalDistance)
  }

  /**
   * `register_optimal_solution_path_impl` on one tree: prices the candidate by the
   * goal vertex's accumulated distance plus `goalDistance` before walking; a cost
   * that is infinite or not below the best is rejected at once. Otherwise it walks
   * the predecessors (non-steerable) or the in-edges from the predecessors
   * (steerable) and stores the path when the walk reached the start vertex.
   */
  method RegisterOptimalSolutionPath<P>(space: FreeSpace<P>, g: MotionGraph<P>, startNode: Vertex, goalNode: Vertex,
                                        goalPos: P, goalDistance: Cost, solutions: SolutionMap<P>)
    returns (r: Option<seq<P>>)
    requires solutions.Valid()
    requires IsFinite(OptimalSolutionCost(g, goalNode, goalDistance))
             && BeatsBest(OptimalSolutionCost(g, goalNode, goalDistance), solutions.entries)
             ==> OptimalChainFinite(space, g, startNode, goalNode)
    modifies solutions
    ensures solutions.Valid()
    ensures var cost := OptimalSolutionCost(g, goalNode, goalDistance);
      !(IsFinite(cost) && BeatsBest(cost, old(solutions.entries))) ==> r == None && solutions.entries == old(solutions.entries)
    ensures var cost := OptimalSolutionCost(g, goalNode, goalDistance);
      IsFinite(cost) && BeatsBest(cost, old(solutions.entries)) ==>
        Outcome(r, old(solutions.entries), solutions.entries,
                OptimalWalkComplete(space, g, startNode, goalNode),
                cost, OptimalSolutionPath(space, g, startNode, goalNode, goalPos, goalDistance))
  {
    var total := OptimalSolutionCost(g, goalNode, goalDistance);
    if !IsFinite(total) || !BeatsBest(total, solutions.entries) {
      return None;
    }
    var wp: seq<P> := [];
    if Positive(goalDistance) {
      if space.steerable {
        var rec := space.steer(g.position(goalNode), goalPos);
        wp := [goalPos] + wp;
        wp := PrependSteerRecord(wp, rec);
      } else {
        wp := [goalPos] + wp;
      }
    }
    wp := [g.position(goalNode)] + wp;
    ghost var tail := GoalTail(space, g.position(goalNode), goalPos, goalDistance);
    assert wp == [g.position(goalNode)] + tail;
    PutBelowBest(solutions.entries, total, OptimalSolutionPath(space, g, startNode, goalNode, goalPos, goalDistance));
    if space.steerable {
      var end, broken, path := WalkMatchedEdgesBackward(g, startNode, goalNode, wp);
      MatchedWalkShape(g, startNode, goalNode);
      assert path == MatchedWalk(g, startNode, goalNode).prefix + [g.position(goalNode)] + tail;
      if end == startNode && !broken {
        solutions.Put(total, path);
        r := Some(path);
      } else {
        r := None;
      }
    } else {
      var path := WalkPredecessorsBackward(g, startNode, goalNode, wp);
      assert path == PredPrefix(g, startNode, goalNode) + [g.position(goalNode)] + tail;
      solutions.Put(total, path);
      r := Some(path);
    }
  }

  // ---------------------------------------------------------------------------
  // Two joined trees, basic motion graphs.
  // ---------------------------------------------------------------------------

  ghost function BasicJoinedCost<P>(space: FreeSpace<P>, g1: MotionGraph<P>, g2: MotionGraph<P>, startNode: Vertex, goalNode: Vertex,
                                    join1Node: Vertex, join2Node: Vertex, joiningDistance: Cost): Cost
    requires InEdgeChainFinite(g1, startNode, join1Node) && InEdgeChainFinite(g2, goalNode, join2Node)
  {
    Add(Add(joiningDistance, InEdgeWalk(g1, startNode, join1Node, space.steerable, space.dist).length),
        InEdgeWalk(g2, goalNode, join2Node, space.steerable, GoalTreeMetric(space)).length)
  }

  ghost function BasicJoinedPath<P>(space: FreeSpace<P>, g1: MotionGraph<P>, g2: MotionGraph<P>, startNode: Vertex, goalNode: Vertex,
                                    join1Node: Vertex, join2Node: Vertex, joiningDistance: Cost): seq<P>
    requires InEdgeChainFinite(g1, startNode, join1Node) && InEdgeChainFinite(g2, goalNode, join2Node)
  {
    InEdgeWalk(g1, startNode, join1Node, space.steerable, space.dist).prefix
      + [g1.position(join1Node)]
      + JoinLink(space, g1.position(join1Node), g2.position(join2Node), joiningDistance)
      + [g2.position(join2Node)]
      + Reversed(InEdgeWalk(g2, goalNode, join2Node, space.steerable, GoalTreeMetric(space)).prefix)
  }

  /**
   * `register_basic_solution_path_impl` on two joined trees: walks the start's tree
   * from the first joining vertex (waypoints in front) and the goal's tree from the
   * second (waypoints behind), charging `joiningDistance` plus every walked edge,
   * and stores the path when both walks reached their roots with a cost below the best.
   */
  method RegisterBasicJoinedPath<P>(space: FreeSpace<P>, g1: MotionGraph<P>, g2: MotionGraph<P>,
                                    startNode: Vertex, goalNode: Vertex, join1Node: Vertex, join2Node: Vertex,
                                    joiningDistance: Cost, solutions: SolutionMap<P>)
    returns (r: Option<seq<P>>)
    requires solutions.Valid()
    requires InEdgeChainFinite(g1, startNode, join1Node) && InEdgeChainFinite(g2, goalNode, join2Node)
    modifies solutions
    ensures solutions.Valid()
    ensures var cost := BasicJoinedCost(space, g1, g2, startNode, goalNode, join1Node, join2Node, joiningDistance);
      Outcome(r, old(solutions.entries), solutions.entries,
              InEdgeWalk(g1, startNode, join1Node, space.steerable, space.dist).end == startNode
              && InEdgeWalk(g2, goalNode, join2Node, space.steerable, GoalTreeMetric(space)).end == goalNode
              && BeatsBest(cost, old(solutions.entries)),
              cost, BasicJoinedPath(space, g1, g2, startNode, goalNode, join1Node, join2Node, joiningDistance))
  {
    var end1, end2, wp, total := WalkBasicJoinedTrees(space, g1, g2, startNode, goalNode, join1Node, join2Node, joiningDistance);
    if end1 == startNode && end2 == goalNode && BeatsBest(total, solutions.entries) {
      PutBelowBest(solutions.entries, total, wp);
      solutions.Put(total, wp);
      r := Some(wp);
    } else {
      r := None;
    }
  }

  /**
   * The walks of the basic joined registration: the start's tree from the first
   * joining vertex with waypoints put in front, then the goal's tree from the second
   * with waypoints put behind, charging every walked edge.
   */
  method WalkBasicJoinedTrees<P>(space: FreeSpace<P>, g1: MotionGraph<P>, g2: MotionGraph<P>,
                                 startNode: Vertex, goalNode: Vertex, join1Node: Vertex, join2Node: Vertex,
                                 joiningDistance: Cost)
    returns (end1: Vertex, end2: Vertex, wp: seq<P>, total: Cost)
    requires InEdgeChainFinite(g1, startNode, join1Node) && InEdgeChainFinite(g2, goalNode, join2Node)
    ensures end1 == InEdgeWalk(g1, startNode, join1Node, space.steerable, space.dist).end
    ensures end2 == InEdgeWalk(g2, goalNode, join2Node, space.steerable, GoalTreeMetric(space)).end
    ensures wp == BasicJoinedPath(space, g1, g2, startNode, goalNode, join1Node, join2Node, joiningDistance)
    ensures total == BasicJoinedCost(space, g1, g2, startNode, goalNode, join1Node, join2Node, joiningDistance)
  {
    wp := [];
    if space.steerable && Positive(joiningDistance) {
      var rec := space.steer(g1.position(join1Node), g2.position(join2Node));
      wp := PrependSteerRecord(wp, rec);
    }
    wp := [g1.position(join1Node)] + wp;
    ghost var link := JoinLink(space, g1.position(join1Node), g2.position(join2Node), joiningDistance);
    assert wp == [g1.position(join1Node)] + link;
    end1, wp, total := WalkInEdgesBackward(g1, startNode, join1Node, space.steerable, space.dist, wp, joiningDistance);
    wp := wp + [g2.position(join2Node)];
    end2, wp, total := WalkInEdgesForward(g2, goalNode, join2Node, space.steerable, GoalTreeMetric(space), wp, total);
    assert wp == BasicJoinedPath(space, g1, g2, startNode, goalNode, join1Node, join2Node, joiningDistance) by {
      var w1 := InEdgeWalk(g1, startNode, join1Node, space.steerable, space.dist);
      var w2 := InEdgeWalk(g2, goalNode, join2Node, space.steerable, GoalTreeMetric(space));
      assert wp == w1.prefix + ([g1.position(join1Node)] + link) + [g2.position(join2Node)] + Reversed(w2.prefix);
    }
  }

  // ---------------------------------------------------------------------------
  // Two joined trees, optimal motion graphs.
  // ---------------------------------------------------------------------------

  function OptimalJoinedCost<P>(g1: MotionGraph<P>, g2: MotionGraph<P>, join1Node: Vertex, join2Node: Vertex, joiningDistance: Cost): Cost
  {
    Add(Add(g1.distanceAccum(join1Node), g2.distanceAccum(join2Node)), joiningDistance)
  }

  ghost function OptimalJoinedPath<P>(space: FreeSpace<P>, g1: MotionGraph<P>, g2: MotionGraph<P>, startNode: Vertex, goalNode: Vertex,
                                      join1Node: Vertex, join2Node: Vertex, joiningDistance: Cost): seq<P>
    requires OptimalChainFinite(space, g1, startNode, join1Node) && OptimalChainFinite(space, g2, goalNode, join2Node)
  {
    OptimalPrefix(space, g1, startNode, join1Node)
      + [g1.position(join1Node)]
      + JoinLink(space, g1.position(join1Node), g2.position(join2Node), joiningDistance)
      + [g2.position(join2Node)]
      + Reversed(OptimalPrefix(space, g2, goalNode, join2Node))
  }

  /**
   * `register_optimal_solution_path_impl` on two joined trees: prices the candidate
   * by both joining vertices' accumulated distances plus `joiningDistance` before
   * walking, rejecting an infinite cost or one not below the best; otherwise walks
   * both trees and stores the path when both walks reached their roots.
   */
  method RegisterOptimalJoinedPath<P>(space: FreeSpace<P>, g1: MotionGraph<P>, g2: MotionGraph<P>,
                                      startNode: Vertex, goalNode: Vertex, join1Node: Vertex, join2Node: Vertex,
                                      joiningDistance: Cost, solutions: SolutionMap<P>)
    returns (r: Option<seq<P>>)
    requires solutions.Valid()
    requires IsFinite(OptimalJoinedCost(g1, g2, join1Node, join2Node, joiningDistance))
             && BeatsBest(OptimalJoinedCost(g1, g2, join1Node, join2Node, joiningDistance), solutions.entries)
             ==> OptimalChainFinite(space, g1, startNode, join1Node) && OptimalChainFinite(space, g2, goalNode, join2Node)
    modifies solutions
    ensures solutions.Valid()
    ensures var cost := OptimalJoinedCost(g1, g2, join1Node, join2Node, joiningDistance);
      !(IsFinite(cost) && BeatsBest(cost, old(solutions.entries))) ==> r == None && solutions.entries == old(solutions.entries)
    ensures var cost := OptimalJoinedCost(g1, g2, join1Node, join2Node, joiningDistance);
      IsFinite(cost) && BeatsBest(cost, old(solutions.entries)) ==>
        Outcome(r, old(solutions.entries), solutions.entries,
                OptimalWalkComplete(space, g1, startNode, join1Node) && OptimalWalkComplete(space, g2, goalNode, join2Node),
                cost, OptimalJoinedPath(space, g1, g2, startNode, goalNode, join1Node, join2Node, joiningDistance))
  {
    var total := OptimalJoinedCost(g1, g2, join1Node, join2Node, joiningDistance);
    if !IsFinite(total) || !BeatsBest(total, solutions.entries) {
      return None;
    }
    var complete, path := WalkOptimalJoinedTrees(space, g1, g2, startNode, goalNode, join1Node, join2Node, joiningDistance);
    if complete {
      PutBelowBest(solutions.entries, total, path);
      solutions.Put(total, path);
      r := Some(path);
    } else {
      r := None;
    }
  }

  /**
   * The walks of the optimal joined registration: the start's tree from the first
   * joining vertex with waypoints put in front, then the goal's tree from the second
   * with waypoints put behind.
   */
  method WalkOptimalJoinedTrees<P>(space: FreeSpace<P>, g1: MotionGraph<P>, g2: MotionGraph<P>,
                                   startNode: Vertex, goalNode: Vertex, join1Node: Vertex, join2Node: Vertex,
                                   joiningDistance: Cost)
    returns (complete: bool, wp: seq<P>)
    requires OptimalChainFinite(space, g1, startNode, join1Node) && OptimalChainFinite(space, g2, goalNode, join2Node)
    ensures complete == (OptimalWalkComplete(space, g1, startNode, join1Node) && OptimalWalkComplete(space, g2, goalNode, join2Node))
    ensures wp == OptimalJoinedPath(space, g1, g2, startNode, goalNode, join1Node, join2Node, joiningDistance)
  {
    wp := [];
    if space.steerable && Positive(joiningDistance) {
      var rec := space.steer(g1.position(join1Node), g2.position(join2Node));
      wp := PrependSteerRecord(wp, rec);
    }
    wp := [g1.position(join1Node)] + wp;
    ghost var link := JoinLink(space, g1.position(join1Node), g2.position(join2Node), joiningDistance);
    assert wp == [g1.position(join1Node)] + link;
    if space.steerable {
      var end1, broken1, end2, broken2;
      end1, broken1, wp := WalkMatchedEdgesBackward(g1, startNode, join1Node, wp);
      wp := wp + [g2.position(join2Node)];
      end2, broken2, wp := WalkMatchedEdgesForward(g2, goalNode, join2Node, wp);
      assert wp == OptimalJoinedPath(space, g1, g2, startNode, goalNode, join1Node, join2Node, joiningDistance) by {
        assert wp == MatchedWalk(g1, startNode, join1Node).prefix + ([g1.position(join1Node)] + link)
          + [g2.position(join2Node)] + Reversed(MatchedWalk(g2, goalNode, join2Node).prefix);
      }
      MatchedWalkShape(g1, startNode, join1Node);
      MatchedWalkShape(g2, goalNode, join2Node);
      complete := end1 == startNode && !broken1 && end2 == goalNode && !broken2;
    } else {
      wp := WalkPredecessorsBackward(g1, startNode, join1Node, wp);
      wp := wp + [g2.position(join2Node)];
      wp := WalkPredecessorsForward(g2, goalNode, join2Node, wp);
      assert wp == OptimalJoinedPath(space, g1, g2, startNode, goalNode, join1Node, join2Node, joiningDistance) by {
        assert wp == PredPrefix(g1, startNode, join1Node) + ([g1.position(join1Node)] + link)
          + [g2.position(join2Node)] + Reversed(PredPrefix(g2, goalNode, join2Node));
      }
      complete := true;
    }
  }

  // ---------------------------------------------------------------------------
  // Properties of the registrations.
  // ---------------------------------------------------------------------------

  /**
   * Every registration keeps the map ordered, never evicts an entry, grows it by
   * exactly one entry when it accepts, and never raises the best cost.
   */
  lemma RegistrationLowersBest<P>(r: Option<seq<P>>, before: seq<Solution<P>>, after: seq<Solution<P>>,
                                  accepted: bool, cost: Cost, path: seq<P>)
    requires StrictlyIncreasing(before)
    requires Outcome(r, before, after, accepted, cost, path)
    requires accepted ==> BeatsBest(cost, before)
    ensures StrictlyIncreasing(after)
    ensures forall e :: e in before ==> e in after
    ensures |after| == |before| + (if r.Some? then 1 else 0)
    ensures BestCost(after) == BestCost(before) || Less(BestCost(after), BestCost(before))
    ensures r.Some? ==> BestCost(after) == cost
  {
    if accepted {
      PutBelowBest(before, cost, path);
      if before != [] {
        assert before[0] in before;
      }
    }
  }

  /**
   * Without steering, an accepted basic path is the start's position, the positions
   * of the vertices walked in tree order, the goal vertex's position, and the goal
   * position when the goal was at a positive distance.
   */
  lemma BasicSolutionPathOrder<P>(space: FreeSpace<P>, g: MotionGraph<P>, startNode: Vertex, goalNode: Vertex, goalPos: P, goalDistance: Cost)
    requires !space.steerable
    requires InEdgeChainFinite(g, startNode, goalNode)
    requires InEdgeWalk(g, startNode, goalNode, false, space.dist).end == startNode
    ensures var path := BasicSolutionPath(space, g, startNode, goalNode, goalPos, goalDistance);
      var k := |InEdgeWalk(g, startNode, goalNode, false, space.dist).prefix|;
      |path| == k + 1 + (if Positive(goalDistance) then 1 else 0)
      && path[0] == g.position(startNode)
      && (forall i :: 0 <= i <= k ==> path[i] == g.position(InEdgeAncestor(g, startNode, goalNode, k - i)))
      && (Positive(goalDistance) ==> path[k + 1] == goalPos)
  {
    InEdgeWalkShape(g, startNode, goalNode, false, space.dist);
    var w := InEdgeWalk(g, startNode, goalNode, false, space.dist);
    var path := BasicSolutionPath(space, g, startNode, goalNode, goalPos, goalDistance);
    var k := |w.prefix|;
    forall i | 0 <= i <= k
      ensures path[i] == g.position(InEdgeAncestor(g, startNode, goalNode, k - i))
    {
      if i < k {
        assert path[i] == w.prefix[i];
      }
    }
  }

  /**
   * Without steering, an optimal path is the start's position, the positions of the
   * goal vertex's predecessors in tree order, the goal vertex's position, and the
   * goal position when the goal was at a positive distance.
   */
  lemma OptimalSolutionPathOrder<P>(space: FreeSpace<P>, g: MotionGraph<P>, startNode: Vertex, goalNode: Vertex, goalPos: P, goalDistance: Cost)
    requires !space.steerable
    requires PredChainFinite(g, startNode, goalNode)
    ensures var path := OptimalSolutionPath(space, g, startNode, goalNode, goalPos, goalDistance);
      var k := |PredPrefix(g, startNode, goalNode)|;
      |path| == k + 1 + (if Positive(goalDistance) then 1 else 0)
      && path[0] == g.position(startNode)
      && (forall i :: 0 <= i <= k ==> path[i] == g.position(Ancestor(g, goalNode, k - i)))
      && (Positive(goalDistance) ==> path[k + 1] == goalPos)
  {
    PredPrefixShape(g, startNode, goalNode);
    var p := PredPrefix(g, startNode, goalNode);
    var path := OptimalSolutionPath(space, g, startNode, goalNode, goalPos, goalDistance);
    var k := |p|;
    forall i | 0 <= i <= k
      ensures path[i] == g.position(Ancestor(g, goalNode, k - i))
    {
      if i < k {
        assert path[i] == p[i];
      }
    }
  }

  /**
   * Without steering, an optimal joined path runs from the start's position to the
   * first joining vertex's, then from the second joining vertex's to the goal's.
   */
  lemma OptimalJoinedPathOrder<P>(space: FreeSpace<P>, g1: MotionGraph<P>, g2: MotionGraph<P>, startNode: Vertex, goalNode: Vertex,
                                  join1Node: Vertex, join2Node: Vertex, joiningDistance: Cost)
    requires !space.steerable
    requires PredChainFinite(g1, startNode, join1Node) && PredChainFinite(g2, goalNode, join2Node)
    ensures var path := OptimalJoinedPath(space, g1, g2, startNode, goalNode, join1Node, join2Node, joiningDistance);
      var k1 := |PredPrefix(g1, startNode, join1Node)|;
      var k2 := |PredPrefix(g2, goalNode, join2Node)|;
      |path| == k1 + k2 + 2
      && (forall i :: 0 <= i <= k1 ==> path[i] == g1.position(Ancestor(g1, join1Node, k1 - i)))
      && (forall i :: 0 <= i <= k2 ==> path[k1 + 1 + i] == g2.position(Ancestor(g2, join2Node, i)))
      && path[0] == g1.position(startNode)
      && path[|path| - 1] == g2.position(goalNode)
  {
    PredPrefixShape(g1, startNode, join1Node);
    PredPrefixShape(g2, goalNode, join2Node);
    var p1 := PredPrefix(g1, startNode, join1Node);
    var p2 := PredPrefix(g2, goalNode, join2Node);
    var path := OptimalJoinedPath(space, g1, g2, startNode, goalNode, join1Node, join2Node, joiningDistance);
    var k1, k2 := |p1|, |p2|;
    assert path == p1 + [g1.position(join1Node)] + [g2.position(join2Node)] + Reversed(p2);
    forall i | 0 <= i <= k1
      ensures path[i] == g1.position(Ancestor(g1, join1Node, k1 - i))
    {
      if i < k1 {
        assert path[i] == p1[i];
      }
    }
    forall i | 0 <= i <= k2
      ensures path[k1 + 1 + i] == g2.position(Ancestor(g2, join2Node, i))
    {
      if 0 < i {
        ReversedIndex(p2, i - 1);
        assert path[k1 + 1 + i] == Reversed(p2)[i - 1];
      }
    }
  }

  lemma {:induction false} ReversedIndex<T>(s: seq<T>, i: nat)
    requires i < |s|
    ensures Reversed(s)[i] == s[|s| - 1 - i]
    decreases |s|
  {
    if i < |s| - 1 {
      ReversedIndex(s[1..], i);
    }
  }

  /**
   * With steering, a path the optimal routine accepts starts at the start vertex's
   * position and holds the goal vertex's position right after the walked waypoints.
   */
  lemma OptimalSteeredPathStartsAtStart<P>(space: FreeSpace<P>, g: MotionGraph<P>, startNode: Vertex, goalNode: Vertex, goalPos: P, goalDistance: Cost)
    requires space.steerable
    requires MatchedChainFinite(g, startNode, goalNode)
    requires OptimalWalkComplete(space, g, startNode, goalNode)
    ensures var path := OptimalSolutionPath(space, g, startNode, goalNode, goalPos, goalDistance);
      path[0] == g.position(startNode)
      && path[|MatchedWalk(g, startNode, goalNode).prefix|] == g.position(goalNode)
  {
    MatchedWalkShape(g, startNode, goalNode);
  }

  /**
   * The acceptance test of the steerable optimal routines as written: only that the
   * walk's last vertex is the root.
   */
  ghost predicate AsWrittenMatchedAcceptance<P>(g: MotionGraph<P>, root: Vertex, v: Vertex)
    requires MatchedChainFinite(g, root, v)
  {
    MatchedWalk(g, root, v).end == root
  }

  /**
   * As written, a walk cut short at a vertex whose predecessor is the start passes
   * the test and a path without the start's position is stored; the corrected test
   * rejects it.
   */
  lemma AsWrittenAcceptsPartialPath()
    ensures var g := MotionGraph((v: Vertex) => v as int, (v: Vertex) => [], (v: Vertex) => 0, (v: Vertex) => Zero);
      var space := FreeSpace(true, (a: int, b: int) => Zero, (a: int, b: int) => []);
      MatchedChainFinite(g, 0, 1)
      && AsWrittenMatchedAcceptance(g, 0, 1)
      && !OptimalWalkComplete(space, g, 0, 1)
      && OptimalSolutionPath(space, g, 0, 1, 7, Zero) == [1]
  {
    BrokenWalkCanEndAtRoot();
  }

  /**
   * The joined routine's test as written, only that both walks ended at their roots,
   * accepts the same cut-short walk in the start's tree: the path stored there does
   * not begin at the start's position, and the corrected test rejects it.
   */
  lemma AsWrittenJoinedAcceptsPartialPath()
    ensures var g := MotionGraph((v: Vertex) => v as int, (v: Vertex) => [], (v: Vertex) => 0, (v: Vertex) => Zero);
      var space := FreeSpace(true, (a: int, b: int) => Zero, (a: int, b: int) => []);
      MatchedChainFinite(g, 0, 1) && MatchedChainFinite(g, 5, 5)
      && AsWrittenMatchedAcceptance(g, 0, 1) && AsWrittenMatchedAcceptance(g, 5, 5)
      && !(OptimalWalkComplete(space, g, 0, 1) && OptimalWalkComplete(space, g, 5, 5))
      && OptimalJoinedPath(space, g, g, 0, 5, 1, 5, Zero) == [1, 5]
      && g.position(0) !in OptimalJoinedPath(space, g, g, 0, 5, 1, 5, Zero)
  {
    var g := MotionGraph((v: Vertex) => v as int, (v: Vertex) => [], (v: Vertex) => 0, (v: Vertex) => Zero);
    BrokenWalkCanEndAtRoot();
    assert MatchedChainWithin(g, 5, 5, 0);
    MatchedWalkIsFuel(g, 5, 5, 0);
  }
}
