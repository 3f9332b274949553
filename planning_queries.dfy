/**
 * The point-to-point planning query a planner reports its solutions to: it keeps
 * the solution records ordered by cost and forwards each candidate to the
 * registration routine that matches the motion graph.
 */
module PlanningQueries {
  import opened Wrappers
  import opened Costs
  import opened SolutionMaps
  import opened MotionGraphs
  import opened Registration

  /** The base query's best solution distance: it records no solutions, so always +infinity. */
  function BaseBestSolutionDistance(): (d: Cost)
    ensures !IsFinite(d)
  {
    Inf
  }

  /** The base query's `keep_going`: always keep going. */
  function BaseKeepGoing(): (b: bool)
    ensures b
  {
    true
  }

  /**
   * A registration's effect on the records: a rejected candidate leaves them as
   * they were; an accepted one is put in front of all of them, below the old best.
   */
  ghost predicate RecordsGrowByBest<P>(r: Option<seq<P>>, before: seq<Solution<P>>, after: seq<Solution<P>>)
  {
    (r.None? ==> after == before)
    && (r.Some? ==> after != [] && after[0].path == r.value && after[1..] == before && BeatsBest(after[0].cost, before))
  }

  /** `path_planning_p2p_query`. */
  class P2PQuery<P> {
    const space: FreeSpace<P>
    var startPos: P
    var goalPos: P
    var maxNumResults: nat
    const solutions: SolutionMap<P>

    ghost predicate Valid()
      reads this, solutions
    {
      solutions.Valid()
    }

    constructor (space: FreeSpace<P>, startPos: P, goalPos: P, maxNumResults: nat)
      ensures Valid() && fresh(solutions) && solutions.entries == []
      ensures this.space == space && this.startPos == startPos && this.goalPos == goalPos
      ensures this.maxNumResults == maxNumResults
    {
      this.space := space;
      this.startPos := startPos;
      this.goalPos := goalPos;
      this.maxNumResults := maxNumResults;
      solutions := new SolutionMap();
    }

    /** `get_best_solution_distance`: +infinity with no solution, otherwise the smallest stored cost. */
    function GetBestSolutionDistance(): (d: Cost)
      requires Valid()
      reads this, solutions
      ensures solutions.entries == [] ==> d == Inf
      ensures solutions.entries != [] ==> exists i :: 0 <= i < |solutions.entries| && solutions.entries[i].cost == d
      ensures forall i :: 0 <= i < |solutions.entries| ==> d == solutions.entries[i].cost || Less(d, solutions.entries[i].cost)
    {
      var s := solutions.entries;
      assert forall i :: 0 <= i < |s| ==> s[i] in s;
      BestCost(s)
    }

    /** `keep_going`: fewer solutions than wanted are stored. */
    function KeepGoing(): (b: bool)
      reads this, solutions
      ensures b <==> |solutions.entries| < maxNumResults
    {
      maxNumResults > |solutions.entries|
    }

    /** `get_start_position`. */
    function GetStartPosition(): (p: P)
      reads this
      ensures p == startPos
    {
      startPos
    }

    /** `reset_solution_records`: the records are emptied, so the best distance is +infinity again. */
    method ResetSolutionRecords()
      requires Valid()
      modifies solutions
      ensures Valid() && solutions.entries == []
      ensures GetBestSolutionDistance() == Inf
      ensures KeepGoing() <==> maxNumResults > 0
    {
      solutions.Clear();
    }

    /** `register_solution_from_basic_mg`. */
    method RegisterSolutionFromBasicMg(startNode: Vertex, goalNode: Vertex, goalDistance: Cost, g: MotionGraph<P>)
      returns (r: Option<seq<P>>)
      requires Valid()
      requires InEdgeChainFinite(g, startNode, goalNode)
      modifies solutions
      ensures Valid()
      ensures var cost := BasicSolutionCost(space, g, startNode, goalNode, goalDistance);
        Outcome(r, old(solutions.entries), solutions.entries,
                InEdgeWalk(g, startNode, goalNode, space.steerable, space.dist).end == startNode
                && BeatsBest(cost, old(solutions.entries)),
                cost, BasicSolutionPath(space, g, startNode, goalNode, goalPos, goalDistance))
      ensures RecordsGrowByBest(r, old(solutions.entries), solutions.entries)
      ensures GetBestSolutionDistance() == old(GetBestSolutionDistance())
              || Less(GetBestSolutionDistance(), old(GetBestSolutionDistance()))
    {
      ghost var before := solutions.entries;
      r := RegisterBasicSolutionPath(space, g, startNode, goalNode, goalPos, goalDistance, solutions);
      ghost var cost := BasicSolutionCost(space, g, startNode, goalNode, goalDistance);
      RegistrationLowersBest(r, before, solutions.entries,
                             InEdgeWalk(g, startNode, goalNode, space.steerable, space.dist).end == startNode
                             && BeatsBest(cost, before),
                             cost, BasicSolutionPath(space, g, startNode, goalNode, goalPos, goalDistance));
    }

    /** `register_solution_from_optimal_mg`. */
    method RegisterSolutionFromOptimalMg(startNode: Vertex, goalNode: Vertex, goalDistance: Cost, g: MotionGraph<P>)
      returns (r: Option<seq<P>>)
      requires Valid()
      requires IsFinite(OptimalSolutionCost(g, goalNode, goalDistance))
               && BeatsBest(OptimalSolutionCost(g, goalNode, goalDistance), solutions.entries)
               ==> OptimalChainFinite(space, g, startNode, goalNode)
      modifies solutions
      ensures Valid()
      ensures var cost := OptimalSolutionCost(g, goalNode, goalDistance);
        !(IsFinite(cost) && BeatsBest(cost, old(solutions.entries))) ==> r == None && solutions.entries == old(solutions.entries)
      ensures var cost := OptimalSolutionCost(g, goalNode, goalDistance);
        IsFinite(cost) && BeatsBest(cost, old(solutions.entries)) ==>
          Outcome(r, old(solutions.entries), solutions.entries,
                  OptimalWalkComplete(space, g, startNode, goalNode),
                  cost, OptimalSolutionPath(space, g, startNode, goalNode, goalPos, goalDistance))
      ensures RecordsGrowByBest(r, old(solutions.entries), solutions.entries)
      ensures GetBestSolutionDistance() == old(GetBestSolutionDistance())
              || Less(GetBestSolutionDistance(), old(GetBestSolutionDistance()))
    {
      ghost var before := solutions.entries;
      r := RegisterOptimalSolutionPath(space, g, startNode, goalNode, goalPos, goalDistance, solutions);
      ghost var cost := OptimalSolutionCost(g, goalNode, goalDistance);
      if IsFinite(cost) && BeatsBest(cost, before) {
        RegistrationLowersBest(r, before, solutions.entries, OptimalWalkComplete(space, g, startNode, goalNode),
                               cost, OptimalSolutionPath(space, g, startNode, goalNode, goalPos, goalDistance));
      }
    }

    /** `register_joining_point_from_basic_mg`. */
    method RegisterJoiningPointFromBasicMg(startNode: Vertex, goalNode: Vertex, join1Node: Vertex, join2Node: Vertex,
                                           joiningDistance: Cost, g1: MotionGraph<P>, g2: MotionGraph<P>)
      returns (r: Option<seq<P>>)
      requires Valid()
      requires InEdgeChainFinite(g1, startNode, join1Node) && InEdgeChainFinite(g2, goalNode, join2Node)
      modifies solutions
      ensures Valid()
      ensures var cost := BasicJoinedCost(space, g1, g2, startNode, goalNode, join1Node, join2Node, joiningDistance);
        Outcome(r, old(solutions.entries), solutions.entries,
                InEdgeWalk(g1, startNode, join1Node, space.steerable, space.dist).end == startNode
                && InEdgeWalk(g2, goalNode, join2Node, space.steerable, GoalTreeMetric(space)).end == goalNode
                && BeatsBest(cost, old(solutions.entries)),
                cost, BasicJoinedPath(space, g1, g2, startNode, goalNode, join1Node, join2Node, joiningDistance))
      ensures RecordsGrowByBest(r, old(solutions.entries), solutions.entries)
      ensures GetBestSolutionDistance() == old(GetBestSolutionDistance())
              || Less(GetBestSolutionDistance(), old(GetBestSolutionDistance()))
    {
      ghost var before := solutions.entries;
      r := RegisterBasicJoinedPath(space, g1, g2, startNode, goalNode, join1Node, join2Node, joiningDistance, solutions);
      ghost var cost := BasicJoinedCost(space, g1, g2, startNode, goalNode, join1Node, join2Node, joiningDistance);
      RegistrationLowersBest(r, before, solutions.entries,
                             InEdgeWalk(g1, startNode, join1Node, space.steerable, space.dist).end == startNode
                             && InEdgeWalk(g2, goalNode, join2Node, space.steerable, GoalTreeMetric(space)).end == goalNode
                             && BeatsBest(cost, before),
                             cost, BasicJoinedPath(space, g1, g2, startNode, goalNode, join1Node, join2Node, joiningDistance));
    }

    /** `register_joining_point_from_optimal_mg`. */
    method RegisterJoiningPointFromOptimalMg(startNode: Vertex, goalNode: Vertex, join1Node: Vertex, join2Node: Vertex,
                                             joiningDistance: Cost, g1: MotionGraph<P>, g2: MotionGraph<P>)
      returns (r: Option<seq<P>>)
      requires Valid()
      requires IsFinite(OptimalJoinedCost(g1, g2, join1Node, join2Node, joiningDistance))
               && BeatsBest(OptimalJoinedCost(g1, g2, join1Node, join2Node, joiningDistance), solutions.entries)
               ==> OptimalChainFinite(space, g1, startNode, join1Node) && OptimalChainFinite(space, g2, goalNode, join2Node)
      modifies solutions
      ensures Valid()
      ensures var cost := OptimalJoinedCost(g1, g2, join1Node, join2Node, joiningDistance);
        !(IsFinite(cost) && BeatsBest(cost, old(solutions.entries))) ==> r == None && solutions.entries == old(solutions.entries)
      ensures var cost := OptimalJoinedCost(g1, g2, join1Node, join2Node, joiningDistance);
        IsFinite(cost) && BeatsBest(cost, old(solutions.entries)) ==>
          Outcome(r, old(solutions.entries), solutions.entries,
                  OptimalWalkComplete(space, g1, startNode, join1Node) && OptimalWalkComplete(space, g2, goalNode, join2Node),
                  cost, OptimalJoinedPath(space, g1, g2, startNode, goalNode, join1Node, join2Node, joiningDistance))
      ensures RecordsGrowByBest(r, old(solutions.entries), solutions.entries)
      ensures GetBestSolutionDistance() == old(GetBestSolutionDistance())
              || Less(GetBestSolutionDistance(), old(GetBestSolutionDistance()))
    {
      ghost var before := solutions.entries;
      r := RegisterOptimalJoinedPath(space, g1, g2, startNode, goalNode, join1Node, join2Node, joiningDistance, solutions);
      ghost var cost := OptimalJoinedCost(g1, g2, join1Node, join2Node, joiningDistance);
      if IsFinite(cost) && BeatsBest(cost, before) {
        RegistrationLowersBest(r, before, solutions.entries,
                               OptimalWalkComplete(space, g1, startNode, join1Node) && OptimalWalkComplete(space, g2, goalNode, join2Node),
                               cost, OptimalJoinedPath(space, g1, g2, startNode, goalNode, join1Node, join2Node, joiningDistance));
      }
    }
  }
}
