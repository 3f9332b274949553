/**
 * A trajectory that stays at one spatial point for all time. Its points are
 * temporal points (a time and a spatial point); every query answers with the
 * start point's spatial part, and its iterators never move.
 */
module ConstantTrajectories {
  import opened Wrappers

  /** A point of the temporal space: a time stamp and a point of the spatial space. */
  datatype TemporalPoint<S> = TemporalPoint(time: real, pt: S)

  /** The waypoint descriptor carries nothing, so a waypoint pair is its point. */
  datatype WaypointPair<S> = WaypointPair(point: TemporalPoint<S>)

  /** A bound of the time range, which may be infinite. */
  datatype TimeBound = NegativeInfinity | At(t: real) | PositiveInfinity

  predicate AtOrBefore(b: TimeBound, t: real)
  {
    match b
    case NegativeInfinity => true
    case At(s) => s <= t
    case PositiveInfinity => false
  }

  predicate AtOrAfter(b: TimeBound, t: real)
  {
    match b
    case NegativeInfinity => false
    case At(s) => t <= s
    case PositiveInfinity => true
  }

  /**
   * `point_time_iterator`: it holds one point. Moving it by any amount gives the
   * same iterator, any two compare equal, and it dereferences to its point.
   */
  datatype PointTimeIterator<S> = PointTimeIterator(currentPt: TemporalPoint<S>)
  {
    function Plus(dt: real): (r: PointTimeIterator<S>)
      ensures r.Deref() == Deref()
    {
      this
    }

    function Minus(dt: real): (r: PointTimeIterator<S>)
      ensures r.Deref() == Deref()
    {
      this
    }

    predicate Equals(other: PointTimeIterator<S>)
      ensures Equals(other)
    {
      true
    }

    predicate NotEquals(other: PointTimeIterator<S>)
      ensures !NotEquals(other)
    {
      false
    }

    /** `operator*`: the point the iterator was made with. */
    function Deref(): (p: TemporalPoint<S>)
      ensures PointTimeIterator(p) == this
    {
      currentPt
    }
  }

  /** Moving an iterator forward and back by any amounts, `k` times, still yields its point. */
  lemma {:induction false} IteratorNeverMoves<S>(it: PointTimeIterator<S>, steps: seq<real>)
    ensures Travel(it, steps).Deref() == it.Deref()
  {
    if |steps| > 0 {
      IteratorNeverMoves(it, steps[..|steps| - 1]);
    }
  }

  /** The iterator after `it + steps[0] + steps[1] + ...`. */
  function Travel<S>(it: PointTimeIterator<S>, steps: seq<real>): PointTimeIterator<S>
  {
    if |steps| == 0 then it else Travel(it, steps[..|steps| - 1]).Plus(steps[|steps| - 1])
  }

  class ConstantTrajectory<S> {
    var startPoint: TemporalPoint<S>

    /** The start point is the given spatial point at time 0. */
    constructor(aStartPoint: S)
      ensures startPoint == TemporalPoint(0.0, aStartPoint)
    {
      startPoint := TemporalPoint(0.0, aStartPoint);
    }

    /** `get_start_point`: the start point lies on the trajectory, which is at its spatial point at every time. */
    function GetStartPoint(): (p: TemporalPoint<S>)
      reads this
      ensures GetPointAtTime(p.time) == p
      ensures forall t :: GetPointAtTime(t).pt == p.pt
    {
      startPoint
    }

    /** A null argument (`None`) leaves the start point as it was. */
    method SetStartPoint(aStartPoint: Option<TemporalPoint<S>>)
      modifies this
      ensures aStartPoint.None? ==> startPoint == old(startPoint)
      ensures aStartPoint.Some? ==> startPoint == aStartPoint.value
    {
      if aStartPoint.Some? {
        startPoint := aStartPoint.value;
      }
    }

    function GetPointAtTime(t: real): (p: TemporalPoint<S>)
      reads this
      ensures p.time == t && p.pt == startPoint.pt
    {
      TemporalPoint(t, startPoint.pt)
    }

    function MoveTimeDiffFrom(p: TemporalPoint<S>, dt: real): (q: TemporalPoint<S>)
      reads this
      ensures q.time == p.time + dt && q.pt == startPoint.pt
    {
      TemporalPoint(p.time + dt, startPoint.pt)
    }

    function TravelDistance(a: TemporalPoint<S>, b: TemporalPoint<S>): (d: real)
      ensures d == 0.0
    {
      0.0
    }

    function GetWaypointAtTime(t: real): (w: WaypointPair<S>)
      reads this
      ensures w.point == GetPointAtTime(t)
    {
      WaypointPair(TemporalPoint(t, startPoint.pt))
    }

    function MoveWaypointTimeDiffFrom(w: WaypointPair<S>, dt: real): (r: WaypointPair<S>)
      reads this
      ensures r.point == MoveTimeDiffFrom(w.point, dt)
    {
      WaypointPair(TemporalPoint(w.point.time + dt, startPoint.pt))
    }

    function WaypointTravelDistance(a: WaypointPair<S>, b: WaypointPair<S>): (d: real)
      ensures d == 0.0
    {
      0.0
    }

    function GetStartTime(): (b: TimeBound)
      ensures forall t :: AtOrBefore(b, t)
    {
      NegativeInfinity
    }

    function GetEndTime(): (b: TimeBound)
      ensures forall t :: AtOrAfter(b, t)
    {
      PositiveInfinity
    }

    function BeginTimeTravel(): (it: PointTimeIterator<S>)
      reads this
      ensures it.Deref() == startPoint
    {
      PointTimeIterator(startPoint)
    }

    function EndTimeTravel(): (it: PointTimeIterator<S>)
      reads this
      ensures it.Deref() == startPoint
    {
      PointTimeIterator(startPoint)
    }

    function BeginFractionTravel(): (it: PointTimeIterator<S>)
      reads this
      ensures it.Deref() == startPoint
    {
      PointTimeIterator(startPoint)
    }

    function EndFractionTravel(): (it: PointTimeIterator<S>)
      reads this
      ensures it.Deref() == startPoint
    {
      PointTimeIterator(startPoint)
    }
  }

  /** Every time lies between the start time and the end time. */
  lemma TimeRangeCoversAll<S>(traj: ConstantTrajectory<S>, t: real)
    ensures AtOrBefore(traj.GetStartTime(), t) && AtOrAfter(traj.GetEndTime(), t)
  {
  }

  /** The spatial point does not depend on the time asked for. */
  lemma PointsAgreeAtAllTimes<S>(traj: ConstantTrajectory<S>, t1: real, t2: real)
    ensures traj.GetPointAtTime(t1).pt == traj.GetPointAtTime(t2).pt
    ensures traj.TravelDistance(traj.GetPointAtTime(t1), traj.GetPointAtTime(t2)) == 0.0
  {
  }

  /** Two time steps compose into one, and a step from the point at `t` lands on the point at `t + dt`. */
  lemma TimeStepsCompose<S>(traj: ConstantTrajectory<S>, p: TemporalPoint<S>, a: real, b: real, t: real)
    ensures traj.MoveTimeDiffFrom(traj.MoveTimeDiffFrom(p, a), b) == traj.MoveTimeDiffFrom(p, a + b)
    ensures traj.MoveTimeDiffFrom(traj.GetPointAtTime(t), a) == traj.GetPointAtTime(t + a)
  {
  }

  /** Travelling from the beginning by any steps never reaches anything but the start point. */
  lemma TravelStaysAtStart<S>(traj: ConstantTrajectory<S>, steps: seq<real>)
    ensures Travel(traj.BeginTimeTravel(), steps).Deref() == traj.EndTimeTravel().Deref()
    ensures traj.BeginTimeTravel().Equals(traj.EndTimeTravel())
  {
    IteratorNeverMoves(traj.BeginTimeTravel(), steps);
  }
}
