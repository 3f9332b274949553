/**
 * The query's solution records: a `std::map<double, solution>` ordered by cost,
 * whose first key is the best cost found so far. The map is modelled as the
 * sequence of its entries in key order.
 */
module SolutionMaps {
  import opened Costs

  /** One entry of the map: the total cost (the key) and the waypoint sequence. */
  datatype Solution<P> = Solution(cost: Cost, path: seq<P>)

  /** The entries are in strictly increasing key order, as in a `std::map`. */
  ghost predicate StrictlyIncreasing<P>(s: seq<Solution<P>>)
  {
    forall i, j :: 0 <= i < j < |s| ==> Less(s[i].cost, s[j].cost)
  }

  /** The set of keys of the map. */
  ghost function Keys<P>(s: seq<Solution<P>>): set<Cost>
  {
    set e | e in s :: e.cost
  }

  /**
   * `solutions[c] = p`: inserts a new key in its place, or overwrites the value of
   * an existing key; every other entry is kept.
   */
  function Insert<P>(s: seq<Solution<P>>, c: Cost, p: seq<P>): (r: seq<Solution<P>>)
    requires StrictlyIncreasing(s)
    ensures StrictlyIncreasing(r)
    ensures Solution(c, p) in r
    ensures forall e :: e in r ==> e == Solution(c, p) || (e in s && e.cost != c)
    ensures forall e :: e in s && e.cost != c ==> e in r
    ensures |r| == if c in Keys(s) then |s| else |s| + 1
  {
    if s == [] then [Solution(c, p)]
    else if Less(c, s[0].cost) then
      assert c !in Keys(s) by {
        forall e | e in s ensures e.cost != c {
          var i :| 0 <= i < |s| && s[i] == e;
          LessIsStrictTotalOrder(c, s[0].cost, e.cost);
        }
      }
      [Solution(c, p)] + s
    else if c == s[0].cost then
      assert c !in Keys(s[1..]);
      assert Keys(s) == Keys(s[1..]) + {c};
      [Solution(c, p)] + s[1..]
    else
      var rest := Insert(s[1..], c, p);
      assert Keys(s) == Keys(s[1..]) + {s[0].cost};
      LessIsStrictTotalOrder(s[0].cost, c, c);
      assert forall e :: e in rest ==> Less(s[0].cost, e.cost) by {
        forall e | e in rest ensures Less(s[0].cost, e.cost) {
          if e != Solution(c, p) {
            var i :| 0 <= i < |s[1..]| && s[1..][i] == e;
            assert s[i + 1] == e;
          }
        }
      }
      [s[0]] + rest
  }

  /** `get_best_solution_distance`: +infinity for an empty map, otherwise the first key. */
  function BestCost<P>(s: seq<Solution<P>>): (r: Cost)
    requires StrictlyIncreasing(s)
    ensures s == [] <==> r == Inf && Inf !in Keys(s)
    ensures s != [] ==> r in Keys(s)
    ensures forall e :: e in s ==> e.cost == r || Less(r, e.cost)
  {
    if s == [] then Inf
    else
      assert s[0] in s;
      assert forall e :: e in s ==> e.cost == s[0].cost || Less(s[0].cost, e.cost) by {
        forall e | e in s ensures e.cost == s[0].cost || Less(s[0].cost, e.cost) {
          var i :| 0 <= i < |s| && s[i] == e;
        }
      }
      if s[0].cost == Inf then
        assert forall e :: e in s ==> e.cost == Inf;
        assert Inf in Keys(s);
        Inf
      else s[0].cost
  }

  /**
   * Inserting a key below the current best puts the new entry first, keeps every
   * other entry and makes the new key the best cost.
   */
  lemma {:induction false} PutBelowBest<P>(s: seq<Solution<P>>, c: Cost, p: seq<P>)
    requires StrictlyIncreasing(s)
    requires s == [] || Less(c, s[0].cost)
    ensures Insert(s, c, p) == [Solution(c, p)] + s
    ensures BestCost(Insert(s, c, p)) == c
    ensures |Insert(s, c, p)| == |s| + 1
  {
  }

  /**
   * The map as a mutable object, since the registration routines receive it by
   * reference and insert into it in place.
   */
  class SolutionMap<P> {
    var entries: seq<Solution<P>>

    ghost predicate Valid()
      reads this
    {
      StrictlyIncreasing(entries)
    }

    constructor ()
      ensures Valid() && entries == []
    {
      entries := [];
    }

    /** `solutions.clear()`. */
    method Clear()
      modifies this
      ensures Valid() && entries == []
    {
      entries := [];
    }

    /** `solutions[c] = p`. */
    method Put(c: Cost, p: seq<P>)
      requires Valid()
      modifies this
      ensures Valid() && entries == Insert(old(entries), c, p)
    {
      entries := Insert(entries, c, p);
    }
  }
}
