/**
 * Path costs as the planner computes them in double precision: a finite value or
 * positive infinity (the value `std::numeric_limits<double>::infinity()` that marks
 * "no solution" and unreachable vertices). NaN and negative infinity are not modelled.
 */
module Costs {

  datatype Cost = Fin(value: real) | Inf

  const Zero: Cost := Fin(0.0)

  /** The strict order `a < b` on doubles, restricted to finite values and +infinity. */
  predicate Less(a: Cost, b: Cost)
  {
    match a
    case Inf => false
    case Fin(x) => b.Inf? || x < b.value
  }

  /** The test `!(c < infinity)`, used by the optimal registrations to reject a candidate. */
  predicate IsFinite(c: Cost)
  {
    Less(c, Inf)
  }

  /** The test `c > 0.0`. */
  predicate Positive(c: Cost)
  {
    Less(Zero, c)
  }

  /** Double addition: anything plus infinity is infinity. */
  function Add(a: Cost, b: Cost): Cost
  {
    if a.Fin? && b.Fin? then Fin(a.value + b.value) else Inf
  }

  lemma LessIsStrictTotalOrder(a: Cost, b: Cost, c: Cost)
    ensures !Less(a, a)
    ensures Less(a, b) && Less(b, c) ==> Less(a, c)
    ensures a == b || Less(a, b) || Less(b, a)
    ensures !(Less(a, b) && Less(b, a))
  {
  }

  lemma AddLaws(a: Cost, b: Cost, c: Cost)
    ensures Add(a, Add(b, c)) == Add(Add(a, b), c)
    ensures Add(a, b) == Add(b, a)
    ensures Add(a, Zero) == a
  {
  }
}
