/** The inventory policy computed from a forecast: average daily demand,
    reorder point, economic order quantity (EOQ), and the order decision. */
module Replenishment {

  /** Days between placing an order and receiving it. */
  const LeadTimeDays: real := 3.0
  /** Days per year over which the daily average is taken as constant demand. */
  const AnnualDemandFactor: real := 365.0
  /** Cost of placing one order. */
  const OrderingCost: real := 50.0
  /** Cost of holding one unit for a year. */
  const HoldingCost: real := 1.0

  function Sum(xs: seq<real>): real {
    if xs == [] then 0.0 else xs[0] + Sum(xs[1..])
  }

  /** `np.mean`: the arithmetic mean. */
  function Mean(xs: seq<real>): (r: real)
    requires |xs| > 0
    ensures r * (|xs| as real) == Sum(xs)
  {
    Sum(xs) / (|xs| as real)
  }

  /** The policy quantities. The EOQ is a square root (`np.sqrt`), which the
      model represents by its square `eoqSquare`; `IsEoq` says which real is
      the EOQ. */
  datatype Policy = Policy(averageDemand: real, reorderPoint: real, eoqSquare: real)

  /** The policy for an average daily demand `avg`. */
  function PolicyFor(avg: real): (p: Policy)
    ensures p.averageDemand == avg
    ensures p.reorderPoint == 3.0 * avg
    ensures p.eoqSquare == 36500.0 * avg
  {
    Policy(avg, avg * LeadTimeDays, (2.0 * avg * AnnualDemandFactor * OrderingCost) / HoldingCost)
  }

  /** The policy of a forecast: the one for the mean of its predictions. */
  function ForecastPolicy(preds: seq<real>): (p: Policy)
    requires |preds| > 0
    ensures p.averageDemand * (|preds| as real) == Sum(preds)
    ensures p.reorderPoint == LeadTimeDays * p.averageDemand
    ensures p.eoqSquare == 2.0 * p.averageDemand * AnnualDemandFactor * OrderingCost / HoldingCost
  {
    PolicyFor(Mean(preds))
  }

  /** `e` is the EOQ of `p`: the non-negative square root of `p.eoqSquare`. */
  predicate IsEoq(p: Policy, e: real) {
    0.0 <= e && e * e == p.eoqSquare
  }

  /** The order decision: order now exactly when the stock is strictly below
      the reorder point; for a whole number of units that is being below the
      reorder point rounded up to a whole unit. */
  function ShouldOrderNow(currentStock: int, reorderPoint: real): (r: bool)
    ensures r <==> currentStock < Ceiling(reorderPoint)
  {
    (currentStock as real) < reorderPoint
  }

  /** The least integer not below `x`. */
  function Ceiling(x: real): (c: int)
    ensures c as real - 1.0 < x <= c as real
  {
    -((-x).Floor)
  }

  /** Every prediction lies in `[lo, hi]`, hence so does the sum divided by the count. */
  lemma {:induction false} SumBounds(xs: seq<real>, lo: real, hi: real)
    requires forall k :: 0 <= k < |xs| ==> lo <= xs[k] <= hi
    ensures lo * (|xs| as real) <= Sum(xs) <= hi * (|xs| as real)
  {
    if xs != [] {
      SumBounds(xs[1..], lo, hi);
    }
  }

  /** The average demand lies between the smallest and the largest prediction. */
  lemma MeanBounds(xs: seq<real>, lo: real, hi: real)
    requires |xs| > 0
    requires forall k :: 0 <= k < |xs| ==> lo <= xs[k] <= hi
    ensures lo <= Mean(xs) <= hi
  {
    SumBounds(xs, lo, hi);
    var n := |xs| as real;
    var m := Mean(xs);
    assert m * n >= lo * n;
    assert m * n <= hi * n;
  }

  lemma SquareStrictlyMonotone(a: real, b: real)
    requires 0.0 <= a < b
    ensures a * a < b * b
  {
    var aa, ab, bb := a * a, a * b, b * b;
    assert aa <= ab by { assert a * (b - a) >= 0.0; }
    assert ab < bb by { assert (b - a) * b > 0.0; }
  }

  /** The EOQ, when there is one, is unique. */
  lemma EoqUnique(p: Policy, e1: real, e2: real)
    requires IsEoq(p, e1) && IsEoq(p, e2)
    ensures e1 == e2
  {
    if e1 < e2 {
      SquareStrictlyMonotone(e1, e2);
    } else if e2 < e1 {
      SquareStrictlyMonotone(e2, e1);
    }
  }

  /** A negative average demand has no EOQ (`np.sqrt` of a negative number is NaN). */
  lemma NoEoqForNegativeDemand(avg: real, e: real)
    requires avg < 0.0
    ensures !IsEoq(PolicyFor(avg), e)
  {
    assert e * e >= 0.0 by {
      if e < 0.0 { assert e * e == (-e) * (-e); }
    }
  }

  /** The EOQ is zero exactly when the average demand is zero. */
  lemma EoqZero(avg: real, e: real)
    requires IsEoq(PolicyFor(avg), e)
    ensures e == 0.0 <==> avg == 0.0
  {
    if e != 0.0 {
      SquareStrictlyMonotone(0.0, e);
    }
  }

  /** Policy monotonicity: for non-negative demands, a larger average demand
      gives a reorder point and an EOQ that are at least as large. */
  lemma PolicyMonotone(a1: real, a2: real, e1: real, e2: real)
    requires 0.0 <= a1 <= a2
    requires IsEoq(PolicyFor(a1), e1) && IsEoq(PolicyFor(a2), e2)
    ensures PolicyFor(a1).reorderPoint <= PolicyFor(a2).reorderPoint
    ensures e1 <= e2
  {
    if e1 > e2 {
      SquareStrictlyMonotone(e2, e1);
    }
  }
}
