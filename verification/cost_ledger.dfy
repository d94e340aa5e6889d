/**
 * The cost ledger: what one query costs and the cost-cooling factor derived
 * from the remaining budget.
 */
module Costs {

  /** A query point: a vector in the unit hypercube (its dimension is not checked). */
  type Point = seq<real>

  /**
   * The optimizer's cost: either a constant charged per query, or a callable
   * that maps the query point to a tensor of costs, which is summed.
   */
  datatype CostModel =
    | Constant(amount: real)
    | Callable(charge: Point -> seq<real>)

  /** Sum of the entries of a cost tensor. */
  function Sum(s: seq<real>): real
  {
    if s == [] then 0.0 else Sum(s[..|s| - 1]) + s[|s| - 1]
  }

  /** The amount `update_cost` adds to the cumulative cost for one query at `p`. */
  function Increment(cost: CostModel, p: Point): real
  {
    match cost
    case Constant(c) => c
    case Callable(f) => Sum(f(p))
  }

  /** The total cost of a sequence of queries. */
  function TotalCost(cost: CostModel, queries: seq<Point>): real
  {
    if queries == [] then 0.0
    else TotalCost(cost, queries[..|queries| - 1]) + Increment(cost, queries[|queries| - 1])
  }

  /**
   * The cost history of a sequence of queries: 0 before any query, then the
   * cumulative cost after each one.
   */
  function RunningCost(cost: CostModel, queries: seq<Point>): (h: seq<real>)
    ensures |h| == |queries| + 1
    ensures h[0] == 0.0
    ensures h[|h| - 1] == TotalCost(cost, queries)
  {
    if queries == [] then [0.0]
    else RunningCost(cost, queries[..|queries| - 1]) + [TotalCost(cost, queries)]
  }

  /** Charging one more query appends the new total, which adds that query's cost. */
  lemma RunningCostAppend(cost: CostModel, queries: seq<Point>, p: Point)
    ensures TotalCost(cost, queries + [p]) == TotalCost(cost, queries) + Increment(cost, p)
    ensures RunningCost(cost, queries + [p]) == RunningCost(cost, queries) + [TotalCost(cost, queries + [p])]
  {
    assert (queries + [p])[..|queries|] == queries;
  }

  /** Entry k of the cost history is the total cost of the first k queries. */
  lemma {:induction false} RunningCostAt(cost: CostModel, queries: seq<Point>, k: nat)
    requires k <= |queries|
    ensures RunningCost(cost, queries)[k] == TotalCost(cost, queries[..k])
    decreases |queries|
  {
    if k == |queries| {
      assert queries[..k] == queries;
    } else {
      var front := queries[..|queries| - 1];
      RunningCostAt(cost, front, k);
      assert front[..k] == queries[..k];
    }
  }

  /** With a constant cost c, n queries cost n·c. */
  lemma {:induction false} ConstantTotalCost(c: real, queries: seq<Point>)
    ensures TotalCost(Constant(c), queries) == |queries| as real * c
  {
    if queries != [] {
      ConstantTotalCost(c, queries[..|queries| - 1]);
      assert (|queries| - 1) as real * c + c == |queries| as real * c;
    }
  }

  /** With a constant cost c, entry k of the cost history is k·c. */
  lemma ConstantRunningCost(c: real, queries: seq<Point>)
    ensures var h := RunningCost(Constant(c), queries);
      forall k :: 0 <= k < |h| ==> h[k] == k as real * c
  {
    var h := RunningCost(Constant(c), queries);
    forall k | 0 <= k < |h| ensures h[k] == k as real * c {
      RunningCostAt(Constant(c), queries, k);
      ConstantTotalCost(c, queries[..k]);
    }
  }

  /** When no query in a sequence costs a negative amount, a prefix costs no more than the whole. */
  lemma {:induction false} TotalCostPrefix(cost: CostModel, queries: seq<Point>, k: nat)
    requires k <= |queries|
    requires forall i :: 0 <= i < |queries| ==> Increment(cost, queries[i]) >= 0.0
    ensures 0.0 <= TotalCost(cost, queries[..k]) <= TotalCost(cost, queries)
    decreases |queries|
  {
    if queries != [] {
      var front := queries[..|queries| - 1];
      if k < |queries| {
        assert queries[..k] == front[..k];
        TotalCostPrefix(cost, front, k);
      } else {
        assert queries[..k] == queries;
        TotalCostPrefix(cost, front, |front|);
        assert front[..|front|] == front;
      }
    }
  }

  /** Summing a cost tensor whose entries are all non-negative gives a non-negative amount. */
  lemma {:induction false} SumNonNegative(s: seq<real>)
    requires forall i :: 0 <= i < |s| ==> s[i] >= 0.0
    ensures Sum(s) >= 0.0
  {
    if s != [] {
      SumNonNegative(s[..|s| - 1]);
    }
  }

  /**
   * An example callable cost, not one the optimizer ships: it charges each
   * coordinate's absolute value, so a query costs the point's L1 norm.
   */
  function AbsoluteCoordinates(p: Point): seq<real>
  {
    seq(|p|, i requires 0 <= i < |p| => if p[i] < 0.0 then -p[i] else p[i])
  }

  /**
   * The example absolute-value cost charges every point a non-negative amount,
   * so it meets the hypothesis of the cost-monotonicity lemmas.
   */
  lemma L1CostNonNegative(p: Point)
    ensures Increment(Callable(AbsoluteCoordinates), p) >= 0.0
  {
    SumNonNegative(AbsoluteCoordinates(p));
  }

  /** A callable cost equal to the L1 norm charges 0.7 for the point (0.3, 0.4). */
  lemma L1CostOfPoint()
    ensures Increment(Callable(AbsoluteCoordinates), [0.3, 0.4]) == 0.7
  {
    var t := AbsoluteCoordinates([0.3, 0.4]);
    assert t == [0.3, 0.4];
    assert t[..1] == [0.3] && [0.3][..0] == [];
  }

  /**
   * Cost cooling: the factor `(budget - cumulativeCost) / budget`, clamped below at 0.
   * The division by a zero budget is the caller's error path. The fraction is
   * non-negative exactly when the spend has not crossed the budget on the budget's
   * own side of zero, which is the test written here (CoolingAlphaBounds shows
   * that the result is the clamped fraction).
   */
  function CoolingAlpha(budget: real, cumulativeCost: real): real
    requires budget != 0.0
  {
    if (budget > 0.0 && cumulativeCost <= budget) || (budget < 0.0 && cumulativeCost >= budget)
    then (budget - cumulativeCost) / budget
    else 0.0
  }

  /**
   * The cooling factor is the remaining fraction of the budget, or 0 once that
   * is negative; with a positive budget it lies in [0, 1] and is 0 exactly when
   * the budget is spent.
   */
  lemma CoolingAlphaBounds(budget: real, cumulativeCost: real)
    requires budget != 0.0
    ensures var alpha := CoolingAlpha(budget, cumulativeCost);
      && alpha >= 0.0
      && alpha >= (budget - cumulativeCost) / budget
      && (alpha == 0.0 || alpha == (budget - cumulativeCost) / budget)
      && (budget > 0.0 && cumulativeCost >= 0.0 ==> alpha <= 1.0)
      && (budget > 0.0 ==> (alpha == 0.0 <==> cumulativeCost >= budget))
  {
    if budget > 0.0 && cumulativeCost >= 0.0 {
      assert (budget - cumulativeCost) / budget <= budget / budget;
    }
  }

  /** With a positive budget, spending more never raises the cooling factor. */
  lemma CoolingAlphaNonIncreasing(budget: real, spent: real, laterSpent: real)
    requires budget > 0.0 && spent <= laterSpent
    ensures CoolingAlpha(budget, laterSpent) <= CoolingAlpha(budget, spent)
  {
    assert (budget - laterSpent) / budget <= (budget - spent) / budget;
  }
}
