/**
 * The observation store's derived values: the best value observed so far
 * (a maximum or a minimum of all values, depending on the direction) and the
 * regret history derived from the best-value history.
 */
module Observations {

  function Max(a: real, b: real): real { if a >= b then a else b }
  function Min(a: real, b: real): real { if a <= b then a else b }

  /** The largest observed value (`y.max()`). */
  function SeqMax(s: seq<real>): real
    requires |s| > 0
  {
    if |s| == 1 then s[0] else Max(SeqMax(s[..|s| - 1]), s[|s| - 1])
  }

  /** The smallest observed value (`y.min()`). */
  function SeqMin(s: seq<real>): real
    requires |s| > 0
  {
    if |s| == 1 then s[0] else Min(SeqMin(s[..|s| - 1]), s[|s| - 1])
  }

  /** The maximum is one of the values and no value exceeds it. */
  lemma {:induction false} SeqMaxIsMaximum(s: seq<real>)
    requires |s| > 0
    ensures SeqMax(s) in s
    ensures forall i :: 0 <= i < |s| ==> s[i] <= SeqMax(s)
  {
    if |s| > 1 {
      var front := s[..|s| - 1];
      SeqMaxIsMaximum(front);
      assert forall i :: 0 <= i < |front| ==> s[i] == front[i];
    }
  }

  /** The minimum is one of the values and no value is below it. */
  lemma {:induction false} SeqMinIsMinimum(s: seq<real>)
    requires |s| > 0
    ensures SeqMin(s) in s
    ensures forall i :: 0 <= i < |s| ==> SeqMin(s) <= s[i]
  {
    if |s| > 1 {
      var front := s[..|s| - 1];
      SeqMinIsMinimum(front);
      assert forall i :: 0 <= i < |front| ==> s[i] == front[i];
    }
  }

  /** `a` is at least as good as `b` in the optimization direction. */
  predicate AtLeastAsGood(maximize: bool, a: real, b: real)
  {
    if maximize then a >= b else a <= b
  }

  /** The best value of `y`: `y.max()` when maximizing, `y.min()` otherwise. */
  function Best(maximize: bool, y: seq<real>): real
    requires |y| > 0
  {
    if maximize then SeqMax(y) else SeqMin(y)
  }

  /** The best value is one of the values and at least as good as each of them. */
  lemma BestIsBest(maximize: bool, y: seq<real>)
    requires |y| > 0
    ensures Best(maximize, y) in y
    ensures forall i :: 0 <= i < |y| ==> AtLeastAsGood(maximize, Best(maximize, y), y[i])
  {
    if maximize {
      SeqMaxIsMaximum(y);
    } else {
      SeqMinIsMinimum(y);
    }
  }

  /** Appending one value changes the best value only if the new value is better. */
  lemma BestAppend(maximize: bool, y: seq<real>, v: real)
    requires |y| > 0
    ensures Best(maximize, y + [v]) == (if maximize then Max(Best(maximize, y), v) else Min(Best(maximize, y), v))
  {
    assert (y + [v])[..|y|] == y;
  }

  /** The best value of a longer prefix is at least as good as that of a shorter one. */
  lemma BestPrefixMonotone(maximize: bool, y: seq<real>, i: nat, j: nat)
    requires 0 < i <= j <= |y|
    ensures AtLeastAsGood(maximize, Best(maximize, y[..j]), Best(maximize, y[..i]))
  {
    var b := Best(maximize, y[..i]);
    BestIsBest(maximize, y[..i]);
    BestIsBest(maximize, y[..j]);
    var k :| 0 <= k < i && y[..i][k] == b;
    assert y[..j][k] == b;
  }

  /**
   * The best-value history of the observations `y`, whose first `initial` values
   * came as one batch: one entry for the batch, then one per later observation.
   */
  function RunningBest(maximize: bool, y: seq<real>, initial: nat): (h: seq<real>)
    requires 0 < initial <= |y|
    ensures |h| == |y| - initial + 1
    ensures h[|h| - 1] == Best(maximize, y)
  {
    if |y| == initial then [Best(maximize, y)]
    else RunningBest(maximize, y[..|y| - 1], initial) + [Best(maximize, y)]
  }

  /** Entry i of the best-value history is the best of the first `initial + i` observations. */
  lemma {:induction false} RunningBestAt(maximize: bool, y: seq<real>, initial: nat, i: nat)
    requires 0 < initial <= |y| && i <= |y| - initial
    ensures RunningBest(maximize, y, initial)[i] == Best(maximize, y[..initial + i])
    decreases |y|
  {
    if i == |y| - initial {
      assert y[..initial + i] == y;
    } else {
      var front := y[..|y| - 1];
      RunningBestAt(maximize, front, initial, i);
      assert front[..initial + i] == y[..initial + i];
    }
  }

  /** Appending an observation appends the new best value to the running best. */
  lemma RunningBestAppend(maximize: bool, y: seq<real>, initial: nat, v: real)
    requires 0 < initial <= |y|
    ensures RunningBest(maximize, y + [v], initial) == RunningBest(maximize, y, initial) + [Best(maximize, y + [v])]
  {
    assert (y + [v])[..|y|] == y;
  }

  /**
   * Entry i of the best-value history is the best of the first `initial + i`
   * observations, and the history never gets worse in the optimization direction.
   */
  lemma RunningBestMonotone(maximize: bool, y: seq<real>, initial: nat)
    requires 0 < initial <= |y|
    ensures var h := RunningBest(maximize, y, initial);
      && (forall i :: 0 <= i < |h| ==> h[i] == Best(maximize, y[..initial + i]))
      && (forall i, j :: 0 <= i <= j < |h| ==> AtLeastAsGood(maximize, h[j], h[i]))
  {
    var h := RunningBest(maximize, y, initial);
    forall i | 0 <= i < |h| ensures h[i] == Best(maximize, y[..initial + i]) {
      RunningBestAt(maximize, y, initial, i);
    }
    forall i, j | 0 <= i <= j < |h| ensures AtLeastAsGood(maximize, h[j], h[i]) {
      RunningBestAt(maximize, y, initial, i);
      RunningBestAt(maximize, y, initial, j);
      BestPrefixMonotone(maximize, y, initial + i, initial + j);
    }
  }

  /** Regret of each best-so-far value against the global optimum (`get_regret_history`). */
  function RegretHistory(maximize: bool, globalOptimum: real, bestHistory: seq<real>): seq<real>
  {
    seq(|bestHistory|, i requires 0 <= i < |bestHistory| =>
      if maximize then globalOptimum - bestHistory[i] else bestHistory[i] - globalOptimum)
  }

  /** A best-value history that never gets worse gives a regret history that never grows. */
  lemma RegretFollowsBest(maximize: bool, globalOptimum: real, bestHistory: seq<real>)
    requires forall i, j :: 0 <= i <= j < |bestHistory| ==> AtLeastAsGood(maximize, bestHistory[j], bestHistory[i])
    ensures var r := RegretHistory(maximize, globalOptimum, bestHistory);
      forall i, j :: 0 <= i <= j < |r| ==> r[j] <= r[i]
  {
    var r := RegretHistory(maximize, globalOptimum, bestHistory);
    forall i, j | 0 <= i <= j < |r| ensures r[j] <= r[i] {
      assert AtLeastAsGood(maximize, bestHistory[j], bestHistory[i]);
    }
  }
}
