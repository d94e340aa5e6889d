/**
 * The optimization controller as a state machine on values: one `iterate` step,
 * the reset at the start of a run, a run of several steps, and the invariant
 * every step keeps. The class in module BayesOpt is proved to follow it.
 */
module Controller {
  import opened Wrappers
  import opened Costs
  import opened Observations
  import opened Options
  import opened LambdaScheduler
  import opened Acquisition

  /** What the optimizer fixes at construction. */
  datatype Setup = Setup(maximize: bool, cost: CostModel, initialCount: nat)

  /** The fields `iterate` reads and writes. */
  datatype Snapshot = Snapshot(
    x: seq<Point>,
    y: seq<real>,
    bestF: real,
    bestHistory: seq<real>,
    cumulativeCost: real,
    costHistory: seq<real>,
    budget: Option<real>,
    lmbda: LambdaState,
    currentAcq: Option<real>)

  /**
   * The external collaborators' answers for one step: the point and attained
   * acquisition value `optimize_acqf` returns, the subsidiary EIpu maximum used
   * by the EIpu-derived λ schedule, and the objective's value at the point.
   */
  datatype StepInput = StepInput(point: Point, acquisitionValue: real, subsidiaryMax: real, objectiveValue: real)

  /** A successful step: the record handed to the acquisition class and the next state. */
  datatype StepResult = StepResult(args: Args, next: Snapshot)

  /** Where a run ends: the state reached and the error that stopped it, if any. */
  datatype RunOutcome = RunOutcome(state: Snapshot, error: Option<Error>)

  /**
   * The optimizer's invariant: observations and histories stay in step; each
   * best-history entry is the best of the observations made by then; each
   * cost-history entry is the total cost of the queries made by then; the last
   * λ history entry is the λ in force.
   */
  ghost predicate Valid(setup: Setup, s: Snapshot)
  {
    && setup.initialCount > 0
    && |s.x| == |s.y|
    && |s.costHistory| == |s.bestHistory| > 0
    && |s.y| == setup.initialCount + |s.bestHistory| - 1
    && s.bestHistory == RunningBest(setup.maximize, s.y, setup.initialCount)
    && s.bestF == s.bestHistory[|s.bestHistory| - 1]
    && s.costHistory == RunningCost(setup.cost, s.x[setup.initialCount..])
    && s.cumulativeCost == s.costHistory[|s.costHistory| - 1]
    && s.lmbda.Consistent()
    && s.lmbda.LastIsCurrent()
  }

  /** One `iterate` step; an error leaves the state as it was. */
  function Step(setup: Setup, s: Snapshot, policy: Policy, kw: Kwargs, input: StepInput): (r: Result<StepResult, Error>)
    requires s.lmbda.Consistent()
    ensures r.Ok? ==> r.value.next.lmbda.Consistent()
  {
    var assembled := Assemble(setup.maximize, setup.cost, s.bestF, s.budget, s.cumulativeCost,
                              s.lmbda, policy, kw, input.subsidiaryMax);
    if assembled.Err? then Err(assembled.error)
    else Ok(StepResult(assembled.value.args, Record(setup, s, assembled.value.lmbda, policy, kw, input)))
  }

  /**
   * The bookkeeping half of a step (lines 142-153): append the observation,
   * recompute the best value, charge the cost, and re-arm the λ scheduler.
   */
  function Record(setup: Setup, s: Snapshot, st: LambdaState, policy: Policy, kw: Kwargs, input: StepInput): (t: Snapshot)
    requires st.Consistent()
    ensures t.lmbda.Consistent()
  {
    var y := s.y + [input.objectiveValue];
    var best := Best(setup.maximize, y);
    var spent := s.cumulativeCost + Increment(setup.cost, input.point);
    var need := st.need || (Rearms(policy, kw) && Fires(setup.maximize, input.acquisitionValue, best));
    Snapshot(s.x + [input.point], y, best, s.bestHistory + [best], spent, s.costHistory + [spent],
             s.budget, st.(need := need), Some(input.acquisitionValue))
  }

  /** The state at the start of `run`/`run_until_budget`. */
  function StartRun(s: Snapshot, budget: real, policy: Policy, kw: Kwargs): (r: Snapshot)
    requires s.lmbda.Consistent()
    ensures r.lmbda.Consistent()
    ensures r.budget == Some(budget)
  {
    s.(budget := Some(budget), lmbda := ResetForRun(s.lmbda, policy, kw))
  }

  /** The reset at the start of a run keeps the invariant. */
  lemma StartRunKeepsValid(setup: Setup, s: Snapshot, budget: real, policy: Policy, kw: Kwargs)
    requires Valid(setup, s)
    ensures Valid(setup, StartRun(s, budget, policy, kw))
  {
    ResetKeepsLastIsCurrent(s.lmbda, policy, kw);
  }

  /** One more step of a run; a run that has stopped on an error stays stopped. */
  function Advance(setup: Setup, o: RunOutcome, policy: Policy, kw: Kwargs, input: StepInput): (r: RunOutcome)
    requires o.state.lmbda.Consistent()
    ensures r.state.lmbda.Consistent()
    ensures o.error.Some? ==> r == o
  {
    if o.error.Some? then o
    else
      var step := Step(setup, o.state, policy, kw, input);
      if step.Ok? then RunOutcome(step.value.next, None) else RunOutcome(o.state, Some(step.error))
  }

  /** The first `n` steps of a run from `start`, stopping at the first error. */
  function Steps(setup: Setup, start: Snapshot, n: nat, policy: Policy, kw: Kwargs, oracle: nat -> StepInput): (r: RunOutcome)
    requires start.lmbda.Consistent()
    ensures r.state.lmbda.Consistent()
  {
    if n == 0 then RunOutcome(start, None)
    else Advance(setup, Steps(setup, start, n - 1, policy, kw, oracle), policy, kw, oracle(n - 1))
  }


  /**
   * Recording an observation appends it, appends the new best value and the new
   * cumulative cost, which adds the cost of the queried point, and sets the
   * re-arm flag when the trigger fires on a λ schedule.
   */
  lemma RecordFields(setup: Setup, s: Snapshot, st: LambdaState, policy: Policy, kw: Kwargs, input: StepInput)
    requires |s.y| > 0 && st.Consistent()
    ensures var t := Record(setup, s, st, policy, kw, input);
      && t.x == s.x + [input.point] && t.y == s.y + [input.objectiveValue]
      && t.bestF == Best(setup.maximize, t.y)
      && t.bestHistory == s.bestHistory + [t.bestF]
      && t.cumulativeCost == s.cumulativeCost + Increment(setup.cost, input.point)
      && t.costHistory == s.costHistory + [t.cumulativeCost]
      && t.budget == s.budget
      && t.lmbda == st.(need := st.need || (Rearms(policy, kw) && Fires(setup.maximize, input.acquisitionValue, t.bestF)))
      && t.currentAcq == Some(input.acquisitionValue)
  {
  }

  /** Appending an observation extends the best history and the cost history by one entry each. */
  lemma HistoriesAppend(setup: Setup, s: Snapshot, t: Snapshot, p: Point, v: real)
    requires Valid(setup, s)
    requires t.x == s.x + [p] && t.y == s.y + [v]
    requires t.bestHistory == s.bestHistory + [Best(setup.maximize, t.y)]
    requires t.costHistory == s.costHistory + [s.cumulativeCost + Increment(setup.cost, p)]
    ensures t.bestHistory == RunningBest(setup.maximize, t.y, setup.initialCount)
    ensures t.costHistory == RunningCost(setup.cost, t.x[setup.initialCount..])
  {
    var m := setup.initialCount;
    RunningBestAppend(setup.maximize, s.y, m, v);
    assert t.x[m..] == s.x[m..] + [p];
    RunningCostAppend(setup.cost, s.x[m..], p);
  }

  /**
   * Appending an observation, the best value so far and the cost so far keeps
   * the invariant.
   */
  lemma AppendKeepsValid(setup: Setup, s: Snapshot, t: Snapshot, p: Point, v: real)
    requires Valid(setup, s)
    requires t.x == s.x + [p] && t.y == s.y + [v]
    requires t.bestF == Best(setup.maximize, t.y) && t.bestHistory == s.bestHistory + [t.bestF]
    requires t.cumulativeCost == s.cumulativeCost + Increment(setup.cost, p)
    requires t.costHistory == s.costHistory + [t.cumulativeCost]
    requires t.lmbda.Consistent() && t.lmbda.LastIsCurrent()
    ensures Valid(setup, t)
  {
    HistoriesAppend(setup, s, t, p, v);
  }

  /** Recording an observation keeps the invariant. */
  lemma RecordKeepsValid(setup: Setup, s: Snapshot, st: LambdaState, policy: Policy, kw: Kwargs, input: StepInput)
    requires Valid(setup, s) && st.Consistent() && st.LastIsCurrent()
    ensures Valid(setup, Record(setup, s, st, policy, kw, input))
  {
    RecordFields(setup, s, st, policy, kw, input);
    AppendKeepsValid(setup, s, Record(setup, s, st, policy, kw, input), input.point, input.objectiveValue);
  }


  /** A successful step keeps the invariant; a failed one leaves the state as it was. */
  lemma StepKeepsValid(setup: Setup, s: Snapshot, policy: Policy, kw: Kwargs, input: StepInput)
    requires Valid(setup, s)
    requires Step(setup, s, policy, kw, input).Ok?
    ensures var t := Step(setup, s, policy, kw, input).value.next;
      && Valid(setup, t)
      && |t.costHistory| == |s.costHistory| + 1
      && t.cumulativeCost == s.cumulativeCost + Increment(setup.cost, input.point)
  {
    var a := Assemble(setup.maximize, setup.cost, s.bestF, s.budget, s.cumulativeCost,
                      s.lmbda, policy, kw, input.subsidiaryMax);
    if policy.GittinsIndex? {
      SelectKeepsLastIsCurrent(setup.cost, s.lmbda, kw, input.subsidiaryMax);
    }
    RecordFields(setup, s, a.value.lmbda, policy, kw, input);
    RecordKeepsValid(setup, s, a.value.lmbda, policy, kw, input);
  }

  /** The state after a step, whether it succeeded or raised, is valid. */
  lemma StepOutcomeValid(setup: Setup, s: Snapshot, policy: Policy, kw: Kwargs, input: StepInput, t: Snapshot)
    requires Valid(setup, s)
    requires var r := Step(setup, s, policy, kw, input);
      (r.Ok? ==> t == r.value.next) && (r.Err? ==> t == s)
    ensures Valid(setup, t)
  {
    if Step(setup, s, policy, kw, input).Ok? {
      StepKeepsValid(setup, s, policy, kw, input);
    }
  }

  /**
   * On a λ schedule of the Gittins index, a successful step leaves a recompute
   * pending exactly when the re-arm trigger fires against the new best value;
   * under any other policy or option set the flag is left as it was.
   */
  lemma StepRearms(setup: Setup, s: Snapshot, policy: Policy, kw: Kwargs, input: StepInput)
    requires s.lmbda.Consistent()
    requires Step(setup, s, policy, kw, input).Ok?
    ensures var t := Step(setup, s, policy, kw, input).value.next;
      && (Rearms(policy, kw) ==> t.lmbda.need == Fires(setup.maximize, input.acquisitionValue, t.bestF))
      && (!Rearms(policy, kw) ==> t.lmbda == s.lmbda)
  {
    var r := Assemble(setup.maximize, setup.cost, s.bestF, s.budget, s.cumulativeCost,
                      s.lmbda, policy, kw, input.subsidiaryMax);
    if policy.GittinsIndex? {
      GittinsArgs(setup.maximize, setup.cost, s.bestF, s.budget, s.cumulativeCost, s.lmbda, kw, input.subsidiaryMax);
    }
  }

  /**
   * Entry i of the best-value history is the best of the observations made by
   * then, so the history never gets worse in the optimization direction.
   */
  lemma BestHistoryMonotone(setup: Setup, s: Snapshot)
    requires Valid(setup, s)
    ensures forall i :: 0 <= i < |s.bestHistory| ==>
      s.bestHistory[i] == Best(setup.maximize, s.y[..setup.initialCount + i])
    ensures forall i, j :: 0 <= i <= j < |s.bestHistory| ==>
      AtLeastAsGood(setup.maximize, s.bestHistory[j], s.bestHistory[i])
  {
    assert s.bestHistory == RunningBest(setup.maximize, s.y, setup.initialCount);
    RunningBestMonotone(setup.maximize, s.y, setup.initialCount);
  }

  /** With a constant cost c, the k-th cost-history entry is k·c (exactly, in reals). */
  lemma ConstantCostHistory(setup: Setup, s: Snapshot, c: real)
    requires Valid(setup, s) && setup.cost == Constant(c)
    ensures forall k :: 0 <= k < |s.costHistory| ==> s.costHistory[k] == k as real * c
    ensures s.cumulativeCost == (|s.costHistory| - 1) as real * c
  {
    ConstantRunningCost(c, s.x[setup.initialCount..]);
    assert s.costHistory == RunningCost(Constant(c), s.x[setup.initialCount..]);
    assert s.costHistory[|s.costHistory| - 1] == (|s.costHistory| - 1) as real * c;
  }

  /** Entry k of the cost history is the total cost of the first k queries after the initial batch. */
  lemma CostHistoryEntries(setup: Setup, s: Snapshot)
    requires Valid(setup, s)
    ensures |s.costHistory| == |s.x| - setup.initialCount + 1
    ensures forall k :: 0 <= k < |s.costHistory| ==>
      s.costHistory[k] == TotalCost(setup.cost, s.x[setup.initialCount..][..k])
  {
    forall k | 0 <= k < |s.costHistory|
      ensures s.costHistory[k] == TotalCost(setup.cost, s.x[setup.initialCount..][..k])
    {
      RunningCostAt(setup.cost, s.x[setup.initialCount..], k);
    }
  }

  /** When no observed query had a negative cost, the cumulative cost never decreases. */
  lemma CostHistoryNonDecreasing(setup: Setup, s: Snapshot)
    requires Valid(setup, s)
    requires forall i :: setup.initialCount <= i < |s.x| ==> Increment(setup.cost, s.x[i]) >= 0.0
    ensures forall i, j :: 0 <= i <= j < |s.costHistory| ==> 0.0 <= s.costHistory[i] <= s.costHistory[j]
  {
    var queries := s.x[setup.initialCount..];
    forall i, j | 0 <= i <= j < |s.costHistory|
      ensures 0.0 <= s.costHistory[i] <= s.costHistory[j]
    {
      RunningCostAt(setup.cost, queries, i);
      RunningCostAt(setup.cost, queries, j);
      assert queries[..j][..i] == queries[..i];
      TotalCostPrefix(setup.cost, queries[..j], i);
    }
  }

  /**
   * Against a global optimum no observation beats, every regret entry is
   * non-negative, and the regret history never grows.
   */
  lemma RegretBounds(setup: Setup, s: Snapshot, globalOptimum: real)
    requires Valid(setup, s)
    requires forall i :: 0 <= i < |s.y| ==> AtLeastAsGood(setup.maximize, globalOptimum, s.y[i])
    ensures var r := RegretHistory(setup.maximize, globalOptimum, s.bestHistory);
      && (forall i :: 0 <= i < |r| ==> r[i] >= 0.0)
      && (forall i, j :: 0 <= i <= j < |r| ==> r[j] <= r[i])
  {
    var r := RegretHistory(setup.maximize, globalOptimum, s.bestHistory);
    BestHistoryMonotone(setup, s);
    forall i | 0 <= i < |r| ensures r[i] >= 0.0 {
      var prefix := s.y[..setup.initialCount + i];
      BestIsBest(setup.maximize, prefix);
      var k :| 0 <= k < |prefix| && prefix[k] == Best(setup.maximize, prefix);
      assert s.y[k] == s.bestHistory[i];
    }
    RegretFollowsBest(setup.maximize, globalOptimum, s.bestHistory);
  }

  /** One more step of a run keeps the invariant. */
  lemma AdvanceKeepsValid(setup: Setup, o: RunOutcome, policy: Policy, kw: Kwargs, input: StepInput)
    requires Valid(setup, o.state)
    ensures Valid(setup, Advance(setup, o, policy, kw, input).state)
  {
    if o.error.None? && Step(setup, o.state, policy, kw, input).Ok? {
      StepKeepsValid(setup, o.state, policy, kw, input);
    }
  }

  /** Once a run has stopped on an error, later steps change nothing. */
  lemma {:induction false} StepsStopAtError(setup: Setup, start: Snapshot, k: nat, n: nat, policy: Policy, kw: Kwargs, oracle: nat -> StepInput)
    requires start.lmbda.Consistent() && k <= n
    requires Steps(setup, start, k, policy, kw, oracle).error.Some?
    ensures Steps(setup, start, n, policy, kw, oracle) == Steps(setup, start, k, policy, kw, oracle)
    decreases n
  {
    if n > k {
      StepsStopAtError(setup, start, k, n - 1, policy, kw, oracle);
    }
  }

  /** A run keeps the invariant. */
  lemma {:induction false} StepsKeepValid(setup: Setup, start: Snapshot, n: nat, policy: Policy, kw: Kwargs, oracle: nat -> StepInput)
    requires Valid(setup, start)
    ensures Valid(setup, Steps(setup, start, n, policy, kw, oracle).state)
  {
    if n > 0 {
      var before := Steps(setup, start, n - 1, policy, kw, oracle);
      StepsKeepValid(setup, start, n - 1, policy, kw, oracle);
      AdvanceKeepsValid(setup, before, policy, kw, oracle(n - 1));
      assert Steps(setup, start, n, policy, kw, oracle) == Advance(setup, before, policy, kw, oracle(n - 1));
    }
  }

  /** Each step a run completes without error adds exactly one cost-history entry. */
  lemma {:induction false} StepsCostLength(setup: Setup, start: Snapshot, n: nat, policy: Policy, kw: Kwargs, oracle: nat -> StepInput)
    requires start.lmbda.Consistent()
    ensures var r := Steps(setup, start, n, policy, kw, oracle);
      r.error.None? ==> |r.state.costHistory| == |start.costHistory| + n
  {
    if n > 0 {
      StepsCostLength(setup, start, n - 1, policy, kw, oracle);
      var before := Steps(setup, start, n - 1, policy, kw, oracle);
      if before.error.None? {
        var r := Step(setup, before.state, policy, kw, oracle(n - 1));
        if r.Ok? {
          var a := Assemble(setup.maximize, setup.cost, before.state.bestF, before.state.budget,
                            before.state.cumulativeCost, before.state.lmbda, policy, kw, oracle(n - 1).subsidiaryMax);
          assert r.value.next == Record(setup, before.state, a.value.lmbda, policy, kw, oracle(n - 1));
        }
      }
    }
  }

  /** Step n of a run, once the first n steps have raised no error. */
  lemma StepsExtend(setup: Setup, start: Snapshot, n: nat, policy: Policy, kw: Kwargs, oracle: nat -> StepInput)
    requires start.lmbda.Consistent()
    requires Steps(setup, start, n, policy, kw, oracle).error.None?
    ensures var s := Steps(setup, start, n, policy, kw, oracle).state;
      var r := Step(setup, s, policy, kw, oracle(n));
      Steps(setup, start, n + 1, policy, kw, oracle) ==
        if r.Ok? then RunOutcome(r.value.next, None) else RunOutcome(s, Some(r.error))
  {
  }

  /** Each of the first n steps began without error and with the cumulative cost below the budget. */
  ghost predicate StartedBelowBudget(setup: Setup, start: Snapshot, budget: real, n: nat,
                                     policy: Policy, kw: Kwargs, oracle: nat -> StepInput)
    requires start.lmbda.Consistent()
  {
    forall k :: 0 <= k < n ==>
      Steps(setup, start, k, policy, kw, oracle).error.None? &&
      Steps(setup, start, k, policy, kw, oracle).state.cumulativeCost < budget
  }

  /** A step begun without error and below the budget extends the steps that did. */
  lemma StartedBelowBudgetExtend(setup: Setup, start: Snapshot, budget: real, n: nat,
                                 policy: Policy, kw: Kwargs, oracle: nat -> StepInput)
    requires start.lmbda.Consistent()
    requires StartedBelowBudget(setup, start, budget, n, policy, kw, oracle)
    requires Steps(setup, start, n, policy, kw, oracle).error.None?
    requires Steps(setup, start, n, policy, kw, oracle).state.cumulativeCost < budget
    ensures StartedBelowBudget(setup, start, budget, n + 1, policy, kw, oracle)
  {
    forall k | 0 <= k < n + 1
      ensures Steps(setup, start, k, policy, kw, oracle).error.None?
      ensures Steps(setup, start, k, policy, kw, oracle).state.cumulativeCost < budget
    {
      if k < n {
        assert StartedBelowBudget(setup, start, budget, n, policy, kw, oracle);
      }
    }
  }

  /** A step of non-negative cost that succeeds follows a step that succeeded and cost no more. */
  lemma StepBack(setup: Setup, start: Snapshot, k: nat, policy: Policy, kw: Kwargs, oracle: nat -> StepInput)
    requires Valid(setup, start)
    requires Increment(setup.cost, oracle(k).point) >= 0.0
    requires Steps(setup, start, k + 1, policy, kw, oracle).error.None?
    ensures Steps(setup, start, k, policy, kw, oracle).error.None?
    ensures Steps(setup, start, k, policy, kw, oracle).state.cumulativeCost <=
            Steps(setup, start, k + 1, policy, kw, oracle).state.cumulativeCost
  {
    var before := Steps(setup, start, k, policy, kw, oracle);
    assert before.error.None?;
    StepsKeepValid(setup, start, k, policy, kw, oracle);
    StepKeepsValid(setup, before.state, policy, kw, oracle(k));
  }

  /**
   * With queries of non-negative cost, a run whose last step began without error
   * and below the budget began each earlier step k that way too: the cumulative
   * cost never falls.
   */
  lemma {:induction false} BeganBelowBudget(setup: Setup, start: Snapshot, budget: real, n: nat, k: nat,
                                            policy: Policy, kw: Kwargs, oracle: nat -> StepInput)
    requires Valid(setup, start)
    requires forall i: nat :: Increment(setup.cost, oracle(i).point) >= 0.0
    requires k < n
    requires Steps(setup, start, n - 1, policy, kw, oracle).error.None?
    requires Steps(setup, start, n - 1, policy, kw, oracle).state.cumulativeCost < budget
    ensures Steps(setup, start, k, policy, kw, oracle).error.None?
    ensures Steps(setup, start, k, policy, kw, oracle).state.cumulativeCost < budget
  {
    if k < n - 1 {
      StepBack(setup, start, n - 2, policy, kw, oracle);
      BeganBelowBudget(setup, start, budget, n - 1, k, policy, kw, oracle);
    }
  }

  /** The same, for every earlier step at once. */
  lemma BudgetPrefix(setup: Setup, start: Snapshot, budget: real, n: nat,
                     policy: Policy, kw: Kwargs, oracle: nat -> StepInput)
    requires Valid(setup, start)
    requires forall i: nat :: Increment(setup.cost, oracle(i).point) >= 0.0
    requires n > 0 ==>
      Steps(setup, start, n - 1, policy, kw, oracle).error.None? &&
      Steps(setup, start, n - 1, policy, kw, oracle).state.cumulativeCost < budget
    ensures StartedBelowBudget(setup, start, budget, n, policy, kw, oracle)
  {
    forall k | 0 <= k < n
      ensures Steps(setup, start, k, policy, kw, oracle).error.None?
      ensures Steps(setup, start, k, policy, kw, oracle).state.cumulativeCost < budget
    {
      BeganBelowBudget(setup, start, budget, n, k, policy, kw, oracle);
    }
  }

  /**
   * Where `run_until_budget` stops: it never starts a step once the cumulative
   * cost has reached the budget, and it stops either on an error or with the
   * budget reached.
   */
  ghost predicate StopsAtBudget(setup: Setup, start: Snapshot, budget: real, steps: nat,
                                policy: Policy, kw: Kwargs, oracle: nat -> StepInput)
    requires start.lmbda.Consistent()
  {
    var r := Steps(setup, start, steps, policy, kw, oracle);
    && (r.error.None? ==> r.state.cumulativeCost >= budget)
    && StartedBelowBudget(setup, start, budget, steps, policy, kw, oracle)
  }

  /** The stopping point of a budgeted run is unique. */
  lemma BudgetStopUnique(setup: Setup, start: Snapshot, budget: real, a: nat, b: nat,
                         policy: Policy, kw: Kwargs, oracle: nat -> StepInput)
    requires start.lmbda.Consistent()
    requires StopsAtBudget(setup, start, budget, a, policy, kw, oracle)
    requires StopsAtBudget(setup, start, budget, b, policy, kw, oracle)
    ensures a == b
  {
  }

  /** The least amount `steps` steps of cost at least `minCost` spend: `minCost`, `steps` times over. */
  ghost function Scaled(steps: nat, minCost: real): real
  {
    if steps == 0 then 0.0 else Scaled(steps - 1, minCost) + minCost
  }

  lemma {:induction false} ScaledIsProduct(steps: nat, minCost: real)
    ensures Scaled(steps, minCost) == steps as real * minCost
  {
    if steps > 0 {
      ScaledIsProduct(steps - 1, minCost);
    }
  }

  /** Some number of steps, each costing at least `minCost`, closes a gap of `gap`. */
  lemma StepBoundExists(gap: real, minCost: real) returns (n: nat)
    requires minCost > 0.0
    ensures gap <= Scaled(n, minCost)
  {
    if gap <= 0.0 {
      n := 0;
    } else {
      var q := gap / minCost;
      assert q * minCost == gap;
      assert q < (q.Floor + 1) as real;
      MultiplyBelow(q, (q.Floor + 1) as real, minCost);
      ScaledIsProduct(q.Floor + 1, minCost);
      n := q.Floor + 1;
    }
  }

  lemma MultiplyBelow(a: real, b: real, m: real)
    requires a < b && m > 0.0
    ensures a * m < b * m
  {
  }

  /** A run whose queries each cost at least `minCost` spends at least that much per step completed. */
  lemma {:induction false} StepsSpendAtLeast(setup: Setup, start: Snapshot, n: nat, minCost: real,
                                             policy: Policy, kw: Kwargs, oracle: nat -> StepInput)
    requires Valid(setup, start)
    requires forall i: nat :: Increment(setup.cost, oracle(i).point) >= minCost
    ensures var r := Steps(setup, start, n, policy, kw, oracle);
      r.error.None? ==> r.state.cumulativeCost - start.cumulativeCost >= Scaled(n, minCost)
  {
    if n > 0 {
      StepsSpendAtLeast(setup, start, n - 1, minCost, policy, kw, oracle);
      SpendStep(setup, start, n - 1, minCost, policy, kw, oracle);
    }
  }

  /** The inductive step of StepsSpendAtLeast: step m adds the cost of its query. */
  lemma SpendStep(setup: Setup, start: Snapshot, m: nat, minCost: real,
                  policy: Policy, kw: Kwargs, oracle: nat -> StepInput)
    requires Valid(setup, start)
    requires Increment(setup.cost, oracle(m).point) >= minCost
    requires var r := Steps(setup, start, m, policy, kw, oracle);
      r.error.None? ==> r.state.cumulativeCost - start.cumulativeCost >= Scaled(m, minCost)
    ensures var r := Steps(setup, start, m + 1, policy, kw, oracle);
      r.error.None? ==> r.state.cumulativeCost - start.cumulativeCost >= Scaled(m + 1, minCost)
  {
    var before := Steps(setup, start, m, policy, kw, oracle);
    if before.error.None? {
      StepsKeepValid(setup, start, m, policy, kw, oracle);
      StepsExtend(setup, start, m, policy, kw, oracle);
      if Step(setup, before.state, policy, kw, oracle(m)).Ok? {
        StepKeepsValid(setup, before.state, policy, kw, oracle(m));
      }
    }
  }

  /**
   * When every query costs at least some positive amount, a budgeted run ends:
   * within `bound` steps it either raises or reaches the budget.
   */
  lemma MinCostReachesBudget(setup: Setup, start: Snapshot, budget: real, minCost: real,
                             policy: Policy, kw: Kwargs, oracle: nat -> StepInput) returns (bound: nat)
    requires Valid(setup, start)
    requires minCost > 0.0 && forall i: nat :: Increment(setup.cost, oracle(i).point) >= minCost
    ensures var r := Steps(setup, start, bound, policy, kw, oracle);
      r.error.Some? || r.state.cumulativeCost >= budget
  {
    bound := StepBoundExists(budget - start.cumulativeCost, minCost);
    StepsSpendAtLeast(setup, start, bound, minCost, policy, kw, oracle);
  }
}
