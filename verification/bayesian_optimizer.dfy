/**
 * The `BayesianOptimizer` controller: its fields, updated in place step by step,
 * and its methods, each proved to follow the state machine of module Controller.
 * Surrogate fitting, acquisition optimization and objective evaluation are external:
 * their answers arrive as StepInput values, one per step (`oracle(i)` for step i).
 */
module BayesOpt {
  import opened Wrappers
  import opened Costs
  import opened Observations
  import opened Options
  import opened LambdaScheduler
  import opened Acquisition
  import opened Controller

  class BayesianOptimizer {
    const maximize: bool
    const dim: nat
    const cost: CostModel
    /** How many observations the initial batch held. */
    ghost const initialCount: nat

    var x: seq<Point>
    var y: seq<real>
    var bestF: real
    var bestHistory: seq<real>
    var cumulativeCost: real
    var costHistory: seq<real>
    /** Set by `run`/`run_until_budget`; None before the first run. */
    var budget: Option<real>
    /** Whether a run has created the three λ attributes below. */
    var lmbdaReady: bool
    var currentLmbda: Option<real>
    var needLmbdaUpdate: bool
    var lmbdaHistory: seq<real>
    var currentAcq: Option<real>

    ghost function Config(): Setup
    {
      Setup(maximize, cost, initialCount)
    }

    /** The abstract value of the optimizer's fields. */
    ghost function State(): Snapshot
      reads this
    {
      Snapshot(x, y, bestF, bestHistory, cumulativeCost, costHistory, budget,
               LambdaState(lmbdaReady, currentLmbda, needLmbdaUpdate, lmbdaHistory), currentAcq)
    }

    ghost predicate Valid()
      reads this
    {
      Controller.Valid(Config(), State())
    }

    /**
     * `__init__`: evaluate the initial batch, record its best value, and start
     * the cost ledger at zero. A missing cost model means a constant cost of 1.
     */
    constructor (dim: nat, maximize: bool, initialPoints: seq<Point>, initialValues: seq<real>, cost: Option<CostModel>)
      requires |initialPoints| == |initialValues| > 0
      ensures Valid()
      ensures this.maximize == maximize && this.dim == dim
      ensures this.cost == (if cost.Some? then cost.value else Constant(1.0))
      ensures x == initialPoints && y == initialValues
      ensures bestF == Best(maximize, initialValues) && bestHistory == [bestF]
      ensures cumulativeCost == 0.0 && costHistory == [0.0]
      ensures budget.None? && !lmbdaReady && currentAcq.None?
    {
      this.maximize := maximize;
      this.dim := dim;
      this.cost := if cost.Some? then cost.value else Constant(1.0);
      initialCount := |initialPoints|;
      bestF := 0.0;
      bestHistory := [];
      cumulativeCost := 0.0;
      costHistory := [0.0];
      x, y := [], [];
      budget := None;
      lmbdaReady, currentLmbda, needLmbdaUpdate, lmbdaHistory := false, None, false, [];
      currentAcq := None;
      new;
      InitializePoints(initialPoints, initialValues);
      assert y[..initialCount + 0] == y;
    }

    /** `initialize_points`: take the initial batch and its values, then record the best. */
    method InitializePoints(points: seq<Point>, values: seq<real>)
      requires |points| == |values| > 0
      modifies this`x, this`y, this`bestF, this`bestHistory
      ensures x == points && y == values
      ensures bestF == Best(maximize, values)
      ensures bestHistory == old(bestHistory) + [bestF]
    {
      x := points;
      y := values;
      UpdateBest();
    }

    /** `update_best`: the best of all values so far, appended to the best history. */
    method UpdateBest()
      requires |y| > 0
      modifies this`bestF, this`bestHistory
      ensures bestF == Best(maximize, y)
      ensures forall i :: 0 <= i < |y| ==> AtLeastAsGood(maximize, bestF, y[i])
      ensures bestHistory == old(bestHistory) + [bestF]
    {
      bestF := if maximize then SeqMax(y) else SeqMin(y);
      bestHistory := bestHistory + [bestF];
      BestIsBest(maximize, y);
    }

    /** `update_cost`: charge the query at `p` and append the new total to the cost history. */
    method UpdateCost(p: Point)
      modifies this`cumulativeCost, this`costHistory
      ensures cumulativeCost == old(cumulativeCost) + Increment(cost, p)
      ensures costHistory == old(costHistory) + [cumulativeCost]
    {
      if cost.Callable? {
        cumulativeCost := cumulativeCost + Sum(cost.charge(p));
      } else {
        cumulativeCost := cumulativeCost + cost.amount;
      }
      costHistory := costHistory + [cumulativeCost];
    }

    /** The λ attributes as one value. */
    ghost function Lambda(): LambdaState
      reads this
    {
      LambdaState(lmbdaReady, currentLmbda, needLmbdaUpdate, lmbdaHistory)
    }

    /**
     * The Gittins-index branch of `iterate` (lines 79-125): run the λ schedule the
     * options select and return the λ entry of the parameter record.
     */
    method ChooseLambda(kw: Kwargs, subsidiaryMax: real) returns (lmbda: Arg, err: Option<Error>)
      requires Lambda().Consistent()
      modifies this`currentLmbda, this`needLmbdaUpdate, this`lmbdaHistory
      ensures var r := Select(cost, old(Lambda()), kw, subsidiaryMax);
        && (r.Ok? ==> err.None? && lmbda == r.value.0 && Lambda() == r.value.1)
        && (r.Err? ==> err == Some(r.error) && Lambda() == old(Lambda()))
    {
      lmbda, err := Opaque, None;
      if IsTrue(kw, "step_EIpu") {
        if !lmbdaReady {
          return Opaque, Some(AttributeError("need_lmbda_update"));
        }
        if needLmbdaUpdate {
          if cost.Callable? {
            currentLmbda := Some(NextEIpuLambda(currentLmbda, subsidiaryMax));
          } else {
            return Opaque, Some(UnboundLocalError("alpha"));
          }
          needLmbdaUpdate := false;
        }
        lmbda := Num(currentLmbda.value);
        lmbdaHistory := lmbdaHistory + [currentLmbda.value];
      } else if IsTrue(kw, "step_halving") {
        if !lmbdaReady {
          return Opaque, Some(AttributeError("need_lmbda_update"));
        }
        if needLmbdaUpdate {
          if currentLmbda.None? {
            return Opaque, Some(TypeError);
          }
          currentLmbda := Some(currentLmbda.value / 2.0);
          needLmbdaUpdate := false;
        }
        lmbda := Num(currentLmbda.value);
        lmbdaHistory := lmbdaHistory + [currentLmbda.value];
      } else {
        if "lmbda" !in kw {
          return Opaque, Some(KeyError("lmbda"));
        }
        lmbda := kw["lmbda"];
      }
    }

    /**
     * Parameter assembly in `iterate` (lines 65-130): the record for the requested
     * policy, running the λ schedule for the Gittins index.
     */
    method AssembleArgs(policy: Policy, kw: Kwargs, subsidiaryMax: real) returns (acqArgs: Args, err: Option<Error>)
      requires Lambda().Consistent()
      modifies this`currentLmbda, this`needLmbdaUpdate, this`lmbdaHistory
      ensures var r := Assemble(maximize, cost, bestF, budget, cumulativeCost, old(Lambda()), policy, kw, subsidiaryMax);
        && (r.Ok? ==> err.None? && acqArgs == r.value.args && Lambda() == r.value.lmbda)
        && (r.Err? ==> err == Some(r.error) && Lambda() == old(Lambda()))
    {
      acqArgs, err := BaseArgs(maximize), None;
      match policy {
        case ExpectedImprovement =>
          acqArgs := acqArgs["best_f" := Num(bestF)];
        case ExpectedImprovementWithCost =>
          acqArgs := acqArgs["best_f" := Num(bestF)];
          acqArgs := acqArgs["cost" := CostArg(cost)];
          if IsTrue(kw, "cost_cooling") {
            if budget.None? {
              return map[], Some(AttributeError("budget"));
            }
            if budget.value == 0.0 {
              return map[], Some(ZeroDivisionError);
            }
            acqArgs := acqArgs["alpha" := Num(CoolingAlpha(budget.value, cumulativeCost))];
          }
        case GittinsIndex =>
          var lmbda;
          lmbda, err := ChooseLambda(kw, subsidiaryMax);
          if err.Some? {
            return map[], err;
          }
          acqArgs := acqArgs["lmbda" := lmbda];
          acqArgs := acqArgs["cost" := CostArg(cost)];
        case OtherPolicy(_) =>
          acqArgs := acqArgs + kw;
      }
    }

    /**
     * Lines 142-148 of `iterate`: keep the attained acquisition value, append the
     * new observation, then update the best value and the cost ledger.
     */
    method AppendObservation(input: StepInput)
      requires |y| > 0
      modifies this`currentAcq, this`x, this`y, this`bestF, this`bestHistory, this`cumulativeCost, this`costHistory
      ensures currentAcq == Some(input.acquisitionValue)
      ensures x == old(x) + [input.point] && y == old(y) + [input.objectiveValue]
      ensures bestF == Best(maximize, y) && bestHistory == old(bestHistory) + [bestF]
      ensures cumulativeCost == old(cumulativeCost) + Increment(cost, input.point)
      ensures costHistory == old(costHistory) + [cumulativeCost]
    {
      currentAcq := Some(input.acquisitionValue);
      x := x + [input.point];
      y := y + [input.objectiveValue];
      UpdateBest();
      UpdateCost(input.point);
    }

    /**
     * The bookkeeping half of `iterate` (lines 142-153): record the observation,
     * then re-arm the λ schedule if the trigger fires.
     */
    method RecordObservation(policy: Policy, kw: Kwargs, input: StepInput, ghost before: Snapshot)
      requires |y| > 0 && Lambda().Consistent()
      requires before == State().(lmbda := before.lmbda)
      modifies this
      ensures State() == Record(Config(), before, old(Lambda()), policy, kw, input)
    {
      AppendObservation(input);
      if Rearms(policy, kw) && Fires(maximize, input.acquisitionValue, bestF) {
        needLmbdaUpdate := true;
      }
      RecordFields(Config(), before, old(Lambda()), policy, kw, input);
    }

    /**
     * `iterate`: assemble the acquisition parameters, take the collaborators'
     * answers from `input`, and record the observation and its cost. Returns the
     * parameter record handed to the acquisition class, or the error raised, in
     * which case nothing has changed. Either way the invariant still holds.
     */
    method Iterate(policy: Policy, kw: Kwargs, input: StepInput) returns (acqArgs: Args, err: Option<Error>)
      requires Valid()
      modifies this
      ensures Valid()
      ensures var r := Step(Config(), old(State()), policy, kw, input);
        && (r.Ok? ==> err.None? && acqArgs == r.value.args && State() == r.value.next)
        && (r.Err? ==> err == Some(r.error) && State() == old(State()))
    {
      acqArgs, err := AssembleArgs(policy, kw, input.subsidiaryMax);
      if err.Some? {
        return;
      }
      RecordObservation(policy, kw, input, old(State()));
      StepOutcomeValid(Config(), old(State()), policy, kw, input, State());
    }

    /**
     * The λ reset at the start of `run` and `run_until_budget`: for a λ schedule
     * of the Gittins index, start it afresh (the halving reset overrides the
     * EIpu one when both options are set).
     */
    method ResetLambda(policy: Policy, kw: Kwargs)
      modifies this`lmbdaReady, this`currentLmbda, this`needLmbdaUpdate, this`lmbdaHistory
      ensures Lambda() == ResetForRun(old(Lambda()), policy, kw)
    {
      if policy.GittinsIndex? {
        if IsTrue(kw, "step_EIpu") {
          lmbdaReady, currentLmbda, needLmbdaUpdate, lmbdaHistory := true, None, true, [];
        }
        if IsTrue(kw, "step_halving") {
          lmbdaReady, currentLmbda, needLmbdaUpdate, lmbdaHistory := true, Some(InitialHalvingLambda), false, [];
        }
      }
    }

    /** The start of `run` and `run_until_budget`: store the budget, then reset λ. */
    method BeginRun(budget: real, policy: Policy, kw: Kwargs)
      requires Lambda().Consistent()
      modifies this`budget, this`lmbdaReady, this`currentLmbda, this`needLmbdaUpdate, this`lmbdaHistory
      ensures State() == StartRun(old(State()), budget, policy, kw)
    {
      this.budget := Some(budget);
      ResetLambda(policy, kw);
    }

    /**
     * One pass of the loop in `run` and `run_until_budget`: step i of the run
     * from `start`, with the answers `oracle(i)`.
     */
    method RunStep(policy: Policy, kw: Kwargs, oracle: nat -> StepInput, ghost start: Snapshot, i: nat)
      returns (err: Option<Error>)
      requires Valid() && start.lmbda.Consistent()
      requires Steps(Config(), start, i, policy, kw, oracle) == RunOutcome(State(), None)
      modifies this
      ensures Valid()
      ensures RunOutcome(State(), err) == Steps(Config(), start, i + 1, policy, kw, oracle)
      ensures err.None? ==> cumulativeCost == old(cumulativeCost) + Increment(cost, oracle(i).point)
    {
      StepsExtend(Config(), start, i, policy, kw, oracle);
      var acqArgs;
      acqArgs, err := Iterate(policy, kw, oracle(i));
    }

    /**
     * `run`: the iteration count doubles as the budget; then `numIterations`
     * steps, the answers of step i coming from `oracle(i)`. An error stops the
     * run where it was raised.
     */
    method Run(numIterations: int, policy: Policy, kw: Kwargs, oracle: nat -> StepInput) returns (err: Option<Error>)
      requires Valid()
      modifies this
      ensures Valid()
      ensures RunOutcome(State(), err) ==
        Steps(Config(), StartRun(old(State()), numIterations as real, policy, kw),
              if numIterations < 0 then 0 else numIterations, policy, kw, oracle)
    {
      BeginRun(numIterations as real, policy, kw);
      ghost var start := State();
      StartRunKeepsValid(Config(), old(State()), numIterations as real, policy, kw);
      var n: nat := if numIterations < 0 then 0 else numIterations;
      var i: nat := 0;
      err := None;
      while i < n && err.None?
        invariant i <= n && Valid()
        invariant RunOutcome(State(), err) == Steps(Config(), start, i, policy, kw, oracle)
      {
        err := RunStep(policy, kw, oracle, start, i);
        i := i + 1;
      }
      if err.Some? {
        StepsStopAtError(Config(), start, i, n, policy, kw, oracle);
      }
    }

    /**
     * `run_until_budget`: iterate while the cumulative cost is below the budget.
     * The loop ends exactly when some number of steps of the run either raises or
     * reaches the budget; `bound` is such a number (Controller.MinCostReachesBudget
     * gives one when every query costs at least some positive amount).
     */
    method RunUntilBudget(budget: real, policy: Policy, kw: Kwargs, oracle: nat -> StepInput, ghost bound: nat)
      returns (steps: nat, err: Option<Error>)
      requires Valid()
      requires var r := Steps(Config(), StartRun(State(), budget, policy, kw), bound, policy, kw, oracle);
        r.error.Some? || r.state.cumulativeCost >= budget
      modifies this
      ensures Valid()
      ensures steps <= bound
      ensures var start := StartRun(old(State()), budget, policy, kw);
        && RunOutcome(State(), err) == Steps(Config(), start, steps, policy, kw, oracle)
        && StopsAtBudget(Config(), start, budget, steps, policy, kw, oracle)
    {
      BeginRun(budget, policy, kw);
      ghost var start := State();
      ghost var last := Steps(Config(), start, bound, policy, kw, oracle);
      assert last.error.Some? || last.state.cumulativeCost >= budget;
      StartRunKeepsValid(Config(), old(State()), budget, policy, kw);
      steps, err := 0, None;
      // `self.budget` holds `budget` throughout: nothing in the loop assigns it.
      while err.None? && cumulativeCost < budget
        invariant Valid()
        invariant RunOutcome(State(), err) == Steps(Config(), start, steps, policy, kw, oracle)
        invariant StartedBelowBudget(Config(), start, budget, steps, policy, kw, oracle)
        invariant steps <= bound
        decreases bound - steps
      {
        assert steps != bound;
        StartedBelowBudgetExtend(Config(), start, budget, steps, policy, kw, oracle);
        err := RunStep(policy, kw, oracle, start, steps);
        steps := steps + 1;
      }
    }

    /** `get_best_value`: the best value observed so far. */
    function GetBestValue(): (r: real)
      requires Valid()
      reads this
      ensures r in y && r == Best(maximize, y)
      ensures forall i :: 0 <= i < |y| ==> AtLeastAsGood(maximize, r, y[i])
    {
      BestIsBest(maximize, y);
      bestF
    }

    /**
     * `get_best_history`: one entry for the initial batch, then one per step;
     * entry i is the best of the observations made by then.
     */
    function GetBestHistory(): (r: seq<real>)
      requires Valid()
      reads this
      ensures |r| == |y| - initialCount + 1
      ensures forall i :: 0 <= i < |r| ==> r[i] == Best(maximize, y[..initialCount + i])
      ensures forall i, j :: 0 <= i <= j < |r| ==> AtLeastAsGood(maximize, r[j], r[i])
    {
      BestHistoryMonotone(Config(), State());
      bestHistory
    }

    /** `get_cumulative_cost`: the total cost of the queries made after the initial batch. */
    function GetCumulativeCost(): (r: real)
      requires Valid()
      reads this
      ensures r == TotalCost(cost, x[initialCount..])
    {
      cumulativeCost
    }

    /**
     * `get_cost_history`: 0 before any step, then the cumulative cost after each
     * step; entry k is the total cost of the first k queries.
     */
    function GetCostHistory(): (r: seq<real>)
      requires Valid()
      reads this
      ensures |r| == |x| - initialCount + 1 && r[0] == 0.0 && r[|r| - 1] == cumulativeCost
      ensures forall k :: 0 <= k < |r| ==> r[k] == TotalCost(cost, x[initialCount..][..k])
    {
      CostHistoryEntries(Config(), State());
      costHistory
    }

    /**
     * `get_regret_history`: the gap to the global optimum of each best-history
     * entry. When no observation beats the optimum, regret is non-negative and
     * never grows.
     */
    function GetRegretHistory(globalOptimum: real): (r: seq<real>)
      requires Valid()
      reads this
      ensures |r| == |bestHistory|
      ensures forall i :: 0 <= i < |r| ==>
        r[i] == (if maximize then globalOptimum - bestHistory[i] else bestHistory[i] - globalOptimum)
      ensures (forall i :: 0 <= i < |y| ==> AtLeastAsGood(maximize, globalOptimum, y[i])) ==>
        (forall i :: 0 <= i < |r| ==> r[i] >= 0.0) && (forall i, j :: 0 <= i <= j < |r| ==> r[j] <= r[i])
    {
      if forall i :: 0 <= i < |y| ==> AtLeastAsGood(maximize, globalOptimum, y[i]) then
        RegretBounds(Config(), State(), globalOptimum);
        RegretHistory(maximize, globalOptimum, bestHistory)
      else
        RegretHistory(maximize, globalOptimum, bestHistory)
    }

    /**
     * `get_lmbda_history`: the λ values used, or AttributeError before any λ
     * schedule has run; its last entry is the λ now in force.
     */
    function GetLmbdaHistory(): (r: Result<seq<real>, Error>)
      requires Valid()
      reads this
      ensures r.Ok? <==> lmbdaReady
      ensures r.Ok? ==> r.value == lmbdaHistory
      ensures r.Ok? && |r.value| > 0 ==> currentLmbda == Some(r.value[|r.value| - 1])
      ensures r.Err? ==> r.error == AttributeError("lmbda_history")
    {
      if lmbdaReady then Ok(lmbdaHistory) else Err(AttributeError("lmbda_history"))
    }
  }
}
