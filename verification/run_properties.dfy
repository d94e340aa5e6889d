/**
 * What a whole run does with the λ schedule of the Gittins index and with a
 * constant cost: properties of Controller.Steps from the state StartRun leaves.
 */
module RunProperties {
  import opened Wrappers
  import opened Costs
  import opened Options
  import opened LambdaScheduler
  import opened Acquisition
  import opened Controller

  // ---------------------------------------------------------------------------
  // One step of each λ schedule
  // ---------------------------------------------------------------------------

  /**
   * A halving step: λ is halved when a recompute is pending and kept otherwise,
   * the value used is appended to the λ history, and the step succeeds.
   */
  lemma HalvingStep(setup: Setup, s: Snapshot, kw: Kwargs, input: StepInput)
    requires IsTrue(kw, "step_halving") && !IsTrue(kw, "step_EIpu")
    requires s.lmbda.ready && s.lmbda.current.Some?
    ensures var r := Step(setup, s, GittinsIndex, kw, input);
      var l := if s.lmbda.need then s.lmbda.current.value / 2.0 else s.lmbda.current.value;
      && r.Ok?
      && r.value.next.lmbda.ready
      && r.value.next.lmbda.current == Some(l)
      && r.value.next.lmbda.history == s.lmbda.history + [l]
  {
  }

  /**
   * An EIpu step under a callable cost: λ becomes the smaller of the previous λ
   * and half the subsidiary maximum when a recompute is pending, and is kept
   * otherwise; the value used is appended to the λ history.
   */
  lemma EIpuStep(setup: Setup, s: Snapshot, kw: Kwargs, input: StepInput)
    requires setup.cost.Callable? && IsTrue(kw, "step_EIpu")
    requires s.lmbda.ready && s.lmbda.Consistent()
    ensures var r := Step(setup, s, GittinsIndex, kw, input);
      var l := if s.lmbda.need then NextEIpuLambda(s.lmbda.current, input.subsidiaryMax) else s.lmbda.current.value;
      && r.Ok?
      && r.value.next.lmbda.ready
      && r.value.next.lmbda.current == Some(l)
      && r.value.next.lmbda.history == s.lmbda.history + [l]
  {
  }

  // ---------------------------------------------------------------------------
  // The halving schedule over a run
  // ---------------------------------------------------------------------------

  /** λ after k halvings of the starting value. */
  ghost function HalvedLambda(k: nat): real
  {
    if k == 0 then InitialHalvingLambda else HalvedLambda(k - 1) / 2.0
  }

  /** k halvings leave 0.1 / 2^k, which is positive and never grows with k. */
  lemma {:induction false} HalvedLambdaIs(k: nat)
    ensures HalvedLambda(k) == InitialHalvingLambda / Pow2(k)
    ensures HalvedLambda(k) > 0.0
  {
    if k > 0 {
      HalvedLambdaIs(k - 1);
    }
  }

  lemma {:induction false} HalvedLambdaMonotone(a: nat, b: nat)
    requires a <= b
    ensures HalvedLambda(b) <= HalvedLambda(a)
  {
    if a < b {
      HalvedLambdaMonotone(a, b - 1);
      HalvedLambdaIs(b - 1);
    }
  }

  /** Halving λ after k halvings, or keeping it, gives λ after k + 1 or k halvings. */
  lemma HalvedOnce(l: real, k: nat, halve: bool)
    requires l == HalvedLambda(k)
    ensures (if halve then l / 2.0 else l) == HalvedLambda(if halve then k + 1 else k)
  {
  }

  /** Step n of a halving run, from the state of the first n steps. */
  lemma HalvingAdvance(setup: Setup, start: Snapshot, n: nat, kw: Kwargs, oracle: nat -> StepInput)
    requires start.lmbda.Consistent()
    requires IsTrue(kw, "step_halving") && !IsTrue(kw, "step_EIpu")
    requires var o := Steps(setup, start, n, GittinsIndex, kw, oracle);
      o.error.None? && o.state.lmbda.ready && o.state.lmbda.current.Some?
    ensures var o := Steps(setup, start, n, GittinsIndex, kw, oracle).state.lmbda;
      var r := Steps(setup, start, n + 1, GittinsIndex, kw, oracle);
      var l := if o.need then o.current.value / 2.0 else o.current.value;
      && r.error.None?
      && r.state.lmbda.ready
      && r.state.lmbda.current == Some(l)
      && r.state.lmbda.history == o.history + [l]
  {
    StepsExtend(setup, start, n, GittinsIndex, kw, oracle);
    HalvingStep(setup, Steps(setup, start, n, GittinsIndex, kw, oracle).state, kw, oracle(n));
  }

  /**
   * On the halving schedule (and not the EIpu one), a run never fails, λ is
   * always set, the λ history has one entry per step, and its last entry is
   * the current λ.
   */
  lemma {:induction false} HalvingRunShape(setup: Setup, s: Snapshot, budget: real, kw: Kwargs,
                                           oracle: nat -> StepInput, n: nat)
    requires s.lmbda.Consistent()
    requires IsTrue(kw, "step_halving") && !IsTrue(kw, "step_EIpu")
    ensures var start := StartRun(s, budget, GittinsIndex, kw);
      var r := Steps(setup, start, n, GittinsIndex, kw, oracle).state.lmbda;
      && Steps(setup, start, n, GittinsIndex, kw, oracle).error.None?
      && r.ready && r.current.Some?
      && |r.history| == n
      && (n > 0 ==> r.history[n - 1] == r.current.value)
  {
    if n > 0 {
      HalvingRunShape(setup, s, budget, kw, oracle, n - 1);
      HalvingShapeStep(setup, StartRun(s, budget, GittinsIndex, kw), kw, oracle, n - 1);
    }
  }

  /** The inductive step of HalvingRunShape. */
  lemma HalvingShapeStep(setup: Setup, start: Snapshot, kw: Kwargs, oracle: nat -> StepInput, m: nat)
    requires start.lmbda.Consistent()
    requires IsTrue(kw, "step_halving") && !IsTrue(kw, "step_EIpu")
    requires var r := Steps(setup, start, m, GittinsIndex, kw, oracle);
      r.error.None? && r.state.lmbda.ready && r.state.lmbda.current.Some? && |r.state.lmbda.history| == m
    ensures var r := Steps(setup, start, m + 1, GittinsIndex, kw, oracle);
      && r.error.None? && r.state.lmbda.ready && r.state.lmbda.current.Some?
      && |r.state.lmbda.history| == m + 1
      && r.state.lmbda.history[m] == r.state.lmbda.current.value
  {
    HalvingAdvance(setup, start, m, kw, oracle);
  }

  /**
   * How many of the first n steps of a Gittins-index run began with a recompute
   * pending: the steps after which the re-arm trigger fired, plus the first step
   * when the reset left one pending.
   */
  ghost function Recomputes(setup: Setup, start: Snapshot, n: nat, kw: Kwargs, oracle: nat -> StepInput): (r: nat)
    requires start.lmbda.Consistent()
    ensures r <= n
  {
    if n == 0 then 0
    else
      var pending := Steps(setup, start, n - 1, GittinsIndex, kw, oracle).state.lmbda.need;
      Recomputes(setup, start, n - 1, kw, oracle) + (if pending then 1 else 0)
  }

  /**
   * On the halving schedule, λ after n steps is 0.1 halved once for each of
   * those steps that began with a recompute pending.
   */
  lemma {:induction false} HalvingCurrent(setup: Setup, s: Snapshot, budget: real, kw: Kwargs,
                                          oracle: nat -> StepInput, n: nat)
    requires s.lmbda.Consistent()
    requires IsTrue(kw, "step_halving") && !IsTrue(kw, "step_EIpu")
    ensures var start := StartRun(s, budget, GittinsIndex, kw);
      Steps(setup, start, n, GittinsIndex, kw, oracle).state.lmbda.current ==
        Some(HalvedLambda(Recomputes(setup, start, n, kw, oracle)))
  {
    if n > 0 {
      HalvingCurrent(setup, s, budget, kw, oracle, n - 1);
      HalvingCurrentStep(setup, s, budget, kw, oracle, n - 1);
    }
  }

  /** The inductive step of HalvingCurrent: step m halves λ exactly when it began with a recompute pending. */
  lemma HalvingCurrentStep(setup: Setup, s: Snapshot, budget: real, kw: Kwargs,
                           oracle: nat -> StepInput, m: nat)
    requires s.lmbda.Consistent()
    requires IsTrue(kw, "step_halving") && !IsTrue(kw, "step_EIpu")
    requires var start := StartRun(s, budget, GittinsIndex, kw);
      Steps(setup, start, m, GittinsIndex, kw, oracle).state.lmbda.current ==
        Some(HalvedLambda(Recomputes(setup, start, m, kw, oracle)))
    ensures var start := StartRun(s, budget, GittinsIndex, kw);
      Steps(setup, start, m + 1, GittinsIndex, kw, oracle).state.lmbda.current ==
        Some(HalvedLambda(Recomputes(setup, start, m + 1, kw, oracle)))
  {
    var start := StartRun(s, budget, GittinsIndex, kw);
    var o := Steps(setup, start, m, GittinsIndex, kw, oracle).state.lmbda;
    HalvingRunShape(setup, s, budget, kw, oracle, m);
    HalvingAdvance(setup, start, m, kw, oracle);
    var k := Recomputes(setup, start, m, kw, oracle);
    assert Recomputes(setup, start, m + 1, kw, oracle) == if o.need then k + 1 else k;
    HalvedOnce(o.current.value, k, o.need);
  }

  /** A sequence of λ values none of which is larger than an earlier one. */
  ghost predicate NonIncreasing(h: seq<real>)
  {
    forall i, j :: 0 <= i <= j < |h| ==> h[j] <= h[i]
  }

  lemma AppendNonIncreasing(h: seq<real>, l: real)
    requires NonIncreasing(h)
    requires |h| > 0 ==> l <= h[|h| - 1]
    ensures NonIncreasing(h + [l])
  {
    forall i, j | 0 <= i <= j < |h| + 1
      ensures (h + [l])[j] <= (h + [l])[i]
    {
      if j == |h| && i < j {
        assert h[|h| - 1] <= h[i];
      }
    }
  }

  /** On the halving schedule λ stays positive and is the last λ history entry. */
  lemma HalvingPositive(setup: Setup, s: Snapshot, budget: real, kw: Kwargs, oracle: nat -> StepInput, n: nat)
    requires s.lmbda.Consistent()
    requires IsTrue(kw, "step_halving") && !IsTrue(kw, "step_EIpu")
    ensures var start := StartRun(s, budget, GittinsIndex, kw);
      var r := Steps(setup, start, n, GittinsIndex, kw, oracle).state.lmbda;
      && Steps(setup, start, n, GittinsIndex, kw, oracle).error.None?
      && r.ready && r.current.Some? && r.current.value > 0.0
      && |r.history| == n
      && (n > 0 ==> r.history[n - 1] == r.current.value)
  {
    var start := StartRun(s, budget, GittinsIndex, kw);
    HalvingRunShape(setup, s, budget, kw, oracle, n);
    HalvingCurrent(setup, s, budget, kw, oracle, n);
    HalvedLambdaIs(Recomputes(setup, start, n, kw, oracle));
  }

  /** On the halving schedule the λ history never increases. */
  lemma {:induction false} HalvingHistoryNonIncreasing(setup: Setup, s: Snapshot, budget: real, kw: Kwargs,
                                                       oracle: nat -> StepInput, n: nat)
    requires s.lmbda.Consistent()
    requires IsTrue(kw, "step_halving") && !IsTrue(kw, "step_EIpu")
    ensures var start := StartRun(s, budget, GittinsIndex, kw);
      NonIncreasing(Steps(setup, start, n, GittinsIndex, kw, oracle).state.lmbda.history)
  {
    var start := StartRun(s, budget, GittinsIndex, kw);
    if n > 0 {
      HalvingHistoryNonIncreasing(setup, s, budget, kw, oracle, n - 1);
      HalvingPositive(setup, s, budget, kw, oracle, n - 1);
      HalvingAdvance(setup, start, n - 1, kw, oracle);
      var o := Steps(setup, start, n - 1, GittinsIndex, kw, oracle).state.lmbda;
      AppendNonIncreasing(o.history, if o.need then o.current.value / 2.0 else o.current.value);
    }
  }

  /**
   * The halving schedule over a run (`step_halving` without `step_EIpu`): no step
   * fails; λ starts at 0.1 and after n steps is 0.1 / 2^k, k the number of those
   * steps that began with a recompute pending; the λ history holds one entry per step, the λ that
   * step used, and never increases.
   */
  lemma HalvingSchedule(setup: Setup, s: Snapshot, budget: real, kw: Kwargs, oracle: nat -> StepInput, n: nat)
    requires s.lmbda.Consistent()
    requires IsTrue(kw, "step_halving") && !IsTrue(kw, "step_EIpu")
    ensures var start := StartRun(s, budget, GittinsIndex, kw);
      var r := Steps(setup, start, n, GittinsIndex, kw, oracle);
      var h := r.state.lmbda.history;
      && start.lmbda.current == Some(InitialHalvingLambda)
      && r.error.None?
      && r.state.lmbda.current == Some(InitialHalvingLambda / Pow2(Recomputes(setup, start, n, kw, oracle)))
      && |h| == n
      && (n > 0 ==> r.state.lmbda.current == Some(h[n - 1]))
      && NonIncreasing(h)
  {
    var start := StartRun(s, budget, GittinsIndex, kw);
    HalvingRunShape(setup, s, budget, kw, oracle, n);
    HalvingCurrent(setup, s, budget, kw, oracle, n);
    HalvedLambdaIs(Recomputes(setup, start, n, kw, oracle));
    HalvingHistoryNonIncreasing(setup, s, budget, kw, oracle, n);
  }

  // ---------------------------------------------------------------------------
  // The EIpu-derived schedule over a run
  // ---------------------------------------------------------------------------

  /** Step n of an EIpu run under a callable cost, from the state of the first n steps. */
  lemma EIpuAdvance(setup: Setup, start: Snapshot, n: nat, kw: Kwargs, oracle: nat -> StepInput)
    requires start.lmbda.Consistent()
    requires setup.cost.Callable? && IsTrue(kw, "step_EIpu")
    requires var o := Steps(setup, start, n, GittinsIndex, kw, oracle);
      o.error.None? && o.state.lmbda.ready
    ensures var o := Steps(setup, start, n, GittinsIndex, kw, oracle).state.lmbda;
      var r := Steps(setup, start, n + 1, GittinsIndex, kw, oracle);
      var l := if o.need then NextEIpuLambda(o.current, oracle(n).subsidiaryMax) else o.current.value;
      && r.error.None?
      && r.state.lmbda.ready
      && r.state.lmbda.current == Some(l)
      && r.state.lmbda.history == o.history + [l]
  {
    StepsExtend(setup, start, n, GittinsIndex, kw, oracle);
    EIpuStep(setup, Steps(setup, start, n, GittinsIndex, kw, oracle).state, kw, oracle(n));
  }

  /**
   * Under a callable cost with `step_EIpu` set, a run never fails, the λ history
   * has one entry per step, and its last entry is the current λ.
   */
  lemma {:induction false} EIpuRunShape(setup: Setup, s: Snapshot, budget: real, kw: Kwargs,
                                        oracle: nat -> StepInput, n: nat)
    requires s.lmbda.Consistent()
    requires setup.cost.Callable? && IsTrue(kw, "step_EIpu")
    ensures var start := StartRun(s, budget, GittinsIndex, kw);
      var r := Steps(setup, start, n, GittinsIndex, kw, oracle).state.lmbda;
      && Steps(setup, start, n, GittinsIndex, kw, oracle).error.None?
      && r.ready
      && |r.history| == n
      && (n > 0 ==> r.current == Some(r.history[n - 1]))
  {
    if n > 0 {
      EIpuRunShape(setup, s, budget, kw, oracle, n - 1);
      EIpuShapeStep(setup, StartRun(s, budget, GittinsIndex, kw), kw, oracle, n - 1);
    }
  }

  /** The inductive step of EIpuRunShape. */
  lemma EIpuShapeStep(setup: Setup, start: Snapshot, kw: Kwargs, oracle: nat -> StepInput, m: nat)
    requires start.lmbda.Consistent()
    requires setup.cost.Callable? && IsTrue(kw, "step_EIpu")
    requires var r := Steps(setup, start, m, GittinsIndex, kw, oracle);
      r.error.None? && r.state.lmbda.ready && |r.state.lmbda.history| == m
    ensures var r := Steps(setup, start, m + 1, GittinsIndex, kw, oracle);
      && r.error.None? && r.state.lmbda.ready
      && |r.state.lmbda.history| == m + 1
      && r.state.lmbda.current == Some(r.state.lmbda.history[m])
  {
    EIpuAdvance(setup, start, m, kw, oracle);
  }

  /** Under a callable cost with `step_EIpu` set, the λ history never increases. */
  lemma {:induction false} EIpuHistoryNonIncreasing(setup: Setup, s: Snapshot, budget: real, kw: Kwargs,
                                                    oracle: nat -> StepInput, n: nat)
    requires s.lmbda.Consistent()
    requires setup.cost.Callable? && IsTrue(kw, "step_EIpu")
    ensures var start := StartRun(s, budget, GittinsIndex, kw);
      NonIncreasing(Steps(setup, start, n, GittinsIndex, kw, oracle).state.lmbda.history)
  {
    var start := StartRun(s, budget, GittinsIndex, kw);
    if n > 0 {
      EIpuHistoryNonIncreasing(setup, s, budget, kw, oracle, n - 1);
      EIpuRunShape(setup, s, budget, kw, oracle, n - 1);
      EIpuAdvance(setup, start, n - 1, kw, oracle);
      var o := Steps(setup, start, n - 1, GittinsIndex, kw, oracle).state.lmbda;
      AppendNonIncreasing(o.history,
        if o.need then NextEIpuLambda(o.current, oracle(n - 1).subsidiaryMax) else o.current.value);
    }
  }

  /** Under a callable cost with `step_EIpu` set, the first λ of a run and where it comes from. */
  lemma {:induction false} EIpuFirstEntry(setup: Setup, s: Snapshot, budget: real, kw: Kwargs,
                                          oracle: nat -> StepInput, n: nat)
    requires s.lmbda.Consistent()
    requires setup.cost.Callable? && IsTrue(kw, "step_EIpu")
    requires n > 0
    ensures var start := StartRun(s, budget, GittinsIndex, kw);
      var h := Steps(setup, start, n, GittinsIndex, kw, oracle).state.lmbda.history;
      |h| > 0 && h[0] == if IsTrue(kw, "step_halving") then InitialHalvingLambda else oracle(0).subsidiaryMax / 2.0
  {
    var start := StartRun(s, budget, GittinsIndex, kw);
    if n == 1 {
      EIpuAdvance(setup, start, 0, kw, oracle);
    } else {
      EIpuFirstEntry(setup, s, budget, kw, oracle, n - 1);
      EIpuRunShape(setup, s, budget, kw, oracle, n - 1);
      EIpuAdvance(setup, start, n - 1, kw, oracle);
    }
  }

  /**
   * The EIpu schedule over a run under a callable cost: no step fails; the first
   * λ is 0.1 when `step_halving` is also set (its reset comes last and leaves no
   * recompute pending) and otherwise half the first subsidiary maximum; after
   * that λ never increases, and the current λ is the last one used.
   */
  lemma EIpuSchedule(setup: Setup, s: Snapshot, budget: real, kw: Kwargs, oracle: nat -> StepInput, n: nat)
    requires s.lmbda.Consistent()
    requires setup.cost.Callable? && IsTrue(kw, "step_EIpu")
    ensures var start := StartRun(s, budget, GittinsIndex, kw);
      var r := Steps(setup, start, n, GittinsIndex, kw, oracle);
      var h := r.state.lmbda.history;
      && r.error.None?
      && |h| == n
      && (n > 0 ==> r.state.lmbda.current == Some(h[n - 1]))
      && (n > 0 ==> h[0] == if IsTrue(kw, "step_halving") then InitialHalvingLambda else oracle(0).subsidiaryMax / 2.0)
      && NonIncreasing(h)
  {
    var start := StartRun(s, budget, GittinsIndex, kw);
    EIpuRunShape(setup, s, budget, kw, oracle, n);
    EIpuHistoryNonIncreasing(setup, s, budget, kw, oracle, n);
    if n > 0 {
      EIpuFirstEntry(setup, s, budget, kw, oracle, n);
    }
  }

  /**
   * Under a constant cost, a run with `step_EIpu` set and `step_halving` not set
   * stops on its first step: the EIpu branch reads the cooling factor that only
   * the callable-cost branch binds. Nothing is recorded.
   */
  lemma ConstantCostEIpuFails(setup: Setup, s: Snapshot, budget: real, kw: Kwargs, oracle: nat -> StepInput, n: nat)
    requires s.lmbda.Consistent()
    requires setup.cost.Constant? && IsTrue(kw, "step_EIpu") && !IsTrue(kw, "step_halving")
    requires n > 0
    ensures var start := StartRun(s, budget, GittinsIndex, kw);
      Steps(setup, start, n, GittinsIndex, kw, oracle) == RunOutcome(start, Some(UnboundLocalError("alpha")))
  {
    var start := StartRun(s, budget, GittinsIndex, kw);
    StepsExtend(setup, start, 0, GittinsIndex, kw, oracle);
    StepsStopAtError(setup, start, 1, n, GittinsIndex, kw, oracle);
  }

  // ---------------------------------------------------------------------------
  // A fixed λ
  // ---------------------------------------------------------------------------

  /**
   * With neither schedule set, a Gittins-index run leaves the λ state alone; it
   * never fails when the caller passed `lmbda`, and otherwise stops on its first
   * step with a KeyError, recording nothing.
   */
  lemma {:induction false} FixedLambdaRun(setup: Setup, s: Snapshot, budget: real, kw: Kwargs,
                                          oracle: nat -> StepInput, n: nat)
    requires s.lmbda.Consistent()
    requires !IsTrue(kw, "step_EIpu") && !IsTrue(kw, "step_halving")
    ensures var start := StartRun(s, budget, GittinsIndex, kw);
      var r := Steps(setup, start, n, GittinsIndex, kw, oracle);
      && r.state.lmbda == s.lmbda
      && ("lmbda" in kw ==> r.error.None?)
      && ("lmbda" !in kw && n > 0 ==> r == RunOutcome(start, Some(KeyError("lmbda"))))
  {
    var start := StartRun(s, budget, GittinsIndex, kw);
    if n > 0 {
      if "lmbda" in kw {
        FixedLambdaRun(setup, s, budget, kw, oracle, n - 1);
        var before := Steps(setup, start, n - 1, GittinsIndex, kw, oracle).state;
        StepsExtend(setup, start, n - 1, GittinsIndex, kw, oracle);
        GittinsArgs(setup.maximize, setup.cost, before.bestF, before.budget, before.cumulativeCost,
                    before.lmbda, kw, oracle(n - 1).subsidiaryMax);
        StepRearms(setup, before, GittinsIndex, kw, oracle(n - 1));
      } else {
        StepsExtend(setup, start, 0, GittinsIndex, kw, oracle);
        StepsStopAtError(setup, start, 1, n, GittinsIndex, kw, oracle);
      }
    }
  }

  // ---------------------------------------------------------------------------
  // A constant cost
  // ---------------------------------------------------------------------------

  /** Under a constant cost c, a valid state that has made k queries since construction has spent k·c. */
  lemma ConstantCostAfter(setup: Setup, t: Snapshot, c: real, k: int)
    requires Valid(setup, t) && setup.cost == Constant(c)
    requires |t.costHistory| - 1 == k
    ensures t.cumulativeCost == Scaled(k, c)
  {
    ConstantCostHistory(setup, t, c);
    ScaledIsProduct(k, c);
  }

  /**
   * Under a constant cost c, a run of n steps that raised no error has spent
   * c for each query made since construction: m·c before it, m the queries
   * made by earlier runs, and (m + n)·c after it.
   */
  lemma ConstantCostRun(setup: Setup, start: Snapshot, c: real, n: nat,
                        policy: Policy, kw: Kwargs, oracle: nat -> StepInput)
    requires Valid(setup, start) && setup.cost == Constant(c)
    ensures start.cumulativeCost == Scaled(|start.costHistory| - 1, c)
    ensures var r := Steps(setup, start, n, policy, kw, oracle);
      r.error.None? ==> r.state.cumulativeCost == Scaled(|start.costHistory| - 1 + n, c)
  {
    ConstantCostAfter(setup, start, c, |start.costHistory| - 1);
    var r := Steps(setup, start, n, policy, kw, oracle);
    if r.error.None? {
      StepsKeepValid(setup, start, n, policy, kw, oracle);
      StepsCostLength(setup, start, n, policy, kw, oracle);
      ConstantCostAfter(setup, r.state, c, |start.costHistory| - 1 + n);
    }
  }

  /**
   * Under a constant cost c, a budgeted run that stopped without error after
   * `steps` steps, m queries having been made before it, stopped at the first
   * count for which (m + steps)·c reaches the budget.
   */
  lemma ConstantCostBudgetStop(setup: Setup, start: Snapshot, c: real, budget: real, steps: nat,
                               policy: Policy, kw: Kwargs, oracle: nat -> StepInput)
    requires Valid(setup, start) && setup.cost == Constant(c)
    requires StopsAtBudget(setup, start, budget, steps, policy, kw, oracle)
    requires Steps(setup, start, steps, policy, kw, oracle).error.None?
    ensures Scaled(|start.costHistory| - 1 + steps, c) >= budget
    ensures steps > 0 ==> Scaled(|start.costHistory| - 1 + steps - 1, c) < budget
  {
    ConstantCostRun(setup, start, c, steps, policy, kw, oracle);
    if steps > 0 {
      assert Steps(setup, start, steps - 1, policy, kw, oracle).error.None?;
      ConstantCostRun(setup, start, c, steps - 1, policy, kw, oracle);
    }
  }
}
