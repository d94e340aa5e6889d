/**
 * The acquisition policy selector: the parameter record `iterate` hands the
 * acquisition class, by policy kind, and the λ state it leaves behind.
 */
module Acquisition {
  import opened Wrappers
  import opened Costs
  import opened Options
  import opened LambdaScheduler

  /** The parameter record (`acqf_args`). */
  type Args = map<string, Arg>

  /** What parameter assembly produces: the record and the λ state afterwards. */
  datatype Assembly = Assembly(args: Args, lmbda: LambdaState)

  /** The entries every record starts with: the fitted model and the direction. */
  function BaseArgs(maximize: bool): Args
  {
    map["model" := Surrogate, "maximize" := Flag(maximize)]
  }

  /**
   * Parameter assembly for one step. `budget` is None until a run has set it;
   * `subsidiaryMax` is the EIpu maximum the external optimizer reports, read only
   * by the EIpu-derived λ schedule.
   */
  function Assemble(maximize: bool, cost: CostModel, bestF: real, budget: Option<real>, cumulativeCost: real,
                    st: LambdaState, policy: Policy, kw: Kwargs, subsidiaryMax: real): (r: Result<Assembly, Error>)
    requires st.Consistent()
    ensures r.Ok? ==> r.value.lmbda.Consistent()
    ensures r.Ok? ==> "model" in r.value.args && "maximize" in r.value.args
    ensures r.Ok? && !policy.OtherPolicy? ==>
      r.value.args["model"] == Surrogate && r.value.args["maximize"] == Flag(maximize)
  {
    var base := BaseArgs(maximize);
    match policy
    case ExpectedImprovement =>
      Ok(Assembly(base["best_f" := Num(bestF)], st))
    case ExpectedImprovementWithCost =>
      var args := base["best_f" := Num(bestF)]["cost" := CostArg(cost)];
      if !IsTrue(kw, "cost_cooling") then Ok(Assembly(args, st))
      else if budget.None? then Err(AttributeError("budget"))
      else if budget.value == 0.0 then Err(ZeroDivisionError)
      else Ok(Assembly(args["alpha" := Num(CoolingAlpha(budget.value, cumulativeCost))], st))
    case GittinsIndex =>
      var chosen := Select(cost, st, kw, subsidiaryMax);
      if chosen.Err? then Err(chosen.error)
      else Ok(Assembly(base["lmbda" := chosen.value.0]["cost" := CostArg(cost)], chosen.value.1))
    case OtherPolicy(_) =>
      Ok(Assembly(base + kw, st))
  }

  /** Plain EI gets the model, the direction and the best value, and never fails. */
  lemma ExpectedImprovementArgs(maximize: bool, cost: CostModel, bestF: real, budget: Option<real>, spent: real,
                                st: LambdaState, kw: Kwargs, v: real)
    requires st.Consistent()
    ensures var r := Assemble(maximize, cost, bestF, budget, spent, st, ExpectedImprovement, kw, v);
      r.Ok? && r.value.args.Keys == {"model", "maximize", "best_f"} &&
      r.value.args["best_f"] == Num(bestF) && r.value.lmbda == st &&
      r.value.args == map["model" := Surrogate, "maximize" := Flag(maximize), "best_f" := Num(bestF)]
  {
  }

  /**
   * EI with cost gets the best value and the cost model; with cost cooling it
   * also gets alpha, which needs a set, non-zero budget and lies in [0, 1] when
   * the budget is positive and the spending non-negative.
   */
  lemma CostAwareArgs(maximize: bool, cost: CostModel, bestF: real, budget: Option<real>, spent: real,
                      st: LambdaState, kw: Kwargs, v: real)
    requires st.Consistent()
    ensures var r := Assemble(maximize, cost, bestF, budget, spent, st, ExpectedImprovementWithCost, kw, v);
      var cooling := IsTrue(kw, "cost_cooling");
      (r.Ok? <==> !cooling || (budget.Some? && budget.value != 0.0)) &&
      (cooling && budget.None? ==> r == Err(AttributeError("budget"))) &&
      (cooling && budget == Some(0.0) ==> r == Err(ZeroDivisionError)) &&
      (r.Ok? ==>
        r.value.lmbda == st &&
        r.value.args.Keys == {"model", "maximize", "best_f", "cost"} + (if cooling then {"alpha"} else {}) &&
        r.value.args["cost"] == CostArg(cost) &&
        r.value.args == (
          var record := map["model" := Surrogate, "maximize" := Flag(maximize),
                            "best_f" := Num(bestF), "cost" := CostArg(cost)];
          if cooling then record["alpha" := Num(CoolingAlpha(budget.value, spent))] else record) &&
        (cooling ==>
          r.value.args["alpha"].Num? && r.value.args["alpha"].x >= 0.0 &&
          (budget.value > 0.0 && spent >= 0.0 ==> r.value.args["alpha"].x <= 1.0)))
  {
    if IsTrue(kw, "cost_cooling") && budget.Some? && budget.value != 0.0 {
      CoolingAlphaBounds(budget.value, spent);
    }
  }

  /**
   * The Gittins index gets λ and the cost model, never the best value; its λ
   * state changes only on a λ schedule.
   */
  lemma GittinsArgs(maximize: bool, cost: CostModel, bestF: real, budget: Option<real>, spent: real,
                    st: LambdaState, kw: Kwargs, v: real)
    requires st.Consistent()
    ensures var r := Assemble(maximize, cost, bestF, budget, spent, st, GittinsIndex, kw, v);
      (r.Ok? <==> Select(cost, st, kw, v).Ok?) &&
      (r.Ok? ==>
        r.value.args.Keys == {"model", "maximize", "lmbda", "cost"} &&
        r.value.args == map["model" := Surrogate, "maximize" := Flag(maximize),
                            "lmbda" := Select(cost, st, kw, v).value.0, "cost" := CostArg(cost)] &&
        r.value.args["lmbda"] == Select(cost, st, kw, v).value.0 &&
        r.value.lmbda == Select(cost, st, kw, v).value.1) &&
      (!IsTrue(kw, "step_EIpu") && !IsTrue(kw, "step_halving") && r.Ok? ==>
        r.value.args["lmbda"] == kw["lmbda"] && r.value.lmbda == st)
  {
  }

  /** Any other policy gets the caller's options verbatim, overriding the base entries. */
  lemma PassThroughArgs(maximize: bool, cost: CostModel, bestF: real, budget: Option<real>, spent: real,
                        st: LambdaState, kw: Kwargs, v: real, name: string)
    requires st.Consistent()
    ensures var r := Assemble(maximize, cost, bestF, budget, spent, st, OtherPolicy(name), kw, v);
      r.Ok? && r.value.lmbda == st &&
      r.value.args.Keys == {"model", "maximize"} + kw.Keys &&
      (forall k :: k in kw ==> r.value.args[k] == kw[k]) &&
      ("model" !in kw ==> r.value.args["model"] == Surrogate) &&
      ("maximize" !in kw ==> r.value.args["maximize"] == Flag(maximize))
  {
  }
}
