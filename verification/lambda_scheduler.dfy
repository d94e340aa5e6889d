/**
 * The λ scheduler of the Gittins-index policy: its state, the per-run reset,
 * the per-step selection (EIpu-derived, halving or fixed) and the re-arm trigger.
 */
module LambdaScheduler {
  import opened Wrappers
  import opened Costs
  import opened Options

  /**
   * `current_lmbda`, `need_lmbda_update` and `lmbda_history`. The source creates
   * the three attributes together, in `run`; `ready` says whether it has.
   */
  datatype LambdaState = LambdaState(ready: bool, current: Option<real>, need: bool, history: seq<real>)
  {
    /** λ is None only while a recompute is pending (what every reset and step keeps). */
    predicate Consistent()
    {
      ready && current.None? ==> need
    }

    /** The last λ history entry, when there is one, is the λ now in force. */
    predicate LastIsCurrent()
    {
      |history| > 0 ==> current == Some(history[|history| - 1])
    }
  }

  /** The halving schedule's starting λ. */
  const InitialHalvingLambda: real := 0.1

  /** The λ state at the start of `run`/`run_until_budget`. */
  function ResetForRun(st: LambdaState, policy: Policy, kw: Kwargs): (r: LambdaState)
    ensures r.Consistent() || r == st
    ensures policy.GittinsIndex? && IsTrue(kw, "step_halving") ==>
      r == LambdaState(true, Some(InitialHalvingLambda), false, [])
    ensures policy.GittinsIndex? && IsTrue(kw, "step_EIpu") && !IsTrue(kw, "step_halving") ==>
      r == LambdaState(true, None, true, [])
    ensures !policy.GittinsIndex? || (!IsTrue(kw, "step_EIpu") && !IsTrue(kw, "step_halving")) ==> r == st
  {
    if !policy.GittinsIndex? then st
    else
      var afterEIpu := if IsTrue(kw, "step_EIpu") then LambdaState(true, None, true, []) else st;
      if IsTrue(kw, "step_halving") then LambdaState(true, Some(InitialHalvingLambda), false, []) else afterEIpu
  }

  /** The EIpu-derived λ: half the subsidiary maximum, or the previous λ if that is smaller. */
  function NextEIpuLambda(current: Option<real>, subsidiaryMax: real): (r: real)
    ensures r <= subsidiaryMax / 2.0
    ensures current.Some? ==> r <= current.value
    ensures r == subsidiaryMax / 2.0 || (current.Some? && r == current.value)
  {
    match current
    case None => subsidiaryMax / 2.0
    case Some(c) => if c <= subsidiaryMax / 2.0 then c else subsidiaryMax / 2.0
  }

  /**
   * The λ entry of the Gittins-index parameter record and the λ state after it
   * is chosen. `subsidiaryMax` is the maximum of EIpu (callable cost) found by the
   * external optimizer; it is read only when a recompute is pending.
   */
  function Select(cost: CostModel, st: LambdaState, kw: Kwargs, subsidiaryMax: real): (r: Result<(Arg, LambdaState), Error>)
    requires st.Consistent()
    ensures r.Ok? ==> r.value.1.Consistent()
    ensures r.Ok? && (IsTrue(kw, "step_EIpu") || IsTrue(kw, "step_halving")) ==>
      var st' := r.value.1;
      st'.ready && st'.current.Some? && !st'.need &&
      r.value.0 == Num(st'.current.value) && st'.history == st.history + [st'.current.value]
    ensures IsTrue(kw, "step_EIpu") ==>
      (r.Err? <==> !st.ready || (st.need && cost.Constant?)) &&
      (r.Err? ==> r.error == if !st.ready then AttributeError("need_lmbda_update") else UnboundLocalError("alpha"))
    ensures !IsTrue(kw, "step_EIpu") && IsTrue(kw, "step_halving") ==>
      (r.Err? <==> !st.ready || (st.need && st.current.None?)) &&
      (r.Err? ==> r.error == if !st.ready then AttributeError("need_lmbda_update") else TypeError)
    ensures !IsTrue(kw, "step_EIpu") && !IsTrue(kw, "step_halving") ==>
      (r.Ok? <==> "lmbda" in kw) && (r.Ok? ==> r.value == (kw["lmbda"], st)) &&
      (r.Err? ==> r.error == KeyError("lmbda"))
  {
    if IsTrue(kw, "step_EIpu") then
      if !st.ready then Err(AttributeError("need_lmbda_update"))
      else if st.need && cost.Constant? then Err(UnboundLocalError("alpha"))
      else
        var lmbda := if st.need then NextEIpuLambda(st.current, subsidiaryMax) else st.current.value;
        Ok((Num(lmbda), LambdaState(true, Some(lmbda), false, st.history + [lmbda])))
    else if IsTrue(kw, "step_halving") then
      if !st.ready then Err(AttributeError("need_lmbda_update"))
      else if st.need && st.current.None? then Err(TypeError)
      else
        var lmbda := if st.need then st.current.value / 2.0 else st.current.value;
        Ok((Num(lmbda), LambdaState(true, Some(lmbda), false, st.history + [lmbda])))
    else if "lmbda" in kw then Ok((kw["lmbda"], st))
    else Err(KeyError("lmbda"))
  }

  /** The reset at the start of a run keeps the last λ history entry the current λ. */
  lemma ResetKeepsLastIsCurrent(st: LambdaState, policy: Policy, kw: Kwargs)
    requires st.LastIsCurrent()
    ensures ResetForRun(st, policy, kw).LastIsCurrent()
  {
  }

  /**
   * A successful selection keeps the last λ history entry the current λ: a
   * schedule appends the λ it has just set, and a fixed λ changes nothing.
   */
  lemma SelectKeepsLastIsCurrent(cost: CostModel, st: LambdaState, kw: Kwargs, subsidiaryMax: real)
    requires st.Consistent() && st.LastIsCurrent()
    ensures var r := Select(cost, st, kw, subsidiaryMax);
      r.Ok? ==> r.value.1.LastIsCurrent()
  {
  }

  /** Whether the step re-arms the scheduler (a Gittins index policy on a λ schedule). */
  predicate Rearms(policy: Policy, kw: Kwargs)
  {
    policy.GittinsIndex? && (IsTrue(kw, "step_EIpu") || IsTrue(kw, "step_halving"))
  }

  /**
   * The re-arm trigger: the attained acquisition value, read in the objective's
   * sign convention, is worse than the best observed value.
   */
  predicate Fires(maximize: bool, acquisitionValue: real, bestF: real)
  {
    (maximize && acquisitionValue < bestF) || (!maximize && -acquisitionValue > bestF)
  }

  /** 2^k as a real. */
  function Pow2(k: nat): (r: real)
    ensures r >= 1.0
  {
    if k == 0 then 1.0 else 2.0 * Pow2(k - 1)
  }
}
