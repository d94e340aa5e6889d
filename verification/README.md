# BayesianOptimizer controller, modelled in Dafny

This project models the controller class `BayesianOptimizer` of
`pandora_bayesopt/bayesianoptimizer.py`, a Bayesian-optimization loop that
handles costly evaluations. The controller keeps an observation store (the
queried points `x`, their values `y`, the running best value `best_f` and its
history) and a cost ledger (`cumulative_cost` and `cost_history`, under a
constant or callable cost). For each step it assembles the parameter record of
the requested acquisition policy. These policies are:

- expected improvement;
- expected improvement with cost, optionally with cost cooling;
- the Gittins index with a λ;
- any other class, whose options pass through unchanged.

For the Gittins index, λ comes from a schedule. Under the EIpu-derived schedule
it is half a subsidiary maximum and never grows. Under the halving schedule it
starts at 0.1 and is halved on demand. Otherwise it is fixed by the caller. A
re-arm trigger asks for a recompute when the attained acquisition value falls
behind the best value.

The modules follow the program's structure:

- `Costs` (cost_ledger.dfy) covers what a query costs, the cost history and the cooling factor.
- `Observations` (observation_store.dfy) covers the best value, the best-value history and regret.
- `Options` (options.dfy) holds the policy, the keyword options and the exceptions.
- `LambdaScheduler` (lambda_scheduler.dfy) holds the λ state, its per-run reset, the per-step selection and the trigger.
- `Acquisition` (acquisition.dfy) assembles the parameter record.
- `Controller` (controller.dfy) is the optimizer as a state machine on values.
  - It defines one `iterate` step (`Step`), the reset at the start of a run (`StartRun`) and runs of several steps (`Steps`).
  - The invariant `Valid` keeps the histories in step with the observations.
- `BayesOpt` (bayesian_optimizer.dfy) is the class itself.
  - Its fields are updated in place, as in the source.
  - Each method is proved to follow `Controller`; `run_until_budget` is a `while` loop with its invariants.
- `RunProperties` (run_properties.dfy) holds whole-run properties of the λ schedules and of a constant cost.

The external collaborators answer each step through a `StepInput` value: the
point and attained acquisition value from the acquisition optimizer, the
subsidiary EIpu maximum and the objective's value. A run takes them as a
function `oracle` from the step index to a `StepInput`. The errors the
source itself raises while assembling the parameter record and choosing λ
(the kinds listed in `Options.Error`) become values of that type, and a step
that raises one of them changes nothing, since it raises before any field is
assigned.

Behaviour of the code that is easy to miss:

- The best-value history gets one entry for the whole initial batch and then one per step. `update_best` runs once after `initialize_points` (lines 52-59).
- Under a constant cost, the EIpu-derived schedule divides by `alpha`, which is bound only in the expected-improvement-with-cost branch (lines 74, 109 and 111). So the first recompute always raises UnboundLocalError. `RunProperties.ConstantCostEIpuFails` states this, and no EI-derived λ is modelled.
- Both schedule options can be set together. The halving reset in `run` comes last (lines 179-186) and leaves no recompute pending, so the first λ is 0.1. After that the EIpu branch, tested first in `iterate`, does the recomputing.
- A callable cost that returns negative amounts is not rejected. The model adds whatever the cost tensor sums to, and the cost-monotonicity lemmas require non-negative increments.
- `max(alpha, 0)` clamps the cooling factor at 0 but not at 1. `alpha` is guaranteed to lie in [0, 1] for a positive budget and non-negative spending. A zero budget raises ZeroDivisionError, and no budget set yet raises AttributeError.
- An unrecognised policy is not an error: its options are merged into the record (line 130).
- `kw.get(key) == True` also holds for `1` and `1.0` (`Options.IsTrue`).

## Model

| member | source | states |
|---|---|---|
| BayesOpt.BayesianOptimizer.constructor | pandora_bayesopt/bayesianoptimizer.py:36-46 | The cost defaults to a constant 1.0. x and y are the initial batch. best_f is its best value, and the best history holds just that value. The cumulative cost is 0 and the cost history is [0.0]. No budget or λ state exists yet, and the invariant holds. |
| BayesOpt.BayesianOptimizer.InitializePoints | pandora_bayesopt/bayesianoptimizer.py:52-55 | Stores the batch and its values, sets best_f to their best value and appends it to the best history. |
| BayesOpt.BayesianOptimizer.UpdateBest | pandora_bayesopt/bayesianoptimizer.py:57-59 | best_f becomes the maximum of y when maximizing and the minimum otherwise. It is at least as good as every value and is appended to the best history. |
| BayesOpt.BayesianOptimizer.UpdateCost | pandora_bayesopt/bayesianoptimizer.py:156-165 | Adds the query's cost (the constant, or the sum of the callable's tensor) to the cumulative cost, and appends the new total to the cost history. |
| BayesOpt.BayesianOptimizer.ChooseLambda | pandora_bayesopt/bayesianoptimizer.py:78-125 | Runs the λ branch the options select, leaving the λ state and the returned entry as `LambdaScheduler.Select` does. On an error the λ state is unchanged. |
| BayesOpt.BayesianOptimizer.AssembleArgs | pandora_bayesopt/bayesianoptimizer.py:65-130 | The record and the λ state are those of `Acquisition.Assemble`. On an error nothing changes. |
| BayesOpt.BayesianOptimizer.AppendObservation | pandora_bayesopt/bayesianoptimizer.py:142-148 | Keeps the attained acquisition value and appends the point and its value. The new best value goes to the best history, and the new cumulative cost (old total plus the query's cost) goes to the cost history. |
| BayesOpt.BayesianOptimizer.RecordObservation | pandora_bayesopt/bayesianoptimizer.py:142-153 | The new state is `Controller.Record`: the observation is appended, and the re-arm flag is set when the trigger fires. |
| BayesOpt.BayesianOptimizer.Iterate | pandora_bayesopt/bayesianoptimizer.py:61-153 | Returns the parameter record, and the new state is that of `Controller.Step`. When the step raises, the error is returned and the state is unchanged. Either way the invariant still holds. |
| BayesOpt.BayesianOptimizer.ResetLambda | pandora_bayesopt/bayesianoptimizer.py:178-186 | The λ state becomes `ResetForRun` of the old one. |
| BayesOpt.BayesianOptimizer.BeginRun | pandora_bayesopt/bayesianoptimizer.py:177-186 | The budget is stored and the λ state reset (`Controller.StartRun`). |
| BayesOpt.BayesianOptimizer.RunStep | pandora_bayesopt/bayesianoptimizer.py:188-189 | One loop pass takes the run from `Steps(i)` to `Steps(i + 1)` and keeps the invariant. |
| BayesOpt.BayesianOptimizer.Run | pandora_bayesopt/bayesianoptimizer.py:176-190 | Sets the budget to the iteration count and resets λ. Then it runs exactly max(n, 0) steps (`Controller.Steps`), stopping at the first error. The invariant holds at the end. |
| BayesOpt.BayesianOptimizer.RunUntilBudget | pandora_bayesopt/bayesianoptimizer.py:192-208 | Sets the budget and resets λ. Given a step count by which the run raises or reaches the budget, the loop ends within that many steps. It ends in the state of `Steps(steps)`, having started each step without error and below the budget, and with the budget reached unless a step raised (`StopsAtBudget`). |
| BayesOpt.BayesianOptimizer.GetBestValue | pandora_bayesopt/bayesianoptimizer.py:210-211 | The best value is an observed value and is at least as good as every observation. |
| BayesOpt.BayesianOptimizer.GetBestHistory | pandora_bayesopt/bayesianoptimizer.py:213-214 | There is one entry for the batch plus one per step. Entry i is the best of the first (batch + i) observations, and the history never gets worse. |
| BayesOpt.BayesianOptimizer.GetCumulativeCost | pandora_bayesopt/bayesianoptimizer.py:216-217 | The total cost of every query made after the initial batch. |
| BayesOpt.BayesianOptimizer.GetCostHistory | pandora_bayesopt/bayesianoptimizer.py:219-220 | There is one entry per query plus one. It starts at 0.0 and ends at the cumulative cost, and entry k is the cost of the first k queries. |
| BayesOpt.BayesianOptimizer.GetRegretHistory | pandora_bayesopt/bayesianoptimizer.py:222-232 | Each entry is the optimum minus the best value (maximizing), or the best value minus the optimum. Against an optimum no observation beats, entries are non-negative and never grow. |
| BayesOpt.BayesianOptimizer.GetLmbdaHistory | pandora_bayesopt/bayesianoptimizer.py:234-235 | The λ history once a run has created it, and AttributeError before that. Its last entry, when there is one, is the λ now in force. |
| Costs.RunningCost | pandora_bayesopt/bayesianoptimizer.py:44-45 | The cost history of a query sequence has one more entry than the queries. It starts at 0.0 and ends at their total cost. |
| Costs.RunningCostAppend | pandora_bayesopt/bayesianoptimizer.py:156-165 | Charging one more query adds its cost to the total and appends the new total to the history. |
| Costs.RunningCostAt | pandora_bayesopt/bayesianoptimizer.py:165 | Entry k of the cost history is the total cost of the first k queries. |
| Costs.ConstantTotalCost | pandora_bayesopt/bayesianoptimizer.py:162-163 | Under a constant cost c, n queries cost n·c. |
| Costs.ConstantRunningCost | pandora_bayesopt/bayesianoptimizer.py:162-165 | Under a constant cost c, entry k of the cost history is k·c. |
| Costs.TotalCostPrefix | pandora_bayesopt/bayesianoptimizer.py:156-165 | With non-negative increments, a prefix of the queries costs between 0 and the whole. |
| Costs.SumNonNegative | pandora_bayesopt/bayesianoptimizer.py:159-160 | A callable's cost tensor with non-negative entries adds a non-negative amount. |
| Costs.L1CostNonNegative | pandora_bayesopt/bayesianoptimizer.py:157-160 | An example callable cost, not one the source ships: charging the absolute value of each coordinate charges every point a non-negative amount, so such a cost meets the non-negative-cost hypothesis of the cost lemmas. |
| Costs.CoolingAlphaBounds | pandora_bayesopt/bayesianoptimizer.py:73-76 | alpha is the larger of the remaining budget fraction and 0. With a positive budget and non-negative spending it lies in [0, 1], and it is 0 exactly when the budget is spent. |
| Costs.CoolingAlphaNonIncreasing | pandora_bayesopt/bayesianoptimizer.py:74-75 | With a positive budget, spending more never raises alpha. |
| Observations.SeqMaxIsMaximum | pandora_bayesopt/bayesianoptimizer.py:58 | `y.max()` is one of the values and no value exceeds it. |
| Observations.SeqMinIsMinimum | pandora_bayesopt/bayesianoptimizer.py:58 | `y.min()` is one of the values and no value is below it. |
| Observations.BestIsBest | pandora_bayesopt/bayesianoptimizer.py:58 | best_f is an observed value and is at least as good as every value in the optimization direction. |
| Observations.BestAppend | pandora_bayesopt/bayesianoptimizer.py:146-147 | After one more observation, the best is the max (or min) of the old best and the new value. |
| Observations.BestPrefixMonotone | pandora_bayesopt/bayesianoptimizer.py:58 | The best of a longer prefix is at least as good as that of a shorter one. |
| Observations.RunningBest | pandora_bayesopt/bayesianoptimizer.py:55-59 | The best history has one entry for the batch plus one per later value, and ends with the best of all values. |
| Observations.RunningBestAt | pandora_bayesopt/bayesianoptimizer.py:57-59 | Entry i of the best history is the best of the first (batch + i) values. |
| Observations.RunningBestAppend | pandora_bayesopt/bayesianoptimizer.py:146-147 | One more observation appends the new best to the best history. |
| Observations.RunningBestMonotone | pandora_bayesopt/bayesianoptimizer.py:57-59 | The best history gives, entry by entry, the best of the values so far, and never gets worse. |
| Observations.RegretFollowsBest | pandora_bayesopt/bayesianoptimizer.py:232 | A best history that never gets worse gives a regret history that never grows. |
| LambdaScheduler.ResetForRun | pandora_bayesopt/bayesianoptimizer.py:178-186 | For the Gittins index, the halving option gives λ = 0.1 with no recompute pending. Otherwise the EIpu option gives λ = None with a recompute pending. Each empties the history. With neither option, or any other policy, the state is unchanged. The result keeps λ None only while a recompute is pending. |
| LambdaScheduler.NextEIpuLambda | pandora_bayesopt/bayesianoptimizer.py:92-95 | The new λ is half the subsidiary maximum, or the previous λ if smaller. It never exceeds either. |
| LambdaScheduler.Select | pandora_bayesopt/bayesianoptimizer.py:79-125 | On a schedule, a successful selection leaves λ set and no recompute pending, and appends the λ used to the history. Both schedules fail with AttributeError before any run. The EIpu schedule (tested first) also fails exactly when a recompute is pending under a constant cost (UnboundLocalError for `alpha`). The halving schedule also fails exactly when halving a λ that is None (TypeError). With neither option, it succeeds exactly when `lmbda` was passed, passing it through with the state unchanged, and raises KeyError otherwise. |
| LambdaScheduler.ResetKeepsLastIsCurrent | pandora_bayesopt/bayesianoptimizer.py:178-186 | The reset at the start of a run keeps the last λ history entry equal to the current λ, since each reset empties the history. |
| LambdaScheduler.SelectKeepsLastIsCurrent | pandora_bayesopt/bayesianoptimizer.py:114-122 | A successful selection keeps the last λ history entry equal to the current λ. A schedule appends the λ it has just set, and a fixed λ changes nothing. |
| Acquisition.Assemble | pandora_bayesopt/bayesianoptimizer.py:65-130 | Every successful record holds the model and the direction. For EI, EI with cost and the Gittins index, the direction is the optimizer's own `maximize`. The λ state stays consistent. |
| Acquisition.ExpectedImprovementArgs | pandora_bayesopt/bayesianoptimizer.py:67-68 | EI never fails. Its record is exactly {model, maximize = the optimizer's direction, best_f = best value}, and λ is untouched. |
| Acquisition.CostAwareArgs | pandora_bayesopt/bayesianoptimizer.py:70-76 | EI with cost fails exactly when cooling is on and the budget is unset (AttributeError) or zero (ZeroDivisionError). Its record is exactly {model, maximize = the direction, best_f = best value, cost = the cost model}. With cooling it also holds alpha = the clamped remaining budget fraction (`CoolingAlpha`), which is ≥ 0, and ≤ 1 under a positive budget and non-negative spending. |
| Acquisition.GittinsArgs | pandora_bayesopt/bayesianoptimizer.py:78-127 | The Gittins index succeeds exactly when λ selection does. Its record is exactly {model, maximize = the direction, lmbda = the selected λ, cost = the cost model}, and a fixed λ passes through unchanged. |
| Acquisition.PassThroughArgs | pandora_bayesopt/bayesianoptimizer.py:129-130 | Any other policy never fails, and its record is the base entries overridden by the caller's options. |
| Controller.Step | pandora_bayesopt/bayesianoptimizer.py:61-153 | A successful step leaves a consistent λ state (λ is None only while a recompute is pending). |
| Controller.Record | pandora_bayesopt/bayesianoptimizer.py:142-153 | The recorded state keeps a consistent λ state. |
| Controller.StartRun | pandora_bayesopt/bayesianoptimizer.py:177-186 | Sets the budget and keeps the λ state consistent. |
| Controller.StartRunKeepsValid | pandora_bayesopt/bayesianoptimizer.py:177-186 | The start of a run keeps the histories in step. |
| Controller.Advance | pandora_bayesopt/bayesianoptimizer.py:188-189 | A run stopped on an error stays stopped. |
| Controller.Steps | pandora_bayesopt/bayesianoptimizer.py:188-189 | Every prefix of a run keeps a consistent λ state. |
| Controller.RecordFields | pandora_bayesopt/bayesianoptimizer.py:142-153 | Appends the point and value and the new best. Adds the query's cost to the total and appends it. Sets the re-arm flag on a schedule when the trigger fires, and changes nothing else. |
| Controller.HistoriesAppend | pandora_bayesopt/bayesianoptimizer.py:145-148 | After one more observation the best history and the cost history are still those of all observations. |
| Controller.AppendKeepsValid | pandora_bayesopt/bayesianoptimizer.py:145-148 | Appending an observation with its best value and cost keeps the invariant. |
| Controller.RecordKeepsValid | pandora_bayesopt/bayesianoptimizer.py:142-153 | Recording keeps the invariant. |
| Controller.StepKeepsValid | pandora_bayesopt/bayesianoptimizer.py:61-153 | A successful step keeps the invariant, adds one cost-history entry, and adds the query's cost to the total. |
| Controller.StepOutcomeValid | pandora_bayesopt/bayesianoptimizer.py:61-153 | The state after a step is valid whether the step succeeded or raised (and left the state as it was). |
| Controller.StepRearms | pandora_bayesopt/bayesianoptimizer.py:151-153 | On a Gittins schedule, the recompute flag after a step is set iff acq < best_f (maximizing) or −acq > best_f (minimizing). Otherwise the λ state is unchanged. |
| Controller.BestHistoryMonotone | pandora_bayesopt/bayesianoptimizer.py:57-59 | Entry i of the best history is the best of the observations by then, and the history never gets worse. |
| Controller.ConstantCostHistory | pandora_bayesopt/bayesianoptimizer.py:162-165 | Under a constant cost c, cost-history entry k is k·c and the cumulative cost is (entries − 1)·c. |
| Controller.CostHistoryEntries | pandora_bayesopt/bayesianoptimizer.py:156-165 | There is one cost entry per query after the batch plus one, and entry k is the cost of the first k queries. |
| Controller.CostHistoryNonDecreasing | pandora_bayesopt/bayesianoptimizer.py:156-165 | With non-negative query costs, the cost history is non-negative and never decreases. |
| Controller.RegretBounds | pandora_bayesopt/bayesianoptimizer.py:222-232 | Against an optimum no observation beats, regret is non-negative and never grows. |
| Controller.AdvanceKeepsValid | pandora_bayesopt/bayesianoptimizer.py:188-189 | One more step of a run keeps the invariant. |
| Controller.StepsStopAtError | pandora_bayesopt/bayesianoptimizer.py:188-189 | After a step raises, later steps change nothing. |
| Controller.StepsKeepValid | pandora_bayesopt/bayesianoptimizer.py:188-189 | A whole run keeps the invariant. |
| Controller.StepsCostLength | pandora_bayesopt/bayesianoptimizer.py:165 | A run of n steps without error adds exactly n cost-history entries. |
| Controller.StepsExtend | pandora_bayesopt/bayesianoptimizer.py:188-189 | Step n+1 of a run is one `iterate` step from the state after n steps. |
| Controller.StepBack | pandora_bayesopt/bayesianoptimizer.py:205-206 | With a non-negative query cost, a successful step follows a successful one and the total does not fall. |
| Controller.BeganBelowBudget | pandora_bayesopt/bayesianoptimizer.py:205 | With every query costing a non-negative amount: if the last step began without error and below the budget, so did every earlier one. |
| Controller.BudgetPrefix | pandora_bayesopt/bayesianoptimizer.py:205 | With every query costing a non-negative amount, all steps before one begun below the budget began below it too. |
| Controller.BudgetStopUnique | pandora_bayesopt/bayesianoptimizer.py:205-208 | The stopping point of a budgeted run is unique. |
| Controller.StartedBelowBudgetExtend | pandora_bayesopt/bayesianoptimizer.py:205-206 | A step begun without error and below the budget extends the run of steps that all began so. |
| Controller.StepsSpendAtLeast | pandora_bayesopt/bayesianoptimizer.py:205-208 | When every query costs at least m, a run that completes n steps without error has spent at least n·m. |
| Controller.SpendStep | pandora_bayesopt/bayesianoptimizer.py:205-208 | If every query costs at least m, step k+1 keeps a run that had spent at least k·m spending at least (k+1)·m. |
| Controller.MinCostReachesBudget | pandora_bayesopt/bayesianoptimizer.py:205-208 | When every query costs at least some positive amount, there is a step count by which a budgeted run raises or reaches the budget, so the loop ends. |
| RunProperties.HalvingStep | pandora_bayesopt/bayesianoptimizer.py:117-122 | A halving step succeeds. It halves λ if a recompute is pending and keeps it otherwise, and appends the λ used. |
| RunProperties.EIpuStep | pandora_bayesopt/bayesianoptimizer.py:79-115 | An EIpu step under a callable cost succeeds. It takes the min of the previous λ and half the subsidiary maximum when pending, keeps λ otherwise, and appends the λ used. |
| RunProperties.HalvedLambdaIs | pandora_bayesopt/bayesianoptimizer.py:119 | After k halvings of 0.1, λ is 0.1/2^k and positive. |
| RunProperties.HalvedLambdaMonotone | pandora_bayesopt/bayesianoptimizer.py:119 | More halvings never give a larger λ. |
| RunProperties.HalvedOnce | pandora_bayesopt/bayesianoptimizer.py:118-120 | Halving (or keeping) λ after k halvings gives λ after k+1 (or k). |
| RunProperties.HalvingAdvance | pandora_bayesopt/bayesianoptimizer.py:117-122 | One more halving step of a run succeeds and appends the λ used. |
| RunProperties.HalvingRunShape | pandora_bayesopt/bayesianoptimizer.py:117-122 | A halving run never fails. λ is always set, and the λ history has one entry per step, the last being the current λ. |
| RunProperties.HalvingShapeStep | pandora_bayesopt/bayesianoptimizer.py:117-122 | One more halving step keeps the run error-free with λ set, adds one λ history entry, and that entry is the current λ. |
| RunProperties.HalvingCurrent | pandora_bayesopt/bayesianoptimizer.py:117-122 | After n halving steps, λ is 0.1 halved once for each step that began with a recompute pending. |
| RunProperties.HalvingCurrentStep | pandora_bayesopt/bayesianoptimizer.py:118-120 | Step m halves λ exactly when it began with a recompute pending, so λ after it is 0.1 halved once per such step. |
| RunProperties.HalvingPositive | pandora_bayesopt/bayesianoptimizer.py:117-122 | On a halving run, λ stays positive. |
| RunProperties.HalvingHistoryNonIncreasing | pandora_bayesopt/bayesianoptimizer.py:117-122 | The λ history of a halving run never increases. |
| RunProperties.HalvingSchedule | pandora_bayesopt/bayesianoptimizer.py:117-122 | A halving run starts at λ = 0.1 and never fails. After n steps λ is 0.1/2^k, where k is the number of steps that began with a recompute pending. The history has n entries ending in λ, and it never increases. |
| RunProperties.EIpuAdvance | pandora_bayesopt/bayesianoptimizer.py:79-115 | One more EIpu step under a callable cost succeeds with the EIpu-derived (or kept) λ, and appends it. |
| RunProperties.EIpuRunShape | pandora_bayesopt/bayesianoptimizer.py:79-115 | An EIpu run under a callable cost never fails, and its λ history has one entry per step, the last being the current λ. |
| RunProperties.EIpuShapeStep | pandora_bayesopt/bayesianoptimizer.py:79-115 | One more EIpu step under a callable cost keeps the run error-free, adds one λ history entry, and that entry is the current λ. |
| RunProperties.EIpuHistoryNonIncreasing | pandora_bayesopt/bayesianoptimizer.py:92-95 | The λ history of an EIpu run never increases. |
| RunProperties.EIpuFirstEntry | pandora_bayesopt/bayesianoptimizer.py:92-93 | The first λ is half the first subsidiary maximum, or 0.1 when the halving reset also ran. |
| RunProperties.EIpuSchedule | pandora_bayesopt/bayesianoptimizer.py:79-115 | An EIpu run under a callable cost never fails. Its history has n entries ending in λ, it starts at v/2 (or 0.1), and it never increases. |
| RunProperties.ConstantCostEIpuFails | pandora_bayesopt/bayesianoptimizer.py:97-111 | Under a constant cost, an EIpu run without halving raises UnboundLocalError for `alpha` on its first step and records nothing. |
| RunProperties.FixedLambdaRun | pandora_bayesopt/bayesianoptimizer.py:124-125 | With neither schedule, the λ state is untouched. The run never fails if `lmbda` was passed, and otherwise stops at once with KeyError. |
| RunProperties.ConstantCostAfter | pandora_bayesopt/bayesianoptimizer.py:162-165 | Under a constant cost c, a valid state with k cost-history steps has spent k·c. |
| RunProperties.ConstantCostRun | pandora_bayesopt/bayesianoptimizer.py:162-165 | Under a constant cost c, a run of n steps without error goes from m·c to (m + n)·c, m being the earlier queries. |
| RunProperties.ConstantCostBudgetStop | pandora_bayesopt/bayesianoptimizer.py:204-208 | Under a constant cost c, a budgeted run without error stops at the first count whose (m + steps)·c reaches the budget. |

`Controller.Scaled(k, c)` is k·c added up one step at a time, and
`Controller.ScaledIsProduct` proves the two equal.

## Left out

- Fitting the Gaussian-process surrogate, `optimize_acqf`, the acquisition functions' formulas and the objective are external. Their answers arrive as `StepInput` values, and the surrogate is the opaque `Surrogate` entry of the record.
- The EI-derived λ under a constant cost is not modelled beyond its UnboundLocalError, because the source never computes it.
- Printing (lines 113, 167-174, 190 and 207) is left out. `print_iteration_info` reads `lmbda_history[-1]` and can raise IndexError when that history is empty, for instance in a later run after a scheduled run of zero steps. That error is not modelled.
- The plotting helper at the top of the file, the `bounds` tensor, `input_standardize` and `kernel` are left out, because they only feed the surrogate fit and the acquisition optimizer.
- Failures inside the collaborators are not modelled, nor the partial updates they leave. If the acquisition class or `optimize_acqf` raises (lines 132-141), the λ schedule has already set `current_lmbda`, cleared `need_lmbda_update` and appended to `lmbda_history` (lines 93-95 and 112-122). If a callable cost raises at line 159, `x`, `y`, `best_f` and `best_history` are already updated (lines 145-147) and `cost_history` is one entry short. The model's steps either succeed or raise one of the errors in `Options.Error` with no change.
- Tensors are sequences of exact reals, and floating-point rounding is not modelled.
- Point dimensions are not checked, and the source does not check them either.
- BayesOpt.BayesianOptimizer.constructor: requires a non-empty initial batch with one value per point, because `y.max()` of an empty tensor raises, and that error is not modelled.
- BayesOpt.BayesianOptimizer.Run: `num_iterations` is an integer. A non-integer count (which `range` rejects) is not modelled.
- BayesOpt.BayesianOptimizer.RunUntilBudget: requires a step count by which the run raises or reaches the budget. Without one the loop of the source does not end, and modelling a loop that never ends is left out. `Controller.MinCostReachesBudget` supplies such a count when every query costs at least some positive amount.
