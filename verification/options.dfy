/**
 * What the caller hands `iterate`, `run` and `run_until_budget`: the acquisition
 * policy (a class in the source, a tagged variant here) and free-form keyword
 * options; and the errors those calls can raise.
 */
module Options {
  import opened Costs

  /** The acquisition function class the caller asks for. */
  datatype Policy =
    | ExpectedImprovement
    | ExpectedImprovementWithCost
    | GittinsIndex
    | OtherPolicy(name: string)

  /** A keyword-argument value, or an entry of the acquisition parameter record. */
  datatype Arg =
    | Flag(b: bool)
    | Num(x: real)
    | CostArg(cost: CostModel)
    | Surrogate        // the fitted surrogate model (opaque)
    | Opaque           // any other value, passed through uninterpreted

  /** Keyword options (`**acqf_kwargs`). */
  type Kwargs = map<string, Arg>

  /**
   * `kw.get(key) == True` in Python: the key is present and its value compares
   * equal to `True`, which `1` and `1.0` also do.
   */
  predicate IsTrue(kw: Kwargs, key: string)
  {
    key in kw &&
    match kw[key]
    case Flag(b) => b
    case Num(x) => x == 1.0
    case _ => false
  }

  /** The exceptions the core raises; each aborts the step before any state changes. */
  datatype Error =
    | AttributeError(attribute: string)   // an attribute `run` has not set yet
    | ZeroDivisionError                   // cost cooling with a zero budget
    | UnboundLocalError(variable: string) // `alpha` read in the constant-cost EIpu path
    | TypeError                           // halving a λ that is None
    | KeyError(key: string)               // the fixed-λ path without a `lmbda` option
}
