/** The boundary of the external IRR solver. Its numerics are not modelled: a solver
    is any function from a dated cash-flow list to one of its three possible answers,
    and the services receive it as a parameter. */
module Xirr {
  import opened Models

  /** One entry of the solver's input: a date and a signed amount. */
  type DatedAmount = (Date, real)

  /** A rate; no rate (stored as null); or payments the solver rejects by raising. */
  datatype XirrOutcome = Rate(rate: real) | NoSolution | Rejected

  type Solver = seq<DatedAmount> -> XirrOutcome

  /** What assigning the solver's answer to an IRR column stores, or the error it raises. */
  function Stored(outcome: XirrOutcome): (r: Result<Option<real>>)
    ensures r.Err? <==> outcome.Rejected?
    ensures r.Err? ==> r.error == InvalidPayments
    ensures r.Ok? ==> (r.value.Some? <==> outcome.Rate?)
    ensures outcome.Rate? ==> r == Ok(Some(outcome.rate))
  {
    match outcome
    case Rate(x) => Ok(Some(x))
    case NoSolution => Ok(None)
    case Rejected => Err(InvalidPayments)
  }
}
