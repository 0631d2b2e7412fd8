/** The exceptions the amortization engine raises, and the failure-compatible
    result type every fallible operation returns instead of throwing. */
module Failures {

  /** One constructor per exception the engine can raise. */
  datatype Error =
    | DayBelowOne              // "Day can't be less than 1"
    | DayAboveThirtyOne        // "Day can't be more than 31"
    | EndBeforeStart           // "End cant be earlier than start"
    | InvalidFrequency         // "Invalid Frequency - ..."
    | InvalidDate              // a DateTime constructed with a day outside its month
    | DateOutOfRange           // a DateTime stepped before 0001-01-01
    | DivideByZero             // decimal division by zero
    | IdealRepaymentZero       // "Ideal Repyment Cant Be Zero"
    | NoRepaymentOption        // "No repayment option specified"
    | TooManyRepaymentOptions  // "Too many repayment options specified"
    | NotEnoughInstances       // "Not enough repayment instances to repay full term..."
    | NoMonthlyMultiplier      // "No monthly multiplier value supplied..."
    | InterestRateZero         // "interest rate can't be 0"
    | ScheduleIncomplete       // "Failure to complete schedule..."
    | DoesNotTerminate         // a loop of the source that would not finish within the fuel given

  datatype Result<+T> = Ok(value: T) | Err(error: Error) {
    predicate IsFailure() { Err? }

    function PropagateFailure<U>(): Result<U>
      requires Err?
    {
      Err(error)
    }

    function Extract(): T
      requires Ok?
    {
      value
    }
  }

  datatype Option<+T> = None | Some(value: T)
}
