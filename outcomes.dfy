/** What one unit of work gives back to its caller: a value, or the exception it
    raised (kept as its message, enough to attribute the failure to its item). */
module Outcomes {

  datatype Outcome<+T> = Ok(value: T) | Err(error: string)

  /** Message of Python's ZeroDivisionError for `//` on two integers. */
  const DivisionByZero: string := "integer division or modulo by zero"

  /** What `ProcessPoolExecutor` raises for a worker count below one. */
  const NoWorkers: string := "max_workers must be greater than 0"
}
