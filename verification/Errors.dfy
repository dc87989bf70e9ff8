// The error values the patterns classify (ferrors/errors.go, budget/budget.go, context).
// errors.Is walks a chain of wrapped errors, so an error is what it matches.
module Errors {
  type Sentinel = int

  const CIRCUIT_OPEN: Sentinel := 0
  const RATE_LIMIT_EXCEEDED: Sentinel := 1
  const BULKHEAD_FULL: Sentinel := 2
  const BUDGET_EXCEEDED: Sentinel := 3
  const CONTEXT_CANCELED: Sentinel := 4
  const DEADLINE_EXCEEDED: Sentinel := 5

  /** marked: some error in the chain says of itself that it is retryable. */
  datatype Error = Error(matches: set<Sentinel>, marked: bool)

  predicate Is(err: Error, sentinel: Sentinel) {
    sentinel in err.matches
  }
}
