// budget/budget.go: costs and the ceiling they are compared with.
module BudgetCost {
  import opened Basics

  datatype Cost = Cost(tokens: int, usdMicros: int, calls: int) {
    function Add(o: Cost): Cost {
      Cost(tokens + o.tokens, usdMicros + o.usdMicros, calls + o.calls)
    }
  }

  const NOTHING := Cost(0, 0, 0)

  /** budget.New refuses a ceiling with no positive field. */
  predicate ValidMax(max: Cost) {
    max.tokens > 0 || max.usdMicros > 0 || max.calls > 0
  }

  /** Only positive fields of the ceiling are enforced. */
  predicate Over(max: Cost, c: Cost) {
    || (max.tokens > 0 && c.tokens > max.tokens)
    || (max.usdMicros > 0 && c.usdMicros > max.usdMicros)
    || (max.calls > 0 && c.calls > max.calls)
  }

  /** What a Charge result adds to the counters: its positive token and money fields only. */
  function Applied(charge: Cost): Cost {
    Cost(if charge.tokens > 0 then charge.tokens else 0,
         if charge.usdMicros > 0 then charge.usdMicros else 0,
         0)
  }

  predicate AtMost(a: Cost, b: Cost) {
    a.tokens <= b.tokens && a.usdMicros <= b.usdMicros && a.calls <= b.calls
  }

  /** A breach stays a breach as costs accumulate. */
  lemma OverIsMonotone(max: Cost, a: Cost, b: Cost)
    requires AtMost(a, b) && Over(max, a)
    ensures Over(max, b)
  {
  }

  // ----- What a charge is worth, and what a ceiling forbids, one by one -----

  /** Reported usage counts when it is positive. */
  function Tokens(charge: Cost): int {
    Max(0, charge.tokens)
  }

  function USD(charge: Cost): int {
    Max(0, charge.usdMicros)
  }

  /** A ceiling that is not positive forbids nothing. */
  predicate Exceeds(amount: int, ceiling: int) {
    ceiling > 0 && amount > ceiling
  }

  predicate AnyExceeds(max: Cost, tokens: int, usdMicros: int, calls: int) {
    Exceeds(tokens, max.tokens) || Exceeds(usdMicros, max.usdMicros) || Exceeds(calls, max.calls)
  }
}
