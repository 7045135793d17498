/**
 * The cron expression library the scheduler calls (cronexpr.Parse, MustParse and
 * Expression.Next), which is not part of this model. It is represented by two opaque
 * function values: `parse` (None when the expression is accepted, otherwise the
 * error it reports) and `next` (the next matching instant strictly after a time).
 */
module Cron {
  import opened Wrappers

  datatype Evaluator = Evaluator(parse: string -> Option<Error>, next: (string, int) -> int)

  /** The expression is accepted by the library's parser. */
  predicate Parses(ev: Evaluator, expr: string)
  {
    ev.parse(expr).None?
  }

  /** The contract the scheduler relies on: for an accepted expression, the next
      occurrence lies strictly after the reference time. */
  ghost predicate Lawful(ev: Evaluator)
  {
    forall expr: string, t: int :: Parses(ev, expr) ==> ev.next(expr, t) > t
  }

  /** Every evaluator the model is given obeys that contract. */
  type Cron = ev: Evaluator | Lawful(ev) witness Evaluator(_ => None, (_, t) => t + 1)
}
