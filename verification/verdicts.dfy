/** The outcome of checking a large invariant.

    A function to Verdict says no more than a predicate would. The difference is in the proofs: the body of a
    predicate is put in the place of every `requires` and `ensures` that names it, so that each step of a proof
    would carry all clauses of the invariant, while a verdict stays a single fact until a lemma about the
    function unfolds it. */
module Verdicts {
  datatype Verdict = Sound | Broken
}
