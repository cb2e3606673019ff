/** Facts that hold throughout, but that a proof looks into only where it asks for them. */
module Hints {
  /** Always true: a quantifier over Asked hides what it states until some Asked is mentioned. */
  ghost predicate Asked(i: int) {
    true
  }
}
