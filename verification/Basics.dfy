/** Shared by several modules. */
module Basics {
  datatype Option<T> = None | Some(value: T) {
    function UnwrapOr(default: T): T {
      match this
      case Some(v) => v
      case None => default
    }
  }

  /** Instants and periods are counted in microseconds. */
  const SECOND := 1_000_000
  const DAY := 86400 * SECOND

  /** Risk levels whose missions end in an approved external action. */
  predicate IsHighRisk(riskLevel: string) {
    riskLevel == "high" || riskLevel == "critical"
  }
}
