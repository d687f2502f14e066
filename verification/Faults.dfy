/** Failures the environment may bring about. */
module Faults {
  /** Whether something goes wrong now: a write that fails, a call that is
      refused, a request that is cancelled. In calm times nothing does. */
  method Disturbed(calm: bool) returns (yes: bool)
    ensures calm ==> !yes
  {
    yes := *;
    if calm {
      yes := false;
    }
  }
}
