/** The retry decision taken after a failed plugin run. */
module RetryPolicy {
  import opened Base

  /** What the policy looks at: a plugin that answered status "error" may veto retries. */
  datatype Failure = Failure(exitCode: int, answeredError: bool, retryHint: Option<bool>)
  datatype Decision = Decision(retryable: bool, exhausted: bool)

  const NON_RETRYABLE_EXIT := 78
  const DEFAULT_RETRY_ATTEMPTS := 4

  function EffectiveMaxAttempts(jobMax: int, pluginMax: Option<int>): int {
    if jobMax > 0 then jobMax
    else if pluginMax.Some? && pluginMax.value > 0 then pluginMax.value
    else DEFAULT_RETRY_ATTEMPTS
  }

  function Decide(failure: Failure, attempt: int, jobMax: int, pluginMax: Option<int>): Decision {
    if failure.exitCode == NON_RETRYABLE_EXIT then Decision(false, false)
    else if failure.answeredError && failure.retryHint == Some(false) then Decision(false, false)
    else
      var limit := EffectiveMaxAttempts(jobMax, pluginMax);
      Decision(true, limit > 0 && attempt >= limit)
  }

  predicate ShouldRetry(decision: Decision) {
    decision.retryable && !decision.exhausted
  }
}
