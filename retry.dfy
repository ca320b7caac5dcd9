/**
 * The tenacity policy `stop_after_attempt(3)` around parse_rss_feed and get_gpt_response:
 * retry on every exception, give up after the third attempt and surface its error.
 * The fixed wait between attempts is not modelled.
 */
module Retry {
  import opened Wrappers

  const MaxAttempts: nat := 3

  /** What a retried call gives its caller: the final outcome and how many attempts ran. */
  datatype Attempted<T> = Attempted(outcome: Outcome<T>, attempts: nat)

  /** Retrying `step` (attempt k yields step(k)) from attempt k on. */
  function RetryFrom<T>(step: nat -> Outcome<T>, k: nat): (r: Attempted<T>)
    requires k < MaxAttempts
    ensures k < r.attempts <= MaxAttempts
    ensures r.outcome == step(r.attempts - 1)
    ensures forall j :: k <= j < r.attempts - 1 ==> step(j).Err?
    ensures r.outcome.Err? ==> r.attempts == MaxAttempts
    decreases MaxAttempts - k
  {
    if step(k).Ok? || k + 1 == MaxAttempts then Attempted(step(k), k + 1)
    else RetryFrom(step, k + 1)
  }

  /**
   * The whole policy: at most three attempts; the first success ends it, and an error
   * reaches the caller only when all three attempts failed, as the third attempt's error.
   */
  function Retried<T>(step: nat -> Outcome<T>): (r: Attempted<T>)
    ensures 1 <= r.attempts <= MaxAttempts
    ensures r.outcome == step(r.attempts - 1)
    ensures forall j :: 0 <= j < r.attempts - 1 ==> step(j).Err?
    ensures r.outcome.Err? <==> (forall j :: 0 <= j < MaxAttempts ==> step(j).Err?)
  {
    RetryFrom(step, 0)
  }

  /** The retry loop itself. */
  method RunWithRetry<T>(step: nat -> Outcome<T>) returns (outcome: Outcome<T>, attempts: nat)
    ensures Attempted(outcome, attempts) == Retried(step)
    ensures 1 <= attempts <= MaxAttempts
    ensures outcome.Err? ==> attempts == MaxAttempts && outcome == step(MaxAttempts - 1)
  {
    outcome := step(0);
    attempts := 1;
    while outcome.Err? && attempts < MaxAttempts
      invariant 1 <= attempts <= MaxAttempts
      invariant outcome == step(attempts - 1)
      invariant Retried(step) == RetryFrom(step, attempts - 1)
    {
      outcome := step(attempts);
      attempts := attempts + 1;
    }
  }

  /** A step that keeps failing is attempted exactly three times and surfaces one error. */
  lemma ExhaustedAfterThree<T>(step: nat -> Outcome<T>)
    requires forall j :: 0 <= j < MaxAttempts ==> step(j).Err?
    ensures Retried(step) == Attempted(step(2), 3)
  {
  }
}
