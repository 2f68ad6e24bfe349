/**
 * The bounded retry loop shared by the three stock operations of
 * lib/actions/stock.actions.ts, as a combinator over abstract attempt outcomes.
 *
 * Attempt `k` (1-based) of a call either completes, fails with a transient
 * write conflict, or fails with any other error. A conflict before the last
 * attempt waits `k * 100` ms and tries again; everything else ends the loop.
 */
module TransactionRetry {

  const MAX_RETRY: nat := 3
  /** Base of the linear backoff, in milliseconds. */
  const BACKOFF_MS: nat := 100

  datatype Attempt<+T, +E> = Done(value: T) | Conflict(error: E) | Fatal(error: E)

  datatype Outcome<+T, +E> = Success(value: T) | Failure(error: E)

  /** What a whole call did: its outcome, how many attempts it made and the delays it waited. */
  datatype Run<+T, +E> = Run(outcome: Outcome<T, E>, attempts: nat, delays: seq<nat>)

  /** The loop from attempt `attempt` on. */
  function RetryFrom<T, E>(attemptAt: nat -> Attempt<T, E>, attempt: nat): (r: Run<T, E>)
    requires 1 <= attempt <= MAX_RETRY
    decreases MAX_RETRY - attempt
    ensures attempt <= r.attempts <= MAX_RETRY
    ensures forall k :: attempt <= k < r.attempts ==> attemptAt(k).Conflict?
    ensures |r.delays| == r.attempts - attempt
    ensures forall j :: 0 <= j < |r.delays| ==> r.delays[j] == (attempt + j) * BACKOFF_MS
    ensures attemptAt(r.attempts).Done? ==> r.outcome == Success(attemptAt(r.attempts).value)
    ensures attemptAt(r.attempts).Fatal? ==> r.outcome == Failure(attemptAt(r.attempts).error)
    ensures attemptAt(r.attempts).Conflict? ==> r.attempts == MAX_RETRY && r.outcome == Failure(attemptAt(r.attempts).error)
  {
    match attemptAt(attempt)
    case Done(v) => Run(Success(v), attempt, [])
    case Fatal(e) => Run(Failure(e), attempt, [])
    case Conflict(e) =>
      if attempt < MAX_RETRY then
        var rest := RetryFrom(attemptAt, attempt + 1);
        Run(rest.outcome, rest.attempts, [attempt * BACKOFF_MS] + rest.delays)
      else
        Run(Failure(e), attempt, [])
  }

  function Retry<T, E>(attemptAt: nat -> Attempt<T, E>): Run<T, E>
  {
    RetryFrom(attemptAt, 1)
  }

  /** A conflict before the last attempt waits and hands over to the next attempt. */
  lemma RetryFromConflict<T, E>(attemptAt: nat -> Attempt<T, E>, attempt: nat)
    requires 1 <= attempt < MAX_RETRY
    requires attemptAt(attempt).Conflict?
    ensures var rest := RetryFrom(attemptAt, attempt + 1);
      RetryFrom(attemptAt, attempt) == Run(rest.outcome, rest.attempts, [attempt * BACKOFF_MS] + rest.delays)
  {
  }

  /** The `for (attempt = 1; attempt <= MAX_RETRY; attempt++)` loop itself. */
  method RunWithRetry<T, E>(attemptAt: nat -> Attempt<T, E>) returns (r: Run<T, E>)
    ensures r == Retry(attemptAt)
  {
    var attempt := 1;
    var delays: seq<nat> := [];
    while true
      invariant 1 <= attempt <= MAX_RETRY
      invariant Retry(attemptAt).outcome == RetryFrom(attemptAt, attempt).outcome
      invariant Retry(attemptAt).attempts == RetryFrom(attemptAt, attempt).attempts
      invariant Retry(attemptAt).delays == delays + RetryFrom(attemptAt, attempt).delays
      decreases MAX_RETRY - attempt
    {
      match attemptAt(attempt)
      case Done(v) =>
        return Run(Success(v), attempt, delays);
      case Fatal(e) =>
        return Run(Failure(e), attempt, delays);
      case Conflict(e) =>
        if attempt < MAX_RETRY {
          RetryFromConflict(attemptAt, attempt);
          assert delays + ([attempt * BACKOFF_MS] + RetryFrom(attemptAt, attempt + 1).delays)
              == (delays + [attempt * BACKOFF_MS]) + RetryFrom(attemptAt, attempt + 1).delays;
          delays := delays + [attempt * BACKOFF_MS];
          attempt := attempt + 1;
        } else {
          return Run(Failure(e), attempt, delays);
        }
    }
  }

  /**
   * Conflicts are absorbed unless every attempt conflicts: the first
   * attempt that does not conflict decides the outcome.
   */
  lemma {:induction false} RetryAbsorbsConflicts<T, E>(attemptAt: nat -> Attempt<T, E>, k: nat)
    requires 1 <= k <= MAX_RETRY
    requires forall j :: 1 <= j < k ==> attemptAt(j).Conflict?
    requires !attemptAt(k).Conflict?
    ensures Retry(attemptAt).attempts == k
    ensures Retry(attemptAt).outcome == if attemptAt(k).Done? then Success(attemptAt(k).value) else Failure(attemptAt(k).error)
  {
    var r := Retry(attemptAt);
    assert r.attempts <= k by {
      if r.attempts > k { assert false; }
    }
  }
}
