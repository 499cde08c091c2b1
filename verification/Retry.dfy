// What to do after a consume attempt, and how long to wait before the next one.

module Retry {
  import opened Models

  /** The answer of one POST /consume: a 2xx body with its code, another HTTP status,
      or no HTTP answer at all (network failure, timeout, unreadable body). */
  datatype ConsumeOutcome = Response(code: string) | HttpError(status: int) | NoAnswer

  datatype Decision = Success | TryAgain | Stop

  const RETRY_DELAYS: seq<int> := [MINUTE, 2 * MINUTE, 5 * MINUTE, 10 * MINUTE, 30 * MINUTE]
  const MAX_RETRIES: nat := 5
  const LONGEST_DELAY: int := 30 * MINUTE

  function Backoff(attempt: int): (d: int)
    ensures MINUTE <= d <= LONGEST_DELAY
  {
    if attempt < 1 || attempt > |RETRY_DELAYS| then RETRY_DELAYS[|RETRY_DELAYS| - 1]
    else RETRY_DELAYS[attempt - 1]
  }

  predicate IsClientError(o: ConsumeOutcome) {
    o.HttpError? && 400 <= o.status < 500
  }

  function Classify(o: ConsumeOutcome): Decision {
    match o
    case Response(code) =>
      if code == "reset" || code == "already_redeemed" then Success
      else Stop
    case _ => if IsClientError(o) then Stop else TryAgain
  }

  /** Backing off never shortens, and the five delays span 48 minutes. */
  lemma BackoffGrows(i: int, j: int)
    requires 1 <= i <= j
    ensures Backoff(i) <= Backoff(j)
    ensures Backoff(1) + Backoff(2) + Backoff(3) + Backoff(4) + Backoff(5) == 48 * MINUTE
  {
    assert i == 1 || i == 2 || i == 3 || i == 4 || i >= 5;
    assert j == 1 || j == 2 || j == 3 || j == 4 || j >= 5;
  }
}
