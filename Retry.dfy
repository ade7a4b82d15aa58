/**
 * The bounded retry loop wrapped around every remote call (`create_embedding` and `inference`
 * in app_minimal.py, process_incoming.py and preprocess.py). The remote service is an oracle:
 * `call(k)` is what attempt number `k` (0-based) returns, `None` for a raised exception.
 * Sleeping is counted, not performed.
 */
module Retry {
  import opened Wrappers

  /** How a retry loop ends. `NoAttempts` is Python falling off the end of
      `for attempt in range(max_retries)` when `max_retries <= 0`, which returns `None`. */
  datatype RetryResult<T> =
    | Succeeded(value: T, index: nat)
    | Exhausted(attempts: nat)
    | NoAttempts

  /** The number of `max_retries` every call site uses (the parameter's default). */
  const MaxRetries: int := 3

  /** The first attempt in `[from, to)` that succeeds, if any. */
  function FirstSuccess<T>(call: nat -> Option<T>, from: nat, to: nat): (k: Option<nat>)
    decreases to as int - from as int
    ensures k.Some? ==> from <= k.value < to && call(k.value).Some?
    ensures k.Some? ==> forall i :: from <= i < k.value ==> call(i).None?
    ensures k.None? ==> forall i :: from <= i < to ==> call(i).None?
  {
    if to <= from then None
    else if call(from).Some? then Some(from)
    else FirstSuccess(call, from + 1, to)
  }

  /** What a retry loop with `maxRetries` attempts returns. */
  function RetryOf<T>(maxRetries: int, call: nat -> Option<T>): RetryResult<T>
  {
    if maxRetries <= 0 then NoAttempts
    else match FirstSuccess(call, 0, maxRetries as nat)
      case Some(k) => Succeeded(call(k).value, k)
      case None => Exhausted(maxRetries as nat)
  }

  /** `time.sleep(2)` runs after every failed attempt but the last one. */
  function SleepsOf<T>(r: RetryResult<T>): nat
  {
    match r
    case Succeeded(_, k) => k
    case Exhausted(n) => if n == 0 then 0 else n - 1
    case NoAttempts => 0
  }

  /** The retry outcome, stated outright: at most `maxRetries` attempts, the first success is
      returned (attempt `k` succeeds after `k` failures), and the loop gives up only after
      `maxRetries` consecutive failures. */
  lemma RetryOfMeaning<T>(maxRetries: int, call: nat -> Option<T>)
    ensures RetryOf(maxRetries, call).NoAttempts? <==> maxRetries <= 0
    ensures RetryOf(maxRetries, call).Exhausted? <==>
              1 <= maxRetries && forall i :: 0 <= i < maxRetries ==> call(i).None?
    ensures RetryOf(maxRetries, call).Exhausted? ==> RetryOf(maxRetries, call).attempts == maxRetries
    ensures forall v, k: nat ::
              RetryOf(maxRetries, call) == Succeeded(v, k) <==>
                k < maxRetries && call(k) == Some(v) && forall i :: 0 <= i < k ==> call(i).None?
  {
    if 1 <= maxRetries {
      var f := FirstSuccess(call, 0, maxRetries as nat);
      forall v, k: nat | k < maxRetries && call(k) == Some(v) && (forall i :: 0 <= i < k ==> call(i).None?)
        ensures RetryOf(maxRetries, call) == Succeeded(v, k)
      {
        assert call(k).Some?;
        assert f == Some(k);
      }
    }
  }

  /** The `for attempt in range(max_retries)` loop with its `try`/`except`, its
      `if attempt == max_retries - 1: raise` and its `time.sleep(2)`. */
  method CallWithRetry<T>(maxRetries: int, call: nat -> Option<T>) returns (r: RetryResult<T>, sleeps: nat)
    ensures r == RetryOf(maxRetries, call)
    ensures sleeps == SleepsOf(r)
  {
    var attempt: nat := 0;
    sleeps := 0;
    while attempt < maxRetries
      invariant 1 <= maxRetries ==> attempt < maxRetries
      invariant maxRetries <= 0 ==> attempt == 0
      invariant forall i :: 0 <= i < attempt ==> call(i).None?
      invariant sleeps == attempt
    {
      var outcome := call(attempt);
      if outcome.Some? {
        assert FirstSuccess(call, 0, maxRetries as nat) == Some(attempt);
        return Succeeded(outcome.value, attempt), sleeps;
      }
      if attempt == maxRetries - 1 {
        return Exhausted(maxRetries as nat), sleeps;
      }
      sleeps := sleeps + 1;
      attempt := attempt + 1;
    }
    r := NoAttempts;
  }
}
