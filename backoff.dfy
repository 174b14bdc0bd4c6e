/**
 * The reconnect delay shared by the room client hook and the stream overlay:
 * `Math.floor(Math.min(base * 2 ** (attempts - 1), 30000) + Math.random() * 300)`.
 * The random part enters as the integer `jitter`, the floored delay minus
 * the exponential part. Over the reals it would lie in [0, 299]; in IEEE-754
 * doubles the sum `expo + Math.random() * 300` rounds up to `expo + 300` for a
 * draw just below 1 (such as 1 - 2^-52), so `jitter` ranges over [0, 300].
 */
module Backoff {
  import opened Wrappers

  const CAP_DELAY_MS: nat := 30000
  const JITTER_BOUND_MS: nat := 300
  const MAX_ATTEMPTS: nat := 10

  /** `2 ** n`, which outgrows `n` itself. */
  function Pow2(n: nat): (r: nat)
    ensures r > n
  {
    if n == 0 then 1 else 2 * Pow2(n - 1)
  }

  /** `Math.min(base * 2 ** (attempts - 1), 30000)` for the attempt number `attempts >= 1`. */
  function ExpoDelay(base: nat, attempts: nat): (d: nat)
    requires attempts >= 1
    ensures d <= CAP_DELAY_MS
  {
    var raw := base * Pow2(attempts - 1);
    if raw < CAP_DELAY_MS then raw else CAP_DELAY_MS
  }

  /** A jitter the rounded `Math.floor(expo + Math.random() * 300)` can add. */
  predicate ValidJitter(jitter: int) {
    0 <= jitter <= JITTER_BOUND_MS
  }

  /** The delay handed to `setTimeout` for retry number `attempts`. */
  function RetryDelay(base: nat, attempts: nat, jitter: int): (d: nat)
    requires attempts >= 1 && ValidJitter(jitter)
    ensures ExpoDelay(base, attempts) <= d <= ExpoDelay(base, attempts) + JITTER_BOUND_MS
    ensures d <= CAP_DELAY_MS + JITTER_BOUND_MS
  {
    ExpoDelay(base, attempts) + jitter
  }

  /**
   * What a close handler schedules once it has raised its attempt counter to
   * `attempts`: nothing when the counter exceeds MAX_ATTEMPTS, else a retry
   * after `RetryDelay`.
   */
  function NextRetry(base: nat, attempts: nat, jitter: int): (d: Option<nat>)
    requires attempts >= 1 && ValidJitter(jitter)
    ensures d.None? <==> attempts > MAX_ATTEMPTS
    ensures d.Some? ==> ExpoDelay(base, attempts) <= d.value <= ExpoDelay(base, attempts) + JITTER_BOUND_MS
  {
    if attempts > MAX_ATTEMPTS then None else Some(RetryDelay(base, attempts, jitter))
  }

  /** The exponential part doubles from one attempt to the next until it hits the cap. */
  lemma ExpoDoublesUntilCap(base: nat, attempts: nat)
    requires attempts >= 1
    ensures ExpoDelay(base, attempts + 1) == if 2 * ExpoDelay(base, attempts) < CAP_DELAY_MS
                                                then 2 * ExpoDelay(base, attempts) else CAP_DELAY_MS
  {
    var raw := base * Pow2(attempts - 1);
    assert base * Pow2(attempts) == 2 * raw;
  }

  /** Retrying later never waits less (ignoring jitter): the exponential part is monotone. */
  lemma {:induction false} ExpoMonotone(base: nat, a: nat, b: nat)
    requires 1 <= a <= b
    ensures ExpoDelay(base, a) <= ExpoDelay(base, b)
    decreases b - a
  {
    if a < b {
      ExpoDoublesUntilCap(base, a);
      ExpoMonotone(base, a + 1, b);
    }
  }

  /**
   * The cap takes over once `base * 2 ** (attempts - 1)` reaches 30000: from the
   * 6th attempt for a base of 1000 ms, from the 7th for a base of 500 ms.
   */
  lemma CapReached(base: nat, attempts: nat)
    requires (base == 1000 && attempts >= 6) || (base == 500 && attempts >= 7)
    ensures ExpoDelay(base, attempts) == CAP_DELAY_MS
  {
    var first := if base == 1000 then 6 else 7;
    assert ExpoDelay(base, first) == CAP_DELAY_MS by {
      assert Pow2(5) == 32 && Pow2(6) == 64;
    }
    ExpoMonotone(base, first, attempts);
  }
}
