/** Exponential backoff of one sync entity, in milliseconds. */
module Backoff {

  const BASE_DELAY_MS := 5000
  const MAX_DELAY_MS := 300000
  const JITTER_MS := 2000

  function Pow2(n: nat): nat {
    if n == 0 then 1 else 2 * Pow2(n - 1)
  }

  /** The delay before jitter after the given number of failures in a row. */
  function BaseDelay(failures: nat): nat
    requires failures > 0
  {
    var d := BASE_DELAY_MS * Pow2(failures - 1);
    if d < MAX_DELAY_MS then d else MAX_DELAY_MS
  }

  /** `random` is the draw of `Math.random()`, in [0, 1). */
  function Delay(failures: nat, random: real): real
    requires failures > 0
  {
    BaseDelay(failures) as real + random * JITTER_MS as real
  }

  class Timer {
    var failures: nat
    var nextAllowedAt: real

    constructor ()
      ensures failures == 0 && nextAllowedAt == 0.0
    {
      failures, nextAllowedAt := 0, 0.0;
    }

    method RecordFailure(now: real, random: real)
      modifies this
      ensures failures == old(failures) + 1
      ensures nextAllowedAt == now + Delay(failures, random)
    {
      failures := failures + 1;
      nextAllowedAt := now + Delay(failures, random);
    }

    method RecordSuccess()
      modifies this
      ensures failures == 0 && nextAllowedAt == 0.0
    {
      failures, nextAllowedAt := 0, 0.0;
    }

    predicate IsBackedOff(now: real)
      reads this
    {
      now < nextAllowedAt
    }
  }

  lemma {:induction false} Pow2Grows(m: nat, n: nat)
    requires m <= n
    ensures 1 <= Pow2(m) <= Pow2(n)
    decreases n
  {
    if m < n {
      Pow2Grows(m, n - 1);
    } else if n > 0 {
      Pow2Grows(n - 1, n - 1);
    }
  }

  /** The delays before jitter, in milliseconds: doubled from five seconds up to five minutes, where they
      stay; the jitter adds up to two seconds. */
  lemma DelayTable(failures: nat, random: real)
    requires failures > 0
    ensures Delay(failures, random) == random * 2000.0 + (
      match failures
      case 1 => 5000.0
      case 2 => 10000.0
      case 3 => 20000.0
      case 4 => 40000.0
      case 5 => 80000.0
      case 6 => 160000.0
      case _ => 300000.0)
  {
    assert Pow2(3) == 8 && Pow2(6) == 64;
    if failures >= 7 {
      Pow2Grows(6, failures - 1);
    }
  }

  /** Every delay lies in [5000, 302000) ms; before jitter it never shrinks while failures repeat,
      and from the seventh failure on it is the maximum. */
  lemma DelayBounds(failures: nat, random: real, later: nat)
    requires 0 < failures <= later && 0.0 <= random < 1.0
    ensures BASE_DELAY_MS as real <= Delay(failures, random) < (MAX_DELAY_MS + JITTER_MS) as real
    ensures BaseDelay(failures) <= BaseDelay(later)
    ensures BaseDelay(failures) == MAX_DELAY_MS <==> failures >= 7
  {
    Pow2Grows(0, failures - 1);
    Pow2Grows(failures - 1, later - 1);
    assert Pow2(6) == 64 && Pow2(5) == 32;
    if failures >= 7 {
      Pow2Grows(6, failures - 1);
    } else {
      Pow2Grows(failures - 1, 5);
    }
  }
}
