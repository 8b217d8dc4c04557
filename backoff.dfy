/** The retry-delay arithmetic of the reconnecting socket: its defaults and the
    capped growth step `min(floor(ts * jitter), maxTs)`. */
module Backoff {
  import opened Js

  /** Default shortest retry delay, in milliseconds. */
  const MinReconnTs: int := 200
  /** Default longest retry delay, in milliseconds. */
  const MaxReconnTs: int := 600000
  /** Default growth multiplier 1.2. */
  const DefaultJitter: Fraction := Ratio(6, 5)

  predicate AtLeastOne(jitter: Fraction) {
    jitter.den <= jitter.num
  }

  /** The delay used for the retry after the one that waited `ts`. */
  function NextBackoff(ts: int, jitter: Fraction, maxTs: int): (r: int)
    ensures r <= maxTs
    ensures r * jitter.den <= ts * jitter.num
    ensures r < maxTs ==> ts * jitter.num < (r + 1) * jitter.den
    ensures 0 <= ts <= maxTs && AtLeastOne(jitter) ==> ts <= r
  {
    var t := FloorMul(ts, jitter);
    GrowthNotBelow(ts, jitter, t);
    if t > maxTs then maxTs else t
  }

  /** Multiplying a non-negative delay by at least 1 and rounding down does not shrink it. */
  lemma GrowthNotBelow(ts: int, jitter: Fraction, t: int)
    requires ts * jitter.num < (t + 1) * jitter.den
    ensures 0 <= ts && AtLeastOne(jitter) ==> ts <= t
  {
    if 0 <= ts && AtLeastOne(jitter) {
      assert ts * jitter.den <= ts * jitter.num by {
        assert ts * (jitter.num - jitter.den) >= 0;
      }
    }
  }

  /** The n-th retry delay after `reconnect()` reset the interval to minTs,
      when no successful connection resets it in between. */
  function Delay(minTs: int, jitter: Fraction, maxTs: int, n: nat): int {
    if n == 0 then minTs else NextBackoff(Delay(minTs, jitter, maxTs, n - 1), jitter, maxTs)
  }

  /** With a multiplier of at least 1 and minTs <= maxTs, the delays never
      shrink and never leave [minTs, maxTs]. */
  lemma {:induction false} DelaysGrowWithinBounds(minTs: int, jitter: Fraction, maxTs: int, n: nat)
    requires 0 <= minTs <= maxTs && AtLeastOne(jitter)
    ensures minTs <= Delay(minTs, jitter, maxTs, n) <= Delay(minTs, jitter, maxTs, n + 1) <= maxTs
  {
    if n > 0 {
      DelaysGrowWithinBounds(minTs, jitter, maxTs, n - 1);
    }
  }
}
