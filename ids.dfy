/** Correlation ids: `random(low, high)` and `getId`. An id is the decimal
    string of the integer built here; the model keeps the integer. */
module Ids {
  import opened Js

  /** Ids reserve five decimal digits for the random suffix. */
  const Spread: nat := 100000

  /** `Math.floor(u * (high - low) + low)` for a draw u of `Math.random()`. */
  function Random(low: int, high: int, u: UnitDraw): (r: int)
    requires low < high
    ensures low <= r < high
  {
    var k := FloorMul(high - low, u);
    assert k < high - low by {
      assert k * u.den <= (high - low) * u.num < (high - low) * u.den;
    }
    k + low
  }

  /** The id of a call made at clock reading `now` with random draw `u`,
      computed exactly. The millisecond and the suffix can be read back. */
  function GetId(now: nat, u: UnitDraw): (id: nat)
    ensures id / Spread == now
    ensures id % Spread == Random(0, Spread, u)
  {
    now * Spread + Random(0, Spread, u)
  }

  /** Ids generated in different milliseconds differ. */
  lemma IdsOfDistinctMillisDiffer(now1: nat, u1: UnitDraw, now2: nat, u2: UnitDraw)
    requires now1 != now2
    ensures GetId(now1, u1) != GetId(now2, u2)
  {
  }

  // ---------------------------------------------------------------------
  // The same computation in IEEE-754 double precision, as the source runs it.

  const MantissaRange: nat := 0x20_0000_0000_0000  // 2^53

  /** Spacing of the doubles around n: the least power of two p with n < 2^53 * p. */
  function Ulp(n: nat): (p: nat)
    ensures p >= 1 && n < MantissaRange * p
    ensures p == 1 || MantissaRange * p <= 2 * n
  {
    UlpFrom(n, 1)
  }

  function UlpFrom(n: nat, p: nat): (q: nat)
    requires p >= 1
    requires p == 1 || MantissaRange * p <= 2 * n
    ensures q >= p && n < MantissaRange * q
    ensures q == 1 || MantissaRange * q <= 2 * n
    decreases n - MantissaRange * p
  {
    if n < MantissaRange * p then p else UlpFrom(n, 2 * p)
  }

  /** n rounded to a multiple of p, to the nearest, ties to the even multiple. */
  function RoundToMultiple(n: nat, p: nat): (r: nat)
    requires p >= 1
    ensures r % p == 0
    ensures 2 * (r - n) <= p && 2 * (n - r) <= p
    ensures 2 * (r - n) == p || 2 * (n - r) == p ==> (r / p) % 2 == 0
  {
    var q := n / p;
    var rem := n % p;
    assert n == q * p + rem;
    assert q >= 0;
    if 2 * rem < p || (2 * rem == p && q % 2 == 0) then
      MultipleOf(q, p);
      q * p
    else
      assert (q + 1) * p == q * p + p;
      MultipleOf(q + 1, p);
      (q + 1) * p
  }

  lemma MultipleOf(q: nat, p: nat)
    requires p >= 1
    ensures (q * p) % p == 0 && (q * p) / p == q
  {
    DivModUnique(q * p, p, q, 0);
  }

  /** Euclidean division has one quotient and one remainder. */
  lemma DivModUnique(n: int, p: int, a: int, b: int)
    requires p >= 1 && n == a * p + b && 0 <= b < p
    ensures n / p == a && n % p == b
  {
    var x, y := n / p, n % p;
    var d := x - a;
    assert d * p == b - y by {
      assert x * p + y == a * p + b;
      assert d * p == x * p - a * p;
    }
    if d >= 1 {
      NonNegProduct(d - 1, p);
    } else if d <= -1 {
      NonNegProduct(-d - 1, p);
    }
  }

  lemma NonNegProduct(a: int, b: int)
    requires a >= 0 && b >= 0
    ensures a * b >= 0
  {
  }

  /** The double nearest to the non-negative integer n (round to nearest, ties
      to even): a multiple of the spacing of the doubles around n, within half
      of it, and the integer itself below 2^53. */
  function ToDouble(n: nat): (d: nat)
    ensures d % Ulp(n) == 0
    ensures 2 * (d - n) <= Ulp(n) && 2 * (n - d) <= Ulp(n)
    ensures 2 * (d - n) == Ulp(n) || 2 * (n - d) == Ulp(n) ==> (d / Ulp(n)) % 2 == 0
    ensures n < MantissaRange ==> d == n
  {
    RoundToMultiple(n, Ulp(n))
  }

  /** `Date.now() * 100000 + random(0, 100000)` evaluated in doubles. */
  function GetIdAsWritten(now: nat, u: UnitDraw): (id: nat)
    // Exact for every draw while (now + 1) * 100000 <= 2^53, that is, before
    // November 1972; later, a sum that is not a multiple of the spacing of the
    // doubles around it is rounded.
    ensures (now + 1) * Spread <= MantissaRange ==> id == GetId(now, u)
  {
    ToDouble(ToDouble(now * Spread) + Random(0, Spread, u))
  }

  /** At a clock reading of September 2019 the sum exceeds 2^57 and doubles
      there are 32 apart: a suffix of 99999 rounds up into the next
      millisecond, so the id equals the one drawn a millisecond later with
      suffix 0, and dividing by 100000 no longer yields the millisecond. */
  lemma IdCollisionAsWritten(now: nat)
    requires now == 1569456000000
    ensures GetIdAsWritten(now, Ratio(99999, 100000)) == GetIdAsWritten(now + 1, Ratio(0, 1))
    ensures GetIdAsWritten(now, Ratio(99999, 100000)) / Spread == now + 1
  {
    LastSuffixRoundsUp(now);
    FirstSuffixIsExact(now + 1);
  }

  lemma LastSuffixRoundsUp(now: nat)
    requires now == 1569456000000
    ensures GetIdAsWritten(now, Ratio(99999, 100000)) == 156945600000100000
  {
    assert FloorMul(Spread, Ratio(99999, 100000)) == 99999;
    IdRoundsTo(now, Ratio(99999, 100000), 99999, 4904550000003125);
  }

  lemma FirstSuffixIsExact(now: nat)
    requires now == 1569456000001
    ensures GetIdAsWritten(now, Ratio(0, 1)) == 156945600000100000
  {
    assert FloorMul(Spread, Ratio(0, 1)) == 0;
    IdRoundsTo(now, Ratio(0, 1), 0, 4904550000003125);
  }

  /** The double-precision id at a clock reading between 2^57 / 100000 and
      2^58 / 100000 milliseconds is the multiple of 32 nearest to the exact id. */
  lemma IdRoundsTo(now: nat, u: UnitDraw, suffix: nat, k: nat)
    requires Random(0, Spread, u) == suffix
    requires 0x200_0000_0000_0000 <= now * Spread && now * Spread + Spread <= 0x400_0000_0000_0000
    requires now * Spread % 32 == 0
    requires -16 < now * Spread + suffix - 32 * k < 16
    ensures GetIdAsWritten(now, u) == 32 * k
  {
    RoundsAt32(now * Spread, now * Spread / 32);
    RoundsAt32(now * Spread + suffix, k);
  }

  /** A double-precision rounding between 2^57 and 2^58, checked on literals. */
  lemma RoundsAt32(n: nat, k: nat)
    requires 0x200_0000_0000_0000 <= n < 0x400_0000_0000_0000
    requires -16 < n - 32 * k < 16
    ensures ToDouble(n) == 32 * k
  {
    UlpIs32(n);
  }

  /** Between 2^57 and 2^58 the doubles are 32 apart. */
  lemma UlpIs32(n: nat)
    requires 0x200_0000_0000_0000 <= n < 0x400_0000_0000_0000
    ensures Ulp(n) == 32
  {
    assert UlpFrom(n, 1) == UlpFrom(n, 2) == UlpFrom(n, 4) == UlpFrom(n, 8) == UlpFrom(n, 16) == UlpFrom(n, 32);
  }
}
