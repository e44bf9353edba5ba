/** Rounding half away from zero: decimal.js ROUND_HALF_UP (its default) and PostgreSQL ROUND(numeric). */
module Rounding {

  function RoundHalfUp(x: real): (n: int)
    ensures -0.5 <= n as real - x <= 0.5
    ensures x >= 0.0 ==> n >= 0
  {
    if x >= 0.0 then (x + 0.5).Floor else -((-x + 0.5).Floor)
  }

  /** A larger value never rounds to a smaller integer. */
  lemma RoundMonotone(x: real, y: real)
    requires x <= y
    ensures RoundHalfUp(x) <= RoundHalfUp(y)
  {
  }

  lemma RoundExact(n: int)
    ensures RoundHalfUp(n as real) == n
  {
  }

  /** Which values round to n or more: the tie goes up for positive n. */
  lemma RoundAtLeast(x: real, n: int)
    requires 0 < n
    ensures RoundHalfUp(x) >= n <==> x >= n as real - 0.5
  {
    if x >= 0.0 {
      assert (x + 0.5).Floor >= n <==> x + 0.5 >= n as real;
    }
  }

  /** Drift of two values is at most the drift of what they were rounded from plus one. */
  lemma RoundDrift(x: real, y: real, h: real)
    requires -h <= x - y <= h
    ensures -(h + 1.0) <= RoundHalfUp(x) as real - RoundHalfUp(y) as real <= h + 1.0
  {
  }

  /** A product under a name: the laws below are stated on the name, so that a proof only needs congruence. */
  function Times(x: real, y: real): real { x * y }

  lemma TimesNonNegative(x: real, g: real)
    requires x >= 0.0 && g >= 0.0
    ensures Times(x, g) >= 0.0
  {
  }

  lemma TimesPositive(x: real, g: real)
    requires x > 0.0 && g > 0.0
    ensures Times(x, g) > 0.0
  {
  }

  lemma TimesDistributes(x: real, y: real, g: real)
    ensures Times(x - y, g) == Times(x, g) - Times(y, g)
  {
  }

  lemma TimesAssociates(x: real, y: real, z: real)
    ensures Times(Times(x, y), z) == Times(x, Times(y, z))
  {
  }

  lemma TimesCommutes(x: real, y: real)
    ensures Times(x, y) == Times(y, x)
  {
  }

  lemma TimesMonotone(x: real, y: real, g: real)
    requires x <= y && g >= 0.0
    ensures Times(x, g) <= Times(y, g)
  {
    TimesNonNegative(y - x, g);
    TimesDistributes(y, x, g);
  }

  /** Half a unit stays half a unit of the scale. */
  lemma TimesOfHalf(d: real, g: real)
    requires -0.5 <= d <= 0.5 && g >= 0.0
    ensures -(0.5 * g) <= Times(d, g) <= 0.5 * g
  {
    TimesMonotone(-0.5, d, g);
    TimesMonotone(d, 0.5, g);
  }
}
