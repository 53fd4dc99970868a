/** Go's 64-bit integers: arithmetic wraps around in two's complement. */
module Int64 {

  const TWO_63: int := 0x8000_0000_0000_0000
  const TWO_64: int := 0x1_0000_0000_0000_0000

  type int64 = x: int | -TWO_63 <= x < TWO_63

  /** Two's-complement truncation to 64 bits. */
  function Wrap(x: int): int64 {
    (x + TWO_63) % TWO_64 - TWO_63
  }

  lemma WrapSmall(x: int)
    requires -TWO_63 <= x < TWO_63
    ensures Wrap(x) == x
  {
  }

  /** Truncation never rounds a non-negative integer up. */
  lemma WrapAtMost(x: int)
    requires x >= 0
    ensures Wrap(x) <= x
  {
  }

  /** Two integers that differ by a multiple of 2^64 truncate to the same value. */
  lemma WrapPeriodic(x: int, y: int, q: int)
    requires x - y == q * TWO_64
    ensures Wrap(x) == Wrap(y)
  {
    assert x + TWO_63 == y + TWO_63 + q * TWO_64;
  }

  lemma WrapDifference(x: int) returns (q: int)
    ensures x - Wrap(x) == q * TWO_64
  {
    q := (x + TWO_63) / TWO_64;
  }
}
