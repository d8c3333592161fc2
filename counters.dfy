/** Arithmetic on the device's wrapping counters, shared by both driver revisions. */
module Counters {

  /** The 3-byte seconds counter wraps at 256^3. */
  const SEC_COUNTER_MAX: int := 16777216
  const BYTE4_COUNTER_MAX: int := 4294967296
  /** The 5-byte watt-second counters wrap at 256^5. */
  const BYTE5_COUNTER_MAX: int := 1099511627776

  /** after - before, plus the modulus when the counter went down (taken as one wraparound). */
  function WrapDelta(before: int, after: int, modulus: int): (d: int)
    ensures before <= after ==> d == after - before
    ensures after < before ==> d == after - before + modulus
    ensures 0 <= before < modulus && 0 <= after < modulus ==>
              0 <= d < modulus && (d == 0 <==> before == after)
  {
    var d := after - before;
    if after < before then d + modulus else d
  }

  /** x % m is the one remainder r in [0, m) with x == q*m + r. */
  lemma ModUnique(x: int, q: int, r: int, m: int)
    requires 0 <= r < m && x == q * m + r
    ensures x % m == r
  {
    var q', r' := x / m, x % m;
    assert (q - q') * m == r' - r;
    MulBound(q - q', m);
  }

  lemma MulBound(k: int, m: int)
    requires m > 0
    ensures k >= 1 ==> k * m >= m
    ensures k <= -1 ==> k * m <= -m
  {
    if k >= 1 {
      assert k * m == (k - 1) * m + m;
    } else if k <= -1 {
      assert k * m == (k + 1) * m - m;
    }
  }

  /**
   * For counter readings below the modulus, the delta is the number of steps
   * the counter advanced modulo its width: adding it to the earlier reading
   * gives the later one.
   */
  lemma WrapDeltaModular(before: int, after: int, modulus: int)
    requires 0 <= before < modulus && 0 <= after < modulus
    ensures (before + WrapDelta(before, after, modulus)) % modulus == after
    ensures WrapDelta(before, after, modulus) == (after - before) % modulus
  {
    var d := WrapDelta(before, after, modulus);
    if after < before {
      ModUnique(before + d, 1, after, modulus);
      ModUnique(after - before, -1, d, modulus);
    } else {
      ModUnique(before + d, 0, after, modulus);
      ModUnique(after - before, 0, d, modulus);
    }
  }

  /** Python's integer floor division a // b (and Python 2's a / b on ints). */
  function FloorDiv(a: int, b: int): int
    requires b != 0
  {
    if b > 0 then a / b else (-a) / (-b)
  }

  /** a // b rounds the true quotient toward negative infinity, whatever the signs. */
  lemma FloorDivBounds(a: int, b: int)
    requires b != 0
    ensures b > 0 ==> b * FloorDiv(a, b) <= a < b * FloorDiv(a, b) + b
    ensures b < 0 ==> b * FloorDiv(a, b) >= a > b * FloorDiv(a, b) + b
  {
  }

  /** An energy counter that wrapped from 2^40 - 10 to 5 advanced by 15. */
  lemma WrapDeltaExample()
    ensures WrapDelta(BYTE5_COUNTER_MAX - 10, 5, BYTE5_COUNTER_MAX) == 15
    ensures FloorDiv(15, 10) == 1
  {
  }
}
