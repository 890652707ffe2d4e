/**
 * Integer division facts shared by the modules that divide by a value
 * rather than by a literal.
 */
module Arithmetic {

  /** A quotient and remainder in range are the ones `/` and `%` give. */
  lemma DivModUnique(t: int, m: int, q: int, r: int)
    requires m > 0 && 0 <= r < m && t == q * m + r
    ensures t / m == q && t % m == r
  {
    var a := q - t / m;
    assert a * m == t % m - r;
    NonZeroMultiple(a, m);
  }

  /** Stepping an index in `[0, m)` by one modulo `m` wraps only at the end. */
  lemma SuccessorMod(k: int, m: int)
    requires m > 0 && 0 <= k < m
    ensures (k + 1) % m == if k + 1 == m then 0 else k + 1
  {
    if k + 1 == m {
      DivModUnique(k + 1, m, 1, 0);
    } else {
      DivModUnique(k + 1, m, 0, k + 1);
    }
  }

  /** A non-zero multiple of `m` is at least `m` away from 0. */
  lemma NonZeroMultiple(a: int, m: int)
    requires m > 0
    ensures a == 0 || a * m >= m || a * m <= -m
  {
    if a >= 1 {
      assert a * m == (a - 1) * m + m;
    } else if a <= -1 {
      assert a * m == (a + 1) * m - m;
    }
  }
}
