/** Ring positions, and multiplication and division facts the solver needs spelled out. */
module Arithmetic {

  /** Position `i` steps after position 0 of a ring, for `i` below two turns. */
  function Fold(i: nat, nr: nat): (p: nat)
    requires i < 2 * nr
    ensures p < nr
  {
    if i < nr then i else i - nr
  }

  lemma OnceMore(k: int, n: int)
    ensures (k + 1) * n == k * n + n
  {
  }

  lemma {:induction false} MulOrder(a: int, b: int, n: int)
    requires n > 0
    ensures a <= b ==> a * n <= b * n
    ensures a < b ==> a * n + n <= b * n
    decreases b - a
  {
    if a < b {
      MulOrder(a, b - 1, n);
      OnceMore(b - 1, n);
    }
  }

  lemma QuotientOf(x: int, n: int, q: int, r: int)
    requires n > 0 && 0 <= r < n && x == q * n + r
    ensures x / n == q && x % n == r
  {
    assert x == (x / n) * n + x % n;
    MulOrder(q, x / n, n);
    MulOrder(x / n, q, n);
  }
}
