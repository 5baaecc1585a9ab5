/** Division with remainder. */
module Division {

  lemma Multiple(m: int, k: int)
    requires m > 0
    ensures (k > 0 ==> m * k >= m) && (k < 0 ==> m * k <= -m)
  {
  }

  /** A quotient and a remainder in range are the only ones. */
  lemma QuotientUnique(x: int, m: int, q: int, r: int)
    requires 0 <= r < m && x == m * q + r
    ensures x / m == q && x % m == r
  {
    var k := x / m - q;
    assert m * k == r - x % m;
    Multiple(m, k);
  }
}
