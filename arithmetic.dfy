/** Facts about integer division, remainder and products that the grid proofs need. */
module Arithmetic {

  /** A product grows with its left factor when the right factor is not negative. */
  lemma MulMonotone(a: int, b: int, c: int)
    requires a <= b && 0 <= c
    ensures a * c <= b * c
  {
    assert b * c - a * c == (b - a) * c;
  }

  /** Euclidean division by a positive divisor is determined by its quotient and remainder. */
  lemma DivModUnique(k: int, n: int, q: int, r: int)
    requires 0 < n && 0 <= r < n && k == q * n + r
    ensures k / n == q && k % n == r
  {
    var q', r' := k / n, k % n;
    assert (q - q') * n == r' - r;
    if q' < q {
      MulMonotone(1, q - q', n);
    } else if q < q' {
      MulMonotone(1, q' - q, n);
    }
  }

  /** Reducing both factors modulo m before multiplying does not change the product modulo m. */
  lemma MulMod(x: nat, y: nat, m: nat)
    requires 0 < m
    ensures (x % m) * (y % m) % m == x * y % m
  {
    var qx, rx := x / m, x % m;
    var qy, ry := y / m, y % m;
    var s := rx * ry;
    var k := qx * qy * m + qx * ry + qy * rx;
    assert x * y == (qx * m + rx) * (qy * m + ry);
    assert x * y == k * m + s;
    DivModUnique(s, m, s / m, s % m);
    DivModUnique(x * y, m, k + s / m, s % m);
  }
}
