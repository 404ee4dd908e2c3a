/** Division facts on natural numbers, used by the numeral codecs
    (base 36 for license keys, base 10 for ids, base 64 for tokens). */
module Arith {

  lemma MulAtLeast(x: int, m: int)
    requires x >= 1 && m > 0
    ensures x * m >= m
  {
  }

  /** Euclidean division is unique: a quotient and remainder in range are the ones. */
  lemma DivModUnique(a: int, m: int, q: int, r: int)
    requires m > 0 && a == q * m + r && 0 <= r < m
    ensures a / m == q && a % m == r
  {
    var q', r' := a / m, a % m;
    assert a == q' * m + r';
    if q > q' {
      MulAtLeast(q - q', m);
      assert false;
    } else if q < q' {
      MulAtLeast(q' - q, m);
      assert false;
    }
  }

  lemma MulLeMono(x: int, y: int, m: int)
    requires x <= y && m >= 0
    ensures x * m <= y * m
  {
  }

  lemma Distribute(q2: int, c: int, d: int, b: int)
    ensures (q2 * c + d) * b == q2 * (b * c) + d * b
  {
  }

  /** Taking the quotient by b and then by c is taking it by b * c, and the digit
      at position b (base c) together with the remainder by b is the remainder by b * c. */
  lemma MixedRadix(v: nat, b: nat, c: nat)
    requires b > 0 && c > 0
    ensures v / b / c == v / (b * c)
    ensures (v / b % c) * b + v % b == v % (b * c)
  {
    var q, r := v / b, v % b;
    var q2, d := q / c, q % c;
    assert v == q * b + r;
    assert q == q2 * c + d;
    Distribute(q2, c, d, b);
    assert v == q2 * (b * c) + (d * b + r);
    MulLeMono(d, c - 1, b);
    assert (c - 1) * b == c * b - b;
    DivModUnique(v, b * c, q2, d * b + r);
  }
}
