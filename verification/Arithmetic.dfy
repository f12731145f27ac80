/** Products and quotients of variables, one fact at a time. */
module Arithmetic {

  lemma MulLess(a: nat, b: nat, m: nat)
    requires a < b && m > 0
    ensures a * m + m <= b * m
  {
    assert (b - a - 1) * m >= 0;
    assert b * m == a * m + m + (b - a - 1) * m;
  }

  /** A quotient and remainder that fit are the quotient and the remainder. */
  lemma DivUnique(n: nat, m: nat, q: nat, r: nat)
    requires m > 0 && n == q * m + r && r < m
    ensures n / m == q && n % m == r
  {
    var q', r' := n / m, n % m;
    assert n == q' * m + r';
    if q < q' {
      MulLess(q, q', m);
      assert false;
    } else if q' < q {
      MulLess(q', q, m);
      assert false;
    }
  }
}
