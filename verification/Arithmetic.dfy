/** Facts about products and quotients that the solver needs spelled out. */
module Arithmetic {
  lemma {:induction false} Scaled(p: nat, q: nat, m: nat)
    requires p > q
    ensures m * p >= m * q + m
    decreases p - q
  {
    if p == q + 1 {
      assert m * p == m * q + m;
    } else {
      Scaled(p - 1, q, m);
      assert m * p == m * (p - 1) + m;
    }
  }

  lemma AtMost(n: nat, m: nat, total: nat)
    requires m >= 1 && m * n <= total
    ensures n <= total / m
  {
    var q := total / m;
    assert total == m * q + total % m;
    if n > q {
      Scaled(n, q, m);
    }
  }
}
