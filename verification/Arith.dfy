/** Facts about multiplication and division that the solver needs spelled out. */
module Arith {
  function Min(a: nat, b: nat): nat { if a < b then a else b }

  lemma MulLe(a: int, b: int, k: nat)
    requires a <= b
    ensures a * k <= b * k
  {
  }

  lemma {:induction false} DivMul(q: nat, k: nat)
    requires k > 0
    ensures (q * k) / k == q && (q * k) % k == 0
  {
    DivUnique(q * k, k, q, 0);
  }

  /** The quotient and remainder of a division are the only ones that fit. */
  lemma DivUnique(n: int, k: nat, q: int, r: nat)
    requires k > 0 && n == q * k + r && r < k
    ensures n / k == q && n % k == r
  {
    var q', r' := n / k, n % k;
    assert n == q' * k + r';
    assert (q - q') * k == r' - r;
    if q > q' {
      MulLe(1, q - q', k);
    } else if q < q' {
      MulLe(1, q' - q, k);
    }
  }

  lemma DivMonotone(a: nat, b: nat, k: nat)
    requires a <= b && k > 0
    ensures a / k <= b / k
  {
    if a / k > b / k {
      MulLe(b / k + 1, a / k, k);
    }
  }
}
