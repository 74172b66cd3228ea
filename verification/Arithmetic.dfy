/** Facts about division that several modules need. */
module Arithmetic {
  function Min(a: nat, b: nat): (m: nat) {
    if a <= b then a else b
  }

  lemma {:induction false} Ordered(n: nat, x: int, y: int)
    ensures x <= y ==> n * x <= n * y
  {
  }

  /** Quotient and remainder are unique. */
  lemma {:induction false} RemainderIs(x: nat, n: nat, q: nat, r: nat)
    requires n > 0 && x == n * q + r && r < n
    ensures x % n == r
  {
    var d := x / n;
    assert x == n * d + x % n;
    Ordered(n, d + 1, q);
    Ordered(n, q + 1, d);
    assert n * (d + 1) == n * d + n && n * (q + 1) == n * q + n;
  }
}
