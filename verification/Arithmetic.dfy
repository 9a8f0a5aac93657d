/** Division and powers, for the interval arithmetic. */
module Arithmetic {
  function Pow2(n: nat): (p: nat)
    ensures p >= 1
  {
    if n == 0 then 1 else 2 * Pow2(n - 1)
  }

  lemma SmallMultiple(m: int, d: nat)
    ensures m != 0 ==> m * d >= d || m * d + d <= 0
  {
    if m >= 1 {
      assert (m - 1) * d >= 0;
    } else if m <= -1 {
      assert (-m - 1) * d >= 0;
    }
  }

  lemma Quotient(x: int, q: int, r: int, d: nat)
    requires 0 <= r < d && x == q * d + r
    ensures x / d == q && x % d == r
  {
    var q' := x / d;
    assert (q' - q) * d == r - x % d;
    SmallMultiple(q' - q, d);
  }

  lemma HalfOfQuotient(n: nat, d: nat)
    requires d > 0
    ensures (n / d) / 2 == n / (2 * d)
  {
    var e := 2 * d;
    var q, r := n / e, n % e;
    assert n == q * e + r;
    assert q * e == (2 * q) * d;
    if r < d {
      Quotient(n, 2 * q, r, d);
    } else {
      assert (2 * q + 1) * d == (2 * q) * d + d;
      Quotient(n, 2 * q + 1, r - d, d);
    }
  }
}
