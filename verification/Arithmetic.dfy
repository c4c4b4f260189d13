/** The few facts about multiplication and division that the other modules need. */
module Arithmetic {

  lemma DivMod(m: nat, d: nat)
    requires d > 0
    ensures m == (m / d) * d + m % d && 0 <= m % d < d && 0 <= m / d
  {
  }

  lemma Multiply(a: nat, b: nat)
    ensures (a + 1) * b == a * b + b && a * b >= 0
    ensures a > 0 ==> a * b >= b
  {
    if a > 0 { assert (a - 1) * b >= 0; assert a * b == (a - 1) * b + b; }
  }

  lemma MulOrder(a: nat, b: nat, d: nat)
    requires a <= b
    ensures a * d <= b * d
  {
    assert b * d == a * d + (b - a) * d;
    assert (b - a) * d >= 0;
  }

  lemma DivUnique(q: nat, d: nat, r: nat)
    requires r < d
    ensures (q * d + r) / d == q && (q * d + r) % d == r
  {
    var m := q * d + r;
    Multiply(q, d);
    DivMod(m, d);
    var q' := m / d;
    if q' < q {
      MulOrder(q' + 1, q, d);
      Multiply(q', d);
    } else if q < q' {
      MulOrder(q + 1, q', d);
    }
  }

  lemma Split(m: nat, d: nat) returns (q: nat, r: nat)
    requires d > 0
    ensures m == q * d + r && r < d
  {
    DivMod(m, d);
    q, r := m / d, m % d;
  }

  lemma ModStep(n: nat, d: nat)
    requires 0 < d <= n
    ensures (n - d) % d == n % d
  {
    DivMod(n - d, d);
    Multiply((n - d) / d, d);
    DivUnique((n - d) / d + 1, d, (n - d) % d);
  }
}
