/** The few facts about multiplication and division that the accounting needs. */
module Arithmetic {

  lemma MulStep(d: nat, x: int, y: int)
    ensures y < x ==> d * y + d <= d * x
  {
    if y < x {
      var k := x - y - 1;
      assert d * x == d * y + d + d * k && d * k >= 0;
    }
  }

  lemma PositiveProduct(a: nat, b: nat)
    requires 1 <= b
    ensures a * b == 0 <==> a == 0
  {
    MulStep(b, a, 0);
  }

  lemma DivMonotone(a: nat, b: nat, d: nat)
    requires a <= b && 1 <= d
    ensures a / d <= b / d
  {
    var x, y := a / d, b / d;
    assert a == d * x + a % d && b == d * y + b % d;
    MulStep(d, x, y);
  }

  lemma QuotientIsUnique(n: nat, d: nat, q: nat, rem: nat)
    requires d > 0 && n == q * d + rem && rem < d
    ensures n / d == q
  {
    var k := n / d;
    assert n == d * k + n % d && n == d * q + rem;
    MulStep(d, k, q);
    MulStep(d, q, k);
  }
}
