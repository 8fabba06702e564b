/**
 Products and multiples of a number that is not a constant.
 */
module Multiples {

  lemma MulMonotone(p: nat, x: int, y: int)
    requires x < y
    ensures p * x + p <= p * y
  {
    assert p * (y - x - 1) >= 0;
    assert p * (y - x - 1) == p * y - p * x - p;
  }

  lemma MulMod(q: nat, p: nat, r: nat)
    requires r < p
    ensures (p * q + r) % p == r
  {
    var n := p * q + r;
    var q' := n / p;
    assert n == p * q' + n % p;
    if q < q' {
      MulMonotone(p, q, q');
    } else if q' < q {
      MulMonotone(p, q', q);
    }
  }

  lemma MultipleSum(x: nat, y: nat, m: nat)
    requires m > 0 && x % m == 0 && y % m == 0
    ensures (x + y) % m == 0 && (x >= y ==> (x - y) % m == 0)
  {
    var a, b := x / m, y / m;
    assert x + y == m * (a + b);
    MulMod(a + b, m, 0);
    if a < b {
      MulMonotone(m, a, b);
    } else {
      assert x - y == m * (a - b);
      MulMod(a - b, m, 0);
    }
  }

  lemma MultipleOf(x: nat, a: nat, b: nat)
    requires a > 0 && b > 0 && x % a == 0 && a % b == 0
    ensures x % b == 0
  {
    var k, l := x / a, a / b;
    assert x == b * l * k == b * (l * k);
    MulMod(l * k, b, 0);
  }

  lemma MultipleGap(x: nat, y: nat, m: nat)
    requires m > 0 && x % m == 0 && y % m == 0 && x < y
    ensures x + m <= y
  {
    var a, b := x / m, y / m;
    if a < b {
      MulMonotone(m, a, b);
    } else if b < a {
      MulMonotone(m, b, a);
    }
  }
}
