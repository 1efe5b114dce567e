/** The few facts about products and quotients that several models need. */
module Arithmetic {

  function Pow2(n: nat): (r: nat)
    ensures r > 0
  {
    if n == 0 then 1 else 2 * Pow2(n - 1)
  }

  function Abs(r: real): real {
    if r < 0.0 then -r else r
  }

  lemma MulMonotone(a: int, b: int, c: int)
    requires a <= b && 0 <= c
    ensures a * c <= b * c
  {
    assert b * c - a * c == (b - a) * c;
    NonNegativeProduct(b - a, c);
  }

  lemma NonNegativeProduct(a: int, b: int)
    requires 0 <= a && 0 <= b
    ensures 0 <= a * b
  {
  }

  lemma DivisionUnique(v: int, d: int, q: int, r: int)
    requires v == q * d + r && 0 <= r < d
    ensures v / d == q
  {
    var q' := v / d;
    assert v == q' * d + v % d;
    if q' < q {
      StepsApart(q', q, d);
      assert false;
    } else if q < q' {
      StepsApart(q, q', d);
      assert false;
    }
  }

  lemma StepsApart(a: int, b: int, d: int)
    requires a < b && 0 <= d
    ensures a * d + d <= b * d
  {
    MulMonotone(a + 1, b, d);
    assert (a + 1) * d == a * d + d;
  }

  lemma DivisionTwice(v: nat, a: nat, b: nat)
    requires a > 0 && b > 0
    ensures a * b > 0 && v / (a * b) == (v / a) / b
  {
    var q, r := (v / a) / b, (v / a) % b;
    assert v / a == q * b + r;
    assert v == (v / a) * a + v % a;
    assert (v / a) * a == q * (a * b) + r * a by {
      assert (q * b + r) * a == (q * b) * a + r * a;
      assert (q * b) * a == q * (a * b);
    }
    MulMonotone(r + 1, b, a);
    assert (r + 1) * a == r * a + a && b * a == a * b;
    DivisionUnique(v, a * b, q, r * a + v % a);
  }

  lemma QuotientBounds(v: nat, d: nat, n: nat)
    requires d > 0 && v < n * d
    ensures 0 <= v / d < n && v / d * d <= v < v / d * d + d
  {
    var q := v / d;
    assert v == q * d + v % d;
    if q >= n {
      MulMonotone(n, q, d);
      assert false;
    }
  }
}
