/**
 Arithmetic shared by the models: minimum and maximum, powers of two,
 triangular numbers, and quotients.
 */
module Arith {

  function Min(a: int, b: int): int {
    if a <= b then a else b
  }

  function Max(a: int, b: int): int {
    if a >= b then a else b
  }

  function Pow2(k: nat): (p: nat)
    ensures p >= 1
  {
    if k == 0 then 1 else 2 * Pow2(k - 1)
  }

  /** The `d`th triangular number: what a full drain from `d` down to one adds up to. */
  function Triangle(d: nat): nat {
    if d == 0 then 0 else d + Triangle(d - 1)
  }

  lemma {:induction false} TriangleClosedForm(d: nat)
    ensures d * (d + 1) == 2 * Triangle(d)
    ensures d * (d + 1) / 2 == Triangle(d)
  {
    if d > 0 {
      TriangleClosedForm(d - 1);
      assert d * (d + 1) == (d - 1) * d + 2 * d;
    }
  }

  /** Euclidean quotient and remainder are the only pair that recombines. */
  lemma QuotientIsUnique(n: nat, d: nat, q: nat, r: nat)
    requires d > 0 && r < d && n == q * d + r
    ensures n / d == q && n % d == r
  {
    var q', r' := n / d, n % d;
    assert n == q' * d + r';
    assert (q - q') * d == r' - r;
    if q > q' {
      assert (q - q') * d >= d by { MulAtLeast(q - q', d); }
    } else if q < q' {
      assert (q' - q) * d >= d by { MulAtLeast(q' - q, d); }
    }
  }

  lemma MulAtLeast(k: int, d: nat)
    requires k >= 1
    ensures k * d >= d
  {
    assert k * d == (k - 1) * d + d;
  }

  lemma MulMonotone(a: int, b: int, c: nat)
    requires a <= b
    ensures a * c <= b * c
  {
    assert (b - a) * c >= 0;
    assert b * c == a * c + (b - a) * c;
  }
}
