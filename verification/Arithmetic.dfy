/** The lesser of two integers, and facts about division by a positive divisor. */
module Arithmetic {
  function Min(a: int, b: int): int {
    if a <= b then a else b
  }

  lemma DivUnique(a: int, b: int, q: int, r: int)
    requires b > 0 && 0 <= r < b && a == b * q + r
    ensures a / b == q && a % b == r
  {
    var d := a / b - q;
    assert a == b * (a / b) + a % b;
    assert b * d == r - a % b;
    if d >= 1 {
      ScaledAtLeast(b, d);
    } else if d <= -1 {
      ScaledAtLeast(b, -d);
    }
  }

  lemma ScaledAtLeast(b: int, d: int)
    requires b > 0 && d >= 1
    ensures b * d >= b
    ensures b * -d <= -b
  {
  }

  /** One divisor more is one quotient more. */
  lemma DivStep(a: int, b: int)
    requires b > 0
    ensures (a + b) / b == a / b + 1
  {
    assert a == b * (a / b) + a % b;
    assert b * (a / b + 1) == b * (a / b) + b;
    DivUnique(a + b, b, a / b + 1, a % b);
  }
}
