/** The 32 bit range, and multiplication and division facts that need a product of two variables. */
module Arith {

  const TWO32: nat := 0x1_0000_0000

  lemma MulMonotone(x: int, y: int, k: nat)
    requires x <= y
    ensures x * k <= y * k
  {
    assert (y - x) * k >= 0;
    assert (y - x) * k == y * k - x * k;
  }

  lemma MulAtLeast(k: int, g: nat)
    ensures k >= 1 ==> k * g >= g
    ensures k <= -1 ==> k * g + g <= 0
  {
    if k >= 1 {
      assert k * g == (k - 1) * g + g;
    } else if k <= -1 {
      assert k * g == (k + 1) * g - g;
    }
  }

  /** Quotient and remainder are unique. */
  lemma DivUnique(a: int, g: nat, q: int, r: nat)
    requires g > 0 && a == q * g + r && r < g
    ensures a / g == q && a % g == r
  {
    var q', r' := a / g, a % g;
    assert a == q' * g + r';
    assert (q - q') * g == q * g - q' * g == r' - r;
    MulAtLeast(q - q', g);
  }
}
