/** Facts about products of reals. */
module Arithmetic {

  lemma Nonnegative(a: real, b: real)
    requires a >= 0.0 && b >= 0.0
    ensures a * b >= 0.0
  {}

  lemma OrderScales(a: real, b: real, r: real)
    requires r > 0.0
    ensures a >= b <==> a * r >= b * r
  {
    assert (a - b) * r == a * r - b * r;
    if a >= b {
      Nonnegative(a - b, r);
    } else {
      assert (b - a) * r > 0.0;
    }
  }
}
