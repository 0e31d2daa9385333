/** Quotients, and powers of two. */
module Arithmetic {
  function Pow2(d: nat): (p: nat)
    ensures p > 0
  {
    if d == 0 then 1 else 2 * Pow2(d - 1)
  }

  lemma {:induction false} Pow2Adds(a: nat, b: nat)
    ensures Pow2(a) * Pow2(b) == Pow2(a + b)
  {
    if a > 0 {
      Pow2Adds(a - 1, b);
      assert 2 * Pow2(a - 1) * Pow2(b) == 2 * (Pow2(a - 1) * Pow2(b));
    }
  }

  lemma Monotone(w: int, a: int, b: int)
    requires w >= 0 && a <= b
    ensures w * a <= w * b
  {
    assert w * b == w * a + w * (b - a);
  }

  /** The quotient is told by its bounds. */
  lemma QuotientIs(a: int, w: int, q: int)
    requires w > 0 && w * q <= a < w * q + w
    ensures a / w == q && a % w == a - w * q
  {
    var e := a / w - q;
    assert w * e == a - a % w - w * q;
    assert -w < w * e < w;
    assert e < 1 by { if e >= 1 { Monotone(w, 1, e); } }
    assert e > -1 by { if e <= -1 { Monotone(w, e, -1); } }
  }
}
