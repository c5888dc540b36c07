/** Products of reals. Each product the model needs is written `Scaled(a, b)`,
    so that proofs use the few facts below instead of nonlinear arithmetic. */
module RealArith {

  /** A product kept behind a name, so that the solver reasons about it
      through the lemmas below rather than by nonlinear arithmetic. */
  function Scaled(r: real, w: real): real {
    r * w
  }

  lemma ScaledDraw(r: real, w: real)
    requires 0.0 <= r < 1.0 && w > 0.0
    ensures 0.0 <= Scaled(r, w) < w
  {
    assert w - r * w == (1.0 - r) * w;
  }

  lemma ScaledLe(a: real, b: real, c: real)
    requires a <= b && c > 0.0
    ensures Scaled(a, c) <= Scaled(b, c)
  {
  }

  lemma ScaledLt(a: real, b: real, c: real)
    requires a < b && c > 0.0
    ensures Scaled(a, c) < Scaled(b, c)
  {
  }

  lemma ScaledQuotient(j: real, n: real)
    requires n > 0.0
    ensures Scaled(j / n, n) == j
  {
  }

  lemma ScaledNonNegative(a: real, b: real)
    requires a >= 0.0 && b >= 0.0
    ensures Scaled(a, b) >= 0.0
  {
  }

  /** A fraction in [0, 1] of a non-negative amount stays between 0 and that amount. */
  lemma ScaledFraction(a: real, c: real)
    requires 0.0 <= a <= 1.0 && c >= 0.0
    ensures 0.0 <= Scaled(a, c) <= c
  {
    assert c - a * c == (1.0 - a) * c;
  }

  lemma ScaledUnit(a: real)
    ensures Scaled(a, 1.0) == a && Scaled(a, 0.0) == 0.0
  {
  }
}
