/** The facts about products and quotients of reals that the proofs share. */
module RealArithmetic {

  /** A product with a name, so that proofs can match it as a term. */
  function Times(x: real, y: real): real { x * y }

  lemma TimesMono(a: real, b: real, c: real, d: real)
    requires 0.0 <= a <= b && 0.0 <= c <= d
    ensures Times(a, c) <= Times(b, d)
  {
    assert b * d - a * c == (b - a) * d + a * (d - c);
  }

  lemma TimesNonNeg(a: real, b: real)
    requires 0.0 <= a && 0.0 <= b
    ensures 0.0 <= Times(a, b)
  {}

  lemma TimesAssociative(x: real, y: real, z: real)
    ensures Times(x, Times(y, z)) == Times(Times(x, y), z)
  {}

  lemma SignOfProduct(x: real, y: real)
    requires x >= 0.0
    ensures x * y >= 0.0 <==> (x == 0.0 || y >= 0.0)
  {}

  lemma QuotientTimes(a: real, b: real)
    requires b != 0.0
    ensures a / b * b == a
  {}

  /** From a*b == c*d with d positive: c has the sign of a*b, and vanishes with a. */
  lemma FactorSigns(a: real, b: real, c: real, d: real)
    requires 0.0 <= a && 0.0 <= b && 0.0 < d && a * b == c * d
    ensures 0.0 <= c
    ensures a == 0.0 ==> c == 0.0
  {
    assert 0.0 <= a * b;
    assert c < 0.0 ==> c * d < 0.0;
  }

  lemma QuotientNonNeg(a: real, b: real)
    requires 0.0 <= a && 0.0 < b
    ensures 0.0 <= a / b
  {}

  lemma QuotientAntitone(m: real, u: real, v: real)
    requires 0.0 < m && 0.0 < u && 0.0 < v
    ensures m / v <= m / u <==> u <= v
  {
    QuotientTimes(m, u);
    QuotientTimes(m, v);
    var x, y := m / u, m / v;
    assert x > 0.0 && y > 0.0;
    CrossCompare(x, u, y, v);
  }

  lemma CrossCompare(x: real, u: real, y: real, v: real)
    requires 0.0 < x && 0.0 < u && 0.0 < y && 0.0 < v
    requires x * u == y * v
    ensures y <= x <==> u <= v
  {
    assert y <= x && u > v ==> x * u > y * v;
    assert y > x && u <= v ==> x * u < y * v;
  }

  lemma TimesOrder(w: real, x: real, y: real)
    requires 0.0 < w
    ensures Times(w, x) <= Times(w, y) <==> x <= y
  {}
}
