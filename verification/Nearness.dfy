/** Distances of complex numbers, by squared magnitudes. */
module Nearness {
  import opened Complex
  import opened Sums

  /** |z| <= bound. */
  ghost predicate Within(z: Cx, bound: real) { z.Norm2() <= bound * bound }

  /** |a - b| <= bound. */
  ghost predicate Near(a: Cx, b: Cx, bound: real) { Within(a.Sub(b), bound) }

  lemma {:induction false} NearSelf(a: Cx, bound: real)
    ensures Near(a, a, bound)
  {
    assert a.Sub(a) == ZERO;
  }

  lemma {:induction false} NearConj(a: Cx, b: Cx, bound: real)
    requires Near(a, b, bound)
    ensures Near(a.Conj(), b.Conj(), bound)
  {
    var c := a.Sub(b);
    assert a.Conj().Sub(b.Conj()) == Cx(c.re, -c.im);
    assert (-c.im) * (-c.im) == c.im * c.im;
  }

  lemma {:induction false} Squares(a: real, b: real)
    requires 0.0 <= a <= b
    ensures 0.0 <= a * a <= b * b
  {
  }

  lemma {:induction false} WithinMore(z: Cx, p: real, q: real)
    requires Within(z, p) && 0.0 <= p <= q
    ensures Within(z, q)
  {
    Squares(p, q);
  }

  lemma {:induction false} NormOfProduct(a: Cx, b: Cx)
    ensures a.Mul(b).Norm2() == a.Norm2() * b.Norm2()
  {
  }

  lemma {:induction false} NormNonnegative(a: Cx)
    ensures a.Norm2() >= 0.0
  {
  }

  lemma {:induction false} Products(a: real, b: real, p: real, q: real)
    requires 0.0 <= a <= p && 0.0 <= b <= q
    ensures a * b <= p * q
  {
    assert a * b <= p * b && p * b <= p * q;
  }

  lemma {:induction false} SquareOfProduct(p: real, q: real)
    ensures (p * p) * (q * q) == (p * q) * (p * q)
  {
  }

  lemma {:induction false} WithinProduct(a: Cx, b: Cx, p: real, q: real)
    requires Within(a, p) && Within(b, q)
    ensures Within(a.Mul(b), p * q)
  {
    hide Cx.Mul, Cx.Norm2;
    NormOfProduct(a, b);
    NormNonnegative(a);
    NormNonnegative(b);
    Products(a.Norm2(), b.Norm2(), p * p, q * q);
    SquareOfProduct(p, q);
  }

  /** The real inner product. */
  function Dot(a: Cx, b: Cx): real { a.re * b.re + a.im * b.im }

  lemma {:induction false} Cauchy(a: Cx, b: Cx)
    ensures Dot(a, b) * Dot(a, b) <= a.Norm2() * b.Norm2()
  {
    var c := a.re * b.im - a.im * b.re;
    assert a.Norm2() * b.Norm2() == Dot(a, b) * Dot(a, b) + c * c;
  }

  lemma {:induction false} Bigger(x: real, y: real)
    requires 0.0 <= y < x
    ensures y * y < x * x
  {
    PositiveProduct(x - y, x + y, x * x - y * y);
  }

  lemma {:induction false} BySquares(x: real, y: real)
    requires x * x <= y * y && y >= 0.0
    ensures x <= y
  {
    if x > y {
      Bigger(x, y);
    }
  }

  lemma {:induction false} NormOfSum(a: Cx, b: Cx)
    ensures a.Add(b).Norm2() == a.Norm2() + b.Norm2() + 2.0 * Dot(a, b)
  {
  }

  lemma {:induction false} WithinSum(a: Cx, b: Cx, p: real, q: real)
    requires Within(a, p) && Within(b, q) && p >= 0.0 && q >= 0.0
    ensures Within(a.Add(b), p + q)
  {
    hide Cx.Add, Cx.Norm2, Dot;
    NormOfSum(a, b);
    Cauchy(a, b);
    NormNonnegative(a);
    NormNonnegative(b);
    Products(a.Norm2(), b.Norm2(), p * p, q * q);
    SquareOfProduct(p, q);
    BySquares(Dot(a, b), p * q);
    assert (p + q) * (p + q) == p * p + q * q + 2.0 * (p * q);
  }

  lemma {:induction false} ProductGap(a: Cx, b: Cx, d: Cx, f: Cx)
    ensures a.Mul(b).Sub(a.Sub(d).Mul(b.Sub(f))) == a.Mul(f).Add(d.Mul(b)).Add(d.Mul(f).Neg())
  {
  }

  lemma {:induction false} NormOfNeg(a: Cx)
    ensures a.Neg().Norm2() == a.Norm2()
  {
  }

  /** Products of near numbers of magnitude at most h. */
  lemma {:induction false} NearProduct(a: Cx, b: Cx, a2: Cx, b2: Cx, h: real, gap: real)
    requires Within(a, h) && Within(b, h) && Near(a, a2, gap) && Near(b, b2, gap) && h >= 0.0 && gap >= 0.0
    ensures Near(a.Mul(b), a2.Mul(b2), h * gap + gap * h + gap * gap)
  {
    hide Cx.Mul, Cx.Norm2, Cx.Add, Cx.Neg;
    var d, f := a.Sub(a2), b.Sub(b2);
    assert a2 == a.Sub(d) && b2 == b.Sub(f);
    WithinProduct(a, f, h, gap);
    WithinProduct(d, b, gap, h);
    WithinProduct(d, f, gap, gap);
    NormOfNeg(d.Mul(f));
    WithinSum(a.Mul(f), d.Mul(b), h * gap, gap * h);
    WithinSum(a.Mul(f).Add(d.Mul(b)), d.Mul(f).Neg(), h * gap + gap * h, gap * gap);
    ProductGap(a, b, d, f);
  }
}
