/** What acceptance is worth for every matrix, in the tolerance band or not: a
    lower bound on its energy. */
module NearSemidefinite {
  import opened Complex
  import opened Matrix
  import opened Sums
  import opened Correlation
  import opened Covariance
  import opened Nearness
  import opened Semidefinite

  /** |x(0)|^2 + ... + |x(n - 1)|^2. */
  ghost function Power(x: nat -> Cx, n: nat): real
  {
    if n == 0 then 0.0 else Power(x, n - 1) + x(n - 1).Norm2()
  }

  /** Half the sum of two squares bounds their product, signs and all. */
  lemma {:induction false} CrossBound(a: Cx, d: Cx, b: Cx, bound: real)
    requires Within(d, bound) && bound >= 0.0
    ensures a.Conj().Mul(d.Mul(b)).re >= -bound * (a.Norm2() + b.Norm2()) / 2.0
  {
    hide Cx.Mul, Cx.Norm2;
    var z, p, q := a.Conj().Mul(d.Mul(b)), a.Norm2(), b.Norm2();
    NormNonnegative(a);
    NormNonnegative(b);
    TripleNorm(a, d, b, bound);
    RealPart(z);
    MeanBound(z.re, p, q, bound);
  }

  lemma {:induction false} TripleNorm(a: Cx, d: Cx, b: Cx, bound: real)
    requires Within(d, bound)
    ensures a.Conj().Mul(d.Mul(b)).Norm2() <= a.Norm2() * ((bound * bound) * b.Norm2())
  {
    hide Cx.Mul, Cx.Norm2;
    NormOfProduct(a.Conj(), d.Mul(b));
    NormOfProduct(d, b);
    ConjNorm(a);
    NormNonnegative(a);
    NormNonnegative(b);
    NormNonnegative(d);
    NormNonnegative(d.Mul(b));
    Products(d.Norm2(), b.Norm2(), bound * bound, b.Norm2());
    Products(a.Norm2(), d.Mul(b).Norm2(), a.Norm2(), (bound * bound) * b.Norm2());
  }

  lemma {:induction false} ConjNorm(a: Cx)
    ensures a.Conj().Norm2() == a.Norm2()
  {
    assert (-a.im) * (-a.im) == a.im * a.im;
  }

  lemma {:induction false} RealPart(z: Cx)
    ensures z.re * z.re <= z.Norm2()
  {
    NormParts(z, z.re * z.re, z.im * z.im);
  }

  lemma {:induction false} MeanBound(x: real, p: real, q: real, bound: real)
    requires x * x <= p * ((bound * bound) * q) && p >= 0.0 && q >= 0.0 && bound >= 0.0
    ensures x >= -bound * (p + q) / 2.0
  {
    var y := bound * (p + q) / 2.0;
    FourTimes(p, q, bound, y);
    assert y >= 0.0;
    BySquares(-x, y);
  }

  lemma {:induction false} FourTimes(p: real, q: real, bound: real, y: real)
    requires y == bound * (p + q) / 2.0
    ensures p * ((bound * bound) * q) <= y * y
  {
    var half := bound * (p - q) / 2.0;
    assert y * y == half * half + p * ((bound * bound) * q);
  }

  /** The energy of entries of magnitude up to `bound` is at least -bound n |x|^2. */
  lemma {:induction false} RowBound(d: (nat, nat) -> Cx, n: nat, x: nat -> Cx, i: nat, c: nat, bound: real)
    requires c <= n && i < n && bound >= 0.0 && forall k: nat :: k < n ==> Within(d(i, k), bound)
    ensures x(i).Conj().Mul(Sum(c, (k: nat) => d(i, k).Mul(x(k)))).re >=
            -bound * (c as real * x(i).Norm2() + Power(x, c)) / 2.0
  {
    hide Cx.Mul, Cx.Norm2, Within;
    var f := (k: nat) => d(i, k).Mul(x(k));
    if c == 0 {
      Units(x(i).Conj(), 0.0);
    } else {
      RowBound(d, n, x, i, c - 1, bound);
      CrossBound(x(i), d(i, c - 1), x(c - 1), bound);
      MulLaws(x(i).Conj(), Sum(c - 1, f), f(c - 1));
      RowStep(bound, c, x(i).Norm2(), Power(x, c - 1), x(c - 1).Norm2());
    }
  }

  lemma {:induction false} RowStep(bound: real, c: nat, p: real, rest: real, q: real)
    requires c > 0
    ensures -bound * ((c - 1) as real * p + rest) / 2.0 + -bound * (p + q) / 2.0 == -bound * (c as real * p + (rest + q)) / 2.0
  {
    assert c as real * p == (c - 1) as real * p + p;
  }

  lemma {:induction false} EnergyBound(d: (nat, nat) -> Cx, n: nat, x: nat -> Cx, c: nat, bound: real)
    requires c <= n && bound >= 0.0 && forall i: nat, k: nat :: i < n && k < n ==> Within(d(i, k), bound)
    ensures Sum(c, (i: nat) => x(i).Conj().Mul(Apply(d, n, x, i))).re >=
            -bound * (n as real * Power(x, c) + c as real * Power(x, n)) / 2.0
  {
    hide Cx.Mul, Cx.Norm2, Within;
    if c > 0 {
      EnergyBound(d, n, x, c - 1, bound);
      RowBound(d, n, x, c - 1, n, bound);
      BoundStep(bound, n as real, c, Power(x, c - 1), x(c - 1).Norm2(), Power(x, n));
    }
  }

  lemma {:induction false} BoundStep(bound: real, n: real, c: nat, part: real, p: real, all: real)
    requires c > 0
    ensures -bound * (n * part + (c - 1) as real * all) / 2.0 + -bound * (n * p + all) / 2.0 ==
            -bound * (n * (part + p) + c as real * all) / 2.0
  {
    assert c as real * all == (c - 1) as real * all + all;
  }

  /** Whatever is accepted, in the band or not, is all but semidefinite: no vector
      has an energy below -1e-9 n |x|^2. */
  lemma {:induction false} AcceptedIsNearlySemidefinite(e: (nat, nat) -> Cx, root: real -> real, n: nat, x: nat -> Cx)
    requires Hermitian(e, n) && IsRoot(root) && Accepted(e, n)
    ensures Energy(e, n, x).re >= -TOLERANCE * (n as real * Power(x, n))
  {
    hide Energy, Gram, Factor, Accepted, Cx.Mul, IsRoot, Power, Hermitian, KeptWhole;
    var m := Factor(e, root);
    var gram := (i: nat, k: nat) => Gram(m, n, i, k);
    var rest := (i: nat, k: nat) => e(i, k).Sub(gram(i, k));
    forall i: nat, k: nat | i < n && k < n
      ensures Within(rest(i, k), TOLERANCE)
    {
      FactorReproduces(e, root, n, i, k);
      WithinMore(rest(i, k), if i == k then PIVOT_EPSILON else TOLERANCE, TOLERANCE);
    }
    assert forall i: nat, k: nat :: i < n && k < n ==> e(i, k) == gram(i, k).Add(rest(i, k));
    EnergyAdd(gram, rest, e, n, x);
    GramIsSemidefinite(m, n);
    NearlyZero(rest, n, x);
  }

  lemma {:induction false} NearlyZero(d: (nat, nat) -> Cx, n: nat, x: nat -> Cx)
    requires forall i: nat, k: nat :: i < n && k < n ==> Within(d(i, k), TOLERANCE)
    ensures Energy(d, n, x).re >= -TOLERANCE * (n as real * Power(x, n))
  {
    hide Cx.Mul, Apply, Within, Power;
    EnergyBound(d, n, x, n, TOLERANCE);
    var f := (i: nat) => x(i).Conj().Mul(Apply(d, n, x, i));
    SumCongruence(n, f, (i: nat) => x(i).Conj().Mul(Apply(d, n, x, i)));
  }
}
