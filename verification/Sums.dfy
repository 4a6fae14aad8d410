/** Finite sums of complex numbers and the laws the linear algebra needs. */
module Sums {
  import opened Complex

  lemma {:induction false} MulLaws(a: Cx, b: Cx, c: Cx)
    ensures a.Mul(b) == b.Mul(a)
    ensures a.Mul(b).Mul(c) == a.Mul(b.Mul(c))
    ensures a.Mul(b.Add(c)) == a.Mul(b).Add(a.Mul(c))
  {
  }

  lemma {:induction false} ConjLaws(a: Cx, b: Cx)
    ensures a.Conj().Conj() == a
    ensures a.Mul(b).Conj() == a.Conj().Mul(b.Conj())
    ensures a.Add(b).Conj() == a.Conj().Add(b.Conj())
    ensures a.Mul(a.Conj()) == Cx(a.Norm2(), 0.0)
  {
  }

  lemma {:induction false} PositiveProduct(a: real, b: real, p: real)
    requires p == a * b && ((a > 0.0 && b > 0.0) || (a < 0.0 && b < 0.0))
    ensures p > 0.0
  {
  }

  lemma {:induction false} ScaleMul(a: Cx, b: Cx, k: real)
    ensures a.Scale(k).Mul(b) == a.Mul(b).Scale(k)
  {
    assert (k * a.re) * b.re == k * (a.re * b.re) && (k * a.im) * b.im == k * (a.im * b.im);
    assert (k * a.re) * b.im == k * (a.re * b.im) && (k * a.im) * b.re == k * (a.im * b.re);
  }

  lemma {:induction false} Units(a: Cx, k: real)
    ensures ZERO.Mul(a) == a.Mul(ZERO) == ZERO && ZERO.Scale(k) == ZERO
    ensures ONE.Mul(a) == a.Mul(ONE) == a && ONE.Conj() == ONE && ZERO.Conj() == ZERO
    ensures ZERO.Add(a) == a && a.Add(ZERO) == a && a.Scale(1.0) == a
  {
  }

  lemma {:induction false} UnitNorms()
    ensures ZERO.Norm2() == 0.0 && ONE.Norm2() == 1.0
  {
  }

  lemma {:induction false} ScaleScale(a: Cx, h: real, k: real, p: real)
    requires h * k == p
    ensures a.Scale(h).Scale(k) == a.Scale(p)
  {
    assert k * (h * a.re) == p * a.re && k * (h * a.im) == p * a.im;
  }

  /** f(0) + ... + f(n-1). */
  ghost function Sum(n: nat, f: nat -> Cx): Cx
  {
    if n == 0 then ZERO else Sum(n - 1, f).Add(f(n - 1))
  }

  lemma {:induction false} SumCongruence(n: nat, f: nat -> Cx, g: nat -> Cx)
    requires forall k: nat :: k < n ==> f(k) == g(k)
    ensures Sum(n, f) == Sum(n, g)
  {
    if n > 0 {
      SumCongruence(n - 1, f, g);
    }
  }

  lemma {:induction false} SumOfZeros(n: nat, f: nat -> Cx)
    requires forall k: nat :: k < n ==> f(k) == ZERO
    ensures Sum(n, f) == ZERO
  {
    if n > 0 {
      SumOfZeros(n - 1, f);
    }
  }

  lemma {:induction false} SumAdd(n: nat, f: nat -> Cx, g: nat -> Cx, h: nat -> Cx)
    requires forall k: nat :: k < n ==> h(k) == f(k).Add(g(k))
    ensures Sum(n, h) == Sum(n, f).Add(Sum(n, g))
  {
    if n > 0 {
      SumAdd(n - 1, f, g, h);
    }
  }

  /** A common factor moves out of the sum. */
  lemma {:induction false} SumMul(n: nat, c: Cx, f: nat -> Cx, h: nat -> Cx)
    requires forall k: nat :: k < n ==> h(k) == c.Mul(f(k))
    ensures Sum(n, h) == c.Mul(Sum(n, f))
  {
    if n > 0 {
      SumMul(n - 1, c, f, h);
      MulLaws(c, Sum(n - 1, f), f(n - 1));
    }
  }

  lemma {:induction false} SumConj(n: nat, f: nat -> Cx, h: nat -> Cx)
    requires forall k: nat :: k < n ==> h(k) == f(k).Conj()
    ensures Sum(n, h) == Sum(n, f).Conj()
  {
    if n > 0 {
      SumConj(n - 1, f, h);
    }
  }

  /** Terms past m that vanish do not matter. */
  lemma {:induction false} SumTail(m: nat, n: nat, f: nat -> Cx)
    requires m <= n && forall k: nat :: m <= k < n ==> f(k) == ZERO
    ensures Sum(n, f) == Sum(m, f)
  {
    if m < n {
      SumTail(m, n - 1, f);
    }
  }

  /** Only the term at m survives. */
  lemma {:induction false} SumSingle(m: nat, n: nat, f: nat -> Cx)
    requires m < n && forall k: nat :: k < n && k != m ==> f(k) == ZERO
    ensures Sum(n, f) == f(m)
  {
    SumTail(m + 1, n, f);
    SumOfZeros(m, f);
  }

  /** Two nested sums can be exchanged. */
  lemma {:induction false} SumSwap(n: nat, m: nat, f: (nat, nat) -> Cx)
    ensures Sum(n, (i: nat) => Sum(m, (j: nat) => f(i, j))) == Sum(m, (j: nat) => Sum(n, (i: nat) => f(i, j)))
  {
    var rows := (i: nat) => Sum(m, (j: nat) => f(i, j));
    var columns := (j: nat) => Sum(n, (i: nat) => f(i, j));
    if n == 0 {
      SumOfZeros(m, columns);
    } else {
      SumSwap(n - 1, m, f);
      var shorter := (j: nat) => Sum(n - 1, (i: nat) => f(i, j));
      var last := (j: nat) => f(n - 1, j);
      SumAdd(m, shorter, last, columns);
    }
  }

  /** The terms of block i when a range is cut into blocks of b. */
  ghost function Block(b: nat, f: nat -> Cx, i: nat): nat -> Cx
  {
    (j: nat) => f(i * b + j)
  }

  lemma {:induction false} SumAppend(a: nat, b: nat, f: nat -> Cx, rest: nat -> Cx)
    requires forall j: nat :: j < b ==> rest(j) == f(a + j)
    ensures Sum(a + b, f) == Sum(a, f).Add(Sum(b, rest))
  {
    if b > 0 {
      SumAppend(a, b - 1, f, rest);
    }
  }

  lemma {:induction false} Lap(a: nat, b: nat)
    requires a > 0
    ensures (a - 1) * b + b == a * b
  {
  }

  /** The sum over a product range, the outer index first: the order in which a
      Kronecker product numbers its rows. */
  lemma {:induction false} SumBlocks(a: nat, b: nat, m: nat, f: nat -> Cx)
    requires m == a * b
    ensures Sum(m, f) == Sum(a, (i: nat) => Sum(b, Block(b, f, i)))
  {
    if a > 0 {
      Lap(a, b);
      SumBlocks(a - 1, b, m - b, f);
      SumAppend(m - b, b, f, Block(b, f, a - 1));
    }
  }
}
