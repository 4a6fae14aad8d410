/** What the accepted factor is worth: it reproduces the matrix within the
    tolerances of the code, and exactly where nothing was rounded away. */
module Covariance {
  import opened Complex
  import opened Matrix
  import opened Sums
  import opened Correlation
  import opened Nearness

  /** Entry (i, k) of L * diag(w) * L^H over the first s columns. */
  ghost function Terms(l: (nat, nat) -> Cx, w: nat -> real, i: nat, k: nat): nat -> Cx
  {
    (m: nat) => l(i, m).Mul(l(k, m).Conj()).Scale(w(m))
  }

  ghost function Weighted(l: (nat, nat) -> Cx, w: nat -> real, s: nat, i: nat, k: nat): Cx
  {
    Sum(s, Terms(l, w, i, k))
  }

  /** Entry (i, k) of M * M^H. */
  ghost function Gram(m: (nat, nat) -> Cx, n: nat, i: nat, k: nat): Cx
  {
    Sum(n, (c: nat) => m(i, c).Mul(m(k, c).Conj()))
  }

  ghost function LowerOf(e: (nat, nat) -> Cx, eps: Tolerance := PIVOT_EPSILON): (nat, nat) -> Cx { (i: nat, j: nat) => Lower(e, i, j, eps) }

  ghost function PivotsOf(e: (nat, nat) -> Cx, eps: Tolerance := PIVOT_EPSILON): nat -> real { (j: nat) => Pivot(e, j, eps) }

  ghost function ClampedPivots(e: (nat, nat) -> Cx): nat -> real { (j: nat) => Positive(Pivot(e, j)) }

  /** Before column c, w is the pivot wherever that is above the tolerance. */
  ghost predicate Agrees(e: (nat, nat) -> Cx, w: nat -> real, c: nat, eps: Tolerance := PIVOT_EPSILON)
  {
    forall m: nat :: m < c && Pivot(e, m, eps) > eps ==> w(m) == Pivot(e, m, eps)
  }

  /** Nothing of entry (i, k), at or below the diagonal, is rounded to zero. */
  ghost predicate KeptWhole(e: (nat, nat) -> Cx, i: nat, k: nat)
  {
    Pivot(e, k) > PIVOT_EPSILON || if i == k then Pivot(e, k) >= 0.0 else Residual(e, i, k) == ZERO
  }

  // ------------------------------------------------------------------------
  // The factor reproduces the matrix
  // ------------------------------------------------------------------------

  lemma {:induction false} AccTerm(e: (nat, nat) -> Cx, w: nat -> real, i: nat, k: nat, c: nat, eps: Tolerance := PIVOT_EPSILON)
    requires c < i && (Pivot(e, c, eps) > eps ==> w(c) == Pivot(e, c, eps))
    ensures Lower(e, i, c, eps).Mul(Lower(e, k, c, eps).Conj()).Scale(Pivot(e, c, eps)) == Terms(LowerOf(e, eps), w, i, k)(c)
  {
    hide Cx.Mul, Cx.Scale, Acc;
    if Pivot(e, c, eps) <= eps {
      assert Lower(e, i, c, eps) == ZERO;
      Units(Lower(e, k, c, eps).Conj(), Pivot(e, c, eps));
      Units(Lower(e, k, c, eps).Conj(), w(c));
    }
  }

  lemma {:induction false} AccIsSum(e: (nat, nat) -> Cx, w: nat -> real, i: nat, k: nat, c: nat, eps: Tolerance := PIVOT_EPSILON)
    requires Agrees(e, w, c, eps) && c <= k <= i
    ensures Acc(e, i, k, c, eps) == Weighted(LowerOf(e, eps), w, c, i, k)
  {
    hide Cx.Mul, Cx.Scale, Pivot, Lower, Terms;
    if c > 0 {
      AccIsSum(e, w, i, k, c - 1, eps);
      AccTerm(e, w, i, k, c - 1, eps);
    }
  }

  /** At and below the diagonal the product is the accumulated part plus the
      column's own term. */
  lemma {:induction false} WeightedBelow(e: (nat, nat) -> Cx, w: nat -> real, s: nat, i: nat, k: nat, eps: Tolerance := PIVOT_EPSILON)
    requires Agrees(e, w, k, eps) && k <= i < s
    ensures Weighted(LowerOf(e, eps), w, s, i, k) == Acc(e, i, k, k, eps).Add(Lower(e, i, k, eps).Scale(w(k)))
  {
    hide Cx.Mul, Cx.Scale, Terms, Lower, Acc, Pivot;
    AccIsSum(e, w, i, k, k, eps);
    var f := Terms(LowerOf(e, eps), w, i, k);
    forall m: nat | k + 1 <= m < s
      ensures f(m) == ZERO
    {
      OwnTerm(e, w, i, k, m, eps);
    }
    SumTail(k + 1, s, f);
    OwnTerm(e, w, i, k, k, eps);
  }

  /** The terms from column k on. */
  lemma {:induction false} OwnTerm(e: (nat, nat) -> Cx, w: nat -> real, i: nat, k: nat, m: nat, eps: Tolerance := PIVOT_EPSILON)
    requires m >= k
    ensures Terms(LowerOf(e, eps), w, i, k)(m) == if m == k then Lower(e, i, k, eps).Scale(w(k)) else ZERO
  {
    hide Cx.Mul, Cx.Scale, Cx.Conj, Lower;
    UnitLower(e, k, m, eps);
    Units(Lower(e, i, m, eps), w(m));
  }

  lemma {:induction false} UnitLower(e: (nat, nat) -> Cx, k: nat, m: nat, eps: Tolerance := PIVOT_EPSILON)
    requires m >= k
    ensures Lower(e, k, m, eps) == if m == k then ONE else ZERO
  {
    hide Pivot, Residual, Quotient;
  }

  lemma {:induction false} AccRealOnDiagonal(e: (nat, nat) -> Cx, j: nat, eps: Tolerance := PIVOT_EPSILON)
    ensures Acc(e, j, j, j, eps).im == 0.0
  {
    hide Weighted, Acc, Pivot;
    AccIsSum(e, PivotsOf(e, eps), j, j, j, eps);
    WeightedHermitian(LowerOf(e, eps), PivotsOf(e, eps), j, j, j);
  }

  lemma {:induction false} SmallSquare(x: real, bound: real)
    requires -bound <= x <= bound
    ensures x * x <= bound * bound
  {
    assert 0.0 <= (bound - x) * (bound + x);
  }

  lemma {:induction false} WeightedHermitian(l: (nat, nat) -> Cx, w: nat -> real, s: nat, i: nat, k: nat)
    ensures Weighted(l, w, s, k, i) == Weighted(l, w, s, i, k).Conj()
  {
    var f, g := Terms(l, w, i, k), Terms(l, w, k, i);
    forall m: nat | m < s
      ensures g(m) == f(m).Conj()
    {
      var a, b := l(i, m), l(k, m);
      MulLaws(a, b.Conj(), ZERO);
      ConjLaws(a, b.Conj());
      ConjLaws(b, a);
    }
    SumConj(s, f, g);
  }

  /** M M^H, with the square root folded back into the pivots. */
  lemma {:induction false} FactorGram(e: (nat, nat) -> Cx, root: real -> real, n: nat, i: nat, k: nat)
    requires IsRoot(root)
    ensures Gram(Factor(e, root), n, i, k) == Weighted(LowerOf(e), ClampedPivots(e), n, i, k)
  {
    hide Cx.Mul, Cx.Scale, Pivot, Lower;
    var m := Factor(e, root);
    forall c: nat | c < n
      ensures m(i, c).Mul(m(k, c).Conj()) == Terms(LowerOf(e), ClampedPivots(e), i, k)(c)
    {
      var p := Positive(Pivot(e, c));
      RootTwice(Lower(e, i, c), Lower(e, k, c), root(p), p);
    }
    SumCongruence(n, (c: nat) => m(i, c).Mul(m(k, c).Conj()), Terms(LowerOf(e), ClampedPivots(e), i, k));
  }

  lemma {:induction false} ConjScale(a: Cx, k: real)
    ensures a.Scale(k).Conj() == a.Conj().Scale(k)
  {
  }

  lemma {:induction false} RootTwice(a: Cx, b: Cx, r: real, p: real)
    requires r * r == p
    ensures a.Scale(r).Mul(b.Scale(r).Conj()) == a.Mul(b.Conj()).Scale(p)
  {
    hide Cx.Mul;
    ConjScale(b, r);
    ScaleMul(a, b.Scale(r).Conj(), r);
    ScaleMul(b.Conj(), a, r);
    MulLaws(a, b.Conj().Scale(r), ZERO);
    MulLaws(a, b.Conj(), ZERO);
    ScaleScale(a.Mul(b.Conj()), r, r, p);
  }

  /** Every accepted Hermitian matrix is reproduced by its factor, entry by
      entry: within the tolerance always, and exactly precisely when nothing of
      the entry was rounded to zero. */
  lemma {:induction false} FactorReproduces(e: (nat, nat) -> Cx, root: real -> real, n: nat, i: nat, k: nat)
    requires Hermitian(e, n) && IsRoot(root) && Accepted(e, n) && i < n && k < n
    ensures Near(e(i, k), Gram(Factor(e, root), n, i, k), if i == k then PIVOT_EPSILON else TOLERANCE)
    ensures Gram(Factor(e, root), n, i, k) == e(i, k) <==> if i <= k then KeptWhole(e, k, i) else KeptWhole(e, i, k)
  {
    hide Weighted, Gram, Cx.Mul, Acc, Accepted;
    var w, low, high := ClampedPivots(e), if i <= k then i else k, if i <= k then k else i;
    ReproducesBelow(e, n, high, low);
    FactorGram(e, root, n, high, low);
    if i < k {
      FactorGram(e, root, n, i, k);
      WeightedHermitian(LowerOf(e), w, n, high, low);
      assert e(i, k) == e(k, i).Conj();
      NearConj(e(high, low), Weighted(LowerOf(e), w, n, high, low), TOLERANCE);
    }
  }

  /** The diagonal misses only the sign of a tiny negative pivot. */
  lemma {:induction false} DiagonalReproduced(e: (nat, nat) -> Cx, n: nat, k: nat)
    requires Hermitian(e, n) && Accepted(e, n) && k < n
    ensures Near(e(k, k), Weighted(LowerOf(e), ClampedPivots(e), n, k, k), PIVOT_EPSILON)
    ensures Weighted(LowerOf(e), ClampedPivots(e), n, k, k) == e(k, k) <==> KeptWhole(e, k, k)
  {
    hide Weighted, Cx.Mul, Acc;
    var w, p := ClampedPivots(e), Pivot(e, k);
    assert ColumnPasses(e, n, k);
    WeightedBelow(e, w, n, k, k);
    AccRealOnDiagonal(e, k);
    assert e(k, k) == e(k, k).Conj();
    assert Lower(e, k, k).Scale(w(k)) == Cx(Positive(p), 0.0);
    var gap := p - Positive(p);
    assert e(k, k).Sub(Weighted(LowerOf(e), w, n, k, k)) == Cx(gap, 0.0);
    SmallSquare(gap, PIVOT_EPSILON);
  }

  /** At and below the diagonal; below it the error is the residual that the
      method has bounded. */
  lemma {:induction false} ReproducesBelow(e: (nat, nat) -> Cx, n: nat, i: nat, k: nat)
    requires Hermitian(e, n) && Accepted(e, n) && k <= i < n
    ensures Near(e(i, k), Weighted(LowerOf(e), ClampedPivots(e), n, i, k), if i == k then PIVOT_EPSILON else TOLERANCE)
    ensures Weighted(LowerOf(e), ClampedPivots(e), n, i, k) == e(i, k) <==> KeptWhole(e, i, k)
  {
    hide Weighted, Cx.Mul, Acc, Cx.Norm2;
    var w, p := ClampedPivots(e), Pivot(e, k);
    if i == k {
      DiagonalReproduced(e, n, k);
    } else {
      assert ColumnPasses(e, n, k);
      WeightedBelow(e, w, n, i, k);
      NearSelf(e(i, k), TOLERANCE);
      if p > PIVOT_EPSILON {
        assert Lower(e, i, k).Scale(p) == Residual(e, i, k);
        assert Weighted(LowerOf(e), w, n, i, k) == e(i, k);
      } else {
        assert Lower(e, i, k).Scale(w(k)) == ZERO;
        assert e(i, k).Sub(Weighted(LowerOf(e), w, n, i, k)) == Residual(e, i, k);
      }
    }
  }
}
