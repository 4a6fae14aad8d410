/** Acceptance against positive semidefiniteness.  They agree where each pivot
    and residual is clear of its tolerance or exactly zero; a refusal comes with
    a vector of negative energy. */
module Semidefinite {
  import opened Complex
  import opened Matrix
  import opened Sums
  import opened Correlation
  import opened Covariance

  /** Component i of e * x. */
  ghost function Apply(e: (nat, nat) -> Cx, n: nat, x: nat -> Cx, i: nat): Cx
  {
    Sum(n, (k: nat) => e(i, k).Mul(x(k)))
  }

  /** x^H * e * x. */
  ghost function Energy(e: (nat, nat) -> Cx, n: nat, x: nat -> Cx): Cx
  {
    Sum(n, (i: nat) => x(i).Conj().Mul(Apply(e, n, x, i)))
  }

  ghost predicate PositiveSemidefinite(e: (nat, nat) -> Cx, n: nat)
  {
    forall x: nat -> Cx :: Energy(e, n, x).re >= 0.0
  }

  /** Component m of L^H * x. */
  ghost function Pulled(l: (nat, nat) -> Cx, n: nat, x: nat -> Cx, m: nat): Cx
  {
    Sum(n, (k: nat) => l(k, m).Conj().Mul(x(k)))
  }

  // ------------------------------------------------------------------------
  // x^H (L diag(w) L^H) x == sum of w(m) |(L^H x)(m)|^2
  // ------------------------------------------------------------------------

  /** The part of entry (i, k) that goes through column m, applied to x(k). */
  ghost function Share(l: (nat, nat) -> Cx, w: nat -> real, x: nat -> Cx, i: nat): (nat, nat) -> Cx
  {
    (k: nat, m: nat) => l(i, m).Scale(w(m)).Mul(l(k, m).Conj().Mul(x(k)))
  }

  lemma {:induction false} ShareIsTerm(l: (nat, nat) -> Cx, w: nat -> real, x: nat -> Cx, i: nat, k: nat, m: nat)
    ensures x(k).Mul(Terms(l, w, i, k)(m)) == Share(l, w, x, i)(k, m)
  {
    hide Cx.Mul, Cx.Scale;
    var a, b, c := l(i, m), l(k, m).Conj(), x(k);
    MulLaws(c, a.Mul(b).Scale(w(m)), ZERO);
    ScaleMul(a, b, w(m));
    MulLaws(a.Scale(w(m)), b, c);
  }

  lemma {:induction false} RowShare(l: (nat, nat) -> Cx, w: nat -> real, n: nat, x: nat -> Cx, i: nat, k: nat)
    ensures Weighted(l, w, n, i, k).Mul(x(k)) == Sum(n, (m: nat) => Share(l, w, x, i)(k, m))
  {
    hide Cx.Mul, Cx.Scale, Share, Terms;
    forall m: nat | m < n
      ensures Share(l, w, x, i)(k, m) == x(k).Mul(Terms(l, w, i, k)(m))
    {
      ShareIsTerm(l, w, x, i, k, m);
    }
    SumMul(n, x(k), Terms(l, w, i, k), (m: nat) => Share(l, w, x, i)(k, m));
    MulLaws(x(k), Weighted(l, w, n, i, k), ZERO);
  }

  /** Row i of the product, regrouped by column of L. */
  lemma {:induction false} ApplyWeighted(e: (nat, nat) -> Cx, l: (nat, nat) -> Cx, w: nat -> real, n: nat, x: nat -> Cx, i: nat)
    requires i < n && forall k: nat :: k < n ==> e(i, k) == Weighted(l, w, n, i, k)
    ensures Apply(e, n, x, i) == Sum(n, (m: nat) => l(i, m).Scale(w(m)).Mul(Pulled(l, n, x, m)))
  {
    hide Cx.Mul, Cx.Scale, Weighted;
    var share := Share(l, w, x, i);
    var byRow := (k: nat) => Sum(n, (m: nat) => share(k, m));
    var byColumn := (m: nat) => Sum(n, (k: nat) => share(k, m));
    forall k: nat | k < n
      ensures e(i, k).Mul(x(k)) == byRow(k)
    {
      RowShare(l, w, n, x, i, k);
      SumCongruence(n, (m: nat) => Share(l, w, x, i)(k, m), (m: nat) => share(k, m));
    }
    SumCongruence(n, (k: nat) => e(i, k).Mul(x(k)), byRow);
    SumSwap(n, n, share);
    forall m: nat | m < n
      ensures byColumn(m) == l(i, m).Scale(w(m)).Mul(Pulled(l, n, x, m))
    {
      SumMul(n, l(i, m).Scale(w(m)), (k: nat) => l(k, m).Conj().Mul(x(k)), (k: nat) => share(k, m));
    }
    SumCongruence(n, byColumn, (m: nat) => l(i, m).Scale(w(m)).Mul(Pulled(l, n, x, m)));
  }

  ghost function Mode(l: (nat, nat) -> Cx, w: nat -> real, n: nat, x: nat -> Cx): nat -> Cx
  {
    (m: nat) => Cx(w(m) * Pulled(l, n, x, m).Norm2(), 0.0)
  }

  /** conj(x(i)) times the part of row i that goes through column m. */
  ghost function Cross(l: (nat, nat) -> Cx, w: nat -> real, n: nat, x: nat -> Cx): (nat, nat) -> Cx
  {
    (i: nat, m: nat) => x(i).Conj().Mul(l(i, m).Scale(w(m)).Mul(Pulled(l, n, x, m)))
  }

  lemma {:induction false} CrossRegrouped(c: Cx, a: Cx, y: Cx, w: real)
    ensures c.Conj().Mul(a.Scale(w).Mul(y)) == y.Scale(w).Mul(a.Conj().Mul(c).Conj())
  {
    hide Cx.Mul, Cx.Scale;
    ScaleMul(a, y, w);
    ScaleMul(y, a, w);
    MulLaws(a, y, ZERO);
    MulLaws(y.Scale(w), a, c.Conj());
    MulLaws(c.Conj(), y.Scale(w).Mul(a), ZERO);
    ConjLaws(a.Conj(), c);
  }

  lemma {:induction false} CrossColumn(l: (nat, nat) -> Cx, w: nat -> real, n: nat, x: nat -> Cx, m: nat)
    ensures Sum(n, (i: nat) => Cross(l, w, n, x)(i, m)) == Mode(l, w, n, x)(m)
  {
    hide Cx.Mul, Cx.Scale, Cx.Norm2, Pulled;
    var y := Pulled(l, n, x, m);
    var f := (i: nat) => l(i, m).Conj().Mul(x(i));
    var g := (i: nat) => f(i).Conj();
    SumConj(n, f, g);
    PulledIsSum(l, n, x, m);
    forall i: nat | i < n
      ensures Cross(l, w, n, x)(i, m) == y.Scale(w(m)).Mul(g(i))
    {
      CrossRegrouped(x(i), l(i, m), y, w(m));
    }
    SumMul(n, y.Scale(w(m)), g, (i: nat) => Cross(l, w, n, x)(i, m));
    SquareScaled(y, w(m));
  }

  lemma {:induction false} PulledIsSum(l: (nat, nat) -> Cx, n: nat, x: nat -> Cx, m: nat)
    ensures Pulled(l, n, x, m) == Sum(n, (i: nat) => l(i, m).Conj().Mul(x(i)))
  {
    hide Cx.Mul;
    SumCongruence(n, (k: nat) => l(k, m).Conj().Mul(x(k)), (i: nat) => l(i, m).Conj().Mul(x(i)));
  }

  lemma {:induction false} SquareScaled(y: Cx, w: real)
    ensures y.Scale(w).Mul(y.Conj()) == Cx(w * y.Norm2(), 0.0)
  {
    hide Cx.Mul, Cx.Norm2;
    ScaleMul(y, y.Conj(), w);
    ConjLaws(y, y);
  }

  lemma {:induction false} EnergyByModes(e: (nat, nat) -> Cx, l: (nat, nat) -> Cx, w: nat -> real, n: nat, x: nat -> Cx)
    requires forall i: nat, k: nat :: i < n && k < n ==> e(i, k) == Weighted(l, w, n, i, k)
    ensures Energy(e, n, x) == Sum(n, Mode(l, w, n, x))
  {
    hide Cx.Mul, Cx.Scale, Weighted, Pulled, Apply, Mode;
    var cross := Cross(l, w, n, x);
    var byRow := (i: nat) => Sum(n, (m: nat) => cross(i, m));
    var byColumn := (m: nat) => Sum(n, (i: nat) => cross(i, m));
    forall i: nat | i < n
      ensures x(i).Conj().Mul(Apply(e, n, x, i)) == byRow(i)
    {
      ApplyWeighted(e, l, w, n, x, i);
      SumMul(n, x(i).Conj(), (m: nat) => l(i, m).Scale(w(m)).Mul(Pulled(l, n, x, m)), (m: nat) => cross(i, m));
    }
    SumCongruence(n, (i: nat) => x(i).Conj().Mul(Apply(e, n, x, i)), byRow);
    SumSwap(n, n, cross);
    forall m: nat | m < n
      ensures byColumn(m) == Mode(l, w, n, x)(m)
    {
      CrossColumn(l, w, n, x, m);
      SumCongruence(n, (i: nat) => Cross(l, w, n, x)(i, m), (i: nat) => cross(i, m));
    }
    SumCongruence(n, byColumn, Mode(l, w, n, x));
  }

  lemma {:induction false} ModesNonnegative(l: (nat, nat) -> Cx, w: nat -> real, n: nat, x: nat -> Cx, c: nat)
    requires forall m: nat :: m < c ==> w(m) >= 0.0
    ensures Sum(c, Mode(l, w, n, x)).re >= 0.0
  {
    hide Pulled;
    if c > 0 {
      ModesNonnegative(l, w, n, x, c - 1);
      NonnegativeProduct(w(c - 1), Pulled(l, n, x, c - 1));
    }
  }

  lemma {:induction false} NonnegativeProduct(w: real, y: Cx)
    requires w >= 0.0
    ensures w * y.Norm2() >= 0.0
  {
    assert y.re * y.re >= 0.0 && y.im * y.im >= 0.0;
  }

  // ------------------------------------------------------------------------
  // Accepted matrices
  // ------------------------------------------------------------------------

  lemma {:induction false} UnitWeights(m: (nat, nat) -> Cx, n: nat, i: nat, k: nat)
    ensures Gram(m, n, i, k) == Weighted(m, (_: nat) => 1.0, n, i, k)
  {
    hide Cx.Mul, Cx.Scale;
    forall c: nat | c < n
      ensures m(i, c).Mul(m(k, c).Conj()) == Terms(m, (_: nat) => 1.0, i, k)(c)
    {
      Units(m(i, c).Mul(m(k, c).Conj()), 1.0);
    }
    SumCongruence(n, (c: nat) => m(i, c).Mul(m(k, c).Conj()), Terms(m, (_: nat) => 1.0, i, k));
  }

  /** Whatever is accepted, M M^H is a covariance. */
  lemma {:induction false} GramIsSemidefinite(m: (nat, nat) -> Cx, n: nat)
    ensures PositiveSemidefinite((i: nat, k: nat) => Gram(m, n, i, k), n)
  {
    hide Gram, Weighted, Energy, Mode;
    var e := (i: nat, k: nat) => Gram(m, n, i, k);
    var ones := (_: nat) => 1.0;
    forall i: nat, k: nat | i < n && k < n
      ensures e(i, k) == Weighted(m, ones, n, i, k)
    {
      UnitWeights(m, n, i, k);
    }
    forall x: nat -> Cx
      ensures Energy(e, n, x).re >= 0.0
    {
      EnergyByModes(e, m, ones, n, x);
      ModesNonnegative(m, ones, n, x, n);
    }
  }

  /** Column j is kept whole: its pivot is above the tolerance, or it is zero
      from the diagonal down. */
  ghost predicate Settled(e: (nat, nat) -> Cx, n: nat, j: nat, eps: Tolerance := PIVOT_EPSILON)
  {
    Pivot(e, j, eps) > eps ||
    (Pivot(e, j, eps) == 0.0 && forall i: nat :: j < i < n ==> Residual(e, i, j, eps) == ZERO)
  }

  ghost predicate Reached(e: (nat, nat) -> Cx, n: nat, j: nat, eps: Tolerance := PIVOT_EPSILON) { forall m: nat :: m < j ==> Settled(e, n, m, eps) }

  /** An entry at or below the diagonal of a settled column, and a diagonal one. */
  lemma {:induction false} EntryExact(e: (nat, nat) -> Cx, n: nat, w: nat -> real, s: nat, i: nat, k: nat, eps: Tolerance := PIVOT_EPSILON)
    requires Hermitian(e, n) && k <= i < s <= n && Agrees(e, w, k, eps) && w(k) == Pivot(e, k, eps)
    requires i == k || Settled(e, n, k, eps)
    ensures e(i, k) == Weighted(LowerOf(e, eps), w, s, i, k)
  {
    hide Weighted, Acc, Cx.Mul;
    WeightedBelow(e, w, s, i, k, eps);
    if i == k {
      AccRealOnDiagonal(e, k, eps);
      assert e(k, k) == e(k, k).Conj();
    } else if Pivot(e, k, eps) > eps {
      assert Lower(e, i, k, eps).Scale(Pivot(e, k, eps)) == Residual(e, i, k, eps);
    } else {
      assert Residual(e, i, k, eps) == ZERO && Lower(e, i, k, eps).Scale(w(k)) == ZERO;
    }
  }

  /** With the columns before the last settled the leading block is L D L^H
      exactly, whatever the last pivot is. */
  lemma {:induction false} BlockExact(e: (nat, nat) -> Cx, n: nat, s: nat, i: nat, k: nat, eps: Tolerance := PIVOT_EPSILON)
    requires Hermitian(e, n) && i < s && k < s <= n && forall m: nat :: m + 1 < s ==> Settled(e, n, m, eps)
    ensures e(i, k) == Weighted(LowerOf(e, eps), PivotsOf(e, eps), s, i, k)
  {
    hide Weighted, Settled, Pivot;
    var w, low, high := PivotsOf(e, eps), if k <= i then k else i, if k <= i then i else k;
    EntryExact(e, n, w, s, high, low, eps);
    if i < k {
      WeightedHermitian(LowerOf(e, eps), w, s, k, i);
      assert e(i, k) == e(k, i).Conj();
    }
  }

  lemma {:induction false} SettledIsSemidefinite(e: (nat, nat) -> Cx, n: nat, eps: Tolerance := PIVOT_EPSILON)
    requires Hermitian(e, n) && Reached(e, n, n, eps)
    ensures PositiveSemidefinite(e, n)
  {
    hide Weighted, Energy, Mode, Pivot, Residual;
    forall i: nat, k: nat | i < n && k < n
      ensures e(i, k) == Weighted(LowerOf(e, eps), PivotsOf(e, eps), n, i, k)
    {
      BlockExact(e, n, n, i, k, eps);
    }
    forall m: nat | m < n
      ensures PivotsOf(e, eps)(m) >= 0.0
    {
      assert Settled(e, n, m, eps);
    }
    forall x: nat -> Cx
      ensures Energy(e, n, x).re >= 0.0
    {
      EnergyByModes(e, LowerOf(e, eps), PivotsOf(e, eps), n, x);
      ModesNonnegative(LowerOf(e, eps), PivotsOf(e, eps), n, x, n);
    }
  }

  // ------------------------------------------------------------------------
  // What the first j columns leave
  // ------------------------------------------------------------------------

  ghost function PivotsBefore(e: (nat, nat) -> Cx, j: nat, eps: Tolerance := PIVOT_EPSILON): nat -> real
  {
    (m: nat) => if m < j then Pivot(e, m, eps) else 0.0
  }

  /** The matrix without what the first j columns explain. */
  ghost function Left(e: (nat, nat) -> Cx, n: nat, j: nat, eps: Tolerance := PIVOT_EPSILON): (nat, nat) -> Cx
  {
    (i: nat, k: nat) => e(i, k).Sub(Weighted(LowerOf(e, eps), PivotsBefore(e, j, eps), n, i, k))
  }

  lemma {:induction false} WeightedBefore(e: (nat, nat) -> Cx, n: nat, j: nat, i: nat, k: nat, eps: Tolerance := PIVOT_EPSILON)
    requires j <= k <= i < n
    ensures Weighted(LowerOf(e, eps), PivotsBefore(e, j, eps), n, i, k) == Acc(e, i, k, j, eps)
  {
    hide Cx.Mul, Acc, Pivot, LowerOf;
    var f := Terms(LowerOf(e, eps), PivotsBefore(e, j, eps), i, k);
    forall m: nat | j <= m < n
      ensures f(m) == ZERO
    {
      ScaleZero(LowerOf(e, eps)(i, m).Mul(LowerOf(e, eps)(k, m).Conj()));
    }
    SumTail(j, n, f);
    AccIsSum(e, PivotsBefore(e, j, eps), i, k, j, eps);
  }

  lemma {:induction false} ScaleZero(a: Cx)
    ensures a.Scale(0.0) == ZERO
  {
  }

  /** Nothing is left in the rows and columns before j; on and below the
      diagonal, column j is left with its pivot and its residuals. */
  lemma {:induction false} LeftEntries(e: (nat, nat) -> Cx, n: nat, j: nat, i: nat, k: nat, eps: Tolerance := PIVOT_EPSILON)
    requires Hermitian(e, n) && Reached(e, n, j, eps) && k <= i < n
    ensures k < j ==> Left(e, n, j, eps)(i, k) == ZERO
    ensures k == j < i ==> Left(e, n, j, eps)(i, k) == Residual(e, i, j, eps)
    ensures k == j == i ==> Left(e, n, j, eps)(i, k) == Cx(Pivot(e, j, eps), 0.0)
  {
    hide Weighted, Settled, Acc;
    if k < j {
      EntryExact(e, n, PivotsBefore(e, j, eps), n, i, k, eps);
    } else {
      WeightedBefore(e, n, j, i, k, eps);
      if k == j == i {
        AccRealOnDiagonal(e, j, eps);
        assert e(j, j) == e(j, j).Conj();
      }
    }
  }

  lemma {:induction false} LeftHermitian(e: (nat, nat) -> Cx, n: nat, j: nat, i: nat, k: nat, eps: Tolerance := PIVOT_EPSILON)
    requires Hermitian(e, n) && i < n && k < n
    ensures Left(e, n, j, eps)(k, i) == Left(e, n, j, eps)(i, k).Conj()
  {
    hide Weighted;
    WeightedHermitian(LowerOf(e, eps), PivotsBefore(e, j, eps), n, i, k);
    assert e(k, i) == e(i, k).Conj();
  }

  // ------------------------------------------------------------------------
  // Back substitution
  // ------------------------------------------------------------------------

  /** The vector that is x from row j on and whose components of L^H before j
      are zero. */
  ghost function Solved(e: (nat, nat) -> Cx, n: nat, j: nat, x: nat -> Cx, i: nat, eps: Tolerance := PIVOT_EPSILON): Cx
    decreases if i >= j || i >= n then 0 else n - i
  {
    if i >= j || i >= n then x(i)
    else Sum(n, (k: nat) => if i < k < n then Lower(e, k, i, eps).Conj().Mul(Solved(e, n, j, x, k, eps)) else ZERO).Neg()
  }

  ghost function SolvedOf(e: (nat, nat) -> Cx, n: nat, j: nat, x: nat -> Cx, eps: Tolerance := PIVOT_EPSILON): nat -> Cx
  {
    (i: nat) => Solved(e, n, j, x, i, eps)
  }

  /** The terms of component m above row m. */
  ghost function Above(e: (nat, nat) -> Cx, n: nat, j: nat, x: nat -> Cx, m: nat, eps: Tolerance := PIVOT_EPSILON): nat -> Cx
  {
    (k: nat) => if m < k < n then Lower(e, k, m, eps).Conj().Mul(Solved(e, n, j, x, k, eps)) else ZERO
  }

  lemma {:induction false} SolvedCancels(e: (nat, nat) -> Cx, n: nat, j: nat, x: nat -> Cx, m: nat, eps: Tolerance := PIVOT_EPSILON)
    requires m < j && m < n
    ensures Sum(n, Above(e, n, j, x, m, eps)).Add(Solved(e, n, j, x, m, eps)) == ZERO
  {
    hide Cx.Mul, Lower;
    SumCongruence(n, Above(e, n, j, x, m, eps),
      (k: nat) => if m < k < n then Lower(e, k, m, eps).Conj().Mul(Solved(e, n, j, x, k, eps)) else ZERO);
  }

  lemma {:induction false} SolvedTerm(e: (nat, nat) -> Cx, n: nat, j: nat, x: nat -> Cx, m: nat, k: nat, eps: Tolerance := PIVOT_EPSILON)
    requires k < n
    ensures LowerOf(e, eps)(k, m).Conj().Mul(SolvedOf(e, n, j, x, eps)(k)) ==
            if k == m then Solved(e, n, j, x, m, eps) else Above(e, n, j, x, m, eps)(k)
  {
    hide Cx.Mul, Solved, Pivot;
    Units(Solved(e, n, j, x, k, eps), 0.0);
  }

  lemma {:induction false} SolvedPulled(e: (nat, nat) -> Cx, n: nat, j: nat, x: nat -> Cx, m: nat, eps: Tolerance := PIVOT_EPSILON)
    requires m < j && m < n
    ensures Pulled(LowerOf(e, eps), n, SolvedOf(e, n, j, x, eps), m) == ZERO
  {
    SolvedCancels(e, n, j, x, m, eps);
    hide Cx.Mul, Cx.Add, Cx.Conj, LowerOf, SolvedOf, Sum, Above;
    var above, own := Above(e, n, j, x, m, eps), Solved(e, n, j, x, m, eps);
    var f := (k: nat) => LowerOf(e, eps)(k, m).Conj().Mul(SolvedOf(e, n, j, x, eps)(k));
    forall k: nat | k < n
      ensures f(k) == if k == m then own else above(k)
    {
      SolvedTerm(e, n, j, x, m, k, eps);
    }
    AboveSkips(e, n, j, x, m, eps);
    SumWithOwn(n, m, own, above, f);
  }

  lemma {:induction false} AboveSkips(e: (nat, nat) -> Cx, n: nat, j: nat, x: nat -> Cx, m: nat, eps: Tolerance := PIVOT_EPSILON)
    ensures Above(e, n, j, x, m, eps)(m) == ZERO
  {
  }

  /** Putting `own` in the place of a zero term. */
  lemma {:induction false} SumWithOwn(n: nat, m: nat, own: Cx, above: nat -> Cx, f: nat -> Cx)
    requires m < n && above(m) == ZERO && forall k: nat :: k < n ==> f(k) == if k == m then own else above(k)
    ensures Sum(n, f) == Sum(n, above).Add(own)
  {
    hide Cx.Add;
    var single := (k: nat) => if k == m then own else ZERO;
    forall k: nat | k < n
      ensures f(k) == above(k).Add(single(k))
    {
      Units(f(k), 0.0);
    }
    SumSingle(m, n, single);
    SumAdd(n, above, single, f);
  }

  lemma {:induction false} ApplyAdd(a: (nat, nat) -> Cx, b: (nat, nat) -> Cx, e: (nat, nat) -> Cx, n: nat, x: nat -> Cx, i: nat)
    requires forall k: nat :: k < n ==> e(i, k) == a(i, k).Add(b(i, k))
    ensures Apply(e, n, x, i) == Apply(a, n, x, i).Add(Apply(b, n, x, i))
  {
    hide Cx.Mul;
    forall k: nat | k < n
      ensures e(i, k).Mul(x(k)) == a(i, k).Mul(x(k)).Add(b(i, k).Mul(x(k)))
    {
      Distributed(x(k), a(i, k), b(i, k));
    }
    SumAdd(n, (k: nat) => a(i, k).Mul(x(k)), (k: nat) => b(i, k).Mul(x(k)), (k: nat) => e(i, k).Mul(x(k)));
  }

  lemma {:induction false} Distributed(c: Cx, a: Cx, b: Cx)
    ensures a.Add(b).Mul(c) == a.Mul(c).Add(b.Mul(c))
  {
    hide Cx.Mul;
    MulLaws(c, a, b);
    MulLaws(c, b, ZERO);
    MulLaws(c, a.Add(b), ZERO);
  }

  lemma {:induction false} EnergyAdd(a: (nat, nat) -> Cx, b: (nat, nat) -> Cx, e: (nat, nat) -> Cx, n: nat, x: nat -> Cx)
    requires forall i: nat, k: nat :: i < n && k < n ==> e(i, k) == a(i, k).Add(b(i, k))
    ensures Energy(e, n, x) == Energy(a, n, x).Add(Energy(b, n, x))
  {
    hide Cx.Mul, Apply;
    forall i: nat | i < n
      ensures x(i).Conj().Mul(Apply(e, n, x, i)) ==
              x(i).Conj().Mul(Apply(a, n, x, i)).Add(x(i).Conj().Mul(Apply(b, n, x, i)))
    {
      ApplyAdd(a, b, e, n, x, i);
      MulLaws(x(i).Conj(), Apply(a, n, x, i), Apply(b, n, x, i));
    }
    SumAdd(n, (i: nat) => x(i).Conj().Mul(Apply(a, n, x, i)), (i: nat) => x(i).Conj().Mul(Apply(b, n, x, i)),
           (i: nat) => x(i).Conj().Mul(Apply(e, n, x, i)));
  }

  lemma {:induction false} ApplySame(a: (nat, nat) -> Cx, n: nat, x: nat -> Cx, y: nat -> Cx, i: nat)
    requires forall k: nat :: k < n && x(k) != y(k) ==> a(i, k) == ZERO
    ensures Apply(a, n, x, i) == Apply(a, n, y, i)
  {
    hide Cx.Mul;
    forall k: nat | k < n
      ensures a(i, k).Mul(x(k)) == a(i, k).Mul(y(k))
    {
      Units(x(k), 0.0);
      Units(y(k), 0.0);
    }
    SumCongruence(n, (k: nat) => a(i, k).Mul(x(k)), (k: nat) => a(i, k).Mul(y(k)));
  }

  lemma {:induction false} ApplyOfZeroRow(a: (nat, nat) -> Cx, n: nat, x: nat -> Cx, i: nat)
    requires forall k: nat :: k < n ==> a(i, k) == ZERO
    ensures Apply(a, n, x, i) == ZERO
  {
    hide Cx.Mul;
    forall k: nat | k < n
      ensures a(i, k).Mul(x(k)) == ZERO
    {
      Units(x(k), 0.0);
    }
    SumOfZeros(n, (k: nat) => a(i, k).Mul(x(k)));
  }

  /** Components that only meet zero entries do not matter. */
  lemma {:induction false} EnergySame(a: (nat, nat) -> Cx, n: nat, x: nat -> Cx, y: nat -> Cx)
    requires forall i: nat, k: nat :: i < n && k < n && x(k) != y(k) ==> a(i, k) == ZERO && a(k, i) == ZERO
    ensures Energy(a, n, x) == Energy(a, n, y)
  {
    hide Cx.Mul, Apply;
    forall i: nat | i < n
      ensures x(i).Conj().Mul(Apply(a, n, x, i)) == y(i).Conj().Mul(Apply(a, n, y, i))
    {
      ApplySame(a, n, x, y, i);
      if x(i) != y(i) {
        ApplyOfZeroRow(a, n, y, i);
        Units(x(i).Conj(), 0.0);
        Units(y(i).Conj(), 0.0);
      }
    }
    SumCongruence(n, (i: nat) => x(i).Conj().Mul(Apply(a, n, x, i)), (i: nat) => y(i).Conj().Mul(Apply(a, n, y, i)));
  }

  /** Solved against the first j columns, x has the energy of what they leave. */
  lemma {:induction false} EnergyOfSolved(e: (nat, nat) -> Cx, n: nat, j: nat, x: nat -> Cx, eps: Tolerance := PIVOT_EPSILON)
    requires Hermitian(e, n) && Reached(e, n, j, eps) && j <= n
    ensures Energy(e, n, SolvedOf(e, n, j, x, eps)) == Energy(Left(e, n, j, eps), n, x)
  {
    hide Weighted, Energy, Left, SolvedOf, Mode, PivotsBefore, LowerOf, Reached;
    var l, w, y, left := LowerOf(e, eps), PivotsBefore(e, j, eps), SolvedOf(e, n, j, x, eps), Left(e, n, j, eps);
    var explained := (i: nat, k: nat) => Weighted(l, w, n, i, k);
    forall i: nat, k: nat | i < n && k < n
      ensures e(i, k) == explained(i, k).Add(left(i, k))
    {
      LeftAndExplained(e, n, j, i, k, eps);
    }
    EnergyAdd(explained, left, e, n, y);
    EnergyByModes(explained, l, w, n, y);
    forall m: nat | m < n
      ensures Mode(l, w, n, y)(m) == ZERO
    {
      SolvedMode(e, n, j, x, m, eps);
    }
    SumOfZeros(n, Mode(l, w, n, y));
    forall i: nat, k: nat | i < n && k < n && y(k) != x(k)
      ensures left(i, k) == ZERO && left(k, i) == ZERO
    {
      LeftVanishes(e, n, j, x, i, k, eps);
    }
    EnergySame(left, n, y, x);
    Units(Energy(left, n, x), 0.0);
  }

  lemma {:induction false} LeftAndExplained(e: (nat, nat) -> Cx, n: nat, j: nat, i: nat, k: nat, eps: Tolerance := PIVOT_EPSILON)
    ensures e(i, k) == Weighted(LowerOf(e, eps), PivotsBefore(e, j, eps), n, i, k).Add(Left(e, n, j, eps)(i, k))
  {
    hide Weighted;
  }

  lemma {:induction false} SolvedMode(e: (nat, nat) -> Cx, n: nat, j: nat, x: nat -> Cx, m: nat, eps: Tolerance := PIVOT_EPSILON)
    requires m < n
    ensures Mode(LowerOf(e, eps), PivotsBefore(e, j, eps), n, SolvedOf(e, n, j, x, eps))(m) == ZERO
  {
    hide Pulled, LowerOf, SolvedOf, Pivot, Cx.Norm2;
    if m < j {
      SolvedPulled(e, n, j, x, m, eps);
      UnitNorms();
    }
  }

  /** Where back substitution changes a component nothing is left. */
  lemma {:induction false} LeftVanishes(e: (nat, nat) -> Cx, n: nat, j: nat, x: nat -> Cx, i: nat, k: nat, eps: Tolerance := PIVOT_EPSILON)
    requires Hermitian(e, n) && Reached(e, n, j, eps) && i < n && k < n && SolvedOf(e, n, j, x, eps)(k) != x(k)
    ensures Left(e, n, j, eps)(i, k) == ZERO && Left(e, n, j, eps)(k, i) == ZERO
  {
    hide Reached, Left, Hermitian;
    assert k < j;
    LeftEntries(e, n, j, if k <= i then i else k, if k <= i then k else i, eps);
    LeftHermitian(e, n, j, if k <= i then i else k, if k <= i then k else i, eps);
  }

  // ------------------------------------------------------------------------
  // Refused matrices
  // ------------------------------------------------------------------------

  ghost function UnitAt(j: nat): nat -> Cx { (i: nat) => if i == j then ONE else ZERO }

  lemma {:induction false} UnitEnergy(a: (nat, nat) -> Cx, n: nat, j: nat)
    requires j < n
    ensures Energy(a, n, UnitAt(j)) == a(j, j)
  {
    hide Cx.Mul, Apply;
    var x := UnitAt(j);
    var f := (i: nat) => x(i).Conj().Mul(Apply(a, n, x, i));
    forall i: nat | i < n
      ensures f(i) == if i == j then a(j, j) else ZERO
    {
      UnitApply(a, n, j, i);
      Units(Apply(a, n, x, i), 0.0);
    }
    SumSingle(j, n, f);
  }

  lemma {:induction false} UnitApply(a: (nat, nat) -> Cx, n: nat, j: nat, i: nat)
    requires j < n
    ensures Apply(a, n, UnitAt(j), i) == a(i, j)
  {
    hide Cx.Mul;
    var f := (k: nat) => a(i, k).Mul(UnitAt(j)(k));
    forall k: nat | k < n
      ensures f(k) == if k == j then a(i, j) else ZERO
    {
      Units(a(i, k), 0.0);
    }
    SumSingle(j, n, f);
  }

  /** The energy of the back-substituted unit vector is the pivot itself. */
  lemma {:induction false} NegativePivotWitness(e: (nat, nat) -> Cx, n: nat, j: nat, eps: Tolerance := PIVOT_EPSILON)
    requires Hermitian(e, n) && j < n && Reached(e, n, j, eps)
    ensures Energy(e, n, SolvedOf(e, n, j, UnitAt(j), eps)) == Cx(Pivot(e, j, eps), 0.0)
  {
    hide Energy, Left, Reached, Pivot;
    EnergyOfSolved(e, n, j, UnitAt(j), eps);
    UnitEnergy(Left(e, n, j, eps), n, j);
    LeftEntries(e, n, j, j, j, eps);
  }

  /** y at j and one at i. */
  ghost function TwoAt(j: nat, y: Cx, i: nat): nat -> Cx { (k: nat) => if k == j then y else if k == i then ONE else ZERO }

  lemma {:induction false} SumOfTwo(j: nat, i: nat, n: nat, f: nat -> Cx)
    requires j < i < n && forall k: nat :: k < n && k != j && k != i ==> f(k) == ZERO
    ensures Sum(n, f) == f(j).Add(f(i))
  {
    hide Cx.Add;
    SumTail(i + 1, n, f);
    SumSingle(j, i, f);
    assert Sum(i + 1, f) == Sum(i, f).Add(f(i));
  }

  lemma {:induction false} TwoApply(a: (nat, nat) -> Cx, n: nat, j: nat, y: Cx, i: nat, k: nat)
    requires j < i < n
    ensures Apply(a, n, TwoAt(j, y, i), k) == a(k, j).Mul(y).Add(a(k, i))
  {
    hide Cx.Mul;
    var f := (m: nat) => a(k, m).Mul(TwoAt(j, y, i)(m));
    forall m: nat | m < n
      ensures f(m) == if m == j then a(k, j).Mul(y) else if m == i then a(k, i) else ZERO
    {
      Units(a(k, m), 0.0);
    }
    SumOfTwo(j, i, n, f);
  }

  lemma {:induction false} TwoEnergy(a: (nat, nat) -> Cx, n: nat, j: nat, y: Cx, i: nat)
    requires j < i < n
    ensures Energy(a, n, TwoAt(j, y, i)) ==
            y.Conj().Mul(a(j, j).Mul(y).Add(a(j, i))).Add(a(i, j).Mul(y).Add(a(i, i)))
  {
    hide Cx.Mul, Apply;
    var x := TwoAt(j, y, i);
    var f := (k: nat) => x(k).Conj().Mul(Apply(a, n, x, k));
    forall k: nat | k < n
      ensures f(k) == if k == j then y.Conj().Mul(a(j, j).Mul(y).Add(a(j, i)))
                      else if k == i then a(i, j).Mul(y).Add(a(i, i)) else ZERO
    {
      TwoApply(a, n, j, y, i, k);
      Units(Apply(a, n, x, k), 0.0);
    }
    SumOfTwo(j, i, n, f);
  }

  /** A zero beside r: y makes the energy t - 2 h |r|^2. */
  lemma {:induction false} ZeroBeside(r: Cx, t: Cx, h: real)
    ensures var y := r.Conj().Scale(-h);
            y.Conj().Mul(ZERO.Mul(y).Add(r.Conj())).Add(r.Mul(y).Add(t)) == Cx(t.re - 2.0 * (h * r.Norm2()), t.im)
  {
    hide Cx.Mul, Cx.Norm2;
    var y := r.Conj().Scale(-h);
    Units(y, 0.0);
    Units(r.Conj(), 0.0);
    ConjLaws(y, r);
    ConjLaws(r, y);
    MulLaws(r, y, ZERO);
    MulLaws(y.Conj(), r.Conj(), ZERO);
    ScaleMul(r.Conj(), r, -h);
    MulLaws(r, r.Conj(), ZERO);
    assert r.Mul(y) == Cx(r.Norm2(), 0.0).Scale(-h);
    assert y.Conj().Mul(r.Conj()) == r.Mul(y).Conj();
  }

  lemma {:induction false} LargeEnough(q: real, t: real) returns (h: real)
    requires q > 0.0
    ensures t - 2.0 * (h * q) < 0.0
  {
    var s := (if t < 0.0 then -t else t) + 1.0;
    h := s / q;
    assert h * q == s;
  }

  /** A zero pivot with a residual below it: some vector on j, i and the rows
      before j has negative energy. */
  lemma {:induction false} ZeroPivotWitness(e: (nat, nat) -> Cx, n: nat, j: nat, i: nat, eps: Tolerance := PIVOT_EPSILON) returns (x: nat -> Cx)
    requires Hermitian(e, n) && Reached(e, n, j, eps) && j < i < n && Pivot(e, j, eps) == 0.0 && Residual(e, i, j, eps) != ZERO
    ensures Energy(e, n, x).re < 0.0
  {
    hide Energy, Left, Reached, Pivot, Residual, Cx.Mul, Cx.Norm2;
    var left, r := Left(e, n, j, eps), Residual(e, i, j, eps);
    NonzeroNorm(r);
    var h := LargeEnough(r.Norm2(), left(i, i).re);
    var y := r.Conj().Scale(-h);
    LeftEntries(e, n, j, j, j, eps);
    LeftEntries(e, n, j, i, j, eps);
    LeftHermitian(e, n, j, i, j, eps);
    EnergyOfSolved(e, n, j, TwoAt(j, y, i), eps);
    TwoEnergy(left, n, j, y, i);
    ZeroBeside(r, left(i, i), h);
    x := SolvedOf(e, n, j, TwoAt(j, y, i), eps);
  }

  lemma {:induction false} NonzeroNorm(z: Cx)
    requires z != ZERO
    ensures z.Norm2() > 0.0
  {
    hide Cx.Norm2;
    var p, q := z.re * z.re, z.im * z.im;
    NormParts(z, p, q);
    assert z == Cx(z.re, z.im);
    if z.re != 0.0 {
      PositiveProduct(z.re, z.re, p);
    } else {
      PositiveProduct(z.im, z.im, q);
    }
  }

  lemma {:induction false} NormParts(z: Cx, p: real, q: real)
    requires p == z.re * z.re && q == z.im * z.im
    ensures z.Norm2() == p + q && p >= 0.0 && q >= 0.0
  {
  }

  // ------------------------------------------------------------------------
  // Acceptance decides semidefiniteness
  // ------------------------------------------------------------------------

  /** The pivot is exactly zero, each residual below it is zero or beyond the
      tolerance. */
  ghost predicate PlainZero(e: (nat, nat) -> Cx, n: nat, j: nat)
  {
    Pivot(e, j) == 0.0 &&
    forall i: nat :: j < i < n ==> Residual(e, i, j) == ZERO || Residual(e, i, j).Norm2() > TOLERANCE * TOLERANCE
  }

  /** Every column the elimination reaches is outside the band or plainly zero. */
  ghost predicate ClearOfBand(e: (nat, nat) -> Cx, n: nat)
  {
    forall j: nat :: j < n && Reached(e, n, j) ==>
      Pivot(e, j) > PIVOT_EPSILON || Pivot(e, j) < -PIVOT_EPSILON || PlainZero(e, n, j)
  }

  lemma {:induction false} FirstUnsettled(e: (nat, nat) -> Cx, n: nat, c: nat, eps: Tolerance := PIVOT_EPSILON) returns (j: nat)
    requires c <= n && !Reached(e, n, c, eps)
    ensures j < c && Reached(e, n, j, eps) && !Settled(e, n, j, eps)
  {
    hide Settled;
    if Reached(e, n, c - 1, eps) {
      j := c - 1;
    } else {
      j := FirstUnsettled(e, n, c - 1, eps);
    }
  }

  lemma {:induction false} SettledPasses(e: (nat, nat) -> Cx, n: nat)
    requires Reached(e, n, n)
    ensures Accepted(e, n)
  {
    hide Pivot, Residual, Cx.Norm2;
    UnitNorms();
    var bound := TOLERANCE * TOLERANCE;
    assert bound > 0.0;
    forall j: nat | j < n
      ensures ColumnPasses(e, n, j)
    {
      assert Settled(e, n, j);
    }
  }

  /** An unsettled column that is clear of the band is refused, with a vector of
      negative energy. */
  lemma {:induction false} UnsettledIsRefused(e: (nat, nat) -> Cx, n: nat, j: nat)
    requires Hermitian(e, n) && ClearOfBand(e, n) && j < n && Reached(e, n, j) && !Settled(e, n, j)
    ensures !ColumnPasses(e, n, j) && !PositiveSemidefinite(e, n)
  {
    hide Energy, Pivot, Residual, Reached;
    if Pivot(e, j) < -PIVOT_EPSILON {
      NegativePivotWitness(e, n, j);
    } else {
      var i: nat :| j < i < n && Residual(e, i, j) != ZERO;
      var x := ZeroPivotWitness(e, n, j, i);
    }
  }

  /** Clear of the band, the factorisation decides positive semidefiniteness,
      singular matrices included. */
  lemma {:induction false} AcceptedIffSemidefinite(e: (nat, nat) -> Cx, n: nat)
    requires Hermitian(e, n) && ClearOfBand(e, n)
    ensures Accepted(e, n) <==> PositiveSemidefinite(e, n)
  {
    hide PositiveSemidefinite, ColumnPasses, Settled, ClearOfBand;
    if Reached(e, n, n) {
      SettledPasses(e, n);
      SettledIsSemidefinite(e, n);
    } else {
      var j := FirstUnsettled(e, n, n);
      UnsettledIsRefused(e, n, j);
    }
  }

  // ------------------------------------------------------------------------
  // Elimination without a tolerance
  // ------------------------------------------------------------------------

  /** For every Hermitian matrix: it is positive semidefinite exactly when
      elimination with tolerance zero meets neither a negative pivot nor a zero
      pivot with a residual below it. */
  lemma {:induction false} SemidefiniteIffEliminates(e: (nat, nat) -> Cx, n: nat)
    requires Hermitian(e, n)
    ensures PositiveSemidefinite(e, n) <==> Reached(e, n, n, 0.0)
  {
    hide Energy, Pivot, Residual, Reached;
    if Reached(e, n, n, 0.0) {
      SettledIsSemidefinite(e, n, 0.0);
    } else {
      var j := FirstUnsettled(e, n, n, 0.0);
      if Pivot(e, j, 0.0) < 0.0 {
        NegativePivotWitness(e, n, j, 0.0);
      } else {
        var i: nat :| j < i < n && Residual(e, i, j, 0.0) != ZERO;
        var x := ZeroPivotWitness(e, n, j, i, 0.0);
      }
    }
  }

  // ------------------------------------------------------------------------
  // Inside the band
  // ------------------------------------------------------------------------

  /** The correlation matrix of two ports with correlation c. */
  ghost function Pair(c: Cx): (nat, nat) -> Cx
  {
    (i: nat, j: nat) => if i == j then ONE else if i > j then c else c.Conj()
  }

  lemma {:induction false} FirstColumn(e: (nat, nat) -> Cx, i: nat)
    requires e(0, 0) == ONE && i > 0
    ensures Pivot(e, 0) == 1.0 && Lower(e, i, 0) == e(i, 0)
  {
    hide Cx.Mul;
    assert Acc(e, 0, 0, 0) == ZERO == Acc(e, i, 0, 0);
    Units(e(i, 0), 0.0);
    assert Residual(e, i, 0) == e(i, 0);
    SameQuotient(Quotient(e(i, 0), 1.0), e(i, 0), 1.0);
  }

  lemma {:induction false} AccOne(e: (nat, nat) -> Cx, i: nat, j: nat)
    requires e(0, 0) == ONE && i > 0 && j > 0
    ensures Acc(e, i, j, 1) == e(i, 0).Mul(e(j, 0).Conj())
  {
    hide Cx.Mul, Cx.Scale, Pivot, Lower;
    FirstColumn(e, i);
    FirstColumn(e, j);
    assert Acc(e, i, j, 0) == ZERO;
    Units(e(i, 0).Mul(e(j, 0).Conj()), 1.0);
  }

  lemma {:induction false} PairPivots(c: Cx)
    ensures Pivot(Pair(c), 0) == 1.0 && Pivot(Pair(c), 1) == 1.0 - c.Norm2()
  {
    hide Cx.Mul, Cx.Scale, Cx.Norm2, Lower, Acc;
    var e := Pair(c);
    FirstColumn(e, 1);
    AccOne(e, 1, 1);
    ConjLaws(c, c);
  }

  /** Two ports: acceptance allows a squared correlation of up to 1 + 1e-12,
      while the matrix is a covariance up to 1. */
  lemma {:induction false} PairAccepted(c: Cx)
    ensures Accepted(Pair(c), 2) <==> c.Norm2() <= 1.0 + PIVOT_EPSILON
    ensures PositiveSemidefinite(Pair(c), 2) <==> c.Norm2() <= 1.0
  {
    hide Energy, Mode, Pivot, Weighted, Cx.Norm2, Residual;
    var e := Pair(c);
    PairPivots(c);
    assert Accepted(e, 2) <==> ColumnPasses(e, 2, 0) && ColumnPasses(e, 2, 1);
    assert Hermitian(e, 2);
    if c.Norm2() <= 1.0 {
      forall i: nat, k: nat | i < 2 && k < 2
        ensures e(i, k) == Weighted(LowerOf(e), PivotsOf(e), 2, i, k)
      {
        BlockExact(e, 2, 2, i, k);
      }
      forall x: nat -> Cx
        ensures Energy(e, 2, x).re >= 0.0
      {
        EnergyByModes(e, LowerOf(e), PivotsOf(e), 2, x);
        ModesNonnegative(LowerOf(e), PivotsOf(e), 2, x, 2);
      }
    } else {
      NegativePivotWitness(e, 2, 1);
    }
  }

  /** Two perfectly correlated ports are clear of the band, as is every pair
      whose squared correlation is not within 1e-12 of one; up to full
      correlation no entry is rounded. */
  lemma {:induction false} PairClear(c: Cx)
    ensures ClearOfBand(Pair(c), 2) <==>
            c.Norm2() == 1.0 || c.Norm2() < 1.0 - PIVOT_EPSILON || c.Norm2() > 1.0 + PIVOT_EPSILON
    ensures c.Norm2() <= 1.0 ==> forall i: nat, k: nat :: k <= i < 2 ==> KeptWhole(Pair(c), i, k)
  {
    hide Pivot, Cx.Norm2, Residual;
    PairPivots(c);
    assert Settled(Pair(c), 2, 0);
    assert Reached(Pair(c), 2, 1);
  }

  // Three ports in a chain: the first pair correlated at c, the second at q * g
  // where g = 1 - c^2, the outer ones not at all.

  ghost function Chain(c: real, q: real, g: real): (nat, nat) -> Cx
  {
    (i: nat, j: nat) =>
      if i == j then ONE
      else if i + j == 1 then Cx(c, 0.0)
      else if i + j == 3 then Cx(q * g, 0.0)
      else ZERO
  }

  ghost function ChainLower(c: real, q: real): (nat, nat) -> Cx
  {
    (i: nat, j: nat) => Cx(if i == j then 1.0 else if i == 1 && j == 0 then c else if i == 2 && j == 1 then q else 0.0, 0.0)
  }

  ghost function ChainPivots(q: real, g: real): nat -> real
  {
    (m: nat) => if m == 0 then 1.0 else if m == 1 then g else 1.0 - q * (q * g)
  }

  lemma {:induction false} RealTerm(a: real, b: real, w: real)
    ensures Cx(a, 0.0).Mul(Cx(b, 0.0).Conj()).Scale(w) == Cx(a * (b * w), 0.0)
  {
    assert w * (a * b) == a * (b * w);
  }

  lemma {:induction false} SumOfThree(f: nat -> Cx)
    ensures Sum(3, f) == f(0).Add(f(1)).Add(f(2))
  {
    assert Sum(1, f) == f(0);
    assert Sum(2, f) == f(0).Add(f(1));
  }

  /** l(i, m) * l(k, m) * w(m), which is 0 unless m <= i, k and both are next to m. */
  lemma {:induction false} ChainTerm(c: real, q: real, g: real, i: nat, k: nat, m: nat)
    requires i < 3 && k < 3 && m < 3
    ensures Terms(ChainLower(c, q), ChainPivots(q, g), i, k)(m) == Cx(
              if i < m || k < m || i > m + 1 || k > m + 1 then 0.0
              else if i == m && k == m then ChainPivots(q, g)(m)
              else if m == 0 then (if i == 1 && k == 1 then c * c else c)
              else if i == 2 && k == 2 then q * (q * g) else q * g, 0.0)
  {
    hide Cx.Mul, Cx.Scale;
    var l, w := ChainLower(c, q), ChainPivots(q, g);
    RealTerm(l(i, m).re, l(k, m).re, w(m));
    if l(i, m).re == 0.0 || l(k, m).re == 0.0 {
      assert l(i, m).re * (l(k, m).re * w(m)) == 0.0;
    } else if l(i, m).re == 1.0 {
      assert l(i, m).re * (l(k, m).re * w(m)) == l(k, m).re * w(m);
    }
  }

  lemma {:induction false} ChainFactors(c: real, q: real, g: real, i: nat, k: nat)
    requires i < 3 && k < 3 && c * c + g == 1.0
    ensures Chain(c, q, g)(i, k) == Weighted(ChainLower(c, q), ChainPivots(q, g), 3, i, k)
  {
    hide Terms, ChainLower, Sum;
    var f := Terms(ChainLower(c, q), ChainPivots(q, g), i, k);
    SumOfThree(f);
    ChainTerm(c, q, g, i, k, 0);
    ChainTerm(c, q, g, i, k, 1);
    ChainTerm(c, q, g, i, k, 2);
  }

  ghost predicate PositiveDefinite(e: (nat, nat) -> Cx, n: nat)
  {
    forall x: nat -> Cx :: (exists i: nat :: i < n && x(i) != ZERO) ==> Energy(e, n, x).re > 0.0
  }

  lemma {:induction false} LastTerm(a: Cx, b: Cx)
    ensures (a == ZERO || b == ZERO ==> a.Mul(b) == ZERO) && (a == ONE ==> a.Mul(b) == b)
  {
    hide Cx.Mul;
    Units(a, 0.0);
    Units(b, 0.0);
  }

  /** The last nonzero component passes through a unit lower factor. */
  lemma {:induction false} LastNonzeroPulled(l: (nat, nat) -> Cx, n: nat, x: nat -> Cx, i: nat)
    requires i < n && l(i, i) == ONE && forall k: nat :: k < i ==> l(k, i) == ZERO
    requires forall k: nat :: i < k < n ==> x(k) == ZERO
    ensures Pulled(l, n, x, i) == x(i)
  {
    hide Cx.Mul, Cx.Conj;
    var f := (k: nat) => l(k, i).Conj().Mul(x(k));
    forall k: nat | k < n
      ensures f(k) == if k == i then x(i) else ZERO
    {
      LastTerm(l(k, i).Conj(), x(k));
      Units(ZERO, 0.0);
    }
    SumSingle(i, n, f);
  }

  lemma {:induction false} LastNonzero(x: nat -> Cx, n: nat, i: nat) returns (k: nat)
    requires i < n && x(i) != ZERO
    ensures k < n && x(k) != ZERO && forall m: nat :: k < m < n ==> x(m) == ZERO
    decreases n - i
  {
    if m: nat :| i < m < n && x(m) != ZERO {
      k := LastNonzero(x, n, m);
    } else {
      k := i;
    }
  }

  lemma {:induction false} ModesPositive(l: (nat, nat) -> Cx, w: nat -> real, n: nat, x: nat -> Cx, m: nat, c: nat)
    requires m < c && Pulled(l, n, x, m) != ZERO && forall k: nat :: k < c ==> w(k) > 0.0
    ensures Sum(c, Mode(l, w, n, x)).re > 0.0
  {
    hide Mode, Pulled, Cx.Norm2;
    assert Sum(c, Mode(l, w, n, x)).re == Sum(c - 1, Mode(l, w, n, x)).re + Mode(l, w, n, x)(c - 1).re;
    ModeSign(l, w, n, x, c - 1);
    if m == c - 1 {
      ModesNonnegative(l, w, n, x, m);
    } else {
      ModesPositive(l, w, n, x, m, c - 1);
    }
  }

  lemma {:induction false} ModeSign(l: (nat, nat) -> Cx, w: nat -> real, n: nat, x: nat -> Cx, m: nat)
    requires w(m) > 0.0
    ensures Mode(l, w, n, x)(m).re >= 0.0 && (Pulled(l, n, x, m) != ZERO ==> Mode(l, w, n, x)(m).re > 0.0)
  {
    hide Pulled, Cx.Norm2;
    var y := Pulled(l, n, x, m);
    NonnegativeProduct(w(m), y);
    if y != ZERO {
      NonzeroNorm(y);
      PositiveProduct(w(m), y.Norm2(), w(m) * y.Norm2());
    }
  }

  lemma {:induction false} ChainDefinite(c: real, q: real, g: real)
    requires c * c + g == 1.0 && g > 0.0 && q * (q * g) <= 1.0
    ensures PositiveSemidefinite(Chain(c, q, g), 3) && (q * (q * g) < 1.0 ==> PositiveDefinite(Chain(c, q, g), 3))
  {
    hide Energy, Mode, Weighted, Pulled;
    var e, l, w := Chain(c, q, g), ChainLower(c, q), ChainPivots(q, g);
    forall i: nat, k: nat | i < 3 && k < 3
      ensures e(i, k) == Weighted(l, w, 3, i, k)
    {
      ChainFactors(c, q, g, i, k);
    }
    forall x: nat -> Cx
      ensures Energy(e, 3, x).re >= 0.0
      ensures q * (q * g) < 1.0 && (exists i: nat :: i < 3 && x(i) != ZERO) ==> Energy(e, 3, x).re > 0.0
    {
      EnergyByModes(e, l, w, 3, x);
      ModesNonnegative(l, w, 3, x, 3);
      if i: nat :| i < 3 && x(i) != ZERO {
        var k := LastNonzero(x, 3, i);
        LastNonzeroPulled(l, 3, x, k);
        if q * (q * g) < 1.0 {
          ModesPositive(l, w, 3, x, k, 3);
        }
      }
    }
  }

  /** A family of covariances with unit diagonal, definite but for one member,
      that the zero-pivot branch refuses. */
  lemma {:induction false} DefiniteYetRefused(c: real, q: real, g: real)
    requires c * c + g == 1.0 && 0.0 < g <= PIVOT_EPSILON && q * g > TOLERANCE && q * (q * g) <= 1.0
    ensures Hermitian(Chain(c, q, g), 3) && PositiveSemidefinite(Chain(c, q, g), 3)
    ensures q * (q * g) < 1.0 ==> PositiveDefinite(Chain(c, q, g), 3)
    ensures RefusedAt(Chain(c, q, g), 3, ZeroPivot(1))
  {
    hide PositiveDefinite, PositiveSemidefinite, RefusedAt;
    ChainDefinite(c, q, g);
    ChainRefused(c, q, g);
  }

  lemma {:induction false} ChainEntries(c: real, q: real, g: real)
    ensures var e := Chain(c, q, g);
            e(0, 0) == e(1, 1) == ONE && e(1, 0) == Cx(c, 0.0) && e(2, 0) == ZERO && e(2, 1) == Cx(q * g, 0.0)
  {
  }

  lemma {:induction false} ChainRefused(c: real, q: real, g: real)
    requires c * c + g == 1.0 && 0.0 < g <= PIVOT_EPSILON && q * g > TOLERANCE
    ensures RefusedAt(Chain(c, q, g), 3, ZeroPivot(1))
  {
    hide RefusedAt, Lower, Acc, Cx.Mul, Chain, Pivot, Residual;
    var e := Chain(c, q, g);
    ChainEntries(c, q, g);
    AccOne(e, 1, 1);
    AccOne(e, 2, 1);
    FirstColumn(e, 1);
    ChainPivot(e, c, g);
    RefusedAtOne(e, q * g);
  }

  lemma {:induction false} ChainPivot(e: (nat, nat) -> Cx, c: real, g: real)
    requires e(1, 1) == ONE && e(1, 0) == Cx(c, 0.0) && e(2, 0) == ZERO && c * c + g == 1.0
    requires Acc(e, 1, 1, 1) == e(1, 0).Mul(e(1, 0).Conj()) && Acc(e, 2, 1, 1) == e(2, 0).Mul(e(1, 0).Conj())
    ensures Pivot(e, 1) == g && Residual(e, 2, 1) == e(2, 1)
  {
    hide Acc, Lower, Cx.Mul;
    RealTerm(c, c, 1.0);
    Units(Cx(c, 0.0).Mul(Cx(c, 0.0).Conj()), 1.0);
    Units(Cx(c, 0.0).Conj(), 1.0);
  }

  lemma {:induction false} RefusedAtOne(e: (nat, nat) -> Cx, b: real)
    requires Pivot(e, 0) == 1.0 && 0.0 < Pivot(e, 1) <= PIVOT_EPSILON
    requires Residual(e, 2, 1) == Cx(b, 0.0) && b > TOLERANCE
    ensures RefusedAt(e, 3, ZeroPivot(1))
  {
    hide Pivot, Residual;
    assert b * b > TOLERANCE * TOLERANCE;
  }

  /** The family is not empty: correlations of 1 - 5e-14 and about 1e-8. */
  lemma {:induction false} DefiniteYetRefusedExists()
    ensures exists c: real, q: real, g: real ::
              c * c + g == 1.0 &&
              PositiveDefinite(Chain(c, q, g), 3) && RefusedAt(Chain(c, q, g), 3, ZeroPivot(1))
  {
    hide PositiveDefinite, RefusedAt;
    var c, q, g := 0.99999999999995, 100000.0, 0.0000000000000999999999999975;
    DefiniteYetRefused(c, q, g);
  }
}
