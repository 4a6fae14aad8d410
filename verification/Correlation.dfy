/** The LDL^H factorisation of src/correlation.cpp in exact arithmetic.  The
    square root is a parameter with the two laws of a nonnegative root. */
module Correlation {
  import opened Complex
  import opened Matrix
  import opened Sums

  const PIVOT_EPSILON := 0.000000000001

  /** A pivot up to this is taken for zero; exact elimination has none. */
  type Tolerance = eps: real | eps >= 0.0
  const TOLERANCE := 0.000000001

  ghost predicate IsRoot(root: real -> real)
  {
    forall x: real :: x >= 0.0 ==> root(x) >= 0.0 && root(x) * root(x) == x
  }

  function Positive(x: real): real { if x < 0.0 then 0.0 else x }

  /** z divided by a real. */
  ghost function Quotient(z: Cx, p: real): (q: Cx)
    requires p != 0.0
    ensures q.Scale(p) == z
  {
    Divides(z, p);
    var q: Cx :| q.Scale(p) == z;
    q
  }

  lemma {:induction false} Divides(z: Cx, p: real)
    requires p != 0.0
    ensures z.Scale(1.0 / p).Scale(p) == z
  {
    var r := 1.0 / p;
    assert r * p == 1.0;
    ScaleScale(z, r, p, 1.0);
    Units(z, 0.0);
  }

  method Divide(z: Cx, p: real) returns (q: Cx)
    requires p != 0.0
    ensures q == Quotient(z, p)
  {
    q := z.Scale(1.0 / p);
    Divides(z, p);
    SameQuotient(q, Quotient(z, p), p);
  }

  lemma {:induction false} SameQuotient(a: Cx, b: Cx, p: real)
    requires p != 0.0 && a.Scale(p) == b.Scale(p)
    ensures a == b
  {
    assert p * (a.re - b.re) == 0.0 && p * (a.im - b.im) == 0.0;
  }

  // ------------------------------------------------------------------------
  // The factors, entry by entry
  // ------------------------------------------------------------------------

  /** The partial sum over the first k columns in row i, column j. */
  ghost function Acc(e: (nat, nat) -> Cx, i: nat, j: nat, k: nat, eps: Tolerance := PIVOT_EPSILON): Cx
    decreases k, 0
  {
    if k == 0 then ZERO
    else Acc(e, i, j, k - 1, eps).Add(Lower(e, i, k - 1, eps).Mul(Lower(e, j, k - 1, eps).Conj()).Scale(Pivot(e, k - 1, eps)))
  }

  ghost function Pivot(e: (nat, nat) -> Cx, j: nat, eps: Tolerance := PIVOT_EPSILON): real
    decreases j, 1
  {
    e(j, j).re - Acc(e, j, j, j, eps).re
  }

  ghost function Lower(e: (nat, nat) -> Cx, i: nat, j: nat, eps: Tolerance := PIVOT_EPSILON): Cx
    decreases j, 2
  {
    if i < j then ZERO
    else if i == j then ONE
    else if Pivot(e, j, eps) <= eps then ZERO
    else Quotient(Residual(e, i, j, eps), Pivot(e, j, eps))
  }

  ghost function Residual(e: (nat, nat) -> Cx, i: nat, j: nat, eps: Tolerance := PIVOT_EPSILON): Cx
    decreases j, 1
  {
    e(i, j).Sub(Acc(e, i, j, j, eps))
  }

  ghost function Factor(e: (nat, nat) -> Cx, root: real -> real): (nat, nat) -> Cx
  {
    (i: nat, j: nat) => Lower(e, i, j).Scale(root(Positive(Pivot(e, j))))
  }

  /** Column j lets the factorisation continue. */
  ghost predicate ColumnPasses(e: (nat, nat) -> Cx, n: nat, j: nat)
  {
    Pivot(e, j) >= -PIVOT_EPSILON &&
    (Pivot(e, j) <= PIVOT_EPSILON ==>
       forall i: nat :: j < i < n ==> Residual(e, i, j).Norm2() <= TOLERANCE * TOLERANCE)
  }

  ghost predicate Passes(e: (nat, nat) -> Cx, n: nat, columns: nat)
  {
    forall j: nat :: j < columns ==> ColumnPasses(e, n, j)
  }

  ghost predicate Accepted(e: (nat, nat) -> Cx, n: nat) { Passes(e, n, n) }

  // ------------------------------------------------------------------------
  // The method
  // ------------------------------------------------------------------------

  datatype Refusal = WrongSize | NegativePivot(value: real, index: nat) | ZeroPivot(at: nat)

  datatype Outcome = Mixing(entries: seq<Cx>) | Refused(why: Refusal)

  /** The refusal names the first column that stops the factorisation. */
  ghost predicate RefusedAt(e: (nat, nat) -> Cx, n: nat, why: Refusal)
  {
    match why
    case WrongSize => false
    case NegativePivot(value, j) =>
      j < n && Passes(e, n, j) && value == Pivot(e, j) && value < -PIVOT_EPSILON
    case ZeroPivot(j) =>
      j < n && Passes(e, n, j) && -PIVOT_EPSILON <= Pivot(e, j) <= PIVOT_EPSILON &&
      exists i: nat :: j < i < n && Residual(e, i, j).Norm2() > TOLERANCE * TOLERANCE
  }

  /** Columns before j of the working arrays hold the two factors. */
  ghost predicate Filled(e: (nat, nat) -> Cx, n: nat, lower: seq<Cx>, d: seq<real>, j: nat)
  {
    |lower| == n * n && |d| == n && j <= n &&
    (forall k: nat :: k < j ==> d[k] == Pivot(e, k)) &&
    (forall i: nat, k: nat :: i < n && k < j ==> At(lower, n, i, k) == Lower(e, i, k)) &&
    (forall i: nat, k: nat :: i < n && j <= k < n ==> At(lower, n, i, k) == ZERO)
  }

  /** The inner loops over k (src/correlation.cpp:45-48 and 57-60). */
  method Accumulate(n: nat, ghost e: (nat, nat) -> Cx, lower: seq<Cx>, d: seq<real>, i: nat, j: nat) returns (acc: Cx)
    requires j <= i < n && |lower| == n * n && |d| == n
    requires forall k: nat :: k < j ==> d[k] == Pivot(e, k)
    requires forall k: nat :: k < j ==> At(lower, n, i, k) == Lower(e, i, k) && At(lower, n, j, k) == Lower(e, j, k)
    ensures acc == Acc(e, i, j, j)
  {
    acc := ZERO;
    for k := 0 to j
      invariant acc == Acc(e, i, j, k)
    {
      acc := acc.Add(At(lower, n, i, k).Mul(At(lower, n, j, k).Conj()).Scale(d[k]));
    }
  }

  /** The inner loop over i (src/correlation.cpp:55-74). */
  method FillColumn(hermitian: seq<Cx>, n: nat, before: seq<Cx>, d: seq<real>, j: nat)
    returns (ok: bool, lower: seq<Cx>)
    requires |hermitian| == n * n && j < n && Filled(Entries(hermitian, n), n, before, d, j)
    requires d[j] == Pivot(Entries(hermitian, n), j) && d[j] >= -PIVOT_EPSILON
    ensures ok ==> Filled(Entries(hermitian, n), n, lower, d, j + 1)
    ensures ok <==> ColumnPasses(Entries(hermitian, n), n, j)
    ensures !ok ==> d[j] <= PIVOT_EPSILON &&
                    exists i: nat :: j < i < n && Residual(Entries(hermitian, n), i, j).Norm2() > TOLERANCE * TOLERANCE
  {
    ghost var e := Entries(hermitian, n);
    PutAt(before, n, j, j, ONE);
    lower := Put(before, n, j, j, ONE);
    for i := j + 1 to n
      invariant |lower| == n * n
      invariant forall a: nat, k: nat :: a < n && k < n && k != j ==> At(lower, n, a, k) == At(before, n, a, k)
      invariant forall a: nat :: a < n ==> At(lower, n, a, j) == if a < i then Lower(e, a, j) else ZERO
      invariant d[j] <= PIVOT_EPSILON ==>
                  forall a: nat :: j < a < i ==> Residual(e, a, j).Norm2() <= TOLERANCE * TOLERANCE
    {
      var acc := Accumulate(n, e, lower, d, i, j);
      var rest := At(hermitian, n, i, j).Sub(acc);
      assert rest == Residual(e, i, j);
      var value := ZERO;
      if d[j] <= PIVOT_EPSILON {
        if rest.Norm2() > TOLERANCE * TOLERANCE {
          return false, lower;
        }
      } else {
        value := Divide(rest, d[j]);
      }
      assert value == Lower(e, i, j);
      PutAt(lower, n, i, j, value);
      lower := Put(lower, n, i, j, value);
    }
    ok := true;
  }

  method MixingMatrix(hermitian: seq<Cx>, dim: int, root: real -> real) returns (r: Outcome)
    ensures r == Refused(WrongSize) <==> dim <= 0 || |hermitian| != dim * dim
    ensures dim > 0 && |hermitian| == dim * dim ==>
              var e := Entries(hermitian, dim);
              match r
              case Mixing(m) =>
                Accepted(e, dim) && |m| == dim * dim &&
                forall i: nat, j: nat :: i < dim && j < dim ==> At(m, dim, i, j) == Factor(e, root)(i, j)
              case Refused(why) => RefusedAt(e, dim, why)
  {
    if dim <= 0 || |hermitian| != dim * dim {
      return Refused(WrongSize);
    }
    var n: nat := dim;
    ghost var e := Entries(hermitian, n);
    var lower := Blank(n);
    var d := seq(n, (_: nat) => 0.0);
    for j := 0 to n
      invariant Filled(e, n, lower, d, j) && Passes(e, n, j)
    {
      var sum := Accumulate(n, e, lower, d, j, j);
      d := d[j := At(hermitian, n, j, j).re - sum.re];
      if d[j] < -PIVOT_EPSILON {
        return Refused(NegativePivot(d[j], j));
      }
      var ok;
      ok, lower := FillColumn(hermitian, n, lower, d, j);
      if !ok {
        return Refused(ZeroPivot(j));
      }
    }
    var mixing := ScaleColumns(n, e, lower, d, root);
    r := Mixing(mixing);
  }

  /** M = L sqrt(D), written at and below the diagonal only. */
  method ScaleColumns(n: nat, ghost e: (nat, nat) -> Cx, lower: seq<Cx>, d: seq<real>, root: real -> real)
    returns (out: seq<Cx>)
    requires Filled(e, n, lower, d, n)
    ensures |out| == n * n
    ensures forall i: nat, j: nat :: i < n && j < n ==> At(out, n, i, j) == Factor(e, root)(i, j)
  {
    out := Blank(n);
    for j := 0 to n
      invariant |out| == n * n
      invariant forall a: nat, k: nat :: a < n && k < n ==>
                  At(out, n, a, k) == if k < j then Factor(e, root)(a, k) else ZERO
    {
      var scale := root(Positive(d[j]));
      for i := j to n
        invariant |out| == n * n
        invariant forall a: nat, k: nat :: a < n && k < n ==>
                    At(out, n, a, k) == if k < j || (k == j && a < i) then Factor(e, root)(a, k) else ZERO
      {
        PutAt(out, n, i, j, At(lower, n, i, j).Scale(scale));
        out := Put(out, n, i, j, At(lower, n, i, j).Scale(scale));
      }
    }
  }
}
