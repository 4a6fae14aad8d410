/** The lane mixing matrix of a link: two declared side correlations, factorised
    separately and Kronecker-multiplied (src/correlation.cpp). */
module LaneMixing {
  import opened Complex
  import opened Matrix
  import opened Modular
  import opened Sums
  import opened Correlation
  import opened Covariance
  import opened Nearness

  // ------------------------------------------------------------------------
  // dense_correlation
  // ------------------------------------------------------------------------

  datatype Entry = Entry(i: int, j: int, value: Cx)

  /** Entry (i, j) of the dense matrix: the last declaration that addresses it,
      directly or mirrored, else the identity. */
  function Dense(entries: seq<Entry>, i: nat, j: nat): Cx
  {
    if entries == [] then (if i == j then ONE else ZERO)
    else
      var last := entries[|entries| - 1];
      if last.j == i && last.i == j then last.value.Conj()
      else if last.i == i && last.j == j then last.value
      else Dense(entries[..|entries| - 1], i, j)
  }

  /** The whole matrix, row after row. */
  function DenseTable(entries: seq<Entry>, dim: nat): (out: seq<Cx>)
    ensures |out| == dim * dim
  {
    seq(dim * dim, (c: nat) requires c < dim * dim && dim > 0 => Dense(entries, Quot(c, dim), Wrap(c, dim)))
  }

  lemma {:induction false} DenseTableAt(entries: seq<Entry>, dim: nat, i: nat, j: nat)
    requires i < dim && j < dim
    ensures At(DenseTable(entries, dim), dim, i, j) == Dense(entries, i, j)
  {
    CellBound(dim, dim, i, j);
    QuotWrap(Cell(dim, i, j), dim);
    CellInjective(dim, i, j, Quot(Cell(dim, i, j), dim), Wrap(Cell(dim, i, j), dim));
  }

  /** A table is determined by its entries. */
  lemma {:induction false} SameTable(a: seq<Cx>, b: seq<Cx>, n: nat)
    requires |a| == n * n == |b|
    requires forall i: nat, j: nat :: i < n && j < n ==> At(a, n, i, j) == At(b, n, i, j)
    ensures a == b
  {
    forall c: nat | c < n * n
      ensures a[c] == b[c]
    {
      var i, j := CellOnto(n, n, c);
      assert At(a, n, i, j) == At(b, n, i, j);
    }
  }

  method DenseCorrelation(entries: seq<Entry>, dim: nat) returns (out: seq<Cx>)
    ensures out == DenseTable(entries, dim)
  {
    out := Blank(dim);
    for d := 0 to dim
      invariant |out| == dim * dim
      invariant forall i: nat, j: nat :: i < dim && j < dim ==>
                  At(out, dim, i, j) == if i == j && i < d then ONE else ZERO
    {
      PutAt(out, dim, d, d, ONE);
      out := Put(out, dim, d, d, ONE);
    }
    for k := 0 to |entries|
      invariant |out| == dim * dim
      invariant forall i: nat, j: nat :: i < dim && j < dim ==> At(out, dim, i, j) == Dense(entries[..k], i, j)
    {
      var e := entries[k];
      assert entries[..k + 1][..k] == entries[..k];
      if e.i < 0 || e.j < 0 || e.i >= dim || e.j >= dim {
        continue;
      }
      PutAt(out, dim, e.i, e.j, e.value);
      out := Put(out, dim, e.i, e.j, e.value);
      PutAt(out, dim, e.j, e.i, e.value.Conj());
      out := Put(out, dim, e.j, e.i, e.value.Conj());
    }
    assert entries[..|entries|] == entries;
    forall i: nat, j: nat | i < dim && j < dim
      ensures At(out, dim, i, j) == At(DenseTable(entries, dim), dim, i, j)
    {
      DenseTableAt(entries, dim, i, j);
    }
    SameTable(out, DenseTable(entries, dim), dim);
  }

  /** What the validator lets through: upper-triangle entries, each pair once. */
  ghost predicate Declared(entries: seq<Entry>)
  {
    (forall k: nat :: k < |entries| ==> 0 <= entries[k].i < entries[k].j) &&
    (forall k: nat, l: nat :: k < l < |entries| ==> entries[k].i != entries[l].i || entries[k].j != entries[l].j)
  }

  /** A declared side is Hermitian with unit diagonal. */
  lemma {:induction false} DenseIsHermitian(entries: seq<Entry>, i: nat, j: nat)
    requires Declared(entries)
    ensures Dense(entries, j, i) == Dense(entries, i, j).Conj() && Dense(entries, i, i) == ONE
  {
    if entries != [] {
      DenseIsHermitian(entries[..|entries| - 1], i, j);
    }
  }

  /** Every entry is used as written, and an undeclared pair is uncorrelated. */
  lemma {:induction false} DenseAsDeclared(entries: seq<Entry>, i: nat, j: nat)
    requires Declared(entries) && i < j
    ensures forall k: nat :: k < |entries| && entries[k].i == i && entries[k].j == j ==> Dense(entries, i, j) == entries[k].value
    ensures (forall k: nat :: k < |entries| ==> entries[k].i != i || entries[k].j != j) ==> Dense(entries, i, j) == ZERO
  {
    if entries != [] {
      var n := |entries| - 1;
      DenseAsDeclared(entries[..n], i, j);
      assert forall k: nat :: k < n ==> entries[..n][k] == entries[k];
    }
  }

  // ------------------------------------------------------------------------
  // kron
  // ------------------------------------------------------------------------

  /** Entry ((i, k), (j, l)) of the product of size na * nb. */
  function PairAt(m: seq<Cx>, na: nat, nb: nat, i: nat, k: nat, j: nat, l: nat): Cx
    requires |m| == (na * nb) * (na * nb) && i < na && j < na && k < nb && l < nb
  {
    CellBound(na, nb, i, k);
    CellBound(na, nb, j, l);
    At(m, na * nb, Cell(nb, i, k), Cell(nb, j, l))
  }

  function PairPut(m: seq<Cx>, na: nat, nb: nat, i: nat, k: nat, j: nat, l: nat, value: Cx): (r: seq<Cx>)
    requires |m| == (na * nb) * (na * nb) && i < na && j < na && k < nb && l < nb
    ensures |r| == |m|
  {
    CellBound(na, nb, i, k);
    CellBound(na, nb, j, l);
    Put(m, na * nb, Cell(nb, i, k), Cell(nb, j, l), value)
  }

  lemma {:induction false} PairPutAt(m: seq<Cx>, na: nat, nb: nat, i: nat, k: nat, j: nat, l: nat, value: Cx)
    requires |m| == (na * nb) * (na * nb) && i < na && j < na && k < nb && l < nb
    ensures forall a: nat, c: nat, b: nat, d: nat :: a < na && b < na && c < nb && d < nb ==>
              PairAt(PairPut(m, na, nb, i, k, j, l, value), na, nb, a, c, b, d) ==
              if a == i && c == k && b == j && d == l then value else PairAt(m, na, nb, a, c, b, d)
  {
    hide At, Put;
    CellBound(na, nb, i, k);
    CellBound(na, nb, j, l);
    PutAt(m, na * nb, Cell(nb, i, k), Cell(nb, j, l), value);
    forall a: nat, c: nat, b: nat, d: nat | a < na && b < na && c < nb && d < nb
      ensures PairAt(PairPut(m, na, nb, i, k, j, l, value), na, nb, a, c, b, d) ==
              if a == i && c == k && b == j && d == l then value else PairAt(m, na, nb, a, c, b, d)
    {
      CellBound(na, nb, a, c);
      CellBound(na, nb, b, d);
      if Cell(nb, a, c) == Cell(nb, i, k) {
        CellInjective(nb, a, c, i, k);
      }
      if Cell(nb, b, d) == Cell(nb, j, l) {
        CellInjective(nb, b, d, j, l);
      }
    }
  }

  lemma {:induction false} BlankPairs(na: nat, nb: nat)
    ensures forall a: nat, c: nat, b: nat, d: nat :: a < na && b < na && c < nb && d < nb ==>
              PairAt(Blank(na * nb), na, nb, a, c, b, d) == ZERO
  {
    forall a: nat, c: nat, b: nat, d: nat | a < na && b < na && c < nb && d < nb
      ensures PairAt(Blank(na * nb), na, nb, a, c, b, d) == ZERO
    {
      CellBound(na, nb, a, c);
      CellBound(na, nb, b, d);
    }
  }

  /** The two inner loops: one block of the product. */
  method FillBlock(before: seq<Cx>, av: Cx, na: nat, b: seq<Cx>, nb: nat, i: nat, j: nat) returns (out: seq<Cx>)
    requires |before| == (na * nb) * (na * nb) && |b| == nb * nb && i < na && j < na
    ensures |out| == |before|
    ensures forall r: nat, k: nat, c: nat, l: nat :: r < na && c < na && k < nb && l < nb ==>
              PairAt(out, na, nb, r, k, c, l) ==
              if r == i && c == j then av.Mul(At(b, nb, k, l)) else PairAt(before, na, nb, r, k, c, l)
  {
    hide At, PairAt, PairPut, Cx.Mul;
    out := before;
    for k := 0 to nb
      invariant |out| == |before|
      invariant forall r: nat, p: nat, c: nat, q: nat :: r < na && c < na && p < nb && q < nb ==>
                  PairAt(out, na, nb, r, p, c, q) ==
                  if r == i && c == j && p < k then av.Mul(At(b, nb, p, q)) else PairAt(before, na, nb, r, p, c, q)
    {
      for l := 0 to nb
        invariant |out| == |before|
        invariant forall r: nat, p: nat, c: nat, q: nat :: r < na && c < na && p < nb && q < nb ==>
                    PairAt(out, na, nb, r, p, c, q) ==
                    if r == i && c == j && (p < k || (p == k && q < l)) then av.Mul(At(b, nb, p, q))
                    else PairAt(before, na, nb, r, p, c, q)
      {
        PairPutAt(out, na, nb, i, k, j, l, av.Mul(At(b, nb, k, l)));
        out := PairPut(out, na, nb, i, k, j, l, av.Mul(At(b, nb, k, l)));
      }
    }
  }

  /** The Kronecker product, left operand on the outer index, skipping its zeros. */
  method Kron(a: seq<Cx>, na: nat, b: seq<Cx>, nb: nat) returns (out: seq<Cx>)
    requires |a| == na * na && |b| == nb * nb
    ensures |out| == (na * nb) * (na * nb)
    ensures forall i: nat, k: nat, j: nat, l: nat :: i < na && j < na && k < nb && l < nb ==>
              PairAt(out, na, nb, i, k, j, l) == At(a, na, i, j).Mul(At(b, nb, k, l))
  {
    hide At, PairAt, PairPut, Cx.Mul, Blank;
    out := Blank(na * nb);
    BlankPairs(na, nb);
    for i := 0 to na
      invariant |out| == (na * nb) * (na * nb)
      invariant forall r: nat, k: nat, c: nat, l: nat :: r < na && c < na && k < nb && l < nb ==>
                  PairAt(out, na, nb, r, k, c, l) ==
                  if r < i then At(a, na, r, c).Mul(At(b, nb, k, l)) else ZERO
    {
      for j := 0 to na
        invariant |out| == (na * nb) * (na * nb)
        invariant forall r: nat, k: nat, c: nat, l: nat :: r < na && c < na && k < nb && l < nb ==>
                    PairAt(out, na, nb, r, k, c, l) ==
                    if r < i || (r == i && c < j) then At(a, na, r, c).Mul(At(b, nb, k, l)) else ZERO
      {
        var av := At(a, na, i, j);
        if av == ZERO {
          forall k: nat, l: nat | k < nb && l < nb
            ensures At(a, na, i, j).Mul(At(b, nb, k, l)) == ZERO
          {
            Units(At(b, nb, k, l), 0.0);
          }
          continue;
        }
        out := FillBlock(out, av, na, b, nb, i, j);
      }
    }
  }

  // ------------------------------------------------------------------------
  // lane_mixing_matrix
  // ------------------------------------------------------------------------

  datatype Kind = Iid | Kronecker

  datatype LaneOutcome = Lanes(entries: seq<Cx>) | BadDimensions | RxRefused(why: Refusal) | TxRefused(why: Refusal)

  /** One side's declared matrix. */
  ghost function Side(entries: seq<Entry>, n: nat): (nat, nat) -> Cx
  {
    Entries(DenseTable(entries, n), n)
  }

  lemma {:induction false} SideIsDense(entries: seq<Entry>, n: nat, i: nat, j: nat)
    requires i < n && j < n
    ensures Side(entries, n)(i, j) == Dense(entries, i, j)
  {
    DenseTableAt(entries, n, i, j);
  }

  lemma {:induction false} SideIsHermitian(entries: seq<Entry>, n: nat)
    requires Declared(entries)
    ensures Hermitian(Side(entries, n), n)
  {
    forall i: nat, j: nat | i < n && j < n
      ensures Side(entries, n)(i, j) == Side(entries, n)(j, i).Conj()
    {
      SideIsDense(entries, n, i, j);
      SideIsDense(entries, n, j, i);
      DenseIsHermitian(entries, j, i);
    }
  }

  /** m is the product of the functions f and g. */
  ghost predicate IsProduct(m: seq<Cx>, f: (nat, nat) -> Cx, na: nat, g: (nat, nat) -> Cx, nb: nat)
  {
    |m| == (na * nb) * (na * nb) &&
    forall i: nat, k: nat, j: nat, l: nat :: i < na && j < na && k < nb && l < nb ==>
      PairAt(m, na, nb, i, k, j, l) == f(i, j).Mul(g(k, l))
  }

  ghost predicate IsIdentity(m: seq<Cx>, n: nat)
  {
    |m| == n * n &&
    forall i: nat, j: nat :: i < n && j < n ==> At(m, n, i, j) == if i == j then ONE else ZERO
  }

  method LaneMixingMatrix(kind: Kind, rx: seq<Entry>, tx: seq<Entry>, nt: int, nr: int, root: real -> real)
    returns (r: LaneOutcome)
    ensures r == BadDimensions <==> nt <= 0 || nr <= 0
    ensures r != BadDimensions && kind.Iid? ==> r.Lanes? && IsIdentity(r.entries, nr * nt)
    ensures r != BadDimensions && kind.Kronecker? ==>
              match r
              case Lanes(m) =>
                Accepted(Side(rx, nr), nr) && Accepted(Side(tx, nt), nt) &&
                IsProduct(m, Factor(Side(rx, nr), root), nr, Factor(Side(tx, nt), root), nt)
              case RxRefused(why) => RefusedAt(Side(rx, nr), nr, why)
              case TxRefused(why) => Accepted(Side(rx, nr), nr) && RefusedAt(Side(tx, nt), nt, why)
  {
    if nt <= 0 || nr <= 0 {
      return BadDimensions;
    }
    if kind.Iid? {
      var out := Diagonal(nr * nt);
      return Lanes(out);
    }
    var denseRx := DenseCorrelation(rx, nr);
    var mixRx := MixingMatrix(denseRx, nr, root);
    if mixRx.Refused? {
      return RxRefused(mixRx.why);
    }
    var denseTx := DenseCorrelation(tx, nt);
    var mixTx := MixingMatrix(denseTx, nt, root);
    if mixTx.Refused? {
      return TxRefused(mixTx.why);
    }
    var product := Kron(mixRx.entries, nr, mixTx.entries, nt);
    r := Lanes(product);
  }

  method Diagonal(n: nat) returns (out: seq<Cx>)
    ensures IsIdentity(out, n)
  {
    out := Blank(n);
    for l := 0 to n
      invariant |out| == n * n
      invariant forall i: nat, j: nat :: i < n && j < n ==> At(out, n, i, j) == if i == j && i < l then ONE else ZERO
    {
      PutAt(out, n, l, l, ONE);
      out := Put(out, n, l, l, ONE);
    }
  }

  // ------------------------------------------------------------------------
  // The covariance of the lanes
  // ------------------------------------------------------------------------

  /** (f (x) g) (f (x) g)^H at lanes (r, t) and (r2, t2) is the rx product times
      the tx product, with lanes numbered r * nt + t. */
  lemma {:induction false} ProductGram(m: seq<Cx>, f: (nat, nat) -> Cx, nr: nat, g: (nat, nat) -> Cx, nt: nat,
                    r: nat, t: nat, r2: nat, t2: nat)
    requires IsProduct(m, f, nr, g, nt) && r < nr && r2 < nr && t < nt && t2 < nt
    ensures Gram(Entries(m, nr * nt), nr * nt, Cell(nt, r, t), Cell(nt, r2, t2)) ==
            Gram(f, nr, r, r2).Mul(Gram(g, nt, t, t2))
  {
    hide Cx.Mul, Cell, At, Entries;
    var n, e := nr * nt, Entries(m, nr * nt);
    var all := (c: nat) => e(Cell(nt, r, t), c).Mul(e(Cell(nt, r2, t2), c).Conj());
    var p := (i: nat) => f(r, i).Mul(f(r2, i).Conj());
    var q := (j: nat) => g(t, j).Mul(g(t2, j).Conj());
    SumBlocks(nr, nt, n, all);
    var rows := (i: nat) => Sum(nt, Block(nt, all, i));
    forall i: nat | i < nr
      ensures rows(i) == Sum(nt, q).Mul(p(i))
    {
      forall j: nat | j < nt
        ensures Block(nt, all, i)(j) == p(i).Mul(q(j))
      {
        EntryOfProduct(m, f, nr, g, nt, r, t, i, j);
        EntryOfProduct(m, f, nr, g, nt, r2, t2, i, j);
        FourProduct(f(r, i), g(t, j), f(r2, i), g(t2, j));
      }
      SumMul(nt, p(i), q, Block(nt, all, i));
      MulLaws(p(i), Sum(nt, q), ZERO);
    }
    SumMul(nr, Sum(nt, q), p, rows);
    MulLaws(Sum(nt, q), Sum(nr, p), ZERO);
  }

  lemma {:induction false} EntryOfProduct(m: seq<Cx>, f: (nat, nat) -> Cx, nr: nat, g: (nat, nat) -> Cx, nt: nat,
                       r: nat, t: nat, i: nat, j: nat)
    requires IsProduct(m, f, nr, g, nt) && r < nr && i < nr && t < nt && j < nt
    ensures Entries(m, nr * nt)(Cell(nt, r, t), i * nt + j) == f(r, i).Mul(g(t, j))
  {
    hide Cx.Mul, At;
    CellBound(nr, nt, r, t);
    CellBound(nr, nt, i, j);
    assert PairAt(m, nr, nt, r, t, i, j) == f(r, i).Mul(g(t, j));
  }

  lemma {:induction false} FourProduct(a: Cx, b: Cx, c: Cx, d: Cx)
    ensures a.Mul(b).Mul(c.Mul(d).Conj()) == a.Mul(c.Conj()).Mul(b.Mul(d.Conj()))
  {
    hide Cx.Mul;
    ConjLaws(c, d);
    var c', d' := c.Conj(), d.Conj();
    MulLaws(a, b, c'.Mul(d'));
    MulLaws(b, c', d');
    MulLaws(c', b, d');
    MulLaws(a, c', b.Mul(d'));
    MulLaws(b, c', ZERO);
  }

  /** The validator's bound on an entry. */
  const MAX_MAGNITUDE := 1.0 + PIVOT_EPSILON

  ghost predicate Bounded(entries: seq<Entry>)
  {
    forall k: nat :: k < |entries| ==> Within(entries[k].value, MAX_MAGNITUDE)
  }

  lemma {:induction false} DenseBounded(entries: seq<Entry>, i: nat, j: nat)
    requires Bounded(entries)
    ensures Within(Dense(entries, i, j), MAX_MAGNITUDE)
  {
    if entries != [] {
      DenseBounded(entries[..|entries| - 1], i, j);
      assert Within(entries[|entries| - 1].value, MAX_MAGNITUDE);
    }
  }

  /** Nothing of a side's entry was rounded to zero. */
  ghost predicate SideKept(entries: seq<Entry>, n: nat, i: nat, k: nat)
  {
    if i <= k then KeptWhole(Side(entries, n), k, i) else KeptWhole(Side(entries, n), i, k)
  }

  /** A side's product against what was declared. */
  lemma {:induction false} SideReproduced(entries: seq<Entry>, n: nat, root: real -> real, i: nat, k: nat)
    requires IsRoot(root) && Declared(entries) && Accepted(Side(entries, n), n) && i < n && k < n
    ensures Near(Dense(entries, i, k), Gram(Factor(Side(entries, n), root), n, i, k), TOLERANCE)
    ensures SideKept(entries, n, i, k) ==> Gram(Factor(Side(entries, n), root), n, i, k) == Dense(entries, i, k)
  {
    hide Gram, Factor, Accepted, Dense, Side, KeptWhole, Cx.Norm2;
    SideIsHermitian(entries, n);
    SideIsDense(entries, n, i, k);
    FactorReproduces(Side(entries, n), root, n, i, k);
    WithinMore(Dense(entries, i, k).Sub(Gram(Factor(Side(entries, n), root), n, i, k)),
               if i == k then PIVOT_EPSILON else TOLERANCE, TOLERANCE);
  }

  lemma {:induction false} SidesMultiplied(a: Cx, b: Cx, a2: Cx, b2: Cx)
    requires Within(a, MAX_MAGNITUDE) && Within(b, MAX_MAGNITUDE) && Near(a, a2, TOLERANCE) && Near(b, b2, TOLERANCE)
    ensures Near(a.Mul(b), a2.Mul(b2), 3.0 * TOLERANCE)
  {
    hide Cx.Norm2;
    NearProduct(a, b, a2, b2, MAX_MAGNITUDE, TOLERANCE);
    WithinMore(a.Mul(b).Sub(a2.Mul(b2)),
               MAX_MAGNITUDE * TOLERANCE + TOLERANCE * MAX_MAGNITUDE + TOLERANCE * TOLERANCE, 3.0 * TOLERANCE);
  }

  /** The lane matrix of any link that is accepted has the declared covariance
      R_rx (x) R_tx, in lane order: exactly where neither side's entry was
      rounded, and else within three times the tolerance. */
  lemma {:induction false} LaneCovariance(rx: seq<Entry>, tx: seq<Entry>, nr: nat, nt: nat, root: real -> real, m: seq<Cx>,
                       r: nat, t: nat, r2: nat, t2: nat)
    requires IsRoot(root) && Declared(rx) && Declared(tx) && r < nr && r2 < nr && t < nt && t2 < nt
    requires Accepted(Side(rx, nr), nr) && Accepted(Side(tx, nt), nt)
    requires IsProduct(m, Factor(Side(rx, nr), root), nr, Factor(Side(tx, nt), root), nt)
    ensures var gram := Gram(Entries(m, nr * nt), nr * nt, Cell(nt, r, t), Cell(nt, r2, t2));
            var declared := Dense(rx, r, r2).Mul(Dense(tx, t, t2));
            (SideKept(rx, nr, r, r2) && SideKept(tx, nt, t, t2) ==> gram == declared) &&
            (Bounded(rx) && Bounded(tx) ==> Near(declared, gram, 3.0 * TOLERANCE))
  {
    hide Cx.Mul, Gram, Factor, Accepted, IsProduct, Dense, SideKept, Near, Within, Bounded, IsRoot, Declared, Entries, Cell;
    SideReproduced(rx, nr, root, r, r2);
    SideReproduced(tx, nt, root, t, t2);
    ProductGram(m, Factor(Side(rx, nr), root), nr, Factor(Side(tx, nt), root), nt, r, t, r2, t2);
    var g, h := Gram(Factor(Side(rx, nr), root), nr, r, r2), Gram(Factor(Side(tx, nt), root), nt, t, t2);
    assert Bounded(rx) && Bounded(tx) ==> Near(Dense(rx, r, r2).Mul(Dense(tx, t, t2)), g.Mul(h), 3.0 * TOLERANCE) by {
      if Bounded(rx) && Bounded(tx) {
        DenseBounded(rx, r, r2);
        DenseBounded(tx, t, t2);
        SidesMultiplied(Dense(rx, r, r2), Dense(tx, t, t2), g, h);
      }
    }
  }
}
