/** Why mixing by L gives the lanes the covariance L L^H, and with the lane
    matrix of a link the declared one.  An ensemble is a finite list of outcomes
    with weights; expectation is the weighted sum over them. */
module LinkCovariance {
  import opened Complex
  import opened Matrix
  import opened Sums
  import opened Correlation
  import opened Covariance
  import opened Nearness
  import opened LaneMixing
  import opened LinkFading

  /** The expectation of u * conj(v) over the outcomes. */
  ghost function Moment(outcomes: nat, weight: nat -> real, u: nat -> Cx, v: nat -> Cx): Cx
  {
    Sum(outcomes, (s: nat) => u(s).Mul(v(s).Conj()).Scale(weight(s)))
  }

  /** Independent lanes of unit power. */
  ghost predicate White(outcomes: nat, weight: nat -> real, n: nat, w: nat -> nat -> Cx)
  {
    forall a: nat, b: nat :: a < n && b < n ==> Moment(outcomes, weight, w(a), w(b)) == if a == b then ONE else ZERO
  }

  /** Lane l after mixing, in every outcome. */
  ghost function MixedLane(mixing: seq<Cx>, n: nat, w: nat -> nat -> Cx, l: nat): nat -> Cx
    requires |mixing| == n * n
  {
    (s: nat) => Mixed(mixing, n, (c: nat) => w(c)(s), l)
  }

  lemma {:induction false} MomentConj(outcomes: nat, weight: nat -> real, u: nat -> Cx, v: nat -> Cx)
    ensures Moment(outcomes, weight, v, u) == Moment(outcomes, weight, u, v).Conj()
  {
    var f := (s: nat) => u(s).Mul(v(s).Conj()).Scale(weight(s));
    var g := (s: nat) => v(s).Mul(u(s).Conj()).Scale(weight(s));
    forall s: nat | s < outcomes
      ensures g(s) == f(s).Conj()
    {
      ConjProduct(u(s), v(s), weight(s));
    }
    SumConj(outcomes, f, g);
  }

  lemma {:induction false} ConjProduct(a: Cx, b: Cx, k: real)
    ensures b.Mul(a.Conj()).Scale(k) == a.Mul(b.Conj()).Scale(k).Conj()
  {
    hide Cx.Mul, Cx.Scale;
    ConjLaws(a, b.Conj());
    ConjLaws(b, a);
    MulLaws(a.Conj(), b, ZERO);
    ConjScale(a.Mul(b.Conj()), k);
  }

  /** One term of the mixed lane's moment with v. */
  ghost function Piece(row: nat -> Cx, w: nat -> nat -> Cx, v: nat -> Cx, weight: nat -> real): (nat, nat) -> Cx
  {
    (s: nat, c: nat) => row(c).Mul(w(c)(s).Mul(v(s).Conj()).Scale(weight(s)))
  }

  lemma {:induction false} PieceRegrouped(a: Cx, b: Cx, c: Cx, k: real)
    ensures a.Mul(b).Mul(c).Scale(k) == a.Mul(b.Mul(c).Scale(k))
    ensures c.Scale(k).Mul(a.Mul(b)) == a.Mul(b.Mul(c).Scale(k))
    ensures c.Scale(k).Mul(a) == a.Mul(c).Scale(k)
  {
    hide Cx.Mul, Cx.Scale;
    MulLaws(a, b, c);
    ScaleMul(b.Mul(c), a, k);
    MulLaws(a, b.Mul(c), ZERO);
    MulLaws(a, b.Mul(c).Scale(k), ZERO);
    ScaleMul(c, a.Mul(b), k);
    MulLaws(c, a.Mul(b), ZERO);
    ScaleMul(c, a, k);
    MulLaws(c, a, ZERO);
  }

  /** Expectation is linear in the mixed lane. */
  lemma {:induction false} MomentOfMixture(outcomes: nat, weight: nat -> real, n: nat, row: nat -> Cx, w: nat -> nat -> Cx,
                        g: nat -> Cx, v: nat -> Cx)
    requires forall s: nat :: g(s) == Sum(n, (c: nat) => row(c).Mul(w(c)(s)))
    ensures Moment(outcomes, weight, g, v) == Sum(n, (c: nat) => row(c).Mul(Moment(outcomes, weight, w(c), v)))
  {
    hide Cx.Mul, Cx.Scale;
    var piece := Piece(row, w, v, weight);
    var byOutcome := (s: nat) => Sum(n, (c: nat) => piece(s, c));
    var byLane := (c: nat) => Sum(outcomes, (s: nat) => piece(s, c));
    forall s: nat | s < outcomes
      ensures g(s).Mul(v(s).Conj()).Scale(weight(s)) == byOutcome(s)
    {
      var factor := v(s).Conj().Scale(weight(s));
      var terms := (c: nat) => row(c).Mul(w(c)(s));
      forall c: nat | c < n
        ensures piece(s, c) == factor.Mul(terms(c))
      {
        PieceRegrouped(row(c), w(c)(s), v(s).Conj(), weight(s));
      }
      SumMul(n, factor, terms, (c: nat) => piece(s, c));
      PieceRegrouped(g(s), ONE, v(s).Conj(), weight(s));
    }
    SumCongruence(outcomes, (s: nat) => g(s).Mul(v(s).Conj()).Scale(weight(s)), byOutcome);
    SumSwap(outcomes, n, piece);
    forall c: nat | c < n
      ensures byLane(c) == row(c).Mul(Moment(outcomes, weight, w(c), v))
    {
      SumMul(outcomes, row(c), (s: nat) => w(c)(s).Mul(v(s).Conj()).Scale(weight(s)), (s: nat) => piece(s, c));
    }
    SumCongruence(n, byLane, (c: nat) => row(c).Mul(Moment(outcomes, weight, w(c), v)));
  }

  ghost function RowOf(mixing: seq<Cx>, n: nat, l: nat): nat -> Cx
    requires |mixing| == n * n
  {
    (c: nat) => Entries(mixing, n)(l, c)
  }

  lemma {:induction false} MixedLaneIsSum(mixing: seq<Cx>, n: nat, w: nat -> nat -> Cx, l: nat)
    requires |mixing| == n * n
    ensures forall s: nat :: MixedLane(mixing, n, w, l)(s) == Sum(n, (c: nat) => RowOf(mixing, n, l)(c).Mul(w(c)(s)))
  {
    hide Cx.Mul;
    forall s: nat
      ensures MixedLane(mixing, n, w, l)(s) == Sum(n, (c: nat) => RowOf(mixing, n, l)(c).Mul(w(c)(s)))
    {
      var f := Contribution(mixing, n, (c: nat) => w(c)(s), l);
      var g := (c: nat) => RowOf(mixing, n, l)(c).Mul(w(c)(s));
      assert forall c: nat :: f(c) == Entries(mixing, n)(l, c).Mul(w(c)(s)) == g(c);
      SumCongruence(n, f, g);
    }
  }

  /** A mixed lane against a white lane. */
  lemma {:induction false} MixedAgainstWhite(outcomes: nat, weight: nat -> real, n: nat, mixing: seq<Cx>, w: nat -> nat -> Cx, l: nat, c: nat)
    requires |mixing| == n * n && White(outcomes, weight, n, w) && l < n && c < n
    ensures Moment(outcomes, weight, MixedLane(mixing, n, w, l), w(c)) == Entries(mixing, n)(l, c)
  {
    hide Cx.Mul, Moment, MixedLane, Entries;
    MixedLaneIsSum(mixing, n, w, l);
    var row := RowOf(mixing, n, l);
    MomentOfMixture(outcomes, weight, n, row, w, MixedLane(mixing, n, w, l), w(c));
    var f := (d: nat) => row(d).Mul(Moment(outcomes, weight, w(d), w(c)));
    forall d: nat | d < n
      ensures f(d) == if d == c then row(c) else ZERO
    {
      Units(row(d), 0.0);
    }
    SumSingle(c, n, f);
  }

  /** E[g g^H] == L L^H for white lanes w and g = L w. */
  lemma {:induction false} MixedCovariance(outcomes: nat, weight: nat -> real, n: nat, mixing: seq<Cx>, w: nat -> nat -> Cx, l: nat, l2: nat)
    requires |mixing| == n * n && White(outcomes, weight, n, w) && l < n && l2 < n
    ensures Moment(outcomes, weight, MixedLane(mixing, n, w, l), MixedLane(mixing, n, w, l2)) ==
            Gram(Entries(mixing, n), n, l, l2)
  {
    hide Cx.Mul, Moment, MixedLane, Entries;
    var e, g, v := Entries(mixing, n), MixedLane(mixing, n, w, l), MixedLane(mixing, n, w, l2);
    var row := RowOf(mixing, n, l);
    MixedLaneIsSum(mixing, n, w, l);
    MomentOfMixture(outcomes, weight, n, row, w, g, v);
    forall c: nat | c < n
      ensures row(c).Mul(Moment(outcomes, weight, w(c), v)) == e(l, c).Mul(e(l2, c).Conj())
    {
      MixedAgainstWhite(outcomes, weight, n, mixing, w, l2, c);
      MomentConj(outcomes, weight, v, w(c));
    }
    SumCongruence(n, (c: nat) => row(c).Mul(Moment(outcomes, weight, w(c), v)), (c: nat) => e(l, c).Mul(e(l2, c).Conj()));
  }

  /** White grids mixed by the lane matrix have the declared covariance: lanes
      (r, t) and (r2, t2) correlate as R_rx[r][r2] * R_tx[t][t2], exactly where
      neither side's entry was rounded and else within three tolerances. */
  lemma {:induction false} LinkHasDeclaredCovariance(outcomes: nat, weight: nat -> real, w: nat -> nat -> Cx,
                                  rx: seq<Entry>, tx: seq<Entry>, nr: nat, nt: nat, root: real -> real, m: seq<Cx>,
                                  r: nat, t: nat, r2: nat, t2: nat)
    requires IsRoot(root) && Declared(rx) && Declared(tx) && r < nr && r2 < nr && t < nt && t2 < nt
    requires Accepted(Side(rx, nr), nr) && Accepted(Side(tx, nt), nt)
    requires IsProduct(m, Factor(Side(rx, nr), root), nr, Factor(Side(tx, nt), root), nt)
    requires White(outcomes, weight, nr * nt, w)
    ensures var moment := Moment(outcomes, weight, MixedLane(m, nr * nt, w, Cell(nt, r, t)),
                                 MixedLane(m, nr * nt, w, Cell(nt, r2, t2)));
            var declared := Dense(rx, r, r2).Mul(Dense(tx, t, t2));
            (SideKept(rx, nr, r, r2) && SideKept(tx, nt, t, t2) ==> moment == declared) &&
            (Bounded(rx) && Bounded(tx) ==> Near(declared, moment, 3.0 * TOLERANCE))
  {
    hide Cx.Mul, Moment, MixedLane, Entries, Gram, Cell, White, Pivot, IsRoot, Factor, Near, Bounded, SideKept, Dense;
    CellBound(nr, nt, r, t);
    CellBound(nr, nt, r2, t2);
    LaneCovariance(rx, tx, nr, nt, root, m, r, t, r2, t2);
    MixedCovariance(outcomes, weight, nr * nt, m, w, Cell(nt, r, t), Cell(nt, r2, t2));
  }
}
