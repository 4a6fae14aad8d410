/** What a faded slot is: at every sample the plain convolution with each path's
    gain multiplied by a factor, which runs in straight lines between the points
    of the path's grid row and, on a line-of-sight path, turns steadily. */
module FadingMeaning {
  import opened Complex
  import opened Modular
  import opened Matrix
  import opened Sums
  import opened Correlation
  import opened LinkFading
  import opened Tdl
  import opened TdlFading

  /** Point g of path k's row: rows one after the other. */
  function GridPoint(grid: FadingGrid, k: nat, g: nat): Cx
    requires k < grid.taps && g < grid.points && |grid.values| == grid.taps * grid.points
  {
    CellBound(grid.taps, grid.points, k, g);
    assert k * grid.points + g == Cell(grid.points, k, g);
    grid.values[k * grid.points + g]
  }

  function Turned(step: Cx, n: nat): Cx { if n == 0 then ONE else Turned(step, n - 1).Mul(step) }

  /** w is the point i samples behind grid point g on the line to the next point;
      behind the last point the line is level. */
  ghost predicate OnLine(grid: FadingGrid, k: nat, g: nat, i: nat, w: Cx)
    requires k < grid.taps && g < grid.points && |grid.values| == grid.taps * grid.points && i <= grid.stride
  {
    var here, next := GridPoint(grid, k, g), GridPoint(grid, k, if g == grid.points - 1 then g else g + 1);
    w.Scale(grid.stride as real) == here.Scale((grid.stride - i) as real).Add(next.Scale(i as real))
  }

  /** c is path k's factor at sample g * stride + i. */
  ghost predicate FactorIs(tap: FadingTap, grid: FadingGrid, k: nat, g: nat, i: nat, coefficient: Cx, c: Cx)
    requires k < grid.taps && g < grid.points && |grid.values| == grid.taps * grid.points && i <= grid.stride
  {
    exists w: Cx :: OnLine(grid, k, g, i, w) &&
      c == if tap.isLos then
             coefficient.Mul(tap.losStart.Mul(Turned(tap.losStep, g * grid.stride + i))).Scale(tap.losFactor)
               .Add(w.Scale(tap.rayleighFactor))
           else w
  }

  /** The recurrence of a line-of-sight path, if there is one, is exact. */
  ghost predicate ExactIfLos(taps: seq<FadingTap>, product: (Cx, Cx) -> Cx)
  {
    Exact(product) || forall k: nat :: k < |taps| ==> !taps[k].isLos
  }

  ghost predicate Exact(product: (Cx, Cx) -> Cx) { forall a: Cx, b: Cx :: product(a, b) == a.Mul(b) }

  function Modulated(taps: seq<FadingTap>, factors: seq<Cx>): (r: seq<Tap>)
    requires |factors| == |taps|
    ensures |r| == |taps|
  {
    seq(|taps|, (k: nat) requires k < |taps| => taps[k].tap.(gain := taps[k].tap.gain.Mul(factors[k])))
  }

  function Plain(taps: seq<FadingTap>): (r: seq<Tap>)
    ensures |r| == |taps|
  {
    seq(|taps|, (k: nat) requires k < |taps| => taps[k].tap)
  }

  // ------------------------------------------------------------------------
  // The factors
  // ------------------------------------------------------------------------

  /** n steps of an exact recurrence. */
  lemma {:induction false} PhaseIsPower(tap: FadingTap, product: (Cx, Cx) -> Cx, n: nat)
    requires Exact(product)
    ensures LosAt(tap, product, n) == tap.losStart.Mul(Turned(tap.losStep, n))
  {
    hide Cx.Mul;
    if n == 0 {
      Units(tap.losStart, 1.0);
    } else {
      PhaseIsPower(tap, product, n - 1);
      MulLaws(tap.losStart, Turned(tap.losStep, n - 1), tap.losStep);
    }
  }

  lemma {:induction false} CellOfSample(n: nat, g: nat, i: nat, stride: nat)
    requires n == g * stride + i && i < stride
    ensures n / stride == g && n - g * stride == i
  {
    DivModUnique(n, g, i, stride);
  }

  lemma {:induction false} Weights(a: Cx, b: Cx, i: real, d: real)
    requires d > 0.0
    ensures a.Scale(1.0 - i / d).Add(b.Scale(i / d)).Scale(d) == a.Scale(d - i).Add(b.Scale(i))
  {
    var f := i / d;
    assert f * d == i && (1.0 - f) * d == d - i;
    ScaleScale(a, 1.0 - f, d, d - i);
    ScaleScale(b, f, d, i);
    SpreadScale(a.Scale(1.0 - f), b.Scale(f), d);
  }

  lemma {:induction false} SpreadScale(a: Cx, b: Cx, d: real)
    ensures a.Add(b).Scale(d) == a.Scale(d).Add(b.Scale(d))
  {
  }

  /** The interpolated value is the only point on the line. */
  lemma {:induction false} InterpolatedOnLine(grid: FadingGrid, k: nat, g: nat, i: nat, n: nat, w: Cx)
    requires k < grid.taps && g < grid.points && |grid.values| == grid.taps * grid.points
    requires n == g * grid.stride + i && i < grid.stride
    ensures n / grid.stride == g
    ensures OnLine(grid, k, g, i, w) <==> w == Rayleigh(grid, k, n)
  {
    hide Cx.Scale, Cx.Add, Cell, Slot;
    CellOfSample(n, g, i, grid.stride);
    var high := if g == grid.points - 1 then g else g + 1;
    var d := grid.stride as real;
    GridPointIsSlot(grid, k, g);
    GridPointIsSlot(grid, k, high);
    Weights(GridPoint(grid, k, g), GridPoint(grid, k, high), i as real, d);
    var r := Rayleigh(grid, k, n);
    assert r.Scale(d) == GridPoint(grid, k, g).Scale((grid.stride - i) as real).Add(GridPoint(grid, k, high).Scale(i as real));
    if OnLine(grid, k, g, i, w) {
      SameQuotient(w, r, d);
    }
  }

  lemma {:induction false} GridPointIsSlot(grid: FadingGrid, k: nat, g: nat)
    requires k < grid.taps && g < grid.points && |grid.values| == grid.taps * grid.points
    ensures GridPoint(grid, k, g) == grid.values[Slot(grid, k, g)]
  {
  }

  lemma {:induction false} FactorIsGain(tap: FadingTap, grid: FadingGrid, k: nat, g: nat, i: nat, n: nat, coefficient: Cx,
                                        product: (Cx, Cx) -> Cx, c: Cx)
    requires k < grid.taps && g < grid.points && |grid.values| == grid.taps * grid.points && (tap.isLos ==> Exact(product))
    requires n == g * grid.stride + i && i < grid.stride && FactorIs(tap, grid, k, g, i, coefficient, c)
    ensures n / grid.stride == g && c == Gain(tap, grid, k, n, coefficient, LosAt(tap, product, n))
  {
    hide Cx.Scale, Cx.Add, Cx.Mul, Rayleigh, OnLine, LosAt;
    var w: Cx :| OnLine(grid, k, g, i, w) &&
      c == if tap.isLos then
             coefficient.Mul(tap.losStart.Mul(Turned(tap.losStep, g * grid.stride + i))).Scale(tap.losFactor)
               .Add(w.Scale(tap.rayleighFactor))
           else w;
    InterpolatedOnLine(grid, k, g, i, n, w);
    if tap.isLos {
      PhaseIsPower(tap, product, n);
    }
  }

  // ------------------------------------------------------------------------
  // The slot
  // ------------------------------------------------------------------------

  lemma {:induction false} PathModulated(tap: Tap, c: Cx, f: int -> Cx)
    requires |tap.h| == FILTER_TAPS
    ensures Path(tap.(gain := tap.gain.Mul(c)), f) == Path(tap, f).Mul(c)
  {
    hide Cx.Mul;
    var x := Filtered(tap, f, FILTER_TAPS);
    SameFilter(tap, tap.(gain := tap.gain.Mul(c)), f, FILTER_TAPS);
    MulLaws(tap.gain, c, x);
    MulLaws(c, x, ZERO);
    MulLaws(tap.gain, x, c);
  }

  lemma {:induction false} SameFilter(a: Tap, b: Tap, f: int -> Cx, i: nat)
    requires a.h == b.h && a.delay == b.delay && i <= |a.h|
    ensures Filtered(a, f, i) == Filtered(b, f, i)
  {
    if i > 0 {
      SameFilter(a, b, f, i - 1);
    }
  }

  lemma {:induction false} SumModulated(taps: seq<FadingTap>, grid: FadingGrid, coefficient: Cx, product: (Cx, Cx) -> Cx,
                                        around: int -> Cx, n: nat, g: nat, i: nat, factors: seq<Cx>, k: nat)
    requires k <= |taps| == grid.taps == |factors| && ExactIfLos(taps, product) && forall j: nat :: j < |taps| ==> |taps[j].tap.h| == FILTER_TAPS
    requires g < grid.points && |grid.values| == grid.taps * grid.points && n == g * grid.stride + i && i < grid.stride
    requires forall j: nat :: j < |taps| ==> FactorIs(taps[j], grid, j, g, i, coefficient, factors[j])
    ensures n / grid.stride == g
    ensures FadedSum(taps, grid, coefficient, product, around, n, k) == Convolved(Modulated(taps, factors), around, k)
  {
    hide Cx.Mul, Cx.Add, Path, Gain, FactorIs;
    CellOfSample(n, g, i, grid.stride);
    if k > 0 {
      SumModulated(taps, grid, coefficient, product, around, n, g, i, factors, k - 1);
      FactorIsGain(taps[k - 1], grid, k - 1, g, i, n, coefficient, product, factors[k - 1]);
      PathModulated(taps[k - 1].tap, factors[k - 1], around);
    }
  }

  /** Sample g * stride + i of a faded slot is the plain step's with each path's
      gain multiplied by its factor there. */
  lemma {:induction false} FadedIsModulated(taps: seq<FadingTap>, grid: FadingGrid, coefficient: Cx, product: (Cx, Cx) -> Cx,
                                            input: seq<Cx>, ring: seq<Cx>, n: nat, g: nat, i: nat, factors: seq<Cx>)
    requires Ready(taps, grid, |input|) && n < |input| && ExactIfLos(taps, product) && |factors| == |taps|
    requires n == g * grid.stride + i && i < grid.stride && g < grid.points
    requires forall k: nat :: k < |taps| ==> FactorIs(taps[k], grid, k, g, i, coefficient, factors[k])
    ensures FadedSample(taps, grid, coefficient, product, input, ring, n) == SlotSample(Modulated(taps, factors), input, ring, n)
  {
    hide FactorIs, Around, Convolved, FadedSum;
    CoversSample(grid, |taps|, |input|, n);
    SumModulated(taps, grid, coefficient, product, Around(input, ring, n), n, g, i, factors, |taps|);
  }

  /** The cell a sample of the slot lies in. */
  lemma {:induction false} SampleCell(taps: seq<FadingTap>, grid: FadingGrid, count: nat, n: nat) returns (g: nat, i: nat)
    requires Covers(grid, |taps|, count) && n < count
    ensures n == g * grid.stride + i && i < grid.stride && g < grid.points
  {
    CoversSample(grid, |taps|, count, n);
    g, i := n / grid.stride, n % grid.stride;
    assert n == grid.stride * (n / grid.stride) + n % grid.stride;
    assert grid.stride * g == g * grid.stride;
  }

  // ------------------------------------------------------------------------
  // Particular grids
  // ------------------------------------------------------------------------

  lemma {:induction false} Weighed(a: Cx, p: real, q: real, d: real)
    requires p + q == d
    ensures a.Scale(d) == a.Scale(p).Add(a.Scale(q))
  {
  }

  lemma {:induction false} ScaleByZero(a: Cx)
    ensures a.Scale(0.0) == ZERO
  {
  }

  lemma {:induction false} OnePoint(grid: FadingGrid, k: nat, g: nat)
    requires k < grid.taps && g < grid.points && |grid.values| == grid.taps * grid.points
    requires forall c: nat :: c < |grid.values| ==> grid.values[c] == ONE
    ensures GridPoint(grid, k, g) == ONE
  {
    hide GridPoint, Slot;
    GridPointIsSlot(grid, k, g);
  }

  lemma {:induction false} FlatFactor(tap: FadingTap, grid: FadingGrid, k: nat, g: nat, i: nat, coefficient: Cx)
    requires k < grid.taps && g < grid.points && |grid.values| == grid.taps * grid.points && i < grid.stride && !tap.isLos
    requires forall c: nat :: c < |grid.values| ==> grid.values[c] == ONE
    ensures FactorIs(tap, grid, k, g, i, coefficient, ONE)
  {
    hide Cx.Scale, Cx.Mul, GridPoint;
    OnePoint(grid, k, g);
    OnePoint(grid, k, if g == grid.points - 1 then g else g + 1);
    Weighed(ONE, (grid.stride - i) as real, i as real, grid.stride as real);
    assert OnLine(grid, k, g, i, ONE);
  }

  /** With every grid value one and no line-of-sight path, fading changes nothing. */
  lemma {:induction false} FlatGrid(taps: seq<FadingTap>, grid: FadingGrid, coefficient: Cx, product: (Cx, Cx) -> Cx,
                                    input: seq<Cx>, ring: seq<Cx>, n: nat)
    requires Ready(taps, grid, |input|) && n < |input| && forall k: nat :: k < |taps| ==> !taps[k].isLos
    requires forall c: nat :: c < |grid.values| ==> grid.values[c] == ONE
    ensures FadedSample(taps, grid, coefficient, product, input, ring, n) == SlotOutput(Plain(taps), input, ring)[n]
  {
    hide FadedSample, Convolved, Cx.Mul, FactorIs;
    var g, i := SampleCell(taps, grid, |input|, n);
    var ones := seq(|taps|, (_: nat) => ONE);
    forall k: nat | k < |taps|
      ensures FactorIs(taps[k], grid, k, g, i, coefficient, ones[k])
    {
      FlatFactor(taps[k], grid, k, g, i, coefficient);
    }
    FadedIsModulated(taps, grid, coefficient, product, input, ring, n, g, i, ones);
    forall k: nat | k < |taps|
      ensures Modulated(taps, ones)[k] == Plain(taps)[k]
    {
      Units(taps[k].tap.gain, 1.0);
    }
    assert Modulated(taps, ones) == Plain(taps);
  }

  lemma {:induction false} PointFactor(tap: FadingTap, grid: FadingGrid, k: nat, g: nat, coefficient: Cx)
    requires k < grid.taps && g < grid.points && |grid.values| == grid.taps * grid.points && !tap.isLos
    ensures FactorIs(tap, grid, k, g, 0, coefficient, GridPoint(grid, k, g))
  {
    hide Cx.Scale, Cx.Mul, GridPoint;
    var here := GridPoint(grid, k, g);
    ScaleByZero(GridPoint(grid, k, if g == grid.points - 1 then g else g + 1));
    Units(here.Scale(grid.stride as real), 1.0);
    assert OnLine(grid, k, g, 0, here);
  }

  /** At a grid point, and without line of sight, the factors are the points. */
  lemma {:induction false} AtGridPoint(taps: seq<FadingTap>, grid: FadingGrid, coefficient: Cx, product: (Cx, Cx) -> Cx,
                                       input: seq<Cx>, ring: seq<Cx>, n: nat, g: nat, points: seq<Cx>)
    requires Ready(taps, grid, |input|) && n == g * grid.stride < |input| && g < grid.points
    requires |points| == |taps| && forall k: nat :: k < |taps| ==> !taps[k].isLos && points[k] == GridPoint(grid, k, g)
    ensures FadedSample(taps, grid, coefficient, product, input, ring, n) == SlotSample(Modulated(taps, points), input, ring, n)
  {
    hide FadedSample, Convolved, GridPoint, FactorIs;
    forall k: nat | k < |taps|
      ensures FactorIs(taps[k], grid, k, g, 0, coefficient, points[k])
    {
      PointFactor(taps[k], grid, k, g, coefficient);
    }
    FadedIsModulated(taps, grid, coefficient, product, input, ring, n, g, 0, points);
  }

  lemma {:induction false} LosFactor(tap: FadingTap, grid: FadingGrid, k: nat, g: nat, i: nat, n: nat, coefficient: Cx)
    requires k < grid.taps && g < grid.points && |grid.values| == grid.taps * grid.points
    requires n == g * grid.stride + i && i < grid.stride && tap.isLos && tap.losFactor == 1.0 && tap.rayleighFactor == 0.0
    ensures FactorIs(tap, grid, k, g, i, coefficient, coefficient.Mul(tap.losStart.Mul(Turned(tap.losStep, n))))
  {
    hide Cx.Mul, Cx.Scale, Turned, OnLine;
    var w := LineHolds(grid, k, g, i, n);
    ScaleByZero(w);
    Units(coefficient.Mul(tap.losStart.Mul(Turned(tap.losStep, n))), 1.0);
  }

  /** Paths with their line-of-sight part alone turn steadily. */
  lemma {:induction false} LineOfSightOnly(taps: seq<FadingTap>, grid: FadingGrid, coefficient: Cx, product: (Cx, Cx) -> Cx,
                                           input: seq<Cx>, ring: seq<Cx>, n: nat, phases: seq<Cx>)
    requires Ready(taps, grid, |input|) && n < |input| && Exact(product) && |phases| == |taps|
    requires forall k: nat :: k < |taps| ==>
               taps[k].isLos && taps[k].losFactor == 1.0 && taps[k].rayleighFactor == 0.0 &&
               phases[k] == coefficient.Mul(taps[k].losStart.Mul(Turned(taps[k].losStep, n)))
    ensures FadedSample(taps, grid, coefficient, product, input, ring, n) == SlotSample(Modulated(taps, phases), input, ring, n)
  {
    hide FadedSample, Convolved, Cx.Mul, Turned, FactorIs;
    var g, i := SampleCell(taps, grid, |input|, n);
    forall k: nat | k < |taps|
      ensures FactorIs(taps[k], grid, k, g, i, coefficient, phases[k])
    {
      LosFactor(taps[k], grid, k, g, i, n, coefficient);
    }
    FadedIsModulated(taps, grid, coefficient, product, input, ring, n, g, i, phases);
  }

  lemma {:induction false} ScatteredFactor(tap: FadingTap, grid: FadingGrid, k: nat, g: nat, i: nat, coefficient: Cx, w: Cx)
    requires k < grid.taps && g < grid.points && |grid.values| == grid.taps * grid.points && i <= grid.stride
    requires tap.losFactor == 0.0 && tap.rayleighFactor == 1.0 && OnLine(grid, k, g, i, w)
    ensures FactorIs(tap, grid, k, g, i, coefficient, w) && FactorIs(tap.(isLos := false), grid, k, g, i, coefficient, w)
  {
    hide Cx.Mul, Cx.Scale, Turned, OnLine;
    ScaleByZero(coefficient.Mul(tap.losStart.Mul(Turned(tap.losStep, g * grid.stride + i))));
    Units(w, 1.0);
  }

  /** Paths with their scattered part alone fade as if they had no line of sight. */
  lemma {:induction false} ScatteredOnly(taps: seq<FadingTap>, grid: FadingGrid, coefficient: Cx, product: (Cx, Cx) -> Cx,
                                         input: seq<Cx>, ring: seq<Cx>, n: nat, plain: seq<FadingTap>)
    requires Ready(taps, grid, |input|) && n < |input| && Exact(product) && |plain| == |taps|
    requires forall k: nat :: k < |taps| ==>
               taps[k].losFactor == 0.0 && taps[k].rayleighFactor == 1.0 && plain[k] == taps[k].(isLos := false)
    ensures Ready(plain, grid, |input|)
    ensures FadedSample(taps, grid, coefficient, product, input, ring, n) ==
            FadedSample(plain, grid, coefficient, product, input, ring, n)
  {
    hide FadedSample, Convolved, Cx.Mul, OnLine, FactorIs;
    var g, i := SampleCell(taps, grid, |input|, n);
    var factors := ScatteredFactors(grid, g, i, n, |taps|);
    forall k: nat | k < |taps|
      ensures FactorIs(taps[k], grid, k, g, i, coefficient, factors[k]) && FactorIs(plain[k], grid, k, g, i, coefficient, factors[k])
    {
      ScatteredFactor(taps[k], grid, k, g, i, coefficient, factors[k]);
    }
    FadedIsModulated(taps, grid, coefficient, product, input, ring, n, g, i, factors);
    FadedIsModulated(plain, grid, coefficient, product, input, ring, n, g, i, factors);
    assert Modulated(taps, factors) == Modulated(plain, factors);
  }

  lemma {:induction false} LineHolds(grid: FadingGrid, k: nat, g: nat, i: nat, n: nat) returns (w: Cx)
    requires k < grid.taps && g < grid.points && |grid.values| == grid.taps * grid.points
    requires n == g * grid.stride + i && i < grid.stride
    ensures OnLine(grid, k, g, i, w)
  {
    CellOfSample(n, g, i, grid.stride);
    w := Rayleigh(grid, k, n);
    InterpolatedOnLine(grid, k, g, i, n, w);
  }

  lemma {:induction false} ScatteredFactors(grid: FadingGrid, g: nat, i: nat, n: nat, k: nat) returns (factors: seq<Cx>)
    requires k <= grid.taps && g < grid.points && |grid.values| == grid.taps * grid.points
    requires n == g * grid.stride + i && i < grid.stride
    ensures |factors| == k && forall j: nat :: j < k ==> OnLine(grid, j, g, i, factors[j])
  {
    factors := [];
    if k > 0 {
      factors := ScatteredFactors(grid, g, i, n, k - 1);
      var w := LineHolds(grid, k - 1, g, i, n);
      factors := factors + [w];
    }
  }
}
