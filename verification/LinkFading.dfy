/** PhysicalLinkFading (include/ocudu_gpu_channel/physical_link.h): the lanes'
    fading grids of one slot, and the in-place mixing across lanes. */
module LinkFading {
  import opened Complex
  import opened Matrix
  import opened Sums

  datatype FadingGrid = FadingGrid(stride: nat, points: nat, taps: nat, values: seq<Cx>)

  const NO_GRID := FadingGrid(1, 0, 0, [])

  /** The flat position of grid point g of tap k. */
  function Slot(grid: FadingGrid, k: nat, g: nat): (c: nat)
    requires k < grid.taps && g < grid.points && |grid.values| == grid.taps * grid.points
    ensures c < |grid.values|
  {
    CellBound(grid.taps, grid.points, k, g);
    Cell(grid.points, k, g)
  }

  /** Every lane has a leading grid, all of one size. */
  ghost predicate Shaped(table: seq<seq<FadingGrid>>, n: nat)
  {
    1 <= n <= |table| && |table[0]| >= 1 &&
    forall l: nat :: l < n ==> |table[l]| >= 1 && SameShape(table[l][0], table[0][0])
  }

  ghost predicate SameShape(grid: FadingGrid, first: FadingGrid)
  {
    grid.taps == first.taps && grid.points == first.points && |grid.values| == grid.taps * grid.points
  }

  /** The sample of lane l at tap k and grid point g of the leading step. */
  function Sample(table: seq<seq<FadingGrid>>, n: nat, l: nat, k: nat, g: nat): Cx
    requires Shaped(table, n) && l < n && k < table[0][0].taps && g < table[0][0].points
  {
    assert SameShape(table[l][0], table[0][0]);
    table[l][0].values[Slot(table[l][0], k, g)]
  }

  /** All lanes' samples at one point. */
  ghost function Point(table: seq<seq<FadingGrid>>, n: nat, k: nat, g: nat): nat -> Cx
    requires Shaped(table, n) && k < table[0][0].taps && g < table[0][0].points
  {
    (l: nat) => if l < n then Sample(table, n, l, k, g) else ZERO
  }

  /** table[l][0].tap(k)[g] = value. */
  function Store(table: seq<seq<FadingGrid>>, n: nat, l: nat, k: nat, g: nat, value: Cx): (r: seq<seq<FadingGrid>>)
    requires Shaped(table, n) && l < n && k < table[0][0].taps && g < table[0][0].points
    ensures Shaped(r, n) && r[0][0].taps == table[0][0].taps && r[0][0].points == table[0][0].points
  {
    assert SameShape(table[l][0], table[0][0]);
    var grid := table[l][0];
    var filled := grid.(values := grid.values[Slot(grid, k, g) := value]);
    var r := table[l := table[l][0 := filled]];
    assert forall i: nat :: i < n ==> SameShape(table[i][0], table[0][0]);
    r
  }

  lemma {:induction false} StoreAt(table: seq<seq<FadingGrid>>, n: nat, l: nat, k: nat, g: nat, value: Cx, i: nat, a: nat, b: nat)
    requires Shaped(table, n) && l < n && k < table[0][0].taps && g < table[0][0].points
    requires i < n && a < table[0][0].taps && b < table[0][0].points
    ensures Sample(Store(table, n, l, k, g, value), n, i, a, b) ==
            if i == l && a == k && b == g then value else Sample(table, n, i, a, b)
  {
    assert SameShape(table[i][0], table[0][0]) && SameShape(table[l][0], table[0][0]);
    var points := table[0][0].points;
    if Cell(points, a, b) == Cell(points, k, g) {
      CellInjective(points, a, b, k, g);
    }
  }

  /** Only the values of the lanes' leading grids may differ. */
  ghost predicate SameElsewhere(before: seq<seq<FadingGrid>>, after: seq<seq<FadingGrid>>, n: nat)
  {
    |after| == |before| &&
    (forall l: nat :: n <= l < |before| ==> after[l] == before[l]) &&
    (forall l: nat :: l < n && l < |before| ==>
       |after[l]| == |before[l]| &&
       (forall s: nat :: 1 <= s < |before[l]| ==> after[l][s] == before[l][s]) &&
       (|before[l]| >= 1 ==> after[l][0] == before[l][0].(values := after[l][0].values)))
  }

  /** Row l of the mixing matrix applied to the lanes' samples. */
  ghost function Mixed(mixing: seq<Cx>, n: nat, samples: nat -> Cx, l: nat): Cx
    requires |mixing| == n * n
  {
    Sum(n, Contribution(mixing, n, samples, l))
  }

  ghost function Contribution(mixing: seq<Cx>, n: nat, samples: nat -> Cx, l: nat): nat -> Cx
    requires |mixing| == n * n
  {
    (c: nat) => Entries(mixing, n)(l, c).Mul(samples(c))
  }

  /** Point (k, g) holds the mixture, every other point what it held. */
  ghost predicate PointMixed(before: seq<seq<FadingGrid>>, after: seq<seq<FadingGrid>>, n: nat, mixing: seq<Cx>,
                             k: nat, g: nat)
    requires Shaped(before, n) && Shaped(after, n) && |mixing| == n * n
    requires SameElsewhere(before, after, n) && k < before[0][0].taps && g < before[0][0].points
  {
    forall i: nat, a: nat, b: nat :: i < n && a < before[0][0].taps && b < before[0][0].points ==>
      Sample(after, n, i, a, b) ==
      if a == k && b == g then Mixed(mixing, n, Point(before, n, k, g), i) else Sample(before, n, i, a, b)
  }

  /** The points before (k, g), taps outermost, are mixed and the others not yet. */
  ghost predicate MixedUpTo(before: seq<seq<FadingGrid>>, after: seq<seq<FadingGrid>>, n: nat, mixing: seq<Cx>,
                            k: nat, g: nat)
    requires Shaped(before, n) && Shaped(after, n) && |mixing| == n * n && SameElsewhere(before, after, n)
  {
    forall i: nat, a: nat, b: nat :: i < n && a < before[0][0].taps && b < before[0][0].points ==>
      Sample(after, n, i, a, b) ==
      if a < k || (a == k && b < g) then Mixed(mixing, n, Point(before, n, a, b), i) else Sample(before, n, i, a, b)
  }

  lemma {:induction false} PointDone(before: seq<seq<FadingGrid>>, previous: seq<seq<FadingGrid>>, after: seq<seq<FadingGrid>>, n: nat,
                  mixing: seq<Cx>, k: nat, g: nat)
    requires Shaped(before, n) && Shaped(previous, n) && Shaped(after, n) && |mixing| == n * n
    requires SameElsewhere(before, previous, n) && SameElsewhere(previous, after, n) && SameElsewhere(before, after, n)
    requires k < before[0][0].taps && g < before[0][0].points
    requires MixedUpTo(before, previous, n, mixing, k, g) && PointMixed(previous, after, n, mixing, k, g)
    ensures MixedUpTo(before, after, n, mixing, k, g + 1)
  {
    hide Sample;
    var p, q := Point(before, n, k, g), Point(previous, n, k, g);
    forall i: nat | i < n
      ensures Mixed(mixing, n, q, i) == Mixed(mixing, n, p, i)
    {
      forall c: nat | c < n
        ensures p(c) == q(c)
      {
        assert Sample(previous, n, c, k, g) == Sample(before, n, c, k, g);
      }
      SumCongruence(n, Contribution(mixing, n, q, i), Contribution(mixing, n, p, i));
    }
  }

  lemma {:induction false} TapDone(before: seq<seq<FadingGrid>>, after: seq<seq<FadingGrid>>, n: nat, mixing: seq<Cx>, k: nat)
    requires Shaped(before, n) && Shaped(after, n) && |mixing| == n * n && SameElsewhere(before, after, n)
    requires MixedUpTo(before, after, n, mixing, k, before[0][0].points)
    ensures MixedUpTo(before, after, n, mixing, k + 1, 0)
  {
    hide Sample, Mixed;
  }

  lemma {:induction false} SameElsewhereTrans(a: seq<seq<FadingGrid>>, b: seq<seq<FadingGrid>>, c: seq<seq<FadingGrid>>, n: nat)
    requires SameElsewhere(a, b, n) && SameElsewhere(b, c, n)
    ensures SameElsewhere(a, c, n)
  {
  }

  class PhysicalLinkFading {
    var laneGrids: seq<seq<FadingGrid>>
    var mixing: seq<Cx>
    var lanes: nat
    var laneReady: seq<bool>
    var scratch: seq<Cx>

    constructor ()
      ensures laneGrids == [] && mixing == [] && lanes == 1 && laneReady == [] && scratch == []
    {
      laneGrids, mixing, lanes, laneReady, scratch := [], [], 1, [], [];
    }

    /** Every lane's mark is taken back, so a grid left from an earlier slot can
        not pass for a new one. */
    method BeginSlot()
      modifies this`laneReady
      ensures |laneReady| == (if lanes > 1 then lanes else 1)
      ensures forall l: nat :: l < |laneReady| ==> !laneReady[l]
      ensures lanes >= 1 && mixing != [] ==> !AllReady()
    {
      laneReady := seq(if lanes > 1 then lanes else 1, (_: nat) => false);
      assert lanes >= 1 ==> !Ready(0);
    }

    ghost predicate AllReady()
      reads this`lanes, this`laneReady
    {
      forall l: nat :: l < lanes ==> Ready(l)
    }

    ghost predicate Ready(l: nat)
      reads this`laneReady
    {
      l < |laneReady| && laneReady[l]
    }

    /** Grows the table; what is already there stays in place. */
    method Reshape(laneCount: nat, steps: nat)
      modifies this`laneGrids, this`laneReady
      ensures |laneGrids| == (if |old(laneGrids)| < laneCount then laneCount else |old(laneGrids)|)
      ensures forall l: nat :: l < |laneGrids| ==>
                |laneGrids[l]| >= steps &&
                (l < |old(laneGrids)| ==> old(laneGrids)[l] <= laneGrids[l])
      ensures forall l: nat, s: nat ::
                (l < |laneGrids| && s < |laneGrids[l]| && (l >= |old(laneGrids)| || s >= |old(laneGrids)[l]|)) ==>
                  laneGrids[l][s] == NO_GRID
      ensures |laneReady| >= laneCount && old(laneReady) <= laneReady
      ensures forall l: nat :: |old(laneReady)| <= l < |laneReady| ==> !laneReady[l]
    {
      ghost var before, marks := laneGrids, laneReady;
      if |laneGrids| < laneCount {
        laneGrids := laneGrids + seq(laneCount - |laneGrids|, (_: nat) => []);
      }
      for i := 0 to |laneGrids|
        invariant |laneGrids| == (if |before| < laneCount then laneCount else |before|)
        invariant forall l: nat :: l < i ==> |laneGrids[l]| >= steps
        invariant forall l: nat :: l < |before| ==> before[l] <= laneGrids[l]
        invariant forall l: nat :: i <= l < |before| ==> before[l] == laneGrids[l]
        invariant forall l: nat :: i <= l < |laneGrids| && l >= |before| ==> laneGrids[l] == []
        invariant forall l: nat, s: nat ::
                    (l < |laneGrids| && s < |laneGrids[l]| && (l >= |before| || s >= |before[l]|)) ==>
                      laneGrids[l][s] == NO_GRID
        invariant laneReady == marks
      {
        if |laneGrids[i]| < steps {
          var more := seq(steps - |laneGrids[i]|, (_: nat) => NO_GRID);
          laneGrids := laneGrids[i := laneGrids[i] + more];
        }
      }
      if |laneReady| < laneCount {
        laneReady := laneReady + seq(laneCount - |laneReady|, (_: nat) => false);
      }
    }

    /** The loops over lanes at one point: gather into scratch, then overwrite. */
    method MixPoint(n: nat, k: nat, g: nat)
      requires n == lanes && |scratch| >= n && |mixing| == n * n
      requires Shaped(laneGrids, n) && k < laneGrids[0][0].taps && g < laneGrids[0][0].points
      modifies this`laneGrids, this`scratch
      ensures |scratch| >= n && Shaped(laneGrids, n) && SameElsewhere(old(laneGrids), laneGrids, n)
      ensures PointMixed(old(laneGrids), laneGrids, n, mixing, k, g)
    {
      hide Mixed;
      ghost var before := laneGrids;
      ghost var samples := Point(before, n, k, g);
      for l := 0 to n
        invariant |scratch| >= n && laneGrids == before
        invariant forall i: nat :: i < l ==> scratch[i] == samples(i)
      {
        scratch := scratch[l := Sample(laneGrids, n, l, k, g)];
      }
      for l := 0 to n
        invariant |scratch| >= n && forall i: nat :: i < n ==> scratch[i] == samples(i)
        invariant Shaped(laneGrids, n) && SameElsewhere(before, laneGrids, n)
        invariant forall i: nat, a: nat, b: nat :: i < n && a < before[0][0].taps && b < before[0][0].points ==>
                    Sample(laneGrids, n, i, a, b) ==
                    if i < l && a == k && b == g then Mixed(mixing, n, samples, i) else Sample(before, n, i, a, b)
      {
        var acc := Row(n, l, samples);
        ghost var previous := laneGrids;
        laneGrids := Store(laneGrids, n, l, k, g, acc);
        forall i: nat, a: nat, b: nat | i < n && a < before[0][0].taps && b < before[0][0].points
          ensures Sample(laneGrids, n, i, a, b) ==
                  if i == l && a == k && b == g then acc else Sample(previous, n, i, a, b)
        {
          StoreAt(previous, n, l, k, g, acc, i, a, b);
        }
      }
    }

    /** The innermost loop: row l of the matrix times the gathered samples. */
    method Row(n: nat, l: nat, ghost samples: nat -> Cx) returns (acc: Cx)
      requires l < n <= |scratch| && |mixing| == n * n
      requires forall i: nat :: i < n ==> scratch[i] == samples(i)
      ensures acc == Mixed(mixing, n, samples, l)
    {
      acc := ZERO;
      ghost var f := Contribution(mixing, n, samples, l);
      for c := 0 to n
        invariant acc == Sum(c, f)
      {
        acc := acc.Add(At(mixing, n, l, c).Mul(scratch[c]));
      }
    }

    /** Whether every lane's grid was built for this slot. */
    method CheckReady() returns (ok: bool)
      ensures ok <==> AllReady()
    {
      for l := 0 to lanes
        invariant forall i: nat :: i < l ==> Ready(i)
      {
        if l >= |laneReady| || !laneReady[l] {
          assert !Ready(l);
          return false;
        }
      }
      ok := true;
    }

    /** The loops over taps and grid points. */
    method MixAll(taps: nat, points: nat)
      requires Shaped(laneGrids, lanes) && |mixing| == lanes * lanes && |scratch| >= lanes
      requires taps == laneGrids[0][0].taps && points == laneGrids[0][0].points
      modifies this`laneGrids, this`scratch
      ensures Shaped(laneGrids, lanes) && SameElsewhere(old(laneGrids), laneGrids, lanes)
      ensures MixedUpTo(old(laneGrids), laneGrids, lanes, mixing, taps, 0)
    {
      hide SameShape, Sample, Point, Mixed, Store;
      ghost var before := laneGrids;
      for k := 0 to taps
        invariant |scratch| >= lanes && Shaped(laneGrids, lanes) && SameElsewhere(before, laneGrids, lanes)
        invariant MixedUpTo(before, laneGrids, lanes, mixing, k, 0)
      {
        for g := 0 to points
          invariant |scratch| >= lanes && Shaped(laneGrids, lanes) && SameElsewhere(before, laneGrids, lanes)
          invariant MixedUpTo(before, laneGrids, lanes, mixing, k, g)
        {
          ghost var previous := laneGrids;
          MixPoint(lanes, k, g);
          SameElsewhereTrans(before, previous, laneGrids, lanes);
          PointDone(before, previous, laneGrids, lanes, mixing, k, g);
        }
        TapDone(before, laneGrids, lanes, mixing, k);
      }
    }

    /** Replaces the grids w of the leading step by L w at every tap and point,
        or does nothing: without a matrix, or when a lane is missing. */
    method ApplyMixing() returns (ok: bool)
      requires mixing != [] && AllReady() ==> Shaped(laneGrids, lanes) && |mixing| == lanes * lanes
      modifies this`laneGrids, this`scratch
      ensures ok <==> mixing == [] || AllReady()
      ensures !ok || mixing == [] ==> laneGrids == old(laneGrids)
      ensures ok && mixing != [] ==>
                Shaped(laneGrids, lanes) && SameElsewhere(old(laneGrids), laneGrids, lanes) &&
                MixedUpTo(old(laneGrids), laneGrids, lanes, mixing, laneGrids[0][0].taps, 0)
    {
      if mixing == [] {
        return true;
      }
      ok := CheckReady();
      if !ok {
        return;
      }
      var taps, points := laneGrids[0][0].taps, laneGrids[0][0].points;
      if taps == 0 || points == 0 {
        return;
      }
      if |scratch| < lanes {
        scratch := scratch + seq(lanes - |scratch|, (_: nat) => ZERO);
      }
      MixAll(taps, points);
    }
  }
}
