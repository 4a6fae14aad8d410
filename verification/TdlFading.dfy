/** The fading tap of apply_tdl_step_fading (include/ocudu_gpu_channel/delay.h):
    every path's gain moves with time, from an interpolated grid and, on a
    line-of-sight path, from a phase recurrence.  The product of the recurrence
    is a parameter, so that a rounded product is covered too. */
module TdlFading {
  import opened Complex
  import opened LinkFading
  import opened Tdl

  /** A path with its Rician parts: factors, start and per-sample step. */
  datatype FadingTap = FadingTap(tap: Tap, isLos: bool, losFactor: real, rayleighFactor: real, losStart: Cx, losStep: Cx)

  ghost predicate ValidFadingTaps(taps: seq<FadingTap>)
  {
    forall k: nat :: k < |taps| ==> taps[k].tap.delay >= 0.0 && |taps[k].tap.h| == FILTER_TAPS
  }

  /** The specular phase at sample n of the slot: n steps of the recurrence. */
  function LosAt(tap: FadingTap, product: (Cx, Cx) -> Cx, n: nat): Cx
  {
    if n == 0 then tap.losStart else product(LosAt(tap, product, n - 1), tap.losStep)
  }

  /** The grid has one row per path and covers `count` samples. */
  ghost predicate Covers(grid: FadingGrid, taps: nat, count: nat)
  {
    grid.taps == taps && grid.points >= 1 && grid.stride >= 1 && |grid.values| == grid.taps * grid.points &&
    (count == 0 || (count - 1) / grid.stride < grid.points)
  }

  lemma {:induction false} CoversSample(grid: FadingGrid, taps: nat, count: nat, n: nat)
    requires Covers(grid, taps, count) && n < count
    ensures n / grid.stride < grid.points
  {
    QuotientMonotone(n, count - 1, grid.stride);
  }

  lemma {:induction false} QuotientMonotone(a: nat, b: nat, d: nat)
    requires a <= b && d >= 1
    ensures a / d <= b / d
  {
    var q, r, q', r' := a / d, a % d, b / d, b % d;
    assert q > q' ==> (q' + 1) * d <= q * d;
  }

  /** Linear interpolation of row k at sample n. */
  function Rayleigh(grid: FadingGrid, k: nat, n: nat): Cx
    requires grid.stride >= 1 && k < grid.taps && n / grid.stride < grid.points && |grid.values| == grid.taps * grid.points
  {
    var low := n / grid.stride;
    var high := if low + 1 < grid.points - 1 then low + 1 else grid.points - 1;
    var frac := (n - low * grid.stride) as real / grid.stride as real;
    grid.values[Slot(grid, k, low)].Scale(1.0 - frac).Add(grid.values[Slot(grid, k, high)].Scale(frac))
  }

  /** The time-varying gain of path k at sample n, given its specular phase. */
  function Gain(tap: FadingTap, grid: FadingGrid, k: nat, n: nat, coefficient: Cx, los: Cx): Cx
    requires grid.stride >= 1 && k < grid.taps && n / grid.stride < grid.points && |grid.values| == grid.taps * grid.points
  {
    var rayleigh := Rayleigh(grid, k, n);
    if tap.isLos then coefficient.Mul(los).Scale(tap.losFactor).Add(rayleigh.Scale(tap.rayleighFactor))
    else rayleigh
  }

  /** Sample n of the slot, the first k paths. */
  function FadedSum(taps: seq<FadingTap>, grid: FadingGrid, coefficient: Cx, product: (Cx, Cx) -> Cx,
                    around: int -> Cx, n: nat, k: nat): Cx
    requires k <= |taps| == grid.taps && (forall j: nat :: j < |taps| ==> |taps[j].tap.h| == FILTER_TAPS)
    requires grid.stride >= 1 && n / grid.stride < grid.points && |grid.values| == grid.taps * grid.points
  {
    if k == 0 then ZERO
    else
      FadedSum(taps, grid, coefficient, product, around, n, k - 1).Add(
        Path(taps[k - 1].tap, around).Mul(
          Gain(taps[k - 1], grid, k - 1, n, coefficient, LosAt(taps[k - 1], product, n))))
  }

  ghost predicate Ready(taps: seq<FadingTap>, grid: FadingGrid, count: nat)
  {
    ValidFadingTaps(taps) && Covers(grid, |taps|, count)
  }

  /** Sample n of the faded slot. */
  ghost function FadedSample(taps: seq<FadingTap>, grid: FadingGrid, coefficient: Cx, product: (Cx, Cx) -> Cx,
                             input: seq<Cx>, ring: seq<Cx>, n: nat): Cx
    requires Ready(taps, grid, |input|) && n < |input|
  {
    CoversSample(grid, |taps|, |input|, n);
    FadedSum(taps, grid, coefficient, product, Around(input, ring, n), n, |taps|)
  }

  /** range_los holds every line-of-sight path's phase at sample n. */
  ghost predicate PhasesAt(taps: seq<FadingTap>, product: (Cx, Cx) -> Cx, los: seq<Cx>, n: nat)
  {
    |los| == |taps| && forall k: nat :: k < |taps| && taps[k].isLos ==> los[k] == LosAt(taps[k], product, n)
  }

  /** One step of every line-of-sight phase. */
  method Advance(taps: seq<FadingTap>, product: (Cx, Cx) -> Cx, before: seq<Cx>, ghost n: nat) returns (los: seq<Cx>)
    requires PhasesAt(taps, product, before, n)
    ensures PhasesAt(taps, product, los, n + 1)
  {
    los := before;
    for k := 0 to |taps|
      invariant |los| == |taps|
      invariant forall j: nat :: j < k && taps[j].isLos ==> los[j] == LosAt(taps[j], product, n + 1)
      invariant forall j: nat :: k <= j < |taps| ==> los[j] == before[j]
    {
      if taps[k].isLos {
        los := los[k := product(los[k], taps[k].losStep)];
      }
    }
  }

  /** The replay at a range boundary: the phases at sample `begin`. */
  method Replay(taps: seq<FadingTap>, product: (Cx, Cx) -> Cx, begin: nat) returns (los: seq<Cx>)
    ensures PhasesAt(taps, product, los, begin)
  {
    los := seq(|taps|, (k: nat) requires k < |taps| => taps[k].losStart);
    var hasLos := exists k | 0 <= k < |taps| :: taps[k].isLos;
    if hasLos {
      for n := 0 to begin
        invariant PhasesAt(taps, product, los, n)
      {
        los := Advance(taps, product, los, n);
      }
    }
  }

  /** The loop over the paths at one sample. */
  method AddFadingTaps(input: seq<Cx>, taps: seq<FadingTap>, grid: FadingGrid, coefficient: Cx, ghost product: (Cx, Cx) -> Cx,
                       delayLine: array<Cx>, los: seq<Cx>, n: nat) returns (acc: Cx)
    requires Ready(taps, grid, |input|) && n < |input| && PhasesAt(taps, product, los, n)
    ensures acc == FadedSample(taps, grid, coefficient, product, input, delayLine[..], n)
  {
    hide Cx.Mul, Cx.Scale, Cx.Add, Rayleigh;
    CoversSample(grid, |taps|, |input|, n);
    acc := ZERO;
    for k := 0 to |taps|
      invariant acc == FadedSum(taps, grid, coefficient, product, Around(input, delayLine[..], n), n, k)
    {
      var x := FilterTap(taps[k].tap, input, delayLine, n);
      var gain := Gain(taps[k], grid, k, n, coefficient, los[k]);
      acc := acc.Add(taps[k].tap.gain.Mul(x).Mul(gain));
    }
  }

  /** `calculate`: the samples of one range, from the replayed phases. */
  method CalculateFading(input: seq<Cx>, out: array<Cx>, taps: seq<FadingTap>, grid: FadingGrid, coefficient: Cx,
                         product: (Cx, Cx) -> Cx, delayLine: array<Cx>, begin: nat, end: nat)
    requires Ready(taps, grid, |input|) && begin <= end <= |input| == out.Length && out != delayLine
    modifies out
    ensures forall n: nat :: begin <= n < end ==>
              out[n] == FadedSample(taps, grid, coefficient, product, input, delayLine[..], n)
    ensures forall n: nat :: n < out.Length && !(begin <= n < end) ==> out[n] == old(out[n])
  {
    hide FadedSum, LosAt;
    ghost var ring := delayLine[..];
    var los := Replay(taps, product, begin);
    for n := begin to end
      invariant delayLine[..] == ring && PhasesAt(taps, product, los, n)
      invariant forall m: nat :: begin <= m < n ==> out[m] == FadedSample(taps, grid, coefficient, product, input, ring, m)
      invariant forall m: nat :: m < out.Length && !(begin <= m < n) ==> out[m] == old(out[m])
    {
      var acc := AddFadingTaps(input, taps, grid, coefficient, product, delayLine, los, n);
      out[n] := acc;
      los := Advance(taps, product, los, n);
    }
  }

  /** One slot.  Whatever ranges the executor cut, and in whatever order it ran
      them, every sample is the one the serial loop gives; a grid of the wrong
      shape is refused before anything is written. */
  method ApplyTdlStepFading(input: seq<Cx>, out: array<Cx>, taps: seq<FadingTap>, grid: FadingGrid, coefficient: Cx,
                            product: (Cx, Cx) -> Cx, delayLine: array<Cx>, ranges: seq<Range>) returns (ok: bool)
    requires ValidFadingTaps(taps) && |input| == out.Length && out != delayLine && Cover(ranges, |input|)
    requires grid.taps == |taps| && grid.points != 0 ==> Covers(grid, |taps|, |input|)
    modifies out, delayLine
    ensures ok <==> grid.taps == |taps| && grid.points != 0
    ensures ok ==> forall n: nat :: n < |input| ==>
              out[n] == FadedSample(taps, grid, coefficient, product, input, old(delayLine[..]), n)
    ensures delayLine[..] == if ok then Rolled(old(delayLine[..]), input) else old(delayLine[..])
    ensures !ok ==> out[..] == old(out[..])
  {
    hide FadedSample;
    if grid.taps != |taps| || grid.points == 0 {
      return false;
    }
    ghost var ring := delayLine[..];
    for i := 0 to |ranges|
      invariant delayLine[..] == ring
      invariant forall j: nat, n: nat :: j < i && ranges[j].Holds(n) ==>
                  out[n] == FadedSample(taps, grid, coefficient, product, input, ring, n)
    {
      CalculateFading(input, out, taps, grid, coefficient, product, delayLine, ranges[i].begin, ranges[i].end);
    }
    forall n: nat | n < |input|
      ensures out[n] == FadedSample(taps, grid, coefficient, product, input, ring, n)
    {
      assert InSome(ranges, n);
    }
    RollRing(input, delayLine);
    ok := true;
  }
}
