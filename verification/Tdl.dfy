/** The tapped delay line of include/ocudu_gpu_channel/delay.h: an eight-tap
    filter per path over the slot and the history ring.  The filter coefficients
    are data; rounding is not modelled. */
module Tdl {
  import opened Complex

  const FILTER_TAPS := 8

  /** One path: its delay in samples, its complex gain, its filter. */
  datatype Tap = Tap(delay: real, gain: Cx, h: seq<real>) {
    function Whole(): int { delay.Floor }
  }

  ghost predicate ValidTaps(taps: seq<Tap>)
  {
    forall k: nat :: k < |taps| ==> taps[k].delay >= 0.0 && |taps[k].h| == FILTER_TAPS
  }

  function Ceiling(x: real): int { -(-x).Floor }

  /** The largest of the first k delays, and zero. */
  function Deepest(delays: seq<real>): (r: real)
    ensures r >= 0.0 && forall k: nat :: k < |delays| ==> delays[k] <= r
    ensures r == 0.0 || exists k: nat :: k < |delays| && delays[k] == r
  {
    if delays == [] then 0.0
    else
      var front, last := Deepest(delays[..|delays| - 1]), delays[|delays| - 1];
      assert forall k: nat :: k < |delays| - 1 ==> delays[..|delays| - 1][k] == delays[k];
      if last > front then last else front
  }

  /** The length a step's ring is given for its delays. */
  function RingSize(delays: seq<real>): (size: nat)
    ensures forall k: nat :: k < |delays| ==> size >= Ceiling(delays[k]) + FILTER_TAPS
  {
    CeilingMonotone(0.0, Deepest(delays));
    assert forall k: nat :: k < |delays| ==> Ceiling(delays[k]) <= Ceiling(Deepest(delays)) by {
      forall k: nat | k < |delays|
        ensures Ceiling(delays[k]) <= Ceiling(Deepest(delays))
      {
        CeilingMonotone(delays[k], Deepest(delays));
      }
    }
    Ceiling(Deepest(delays)) + FILTER_TAPS
  }

  function Delays(taps: seq<Tap>): seq<real>
  {
    seq(|taps|, (k: nat) requires k < |taps| => taps[k].delay)
  }

  // ------------------------------------------------------------------------
  // One output sample, as a function of the samples around it
  // ------------------------------------------------------------------------

  /** The filter of one path over f, where f(o) is the sample at offset o from
      the output position.  The first i coefficients. */
  function Filtered(tap: Tap, f: int -> Cx, i: nat): Cx
    requires i <= |tap.h|
  {
    if i == 0 then ZERO
    else Filtered(tap, f, i - 1).Add(f(3 - (i - 1) - tap.Whole()).Scale(tap.h[i - 1]))
  }

  /** One path's share of the output sample. */
  function Path(tap: Tap, f: int -> Cx): Cx
    requires |tap.h| == FILTER_TAPS
  {
    tap.gain.Mul(Filtered(tap, f, FILTER_TAPS))
  }

  /** The first k paths added up. */
  function Convolved(taps: seq<Tap>, f: int -> Cx, k: nat): Cx
    requires k <= |taps| && forall j: nat :: j < k ==> |taps[j].h| == FILTER_TAPS
  {
    if k == 0 then ZERO
    else Convolved(taps, f, k - 1).Add(Path(taps[k - 1], f))
  }

  /** The slot's own samples, the ring before them, zero outside both. */
  function Read(input: seq<Cx>, ring: seq<Cx>, index: int): Cx
  {
    if index >= |input| then ZERO
    else if index >= 0 then input[index]
    else if |ring| + index < 0 then ZERO
    else ring[|ring| + index]
  }

  /** What the filters see around sample n of the slot. */
  function Around(input: seq<Cx>, ring: seq<Cx>, n: nat): int -> Cx
  {
    (o: int) => Read(input, ring, n + o)
  }

  function SlotSample(taps: seq<Tap>, input: seq<Cx>, ring: seq<Cx>, n: nat): Cx
    requires forall j: nat :: j < |taps| ==> |taps[j].h| == FILTER_TAPS
  {
    Convolved(taps, Around(input, ring, n), |taps|)
  }

  function SlotOutput(taps: seq<Tap>, input: seq<Cx>, ring: seq<Cx>): (out: seq<Cx>)
    requires forall j: nat :: j < |taps| ==> |taps[j].h| == FILTER_TAPS
    ensures |out| == |input|
  {
    seq(|input|, (n: nat) requires n < |input| => SlotSample(taps, input, ring, n))
  }

  /** The ring after a slot. */
  function Rolled(ring: seq<Cx>, input: seq<Cx>): (r: seq<Cx>)
    ensures |r| == |ring|
  {
    if |input| >= |ring| then input[|input| - |ring|..] else ring[|input|..] + input
  }

  // ------------------------------------------------------------------------
  // The methods
  // ------------------------------------------------------------------------

  /** The length the ring must have for its deepest path. */
  ghost predicate LongEnough(taps: seq<Tap>, size: nat)
  {
    forall k: nat :: k < |taps| ==> size >= Ceiling(taps[k].delay) + FILTER_TAPS
  }

  /** Sizes the ring; a ring that is already long enough keeps its contents. */
  method PrepareTdlState(taps: seq<Tap>, delayLine: array<Cx>) returns (ring: array<Cx>)
    requires ValidTaps(taps)
    ensures LongEnough(taps, ring.Length)
    ensures delayLine.Length >= RingSize(Delays(taps)) ==> ring == delayLine
    ensures delayLine.Length < RingSize(Delays(taps)) ==>
              fresh(ring) && ring.Length == RingSize(Delays(taps)) && forall r: nat :: r < ring.Length ==> ring[r] == ZERO
    ensures unchanged(delayLine)
  {
    var maxTau := 0.0;
    ghost var delays := Delays(taps);
    for k := 0 to |taps|
      invariant maxTau == Deepest(delays[..k])
    {
      assert delays[..k + 1][..k] == delays[..k] && delays[..k + 1][k] == taps[k].delay;
      if taps[k].delay > maxTau {
        maxTau := taps[k].delay;
      }
    }
    assert delays[..|taps|] == delays;
    CeilingMonotone(0.0, maxTau);
    var size := Ceiling(maxTau) + FILTER_TAPS;
    assert size == RingSize(delays);
    assert forall k: nat :: k < |taps| ==> delays[k] == taps[k].delay;
    if delayLine.Length < size {
      ring := new Cx[size](_ => ZERO);
    } else {
      ring := delayLine;
    }
  }

  lemma {:induction false} CeilingMonotone(x: real, y: real)
    requires x <= y
    ensures Ceiling(x) <= Ceiling(y) && Ceiling(0.0) == 0
  {
  }

  method FilterTap(tap: Tap, input: seq<Cx>, delayLine: array<Cx>, n: nat) returns (x: Cx)
    requires |tap.h| == FILTER_TAPS
    ensures x == Filtered(tap, Around(input, delayLine[..], n), FILTER_TAPS)
  {
    ghost var f := Around(input, delayLine[..], n);
    x := ZERO;
    for i := 0 to FILTER_TAPS
      invariant x == Filtered(tap, f, i)
    {
      var index := n - tap.Whole() + 3 - i;
      var s := ZERO;
      if index >= |input| {
      } else if index >= 0 {
        s := input[index];
      } else if delayLine.Length + index >= 0 {
        s := delayLine[delayLine.Length + index];
      }
      assert s == Read(input, delayLine[..], index);
      assert index == n + (3 - i - tap.Whole());
      x := x.Add(s.Scale(tap.h[i]));
    }
  }

  /** The loop over the paths. */
  method AddTaps(input: seq<Cx>, taps: seq<Tap>, delayLine: array<Cx>, n: nat) returns (acc: Cx)
    requires ValidTaps(taps)
    ensures acc == SlotSample(taps, input, delayLine[..], n)
  {
    hide Cx.Mul;
    acc := ZERO;
    for k := 0 to |taps|
      invariant acc == Convolved(taps, Around(input, delayLine[..], n), k)
    {
      var x := FilterTap(taps[k], input, delayLine, n);
      acc := acc.Add(taps[k].gain.Mul(x));
    }
  }

  /** `calculate`: the samples of one range. */
  method Calculate(input: seq<Cx>, out: array<Cx>, taps: seq<Tap>, delayLine: array<Cx>, begin: nat, end: nat)
    requires ValidTaps(taps) && begin <= end <= |input| <= out.Length && out != delayLine
    modifies out
    ensures forall n: nat :: begin <= n < end ==> out[n] == SlotSample(taps, input, delayLine[..], n)
    ensures forall n: nat :: n < out.Length && !(begin <= n < end) ==> out[n] == old(out[n])
  {
    hide SlotSample;
    ghost var ring := delayLine[..];
    for n := begin to end
      invariant delayLine[..] == ring
      invariant forall m: nat :: begin <= m < n ==> out[m] == SlotSample(taps, input, ring, m)
      invariant forall m: nat :: m < out.Length && !(begin <= m < n) ==> out[m] == old(out[m])
    {
      var acc := AddTaps(input, taps, delayLine, n);
      out[n] := acc;
    }
  }

  /** std::move towards the front, element by element. */
  method ShiftFront(delayLine: array<Cx>, step: nat)
    requires step <= delayLine.Length
    modifies delayLine
    ensures delayLine[..delayLine.Length - step] == old(delayLine[step..])
  {
    ghost var kept := delayLine[step..];
    for r := 0 to delayLine.Length - step
      invariant delayLine[..r] == kept[..r]
      invariant delayLine[r + step..] == kept[r..]
    {
      assert delayLine[r + step..][0] == kept[r..][0];
      delayLine[r] := delayLine[r + step];
      assert delayLine[r + 1 + step..] == delayLine[r + step..][1..];
    }
  }

  /** std::copy of `source` to the positions from `at` on. */
  method CopyTo(source: seq<Cx>, delayLine: array<Cx>, at: nat)
    requires at + |source| <= delayLine.Length
    modifies delayLine
    ensures delayLine[..] == old(delayLine[..at]) + source + old(delayLine[at + |source|..])
  {
    for r := 0 to |source|
      invariant delayLine[..] == old(delayLine[..at]) + source[..r] + old(delayLine[at + r..])
    {
      delayLine[at + r] := source[r];
    }
  }

  /** The copies that shift the ring and append the slot. */
  method RollRing(input: seq<Cx>, delayLine: array<Cx>)
    modifies delayLine
    ensures delayLine[..] == Rolled(old(delayLine[..]), input)
  {
    var size := delayLine.Length;
    if |input| >= size {
      CopyTo(input[|input| - size..], delayLine, 0);
    } else {
      ShiftFront(delayLine, |input|);
      CopyTo(input, delayLine, size - |input|);
    }
  }

  datatype Range = Range(begin: nat, end: nat) {
    predicate Holds(n: nat) { begin <= n < end }
  }

  ghost predicate InSome(ranges: seq<Range>, n: nat)
  {
    exists i: nat :: i < |ranges| && ranges[i].Holds(n)
  }

  /** The ranges lie in [0, count) and leave nothing out. */
  ghost predicate Cover(ranges: seq<Range>, count: nat)
  {
    (forall i: nat :: i < |ranges| ==> ranges[i].begin <= ranges[i].end <= count) &&
    (forall n: nat :: n < count ==> InSome(ranges, n))
  }

  /** One slot, its samples calculated range by range in whatever order the
      executor runs them. */
  method ApplyTdlStep(input: seq<Cx>, out: array<Cx>, taps: seq<Tap>, delayLine: array<Cx>, ranges: seq<Range>)
    requires ValidTaps(taps) && |input| == out.Length && out != delayLine && Cover(ranges, |input|)
    modifies out, delayLine
    ensures out[..] == SlotOutput(taps, input, old(delayLine[..]))
    ensures delayLine[..] == Rolled(old(delayLine[..]), input)
  {
    for i := 0 to |ranges|
      invariant delayLine[..] == old(delayLine[..])
      invariant forall j: nat, n: nat :: j < i && ranges[j].Holds(n) ==>
                  out[n] == SlotSample(taps, input, old(delayLine[..]), n)
    {
      Calculate(input, out, taps, delayLine, ranges[i].begin, ranges[i].end);
    }
    forall n: nat | n < |input|
      ensures out[n] == SlotSample(taps, input, old(delayLine[..]), n)
    {
      assert InSome(ranges, n);
    }
    RollRing(input, delayLine);
  }

  lemma {:induction false} FilteredSame(tap: Tap, f: int -> Cx, g: int -> Cx, i: nat)
    requires i <= |tap.h|
    requires forall o: int :: 3 - i - tap.Whole() < o <= 3 - tap.Whole() ==> f(o) == g(o)
    ensures Filtered(tap, f, i) == Filtered(tap, g, i)
  {
    if i > 0 {
      FilteredSame(tap, f, g, i - 1);
    }
  }

  lemma {:induction false} ConvolvedSame(taps: seq<Tap>, f: int -> Cx, g: int -> Cx, k: nat)
    requires k <= |taps| && ValidTaps(taps)
    requires forall j: nat, o: int ::
               j < k && -5 - taps[j].Whole() < o <= 3 - taps[j].Whole() ==> f(o) == g(o)
    ensures Convolved(taps, f, k) == Convolved(taps, g, k)
  {
    if k > 0 {
      ConvolvedSame(taps, f, g, k - 1);
      FilteredSame(taps[k - 1], f, g, FILTER_TAPS);
    }
  }
}
