/** Slot by slot against the whole stream: for which taps the concatenated slot
    outputs are one convolution, whatever the cut. */
module TdlStream {
  import opened Complex
  import opened Tdl

  /** The stream with silence before it and after it. */
  function Sample(stream: seq<Cx>, m: int): Cx
  {
    if 0 <= m < |stream| then stream[m] else ZERO
  }

  function StreamAround(stream: seq<Cx>, n: int): int -> Cx
  {
    (o: int) => Sample(stream, n + o)
  }

  /** y[n] of the convolution over the whole stream. */
  function WholeSample(taps: seq<Tap>, stream: seq<Cx>, n: int): Cx
    requires forall j: nat :: j < |taps| ==> |taps[j].h| == FILTER_TAPS
  {
    Convolved(taps, StreamAround(stream, n), |taps|)
  }

  function Concat(slots: seq<seq<Cx>>): seq<Cx>
  {
    if slots == [] then [] else slots[0] + Concat(slots[1..])
  }

  /** The outputs of successive calls, the ring carried from one to the next. */
  function Run(taps: seq<Tap>, slots: seq<seq<Cx>>, ring: seq<Cx>): seq<Cx>
    requires forall j: nat :: j < |taps| ==> |taps[j].h| == FILTER_TAPS
  {
    if slots == [] then [] else SlotOutput(taps, slots[0], ring) + Run(taps, slots[1..], Rolled(ring, slots[0]))
  }

  /** The last `size` samples of the history, silence before its start. */
  function Tail(history: seq<Cx>, size: nat): (ring: seq<Cx>)
    ensures |ring| == size
  {
    seq(size, (r: nat) requires r < size => Sample(history, |history| - size + r))
  }

  /** The ring always holds the last samples of everything received. */
  lemma {:induction false} RolledIsTail(history: seq<Cx>, size: nat, input: seq<Cx>)
    ensures Rolled(Tail(history, size), input) == Tail(history + input, size)
  {
    var rolled, tail := Rolled(Tail(history, size), input), Tail(history + input, size);
    forall r: nat | r < size
      ensures rolled[r] == tail[r]
    {
      var m := |history| + |input| - size + r;
      assert tail[r] == Sample(history + input, m);
      if r < size - |input| {
        assert rolled[r] == Tail(history, size)[|input| + r] == Sample(history, m);
      }
    }
  }

  /** For any ring, made for the path or not: no read falls before it exactly
      when it is four samples longer than the path's whole delay. */
  lemma {:induction false} ReadsStayIff(tap: Tap, size: nat)
    ensures (forall n: nat, i: nat {:trigger Reads(tap, n, i)} :: i < FILTER_TAPS ==> size + Reads(tap, n, i) >= 0) <==>
            size >= tap.Whole() + 4
  {
    assert Reads(tap, 0, 7) == -tap.Whole() - 4;
  }

  /** The index that coefficient i of sample n reads. */
  function Reads(tap: Tap, n: int, i: int): int { n - tap.Whole() + 3 - i }

  /** With a ring long enough no read falls before it. */
  lemma {:induction false} ReadInRing(taps: seq<Tap>, size: nat, k: nat, n: nat, i: nat)
    requires ValidTaps(taps) && LongEnough(taps, size) && k < |taps| && i < FILTER_TAPS
    ensures size + (n - taps[k].Whole() + 3 - i) >= 0
  {
  }

  // ------------------------------------------------------------------------
  // Look-ahead
  // ------------------------------------------------------------------------

  /** What one path's filter applies to the sample m positions ahead of n; the
      first i coefficients. */
  function Coefficient(tap: Tap, m: int, i: nat): real
    requires i <= |tap.h|
  {
    if i == 0 then 0.0
    else Coefficient(tap, m, i - 1) + (if 3 - (i - 1) - tap.Whole() == m then tap.h[i - 1] else 0.0)
  }

  /** The first k paths together: the effective coefficient at look-ahead m. */
  function LookAhead(taps: seq<Tap>, m: int, k: nat): Cx
    requires k <= |taps| && forall j: nat :: j < k ==> |taps[j].h| == FILTER_TAPS
  {
    if k == 0 then ZERO
    else LookAhead(taps, m, k - 1).Add(taps[k - 1].gain.Scale(Coefficient(taps[k - 1], m, FILTER_TAPS)))
  }

  /** Nothing ahead of the current sample contributes. */
  ghost predicate Causal(taps: seq<Tap>)
    requires ValidTaps(taps)
  {
    LookAhead(taps, 1, |taps|) == ZERO && LookAhead(taps, 2, |taps|) == ZERO && LookAhead(taps, 3, |taps|) == ZERO
  }

  /** f is silent except one to three samples ahead. */
  ghost predicate OnlyAhead(f: int -> Cx)
  {
    forall o: int :: !(1 <= o <= 3) ==> f(o) == ZERO
  }

  function Three(a: Cx, x: Cx, b: Cx, y: Cx, c: Cx, z: Cx): Cx
  {
    a.Mul(x).Add(b.Mul(y)).Add(c.Mul(z))
  }

  lemma {:induction false} ThreeZeros(x: Cx, y: Cx, z: Cx)
    ensures Three(ZERO, x, ZERO, y, ZERO, z) == ZERO
  {
  }

  lemma {:induction false} FilteredAhead(tap: Tap, f: int -> Cx, i: nat)
    requires OnlyAhead(f) && i <= |tap.h|
    ensures Filtered(tap, f, i) ==
            f(1).Scale(Coefficient(tap, 1, i)).Add(f(2).Scale(Coefficient(tap, 2, i))).Add(f(3).Scale(Coefficient(tap, 3, i)))
  {
    hide Cx.Scale;
    if i == 0 {
      ScaleZero(f(1));
      ScaleZero(f(2));
      ScaleZero(f(3));
    } else {
      FilteredAhead(tap, f, i - 1);
      var o, h := 3 - (i - 1) - tap.Whole(), tap.h[i - 1];
      ScaleSplit(f(1), Coefficient(tap, 1, i - 1), if o == 1 then h else 0.0);
      ScaleSplit(f(2), Coefficient(tap, 2, i - 1), if o == 2 then h else 0.0);
      ScaleSplit(f(3), Coefficient(tap, 3, i - 1), if o == 3 then h else 0.0);
      ScaleZero(f(1));
      ScaleZero(f(2));
      ScaleZero(f(3));
      assert ZERO.Scale(h) == ZERO by { ScaleOfZero(h); }
    }
  }

  lemma {:induction false} ScaleZero(x: Cx)
    ensures x.Scale(0.0) == ZERO
  {
  }

  lemma {:induction false} ScaleOfZero(k: real)
    ensures ZERO.Scale(k) == ZERO
  {
  }

  lemma {:induction false} ScaleSplit(x: Cx, a: real, b: real)
    ensures x.Scale(a + b) == x.Scale(a).Add(x.Scale(b))
  {
  }

  lemma {:induction false} ScaleSum(x: Cx, y: Cx, k: real)
    ensures x.Add(y).Scale(k) == x.Scale(k).Add(y.Scale(k))
  {
  }

  lemma {:induction false} ConvolvedAhead(taps: seq<Tap>, f: int -> Cx, k: nat)
    requires OnlyAhead(f) && k <= |taps| && ValidTaps(taps)
    ensures Convolved(taps, f, k) ==
            Three(LookAhead(taps, 1, k), f(1), LookAhead(taps, 2, k), f(2), LookAhead(taps, 3, k), f(3))
  {
    if k > 0 {
      ConvolvedAhead(taps, f, k - 1);
      var tap := taps[k - 1];
      FilteredAhead(tap, f, FILTER_TAPS);
      ThreeStep(tap.gain, f(1), f(2), f(3), Coefficient(tap, 1, FILTER_TAPS), Coefficient(tap, 2, FILTER_TAPS),
                Coefficient(tap, 3, FILTER_TAPS), LookAhead(taps, 1, k - 1), LookAhead(taps, 2, k - 1), LookAhead(taps, 3, k - 1));
    }
  }

  lemma {:induction false} OneStep(g: Cx, x: Cx, p: real, a: Cx)
    ensures a.Mul(x).Add(g.Mul(x.Scale(p))) == a.Add(g.Scale(p)).Mul(x)
  {
  }

  lemma {:induction false} MulSum(g: Cx, u: Cx, v: Cx)
    ensures g.Mul(u.Add(v)) == g.Mul(u).Add(g.Mul(v))
  {
  }

  lemma {:induction false} SpreadGain(g: Cx, u: Cx, v: Cx, w: Cx)
    ensures g.Mul(u.Add(v).Add(w)) == g.Mul(u).Add(g.Mul(v)).Add(g.Mul(w))
  {
  }

  lemma {:induction false} ThreeStep(g: Cx, x: Cx, y: Cx, z: Cx, p: real, q: real, r: real, a: Cx, b: Cx, c: Cx)
    ensures Three(a, x, b, y, c, z).Add(g.Mul(x.Scale(p).Add(y.Scale(q)).Add(z.Scale(r)))) ==
            Three(a.Add(g.Scale(p)), x, b.Add(g.Scale(q)), y, c.Add(g.Scale(r)), z)
  {
    hide Cx.Mul, Cx.Scale;
    SpreadGain(g, x.Scale(p), y.Scale(q), z.Scale(r));
    OneStep(g, x, p, a);
    OneStep(g, y, q, b);
    OneStep(g, z, r, c);
  }

  // ------------------------------------------------------------------------
  // One slot
  // ------------------------------------------------------------------------

  lemma {:induction false} FilteredAdds(tap: Tap, f: int -> Cx, d: int -> Cx, g: int -> Cx, i: nat)
    requires i <= |tap.h|
    requires forall o: int :: 3 - i - tap.Whole() < o <= 3 - tap.Whole() ==> g(o) == f(o).Add(d(o))
    ensures Filtered(tap, g, i) == Filtered(tap, f, i).Add(Filtered(tap, d, i))
  {
    hide Cx.Scale;
    if i > 0 {
      FilteredAdds(tap, f, d, g, i - 1);
      var o := 3 - (i - 1) - tap.Whole();
      ScaleSum(f(o), d(o), tap.h[i - 1]);
    }
  }

  /** g is f plus d wherever the path looks. */
  ghost predicate AddsUp(tap: Tap, f: int -> Cx, d: int -> Cx, g: int -> Cx)
  {
    forall o: int :: -5 - tap.Whole() < o <= 3 - tap.Whole() ==> g(o) == f(o).Add(d(o))
  }

  lemma {:induction false} ConvolvedAdds(taps: seq<Tap>, f: int -> Cx, d: int -> Cx, g: int -> Cx, k: nat)
    requires k <= |taps| && ValidTaps(taps) && forall j: nat :: j < k ==> AddsUp(taps[j], f, d, g)
    ensures Convolved(taps, g, k) == Convolved(taps, f, k).Add(Convolved(taps, d, k))
  {
    hide Path, AddsUp, Cx.Add, Cx.Mul;
    if k == 0 {
      AddLaws(ZERO, ZERO, ZERO, ZERO);
    } else {
      ConvolvedAdds(taps, f, d, g, k - 1);
      PathAdds(taps[k - 1], f, d, g);
      AddLaws(Convolved(taps, f, k - 1), Convolved(taps, d, k - 1), Path(taps[k - 1], f), Path(taps[k - 1], d));
    }
  }

  lemma {:induction false} AddLaws(a: Cx, b: Cx, x: Cx, y: Cx)
    ensures a.Add(b).Add(x.Add(y)) == a.Add(x).Add(b.Add(y))
    ensures ZERO.Add(ZERO) == ZERO
  {
  }

  lemma {:induction false} PathAdds(tap: Tap, f: int -> Cx, d: int -> Cx, g: int -> Cx)
    requires |tap.h| == FILTER_TAPS && AddsUp(tap, f, d, g)
    ensures Path(tap, g) == Path(tap, f).Add(Path(tap, d))
  {
    hide Cx.Mul;
    FilteredAdds(tap, f, d, g, FILTER_TAPS);
    MulSum(tap.gain, Filtered(tap, f, FILTER_TAPS), Filtered(tap, d, FILTER_TAPS));
  }

  /** The samples the slot call does not have yet: those past the slot's end. */
  function Missing(stream: seq<Cx>, n: int, end: int): int -> Cx
  {
    (o: int) => if 1 <= o <= 3 && n + o >= end then Sample(stream, n + o) else ZERO
  }

  lemma {:induction false} WindowAdds(tap: Tap, history: seq<Cx>, input: seq<Cx>, rest: seq<Cx>, size: nat, n: nat)
    requires tap.delay >= 0.0 && size >= Ceiling(tap.delay) + FILTER_TAPS && n < |input|
    ensures AddsUp(tap, Around(input, Tail(history, size), n), Missing(history + input + rest, |history| + n, |history| + |input|),
                   StreamAround(history + input + rest, |history| + n))
  {
    hide Tail, Sample, Read;
    WholeBelowCeiling(tap.delay);
    forall o: int | -5 - tap.Whole() < o <= 3 - tap.Whole()
      ensures StreamAround(history + input + rest, |history| + n)(o) ==
              Around(input, Tail(history, size), n)(o).Add(Missing(history + input + rest, |history| + n, |history| + |input|)(o))
    {
      SampleAround(history, input, rest, size, n, o);
    }
  }

  /** A slot's output and the whole convolution differ by what is missing. */
  lemma {:induction false} SlotAgainstWhole(taps: seq<Tap>, history: seq<Cx>, input: seq<Cx>, rest: seq<Cx>, size: nat, n: nat)
    requires ValidTaps(taps) && LongEnough(taps, size) && n < |input|
    ensures var stream := history + input + rest;
            WholeSample(taps, stream, |history| + n) ==
            SlotSample(taps, input, Tail(history, size), n).Add(
              Convolved(taps, Missing(stream, |history| + n, |history| + |input|), |taps|))
  {
    hide Convolved, Tail, Around, StreamAround, Missing, AddsUp, Ceiling;
    var stream, ring := history + input + rest, Tail(history, size);
    var at, end := |history| + n, |history| + |input|;
    var f, g, d := Around(input, ring, n), StreamAround(stream, at), Missing(stream, at, end);
    forall j: nat | j < |taps|
      ensures AddsUp(taps[j], f, d, g)
    {
      WindowAdds(taps[j], history, input, rest, size, n);
    }
    ConvolvedAdds(taps, f, d, g, |taps|);
  }

  lemma {:induction false} WholeBelowCeiling(x: real)
    ensures x.Floor <= Ceiling(x)
  {
  }

  lemma {:induction false} SampleAround(history: seq<Cx>, input: seq<Cx>, rest: seq<Cx>, size: nat, n: nat, o: int)
    requires n < |input| && o <= 3 && size + o >= 0
    ensures var stream := history + input + rest;
            Sample(stream, |history| + n + o) ==
            Read(input, Tail(history, size), n + o).Add(
              Missing(stream, |history| + n, |history| + |input|)(o))
  {
    var stream := history + input + rest;
    if n + o < 0 {
      assert Tail(history, size)[size + n + o] == Sample(history, |history| + n + o);
    }
  }

  /** Causal taps never notice the slot's end. */
  lemma {:induction false} CausalSlot(taps: seq<Tap>, history: seq<Cx>, input: seq<Cx>, rest: seq<Cx>, size: nat)
    requires ValidTaps(taps) && LongEnough(taps, size) && Causal(taps)
    ensures forall n: nat :: n < |input| ==>
              SlotOutput(taps, input, Tail(history, size))[n] == WholeSample(taps, history + input + rest, |history| + n)
  {
    hide Convolved, LookAhead, Three, Sample, Tail;
    forall n: nat | n < |input|
      ensures SlotOutput(taps, input, Tail(history, size))[n] == WholeSample(taps, history + input + rest, |history| + n)
    {
      SlotAgainstWhole(taps, history, input, rest, size, n);
      var d := Missing(history + input + rest, |history| + n, |history| + |input|);
      ConvolvedAhead(taps, d, |taps|);
      ThreeZeros(d(1), d(2), d(3));
    }
  }

  /** out is the convolution of the stream from position `from` on. */
  ghost predicate IsWhole(taps: seq<Tap>, out: seq<Cx>, stream: seq<Cx>, from: nat)
    requires ValidTaps(taps)
  {
    forall n: nat :: n < |out| ==> out[n] == WholeSample(taps, stream, from + n)
  }

  lemma {:induction false} JoinWhole(taps: seq<Tap>, first: seq<Cx>, later: seq<Cx>, stream: seq<Cx>, from: nat)
    requires ValidTaps(taps) && IsWhole(taps, first, stream, from) && IsWhole(taps, later, stream, from + |first|)
    ensures IsWhole(taps, first + later, stream, from)
  {
    hide WholeSample;
    forall n: nat | n < |first| + |later|
      ensures (first + later)[n] == WholeSample(taps, stream, from + n)
    {
      if n >= |first| {
        assert later[n - |first|] == WholeSample(taps, stream, from + |first| + (n - |first|));
      }
    }
  }

  lemma {:induction false} CausalRun(taps: seq<Tap>, history: seq<Cx>, slots: seq<seq<Cx>>, size: nat)
    requires ValidTaps(taps) && LongEnough(taps, size) && Causal(taps)
    ensures |Run(taps, slots, Tail(history, size))| == |Concat(slots)|
    ensures IsWhole(taps, Run(taps, slots, Tail(history, size)), history + Concat(slots), |history|)
    decreases |slots|
  {
    hide Causal, LongEnough, WholeSample, SlotOutput, Tail, Rolled, IsWhole;
    if slots == [] {
      NothingIsWhole(taps, history + Concat(slots), |history|);
    } else {
      var input, later := slots[0], Concat(slots[1..]);
      CausalSlotIsWhole(taps, history, input, later, size);
      RolledIsTail(history, size, input);
      CausalRun(taps, history + input, slots[1..], size);
      assert history + Concat(slots) == history + input + later;
      JoinWhole(taps, SlotOutput(taps, input, Tail(history, size)), Run(taps, slots[1..], Tail(history + input, size)),
                history + input + later, |history|);
    }
  }

  lemma {:induction false} NothingIsWhole(taps: seq<Tap>, stream: seq<Cx>, from: nat)
    requires ValidTaps(taps)
    ensures IsWhole(taps, [], stream, from)
  {
  }

  lemma {:induction false} CausalSlotIsWhole(taps: seq<Tap>, history: seq<Cx>, input: seq<Cx>, rest: seq<Cx>, size: nat)
    requires ValidTaps(taps) && LongEnough(taps, size) && Causal(taps)
    ensures IsWhole(taps, SlotOutput(taps, input, Tail(history, size)), history + input + rest, |history|)
  {
    hide WholeSample, Causal, LongEnough, ValidTaps;
    CausalSlot(taps, history, input, rest, size);
  }

  /** The output of the whole stream in one convolution with no history. */
  function WholeOutput(taps: seq<Tap>, stream: seq<Cx>): seq<Cx>
    requires forall j: nat :: j < |taps| ==> |taps[j].h| == FILTER_TAPS
  {
    seq(|stream|, (n: nat) requires n < |stream| => WholeSample(taps, stream, n))
  }

  /** A unit impulse at position m. */
  function ImpulseAt(length: nat, m: nat): seq<Cx> { seq(length, (j: nat) => if j == m then ONE else ZERO) }

  /** What the first k paths make of an impulse `lag` samples earlier: each path
      with its coefficient of that lag, if it has one. */
  function Response(taps: seq<Tap>, lag: int, k: nat): Cx
    requires k <= |taps| && forall j: nat :: j < |taps| ==> |taps[j].h| == FILTER_TAPS
  {
    if k == 0 then ZERO
    else
      var tap := taps[k - 1];
      var i := lag - tap.delay.Floor + 3;
      Response(taps, lag, k - 1).Add(if 0 <= i < FILTER_TAPS then tap.gain.Scale(tap.h[i]) else ZERO)
  }

  lemma {:induction false} FilteredOne(tap: Tap, f: int -> Cx, lag: int, i: nat)
    requires i <= |tap.h| && forall o: int :: f(o) == if o == -lag then ONE else ZERO
    ensures var c := lag - tap.delay.Floor + 3;
            Filtered(tap, f, i) == if 0 <= c < i then ONE.Scale(tap.h[c]) else ZERO
  {
    hide Cx.Scale;
    if i > 0 {
      FilteredOne(tap, f, lag, i - 1);
      ScaleOfZero(tap.h[i - 1]);
      AddZero(ONE.Scale(tap.h[i - 1]));
      if 0 <= lag - tap.delay.Floor + 3 < i - 1 {
        AddZero(ONE.Scale(tap.h[lag - tap.delay.Floor + 3]));
      }
    }
  }

  lemma {:induction false} AddZero(a: Cx)
    ensures a.Add(ZERO) == a && ZERO.Add(a) == a && a.Mul(ZERO) == ZERO
  {
  }

  lemma {:induction false} GainTimes(g: Cx, h: real)
    ensures g.Mul(ONE.Scale(h)) == g.Scale(h)
  {
  }

  lemma {:induction false} ConvolvedOne(taps: seq<Tap>, f: int -> Cx, lag: int, k: nat)
    requires k <= |taps| && forall j: nat :: j < |taps| ==> |taps[j].h| == FILTER_TAPS
    requires forall o: int :: f(o) == if o == -lag then ONE else ZERO
    ensures Convolved(taps, f, k) == Response(taps, lag, k)
  {
    hide Cx.Mul, Cx.Scale, Cx.Add;
    if k > 0 {
      ConvolvedOne(taps, f, lag, k - 1);
      var tap := taps[k - 1];
      FilteredOne(tap, f, lag, FILTER_TAPS);
      AddZero(tap.gain);
      if 0 <= lag - tap.delay.Floor + 3 < FILTER_TAPS {
        GainTimes(tap.gain, tap.h[lag - tap.delay.Floor + 3]);
      }
    }
  }

  /** The impulse response: coefficient n - m - floor(tau) + 3 of every path. */
  lemma {:induction false} ImpulseResponse(taps: seq<Tap>, length: nat, m: nat, n: nat)
    requires m < length && n < length && forall j: nat :: j < |taps| ==> |taps[j].h| == FILTER_TAPS
    ensures WholeOutput(taps, ImpulseAt(length, m))[n] == Response(taps, n - m, |taps|)
  {
    hide Convolved, Response;
    var stream := ImpulseAt(length, m);
    var f, lag := StreamAround(stream, n), n - m;
    forall o: int
      ensures f(o) == if o == -lag then ONE else ZERO
    {
      assert f(o) == Sample(stream, n + o);
    }
    ConvolvedOne(taps, f, lag, |taps|);
  }

  /** However the stream is cut into slots, the outputs joined together are the
      convolution of the stream. */
  ghost predicate CutInvisible(taps: seq<Tap>, size: nat)
    requires ValidTaps(taps)
  {
    forall slots: seq<seq<Cx>> :: Run(taps, slots, Tail([], size)) == WholeOutput(taps, Concat(slots))
  }

  /** An impulse m samples after the first, cut off from it. */
  function Probe(m: nat): seq<seq<Cx>>
    requires m >= 1
  {
    [[ZERO], seq(m, (j: nat) => if j == m - 1 then ONE else ZERO)]
  }

  lemma {:induction false} ProbeStream(m: nat)
    requires m >= 1
    ensures |Concat(Probe(m))| == m + 1 && Concat(Probe(m)) == [] + [ZERO] + Probe(m)[1]
    ensures forall j: int :: Sample(Concat(Probe(m)), j) == if j == m then ONE else ZERO
  {
    assert Probe(m)[1..] == [Probe(m)[1]];
    assert Concat([Probe(m)[1]]) == Probe(m)[1] + Concat([]);
  }

  /** The first slot of the probe is silent, so the whole convolution at 0 is
      exactly the look-ahead coefficient. */
  lemma {:induction false} ProbeShowsLookAhead(taps: seq<Tap>, size: nat, m: nat)
    requires ValidTaps(taps) && LongEnough(taps, size) && 1 <= m <= 3
    requires Run(taps, Probe(m), Tail([], size)) == WholeOutput(taps, Concat(Probe(m)))
    ensures LookAhead(taps, m, |taps|) == ZERO
  {
    hide Convolved, LookAhead;
    var stream := Concat(Probe(m));
    ProbeStream(m);
    SlotAgainstWhole(taps, [], [ZERO], Probe(m)[1], size, 0);
    var d := Missing(stream, 0, 1);
    ConvolvedAhead(taps, d, |taps|);
    assert Run(taps, Probe(m), Tail([], size))[0] == SlotSample(taps, [ZERO], Tail([], size), 0);
    assert WholeOutput(taps, stream)[0] == WholeSample(taps, stream, 0);
    assert forall o: int :: 1 <= o <= 3 ==> d(o) == if o == m then ONE else ZERO;
    OneOfThree(LookAhead(taps, 1, |taps|), LookAhead(taps, 2, |taps|), LookAhead(taps, 3, |taps|), m);
  }

  lemma {:induction false} OneOfThree(a: Cx, b: Cx, c: Cx, m: nat)
    requires 1 <= m <= 3
    ensures Three(a, if m == 1 then ONE else ZERO, b, if m == 2 then ONE else ZERO, c, if m == 3 then ONE else ZERO) ==
            if m == 1 then a else if m == 2 then b else c
  {
  }

  /** Slot-wise equals whole-stream for every stream and every cut exactly when
      the effective look-ahead coefficients vanish. */
  lemma {:induction false} CutInvisibleIffCausal(taps: seq<Tap>, size: nat)
    requires ValidTaps(taps) && LongEnough(taps, size)
    ensures CutInvisible(taps, size) <==> Causal(taps)
  {
    hide Convolved, LookAhead, Run, WholeSample, Tail;
    if Causal(taps) {
      forall slots: seq<seq<Cx>>
        ensures Run(taps, slots, Tail([], size)) == WholeOutput(taps, Concat(slots))
      {
        CausalRun(taps, [], slots, size);
        assert [] + Concat(slots) == Concat(slots);
        var out := Run(taps, slots, Tail([], size));
        assert forall n: nat :: n < |out| ==> out[n] == WholeSample(taps, Concat(slots), 0 + n);
      }
    }
    if CutInvisible(taps, size) {
      ProbeShowsLookAhead(taps, size, 1);
      ProbeShowsLookAhead(taps, size, 2);
      ProbeShowsLookAhead(taps, size, 3);
    }
  }

  // ------------------------------------------------------------------------
  // Configurations that are causal
  // ------------------------------------------------------------------------

  /** The filter of a whole-sample delay is a unit impulse at position 3. */
  ghost predicate Impulse(h: seq<real>)
  {
    |h| == FILTER_TAPS && forall i: nat :: i < FILTER_TAPS ==> h[i] == if i == 3 then 1.0 else 0.0
  }

  lemma {:induction false} NoCoefficientAhead(tap: Tap, m: int, i: nat)
    requires m >= 1 && i <= |tap.h| == FILTER_TAPS && tap.delay >= 0.0
    requires tap.Whole() >= 3 || Impulse(tap.h)
    ensures Coefficient(tap, m, i) == 0.0
  {
    if i > 0 {
      NoCoefficientAhead(tap, m, i - 1);
    }
  }

  lemma {:induction false} DeepOrWholeIsCausal(taps: seq<Tap>, m: int, k: nat)
    requires ValidTaps(taps) && k <= |taps| && m >= 1
    requires forall j: nat :: j < |taps| ==> taps[j].Whole() >= 3 || Impulse(taps[j].h)
    ensures LookAhead(taps, m, k) == ZERO
  {
    if k > 0 {
      DeepOrWholeIsCausal(taps, m, k - 1);
      NoCoefficientAhead(taps[k - 1], m, FILTER_TAPS);
    }
  }

  /** Every path at least three samples deep, or a whole number of samples. */
  lemma {:induction false} CutInvisibleWhenDeepOrWhole(taps: seq<Tap>, size: nat)
    requires ValidTaps(taps) && LongEnough(taps, size)
    requires forall j: nat :: j < |taps| ==> taps[j].Whole() >= 3 || Impulse(taps[j].h)
    ensures CutInvisible(taps, size)
  {
    DeepOrWholeIsCausal(taps, 1, |taps|);
    DeepOrWholeIsCausal(taps, 2, |taps|);
    DeepOrWholeIsCausal(taps, 3, |taps|);
    CutInvisibleIffCausal(taps, size);
  }

  /** A single path with a half-sample delay: any filter that is not an impulse
      makes the cut audible. */
  lemma {:induction false} FractionalPathShowsTheCut(h: seq<real>, size: nat)
    requires |h| == FILTER_TAPS && size >= 9 && (h[0] != 0.0 || h[1] != 0.0 || h[2] != 0.0)
    ensures !CutInvisible([Tap(0.5, ONE, h)], size)
  {
    hide LookAhead, CutInvisible;
    var tap := Tap(0.5, ONE, h);
    assert tap.Whole() == 0 && Ceiling(0.5) == 1;
    assert ValidTaps([tap]) && LongEnough([tap], size);
    SingleCoefficient(tap, 1);
    SingleCoefficient(tap, 2);
    SingleCoefficient(tap, 3);
    CutInvisibleIffCausal([tap], size);
  }

  lemma {:induction false} SingleCoefficient(tap: Tap, m: int)
    requires |tap.h| == FILTER_TAPS && tap.Whole() == 0 && 1 <= m <= 3 && tap.gain == ONE
    ensures LookAhead([tap], m, 1) == Cx(tap.h[3 - m], 0.0)
  {
    CoefficientAt(tap, m, FILTER_TAPS);
    assert LookAhead([tap], m, 0) == ZERO;
  }

  lemma {:induction false} CoefficientAt(tap: Tap, m: int, i: nat)
    requires i <= |tap.h| == FILTER_TAPS && tap.Whole() == 0 && 1 <= m <= 3
    ensures Coefficient(tap, m, i) == if 3 - m < i then tap.h[3 - m] else 0.0
  {
    if i > 0 {
      CoefficientAt(tap, m, i - 1);
    }
  }
}
