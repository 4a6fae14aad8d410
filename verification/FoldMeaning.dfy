/** When the folds keep what a link does: the folded chain on the slots against
    the declared chain on the scaled slots of the delayed stream, cut alike. */
module FoldMeaning {
  import opened Complex
  import opened Folds
  import opened LinkSlots
  import T = Tdl
  import S = TdlStream

  // ------------------------------------------------------------------------
  // What the clones share
  // ------------------------------------------------------------------------

  lemma {:induction false} LeadingUnaffected(chain: Chain)
    requires LeadsWithTdl(chain)
    ensures Effective(LiveOf(chain), chain[0].taps) == chain[0].taps
  {
  }

  lemma {:induction false} ShiftedFirst(taps: seq<TapSpec>, v: real)
    requires taps != []
    ensures Shifted(taps, v)[0] == taps[0].(delay := taps[0].delay + v)
  {
  }

  /** The leading delay moves the shared tap, the scale moves nothing. */
  lemma {:induction false} CloneLive(kind: Kind, v: real, chain: Chain)
    requires LeadsWithTdl(chain) ==> chain[0].taps != []
    ensures LiveOf(Clone(kind, v, chain)) ==
            LiveOf(chain).(delay := LiveOf(chain).delay + if kind.LeadDelay? then v else 0.0)
  {
    var clone := Clone(kind, v, chain);
    if LeadsWithTdl(chain) {
      ShiftedFirst(chain[0].taps, v);
      if kind.LeadDelay? {
        assert clone[1..] == chain[1..];
      } else {
        assert clone[1..] == [GainStep(v)] + chain[1..] && clone[1..][1..] == chain[1..];
        assert Others(clone[1..]) == Others(chain[1..]);
      }
      assert Others(clone) == Others(clone[1..]) == Others(chain);
    } else {
      assert clone[1..] == chain;
      assert Others(clone) == Others(chain);
    }
  }

  lemma {:induction false} CloneTapped(kind: Kind, v: real, chain: Chain)
    requires Tapped(chain) && (kind.LeadDelay? ==> v >= 0.0)
    ensures Tapped(Clone(kind, v, chain))
  {
    var clone := Clone(kind, v, chain);
    forall k: nat | k < |clone| && clone[k].TdlStep?
      ensures clone[k].taps != [] && Nonnegative(clone[k].taps)
    {
      assert k > 0 ==> clone[k] in chain;
    }
  }

  /** Without a tdl the shared tap is not read. */
  lemma {:induction false} TapNotRead(m: Interp, a: Live, b: Live, steps: Chain, slots: Slots)
    requires WellFormed(m) && a.others == b.others && forall k: nat :: k < |steps| ==> !steps[k].TdlStep?
    ensures Runs(m, a, steps, slots) == Runs(m, b, steps, slots)
    decreases |steps|
  {
    hide WellFormed;
    if steps != [] {
      var next := StepSlots(m, a, steps[0], slots);
      assert next == StepSlots(m, b, steps[0], slots);
      TapNotRead(m, a, b, steps[1..], next);
    }
  }

  // ------------------------------------------------------------------------
  // A leading step, shifted
  // ------------------------------------------------------------------------

  /** Shifting a path by whole samples is delaying its input. */
  lemma {:induction false} FilteredShift(a: T.Tap, b: T.Tap, f: int -> Cx, g: int -> Cx, d: int, i: nat)
    requires a.h == b.h && a.Whole() == b.Whole() + d && i <= |a.h|
    requires forall o: int :: g(o) == f(o - d)
    ensures T.Filtered(a, f, i) == T.Filtered(b, g, i)
  {
    if i > 0 {
      FilteredShift(a, b, f, g, d, i - 1);
    }
  }

  lemma {:induction false} WholeShift(x: real, d: int)
    ensures (x + d as real).Floor == x.Floor + d
    ensures (x + d as real) - (x + d as real).Floor as real == x - x.Floor as real
  {
  }

  lemma {:induction false} PathShift(m: Interp, tap: TapSpec, fading: int, n: int, d: int, f: int -> Cx, g: int -> Cx)
    requires WellFormed(m) && forall o: int :: g(o) == f(o - d)
    ensures T.Path(TapAt(m, tap.(delay := tap.delay + d as real), fading, n), f) == T.Path(TapAt(m, tap, fading, n), g)
  {
    hide Cx.Mul, WellFormed, T.Filtered;
    WholeShift(tap.delay, d);
    FilteredShift(TapAt(m, tap.(delay := tap.delay + d as real), fading, n), TapAt(m, tap, fading, n), f, g, d, T.FILTER_TAPS);
  }

  lemma {:induction false} ConvolvedShift(m: Interp, taps: seq<TapSpec>, fading: int, n: int, d: int, f: int -> Cx, g: int -> Cx, k: nat)
    requires WellFormed(m) && k <= |taps| && forall o: int :: g(o) == f(o - d)
    ensures T.Convolved(TapsAt(m, Shifted(taps, d as real), fading, n), f, k) == T.Convolved(TapsAt(m, taps, fading, n), g, k)
  {
    hide WellFormed, T.Path, TapAt, Cx.Add;
    if k > 0 {
      ConvolvedShift(m, taps, fading, n, d, f, g, k - 1);
      PathShift(m, taps[k - 1], fading, n, d, f, g);
    }
  }

  /** Around sample n of slot k: what the shifted step has of the stream and the
      declared step, fed d samples later, has not when its slot ends. */
  function Gap(slots: Slots, k: nat, n: nat, d: nat): int -> Cx
    requires k < |slots|
  {
    var length, at, stream := |slots[k]|, Start(slots, k) + n, S.Concat(slots);
    (o: int) => if 1 <= o <= 3 && length <= n + o < length + d then S.Sample(stream, at + o - d) else ZERO
  }

  /** What the shifted step reads, as offsets into the delayed stream. */
  function Early(slots: Slots, k: nat, n: nat, d: nat, size: nat): int -> Cx
    requires k < |slots|
  {
    var slot, ring := slots[k], Ring(size, slots[..k]);
    (o: int) => T.Read(slot, ring, n + o - d)
  }

  lemma {:induction false} GapAt(slots: Slots, k: nat, n: nat, d: nat, size: nat, longer: nat, o: int)
    requires k < |slots| && n < |slots[k]| && o <= 3 && size + n + o >= 0 && longer + n + o >= d
    ensures Early(slots, k, n, d, longer)(o) ==
            T.Around(Delayed(slots, d)[k], Ring(size, Delayed(slots, d)[..k]), n)(o).Add(Gap(slots, k, n, d)(o))
  {
    hide T.Read, S.Sample, S.Concat, Delayed, Ring, Start;
    ReadIsSample(slots, k, longer, n + o - d);
    ReadDelayed(slots, d, k, size, n + o);
    var at, stream := Start(slots, k) + n + o - d, S.Concat(slots);
    ScaleUnits(S.Sample(stream, at));
    ScaleUnits(ZERO);
  }

  lemma {:induction false} GapAdds(tap: T.Tap, slots: Slots, k: nat, n: nat, d: nat, size: nat, longer: nat)
    requires k < |slots| && n < |slots[k]| && tap.delay >= 0.0
    requires size >= T.Ceiling(tap.delay) + T.FILTER_TAPS && longer >= T.Ceiling(tap.delay) + d + T.FILTER_TAPS
    ensures S.AddsUp(tap, T.Around(Delayed(slots, d)[k], Ring(size, Delayed(slots, d)[..k]), n), Gap(slots, k, n, d),
                     Early(slots, k, n, d, longer))
  {
    S.WholeBelowCeiling(tap.delay);
    hide T.Read, S.Sample, S.Concat, Delayed, Ring, Start, Gap, Early, T.Around, T.Ceiling;
    forall o: int | -5 - tap.Whole() < o <= 3 - tap.Whole()
      ensures Early(slots, k, n, d, longer)(o) ==
              T.Around(Delayed(slots, d)[k], Ring(size, Delayed(slots, d)[..k]), n)(o).Add(Gap(slots, k, n, d)(o))
    {
      GapAt(slots, k, n, d, size, longer, o);
    }
  }

  lemma {:induction false} CeilingShift(x: real, d: nat)
    ensures T.Ceiling(x + d as real) == T.Ceiling(x) + d
  {
    WholeShift(-x - d as real, d);
    assert -(x + d as real) == -x - d as real;
  }

  /** The rings are long enough for the taps they were made for. */
  lemma {:induction false} RingsLongEnough(taps: seq<TapSpec>, d: nat, j: nat)
    requires j < |taps|
    ensures T.RingSize(Delays(taps)) >= T.Ceiling(taps[j].delay) + T.FILTER_TAPS
    ensures T.RingSize(Delays(Shifted(taps, d as real))) >= T.Ceiling(taps[j].delay) + d + T.FILTER_TAPS
  {
    hide T.RingSize, T.Ceiling;
    CeilingShift(taps[j].delay, d);
    assert Delays(Shifted(taps, d as real))[j] == taps[j].delay + d as real;
    assert Delays(taps)[j] == taps[j].delay;
  }

  /** The effective coefficients of the samples ahead, applied to the gap. */
  ghost function GapPart(m: Interp, taps: seq<TapSpec>, fading: int, slots: Slots, k: nat, n: nat, d: nat): Cx
    requires WellFormed(m) && k < |slots|
  {
    var now, gap := TapsAt(m, taps, fading, Start(slots, k) + n), Gap(slots, k, n, d);
    S.Three(S.LookAhead(now, 1, |taps|), gap(1), S.LookAhead(now, 2, |taps|), gap(2), S.LookAhead(now, 3, |taps|), gap(3))
  }

  lemma {:induction false} AllGapsAdd(m: Interp, taps: seq<TapSpec>, fading: int, at: int, slots: Slots, k: nat, n: nat, d: nat)
    requires WellFormed(m) && Nonnegative(taps) && k < |slots| && n < |slots[k]|
    ensures T.ValidTaps(TapsAt(m, taps, fading, at))
    ensures forall j: nat :: j < |taps| ==>
              S.AddsUp(TapsAt(m, taps, fading, at)[j],
                       T.Around(Delayed(slots, d)[k], Ring(T.RingSize(Delays(taps)), Delayed(slots, d)[..k]), n),
                       Gap(slots, k, n, d), Early(slots, k, n, d, T.RingSize(Delays(Shifted(taps, d as real)))))
  {
    hide T.RingSize, S.AddsUp, T.Ceiling, Gap, Early, T.Around, Ring, S.Concat, Delayed, WellFormed;
    forall j: nat | j < |taps|
      ensures S.AddsUp(TapsAt(m, taps, fading, at)[j],
                       T.Around(Delayed(slots, d)[k], Ring(T.RingSize(Delays(taps)), Delayed(slots, d)[..k]), n),
                       Gap(slots, k, n, d), Early(slots, k, n, d, T.RingSize(Delays(Shifted(taps, d as real)))))
    {
      RingsLongEnough(taps, d, j);
      GapAdds(TapAt(m, taps[j], fading, at), slots, k, n, d, T.RingSize(Delays(taps)),
              T.RingSize(Delays(Shifted(taps, d as real))));
    }
  }

  lemma {:induction false} GapIsAhead(slots: Slots, k: nat, n: nat, d: nat)
    requires k < |slots|
    ensures S.OnlyAhead(Gap(slots, k, n, d))
  {
  }

  /** The shifted step's sample is the declared step's on the delayed stream plus
      the gap's part. */
  lemma {:induction false} ShiftedSample(m: Interp, taps: seq<TapSpec>, fading: int, d: nat, slots: Slots, k: nat, n: nat)
    requires WellFormed(m) && Nonnegative(taps) && k < |slots| && n < |slots[k]|
    ensures TdlSlot(m, Shifted(taps, d as real), T.RingSize(Delays(Shifted(taps, d as real))), fading, slots, k)[n] ==
            TdlSlot(m, taps, T.RingSize(Delays(taps)), fading, Delayed(slots, d), k)[n].Add(GapPart(m, taps, fading, slots, k, n, d))
  {
    hide T.Convolved, T.RingSize, S.LookAhead, S.Three, Ring, S.Concat, S.AddsUp, TdlSlot, WellFormed, Early, Delayed, T.Around,
         Gap, TapsAt, S.OnlyAhead, Cx.Add;
    var late := Delayed(slots, d);
    var size, longer := T.RingSize(Delays(taps)), T.RingSize(Delays(Shifted(taps, d as real)));
    var at := Start(slots, k) + n;
    SameStarts(late, slots, k);
    SlotIs(m, taps, size, fading, late, k, n);
    ShiftedReads(m, taps, fading, d, slots, k, n, longer);
    AllGapsAdd(m, taps, fading, at, slots, k, n, d);
    S.ConvolvedAdds(TapsAt(m, taps, fading, at), T.Around(late[k], Ring(size, late[..k]), n), Gap(slots, k, n, d),
                    Early(slots, k, n, d, longer), |taps|);
    GapIsAhead(slots, k, n, d);
    S.ConvolvedAhead(TapsAt(m, taps, fading, at), Gap(slots, k, n, d), |taps|);
  }

  /** The shifted step's sample, as its declared taps see it. */
  lemma {:induction false} ShiftedReads(m: Interp, taps: seq<TapSpec>, fading: int, d: nat, slots: Slots, k: nat, n: nat, size: nat)
    requires WellFormed(m) && k < |slots| && n < |slots[k]|
    ensures TdlSlot(m, Shifted(taps, d as real), size, fading, slots, k)[n] ==
            T.Convolved(TapsAt(m, taps, fading, Start(slots, k) + n), Early(slots, k, n, d, size), |taps|)
  {
    hide T.Convolved, WellFormed, Ring, S.Concat, Start, T.Read, TdlSlot, TapsAt, Early, T.Around;
    SlotIs(m, Shifted(taps, d as real), size, fading, slots, k, n);
    ShiftReads(slots, k, n, d, size);
    ConvolvedShift(m, taps, fading, Start(slots, k) + n, d, T.Around(slots[k], Ring(size, slots[..k]), n),
                   Early(slots, k, n, d, size), |taps|);
  }

  lemma {:induction false} ShiftReads(slots: Slots, k: nat, n: nat, d: nat, size: nat)
    requires k < |slots|
    ensures forall o: int :: Early(slots, k, n, d, size)(o) == T.Around(slots[k], Ring(size, slots[..k]), n)(o - d)
  {
    hide T.Read;
    var f := T.Around(slots[k], Ring(size, slots[..k]), n);
    forall o: int
      ensures Early(slots, k, n, d, size)(o) == f(o - d)
    {
      var i := n + o - d;
      assert f(o - d) == T.Read(slots[k], Ring(size, slots[..k]), n + (o - d)) == T.Read(slots[k], Ring(size, slots[..k]), i);
    }
  }

  /** Nothing ahead contributes, wherever the delayed stream has begun. */
  ghost predicate CausalFrom(m: Interp, taps: seq<TapSpec>, fading: int, d: nat)
    requires WellFormed(m)
  {
    forall n: nat, o: nat :: 1 <= o <= 3 && n + o >= d ==> S.LookAhead(TapsAt(m, taps, fading, n), o, |taps|) == ZERO
  }

  /** A leading step shifted by whole samples. */
  lemma {:induction false} LeadingShift(m: Interp, taps: seq<TapSpec>, fading: int, d: nat, slots: Slots)
    requires WellFormed(m) && Nonnegative(taps) && (d == 0 || CausalFrom(m, taps, fading, d))
    ensures TdlSlots(m, Shifted(taps, d as real), T.RingSize(Delays(Shifted(taps, d as real))), fading, slots) ==
            TdlSlots(m, taps, T.RingSize(Delays(taps)), fading, Delayed(slots, d))
  {
    hide WellFormed, TdlSlot, Delayed, T.RingSize, Cx.Add;
    var a := TdlSlots(m, Shifted(taps, d as real), T.RingSize(Delays(Shifted(taps, d as real))), fading, slots);
    var b := TdlSlots(m, taps, T.RingSize(Delays(taps)), fading, Delayed(slots, d));
    forall k: nat | k < |slots|
      ensures a[k] == b[k]
    {
      forall n: nat | n < |slots[k]|
        ensures a[k][n] == b[k][n]
      {
        ShiftedSample(m, taps, fading, d, slots, k, n);
        NoGapPart(m, taps, fading, d, slots, k, n);
        ScaleUnits(b[k][n]);
      }
    }
  }

  lemma {:induction false} NoGapPart(m: Interp, taps: seq<TapSpec>, fading: int, d: nat, slots: Slots, k: nat, n: nat)
    requires WellFormed(m) && k < |slots| && n < |slots[k]| && (d == 0 || CausalFrom(m, taps, fading, d))
    ensures GapPart(m, taps, fading, slots, k, n, d) == ZERO
  {
    hide WellFormed, S.LookAhead, Start, S.Concat;
    var now, gap := TapsAt(m, taps, fading, Start(slots, k) + n), Gap(slots, k, n, d);
    forall o: nat | 1 <= o <= 3
      ensures S.LookAhead(now, o, |taps|) == ZERO || gap(o) == ZERO
    {
      var at: int := Start(slots, k) + n;
      if at + o < d {
        assert S.Sample(S.Concat(slots), at + o - d) == ZERO;
      }
    }
    ThreeVanish(S.LookAhead(now, 1, |taps|), gap(1), S.LookAhead(now, 2, |taps|), gap(2), S.LookAhead(now, 3, |taps|), gap(3));
  }

  lemma {:induction false} ThreeVanish(a: Cx, x: Cx, b: Cx, y: Cx, c: Cx, z: Cx)
    requires (a == ZERO || x == ZERO) && (b == ZERO || y == ZERO) && (c == ZERO || z == ZERO)
    ensures S.Three(a, x, b, y, c, z) == ZERO
  {
  }

  // ------------------------------------------------------------------------
  // A step of one whole-sample path
  // ------------------------------------------------------------------------

  lemma {:induction false} ScaleUnits(a: Cx)
    ensures a.Scale(0.0) == ZERO && a.Scale(1.0) == a && ZERO.Add(a) == a && a.Add(ZERO) == a
  {
  }

  /** An impulse filter picks the one sample at the path's delay. */
  lemma {:induction false} FilteredImpulse(tap: T.Tap, f: int -> Cx, i: nat)
    requires S.Impulse(tap.h) && i <= T.FILTER_TAPS
    ensures T.Filtered(tap, f, i) == if i <= 3 then ZERO else f(-tap.Whole())
  {
    hide Cx.Scale;
    if i > 0 {
      FilteredImpulse(tap, f, i - 1);
      var a := f(3 - (i - 1) - tap.Whole());
      ScaleUnits(a);
      ScaleUnits(f(-tap.Whole()));
      assert T.Filtered(tap, f, i) == T.Filtered(tap, f, i - 1).Add(a.Scale(tap.h[i - 1]));
    }
  }

  lemma {:induction false} UnitGain(a: Cx)
    ensures ZERO.Add(ONE.Mul(a)) == a
  {
  }

  /** One path of d whole samples and gain one, over a ring of any length. */
  lemma {:induction false} WholeSamplePath(m: Interp, d: nat, role: int, size: nat, slots: Slots, k: nat, n: nat)
    requires WellFormed(m) && m.gain(UNIT, role, NO_FADING, 0) == ONE && k < |slots| && n < |slots[k]|
    ensures TdlSlot(m, [TapSpec(d as real, UNIT, role)], size, NO_FADING, slots, k)[n] ==
            if size + n >= d then S.Sample(S.Concat(slots), Start(slots, k) + n - d) else ZERO
  {
    hide T.Read, S.Concat, S.Sample, Ring, TdlSlot, TapsAt, Start, T.Convolved;
    var taps := [TapSpec(d as real, UNIT, role)];
    SlotIs(m, taps, size, NO_FADING, slots, k, n);
    ReadIsSample(slots, k, size, n - d);
    OnePath(m, d, role, Start(slots, k) + n, T.Around(slots[k], Ring(size, slots[..k]), n));
  }

  lemma {:induction false} OnePath(m: Interp, d: nat, role: int, at: nat, f: int -> Cx)
    requires WellFormed(m) && m.gain(UNIT, role, NO_FADING, 0) == ONE
    ensures T.Convolved(TapsAt(m, [TapSpec(d as real, UNIT, role)], NO_FADING, at), f, 1) == f(0 - d)
  {
    hide Cx.Mul, Cx.Add, T.Filtered;
    var now := TapsAt(m, [TapSpec(d as real, UNIT, role)], NO_FADING, at);
    WholeShift(0.0, d);
    assert (d as real).Floor == d;
    FilteredImpulse(now[0], f, T.FILTER_TAPS);
    assert T.Convolved(now, f, 0) == ZERO;
    assert m.gain(UNIT, role, NO_FADING, at) == m.gain(UNIT, role, NO_FADING, 0);
    UnitGain(f(0 - d));
  }

  /** With a ring of at least d samples such a step is a delay. */
  lemma {:induction false} PureDelay(m: Interp, d: nat, role: int, size: nat, slots: Slots)
    requires WellFormed(m) && m.gain(UNIT, role, NO_FADING, 0) == ONE && size >= d
    ensures TdlSlots(m, [TapSpec(d as real, UNIT, role)], size, NO_FADING, slots) == Delayed(slots, d)
  {
    hide WellFormed, TdlSlot, S.Concat, S.Sample, Start;
    var a := TdlSlots(m, [TapSpec(d as real, UNIT, role)], size, NO_FADING, slots);
    forall k: nat | k < |slots|
      ensures a[k] == Delayed(slots, d)[k]
    {
      forall n: nat | n < |slots[k]|
        ensures a[k][n] == Delayed(slots, d)[k][n]
      {
        WholeSamplePath(m, d, role, size, slots, k, n);
      }
    }
  }

  lemma {:induction false} OwnRing(d: nat)
    ensures T.RingSize(Delays([TapSpec(d as real, UNIT, UNIT)])) >= d
  {
    var delays := Delays([TapSpec(d as real, UNIT, UNIT)]);
    assert delays[0] == d as real;
    S.WholeBelowCeiling(delays[0]);
  }

  // ------------------------------------------------------------------------
  // The delay fold
  // ------------------------------------------------------------------------

  /** The steps behind the delay, and the slots they receive. */
  function Rest(chain: Chain): Chain { if LeadsWithTdl(chain) then chain[1..] else chain }

  ghost function Shaped(m: Interp, chain: Chain, slots: Slots): Slots
    requires WellFormed(m)
  {
    if LeadsWithTdl(chain) then TdlSlots(m, chain[0].taps, T.RingSize(Delays(chain[0].taps)), chain[0].fading, slots) else slots
  }

  lemma {:induction false} ByRest(m: Interp, chain: Chain, slots: Slots)
    requires WellFormed(m)
    ensures Meaning(m, chain, slots) == Runs(m, LiveOf(chain), Rest(chain), Shaped(m, chain, slots))
  {
    if LeadsWithTdl(chain) {
      LeadingUnaffected(chain);
    }
  }

  /** A leading tdl looks ahead of no sample that its slot may lack. */
  ghost predicate LeadCausal(m: Interp, chain: Chain, d: nat)
    requires WellFormed(m)
  {
    LeadsWithTdl(chain) ==> CausalFrom(m, chain[0].taps, chain[0].fading, d)
  }

  /** The clone delays the first step as meant and moves the shared tap. */
  lemma {:induction false} DelayCloneRuns(m: Interp, chain: Chain, slots: Slots, d: nat)
    requires WellFormed(m) && Tapped(chain) && (d == 0 || LeadCausal(m, chain, d))
    ensures Meaning(m, Clone(LeadDelay, d as real, chain), slots) ==
            Runs(m, LiveOf(chain).(delay := LiveOf(chain).delay + d as real), Rest(chain), Shaped(m, chain, Delayed(slots, d)))
  {
    hide Runs, LiveOf, Delayed, CausalFrom, Shaped, T.RingSize;
    var clone := Clone(LeadDelay, d as real, chain);
    CloneLive(LeadDelay, d as real, chain);
    ByRest(m, clone, slots);
    assert Rest(clone) == if LeadsWithTdl(chain) then chain[1..] else chain;
    CloneShaped(m, chain, slots, d);
  }

  lemma {:induction false} CloneShaped(m: Interp, chain: Chain, slots: Slots, d: nat)
    requires WellFormed(m) && Tapped(chain) && (d == 0 || LeadCausal(m, chain, d))
    ensures Shaped(m, Clone(LeadDelay, d as real, chain), slots) == Shaped(m, chain, Delayed(slots, d))
  {
    hide TdlSlots, Delayed, CausalFrom, T.RingSize;
    if LeadsWithTdl(chain) {
      LeadingShift(m, chain[0].taps, chain[0].fading, d, slots);
    } else {
      OwnRing(d);
      PureDelay(m, d, UNIT, T.RingSize(Delays([TapSpec(d as real, UNIT, UNIT)])), slots);
    }
  }

  /** A leading delay of whole samples, folded into the chain. */
  lemma {:induction false} DelayCloneMeaning(m: Interp, chain: Chain, slots: Slots, d: nat)
    requires WellFormed(m) && Tapped(chain) && (d == 0 || (OnlyLeadingTdl(chain) && LeadCausal(m, chain, d)))
    ensures Meaning(m, Clone(LeadDelay, d as real, chain), slots) == Meaning(m, chain, Delayed(slots, d))
  {
    hide WellFormed, Shaped, Runs, LiveOf, Meaning, Clone, LeadCausal, Delayed;
    var live := LiveOf(chain);
    DelayCloneRuns(m, chain, slots, d);
    ByRest(m, chain, Delayed(slots, d));
    if d != 0 {
      TapNotRead(m, live.(delay := live.delay + d as real), live, Rest(chain), Shaped(m, chain, Delayed(slots, d)));
    }
  }

  // ------------------------------------------------------------------------
  // The scale fold
  // ------------------------------------------------------------------------

  lemma {:induction false} ScaleAdd(a: Cx, b: Cx, k: real)
    ensures a.Add(b).Scale(k) == a.Scale(k).Add(b.Scale(k))
  {
  }

  lemma {:induction false} ScaleTwice(a: Cx, h: real, k: real)
    ensures a.Scale(h).Scale(k) == a.Scale(k).Scale(h)
  {
    assert k * (h * a.re) == h * (k * a.re) && k * (h * a.im) == h * (k * a.im);
  }

  lemma {:induction false} MulScale(g: Cx, a: Cx, k: real)
    ensures g.Mul(a.Scale(k)) == g.Mul(a).Scale(k)
  {
    assert g.re * (k * a.re) == k * (g.re * a.re) && g.im * (k * a.im) == k * (g.im * a.im);
    assert g.re * (k * a.im) == k * (g.re * a.im) && g.im * (k * a.re) == k * (g.im * a.re);
  }

  lemma {:induction false} FilteredScale(tap: T.Tap, f: int -> Cx, g: int -> Cx, k: real, i: nat)
    requires i <= |tap.h| && forall o: int :: g(o) == f(o).Scale(k)
    ensures T.Filtered(tap, g, i) == T.Filtered(tap, f, i).Scale(k)
  {
    hide Cx.Scale;
    if i == 0 {
      S.ScaleOfZero(k);
    } else {
      FilteredScale(tap, f, g, k, i - 1);
      var o := 3 - (i - 1) - tap.Whole();
      ScaleTwice(f(o), k, tap.h[i - 1]);
      ScaleAdd(T.Filtered(tap, f, i - 1), f(o).Scale(tap.h[i - 1]), k);
    }
  }

  lemma {:induction false} ConvolvedScale(taps: seq<T.Tap>, f: int -> Cx, g: int -> Cx, s: real, k: nat)
    requires k <= |taps| && forall j: nat :: j < |taps| ==> |taps[j].h| == T.FILTER_TAPS
    requires forall o: int :: g(o) == f(o).Scale(s)
    ensures T.Convolved(taps, g, k) == T.Convolved(taps, f, k).Scale(s)
  {
    hide Cx.Scale, Cx.Mul;
    if k == 0 {
      S.ScaleOfZero(s);
    } else {
      ConvolvedScale(taps, f, g, s, k - 1);
      var tap := taps[k - 1];
      FilteredScale(tap, f, g, s, T.FILTER_TAPS);
      MulScale(tap.gain, T.Filtered(tap, f, T.FILTER_TAPS), s);
      ScaleAdd(T.Convolved(taps, f, k - 1), T.Path(tap, f), s);
    }
  }

  lemma {:induction false} RingScaled(size: nat, slots: Slots, s: real)
    ensures Ring(size, Scaled(slots, s)) == ScaledSlot(Ring(size, slots), s)
  {
    hide Cx.Scale;
    if slots == [] {
      S.ScaleOfZero(s);
    } else {
      var front, last := slots[..|slots| - 1], slots[|slots| - 1];
      RingScaled(size, front, s);
      assert Scaled(slots, s)[..|slots| - 1] == Scaled(front, s);
      RolledScaled(Ring(size, front), last, s);
    }
  }

  lemma {:induction false} RolledScaled(ring: seq<Cx>, slot: seq<Cx>, s: real)
    ensures T.Rolled(ScaledSlot(ring, s), ScaledSlot(slot, s)) == ScaledSlot(T.Rolled(ring, slot), s)
  {
    hide Cx.Scale;
  }

  lemma {:induction false} ReadScaled(slot: seq<Cx>, ring: seq<Cx>, s: real, i: int)
    ensures T.Read(ScaledSlot(slot, s), ScaledSlot(ring, s), i) == T.Read(slot, ring, i).Scale(s)
  {
    hide Cx.Scale;
    S.ScaleOfZero(s);
  }

  lemma {:induction false} SlotScaled(m: Interp, taps: seq<TapSpec>, size: nat, fading: int, slots: Slots, s: real, k: nat)
    requires WellFormed(m) && k < |slots|
    ensures TdlSlot(m, taps, size, fading, Scaled(slots, s), k) == ScaledSlot(TdlSlot(m, taps, size, fading, slots, k), s)
  {
    hide WellFormed, T.Convolved, T.Read, Ring, Cx.Scale, S.Concat;
    var loud := Scaled(slots, s);
    SameStarts(loud, slots, k);
    RingScaled(size, slots[..k], s);
    assert loud[..k] == Scaled(slots[..k], s);
    forall n: nat | n < |slots[k]|
      ensures TdlSlot(m, taps, size, fading, loud, k)[n] == TdlSlot(m, taps, size, fading, slots, k)[n].Scale(s)
    {
      var f, g := T.Around(slots[k], Ring(size, slots[..k]), n), T.Around(loud[k], Ring(size, loud[..k]), n);
      forall o: int
        ensures g(o) == f(o).Scale(s)
      {
        ReadScaled(slots[k], Ring(size, slots[..k]), s, n + o);
      }
      ConvolvedScale(TapsAt(m, taps, fading, Start(slots, k) + n), f, g, s, |taps|);
    }
  }

  lemma {:induction false} TdlScaled(m: Interp, taps: seq<TapSpec>, size: nat, fading: int, slots: Slots, s: real)
    requires WellFormed(m)
    ensures TdlSlots(m, taps, size, fading, Scaled(slots, s)) == Scaled(TdlSlots(m, taps, size, fading, slots), s)
  {
    hide WellFormed, TdlSlot, ScaledSlot;
    forall k: nat | k < |slots|
      ensures TdlSlots(m, taps, size, fading, Scaled(slots, s))[k] == Scaled(TdlSlots(m, taps, size, fading, slots), s)[k]
    {
      SlotScaled(m, taps, size, fading, slots, s, k);
    }
  }

  lemma {:induction false} GainFirst(m: Interp, live: Live, db: real, steps: Chain, slots: Slots)
    requires WellFormed(m)
    ensures Runs(m, live, [GainStep(db)] + steps, slots) == Runs(m, live, steps, Scaled(slots, m.factor(db)))
  {
    hide WellFormed, Scaled;
    var all := [GainStep(db)] + steps;
    assert all[0] == GainStep(db) && all[1..] == steps;
  }

  /** A transmit scale folded behind the leading tdl, or in front. */
  lemma {:induction false} ScaleCloneMeaning(m: Interp, chain: Chain, slots: Slots, db: real)
    requires WellFormed(m) && Tapped(chain)
    ensures Meaning(m, Clone(TxScale, db, chain), slots) == Meaning(m, chain, Scaled(slots, m.factor(db)))
  {
    hide WellFormed, Scaled, Runs, Meaning, LiveOf, TdlSlots, T.RingSize;
    var clone, k, live := Clone(TxScale, db, chain), m.factor(db), LiveOf(chain);
    CloneLive(TxScale, db, chain);
    ByRest(m, chain, Scaled(slots, k));
    ByRest(m, clone, slots);
    assert Rest(clone) == [GainStep(db)] + Rest(chain);
    GainFirst(m, live, db, Rest(chain), Shaped(m, chain, slots));
    if LeadsWithTdl(chain) {
      TdlScaled(m, chain[0].taps, T.RingSize(Delays(chain[0].taps)), chain[0].fading, slots, k);
    }
  }

  // ------------------------------------------------------------------------
  // Both folds on a whole topology
  // ------------------------------------------------------------------------

  /** The chain a link runs. */
  function ChainOf(c: Config, i: nat): Chain
    requires i < |c.links|
  {
    if c.links[i].model in c.models then c.models[c.links[i].model] else []
  }

  /** The delay that link i is meant to have, in samples. */
  function DelayOf(c: Config, i: nat): real
    requires i < |c.links|
  {
    TxTimingOffset(c, c.links[i].from) + c.links[i].propagationDelay
  }

  /** The amplitude that link i is meant to have: its transmitter's scale, where
      that is within 200 dB. */
  function AmplitudeOf(m: Interp, c: Config, i: nat): real
    requires i < |c.links|
  {
    var db := TxScaleDb(c, c.links[i].from);
    if -200.0 <= db <= 200.0 then m.factor(db) else 1.0
  }

  /** No generated id is taken and none stands for two clones. */
  ghost predicate Clean(kind: Kind, c: Config, format: real -> string)
  {
    Fresh(c, Changes(kind, c, format)) && Printable(kind, c, Changes(kind, c, format))
  }

  /** One fold: the link's chain is its own clone where the fold applies. */
  lemma {:induction false} FoldedChain(kind: Kind, c: Config, format: real -> string, i: nat)
    requires i < |c.links| && Clean(kind, c, format) && c.links[i].model in c.models
    ensures var r := Fold(kind, c, format);
            i < |r.links| && r.links[i].model in r.models && r.links[i].from == c.links[i].from &&
            var change := ChangeOf(kind, c, c.links[i], format);
            ChainOf(r, i) == if Applies(kind, change.value) then Clone(kind, change.value, ChainOf(c, i)) else ChainOf(c, i)
  {
    hide After, Namer, Clone, ChangeOf, Printable, Fresh;
    var changes, r := Changes(kind, c, format), Fold(kind, c, format);
    FoldedLink(kind, c, format, i);
    FoldKeepsRest(kind, c, format, i);
    ServedRightIffPrintable(kind, c, format);
    assert ServedRight(kind, c, changes, r, i);
  }

  lemma {:induction false} FoldKeepsRest(kind: Kind, c: Config, format: real -> string, i: nat)
    requires i < |c.links| && Fresh(c, Changes(kind, c, format))
    ensures var r := Fold(kind, c, format);
            r.devices == c.devices && r.nodes == c.nodes && i < |r.links| && r.links[i].from == c.links[i].from &&
            r.links[i].propagationDelay == c.links[i].propagationDelay &&
            forall id :: id in c.models ==> id in r.models && r.models[id] == c.models[id]
  {
    hide Changes, FoldLink, Namer, CacheOk, FromSome, NamedBefore, ModelOk, Fresh;
    var changes := Changes(kind, c, format);
    AfterInv(kind, c, changes, |c.links|);
    assert LinkOk(kind, c, changes, After(kind, c, changes, |c.links|).links[i], i);
  }

  /** What link i does to the slots in r, and what it is meant to do. */
  ghost predicate KeptOn(m: Interp, c: Config, r: Config, i: nat, d: nat, slots: Slots)
    requires WellFormed(m) && i < |c.links| && i < |r.links|
  {
    Meaning(m, ChainOf(r, i), slots) == Meaning(m, ChainOf(c, i), Scaled(Delayed(slots, d), AmplitudeOf(m, c, i)))
  }

  lemma {:induction false} UnitFactor(m: Interp)
    requires WellFormed(m)
    ensures m.factor(0.0) == 1.0
  {
  }

  /** The scale fold leaves link i the delay fold's clone on the scaled slots. */
  lemma {:induction false} BothFolds(m: Interp, c: Config, format: real -> string, i: nat, d: nat, slots: Slots)
    requires WellFormed(m) && i < |c.links| && c.links[i].model in c.models && Tapped(ChainOf(c, i)) && DelayOf(c, i) == d as real
    requires Clean(LeadDelay, c, format) && Clean(TxScale, Fold(LeadDelay, c, format), format)
    ensures var r := Fold(TxScale, Fold(LeadDelay, c, format), format);
            i < |r.links| && r.links[i].model in r.models &&
            Meaning(m, ChainOf(r, i), slots) ==
            Meaning(m, if d == 0 then ChainOf(c, i) else Clone(LeadDelay, d as real, ChainOf(c, i)), Scaled(slots, AmplitudeOf(m, c, i)))
  {
    hide Clean, Fold, Clone, WellFormed, Meaning, TxTimingOffset, TxScaleDb, SourceDevice, Tapped, Scaled;
    UnitFactor(m);
    var c1 := Fold(LeadDelay, c, format);
    FoldedChain(LeadDelay, c, format, i);
    SameDevices(c, format, i);
    FoldedChain(TxScale, c1, format, i);
    CloneTapped(LeadDelay, d as real, ChainOf(c, i));
    var db := TxScaleDb(c, c.links[i].from);
    if Applies(TxScale, db) {
      ScaleCloneMeaning(m, ChainOf(c1, i), slots, db);
    } else {
      UnitScale(slots);
    }
  }

  /** After both folds every link does to its slots what its declared chain does
      to the scaled slots of the delayed stream, unless a delay meets a leading
      tdl that looks ahead or a tdl behind the first step. */
  lemma {:induction false} FoldsKeepMeaning(m: Interp, c: Config, format: real -> string, i: nat, d: nat, slots: Slots)
    requires WellFormed(m) && i < |c.links| && c.links[i].model in c.models && Tapped(ChainOf(c, i)) && DelayOf(c, i) == d as real
    requires Clean(LeadDelay, c, format) && Clean(TxScale, Fold(LeadDelay, c, format), format)
    requires d == 0 || (OnlyLeadingTdl(ChainOf(c, i)) && LeadCausal(m, ChainOf(c, i), d))
    ensures var r := Fold(TxScale, Fold(LeadDelay, c, format), format);
            i < |r.links| && r.links[i].model in r.models && KeptOn(m, c, r, i, d, slots)
  {
    hide Clean, Fold, Clone, WellFormed, Meaning, TxTimingOffset, TxScaleDb, SourceDevice, Tapped, OnlyLeadingTdl, LeadCausal,
         Scaled, Delayed;
    BothFolds(m, c, format, i, d, slots);
    var k := AmplitudeOf(m, c, i);
    if d != 0 {
      DelayCloneMeaning(m, ChainOf(c, i), Scaled(slots, k), d);
    } else {
      NotDelayed(Scaled(slots, k));
    }
    DelayedScaled(slots, d, k);
  }

  lemma {:induction false} DelayedScaled(slots: Slots, d: nat, s: real)
    ensures Delayed(Scaled(slots, s), d) == Scaled(Delayed(slots, d), s)
  {
    hide Cx.Scale;
    var a, b := Delayed(Scaled(slots, s), d), Scaled(Delayed(slots, d), s);
    ConcatScaled(slots, s);
    S.ScaleOfZero(s);
    forall k: nat | k < |slots|
      ensures a[k] == b[k]
    {
      SameStarts(Scaled(slots, s), slots, k);
      forall n: nat | n < |slots[k]|
        ensures a[k][n] == b[k][n]
      {
        SampleScaled(S.Concat(slots), s, Start(slots, k) + n - d);
      }
    }
  }

  lemma {:induction false} SampleScaled(stream: seq<Cx>, s: real, i: int)
    ensures S.Sample(ScaledSlot(stream, s), i) == S.Sample(stream, i).Scale(s)
  {
    S.ScaleOfZero(s);
  }

  lemma {:induction false} ConcatScaled(slots: Slots, s: real)
    ensures S.Concat(Scaled(slots, s)) == ScaledSlot(S.Concat(slots), s)
  {
    hide Cx.Scale;
    if slots != [] {
      ConcatScaled(slots[1..], s);
      assert Scaled(slots, s)[1..] == Scaled(slots[1..], s);
    }
  }

  lemma {:induction false} SameDevices(c: Config, format: real -> string, i: nat)
    requires i < |c.links| && Clean(LeadDelay, c, format)
    ensures var c1 := Fold(LeadDelay, c, format);
            i < |c1.links| && TxScaleDb(c1, c1.links[i].from) == TxScaleDb(c, c.links[i].from)
  {
    FoldKeepsRest(LeadDelay, c, format, i);
  }

  lemma {:induction false} UnitScale(slots: Slots)
    ensures Scaled(slots, 1.0) == slots
  {
    forall k: nat | k < |slots|
      ensures Scaled(slots, 1.0)[k] == slots[k]
    {
      forall n: nat | n < |slots[k]|
        ensures Scaled(slots, 1.0)[k][n] == slots[k][n]
      {
        ScaleUnits(slots[k][n]);
      }
    }
  }

  // ------------------------------------------------------------------------
  // Six printed digits are not enough
  // ------------------------------------------------------------------------

  /** Two links over one model, propagation delays p and q. */
  function TwoDelays(p: real, q: real): Config
  {
    Config([], [], [Link("a", "m", p), Link("b", "m", q)], map["m" := []])
  }

  /** Whenever two different delays print alike, the second link is given the
      first one's delay: 1000.001 and 1000.002 both print as 1000. */
  lemma {:induction false} AlikePrintsMergeLinks(p: real, q: real, format: real -> string)
    requires p != q && p != 0.0 && q != 0.0 && format(p) == format(q)
    ensures var r := Fold(LeadDelay, TwoDelays(p, q), format);
            |r.links| == 2 && ChainOf(r, 0) == ChainOf(r, 1) == [TdlStep([TapSpec(p, UNIT, UNIT)], NO_FADING)] &&
            ChainOf(r, 1) != Clone(LeadDelay, q, ChainOf(TwoDelays(p, q), 1))
  {
    var c := TwoDelays(p, q);
    var changes := Changes(LeadDelay, c, format);
    var id := "__ocg_lead_delay__m__prop_" + format(p);
    assert changes[0] == Change(p, id) by {
      assert "__ocg_lead_delay__" + "m" + ("__prop_" + format(p)) == id;
    }
    assert changes[1] == Change(q, id);
    var s0 := After(LeadDelay, c, changes, 0);
    var s1 := After(LeadDelay, c, changes, 1);
    assert id[0] == '_' && "m"[0] == 'm';
    assert s1 == FoldLink(LeadDelay, s0, c.links[0], changes[0]);
    assert s1.models[id] == Clone(LeadDelay, p, []);
    var s2 := After(LeadDelay, c, changes, 2);
    assert s2 == FoldLink(LeadDelay, s1, c.links[1], changes[1]);
    assert Clone(LeadDelay, q, [])[0].taps[0].delay == q;
  }
}
