/** What a link does to its slots (apply_chain_to_link in src/cpu_backend.cpp):
    step by step, every tdl step with its own history ring, and every tdl step
    running its tap 0 at the values that a leading tdl gives its own.  Filter
    coefficients, tap gains, amplitude factors and the other kinds of step are
    parameters. */
module LinkSlots {
  import opened Complex
  import opened Folds
  import T = Tdl
  import S = TdlStream

  /** A stream as it is cut into calls. */
  type Slots = seq<seq<Cx>>

  /** `gain` takes a tap's level and role, its step's fading and the time;
      `other` the ids of all such steps, because they share values, the step's
      own id, and every slot the step has received, the current one last. */
  datatype Interp = Interp(
    sinc: real -> seq<real>,
    gain: (int, int, int, int) -> Cx,
    factor: real -> real,
    other: (seq<int>, int, Slots) -> seq<Cx>)

  /** What a link's steps share: values for tap 0 and the other steps' ids. */
  datatype Live = Live(delay: real, level: int, others: seq<int>)

  ghost predicate WellFormed(m: Interp)
  {
    (forall f: real :: |m.sinc(f)| == T.FILTER_TAPS) &&
    S.Impulse(m.sinc(0.0)) &&
    (forall n: int :: m.gain(UNIT, UNIT, NO_FADING, n) == ONE) && m.factor(0.0) == 1.0 &&
    (forall level: int, role: int, n: int :: m.gain(level, role, NO_FADING, n) == m.gain(level, role, NO_FADING, 0)) &&
    (forall ids: seq<int>, id: int, slots: Slots :: slots != [] ==> |m.other(ids, id, slots)| == |slots[|slots| - 1]|)
  }

  ghost function TapAt(m: Interp, tap: TapSpec, fading: int, n: int): (r: T.Tap)
    requires WellFormed(m)
    ensures |r.h| == T.FILTER_TAPS
  {
    T.Tap(tap.delay, m.gain(tap.level, tap.role, fading, n), m.sinc(tap.delay - tap.delay.Floor as real))
  }

  ghost function TapsAt(m: Interp, taps: seq<TapSpec>, fading: int, n: int): (r: seq<T.Tap>)
    requires WellFormed(m)
    ensures |r| == |taps| && forall k: nat :: k < |taps| ==> r[k] == TapAt(m, taps[k], fading, n)
  {
    seq(|taps|, (k: nat) requires k < |taps| => TapAt(m, taps[k], fading, n))
  }

  function Delays(taps: seq<TapSpec>): (r: seq<real>)
    ensures |r| == |taps| && forall k: nat :: k < |taps| ==> r[k] == taps[k].delay
  {
    seq(|taps|, (k: nat) requires k < |taps| => taps[k].delay)
  }

  /** Samples received before slot k. */
  function Start(slots: Slots, k: nat): nat
    requires k <= |slots|
  {
    |S.Concat(slots[..k])|
  }

  /** A step's ring after some slots: silence, rolled by each. */
  function Ring(size: nat, slots: Slots): (r: seq<Cx>)
    ensures |r| == size
  {
    if slots == [] then seq(size, (_: nat) => ZERO)
    else T.Rolled(Ring(size, slots[..|slots| - 1]), slots[|slots| - 1])
  }

  /** Slot k of a tdl step that runs `taps` over a ring of `size` samples. */
  ghost function TdlSlot(m: Interp, taps: seq<TapSpec>, size: nat, fading: int, slots: Slots, k: nat): (r: seq<Cx>)
    requires WellFormed(m) && k < |slots|
    ensures |r| == |slots[k]|
  {
    seq(|slots[k]|, (n: nat) requires n < |slots[k]| =>
      T.SlotSample(TapsAt(m, taps, fading, Start(slots, k) + n), slots[k], Ring(size, slots[..k]), n))
  }

  ghost function TdlSlots(m: Interp, taps: seq<TapSpec>, size: nat, fading: int, slots: Slots): (r: Slots)
    requires WellFormed(m)
    ensures |r| == |slots| && forall k: nat :: k < |slots| ==> |r[k]| == |slots[k]|
  {
    seq(|slots|, (k: nat) requires k < |slots| => TdlSlot(m, taps, size, fading, slots, k))
  }

  function ScaledSlot(slot: seq<Cx>, k: real): (r: seq<Cx>)
    ensures |r| == |slot|
  {
    seq(|slot|, (n: nat) requires n < |slot| => slot[n].Scale(k))
  }

  function Scaled(slots: Slots, k: real): (r: Slots)
    ensures |r| == |slots| && forall i: nat :: i < |slots| ==> |r[i]| == |slots[i]|
  {
    seq(|slots|, (i: nat) requires i < |slots| => ScaledSlot(slots[i], k))
  }

  /** The same cut of the stream d samples later, silence in front. */
  function Delayed(slots: Slots, d: nat): (r: Slots)
    ensures |r| == |slots| && forall k: nat :: k < |slots| ==> |r[k]| == |slots[k]|
  {
    seq(|slots|, (k: nat) requires k < |slots| =>
      seq(|slots[k]|, (n: nat) requires n < |slots[k]| => S.Sample(S.Concat(slots), Start(slots, k) + n - d)))
  }

  function Others(chain: Chain): seq<int>
  {
    if chain == [] then []
    else (if chain[0].OtherStep? then [chain[0].id] else []) + Others(chain[1..])
  }

  /** populate_mutable_params_from_yaml: tap 0 of a leading tdl, else zeros. */
  function LiveOf(chain: Chain): Live
  {
    if LeadsWithTdl(chain) && chain[0].taps != [] then Live(chain[0].taps[0].delay, chain[0].taps[0].level, Others(chain))
    else Live(0.0, UNIT, Others(chain))
  }

  /** The taps a step runs. */
  function Effective(live: Live, taps: seq<TapSpec>): (r: seq<TapSpec>)
    ensures |r| == |taps|
  {
    if taps == [] then [] else [taps[0].(delay := live.delay, level := live.level)] + taps[1..]
  }

  ghost function OtherSlot(m: Interp, live: Live, id: int, slots: Slots, k: nat): (r: seq<Cx>)
    requires WellFormed(m) && k < |slots|
    ensures |r| == |slots[k]|
  {
    var received := slots[..k + 1];
    assert |m.other(live.others, id, received)| == |received[|received| - 1]|;
    m.other(live.others, id, received)
  }

  /** One step over all its slots; a tdl's ring has the length of its declared
      taps, not of those it runs. */
  ghost function StepSlots(m: Interp, live: Live, step: Step, slots: Slots): (r: Slots)
    requires WellFormed(m)
    ensures |r| == |slots| && forall k: nat :: k < |slots| ==> |r[k]| == |slots[k]|
  {
    match step
    case TdlStep(taps, fading) => TdlSlots(m, Effective(live, taps), T.RingSize(Delays(taps)), fading, slots)
    case GainStep(db) => Scaled(slots, m.factor(db))
    case OtherStep(id) => seq(|slots|, (k: nat) requires k < |slots| => OtherSlot(m, live, id, slots, k))
  }

  /** The steps in order. */
  ghost function Runs(m: Interp, live: Live, steps: Chain, slots: Slots): (r: Slots)
    requires WellFormed(m)
    ensures |r| == |slots| && forall k: nat :: k < |slots| ==> |r[k]| == |slots[k]|
  {
    if steps == [] then slots else Runs(m, live, steps[1..], StepSlots(m, live, steps[0], slots))
  }

  ghost function Meaning(m: Interp, chain: Chain, slots: Slots): Slots
    requires WellFormed(m)
  {
    Runs(m, LiveOf(chain), chain, slots)
  }

  /** No tdl stands behind the first step. */
  predicate OnlyLeadingTdl(chain: Chain) { forall k: nat :: 1 <= k < |chain| ==> !chain[k].TdlStep? }

  /** validate_config: a tdl has a tap and no tap a negative delay. */
  predicate Tapped(chain: Chain)
  {
    forall k: nat :: k < |chain| && chain[k].TdlStep? ==> chain[k].taps != [] && Nonnegative(chain[k].taps)
  }

  predicate Nonnegative(taps: seq<TapSpec>) { forall k: nat :: k < |taps| ==> taps[k].delay >= 0.0 }

  // ------------------------------------------------------------------------
  // Slot by slot
  // ------------------------------------------------------------------------

  lemma {:induction false} SlotIsCausal(m: Interp, taps: seq<TapSpec>, size: nat, fading: int, slots: Slots, k: nat, i: nat)
    requires WellFormed(m) && i < k <= |slots|
    ensures TdlSlot(m, taps, size, fading, slots[..k], i) == TdlSlot(m, taps, size, fading, slots, i)
  {
    hide WellFormed, T.SlotSample, TapsAt, Ring, S.Concat;
    assert slots[..k][..i] == slots[..i] && slots[..k][i] == slots[i];
    assert Start(slots[..k], i) == Start(slots, i);
  }

  lemma {:induction false} StepIsCausal(m: Interp, live: Live, step: Step, slots: Slots, k: nat)
    requires WellFormed(m) && k <= |slots|
    ensures StepSlots(m, live, step, slots[..k]) == StepSlots(m, live, step, slots)[..k]
  {
    hide WellFormed, TdlSlot, Effective;
    var a, b := StepSlots(m, live, step, slots[..k]), StepSlots(m, live, step, slots);
    forall i: nat | i < k
      ensures a[i] == b[i]
    {
      assert slots[..k][..i + 1] == slots[..i + 1] && slots[..k][i] == slots[i];
      if step.TdlStep? {
        SlotIsCausal(m, Effective(live, step.taps), T.RingSize(Delays(step.taps)), step.fading, slots, k, i);
      }
    }
  }

  /** What comes out of a slot does not depend on later slots: working step by
      step over all slots is working slot by slot through all steps. */
  lemma {:induction false} RunsAreCausal(m: Interp, live: Live, steps: Chain, slots: Slots, k: nat)
    requires WellFormed(m) && k <= |slots|
    ensures Runs(m, live, steps, slots[..k]) == Runs(m, live, steps, slots)[..k]
    decreases |steps|
  {
    hide WellFormed, StepSlots;
    if steps != [] {
      StepIsCausal(m, live, steps[0], slots, k);
      RunsAreCausal(m, live, steps[1..], StepSlots(m, live, steps[0], slots), k);
    }
  }

  /** An unfaded step's slot is the call of apply_tdl_step with its ring. */
  lemma {:induction false} UnfadedSlot(m: Interp, taps: seq<TapSpec>, size: nat, slots: Slots, k: nat)
    requires WellFormed(m) && k < |slots|
    ensures TdlSlot(m, taps, size, NO_FADING, slots, k) ==
            T.SlotOutput(TapsAt(m, taps, NO_FADING, 0), slots[k], Ring(size, slots[..k]))
  {
    hide T.SlotSample;
    forall n: nat | n < |slots[k]|
      ensures TdlSlot(m, taps, size, NO_FADING, slots, k)[n] ==
              T.SlotOutput(TapsAt(m, taps, NO_FADING, 0), slots[k], Ring(size, slots[..k]))[n]
    {
      UnfadedTaps(m, taps, Start(slots, k) + n);
    }
  }

  lemma {:induction false} UnfadedTaps(m: Interp, taps: seq<TapSpec>, n: int)
    requires WellFormed(m)
    ensures TapsAt(m, taps, NO_FADING, n) == TapsAt(m, taps, NO_FADING, 0)
  {
    assert forall k: nat :: k < |taps| ==> TapsAt(m, taps, NO_FADING, n)[k] == TapsAt(m, taps, NO_FADING, 0)[k];
  }

  lemma {:induction false} SlotIs(m: Interp, taps: seq<TapSpec>, size: nat, fading: int, slots: Slots, k: nat, n: nat)
    requires WellFormed(m) && k < |slots| && n < |slots[k]|
    ensures TdlSlot(m, taps, size, fading, slots, k)[n] ==
            T.Convolved(TapsAt(m, taps, fading, Start(slots, k) + n), T.Around(slots[k], Ring(size, slots[..k]), n), |taps|)
  {
    hide T.Convolved, T.Around, Ring, S.Concat;
  }

  // ------------------------------------------------------------------------
  // Streams and rings
  // ------------------------------------------------------------------------

  lemma {:induction false} ConcatAppend(a: Slots, b: seq<Cx>)
    ensures S.Concat(a + [b]) == S.Concat(a) + b
  {
    if a == [] {
      assert [] + [b] == [b] && [b][1..] == [];
      assert S.Concat([b]) == b + S.Concat([]);
    } else {
      ConcatAppend(a[1..], b);
      assert (a + [b])[1..] == a[1..] + [b];
    }
  }

  lemma {:induction false} ConcatBoth(a: Slots, b: Slots)
    ensures S.Concat(a + b) == S.Concat(a) + S.Concat(b)
  {
    if a == [] {
      assert a + b == b;
    } else {
      ConcatBoth(a[1..], b);
      assert (a + b)[1..] == a[1..] + b;
    }
  }

  /** The stream before slot k, slot k, and what follows. */
  lemma {:induction false} StreamAt(slots: Slots, k: nat) returns (rest: seq<Cx>)
    requires k < |slots|
    ensures S.Concat(slots) == S.Concat(slots[..k]) + slots[k] + rest
    ensures Start(slots, k + 1) == Start(slots, k) + |slots[k]|
  {
    rest := S.Concat(slots[k + 1..]);
    ConcatAppend(slots[..k], slots[k]);
    assert slots[..k + 1] == slots[..k] + [slots[k]];
    ConcatBoth(slots[..k + 1], slots[k + 1..]);
    assert slots == slots[..k + 1] + slots[k + 1..];
  }

  lemma {:induction false} SameStarts(a: Slots, b: Slots, k: nat)
    requires |a| == |b| && k <= |a| && forall i: nat :: i < |a| ==> |a[i]| == |b[i]|
    ensures Start(a, k) == Start(b, k)
  {
    if k > 0 {
      SameStarts(a, b, k - 1);
      ConcatAppend(a[..k - 1], a[k - 1]);
      ConcatAppend(b[..k - 1], b[k - 1]);
      assert a[..k] == a[..k - 1] + [a[k - 1]] && b[..k] == b[..k - 1] + [b[k - 1]];
    }
  }

  /** A ring holds the last samples of everything its step received. */
  lemma {:induction false} RingIsTail(size: nat, slots: Slots)
    ensures Ring(size, slots) == S.Tail(S.Concat(slots), size)
  {
    if slots == [] {
      var tail := S.Tail(S.Concat(slots), size);
      assert forall r: nat :: r < size ==> tail[r] == S.Sample([], r - size) == ZERO;
    } else {
      var front, last := slots[..|slots| - 1], slots[|slots| - 1];
      RingIsTail(size, front);
      S.RolledIsTail(S.Concat(front), size, last);
      ConcatAppend(front, last);
      assert slots == front + [last];
    }
  }

  /** A read in slot k: the stream, silence before the ring and past the slot. */
  lemma {:induction false} ReadIsSample(slots: Slots, k: nat, size: nat, i: int)
    requires k < |slots|
    ensures T.Read(slots[k], Ring(size, slots[..k]), i) ==
            if size + i >= 0 && i < |slots[k]| then S.Sample(S.Concat(slots), Start(slots, k) + i) else ZERO
  {
    var rest := StreamAt(slots, k);
    RingIsTail(size, slots[..k]);
    var before := S.Concat(slots[..k]);
    if 0 <= i < |slots[k]| {
      assert (before + slots[k] + rest)[|before| + i] == slots[k][i];
    } else if 0 <= size + i && i < 0 {
      assert S.Tail(before, size)[size + i] == S.Sample(before, |before| + i);
      assert |before| + i >= 0 ==> (before + slots[k] + rest)[|before| + i] == before[|before| + i];
    }
  }

  lemma {:induction false} DelayedStream(slots: Slots, d: nat, k: nat)
    requires k <= |slots|
    ensures Start(Delayed(slots, d), k) == Start(slots, k)
    ensures forall j: nat :: j < Start(slots, k) ==> S.Concat(Delayed(slots, d)[..k])[j] == S.Sample(S.Concat(slots), j - d)
  {
    var late := Delayed(slots, d);
    SameStarts(late, slots, k);
    if k > 0 {
      DelayedStream(slots, d, k - 1);
      ConcatAppend(late[..k - 1], late[k - 1]);
      assert late[..k] == late[..k - 1] + [late[k - 1]];
      var rest := StreamAt(slots, k - 1);
    }
  }

  /** The delayed stream, while it lasts. */
  lemma {:induction false} DelayedSample(slots: Slots, d: nat, i: int)
    requires i < Start(slots, |slots|)
    ensures S.Sample(S.Concat(Delayed(slots, d)), i) == S.Sample(S.Concat(slots), i - d)
  {
    DelayedStream(slots, d, |slots|);
    assert Delayed(slots, d)[..|slots|] == Delayed(slots, d);
  }

  lemma {:induction false} StartGrows(slots: Slots, k: nat)
    requires k <= |slots|
    ensures Start(slots, k) <= Start(slots, |slots|)
  {
    ConcatBoth(slots[..k], slots[k..]);
    assert slots == slots[..k] + slots[k..] && slots[..|slots|] == slots;
  }

  /** A read of the delayed stream in slot k. */
  lemma {:induction false} ReadDelayed(slots: Slots, d: nat, k: nat, size: nat, i: int)
    requires k < |slots|
    ensures T.Read(Delayed(slots, d)[k], Ring(size, Delayed(slots, d)[..k]), i) ==
            if size + i >= 0 && i < |slots[k]| then S.Sample(S.Concat(slots), Start(slots, k) + i - d) else ZERO
  {
    hide S.Concat, S.Sample, T.Read, Delayed;
    ReadIsSample(Delayed(slots, d), k, size, i);
    DelayedStream(slots, d, k);
    if i < |slots[k]| {
      var rest := StreamAt(slots, k);
      StartGrows(slots, k + 1);
      DelayedSample(slots, d, Start(slots, k) + i);
    }
  }

  lemma {:induction false} DelayedAgain(slots: Slots, a: nat, b: nat)
    ensures Delayed(Delayed(slots, a), b) == Delayed(slots, a + b)
  {
    hide S.Concat;
    var late, later := Delayed(slots, a), Delayed(slots, a + b);
    forall k: nat, n: nat | k < |slots| && n < |slots[k]|
      ensures Delayed(late, b)[k][n] == later[k][n]
    {
      SameStarts(late, slots, k);
      var rest := StreamAt(slots, k);
      StartGrows(slots, k + 1);
      DelayedSample(slots, a, Start(slots, k) + n - b);
    }
    assert forall k: nat :: k < |slots| ==> Delayed(late, b)[k] == later[k];
  }

  lemma {:induction false} NotDelayed(slots: Slots)
    ensures Delayed(slots, 0) == slots
  {
    forall k: nat | k < |slots|
      ensures Delayed(slots, 0)[k] == slots[k]
    {
      forall n: nat | n < |slots[k]|
        ensures Delayed(slots, 0)[k][n] == slots[k][n]
      {
        hide S.Concat;
        ReadIsSample(slots, k, 0, n);
        assert Delayed(slots, 0)[k][n] == S.Sample(S.Concat(slots), Start(slots, k) + n);
      }
    }
  }
}
