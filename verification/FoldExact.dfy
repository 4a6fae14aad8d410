/** The exact condition over all filters, gains, copied steps, streams and cuts,
    for a chain and for a link of a whole topology. */
module FoldExact {
  import opened Complex
  import opened Folds
  import opened LinkSlots
  import opened FoldMeaning
  import opened FoldLimits
  import T = Tdl
  import S = TdlStream

  /** Every path is at least three samples deep or a whole number of samples. */
  predicate DeepOrWhole(taps: seq<TapSpec>)
  {
    forall k: nat :: k < |taps| ==> taps[k].delay.Floor >= 3 || taps[k].delay == taps[k].delay.Floor as real
  }

  /** What an author of a chain can check. */
  predicate Foldable(chain: Chain)
  {
    OnlyLeadingTdl(chain) && (LeadsWithTdl(chain) ==> DeepOrWhole(chain[0].taps))
  }

  /** The fold's clone does to all slots what the chain does to those of the
      delayed stream. */
  ghost predicate DelayKept(chain: Chain, d: nat)
  {
    forall m: Interp, slots: Slots :: WellFormed(m) ==>
      Meaning(m, Clone(LeadDelay, d as real, chain), slots) == Meaning(m, chain, Delayed(slots, d))
  }

  lemma {:induction false} DeepIsCausal(m: Interp, taps: seq<TapSpec>, fading: int, d: nat)
    requires WellFormed(m) && Nonnegative(taps) && DeepOrWhole(taps)
    ensures CausalFrom(m, taps, fading, d)
  {
    hide S.LookAhead;
    forall n: nat, o: nat | 1 <= o <= 3 && n + o >= d
      ensures S.LookAhead(TapsAt(m, taps, fading, n), o, |taps|) == ZERO
    {
      var now := TapsAt(m, taps, fading, n);
      forall j: nat | j < |now|
        ensures now[j].Whole() >= 3 || S.Impulse(now[j].h)
      {
        assert now[j] == TapAt(m, taps[j], fading, n);
      }
      S.DeepOrWholeIsCausal(now, o, |taps|);
    }
  }

  // ------------------------------------------------------------------------
  // A shallow fractional path
  // ------------------------------------------------------------------------

  /** Filters of fractional delays with all coefficients one. */
  ghost predicate IsRough(m: Interp)
  {
    IsIdle(m) && (forall f: real, i: nat :: f != 0.0 && i < T.FILTER_TAPS ==> m.sinc(f)[i] == 1.0) &&
    forall level: int, role: int, fading: int, n: int :: m.gain(level, role, fading, n) == ONE
  }

  ghost function Rough(): (m: Interp)
    ensures IsRough(m)
  {
    Interp((f: real) => if f == 0.0 then [0.0, 0.0, 0.0, 1.0, 0.0, 0.0, 0.0, 0.0] else [1.0, 1.0, 1.0, 1.0, 1.0, 1.0, 1.0, 1.0],
           (level: int, role: int, fading: int, n: int) => ONE, (db: real) => 1.0,
           (ids: seq<int>, id: int, slots: Slots) => Last(slots))
  }

  lemma {:induction false} RoughCoefficient(m: Interp, tap: TapSpec, fading: int, n: int, i: nat)
    requires IsRough(m) && i <= T.FILTER_TAPS && tap.delay >= 0.0
    ensures S.Coefficient(TapAt(m, tap, fading, n), 1, i) >= 0.0
    ensures tap.delay.Floor < 3 && tap.delay != tap.delay.Floor as real && i >= 3 ==>
              S.Coefficient(TapAt(m, tap, fading, n), 1, i) > 0.0
  {
    if i > 0 {
      RoughCoefficient(m, tap, fading, n, i - 1);
      var h := TapAt(m, tap, fading, n).h;
      assert h[i - 1] >= 0.0;
      assert tap.delay != tap.delay.Floor as real ==> h[i - 1] == 1.0;
    }
    if i == 3 && tap.delay.Floor < 3 && tap.delay != tap.delay.Floor as real {
      RoughThree(m, tap, fading, n);
    }
  }

  lemma {:induction false} RoughThree(m: Interp, tap: TapSpec, fading: int, n: int)
    requires IsRough(m) && 0 <= tap.delay.Floor < 3 && tap.delay != tap.delay.Floor as real
    ensures S.Coefficient(TapAt(m, tap, fading, n), 1, 3) == 1.0
  {
    var now := TapAt(m, tap, fading, n);
    assert now.h[0] == now.h[1] == now.h[2] == 1.0;
    assert S.Coefficient(now, 1, 1) == if now.Whole() == 2 then 1.0 else 0.0;
    assert S.Coefficient(now, 1, 2) == if now.Whole() >= 1 then 1.0 else 0.0;
  }

  lemma {:induction false} RoughAhead(m: Interp, taps: seq<TapSpec>, fading: int, n: int, j: nat, k: nat)
    requires IsRough(m) && Nonnegative(taps) && k <= |taps| && j < |taps|
    requires taps[j].delay.Floor < 3 && taps[j].delay != taps[j].delay.Floor as real
    ensures S.LookAhead(TapsAt(m, taps, fading, n), 1, k).re >= 0.0
    ensures j < k ==> S.LookAhead(TapsAt(m, taps, fading, n), 1, k).re > 0.0
  {
    hide S.Coefficient;
    if k > 0 {
      RoughAhead(m, taps, fading, n, j, k - 1);
      RoughCoefficient(m, taps[k - 1], fading, n, T.FILTER_TAPS);
    }
  }

  lemma {:induction false} RoughIsIdle(m: Interp)
    requires IsRough(m)
    ensures IsIdle(m) && WellFormed(m)
  {
  }

  lemma {:induction false} ShallowIsNotCausal(m: Interp, taps: seq<TapSpec>, fading: int, d: nat)
    requires IsRough(m) && Nonnegative(taps) && !DeepOrWhole(taps)
    ensures !CausalFrom(m, taps, fading, d)
  {
    RoughIsIdle(m);
    hide S.LookAhead, IsRough, IsIdle;
    var j: nat :| j < |taps| && taps[j].delay.Floor < 3 && taps[j].delay != taps[j].delay.Floor as real;
    RoughAhead(m, taps, fading, d, j, |taps|);
    assert S.LookAhead(TapsAt(m, taps, fading, d), 1, |taps|) != ZERO;
  }

  // ------------------------------------------------------------------------
  // A tdl behind the first step
  // ------------------------------------------------------------------------

  /** Every path a whole-sample delay of gain one, every other step idle. */
  ghost predicate IsPlain(m: Interp)
  {
    IsIdle(m) && (forall f: real :: m.sinc(f) == m.sinc(0.0)) &&
    forall level: int, role: int, fading: int, n: int :: m.gain(level, role, fading, n) == ONE
  }

  ghost function Plain(): (m: Interp)
    ensures IsPlain(m)
  {
    Interp((f: real) => [0.0, 0.0, 0.0, 1.0, 0.0, 0.0, 0.0, 0.0], (level: int, role: int, fading: int, n: int) => ONE,
           (db: real) => 1.0, (ids: seq<int>, id: int, slots: Slots) => Last(slots))
  }

  /** A real slot that never falls below zero or below what came before. */
  ghost predicate Grows(x: seq<Cx>)
  {
    (forall j: nat :: j < |x| ==> x[j].im == 0.0 && x[j].re >= 0.0) &&
    forall j: nat, k: nat :: j <= k < |x| ==> x[j].re <= x[k].re
  }

  function At(x: seq<Cx>, i: int): real { if 0 <= i < |x| then x[i].re else 0.0 }

  /** The first k paths' sum at sample n. */
  function Mix(taps: seq<TapSpec>, x: seq<Cx>, n: int, k: nat): real
    requires k <= |taps|
  {
    if k == 0 then 0.0 else Mix(taps, x, n, k - 1) + At(x, n - taps[k - 1].delay.Floor)
  }

  lemma {:induction false} PlainPath(m: Interp, tap: TapSpec, fading: int, x: seq<Cx>, ring: seq<Cx>, n: nat)
    requires IsPlain(m) && Grows(x) && n < |x| && tap.delay >= 0.0 && forall i: nat :: i < |ring| ==> ring[i] == ZERO
    ensures T.Path(TapAt(m, tap, fading, n), T.Around(x, ring, n)) == Cx(At(x, n - tap.delay.Floor), 0.0)
  {
    hide Cx.Mul, Cx.Add, T.Filtered;
    var f, whole := T.Around(x, ring, n), tap.delay.Floor;
    FilteredImpulse(TapAt(m, tap, fading, n), f, T.FILTER_TAPS);
    UnitGain(f(0 - whole));
    ScaleUnits(ONE.Mul(f(0 - whole)));
    assert f(0 - whole) == T.Read(x, ring, n - whole);
  }

  lemma {:induction false} PlainMix(m: Interp, taps: seq<TapSpec>, fading: int, x: seq<Cx>, ring: seq<Cx>, n: nat, k: nat)
    requires IsPlain(m) && Grows(x) && n < |x| && Nonnegative(taps) && k <= |taps|
    requires forall i: nat :: i < |ring| ==> ring[i] == ZERO
    ensures T.Convolved(TapsAt(m, taps, fading, n), T.Around(x, ring, n), k) == Cx(Mix(taps, x, n, k), 0.0)
  {
    hide T.Path, IsPlain, Grows, At, T.Around;
    if k > 0 {
      PlainMix(m, taps, fading, x, ring, n, k - 1);
      PlainPath(m, taps[k - 1], fading, x, ring, n);
    }
  }

  /** What a step makes of a single slot. */
  lemma {:induction false} PlainSlot(m: Interp, taps: seq<TapSpec>, size: nat, fading: int, x: seq<Cx>) returns (y: seq<Cx>)
    requires IsPlain(m) && Grows(x) && Nonnegative(taps)
    ensures TdlSlots(m, taps, size, fading, [x]) == [y] && |y| == |x|
    ensures forall n: nat :: n < |x| ==> y[n] == Cx(Mix(taps, x, n, |taps|), 0.0)
  {
    PlainIsIdle(m);
    hide IsPlain, Grows, Mix, TdlSlot, T.Convolved, T.Around;
    y := TdlSlots(m, taps, size, fading, [x])[0];
    OneSlot(x);
    assert [x][..0] == [];
    forall n: nat | n < |x|
      ensures y[n] == Cx(Mix(taps, x, n, |taps|), 0.0)
    {
      SlotIs(m, taps, size, fading, [x], 0, n);
      PlainMix(m, taps, fading, x, Ring(size, []), n, |taps|);
    }
  }

  lemma {:induction false} AtGrows(x: seq<Cx>, i: int, j: int)
    requires Grows(x) && i <= j < |x|
    ensures 0.0 <= At(x, i) <= At(x, j)
  {
  }

  /** Tap 0 moved later, over a slot that is nowhere larger: nowhere larger. */
  lemma {:induction false} MixBelow(a: seq<TapSpec>, b: seq<TapSpec>, x: seq<Cx>, y: seq<Cx>, n: int, k: nat)
    requires |a| == |b| && k <= |a| && Grows(x) && Grows(y) && |x| == |y| && n < |x| && Nonnegative(b)
    requires forall j: nat :: j < |a| ==> 0 <= b[j].delay.Floor <= a[j].delay.Floor
    requires forall j: nat :: j < |x| ==> x[j].re <= y[j].re
    ensures 0.0 <= Mix(a, x, n, k) <= Mix(b, y, n, k)
    ensures k > 0 && At(x, n - a[0].delay.Floor) < At(y, n - b[0].delay.Floor) ==> Mix(a, x, n, k) < Mix(b, y, n, k)
  {
    if k > 0 {
      MixBelow(a, b, x, y, n, k - 1);
      AtGrows(x, n - a[k - 1].delay.Floor, n - b[k - 1].delay.Floor);
    }
  }

  lemma {:induction false} MixGrows(taps: seq<TapSpec>, x: seq<Cx>, n: int, p: int, k: nat)
    requires k <= |taps| && Grows(x) && n <= p < |x| && Nonnegative(taps)
    ensures 0.0 <= Mix(taps, x, n, k) <= Mix(taps, x, p, k)
    ensures k > 0 && At(x, p - taps[0].delay.Floor) > 0.0 ==> Mix(taps, x, p, k) > 0.0
  {
    if k > 0 {
      MixGrows(taps, x, n, p, k - 1);
      AtGrows(x, n - taps[k - 1].delay.Floor, p - taps[k - 1].delay.Floor);
    }
  }

  lemma {:induction false} SlotGrows(taps: seq<TapSpec>, x: seq<Cx>, y: seq<Cx>)
    requires Grows(x) && Nonnegative(taps) && |y| == |x|
    requires forall n: nat :: n < |x| ==> y[n] == Cx(Mix(taps, x, n, |taps|), 0.0)
    ensures Grows(y)
  {
    hide Mix;
    forall n: nat, p: nat | n <= p < |y|
      ensures 0.0 <= y[n].re <= y[p].re && y[n].im == 0.0
    {
      MixGrows(taps, x, n, p, |taps|);
    }
  }

  /** x is y or behind it, and at p behind it. */
  ghost predicate Behind(x: seq<Cx>, y: seq<Cx>, p: nat)
  {
    Grows(x) && Grows(y) && |x| == |y| && p < |x| && x[p].re < y[p].re && forall j: nat :: j < |x| ==> x[j].re <= y[j].re
  }

  predicate LaterThan(b: Live, a: Live) { 0.0 <= a.delay && a.delay.Floor < b.delay.Floor && a.level == b.level && a.others == b.others }

  lemma {:induction false} EffectiveLater(a: Live, b: Live, taps: seq<TapSpec>)
    requires LaterThan(b, a) && taps != [] && Nonnegative(taps)
    ensures Nonnegative(Effective(a, taps)) && Nonnegative(Effective(b, taps))
    ensures forall j: nat :: j < |taps| ==> 0 <= Effective(a, taps)[j].delay.Floor <= Effective(b, taps)[j].delay.Floor
  {
  }

  /** One step keeps the slot behind, or brings it behind when it is a tdl. */
  lemma {:induction false} TdlBehind(m: Interp, a: Live, b: Live, step: Step, x: seq<Cx>, y: seq<Cx>, p: nat)
      returns (x': seq<Cx>, y': seq<Cx>)
    requires IsPlain(m) && LaterThan(b, a) && step.TdlStep? && step.taps != [] && Nonnegative(step.taps)
    requires Grows(x) && Grows(y) && |x| == |y| && p + a.delay.Floor < |x| && forall j: nat :: j < |x| ==> x[j].re <= y[j].re
    requires At(x, p + a.delay.Floor - b.delay.Floor) < At(y, p)
    ensures StepSlots(m, b, step, [x]) == [x'] && StepSlots(m, a, step, [y]) == [y'] && Behind(x', y', p + a.delay.Floor)
    ensures |x'| == |x|
  {
    hide IsPlain, Grows, TdlSlots, Mix, T.RingSize;
    var size, early, late := T.RingSize(Delays(step.taps)), Effective(a, step.taps), Effective(b, step.taps);
    EffectiveLater(a, b, step.taps);
    x' := PlainSlot(m, late, size, step.fading, x);
    y' := PlainSlot(m, early, size, step.fading, y);
    SlotGrows(late, x, x');
    SlotGrows(early, y, y');
    forall n: nat | n < |x|
      ensures x'[n].re <= y'[n].re
    {
      MixBelow(late, early, x, y, n, |late|);
    }
    var q := p + a.delay.Floor;
    MixBelow(late, early, x, y, q, |late|);
  }

  /** The positions a difference may move by. */
  function Span(steps: Chain, whole: nat): nat
  {
    if steps == [] then 0 else whole + Span(steps[1..], whole)
  }

  lemma {:induction false} StaysBehind(m: Interp, a: Live, b: Live, steps: Chain, x: seq<Cx>, y: seq<Cx>, p: nat)
    requires IsPlain(m) && LaterThan(b, a) && Tapped(steps) && Behind(x, y, p) && p + Span(steps, a.delay.Floor) < |x|
    ensures Runs(m, b, steps, [x]) != Runs(m, a, steps, [y])
    decreases |steps|
  {
    hide IsPlain, StepSlots, WellFormed;
    if steps != [] {
      var step, rest := steps[0], steps[1..];
      assert forall k: nat :: k < |rest| ==> rest[k] == steps[k + 1];
      PlainIsIdle(m);
      if step.TdlStep? {
        AtGrows(x, p + a.delay.Floor - b.delay.Floor, p);
        var x', y' := TdlBehind(m, a, b, step, x, y, p);
        StaysBehind(m, a, b, rest, x', y', p + a.delay.Floor);
      } else {
        IdleStep(m, a, step, [y]);
        IdleStep(m, b, step, [x]);
        StaysBehind(m, a, b, rest, x, y, p);
      }
    }
  }

  lemma {:induction false} PlainIsIdle(m: Interp)
    requires IsPlain(m)
    ensures IsIdle(m) && WellFormed(m)
  {
  }

  predicate HasTdl(steps: Chain) { exists k: nat :: k < |steps| && steps[k].TdlStep? }

  /** The first sample that is heard. */
  lemma {:induction false} FirstHeard(x: seq<Cx>, q: nat) returns (p: nat)
    requires Grows(x) && q < |x| && x[q].re > 0.0
    ensures p <= q && x[p].re > 0.0 && forall i: int :: i < p ==> At(x, i) == 0.0
  {
    if q > 0 && x[q - 1].re > 0.0 {
      p := FirstHeard(x, q - 1);
    } else {
      p := q;
    }
  }

  /** The same slot, run with the later shared tap, comes out different. */
  lemma {:induction false} RunsApart(m: Interp, a: Live, b: Live, steps: Chain, x: seq<Cx>, q: nat)
    requires IsPlain(m) && LaterThan(b, a) && Tapped(steps) && HasTdl(steps)
    requires Grows(x) && q < |x| && x[q].re > 0.0 && q + Span(steps, a.delay.Floor) < |x|
    ensures Runs(m, b, steps, [x]) != Runs(m, a, steps, [x])
    decreases |steps|
  {
    hide IsPlain, StepSlots, WellFormed;
    var step, rest := steps[0], steps[1..];
    assert forall k: nat :: k < |rest| ==> rest[k] == steps[k + 1];
    PlainIsIdle(m);
    if step.TdlStep? {
      var p := FirstHeard(x, q);
      assert At(x, p + a.delay.Floor - b.delay.Floor) == 0.0;
      var x', y' := TdlBehind(m, a, b, step, x, x, p);
      StaysBehind(m, a, b, rest, x', y', p + a.delay.Floor);
    } else {
      var k: nat :| k < |steps| && steps[k].TdlStep?;
      assert rest[k - 1].TdlStep?;
      IdleStep(m, a, step, [x]);
      IdleStep(m, b, step, [x]);
      RunsApart(m, a, b, rest, x, q);
    }
  }

  /** d samples of silence, then ones. */
  function Ones(length: nat, d: nat): seq<Cx> { seq(length, (j: nat) => if j < d then ZERO else ONE) }

  lemma {:induction false} DelayedOnes(length: nat, d: nat)
    ensures Delayed([Ones(length, 0)], d) == [Ones(length, d)] && Grows(Ones(length, d))
  {
    var x := Ones(length, 0);
    OneSlot(x);
    forall n: nat | n < length
      ensures Delayed([x], d)[0][n] == Ones(length, d)[n]
    {
      assert Delayed([x], d)[0][n] == S.Sample(x, n - d);
    }
    assert Delayed([x], d)[0] == Ones(length, d);
  }

  /** Behind a leading tdl the ones still grow, and are heard at its tap 0. */
  lemma {:induction false} ShapedOnes(m: Interp, chain: Chain, length: nat, d: nat) returns (x: seq<Cx>)
    requires IsPlain(m) && Tapped(chain) && d + LiveOf(chain).delay.Floor < length && LiveOf(chain).delay >= 0.0
    ensures Shaped(m, chain, Delayed([Ones(length, 0)], d)) == [x] && |x| == length && Grows(x)
    ensures x[d + LiveOf(chain).delay.Floor].re > 0.0
  {
    hide IsPlain, TdlSlots, T.RingSize, Mix, Delayed, WellFormed;
    PlainIsIdle(m);
    DelayedOnes(length, d);
    x := Ones(length, d);
    if LeadsWithTdl(chain) {
      var taps, q := chain[0].taps, d + chain[0].taps[0].delay.Floor;
      x := PlainSlot(m, taps, T.RingSize(Delays(taps)), chain[0].fading, Ones(length, d));
      SlotGrows(taps, Ones(length, d), x);
      MixGrows(taps, Ones(length, d), q, q, |taps|);
    }
  }

  lemma {:induction false} PlainLeads(m: Interp, chain: Chain, d: nat)
    requires IsPlain(m) && Tapped(chain)
    ensures LeadCausal(m, chain, d)
  {
    hide S.LookAhead;
    if LeadsWithTdl(chain) {
      forall n: nat, o: nat | 1 <= o <= 3 && n + o >= d
        ensures S.LookAhead(TapsAt(m, chain[0].taps, chain[0].fading, n), o, |chain[0].taps|) == ZERO
      {
        S.DeepOrWholeIsCausal(TapsAt(m, chain[0].taps, chain[0].fading, n), o, |chain[0].taps|);
      }
    }
  }

  lemma {:induction false} LiveNonnegative(chain: Chain, d: nat)
    requires Tapped(chain) && d >= 1
    ensures LiveOf(chain).delay >= 0.0 && LaterThan(LiveOf(chain).(delay := LiveOf(chain).delay + d as real), LiveOf(chain))
  {
    WholeShift(LiveOf(chain).delay, d);
    assert LeadsWithTdl(chain) ==> Nonnegative(chain[0].taps);
  }

  lemma {:induction false} RestHasTdl(chain: Chain)
    requires Tapped(chain) && !OnlyLeadingTdl(chain)
    ensures HasTdl(Rest(chain)) && Tapped(Rest(chain))
  {
    var k: nat :| 1 <= k < |chain| && chain[k].TdlStep?;
    assert Rest(chain)[if LeadsWithTdl(chain) then k - 1 else k].TdlStep?;
  }

  /** What comes out of a chain and of its clone differs by the shared tap. */
  lemma {:induction false} ApartByRest(m: Interp, chain: Chain, d: nat, slots: Slots, x: seq<Cx>)
    requires WellFormed(m) && Tapped(chain) && LeadCausal(m, chain, d) && Shaped(m, chain, Delayed(slots, d)) == [x]
    requires Runs(m, LiveOf(chain).(delay := LiveOf(chain).delay + d as real), Rest(chain), [x]) !=
             Runs(m, LiveOf(chain), Rest(chain), [x])
    ensures Meaning(m, Clone(LeadDelay, d as real, chain), slots) != Meaning(m, chain, Delayed(slots, d))
  {
    hide WellFormed, Shaped, Runs, Clone, Meaning, LiveOf, Delayed, Tapped, LeadCausal, Rest;
    DelayCloneRuns(m, chain, slots, d);
    ByRest(m, chain, Delayed(slots, d));
  }

  /** One long slot of ones shows that a later tdl is delayed too. */
  lemma {:induction false} LaterTdlShows(m: Interp, chain: Chain, d: nat) returns (slots: Slots)
    requires IsPlain(m) && Tapped(chain) && d >= 1 && !OnlyLeadingTdl(chain)
    ensures WellFormed(m)
    ensures Meaning(m, Clone(LeadDelay, d as real, chain), slots) != Meaning(m, chain, Delayed(slots, d))
  {
    var whole := LiveWhole(chain, d);
    PlainIsIdle(m);
    slots := [Ones(d + whole + Span(Rest(chain), whole) + 1, 0)];
    LaterTdlApart(m, chain, d, whole, slots);
  }

  lemma {:induction false} LiveWhole(chain: Chain, d: nat) returns (whole: nat)
    requires Tapped(chain) && d >= 1
    ensures LiveOf(chain).delay >= 0.0 && whole == LiveOf(chain).delay.Floor
    ensures LaterThan(LiveOf(chain).(delay := LiveOf(chain).delay + d as real), LiveOf(chain))
  {
    hide LaterThan, Tapped, LiveOf;
    LiveNonnegative(chain, d);
    FloorNonnegative(LiveOf(chain).delay);
    whole := LiveOf(chain).delay.Floor;
  }

  lemma {:induction false} LaterTdlApart(m: Interp, chain: Chain, d: nat, whole: nat, slots: Slots)
    requires IsPlain(m) && WellFormed(m) && Tapped(chain) && d >= 1 && !OnlyLeadingTdl(chain)
    requires LiveOf(chain).delay >= 0.0 && whole == LiveOf(chain).delay.Floor
    requires LaterThan(LiveOf(chain).(delay := LiveOf(chain).delay + d as real), LiveOf(chain))
    requires slots == [Ones(d + whole + Span(Rest(chain), whole) + 1, 0)]
    ensures Meaning(m, Clone(LeadDelay, d as real, chain), slots) != Meaning(m, chain, Delayed(slots, d))
  {
    hide IsPlain, IsIdle, WellFormed, Shaped, Runs, Clone, Meaning, LiveOf, Delayed, Tapped, OnlyLeadingTdl, LeadCausal, Grows,
         LaterThan, Span, HasTdl, Rest, Ones;
    RestHasTdl(chain);
    PlainLeads(m, chain, d);
    var x := ShapedOnes(m, chain, d + whole + Span(Rest(chain), whole) + 1, d);
    RunsApart(m, LiveOf(chain), LiveOf(chain).(delay := LiveOf(chain).delay + d as real), Rest(chain), x, d + whole);
    ApartByRest(m, chain, d, slots, x);
  }

  lemma {:induction false} FloorNonnegative(x: real)
    ensures x >= 0.0 ==> x.Floor >= 0
  {
  }

  // ------------------------------------------------------------------------
  // The exact condition
  // ------------------------------------------------------------------------

  /** The delay fold keeps what a chain does, for all filters, gains and copied
      steps and for every stream and cut, exactly when it adds no delay, or no
      tdl stands behind the first step and every path of a leading tdl is three
      samples deep or a whole number of samples. */
  lemma {:induction false} DelayKeptIff(chain: Chain, d: nat)
    requires Tapped(chain)
    ensures DelayKept(chain, d) <==> d == 0 || Foldable(chain)
  {
    hide Tapped, Clone, Meaning, WellFormed, Delayed, CausalFrom, DeepOrWhole, OnlyLeadingTdl;
    if d == 0 || Foldable(chain) {
      forall m: Interp, slots: Slots | WellFormed(m)
        ensures Meaning(m, Clone(LeadDelay, d as real, chain), slots) == Meaning(m, chain, Delayed(slots, d))
      {
        FoldableIsCausal(m, chain, d);
        DelayCloneMeaning(m, chain, slots, d);
      }
    } else {
      var m, slots := Unkept(chain, d);
    }
  }

  lemma {:induction false} FoldableIsCausal(m: Interp, chain: Chain, d: nat)
    requires WellFormed(m) && Tapped(chain)
    ensures Foldable(chain) ==> LeadCausal(m, chain, d)
  {
    hide CausalFrom, DeepOrWhole, WellFormed;
    if Foldable(chain) && LeadsWithTdl(chain) {
      LeadTaps(chain);
      DeepIsCausal(m, chain[0].taps, chain[0].fading, d);
    }
  }

  /** Some interpretation and slots show it, with all factors one. */
  lemma {:induction false} Unkept(chain: Chain, d: nat) returns (m: Interp, slots: Slots)
    requires Tapped(chain) && d >= 1 && !Foldable(chain)
    ensures IsIdle(m)
    ensures Meaning(m, Clone(LeadDelay, d as real, chain), slots) != Meaning(m, chain, Delayed(slots, d))
  {
    if OnlyLeadingTdl(chain) {
      hide Tapped, Clone, Meaning, Delayed, CausalFrom, DeepOrWhole, OnlyLeadingTdl, WellFormed;
      m := Rough();
      LeadTaps(chain);
      ShallowIsNotCausal(m, chain[0].taps, chain[0].fading, d);
      slots := LeadShows(m, chain, d);
    } else {
      hide Tapped, Clone, Meaning, Delayed, OnlyLeadingTdl, WellFormed;
      m := Plain();
      slots := LaterTdlShows(m, chain, d);
    }
  }

  /** Both folds keep what link i of a topology does, exactly when the link has no
      delay or its declared chain is foldable. */
  lemma {:induction false} FoldsKeepMeaningIff(c: Config, format: real -> string, i: nat, d: nat)
    requires i < |c.links| && c.links[i].model in c.models && Tapped(ChainOf(c, i)) && DelayOf(c, i) == d as real
    requires Clean(LeadDelay, c, format) && Clean(TxScale, Fold(LeadDelay, c, format), format)
    ensures var r := Fold(TxScale, Fold(LeadDelay, c, format), format);
            i < |r.links| &&
            ((forall m: Interp, slots: Slots :: WellFormed(m) ==> KeptOn(m, c, r, i, d, slots)) <==>
             d == 0 || Foldable(ChainOf(c, i)))
  {
    hide Clean, Fold, Clone, WellFormed, Meaning, Tapped, Foldable, DelayOf, Delayed, LeadCausal, KeptOn;
    var r, chain := Fold(TxScale, Fold(LeadDelay, c, format), format), ChainOf(c, i);
    PlainIsIdle(Plain());
    BothFolds(Plain(), c, format, i, d, []);
    if d == 0 || Foldable(chain) {
      forall m: Interp, slots: Slots | WellFormed(m)
        ensures KeptOn(m, c, r, i, d, slots)
      {
        FoldableIsCausal(m, chain, d);
        FoldableLeads(chain);
        FoldsKeepMeaning(m, c, format, i, d, slots);
      }
    } else {
      var m, slots := Unkept(chain, d);
      NotKeptOn(m, c, format, i, d, slots);
    }
  }

  lemma {:induction false} FoldableLeads(chain: Chain)
    ensures Foldable(chain) ==> OnlyLeadingTdl(chain)
  {
  }

  lemma {:induction false} NotKeptOn(m: Interp, c: Config, format: real -> string, i: nat, d: nat, slots: Slots)
    requires IsIdle(m) && d >= 1
    requires i < |c.links| && c.links[i].model in c.models && Tapped(ChainOf(c, i)) && DelayOf(c, i) == d as real
    requires Clean(LeadDelay, c, format) && Clean(TxScale, Fold(LeadDelay, c, format), format)
    requires Meaning(m, Clone(LeadDelay, d as real, ChainOf(c, i)), slots) != Meaning(m, ChainOf(c, i), Delayed(slots, d))
    ensures WellFormed(m)
    ensures var r := Fold(TxScale, Fold(LeadDelay, c, format), format);
            i < |r.links| && !KeptOn(m, c, r, i, d, slots)
  {
    hide Clean, Fold, Clone, WellFormed, Meaning, Tapped, DelayOf, Delayed, Scaled;
    BothFolds(m, c, format, i, d, slots);
    UnitScale(slots);
    UnitScale(Delayed(slots, d));
    assert AmplitudeOf(m, c, i) == 1.0;
  }
}
