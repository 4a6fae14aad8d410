/** When exactly the delay fold keeps what a chain does, slot by slot.  Two things
    stand in its way: a shifted leading path has samples that the declared one,
    fed the delayed stream, misses at the slot's end; and the clone's leading tap
    also sets tap 0 of every later tdl. */
module FoldLimits {
  import opened Complex
  import opened Folds
  import opened LinkSlots
  import opened FoldMeaning
  import T = Tdl
  import S = TdlStream

  // ------------------------------------------------------------------------
  // Steps that do nothing
  // ------------------------------------------------------------------------

  function Last(slots: Slots): seq<Cx> { if slots == [] then [] else slots[|slots| - 1] }

  /** Every step but a tdl leaves its slots as they are. */
  ghost predicate IsIdle(m: Interp)
  {
    WellFormed(m) && (forall db: real :: m.factor(db) == 1.0) &&
    forall ids: seq<int>, id: int, slots: Slots :: slots != [] ==> m.other(ids, id, slots) == Last(slots)
  }

  /** m with the other steps idle. */
  ghost function Idle(m: Interp): (r: Interp)
    requires WellFormed(m)
    ensures IsIdle(r) && Agree(m, r)
  {
    m.(factor := (db: real) => 1.0, other := (ids: seq<int>, id: int, slots: Slots) => Last(slots))
  }

  /** The same filters and tap gains. */
  ghost predicate Agree(m: Interp, r: Interp) { r == m.(factor := r.factor, other := r.other) }

  lemma {:induction false} IdleStep(m: Interp, live: Live, step: Step, slots: Slots)
    requires IsIdle(m) && !step.TdlStep?
    ensures StepSlots(m, live, step, slots) == slots
  {
    hide WellFormed;
    if step.GainStep? {
      UnitScale(slots);
    } else {
      forall k: nat | k < |slots|
        ensures StepSlots(m, live, step, slots)[k] == slots[k]
      {
        assert Last(slots[..k + 1]) == slots[k];
      }
    }
  }

  lemma {:induction false} IdleRuns(m: Interp, live: Live, steps: Chain, slots: Slots)
    requires IsIdle(m) && forall k: nat :: k < |steps| ==> !steps[k].TdlStep?
    ensures Runs(m, live, steps, slots) == slots
    decreases |steps|
  {
    hide IsIdle;
    if steps != [] {
      IdleStep(m, live, steps[0], slots);
      IdleRuns(m, live, steps[1..], slots);
    }
  }

  // ------------------------------------------------------------------------
  // The leading step's look-ahead
  // ------------------------------------------------------------------------

  /** One slot, silent but for an impulse. */
  function Probe(length: nat, at: nat): Slots
  {
    [seq(length, (j: nat) => if j == at then ONE else ZERO)]
  }

  lemma {:induction false} ProbeGap(n: nat, o: nat, d: nat)
    requires d >= 1 && 1 <= o <= 3 && n + o >= d
    ensures Start(Probe(n + o, n + o - d), 0) == 0
    ensures var gap := Gap(Probe(n + o, n + o - d), 0, n, d);
            gap(1) == (if o == 1 then ONE else ZERO) && gap(2) == (if o == 2 then ONE else ZERO) &&
            gap(3) == (if o == 3 then ONE else ZERO)
  {
    var slots := Probe(n + o, n + o - d);
    OneSlot(slots[0]);
    assert slots == [slots[0]];
    var gap := Gap(slots, 0, n, d);
    forall a: int | 1 <= a <= 3
      ensures gap(a) == if a == o then ONE else ZERO
    {
      assert n + o <= n + a < n + o + d ==> gap(a) == S.Sample(slots[0], n + a - d);
    }
  }

  lemma {:induction false} OneSlot(slot: seq<Cx>)
    ensures S.Concat([slot]) == slot && Start([slot], 0) == 0
  {
    assert [slot][1..] == [] && [slot][..0] == [];
    assert S.Concat([slot]) == slot + S.Concat([]);
  }

  lemma {:induction false} UnitGains(m: Interp)
    requires WellFormed(m)
    ensures m.gain(UNIT, UNIT, NO_FADING, 0) == ONE
  {
  }

  /** A coefficient ahead is heard in a slot that ends just before its sample. */
  lemma {:induction false} LookAheadShows(m: Interp, taps: seq<TapSpec>, fading: int, d: nat, n: nat, o: nat)
    requires WellFormed(m) && Nonnegative(taps) && d >= 1 && 1 <= o <= 3 && n + o >= d
    requires S.LookAhead(TapsAt(m, taps, fading, n), o, |taps|) != ZERO
    ensures TdlSlots(m, Shifted(taps, d as real), T.RingSize(Delays(Shifted(taps, d as real))), fading, Probe(n + o, n + o - d)) !=
            TdlSlots(m, taps, T.RingSize(Delays(taps)), fading, Delayed(Probe(n + o, n + o - d), d))
  {
    hide TdlSlot, WellFormed, S.LookAhead, S.Three, T.RingSize, Gap, Delayed, TapsAt, Start;
    var slots := Probe(n + o, n + o - d);
    ShiftedSample(m, taps, fading, d, slots, 0, n);
    ProbeGap(n, o, d);
    var now := TapsAt(m, taps, fading, n);
    S.OneOfThree(S.LookAhead(now, 1, |taps|), S.LookAhead(now, 2, |taps|), S.LookAhead(now, 3, |taps|), o);
    assert GapPart(m, taps, fading, slots, 0, n, d) == S.LookAhead(now, o, |taps|);
    var a := TdlSlots(m, Shifted(taps, d as real), T.RingSize(Delays(Shifted(taps, d as real))), fading, slots);
    var b := TdlSlots(m, taps, T.RingSize(Delays(taps)), fading, Delayed(slots, d));
    AddedNonzero(b[0][n], S.LookAhead(now, o, |taps|));
    assert a[0][n] != b[0][n];
  }

  lemma {:induction false} AddedNonzero(a: Cx, b: Cx)
    requires b != ZERO
    ensures a.Add(b) != a
  {
  }

  /** The clone does to all slots what the chain does to those of the delayed
      stream, whatever the steps behind a leading tdl are. */
  ghost predicate LeadKept(m: Interp, chain: Chain, d: nat)
  {
    forall r: Interp, slots: Slots :: WellFormed(r) && Agree(m, r) ==>
      Meaning(r, Clone(LeadDelay, d as real, chain), slots) == Meaning(r, chain, Delayed(slots, d))
  }

  lemma {:induction false} AgreeCausal(m: Interp, r: Interp, chain: Chain, d: nat)
    requires WellFormed(m) && WellFormed(r) && Agree(m, r)
    ensures LeadCausal(m, chain, d) <==> LeadCausal(r, chain, d)
  {
    hide WellFormed, S.LookAhead;
    if LeadsWithTdl(chain) {
      var taps, fading := chain[0].taps, chain[0].fading;
      forall n: nat
        ensures TapsAt(m, taps, fading, n) == TapsAt(r, taps, fading, n)
      {
        assert forall k: nat :: k < |taps| ==> TapAt(m, taps[k], fading, n) == TapAt(r, taps[k], fading, n);
      }
    }
  }

  lemma {:induction false} BehindLead(m: Interp, chain: Chain, slots: Slots)
    requires IsIdle(m) && OnlyLeadingTdl(chain) && LeadsWithTdl(chain)
    ensures Meaning(m, chain, slots) == TdlSlots(m, chain[0].taps, T.RingSize(Delays(chain[0].taps)), chain[0].fading, slots)
  {
    hide WellFormed, TdlSlots;
    ByRest(m, chain, slots);
    assert forall k: nat :: k < |Rest(chain)| ==> Rest(chain)[k] == chain[k + 1];
    IdleRuns(m, LiveOf(chain), Rest(chain), Shaped(m, chain, slots));
  }

  /** For given filters and gains, and no tdl behind the first step: the fold
      keeps what the chain does exactly when it adds no delay or nothing that a
      leading tdl applies ahead contributes. */
  lemma {:induction false} LeadKeptIff(m: Interp, chain: Chain, d: nat)
    requires WellFormed(m) && Tapped(chain) && OnlyLeadingTdl(chain)
    ensures LeadKept(m, chain, d) <==> d == 0 || LeadCausal(m, chain, d)
  {
    if d == 0 || LeadCausal(m, chain, d) {
      forall r: Interp, slots: Slots | WellFormed(r) && Agree(m, r)
        ensures Meaning(r, Clone(LeadDelay, d as real, chain), slots) == Meaning(r, chain, Delayed(slots, d))
      {
        hide WellFormed, LeadCausal, Meaning, Tapped, OnlyLeadingTdl, Agree;
        AgreeCausal(m, r, chain, d);
        DelayCloneMeaning(r, chain, slots, d);
      }
    } else {
      hide WellFormed, Meaning, Delayed, Tapped, LeadCausal, IsIdle, OnlyLeadingTdl;
      AgreeCausal(m, Idle(m), chain, d);
      var slots := LeadShows(Idle(m), chain, d);
    }
  }

  /** Some slots show it when the steps behind are idle. */
  lemma {:induction false} LeadShows(m: Interp, chain: Chain, d: nat) returns (slots: Slots)
    requires IsIdle(m) && Tapped(chain) && OnlyLeadingTdl(chain) && d >= 1 && !LeadCausal(m, chain, d)
    ensures WellFormed(m)
    ensures Meaning(m, Clone(LeadDelay, d as real, chain), slots) != Meaning(m, chain, Delayed(slots, d))
  {
    hide WellFormed, Meaning, TdlSlots, Delayed, Tapped, T.RingSize, S.LookAhead, TapsAt;
    var taps, fading := chain[0].taps, chain[0].fading;
    var n: nat, o: nat :| 1 <= o <= 3 && n + o >= d && S.LookAhead(TapsAt(m, taps, fading, n), o, |taps|) != ZERO;
    slots := Probe(n + o, n + o - d);
    LeadTaps(chain);
    LookAheadShows(m, taps, fading, d, n, o);
    BehindLead(m, chain, Delayed(slots, d));
    BehindLead(m, Clone(LeadDelay, d as real, chain), slots);
  }

  lemma {:induction false} LeadTaps(chain: Chain)
    requires Tapped(chain) && LeadsWithTdl(chain)
    ensures chain[0].taps != [] && Nonnegative(chain[0].taps)
  {
  }

  /** An unfaded step: its effective look-ahead coefficients vanish. */
  lemma {:induction false} UnfadedCausal(m: Interp, taps: seq<TapSpec>, d: nat)
    requires WellFormed(m) && Nonnegative(taps)
    ensures T.ValidTaps(TapsAt(m, taps, NO_FADING, 0))
    ensures CausalFrom(m, taps, NO_FADING, d) <==> S.Causal(TapsAt(m, taps, NO_FADING, 0))
  {
    hide S.LookAhead, WellFormed;
    forall n: nat
      ensures TapsAt(m, taps, NO_FADING, n) == TapsAt(m, taps, NO_FADING, 0)
    {
      UnfadedTaps(m, taps, n);
    }
    if CausalFrom(m, taps, NO_FADING, d) {
      assert forall o: nat :: 1 <= o <= 3 ==> S.LookAhead(TapsAt(m, taps, NO_FADING, d), o, |taps|) == ZERO;
    }
  }

  /** So an unfaded leading tdl may be shifted exactly when its slots' ends
      cannot be heard at all. */
  lemma {:induction false} UnfadedLeadKeptIff(m: Interp, taps: seq<TapSpec>, rest: Chain, d: nat)
    requires WellFormed(m) && taps != [] && Nonnegative(taps) && d >= 1
    requires forall k: nat :: k < |rest| ==> !rest[k].TdlStep?
    ensures T.ValidTaps(TapsAt(m, taps, NO_FADING, 0))
    ensures LeadKept(m, [TdlStep(taps, NO_FADING)] + rest, d) <==>
            S.CutInvisible(TapsAt(m, taps, NO_FADING, 0), T.RingSize(Delays(taps)))
  {
    hide LeadKept, S.CutInvisible, S.Causal, WellFormed, CausalFrom;
    var chain, now := [TdlStep(taps, NO_FADING)] + rest, TapsAt(m, taps, NO_FADING, 0);
    assert Tapped(chain) && OnlyLeadingTdl(chain);
    LeadKeptIff(m, chain, d);
    UnfadedCausal(m, taps, d);
    assert forall j: nat :: j < |taps| ==> Delays(taps)[j] == now[j].delay;
    S.CutInvisibleIffCausal(now, T.RingSize(Delays(taps)));
  }

  /** A tdl of half a sample under a link delay of three: the clone's path of 3.5
      samples finds a sample that the declared path, fed three samples later,
      has not when the slot ends. */
  lemma {:induction false} HalfSample(m: Interp)
    requires WellFormed(m) && m.sinc(0.5)[0] != 0.0
    ensures var chain, slots := [TdlStep([TapSpec(0.5, UNIT, UNIT)], NO_FADING)], [[ONE, ZERO, ZERO]];
            Meaning(m, Clone(LeadDelay, 3.0, chain), slots) != Meaning(m, chain, Delayed(slots, 3))
  {
    var tap := TapSpec(0.5, UNIT, UNIT);
    var chain, slots := [TdlStep([tap], NO_FADING)], [[ONE, ZERO, ZERO]];
    assert slots[0] == Probe(3, 0)[0];
    assert slots == Probe(3, 0);
    hide TdlSlots, Delayed, T.RingSize;
    var now := TapsAt(m, [tap], NO_FADING, 0);
    assert (0.5).Floor == 0 && now[0].Whole() == 0 && now[0].h == m.sinc(0.5) && now == [now[0]];
    S.SingleCoefficient(now[0], 3);
    LookAheadShows(m, [tap], NO_FADING, 3, 0, 3);
    var clone := Clone(LeadDelay, 3.0, chain);
    LeadOnly(m, [tap], NO_FADING, Delayed(slots, 3));
    LeadOnly(m, Shifted([tap], 3.0), NO_FADING, slots);
    assert clone == [TdlStep(Shifted([tap], 3.0), NO_FADING)];
  }

  lemma {:induction false} LeadOnly(m: Interp, taps: seq<TapSpec>, fading: int, slots: Slots)
    requires WellFormed(m)
    ensures Meaning(m, [TdlStep(taps, fading)], slots) == TdlSlots(m, taps, T.RingSize(Delays(taps)), fading, slots)
  {
    hide TdlSlots, WellFormed;
    var chain := [TdlStep(taps, fading)];
    ByRest(m, chain, slots);
    assert Rest(chain) == [];
  }

  // ------------------------------------------------------------------------
  // A later step's ring
  // ------------------------------------------------------------------------

  /** A tap of d whole samples over a ring that was not made for it: it is that
      delay for every stream and cut exactly when the ring holds d samples. */
  lemma {:induction false} LaterTapIff(m: Interp, d: nat, role: int, size: nat)
    requires WellFormed(m) && m.gain(UNIT, role, NO_FADING, 0) == ONE
    ensures (forall slots: Slots ::
               TdlSlots(m, [TapSpec(d as real, UNIT, role)], size, NO_FADING, slots) == Delayed(slots, d)) <==> d <= size
  {
    hide WellFormed, TdlSlot;
    if d <= size {
      forall slots: Slots
        ensures TdlSlots(m, [TapSpec(d as real, UNIT, role)], size, NO_FADING, slots) == Delayed(slots, d)
      {
        PureDelay(m, d, role, size, slots);
      }
    } else {
      RingCutsOff(m, d, role, size, 0);
    }
  }

  /** Silence, an impulse at `at`, then a slot that starts d samples after it. */
  function TwoSlots(at: nat, d: nat): Slots { Probe(at + d, at) + [[ZERO]] }

  lemma {:induction false} TwoSlotsAt(at: nat, d: nat)
    ensures Start(TwoSlots(at, d), 1) == at + d
    ensures d > 0 ==> S.Sample(S.Concat(TwoSlots(at, d)), at) == ONE
  {
    var slots := TwoSlots(at, d);
    assert slots[..1] == Probe(at + d, at);
    assert S.Concat(slots[..1]) == slots[0] by {
      assert slots[..1][1..] == [];
      assert S.Concat(slots[..1]) == slots[..1][0] + S.Concat([]);
    }
    assert S.Concat(slots) == slots[0] + S.Concat(slots[1..]);
  }

  lemma {:induction false} RingCutsOff(m: Interp, d: nat, role: int, size: nat, at: nat)
    requires WellFormed(m) && m.gain(UNIT, role, NO_FADING, 0) == ONE && size < d
    ensures TdlSlots(m, [TapSpec(d as real, UNIT, role)], size, NO_FADING, TwoSlots(at, d)) != Delayed(TwoSlots(at, d), d)
  {
    hide WellFormed, TdlSlot, S.Concat, Start;
    var slots := TwoSlots(at, d);
    TwoSlotsAt(at, d);
    WholeSamplePath(m, d, role, size, slots, 1, 0);
    assert TdlSlots(m, [TapSpec(d as real, UNIT, role)], size, NO_FADING, slots)[1][0] == ZERO;
    assert Delayed(slots, d)[1][0] == ONE;
  }

  /** In slots no longer than what the ring lacks, nothing comes through. */
  lemma {:induction false} LaterTapSilent(m: Interp, d: nat, role: int, size: nat, slots: Slots, k: nat, n: nat)
    requires WellFormed(m) && m.gain(UNIT, role, NO_FADING, 0) == ONE
    requires k < |slots| && n < |slots[k]| && |slots[k]| + size <= d
    ensures TdlSlots(m, [TapSpec(d as real, UNIT, role)], size, NO_FADING, slots)[k][n] == ZERO
  {
    hide WellFormed, TdlSlot;
    WholeSamplePath(m, d, role, size, slots, k, n);
  }

  /** A path loss, say, before a tdl of one tap. */
  function LossThenTdl(t: real): Chain { [OtherStep(0), TdlStep([TapSpec(t, UNIT, UNIT)], NO_FADING)] }

  lemma {:induction false} OneRing(t: real)
    requires t >= 0.0
    ensures T.RingSize(Delays([TapSpec(t, UNIT, UNIT)])) == T.Ceiling(t) + T.FILTER_TAPS
  {
    var delays := Delays([TapSpec(t, UNIT, UNIT)]);
    assert delays[..0] == [] && delays[0] == t;
    assert T.Deepest(delays[..0]) == 0.0;
  }

  lemma {:induction false} OneTap(live: Live, tap: TapSpec)
    ensures Effective(live, [tap]) == [tap.(delay := live.delay, level := live.level)]
  {
  }

  /** The clone runs a delay of d, the idle step, and the later tdl at d. */
  lemma {:induction false} LossThenTdlRuns(m: Interp, t: real, d: nat, slots: Slots)
    requires IsIdle(m) && t >= 0.0
    ensures Meaning(m, Clone(LeadDelay, d as real, LossThenTdl(t)), slots) ==
            TdlSlots(m, [TapSpec(d as real, UNIT, UNIT)], T.RingSize(Delays([TapSpec(t, UNIT, UNIT)])), NO_FADING, Delayed(slots, d))
    ensures Meaning(m, LossThenTdl(t), slots) == slots
  {
    UnitGains(m);
    hide WellFormed, TdlSlots, Delayed, Clone, T.RingSize;
    var chain := LossThenTdl(t);
    var live := LiveOf(chain);
    var moved := live.(delay := live.delay + d as real);
    DelayCloneRuns(m, chain, slots, d);
    LossRuns(m, moved, t, Delayed(slots, d));
    LossRuns(m, live, t, slots);
    PureDelay(m, 0, UNIT, T.RingSize(Delays([TapSpec(t, UNIT, UNIT)])), slots);
    NotDelayed(slots);
  }

  lemma {:induction false} LossRuns(m: Interp, live: Live, t: real, slots: Slots)
    requires IsIdle(m)
    ensures Runs(m, live, LossThenTdl(t), slots) ==
            TdlSlots(m, [TapSpec(live.delay, live.level, UNIT)], T.RingSize(Delays([TapSpec(t, UNIT, UNIT)])), NO_FADING, slots)
  {
    hide WellFormed, TdlSlots, T.RingSize;
    var chain, last := LossThenTdl(t), TdlStep([TapSpec(t, UNIT, UNIT)], NO_FADING);
    IdleStep(m, live, chain[0], slots);
    OneTap(live, TapSpec(t, UNIT, UNIT));
    assert chain[1..] == [last] && [last][1..] == [];
    assert Runs(m, live, [], StepSlots(m, live, last, slots)) == StepSlots(m, live, last, slots);
    assert Runs(m, live, [last], slots) == StepSlots(m, live, last, slots);
  }

  /** A link delay of d samples arrives as 2d, for every stream and cut, exactly
      when the later tdl's ring, made for t, holds d samples; without a delay the
      tdl's own delay t is not run at all. */
  lemma {:induction false} DelayedTwiceIff(m: Interp, t: real, d: nat)
    requires IsIdle(m) && t >= 0.0
    ensures (forall slots: Slots :: Meaning(m, Clone(LeadDelay, d as real, LossThenTdl(t)), slots) == Delayed(slots, 2 * d)) <==>
            d <= T.Ceiling(t) + T.FILTER_TAPS
    ensures forall slots: Slots :: Meaning(m, LossThenTdl(t), slots) == slots
  {
    UnitGains(m);
    hide WellFormed, TdlSlots, Delayed, Meaning, Clone, T.RingSize, LossThenTdl;
    var size := T.RingSize(Delays([TapSpec(t, UNIT, UNIT)]));
    OneRing(t);
    forall slots: Slots
      ensures Meaning(m, LossThenTdl(t), slots) == slots
      ensures d <= size ==> Meaning(m, Clone(LeadDelay, d as real, LossThenTdl(t)), slots) == Delayed(slots, 2 * d)
    {
      LossThenTdlRuns(m, t, d, slots);
      if d <= size {
        PureDelay(m, d, UNIT, size, Delayed(slots, d));
        DelayedAgain(slots, d, d);
      }
    }
    if d > size {
      LateAndCutOff(m, t, d, size);
    }
  }

  /** An impulse at 0 is past the ring when the slot at 2d starts. */
  lemma {:induction false} LateAndCutOff(m: Interp, t: real, d: nat, size: nat)
    requires IsIdle(m) && t >= 0.0 && size == T.RingSize(Delays([TapSpec(t, UNIT, UNIT)])) && size < d
    ensures exists slots: Slots :: Meaning(m, Clone(LeadDelay, d as real, LossThenTdl(t)), slots) != Delayed(slots, 2 * d)
  {
    UnitGains(m);
    hide WellFormed, TdlSlot, S.Concat, Start, Meaning, Clone, T.RingSize, LossThenTdl;
    var slots := TwoSlots(0, 2 * d);
    var late := Delayed(slots, d);
    TwoSlotsAt(0, 2 * d);
    LossThenTdlRuns(m, t, d, slots);
    WholeSamplePath(m, d, UNIT, size, late, 1, 0);
    assert TdlSlots(m, [TapSpec(d as real, UNIT, UNIT)], size, NO_FADING, late)[1][0] == ZERO;
    assert Delayed(slots, 2 * d)[1][0] == ONE;
  }

  /** And when every slot is no longer than what that ring lacks, the link is
      silent: t = 5, d = 100 and slots of at most 87 samples. */
  lemma {:induction false} DelayedAway(m: Interp, t: real, d: nat, slots: Slots, k: nat, n: nat)
    requires IsIdle(m) && t >= 0.0
    requires k < |slots| && n < |slots[k]| && |slots[k]| + T.Ceiling(t) + T.FILTER_TAPS <= d
    ensures Meaning(m, Clone(LeadDelay, d as real, LossThenTdl(t)), slots)[k][n] == ZERO
  {
    UnitGains(m);
    hide WellFormed, TdlSlots, Meaning, Clone, T.RingSize, LossThenTdl;
    OneRing(t);
    LossThenTdlRuns(m, t, d, slots);
    LaterTapSilent(m, d, UNIT, T.RingSize(Delays([TapSpec(t, UNIT, UNIT)])), Delayed(slots, d), k, n);
  }
}
