/** RealTimePacer (include/ocudu_gpu_channel/pacing.h): two coupled deadlines in
    integer nanoseconds with carried remainders.  `Pacing` is the object's state
    as a value, the class is proved equal to it, and the run lemmas are about
    any sequence of charges and publications. */
module Pacing {
  import opened Modular

  const SECOND := 1_000_000_000
  const MILLION := 1_000_000

  function Max(a: int, b: int): int { if a >= b then a else b }

  datatype Pacer = Pacer(
    rate: nat, burst: int, denominator: nat,
    nominalRemainder: nat, recoveryRemainder: nat,
    nominal: int, limiter: int, charged: int, lag: int, maxLag: int,
    anchored: bool, pending: bool)

  /** The constructor: the burst credit expressed in limiter time. */
  function New(rateHz: nat, burst: nat, recoveryPpm: nat): (p: Pacer)
    ensures p.rate >= 1 && p.denominator == MILLION + recoveryPpm
  {
    var denominator := MILLION + recoveryPpm;
    Pacer(if rateHz == 0 then 1 else rateHz,
          Quot(burst, denominator) * MILLION + Quot(Wrap(burst, denominator) * MILLION, denominator),
          denominator, 0, 0, 0, 0, 0, 0, 0, false, false)
  }

  /** Nanoseconds `count` samples add to the nominal clock. */
  function NominalNs(p: Pacer, count: nat): nat
    requires p.rate >= 1
  {
    Quot(count, p.rate) * SECOND + Quot(Wrap(count, p.rate) * SECOND + p.nominalRemainder, p.rate)
  }

  /** Nanoseconds those add to the limiter. */
  function RecoveryNs(p: Pacer, nominalNs: nat): nat
    requires p.denominator >= 1
  {
    Quot(nominalNs, p.denominator) * MILLION + Quot(Wrap(nominalNs, p.denominator) * MILLION + p.recoveryRemainder, p.denominator)
  }

  function Anchor(p: Pacer, now: int): Pacer
  {
    var q := if p.anchored then p else p.(nominal := now, limiter := now, anchored := true);
    q.(limiter := Max(q.limiter, now - q.burst))
  }

  function Due(p: Pacer, now: int): int
  {
    var q := Anchor(p, now);
    Max(q.nominal, q.limiter)
  }

  function Charged(p: Pacer, now: int, count: nat): Pacer
    requires p.rate >= 1 && p.denominator >= 1
  {
    var q := Anchor(p, now);
    var nominalNs := NominalNs(q, count);
    var recoveryNs := RecoveryNs(q, nominalNs);
    q.(nominalRemainder := Wrap(Wrap(count, q.rate) * SECOND + q.nominalRemainder, q.rate),
       nominal := q.nominal + nominalNs,
       recoveryRemainder := Wrap(Wrap(nominalNs, q.denominator) * MILLION + q.recoveryRemainder, q.denominator),
       charged := recoveryNs,
       limiter := q.limiter + recoveryNs,
       pending := true)
  }

  function Publish(p: Pacer, now: int): Pacer
  {
    var lag := Max(0, now - p.nominal);
    p.(limiter := Max(p.limiter, now - p.burst + p.charged), lag := lag, maxLag := Max(p.maxLag, lag), pending := false)
  }

  // ------------------------------------------------------------------------
  // The class
  // ------------------------------------------------------------------------

  class RealTimePacer {
    const rateHz: nat
    const burstBudget: int
    const recoveryDenominator: nat
    var nominalRemainder: nat
    var recoveryRemainder: nat
    var nominalDeadline: int
    var limiterDeadline: int
    var chargedRecovery: int
    var lag: int
    var maxLag: int
    var anchored: bool
    var publicationPending: bool

    ghost function Model(): Pacer
      reads this
    {
      Pacer(rateHz, burstBudget, recoveryDenominator, nominalRemainder, recoveryRemainder, nominalDeadline,
            limiterDeadline, chargedRecovery, lag, maxLag, anchored, publicationPending)
    }

    ghost predicate Valid()
      reads this
    {
      rateHz >= 1 && recoveryDenominator >= 1
    }

    constructor (rate: nat, burst: nat, recoveryPpm: nat)
      ensures Valid() && Model() == New(rate, burst, recoveryPpm)
    {
      rateHz := if rate == 0 then 1 else rate;
      recoveryDenominator := MILLION + recoveryPpm;
      var whole, part := DivMod(burst, MILLION + recoveryPpm);
      var rest, _ := DivMod(part * MILLION, MILLION + recoveryPpm);
      burstBudget := whole * MILLION + rest;
      nominalRemainder, recoveryRemainder := 0, 0;
      nominalDeadline, limiterDeadline, chargedRecovery := 0, 0, 0;
      lag, maxLag := 0, 0;
      anchored, publicationPending := false, false;
    }

    method Charge(now: int, count: nat) returns (due: int)
      requires Valid() && !publicationPending && count > 0
      modifies this
      ensures Valid() && Model() == Charged(old(Model()), now, count)
      ensures due == Due(old(Model()), now)
    {
      hide Quot, Wrap;
      if !anchored {
        nominalDeadline, limiterDeadline := now, now;
        anchored := true;
      }
      limiterDeadline := Max(limiterDeadline, now - burstBudget);
      due := Max(nominalDeadline, limiterDeadline);
      var seconds, samples := DivMod(count, rateHz);
      var fraction, remainder := DivMod(samples * SECOND + nominalRemainder, rateHz);
      var nominalNs := seconds * SECOND + fraction;
      nominalRemainder := remainder;
      nominalDeadline := nominalDeadline + nominalNs;
      var whole, part := DivMod(nominalNs, recoveryDenominator);
      fraction, remainder := DivMod(part * MILLION + recoveryRemainder, recoveryDenominator);
      var recoveryNs := whole * MILLION + fraction;
      recoveryRemainder := remainder;
      chargedRecovery := recoveryNs;
      limiterDeadline := limiterDeadline + chargedRecovery;
      publicationPending := true;
    }

    method Published(now: int)
      requires Valid() && publicationPending
      modifies this
      ensures Valid() && Model() == Publish(old(Model()), now)
    {
      limiterDeadline := Max(limiterDeadline, now - burstBudget + chargedRecovery);
      lag := Max(0, now - nominalDeadline);
      maxLag := Max(maxLag, lag);
      publicationPending := false;
    }

    /** Wall time of `count` samples, whole seconds first. */
    method DurationFor(count: nat) returns (ns: nat)
      requires Valid()
      ensures ns == (count * SECOND) / rateHz
    {
      WholeFirst(count, SECOND, rateHz);
      var seconds, samples := DivMod(count, rateHz);
      var rest, _ := DivMod(samples * SECOND, rateHz);
      ns := seconds * SECOND + rest;
    }
  }

  // ------------------------------------------------------------------------
  // Carried remainders lose nothing
  // ------------------------------------------------------------------------

  lemma {:induction false} Distribute(a: int, b: int, n: int)
    ensures (a + b) * n == a * n + b * n
  {
  }

  /** One step of a clock that turns `total` units of k per n into whole ones,
      carrying the remainder: the whole ones and the remainder still account
      for every unit. */
  lemma {:induction false} CarryStep(total: nat, whole: nat, remainder: nat, count: nat, k: nat, n: nat)
    requires n >= 1 && total * k == whole * n + remainder && remainder < n
    ensures var fraction := Wrap(count, n) * k + remainder;
      var step := Quot(count, n) * k + Quot(fraction, n);
      (total + count) * k == (whole + step) * n + Wrap(fraction, n)
  {
    var q, m := Quot(count, n), Wrap(count, n);
    QuotWrap(count, n);
    var fraction := m * k + remainder;
    var x, y := Quot(fraction, n), Wrap(fraction, n);
    QuotWrap(fraction, n);
    assert count * k == (q * n) * k + m * k by { Distribute(q * n, m, k); }
    assert (q * n) * k == (q * k) * n by { Swap(q, n, k); }
    assert (total + count) * k == total * k + count * k by { Distribute(total, count, k); }
    assert (whole + (q * k + x)) * n == whole * n + (q * k) * n + x * n by {
      Distribute(whole, q * k + x, n);
      Distribute(q * k, x, n);
    }
  }

  /** Multiplying by k and dividing by n in two parts, as the code does to stay
      clear of overflow, is exact. */
  lemma {:induction false} WholeFirst(a: nat, k: nat, n: nat)
    requires n >= 1
    ensures (a * k) / n == Quot(a, n) * k + Quot(Wrap(a, n) * k, n)
  {
    CarryStep(0, 0, 0, a, k, n);
    DivModUnique(a * k, Quot(a, n) * k + Quot(Wrap(a, n) * k, n), Wrap(Wrap(a, n) * k, n), n);
  }

  // ------------------------------------------------------------------------
  // Runs
  // ------------------------------------------------------------------------

  /** The pacer with what has been charged to it so far. */
  datatype Trace = Trace(pacer: Pacer, anchor: int, samples: nat, nominalNs: nat, recoveryNs: nat)

  /** One slot: charged at `now`, published at `at`. */
  datatype Slot = Slot(now: int, count: nat, at: int)

  function Start(rateHz: nat, burst: nat, recoveryPpm: nat): Trace
  {
    Trace(New(rateHz, burst, recoveryPpm), 0, 0, 0, 0)
  }

  predicate Sane(p: Pacer) { p.rate >= 1 && p.denominator >= 1 }

  function Step(tr: Trace, slot: Slot): (r: Trace)
    requires Sane(tr.pacer)
    ensures Sane(r.pacer)
  {
    var p := tr.pacer;
    var nominalNs := NominalNs(p, slot.count);
    Trace(Publish(Charged(p, slot.now, slot.count), slot.at),
          if p.anchored then tr.anchor else slot.now,
          tr.samples + slot.count, tr.nominalNs + nominalNs, tr.recoveryNs + RecoveryNs(p, nominalNs))
  }

  /** The trace before slot k. */
  function Before(tr: Trace, slots: seq<Slot>, k: nat): (r: Trace)
    requires Sane(tr.pacer) && k <= |slots|
    ensures Sane(r.pacer)
  {
    if k == 0 then tr else Step(Before(tr, slots, k - 1), slots[k - 1])
  }

  /** Totals and remainders account for every sample charged. */
  ghost predicate Accounted(tr: Trace)
  {
    var p := tr.pacer;
    && Sane(p)
    && tr.samples * SECOND == tr.nominalNs * p.rate + p.nominalRemainder && p.nominalRemainder < p.rate
    && tr.nominalNs * MILLION == tr.recoveryNs * p.denominator + p.recoveryRemainder
    && p.recoveryRemainder < p.denominator
    && (p.anchored ==> p.nominal == tr.anchor + tr.nominalNs)
    && (!p.anchored ==> tr.nominalNs == 0 && tr.samples == 0)
  }

  lemma {:induction false} StepAccounted(tr: Trace, slot: Slot)
    requires Accounted(tr)
    ensures Accounted(Step(tr, slot))
    ensures Step(tr, slot).pacer.rate == tr.pacer.rate && Step(tr, slot).pacer.denominator == tr.pacer.denominator
    ensures Step(tr, slot).pacer.burst == tr.pacer.burst
  {
    hide Publish, Anchor, Max;
    StepCarries(tr, slot);
    StepKeeps(tr, slot);
  }

  /** What a step leaves alone, and where the nominal clock stands. */
  lemma {:induction false} StepKeeps(tr: Trace, slot: Slot)
    requires Sane(tr.pacer)
    ensures var p, r := tr.pacer, Step(tr, slot);
            r.pacer.rate == p.rate && r.pacer.denominator == p.denominator && r.pacer.burst == p.burst && r.pacer.anchored &&
            r.pacer.nominal == (if p.anchored then p.nominal else slot.now) + NominalNs(p, slot.count) &&
            r.pacer.nominalRemainder == Wrap(Wrap(slot.count, p.rate) * SECOND + p.nominalRemainder, p.rate) &&
            r.pacer.recoveryRemainder ==
              Wrap(Wrap(NominalNs(p, slot.count), p.denominator) * MILLION + p.recoveryRemainder, p.denominator)
  {
    hide Quot, Wrap;
  }

  lemma {:induction false} StepCarries(tr: Trace, slot: Slot)
    requires Accounted(tr)
    ensures var p := tr.pacer;
            var ns := NominalNs(p, slot.count);
            (tr.samples + slot.count) * SECOND ==
              (tr.nominalNs + ns) * p.rate + Wrap(Wrap(slot.count, p.rate) * SECOND + p.nominalRemainder, p.rate) &&
            (tr.nominalNs + ns) * MILLION ==
              (tr.recoveryNs + RecoveryNs(p, ns)) * p.denominator + Wrap(Wrap(ns, p.denominator) * MILLION + p.recoveryRemainder, p.denominator)
  {
    hide Quot, Wrap;
    var p := tr.pacer;
    CarryStep(tr.samples, tr.nominalNs, p.nominalRemainder, slot.count, SECOND, p.rate);
    CarryStep(tr.nominalNs, tr.recoveryNs, p.recoveryRemainder, NominalNs(p, slot.count), MILLION, p.denominator);
  }

  lemma {:induction false} RunAccounted(rateHz: nat, burst: nat, ppm: nat, slots: seq<Slot>, k: nat)
    requires k <= |slots|
    ensures Accounted(Before(Start(rateHz, burst, ppm), slots, k))
    ensures var p := Before(Start(rateHz, burst, ppm), slots, k).pacer;
      && p.rate == (if rateHz == 0 then 1 else rateHz) && p.denominator == MILLION + ppm
      && p.burst == New(rateHz, burst, ppm).burst
  {
    if k > 0 {
      RunAccounted(rateHz, burst, ppm, slots, k - 1);
      StepAccounted(Before(Start(rateHz, burst, ppm), slots, k - 1), slots[k - 1]);
    }
  }

  /** The nominal clock never drifts: after any sequence of charges it stands at
      exactly the anchor plus the whole nanoseconds of all samples charged, no
      due time is earlier, and the limiter has been charged exactly its share. */
  lemma {:induction false} NominalNeverDrifts(rateHz: nat, burst: nat, ppm: nat, slots: seq<Slot>, k: nat)
    requires 0 < k <= |slots| && rateHz > 0
    ensures var tr := Before(Start(rateHz, burst, ppm), slots, k);
      && tr.pacer.anchored
      && tr.pacer.nominal == tr.anchor + (tr.samples * SECOND) / rateHz
      && tr.recoveryNs == (tr.nominalNs * MILLION) / (MILLION + ppm)
      && tr.nominalNs == (tr.samples * SECOND) / rateHz
      && forall now: int :: Due(tr.pacer, now) >= tr.anchor + (tr.samples * SECOND) / rateHz
  {
    RunAccounted(rateHz, burst, ppm, slots, k);
    var tr := Before(Start(rateHz, burst, ppm), slots, k);
    DivModUnique(tr.samples * SECOND, tr.nominalNs, tr.pacer.nominalRemainder, rateHz);
    DivModUnique(tr.nominalNs * MILLION, tr.recoveryNs, tr.pacer.recoveryRemainder, MILLION + ppm);
  }

  /** A broker that waits: slot k is published at or after its due time, on a
      clock that never runs backwards. */
  ghost predicate TimedAt(tr: Trace, slots: seq<Slot>, k: nat)
    requires Sane(tr.pacer) && k < |slots|
  {
    && slots[k].now <= slots[k].at
    && Due(Before(tr, slots, k).pacer, slots[k].now) <= slots[k].at
    && (k > 0 ==> slots[k - 1].at <= slots[k].now)
  }

  ghost predicate WellTimed(tr: Trace, slots: seq<Slot>)
    requires Sane(tr.pacer)
  {
    forall k :: 0 <= k < |slots| ==> TimedAt(tr, slots, k)
  }

  /** One slot's effect on the limiter. */
  lemma {:induction false} StepLimiter(tr: Trace, slot: Slot)
    requires Sane(tr.pacer)
    ensures var r := Step(tr, slot);
      && r.pacer.anchored && r.recoveryNs >= tr.recoveryNs && r.pacer.burst == tr.pacer.burst
      && r.pacer.limiter >= slot.at - tr.pacer.burst + (r.recoveryNs - tr.recoveryNs)
      && (tr.pacer.anchored ==> r.pacer.limiter >= tr.pacer.limiter + (r.recoveryNs - tr.recoveryNs))
  {
  }

  /** The limiter remembers publication i: before slot k it stands no earlier than
      that instant, less the burst, plus all that was released since. */
  lemma {:induction false} LimiterRemembers(tr: Trace, slots: seq<Slot>, i: nat, k: nat)
    requires Sane(tr.pacer) && i < k <= |slots|
    ensures var a, b := Before(tr, slots, i), Before(tr, slots, k);
      b.pacer.anchored && b.pacer.limiter >= slots[i].at - b.pacer.burst + (b.recoveryNs - a.recoveryNs)
  {
    StepLimiter(Before(tr, slots, k - 1), slots[k - 1]);
    if i + 1 < k {
      LimiterRemembers(tr, slots, i, k - 1);
    }
  }

  /** The constructor's credit: the burst in limiter time, rounded down once. */
  lemma {:induction false} CreditIsBurst(rateHz: nat, burst: nat, ppm: nat)
    ensures New(rateHz, burst, ppm).burst == (burst * MILLION) / (MILLION + ppm)
  {
    WholeFirst(burst, MILLION, MILLION + ppm);
  }

  lemma {:induction false} BurstInLimiterTime(rateHz: nat, burst: nat, ppm: nat, d: nat)
    requires d == MILLION + ppm
    ensures New(rateHz, burst, ppm).burst * d <= burst * MILLION
  {
    CarryStep(0, 0, 0, burst, MILLION, d);
  }

  /** In limiter time: what is released between two publications is at most the
      time that passed and the burst credit. */
  lemma {:induction false} LimitedRelease(tr: Trace, slots: seq<Slot>, i: nat, j: nat)
    requires Sane(tr.pacer) && i < j < |slots| && WellTimed(tr, slots)
    ensures Before(tr, slots, j).recoveryNs - Before(tr, slots, i).recoveryNs
         <= slots[j].at - slots[i].at + Before(tr, slots, j).pacer.burst
  {
    LimiterRemembers(tr, slots, i, j);
    assert TimedAt(tr, slots, j);
  }

  /** The release envelope: between publications i and j, whatever stalls, late
      wakes or catching up came before, the signal released (slots i to j - 1) is
      less than the burst plus the elapsed time and one nanosecond, at the
      recovery rate.  Both sides are multiplied by 10^6. */
  lemma {:induction false} ReleaseEnvelope(rateHz: nat, burst: nat, ppm: nat, slots: seq<Slot>, i: nat, j: nat)
    requires i < j < |slots| && WellTimed(Start(rateHz, burst, ppm), slots)
    ensures var a, b := Before(Start(rateHz, burst, ppm), slots, i), Before(Start(rateHz, burst, ppm), slots, j);
      (b.nominalNs - a.nominalNs) * MILLION < burst * MILLION + (slots[j].at - slots[i].at + 1) * (MILLION + ppm)
  {
    LimitedRelease(Start(rateHz, burst, ppm), slots, i, j);
    EnvelopeFrom(rateHz, burst, ppm, slots, i, j, slots[j].at - slots[i].at, MILLION + ppm);
  }

  lemma {:induction false} LimiterAccount(rateHz: nat, burst: nat, ppm: nat, slots: seq<Slot>, k: nat, d: nat) returns (n: int, r: int, m: int)
    requires k <= |slots| && d == MILLION + ppm
    ensures var tr := Before(Start(rateHz, burst, ppm), slots, k);
      n == tr.nominalNs && r == tr.recoveryNs && tr.pacer.burst == New(rateHz, burst, ppm).burst
    ensures n * MILLION == r * d + m && 0 <= m < d
  {
    RunAccounted(rateHz, burst, ppm, slots, k);
    var tr := Before(Start(rateHz, burst, ppm), slots, k);
    n, r, m := tr.nominalNs, tr.recoveryNs, tr.pacer.recoveryRemainder;
  }

  lemma {:induction false} EnvelopeFrom(rateHz: nat, burst: nat, ppm: nat, slots: seq<Slot>, i: nat, j: nat, elapsed: int, d: nat)
    requires i < j < |slots| && d == MILLION + ppm
    requires var a, b := Before(Start(rateHz, burst, ppm), slots, i), Before(Start(rateHz, burst, ppm), slots, j);
      b.recoveryNs - a.recoveryNs <= elapsed + b.pacer.burst
    ensures var a, b := Before(Start(rateHz, burst, ppm), slots, i), Before(Start(rateHz, burst, ppm), slots, j);
      (b.nominalNs - a.nominalNs) * MILLION < burst * MILLION + (elapsed + 1) * d
  {
    var n0, r0, m0 := LimiterAccount(rateHz, burst, ppm, slots, i, d);
    var n1, r1, m1 := LimiterAccount(rateHz, burst, ppm, slots, j, d);
    var credit := New(rateHz, burst, ppm).burst;
    assert credit * d <= burst * MILLION by { BurstInLimiterTime(rateHz, burst, ppm, d); }
    EnvelopeArithmetic(n0, r0, m0, n1, r1, m1, d, elapsed, credit, burst * MILLION);
  }

  /** n0, n1 nominal and r0, r1 limiter nanoseconds, m0 and m1 the remainders. */
  lemma {:induction false} EnvelopeArithmetic(
    n0: int, r0: int, m0: int, n1: int, r1: int, m1: int, d: nat, elapsed: int, credit: int, burst: int)
    requires d > 0 && 0 <= m0 < d && 0 <= m1 < d
    requires n0 * MILLION == r0 * d + m0 && n1 * MILLION == r1 * d + m1
    requires r1 - r0 <= elapsed + credit && credit * d <= burst
    ensures (n1 - n0) * MILLION < burst + (elapsed + 1) * d
  {
    Distribute(r1, -r0, d);
    assert (n1 - n0) * MILLION == (r1 - r0) * d + m1 - m0;
    ScaleUp(r1 - r0, elapsed + credit, d);
    Distribute(elapsed, credit, d);
    Distribute(elapsed, 1, d);
  }

  lemma {:induction false} ScaleUp(a: int, b: int, n: nat)
    requires a <= b
    ensures a * n <= b * n
  {
  }

  /** The same in samples: no more than one nanosecond of signal is hidden in the
      fractions the nominal clock carries. */
  lemma {:induction false} ReleaseEnvelopeInSamples(rateHz: nat, burst: nat, ppm: nat, slots: seq<Slot>, i: nat, j: nat)
    requires i < j < |slots| && rateHz > 0 && WellTimed(Start(rateHz, burst, ppm), slots)
    ensures var a, b := Before(Start(rateHz, burst, ppm), slots, i), Before(Start(rateHz, burst, ppm), slots, j);
      (b.samples - a.samples) * SECOND * MILLION
        < (burst * MILLION + (slots[j].at - slots[i].at + 1) * (MILLION + ppm) + MILLION) * rateHz
  {
    var a, b := Before(Start(rateHz, burst, ppm), slots, i), Before(Start(rateHz, burst, ppm), slots, j);
    ReleaseEnvelope(rateHz, burst, ppm, slots, i, j);
    RunAccounted(rateHz, burst, ppm, slots, i);
    RunAccounted(rateHz, burst, ppm, slots, j);
    SampleArithmetic(a.samples, a.nominalNs, a.pacer.nominalRemainder, b.samples, b.nominalNs, b.pacer.nominalRemainder,
                     rateHz, burst * MILLION + (slots[j].at - slots[i].at + 1) * (MILLION + ppm));
  }

  lemma {:induction false} SampleArithmetic(s0: int, n0: int, m0: int, s1: int, n1: int, m1: int, rate: nat, bound: int)
    requires rate > 0 && 0 <= m0 < rate && 0 <= m1 < rate
    requires s0 * SECOND == n0 * rate + m0 && s1 * SECOND == n1 * rate + m1
    requires (n1 - n0) * MILLION < bound
    ensures (s1 - s0) * SECOND * MILLION < (bound + MILLION) * rate
  {
    Distribute(n1, -n0, rate);
    Distribute(n1 - n0, 1, rate);
    assert (s1 - s0) * SECOND < (n1 - n0 + 1) * rate;
    ScaleUp((n1 - n0 + 1) * MILLION, bound + MILLION, rate);
    Swap(n1 - n0 + 1, MILLION, rate);
  }

  lemma {:induction false} Swap(a: int, b: int, c: int)
    ensures (a * b) * c == (a * c) * b
  {
  }

  /** The limiter holds nobody back for longer than it must: after a publication
      made no earlier than it was due, the next one, asked for at `now`, is due no
      later than its nominal time, the start of its burst credit, or the recovery
      time of the samples just released, whichever is latest. */
  lemma {:induction false} NeverHeldLonger(tr: Trace, slot: Slot, now: int)
    requires Sane(tr.pacer) && tr.pacer.burst >= 0
    requires slot.now <= slot.at && Due(tr.pacer, slot.now) <= slot.at
    ensures var next := Step(tr, slot);
      Due(next.pacer, now)
        <= Max(next.pacer.nominal, Max(now - tr.pacer.burst, slot.at + (next.recoveryNs - tr.recoveryNs)))
  {
    StepUpper(tr, slot);
  }

  lemma {:induction false} StepUpper(tr: Trace, slot: Slot)
    requires Sane(tr.pacer) && tr.pacer.burst >= 0 && slot.now <= slot.at && Due(tr.pacer, slot.now) <= slot.at
    ensures Step(tr, slot).pacer.anchored && Step(tr, slot).pacer.burst == tr.pacer.burst
    ensures Step(tr, slot).pacer.limiter <= slot.at + (Step(tr, slot).recoveryNs - tr.recoveryNs)
  {
  }

  // ------------------------------------------------------------------------
  // Exactly when the next publication is due
  // ------------------------------------------------------------------------

  /** The first charge anchors the schedule and waits for nothing. */
  lemma {:induction false} FirstIsNow(rateHz: nat, burst: nat, ppm: nat, now: int)
    ensures Due(New(rateHz, burst, ppm), now) == now
  {
  }

  /** Every publication was made at or after its charge. */
  ghost predicate Forward(slots: seq<Slot>) { forall k: nat :: k < |slots| ==> slots[k].now <= slots[k].at }

  /** x is no earlier than the limiter's terms before slot k: the anchor plus all
      recovery charged, and each earlier publication less the burst plus what was
      charged from it on. */
  ghost predicate PastTerms(tr: Trace, slots: seq<Slot>, k: nat, x: int)
    requires Sane(tr.pacer) && k <= |slots|
  {
    var b := Before(tr, slots, k);
    b.anchor + b.recoveryNs <= x &&
    forall i: nat :: i < k ==> slots[i].at - b.pacer.burst + (b.recoveryNs - Before(tr, slots, i).recoveryNs) <= x
  }

  lemma {:induction false} LatestFirst(rateHz: nat, burst: nat, ppm: nat, slots: seq<Slot>, x: int)
    requires |slots| >= 1 && slots[0].now <= slots[0].at
    ensures var tr := Start(rateHz, burst, ppm);
            var b := Before(tr, slots, 1);
            b.pacer.anchored && (b.pacer.limiter <= x <==> PastTerms(tr, slots, 1, x))
  {
    BurstIsNat(rateHz, burst, ppm);
    hide Quot, Wrap, Step;
    var tr := Start(rateHz, burst, ppm);
    assert Before(tr, slots, 0) == tr && Before(tr, slots, 1) == Step(tr, slots[0]);
    LimiterStep(tr, slots[0]);
  }

  lemma {:induction false} LatestStep(tr: Trace, slots: seq<Slot>, k: nat, x: int)
    requires Sane(tr.pacer) && 1 < k <= |slots| && slots[k - 1].now <= slots[k - 1].at
    requires var a, b := Before(tr, slots, k - 1), Before(tr, slots, k);
             var y := x - (b.recoveryNs - a.recoveryNs);
             a.pacer.anchored && a.pacer.burst >= 0 && (a.pacer.limiter <= y <==> PastTerms(tr, slots, k - 1, y))
    ensures var b := Before(tr, slots, k); b.pacer.anchored && (b.pacer.limiter <= x <==> PastTerms(tr, slots, k, x))
  {
    hide Step, PastTerms;
    var a, b := Before(tr, slots, k - 1), Before(tr, slots, k);
    LimiterStep(a, slots[k - 1]);
    TermsStep(tr, slots, k, x, b.recoveryNs - a.recoveryNs);
  }

  /** The limiter is the latest of its terms. */
  lemma {:induction false} LimiterIsLatest(rateHz: nat, burst: nat, ppm: nat, slots: seq<Slot>, k: nat, x: int)
    requires 0 < k <= |slots| && Forward(slots)
    ensures Before(Start(rateHz, burst, ppm), slots, k).pacer.anchored
    ensures Before(Start(rateHz, burst, ppm), slots, k).pacer.limiter <= x <==>
            PastTerms(Start(rateHz, burst, ppm), slots, k, x)
  {
    var tr := Start(rateHz, burst, ppm);
    assert Sane(tr.pacer);
    hide Start, Before, PastTerms, Accounted, New;
    if k == 1 {
      LatestFirst(rateHz, burst, ppm, slots, x);
    } else {
      var charged := Before(tr, slots, k).recoveryNs - Before(tr, slots, k - 1).recoveryNs;
      LimiterIsLatest(rateHz, burst, ppm, slots, k - 1, x - charged);
      RunAccounted(rateHz, burst, ppm, slots, k - 1);
      BurstIsNat(rateHz, burst, ppm);
      LatestStep(tr, slots, k, x);
    }
  }

  lemma {:induction false} BurstIsNat(rateHz: nat, burst: nat, ppm: nat)
    ensures New(rateHz, burst, ppm).burst >= 0
  {
    CreditIsBurst(rateHz, burst, ppm);
    assert burst * MILLION >= 0;
  }

  /** One slot: the later of the limiter so far and the publication's credit, plus
      what the slot charged. */
  lemma {:induction false} LimiterStep(tr: Trace, slot: Slot)
    requires Sane(tr.pacer) && slot.now <= slot.at && tr.pacer.burst >= 0
    ensures var r := Step(tr, slot);
            var charged := r.recoveryNs - tr.recoveryNs;
            r.pacer.anchored && r.pacer.burst == tr.pacer.burst && charged >= 0 &&
            r.anchor == (if tr.pacer.anchored then tr.anchor else slot.now) &&
            r.pacer.limiter == Max(if tr.pacer.anchored then tr.pacer.limiter else slot.now, slot.at - tr.pacer.burst) + charged
  {
    hide Quot, Wrap;
  }

  lemma {:induction false} TermsStep(tr: Trace, slots: seq<Slot>, k: nat, x: int, charged: int)
    requires Sane(tr.pacer) && 1 < k <= |slots|
    requires var a, b := Before(tr, slots, k - 1), Before(tr, slots, k);
             charged == b.recoveryNs - a.recoveryNs && b.anchor == a.anchor && b.pacer.burst == a.pacer.burst
    ensures PastTerms(tr, slots, k, x) <==>
            PastTerms(tr, slots, k - 1, x - charged) && slots[k - 1].at - Before(tr, slots, k).pacer.burst + charged <= x
  {
    hide Step;
    var a, b := Before(tr, slots, k - 1), Before(tr, slots, k);
    if PastTerms(tr, slots, k, x) {
      assert slots[k - 1].at - b.pacer.burst + (b.recoveryNs - a.recoveryNs) <= x;
      forall i: nat | i < k - 1
        ensures slots[i].at - a.pacer.burst + (a.recoveryNs - Before(tr, slots, i).recoveryNs) <= x - charged
      {
        assert slots[i].at - b.pacer.burst + (b.recoveryNs - Before(tr, slots, i).recoveryNs) <= x;
      }
    }
    if PastTerms(tr, slots, k - 1, x - charged) && slots[k - 1].at - b.pacer.burst + charged <= x {
      forall i: nat | i < k
        ensures slots[i].at - b.pacer.burst + (b.recoveryNs - Before(tr, slots, i).recoveryNs) <= x
      {
        assert i < k - 1 ==> slots[i].at - a.pacer.burst + (a.recoveryNs - Before(tr, slots, i).recoveryNs) <= x - charged;
      }
    }
  }

  /** The due instant is exactly the latest of: the nominal time of the samples
      charged so far, the call less the burst, and the limiter's terms. */
  lemma {:induction false} DueExactly(rateHz: nat, burst: nat, ppm: nat, slots: seq<Slot>, k: nat, now: int, x: int)
    requires rateHz > 0 && 0 < k <= |slots| && Forward(slots)
    ensures var tr := Start(rateHz, burst, ppm);
            var b := Before(tr, slots, k);
            Due(b.pacer, now) <= x <==>
              b.anchor + (b.samples * SECOND) / rateHz <= x &&
              now - (burst * MILLION) / (MILLION + ppm) <= x &&
              PastTerms(tr, slots, k, x)
  {
    hide Before, Start, PastTerms;
    LimiterIsLatest(rateHz, burst, ppm, slots, k, x);
    NominalNeverDrifts(rateHz, burst, ppm, slots, k);
    RunAccounted(rateHz, burst, ppm, slots, k);
    CreditIsBurst(rateHz, burst, ppm);
  }

  /** The credit is granted: a call at `now` does not wait exactly when `now` has
      reached the nominal time, the recovery time of everything since the anchor,
      and, for each earlier publication, the recovery time of everything charged
      from it on less the burst. */
  lemma {:induction false} NoWaitIff(rateHz: nat, burst: nat, ppm: nat, slots: seq<Slot>, k: nat, now: int)
    requires rateHz > 0 && 0 < k <= |slots| && Forward(slots)
    ensures var tr := Start(rateHz, burst, ppm);
            var b := Before(tr, slots, k);
            Due(b.pacer, now) <= now <==>
              b.anchor + (b.samples * SECOND) / rateHz <= now &&
              b.recoveryNs <= now - b.anchor &&
              forall i: nat :: i < k ==>
                b.recoveryNs - Before(tr, slots, i).recoveryNs <= now - slots[i].at + (burst * MILLION) / (MILLION + ppm)
  {
    hide Step, New, Due;
    var tr := Start(rateHz, burst, ppm);
    var b := Before(tr, slots, k);
    DueExactly(rateHz, burst, ppm, slots, k, now, now);
    RunAccounted(rateHz, burst, ppm, slots, k);
    CreditIsBurst(rateHz, burst, ppm);
    BurstIsNat(rateHz, burst, ppm);
    var credit := (burst * MILLION) / (MILLION + ppm);
    if Due(b.pacer, now) <= now {
      forall i: nat | i < k
        ensures b.recoveryNs - Before(tr, slots, i).recoveryNs <= now - slots[i].at + credit
      {
        assert slots[i].at - b.pacer.burst + (b.recoveryNs - Before(tr, slots, i).recoveryNs) <= now;
      }
    } else if b.anchor + (b.samples * SECOND) / rateHz <= now && b.recoveryNs <= now - b.anchor {
      assert !PastTerms(tr, slots, k, now);
      var i: nat :| i < k && slots[i].at - b.pacer.burst + (b.recoveryNs - Before(tr, slots, i).recoveryNs) > now;
    }
  }

  // ------------------------------------------------------------------------
  // Lag
  // ------------------------------------------------------------------------

  /** After slot k the lag is how late its publication came behind the nominal time
      of all samples charged with it, and the largest lag is the largest so far. */
  lemma {:induction false} LagIsLateness(rateHz: nat, burst: nat, ppm: nat, slots: seq<Slot>, k: nat)
    requires rateHz > 0 && 0 < k <= |slots|
    ensures var b := Before(Start(rateHz, burst, ppm), slots, k);
            b.pacer.lag == Max(0, slots[k - 1].at - (b.anchor + (b.samples * SECOND) / rateHz)) &&
            (forall i: nat :: 0 < i <= k ==> Before(Start(rateHz, burst, ppm), slots, i).pacer.lag <= b.pacer.maxLag) &&
            exists i: nat :: 0 < i <= k && Before(Start(rateHz, burst, ppm), slots, i).pacer.lag == b.pacer.maxLag
  {
    hide NominalNs, RecoveryNs, New;
    var tr := Start(rateHz, burst, ppm);
    var a, b := Before(tr, slots, k - 1), Before(tr, slots, k);
    NominalNeverDrifts(rateHz, burst, ppm, slots, k);
    LagStep(a, slots[k - 1]);
    if k == 1 {
      assert a == tr;
      StartsWithoutLag(rateHz, burst, ppm);
    } else {
      LagIsLateness(rateHz, burst, ppm, slots, k - 1);
      var i: nat :| 0 < i <= k - 1 && Before(tr, slots, i).pacer.lag == a.pacer.maxLag;
      assert Before(tr, slots, if a.pacer.maxLag <= b.pacer.lag then k else i).pacer.lag == b.pacer.maxLag;
    }
  }

  lemma {:induction false} LagStep(tr: Trace, slot: Slot)
    requires Sane(tr.pacer)
    ensures var r := Step(tr, slot);
            r.pacer.lag == Max(0, slot.at - r.pacer.nominal) && r.pacer.maxLag == Max(tr.pacer.maxLag, r.pacer.lag)
  {
    hide NominalNs, RecoveryNs;
  }

  lemma {:induction false} StartsWithoutLag(rateHz: nat, burst: nat, ppm: nat)
    ensures Start(rateHz, burst, ppm).pacer.maxLag == 0
  {
  }
}
