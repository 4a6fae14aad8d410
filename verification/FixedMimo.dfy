/** expand_fixed_mimo_models (src/config.cpp): the tap list of one antenna lane of
    a fixed matrix.  A tap's gain is a complex number here, so the decibels and
    radians the original adds are one product. */
module FixedMimo {
  import opened Complex
  import L = Lanes
  import T = Tdl

  /** The first coefficient of (tap, rx, tx) from position i on, or -1. */
  function Find(model: L.Model, tap: int, rx: int, tx: int, i: nat): (r: int)
    requires i <= |model.coefficients|
    ensures r == -1 || i <= r < |model.coefficients|
    ensures r >= 0 ==> Addresses(model.coefficients[r], tap, rx, tx)
    ensures forall k: nat :: i <= k < (if r >= 0 then r else |model.coefficients|) ==> !Addresses(model.coefficients[k], tap, rx, tx)
    decreases |model.coefficients| - i
  {
    if i == |model.coefficients| then -1
    else if Addresses(model.coefficients[i], tap, rx, tx) then i
    else Find(model, tap, rx, tx, i + 1)
  }

  predicate Addresses(c: L.Coefficient, tap: int, rx: int, tx: int)
  {
    c.tap == tap && c.rx == rx && c.tx == tx
  }

  /** The matrix entry of a tap: what is declared, else zero. */
  function Entry(model: L.Model, tap: nat, rx: int, tx: int): Cx
  {
    var found := Find(model, tap, rx, tx, 0);
    if found < 0 then ZERO else Cx(model.coefficients[found].re, model.coefficients[found].im)
  }

  function Weighted(tap: T.Tap, entry: Cx): T.Tap { tap.(gain := tap.gain.Mul(entry)) }

  /** The lane's taps among the first n of the base model. */
  function LaneTaps(model: L.Model, taps: seq<T.Tap>, rx: int, tx: int, n: nat): seq<T.Tap>
    requires n <= |taps|
  {
    if n == 0 then []
    else if Entry(model, n - 1, rx, tx) == ZERO then LaneTaps(model, taps, rx, tx, n - 1)
    else LaneTaps(model, taps, rx, tx, n - 1) + [Weighted(taps[n - 1], Entry(model, n - 1, rx, tx))]
  }

  /** The loop over the source taps. */
  method ExpandLane(model: L.Model, taps: seq<T.Tap>, rx: int, tx: int) returns (r: seq<T.Tap>)
    ensures r == LaneTaps(model, taps, rx, tx, |taps|)
  {
    r := [];
    for k := 0 to |taps|
      invariant r == LaneTaps(model, taps, rx, tx, k)
    {
      var found := FindLoop(model, k, rx, tx);
      if found < 0 || (model.coefficients[found].re == 0.0 && model.coefficients[found].im == 0.0) {
        continue;
      }
      r := r + [Weighted(taps[k], Cx(model.coefficients[found].re, model.coefficients[found].im))];
    }
  }

  method FindLoop(model: L.Model, tap: int, rx: int, tx: int) returns (found: int)
    ensures found == Find(model, tap, rx, tx, 0)
  {
    for i := 0 to |model.coefficients|
      invariant Find(model, tap, rx, tx, 0) == Find(model, tap, rx, tx, i)
    {
      if Addresses(model.coefficients[i], tap, rx, tx) {
        return i;
      }
    }
    found := -1;
  }

  // ------------------------------------------------------------------------
  // The lane's channel is the matrix entry times the path, summed over the paths
  // ------------------------------------------------------------------------

  /** Sum over the first n taps of entry * tap. */
  function MatrixSum(model: L.Model, taps: seq<T.Tap>, rx: int, tx: int, f: int -> Cx, n: nat): Cx
    requires n <= |taps| && T.ValidTaps(taps)
  {
    if n == 0 then ZERO
    else MatrixSum(model, taps, rx, tx, f, n - 1).Add(Entry(model, n - 1, rx, tx).Mul(T.Path(taps[n - 1], f)))
  }

  lemma {:induction false} LaneTapsValid(model: L.Model, taps: seq<T.Tap>, rx: int, tx: int, n: nat)
    requires n <= |taps| && T.ValidTaps(taps)
    ensures T.ValidTaps(LaneTaps(model, taps, rx, tx, n))
  {
    if n > 0 {
      LaneTapsValid(model, taps, rx, tx, n - 1);
    }
  }

  lemma {:induction false} PathWeighted(tap: T.Tap, entry: Cx, f: int -> Cx)
    requires |tap.h| == T.FILTER_TAPS
    ensures T.Path(Weighted(tap, entry), f) == entry.Mul(T.Path(tap, f))
  {
    FilteredOfWeighted(tap, entry, f, T.FILTER_TAPS);
    Regroup(tap.gain, entry, T.Filtered(tap, f, T.FILTER_TAPS));
  }

  lemma {:induction false} Regroup(g: Cx, e: Cx, x: Cx)
    ensures g.Mul(e).Mul(x) == e.Mul(g.Mul(x))
  {
  }

  lemma {:induction false} FilteredOfWeighted(tap: T.Tap, entry: Cx, f: int -> Cx, i: nat)
    requires i <= |tap.h|
    ensures T.Filtered(Weighted(tap, entry), f, i) == T.Filtered(tap, f, i)
  {
    hide Cx.Mul;
    if i > 0 {
      FilteredOfWeighted(tap, entry, f, i - 1);
    }
  }

  lemma {:induction false} ConvolvedAppend(taps: seq<T.Tap>, last: T.Tap, f: int -> Cx, k: nat)
    requires T.ValidTaps(taps) && |last.h| == T.FILTER_TAPS && k <= |taps|
    ensures T.Convolved(taps + [last], f, k) == T.Convolved(taps, f, k)
  {
    hide T.Path;
    if k > 0 {
      ConvolvedAppend(taps, last, f, k - 1);
    }
  }

  lemma {:induction false} NoEntry(a: Cx, x: Cx)
    ensures a.Add(ZERO.Mul(x)) == a
  {
  }

  /** Shaping with the lane's taps is applying the lane's matrix entries; leaving
      zero taps out loses nothing. */
  lemma {:induction false} LaneIsMatrixEntry(model: L.Model, taps: seq<T.Tap>, rx: int, tx: int, f: int -> Cx, n: nat)
    requires n <= |taps| && T.ValidTaps(taps)
    ensures T.ValidTaps(LaneTaps(model, taps, rx, tx, n))
    ensures T.Convolved(LaneTaps(model, taps, rx, tx, n), f, |LaneTaps(model, taps, rx, tx, n)|) ==
            MatrixSum(model, taps, rx, tx, f, n)
  {
    hide T.Path, Cx.Mul, Cx.Add, Entry, Weighted;
    LaneTapsValid(model, taps, rx, tx, n);
    if n > 0 {
      LaneIsMatrixEntry(model, taps, rx, tx, f, n - 1);
      var entry, before := Entry(model, n - 1, rx, tx), LaneTaps(model, taps, rx, tx, n - 1);
      if entry == ZERO {
        NoEntry(MatrixSum(model, taps, rx, tx, f, n - 1), T.Path(taps[n - 1], f));
      } else {
        var last := Weighted(taps[n - 1], entry);
        assert LaneTaps(model, taps, rx, tx, n) == before + [last];
        assert (before + [last])[|before|] == last;
        ConvolvedAppend(before, last, f, |before|);
        PathWeighted(taps[n - 1], entry, f);
      }
    }
  }

  // ------------------------------------------------------------------------
  // Dropped lanes
  // ------------------------------------------------------------------------

  /** What the validator lets through: taps that exist, each (tap, rx, tx) once. */
  ghost predicate Validated(model: L.Model, taps: nat)
  {
    (forall k: nat :: k < |model.coefficients| ==> 0 <= model.coefficients[k].tap < taps) &&
    forall j: nat, k: nat :: j < k < |model.coefficients| ==>
      model.coefficients[j].tap != model.coefficients[k].tap || model.coefficients[j].rx != model.coefficients[k].rx ||
      model.coefficients[j].tx != model.coefficients[k].tx
  }

  /** Every declared coefficient is the entry of its tap and lane, and where none
      is declared the entry is zero. */
  lemma {:induction false} EntryIsDeclared(model: L.Model, taps: nat)
    requires Validated(model, taps)
    ensures forall k: nat :: k < |model.coefficients| ==>
              var c := model.coefficients[k]; c.tap >= 0 && Entry(model, c.tap, c.rx, c.tx) == Cx(c.re, c.im)
    ensures forall tap: nat, rx: int, tx: int ::
              (forall k: nat :: k < |model.coefficients| ==>
                 var c := model.coefficients[k]; c.tap != tap || c.rx != rx || c.tx != tx) ==> Entry(model, tap, rx, tx) == ZERO
  {
    forall k: nat | k < |model.coefficients|
      ensures var c := model.coefficients[k]; c.tap >= 0 && Entry(model, c.tap, c.rx, c.tx) == Cx(c.re, c.im)
    {
      FindUnique(model, taps, k);
    }
  }

  lemma {:induction false} NoTapsMeansNoEntries(model: L.Model, taps: seq<T.Tap>, rx: int, tx: int, n: nat)
    requires n <= |taps|
    ensures LaneTaps(model, taps, rx, tx, n) == [] <==> forall k: nat :: k < n ==> Entry(model, k, rx, tx) == ZERO
  {
    if n > 0 {
      NoTapsMeansNoEntries(model, taps, rx, tx, n - 1);
    }
  }

  /** The lane test of resolve_topology and the tap test of the expansion agree: a
      lane is kept exactly when it carries a tap. */
  lemma {:induction false} LiveIffTapped(model: L.Model, taps: seq<T.Tap>, rx: int, tx: int)
    requires Validated(model, |taps|)
    ensures L.LaneIsLive(model, rx, tx) <==> LaneTaps(model, taps, rx, tx, |taps|) != []
  {
    NoTapsMeansNoEntries(model, taps, rx, tx, |taps|);
    if L.LaneIsLive(model, rx, tx) {
      var k :| 0 <= k < |model.coefficients| && L.NonZeroAt(model.coefficients[k], rx, tx);
      FindUnique(model, |taps|, k);
      assert Entry(model, model.coefficients[k].tap, rx, tx) != ZERO;
    }
    if k: nat :| k < |taps| && Entry(model, k, rx, tx) != ZERO {
      assert L.NonZeroAt(model.coefficients[Find(model, k, rx, tx, 0)], rx, tx);
    }
  }

  lemma {:induction false} FindUnique(model: L.Model, taps: nat, k: nat)
    requires Validated(model, taps) && k < |model.coefficients|
    ensures var c := model.coefficients[k]; Find(model, c.tap, c.rx, c.tx, 0) == k
  {
    var c := model.coefficients[k];
    var r := Find(model, c.tap, c.rx, c.tx, 0);
    assert r >= 0;
  }

  /** A lane that is dropped would have been silent. */
  lemma {:induction false} DroppedLaneIsSilent(model: L.Model, taps: seq<T.Tap>, rx: int, tx: int, f: int -> Cx)
    requires Validated(model, |taps|) && T.ValidTaps(taps) && !L.LaneIsLive(model, rx, tx)
    ensures MatrixSum(model, taps, rx, tx, f, |taps|) == ZERO
  {
    LiveIffTapped(model, taps, rx, tx);
    LaneIsMatrixEntry(model, taps, rx, tx, f, |taps|);
  }
}
