/** The IQ ring of src/ring.cpp: a circular buffer whose samples carry absolute
    sequence numbers.

    `Ring` is the storage as a value.  Its operations are written sample by
    sample; `IqRing` (IqRing.dfy) is the class that does the same work with two
    block copies and is proved equal to them.  `Represents` is the abstraction:
    the ring stands for an append-only stream of which a bounded suffix is
    still buffered. */
module RingModel {
  import opened Options
  import opened Complex
  import opened Modular

  datatype Ring = Ring(buf: seq<IqSample>, start: nat, size: nat, next: nat) {
    function Capacity(): nat { |buf| }

    function Free(): int { |buf| - size }

    function Earliest(): int { next - size }

    /** The cell the next pushed sample goes to. */
    function Tail(): nat
      requires |buf| > 0
    {
      Wrap(start + size, |buf|)
    }
  }

  /** A ring that has buffered nothing yet. */
  function Empty(capacity: nat): Ring
  {
    Ring(seq(capacity, _ => ZERO), 0, 0, 0)
  }

  /** How far cell k lies past cell `at`, walking forward and wrapping once. */
  function Ahead(at: nat, k: nat, capacity: nat): int
  {
    if k >= at then k - at else k - at + capacity
  }

  /** `samples` written one per cell from cell `at` on, wrapping at the end. */
  function Store(buf: seq<IqSample>, at: nat, samples: seq<IqSample>): (r: seq<IqSample>)
    requires at < |buf|
  {
    seq(|buf|, k requires 0 <= k < |buf| =>
      var d := Ahead(at, k, |buf|);
      if 0 <= d < |samples| then samples[d] else buf[k])
  }

  /** `count` samples read one per cell from cell `at` on, wrapping at the end. */
  function Load(buf: seq<IqSample>, at: nat, count: nat): seq<IqSample>
    requires at < |buf|
  {
    seq(count, k requires 0 <= k < count => buf[Wrap(at + k, |buf|)])
  }

  predicate CanPush(r: Ring, count: nat)
  {
    count == 0 || (count <= r.Capacity() && r.size + count <= r.Capacity())
  }

  function Push(r: Ring, samples: seq<IqSample>): Ring
    requires CanPush(r, |samples|)
  {
    if samples == [] then r
    else Ring(Store(r.buf, r.Tail(), samples), r.start, r.size + |samples|, r.next + |samples|)
  }

  predicate CanRead(r: Ring, sequence: nat, count: nat)
  {
    count == 0 || (r.Earliest() <= sequence && sequence + count <= r.next && r.Capacity() > 0)
  }

  function Read(r: Ring, sequence: nat, count: nat): seq<IqSample>
    requires CanRead(r, sequence, count)
  {
    if count == 0 then []
    else Load(r.buf, Wrap(r.start + (sequence - r.Earliest()), |r.buf|), count)
  }

  function DiscardBefore(r: Ring, sequence: nat): Ring
  {
    if sequence <= r.Earliest() || r.size == 0 || r.buf == [] then r
    else if sequence >= r.next then r.(start := Wrap(r.start + r.size, |r.buf|), size := 0)
    else
      var count := sequence - r.Earliest();
      r.(start := Wrap(r.start + count, |r.buf|), size := r.size - count)
  }

  /** Where [sequence, sequence + count) lies in the storage, or None when it is
      not buffered or wraps. */
  function View(r: Ring, sequence: nat, count: nat): Option<nat>
  {
    if count == 0 || r.buf == [] || sequence < r.Earliest() || sequence + count > r.next then None
    else
      var head := Wrap(r.start + (sequence - r.Earliest()), |r.buf|);
      if head + count > |r.buf| then None else Some(head)
  }

  /** Contiguous free storage for the next `count` samples, or None. */
  function Reserve(r: Ring, count: nat): Option<nat>
  {
    if count == 0 || r.buf == [] || r.size + count > |r.buf| then None
    else if r.Tail() + count > |r.buf| then None
    else Some(r.Tail())
  }

  /** The unlocked write of a producer into the span that Reserve returned. */
  function Fill(r: Ring, at: nat, samples: seq<IqSample>): Ring
    requires at + |samples| <= |r.buf|
  {
    r.(buf := r.buf[..at] + samples + r.buf[at + |samples|..])
  }

  function Commit(r: Ring, count: nat): Ring
  {
    r.(size := r.size + count, next := r.next + count)
  }

  // ------------------------------------------------------------------------
  // The abstraction
  // ------------------------------------------------------------------------

  /** r has seen exactly `stream` pushed into it and still buffers its last
      r.size samples; sample i of the stream is in cell Wrap(i, capacity). */
  ghost predicate Represents(r: Ring, stream: seq<IqSample>)
  {
    && |r.buf| > 0
    && r.next == |stream|
    && r.size <= |r.buf|
    && r.size <= r.next
    && r.start == Wrap(r.next - r.size, |r.buf|)
    && forall i {:trigger stream[i]} :: r.next - r.size <= i < r.next ==> r.buf[Wrap(i, |r.buf|)] == stream[i]
  }

  lemma {:induction false} EmptyRepresents(capacity: nat)
    requires capacity > 0
    ensures Represents(Empty(capacity), [])
  {
  }

  /** The tail cell of a ring is the one of `next`, whatever was discarded. */
  lemma {:induction false} TailCell(r: Ring, stream: seq<IqSample>)
    requires Represents(r, stream)
    ensures r.Tail() == Wrap(r.next, |r.buf|)
  {
    WrapAdd(r.next - r.size, r.size, |r.buf|);
  }

  /** A push appends its samples to the stream and overwrites no buffered one. */
  lemma {:induction false} PushAppends(r: Ring, stream: seq<IqSample>, samples: seq<IqSample>)
    requires Represents(r, stream) && CanPush(r, |samples|)
    ensures Represents(Push(r, samples), stream + samples)
    ensures Push(r, samples).Earliest() == r.Earliest()
  {
    if samples != [] {
      var r' := Push(r, samples);
      var n := |r.buf|;
      TailCell(r, stream);
      hide Wrap;
      forall i | r'.next - r'.size <= i < r'.next
        ensures r'.buf[Wrap(i, n)] == (stream + samples)[i]
      {
        var c := Wrap(i, n);
        if i < r.next {
          WrapStep(i, r.next - i, n);
          assert !(0 <= Ahead(r.Tail(), c, n) < |samples|);
        } else {
          WrapStep(r.next, i - r.next, n);
          assert Ahead(r.Tail(), c, n) == i - r.next;
        }
      }
    }
  }

  /** Discarding forgets a prefix of the window and nothing else. */
  lemma {:induction false} DiscardKeepsStream(r: Ring, stream: seq<IqSample>, sequence: nat)
    requires Represents(r, stream)
    ensures Represents(DiscardBefore(r, sequence), stream)
    ensures DiscardBefore(r, sequence).buf == r.buf
    ensures DiscardBefore(r, sequence).Earliest()
         == if sequence <= r.Earliest() then r.Earliest() else if sequence >= r.next then r.next else sequence
  {
    var n, e := |r.buf|, r.Earliest();
    WrapAdd(e, r.size, n);
    if e < sequence < r.next {
      WrapAdd(e, sequence - e, n);
    }
  }

  /** A read succeeds exactly on the buffered window (or on nothing at all) and
      then returns the samples pushed at those sequence numbers. */
  lemma {:induction false} ReadIsStream(r: Ring, stream: seq<IqSample>, sequence: nat, count: nat)
    requires Represents(r, stream)
    ensures CanRead(r, sequence, count) <==> count == 0 || (r.Earliest() <= sequence && sequence + count <= |stream|)
    ensures CanRead(r, sequence, count) && count > 0 ==> Read(r, sequence, count) == stream[sequence..sequence + count]
  {
    if CanRead(r, sequence, count) && count > 0 {
      var n, e := |r.buf|, r.Earliest();
      var head := Wrap(r.start + (sequence - e), n);
      WrapAdd(e, sequence - e, n);
      forall k | 0 <= k < count
        ensures Read(r, sequence, count)[k] == stream[sequence + k]
      {
        WrapAdd(sequence, k, n);
      }
    }
  }

  /** A view in place exists exactly for a buffered range that does not wrap, and
      stands where that range is stored. */
  lemma {:induction false} ViewIsStream(r: Ring, stream: seq<IqSample>, sequence: nat, count: nat)
    requires Represents(r, stream)
    ensures View(r, sequence, count).Some? <==>
      0 < count && r.Earliest() <= sequence && sequence + count <= r.next && Wrap(sequence, |r.buf|) + count <= |r.buf|
    ensures var v := View(r, sequence, count);
      v.Some? ==> v.value == Wrap(sequence, |r.buf|)
  {
    if r.Earliest() <= sequence && 0 < count && sequence + count <= r.next {
      WrapAdd(r.Earliest(), sequence - r.Earliest(), |r.buf|);
    }
  }

  /** Cells of a buffered, unwrapped range hold the stream, now or any time
      later at which the range is still buffered. */
  lemma {:induction false} WindowInPlace(r: Ring, stream: seq<IqSample>, sequence: nat, count: nat)
    requires Represents(r, stream)
    requires r.Earliest() <= sequence && sequence + count <= r.next
    requires Wrap(sequence, |r.buf|) + count <= |r.buf|
    ensures r.buf[Wrap(sequence, |r.buf|)..Wrap(sequence, |r.buf|) + count] == stream[sequence..sequence + count]
  {
    var n := |r.buf|;
    var cells := r.buf[Wrap(sequence, n)..Wrap(sequence, n) + count];
    forall k | 0 <= k < count
      ensures cells[k] == stream[sequence + k]
    {
      WrapStep(sequence, k, n);
    }
  }

  /** A reservation is the unwrapped tail, and it stays the tail while readers
      discard: its position depends on nothing but the samples committed. */
  lemma {:induction false} ReserveIsTail(r: Ring, stream: seq<IqSample>, count: nat)
    requires Represents(r, stream)
    ensures Reserve(r, count).Some? <==>
      0 < count && r.size + count <= |r.buf| && Wrap(r.next, |r.buf|) + count <= |r.buf|
    ensures Reserve(r, count).Some? ==> Reserve(r, count).value == Wrap(r.next, |r.buf|)
  {
    TailCell(r, stream);
  }

  /** Filling reserved storage, before the commit, changes no buffered sample. */
  lemma {:induction false} FillIsInvisible(r: Ring, stream: seq<IqSample>, samples: seq<IqSample>)
    requires Represents(r, stream)
    requires r.size + |samples| <= |r.buf| && Wrap(r.next, |r.buf|) + |samples| <= |r.buf|
    ensures Represents(Fill(r, Wrap(r.next, |r.buf|), samples), stream)
    ensures var at := Wrap(r.next, |r.buf|); Fill(r, at, samples).buf[at..at + |samples|] == samples
  {
    var n, at := |r.buf|, Wrap(r.next, |r.buf|);
    var r' := Fill(r, at, samples);
    assert |r'.buf| == n;
    forall i | r.next - r.size <= i < r.next
      ensures r'.buf[Wrap(i, n)] == stream[i]
    {
      WrapStep(i, r.next - i, n);
    }
  }

  /** A commit publishes exactly what the reserved storage holds. */
  lemma {:induction false} CommitAppends(r: Ring, stream: seq<IqSample>, samples: seq<IqSample>)
    requires Represents(r, stream)
    requires r.size + |samples| <= |r.buf| && Wrap(r.next, |r.buf|) + |samples| <= |r.buf|
    requires r.buf[Wrap(r.next, |r.buf|)..Wrap(r.next, |r.buf|) + |samples|] == samples
    ensures Represents(Commit(r, |samples|), stream + samples)
    ensures Commit(r, |samples|).Earliest() == r.Earliest()
  {
    var n, at := |r.buf|, Wrap(r.next, |r.buf|);
    forall i | r.next - r.size <= i < r.next + |samples|
      ensures r.buf[Wrap(i, n)] == (stream + samples)[i]
    {
      if i >= r.next {
        WrapStep(r.next, i - r.next, n);
        assert r.buf[at + (i - r.next)] == r.buf[at..at + |samples|][i - r.next];
      }
    }
  }
}
