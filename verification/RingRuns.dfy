/** Whole runs of a ring with one producer: pushes, reservations filled without
    the lock and committed later, and discards that may fall anywhere in between. */
module RingRuns {
  import opened Options
  import opened Complex
  import opened Modular
  import opened RingModel

  datatype Op =
    | DoPush(samples: seq<IqSample>)
    | DoReserve(count: nat)
    | DoFill(filling: seq<IqSample>)
    | DoCommit
    | DoDiscard(sequence: nat)

  /** `stream` is the history; `span` the outstanding reservation, its tail cell
      and what the producer has written there so far. */
  datatype Run = Run(ring: Ring, stream: seq<IqSample>, span: Option<Span>)
  datatype Span = Span(tail: nat, count: nat, filled: Option<seq<IqSample>>)

  /** What the callers of ring.h do: one reservation at a time, filled before
      its commit, no push while it is outstanding. */
  predicate Allowed(s: Run, op: Op)
  {
    match op
    case DoPush(_) => s.span.None?
    case DoReserve(_) => s.span.None?
    case DoFill(samples) => s.span.Some? && s.span.value.count == |samples| && s.span.value.tail + |samples| <= |s.ring.buf|
    case DoCommit => s.span.Some? && s.span.value.filled.Some?
    case DoDiscard(_) => true
  }

  function Apply(s: Run, op: Op): Run
    requires Allowed(s, op)
  {
    match op
    case DoPush(samples) =>
      if CanPush(s.ring, |samples|) then s.(ring := Push(s.ring, samples), stream := s.stream + samples) else s
    case DoReserve(count) =>
      (match Reserve(s.ring, count)
       case None => s
       case Some(tail) => s.(span := Some(Span(tail, count, None))))
    case DoFill(samples) =>
      s.(ring := Fill(s.ring, s.span.value.tail, samples), span := Some(s.span.value.(filled := Some(samples))))
    case DoCommit =>
      var samples := s.span.value.filled.value;
      Run(Commit(s.ring, |samples|), s.stream + samples, None)
    case DoDiscard(sequence) => s.(ring := DiscardBefore(s.ring, sequence))
  }

  ghost predicate AllAllowed(s: Run, ops: seq<Op>)
    decreases |ops|
  {
    ops == [] || (Allowed(s, ops[0]) && AllAllowed(Apply(s, ops[0]), ops[1..]))
  }

  ghost function Final(s: Run, ops: seq<Op>): Run
    requires AllAllowed(s, ops)
    decreases |ops|
  {
    if ops == [] then s else Final(Apply(s, ops[0]), ops[1..])
  }

  /** The ring represents the history, and an outstanding reservation is still
      the unwrapped tail, outside the buffered window, holding what was written. */
  ghost predicate Sound(s: Run)
  {
    && Represents(s.ring, s.stream)
    && (s.span.Some? ==>
          var Span(tail, count, filled) := s.span.value;
          && tail == Wrap(s.ring.next, |s.ring.buf|)
          && s.ring.size + count <= |s.ring.buf| && tail + count <= |s.ring.buf|
          && (filled.Some? ==>
                |filled.value| == count && s.ring.buf[tail..tail + count] == filled.value))
  }

  lemma {:induction false} ApplyKeepsSound(s: Run, op: Op)
    requires Sound(s) && Allowed(s, op)
    ensures Sound(Apply(s, op))
    ensures s.stream <= Apply(s, op).stream && |Apply(s, op).ring.buf| == |s.ring.buf|
    ensures Apply(s, op).ring.Earliest() >= s.ring.Earliest()
  {
    match op
    case DoPush(samples) =>
      if CanPush(s.ring, |samples|) {
        PushAppends(s.ring, s.stream, samples);
      }
    case DoReserve(count) =>
      ReserveIsTail(s.ring, s.stream, count);
    case DoFill(samples) =>
      FillIsInvisible(s.ring, s.stream, samples);
    case DoCommit =>
      CommitAppends(s.ring, s.stream, s.span.value.filled.value);
    case DoDiscard(sequence) =>
      DiscardKeepsStream(s.ring, s.stream, sequence);
  }

  lemma {:induction false} RunKeepsSound(s: Run, ops: seq<Op>)
    requires Sound(s) && AllAllowed(s, ops)
    ensures Sound(Final(s, ops))
    ensures s.stream <= Final(s, ops).stream && |Final(s, ops).ring.buf| == |s.ring.buf|
    decreases |ops|
  {
    if ops != [] {
      ApplyKeepsSound(s, ops[0]);
      RunKeepsSound(Apply(s, ops[0]), ops[1..]);
    }
  }

  /** Refinement: from an empty ring, over every allowed run, a read returns
      exactly the pushed samples of its range, or fails exactly when the range
      is no longer, or not yet, buffered. */
  lemma {:induction false} RingRefinesStream(capacity: nat, ops: seq<Op>, sequence: nat, count: nat)
    requires capacity > 0 && count > 0
    requires AllAllowed(Run(Empty(capacity), [], None), ops)
    ensures var s := Final(Run(Empty(capacity), [], None), ops);
      && (CanRead(s.ring, sequence, count) <==>
            s.ring.Earliest() <= sequence && sequence + count <= |s.stream|)
      && (CanRead(s.ring, sequence, count) ==>
            Read(s.ring, sequence, count) == s.stream[sequence..sequence + count])
  {
    EmptyRepresents(capacity);
    RunKeepsSound(Run(Empty(capacity), [], None), ops);
    var s := Final(Run(Empty(capacity), [], None), ops);
    ReadIsStream(s.ring, s.stream, sequence, count);
  }

  /** A view handed out in state s still shows the samples it was taken for in
      every later state that has not discarded them: no push, fill or commit in
      between touched its cells. */
  lemma {:induction false} HeldViewIsStable(s: Run, ops: seq<Op>, sequence: nat, count: nat)
    requires Sound(s) && AllAllowed(s, ops)
    requires View(s.ring, sequence, count).Some?
    requires Final(s, ops).ring.Earliest() <= sequence
    ensures var head := View(s.ring, sequence, count).value;
      && head + count <= |Final(s, ops).ring.buf|
      && sequence + count <= |s.stream|
      && Final(s, ops).ring.buf[head..head + count] == s.stream[sequence..sequence + count]
  {
    var s' := Final(s, ops);
    RunKeepsSound(s, ops);
    ViewIsStream(s.ring, s.stream, sequence, count);
    WindowInPlace(s'.ring, s'.stream, sequence, count);
    assert s'.stream[sequence..sequence + count] == s.stream[sequence..sequence + count];
  }
}
