/** The class IqRing (include/ocudu_gpu_channel/ring.h): the ring's fields,
    updated in place with at most two contiguous block copies per call.  Every
    method is proved to do exactly what the sample-by-sample operation of
    RingModel does, and to represent the same stream. */
module IqRingClass {
  import opened Options
  import opened Complex
  import opened Modular
  import opened RingModel

  method CellOf(i: nat, n: nat) returns (cell: nat)
    requires n > 0
    ensures cell == Wrap(i, n)
  {
    WrapIsMod(i, n);
    cell := i % n;
  }

  method CopyInto(dst: array<IqSample>, at: nat, src: seq<IqSample>)
    requires at + |src| <= dst.Length
    modifies dst
    ensures dst[..] == old(dst[..at]) + src + old(dst[at + |src|..])
  {
    for k := 0 to |src|
      invariant forall c :: 0 <= c < dst.Length ==>
        dst[c] == if at <= c < at + k then src[c - at] else old(dst[c])
    {
      dst[at + k] := src[k];
    }
  }

  /** A wrapping store is the block up to the end of the storage followed by
      the block at its start. */
  lemma {:induction false} StoreIsTwoBlocks(buf: seq<IqSample>, at: nat, samples: seq<IqSample>, first: nat)
    requires at < |buf| && |samples| <= |buf|
    requires first == if |samples| < |buf| - at then |samples| else |buf| - at
    ensures var once := buf[..at] + samples[..first] + buf[at + first..];
      Store(buf, at, samples) == samples[first..] + once[|samples| - first..]
  {
    var once := buf[..at] + samples[..first] + buf[at + first..];
    var twice := samples[first..] + once[|samples| - first..];
    assert |once| == |buf| && |twice| == |buf|;
    forall c | 0 <= c < |buf|
      ensures Store(buf, at, samples)[c] == twice[c]
    {
      if c >= at {
        assert once[c] == if c < at + first then samples[c - at] else buf[c];
      } else {
        assert once[c] == buf[c];
      }
    }
  }

  /** A wrapping load is likewise two blocks. */
  lemma {:induction false} LoadIsTwoBlocks(buf: seq<IqSample>, head: nat, count: nat, first: nat)
    requires head < |buf| && count <= |buf|
    requires first == if count < |buf| - head then count else |buf| - head
    ensures Load(buf, head, count) == buf[head..head + first] + buf[..count - first]
  {
    var blocks := buf[head..head + first] + buf[..count - first];
    forall k | 0 <= k < count
      ensures Load(buf, head, count)[k] == blocks[k]
    {
      WrapStep(head, k, |buf|);
    }
  }

  /** The two block copies of push(). */
  method StoreBlocks(dst: array<IqSample>, tail: nat, samples: seq<IqSample>)
    requires tail < dst.Length && |samples| <= dst.Length
    modifies dst
    ensures dst[..] == Store(old(dst[..]), tail, samples)
  {
    hide Store;
    var first := if |samples| < dst.Length - tail then |samples| else dst.Length - tail;
    StoreIsTwoBlocks(dst[..], tail, samples, first);
    ghost var before := dst[..];
    CopyInto(dst, tail, samples[..first]);
    ghost var once := dst[..];
    assert once == before[..tail] + samples[..first] + before[tail + first..];
    CopyInto(dst, 0, samples[first..]);
    assert |samples[first..]| == |samples| - first;
    assert dst[..] == samples[first..] + once[|samples| - first..];
  }

  /** The two block copies of read(). */
  method LoadBlocks(src: array<IqSample>, head: nat, out: array<IqSample>)
    requires head < src.Length && out.Length <= src.Length && src != out
    modifies out
    ensures out[..] == Load(src[..], head, out.Length)
  {
    var first := if out.Length < src.Length - head then out.Length else src.Length - head;
    LoadIsTwoBlocks(src[..], head, out.Length, first);
    assert src[..][head..head + first] == src[head..head + first];
    assert src[..][..out.Length - first] == src[..out.Length - first];
    CopyInto(out, 0, src[head..head + first]);
    CopyInto(out, first, src[..out.Length - first]);
    assert out[..] == src[head..head + first] + src[..out.Length - first];
  }

  class IqRing {
    var buffer: array<IqSample>
    var nextSequence: nat
    var start: nat
    var size: nat
    // Everything ever pushed.
    ghost var stream: seq<IqSample>

    ghost function Model(): Ring
      reads this, buffer
    {
      Ring(buffer[..], start, size, nextSequence)
    }

    ghost predicate Valid()
      reads this, buffer
    {
      if buffer.Length == 0 then start == size == nextSequence == 0 && stream == []
      else Represents(Model(), stream)
    }

    constructor (capacity: nat)
      ensures Valid() && fresh(buffer)
      ensures Model() == Empty(capacity) && stream == []
    {
      buffer := new IqSample[capacity](_ => ZERO);
      nextSequence, start, size := 0, 0, 0;
      stream := [];
      new;
      if capacity > 0 {
        EmptyRepresents(capacity);
      }
      assert buffer[..] == Empty(capacity).buf;
    }

    method Push(samples: seq<IqSample>) returns (ok: bool)
      requires Valid()
      modifies this, buffer
      ensures Valid() && buffer == old(buffer)
      ensures ok <==> CanPush(old(Model()), |samples|)
      ensures ok ==> Model() == RingModel.Push(old(Model()), samples) && stream == old(stream) + samples
      ensures !ok ==> Model() == old(Model()) && stream == old(stream)
    {
      if |samples| == 0 {
        assert stream + samples == stream;
        return true;
      }
      if |samples| > buffer.Length || size + |samples| > buffer.Length {
        return false;
      }
      ghost var before := Model();
      PushAppends(before, stream, samples);
      hide Wrap;
      var tail := CellOf(start + size, buffer.Length);
      StoreBlocks(buffer, tail, samples);
      size := size + |samples|;
      nextSequence := nextSequence + |samples|;
      stream := stream + samples;
      return true;
    }

    method Read(sequence: nat, out: array<IqSample>) returns (ok: bool)
      requires Valid() && out != buffer
      modifies out
      ensures ok <==> CanRead(Model(), sequence, out.Length)
      ensures ok ==> out[..] == RingModel.Read(Model(), sequence, out.Length)
      ensures ok && out.Length > 0 ==>
        nextSequence - size <= sequence && sequence + out.Length <= |stream| &&
        out[..] == stream[sequence..sequence + out.Length]
      ensures !ok ==> out[..] == old(out[..])
    {
      if out.Length == 0 {
        return true;
      }
      if sequence < nextSequence - size || sequence + out.Length > nextSequence || buffer.Length == 0 {
        return false;
      }
      ReadIsStream(Model(), stream, sequence, out.Length);
      var offset := sequence - (nextSequence - size);
      var head := CellOf(start + offset, buffer.Length);
      LoadBlocks(buffer, head, out);
      return true;
    }

    method DiscardBefore(sequence: nat)
      requires Valid()
      modifies this`start, this`size
      ensures Valid()
      ensures Model() == RingModel.DiscardBefore(old(Model()), sequence)
    {
      var earliest := nextSequence - size;
      if sequence <= earliest || size == 0 {
        return;
      }
      DiscardKeepsStream(Model(), stream, sequence);
      if sequence >= nextSequence {
        start := CellOf(start + size, buffer.Length);
        size := 0;
        return;
      }
      var discardCount := sequence - earliest;
      start := CellOf(start + discardCount, buffer.Length);
      size := size - discardCount;
    }

    /** Some(head): the range is buffer[head..head + count]. */
    method View(sequence: nat, count: nat) returns (span: Option<nat>)
      requires Valid()
      ensures span == RingModel.View(Model(), sequence, count)
      ensures span.Some? ==>
        sequence + count <= |stream| && span.value + count <= buffer.Length &&
        buffer[span.value..span.value + count] == stream[sequence..sequence + count]
    {
      if count == 0 || buffer.Length == 0 || sequence < nextSequence - size || sequence + count > nextSequence {
        return None;
      }
      var offset := sequence - (nextSequence - size);
      var head := CellOf(start + offset, buffer.Length);
      if head + count > buffer.Length {
        return None;
      }
      ViewIsStream(Model(), stream, sequence, count);
      WindowInPlace(Model(), stream, sequence, count);
      assert buffer[..][head..head + count] == buffer[head..head + count];
      return Some(head);
    }

    /** Some(tail): the caller may write buffer[tail..tail + count]. */
    method Reserve(count: nat) returns (span: Option<nat>)
      requires Valid()
      ensures span == RingModel.Reserve(Model(), count)
    {
      if count == 0 || buffer.Length == 0 || size + count > buffer.Length {
        return None;
      }
      var tail := CellOf(start + size, buffer.Length);
      if tail + count > buffer.Length {
        return None;
      }
      return Some(tail);
    }

    /** The producer's write through a reserved span, with no lock held. */
    method FillSpan(tail: nat, samples: seq<IqSample>)
      requires Valid() && RingModel.Reserve(Model(), |samples|) == Some(tail)
      modifies buffer
      ensures Valid()
      ensures Model() == Fill(old(Model()), tail, samples)
      ensures buffer[tail..tail + |samples|] == samples
    {
      ReserveIsTail(Model(), stream, |samples|);
      FillIsInvisible(Model(), stream, samples);
      CopyInto(buffer, tail, samples);
    }

    method Commit(count: nat)
      requires Valid() && (count == 0 || RingModel.Reserve(Model(), count).Some?)
      modifies this`size, this`nextSequence, this`stream
      ensures Valid()
      ensures Model() == RingModel.Commit(old(Model()), count)
      ensures count > 0 ==>
        var tail := Wrap(old(nextSequence), buffer.Length);
        tail + count <= buffer.Length && stream == old(stream) + buffer[tail..tail + count]
      ensures count == 0 ==> stream == old(stream)
    {
      if count > 0 {
        ReserveIsTail(Model(), stream, count);
        var tail := Wrap(nextSequence, buffer.Length);
        assert buffer[..][tail..tail + count] == buffer[tail..tail + count];
        CommitAppends(Model(), stream, buffer[tail..tail + count]);
        stream := stream + buffer[tail..tail + count];
      }
      size := size + count;
      nextSequence := nextSequence + count;
    }
  }
}
