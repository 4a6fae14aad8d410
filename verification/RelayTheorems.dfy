/** What the invariants give over every run of the relay. */
module RelayTheorems {
  import opened Complex
  import opened RingModel
  import opened Relay
  import opened RelaySafety
  import opened RelaySteps
  import opened RelayProducer

  // ------------------------------------------------------------------------
  // Unreachable errors
  // ------------------------------------------------------------------------

  /** No serve window vanishes, no reserved push is rejected, no sequence gap is
      counted, and no row runs further ahead than its high-water mark. */
  lemma {:induction false} NoFaults(t: Topology, actions: seq<Action>, s: State)
    requires ValidTopology(t) && Reaches(t, actions, s)
    ensures Shaped(t, s)
    ensures forall n :: 0 <= n < |t.nodes| ==> !s.nodes[n].pc.ProducerFailed? && s.nodes[n].gaps == 0
    ensures forall p :: 0 <= p < |t.ports| ==> !s.rx[p].pc.RepFailed? && s.rx[p].ring.size <= t.ports[p].highWater
  {
    ReachableInv(t, actions, s);
    forall n | 0 <= n < |t.nodes| ensures !s.nodes[n].pc.ProducerFailed? && s.nodes[n].gaps == 0 {
      assert NodeOk(t, s, n);
    }
    forall p | 0 <= p < |t.ports| ensures !s.rx[p].pc.RepFailed? && s.rx[p].ring.size <= t.ports[p].highWater {
      assert ValidPort(t, p);
      assert RxOk(t, s, p);
    }
  }

  /** A radio's message on port p that no ring state could take. */
  predicate Oversize(t: Topology, a: Action, p: nat)
  {
    a.ARadioReply? && a.p == p < |t.ports| && a.message.Some? && |a.message.value| > t.ports[p].queue
  }

  /** The one worker error left: in any run a puller has failed exactly when its
      radio has sent a message larger than the queue. */
  lemma {:induction false} OnlyOversizeFails(t: Topology, actions: seq<Action>, s: State, p: nat)
    requires ValidTopology(t) && Reaches(t, actions, s) && p < |t.ports|
    ensures Shaped(t, s)
    ensures s.tx[p].pc.PullFailed? <==> exists k :: 0 <= k < |actions| && Oversize(t, actions[k], p)
    decreases |actions|
  {
    hide Next, Enabled, Oversize;
    if actions != [] {
      var m := |actions| - 1;
      var before: State :|
        Reaches(t, actions[..m], before) && Shaped(t, before) && Enabled(t, before, actions[m]) &&
        s == Next(t, before, actions[m]);
      OnlyOversizeFails(t, actions[..m], before, p);
      OversizeStep(t, before, actions[m], p);
      assert forall k :: 0 <= k < m ==> actions[..m][k] == actions[k];
    }
  }

  lemma {:induction false} OversizeStep(t: Topology, s: State, a: Action, p: nat)
    requires ValidTopology(t) && Shaped(t, s) && Enabled(t, s, a) && p < |t.ports|
    ensures Next(t, s, a).tx[p].pc.PullFailed? <==> s.tx[p].pc.PullFailed? || Oversize(t, a, p)
  {
    hide Release, CanPush, Push, View, CanRead, Read, Reserve, Cells, Rows, Contents, LastRow, End, Fill, DiscardBefore;
    assert ValidPort(t, p);
  }

  // ------------------------------------------------------------------------
  // What the radios sent
  // ------------------------------------------------------------------------

  /** The samples an action brings to port p: a message no larger than its queue. */
  function Brought(t: Topology, a: Action, p: nat): seq<IqSample>
    requires p < |t.ports|
  {
    if a.ARadioReply? && a.p == p && a.message.Some? && |a.message.value| <= t.ports[p].queue then a.message.value else []
  }

  /** All messages of port p's radio, in order. */
  function Sent(t: Topology, actions: seq<Action>, p: nat): seq<IqSample>
    requires p < |t.ports|
  {
    if actions == [] then []
    else Sent(t, actions[..|actions| - 1], p) + Brought(t, actions[|actions| - 1], p)
  }

  /** Over any run, what was pushed and what waits to be pushed is exactly what
      the radio sent. */
  lemma {:induction false} StreamIsWhatWasSent(t: Topology, actions: seq<Action>, s: State, p: nat)
    requires ValidTopology(t) && Reaches(t, actions, s) && p < |t.ports|
    ensures Shaped(t, s) && s.tx[p].stream + s.tx[p].pending == Sent(t, actions, p)
    decreases |actions|
  {
    hide Next, Enabled, Brought;
    if actions != [] {
      var m := |actions| - 1;
      var before: State :|
        Reaches(t, actions[..m], before) && Shaped(t, before) && Enabled(t, before, actions[m]) &&
        s == Next(t, before, actions[m]);
      StreamIsWhatWasSent(t, actions[..m], before, p);
      ReachableInv(t, actions[..m], before);
      BroughtStep(t, before, actions[m], p);
    }
  }

  lemma {:induction false} BroughtStep(t: Topology, s: State, a: Action, p: nat)
    requires ValidTopology(t) && Inv(t, s) && Enabled(t, s, a) && p < |t.ports|
    ensures var x, x' := s.tx[p], Next(t, s, a).tx[p];
            x'.stream + x'.pending == x.stream + x.pending + Brought(t, a, p)
  {
    hide Release, CanPush, Push, View, CanRead, Read, Reserve, Cells, Rows, Contents, LastRow, End, Fill, DiscardBefore, Feeds,
         NodeOk, RxOk;
    assert ValidPort(t, p);
    assert TxOk(t, s, p);
  }

  lemma {:induction false} SliceOfBoth(a: seq<IqSample>, b: seq<IqSample>, start: nat, count: nat)
    requires start + count <= |a|
    ensures (a + b)[start..start + count] == a[start..start + count]
  {
  }

  /** So slot k of a node holds, of every lane, that range of what the lane's
      radio sent. */
  lemma {:induction false} SlotsHoldWhatWasSent(t: Topology, actions: seq<Action>, s: State, n: nat, k: nat, j: nat)
    requires ValidTopology(t) && Reaches(t, actions, s)
    requires n < |t.nodes| && j < |t.nodes[n].lanes| && Shaped(t, s) && k < |s.nodes[n].log|
    ensures ValidNode(t, n)
    ensures var slot := s.nodes[n].log[k];
            var sent := Sent(t, actions, t.nodes[n].lanes[j].src);
            j < |slot.windows| && slot.start + slot.count <= |sent| &&
            slot.windows[j] == sent[slot.start..slot.start + slot.count]
  {
    SlotsShareOneWindow(t, actions, s, n, k, j);
    StreamIsWhatWasSent(t, actions, s, t.nodes[n].lanes[j].src);
    hide Reaches, Sent, Feeds, ValidTopology, Rows, ValidPort, ValidNode, Shaped;
    var src := t.nodes[n].lanes[j].src;
    SliceOfBoth(s.tx[src].stream, s.tx[src].pending, s.nodes[n].log[k].start, s.nodes[n].log[k].count);
  }

  // ------------------------------------------------------------------------
  // Alignment and windows
  // ------------------------------------------------------------------------

  /** In every interleaving every lane of a node stands at the same sample: the
      number the node has processed, less the slot in flight while its cursors
      are being moved.  That sample is still buffered at its source, or is the
      next to arrive. */
  lemma {:induction false} LanesAligned(t: Topology, actions: seq<Action>, s: State, n: nat, j: nat)
    requires ValidTopology(t) && Reaches(t, actions, s)
    requires n < |t.nodes| && j < |t.nodes[n].lanes|
    ensures Shaped(t, s) && ValidNode(t, n)
    ensures s.nodes[n].cursors[j] + Lag(s.nodes[n].pc, j) == End(s.nodes[n].log)
    ensures var src := s.tx[t.nodes[n].lanes[j].src];
      src.ring.Earliest() <= s.nodes[n].cursors[j] <= src.ring.next == |src.stream|
    ensures !s.nodes[n].pc.AdvanceLane? ==>
      forall i :: 0 <= i < |t.nodes[n].lanes| ==> s.nodes[n].cursors[i] == s.nodes[n].cursors[j]
  {
    ReachableInv(t, actions, s);
    assert ValidNode(t, n);
    assert NodeOk(t, s, n);
    assert LaneOk(t, s, n, j);
    assert TxOk(t, s, t.nodes[n].lanes[j].src);
  }

  /** Slot k of a node is computed from samples [start, start + count) of every
      one of its lanes, and the slots tile the streams without gap or overlap. */
  lemma {:induction false} SlotsShareOneWindow(t: Topology, actions: seq<Action>, s: State, n: nat, k: nat, j: nat)
    requires ValidTopology(t) && Reaches(t, actions, s)
    requires n < |t.nodes| && j < |t.nodes[n].lanes| && Shaped(t, s) && k < |s.nodes[n].log|
    ensures ValidNode(t, n)
    ensures var slot := s.nodes[n].log[k];
      var stream := s.tx[t.nodes[n].lanes[j].src].stream;
      && slot.start == (if k == 0 then 0 else s.nodes[n].log[k - 1].start + s.nodes[n].log[k - 1].count)
      && j < |slot.windows| && slot.start + slot.count <= |stream|
      && slot.windows[j] == stream[slot.start..slot.start + slot.count]
      && slot.rows == Rows(t, n, s.nodes[n].log[..k], slot.windows, slot.count)
  {
    hide Reaches, RxOk, RxLocal, LaneOk, RowOk, NodeLocal, Feeds;
    ReachableInv(t, actions, s);
    assert ValidNode(t, n);
    assert NodeOk(t, s, n);
    assert SlotOk(t, s, n, k);
  }

  /** The counts queued on a port add up to its ring. */
  function Sum(counts: seq<nat>): nat
  {
    if counts == [] then 0 else counts[0] + Sum(counts[1..])
  }

  lemma {:induction false} SumOfSlots(log: seq<Slot>, r: nat, a: nat, counts: seq<nat>)
    requires Tiled(log, r) && a + |counts| <= |log|
    requires forall i :: 0 <= i < |counts| ==> counts[i] == log[a + i].count
    ensures StartOf(log, a) + Sum(counts) == StartOf(log, a + |counts|)
    decreases |counts|
  {
    if counts != [] {
      assert Tile(log, r, a);
      if a + 1 < |log| {
        assert Tile(log, r, a + 1);
      }
      SumOfSlots(log, r, a + 1, counts[1..]);
    }
  }

  lemma {:induction false} QueueFillsRing(y: RxSide, log: seq<Slot>, published: int, r: nat)
    requires RxQueue(y, log, published, r) && Tiled(log, r)
    ensures Sum(y.slots) == y.ring.size && y.cursor == y.ring.Earliest()
  {
    SumOfSlots(log, r, Popped(y), y.slots);
  }

  lemma {:induction false} QueuedWindowsFillTheRing(t: Topology, actions: seq<Action>, s: State, p: nat)
    requires ValidTopology(t) && Reaches(t, actions, s) && p < |t.ports| && t.ports[p].row >= 0
    ensures Shaped(t, s)
    ensures Sum(s.rx[p].slots) == s.rx[p].ring.size && s.rx[p].cursor == s.rx[p].ring.Earliest()
  {
    ReachableInv(t, actions, s);
    assert ValidPort(t, p);
    assert RxOk(t, s, p);
    var n := t.ports[p].node;
    LogIsTiled(t, s, n, t.ports[p].row);
    QueueFillsRing(s.rx[p], s.nodes[n].log, Published(s.nodes[n], t.ports[p].row), t.ports[p].row);
  }

  // ------------------------------------------------------------------------
  // The wire
  // ------------------------------------------------------------------------

  /** The k-th reply of an RX port is its row of its node's k-th slot, whole. */
  lemma {:induction false} RepliesAreRows(t: Topology, actions: seq<Action>, s: State, p: nat, k: nat)
    requires ValidTopology(t) && Reaches(t, actions, s) && p < |t.ports| && t.ports[p].row >= 0
    requires Shaped(t, s) && k < |s.rx[p].wire|
    ensures ValidPort(t, p)
    ensures var log, r := s.nodes[t.ports[p].node].log, t.ports[p].row;
      k < |log| && r < |log[k].rows| && s.rx[p].wire[k] == log[k].rows[r] && |s.rx[p].wire[k]| == log[k].count
  {
    ReachableInv(t, actions, s);
    assert ValidPort(t, p);
    assert RxOk(t, s, p);
    var n := t.ports[p].node;
    assert NodeOk(t, s, n);
    assert SlotOk(t, s, n, k);
  }

  /** End to end: sample i of the k-th reply of a port is the channel's, of its row,
      of the node's earlier slots and of what the radio of every lane sent in the
      slot's range. */
  lemma {:induction false} RepliesAreTheChannels(t: Topology, actions: seq<Action>, s: State, p: nat, k: nat, i: nat)
    requires ValidTopology(t) && Reaches(t, actions, s) && p < |t.ports| && t.ports[p].row >= 0
    requires Shaped(t, s) && k < |s.rx[p].wire| && i < |s.rx[p].wire[k]|
    ensures ValidPort(t, p) && k < |s.nodes[t.ports[p].node].log| && ValidNode(t, t.ports[p].node)
    ensures var n := t.ports[p].node;
            var log, lanes := s.nodes[n].log, t.nodes[n].lanes;
            |log[k].windows| == |lanes| &&
            s.rx[p].wire[k][i] == t.channel(n, log[..k], log[k].windows, t.ports[p].row, i) &&
            forall j: nat :: j < |lanes| ==>
              var sent := Sent(t, actions, lanes[j].src);
              log[k].start + log[k].count <= |sent| && log[k].windows[j] == sent[log[k].start..log[k].start + log[k].count]
  {
    RepliesAreRows(t, actions, s, p, k);
    var n := t.ports[p].node;
    assert ValidPort(t, p) && ValidNode(t, n);
    LoggedSlot(t, actions, s, n, k);
    hide Reaches, Sent, Feeds, ValidTopology;
    forall j: nat | j < |t.nodes[n].lanes|
      ensures var slot, sent := s.nodes[n].log[k], Sent(t, actions, t.nodes[n].lanes[j].src);
              slot.start + slot.count <= |sent| && slot.windows[j] == sent[slot.start..slot.start + slot.count]
    {
      SlotsHoldWhatWasSent(t, actions, s, n, k, j);
    }
  }

  lemma {:induction false} LoggedSlot(t: Topology, actions: seq<Action>, s: State, n: nat, k: nat)
    requires ValidTopology(t) && Reaches(t, actions, s) && n < |t.nodes| && Shaped(t, s) && k < |s.nodes[n].log|
    ensures var slot := s.nodes[n].log[k];
            |slot.windows| == |t.nodes[n].lanes| && slot.rows == Rows(t, n, s.nodes[n].log[..k], slot.windows, slot.count)
  {
    hide Reaches, RxOk, RxLocal, LaneOk, RowOk, NodeLocal, Feeds;
    ReachableInv(t, actions, s);
    assert NodeOk(t, s, n);
    assert SlotOk(t, s, n, k);
  }

  /** How often the radio of port p has asked. */
  function Requests(actions: seq<Action>, p: nat): nat
  {
    if actions == [] then 0
    else Requests(actions[..|actions| - 1], p) + if actions[|actions| - 1] == ARadioRequest(p) then 1 else 0
  }

  /** A request the REP worker still owes a reply. */
  predicate Owed(pc: RepPc) { pc.RepTop? || pc.RepPop? || pc.RepSleep? || pc.RepWakeNode? || pc.RepSend? }

  /** Every request is answered once: over any run a port has sent as many replies
      as its radio made requests, less the one in hand. */
  lemma {:induction false} RequestsAreAnsweredOnce(t: Topology, actions: seq<Action>, s: State, p: nat)
    requires ValidTopology(t) && Reaches(t, actions, s) && p < |t.ports|
    ensures Shaped(t, s) && |s.rx[p].wire| + (if Owed(s.rx[p].pc) then 1 else 0) == Requests(actions, p)
    decreases |actions|
  {
    hide Next, Enabled, Owed;
    if actions == [] {
      NothingOwed(t, p);
    } else {
      var m := |actions| - 1;
      var before: State :|
        Reaches(t, actions[..m], before) && Shaped(t, before) && Enabled(t, before, actions[m]) &&
        s == Next(t, before, actions[m]);
      RequestsAreAnsweredOnce(t, actions[..m], before, p);
      NoFaults(t, actions, s);
      RequestStep(t, before, actions[m], p);
    }
  }

  lemma {:induction false} NothingOwed(t: Topology, p: nat)
    requires Wired(t) && p < |t.ports|
    ensures !Owed(Init(t).rx[p].pc)
  {
  }

  lemma {:induction false} RequestStep(t: Topology, s: State, a: Action, p: nat)
    requires ValidTopology(t) && Shaped(t, s) && Enabled(t, s, a) && p < |t.ports| && !Next(t, s, a).rx[p].pc.RepFailed?
    ensures var y, y' := s.rx[p], Next(t, s, a).rx[p];
            |y'.wire| + (if Owed(y'.pc) then 1 else 0) ==
            |y.wire| + (if Owed(y.pc) then 1 else 0) + if a == ARadioRequest(p) then 1 else 0
  {
    hide Release, CanPush, Push, View, CanRead, Read, Reserve, Cells, Rows, Contents, LastRow, End, Fill, DiscardBefore, Feeds,
         Headroom, First, Commit;
  }

  /** Sibling RX ports never diverge: whatever the timing of their REP workers,
      the k-th reply on each covers the same window and has the same size. */
  lemma {:induction false} SiblingsAgree(t: Topology, actions: seq<Action>, s: State, p: nat, q: nat, k: nat)
    requires ValidTopology(t) && Reaches(t, actions, s) && Shaped(t, s)
    requires p < |t.ports| && q < |t.ports| && t.ports[p].row >= 0 && t.ports[q].row >= 0
    requires t.ports[p].node == t.ports[q].node
    requires k < |s.rx[p].wire| && k < |s.rx[q].wire|
    ensures |s.rx[p].wire[k]| == |s.rx[q].wire[k]|
    ensures ValidPort(t, p) && ValidPort(t, q) && k < |s.nodes[t.ports[p].node].log|
    ensures var slot := s.nodes[t.ports[p].node].log[k];
      && t.ports[p].row < |slot.rows| && t.ports[q].row < |slot.rows|
      && s.rx[p].wire[k] == slot.rows[t.ports[p].row] && s.rx[q].wire[k] == slot.rows[t.ports[q].row]
  {
    RepliesAreRows(t, actions, s, p, k);
    RepliesAreRows(t, actions, s, q, k);
  }

  // ------------------------------------------------------------------------
  // Zero-copy refines copying
  // ------------------------------------------------------------------------

  /** The same topology under other copy settings. */
  predicate SameButCopies(t: Topology, u: Topology)
  {
    t.ports == u.ports && t.nodes == u.nodes && t.links == u.links
  }

  /** Two runs whose radios transmit the same samples, cut into slots the same way
      up to slot k. */
  ghost predicate SameInput(t: Topology, s: State, u: Topology, v: State, n: nat, k: nat)
    requires ValidTopology(t) && ValidTopology(u) && SameButCopies(t, u) && Shaped(t, s) && Shaped(u, v) && n < |t.nodes|
  {
    assert ValidNode(t, n);
    && k <= |s.nodes[n].log| && k <= |v.nodes[n].log|
    && (forall i :: 0 <= i < k ==> s.nodes[n].log[i].count == v.nodes[n].log[i].count)
    && forall j :: 0 <= j < |t.nodes[n].lanes| ==>
         var src := t.nodes[n].lanes[j].src;
         s.tx[src].stream <= v.tx[src].stream || v.tx[src].stream <= s.tx[src].stream
  }

  lemma {:induction false} SameWindow(a: seq<IqSample>, b: seq<IqSample>, x: seq<IqSample>, y: seq<IqSample>, start: nat)
    requires a <= b || b <= a
    requires |x| == |y| && WindowIs(x, a, start) && WindowIs(y, b, start)
    ensures x == y
  {
    forall i | 0 <= i < |x| ensures x[i] == y[i] {
    }
  }

  lemma {:induction false} SameSlot(t: Topology, s: State, u: Topology, v: State, n: nat, k: nat)
    requires ValidTopology(t) && ValidTopology(u) && SameButCopies(t, u) && t.channel == u.channel
    requires Inv(t, s) && Inv(u, v) && n < |t.nodes| && SameInput(t, s, u, v, n, k) && k > 0
    requires s.nodes[n].log[..k - 1] == v.nodes[n].log[..k - 1]
    ensures s.nodes[n].log[k - 1] == v.nodes[n].log[k - 1]
  {
    assert NodeOk(t, s, n) && NodeOk(u, v, n);
    assert SlotOk(t, s, n, k - 1) && SlotOk(u, v, n, k - 1);
    var a, b := s.nodes[n].log[k - 1], v.nodes[n].log[k - 1];
    if k > 1 {
      assert s.nodes[n].log[k - 2] == s.nodes[n].log[..k - 1][k - 2];
      assert v.nodes[n].log[k - 2] == v.nodes[n].log[..k - 1][k - 2];
    }
    assert a.start == b.start && a.count == b.count;
    assert ValidNode(t, n);
    forall j | 0 <= j < |t.nodes[n].lanes| ensures a.windows[j] == b.windows[j] {
      var src := t.nodes[n].lanes[j].src;
      SameWindow(s.tx[src].stream, v.tx[src].stream, a.windows[j], b.windows[j], a.start);
    }
    assert a.windows == b.windows;
  }

  lemma {:induction false} SameLog(t: Topology, s: State, u: Topology, v: State, n: nat, k: nat)
    requires ValidTopology(t) && ValidTopology(u) && SameButCopies(t, u) && t.channel == u.channel
    requires Inv(t, s) && Inv(u, v) && n < |t.nodes| && SameInput(t, s, u, v, n, k)
    ensures s.nodes[n].log[..k] == v.nodes[n].log[..k]
    decreases k
  {
    if k > 0 {
      SameLog(t, s, u, v, n, k - 1);
      SameSlot(t, s, u, v, n, k);
      assert s.nodes[n].log[..k] == s.nodes[n].log[..k - 1] + [s.nodes[n].log[k - 1]];
      assert v.nodes[n].log[..k] == v.nodes[n].log[..k - 1] + [v.nodes[n].log[k - 1]];
    }
  }

  /** Whatever the settings of FEWER_COPIES and DIRECT_ROWS, and whatever the
      interleaving, the same samples cut the same way put the same replies on
      the wire: viewing in place and writing rows in place is invisible. */
  lemma {:induction false} CopySettingsAreInvisible(
    t: Topology, actions: seq<Action>, s: State, u: Topology, others: seq<Action>, v: State, p: nat, k: nat)
    requires ValidTopology(t) && ValidTopology(u) && SameButCopies(t, u) && t.channel == u.channel
    requires Reaches(t, actions, s) && Reaches(u, others, v) && Shaped(t, s) && Shaped(u, v)
    requires p < |t.ports| && t.ports[p].row >= 0
    requires k < |s.rx[p].wire| && k < |v.rx[p].wire|
    requires ValidPort(t, p) ==> SameInput(t, s, u, v, t.ports[p].node, k + 1)
    ensures s.rx[p].wire[k] == v.rx[p].wire[k]
  {
    var n := t.ports[p].node;
    RepliesAreRows(t, actions, s, p, k);
    RepliesAreRows(u, others, v, p, k);
    ReachableInv(t, actions, s);
    ReachableInv(u, others, v);
    SameLog(t, s, u, v, n, k + 1);
    assert s.nodes[n].log[k] == s.nodes[n].log[..k + 1][k];
    assert v.nodes[n].log[k] == v.nodes[n].log[..k + 1][k];
  }
}
