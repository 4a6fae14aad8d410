/** Every step of every worker keeps the safety invariant. */
module RelaySteps {
  import opened Options
  import opened Complex
  import opened RingModel
  import opened Relay
  import opened RelaySafety

  // ------------------------------------------------------------------------
  // What a step does not touch stays right
  // ------------------------------------------------------------------------

  /** Same ring but for samples released at its front. */
  ghost predicate Drained(a: Ring, b: Ring)
  {
    b.buf == a.buf && b.next == a.next && b.size <= a.size
  }

  lemma {:induction false} WindowExtends(w: seq<IqSample>, a: TxSide, b: TxSide, start: nat)
    requires Extends(a, b) && WindowIs(w, a.stream, start)
    ensures WindowIs(w, b.stream, start)
  {
    forall i | 0 <= i < |w| ensures w[i] == b.stream[start + i] {
      assert b.stream[start + i] == a.stream[start + i];
    }
  }

  lemma {:induction false} HeldExtends(h: Held, a: TxSide, b: TxSide, cursor: nat, count: nat)
    requires |a.ring.buf| > 0 && Extends(a, b) && HeldOk(h, a, cursor, count)
    ensures HeldOk(h, b, cursor, count)
  {
    if h.Copied? {
      WindowExtends(h.samples, a, b, cursor);
    }
  }

  lemma {:induction false} LaneKept(t: Topology, s: State, s': State, n: nat, j: nat)
    requires ValidTopology(t) && Shaped(t, s) && Shaped(t, s') && n < |t.nodes| && j < |t.nodes[n].lanes|
    requires LaneOk(t, s, n, j)
    requires s'.nodes[n] == s.nodes[n].(gen := s'.nodes[n].gen)
    requires ValidNode(t, n) ==>
      var src := t.nodes[n].lanes[j].src;
      Extends(s.tx[src], s'.tx[src]) && s'.tx[src].ring.Earliest() <= s.nodes[n].cursors[j]
    ensures LaneOk(t, s', n, j)
  {
    assert ValidNode(t, n);
    var src := t.nodes[n].lanes[j].src;
    var x := s.nodes[n];
    if (x.pc.ReadLane? || x.pc.ReserveRow? || x.pc.ShapeLane?) && j < |x.windows| {
      HeldExtends(x.windows[j], s.tx[src], s'.tx[src], x.cursors[j], x.pc.count);
    }
  }

  lemma {:induction false} RowKept(t: Topology, s: State, s': State, n: nat, r: nat)
    requires ValidTopology(t) && Shaped(t, s) && Shaped(t, s') && n < |t.nodes| && r < |t.nodes[n].rows|
    requires RowOk(t, s, n, r)
    requires s'.nodes[n] == s.nodes[n].(gen := s'.nodes[n].gen)
    requires ValidNode(t, n) ==>
      Drained(s.rx[t.nodes[n].rows[r]].ring, s'.rx[t.nodes[n].rows[r]].ring)
    ensures RowOk(t, s', n, r)
  {
    assert ValidNode(t, n);
  }

  lemma {:induction false} SlotKept(t: Topology, s: State, s': State, n: nat, k: nat)
    requires ValidTopology(t) && Shaped(t, s) && Shaped(t, s') && n < |t.nodes| && k < |s.nodes[n].log|
    requires SlotOk(t, s, n, k)
    requires s'.nodes[n].log == s.nodes[n].log
    requires forall p :: 0 <= p < |t.ports| ==> Extends(s.tx[p], s'.tx[p])
    ensures SlotOk(t, s', n, k)
  {
    assert ValidNode(t, n);
    var slot := s.nodes[n].log[k];
    forall j | 0 <= j < |t.nodes[n].lanes|
      ensures WindowIs(slot.windows[j], s'.tx[t.nodes[n].lanes[j].src].stream, slot.start)
    {
      var src := t.nodes[n].lanes[j].src;
      WindowExtends(slot.windows[j], s.tx[src], s'.tx[src], slot.start);
    }
  }

  /** A node whose own fields are unchanged, whose sources only grew and kept
      what its cursors still need, and whose rows were at most drained. */
  lemma {:induction false} NodeKept(t: Topology, s: State, s': State, n: nat)
    requires ValidTopology(t) && Shaped(t, s) && Shaped(t, s') && n < |t.nodes|
    requires NodeOk(t, s, n)
    requires s'.nodes[n] == s.nodes[n].(gen := s'.nodes[n].gen)
    requires forall p :: 0 <= p < |t.ports| ==> Extends(s.tx[p], s'.tx[p])
    requires ValidNode(t, n) ==>
      (forall j :: 0 <= j < |t.nodes[n].lanes| ==>
        s'.tx[t.nodes[n].lanes[j].src].ring.Earliest() <= s.nodes[n].cursors[j]) &&
      (forall r :: 0 <= r < |t.nodes[n].rows| ==>
        Drained(s.rx[t.nodes[n].rows[r]].ring, s'.rx[t.nodes[n].rows[r]].ring))
    ensures NodeOk(t, s', n)
  {
    assert ValidNode(t, n);
    forall j | 0 <= j < |t.nodes[n].lanes| ensures LaneOk(t, s', n, j) {
      LaneKept(t, s, s', n, j);
    }
    forall r | 0 <= r < |t.nodes[n].rows| ensures RowOk(t, s', n, r) {
      RowKept(t, s, s', n, r);
    }
    forall k | 0 <= k < |s'.nodes[n].log| ensures SlotOk(t, s', n, k) {
      SlotKept(t, s, s', n, k);
    }
  }

  lemma {:induction false} RxKept(t: Topology, s: State, s': State, p: nat)
    requires ValidTopology(t) && Shaped(t, s) && Shaped(t, s') && p < |t.ports| && RxOk(t, s, p)
    requires s'.rx[p] == s.rx[p].(gen := s'.rx[p].gen)
    requires t.ports[p].row >= 0 && ValidPort(t, p) ==>
      var n := t.ports[p].node;
      s'.nodes[n].log == s.nodes[n].log &&
      Published(s'.nodes[n], t.ports[p].row) == Published(s.nodes[n], t.ports[p].row)
    ensures RxOk(t, s', p)
  {
    assert ValidPort(t, p);
  }

  lemma {:induction false} TxKept(t: Topology, s: State, s': State, p: nat)
    requires Shaped(t, s) && Shaped(t, s') && p < |t.ports| && TxOk(t, s, p)
    requires s'.tx[p] == s.tx[p].(gen := s'.tx[p].gen)
    requires forall n, j :: 0 <= n < |t.nodes| && 0 <= j < |t.nodes[n].lanes| ==>
      s.nodes[n].cursors[j] <= s'.nodes[n].cursors[j]
    ensures TxOk(t, s', p)
  {
    assert TxLocal(t.ports[p], s'.tx[p]);
    if s'.tx[p].pc.PullScan? {
      forall i {:trigger LinkFrom(t, i, p)} | 0 <= i < s'.tx[p].pc.i && LinkFrom(t, i, p)
        ensures s'.tx[p].pc.hasOutgoing && s'.tx[p].pc.minCursor <= s'.nodes[t.links[i].node].cursors[t.links[i].lane]
      {
      }
    }
  }

  // ------------------------------------------------------------------------
  // Puller steps
  // ------------------------------------------------------------------------

  /** A puller step that leaves ring and stream alone keeps everything but its
      own TxOk. */
  lemma {:induction false} PullerTurn(t: Topology, s: State, s': State, p: nat)
    requires ValidTopology(t) && Inv(t, s) && p < |t.ports| && Shaped(t, s')
    requires s'.tx == s.tx[p := s'.tx[p]] && s'.rx == s.rx
    requires |s'.nodes| == |s.nodes|
    requires forall n :: 0 <= n < |t.nodes| ==> s'.nodes[n] == s.nodes[n].(gen := s'.nodes[n].gen)
    requires Extends(s.tx[p], s'.tx[p])
    requires forall n, j :: 0 <= n < |t.nodes| && 0 <= j < |t.nodes[n].lanes| && t.nodes[n].lanes[j].src == p ==>
      s'.tx[p].ring.Earliest() <= s.nodes[n].cursors[j]
    requires TxOk(t, s', p)
    ensures Inv(t, s')
  {
    forall q | 0 <= q < |t.ports| ensures TxOk(t, s', q) && RxOk(t, s', q) {
      if q != p {
        TxKept(t, s, s', q);
      }
      assert ValidPort(t, q);
      RxKept(t, s, s', q);
    }
    forall n | 0 <= n < |t.nodes| ensures NodeOk(t, s', n) {
      assert ValidNode(t, n);
      assert NodeOk(t, s, n);
      forall j | 0 <= j < |t.nodes[n].lanes|
        ensures s'.tx[t.nodes[n].lanes[j].src].ring.Earliest() <= s.nodes[n].cursors[j]
      {
        assert LaneOk(t, s, n, j);
      }
      NodeKept(t, s, s', n);
    }
  }

  /** What Release keeps back is what no consumer has passed. */
  lemma {:induction false} ReleaseBound(t: Topology, s: State, p: nat, n: nat, j: nat)
    requires ValidTopology(t) && Inv(t, s) && p < |t.ports|
    requires s.tx[p].pc.PullScan? && s.tx[p].pc.i >= |t.links|
    requires n < |t.nodes| && j < |t.nodes[n].lanes| && t.nodes[n].lanes[j].src == p
    ensures Represents(Release(s.tx[p]), s.tx[p].stream)
    ensures Release(s.tx[p]).Earliest() <= s.nodes[n].cursors[j]
  {
    var x := s.tx[p];
    assert TxOk(t, s, p);
    assert LaneOk(t, s, n, j) by { assert NodeOk(t, s, n); }
    assert LinkRef(n, j) in t.links;
    var i :| 0 <= i < |t.links| && t.links[i] == LinkRef(n, j);
    assert LinkFrom(t, i, p);
    DiscardKeepsStream(x.ring, x.stream, x.pc.minCursor);
  }

  /** One link examined: the bound it leaves is still below every cursor seen. */
  lemma {:induction false} ScannedLink(t: Topology, s: State, p: nat)
    requires ValidTopology(t) && Inv(t, s) && p < |t.ports| && PullerCanStep(t, s, p)
    requires s.tx[p].pc.PullScan? && s.tx[p].pc.i < |t.links|
    ensures TxOk(t, PullerStep(t, s, p), p)
  {
    var s' := PullerStep(t, s, p);
    var x := s.tx[p];
    var link := t.links[x.pc.i];
    assert TxOk(t, s, p);
    assert NodeOk(t, s, link.node);
    assert LaneOk(t, s, link.node, link.lane);
    assert TxLocal(t.ports[p], s'.tx[p]);
    forall i {:trigger LinkFrom(t, i, p)} | 0 <= i < s'.tx[p].pc.i && LinkFrom(t, i, p)
      ensures s'.tx[p].pc.hasOutgoing && s'.tx[p].pc.minCursor <= s'.nodes[t.links[i].node].cursors[t.links[i].lane]
    {
      if i < x.pc.i {
        ScannedBefore(t, s, p, i);
      }
    }
  }

  lemma {:induction false} ScannedBefore(t: Topology, s: State, p: nat, i: nat)
    requires ValidTopology(t) && Inv(t, s) && p < |t.ports| && s.tx[p].pc.PullScan?
    requires i < s.tx[p].pc.i && i < |t.links| && LinkFrom(t, i, p)
    ensures s.tx[p].pc.hasOutgoing && s.tx[p].pc.minCursor <= s.nodes[t.links[i].node].cursors[t.links[i].lane]
    ensures First(s.tx[p].ring) <= s.nodes[t.links[i].node].cursors[t.links[i].lane]
  {
    assert TxOk(t, s, p);
    assert NodeOk(t, s, t.links[i].node);
    assert LaneOk(t, s, t.links[i].node, t.links[i].lane);
  }

  lemma {:induction false} ScanStepKeeps(t: Topology, s: State, p: nat)
    requires ValidTopology(t) && Inv(t, s) && p < |t.ports| && PullerCanStep(t, s, p)
    requires s.tx[p].pc.PullScan? && s.tx[p].pc.i < |t.links|
    ensures Inv(t, PullerStep(t, s, p))
  {
    ScannedLink(t, s, p);
    QuietPullerKeeps(t, s, PullerStep(t, s, p), p);
  }

  lemma {:induction false} ScanEndKeeps(t: Topology, s: State, p: nat)
    requires ValidTopology(t) && Inv(t, s) && p < |t.ports| && PullerCanStep(t, s, p)
    requires s.tx[p].pc.PullScan? && s.tx[p].pc.i >= |t.links|
    ensures Inv(t, PullerStep(t, s, p))
  {
    var s' := PullerStep(t, s, p);
    var x := s.tx[p];
    assert TxOk(t, s, p);
    DiscardKeepsStream(x.ring, x.stream, x.pc.minCursor);
    DiscardKeepsStream(x.ring, x.stream, x.ring.next);
    assert TxOk(t, s', p);
    forall n, j | 0 <= n < |t.nodes| && 0 <= j < |t.nodes[n].lanes| && t.nodes[n].lanes[j].src == p
      ensures s'.tx[p].ring.Earliest() <= s.nodes[n].cursors[j]
    {
      ReleaseBound(t, s, p, n, j);
    }
    PullerTurn(t, s, s', p);
  }

  lemma {:induction false} LandKeeps(t: Topology, s: State, p: nat)
    requires ValidTopology(t) && Inv(t, s) && p < |t.ports| && PullerCanStep(t, s, p)
    requires s.tx[p].pc.PullLand?
    ensures Inv(t, PullerStep(t, s, p))
  {
    var s' := PullerStep(t, s, p);
    var x := s.tx[p];
    assert TxOk(t, s, p);
    if CanPush(x.ring, |x.pending|) {
      PushAppends(x.ring, x.stream, x.pending);
    }
    assert TxOk(t, s', p);
    forall n, j | 0 <= n < |t.nodes| && 0 <= j < |t.nodes[n].lanes| && t.nodes[n].lanes[j].src == p
      ensures s'.tx[p].ring.Earliest() <= s.nodes[n].cursors[j]
    {
      assert LaneOk(t, s, n, j) by { assert NodeOk(t, s, n); }
    }
    PullerTurn(t, s, s', p);
  }

  /** Every other puller step, and both answers of the radio, touch neither the
      ring nor the stream. */
  lemma {:induction false} QuietPullerKeeps(t: Topology, s: State, s': State, p: nat)
    requires ValidTopology(t) && Inv(t, s) && p < |t.ports| && Shaped(t, s')
    requires s'.tx == s.tx[p := s'.tx[p]] && s'.rx == s.rx && |s'.nodes| == |s.nodes|
    requires forall n :: 0 <= n < |t.nodes| ==> s'.nodes[n] == s.nodes[n].(gen := s'.nodes[n].gen)
    requires s'.tx[p].ring == s.tx[p].ring && s'.tx[p].stream == s.tx[p].stream
    requires TxOk(t, s', p)
    ensures Inv(t, s')
  {
    forall n, j | 0 <= n < |t.nodes| && 0 <= j < |t.nodes[n].lanes| && t.nodes[n].lanes[j].src == p
      ensures s'.tx[p].ring.Earliest() <= s.nodes[n].cursors[j]
    {
      assert LaneOk(t, s, n, j) by { assert NodeOk(t, s, n); }
    }
    PullerTurn(t, s, s', p);
  }

  lemma {:induction false} PullerKeeps(t: Topology, s: State, p: nat)
    requires ValidTopology(t) && Inv(t, s) && p < |t.ports| && PullerCanStep(t, s, p)
    ensures Inv(t, PullerStep(t, s, p))
  {
    var x := s.tx[p];
    var s' := PullerStep(t, s, p);
    if x.pc.PullScan? {
      if x.pc.i < |t.links| {
        ScanStepKeeps(t, s, p);
      } else {
        ScanEndKeeps(t, s, p);
      }
    } else if x.pc.PullLand? {
      LandKeeps(t, s, p);
    } else {
      assert TxOk(t, s, p);
      assert TxOk(t, s', p);
      QuietPullerKeeps(t, s, s', p);
    }
  }

  lemma {:induction false} RadioReplyKeeps(t: Topology, s: State, p: nat, message: Option<seq<IqSample>>)
    requires ValidTopology(t) && Inv(t, s) && p < |t.ports| && s.tx[p].pc.PullReply?
    ensures Inv(t, RadioReply(t, s, p, message))
  {
    var s' := RadioReply(t, s, p, message);
    assert ValidPort(t, p);
    assert TxOk(t, s, p);
    assert TxOk(t, s', p);
    QuietPullerKeeps(t, s, s', p);
  }

  // ------------------------------------------------------------------------
  // REP worker steps
  // ------------------------------------------------------------------------

  /** A REP step keeps every other entity: its ring is at most drained. */
  lemma {:induction false} RepTurn(t: Topology, s: State, s': State, p: nat)
    requires ValidTopology(t) && Inv(t, s) && p < |t.ports| && Shaped(t, s')
    requires s'.rx == s.rx[p := s'.rx[p]] && s'.tx == s.tx && |s'.nodes| == |s.nodes|
    requires forall n :: 0 <= n < |t.nodes| ==> s'.nodes[n] == s.nodes[n].(gen := s'.nodes[n].gen)
    requires Drained(s.rx[p].ring, s'.rx[p].ring)
    requires RxOk(t, s', p)
    ensures Inv(t, s')
  {
    forall q | 0 <= q < |t.ports| ensures TxOk(t, s', q) && RxOk(t, s', q) {
      assert ValidPort(t, q);
      TxKept(t, s, s', q);
      if q != p {
        RxKept(t, s, s', q);
      }
    }
    forall n | 0 <= n < |t.nodes| ensures NodeOk(t, s', n) {
      assert ValidNode(t, n);
      assert NodeOk(t, s, n);
      forall j | 0 <= j < |t.nodes[n].lanes|
        ensures s'.tx[t.nodes[n].lanes[j].src].ring.Earliest() <= s.nodes[n].cursors[j]
      {
        assert LaneOk(t, s, n, j);
      }
      NodeKept(t, s, s', n);
    }
  }

  /** Slot k starts where slot k - 1 ended and its row r is as long as it is. */
  ghost predicate Tile(log: seq<Slot>, r: nat, k: nat)
    requires k < |log|
  {
    && log[k].count > 0
    && log[k].start == (if k == 0 then 0 else log[k - 1].start + log[k - 1].count)
    && r < |log[k].rows| && |log[k].rows[r]| == log[k].count
  }

  ghost predicate Tiled(log: seq<Slot>, r: nat)
  {
    forall k :: 0 <= k < |log| ==> Tile(log, r, k)
  }

  lemma {:induction false} LogIsTiled(t: Topology, s: State, n: nat, r: nat)
    requires ValidTopology(t) && Shaped(t, s) && n < |t.nodes| && NodeOk(t, s, n) && r < |t.nodes[n].rows|
    ensures Tiled(s.nodes[n].log, r)
  {
    forall k | 0 <= k < |s.nodes[n].log|
      ensures Tile(s.nodes[n].log, r, k)
    {
      assert SlotOk(t, s, n, k);
    }
  }

  /** Slots start one after the other. */
  lemma {:induction false} StartsGrow(log: seq<Slot>, r: nat, a: nat, b: nat)
    requires Tiled(log, r) && a <= b <= |log|
    ensures StartOf(log, a) <= StartOf(log, b)
    ensures a < b ==> StartOf(log, a + 1) == log[a].start + log[a].count <= StartOf(log, b)
    decreases b - a
  {
    if a < b {
      assert Tile(log, r, a);
      if a + 1 < |log| {
        assert Tile(log, r, a + 1);
      }
      StartsGrow(log, r, a + 1, b);
    }
  }

  /** The first queued window: its samples are that row of its slot, it is
      buffered whole, and the next window starts where it ends. */
  lemma {:induction false} FrontWindow(port: Port, y: RxSide, log: seq<Slot>, published: int, r: nat)
    requires RxLocal(port, y, log, published, r) && Tiled(log, r) && |y.slots| > 0
    ensures var k := Popped(y);
      && 0 <= k < |log| && r < |log[k].rows|
      && y.slots[0] == log[k].count == |log[k].rows[r]| && y.slots[0] > 0
      && 0 <= y.cursor && y.cursor == y.ring.Earliest() && y.cursor + y.slots[0] <= y.ring.next == |y.stream|
      && StartOf(log, k + 1) == y.cursor + y.slots[0]
      && y.stream[y.cursor..y.cursor + y.slots[0]] == log[k].rows[r]
  {
    var k := Popped(y);
    assert Tile(log, r, k);
    StartsGrow(log, r, k, published);
    assert WindowIs(log[k].rows[r], y.stream, log[k].start);
    assert |y.stream[y.cursor..y.cursor + y.slots[0]]| == |log[k].rows[r]|;
  }

  /** Taking the first window off the queue and releasing its samples. */
  lemma {:induction false} DropFront(port: Port, y: RxSide, log: seq<Slot>, published: int, r: nat, y': RxSide)
    requires RxLocal(port, y, log, published, r) && Tiled(log, r) && |y.slots| > 0
    requires y'.ring == DiscardBefore(y.ring, y.cursor + y.slots[0]) && y'.cursor == y.cursor + y.slots[0]
    requires y'.slots == y.slots[1..] && y'.stream == y.stream && y'.wire == y.wire
    requires Popped(y') == Popped(y) + 1
    requires y'.pc.RepWakeNode? || y'.pc.RepNotify?
    requires y'.pc.RepWakeNode? ==>
      0 <= Popped(y) < |log| && r < |log[Popped(y)].rows| && y'.pc.reply == log[Popped(y)].rows[r]
    ensures RxLocal(port, y', log, published, r)
    ensures Drained(y.ring, y'.ring)
  {
    FrontWindow(port, y, log, published, r);
    DiscardKeepsStream(y.ring, y.stream, y.cursor + y.slots[0]);
    assert RxRing(port, y');
    assert RxQueue(y', log, published, r);
  }

  lemma {:induction false} PopLocal(port: Port, y: RxSide, log: seq<Slot>, published: int, r: nat)
    requires RxLocal(port, y, log, published, r) && Tiled(log, r) && |y.slots| > 0 && y.pc.RepPop?
    ensures CanRead(y.ring, y.cursor, y.slots[0])
    ensures Read(y.ring, y.cursor, y.slots[0]) == y.stream[y.cursor..y.cursor + y.slots[0]]
    ensures var view := View(y.ring, y.cursor, y.slots[0]);
      view.Some? ==> RxLocal(port, y.(pc := RepSend(InRing(view.value), y.slots[0])), log, published, r)
  {
    FrontWindow(port, y, log, published, r);
    ViewIsStream(y.ring, y.stream, y.cursor, y.slots[0]);
    ReadIsStream(y.ring, y.stream, y.cursor, y.slots[0]);
  }

  lemma {:induction false} PoppedLocal(t: Topology, s: State, p: nat, log: seq<Slot>, published: int)
    requires Shaped(t, s) && p < |t.ports| && RepCanStep(t, s, p) && s.rx[p].pc.RepPop?
    requires RxLocal(t.ports[p], s.rx[p], log, published, t.ports[p].row) && Tiled(log, t.ports[p].row)
    ensures RxLocal(t.ports[p], RepStep(t, s, p).rx[p], log, published, t.ports[p].row)
    ensures Drained(s.rx[p].ring, RepStep(t, s, p).rx[p].ring)
  {
    var port, y, y' := t.ports[p], s.rx[p], RepStep(t, s, p).rx[p];
    if y.slots != [] {
      PopLocal(port, y, log, published, port.row);
      FrontWindow(port, y, log, published, port.row);
      if y'.pc.RepWakeNode? {
        DropFront(port, y, log, published, port.row, y');
      }
    }
  }

  lemma {:induction false} RepPopKeeps(t: Topology, s: State, p: nat)
    requires ValidTopology(t) && Inv(t, s) && p < |t.ports| && RepCanStep(t, s, p) && s.rx[p].pc.RepPop?
    ensures Inv(t, RepStep(t, s, p))
  {
    var port := t.ports[p];
    assert ValidPort(t, p);
    assert RxOk(t, s, p);
    var x := s.nodes[port.node];
    LogIsTiled(t, s, port.node, port.row);
    PoppedLocal(t, s, p, x.log, Published(x, port.row));
    RepTurn(t, s, RepStep(t, s, p), p);
  }

  lemma {:induction false} SendLocal(port: Port, y: RxSide, log: seq<Slot>, published: int, r: nat, sent: seq<IqSample>, pc: RepPc)
    requires RxLocal(port, y, log, published, r) && Tiled(log, r) && y.pc.RepSend?
    requires match y.pc.held
      case Copied(samples) => sent == samples && pc == RepRequest
      case InRing(at) => sent == Cells(y.ring, at, y.pc.take) && pc == RepRelease(y.pc.take)
    ensures RxLocal(port, y.(wire := y.wire + [sent], pc := pc), log, published, r)
  {
    if y.pc.held.InRing? {
      FrontWindow(port, y, log, published, r);
      WindowInPlace(y.ring, y.stream, y.cursor, y.pc.take);
    }
  }

  lemma {:induction false} RepSendKeeps(t: Topology, s: State, p: nat)
    requires ValidTopology(t) && Inv(t, s) && p < |t.ports| && RepCanStep(t, s, p) && s.rx[p].pc.RepSend?
    ensures Inv(t, RepStep(t, s, p))
  {
    var y := s.rx[p];
    var s' := RepStep(t, s, p);
    var port := t.ports[p];
    assert ValidPort(t, p);
    assert RxOk(t, s, p);
    var x := s.nodes[port.node];
    LogIsTiled(t, s, port.node, port.row);
    var sent := if y.pc.held.Copied? then y.pc.held.samples else Cells(y.ring, y.pc.held.at, y.pc.take);
    SendLocal(port, y, x.log, Published(x, port.row), port.row, sent, s'.rx[p].pc);
    RepTurn(t, s, s', p);
  }

  lemma {:induction false} RepReleaseKeeps(t: Topology, s: State, p: nat)
    requires ValidTopology(t) && Inv(t, s) && p < |t.ports| && RepCanStep(t, s, p) && s.rx[p].pc.RepRelease?
    ensures Inv(t, RepStep(t, s, p))
  {
    var y := s.rx[p];
    var s' := RepStep(t, s, p);
    var port := t.ports[p];
    assert ValidPort(t, p);
    assert RxOk(t, s, p);
    var x := s.nodes[port.node];
    LogIsTiled(t, s, port.node, port.row);
    DropFront(port, y, x.log, Published(x, port.row), port.row, s'.rx[p]);
    RepTurn(t, s, s', p);
  }

  /** A new program counter that says the same about the queue. */
  lemma {:induction false} QuietLocal(port: Port, y: RxSide, log: seq<Slot>, published: int, r: nat, pc: RepPc)
    requires RxLocal(port, y, log, published, r)
    requires Popped(y.(pc := pc)) == Popped(y) && RxPc(y.(pc := pc), log, r)
    ensures RxLocal(port, y.(pc := pc), log, published, r)
  {
  }

  lemma {:induction false} QuietRx(t: Topology, s: State, p: nat)
    requires ValidTopology(t) && Inv(t, s) && p < |t.ports| && RepCanStep(t, s, p)
    requires !s.rx[p].pc.RepPop? && !s.rx[p].pc.RepSend? && !s.rx[p].pc.RepRelease?
    ensures RxOk(t, RepStep(t, s, p), p)
  {
    hide Feeds, NodeOk, TxOk;
    var port, y, s' := t.ports[p], s.rx[p], RepStep(t, s, p);
    assert ValidPort(t, p);
    assert RxOk(t, s, p);
    var x := s.nodes[port.node];
    assert s'.nodes[port.node] == x.(gen := s'.nodes[port.node].gen) && s'.rx[p] == y.(pc := s'.rx[p].pc);
    assert Popped(y.(pc := s'.rx[p].pc)) == Popped(y) && RxPc(y.(pc := s'.rx[p].pc), x.log, port.row);
    hide Inv, RxRing, RxQueue, RxSent, RxPc, WiredPort, RepStep;
    QuietLocal(port, y, x.log, Published(x, port.row), port.row, s'.rx[p].pc);
  }

  /** Taking a ticket, going to sleep, waking up and waking the node. */
  lemma {:induction false} QuietRepKeeps(t: Topology, s: State, p: nat)
    requires ValidTopology(t) && Inv(t, s) && p < |t.ports| && RepCanStep(t, s, p)
    requires !s.rx[p].pc.RepPop? && !s.rx[p].pc.RepSend? && !s.rx[p].pc.RepRelease?
    ensures Inv(t, RepStep(t, s, p))
  {
    QuietRx(t, s, p);
    hide Feeds, NodeOk, TxOk, RxOk, Inv, WiredPort, ValidTopology;
    RepTurn(t, s, RepStep(t, s, p), p);
  }

  lemma {:induction false} RepKeeps(t: Topology, s: State, p: nat)
    requires ValidTopology(t) && Inv(t, s) && p < |t.ports| && RepCanStep(t, s, p)
    ensures Inv(t, RepStep(t, s, p))
  {
    var pc := s.rx[p].pc;
    if pc.RepPop? {
      RepPopKeeps(t, s, p);
    } else if pc.RepSend? {
      RepSendKeeps(t, s, p);
    } else if pc.RepRelease? {
      RepReleaseKeeps(t, s, p);
    } else {
      QuietRepKeeps(t, s, p);
    }
  }

  lemma {:induction false} RadioRequestKeeps(t: Topology, s: State, p: nat)
    requires ValidTopology(t) && Inv(t, s) && p < |t.ports| && t.ports[p].row >= 0 && s.rx[p].pc.RepRequest?
    ensures Inv(t, SetRx(s, p, s.rx[p].(pc := RepTop)))
  {
    var s' := SetRx(s, p, s.rx[p].(pc := RepTop));
    assert ValidPort(t, p);
    assert RxOk(t, s, p);
    assert RxOk(t, s', p);
    RepTurn(t, s, s', p);
  }
}
