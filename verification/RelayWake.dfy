/** No lost wake: with the 5 ms timeout of RingProgress::wait removed, a worker
    that sleeps on a current ticket either still has nothing to do, or some
    worker has already changed its ring and has yet to notify it. */
module RelayWake {
  import opened RingModel
  import opened Relay
  import opened RelaySafety
  import opened RelayProducer

  // ------------------------------------------------------------------------
  // Between a ring change and its notify
  // ------------------------------------------------------------------------

  /** The REP worker has released samples and has yet to wake its node. */
  ghost predicate RepOwes(y: RxSide)
  {
    y.pc.RepWakeNode? || y.pc.RepNotify?
  }

  /** The puller has pushed and has yet to wake node n. */
  ghost predicate PullerOwes(x: TxSide, n: nat)
  {
    x.pc.PullNotify? && n in x.pc.todo
  }

  /** The producer has advanced a lane of port p and has yet to wake its puller. */
  ghost predicate ProducerOwesPuller(node: Node, x: Producer, p: nat)
  {
    match x.pc
    case AdvanceLane(k, _) => exists j :: 0 <= j < k && j < |node.lanes| && node.lanes[j].src == p
    case NotifySources(todo, _) => p in todo
    case _ => false
  }

  /** The producer has published row r on port p and has yet to wake its REP worker. */
  ghost predicate ProducerOwesRep(x: Producer, p: nat, r: nat)
  {
    match x.pc
    case PublishRow(k, _) => r < k
    case NotifyRows(todo) => p in todo
    case _ => false
  }

  // ------------------------------------------------------------------------
  // The wake invariant
  // ------------------------------------------------------------------------

  ghost predicate NoRoom(t: Topology, s: State, n: nat, r: nat)
    requires ValidTopology(t) && Shaped(t, s) && n < |t.nodes| && r < |t.nodes[n].rows|
  {
    assert ValidNode(t, n);
    var p := t.nodes[n].rows[r];
    Headroom(t.ports[p], s.rx[p].ring) <= 0 || RepOwes(s.rx[p])
  }

  ghost predicate NoData(t: Topology, s: State, n: nat, j: nat)
    requires ValidTopology(t) && Shaped(t, s) && n < |t.nodes| && j < |t.nodes[n].lanes|
  {
    assert ValidNode(t, n);
    var src := t.nodes[n].lanes[j].src;
    s.nodes[n].cursors[j] >= |s.tx[src].stream| || PullerOwes(s.tx[src], n)
  }

  ghost predicate NodeWake(t: Topology, s: State, n: nat)
    requires ValidTopology(t) && Shaped(t, s) && n < |t.nodes|
  {
    var x := s.nodes[n];
    match x.pc
    case RoomCheck(ticket, k, room) =>
      ticket <= x.gen && (room == 0 && ticket == x.gen ==> exists r :: 0 <= r < k && r < |t.nodes[n].rows| && NoRoom(t, s, n, r))
    case RoomSleep(ticket) =>
      ticket <= x.gen && (ticket == x.gen ==> exists r :: 0 <= r < |t.nodes[n].rows| && NoRoom(t, s, n, r))
    case DataCheck(ticket, k, common, _) =>
      ticket <= x.gen && (common == 0 && ticket == x.gen ==> exists j :: 0 <= j < k && j < |t.nodes[n].lanes| && NoData(t, s, n, j))
    case DataSleep(ticket, _) =>
      ticket <= x.gen && (ticket == x.gen ==> exists j :: 0 <= j < |t.nodes[n].lanes| && NoData(t, s, n, j))
    case _ => true
  }

  /** Lane i of the link table keeps port p's samples from `bound` on, or its
      producer owes p a wake. */
  ghost predicate Holds(t: Topology, s: State, p: nat, i: nat, bound: int)
    requires Shaped(t, s) && i < |t.links|
  {
    && LinkFrom(t, i, p)
    && (s.nodes[t.links[i].node].cursors[t.links[i].lane] <= bound
        || ProducerOwesPuller(t.nodes[t.links[i].node], s.nodes[t.links[i].node], p))
  }

  ghost predicate Held(t: Topology, s: State, p: nat, bound: int)
    requires Shaped(t, s)
  {
    exists i :: 0 <= i < |t.links| && Holds(t, s, p, i, bound)
  }

  ghost predicate TxWake(t: Topology, s: State, p: nat)
    requires Shaped(t, s) && p < |t.ports|
  {
    var x := s.tx[p];
    match x.pc
    case PullScan(ticket, i, minCursor, hasConsumer, hasOutgoing) =>
      && ticket <= x.gen
      && (hasConsumer ==> hasOutgoing)
      && (hasOutgoing && !hasConsumer ==> minCursor <= x.ring.Earliest())
      && (minCursor < x.ring.next && ticket == x.gen ==> Held(t, s, p, minCursor))
    case PullLand(ticket) =>
      ticket <= x.gen && (ticket == x.gen ==> x.ring.size == 0 || Held(t, s, p, x.ring.Earliest()))
    case PullSleep(ticket) =>
      ticket <= x.gen && (ticket == x.gen ==> x.ring.size == 0 || Held(t, s, p, x.ring.Earliest()))
    case _ => true
  }

  ghost predicate RxWake(t: Topology, s: State, p: nat)
    requires ValidTopology(t) && Shaped(t, s) && p < |t.ports|
  {
    assert ValidPort(t, p);
    var y := s.rx[p];
    t.ports[p].row >= 0 ==>
      match y.pc
      case RepPop(ticket) => ticket <= y.gen
      case RepSleep(ticket) =>
        ticket <= y.gen &&
        (ticket == y.gen ==> y.slots == [] || ProducerOwesRep(s.nodes[t.ports[p].node], p, t.ports[p].row))
      case _ => true
  }

  ghost predicate WakeInv(t: Topology, s: State)
    requires ValidTopology(t) && Shaped(t, s)
  {
    && (forall p :: 0 <= p < |t.ports| ==> TxWake(t, s, p))
    && (forall n :: 0 <= n < |t.nodes| ==> NodeWake(t, s, n))
    && (forall p :: 0 <= p < |t.ports| ==> RxWake(t, s, p))
  }

  // ------------------------------------------------------------------------
  // What a step does not touch stays right
  // ------------------------------------------------------------------------

  lemma {:induction false} NodeWakeKept(t: Topology, s: State, s': State, n: nat)
    requires ValidTopology(t) && Shaped(t, s) && Shaped(t, s') && n < |t.nodes| && NodeWake(t, s, n)
    requires s'.nodes[n] == s.nodes[n].(gen := s'.nodes[n].gen) && s.nodes[n].gen <= s'.nodes[n].gen
    requires s.nodes[n].gen == s'.nodes[n].gen ==>
      && (forall r :: 0 <= r < |t.nodes[n].rows| && NoRoom(t, s, n, r) ==> NoRoom(t, s', n, r))
      && (forall j :: 0 <= j < |t.nodes[n].lanes| && NoData(t, s, n, j) ==> NoData(t, s', n, j))
    ensures NodeWake(t, s', n)
  {
  }

  lemma {:induction false} HeldKept(t: Topology, s: State, s': State, p: nat, bound: int)
    requires Shaped(t, s) && Shaped(t, s') && Held(t, s, p, bound)
    requires forall i, b: int :: 0 <= i < |t.links| && Holds(t, s, p, i, b) ==> Holds(t, s', p, i, b)
    ensures Held(t, s', p, bound)
  {
    var i :| 0 <= i < |t.links| && Holds(t, s, p, i, bound);
    assert Holds(t, s', p, i, bound);
  }

  lemma {:induction false} TxWakeKept(t: Topology, s: State, s': State, p: nat)
    requires Shaped(t, s) && Shaped(t, s') && p < |t.ports| && TxWake(t, s, p)
    requires s'.tx[p] == s.tx[p].(gen := s'.tx[p].gen) && s.tx[p].gen <= s'.tx[p].gen
    requires s.tx[p].gen == s'.tx[p].gen ==>
      forall i, b: int :: 0 <= i < |t.links| && Holds(t, s, p, i, b) ==> Holds(t, s', p, i, b)
    ensures TxWake(t, s', p)
  {
    var x := s.tx[p];
    if x.gen == s'.tx[p].gen {
      if x.pc.PullScan? && x.pc.minCursor < x.ring.next && x.pc.ticket == x.gen {
        HeldKept(t, s, s', p, x.pc.minCursor);
      }
      if (x.pc.PullLand? || x.pc.PullSleep?) && x.pc.ticket == x.gen && x.ring.size != 0 {
        HeldKept(t, s, s', p, x.ring.Earliest());
      }
    }
  }

  lemma {:induction false} RxWakeKept(t: Topology, s: State, s': State, p: nat)
    requires ValidTopology(t) && Shaped(t, s) && Shaped(t, s') && p < |t.ports| && RxWake(t, s, p)
    requires s'.rx[p] == s.rx[p].(gen := s'.rx[p].gen) && s.rx[p].gen <= s'.rx[p].gen
    requires s.rx[p].gen == s'.rx[p].gen && t.ports[p].row >= 0 && ValidPort(t, p) ==>
      ProducerOwesRep(s.nodes[t.ports[p].node], p, t.ports[p].row) ==>
      ProducerOwesRep(s'.nodes[t.ports[p].node], p, t.ports[p].row)
    ensures RxWake(t, s', p)
  {
    assert ValidPort(t, p);
  }

  // ------------------------------------------------------------------------
  // Puller steps
  // ------------------------------------------------------------------------

  /** A puller step changes no cursor and no producer's program counter. */
  lemma {:induction false} PullerWakesTurn(t: Topology, s: State, s': State, p: nat)
    requires ValidTopology(t) && Inv(t, s) && WakeInv(t, s) && p < |t.ports| && Shaped(t, s')
    requires s'.tx == s.tx[p := s'.tx[p]] && s'.rx == s.rx && |s'.nodes| == |s.nodes|
    requires forall n :: 0 <= n < |t.nodes| ==>
      s'.nodes[n] == s.nodes[n].(gen := s'.nodes[n].gen) && s.nodes[n].gen <= s'.nodes[n].gen
    requires TxWake(t, s', p)
    requires forall n :: 0 <= n < |t.nodes| && s'.nodes[n].gen == s.nodes[n].gen ==>
      (PullerOwes(s.tx[p], n) ==> PullerOwes(s'.tx[p], n))
    requires |s.tx[p].stream| <= |s'.tx[p].stream|
    requires |s.tx[p].stream| < |s'.tx[p].stream| ==>
      forall n :: 0 <= n < |t.nodes| && Feeds(t, p, n) ==> PullerOwes(s'.tx[p], n)
    ensures WakeInv(t, s')
  {
    forall q | 0 <= q < |t.ports| ensures TxWake(t, s', q) && RxWake(t, s', q) {
      assert ValidPort(t, q);
      if q != p {
        TxWakeKept(t, s, s', q);
      }
      RxWakeKept(t, s, s', q);
    }
    forall n | 0 <= n < |t.nodes| ensures NodeWake(t, s', n) {
      assert ValidNode(t, n);
      assert NodeWake(t, s, n);
      forall j | 0 <= j < |t.nodes[n].lanes| && NoData(t, s, n, j) && s'.nodes[n].gen == s.nodes[n].gen
        ensures NoData(t, s', n, j)
      {
        if t.nodes[n].lanes[j].src == p {
          assert Feeds(t, p, n);
        }
      }
      NodeWakeKept(t, s, s', n);
    }
  }

  /** Examining a link: a lower bound comes with the lane it was read from. */
  lemma {:induction false} ScanWakes(t: Topology, s: State, p: nat)
    requires ValidTopology(t) && Inv(t, s) && WakeInv(t, s) && p < |t.ports| && PullerCanStep(t, s, p)
    requires s.tx[p].pc.PullScan? && s.tx[p].pc.i < |t.links|
    ensures TxWake(t, PullerStep(t, s, p), p)
  {
    var s' := PullerStep(t, s, p);
    var x, x' := s.tx[p], s'.tx[p];
    var i := x.pc.i;
    assert TxOk(t, s, p);
    assert TxWake(t, s, p);
    if LinkFrom(t, i, p) {
      var link := t.links[i];
      assert NodeOk(t, s, link.node);
      assert LaneOk(t, s, link.node, link.lane);
      if x'.pc.minCursor == s.nodes[link.node].cursors[link.lane] || !s.nodes[link.node].inited[link.lane] {
        assert Holds(t, s', p, i, x'.pc.minCursor);
      } else if x'.pc.minCursor < x'.ring.next && x'.pc.ticket == x'.gen {
        HeldKept(t, s, s', p, x.pc.minCursor);
      }
    } else if x'.pc.minCursor < x'.ring.next && x'.pc.ticket == x'.gen {
      HeldKept(t, s, s', p, x.pc.minCursor);
    }
  }

  /** The end of the scan: what the release keeps is what some lane holds. */
  lemma {:induction false} ScanEndWakes(t: Topology, s: State, p: nat)
    requires ValidTopology(t) && Inv(t, s) && WakeInv(t, s) && p < |t.ports| && PullerCanStep(t, s, p)
    requires s.tx[p].pc.PullScan? && s.tx[p].pc.i >= |t.links|
    ensures TxWake(t, PullerStep(t, s, p), p)
  {
    var s' := PullerStep(t, s, p);
    var x, x' := s.tx[p], s'.tx[p];
    assert TxOk(t, s, p);
    assert TxWake(t, s, p);
    DiscardKeepsStream(x.ring, x.stream, x.pc.minCursor);
    DiscardKeepsStream(x.ring, x.stream, x.ring.next);
    assert x.pc.minCursor <= x'.ring.Earliest() || x'.ring.size == 0;
    if x.pc.ticket == x.gen && x'.ring.size != 0 {
      var i :| 0 <= i < |t.links| && Holds(t, s, p, i, x.pc.minCursor);
      assert Holds(t, s', p, i, x'.ring.Earliest());
    }
  }

  lemma {:induction false} PullerWakes(t: Topology, s: State, p: nat)
    requires ValidTopology(t) && Inv(t, s) && WakeInv(t, s) && p < |t.ports| && PullerCanStep(t, s, p)
    ensures WakeInv(t, PullerStep(t, s, p))
  {
    var s' := PullerStep(t, s, p);
    var x := s.tx[p];
    assert TxWake(t, s, p);
    assert ValidPort(t, p);
    if x.pc.PullScan? {
      if x.pc.i < |t.links| {
        ScanWakes(t, s, p);
      } else {
        ScanEndWakes(t, s, p);
      }
    } else if x.pc.PullLand? && x.pc.ticket == x.gen && x.ring.size != 0 {
      HeldKept(t, s, s', p, x.ring.Earliest());
    }
    PullerWakesTurn(t, s, s', p);
  }

  // ------------------------------------------------------------------------
  // Producer steps
  // ------------------------------------------------------------------------

  lemma {:induction false} HoldsKept(t: Topology, s: State, s': State, n: nat, q: nat, i: nat, b: int)
    requires ValidTopology(t) && Shaped(t, s) && Shaped(t, s') && n < |t.nodes| && i < |t.links|
    requires forall m :: 0 <= m < |t.nodes| && m != n ==> s'.nodes[m] == s.nodes[m]
    requires forall j :: 0 <= j < |t.nodes[n].lanes| ==>
      s'.nodes[n].cursors[j] == s.nodes[n].cursors[j]
      || ProducerOwesPuller(t.nodes[n], s'.nodes[n], t.nodes[n].lanes[j].src)
    requires ProducerOwesPuller(t.nodes[n], s.nodes[n], q) ==> ProducerOwesPuller(t.nodes[n], s'.nodes[n], q)
    requires Holds(t, s, q, i, b)
    ensures Holds(t, s', q, i, b)
  {
  }

  lemma {:induction false} ProducerWakesTurn(t: Topology, s: State, s': State, n: nat)
    requires ValidTopology(t) && Inv(t, s) && WakeInv(t, s) && n < |t.nodes| && Shaped(t, s')
    requires forall m :: 0 <= m < |t.nodes| && m != n ==> s'.nodes[m] == s.nodes[m]
    requires forall q :: 0 <= q < |t.ports| ==> s'.tx[q] == s.tx[q].(gen := s'.tx[q].gen) && s.tx[q].gen <= s'.tx[q].gen
    requires forall q :: 0 <= q < |t.ports| && !(t.ports[q].row >= 0 && t.ports[q].node == n) ==>
      s'.rx[q] == s.rx[q].(gen := s'.rx[q].gen) && s.rx[q].gen <= s'.rx[q].gen
    requires forall j :: 0 <= j < |t.nodes[n].lanes| ==>
      s'.nodes[n].cursors[j] == s.nodes[n].cursors[j]
      || ProducerOwesPuller(t.nodes[n], s'.nodes[n], t.nodes[n].lanes[j].src)
    requires forall q :: 0 <= q < |t.ports| && s.tx[q].gen == s'.tx[q].gen ==>
      ProducerOwesPuller(t.nodes[n], s.nodes[n], q) ==> ProducerOwesPuller(t.nodes[n], s'.nodes[n], q)
    requires NodeWake(t, s', n)
    requires forall q :: 0 <= q < |t.ports| && t.ports[q].row >= 0 && t.ports[q].node == n ==> RxWake(t, s', q)
    ensures WakeInv(t, s')
  {
    forall q | 0 <= q < |t.ports| ensures TxWake(t, s', q) && RxWake(t, s', q) {
      assert ValidPort(t, q);
      if s.tx[q].gen == s'.tx[q].gen {
        forall i, b: int | 0 <= i < |t.links| && Holds(t, s, q, i, b) ensures Holds(t, s', q, i, b) {
          HoldsKept(t, s, s', n, q, i, b);
        }
      }
      TxWakeKept(t, s, s', q);
      if !(t.ports[q].row >= 0 && t.ports[q].node == n) {
        RxWakeKept(t, s, s', q);
      }
    }
    forall m | 0 <= m < |t.nodes| ensures NodeWake(t, s', m) {
      if m != n {
        assert ValidNode(t, m);
        NodeWakeKept(t, s, s', m);
      }
    }
  }

  /** A producer that was in the middle of no wake and changes no cursor. */
  lemma {:induction false} QuietProducerWakes(t: Topology, s: State, s': State, n: nat)
    requires ValidTopology(t) && Inv(t, s) && WakeInv(t, s) && n < |t.nodes| && Shaped(t, s')
    requires forall m :: 0 <= m < |t.nodes| && m != n ==> s'.nodes[m] == s.nodes[m]
    requires s'.tx == s.tx && s'.nodes[n].cursors == s.nodes[n].cursors
    requires forall q :: 0 <= q < |t.ports| ==> s'.rx[q] == s.rx[q].(ring := s'.rx[q].ring)
    requires forall q :: 0 <= q < |t.ports| && !(t.ports[q].row >= 0 && t.ports[q].node == n) ==> s'.rx[q] == s.rx[q]
    requires !s.nodes[n].pc.AdvanceLane? && !s.nodes[n].pc.NotifySources? && !s.nodes[n].pc.PublishRow? && !s.nodes[n].pc.NotifyRows?
    requires NodeWake(t, s', n)
    ensures WakeInv(t, s')
  {
    forall q | 0 <= q < |t.ports| && t.ports[q].row >= 0 && t.ports[q].node == n ensures RxWake(t, s', q) {
      assert ValidPort(t, q);
      assert RxWake(t, s, q);
    }
    ProducerWakesTurn(t, s, s', n);
  }

  /** The room check finds a row without room, or keeps the one it had found. */
  lemma {:induction false} RoomWakes(t: Topology, s: State, n: nat)
    requires ValidTopology(t) && Inv(t, s) && WakeInv(t, s) && n < |t.nodes| && ProducerCanStep(t, s, n)
    requires s.nodes[n].pc.RoomTop? || s.nodes[n].pc.RoomCheck? || s.nodes[n].pc.RoomSleep?
    ensures WakeInv(t, ProducerStep(t, s, n))
  {
    var s' := ProducerStep(t, s, n);
    var x, x' := s.nodes[n], s'.nodes[n];
    assert ValidNode(t, n);
    assert NodeOk(t, s, n);
    assert NodeWake(t, s, n);
    if x.pc.RoomCheck? && x.pc.ticket == x.gen {
      if x.pc.room == 0 {
        var r :| 0 <= r < x.pc.r && r < |t.nodes[n].rows| && NoRoom(t, s, n, r);
        assert NoRoom(t, s', n, r);
      } else if x.pc.r < |t.nodes[n].rows| {
        assert RowOk(t, s, n, x.pc.r);
        assert Headroom(t.ports[t.nodes[n].rows[x.pc.r]], s.rx[t.nodes[n].rows[x.pc.r]].ring) <= 0 ==> NoRoom(t, s', n, x.pc.r);
      }
    }
    ValidBatch(t, n);
    QuietProducerWakes(t, s, s', n);
  }

  lemma {:induction false} ValidBatch(t: Topology, n: nat)
    requires ValidTopology(t) && n < |t.nodes|
    ensures t.nodes[n].batch >= 1
  {
    assert ValidNode(t, n);
  }

  lemma {:induction false} DataWakes(t: Topology, s: State, n: nat)
    requires ValidTopology(t) && Inv(t, s) && WakeInv(t, s) && n < |t.nodes| && ProducerCanStep(t, s, n)
    requires s.nodes[n].pc.DataTop? || s.nodes[n].pc.DataCheck? || s.nodes[n].pc.DataSleep?
    ensures WakeInv(t, ProducerStep(t, s, n))
  {
    var s' := ProducerStep(t, s, n);
    var x, x' := s.nodes[n], s'.nodes[n];
    assert ValidNode(t, n);
    assert NodeOk(t, s, n);
    assert NodeWake(t, s, n);
    if x.pc.DataCheck? {
      var k := x.pc.k;
      if k < |t.nodes[n].lanes| {
        assert LaneOk(t, s, n, k);
        assert TxOk(t, s, t.nodes[n].lanes[k].src);
        assert x'.cursors == x.cursors;
        assert s.nodes[n].cursors[k] >= |s.tx[t.nodes[n].lanes[k].src].stream| ==> NoData(t, s', n, k);
      }
      if x.pc.ticket == x.gen && x.pc.common == 0 {
        var j :| 0 <= j < k && j < |t.nodes[n].lanes| && NoData(t, s, n, j);
        assert NoData(t, s', n, j);
      }
    }
    ValidBatch(t, n);
    QuietProducerWakes(t, s, s', n);
  }

  lemma {:induction false} ChannelWakes(t: Topology, s: State, n: nat)
    requires ValidTopology(t) && Inv(t, s) && WakeInv(t, s) && n < |t.nodes| && ProducerCanStep(t, s, n)
    requires s.nodes[n].pc.AlignLane? || s.nodes[n].pc.ReadLane? || s.nodes[n].pc.ReserveRow? || s.nodes[n].pc.ShapeLane? || s.nodes[n].pc.FillRow?
    ensures WakeInv(t, ProducerStep(t, s, n))
  {
    var s' := ProducerStep(t, s, n);
    var x := s.nodes[n];
    assert ValidNode(t, n);
    assert NodeOk(t, s, n);
    if x.pc.AlignLane? && x.pc.k < |t.nodes[n].lanes| {
      assert LaneOk(t, s, n, x.pc.k);
    }
    assert s'.nodes[n].cursors == x.cursors;
    QuietProducerWakes(t, s, s', n);
  }

  /** Advancing a lane puts its source on the list of those to wake. */
  lemma {:induction false} AdvanceWakes(t: Topology, s: State, n: nat)
    requires ValidTopology(t) && Inv(t, s) && WakeInv(t, s) && n < |t.nodes| && ProducerCanStep(t, s, n)
    requires s.nodes[n].pc.AdvanceLane?
    ensures WakeInv(t, ProducerStep(t, s, n))
  {
    var s' := ProducerStep(t, s, n);
    var node, x, x' := t.nodes[n], s.nodes[n], s'.nodes[n];
    assert ValidNode(t, n);
    if x.pc.k < |node.lanes| {
      assert ProducerOwesPuller(node, x', node.lanes[x.pc.k].src);
    }
    forall q | ProducerOwesPuller(node, x, q) ensures ProducerOwesPuller(node, x', q) {
      var j :| 0 <= j < x.pc.k && j < |node.lanes| && node.lanes[j].src == q;
      assert Feeds(t, q, n);
    }
    forall q | 0 <= q < |t.ports| && t.ports[q].row >= 0 && t.ports[q].node == n ensures RxWake(t, s', q) {
      assert ValidPort(t, q);
      RxWakeKept(t, s, s', q);
    }
    ProducerWakesTurn(t, s, s', n);
  }

  lemma {:induction false} NotifySourcesWakes(t: Topology, s: State, n: nat)
    requires ValidTopology(t) && Inv(t, s) && WakeInv(t, s) && n < |t.nodes| && ProducerCanStep(t, s, n)
    requires s.nodes[n].pc.NotifySources?
    ensures WakeInv(t, ProducerStep(t, s, n))
  {
    var s' := ProducerStep(t, s, n);
    assert ValidNode(t, n);
    assert NodeOk(t, s, n);
    forall q | 0 <= q < |t.ports| && t.ports[q].row >= 0 && t.ports[q].node == n ensures RxWake(t, s', q) {
      assert ValidPort(t, q);
      RxWakeKept(t, s, s', q);
    }
    ProducerWakesTurn(t, s, s', n);
  }

  /** Publishing a row puts its REP worker on the list of those to wake. */
  lemma {:induction false} PublishWakes(t: Topology, s: State, n: nat)
    requires ValidTopology(t) && Inv(t, s) && WakeInv(t, s) && n < |t.nodes| && ProducerCanStep(t, s, n)
    requires s.nodes[n].pc.PublishRow?
    ensures WakeInv(t, ProducerStep(t, s, n))
  {
    var s' := ProducerStep(t, s, n);
    var x := s.nodes[n];
    assert ValidNode(t, n);
    assert NodeOk(t, s, n);
    if x.pc.r < |t.nodes[n].rows| {
      RowPublished(t, s, n);
    }
    hide Inv, Feeds, WiredPort, LaneOk, RowOk, SlotOk, Represents;
    forall q | 0 <= q < |t.ports| && t.ports[q].row >= 0 && t.ports[q].node == n ensures RxWake(t, s', q) {
      assert ValidPort(t, q);
      assert RxWake(t, s, q);
      if x.pc.r >= |t.nodes[n].rows| || q != t.nodes[n].rows[x.pc.r] {
        RxWakeKept(t, s, s', q);
      }
    }
    ProducerWakesTurn(t, s, s', n);
  }

  lemma {:induction false} NotifyRowsWakes(t: Topology, s: State, n: nat)
    requires ValidTopology(t) && Inv(t, s) && WakeInv(t, s) && n < |t.nodes| && ProducerCanStep(t, s, n)
    requires s.nodes[n].pc.NotifyRows?
    ensures WakeInv(t, ProducerStep(t, s, n))
  {
    var s' := ProducerStep(t, s, n);
    assert ValidNode(t, n);
    assert NodeOk(t, s, n);
    forall q | 0 <= q < |t.ports| && t.ports[q].row >= 0 && t.ports[q].node == n ensures RxWake(t, s', q) {
      assert ValidPort(t, q);
      RxWakeKept(t, s, s', q);
    }
    ProducerWakesTurn(t, s, s', n);
  }

  lemma {:induction false} ProducerWakes(t: Topology, s: State, n: nat)
    requires ValidTopology(t) && Inv(t, s) && WakeInv(t, s) && n < |t.nodes| && ProducerCanStep(t, s, n)
    ensures WakeInv(t, ProducerStep(t, s, n))
  {
    match s.nodes[n].pc {
      case RoomTop => RoomWakes(t, s, n);
      case RoomCheck(_, _, _) => RoomWakes(t, s, n);
      case RoomSleep(_) => RoomWakes(t, s, n);
      case DataTop(_) => DataWakes(t, s, n);
      case DataCheck(_, _, _, _) => DataWakes(t, s, n);
      case DataSleep(_, _) => DataWakes(t, s, n);
      case AdvanceLane(_, _) => AdvanceWakes(t, s, n);
      case NotifySources(_, _) => NotifySourcesWakes(t, s, n);
      case PublishRow(_, _) => PublishWakes(t, s, n);
      case NotifyRows(_) => NotifyRowsWakes(t, s, n);
      case _ => ChannelWakes(t, s, n);
    }
  }

  // ------------------------------------------------------------------------
  // REP worker steps
  // ------------------------------------------------------------------------

  lemma {:induction false} RepWakesTurn(t: Topology, s: State, s': State, p: nat)
    requires ValidTopology(t) && Inv(t, s) && WakeInv(t, s) && p < |t.ports| && t.ports[p].row >= 0 && Shaped(t, s')
    requires s'.rx == s.rx[p := s'.rx[p]] && s'.tx == s.tx && |s'.nodes| == |s.nodes|
    requires forall n :: 0 <= n < |t.nodes| ==>
      s'.nodes[n] == s.nodes[n].(gen := s'.nodes[n].gen) && s.nodes[n].gen <= s'.nodes[n].gen
    requires RxWake(t, s', p)
    requires ValidPort(t, p) && s'.nodes[t.ports[p].node].gen == s.nodes[t.ports[p].node].gen ==>
      && (RepOwes(s.rx[p]) ==> RepOwes(s'.rx[p]))
      && (s.rx[p].ring != s'.rx[p].ring ==> RepOwes(s'.rx[p]))
    ensures WakeInv(t, s')
  {
    forall q | 0 <= q < |t.ports| ensures TxWake(t, s', q) && RxWake(t, s', q) {
      assert ValidPort(t, q);
      TxWakeKept(t, s, s', q);
      if q != p {
        RxWakeKept(t, s, s', q);
      }
    }
    forall n | 0 <= n < |t.nodes| ensures NodeWake(t, s', n) {
      assert ValidNode(t, n);
      assert ValidPort(t, p);
      assert NodeWake(t, s, n);
      forall r | 0 <= r < |t.nodes[n].rows| && NoRoom(t, s, n, r) && s'.nodes[n].gen == s.nodes[n].gen
        ensures NoRoom(t, s', n, r)
      {
      }
      NodeWakeKept(t, s, s', n);
    }
  }

  lemma {:induction false} RepWakes(t: Topology, s: State, p: nat)
    requires ValidTopology(t) && Inv(t, s) && WakeInv(t, s) && p < |t.ports| && RepCanStep(t, s, p)
    ensures WakeInv(t, RepStep(t, s, p))
  {
    var s' := RepStep(t, s, p);
    assert ValidPort(t, p);
    assert RxOk(t, s, p);
    assert RxWake(t, s, p);
    RepWakesTurn(t, s, s', p);
  }

  // ------------------------------------------------------------------------
  // Every reachable state
  // ------------------------------------------------------------------------

  lemma {:induction false} NextWakes(t: Topology, s: State, a: Action)
    requires ValidTopology(t) && Inv(t, s) && WakeInv(t, s) && Enabled(t, s, a)
    ensures WakeInv(t, Next(t, s, a))
  {
    match a
    case APuller(p) => PullerWakes(t, s, p);
    case AProducer(n) => ProducerWakes(t, s, n);
    case ARep(p) => RepWakes(t, s, p);
    case ARadioReply(p, message) => PullerWakesTurn(t, s, Next(t, s, a), p);
    case ARadioRequest(p) => RepWakesTurn(t, s, Next(t, s, a), p);
  }

  lemma {:induction false} ReachableWakes(t: Topology, actions: seq<Action>, s: State)
    requires ValidTopology(t) && Reaches(t, actions, s)
    ensures Inv(t, s) && WakeInv(t, s)
    decreases |actions|
  {
    if actions == [] {
      InitInv(t);
    } else {
      var last := actions[|actions| - 1];
      var before: State :|
        Reaches(t, actions[..|actions| - 1], before) && Shaped(t, before) &&
        Enabled(t, before, last) && s == Next(t, before, last);
      ReachableWakes(t, actions[..|actions| - 1], before);
      NextKeeps(t, before, last);
      NextWakes(t, before, last);
    }
  }
}
