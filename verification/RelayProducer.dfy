/** Every producer step keeps the safety invariant, and with it every run. */
module RelayProducer {
  import opened Options
  import opened Complex
  import opened Modular
  import opened RingModel
  import opened Relay
  import opened RelaySafety
  import opened RelaySteps

  /** A step of producer n changes, beyond generations, only its own fields and
      the rings of its own rows. */
  lemma {:induction false} ProducerTurn(t: Topology, s: State, s': State, n: nat)
    requires ValidTopology(t) && Inv(t, s) && n < |t.nodes| && Shaped(t, s')
    requires forall m :: 0 <= m < |t.nodes| && m != n ==> s'.nodes[m] == s.nodes[m]
    requires forall q :: 0 <= q < |t.ports| ==> s'.tx[q] == s.tx[q].(gen := s'.tx[q].gen)
    requires forall q :: 0 <= q < |t.ports| && !(t.ports[q].row >= 0 && t.ports[q].node == n) ==>
      s'.rx[q] == s.rx[q].(gen := s'.rx[q].gen)
    requires forall j :: 0 <= j < |t.nodes[n].lanes| ==> s.nodes[n].cursors[j] <= s'.nodes[n].cursors[j]
    requires NodeOk(t, s', n)
    requires forall q :: 0 <= q < |t.ports| && t.ports[q].row >= 0 && t.ports[q].node == n ==> RxOk(t, s', q)
    ensures Inv(t, s')
  {
    forall q | 0 <= q < |t.ports| ensures TxOk(t, s', q) && RxOk(t, s', q) {
      assert ValidPort(t, q);
      TxKept(t, s, s', q);
      if !(t.ports[q].row >= 0 && t.ports[q].node == n) {
        RxKept(t, s, s', q);
      }
    }
    forall m | 0 <= m < |t.nodes| ensures NodeOk(t, s', m) {
      if m != n {
        assert ValidNode(t, m);
        assert NodeOk(t, s, m);
        forall j | 0 <= j < |t.nodes[m].lanes|
          ensures s'.tx[t.nodes[m].lanes[j].src].ring.Earliest() <= s.nodes[m].cursors[j]
        {
          assert LaneOk(t, s, m, j);
        }
        NodeKept(t, s, s', m);
      }
    }
  }

  /** A step that changes node n's fields alone and publishes nothing. */
  lemma {:induction false} LocalTurn(t: Topology, s: State, n: nat, x': Producer)
    requires ValidTopology(t) && Inv(t, s) && n < |t.nodes|
    requires NodeLocal(t.nodes[n], x')
    requires x'.log == s.nodes[n].log
    requires forall r :: 0 <= r < |t.nodes[n].rows| ==> Published(x', r) == Published(s.nodes[n], r)
    requires forall j :: 0 <= j < |t.nodes[n].lanes| ==>
      s.nodes[n].cursors[j] <= x'.cursors[j] && LaneOk(t, SetNode(s, n, x'), n, j)
    requires forall r :: 0 <= r < |t.nodes[n].rows| ==> RowOk(t, SetNode(s, n, x'), n, r)
    ensures Inv(t, SetNode(s, n, x'))
  {
    var s' := SetNode(s, n, x');
    assert NodeOk(t, s, n);
    forall k | 0 <= k < |x'.log| ensures SlotOk(t, s', n, k) {
      assert SlotOk(t, s, n, k);
      SlotKept(t, s, s', n, k);
    }
    forall q | 0 <= q < |t.ports| && t.ports[q].row >= 0 && t.ports[q].node == n ensures RxOk(t, s', q) {
      assert ValidPort(t, q);
      RxKept(t, s, s', q);
    }
    ProducerTurn(t, s, s', n);
  }

  /** A lane of which node n holds no window, before and after the step. */
  lemma {:induction false} LaneIdle(t: Topology, s: State, n: nat, j: nat, x': Producer)
    requires ValidTopology(t) && Shaped(t, s) && n < |t.nodes| && j < |t.nodes[n].lanes| && LaneOk(t, s, n, j)
    requires |x'.cursors| == |x'.inited| == |t.nodes[n].lanes|
    requires x'.cursors[j] == s.nodes[n].cursors[j] && Demand(x'.pc, j) <= Demand(s.nodes[n].pc, j)
    requires !x'.pc.ReadLane? && !x'.pc.ReserveRow? && !x'.pc.ShapeLane?
    ensures LaneOk(t, SetNode(s, n, x'), n, j)
  {
    assert ValidNode(t, n);
  }

  /** The samples a producer holds windows of, while it does. */
  ghost function WindowCount(pc: ProducerPc): Option<nat>
  {
    match pc
    case ReadLane(_, count) => Some(count)
    case ReserveRow(_, count) => Some(count)
    case ShapeLane(_, count) => Some(count)
    case _ => None
  }

  /** A lane whose window, if any, the step does not look at. */
  lemma {:induction false} LaneHeld(t: Topology, s: State, n: nat, j: nat, x': Producer)
    requires ValidTopology(t) && Shaped(t, s) && n < |t.nodes| && j < |t.nodes[n].lanes| && LaneOk(t, s, n, j)
    requires |x'.cursors| == |x'.inited| == |t.nodes[n].lanes|
    requires x'.cursors[j] == s.nodes[n].cursors[j]
    requires WindowCount(x'.pc).Some? && WindowCount(x'.pc) == WindowCount(s.nodes[n].pc)
    requires j < |x'.windows| ==> j < |s.nodes[n].windows| && x'.windows[j] == s.nodes[n].windows[j]
    ensures LaneOk(t, SetNode(s, n, x'), n, j)
  {
    assert ValidNode(t, n);
  }

  /** A lane whose window the step has just set. */
  lemma {:induction false} LaneTaken(t: Topology, s: State, n: nat, j: nat, x': Producer)
    requires ValidTopology(t) && Shaped(t, s) && n < |t.nodes| && j < |t.nodes[n].lanes| && LaneOk(t, s, n, j)
    requires |x'.cursors| == |x'.inited| == |t.nodes[n].lanes|
    requires x'.cursors[j] == s.nodes[n].cursors[j]
    requires WindowCount(x'.pc).Some? && WindowCount(x'.pc) == WindowCount(s.nodes[n].pc)
    requires ValidNode(t, n) && j < |x'.windows|
      && |s.tx[t.nodes[n].lanes[j].src].ring.buf| > 0
      && HeldOk(x'.windows[j], s.tx[t.nodes[n].lanes[j].src], x'.cursors[j], WindowCount(x'.pc).value)
    ensures LaneOk(t, SetNode(s, n, x'), n, j)
  {
  }

  /** A row with nothing in flight, before and after the step. */
  lemma {:induction false} RowIdle(t: Topology, s: State, n: nat, r: nat, x': Producer)
    requires ValidTopology(t) && Shaped(t, s) && n < |t.nodes| && r < |t.nodes[n].rows| && RowOk(t, s, n, r)
    requires |x'.cursors| == |x'.inited| == |t.nodes[n].lanes|
    requires RoomDemand(x'.pc, r) <= RoomDemand(s.nodes[n].pc, r) && OutCount(x'.pc).None?
    ensures RowOk(t, SetNode(s, n, x'), n, r)
  {
    assert ValidNode(t, n);
  }

  /** A row whose output buffer the step does not look at. */
  lemma {:induction false} RowCarried(t: Topology, s: State, n: nat, r: nat, x': Producer)
    requires ValidTopology(t) && Shaped(t, s) && n < |t.nodes| && r < |t.nodes[n].rows| && RowOk(t, s, n, r)
    requires |x'.cursors| == |x'.inited| == |t.nodes[n].lanes|
    requires RoomDemand(x'.pc, r) <= RoomDemand(s.nodes[n].pc, r)
    requires x'.outs == s.nodes[n].outs && OutCount(x'.pc) == OutCount(s.nodes[n].pc)
    requires Filled(x'.pc, r) ==> Filled(s.nodes[n].pc, r) && LastRow(x'.log, r) == LastRow(s.nodes[n].log, r)
    requires s.nodes[n].pc.PublishRow? && r < s.nodes[n].pc.r ==> x'.pc.PublishRow? && r < x'.pc.r
    ensures RowOk(t, SetNode(s, n, x'), n, r)
  {
    assert ValidNode(t, n);
  }

  /** A step that holds no window and no output, and promises itself no more
      than it already had. */
  lemma {:induction false} IdleTurn(t: Topology, s: State, n: nat, x': Producer)
    requires ValidTopology(t) && Inv(t, s) && n < |t.nodes|
    requires NodeLocal(t.nodes[n], x')
    requires x'.log == s.nodes[n].log && x'.cursors == s.nodes[n].cursors
    requires !x'.pc.ReadLane? && !x'.pc.ReserveRow? && !x'.pc.ShapeLane? && OutCount(x'.pc).None?
    requires forall r :: 0 <= r < |t.nodes[n].rows| ==> Published(x', r) == Published(s.nodes[n], r)
    requires forall j :: 0 <= j < |t.nodes[n].lanes| ==> Demand(x'.pc, j) <= Demand(s.nodes[n].pc, j)
    requires forall r :: 0 <= r < |t.nodes[n].rows| ==> RoomDemand(x'.pc, r) <= RoomDemand(s.nodes[n].pc, r)
    ensures Inv(t, SetNode(s, n, x'))
  {
    assert NodeOk(t, s, n);
    forall j | 0 <= j < |t.nodes[n].lanes| ensures LaneOk(t, SetNode(s, n, x'), n, j) {
      LaneIdle(t, s, n, j, x');
    }
    forall r | 0 <= r < |t.nodes[n].rows| ensures RowOk(t, SetNode(s, n, x'), n, r) {
      RowIdle(t, s, n, r, x');
    }
    LocalTurn(t, s, n, x');
  }

  /** A step that goes on with the same outputs and holds no window. */
  lemma {:induction false} CarriedTurn(t: Topology, s: State, n: nat, x': Producer)
    requires ValidTopology(t) && Inv(t, s) && n < |t.nodes|
    requires NodeLocal(t.nodes[n], x')
    requires x'.log == s.nodes[n].log && x'.cursors == s.nodes[n].cursors && x'.outs == s.nodes[n].outs
    requires OutCount(x'.pc) == OutCount(s.nodes[n].pc) && InFlight(x'.pc).Some?
    requires !s.nodes[n].pc.PublishRow?
    requires forall r :: 0 <= r < |t.nodes[n].rows| ==> Published(x', r) == Published(s.nodes[n], r)
    requires forall j :: 0 <= j < |t.nodes[n].lanes| ==> Demand(x'.pc, j) <= Demand(s.nodes[n].pc, j)
    requires forall r :: 0 <= r < |t.nodes[n].rows| ==> RoomDemand(x'.pc, r) <= RoomDemand(s.nodes[n].pc, r)
    requires forall r :: 0 <= r < |t.nodes[n].rows| && Filled(x'.pc, r) ==> Filled(s.nodes[n].pc, r)
    ensures Inv(t, SetNode(s, n, x'))
  {
    assert NodeOk(t, s, n);
    forall j | 0 <= j < |t.nodes[n].lanes| ensures LaneOk(t, SetNode(s, n, x'), n, j) {
      LaneIdle(t, s, n, j, x');
    }
    forall r | 0 <= r < |t.nodes[n].rows| ensures RowOk(t, SetNode(s, n, x'), n, r) {
      RowCarried(t, s, n, r, x');
    }
    LocalTurn(t, s, n, x');
  }

  // ------------------------------------------------------------------------
  // (A) room, (B) alignment, (C) common window
  // ------------------------------------------------------------------------

  lemma {:induction false} RoomCheckKeeps(t: Topology, s: State, n: nat)
    requires ValidTopology(t) && Inv(t, s) && n < |t.nodes| && ProducerCanStep(t, s, n)
    requires s.nodes[n].pc.RoomCheck? && s.nodes[n].pc.r < |t.nodes[n].rows|
    ensures Inv(t, ProducerStep(t, s, n))
  {
    var s' := ProducerStep(t, s, n);
    var x' := s'.nodes[n];
    assert ValidNode(t, n);
    assert NodeOk(t, s, n);
    assert NodeLocal(t.nodes[n], x');
    forall j | 0 <= j < |t.nodes[n].lanes| ensures LaneOk(t, s', n, j) {
      LaneIdle(t, s, n, j, x');
    }
    forall r | 0 <= r < |t.nodes[n].rows| ensures RowOk(t, s', n, r) {
      if r == s.nodes[n].pc.r {
        assert RowOk(t, s, n, r);
      } else {
        RowIdle(t, s, n, r, x');
      }
    }
    LocalTurn(t, s, n, x');
  }

  lemma {:induction false} RoomKeeps(t: Topology, s: State, n: nat)
    requires ValidTopology(t) && Inv(t, s) && n < |t.nodes| && ProducerCanStep(t, s, n)
    requires s.nodes[n].pc.RoomTop? || s.nodes[n].pc.RoomCheck? || s.nodes[n].pc.RoomSleep?
    ensures Inv(t, ProducerStep(t, s, n))
  {
    if s.nodes[n].pc.RoomCheck? && s.nodes[n].pc.r < |t.nodes[n].rows| {
      RoomCheckKeeps(t, s, n);
    } else {
      assert NodeOk(t, s, n);
      IdleTurn(t, s, n, ProducerStep(t, s, n).nodes[n]);
    }
  }

  /** Nothing was discarded before this lane's first cursor: it starts at 0. */
  lemma {:induction false} AlignKeeps(t: Topology, s: State, n: nat)
    requires ValidTopology(t) && Inv(t, s) && n < |t.nodes| && ProducerCanStep(t, s, n)
    requires s.nodes[n].pc.AlignLane?
    ensures Inv(t, ProducerStep(t, s, n))
  {
    var x, x' := s.nodes[n], ProducerStep(t, s, n).nodes[n];
    assert ValidNode(t, n);
    assert NodeOk(t, s, n);
    if x.pc.k < |t.nodes[n].lanes| {
      assert LaneOk(t, s, n, x.pc.k);
      assert x.cursors[x.pc.k] == 0 == x'.cursors[x.pc.k];
    }
    assert x'.cursors == x.cursors;
    IdleTurn(t, s, n, x');
  }

  /** The lane's window: the cursor has not fallen behind the ring, so the gap
      branch is not taken and the bound shrinks to what is available. */
  lemma {:induction false} DataCheckKeeps(t: Topology, s: State, n: nat)
    requires ValidTopology(t) && Inv(t, s) && n < |t.nodes| && ProducerCanStep(t, s, n)
    requires s.nodes[n].pc.DataCheck? && s.nodes[n].pc.k < |t.nodes[n].lanes|
    ensures Inv(t, ProducerStep(t, s, n))
  {
    var s' := ProducerStep(t, s, n);
    var x, x' := s.nodes[n], s'.nodes[n];
    assert ValidNode(t, n);
    assert NodeOk(t, s, n);
    var k := x.pc.k;
    var src := t.nodes[n].lanes[k].src;
    assert LaneOk(t, s, n, k);
    assert TxOk(t, s, src);
    assert x'.cursors == x.cursors;
    assert NodeLocal(t.nodes[n], x');
    forall j | 0 <= j < |t.nodes[n].lanes| ensures LaneOk(t, s', n, j) {
      if j != k {
        LaneIdle(t, s, n, j, x');
      }
    }
    forall r | 0 <= r < |t.nodes[n].rows| ensures RowOk(t, s', n, r) {
      RowIdle(t, s, n, r, x');
    }
    LocalTurn(t, s, n, x');
  }

  /** A common window was found, or the node has no lanes at all. */
  lemma {:induction false} DataGoKeeps(t: Topology, s: State, n: nat)
    requires ValidTopology(t) && Inv(t, s) && n < |t.nodes| && ProducerCanStep(t, s, n)
    requires s.nodes[n].pc.DataTop? || s.nodes[n].pc.DataCheck?
    requires ProducerStep(t, s, n).nodes[n].pc.ReadLane?
    ensures Inv(t, ProducerStep(t, s, n))
  {
    var s' := ProducerStep(t, s, n);
    var x' := s'.nodes[n];
    assert ValidNode(t, n);
    assert NodeOk(t, s, n);
    assert NodeLocal(t.nodes[n], x');
    forall j | 0 <= j < |t.nodes[n].lanes| ensures LaneOk(t, s', n, j) {
      assert LaneOk(t, s, n, j);
    }
    forall r | 0 <= r < |t.nodes[n].rows| ensures RowOk(t, s', n, r) {
      RowIdle(t, s, n, r, x');
    }
    LocalTurn(t, s, n, x');
  }

  lemma {:induction false} DataKeeps(t: Topology, s: State, n: nat)
    requires ValidTopology(t) && Inv(t, s) && n < |t.nodes| && ProducerCanStep(t, s, n)
    requires s.nodes[n].pc.DataTop? || s.nodes[n].pc.DataCheck? || s.nodes[n].pc.DataSleep?
    ensures Inv(t, ProducerStep(t, s, n))
  {
    var x := s.nodes[n];
    if x.pc.DataCheck? && x.pc.k < |t.nodes[n].lanes| {
      DataCheckKeeps(t, s, n);
    } else if ProducerStep(t, s, n).nodes[n].pc.ReadLane? {
      DataGoKeeps(t, s, n);
    } else {
      assert NodeOk(t, s, n);
      IdleTurn(t, s, n, ProducerStep(t, s, n).nodes[n]);
    }
  }

  // ------------------------------------------------------------------------
  // (D) read, (E) reserve and shape
  // ------------------------------------------------------------------------

  /** A read or a view of [cursor, cursor + count) is the right window. */
  lemma {:induction false} HoldsWindow(x: TxSide, cursor: nat, count: nat)
    requires Represents(x.ring, x.stream)
    requires x.ring.Earliest() <= cursor && 0 < count && cursor + count <= |x.stream|
    ensures CanRead(x.ring, cursor, count)
    ensures HeldOk(Copied(Read(x.ring, cursor, count)), x, cursor, count)
    ensures var view := View(x.ring, cursor, count); view.Some? ==> HeldOk(InRing(view.value), x, cursor, count)
  {
    ReadIsStream(x.ring, x.stream, cursor, count);
    ViewIsStream(x.ring, x.stream, cursor, count);
  }

  lemma {:induction false} ReadLaneKeeps(t: Topology, s: State, n: nat)
    requires ValidTopology(t) && Inv(t, s) && n < |t.nodes| && ProducerCanStep(t, s, n)
    requires s.nodes[n].pc.ReadLane? && s.nodes[n].pc.k < |t.nodes[n].lanes|
    ensures Inv(t, ProducerStep(t, s, n))
  {
    hide RxLocal, Represents, Feeds;
    var s' := ProducerStep(t, s, n);
    var x, x' := s.nodes[n], s'.nodes[n];
    assert ValidNode(t, n);
    assert NodeOk(t, s, n);
    var src := t.nodes[n].lanes[x.pc.k].src;
    assert LaneOk(t, s, n, x.pc.k);
    assert TxOk(t, s, src);
    HoldsWindow(s.tx[src], x.cursors[x.pc.k], x.pc.count);
    assert NodeLocal(t.nodes[n], x');
    forall j | 0 <= j < |t.nodes[n].lanes| ensures LaneOk(t, s', n, j) {
      if j == x.pc.k {
        LaneTaken(t, s, n, j, x');
      } else {
        LaneHeld(t, s, n, j, x');
      }
    }
    forall r | 0 <= r < |t.nodes[n].rows| ensures RowOk(t, s', n, r) {
      RowIdle(t, s, n, r, x');
    }
    LocalTurn(t, s, n, x');
  }

  lemma {:induction false} ReadEndKeeps(t: Topology, s: State, n: nat)
    requires ValidTopology(t) && Inv(t, s) && n < |t.nodes| && ProducerCanStep(t, s, n)
    requires s.nodes[n].pc.ReadLane? && s.nodes[n].pc.k >= |t.nodes[n].lanes|
    ensures Inv(t, ProducerStep(t, s, n))
  {
    var s' := ProducerStep(t, s, n);
    var x' := s'.nodes[n];
    assert ValidNode(t, n);
    assert NodeOk(t, s, n);
    assert NodeLocal(t.nodes[n], x');
    forall j | 0 <= j < |t.nodes[n].lanes| ensures LaneOk(t, s', n, j) {
      LaneHeld(t, s, n, j, x');
    }
    forall r | 0 <= r < |t.nodes[n].rows| ensures RowOk(t, s', n, r) {
      assert RowOk(t, s, n, r);
    }
    LocalTurn(t, s, n, x');
  }

  lemma {:induction false} ReserveRowKeeps(t: Topology, s: State, n: nat)
    requires ValidTopology(t) && Inv(t, s) && n < |t.nodes| && ProducerCanStep(t, s, n)
    requires s.nodes[n].pc.ReserveRow? && s.nodes[n].pc.r < |t.nodes[n].rows|
    ensures Inv(t, ProducerStep(t, s, n))
  {
    var s' := ProducerStep(t, s, n);
    var x, x' := s.nodes[n], s'.nodes[n];
    assert ValidNode(t, n);
    assert NodeOk(t, s, n);
    var p := t.nodes[n].rows[x.pc.r];
    assert RxOk(t, s, p);
    ReserveIsTail(s.rx[p].ring, s.rx[p].stream, x.pc.count);
    assert NodeLocal(t.nodes[n], x');
    forall j | 0 <= j < |t.nodes[n].lanes| ensures LaneOk(t, s', n, j) {
      LaneHeld(t, s, n, j, x');
    }
    forall r | 0 <= r < |t.nodes[n].rows| ensures RowOk(t, s', n, r) {
      assert RowOk(t, s, n, r);
    }
    LocalTurn(t, s, n, x');
  }

  lemma {:induction false} ReserveEndKeeps(t: Topology, s: State, n: nat)
    requires ValidTopology(t) && Inv(t, s) && n < |t.nodes| && ProducerCanStep(t, s, n)
    requires s.nodes[n].pc.ReserveRow? && s.nodes[n].pc.r >= |t.nodes[n].rows|
    ensures Inv(t, ProducerStep(t, s, n))
  {
    var s' := ProducerStep(t, s, n);
    var x' := s'.nodes[n];
    assert ValidNode(t, n);
    assert NodeOk(t, s, n);
    assert NodeLocal(t.nodes[n], x');
    forall j | 0 <= j < |t.nodes[n].lanes| ensures LaneOk(t, s', n, j) {
      LaneHeld(t, s, n, j, x');
    }
    forall r | 0 <= r < |t.nodes[n].rows| ensures RowOk(t, s', n, r) {
      RowCarried(t, s, n, r, x');
    }
    LocalTurn(t, s, n, x');
  }

  /** The lane's samples are read only now, possibly where a view found them
      long before: they have not been discarded, so the cells still hold them. */
  lemma {:induction false} ShapedWindow(x: TxSide, h: Held, cursor: nat, count: nat)
    requires Represents(x.ring, x.stream) && HeldOk(h, x, cursor, count)
    requires x.ring.Earliest() <= cursor && cursor + count <= |x.stream|
    ensures HeldOk(Copied(if h.Copied? then h.samples else Cells(x.ring, h.at, count)), x, cursor, count)
  {
    if h.InRing? {
      WindowInPlace(x.ring, x.stream, cursor, count);
    }
  }

  /** The node after lane k was shaped: only its counter and the window moved on. */
  lemma {:induction false} ShapeLaneLocal(t: Topology, s: State, n: nat)
    requires ValidTopology(t) && Inv(t, s) && n < |t.nodes| && ProducerCanStep(t, s, n)
    requires s.nodes[n].pc.ShapeLane? && s.nodes[n].pc.k < |t.nodes[n].lanes|
    ensures NodeLocal(t.nodes[n], ProducerStep(t, s, n).nodes[n])
    ensures LaneOk(t, ProducerStep(t, s, n), n, s.nodes[n].pc.k)
  {
    hide RxLocal, Represents, Feeds;
    var s' := ProducerStep(t, s, n);
    var x, x' := s.nodes[n], s'.nodes[n];
    assert ValidNode(t, n);
    assert NodeOk(t, s, n);
    var k, count := x.pc.k, x.pc.count;
    var src := t.nodes[n].lanes[k].src;
    assert LaneOk(t, s, n, k);
    assert TxOk(t, s, src);
    ShapedWindow(s.tx[src], x.windows[k], x.cursors[k], count);
    LaneTaken(t, s, n, k, x');
  }

  lemma {:induction false} ShapeLaneKeeps(t: Topology, s: State, n: nat)
    requires ValidTopology(t) && Inv(t, s) && n < |t.nodes| && ProducerCanStep(t, s, n)
    requires s.nodes[n].pc.ShapeLane? && s.nodes[n].pc.k < |t.nodes[n].lanes|
    ensures Inv(t, ProducerStep(t, s, n))
  {
    hide RxLocal, Represents, Feeds;
    var s' := ProducerStep(t, s, n);
    var x, x' := s.nodes[n], s'.nodes[n];
    assert ValidNode(t, n);
    assert NodeOk(t, s, n);
    ShapeLaneLocal(t, s, n);
    forall j | 0 <= j < |t.nodes[n].lanes| ensures LaneOk(t, s', n, j) {
      if j != x.pc.k {
        LaneHeld(t, s, n, j, x');
      }
    }
    forall r | 0 <= r < |t.nodes[n].rows| ensures RowOk(t, s', n, r) {
      RowCarried(t, s, n, r, x');
    }
    LocalTurn(t, s, n, x');
  }

  /** Processing a slot leaves what its rows have published so far as it was. */
  lemma {:induction false} LogGrows(port: Port, y: RxSide, log: seq<Slot>, r: nat, slot: Slot)
    requires RxLocal(port, y, log, |log|, r) && slot.start == End(log)
    ensures RxLocal(port, y, log + [slot], |log|, r)
  {
    var log' := log + [slot];
    assert forall k :: 0 <= k < |log| ==> log'[k] == log[k];
    assert forall k :: 0 <= k <= |log| ==> StartOf(log', k) == StartOf(log, k);
    assert RxQueue(y, log', |log|, r);
    assert RxSent(y, log', |log|, r);
    assert RxPc(y, log', r);
  }

  /** The slot the channel call adds to the log. */
  lemma {:induction false} NewSlotOk(t: Topology, s: State, s': State, n: nat)
    requires ValidTopology(t) && Inv(t, s) && n < |t.nodes| && ProducerCanStep(t, s, n)
    requires s.nodes[n].pc.ShapeLane? && s.nodes[n].pc.k >= |t.nodes[n].lanes|
    requires s' == ProducerStep(t, s, n)
    ensures |s'.nodes[n].log| == |s.nodes[n].log| + 1 && SlotOk(t, s', n, |s.nodes[n].log|)
    ensures s'.nodes[n].log[..|s.nodes[n].log|] == s.nodes[n].log
    ensures s'.nodes[n].log[|s.nodes[n].log|].start == End(s.nodes[n].log)
  {
    var x, x' := s.nodes[n], s'.nodes[n];
    assert ValidNode(t, n);
    assert NodeOk(t, s, n);
    var m := |x.log|;
    var slot := x'.log[m];
    assert |x.windows| == |t.nodes[n].lanes|;
    forall j | 0 <= j < |t.nodes[n].lanes|
      ensures |slot.windows[j]| == slot.count && WindowIs(slot.windows[j], s.tx[t.nodes[n].lanes[j].src].stream, slot.start)
    {
      assert LaneOk(t, s, n, j);
      assert x.windows[j].Copied?;
    }
    assert x'.log[..m] == x.log;
  }

  /** The earlier slots are untouched by it. */
  lemma {:induction false} OldSlotOk(t: Topology, s: State, n: nat, k: nat, x': Producer)
    requires ValidTopology(t) && Shaped(t, s) && n < |t.nodes| && k < |s.nodes[n].log| && SlotOk(t, s, n, k)
    requires |x'.cursors| == |x'.inited| == |t.nodes[n].lanes|
    requires s.nodes[n].log <= x'.log
    ensures SlotOk(t, SetNode(s, n, x'), n, k)
  {
    assert ValidNode(t, n);
    assert x'.log[..k] == s.nodes[n].log[..k];
  }

  lemma {:induction false} ShapeEndSlots(t: Topology, s: State, n: nat, x': Producer)
    requires ValidTopology(t) && Shaped(t, s) && n < |t.nodes| && NodeOk(t, s, n)
    requires |x'.cursors| == |x'.inited| == |t.nodes[n].lanes|
    requires |x'.log| == |s.nodes[n].log| + 1 && s.nodes[n].log <= x'.log
    requires SlotOk(t, SetNode(s, n, x'), n, |s.nodes[n].log|)
    ensures forall k :: 0 <= k < |x'.log| ==> SlotOk(t, SetNode(s, n, x'), n, k)
  {
    forall k | 0 <= k < |x'.log| ensures SlotOk(t, SetNode(s, n, x'), n, k) {
      if k < |s.nodes[n].log| {
        OldSlotOk(t, s, n, k, x');
      }
    }
  }

  lemma {:induction false} ShapeEndLocal(node: Node, x: Producer, x': Producer, slot: Slot)
    requires NodeLocal(node, x) && x.pc.ShapeLane? && slot.start == End(x.log) && slot.count == x.pc.count
    requires x' == x.(log := x.log + [slot], pc := FillRow(0, x.pc.count))
    ensures NodeLocal(node, x')
  {
  }

  lemma {:induction false} ShapeEndLane(t: Topology, s: State, n: nat, j: nat)
    requires ValidTopology(t) && Inv(t, s) && n < |t.nodes| && ProducerCanStep(t, s, n)
    requires s.nodes[n].pc.ShapeLane? && s.nodes[n].pc.k >= |t.nodes[n].lanes| && j < |t.nodes[n].lanes|
    ensures LaneOk(t, ProducerStep(t, s, n), n, j)
  {
    assert NodeOk(t, s, n);
    LaneIdle(t, s, n, j, ProducerStep(t, s, n).nodes[n]);
  }

  lemma {:induction false} ShapeEndRow(t: Topology, s: State, n: nat, r: nat)
    requires ValidTopology(t) && Inv(t, s) && n < |t.nodes| && ProducerCanStep(t, s, n)
    requires s.nodes[n].pc.ShapeLane? && s.nodes[n].pc.k >= |t.nodes[n].lanes| && r < |t.nodes[n].rows|
    ensures RowOk(t, ProducerStep(t, s, n), n, r)
  {
    assert NodeOk(t, s, n);
    RowCarried(t, s, n, r, ProducerStep(t, s, n).nodes[n]);
  }

  lemma {:induction false} ShapeEndNode(t: Topology, s: State, n: nat)
    requires ValidTopology(t) && Inv(t, s) && n < |t.nodes| && ProducerCanStep(t, s, n)
    requires s.nodes[n].pc.ShapeLane? && s.nodes[n].pc.k >= |t.nodes[n].lanes|
    ensures NodeOk(t, ProducerStep(t, s, n), n)
  {
    assert Shaped(t, s) && NodeOk(t, s, n) && |s.nodes[n].windows| == |t.nodes[n].lanes|;
    hide Feeds, LaneOk, RowOk, SlotOk, WiredPort, Inv;
    var s' := ProducerStep(t, s, n);
    var x, x' := s.nodes[n], s'.nodes[n];
    NewSlotOk(t, s, s', n);
    ShapeEndSlots(t, s, n, x');
    ShapeEndLocal(t.nodes[n], x, x', x'.log[|x.log|]);
    forall j | 0 <= j < |t.nodes[n].lanes| ensures LaneOk(t, s', n, j) {
      ShapeEndLane(t, s, n, j);
    }
    forall r | 0 <= r < |t.nodes[n].rows| ensures RowOk(t, s', n, r) {
      ShapeEndRow(t, s, n, r);
    }
  }

  lemma {:induction false} ShapeEndRx(t: Topology, s: State, n: nat, q: nat)
    requires ValidTopology(t) && Inv(t, s) && n < |t.nodes| && ProducerCanStep(t, s, n)
    requires s.nodes[n].pc.ShapeLane? && s.nodes[n].pc.k >= |t.nodes[n].lanes|
    requires q < |t.ports| && t.ports[q].row >= 0 && t.ports[q].node == n
    ensures RxOk(t, ProducerStep(t, s, n), q)
  {
    var x' := ProducerStep(t, s, n).nodes[n];
    var slot := x'.log[|s.nodes[n].log|];
    assert ValidPort(t, q);
    assert RxOk(t, s, q);
    hide Inv, Feeds, Rows, Contents, RxRing, RxQueue, RxSent, RxPc;
    LogGrows(t.ports[q], s.rx[q], s.nodes[n].log, t.ports[q].row, slot);
  }

  lemma {:induction false} ShapeEndKeeps(t: Topology, s: State, n: nat)
    requires ValidTopology(t) && Inv(t, s) && n < |t.nodes| && ProducerCanStep(t, s, n)
    requires s.nodes[n].pc.ShapeLane? && s.nodes[n].pc.k >= |t.nodes[n].lanes|
    ensures Inv(t, ProducerStep(t, s, n))
  {
    var s' := ProducerStep(t, s, n);
    ShapeEndNode(t, s, n);
    forall q | 0 <= q < |t.ports| && t.ports[q].row >= 0 && t.ports[q].node == n ensures RxOk(t, s', q) {
      ShapeEndRx(t, s, n, q);
    }
    ProducerTurn(t, s, s', n);
  }

  // ------------------------------------------------------------------------
  // (E) the rows are filled, (F) the cursors advance
  // ------------------------------------------------------------------------

  lemma {:induction false} LastRowLength(t: Topology, s: State, n: nat, r: nat)
    requires ValidTopology(t) && Shaped(t, s) && n < |t.nodes| && NodeOk(t, s, n) && r < |t.nodes[n].rows|
    requires s.nodes[n].log != []
    ensures |LastRow(s.nodes[n].log, r)| == s.nodes[n].log[|s.nodes[n].log| - 1].count
  {
    assert SlotOk(t, s, n, |s.nodes[n].log| - 1);
  }

  /** A row of node n other than the one whose RX side the step changes. */
  lemma {:induction false} OtherRow(t: Topology, s: State, s': State, n: nat, r: nat, i: nat)
    requires ValidTopology(t) && Inv(t, s) && n < |t.nodes| && r < |t.nodes[n].rows| && i < |t.nodes[n].rows| && i != r
    requires Shaped(t, s')
    requires ValidNode(t, n) ==>
      s' == SetRx(SetNode(s, n, s'.nodes[n]), t.nodes[n].rows[r], s'.rx[t.nodes[n].rows[r]])
    requires RowOk(t, SetNode(s, n, s'.nodes[n]), n, i)
    ensures RowOk(t, s', n, i)
  {
    assert ValidNode(t, n);
    assert t.nodes[n].rows[i] != t.nodes[n].rows[r];
  }

  /** The node's rows after one of them was written in place. */
  lemma {:induction false} FilledNode(t: Topology, s: State, n: nat)
    requires ValidTopology(t) && Inv(t, s) && n < |t.nodes| && ProducerCanStep(t, s, n)
    requires s.nodes[n].pc.FillRow? && s.nodes[n].pc.r < |t.nodes[n].rows|
    requires s.nodes[n].pc.r < |s.nodes[n].outs| && s.nodes[n].outs[s.nodes[n].pc.r].InRing?
    ensures ValidNode(t, n)
    ensures var p := t.nodes[n].rows[s.nodes[n].pc.r];
      var y, y' := s.rx[p], ProducerStep(t, s, n).rx[p];
      && y' == y.(ring := y'.ring) && Represents(y'.ring, y.stream) && |y'.ring.buf| == |y.ring.buf|
      && y'.ring.size == y.ring.size && y'.ring.next == y.ring.next
      && ProducerStep(t, s, n) == SetRx(SetNode(s, n, ProducerStep(t, s, n).nodes[n]), p, y')
    ensures RowOk(t, ProducerStep(t, s, n), n, s.nodes[n].pc.r)
  {
    hide Feeds;
    var x := s.nodes[n];
    var r := x.pc.r;
    assert ValidNode(t, n);
    assert NodeOk(t, s, n);
    var p := t.nodes[n].rows[r];
    assert ValidPort(t, p);
    assert RowOk(t, s, n, r);
    assert RxOk(t, s, p);
    LastRowLength(t, s, n, r);
    FillIsInvisible(s.rx[p].ring, s.rx[p].stream, LastRow(x.log, r));
  }

  /** A row written straight into the reserved tail of its RX ring. */
  lemma {:induction false} FillInPlaceKeeps(t: Topology, s: State, n: nat)
    requires ValidTopology(t) && Inv(t, s) && n < |t.nodes| && ProducerCanStep(t, s, n)
    requires s.nodes[n].pc.FillRow? && s.nodes[n].pc.r < |t.nodes[n].rows|
    requires s.nodes[n].pc.r < |s.nodes[n].outs| && s.nodes[n].outs[s.nodes[n].pc.r].InRing?
    ensures Inv(t, ProducerStep(t, s, n))
  {
    var s' := ProducerStep(t, s, n);
    var x, x' := s.nodes[n], s'.nodes[n];
    var r := x.pc.r;
    FilledNode(t, s, n);
    assert NodeOk(t, s, n);
    var p := t.nodes[n].rows[r];
    assert NodeLocal(t.nodes[n], x');
    RowTurn(t, s, s', n, r);
    forall q | 0 <= q < |t.ports| && t.ports[q].row >= 0 && t.ports[q].node == n ensures RxOk(t, s', q) {
      assert ValidPort(t, q);
      assert RxOk(t, s, q);
      if q != p {
        RxKept(t, s, s', q);
      } else {
        RingRefilled(t.ports[p], s.rx[p], x.log, |x.log| - 1, t.ports[p].row, s'.rx[p]);
      }
    }
    ProducerTurn(t, s, s', n);
  }

  /** The node after a step that wrote or published row r: its lanes, its other
      rows and its log are as they were. */
  lemma {:induction false} RowTurn(t: Topology, s: State, s': State, n: nat, r: nat)
    requires ValidTopology(t) && Inv(t, s) && n < |t.nodes| && r < |t.nodes[n].rows| && Shaped(t, s')
    requires ValidNode(t, n) ==>
      s' == SetRx(SetNode(s, n, s'.nodes[n]), t.nodes[n].rows[r], s'.rx[t.nodes[n].rows[r]])
    requires var x, pc, pc' := s.nodes[n], s.nodes[n].pc, s'.nodes[n].pc;
      && s'.nodes[n] == x.(pc := pc')
      && ((pc.FillRow? && pc.r == r && pc' == FillRow(r + 1, pc.count))
          || (pc.PublishRow? && pc.r == r && pc' == PublishRow(r + 1, pc.count)))
    requires NodeLocal(t.nodes[n], s'.nodes[n])
    requires RowOk(t, s', n, r)
    ensures NodeOk(t, s', n)
  {
    assert ValidNode(t, n);
    assert NodeOk(t, s, n);
    var x' := s'.nodes[n];
    var mid := SetNode(s, n, x');
    forall j | 0 <= j < |t.nodes[n].lanes| ensures LaneOk(t, s', n, j) {
      LaneIdle(t, s, n, j, x');
      assert LaneOk(t, mid, n, j);
    }
    forall i | 0 <= i < |t.nodes[n].rows| ensures RowOk(t, s', n, i) {
      if i != r {
        RowCarried(t, s, n, i, x');
        OtherRow(t, s, s', n, r, i);
      }
    }
    forall k | 0 <= k < |x'.log| ensures SlotOk(t, s', n, k) {
      assert SlotOk(t, s, n, k);
      SlotKept(t, s, s', n, k);
    }
  }

  /** A write outside the buffered window changes nothing the REP side relies on. */
  lemma {:induction false} RingRefilled(port: Port, y: RxSide, log: seq<Slot>, published: int, r: nat, y': RxSide)
    requires RxLocal(port, y, log, published, r)
    requires y' == y.(ring := y'.ring) && Represents(y'.ring, y.stream) && |y'.ring.buf| == |y.ring.buf|
    requires y'.ring.size == y.ring.size && y'.ring.next == y.ring.next
    ensures RxLocal(port, y', log, published, r)
  {
  }

  lemma {:induction false} FillStagedKeeps(t: Topology, s: State, n: nat)
    requires ValidTopology(t) && Inv(t, s) && n < |t.nodes| && ProducerCanStep(t, s, n)
    requires s.nodes[n].pc.FillRow? && s.nodes[n].pc.r < |t.nodes[n].rows|
    requires s.nodes[n].pc.r < |s.nodes[n].outs| && s.nodes[n].outs[s.nodes[n].pc.r].Copied?
    ensures Inv(t, ProducerStep(t, s, n))
  {
    var s' := ProducerStep(t, s, n);
    var x' := s'.nodes[n];
    assert ValidNode(t, n);
    assert NodeOk(t, s, n);
    assert NodeLocal(t.nodes[n], x');
    forall j | 0 <= j < |t.nodes[n].lanes| ensures LaneOk(t, s', n, j) {
      LaneIdle(t, s, n, j, x');
    }
    forall r | 0 <= r < |t.nodes[n].rows| ensures RowOk(t, s', n, r) {
      assert RowOk(t, s, n, r);
    }
    LocalTurn(t, s, n, x');
  }

  lemma {:induction false} FillKeeps(t: Topology, s: State, n: nat)
    requires ValidTopology(t) && Inv(t, s) && n < |t.nodes| && ProducerCanStep(t, s, n)
    requires s.nodes[n].pc.FillRow?
    ensures Inv(t, ProducerStep(t, s, n))
  {
    var x := s.nodes[n];
    assert NodeOk(t, s, n);
    if x.pc.r < |t.nodes[n].rows| {
      if x.outs[x.pc.r].InRing? {
        FillInPlaceKeeps(t, s, n);
      } else {
        FillStagedKeeps(t, s, n);
      }
    } else {
      CarriedTurn(t, s, n, ProducerStep(t, s, n).nodes[n]);
    }
  }

  lemma {:induction false} AdvanceLaneKeeps(t: Topology, s: State, n: nat)
    requires ValidTopology(t) && Inv(t, s) && n < |t.nodes| && ProducerCanStep(t, s, n)
    requires s.nodes[n].pc.AdvanceLane? && s.nodes[n].pc.k < |t.nodes[n].lanes|
    ensures Inv(t, ProducerStep(t, s, n))
  {
    var s' := ProducerStep(t, s, n);
    var x, x' := s.nodes[n], s'.nodes[n];
    assert ValidNode(t, n);
    assert NodeOk(t, s, n);
    assert NodeLocal(t.nodes[n], x');
    forall j | 0 <= j < |t.nodes[n].lanes| ensures LaneOk(t, s', n, j) {
      if j == x.pc.k {
        assert LaneOk(t, s, n, j);
      } else {
        LaneIdle(t, s, n, j, x');
      }
    }
    forall r | 0 <= r < |t.nodes[n].rows| ensures RowOk(t, s', n, r) {
      RowCarried(t, s, n, r, x');
    }
    LocalTurn(t, s, n, x');
  }

  lemma {:induction false} AdvanceKeeps(t: Topology, s: State, n: nat)
    requires ValidTopology(t) && Inv(t, s) && n < |t.nodes| && ProducerCanStep(t, s, n)
    requires s.nodes[n].pc.AdvanceLane?
    ensures Inv(t, ProducerStep(t, s, n))
  {
    if s.nodes[n].pc.k < |t.nodes[n].lanes| {
      AdvanceLaneKeeps(t, s, n);
    } else {
      assert NodeOk(t, s, n);
      CarriedTurn(t, s, n, ProducerStep(t, s, n).nodes[n]);
    }
  }

  // ------------------------------------------------------------------------
  // Wakes, (H) publication
  // ------------------------------------------------------------------------

  lemma {:induction false} NotifySourcesKeeps(t: Topology, s: State, n: nat)
    requires ValidTopology(t) && Inv(t, s) && n < |t.nodes| && ProducerCanStep(t, s, n)
    requires s.nodes[n].pc.NotifySources?
    ensures Inv(t, ProducerStep(t, s, n))
  {
    var s' := ProducerStep(t, s, n);
    var x, x' := s.nodes[n], s'.nodes[n];
    assert NodeOk(t, s, n);
    CarriedTurn(t, s, n, x');
    if x.pc.todo != [] {
      assert ValidNode(t, n);
      var p := x.pc.todo[0];
      assert p in t.nodes[n].sources;
      WakePullerKeeps(t, SetNode(s, n, x'), p);
    }
  }

  lemma {:induction false} WakePullerKeeps(t: Topology, s: State, p: nat)
    requires ValidTopology(t) && Inv(t, s) && p < |t.ports|
    ensures Inv(t, WakePuller(s, p))
  {
    assert TxOk(t, s, p);
    TxKept(t, s, WakePuller(s, p), p);
    QuietPullerKeeps(t, s, WakePuller(s, p), p);
  }

  lemma {:induction false} NotifyRowsKeeps(t: Topology, s: State, n: nat)
    requires ValidTopology(t) && Inv(t, s) && n < |t.nodes| && ProducerCanStep(t, s, n)
    requires s.nodes[n].pc.NotifyRows?
    ensures Inv(t, ProducerStep(t, s, n))
  {
    var s' := ProducerStep(t, s, n);
    var x, x' := s.nodes[n], s'.nodes[n];
    assert NodeOk(t, s, n);
    IdleTurn(t, s, n, x');
    if x.pc.todo != [] {
      assert ValidNode(t, n);
      var p := x.pc.todo[0];
      assert p in t.nodes[n].rows;
      WakeRepKeeps(t, SetNode(s, n, x'), p);
    }
  }

  lemma {:induction false} WakeRepKeeps(t: Topology, s: State, p: nat)
    requires ValidTopology(t) && Inv(t, s) && p < |t.ports|
    ensures Inv(t, WakeRep(s, p))
  {
    assert ValidPort(t, p);
    RxKept(t, s, WakeRep(s, p), p);
    RepTurn(t, s, WakeRep(s, p), p);
  }

  /** The REP side after its node published one more slot on the row. */
  lemma {:induction false} SlotPublished(port: Port, y: RxSide, log: seq<Slot>, r: nat, y': RxSide)
    requires log != [] && RxLocal(port, y, log, |log| - 1, r) && Tile(log, r, |log| - 1)
    requires y' == y.(ring := y'.ring, stream := y.stream + log[|log| - 1].rows[r], slots := y.slots + [log[|log| - 1].count])
    requires Represents(y'.ring, y'.stream) && |y'.ring.buf| == |y.ring.buf|
    requires y'.ring.size == y.ring.size + log[|log| - 1].count <= port.highWater
    requires y'.ring.next == y.ring.next + log[|log| - 1].count
    ensures RxLocal(port, y', log, |log|, r)
  {
    var m := |log| - 1;
    forall k | 0 <= k < |log|
      ensures r < |log[k].rows| && WindowIs(log[k].rows[r], y'.stream, log[k].start)
    {
    }
    assert RxRing(port, y');
    assert RxQueue(y', log, |log|, r);
    assert RxSent(y', log, |log|, r);
  }

  /** What publishing a filled row does to its ring: a commit of the reserved
      tail or a push of the staged copy, never a rejected push. */
  lemma {:induction false} PublishedRing(port: Port, y: RxSide, out: Held, row: seq<IqSample>)
    requires Represents(y.ring, y.stream) && |row| <= Headroom(port, y.ring)
    requires match out
      case InRing(at) => at == Wrap(y.ring.next, |y.ring.buf|) && at + |row| <= |y.ring.buf| && y.ring.buf[at..at + |row|] == row
      case Copied(staged) => staged == row
    ensures out.InRing? ==> Cells(y.ring, out.at, |row|) == row
    ensures out.Copied? ==> CanPush(y.ring, |row|)
    ensures var ring := if out.InRing? then Commit(y.ring, |row|) else Push(y.ring, row);
      && Represents(ring, y.stream + row) && |ring.buf| == |y.ring.buf|
      && ring.next == y.ring.next + |row|
      && ring.size == y.ring.size + |row|
      && (|row| > 0 ==> ring.size <= port.highWater)
  {
    match out {
      case InRing(at) => CommitAppends(y.ring, y.stream, row);
      case Copied(samples) => PushAppends(y.ring, y.stream, row);
    }
  }

  /** The publication finds its row filled, its headroom kept and its ring sound. */
  lemma {:induction false} RowReady(t: Topology, s: State, n: nat)
    requires ValidTopology(t) && Shaped(t, s) && n < |t.nodes| && NodeOk(t, s, n)
    requires s.nodes[n].pc.PublishRow? && s.nodes[n].pc.r < |t.nodes[n].rows|
    requires ValidNode(t, n) && RxOk(t, s, t.nodes[n].rows[s.nodes[n].pc.r])
    ensures s.nodes[n].log != [] && s.nodes[n].pc.r < |s.nodes[n].outs|
    ensures var x, p := s.nodes[n], t.nodes[n].rows[s.nodes[n].pc.r];
      var y, row := s.rx[p], LastRow(x.log, x.pc.r);
      && |row| == x.pc.count > 0
      && Represents(y.ring, y.stream) && |row| <= Headroom(t.ports[p], y.ring)
      && match x.outs[x.pc.r]
         case InRing(at) => at == Wrap(y.ring.next, |y.ring.buf|) && at + |row| <= |y.ring.buf| && y.ring.buf[at..at + |row|] == row
         case Copied(staged) => staged == row
  {
    hide Feeds, LaneOk;
    var x := s.nodes[n];
    var p := t.nodes[n].rows[x.pc.r];
    assert ValidPort(t, p);
    assert RowOk(t, s, n, x.pc.r);
    LastRowLength(t, s, n, x.pc.r);
    assert SlotOk(t, s, n, |x.log| - 1);
  }

  lemma {:induction false} RowPublished(t: Topology, s: State, n: nat)
    requires ValidTopology(t) && Inv(t, s) && n < |t.nodes| && ProducerCanStep(t, s, n)
    requires s.nodes[n].pc.PublishRow? && s.nodes[n].pc.r < |t.nodes[n].rows|
    ensures ValidNode(t, n) && s.nodes[n].log != []
    ensures var x, p := s.nodes[n], t.nodes[n].rows[s.nodes[n].pc.r];
      var y, y' := s.rx[p], ProducerStep(t, s, n).rx[p];
      var row := LastRow(x.log, x.pc.r);
      && |row| == x.pc.count > 0
      && y' == y.(ring := y'.ring, stream := y.stream + row, slots := y.slots + [x.pc.count])
      && Represents(y'.ring, y'.stream) && |y'.ring.buf| == |y.ring.buf|
      && y'.ring.size == y.ring.size + x.pc.count <= t.ports[p].highWater
      && y'.ring.next == y.ring.next + x.pc.count
      && ProducerStep(t, s, n) == SetRx(SetNode(s, n, x.(pc := PublishRow(x.pc.r + 1, x.pc.count))), p, y')
  {
    var x := s.nodes[n];
    assert ValidNode(t, n);
    assert NodeOk(t, s, n);
    assert RxOk(t, s, t.nodes[n].rows[x.pc.r]);
    RowReady(t, s, n);
    var p := t.nodes[n].rows[x.pc.r];
    hide Inv, NodeOk, RxOk, Feeds, Represents, Commit, Push;
    PublishedRing(t.ports[p], s.rx[p], x.outs[x.pc.r], LastRow(x.log, x.pc.r));
  }

  /** The step on row r, seen from the REP side. */
  lemma {:induction false} PublishedLocal(t: Topology, s: State, n: nat, q: nat, y': RxSide)
    requires ValidTopology(t) && Inv(t, s) && n < |t.nodes| && ProducerCanStep(t, s, n)
    requires s.nodes[n].pc.PublishRow? && s.nodes[n].pc.r < |t.nodes[n].rows| && q == t.nodes[n].rows[s.nodes[n].pc.r] < |t.ports|
    requires y' == ProducerStep(t, s, n).rx[q]
    ensures RxLocal(t.ports[q], y', s.nodes[n].log, |s.nodes[n].log|, s.nodes[n].pc.r)
  {
    var x := s.nodes[n];
    RowPublished(t, s, n);
    assert ValidPort(t, q) && RxOk(t, s, q) && NodeOk(t, s, n);
    LogIsTiled(t, s, n, x.pc.r);
    assert Tile(x.log, x.pc.r, |x.log| - 1);
    hide Inv, RowOk, SlotOk, RxRing, RxQueue, RxSent, RxPc, ProducerStep, LaneOk, TxOk, Feeds, WiredPort, Represents;
    SlotPublished(t.ports[q], s.rx[q], x.log, x.pc.r, y');
  }

  lemma {:induction false} PublishedOwn(t: Topology, s: State, n: nat)
    requires ValidTopology(t) && Inv(t, s) && n < |t.nodes| && ProducerCanStep(t, s, n)
    requires s.nodes[n].pc.PublishRow? && s.nodes[n].pc.r < |t.nodes[n].rows|
    ensures ValidNode(t, n) && RxOk(t, ProducerStep(t, s, n), t.nodes[n].rows[s.nodes[n].pc.r])
  {
    var q := t.nodes[n].rows[s.nodes[n].pc.r];
    RowPublished(t, s, n);
    assert ValidPort(t, q);
    PublishedLocal(t, s, n, q, ProducerStep(t, s, n).rx[q]);
    hide Inv, RxLocal, ProducerStep, Feeds, WiredPort, Represents;
  }

  lemma {:induction false} PublishRx(t: Topology, s: State, n: nat, q: nat)
    requires ValidTopology(t) && Inv(t, s) && n < |t.nodes| && ProducerCanStep(t, s, n)
    requires s.nodes[n].pc.PublishRow? && s.nodes[n].pc.r < |t.nodes[n].rows|
    requires q < |t.ports| && t.ports[q].row >= 0 && t.ports[q].node == n
    ensures RxOk(t, ProducerStep(t, s, n), q)
  {
    var s' := ProducerStep(t, s, n);
    var x := s.nodes[n];
    RowPublished(t, s, n);
    var r := x.pc.r;
    assert ValidPort(t, q);
    assert RxOk(t, s, q);
    if q != t.nodes[n].rows[r] {
      RxKept(t, s, s', q);
    } else {
      PublishedOwn(t, s, n);
    }
  }

  lemma {:induction false} PublishRowKeeps(t: Topology, s: State, n: nat)
    requires ValidTopology(t) && Inv(t, s) && n < |t.nodes| && ProducerCanStep(t, s, n)
    requires s.nodes[n].pc.PublishRow? && s.nodes[n].pc.r < |t.nodes[n].rows|
    ensures Inv(t, ProducerStep(t, s, n))
  {
    var s' := ProducerStep(t, s, n);
    var x, x' := s.nodes[n], s'.nodes[n];
    RowPublished(t, s, n);
    assert NodeOk(t, s, n);
    var p := t.nodes[n].rows[x.pc.r];
    assert NodeLocal(t.nodes[n], x');
    assert RowOk(t, s', n, x.pc.r) by {
      assert ValidPort(t, p);
      assert RowOk(t, s, n, x.pc.r);
    }
    RowTurn(t, s, s', n, x.pc.r);
    forall q | 0 <= q < |t.ports| && t.ports[q].row >= 0 && t.ports[q].node == n ensures RxOk(t, s', q) {
      PublishRx(t, s, n, q);
    }
    ProducerTurn(t, s, s', n);
  }

  lemma {:induction false} PublishEndKeeps(t: Topology, s: State, n: nat)
    requires ValidTopology(t) && Inv(t, s) && n < |t.nodes| && ProducerCanStep(t, s, n)
    requires s.nodes[n].pc.PublishRow? && s.nodes[n].pc.r >= |t.nodes[n].rows|
    ensures Inv(t, ProducerStep(t, s, n))
  {
    var s' := ProducerStep(t, s, n);
    var x' := s'.nodes[n];
    assert ValidNode(t, n);
    assert NodeOk(t, s, n);
    assert NodeLocal(t.nodes[n], x');
    forall j | 0 <= j < |t.nodes[n].lanes| ensures LaneOk(t, s', n, j) {
      LaneIdle(t, s, n, j, x');
    }
    forall r | 0 <= r < |t.nodes[n].rows| ensures RowOk(t, s', n, r) {
      RowIdle(t, s, n, r, x');
    }
    LocalTurn(t, s, n, x');
  }

  lemma {:induction false} ProducerKeeps(t: Topology, s: State, n: nat)
    requires ValidTopology(t) && Inv(t, s) && n < |t.nodes| && ProducerCanStep(t, s, n)
    ensures Inv(t, ProducerStep(t, s, n))
  {
    match s.nodes[n].pc {
      case RoomTop => RoomKeeps(t, s, n);
      case RoomCheck(_, _, _) => RoomKeeps(t, s, n);
      case RoomSleep(_) => RoomKeeps(t, s, n);
      case AlignLane(_, _) => AlignKeeps(t, s, n);
      case DataTop(_) => DataKeeps(t, s, n);
      case DataCheck(_, _, _, _) => DataKeeps(t, s, n);
      case DataSleep(_, _) => DataKeeps(t, s, n);
      case ReadLane(k, _) =>
        if k < |t.nodes[n].lanes| { ReadLaneKeeps(t, s, n); } else { ReadEndKeeps(t, s, n); }
      case ReserveRow(r, _) =>
        if r < |t.nodes[n].rows| { ReserveRowKeeps(t, s, n); } else { ReserveEndKeeps(t, s, n); }
      case ShapeLane(k, _) =>
        if k < |t.nodes[n].lanes| { ShapeLaneKeeps(t, s, n); } else { ShapeEndKeeps(t, s, n); }
      case FillRow(_, _) => FillKeeps(t, s, n);
      case AdvanceLane(_, _) => AdvanceKeeps(t, s, n);
      case NotifySources(_, _) => NotifySourcesKeeps(t, s, n);
      case PublishRow(r, _) =>
        if r < |t.nodes[n].rows| { PublishRowKeeps(t, s, n); } else { PublishEndKeeps(t, s, n); }
      case NotifyRows(_) => NotifyRowsKeeps(t, s, n);
    }
  }

  // ------------------------------------------------------------------------
  // Every reachable state
  // ------------------------------------------------------------------------

  lemma {:induction false} NextKeeps(t: Topology, s: State, a: Action)
    requires ValidTopology(t) && Inv(t, s) && Enabled(t, s, a)
    ensures Inv(t, Next(t, s, a))
  {
    match a
    case APuller(p) => PullerKeeps(t, s, p);
    case AProducer(n) => ProducerKeeps(t, s, n);
    case ARep(p) => RepKeeps(t, s, p);
    case ARadioReply(p, message) => RadioReplyKeeps(t, s, p, message);
    case ARadioRequest(p) => RadioRequestKeeps(t, s, p);
  }

  lemma {:induction false} ReachableInv(t: Topology, actions: seq<Action>, s: State)
    requires ValidTopology(t) && Reaches(t, actions, s)
    ensures Inv(t, s)
    decreases |actions|
  {
    if actions == [] {
      InitInv(t);
    } else {
      var last := actions[|actions| - 1];
      var before: State :|
        Reaches(t, actions[..|actions| - 1], before) && Shaped(t, before) &&
        Enabled(t, before, last) && s == Next(t, before, last);
      ReachableInv(t, actions[..|actions| - 1], before);
      NextKeeps(t, before, last);
    }
  }
}
