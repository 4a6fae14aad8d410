/** Zero-copy refines copying: for every run with windows viewed and rows written
    in place there is a run of the copying relay with the same radio traffic that
    cuts the same slots and sends the same replies. */
module RelayCopies {
  import opened Complex
  import opened Modular
  import opened RingModel
  import opened Relay
  import opened RelaySafety
  import opened RelaySteps
  import opened RelayProducer
  import opened RelayProgress
  import opened RelayTheorems

  function Copying(t: Topology): Topology { t.(fewerCopies := false, directRows := false) }

  /** The same producer but for what it holds of its slot. */
  ghost predicate SameNode(x: Producer, z: Producer)
  {
    z == x.(windows := z.windows, outs := z.outs) && |z.windows| == |x.windows| && |z.outs| == |x.outs| &&
    forall k :: 0 <= k < |z.outs| ==> z.outs[k].Copied?
  }

  /** Ring positions agree.  The copying worker pops when the other, which has
      sent from the ring, releases: so it is one reply behind from the send on. */
  ghost predicate SameRx(y: RxSide, z: RxSide)
  {
    SamePlace(y, z) &&
    match y.pc
    case RepRelease(_) => z.pc.RepPop? && |y.wire| > 0 && z.wire == y.wire[..|y.wire| - 1]
    case RepNotify => z.pc.RepWakeNode? && z.wire + [z.pc.reply] == y.wire
    case RepSend(held, _) => z.wire == y.wire && if held.InRing? then z.pc.RepPop? else z.pc == y.pc
    case _ => z.wire == y.wire && z.pc == y.pc
  }

  ghost predicate SamePlace(y: RxSide, z: RxSide)
  {
    SameRing(y.ring, z.ring) && z.stream == y.stream && z.gen == y.gen && z.slots == y.slots && z.cursor == y.cursor
  }

  ghost predicate SameRing(a: Ring, b: Ring) { b.next == a.next && b.size == a.size && |b.buf| == |a.buf| }

  /** r is s as the copying relay has it. */
  ghost predicate Matches(s: State, r: State)
  {
    r.tx == s.tx && |r.nodes| == |s.nodes| && |r.rx| == |s.rx| &&
    (forall n :: 0 <= n < |s.nodes| ==> SameNode(s.nodes[n], r.nodes[n])) &&
    (forall p :: 0 <= p < |s.rx| ==> SameRx(s.rx[p], r.rx[p]))
  }

  lemma {:induction false} FeedsSame(t: Topology, p: nat, n: nat)
    ensures Feeds(Copying(t), p, n) <==> Feeds(t, p, n)
  {
    if n < |t.nodes| {
      assert forall j :: 0 <= j < |t.nodes[n].lanes| ==> Copying(t).nodes[n].lanes[j].src == t.nodes[n].lanes[j].src;
    }
  }

  lemma {:induction false} CopyingPort(t: Topology, p: nat)
    requires p < |t.ports| && WiredPort(t, p)
    ensures WiredPort(Copying(t), p)
  {
    hide Feeds;
    forall n: nat {:trigger n in t.ports[p].consumers}
      ensures n in t.ports[p].consumers <==> Feeds(Copying(t), p, n)
    {
      FeedsSame(t, p, n);
    }
  }

  lemma {:induction false} CopyingNode(t: Topology, n: nat)
    requires n < |t.nodes| && ValidNode(t, n)
    ensures ValidNode(Copying(t), n)
  {
    hide Feeds;
    forall p: nat {:trigger p in t.nodes[n].sources}
      ensures p in t.nodes[n].sources <==> Feeds(Copying(t), p, n)
    {
      FeedsSame(t, p, n);
    }
  }

  lemma {:induction false} CopyingValid(t: Topology)
    requires ValidTopology(t)
    ensures ValidTopology(Copying(t))
  {
    hide Feeds, WiredPort, ValidNode;
    var u := Copying(t);
    forall p: nat | p < |u.ports|
      ensures ValidPort(u, p) && WiredPort(u, p)
    {
      assert ValidPort(t, p);
      CopyingPort(t, p);
    }
    forall n: nat | n < |u.nodes|
      ensures ValidNode(u, n)
    {
      CopyingNode(t, n);
    }
    assert u.links == t.links && u.nodes == t.nodes && u.ports == t.ports;
    assert Wired(u);
  }

  // ------------------------------------------------------------------------
  // Pullers and radios
  // ------------------------------------------------------------------------

  lemma {:induction false} WokenMatches(s: State, r: State, n: nat)
    requires Matches(s, r)
    ensures Matches(WakeNode(s, n), WakeNode(r, n)) && Matches(WakePuller(s, n), WakePuller(r, n)) &&
            Matches(WakeRep(s, n), WakeRep(r, n))
  {
    assert n < |s.nodes| ==> SameNode(s.nodes[n], r.nodes[n]);
    assert n < |s.rx| ==> SameRx(s.rx[n], r.rx[n]);
  }

  lemma {:induction false} PullerMatches(t: Topology, s: State, r: State, p: nat)
    requires Shaped(t, s) && Shaped(Copying(t), r) && Matches(s, r) && p < |t.ports| && PullerCanStep(t, s, p)
    ensures PullerCanStep(Copying(t), r, p) && Matches(PullerStep(t, s, p), PullerStep(Copying(t), r, p))
  {
    hide Release, CanPush, Push, SameRx;
    var x := s.tx[p];
    if x.pc.PullNotify? && x.pc.todo != [] {
      var next := x.(pc := PullNotify(x.pc.todo[1..]));
      assert Matches(SetTx(s, p, next), SetTx(r, p, next));
      WokenMatches(SetTx(s, p, next), SetTx(r, p, next), x.pc.todo[0]);
    } else if x.pc.PullScan? && x.pc.i < |t.links| {
      assert forall n :: 0 <= n < |s.nodes| ==> SameNode(s.nodes[n], r.nodes[n]);
    }
  }

  lemma {:induction false} RadioMatches(t: Topology, s: State, r: State, a: Action)
    requires Wired(t) && Wired(Copying(t)) && Shaped(t, s) && Shaped(Copying(t), r) && Matches(s, r)
    requires Enabled(t, s, a) && IsRadio(a)
    ensures Enabled(Copying(t), r, a) && Matches(Next(t, s, a), Next(Copying(t), r, a))
  {
    hide SameNode;
    if a.ARadioRequest? {
      assert SameRx(s.rx[a.p], r.rx[a.p]);
    }
  }

  // ------------------------------------------------------------------------
  // Producers
  // ------------------------------------------------------------------------

  /** A step that changes only node n, to matching contents. */
  lemma {:induction false} NodeMatches(s: State, r: State, n: nat, x: Producer, z: Producer)
    requires Matches(s, r) && n < |s.nodes| && SameNode(x, z)
    ensures Matches(SetNode(s, n, x), SetNode(r, n, z))
  {
    hide SameNode, SameRx;
  }

  lemma {:induction false} HeadroomMatches(port: Port, y: RxSide, z: RxSide)
    requires SameRx(y, z)
    ensures Headroom(port, z.ring) == Headroom(port, y.ring)
  {
  }

  lemma {:induction false} RoomNode(t: Topology, s: State, r: State, n: nat)
    requires Wired(t) && Wired(Copying(t)) && Shaped(t, s) && Shaped(Copying(t), r) && n < |t.nodes|
    requires r.tx == s.tx && SameNode(s.nodes[n], r.nodes[n])
    requires forall p: nat :: p < |t.ports| ==> Headroom(t.ports[p], r.rx[p].ring) == Headroom(t.ports[p], s.rx[p].ring)
    requires s.nodes[n].pc.RoomTop? || s.nodes[n].pc.RoomCheck? || s.nodes[n].pc.RoomSleep? || s.nodes[n].pc.AlignLane?
    ensures SameNode(WindowStep(t, s, n).nodes[n], WindowStep(Copying(t), r, n).nodes[n])
  {
    hide Headroom, First, Feeds;
    assert ValidNode(t, n);
  }

  lemma {:induction false} DataNode(t: Topology, s: State, r: State, n: nat)
    requires Wired(t) && Wired(Copying(t)) && Shaped(t, s) && Shaped(Copying(t), r) && n < |t.nodes|
    requires r.tx == s.tx && SameNode(s.nodes[n], r.nodes[n])
    requires !(s.nodes[n].pc.RoomTop? || s.nodes[n].pc.RoomCheck? || s.nodes[n].pc.RoomSleep? || s.nodes[n].pc.AlignLane?)
    ensures SameNode(WindowStep(t, s, n).nodes[n], WindowStep(Copying(t), r, n).nodes[n])
  {
    hide Headroom, First, Feeds;
    assert ValidNode(t, n);
  }

  lemma {:induction false} WindowOnly(t: Topology, s: State, n: nat)
    requires Wired(t) && Shaped(t, s) && n < |t.nodes|
    ensures WindowStep(t, s, n) == SetNode(s, n, WindowStep(t, s, n).nodes[n])
  {
    hide Headroom, First, Feeds;
  }

  lemma {:induction false} WindowMatches(t: Topology, s: State, r: State, n: nat)
    requires ValidTopology(t) && Wired(Copying(t)) && Shaped(t, s) && Shaped(Copying(t), r) && Matches(s, r) && n < |t.nodes|
    ensures Matches(WindowStep(t, s, n), WindowStep(Copying(t), r, n))
  {
    forall p: nat | p < |t.ports|
      ensures Headroom(t.ports[p], r.rx[p].ring) == Headroom(t.ports[p], s.rx[p].ring)
    {
      HeadroomMatches(t.ports[p], s.rx[p], r.rx[p]);
    }
    assert SameNode(s.nodes[n], r.nodes[n]);
    hide Headroom, SameRx, SameNode, WindowStep;
    var pc := s.nodes[n].pc;
    if pc.RoomTop? || pc.RoomCheck? || pc.RoomSleep? || pc.AlignLane? {
      RoomNode(t, s, r, n);
    } else {
      DataNode(t, s, r, n);
    }
    WindowOnly(t, s, n);
    WindowOnly(Copying(t), r, n);
    NodeMatches(s, r, n, WindowStep(t, s, n).nodes[n], WindowStep(Copying(t), r, n).nodes[n]);
  }

  /** Held windows of the same range, once copied out, are the same. */
  lemma {:induction false} WindowsAgree(a: Held, b: Held, x: TxSide, cursor: nat, count: nat)
    requires |x.ring.buf| > 0 && a.Copied? && b.Copied? && HeldOk(a, x, cursor, count) && HeldOk(b, x, cursor, count)
    ensures a == b
  {
    SameWindow(x.stream, x.stream, a.samples, b.samples, cursor);
  }

  lemma {:induction false} ReadNode(t: Topology, s: State, r: State, n: nat)
    requires Wired(t) && Wired(Copying(t)) && Shaped(t, s) && Shaped(Copying(t), r) && n < |t.nodes|
    requires r.tx == s.tx && SameNode(s.nodes[n], r.nodes[n])
    requires s.nodes[n].pc.ReadLane? || s.nodes[n].pc.ReserveRow? || s.nodes[n].pc.ShapeLane?
    requires s.nodes[n].pc.ShapeLane? ==> s.nodes[n].pc.k < |t.nodes[n].lanes| == |s.nodes[n].windows|
    requires !ProducerStep(t, s, n).nodes[n].pc.ProducerFailed? && !ProducerStep(Copying(t), r, n).nodes[n].pc.ProducerFailed?
    ensures SameNode(ProducerStep(t, s, n).nodes[n], ProducerStep(Copying(t), r, n).nodes[n])
    ensures ProducerStep(t, s, n) == SetNode(s, n, ProducerStep(t, s, n).nodes[n])
    ensures ProducerStep(Copying(t), r, n) == SetNode(r, n, ProducerStep(Copying(t), r, n).nodes[n])
  {
    hide View, CanRead, Read, Reserve, Cells, Rows, Contents, End, Feeds, WiredPort;
  }

  lemma {:induction false} ReadSucceeds(t: Topology, s: State, n: nat)
    requires ValidTopology(t) && Inv(t, s) && n < |t.nodes| && ProducerCanStep(t, s, n)
    ensures !ProducerStep(t, s, n).nodes[n].pc.ProducerFailed?
    ensures s.nodes[n].pc.ShapeLane? ==> |s.nodes[n].windows| == |t.nodes[n].lanes|
  {
    hide ProducerStep, LaneOk, RowOk, SlotOk, Feeds, WiredPort;
    ProducerKeeps(t, s, n);
    assert NodeOk(t, s, n) && NodeOk(t, ProducerStep(t, s, n), n);
  }

  lemma {:induction false} ReadMatches(t: Topology, s: State, r: State, n: nat)
    requires ValidTopology(t) && ValidTopology(Copying(t)) && Inv(t, s) && Inv(Copying(t), r) && Matches(s, r) && n < |t.nodes|
    requires s.nodes[n].pc.ReadLane? || s.nodes[n].pc.ReserveRow? || s.nodes[n].pc.ShapeLane?
    requires s.nodes[n].pc.ShapeLane? ==> s.nodes[n].pc.k < |t.nodes[n].lanes|
    ensures Matches(ProducerStep(t, s, n), ProducerStep(Copying(t), r, n))
  {
    var u := Copying(t);
    assert Shaped(t, s) && Shaped(u, r) && SameNode(s.nodes[n], r.nodes[n]);
    hide ProducerStep, Inv, Feeds, WiredPort;
    ReadSucceeds(t, s, n);
    ReadSucceeds(u, r, n);
    ReadNode(t, s, r, n);
    hide Matches, SameNode;
    NodeMatches(s, r, n, ProducerStep(t, s, n).nodes[n], ProducerStep(u, r, n).nodes[n]);
  }

  lemma {:induction false} ContentsAgree(t: Topology, s: State, r: State, n: nat)
    requires ValidTopology(t) && ValidTopology(Copying(t)) && Inv(t, s) && Inv(Copying(t), r) && Matches(s, r) && n < |t.nodes|
    requires s.nodes[n].pc.ShapeLane? && s.nodes[n].pc.k >= |t.nodes[n].lanes|
    ensures Contents(s.nodes[n].windows) == Contents(r.nodes[n].windows)
  {
    var u, x, z := Copying(t), s.nodes[n], r.nodes[n];
    assert NodeOk(t, s, n) && NodeOk(u, r, n) && SameNode(x, z) && ValidNode(t, n);
    forall j: nat | j < |x.windows|
      ensures x.windows[j] == z.windows[j]
    {
      assert LaneOk(t, s, n, j) && LaneOk(u, r, n, j);
      WindowsAgree(x.windows[j], z.windows[j], s.tx[t.nodes[n].lanes[j].src], x.cursors[j], x.pc.count);
    }
  }

  /** The slot is the same, whichever way its windows were held. */
  lemma {:induction false} SlotMatches(t: Topology, s: State, r: State, n: nat)
    requires ValidTopology(t) && ValidTopology(Copying(t)) && Inv(t, s) && Inv(Copying(t), r) && Matches(s, r) && n < |t.nodes|
    requires s.nodes[n].pc.ShapeLane? && s.nodes[n].pc.k >= |t.nodes[n].lanes|
    ensures Matches(ProducerStep(t, s, n), ProducerStep(Copying(t), r, n))
  {
    var u, x, z := Copying(t), s.nodes[n], r.nodes[n];
    ContentsAgree(t, s, r, n);
    var s', r' := ProducerStep(t, s, n), ProducerStep(u, r, n);
    assert SameNode(x, z);
    hide Contents, Inv, SameRx, End;
    var windows := Contents(x.windows);
    assert Rows(t, n, x.log, windows, x.pc.count) == Rows(u, n, x.log, windows, x.pc.count);
    NodeMatches(s, r, n, s'.nodes[n], r'.nodes[n]);
  }

  lemma {:induction false} FillMatches(t: Topology, s: State, r: State, n: nat)
    requires ValidTopology(t) && ValidTopology(Copying(t)) && Inv(t, s) && Inv(Copying(t), r) && Matches(s, r) && n < |t.nodes|
    requires s.nodes[n].pc.FillRow?
    ensures Matches(ProducerStep(t, s, n), ProducerStep(Copying(t), r, n))
  {
    var u, x, z := Copying(t), s.nodes[n], r.nodes[n];
    assert NodeOk(t, s, n) && NodeOk(u, r, n) && SameNode(x, z);
    hide Inv, Feeds, WiredPort, LaneOk, RowOk, SlotOk, NodeOk;
    FillNode(t, s, r, n);
    forall p: nat | p < |s.rx|
      ensures SameRx(ProducerStep(t, s, n).rx[p], ProducerStep(u, r, n).rx[p])
    {
      assert SameRx(s.rx[p], r.rx[p]);
      FillRx(t, s, n, p);
      FillRx(u, r, n, p);
    }
    hide ProducerStep, SameRx, SameNode;
  }

  /** A fill changes no ring's place and nothing else of a row. */
  lemma {:induction false} FillRx(t: Topology, s: State, n: nat, p: nat)
    requires Wired(t) && Shaped(t, s) && n < |t.nodes| && s.nodes[n].pc.FillRow? && p < |t.ports|
    ensures var y, y' := s.rx[p], ProducerStep(t, s, n).rx[p]; SameRing(y.ring, y'.ring) && y' == y.(ring := y'.ring)
  {
    hide LastRow, Feeds, WiredPort;
    assert ValidNode(t, n);
  }

  lemma {:induction false} FillNode(t: Topology, s: State, r: State, n: nat)
    requires Wired(t) && Wired(Copying(t)) && Shaped(t, s) && Shaped(Copying(t), r) && Matches(s, r) && n < |t.nodes|
    requires s.nodes[n].pc.FillRow? && SameNode(s.nodes[n], r.nodes[n])
    ensures var s', r' := ProducerStep(t, s, n), ProducerStep(Copying(t), r, n);
            s'.tx == s.tx && r'.tx == r.tx && |s'.rx| == |r'.rx| && |s'.nodes| == |r'.nodes| &&
            forall k :: 0 <= k < |s'.nodes| ==> SameNode(s'.nodes[k], r'.nodes[k])
  {
    hide LastRow, Feeds, WiredPort, SameRx, Fill;
    assert ValidNode(t, n);
  }

  /** What a publication adds to a row, whichever way it is written. */
  lemma {:induction false} PublishedPlace(t: Topology, s: State, n: nat) returns (p: nat, row: seq<IqSample>)
    requires ValidTopology(t) && Inv(t, s) && n < |t.nodes| && s.nodes[n].pc.PublishRow? && s.nodes[n].pc.r < |t.nodes[n].rows|
    ensures p == t.nodes[n].rows[s.nodes[n].pc.r] < |t.ports| && row == LastRow(s.nodes[n].log, s.nodes[n].pc.r)
    ensures var x, y, s' := s.nodes[n], s.rx[p], ProducerStep(t, s, n);
            var y' := s'.rx[p];
            s' == SetRx(SetNode(s, n, x.(pc := PublishRow(x.pc.r + 1, x.pc.count))), p, y') &&
            y' == y.(ring := y'.ring, stream := y.stream + row, slots := y.slots + [x.pc.count]) &&
            |y'.ring.buf| == |y.ring.buf| && y'.ring.size == y.ring.size + x.pc.count && y'.ring.next == y.ring.next + x.pc.count
  {
    RowPublished(t, s, n);
    p, row := t.nodes[n].rows[s.nodes[n].pc.r], LastRow(s.nodes[n].log, s.nodes[n].pc.r);
    hide Inv, ProducerStep, LastRow, Represents, ValidTopology;
  }

  lemma {:induction false} PublishedAlike(y: RxSide, z: RxSide, y': RxSide, z': RxSide, row: seq<IqSample>, count: nat)
    requires SameRx(y, z)
    requires y' == y.(ring := y'.ring, stream := y.stream + row, slots := y.slots + [count])
    requires z' == z.(ring := z'.ring, stream := z.stream + row, slots := z.slots + [count])
    requires |y'.ring.buf| == |y.ring.buf| && y'.ring.size == y.ring.size + count && y'.ring.next == y.ring.next + count
    requires |z'.ring.buf| == |z.ring.buf| && z'.ring.size == z.ring.size + count && z'.ring.next == z.ring.next + count
    ensures SameRx(y', z')
  {
  }

  lemma {:induction false} PublishMatches(t: Topology, s: State, r: State, n: nat)
    requires ValidTopology(t) && ValidTopology(Copying(t)) && Inv(t, s) && Inv(Copying(t), r) && Matches(s, r) && n < |t.nodes|
    requires s.nodes[n].pc.PublishRow? && s.nodes[n].pc.r < |t.nodes[n].rows|
    ensures Matches(ProducerStep(t, s, n), ProducerStep(Copying(t), r, n))
  {
    hide Inv, ProducerStep, LastRow, SameRx, Matches, SameNode, Feeds, WiredPort, ValidNode;
    MatchFacts(t, s, r, n);
    var u, x, z := Copying(t), s.nodes[n], r.nodes[n];
    var p, row := PublishedPlace(t, s, n);
    var q, same := PublishedPlace(u, r, n);
    var pc := PublishRow(x.pc.r + 1, x.pc.count);
    NodeMatches(s, r, n, x.(pc := pc), z.(pc := pc));
    PublishedAlike(s.rx[p], r.rx[p], ProducerStep(t, s, n).rx[p], ProducerStep(u, r, n).rx[p], row, x.pc.count);
    RxMatches(SetNode(s, n, x.(pc := pc)), SetNode(r, n, z.(pc := pc)), p, ProducerStep(t, s, n).rx[p], ProducerStep(u, r, n).rx[p]);
  }

  lemma {:induction false} MatchFacts(t: Topology, s: State, r: State, n: nat)
    requires ValidTopology(t) && ValidTopology(Copying(t)) && Inv(t, s) && Inv(Copying(t), r) && Matches(s, r) && n < |t.nodes|
    requires s.nodes[n].pc.PublishRow?
    ensures Shaped(t, s) && Shaped(Copying(t), r) && ProducerCanStep(t, s, n) && ProducerCanStep(Copying(t), r, n)
    ensures r.nodes[n].pc == s.nodes[n].pc && r.nodes[n].log == s.nodes[n].log
    ensures SameNode(s.nodes[n].(pc := PublishRow(s.nodes[n].pc.r + 1, s.nodes[n].pc.count)),
                     r.nodes[n].(pc := PublishRow(s.nodes[n].pc.r + 1, s.nodes[n].pc.count)))
    ensures forall p: nat :: p < |t.ports| ==> SameRx(s.rx[p], r.rx[p])
  {
    assert Shaped(t, s) && Shaped(Copying(t), r);
    hide Inv, ValidTopology, SameRx;
    assert SameNode(s.nodes[n], r.nodes[n]);
  }

  lemma {:induction false} AdvanceMatches(t: Topology, s: State, r: State, n: nat)
    requires ValidTopology(t) && Wired(Copying(t)) && Shaped(t, s) && Shaped(Copying(t), r) && Matches(s, r) && n < |t.nodes|
    requires s.nodes[n].pc.AdvanceLane? || (s.nodes[n].pc.PublishRow? && s.nodes[n].pc.r >= |t.nodes[n].rows|)
    ensures Matches(ProducerStep(t, s, n), ProducerStep(Copying(t), r, n))
  {
    assert SameNode(s.nodes[n], r.nodes[n]);
    hide SameRx, Matches, ValidTopology;
    NodeMatches(s, r, n, ProducerStep(t, s, n).nodes[n], ProducerStep(Copying(t), r, n).nodes[n]);
  }

  /** A notify takes the next sleeper off the list and wakes it. */
  lemma {:induction false} NotifyStep(t: Topology, s: State, n: nat)
    requires Wired(t) && Shaped(t, s) && n < |t.nodes| && (s.nodes[n].pc.NotifySources? || s.nodes[n].pc.NotifyRows?)
    ensures ProducerStep(t, s, n) ==
            var x := s.nodes[n];
            if x.pc.todo == [] then SetNode(s, n, x.(pc := if x.pc.NotifyRows? then RoomTop else PublishRow(0, x.pc.count)))
            else
              var own := SetNode(s, n, x.(pc := x.pc.(todo := x.pc.todo[1..])));
              if x.pc.NotifyRows? then WakeRep(own, x.pc.todo[0]) else WakePuller(own, x.pc.todo[0])
  {
    hide WakePuller, WakeRep, Feeds, WiredPort;
  }

  lemma {:induction false} NotifyMatches(t: Topology, s: State, r: State, n: nat)
    requires ValidTopology(t) && Wired(Copying(t)) && Shaped(t, s) && Shaped(Copying(t), r) && Matches(s, r) && n < |t.nodes|
    requires s.nodes[n].pc.NotifySources? || s.nodes[n].pc.NotifyRows?
    ensures Matches(ProducerStep(t, s, n), ProducerStep(Copying(t), r, n))
  {
    var x, z := s.nodes[n], r.nodes[n];
    assert SameNode(x, z);
    hide SameRx, Matches, WakePuller, WakeRep, Feeds, WiredPort, ProducerStep;
    NotifyStep(t, s, n);
    NotifyStep(Copying(t), r, n);
    var pc := if x.pc.todo == [] then (if x.pc.NotifyRows? then RoomTop else PublishRow(0, x.pc.count))
              else x.pc.(todo := x.pc.todo[1..]);
    NodeMatches(s, r, n, x.(pc := pc), z.(pc := pc));
    if x.pc.todo != [] {
      WokenMatches(SetNode(s, n, x.(pc := pc)), SetNode(r, n, z.(pc := pc)), x.pc.todo[0]);
    }
  }

  lemma {:induction false} ProducerMatches(t: Topology, s: State, r: State, n: nat)
    requires ValidTopology(t) && ValidTopology(Copying(t)) && Inv(t, s) && Inv(Copying(t), r) && Matches(s, r)
    requires n < |t.nodes| && ProducerCanStep(t, s, n)
    ensures ProducerCanStep(Copying(t), r, n) && Matches(ProducerStep(t, s, n), ProducerStep(Copying(t), r, n))
  {
    var pc := s.nodes[n].pc;
    assert SameNode(s.nodes[n], r.nodes[n]);
    assert NodeOk(t, s, n);
    hide Inv, Matches, SameNode;
    if pc.ShapeLane? && pc.k >= |t.nodes[n].lanes| {
      SlotMatches(t, s, r, n);
    } else if pc.ReadLane? || pc.ReserveRow? || pc.ShapeLane? {
      ReadMatches(t, s, r, n);
    } else if pc.FillRow? {
      FillMatches(t, s, r, n);
    } else if pc.PublishRow? && pc.r < |t.nodes[n].rows| {
      PublishMatches(t, s, r, n);
    } else if pc.AdvanceLane? || pc.PublishRow? {
      AdvanceMatches(t, s, r, n);
    } else if pc.NotifySources? || pc.NotifyRows? {
      NotifyMatches(t, s, r, n);
    } else {
      WindowMatches(t, s, r, n);
    }
  }

  // ------------------------------------------------------------------------
  // REP workers
  // ------------------------------------------------------------------------

  /** Only the worker changes, and a node may be woken. */
  lemma {:induction false} RxMatches(s: State, r: State, p: nat, y: RxSide, z: RxSide)
    requires Matches(s, r) && p < |s.rx| && SameRx(y, z)
    ensures Matches(SetRx(s, p, y), SetRx(r, p, z))
  {
    hide SameNode, SameRx;
  }

  /** The two workers step alike: neither holds a span of its ring. */
  lemma {:induction false} AlikeMatches(t: Topology, s: State, r: State, p: nat)
    requires ValidTopology(t) && ValidTopology(Copying(t)) && Inv(t, s) && Inv(Copying(t), r) && Matches(s, r) && p < |t.ports|
    requires RepCanStep(t, s, p)
    requires s.rx[p].pc.RepTop? || s.rx[p].pc.RepSleep? || s.rx[p].pc.RepWakeNode? || (s.rx[p].pc.RepSend? && s.rx[p].pc.held.Copied?)
    ensures RepCanStep(Copying(t), r, p) && Matches(RepStep(t, s, p), RepStep(Copying(t), r, p))
  {
    var u, y, z := Copying(t), s.rx[p], r.rx[p];
    assert SameRx(y, z);
    var s', r' := RepStep(t, s, p), RepStep(u, r, p);
    hide Inv, SameNode;
    if y.pc.RepWakeNode? {
      var pc := RepSend(Copied(y.pc.reply), |y.pc.reply|);
      RxMatches(s, r, p, y.(pc := pc), z.(pc := pc));
      WokenMatches(SetRx(s, p, y.(pc := pc)), SetRx(r, p, z.(pc := pc)), t.ports[p].node);
    } else {
      RxMatches(s, r, p, s'.rx[p], r'.rx[p]);
    }
  }

  /** The reply a pop copies out is the row of the slot it pops. */
  lemma {:induction false} PoppedReply(t: Topology, s: State, p: nat)
    requires ValidTopology(t) && Inv(t, s) && p < |t.ports| && RepCanStep(t, s, p) && s.rx[p].pc.RepPop? && s.rx[p].slots != []
    ensures ValidPort(t, p)
    ensures var y, y', log := s.rx[p], RepStep(t, s, p).rx[p], s.nodes[t.ports[p].node].log;
            !y'.pc.RepFailed? && |y.wire| < |log| && t.ports[p].row < |log[|y.wire|].rows| &&
            (y'.pc.RepWakeNode? ==> y'.pc.reply == log[|y.wire|].rows[t.ports[p].row])
  {
    var s' := RepStep(t, s, p);
    RepKeeps(t, s, p);
    assert ValidPort(t, p) && RxOk(t, s, p) && RxOk(t, s', p);
    hide Inv, View, CanRead, Read, DiscardBefore, Represents;
  }

  lemma {:induction false} DiscardMatches(a: Ring, b: Ring, sequence: nat)
    requires SameRing(a, b)
    ensures SameRing(DiscardBefore(a, sequence), DiscardBefore(b, sequence))
  {
    hide Wrap;
  }

  /** A pop: copied out in both, or viewed in one while the other stays. */
  lemma {:induction false} PopMatches(t: Topology, s: State, r: State, p: nat) returns (more: seq<Action>, r': State)
    requires ValidTopology(t) && ValidTopology(Copying(t)) && Inv(t, s) && Inv(Copying(t), r) && Matches(s, r) && p < |t.ports|
    requires RepCanStep(t, s, p) && s.rx[p].pc.RepPop?
    ensures Continues(Copying(t), r, more, r') && Matches(RepStep(t, s, p), r')
  {
    var u, y, z := Copying(t), s.rx[p], r.rx[p];
    assert SameRx(y, z);
    var s' := RepStep(t, s, p);
    if s'.rx[p].pc.RepSend? {
      more, r' := [], r;
      RxMatches(s, r, p, s'.rx[p], z);
    } else {
      r' := RepStep(u, r, p);
      more := OneMore(u, r, ARep(p));
      if y.slots != [] {
        PoppedReply(t, s, p);
        PoppedReply(u, r, p);
        DiscardMatches(y.ring, z.ring, y.cursor + y.slots[0]);
      }
      hide Inv, View, CanRead, Read, DiscardBefore, SameNode;
      RxMatches(s, r, p, s'.rx[p], r'.rx[p]);
    }
  }

  lemma {:induction false} OneMore(t: Topology, r: State, a: Action) returns (more: seq<Action>)
    requires Wired(t) && Shaped(t, r) && Enabled(t, r, a) && !IsRadio(a)
    ensures Continues(t, r, more, Next(t, r, a)) && more == [a]
  {
    more := [a];
    assert more[..0] == [];
    assert Continues(t, r, more[..0], r);
  }

  /** The reply last sent from the ring is the row of the slot still queued. */
  lemma {:induction false} LastReply(t: Topology, s: State, p: nat)
    requires ValidTopology(t) && Inv(t, s) && p < |t.ports| && RepCanStep(t, s, p) && s.rx[p].pc.RepRelease?
    ensures ValidPort(t, p)
    ensures var y, log := s.rx[p], s.nodes[t.ports[p].node].log;
            var m := |y.wire| - 1;
            |y.slots| > 0 && y.pc.take == y.slots[0] && 0 <= m < |log| &&
            t.ports[p].row < |log[m].rows| && y.wire[m] == log[m].rows[t.ports[p].row]
  {
    assert ValidPort(t, p) && RxOk(t, s, p);
  }

  lemma {:induction false} ReleasedRx(t: Topology, s: State, r: State, p: nat)
    requires ValidTopology(t) && ValidTopology(Copying(t)) && Inv(t, s) && Inv(Copying(t), r) && Matches(s, r) && p < |t.ports|
    requires RepCanStep(t, s, p) && s.rx[p].pc.RepRelease?
    ensures RepCanStep(Copying(t), r, p) && SameRx(RepStep(t, s, p).rx[p], RepStep(Copying(t), r, p).rx[p])
    ensures RepStep(Copying(t), r, p) == SetRx(r, p, RepStep(Copying(t), r, p).rx[p])
  {
    var u, y, z := Copying(t), s.rx[p], r.rx[p];
    assert SameRx(y, z);
    LastReply(t, s, p);
    assert SameNode(s.nodes[t.ports[p].node], r.nodes[t.ports[p].node]);
    PoppedReply(u, r, p);
    DiscardMatches(y.ring, z.ring, y.cursor + y.slots[0]);
    hide Inv, ValidTopology, View, CanRead, Read, DiscardBefore, SameNode, Represents, SameRing;
    var m := |y.wire| - 1;
    assert z.wire + [y.wire[m]] == y.wire;
  }

  /** The release of a reply that was sent from the ring is the other's pop. */
  lemma {:induction false} ReleaseMatches(t: Topology, s: State, r: State, p: nat) returns (more: seq<Action>, r': State)
    requires ValidTopology(t) && ValidTopology(Copying(t)) && Inv(t, s) && Inv(Copying(t), r) && Matches(s, r) && p < |t.ports|
    requires RepCanStep(t, s, p) && s.rx[p].pc.RepRelease?
    ensures Continues(Copying(t), r, more, r') && Matches(RepStep(t, s, p), r')
  {
    var u := Copying(t);
    ReleasedRx(t, s, r, p);
    r' := RepStep(u, r, p);
    more := OneMore(u, r, ARep(p));
    RxMatches(s, r, p, RepStep(t, s, p).rx[p], r'.rx[p]);
  }

  /** A wake and a send of the copying worker. */
  lemma {:induction false} TwoSteps(t: Topology, r: State, p: nat) returns (more: seq<Action>, r': State)
    requires Wired(t) && Shaped(t, r) && p < |t.ports| && t.ports[p].row >= 0 && r.rx[p].pc.RepWakeNode?
    ensures Continues(t, r, more, r')
    ensures r' == WakeNode(SetRx(r, p, r.rx[p].(wire := r.rx[p].wire + [r.rx[p].pc.reply], pc := RepRequest)), t.ports[p].node)
  {
    var r1 := RepStep(t, r, p);
    var first := OneMore(t, r, ARep(p));
    r' := RepStep(t, r1, p);
    more := first + [ARep(p)];
    assert more[..|more| - 1] == first;
  }

  /** The notify that ends a reply sent from the ring is the other's notify and
      send. */
  lemma {:induction false} EndMatches(t: Topology, s: State, r: State, p: nat) returns (more: seq<Action>, r': State)
    requires ValidTopology(t) && ValidTopology(Copying(t)) && Inv(t, s) && Inv(Copying(t), r) && Matches(s, r) && p < |t.ports|
    requires RepCanStep(t, s, p) && s.rx[p].pc.RepNotify?
    ensures Continues(Copying(t), r, more, r') && Matches(RepStep(t, s, p), r')
  {
    var y, z, n := s.rx[p], r.rx[p], t.ports[p].node;
    assert SameRx(y, z);
    more, r' := TwoSteps(Copying(t), r, p);
    hide Inv, SameNode, Matches, Continues;
    var y', z' := y.(pc := RepRequest), z.(wire := z.wire + [z.pc.reply], pc := RepRequest);
    RxMatches(s, r, p, y', z');
    WokenMatches(SetRx(s, p, y'), SetRx(r, p, z'), n);
  }

  lemma {:induction false} RepMatches(t: Topology, s: State, r: State, p: nat) returns (more: seq<Action>, r': State)
    requires ValidTopology(t) && ValidTopology(Copying(t)) && Inv(t, s) && Inv(Copying(t), r) && Matches(s, r) && p < |t.ports|
    requires RepCanStep(t, s, p)
    ensures Continues(Copying(t), r, more, r') && Matches(RepStep(t, s, p), r')
  {
    var u, y, z := Copying(t), s.rx[p], r.rx[p];
    if y.pc.RepPop? {
      more, r' := PopMatches(t, s, r, p);
    } else if y.pc.RepRelease? {
      more, r' := ReleaseMatches(t, s, r, p);
    } else if y.pc.RepNotify? {
      more, r' := EndMatches(t, s, r, p);
    } else if y.pc.RepSend? && y.pc.held.InRing? {
      more, r' := [], r;
      assert SameRx(y, z);
      RxMatches(s, r, p, RepStep(t, s, p).rx[p], z);
    } else {
      AlikeMatches(t, s, r, p);
      r' := RepStep(u, r, p);
      more := OneMore(u, r, ARep(p));
    }
  }

  // ------------------------------------------------------------------------
  // Whole runs
  // ------------------------------------------------------------------------

  /** What the radios do, in order. */
  function RadioPart(actions: seq<Action>): seq<Action>
  {
    if actions == [] then []
    else
      var last := actions[|actions| - 1];
      RadioPart(actions[..|actions| - 1]) + if IsRadio(last) then [last] else []
  }

  lemma {:induction false} RadioPartAppend(a: seq<Action>, b: seq<Action>)
    ensures RadioPart(a + b) == RadioPart(a) + RadioPart(b)
    decreases |b|
  {
    if b == [] {
      assert a + b == a;
    } else {
      RadioPartAppend(a, b[..|b| - 1]);
      assert (a + b)[..|a + b| - 1] == a + b[..|b| - 1];
    }
  }

  lemma {:induction false} NoRadio(t: Topology, s: State, own: seq<Action>, s': State)
    requires Wired(t) && Continues(t, s, own, s')
    ensures RadioPart(own) == []
    decreases |own|
  {
    hide Next, Enabled, Shaped;
    if own != [] {
      var before: State :|
        Continues(t, s, own[..|own| - 1], before) && Shaped(t, before) && !IsRadio(own[|own| - 1]) &&
        Enabled(t, before, own[|own| - 1]) && s' == Next(t, before, own[|own| - 1]);
      NoRadio(t, s, own[..|own| - 1], before);
    }
  }

  lemma {:induction false} InitMatches(t: Topology)
    requires ValidTopology(t)
    ensures Matches(Init(t), Init(Copying(t)))
  {
  }

  /** A step of a puller, a producer or a radio is the same step. */
  lemma {:induction false} SameStep(t: Topology, s: State, a: Action, r: State)
    requires ValidTopology(t) && ValidTopology(Copying(t)) && Inv(t, s) && Inv(Copying(t), r) && Enabled(t, s, a)
    requires Matches(s, r) && !a.ARep?
    ensures Enabled(Copying(t), r, a) && Matches(Next(t, s, a), Next(Copying(t), r, a))
  {
    assert Shaped(t, s) && Shaped(Copying(t), r);
    hide Inv, Matches, PullerStep, ProducerStep, RepStep, RadioReply, PullerCanStep, ProducerCanStep;
    match a {
      case APuller(p) => PullerMatches(t, s, r, p);
      case AProducer(n) => ProducerMatches(t, s, r, n);
      case _ => RadioMatches(t, s, r, a);
    }
  }

  /** One step of the relay is none, one or two of the copying relay. */
  lemma {:induction false} StepMatches(t: Topology, s: State, a: Action, copying: seq<Action>, r: State)
      returns (longer: seq<Action>, r': State)
    requires ValidTopology(t) && ValidTopology(Copying(t)) && Inv(t, s) && Enabled(t, s, a)
    requires Reaches(Copying(t), copying, r) && Matches(s, r)
    ensures Reaches(Copying(t), longer, r') && Matches(Next(t, s, a), r')
    ensures RadioPart(longer) == RadioPart(copying) + if IsRadio(a) then [a] else []
  {
    var u := Copying(t);
    ReachableInv(u, copying, r);
    if a.ARep? {
      hide Inv, Matches, RepStep, Reaches, Continues, RepCanStep;
      var more: seq<Action>;
      more, r' := RepMatches(t, s, r, a.p);
      NoRadio(u, r, more, r');
      ContinuedRun(u, copying, r, more, r');
      RadioPartAppend(copying, more);
      longer := copying + more;
    } else {
      hide Inv, Matches, Next, Enabled, Reaches;
      SameStep(t, s, a, r);
      r' := Next(u, r, a);
      longer := SameAction(u, copying, r, a);
    }
  }

  lemma {:induction false} SameAction(t: Topology, actions: seq<Action>, s: State, a: Action) returns (longer: seq<Action>)
    requires Wired(t) && Reaches(t, actions, s) && Shaped(t, s) && Enabled(t, s, a)
    ensures Reaches(t, longer, Next(t, s, a)) && RadioPart(longer) == RadioPart(actions) + if IsRadio(a) then [a] else []
  {
    hide Next, Enabled;
    longer := actions + [a];
    assert longer[..|longer| - 1] == actions;
  }

  /** Every run has its copying run: the same radio traffic, the same slots cut
      and processed, the same replies but for one being sent from the ring. */
  lemma {:induction false} CopyingRunExists(t: Topology, actions: seq<Action>, s: State) returns (copying: seq<Action>, r: State)
    requires ValidTopology(t) && Reaches(t, actions, s)
    ensures Wired(Copying(t)) && Reaches(Copying(t), copying, r) && Matches(s, r) && RadioPart(copying) == RadioPart(actions)
    decreases |actions|
  {
    CopyingValid(t);
    if actions == [] {
      copying, r := [], Init(Copying(t));
      InitMatches(t);
    } else {
      hide Matches, Next, Enabled;
      var m := |actions| - 1;
      var before: State :|
        Reaches(t, actions[..m], before) && Shaped(t, before) && Enabled(t, before, actions[m]) &&
        s == Next(t, before, actions[m]);
      copying, r := CopyingRunExists(t, actions[..m], before);
      ReachableInv(t, actions[..m], before);
      copying, r := StepMatches(t, before, actions[m], copying, r);
    }
  }

  /** The replies whose samples have been released. */
  function Released(y: RxSide): seq<seq<IqSample>>
  {
    if (y.pc.RepRelease? || y.pc.RepNotify?) && |y.wire| > 0 then y.wire[..|y.wire| - 1] else y.wire
  }

  /** In terms of what can be seen. */
  lemma {:induction false} ZeroCopyRefinesCopying(t: Topology, actions: seq<Action>, s: State) returns (copying: seq<Action>, r: State)
    requires ValidTopology(t) && Reaches(t, actions, s)
    ensures Wired(Copying(t)) && Reaches(Copying(t), copying, r) && RadioPart(copying) == RadioPart(actions)
    ensures |r.nodes| == |s.nodes| && forall n :: 0 <= n < |s.nodes| ==> r.nodes[n].log == s.nodes[n].log
    ensures |r.rx| == |s.rx| && forall p :: 0 <= p < |s.rx| ==> r.rx[p].wire == Released(s.rx[p])
  {
    copying, r := CopyingRunExists(t, actions, s);
    forall n | 0 <= n < |s.nodes|
      ensures r.nodes[n].log == s.nodes[n].log
    {
      assert SameNode(s.nodes[n], r.nodes[n]);
    }
    forall p | 0 <= p < |s.rx|
      ensures r.rx[p].wire == Released(s.rx[p])
    {
      assert SameRx(s.rx[p], r.rx[p]);
    }
  }
}
