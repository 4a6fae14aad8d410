/** The safety invariant of the relay and the proof that every step of every
    worker keeps it. */
module RelaySafety {
  import opened Options
  import opened Complex
  import opened Modular
  import opened RingModel
  import opened Relay

  /** w is what the stream holds from `start` on. */
  ghost predicate WindowIs(w: seq<IqSample>, stream: seq<IqSample>, start: nat)
  {
    && start + |w| <= |stream|
    && forall i {:trigger w[i]} :: 0 <= i < |w| ==> w[i] == stream[start + i]
  }

  /** b continues a: nothing already pushed has changed. */
  ghost predicate Extends(a: TxSide, b: TxSide)
  {
    && |a.ring.buf| == |b.ring.buf|
    && |a.stream| <= |b.stream|
    && forall i {:trigger b.stream[i]} :: 0 <= i < |a.stream| ==> a.stream[i] == b.stream[i]
  }

  // ------------------------------------------------------------------------
  // Pullers
  // ------------------------------------------------------------------------

  ghost predicate TxLocal(port: Port, x: TxSide)
  {
    && Represents(x.ring, x.stream)
    && |x.ring.buf| == port.queue
    && |x.pending| <= port.queue
    && match x.pc
       case PullScan(_, i, minCursor, _, _) => x.ring.Earliest() <= minCursor
       case PullLand(_) => x.pending != []
       case PullNotify(todo) => x.pending == [] && forall n :: n in todo ==> n in port.consumers
       case PullSleep(_) =>
         if x.pending != [] then x.ring.size + |x.pending| > port.queue else x.ring.Free() < port.batch
       case PullReply => x.pending == [] && x.ring.Free() >= port.batch
       case _ => true
  }

  ghost predicate LinkFrom(t: Topology, i: nat, p: nat)
    requires i < |t.links|
  {
    var link := t.links[i];
    link.node < |t.nodes| && link.lane < |t.nodes[link.node].lanes| && t.nodes[link.node].lanes[link.lane].src == p
  }

  /** The scan has not passed over a cursor below the bound it carries. */
  ghost predicate ScanOk(t: Topology, s: State, p: nat)
    requires Shaped(t, s) && p < |t.ports|
  {
    s.tx[p].pc.PullScan? ==>
      && s.tx[p].pc.i <= |t.links|
      && forall i {:trigger LinkFrom(t, i, p)} :: 0 <= i < s.tx[p].pc.i && LinkFrom(t, i, p) ==>
           s.tx[p].pc.hasOutgoing && s.tx[p].pc.minCursor <= s.nodes[t.links[i].node].cursors[t.links[i].lane]
  }

  ghost predicate TxOk(t: Topology, s: State, p: nat)
    requires Shaped(t, s) && p < |t.ports|
  {
    TxLocal(t.ports[p], s.tx[p]) && ScanOk(t, s, p)
  }

  // ------------------------------------------------------------------------
  // Producers
  // ------------------------------------------------------------------------

  /** How far lane j's cursor still is behind the node's last slot. */
  ghost function Lag(pc: ProducerPc, j: nat): nat
  {
    match pc
    case FillRow(_, count) => count
    case AdvanceLane(k, count) => if j >= k then count else 0
    case _ => 0
  }

  /** How many samples past its cursor lane j has been promised to hold. */
  ghost function Demand(pc: ProducerPc, j: nat): nat
  {
    match pc
    case DataCheck(_, k, common, _) => if j < k then common else 0
    case ReadLane(_, count) => count
    case ReserveRow(_, count) => count
    case ShapeLane(_, count) => count
    case FillRow(_, count) => count
    case AdvanceLane(k, count) => if j >= k then count else 0
    case _ => 0
  }

  /** How much headroom row r has been found, or promised, to have. */
  ghost function RoomDemand(pc: ProducerPc, r: nat): nat
  {
    match pc
    case RoomCheck(_, k, room) => if r < k then room else 0
    case AlignLane(_, room) => room
    case DataTop(room) => room
    case DataCheck(_, _, _, room) => room
    case DataSleep(_, room) => room
    case ReadLane(_, count) => count
    case ReserveRow(_, count) => count
    case ShapeLane(_, count) => count
    case FillRow(_, count) => count
    case AdvanceLane(_, count) => count
    case NotifySources(_, count) => count
    case PublishRow(k, count) => if r >= k then count else 0
    case _ => 0
  }

  /** Between the channel call and the end of the publication: the slot in flight. */
  ghost function InFlight(pc: ProducerPc): Option<nat>
  {
    match pc
    case FillRow(_, count) => Some(count)
    case AdvanceLane(_, count) => Some(count)
    case NotifySources(_, count) => Some(count)
    case PublishRow(_, count) => Some(count)
    case _ => None
  }

  ghost predicate NodeLocal(node: Node, x: Producer)
  {
    && |x.cursors| == |x.inited| == |node.lanes|
    && x.gaps == 0
    && (forall j :: 0 <= j < |x.cursors| ==> x.cursors[j] + Lag(x.pc, j) == End(x.log))
    && (forall j :: 0 <= j < |x.cursors| && !x.inited[j] ==> x.cursors[j] == 0)
    && (x.epochSet ==> forall j :: 0 <= j < |x.inited| ==> x.inited[j])
    && (!x.epochSet ==> x.log == [])
    && (x.pc.RoomTop? || x.pc.RoomCheck? || x.pc.RoomSleep? || x.pc.AlignLane? || x.epochSet)
    && (InFlight(x.pc).Some? ==>
          |x.log| > 0 && x.log[|x.log| - 1].count == InFlight(x.pc).value && |x.outs| == |node.rows|)
    && match x.pc
       case RoomCheck(_, r, room) => r <= |node.rows| && room <= node.batch
       case AlignLane(k, room) => k <= |node.lanes| && 0 < room && !x.epochSet && forall j :: 0 <= j < k ==> x.inited[j]
       case DataTop(room) => 0 < room
       case DataCheck(_, k, common, room) => k <= |node.lanes| && 0 < room
       case DataSleep(_, room) => 0 < room
       case ReadLane(k, count) => 0 < count && |x.windows| == k <= |node.lanes|
       case ReserveRow(r, count) => 0 < count && |x.windows| == |node.lanes| && |x.outs| == r <= |node.rows|
       case ShapeLane(k, count) =>
         0 < count && k <= |x.windows| == |node.lanes| && |x.outs| == |node.rows| &&
         forall j :: 0 <= j < k ==> x.windows[j].Copied?
       case FillRow(r, count) => r <= |node.rows|
       case AdvanceLane(k, count) => k <= |node.lanes|
       case NotifySources(todo, count) => forall p :: p in todo ==> p in node.sources
       case PublishRow(r, count) => r <= |node.rows|
       case NotifyRows(todo) => forall p :: p in todo ==> p in node.rows
       case ProducerFailed => false
       case _ => true
  }

  /** A held window: the right copy, or the right cells. */
  ghost predicate HeldOk(h: Held, x: TxSide, cursor: nat, count: nat)
    requires |x.ring.buf| > 0
  {
    match h
    case Copied(w) => |w| == count && WindowIs(w, x.stream, cursor)
    case InRing(at) => at == Wrap(cursor, |x.ring.buf|) && at + count <= |x.ring.buf|
  }

  ghost predicate LaneOk(t: Topology, s: State, n: nat, j: nat)
    requires ValidTopology(t) && Shaped(t, s) && n < |t.nodes| && j < |t.nodes[n].lanes|
  {
    assert ValidNode(t, n);
    var x, lane := s.nodes[n], s.tx[t.nodes[n].lanes[j].src];
    && |lane.ring.buf| > 0
    && lane.ring.Earliest() <= x.cursors[j]
    && x.cursors[j] + Demand(x.pc, j) <= |lane.stream|
    && (match x.pc
        case ReadLane(_, count) => j < |x.windows| ==> HeldOk(x.windows[j], lane, x.cursors[j], count)
        case ReserveRow(_, count) => j < |x.windows| ==> HeldOk(x.windows[j], lane, x.cursors[j], count)
        case ShapeLane(_, count) => j < |x.windows| ==> HeldOk(x.windows[j], lane, x.cursors[j], count)
        case _ => true)
  }

  ghost predicate Filled(pc: ProducerPc, r: nat)
  {
    match pc
    case FillRow(k, _) => r < k
    case AdvanceLane(_, _) => true
    case NotifySources(_, _) => true
    case PublishRow(_, _) => true
    case _ => false
  }

  ghost function OutCount(pc: ProducerPc): Option<nat>
  {
    match pc
    case ReserveRow(_, count) => Some(count)
    case ShapeLane(_, count) => Some(count)
    case _ => InFlight(pc)
  }

  /** Row r has its headroom, and until it is published its reservation is still
      the tail and, once filled, holds the row. */
  ghost predicate RowOk(t: Topology, s: State, n: nat, r: nat)
    requires ValidTopology(t) && Shaped(t, s) && n < |t.nodes| && r < |t.nodes[n].rows|
  {
    assert ValidNode(t, n);
    var x, p := s.nodes[n], t.nodes[n].rows[r];
    var y := s.rx[p];
    && |y.ring.buf| > 0 && y.ring.size <= |y.ring.buf|
    && RoomDemand(x.pc, r) <= Headroom(t.ports[p], y.ring)
    && (OutCount(x.pc).Some? && r < |x.outs| && !(x.pc.PublishRow? && r < x.pc.r) ==>
          match x.outs[r]
          case InRing(at) =>
            && at == Wrap(y.ring.next, |y.ring.buf|)
            && at + OutCount(x.pc).value <= |y.ring.buf|
            && (Filled(x.pc, r) ==> y.ring.buf[at..at + OutCount(x.pc).value] == LastRow(x.log, r))
          case Copied(row) => Filled(x.pc, r) ==> row == LastRow(x.log, r))
  }

  /** Slot k of node n: it starts where slot k - 1 ended, holds that range of
      every lane's stream, and its rows are the channel's. */
  ghost predicate SlotOk(t: Topology, s: State, n: nat, k: nat)
    requires ValidTopology(t) && Shaped(t, s) && n < |t.nodes| && k < |s.nodes[n].log|
  {
    assert ValidNode(t, n);
    var log := s.nodes[n].log;
    var slot := log[k];
    && slot.count > 0
    && slot.start == (if k == 0 then 0 else log[k - 1].start + log[k - 1].count)
    && |slot.windows| == |t.nodes[n].lanes|
    && (forall j :: 0 <= j < |t.nodes[n].lanes| ==>
          |slot.windows[j]| == slot.count && WindowIs(slot.windows[j], s.tx[t.nodes[n].lanes[j].src].stream, slot.start))
    && slot.rows == Rows(t, n, log[..k], slot.windows, slot.count)
  }

  ghost predicate NodeOk(t: Topology, s: State, n: nat)
    requires ValidTopology(t) && Shaped(t, s) && n < |t.nodes|
  {
    && NodeLocal(t.nodes[n], s.nodes[n])
    && (forall j :: 0 <= j < |t.nodes[n].lanes| ==> LaneOk(t, s, n, j))
    && (forall r :: 0 <= r < |t.nodes[n].rows| ==> RowOk(t, s, n, r))
    && (forall k :: 0 <= k < |s.nodes[n].log| ==> SlotOk(t, s, n, k))
  }

  // ------------------------------------------------------------------------
  // REP workers
  // ------------------------------------------------------------------------

  /** Where slot k starts; the end of the log for the slot to come. */
  ghost function StartOf(log: seq<Slot>, k: nat): nat
  {
    if k < |log| then log[k].start else End(log)
  }

  /** How many slots have been published on row r. */
  ghost function Published(x: Producer, r: nat): int
  {
    match x.pc
    case FillRow(_, _) => |x.log| - 1
    case AdvanceLane(_, _) => |x.log| - 1
    case NotifySources(_, _) => |x.log| - 1
    case PublishRow(k, _) => if r >= k then |x.log| - 1 else |x.log|
    case _ => |x.log|
  }

  /** How many windows the REP worker has taken off the queue. */
  ghost function Popped(y: RxSide): int
  {
    match y.pc
    case RepWakeNode(_) => |y.wire| + 1
    case RepSend(held, _) => if held.Copied? then |y.wire| + 1 else |y.wire|
    case RepRelease(_) => |y.wire| - 1
    case _ => |y.wire|
  }

  ghost predicate RxOk(t: Topology, s: State, p: nat)
    requires ValidTopology(t) && Shaped(t, s) && p < |t.ports|
  {
    assert ValidPort(t, p);
    var y := s.rx[p];
    if t.ports[p].row < 0 then
      y == RxSide(Empty(t.ports[p].rxCapacity), [], [], 0, [], RepRequest, y.gen)
    else
      var x := s.nodes[t.ports[p].node];
      RxLocal(t.ports[p], y, x.log, Published(x, t.ports[p].row), t.ports[p].row)
  }

  /** The REP side of a row against its node's log and the number of slots
      published so far. */
  ghost predicate RxLocal(port: Port, y: RxSide, log: seq<Slot>, published: int, r: nat)
  {
    RxRing(port, y) && RxQueue(y, log, published, r) && RxSent(y, log, published, r) && RxPc(y, log, r)
  }

  ghost predicate RxRing(port: Port, y: RxSide)
  {
    && Represents(y.ring, y.stream)
    && |y.ring.buf| == port.rxCapacity
    && y.ring.size <= port.highWater
  }

  /** The queued boundaries are the counts of the slots published and not yet
      popped, and the ring holds exactly their samples. */
  ghost predicate RxQueue(y: RxSide, log: seq<Slot>, published: int, r: nat)
  {
    && 0 <= Popped(y) <= published <= |log|
    && |y.slots| == published - Popped(y)
    && (forall i :: 0 <= i < |y.slots| ==> y.slots[i] == log[Popped(y) + i].count)
    && y.cursor == y.ring.Earliest() == StartOf(log, Popped(y))
    && y.ring.next == StartOf(log, published)
    && (forall k :: 0 <= k < published ==> r < |log[k].rows| && WindowIs(log[k].rows[r], y.stream, log[k].start))
  }

  /** The k-th reply on the wire is the row of slot k. */
  ghost predicate RxSent(y: RxSide, log: seq<Slot>, published: int, r: nat)
  {
    && |y.wire| <= published <= |log|
    && (forall k :: 0 <= k < |y.wire| ==> r < |log[k].rows| && y.wire[k] == log[k].rows[r])
  }

  ghost predicate RxPc(y: RxSide, log: seq<Slot>, r: nat)
  {
    match y.pc
    case RepWakeNode(reply) => 0 < Popped(y) <= |log| && r < |log[Popped(y) - 1].rows| && reply == log[Popped(y) - 1].rows[r]
    case RepSend(held, take) =>
      (match held
       case Copied(reply) => 0 < Popped(y) <= |log| && r < |log[Popped(y) - 1].rows| && reply == log[Popped(y) - 1].rows[r]
       case InRing(at) =>
         |y.ring.buf| > 0 && |y.slots| > 0 && take == y.slots[0] && at == Wrap(y.cursor, |y.ring.buf|) && at + take <= |y.ring.buf|)
    case RepRelease(take) => |y.slots| > 0 && take == y.slots[0]
    case RepFailed => false
    case _ => true
  }

  ghost predicate Inv(t: Topology, s: State)
    requires ValidTopology(t)
  {
    && Shaped(t, s)
    && (forall p :: 0 <= p < |t.ports| ==> TxOk(t, s, p))
    && (forall n :: 0 <= n < |t.nodes| ==> NodeOk(t, s, n))
    && (forall p :: 0 <= p < |t.ports| ==> RxOk(t, s, p))
  }

  lemma {:induction false} InitInv(t: Topology)
    requires ValidTopology(t)
    ensures Inv(t, Init(t))
  {
    var s := Init(t);
    forall p | 0 <= p < |t.ports| ensures TxOk(t, s, p) && RxOk(t, s, p) {
      assert ValidPort(t, p);
      EmptyRepresents(t.ports[p].queue);
      EmptyRepresents(t.ports[p].rxCapacity);
    }
    forall n | 0 <= n < |t.nodes| ensures NodeOk(t, s, n) {
      assert ValidNode(t, n);
      forall j | 0 <= j < |t.nodes[n].lanes| ensures LaneOk(t, s, n, j) {
        assert ValidPort(t, t.nodes[n].lanes[j].src);
      }
      forall r | 0 <= r < |t.nodes[n].rows| ensures RowOk(t, s, n, r) {
        assert ValidPort(t, t.nodes[n].rows[r]);
      }
    }
  }
}
