/** The live relay of src/broker.cpp as a transition system.

    One worker per thread of the broker: a puller per TX port, a producer per
    radio node and a REP worker per RX port.  A worker's program counter names
    the critical section (or the single atomic operation) it executes next, so
    any interleaving of the threads is a sequence of worker steps.  The radios
    are the two external actions: a reply of any length to a puller's request,
    and a request to a REP worker. */
module Relay {
  import opened Options
  import opened Complex
  import opened RingModel

  // ------------------------------------------------------------------------
  // What Broker::run resolves before the threads start
  // ------------------------------------------------------------------------

  /** One lane: its source port and the output row it is summed into. */
  datatype Lane = Lane(src: nat, row: nat)

  /** A transport port.  `row` is its RX index in its node, -1 when it is no RX
      port; `hasTx` says whether it is a TX port; `consumers` are the nodes a
      push wakes (port_consumers). */
  datatype Port = Port(queue: nat, batch: nat, rxCapacity: nat, highWater: nat,
                       node: nat, row: int, hasTx: bool, consumers: seq<nat>)

  /** A radio node: `rows` are its RX ports, `sources` the TX ports an advance
      wakes (node_sources). */
  datatype Node = Node(batch: nat, rows: seq<nat>, lanes: seq<Lane>, sources: seq<nat>)

  /** links[i] is lane `lane` of node `node`. */
  datatype LinkRef = LinkRef(node: nat, lane: nat)

  /** One slot a node has processed: the window [start, start + count) it read
      from every lane and the rows the channel made of it. */
  datatype Slot = Slot(start: nat, count: nat, windows: seq<seq<IqSample>>, rows: seq<seq<IqSample>>)

  /** `channel(n, earlier, windows, r, i)` is sample i of row r of node n's next
      slot: any function of everything the node has been given so far. */
  datatype Topology = Topology(
    ports: seq<Port>, nodes: seq<Node>, links: seq<LinkRef>,
    fewerCopies: bool, directRows: bool,
    channel: (nat, seq<Slot>, seq<seq<IqSample>>, nat, nat) -> IqSample)

  /** What the setup code builds: indices that mean something and tables that
      agree with one another. */
  ghost predicate Wired(t: Topology)
  {
    && (forall p :: 0 <= p < |t.ports| ==> WiredPort(t, p))
    && (forall n :: 0 <= n < |t.nodes| ==> ValidNode(t, n))
    && (forall i :: 0 <= i < |t.links| ==>
          t.links[i].node < |t.nodes| && t.links[i].lane < |t.nodes[t.links[i].node].lanes|)
    && (forall n, j :: 0 <= n < |t.nodes| && 0 <= j < |t.nodes[n].lanes| ==> LinkRef(n, j) in t.links)
  }

  /** What validate_config guarantees on top.  Its queue rule is
      queue >= 2 * batch; the relay proofs need only one batch. */
  ghost predicate ValidTopology(t: Topology)
  {
    Wired(t) && forall p :: 0 <= p < |t.ports| ==> ValidPort(t, p)
  }

  ghost predicate WiredPort(t: Topology, p: nat)
    requires p < |t.ports|
  {
    var port := t.ports[p];
    && port.highWater == port.batch
    && (port.row >= 0 ==>
          port.node < |t.nodes| && port.row < |t.nodes[port.node].rows| && t.nodes[port.node].rows[port.row] == p)
    && (forall n {:trigger n in port.consumers} :: n in port.consumers <==> Feeds(t, p, n))
  }

  ghost predicate ValidPort(t: Topology, p: nat)
    requires p < |t.ports|
  {
    var port := t.ports[p];
    && WiredPort(t, p)
    && 1 <= port.batch <= port.queue
    && port.batch <= port.rxCapacity
  }

  ghost predicate ValidNode(t: Topology, n: nat)
    requires n < |t.nodes|
  {
    var node := t.nodes[n];
    && node.batch >= 1
    && (forall r :: 0 <= r < |node.rows| ==>
          node.rows[r] < |t.ports| && t.ports[node.rows[r]].node == n && t.ports[node.rows[r]].row == r)
    && (forall j :: 0 <= j < |node.lanes| ==>
          node.lanes[j].src < |t.ports| && t.ports[node.lanes[j].src].hasTx && node.lanes[j].row < |node.rows|)
    && (forall p {:trigger p in node.sources} :: p in node.sources <==> Feeds(t, p, n))
  }

  /** Some lane of node n has port p as its source. */
  ghost predicate Feeds(t: Topology, p: nat, n: nat)
  {
    n < |t.nodes| && exists j :: 0 <= j < |t.nodes[n].lanes| && t.nodes[n].lanes[j].src == p
  }

  // ------------------------------------------------------------------------
  // State
  // ------------------------------------------------------------------------

  datatype PullerPc =
    | PullTop                                             // take a ticket
    | PullScan(ticket: nat, i: nat, minCursor: nat, hasConsumer: bool, hasOutgoing: bool)
    | PullLand(ticket: nat)                               // push the pending message
    | PullNotify(todo: seq<nat>)                          // pushed; consumers still to wake
    | PullSleep(ticket: nat)
    | PullReply                                           // request sent, the radio's turn
    | PullFailed                                          // the message can never fit

  /** The TX side of a port.  `stream` is everything ever pushed. */
  datatype TxSide = TxSide(ring: Ring, stream: seq<IqSample>, pending: seq<IqSample>, pc: PullerPc, gen: nat)

  /** Samples copied out, or still where they are in a ring's storage. */
  datatype Held = Copied(samples: seq<IqSample>) | InRing(at: nat)

  datatype ProducerPc =
    | RoomTop
    | RoomCheck(ticket: nat, r: nat, room: nat)
    | RoomSleep(ticket: nat)
    | AlignLane(k: nat, room: nat)
    | DataTop(room: nat)
    | DataCheck(ticket: nat, k: nat, common: nat, room: nat)
    | DataSleep(ticket: nat, room: nat)
    | ReadLane(k: nat, count: nat)
    | ReserveRow(r: nat, count: nat)
    | ShapeLane(k: nat, count: nat)
    | FillRow(r: nat, count: nat)
    | AdvanceLane(k: nat, count: nat)
    | NotifySources(todo: seq<nat>, count: nat)
    | PublishRow(r: nat, count: nat)
    | NotifyRows(todo: seq<nat>)
    | ProducerFailed

  /** `log` is every slot processed so far. */
  datatype Producer = Producer(pc: ProducerPc, cursors: seq<nat>, inited: seq<bool>, epochSet: bool,
                               windows: seq<Held>, outs: seq<Held>, gaps: nat, gen: nat, log: seq<Slot>)

  datatype RepPc =
    | RepRequest                                          // the radio's turn
    | RepTop
    | RepPop(ticket: nat)
    | RepSleep(ticket: nat)
    | RepWakeNode(reply: seq<IqSample>)                   // popped; the node still to wake
    | RepSend(held: Held, take: nat)
    | RepRelease(take: nat)                               // sent from the ring
    | RepNotify                                           // released; the node still to wake
    | RepFailed

  /** The RX side of a port.  `wire` is the list of replies sent. */
  datatype RxSide = RxSide(ring: Ring, stream: seq<IqSample>, slots: seq<nat>, cursor: nat,
                           wire: seq<seq<IqSample>>, pc: RepPc, gen: nat)

  datatype State = State(tx: seq<TxSide>, nodes: seq<Producer>, rx: seq<RxSide>)

  predicate Shaped(t: Topology, s: State)
  {
    && |s.tx| == |t.ports| == |s.rx|
    && |s.nodes| == |t.nodes|
    && forall n :: 0 <= n < |t.nodes| ==>
         |s.nodes[n].cursors| == |t.nodes[n].lanes| && |s.nodes[n].inited| == |t.nodes[n].lanes|
  }

  function Init(t: Topology): State
  {
    State(
      seq(|t.ports|, p requires 0 <= p < |t.ports| => TxSide(Empty(t.ports[p].queue), [], [], PullTop, 0)),
      seq(|t.nodes|, n requires 0 <= n < |t.nodes| =>
        Producer(RoomTop, seq(|t.nodes[n].lanes|, _ => 0), seq(|t.nodes[n].lanes|, _ => false), false,
                 [], [], 0, 0, [])),
      seq(|t.ports|, p requires 0 <= p < |t.ports| =>
        RxSide(Empty(t.ports[p].rxCapacity), [], [], 0, [], RepRequest, 0)))
  }

  function Min(a: int, b: int): int { if a <= b then a else b }

  /** Samples the producer may still push into an RX ring. */
  function Headroom(port: Port, ring: Ring): int
  {
    if ring.size >= port.highWater then 0 else Min(port.highWater - ring.size, ring.Free())
  }

  /** The earliest buffered sample (never negative in a ring that represents a stream). */
  function First(ring: Ring): nat
  {
    if ring.Earliest() < 0 then 0 else ring.Earliest()
  }

  /** A raw read of ring storage; nothing where the storage ends. */
  function Cells(ring: Ring, at: nat, count: nat): seq<IqSample>
  {
    if at + count <= |ring.buf| then ring.buf[at..at + count] else []
  }

  // ------------------------------------------------------------------------
  // The puller
  // ------------------------------------------------------------------------

  function SetTx(s: State, p: nat, x: TxSide): State
    requires p < |s.tx|
  {
    s.(tx := s.tx[p := x])
  }

  function SetNode(s: State, n: nat, x: Producer): State
    requires n < |s.nodes|
  {
    s.(nodes := s.nodes[n := x])
  }

  function SetRx(s: State, p: nat, x: RxSide): State
    requires p < |s.rx|
  {
    s.(rx := s.rx[p := x])
  }

  function WakeNode(s: State, n: nat): State
  {
    if n < |s.nodes| then SetNode(s, n, s.nodes[n].(gen := s.nodes[n].gen + 1)) else s
  }

  function WakePuller(s: State, p: nat): State
  {
    if p < |s.tx| then SetTx(s, p, s.tx[p].(gen := s.tx[p].gen + 1)) else s
  }

  function WakeRep(s: State, p: nat): State
  {
    if p < |s.rx| then SetRx(s, p, s.rx[p].(gen := s.rx[p].gen + 1)) else s
  }

  /** The puller has a step of its own: it is not asleep on a current ticket and
      not waiting for its radio. */
  predicate PullerCanStep(t: Topology, s: State, p: nat)
    requires Shaped(t, s) && p < |t.ports|
  {
    && t.ports[p].hasTx
    && match s.tx[p].pc
       case PullSleep(ticket) => ticket != s.tx[p].gen
       case PullReply => false
       case PullFailed => false
       case _ => true
  }

  /** The ring after the scan: samples every consumer has passed are released. */
  function Release(x: TxSide): Ring
    requires x.pc.PullScan?
  {
    if !x.pc.hasOutgoing then DiscardBefore(x.ring, x.ring.next)
    else if x.pc.hasConsumer then DiscardBefore(x.ring, x.pc.minCursor)
    else x.ring
  }

  function PullerStep(t: Topology, s: State, p: nat): (s': State)
    requires Shaped(t, s) && p < |t.ports| && PullerCanStep(t, s, p)
    ensures Shaped(t, s')
  {
    var x := s.tx[p];
    match x.pc
    case PullTop => SetTx(s, p, x.(pc := PullScan(x.gen, 0, x.ring.next, false, false)))
    case PullScan(ticket, i, minCursor, hasConsumer, hasOutgoing) =>
      if i < |t.links| then
        var link := t.links[i];
        if !(link.node < |t.nodes| && link.lane < |t.nodes[link.node].lanes|)
           || t.nodes[link.node].lanes[link.lane].src != p then
          SetTx(s, p, x.(pc := x.pc.(i := i + 1)))
        else if !s.nodes[link.node].inited[link.lane] then
          SetTx(s, p, x.(pc := PullScan(ticket, i + 1, First(x.ring), hasConsumer, true)))
        else
          var cursor := s.nodes[link.node].cursors[link.lane];
          SetTx(s, p, x.(pc := PullScan(ticket, i + 1, Min(minCursor, cursor), true, true)))
      else
        var ring := Release(x);
        var pc :=
          if x.pending != [] then PullLand(ticket)
          else if ring.Free() < t.ports[p].batch then PullSleep(ticket)
          else PullReply;
        SetTx(s, p, x.(ring := ring, pc := pc))
    case PullLand(ticket) =>
      if CanPush(x.ring, |x.pending|) then
        SetTx(s, p, x.(ring := Push(x.ring, x.pending), stream := x.stream + x.pending, pending := [],
                       pc := PullNotify(t.ports[p].consumers)))
      else SetTx(s, p, x.(pc := PullSleep(ticket)))
    case PullNotify(todo) =>
      if todo == [] then SetTx(s, p, x.(pc := PullTop))
      else WakeNode(SetTx(s, p, x.(pc := PullNotify(todo[1..]))), todo[0])
    case PullSleep(_) => SetTx(s, p, x.(pc := PullTop))
    case PullReply => s
    case PullFailed => s
  }

  /** The radio answers: a message of any length, or a receive timeout (None).
      A message larger than the receive buffer is an error. */
  function RadioReply(t: Topology, s: State, p: nat, message: Option<seq<IqSample>>): (s': State)
    requires Shaped(t, s) && p < |t.ports| && s.tx[p].pc.PullReply?
    ensures Shaped(t, s')
  {
    var x := s.tx[p];
    match message
    case None => SetTx(s, p, x.(pc := PullTop))
    case Some(samples) =>
      if |samples| > t.ports[p].queue && |samples| > t.ports[p].batch then SetTx(s, p, x.(pc := PullFailed))
      else SetTx(s, p, x.(pending := samples, pc := PullTop))
  }

  // ------------------------------------------------------------------------
  // The producer
  // ------------------------------------------------------------------------

  predicate ProducerCanStep(t: Topology, s: State, n: nat)
    requires Shaped(t, s) && n < |t.nodes|
  {
    match s.nodes[n].pc
    case RoomSleep(ticket) => ticket != s.nodes[n].gen
    case DataSleep(ticket, _) => ticket != s.nodes[n].gen
    case ProducerFailed => false
    case _ => true
  }

  /** The rows of node n's next slot. */
  function Rows(t: Topology, n: nat, earlier: seq<Slot>, windows: seq<seq<IqSample>>, count: nat): seq<seq<IqSample>>
    requires n < |t.nodes|
  {
    seq(|t.nodes[n].rows|, r requires 0 <= r < |t.nodes[n].rows| =>
      seq(count, i requires 0 <= i < count => t.channel(n, earlier, windows, r, i)))
  }

  /** The first sample a node has not consumed yet. */
  function End(log: seq<Slot>): nat
  {
    if log == [] then 0 else log[|log| - 1].start + log[|log| - 1].count
  }

  function Contents(windows: seq<Held>): seq<seq<IqSample>>
  {
    seq(|windows|, k requires 0 <= k < |windows| => if windows[k].Copied? then windows[k].samples else [])
  }

  function LastRow(log: seq<Slot>, r: nat): seq<IqSample>
  {
    if log != [] && r < |log[|log| - 1].rows| then log[|log| - 1].rows[r] else []
  }

  /** (A) to (C): choose the common window. */
  function WindowStep(t: Topology, s: State, n: nat): (s': State)
    requires Wired(t) && Shaped(t, s) && n < |t.nodes|
    ensures Shaped(t, s')
  {
    assert ValidNode(t, n);
    var node := t.nodes[n];
    var x := s.nodes[n];
    match x.pc
    // (A) output room
    case RoomTop => SetNode(s, n, x.(pc := RoomCheck(x.gen, 0, node.batch)))
    case RoomCheck(ticket, r, room) =>
      if r < |node.rows| then
        var headroom := Headroom(t.ports[node.rows[r]], s.rx[node.rows[r]].ring);
        SetNode(s, n, x.(pc := RoomCheck(ticket, r + 1, if headroom < 0 then 0 else Min(room, headroom))))
      else if room == 0 then SetNode(s, n, x.(pc := RoomSleep(ticket)))
      else if x.epochSet then SetNode(s, n, x.(pc := DataTop(room)))
      else SetNode(s, n, x.(pc := AlignLane(0, room)))
    case RoomSleep(_) => SetNode(s, n, x.(pc := RoomTop))
    // (B) first slot: co-initialise every cursor
    case AlignLane(k, room) =>
      if k < |node.lanes| then
        SetNode(s, n, x.(cursors := x.cursors[k := First(s.tx[node.lanes[k].src].ring)],
                         inited := x.inited[k := true], pc := AlignLane(k + 1, room)))
      else SetNode(s, n, x.(epochSet := true, pc := DataTop(room)))
    // (C) common input window
    case DataTop(room) =>
      if node.lanes == [] then SetNode(s, n, x.(pc := ReadLane(0, room), windows := []))
      else SetNode(s, n, x.(pc := DataCheck(x.gen, 0, node.batch, room)))
    case DataCheck(ticket, k, common, room) =>
      if k < |node.lanes| then
        var ring := s.tx[node.lanes[k].src].ring;
        var gap := x.cursors[k] < ring.Earliest();
        var cursor := if gap then ring.Earliest() else x.cursors[k];
        var avail := ring.next - cursor;
        SetNode(s, n, x.(cursors := x.cursors[k := cursor], gaps := if gap then x.gaps + 1 else x.gaps,
                         pc := DataCheck(ticket, k + 1, if avail < 0 then common else Min(common, avail), room)))
      else if common == 0 then SetNode(s, n, x.(pc := DataSleep(ticket, room)))
      else SetNode(s, n, x.(pc := ReadLane(0, Min(common, room)), windows := []))
    case DataSleep(_, room) => SetNode(s, n, x.(pc := DataTop(room)))
    case _ => s
  }

  /** (D) and (E): read the lanes and run the channel. */
  function ChannelStep(t: Topology, s: State, n: nat): (s': State)
    requires Wired(t) && Shaped(t, s) && n < |t.nodes|
    ensures Shaped(t, s')
  {
    assert ValidNode(t, n);
    var node := t.nodes[n];
    var x := s.nodes[n];
    match x.pc
    // (D) read the window from every lane
    case ReadLane(k, count) =>
      if k < |node.lanes| then
        var ring := s.tx[node.lanes[k].src].ring;
        var view := if t.fewerCopies then View(ring, x.cursors[k], count) else None;
        if view.Some? then
          SetNode(s, n, x.(windows := x.windows + [InRing(view.value)], pc := ReadLane(k + 1, count)))
        else if CanRead(ring, x.cursors[k], count) then
          SetNode(s, n, x.(windows := x.windows + [Copied(Read(ring, x.cursors[k], count))],
                           pc := ReadLane(k + 1, count)))
        else SetNode(s, n, x.(pc := ProducerFailed))
      else SetNode(s, n, x.(pc := ReserveRow(0, count), outs := []))
    // (E) reserve the rows, shape every lane where its window is, fill the rows
    case ReserveRow(r, count) =>
      if r < |node.rows| then
        var tail := if t.directRows then Reserve(s.rx[node.rows[r]].ring, count) else None;
        SetNode(s, n, x.(outs := x.outs + [if tail.Some? then InRing(tail.value) else Copied([])],
                         pc := ReserveRow(r + 1, count)))
      else SetNode(s, n, x.(pc := ShapeLane(0, count)))
    case ShapeLane(k, count) =>
      if k < |node.lanes| && k < |x.windows| then
        var window :=
          match x.windows[k]
          case Copied(samples) => samples
          case InRing(at) => Cells(s.tx[node.lanes[k].src].ring, at, count);
        SetNode(s, n, x.(windows := x.windows[k := Copied(window)], pc := ShapeLane(k + 1, count)))
      else
        var windows := Contents(x.windows);
        var slot := Slot(End(x.log), count, windows, Rows(t, n, x.log, windows, count));
        SetNode(s, n, x.(log := x.log + [slot], pc := FillRow(0, count)))
    case FillRow(r, count) =>
      if r < |node.rows| && r < |x.outs| then
        var row := LastRow(x.log, r);
        var p := node.rows[r];
        (match x.outs[r]
         case Copied(_) => SetNode(s, n, x.(outs := x.outs[r := Copied(row)], pc := FillRow(r + 1, count)))
         case InRing(at) =>
           var ring := if at + |row| <= |s.rx[p].ring.buf| then Fill(s.rx[p].ring, at, row) else s.rx[p].ring;
           SetRx(SetNode(s, n, x.(pc := FillRow(r + 1, count))), p, s.rx[p].(ring := ring)))
      else SetNode(s, n, x.(pc := AdvanceLane(0, count)))
    case _ => s
  }

  /** (F) to (H): advance the cursors, publish the rows, wake whoever waits. */
  function PublishStep(t: Topology, s: State, n: nat): (s': State)
    requires Wired(t) && Shaped(t, s) && n < |t.nodes|
    ensures Shaped(t, s')
  {
    assert ValidNode(t, n);
    var node := t.nodes[n];
    var x := s.nodes[n];
    match x.pc
    // (F) advance every cursor by the same count, then wake the sources
    case AdvanceLane(k, count) =>
      if k < |node.lanes| then
        SetNode(s, n, x.(cursors := x.cursors[k := x.cursors[k] + count], pc := AdvanceLane(k + 1, count)))
      else SetNode(s, n, x.(pc := NotifySources(node.sources, count)))
    case NotifySources(todo, count) =>
      if todo == [] then SetNode(s, n, x.(pc := PublishRow(0, count)))
      else WakePuller(SetNode(s, n, x.(pc := NotifySources(todo[1..], count))), todo[0])
    // (H) publish every row with its window boundary, then wake the REP workers
    case PublishRow(r, count) =>
      if r < |node.rows| && r < |x.outs| then
        var p := node.rows[r];
        var y := s.rx[p];
        (match x.outs[r]
         case InRing(at) =>
           SetRx(SetNode(s, n, x.(pc := PublishRow(r + 1, count))), p,
                 y.(ring := Commit(y.ring, count), stream := y.stream + Cells(y.ring, at, count),
                    slots := y.slots + [count]))
         case Copied(samples) =>
           if CanPush(y.ring, |samples|) then
             SetRx(SetNode(s, n, x.(pc := PublishRow(r + 1, count))), p,
                   y.(ring := Push(y.ring, samples), stream := y.stream + samples, slots := y.slots + [count]))
           else SetNode(s, n, x.(pc := ProducerFailed)))
      else SetNode(s, n, x.(pc := NotifyRows(node.rows)))
    case NotifyRows(todo) =>
      if todo == [] then SetNode(s, n, x.(pc := RoomTop))
      else WakeRep(SetNode(s, n, x.(pc := NotifyRows(todo[1..]))), todo[0])
    case _ => s
  }

  function ProducerStep(t: Topology, s: State, n: nat): (s': State)
    requires Wired(t) && Shaped(t, s) && n < |t.nodes| && ProducerCanStep(t, s, n)
    ensures Shaped(t, s')
  {
    match s.nodes[n].pc
    case ReadLane(_, _) => ChannelStep(t, s, n)
    case ReserveRow(_, _) => ChannelStep(t, s, n)
    case ShapeLane(_, _) => ChannelStep(t, s, n)
    case FillRow(_, _) => ChannelStep(t, s, n)
    case AdvanceLane(_, _) => PublishStep(t, s, n)
    case NotifySources(_, _) => PublishStep(t, s, n)
    case PublishRow(_, _) => PublishStep(t, s, n)
    case NotifyRows(_) => PublishStep(t, s, n)
    case _ => WindowStep(t, s, n)
  }

  // ------------------------------------------------------------------------
  // The REP worker
  // ------------------------------------------------------------------------

  predicate RepCanStep(t: Topology, s: State, p: nat)
    requires Shaped(t, s) && p < |t.ports|
  {
    && t.ports[p].row >= 0
    && match s.rx[p].pc
       case RepRequest => false
       case RepSleep(ticket) => ticket != s.rx[p].gen
       case RepFailed => false
       case _ => true
  }

  function RepStep(t: Topology, s: State, p: nat): (s': State)
    requires Shaped(t, s) && p < |t.ports| && RepCanStep(t, s, p)
    ensures Shaped(t, s')
  {
    var y := s.rx[p];
    match y.pc
    case RepRequest => s
    case RepTop => SetRx(s, p, y.(pc := RepPop(y.gen)))
    case RepPop(ticket) =>
      if y.slots == [] then SetRx(s, p, y.(pc := RepSleep(ticket)))
      else
        var take := y.slots[0];
        var view := if t.fewerCopies then View(y.ring, y.cursor, take) else None;
        if view.Some? then SetRx(s, p, y.(pc := RepSend(InRing(view.value), take)))
        else if CanRead(y.ring, y.cursor, take) then
          SetRx(s, p, y.(cursor := y.cursor + take, ring := DiscardBefore(y.ring, y.cursor + take),
                         slots := y.slots[1..], pc := RepWakeNode(Read(y.ring, y.cursor, take))))
        else SetRx(s, p, y.(pc := RepFailed))
    case RepSleep(_) => SetRx(s, p, y.(pc := RepTop))
    case RepWakeNode(reply) =>
      WakeNode(SetRx(s, p, y.(pc := RepSend(Copied(reply), |reply|))), t.ports[p].node)
    case RepSend(held, take) =>
      (match held
       case Copied(samples) => SetRx(s, p, y.(wire := y.wire + [samples], pc := RepRequest))
       case InRing(at) => SetRx(s, p, y.(wire := y.wire + [Cells(y.ring, at, take)], pc := RepRelease(take))))
    case RepRelease(take) =>
      SetRx(s, p, y.(cursor := y.cursor + take, ring := DiscardBefore(y.ring, y.cursor + take),
                     slots := if y.slots == [] then [] else y.slots[1..], pc := RepNotify))
    case RepNotify => WakeNode(SetRx(s, p, y.(pc := RepRequest)), t.ports[p].node)
    case RepFailed => s
  }

  // ------------------------------------------------------------------------
  // Runs
  // ------------------------------------------------------------------------

  datatype Action =
    | APuller(p: nat)
    | AProducer(n: nat)
    | ARep(p: nat)
    | ARadioReply(p: nat, message: Option<seq<IqSample>>)
    | ARadioRequest(p: nat)

  predicate Enabled(t: Topology, s: State, a: Action)
    requires Shaped(t, s)
  {
    match a
    case APuller(p) => p < |t.ports| && PullerCanStep(t, s, p)
    case AProducer(n) => n < |t.nodes| && ProducerCanStep(t, s, n)
    case ARep(p) => p < |t.ports| && RepCanStep(t, s, p)
    case ARadioReply(p, _) => p < |t.ports| && s.tx[p].pc.PullReply?
    case ARadioRequest(p) => p < |t.ports| && t.ports[p].row >= 0 && s.rx[p].pc.RepRequest?
  }

  function Next(t: Topology, s: State, a: Action): (s': State)
    requires Wired(t) && Shaped(t, s) && Enabled(t, s, a)
    ensures Shaped(t, s')
  {
    match a
    case APuller(p) => PullerStep(t, s, p)
    case AProducer(n) => ProducerStep(t, s, n)
    case ARep(p) => RepStep(t, s, p)
    case ARadioReply(p, message) => RadioReply(t, s, p, message)
    case ARadioRequest(p) => SetRx(s, p, s.rx[p].(pc := RepTop))
  }

  /** s is reached from the start by performing `actions` one after the other. */
  ghost predicate Reaches(t: Topology, actions: seq<Action>, s: State)
    requires Wired(t)
    decreases |actions|
  {
    if actions == [] then s == Init(t)
    else exists before: State ::
      Reaches(t, actions[..|actions| - 1], before) && Shaped(t, before) &&
      Enabled(t, before, actions[|actions| - 1]) && s == Next(t, before, actions[|actions| - 1])
  }
}
