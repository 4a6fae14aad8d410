/** Left to themselves the workers come to rest: a measure that every step
    without a radio lowers, when every node has an RX port. */
module RelayProgress {
  import opened RingModel
  import opened Relay
  import opened RelaySafety
  import opened RelayProducer
  import opened RelayWake
  import opened RelayLive

  // ------------------------------------------------------------------------
  // Sums over the workers
  // ------------------------------------------------------------------------

  ghost function Total(f: nat -> nat, n: nat): nat
  {
    if n == 0 then 0 else Total(f, n - 1) + f(n - 1)
  }

  /** Nothing grows, but number i by at most d. */
  lemma {:induction false} TotalChange(f: nat -> nat, g: nat -> nat, n: nat, i: nat, d: int)
    requires i < n || d >= 0
    requires forall k: nat :: k < n ==> g(k) <= f(k) + (if k == i then d else 0)
    ensures Total(g, n) <= Total(f, n) + d
  {
    if n > 0 {
      TotalChange(f, g, n - 1, i, if i == n - 1 then 0 else d);
    }
  }

  function Budget(cost: nat, room: nat): nat { cost * room }

  lemma {:induction false} BudgetFalls(cost: nat, room: nat, less: nat)
    requires less <= room
    ensures Budget(cost, less) <= Budget(cost, room)
    ensures less < room ==> Budget(cost, less) + cost <= Budget(cost, room)
  {
    Parts(cost, less, room - less);
  }

  lemma {:induction false} Parts(cost: nat, a: nat, b: nat)
    ensures cost * (a + b) == cost * a + cost * b && (b > 0 ==> cost * b >= cost)
  {
    assert b > 0 ==> cost * b == cost * (b - 1) + cost;
  }

  // ------------------------------------------------------------------------
  // What a worker may still do on its own
  // ------------------------------------------------------------------------

  function Left(a: nat, b: nat): nat { if b <= a then a - b else 0 }

  /** A puller's way from the top to sleep or to its request. */
  function PullLoop(t: Topology): nat { |t.links| + 4 }

  function SourcesCost(t: Topology, todo: seq<nat>): nat
  {
    if todo == [] then 0 else PullLoop(t) + 2 + SourcesCost(t, todo[1..])
  }

  function AdvanceCost(t: Topology, node: Node): nat { SourcesCost(t, node.sources) + |node.lanes| + 3 }

  function ReadCost(t: Topology, node: Node): nat { AdvanceCost(t, node) + 2 * |node.rows| + 2 * |node.lanes| + 4 }

  function DataCost(t: Topology, node: Node): nat { ReadCost(t, node) + |node.lanes| + 2 }

  /** A producer's way from the top to its first publication. */
  function TopCost(t: Topology, node: Node): nat { DataCost(t, node) + |node.lanes| + |node.rows| + 3 }

  /** From there through its notifies to the next first publication. */
  function SlotCost(t: Topology, node: Node): nat { TopCost(t, node) + 5 * |node.rows| + 2 }

  /** A ticket that is out of date lets its holder start over. */
  function Again(ticket: nat, gen: nat, cost: nat): nat { if ticket < gen then cost + 1 else 0 }

  /** Steps up to the next sleep or the next first publication. */
  function Ahead(t: Topology, node: Node, x: Producer): nat
  {
    var lanes, rows, again := |node.lanes|, |node.rows|, TopCost(t, node);
    match x.pc
    case RoomTop => TopCost(t, node)
    case RoomCheck(ticket, r, _) => DataCost(t, node) + lanes + 2 + Left(rows, r) + Again(ticket, x.gen, again)
    case RoomSleep(ticket) => Again(ticket, x.gen, again)
    case AlignLane(k, _) => DataCost(t, node) + 1 + Left(lanes, k)
    case DataTop(_) => DataCost(t, node)
    case DataCheck(ticket, k, _, _) => ReadCost(t, node) + 1 + Left(lanes, k) + Again(ticket, x.gen, again)
    case DataSleep(ticket, _) => Again(ticket, x.gen, again)
    case ReadLane(k, _) => AdvanceCost(t, node) + 2 * rows + lanes + 4 + Left(lanes, k)
    case ReserveRow(r, _) => AdvanceCost(t, node) + rows + lanes + 3 + Left(rows, r)
    case ShapeLane(k, _) => AdvanceCost(t, node) + rows + 2 + Left(lanes, k)
    case FillRow(r, _) => AdvanceCost(t, node) + 1 + Left(rows, r)
    case AdvanceLane(k, _) => SourcesCost(t, node.sources) + 3 + Left(lanes, k)
    case NotifySources(todo, _) => SourcesCost(t, todo) + 2
    case PublishRow(r, _) => if r == 0 then 1 else TopCost(t, node) + 4 * rows + 2 + Left(rows, r)
    case NotifyRows(todo) => TopCost(t, node) + 4 * |todo| + 1
    case ProducerFailed => 0
  }

  /** The REP worker may still release the samples of a queued row. */
  predicate MayRelease(pc: RepPc)
  {
    match pc
    case RepTop => true
    case RepPop(_) => true
    case RepSleep(_) => true
    case RepSend(held, _) => held.InRing?
    case RepRelease(_) => true
    case _ => false
  }

  /** Samples that may still be published on a row. */
  function RoomLeft(port: Port, y: RxSide): nat
  {
    Left(port.highWater, y.ring.size) + if MayRelease(y.pc) then port.highWater else 0
  }

  function NodeCost(t: Topology, s: State, n: nat): nat
  {
    if n < |t.nodes| == |s.nodes| then
      var node := t.nodes[n];
      Ahead(t, node, s.nodes[n]) +
      if node.rows != [] && node.rows[0] < |t.ports| == |s.rx| then
        Budget(SlotCost(t, node), RoomLeft(t.ports[node.rows[0]], s.rx[node.rows[0]]))
      else 0
    else 0
  }

  /** What waking node n may add to it. */
  function NodeWakeCost(t: Topology, n: nat): nat
  {
    if n < |t.nodes| then TopCost(t, t.nodes[n]) + 1 else 0
  }

  function ConsumersCost(t: Topology, todo: seq<nat>): nat
  {
    if todo == [] then 0 else NodeWakeCost(t, todo[0]) + 1 + ConsumersCost(t, todo[1..])
  }

  function PullCost(t: Topology, s: State, p: nat): nat
  {
    if p < |t.ports| == |s.tx| then
      var x, again := s.tx[p], PullLoop(t);
      (if x.pending != [] then ConsumersCost(t, t.ports[p].consumers) + again + 1 else 0) +
      match x.pc
      case PullTop => again
      case PullScan(ticket, i, _, _, _) => 3 + Left(|t.links|, i) + Again(ticket, x.gen, again)
      case PullLand(ticket) => 2 + Again(ticket, x.gen, again)
      case PullNotify(todo) => ConsumersCost(t, todo) + again + 2
      case PullSleep(ticket) => Again(ticket, x.gen, again)
      case PullReply => 0
      case PullFailed => 0
    else 0
  }

  function RepCost(t: Topology, s: State, p: nat): nat
  {
    if p < |t.ports| == |s.rx| then
      var y, wake := s.rx[p], NodeWakeCost(t, t.ports[p].node);
      match y.pc
      case RepRequest => 0
      case RepTop => wake + 5
      case RepPop(ticket) => wake + 4 + Again(ticket, y.gen, 2)
      case RepSleep(ticket) => wake + 3 + Again(ticket, y.gen, 2)
      case RepWakeNode(_) => wake + 2
      case RepSend(held, _) => if held.InRing? then wake + 3 else 1
      case RepRelease(_) => wake + 2
      case RepNotify => wake + 1
      case RepFailed => 0
    else 0
  }

  /** No more steps than this without a radio. */
  ghost function Measure(t: Topology, s: State): nat
  {
    Total((p: nat) => PullCost(t, s, p), |t.ports|) + Total((n: nat) => NodeCost(t, s, n), |t.nodes|) +
    Total((p: nat) => RepCost(t, s, p), |t.ports|)
  }

  /** The step changes puller p, node n and REP worker q by at most these. */
  lemma {:induction false} MeasureChange(t: Topology, s: State, s': State, p: nat, dp: int, n: nat, dn: int, q: nat, dq: int)
    requires (p < |t.ports| || dp >= 0) && (n < |t.nodes| || dn >= 0) && (q < |t.ports| || dq >= 0)
    requires forall k: nat :: k < |t.ports| ==> PullCost(t, s', k) <= PullCost(t, s, k) + (if k == p then dp else 0)
    requires forall k: nat :: k < |t.nodes| ==> NodeCost(t, s', k) <= NodeCost(t, s, k) + (if k == n then dn else 0)
    requires forall k: nat :: k < |t.ports| ==> RepCost(t, s', k) <= RepCost(t, s, k) + (if k == q then dq else 0)
    ensures Measure(t, s') <= Measure(t, s) + dp + dn + dq
  {
    hide PullCost, NodeCost, RepCost;
    TotalChange((k: nat) => PullCost(t, s, k), (k: nat) => PullCost(t, s', k), |t.ports|, p, dp);
    TotalChange((k: nat) => NodeCost(t, s, k), (k: nat) => NodeCost(t, s', k), |t.nodes|, n, dn);
    TotalChange((k: nat) => RepCost(t, s, k), (k: nat) => RepCost(t, s', k), |t.ports|, q, dq);
  }

  // ------------------------------------------------------------------------
  // Pullers
  // ------------------------------------------------------------------------

  lemma {:induction false} PullerOwn(t: Topology, s: State, p: nat)
    requires ValidTopology(t) && Inv(t, s) && WakeInv(t, s) && p < |t.ports| && PullerCanStep(t, s, p)
    ensures var x := s.tx[p];
            PullCost(t, PullerStep(t, s, p), p) + 1 +
            (if x.pc.PullNotify? && x.pc.todo != [] then NodeWakeCost(t, x.pc.todo[0]) else 0) <= PullCost(t, s, p)
  {
    hide NodeWakeCost, Release, CanPush, Push;
    assert TxOk(t, s, p);
    assert TxWake(t, s, p);
  }

  lemma {:induction false} WokenNode(t: Topology, s: State, n: nat, k: nat)
    requires Shaped(t, s)
    ensures NodeCost(t, WakeNode(s, n), k) <= NodeCost(t, s, k) + if k == n then NodeWakeCost(t, n) else 0
  {
    hide TopCost, DataCost, ReadCost, AdvanceCost, Budget, RoomLeft, SourcesCost;
  }

  /** The node a puller's step wakes, past the last when it wakes none. */
  ghost function Wakes(t: Topology, x: TxSide): nat
  {
    if x.pc.PullNotify? && x.pc.todo != [] then x.pc.todo[0] else |t.nodes|
  }

  lemma {:induction false} PullerOthers(t: Topology, s: State, p: nat, k: nat)
    requires Shaped(t, s) && p < |t.ports| && PullerCanStep(t, s, p)
    ensures k != p ==> PullCost(t, PullerStep(t, s, p), k) == PullCost(t, s, k)
    ensures RepCost(t, PullerStep(t, s, p), k) == RepCost(t, s, k)
  {
    hide NodeWakeCost, ConsumersCost, Release, CanPush, Push, Again;
  }

  lemma {:induction false} PullerNodes(t: Topology, s: State, p: nat, k: nat)
    requires Shaped(t, s) && p < |t.ports| && PullerCanStep(t, s, p)
    ensures NodeCost(t, PullerStep(t, s, p), k) <=
            NodeCost(t, s, k) + if k == Wakes(t, s.tx[p]) then NodeWakeCost(t, k) else 0
  {
    hide NodeWakeCost, Release, CanPush, Push, Ahead, Budget, SlotCost, RoomLeft;
    var x := s.tx[p];
    if Wakes(t, x) < |t.nodes| {
      WokenNode(t, SetTx(s, p, x.(pc := PullNotify(x.pc.todo[1..]))), x.pc.todo[0], k);
    }
  }

  lemma {:induction false} PullerDrops(t: Topology, s: State, p: nat)
    requires ValidTopology(t) && Inv(t, s) && WakeInv(t, s) && p < |t.ports| && PullerCanStep(t, s, p)
    ensures Measure(t, PullerStep(t, s, p)) < Measure(t, s)
  {
    var s', n := PullerStep(t, s, p), Wakes(t, s.tx[p]);
    var dn: int := if n < |t.nodes| then NodeWakeCost(t, n) else 0;
    PullerOwn(t, s, p);
    assert PullCost(t, s', p) + 1 + dn <= PullCost(t, s, p) by {
      hide PullCost, PullerStep;
    }
    hide Inv, WakeInv, Measure, PullCost, NodeCost, RepCost, PullerStep, Wakes, NodeWakeCost;
    forall k: nat
      ensures k != p ==> PullCost(t, s', k) == PullCost(t, s, k)
      ensures RepCost(t, s', k) == RepCost(t, s, k)
      ensures NodeCost(t, s', k) <= NodeCost(t, s, k) + if k == n then NodeWakeCost(t, k) else 0
    {
      PullerOthers(t, s, p, k);
      PullerNodes(t, s, p, k);
    }
    MeasureChange(t, s, s', p, -1 - dn, n, dn, 0, 0);
  }

  // ------------------------------------------------------------------------
  // REP workers
  // ------------------------------------------------------------------------

  lemma {:induction false} RepOwn(t: Topology, s: State, p: nat)
    requires ValidTopology(t) && Inv(t, s) && WakeInv(t, s) && p < |t.ports| && RepCanStep(t, s, p)
    ensures var y := s.rx[p];
            RepCost(t, RepStep(t, s, p), p) + 1 +
            (if y.pc.RepWakeNode? || y.pc.RepNotify? then NodeWakeCost(t, t.ports[p].node) else 0) <= RepCost(t, s, p)
  {
    hide NodeWakeCost, View, CanRead, Read, DiscardBefore, Cells;
    assert ValidPort(t, p);
    assert RxWake(t, s, p);
  }

  /** A release uses up the chance to release. */
  lemma {:induction false} RepRoom(t: Topology, s: State, p: nat)
    requires ValidTopology(t) && Inv(t, s) && p < |t.ports| && RepCanStep(t, s, p)
    ensures RoomLeft(t.ports[p], RepStep(t, s, p).rx[p]) <= RoomLeft(t.ports[p], s.rx[p])
  {
    hide View, CanRead, Read, DiscardBefore, Cells;
    assert ValidPort(t, p);
    assert RxOk(t, s, p);
  }

  lemma {:induction false} RepDrops(t: Topology, s: State, p: nat)
    requires ValidTopology(t) && Inv(t, s) && WakeInv(t, s) && p < |t.ports| && RepCanStep(t, s, p)
    ensures Measure(t, RepStep(t, s, p)) < Measure(t, s)
  {
    var s' := RepStep(t, s, p);
    hide NodeWakeCost, View, CanRead, Read, DiscardBefore, Cells, Inv, WakeInv, Measure, RoomLeft, Ahead, Budget, SlotCost,
         Feeds, WiredPort, NodeCost;
    RepOwn(t, s, p);
    RepRoom(t, s, p);
    var y, n := s.rx[p], t.ports[p].node;
    var wakes := y.pc.RepWakeNode? || y.pc.RepNotify?;
    var dn: int := if wakes then NodeWakeCost(t, n) else 0;
    var own := SetRx(s, p, s'.rx[p]);
    assert s' == if wakes then WakeNode(own, n) else own;
    forall k: nat
      ensures NodeCost(t, s', k) <= NodeCost(t, s, k) + if k == n then dn else 0
    {
      RepOwnNode(t, s, p, k, s'.rx[p]);
      WokenNode(t, own, n, k);
    }
    MeasureChange(t, s, s', 0, 0, n, dn, p, -1 - dn);
  }

  lemma {:induction false} RepOwnNode(t: Topology, s: State, p: nat, k: nat, y: RxSide)
    requires Shaped(t, s) && p < |t.ports| && RoomLeft(t.ports[p], y) <= RoomLeft(t.ports[p], s.rx[p])
    ensures NodeCost(t, SetRx(s, p, y), k) <= NodeCost(t, s, k)
  {
    hide RoomLeft, Ahead, Budget, SlotCost;
    if k < |t.nodes| {
      BudgetFalls(SlotCost(t, t.nodes[k]), RoomLeft(t.ports[p], s.rx[p]), RoomLeft(t.ports[p], y));
    }
  }

  // ------------------------------------------------------------------------
  // Producers
  // ------------------------------------------------------------------------

  lemma {:induction false} WindowOwn(t: Topology, s: State, n: nat)
    requires ValidTopology(t) && Inv(t, s) && WakeInv(t, s) && n < |t.nodes| && ProducerCanStep(t, s, n)
    requires s.nodes[n].pc.RoomTop? || s.nodes[n].pc.RoomCheck? || s.nodes[n].pc.RoomSleep? || s.nodes[n].pc.AlignLane? ||
             s.nodes[n].pc.DataTop? || s.nodes[n].pc.DataCheck? || s.nodes[n].pc.DataSleep?
    ensures var s' := ProducerStep(t, s, n);
            Ahead(t, t.nodes[n], s'.nodes[n]) < Ahead(t, t.nodes[n], s.nodes[n]) &&
            s' == SetNode(s, n, s'.nodes[n])
  {
    hide AdvanceCost, Headroom, SourcesCost, First;
    assert ValidNode(t, n);
    assert NodeOk(t, s, n);
    assert NodeWake(t, s, n);
  }

  lemma {:induction false} ChannelOwn(t: Topology, s: State, n: nat)
    requires ValidTopology(t) && Inv(t, s) && n < |t.nodes| && ProducerCanStep(t, s, n)
    requires s.nodes[n].pc.ReadLane? || s.nodes[n].pc.ReserveRow? || s.nodes[n].pc.ShapeLane? || s.nodes[n].pc.FillRow?
    ensures var s' := ProducerStep(t, s, n);
            Ahead(t, t.nodes[n], s'.nodes[n]) < Ahead(t, t.nodes[n], s.nodes[n])
  {
    hide SourcesCost, View, CanRead, Read, Reserve, Cells, Fill, Rows, Contents, LastRow, End;
    assert ValidNode(t, n);
    assert NodeOk(t, s, n);
  }

  /** Channel steps leave every row's size and REP worker as they were. */
  lemma {:induction false} ChannelRooms(t: Topology, s: State, n: nat, p: nat)
    requires ValidTopology(t) && Shaped(t, s) && n < |t.nodes| && ProducerCanStep(t, s, n) && p < |t.ports|
    requires s.nodes[n].pc.ReadLane? || s.nodes[n].pc.ReserveRow? || s.nodes[n].pc.ShapeLane? || s.nodes[n].pc.FillRow?
    ensures var s' := ProducerStep(t, s, n);
            s'.tx == s.tx && s'.rx[p].ring.size == s.rx[p].ring.size && s'.rx[p].pc == s.rx[p].pc && s'.rx[p].gen == s.rx[p].gen
  {
    hide View, CanRead, Read, Reserve, Cells, Rows, Contents, LastRow, End;
    assert ValidNode(t, n);
  }

  lemma {:induction false} ChannelNodes(t: Topology, s: State, n: nat, k: nat)
    requires ValidTopology(t) && Shaped(t, s) && n < |t.nodes| && ProducerCanStep(t, s, n) && k < |t.nodes|
    requires s.nodes[n].pc.ReadLane? || s.nodes[n].pc.ReserveRow? || s.nodes[n].pc.ShapeLane? || s.nodes[n].pc.FillRow?
    ensures k != n ==> ProducerStep(t, s, n).nodes[k] == s.nodes[k]
  {
    hide View, CanRead, Read, Reserve, Cells, Rows, Contents, LastRow, End, Fill;
  }

  lemma {:induction false} ChannelDrops(t: Topology, s: State, n: nat)
    requires ValidTopology(t) && Inv(t, s) && n < |t.nodes| && ProducerCanStep(t, s, n)
    requires s.nodes[n].pc.ReadLane? || s.nodes[n].pc.ReserveRow? || s.nodes[n].pc.ShapeLane? || s.nodes[n].pc.FillRow?
    ensures Measure(t, ProducerStep(t, s, n)) < Measure(t, s)
  {
    var s' := ProducerStep(t, s, n);
    hide Measure, Ahead, Budget, SlotCost, Inv, NodeWakeCost, ProducerStep;
    ChannelOwn(t, s, n);
    forall k: nat | k < |t.ports|
      ensures PullCost(t, s', k) == PullCost(t, s, k) && RepCost(t, s', k) == RepCost(t, s, k)
      ensures RoomLeft(t.ports[k], s'.rx[k]) == RoomLeft(t.ports[k], s.rx[k])
    {
      ChannelRooms(t, s, n, k);
      SameCosts(t, s, s', k);
    }
    forall k: nat | k < |t.nodes|
      ensures NodeCost(t, s', k) <= NodeCost(t, s, k) + if k == n then -1 else 0
    {
      ChannelNodes(t, s, n, k);
      SameRooms(t, s, s', n, k);
    }
    MeasureChange(t, s, s', 0, 0, n, -1, 0, 0);
  }

  lemma {:induction false} SameCosts(t: Topology, s: State, s': State, k: nat)
    requires Shaped(t, s) && Shaped(t, s') && k < |t.ports| && s'.tx[k] == s.tx[k]
    requires s'.rx[k].ring.size == s.rx[k].ring.size && s'.rx[k].pc == s.rx[k].pc && s'.rx[k].gen == s.rx[k].gen
    ensures PullCost(t, s', k) == PullCost(t, s, k) && RepCost(t, s', k) == RepCost(t, s, k)
    ensures RoomLeft(t.ports[k], s'.rx[k]) == RoomLeft(t.ports[k], s.rx[k])
  {
    hide ConsumersCost, PullLoop, NodeWakeCost;
  }

  lemma {:induction false} WindowDrops(t: Topology, s: State, n: nat)
    requires ValidTopology(t) && Inv(t, s) && WakeInv(t, s) && n < |t.nodes| && ProducerCanStep(t, s, n)
    requires s.nodes[n].pc.RoomTop? || s.nodes[n].pc.RoomCheck? || s.nodes[n].pc.RoomSleep? || s.nodes[n].pc.AlignLane? ||
             s.nodes[n].pc.DataTop? || s.nodes[n].pc.DataCheck? || s.nodes[n].pc.DataSleep?
    ensures Measure(t, ProducerStep(t, s, n)) < Measure(t, s)
  {
    var s' := ProducerStep(t, s, n);
    hide Measure, Ahead, Budget, SlotCost, Inv, WakeInv, NodeWakeCost, ProducerStep, RoomLeft;
    WindowOwn(t, s, n);
    MeasureChange(t, s, s', 0, 0, n, -1, 0, 0);
  }

  lemma {:induction false} WokenPuller(t: Topology, s: State, p: nat, k: nat)
    requires Shaped(t, s)
    ensures PullCost(t, WakePuller(s, p), k) <= PullCost(t, s, k) + if k == p then PullLoop(t) + 1 else 0
  {
    hide ConsumersCost, PullLoop;
  }

  lemma {:induction false} WokenRep(t: Topology, s: State, p: nat, k: nat)
    requires Shaped(t, s)
    ensures RepCost(t, WakeRep(s, p), k) <= RepCost(t, s, k) + if k == p then 3 else 0
  {
    hide NodeWakeCost;
  }

  lemma {:induction false} SameRooms(t: Topology, s: State, s': State, n: nat, k: nat)
    requires Shaped(t, s) && Shaped(t, s') && k < |t.nodes| && (k != n ==> s'.nodes[k] == s.nodes[k])
    requires forall p: nat :: p < |t.ports| ==> RoomLeft(t.ports[p], s'.rx[p]) == RoomLeft(t.ports[p], s.rx[p])
    ensures NodeCost(t, s', k) == NodeCost(t, s, k) +
              if k == n then Ahead(t, t.nodes[n], s'.nodes[n]) - Ahead(t, t.nodes[n], s.nodes[n]) else 0
  {
    hide Ahead, Budget, SlotCost, RoomLeft;
  }

  lemma {:induction false} NotifySourcesDrops(t: Topology, s: State, n: nat)
    requires ValidTopology(t) && Inv(t, s) && n < |t.nodes| && s.nodes[n].pc.NotifySources?
    ensures Measure(t, ProducerStep(t, s, n)) < Measure(t, s)
  {
    var s', x := ProducerStep(t, s, n), s.nodes[n];
    hide Measure, Budget, SlotCost, Inv, RoomLeft, TopCost, DataCost, ReadCost, PullLoop, Feeds, WiredPort, PullCost, RepCost;
    var p := if x.pc.todo != [] then x.pc.todo[0] else 0;
    var dp: int := if x.pc.todo != [] then PullLoop(t) + 1 else 0;
    forall k: nat | k < |t.ports|
      ensures PullCost(t, s', k) <= PullCost(t, s, k) + if k == p then dp else 0
    {
      WokenPuller(t, SetNode(s, n, s'.nodes[n]), p, k);
      PullsNothing(t, s, n, s'.nodes[n], k);
    }
    forall k: nat | k < |t.nodes|
      ensures NodeCost(t, s', k) <= NodeCost(t, s, k) + if k == n then -1 - dp else 0
    {
      SameRooms(t, s, s', n, k);
    }
    MeasureChange(t, s, s', p, dp, n, -1 - dp, 0, 0);
  }

  lemma {:induction false} PullsNothing(t: Topology, s: State, n: nat, x: Producer, k: nat)
    requires n < |s.nodes|
    ensures PullCost(t, SetNode(s, n, x), k) == PullCost(t, s, k) && RepCost(t, SetNode(s, n, x), k) == RepCost(t, s, k)
  {
    hide ConsumersCost, PullLoop, NodeWakeCost;
  }

  lemma {:induction false} NotifyRowsDrops(t: Topology, s: State, n: nat)
    requires ValidTopology(t) && Inv(t, s) && n < |t.nodes| && s.nodes[n].pc.NotifyRows?
    ensures Measure(t, ProducerStep(t, s, n)) < Measure(t, s)
  {
    var s', x := ProducerStep(t, s, n), s.nodes[n];
    hide Measure, Budget, SlotCost, Inv, TopCost, DataCost, ReadCost, Feeds, WiredPort, PullCost, RepCost;
    var p := if x.pc.todo != [] then x.pc.todo[0] else 0;
    var dp: int := if x.pc.todo != [] then 3 else 0;
    forall k: nat | k < |t.ports|
      ensures RepCost(t, s', k) <= RepCost(t, s, k) + if k == p then dp else 0
    {
      WokenRep(t, SetNode(s, n, s'.nodes[n]), p, k);
      PullsNothing(t, s, n, s'.nodes[n], k);
    }
    forall k: nat | k < |t.nodes|
      ensures NodeCost(t, s', k) <= NodeCost(t, s, k) + if k == n then -1 - dp else 0
    {
      SameRooms(t, s, s', n, k);
    }
    MeasureChange(t, s, s', 0, 0, n, -1 - dp, p, dp);
  }

  lemma {:induction false} AdvanceDrops(t: Topology, s: State, n: nat)
    requires ValidTopology(t) && Inv(t, s) && n < |t.nodes| && s.nodes[n].pc.AdvanceLane?
    ensures Measure(t, ProducerStep(t, s, n)) < Measure(t, s)
  {
    hide Measure, Budget, SlotCost, RoomLeft, SourcesCost, PullCost, RepCost;
    var s' := ProducerStep(t, s, n);
    assert ValidNode(t, n);
    assert NodeOk(t, s, n);
    forall k: nat | k < |t.ports|
      ensures PullCost(t, s', k) == PullCost(t, s, k) && RepCost(t, s', k) == RepCost(t, s, k)
    {
      PullsNothing(t, s, n, s'.nodes[n], k);
    }
    forall k: nat | k < |t.nodes|
      ensures NodeCost(t, s', k) <= NodeCost(t, s, k) + if k == n then -1 else 0
    {
      SameRooms(t, s, s', n, k);
    }
    MeasureChange(t, s, s', 0, 0, n, -1, 0, 0);
  }

  // ------------------------------------------------------------------------
  // Publication
  // ------------------------------------------------------------------------

  /** Publishing the first row pays for the whole of the next slot. */
  lemma {:induction false} PublishOwn(t: Topology, s: State, n: nat)
    requires ValidTopology(t) && Inv(t, s) && n < |t.nodes| && s.nodes[n].pc.PublishRow? && t.nodes[n].rows != []
    ensures NodeCost(t, ProducerStep(t, s, n), n) < NodeCost(t, s, n)
  {
    var node, x, s' := t.nodes[n], s.nodes[n], ProducerStep(t, s, n);
    assert ValidNode(t, n);
    assert NodeOk(t, s, n);
    if x.pc.r < |node.rows| {
      RowPublished(t, s, n);
      if x.pc.r == 0 {
        var p := node.rows[0];
        assert RxOk(t, s, p);
        RoomShrinks(t.ports[p], s.rx[p], s'.rx[p]);
        BudgetFalls(SlotCost(t, node), RoomLeft(t.ports[p], s.rx[p]), RoomLeft(t.ports[p], s'.rx[p]));
      } else {
        assert node.rows[x.pc.r] != node.rows[0];
      }
    }
  }

  lemma {:induction false} RoomShrinks(port: Port, y: RxSide, y': RxSide)
    requires y'.pc == y.pc && y.ring.size < y'.ring.size <= port.highWater
    ensures RoomLeft(port, y') < RoomLeft(port, y)
  {
  }

  lemma {:induction false} PublishOthers(t: Topology, s: State, n: nat, k: nat)
    requires ValidTopology(t) && Inv(t, s) && n < |t.nodes| && s.nodes[n].pc.PublishRow?
    ensures k < |t.ports| ==> PullCost(t, ProducerStep(t, s, n), k) == PullCost(t, s, k)
    ensures k < |t.ports| ==> RepCost(t, ProducerStep(t, s, n), k) == RepCost(t, s, k)
    ensures k < |t.nodes| && k != n ==> NodeCost(t, ProducerStep(t, s, n), k) == NodeCost(t, s, k)
  {
    var node, x, s' := t.nodes[n], s.nodes[n], ProducerStep(t, s, n);
    if x.pc.r < |node.rows| {
      RowPublished(t, s, n);
      hide Inv, ProducerStep, ConsumersCost, NodeWakeCost, Ahead, SlotCost, Budget, RoomLeft, Represents, Feeds, WiredPort;
      OtherCosts(t, s, s', n, node.rows[x.pc.r], k);
    } else {
      hide Inv, ConsumersCost, NodeWakeCost, Ahead, SlotCost, Budget, RoomLeft, Feeds, WiredPort;
    }
  }

  /** Only node n and the ring of one of its rows change. */
  lemma {:induction false} OtherCosts(t: Topology, s: State, s': State, n: nat, p: nat, k: nat)
    requires ValidTopology(t) && Shaped(t, s) && n < |t.nodes| && p < |t.ports| && t.ports[p].node == n
    requires |s'.nodes| == |s.nodes| && |s'.rx| == |s.rx| && s' == SetRx(SetNode(s, n, s'.nodes[n]), p, s'.rx[p])
    requires s'.rx[p].pc == s.rx[p].pc && s'.rx[p].gen == s.rx[p].gen
    ensures k < |t.ports| ==> PullCost(t, s', k) == PullCost(t, s, k) && RepCost(t, s', k) == RepCost(t, s, k)
    ensures k < |t.nodes| && k != n ==> NodeCost(t, s', k) == NodeCost(t, s, k)
  {
    hide ConsumersCost, NodeWakeCost, Ahead, SlotCost, Budget, RoomLeft, Feeds, WiredPort;
    if k < |t.nodes| && k != n {
      assert ValidNode(t, k);
    }
  }

  lemma {:induction false} PublishDrops(t: Topology, s: State, n: nat)
    requires ValidTopology(t) && Inv(t, s) && n < |t.nodes| && s.nodes[n].pc.PublishRow? && t.nodes[n].rows != []
    ensures Measure(t, ProducerStep(t, s, n)) < Measure(t, s)
  {
    var s' := ProducerStep(t, s, n);
    hide Measure, Inv, NodeCost, PullCost, RepCost, ProducerStep;
    PublishOwn(t, s, n);
    forall k: nat
      ensures k < |t.ports| ==> PullCost(t, s', k) == PullCost(t, s, k) && RepCost(t, s', k) == RepCost(t, s, k)
      ensures k < |t.nodes| && k != n ==> NodeCost(t, s', k) == NodeCost(t, s, k)
    {
      PublishOthers(t, s, n, k);
    }
    MeasureChange(t, s, s', 0, 0, n, -1, 0, 0);
  }

  lemma {:induction false} ProducerDrops(t: Topology, s: State, n: nat)
    requires ValidTopology(t) && Inv(t, s) && WakeInv(t, s) && n < |t.nodes| && ProducerCanStep(t, s, n)
    requires t.nodes[n].rows != []
    ensures Measure(t, ProducerStep(t, s, n)) < Measure(t, s)
  {
    assert Shaped(t, s);
    var pc := s.nodes[n].pc;
    hide Measure, Inv, WakeInv, ProducerStep;
    if pc.ReadLane? || pc.ReserveRow? || pc.ShapeLane? || pc.FillRow? {
      ChannelDrops(t, s, n);
    } else if pc.AdvanceLane? {
      AdvanceDrops(t, s, n);
    } else if pc.NotifySources? {
      NotifySourcesDrops(t, s, n);
    } else if pc.PublishRow? {
      PublishDrops(t, s, n);
    } else if pc.NotifyRows? {
      NotifyRowsDrops(t, s, n);
    } else {
      WindowDrops(t, s, n);
    }
  }

  // ------------------------------------------------------------------------
  // Runs without a radio
  // ------------------------------------------------------------------------

  predicate IsRadio(a: Action) { a.ARadioReply? || a.ARadioRequest? }

  /** Every node has an RX port. */
  predicate RowsEverywhere(t: Topology) { forall n :: 0 <= n < |t.nodes| ==> t.nodes[n].rows != [] }

  /** The workers take s to s' by the steps `own`. */
  ghost predicate Continues(t: Topology, s: State, own: seq<Action>, s': State)
    requires Wired(t)
    decreases |own|
  {
    if own == [] then s' == s
    else exists before: State ::
      Continues(t, s, own[..|own| - 1], before) && Shaped(t, before) && !IsRadio(own[|own| - 1]) &&
      Enabled(t, before, own[|own| - 1]) && s' == Next(t, before, own[|own| - 1])
  }

  lemma {:induction false} StepDrops(t: Topology, s: State, a: Action)
    requires ValidTopology(t) && Inv(t, s) && WakeInv(t, s) && RowsEverywhere(t) && Enabled(t, s, a) && !IsRadio(a)
    ensures Measure(t, Next(t, s, a)) < Measure(t, s)
  {
    assert Shaped(t, s);
    hide Inv, WakeInv, Measure;
    match a {
      case APuller(p) => PullerDrops(t, s, p);
      case AProducer(n) => ProducerDrops(t, s, n);
      case ARep(p) => RepDrops(t, s, p);
    }
  }

  lemma {:induction false} ContinuedRun(t: Topology, actions: seq<Action>, s: State, own: seq<Action>, s': State)
    requires Wired(t) && Reaches(t, actions, s) && Continues(t, s, own, s')
    ensures Reaches(t, actions + own, s')
    decreases |own|
  {
    hide Next, Enabled, Shaped, Init;
    if own == [] {
      assert actions + own == actions;
    } else {
      var last := own[|own| - 1];
      var before: State :|
        Continues(t, s, own[..|own| - 1], before) && Shaped(t, before) && !IsRadio(last) &&
        Enabled(t, before, last) && s' == Next(t, before, last);
      ContinuedRun(t, actions, s, own[..|own| - 1], before);
      var longer := Then(t, actions + own[..|own| - 1], before, last);
      assert actions + own == (actions + own[..|own| - 1]) + [last];
      assert (actions + own)[..|actions + own| - 1] == actions + own[..|own| - 1];
    }
  }

  /** However they are scheduled, the workers take at most Measure steps between
      two turns of the radios. */
  lemma {:induction false} RadioFreeRunsEnd(t: Topology, actions: seq<Action>, s: State, own: seq<Action>, s': State)
    requires ValidTopology(t) && RowsEverywhere(t) && Reaches(t, actions, s) && Continues(t, s, own, s')
    ensures |own| + Measure(t, s') <= Measure(t, s)
    decreases |own|
  {
    hide Measure;
    if own != [] {
      var last := own[|own| - 1];
      var before: State :|
        Continues(t, s, own[..|own| - 1], before) && Shaped(t, before) && !IsRadio(last) &&
        Enabled(t, before, last) && s' == Next(t, before, last);
      RadioFreeRunsEnd(t, actions, s, own[..|own| - 1], before);
      ContinuedRun(t, actions, s, own[..|own| - 1], before);
      ReachableWakes(t, actions + own[..|own| - 1], before);
      StepDrops(t, before, last);
    }
  }

  /** A step that is enabled, if any. */
  lemma {:induction false} SomeStep(t: Topology, s: State) returns (a: Action)
    requires Shaped(t, s) && !Quiet(t, s)
    ensures Enabled(t, s, a) && !IsRadio(a)
  {
    if p :| 0 <= p < |t.ports| && PullerCanStep(t, s, p) {
      a := APuller(p);
    } else if p :| 0 <= p < |t.ports| && RepCanStep(t, s, p) {
      a := ARep(p);
    } else {
      var n :| 0 <= n < |t.nodes| && ProducerCanStep(t, s, n);
      a := AProducer(n);
    }
  }

  /** From every reachable state the workers can be run until none has a step. */
  lemma {:induction false} WorkersComeToRest(t: Topology, actions: seq<Action>, s: State)
      returns (own: seq<Action>, s': State)
    requires ValidTopology(t) && RowsEverywhere(t) && Reaches(t, actions, s)
    ensures Continues(t, s, own, s') && Shaped(t, s') && Quiet(t, s')
  {
    hide Measure, Quiet;
    own, s' := [], s;
    own, s' := RestFrom(t, actions, s, own, s');
  }

  lemma {:induction false} RestFrom(t: Topology, actions: seq<Action>, s: State, own: seq<Action>, now: State)
      returns (longer: seq<Action>, s': State)
    requires ValidTopology(t) && RowsEverywhere(t) && Reaches(t, actions, s) && Continues(t, s, own, now)
    ensures Continues(t, s, longer, s') && Shaped(t, s') && Quiet(t, s')
    decreases Measure(t, now)
  {
    hide Measure, Quiet;
    ContinuedRun(t, actions, s, own, now);
    ReachableWakes(t, actions + own, now);
    longer, s' := own, now;
    if !Quiet(t, now) {
      var a := SomeStep(t, now);
      StepDrops(t, now, a);
      assert (own + [a])[..|own + [a]| - 1] == own;
      longer, s' := RestFrom(t, actions, s, own + [a], Next(t, now, a));
    }
  }

  lemma {:induction false} NotByWorkers(t: Topology, s: State, a: Action, q: nat)
    requires Wired(t) && Shaped(t, s) && Enabled(t, s, a) && !IsRadio(a) && q < |t.ports| && !s.tx[q].pc.PullFailed?
    ensures !Next(t, s, a).tx[q].pc.PullFailed?
  {
    hide Release, CanPush, Push, View, CanRead, Read, Reserve, Cells, Rows, Contents, LastRow, End, Fill, DiscardBefore;
  }

  lemma {:induction false} OversizeIsTheRadios(t: Topology, s: State, own: seq<Action>, s': State)
    requires Wired(t) && Shaped(t, s) && Continues(t, s, own, s')
    requires forall q :: 0 <= q < |t.ports| ==> !s.tx[q].pc.PullFailed?
    ensures Shaped(t, s') && forall q :: 0 <= q < |t.ports| ==> !s'.tx[q].pc.PullFailed?
    decreases |own|
  {
    hide Next, Enabled;
    if own != [] {
      var last := own[|own| - 1];
      var before: State :|
        Continues(t, s, own[..|own| - 1], before) && Shaped(t, before) && !IsRadio(last) &&
        Enabled(t, before, last) && s' == Next(t, before, last);
      OversizeIsTheRadios(t, s, own[..|own| - 1], before);
      forall q: nat | q < |t.ports|
        ensures !s'.tx[q].pc.PullFailed?
      {
        NotByWorkers(t, before, last, q);
      }
    }
  }

  /** After any run of the workers that cannot be continued, every worker's chain
      of waits ends at a radio. */
  lemma {:induction false} RestAwaitsRadio(t: Topology, actions: seq<Action>, s: State, own: seq<Action>, s': State, w: Worker)
      returns (path: seq<Worker>)
    requires ValidTopology(t) && Reaches(t, actions, s) && Continues(t, s, own, s') && IsWorker(t, w)
    requires Shaped(t, s) && forall q :: 0 <= q < |t.ports| ==> !s.tx[q].pc.PullFailed?
    requires Shaped(t, s') && Quiet(t, s')
    ensures Chain(t, s', path) && path[0] == w && AwaitsRadio(t, s', path[|path| - 1])
  {
    ContinuedRun(t, actions, s, own, s');
    OversizeIsTheRadios(t, s, own, s');
    path := QuietAwaitsRadio(t, actions + own, s', w);
  }

  // ------------------------------------------------------------------------
  // A node without an RX port
  // ------------------------------------------------------------------------

  /** It finds room and data always. */
  ghost predicate Awake(t: Topology, s: State, n: nat)
    requires Shaped(t, s) && n < |t.nodes|
  {
    match s.nodes[n].pc
    case RoomCheck(_, _, room) => room == t.nodes[n].batch
    case RoomSleep(_) => false
    case DataCheck(_, _, _, _) => false
    case DataSleep(_, _) => false
    case ProducerFailed => false
    case _ => true
  }

  lemma {:induction false} NoRowsNoLanes(t: Topology, n: nat)
    requires ValidTopology(t) && n < |t.nodes| && t.nodes[n].rows == []
    ensures t.nodes[n].lanes == [] && t.nodes[n].batch > 0
  {
    assert ValidNode(t, n);
    var lanes := t.nodes[n].lanes;
    var first: int := if |lanes| > 0 then lanes[0].row else -1;
    assert first < |t.nodes[n].rows|;
  }

  lemma {:induction false} OthersOnlyWake(t: Topology, s: State, n: nat, a: Action)
    requires Wired(t) && Shaped(t, s) && Enabled(t, s, a) && n < |t.nodes| && a != AProducer(n)
    ensures Next(t, s, a).nodes[n] == s.nodes[n].(gen := Next(t, s, a).nodes[n].gen)
  {
    hide Release, CanPush, Push, View, CanRead, Read, DiscardBefore, Cells, Reserve, Rows, Contents, LastRow, End, Fill,
         Headroom, First, Commit, Feeds, ValidNode, WiredPort;
  }

  lemma {:induction false} AwakeStays(t: Topology, s: State, n: nat, a: Action)
    requires ValidTopology(t) && Shaped(t, s) && Enabled(t, s, a) && n < |t.nodes| && t.nodes[n].rows == [] && Awake(t, s, n)
    ensures Awake(t, Next(t, s, a), n)
  {
    NoRowsNoLanes(t, n);
    if a == AProducer(n) {
      hide View, CanRead, Read, Reserve, Cells, Rows, Contents, LastRow, End, Fill, CanPush, Push, Headroom, Commit, First,
           Feeds, ValidNode, WiredPort;
    } else {
      OthersOnlyWake(t, s, n, a);
      hide Next, Enabled;
    }
  }

  lemma {:induction false} ReachableAwake(t: Topology, actions: seq<Action>, s: State, n: nat)
    requires ValidTopology(t) && Reaches(t, actions, s) && n < |t.nodes| && t.nodes[n].rows == []
    ensures Shaped(t, s) && Awake(t, s, n)
    decreases |actions|
  {
    hide Awake;
    if actions == [] {
      InitAwake(t, n);
    } else {
      var last := actions[|actions| - 1];
      var before: State :|
        Reaches(t, actions[..|actions| - 1], before) && Shaped(t, before) &&
        Enabled(t, before, last) && s == Next(t, before, last);
      ReachableAwake(t, actions[..|actions| - 1], before, n);
      AwakeStays(t, before, n, last);
    }
  }

  lemma {:induction false} InitAwake(t: Topology, n: nat)
    requires n < |t.nodes|
    ensures Shaped(t, Init(t)) && Awake(t, Init(t), n)
  {
  }

  /** A node without an RX port runs for ever by itself. */
  lemma {:induction false} RunsFree(t: Topology, actions: seq<Action>, s: State, n: nat, k: nat) returns (own: seq<Action>, s': State)
    requires ValidTopology(t) && Reaches(t, actions, s) && n < |t.nodes| && t.nodes[n].rows == []
    ensures Continues(t, s, own, s') && |own| == k
  {
    own, s' := [], s;
    if k > 0 {
      var shorter, before := RunsFree(t, actions, s, n, k - 1);
      ContinuedRun(t, actions, s, shorter, before);
      ReachableAwake(t, actions + shorter, before, n);
      own, s' := shorter + [AProducer(n)], Next(t, before, AProducer(n));
      assert own[..|own| - 1] == shorter;
    }
  }

  ghost predicate AtMost(t: Topology, s: State, bound: nat)
    requires Wired(t)
  {
    forall own, s' :: Continues(t, s, own, s') ==> |own| <= bound
  }

  /** From any reachable state the workers' own steps are bounded exactly when
      every node has an RX port. */
  lemma {:induction false} RadioFreeRunsEndIff(t: Topology, actions: seq<Action>, s: State)
    requires ValidTopology(t) && Reaches(t, actions, s)
    ensures (exists bound: nat :: AtMost(t, s, bound)) <==> RowsEverywhere(t)
  {
    hide Measure, Continues, Reaches;
    if RowsEverywhere(t) {
      forall own, s' | Continues(t, s, own, s')
        ensures |own| <= Measure(t, s)
      {
        RadioFreeRunsEnd(t, actions, s, own, s');
      }
      assert AtMost(t, s, Measure(t, s));
    } else {
      var n :| 0 <= n < |t.nodes| && t.nodes[n].rows == [];
      if bound: nat :| AtMost(t, s, bound) {
        var own, s' := RunsFree(t, actions, s, n, bound + 1);
        assert false;
      }
    }
  }
}
