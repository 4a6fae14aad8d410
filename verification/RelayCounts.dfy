/** How long a slot is, over every run of the relay. */
module RelayCounts {
  import opened RingModel
  import opened Relay
  import opened RelaySafety
  import opened RelayProducer

  /** c is the smallest of `first` and the values seen. */
  predicate IsLeast(c: nat, first: nat, seen: seq<nat>)
  {
    c <= first && (forall i: nat :: i < |seen| ==> c <= seen[i]) && (c == first || c in seen)
  }

  /** The last of `actions` is a step of node n, on its way to slot k, that looks
      at row r while the row's port may take v more samples. */
  ghost predicate LooksAtRow(t: Topology, actions: seq<Action>, n: nat, k: nat, r: nat, v: nat)
    requires ValidTopology(t)
  {
    actions != [] && actions[|actions| - 1] == AProducer(n) && exists s: State ::
      Reaches(t, actions[..|actions| - 1], s) && RowHas(t, s, n, k, r, v)
  }

  ghost predicate RowHas(t: Topology, s: State, n: nat, k: nat, r: nat, v: nat)
  {
    Shaped(t, s) && n < |t.nodes| && r < |t.nodes[n].rows| && t.nodes[n].rows[r] < |t.ports| &&
    var x, p := s.nodes[n], t.nodes[n].rows[r];
    |x.log| == k && x.pc.RoomCheck? && x.pc.r == r && s.rx[p].ring.size + v == t.ports[p].highWater
  }

  /** Likewise at lane j, while its source has received v samples more than the
      node has consumed. */
  ghost predicate LooksAtLane(t: Topology, actions: seq<Action>, n: nat, k: nat, j: nat, v: nat)
    requires ValidTopology(t)
  {
    actions != [] && actions[|actions| - 1] == AProducer(n) && exists s: State ::
      Reaches(t, actions[..|actions| - 1], s) && LaneHas(t, s, n, k, j, v)
  }

  ghost predicate LaneHas(t: Topology, s: State, n: nat, k: nat, j: nat, v: nat)
  {
    Shaped(t, s) && n < |t.nodes| && j < |t.nodes[n].lanes| && t.nodes[n].lanes[j].src < |t.ports| &&
    var x := s.nodes[n];
    |x.log| == k && x.pc.DataCheck? && x.pc.k == j && End(x.log) + v == |s.tx[t.nodes[n].lanes[j].src].stream|
  }

  ghost predicate RowSeen(t: Topology, actions: seq<Action>, n: nat, k: nat, r: nat, v: nat)
    requires ValidTopology(t)
  {
    exists m: nat :: m <= |actions| && LooksAtRow(t, actions[..m], n, k, r, v)
  }

  ghost predicate LaneSeen(t: Topology, actions: seq<Action>, n: nat, k: nat, j: nat, v: nat)
    requires ValidTopology(t)
  {
    exists m: nat :: m <= |actions| && LooksAtLane(t, actions[..m], n, k, j, v)
  }

  ghost predicate RowsSeen(t: Topology, actions: seq<Action>, n: nat, k: nat, rows: seq<nat>)
    requires ValidTopology(t)
  {
    forall r: nat :: r < |rows| ==> RowSeen(t, actions, n, k, r, rows[r])
  }

  ghost predicate LanesSeen(t: Topology, actions: seq<Action>, n: nat, k: nat, lanes: seq<nat>)
    requires ValidTopology(t)
  {
    forall j: nat :: j < |lanes| ==> LaneSeen(t, actions, n, k, j, lanes[j])
  }

  /** `room` is the smallest of the batch and what the first `done` rows could
      take when they were looked at. */
  ghost predicate RoomIs(t: Topology, actions: seq<Action>, n: nat, k: nat, done: nat, room: nat)
    requires ValidTopology(t) && n < |t.nodes|
  {
    exists rows: seq<nat> :: |rows| == done && RowsSeen(t, actions, n, k, rows) && IsLeast(room, t.nodes[n].batch, rows)
  }

  ghost predicate CommonIs(t: Topology, actions: seq<Action>, n: nat, k: nat, done: nat, common: nat)
    requires ValidTopology(t) && n < |t.nodes|
  {
    exists lanes: seq<nat> :: |lanes| == done && LanesSeen(t, actions, n, k, lanes) && IsLeast(common, t.nodes[n].batch, lanes)
  }

  /** `count` is the smallest of the node's batch, the headroom of every row and
      the samples available on every lane, each when it was looked at for slot k. */
  ghost predicate CountIs(t: Topology, actions: seq<Action>, n: nat, k: nat, count: nat)
    requires ValidTopology(t) && n < |t.nodes|
  {
    exists rows: seq<nat>, lanes: seq<nat> ::
      |rows| == |t.nodes[n].rows| && |lanes| == |t.nodes[n].lanes| &&
      RowsSeen(t, actions, n, k, rows) && LanesSeen(t, actions, n, k, lanes) &&
      IsLeast(count, t.nodes[n].batch, rows + lanes)
  }

  /** What a node knows of the slot it is preparing. */
  ghost predicate Known(t: Topology, actions: seq<Action>, n: nat, k: nat, pc: ProducerPc)
    requires ValidTopology(t) && n < |t.nodes|
  {
    match pc
    case RoomCheck(_, r, room) => RoomIs(t, actions, n, k, r, room)
    case AlignLane(_, room) => RoomIs(t, actions, n, k, |t.nodes[n].rows|, room)
    case DataTop(room) => RoomIs(t, actions, n, k, |t.nodes[n].rows|, room)
    case DataSleep(_, room) => RoomIs(t, actions, n, k, |t.nodes[n].rows|, room)
    case DataCheck(_, j, common, room) =>
      RoomIs(t, actions, n, k, |t.nodes[n].rows|, room) && CommonIs(t, actions, n, k, j, common)
    case ReadLane(_, count) => CountIs(t, actions, n, k, count)
    case ReserveRow(_, count) => CountIs(t, actions, n, k, count)
    case ShapeLane(_, count) => CountIs(t, actions, n, k, count)
    case _ => true
  }

  ghost predicate Counted(t: Topology, actions: seq<Action>, n: nat, log: seq<Slot>)
    requires ValidTopology(t) && n < |t.nodes|
  {
    forall k: nat :: k < |log| ==> CountIs(t, actions, n, k, log[k].count)
  }

  // ------------------------------------------------------------------------
  // What was seen stays seen
  // ------------------------------------------------------------------------

  lemma {:induction false} RowStaysSeen(t: Topology, actions: seq<Action>, a: Action, n: nat, k: nat, r: nat, v: nat)
    requires ValidTopology(t) && RowSeen(t, actions, n, k, r, v)
    ensures RowSeen(t, actions + [a], n, k, r, v)
  {
    hide LooksAtRow;
    var m: nat :| m <= |actions| && LooksAtRow(t, actions[..m], n, k, r, v);
    assert (actions + [a])[..m] == actions[..m];
  }

  lemma {:induction false} LaneStaysSeen(t: Topology, actions: seq<Action>, a: Action, n: nat, k: nat, j: nat, v: nat)
    requires ValidTopology(t) && LaneSeen(t, actions, n, k, j, v)
    ensures LaneSeen(t, actions + [a], n, k, j, v)
  {
    hide LooksAtLane;
    var m: nat :| m <= |actions| && LooksAtLane(t, actions[..m], n, k, j, v);
    assert (actions + [a])[..m] == actions[..m];
  }

  lemma {:induction false} StaySeen(t: Topology, actions: seq<Action>, a: Action, n: nat, k: nat, rows: seq<nat>, lanes: seq<nat>)
    requires ValidTopology(t)
    ensures RowsSeen(t, actions, n, k, rows) ==> RowsSeen(t, actions + [a], n, k, rows)
    ensures LanesSeen(t, actions, n, k, lanes) ==> LanesSeen(t, actions + [a], n, k, lanes)
  {
    hide RowSeen, LaneSeen;
    forall r: nat | r < |rows| && RowSeen(t, actions, n, k, r, rows[r]) ensures RowSeen(t, actions + [a], n, k, r, rows[r]) {
      RowStaysSeen(t, actions, a, n, k, r, rows[r]);
    }
    forall j: nat | j < |lanes| && LaneSeen(t, actions, n, k, j, lanes[j]) ensures LaneSeen(t, actions + [a], n, k, j, lanes[j]) {
      LaneStaysSeen(t, actions, a, n, k, j, lanes[j]);
    }
  }

  lemma {:induction false} RoomStays(t: Topology, actions: seq<Action>, a: Action, n: nat, k: nat, done: nat, room: nat)
    requires ValidTopology(t) && n < |t.nodes| && RoomIs(t, actions, n, k, done, room)
    ensures RoomIs(t, actions + [a], n, k, done, room)
  {
    hide RowsSeen, LanesSeen, IsLeast;
    var rows: seq<nat> :| |rows| == done && RowsSeen(t, actions, n, k, rows) && IsLeast(room, t.nodes[n].batch, rows);
    StaySeen(t, actions, a, n, k, rows, []);
  }

  lemma {:induction false} CommonStays(t: Topology, actions: seq<Action>, a: Action, n: nat, k: nat, done: nat, common: nat)
    requires ValidTopology(t) && n < |t.nodes| && CommonIs(t, actions, n, k, done, common)
    ensures CommonIs(t, actions + [a], n, k, done, common)
  {
    hide RowsSeen, LanesSeen, IsLeast;
    var lanes: seq<nat> :| |lanes| == done && LanesSeen(t, actions, n, k, lanes) && IsLeast(common, t.nodes[n].batch, lanes);
    StaySeen(t, actions, a, n, k, [], lanes);
  }

  lemma {:induction false} CountStays(t: Topology, actions: seq<Action>, a: Action, n: nat, k: nat, count: nat)
    requires ValidTopology(t) && n < |t.nodes| && CountIs(t, actions, n, k, count)
    ensures CountIs(t, actions + [a], n, k, count)
  {
    hide RowsSeen, LanesSeen, IsLeast;
    var rows: seq<nat>, lanes: seq<nat> :|
      |rows| == |t.nodes[n].rows| && |lanes| == |t.nodes[n].lanes| &&
      RowsSeen(t, actions, n, k, rows) && LanesSeen(t, actions, n, k, lanes) &&
      IsLeast(count, t.nodes[n].batch, rows + lanes);
    StaySeen(t, actions, a, n, k, rows, lanes);
  }

  lemma {:induction false} KnownStays(t: Topology, actions: seq<Action>, a: Action, n: nat, k: nat, pc: ProducerPc)
    requires ValidTopology(t) && n < |t.nodes| && Known(t, actions, n, k, pc)
    ensures Known(t, actions + [a], n, k, pc)
  {
    hide RoomIs, CommonIs, CountIs;
    var rows := |t.nodes[n].rows|;
    match pc
    case RoomCheck(_, r, room) => RoomStays(t, actions, a, n, k, r, room);
    case AlignLane(_, room) => RoomStays(t, actions, a, n, k, rows, room);
    case DataTop(room) => RoomStays(t, actions, a, n, k, rows, room);
    case DataSleep(_, room) => RoomStays(t, actions, a, n, k, rows, room);
    case DataCheck(_, j, common, room) =>
      RoomStays(t, actions, a, n, k, rows, room);
      CommonStays(t, actions, a, n, k, j, common);
    case ReadLane(_, count) => CountStays(t, actions, a, n, k, count);
    case ReserveRow(_, count) => CountStays(t, actions, a, n, k, count);
    case ShapeLane(_, count) => CountStays(t, actions, a, n, k, count);
    case _ =>
  }

  lemma {:induction false} CountedStays(t: Topology, actions: seq<Action>, a: Action, n: nat, log: seq<Slot>)
    requires ValidTopology(t) && n < |t.nodes| && Counted(t, actions, n, log)
    ensures Counted(t, actions + [a], n, log)
  {
    hide CountIs;
    forall k: nat | k < |log| ensures CountIs(t, actions + [a], n, k, log[k].count) {
      CountStays(t, actions, a, n, k, log[k].count);
    }
  }

  // ------------------------------------------------------------------------
  // One step of the node
  // ------------------------------------------------------------------------

  lemma {:induction false} RowLook(t: Topology, actions: seq<Action>, s: State, n: nat, k: nat, r: nat, room: nat, v: nat)
    requires ValidTopology(t) && n < |t.nodes| && Reaches(t, actions, s) && RowHas(t, s, n, k, r, v)
    requires RoomIs(t, actions, n, k, r, room)
    ensures RoomIs(t, actions + [AProducer(n)], n, k, r + 1, Min(room, v))
  {
    hide Reaches, RowHas;
    var next := actions + [AProducer(n)];
    var rows: seq<nat> :| |rows| == r && RowsSeen(t, actions, n, k, rows) && IsLeast(room, t.nodes[n].batch, rows);
    StaySeen(t, actions, AProducer(n), n, k, rows, []);
    assert next[..|next|] == next && next[..|next| - 1] == actions;
    assert LooksAtRow(t, next[..|next|], n, k, r, v);
    assert RowSeen(t, next, n, k, r, v);
    hide RowSeen, LooksAtRow;
    var seen := rows + [v];
    assert RowsSeen(t, next, n, k, seen);
    assert seen[r] == v && forall i: nat :: i < r ==> seen[i] == rows[i];
    assert IsLeast(Min(room, v), t.nodes[n].batch, seen);
  }

  lemma {:induction false} LaneLook(t: Topology, actions: seq<Action>, s: State, n: nat, k: nat, j: nat, common: nat, v: nat)
    requires ValidTopology(t) && n < |t.nodes| && Reaches(t, actions, s) && LaneHas(t, s, n, k, j, v)
    requires CommonIs(t, actions, n, k, j, common)
    ensures CommonIs(t, actions + [AProducer(n)], n, k, j + 1, Min(common, v))
  {
    hide Reaches, LaneHas;
    var next := actions + [AProducer(n)];
    var lanes: seq<nat> :| |lanes| == j && LanesSeen(t, actions, n, k, lanes) && IsLeast(common, t.nodes[n].batch, lanes);
    StaySeen(t, actions, AProducer(n), n, k, [], lanes);
    assert next[..|next|] == next && next[..|next| - 1] == actions;
    assert LooksAtLane(t, next[..|next|], n, k, j, v);
    assert LaneSeen(t, next, n, k, j, v);
    hide LaneSeen, LooksAtLane;
    var seen := lanes + [v];
    assert LanesSeen(t, next, n, k, seen);
    assert seen[j] == v && forall i: nat :: i < j ==> seen[i] == lanes[i];
    assert IsLeast(Min(common, v), t.nodes[n].batch, seen);
  }

  lemma {:induction false} NothingSeen(t: Topology, actions: seq<Action>, n: nat, k: nat)
    requires ValidTopology(t) && n < |t.nodes|
    ensures RoomIs(t, actions, n, k, 0, t.nodes[n].batch) && CommonIs(t, actions, n, k, 0, t.nodes[n].batch)
  {
    var none: seq<nat> := [];
    assert RowsSeen(t, actions, n, k, none) && LanesSeen(t, actions, n, k, none) && IsLeast(t.nodes[n].batch, t.nodes[n].batch, none);
  }

  lemma {:induction false} LeastOfBoth(x: nat, y: nat, first: nat, a: seq<nat>, b: seq<nat>)
    requires IsLeast(x, first, a) && IsLeast(y, first, b)
    ensures IsLeast(Min(x, y), first, a + b)
  {
  }

  /** Every row and every lane has been looked at. */
  lemma {:induction false} BothSeen(t: Topology, actions: seq<Action>, n: nat, k: nat, room: nat, common: nat)
    requires ValidTopology(t) && n < |t.nodes|
    requires RoomIs(t, actions, n, k, |t.nodes[n].rows|, room) && CommonIs(t, actions, n, k, |t.nodes[n].lanes|, common)
    ensures CountIs(t, actions, n, k, Min(common, room))
  {
    hide RowsSeen, LanesSeen;
    var rows: seq<nat> :| |rows| == |t.nodes[n].rows| && RowsSeen(t, actions, n, k, rows) && IsLeast(room, t.nodes[n].batch, rows);
    var lanes: seq<nat> :|
      |lanes| == |t.nodes[n].lanes| && LanesSeen(t, actions, n, k, lanes) && IsLeast(common, t.nodes[n].batch, lanes);
    LeastOfBoth(room, common, t.nodes[n].batch, rows, lanes);
    hide IsLeast;
  }

  lemma {:induction false} RowHasHeadroom(t: Topology, s: State, n: nat)
    requires ValidTopology(t) && Inv(t, s) && n < |t.nodes|
    requires s.nodes[n].pc.RoomCheck? && s.nodes[n].pc.r < |t.nodes[n].rows|
    ensures ValidNode(t, n)
    ensures var p, r := t.nodes[n].rows[s.nodes[n].pc.r], s.nodes[n].pc.r;
            Headroom(t.ports[p], s.rx[p].ring) >= 0 &&
            RowHas(t, s, n, |s.nodes[n].log|, r, Headroom(t.ports[p], s.rx[p].ring))
  {
    hide TxOk, NodeOk, RxQueue, RxSent, RxPc, Feeds;
    assert ValidNode(t, n);
    var p := t.nodes[n].rows[s.nodes[n].pc.r];
    assert ValidPort(t, p) && RxOk(t, s, p);
  }

  lemma {:induction false} LaneHasAvailable(t: Topology, s: State, n: nat)
    requires ValidTopology(t) && Inv(t, s) && n < |t.nodes|
    requires s.nodes[n].pc.DataCheck? && s.nodes[n].pc.k < |t.nodes[n].lanes|
    ensures ValidNode(t, n)
    ensures var j := s.nodes[n].pc.k;
            var ring := s.tx[t.nodes[n].lanes[j].src].ring;
            ring.Earliest() <= s.nodes[n].cursors[j] <= ring.next &&
            LaneHas(t, s, n, |s.nodes[n].log|, j, ring.next - s.nodes[n].cursors[j])
  {
    hide RxOk, RowOk, SlotOk, Feeds;
    assert ValidNode(t, n);
    var j := s.nodes[n].pc.k;
    assert NodeOk(t, s, n);
    assert LaneOk(t, s, n, j);
    assert TxOk(t, s, t.nodes[n].lanes[j].src);
  }

  /** A step that is not the node's leaves it where it is. */
  lemma {:induction false} OthersLeave(t: Topology, s: State, a: Action, n: nat)
    requires ValidTopology(t) && Shaped(t, s) && Enabled(t, s, a) && n < |t.nodes| && a != AProducer(n)
    ensures var x, x' := s.nodes[n], Next(t, s, a).nodes[n];
            x'.pc == x.pc && x'.log == x.log
  {
    hide Release, CanPush, Push, View, CanRead, Read, Reserve, Cells, Rows, Contents, LastRow, End, Fill, DiscardBefore, Feeds,
         Headroom, First, Commit;
  }

  /** A step of the node up to the choice of its window. */
  lemma {:induction false} WindowCounts(t: Topology, actions: seq<Action>, s: State, n: nat)
    requires ValidTopology(t) && n < |t.nodes| && Reaches(t, actions, s) && Inv(t, s)
    requires Known(t, actions, n, |s.nodes[n].log|, s.nodes[n].pc)
    ensures var x := WindowStep(t, s, n).nodes[n];
            x.log == s.nodes[n].log && Known(t, actions + [AProducer(n)], n, |s.nodes[n].log|, x.pc)
  {
    hide RoomIs, CommonIs, CountIs, Reaches, Headroom, First, RxOk, TxOk, NodeOk, RowHas, LaneHas;
    var x, node, k, a := s.nodes[n], t.nodes[n], |s.nodes[n].log|, AProducer(n);
    KnownStays(t, actions, a, n, k, x.pc);
    NothingSeen(t, actions + [a], n, k);
    match x.pc
    case RoomCheck(_, r, room) =>
      if r < |node.rows| {
        RowHasHeadroom(t, s, n);
        var p := node.rows[r];
        RowLook(t, actions, s, n, k, r, room, Headroom(t.ports[p], s.rx[p].ring));
      } else {
        RowsDone(t, s, n);
      }
    case DataCheck(_, j, common, room) =>
      if j < |node.lanes| {
        LaneHasAvailable(t, s, n);
        LaneLook(t, actions, s, n, k, j, common, s.tx[node.lanes[j].src].ring.next - x.cursors[j]);
      } else {
        RowsDone(t, s, n);
        BothSeen(t, actions + [a], n, k, room, common);
      }
    case DataTop(room) =>
      if node.lanes == [] {
        RoomIsCapped(t, actions + [a], n, k, |node.rows|, room);
        BothSeen(t, actions + [a], n, k, room, node.batch);
      }
    case _ =>
  }

  lemma {:induction false} RowsDone(t: Topology, s: State, n: nat)
    requires ValidTopology(t) && Inv(t, s) && n < |t.nodes|
    ensures s.nodes[n].pc.RoomCheck? ==> s.nodes[n].pc.r <= |t.nodes[n].rows|
    ensures s.nodes[n].pc.DataCheck? ==> s.nodes[n].pc.k <= |t.nodes[n].lanes|
  {
    hide RxOk, RowOk, SlotOk, LaneOk, TxOk;
    assert NodeOk(t, s, n);
  }

  lemma {:induction false} RoomIsCapped(t: Topology, actions: seq<Action>, n: nat, k: nat, done: nat, room: nat)
    requires ValidTopology(t) && n < |t.nodes| && RoomIs(t, actions, n, k, done, room)
    ensures room <= t.nodes[n].batch
  {
    hide RowsSeen;
  }

  lemma {:induction false} ChannelCounts(t: Topology, actions: seq<Action>, s: State, n: nat)
    requires ValidTopology(t) && n < |t.nodes| && Shaped(t, s)
    requires s.nodes[n].pc.ReadLane? || s.nodes[n].pc.ReserveRow? || s.nodes[n].pc.ShapeLane? || s.nodes[n].pc.FillRow?
    requires Known(t, actions, n, |s.nodes[n].log|, s.nodes[n].pc) && Counted(t, actions, n, s.nodes[n].log)
    ensures var x := ChannelStep(t, s, n).nodes[n];
            Counted(t, actions, n, x.log) && Known(t, actions, n, |x.log|, x.pc)
  {
    hide RoomIs, CommonIs, CountIs, View, CanRead, Read, Reserve, Cells, Rows, Contents, LastRow, End, Fill;
  }

  lemma {:induction false} PublishCounts(t: Topology, actions: seq<Action>, s: State, n: nat)
    requires ValidTopology(t) && n < |t.nodes| && Shaped(t, s)
    requires s.nodes[n].pc.AdvanceLane? || s.nodes[n].pc.NotifySources? || s.nodes[n].pc.PublishRow? || s.nodes[n].pc.NotifyRows?
    ensures var x := PublishStep(t, s, n).nodes[n];
            x.log == s.nodes[n].log && Known(t, actions, n, |x.log|, x.pc)
  {
    hide RoomIs, CommonIs, CountIs, CanPush, Push, Cells, Commit;
  }

  /** One step of any worker or radio. */
  lemma {:induction false} CountStep(t: Topology, actions: seq<Action>, s: State, a: Action, n: nat)
    requires ValidTopology(t) && n < |t.nodes| && Reaches(t, actions, s) && Inv(t, s) && Enabled(t, s, a)
    requires Known(t, actions, n, |s.nodes[n].log|, s.nodes[n].pc) && Counted(t, actions, n, s.nodes[n].log)
    ensures var x := Next(t, s, a).nodes[n];
            Known(t, actions + [a], n, |x.log|, x.pc) && Counted(t, actions + [a], n, x.log)
  {
    var x, later := s.nodes[n], actions + [a];
    KnownStays(t, actions, a, n, |x.log|, x.pc);
    CountedStays(t, actions, a, n, x.log);
    if a != AProducer(n) {
      hide Next, Enabled, Known, Counted, Reaches, Inv;
      OthersLeave(t, s, a, n);
    } else {
      assert Next(t, s, a) == ProducerStep(t, s, n);
      hide Known, Counted, Reaches, Inv, Next, Enabled, WindowStep, ChannelStep, PublishStep;
      if x.pc.ReadLane? || x.pc.ReserveRow? || x.pc.ShapeLane? || x.pc.FillRow? {
        ChannelCounts(t, later, s, n);
      } else if x.pc.AdvanceLane? || x.pc.NotifySources? || x.pc.PublishRow? || x.pc.NotifyRows? {
        PublishCounts(t, later, s, n);
      } else {
        WindowCounts(t, actions, s, n);
      }
    }
  }

  // ------------------------------------------------------------------------
  // Over every run
  // ------------------------------------------------------------------------

  lemma {:induction false} RunCounts(t: Topology, actions: seq<Action>, s: State, n: nat)
    requires ValidTopology(t) && Reaches(t, actions, s) && n < |t.nodes|
    ensures Shaped(t, s)
    ensures Known(t, actions, n, |s.nodes[n].log|, s.nodes[n].pc) && Counted(t, actions, n, s.nodes[n].log)
    decreases |actions|
  {
    hide Next, Enabled, Inv;
    if actions != [] {
      var m := |actions| - 1;
      var before: State :|
        Reaches(t, actions[..m], before) && Shaped(t, before) && Enabled(t, before, actions[m]) &&
        s == Next(t, before, actions[m]);
      RunCounts(t, actions[..m], before, n);
      ReachableInv(t, actions[..m], before);
      CountStep(t, actions[..m], before, actions[m], n);
      assert actions[..m] + [actions[m]] == actions;
    }
  }

  /** In every run, slot k of a node is as long as the smallest of the node's
      batch, the headroom of every row and the samples available on every lane,
      each when the node looked at it for that slot. */
  lemma {:induction false} SlotIsAsLongAsPossible(t: Topology, actions: seq<Action>, s: State, n: nat, k: nat)
    requires ValidTopology(t) && Reaches(t, actions, s) && n < |t.nodes| && Shaped(t, s) && k < |s.nodes[n].log|
    ensures CountIs(t, actions, n, k, s.nodes[n].log[k].count)
  {
    hide CountIs, Known, Reaches;
    RunCounts(t, actions, s, n);
  }
}
