/** No lost wake and no self-inflicted dead-lock, over every run of the relay
    with the 5 ms timeout of RingProgress::wait removed. */
module RelayLive {
  import opened RingModel
  import opened Relay
  import opened RelaySafety
  import opened RelayWake

  // ------------------------------------------------------------------------
  // No lost wake
  // ------------------------------------------------------------------------

  /** A producer asleep on a current ticket although every row has room again:
      one of its REP workers has released samples and is about to wake it. */
  lemma {:induction false} RoomWakeNotLost(t: Topology, actions: seq<Action>, s: State, n: nat) returns (r: nat)
    requires ValidTopology(t) && Reaches(t, actions, s) && Shaped(t, s) && n < |t.nodes|
    requires s.nodes[n].pc.RoomSleep? && s.nodes[n].pc.ticket == s.nodes[n].gen
    requires ValidNode(t, n) ==> forall i :: 0 <= i < |t.nodes[n].rows| ==>
      Headroom(t.ports[t.nodes[n].rows[i]], s.rx[t.nodes[n].rows[i]].ring) > 0
    ensures ValidNode(t, n) && r < |t.nodes[n].rows| && RepOwes(s.rx[t.nodes[n].rows[r]])
  {
    ReachableWakes(t, actions, s);
    assert ValidNode(t, n);
    assert NodeWake(t, s, n);
    r :| 0 <= r < |t.nodes[n].rows| && NoRoom(t, s, n, r);
  }

  /** A producer asleep on a current ticket although every lane holds a sample:
      the puller of one of them has pushed and is about to wake it. */
  lemma {:induction false} DataWakeNotLost(t: Topology, actions: seq<Action>, s: State, n: nat) returns (j: nat)
    requires ValidTopology(t) && Reaches(t, actions, s) && Shaped(t, s) && n < |t.nodes|
    requires s.nodes[n].pc.DataSleep? && s.nodes[n].pc.ticket == s.nodes[n].gen
    requires ValidNode(t, n) ==> forall i :: 0 <= i < |t.nodes[n].lanes| ==>
      s.nodes[n].cursors[i] < s.tx[t.nodes[n].lanes[i].src].ring.next
    ensures ValidNode(t, n) && j < |t.nodes[n].lanes| && PullerOwes(s.tx[t.nodes[n].lanes[j].src], n)
  {
    ReachableWakes(t, actions, s);
    assert ValidNode(t, n);
    assert NodeWake(t, s, n);
    j :| 0 <= j < |t.nodes[n].lanes| && NoData(t, s, n, j);
    assert TxOk(t, s, t.nodes[n].lanes[j].src);
  }

  /** A scan made now, releasing up to `bound`, would let the puller go on. */
  ghost predicate WouldProceed(t: Topology, s: State, p: nat, bound: nat)
    requires Shaped(t, s) && p < |t.ports|
  {
    var x := s.tx[p];
    && x.ring.Earliest() <= bound <= x.ring.next
    && (forall n, j :: 0 <= n < |t.nodes| && 0 <= j < |t.nodes[n].lanes| && t.nodes[n].lanes[j].src == p ==>
          bound <= s.nodes[n].cursors[j])
    && (if x.pending != [] then (x.ring.next - bound) + |x.pending| <= t.ports[p].queue
        else t.ports[p].queue - (x.ring.next - bound) >= t.ports[p].batch)
  }

  /** A puller asleep on a current ticket although its consumers have moved on far
      enough: one of their producers has advanced and is about to wake it. */
  lemma {:induction false} PullerWakeNotLost(t: Topology, actions: seq<Action>, s: State, p: nat, bound: nat) returns (n: nat)
    requires ValidTopology(t) && Reaches(t, actions, s) && Shaped(t, s) && p < |t.ports|
    requires s.tx[p].pc.PullSleep? && s.tx[p].pc.ticket == s.tx[p].gen
    requires WouldProceed(t, s, p, bound)
    ensures n < |t.nodes| && ProducerOwesPuller(t.nodes[n], s.nodes[n], p)
  {
    ReachableWakes(t, actions, s);
    assert ValidPort(t, p);
    assert TxOk(t, s, p);
    assert TxWake(t, s, p);
    var i :| 0 <= i < |t.links| && Holds(t, s, p, i, s.tx[p].ring.Earliest());
    n := t.links[i].node;
  }

  /** A REP worker asleep on a current ticket although a row is queued: its node
      has published it and is about to wake it. */
  lemma {:induction false} RepWakeNotLost(t: Topology, actions: seq<Action>, s: State, p: nat)
    requires ValidTopology(t) && Reaches(t, actions, s) && Shaped(t, s) && p < |t.ports| && t.ports[p].row >= 0
    requires s.rx[p].pc.RepSleep? && s.rx[p].pc.ticket == s.rx[p].gen && s.rx[p].slots != []
    ensures ValidPort(t, p) && ProducerOwesRep(s.nodes[t.ports[p].node], p, t.ports[p].row)
  {
    ReachableWakes(t, actions, s);
    assert ValidPort(t, p);
    assert RxWake(t, s, p);
  }

  // ------------------------------------------------------------------------
  // No dead-lock
  // ------------------------------------------------------------------------

  datatype Worker = Puller(p: nat) | Producing(n: nat) | Replying(p: nat)

  /** A thread of the broker. */
  predicate IsWorker(t: Topology, w: Worker)
  {
    match w
    case Puller(p) => p < |t.ports| && t.ports[p].hasTx
    case Producing(n) => n < |t.nodes|
    case Replying(p) => p < |t.ports| && t.ports[p].row >= 0
  }

  /** The worker has a step it can take on its own. */
  predicate CanStep(t: Topology, s: State, w: Worker)
    requires Shaped(t, s) && IsWorker(t, w)
  {
    match w
    case Puller(p) => PullerCanStep(t, s, p)
    case Producing(n) => ProducerCanStep(t, s, n)
    case Replying(p) => RepCanStep(t, s, p)
  }

  /** The worker needs nothing but its radio: the reply to a request for which
      there is room, or a request for a row that is ready. */
  predicate AwaitsRadio(t: Topology, s: State, w: Worker)
    requires Shaped(t, s) && IsWorker(t, w)
  {
    match w
    case Puller(p) => s.tx[p].pc.PullReply? && s.tx[p].ring.Free() >= t.ports[p].batch
    case Producing(n) => false
    case Replying(p) => s.rx[p].pc.RepRequest? && s.rx[p].slots != []
  }

  /** What keeps a from going on is b: a full row of b's, or one b has drained
      and not announced; a lane at the end of what b has pushed, or pushed and not
      announced; a cursor of b's at the first sample of a full ring, or moved and
      not announced; a row b has nothing published on, or not announced. */
  ghost predicate WaitsFor(t: Topology, s: State, a: Worker, b: Worker)
    requires ValidTopology(t) && Shaped(t, s) && IsWorker(t, a) && IsWorker(t, b)
  {
    && !CanStep(t, s, a)
    && match (a, b)
       case (Producing(n), Replying(p)) =>
         s.nodes[n].pc.RoomSleep? &&
         exists r :: 0 <= r < |t.nodes[n].rows| && t.nodes[n].rows[r] == p && NoRoom(t, s, n, r)
       case (Producing(n), Puller(p)) =>
         s.nodes[n].pc.DataSleep? &&
         exists j :: 0 <= j < |t.nodes[n].lanes| && t.nodes[n].lanes[j].src == p && NoData(t, s, n, j)
       case (Puller(p), Producing(n)) =>
         s.tx[p].pc.PullSleep? && RingFull(t, s, p) &&
         exists i :: 0 <= i < |t.links| && t.links[i].node == n && Holds(t, s, p, i, s.tx[p].ring.Earliest())
       case (Replying(p), Producing(n)) =>
         t.ports[p].node == n && !s.rx[p].pc.RepFailed? &&
         (s.rx[p].slots == [] || ProducerOwesRep(s.nodes[n], p, t.ports[p].row))
       case _ => false
  }

  /** No room for the pending message, or for one more batch. */
  predicate RingFull(t: Topology, s: State, p: nat)
    requires Shaped(t, s) && p < |t.ports|
  {
    var x := s.tx[p];
    if x.pending != [] then x.ring.size + |x.pending| > t.ports[p].queue else x.ring.Free() < t.ports[p].batch
  }

  /** A chain of waits. */
  ghost predicate Chain(t: Topology, s: State, path: seq<Worker>)
    requires ValidTopology(t) && Shaped(t, s)
  {
    && |path| > 0
    && (forall i :: 0 <= i < |path| ==> IsWorker(t, path[i]))
    && forall i :: 0 <= i < |path| - 1 ==> WaitsFor(t, s, path[i], path[i + 1])
  }

  ghost predicate Free(t: Topology, s: State, w: Worker)
    requires Shaped(t, s) && IsWorker(t, w)
  {
    CanStep(t, s, w) || AwaitsRadio(t, s, w)
  }

  lemma {:induction false} Extend(t: Topology, s: State, w: Worker, path: seq<Worker>) returns (longer: seq<Worker>)
    requires ValidTopology(t) && Shaped(t, s) && IsWorker(t, w)
    requires Chain(t, s, path) && WaitsFor(t, s, w, path[0])
    ensures Chain(t, s, longer) && longer[0] == w && longer[|longer| - 1] == path[|path| - 1]
  {
    longer := [w] + path;
    forall i | 0 <= i < |longer| - 1 ensures WaitsFor(t, s, longer[i], longer[i + 1]) {
      if i > 0 {
        assert WaitsFor(t, s, path[i - 1], path[i - 1 + 1]);
      }
    }
  }

  /** A full row: its REP worker is at work, or holds a ready row for its radio. */
  lemma {:induction false} FullRow(t: Topology, s: State, n: nat) returns (path: seq<Worker>)
    requires ValidTopology(t) && Inv(t, s) && WakeInv(t, s) && n < |t.nodes|
    requires s.nodes[n].pc.RoomSleep? && s.nodes[n].pc.ticket == s.nodes[n].gen
    ensures Chain(t, s, path) && path[0] == Producing(n) && Free(t, s, path[|path| - 1])
  {
    assert ValidNode(t, n);
    assert NodeWake(t, s, n);
    var r :| 0 <= r < |t.nodes[n].rows| && NoRoom(t, s, n, r);
    var p := t.nodes[n].rows[r];
    assert ValidPort(t, p);
    assert RxOk(t, s, p);
    assert RxWake(t, s, p);
    assert NodeOk(t, s, n);
    var y := s.rx[p];
    assert RxQueue(y, s.nodes[n].log, Published(s.nodes[n], r), r);
    assert y.slots == [] ==> y.ring.size == 0;
    path := [Producing(n), Replying(p)];
  }

  /** An empty source ring: its puller is at work or waits for its radio, or its
      ring is full for a consumer whose cursor is further behind. */
  lemma {:induction false} SlowerConsumer(t: Topology, s: State, n: nat) returns (p: nat, m: nat)
    requires ValidTopology(t) && Inv(t, s) && WakeInv(t, s) && n < |t.nodes|
    requires s.nodes[n].pc.DataSleep? && s.nodes[n].pc.ticket == s.nodes[n].gen
    requires forall q :: 0 <= q < |t.ports| ==> !s.tx[q].pc.PullFailed?
    ensures p < |t.ports| && IsWorker(t, Puller(p)) && WaitsFor(t, s, Producing(n), Puller(p))
    ensures !Free(t, s, Puller(p)) ==>
      && m < |t.nodes| && WaitsFor(t, s, Puller(p), Producing(m))
      && (CanStep(t, s, Producing(m)) || End(s.nodes[m].log) < End(s.nodes[n].log))
  {
    assert ValidNode(t, n);
    assert NodeWake(t, s, n);
    assert NodeOk(t, s, n);
    hide Feeds, SlotOk, RowOk;
    var j :| 0 <= j < |t.nodes[n].lanes| && NoData(t, s, n, j);
    p := t.nodes[n].lanes[j].src;
    m := 0;
    if !Free(t, s, Puller(p)) {
      var i := Holder(t, s, p);
      m := t.links[i].node;
      assert LaneOk(t, s, n, j) && NodeOk(t, s, m);
    }
  }

  /** A puller with nothing to do is asleep on a full ring that some lane holds. */
  lemma {:induction false} Holder(t: Topology, s: State, p: nat) returns (i: nat)
    requires ValidTopology(t) && Inv(t, s) && WakeInv(t, s) && IsWorker(t, Puller(p)) && !Free(t, s, Puller(p))
    requires !s.tx[p].pc.PullFailed?
    ensures s.tx[p].pc.PullSleep? && RingFull(t, s, p)
    ensures i < |t.links| && t.links[i].node < |t.nodes| && Holds(t, s, p, i, s.tx[p].ring.Earliest())
    ensures |s.tx[p].stream| == s.tx[p].ring.next && s.tx[p].ring.size > 0
  {
    assert ValidPort(t, p);
    assert TxOk(t, s, p);
    assert TxWake(t, s, p);
    i :| 0 <= i < |t.links| && Holds(t, s, p, i, s.tx[p].ring.Earliest());
  }

  /** Following the waits of a sleeping producer ends at a worker that is free:
      each full source ring leads to a node whose cursor is smaller. */
  lemma {:induction false} ProducerChain(t: Topology, s: State, n: nat) returns (path: seq<Worker>)
    requires ValidTopology(t) && Inv(t, s) && WakeInv(t, s) && n < |t.nodes|
    requires forall q :: 0 <= q < |t.ports| ==> !s.tx[q].pc.PullFailed?
    ensures Chain(t, s, path) && path[0] == Producing(n) && Free(t, s, path[|path| - 1])
    decreases End(s.nodes[n].log)
  {
    assert NodeOk(t, s, n);
    if CanStep(t, s, Producing(n)) {
      path := [Producing(n)];
    } else if s.nodes[n].pc.RoomSleep? {
      path := FullRow(t, s, n);
    } else {
      var p, m := SlowerConsumer(t, s, n);
      if Free(t, s, Puller(p)) {
        path := [Producing(n), Puller(p)];
      } else {
        if CanStep(t, s, Producing(m)) {
          path := [Producing(m)];
        } else {
          path := ProducerChain(t, s, m);
        }
        path := Extend(t, s, Puller(p), path);
        path := Extend(t, s, Producing(n), path);
      }
    }
  }

  /** Whatever a worker waits for leads, blocker by blocker, to a worker that can
      take a step or that only waits for its radio to answer a request it has
      room for, or to ask for a row that is ready. */
  lemma {:induction false} NoDeadlock(t: Topology, actions: seq<Action>, s: State, w: Worker) returns (path: seq<Worker>)
    requires ValidTopology(t) && Reaches(t, actions, s) && IsWorker(t, w)
    requires Shaped(t, s) && forall q :: 0 <= q < |t.ports| ==> !s.tx[q].pc.PullFailed?
    ensures Chain(t, s, path) && path[0] == w && Free(t, s, path[|path| - 1])
  {
    ReachableWakes(t, actions, s);
    if Free(t, s, w) {
      path := [w];
      return;
    }
    match w {
      case Producing(n) =>
        path := ProducerChain(t, s, n);
      case Puller(p) =>
        var i := Holder(t, s, p);
        path := ProducerChain(t, s, t.links[i].node);
        path := Extend(t, s, w, path);
      case Replying(p) =>
        assert ValidPort(t, p);
        assert RxOk(t, s, p);
        assert RxWake(t, s, p);
        var n := t.ports[p].node;
        path := ProducerChain(t, s, n);
        path := Extend(t, s, w, path);
    }
  }

  /** No worker has a step of its own. */
  predicate Quiet(t: Topology, s: State)
    requires Shaped(t, s)
  {
    && (forall p :: 0 <= p < |t.ports| ==> !PullerCanStep(t, s, p) && !RepCanStep(t, s, p))
    && forall n :: 0 <= n < |t.nodes| ==> !ProducerCanStep(t, s, n)
  }

  lemma {:induction false} QuietMeansStuck(t: Topology, s: State, w: Worker)
    requires Shaped(t, s) && Quiet(t, s) && IsWorker(t, w)
    ensures !CanStep(t, s, w)
  {
    hide PullerCanStep, ProducerCanStep, RepCanStep;
  }

  /** When nothing moves, every chain of waits ends at a radio. */
  lemma {:induction false} QuietAwaitsRadio(t: Topology, actions: seq<Action>, s: State, w: Worker) returns (path: seq<Worker>)
    requires ValidTopology(t) && Reaches(t, actions, s) && IsWorker(t, w)
    requires Shaped(t, s) && Quiet(t, s) && forall q :: 0 <= q < |t.ports| ==> !s.tx[q].pc.PullFailed?
    ensures Chain(t, s, path) && path[0] == w && AwaitsRadio(t, s, path[|path| - 1])
  {
    hide Quiet, CanStep, AwaitsRadio, WaitsFor, Reaches;
    path := NoDeadlock(t, actions, s, w);
    QuietMeansStuck(t, s, path[|path| - 1]);
  }

  // ------------------------------------------------------------------------
  // The queue rule is exact
  // ------------------------------------------------------------------------

  /** Nothing was ever requested on port p. */
  ghost predicate Starved(t: Topology, s: State, p: nat)
    requires Shaped(t, s) && p < |t.ports|
  {
    var x := s.tx[p];
    && x.ring == Empty(t.ports[p].queue) && x.stream == [] && x.pending == []
    && (x.pc.PullTop? || x.pc.PullScan? || x.pc.PullSleep?)
  }

  lemma {:induction false} StarvedStays(t: Topology, s: State, a: Action, p: nat)
    requires Wired(t) && Shaped(t, s) && Enabled(t, s, a) && p < |t.ports|
    requires t.ports[p].queue < t.ports[p].batch && Starved(t, s, p)
    ensures Starved(t, Next(t, s, a), p)
  {
  }

  /** A queue shorter than one batch starves its port in every run. */
  lemma {:induction false} ShortQueueStarves(t: Topology, actions: seq<Action>, s: State, p: nat)
    requires Wired(t) && Reaches(t, actions, s) && p < |t.ports| && t.ports[p].queue < t.ports[p].batch
    ensures Shaped(t, s) && Starved(t, s, p)
    decreases |actions|
  {
    if actions != [] {
      var last := actions[|actions| - 1];
      var before: State :|
        Reaches(t, actions[..|actions| - 1], before) && Shaped(t, before) &&
        Enabled(t, before, last) && s == Next(t, before, last);
      ShortQueueStarves(t, actions[..|actions| - 1], before, p);
      StarvedStays(t, before, last, p);
    }
  }

  /** The puller's first scan, up to link i, alone from the start. */
  lemma {:induction false} FirstScan(t: Topology, p: nat, i: nat) returns (actions: seq<Action>, s: State)
    requires Wired(t) && p < |t.ports| && t.ports[p].hasTx && i <= |t.links|
    ensures Reaches(t, actions, s) && Shaped(t, s)
    ensures s.tx[p].pc.PullScan? && s.tx[p].pc.i == i && s.tx[p].ring == Empty(t.ports[p].queue) && s.tx[p].pending == []
    ensures forall n :: 0 <= n < |t.nodes| ==> s.nodes[n] == Init(t).nodes[n]
    decreases i
  {
    var before: State;
    if i == 0 {
      before := Init(t);
      actions := [];
    } else {
      actions, before := FirstScan(t, p, i - 1);
    }
    s := PullerStep(t, before, p);
    actions := Then(t, actions, before, APuller(p));
  }

  lemma {:induction false} Then(t: Topology, actions: seq<Action>, s: State, a: Action) returns (longer: seq<Action>)
    requires Wired(t) && Reaches(t, actions, s) && Shaped(t, s) && Enabled(t, s, a)
    ensures Reaches(t, longer, Next(t, s, a))
  {
    longer := actions + [a];
    assert longer[..|longer| - 1] == actions;
  }

  lemma {:induction false} FirstPull(t: Topology, p: nat) returns (actions: seq<Action>, s: State)
    requires Wired(t) && p < |t.ports| && t.ports[p].hasTx && t.ports[p].queue >= t.ports[p].batch
    ensures Reaches(t, actions, s) && Shaped(t, s) && s.tx[p].pc.PullReply?
  {
    var scan, before := FirstScan(t, p, |t.links|);
    assert Release(before.tx[p]) == before.tx[p].ring;
    s := PullerStep(t, before, p);
    actions := Then(t, scan, before, APuller(p));
  }

  ghost predicate Pulls(t: Topology, p: nat, actions: seq<Action>, s: State)
    requires Wired(t)
  {
    Reaches(t, actions, s) && p < |s.tx| && s.tx[p].pc.PullReply?
  }

  /** The puller of port p can ever ask its radio for samples if, and only if, its
      queue holds one batch.  (validate_config asks for two.) */
  lemma {:induction false} QueueRule(t: Topology, p: nat)
    requires Wired(t) && p < |t.ports| && t.ports[p].hasTx
    ensures (exists actions, s :: Pulls(t, p, actions, s)) <==> t.ports[p].queue >= t.ports[p].batch
  {
    if t.ports[p].queue < t.ports[p].batch {
      forall actions, s | Reaches(t, actions, s) ensures !Pulls(t, p, actions, s) {
        ShortQueueStarves(t, actions, s, p);
      }
    } else {
      var actions, s := FirstPull(t, p);
      assert Pulls(t, p, actions, s);
    }
  }
}
