/** resolve_topology (src/config.cpp): links expanded into antenna lanes, rows
    grouped by a stable sort, and the inverse index of every physical link. */
module Lanes {
  import opened Matrix
  import opened Texts

  datatype Node = Node(id: string, txPorts: seq<string>, rxPorts: seq<string>)

  datatype Link = Link(from: string, to: string, model: string, declaredModel: string)

  datatype Coefficient = Coefficient(tap: int, rx: int, tx: int, re: real, im: real)

  datatype Model = Model(fixedMimo: bool, coefficients: seq<Coefficient>)

  datatype Topology = Topology(nodes: seq<Node>, links: seq<Link>, models: map<string, Model>)

  datatype Lane = Lane(
    srcNode: string, dstNode: string, srcDevice: string, dstDevice: string,
    tx: nat, rx: nat, nt: nat, nr: nat, link: nat, key: string)

  datatype Group = Group(key: string, nt: nat, nr: nat, index: seq<int>)

  datatype Expansion = Lanes(lanes: seq<Lane>) | UnknownEndpoint(link: nat) | NoPorts(at: nat)

  datatype Resolution = Resolved(lanes: seq<Lane>, groups: seq<Group>) | Rejected(why: Expansion)

  /** link_key: the identity of a physical link, by its declared model. */
  function LinkKey(link: Link): string
  {
    link.from + ">" + link.to + ":" + (if link.declaredModel == "" then link.model else link.declaredModel)
  }

  /** by_id: the first node of that name. */
  function FindNode(nodes: seq<Node>, id: string): (n: int)
    ensures -1 <= n < |nodes|
    ensures n >= 0 ==> nodes[n].id == id && forall m: nat :: m < n ==> nodes[m].id != id
    ensures n == -1 ==> forall m: nat :: m < |nodes| ==> nodes[m].id != id
  {
    if nodes == [] then -1
    else if nodes[0].id == id then 0
    else var n := FindNode(nodes[1..], id); if n < 0 then -1 else n + 1
  }

  /** fixed_mimo_lane_is_live: some coefficient of the lane is not zero. */
  predicate LaneIsLive(model: Model, rx: int, tx: int)
  {
    exists k | 0 <= k < |model.coefficients| :: NonZeroAt(model.coefficients[k], rx, tx)
  }

  predicate NonZeroAt(c: Coefficient, rx: int, tx: int)
  {
    c.rx == rx && c.tx == tx && (c.re != 0.0 || c.im != 0.0)
  }

  /** A lane of a fixed matrix is dropped when all its coefficients are zero. */
  predicate Live(t: Topology, i: nat, rx: nat, tx: nat)
    requires i < |t.links|
  {
    var model := t.links[i].model;
    model in t.models && t.models[model].fixedMimo ==> LaneIsLive(t.models[model], rx, tx)
  }

  predicate Joined(t: Topology, i: nat)
    requires i < |t.links|
  {
    FindNode(t.nodes, t.links[i].from) >= 0 && FindNode(t.nodes, t.links[i].to) >= 0
  }

  function Nt(t: Topology, i: nat): nat
    requires i < |t.links| && Joined(t, i)
  {
    |t.nodes[FindNode(t.nodes, t.links[i].from)].txPorts|
  }

  function Nr(t: Topology, i: nat): nat
    requires i < |t.links| && Joined(t, i)
  {
    |t.nodes[FindNode(t.nodes, t.links[i].to)].rxPorts|
  }

  /** The lane of link i from TX port tx to RX port rx. */
  function LaneOf(t: Topology, i: nat, rx: nat, tx: nat): Lane
    requires i < |t.links| && Joined(t, i) && rx < Nr(t, i) && tx < Nt(t, i)
  {
    var src, dst := t.nodes[FindNode(t.nodes, t.links[i].from)], t.nodes[FindNode(t.nodes, t.links[i].to)];
    Lane(src.id, dst.id, src.txPorts[tx], dst.rxPorts[rx], tx, rx, Nt(t, i), Nr(t, i), i, LinkKey(t.links[i]))
  }

  /** Link i can be expanded. */
  predicate Expandable(t: Topology, i: nat)
    requires i < |t.links|
  {
    Joined(t, i) && Nt(t, i) > 0 && Nr(t, i) > 0
  }

  // ------------------------------------------------------------------------
  // Orders
  // ------------------------------------------------------------------------

  /** operator< of std::string. */
  predicate StringLess(a: string, b: string)
  {
    if b == "" then false
    else if a == "" then true
    else if a[0] == b[0] then StringLess(a[1..], b[1..])
    else a[0] < b[0]
  }

  lemma {:induction false} StringLessTotal(a: string, b: string)
    ensures StringLess(a, b) ==> a != b && !StringLess(b, a)
    ensures !StringLess(a, b) && !StringLess(b, a) ==> a == b
  {
    if a != "" && b != "" && a[0] == b[0] {
      StringLessTotal(a[1..], b[1..]);
      assert a == [a[0]] + a[1..] && b == [b[0]] + b[1..];
    }
  }

  lemma {:induction false} StringLessTransitive(a: string, b: string, c: string)
    requires StringLess(a, b) && StringLess(b, c)
    ensures StringLess(a, c)
  {
    if a != "" && b != "" && c != "" && a[0] == b[0] == c[0] {
      StringLessTransitive(a[1..], b[1..], c[1..]);
    }
  }

  /** Lexicographic order: the strings agree up to some position, where the first
      ends or has the smaller character. */
  lemma {:induction false} StringLessIff(a: string, b: string)
    ensures StringLess(a, b) <==>
            exists k: nat :: k <= |a| && k < |b| && a[..k] == b[..k] && (k < |a| ==> a[k] < b[k])
  {
    if a == "" || b == "" || a[0] != b[0] {
      if StringLess(a, b) {
        assert a[..0] == b[..0];
      }
      if k: nat :| k <= |a| && k < |b| && a[..k] == b[..k] && (k < |a| ==> a[k] < b[k]) {
        HeadsAgree(a, b, k);
      }
    } else {
      StringLessIff(a[1..], b[1..]);
      if k: nat :| k <= |a| - 1 && k < |b| - 1 && a[1..][..k] == b[1..][..k] && (k < |a| - 1 ==> a[1..][k] < b[1..][k]) {
        FrontsAgree(a, b, k);
      }
      if k: nat :| k <= |a| && k < |b| && a[..k] == b[..k] && (k < |a| ==> a[k] < b[k]) {
        BacksAgree(a, b, k);
      }
    }
  }

  lemma {:induction false} HeadsAgree(a: string, b: string, k: nat)
    requires k <= |a| && k <= |b| && a[..k] == b[..k]
    ensures k > 0 ==> a[0] == b[0]
  {
    assert k > 0 ==> a[..k][0] == a[0] && b[..k][0] == b[0];
  }

  lemma {:induction false} FrontsAgree(a: string, b: string, k: nat)
    requires a != "" && b != "" && a[0] == b[0] && k <= |a| - 1 && k < |b| - 1 && a[1..][..k] == b[1..][..k]
    requires k < |a| - 1 ==> a[1..][k] < b[1..][k]
    ensures exists j: nat :: j <= |a| && j < |b| && a[..j] == b[..j] && (j < |a| ==> a[j] < b[j])
  {
    var j := k + 1;
    assert a[..j] == [a[0]] + a[1..][..k] && b[..j] == [b[0]] + b[1..][..k];
  }

  lemma {:induction false} BacksAgree(a: string, b: string, k: nat)
    requires a != "" && b != "" && a[0] == b[0] && k <= |a| && k < |b| && a[..k] == b[..k] && (k < |a| ==> a[k] < b[k])
    ensures exists j: nat :: j <= |a| - 1 && j < |b| - 1 && a[1..][..j] == b[1..][..j] && (j < |a| - 1 ==> a[1..][j] < b[1..][j])
  {
    var j := k - 1;
    assert k > 0;
    assert a[1..][..j] == a[..k][1..] && b[1..][..j] == b[..k][1..];
  }

  /** The comparison given to stable_sort. */
  predicate RowLess(a: Lane, b: Lane)
  {
    if a.dstNode != b.dstNode then StringLess(a.dstNode, b.dstNode) else a.rx < b.rx
  }

  predicate SameRow(a: Lane, b: Lane) { a.dstNode == b.dstNode && a.rx == b.rx }

  /** The order lanes are emitted in: link, then rx, then tx. */
  predicate EmittedBefore(a: Lane, b: Lane)
  {
    a.link < b.link || (a.link == b.link && (a.rx < b.rx || (a.rx == b.rx && a.tx < b.tx)))
  }

  /** The final order: rows together, inside a row the emission order. */
  predicate FinalBefore(a: Lane, b: Lane)
  {
    RowLess(a, b) || (SameRow(a, b) && EmittedBefore(a, b))
  }

  ghost predicate Emitted(s: seq<Lane>)
  {
    forall p: nat, q: nat :: p < q < |s| ==> EmittedBefore(s[p], s[q])
  }

  ghost predicate Ordered(s: seq<Lane>)
  {
    forall p: nat, q: nat :: p < q < |s| ==> FinalBefore(s[p], s[q])
  }

  // ------------------------------------------------------------------------
  // std::stable_sort
  // ------------------------------------------------------------------------

  /** x placed behind everything that does not come after it. */
  function InsertStable(s: seq<Lane>, x: Lane): seq<Lane>
  {
    if s != [] && RowLess(x, s[|s| - 1]) then InsertStable(s[..|s| - 1], x) + [s[|s| - 1]] else s + [x]
  }

  function StableSort(s: seq<Lane>): seq<Lane>
  {
    if s == [] then [] else InsertStable(StableSort(s[..|s| - 1]), s[|s| - 1])
  }

  lemma {:induction false} InsertMembers(s: seq<Lane>, x: Lane, l: Lane)
    ensures l in InsertStable(s, x) <==> l == x || l in s
  {
    if s != [] && RowLess(x, s[|s| - 1]) {
      InsertMembers(s[..|s| - 1], x, l);
    }
  }

  lemma {:induction false} RowLessOrNot(a: Lane, b: Lane)
    ensures RowLess(a, b) ==> !RowLess(b, a) && !SameRow(a, b)
    ensures !RowLess(a, b) && !RowLess(b, a) ==> SameRow(a, b)
  {
    StringLessTotal(a.dstNode, b.dstNode);
  }

  lemma {:induction false} RowLessTransitive(a: Lane, b: Lane, c: Lane)
    requires RowLess(a, b) && (RowLess(b, c) || SameRow(b, c))
    ensures RowLess(a, c)
  {
    if a.dstNode != b.dstNode && b.dstNode != c.dstNode {
      StringLessTransitive(a.dstNode, b.dstNode, c.dstNode);
      StringLessTotal(a.dstNode, c.dstNode);
    }
  }

  lemma {:induction false} InsertOrdered(s: seq<Lane>, x: Lane)
    requires Ordered(s) && forall p: nat :: p < |s| ==> EmittedBefore(s[p], x)
    ensures Ordered(InsertStable(s, x))
  {
    hide RowLess, SameRow, EmittedBefore;
    if s != [] && RowLess(x, s[|s| - 1]) {
      var front, last := s[..|s| - 1], s[|s| - 1];
      InsertOrdered(front, x);
      var r := InsertStable(front, x);
      forall p: nat | p < |r|
        ensures FinalBefore(r[p], last)
      {
        InsertMembers(front, x, r[p]);
      }
    } else {
      forall p: nat | p < |s|
        ensures FinalBefore(s[p], x)
      {
        NotAfterLast(s, x, p);
      }
    }
  }

  /** If the last element does not come after x, none does. */
  lemma {:induction false} NotAfterLast(s: seq<Lane>, x: Lane, p: nat)
    requires Ordered(s) && p < |s| && !RowLess(x, s[|s| - 1]) && EmittedBefore(s[p], x)
    ensures FinalBefore(s[p], x)
  {
    hide RowLess, SameRow, EmittedBefore;
    var last := s[|s| - 1];
    RowLessOrNot(s[p], x);
    RowLessOrNot(last, x);
    if RowLess(x, s[p]) && p < |s| - 1 {
      assert FinalBefore(s[p], last);
      RowLessTransitive(x, s[p], last);
    }
  }

  lemma {:induction false} SortMembers(s: seq<Lane>, l: Lane)
    ensures l in StableSort(s) <==> l in s
  {
    if s != [] {
      var front, last := s[..|s| - 1], s[|s| - 1];
      SortMembers(front, l);
      InsertMembers(StableSort(front), last, l);
      assert s == front + [last];
    }
  }

  /** Rows in order, and inside a row the emission order untouched. */
  lemma {:induction false} SortOrders(s: seq<Lane>)
    requires Emitted(s)
    ensures Ordered(StableSort(s))
  {
    hide EmittedBefore, FinalBefore;
    if s != [] {
      var front, last := s[..|s| - 1], s[|s| - 1];
      SortOrders(front);
      forall p: nat | p < |StableSort(front)|
        ensures EmittedBefore(StableSort(front)[p], last)
      {
        SortMembers(front, StableSort(front)[p]);
        var q :| 0 <= q < |front| && front[q] == StableSort(front)[p];
        assert EmittedBefore(s[q], s[|s| - 1]);
      }
      InsertOrdered(StableSort(front), last);
    }
  }

  // ------------------------------------------------------------------------
  // Expansion
  // ------------------------------------------------------------------------

  /** (i, rx, tx) comes before (a, b, c) in the loops. */
  predicate Done(i: nat, rx: nat, tx: nat, a: nat, b: nat, c: nat)
  {
    i < a || (i == a && (rx < b || (rx == b && tx < c)))
  }

  ghost predicate Exists(t: Topology, i: nat, rx: nat, tx: nat)
  {
    i < |t.links| && Expandable(t, i) && rx < Nr(t, i) && tx < Nt(t, i) && Live(t, i, rx, tx)
  }

  /** l is the live lane its own indices name. */
  ghost predicate LaneOk(t: Topology, l: Lane)
  {
    Exists(t, l.link, l.rx, l.tx) && l == LaneOf(t, l.link, l.rx, l.tx)
  }

  /** The lanes are exactly the live ones before (a, b, c), in emission order. */
  ghost predicate ExpandedTo(t: Topology, lanes: seq<Lane>, a: nat, b: nat, c: nat)
  {
    Emitted(lanes) &&
    (forall p: nat :: p < |lanes| ==> LaneOk(t, lanes[p]) && Done(lanes[p].link, lanes[p].rx, lanes[p].tx, a, b, c)) &&
    (forall i: nat, rx: nat, tx: nat :: Exists(t, i, rx, tx) && Done(i, rx, tx, a, b, c) ==> LaneOf(t, i, rx, tx) in lanes)
  }

  lemma {:induction false} EmitStep(t: Topology, lanes: seq<Lane>, i: nat, rx: nat, tx: nat)
    requires ExpandedTo(t, lanes, i, rx, tx) && i < |t.links| && Expandable(t, i) && rx < Nr(t, i) && tx < Nt(t, i)
    ensures Live(t, i, rx, tx) ==> ExpandedTo(t, lanes + [LaneOf(t, i, rx, tx)], i, rx, tx + 1)
    ensures !Live(t, i, rx, tx) ==> ExpandedTo(t, lanes, i, rx, tx + 1)
  {
    hide FindNode, Live, LinkKey;
  }

  lemma {:induction false} RowEnd(t: Topology, lanes: seq<Lane>, i: nat, rx: nat)
    requires i < |t.links| && Expandable(t, i) && ExpandedTo(t, lanes, i, rx, Nt(t, i))
    ensures ExpandedTo(t, lanes, i, rx + 1, 0)
  {
    hide FindNode, Live, LinkKey, LaneOf, EmittedBefore;
  }

  lemma {:induction false} LinkEnd(t: Topology, lanes: seq<Lane>, i: nat)
    requires i < |t.links| && Expandable(t, i) && ExpandedTo(t, lanes, i, Nr(t, i), 0)
    ensures ExpandedTo(t, lanes, i + 1, 0, 0)
  {
    hide FindNode, Live, LinkKey, LaneOf, EmittedBefore;
  }

  /** The refusal names the first link that cannot be expanded. */
  ghost predicate RejectedFor(t: Topology, why: Expansion)
  {
    match why
    case Lanes(_) => false
    case UnknownEndpoint(i) => i < |t.links| && !Joined(t, i) && forall k: nat :: k < i ==> Expandable(t, k)
    case NoPorts(i) => i < |t.links| && Joined(t, i) && !Expandable(t, i) && forall k: nat :: k < i ==> Expandable(t, k)
  }

  method Expand(t: Topology) returns (r: Expansion)
    ensures if r.Lanes? then
              (forall i: nat :: i < |t.links| ==> Expandable(t, i)) && ExpandedTo(t, r.lanes, |t.links|, 0, 0)
            else RejectedFor(t, r)
  {
    hide FindNode, Live, LinkKey, LaneOf, ExpandedTo;
    var lanes: seq<Lane> := [];
    NothingExpanded(t);
    for i := 0 to |t.links|
      invariant forall k: nat :: k < i ==> Expandable(t, k)
      invariant ExpandedTo(t, lanes, i, 0, 0)
    {
      if !Joined(t, i) {
        return UnknownEndpoint(i);
      }
      var nt, nr := Nt(t, i), Nr(t, i);
      if nt == 0 || nr == 0 {
        return NoPorts(i);
      }
      for rx := 0 to nr
        invariant ExpandedTo(t, lanes, i, rx, 0)
      {
        for tx := 0 to nt
          invariant ExpandedTo(t, lanes, i, rx, tx)
        {
          EmitStep(t, lanes, i, rx, tx);
          if !Live(t, i, rx, tx) {
            continue;
          }
          lanes := lanes + [LaneOf(t, i, rx, tx)];
        }
        RowEnd(t, lanes, i, rx);
      }
      LinkEnd(t, lanes, i);
    }
    r := Lanes(lanes);
  }

  lemma {:induction false} NothingExpanded(t: Topology)
    ensures ExpandedTo(t, [], 0, 0, 0)
  {
  }

  // ------------------------------------------------------------------------
  // Link groups
  // ------------------------------------------------------------------------

  /** Where a lane stands in its link's matrix. */
  function MatrixCell(l: Lane): nat
    requires l.tx < l.nt
  {
    Cell(l.nt, l.rx, l.tx)
  }

  /** Lanes fit their matrix, one key has one shape, and no two lanes of a key
      stand in one cell. */
  ghost predicate Indexable(lanes: seq<Lane>)
  {
    (forall p: nat :: p < |lanes| ==> lanes[p].rx < lanes[p].nr && lanes[p].tx < lanes[p].nt) &&
    (forall p: nat, q: nat :: p < q < |lanes| && lanes[p].key == lanes[q].key ==>
       lanes[p].nt == lanes[q].nt && lanes[p].nr == lanes[q].nr &&
       (lanes[p].rx != lanes[q].rx || lanes[p].tx != lanes[q].tx))
  }

  /** Every position among the first n points at itself through its group. */
  ghost predicate PointsBack(lanes: seq<Lane>, groups: seq<Group>, groupOf: map<string, nat>, q: nat)
    requires q < |lanes|
  {
    var l := lanes[q];
    l.tx < l.nt && l.rx < l.nr && l.key in groupOf && groupOf[l.key] < |groups| &&
    var g := groups[groupOf[l.key]];
    g.nt == l.nt && g.nr == l.nr && MatrixCell(l) < |g.index| && g.index[MatrixCell(l)] == q
  }

  /** An index entry is -1 or the position of a lane of that key and cell. */
  ghost predicate EntryOk(lanes: seq<Lane>, g: Group, c: nat, n: nat)
    requires c < |g.index| && n <= |lanes|
  {
    g.index[c] == -1 ||
    (0 <= g.index[c] < n &&
     var l := lanes[g.index[c]];
     l.key == g.key && l.tx < l.nt && l.nt == g.nt && l.nr == g.nr && MatrixCell(l) == c)
  }

  ghost predicate GroupOk(lanes: seq<Lane>, g: Group, n: nat)
    requires n <= |lanes|
  {
    |g.index| == g.nr * g.nt &&
    (exists q: nat :: q < n && lanes[q].key == g.key && lanes[q].nt == g.nt && lanes[q].nr == g.nr) &&
    forall c: nat :: c < |g.index| ==> EntryOk(lanes, g, c, n)
  }

  ghost predicate Indexed(lanes: seq<Lane>, groups: seq<Group>, groupOf: map<string, nat>, n: nat)
  {
    n <= |lanes| &&
    (forall k :: k in groupOf ==> groupOf[k] < |groups| && groups[groupOf[k]].key == k) &&
    (forall i: nat :: i < |groups| ==> groups[i].key in groupOf && groupOf[groups[i].key] == i) &&
    (forall i: nat :: i < |groups| ==> GroupOk(lanes, groups[i], n)) &&
    (forall q: nat :: q < n ==> PointsBack(lanes, groups, groupOf, q))
  }

  /** The finished index: some map from keys to groups finds every lane. */
  ghost predicate IsIndex(lanes: seq<Lane>, groups: seq<Group>)
  {
    exists groupOf: map<string, nat> :: Indexed(lanes, groups, groupOf, |lanes|)
  }

  /** The first position of a lane of that key, or the end. */
  function FirstOf(lanes: seq<Lane>, key: string): (p: nat)
    ensures p <= |lanes| && (p < |lanes| ==> lanes[p].key == key)
    ensures forall q: nat :: q < p ==> lanes[q].key != key
  {
    if lanes == [] || lanes[0].key == key then 0
    else
      var p := 1 + FirstOf(lanes[1..], key);
      assert forall q: nat :: 0 < q < p ==> lanes[q] == lanes[1..][q - 1];
      p
  }

  /** The groups stand in the order of their first lanes. */
  ghost predicate ByFirstLane(lanes: seq<Lane>, groups: seq<Group>)
  {
    forall k: nat, m: nat :: k < m < |groups| ==> FirstOf(lanes, groups[k].key) < FirstOf(lanes, groups[m].key)
  }

  ghost predicate FirstBefore(lanes: seq<Lane>, groups: seq<Group>, n: nat)
  {
    forall k: nat :: k < |groups| ==> FirstOf(lanes, groups[k].key) < n
  }

  /** A key that is new at position n has its first lane there. */
  lemma {:induction false} NewKeyIsFirst(lanes: seq<Lane>, groups: seq<Group>, groupOf: map<string, nat>, n: nat)
    requires n < |lanes| && Indexed(lanes, groups, groupOf, n) && lanes[n].key !in groupOf
    ensures FirstOf(lanes, lanes[n].key) == n
  {
    hide FirstOf, GroupOk;
    var p := FirstOf(lanes, lanes[n].key);
    assert p < n ==> PointsBack(lanes, groups, groupOf, p);
  }

  /** try_emplace of a lane's group: found, or appended with an empty index. */
  function WithGroup(groups: seq<Group>, groupOf: map<string, nat>, l: Lane): (seq<Group>, map<string, nat>)
  {
    if l.key in groupOf then (groups, groupOf)
    else (groups + [Group(l.key, l.nt, l.nr, seq(l.nr * l.nt, (_: nat) => -1))], groupOf[l.key := |groups|])
  }

  /** The state between emplacing position n's group and writing its entry. */
  ghost predicate Emplaced(lanes: seq<Lane>, groups: seq<Group>, groupOf: map<string, nat>, n: nat)
    requires n < |lanes|
  {
    (forall k :: k in groupOf ==> groupOf[k] < |groups| && groups[groupOf[k]].key == k) &&
    (forall i: nat :: i < |groups| ==> groups[i].key in groupOf && groupOf[groups[i].key] == i) &&
    (forall i: nat :: i < |groups| ==> GroupOk(lanes, groups[i], n + 1)) &&
    (forall q: nat :: q < n ==> PointsBack(lanes, groups, groupOf, q)) &&
    lanes[n].key in groupOf
  }

  lemma {:induction false} EmplaceStep(lanes: seq<Lane>, groups: seq<Group>, groupOf: map<string, nat>, n: nat)
    requires Indexed(lanes, groups, groupOf, n) && n < |lanes|
    ensures Emplaced(lanes, WithGroup(groups, groupOf, lanes[n]).0, WithGroup(groups, groupOf, lanes[n]).1, n)
  {
    hide Cell;
    var l := lanes[n];
    var (gs, m) := WithGroup(groups, groupOf, l);
    forall i: nat | i < |gs|
      ensures GroupOk(lanes, gs[i], n + 1)
    {
      if i < |groups| {
        GroupGrows(lanes, groups[i], n);
      } else {
        assert lanes[n].key == gs[i].key;
      }
    }
    forall q: nat | q < n
      ensures PointsBack(lanes, gs, m, q)
    {
      assert PointsBack(lanes, groups, groupOf, q);
    }
  }

  lemma {:induction false} GroupGrows(lanes: seq<Lane>, g: Group, n: nat)
    requires n < |lanes| && GroupOk(lanes, g, n)
    ensures GroupOk(lanes, g, n + 1)
  {
    hide Cell;
    var m := n + 1;
    forall c: nat | c < |g.index|
      ensures EntryOk(lanes, g, c, m)
    {
      assert EntryOk(lanes, g, c, n);
    }
  }

  /** Writing position n into its cell. */
  lemma {:induction false} WriteStep(lanes: seq<Lane>, groups: seq<Group>, groupOf: map<string, nat>, n: nat)
    requires n < |lanes| && Indexable(lanes) && Emplaced(lanes, groups, groupOf, n)
    ensures var l := lanes[n];
            l.tx < l.nt && groupOf[l.key] < |groups| &&
            var g := groups[groupOf[l.key]];
            MatrixCell(l) < |g.index| &&
            Indexed(lanes, groups[groupOf[l.key] := g.(index := g.index[MatrixCell(l) := n])], groupOf, n + 1)
  {
    hide Cell;
    var l := lanes[n];
    var k := groupOf[l.key];
    var g := groups[k];
    assert GroupOk(lanes, g, n + 1);
    var w: nat :| w < n + 1 && lanes[w].key == g.key && lanes[w].nt == g.nt && lanes[w].nr == g.nr;
    assert g.nt == l.nt && g.nr == l.nr;
    CellBound(l.nr, l.nt, l.rx, l.tx);
    var h := g.(index := g.index[MatrixCell(l) := n]);
    var gs := groups[k := h];
    assert GroupOk(lanes, h, n + 1) by {
      var m := n + 1;
      forall c: nat | c < |h.index|
        ensures EntryOk(lanes, h, c, m)
      {
        assert EntryOk(lanes, g, c, m);
      }
    }
    forall q: nat | q < n + 1
      ensures PointsBack(lanes, gs, groupOf, q)
    {
      if q < n {
        assert PointsBack(lanes, groups, groupOf, q);
        if groupOf[lanes[q].key] == k && MatrixCell(lanes[q]) == MatrixCell(l) {
          CellInjective(l.nt, lanes[q].rx, lanes[q].tx, l.rx, l.tx);
        }
      }
    }
  }

  /** The loop that builds the inverse index from the sorted lanes. */
  method GroupLanes(lanes: seq<Lane>) returns (groups: seq<Group>)
    requires Indexable(lanes)
    ensures IsIndex(lanes, groups)
    ensures ByFirstLane(lanes, groups)
  {
    hide Cell, Indexed, Emplaced, Indexable, FirstOf;
    groups := [];
    var place: map<string, nat> := map[];
    NothingIndexed(lanes);
    for p := 0 to |lanes|
      invariant Indexed(lanes, groups, place, p) && (p == 0 ==> place == map[] && groups == [])
      invariant ByFirstLane(lanes, groups) && FirstBefore(lanes, groups, p)
    {
      var lane := lanes[p];
      assert lane.key !in place ==> FirstOf(lanes, lane.key) == p by {
        if lane.key !in place {
          NewKeyIsFirst(lanes, groups, place, p);
        }
      }
      EmplaceStep(lanes, groups, place, p);
      if lane.key !in place {
        place := place[lane.key := |groups|];
        groups := groups + [Group(lane.key, lane.nt, lane.nr, seq(lane.nr * lane.nt, (_: nat) => -1))];
      }
      WriteStep(lanes, groups, place, p);
      var g := place[lane.key];
      groups := groups[g := groups[g].(index := groups[g].index[MatrixCell(lane) := p])];
    }
  }

  lemma {:induction false} NothingIndexed(lanes: seq<Lane>)
    ensures Indexed(lanes, [], map[], 0)
  {
  }

  // ------------------------------------------------------------------------
  // The resolved topology
  // ------------------------------------------------------------------------

  ghost predicate DistinctKeys(t: Topology)
  {
    forall i: nat, k: nat :: i < k < |t.links| ==> LinkKey(t.links[i]) != LinkKey(t.links[k])
  }

  /** Every live lane stands exactly once in the sorted list. */
  ghost predicate LanesComplete(t: Topology, lanes: seq<Lane>)
  {
    Ordered(lanes) &&
    (forall p: nat :: p < |lanes| ==> LaneOk(t, lanes[p])) &&
    (forall i: nat, rx: nat, tx: nat :: Exists(t, i, rx, tx) ==> LaneOf(t, i, rx, tx) in lanes)
  }

  lemma {:induction false} SortedIsComplete(t: Topology, lanes: seq<Lane>)
    requires ExpandedTo(t, lanes, |t.links|, 0, 0)
    ensures LanesComplete(t, StableSort(lanes))
  {
    hide LaneOf, LaneOk, FinalBefore, EmittedBefore, Live;
    var sorted := StableSort(lanes);
    SortOrders(lanes);
    forall p: nat | p < |sorted|
      ensures LaneOk(t, sorted[p])
    {
      SortMembers(lanes, sorted[p]);
    }
    forall i: nat, rx: nat, tx: nat | Exists(t, i, rx, tx)
      ensures LaneOf(t, i, rx, tx) in sorted
    {
      ExistsInRange(t, i, rx, tx);
      SortMembers(lanes, LaneOf(t, i, rx, tx));
    }
  }

  lemma {:induction false} ExistsInRange(t: Topology, i: nat, rx: nat, tx: nat)
    requires Exists(t, i, rx, tx)
    ensures i < |t.links| && Joined(t, i) && rx < Nr(t, i) && tx < Nt(t, i) && Done(i, rx, tx, |t.links|, 0, 0)
  {
  }

  lemma {:induction false} FinalBeforeDiffers(a: Lane, b: Lane)
    requires FinalBefore(a, b)
    ensures a.dstNode != b.dstNode || a.link != b.link || a.rx != b.rx || a.tx != b.tx
  {
  }

  lemma {:induction false} CompleteIsIndexable(t: Topology, lanes: seq<Lane>)
    requires LanesComplete(t, lanes) && DistinctKeys(t)
    ensures Indexable(lanes)
  {
    hide FinalBefore, FindNode, LinkKey, Live;
    forall p: nat, q: nat | p < q < |lanes| && lanes[p].key == lanes[q].key
      ensures lanes[p].nt == lanes[q].nt && lanes[p].nr == lanes[q].nr &&
              (lanes[p].rx != lanes[q].rx || lanes[p].tx != lanes[q].tx)
    {
      assert LaneOk(t, lanes[p]) && LaneOk(t, lanes[q]);
      assert lanes[p].link == lanes[q].link;
      FinalBeforeDiffers(lanes[p], lanes[q]);
    }
    forall p: nat | p < |lanes|
      ensures lanes[p].rx < lanes[p].nr && lanes[p].tx < lanes[p].nt
    {
      assert LaneOk(t, lanes[p]);
    }
  }

  // ------------------------------------------------------------------------
  // What a lane joins
  // ------------------------------------------------------------------------

  /** Node n is the first of its name. */
  ghost predicate FirstNamed(t: Topology, n: nat, id: string)
  {
    n < |t.nodes| && t.nodes[n].id == id && forall m: nat :: m < n ==> t.nodes[m].id != id
  }

  /** The lane joins TX port tx of the first node its link comes from with RX port
      rx of the first node it goes to. */
  ghost predicate JoinsPorts(t: Topology, l: Lane, a: nat, b: nat)
  {
    l.link < |t.links| && FirstNamed(t, a, t.links[l.link].from) && FirstNamed(t, b, t.links[l.link].to) &&
    l.srcNode == t.links[l.link].from && l.dstNode == t.links[l.link].to &&
    l.nt == |t.nodes[a].txPorts| && l.nr == |t.nodes[b].rxPorts| &&
    l.tx < l.nt && l.srcDevice == t.nodes[a].txPorts[l.tx] &&
    l.rx < l.nr && l.dstDevice == t.nodes[b].rxPorts[l.rx] &&
    l.key == LinkKey(t.links[l.link])
  }

  ghost predicate JoinsSome(t: Topology, l: Lane) { exists a: nat, b: nat :: JoinsPorts(t, l, a, b) }

  lemma {:induction false} LaneJoinsPorts(t: Topology, l: Lane) returns (a: nat, b: nat)
    requires LaneOk(t, l)
    ensures JoinsPorts(t, l, a, b)
  {
    hide LinkKey, Live;
    a, b := FindNode(t.nodes, t.links[l.link].from), FindNode(t.nodes, t.links[l.link].to);
  }

  /** Every antenna pair of a link has a lane, but for those where a fixed matrix
      has no coefficient other than zero. */
  lemma {:induction false} LaneIffHeard(t: Topology, lanes: seq<Lane>, i: nat, rx: nat, tx: nat)
    requires LanesComplete(t, lanes) && i < |t.links| && Expandable(t, i) && rx < Nr(t, i) && tx < Nt(t, i)
    ensures (exists p: nat :: p < |lanes| && lanes[p].link == i && lanes[p].rx == rx && lanes[p].tx == tx) <==>
            (var model := t.links[i].model;
             model !in t.models || !t.models[model].fixedMimo ||
             exists k: nat :: k < |t.models[model].coefficients| &&
               var c := t.models[model].coefficients[k];
               c.rx == rx && c.tx == tx && (c.re != 0.0 || c.im != 0.0))
  {
    hide FinalBefore, FindNode, LinkKey;
    LiveIff(t, i, rx, tx);
    if Live(t, i, rx, tx) {
      assert Exists(t, i, rx, tx);
      var p :| 0 <= p < |lanes| && lanes[p] == LaneOf(t, i, rx, tx);
    }
    if p: nat :| p < |lanes| && lanes[p].link == i && lanes[p].rx == rx && lanes[p].tx == tx {
      assert LaneOk(t, lanes[p]);
    }
  }

  lemma {:induction false} LiveIff(t: Topology, i: nat, rx: nat, tx: nat)
    requires i < |t.links|
    ensures Live(t, i, rx, tx) <==>
            (var model := t.links[i].model;
             model !in t.models || !t.models[model].fixedMimo ||
             exists k: nat :: k < |t.models[model].coefficients| &&
               var c := t.models[model].coefficients[k];
               c.rx == rx && c.tx == tx && (c.re != 0.0 || c.im != 0.0))
  {
    var model := t.links[i].model;
    if model in t.models && t.models[model].fixedMimo {
      var cs := t.models[model].coefficients;
      if k :| 0 <= k < |cs| && NonZeroAt(cs[k], rx, tx) {
      }
      if k: nat :| k < |cs| && cs[k].rx == rx && cs[k].tx == tx && (cs[k].re != 0.0 || cs[k].im != 0.0) {
        assert NonZeroAt(cs[k], rx, tx);
      }
    }
  }

  /** A list without repetitions. */
  ghost predicate Distinct(ports: seq<string>)
  {
    forall i: nat, k: nat :: i < k < |ports| ==> ports[i] != ports[k]
  }

  /** With distinct ports, two lanes of a link share an antenna's device exactly
      when they share the antenna. */
  lemma {:induction false} DeviceIsAntenna(t: Topology, l: Lane, m: Lane, a: nat, b: nat)
    requires JoinsPorts(t, l, a, b) && JoinsPorts(t, m, a, b) && l.link == m.link
    requires Distinct(t.nodes[a].txPorts) && Distinct(t.nodes[b].rxPorts)
    ensures l.srcDevice == m.srcDevice <==> l.tx == m.tx
    ensures l.dstDevice == m.dstDevice <==> l.rx == m.rx
  {
  }

  /** A key names both ends and the model the author wrote, whatever clone runs. */
  lemma {:induction false} KeyNamesLink(a: Link, b: Link)
    requires '>' !in a.from && '>' !in b.from && ':' !in a.to && ':' !in b.to
    ensures LinkKey(a) == LinkKey(b) <==>
            a.from == b.from && a.to == b.to &&
            (if a.declaredModel == "" then a.model else a.declaredModel) == (if b.declaredModel == "" then b.model else b.declaredModel)
  {
    var m := if a.declaredModel == "" then a.model else a.declaredModel;
    var n := if b.declaredModel == "" then b.model else b.declaredModel;
    if LinkKey(a) == LinkKey(b) {
      assert LinkKey(a) == a.from + ['>'] + (a.to + ":" + m);
      assert LinkKey(b) == b.from + ['>'] + (b.to + ":" + n);
      SplitOnce(a.from, b.from, a.to + ":" + m, b.to + ":" + n, '>');
      assert a.to + [':'] + m == a.to + ":" + m && b.to + [':'] + n == b.to + ":" + n;
      SplitOnce(a.to, b.to, m, n, ':');
    }
  }

  method Resolve(t: Topology) returns (r: Resolution)
    requires DistinctKeys(t)
    ensures r.Rejected? ==> RejectedFor(t, r.why)
    ensures r.Resolved? ==> forall i: nat :: i < |t.links| ==> Expandable(t, i)
    ensures r.Resolved? ==> LanesComplete(t, r.lanes) && IsIndex(r.lanes, r.groups)
    ensures r.Resolved? ==> ByFirstLane(r.lanes, r.groups)
    ensures r.Resolved? ==> forall p: nat :: p < |r.lanes| ==> JoinsSome(t, r.lanes[p])
  {
    hide ExpandedTo, LanesComplete, Indexed, DistinctKeys, StableSort, Nt, Nr, ByFirstLane;
    var e := Expand(t);
    if !e.Lanes? {
      return Rejected(e);
    }
    var lanes := StableSort(e.lanes);
    SortedIsComplete(t, e.lanes);
    CompleteIsIndexable(t, lanes);
    var groups := GroupLanes(lanes);
    AllJoinPorts(t, lanes);
    r := Resolved(lanes, groups);
  }

  lemma {:induction false} AllJoinPorts(t: Topology, lanes: seq<Lane>)
    requires LanesComplete(t, lanes)
    ensures forall p: nat :: p < |lanes| ==> JoinsSome(t, lanes[p])
  {
    hide JoinsPorts, LaneOk, FinalBefore;
    forall p: nat | p < |lanes|
      ensures JoinsSome(t, lanes[p])
    {
      var a, b := LaneJoinsPorts(t, lanes[p]);
    }
  }

  // ------------------------------------------------------------------------
  // Inverse views
  // ------------------------------------------------------------------------

  /** A row's lanes are contiguous. */
  lemma {:induction false} RowsAreContiguous(t: Topology, lanes: seq<Lane>, p: nat, q: nat, s: nat)
    requires LanesComplete(t, lanes) && p <= q <= s < |lanes| && SameRow(lanes[p], lanes[s])
    ensures SameRow(lanes[p], lanes[q])
  {
    if p < q < s {
      assert FinalBefore(lanes[p], lanes[q]) && FinalBefore(lanes[q], lanes[s]);
      RowLessOrNot(lanes[p], lanes[q]);
      RowLessOrNot(lanes[q], lanes[s]);
      RowLessOrNot(lanes[p], lanes[s]);
      if RowLess(lanes[p], lanes[q]) {
        RowLessTransitive(lanes[p], lanes[q], lanes[s]);
      }
    }
  }

  /** Inside a row the lanes keep link order, and inside a link TX order. */
  lemma {:induction false} RowKeepsOrder(t: Topology, lanes: seq<Lane>, p: nat, q: nat)
    requires LanesComplete(t, lanes) && p < q < |lanes| && SameRow(lanes[p], lanes[q])
    ensures lanes[p].link < lanes[q].link || (lanes[p].link == lanes[q].link && lanes[p].tx < lanes[q].tx)
  {
    assert FinalBefore(lanes[p], lanes[q]);
    RowLessOrNot(lanes[p], lanes[q]);
  }

  /** A live lane appears at one position only. */
  lemma {:induction false} LaneOnce(t: Topology, lanes: seq<Lane>, p: nat, q: nat)
    requires LanesComplete(t, lanes) && p < |lanes| && q < |lanes| && lanes[p] == lanes[q]
    ensures p == q
  {
    hide FinalBefore;
    if p < q {
      FinalBeforeDiffers(lanes[p], lanes[q]);
    } else if q < p {
      FinalBeforeDiffers(lanes[q], lanes[p]);
    }
  }

  /** A group of link i's key has the shape of link i, and its entries are
      positions of link i's lanes. */
  lemma {:induction false} GroupShape(t: Topology, lanes: seq<Lane>, groups: seq<Group>, k: nat, i: nat)
    requires DistinctKeys(t) && LanesComplete(t, lanes) && IsIndex(lanes, groups)
    requires k < |groups| && i < |t.links| && Expandable(t, i) && groups[k].key == LinkKey(t.links[i])
    ensures groups[k].nt == Nt(t, i) && groups[k].nr == Nr(t, i) && |groups[k].index| == Nr(t, i) * Nt(t, i)
    ensures forall c: nat :: c < |groups[k].index| ==> EntryOk(lanes, groups[k], c, |lanes|)
  {
    hide Cell, FindNode, Live, FinalBefore, LinkKey, PointsBack, EntryOk;
    var groupOf :| Indexed(lanes, groups, groupOf, |lanes|);
    var g := groups[k];
    assert GroupOk(lanes, g, |lanes|);
    var w: nat :| w < |lanes| && lanes[w].key == g.key && lanes[w].nt == g.nt && lanes[w].nr == g.nr;
    assert LaneOk(t, lanes[w]);
    assert lanes[w].link == i;
  }

  /** A lane in the list is found through every group of its key. */
  lemma {:induction false} LaneIsIndexed(lanes: seq<Lane>, groups: seq<Group>, k: nat, q: nat)
    requires IsIndex(lanes, groups) && k < |groups| && q < |lanes| && groups[k].key == lanes[q].key
    ensures lanes[q].tx < lanes[q].nt && MatrixCell(lanes[q]) < |groups[k].index| && groups[k].index[MatrixCell(lanes[q])] == q
  {
    hide Cell, GroupOk;
    var groupOf :| Indexed(lanes, groups, groupOf, |lanes|);
    assert PointsBack(lanes, groups, groupOf, q);
  }

  /** The index of a link's group against the lane list: the entry of (rx, tx) is
      the position of precisely that lane when the lane is live, and -1 exactly
      when the fixed matrix makes it silent. */
  lemma {:induction false} IndexIsInverse(t: Topology, lanes: seq<Lane>, groups: seq<Group>, k: nat, i: nat, rx: nat, tx: nat)
    requires DistinctKeys(t) && LanesComplete(t, lanes) && IsIndex(lanes, groups)
    requires k < |groups| && i < |t.links| && Expandable(t, i) && groups[k].key == LinkKey(t.links[i])
    requires rx < Nr(t, i) && tx < Nt(t, i)
    ensures groups[k].nt == Nt(t, i) && groups[k].nr == Nr(t, i)
    ensures Cell(Nt(t, i), rx, tx) < |groups[k].index|
    ensures var p := groups[k].index[Cell(Nt(t, i), rx, tx)];
            (p == -1 <==> !Live(t, i, rx, tx)) &&
            (p != -1 ==> 0 <= p < |lanes| && lanes[p] == LaneOf(t, i, rx, tx))
  {
    hide Cell, FindNode, Live, FinalBefore, LinkKey, IsIndex;
    var g := groups[k];
    GroupShape(t, lanes, groups, k, i);
    CellBound(Nr(t, i), Nt(t, i), rx, tx);
    var c := Cell(Nt(t, i), rx, tx);
    assert EntryOk(lanes, g, c, |lanes|);
    var p := g.index[c];
    if p != -1 {
      EntryIsLane(t, lanes, g, i, p, rx, tx);
    } else if Live(t, i, rx, tx) {
      assert Exists(t, i, rx, tx);
      var q :| 0 <= q < |lanes| && lanes[q] == LaneOf(t, i, rx, tx);
      LaneIsIndexed(lanes, groups, k, q);
    }
  }

  lemma {:induction false} EntryIsLane(t: Topology, lanes: seq<Lane>, g: Group, i: nat, p: nat, rx: nat, tx: nat)
    requires DistinctKeys(t) && LanesComplete(t, lanes) && p < |lanes|
    requires i < |t.links| && Expandable(t, i) && rx < Nr(t, i) && tx < Nt(t, i) && g.key == LinkKey(t.links[i])
    requires lanes[p].key == g.key && lanes[p].tx < lanes[p].nt && MatrixCell(lanes[p]) == Cell(Nt(t, i), rx, tx)
    ensures lanes[p] == LaneOf(t, i, rx, tx) && Live(t, i, rx, tx)
  {
    hide Cell, FindNode, Live, FinalBefore, LinkKey;
    assert LaneOk(t, lanes[p]);
    assert lanes[p].link == i;
    CellInjective(Nt(t, i), lanes[p].rx, lanes[p].tx, rx, tx);
  }

  /** Every link with a live lane has one group, and groups are of such links. */
  lemma {:induction false} GroupsAreLinks(t: Topology, lanes: seq<Lane>, groups: seq<Group>, i: nat)
    requires DistinctKeys(t) && LanesComplete(t, lanes) && IsIndex(lanes, groups) && i < |t.links|
    ensures (exists rx: nat, tx: nat :: Exists(t, i, rx, tx)) <==>
            (exists k: nat :: k < |groups| && groups[k].key == LinkKey(t.links[i]))
    ensures forall k: nat, m: nat :: k < m < |groups| ==> groups[k].key != groups[m].key
  {
    hide Cell, FindNode, Live, FinalBefore, LinkKey;
    if rx: nat, tx: nat :| Exists(t, i, rx, tx) {
      LaneHasGroup(t, lanes, groups, i, rx, tx);
    }
    if k: nat :| k < |groups| && groups[k].key == LinkKey(t.links[i]) {
      GroupHasLane(t, lanes, groups, k, i);
    }
    var groupOf :| Indexed(lanes, groups, groupOf, |lanes|);
  }

  lemma {:induction false} LaneHasGroup(t: Topology, lanes: seq<Lane>, groups: seq<Group>, i: nat, rx: nat, tx: nat)
    requires LanesComplete(t, lanes) && IsIndex(lanes, groups) && Exists(t, i, rx, tx)
    ensures exists k: nat :: k < |groups| && groups[k].key == LinkKey(t.links[i])
  {
    hide Cell, FindNode, Live, FinalBefore, LinkKey, GroupOk;
    var groupOf :| Indexed(lanes, groups, groupOf, |lanes|);
    var q :| 0 <= q < |lanes| && lanes[q] == LaneOf(t, i, rx, tx);
    assert PointsBack(lanes, groups, groupOf, q);
  }

  lemma {:induction false} GroupHasLane(t: Topology, lanes: seq<Lane>, groups: seq<Group>, k: nat, i: nat)
    requires DistinctKeys(t) && LanesComplete(t, lanes) && IsIndex(lanes, groups)
    requires i < |t.links| && k < |groups| && groups[k].key == LinkKey(t.links[i])
    ensures exists rx: nat, tx: nat :: Exists(t, i, rx, tx)
  {
    hide Cell, FindNode, Live, FinalBefore, LinkKey, PointsBack, EntryOk;
    var groupOf :| Indexed(lanes, groups, groupOf, |lanes|);
    assert GroupOk(lanes, groups[k], |lanes|);
    var w: nat :| w < |lanes| && lanes[w].key == groups[k].key && lanes[w].nt == groups[k].nt;
    assert LaneOk(t, lanes[w]) && lanes[w].link == i;
    assert Exists(t, i, lanes[w].rx, lanes[w].tx);
  }
}
