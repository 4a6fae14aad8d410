/** The order of the link groups that resolve_topology leaves, against the link
    order its header comment promises. */
module GroupOrder {
  import opened Lanes

  /** rx is the smallest RX index of a live lane of link i. */
  ghost predicate FirstRow(t: Topology, i: nat, rx: nat)
  {
    (exists tx: nat :: Exists(t, i, rx, tx)) && forall r: nat, tx: nat :: r < rx ==> !Exists(t, i, r, tx)
  }

  /** Row r of link i's destination sorts strictly before row s of link k's. */
  predicate SortsBefore(t: Topology, i: nat, r: nat, k: nat, s: nat)
    requires i < |t.links| && k < |t.links|
  {
    if t.links[i].to != t.links[k].to then StringLess(t.links[i].to, t.links[k].to) else r < s
  }

  /** No link's first row sorts strictly before an earlier link's. */
  ghost predicate RowsFollowLinks(t: Topology)
  {
    forall i: nat, k: nat, r: nat, s: nat :: i < k < |t.links| && FirstRow(t, i, r) && FirstRow(t, k, s) ==>
      !SortsBefore(t, k, s, i, r)
  }

  predicate IsGroupOf(t: Topology, groups: seq<Group>, k: nat, i: nat)
  {
    k < |groups| && i < |t.links| && groups[k].key == LinkKey(t.links[i])
  }

  ghost predicate InLinkOrder(t: Topology, groups: seq<Group>)
  {
    forall k: nat, m: nat, i: nat, j: nat :: k < m < |groups| && IsGroupOf(t, groups, k, i) && IsGroupOf(t, groups, m, j) ==>
      i < j
  }

  /** A link with a live lane has a first row. */
  lemma {:induction false} HasFirstRow(t: Topology, i: nat, rx: nat, tx: nat) returns (r: nat)
    requires Exists(t, i, rx, tx)
    ensures FirstRow(t, i, r)
    decreases rx
  {
    hide Exists;
    if a: nat, b: nat :| a < rx && Exists(t, i, a, b) {
      r := HasFirstRow(t, i, a, b);
    } else {
      r := rx;
    }
  }

  /** The first lane of a link in the sorted list is of its first row. */
  lemma {:induction false} FirstLane(t: Topology, lanes: seq<Lane>, i: nat, r: nat)
    requires DistinctKeys(t) && LanesComplete(t, lanes) && FirstRow(t, i, r) && i < |t.links|
    ensures var p := FirstOf(lanes, LinkKey(t.links[i]));
            p < |lanes| && lanes[p].link == i && lanes[p].rx == r && lanes[p].dstNode == t.links[i].to
  {
    hide FirstOf, LinkKey, FindNode, Live, FinalBefore;
    var tx: nat :| Exists(t, i, r, tx);
    var p := FirstOf(lanes, LinkKey(t.links[i]));
    var q :| 0 <= q < |lanes| && lanes[q] == LaneOf(t, i, r, tx);
    assert LaneOk(t, lanes[p]) && lanes[p].link == i;
    LaneTo(t, lanes[p]);
    LaneTo(t, lanes[q]);
    if p < q {
      NotBelow(lanes[p], lanes[q]);
    }
  }

  /** Among lanes to one node the earlier one has no larger RX index. */
  lemma {:induction false} NotBelow(a: Lane, b: Lane)
    requires FinalBefore(a, b) && a.dstNode == b.dstNode
    ensures a.rx <= b.rx
  {
  }

  lemma {:induction false} LaneTo(t: Topology, l: Lane)
    requires LaneOk(t, l)
    ensures l.dstNode == t.links[l.link].to
  {
  }

  /** Of two links with a live lane, the later one stands first exactly when its
      first row sorts strictly before the earlier one's. */
  lemma {:induction false} FirstLaneOrder(t: Topology, lanes: seq<Lane>, i: nat, k: nat, r: nat, s: nat)
    requires DistinctKeys(t) && LanesComplete(t, lanes) && i < k < |t.links| && FirstRow(t, i, r) && FirstRow(t, k, s)
    ensures FirstOf(lanes, LinkKey(t.links[k])) < FirstOf(lanes, LinkKey(t.links[i])) <==> SortsBefore(t, k, s, i, r)
  {
    hide FirstOf, LinkKey, FirstRow, LaneOk, Exists, DistinctKeys, StringLess;
    FirstLane(t, lanes, i, r);
    FirstLane(t, lanes, k, s);
    var p, q := FirstOf(lanes, LinkKey(t.links[i])), FirstOf(lanes, LinkKey(t.links[k]));
    StringLessTotal(t.links[i].to, t.links[k].to);
    assert p < q ==> FinalBefore(lanes[p], lanes[q]);
    assert q < p ==> FinalBefore(lanes[q], lanes[p]);
  }

  lemma {:induction false} GroupOfRow(t: Topology, lanes: seq<Lane>, groups: seq<Group>, i: nat, r: nat) returns (k: nat)
    requires LanesComplete(t, lanes) && IsIndex(lanes, groups) && i < |t.links| && FirstRow(t, i, r)
    ensures k < |groups| && groups[k].key == LinkKey(t.links[i])
  {
    hide LanesComplete, IsIndex, Exists;
    var tx: nat :| Exists(t, i, r, tx);
    LaneHasGroup(t, lanes, groups, i, r, tx);
    k :| k < |groups| && groups[k].key == LinkKey(t.links[i]);
  }

  lemma {:induction false} RowOfGroup(t: Topology, lanes: seq<Lane>, groups: seq<Group>, i: nat, k: nat) returns (r: nat)
    requires DistinctKeys(t) && LanesComplete(t, lanes) && IsIndex(lanes, groups)
    requires i < |t.links| && k < |groups| && groups[k].key == LinkKey(t.links[i])
    ensures FirstRow(t, i, r)
  {
    hide LanesComplete, IsIndex, Exists, DistinctKeys, FirstRow;
    GroupHasLane(t, lanes, groups, k, i);
    var rx: nat, tx: nat :| Exists(t, i, rx, tx);
    r := HasFirstRow(t, i, rx, tx);
  }

  /** The groups are in link order exactly when no link's first row sorts
      strictly before an earlier link's. */
  lemma {:induction false} InLinkOrderIff(t: Topology, lanes: seq<Lane>, groups: seq<Group>)
    requires DistinctKeys(t) && LanesComplete(t, lanes) && IsIndex(lanes, groups) && ByFirstLane(lanes, groups)
    ensures InLinkOrder(t, groups) <==> RowsFollowLinks(t)
  {
    hide DistinctKeys, LanesComplete, IsIndex, FirstRow, SortsBefore, LinkKey, FirstOf;
    if InLinkOrder(t, groups) {
      forall i: nat, k: nat, r: nat, s: nat | i < k < |t.links| && FirstRow(t, i, r) && FirstRow(t, k, s)
        ensures !SortsBefore(t, k, s, i, r)
      {
        var a := GroupOfRow(t, lanes, groups, i, r);
        var b := GroupOfRow(t, lanes, groups, k, s);
        FirstLaneOrder(t, lanes, i, k, r, s);
        assert IsGroupOf(t, groups, a, i) && IsGroupOf(t, groups, b, k);
        assert a < b ==> FirstOf(lanes, groups[a].key) < FirstOf(lanes, groups[b].key);
      }
    }
    if RowsFollowLinks(t) {
      forall k: nat, m: nat, i: nat, j: nat | k < m < |groups| && IsGroupOf(t, groups, k, i) && IsGroupOf(t, groups, m, j)
        ensures i < j
      {
        var r := RowOfGroup(t, lanes, groups, i, k);
        var s := RowOfGroup(t, lanes, groups, j, m);
        assert FirstOf(lanes, groups[k].key) < FirstOf(lanes, groups[m].key);
        if j < i {
          FirstLaneOrder(t, lanes, j, i, s, r);
        }
      }
    }
  }

  // ------------------------------------------------------------------------
  // An example
  // ------------------------------------------------------------------------

  /** Two links, the first towards node "b" and the second towards node "a". */
  function Crossed(): Topology
  {
    Topology([Node("b", ["t"], ["r"]), Node("a", ["t"], ["r"])],
             [Link("b", "b", "m", ""), Link("b", "a", "m", "")], map[])
  }

  lemma {:induction false} CrossedFacts()
    ensures DistinctKeys(Crossed()) && Expandable(Crossed(), 0) && Expandable(Crossed(), 1)
    ensures Exists(Crossed(), 0, 0, 0) && Exists(Crossed(), 1, 0, 0)
    ensures LaneOf(Crossed(), 0, 0, 0).dstNode == "b" && LaneOf(Crossed(), 1, 0, 0).dstNode == "a"
  {
    var t := Crossed();
    assert FindNode(t.nodes, "b") == 0;
    assert t.nodes[1..][0].id == "a" && FindNode(t.nodes[1..], "a") == 0;
    assert FindNode(t.nodes, "a") == 1;
    assert LinkKey(t.links[0])[2] == 'b' && LinkKey(t.links[1])[2] == 'a';
  }

  lemma {:induction false} CrossedLane(l: Lane)
    requires LaneOk(Crossed(), l)
    ensures l.key == LinkKey(Crossed().links[if l.link == 0 then 0 else 1])
    ensures l.dstNode == if l.link == 0 then "b" else "a"
  {
    CrossedFacts();
    hide FindNode, LinkKey, Live;
  }

  lemma {:induction false} FirstGroup(lanes: seq<Lane>, groups: seq<Group>)
    requires IsIndex(lanes, groups) && ByFirstLane(lanes, groups) && lanes != []
    ensures groups != [] && groups[0].key == lanes[0].key
  {
    hide GroupOk;
    var groupOf :| Indexed(lanes, groups, groupOf, |lanes|);
    assert PointsBack(lanes, groups, groupOf, 0);
    assert FirstOf(lanes, lanes[0].key) == 0;
  }

  /** ResolvedTopology's comment says link order: here the second link's group
      is first. */
  lemma {:induction false} GroupsNotInLinkOrder(lanes: seq<Lane>, groups: seq<Group>)
    requires LanesComplete(Crossed(), lanes) && IsIndex(lanes, groups)
    requires ByFirstLane(lanes, groups)
    ensures groups != [] && groups[0].key == LinkKey(Crossed().links[1]) != LinkKey(Crossed().links[0])
    ensures exists k: nat :: 0 < k < |groups| && groups[k].key == LinkKey(Crossed().links[0])
  {
    CrossedKeys();
    LaneHasGroup(Crossed(), lanes, groups, 0, 0, 0);
    var q := CrossedSecond(lanes);
    hide IsIndex, LanesComplete, Crossed, LinkKey, ByFirstLane;
    FirstGroup(lanes, groups);
    CrossedFirst(lanes, q);
  }

  lemma {:induction false} CrossedKeys()
    ensures LinkKey(Crossed().links[0]) != LinkKey(Crossed().links[1]) && Exists(Crossed(), 0, 0, 0)
  {
    CrossedFacts();
  }

  lemma {:induction false} CrossedSecond(lanes: seq<Lane>) returns (q: nat)
    requires LanesComplete(Crossed(), lanes)
    ensures q < |lanes| && lanes[q].dstNode == "a"
  {
    CrossedFacts();
    hide FindNode, LinkKey, Live, FinalBefore, LaneOk;
    q :| 0 <= q < |lanes| && lanes[q] == LaneOf(Crossed(), 1, 0, 0);
  }

  lemma {:induction false} CrossedFirst(lanes: seq<Lane>, q: nat)
    requires LanesComplete(Crossed(), lanes) && q < |lanes| && lanes[q].dstNode == "a"
    ensures lanes[0].key == LinkKey(Crossed().links[1])
  {
    hide Exists, Crossed, LinkKey, LaneOk;
    assert LaneOk(Crossed(), lanes[0]);
    CrossedLane(lanes[0]);
    if lanes[0].link == 0 {
      assert FinalBefore(lanes[0], lanes[q]);
      assert !StringLess("b", "a");
    }
  }
}
