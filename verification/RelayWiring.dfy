/** The wake lists Broker::run builds from the links before the workers start
    (src/broker.cpp): who to wake after a push, and after a cursor advance. */
module RelayWiring {
  import opened Relay

  /** A link's ends: the source port and the destination node. */
  datatype Ends = Ends(src: nat, node: nat)

  ghost predicate NoDuplicates(s: seq<nat>)
  {
    forall i: nat, k: nat :: i < k < |s| ==> s[i] != s[k]
  }

  ghost predicate Linked(links: seq<Ends>, src: nat, node: nat)
  {
    Ends(src, node) in links
  }

  /** Entry x of the lists holds exactly the other ends of x's links, each once. */
  ghost predicate ConsumersOk(links: seq<Ends>, lists: seq<seq<nat>>, p: nat)
    requires p < |lists|
  {
    NoDuplicates(lists[p]) && forall n: nat :: n in lists[p] <==> Linked(links, p, n)
  }

  ghost predicate SourcesOk(links: seq<Ends>, lists: seq<seq<nat>>, n: nat)
    requires n < |lists|
  {
    NoDuplicates(lists[n]) && forall p: nat :: p in lists[n] <==> Linked(links, p, n)
  }

  /** std::find and push_back: appended unless already there. */
  function Noted(s: seq<nat>, x: nat): seq<nat> { if x in s then s else s + [x] }

  method BuildWakeLists(links: seq<Ends>, ports: nat, nodes: nat)
    returns (consumers: seq<seq<nat>>, sources: seq<seq<nat>>)
    requires forall i: nat :: i < |links| ==> links[i].src < ports && links[i].node < nodes
    ensures |consumers| == ports && |sources| == nodes
    ensures forall p: nat :: p < ports ==> ConsumersOk(links, consumers, p)
    ensures forall n: nat :: n < nodes ==> SourcesOk(links, sources, n)
  {
    consumers, sources := seq(ports, (_: nat) => []), seq(nodes, (_: nat) => []);
    for i := 0 to |links|
      invariant |consumers| == ports && |sources| == nodes
      invariant forall p: nat :: p < ports ==> ConsumersOk(links[..i], consumers, p)
      invariant forall n: nat :: n < nodes ==> SourcesOk(links[..i], sources, n)
    {
      var link := links[i];
      ghost var grown := links[..i + 1];
      assert forall src: nat, node: nat ::
          Linked(grown, src, node) <==> Linked(links[..i], src, node) || link == Ends(src, node) by {
        assert grown == links[..i] + [link];
      }
      assert ConsumersOk(links[..i], consumers, link.src) && SourcesOk(links[..i], sources, link.node);
      ghost var before, earlier := consumers, sources;
      consumers := consumers[link.src := Noted(consumers[link.src], link.node)];
      sources := sources[link.node := Noted(sources[link.node], link.src)];
      forall p: nat | p < ports
        ensures ConsumersOk(grown, consumers, p)
      {
        assert ConsumersOk(links[..i], before, p);
      }
      forall n: nat | n < nodes
        ensures SourcesOk(grown, sources, n)
      {
        assert SourcesOk(links[..i], earlier, n);
      }
    }
    assert links[..|links|] == links;
  }

  /** The ends of the links of a topology. */
  ghost predicate EndsOf(t: Topology, links: seq<Ends>)
  {
    |links| == |t.links| &&
    forall i: nat :: i < |links| ==>
      t.links[i].node < |t.nodes| && t.links[i].lane < |t.nodes[t.links[i].node].lanes| &&
      links[i] == Ends(t.nodes[t.links[i].node].lanes[t.links[i].lane].src, t.links[i].node)
  }

  /** The lists are what the relay's topology calls wired: port p wakes node n, and
      node n wakes port p, exactly when some lane of n reads p. */
  lemma {:induction false} ListsAreWiring(t: Topology, links: seq<Ends>, consumers: seq<seq<nat>>, sources: seq<seq<nat>>, p: nat, n: nat)
    requires EndsOf(t, links) && |consumers| == |t.ports| && |sources| == |t.nodes| && p < |t.ports| && n < |t.nodes|
    requires forall m, j :: 0 <= m < |t.nodes| && 0 <= j < |t.nodes[m].lanes| ==> LinkRef(m, j) in t.links
    requires ConsumersOk(links, consumers, p) && SourcesOk(links, sources, n)
    ensures n in consumers[p] <==> Feeds(t, p, n)
    ensures p in sources[n] <==> Feeds(t, p, n)
  {
    assert Linked(links, p, n) <==> Feeds(t, p, n) by {
      if Linked(links, p, n) {
        var i :| 0 <= i < |links| && links[i] == Ends(p, n);
        assert t.nodes[n].lanes[t.links[i].lane].src == p;
      }
      if Feeds(t, p, n) {
        var j :| 0 <= j < |t.nodes[n].lanes| && t.nodes[n].lanes[j].src == p;
        var i :| 0 <= i < |t.links| && t.links[i] == LinkRef(n, j);
        assert links[i] == Ends(p, n);
      }
    }
  }
}
