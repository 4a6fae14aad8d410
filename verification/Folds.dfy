/** The load-time folds of src/config.cpp: leading delays and transmit scales
    moved into clones of the link's model, one clone per (value, base) pair.
    Numbers are printed by a parameter. */
module Folds {
  import opened Options
  import opened Texts

  /** Level is the gain, the phase and the K-factor; role is the rest. */
  datatype TapSpec = TapSpec(delay: real, level: int, role: int)

  /** A step is a tap layout, a constant gain, or something the folds copy. */
  datatype Step = TdlStep(taps: seq<TapSpec>, fading: int) | GainStep(db: real) | OtherStep(id: int)

  type Chain = seq<Step>

  datatype Device = Device(id: string, txTimingOffset: real, txScaleDb: real)

  datatype RadioNode = RadioNode(id: string, txPorts: seq<string>, rxPorts: seq<string>)

  datatype Link = Link(from: string, model: string, propagationDelay: real)

  datatype Config = Config(devices: seq<Device>, nodes: seq<RadioNode>, links: seq<Link>, models: map<string, Chain>)

  const UNIT := 0
  const NO_FADING := 0
  const MAX_TX_SCALE_DB := 200.0

  // ------------------------------------------------------------------------
  // What is folded
  // ------------------------------------------------------------------------

  datatype Kind = LeadDelay | TxScale

  /** A link's value and the id its clone would be given. */
  datatype Change = Change(value: real, id: string)

  predicate Applies(kind: Kind, value: real)
  {
    value != 0.0 && (kind.TxScale? ==> -MAX_TX_SCALE_DB <= value <= MAX_TX_SCALE_DB)
  }

  function LeadsWithTdl(chain: Chain): bool { chain != [] && chain[0].TdlStep? }

  function Shifted(taps: seq<TapSpec>, delay: real): (r: seq<TapSpec>)
    ensures |r| == |taps|
  {
    seq(|taps|, (k: nat) requires k < |taps| => taps[k].(delay := taps[k].delay + delay))
  }

  /** The clone's chain: a leading tdl is shifted, else one is put in front; the
      scale step goes behind a leading tdl. */
  function Clone(kind: Kind, value: real, chain: Chain): Chain
  {
    match kind
    case LeadDelay =>
      if LeadsWithTdl(chain) then [chain[0].(taps := Shifted(chain[0].taps, value))] + chain[1..]
      else [TdlStep([TapSpec(value, UNIT, UNIT)], NO_FADING)] + chain
    case TxScale =>
      if LeadsWithTdl(chain) then [chain[0], GainStep(value)] + chain[1..] else [GainStep(value)] + chain
  }

  function FindDevice(devices: seq<Device>, id: string): int
  {
    if devices == [] then -1
    else if devices[0].id == id then 0
    else var n := FindDevice(devices[1..], id); if n < 0 then -1 else n + 1
  }

  function FindRadioNode(nodes: seq<RadioNode>, id: string): int
  {
    if nodes == [] then -1
    else if nodes[0].id == id then 0
    else var n := FindRadioNode(nodes[1..], id); if n < 0 then -1 else n + 1
  }

  /** Any port of the source node stands for it; without a node, the device. */
  function SourceDevice(c: Config, from: string): string
  {
    var n := FindRadioNode(c.nodes, from);
    if 0 <= n < |c.nodes| && c.nodes[n].txPorts != [] then c.nodes[n].txPorts[0]
    else if 0 <= n < |c.nodes| && c.nodes[n].rxPorts != [] then c.nodes[n].rxPorts[0]
    else from
  }

  function TxTimingOffset(c: Config, from: string): real
  {
    var d := FindDevice(c.devices, SourceDevice(c, from));
    if 0 <= d < |c.devices| then c.devices[d].txTimingOffset else 0.0
  }

  function TxScaleDb(c: Config, from: string): real
  {
    var d := FindDevice(c.devices, SourceDevice(c, from));
    if 0 <= d < |c.devices| then c.devices[d].txScaleDb else 0.0
  }

  /** Device n is the first of its name. */
  ghost predicate IsDevice(c: Config, n: nat, id: string)
  {
    n < |c.devices| && c.devices[n].id == id && forall m: nat :: m < n ==> c.devices[m].id != id
  }

  /** Node n is the first of its name. */
  ghost predicate IsNode(c: Config, n: nat, id: string)
  {
    n < |c.nodes| && c.nodes[n].id == id && forall m: nat :: m < n ==> c.nodes[m].id != id
  }

  ghost predicate IsPort(node: RadioNode, id: string) { id in node.txPorts || id in node.rxPorts }

  lemma {:induction false} DeviceFound(devices: seq<Device>, id: string, n: nat)
    requires n < |devices| && devices[n].id == id && forall m: nat :: m < n ==> devices[m].id != id
    ensures FindDevice(devices, id) == n
  {
    if devices[0].id != id {
      assert forall m: nat :: m < n - 1 ==> devices[1..][m] == devices[m + 1];
      DeviceFound(devices[1..], id, n - 1);
    }
  }

  lemma {:induction false} NodeFound(nodes: seq<RadioNode>, id: string, n: nat)
    requires n < |nodes| && nodes[n].id == id && forall m: nat :: m < n ==> nodes[m].id != id
    ensures FindRadioNode(nodes, id) == n
  {
    if nodes[0].id != id {
      assert forall m: nat :: m < n - 1 ==> nodes[1..][m] == nodes[m + 1];
      NodeFound(nodes[1..], id, n - 1);
    }
  }

  lemma {:induction false} NoNodeFound(nodes: seq<RadioNode>, id: string)
    requires forall m: nat :: m < |nodes| ==> nodes[m].id != id
    ensures FindRadioNode(nodes, id) == -1
  {
    if nodes != [] {
      assert forall m: nat :: m < |nodes| - 1 ==> nodes[1..][m] == nodes[m + 1];
      NoNodeFound(nodes[1..], id);
    }
  }

  /** A link from a node carries the offset and scale of the node's ports, which
      the validator makes agree: those of every port that is a device. */
  lemma {:induction false} NodeCarriesItsPorts(c: Config, from: string, n: nat, offset: real, db: real)
    requires IsNode(c, n, from) && (c.nodes[n].txPorts != [] || c.nodes[n].rxPorts != [])
    requires forall id: string :: IsPort(c.nodes[n], id) ==>
               exists d: nat :: IsDevice(c, d, id) && c.devices[d].txTimingOffset == offset && c.devices[d].txScaleDb == db
    ensures TxTimingOffset(c, from) == offset && TxScaleDb(c, from) == db
  {
    NodeFound(c.nodes, from, n);
    var id := SourceDevice(c, from);
    assert IsPort(c.nodes[n], id);
    var d: nat :| IsDevice(c, d, id) && c.devices[d].txTimingOffset == offset && c.devices[d].txScaleDb == db;
    DeviceFound(c.devices, id, d);
  }

  /** A link from a device that is no node carries that device's. */
  lemma {:induction false} DeviceCarriesItself(c: Config, from: string, d: nat)
    requires IsDevice(c, d, from) && forall m: nat :: m < |c.nodes| ==> c.nodes[m].id != from
    ensures TxTimingOffset(c, from) == c.devices[d].txTimingOffset && TxScaleDb(c, from) == c.devices[d].txScaleDb
  {
    NoNodeFound(c.nodes, from);
    DeviceFound(c.devices, from, d);
  }

  function ChangeOf(kind: Kind, c: Config, link: Link, format: real -> string): Change
  {
    match kind
    case LeadDelay =>
      var offset, propagation := TxTimingOffset(c, link.from), link.propagationDelay;
      Change(offset + propagation,
             "__ocg_lead_delay__" + link.model +
             (if offset != 0.0 && propagation != 0.0 then "__txoff_" + format(offset) + "__prop_" + format(propagation)
              else if offset != 0.0 then "__txoff_" + format(offset)
              else "__prop_" + format(propagation)))
    case TxScale =>
      var db := TxScaleDb(c, link.from);
      Change(db, "__ocg_tx_scale__" + link.model + "__db_" + format(db))
  }

  function Changes(kind: Kind, c: Config, format: real -> string): (r: seq<Change>)
    ensures |r| == |c.links|
  {
    seq(|c.links|, (i: nat) requires i < |c.links| => ChangeOf(kind, c, c.links[i], format))
  }

  // ------------------------------------------------------------------------
  // The loop
  // ------------------------------------------------------------------------

  datatype State = State(links: seq<Link>, models: map<string, Chain>, cache: map<(real, string), string>)

  /** One link of the loop. */
  function FoldLink(kind: Kind, s: State, link: Link, change: Change): State
  {
    var key := (change.value, link.model);
    if !Applies(kind, change.value) then s.(links := s.links + [link])
    else if key in s.cache then s.(links := s.links + [link.(model := s.cache[key])])
    else if link.model !in s.models then s.(links := s.links + [link])
    else
      State(s.links + [link.(model := change.id)],
            if change.id in s.models then s.models
            else s.models[change.id := Clone(kind, change.value, s.models[link.model])],
            s.cache[key := change.id])
  }

  /** After the first n links. */
  function After(kind: Kind, c: Config, changes: seq<Change>, n: nat): State
    requires n <= |c.links| == |changes|
  {
    if n == 0 then State([], c.models, map[])
    else FoldLink(kind, After(kind, c, changes, n - 1), c.links[n - 1], changes[n - 1])
  }

  function Fold(kind: Kind, c: Config, format: real -> string): Config
  {
    var s := After(kind, c, Changes(kind, c, format), |c.links|);
    c.(links := s.links, models := s.models)
  }

  /** fold_link_leading_delays and fold_device_tx_scales: the two loops differ in
      the value, the id and the clone only. */
  method FoldLinks(kind: Kind, config: Config, format: real -> string) returns (r: Config)
    ensures r == Fold(kind, config, format)
  {
    hide Clone, ChangeOf, Applies;
    var links, models := config.links, config.models;
    var synthesized: map<(real, string), string> := map[];
    ghost var changes := Changes(kind, config, format);
    for i := 0 to |links|
      invariant |links| == |config.links|
      invariant After(kind, config, changes, i) == State(links[..i], models, synthesized)
      invariant forall k: nat :: i <= k < |links| ==> links[k] == config.links[k]
    {
      var link := links[i];
      var change := ChangeOf(kind, config, link, format);
      var key := (change.value, link.model);
      var model := link.model;
      if Applies(kind, change.value) {
        if key in synthesized {
          model := synthesized[key];
        } else if link.model in models {
          if change.id !in models {
            models := models[change.id := Clone(kind, change.value, models[link.model])];
          }
          synthesized := synthesized[key := change.id];
          model := change.id;
        }
      }
      ghost var before := links;
      links := links[i := link.(model := model)];
      assert links[..i + 1] == before[..i] + [link.(model := model)];
    }
    assert links[..|config.links|] == links;
    r := config.(links := links, models := models);
  }

  // ------------------------------------------------------------------------
  // Who names a clone and who fills it
  // ------------------------------------------------------------------------

  /** Link i is given a clone. */
  predicate Folded(kind: Kind, c: Config, changes: seq<Change>, i: nat)
  {
    i < |c.links| && i < |changes| && Applies(kind, changes[i].value) && c.links[i].model in c.models
  }

  predicate SameKey(c: Config, changes: seq<Change>, i: nat, k: nat)
    requires i < |c.links| && i < |changes| && k < |c.links| && k < |changes|
  {
    changes[i].value == changes[k].value && c.links[i].model == c.links[k].model
  }

  /** Link i is the first of its (value, base) pair: its id names the clone. */
  ghost predicate Namer(kind: Kind, c: Config, changes: seq<Change>, i: nat)
  {
    Folded(kind, c, changes, i) &&
    forall k: nat :: k < i && Folded(kind, c, changes, k) ==> !SameKey(c, changes, k, i)
  }

  ghost function NamerFrom(kind: Kind, c: Config, changes: seq<Change>, i: nat, k: nat): (r: nat)
    requires Folded(kind, c, changes, i) && k <= i
    requires forall j: nat :: j < k && Folded(kind, c, changes, j) ==> !SameKey(c, changes, j, i)
    ensures r <= i && Namer(kind, c, changes, r) && SameKey(c, changes, r, i)
    decreases i - k
  {
    if Folded(kind, c, changes, k) && SameKey(c, changes, k, i) then
      assert forall j: nat :: j < k && Folded(kind, c, changes, j) && SameKey(c, changes, j, k) ==> SameKey(c, changes, j, i);
      k
    else NamerFrom(kind, c, changes, i, k + 1)
  }

  ghost function NamerOf(kind: Kind, c: Config, changes: seq<Change>, i: nat): (r: nat)
    requires Folded(kind, c, changes, i)
    ensures r <= i && Namer(kind, c, changes, r) && SameKey(c, changes, r, i)
  {
    NamerFrom(kind, c, changes, i, 0)
  }

  ghost function OwnerFrom(kind: Kind, c: Config, changes: seq<Change>, i: nat, k: nat): (r: nat)
    requires Namer(kind, c, changes, i) && k <= i
    ensures k <= r <= i && Namer(kind, c, changes, r) && changes[r].id == changes[i].id
    ensures forall j: nat :: k <= j < r && Namer(kind, c, changes, j) ==> changes[j].id != changes[i].id
    decreases i - k
  {
    if Namer(kind, c, changes, k) && changes[k].id == changes[i].id then k else OwnerFrom(kind, c, changes, i, k + 1)
  }

  /** The first namer that uses the id: its clone is the one the map keeps. */
  ghost function OwnerOf(kind: Kind, c: Config, changes: seq<Change>, i: nat): (r: nat)
    requires Namer(kind, c, changes, i)
    ensures r <= i && Namer(kind, c, changes, r) && changes[r].id == changes[i].id
  {
    OwnerFrom(kind, c, changes, i, 0)
  }

  /** The clone link i should get. */
  ghost function OwnClone(kind: Kind, c: Config, changes: seq<Change>, i: nat): Chain
    requires Folded(kind, c, changes, i)
  {
    Clone(kind, changes[i].value, c.models[c.links[i].model])
  }

  /** The generated ids are not used by the author. */
  ghost predicate Fresh(c: Config, changes: seq<Change>)
  {
    forall i: nat, k: nat :: i < |changes| && k < |c.links| ==>
      changes[i].id !in c.models && changes[i].id != c.links[k].model
  }

  ghost predicate Inv(kind: Kind, c: Config, changes: seq<Change>, s: State, n: nat)
    requires n <= |c.links| == |changes|
  {
    |s.links| == n &&
    (forall i: nat :: i < n ==> LinkOk(kind, c, changes, s.links[i], i)) &&
    (forall i: nat :: i < n && Folded(kind, c, changes, i) ==> CacheOk(kind, c, changes, s.cache, i)) &&
    (forall key :: key in s.cache ==> FromSome(kind, c, changes, key, n)) &&
    (forall id :: id in c.models ==> id in s.models && s.models[id] == c.models[id]) &&
    (forall id :: id in s.models ==> id in c.models || NamedBefore(kind, c, changes, id, n)) &&
    (forall j: nat :: j < n && Namer(kind, c, changes, j) ==> ModelOk(kind, c, changes, s.models, j))
  }

  ghost predicate LinkOk(kind: Kind, c: Config, changes: seq<Change>, link: Link, i: nat)
    requires i < |c.links| == |changes|
  {
    link == c.links[i].(model := if Folded(kind, c, changes, i) then changes[NamerOf(kind, c, changes, i)].id
                                 else c.links[i].model)
  }

  ghost predicate CacheOk(kind: Kind, c: Config, changes: seq<Change>, cache: map<(real, string), string>, i: nat)
    requires i < |c.links| == |changes| && Folded(kind, c, changes, i)
  {
    var key := (changes[i].value, c.links[i].model);
    key in cache && cache[key] == changes[NamerOf(kind, c, changes, i)].id
  }

  ghost predicate FromSome(kind: Kind, c: Config, changes: seq<Change>, key: (real, string), n: nat)
    requires n <= |c.links| == |changes|
  {
    exists i: nat :: i < n && Folded(kind, c, changes, i) && key == (changes[i].value, c.links[i].model)
  }

  ghost predicate NamedBefore(kind: Kind, c: Config, changes: seq<Change>, id: string, n: nat)
    requires n <= |c.links| == |changes|
  {
    exists j: nat :: j < n && Namer(kind, c, changes, j) && changes[j].id == id
  }

  ghost predicate ModelOk(kind: Kind, c: Config, changes: seq<Change>, models: map<string, Chain>, j: nat)
    requires j < |c.links| == |changes| && Namer(kind, c, changes, j)
  {
    changes[j].id in models &&
    models[changes[j].id] == OwnClone(kind, c, changes, OwnerOf(kind, c, changes, j))
  }

  lemma {:induction false} NamerUnique(kind: Kind, c: Config, changes: seq<Change>, i: nat, k: nat)
    requires |c.links| == |changes| && Namer(kind, c, changes, i) && Namer(kind, c, changes, k) && SameKey(c, changes, i, k)
    ensures i == k
  {
  }

  lemma {:induction false} OwnerEarliest(kind: Kind, c: Config, changes: seq<Change>, i: nat, j: nat)
    requires |c.links| == |changes| && Namer(kind, c, changes, i) && Namer(kind, c, changes, j) && changes[i].id == changes[j].id
    ensures OwnerOf(kind, c, changes, i) <= j
  {
    hide Namer, OwnerFrom;
    var r := OwnerFrom(kind, c, changes, i, 0);
  }

  lemma {:induction false} OwnerUnique(kind: Kind, c: Config, changes: seq<Change>, i: nat, k: nat)
    requires |c.links| == |changes| && Namer(kind, c, changes, i) && Namer(kind, c, changes, k) && changes[i].id == changes[k].id
    ensures OwnerOf(kind, c, changes, i) == OwnerOf(kind, c, changes, k)
  {
    hide Namer;
    OwnerEarliest(kind, c, changes, i, OwnerOf(kind, c, changes, k));
    OwnerEarliest(kind, c, changes, k, OwnerOf(kind, c, changes, i));
  }

  // ------------------------------------------------------------------------
  // Every step keeps the invariant
  // ------------------------------------------------------------------------

  lemma {:induction false} InvEarlier(kind: Kind, c: Config, changes: seq<Change>, s: State, n: nat)
    requires n < |c.links| == |changes| && Inv(kind, c, changes, s, n)
    ensures forall key :: key in s.cache ==> FromSome(kind, c, changes, key, n + 1)
    ensures forall id :: id in s.models ==> id in c.models || NamedBefore(kind, c, changes, id, n + 1)
  {
    forall key | key in s.cache
      ensures FromSome(kind, c, changes, key, n + 1)
    {
      assert FromSome(kind, c, changes, key, n);
    }
    forall id | id in s.models && id !in c.models
      ensures NamedBefore(kind, c, changes, id, n + 1)
    {
      assert NamedBefore(kind, c, changes, id, n);
    }
  }

  /** A link that is left alone, or that finds its pair in the cache. */
  lemma {:induction false} QuietStep(kind: Kind, c: Config, changes: seq<Change>, s: State, n: nat, model: string)
    requires n < |c.links| == |changes| && Inv(kind, c, changes, s, n)
    requires Folded(kind, c, changes, n) ==> CacheOk(kind, c, changes, s.cache, n) && !Namer(kind, c, changes, n)
    requires LinkOk(kind, c, changes, c.links[n].(model := model), n)
    ensures Inv(kind, c, changes, s.(links := s.links + [c.links[n].(model := model)]), n + 1)
  {
    hide LinkOk, CacheOk, FromSome, NamedBefore, ModelOk;
    InvEarlier(kind, c, changes, s, n);
  }

  lemma {:induction false} CacheHit(kind: Kind, c: Config, changes: seq<Change>, s: State, n: nat)
    requires n < |c.links| == |changes| && Inv(kind, c, changes, s, n) && Applies(kind, changes[n].value)
    requires (changes[n].value, c.links[n].model) in s.cache
    ensures Folded(kind, c, changes, n) && CacheOk(kind, c, changes, s.cache, n) && !Namer(kind, c, changes, n)
  {
    hide Namer, LinkOk, NamedBefore, ModelOk;
    var key := (changes[n].value, c.links[n].model);
    assert FromSome(kind, c, changes, key, n);
    var i: nat :| i < n && Folded(kind, c, changes, i) && key == (changes[i].value, c.links[i].model);
    assert CacheOk(kind, c, changes, s.cache, i);
    assert SameKey(c, changes, i, n);
    NotNamer(kind, c, changes, i, n);
    NamerUnique(kind, c, changes, NamerOf(kind, c, changes, i), NamerOf(kind, c, changes, n));
  }

  lemma {:induction false} NotNamer(kind: Kind, c: Config, changes: seq<Change>, i: nat, n: nat)
    requires i < n < |c.links| == |changes| && Folded(kind, c, changes, i) && SameKey(c, changes, i, n)
    ensures !Namer(kind, c, changes, n)
  {
  }

  lemma {:induction false} CacheMiss(kind: Kind, c: Config, changes: seq<Change>, s: State, n: nat)
    requires n < |c.links| == |changes| && Inv(kind, c, changes, s, n) && Folded(kind, c, changes, n)
    requires (changes[n].value, c.links[n].model) !in s.cache
    ensures Namer(kind, c, changes, n) && NamerOf(kind, c, changes, n) == n
  {
    hide LinkOk, NamedBefore, ModelOk;
    forall k: nat | k < n && Folded(kind, c, changes, k)
      ensures !SameKey(c, changes, k, n)
    {
      assert CacheOk(kind, c, changes, s.cache, k);
    }
    NamerUnique(kind, c, changes, NamerOf(kind, c, changes, n), n);
  }

  /** A link that makes a clone, or finds its id already taken. */
  lemma {:induction false} NamerStep(kind: Kind, c: Config, changes: seq<Change>, s: State, n: nat)
    requires n < |c.links| == |changes| && Inv(kind, c, changes, s, n) && Fresh(c, changes)
    requires Namer(kind, c, changes, n) && NamerOf(kind, c, changes, n) == n
    requires (changes[n].value, c.links[n].model) !in s.cache && c.links[n].model in s.models
    ensures Inv(kind, c, changes, FoldLink(kind, s, c.links[n], changes[n]), n + 1)
  {
    hide FoldLink, ModelsAfter, LinkOk, CacheOk, FromSome, NamedBefore, ModelOk, Clone, Fresh, NamerOf;
    NewClone(kind, c, changes, s, n);
    NamerModels(kind, c, changes, s, FoldLink(kind, s, c.links[n], changes[n]).models, n);
    NamerCache(kind, c, changes, s, n);
    NamerLinks(kind, c, changes, s, n);
  }

  lemma {:induction false} NamerLinks(kind: Kind, c: Config, changes: seq<Change>, s: State, n: nat)
    requires n < |c.links| == |changes| && Inv(kind, c, changes, s, n)
    requires Namer(kind, c, changes, n) && NamerOf(kind, c, changes, n) == n
    requires (changes[n].value, c.links[n].model) !in s.cache && c.links[n].model in s.models
    ensures var r := FoldLink(kind, s, c.links[n], changes[n]);
            |r.links| == n + 1 && forall i: nat :: i < n + 1 ==> LinkOk(kind, c, changes, r.links[i], i)
  {
    hide CacheOk, FromSome, NamedBefore, ModelOk, Clone, NamerOf;
    var r := FoldLink(kind, s, c.links[n], changes[n]);
    assert forall i: nat :: i < n ==> LinkOk(kind, c, changes, s.links[i], i) && r.links[i] == s.links[i];
    assert LinkOk(kind, c, changes, r.links[n], n);
  }

  lemma {:induction false} NamerCache(kind: Kind, c: Config, changes: seq<Change>, s: State, n: nat)
    requires n < |c.links| == |changes| && Inv(kind, c, changes, s, n)
    requires Namer(kind, c, changes, n) && NamerOf(kind, c, changes, n) == n
    requires (changes[n].value, c.links[n].model) !in s.cache && c.links[n].model in s.models
    ensures var r := FoldLink(kind, s, c.links[n], changes[n]);
            (forall i: nat :: i < n + 1 && Folded(kind, c, changes, i) ==> CacheOk(kind, c, changes, r.cache, i)) &&
            (forall key :: key in r.cache ==> FromSome(kind, c, changes, key, n + 1))
  {
    assert FoldLink(kind, s, c.links[n], changes[n]).cache == s.cache[(changes[n].value, c.links[n].model) := changes[n].id];
    hide FoldLink, LinkOk, NamedBefore, ModelOk, Clone, NamerOf, CacheOk;
    InvEarlier(kind, c, changes, s, n);
    CacheGrows(kind, c, changes, s.cache, n);
  }

  lemma {:induction false} CacheGrows(kind: Kind, c: Config, changes: seq<Change>, cache: map<(real, string), string>, n: nat)
    requires n < |c.links| == |changes| && Folded(kind, c, changes, n) && NamerOf(kind, c, changes, n) == n
    requires forall i: nat :: i < n && Folded(kind, c, changes, i) ==> CacheOk(kind, c, changes, cache, i)
    requires forall key :: key in cache ==> FromSome(kind, c, changes, key, n + 1)
    requires (changes[n].value, c.links[n].model) !in cache
    ensures var r := cache[(changes[n].value, c.links[n].model) := changes[n].id];
            (forall i: nat :: i < n + 1 && Folded(kind, c, changes, i) ==> CacheOk(kind, c, changes, r, i)) &&
            (forall key :: key in r ==> FromSome(kind, c, changes, key, n + 1))
  {
    hide Folded, NamerOf;
    var key := (changes[n].value, c.links[n].model);
    var r := cache[key := changes[n].id];
    forall i: nat | i < n + 1 && Folded(kind, c, changes, i)
      ensures CacheOk(kind, c, changes, r, i)
    {
      if i < n {
        assert CacheOk(kind, c, changes, cache, i);
      }
    }
    assert FromSome(kind, c, changes, key, n + 1);
  }

  /** The models after link n: its clone under its id, unless the id is taken. */
  ghost predicate ModelsAfter(kind: Kind, c: Config, changes: seq<Change>, s: State, m: map<string, Chain>, n: nat)
    requires n < |c.links| == |changes| && c.links[n].model in s.models
  {
    m == if changes[n].id in s.models then s.models
         else s.models[changes[n].id := Clone(kind, changes[n].value, s.models[c.links[n].model])]
  }

  lemma {:induction false} NewClone(kind: Kind, c: Config, changes: seq<Change>, s: State, n: nat)
    requires n < |c.links| == |changes| && Applies(kind, changes[n].value)
    requires (changes[n].value, c.links[n].model) !in s.cache && c.links[n].model in s.models
    ensures ModelsAfter(kind, c, changes, s, FoldLink(kind, s, c.links[n], changes[n]).models, n)
  {
  }

  lemma {:induction false} NamerModels(kind: Kind, c: Config, changes: seq<Change>, s: State, m: map<string, Chain>, n: nat)
    requires n < |c.links| == |changes| && Inv(kind, c, changes, s, n) && Fresh(c, changes)
    requires Namer(kind, c, changes, n) && c.links[n].model in s.models && ModelsAfter(kind, c, changes, s, m, n)
    ensures forall id :: id in c.models ==> id in m && m[id] == c.models[id]
    ensures forall id :: id in m ==> id in c.models || NamedBefore(kind, c, changes, id, n + 1)
    ensures forall j: nat :: j < n + 1 && Namer(kind, c, changes, j) ==> ModelOk(kind, c, changes, m, j)
  {
    hide LinkOk, CacheOk, FromSome, Clone, ModelOk, Namer, NamedBefore;
    InvEarlier(kind, c, changes, s, n);
    NowNamed(kind, c, changes, n);
    forall j: nat | j < n + 1 && Namer(kind, c, changes, j)
      ensures ModelOk(kind, c, changes, m, j)
    {
      ModelAt(kind, c, changes, s, m, n, j);
    }
  }

  lemma {:induction false} ModelAt(kind: Kind, c: Config, changes: seq<Change>, s: State, m: map<string, Chain>, n: nat, j: nat)
    requires j <= n < |c.links| == |changes| && Inv(kind, c, changes, s, n) && Fresh(c, changes)
    requires Namer(kind, c, changes, n) && Namer(kind, c, changes, j) && c.links[n].model in s.models
    requires ModelsAfter(kind, c, changes, s, m, n)
    ensures ModelOk(kind, c, changes, m, j)
  {
    hide LinkOk, CacheOk, FromSome, Clone, ModelOk, Namer, NamedBefore, Fresh;
    if j < n {
      StillOk(kind, c, changes, s.models, m, j);
    } else if changes[n].id in s.models {
      TakenId(kind, c, changes, s, n);
    } else {
      NewOwner(kind, c, changes, s, n);
      NewModel(kind, c, changes, s, m, n);
    }
  }

  lemma {:induction false} NowNamed(kind: Kind, c: Config, changes: seq<Change>, n: nat)
    requires n < |c.links| == |changes| && Namer(kind, c, changes, n)
    ensures NamedBefore(kind, c, changes, changes[n].id, n + 1)
  {
  }

  /** emplace adds at most one id and changes none. */
  lemma {:induction false} StillOk(kind: Kind, c: Config, changes: seq<Change>, before: map<string, Chain>, after: map<string, Chain>, j: nat)
    requires j < |c.links| == |changes| && Namer(kind, c, changes, j) && ModelOk(kind, c, changes, before, j)
    requires forall id :: id in before ==> id in after && after[id] == before[id]
    ensures ModelOk(kind, c, changes, after, j)
  {
    hide Namer, OwnClone;
  }

  lemma {:induction false} TakenId(kind: Kind, c: Config, changes: seq<Change>, s: State, n: nat)
    requires n < |c.links| == |changes| && Inv(kind, c, changes, s, n) && Fresh(c, changes)
    requires Namer(kind, c, changes, n) && changes[n].id in s.models
    ensures ModelOk(kind, c, changes, s.models, n)
  {
    hide LinkOk, CacheOk, FromSome, OwnClone;
    assert NamedBefore(kind, c, changes, changes[n].id, n);
    var o: nat :| o < n && Namer(kind, c, changes, o) && changes[o].id == changes[n].id;
    assert ModelOk(kind, c, changes, s.models, o);
    OwnerUnique(kind, c, changes, o, n);
  }

  lemma {:induction false} NewModel(kind: Kind, c: Config, changes: seq<Change>, s: State, m: map<string, Chain>, n: nat)
    requires n < |c.links| == |changes| && Inv(kind, c, changes, s, n)
    requires Namer(kind, c, changes, n) && OwnerOf(kind, c, changes, n) == n && c.links[n].model in s.models
    requires m == s.models[changes[n].id := Clone(kind, changes[n].value, s.models[c.links[n].model])]
    ensures ModelOk(kind, c, changes, m, n)
  {
    hide LinkOk, CacheOk, FromSome, NamedBefore, Clone;
  }

  /** An id nobody used before is owned by the link that brings it. */
  lemma {:induction false} NewOwner(kind: Kind, c: Config, changes: seq<Change>, s: State, n: nat)
    requires n < |c.links| == |changes| && Inv(kind, c, changes, s, n)
    requires Namer(kind, c, changes, n) && changes[n].id !in s.models
    ensures OwnerOf(kind, c, changes, n) == n
  {
    hide LinkOk, CacheOk, FromSome, NamedBefore, Namer;
    var o := OwnerOf(kind, c, changes, n);
    assert o < n ==> ModelOk(kind, c, changes, s.models, o);
  }

  lemma {:induction false} StepKeeps(kind: Kind, c: Config, changes: seq<Change>, s: State, n: nat)
    requires n < |c.links| == |changes| && Inv(kind, c, changes, s, n) && Fresh(c, changes)
    ensures Inv(kind, c, changes, FoldLink(kind, s, c.links[n], changes[n]), n + 1)
  {
    hide Inv, Namer, CacheOk, Clone;
    var link, change := c.links[n], changes[n];
    var key := (change.value, link.model);
    if !Applies(kind, change.value) {
      QuietStep(kind, c, changes, s, n, link.model);
    } else if key in s.cache {
      CacheHit(kind, c, changes, s, n);
      HitModel(kind, c, changes, s, n);
      QuietStep(kind, c, changes, s, n, s.cache[key]);
    } else if link.model !in s.models {
      BaseUnknown(kind, c, changes, s, n);
      QuietStep(kind, c, changes, s, n, link.model);
    } else {
      BaseUnknown(kind, c, changes, s, n);
      CacheMiss(kind, c, changes, s, n);
      NamerStep(kind, c, changes, s, n);
    }
  }

  lemma {:induction false} HitModel(kind: Kind, c: Config, changes: seq<Change>, s: State, n: nat)
    requires n < |c.links| == |changes| && Folded(kind, c, changes, n) && CacheOk(kind, c, changes, s.cache, n)
    ensures (changes[n].value, c.links[n].model) in s.cache
    ensures LinkOk(kind, c, changes, c.links[n].(model := s.cache[(changes[n].value, c.links[n].model)]), n)
  {
  }

  /** A link's model is known now exactly when the author declared it. */
  lemma {:induction false} BaseUnknown(kind: Kind, c: Config, changes: seq<Change>, s: State, n: nat)
    requires n < |c.links| == |changes| && Inv(kind, c, changes, s, n) && Fresh(c, changes)
    ensures c.links[n].model in s.models <==> c.links[n].model in c.models
  {
    hide LinkOk, CacheOk, FromSome, ModelOk, Namer;
    var id := c.links[n].model;
    assert id in s.models && id !in c.models ==> NamedBefore(kind, c, changes, id, n);
  }

  lemma {:induction false} NothingFolded(kind: Kind, c: Config, changes: seq<Change>)
    requires |c.links| == |changes|
    ensures Inv(kind, c, changes, State([], c.models, map[]), 0)
  {
  }

  lemma {:induction false} AfterInv(kind: Kind, c: Config, changes: seq<Change>, n: nat)
    requires n <= |c.links| == |changes| && Fresh(c, changes)
    ensures Inv(kind, c, changes, After(kind, c, changes, n), n)
  {
    hide FoldLink, Fresh, Inv, Applies, Clone;
    if n == 0 {
      NothingFolded(kind, c, changes);
    } else {
      AfterInv(kind, c, changes, n - 1);
      var s := After(kind, c, changes, n - 1);
      StepKeeps(kind, c, changes, s, n - 1);
      assert After(kind, c, changes, n) == FoldLink(kind, s, c.links[n - 1], changes[n - 1]);
    }
  }

  // ------------------------------------------------------------------------
  // What a fold gives each link
  // ------------------------------------------------------------------------

  /** Different clones have different printed ids. */
  ghost predicate Printable(kind: Kind, c: Config, changes: seq<Change>)
  {
    forall i: nat, k: nat :: Namer(kind, c, changes, i) && Namer(kind, c, changes, k) && changes[i].id == changes[k].id ==>
      OwnClone(kind, c, changes, i) == OwnClone(kind, c, changes, k)
  }

  /** The model link i ends up with is its own clone, or its declared model. */
  ghost predicate ServedRight(kind: Kind, c: Config, changes: seq<Change>, r: Config, i: nat)
    requires i < |c.links| == |changes| == |r.links|
  {
    if Folded(kind, c, changes, i) then
      r.links[i].model in r.models && r.models[r.links[i].model] == OwnClone(kind, c, changes, i)
    else r.links[i] == c.links[i]
  }

  lemma {:induction false} FoldedLink(kind: Kind, c: Config, format: real -> string, i: nat)
    requires i < |c.links| && Fresh(c, Changes(kind, c, format))
    ensures |Fold(kind, c, format).links| == |c.links|
    ensures var changes, r := Changes(kind, c, format), Fold(kind, c, format);
            if Folded(kind, c, changes, i) then
              var j := NamerOf(kind, c, changes, i);
              r.links[i].model == changes[j].id && changes[j].id in r.models &&
              r.models[changes[j].id] == OwnClone(kind, c, changes, OwnerOf(kind, c, changes, j)) &&
              OwnClone(kind, c, changes, j) == OwnClone(kind, c, changes, i)
            else r.links[i] == c.links[i]
  {
    hide Changes, After, Namer, CacheOk, FromSome, NamedBefore, Clone, Fresh;
    var changes := Changes(kind, c, format);
    AfterInv(kind, c, changes, |c.links|);
    var s := After(kind, c, changes, |c.links|);
    assert LinkOk(kind, c, changes, s.links[i], i);
    if Folded(kind, c, changes, i) {
      assert ModelOk(kind, c, changes, s.models, NamerOf(kind, c, changes, i));
    }
  }

  /** Every link is served right exactly when no printed id stands for two
      different clones: `models.emplace` keeps the first. */
  lemma {:induction false} ServedRightIffPrintable(kind: Kind, c: Config, format: real -> string)
    requires Fresh(c, Changes(kind, c, format))
    ensures |Fold(kind, c, format).links| == |c.links|
    ensures (forall i: nat :: i < |c.links| ==> ServedRight(kind, c, Changes(kind, c, format), Fold(kind, c, format), i)) <==>
            Printable(kind, c, Changes(kind, c, format))
  {
    hide Changes, Fold, OwnClone, Fresh, SameKey;
    var changes, r := Changes(kind, c, format), Fold(kind, c, format);
    forall i: nat | i < |c.links|
      ensures |r.links| == |c.links|
      ensures Printable(kind, c, changes) ==> ServedRight(kind, c, changes, r, i)
    {
      FoldedLink(kind, c, format, i);
    }
    FoldLength(kind, c, format);
    if forall i: nat :: i < |c.links| ==> ServedRight(kind, c, changes, r, i) {
      forall i: nat, k: nat | Namer(kind, c, changes, i) && Namer(kind, c, changes, k) && changes[i].id == changes[k].id
        ensures OwnClone(kind, c, changes, i) == OwnClone(kind, c, changes, k)
      {
        NamerServed(kind, c, format, i);
        NamerServed(kind, c, format, k);
        OwnerUnique(kind, c, changes, i, k);
        assert ServedRight(kind, c, changes, r, i) && ServedRight(kind, c, changes, r, k);
      }
    }
  }

  // ------------------------------------------------------------------------
  // Printing that keeps numbers apart
  // ------------------------------------------------------------------------

  /** Different numbers print differently, without an underscore. */
  ghost predicate Apart(format: real -> string)
  {
    (forall x: real, y: real :: format(x) == format(y) ==> x == y) && forall x: real :: '_' !in format(x)
  }

  ghost predicate PlainNames(c: Config) { forall i: nat :: i < |c.links| ==> '_' !in c.links[i].model }

  function DelayTailOf(offset: real, propagation: real, format: real -> string): string
  {
    if offset != 0.0 && propagation != 0.0 then "_txoff_" + format(offset) + "__prop_" + format(propagation)
    else if offset != 0.0 then "_txoff_" + format(offset)
    else "_prop_" + format(propagation)
  }

  /** What follows the model's name in an id, less its first underscore. */
  function IdTail(kind: Kind, c: Config, link: Link, format: real -> string): string
  {
    match kind
    case LeadDelay => DelayTailOf(TxTimingOffset(c, link.from), link.propagationDelay, format)
    case TxScale => "_db_" + format(TxScaleDb(c, link.from))
  }

  lemma {:induction false} IdParts(kind: Kind, c: Config, link: Link, format: real -> string)
    ensures ChangeOf(kind, c, link, format).id ==
            (if kind.LeadDelay? then "__ocg_lead_delay__" else "__ocg_tx_scale__") + (link.model + ['_'] + IdTail(kind, c, link, format))
  {
    hide TxTimingOffset, TxScaleDb;
    var head := if kind.LeadDelay? then "__ocg_lead_delay__" else "__ocg_tx_scale__";
    var id, tail := ChangeOf(kind, c, link, format).id, IdTail(kind, c, link, format);
    if kind.LeadDelay? && TxTimingOffset(c, link.from) != 0.0 && link.propagationDelay != 0.0 {
      var o, p := format(TxTimingOffset(c, link.from)), format(link.propagationDelay);
      assert "__txoff_" + o + "__prop_" + p == ['_'] + tail;
      assert id == head + link.model + ("__txoff_" + o + "__prop_" + p);
    } else if kind.LeadDelay? && TxTimingOffset(c, link.from) != 0.0 {
      assert "__txoff_" + format(TxTimingOffset(c, link.from)) == ['_'] + tail;
    } else if kind.LeadDelay? {
      assert "__prop_" + format(link.propagationDelay) == ['_'] + tail;
    } else {
      assert "__db_" + format(TxScaleDb(c, link.from)) == ['_'] + tail;
    }
  }

  lemma {:induction false} TailTellsValue(kind: Kind, c: Config, a: Link, b: Link, format: real -> string)
    requires Apart(format) && IdTail(kind, c, a, format) == IdTail(kind, c, b, format)
    ensures ChangeOf(kind, c, a, format).value == ChangeOf(kind, c, b, format).value
  {
    hide SourceDevice, FindDevice;
    if kind.TxScale? {
      SameAfter("_db_", format(TxScaleDb(c, a.from)), format(TxScaleDb(c, b.from)));
    } else {
      DelayTail(TxTimingOffset(c, a.from), a.propagationDelay, TxTimingOffset(c, b.from), b.propagationDelay, format);
    }
  }

  /** What follows the offset's number. */
  function Behind(propagation: real, format: real -> string): string
  {
    Optional(if propagation != 0.0 then Some("_prop_" + format(propagation)) else None, '_')
  }

  lemma {:induction false} OffsetTail(o: real, p: real, format: real -> string)
    requires o != 0.0
    ensures DelayTailOf(o, p, format) == "_txoff_" + (format(o) + Behind(p, format))
  {
    assert "__prop_" + format(p) == ['_'] + ("_prop_" + format(p));
    assert p == 0.0 ==> format(o) + "" == format(o);
  }

  lemma {:induction false} DelayTail(o: real, p: real, o': real, p': real, format: real -> string)
    requires Apart(format) && DelayTailOf(o, p, format) == DelayTailOf(o', p', format)
    ensures o == o' && p == p'
  {
    var s, s' := DelayTailOf(o, p, format), DelayTailOf(o', p', format);
    assert s[1] == (if o != 0.0 then 't' else 'p') && s'[1] == (if o' != 0.0 then 't' else 'p');
    if o == 0.0 {
      SameAfter("_prop_", format(p), format(p'));
    } else {
      OffsetTail(o, p, format);
      OffsetTail(o', p', format);
      hide DelayTailOf, Behind;
      SameAfter("_txoff_", format(o) + Behind(p, format), format(o') + Behind(p', format));
      NumberAndBehind(o, p, o', p', format);
    }
  }

  lemma {:induction false} NumberAndBehind(o: real, p: real, o': real, p': real, format: real -> string)
    requires Apart(format) && format(o) + Behind(p, format) == format(o') + Behind(p', format)
    ensures o == o' && p == p'
  {
    SplitOptional(format(o), format(o'), if p != 0.0 then Some("_prop_" + format(p)) else None,
                  if p' != 0.0 then Some("_prop_" + format(p')) else None, '_');
    if p != 0.0 {
      SameAfter("_prop_", format(p), format(p'));
    }
  }

  /** When numbers print apart and model names have no underscore, no id stands
      for two clones: then every link is served right. */
  lemma {:induction false} ApartIsPrintable(kind: Kind, c: Config, format: real -> string)
    requires Apart(format) && PlainNames(c)
    ensures Printable(kind, c, Changes(kind, c, format))
  {
    hide Namer, OwnClone, Apart, ChangeOf;
    var changes := Changes(kind, c, format);
    forall i: nat | Namer(kind, c, changes, i) ensures i < |c.links| && i < |changes| && Folded(kind, c, changes, i) {
      NamersInRange(kind, c, changes, i);
    }
    forall i: nat, k: nat | Namer(kind, c, changes, i) && Namer(kind, c, changes, k) && changes[i].id == changes[k].id
      ensures OwnClone(kind, c, changes, i) == OwnClone(kind, c, changes, k)
    {
      var a, b := c.links[i], c.links[k];
      IdParts(kind, c, a, format);
      IdParts(kind, c, b, format);
      SameAfter(if kind.LeadDelay? then "__ocg_lead_delay__" else "__ocg_tx_scale__",
                a.model + ['_'] + IdTail(kind, c, a, format), b.model + ['_'] + IdTail(kind, c, b, format));
      SplitOnce(a.model, b.model, IdTail(kind, c, a, format), IdTail(kind, c, b, format), '_');
      TailTellsValue(kind, c, a, b, format);
      SameClone(kind, c, changes, i, k);
    }
  }

  lemma {:induction false} NamersInRange(kind: Kind, c: Config, changes: seq<Change>, i: nat)
    requires Namer(kind, c, changes, i)
    ensures i < |c.links| && i < |changes| && Folded(kind, c, changes, i)
  {
  }

  lemma {:induction false} SameClone(kind: Kind, c: Config, changes: seq<Change>, i: nat, k: nat)
    requires Folded(kind, c, changes, i) && Folded(kind, c, changes, k)
    requires changes[i].value == changes[k].value && c.links[i].model == c.links[k].model
    ensures OwnClone(kind, c, changes, i) == OwnClone(kind, c, changes, k)
  {
  }

  lemma {:induction false} AfterLength(kind: Kind, c: Config, changes: seq<Change>, n: nat)
    requires n <= |c.links| == |changes|
    ensures |After(kind, c, changes, n).links| == n
  {
    if n > 0 {
      AfterLength(kind, c, changes, n - 1);
    }
  }

  lemma {:induction false} FoldLength(kind: Kind, c: Config, format: real -> string)
    ensures |Fold(kind, c, format).links| == |c.links|
  {
    AfterLength(kind, c, Changes(kind, c, format), |c.links|);
  }

  lemma {:induction false} NamerServed(kind: Kind, c: Config, format: real -> string, i: nat)
    requires Fresh(c, Changes(kind, c, format)) && Namer(kind, c, Changes(kind, c, format), i)
    ensures |Fold(kind, c, format).links| == |c.links| && i < |c.links| && Folded(kind, c, Changes(kind, c, format), i)
    ensures var changes, r := Changes(kind, c, format), Fold(kind, c, format);
            r.links[i].model in r.models &&
            r.models[r.links[i].model] == OwnClone(kind, c, changes, OwnerOf(kind, c, changes, i))
  {
    var changes := Changes(kind, c, format);
    assert i < |c.links|;
    hide Changes, Fold, Fresh;
    FoldedLink(kind, c, format, i);
    NamerUnique(kind, c, changes, NamerOf(kind, c, changes, i), i);
  }
}
