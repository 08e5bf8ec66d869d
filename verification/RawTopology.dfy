/** Flattening the whole graph for raw-scale clients (graph/rawtopo.go). */
module RawTopology {
  import opened GraphState
  import opened Sorting

  const DEFAULT_RAW_MAX_NODES := 150000
  const MAX_PROTOCOLS := 255

  datatype RawNode = RawNode(id: string, packets: int, isGroup: bool)

  datatype RawEdge = RawEdge(from: string, to: string, protocol: Protocol, packets: int)

  datatype Topology = Topology(ids: seq<string>, tiers: seq<int>, flags: seq<int>,
                               edgeA: seq<int>, edgeB: seq<int>, edgeProto: seq<int>, protos: seq<Protocol>,
                                 totalPackets: int)

  /** The traffic tier of a node, from its packets and the busiest node's: a logarithmic scale of five steps. */
  type Tiering = (int, int) -> int

  ghost predicate FiveTiers(tier: Tiering) { forall p, max :: 0 <= tier(p, max) <= 4 }

  function LiveIds(nodes: seq<RawNode>): set<string> { set i | 0 <= i < |nodes| :: nodes[i].id }

  function IsHidden(hidden: map<string, bool>, e: RawEdge): bool {
    e.protocol.name in hidden && hidden[e.protocol.name]
  }

  /** The edges not filtered out whose endpoints are live. */
  function Visible(hidden: map<string, bool>, live: set<string>, edges: seq<RawEdge>): seq<RawEdge> {
    if edges == [] then []
    else
      var past, e := Visible(hidden, live, edges[..|edges| - 1]), edges[|edges| - 1];
      if IsHidden(hidden, e) || e.from !in live || e.to !in live then past else past + [e]
  }

  function PacketTotal(edges: seq<RawEdge>): int {
    if edges == [] then 0 else PacketTotal(edges[..|edges| - 1]) + edges[|edges| - 1].packets
  }

  /** The packets of the edges at each endpoint; a loop counts once. */
  function PacketsAt(edges: seq<RawEdge>): map<string, int> {
    if edges == [] then map[]
    else
      var past, e := PacketsAt(edges[..|edges| - 1]), edges[|edges| - 1];
      var one := past[e.from := Count(past, e.from) + e.packets];
      if e.to != e.from then one[e.to := Count(one, e.to) + e.packets] else one
  }

  function Count(m: map<string, int>, id: string): int { if id in m then m[id] else 0 }

  lemma {:induction false} EndpointsCount(edges: seq<RawEdge>)
    ensures forall id :: id in PacketsAt(edges) <==>
      exists i :: 0 <= i < |edges| && (edges[i].from == id || edges[i].to == id)
  {
    if edges != [] {
      var past, e := edges[..|edges| - 1], edges[|edges| - 1];
      EndpointsCount(past);
      forall id ensures id in PacketsAt(edges) <==>
        exists i :: 0 <= i < |edges| && (edges[i].from == id || edges[i].to == id) {
        if id in PacketsAt(past) {
          var i :| 0 <= i < |past| && (past[i].from == id || past[i].to == id);
          assert edges[i] == past[i];
        }
        if i :| 0 <= i < |edges| && (edges[i].from == id || edges[i].to == id) {
          if i < |past| { assert edges[i] == past[i]; }
        }
      }
    }
  }

  /** Without a filter every live node is a candidate, ranked by its own packets if no edge shows it. */
  function Seeded(packets: map<string, int>, nodes: seq<RawNode>): map<string, int> {
    if nodes == [] then packets
    else
      var past, n := Seeded(packets, nodes[..|nodes| - 1]), nodes[|nodes| - 1];
      if n.id in past then past else past[n.id := n.packets]
  }

  function Candidates(nodes: seq<RawNode>, edges: seq<RawEdge>, hidden: map<string, bool>): map<string, int> {
    var packets := PacketsAt(Visible(hidden, LiveIds(nodes), edges));
    if hidden == map[] then Seeded(packets, nodes) else packets
  }

  /** A valid choice of at most `max` busiest candidates; ties may go either way. */
  ghost predicate TopSet(candidates: map<string, int>, keep: set<string>, max: int) {
    && keep <= candidates.Keys
    && (|candidates| <= max ==> keep == candidates.Keys)
    && (|candidates| > max ==> |keep| == max && forall a, b :: a in keep && b in candidates && b !in keep ==>
      candidates[a] >= candidates[b])
  }

  /** The visible edges both of whose ends are kept, in order. */
  function KeptEdges(visible: seq<RawEdge>, keep: set<string>): seq<RawEdge> {
    if visible == [] then []
    else
      var past, e := KeptEdges(visible[..|visible| - 1], keep), visible[|visible| - 1];
      if e.from in keep && e.to in keep then past + [e] else past
  }

  predicate InTable(protos: seq<Protocol>, name: string) { exists i :: 0 <= i < |protos| && protos[i].name == name }

  /** The protocols in the order in which the edges show them, as many as fit. */
  function ProtocolTable(edges: seq<RawEdge>): seq<Protocol> {
    if edges == [] then []
    else
      var past, p := ProtocolTable(edges[..|edges| - 1]), edges[|edges| - 1].protocol;
      if InTable(past, p.name) || |past| >= MAX_PROTOCOLS then past else past + [p]
  }

  // ---- the cap ----

  method CapCandidates(candidates: map<string, int>, max: int) returns (kept: map<string, int>)
    requires max > 0
    ensures TopSet(candidates, kept.Keys, max) && forall id :: id in kept ==> kept[id] == candidates[id]
  {
    kept := candidates;
    if |candidates| > max {
      var ids := SortFalling(candidates);
      for i := max to |ids|
        invariant kept.Keys <= candidates.Keys && |kept| == |candidates| - (i - max)
        invariant forall j :: 0 <= j < |ids| ==> (ids[j] in kept <==> j < max || j >= i)
        invariant forall id :: id in kept ==> kept[id] == candidates[id]
      {
        kept := Dropping(kept, ids[i]);
      }
      PrefixIsTop(candidates, ids, kept.Keys, max);
    }
  }

  method Dropping(m: map<string, int>, id: string) returns (r: map<string, int>)
    requires id in m
    ensures r == m - {id} && |r| == |m| - 1
  {
    r := m - {id};
    assert r.Keys == m.Keys - {id};
  }

  lemma PrefixIsTop(candidates: map<string, int>, ids: seq<string>, keep: set<string>, max: int)
    requires 0 < max < |candidates| == |ids| && |keep| == max && keep <= candidates.Keys && forall id :: id in ids <==>
      id in candidates
    requires forall i, j :: 0 <= i < j < |ids| ==> ids[i] != ids[j] && candidates[ids[i]] >= candidates[ids[j]]
    requires forall j :: 0 <= j < |ids| ==> (ids[j] in keep <==> j < max)
    ensures TopSet(candidates, keep, max)
  {
  }

  // ---- flattening ----

  /** The nodes emitted so far. */
  datatype Flat = Flat(ids: seq<string>, index: map<string, int>, tiers: seq<int>, flags: seq<int>)

  ghost predicate Indexed(f: Flat) {
    && (forall i :: 0 <= i < |f.ids| ==> f.ids[i] in f.index && f.index[f.ids[i]] == i)
    && (forall id :: id in f.index ==> 0 <= f.index[id] < |f.ids| && f.ids[f.index[id]] == id)
  }

  ghost predicate Styled(f: Flat, group: map<string, bool>, kept: map<string, int>, max: int, tier: Tiering) {
    && |f.tiers| == |f.flags| == |f.ids|
    && (forall i :: 0 <= i < |f.ids| ==> f.ids[i] in kept && f.ids[i] in group)
    && (forall i :: 0 <= i < |f.ids| ==>
      f.tiers[i] == tier(kept[f.ids[i]], max) && f.flags[i] == if group[f.ids[i]] then 1 else 0)
  }

  method AddNode(f: Flat, id: string, group: map<string, bool>, kept: map<string, int>, max: int, tier: Tiering)
    returns (g: Flat, idx: int)
    requires Indexed(f) && Styled(f, group, kept, max, tier) && id in kept && id in group
    ensures Indexed(g) && Styled(g, group, kept, max, tier) && f.ids <= g.ids
    ensures 0 <= idx < |g.ids| && g.ids[idx] == id
    ensures g.index.Keys == f.index.Keys + {id}
  {
    if id in f.index {
      return f, f.index[id];
    }
    idx := |f.ids|;
    g := Flat(f.ids + [id], f.index[id := idx], f.tiers + [tier(kept[id], max)],
      f.flags + [if group[id] then 1 else 0]);
  }

  /** Each emitted edge names its endpoints by index, and its protocol if the table had room for it. */
  ghost predicate EdgesNamed(t: Topology, edges: seq<RawEdge>) {
    && |t.edgeA| == |t.edgeB| == |t.edgeProto| == |edges|
    && forall j :: 0 <= j < |edges| ==>
         && 0 <= t.edgeA[j] < |t.ids| && t.ids[t.edgeA[j]] == edges[j].from
         && 0 <= t.edgeB[j] < |t.ids| && t.ids[t.edgeB[j]] == edges[j].to
         && 0 <= t.edgeProto[j] < |t.protos|
         && (if InTable(t.protos, edges[j].protocol.name) then t.protos[t.edgeProto[j]].name == edges[j].protocol.name
           else t.edgeProto[j] == 0)
  }

  ghost predicate EdgesSoFar(f: Flat, edgeA: seq<int>, edgeB: seq<int>, edges: seq<RawEdge>) {
    && |edgeA| == |edgeB| == |edges|
    && forall j :: 0 <= j < |edges| ==>
         && 0 <= edgeA[j] < |f.ids| && f.ids[edgeA[j]] == edges[j].from
         && 0 <= edgeB[j] < |f.ids| && f.ids[edgeB[j]] == edges[j].to
  }

  ghost predicate ProtocolsSoFar(protos: seq<Protocol>, protoIdx: map<string, int>, edgeProto: seq<int>,
                                 edges: seq<RawEdge>) {
    && protos == ProtocolTable(edges) && |protos| <= MAX_PROTOCOLS && |edgeProto| == |edges|
      && (edges != [] ==> protos != [])
    && (forall i :: 0 <= i < |protos| ==> protos[i].name in protoIdx && protoIdx[protos[i].name] == i)
    && (forall name :: name in protoIdx ==> 0 <= protoIdx[name] < |protos| && protos[protoIdx[name]].name == name)
    && forall j :: 0 <= j < |edges| ==> ProtocolNamed(protos, edgeProto[j], edges[j])
  }

  ghost predicate ProtocolNamed(protos: seq<Protocol>, pi: int, e: RawEdge) {
    && 0 <= pi < |protos|
    && (if InTable(protos, e.protocol.name) then protos[pi].name == e.protocol.name
      else pi == 0 && |protos| >= MAX_PROTOCOLS)
  }

  method AddProtocol(protos: seq<Protocol>, protoIdx: map<string, int>, edgeProto: seq<int>, ghost past: seq<RawEdge>,
                     e: RawEdge)
    returns (protos': seq<Protocol>, protoIdx': map<string, int>, edgeProto': seq<int>)
    requires ProtocolsSoFar(protos, protoIdx, edgeProto, past)
    ensures ProtocolsSoFar(protos', protoIdx', edgeProto', past + [e])
  {
    hide ProtocolNamed;
    assert (past + [e])[..|past|] == past;
    protos', protoIdx' := protos, protoIdx;
    var name, pi := e.protocol.name, 0;
    assert InTable(protos, name) <==> name in protoIdx;
    if name in protoIdx {
      pi := protoIdx[name];
    } else if |protos| < MAX_PROTOCOLS {
      pi := |protos|;
      protos', protoIdx' := protos + [e.protocol], protoIdx[name := pi];
    }
    edgeProto' := edgeProto + [pi];
    forall j | 0 <= j < |past| + 1 ensures ProtocolNamed(protos', edgeProto'[j], (past + [e])[j]) {
      if j < |past| {
        StillNamed(protos, protos', edgeProto[j], past[j]);
      } else {
        IsNamed(protos', pi, e);
      }
    }
  }

  lemma StillNamed(protos: seq<Protocol>, protos': seq<Protocol>, pi: int, e: RawEdge)
    requires ProtocolNamed(protos, pi, e) && protos <= protos' && (protos != protos' ==> |protos| < MAX_PROTOCOLS)
    ensures ProtocolNamed(protos', pi, e)
  {
  }

  lemma IsNamed(protos: seq<Protocol>, pi: int, e: RawEdge)
    requires 0 <= pi < |protos|
    requires protos[pi].name == e.protocol.name
      || (pi == 0 && |protos| >= MAX_PROTOCOLS && !InTable(protos, e.protocol.name))
    ensures ProtocolNamed(protos, pi, e)
  {
  }

  function Cap(maxNodes: int): int { if maxNodes <= 0 then DEFAULT_RAW_MAX_NODES else maxNodes }

  function IdSet(ids: seq<string>): set<string> { set id | id in ids }

  function Groups(nodes: seq<RawNode>): map<string, bool> {
    if nodes == [] then map[] else Groups(nodes[..|nodes| - 1])[nodes[|nodes| - 1].id := nodes[|nodes| - 1].isGroup]
  }

  /** The largest of the counts, or 0. */
  ghost predicate IsMax(kept: map<string, int>, max: int) {
    max >= 0 && (forall id :: id in kept ==> kept[id] <= max)
      && (max == 0 || exists id :: id in kept && kept[id] == max)
  }

  /** What the flattened arrays say about the graph. */
  ghost predicate Flattens(nodes: seq<RawNode>, edges: seq<RawEdge>, hidden: map<string, bool>, maxNodes: int,
                           tier: Tiering, t: Topology) {
    var visible, keep := Visible(hidden, LiveIds(nodes), edges), IdSet(t.ids);
    && (forall i, j :: 0 <= i < j < |t.ids| ==> t.ids[i] != t.ids[j])
    && TopSet(Candidates(nodes, edges, hidden), keep, Cap(maxNodes))
    && EdgesNamed(t, KeptEdges(visible, keep))
    && t.protos == ProtocolTable(KeptEdges(visible, keep)) && |t.protos| <= MAX_PROTOCOLS
    && |t.tiers| == |t.flags| == |t.ids| && keep <= Groups(nodes).Keys
    && (forall i :: 0 <= i < |t.ids| ==> t.flags[i] == if Groups(nodes)[t.ids[i]] then 1 else 0)
    && (exists kept, max :: Ranks(t, Candidates(nodes, edges, hidden), kept, max, tier))
    && t.totalPackets == PacketTotal(visible)
  }

  /** Tiers compare each kept node with the busiest kept one. */
  ghost predicate Ranks(t: Topology, candidates: map<string, int>, kept: map<string, int>, max: int, tier: Tiering) {
    && kept.Keys == IdSet(t.ids) && (forall id :: id in kept ==> id in candidates && kept[id] == candidates[id])
      && IsMax(kept, max)
    && |t.tiers| == |t.ids| && forall i :: 0 <= i < |t.ids| ==>
      t.ids[i] in kept && t.tiers[i] == tier(kept[t.ids[i]], max)
  }

  lemma {:induction false} GroupsOf(nodes: seq<RawNode>)
    ensures Groups(nodes).Keys == LiveIds(nodes)
  {
    if nodes != [] {
      var past := nodes[..|nodes| - 1];
      GroupsOf(past);
      assert LiveIds(nodes) == LiveIds(past) + {nodes[|nodes| - 1].id} by {
        forall id | id in LiveIds(nodes) ensures id in LiveIds(past) + {nodes[|nodes| - 1].id} {
          var i :| 0 <= i < |nodes| && nodes[i].id == id;
          if i < |past| { assert past[i].id == id; }
        }
        forall id | id in LiveIds(past) ensures id in LiveIds(nodes) {
          var i :| 0 <= i < |past| && past[i].id == id;
          assert nodes[i].id == id;
        }
      }
    }
  }

  lemma {:induction false} VisibleIsLive(hidden: map<string, bool>, live: set<string>, edges: seq<RawEdge>)
    ensures forall e :: e in Visible(hidden, live, edges) ==> e.from in live && e.to in live && !IsHidden(hidden, e)
  {
    if edges != [] { VisibleIsLive(hidden, live, edges[..|edges| - 1]); }
  }

  lemma {:induction false} SeededKeys(packets: map<string, int>, nodes: seq<RawNode>)
    ensures forall id :: id in Seeded(packets, nodes) <==> id in packets || id in Groups(nodes)
  {
    if nodes != [] { SeededKeys(packets, nodes[..|nodes| - 1]); }
  }

  lemma CandidatesAreLive(nodes: seq<RawNode>, edges: seq<RawEdge>, hidden: map<string, bool>)
    ensures Candidates(nodes, edges, hidden).Keys <= Groups(nodes).Keys
  {
    hide Visible, PacketsAt, Seeded, Groups, IsHidden, LiveIds;
    var visible := Visible(hidden, LiveIds(nodes), edges);
    GroupsOf(nodes);
    VisibleIsLive(hidden, LiveIds(nodes), edges);
    EndpointsCount(visible);
    SeededKeys(PacketsAt(visible), nodes);
  }

  method LiveGroups(nodes: seq<RawNode>) returns (group: map<string, bool>)
    ensures group == Groups(nodes) && group.Keys == LiveIds(nodes)
  {
    group := map[];
    for i := 0 to |nodes|
      invariant group == Groups(nodes[..i])
    {
      assert nodes[..i + 1][..i] == nodes[..i];
      group := group[nodes[i].id := nodes[i].isGroup];
    }
    assert nodes[..|nodes|] == nodes;
    GroupsOf(nodes);
  }

  lemma OneMoreVisible(visible: seq<RawEdge>, e: RawEdge)
    ensures PacketTotal(visible + [e]) == PacketTotal(visible) + e.packets
    ensures var one := PacketsAt(visible)[e.from := Count(PacketsAt(visible), e.from) + e.packets];
      PacketsAt(visible + [e]) == if e.to != e.from then one[e.to := Count(one, e.to) + e.packets] else one
  {
    assert (visible + [e])[..|visible|] == visible;
  }

  method VisibleEdges(live: map<string, bool>, edges: seq<RawEdge>, hidden: map<string, bool>)
    returns (visible: seq<RawEdge>, packets: map<string, int>, total: int)
    ensures visible == Visible(hidden, live.Keys, edges) && packets == PacketsAt(visible)
      && total == PacketTotal(visible)
  {
    hide PacketsAt, PacketTotal, Count;
    visible, packets, total := [], map[], 0;
    NoneVisible();
    for i := 0 to |edges|
      invariant visible == Visible(hidden, live.Keys, edges[..i]) && packets == PacketsAt(visible)
        && total == PacketTotal(visible)
    {
      assert edges[..i + 1][..i] == edges[..i];
      var e := edges[i];
      if IsHidden(hidden, e) {
        continue;
      }
      if e.from !in live || e.to !in live {
        continue;
      }
      OneMoreVisible(visible, e);
      visible, total := visible + [e], total + e.packets;
      packets := packets[e.from := Count(packets, e.from) + e.packets];
      if e.to != e.from {
        packets := packets[e.to := Count(packets, e.to) + e.packets];
      }
    }
    assert edges[..|edges|] == edges;
  }

  lemma NoneVisible()
    ensures PacketsAt([]) == map[] && PacketTotal([]) == 0
  {
  }

  method Seed(packets: map<string, int>, nodes: seq<RawNode>) returns (r: map<string, int>)
    ensures r == Seeded(packets, nodes)
  {
    r := packets;
    for i := 0 to |nodes|
      invariant r == Seeded(packets, nodes[..i])
    {
      assert nodes[..i + 1][..i] == nodes[..i];
      if nodes[i].id !in r {
        r := r[nodes[i].id := nodes[i].packets];
      }
    }
    assert nodes[..|nodes|] == nodes;
  }

  method MaxPackets(kept: map<string, int>) returns (max: int)
    ensures IsMax(kept, max)
  {
    max := 0;
    var todo := kept.Keys;
    while todo != {}
      invariant todo <= kept.Keys && max >= 0
      invariant (forall id :: id in kept && id !in todo ==> kept[id] <= max)
        && (max == 0 || exists id :: id in kept && kept[id] == max)
      decreases todo
    {
      var id :| id in todo;
      todo := todo - {id};
      if kept[id] > max { max := kept[id]; }
    }
  }

  /** Emits the kept visible edges with their endpoints, and then the nodes no edge brought. */
  method Emit(nodes: seq<RawNode>, visible: seq<RawEdge>, kept: map<string, int>, group: map<string, bool>, max: int,
              tier: Tiering)
    returns (f: Flat, edgeA: seq<int>, edgeB: seq<int>, edgeProto: seq<int>, protos: seq<Protocol>)
    requires kept.Keys <= group.Keys == LiveIds(nodes)
    ensures Indexed(f) && Styled(f, group, kept, max, tier) && f.index.Keys == kept.Keys
    ensures var ks := KeptEdges(visible, kept.Keys);
      EdgesSoFar(f, edgeA, edgeB, ks) && protos == ProtocolTable(ks) && |protos| <= MAX_PROTOCOLS && |edgeProto| == |ks|
      && forall j :: 0 <= j < |ks| ==> ProtocolNamed(protos, edgeProto[j], ks[j])
  {
    f := Flat([], map[], [], []);
    edgeA, edgeB, edgeProto, protos := [], [], [], [];
    var protoIdx: map<string, int> := map[];
    for i := 0 to |visible|
      invariant Indexed(f) && Styled(f, group, kept, max, tier) && f.index.Keys <= kept.Keys
      invariant EdgesSoFar(f, edgeA, edgeB, KeptEdges(visible[..i], kept.Keys))
      invariant ProtocolsSoFar(protos, protoIdx, edgeProto, KeptEdges(visible[..i], kept.Keys))
    {
      hide Indexed, Styled, ProtocolsSoFar;
      assert visible[..i + 1][..i] == visible[..i];
      var e := visible[i];
      ghost var past := KeptEdges(visible[..i], kept.Keys);
      if e.from !in kept || e.to !in kept {
        continue;
      }
      protos, protoIdx, edgeProto := AddProtocol(protos, protoIdx, edgeProto, past, e);
      ghost var f0 := f;
      var a, b;
      f, a := AddNode(f, e.from, group, kept, max, tier);
      ghost var f1 := f;
      f, b := AddNode(f, e.to, group, kept, max, tier);
      EdgesGrow(f0, f1, f, edgeA, edgeB, past, e, a, b);
      edgeA, edgeB := edgeA + [a], edgeB + [b];
    }
    assert visible[..|visible|] == visible;
    f := EmitRest(f, edgeA, edgeB, KeptEdges(visible, kept.Keys), nodes, kept, group, max, tier);
  }

  lemma EdgesGrow(f0: Flat, f1: Flat, f2: Flat, edgeA: seq<int>, edgeB: seq<int>, past: seq<RawEdge>, e: RawEdge,
                  a: int, b: int)
    requires EdgesSoFar(f0, edgeA, edgeB, past) && f0.ids <= f1.ids <= f2.ids
    requires 0 <= a < |f1.ids| && f1.ids[a] == e.from && 0 <= b < |f2.ids| && f2.ids[b] == e.to
    ensures EdgesSoFar(f2, edgeA + [a], edgeB + [b], past + [e])
  {
  }

  method EmitRest(f0: Flat, ghost edgeA: seq<int>, ghost edgeB: seq<int>, ghost edges: seq<RawEdge>,
                  nodes: seq<RawNode>, kept: map<string, int>,
                  group: map<string, bool>, max: int, tier: Tiering)
    returns (f: Flat)
    requires Indexed(f0) && Styled(f0, group, kept, max, tier)
      && f0.index.Keys <= kept.Keys <= group.Keys == LiveIds(nodes)
    requires EdgesSoFar(f0, edgeA, edgeB, edges)
    ensures Indexed(f) && Styled(f, group, kept, max, tier) && f.index.Keys == kept.Keys
      && EdgesSoFar(f, edgeA, edgeB, edges)
  {
    hide Indexed, Styled;
    f := f0;
    for i := 0 to |nodes|
      invariant Indexed(f) && Styled(f, group, kept, max, tier) && f.index.Keys <= kept.Keys
        && EdgesSoFar(f, edgeA, edgeB, edges)
      invariant forall j :: 0 <= j < i && nodes[j].id in kept ==> nodes[j].id in f.index
    {
      if nodes[i].id in kept {
        var idx;
        f, idx := AddNode(f, nodes[i].id, group, kept, max, tier);
      }
    }
    forall id | id in kept ensures id in f.index {
      assert id in LiveIds(nodes);
    }
  }

  /** The graph as indexed arrays: distinct ids that are the capped candidates, edges naming each visible edge
      between two of them, and a table of at most 255 protocols. */
  method BuildRawTopology(nodes: seq<RawNode>, edges: seq<RawEdge>, hidden: map<string, bool>, maxNodes: int,
                          tier: Tiering)
    returns (t: Topology)
    ensures Flattens(nodes, edges, hidden, maxNodes, tier, t)
  {
    hide Visible, PacketsAt, Seeded, Groups, LiveIds, KeptEdges, ProtocolTable, IsMax, TopSet, PacketTotal,
         ProtocolNamed, Indexed, Styled, EdgesSoFar, Flattens;
    var group := LiveGroups(nodes);
    var visible, packets, total := VisibleEdges(group, edges, hidden);
    if hidden == map[] {
      packets := Seed(packets, nodes);
    }
    CandidatesAreLive(nodes, edges, hidden);
    var limit := if maxNodes <= 0 then DEFAULT_RAW_MAX_NODES else maxNodes;
    var kept := CapCandidates(packets, limit);
    KeepsCandidates(packets, kept.Keys, limit);
    var max := MaxPackets(kept);
    var f, edgeA, edgeB, edgeProto, protos := Emit(nodes, visible, kept, group, max, tier);
    t := Topology(f.ids, f.tiers, f.flags, edgeA, edgeB, edgeProto, protos, total);
    Assembled(nodes, edges, hidden, maxNodes, tier, kept, max, f, t);
  }

  lemma Assembled(nodes: seq<RawNode>, edges: seq<RawEdge>, hidden: map<string, bool>, maxNodes: int, tier: Tiering,
                  kept: map<string, int>, max: int, f: Flat, t: Topology)
    requires TopSet(Candidates(nodes, edges, hidden), kept.Keys, Cap(maxNodes)) && IsMax(kept, max)
    requires kept.Keys <= Candidates(nodes, edges, hidden).Keys && forall id :: id in kept ==>
      kept[id] == Candidates(nodes, edges, hidden)[id]
    requires Indexed(f) && Styled(f, Groups(nodes), kept, max, tier) && f.index.Keys == kept.Keys
    requires f.ids == t.ids && f.tiers == t.tiers && f.flags == t.flags
      && t.totalPackets == PacketTotal(Visible(hidden, LiveIds(nodes), edges))
    requires var ks := KeptEdges(Visible(hidden, LiveIds(nodes), edges), kept.Keys);
      EdgesSoFar(f, t.edgeA, t.edgeB, ks) && t.protos == ProtocolTable(ks) && |t.protos| <= MAX_PROTOCOLS
        && |t.edgeProto| == |ks|
      && forall j :: 0 <= j < |ks| ==> ProtocolNamed(t.protos, t.edgeProto[j], ks[j])
    ensures Flattens(nodes, edges, hidden, maxNodes, tier, t)
  {
    hide Visible, Candidates, Groups, LiveIds, KeptEdges, ProtocolTable, IsMax, TopSet, PacketTotal, ProtocolNamed,
         Indexed, EdgesSoFar, EdgesNamed, Cap, IdSet;
    AllEmitted(f, kept);
    NamedByTable(f, t, KeptEdges(Visible(hidden, LiveIds(nodes), edges), kept.Keys));
    CandidatesAreLive(nodes, edges, hidden);
    assert Ranks(t, Candidates(nodes, edges, hidden), kept, max, tier);
  }

  lemma KeepsCandidates(candidates: map<string, int>, keep: set<string>, max: int)
    requires TopSet(candidates, keep, max)
    ensures keep <= candidates.Keys
  {
  }

  lemma AllEmitted(f: Flat, kept: map<string, int>)
    requires Indexed(f) && f.index.Keys == kept.Keys
    ensures IdSet(f.ids) == kept.Keys
    ensures forall i, j :: 0 <= i < j < |f.ids| ==> f.ids[i] != f.ids[j]
  {
  }

  lemma NamedByTable(f: Flat, t: Topology, edges: seq<RawEdge>)
    requires EdgesSoFar(f, t.edgeA, t.edgeB, edges) && t.ids == f.ids && |t.edgeProto| == |edges|
    requires forall j :: 0 <= j < |edges| ==> ProtocolNamed(t.protos, t.edgeProto[j], edges[j])
    ensures EdgesNamed(t, edges)
  {
  }
}
