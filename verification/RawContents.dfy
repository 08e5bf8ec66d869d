/** What the raw topology holds, node by node and edge by edge (graph/rawtopo.go). */
module RawContents {
  import opened GraphState
  import opened RawTopology

  ghost predicate Live(nodes: seq<RawNode>, id: string) { exists n :: n in nodes && n.id == id }

  /** An edge the topology may show: its protocol is not filtered out, and both ends are live. */
  ghost predicate Showable(nodes: seq<RawNode>, hidden: map<string, bool>, e: RawEdge) {
    !(e.protocol.name in hidden && hidden[e.protocol.name]) && Live(nodes, e.from) && Live(nodes, e.to)
  }

  lemma LiveIsListed(nodes: seq<RawNode>, id: string)
    ensures id in LiveIds(nodes) <==> Live(nodes, id)
  {
    if id in LiveIds(nodes) {
      var i :| 0 <= i < |nodes| && nodes[i].id == id;
      assert nodes[i] in nodes;
    }
  }

  lemma {:induction false} VisibleExactly(nodes: seq<RawNode>, hidden: map<string, bool>, edges: seq<RawEdge>)
    ensures forall e :: e in Visible(hidden, LiveIds(nodes), edges) <==> e in edges && Showable(nodes, hidden, e)
  {
    hide LiveIds, Live;
    if edges != [] {
      VisibleExactly(nodes, hidden, edges[..|edges| - 1]);
      var last := edges[|edges| - 1];
      assert edges == edges[..|edges| - 1] + [last];
      LiveIsListed(nodes, last.from);
      LiveIsListed(nodes, last.to);
    }
  }

  lemma {:induction false} KeptExactly(visible: seq<RawEdge>, keep: set<string>)
    ensures forall e :: e in KeptEdges(visible, keep) <==> e in visible && e.from in keep && e.to in keep
  {
    if visible != [] {
      KeptExactly(visible[..|visible| - 1], keep);
      assert visible == visible[..|visible| - 1] + [visible[|visible| - 1]];
    }
  }

  // ---- how busy each node is ----

  /** The packets of the edges that touch a node. */
  ghost function Touching(edges: seq<RawEdge>, id: string): int {
    if edges == [] then 0
    else
      var past, e := Touching(edges[..|edges| - 1], id), edges[|edges| - 1];
      if e.from == id || e.to == id then past + e.packets else past
  }

  lemma {:induction false} PacketsAreTouching(edges: seq<RawEdge>, id: string)
    ensures Count(PacketsAt(edges), id) == Touching(edges, id)
  {
    if edges != [] {
      PacketsAreTouching(edges[..|edges| - 1], id);
    }
  }

  lemma {:induction false} SeededExactly(packets: map<string, int>, nodes: seq<RawNode>, id: string)
    ensures id in Seeded(packets, nodes) <==> id in packets || Live(nodes, id)
    ensures id in packets ==> Seeded(packets, nodes)[id] == packets[id]
    ensures id !in packets && id in Seeded(packets, nodes) ==>
      exists n :: n in nodes && n.id == id && n.packets == Seeded(packets, nodes)[id]
  {
    if nodes != [] {
      var past, last := nodes[..|nodes| - 1], nodes[|nodes| - 1];
      SeededExactly(packets, past, id);
      assert nodes == past + [last];
      if Live(past, id) {
        var n :| n in past && n.id == id;
        assert n in nodes;
      }
    }
  }

  /** A node is a candidate if an edge that may be shown touches it, as busy as these edges; without a filter every
      other live node is one too, as busy as it says itself. */
  lemma CandidatesExactly(nodes: seq<RawNode>, edges: seq<RawEdge>, hidden: map<string, bool>, id: string)
    ensures var c, visible := Candidates(nodes, edges, hidden), Visible(hidden, LiveIds(nodes), edges);
      var touched := exists e :: e in edges && Showable(nodes, hidden, e) && (e.from == id || e.to == id);
      && (id in c <==> touched || (hidden == map[] && Live(nodes, id)))
      && (touched ==> c[id] == Touching(visible, id))
      && (!touched && id in c ==> exists n :: n in nodes && n.id == id && n.packets == c[id])
  {
    var visible := Visible(hidden, LiveIds(nodes), edges);
    VisibleExactly(nodes, hidden, edges);
    EndpointsCount(visible);
    PacketsAreTouching(visible, id);
    SeededExactly(PacketsAt(visible), nodes, id);
    hide Visible, LiveIds, PacketsAt, Seeded, Showable, Live, Touching;
    if e :| e in edges && Showable(nodes, hidden, e) && (e.from == id || e.to == id) {
      assert e in visible;
      var i :| 0 <= i < |visible| && visible[i] == e;
    }
    if id in PacketsAt(visible) {
      var i :| 0 <= i < |visible| && (visible[i].from == id || visible[i].to == id);
      assert visible[i] in visible;
    }
  }

  // ---- the arrays ----

  /** Entry `j` of the edge arrays is this edge: its ends by index, and its protocol, or the first one's if the table of
      255 had no room for it. */
  ghost predicate IsEntry(t: Topology, j: int, e: RawEdge) {
    && 0 <= j < |t.edgeA| && j < |t.edgeB| && j < |t.edgeProto|
    && 0 <= t.edgeA[j] < |t.ids| && t.ids[t.edgeA[j]] == e.from
    && 0 <= t.edgeB[j] < |t.ids| && t.ids[t.edgeB[j]] == e.to
    && 0 <= t.edgeProto[j] < |t.protos|
    && (t.protos[t.edgeProto[j]].name == e.protocol.name
        || (t.edgeProto[j] == 0 && forall p :: p in t.protos ==> p.name != e.protocol.name))
  }

  lemma NamedIsEntry(t: Topology, edges: seq<RawEdge>, j: int)
    requires EdgesNamed(t, edges) && 0 <= j < |edges|
    ensures IsEntry(t, j, edges[j])
  {
    if !InTable(t.protos, edges[j].protocol.name) {
      forall p | p in t.protos ensures p.name != edges[j].protocol.name {
        var i :| 0 <= i < |t.protos| && t.protos[i] == p;
      }
    }
  }

  /** The arrays hold every node once, at most the cap's number, none left out being busier than one kept. */
  lemma NodesExactly(nodes: seq<RawNode>, edges: seq<RawEdge>, hidden: map<string, bool>, maxNodes: int,
                     tier: Tiering, t: Topology)
    requires Flattens(nodes, edges, hidden, maxNodes, tier, t)
    ensures forall i, j :: 0 <= i < j < |t.ids| ==> t.ids[i] != t.ids[j]
    ensures var c, cap := Candidates(nodes, edges, hidden), if maxNodes <= 0 then 150000 else maxNodes;
      && (forall id :: id in t.ids ==> id in c)
      && (|c| <= cap ==> forall id :: id in c ==> id in t.ids)
      && (|c| > cap ==> |IdSet(t.ids)| == cap)
      && forall a, b :: a in t.ids && b in c && b !in t.ids ==> c[a] >= c[b]
  {
    CapIs(Candidates(nodes, edges, hidden), IdSet(t.ids), maxNodes, t.ids);
    hide Visible, LiveIds, Candidates, KeptEdges, ProtocolTable, Ranks, Groups, PacketTotal, TopSet, EdgesNamed, IdSet;
  }

  ghost predicate EntryOfOne(nodes: seq<RawNode>, edges: seq<RawEdge>, hidden: map<string, bool>, t: Topology, j: int) {
    exists e :: e in edges && Showable(nodes, hidden, e) && IsEntry(t, j, e)
  }

  lemma TablesAre(nodes: seq<RawNode>, edges: seq<RawEdge>, hidden: map<string, bool>, maxNodes: int, tier: Tiering,
                  t: Topology)
    requires Flattens(nodes, edges, hidden, maxNodes, tier, t)
    ensures EdgesNamed(t, KeptEdges(Visible(hidden, LiveIds(nodes), edges), IdSet(t.ids))) && |t.protos| <= 255
    ensures |t.edgeA| == |t.edgeB| == |t.edgeProto|
      == |KeptEdges(Visible(hidden, LiveIds(nodes), edges), IdSet(t.ids))|
  {
    hide Visible, LiveIds, Candidates, KeptEdges, ProtocolTable, Ranks, Groups, PacketTotal, TopSet, IdSet;
  }

  lemma ShownExactly(nodes: seq<RawNode>, edges: seq<RawEdge>, hidden: map<string, bool>, ids: seq<string>)
    ensures forall e :: e in KeptEdges(Visible(hidden, LiveIds(nodes), edges), IdSet(ids)) <==>
      e in edges && Showable(nodes, hidden, e) && e.from in ids && e.to in ids
  {
    VisibleExactly(nodes, hidden, edges);
    KeptExactly(Visible(hidden, LiveIds(nodes), edges), IdSet(ids));
    hide Visible, LiveIds, KeptEdges, Showable;
  }

  /** The edge arrays hold exactly the edges that may be shown between two nodes kept. */
  lemma EdgesExactly(nodes: seq<RawNode>, edges: seq<RawEdge>, hidden: map<string, bool>, maxNodes: int,
                     tier: Tiering, t: Topology)
    requires Flattens(nodes, edges, hidden, maxNodes, tier, t)
    ensures |t.edgeA| == |t.edgeB| == |t.edgeProto| && |t.protos| <= 255
    ensures forall j :: 0 <= j < |t.edgeA| ==> EntryOfOne(nodes, edges, hidden, t, j)
    ensures forall e :: e in edges && Showable(nodes, hidden, e) && e.from in t.ids && e.to in t.ids ==>
      exists j :: 0 <= j < |t.edgeA| && IsEntry(t, j, e)
  {
    hide *;
    TablesAre(nodes, edges, hidden, maxNodes, tier, t);
    ShownExactly(nodes, edges, hidden, t.ids);
    var shown := KeptEdges(Visible(hidden, LiveIds(nodes), edges), IdSet(t.ids));
    forall j | 0 <= j < |shown| ensures EntryOfOne(nodes, edges, hidden, t, j) {
      NamedIsEntry(t, shown, j);
      assert shown[j] in shown;
      OneIsEntry(nodes, edges, hidden, t, j, shown[j]);
    }
    forall e | e in edges && Showable(nodes, hidden, e) && e.from in t.ids && e.to in t.ids
      ensures exists j :: 0 <= j < |t.edgeA| && IsEntry(t, j, e)
    {
      assert e in shown;
      var j :| 0 <= j < |shown| && shown[j] == e;
      NamedIsEntry(t, shown, j);
    }
  }

  lemma OneIsEntry(nodes: seq<RawNode>, edges: seq<RawEdge>, hidden: map<string, bool>, t: Topology, j: int, e: RawEdge)
    requires e in edges && Showable(nodes, hidden, e) && IsEntry(t, j, e)
    ensures EntryOfOne(nodes, edges, hidden, t, j)
  {
    hide Showable, IsEntry;
  }

  lemma {:induction false} GroupsExactly(nodes: seq<RawNode>, id: string)
    ensures id in Groups(nodes) ==> exists n :: n in nodes && n.id == id && n.isGroup == Groups(nodes)[id]
  {
    if nodes != [] {
      GroupsExactly(nodes[..|nodes| - 1], id);
      assert nodes == nodes[..|nodes| - 1] + [nodes[|nodes| - 1]];
    }
  }

  /** A node's flag says whether it is a group. */
  lemma FlagsExactly(nodes: seq<RawNode>, edges: seq<RawEdge>, hidden: map<string, bool>, maxNodes: int, tier: Tiering,
                     t: Topology, i: int)
    requires Flattens(nodes, edges, hidden, maxNodes, tier, t) && 0 <= i < |t.ids|
    ensures i < |t.flags| && exists n :: n in nodes && n.id == t.ids[i] && t.flags[i] == if n.isGroup then 1 else 0
  {
    GroupsExactly(nodes, t.ids[i]);
    assert t.ids[i] in IdSet(t.ids);
    hide Visible, LiveIds, Candidates, KeptEdges, ProtocolTable, Ranks, Groups, PacketTotal, TopSet, EdgesNamed;
  }

  ghost function Packets(edges: seq<RawEdge>): int { if edges == [] then 0 else edges[0].packets + Packets(edges[1..]) }

  lemma {:induction false} PacketsAppend(edges: seq<RawEdge>, e: RawEdge)
    ensures Packets(edges + [e]) == Packets(edges) + e.packets
  {
    if edges == [] {
      assert ([e])[1..] == [];
    } else {
      assert (edges + [e])[1..] == edges[1..] + [e];
      PacketsAppend(edges[1..], e);
    }
  }

  /** The total is that of all edges that may be shown, whatever the cap. */
  lemma {:induction false} TotalIsSum(edges: seq<RawEdge>)
    ensures PacketTotal(edges) == Packets(edges)
  {
    if edges != [] {
      TotalIsSum(edges[..|edges| - 1]);
      PacketsAppend(edges[..|edges| - 1], edges[|edges| - 1]);
      assert edges == edges[..|edges| - 1] + [edges[|edges| - 1]];
    }
  }

  lemma CapIs(candidates: map<string, int>, keep: set<string>, maxNodes: int, ids: seq<string>)
    requires TopSet(candidates, keep, Cap(maxNodes)) && keep == IdSet(ids)
    ensures var cap := if maxNodes <= 0 then 150000 else maxNodes;
      && (forall id :: id in ids ==> id in candidates)
      && (|candidates| <= cap ==> forall id :: id in candidates ==> id in ids)
      && (|candidates| > cap ==> |keep| == cap)
      && forall a, b :: a in ids && b in candidates && b !in ids ==> candidates[a] >= candidates[b]
  {
    assert forall id :: id in ids <==> id in keep;
  }
}
