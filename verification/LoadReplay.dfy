/** Loading the stored aggregates rebuilds the graph that replaying the packets builds
    (graph/graph.go BulkLoad, store/writer.go apply, replay/replay.go BuildSnapshotFromPackets). */
module LoadReplay {
  import opened Ids
  import opened GraphState
  import opened Aggregates
  import opened VolumeSums

  /** How addresses are named while the packets are captured and replayed: each has one hostname. */
  datatype Names = Names(group: Labeller, host: string -> string)

  /** The node that counts the traffic of an address. */
  function Target(n: Names, ip: string): string {
    var h := EffectiveHost(n.group, ip, n.host(ip));
    if UsesHost(ip, h) then h else ip
  }

  ghost predicate Named(n: Names, ip: string) {
    IsId(ip) && (EffectiveHost(n.group, ip, n.host(ip)) != "" ==> IsId(EffectiveHost(n.group, ip, n.host(ip))))
  }

  ghost predicate EventOk(n: Names, ev: Event) {
    Named(n, ev.src) && Named(n, ev.dst) && ev.srcHost == n.host(ev.src) && ev.dstHost == n.host(ev.dst)
  }

  ghost predicate EventsOk(n: Names, events: seq<Event>) {
    forall i :: 0 <= i < |events| ==> EventOk(n, events[i])
  }

  // ---- packet by packet: the reference path ----

  ghost function Replay(n: Names, catalog: Catalog, events: seq<Event>, now: int): (g: GraphState)
    requires EventsOk(n, events)
    ensures WellFormed(g)
  {
    if events == [] then EMPTY
    else
      var ev := events[|events| - 1];
      assert EventOk(n, ev);
      var g0 := Replay(n, catalog, events[..|events| - 1], now);
      var g1 := AddNode(g0, n.group, ev.src, ev.srcHost, ev.length, now);
      assert WellFormed(g1) by { AddNodeKeepsWellFormed(g0, n.group, ev.src, ev.srcHost, ev.length, now); }
      var g2 := AddNode(g1, n.group, ev.dst, ev.dstHost, ev.length, now);
      assert WellFormed(g2) by { AddNodeKeepsWellFormed(g1, n.group, ev.dst, ev.dstHost, ev.length, now); }
      assert WellFormed(AddEdge(g2, ev.src, ev.dst, catalog(ev.protocol), ev.length, now)) by {
        AddEdgeKeepsWellFormed(g2, ev.src, ev.dst, catalog(ev.protocol), ev.length, now);
      }
      AddEdge(g2, ev.src, ev.dst, catalog(ev.protocol), ev.length, now)
  }

  // ---- counters as sums over the packets ----

  function Load(length: int): Volume { Volume(1, length, 0, 0, 0, 0) }

  function If(b: bool, v: Volume): Volume { if b then v else NOTHING }

  /** What a packet adds to the counters of node `k`. */
  function OnNode(n: Names, k: string, ev: Event): Volume {
    If(Target(n, ev.src) == k, Load(ev.length)).Plus(If(Target(n, ev.dst) == k, Load(ev.length)))
  }

  /** What a packet adds to the edge under `id`, once its endpoints are named. */
  function OnEdge(n: Names, id: string, ev: Event): Volume {
    var src, dst := Target(n, ev.src), Target(n, ev.dst);
    If(EdgeId(src, dst) == id, OnePacket(ev.length, src == CanonFrom(src, dst)))
  }

  function NodeSum(n: Names, k: string, events: seq<Event>): Volume {
    if events == [] then NOTHING else NodeSum(n, k, events[..|events| - 1]).Plus(OnNode(n, k, events[|events| - 1]))
  }

  function EdgeSum(n: Names, id: string, events: seq<Event>): Volume {
    if events == [] then NOTHING else EdgeSum(n, id, events[..|events| - 1]).Plus(OnEdge(n, id, events[|events| - 1]))
  }

  /** The nodes and edges the packets touch. */
  function NodesOf(n: Names, events: seq<Event>): set<string> {
    if events == [] then {}
    else NodesOf(n, events[..|events| - 1]) + {Target(n, events[|events| - 1].src), Target(n, events[|events| - 1].dst)}
  }

  function EdgeOf(n: Names, ev: Event): string { EdgeId(Target(n, ev.src), Target(n, ev.dst)) }

  function EdgesOf(n: Names, events: seq<Event>): set<string> {
    if events == [] then {} else EdgesOf(n, events[..|events| - 1]) + {EdgeOf(n, events[|events| - 1])}
  }

  function NodeLoad(nodes: map<string, NodeState>, k: string): Volume {
    if k in nodes then Volume(nodes[k].packets, nodes[k].bytes, 0, 0, 0, 0) else NOTHING
  }

  function EdgeVolume(edges: map<string, EdgeState>, id: string): Volume {
    if id in edges then edges[id].volume else NOTHING
  }

  /** Every address known so far is counted on its target; no node ever has to be merged. */
  ghost predicate Settled(n: Names, g: GraphState) {
    && WellFormed(g)
    && (forall ip {:trigger ip in g.ipTo} :: ip in g.ipTo ==> g.ipTo[ip] == Target(n, ip))
    && (forall h {:trigger h in g.hostTo} :: h in g.hostTo ==> g.hostTo[h] == h)
  }

  lemma AddNodeSettled(n: Names, g: GraphState, ip: string, length: int, now: int)
    requires Settled(n, g) && Named(n, ip)
    ensures var h := AddNode(g, n.group, ip, n.host(ip), length, now);
      && Settled(n, h) && h.edges == g.edges && h.ipTo == g.ipTo[ip := Target(n, ip)]
      && h.nodes.Keys == g.nodes.Keys + {Target(n, ip)}
      && (forall k :: NodeLoad(h.nodes, k) == NodeLoad(g.nodes, k).Plus(If(k == Target(n, ip), Load(length))))
  {
    hide WellFormed, IsId, Settle, NodeFor, CountOn, If, Volume.Plus;
    AddNodeKeepsWellFormed(g, n.group, ip, n.host(ip), length, now);
    NothingToMerge(n, g, ip);
    var host := EffectiveHost(n.group, ip, n.host(ip));
    CountNodeLoads(g.nodes, Target(n, ip), ip, host, n.group(ip).Some?, length, now);
  }

  lemma NothingToMerge(n: Names, g: GraphState, ip: string)
    requires Settled(n, g) && Named(n, ip)
    ensures var host := EffectiveHost(n.group, ip, n.host(ip));
      && NodeFor(g, ip, host) == Target(n, ip)
      && Settle(g, ip, host) == g.(hostTo := Settle(g, ip, host).hostTo)
      && (forall h :: h in Settle(g, ip, host).hostTo ==> Settle(g, ip, host).hostTo[h] == h)
  {
    hide WellFormed, IsId, Merge;
  }

  lemma CountNodeLoads(nodes: map<string, NodeState>, id: string, ip: string, host: string, isGroup: bool, length: int,
                       now: int)
    ensures var h := nodes[id := CountOn(nodes, id, ip, host, isGroup, length, now)];
      forall k :: NodeLoad(h, k) == NodeLoad(nodes, k).Plus(If(k == id, Load(length)))
  {
  }

  lemma AddEdgeSettled(n: Names, g: GraphState, ev: Event, protocol: Protocol, now: int)
    requires Settled(n, g) && EventOk(n, ev) && ev.src in g.ipTo && ev.dst in g.ipTo
    ensures var h := AddEdge(g, ev.src, ev.dst, protocol, ev.length, now);
      && Settled(n, h) && h.nodes == g.nodes
      && h.edges.Keys == g.edges.Keys + {EdgeId(Target(n, ev.src), Target(n, ev.dst))}
      && (forall id :: EdgeVolume(h.edges, id) == EdgeVolume(g.edges, id).Plus(OnEdge(n, id, ev)))
  {
    hide WellFormed, IsId, EdgeId, CanonFrom, CanonTo, CountEdge, Target, EffectiveHost, Volume.Plus;
    AddEdgeKeepsWellFormed(g, ev.src, ev.dst, protocol, ev.length, now);
    CountEdgeVolume(g.edges, Target(n, ev.src), Target(n, ev.dst), protocol, ev.length, now);
    forall id ensures EdgeVolume(g.edges, id).Plus(NOTHING) == EdgeVolume(g.edges, id) {
      PlusLaws(EdgeVolume(g.edges, id), NOTHING, NOTHING);
    }
  }

  lemma CountEdgeVolume(edges: map<string, EdgeState>, src: string, dst: string, protocol: Protocol, length: int,
                        now: int)
    ensures CountEdge(edges, src, dst, protocol, length, now).volume ==
            EdgeVolume(edges, EdgeId(src, dst)).Plus(OnePacket(length, src == CanonFrom(src, dst)))
  {
  }

  /** Replaying counts each packet on the targets of its addresses. */
  lemma {:induction false} ReplayCounts(n: Names, catalog: Catalog, events: seq<Event>, now: int)
    requires EventsOk(n, events)
    ensures var g := Replay(n, catalog, events, now);
      && Settled(n, g)
      && (forall k :: NodeLoad(g.nodes, k) == NodeSum(n, k, events))
      && g.nodes.Keys == NodesOf(n, events) && g.edges.Keys == EdgesOf(n, events)
      && (forall id :: EdgeVolume(g.edges, id) == EdgeSum(n, id, events))
  {
    hide WellFormed, AddNode, AddEdge, EventOk, Named, EdgeId, Target, OnEdge, Volume.Plus, Settled;
    if events == [] {
      EmptyIsSettled(n);
    } else {
      var past, ev := events[..|events| - 1], events[|events| - 1];
      assert EventOk(n, ev);
      OkParts(n, ev);
      ReplayCounts(n, catalog, past, now);
      ReplayOne(n, catalog, Replay(n, catalog, past, now), ev, now);
    }
  }

  lemma OkParts(n: Names, ev: Event)
    requires EventOk(n, ev)
    ensures Named(n, ev.src) && Named(n, ev.dst) && ev.srcHost == n.host(ev.src) && ev.dstHost == n.host(ev.dst)
    ensures IsId(ev.src) && IsId(ev.dst)
    ensures EffectiveHost(n.group, ev.src, ev.srcHost) != "" ==> IsId(EffectiveHost(n.group, ev.src, ev.srcHost))
    ensures EffectiveHost(n.group, ev.dst, ev.dstHost) != "" ==> IsId(EffectiveHost(n.group, ev.dst, ev.dstHost))
  {
  }

  lemma EmptyIsSettled(n: Names)
    ensures Settled(n, EMPTY)
  {
  }

  lemma ReplayOne(n: Names, catalog: Catalog, g: GraphState, ev: Event, now: int)
    requires Settled(n, g) && EventOk(n, ev)
    ensures IsId(ev.src) && IsId(ev.dst) && WellFormed(g)
    ensures EffectiveHost(n.group, ev.src, ev.srcHost) != "" ==> IsId(EffectiveHost(n.group, ev.src, ev.srcHost))
    ensures EffectiveHost(n.group, ev.dst, ev.dstHost) != "" ==> IsId(EffectiveHost(n.group, ev.dst, ev.dstHost))
    ensures WellFormed(AddNode(g, n.group, ev.src, ev.srcHost, ev.length, now))
    ensures var h :=
      AddEdge(AddNode(AddNode(g, n.group, ev.src, ev.srcHost, ev.length, now), n.group, ev.dst, ev.dstHost, ev.length,
        now),
                             ev.src, ev.dst, catalog(ev.protocol), ev.length, now);
      && Settled(n, h)
      && (forall k :: NodeLoad(h.nodes, k) == NodeLoad(g.nodes, k).Plus(OnNode(n, k, ev)))
      && h.nodes.Keys == g.nodes.Keys + {Target(n, ev.src), Target(n, ev.dst)}
      && (forall id :: EdgeVolume(h.edges, id) == EdgeVolume(g.edges, id).Plus(OnEdge(n, id, ev)))
      && h.edges.Keys == g.edges.Keys + {EdgeId(Target(n, ev.src), Target(n, ev.dst))}
  {
    hide EdgesOk, NodesOk, IpsOk, HostsOk, AnchorsOk, Named, EffectiveHost, AddNode, AddEdge, IsId, EdgeId, Target,
         OnEdge, Volume.Plus;
    OkParts(n, ev);
    AddNodeSettled(n, g, ev.src, ev.length, now);
    var g1 := AddNode(g, n.group, ev.src, ev.srcHost, ev.length, now);
    AddNodeSettled(n, g1, ev.dst, ev.length, now);
    var g2 := AddNode(g1, n.group, ev.dst, ev.dstHost, ev.length, now);
    forall k ensures NodeLoad(g2.nodes, k) == NodeLoad(g.nodes, k).Plus(OnNode(n, k, ev)) {
      PlusLaws(NodeLoad(g.nodes, k), If(k == Target(n, ev.src), Load(ev.length)),
        If(k == Target(n, ev.dst), Load(ev.length)));
    }
    AddEdgeSettled(n, g2, ev, catalog(ev.protocol), now);
  }

  // ---- the stored aggregates ----

  function OfCapture(events: seq<Event>, c: int): seq<Event> {
    if events == [] then []
    else
      var past := OfCapture(events[..|events| - 1], c);
      if events[|events| - 1].capture == c then past + [events[|events| - 1]] else past
  }

  /** Before any naming each address is its own node. */
  const RAW := Names(_ => None, _ => "")

  /** The hostname the store keeps: none if it says no more than the address. */
  function StoredHost(n: Names, ip: string): string { if UsesHost(ip, n.host(ip)) then n.host(ip) else "" }

  /** What the store keeps of an address of capture `c`, against the capture's packets. */
  ghost predicate NodeMatches(n: Names, nodes: map<Key, NodeAgg>, own: seq<Event>, c: int, ip: string) {
    && AggLoad(nodes, Key(c, ip)) == NodeSum(RAW, ip, own)
    && (Key(c, ip) in nodes <==> ip in NodesOf(RAW, own))
    && (Key(c, ip) in nodes ==> nodes[Key(c, ip)].hostname == StoredHost(n, ip))
  }

  lemma {:induction false} FoldNodes(settings: Settings, n: Names, events: seq<Event>, c: int, ip: string)
    requires settings.bucketSecs > 0 && EventsOk(n, OfCapture(events, c))
    ensures NodeMatches(n, Fold(settings, events).nodes, OfCapture(events, c), c, ip)
  {
    hide EventOk, ApplyEdge, ApplyBucket, ApplyNode, NodeMatches;
    if events == [] {
      assert NodeMatches(n, map[], [], c, ip) by { NothingMatches(n, c, ip); }
    } else {
      var past, ev := events[..|events| - 1], events[|events| - 1];
      OwnPastIsOk(n, events, c);
      FoldNodes(settings, n, past, c, ip);
      var before := Fold(settings, past).nodes;
      if ev.capture == c {
        LastOwn(events, c);
        assert EventOk(n, OfCapture(events, c)[|OfCapture(events, c)| - 1]);
        NodeMatchesOn(n, before, OfCapture(events, c), ev, c, ip);
      } else {
        NodeMatchesElsewhere(n, before, OfCapture(events, c), ev, c, ip);
      }
    }
  }

  lemma NothingMatches(n: Names, c: int, ip: string)
    ensures NodeMatches(n, map[], [], c, ip)
  {
  }

  lemma NodeMatchesOn(n: Names, nodes: map<Key, NodeAgg>, own: seq<Event>, ev: Event, c: int, ip: string)
    requires own != [] && own[|own| - 1] == ev && NodeMatches(n, nodes, own[..|own| - 1], c, ip) && ev.capture == c
      && EventOk(n, ev)
    ensures NodeMatches(n, ApplyNode(ApplyNode(nodes, ev, ev.src, ev.srcHost), ev, ev.dst, ev.dstHost), own, c, ip)
  {
    hide ApplyNode, Volume.Plus, StoredHost, EventOk;
    OkParts(n, ev);
    var between := ApplyNode(nodes, ev, ev.src, ev.srcHost);
    ApplyNodeCounts(n, nodes, ev, ev.src, ev.srcHost, c, ip);
    ApplyNodeCounts(n, between, ev, ev.dst, ev.dstHost, c, ip);
    PlusLaws(AggLoad(nodes, Key(c, ip)), If(ip == ev.src, Load(ev.length)), If(ip == ev.dst, Load(ev.length)));
  }

  lemma NodeMatchesElsewhere(n: Names, nodes: map<Key, NodeAgg>, own: seq<Event>, ev: Event, c: int, ip: string)
    requires NodeMatches(n, nodes, own, c, ip) && ev.capture != c
    ensures NodeMatches(n, ApplyNode(ApplyNode(nodes, ev, ev.src, ev.srcHost), ev, ev.dst, ev.dstHost), own, c, ip)
  {
  }

  lemma LastOwn(events: seq<Event>, c: int)
    requires events != [] && events[|events| - 1].capture == c
    ensures var own := OfCapture(events, c);
      own != [] && own[|own| - 1] == events[|events| - 1] && own[..|own| - 1] == OfCapture(events[..|events| - 1], c)
  {
  }

  lemma OwnPastIsOk(n: Names, events: seq<Event>, c: int)
    requires events != [] && EventsOk(n, OfCapture(events, c))
    ensures EventsOk(n, OfCapture(events[..|events| - 1], c))
  {
    var past, own := OfCapture(events[..|events| - 1], c), OfCapture(events, c);
    assert forall i :: 0 <= i < |past| ==> past[i] == own[i];
  }

  function AggLoad(nodes: map<Key, NodeAgg>, key: Key): Volume {
    if key in nodes then Volume(nodes[key].packets, nodes[key].bytes, 0, 0, 0, 0) else NOTHING
  }

  lemma ApplyNodeCounts(n: Names, nodes: map<Key, NodeAgg>, ev: Event, id: string, host: string, c: int, ip: string)
    requires host == n.host(id) && ev.capture == c
    requires Key(c, ip) in nodes ==> nodes[Key(c, ip)].hostname == StoredHost(n, ip)
    ensures var after := ApplyNode(nodes, ev, id, host);
      && (Key(c, ip) in after <==> Key(c, ip) in nodes || ip == id)
      && AggLoad(after, Key(c, ip)) == AggLoad(nodes, Key(c, ip)).Plus(If(ip == id, Load(ev.length)))
      && (Key(c, ip) in after ==> after[Key(c, ip)].hostname == StoredHost(n, ip))
  {
  }

  function AggVolume(edges: map<Key, EdgeAgg>, key: Key): Volume { if key in edges then edges[key].volume else NOTHING }

  ghost predicate EdgeMatches(edges: map<Key, EdgeAgg>, own: seq<Event>, c: int, id: string) {
    && AggVolume(edges, Key(c, id)) == EdgeSum(RAW, id, own)
    && (Key(c, id) in edges <==> id in EdgesOf(RAW, own))
    && (Key(c, id) in edges ==>
          EndsMatch(edges[Key(c, id)], id) && edges[Key(c, id)].from in NodesOf(RAW, own)
            && edges[Key(c, id)].to in NodesOf(RAW, own))
  }

  ghost predicate EndsMatch(e: EdgeAgg, id: string) {
    id == EdgeId(e.from, e.to) && e.from == CanonFrom(e.from, e.to) && e.to == CanonTo(e.from, e.to)
      && e.volume.Balanced()
  }

  lemma {:induction false} FoldEdges(settings: Settings, events: seq<Event>, c: int, id: string)
    requires settings.bucketSecs > 0
    ensures EdgeMatches(Fold(settings, events).edges, OfCapture(events, c), c, id)
  {
    hide ApplyEdge, ApplyBucket, ApplyNode, EdgeMatches;
    if events == [] {
      assert EdgeMatches(map[], [], c, id) by { NoEdgeMatches(c, id); }
    } else {
      var past, ev := events[..|events| - 1], events[|events| - 1];
      FoldEdges(settings, past, c, id);
      if ev.capture == c {
        LastOwn(events, c);
        EdgeMatchesOn(settings, Fold(settings, past).edges, OfCapture(events, c), ev, c, id);
      } else {
        EdgeMatchesElsewhere(settings, Fold(settings, past).edges, OfCapture(events, c), ev, c, id);
      }
    }
  }

  lemma NoEdgeMatches(c: int, id: string)
    ensures EdgeMatches(map[], [], c, id)
  {
  }

  lemma EdgeMatchesOn(settings: Settings, edges: map<Key, EdgeAgg>, own: seq<Event>, ev: Event, c: int, id: string)
    requires own != [] && own[|own| - 1] == ev && EdgeMatches(edges, own[..|own| - 1], c, id) && ev.capture == c
    ensures EdgeMatches(ApplyEdge(settings, edges, ev), own, c, id)
  {
    hide EdgeId, CanonFrom, CanonTo, Target, OnEdge, PacketVolume, EndsMatch, CountedEdge, Volume.Plus;
    RawEvent(ev, id);
    if EdgeId(ev.src, ev.dst) == id {
      CountedEdgeMatches(settings, edges, ev);
    }
    PlusLaws(EdgeSum(RAW, id, own[..|own| - 1]), NOTHING, NOTHING);
  }

  lemma RawEvent(ev: Event, id: string)
    ensures Target(RAW, ev.src) == ev.src && Target(RAW, ev.dst) == ev.dst
    ensures OnEdge(RAW, id, ev) == If(EdgeId(ev.src, ev.dst) == id, PacketVolume(ev))
    ensures EdgeOf(RAW, ev) == EdgeId(ev.src, ev.dst)
  {
  }

  lemma CountedEdgeMatches(settings: Settings, edges: map<Key, EdgeAgg>, ev: Event)
    requires EdgeKeyOf(ev) in edges ==> EndsMatch(edges[EdgeKeyOf(ev)], EdgeId(ev.src, ev.dst))
    ensures var e :=
      CountedEdge(settings, edges, EdgeKeyOf(ev), CanonFrom(ev.src, ev.dst), CanonTo(ev.src, ev.dst), PacketVolume(ev),
        ev);
      && EndsMatch(e, EdgeId(ev.src, ev.dst))
      && e.volume == AggVolume(edges, EdgeKeyOf(ev)).Plus(PacketVolume(ev))
      && (EdgeKeyOf(ev) in edges ==> e.from == edges[EdgeKeyOf(ev)].from && e.to == edges[EdgeKeyOf(ev)].to)
      && (EdgeKeyOf(ev) !in edges ==> e.from in {ev.src, ev.dst} && e.to in {ev.src, ev.dst})
  {
    CanonicalOrder(ev.src, ev.dst);
  }

  lemma EdgeMatchesElsewhere(settings: Settings, edges: map<Key, EdgeAgg>, own: seq<Event>, ev: Event, c: int,
                             id: string)
    requires EdgeMatches(edges, own, c, id) && ev.capture != c
    ensures EdgeMatches(ApplyEdge(settings, edges, ev), own, c, id)
  {
  }

  // ---- the rows read back ----

  predicate NodeRow(row: StoredNode, n: NodeAgg) {
    row.hostname == n.hostname && row.packets == n.packets && row.bytes == n.bytes
  }

  predicate EdgeRow(row: StoredEdge, e: EdgeAgg) { row == StoredEdge(e.from, e.to, e.protocol, e.volume) }

  function EdgeOfRow(row: StoredEdge): string { EdgeId(row.from, row.to) }

  ghost predicate HasRow(rows: seq<StoredEdge>, id: string) { exists i :: 0 <= i < |rows| && EdgeOfRow(rows[i]) == id }

  lemma MoreRows(rows: seq<StoredEdge>, id: string)
    requires rows != []
    ensures HasRow(rows, id) <==> HasRow(rows[..|rows| - 1], id) || EdgeOfRow(rows[|rows| - 1]) == id
  {
  }

  /** Each node of the capture, once, in whatever order the query returns them. */
  ghost predicate ListsNodes(rows: seq<StoredNode>, nodes: map<Key, NodeAgg>, c: int) {
    && (forall i, j :: 0 <= i < j < |rows| ==> rows[i].id != rows[j].id)
    && (forall i :: 0 <= i < |rows| ==> Key(c, rows[i].id) in nodes && NodeRow(rows[i], nodes[Key(c, rows[i].id)]))
    && (forall id :: Key(c, id) in nodes ==> exists i :: 0 <= i < |rows| && rows[i].id == id)
  }

  ghost predicate ListsEdges(rows: seq<StoredEdge>, edges: map<Key, EdgeAgg>, c: int) {
    && (forall i, j :: 0 <= i < j < |rows| ==> EdgeOfRow(rows[i]) != EdgeOfRow(rows[j]))
    && (forall i :: 0 <= i < |rows| ==>
      Key(c, EdgeOfRow(rows[i])) in edges && EdgeRow(rows[i], edges[Key(c, EdgeOfRow(rows[i]))]))
    && (forall id :: Key(c, id) in edges ==> HasRow(rows, id))
  }

  // ---- loading them ----

  /** The names the stored rows carry. */
  function Stored(n: Names): Names { Names(n.group, ip => StoredHost(n, ip)) }

  lemma StoredNamesAgree(n: Names, ip: string)
    ensures Target(Stored(n), ip) == Target(n, ip)
    ensures Named(n, ip) ==> Named(Stored(n), ip)
  {
  }

  ghost predicate RowsNamed(n: Names, rows: seq<StoredNode>) {
    forall i :: 0 <= i < |rows| ==> RowNamed(n, rows[i])
  }

  ghost predicate RowNamed(n: Names, row: StoredNode) { Named(n, row.id) && row.hostname == n.host(row.id) }

  lemma RowNamedIsOk(n: Names, row: StoredNode)
    requires RowNamed(n, row)
    ensures RowOk(n.group, row) && Named(n, row.id) && row.hostname == n.host(row.id)
  {
  }

  lemma RowsNamedAreOk(n: Names, rows: seq<StoredNode>)
    requires RowsNamed(n, rows)
    ensures forall i :: 0 <= i < |rows| ==> RowOk(n.group, rows[i])
  {
  }

  function RowTargets(n: Names, rows: seq<StoredNode>): set<string> {
    if rows == [] then {} else RowTargets(n, rows[..|rows| - 1]) + {Target(n, rows[|rows| - 1].id)}
  }

  lemma {:induction false} LoadNodesSettles(n: Names, rows: seq<StoredNode>, now: int)
    requires RowsNamed(n, rows) && (forall i :: 0 <= i < |rows| ==> RowOk(n.group, rows[i])) && WellFormed(EMPTY)
    ensures var g := LoadNodes(EMPTY, n.group, rows, now);
      && Settled(n, g) && g.edges == map[]
      && g.nodes.Keys == RowTargets(n, rows)
      && (forall i :: 0 <= i < |rows| ==> rows[i].id in g.ipTo)
  {
    hide WellFormed, AddNode, RowOk, RowNamed, Target, Settled, NodeLoad;
    if rows == [] {
      EmptyIsSettled(n);
    } else {
      var rest, last := rows[..|rows| - 1], rows[|rows| - 1];
      LoadNodesSettles(n, rest, now);
      RowNamedIsOk(n, last);
      AddNodeSettled(n, LoadNodes(EMPTY, n.group, rest, now), last.id, 0, now);
    }
  }

  // ---- the loaded counters are sums over the rows ----

  function RowLoad(n: Names, rows: seq<StoredNode>, k: string): Volume {
    if rows == [] then NOTHING
    else
      var last := rows[|rows| - 1];
      RowLoad(n, rows[..|rows| - 1], k).Plus(If(Target(n, last.id) == k, Volume(last.packets, last.bytes, 0, 0, 0, 0)))
  }

  lemma {:induction false} LoadCountersSums(n: Names, nodes: map<string, NodeState>, ipTo: map<string, string>,
                                            rows: seq<StoredNode>, k: string)
    requires forall i :: 0 <= i < |rows| ==>
      Lookup(ipTo, rows[i].id) == Target(n, rows[i].id) && Target(n, rows[i].id) in nodes
    ensures Targets(ipTo, rows) == RowTargets(n, rows)
    ensures k in RowTargets(n, rows) ==> NodeLoad(LoadCounters(nodes, ipTo, rows), k) == RowLoad(n, rows, k)
    ensures k !in RowTargets(n, rows) ==>
      RowLoad(n, rows, k) == NOTHING && NodeLoad(LoadCounters(nodes, ipTo, rows), k) == NodeLoad(nodes, k)
  {
    hide Target, Lookup, Targets, LoadCounter, NodeLoad, Volume.Plus;
    if rows == [] {
      NoTargets(ipTo);
    } else {
      var rest, last := rows[..|rows| - 1], rows[|rows| - 1];
      LoadCountersSums(n, nodes, ipTo, rest, k);
      TargetsGrow(ipTo, rows);
      LoadCountersKeepsIdentity(nodes, ipTo, rest);
      LoadCounterSum(n, LoadCounters(nodes, ipTo, rest), ipTo, Targets(ipTo, rest), last, k);
      PlusLaws(RowLoad(n, rest, k), NOTHING, NOTHING);
      PlusLaws(Volume(last.packets, last.bytes, 0, 0, 0, 0), NOTHING, NOTHING);
    }
  }

  lemma NoTargets(ipTo: map<string, string>)
    ensures Targets(ipTo, []) == {}
  {
  }

  lemma TargetsGrow(ipTo: map<string, string>, rows: seq<StoredNode>)
    requires rows != []
    ensures Targets(ipTo, rows) == Targets(ipTo, rows[..|rows| - 1]) + {Lookup(ipTo, rows[|rows| - 1].id)}
  {
  }

  lemma LoadCounterSum(n: Names, nodes: map<string, NodeState>, ipTo: map<string, string>, zeroed: set<string>,
                       row: StoredNode, k: string)
    requires Lookup(ipTo, row.id) == Target(n, row.id) && Target(n, row.id) in nodes
    ensures var h := LoadCounter(nodes, ipTo, zeroed, row);
      NodeLoad(h, k) == if k != Target(n, row.id) then NodeLoad(nodes, k)
                        else (if k in zeroed then NodeLoad(nodes, k)
                          else NOTHING).Plus(Volume(row.packets, row.bytes, 0, 0, 0, 0))
  {
  }

  function Oriented(n: Names, row: StoredEdge): Volume {
    if CanonFrom(Target(n, row.from), Target(n, row.to)) != Target(n, row.from) then row.volume.Reversed()
      else row.volume
  }

  /** A loop that only naming creates. */
  predicate Artifact(n: Names, from: string, to: string) { Target(n, from) == Target(n, to) && from != to }

  function RowVolume(n: Names, rows: seq<StoredEdge>, id: string): Volume {
    if rows == [] then NOTHING
    else
      var last := rows[|rows| - 1];
      RowVolume(n, rows[..|rows| - 1], id).Plus(
        If(EdgeId(Target(n, last.from), Target(n, last.to)) == id
          && !Artifact(n, last.from, last.to), Oriented(n, last)))
  }

  lemma {:induction false} LoadEdgesSums(n: Names, ipTo: map<string, string>, catalog: Catalog, rows: seq<StoredEdge>,
                                         now: int, id: string)
    requires forall i :: 0 <= i < |rows| ==>
      Lookup(ipTo, rows[i].from) == Target(n, rows[i].from) && Lookup(ipTo, rows[i].to) == Target(n, rows[i].to)
    requires forall i :: 0 <= i < |rows| ==> rows[i].volume.packets > 0
    ensures EdgeVolume(LoadEdges(map[], ipTo, catalog, rows, now), id) == RowVolume(n, rows, id)
    ensures RowVolume(n, rows, id).packets >= 0
    ensures id in LoadEdges(map[], ipTo, catalog, rows, now) <==> RowVolume(n, rows, id).packets > 0
  {
    hide Target, Lookup, EdgeId, CanonFrom, CanonTo, LoadEdge, Volume.Plus, Oriented, If, Artifact;
    if rows != [] {
      var rest, last := rows[..|rows| - 1], rows[|rows| - 1];
      MorePackets(RowVolume(n, rest, id), EdgeId(Target(n, last.from), Target(n, last.to)) == id
        && !Artifact(n, last.from, last.to), n, last);
      LoadEdgesSums(n, ipTo, catalog, rest, now, id);
      LoadEdgeSum(n, LoadEdges(map[], ipTo, catalog, rest, now), ipTo, catalog, last, now, id);
    }
  }

  lemma MorePackets(v: Volume, lands: bool, n: Names, row: StoredEdge)
    ensures v.Plus(If(lands, Oriented(n, row))).packets == v.packets + if lands then row.volume.packets else 0
  {
  }

  lemma LoadEdgeSum(n: Names, edges: map<string, EdgeState>, ipTo: map<string, string>, catalog: Catalog,
                    row: StoredEdge, now: int, id: string)
    requires Lookup(ipTo, row.from) == Target(n, row.from) && Lookup(ipTo, row.to) == Target(n, row.to)
    ensures var h := LoadEdge(edges, ipTo, catalog, row, now);
      var lands := EdgeId(Target(n, row.from), Target(n, row.to)) == id && !Artifact(n, row.from, row.to);
      && EdgeVolume(h, id) == EdgeVolume(edges, id).Plus(If(lands, Oriented(n, row)))
      && (id in h <==> id in edges || lands)
  {
    hide Target, Lookup, EdgeId, CanonFrom, CanonTo, LoadedEdge, Volume.Plus;
    var from, to := Target(n, row.from), Target(n, row.to);
    PlusLaws(EdgeVolume(edges, id), NOTHING, NOTHING);
    if from == to && row.from != row.to {
      assert LoadEdge(edges, ipTo, catalog, row, now) == edges;
    } else {
      var e := LoadedEdge(edges, from, to, catalog(row.protocol), row.volume, now);
      assert LoadEdge(edges, ipTo, catalog, row, now) == edges[EdgeId(from, to) := e];
      if EdgeId(from, to) == id {
        LoadedVolume(n, edges, row, catalog(row.protocol), now);
      }
    }
  }

  lemma LoadedVolume(n: Names, edges: map<string, EdgeState>, row: StoredEdge, protocol: Protocol, now: int)
    ensures var from, to := Target(n, row.from), Target(n, row.to);
      LoadedEdge(edges, from, to, protocol, row.volume, now).volume
        == EdgeVolume(edges, EdgeId(from, to)).Plus(Oriented(n, row))
  {
    hide Target, EdgeId, CanonFrom, CanonTo, Volume.Plus;
    PlusLaws(Oriented(n, row), NOTHING, NOTHING);
  }

  // ---- row by row is packet by packet ----

  function NodeShare(n: Names, k: string): (string, Event) -> Volume {
    (ip: string, ev: Event) => If(Target(n, ip) == k, OnNode(RAW, ip, ev))
  }

  function Flipped(n: Names, row: StoredEdge): bool {
    CanonFrom(Target(n, row.from), Target(n, row.to)) != Target(n, row.from)
  }

  predicate Lands(n: Names, id: string, row: StoredEdge) {
    EdgeId(Target(n, row.from), Target(n, row.to)) == id && !Artifact(n, row.from, row.to)
  }

  function Turned(v: Volume, turn: bool): Volume { if turn then v.Reversed() else v }

  function EdgeShare(n: Names, id: string): (StoredEdge, Event) -> Volume {
    (row: StoredEdge, ev: Event) => If(Lands(n, id, row), Turned(OnEdge(RAW, EdgeOfRow(row), ev), Flipped(n, row)))
  }

  lemma {:induction false} NodeRowSum(n: Names, k: string, ip: string, own: seq<Event>)
    ensures RowSum(ip, own, NodeShare(n, k)) == If(Target(n, ip) == k, NodeSum(RAW, ip, own))
  {
    hide Target, OnNode, Volume.Plus;
    PlusLaws(NOTHING, NOTHING, NOTHING);
    if own != [] {
      NodeRowSum(n, k, ip, own[..|own| - 1]);
    }
  }

  lemma TurnedPlus(a: Volume, b: Volume, turn: bool)
    ensures Turned(a.Plus(b), turn) == Turned(a, turn).Plus(Turned(b, turn)) && Turned(NOTHING, turn) == NOTHING
  {
  }

  lemma {:induction false} EdgeRowSum(n: Names, id: string, row: StoredEdge, own: seq<Event>)
    ensures RowSum(row, own, EdgeShare(n, id))
      == If(Lands(n, id, row), Turned(EdgeSum(RAW, EdgeOfRow(row), own), Flipped(n, row)))
  {
    hide Lands, OnEdge, Volume.Plus, EdgeOfRow, Flipped, Turned;
    PlusLaws(NOTHING, NOTHING, NOTHING);
    TurnedPlus(NOTHING, NOTHING, Flipped(n, row));
    if own != [] {
      var past, last := own[..|own| - 1], own[|own| - 1];
      EdgeRowSum(n, id, row, past);
      TurnedPlus(EdgeSum(RAW, EdgeOfRow(row), past), OnEdge(RAW, EdgeOfRow(row), last), Flipped(n, row));
    }
  }

  function RowIds(rows: seq<StoredNode>): seq<string> { seq(|rows|, i requires 0 <= i < |rows| => rows[i].id) }

  lemma {:induction false} RowLoadIsByRows(n: Names, rows: seq<StoredNode>, own: seq<Event>, k: string)
    requires forall i :: 0 <= i < |rows| ==>
      Volume(rows[i].packets, rows[i].bytes, 0, 0, 0, 0) == NodeSum(RAW, rows[i].id, own)
    ensures RowLoad(n, rows, k) == ByRows(RowIds(rows), own, NodeShare(n, k))
  {
    hide Target, NodeShare, Volume.Plus;
    if rows != [] {
      var rest, last := rows[..|rows| - 1], rows[|rows| - 1];
      RowLoadIsByRows(n, rest, own, k);
      assert RowIds(rows)[..|rows| - 1] == RowIds(rest);
      NodeRowSum(n, k, last.id, own);
    }
  }

  lemma {:induction false} RowVolumeIsByRows(n: Names, rows: seq<StoredEdge>, own: seq<Event>, id: string)
    requires forall i :: 0 <= i < |rows| ==> rows[i].volume == EdgeSum(RAW, EdgeOfRow(rows[i]), own)
    ensures RowVolume(n, rows, id) == ByRows(rows, own, EdgeShare(n, id))
  {
    hide Target, EdgeShare, Volume.Plus, EdgeOfRow, EdgeId, CanonFrom, Artifact;
    if rows != [] {
      RowVolumeIsByRows(n, rows[..|rows| - 1], own, id);
      EdgeRowSum(n, id, rows[|rows| - 1], own);
    }
  }

  lemma {:induction false} NodeEventSum(n: Names, k: string, ids: seq<string>, ev: Event)
    requires forall i, j :: 0 <= i < j < |ids| ==> ids[i] != ids[j]
    ensures EventSum(ids, ev, NodeShare(n, k)) ==
            If(ev.src in ids && Target(n, ev.src) == k,
              Load(ev.length)).Plus(If(ev.dst in ids && Target(n, ev.dst) == k, Load(ev.length)))
  {
    hide Target, Volume.Plus, NodeShare, If;
    if ids == [] {
      NoShares(ev.length);
    } else {
      var rest, last := ids[..|ids| - 1], ids[|ids| - 1];
      LastApart(ids);
      NodeEventSum(n, k, rest, ev);
      NodeShareOf(n, k, last, ev);
      MoreShares(Load(ev.length), ev.src in rest && Target(n, ev.src) == k, ev.dst in rest && Target(n, ev.dst) == k,
                 ev.src == last && Target(n, ev.src) == k, ev.dst == last && Target(n, ev.dst) == k);
    }
  }

  lemma LastApart(ids: seq<string>)
    requires ids != [] && forall i, j :: 0 <= i < j < |ids| ==> ids[i] != ids[j]
    ensures ids[|ids| - 1] !in ids[..|ids| - 1]
    ensures forall x :: x in ids <==> x in ids[..|ids| - 1] || x == ids[|ids| - 1]
  {
  }

  lemma NoShares(length: int)
    ensures If(false, Load(length)).Plus(If(false, Load(length))) == NOTHING
  {
  }

  lemma MoreShares(v: Volume, a: bool, b: bool, c: bool, d: bool)
    requires !(a && c) && !(b && d)
    ensures If(a, v).Plus(If(b, v)).Plus(If(c, v).Plus(If(d, v))) == If(a || c, v).Plus(If(b || d, v))
  {
  }

  lemma NodeShareOf(n: Names, k: string, ip: string, ev: Event)
    ensures NodeShare(n, k)(ip, ev) ==
            If(ev.src == ip && Target(n, ev.src) == k,
              Load(ev.length)).Plus(If(ev.dst == ip && Target(n, ev.dst) == k, Load(ev.length)))
  {
  }

  lemma {:induction false} NodesByEvents(n: Names, k: string, ids: seq<string>, own: seq<Event>)
    requires forall i, j :: 0 <= i < j < |ids| ==> ids[i] != ids[j]
    requires forall ip :: ip in NodesOf(RAW, own) ==> ip in ids
    ensures ByEvents(ids, own, NodeShare(n, k)) == NodeSum(n, k, own)
  {
    if own != [] {
      var past, last := own[..|own| - 1], own[|own| - 1];
      assert last.src in NodesOf(RAW, own) && last.dst in NodesOf(RAW, own) by { RawEvent(last, ""); }
      hide Target, Volume.Plus, NodeShare;
      NodesByEvents(n, k, ids, past);
      NodeEventSum(n, k, ids, last);
    }
  }

  ghost predicate Canonical(row: StoredEdge) {
    IsId(row.from) && IsId(row.to) && row.from == CanonFrom(row.from, row.to) && row.to == CanonTo(row.from, row.to)
  }

  lemma EdgeShareOne(n: Names, id: string, row: StoredEdge, ev: Event)
    requires Canonical(row) && IsId(ev.src) && IsId(ev.dst) && EdgeOfRow(row) == EdgeId(ev.src, ev.dst)
    ensures EdgeShare(n, id)(row, ev) == If(!Artifact(n, ev.src, ev.dst), OnEdge(n, id, ev))
  {
    EdgeIdIsInjective(row.from, row.to, ev.src, ev.dst);
    RawEvent(ev, EdgeOfRow(row));
    CanonicalOrder(Target(n, ev.src), Target(n, ev.dst));
    CanonicalOrder(ev.src, ev.dst);
  }

  lemma EdgeShareOther(n: Names, id: string, row: StoredEdge, ev: Event)
    requires EdgeOfRow(row) != EdgeId(ev.src, ev.dst)
    ensures EdgeShare(n, id)(row, ev) == NOTHING
  {
    RawEvent(ev, EdgeOfRow(row));
  }

  lemma {:induction false} EdgeEventSum(n: Names, id: string, rows: seq<StoredEdge>, ev: Event)
    requires forall i, j :: 0 <= i < j < |rows| ==> EdgeOfRow(rows[i]) != EdgeOfRow(rows[j])
    requires (forall i :: 0 <= i < |rows| ==> Canonical(rows[i])) && IsId(ev.src) && IsId(ev.dst)
    ensures EventSum(rows, ev, EdgeShare(n, id)) ==
            If(HasRow(rows, EdgeId(ev.src, ev.dst)) && !Artifact(n, ev.src, ev.dst), OnEdge(n, id, ev))
  {
    hide Target, Volume.Plus, EdgeShare, EdgeOfRow, EdgeId, OnEdge, Artifact, IsId, Canonical;
    if rows != [] {
      var rest, last := rows[..|rows| - 1], rows[|rows| - 1];
      MoreRows(rows, EdgeId(ev.src, ev.dst));
      EdgeEventSum(n, id, rest, ev);
      PlusLaws(OnEdge(n, id, ev), NOTHING, NOTHING);
      PlusLaws(NOTHING, NOTHING, NOTHING);
      if EdgeOfRow(last) == EdgeId(ev.src, ev.dst) {
        EdgeShareOne(n, id, last, ev);
      } else {
        EdgeShareOther(n, id, last, ev);
      }
    }
  }

  /** The traffic of an edge without the packets that naming turned into loops. */
  function ProperSum(n: Names, id: string, events: seq<Event>): Volume {
    if events == [] then NOTHING
    else
      var ev := events[|events| - 1];
      ProperSum(n, id, events[..|events| - 1]).Plus(If(!Artifact(n, ev.src, ev.dst), OnEdge(n, id, ev)))
  }

  lemma {:induction false} EdgesByEvents(n: Names, id: string, rows: seq<StoredEdge>, own: seq<Event>)
    requires forall i, j :: 0 <= i < j < |rows| ==> EdgeOfRow(rows[i]) != EdgeOfRow(rows[j])
    requires (forall i :: 0 <= i < |rows| ==> Canonical(rows[i])) && forall i :: 0 <= i < |own| ==>
      IsId(own[i].src) && IsId(own[i].dst)
    requires forall e :: e in EdgesOf(RAW, own) ==> HasRow(rows, e)
    ensures ByEvents(rows, own, EdgeShare(n, id)) == ProperSum(n, id, own)
  {
    if own != [] {
      var past, last := own[..|own| - 1], own[|own| - 1];
      assert EdgeId(last.src, last.dst) in EdgesOf(RAW, own) by { RawEvent(last, ""); }
      hide Target, Volume.Plus, EdgeShare, EdgeOfRow, EdgeId, OnEdge, Artifact, IsId, Canonical;
      EdgesByEvents(n, id, rows, past);
      EdgeEventSum(n, id, rows, last);
    }
  }

  // ---- the theorem ----

  lemma {:induction false} SumsAgree(n: Names, k: string, events: seq<Event>)
    ensures NodeSum(Stored(n), k, events) == NodeSum(n, k, events)
    ensures ProperSum(Stored(n), k, events) == ProperSum(n, k, events)
  {
    hide Target, Stored, OnNode, OnEdge, Artifact, Volume.Plus;
    if events != [] {
      SumsAgree(n, k, events[..|events| - 1]);
      EventAgrees(n, k, events[|events| - 1]);
    }
  }

  lemma EventAgrees(n: Names, k: string, ev: Event)
    ensures OnNode(Stored(n), k, ev) == OnNode(n, k, ev) && OnEdge(Stored(n), k, ev) == OnEdge(n, k, ev)
    ensures Artifact(Stored(n), ev.src, ev.dst) == Artifact(n, ev.src, ev.dst)
  {
    hide Target, Stored;
    StoredNamesAgree(n, ev.src);
    StoredNamesAgree(n, ev.dst);
  }

  lemma {:induction false} EdgesCarryPackets(n: Names, id: string, events: seq<Event>)
    ensures EdgeSum(n, id, events).packets >= ProperSum(n, id, events).packets >= 0
    ensures id in EdgesOf(n, events) <==> EdgeSum(n, id, events).packets > 0
  {
    hide Target, EdgeId, CanonFrom;
    if events != [] {
      EdgesCarryPackets(n, id, events[..|events| - 1]);
    }
  }

  lemma TargetIsId(n: Names, ip: string)
    requires Named(n, ip)
    ensures IsId(Target(n, ip))
  {
  }

  /** On an edge joining two different nodes nothing is left out. */
  lemma {:induction false} ProperEdgesAreWhole(n: Names, a: string, b: string, events: seq<Event>)
    requires EventsOk(n, events) && IsId(a) && IsId(b) && a != b
    ensures ProperSum(n, EdgeId(a, b), events) == EdgeSum(n, EdgeId(a, b), events)
  {
    hide Target, EdgeId, Named, IsId, EventOk, CanonFrom, Volume.Plus;
    if events != [] {
      var ev := events[|events| - 1];
      ProperEdgesAreWhole(n, a, b, events[..|events| - 1]);
      assert EventOk(n, ev);
      OkParts(n, ev);
      TargetIsId(n, ev.src);
      TargetIsId(n, ev.dst);
      if EdgeOf(n, ev) == EdgeId(a, b) {
        IdsMatch(Target(n, ev.src), Target(n, ev.dst), a, b);
      }
    }
  }

  lemma IdsMatch(a: string, b: string, c: string, d: string)
    requires IsId(a) && IsId(b) && IsId(c) && IsId(d) && EdgeId(a, b) == EdgeId(c, d)
    ensures a == b ==> c == d
  {
    if a == b {
      EdgeIdIsInjective(a, b, c, d);
    }
  }

  ghost predicate HasArtifact(n: Names, events: seq<Event>) {
    exists i :: 0 <= i < |events| && Artifact(n, events[i].src, events[i].dst)
  }

  /** Without such packets nothing is left out anywhere; with one, its loop is short of it. */
  lemma {:induction false} ArtifactsAreLeftOut(n: Names, events: seq<Event>)
    ensures !HasArtifact(n, events) ==> forall id :: ProperSum(n, id, events) == EdgeSum(n, id, events)
    ensures forall i :: 0 <= i < |events| && Artifact(n, events[i].src, events[i].dst) ==>
      ProperSum(n, EdgeOf(n, events[i]), events).packets < EdgeSum(n, EdgeOf(n, events[i]), events).packets
  {
    hide Target, EdgeId, CanonFrom, Artifact;
    if events != [] {
      var past, ev := events[..|events| - 1], events[|events| - 1];
      assert events == past + [ev];
      ArtifactsAreLeftOut(n, past);
      forall i | 0 <= i < |events| && Artifact(n, events[i].src, events[i].dst)
        ensures ProperSum(n, EdgeOf(n, events[i]), events).packets < EdgeSum(n, EdgeOf(n, events[i]), events).packets
      {
        EdgesCarryPackets(n, EdgeOf(n, events[i]), past);
        if i < |past| { assert events[i] == past[i]; }
      }
      assert HasArtifact(n, past) ==> HasArtifact(n, events) by {
        if HasArtifact(n, past) {
          var i :| 0 <= i < |past| && Artifact(n, past[i].src, past[i].dst);
          assert events[i] == past[i];
        }
      }
      assert Artifact(n, events[|past|].src, events[|past|].dst) ==> HasArtifact(n, events);
    }
  }

  lemma {:induction false} TargetsOfRows(n: Names, rows: seq<StoredNode>, k: string)
    ensures k in RowTargets(n, rows) <==> exists i :: 0 <= i < |rows| && Target(n, rows[i].id) == k
  {
    hide Target;
    if rows != [] {
      TargetsOfRows(n, rows[..|rows| - 1], k);
      assert rows == rows[..|rows| - 1] + [rows[|rows| - 1]];
    }
  }

  lemma {:induction false} TargetsOfNodes(n: Names, events: seq<Event>, k: string)
    ensures k in NodesOf(n, events) <==> exists ip :: ip in NodesOf(RAW, events) && Target(n, ip) == k
  {
    hide Target;
    if events != [] {
      var past, ev := events[..|events| - 1], events[|events| - 1];
      TargetsOfNodes(n, past, k);
      RawEvent(ev, "");
      assert ev.src in NodesOf(RAW, events) && ev.dst in NodesOf(RAW, events);
    }
  }

  lemma RowsAreNamed(settings: Settings, n: Names, all: seq<Event>, c: int, rows: seq<StoredNode>)
    requires settings.bucketSecs > 0 && EventsOk(n, OfCapture(all, c)) && ListsNodes(rows, Fold(settings, all).nodes, c)
    ensures RowsNamed(Stored(n), rows)
    ensures forall i :: 0 <= i < |rows| ==>
      Volume(rows[i].packets, rows[i].bytes, 0, 0, 0, 0) == NodeSum(RAW, rows[i].id, OfCapture(all, c))
    ensures forall ip :: ip in NodesOf(RAW, OfCapture(all, c)) <==> exists i :: 0 <= i < |rows| && rows[i].id == ip
  {
    hide Fold, EventOk;
    var own := OfCapture(all, c);
    forall i | 0 <= i < |rows|
      ensures RowNamed(Stored(n), rows[i])
        && Volume(rows[i].packets, rows[i].bytes, 0, 0, 0, 0) == NodeSum(RAW, rows[i].id, own)
    {
      FoldNodes(settings, n, all, c, rows[i].id);
      NodesAreNamed(n, own, rows[i].id);
      StoredNamesAgree(n, rows[i].id);
    }
    forall ip ensures ip in NodesOf(RAW, own) <==> exists i :: 0 <= i < |rows| && rows[i].id == ip {
      FoldNodes(settings, n, all, c, ip);
    }
  }

  lemma {:induction false} NodesAreNamed(n: Names, own: seq<Event>, ip: string)
    requires EventsOk(n, own) && ip in NodesOf(RAW, own)
    ensures Named(n, ip)
  {
    hide EventOk, Named;
    var past, last := own[..|own| - 1], own[|own| - 1];
    assert EventOk(n, last);
    OkParts(n, last);
    RawEvent(last, "");
    if ip in NodesOf(RAW, past) {
      NodesAreNamed(n, past, ip);
    }
  }

  lemma EdgeRowsAreCanonical(settings: Settings, n: Names, all: seq<Event>, c: int, rows: seq<StoredEdge>)
    requires settings.bucketSecs > 0 && EventsOk(n, OfCapture(all, c)) && ListsEdges(rows, Fold(settings, all).edges, c)
    ensures forall i :: 0 <= i < |rows| ==> Canonical(rows[i]) && StoredEdgeOk(rows[i])
    ensures forall i :: 0 <= i < |rows| ==> rows[i].volume == EdgeSum(RAW, EdgeOfRow(rows[i]), OfCapture(all, c))
    ensures forall i :: 0 <= i < |rows| ==>
      rows[i].from in NodesOf(RAW, OfCapture(all, c)) && rows[i].to in NodesOf(RAW, OfCapture(all, c))
    ensures forall i :: 0 <= i < |rows| ==> EdgeOfRow(rows[i]) in EdgesOf(RAW, OfCapture(all, c))
    ensures forall id :: id in EdgesOf(RAW, OfCapture(all, c)) ==> HasRow(rows, id)
  {
    hide Fold, EventOk, EdgeId, CanonFrom, CanonTo, HasRow;
    var own := OfCapture(all, c);
    forall i | 0 <= i < |rows|
      ensures Canonical(rows[i]) && StoredEdgeOk(rows[i]) && rows[i].volume == EdgeSum(RAW, EdgeOfRow(rows[i]), own)
      ensures rows[i].from in NodesOf(RAW, own) && rows[i].to in NodesOf(RAW, own)
        && EdgeOfRow(rows[i]) in EdgesOf(RAW, own)
    {
      FoldEdges(settings, all, c, EdgeOfRow(rows[i]));
      NodesAreNamed(n, own, rows[i].from);
      NodesAreNamed(n, own, rows[i].to);
    }
    forall id | id in EdgesOf(RAW, own) ensures HasRow(rows, id) {
      FoldEdges(settings, all, c, id);
    }
  }

  lemma RowsAreLoadable(settings: Settings, n: Names, all: seq<Event>, c: int, rows: seq<StoredNode>)
    requires settings.bucketSecs > 0 && EventsOk(n, OfCapture(all, c)) && ListsNodes(rows, Fold(settings, all).nodes, c)
    ensures WellFormed(EMPTY) && forall i :: 0 <= i < |rows| ==> RowOk(n.group, rows[i])
  {
    hide Fold, EventOk, ListsNodes, RowsNamed, RowOk, Stored;
    RowsAreNamed(settings, n, all, c, rows);
    RowsNamedAreOk(Stored(n), rows);
    StoredGroup(n);
    EmptyIsSettled(n);
  }

  const ONE_HOST := Names(_ => None, _ => "h")
  const PING := Event(1, 0, "a", "b", "h", "h", "tcp", 10)

  lemma ShortIsId(s: string)
    requires |s| == 1
    ensures IsId(s)
  {
  }

  lemma AllOneHost(ip: string)
    requires ip != "h"
    ensures Target(ONE_HOST, ip) == "h" && EffectiveHost(ONE_HOST.group, ip, ONE_HOST.host(ip)) == "h"
  {
  }

  /** Two addresses of one host exchange a packet: replaying keeps the loop it makes, loading drops it. */
  lemma NamingMakesALoop()
    ensures EventsOk(ONE_HOST, [PING]) && HasArtifact(ONE_HOST, [PING])
    ensures ProperSum(ONE_HOST, EdgeId("h", "h"), [PING]).packets < EdgeSum(ONE_HOST, EdgeId("h", "h"), [PING]).packets
  {
    AllOneHost("a");
    AllOneHost("b");
    hide Target, EffectiveHost, IsId, EdgeId, ProperSum, EdgeSum;
    ShortIsId("a");
    ShortIsId("b");
    ShortIsId("h");
    var own := [PING];
    assert Artifact(ONE_HOST, own[0].src, own[0].dst) && EdgeOf(ONE_HOST, own[0]) == EdgeId("h", "h");
    ArtifactsAreLeftOut(ONE_HOST, own);
  }

  /** The same nodes with the same counters, and the same edges with the same counters except that the
      loops which only naming creates may differ; they do exactly if some packet is such a loop. */
  ghost predicate SameTraffic(n: Names, own: seq<Event>, loaded: GraphState, replayed: GraphState) {
    && loaded.nodes.Keys == replayed.nodes.Keys
    && (forall k :: NodeLoad(loaded.nodes, k) == NodeLoad(replayed.nodes, k))
    && (forall a, b :: IsId(a) && IsId(b) && a != b ==>
          (EdgeId(a, b) in loaded.edges <==> EdgeId(a, b) in replayed.edges)
          && EdgeVolume(loaded.edges, EdgeId(a, b)) == EdgeVolume(replayed.edges, EdgeId(a, b)))
    && ((forall id :: EdgeVolume(loaded.edges, id) == EdgeVolume(replayed.edges, id)) <==> !HasArtifact(n, own))
  }

  /** Loading a capture's stored aggregates builds the graph that replaying its packets builds. */
  lemma LoadingIsReplaying(settings: Settings, n: Names, catalog: Catalog, all: seq<Event>, c: int,
                           rows: seq<StoredNode>, edgeRows: seq<StoredEdge>, replayedAt: int, loadedAt: int)
    requires settings.bucketSecs > 0 && EventsOk(n, OfCapture(all, c))
    requires ListsNodes(rows, Fold(settings, all).nodes, c) && ListsEdges(edgeRows, Fold(settings, all).edges, c)
    ensures WellFormed(EMPTY) && forall i :: 0 <= i < |rows| ==> RowOk(n.group, rows[i])
    ensures SameTraffic(n, OfCapture(all, c), Loaded(EMPTY, n.group, catalog, rows, edgeRows, loadedAt),
                        Replay(n, catalog, OfCapture(all, c), replayedAt))
  {
    hide Fold, Replay, Loaded, WellFormed, EventOk, ListsNodes, ListsEdges, NodeLoad, EdgeVolume, EdgeId, IsId,
         Artifact, RowOk;
    RowsAreLoadable(settings, n, all, c, rows);
    var own := OfCapture(all, c);
    var replayed, loaded := Replay(n, catalog, own, replayedAt),
      Loaded(EMPTY, n.group, catalog, rows, edgeRows, loadedAt);
    ReplayCounts(n, catalog, own, replayedAt);
    LoadedNodes(settings, n, catalog, all, c, rows, edgeRows, loadedAt);
    forall id ensures EdgeVolume(loaded.edges, id) == ProperSum(n, id, own)
      && (id in loaded.edges <==> ProperSum(n, id, own).packets > 0) {
      LoadedEdges(settings, n, catalog, all, c, rows, edgeRows, loadedAt, id);
    }
    forall a, b | IsId(a) && IsId(b) && a != b
      ensures (EdgeId(a, b) in loaded.edges <==> EdgeId(a, b) in replayed.edges)
      ensures EdgeVolume(loaded.edges, EdgeId(a, b)) == EdgeVolume(replayed.edges, EdgeId(a, b))
    {
      ProperEdgesAreWhole(n, a, b, own);
      EdgesCarryPackets(n, EdgeId(a, b), own);
    }
    ArtifactsAreLeftOut(n, own);
    if HasArtifact(n, own) {
      var i :| 0 <= i < |own| && Artifact(n, own[i].src, own[i].dst);
      assert EdgeVolume(loaded.edges, EdgeOf(n, own[i])) != EdgeVolume(replayed.edges, EdgeOf(n, own[i]));
    }
  }

  lemma LoadedNodes(settings: Settings, n: Names, catalog: Catalog, all: seq<Event>, c: int,
                    rows: seq<StoredNode>, edgeRows: seq<StoredEdge>, now: int)
    requires settings.bucketSecs > 0 && EventsOk(n, OfCapture(all, c)) && ListsNodes(rows, Fold(settings, all).nodes, c)
    requires WellFormed(EMPTY) && forall i :: 0 <= i < |rows| ==> RowOk(n.group, rows[i])
    ensures var own := OfCapture(all, c);
      var loaded := Loaded(EMPTY, n.group, catalog, rows, edgeRows, now);
      && loaded.nodes.Keys == NodesOf(n, own)
      && (forall k :: NodeLoad(loaded.nodes, k) == NodeSum(n, k, own))
  {
    hide Fold, WellFormed, EventOk, RowNamed, LoadNodes, LoadCounters, LoadEdges, Target, Stored, RowOk;
    var own, m := OfCapture(all, c), Stored(n);
    RowsAreNamed(settings, n, all, c, rows);
    StoredGroup(n);
    LoadNodesSettles(m, rows, now);
    var g := LoadNodes(EMPTY, n.group, rows, now);
    forall i | 0 <= i < |rows| ensures Lookup(g.ipTo, rows[i].id) == Target(m, rows[i].id)
      && Target(m, rows[i].id) in g.nodes {
      TargetsOfRows(m, rows, Target(m, rows[i].id));
    }
    LoadCountersKeepsIdentity(g.nodes, g.ipTo, rows);
    SameTargets(n, rows, own);
    forall k ensures NodeLoad(LoadCounters(g.nodes, g.ipTo, rows), k) == NodeSum(n, k, own) {
      LoadCountersSums(m, g.nodes, g.ipTo, rows, k);
      NodesCounted(n, rows, own, k);
    }
  }

  lemma StoredGroup(n: Names)
    ensures Stored(n).group == n.group
  {
  }

  lemma SameTargets(n: Names, rows: seq<StoredNode>, own: seq<Event>)
    requires forall ip :: ip in NodesOf(RAW, own) <==> exists i :: 0 <= i < |rows| && rows[i].id == ip
    ensures RowTargets(Stored(n), rows) == NodesOf(n, own)
  {
    hide Target, Stored;
    forall k ensures k in RowTargets(Stored(n), rows) <==> k in NodesOf(n, own) {
      TargetsOfRows(Stored(n), rows, k);
      TargetsOfNodes(n, own, k);
      forall ip ensures Target(Stored(n), ip) == Target(n, ip) { StoredNamesAgree(n, ip); }
      if k in RowTargets(Stored(n), rows) {
        var i :| 0 <= i < |rows| && Target(Stored(n), rows[i].id) == k;
        assert rows[i].id in NodesOf(RAW, own);
      }
    }
  }

  lemma IdsAreListed(rows: seq<StoredNode>, own: seq<Event>)
    requires forall i, j :: 0 <= i < j < |rows| ==> rows[i].id != rows[j].id
    requires forall ip :: ip in NodesOf(RAW, own) ==> exists i :: 0 <= i < |rows| && rows[i].id == ip
    ensures forall i, j :: 0 <= i < j < |RowIds(rows)| ==> RowIds(rows)[i] != RowIds(rows)[j]
    ensures forall ip :: ip in NodesOf(RAW, own) ==> ip in RowIds(rows)
  {
    hide NodesOf;
    forall ip | ip in NodesOf(RAW, own) ensures ip in RowIds(rows) {
      var i :| 0 <= i < |rows| && rows[i].id == ip;
      assert RowIds(rows)[i] == ip;
    }
  }

  lemma NodesCounted(n: Names, rows: seq<StoredNode>, own: seq<Event>, k: string)
    requires forall i, j :: 0 <= i < j < |rows| ==> rows[i].id != rows[j].id
    requires forall i :: 0 <= i < |rows| ==>
      Volume(rows[i].packets, rows[i].bytes, 0, 0, 0, 0) == NodeSum(RAW, rows[i].id, own)
    requires forall ip :: ip in NodesOf(RAW, own) ==> exists i :: 0 <= i < |rows| && rows[i].id == ip
    ensures RowLoad(Stored(n), rows, k) == NodeSum(n, k, own)
  {
    hide Target, Stored, NodeShare, RowIds, NodesOf, NodeSum, RowLoad, ByRows, ByEvents;
    RowLoadIsByRows(Stored(n), rows, own, k);
    Exchange(RowIds(rows), own, NodeShare(Stored(n), k));
    IdsAreListed(rows, own);
    NodesByEvents(Stored(n), k, RowIds(rows), own);
    SumsAgree(n, k, own);
  }

  lemma LoadedEdges(settings: Settings, n: Names, catalog: Catalog, all: seq<Event>, c: int,
                    rows: seq<StoredNode>, edgeRows: seq<StoredEdge>, now: int, id: string)
    requires settings.bucketSecs > 0 && EventsOk(n, OfCapture(all, c))
    requires ListsNodes(rows, Fold(settings, all).nodes, c) && ListsEdges(edgeRows, Fold(settings, all).edges, c)
    requires WellFormed(EMPTY) && forall i :: 0 <= i < |rows| ==> RowOk(n.group, rows[i])
    ensures var loaded := Loaded(EMPTY, n.group, catalog, rows, edgeRows, now);
      && EdgeVolume(loaded.edges, id) == ProperSum(n, id, OfCapture(all, c))
      && (id in loaded.edges <==> ProperSum(n, id, OfCapture(all, c)).packets > 0)
  {
    hide Fold, WellFormed, EventOk, RowNamed, LoadNodes, LoadCounters, LoadEdges, Target, Stored, RowOk, StoredEdgeOk,
         Canonical, EdgeOfRow, EdgeShare;
    var own, m := OfCapture(all, c), Stored(n);
    RowsAreNamed(settings, n, all, c, rows);
    EdgeRowsAreCanonical(settings, n, all, c, edgeRows);
    StoredGroup(n);
    LoadNodesSettles(m, rows, now);
    var g := LoadNodes(EMPTY, n.group, rows, now);
    forall i | 0 <= i < |edgeRows|
      ensures Lookup(g.ipTo, edgeRows[i].from) == Target(m, edgeRows[i].from)
        && Lookup(g.ipTo, edgeRows[i].to) == Target(m, edgeRows[i].to)
      ensures edgeRows[i].volume.packets > 0
    {
      EdgesCarryPackets(RAW, EdgeOfRow(edgeRows[i]), own);
    }
    LoadEdgesSums(m, g.ipTo, catalog, edgeRows, now, id);
    RowVolumeIsByRows(m, edgeRows, own, id);
    Exchange(edgeRows, own, EdgeShare(m, id));
    StoredEventsOk(n, own);
    EdgesByEventsStored(n, id, edgeRows, own);
  }

  lemma EdgesByEventsStored(n: Names, id: string, rows: seq<StoredEdge>, own: seq<Event>)
    requires forall i, j :: 0 <= i < j < |rows| ==> EdgeOfRow(rows[i]) != EdgeOfRow(rows[j])
    requires (forall i :: 0 <= i < |rows| ==> Canonical(rows[i])) && EventsOk(n, own)
    requires forall e :: e in EdgesOf(RAW, own) ==> HasRow(rows, e)
    ensures ByEvents(rows, own, EdgeShare(Stored(n), id)) == ProperSum(n, id, own)
  {
    hide Target, Stored, EdgeShare, EventOk, EdgeOfRow, HasRow, Canonical;
    StoredEventsOk(n, own);
    EdgesByEvents(Stored(n), id, rows, own);
    SumsAgree(n, id, own);
  }

  lemma StoredEventsOk(n: Names, own: seq<Event>)
    requires EventsOk(n, own)
    ensures forall i :: 0 <= i < |own| ==> IsId(own[i].src) && IsId(own[i].dst)
  {
  }
}
