/** Who sent what: the direction counters of edges as counts of packets by sender (graph/graph.go, store/writer.go,
    store/query.go). */
module SentTraffic {
  import opened Ids
  import opened GraphState
  import opened Aggregates
  import opened StoreRuns
  import opened LoadReplay
  import opened WindowQuery
  import opened StoredWindows
  import StoredCaptures

  /** The packets, and their bytes, that the hosts named `a` sent to those named `b`. */
  function SentPackets(n: Names, a: string, b: string, events: seq<Event>): int {
    if events == [] then 0
    else
      var past, ev := SentPackets(n, a, b, events[..|events| - 1]), events[|events| - 1];
      if Target(n, ev.src) == a && Target(n, ev.dst) == b then past + 1 else past
  }

  function SentBytes(n: Names, a: string, b: string, events: seq<Event>): int {
    if events == [] then 0
    else
      var past, ev := SentBytes(n, a, b, events[..|events| - 1]), events[|events| - 1];
      if Target(n, ev.src) == a && Target(n, ev.dst) == b then past + ev.length else past
  }

  /** Forward is what `from` sent, reverse what `to` sent; of a loop everything is forward. */
  ghost predicate BySender(n: Names, from: string, to: string, events: seq<Event>, v: Volume) {
    && v.forwardPackets == SentPackets(n, from, to, events) && v.forwardBytes == SentBytes(n, from, to, events)
    && v.reversePackets == (if from == to then 0 else SentPackets(n, to, from, events))
    && v.reverseBytes == (if from == to then 0 else SentBytes(n, to, from, events))
    && v.packets == v.forwardPackets + v.reversePackets && v.bytes == v.forwardBytes + v.reverseBytes
  }

  ghost predicate AllPlain(n: Names, events: seq<Event>) {
    forall i :: 0 <= i < |events| ==> Plain(Target(n, events[i].src)) && Plain(Target(n, events[i].dst))
  }

  lemma {:induction false} EdgeSumBySender(n: Names, from: string, to: string, events: seq<Event>)
    requires Plain(from) && Plain(to) && from == CanonFrom(from, to) && to == CanonTo(from, to) && AllPlain(n, events)
    ensures BySender(n, from, to, events, EdgeSum(n, EdgeId(from, to), events))
  {
    hide Plain, EdgeId, Target, OnEdge, CanonFrom, CanonTo;
    if events != [] {
      var past, ev := events[..|events| - 1], events[|events| - 1];
      EdgeSumBySender(n, from, to, past);
      OneSender(n, from, to, ev);
    }
  }

  lemma OneSender(n: Names, from: string, to: string, ev: Event)
    requires Plain(from) && Plain(to) && from == CanonFrom(from, to) && to == CanonTo(from, to)
    requires Plain(Target(n, ev.src)) && Plain(Target(n, ev.dst))
    ensures var src, dst, v := Target(n, ev.src), Target(n, ev.dst), OnEdge(n, EdgeId(from, to), ev);
      && (src == from && dst == to ==> v == Volume(1, ev.length, 1, 0, ev.length, 0))
      && (src == to && dst == from && from != to ==> v == Volume(1, ev.length, 0, 1, 0, ev.length))
      && (!(src == from && dst == to) && !(src == to && dst == from) ==> v == NOTHING)
  {
    var src, dst := Target(n, ev.src), Target(n, ev.dst);
    hide Plain, EdgeId, Target, CanonFrom, CanonTo;
    CanonicalOrder(src, dst);
    CanonicalOrder(from, to);
    if EdgeId(src, dst) == EdgeId(from, to) {
      EdgeIdIsInjective(src, dst, from, to);
    }
  }

  /** Every edge of the replayed graph counts forward what the hosts named its `from` sent to those named its `to`,
      and in reverse what came back. */
  lemma ReplayedBySender(n: Names, catalog: Catalog, events: seq<Event>, now: int)
    requires EventsOk(n, events)
    ensures var edges := Replay(n, catalog, events, now).edges;
      forall id {:trigger id in edges} :: id in edges ==>
        BySender(n, edges[id].from, edges[id].to, events, edges[id].volume)
  {
    ReplayCounts(n, catalog, events, now);
    TargetsArePlain(n, events);
    hide Replay, Settled, EdgeSum, NodesOf, EdgesOf, NodeSum, NodeLoad, BySender, AllPlain, EventsOk;
    var g := Replay(n, catalog, events, now);
    forall id | id in g.edges ensures BySender(n, g.edges[id].from, g.edges[id].to, events, g.edges[id].volume) {
      EdgeEnds(g, id);
      EdgeSumBySender(n, g.edges[id].from, g.edges[id].to, events);
    }
  }

  lemma EdgeEnds(g: GraphState, id: string)
    requires WellFormed(g) && id in g.edges
    ensures var e := g.edges[id];
      Plain(e.from) && Plain(e.to) && e.from == CanonFrom(e.from, e.to) && e.to == CanonTo(e.from, e.to)
        && id == EdgeId(e.from, e.to)
  {
    hide NodesOk, IpsOk, HostsOk, AnchorsOk;
  }

  lemma TargetsArePlain(n: Names, events: seq<Event>)
    requires EventsOk(n, events)
    ensures AllPlain(n, events)
  {
    forall i | 0 <= i < |events| ensures Plain(Target(n, events[i].src)) && Plain(Target(n, events[i].dst)) {
      assert EventOk(n, events[i]);
      TargetIsId(n, events[i].src);
      TargetIsId(n, events[i].dst);
    }
  }

  /** The same for the edges a capture's stored rows load, but for loops. */
  lemma LoadedBySender(settings: Settings, n: Names, catalog: Catalog, all: seq<Event>, c: int,
                       rows: seq<StoredNode>, edgeRows: seq<StoredEdge>, now: int)
    requires settings.bucketSecs > 0 && EventsOk(n, OfCapture(all, c))
    requires ListsNodes(rows, Fold(settings, all).nodes, c) && ListsEdges(edgeRows, Fold(settings, all).edges, c)
    ensures WellFormed(EMPTY) && forall i :: 0 <= i < |rows| ==> RowOk(n.group, rows[i])
    ensures var edges := Loaded(EMPTY, n.group, catalog, rows, edgeRows, now).edges;
      forall a, b :: IsId(a) && IsId(b) && a != b && a == CanonFrom(a, b) && EdgeId(a, b) in edges ==>
        BySender(n, a, b, OfCapture(all, c), edges[EdgeId(a, b)].volume)
  {
    LoadingIsReplaying(settings, n, catalog, all, c, rows, edgeRows, now, now);
    var own := OfCapture(all, c);
    ReplayCounts(n, catalog, own, now);
    TargetsArePlain(n, own);
    hide *;
    var loaded, replayed := Loaded(EMPTY, n.group, catalog, rows, edgeRows, now), Replay(n, catalog, own, now);
    forall a, b | IsId(a) && IsId(b) && a != b && a == CanonFrom(a, b) && EdgeId(a, b) in loaded.edges
      ensures BySender(n, a, b, own, loaded.edges[EdgeId(a, b)].volume)
    {
      LoadedEdgeBySender(n, own, loaded, replayed, a, b);
    }
  }

  lemma LoadedEdgeBySender(n: Names, own: seq<Event>, loaded: GraphState, replayed: GraphState, a: string, b: string)
    requires SameTraffic(n, own, loaded, replayed) && AllPlain(n, own)
    requires EdgeVolume(replayed.edges, EdgeId(a, b)) == EdgeSum(n, EdgeId(a, b), own)
    requires IsId(a) && IsId(b) && a != b && a == CanonFrom(a, b) && EdgeId(a, b) in loaded.edges
    ensures BySender(n, a, b, own, loaded.edges[EdgeId(a, b)].volume)
  {
    hide EdgeSum, BySender, AllPlain, HasArtifact, Plain, EdgeId, NodeLoad;
    EdgeSumBySender(n, a, b, own);
  }

  // ---- nodes ----

  /** How often the hosts named `k` sent or received a packet, and how many bytes; one sent to itself counts twice. */
  function EndsAt(n: Names, k: string, events: seq<Event>): int {
    if events == [] then 0
    else
      var past, ev := EndsAt(n, k, events[..|events| - 1]), events[|events| - 1];
      past + (if Target(n, ev.src) == k then 1 else 0) + (if Target(n, ev.dst) == k then 1 else 0)
  }

  function BytesAt(n: Names, k: string, events: seq<Event>): int {
    if events == [] then 0
    else
      var past, ev := BytesAt(n, k, events[..|events| - 1]), events[|events| - 1];
      past + (if Target(n, ev.src) == k then ev.length else 0) + (if Target(n, ev.dst) == k then ev.length else 0)
  }

  lemma {:induction false} NodeSumByEnds(n: Names, k: string, events: seq<Event>)
    ensures NodeSum(n, k, events).packets == EndsAt(n, k, events)
    ensures NodeSum(n, k, events).bytes == BytesAt(n, k, events)
  {
    hide Target;
    if events != [] {
      NodeSumByEnds(n, k, events[..|events| - 1]);
    }
  }

  /** Every node counts what the hosts named so sent and received. */
  ghost predicate ByEnds(n: Names, events: seq<Event>, nodes: map<string, NodeState>) {
    forall k :: k in nodes ==> nodes[k].packets == EndsAt(n, k, events) && nodes[k].bytes == BytesAt(n, k, events)
  }

  lemma LoadsByEnds(n: Names, events: seq<Event>, nodes: map<string, NodeState>)
    requires forall k :: NodeLoad(nodes, k) == NodeSum(n, k, events)
    ensures ByEnds(n, events, nodes)
  {
    hide NodeSum, EndsAt, BytesAt;
    forall k | k in nodes
      ensures nodes[k].packets == EndsAt(n, k, events) && nodes[k].bytes == BytesAt(n, k, events)
    {
      assert NodeLoad(nodes, k) == NodeSum(n, k, events);
      NodeSumByEnds(n, k, events);
    }
  }

  lemma ReplayedByEnds(n: Names, catalog: Catalog, events: seq<Event>, now: int)
    requires EventsOk(n, events)
    ensures ByEnds(n, events, Replay(n, catalog, events, now).nodes)
  {
    ReplayCounts(n, catalog, events, now);
    hide *;
    LoadsByEnds(n, events, Replay(n, catalog, events, now).nodes);
  }

  lemma LoadedByEnds(settings: Settings, n: Names, catalog: Catalog, all: seq<Event>, c: int, rows: seq<StoredNode>,
                     edgeRows: seq<StoredEdge>, now: int)
    requires settings.bucketSecs > 0 && EventsOk(n, OfCapture(all, c))
    requires ListsNodes(rows, Fold(settings, all).nodes, c) && ListsEdges(edgeRows, Fold(settings, all).edges, c)
    ensures WellFormed(EMPTY) && forall i :: 0 <= i < |rows| ==> RowOk(n.group, rows[i])
    ensures ByEnds(n, OfCapture(all, c), Loaded(EMPTY, n.group, catalog, rows, edgeRows, now).nodes)
  {
    LoadingIsReplaying(settings, n, catalog, all, c, rows, edgeRows, now, now);
    var own := OfCapture(all, c);
    ReplayCounts(n, catalog, own, now);
    var loaded, replayed := Loaded(EMPTY, n.group, catalog, rows, edgeRows, now), Replay(n, catalog, own, now);
    SameLoads(n, own, loaded, replayed);
    hide *;
    LoadsByEnds(n, own, loaded.nodes);
  }

  lemma SameLoads(n: Names, own: seq<Event>, loaded: GraphState, replayed: GraphState)
    requires SameTraffic(n, own, loaded, replayed)
    requires forall k :: NodeLoad(replayed.nodes, k) == NodeSum(n, k, own)
    ensures forall k :: NodeLoad(loaded.nodes, k) == NodeSum(n, k, own)
  {
    hide NodeSum, EdgeVolume, HasArtifact, NodeLoad, EdgeId, Plain;
  }

  // ---- the tables ----

  ghost predicate IdsOk(own: seq<Event>) { forall i :: 0 <= i < |own| ==> IsId(own[i].src) && IsId(own[i].dst) }

  lemma RawIsPlain(own: seq<Event>)
    requires IdsOk(own)
    ensures AllPlain(RAW, own)
  {
    hide Plain;
    forall i | 0 <= i < |own| ensures Plain(Target(RAW, own[i].src)) && Plain(Target(RAW, own[i].dst)) {
      RawEvent(own[i], "");
    }
  }

  /** Every edge row of the fold counts forward what its `from` sent to its `to`, and in reverse what came back. */
  lemma FoldedBySender(settings: Settings, events: seq<Event>, c: int, id: string)
    requires settings.bucketSecs > 0 && IdsOk(OfCapture(events, c)) && Key(c, id) in Fold(settings, events).edges
    ensures var e := Fold(settings, events).edges[Key(c, id)];
      BySender(RAW, e.from, e.to, OfCapture(events, c), e.volume)
  {
    var own := OfCapture(events, c);
    FoldEdges(settings, events, c, id);
    RawIsPlain(own);
    var e := Fold(settings, events).edges[Key(c, id)];
    RawNodesArePlain(own, e.from);
    RawNodesArePlain(own, e.to);
    hide Fold, Plain, BySender, EdgeSum, IdsOk, AllPlain;
    EdgeSumBySender(RAW, e.from, e.to, own);
  }

  lemma {:induction false} RawNodesArePlain(own: seq<Event>, ip: string)
    requires IdsOk(own) && ip in NodesOf(RAW, own)
    ensures IsId(ip)
  {
    hide Plain, Target;
    if own != [] {
      RawEvent(own[|own| - 1], "");
      if ip in NodesOf(RAW, own[..|own| - 1]) { RawNodesArePlain(own[..|own| - 1], ip); }
    }
  }

  /** So does every edge row of an ended capture, in every run of the store. */
  lemma EndedRowsBySender(settings: Settings, steps: seq<Step>, c: int, id: string)
    requires settings.bucketSecs > 0 && After(settings, steps).Some? && c in After(settings, steps).value.forgotten
    requires IdsOk(OfCapture(After(settings, steps).value.events, c))
    requires Key(c, id) in After(settings, steps).value.db.edges
    ensures var w := After(settings, steps).value;
      var e := w.db.edges[Key(c, id)];
      BySender(RAW, e.from, e.to, OfCapture(w.events, c), e.volume)
  {
    EndedCaptureIsStored(settings, steps, c);
    hide After, Fold, BySender, IdsOk;
    var w := After(settings, steps).value;
    StoredCaptures.SameEntries(w.db.edges, Fold(settings, w.events).edges, c);
    FoldedBySender(settings, w.events, c, id);
  }
}
