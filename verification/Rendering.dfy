/** What a tick sends and what the page then holds, field by field (server/websocket.go
    nodeRenderEqual, edgeRenderEqual,
    buildDelta; static/app.js updateGraph). */
module Rendering {
  import opened GraphState
  import opened Views
  import opened ClientDiff
  import opened Mirror
  import opened MirrorSync
  import opened ViewRuns

  /** Two nodes render the same exactly if they agree in all but counters and place, and in their size's bucket. */
  lemma NodesRenderAlike(q: Quantizer, a: ViewNode, b: ViewNode)
    ensures NodeRenderEqual(q, a, b) <==>
      && b == a.(packets := b.packets, bytes := b.bytes, value := b.value, x := b.x, y := b.y, isTail := b.isTail)
      && q.value(a.value) == q.value(b.value)
    ensures NodeRenderEqual(q, a, b) <==>
      && a.id == b.id && a.caption == b.caption && a.ips == b.ips && a.isGroup == b.isGroup
      && a.colorTier == b.colorTier && a.shape == b.shape && a.color == b.color && a.role == b.role && a.icon == b.icon
      && a.deviceInfo == b.deviceInfo && a.pinned == b.pinned && a.isSubnet == b.isSubnet
      && a.hostCount == b.hostCount && q.value(a.value) == q.value(b.value)
  {
  }

  lemma EdgesRenderAlike(q: Quantizer, a: ViewEdge, b: ViewEdge)
    ensures EdgeRenderEqual(q, a, b) <==>
      b == a.(volume := b.volume) && q.width(a.volume.packets) == q.width(b.volume.packets)
    ensures EdgeRenderEqual(q, a, b) <==>
      && a.id == b.id && a.from == b.from && a.to == b.to && a.protocol == b.protocol
      && q.width(a.volume.packets) == q.width(b.volume.packets)
  {
  }

  /** A delta brings exactly what is new or differs from what was last sent in more than counters and place. */
  lemma SentExactly(q: Quantizer, nodes: map<string, ViewNode>, edges: map<string, ViewEdge>, v: View, flows: seq<Flow>,
                    full: bool, d: Delta)
    requires IsDelta(q, nodes, edges, v, flows, full, d)
    ensures forall n :: n in d.nodes <==>
      && n in v.nodes
      && (full || n.id !in nodes || q.value(nodes[n.id].value) != q.value(n.value)
          || n != nodes[n.id].(packets := n.packets, bytes := n.bytes, value := n.value, x := n.x, y := n.y,
                               isTail := n.isTail))
    ensures forall e :: e in d.edges <==>
      && e in v.edges
      && (full || e.id !in edges || q.width(edges[e.id].volume.packets) != q.width(e.volume.packets)
          || e != edges[e.id].(volume := e.volume))
    ensures forall id :: id in d.removedNodes <==> id in nodes && forall n :: n in v.nodes ==> n.id != id
    ensures forall id :: id in d.removedEdges <==> id in edges && forall e :: e in v.edges ==> e.id != id
  {
    ChangedItems(NodeKey, SameNode(q), nodes, v.nodes, full);
    ChangedItems(EdgeKey, SameEdge(q), edges, v.edges, full);
    hide Changed;
    forall n, m ensures SameNode(q)(m, n) == NodeRenderEqual(q, m, n) { NodesRenderAlike(q, m, n); }
    forall n, m ensures SameEdge(q)(m, n) == EdgeRenderEqual(q, m, n) { EdgesRenderAlike(q, m, n); }
  }

  /** Nothing is sent exactly if no item is new or gone and none differs in more than counters and place: a change of
      counters or of place alone sends nothing. */
  lemma NothingSentExactly(q: Quantizer, nodes: map<string, ViewNode>, edges: map<string, ViewEdge>, v: View)
    ensures Unchanged(q, nodes, edges, v) <==>
      && (forall id :: id in nodes ==> exists n :: n in v.nodes && n.id == id)
      && (forall id :: id in edges ==> exists e :: e in v.edges && e.id == id)
      && (forall n :: n in v.nodes ==>
            && n.id in nodes && q.value(nodes[n.id].value) == q.value(n.value)
            && n == nodes[n.id].(packets := n.packets, bytes := n.bytes, value := n.value, x := n.x, y := n.y,
                                 isTail := n.isTail))
      && (forall e :: e in v.edges ==>
            && e.id in edges && q.width(edges[e.id].volume.packets) == q.width(e.volume.packets)
            && e == edges[e.id].(volume := e.volume))
  {
    NoneChanged(NodeKey, SameNode(q), nodes, v.nodes);
    NoneChanged(EdgeKey, SameEdge(q), edges, v.edges);
    hide Changed, Keys;
    forall n, m ensures SameNode(q)(m, n) == NodeRenderEqual(q, m, n) { NodesRenderAlike(q, m, n); }
    forall n, m ensures SameEdge(q)(m, n) == EdgeRenderEqual(q, m, n) { EdgesRenderAlike(q, m, n); }
  }

  lemma NoneChanged<T(!new)>(key: T -> string, same: (T, T) -> bool, last: map<string, T>, items: seq<T>)
    ensures Changed(key, same, last, items, false) == [] <==>
      forall x :: x in items ==> key(x) in last && same(last[key(x)], x)
    ensures last.Keys <= Keys(key, items) <==> forall id :: id in last ==> exists x :: x in items && key(x) == id
  {
    ChangedItems(key, same, last, items, false);
    var sent := Changed(key, same, last, items, false);
    hide Changed;
    if sent != [] {
      assert sent[0] in sent;
    }
    forall x | x in items ensures key(x) in Keys(key, items) { KeyOf(key, items, x); }
    forall id | id in Keys(key, items) ensures exists x :: x in items && key(x) == id {
      var i :| 0 <= i < |items| && key(items[i]) == id;
      assert items[i] in items;
    }
  }

  /** The packets of a view's edges, from the first on. */
  function EdgePackets(edges: seq<ViewEdge>): int {
    if edges == [] then 0 else edges[0].volume.packets + EdgePackets(edges[1..])
  }

  lemma {:induction false} EdgePacketsAppend(edges: seq<ViewEdge>, e: ViewEdge)
    ensures EdgePackets(edges + [e]) == EdgePackets(edges) + e.volume.packets
  {
    if edges == [] {
      assert ([e])[1..] == [];
    } else {
      assert (edges + [e])[1..] == edges[1..] + [e];
      EdgePacketsAppend(edges[1..], e);
    }
  }

  lemma {:induction false} TotalIsSum(edges: seq<ViewEdge>)
    ensures PacketTotal(edges) == EdgePackets(edges)
  {
    if edges != [] {
      TotalIsSum(edges[..|edges| - 1]);
      EdgePacketsAppend(edges[..|edges| - 1], edges[|edges| - 1]);
      assert edges == edges[..|edges| - 1] + [edges[|edges| - 1]];
    }
  }

  /** The statistics that ride along: how many nodes and edges the view has, and the packets of all of its edges. */
  lemma StatsAreTheViews(v: View)
    ensures StatsFor(v) == Stats(|v.nodes|, |v.edges|, EdgePackets(v.edges))
  {
    TotalIsSum(v.edges);
  }

  // ---- the page ----

  /** After every tick of every run that began in step or has had a full snapshot, the page draws
      exactly the view's ids,
      and of each node it holds all that is drawn, aimed at its place. */
  lemma EveryTickFieldByField(q: Quantizer, sigs: Signatures, l: Link, ticks: seq<Tick>)
    requires Sound(q, sigs, l.screen) && ticks != [] && Runs(q, sigs, l, ticks) && Synced(q, sigs, l, ticks)
    ensures var s, v := After(q, sigs, l, ticks).screen, ticks[|ticks| - 1].view;
      && (forall id :: id in s.nodes.shown <==> exists n :: n in v.nodes && n.id == id)
      && (forall id :: id in s.edges.shown <==> exists e :: e in v.edges && e.id == id)
      && (forall n :: n in v.nodes ==>
            && n.id in s.nodes.meta
            && var m := s.nodes.meta[n.id];
            && m.caption == n.caption && m.ips == n.ips && m.isGroup == n.isGroup && m.colorTier == n.colorTier
            && m.shape == n.shape && m.color == n.color && m.role == n.role && m.icon == n.icon
            && m.deviceInfo == n.deviceInfo && m.pinned == n.pinned && m.isSubnet == n.isSubnet
            && m.hostCount == n.hostCount && q.value(m.value) == q.value(n.value))
      && (forall n :: n in v.nodes ==>
            n.id in s.targets && s.targets[n.id].x == n.x && s.targets[n.id].y == n.y)
      && (forall e :: e in v.edges ==>
            && e.id in s.edges.meta
            && var m := s.edges.meta[e.id];
            && m.from == e.from && m.to == e.to && m.protocol == e.protocol
            && q.width(m.volume.packets) == q.width(e.volume.packets))
  {
    EveryTickShowsTheView(q, sigs, l, ticks);
    LastSent(q, sigs, l, ticks);
    hide After, Runs, Synced, Sound;
    var s, v := After(q, sigs, l, ticks).screen, ticks[|ticks| - 1].view;
    TracksItems(NodeKind(q, sigs), s.nodes, v.nodes);
    TracksItems(EdgeKind(q, sigs), s.edges, v.edges);
    hide Tracks, ById, Distinct;
    forall n, m ensures SameNode(q)(m, n) == NodeRenderEqual(q, m, n) { NodesRenderAlike(q, m, n); }
    forall n, m ensures SameEdge(q)(m, n) == EdgeRenderEqual(q, m, n) { EdgesRenderAlike(q, m, n); }
  }

  lemma LastSent(q: Quantizer, sigs: Signatures, l: Link, ticks: seq<Tick>)
    requires ticks != [] && Runs(q, sigs, l, ticks)
    ensures WellShaped(ticks[|ticks| - 1].view)
  {
    hide WellShaped, IsDelta, SendsCounts, Unchanged;
  }

  lemma TracksItems<T(!new), V(!new)>(kind: Kind<T, V>, t: Table<T>, items: seq<T>)
    requires Distinct(kind.key, items) && Tracks(kind, t, ById(kind.key, items))
    ensures forall id :: id in t.shown <==> exists x :: x in items && kind.key(x) == id
    ensures forall x :: x in items ==> kind.key(x) in t.meta && kind.same(t.meta[kind.key(x)], x)
  {
    ByIdOf(kind.key, items);
    hide ById, Respects;
    forall x | x in items ensures kind.key(x) in t.shown && kind.key(x) in t.meta && kind.same(t.meta[kind.key(x)], x) {
      var i :| 0 <= i < |items| && items[i] == x;
      assert TracksAt(kind, t, kind.key(x), x);
    }
    forall id | id in t.shown ensures exists x :: x in items && kind.key(x) == id {
      assert ById(kind.key, items)[id] in items;
    }
  }

  /** If no counter ever shrank, every counts frame and every full snapshot leaves each counter the view's. */
  lemma EveryFrameFieldByField(q: Quantizer, sigs: Signatures, l: Link, ticks: seq<Tick>)
    requires Sound(q, sigs, l.screen) && ticks != [] && Runs(q, sigs, l, ticks) && Synced(q, sigs, l, ticks)
    requires NeverShrinks(q, sigs, l, ticks) && (ticks[|ticks| - 1].frame.Some? || ticks[|ticks| - 1].full)
    ensures var s, v := After(q, sigs, l, ticks).screen, ticks[|ticks| - 1].view;
      && (forall n :: n in v.nodes ==>
            && n.id in s.nodes.meta
            && s.nodes.meta[n.id].packets == n.packets && s.nodes.meta[n.id].bytes == n.bytes)
      && (forall e :: e in v.edges ==> e.id in s.edges.meta && s.edges.meta[e.id].volume == e.volume)
  {
    EveryFrameShowsTheCounters(q, sigs, l, ticks);
    hide After, Runs, Synced, Sound, NeverShrinks;
    var s, v := After(q, sigs, l, ticks).screen, ticks[|ticks| - 1].view;
    forall n | n in v.nodes ensures n.id in s.nodes.meta && NodeCounts(s.nodes.meta[n.id]) == NodeCounts(n) {
      var i :| 0 <= i < |v.nodes| && v.nodes[i] == n;
    }
    forall e | e in v.edges ensures e.id in s.edges.meta && EdgeCounts(s.edges.meta[e.id]) == EdgeCounts(e) {
      var i :| 0 <= i < |v.edges| && v.edges[i] == e;
    }
  }
}
