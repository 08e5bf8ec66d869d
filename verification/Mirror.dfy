/** The browser's copy of a view (static/app.js updateGraph, applyPositionFrame, applyCountsFrame). */
module Mirror {
  import opened GraphState
  import opened Views

  /** One data set: the latest data of each item, the item as it was last drawn, and the
      signature it was drawn under. */
  datatype Table<T> = Table(meta: map<string, T>, shown: map<string, T>, sigs: map<string, string>)

  /** Ids seen since a chunked full snapshot began. */
  datatype Sync = Sync(nodes: set<string>, edges: set<string>)

  datatype Screen = Screen(nodes: Table<ViewNode>, edges: Table<ViewEdge>, targets: map<string, Vec>,
    sync: Option<Sync>)

  /** What the browser draws of an item, as one string. */
  datatype Signatures = Signatures(node: ViewNode -> string, edge: ViewEdge -> string)

  function IdSet(ids: seq<string>): set<string> { set id | id in ids }

  function Dropped<T>(t: Table<T>, ids: set<string>): Table<T> { Table(t.meta - ids, t.shown - ids, t.sigs - ids) }

  /** New data always lands; the item is redrawn only under a new signature. */
  function Put<T>(t: Table<T>, k: string, sig: string, item: T): Table<T> {
    if k in t.sigs && t.sigs[k] == sig && k in t.shown then t.(meta := t.meta[k := item])
    else Table(t.meta[k := item], t.shown[k := item], t.sigs[k := sig])
  }

  function PutAll<T(!new)>(t: Table<T>, key: T -> string, sig: T -> string, items: seq<T>): Table<T> {
    if items == [] then t
    else
      var item := items[|items| - 1];
      Put(PutAll(t, key, sig, items[..|items| - 1]), key(item), sig(item), item)
  }

  /** A target closer than half a pixel to the one held is ignored, unless the node is pinned. */
  function Aim(targets: map<string, Vec>, id: string, to: Vec, pinned: bool): map<string, Vec> {
    if id in targets && !pinned && Near(targets[id], to) then targets else targets[id := to]
  }

  predicate Near(a: Vec, b: Vec) { 4 * ((a.x - b.x) * (a.x - b.x) + (a.y - b.y) * (a.y - b.y)) < 1 }

  lemma NearIsEqual(a: Vec, b: Vec)
    ensures Near(a, b) <==> a == b
  {
    SquareAtLeast(a.x - b.x);
    SquareAtLeast(a.y - b.y);
  }

  lemma SquareAtLeast(n: int)
    ensures n * n >= 0 && (n != 0 ==> n * n >= 1)
  {
  }

  function AimAll(targets: map<string, Vec>, nodes: seq<ViewNode>): map<string, Vec> {
    if nodes == [] then targets
    else
      var n := nodes[|nodes| - 1];
      Aim(AimAll(targets, nodes[..|nodes| - 1]), n.id, Place(n), n.pinned)
  }

  // ---- one delta ----

  function Begun(sync: Option<Sync>, d: Delta): Option<Sync> {
    var s := if d.isFull then if d.partial then Some(Sync({}, {})) else None else sync;
    if s.Some? then Some(Sync(s.value.nodes + Keys(NodeKey, d.nodes), s.value.edges + Keys(EdgeKey, d.edges))) else None
  }

  /** A delta applied, before any reconciliation. */
  function Merged(s: Screen, sigs: Signatures, d: Delta): Screen {
    Screen(PutAll(Dropped(s.nodes, IdSet(d.removedNodes)), NodeKey, sigs.node, d.nodes),
           PutAll(Dropped(s.edges, IdSet(d.removedEdges)), EdgeKey, sigs.edge, d.edges),
           AimAll(s.targets - IdSet(d.removedNodes), d.nodes),
           Begun(s.sync, d))
  }

  /** The last message of a full snapshot drops whatever the snapshot did not list. */
  function Reconciled(s: Screen, d: Delta): Screen {
    var keepNodes := if s.sync.Some? then s.sync.value.nodes else Keys(NodeKey, d.nodes);
    var keepEdges := if s.sync.Some? then s.sync.value.edges else Keys(EdgeKey, d.edges);
    var staleNodes, staleEdges := s.nodes.shown.Keys - keepNodes, s.edges.shown.Keys - keepEdges;
    Screen(Dropped(s.nodes, staleNodes), Dropped(s.edges, staleEdges), s.targets - staleNodes, None)
  }

  function Updated(s: Screen, sigs: Signatures, d: Delta): Screen {
    if d.fullDone then Reconciled(Merged(s, sigs, d), d) else Merged(s, sigs, d)
  }

  // ---- side channels ----

  function IsPinned(nodes: Table<ViewNode>, id: string): bool { id in nodes.meta && nodes.meta[id].pinned }

  function Positioned(nodes: Table<ViewNode>, targets: map<string, Vec>, moved: seq<Moved>): map<string, Vec> {
    if moved == [] then targets
    else
      var m := moved[|moved| - 1];
      Aim(Positioned(nodes, targets, moved[..|moved| - 1]), m.id, m.to, IsPinned(nodes, m.id))
  }

  function WithCounts(n: ViewNode, c: Counts): ViewNode { n.(packets := c.packets, bytes := c.bytes) }

  function WithVolume(e: ViewEdge, v: Volume): ViewEdge { e.(volume := v) }

  /** Counters land in the data of known items only; nothing is redrawn. */
  function Recounted<T, V>(t: Table<T>, put: (T, V) -> T, counts: map<string, V>): Table<T> {
    t.(meta := map k | k in t.meta :: if k in counts then put(t.meta[k], counts[k]) else t.meta[k])
  }

  class Page {
    const sigs: Signatures
    var nodes: Table<ViewNode>
    var edges: Table<ViewEdge>
    var targets: map<string, Vec>
    var sync: Option<Sync>

    ghost function Contents(): Screen
      reads this
    {
      Screen(nodes, edges, targets, sync)
    }

    constructor (sigs: Signatures)
      ensures this.sigs == sigs && Contents()
        == Screen(Table(map[], map[], map[]), Table(map[], map[], map[]), map[], None)
    {
      this.sigs := sigs;
      nodes, edges, targets, sync := Table(map[], map[], map[]), Table(map[], map[], map[]), map[], None;
    }

    static method PutItems<T(!new)>(t: Table<T>, key: T -> string, sig: T -> string, items: seq<T>)
      returns (r: Table<T>)
      ensures r == PutAll(t, key, sig, items)
    {
      r := t;
      for i := 0 to |items|
        invariant r == PutAll(t, key, sig, items[..i])
      {
        assert items[..i + 1][..i] == items[..i];
        var k, s := key(items[i]), sig(items[i]);
        r := r.(meta := r.meta[k := items[i]]);
        if k in r.sigs && r.sigs[k] == s && k in r.shown {
          continue;
        }
        r := r.(sigs := r.sigs[k := s], shown := r.shown[k := items[i]]);
      }
      assert items[..|items|] == items;
    }

    method ApplyTargetPosition(id: string, to: Vec, pinned: bool)
      modifies this`targets
      ensures targets == Aim(old(targets), id, to, pinned)
    {
      if id in targets && !pinned {
        var dx, dy := targets[id].x - to.x, targets[id].y - to.y;
        if 4 * (dx * dx + dy * dy) < 1 {
          return;
        }
      }
      targets := targets[id := to];
    }

    method AimNodes(items: seq<ViewNode>)
      modifies this`targets
      ensures targets == AimAll(old(targets), items)
    {
      for i := 0 to |items|
        invariant targets == AimAll(old(targets), items[..i])
      {
        assert items[..i + 1][..i] == items[..i];
        ApplyTargetPosition(items[i].id, Place(items[i]), items[i].pinned);
      }
      assert items[..|items|] == items;
    }

    method UpdateGraph(d: Delta)
      modifies this
      ensures Contents() == Updated(old(Contents()), sigs, d)
    {
      hide Aim, PutAll, Dropped;
      if d.isFull {
        sync := if d.partial then Some(Sync({}, {})) else None;
      }
      if sync.Some? {
        sync := Some(Sync(sync.value.nodes + Keys(NodeKey, d.nodes), sync.value.edges + Keys(EdgeKey, d.edges)));
      }
      nodes := Dropped(nodes, IdSet(d.removedNodes));
      targets := targets - IdSet(d.removedNodes);
      edges := Dropped(edges, IdSet(d.removedEdges));
      nodes := PutItems(nodes, NodeKey, sigs.node, d.nodes);
      AimNodes(d.nodes);
      edges := PutItems(edges, EdgeKey, sigs.edge, d.edges);
      if d.fullDone {
        var keepNodes := if sync.Some? then sync.value.nodes else Keys(NodeKey, d.nodes);
        var keepEdges := if sync.Some? then sync.value.edges else Keys(EdgeKey, d.edges);
        sync := None;
        var staleNodes, staleEdges := nodes.shown.Keys - keepNodes, edges.shown.Keys - keepEdges;
        nodes, targets := Dropped(nodes, staleNodes), targets - staleNodes;
        edges := Dropped(edges, staleEdges);
      }
    }

    method ApplyPositionFrame(moved: seq<Moved>)
      modifies this`targets
      ensures targets == Positioned(nodes, old(targets), moved)
    {
      for i := 0 to |moved|
        invariant targets == Positioned(nodes, old(targets), moved[..i])
      {
        assert moved[..i + 1][..i] == moved[..i];
        var pinned := moved[i].id in nodes.meta && nodes.meta[moved[i].id].pinned;
        ApplyTargetPosition(moved[i].id, moved[i].to, pinned);
      }
      assert moved[..|moved|] == moved;
    }

    static method Recount<T, V>(t: Table<T>, put: (T, V) -> T, counts: map<string, V>) returns (r: Table<T>)
      ensures r == Recounted(t, put, counts)
    {
      r := t;
      var todo := counts.Keys;
      while todo != {}
        invariant todo <= counts.Keys && r.shown == t.shown && r.sigs == t.sigs && r.meta.Keys == t.meta.Keys
        invariant forall k :: k in t.meta ==>
          r.meta[k] == if k in counts && k !in todo then put(t.meta[k], counts[k]) else t.meta[k]
        decreases todo
      {
        var k :| k in todo;
        todo := todo - {k};
        if k in r.meta {
          r := r.(meta := r.meta[k := put(r.meta[k], counts[k])]);
        }
      }
    }

    method ApplyCountsFrame(frame: CountsFrame)
      modifies this`nodes, this`edges
      ensures nodes == Recounted(old(nodes), WithCounts, frame.nodes)
        && edges == Recounted(old(edges), WithVolume, frame.edges)
    {
      nodes := Recount(nodes, WithCounts, frame.nodes);
      edges := Recount(edges, WithVolume, frame.edges);
    }
  }
}
