/** The view protocol end to end: server ticks and an in-order browser (server/websocket.go, static/app.js). */
module ViewRuns {
  import opened GraphState
  import opened Views
  import opened ClientDiff
  import opened Chunks
  import opened Mirror
  import opened MirrorSync

  function NodeKind(q: Quantizer, sigs: Signatures): Kind<ViewNode, Counts> {
    Kind(NodeKey, SameNode(q), sigs.node, NodeCounts, WithCounts, NO_COUNTS, CountsLe)
  }

  function EdgeKind(q: Quantizer, sigs: Signatures): Kind<ViewEdge, Volume> {
    Kind(EdgeKey, SameEdge(q), sigs.edge, EdgeCounts, WithVolume, NOTHING, VolumeLe)
  }

  function CountsLe(a: Counts, b: Counts): bool { a.packets <= b.packets && a.bytes <= b.bytes }

  function VolumeLe(a: Volume, b: Volume): bool {
    && a.packets <= b.packets && a.bytes <= b.bytes && a.forwardPackets <= b.forwardPackets
      && a.reversePackets <= b.reversePackets
    && a.forwardBytes <= b.forwardBytes && a.reverseBytes <= b.reverseBytes
  }

  lemma KindsAreLawful(q: Quantizer, sigs: Signatures)
    ensures Lawful(NodeKind(q, sigs)) && Lawful(EdgeKind(q, sigs))
  {
  }

  // ---- a full snapshot, message by message ----

  function ApplyAll(s: Screen, sigs: Signatures, msgs: seq<Delta>): Screen {
    if msgs == [] then s else Updated(ApplyAll(s, sigs, msgs[..|msgs| - 1]), sigs, msgs[|msgs| - 1])
  }

  /** What the messages so far amount to, before reconciliation. */
  function ChunksInto(s: Screen, sigs: Signatures, d: Delta, nodes: seq<ViewNode>, edges: seq<ViewEdge>,
                      sync: Option<Sync>): Screen {
    Screen(PutAll(Dropped(s.nodes, IdSet(d.removedNodes)), NodeKey, sigs.node, nodes),
           PutAll(Dropped(s.edges, IdSet(d.removedEdges)), EdgeKey, sigs.edge, edges),
           AimAll(s.targets - IdSet(d.removedNodes), nodes), sync)
  }

  function Listed(chunks: seq<Delta>): Sync { Sync(Keys(NodeKey, AllNodes(chunks)), Keys(EdgeKey, AllEdges(chunks))) }

  lemma {:induction false} AimAllAppend(targets: map<string, Vec>, a: seq<ViewNode>, b: seq<ViewNode>)
    ensures AimAll(targets, a + b) == AimAll(AimAll(targets, a), b)
  {
    hide Aim;
    if b == [] {
      assert a + b == a;
    } else {
      assert (a + b)[..|a + b| - 1] == a + b[..|b| - 1];
      AimAllAppend(targets, a, b[..|b| - 1]);
    }
  }

  lemma KeysAppend<T(!new)>(key: T -> string, a: seq<T>, b: seq<T>)
    ensures Keys(key, a + b) == Keys(key, a) + Keys(key, b)
  {
    forall k | k in Keys(key, a) + Keys(key, b) ensures k in Keys(key, a + b) {
      if k in Keys(key, a) {
        var i :| 0 <= i < |a| && key(a[i]) == k;
        assert (a + b)[i] == a[i];
      } else {
        var i :| 0 <= i < |b| && key(b[i]) == k;
        assert (a + b)[|a| + i] == b[i];
      }
    }
  }

  lemma MoreGathered(s: Screen, sigs: Signatures, d: Delta, nodes: seq<ViewNode>, edges: seq<ViewEdge>, c: Delta)
    requires c.removedNodes == [] && c.removedEdges == [] && !c.isFull
    ensures Merged(ChunksInto(s, sigs, d, nodes, edges, Some(Sync(Keys(NodeKey, nodes), Keys(EdgeKey, edges)))), sigs,
      c) ==
            ChunksInto(s, sigs, d, nodes + c.nodes, edges + c.edges,
              Some(Sync(Keys(NodeKey, nodes + c.nodes), Keys(EdgeKey, edges + c.edges))))
  {
    hide PutAll, AimAll, Keys;
    PutAllAppend(Dropped(s.nodes, IdSet(d.removedNodes)), NodeKey, sigs.node, nodes, c.nodes);
    PutAllAppend(Dropped(s.edges, IdSet(d.removedEdges)), EdgeKey, sigs.edge, edges, c.edges);
    AimAllAppend(s.targets - IdSet(d.removedNodes), nodes, c.nodes);
    KeysAppend(NodeKey, nodes, c.nodes);
    KeysAppend(EdgeKey, edges, c.edges);
    DropsNothing(PutAll(Dropped(s.nodes, IdSet(d.removedNodes)), NodeKey, sigs.node, nodes));
    DropsNothing(PutAll(Dropped(s.edges, IdSet(d.removedEdges)), EdgeKey, sigs.edge, edges));
    assert IdSet([]) == {};
    var t := AimAll(s.targets - IdSet(d.removedNodes), nodes);
    assert t - {} == t;
  }

  lemma DropsNothing<T>(t: Table<T>)
    ensures Dropped(t, {}) == t
  {
  }

  lemma {:induction false} ChunksGathered(s: Screen, sigs: Signatures, d: Delta, chunks: seq<Delta>, i: nat)
    requires IsSplit(d, chunks) && d.isFull && !Small(d) && 0 < i <= |chunks|
    ensures var merged := Merged(ApplyAll(s, sigs, chunks[..i - 1]), sigs, chunks[i - 1]);
      merged == ChunksInto(s, sigs, d, AllNodes(chunks[..i]), AllEdges(chunks[..i]), Some(Listed(chunks[..i])))
    ensures i < |chunks| ==>
      ApplyAll(s, sigs, chunks[..i])
        == ChunksInto(s, sigs, d, AllNodes(chunks[..i]), AllEdges(chunks[..i]), Some(Listed(chunks[..i])))
  {
    ChunkMarks(d, chunks);
    hide ChunksInto, IsSplit, Small, Merged;
    var c := chunks[i - 1];
    assert chunks[..i][..i - 1] == chunks[..i - 1] && chunks[..i][i - 1] == c;
    if i == 1 {
      FirstGathered(s, sigs, d, c, chunks);
    } else {
      ChunksGathered(s, sigs, d, chunks, i - 1);
      MoreGathered(s, sigs, d, AllNodes(chunks[..i - 1]), AllEdges(chunks[..i - 1]), c);
    }
  }

  lemma FirstGathered(s: Screen, sigs: Signatures, d: Delta, c: Delta, chunks: seq<Delta>)
    requires IsSplit(d, chunks) && d.isFull && !Small(d) && |chunks| > 0 && c == chunks[0]
    ensures Merged(ApplyAll(s, sigs, chunks[..0]), sigs, c)
      == ChunksInto(s, sigs, d, AllNodes(chunks[..1]), AllEdges(chunks[..1]), Some(Listed(chunks[..1])))
  {
    hide PutAll, AimAll, Dealt, ChunkMap;
    assert c == Chunk(d, 0);
    assert chunks[..1][..0] == [] && chunks[..0] == [];
    assert chunks[..1][0] == c;
    assert AllNodes(chunks[..1]) == AllNodes([]) + c.nodes && AllEdges(chunks[..1]) == AllEdges([]) + c.edges;
    assert AllNodes(chunks[..1]) == c.nodes && AllEdges(chunks[..1]) == c.edges;
    assert {} + Keys(NodeKey, c.nodes) == Keys(NodeKey, c.nodes)
      && {} + Keys(EdgeKey, c.edges) == Keys(EdgeKey, c.edges);
  }

  /** However it is chunked, a full snapshot leaves exactly what its messages listed. */
  lemma FullApplied(s: Screen, sigs: Signatures, d: Delta, chunks: seq<Delta>)
    requires IsSplit(d, chunks) && d.isFull && !d.partial
    ensures var g := ChunksInto(s, sigs, d, AllNodes(chunks), AllEdges(chunks), None);
      var staleNodes := g.nodes.shown.Keys - Keys(NodeKey, AllNodes(chunks));
      var staleEdges := g.edges.shown.Keys - Keys(EdgeKey, AllEdges(chunks));
      ApplyAll(s, sigs, chunks) == Screen(Dropped(g.nodes, staleNodes), Dropped(g.edges, staleEdges),
        g.targets - staleNodes, None)
  {
    hide PutAll, AimAll, Dropped, Keys, Chunk, AllNodes, AllEdges;
    if Small(d) {
      SmallIsWhole(d);
      assert chunks[..0] == [];
      assert ApplyAll(s, sigs, chunks[..|chunks| - 1]) == s;
    } else {
      ChunkMarks(d, chunks);
      ChunksGathered(s, sigs, d, chunks, |chunks|);
      assert chunks[..|chunks|] == chunks;
    }
  }

  // ---- positions ----

  lemma AimIsUpdate(targets: map<string, Vec>, id: string, to: Vec, pinned: bool)
    ensures Aim(targets, id, to, pinned) == targets[id := to]
  {
    if id in targets {
      NearIsEqual(targets[id], to);
      assert targets[id] == to ==> targets[id := to] == targets;
    }
  }

  lemma {:induction false} AimAllAt(targets: map<string, Vec>, nodes: seq<ViewNode>, n: ViewNode)
    requires forall x :: x in nodes && x.id == n.id ==> x == n
    ensures var after := AimAll(targets, nodes);
      if n in nodes then n.id in after && after[n.id] == Place(n)
      else (n.id in after <==> n.id in targets) && (n.id in after ==> after[n.id] == targets[n.id])
  {
    hide Aim;
    if nodes != [] {
      var past, last := nodes[..|nodes| - 1], nodes[|nodes| - 1];
      assert nodes == past + [last];
      AimAllAt(targets, past, n);
      AimIsUpdate(AimAll(targets, past), last.id, Place(last), last.pinned);
    }
  }

  lemma {:induction false} PositionedAt(t: Table<ViewNode>, targets: map<string, Vec>, moved: seq<Moved>, id: string,
                                        to: Vec)
    requires forall m :: m in moved && m.id == id ==> m.to == to
    ensures var after := Positioned(t, targets, moved);
      if Moved(id, to) in moved then id in after && after[id] == to
      else (id in after <==> id in targets) && (id in after ==> after[id] == targets[id])
  {
    hide Aim, IsPinned;
    if moved != [] {
      var past, last := moved[..|moved| - 1], moved[|moved| - 1];
      assert moved == past + [last];
      PositionedAt(t, targets, past, id, to);
      AimIsUpdate(Positioned(t, targets, past), last.id, last.to, IsPinned(t, last.id));
    }
  }

  lemma {:induction false} MovedAre(shipped: map<string, Vec>, nodes: seq<ViewNode>)
    ensures forall m :: m in MovedNodes(shipped, nodes) <==>
      exists n :: n in nodes && m == Moved(n.id, Place(n)) && (n.id !in shipped || shipped[n.id] != Place(n))
  {
    if nodes != [] {
      var past, last := nodes[..|nodes| - 1], nodes[|nodes| - 1];
      MovedAre(shipped, past);
      assert nodes == past + [last];
      var p, q := MovedNodes(shipped, past), MovedNodes(shipped, nodes);
      forall m ensures m in q <==>
        exists n :: n in nodes && m == Moved(n.id, Place(n)) && (n.id !in shipped || shipped[n.id] != Place(n)) {
        assert m in q <==>
          m in p || (m == Moved(last.id, Place(last)) && (last.id !in shipped || shipped[last.id] != Place(last)));
      }
    }
  }

  /** The browser aims every node of the view at its place. */
  ghost predicate Placed(targets: map<string, Vec>, nodes: seq<ViewNode>) {
    forall n :: n in nodes ==> n.id in targets && targets[n.id] == Place(n)
  }

  lemma PositionLands(t: Table<ViewNode>, targets: map<string, Vec>, sent: seq<ViewNode>, shipped: map<string, Vec>,
                      nodes: seq<ViewNode>, n: ViewNode)
    requires Distinct(NodeKey, nodes) && n in nodes && (forall x :: x in sent ==> x in nodes)
    requires n.id in shipped ==> n.id in targets && targets[n.id] == shipped[n.id]
    ensures var after := Positioned(t, AimAll(targets, sent), MovedNodes(shipped, nodes));
      n.id in after && after[n.id] == Place(n)
  {
    hide AimAll, Positioned, MovedNodes, Distinct;
    forall x | x in nodes && x.id == n.id ensures x == n { OneItem(NodeKey, nodes, x, n); }
    AimAllAt(targets, sent, n);
    MovedAre(shipped, nodes);
    forall m | m in MovedNodes(shipped, nodes) && m.id == n.id ensures m.to == Place(n) {
      var x :| x in nodes && m == Moved(x.id, Place(x));
    }
    PositionedAt(t, AimAll(targets, sent), MovedNodes(shipped, nodes), n.id, Place(n));
  }

  // ---- ticks ----

  /** A client's server-side state, its browser, and (for the statements about counters) what was
      shown last of each id. */
  datatype Link = Link(nodes: map<string, ViewNode>, edges: map<string, ViewEdge>, pos: Option<map<string, Vec>>,
    base: Option<Baseline>,
                       screen: Screen, seenNodes: map<string, Counts>, seenEdges: map<string, Volume>)

  /** One tick of a client that is not in raw mode: the view, and what was sent. */
  datatype Tick = Tick(view: View, full: bool, flows: seq<Flow>, now: int, delta: Option<Delta>, chunks: seq<Delta>,
                       moved: seq<Moved>, frame: Option<CountsFrame>, base: Baseline)

  /** What the server sends in a tick (Client.BuildDelta, SplitDelta, BuildPosFrame, BuildCountsFrame). */
  ghost predicate Sends(q: Quantizer, l: Link, t: Tick) {
    && WellShaped(t.view)
    && (t.delta.None? <==> !t.full && t.flows == [] && Unchanged(q, l.nodes, l.edges, t.view))
    && (if t.delta.None? then t.chunks == []
        else IsDelta(q, l.nodes, l.edges, t.view, t.flows, t.full, t.delta.value) && IsSplit(t.delta.value, t.chunks))
    && t.moved == (if l.pos == None || t.full then [] else MovedNodes(l.pos.value, t.view.nodes))
    && SendsCounts(l, t)
  }

  ghost predicate CountsSent(base: Option<Baseline>, v: View, full: bool, now: int, frame: Option<CountsFrame>,
                             after: Baseline) {
    if base == None || full then
      frame == None && after == Baseline(Mapped(NodeKey, NodeCounts, v.nodes), Mapped(EdgeKey, EdgeCounts, v.edges),
        now)
    else if now - base.value.at < COUNTS_INTERVAL then frame == None && after == base.value
    else
      && frame.Some? && after.at == now && frame.value.stats == StatsFor(v)
      && Refreshed(NodeKey, NodeCounts, NO_COUNTS, base.value.nodes, v.nodes, frame.value.nodes, after.nodes)
      && Refreshed(EdgeKey, EdgeCounts, NOTHING, base.value.edges, v.edges, frame.value.edges, after.edges)
  }

  ghost predicate SendsCounts(l: Link, t: Tick) { CountsSent(l.base, t.view, t.full, t.now, t.frame, t.base) }

  function Recount(s: Screen, frame: Option<CountsFrame>): Screen {
    if frame.None? then s
    else s.(nodes := Recounted(s.nodes, WithCounts, frame.value.nodes),
      edges := Recounted(s.edges, WithVolume, frame.value.edges))
  }

  /** The browser after the tick's messages, in the order they were sent. */
  function Received(s: Screen, sigs: Signatures, t: Tick): Screen {
    var s1 := ApplyAll(s, sigs, t.chunks);
    Recount(s1.(targets := Positioned(s1.nodes, s1.targets, t.moved)), t.frame)
  }

  function Next(q: Quantizer, sigs: Signatures, l: Link, t: Tick): Link {
    Link(ById(NodeKey, t.view.nodes), ById(EdgeKey, t.view.edges), Some(Mapped(NodeKey, Place, t.view.nodes)),
      Some(t.base),
         Received(l.screen, sigs, t), Shown(NodeKind(q, sigs), l.seenNodes, t.view.nodes),
           Shown(EdgeKind(q, sigs), l.seenEdges, t.view.edges))
  }

  ghost predicate Sound(q: Quantizer, sigs: Signatures, s: Screen) {
    Coherent(NodeKind(q, sigs), s.nodes) && Coherent(EdgeKind(q, sigs), s.edges)
  }

  /** The browser is in step with the last view sent. */
  ghost predicate InStep(q: Quantizer, sigs: Signatures, l: Link) {
    && Sound(q, sigs, l.screen)
    && Tracks(NodeKind(q, sigs), l.screen.nodes, l.nodes) && Tracks(EdgeKind(q, sigs), l.screen.edges, l.edges)
    && (l.pos.None? ==> l.nodes == map[] && l.edges == map[])
    && (l.pos.Some? ==> forall k :: k in l.pos.value ==> k in l.screen.targets && l.screen.targets[k] == l.pos.value[k])
    && (l.pos.Some? <==> l.base.Some?)
  }

  ghost predicate CountsInStep(q: Quantizer, sigs: Signatures, l: Link) {
    l.base.Some? ==>
      && Between(NodeKind(q, sigs), l.screen.nodes, l.base.value.nodes, l.nodes, l.seenNodes)
      && Between(EdgeKind(q, sigs), l.screen.edges, l.base.value.edges, l.edges, l.seenEdges)
  }

  ghost predicate CountersGrow(q: Quantizer, sigs: Signatures, l: Link, v: View) {
    Growing(NodeKind(q, sigs), l.seenNodes, v.nodes) && Growing(EdgeKind(q, sigs), l.seenEdges, v.edges)
  }

  /** The browser shows the view: exactly its ids, each render-equal and drawn under its signature,
      each node at its place. */
  ghost predicate Shows(q: Quantizer, sigs: Signatures, s: Screen, v: View) {
    && Tracks(NodeKind(q, sigs), s.nodes, ById(NodeKey, v.nodes))
      && Tracks(EdgeKind(q, sigs), s.edges, ById(EdgeKey, v.edges))
    && Placed(s.targets, v.nodes)
  }

  ghost predicate ShowsCounts(q: Quantizer, sigs: Signatures, s: Screen, v: View) {
    CountsAgree(NodeKind(q, sigs), s.nodes, v.nodes) && CountsAgree(EdgeKind(q, sigs), s.edges, v.edges)
  }

  // ---- one tick ----

  lemma {:induction false} AllChanged<T(!new)>(key: T -> string, same: (T, T) -> bool, last: map<string, T>,
                                        items: seq<T>, full: bool)
    requires full || last == map[]
    ensures Changed(key, same, last, items, full) == items
  {
    if items != [] {
      AllChanged(key, same, last, items[..|items| - 1], full);
    }
  }

  lemma {:induction false} AllClosed(ids: set<string>, edges: seq<ViewEdge>)
    requires forall i :: 0 <= i < |edges| ==> edges[i].from in ids && edges[i].to in ids
    ensures Closed(ids, edges) == edges
  {
    if edges != [] {
      AllClosed(ids, edges[..|edges| - 1]);
    }
  }

  lemma SameElements<T>(a: seq<T>, b: seq<T>)
    requires multiset(a) == multiset(b)
    ensures forall x :: x in a <==> x in b
  {
    forall x ensures x in a <==> x in b {
      assert x in a <==> x in multiset(a);
      assert x in b <==> x in multiset(b);
    }
  }

  /** Both tables hold exactly the view's items, as sent. */
  ghost predicate Arrived(q: Quantizer, sigs: Signatures, before: Screen, s: Screen, l: Link, v: View, full: bool) {
    && Sound(q, sigs, s)
    && Tracks(NodeKind(q, sigs), s.nodes, ById(NodeKey, v.nodes))
      && Tracks(EdgeKind(q, sigs), s.edges, ById(EdgeKey, v.edges))
    && Carried(before.nodes, s.nodes, if full then map[] else l.nodes, ById(NodeKey, v.nodes), full)
    && Carried(before.edges, s.edges, if full then map[] else l.edges, ById(EdgeKey, v.edges), full)
  }

  lemma FullDelta(q: Quantizer, l: Link, t: Tick)
    requires Sends(q, l, t) && t.full
    ensures t.delta.Some? && IsSplit(t.delta.value, t.chunks) && t.delta.value.isFull && !t.delta.value.partial
    ensures AllNodes(t.chunks) == t.view.nodes && (forall e :: e in AllEdges(t.chunks) <==> e in t.view.edges)
    ensures t.moved == []
  {
    hide IsSplit, Changed, Unchanged, SendsCounts, Distinct, Keys, Closed, MovedNodes, StatsFor;
    var d := t.delta.value;
    AllChanged(NodeKey, SameNode(q), l.nodes, t.view.nodes, true);
    AllChanged(EdgeKey, SameEdge(q), l.edges, t.view.edges, true);
    AllClosed(Keys(NodeKey, t.view.nodes), t.view.edges);
    SplittingIsFaithful(d, t.chunks);
    SameElements(AllEdges(t.chunks), t.view.edges);
  }

  lemma FullArrives(q: Quantizer, sigs: Signatures, l: Link, t: Tick)
    requires Sends(q, l, t) && t.full && Sound(q, sigs, l.screen)
    ensures Arrived(q, sigs, l.screen, ApplyAll(l.screen, sigs, t.chunks), l, t.view, true)
    ensures Placed(ApplyAll(l.screen, sigs, t.chunks).targets, t.view.nodes)
  {
    hide PutAll, AimAll, Dropped, Keys, ById, Tracks, Coherent, Carried, Lawful, Distinct, IsSplit, SendsCounts,
         Unchanged, IsDelta, ApplyAll, AllNodes, AllEdges, Placed;
    KindsAreLawful(q, sigs);
    FullDelta(q, l, t);
    var d := t.delta.value;
    FullApplied(l.screen, sigs, d, t.chunks);
    FullTracks(NodeKind(q, sigs), l.screen.nodes, t.view.nodes, AllNodes(t.chunks), IdSet(d.removedNodes));
    FullTracks(EdgeKind(q, sigs), l.screen.edges, t.view.edges, AllEdges(t.chunks), IdSet(d.removedEdges));
    SameKeys(EdgeKey, t.view.edges, AllEdges(t.chunks));
    var g := ChunksInto(l.screen, sigs, d, AllNodes(t.chunks), AllEdges(t.chunks), None);
    AimedAll(l.screen.targets - IdSet(d.removedNodes), t.view.nodes, g.nodes.shown.Keys - Keys(NodeKey, t.view.nodes));
  }

  lemma AimedAll(targets: map<string, Vec>, nodes: seq<ViewNode>, stale: set<string>)
    requires Distinct(NodeKey, nodes) && stale !! Keys(NodeKey, nodes)
    ensures Placed(AimAll(targets, nodes) - stale, nodes)
  {
    hide AimAll, Distinct;
    forall n | n in nodes ensures n.id in AimAll(targets, nodes) - stale && AimAll(targets, nodes)[n.id] == Place(n) {
      forall x | x in nodes && x.id == n.id ensures x == n { OneItem(NodeKey, nodes, x, n); }
      AimAllAt(targets, nodes, n);
      KeyOf(NodeKey, nodes, n);
    }
  }

  /** What a tick without a full snapshot removes and brings. */
  lemma DeltaApplied(q: Quantizer, sigs: Signatures, l: Link, t: Tick)
    returns (goneNodes: seq<string>, goneEdges: seq<string>)
    requires Sends(q, l, t) && !t.full
    ensures Lists(goneNodes, l.nodes.Keys - Keys(NodeKey, t.view.nodes))
      && Lists(goneEdges, l.edges.Keys - Keys(EdgeKey, t.view.edges))
    ensures var s1 := ApplyAll(l.screen, sigs, t.chunks);
      && s1.nodes == PutAll(Dropped(l.screen.nodes, IdSet(goneNodes)), NodeKey, sigs.node,
        Changed(NodeKey, SameNode(q), l.nodes, t.view.nodes, false))
      && s1.edges == PutAll(Dropped(l.screen.edges, IdSet(goneEdges)), EdgeKey, sigs.edge,
        Changed(EdgeKey, SameEdge(q), l.edges, t.view.edges, false))
      && s1.targets == AimAll(l.screen.targets - IdSet(goneNodes),
        Changed(NodeKey, SameNode(q), l.nodes, t.view.nodes, false))
  {
    hide Keys, Changed, SendsCounts, MovedNodes, WellShaped;
    if t.delta.None? {
      goneNodes, goneEdges := [], [];
      DropsNothing(l.screen.nodes);
      DropsNothing(l.screen.edges);
      assert IdSet([]) == {} && l.screen.targets - {} == l.screen.targets;
    } else {
      var d := t.delta.value;
      goneNodes, goneEdges := d.removedNodes, d.removedEdges;
      assert t.chunks == [d.(fullDone := false)] && t.chunks[..0] == [];
      assert ApplyAll(l.screen, sigs, t.chunks) == Updated(ApplyAll(l.screen, sigs, []), sigs, d.(fullDone := false));
    }
  }

  lemma DeltaArrives(q: Quantizer, sigs: Signatures, l: Link, t: Tick)
    requires Sends(q, l, t) && !t.full && InStep(q, sigs, l)
    ensures var s1 := ApplyAll(l.screen, sigs, t.chunks);
      Arrived(q, sigs, l.screen, s1, l, t.view, false)
        && Placed(Positioned(s1.nodes, s1.targets, t.moved), t.view.nodes)
  {
    hide PutAll, AimAll, Dropped, Keys, ById, Tracks, Coherent, Carried, Lawful, Distinct, IsSplit, SendsCounts,
         Unchanged, IsDelta, ApplyAll, Changed, MovedNodes, Positioned, Lists;
    KindsAreLawful(q, sigs);
    var goneNodes, goneEdges := DeltaApplied(q, sigs, l, t);
    DeltaTracks(NodeKind(q, sigs), l.screen.nodes, l.nodes, t.view.nodes, goneNodes, false);
    DeltaTracks(EdgeKind(q, sigs), l.screen.edges, l.edges, t.view.edges, goneEdges, false);
    DeltaPlaces(q, sigs, l, t, goneNodes);
  }

  lemma DeltaPlaces(q: Quantizer, sigs: Signatures, l: Link, t: Tick, gone: seq<string>)
    requires Sends(q, l, t) && !t.full && InStep(q, sigs, l) && Lists(gone, l.nodes.Keys - Keys(NodeKey, t.view.nodes))
    ensures var s1 := ApplyAll(l.screen, sigs, t.chunks);
      var targets :=
        AimAll(l.screen.targets - IdSet(gone), Changed(NodeKey, SameNode(q), l.nodes, t.view.nodes, false));
      Placed(Positioned(s1.nodes, targets, t.moved), t.view.nodes)
  {
    hide PutAll, AimAll, Keys, Tracks, Coherent, Distinct, IsSplit, SendsCounts, Unchanged, IsDelta, ApplyAll, Changed,
         MovedNodes, NodeRenderEqual;
    var sent := Changed(NodeKey, SameNode(q), l.nodes, t.view.nodes, false);
    var targets, table := l.screen.targets - IdSet(gone), ApplyAll(l.screen, sigs, t.chunks).nodes;
    if l.pos.None? {
      AllChanged(NodeKey, SameNode(q), l.nodes, t.view.nodes, false);
      AimedAll(targets, t.view.nodes, {});
      assert AimAll(targets, sent) - {} == AimAll(targets, sent);
    } else {
      ChangedItems(NodeKey, SameNode(q), l.nodes, t.view.nodes, false);
      forall n | n in t.view.nodes
        ensures n.id in Positioned(table, AimAll(targets, sent), t.moved)
          && Positioned(table, AimAll(targets, sent), t.moved)[n.id] == Place(n)
      {
        KeyOf(NodeKey, t.view.nodes, n);
        assert n.id !in gone;
        PositionLands(table, targets, sent, l.pos.value, t.view.nodes, n);
      }
    }
  }

  lemma RecountKeeps(q: Quantizer, sigs: Signatures, l: Link, t: Tick, before: Screen, s: Screen)
    requires SendsCounts(l, t) && WellShaped(t.view) && Arrived(q, sigs, before, s, l, t.view, t.full)
    ensures Sound(q, sigs, Recount(s, t.frame)) && Recount(s, t.frame).targets == s.targets
    ensures Tracks(NodeKind(q, sigs), Recount(s, t.frame).nodes, ById(NodeKey, t.view.nodes))
    ensures Tracks(EdgeKind(q, sigs), Recount(s, t.frame).edges, ById(EdgeKey, t.view.edges))
  {
    hide ById, Tracks, Coherent, Carried, Lawful, Distinct, Refreshed, Recounted, Mapped;
    KindsAreLawful(q, sigs);
    if t.frame.Some? {
      FrameTracks(NodeKind(q, sigs), s.nodes, t.view.nodes, l.base.value.nodes, t.frame.value.nodes, t.base.nodes);
      FrameTracks(EdgeKind(q, sigs), s.edges, t.view.edges, l.base.value.edges, t.frame.value.edges, t.base.edges);
    }
  }

  /** A full tick brings any browser into step; every other tick keeps one in step that was. */
  lemma TickKeepsInStep(q: Quantizer, sigs: Signatures, l: Link, t: Tick)
    requires Sends(q, l, t) && Sound(q, sigs, l.screen) && (t.full || InStep(q, sigs, l))
    ensures InStep(q, sigs, Next(q, sigs, l, t)) && Shows(q, sigs, Next(q, sigs, l, t).screen, t.view)
  {
    hide Tracks, Coherent, Carried, Lawful, Distinct, IsSplit, SendsCounts, Unchanged, IsDelta, ApplyAll, MovedNodes,
         Recounted, ById, Mapped, Shown, Positioned, Placed, Recount;
    var s1 := ApplyAll(l.screen, sigs, t.chunks);
    var s2 := s1.(targets := Positioned(s1.nodes, s1.targets, t.moved));
    if t.full {
      FullArrives(q, sigs, l, t);
      FullDelta(q, l, t);
      assert Positioned(s1.nodes, s1.targets, t.moved) == s1.targets by { NothingMoved(s1.nodes, s1.targets); }
    } else {
      DeltaArrives(q, sigs, l, t);
    }
    RecountKeeps(q, sigs, l, t, l.screen, s2);
    PlacedIsShipped(s2.targets, t.view.nodes);
  }

  lemma NothingMoved(t: Table<ViewNode>, targets: map<string, Vec>)
    ensures Positioned(t, targets, []) == targets
  {
  }

  lemma PlacedIsShipped(targets: map<string, Vec>, nodes: seq<ViewNode>)
    requires Placed(targets, nodes) && Distinct(NodeKey, nodes)
    ensures forall k :: k in Mapped(NodeKey, Place, nodes) ==>
      k in targets && targets[k] == Mapped(NodeKey, Place, nodes)[k]
  {
    MappedOf(NodeKey, Place, nodes);
    forall k | k in Mapped(NodeKey, Place, nodes)
      ensures k in targets && targets[k] == Mapped(NodeKey, Place, nodes)[k] {
      var i :| 0 <= i < |nodes| && NodeKey(nodes[i]) == k;
      assert nodes[i] in nodes;
    }
  }

  // ---- counters ----

  lemma TickKeepsCounts(q: Quantizer, sigs: Signatures, l: Link, t: Tick)
    requires Sends(q, l, t) && Sound(q, sigs, l.screen) && CountersGrow(q, sigs, l, t.view)
    requires t.full || (InStep(q, sigs, l) && CountsInStep(q, sigs, l))
    ensures CountsInStep(q, sigs, Next(q, sigs, l, t))
    ensures t.full || t.frame.Some? ==> ShowsCounts(q, sigs, Next(q, sigs, l, t).screen, t.view)
  {
    hide Tracks, Coherent, Carried, Lawful, Distinct, IsSplit, SendsCounts, Unchanged, IsDelta, ApplyAll, MovedNodes,
         Recounted, ById, Mapped, Shown,
      Positioned, Placed, Recount, Between, Growing, CountsAgree;
    var s1 := ApplyAll(l.screen, sigs, t.chunks);
    if t.full {
      FullArrives(q, sigs, l, t);
    } else {
      DeltaArrives(q, sigs, l, t);
    }
    CountsArrive(q, sigs, l, t, s1.(targets := Positioned(s1.nodes, s1.targets, t.moved)));
  }

  lemma CountsArrive(q: Quantizer, sigs: Signatures, l: Link, t: Tick, s: Screen)
    requires SendsCounts(l, t) && WellShaped(t.view) && CountersGrow(q, sigs, l, t.view)
    requires t.full || (InStep(q, sigs, l) && CountsInStep(q, sigs, l))
    requires Arrived(q, sigs, l.screen, s, l, t.view, t.full)
    ensures CountsInStep(q, sigs, Next(q, sigs, l, t).(screen := Recount(s, t.frame)))
    ensures t.full || t.frame.Some? ==> ShowsCounts(q, sigs, Recount(s, t.frame), t.view)
  {
    hide Tracks, Coherent, Carried, Lawful, Distinct, ApplyAll, Recounted, ById, Mapped, Shown, Between, Growing,
         Refreshed, CountsAgree;
    KindsAreLawful(q, sigs);
    var nk, ek := NodeKind(q, sigs), EdgeKind(q, sigs);
    if l.base.None? || t.full {
      BaselineBetween(nk, l.screen.nodes, s.nodes, if t.full then map[]
        else l.nodes, l.seenNodes, t.view.nodes, t.full);
      BaselineBetween(ek, l.screen.edges, s.edges, if t.full then map[]
        else l.edges, l.seenEdges, t.view.edges, t.full);
    } else {
      DeltaBetween(nk, l.screen.nodes, s.nodes, l.base.value.nodes, l.nodes, l.seenNodes, t.view.nodes, false);
      DeltaBetween(ek, l.screen.edges, s.edges, l.base.value.edges, l.edges, l.seenEdges, t.view.edges, false);
      if t.frame.Some? {
        FrameLands(nk, s.nodes, t.view.nodes, l.base.value.nodes, t.frame.value.nodes, t.base.nodes, l.seenNodes);
        FrameLands(ek, s.edges, t.view.edges, l.base.value.edges, t.frame.value.edges, t.base.edges, l.seenEdges);
      }
    }
  }

  // ---- every run ----

  function After(q: Quantizer, sigs: Signatures, l: Link, ticks: seq<Tick>): Link {
    if ticks == [] then l else Next(q, sigs, After(q, sigs, l, ticks[..|ticks| - 1]), ticks[|ticks| - 1])
  }

  /** Each tick sends what the server's methods make of the state it finds. */
  ghost predicate Runs(q: Quantizer, sigs: Signatures, l: Link, ticks: seq<Tick>) {
    ticks == [] || (Runs(q, sigs, l, ticks[..|ticks| - 1])
      && Sends(q, After(q, sigs, l, ticks[..|ticks| - 1]), ticks[|ticks| - 1]))
  }

  /** The run began in step, as a fresh page does, or has since brought a full snapshot, as every
      new connection does. */
  ghost predicate Synced(q: Quantizer, sigs: Signatures, l: Link, ticks: seq<Tick>) {
    if ticks == [] then InStep(q, sigs, l) && CountsInStep(q, sigs, l)
    else ticks[|ticks| - 1].full || Synced(q, sigs, l, ticks[..|ticks| - 1])
  }

  /** No counter of any id was ever smaller than in an earlier view. */
  ghost predicate NeverShrinks(q: Quantizer, sigs: Signatures, l: Link, ticks: seq<Tick>) {
    ticks == [] || (NeverShrinks(q, sigs, l, ticks[..|ticks| - 1])
                    && CountersGrow(q, sigs, After(q, sigs, l, ticks[..|ticks| - 1]), ticks[|ticks| - 1].view))
  }

  lemma {:induction false} PutAllCoherent<T(!new), V(!new)>(kind: Kind<T, V>, t: Table<T>, items: seq<T>)
    requires Coherent(kind, t)
    ensures Coherent(kind, PutAll(t, kind.key, kind.sig, items))
  {
    hide Put, CoherentAt;
    if items != [] {
      var past, last := items[..|items| - 1], items[|items| - 1];
      PutAllCoherent(kind, t, past);
      forall k ensures CoherentAt(kind, PutAll(t, kind.key, kind.sig, items), k) {
        PutAt(kind, PutAll(t, kind.key, kind.sig, past), last, k);
      }
    }
  }

  lemma DroppedIsCoherent<T(!new), V(!new)>(kind: Kind<T, V>, t: Table<T>, ids: set<string>)
    requires Coherent(kind, t)
    ensures Coherent(kind, Dropped(t, ids))
  {
    hide CoherentAt, Dropped;
    forall k ensures CoherentAt(kind, Dropped(t, ids), k) { DroppedCoherent(kind, t, ids, k); }
  }

  lemma RecountedIsCoherent<T(!new), V(!new)>(kind: Kind<T, V>, t: Table<T>, counts: map<string, V>)
    requires Coherent(kind, t)
    ensures Coherent(kind, Recounted(t, kind.put, counts))
  {
    hide CoherentAt, Recounted;
    forall k ensures CoherentAt(kind, Recounted(t, kind.put, counts), k) { RecountCoherent(kind, t, counts, k); }
  }

  /** Whatever arrives, the browser's own tables stay consistent. */
  lemma UpdateKeepsSound(q: Quantizer, sigs: Signatures, s: Screen, d: Delta)
    requires Sound(q, sigs, s)
    ensures Sound(q, sigs, Updated(s, sigs, d))
  {
    hide Coherent, PutAll, Dropped, AimAll, Keys;
    var nk, ek := NodeKind(q, sigs), EdgeKind(q, sigs);
    DroppedIsCoherent(nk, s.nodes, IdSet(d.removedNodes));
    DroppedIsCoherent(ek, s.edges, IdSet(d.removedEdges));
    PutAllCoherent(nk, Dropped(s.nodes, IdSet(d.removedNodes)), d.nodes);
    PutAllCoherent(ek, Dropped(s.edges, IdSet(d.removedEdges)), d.edges);
    var m := Merged(s, sigs, d);
    forall ids ensures Coherent(nk, Dropped(m.nodes, ids)) && Coherent(ek, Dropped(m.edges, ids)) {
      DroppedIsCoherent(nk, m.nodes, ids);
      DroppedIsCoherent(ek, m.edges, ids);
    }
  }

  lemma {:induction false} UpdatesKeepSound(q: Quantizer, sigs: Signatures, s: Screen, msgs: seq<Delta>)
    requires Sound(q, sigs, s)
    ensures Sound(q, sigs, ApplyAll(s, sigs, msgs))
  {
    hide Sound, Updated;
    if msgs != [] {
      UpdatesKeepSound(q, sigs, s, msgs[..|msgs| - 1]);
      UpdateKeepsSound(q, sigs, ApplyAll(s, sigs, msgs[..|msgs| - 1]), msgs[|msgs| - 1]);
    }
  }

  lemma TickKeepsSound(q: Quantizer, sigs: Signatures, l: Link, t: Tick)
    requires Sound(q, sigs, l.screen)
    ensures Sound(q, sigs, Next(q, sigs, l, t).screen)
  {
    hide Coherent, ApplyAll, Positioned, Recounted, ById, Mapped, Shown;
    UpdatesKeepSound(q, sigs, l.screen, t.chunks);
    var s1 := ApplyAll(l.screen, sigs, t.chunks);
    if t.frame.Some? {
      RecountedIsCoherent(NodeKind(q, sigs), s1.nodes, t.frame.value.nodes);
      RecountedIsCoherent(EdgeKind(q, sigs), s1.edges, t.frame.value.edges);
    }
  }

  lemma {:induction false} RunsKeepInStep(q: Quantizer, sigs: Signatures, l: Link, ticks: seq<Tick>)
    requires Sound(q, sigs, l.screen) && Runs(q, sigs, l, ticks)
    ensures Sound(q, sigs, After(q, sigs, l, ticks).screen)
    ensures Synced(q, sigs, l, ticks) ==> InStep(q, sigs, After(q, sigs, l, ticks))
    ensures Synced(q, sigs, l, ticks) && NeverShrinks(q, sigs, l, ticks) ==>
      CountsInStep(q, sigs, After(q, sigs, l, ticks))
  {
    hide Sound, Next, Sends, InStep, CountsInStep, CountersGrow, Shows, ShowsCounts;
    if ticks != [] {
      var past, t := ticks[..|ticks| - 1], ticks[|ticks| - 1];
      RunsKeepInStep(q, sigs, l, past);
      var before := After(q, sigs, l, past);
      TickKeepsSound(q, sigs, before, t);
      if Synced(q, sigs, l, ticks) {
        TickKeepsInStep(q, sigs, before, t);
        if NeverShrinks(q, sigs, l, ticks) {
          TickKeepsCounts(q, sigs, before, t);
        }
      }
    }
  }

  /** After every tick of every run that began in step or has had a full snapshot, whatever the browser held
      before: it shows exactly the view's nodes and edges, each render-equal, each node at its place. */
  lemma EveryTickShowsTheView(q: Quantizer, sigs: Signatures, l: Link, ticks: seq<Tick>)
    requires Sound(q, sigs, l.screen) && ticks != [] && Runs(q, sigs, l, ticks) && Synced(q, sigs, l, ticks)
    ensures Shows(q, sigs, After(q, sigs, l, ticks).screen, ticks[|ticks| - 1].view)
  {
    hide Sound, Next, Sends, InStep, CountsInStep, Shows;
    var past, t := ticks[..|ticks| - 1], ticks[|ticks| - 1];
    RunsKeepInStep(q, sigs, l, past);
    TickKeepsInStep(q, sigs, After(q, sigs, l, past), t);
  }

  /** If no counter ever shrank, every counts frame and every full snapshot leaves all counters of the
      browser equal to the view's, although deltas carry counters too. */
  lemma EveryFrameShowsTheCounters(q: Quantizer, sigs: Signatures, l: Link, ticks: seq<Tick>)
    requires Sound(q, sigs, l.screen) && ticks != [] && Runs(q, sigs, l, ticks) && Synced(q, sigs, l, ticks)
    requires NeverShrinks(q, sigs, l, ticks) && (ticks[|ticks| - 1].frame.Some? || ticks[|ticks| - 1].full)
    ensures ShowsCounts(q, sigs, After(q, sigs, l, ticks).screen, ticks[|ticks| - 1].view)
  {
    hide Sound, Next, Sends, InStep, CountsInStep, CountersGrow, ShowsCounts;
    var past, t := ticks[..|ticks| - 1], ticks[|ticks| - 1];
    RunsKeepInStep(q, sigs, l, past);
    TickKeepsCounts(q, sigs, After(q, sigs, l, past), t);
  }
}
