/** Chunked full snapshots (server/websocket.go splitDelta). */
module Chunks {
  import opened GraphState
  import opened Views
  import opened ClientDiff

  /** Which chunk carries each node. */
  function ChunkMap(nodes: seq<ViewNode>): map<string, int> {
    if nodes == [] then map[] else ChunkMap(nodes[..|nodes| - 1])[nodes[|nodes| - 1].id :=
      (|nodes| - 1) / FULL_CHUNK_SIZE]
  }

  /** The chunk that can carry an edge: the later of its endpoints' chunks; none if an endpoint is missing. */
  function ChunkOfEdge(chunkOf: map<string, int>, e: ViewEdge): int {
    if e.from !in chunkOf || e.to !in chunkOf then -1
    else if chunkOf[e.to] > chunkOf[e.from] then chunkOf[e.to] else chunkOf[e.from]
  }

  function Dealt(chunkOf: map<string, int>, edges: seq<ViewEdge>, c: int): seq<ViewEdge> {
    if edges == [] then []
    else
      var past := Dealt(chunkOf, edges[..|edges| - 1], c);
      if ChunkOfEdge(chunkOf, edges[|edges| - 1]) == c then past + [edges[|edges| - 1]] else past
  }

  function ChunkCount(d: Delta): nat { (|d.nodes| + FULL_CHUNK_SIZE - 1) / FULL_CHUNK_SIZE }

  function ChunkEnd(d: Delta, i: nat): nat {
    if (i + 1) * FULL_CHUNK_SIZE > |d.nodes| then |d.nodes| else (i + 1) * FULL_CHUNK_SIZE
  }

  predicate Small(d: Delta) { !d.isFull || |d.nodes| <= FULL_CHUNK_SIZE }

  /** Chunk `i` before the first and the last are marked. */
  function Plainly(d: Delta, edges: seq<ViewEdge>, i: nat): Delta
    requires i < ChunkCount(d)
  {
    Delta(d.nodes[i * FULL_CHUNK_SIZE..ChunkEnd(d, i)], Dealt(ChunkMap(d.nodes), edges, i), [], [], None, false, true,
      false)
  }

  function Chunk(d: Delta, i: nat): Delta
    requires i < ChunkCount(d)
  {
    var c := Plainly(d, d.edges, i);
    var c1 := if i == 0 then c.(isFull := true, removedNodes := d.removedNodes, removedEdges := d.removedEdges,
      extras := d.extras) else c;
    if i == ChunkCount(d) - 1 then c1.(fullDone := true) else c1
  }

  ghost predicate IsSplit(d: Delta, chunks: seq<Delta>) {
    if Small(d) then chunks == [d.(fullDone := d.isFull)]
    else |chunks| == ChunkCount(d) && forall i :: 0 <= i < |chunks| ==> chunks[i] == Chunk(d, i)
  }

  /** Chunks hold 150 nodes, but for the last, which may hold fewer. */
  lemma ChunksAreSmall(d: Delta, chunks: seq<Delta>)
    requires IsSplit(d, chunks)
    ensures d.isFull ==> forall i :: 0 <= i < |chunks| ==>
      |chunks[i].nodes| <= 150 && (i < |chunks| - 1 ==> |chunks[i].nodes| == 150)
    ensures !d.isFull ==> |chunks| == 1
  {
    hide Dealt, ChunkMap;
    if !Small(d) {
      forall i | 0 <= i < |chunks|
        ensures |chunks[i].nodes| <= 150 && (i < |chunks| - 1 ==> |chunks[i].nodes| == 150)
      {
        assert chunks[i] == Chunk(d, i);
      }
    }
  }

  lemma {:induction false} ChunkMapAt(nodes: seq<ViewNode>, i: nat)
    requires Distinct(NodeKey, nodes) && i < |nodes|
    ensures nodes[i].id in ChunkMap(nodes) && ChunkMap(nodes)[nodes[i].id] == i / FULL_CHUNK_SIZE
  {
    if i < |nodes| - 1 {
      assert NodeKey(nodes[i]) != NodeKey(nodes[|nodes| - 1]);
      ChunkMapAt(nodes[..|nodes| - 1], i);
    }
  }

  lemma {:induction false} ChunkMapKeys(nodes: seq<ViewNode>)
    ensures ChunkMap(nodes).Keys == Keys(NodeKey, nodes)
  {
    if nodes != [] {
      hide Keys;
      KeysGrow(NodeKey, nodes);
      ChunkMapKeys(nodes[..|nodes| - 1]);
    }
  }

  lemma ChunkInRange(nodes: seq<ViewNode>, id: string)
    requires Distinct(NodeKey, nodes) && id in ChunkMap(nodes)
    ensures 0 <= ChunkMap(nodes)[id] < (|nodes| + FULL_CHUNK_SIZE - 1) / FULL_CHUNK_SIZE
  {
  }

  method SplitDelta(d: Delta) returns (chunks: seq<Delta>)
    requires Distinct(NodeKey, d.nodes) && !d.fullDone
    ensures IsSplit(d, chunks)
  {
    if !d.isFull || |d.nodes| <= FULL_CHUNK_SIZE {
      return [d.(fullDone := d.isFull)];
    }
    hide Distinct, NodeKey, Plainly, Chunk;
    var chunkOf: map<string, int> := map[];
    for i := 0 to |d.nodes|
      invariant chunkOf == ChunkMap(d.nodes[..i])
    {
      assert d.nodes[..i + 1][..i] == d.nodes[..i];
      chunkOf := chunkOf[d.nodes[i].id := i / FULL_CHUNK_SIZE];
    }
    assert d.nodes[..|d.nodes|] == d.nodes;
    chunks := NodeChunks(d);
    chunks := DealEdges(d, chunkOf, chunks);
    chunks := Marked(d, chunks);
  }

  method Marked(d: Delta, plain: seq<Delta>) returns (chunks: seq<Delta>)
    requires |plain| == ChunkCount(d) > 0 && forall j :: 0 <= j < |plain| ==> plain[j] == Plainly(d, d.edges, j)
    ensures |chunks| == ChunkCount(d) && forall j :: 0 <= j < |chunks| ==> chunks[j] == Chunk(d, j)
  {
    hide Plainly;
    chunks := plain;
    chunks := chunks[0 :=
      chunks[0].(isFull := true, partial := true, removedNodes := d.removedNodes, removedEdges := d.removedEdges,
        extras := d.extras)];
    chunks := chunks[|chunks| - 1 := chunks[|chunks| - 1].(fullDone := true)];
    IsPartial(d);
  }

  lemma IsPartial(d: Delta)
    requires ChunkCount(d) > 0
    ensures Plainly(d, d.edges, 0).partial
  {
  }

  method NodeChunks(d: Delta) returns (chunks: seq<Delta>)
    ensures |chunks| == ChunkCount(d) && forall j :: 0 <= j < |chunks| ==> chunks[j] == Plainly(d, [], j)
  {
    hide ChunkMap;
    chunks := [];
    for i := 0 to (|d.nodes| + FULL_CHUNK_SIZE - 1) / FULL_CHUNK_SIZE
      invariant |chunks| == i && forall j :: 0 <= j < i ==> chunks[j] == Plainly(d, [], j)
    {
      var lo := i * FULL_CHUNK_SIZE;
      var hi := lo + FULL_CHUNK_SIZE;
      if hi > |d.nodes| { hi := |d.nodes|; }
      chunks := chunks + [Delta(d.nodes[lo..hi], [], [], [], None, false, true, false)];
    }
  }

  method DealEdges(d: Delta, chunkOf: map<string, int>, plain: seq<Delta>) returns (chunks: seq<Delta>)
    requires Distinct(NodeKey, d.nodes) && chunkOf == ChunkMap(d.nodes)
    requires |plain| == ChunkCount(d) && forall j :: 0 <= j < |plain| ==> plain[j] == Plainly(d, [], j)
    ensures |chunks| == |plain| && forall j :: 0 <= j < |chunks| ==> chunks[j] == Plainly(d, d.edges, j)
  {
    hide Distinct, ChunkMap, Plainly, NodeKey;
    chunks := plain;
    for i := 0 to |d.edges|
      invariant |chunks| == |plain| && forall j :: 0 <= j < |chunks| ==> chunks[j] == Plainly(d, d.edges[..i], j)
    {
      ghost var dealt := d.edges[..i + 1];
      assert dealt[..|dealt| - 1] == d.edges[..i] && dealt[|dealt| - 1] == d.edges[i];
      forall j: nat | j < |plain|
        ensures Plainly(d, dealt, j) == if ChunkOfEdge(chunkOf, d.edges[i]) == j
          then With(Plainly(d, d.edges[..i], j), d.edges[i]) else Plainly(d, d.edges[..i], j)
      {
        PlainlyMore(d, dealt, j);
      }
      var e := d.edges[i];
      if e.from in chunkOf && e.to in chunkOf {
        var ci, cj := chunkOf[e.from], chunkOf[e.to];
        ChunkInRange(d.nodes, e.from);
        ChunkInRange(d.nodes, e.to);
        if cj > ci { ci := cj; }
        chunks := chunks[ci := With(chunks[ci], e)];
      }
    }
    assert d.edges[..|d.edges|] == d.edges;
  }

  function With(d: Delta, e: ViewEdge): Delta { d.(edges := d.edges + [e]) }

  lemma PlainlyMore(d: Delta, edges: seq<ViewEdge>, j: nat)
    requires j < ChunkCount(d) && edges != []
    ensures var past, e := edges[..|edges| - 1], edges[|edges| - 1];
      Plainly(d, edges, j) == if ChunkOfEdge(ChunkMap(d.nodes), e) == j then With(Plainly(d, past, j), e)
        else Plainly(d, past, j)
  {
  }

  // ---- what the chunks amount to ----

  function AllNodes(chunks: seq<Delta>): seq<ViewNode> {
    if chunks == [] then [] else AllNodes(chunks[..|chunks| - 1]) + chunks[|chunks| - 1].nodes
  }

  function AllEdges(chunks: seq<Delta>): seq<ViewEdge> {
    if chunks == [] then [] else AllEdges(chunks[..|chunks| - 1]) + chunks[|chunks| - 1].edges
  }

  lemma {:induction false} NodesSoFar(d: Delta, chunks: seq<Delta>, i: nat)
    requires IsSplit(d, chunks) && !Small(d) && i <= |chunks|
    ensures AllNodes(chunks[..i]) == if i == 0 then [] else d.nodes[..ChunkEnd(d, i - 1)]
  {
    hide ChunkMap, Dealt;
    if i > 0 {
      NodesSoFar(d, chunks, i - 1);
      assert chunks[..i][..i - 1] == chunks[..i - 1];
      assert chunks[..i][i - 1] == Chunk(d, i - 1);
      ChunkJoins(d, i - 1);
    }
  }

  lemma ChunkJoins(d: Delta, i: nat)
    requires i < ChunkCount(d)
    ensures i > 0 ==> ChunkEnd(d, i - 1) == i * FULL_CHUNK_SIZE
    ensures d.nodes[..i * FULL_CHUNK_SIZE] + d.nodes[i * FULL_CHUNK_SIZE..ChunkEnd(d, i)] == d.nodes[..ChunkEnd(d, i)]
  {
  }

  function Shippable(d: Delta): seq<ViewEdge> { Closed(Keys(NodeKey, d.nodes), d.edges) }

  /** The edges with both ends in the view. */
  function Closed(ids: set<string>, edges: seq<ViewEdge>): seq<ViewEdge> {
    if edges == [] then []
    else
      var past, e := Closed(ids, edges[..|edges| - 1]), edges[|edges| - 1];
      if e.from in ids && e.to in ids then past + [e] else past
  }

  function DealtUpTo(chunkOf: map<string, int>, edges: seq<ViewEdge>, n: nat): seq<ViewEdge> {
    if n == 0 then [] else DealtUpTo(chunkOf, edges, n - 1) + Dealt(chunkOf, edges, n - 1)
  }

  lemma {:induction false} EdgesSoFar(d: Delta, chunks: seq<Delta>, i: nat)
    requires IsSplit(d, chunks) && !Small(d) && i <= |chunks|
    ensures AllEdges(chunks[..i]) == DealtUpTo(ChunkMap(d.nodes), d.edges, i)
  {
    if i > 0 {
      EdgesSoFar(d, chunks, i - 1);
      assert chunks[..i][..i - 1] == chunks[..i - 1];
      assert chunks[..i][i - 1] == Chunk(d, i - 1);
    }
  }

  lemma {:induction false} OneMoreDealt(chunkOf: map<string, int>, edges: seq<ViewEdge>, n: nat)
    requires edges != []
    ensures var c := ChunkOfEdge(chunkOf, edges[|edges| - 1]);
      multiset(DealtUpTo(chunkOf, edges, n)) == multiset(DealtUpTo(chunkOf, edges[..|edges| - 1], n))
        + if 0 <= c < n then multiset{edges[|edges| - 1]} else multiset{}
    decreases n
  {
    if n > 0 {
      hide ChunkOfEdge, Dealt, DealtUpTo;
      OneMoreDealt(chunkOf, edges, n - 1);
      OneMoreEdge(chunkOf, edges, n - 1);
      DealtLast(chunkOf, edges, n);
      DealtLast(chunkOf, edges[..|edges| - 1], n);
      var c, past := ChunkOfEdge(chunkOf, edges[|edges| - 1]), edges[..|edges| - 1];
      AddUp(multiset(DealtUpTo(chunkOf, edges, n - 1)), multiset(DealtUpTo(chunkOf, past, n - 1)),
            multiset(Dealt(chunkOf, edges, n - 1)), multiset(Dealt(chunkOf, past, n - 1)),
            multiset{edges[|edges| - 1]}, 0 <= c < n - 1, c == n - 1);
    }
  }

  lemma AddUp<T>(a: multiset<T>, b: multiset<T>, c: multiset<T>, d: multiset<T>, last: multiset<T>, early: bool,
                 now: bool)
    requires a == b + (if early then last else multiset{}) && c == d + (if now then last else multiset{})
    requires !(early && now)
    ensures a + c == (b + d) + if early || now then last else multiset{}
  {
  }

  lemma DealtLast(chunkOf: map<string, int>, edges: seq<ViewEdge>, n: nat)
    requires n > 0
    ensures multiset(DealtUpTo(chunkOf, edges, n))
      == multiset(DealtUpTo(chunkOf, edges, n - 1)) + multiset(Dealt(chunkOf, edges, n - 1))
  {
    hide Dealt;
  }

  lemma OneMoreEdge(chunkOf: map<string, int>, edges: seq<ViewEdge>, c: int)
    requires edges != []
    ensures multiset(Dealt(chunkOf, edges, c)) == multiset(Dealt(chunkOf, edges[..|edges| - 1], c))
        + if ChunkOfEdge(chunkOf, edges[|edges| - 1]) == c then multiset{edges[|edges| - 1]} else multiset{}
  {
    hide ChunkOfEdge;
  }

  lemma {:induction false} AllDealt(nodes: seq<ViewNode>, edges: seq<ViewEdge>, n: nat)
    requires Distinct(NodeKey, nodes) && n == (|nodes| + FULL_CHUNK_SIZE - 1) / FULL_CHUNK_SIZE
    ensures multiset(DealtUpTo(ChunkMap(nodes), edges, n)) == multiset(Closed(Keys(NodeKey, nodes), edges))
    decreases |edges|
  {
    hide ChunkMap, Keys, Distinct;
    if edges == [] {
      NothingDealt(ChunkMap(nodes), n);
    } else {
      AllDealt(nodes, edges[..|edges| - 1], n);
      OneMoreDealt(ChunkMap(nodes), edges, n);
      ChunkMapKeys(nodes);
      var e := edges[|edges| - 1];
      if e.from in ChunkMap(nodes) && e.to in ChunkMap(nodes) {
        ChunkInRange(nodes, e.from);
        ChunkInRange(nodes, e.to);
      }
    }
  }

  lemma {:induction false} NothingDealt(chunkOf: map<string, int>, n: nat)
    ensures DealtUpTo(chunkOf, [], n) == []
  {
    if n > 0 { NothingDealt(chunkOf, n - 1); }
  }

  lemma {:induction false} DealtTo(chunkOf: map<string, int>, edges: seq<ViewEdge>, c: int)
    ensures forall i :: 0 <= i < |Dealt(chunkOf, edges, c)| ==> ChunkOfEdge(chunkOf, Dealt(chunkOf, edges, c)[i]) == c
  {
    hide ChunkOfEdge;
    if edges != [] { DealtTo(chunkOf, edges[..|edges| - 1], c); }
  }

  lemma ChunkReached(nodes: seq<ViewNode>, id: string, i: nat)
    requires Distinct(NodeKey, nodes) && id in ChunkMap(nodes) && ChunkMap(nodes)[id] <= i
    ensures id in Keys(NodeKey, if (i + 1) * FULL_CHUNK_SIZE > |nodes| then nodes
      else nodes[..(i + 1) * FULL_CHUNK_SIZE])
  {
    ChunkMapKeys(nodes);
    var j :| 0 <= j < |nodes| && NodeKey(nodes[j]) == id;
    ChunkMapAt(nodes, j);
    if (i + 1) * FULL_CHUNK_SIZE <= |nodes| {
      assert nodes[..(i + 1) * FULL_CHUNK_SIZE][j] == nodes[j];
    }
  }

  lemma AfterEndpoints(d: Delta, chunks: seq<Delta>, i: nat, k: nat)
    requires IsSplit(d, chunks) && !Small(d) && Distinct(NodeKey, d.nodes) && i < |chunks| && k < |chunks[i].edges|
    ensures chunks[i].edges[k].from in Keys(NodeKey, AllNodes(chunks[..i + 1]))
      && chunks[i].edges[k].to in Keys(NodeKey, AllNodes(chunks[..i + 1]))
  {
    hide ChunkMap, Keys, Distinct, Dealt, AllNodes;
    NodesSoFar(d, chunks, i + 1);
    DealtTo(ChunkMap(d.nodes), d.edges, i);
    var e := chunks[i].edges[k];
    assert ChunkOfEdge(ChunkMap(d.nodes), e) == i;
    ChunkReached(d.nodes, e.from, i);
    ChunkReached(d.nodes, e.to, i);
    assert d.nodes[..|d.nodes|] == d.nodes;
  }

  /** Only the first chunk is marked full and carries removals and extras; only the last is marked done. */
  lemma ChunkMarks(d: Delta, chunks: seq<Delta>)
    requires IsSplit(d, chunks) && d.isFull
    ensures |chunks| > 0
    ensures forall i :: 0 <= i < |chunks| ==>
      (chunks[i].isFull <==> i == 0) && (chunks[i].fullDone <==> i == |chunks| - 1)
    ensures forall i :: 0 < i < |chunks| ==>
      chunks[i].removedNodes == [] && chunks[i].removedEdges == [] && chunks[i].extras == None
    ensures chunks[0].removedNodes == d.removedNodes && chunks[0].removedEdges == d.removedEdges
      && chunks[0].extras == d.extras
  {
    hide ChunkMap, Dealt;
    assert !Small(d) ==> ChunkCount(d) > 0;
  }

  /** The chunks concatenate to the full list of nodes, and ship every edge with both ends in the view exactly
      once, none before its endpoints. */
  lemma SplittingIsFaithful(d: Delta, chunks: seq<Delta>)
    requires IsSplit(d, chunks) && d.isFull && Distinct(NodeKey, d.nodes)
    requires |d.nodes| <= FULL_CHUNK_SIZE ==> Shippable(d) == d.edges
    ensures AllNodes(chunks) == d.nodes && multiset(AllEdges(chunks)) == multiset(Shippable(d))
    ensures |chunks| > 1 ==> forall i, k :: 0 <= i < |chunks| && 0 <= k < |chunks[i].edges| ==>
      chunks[i].edges[k].from in Keys(NodeKey, AllNodes(chunks[..i + 1]))
        && chunks[i].edges[k].to in Keys(NodeKey, AllNodes(chunks[..i + 1]))
  {
    if Small(d) {
      SmallIsWhole(d);
    } else {
      NodesSoFar(d, chunks, |chunks|);
      EdgesSoFar(d, chunks, |chunks|);
      AllDealt(d.nodes, d.edges, |chunks|);
      assert chunks[..|chunks|] == chunks && d.nodes[..|d.nodes|] == d.nodes;
      hide *;
      forall i, k | 0 <= i < |chunks| && 0 <= k < |chunks[i].edges|
        ensures chunks[i].edges[k].from in Keys(NodeKey, AllNodes(chunks[..i + 1]))
        ensures chunks[i].edges[k].to in Keys(NodeKey, AllNodes(chunks[..i + 1]))
      {
        AfterEndpoints(d, chunks, i, k);
      }
    }
  }

  lemma SmallIsWhole(d: Delta)
    ensures AllNodes([d.(fullDone := d.isFull)]) == d.nodes && AllEdges([d.(fullDone := d.isFull)]) == d.edges
  {
  }
}
