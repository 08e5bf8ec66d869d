/** Timeline windows over the flow buckets (store/query.go WindowAggregates). */
module WindowQuery {
  import opened Ids
  import opened GraphState
  import opened Aggregates
  import opened VolumeSums

  /** One row of the grouped query: the traffic of an edge under one protocol. */
  datatype FlowRow = FlowRow(edgeId: string, protocol: string, volume: Volume)

  /** The buckets of capture `c` that begin in [from, to). */
  function Window(buckets: map<BucketKey, Volume>, c: int, from: int, to: int): map<BucketKey, Volume> {
    map k | k in buckets && k.capture == c && from <= k.ts < to :: buckets[k]
  }

  function Group(m: map<BucketKey, Volume>, edgeId: string, protocol: string): map<BucketKey, Volume> {
    map k | k in m && k.edgeId == edgeId && k.protocol == protocol :: m[k]
  }

  /** What grouping by edge and protocol returns, in some order. */
  ghost predicate Groups(rows: seq<FlowRow>, m: map<BucketKey, Volume>) {
    && (forall i, j :: 0 <= i < j < |rows| ==> rows[i].edgeId != rows[j].edgeId || rows[i].protocol != rows[j].protocol)
    && (forall i :: 0 <= i < |rows| ==> GroupRow(rows[i], m))
    && (forall k :: k in m ==>
      exists i :: 0 <= i < |rows| && rows[i].edgeId == k.edgeId && rows[i].protocol == k.protocol)
  }

  ghost predicate GroupRow(row: FlowRow, m: map<BucketKey, Volume>) {
    Group(m, row.edgeId, row.protocol) != map[] && row.volume == Gathered(Group(m, row.edgeId, row.protocol))
  }

  // ---- traffic of one edge or at one node, as a weighted sum ----

  /** How often the traffic of an edge counts. */
  type Weight = string -> nat

  function OnlyEdge(id: string): Weight { (e: string) => if e == id then 1 else 0 }

  /** At a node every packet of an edge counts once per end, so a loop counts twice. */
  function AtNode(nid: string): Weight {
    (e: string) =>
      match SplitEdgeId(e)
      case NotAnEdge => 0
      case Endpoints(from, to) => (if from == nid then 1 else 0) + (if to == nid then 1 else 0)
  }

  function Scaled(v: Volume, n: nat): Volume { if n == 0 then NOTHING else v.Plus(Scaled(v, n - 1)) }

  lemma {:induction false} ScaledPlus(a: Volume, b: Volume, n: nat)
    ensures Scaled(a.Plus(b), n) == Scaled(a, n).Plus(Scaled(b, n)) && Scaled(NOTHING, n) == NOTHING
  {
    hide Volume.Plus;
    PlusLaws(NOTHING, NOTHING, NOTHING);
    if n > 0 {
      ScaledPlus(a, b, n - 1);
      Interchange(a, b, Scaled(a, n - 1), Scaled(b, n - 1));
    }
  }

  function Weighed(m: map<BucketKey, Volume>, w: Weight): map<BucketKey, Volume> {
    map k | k in m :: Scaled(m[k], w(k.edgeId))
  }

  ghost function Traffic(m: map<BucketKey, Volume>, w: Weight): Volume { Gathered(Weighed(m, w)) }

  function RowTraffic(rows: seq<FlowRow>, w: Weight): Volume {
    if rows == [] then NOTHING
    else RowTraffic(rows[..|rows| - 1], w).Plus(Scaled(rows[|rows| - 1].volume, w(rows[|rows| - 1].edgeId)))
  }

  lemma {:induction false} OneEdge(m: map<BucketKey, Volume>, w: Weight, edgeId: string)
    requires forall k :: k in m ==> k.edgeId == edgeId
    ensures Traffic(m, w) == Scaled(Gathered(m), w(edgeId))
    decreases |m|
  {
    hide Volume.Plus, Scaled;
    ScaledPlus(NOTHING, NOTHING, w(edgeId));
    if m != map[] {
      var k :| k in m;
      OneEdge(m - {k}, w, edgeId);
      GatheredRemove(m, k);
      GatheredRemove(Weighed(m, w), k);
      assert Weighed(m, w) - {k} == Weighed(m - {k}, w);
      ScaledPlus(m[k], Gathered(m - {k}), w(edgeId));
    }
  }

  lemma TrafficSplit(m: map<BucketKey, Volume>, a: map<BucketKey, Volume>, b: map<BucketKey, Volume>, w: Weight)
    requires Splits(m, a, b)
    ensures Traffic(m, w) == Traffic(a, w).Plus(Traffic(b, w))
  {
    hide Volume.Plus, Scaled;
    GatheredSplit(Weighed(m, w), Weighed(a, w), Weighed(b, w));
  }

  /** The rows carry all the traffic of the window, whatever their order. */
  lemma {:induction false} GroupsAddUp(rows: seq<FlowRow>, m: map<BucketKey, Volume>, w: Weight)
    requires Groups(rows, m)
    ensures RowTraffic(rows, w) == Traffic(m, w)
  {
    if rows == [] {
      assert m == map[];
      assert Weighed(m, w) == map[];
    } else {
      hide Groups, Group, Volume.Plus, Scaled, Weighed, Traffic, Splits;
      var last := rows[|rows| - 1];
      GroupsAfterLast(rows, m);
      var group := Group(m, last.edgeId, last.protocol);
      GroupsAddUp(rows[..|rows| - 1], m - group.Keys, w);
      GroupSplits(m, last.edgeId, last.protocol);
      TrafficSplit(m, m - group.Keys, group, w);
      OneEdge(group, w, last.edgeId);
      RowIsGroup(last, m);
    }
  }

  lemma RowIsGroup(row: FlowRow, m: map<BucketKey, Volume>)
    requires GroupRow(row, m)
    ensures row.volume == Gathered(Group(m, row.edgeId, row.protocol))
  {
  }

  lemma GroupSplits(m: map<BucketKey, Volume>, edgeId: string, protocol: string)
    ensures Splits(m, m - Group(m, edgeId, protocol).Keys, Group(m, edgeId, protocol))
    ensures forall k :: k in Group(m, edgeId, protocol) ==> k.edgeId == edgeId
  {
  }

  lemma OtherGroupStays(m: map<BucketKey, Volume>, row: FlowRow, edgeId: string, protocol: string)
    requires GroupRow(row, m) && (row.edgeId != edgeId || row.protocol != protocol)
    ensures GroupRow(row, m - Group(m, edgeId, protocol).Keys)
  {
    assert Group(m - Group(m, edgeId, protocol).Keys, row.edgeId, row.protocol) == Group(m, row.edgeId, row.protocol);
  }

  lemma GroupsAfterLast(rows: seq<FlowRow>, m: map<BucketKey, Volume>)
    requires Groups(rows, m) && rows != []
    ensures var last := rows[|rows| - 1];
      Groups(rows[..|rows| - 1], m - Group(m, last.edgeId, last.protocol).Keys) && GroupRow(last, m)
  {
    hide GroupRow;
    var last, rest := rows[|rows| - 1], rows[..|rows| - 1];
    var m' := m - Group(m, last.edgeId, last.protocol).Keys;
    forall i | 0 <= i < |rest| ensures GroupRow(rest[i], m') {
      OtherGroupStays(m, rows[i], last.edgeId, last.protocol);
    }
    forall k | k in m' ensures exists i ::
      0 <= i < |rest| && rest[i].edgeId == k.edgeId && rest[i].protocol == k.protocol {
      var i :| 0 <= i < |rows| && rows[i].edgeId == k.edgeId && rows[i].protocol == k.protocol;
      assert rest[i] == rows[i];
    }
  }

  /** Windows that meet add up, on every edge and at every node. */
  lemma WindowsAddUp(buckets: map<BucketKey, Volume>, c: int, from: int, mid: int, to: int, w: Weight)
    requires from <= mid <= to
    ensures Traffic(Window(buckets, c, from, to), w) ==
            Traffic(Window(buckets, c, from, mid), w).Plus(Traffic(Window(buckets, c, mid, to), w))
  {
    hide Volume.Plus, Traffic;
    TrafficSplit(Window(buckets, c, from, to), Window(buckets, c, from, mid), Window(buckets, c, mid, to), w);
  }

  // ---- the dominant protocol ----

  predicate Has(rows: seq<FlowRow>, id: string) { exists i :: 0 <= i < |rows| && rows[i].edgeId == id }

  /** Row `i` carries the edge's protocol: a specific protocol beats a generic one, within a class the
      busiest wins, and of equally busy ones the first. */
  predicate Dominant(generic: string -> bool, rows: seq<FlowRow>, i: int) {
    0 <= i < |rows| && forall j :: 0 <= j < |rows| && rows[j].edgeId == rows[i].edgeId ==>
      && (generic(rows[i].protocol) ==> generic(rows[j].protocol))
      && (generic(rows[i].protocol) == generic(rows[j].protocol) ==>
            rows[j].volume.packets <= rows[i].volume.packets
              && (j < i ==> rows[j].volume.packets < rows[i].volume.packets))
  }

  predicate Beats(generic: string -> bool, a: FlowRow, b: FlowRow) {
    (generic(b.protocol) && !generic(a.protocol))
      || (generic(b.protocol) == generic(a.protocol) && a.volume.packets > b.volume.packets)
  }

  lemma DominantSoFar(generic: string -> bool, rows: seq<FlowRow>, i: int)
    requires rows != [] && Dominant(generic, rows[..|rows| - 1], i)
    ensures var last := rows[|rows| - 1];
      rows[i].edgeId == last.edgeId && Beats(generic, last, rows[i]) ==> Dominant(generic, rows, |rows| - 1)
    ensures var last := rows[|rows| - 1];
      !(rows[i].edgeId == last.edgeId && Beats(generic, last, rows[i])) ==> Dominant(generic, rows, i)
  {
  }

  /** There is one dominant row per edge. */
  lemma DominantIsUnique(generic: string -> bool, rows: seq<FlowRow>, i: int, j: int)
    requires Dominant(generic, rows, i) && Dominant(generic, rows, j) && rows[i].edgeId == rows[j].edgeId
    ensures i == j
  {
  }

  /** A dominant row of the edge carries this protocol. */
  ghost predicate HasDominant(generic: string -> bool, rows: seq<FlowRow>, id: string, protocol: string) {
    exists i :: Dominant(generic, rows, i) && rows[i].edgeId == id && rows[i].protocol == protocol
  }

  // ---- the query ----

  /** The edge the rows add up to. */
  ghost predicate Summed(generic: string -> bool, rows: seq<FlowRow>, id: string, e: StoredEdge) {
    SplitEdgeId(id) == Endpoints(e.from, e.to) && e.volume == RowTraffic(rows, OnlyEdge(id))
      && HasDominant(generic, rows, id, e.protocol)
  }

  /** What is known of an edge after some rows; `busiest` is the packet count of the row that named its protocol. */
  ghost predicate EdgeSoFar(generic: string -> bool, rows: seq<FlowRow>, id: string, e: StoredEdge, busiest: int) {
    && SplitEdgeId(id) == Endpoints(e.from, e.to)
    && e.volume == RowTraffic(rows, OnlyEdge(id))
    && exists i :: NamedBy(generic, rows, id, e.protocol, busiest, i)
  }

  predicate NamedBy(generic: string -> bool, rows: seq<FlowRow>, id: string, protocol: string, busiest: int, i: int) {
    Dominant(generic, rows, i) && rows[i].edgeId == id && rows[i].protocol == protocol
      && rows[i].volume.packets == busiest
  }

  function Started(row: FlowRow, ends: Endpoints): (StoredEdge, int)
    requires ends.Endpoints?
  {
    (StoredEdge(ends.from, ends.to, row.protocol, NOTHING), row.volume.packets)
  }

  function Counted(generic: string -> bool, e: StoredEdge, busiest: int, row: FlowRow): (StoredEdge, int) {
    var e1 := e.(volume := e.volume.Plus(row.volume));
    if (generic(e.protocol) && !generic(row.protocol))
      || (generic(e.protocol) == generic(row.protocol) && row.volume.packets > busiest)
    then (e1.(protocol := row.protocol), row.volume.packets)
    else (e1, busiest)
  }

  lemma RowTrafficOn(rows: seq<FlowRow>, id: string)
    requires rows != []
    ensures RowTraffic(rows, OnlyEdge(id)) ==
            if rows[|rows| - 1].edgeId == id
              then RowTraffic(rows[..|rows| - 1], OnlyEdge(id)).Plus(rows[|rows| - 1].volume)
            else RowTraffic(rows[..|rows| - 1], OnlyEdge(id))
  {
    PlusLaws(RowTraffic(rows[..|rows| - 1], OnlyEdge(id)), NOTHING, NOTHING);
    PlusLaws(rows[|rows| - 1].volume, NOTHING, NOTHING);
    assert Scaled(rows[|rows| - 1].volume, 1) == rows[|rows| - 1].volume.Plus(Scaled(rows[|rows| - 1].volume, 0));
  }

  lemma KnownEdgeCounted(generic: string -> bool, rows: seq<FlowRow>, id: string, e: StoredEdge, busiest: int)
    requires rows != [] && EdgeSoFar(generic, rows[..|rows| - 1], id, e, busiest)
    ensures rows[|rows| - 1].edgeId == id ==>
      var (e1, b1) := Counted(generic, e, busiest, rows[|rows| - 1]); EdgeSoFar(generic, rows, id, e1, b1)
    ensures rows[|rows| - 1].edgeId != id ==> EdgeSoFar(generic, rows, id, e, busiest)
  {
    hide Dominant, SplitEdgeId, RowTraffic, Volume.Plus;
    RowTrafficOn(rows, id);
    var i :| NamedBy(generic, rows[..|rows| - 1], id, e.protocol, busiest, i);
    DominantIsRow(generic, rows[..|rows| - 1], i);
    DominantSoFar(generic, rows, i);
    var b := if rows[|rows| - 1].edgeId == id && Beats(generic, rows[|rows| - 1], rows[i]) then |rows| - 1 else i;
    assert NamedBy(generic, rows, id, rows[b].protocol, rows[b].volume.packets, b);
  }

  lemma DominantIsRow(generic: string -> bool, rows: seq<FlowRow>, i: int)
    requires Dominant(generic, rows, i)
    ensures 0 <= i < |rows|
  {
  }

  lemma {:induction false} NoRowsNoTraffic(rows: seq<FlowRow>, id: string)
    requires !Has(rows, id)
    ensures RowTraffic(rows, OnlyEdge(id)) == NOTHING
  {
    hide Scaled, Volume.Plus;
    if rows != [] {
      HasMore(rows, id);
      RowTrafficOn(rows, id);
      NoRowsNoTraffic(rows[..|rows| - 1], id);
    }
  }

  lemma HasMore(rows: seq<FlowRow>, id: string)
    requires rows != []
    ensures Has(rows, id) <==> Has(rows[..|rows| - 1], id) || rows[|rows| - 1].edgeId == id
  {
  }

  lemma NewEdgeCounted(generic: string -> bool, rows: seq<FlowRow>, id: string)
    requires rows != [] && !Has(rows[..|rows| - 1], id) && rows[|rows| - 1].edgeId == id && SplitEdgeId(id).Endpoints?
    ensures var (e, b) := Started(rows[|rows| - 1], SplitEdgeId(id));
      var (e1, b1) := Counted(generic, e, b, rows[|rows| - 1]);
      EdgeSoFar(generic, rows, id, e1, b1)
  {
    hide SplitEdgeId, RowTraffic, Volume.Plus;
    RowTrafficOn(rows, id);
    NoRowsNoTraffic(rows[..|rows| - 1], id);
    forall j | 0 <= j < |rows| - 1 ensures rows[j].edgeId != id {
      assert rows[j] == rows[..|rows| - 1][j];
    }
    assert NamedBy(generic, rows, id, rows[|rows| - 1].protocol, rows[|rows| - 1].volume.packets, |rows| - 1);
  }

  ghost predicate EdgesSoFar(generic: string -> bool, rows: seq<FlowRow>, edges: map<string, StoredEdge>,
                             busiest: map<string, int>) {
    && edges.Keys == busiest.Keys
    && (forall id {:trigger id in edges} {:trigger Has(rows, id)} :: id in edges <==>
      Has(rows, id) && SplitEdgeId(id).Endpoints?)
    && (forall id {:trigger id in edges} :: id in edges ==> EdgeSoFar(generic, rows, id, edges[id], busiest[id]))
  }

  /** One row, added to the edge it belongs to; an unsplittable edge is skipped. */
  method CountEdge(generic: string -> bool, ghost rows: seq<FlowRow>, edges: map<string, StoredEdge>,
                   busiest: map<string, int>, row: FlowRow)
    returns (edges': map<string, StoredEdge>, busiest': map<string, int>, skipped: bool)
    requires rows != [] && rows[|rows| - 1] == row && EdgesSoFar(generic, rows[..|rows| - 1], edges, busiest)
    ensures EdgesSoFar(generic, rows, edges', busiest')
    ensures skipped <==> SplitEdgeId(row.edgeId).NotAnEdge?
    ensures edges'.Keys == if skipped then edges.Keys else edges.Keys + {row.edgeId}
    ensures !skipped ==> SplitEdgeId(row.edgeId) == Endpoints(edges'[row.edgeId].from, edges'[row.edgeId].to)
  {
    hide EdgeSoFar, SplitEdgeId, Counted, Has;
    var id := row.edgeId;
    skipped := false;
    edges', busiest' := edges, busiest;
    HasMore(rows, id);
    if id !in edges {
      var ends := SplitEdgeId(id);
      if ends.NotAnEdge? {
        skipped := true;
      } else {
        var (e, b) := Started(row, ends);
        edges', busiest' := edges'[id := e], busiest'[id := b];
        NewEdgeCounted(generic, rows, id);
      }
    } else {
      KnownEdgeCounted(generic, rows, id, edges[id], busiest[id]);
      SplitKnown(generic, rows[..|rows| - 1], id, edges[id], busiest[id]);
    }
    if !skipped {
      var (e1, b1) := Counted(generic, edges'[id], busiest'[id], row);
      SplitKnown(generic, rows, id, e1, b1);
      edges', busiest' := edges'[id := e1], busiest'[id := b1];
    }
    forall other | other != id ensures (Has(rows, other) <==> Has(rows[..|rows| - 1], other))
      && (other in edges ==> EdgeSoFar(generic, rows, other, edges[other], busiest[other]))
    {
      HasMore(rows, other);
      if other in edges {
        KnownEdgeCounted(generic, rows, other, edges[other], busiest[other]);
      }
    }
  }

  lemma SplitKnown(generic: string -> bool, rows: seq<FlowRow>, id: string, e: StoredEdge, busiest: int)
    requires EdgeSoFar(generic, rows, id, e, busiest)
    ensures SplitEdgeId(id) == Endpoints(e.from, e.to)
  {
  }

  function TotalAt(nodes: map<string, (int, int)>, nid: string): (int, int) {
    if nid in nodes then nodes[nid] else (0, 0)
  }

  ghost predicate NodesSoFar(rows: seq<FlowRow>, nodes: map<string, (int, int)>) {
    forall nid :: NodeSoFar(rows, nodes, nid)
  }

  ghost predicate NodeSoFar(rows: seq<FlowRow>, nodes: map<string, (int, int)>, nid: string) {
    && TotalAt(nodes, nid) == (RowTraffic(rows, AtNode(nid)).packets, RowTraffic(rows, AtNode(nid)).bytes)
    && (nid in nodes <==> Touched(rows, nid))
  }

  /** Some row's edge ends at this node. */
  ghost predicate Touched(rows: seq<FlowRow>, nid: string) {
    exists i :: 0 <= i < |rows| && AtNode(nid)(rows[i].edgeId) > 0
  }

  lemma SeenMore(rows: seq<FlowRow>, nid: string)
    requires rows != []
    ensures Touched(rows, nid) <==> Touched(rows[..|rows| - 1], nid) || AtNode(nid)(rows[|rows| - 1].edgeId) > 0
  {
  }

  function EndCounted(nodes: map<string, (int, int)>, nid: string, v: Volume): map<string, (int, int)> {
    nodes[nid := (TotalAt(nodes, nid).0 + v.packets, TotalAt(nodes, nid).1 + v.bytes)]
  }

  lemma EndsCounted(rows: seq<FlowRow>, nodes: map<string, (int, int)>, from: string, to: string, nid: string)
    requires rows != [] && NodeSoFar(rows[..|rows| - 1], nodes, nid)
      && SplitEdgeId(rows[|rows| - 1].edgeId) == Endpoints(from, to)
    ensures var v := rows[|rows| - 1].volume;
      NodeSoFar(rows, EndCounted(EndCounted(nodes, from, v), to, v), nid)
  {
    hide SplitEdgeId, Touched, EndCounted, TotalAt, Scaled, AtNode, RowTraffic;
    LastRowAdds(rows, AtNode(nid));
    SeenMore(rows, nid);
    var row := rows[|rows| - 1];
    EndsAt(row.edgeId, from, to, nid);
    ScaledTwice(row.volume);
    EndCountedAt(nodes, from, row.volume, nid);
    EndCountedAt(EndCounted(nodes, from, row.volume), to, row.volume, nid);
  }

  lemma LastRowAdds(rows: seq<FlowRow>, w: Weight)
    requires rows != []
    ensures var past, added := RowTraffic(rows[..|rows| - 1], w),
      Scaled(rows[|rows| - 1].volume, w(rows[|rows| - 1].edgeId));
      RowTraffic(rows, w).packets == past.packets + added.packets
        && RowTraffic(rows, w).bytes == past.bytes + added.bytes
  {
  }

  lemma EndsAt(edgeId: string, from: string, to: string, nid: string)
    requires SplitEdgeId(edgeId) == Endpoints(from, to)
    ensures AtNode(nid)(edgeId) == (if from == nid then 1 else 0) + (if to == nid then 1 else 0)
  {
  }

  lemma ScaledTwice(v: Volume)
    ensures Scaled(v, 0) == NOTHING
    ensures Scaled(v, 1).packets == v.packets && Scaled(v, 1).bytes == v.bytes
    ensures Scaled(v, 2).packets == 2 * v.packets && Scaled(v, 2).bytes == 2 * v.bytes
  {
  }

  lemma EndCountedAt(nodes: map<string, (int, int)>, end: string, v: Volume, nid: string)
    ensures nid in EndCounted(nodes, end, v) <==> nid in nodes || nid == end
    ensures TotalAt(EndCounted(nodes, end, v), nid) ==
            if nid == end then (TotalAt(nodes, nid).0 + v.packets, TotalAt(nodes, nid).1 + v.bytes)
              else TotalAt(nodes, nid)
  {
  }

  lemma NoEndCounted(rows: seq<FlowRow>, nodes: map<string, (int, int)>, nid: string)
    requires rows != [] && NodeSoFar(rows[..|rows| - 1], nodes, nid) && SplitEdgeId(rows[|rows| - 1].edgeId).NotAnEdge?
    ensures NodeSoFar(rows, nodes, nid)
  {
    hide SplitEdgeId, Touched;
    SeenMore(rows, nid);
  }

  method CountEnds(ghost rows: seq<FlowRow>, nodes: map<string, (int, int)>, row: FlowRow, from: string, to: string)
    returns (nodes': map<string, (int, int)>)
    requires rows != [] && rows[|rows| - 1] == row && NodesSoFar(rows[..|rows| - 1], nodes)
    requires SplitEdgeId(row.edgeId) == Endpoints(from, to)
    ensures NodesSoFar(rows, nodes')
  {
    hide NodeSoFar, SplitEdgeId;
    nodes' := nodes;
    var ends := [from, to];
    for i := 0 to 2
      invariant nodes' == if i == 0 then nodes else if i == 1 then EndCounted(nodes, from, row.volume)
                          else EndCounted(EndCounted(nodes, from, row.volume), to, row.volume)
    {
      var nt := if ends[i] in nodes' then nodes'[ends[i]] else (0, 0);
      nodes' := nodes'[ends[i] := (nt.0 + row.volume.packets, nt.1 + row.volume.bytes)];
    }
    forall nid ensures NodeSoFar(rows, nodes', nid) {
      EndsCounted(rows, nodes, from, to, nid);
    }
  }

  /** Every splittable edge of the rows, once. */
  ghost predicate Ordered(order: seq<string>, edges: map<string, StoredEdge>) {
    (forall i, j :: 0 <= i < j < |order| ==> order[i] != order[j]) && forall id :: id in order <==> id in edges
  }

  /** Each endpoint once, with its stored hostname and the traffic at both ends of its edges in the window. */
  ghost predicate NodeOk(window: map<BucketKey, Volume>, table: map<Key, NodeAgg>, c: int, n: StoredNode) {
    && n.packets == Traffic(window, AtNode(n.id)).packets && n.bytes == Traffic(window, AtNode(n.id)).bytes
    && n.hostname == if Key(c, n.id) in table then table[Key(c, n.id)].hostname else ""
  }

  method ListNodes(ghost window: map<BucketKey, Volume>, rows: seq<FlowRow>, totals: map<string, (int, int)>,
                   table: map<Key, NodeAgg>, c: int)
    returns (nodes: seq<StoredNode>)
    requires Groups(rows, window) && NodesSoFar(rows, totals)
    ensures forall i, j :: 0 <= i < j < |nodes| ==> nodes[i].id != nodes[j].id
    ensures forall nid :: (exists i :: 0 <= i < |nodes| && nodes[i].id == nid) <==> nid in totals
    ensures forall i :: 0 <= i < |nodes| ==> NodeOk(window, table, c, nodes[i])
  {
    hide Groups, Traffic, Touched, RowTraffic, NodeOk, AtNode;
    nodes := [];
    var todo := totals.Keys;
    while todo != {}
      invariant todo <= totals.Keys
      invariant forall i, j :: 0 <= i < j < |nodes| ==> nodes[i].id != nodes[j].id
      invariant forall i :: 0 <= i < |nodes| ==>
        nodes[i].id in totals && nodes[i].id !in todo && NodeOk(window, table, c, nodes[i])
      invariant forall nid :: nid in totals && nid !in todo ==> exists i :: 0 <= i < |nodes| && nodes[i].id == nid
      decreases todo
    {
      var nid :| nid in todo;
      todo := todo - {nid};
      var host := if Key(c, nid) in table then table[Key(c, nid)].hostname else "";
      ghost var before := nodes;
      nodes := nodes + [StoredNode(nid, host, totals[nid].0, totals[nid].1)];
      NodeCounted(window, rows, totals, table, c, nodes[|before|]);
      assert forall i :: 0 <= i < |before| ==> nodes[i] == before[i];
    }
  }

  lemma NodeCounted(window: map<BucketKey, Volume>, rows: seq<FlowRow>, totals: map<string, (int, int)>,
                    table: map<Key, NodeAgg>, c: int, n: StoredNode)
    requires Groups(rows, window) && NodesSoFar(rows, totals) && n.id in totals
    requires n == StoredNode(n.id, if Key(c, n.id) in table then table[Key(c, n.id)].hostname
      else "", totals[n.id].0, totals[n.id].1)
    ensures NodeOk(window, table, c, n)
  {
    hide Groups, Traffic, Touched, RowTraffic, AtNode;
    GroupsAddUp(rows, window, AtNode(n.id));
    assert NodeSoFar(rows, totals, n.id);
  }

  /** Edges come in the order of their first row, each with its endpoints, its traffic in the window and its
      dominant protocol; every endpoint comes once, with the traffic at both ends of its edges. */
  method WindowAggregates(ghost buckets: map<BucketKey, Volume>, ghost from: int, ghost to: int, rows: seq<FlowRow>,
                          table: map<Key, NodeAgg>, c: int, generic: string -> bool)
    returns (order: seq<string>, edges: map<string, StoredEdge>, nodes: seq<StoredNode>)
    requires Groups(rows, Window(buckets, c, from, to))
    ensures Ordered(order, edges)
    ensures forall id :: id in edges <==> Has(rows, id) && SplitEdgeId(id).Endpoints?
    ensures forall id :: id in edges ==>
      && SplitEdgeId(id) == Endpoints(edges[id].from, edges[id].to)
      && edges[id].volume == Traffic(Window(buckets, c, from, to), OnlyEdge(id))
      && HasDominant(generic, rows, id, edges[id].protocol)
    ensures forall i, j :: 0 <= i < j < |nodes| ==> nodes[i].id != nodes[j].id
    ensures forall nid :: (exists i :: 0 <= i < |nodes| && nodes[i].id == nid) <==> Touched(rows, nid)
    ensures forall i :: 0 <= i < |nodes| ==> NodeOk(Window(buckets, c, from, to), table, c, nodes[i])
  {
    hide SplitEdgeId, HasDominant, Groups, Traffic, Touched, Has, RowTraffic, NodeOk;
    var totals: map<string, (int, int)>;
    order, edges, totals := AggregateRows(rows, generic);
    forall id | id in edges ensures edges[id].volume == Traffic(Window(buckets, c, from, to), OnlyEdge(id)) {
      GroupsAddUp(rows, Window(buckets, c, from, to), OnlyEdge(id));
    }
    nodes := ListNodes(Window(buckets, c, from, to), rows, totals, table, c);
    forall nid ensures nid in totals <==> Touched(rows, nid) {
      assert NodeSoFar(rows, totals, nid);
    }
  }

  method AggregateRows(rows: seq<FlowRow>, generic: string -> bool)
    returns (order: seq<string>, edges: map<string, StoredEdge>, totals: map<string, (int, int)>)
    ensures Ordered(order, edges) && NodesSoFar(rows, totals)
    ensures forall id :: id in edges <==> Has(rows, id) && SplitEdgeId(id).Endpoints?
    ensures forall id :: id in edges ==> Summed(generic, rows, id, edges[id])
  {
    hide SplitEdgeId, RowTraffic, EdgeSoFar, NodeSoFar, Has, Touched, Summed;
    var busiest: map<string, int> := map[];
    order, edges, totals := [], map[], map[];
    NothingSoFar(generic);
    for i := 0 to |rows|
      invariant EdgesSoFar(generic, rows[..i], edges, busiest) && NodesSoFar(rows[..i], totals) && Ordered(order, edges)
    {
      ghost var seen := rows[..i + 1];
      assert seen[..|seen| - 1] == rows[..i];
      var skipped;
      var known := rows[i].edgeId in edges;
      edges, busiest, skipped := CountEdge(generic, seen, edges, busiest, rows[i]);
      if skipped {
        forall nid ensures NodeSoFar(seen, totals, nid) { NoEndCounted(seen, totals, nid); }
      } else {
        if !known {
          order := order + [rows[i].edgeId];
        }
        totals := CountEnds(seen, totals, rows[i], edges[rows[i].edgeId].from, edges[rows[i].edgeId].to);
      }
    }
    assert rows[..|rows|] == rows;
    forall id | id in edges ensures Summed(generic, rows, id, edges[id]) {
      EdgeDone(generic, rows, id, edges[id], busiest[id]);
    }
  }

  lemma NothingSoFar(generic: string -> bool)
    ensures EdgesSoFar(generic, [], map[], map[]) && NodesSoFar([], map[])
  {
  }

  lemma EdgeDone(generic: string -> bool, rows: seq<FlowRow>, id: string, e: StoredEdge, busiest: int)
    requires EdgeSoFar(generic, rows, id, e, busiest)
    ensures Summed(generic, rows, id, e)
  {
  }
}
