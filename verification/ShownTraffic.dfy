/** Which nodes and edges a view shows and whose traffic each edge carries, edge by edge (graph/view.go BuildView). */
module ShownTraffic {
  import opened GraphState
  import opened Ids
  import opened Views
  import opened ViewEdges
  import opened ViewAssembly

  // ---- merged edges ----

  /** Summed over the edges not hidden: `out` of those that remap to run from `a` to `b`, `back` of those that run the
      other way. */
  ghost function Over(hidden: set<string>, remap: Remap, a: string, b: string, edges: seq<RawEdge>, out: Volume -> int,
                      back: Volume -> int): int {
    if edges == [] then 0
    else
      var past, e := Over(hidden, remap, a, b, edges[..|edges| - 1], out, back), edges[|edges| - 1];
      past + (if e.protocol.name !in hidden && remap(e.from) == a && remap(e.to) == b then out(e.volume) else 0)
           + (if e.protocol.name !in hidden && remap(e.from) == b && remap(e.to) == a then back(e.volume) else 0)
  }

  /** Forward is what members of `a` sent to members of `b`, reverse what came back, whichever way
      each edge is stored. */
  ghost predicate Directed(hidden: set<string>, remap: Remap, a: string, b: string, edges: seq<RawEdge>, v: Volume) {
    && v.forwardPackets == Over(hidden, remap, a, b, edges, (u: Volume) => u.forwardPackets,
      (u: Volume) => u.reversePackets)
    && v.reversePackets == Over(hidden, remap, a, b, edges, (u: Volume) => u.reversePackets,
      (u: Volume) => u.forwardPackets)
    && v.forwardBytes == Over(hidden, remap, a, b, edges, (u: Volume) => u.forwardBytes, (u: Volume) => u.reverseBytes)
    && v.reverseBytes == Over(hidden, remap, a, b, edges, (u: Volume) => u.reverseBytes, (u: Volume) => u.forwardBytes)
    && v.packets == Over(hidden, remap, a, b, edges, (u: Volume) => u.packets, (u: Volume) => u.packets)
    && v.bytes == Over(hidden, remap, a, b, edges, (u: Volume) => u.bytes, (u: Volume) => u.bytes)
  }

  lemma {:induction false} BetweenIsDirected(hidden: set<string>, remap: Remap, a: string, b: string,
                                             edges: seq<RawEdge>)
    requires a != b
    ensures Directed(hidden, remap, a, b, edges, TrafficBetween(hidden, remap, a, b, edges))
  {
    if edges != [] {
      BetweenIsDirected(hidden, remap, a, b, edges[..|edges| - 1]);
    }
  }

  lemma {:induction false} KeysExactly(hidden: set<string>, remap: Remap, kept: set<string>, edges: seq<RawEdge>)
    ensures forall k :: k in KeysOf(hidden, remap, kept, edges) <==>
      exists e :: e in edges && IsShown(hidden, remap, kept, e) && KeyOf(remap, e) == k
  {
    hide IsShown, KeyOf;
    if edges != [] {
      var past, last := edges[..|edges| - 1], edges[|edges| - 1];
      KeysExactly(hidden, remap, kept, past);
      assert edges == past + [last];
      forall k ensures k in KeysOf(hidden, remap, kept, edges) <==>
        exists e :: e in edges && IsShown(hidden, remap, kept, e) && KeyOf(remap, e) == k
      {
        if IsShown(hidden, remap, kept, last) && KeyOf(remap, last) == k {
          assert last in edges;
        }
      }
    }
  }

  /** The merged edges are those between two different nodes shown that some edge not hidden remaps to; each counts
      forward what its `from` side sent to its `to` side, and in reverse what came back. */
  lemma MergedBySender(hidden: set<string>, remap: Remap, kept: set<string>, edges: seq<RawEdge>,
                       merged: map<string, Merged>)
    requires MergesTo(hidden, remap, kept, edges, merged)
    ensures forall k :: k in merged ==>
      && merged[k].from in kept && merged[k].to in kept && merged[k].from != merged[k].to
      && k == EdgeId(merged[k].from, merged[k].to)
      && Directed(hidden, remap, merged[k].from, merged[k].to, edges, merged[k].volume)
    ensures forall k :: k in merged <==>
      exists e :: e in edges && e.protocol.name !in hidden && remap(e.from) in kept && remap(e.to) in kept
                  && remap(e.from) != remap(e.to) && EdgeId(remap(e.from), remap(e.to)) == k
  {
    KeysExactly(hidden, remap, kept, edges);
    hide KeysOf, Directed, EdgeId, CanonFrom, CanonTo, TrafficBetween;
    forall k | k in merged
      ensures Directed(hidden, remap, merged[k].from, merged[k].to, edges, merged[k].volume)
    {
      assert MergedOk(hidden, remap, kept, edges, k, merged[k]);
      BetweenIsDirected(hidden, remap, merged[k].from, merged[k].to, edges);
    }
    forall e ensures IsShown(hidden, remap, kept, e) <==>
      && e.protocol.name !in hidden && remap(e.from) in kept && remap(e.to) in kept && remap(e.from) != remap(e.to)
    {
    }
  }

  /** An edge, not hidden, that remaps to run between `a` and `b`, either way. */
  ghost predicate RunsBetween(hidden: set<string>, remap: Remap, a: string, b: string, e: RawEdge) {
    && e.protocol.name !in hidden
    && ((remap(e.from) == a && remap(e.to) == b) || (remap(e.from) == b && remap(e.to) == a))
  }

  /** A merged edge has the protocol of an edge between its two sides that no other one there outdoes in packets. */
  lemma ProtocolOfABusiest(hidden: set<string>, remap: Remap, edges: seq<RawEdge>, m: Merged, most: int)
    returns (e: RawEdge)
    requires ProtocolOk(hidden, remap, edges, m, most)
    ensures e in edges && RunsBetween(hidden, remap, m.from, m.to, e) && e.protocol == m.protocol
    ensures forall f :: f in edges && RunsBetween(hidden, remap, m.from, m.to, f) ==>
      f.volume.packets <= e.volume.packets || f.volume.packets <= 0
  {
    var i :| Picks(hidden, remap, edges, m, most, i);
    e := edges[i];
    forall f | f in edges && RunsBetween(hidden, remap, m.from, m.to, f)
      ensures f.volume.packets <= e.volume.packets || f.volume.packets <= 0
    {
      var j :| 0 <= j < |edges| && edges[j] == f;
      assert Contributes(hidden, remap, edges, m, j);
    }
  }

  /** Under aggregation the view's edges are the merged ones, with their ends, protocol and traffic. */
  lemma MergedAsDrawn(cands: seq<ViewEdge>, merged: map<string, Merged>)
    requires ListsMerged(cands, merged)
    ensures forall v: ViewEdge :: v in cands <==>
      && v.id in merged
      && v == ViewEdge(v.id, merged[v.id].from, merged[v.id].to, merged[v.id].protocol, merged[v.id].volume)
  {
    forall v: ViewEdge | v.id in merged
      && v == ViewEdge(v.id, merged[v.id].from, merged[v.id].to, merged[v.id].protocol, merged[v.id].volume)
      ensures v in cands
    {
      var i :| 0 <= i < |cands| && cands[i].id == v.id;
      assert cands[i] == v;
    }
  }

  // ---- unmerged edges ----

  /** Without aggregation: exactly the edges not hidden between two nodes shown, as they are. */
  lemma {:induction false} UnmergedExactly(hidden: set<string>, kept: set<string>, edges: seq<RawEdge>)
    ensures forall v :: v in Unmerged(hidden, kept, edges) <==>
      exists e :: e in edges && e.protocol.name !in hidden && e.from in kept && e.to in kept
                  && v == ViewEdge(EdgeId(e.from, e.to), e.from, e.to, e.protocol, e.volume)
  {
    hide EdgeId;
    if edges != [] {
      var past, last := edges[..|edges| - 1], edges[|edges| - 1];
      UnmergedExactly(hidden, kept, past);
      assert edges == past + [last];
      forall v ensures v in Unmerged(hidden, kept, edges) <==>
        exists e :: e in edges && e.protocol.name !in hidden && e.from in kept && e.to in kept
                    && v == ViewEdge(EdgeId(e.from, e.to), e.from, e.to, e.protocol, e.volume)
      {
        if v in Unmerged(hidden, kept, past) {
          var e :| e in past && e.protocol.name !in hidden && e.from in kept && e.to in kept
            && v == ViewEdge(EdgeId(e.from, e.to), e.from, e.to, e.protocol, e.volume);
          assert e in edges;
        }
      }
    }
  }

  // ---- what is left out ----

  /** As many edges as may be shown, busiest first; one left out carries no more packets than any shown, and of equally
      busy ones the key decides. */
  lemma ForemostAreBusiest(cands: seq<ViewEdge>, max: nat, top: seq<ViewEdge>)
    requires Foremost(cands, max, top)
    ensures |top| == (if |cands| > max then max else |cands|) && forall e :: e in top ==> e in cands
    ensures forall i, j :: 0 <= i < j < |top| ==>
      || top[i].volume.packets > top[j].volume.packets
      || (top[i].volume.packets == top[j].volume.packets && Less(top[i].id, top[j].id))
    ensures forall e, f :: e in top && f in cands && f !in top ==>
      || e.volume.packets > f.volume.packets
      || (e.volume.packets == f.volume.packets && Less(e.id, f.id))
  {
    assert forall i, j :: 0 <= i < j < |top| ==> Precedes(top[i], top[j]);
    hide Less;
  }

  /** A node left out is not protected, and every unprotected node shown ranks before it; unless none or too many are
      protected: then the best ranked are shown. */
  lemma ChosenAreForemost(ranked: seq<string>, protect: set<string>, max: nat, out: seq<string>)
    requires Chosen(ranked, protect, max, out)
    ensures forall x :: x in out ==> x in ranked
    ensures 0 < |Protected(ranked, protect)| < max ==>
      && (forall x :: x in ranked && x in protect ==> x in out)
      && exists n :: 0 <= n <= |ranked| && forall x :: x !in protect ==> (x in out <==> x in ranked[..n])
    ensures !(0 < |Protected(ranked, protect)| < max) ==> |ranked| >= max && out == ranked[..max]
  {
    ProtectedAre(ranked, protect);
    hide Protected;
    if 0 < |Protected(ranked, protect)| < max {
      var n :| 0 <= n <= |ranked| && out == Protected(ranked, protect) + Others(ranked[..n], protect);
      OthersAre(ranked[..n], protect);
      hide Others;
      assert forall x :: x in ranked[..n] ==> x in ranked;
      assert forall x :: x !in protect ==> (x in out <==> x in ranked[..n]);
    } else {
      assert forall x :: x in ranked[..max] ==> x in ranked;
    }
  }

  lemma {:induction false} OthersAre(ranked: seq<string>, protect: set<string>)
    ensures forall x :: x in Others(ranked, protect) <==> x in ranked && x !in protect
  {
    if ranked != [] {
      OthersAre(ranked[..|ranked| - 1], protect);
      assert ranked == ranked[..|ranked| - 1] + [ranked[|ranked| - 1]];
    }
  }
}
