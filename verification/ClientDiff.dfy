/** The server's side of the view protocol, per client (server/websocket.go): diffs, chunks and
    the two side channels. */
module ClientDiff {
  import opened GraphState
  import opened Views

  const FULL_CHUNK_SIZE := 150
  const COUNTS_INTERVAL := 1_000_000_000   // nanoseconds

  // ---- diffs ----

  /** What has to be sent of `items`: all of it on a full build, else what is new or renders differently. */
  function Changed<T(!new)>(key: T -> string, same: (T, T) -> bool, last: map<string, T>, items: seq<T>,
                     full: bool): seq<T> {
    if items == [] then []
    else
      var past, item := Changed(key, same, last, items[..|items| - 1], full), items[|items| - 1];
      if full || key(item) !in last || !same(last[key(item)], item) then past + [item] else past
  }

  ghost predicate IsDelta(q: Quantizer, nodes: map<string, ViewNode>, edges: map<string, ViewEdge>, v: View,
                          flows: seq<Flow>, full: bool, d: Delta) {
    && d.nodes == Changed(NodeKey, SameNode(q), nodes, v.nodes, full)
    && d.edges == Changed(EdgeKey, SameEdge(q), edges, v.edges, full)
    && Lists(d.removedNodes, nodes.Keys - Keys(NodeKey, v.nodes))
    && Lists(d.removedEdges, edges.Keys - Keys(EdgeKey, v.edges))
    && d.extras == Some(Extras(flows, if full then Some(StatsFor(v)) else None))
    && d.isFull == full && !d.partial && !d.fullDone
  }

  function PacketTotal(edges: seq<ViewEdge>): int {
    if edges == [] then 0 else PacketTotal(edges[..|edges| - 1]) + edges[|edges| - 1].volume.packets
  }

  function StatsFor(v: View): Stats { Stats(|v.nodes|, |v.edges|, PacketTotal(v.edges)) }

  method TotalPackets(edges: seq<ViewEdge>) returns (total: int)
    ensures total == PacketTotal(edges)
  {
    total := 0;
    for i := 0 to |edges|
      invariant total == PacketTotal(edges[..i])
    {
      assert edges[..i + 1][..i] == edges[..i];
      total := total + edges[i].volume.packets;
    }
    assert edges[..|edges|] == edges;
  }

  /** Forgets the entries that are not current and lists them. */
  method Prune<V>(all: map<string, V>, cur: set<string>) returns (removed: seq<string>, rest: map<string, V>)
    ensures Lists(removed, all.Keys - cur) && rest == all - (all.Keys - cur)
  {
    removed, rest := [], all;
    var todo := all.Keys;
    while todo != {}
      invariant todo <= all.Keys
      invariant Lists(removed, all.Keys - cur - todo) && rest == all - (all.Keys - cur - todo)
      decreases todo
    {
      var k :| k in todo;
      ghost var before := todo;
      todo := todo - {k};
      if k !in cur {
        removed, rest := removed + [k], rest - {k};
        assert all.Keys - cur - todo == all.Keys - cur - before + {k};
      } else {
        assert all.Keys - cur - todo == all.Keys - cur - before;
      }
    }
  }

  /** One half of buildDelta: the items to send, the ids gone, and the new baseline. */
  method Diff<T(!new)>(key: T -> string, same: (T, T) -> bool, last: map<string, T>, items: seq<T>, full: bool)
    returns (changed: seq<T>, removed: seq<string>, now: map<string, T>)
    requires Distinct(key, items)
    ensures changed == Changed(key, same, last, items, full)
    ensures Lists(removed, last.Keys - Keys(key, items)) && now == ById(key, items)
  {
    var cur;
    changed, cur, now := Upserts(key, same, last, items, full);
    ByIdOf(key, items);
    assert (last + ById(key, items)).Keys - cur == last.Keys - cur;
    removed, now := Prune(now, cur);
  }

  method Upserts<T(!new)>(key: T -> string, same: (T, T) -> bool, last: map<string, T>, items: seq<T>, full: bool)
    returns (changed: seq<T>, cur: set<string>, now: map<string, T>)
    requires Distinct(key, items)
    ensures changed == Changed(key, same, last, items, full)
    ensures cur == Keys(key, items) && now == last + ById(key, items)
  {
    hide Keys, Distinct, ById, Changed;
    changed, cur, now := [], {}, last;
    NoneYet(key, same, last, full);
    for i := 0 to |items|
      invariant changed == Changed(key, same, last, items[..i], full)
      invariant cur == Keys(key, items[..i]) && now == last + ById(key, items[..i])
    {
      OneMoreItem(key, same, last, items, full, i);
      var k := key(items[i]);
      cur := cur + {k};
      if full || k !in now || !same(now[k], items[i]) {
        changed := changed + [items[i]];
      }
      now := now[k := items[i]];
    }
    assert items[..|items|] == items;
  }

  lemma NoneYet<T(!new)>(key: T -> string, same: (T, T) -> bool, last: map<string, T>, full: bool)
    ensures Changed(key, same, last, [], full) == [] && Keys(key, []) == {} && last + ById(key, []) == last
  {
  }

  lemma OneMoreItem<T(!new)>(key: T -> string, same: (T, T) -> bool, last: map<string, T>, items: seq<T>, full: bool,
                      i: nat)
    requires Distinct(key, items) && i < |items|
    ensures var past, seen, k, now := items[..i], items[..i + 1], key(items[i]), last + ById(key, items[..i]);
      && Keys(key, seen) == Keys(key, past) + {k}
      && last + ById(key, seen) == now[k := items[i]]
      && Changed(key, same, last, seen, full) ==
         Changed(key, same, last, past, full) + if full || k !in now || !same(now[k], items[i]) then [items[i]] else []
  {
    var past, seen, k := items[..i], items[..i + 1], key(items[i]);
    FreshKey(key, items, i);
    hide Keys, Distinct;
    assert seen[..|seen| - 1] == past && seen[|seen| - 1] == items[i];
    KeysGrow(key, seen);
    assert k !in ById(key, past) by { ByIdOf(key, past); }
    PutMore(last, ById(key, past), k, items[i]);
  }

  lemma PutMore<T>(last: map<string, T>, m: map<string, T>, k: string, v: T)
    ensures last + m[k := v] == (last + m)[k := v]
  {
  }

  lemma FreshKey<T(!new)>(key: T -> string, items: seq<T>, i: nat)
    requires Distinct(key, items) && i < |items|
    ensures key(items[i]) !in Keys(key, items[..i])
  {
  }

  // ---- side channels ----

  /** The nodes whose position is not the one last shipped. */
  function MovedNodes(shipped: map<string, Vec>, nodes: seq<ViewNode>): seq<Moved> {
    if nodes == [] then []
    else
      var past, n := MovedNodes(shipped, nodes[..|nodes| - 1]), nodes[|nodes| - 1];
      if n.id !in shipped || shipped[n.id] != Place(n) then past + [Moved(n.id, Place(n))] else past
  }

  /** The frame carries exactly the values that changed; the new baseline agrees with the items,
      zeros counting as absent. */
  ghost predicate Refreshed<T(!new), V(!new)>(key: T -> string, val: T -> V, zero: V, last: map<string, V>,
                              items: seq<T>,
                                         frame: map<string, V>, now: map<string, V>)
  {
    && (forall i {:trigger items[i]} :: 0 <= i < |items| ==>
          && OrZero(now, key(items[i]), zero) == val(items[i])
          && (key(items[i]) in frame <==> OrZero(last, key(items[i]), zero) != val(items[i]))
          && (key(items[i]) in frame ==> frame[key(items[i])] == val(items[i])))
    && frame.Keys <= Keys(key, items) && now.Keys <= Keys(key, items)
  }

  method Refresh<T(!new), V(==, !new)>(key: T -> string, val: T -> V, zero: V, last: map<string, V>, items: seq<T>)
    returns (frame: map<string, V>, now: map<string, V>)
    requires Distinct(key, items)
    ensures Refreshed(key, val, zero, last, items, frame, now)
  {
    var cur: set<string> := {};
    frame, now := map[], last;
    for i := 0 to |items|
      invariant cur == set j | 0 <= j < i :: key(items[j])
      invariant frame.Keys <= cur
      invariant forall k :: k !in cur ==> (k in now <==> k in last) && (k in now ==> now[k] == last[k])
      invariant forall j {:trigger items[j]} :: 0 <= j < i ==>
        && OrZero(now, key(items[j]), zero) == val(items[j])
        && (key(items[j]) in frame <==> OrZero(last, key(items[j]), zero) != val(items[j]))
        && (key(items[j]) in frame ==> frame[key(items[j])] == val(items[j]))
    {
      var k, v := key(items[i]), val(items[i]);
      cur := cur + {k};
      if OrZero(now, k, zero) != v {
        frame, now := frame[k := v], now[k := v];
      }
    }
    var removed;
    removed, now := Prune(now, cur);
  }

  datatype Baseline = Baseline(nodes: map<string, Counts>, edges: map<string, Volume>, at: int)

  class Client {
    const q: Quantizer
    var lastNodes: map<string, ViewNode>
    var lastEdges: map<string, ViewEdge>
    var lastPos: Option<map<string, Vec>>
    var lastCounts: Option<Baseline>

    constructor (q: Quantizer)
      ensures this.q == q && lastNodes == map[] && lastEdges == map[] && lastPos == None && lastCounts == None
    {
      this.q, lastNodes, lastEdges, lastPos, lastCounts := q, map[], map[], None, None;
    }

    /** Compares the view with the last one; nothing is sent when nothing renders differently. */
    method BuildDelta(view: View, flows: seq<Flow>, full: bool) returns (delta: Option<Delta>)
      requires Distinct(NodeKey, view.nodes) && Distinct(EdgeKey, view.edges)
      modifies this`lastNodes, this`lastEdges
      ensures lastNodes == ById(NodeKey, view.nodes) && lastEdges == ById(EdgeKey, view.edges)
      ensures delta.Some? ==> IsDelta(q, old(lastNodes), old(lastEdges), view, flows, full, delta.value)
      ensures delta.None? <==> !full && flows == [] && Unchanged(q, old(lastNodes), old(lastEdges), view)
    {
      hide Changed, Keys, ById, Distinct;
      var nodes, removedNodes, edges, removedEdges;
      nodes, removedNodes, lastNodes := Diff(NodeKey, SameNode(q), lastNodes, view.nodes, full);
      edges, removedEdges, lastEdges := Diff(EdgeKey, SameEdge(q), lastEdges, view.edges, full);
      ListsNothing(removedNodes, old(lastNodes).Keys, Keys(NodeKey, view.nodes));
      ListsNothing(removedEdges, old(lastEdges).Keys, Keys(EdgeKey, view.edges));
      assert flows == [] <==> |flows| == 0;
      if !full && |nodes| == 0 && |edges| == 0 && |removedNodes| == 0 && |removedEdges| == 0 && |flows| == 0 {
        return None;
      }
      var stats := None;
      if full {
        var total := TotalPackets(view.edges);
        stats := Some(Stats(|view.nodes|, |view.edges|, total));
      }
      delta := Some(Delta(nodes, edges, removedNodes, removedEdges, Some(Extras(flows, stats)), full, false, false));
    }

    /** Positions ride full snapshots; otherwise only the nodes that moved are sent. */
    method BuildPosFrame(view: View, full: bool) returns (moved: seq<Moved>)
      requires Distinct(NodeKey, view.nodes)
      modifies this`lastPos
      ensures lastPos == Some(Mapped(NodeKey, Place, view.nodes))
      ensures moved == if old(lastPos) == None || full then [] else MovedNodes(old(lastPos).value, view.nodes)
    {
      moved := [];
      if lastPos == None || full {
        var pos := AllValues(NodeKey, Place, view.nodes);
        lastPos := Some(pos);
      } else {
        var pos;
        moved, pos := Movements(lastPos.value, view.nodes);
        lastPos := Some(pos);
      }
    }

    /** Counters travel at most once per interval, and only where they changed. */
    method BuildCountsFrame(view: View, full: bool, now: int) returns (frame: Option<CountsFrame>)
      requires Distinct(NodeKey, view.nodes) && Distinct(EdgeKey, view.edges)
      modifies this`lastCounts
      ensures lastCounts.Some?
      ensures old(lastCounts) == None || full ==>
        frame == None && lastCounts.value
          == Baseline(Mapped(NodeKey, NodeCounts, view.nodes), Mapped(EdgeKey, EdgeCounts, view.edges), now)
      ensures old(lastCounts).Some? && !full && now - old(lastCounts).value.at < COUNTS_INTERVAL ==>
        frame == None && lastCounts == old(lastCounts)
      ensures old(lastCounts).Some? && !full && now - old(lastCounts).value.at >= COUNTS_INTERVAL ==>
        && frame.Some? && lastCounts.value.at == now && frame.value.stats == StatsFor(view)
        && Refreshed(NodeKey, NodeCounts, NO_COUNTS, old(lastCounts).value.nodes, view.nodes, frame.value.nodes,
          lastCounts.value.nodes)
        && Refreshed(EdgeKey, EdgeCounts, NOTHING, old(lastCounts).value.edges, view.edges, frame.value.edges,
          lastCounts.value.edges)
    {
      hide Distinct, Refreshed;
      if lastCounts == None || full {
        var nodes := AllValues(NodeKey, NodeCounts, view.nodes);
        var edges := AllValues(EdgeKey, EdgeCounts, view.edges);
        lastCounts := Some(Baseline(nodes, edges, now));
        return None;
      }
      if now - lastCounts.value.at < COUNTS_INTERVAL {
        return None;
      }
      var nodeCounts, nodes := Refresh(NodeKey, NodeCounts, NO_COUNTS, lastCounts.value.nodes, view.nodes);
      var edgeCounts, edges := Refresh(EdgeKey, EdgeCounts, NOTHING, lastCounts.value.edges, view.edges);
      lastCounts := Some(Baseline(nodes, edges, now));
      var total := TotalPackets(view.edges);
      frame := Some(CountsFrame(nodeCounts, edgeCounts, Stats(|view.nodes|, |view.edges|, total)));
    }
  }

  /** Nothing to send: every item is known and renders the same, and none is gone. */
  ghost predicate Unchanged(q: Quantizer, nodes: map<string, ViewNode>, edges: map<string, ViewEdge>, v: View) {
    && Changed(NodeKey, SameNode(q), nodes, v.nodes, false) == [] && nodes.Keys <= Keys(NodeKey, v.nodes)
    && Changed(EdgeKey, SameEdge(q), edges, v.edges, false) == [] && edges.Keys <= Keys(EdgeKey, v.edges)
  }

  lemma ListsNothing(ids: seq<string>, a: set<string>, b: set<string>)
    requires Lists(ids, a - b)
    ensures |ids| == 0 <==> a <= b
  {
    if |ids| > 0 {
      assert ids[0] in a - b;
    } else {
      assert forall id :: id in a ==> id !in a - b ==> id in b;
    }
  }

  method AllValues<T(!new), V>(key: T -> string, val: T -> V, items: seq<T>) returns (m: map<string, V>)
    ensures m == Mapped(key, val, items)
  {
    m := map[];
    for i := 0 to |items|
      invariant m == Mapped(key, val, items[..i])
    {
      assert items[..i + 1][..i] == items[..i];
      m := m[key(items[i]) := val(items[i])];
    }
    assert items[..|items|] == items;
  }

  lemma OneMovement(shipped: map<string, Vec>, past: seq<ViewNode>, n: ViewNode)
    requires n.id !in Keys(NodeKey, past)
    ensures var pos := shipped + Mapped(NodeKey, Place, past);
      var moves := n.id !in pos || pos[n.id] != Place(n);
      && MovedNodes(shipped, past + [n]) == MovedNodes(shipped, past) + (if moves then [Moved(n.id, Place(n))] else [])
      && shipped + Mapped(NodeKey, Place, past + [n]) == if moves then pos[n.id := Place(n)] else pos
  {
    assert (past + [n])[..|past|] == past;
    MappedOf(NodeKey, Place, past);
  }

  lemma OnlyCurrent<V>(shipped: map<string, V>, now: map<string, V>)
    ensures (shipped + now) - ((shipped + now).Keys - now.Keys) == now
  {
  }

  method Movements(shipped: map<string, Vec>, nodes: seq<ViewNode>) returns (moved: seq<Moved>, pos: map<string, Vec>)
    requires Distinct(NodeKey, nodes)
    ensures moved == MovedNodes(shipped, nodes) && pos == Mapped(NodeKey, Place, nodes)
  {
    hide Keys, Mapped, MovedNodes, Distinct;
    var cur: set<string> := {};
    moved, pos := [], shipped;
    NothingMoves(shipped);
    for i := 0 to |nodes|
      invariant moved == MovedNodes(shipped, nodes[..i])
      invariant cur == Keys(NodeKey, nodes[..i]) && pos == shipped + Mapped(NodeKey, Place, nodes[..i])
    {
      assert nodes[..i + 1] == nodes[..i] + [nodes[i]] && nodes[..i + 1][..i] == nodes[..i];
      KeysGrow(NodeKey, nodes[..i + 1]);
      FreshKey(NodeKey, nodes, i);
      OneMovement(shipped, nodes[..i], nodes[i]);
      var n := nodes[i];
      cur := cur + {n.id};
      if n.id !in pos || pos[n.id].x != n.x || pos[n.id].y != n.y {
        moved, pos := moved + [Moved(n.id, Vec(n.x, n.y))], pos[n.id := Vec(n.x, n.y)];
      }
    }
    assert nodes[..|nodes|] == nodes;
    MappedOf(NodeKey, Place, nodes);
    OnlyCurrent(shipped, Mapped(NodeKey, Place, nodes));
    var removed;
    removed, pos := Prune(pos, cur);
  }

  lemma NothingMoves(shipped: map<string, Vec>)
    ensures MovedNodes(shipped, []) == [] && Keys(NodeKey, []) == {} && shipped + Mapped(NodeKey, Place, []) == shipped
  {
  }
}
