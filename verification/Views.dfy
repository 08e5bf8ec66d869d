/** A client's view and the messages that carry it (graph/view.go ViewNode, ViewEdge; server/websocket.go viewDelta). */
module Views {
  import opened GraphState

  datatype ViewNode = ViewNode(
    id: string, caption: string, ips: seq<string>, packets: int, bytes: int, isGroup: bool, value: real, colorTier: int,
    shape: string, color: string, role: string, icon: string, deviceInfo: string, x: int, y: int, pinned: bool,
    isSubnet: bool, hostCount: int, isTail: bool)

  datatype ViewEdge = ViewEdge(id: string, from: string, to: string, protocol: Protocol, volume: Volume)

  datatype View = View(nodes: seq<ViewNode>, edges: seq<ViewEdge>)

  /** How sizes and widths are quantized for rendering. */
  datatype Quantizer = Quantizer(value: real -> int, width: int -> int)

  function NodeKey(n: ViewNode): string { n.id }

  function EdgeKey(e: ViewEdge): string { e.id }

  // ---- keyed sequences ----

  ghost predicate Distinct<T(!new)>(key: T -> string, items: seq<T>) {
    forall i, j :: 0 <= i < j < |items| ==> key(items[i]) != key(items[j])
  }

  function Keys<T(!new)>(key: T -> string, items: seq<T>): set<string> { set i | 0 <= i < |items| :: key(items[i]) }

  function ById<T(!new)>(key: T -> string, items: seq<T>): map<string, T> {
    if items == [] then map[] else ById(key, items[..|items| - 1])[key(items[|items| - 1]) := items[|items| - 1]]
  }

  lemma KeysGrow<T(!new)>(key: T -> string, items: seq<T>)
    requires items != []
    ensures Keys(key, items) == Keys(key, items[..|items| - 1]) + {key(items[|items| - 1])}
  {
  }

  lemma {:induction false} ByIdOf<T(!new)>(key: T -> string, items: seq<T>)
    ensures ById(key, items).Keys == Keys(key, items)
    ensures Distinct(key, items) ==> forall i :: 0 <= i < |items| ==> ById(key, items)[key(items[i])] == items[i]
    ensures forall k :: k in ById(key, items) ==> key(ById(key, items)[k]) == k && ById(key, items)[k] in items
  {
    if items != [] {
      KeysGrow(key, items);
      ByIdOf(key, items[..|items| - 1]);
      hide Keys;
      ByIdKeeps(key, items);
    }
  }

  lemma ByIdKeeps<T(!new)>(key: T -> string, items: seq<T>)
    requires items != []
    requires var past := items[..|items| - 1];
      && (Distinct(key, past) ==> forall i :: 0 <= i < |past| ==>
        key(past[i]) in ById(key, past) && ById(key, past)[key(past[i])] == past[i])
      && forall k :: k in ById(key, past) ==> key(ById(key, past)[k]) == k && ById(key, past)[k] in past
    ensures Distinct(key, items) ==> forall i :: 0 <= i < |items| ==>
      key(items[i]) in ById(key, items) && ById(key, items)[key(items[i])] == items[i]
    ensures forall k :: k in ById(key, items) ==> key(ById(key, items)[k]) == k && ById(key, items)[k] in items
  {
    var past, last := items[..|items| - 1], items[|items| - 1];
    var m := ById(key, past);
    assert ById(key, items) == m[key(last) := last];
    hide ById;
    assert forall k :: k in m ==> m[k] in items;
    assert forall i :: 0 <= i < |past| ==> past[i] == items[i];
  }

  /** The value of each item under its key. */
  function Mapped<T(!new), V>(key: T -> string, val: T -> V, items: seq<T>): map<string, V> {
    if items == [] then map[] else Mapped(key, val,
      items[..|items| - 1])[key(items[|items| - 1]) := val(items[|items| - 1])]
  }

  lemma {:induction false} MappedOf<T(!new), V>(key: T -> string, val: T -> V, items: seq<T>)
    ensures Mapped(key, val, items).Keys == Keys(key, items)
    ensures Distinct(key, items) ==> forall i :: 0 <= i < |items| ==>
      Mapped(key, val, items)[key(items[i])] == val(items[i])
  {
    if items != [] {
      KeysGrow(key, items);
      MappedOf(key, val, items[..|items| - 1]);
    }
  }

  /** The ids of `s`, each once, in some order. */
  ghost predicate Lists(ids: seq<string>, s: set<string>) {
    (forall i, j :: 0 <= i < j < |ids| ==> ids[i] != ids[j]) && forall id :: id in ids <==> id in s
  }

  ghost predicate WellShaped(v: View) {
    && Distinct(NodeKey, v.nodes) && Distinct(EdgeKey, v.edges)
    && forall i :: 0 <= i < |v.edges| ==>
      v.edges[i].from in Keys(NodeKey, v.nodes) && v.edges[i].to in Keys(NodeKey, v.nodes)
  }

  // ---- render equality ----

  predicate NodeRenderEqual(q: Quantizer, a: ViewNode, b: ViewNode) {
    && a.id == b.id && a.caption == b.caption && a.isGroup == b.isGroup && a.colorTier == b.colorTier
      && a.shape == b.shape
    && a.color == b.color && a.role == b.role && a.icon == b.icon && a.deviceInfo == b.deviceInfo
      && a.pinned == b.pinned
    && a.isSubnet == b.isSubnet && a.hostCount == b.hostCount && q.value(a.value) == q.value(b.value)
    && a.ips == b.ips
  }

  predicate EdgeRenderEqual(q: Quantizer, a: ViewEdge, b: ViewEdge) {
    && a.id == b.id && a.from == b.from && a.to == b.to && a.protocol == b.protocol
    && q.width(a.volume.packets) == q.width(b.volume.packets)
  }

  function SameNode(q: Quantizer): (ViewNode, ViewNode) -> bool { (a, b) => NodeRenderEqual(q, a, b) }

  function SameEdge(q: Quantizer): (ViewEdge, ViewEdge) -> bool { (a, b) => EdgeRenderEqual(q, a, b) }

  ghost predicate Equivalence<T(!new)>(same: (T, T) -> bool) {
    && (forall a :: same(a, a))
    && (forall a, b, c :: same(a, b) && same(b, c) ==> same(a, c))
  }

  // ---- messages ----

  datatype Flow = Flow(edgeId: string, from: string, to: string, packets: int, bytes: int)

  datatype Stats = Stats(nodeCount: int, edgeCount: int, totalPackets: int)

  /** What rides along: particle flows, and on full snapshots the totals. */
  datatype Extras = Extras(flows: seq<Flow>, stats: Option<Stats>)

  datatype Delta = Delta(nodes: seq<ViewNode>, edges: seq<ViewEdge>, removedNodes: seq<string>,
    removedEdges: seq<string>,
                         extras: Option<Extras>, isFull: bool, partial: bool, fullDone: bool)

  /** Whole pixels. */
  datatype Vec = Vec(x: int, y: int)

  datatype Moved = Moved(id: string, to: Vec)

  /** The counters of a node: packets and bytes. */
  datatype Counts = Counts(packets: int, bytes: int)

  function Place(n: ViewNode): Vec { Vec(n.x, n.y) }

  function NodeCounts(n: ViewNode): Counts { Counts(n.packets, n.bytes) }

  function EdgeCounts(e: ViewEdge): Volume { e.volume }

  const NO_COUNTS := Counts(0, 0)

  /** A missing entry reads as zeros. */
  function OrZero<V>(m: map<string, V>, k: string, zero: V): V { if k in m then m[k] else zero }

  datatype CountsFrame = CountsFrame(nodes: map<string, Counts>, edges: map<string, Volume>, stats: Stats)
}
