/** The store's in-memory aggregates (store/writer.go): what one packet adds to them. */
module Aggregates {
  import opened Ids
  import opened GraphState

  /** One recorded packet. `millis` is its time in Unix milliseconds. */
  datatype Event = Event(capture: int, millis: int, src: string, dst: string, srcHost: string, dstHost: string,
                         protocol: string, length: int)

  datatype Key = Key(capture: int, id: string)

  datatype BucketKey = BucketKey(capture: int, ts: int, edgeId: string, protocol: string)

  datatype NodeAgg = NodeAgg(hostname: string, packets: int, bytes: int, first: int, last: int)

  datatype EdgeAgg = EdgeAgg(from: string, to: string, protocol: string, volume: Volume, first: int, last: int)

  /** Node and edge entries are cumulative; bucket entries hold what came since the last flush. */
  datatype Totals = Totals(nodes: map<Key, NodeAgg>, edges: map<Key, EdgeAgg>, buckets: map<BucketKey, Volume>)

  const NO_TOTALS := Totals(map[], map[], map[])

  /** The bucket width in seconds, and which protocol names are generic transports. */
  datatype Settings = Settings(bucketSecs: int, generic: string -> bool)

  /** Go's integer division, which truncates towards zero. */
  function Quotient(a: int, b: int): int
    requires b > 0
  {
    if a >= 0 then a / b else -((-a) / b)
  }

  function BucketStart(settings: Settings, millis: int): int
    requires settings.bucketSecs > 0
  {
    Quotient(millis / 1000, settings.bucketSecs) * settings.bucketSecs
  }

  function NodeKeyOf(ev: Event, id: string): Key { Key(ev.capture, id) }

  function EdgeKeyOf(ev: Event): Key { Key(ev.capture, EdgeId(ev.src, ev.dst)) }

  function BucketKeyOf(settings: Settings, ev: Event): BucketKey
    requires settings.bucketSecs > 0
  {
    BucketKey(ev.capture, BucketStart(settings, ev.millis), EdgeId(ev.src, ev.dst), ev.protocol)
  }

  function PacketVolume(ev: Event): Volume { OnePacket(ev.length, ev.src == CanonFrom(ev.src, ev.dst)) }

  function ApplyNode(nodes: map<Key, NodeAgg>, ev: Event, id: string, host: string): map<Key, NodeAgg> {
    var key := NodeKeyOf(ev, id);
    var n := if key in nodes then nodes[key] else NodeAgg("", 0, 0, ev.millis, 0);
    nodes[key :=
      NodeAgg(if host != "" && host != id then host
        else n.hostname, n.packets + 1, n.bytes + ev.length, n.first, ev.millis)]
  }

  function CountedEdge(settings: Settings, edges: map<Key, EdgeAgg>, key: Key, from: string, to: string, packet: Volume,
                       ev: Event)
    : EdgeAgg
  {
    var e := if key in edges then edges[key] else EdgeAgg(from, to, ev.protocol, NOTHING, ev.millis, 0);
    e.(volume := e.volume.Plus(packet), last := ev.millis, protocol := if settings.generic(ev.protocol) then e.protocol
      else ev.protocol)
  }

  function ApplyEdge(settings: Settings, edges: map<Key, EdgeAgg>, ev: Event): map<Key, EdgeAgg> {
    var key := EdgeKeyOf(ev);
    edges[key :=
      CountedEdge(settings, edges, key, CanonFrom(ev.src, ev.dst), CanonTo(ev.src, ev.dst), PacketVolume(ev), ev)]
  }

  function VolumeAt<K>(m: map<K, Volume>, key: K): Volume { if key in m then m[key] else NOTHING }

  function ApplyBucket(settings: Settings, buckets: map<BucketKey, Volume>, ev: Event): map<BucketKey, Volume>
    requires settings.bucketSecs > 0
  {
    var key := BucketKeyOf(settings, ev);
    buckets[key := VolumeAt(buckets, key).Plus(PacketVolume(ev))]
  }

  function Applied(settings: Settings, t: Totals, ev: Event): Totals
    requires settings.bucketSecs > 0
  {
    Totals(ApplyNode(ApplyNode(t.nodes, ev, ev.src, ev.srcHost), ev, ev.dst, ev.dstHost),
           ApplyEdge(settings, t.edges, ev),
           ApplyBucket(settings, t.buckets, ev))
  }

  /** A bucket begins at a multiple of its width and holds the packet's second; before 1970 it ends with it. */
  ghost predicate HoldsSecond(settings: Settings, start: int, millis: int)
    requires settings.bucketSecs > 0
  {
    && start % settings.bucketSecs == 0
    && if millis >= 0 then start <= millis / 1000 < start + settings.bucketSecs
       else start - settings.bucketSecs < millis / 1000 <= start
  }

  lemma BucketHoldsItsSecond(settings: Settings, millis: int)
    requires settings.bucketSecs > 0
    ensures HoldsSecond(settings, BucketStart(settings, millis), millis)
  {
    var s, b := millis / 1000, settings.bucketSecs;
    if s >= 0 { Multiple(s / b, b); } else { Multiple(-((-s) / b), b); }
  }

  lemma Multiple(q: int, b: int)
    requires b > 0
    ensures q * b % b == 0
  {
    assert q * b == b * q + 0;
    Remainder(q * b, b, q);
  }

  lemma Remainder(n: int, b: int, q: int)
    requires b > 0 && n == b * q
    ensures n % b == 0
  {
    Apart(b, n / b - q);
    assert n == b * (n / b) + n % b;
    assert n % b == b * (q - n / b);
  }

  lemma Apart(b: int, d: int)
    requires b > 0
    ensures d >= 1 ==> b * d >= b
    ensures d <= -1 ==> b * d <= -b
  {
  }

  /** What recording a packet does: one more packet on each end's row, on the pair's row in the packet's direction, and
      in the bucket of its second; everything else stays. */
  ghost predicate Records(settings: Settings, before: Totals, after: Totals, ev: Event)
    requires settings.bucketSecs > 0
  {
    var src, dst, pair := Key(ev.capture, ev.src), Key(ev.capture, ev.dst), Key(ev.capture, EdgeId(ev.src, ev.dst));
    && after.nodes.Keys == before.nodes.Keys + {src, dst}
    && (forall k :: k in after.nodes ==> RowRecords(before.nodes, k, after.nodes[k], ev))
    && after.edges.Keys == before.edges.Keys + {pair}
    && (forall k :: k in before.edges && k != pair ==> after.edges[k] == before.edges[k])
    && OneMore(if pair in before.edges then before.edges[pair].volume else NOTHING, after.edges[pair].volume,
               !Less(ev.dst, ev.src), ev.length)
    && PairRecords(settings, before.edges, pair, after.edges[pair], ev)
    && exists ts :: HoldsSecond(settings, ts, ev.millis)
         && BucketRecords(before.buckets, after.buckets, BucketKey(ev.capture, ts, pair.id, ev.protocol), ev)
  }

  /** A node's row: one packet per end of the packet there, its last sighting, and the name the packet gave it. */
  ghost predicate RowRecords(before: map<Key, NodeAgg>, k: Key, row: NodeAgg, ev: Event) {
    var was := if k in before then before[k] else NodeAgg("", 0, 0, ev.millis, 0);
    var ends := (if k == Key(ev.capture, ev.src) then 1 else 0) + (if k == Key(ev.capture, ev.dst) then 1 else 0);
    && row.packets == was.packets + ends && row.bytes == was.bytes + ends * ev.length && row.first == was.first
    && row.last == (if ends > 0 then ev.millis else was.last)
    && (ends == 0 ==> row == was)
    && (k == Key(ev.capture, ev.dst) && ev.dstHost != "" && ev.dstHost != ev.dst ==> row.hostname == ev.dstHost)
    && (k == Key(ev.capture, ev.src) && k != Key(ev.capture, ev.dst) ==>
          row.hostname == if ev.srcHost != "" && ev.srcHost != ev.src then ev.srcHost else was.hostname)
  }

  /** A pair's row: its ends in order when it is new, its sightings, and the latest specific protocol. */
  ghost predicate PairRecords(settings: Settings, before: map<Key, EdgeAgg>, k: Key, row: EdgeAgg, ev: Event) {
    if k in before then
      && row.from == before[k].from && row.to == before[k].to && row.first == before[k].first && row.last == ev.millis
      && row.protocol == if settings.generic(ev.protocol) then before[k].protocol else ev.protocol
    else
      && row.first == row.last == ev.millis && row.protocol == ev.protocol && !Less(row.to, row.from)
      && ((row.from == ev.src && row.to == ev.dst) || (row.from == ev.dst && row.to == ev.src))
  }

  ghost predicate BucketRecords(before: map<BucketKey, Volume>, after: map<BucketKey, Volume>, k: BucketKey,
                                ev: Event) {
    && after.Keys == before.Keys + {k}
      && (forall other :: other in before && other != k ==> after[other] == before[other])
    && OneMore(if k in before then before[k] else NOTHING, after[k], !Less(ev.dst, ev.src), ev.length)
  }

  lemma AppliedRecords(settings: Settings, t: Totals, ev: Event)
    requires settings.bucketSecs > 0
    ensures Records(settings, t, Applied(settings, t, ev), ev)
  {
    NodesRecord(t, ev, ApplyNode(ApplyNode(t.nodes, ev, ev.src, ev.srcHost), ev, ev.dst, ev.dstHost));
    PairRecorded(settings, t.edges, ev);
    BucketRecorded(settings, t.buckets, ev);
    hide EdgeId, BucketStart, HoldsSecond, Less, RowRecords, PairRecords, BucketRecords, ApplyNode, CountedEdge,
         OneMore;
  }

  lemma PairRecorded(settings: Settings, edges: map<Key, EdgeAgg>, ev: Event)
    ensures var pair := EdgeKeyOf(ev);
      var row := ApplyEdge(settings, edges, ev)[pair];
      && PairRecords(settings, edges, pair, row, ev)
      && OneMore(if pair in edges then edges[pair].volume else NOTHING, row.volume, !Less(ev.dst, ev.src), ev.length)
  {
    LessIsTotal(ev.src, ev.dst);
    hide EdgeId, Less;
  }

  lemma BucketRecorded(settings: Settings, buckets: map<BucketKey, Volume>, ev: Event)
    requires settings.bucketSecs > 0
    ensures HoldsSecond(settings, BucketStart(settings, ev.millis), ev.millis)
    ensures BucketRecords(buckets, ApplyBucket(settings, buckets, ev), BucketKeyOf(settings, ev), ev)
  {
    hide EdgeId, BucketStart, HoldsSecond;
    BucketHoldsItsSecond(settings, ev.millis);
    LessIsTotal(ev.src, ev.dst);
    hide Less;
  }

  lemma NodesRecord(t: Totals, ev: Event, nodes: map<Key, NodeAgg>)
    requires nodes == ApplyNode(ApplyNode(t.nodes, ev, ev.src, ev.srcHost), ev, ev.dst, ev.dstHost)
    ensures nodes.Keys == t.nodes.Keys + {Key(ev.capture, ev.src), Key(ev.capture, ev.dst)}
    ensures forall k :: k in nodes ==> RowRecords(t.nodes, k, nodes[k], ev)
  {
  }

  /** Everything recorded so far, folded into totals. */
  function Fold(settings: Settings, events: seq<Event>): Totals
    requires settings.bucketSecs > 0
  {
    if events == [] then NO_TOTALS
    else Applied(settings, Fold(settings, events[..|events| - 1]), events[|events| - 1])
  }

  /** What a flush takes away: the entries that changed, and the buckets wholesale. */
  datatype Batch = Batch(nodes: map<Key, NodeAgg>, edges: map<Key, EdgeAgg>, buckets: map<BucketKey, Volume>)

  class Aggregator {
    const settings: Settings
    var nodes: map<Key, NodeAgg>
    var edges: map<Key, EdgeAgg>
    var buckets: map<BucketKey, Volume>
    var dirtyNodes: set<Key>
    var dirtyEdges: set<Key>
    var dropped: int

    ghost predicate Valid()
      reads this
    {
      settings.bucketSecs > 0 && dirtyNodes <= nodes.Keys && dirtyEdges <= edges.Keys
    }

    ghost function Contents(): Totals
      reads this
    {
      Totals(nodes, edges, buckets)
    }

    constructor (settings: Settings)
      requires settings.bucketSecs > 0
      ensures Valid() && this.settings == settings && Contents() == NO_TOTALS && dirtyNodes == {} && dirtyEdges == {}
        && dropped == 0
    {
      this.settings := settings;
      nodes, edges, buckets := map[], map[], map[];
      dirtyNodes, dirtyEdges, dropped := {}, {}, 0;
    }

    method ApplyEndpoint(ev: Event, id: string, host: string)
      requires Valid()
      modifies this`nodes, this`dirtyNodes
      ensures Valid() && nodes == ApplyNode(old(nodes), ev, id, host)
      ensures dirtyNodes == old(dirtyNodes) + {NodeKeyOf(ev, id)}
    {
      var key := Key(ev.capture, id);
      var n := if key in nodes then nodes[key] else NodeAgg("", 0, 0, ev.millis, 0);
      if host != "" && host != id {
        n := n.(hostname := host);
      }
      nodes := nodes[key := n.(packets := n.packets + 1, bytes := n.bytes + ev.length, last := ev.millis)];
      dirtyNodes := dirtyNodes + {key};
    }

    method Apply(ev: Event)
      requires Valid()
      modifies this
      ensures Valid() && Contents() == Applied(settings, old(Contents()), ev) && dropped == old(dropped)
      ensures Records(settings, old(Contents()), Contents(), ev)
      ensures dirtyNodes == old(dirtyNodes) + {NodeKeyOf(ev, ev.src), NodeKeyOf(ev, ev.dst)}
      ensures dirtyEdges == old(dirtyEdges) + {EdgeKeyOf(ev)}
    {
      AppliedRecords(settings, Contents(), ev);
      hide Records, RowRecords, EdgeId, BucketStart, HoldsSecond, Less, ApplyNode, CountedEdge;
      var edgeId, from, to := EdgeId(ev.src, ev.dst), CanonFrom(ev.src, ev.dst), CanonTo(ev.src, ev.dst);
      var packet := OnePacket(ev.length, ev.src == from);
      ApplyEndpoint(ev, ev.src, ev.srcHost);
      ApplyEndpoint(ev, ev.dst, ev.dstHost);
      CountPacket(ev, Key(ev.capture, edgeId), from, to, packet);
    }

    method CountPacket(ev: Event, ek: Key, from: string, to: string, packet: Volume)
      requires settings.bucketSecs > 0
      modifies this`edges, this`dirtyEdges, this`buckets
      ensures dirtyEdges == old(dirtyEdges) + {ek}
      ensures edges == old(edges)[ek := CountedEdge(settings, old(edges), ek, from, to, packet, ev)]
      ensures buckets == old(buckets)[BucketKeyOf(settings, ev) :=
        VolumeAt(old(buckets), BucketKeyOf(settings, ev)).Plus(packet)]
    {
      var e := if ek in edges then edges[ek] else EdgeAgg(from, to, ev.protocol, NOTHING, ev.millis, 0);
      e := e.(volume := e.volume.Plus(packet), last := ev.millis);
      if !settings.generic(ev.protocol) {
        e := e.(protocol := ev.protocol);
      }
      edges := edges[ek := e];
      dirtyEdges := dirtyEdges + {ek};
      var bk := BucketKeyOf(settings, ev);
      var b := if bk in buckets then buckets[bk] else NOTHING;
      buckets := buckets[bk := b.Plus(packet)];
    }

    /** Moves the dirty state out: changed entries are copied and kept, buckets are taken and reset. */
    method Snapshot() returns (batch: Batch)
      requires Valid()
      modifies this`buckets, this`dirtyNodes, this`dirtyEdges, this`dropped
      ensures Valid() && dirtyNodes == {} && dirtyEdges == {} && buckets == map[] && dropped == 0
      ensures batch == Batch(map k | k in old(dirtyNodes) :: nodes[k], map k | k in old(dirtyEdges) ::
        edges[k], old(buckets))
    {
      batch := Batch(map k | k in dirtyNodes :: nodes[k], map k | k in dirtyEdges :: edges[k], buckets);
      buckets, dirtyNodes, dirtyEdges, dropped := map[], {}, {}, 0;
    }

    /** Forgets a finished capture's entries; its unflushed buckets, if any, stay. */
    method DropCapture(id: int)
      requires Valid()
      modifies this`nodes, this`edges, this`dirtyNodes, this`dirtyEdges
      ensures Valid()
      ensures nodes == Without(old(nodes), id) && edges == Without(old(edges), id)
      ensures dirtyNodes == Others(old(dirtyNodes), id) && dirtyEdges == Others(old(dirtyEdges), id)
    {
      nodes, edges := Without(nodes, id), Without(edges, id);
      dirtyNodes, dirtyEdges := Others(dirtyNodes, id), Others(dirtyEdges, id);
    }
  }

  function Others(keys: set<Key>, id: int): set<Key> { set k | k in keys && k.capture != id }

  function Without<T>(m: map<Key, T>, id: int): map<Key, T> {
    map k | k in m && k.capture != id :: m[k]
  }
}
