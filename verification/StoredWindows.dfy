/** A timeline window over a whole capture shows what the capture's node and edge rows show
    (store/query.go, store/writer.go). */
module StoredWindows {
  import opened Ids
  import opened GraphState
  import opened Aggregates
  import opened VolumeSums
  import opened StoreRuns
  import opened LoadReplay
  import opened WindowQuery
  import StoredCaptures

  /** The weighted traffic of packets. */
  function EventTraffic(own: seq<Event>, w: Weight): Volume {
    if own == [] then NOTHING
    else
      var ev := own[|own| - 1];
      EventTraffic(own[..|own| - 1], w).Plus(Scaled(PacketVolume(ev), w(EdgeId(ev.src, ev.dst))))
  }

  lemma TrafficPut(m: map<BucketKey, Volume>, key: BucketKey, v: Volume, w: Weight)
    ensures Traffic(m[key := VolumeAt(m, key).Plus(v)], w) == Traffic(m, w).Plus(Scaled(v, w(key.edgeId)))
  {
    hide Volume.Plus, Scaled;
    var n := w(key.edgeId);
    var more := Scaled(VolumeAt(m, key).Plus(v), n);
    assert Weighed(m[key := VolumeAt(m, key).Plus(v)], w) == Weighed(m, w)[key := more];
    GatheredPut(Weighed(m, w), key, more);
    ScaledPlus(VolumeAt(m, key), v, n);
    var rest := Gathered(Weighed(m, w) - {key});
    if key in m {
      GatheredRemove(Weighed(m, w), key);
    } else {
      assert Weighed(m, w) - {key} == Weighed(m, w);
      PlusLaws(rest, NOTHING, NOTHING);
    }
    PlusLaws(Scaled(VolumeAt(m, key), n), Scaled(v, n), rest);
    PlusLaws(Scaled(VolumeAt(m, key), n), rest, Scaled(v, n));
    PlusLaws(Scaled(v, n), rest, NOTHING);
  }

  lemma {:induction false} FoldTraffic(settings: Settings, events: seq<Event>, c: int, w: Weight)
    requires settings.bucketSecs > 0
    ensures Traffic(CaptureBuckets(Fold(settings, events).buckets, c), w) == EventTraffic(OfCapture(events, c), w)
  {
    hide ApplyNode, ApplyEdge, Volume.Plus, Scaled, PacketVolume, EdgeId, BucketStart, Traffic;
    if events == [] {
      assert CaptureBuckets(map[], c) == map[];
      assert Traffic(map[], w) == NOTHING by { GroupsAddUp([], map[], w); }
    } else {
      var past, ev := events[..|events| - 1], events[|events| - 1];
      FoldTraffic(settings, past, c, w);
      var before := Fold(settings, past).buckets;
      var key := BucketKeyOf(settings, ev);
      if ev.capture == c {
        LastOwn(events, c);
        var mine := CaptureBuckets(before, c);
        assert CaptureBuckets(ApplyBucket(settings, before, ev), c)
          == mine[key := VolumeAt(mine, key).Plus(PacketVolume(ev))];
        TrafficPut(mine, key, PacketVolume(ev), w);
      } else {
        assert CaptureBuckets(ApplyBucket(settings, before, ev), c) == CaptureBuckets(before, c);
      }
    }
  }

  lemma {:induction false} EdgeTrafficIsSum(own: seq<Event>, id: string)
    ensures EventTraffic(own, OnlyEdge(id)) == EdgeSum(RAW, id, own)
  {
    hide Volume.Plus, PacketVolume, EdgeId, Target, OnEdge;
    if own != [] {
      var ev := own[|own| - 1];
      EdgeTrafficIsSum(own[..|own| - 1], id);
      RawEvent(ev, id);
      PlusLaws(PacketVolume(ev), NOTHING, NOTHING);
      assert Scaled(PacketVolume(ev), 1) == PacketVolume(ev).Plus(Scaled(PacketVolume(ev), 0));
    }
  }

  lemma {:induction false} NodeTrafficIsSum(own: seq<Event>, nid: string)
    requires forall i :: 0 <= i < |own| ==> IsId(own[i].src) && IsId(own[i].dst)
    ensures EventTraffic(own, AtNode(nid)).packets == NodeSum(RAW, nid, own).packets
    ensures EventTraffic(own, AtNode(nid)).bytes == NodeSum(RAW, nid, own).bytes
  {
    hide EdgeId, Target, IsId, AtNode, PacketVolume, OnNode, Scaled;
    if own != [] {
      NodeTrafficIsSum(own[..|own| - 1], nid);
      OneEventAt(own[|own| - 1], nid);
    }
  }

  lemma IdSplits(a: string, b: string)
    requires IsId(a) && IsId(b)
    ensures SplitEdgeId(EdgeId(a, b)) == Endpoints(CanonFrom(a, b), CanonTo(a, b))
  {
    hide SplitEdgeId, Less;
    SplitUndoesJoin(CanonFrom(a, b), CanonTo(a, b));
  }

  lemma OneEventAt(ev: Event, nid: string)
    requires IsId(ev.src) && IsId(ev.dst)
    ensures Scaled(PacketVolume(ev), AtNode(nid)(EdgeId(ev.src, ev.dst))).packets == OnNode(RAW, nid, ev).packets
    ensures Scaled(PacketVolume(ev), AtNode(nid)(EdgeId(ev.src, ev.dst))).bytes == OnNode(RAW, nid, ev).bytes
  {
    hide AtNode, Scaled, OnNode, PacketVolume, EdgeId, IsId;
    EndsOf(ev, nid);
    OwnEnds(ev, nid);
    ScaledTwice(PacketVolume(ev));
  }

  lemma EndsOf(ev: Event, nid: string)
    requires IsId(ev.src) && IsId(ev.dst)
    ensures AtNode(nid)(EdgeId(ev.src, ev.dst)) == (if ev.src == nid then 1 else 0) + (if ev.dst == nid then 1 else 0)
  {
    hide SplitEdgeId, Less, AtNode, EdgeId, IsId;
    IdSplits(ev.src, ev.dst);
    EndsAt(EdgeId(ev.src, ev.dst), CanonFrom(ev.src, ev.dst), CanonTo(ev.src, ev.dst), nid);
  }

  lemma OwnEnds(ev: Event, nid: string)
    ensures var n := (if ev.src == nid then 1 else 0) + (if ev.dst == nid then 1 else 0);
      OnNode(RAW, nid, ev).packets == n * PacketVolume(ev).packets
        && OnNode(RAW, nid, ev).bytes == n * PacketVolume(ev).bytes
  {
    hide Target, EdgeId, CanonFrom;
    RawEvent(ev, "");
  }

  lemma ApplyNodeLoads(nodes: map<Key, NodeAgg>, ev: Event, id: string, host: string, c: int, ip: string)
    ensures AggLoad(ApplyNode(nodes, ev, id, host), Key(c, ip)) ==
            AggLoad(nodes, Key(c, ip)).Plus(If(ev.capture == c && id == ip, Load(ev.length)))
  {
  }

  lemma NoLoads(c: int, ip: string)
    ensures AggLoad(map[], Key(c, ip)) == NodeSum(RAW, ip, [])
  {
  }

  lemma {:induction false} FoldLoads(settings: Settings, events: seq<Event>, c: int, ip: string)
    requires settings.bucketSecs > 0
    ensures AggLoad(Fold(settings, events).nodes, Key(c, ip)) == NodeSum(RAW, ip, OfCapture(events, c))
  {
    hide ApplyEdge, ApplyBucket, ApplyNode, AggLoad, Volume.Plus, Target, NodeSum, Load;
    if events == [] {
      NoLoads(c, ip);
    } else {
      var past, ev := events[..|events| - 1], events[|events| - 1];
      FoldLoads(settings, past, c, ip);
      var nodes := Fold(settings, past).nodes;
      ApplyNodeLoads(nodes, ev, ev.src, ev.srcHost, c, ip);
      ApplyNodeLoads(ApplyNode(nodes, ev, ev.src, ev.srcHost), ev, ev.dst, ev.dstHost, c, ip);
      OneMoreLoad(events, c, ip);
      PlusLaws(AggLoad(nodes, Key(c, ip)), If(ev.capture == c && ev.src == ip, Load(ev.length)),
        If(ev.capture == c && ev.dst == ip, Load(ev.length)));
    }
  }

  lemma OneMoreLoad(events: seq<Event>, c: int, ip: string)
    requires events != []
    ensures var ev := events[|events| - 1];
      NodeSum(RAW, ip, OfCapture(events, c)) == NodeSum(RAW, ip, OfCapture(events[..|events| - 1], c)).Plus(
        If(ev.capture == c && ev.src == ip, Load(ev.length)).Plus(If(ev.capture == c && ev.dst == ip, Load(ev.length))))
  {
    RawEvent(events[|events| - 1], "");
    hide Target, Volume.Plus, Load;
    if events[|events| - 1].capture == c {
      LastOwn(events, c);
    } else {
      PlusLaws(NodeSum(RAW, ip, OfCapture(events, c)), NOTHING, NOTHING);
      PlusLaws(NOTHING, NOTHING, NOTHING);
    }
  }

  /** On an ended capture, the window over all of its buckets carries on every edge the counters of the
      edge's row, and at every node those of the node's row; a packet between a node and itself counts
      twice there in both. */
  lemma WholeWindowIsStored(settings: Settings, steps: seq<Step>, id: int, from: int, to: int)
    requires settings.bucketSecs > 0 && After(settings, steps).Some? && id in After(settings, steps).value.forgotten
    requires var w := After(settings, steps).value;
      && (forall k :: k in w.db.buckets && k.capture == id ==> from <= k.ts < to)
      && (forall i :: 0 <= i < |OfCapture(w.events, id)| ==>
        IsId(OfCapture(w.events, id)[i].src) && IsId(OfCapture(w.events, id)[i].dst))
    ensures var db := After(settings, steps).value.db;
      && (forall edge ::
        Traffic(Window(db.buckets, id, from, to), OnlyEdge(edge)) == AggVolume(db.edges, Key(id, edge)))
      && (forall ip :: var v := Traffic(Window(db.buckets, id, from, to), AtNode(ip));
                       Volume(v.packets, v.bytes, 0, 0, 0, 0) == AggLoad(db.nodes, Key(id, ip)))
  {
    hide After, Fold, IsId, Traffic, OnlyEdge, AtNode, EdgeMatches, EdgeSum, NodeSum;
    EndedCaptureIsStored(settings, steps, id);
    var w := After(settings, steps).value;
    var own, fold := OfCapture(w.events, id), Fold(settings, w.events);
    assert Window(w.db.buckets, id, from, to) == CaptureBuckets(w.db.buckets, id);
    forall edge ensures Traffic(Window(w.db.buckets, id, from, to), OnlyEdge(edge))
      == AggVolume(w.db.edges, Key(id, edge)) {
      FoldTraffic(settings, w.events, id, OnlyEdge(edge));
      EdgeTrafficIsSum(own, edge);
      EdgeRowIs(settings, w, id, edge);
    }
    forall ip ensures var v := Traffic(Window(w.db.buckets, id, from, to), AtNode(ip));
      Volume(v.packets, v.bytes, 0, 0, 0, 0) == AggLoad(w.db.nodes, Key(id, ip))
    {
      FoldTraffic(settings, w.events, id, AtNode(ip));
      NodeTrafficIsSum(own, ip);
      NodeRowIs(settings, w, id, ip);
    }
  }

  lemma EdgeRowIs(settings: Settings, w: World, id: int, edge: string)
    requires settings.bucketSecs > 0 && CaptureOf(w.db.edges, id) == CaptureOf(Fold(settings, w.events).edges, id)
    ensures AggVolume(w.db.edges, Key(id, edge)) == EdgeSum(RAW, edge, OfCapture(w.events, id))
  {
    hide Fold, EndsMatch;
    FoldEdges(settings, w.events, id, edge);
    StoredCaptures.SameEntries(w.db.edges, Fold(settings, w.events).edges, id);
  }

  lemma NodeRowIs(settings: Settings, w: World, id: int, ip: string)
    requires settings.bucketSecs > 0 && CaptureOf(w.db.nodes, id) == CaptureOf(Fold(settings, w.events).nodes, id)
    ensures AggLoad(w.db.nodes, Key(id, ip)) == NodeSum(RAW, ip, OfCapture(w.events, id))
    ensures NodeSum(RAW, ip, OfCapture(w.events, id))
      == Volume(NodeSum(RAW, ip, OfCapture(w.events, id)).packets, NodeSum(RAW, ip, OfCapture(w.events, id)).bytes, 0,
        0, 0, 0)
  {
    hide Fold;
    FoldLoads(settings, w.events, id, ip);
    StoredCaptures.SameEntries(w.db.nodes, Fold(settings, w.events).nodes, id);
  }
}
