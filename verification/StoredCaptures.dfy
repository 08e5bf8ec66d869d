/** A capture that has ended, read back from the tables: recording, flushing, ending and loading end to end
    (store/store.go, store/writer.go, store/query.go, graph/graph.go, replay/replay.go). */
module StoredCaptures {
  import opened GraphState
  import opened Aggregates
  import opened StoreRuns
  import opened LoadReplay

  lemma ListsOfTable(settings: Settings, w: World, id: int, rows: seq<StoredNode>, edgeRows: seq<StoredEdge>)
    requires settings.bucketSecs > 0
    requires CaptureOf(w.db.nodes, id) == CaptureOf(Fold(settings, w.events).nodes, id)
    requires CaptureOf(w.db.edges, id) == CaptureOf(Fold(settings, w.events).edges, id)
    requires ListsNodes(rows, w.db.nodes, id) && ListsEdges(edgeRows, w.db.edges, id)
    ensures ListsNodes(rows, Fold(settings, w.events).nodes, id)
      && ListsEdges(edgeRows, Fold(settings, w.events).edges, id)
  {
    hide Fold, HasRow, EdgeOfRow;
    SameEntries(w.db.nodes, Fold(settings, w.events).nodes, id);
    SameEntries(w.db.edges, Fold(settings, w.events).edges, id);
  }

  lemma SameEntries<T>(a: map<Key, T>, b: map<Key, T>, id: int)
    requires CaptureOf(a, id) == CaptureOf(b, id)
    ensures forall k: Key {:trigger k in a} {:trigger k in b} :: k.capture == id ==>
      (k in a <==> k in b) && (k in a ==> a[k] == b[k])
  {
    forall k: Key | k.capture == id ensures (k in a <==> k in b) && (k in a ==> a[k] == b[k]) {
      assert k in a <==> k in CaptureOf(a, id);
      assert k in b <==> k in CaptureOf(b, id);
    }
  }

  /** However recording, queueing, flushing and ending interleaved: once a capture has ended, loading its
      rows from the tables builds the graph that replaying its packets builds. */
  lemma EndedCaptureReloads(settings: Settings, n: Names, catalog: Catalog, steps: seq<Step>, id: int,
                            rows: seq<StoredNode>, edgeRows: seq<StoredEdge>, replayedAt: int, loadedAt: int)
    requires settings.bucketSecs > 0 && After(settings, steps).Some? && id in After(settings, steps).value.forgotten
    requires EventsOk(n, OfCapture(After(settings, steps).value.events, id))
    requires ListsNodes(rows, After(settings, steps).value.db.nodes, id)
      && ListsEdges(edgeRows, After(settings, steps).value.db.edges, id)
    ensures WellFormed(EMPTY) && forall i :: 0 <= i < |rows| ==> RowOk(n.group, rows[i])
    ensures var own := OfCapture(After(settings, steps).value.events, id);
      SameTraffic(n, own, Loaded(EMPTY, n.group, catalog, rows, edgeRows, loadedAt),
        Replay(n, catalog, own, replayedAt))
  {
    hide *;
    EndedCaptureIsStored(settings, steps, id);
    ListsOfTable(settings, After(settings, steps).value, id, rows, edgeRows);
    LoadingIsReplaying(settings, n, catalog, After(settings, steps).value.events, id, rows, edgeRows, replayedAt,
      loadedAt);
  }
}
