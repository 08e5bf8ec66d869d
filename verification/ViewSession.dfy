/** One connection: the per-client part of a hub tick, and the browser that applies its messages in order
    (server/websocket.go tick, static/app.js). */
module ViewSession {
  import opened GraphState
  import opened Views
  import opened ClientDiff
  import opened Chunks
  import opened Mirror
  import opened MirrorSync
  import opened ViewRuns

  lemma FreshPageIsInStep(q: Quantizer, sigs: Signatures)
    ensures var empty := Screen(Table(map[], map[], map[]), Table(map[], map[], map[]), map[], None);
      var l := Link(map[], map[], None, None, empty, map[], map[]);
      Sound(q, sigs, empty) && InStep(q, sigs, l) && CountsInStep(q, sigs, l)
  {
  }

  lemma {:induction false} ChangedIsDistinct<T(!new)>(key: T -> string, same: (T, T) -> bool, last: map<string, T>,
                                               items: seq<T>, full: bool)
    requires Distinct(key, items)
    ensures Distinct(key, Changed(key, same, last, items, full))
  {
    if items != [] {
      var past, item := items[..|items| - 1], items[|items| - 1];
      ChangedIsDistinct(key, same, last, past, full);
      ChangedItems(key, same, last, past, full);
      var sent := Changed(key, same, last, past, full);
      forall i | 0 <= i < |sent| ensures key(sent[i]) != key(item) {
        assert sent[i] in sent;
        var j :| 0 <= j < |past| && past[j] == sent[i];
        assert items[j] == sent[i];
      }
    }
  }

  class Session {
    const client: Client
    const page: Page
    ghost var seenNodes: map<string, Counts>
    ghost var seenEdges: map<string, Volume>

    constructor (client: Client, page: Page)
      ensures this.client == client && this.page == page && seenNodes == map[] && seenEdges == map[]
    {
      this.client, this.page, seenNodes, seenEdges := client, page, map[], map[];
    }

    ghost function State(): Link
      reads this, client, page
    {
      Link(client.lastNodes, client.lastEdges, client.lastPos, client.lastCounts, page.Contents(), seenNodes, seenEdges)
    }

    method SendDelta(view: View, flows: seq<Flow>, full: bool) returns (delta: Option<Delta>, chunks: seq<Delta>)
      requires WellShaped(view)
      modifies client`lastNodes, client`lastEdges, page
      ensures client.lastNodes == ById(NodeKey, view.nodes) && client.lastEdges == ById(EdgeKey, view.edges)
      ensures delta.None? <==>
        !full && flows == [] && Unchanged(client.q, old(client.lastNodes), old(client.lastEdges), view)
      ensures delta.None? ==> chunks == []
      ensures delta.Some? ==>
        && IsSplit(delta.value, chunks)
        && IsDelta(client.q, old(client.lastNodes), old(client.lastEdges), view, flows, full, delta.value)
      ensures page.Contents() == ApplyAll(old(page.Contents()), page.sigs, chunks)
    {
      hide ApplyAll, Changed, Unchanged, ById, Distinct, Keys, IsSplit, Lists, StatsFor;
      ghost var last := client.lastNodes;
      delta := client.BuildDelta(view, flows, full);
      chunks := [];
      if delta.Some? {
        ChangedIsDistinct(NodeKey, SameNode(client.q), last, view.nodes, full);
        chunks := SplitDelta(delta.value);
      }
      ApplyChunks(chunks);
    }

    method SendPositions(view: View, full: bool) returns (moved: seq<Moved>)
      requires WellShaped(view)
      modifies client`lastPos, page`targets
      ensures client.lastPos == Some(Mapped(NodeKey, Place, view.nodes))
      ensures moved == if old(client.lastPos) == None || full then []
        else MovedNodes(old(client.lastPos).value, view.nodes)
      ensures page.targets == Positioned(page.nodes, old(page.targets), moved)
    {
      hide Mapped, Distinct, MovedNodes, Positioned;
      moved := client.BuildPosFrame(view, full);
      page.ApplyPositionFrame(moved);
    }

    method SendCounts(view: View, full: bool, now: int) returns (frame: Option<CountsFrame>)
      requires WellShaped(view)
      modifies client`lastCounts, page`nodes, page`edges
      ensures client.lastCounts.Some?
        && CountsSent(old(client.lastCounts), view, full, now, frame, client.lastCounts.value)
      ensures page.Contents() == Recount(old(page.Contents()), frame)
    {
      hide Mapped, Distinct, Recounted, Refreshed;
      frame := client.BuildCountsFrame(view, full, now);
      if frame.Some? {
        page.ApplyCountsFrame(frame.value);
      }
    }

    /** Delta, then positions, then counters; the browser applies each message as it comes. */
    method Tick(view: View, flows: seq<Flow>, full: bool, now: int) returns (ghost t: ViewRuns.Tick)
      requires WellShaped(view)
      modifies this, client, page
      ensures Sends(client.q, old(State()), t) && State() == Next(client.q, page.sigs, old(State()), t)
      ensures t.view == view && t.full == full
    {
      hide WellShaped, ApplyAll, Unchanged, ById, Mapped, Shown, MovedNodes, Positioned, Recount, IsDelta, IsSplit,
           CountsSent;
      var delta, chunks := SendDelta(view, flows, full);
      var moved := SendPositions(view, full);
      var frame := SendCounts(view, full, now);
      t := ViewRuns.Tick(view, full, flows, now, delta, chunks, moved, frame, client.lastCounts.value);
      seenNodes := Shown(NodeKind(client.q, page.sigs), seenNodes, view.nodes);
      seenEdges := Shown(EdgeKind(client.q, page.sigs), seenEdges, view.edges);
    }

    method ApplyChunks(chunks: seq<Delta>)
      modifies page
      ensures page.Contents() == ApplyAll(old(page.Contents()), page.sigs, chunks)
    {
      hide Updated;
      for i := 0 to |chunks|
        invariant page.Contents() == ApplyAll(old(page.Contents()), page.sigs, chunks[..i])
      {
        assert chunks[..i + 1][..i] == chunks[..i];
        page.UpdateGraph(chunks[i]);
      }
      assert chunks[..|chunks|] == chunks;
    }
  }
}
