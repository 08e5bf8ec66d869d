# The packet graph's data path, verified

The server watches packets, keeps a live graph of who talks to whom, stores it, and shows each connected browser a
view of it. Every layer holds redundant state: four identity maps and an adjacency index beside the nodes and edges;
an in-memory aggregator beside the tables it flushes to; a per-client baseline beside the browser's own copy; a ring
beside the packet history. This project models those layers and proves that each redundant copy agrees with what it
stands for, over every input and every run.

- **The graph** (`Ids`, `Sums`, `GraphState`, `Adjacency`, `GraphManager`, `GraphInvariants`, `GraphRuns`, `Lineage`,
  `Identity`, `PacketEdges`). `GraphManager.Manager` is a class with the source's maps of node and edge objects,
  updated in place. Each of its methods is proved against a function on values (`GraphState`), under an invariant that
  contains the exact adjacency index. The main results are about those functions: map iteration order does not matter
  when two nodes merge, merging conserves traffic but for the self-loops it removes, and the identity maps stay
  consistent in every run. `Lineage` follows every node through a packet: whose MAC and addresses it lists afterwards.
  `Identity` says what each operation does to the records, and `PacketEdges` which edge a packet counts on and in which
  direction.
- **Persistence** (`Aggregates`, `StoreRuns`, `StoreWriter`, `LoadReplay`, `StoredCaptures`, `VolumeSums`,
  `WindowQuery`, `StoredWindows`, `SentTraffic`, `WindowTraffic`). The aggregator and the writer are classes; their
  steps are also a state machine whose runs interleave recording, queueing, flushing and ending captures in any order.
  Tables plus dirty entries are always the fold of all packets; loading what was stored builds the graph that replaying
  the packets builds; window queries add up, and over the whole range give the stored totals. Direction counters are
  counts of packets by sender, and a window carries exactly the packets of its seconds.
- **The view protocol** (`Views`, `ClientDiff`, `Chunks`, `Mirror`, `MirrorSync`, `ViewRuns`, `ViewSession`, `Hub`,
  `Rendering`, `TopFlows`, `ViewCache`). The server's per-client diff state and the browser's page are classes. After
  every tick of every run the page shows exactly the view, each node at its place; after every counts frame the
  counters agree. `Rendering` states both field by field, and what is sent and what is not. The hub's connections form
  a state machine with control messages arriving at any point of a tick.
- **The subnet view** (`SubnetFold`, `FoldedSubnets`, `SubnetView`, `ViewEdges`, `ViewAssembly`, `ShownTraffic`,
  `Sorting`). Folding hosts into /24 and /16 supernodes, the one-hop remapping of identifiers, the merged edges, and
  the choice of the nodes and edges shown. `ViewAssembly.ServeView` joins this half to the view protocol: what it
  builds is what the protocol asks of a view.
- **Smaller parts**: the display filter (`FilterLexer`, `FilterParser`, `FilterPrinting`, `FilterMeaning`), the raw
  topology and its binary frame (`RawTopology`, `RawContents`, `RawFrame`, `RawWire`), the packet ring and its pollers
  (`PacketRing`, `PacketPolls`), and the token bucket (`RateLimit`).

Conventions. Node identifiers are non-empty and do not contain the separator `<->`; the view also needs them to hold no
`/`, so that subnet names are fresh. Time is an integer handed in by the caller (a real in `RateLimit`). Counters are
unbounded. Hash and logarithm functions, the group-address labels and the protocol catalog are parameters. A map is
walked in an arbitrary order, so whatever is proved holds for every order.

What the proofs showed about the code:

- `mergeNodeInto`'s branch for two old edges that become one (graph/graph.go:474-484) can never be taken: distinct
  edges re-key to distinct keys.
- The branch at graph/graph.go:344-349 that should append a second address to a node tests the mapping written at line
  320, so it never appends. `GraphManager.Manager.CountPacket` has the branch, and its contract says that a known
  node's list stays as it was. The other direction (each listed address maps to its node) is proved.
- So removing a stale node leaves an address leading nowhere if and only if one led to it that it does not list
  (`Identity.DropStrandsExactly`), such as a second address with the same host name.
- Loading and replaying agree on every edge between two different nodes, but not on loops: `BulkLoad` skips edges whose
  two addresses resolve to one node (graph/graph.go:1473-1487), while the packet path keeps them, against the comment
  there. `LoadReplay.LoadingIsReplaying` states that the graphs agree on all edges if and only if no packet is such a
  loop; `LoadReplay.NamingMakesALoop` is the smallest one.
- The rate limiter's bound holds on every schedule if and only if `maxAge * rate >= burst`; otherwise a cleanup forgets
  a client too early (`RateLimit.BoundedExactlyIfRefilled`). The default settings meet the condition.
- The filter lexer never comes to an end at a lone `=`, `&` or `|` outside quotes, and only there
  (`FilterLexer.HaltsUnlessLone`); the query `=` is an instance (`FilterLexer.EqualsSignSticks`).
- `Flush` leaves the queue non-empty exactly if more than 20000 rows are pending and queued
  (`StoreWriter.Store.FlushRequest`), which a run can reach (`StoreWriter.MoreThanAFlushDrains`).
- Clear installs a new packet ring that numbers from 1 again, while pollers keep their cursors. A poller that keeps up
  then misses exactly the matching packets numbered up to its old cursor (`PacketPolls.ClearSkipsExactly`).
- Clients with the same `viewConfigKey` share one view (server/viewcache.go:30-54). The key is an undelimited list of
  three sets of names, so it determines the configuration only if their elements tell them apart. It does if no text
  holds the delimiter, hidden names hold no `/`, subnets do, and only opened subnets are fully opened, as in every
  message of the bundled page (`ViewCache.KeyDetermines`); it does not for a subnet that is only fully opened
  (`ViewCache.KeysCollide`).
- `SplitEdgeID` undoes the join if and only if both halves are non-empty and the separator does not begin in the first.

## Model

| member | source | states |
|---|---|---|
| Ids.LessIsTotal | graph/graph.go:133-139 | Go's string order, which picks an edge's canonical direction, is total and asymmetric |
| Ids.LessIsTransitive | graph/graph.go:133-139 | Go's string order is transitive |
| Ids.LessExactly | graph/graph.go:133-139 | Go's string order: a proper beginning comes first, else the first byte that differs decides |
| Ids.CanonicalOrder | graph/graph.go:133-139 | an edge key does not depend on the packet's direction, and canonical endpoints are canonical again |
| Ids.EdgeIdIsInjective | graph/graph.go:133-139 | distinct pairs of identifiers have distinct edge keys |
| Ids.SplitUndoesJoin | graph/graph.go:143-148 | splitting a joined key gives both halves back if and only if they are non-empty and the first holds no separator |
| Ids.JoinUndoesSplit | graph/graph.go:143-148 | whatever splits is the join of its halves |
| Adjacency.LookupEqualsScan | graph/graph.go:1286-1306 | with an exact index, looking a node up finds what scanning all edges finds |
| Adjacency.ListedTwiceIsExact | graph/graph.go:218-227 | listing a new edge under both ends keeps the index exact, self-loops included |
| Adjacency.UnlistedTwiceIsExact | graph/graph.go:229-240 | unlisting an edge keeps the index exact and leaves no empty sets |
| GraphManager.Manager.IndexEdge | graph/graph.go:218-227 | the index gains the edge's key under both ends and nothing else changes |
| GraphManager.Manager.UnindexEdge | graph/graph.go:229-240 | the index loses the key under both ends and nothing else changes |
| GraphState.MovesAreInjective | graph/graph.go:446-503 | two different edges of the old node never re-key to the same key, so the pending-edge branch is dead |
| GraphState.VisitAdvances | graph/graph.go:428-503 | visiting one more edge, whichever it is, advances the loop towards the same end |
| GraphState.AllVisited | graph/graph.go:428-503 | once all edges are visited, the result is the merge, whatever the order was |
| GraphManager.Manager.VisitEdges | graph/graph.go:428-490 | the loop over the edges in arbitrary map order: what is to be deleted, what to be added, and the index meanwhile |
| GraphManager.Manager.RekeyEdges | graph/graph.go:428-503 | in place, every edge of the old node becomes one of the new: re-keyed, combined with an existing edge, or dropped as a loop; the index stays exact |
| GraphManager.Manager.MergeNodeInto | graph/graph.go:392-521 | merges records, edges and the three lookup maps as the specification says, keeping the invariant |
| GraphState.MergeKeepsWellFormed | graph/graph.go:392-521 | a merge keeps: nodes under their own identifiers, disjoint address lists that map back, edges under canonical keys with forward plus reverse equal to the total, anchors never shared |
| GraphInvariants.MergeKeepsLive | graph/graph.go:505-517 | a merge keeps every MAC anchor on a live node listing it and every address on a live node |
| GraphInvariants.MergeConservesNodes | graph/graph.go:392-426 | a merge changes neither the packets nor the bytes summed over all nodes |
| GraphInvariants.MergeConservesEdges | graph/graph.go:446-503 | a merge lowers the packets and bytes summed over all edges by exactly those of the edges that became loops |
| Identity.MergedRecord | graph/graph.go:392-526 | the surviving record has both nodes' packets and bytes and keeps its own name, sighting and group mark; where there was none, the old record moves under the new name; lookups that led to the old node lead to the new one |
| Identity.MergedEdge | graph/graph.go:428-503 | the edge between the survivor and any other node has, counter by counter, the sum of both edges to it, the latest sighting, and these two ends |
| Identity.OtherEdges | graph/graph.go:428-503 | no edge is left at the node merged away, and every edge between two others is untouched |
| Lineage.MergeLineage | graph/graph.go:392-526 | all addresses and MACs of the old node are the new one's, and no node gains any other |
| GraphManager.Manager.AddOrUpdateNode | graph/graph.go:277-366 | identity resolution, a possible merge, the counters and the names of one packet's endpoint |
| GraphManager.Manager.CountPacket | graph/graph.go:322-366 | counts the packet on a new or a known node; the branch that would append an address to a known node never does |
| Identity.CountedNode | graph/graph.go:277-390 | the packet counts on the node its host name leads to, else on its own address's; what the address had on another node moves there first, and no other node changes |
| Lineage.AddNodeLineage | graph/graph.go:277-390 | counting a packet loses no address or MAC of any node and adds at most its own address |
| GraphState.AddNodeKeepsWellFormed | graph/graph.go:277-366 | counting a packet on a node keeps the structural invariant, merges included |
| GraphInvariants.AddNodeKeepsLive | graph/graph.go:277-366 | counting a packet keeps anchors and addresses on live nodes |
| GraphManager.Manager.RecordMAC | graph/graph.go:573-625 | notes a MAC; anchors, promotes, or on a conflict marks it shared and demotes, as specified |
| Lineage.HostMacExactly | graph/graph.go:528-556 | which texts are host MACs, character by character: long enough, first byte hexadecimal with its lowest bit clear, not all zeros |
| Lineage.IdentifyLineage | graph/graph.go:573-629 | a MAC whose anchor was seen less than 90 seconds ago becomes shared and anchors nothing; an older anchor becomes one with the node that shows the MAC, which then anchors it; a shared MAC decides nothing; no list loses or gains an entry |
| Lineage.RecordMacLineage | graph/graph.go:573-629 | the MAC is listed by the node its address leads to afterwards, and by no other that did not list it |
| GraphState.RecordMacKeepsWellFormed | graph/graph.go:573-625 | noting a MAC keeps the structural invariant through promotion and demotion |
| GraphInvariants.RecordMacKeepsLive | graph/graph.go:573-625 | noting a MAC keeps anchors and addresses on live nodes |
| GraphInvariants.RecordMacConserves | graph/graph.go:573-625 | noting a MAC changes no packet or byte total over the nodes |
| GraphManager.Manager.PromoteNodeIDToMAC | graph/graph.go:631-674 | a node with an address for an identifier is re-keyed to its MAC, merging if the MAC already names a node |
| Identity.PromotedRecord | graph/graph.go:631-678 | the promoted node's counters, anchor and name lead to the MAC; it is called by its own name, else its first host address; a name that was only its identifier is forgotten |
| GraphState.PromoteKeepsWellFormed | graph/graph.go:631-674 | promotion keeps the structural invariant |
| GraphManager.Manager.DemoteMACIdentity | graph/graph.go:680-715 | a node keyed by a MAC found shared is re-keyed to its host name or first address |
| Identity.DemotedRecord | graph/graph.go:680-719 | the demoted node goes by its first host address, with its counters and its name, and stays as it is if it has none |
| GraphState.DemoteKeepsWellFormed | graph/graph.go:680-715 | demotion keeps the structural invariant |
| GraphManager.Manager.AddOrUpdateEdge | graph/graph.go:776-835 | one packet more on the one edge between its resolved endpoints: forward exactly if the edge leads from the source, else in reverse; a generic protocol does not displace the edge's; all other edges stay and the index is exact |
| GraphState.AddEdgeCounts | graph/graph.go:795-833 | which counters of which edge a packet raises, and by how much, for every state |
| GraphState.AddEdgeKeepsWellFormed | graph/graph.go:776-835 | counting a packet on an edge keeps keys canonical and directions adding up |
| GraphManager.Manager.Ingest | graph/graph.go:1071-1094 | both endpoints, their MACs, then the edge; afterwards the node each address leads to lists its own end's host MAC, no list has lost an entry, and no node gained a MAC or an address but what it merged in and its own end's |
| Lineage.IngestLineage | graph/graph.go:1071-1094 | where every node's addresses and MACs are after a packet: each node of the old graph has become one that lists all it listed, and whatever a node lists more came from its own end of the packet |
| PacketEdges.IngestSends | graph/graph.go:1071-1094 | a packet only merges nodes and then counts once, on the edge between the nodes its addresses lead to by then, in the direction in which it was sent |
| PacketEdges.IngestNames | graph/graph.go:1071-1094 | without host MACs the destination leads to the node its own host name names |
| GraphState.IngestKeepsWellFormed | graph/graph.go:1071-1094 | a packet with all the merges it triggers keeps the structural invariant |
| GraphInvariants.IngestCounts | graph/graph.go:1071-1094 | a packet adds exactly two packets and twice its length to the totals over the nodes, whatever merges it triggers |
| GraphInvariants.IngestKeepsLive | graph/graph.go:1071-1094 | a packet keeps anchors and addresses on live nodes |
| GraphManager.Manager.RemoveStaleNodes | graph/graph.go:1099-1150 | removes nodes past the threshold, stalest first and at most 50, with their names and anchors, and no others |
| GraphManager.StalestExactly | graph/graph.go:1099-1150 | what is removed was seen longer ago than the threshold, and a stale entry stays only if the limit is reached and nothing fresher than it went |
| Identity.DroppedNode | graph/graph.go:1127-1147 | exactly the node, the addresses it lists, its identifier and name, and the anchors of its MACs are forgotten |
| Identity.DropStrandsExactly | graph/graph.go:1127-1147 | removing a node leaves an address leading nowhere if and only if some address led to it that it does not list |
| GraphInvariants.DropNodeKeepsAnchorsLive | graph/graph.go:1129-1148 | removing a stale node leaves no anchor on it |
| GraphManager.Manager.RemoveStaleEdges | graph/graph.go:1156-1200 | removes edges past the threshold, stalest first and at most 100, from the map and the index, and no others |
| GraphManager.Manager.Clear | graph/graph.go:1395-1430 | empties nodes, edges, index, addresses and names; the MAC maps stay, and the invariant still holds |
| GraphManager.Manager.BulkLoad | graph/graph.go:1436-1530 | loads stored rows as the specification says; absolute counters overwrite, loops by resolution are skipped, flipped edges swap directions |
| GraphState.LoadedKeepsWellFormed | graph/graph.go:1436-1530 | loading keeps the structural invariant |
| GraphManager.Manager.Connections | graph/graph.go:1286-1306 | each edge touching the node exactly once, with its other end as peer, outbound unless it leads to the node, and its protocol and counters |
| GraphRuns.StepKeeps | graph/graph.go:270-1530 | every operation keeps the invariants, anchors unless it is Clear, live addresses unless it is node decay, and shared MACs only grow |
| GraphRuns.LiveInEveryRun | graph/graph.go:505-715 | in every run without Clear each anchor names a live node listing the MAC; in every run without node decay each known address leads to a live node |
| GraphRuns.SharedForever | graph/graph.go:573-625 | in every run a MAC once shared stays shared and is never an anchor again |
| GraphRuns.NodesCountTwice | graph/graph.go:1071-1094 | after k packets and whatever merges, node packets sum to 2k and node bytes to twice the bytes |
| GraphRuns.StoredAsNamed | graph/graph.go:277-835 | in every run: nodes and edges under their own identifiers, address lists disjoint and mapped back, edge directions adding up |
| Aggregates.Aggregator.ApplyEndpoint | store/writer.go:113-137 | one endpoint's row counts the packet and is marked dirty |
| Aggregates.Aggregator.Apply | store/writer.go:106-177 | one packet more on each end's row, on the pair's row forward exactly if the sender is its first end, and in the bucket that holds the packet's second; everything else stays, and exactly those rows become dirty |
| Aggregates.AppliedRecords | store/writer.go:106-177 | the same, counter by counter and for every state: packets, bytes, sightings, names, protocol, direction and bucket |
| Aggregates.BucketHoldsItsSecond | store/writer.go:159-162 | a bucket begins at a multiple of its width, and the packet's second lies within it; before 1970, where division truncates upwards, it ends with it |
| Aggregates.Aggregator.Snapshot | store/writer.go:189-219 | the batch is the dirty rows as they are and all buckets; dirty sets, buckets and the dropped count are reset |
| Aggregates.Aggregator.DropCapture | store/writer.go:221-237 | forgets exactly the rows of one capture |
| StoreRuns.FollowsRecord | store/writer.go:106-177 | recording keeps a table, the batch in flight and the live rows together equal to the fold |
| StoreRuns.FollowsSnapshot | store/writer.go:189-219 | so does moving the dirty rows into flight |
| StoreRuns.FollowsCommit | store/writer.go:305-406 | so does upserting the batch, which supersedes older rows |
| StoreRuns.StepKeeps | store/writer.go:106-406 | every step of recording, queueing, flushing and ending keeps the store consistent with the fold |
| StoreRuns.EveryRunIsConsistent | store/writer.go:106-406 | the store is consistent in every run, under every interleaving |
| StoreRuns.PersistenceRefinesFold | store/writer.go:106-303 | in every run: rows overlaid with dirty entries are the fold's, flushed and unflushed buckets add up to the fold's, dirty keys exist, and each sampled row is exactly one of inserted, pending, queued or counted as dropped |
| StoreRuns.EndedCaptureIsStored | store/store.go:193-209 | once a capture is forgotten its tables hold exactly the fold of its packets |
| StoreWriter.Store.Offer | store/store.go:231-250 | never blocks: a full queue refuses the row and counts it |
| StoreWriter.Store.RecordPacket | store/store.go:231-250 | folds every packet of a capture and samples its row: all, none, or one in packetEvery |
| StoreWriter.Store.Upsert | store/writer.go:334-381 | the statement loop overwrites or inserts each row of the batch, keeping what conflicts keep |
| StoreWriter.Store.AddBuckets | store/writer.go:383-406 | the statement loop adds each bucket to the stored one |
| StoreWriter.Store.FlushTx | store/writer.go:305-406 | one transaction is the machine's commit step: rows, nodes, edges and buckets together |
| StoreWriter.Store.Flush | store/writer.go:239-303 | afterwards everything folded and every pending row is in the tables |
| StoreWriter.Store.OnRow | store/writer.go:239-303 | a row reaches the writer in order; a full batch is flushed at once, so fewer than a batch wait |
| StoreWriter.Store.FlushRequest | store/store.go:271-283 | no row is lost or reordered, and the queue is empty afterwards if and only if it was or pending plus queued fit the drain limit |
| StoreWriter.MoreThanAFlushDrains | store/store.go:271-283 | a run reaches a full queue with a batch but one row pending: more than one flush drains |
| StoreWriter.Store.EndCapture | store/store.go:193-209 | afterwards the capture's tables equal the fold of its packets; capture 0 changes nothing |
| LoadReplay.ReplayCounts | replay/replay.go:358-394 | packet-by-packet replay counts each packet on the nodes its addresses are named after and on the edge between them, in its direction |
| LoadReplay.FoldNodes | store/writer.go:106-137 | the aggregator's node rows are the per-address sums of the capture's packets, with the host's name |
| LoadReplay.FoldEdges | store/writer.go:138-177 | the aggregator's edge rows are the per-pair sums, direction by direction |
| LoadReplay.LoadCountersSums | graph/graph.go:1449-1470 | loading sums the rows that resolve to one node, instead of letting the last win |
| LoadReplay.LoadEdgesSums | graph/graph.go:1472-1530 | loading sums the edge rows that resolve to one edge, turning those whose order naming reversed |
| LoadReplay.NodesByEvents | graph/graph.go:1449-1470 | regrouping by row what was grouped by packet gives the same node sums |
| LoadReplay.EdgesByEvents | graph/graph.go:1472-1530 | the same for edges, but for the packets whose two ends naming made one |
| LoadReplay.ProperEdgesAreWhole | graph/graph.go:1472-1530 | on an edge between different nodes nothing is left out |
| LoadReplay.ArtifactsAreLeftOut | graph/graph.go:1473-1487 | without loops made by naming nothing is left out anywhere; each such packet is missing from its loop |
| LoadReplay.LoadingIsReplaying | graph/graph.go:1436-1530 | loading a capture's aggregates gives the nodes and counters that replaying its packets gives, and the edges and counters between different nodes; it agrees on all edges if and only if naming makes no loop |
| SentTraffic.EdgeSumBySender | graph/graph.go:795-817 | counting by edge key is counting by sender: forward what one end sent to the other, in reverse what came back |
| SentTraffic.ReplayedBySender | graph/graph.go:795-817 | every edge of a replayed graph counts forward the packets and bytes that hosts named its `from` sent to those named its `to`, and in reverse those that came back |
| SentTraffic.LoadedBySender | graph/graph.go:1436-1500 | so does every edge between two different nodes of a graph loaded from stored rows |
| SentTraffic.ReplayedByEnds | replay/replay.go:358-394 | every node of a replayed graph counts the packets and bytes that the hosts named so sent and received |
| SentTraffic.LoadedByEnds | graph/graph.go:1436-1470 | so does every node of a graph loaded from stored rows |
| LoadReplay.NamingMakesALoop | graph/graph.go:1473-1487 | two addresses of one host exchange a packet: the replayed loop counts it, the loaded one does not |
| StoredCaptures.EndedCaptureReloads | store/query.go:66-135 | however recording and flushing interleaved, reloading an ended capture from its tables is replaying its packets |
| SentTraffic.FoldedBySender | store/writer.go:108-150 | every edge row counts forward what its `from` sent to its `to`, and in reverse what came back |
| SentTraffic.EndedRowsBySender | store/writer.go:108-150 | so does every stored edge row of an ended capture, in every run |
| VolumeSums.Exchange | store/query.go:281-391 | summing row by row is summing packet by packet |
| WindowQuery.CountEdge | store/query.go:305-340 | one row is added to its edge, whose endpoints are its key's, and may name its protocol; an unsplittable key is skipped |
| WindowQuery.DominantIsUnique | store/query.go:331-339 | the rule "busiest specific protocol, else busiest generic one, first come first" picks one row |
| WindowQuery.AggregateRows | store/query.go:301-356 | the row loop yields each edge once in order of first appearance, summed, with its dominant protocol, and both ends' totals |
| WindowQuery.WindowAggregates | store/query.go:281-391 | every edge has the window's traffic and dominant protocol, every endpoint the traffic at both ends of its edges (a self-loop twice) and its stored name |
| WindowQuery.GroupsAddUp | store/query.go:285-294 | grouped rows in any order carry exactly the window's traffic |
| WindowQuery.WindowsAddUp | store/query.go:285-294 | windows that meet add up on every edge and node |
| StoredWindows.FoldTraffic | store/writer.go:106-177 | the buckets of a capture carry exactly its packets |
| StoredWindows.WholeWindowIsStored | store/query.go:281-391 | in every run, the window over a whole ended capture equals the stored edge and node counters |
| WindowTraffic.BucketInWindow | store/writer.go:159-162 | a bucket begins in a window between two multiples of its width exactly if its packets' seconds are the window's |
| WindowTraffic.FoldWindow | store/query.go:276-294 | the buckets that begin in such a window carry the traffic of the capture's packets whose second lies in it, and no other |
| WindowTraffic.WindowShowsItsSeconds | store/query.go:276-294 | in every run, the window over the tables with what is still to be flushed for it is the traffic of exactly the packets of its seconds |
| WindowTraffic.EndedWindowShowsItsSeconds | store/query.go:276-294 | of an ended capture the tables alone show it |
| WindowTraffic.WindowBySender | store/query.go:276-325 | in the window, the edge between two hosts counts forward what the first sent in its seconds and in reverse what came back |
| ClientDiff.Prune | server/websocket.go:684-777 | entries no longer in the view are listed once each and forgotten |
| ClientDiff.Diff | server/websocket.go:684-777 | what is sent is what is new or renders differently, what is removed is what is gone, and the baseline becomes the view |
| ClientDiff.Client.BuildDelta | server/websocket.go:684-777 | the delta is the diff against the last view, and none is sent if and only if nothing changed and nothing else is to be shipped; `Rendering` says which fields that is |
| Rendering.NodesRenderAlike | server/websocket.go:646-671 | two nodes render the same if and only if they agree in everything but counters, place and tail mark, and in their size's bucket |
| Rendering.EdgesRenderAlike | server/websocket.go:673-679 | two edges do if and only if they agree in everything but their counters, and in their width's bucket |
| Rendering.SentExactly | server/websocket.go:728-770 | a delta holds exactly the items that are new or differ from what was last sent in more than counters and place, and exactly the ids that are gone |
| Rendering.NothingSentExactly | server/websocket.go:728-770 | nothing is to be sent if and only if no item is new or gone and none differs in more than counters and place |
| Rendering.StatsAreTheViews | server/websocket.go:780-788 | the statistics sent are the numbers of nodes and edges and the packets of all the view's edges |
| ClientDiff.Client.BuildPosFrame | server/websocket.go:798-848 | the frame lists exactly the nodes not at the place last shipped; a full view only resets the baseline |
| ClientDiff.Client.BuildCountsFrame | server/websocket.go:866-928 | at most once per interval, the frame lists exactly the counters that changed since the last one |
| Chunks.SplitDelta | server/websocket.go:522-566 | chunking as specified, at most 150 nodes each |
| Chunks.ChunksAreSmall | server/websocket.go:522-566 | every chunk but the last holds 150 nodes, and the last no more |
| Chunks.ChunkMarks | server/websocket.go:522-566 | only the first chunk is full and carries removals, only the last is done |
| Chunks.AfterEndpoints | server/websocket.go:522-566 | no edge travels before its endpoints |
| Chunks.SplittingIsFaithful | server/websocket.go:522-566 | chunks concatenate to the node list and ship each edge with both ends exactly once |
| Mirror.NearIsEqual | static/app.js:2479-2503 | the tolerance of the page's position test is equality on rounded positions |
| Mirror.Page.ApplyTargetPosition | static/app.js:2479-2503 | a node's target moves, unless it is there already, and its pin follows |
| Mirror.Page.UpdateGraph | static/app.js:2858-3114 | removals, upserts and, when done, reconciliation with what a full snapshot listed |
| Mirror.Page.ApplyPositionFrame | static/app.js:2529-2566 | targets move for the listed nodes the page holds |
| Mirror.Page.ApplyCountsFrame | static/app.js:2567-2594 | counters of listed items the page holds are replaced, nothing else |
| MirrorSync.DeltaTracks | server/websocket.go:684-777 | a diff takes a page in step with one view to the next |
| MirrorSync.FullTracks | static/app.js:3091-3114 | a complete full snapshot brings any page in step, whatever it held |
| MirrorSync.FrameTracks | static/app.js:2567-2594 | a counts frame keeps a page in step |
| MirrorSync.DeltaBetween | server/websocket.go:866-928 | counters that ride deltas leave each held counter between the last frame's and the current one |
| MirrorSync.BaselineBetween | server/websocket.go:866-928 | after a full snapshot the frame's baseline is what the page holds |
| MirrorSync.FrameLands | server/websocket.go:866-928 | a frame listing only changes since the last frame still makes every held counter equal |
| ViewRuns.FullApplied | static/app.js:2858-3114 | however it is chunked, a full snapshot leaves exactly what its messages listed |
| ViewRuns.TickKeepsInStep | server/websocket.go:432-512 | a full tick brings any page in step; every other keeps one in step |
| ViewRuns.TickKeepsCounts | server/websocket.go:866-928 | a tick keeps counters consistent with the baseline, and equal after a frame or a full view |
| ViewRuns.EveryTickShowsTheView | server/websocket.go:432-512 | after every tick of every run the page has exactly the view's nodes and edges, render-equal, each node at its place |
| ViewRuns.EveryFrameShowsTheCounters | server/websocket.go:866-928 | if no counter ever shrank, after every counts frame the page's counters equal the view's |
| Rendering.EveryTickFieldByField | server/websocket.go:432-512 | after every tick of every run the page draws exactly the view's ids and holds each one's caption, addresses, group and subnet marks, tier, shape, colour, role, icon, device, pin, host count and size bucket, each edge's ends, protocol and width bucket, and aims each node at its place |
| Rendering.EveryFrameFieldByField | server/websocket.go:866-928 | after every counts frame and full snapshot each counter on the page is the view's, if none ever shrank |
| ViewSession.FreshPageIsInStep | static/app.js:3189-3197 | an empty page and a new client are in step |
| ViewSession.Session.Tick | server/websocket.go:432-512 | the server's and the page's code together perform one tick of the runs above |
| Hub.ClientConfig.ApplyControl | server/websocket.go:932-1012 | each field of the configuration and the timeline after each kind of message, the windows and zoom bands it accepts, and when it asks for a full view |
| Hub.ClientConfig.ConsumeNeedsFull | server/websocket.go:612-618 | reads and clears the request in one step |
| Hub.ChangesAskForFull | server/websocket.go:932-1012 | no change of configuration goes without a request; of the timeline only moving within one capture does |
| Hub.RequestsAreNeverSkipped | server/websocket.go:322-380 | a pending request is never skipped by the idle or pacing rules |
| Hub.StepKeeps | server/websocket.go:287-380 | registering, closing, control messages and the phases of a tick keep the hub consistent |
| Hub.NoSendAfterClose | server/websocket.go:287-312 | in every run each channel closes at most once, nothing is sent on it afterwards, and a registered client is in the map if and only if its channel is open |
| Hub.ATickServesEveryRequest | server/websocket.go:432-512 | when a tick ends, every client still connected has had each full view asked for before it began, from a configuration at least as new |
| ViewCache.DecimalIsInjective | server/viewcache.go:30-41 | different numbers are written differently |
| ViewCache.JoinedIsInjective | server/viewcache.go:30-54 | texts without the delimiter can be told apart when joined by it |
| ViewCache.SortsOnce | server/viewcache.go:43-54 | a set of names is written in one way |
| ViewCache.ViewConfigKey | server/viewcache.go:30-54 | the writing loops yield the joined parts: scalars, hidden protocols, opened and fully opened subnets |
| ViewCache.SameKeyExactly | server/viewcache.go:30-54 | two configurations share a key if and only if their scalars agree and their three sorted lists agree end to end |
| ViewCache.KeyDetermines | server/viewcache.go:30-54 | with hidden names that are no subnets and full expansion only within opened subnets, they share a key if and only if they show the same view |
| ViewCache.KeysCollide | server/viewcache.go:30-54 | without that they may not: one subnet opened and the same subnet only fully opened share a key |
| ViewCache.StaysSeparable | server/websocket.go:932-1012 | control messages of the bundled page's form keep configurations apart |
| ViewCache.LiveViews | server/websocket.go:463-480 | each live client gets a view built under its key, and under that condition the view of its own configuration |
| TopFlows.SortedIsStable | server/websocket.go:575-596 | sorting by insertion is a stable descending sort |
| TopFlows.StableSortIsUnique | server/websocket.go:575-596 | there is only one stable descending sort |
| TopFlows.CutCommutes | server/websocket.go:575-596 | inserting into the first k and cutting is cutting after inserting into all |
| TopFlows.TopKFlows | server/websocket.go:575-596 | with more than k flows the result is the first k of any stable descending sort; otherwise the flows as they are |
| SubnetFold.DecideGroup | graph/view.go:415-475 | each subnet is left open, opened for its busiest hosts up to the budget with a tail for the rest, or folded whole |
| SubnetFold.FoldMembers | graph/view.go:430-474 | folding members moves their packets, bytes, visible traffic and host counts into one supernode |
| SubnetFold.FoldTail | graph/view.go:421-449 | over budget, exactly the budget's number of busiest members stay and the others become the tail |
| SubnetFold.CollapseLevel | graph/view.go:392-484 | in any order of groups, a level conserves all loads, loses no node, and adds only fresh supernodes |
| FoldedSubnets.GroupIsFolded | graph/view.go:392-484 | after a level a group opened fully is shown; one opened up to the budget shows that many of its busiest and the others went to its tail; an unopened one of three or more went whole to its supernode; smaller ones are shown |
| SubnetFold.OneMoreNode | graph/view.go:376-391 | what is conserved by folding: every node's packets, bytes and visible traffic, and the hosts it stands for |
| SubnetView.Level24IsFresh | graph/view.go:497-507 | the first level's names cannot clash with hosts |
| SubnetView.Level16IsFresh | graph/view.go:511-535 | the second level's names cannot clash with hosts or first-level supernodes |
| SubnetView.Flatten | graph/view.go:536-545 | flattening in place gives the same map in whatever order it is walked |
| SubnetView.Key16Is | graph/view.go:517-545 | a node goes by a /16 exactly if it stands for, or is a host of, an unopened /24 under it, by the names of subnets |
| SubnetView.FirstIsFolded | graph/view.go:499-509 | the first level decides every /24 by its name; groups and hosts without an IPv4 address stay |
| SubnetView.SecondIsFolded | graph/view.go:513-545 | the second level decides every /16 by its name; what is open stays |
| SubnetView.FlatHops | graph/view.go:547-551 | the flattened map takes every identifier where the two levels take it |
| SubnetView.OneHopIsEnough | graph/view.go:556-564 | remapping twice is remapping once |
| SubnetView.TwoFolds | graph/view.go:497-545 | two levels conserve all loads, and every host shown before is remapped to something still shown |
| SubnetView.Aggregate | graph/view.go:486-555 | aggregating, with its hysteresis: under it no host of an unopened /24 with three hosts or more is left, each remaps to `a.b.c.0/24` or to its `a.b.0.0/16`, and the second level ran exactly if too many nodes were left or the zoom is far; all loads are conserved and every host is represented |
| SubnetView.HostsAreFolded | graph/view.go:497-555 | no host of an unopened /24 of three or more is shown under aggregation; where each one remaps to |
| SubnetView.EveryHostCounts | graph/view.go:384-391 | the conserved host count is the number of hosts there were |
| ViewEdges.MergeEdges | graph/view.go:677-734 | each merged edge carries, per direction, what its From group sent its To group; totals equal those of the edges shown; its protocol is a busiest contributor's |
| ShownTraffic.MergedBySender | graph/view.go:691-735 | a merged edge is there exactly if some edge not hidden remaps to it, and counts forward what its one side sent to the other, whichever way each edge is stored |
| ShownTraffic.ProtocolOfABusiest | graph/view.go:725-728 | its protocol is one of an edge there that no other outdoes in packets |
| ViewEdges.AllCrossingShown | graph/view.go:677-734 | if every endpoint is represented, all traffic that crosses groups is shown |
| ViewEdges.AggregatedView | graph/view.go:486-734 | aggregation and merging together: nothing that should be folded is left, all hosts are represented, and exactly the traffic no single supernode contains is on the merged edges |
| ViewEdges.SelectNodes | graph/view.go:611-646 | over the limit, exactly max nodes: the protected ones and then the best ranked, or just the best ranked |
| ShownTraffic.ChosenAreForemost | graph/view.go:600-646 | every protected node is shown and of the others a best-ranked part, unless none or too many are protected: then the best ranked are |
| ViewAssembly.UnmergedAreDistinct | graph/view.go:678-689 | without aggregation the candidates are distinct edges |
| ViewAssembly.CandidateEdges | graph/view.go:677-734 | without aggregation the candidates are the visible edges between nodes shown, self-loops included; under it the merged edges |
| ShownTraffic.UnmergedExactly | graph/view.go:678-689 | without aggregation every edge not hidden between two nodes shown is a candidate, as it is, and nothing else |
| ShownTraffic.MergedAsDrawn | graph/view.go:730-734 | under aggregation the candidates are the merged edges, with their ends, protocol and traffic |
| ViewAssembly.RankEdges | graph/view.go:735-740 | the candidates by falling packets, equal ones by key |
| ViewAssembly.TopEdges | graph/view.go:735-743 | at most the maximum, and every edge left out ranks behind every one shown |
| ShownTraffic.ForemostAreBusiest | graph/view.go:735-743 | the edges shown come by falling packets, and one left out carries no more than any of them; keys decide ties |
| ViewAssembly.ChosenOnce | graph/view.go:611-646 | no node is chosen twice |
| ViewAssembly.AssembleView | graph/view.go:600-862 | the chosen nodes, styled, and the foremost edges between them, each identifier once and no edge without its ends |
| ViewAssembly.ServeView | server/websocket.go:432-512 | building and sending together: every view built from the graph meets what the protocol asks of one, shows only nodes aggregation left, and no host of an unopened /24 of three or more under it |
| Sorting.SortFalling | graph/rawtopo.go:76-90 | an unstable sort's result: all keys once, weights falling |
| RawTopology.CapCandidates | graph/rawtopo.go:76-90 | at most max candidates, none left out busier than one kept |
| RawTopology.AddProtocol | graph/rawtopo.go:118-142 | each edge names its protocol's index in a table of at most 255 |
| RawTopology.BuildRawTopology | graph/rawtopo.go:37-153 | distinct identifiers that are exactly the capped candidates, in-range indices naming the ends of each kept visible edge, its protocol, tier and group flag |
| RawContents.CandidatesExactly | graph/rawtopo.go:52-83 | a node is a candidate exactly if a visible edge touches it, or it is live and nothing is filtered; it is as busy as these edges, else as it says itself |
| RawContents.NodesExactly | graph/rawtopo.go:85-96 | at most 150000 or as many as asked for, each once, and none left out is busier than one kept |
| RawContents.EdgesExactly | graph/rawtopo.go:122-143 | the arrays hold exactly the visible edges between two nodes kept, each with its ends and its protocol, or the first one's if the table of 255 had no room |
| RawContents.FlagsExactly | graph/rawtopo.go:115-119 | a node's flag says whether it is a group |
| RawContents.TotalIsSum | graph/rawtopo.go:52-65 | the total is the packets of all edges that may be shown, whatever the cap |
| RawFrame.FittingFrameBack | server/rawstream.go:107-134 | what fits the fields is decoded as it was encoded |
| RawFrame.DecodedFits | static/app.js:2445-2470 | whatever is decoded fits the fields |
| RawFrame.RoundTrip | server/rawstream.go:107-134 | decoding gives the frame back if and only if its counts fit 32 bits and its identifiers 16 |
| RawFrame.NodeLayout | server/rawstream.go:117-124 | a node on the wire: the length of its identifier in two bytes, lowest first, the identifier, tier, flags |
| RawFrame.EdgeLayout | server/rawstream.go:127-132 | an edge on the wire: two indices of four bytes, lowest first, and the protocol's |
| RawFrame.FrameLayout | server/rawstream.go:107-126 | a frame on the wire: its type 2, the number of nodes, the nodes, the number of edges, the edges |
| RawWire.FrameSize | server/rawstream.go:107-116 | the size computed beforehand |
| RawWire.EncodeRawFrame | server/rawstream.go:107-134 | the moving offset fills the computed size exactly with the frame's bytes |
| RawWire.ApplyRawTopologyFrame | static/app.js:2445-2470 | accepts exactly the decodable buffers and draws what they say, links through 32-bit floats |
| RawWire.SmallIsExact | static/app.js:2445-2470 | indices below 2^24 survive a 32-bit float |
| RawWire.LargeIsNot | static/app.js:2445-2470 | the bound is sharp: 2^24 + 1 does not |
| RawWire.FlattenedFits | graph/rawtopo.go:20-36 | a flattened graph fits the frame, and its indices a float |
| RawWire.SendRawTopology | server/rawstream.go:72-134 | built, encoded and decoded, the page draws the very arrays that were built |
| FilterLexer.StuckExactlyAtLone | graph/filter.go:145-214 | a turn makes no progress exactly at a lone `=`, `&` or the vertical bar |
| FilterLexer.HaltsUnlessLone | graph/filter.go:145-214 | the lexer ends if and only if it never stands at such a character |
| FilterLexer.EqualsSignSticks | graph/filter.go:145-214 | the query `=` is one on which the lexer does not end |
| FilterLexer.NextTokens | graph/filter.go:145-214 | one turn of the loop, with its inner loops over words and quotes |
| FilterLexer.TokenizeFilter | graph/filter.go:145-214 | where it ends, the lexer yields the specified tokens |
| FilterParser.Parser.OrExpr | graph/filter.go:246-265 | recursive descent in place follows the grammar, consumes what it should, and its predicate means the tree; termination included |
| FilterParser.Parser.AndExpr | graph/filter.go:267-286 | the same for conjunctions |
| FilterParser.Parser.NotExpr | graph/filter.go:288-300 | the same for negations |
| FilterParser.Parser.Primary | graph/filter.go:302-346 | the same for parentheses, comparisons, keywords and words |
| FilterParser.UnstructuredIsOneUnknownWord | graph/filter.go:38-55 | a full parse is unstructured if and only if the query is one word that is no known protocol |
| FilterParser.BuildComparison | graph/filter.go:364-471 | fails exactly on unknown fields; otherwise the predicate is the comparison's meaning |
| FilterParser.NotEqualNegates | graph/filter.go:385-471 | not-equal negates equal if and only if the value is one the field can be compared with |
| FilterMeaning.ComparisonMeans | graph/filter.go:364-472 | for each field what its comparison says of a node: some address in the network or the same, some MAC, the host name or a port, contained under `contains`, whatever the case, and the opposite under `!=` and `ne`; payload fields hold of none |
| FilterMeaning.NumberExactly | graph/filter.go:461-465 | which texts read as numbers, and their decimal value |
| FilterMeaning.OccursExactly | graph/filter.go:411-417 | one text occurs in another exactly if that has it between a beginning and an end |
| FilterParser.ParseFilter | graph/filter.go:38-55 | lexing and parsing accept exactly the grammar's filters, with their meaning on every node |
| FilterPrinting.LeaningMeansTheSame | graph/filter.go:246-286 | the parser's left-leaning tree means the same |
| FilterPrinting.NotBack | graph/filter.go:288-346 | a printed factor is parsed back, in any context that ends it |
| FilterPrinting.AndBack | graph/filter.go:267-286 | a printed conjunction is parsed back |
| FilterPrinting.OrBack | graph/filter.go:246-265 | a printed disjunction is parsed back |
| FilterPrinting.TurnBack | graph/filter.go:145-214 | one printed token is lexed in one turn |
| FilterPrinting.LexBack | graph/filter.go:145-214 | printed tokens are lexed back |
| FilterPrinting.ParsingInvertsPrinting | graph/filter.go:145-346 | printing any filter with minimal parentheses, lexing and parsing gives its meaning on every node; it is refused exactly if it is one unknown word |
| FilterPrinting.AcceptedQueriesReadBack | graph/filter.go:38-55 | every accepted query's filter prints, and its print reads back with its meaning, unless parentheses were all that made it a filter |
| PacketRing.PacketStore.AddPacket | graph/packet_store.go:73-108 | the ring holds the last packets of a history that grew by one, with consecutive numbers |
| PacketRing.PacketStore.GetPackets | graph/packet_store.go:122-132 | all stored packets, oldest first |
| PacketRing.PacketStore.GetPacketsSince | graph/packet_store.go:137-161 | the first stored packets past the cursor, up to the limit, and the new cursor |
| PacketRing.PacketStore.GetPacketsForIPs | graph/packet_store.go:164-189 | the packets still held, past the cursor, with source or destination among the addresses, up to the limit, and the new cursor |
| PacketRing.PacketStore.GetPacketsBetween | graph/packet_store.go:191-222 | the packets still held, past the cursor, from one set of addresses to the other or back, up to the limit, and the new cursor |
| PacketRing.PolledAnswers | graph/packet_store.go:137-222 | an answer holds, in order and under their numbers, all the packets still held that are past the cursor and wanted, up to the limit (200 if none is given), and the cursor goes on from the last |
| PacketPolls.ReadersSeeInOrder | graph/packet_store.go:137-222 | in every interleaving of polls, arrivals and Clear a reader gets the ring's matches in order, each once, missing only those evicted before being reached and, in a new ring, those numbered up to its old cursor |
| PacketPolls.ShortPollsCatchUp | graph/packet_store.go:137-222 | after a poll below its limit no stored match is left |
| PacketPolls.KeepingUpMissesNothing | graph/packet_store.go:137-222 | a reader that polls often enough misses nothing before the first Clear, and afterwards only what the new ring numbers up to its old cursor |
| PacketPolls.ClearSkipsExactly | graph/graph.go:1395-1405 | Clear costs such a reader packets if and only if one of those matches |
| RateLimit.RateLimiter.Allow | server/ratelimit.go:61-97 | a new client is allowed and has its burst less one; a known one has what it had and what has grown since at the rate, at most a burst, and is allowed exactly if that is a whole token, which it then pays |
| RateLimit.RateLimiter.Cleanup | server/ratelimit.go:110-120 | forgets exactly the clients idle for longer than maxAge |
| RateLimit.SpentPlusCredit | server/ratelimit.go:61-97 | without cleanups, what was allowed in a window plus what could be is at most a burst plus the rate |
| RateLimit.CleanupsKeepCredit | server/ratelimit.go:110-120 | a forgotten bucket would be full again |
| RateLimit.CleanupsAreInvisible | server/ratelimit.go:110-120 | if a burst refills within maxAge, no schedule of cleanups changes any answer |
| RateLimit.BoundHolds | server/ratelimit.go:61-120 | then no client gets more than a burst plus the rate in any window, cleanups included |
| RateLimit.TwoBurstsAreAllowed | server/ratelimit.go:61-120 | a cleanup past maxAge lets any client spend a second burst |
| RateLimit.BoundedExactlyIfRefilled | server/ratelimit.go:61-120 | the bound holds on every schedule if and only if a burst refills within maxAge |

## Left out

- GraphManager.Manager.AddOrUpdateNode: peers, ports, roles, VLANs, device details, the search corpus, recent flows, protocol counts and the dirty flag are left out.
- GraphManager.Manager.Ingest: the packet store it also feeds is modelled on its own (`PacketRing`), and payloads, ports and device stamps are left out.
- GraphManager.Manager.BulkLoad: one atomic step under its lock; the time it stamps is handed in once.
- GraphManager.Manager.Connections: states the lookup before its cap and the order the detail pane sorts by.
- GraphManager.Node and GraphManager.Edge: each holds its fields as one value that is replaced as a whole; aliasing between the maps and the records is modelled, aliasing inside a record's slices is not.
- Aggregates.Aggregator: its rows are values in maps, replaced when they change, instead of pointers to structs.
- LoadReplay.LoadingIsReplaying: protocol labels and names of nodes are left out, since the two paths choose labels by different rules; it needs a fixed host name for each address.
- StoreWriter.Store.FlushTx: always commits. Failed transactions, the count of dropped rows lost when an empty batch returns early, the `dropped` column, and rows arriving while the queue is being drained are left out.
- The SQL text, the write-ahead log, migrations, retention, listing captures and querying stored packets: tables are maps, upserts map updates, grouping a relation between buckets and rows.
- WindowQuery.WindowAggregates: among equally busy protocols the first row wins, in whatever order the database returns rows.
- Mirror.Page.UpdateGraph: the throttle at static/app.js:2664-2718, which keeps only the newest waiting delta, is left out, so convergence is for a page that applies every message in order; so are details fetched lazily, layouts owned by the page, and everything drawn.
- MirrorSync.DeltaTracks: needs items that the server holds render-equal to have the same change signature on the page; `isTail`, which is in the page's signature but not in the server's comparison (server/websocket.go:652-671), does not change while a node keeps its identifier.
- ClientDiff.Client.BuildDelta: the flows are handed in already remapped to supernodes, and JSON encoding cannot fail.
- ClientDiff.Client.BuildPosFrame: the byte layout of position frames is left out; positions are the rounded integers.
- GraphManager.Manager.Clear: the packet ring it replaces is modelled in `PacketPolls`; recent flows are left out.
- Hub.ATickServesEveryRequest: states when and from which configuration views are built, not which view a shared key yields, which is `ViewCache`; recovered panics and encoding failures inside a tick, role inference, layout scheduling and adaptive pacing are left out.
- Hub.ChangesAskForFull: the position of the timeline's scrubber is served by a different path and is left out.
- SubnetView.Aggregate: focus isolation, the per-view state table and styling are left out.
- ViewEdges.SelectNodes: takes the nodes already ranked; the ranking with its bonus for nodes shown before multiplies by a float.
- ViewEdges.AggregatedView: states the traffic before the caps on nodes and edges, which `ViewAssembly` adds; where nothing is aggregated it merges too, while `ViewAssembly.CandidateEdges` follows the source there.
- ViewAssembly.AssembleView: styling, layout and the substitution of missing protocol names and colours are a function of the node or left out.
- RawTopology.BuildRawTopology: the tier of a node is an uninterpreted function of its packets and the maximum; which of several equally busy nodes are kept at the cap is open, as the sort is unstable; protocol colours are left out.
- RawFrame.RoundTrip: identifiers are byte strings; decoding them as UTF-8 is left out.
- FilterParser.ParseFilter: where the lexer diverges nothing is returned, so it asks for a query on which it halts; lower case is ASCII only; address ranges are a parameter; ranking and limiting the matches of a search is left out.
- RateLimit.RateLimiter.Allow: tokens are reals, and reading a client's address from the request headers is left out.
- Packet decoding, capture devices, remote capture, TLS, HTTP handlers, log rotation and the daemon: input and output, and foreign calls.
- Force, circular and solar layouts, colours, sizes and tooltips: floating-point presentation.
