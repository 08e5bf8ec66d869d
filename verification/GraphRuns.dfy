/** Runs of the graph manager: any sequence of its operations from an empty graph. */
module GraphRuns {
  import opened Ids
  import opened GraphState
  import opened GraphInvariants
  import opened Sums

  datatype Op =
    | Ingest(packet: Packet, srcHost: string, dstHost: string, now: int)
    | Node(ip: string, host: string, length: int, now: int)                          // AddOrUpdateNode
    | Edge(src: string, dst: string, protocol: Protocol, length: int, now: int)      // AddOrUpdateEdge
    | DecayNodes(ids: seq<string>)
    | DecayEdges(keys: seq<string>)
    | Clear
    | Load(rows: seq<StoredNode>, edgeRows: seq<StoredEdge>, now: int)

  /** The labels of group addresses and the protocol catalog, fixed for the run. */
  datatype Env = Env(group: Labeller, catalog: Catalog)

  ghost predicate OpOk(env: Env, op: Op) {
    match op
    case Ingest(p, s, d, _) => PacketOk(env.group, p, s, d)
    case Node(ip, host, _, _) => IsId(ip)
      && (EffectiveHost(env.group, ip, host) != "" ==> IsId(EffectiveHost(env.group, ip, host)))
    case Edge(src, dst, _, _, _) => IsId(src) && IsId(dst)
    case Load(rows, edgeRows, _) =>
      (forall i :: 0 <= i < |rows| ==> RowOk(env.group, rows[i]))
        && (forall i :: 0 <= i < |edgeRows| ==> StoredEdgeOk(edgeRows[i]))
    case _ => true
  }

  ghost function Step(env: Env, g: GraphState, op: Op): GraphState
    requires WellFormed(g) && OpOk(env, op)
  {
    match op
    case Ingest(p, s, d, now) => Ingested(g, env.group, p, s, d, now)
    case Node(ip, host, length, now) => AddNode(g, env.group, ip, host, length, now)
    case Edge(src, dst, protocol, length, now) => AddEdge(g, src, dst, protocol, length, now)
    case DecayNodes(ids) => DropNodes(g, ids)
    case DecayEdges(keys) => DropEdges(g, keys)
    case Clear => Cleared(g)
    case Load(rows, edgeRows, now) => Loaded(g, env.group, env.catalog, rows, edgeRows, now)
  }

  ghost predicate RunOk(env: Env, ops: seq<Op>) { forall i :: 0 <= i < |ops| ==> OpOk(env, ops[i]) }

  lemma {:induction false} DropNodesKeeps(g: GraphState, ids: seq<string>)
    requires WellFormed(g)
    ensures WellFormed(DropNodes(g, ids)) && DropNodes(g, ids).sharedMacs == g.sharedMacs
    ensures AnchorsLive(g) ==> AnchorsLive(DropNodes(g, ids))
  {
    hide WellFormed, AnchorsLive;
    if ids != [] {
      var before := DropNodes(g, ids[..|ids| - 1]);
      DropNodesKeeps(g, ids[..|ids| - 1]);
      if ids[|ids| - 1] in before.nodes {
        DropNodeKeepsWellFormed(before, ids[|ids| - 1]);
        if AnchorsLive(g) { DropNodeKeepsAnchorsLive(before, ids[|ids| - 1]); }
      }
    }
  }

  lemma {:induction false} DropEdgesKeeps(g: GraphState, keys: seq<string>)
    requires WellFormed(g)
    ensures WellFormed(DropEdges(g, keys))
    ensures DropEdges(g, keys) == g.(edges := DropEdges(g, keys).edges)
  {
    hide WellFormed;
    if keys != [] {
      DropEdgesKeeps(g, keys[..|keys| - 1]);
      DropEdgeKeepsWellFormed(DropEdges(g, keys[..|keys| - 1]), keys[|keys| - 1]);
    }
  }

  lemma {:induction false} LoadNodesKeepsLive(g: GraphState, group: Labeller, rows: seq<StoredNode>, now: int)
    requires WellFormed(g) && forall i :: 0 <= i < |rows| ==> RowOk(group, rows[i])
    ensures AnchorsLive(g) ==> AnchorsLive(LoadNodes(g, group, rows, now))
    ensures IpsLive(g) ==> IpsLive(LoadNodes(g, group, rows, now))
    ensures LoadNodes(g, group, rows, now).sharedMacs == g.sharedMacs
  {
    hide WellFormed, AnchorsLive, IpsLive, AddNode, IsId, EffectiveHost;
    if rows != [] {
      LoadNodesKeepsLive(g, group, rows[..|rows| - 1], now);
      var last := rows[|rows| - 1];
      assert RowOk(group, last);
      AddNodeKeepsLive(LoadNodes(g, group, rows[..|rows| - 1], now), group, last.id, last.hostname, 0, now);
      AddNodeKeepsShared(LoadNodes(g, group, rows[..|rows| - 1], now), group, last.id, last.hostname, 0, now);
    }
  }

  lemma LoadedKeepsLive(env: Env, g: GraphState, rows: seq<StoredNode>, edgeRows: seq<StoredEdge>, now: int)
    requires WellFormed(g) && OpOk(env, Load(rows, edgeRows, now))
    ensures AnchorsLive(g) ==> AnchorsLive(Step(env, g, Load(rows, edgeRows, now)))
    ensures IpsLive(g) ==> IpsLive(Step(env, g, Load(rows, edgeRows, now)))
    ensures Step(env, g, Load(rows, edgeRows, now)).sharedMacs == g.sharedMacs
  {
    hide WellFormed, RowOk, StoredEdgeOk, LoadNodes, LoadCounters, LoadEdges;
    var loaded := LoadNodes(g, env.group, rows, now);
    LoadNodesKeepsLive(g, env.group, rows, now);
    LoadCountersKeepsIdentity(loaded.nodes, loaded.ipTo, rows);
  }

  // ---- shared MACs only accumulate ----

  lemma AddNodeKeepsShared(g: GraphState, group: Labeller, ip: string, hostname: string, length: int, now: int)
    requires WellFormed(g) && IsId(ip)
      && (EffectiveHost(group, ip, hostname) != "" ==> IsId(EffectiveHost(group, ip, hostname)))
    ensures AddNode(g, group, ip, hostname, length, now).sharedMacs == g.sharedMacs
  {
    hide WellFormed, IsId, EffectiveHost, MergeNodes, MergeEdges, CountOn, UsesHost;
  }

  lemma RecordMacGrowsShared(g: GraphState, group: Labeller, ip: string, mac: string, now: int)
    requires WellFormed(g) && (IsHostMac(mac) ==> IsId(mac))
    ensures g.sharedMacs <= RecordMacOf(g, group, ip, mac, now).sharedMacs
  {
    hide EdgesOk, NodesOk, IpsOk, HostsOk, AnchorsOk, IsId, IsHostMac, MergeNodes, MergeEdges, PromotedName;
    if mac != "" && ip in g.ipTo && IsHostMac(mac) && g.ipTo[ip] in g.nodes && g.ipTo[ip] != "" {
      var nodeId := g.ipTo[ip];
      var g1 := NoteMac(g, nodeId, mac);
      NoteMacKeepsWellFormed(g, nodeId, mac);
      assert g1.sharedMacs == g.sharedMacs;
      if mac in g1.sharedMacs {
      } else if mac !in g1.macTo || (g1.macTo[mac] != nodeId && g1.macTo[mac] !in g1.nodes) {
        AnchoredKeepsWellFormed(g1, mac, nodeId);
        PromoteKeepsShared(Anchored(g1, mac, nodeId), group, nodeId, mac);
      } else if g1.macTo[mac] == nodeId {
        PromoteKeepsShared(g1, group, nodeId, mac);
      } else {
        SharedKeepsWellFormed(g1, mac);
        if now - g1.nodes[g1.macTo[mac]].lastSeen < MAC_ACTIVE_WINDOW {
          DemoteKeepsShared(Shared(g1, mac), group, mac);
        } else {
          MergeKeepsWellFormed(g1, nodeId, g1.macTo[mac], g1.nodes[nodeId].hostname);
          var merged := Merge(g1, nodeId, g1.macTo[mac], g1.nodes[nodeId].hostname);
          AnchoredKeepsWellFormed(merged, mac, nodeId);
          PromoteKeepsShared(Anchored(merged, mac, nodeId), group, nodeId, mac);
        }
      }
    }
  }

  lemma PromoteKeepsShared(g: GraphState, group: Labeller, nodeId: string, mac: string)
    requires WellFormed(g) && IsId(nodeId) && IsId(mac)
    ensures Promote(g, group, nodeId, mac).sharedMacs == g.sharedMacs
  {
    hide WellFormed, IsId, IsHostMac, MergeNodes, MergeEdges, PromotedName, NamedAfter;
  }

  lemma DemoteKeepsShared(g: GraphState, group: Labeller, mac: string)
    requires WellFormed(g) && IsId(mac)
    ensures Demote(g, group, mac).sharedMacs == g.sharedMacs
  {
    hide WellFormed, IsId, MergeNodes, MergeEdges, NamedAfter, FirstHost;
  }

  lemma IngestGrowsShared(g: GraphState, group: Labeller, p: Packet, srcHost: string, dstHost: string, now: int)
    requires WellFormed(g) && PacketOk(group, p, srcHost, dstHost)
    ensures g.sharedMacs <= Ingested(g, group, p, srcHost, dstHost, now).sharedMacs
  {
    hide WellFormed, AddNode, RecordMacOf, CountEdge, IsId, IsHostMac, EffectiveHost;
    var g1 := AddNode(g, group, p.srcIp, srcHost, p.length, now);
    AddNodeKeepsWellFormed(g, group, p.srcIp, srcHost, p.length, now);
    AddNodeKeepsShared(g, group, p.srcIp, srcHost, p.length, now);
    var g2 := AddNode(g1, group, p.dstIp, dstHost, p.length, now);
    AddNodeKeepsWellFormed(g1, group, p.dstIp, dstHost, p.length, now);
    AddNodeKeepsShared(g1, group, p.dstIp, dstHost, p.length, now);
    var g3 := RecordMacOf(g2, group, p.srcIp, p.srcMac, now);
    RecordMacOfKeepsWellFormed(g2, group, p.srcIp, p.srcMac, now);
    RecordMacGrowsShared(g2, group, p.srcIp, p.srcMac, now);
    RecordMacGrowsShared(g3, group, p.dstIp, p.dstMac, now);
  }

  // ---- one step, then every run ----

  lemma StepKeeps(env: Env, g: GraphState, op: Op)
    requires WellFormed(g) && OpOk(env, op)
    ensures WellFormed(Step(env, g, op))
    ensures AnchorsLive(g) && !op.Clear? ==> AnchorsLive(Step(env, g, op))
    ensures IpsLive(g) && !op.DecayNodes? ==> IpsLive(Step(env, g, op))
    ensures g.sharedMacs <= Step(env, g, op).sharedMacs
  {
    hide EdgesOk, NodesOk, IpsOk, HostsOk, IsId, EffectiveHost, Ingested, AddNode, Loaded, DropNodes, DropEdges,
         CountEdge, AnchorsLive, IpsLive, PacketOk, RowOk, StoredEdgeOk;
    match op
    case Ingest(p, s, d, now) =>
      IngestKeepsWellFormed(g, env.group, p, s, d, now);
      IngestKeepsLive(g, env.group, p, s, d, now);
      IngestGrowsShared(g, env.group, p, s, d, now);
    case Node(ip, host, length, now) =>
      AddNodeKeepsWellFormed(g, env.group, ip, host, length, now);
      AddNodeKeepsLive(g, env.group, ip, host, length, now);
      AddNodeKeepsShared(g, env.group, ip, host, length, now);
    case Edge(src, dst, protocol, length, now) =>
      AddEdgeKeepsWellFormed(g, src, dst, protocol, length, now);
      LiveIgnoresNames(g, Step(env, g, op));
    case DecayNodes(ids) => DropNodesKeeps(g, ids);
    case DecayEdges(keys) =>
      DropEdgesKeeps(g, keys);
      LiveIgnoresNames(g, Step(env, g, op));
    case Clear => ClearKeeps(g);
    case Load(rows, edgeRows, now) =>
      LoadedKeepsWellFormed(g, env.group, env.catalog, rows, edgeRows, now);
      LoadedKeepsLive(env, g, rows, edgeRows, now);
  }

  lemma ClearKeeps(g: GraphState)
    requires WellFormed(g)
    ensures WellFormed(Cleared(g)) && IpsLive(Cleared(g)) && Cleared(g).sharedMacs == g.sharedMacs
  {
  }

  ghost function Run(env: Env, ops: seq<Op>): (g: GraphState)
    requires RunOk(env, ops)
    ensures WellFormed(g)
  {
    if ops == [] then EMPTY
    else
      var before := Run(env, ops[..|ops| - 1]);
      assert OpOk(env, ops[|ops| - 1]);
      assert WellFormed(Step(env, before, ops[|ops| - 1])) by { StepKeeps(env, before, ops[|ops| - 1]); }
      Step(env, before, ops[|ops| - 1])
  }

  /** In every run without Clear each anchor names a live node that lists the MAC, and in every run
      without node decay each known address leads to a live node. */
  lemma {:induction false} LiveInEveryRun(env: Env, ops: seq<Op>)
    requires RunOk(env, ops)
    ensures (forall i :: 0 <= i < |ops| ==> !ops[i].Clear?) ==> AnchorsLive(Run(env, ops))
    ensures (forall i :: 0 <= i < |ops| ==> !ops[i].DecayNodes?) ==> IpsLive(Run(env, ops))
  {
    hide WellFormed, Step, AnchorsLive, IpsLive, OpOk;
    if ops == [] {
      EmptyIsLive();
    } else {
      var rest := ops[..|ops| - 1];
      LiveInEveryRun(env, rest);
      StepKeeps(env, Run(env, rest), ops[|ops| - 1]);
    }
  }

  lemma EmptyIsLive()
    ensures AnchorsLive(EMPTY) && IpsLive(EMPTY) && WellFormed(EMPTY)
  {
  }

  /** A MAC found shared stays shared, and never anchors a node again. */
  lemma {:induction false} SharedForever(env: Env, ops: seq<Op>, i: nat, mac: string)
    requires RunOk(env, ops) && i <= |ops|
    requires mac in Run(env, ops[..i]).sharedMacs
    ensures mac in Run(env, ops).sharedMacs && mac !in Run(env, ops).macTo
    decreases |ops|
  {
    hide EdgesOk, NodesOk, IpsOk, HostsOk, IsId, Step, OpOk;
    if i < |ops| {
      var rest := ops[..|ops| - 1];
      assert rest[..i] == ops[..i];
      SharedForever(env, rest, i, mac);
      StepKeeps(env, Run(env, rest), ops[|ops| - 1]);
    } else {
      assert ops[..i] == ops;
    }
  }

  ghost function IngestedLoad(ops: seq<Op>, m: Measure): int
    requires forall i :: 0 <= i < |ops| ==> ops[i].Ingest?
  {
    if ops == [] then 0
    else IngestedLoad(ops[..|ops| - 1], m) + PacketLoad(ops[|ops| - 1].packet.length, m)
  }

  lemma {:induction false} PacketsIngested(ops: seq<Op>)
    requires forall i :: 0 <= i < |ops| ==> ops[i].Ingest?
    ensures IngestedLoad(ops, Packets) == |ops|
  {
    if ops != [] {
      PacketsIngested(ops[..|ops| - 1]);
    }
  }

  /** After k packets and whatever merges they caused, the nodes have counted 2k packets, and twice the bytes. */
  lemma {:induction false} NodesCountTwice(env: Env, ops: seq<Op>, m: Measure)
    requires RunOk(env, ops) && forall i :: 0 <= i < |ops| ==> ops[i].Ingest?
    ensures NodeTotal(Run(env, ops).nodes, m) == 2 * IngestedLoad(ops, m)
    ensures m == Packets ==> NodeTotal(Run(env, ops).nodes, m) == 2 * |ops|
  {
    hide WellFormed, Ingested, NodeTotal, OpOk, PacketOk, PacketLoad;
    PacketsIngested(ops);
    if ops == [] {
      EmptyCountsNothing(m);
    } else {
      var rest, last := ops[..|ops| - 1], ops[|ops| - 1];
      NodesCountTwice(env, rest, m);
      LastIsOk(env, ops);
      IngestCounts(Run(env, rest), env.group, last.packet, last.srcHost, last.dstHost, last.now, m);
    }
  }

  lemma LastIsOk(env: Env, ops: seq<Op>)
    requires RunOk(env, ops) && ops != [] && ops[|ops| - 1].Ingest?
    ensures var last := ops[|ops| - 1]; PacketOk(env.group, last.packet, last.srcHost, last.dstHost)
  {
  }

  lemma EmptyCountsNothing(m: Measure)
    ensures NodeTotal(EMPTY.nodes, m) == 0
  {
  }

  /** In every run each node is stored under its own identifier, the address lists of two nodes are
      disjoint, and each edge is stored under its own canonical key with balanced counters. */
  lemma StoredAsNamed(env: Env, ops: seq<Op>)
    requires RunOk(env, ops)
    ensures var g := Run(env, ops);
      && (forall k :: k in g.nodes ==> g.nodes[k].id == k)
      && (forall k, l, ip :: k in g.nodes && l in g.nodes && ip in g.nodes[k].ips && ip in g.nodes[l].ips ==> k == l)
      && (forall k, ip :: k in g.nodes && ip in g.nodes[k].ips ==> ip in g.ipTo && g.ipTo[ip] == k)
      && (forall k :: k in g.edges ==>
        g.edges[k].id == k == EdgeId(g.edges[k].from, g.edges[k].to) && g.edges[k].volume.Balanced())
  {
    hide Run;
  }
}
