/** What holds in every state the graph manager can reach: identity maps, anchors, and totals. */
module GraphInvariants {
  import opened Ids
  import opened GraphState
  import opened Sums

  // ---- anchors and addresses lead to live nodes ----------------------------------------------

  /** Every MAC anchor names a live node that lists the MAC. */
  ghost predicate AnchorsLive(g: GraphState) {
    forall m {:trigger m in g.macTo} :: m in g.macTo ==> g.macTo[m] in g.nodes && m in g.nodes[g.macTo[m]].macs
  }

  /** Every known address leads to a live node. */
  ghost predicate IpsLive(g: GraphState) {
    forall ip {:trigger ip in g.ipTo} :: ip in g.ipTo ==> g.ipTo[ip] in g.nodes
  }

  lemma MergedMacs(nodes: map<string, NodeState>, newId: string, oldId: string, hostname: string)
    requires newId != oldId
    ensures var merged := MergeNodes(nodes, newId, oldId, hostname);
      && merged.Keys == (if oldId in nodes then nodes.Keys - {oldId} + {newId} else nodes.Keys)
      && (forall k, m :: k in nodes && m in nodes[k].macs ==>
            Renamed(k, newId, oldId) in merged && m in merged[Renamed(k, newId, oldId)].macs)
  {
    if oldId in nodes && newId in nodes {
      forall m | m in nodes[oldId].macs ensures m in Absorb(nodes[newId], nodes[oldId]).macs {
        MissingMembers(nodes[newId].macs, nodes[oldId].macs, m);
      }
    }
  }

  lemma MergeKeepsLive(g: GraphState, newId: string, oldId: string, hostname: string)
    requires WellFormed(g) && IsId(newId) && IsId(oldId) && newId != oldId
    ensures AnchorsLive(g) ==> AnchorsLive(Merge(g, newId, oldId, hostname))
    ensures IpsLive(g) ==> IpsLive(Merge(g, newId, oldId, hostname))
    ensures IpsLive(g) && oldId in g.nodes ==> newId in Merge(g, newId, oldId, hostname).nodes
  {
    hide EdgesOk, NodesOk, IpsOk, HostsOk, AnchorsOk, MergeEdges, MergeNodes, Plain;
    MergedMacs(g.nodes, newId, oldId, hostname);
  }

  lemma SettleKeepsLive(g: GraphState, ip: string, host: string)
    requires WellFormed(g) && IsId(ip) && (host != "" ==> IsId(host))
    ensures AnchorsLive(g) ==> AnchorsLive(Settle(g, ip, host))
    ensures IpsLive(g) ==> IpsLive(Settle(g, ip, host))
  {
    hide EdgesOk, NodesOk, AnchorsOk, MergeEdges, MergeNodes, Repointed, AnchorsLive, IpsLive;
    var id := NodeFor(g, ip, host);
    NodeForIsId(g, ip, host);
    var g1 := if UsesHost(ip, host) && host !in g.hostTo then g.(hostTo := g.hostTo[host := host]) else g;
    LiveIgnoresNames(g, g1);
    if ip in g.ipTo && g.ipTo[ip] != id {
      MergeKeepsLive(g1, id, g.ipTo[ip], host);
    }
  }

  lemma AddNodeKeepsLive(g: GraphState, group: Labeller, ip: string, hostname: string, length: int, now: int)
    requires WellFormed(g) && IsId(ip)
      && (EffectiveHost(group, ip, hostname) != "" ==> IsId(EffectiveHost(group, ip, hostname)))
    ensures AnchorsLive(g) ==> AnchorsLive(AddNode(g, group, ip, hostname, length, now))
    ensures IpsLive(g) ==> IpsLive(AddNode(g, group, ip, hostname, length, now))
  {
    hide EdgesOk, NodesOk, IpsOk, HostsOk, AnchorsOk, Settle, NodeFor, EffectiveHost, IsId;
    SettleKeepsLive(g, ip, EffectiveHost(group, ip, hostname));
  }

  lemma NamedAfterKeepsLive(g: GraphState, id: string, mac: string, host: string)
    ensures AnchorsLive(g) ==> AnchorsLive(g.(nodes := NamedAfter(g.nodes, id, mac, host)))
    ensures IpsLive(g) ==> IpsLive(g.(nodes := NamedAfter(g.nodes, id, mac, host)))
  {
  }

  lemma PromoteKeepsLive(g: GraphState, group: Labeller, nodeId: string, mac: string)
    requires WellFormed(g) && IsId(nodeId) && IsId(mac)
    requires nodeId in g.nodes && mac in g.nodes[nodeId].macs
    ensures AnchorsLive(g) ==> AnchorsLive(Promote(g, group, nodeId, mac))
    ensures IpsLive(g) ==> IpsLive(Promote(g, group, nodeId, mac))
  {
    hide EdgesOk, NodesOk, IpsOk, HostsOk, AnchorsOk, MergeEdges, MergeNodes, Repointed, NamedAfter, Named, Unnamed,
         PromotedName, IsHostMac, Plain, AnchorsLive, IpsLive;
    if Promotable(g, nodeId, mac) {
      var host := PromotedName(group, g.nodes[nodeId], nodeId);
      var merged := Merge(g, mac, nodeId, host);
      MergeKeepsLive(g, mac, nodeId, host);
      MergedMacs(g.nodes, mac, nodeId, host);
      NamedAfterKeepsLive(merged, mac, mac, host);
      AnchoredKeepsLive(merged.(nodes := NamedAfter(merged.nodes, mac, mac, host)), mac, mac) by {
        NamedAfterKeepsMacs(merged.nodes, mac, mac, host);
      }
      var named := Anchored(merged.(nodes := NamedAfter(merged.nodes, mac, mac, host)), mac, mac);
      LiveIgnoresNames(named, Promote(g, group, nodeId, mac));
    }
  }

  lemma NamedAfterKeepsMacs(nodes: map<string, NodeState>, id: string, mac: string, host: string)
    ensures id in nodes ==>
      id in NamedAfter(nodes, id, mac, host) && NamedAfter(nodes, id, mac, host)[id].macs == nodes[id].macs
  {
  }

  lemma LiveIgnoresNames(g: GraphState, h: GraphState)
    requires g.nodes == h.nodes && g.macTo == h.macTo && g.ipTo == h.ipTo
    ensures AnchorsLive(g) == AnchorsLive(h) && IpsLive(g) == IpsLive(h)
  {
  }

  lemma AnchoredKeepsLive(g: GraphState, mac: string, nodeId: string)
    requires nodeId in g.nodes && mac in g.nodes[nodeId].macs
    ensures AnchorsLive(g) ==> AnchorsLive(Anchored(g, mac, nodeId))
    ensures IpsLive(g) ==> IpsLive(Anchored(g, mac, nodeId))
  {
  }

  lemma DemoteKeepsLive(g: GraphState, group: Labeller, mac: string)
    requires WellFormed(g) && IsId(mac)
    ensures AnchorsLive(g) ==> AnchorsLive(Demote(g, group, mac))
    ensures IpsLive(g) ==> IpsLive(Demote(g, group, mac))
  {
    hide EdgesOk, HostsOk, AnchorsOk, Merge, NamedAfter, AnchorsLive, IpsLive, Plain;
    if mac in g.nodes {
      var n := g.nodes[mac];
      var ip := FirstHost(group, n.ips);
      if ip != "" && ip != mac {
        FirstHostIsListed(group, n.ips);
        var host := if n.hostname == "" || n.hostname == mac then ip else n.hostname;
        MergeKeepsLive(g, ip, mac, host);
        NamedAfterKeepsLive(Merge(g, ip, mac, host), ip, mac, host);
      }
    }
  }

  lemma NoteMacKeepsLive(g: GraphState, nodeId: string, mac: string)
    requires nodeId in g.nodes
    ensures var h := NoteMac(g, nodeId, mac);
      && (AnchorsLive(g) ==> AnchorsLive(h)) && (IpsLive(g) ==> IpsLive(h))
      && nodeId in h.nodes && mac in h.nodes[nodeId].macs
  {
  }

  lemma RecordMacKeepsLive(g: GraphState, group: Labeller, nodeId: string, mac: string, now: int)
    requires WellFormed(g) && (IsHostMac(mac) ==> IsId(mac))
    ensures AnchorsLive(g) ==> AnchorsLive(RecordMac(g, group, nodeId, mac, now))
    ensures IpsLive(g) ==> IpsLive(RecordMac(g, group, nodeId, mac, now))
  {
    hide EdgesOk, NodesOk, IpsOk, HostsOk, AnchorsOk, IsId, NoteMac, Promote, Demote, MergeEdges, MergeNodes, Repointed,
         IsHostMac, AnchorsLive, IpsLive;
    if nodeId != "" && IsHostMac(mac) && nodeId in g.nodes {
      var g1 := NoteMac(g, nodeId, mac);
      NoteMacKeepsWellFormed(g, nodeId, mac);
      NoteMacKeepsLive(g, nodeId, mac);
      if mac in g1.sharedMacs {
      } else if mac !in g1.macTo || (g1.macTo[mac] != nodeId && g1.macTo[mac] !in g1.nodes) {
        AnchoredKeepsWellFormed(g1, mac, nodeId);
        AnchoredKeepsLive(g1, mac, nodeId);
        PromoteKeepsLive(Anchored(g1, mac, nodeId), group, nodeId, mac);
      } else if g1.macTo[mac] == nodeId {
        PromoteKeepsLive(g1, group, nodeId, mac);
      } else {
        SharedKeepsWellFormed(g1, mac);
        if now - g1.nodes[g1.macTo[mac]].lastSeen < MAC_ACTIVE_WINDOW {
          SharedKeepsLive(g1, mac);
          DemoteKeepsLive(Shared(g1, mac), group, mac);
        } else {
          var anchor := g1.macTo[mac];
          var merged := Merge(g1, nodeId, anchor, g1.nodes[nodeId].hostname);
          MergeKeepsWellFormed(g1, nodeId, anchor, g1.nodes[nodeId].hostname);
          MergeKeepsLive(g1, nodeId, anchor, g1.nodes[nodeId].hostname);
          MergedMacs(g1.nodes, nodeId, anchor, g1.nodes[nodeId].hostname);
          assert Renamed(nodeId, nodeId, anchor) == nodeId;
          AnchoredKeepsWellFormed(merged, mac, nodeId);
          AnchoredKeepsLive(merged, mac, nodeId);
          PromoteKeepsLive(Anchored(merged, mac, nodeId), group, nodeId, mac);
        }
      }
    }
  }

  lemma SharedKeepsLive(g: GraphState, mac: string)
    ensures AnchorsLive(g) ==> AnchorsLive(Shared(g, mac))
    ensures IpsLive(g) ==> IpsLive(Shared(g, mac))
  {
  }

  lemma IngestKeepsLive(g: GraphState, group: Labeller, p: Packet, srcHost: string, dstHost: string, now: int)
    requires WellFormed(g) && PacketOk(group, p, srcHost, dstHost)
    ensures AnchorsLive(g) ==> AnchorsLive(Ingested(g, group, p, srcHost, dstHost, now))
    ensures IpsLive(g) ==> IpsLive(Ingested(g, group, p, srcHost, dstHost, now))
  {
    hide WellFormed, AddNode, RecordMac, CountEdge, IsId, IsHostMac, EffectiveHost, AnchorsLive, IpsLive;
    var g1 := AddNode(g, group, p.srcIp, srcHost, p.length, now);
    AddNodeKeepsWellFormed(g, group, p.srcIp, srcHost, p.length, now);
    AddNodeKeepsLive(g, group, p.srcIp, srcHost, p.length, now);
    var g2 := AddNode(g1, group, p.dstIp, dstHost, p.length, now);
    AddNodeKeepsWellFormed(g1, group, p.dstIp, dstHost, p.length, now);
    AddNodeKeepsLive(g1, group, p.dstIp, dstHost, p.length, now);
    var g3 := RecordMacOf(g2, group, p.srcIp, p.srcMac, now);
    RecordMacOfKeepsWellFormed(g2, group, p.srcIp, p.srcMac, now);
    if p.srcMac != "" && p.srcIp in g2.ipTo { RecordMacKeepsLive(g2, group, g2.ipTo[p.srcIp], p.srcMac, now); }
    var g4 := RecordMacOf(g3, group, p.dstIp, p.dstMac, now);
    if p.dstMac != "" && p.dstIp in g3.ipTo { RecordMacKeepsLive(g3, group, g3.ipTo[p.dstIp], p.dstMac, now); }
    LiveIgnoresNames(g4, Ingested(g, group, p, srcHost, dstHost, now));
  }

  lemma DropNodeKeepsAnchorsLive(g: GraphState, nodeId: string)
    requires WellFormed(g) && nodeId in g.nodes && AnchorsLive(g)
    ensures AnchorsLive(DropNode(g, nodeId))
  {
  }

  // ---- totals --------------------------------------------------------------------------------

  datatype Measure = Packets | Bytes

  function NodeLoad(n: NodeState, m: Measure): int { if m == Packets then n.packets else n.bytes }

  function VolumeLoad(v: Volume, m: Measure): int { if m == Packets then v.packets else v.bytes }

  function NodeLoads(nodes: map<string, NodeState>, m: Measure): map<string, int> {
    map k | k in nodes :: NodeLoad(nodes[k], m)
  }

  function EdgeLoads(edges: map<string, EdgeState>, m: Measure): map<string, int> {
    map k | k in edges :: VolumeLoad(edges[k].volume, m)
  }

  ghost function NodeTotal(nodes: map<string, NodeState>, m: Measure): int { Total(NodeLoads(nodes, m)) }

  ghost function EdgeTotal(edges: map<string, EdgeState>, m: Measure): int { Total(EdgeLoads(edges, m)) }

  /** Merging two nodes loses no traffic. */
  lemma MergeConservesNodes(nodes: map<string, NodeState>, newId: string, oldId: string, hostname: string, m: Measure)
    requires newId != oldId
    ensures NodeTotal(MergeNodes(nodes, newId, oldId, hostname), m) == NodeTotal(nodes, m)
  {
    if oldId in nodes {
      var loads := NodeLoads(nodes, m);
      var merged := MergeNodes(nodes, newId, oldId, hostname);
      TotalRemove(loads, oldId);
      TotalInsert(loads - {oldId}, newId, NodeLoad(merged[newId], m));
      assert NodeLoads(merged, m) == (loads - {oldId})[newId := NodeLoad(merged[newId], m)];
    }
  }

  lemma UpdateTotal(nodes: map<string, NodeState>, id: string, n: NodeState, m: Measure)
    ensures NodeTotal(nodes[id := n], m) ==
            NodeTotal(nodes, m) + NodeLoad(n, m) - (if id in nodes then NodeLoad(nodes[id], m) else 0)
  {
    TotalInsert(NodeLoads(nodes, m), id, NodeLoad(n, m));
    assert NodeLoads(nodes[id := n], m) == NodeLoads(nodes, m)[id := NodeLoad(n, m)];
  }

  function PacketLoad(length: int, m: Measure): int { if m == Packets then 1 else length }

  lemma AddNodeCounts(g: GraphState, group: Labeller, ip: string, hostname: string, length: int, now: int, m: Measure)
    requires WellFormed(g) && IsId(ip)
      && (EffectiveHost(group, ip, hostname) != "" ==> IsId(EffectiveHost(group, ip, hostname)))
    ensures NodeTotal(AddNode(g, group, ip, hostname, length, now).nodes, m)
      == NodeTotal(g.nodes, m) + PacketLoad(length, m)
  {
    hide WellFormed, MergeEdges, MergeNodes, EffectiveHost, UsesHost, NodeTotal, IsId;
    var host := EffectiveHost(group, ip, hostname);
    var settled := Settle(g, ip, host);
    assert NodeTotal(settled.nodes, m) == NodeTotal(g.nodes, m) by {
      if ip in g.ipTo && g.ipTo[ip] != "" && g.ipTo[ip] != NodeFor(g, ip, host) {
        MergeConservesNodes(g.nodes, NodeFor(g, ip, host), g.ipTo[ip], host, m);
      }
    }
    var id := NodeFor(g, ip, host);
    UpdateTotal(settled.nodes, id, CountOn(settled.nodes, id, ip, host, group(ip).Some?, length, now), m);
  }

  lemma NamedAfterConserves(nodes: map<string, NodeState>, id: string, mac: string, host: string, m: Measure)
    ensures NodeTotal(NamedAfter(nodes, id, mac, host), m) == NodeTotal(nodes, m)
  {
    if id in nodes {
      UpdateTotal(nodes, id, NamedAfter(nodes, id, mac, host)[id], m);
    }
  }

  lemma PromoteConserves(g: GraphState, group: Labeller, nodeId: string, mac: string, m: Measure)
    requires WellFormed(g) && IsId(nodeId) && IsId(mac)
    ensures NodeTotal(Promote(g, group, nodeId, mac).nodes, m) == NodeTotal(g.nodes, m)
  {
    hide EdgesOk, NodesOk, IpsOk, HostsOk, AnchorsOk, MergeEdges, MergeNodes, NamedAfter, NodeTotal, PromotedName,
         IsHostMac, IsId;
    if Promotable(g, nodeId, mac) {
      var host := PromotedName(group, g.nodes[nodeId], nodeId);
      MergeConservesNodes(g.nodes, mac, nodeId, host, m);
      NamedAfterConserves(Merge(g, mac, nodeId, host).nodes, mac, mac, host, m);
    }
  }

  lemma DemoteConserves(g: GraphState, group: Labeller, mac: string, m: Measure)
    requires WellFormed(g) && IsId(mac)
    ensures NodeTotal(Demote(g, group, mac).nodes, m) == NodeTotal(g.nodes, m)
  {
    hide EdgesOk, HostsOk, AnchorsOk, MergeEdges, MergeNodes, NamedAfter, NodeTotal, Plain;
    if mac in g.nodes {
      var n := g.nodes[mac];
      var ip := FirstHost(group, n.ips);
      if ip != "" && ip != mac {
        FirstHostIsListed(group, n.ips);
        var host := if n.hostname == "" || n.hostname == mac then ip else n.hostname;
        MergeConservesNodes(g.nodes, ip, mac, host, m);
        NamedAfterConserves(Merge(g, ip, mac, host).nodes, ip, mac, host, m);
      }
    }
  }

  lemma RecordMacConserves(g: GraphState, group: Labeller, nodeId: string, mac: string, now: int, m: Measure)
    requires WellFormed(g) && (IsHostMac(mac) ==> IsId(mac))
    ensures NodeTotal(RecordMac(g, group, nodeId, mac, now).nodes, m) == NodeTotal(g.nodes, m)
  {
    hide EdgesOk, NodesOk, IpsOk, HostsOk, AnchorsOk, IsId, Promote, Demote, MergeEdges, MergeNodes, Repointed,
         IsHostMac, NodeTotal;
    if nodeId != "" && IsHostMac(mac) && nodeId in g.nodes {
      var g1 := NoteMac(g, nodeId, mac);
      NoteMacKeepsWellFormed(g, nodeId, mac);
      assert NodeTotal(g1.nodes, m) == NodeTotal(g.nodes, m) by {
        if mac !in g.nodes[nodeId].macs {
          UpdateTotal(g.nodes, nodeId, g1.nodes[nodeId], m);
        }
      }
      if mac in g1.sharedMacs {
      } else if mac !in g1.macTo || (g1.macTo[mac] != nodeId && g1.macTo[mac] !in g1.nodes) {
        AnchoredKeepsWellFormed(g1, mac, nodeId);
        PromoteConserves(Anchored(g1, mac, nodeId), group, nodeId, mac, m);
      } else if g1.macTo[mac] == nodeId {
        PromoteConserves(g1, group, nodeId, mac, m);
      } else {
        SharedKeepsWellFormed(g1, mac);
        if now - g1.nodes[g1.macTo[mac]].lastSeen < MAC_ACTIVE_WINDOW {
          DemoteConserves(Shared(g1, mac), group, mac, m);
        } else {
          var merged := Merge(g1, nodeId, g1.macTo[mac], g1.nodes[nodeId].hostname);
          MergeConservesNodes(g1.nodes, nodeId, g1.macTo[mac], g1.nodes[nodeId].hostname, m);
          MergeKeepsWellFormed(g1, nodeId, g1.macTo[mac], g1.nodes[nodeId].hostname);
          AnchoredKeepsWellFormed(merged, mac, nodeId);
          PromoteConserves(Anchored(merged, mac, nodeId), group, nodeId, mac, m);
        }
      }
    }
  }

  /** One packet is counted once on each side, whatever merges it triggers. */
  lemma IngestCounts(g: GraphState, group: Labeller, p: Packet, srcHost: string, dstHost: string, now: int, m: Measure)
    requires WellFormed(g) && PacketOk(group, p, srcHost, dstHost)
    ensures NodeTotal(Ingested(g, group, p, srcHost, dstHost, now).nodes, m)
      == NodeTotal(g.nodes, m) + 2 * PacketLoad(p.length, m)
  {
    hide WellFormed, AddNode, RecordMac, CountEdge, IsId, IsHostMac, EffectiveHost, NodeTotal;
    var g1 := AddNode(g, group, p.srcIp, srcHost, p.length, now);
    AddNodeKeepsWellFormed(g, group, p.srcIp, srcHost, p.length, now);
    AddNodeCounts(g, group, p.srcIp, srcHost, p.length, now, m);
    var g2 := AddNode(g1, group, p.dstIp, dstHost, p.length, now);
    AddNodeKeepsWellFormed(g1, group, p.dstIp, dstHost, p.length, now);
    AddNodeCounts(g1, group, p.dstIp, dstHost, p.length, now, m);
    var g3 := RecordMacOf(g2, group, p.srcIp, p.srcMac, now);
    RecordMacOfKeepsWellFormed(g2, group, p.srcIp, p.srcMac, now);
    if p.srcMac != "" && p.srcIp in g2.ipTo { RecordMacConserves(g2, group, g2.ipTo[p.srcIp], p.srcMac, now, m); }
    if p.dstMac != "" && p.dstIp in g3.ipTo { RecordMacConserves(g3, group, g3.ipTo[p.dstIp], p.dstMac, now, m); }
  }

  function Loops(edges: map<string, EdgeState>, newId: string, oldId: string): map<string, EdgeState> {
    map i | i in edges && BecomesLoop(edges[i], newId, oldId) :: edges[i]
  }

  function Moving(edges: map<string, EdgeState>, newId: string, oldId: string): map<string, EdgeState> {
    map i | i in edges && Moves(edges[i], newId, oldId) :: edges[i]
  }

  lemma MovedKeys(edges: map<string, EdgeState>, newId: string, oldId: string) returns (key: map<string, string>)
    requires EdgesOk(edges) && IsId(newId) && IsId(oldId) && newId != oldId
    ensures key.Keys == Moving(edges, newId, oldId).Keys
    ensures key.Values == Moved(edges, edges.Keys, newId, oldId).Keys
    ensures forall i, j :: i in key && j in key && key[i] == key[j] ==> i == j
    ensures forall i :: i in key ==> Moved(edges, edges.Keys, newId, oldId)[key[i]].volume == edges[i].volume
  {
    hide EdgesOk, IsId, Moved, Rekeyed, NewKey;
    MovesAreInjective(edges, newId, oldId);
    key := map i | i in edges && Moves(edges[i], newId, oldId) :: NewKey(edges[i], newId, oldId);
    var moved := Moved(edges, edges.Keys, newId, oldId);
    forall i | i in key ensures key[i] in moved && moved[key[i]].volume == edges[i].volume {
      MovedAt(edges, edges.Keys, newId, oldId, i);
      RekeyedKeepsCounters(edges[i], newId, oldId);
    }
    forall k | k in moved ensures k in key.Values {
      var i := MovedSource(edges, edges.Keys, newId, oldId, k);
      assert i in key && key[i] == k;
    }
  }

  lemma MovedConserves(edges: map<string, EdgeState>, newId: string, oldId: string, m: Measure)
    requires EdgesOk(edges) && IsId(newId) && IsId(oldId) && newId != oldId
    ensures EdgeTotal(Moved(edges, edges.Keys, newId, oldId), m) == EdgeTotal(Moving(edges, newId, oldId), m)
  {
    hide EdgesOk, IsId, Moved, Moves;
    var moving, moved := Moving(edges, newId, oldId), Moved(edges, edges.Keys, newId, oldId);
    var key := MovedKeys(edges, newId, oldId);
    TotalRename(EdgeLoads(moving, m), EdgeLoads(moved, m), key);
  }

  lemma OverlayConserves(base: map<string, EdgeState>, extra: map<string, EdgeState>, m: Measure)
    ensures EdgeTotal(Overlay(base, extra), m) == EdgeTotal(base, m) + EdgeTotal(extra, m)
  {
    TotalOverlay(EdgeLoads(Overlay(base, extra), m), EdgeLoads(base, m), EdgeLoads(extra, m));
  }

  /** Every edge stays, moves, or becomes a loop. */
  lemma PartitionConserves(edges: map<string, EdgeState>, newId: string, oldId: string, m: Measure)
    ensures EdgeTotal(edges, m) == EdgeTotal(Staying(edges, oldId), m) + EdgeTotal(Loops(edges, newId, oldId), m)
                                   + EdgeTotal(Moving(edges, newId, oldId), m)
  {
    var staying, loops, moving := Staying(edges, oldId), Loops(edges, newId, oldId), Moving(edges, newId, oldId);
    var rest := map i | i in edges && Touches(edges[i], oldId) :: edges[i];
    TotalOverlay(EdgeLoads(rest, m), EdgeLoads(loops, m), EdgeLoads(moving, m));
    TotalOverlay(EdgeLoads(edges, m), EdgeLoads(staying, m), EdgeLoads(rest, m));
  }

  /** Merging two nodes loses exactly the traffic of the edges that became loops. */
  lemma MergeConservesEdges(edges: map<string, EdgeState>, newId: string, oldId: string, m: Measure)
    requires EdgesOk(edges) && IsId(newId) && IsId(oldId) && newId != oldId
    ensures EdgeTotal(MergeEdges(edges, newId, oldId), m)
      == EdgeTotal(edges, m) - EdgeTotal(Loops(edges, newId, oldId), m)
  {
    hide EdgesOk, IsId, Moved, Moving, Staying, Loops, Overlay, EdgeTotal;
    MovedConserves(edges, newId, oldId, m);
    OverlayConserves(Staying(edges, oldId), Moved(edges, edges.Keys, newId, oldId), m);
    PartitionConserves(edges, newId, oldId, m);
  }
}
