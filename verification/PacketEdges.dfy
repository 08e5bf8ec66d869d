/** What one packet does to the edges: the merges it triggers, then one more packet on one edge
    (graph/graph.go Ingest). */
module PacketEdges {
  import opened Ids
  import opened GraphState
  import opened Lineage
  import opened Identity

  /** The edges after merging nodes, pair by pair. */
  ghost function AfterMerges(edges: map<string, EdgeState>, merges: seq<(string, string)>): map<string, EdgeState> {
    if merges == [] then edges
    else
      var before, m := AfterMerges(edges, merges[..|merges| - 1]), merges[|merges| - 1];
      if EdgesOk(before) && IsId(m.0) && IsId(m.1) && m.0 != m.1 then MergeEdges(before, m.0, m.1) else before
  }

  /** Only merges lead from `before` to `after`. */
  ghost predicate ByMerges(before: map<string, EdgeState>, after: map<string, EdgeState>) {
    exists merges :: AfterMerges(before, merges) == after
  }

  lemma {:induction false} MergesAppend(edges: map<string, EdgeState>, a: seq<(string, string)>,
                                        b: seq<(string, string)>)
    ensures AfterMerges(edges, a + b) == AfterMerges(AfterMerges(edges, a), b)
  {
    if b == [] {
      assert a + b == a;
    } else {
      assert (a + b)[..|a + b| - 1] == a + b[..|b| - 1];
      MergesAppend(edges, a, b[..|b| - 1]);
    }
  }

  lemma NoMerge(edges: map<string, EdgeState>)
    ensures ByMerges(edges, edges)
  {
    assert AfterMerges(edges, []) == edges;
  }

  lemma OneMerge(edges: map<string, EdgeState>, newId: string, oldId: string)
    requires EdgesOk(edges) && IsId(newId) && IsId(oldId) && newId != oldId
    ensures ByMerges(edges, MergeEdges(edges, newId, oldId))
  {
    var merges := [(newId, oldId)];
    assert merges[..|merges| - 1] == [];
    hide EdgesOk, IsId, MergeEdges;
    assert AfterMerges(edges, merges) == MergeEdges(edges, newId, oldId);
  }

  lemma ByMergesThen(a: map<string, EdgeState>, b: map<string, EdgeState>, c: map<string, EdgeState>)
    requires ByMerges(a, b) && ByMerges(b, c)
    ensures ByMerges(a, c)
  {
    hide AfterMerges;
    var first :| AfterMerges(a, first) == b;
    var second :| AfterMerges(b, second) == c;
    MergesAppend(a, first, second);
  }

  lemma SettleMerges(g: GraphState, ip: string, host: string)
    requires WellFormed(g) && IsId(ip) && (host != "" ==> IsId(host))
    ensures ByMerges(g.edges, Settle(g, ip, host).edges)
  {
    hide EdgesOk, NodesOk, AnchorsOk, MergeNodes, MergeEdges, Repointed, ByMerges;
    NoMerge(g.edges);
    NodeForIsId(g, ip, host);
    if ip in g.ipTo && g.ipTo[ip] != NodeFor(g, ip, host) {
      OneMerge(g.edges, NodeFor(g, ip, host), g.ipTo[ip]);
    }
  }

  lemma AddNodeMerges(g: GraphState, group: Labeller, ip: string, hostname: string, length: int, now: int)
    requires WellFormed(g) && IsId(ip)
      && (EffectiveHost(group, ip, hostname) != "" ==> IsId(EffectiveHost(group, ip, hostname)))
    ensures ByMerges(g.edges, AddNode(g, group, ip, hostname, length, now).edges)
  {
    SettleMerges(g, ip, EffectiveHost(group, ip, hostname));
    hide WellFormed, IsId, Settle, EffectiveHost, CountOn, ByMerges, NodeFor;
  }

  lemma PromoteMerges(g: GraphState, group: Labeller, nodeId: string, mac: string)
    requires WellFormed(g) && IsId(nodeId) && IsId(mac)
    ensures ByMerges(g.edges, Promote(g, group, nodeId, mac).edges)
  {
    hide EdgesOk, NodesOk, IpsOk, HostsOk, AnchorsOk, IsId, MergeNodes, MergeEdges, Repointed, NamedAfter, PromotedName,
         Named, Unnamed, IsHostMac, ByMerges;
    NoMerge(g.edges);
    if Promotable(g, nodeId, mac) {
      OneMerge(g.edges, mac, nodeId);
    }
  }

  lemma DemoteMerges(g: GraphState, group: Labeller, mac: string)
    requires WellFormed(g) && IsId(mac)
    ensures ByMerges(g.edges, Demote(g, group, mac).edges)
  {
    hide EdgesOk, HostsOk, AnchorsOk, Plain, MergeNodes, MergeEdges, Repointed, NamedAfter, ByMerges;
    NoMerge(g.edges);
    if mac in g.nodes {
      var ip := FirstHost(group, g.nodes[mac].ips);
      FirstHostIsListed(group, g.nodes[mac].ips);
      if ip != "" && ip != mac { OneMerge(g.edges, ip, mac); }
    }
  }

  lemma RecordMacMerges(g: GraphState, group: Labeller, nodeId: string, mac: string, now: int)
    requires WellFormed(g) && (IsHostMac(mac) ==> IsId(mac))
    ensures ByMerges(g.edges, RecordMac(g, group, nodeId, mac, now).edges)
  {
    NoMerge(g.edges);
    if nodeId in g.nodes && nodeId != "" && IsHostMac(mac) {
      RecordMacCases(g, group, nodeId, mac, now);
      assert NoteMac(g, nodeId, mac).edges == g.edges;
      RecordedMerges(NoteMac(g, nodeId, mac), group, nodeId, mac, now, RecordMac(g, group, nodeId, mac, now));
    }
    hide *;
  }

  lemma RecordedMerges(g: GraphState, group: Labeller, nodeId: string, mac: string, now: int, h: GraphState)
    requires WellFormed(g) && IsId(nodeId) && IsId(mac) && nodeId in g.nodes
    requires mac in g.sharedMacs ==> h == g
    requires mac !in g.sharedMacs && !Contested(g, nodeId, mac) ==>
      WellFormed(Anchored(g, mac, nodeId)) && h == Promote(Anchored(g, mac, nodeId), group, nodeId, mac)
    requires mac !in g.sharedMacs && Contested(g, nodeId, mac) ==>
      if now - g.nodes[g.macTo[mac]].lastSeen < MAC_ACTIVE_WINDOW then
        WellFormed(Shared(g, mac)) && h == Demote(Shared(g, mac), group, mac)
      else
        && IsId(g.macTo[mac])
        && var merged := Merge(g, nodeId, g.macTo[mac], g.nodes[nodeId].hostname);
           WellFormed(Anchored(merged, mac, nodeId))
             && h == Promote(Anchored(merged, mac, nodeId), group, nodeId, mac)
    ensures ByMerges(g.edges, h.edges)
  {
    hide EdgesOk, NodesOk, IpsOk, HostsOk, AnchorsOk, IsId, Promote, Demote, MergeNodes, MergeEdges, Repointed,
         ByMerges;
    NoMerge(g.edges);
    if mac !in g.sharedMacs {
      if !Contested(g, nodeId, mac) {
        PromoteMerges(Anchored(g, mac, nodeId), group, nodeId, mac);
      } else if now - g.nodes[g.macTo[mac]].lastSeen < MAC_ACTIVE_WINDOW {
        DemoteMerges(Shared(g, mac), group, mac);
      } else {
        var merged := Merge(g, nodeId, g.macTo[mac], g.nodes[nodeId].hostname);
        OneMerge(g.edges, nodeId, g.macTo[mac]);
        PromoteMerges(Anchored(merged, mac, nodeId), group, nodeId, mac);
        ByMergesThen(g.edges, merged.edges, h.edges);
      }
    }
  }

  lemma RecordMacOfMerges(g: GraphState, group: Labeller, ip: string, mac: string, now: int)
    requires WellFormed(g) && (IsHostMac(mac) ==> IsId(mac))
    ensures ByMerges(g.edges, RecordMacOf(g, group, ip, mac, now).edges)
  {
    hide WellFormed, RecordMac, IsHostMac, IsId, ByMerges;
    NoMerge(g.edges);
    if mac != "" && ip in g.ipTo { RecordMacMerges(g, group, g.ipTo[ip], mac, now); }
  }

  /** One packet only merges nodes and then counts once, on the edge between the nodes its addresses lead to, in the
      direction in which it was sent. */
  lemma IngestSends(g: GraphState, group: Labeller, p: Packet, srcHost: string, dstHost: string, now: int)
    returns (before: map<string, EdgeState>)
    requires WellFormed(g) && PacketOk(group, p, srcHost, dstHost)
    ensures ByMerges(g.edges, before)
    ensures var h := Ingested(g, group, p, srcHost, dstHost, now);
      && p.srcIp in h.ipTo && p.dstIp in h.ipTo
      && CountsPacket(before, h.edges, h.ipTo[p.srcIp], h.ipTo[p.dstIp], p.protocol, p.length, now)
  {
    var to := IngestLineage(g, group, p, srcHost, dstHost, now);
    hide WellFormed, AddNode, RecordMacOf, IsId, IsHostMac, EffectiveHost, ByMerges, CountsPacket, EdgeId, CountEdge,
         Descends, Came;
    var g1 := AddNode(g, group, p.srcIp, srcHost, p.length, now);
    AddNodeKeepsWellFormed(g, group, p.srcIp, srcHost, p.length, now);
    AddNodeMerges(g, group, p.srcIp, srcHost, p.length, now);
    var g2 := AddNode(g1, group, p.dstIp, dstHost, p.length, now);
    AddNodeKeepsWellFormed(g1, group, p.dstIp, dstHost, p.length, now);
    AddNodeMerges(g1, group, p.dstIp, dstHost, p.length, now);
    ByMergesThen(g.edges, g1.edges, g2.edges);
    var g3 := RecordMacOf(g2, group, p.srcIp, p.srcMac, now);
    RecordMacOfKeepsWellFormed(g2, group, p.srcIp, p.srcMac, now);
    RecordMacOfMerges(g2, group, p.srcIp, p.srcMac, now);
    ByMergesThen(g.edges, g2.edges, g3.edges);
    var g4 := RecordMacOf(g3, group, p.dstIp, p.dstMac, now);
    RecordMacOfKeepsWellFormed(g3, group, p.dstIp, p.dstMac, now);
    RecordMacOfMerges(g3, group, p.dstIp, p.dstMac, now);
    ByMergesThen(g.edges, g3.edges, g4.edges);
    before := g4.edges;
    AddEdgeCounts(g4, p.srcIp, p.dstIp, p.protocol, p.length, now);
    assert Ingested(g, group, p, srcHost, dstHost, now).ipTo == g4.ipTo;
  }

  /** A packet without host MACs: its destination leads to the node its host name names, and so counts there. */
  lemma IngestNames(g: GraphState, group: Labeller, p: Packet, srcHost: string, dstHost: string, now: int)
    requires WellFormed(g) && PacketOk(group, p, srcHost, dstHost) && !IsHostMac(p.srcMac) && !IsHostMac(p.dstMac)
    ensures var h := Ingested(g, group, p, srcHost, dstHost, now);
      var host := if group(p.dstIp).Some? then group(p.dstIp).value else dstHost;
      && p.dstIp in h.ipTo
      && (if host != "" && host != p.dstIp then host in h.hostTo && h.ipTo[p.dstIp] == h.hostTo[host]
          else h.ipTo[p.dstIp] == p.dstIp)
  {
    hide WellFormed, AddNode, IsId, IsHostMac, EdgeId, CountEdge, Gathers;
    var g1 := AddNode(g, group, p.srcIp, srcHost, p.length, now);
    AddNodeKeepsWellFormed(g, group, p.srcIp, srcHost, p.length, now);
    var g2 := AddNode(g1, group, p.dstIp, dstHost, p.length, now);
    AddNodeKeepsWellFormed(g1, group, p.dstIp, dstHost, p.length, now);
    CountedNode(g1, group, p.dstIp, dstHost, p.length, now);
    NoMacNoChange(g2, group, p.srcIp, p.srcMac, now);
    NoMacNoChange(g2, group, p.dstIp, p.dstMac, now);
  }

  lemma NoMacNoChange(g: GraphState, group: Labeller, ip: string, mac: string, now: int)
    requires WellFormed(g) && !IsHostMac(mac)
    ensures RecordMacOf(g, group, ip, mac, now) == g
  {
    hide WellFormed, IsHostMac;
  }
}
