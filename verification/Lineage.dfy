/** What becomes of nodes: where each one's addresses and MACs go, and whose MAC a node gains (graph/graph.go). */
module Lineage {
  import opened Ids
  import opened GraphState
  import opened GraphInvariants

  /** Node `j` lists all that `n` lists. */
  ghost predicate Kept(n: NodeState, nodes: map<string, NodeState>, j: string) {
    && j in nodes && (forall mac :: mac in n.macs ==> mac in nodes[j].macs)
    && (forall ip :: ip in n.ips ==> ip in nodes[j].ips)
  }

  /** `to` says which node each node of `g` has become: nothing it lists is lost, and its addresses lead there. */
  ghost predicate Descends(g: GraphState, h: GraphState, to: map<string, string>) {
    && to.Keys == g.nodes.Keys
    && (forall k :: k in g.nodes ==> Kept(g.nodes[k], h.nodes, to[k]))
    && (forall ip :: ip in g.ipTo ==> ip in h.ipTo && (g.ipTo[ip] in g.nodes ==> h.ipTo[ip] == to[g.ipTo[ip]]))
  }

  ghost predicate HadMac(g: GraphState, to: map<string, string>, j: string, mac: string) {
    exists k :: k in g.nodes && k in to && to[k] == j && mac in g.nodes[k].macs
  }

  ghost predicate HadIp(g: GraphState, to: map<string, string>, j: string, ip: string) {
    exists k :: k in g.nodes && k in to && to[k] == j && ip in g.nodes[k].ips
  }

  ghost predicate Was(to: map<string, string>, j: string) { exists k :: k in to && to[k] == j }

  /** One of these addresses leads to `j`. */
  ghost predicate Led(h: GraphState, ips: set<string>, j: string) {
    exists ip :: ip in ips && ip in h.ipTo && h.ipTo[ip] == j
  }

  /** An address that leads to `j` was seen with this MAC. */
  ghost predicate Seen(h: GraphState, seen: set<(string, string)>, j: string, mac: string) {
    exists ip :: (ip, mac) in seen && ip in h.ipTo && h.ipTo[ip] == j
  }

  /** A node is one of `g`'s or one that these addresses lead to; it lists nothing but what was listed before, these
      addresses, and the MACs seen with the addresses that lead to it. */
  ghost predicate Gains(g: GraphState, h: GraphState, to: map<string, string>, ips: set<string>,
                        seen: set<(string, string)>) {
    forall j :: j in h.nodes ==> GainsAt(g, h, to, ips, seen, j)
  }

  ghost predicate GainsAt(g: GraphState, h: GraphState, to: map<string, string>, ips: set<string>,
                          seen: set<(string, string)>, j: string)
    requires j in h.nodes
  {
    && (Was(to, j) || Led(h, ips, j))
    && (forall mac :: mac in h.nodes[j].macs ==> HadMac(g, to, j, mac) || Seen(h, seen, j, mac))
    && (forall ip :: ip in h.nodes[j].ips ==> HadIp(g, to, j, ip) || (ip in ips && ip in h.ipTo && h.ipTo[ip] == j))
  }

  function Composed(first: map<string, string>, second: map<string, string>): map<string, string> {
    map k | k in first && first[k] in second :: second[first[k]]
  }

  lemma DescendsThen(g: GraphState, h: GraphState, f: GraphState, first: map<string, string>,
                     second: map<string, string>)
    requires Descends(g, h, first) && Descends(h, f, second)
    ensures Descends(g, f, Composed(first, second))
  {
  }

  lemma GainsThen(g: GraphState, h: GraphState, f: GraphState, first: map<string, string>, second: map<string, string>,
                  ips: set<string>, more: set<string>, seen: set<(string, string)>, also: set<(string, string)>)
    requires Descends(g, h, first) && Descends(h, f, second)
    requires Gains(g, h, first, ips, seen) && Gains(h, f, second, more, also)
    ensures Gains(g, f, Composed(first, second), ips + more, seen + also)
  {
    var to := Composed(first, second);
    forall j | j in f.nodes ensures Was(to, j) || Led(f, ips + more, j) {
      if Was(second, j) {
        var i :| i in second && second[i] == j;
        if Was(first, i) {
          var k :| k in first && first[k] == i;
          assert to[k] == j;
        }
      }
    }
    forall j, mac | j in f.nodes && mac in f.nodes[j].macs
      ensures HadMac(g, to, j, mac) || Seen(f, seen + also, j, mac)
    {
      MacsThen(g, h, f, first, second, ips, seen, j, mac);
    }
    forall j, ip | j in f.nodes && ip in f.nodes[j].ips
      ensures HadIp(g, to, j, ip) || (ip in ips + more && ip in f.ipTo && f.ipTo[ip] == j)
    {
      if HadIp(h, second, j, ip) {
        var i :| i in h.nodes && i in second && second[i] == j && ip in h.nodes[i].ips;
        if HadIp(g, first, i, ip) {
          var k :| k in g.nodes && k in first && first[k] == i && ip in g.nodes[k].ips;
          assert to[k] == j;
        }
      }
    }
  }

  lemma MacsThen(g: GraphState, h: GraphState, f: GraphState, first: map<string, string>, second: map<string, string>,
                 ips: set<string>, seen: set<(string, string)>, j: string, mac: string)
    requires Descends(g, h, first) && Descends(h, f, second) && Gains(g, h, first, ips, seen)
    ensures HadMac(h, second, j, mac) ==> HadMac(g, Composed(first, second), j, mac) || Seen(f, seen, j, mac)
  {
    if HadMac(h, second, j, mac) {
      var i :| i in h.nodes && i in second && second[i] == j && mac in h.nodes[i].macs;
      if HadMac(g, first, i, mac) {
        var k :| k in g.nodes && k in first && first[k] == i && mac in g.nodes[k].macs;
        assert Composed(first, second)[k] == j;
      } else {
        assert Seen(h, seen, i, mac);
        var ip :| (ip, mac) in seen && ip in h.ipTo && h.ipTo[ip] == i;
        assert ip in f.ipTo && f.ipTo[ip] == j;
      }
    }
  }

  // ---- one operation ----

  function Itself(nodes: map<string, NodeState>): map<string, string> { map k | k in nodes :: k }

  function Renames(nodes: map<string, NodeState>, newId: string, oldId: string): map<string, string> {
    map k | k in nodes :: Renamed(k, newId, oldId)
  }

  /** Merging moves the old node's addresses and MACs to the new one, and nothing else. */
  lemma MergeLineage(g: GraphState, newId: string, oldId: string, hostname: string)
    requires WellFormed(g) && IsId(newId) && IsId(oldId) && newId != oldId
    ensures var h, to := Merge(g, newId, oldId, hostname), Renames(g.nodes, newId, oldId);
      Descends(g, h, to) && Gains(g, h, to, {}, {})
  {
    hide EdgesOk, NodesOk, IpsOk, HostsOk, AnchorsOk, IsId, MergeEdges, MergeNodes, Descends, Gains, Repointed;
    MergedLists(g.nodes, newId, oldId, hostname);
    var h := Merge(g, newId, oldId, hostname);
    MergeDescends(g, h, newId, oldId);
    MergeGains(g, h, newId, oldId);
  }

  /** What the merged nodes list. */
  ghost predicate Joined(nodes: map<string, NodeState>, newId: string, oldId: string, merged: map<string, NodeState>) {
    && merged.Keys == (if oldId in nodes then nodes.Keys - {oldId} + {newId} else nodes.Keys)
    && (forall k :: k in nodes && k != newId && k != oldId ==> merged[k] == nodes[k])
    && (newId in merged ==>
          && (forall mac :: mac in merged[newId].macs <==>
                (newId in nodes && mac in nodes[newId].macs) || (oldId in nodes && mac in nodes[oldId].macs))
          && (forall ip :: ip in merged[newId].ips <==>
                (newId in nodes && ip in nodes[newId].ips) || (oldId in nodes && ip in nodes[oldId].ips)))
  }

  lemma MergedLists(nodes: map<string, NodeState>, newId: string, oldId: string, hostname: string)
    requires newId != oldId
    ensures Joined(nodes, newId, oldId, MergeNodes(nodes, newId, oldId, hostname))
  {
    hide Absorb;
    if oldId in nodes && newId in nodes {
      AbsorbLists(nodes[newId], nodes[oldId]);
    }
  }

  lemma JoinedAt(nodes: map<string, NodeState>, newId: string, oldId: string, merged: map<string, NodeState>, k: string)
    requires Joined(nodes, newId, oldId, merged) && newId != oldId && k in nodes
    ensures Kept(nodes[k], merged, Renamed(k, newId, oldId))
  {
  }

  lemma MergeDescends(g: GraphState, h: GraphState, newId: string, oldId: string)
    requires Joined(g.nodes, newId, oldId, h.nodes) && newId != oldId && h.ipTo == Repointed(g.ipTo, newId, oldId)
    ensures Descends(g, h, Renames(g.nodes, newId, oldId))
  {
    hide Joined, Kept;
    forall k | k in g.nodes ensures Kept(g.nodes[k], h.nodes, Renamed(k, newId, oldId)) {
      JoinedAt(g.nodes, newId, oldId, h.nodes, k);
    }
    hide Renamed;
  }

  lemma JoinedFrom(nodes: map<string, NodeState>, newId: string, oldId: string, merged: map<string, NodeState>,
                   j: string)
    requires Joined(nodes, newId, oldId, merged) && newId != oldId && j in merged
    ensures j in nodes || oldId in nodes
    ensures j !in nodes ==> j == newId
    ensures j != oldId
    ensures forall mac :: mac in merged[j].macs ==>
      (j in nodes && mac in nodes[j].macs) || (j == newId && oldId in nodes && mac in nodes[oldId].macs)
    ensures forall ip :: ip in merged[j].ips ==>
      (j in nodes && ip in nodes[j].ips) || (j == newId && oldId in nodes && ip in nodes[oldId].ips)
  {
  }

  lemma MergeGains(g: GraphState, h: GraphState, newId: string, oldId: string)
    requires Joined(g.nodes, newId, oldId, h.nodes) && newId != oldId
    ensures Gains(g, h, Renames(g.nodes, newId, oldId), {}, {})
  {
    forall j | j in h.nodes
      ensures Was(Renames(g.nodes, newId, oldId), j)
      ensures forall mac :: mac in h.nodes[j].macs ==> HadMac(g, Renames(g.nodes, newId, oldId), j, mac)
      ensures forall ip :: ip in h.nodes[j].ips ==> HadIp(g, Renames(g.nodes, newId, oldId), j, ip)
    {
      JoinedFrom(g.nodes, newId, oldId, h.nodes, j);
      hide Joined;
      var to := Renames(g.nodes, newId, oldId);
      assert j in g.nodes ==> j in to && to[j] == j;
      assert j == newId && oldId in g.nodes ==> oldId in to && to[oldId] == j;
    }
  }

  lemma AbsorbLists(n: NodeState, gone: NodeState)
    ensures forall mac :: mac in Absorb(n, gone).macs <==> mac in n.macs || mac in gone.macs
    ensures forall ip :: ip in Absorb(n, gone).ips <==> ip in n.ips || ip in gone.ips
  {
    forall x ensures x in Missing(n.macs, gone.macs) <==> x in gone.macs && x !in n.macs {
      MissingMembers(n.macs, gone.macs, x);
    }
    forall x ensures x in Missing(n.ips, gone.ips) <==> x in gone.ips && x !in n.ips {
      MissingMembers(n.ips, gone.ips, x);
    }
  }

  /** Every node is where it was, with the addresses and MACs it had. */
  ghost predicate SameLists(g: GraphState, h: GraphState) {
    && h.nodes.Keys == g.nodes.Keys && h.ipTo == g.ipTo
    && forall k :: k in g.nodes ==> h.nodes[k].ips == g.nodes[k].ips && h.nodes[k].macs == g.nodes[k].macs
  }

  lemma SameListsLineage(g: GraphState, h: GraphState, g': GraphState, h': GraphState, to: map<string, string>,
                         ips: set<string>, seen: set<(string, string)>)
    requires SameLists(g, g') && SameLists(h, h') && Descends(g, h, to) && Gains(g, h, to, ips, seen)
    ensures Descends(g', h', to) && Gains(g', h', to, ips, seen)
  {
    SameListsDescend(g, h, g', h', to);
    forall j | j in h'.nodes ensures GainsAt(g', h', to, ips, seen, j) {
      SameListsGain(g, h, g', h', to, ips, seen, j);
      hide GainsAt, SameLists;
    }
    hide SameLists, Descends, GainsAt;
  }

  lemma SameListsDescend(g: GraphState, h: GraphState, g': GraphState, h': GraphState, to: map<string, string>)
    requires SameLists(g, g') && SameLists(h, h') && Descends(g, h, to)
    ensures Descends(g', h', to)
  {
    forall k | k in g'.nodes ensures Kept(g'.nodes[k], h'.nodes, to[k]) {
      assert Kept(g.nodes[k], h.nodes, to[k]);
    }
    hide Kept;
  }

  lemma SameListsGain(g: GraphState, h: GraphState, g': GraphState, h': GraphState, to: map<string, string>,
                      ips: set<string>, seen: set<(string, string)>, j: string)
    requires SameLists(g, g') && SameLists(h, h') && Gains(g, h, to, ips, seen) && j in h'.nodes
    ensures GainsAt(g', h', to, ips, seen, j)
  {
    forall mac | mac in h'.nodes[j].macs ensures HadMac(g', to, j, mac) || Seen(h', seen, j, mac) {
      assert HadMac(g, to, j, mac) || Seen(h, seen, j, mac);
    }
    forall ip | ip in h'.nodes[j].ips ensures HadIp(g', to, j, ip) || (ip in ips && ip in h'.ipTo && h'.ipTo[ip] == j) {
      assert HadIp(g, to, j, ip) || (ip in ips && ip in h.ipTo && h.ipTo[ip] == j);
    }
    assert Was(to, j) || Led(h, ips, j);
  }

  lemma ItselfLineage(g: GraphState)
    ensures Descends(g, g, Itself(g.nodes)) && Gains(g, g, Itself(g.nodes), {}, {})
  {
    var to := Itself(g.nodes);
    forall j | j in g.nodes ensures Was(to, j) && (forall mac :: mac in g.nodes[j].macs ==> HadMac(g, to, j, mac))
      && (forall ip :: ip in g.nodes[j].ips ==> HadIp(g, to, j, ip))
    {
      assert to[j] == j;
    }
  }

  lemma SettleLineage(g: GraphState, ip: string, host: string) returns (to: map<string, string>)
    requires WellFormed(g) && IsId(ip) && (host != "" ==> IsId(host))
    ensures var h := Settle(g, ip, host); Descends(g, h, to) && Gains(g, h, to, {}, {})
  {
    hide EdgesOk, NodesOk, AnchorsOk, MergeEdges, MergeNodes, Repointed, Descends, Gains;
    var id := NodeFor(g, ip, host);
    NodeForIsId(g, ip, host);
    var g1 := if UsesHost(ip, host) && host !in g.hostTo then g.(hostTo := g.hostTo[host := host]) else g;
    to := Itself(g.nodes);
    ItselfLineage(g);
    if ip in g.ipTo && g.ipTo[ip] != id {
      to := Renames(g.nodes, id, g.ipTo[ip]);
      MergeLineage(g1, id, g.ipTo[ip], host);
      SameListsLineage(g1, Merge(g1, id, g.ipTo[ip], host), g, Settle(g, ip, host), to, {}, {});
    } else {
      SameListsLineage(g, g, g, g1, to, {}, {});
    }
  }

  /** Counting a packet adds its address, at most. */
  lemma CountLineage(g: GraphState, id: string, ip: string, host: string, isGroup: bool, length: int, now: int)
    requires ip in g.ipTo && g.ipTo[ip] in g.nodes ==> g.ipTo[ip] == id
    ensures var h := CountNode(g, id, ip, host, isGroup, length, now);
      Descends(g, h, Itself(g.nodes)) && Gains(g, h, Itself(g.nodes), {ip}, {}) && ip in h.ipTo && h.ipTo[ip] in h.nodes
  {
    var h := CountNode(g, id, ip, host, isGroup, length, now);
    MoreLists(g, h, {ip}, {});
  }

  /** Node `j` is one of `g`'s or one these lead to, and lists at most what it did, and these. */
  ghost predicate MoreAt(g: GraphState, h: GraphState, ips: set<string>, seen: set<(string, string)>, j: string)
    requires j in h.nodes
  {
    && (j in g.nodes || Led(h, ips, j))
    && (forall mac :: mac in h.nodes[j].macs ==> (j in g.nodes && mac in g.nodes[j].macs) || Seen(h, seen, j, mac))
    && (forall ip :: ip in h.nodes[j].ips ==>
          (j in g.nodes && ip in g.nodes[j].ips) || (ip in ips && ip in h.ipTo && h.ipTo[ip] == j))
  }

  lemma MoreGains(g: GraphState, h: GraphState, ips: set<string>, seen: set<(string, string)>, j: string)
    requires j in h.nodes && MoreAt(g, h, ips, seen, j)
    ensures GainsAt(g, h, Itself(g.nodes), ips, seen, j)
  {
    assert j in g.nodes ==> Itself(g.nodes)[j] == j;
  }

  /** No node goes or loses anything, and each gains at most these. */
  lemma MoreLists(g: GraphState, h: GraphState, ips: set<string>, seen: set<(string, string)>)
    requires forall k :: k in g.nodes ==> Kept(g.nodes[k], h.nodes, k)
    requires forall ip :: ip in g.ipTo ==> ip in h.ipTo && (g.ipTo[ip] in g.nodes ==> h.ipTo[ip] == g.ipTo[ip])
    requires forall j :: j in h.nodes ==> MoreAt(g, h, ips, seen, j)
    ensures Descends(g, h, Itself(g.nodes)) && Gains(g, h, Itself(g.nodes), ips, seen)
  {
    hide Kept, MoreAt, GainsAt;
    forall j | j in h.nodes ensures GainsAt(g, h, Itself(g.nodes), ips, seen, j) { MoreGains(g, h, ips, seen, j); }
  }

  lemma AddNodeLineage(g: GraphState, group: Labeller, ip: string, hostname: string, length: int, now: int)
    returns (to: map<string, string>)
    requires WellFormed(g) && IsId(ip)
      && (EffectiveHost(group, ip, hostname) != "" ==> IsId(EffectiveHost(group, ip, hostname)))
    ensures var h := AddNode(g, group, ip, hostname, length, now);
      Descends(g, h, to) && Gains(g, h, to, {ip}, {}) && ip in h.ipTo && h.ipTo[ip] in h.nodes
  {
    hide WellFormed, Settle, EffectiveHost, IsId, Descends, Gains, CountNode, NodeFor;
    var host := EffectiveHost(group, ip, hostname);
    var first := SettleLineage(g, ip, host);
    var g1 := Settle(g, ip, host);
    SettleKeepsWellFormed(g, ip, host);
    var id := NodeFor(g, ip, host);
    CountLineage(g1, id, ip, host, group(ip).Some?, length, now);
    var h := AddNode(g, group, ip, hostname, length, now);
    DescendsThen(g, g1, h, first, Itself(g1.nodes));
    GainsThen(g, g1, h, first, Itself(g1.nodes), {}, {ip}, {}, {});
    to := Composed(first, Itself(g1.nodes));
    assert {} + {ip} == {ip};
    var none: set<(string, string)> := {};
    assert none + none == none;
  }

  lemma NamedAfterLists(g: GraphState, id: string, mac: string, host: string)
    ensures SameLists(g, g.(nodes := NamedAfter(g.nodes, id, mac, host)))
  {
  }

  lemma PromoteLineage(g: GraphState, group: Labeller, nodeId: string, mac: string) returns (to: map<string, string>)
    requires WellFormed(g) && IsId(nodeId) && IsId(mac)
    ensures var h := Promote(g, group, nodeId, mac); Descends(g, h, to) && Gains(g, h, to, {}, {})
    ensures to == if Promotable(g, nodeId, mac) then Renames(g.nodes, mac, nodeId) else Itself(g.nodes)
  {
    hide EdgesOk, NodesOk, IpsOk, HostsOk, AnchorsOk, IsId, Merge, PromotedName, NamedAfter, Named, Unnamed, Descends,
         Gains, IsHostMac;
    to := Itself(g.nodes);
    ItselfLineage(g);
    if Promotable(g, nodeId, mac) {
      var host := PromotedName(group, g.nodes[nodeId], nodeId);
      to := Renames(g.nodes, mac, nodeId);
      MergeLineage(g, mac, nodeId, host);
      var merged := Merge(g, mac, nodeId, host);
      NamedAfterLists(merged, mac, mac, host);
      SameListsLineage(g, merged, g, Promote(g, group, nodeId, mac), to, {}, {});
    }
  }

  lemma DemoteLineage(g: GraphState, group: Labeller, mac: string) returns (to: map<string, string>)
    requires WellFormed(g) && IsId(mac)
    ensures var h := Demote(g, group, mac); Descends(g, h, to) && Gains(g, h, to, {}, {})
  {
    hide EdgesOk, HostsOk, AnchorsOk, Plain, Merge, NamedAfter, Descends, Gains;
    to := Itself(g.nodes);
    ItselfLineage(g);
    if mac in g.nodes {
      var n := g.nodes[mac];
      var ip := FirstHost(group, n.ips);
      if ip != "" && ip != mac {
        FirstHostIsListed(group, n.ips);
        var host := if n.hostname == "" || n.hostname == mac then ip else n.hostname;
        to := Renames(g.nodes, ip, mac);
        MergeLineage(g, ip, mac, host);
        var merged := Merge(g, ip, mac, host);
        NamedAfterLists(merged, ip, mac, host);
        SameListsLineage(g, merged, g, Demote(g, group, mac), to, {}, {});
      }
    }
  }

  /** Noting a MAC adds it to the node its address leads to, at most. */
  lemma NoteLineage(g: GraphState, ip: string, mac: string)
    requires ip in g.ipTo && g.ipTo[ip] in g.nodes
    ensures var h := NoteMac(g, g.ipTo[ip], mac);
      Descends(g, h, Itself(g.nodes)) && Gains(g, h, Itself(g.nodes), {}, {(ip, mac)})
        && mac in h.nodes[g.ipTo[ip]].macs
  {
    var h, to := NoteMac(g, g.ipTo[ip], mac), Itself(g.nodes);
    MoreLists(g, h, {}, {(ip, mac)});
  }

  lemma AnchoredLists(g: GraphState, mac: string, nodeId: string)
    ensures SameLists(g, Anchored(g, mac, nodeId)) && SameLists(g, Shared(g, mac)) && SameLists(g, g)
    ensures SameLists(Anchored(g, mac, nodeId), g) && SameLists(Shared(g, mac), g)
  {
  }

  /** The node a MAC is anchored to goes by the MAC, unless it is a group or goes by another MAC already. */
  function Home(g: GraphState, nodeId: string, mac: string): string
    requires nodeId in g.nodes
  {
    if g.nodes[nodeId].isGroup || IsHostMac(nodeId) then nodeId else mac
  }

  /** The MAC is anchored elsewhere, at a node still there. */
  predicate Contested(g: GraphState, nodeId: string, mac: string) {
    mac in g.macTo && g.macTo[mac] != nodeId && g.macTo[mac] in g.nodes
  }

  /** What recording a MAC decides: a MAC known to be shared decides nothing; one whose anchor was seen less than 90
      seconds ago becomes shared and anchors nothing; otherwise it anchors the node, which takes in the old anchor. */
  ghost predicate Decides(g: GraphState, h: GraphState, nodeId: string, mac: string, now: int, to: map<string, string>)
    requires nodeId in g.nodes
  {
    if mac in g.sharedMacs then h == NoteMac(g, nodeId, mac)
    else if Contested(g, nodeId, mac) && now - g.nodes[g.macTo[mac]].lastSeen < 90_000_000_000 then
      h.sharedMacs == g.sharedMacs + {mac} && h.macTo.Keys == g.macTo.Keys - {mac}
    else
      && h.sharedMacs == g.sharedMacs && h.macTo.Keys == g.macTo.Keys + {mac}
      && h.macTo[mac] == Home(g, nodeId, mac)
      && nodeId in to && to[nodeId] == Home(g, nodeId, mac)
      && (Contested(g, nodeId, mac) ==> g.macTo[mac] in to && to[g.macTo[mac]] == Home(g, nodeId, mac))
  }

  lemma PromotedAnchors(g: GraphState, group: Labeller, nodeId: string, mac: string)
    requires WellFormed(g) && IsId(nodeId) && IsId(mac) && mac in g.macTo && g.macTo[mac] == nodeId
    requires nodeId in g.nodes && IsHostMac(mac)
    ensures var h := Promote(g, group, nodeId, mac);
      h.sharedMacs == g.sharedMacs && h.macTo.Keys == g.macTo.Keys && h.macTo[mac] == Home(g, nodeId, mac)
    ensures Home(g, nodeId, mac) == if Promotable(g, nodeId, mac) then mac else nodeId
  {
    hide EdgesOk, NodesOk, IpsOk, HostsOk, MergeEdges, MergeNodes, NamedAfter, PromotedName, Named, Unnamed, IsHostMac,
         Plain;
  }

  /** The four cases of recording a MAC. */
  lemma RecordMacCases(g: GraphState, group: Labeller, nodeId: string, mac: string, now: int)
    requires WellFormed(g) && IsHostMac(mac) && IsId(mac) && nodeId in g.nodes
    ensures var g1, h := NoteMac(g, nodeId, mac), RecordMac(g, group, nodeId, mac, now);
      && WellFormed(g1) && IsId(nodeId) && nodeId in g1.nodes
      && (mac in g1.sharedMacs ==> h == g1)
      && (mac !in g1.sharedMacs && !Contested(g1, nodeId, mac) ==>
            WellFormed(Anchored(g1, mac, nodeId)) && h == Promote(Anchored(g1, mac, nodeId), group, nodeId, mac))
      && (mac !in g1.sharedMacs && Contested(g1, nodeId, mac) ==>
            if now - g1.nodes[g1.macTo[mac]].lastSeen < MAC_ACTIVE_WINDOW then
              WellFormed(Shared(g1, mac)) && h == Demote(Shared(g1, mac), group, mac)
            else
              && IsId(g1.macTo[mac])
              && var merged := Merge(g1, nodeId, g1.macTo[mac], g1.nodes[nodeId].hostname);
                 WellFormed(Anchored(merged, mac, nodeId))
                   && h == Promote(Anchored(merged, mac, nodeId), group, nodeId, mac))
  {
    NoteMacKeepsWellFormed(g, nodeId, mac);
    var g1 := NoteMac(g, nodeId, mac);
    assert nodeId in g1.nodes;
    hide EdgesOk, NodesOk, IpsOk, HostsOk, AnchorsOk, Plain, Merge, Promote, Demote, IsHostMac, NoteMac;
    if mac !in g1.sharedMacs && !Contested(g1, nodeId, mac) {
      AnchoredKeepsWellFormed(g1, mac, nodeId);
      assert mac in g1.macTo && g1.macTo[mac] == nodeId ==> Anchored(g1, mac, nodeId) == g1;
    } else if Contested(g1, nodeId, mac) {
      SharedKeepsWellFormed(g1, mac);
      if now - g1.nodes[g1.macTo[mac]].lastSeen >= MAC_ACTIVE_WINDOW && mac !in g1.sharedMacs {
        MergeKeepsWellFormed(g1, nodeId, g1.macTo[mac], g1.nodes[nodeId].hostname);
        var merged := Merge(g1, nodeId, g1.macTo[mac], g1.nodes[nodeId].hostname);
        assert merged.sharedMacs == g1.sharedMacs by { MergeKeepsShared(g1, nodeId, g1.macTo[mac]); }
        AnchoredKeepsWellFormed(merged, mac, nodeId);
      }
    }
  }

  lemma MergeKeepsShared(g: GraphState, newId: string, oldId: string)
    requires EdgesOk(g.edges) && IsId(newId) && IsId(oldId) && newId != oldId
    ensures forall hostname ::
      && Merge(g, newId, oldId, hostname).sharedMacs == g.sharedMacs
      && Merge(g, newId, oldId, hostname).macTo == Repointed(g.macTo, newId, oldId)
  {
  }

  /** Anchoring, sharing, promoting and demoting lose nothing and bring nothing new. */
  lemma IdentifyLineage(g: GraphState, group: Labeller, nodeId: string, mac: string, now: int)
    returns (to: map<string, string>)
    requires WellFormed(g) && IsHostMac(mac) && IsId(mac) && nodeId in g.nodes
    ensures var g1, h := NoteMac(g, nodeId, mac), RecordMac(g, group, nodeId, mac, now);
      Descends(g1, h, to) && Gains(g1, h, to, {}, {}) && Decides(g, h, nodeId, mac, now, to)
  {
    hide *;
    RecordMacCases(g, group, nodeId, mac, now);
    NotedIsSame(g, nodeId, mac);
    var g1, h := NoteMac(g, nodeId, mac), RecordMac(g, group, nodeId, mac, now);
    if mac in g1.sharedMacs {
      to := Itself(g1.nodes);
      ItselfLineage(g1);
      AlreadyShared(g, h, nodeId, mac, now, to);
    } else if !Contested(g1, nodeId, mac) {
      to := AnchorLineage(g1, group, nodeId, mac);
      AnchorDecides(g, g1, h, nodeId, mac, now, to);
    } else if now - g1.nodes[g1.macTo[mac]].lastSeen < MAC_ACTIVE_WINDOW {
      to := DemoteLineage(Shared(g1, mac), group, mac);
      AnchoredLists(g1, mac, nodeId);
      AnchoredLists(h, mac, nodeId);
      SameListsLineage(Shared(g1, mac), h, g1, h, to, {}, {});
      ShareDecides(g, g1, group, nodeId, mac, now, to);
    } else {
      to := ReunitedLineage(g1, group, nodeId, mac);
      AnchorDecides(g, g1, h, nodeId, mac, now, to);
    }
  }

  lemma NotedIsSame(g: GraphState, nodeId: string, mac: string)
    requires nodeId in g.nodes
    ensures var g1 := NoteMac(g, nodeId, mac);
      && g1.nodes.Keys == g.nodes.Keys && g1.macTo == g.macTo && g1.sharedMacs == g.sharedMacs
      && forall k :: k in g.nodes ==>
        g1.nodes[k].lastSeen == g.nodes[k].lastSeen && g1.nodes[k].isGroup == g.nodes[k].isGroup
    ensures var g1 := NoteMac(g, nodeId, mac);
      && nodeId in g1.nodes && Home(g1, nodeId, mac) == Home(g, nodeId, mac)
      && Contested(g1, nodeId, mac) == Contested(g, nodeId, mac)
      && (Contested(g, nodeId, mac) ==> mac in g.macTo && g.macTo[mac] in g.nodes)
  {
    hide IsHostMac;
  }

  lemma AlreadyShared(g: GraphState, h: GraphState, nodeId: string, mac: string, now: int, to: map<string, string>)
    requires nodeId in g.nodes && mac in g.sharedMacs && h == NoteMac(g, nodeId, mac)
    ensures Decides(g, h, nodeId, mac, now, to)
  {
  }

  lemma AnchorDecides(g: GraphState, g1: GraphState, h: GraphState, nodeId: string, mac: string, now: int,
                      to: map<string, string>)
    requires nodeId in g.nodes && mac !in g.sharedMacs && nodeId in g1.nodes
    requires g1.macTo == g.macTo && g1.sharedMacs == g.sharedMacs && Home(g1, nodeId, mac) == Home(g, nodeId, mac)
    requires Contested(g, nodeId, mac) ==>
      && now - g.nodes[g.macTo[mac]].lastSeen >= MAC_ACTIVE_WINDOW
      && g.macTo[mac] in to && to[g.macTo[mac]] == Home(g, nodeId, mac)
    requires h.sharedMacs == g1.sharedMacs && h.macTo.Keys == g1.macTo.Keys + {mac}
      && h.macTo[mac] == Home(g1, nodeId, mac) && nodeId in to && to[nodeId] == Home(g1, nodeId, mac)
    ensures Decides(g, h, nodeId, mac, now, to)
  {
  }

  lemma ShareDecides(g: GraphState, g1: GraphState, group: Labeller, nodeId: string, mac: string, now: int,
                     to: map<string, string>)
    requires nodeId in g.nodes && mac !in g.sharedMacs && WellFormed(Shared(g1, mac)) && IsId(mac)
    requires Contested(g, nodeId, mac) && now - g.nodes[g.macTo[mac]].lastSeen < MAC_ACTIVE_WINDOW
    requires g1.macTo == g.macTo && g1.sharedMacs == g.sharedMacs
    ensures Decides(g, Demote(Shared(g1, mac), group, mac), nodeId, mac, now, to)
  {
    hide EdgesOk, NodesOk, IpsOk, HostsOk, AnchorsOk, Plain, MergeEdges, MergeNodes, NamedAfter;
  }

  lemma AnchorLineage(g: GraphState, group: Labeller, nodeId: string, mac: string) returns (to: map<string, string>)
    requires WellFormed(g) && IsId(mac) && IsHostMac(mac) && IsId(nodeId) && nodeId in g.nodes && mac !in g.sharedMacs
    requires !Contested(g, nodeId, mac)
    ensures WellFormed(Anchored(g, mac, nodeId))
    ensures var h := Promote(Anchored(g, mac, nodeId), group, nodeId, mac);
      && Descends(g, h, to) && Gains(g, h, to, {}, {})
      && h.sharedMacs == g.sharedMacs && h.macTo.Keys == g.macTo.Keys + {mac}
      && h.macTo[mac] == Home(g, nodeId, mac) && nodeId in to && to[nodeId] == Home(g, nodeId, mac)
  {
    hide EdgesOk, NodesOk, IpsOk, HostsOk, AnchorsOk, Plain, Promote, Descends, Gains, IsHostMac, SameLists, Promotable;
    AnchoredKeepsWellFormed(g, mac, nodeId);
    var anchored := Anchored(g, mac, nodeId);
    to := PromoteLineage(anchored, group, nodeId, mac);
    PromotedAnchors(anchored, group, nodeId, mac);
    AnchoredLists(g, mac, nodeId);
    var h := Promote(anchored, group, nodeId, mac);
    AnchoredLists(h, mac, nodeId);
    SameListsLineage(anchored, h, g, h, to, {}, {});
  }

  lemma ReunitedLineage(g: GraphState, group: Labeller, nodeId: string, mac: string) returns (to: map<string, string>)
    requires WellFormed(g) && IsId(mac) && IsHostMac(mac) && IsId(nodeId) && nodeId in g.nodes && mac !in g.sharedMacs
    requires Contested(g, nodeId, mac) && IsId(g.macTo[mac])
    ensures var merged := Merge(g, nodeId, g.macTo[mac], g.nodes[nodeId].hostname);
      && WellFormed(Anchored(merged, mac, nodeId))
      && var h := Promote(Anchored(merged, mac, nodeId), group, nodeId, mac);
         && Descends(g, h, to) && Gains(g, h, to, {}, {})
         && h.sharedMacs == g.sharedMacs && h.macTo.Keys == g.macTo.Keys + {mac}
         && h.macTo[mac] == Home(g, nodeId, mac) && nodeId in to && to[nodeId] == Home(g, nodeId, mac)
         && g.macTo[mac] in to && to[g.macTo[mac]] == Home(g, nodeId, mac)
  {
    ReunitedIsFree(g, nodeId, mac);
    hide *;
    var oldId, host := g.macTo[mac], g.nodes[nodeId].hostname;
    MergeLineage(g, nodeId, oldId, host);
    var merged := Merge(g, nodeId, oldId, host);
    var second := AnchorLineage(merged, group, nodeId, mac);
    var first := Renames(g.nodes, nodeId, oldId);
    var h := Promote(Anchored(merged, mac, nodeId), group, nodeId, mac);
    DescendsThen(g, merged, h, first, second);
    var nobody: set<string>, none: set<(string, string)> := {}, {};
    GainsThen(g, merged, h, first, second, nobody, nobody, none, none);
    assert nobody + nobody == nobody && none + none == none;
    to := Composed(first, second);
    BothLead(g, nodeId, oldId, second);
  }

  lemma ReunitedIsFree(g: GraphState, nodeId: string, mac: string)
    requires WellFormed(g) && IsId(nodeId) && nodeId in g.nodes && mac !in g.sharedMacs
    requires Contested(g, nodeId, mac) && IsId(g.macTo[mac])
    ensures var merged := Merge(g, nodeId, g.macTo[mac], g.nodes[nodeId].hostname);
      && WellFormed(merged) && nodeId in merged.nodes && Home(merged, nodeId, mac) == Home(g, nodeId, mac)
      && merged.sharedMacs == g.sharedMacs && merged.macTo.Keys == g.macTo.Keys && !Contested(merged, nodeId, mac)
      && mac in g.macTo && g.macTo[mac] != nodeId && g.macTo[mac] in g.nodes
  {
    hide EdgesOk, NodesOk, IpsOk, HostsOk, AnchorsOk, Merge, IsHostMac, IsId;
    MergedHome(g, nodeId, g.macTo[mac], g.nodes[nodeId].hostname);
    MergeKeepsWellFormed(g, nodeId, g.macTo[mac], g.nodes[nodeId].hostname);
    MergeKeepsShared(g, nodeId, g.macTo[mac]);
  }

  lemma BothLead(g: GraphState, nodeId: string, oldId: string, second: map<string, string>)
    requires nodeId in g.nodes && oldId in g.nodes && nodeId in second
    ensures var to := Composed(Renames(g.nodes, nodeId, oldId), second);
      nodeId in to && oldId in to && to[nodeId] == second[nodeId] && to[oldId] == second[nodeId]
  {
  }

  lemma MergedHome(g: GraphState, nodeId: string, oldId: string, host: string)
    requires EdgesOk(g.edges) && IsId(nodeId) && IsId(oldId) && nodeId != oldId && nodeId in g.nodes
    ensures var merged := Merge(g, nodeId, oldId, host);
      nodeId in merged.nodes && merged.nodes[nodeId].isGroup == g.nodes[nodeId].isGroup
  {
    hide EdgesOk, IsId, MergeEdges, Missing;
  }

  /** Recording a MAC puts it on the node its address leads to, whatever that node becomes, and on no other. */
  lemma RecordMacLineage(g: GraphState, group: Labeller, ip: string, mac: string, now: int)
    returns (to: map<string, string>)
    requires WellFormed(g) && IsHostMac(mac) && IsId(mac) && ip in g.ipTo && g.ipTo[ip] in g.nodes
    ensures var h := RecordMac(g, group, g.ipTo[ip], mac, now);
      && Descends(g, h, to) && Gains(g, h, to, {}, {(ip, mac)})
      && ip in h.ipTo && h.ipTo[ip] in h.nodes && mac in h.nodes[h.ipTo[ip]].macs
  {
    hide WellFormed, IsId, RecordMac, Gains, IsHostMac, Kept;
    var nodeId := g.ipTo[ip];
    NoteLineage(g, ip, mac);
    var g1, h := NoteMac(g, nodeId, mac), RecordMac(g, group, nodeId, mac, now);
    var second := IdentifyLineage(g, group, nodeId, mac, now);
    to := Composed(Itself(g.nodes), second);
    DescendsThen(g, g1, h, Itself(g.nodes), second);
    var nobody: set<string>, none: set<(string, string)> := {}, {};
    GainsThen(g, g1, h, Itself(g.nodes), second, nobody, nobody, {(ip, mac)}, none);
    assert nobody + nobody == nobody && {(ip, mac)} + none == {(ip, mac)};
    KeptMac(g1, h, second, ip, mac);
  }

  lemma KeptMac(g: GraphState, h: GraphState, to: map<string, string>, ip: string, mac: string)
    requires Descends(g, h, to) && ip in g.ipTo && g.ipTo[ip] in g.nodes && mac in g.nodes[g.ipTo[ip]].macs
    ensures ip in h.ipTo && h.ipTo[ip] in h.nodes && mac in h.nodes[h.ipTo[ip]].macs
  {
  }

  // ---- one packet ----

  function Noted(ip: string, mac: string): set<(string, string)> { if IsHostMac(mac) then {(ip, mac)} else {} }

  /** `ip` leads to a node, which lists `mac` if that is a host's. */
  ghost predicate Marked(g: GraphState, ip: string, mac: string) {
    ip in g.ipTo && g.ipTo[ip] in g.nodes && (IsHostMac(mac) ==> mac in g.nodes[g.ipTo[ip]].macs)
  }

  lemma StaysMarked(g: GraphState, h: GraphState, to: map<string, string>, ip: string, mac: string)
    requires Descends(g, h, to) && ip in g.ipTo && g.ipTo[ip] in g.nodes
    ensures ip in h.ipTo && h.ipTo[ip] in h.nodes
    ensures Marked(g, ip, mac) ==> Marked(h, ip, mac)
  {
    hide IsHostMac;
  }

  lemma RecordMacOfLineage(g: GraphState, group: Labeller, ip: string, mac: string, now: int)
    returns (to: map<string, string>)
    requires WellFormed(g) && (IsHostMac(mac) ==> IsId(mac)) && ip in g.ipTo && g.ipTo[ip] in g.nodes
    ensures var h := RecordMacOf(g, group, ip, mac, now);
      Descends(g, h, to) && Gains(g, h, to, {}, Noted(ip, mac)) && Marked(h, ip, mac)
  {
    assert IsHostMac(mac) ==> mac != "";
    NodeIsNamed(g, ip);
    hide WellFormed, IsId, Descends, Gains, IsHostMac;
    if IsHostMac(mac) {
      to := RecordMacLineage(g, group, ip, mac, now);
    } else {
      to := Itself(g.nodes);
      ItselfLineage(g);
    }
  }

  lemma NodeIsNamed(g: GraphState, ip: string)
    requires WellFormed(g) && ip in g.ipTo
    ensures g.ipTo[ip] != ""
  {
  }

  /** `g` is followed by `h` in which only these gain. */
  ghost predicate Followed(g: GraphState, h: GraphState, to: map<string, string>, ips: set<string>,
                           seen: set<(string, string)>) {
    Descends(g, h, to) && Gains(g, h, to, ips, seen)
  }

  lemma FollowedThen(g: GraphState, h: GraphState, f: GraphState, first: map<string, string>,
                     second: map<string, string>, ips: set<string>, more: set<string>, seen: set<(string, string)>,
                     also: set<(string, string)>)
    requires Followed(g, h, first, ips, seen) && Followed(h, f, second, more, also)
    ensures Followed(g, f, Composed(first, second), ips + more, seen + also)
  {
    hide Descends, Gains;
    DescendsThen(g, h, f, first, second);
    GainsThen(g, h, f, first, second, ips, more, seen, also);
  }

  lemma IngestFollowed(g: GraphState, group: Labeller, p: Packet, srcHost: string, dstHost: string, now: int)
    returns (to: map<string, string>)
    requires WellFormed(g) && PacketOk(group, p, srcHost, dstHost)
    ensures var h := Ingested(g, group, p, srcHost, dstHost, now);
      && Followed(g, h, to, {p.srcIp, p.dstIp}, Noted(p.srcIp, p.srcMac) + Noted(p.dstIp, p.dstMac))
      && Marked(h, p.srcIp, p.srcMac) && Marked(h, p.dstIp, p.dstMac)
  {
    hide WellFormed, AddNode, RecordMacOf, IsId, IsHostMac, EffectiveHost, Descends, Gains, Noted, EdgeId, CountEdge;
    var none: set<(string, string)> := {};
    var g1 := AddNode(g, group, p.srcIp, srcHost, p.length, now);
    var to1 := AddNodeLineage(g, group, p.srcIp, srcHost, p.length, now);
    AddNodeKeepsWellFormed(g, group, p.srcIp, srcHost, p.length, now);
    var g2 := AddNode(g1, group, p.dstIp, dstHost, p.length, now);
    var to2 := AddNodeLineage(g1, group, p.dstIp, dstHost, p.length, now);
    AddNodeKeepsWellFormed(g1, group, p.dstIp, dstHost, p.length, now);
    StaysMarked(g1, g2, to2, p.srcIp, "");
    FollowedThen(g, g1, g2, to1, to2, {p.srcIp}, {p.dstIp}, none, none);
    var g3 := RecordMacOf(g2, group, p.srcIp, p.srcMac, now);
    var to3 := RecordMacOfLineage(g2, group, p.srcIp, p.srcMac, now);
    RecordMacOfKeepsWellFormed(g2, group, p.srcIp, p.srcMac, now);
    StaysMarked(g2, g3, to3, p.dstIp, "");
    FollowedThen(g, g2, g3, Composed(to1, to2), to3, {p.srcIp} + {p.dstIp}, {}, none + none,
      Noted(p.srcIp, p.srcMac));
    var g4 := RecordMacOf(g3, group, p.dstIp, p.dstMac, now);
    var to4 := RecordMacOfLineage(g3, group, p.dstIp, p.dstMac, now);
    StaysMarked(g3, g4, to4, p.srcIp, p.srcMac);
    to := Composed(Composed(Composed(to1, to2), to3), to4);
    FollowedThen(g, g3, g4, Composed(Composed(to1, to2), to3), to4, {p.srcIp} + {p.dstIp} + {}, {},
      none + none + Noted(p.srcIp, p.srcMac), Noted(p.dstIp, p.dstMac));
    var h := Ingested(g, group, p, srcHost, dstHost, now);
    assert {p.srcIp} + {p.dstIp} + {} + {} == {p.srcIp, p.dstIp};
    assert none + none + Noted(p.srcIp, p.srcMac) == Noted(p.srcIp, p.srcMac);
    SameListsLineage(g, g4, g, h, to, {p.srcIp, p.dstIp}, Noted(p.srcIp, p.srcMac) + Noted(p.dstIp, p.dstMac));
  }

  /** Node `j` was one before, or an end of the packet leads to it; what it lists was listed by what it was, or is its
      own end's. */
  ghost predicate Came(g: GraphState, h: GraphState, to: map<string, string>, p: Packet, j: string)
    requires j in h.nodes && p.srcIp in h.ipTo && p.dstIp in h.ipTo
  {
    && (Was(to, j) || j == h.ipTo[p.srcIp] || j == h.ipTo[p.dstIp])
    && (forall mac :: mac in h.nodes[j].macs ==>
          || HadMac(g, to, j, mac)
          || (mac == p.srcMac && IsHostMac(mac) && j == h.ipTo[p.srcIp])
          || (mac == p.dstMac && IsHostMac(mac) && j == h.ipTo[p.dstIp]))
    && (forall ip :: ip in h.nodes[j].ips ==>
          || HadIp(g, to, j, ip)
          || (ip == p.srcIp && j == h.ipTo[p.srcIp])
          || (ip == p.dstIp && j == h.ipTo[p.dstIp]))
  }

  lemma NodeCame(g: GraphState, h: GraphState, to: map<string, string>, p: Packet, j: string)
    requires j in h.nodes && p.srcIp in h.ipTo && p.dstIp in h.ipTo
    requires GainsAt(g, h, to, {p.srcIp, p.dstIp}, Noted(p.srcIp, p.srcMac) + Noted(p.dstIp, p.dstMac), j)
    ensures Came(g, h, to, p, j)
  {
    hide IsHostMac, HadMac, HadIp, Was;
    var seen := Noted(p.srcIp, p.srcMac) + Noted(p.dstIp, p.dstMac);
    forall mac | mac in h.nodes[j].macs && !HadMac(g, to, j, mac)
      ensures (mac == p.srcMac && IsHostMac(mac) && j == h.ipTo[p.srcIp])
        || (mac == p.dstMac && IsHostMac(mac) && j == h.ipTo[p.dstIp])
    {
      assert Seen(h, seen, j, mac);
      var ip :| (ip, mac) in seen && ip in h.ipTo && h.ipTo[ip] == j;
    }
  }

  /** The node each address leads to lists that end's MAC, if it is a host's; and every node of `h` is accounted for. */
  ghost predicate Traces(g: GraphState, h: GraphState, p: Packet) {
    && p.srcIp in h.ipTo && h.ipTo[p.srcIp] in h.nodes && p.dstIp in h.ipTo && h.ipTo[p.dstIp] in h.nodes
    && (IsHostMac(p.srcMac) ==> p.srcMac in h.nodes[h.ipTo[p.srcIp]].macs)
    && (IsHostMac(p.dstMac) ==> p.dstMac in h.nodes[h.ipTo[p.dstIp]].macs)
    && exists to :: Descends(g, h, to) && forall j :: j in h.nodes ==> Came(g, h, to, p, j)
  }

  /** After any packet: the node each address leads to lists that end's MAC, if it is a host's; no node's lists lost
      anything; and no node gained a MAC but what it merged in and the one its own end of the packet showed, nor an
      address but what it merged in and its own end's. */
  lemma IngestLineage(g: GraphState, group: Labeller, p: Packet, srcHost: string, dstHost: string, now: int)
    returns (to: map<string, string>)
    requires WellFormed(g) && PacketOk(group, p, srcHost, dstHost)
    ensures var h := Ingested(g, group, p, srcHost, dstHost, now);
      && p.srcIp in h.ipTo && h.ipTo[p.srcIp] in h.nodes && p.dstIp in h.ipTo && h.ipTo[p.dstIp] in h.nodes
      && (IsHostMac(p.srcMac) ==> p.srcMac in h.nodes[h.ipTo[p.srcIp]].macs)
      && (IsHostMac(p.dstMac) ==> p.dstMac in h.nodes[h.ipTo[p.dstIp]].macs)
      && Descends(g, h, to)
      && forall j :: j in h.nodes ==> Came(g, h, to, p, j)
  {
    to := IngestFollowed(g, group, p, srcHost, dstHost, now);
    hide WellFormed, PacketOk, Ingested, IsHostMac, Descends, GainsAt, Came, Noted;
    var h := Ingested(g, group, p, srcHost, dstHost, now);
    forall j | j in h.nodes ensures Came(g, h, to, p, j) { NodeCame(g, h, to, p, j); }
  }

  /** A host's MAC: 17 characters or more, its first byte hexadecimal with the lowest bit clear, not all zeros. */
  lemma HostMacExactly(mac: string)
    ensures IsHostMac(mac) <==>
      && |mac| >= 17 && mac != "00:00:00:00:00:00"
      && ('0' <= mac[0] <= '9' || 'a' <= mac[0] <= 'f' || 'A' <= mac[0] <= 'F')
      && mac[1] in {'0', '2', '4', '6', '8', 'a', 'c', 'e', 'A', 'C', 'E'}
  {
    if |mac| >= 17 {
      EvenDigit(mac[1]);
      hide HexValue;
    }
  }

  lemma EvenDigit(c: char)
    ensures IsHexDigit(c) && HexValue(c) % 2 == 0 <==> c in {'0', '2', '4', '6', '8', 'a', 'c', 'e', 'A', 'C', 'E'}
  {
  }
}
