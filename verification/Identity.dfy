/** What merging, counting, recording a MAC and dropping do to each record (graph/graph.go mergeNodeInto,
    addOrUpdateNodeLocked, recordMACLocked, RemoveStaleNodes). */
module Identity {
  import opened Ids
  import opened GraphState
  import opened GraphInvariants
  import opened Lineage

  // ---- merging ----

  /** The surviving record takes over the counters and keeps the rest of its own; where there was none, the old one
      moves, under the new name. */
  lemma MergedRecord(g: GraphState, newId: string, oldId: string, hostname: string)
    requires WellFormed(g) && IsId(newId) && IsId(oldId) && newId != oldId
    ensures var h := Merge(g, newId, oldId, hostname);
      && oldId !in h.nodes
      && (forall k :: k != newId && k != oldId ==> (k in h.nodes <==> k in g.nodes))
      && (forall k :: k != newId && k in h.nodes ==> h.nodes[k] == g.nodes[k])
      && (newId in h.nodes <==> newId in g.nodes || oldId in g.nodes)
      && (newId in g.nodes && oldId !in g.nodes ==> h.nodes[newId] == g.nodes[newId])
      && (newId in g.nodes && oldId in g.nodes ==>
            var n, gone, one := g.nodes[newId], g.nodes[oldId], h.nodes[newId];
            && one.packets == n.packets + gone.packets && one.bytes == n.bytes + gone.bytes
            && one.id == newId && one.hostname == n.hostname && one.lastSeen == n.lastSeen && one.isGroup == n.isGroup)
      && (newId !in g.nodes && oldId in g.nodes ==>
            var gone, one := g.nodes[oldId], h.nodes[newId];
            && one.packets == gone.packets && one.bytes == gone.bytes && one.ips == gone.ips && one.macs == gone.macs
            && one.id == newId && one.hostname == hostname && one.lastSeen == gone.lastSeen
            && one.isGroup == gone.isGroup)
      && h.ipTo.Keys == g.ipTo.Keys && h.macTo.Keys == g.macTo.Keys
      && (forall ip :: ip in g.ipTo ==> h.ipTo[ip] == if g.ipTo[ip] == oldId then newId else g.ipTo[ip])
      && (forall mac :: mac in g.macTo ==> h.macTo[mac] == if g.macTo[mac] == oldId then newId else g.macTo[mac])
      && h.hostTo == g.hostTo && h.sharedMacs == g.sharedMacs
  {
    hide EdgesOk, IpsOk, HostsOk, AnchorsOk, IsId, MergeEdges, Missing;
  }

  /** An edge found under the key of two identifiers joins these two. */
  ghost predicate Joins(e: EdgeState, a: string, b: string) { (e.from == a && e.to == b) || (e.from == b && e.to == a) }

  lemma EdgeJoins(edges: map<string, EdgeState>, a: string, b: string)
    requires EdgesOk(edges) && IsId(a) && IsId(b) && EdgeId(a, b) in edges
    ensures Joins(edges[EdgeId(a, b)], a, b)
  {
    var e := edges[EdgeId(a, b)];
    assert EdgeOk(EdgeId(a, b), e);
    EdgeIdIsInjective(e.from, e.to, a, b);
  }

  lemma MovesTo(edges: map<string, EdgeState>, i: string, newId: string, oldId: string, b: string)
    requires EdgesOk(edges) && IsId(newId) && IsId(oldId) && IsId(b) && newId != oldId && b != newId && b != oldId
    requires i in edges
    ensures i == EdgeId(oldId, b) <==>
      Moves(edges[i], newId, oldId) && NewKey(edges[i], newId, oldId) == EdgeId(newId, b)
  {
    var e := edges[i];
    assert EdgeOk(i, e);
    CanonicalOrder(newId, b);
    CanonicalOrder(oldId, b);
    hide EdgesOk, EdgeId;
    if i == EdgeId(oldId, b) {
      EdgeJoins(edges, oldId, b);
    }
    if Moves(e, newId, oldId) && NewKey(e, newId, oldId) == EdgeId(newId, b) {
      EdgeIdIsInjective(NewFrom(e, newId, oldId), NewTo(e, newId, oldId), newId, b);
      assert Joins(e, oldId, b);
      CanonicalOrder(e.from, e.to);
    }
  }

  lemma MovedInto(edges: map<string, EdgeState>, newId: string, oldId: string, b: string)
    requires EdgesOk(edges) && IsId(newId) && IsId(oldId) && IsId(b) && newId != oldId && b != newId && b != oldId
    ensures var moved, gone, kept := Moved(edges, edges.Keys, newId, oldId), EdgeId(oldId, b), EdgeId(newId, b);
      && (kept in moved <==> gone in edges)
      && (kept in moved ==> moved[kept] == Rekeyed(edges[gone], newId, oldId))
      && (kept in Staying(edges, oldId) <==> kept in edges)
  {
    var moved, gone, kept := Moved(edges, edges.Keys, newId, oldId), EdgeId(oldId, b), EdgeId(newId, b);
    hide EdgesOk, IsId, EdgeId, Moved, Moves, Rekeyed, NewKey;
    if gone in edges {
      MovesTo(edges, gone, newId, oldId, b);
      MovedAt(edges, edges.Keys, newId, oldId, gone);
    }
    if kept in moved {
      var i := MovedSource(edges, edges.Keys, newId, oldId, kept);
      MovesTo(edges, i, newId, oldId, b);
    }
    if kept in edges {
      EdgeJoins(edges, newId, b);
    }
  }

  /** The edge between the surviving node and another has the counters of both edges to it; its ends are these two. */
  lemma MergedEdge(edges: map<string, EdgeState>, newId: string, oldId: string, b: string)
    requires EdgesOk(edges) && IsId(newId) && IsId(oldId) && IsId(b) && newId != oldId && b != newId && b != oldId
    ensures var gone, kept, merged := EdgeId(oldId, b), EdgeId(newId, b), MergeEdges(edges, newId, oldId);
      && (kept in merged <==> gone in edges || kept in edges)
      && (kept in merged ==>
            var u := if gone in edges then edges[gone].volume else NOTHING;
            var v := if kept in edges then edges[kept].volume else NOTHING;
            var one := merged[kept];
            && one.volume.packets == u.packets + v.packets && one.volume.bytes == u.bytes + v.bytes
            && one.volume.forwardPackets == u.forwardPackets + v.forwardPackets
            && one.volume.reversePackets == u.reversePackets + v.reversePackets
            && one.volume.forwardBytes == u.forwardBytes + v.forwardBytes
            && one.volume.reverseBytes == u.reverseBytes + v.reverseBytes
            && ((one.from == newId && one.to == b) || (one.from == b && one.to == newId))
            && one.protocol == (if kept in edges then edges[kept].protocol else edges[gone].protocol)
            && (gone in edges ==> one.lastSeen >= edges[gone].lastSeen)
            && (kept in edges ==> one.lastSeen >= edges[kept].lastSeen)
            && ((gone in edges && one.lastSeen == edges[gone].lastSeen)
                || (kept in edges && one.lastSeen == edges[kept].lastSeen)))
  {
    MergeKeepsEdgesOk(edges, newId, oldId);
    MovedInto(edges, newId, oldId, b);
    var merged := MergeEdges(edges, newId, oldId);
    if EdgeId(newId, b) in merged { EdgeJoins(merged, newId, b); }
    hide EdgesOk, IsId, EdgeId, Moved, Staying, NewKey;
  }

  /** Every other edge is left alone, and none is left at the node merged away. */
  lemma OtherEdges(edges: map<string, EdgeState>, newId: string, oldId: string, a: string, b: string)
    requires EdgesOk(edges) && IsId(newId) && IsId(oldId) && IsId(a) && IsId(b) && newId != oldId
    ensures var id, merged := EdgeId(a, b), MergeEdges(edges, newId, oldId);
      && (a == oldId || b == oldId ==> id !in merged)
      && (a != oldId && b != oldId && (a == b || (a != newId && b != newId)) ==>
            (id in merged <==> id in edges) && (id in edges ==> merged[id] == edges[id]))
  {
    var id, merged := EdgeId(a, b), MergeEdges(edges, newId, oldId);
    MergeKeepsEdgesOk(edges, newId, oldId);
    if id in merged { EdgeJoins(merged, a, b); }
    if id in edges { EdgeJoins(edges, a, b); }
    hide EdgesOk, IsId, EdgeId, Moved;
    if id in Moved(edges, edges.Keys, newId, oldId) {
      MovedEnds(edges, newId, oldId, a, b);
    }
  }

  /** An edge that moved joins the surviving node to another. */
  lemma MovedEnds(edges: map<string, EdgeState>, newId: string, oldId: string, a: string, b: string)
    requires EdgesOk(edges) && IsId(newId) && IsId(oldId) && IsId(a) && IsId(b) && newId != oldId
    requires EdgeId(a, b) in Moved(edges, edges.Keys, newId, oldId)
    ensures a != b && (a == newId || b == newId)
  {
    var i := MovedSource(edges, edges.Keys, newId, oldId, EdgeId(a, b));
    assert EdgeOk(i, edges[i]);
    hide EdgesOk, EdgeId, Moved;
    EdgeIdIsInjective(NewFrom(edges[i], newId, oldId), NewTo(edges[i], newId, oldId), a, b);
  }

  // ---- counting a packet on a node ----

  /** The node, other than `id`, that holds what `ip` had so far. */
  function Elsewhere(g: GraphState, ip: string, id: string): set<string> {
    if ip in g.ipTo && g.ipTo[ip] != id && g.ipTo[ip] in g.nodes then {g.ipTo[ip]} else {}
  }

  function PacketsAt(nodes: map<string, NodeState>, k: string): int { if k in nodes then nodes[k].packets else 0 }

  function BytesAt(nodes: map<string, NodeState>, k: string): int { if k in nodes then nodes[k].bytes else 0 }

  /** What `ip` had on another node is on `id` now, with so much more, and no other node changed. */
  ghost predicate Gathers(g: GraphState, nodes: map<string, NodeState>, ip: string, id: string, packets: int,
                          bytes: int) {
    && (forall k :: k in nodes && k != id ==> k in g.nodes && nodes[k] == g.nodes[k])
    && (forall k :: k in g.nodes ==> (k in nodes <==> k !in Elsewhere(g, ip, id)))
    && PacketsAt(nodes, id) == PacketsAt(g.nodes, id) + packets
         + (if Elsewhere(g, ip, id) == {} then 0 else PacketsAt(g.nodes, g.ipTo[ip]))
    && BytesAt(nodes, id) == BytesAt(g.nodes, id) + bytes
         + (if Elsewhere(g, ip, id) == {} then 0 else BytesAt(g.nodes, g.ipTo[ip]))
  }

  lemma SettledGathers(g: GraphState, ip: string, host: string)
    requires WellFormed(g) && IsId(ip) && (host != "" ==> IsId(host))
    ensures Gathers(g, Settle(g, ip, host).nodes, ip, NodeFor(g, ip, host), 0, 0)
  {
    SettledNodes(g, ip, host);
    hide WellFormed, IsId, MergeNodes, Settle, NodeFor;
    var id := NodeFor(g, ip, host);
    if ip in g.ipTo && g.ipTo[ip] != id {
      MergedGathers(g, ip, id, host);
    }
  }

  lemma SettledNodes(g: GraphState, ip: string, host: string)
    requires WellFormed(g) && IsId(ip) && (host != "" ==> IsId(host))
    ensures var id := NodeFor(g, ip, host);
      Settle(g, ip, host).nodes ==
        if ip in g.ipTo && g.ipTo[ip] != id then MergeNodes(g.nodes, id, g.ipTo[ip], host) else g.nodes
  {
    hide EdgesOk, NodesOk, AnchorsOk, HostsOk, MergeEdges, MergeNodes, Repointed, Plain, NodeFor, UsesHost;
  }

  lemma MergedGathers(g: GraphState, ip: string, id: string, host: string)
    requires ip in g.ipTo && g.ipTo[ip] != id
    ensures Gathers(g, MergeNodes(g.nodes, id, g.ipTo[ip], host), ip, id, 0, 0)
  {
    hide Missing;
  }

  lemma SettledNames(g: GraphState, ip: string, host: string)
    requires WellFormed(g) && IsId(ip) && (host != "" ==> IsId(host))
    ensures var h, id := Settle(g, ip, host), NodeFor(g, ip, host);
      && h.ipTo.Keys == g.ipTo.Keys
      && h.hostTo == (if host != "" && host != ip then g.hostTo[host := id] else g.hostTo)
  {
    hide EdgesOk, NodesOk, AnchorsOk, MergeEdges, MergeNodes, Plain;
    NodeForIsId(g, ip, host);
    assert host in g.hostTo ==> g.hostTo == g.hostTo[host := g.hostTo[host]];
  }

  lemma CountedGathers(g: GraphState, h: GraphState, id: string, ip: string, host: string, isGroup: bool, length: int,
                       now: int)
    requires Gathers(g, h.nodes, ip, id, 0, 0)
    ensures Gathers(g, CountNode(h, id, ip, host, isGroup, length, now).nodes, ip, id, 1, length)
  {
    assert id !in Elsewhere(g, ip, id);
    hide Elsewhere;
  }

  /** The packet counts on the node its host name leads to, or on its own address's where it has no name; what the
      address had under another node moves there first. */
  lemma CountedNode(g: GraphState, group: Labeller, ip: string, hostname: string, length: int, now: int)
    requires WellFormed(g) && IsId(ip)
      && (EffectiveHost(group, ip, hostname) != "" ==> IsId(EffectiveHost(group, ip, hostname)))
    ensures var h := AddNode(g, group, ip, hostname, length, now);
      var host := if group(ip).Some? then group(ip).value else hostname;
      var named := host != "" && host != ip;
      var id := if !named then ip else if host in g.hostTo then g.hostTo[host] else host;
      && h.ipTo.Keys == g.ipTo.Keys + {ip} && h.ipTo[ip] == id
      && h.hostTo == (if named then g.hostTo[host := id] else g.hostTo)
      && Gathers(g, h.nodes, ip, id, 1, length)
      && id in h.nodes && h.nodes[id].lastSeen == now && (group(ip).Some? ==> h.nodes[id].isGroup)
  {
    var host := EffectiveHost(group, ip, hostname);
    SettledGathers(g, ip, host);
    SettledNames(g, ip, host);
    CountedGathers(g, Settle(g, ip, host), NodeFor(g, ip, host), ip, host, group(ip).Some?, length, now);
    hide WellFormed, IsId, Settle, Gathers;
  }

  // ---- promotion and demotion ----

  /** The first address of the list that is not a group's, or "" if there is none. */
  ghost predicate FirstAddress(group: Labeller, ips: seq<string>, ip: string) {
    || (ip == "" && forall i :: 0 <= i < |ips| ==> group(ips[i]).Some?)
    || exists i :: 0 <= i < |ips| && ips[i] == ip && group(ip).None? && forall j :: 0 <= j < i ==> group(ips[j]).Some?
  }

  lemma {:induction false} FirstHostIsFirst(group: Labeller, ips: seq<string>)
    ensures FirstAddress(group, ips, FirstHost(group, ips))
  {
    if ips != [] && group(ips[0]).Some? {
      FirstHostIsFirst(group, ips[1..]);
      var ip := FirstHost(group, ips[1..]);
      var rest := ips[1..];
      if i :| 0 <= i < |rest| && rest[i] == ip && group(ip).None? && forall j :: 0 <= j < i ==> group(rest[j]).Some? {
        assert ips[i + 1] == ip;
        forall j | 0 <= j < i + 1 ensures group(ips[j]).Some? {
          if j > 0 { assert ips[j] == rest[j - 1]; }
        }
      } else {
        forall i | 0 <= i < |ips| ensures group(ips[i]).Some? {
          if i > 0 { assert ips[i] == rest[i - 1]; }
        }
      }
    } else if ips != [] {
      assert ips[0] == FirstHost(group, ips);
    }
  }

  /** A node promoted from `nodeId` is called `host`: its own name, if it has one, else its first address that is not a
      group's, else its identifier. */
  ghost predicate Called(group: Labeller, n: NodeState, nodeId: string, host: string) {
    if n.hostname != "" && n.hostname != nodeId then host == n.hostname
    else exists ip :: FirstAddress(group, n.ips, ip) && host == if ip != "" then ip else nodeId
  }

  lemma PromotedIsCalled(group: Labeller, n: NodeState, nodeId: string)
    ensures Called(group, n, nodeId, PromotedName(group, n, nodeId))
  {
    FirstHostIsFirst(group, n.ips);
    hide FirstAddress, FirstHost;
  }

  /** A promoted node goes by the MAC: its counters, its anchor and its name lead there; a name that was only its
      identifier is forgotten. */
  lemma PromotedRecord(g: GraphState, group: Labeller, nodeId: string, mac: string) returns (host: string)
    requires WellFormed(g) && IsId(nodeId) && IsId(mac) && nodeId in g.nodes && nodeId != mac
    requires mac !in g.sharedMacs && IsHostMac(mac) && !g.nodes[nodeId].isGroup && !IsHostMac(nodeId)
    ensures Called(group, g.nodes[nodeId], nodeId, host)
    ensures var h := Promote(g, group, nodeId, mac);
      && nodeId !in h.nodes && mac in h.nodes && h.nodes[mac].id == mac && mac in h.macTo && h.macTo[mac] == mac
      && PacketsAt(h.nodes, mac) == PacketsAt(g.nodes, mac) + PacketsAt(g.nodes, nodeId)
      && BytesAt(h.nodes, mac) == BytesAt(g.nodes, mac) + BytesAt(g.nodes, nodeId)
      && h.nodes[mac].hostname == (if mac in g.nodes && g.nodes[mac].hostname != "" && g.nodes[mac].hostname != mac
                                   then g.nodes[mac].hostname else host)
    ensures var h := Promote(g, group, nodeId, mac);
      && (host != "" && host != mac ==> host in h.hostTo && h.hostTo[host] == mac)
      && (nodeId != host ==> (nodeId in h.hostTo <==> nodeId in g.hostTo && g.hostTo[nodeId] != nodeId))
      && (forall k :: k != host && k != nodeId ==>
            (k in h.hostTo <==> k in g.hostTo) && (k in g.hostTo ==> h.hostTo[k] == g.hostTo[k]))
  {
    host := PromotedName(group, g.nodes[nodeId], nodeId);
    PromotedIsCalled(group, g.nodes[nodeId], nodeId);
    PromotedParts(g, group, nodeId, mac, host);
    RenamedRecord(g.nodes, mac, nodeId, host);
    PromotedNames(g.hostTo, nodeId, host, mac);
    hide *;
  }

  lemma PromotedParts(g: GraphState, group: Labeller, nodeId: string, mac: string, host: string)
    requires WellFormed(g) && IsId(nodeId) && IsId(mac) && Promotable(g, nodeId, mac)
    requires host == PromotedName(group, g.nodes[nodeId], nodeId)
    ensures var h := Promote(g, group, nodeId, mac);
      && h.nodes == NamedAfter(MergeNodes(g.nodes, mac, nodeId, host), mac, mac, host)
      && h.hostTo == Named(Unnamed(g.hostTo, nodeId), host, mac) && mac in h.macTo && h.macTo[mac] == mac
  {
    hide EdgesOk, NodesOk, IpsOk, HostsOk, AnchorsOk, MergeEdges, MergeNodes, NamedAfter, PromotedName, Named, Unnamed,
         IsHostMac, Plain, Repointed;
  }

  lemma RenamedRecord(nodes: map<string, NodeState>, newId: string, oldId: string, host: string)
    requires oldId in nodes && newId != oldId
    ensures var h := NamedAfter(MergeNodes(nodes, newId, oldId, host), newId, newId, host);
      && oldId !in h && newId in h && h[newId].id == newId
      && PacketsAt(h, newId) == PacketsAt(nodes, newId) + PacketsAt(nodes, oldId)
      && BytesAt(h, newId) == BytesAt(nodes, newId) + BytesAt(nodes, oldId)
      && h[newId].hostname == (if newId in nodes && nodes[newId].hostname != "" && nodes[newId].hostname != newId
                               then nodes[newId].hostname else host)
  {
    hide Missing;
  }

  lemma PromotedNames(hostTo: map<string, string>, nodeId: string, host: string, mac: string)
    ensures var h := Named(Unnamed(hostTo, nodeId), host, mac);
      && (host != "" && host != mac ==> host in h && h[host] == mac)
      && (nodeId != host ==> (nodeId in h <==> nodeId in hostTo && hostTo[nodeId] != nodeId))
      && (forall k :: k != host && k != nodeId ==> (k in h <==> k in hostTo) && (k in hostTo ==> h[k] == hostTo[k]))
  {
  }

  /** A node demoted from its MAC goes by the first of its addresses that is not a group's. */
  lemma DemotedRecord(g: GraphState, group: Labeller, mac: string) returns (ip: string)
    requires WellFormed(g) && IsId(mac) && mac in g.nodes
    ensures FirstAddress(group, g.nodes[mac].ips, ip)
    ensures var h := Demote(g, group, mac);
      if ip == "" || ip == mac then h == g
      else
        && mac !in h.nodes && ip in h.nodes && h.nodes[ip].id == ip
        && PacketsAt(h.nodes, ip) == PacketsAt(g.nodes, ip) + PacketsAt(g.nodes, mac)
        && BytesAt(h.nodes, ip) == BytesAt(g.nodes, ip) + BytesAt(g.nodes, mac)
        && (ip !in g.nodes && g.nodes[mac].hostname != "" && g.nodes[mac].hostname != mac ==>
              h.nodes[ip].hostname == g.nodes[mac].hostname)
        && (ip !in g.nodes && (g.nodes[mac].hostname == "" || g.nodes[mac].hostname == mac) ==>
              h.nodes[ip].hostname == ip)
        && h.hostTo == g.hostTo
  {
    ip := FirstHost(group, g.nodes[mac].ips);
    FirstHostIsFirst(group, g.nodes[mac].ips);
    FirstHostIsListed(group, g.nodes[mac].ips);
    hide EdgesOk, HostsOk, AnchorsOk, MergeEdges, Missing, FirstAddress, Plain, FirstHost, Repointed;
  }

  // ---- removal ----

  /** Removing a node forgets it, the addresses it lists, its name and the anchors of its MACs, and nothing else. */
  lemma DroppedNode(g: GraphState, id: string)
    requires id in g.nodes
    ensures var n, h := g.nodes[id], DropNode(g, id);
      && id !in h.nodes && (forall k :: k != id ==> (k in h.nodes <==> k in g.nodes))
      && (forall k :: k in h.nodes ==> h.nodes[k] == g.nodes[k])
      && h.edges == g.edges && h.sharedMacs == g.sharedMacs
      && (forall ip :: ip in h.ipTo <==> ip in g.ipTo && ip !in n.ips)
      && (forall ip :: ip in h.ipTo ==> h.ipTo[ip] == g.ipTo[ip])
      && (forall name :: name in h.hostTo <==>
            name in g.hostTo && name != id && (name == "" || name != n.hostname))
      && (forall name :: name in h.hostTo ==> h.hostTo[name] == g.hostTo[name])
      && (forall mac :: mac in h.macTo <==> mac in g.macTo && (mac !in n.macs || g.macTo[mac] != id))
      && (forall mac :: mac in h.macTo ==> h.macTo[mac] == g.macTo[mac])
  {
  }

  /** Removal strands an address, leading to no node, exactly if the node did not list all that led to it: an address
      counted on a node by its host name is not listed there. */
  lemma DropStrandsExactly(g: GraphState, id: string)
    requires id in g.nodes && IpsLive(g)
    ensures IpsLive(DropNode(g, id)) <==> forall ip :: ip in g.ipTo && g.ipTo[ip] == id ==> ip in g.nodes[id].ips
  {
    var h := DropNode(g, id);
    if IpsLive(h) {
      forall ip | ip in g.ipTo && g.ipTo[ip] == id ensures ip in g.nodes[id].ips {
        assert ip !in h.ipTo;
      }
    }
  }
}
