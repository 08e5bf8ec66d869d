/** graph.Manager: node and edge objects updated in place under one lock (graph/graph.go). */
module GraphManager {
  import opened Ids
  import opened GraphState
  import opened Adjacency
  import opened Lineage

  /** Appends the entries of `extra` that `base` does not hold. */
  method AppendMissing(base: seq<string>, extra: seq<string>) returns (r: seq<string>)
    ensures r == base + Missing(base, extra)
  {
    r := base;
    var existing := set x | x in base;
    for i := 0 to |extra|
      invariant r == base + Missing(base, extra[..i])
    {
      assert extra[..i + 1][..i] == extra[..i];
      if extra[i] !in existing {
        r := r + [extra[i]];
      }
    }
    assert extra[..|extra|] == extra;
  }

  /** A *Node: the struct behind it is changed in place, through every pointer to it. */
  class Node {
    var it: NodeState

    constructor (it: NodeState)
      ensures this.it == it
    {
      this.it := it;
    }

    /** Takes over another node's counters and addresses. */
    method TakeOver(gone: Node)
      modifies this
      ensures it == Absorb(old(it), old(gone.it))
    {
      var ips := AppendMissing(it.ips, gone.it.ips);
      var macs := AppendMissing(it.macs, gone.it.macs);
      it := it.(packets := it.packets + gone.it.packets, bytes := it.bytes + gone.it.bytes, ips := ips, macs := macs);
    }
  }

  /** An *Edge. */
  class Edge {
    var it: EdgeState

    constructor (it: EdgeState)
      ensures this.it == it
    {
      this.it := it;
    }

    /** Adds another edge's counters; the later sighting counts. */
    method TakeOver(that: Edge)
      modifies this
      ensures it == Combined(old(it), old(that.it))
    {
      it := it.(volume := it.volume.Plus(that.it.volume),
                lastSeen := if that.it.lastSeen > it.lastSeen then that.it.lastSeen else it.lastSeen);
    }
  }

  class Manager {
    const group: Labeller
    var nodes: map<string, Node>
    var edges: map<string, Edge>
    var edgesByNode: map<string, set<string>>
    var ipToNodeID: map<string, string>
    var hostnameToNodeID: map<string, string>
    var macToNodeID: map<string, string>
    var macShared: set<string>

    ghost function NodeStates(): map<string, NodeState>
      reads this`nodes, nodes.Values
    {
      map k | k in nodes :: nodes[k].it
    }

    ghost function EdgeStates(): map<string, EdgeState>
      reads this`edges, edges.Values
    {
      map k | k in edges :: edges[k].it
    }

    ghost function State(): GraphState
      reads this, nodes.Values, edges.Values
    {
      GraphState(NodeStates(), EdgeStates(), ipToNodeID, hostnameToNodeID, macToNodeID, macShared)
    }

    /** Every object is stored under the key it carries, so no object is stored twice. */
    ghost predicate NodesKeyed()
      reads this`nodes, nodes.Values
    {
      forall k {:trigger nodes[k]} :: k in nodes ==> nodes[k].it.id == k
    }

    ghost predicate EdgesKeyed()
      reads this`edges, edges.Values
    {
      forall k {:trigger edges[k]} :: k in edges ==> edges[k].it.id == k
    }

    ghost predicate Valid()
      reads this, nodes.Values, edges.Values
    {
      NodesKeyed() && EdgesKeyed() && WellFormed(State()) && Exact(edgesByNode, EdgeStates())
    }

    constructor (group: Labeller)
      ensures Valid() && fresh(nodes.Values) && fresh(edges.Values)
      ensures State() == EMPTY && this.group == group
    {
      this.group := group;
      nodes, edges, edgesByNode := map[], map[], map[];
      ipToNodeID, hostnameToNodeID, macToNodeID, macShared := map[], map[], map[], {};
    }

    method IndexEdge(e: Edge)
      modifies this`edgesByNode
      ensures edgesByNode == Listed(Listed(old(edgesByNode), e.it.from, e.it.id), e.it.to, e.it.id)
    {
      var ends := [e.it.from, e.it.to];
      for i := 0 to 2
        invariant i >= 1 ==> edgesByNode == (if i == 1 then Listed(old(edgesByNode), e.it.from, e.it.id)
                                             else Listed(Listed(old(edgesByNode), e.it.from, e.it.id), e.it.to,
                                               e.it.id))
        invariant i == 0 ==> edgesByNode == old(edgesByNode)
      {
        var keys := if ends[i] in edgesByNode then edgesByNode[ends[i]] else {};
        edgesByNode := edgesByNode[ends[i] := keys + {e.it.id}];
      }
    }

    method UnindexEdge(e: Edge)
      modifies this`edgesByNode
      ensures edgesByNode == Unlisted(Unlisted(old(edgesByNode), e.it.from, e.it.id), e.it.to, e.it.id)
    {
      var ends := [e.it.from, e.it.to];
      for i := 0 to 2
        invariant i >= 1 ==> edgesByNode == (if i == 1 then Unlisted(old(edgesByNode), e.it.from, e.it.id)
                                             else Unlisted(Unlisted(old(edgesByNode), e.it.from, e.it.id), e.it.to,
                                               e.it.id))
        invariant i == 0 ==> edgesByNode == old(edgesByNode)
      {
        if ends[i] in edgesByNode {
          var keys := edgesByNode[ends[i]] - {e.it.id};
          if keys == {} {
            edgesByNode := edgesByNode - {ends[i]};
          } else {
            edgesByNode := edgesByNode[ends[i] := keys];
          }
        }
      }
    }

    // ---- mergeNodeInto ----

    method RepointLookups(newId: string, oldId: string)
      modifies this`ipToNodeID, this`macToNodeID
      ensures ipToNodeID == Repointed(old(ipToNodeID), newId, oldId)
      ensures macToNodeID == Repointed(old(macToNodeID), newId, oldId)
    {
      ipToNodeID := Repoint(ipToNodeID, newId, oldId);
      macToNodeID := Repoint(macToNodeID, newId, oldId);
    }

    /** The record moves to a new key. */
    method MoveNode(newId: string, oldId: string, hostname: string)
      requires NodesKeyed() && oldId in nodes && newId !in nodes
      modifies this`nodes, nodes.Values
      ensures NodesKeyed() && nodes.Values <= old(nodes.Values)
      ensures NodeStates() == MergeNodes(old(NodeStates()), newId, oldId, hostname)
    {
      var moved := nodes[oldId];
      nodes := nodes[newId := moved] - {oldId};
      moved.it := moved.it.(id := newId, hostname := hostname);
      assert forall k :: k in nodes && k != newId ==> nodes[k].it == old(nodes[k].it);
    }

    /** The record is folded into another one. */
    method FoldNode(newId: string, oldId: string, hostname: string)
      requires NodesKeyed() && oldId in nodes && newId in nodes && newId != oldId
      modifies this`nodes, nodes.Values
      ensures NodesKeyed() && nodes.Values <= old(nodes.Values)
      ensures NodeStates() == MergeNodes(old(NodeStates()), newId, oldId, hostname)
    {
      nodes[newId].TakeOver(nodes[oldId]);
      assert forall k :: k in nodes && k != newId ==> nodes[k].it == old(nodes[k].it);
      nodes := nodes - {oldId};
    }

    method MergeNodeRecords(newId: string, oldId: string, hostname: string)
      requires NodesKeyed() && newId != oldId
      modifies this`nodes, nodes.Values
      ensures NodesKeyed() && nodes.Values <= old(nodes.Values)
      ensures NodeStates() == MergeNodes(old(NodeStates()), newId, oldId, hostname)
    {
      if oldId in nodes {
        if newId !in nodes {
          MoveNode(newId, oldId, hostname);
        } else {
          FoldNode(newId, oldId, hostname);
        }
      }
    }

    /** Points every entry for `oldId` at `newId`. */
    static method Repoint(m: map<string, string>, newId: string, oldId: string) returns (r: map<string, string>)
      ensures r == Repointed(m, newId, oldId)
    {
      r := m;
      var todo := m.Keys;
      while todo != {}
        invariant todo <= m.Keys && r.Keys == m.Keys
        invariant forall k :: k in m ==> r[k] == if k in todo then m[k] else Renamed(m[k], newId, oldId)
      {
        var k :| k in todo;
        todo := todo - {k};
        if r[k] == oldId {
          r := r[k := newId];
        }
      }
    }

    /** No edge object is stored under two keys. */
    ghost predicate EdgesApart()
      reads this`edges
    {
      forall i, j {:trigger edges[i], edges[j]} :: i in edges && j in edges && edges[i] == edges[j] ==> i == j
    }

    /** The record under `key` is folded into the edge it lands on, or renamed, or left alone. */
    method VisitEdge(key: string, newId: string, oldId: string) returns (renamed: bool)
      requires EdgesApart() && key in edges && Touches(edges[key].it, oldId)
      requires NewKey(edges[key].it, newId, oldId) != key
      modifies edges.Values
      ensures EdgeStates() == Visit(old(EdgeStates()), newId, oldId, key)
      ensures renamed <==> Moves(old(edges[key].it), newId, oldId) && NewKey(old(edges[key].it), newId, oldId) !in edges
      ensures renamed ==> edges[key].it.id == NewKey(old(edges[key].it), newId, oldId)
    {
      hide EdgeId, CanonFrom, CanonTo, Combined;
      var edge := edges[key];
      var newFrom := if edge.it.from == oldId then newId else edge.it.from;
      var newTo := if edge.it.to == oldId then newId else edge.it.to;
      renamed := false;
      if newFrom != newTo {
        var newKey := EdgeId(newFrom, newTo);
        if newKey in edges {
          edges[newKey].TakeOver(edge);
          assert forall k :: k in edges && k != newKey ==> edges[k].it == old(edges[k].it);
        } else {
          edge.it := edge.it.(id := newKey, from := CanonFrom(newFrom, newTo), to := CanonTo(newFrom, newTo));
          renamed := true;
          assert forall k :: k in edges && k != key ==> edges[k].it == old(edges[k].it);
        }
      }
    }

    /** One iteration. A renamed edge never meets another that waits for the same key. */
    method RekeyOne(key: string, toAdd: map<string, Edge>, newId: string, oldId: string,
                    ghost before: map<string, EdgeState>, ghost done: set<string>)
      returns (toAdd': map<string, Edge>)
      requires EdgesOk(before) && IsId(newId) && IsId(oldId) && newId != oldId
      requires edges.Keys == before.Keys && EdgesApart() && Stage(before, done, newId, oldId, EdgeStates())
      requires Waiting(before, done, toAdd, edges, newId, oldId)
      requires Exact(edgesByNode, Remaining(before, done, oldId))
      requires key in edges && key !in done && Touches(before[key], oldId)
      modifies this`edgesByNode, edges.Values
      ensures Stage(before, done + {key}, newId, oldId, EdgeStates())
      ensures Waiting(before, done + {key}, toAdd', edges, newId, oldId)
      ensures Exact(edgesByNode, Remaining(before, done + {key}, oldId))
    {
      hide EdgesOk, IsId, Exact, Midway, Stage, Visit, Moved, NewKey, Rekeyed, Combined, Unlisted, Moves, Waiting;
      ghost var now := EdgeStates();
      VisitAdvances(before, done, newId, oldId, now, key);
      var edge := edges[key];
      assert edge.it == before[key];
      UnindexEdge(edge);
      assert EdgeStates() == now;
      NeverSameKey(before, key, newId, oldId);
      UnlistedTwiceIsExact(old(edgesByNode), Remaining(before, done, oldId), key);
      assert Remaining(before, done + {key}, oldId) == Remaining(before, done, oldId) - {key};
      WaitingAdvances(before, done, toAdd, edges, newId, oldId, key);
      var renamed := VisitEdge(key, newId, oldId);
      toAdd' := toAdd;
      if renamed {
        assert edge.it.id !in toAdd;
        toAdd' := toAdd[edge.it.id := edge];
      }
    }

    method StoreEdge(key: string, edge: Edge)
      requires Exact(edgesByNode, EdgeStates()) && edge.it.id == key && key !in edges
      modifies this`edges, this`edgesByNode
      ensures edges == old(edges)[key := edge]
      ensures Exact(edgesByNode, EdgeStates())
    {
      hide Exact;
      ghost var before := EdgeStates();
      ListedTwiceIsExact(edgesByNode, before, key, edge.it);
      edges := edges[key := edge];
      ghost var after := EdgeStates();
      assert after == before[key := edge.it];
      IndexEdge(edge);
      assert EdgeStates() == after;
    }

    /** Where the loop of mergeNodeInto stands when the edges in `todo` are still to be visited. */
    ghost predicate Visiting(before: map<string, EdgeState>, todo: set<string>, toDelete: set<string>,
                             toAdd: map<string, Edge>,
                             newId: string, oldId: string)
      requires EdgesOk(before) && IsId(newId) && IsId(oldId) && newId != oldId
      reads this`edges, this`edgesByNode, edges.Values
    {
      && edges.Keys == before.Keys && todo <= before.Keys
      && Stage(before, before.Keys - todo, newId, oldId, EdgeStates())
      && Waiting(before, before.Keys - todo, toAdd, edges, newId, oldId)
      && Exact(edgesByNode, Remaining(before, before.Keys - todo, oldId))
      && toDelete == set k | k in before && k !in todo && Touches(before[k], oldId)
    }

    /** The loop body of VisitEdges. */
    method RekeyNext(todo: set<string>, toAdd: map<string, Edge>, toDelete: set<string>, key: string,
                     newId: string, oldId: string, ghost before: map<string, EdgeState>)
      returns (todo': set<string>, toAdd': map<string, Edge>, toDelete': set<string>)
      requires EdgesOk(before) && IsId(newId) && IsId(oldId) && newId != oldId
      requires EdgesApart() && key in todo && Visiting(before, todo, toDelete, toAdd, newId, oldId)
      modifies this`edgesByNode, edges.Values
      ensures todo' == todo - {key} && Visiting(before, todo', toDelete', toAdd', newId, oldId)
    {
      hide EdgesOk, IsId, Exact, Stage, Moved, Waiting, NewKey, Remaining;
      ghost var done := before.Keys - todo;
      SkipAdvances(before, done, newId, oldId, EdgeStates(), key);
      todo', toAdd', toDelete' := todo - {key}, toAdd, toDelete;
      assert before.Keys - todo' == done + {key};
      if edges[key].it.from == oldId || edges[key].it.to == oldId {
        toAdd' := RekeyOne(key, toAdd, newId, oldId, before, done);
        toDelete' := toDelete + {key};
      } else {
        WaitingIgnoresOthers(before, done, toAdd, edges, newId, oldId, key);
      }
    }

    /** Deletes the edges listed, then stores and indexes those that wait for a new key. */
    method StoreEdges(toDelete: set<string>, toAdd: map<string, Edge>)
      requires Exact(edgesByNode, EdgeStates() - toDelete)
      requires forall k {:trigger toAdd[k]} :: k in toAdd ==> toAdd[k].it.id == k && (k in edges ==> k in toDelete)
      modifies this`edges, this`edgesByNode
      ensures edges == old(edges) - toDelete + toAdd
      ensures Exact(edgesByNode, EdgeStates())
    {
      hide Exact;
      ghost var states := EdgeStates();
      edges := edges - toDelete;
      assert EdgeStates() == states - toDelete;
      ghost var kept := edges;
      assert kept == kept + (toAdd - toAdd.Keys);
      var todo := toAdd.Keys;
      while todo != {}
        invariant todo <= toAdd.Keys
        invariant edges == kept + (toAdd - todo)
        invariant Exact(edgesByNode, EdgeStates())
      {
        var key :| key in todo;
        MoreStored(kept, toAdd, todo, key);
        StoreEdge(key, toAdd[key]);
        todo := todo - {key};
      }
      assert toAdd - {} == toAdd;
    }

    /** The loop over the edges: decides, in whatever order the map is walked, what happens to each. */
    method VisitEdges(newId: string, oldId: string) returns (toDelete: set<string>, toAdd: map<string, Edge>)
      requires EdgesKeyed() && EdgesOk(EdgeStates()) && IsId(newId) && IsId(oldId) && newId != oldId
      requires Exact(edgesByNode, EdgeStates())
      modifies this`edgesByNode, edges.Values
      ensures Stage(old(EdgeStates()), edges.Keys, newId, oldId, EdgeStates())
      ensures Waiting(old(EdgeStates()), edges.Keys, toAdd, edges, newId, oldId)
      ensures Exact(edgesByNode, Remaining(old(EdgeStates()), edges.Keys, oldId))
      ensures toDelete == set k | k in edges && Touches(old(EdgeStates())[k], oldId)
    {
      KeyedApart();
      ghost var before := EdgeStates();
      var todo := edges.Keys;
      toDelete, toAdd := {}, map[];
      NothingVisited(before, edges, newId, oldId);
      assert Visiting(before, todo, toDelete, toAdd, newId, oldId);
      while todo != {}
        invariant edges == old(edges) && EdgesApart()
        invariant Visiting(before, todo, toDelete, toAdd, newId, oldId)
        decreases todo
      {
        hide *;
        var key :| key in todo;
        todo, toAdd, toDelete := RekeyNext(todo, toAdd, toDelete, key, newId, oldId, before);
      }
      hide EdgesKeyed, EdgesApart, EdgesOk, IsId, Exact, Stage, Moved, Waiting, NewKey, Remaining;
      assert before.Keys - todo == edges.Keys;
    }

    lemma KeyedApart()
      requires EdgesKeyed()
      ensures EdgesApart()
    {
    }

    /** mergeNodeInto's second half: every edge of `oldId` becomes one of `newId`. */
    method RekeyEdges(newId: string, oldId: string)
      requires EdgesKeyed() && EdgesOk(EdgeStates()) && IsId(newId) && IsId(oldId) && newId != oldId
      requires Exact(edgesByNode, EdgeStates())
      modifies this`edges, this`edgesByNode, edges.Values
      ensures EdgesKeyed() && edges.Values <= old(edges.Values)
      ensures EdgeStates() == MergeEdges(old(EdgeStates()), newId, oldId)
      ensures Exact(edgesByNode, EdgeStates())
    {
      hide EdgesOk, IsId, Exact, Stage, Moved, Waiting, NewKey, Remaining, MergeEdges;
      ghost var before := EdgeStates();
      var toDelete, toAdd := VisitEdges(newId, oldId);
      ghost var now := EdgeStates();
      ReadyToStore(before, now, edgesByNode, toDelete, toAdd, edges, newId, oldId);
      StoreEdges(toDelete, toAdd);
      Stored(before, now, EdgeStates(), toDelete, toAdd, newId, oldId);
      StageKeepsKeys(before, now, newId, oldId);
    }

    method MergeRecords(newId: string, oldId: string, hostname: string)
      requires NodesKeyed() && EdgesKeyed() && Exact(edgesByNode, EdgeStates())
      requires EdgesOk(EdgeStates()) && IsId(newId) && IsId(oldId) && newId != oldId
      modifies this`nodes, this`edges, this`edgesByNode, nodes.Values, edges.Values
      ensures NodesKeyed() && EdgesKeyed() && Exact(edgesByNode, EdgeStates())
      ensures NodeStates() == MergeNodes(old(NodeStates()), newId, oldId, hostname)
      ensures EdgeStates() == MergeEdges(old(EdgeStates()), newId, oldId)
      ensures nodes.Values <= old(nodes.Values) && edges.Values <= old(edges.Values)
    {
      hide *;
      ghost var before := EdgeStates();
      MergeNodeRecords(newId, oldId, hostname);
      assert EdgeStates() == before;
      RekeyEdges(newId, oldId);
    }

    method MergeNodeInto(newId: string, oldId: string, hostname: string)
      requires Valid() && IsId(newId) && IsId(oldId) && newId != oldId
      modifies this, nodes.Values, edges.Values
      ensures Valid() && State() == Merge(old(State()), newId, oldId, hostname)
      ensures nodes.Values <= old(nodes.Values) && edges.Values <= old(edges.Values)
    {
      hide Valid, WellFormed, NodesKeyed, EdgesKeyed, NodeStates, EdgeStates, IsId, Exact, MergeNodes, MergeEdges,
           EdgesOk, Repointed;
      ValidParts();
      MergeKeepsWellFormed(State(), newId, oldId, hostname);
      MergeRecords(newId, oldId, hostname);
      RepointLookups(newId, oldId);
      ValidFromParts();
    }

    lemma ValidParts()
      requires Valid()
      ensures NodesKeyed() && EdgesKeyed() && Exact(edgesByNode, EdgeStates()) && EdgesOk(EdgeStates())
        && WellFormed(State())
    {
    }

    lemma ValidFromParts()
      requires NodesKeyed() && EdgesKeyed() && Exact(edgesByNode, EdgeStates()) && WellFormed(State())
      ensures Valid()
    {
    }

    // ---- addOrUpdateNodeLocked ----

    /** Gives the node under `id` a new content, in place if it exists. */
    method StoreNode(id: string, it: NodeState)
      requires NodesKeyed() && it.id == id
      modifies this`nodes, nodes.Values
      ensures NodesKeyed() && NodeStates() == old(NodeStates())[id := it]
      ensures fresh(nodes.Values - old(nodes.Values))
    {
      if id in nodes {
        nodes[id].it := it;
        assert forall k :: k in nodes && k != id ==> nodes[k].it == old(nodes[k].it);
      } else {
        var node := new Node(it);
        nodes := nodes[id := node];
      }
    }

    /** Counts a packet on the node under `id`, creating it if need be. The address has just been mapped to
        it, so a known node's list of addresses never grows here. */
    method CountPacket(id: string, ip: string, host: string, isGroup: bool, length: int, now: int)
      requires NodesKeyed() && ip in ipToNodeID && ipToNodeID[ip] == id
      modifies this`nodes, nodes.Values
      ensures NodesKeyed()
      ensures NodeStates() == old(NodeStates())[id := CountOn(old(NodeStates()), id, ip, host, isGroup, length, now)]
      ensures fresh(nodes.Values - old(nodes.Values))
    {
      if id !in nodes {
        StoreNode(id, NodeState(id, host, [ip], [], 1, length, now, isGroup));
      } else {
        var n := nodes[id].it;
        if ip !in ipToNodeID || ipToNodeID[ip] != id {
          n := n.(ips := n.ips + [ip]);
        }
        var named := if UsesHost(ip, host) && n.hostname == n.id then host else n.hostname;
        StoreNode(id, n.(packets := n.packets + 1, bytes := n.bytes + length, lastSeen := now,
                         hostname := named, isGroup := n.isGroup || isGroup));
      }
    }

    /** The hostname leads to a node from now on: the one it led to before, or one of its own name. */
    method NoteHost(host: string) returns (nodeID: string)
      requires Valid() && IsId(host)
      modifies this`hostnameToNodeID
      ensures Valid() && nodeID == Lookup(old(hostnameToNodeID), host) && IsId(nodeID)
      ensures State() == (if host in old(hostnameToNodeID) then old(State())
                          else old(State()).(hostTo := old(hostnameToNodeID)[host := host]))
    {
      hide NodesKeyed, EdgesKeyed, NodeStates, EdgeStates, IsId, Exact, EdgesOk, NodesOk, IpsOk, AnchorsOk;
      if host in hostnameToNodeID {
        nodeID := hostnameToNodeID[host];
      } else {
        nodeID := host;
        hostnameToNodeID := hostnameToNodeID[host := nodeID];
      }
    }

    /** Finds the node of `ip` and moves there what the address had elsewhere. */
    method SettleAddress(ip: string, host: string) returns (nodeID: string)
      requires Valid() && IsId(ip) && (host != "" ==> IsId(host))
      modifies this, nodes.Values, edges.Values
      ensures Valid() && State() == Settle(old(State()), ip, host) && nodeID == NodeFor(old(State()), ip, host)
      ensures nodes.Values <= old(nodes.Values) && edges.Values <= old(edges.Values)
    {
      hide Valid, NodesKeyed, EdgesKeyed, NodeStates, EdgeStates, IsId, Exact, EdgesOk, NodesOk, HostsOk, AnchorsOk,
           Merge;
      ValidParts();
      var existingNodeID := if ip in ipToNodeID then ipToNodeID[ip] else "";
      nodeID := ip;
      if host != "" && host != ip {
        nodeID := NoteHost(host);
      }
      if existingNodeID != "" && existingNodeID != nodeID {
        MergeNodeInto(nodeID, existingNodeID, host);
      }
    }

    method CountAddress(nodeID: string, ip: string, host: string, isGroup: bool, length: int, now: int)
      requires Valid() && WellFormed(CountNode(State(), nodeID, ip, host, isGroup, length, now))
      modifies this`ipToNodeID, this`nodes, nodes.Values
      ensures Valid() && State() == CountNode(old(State()), nodeID, ip, host, isGroup, length, now)
      ensures fresh(nodes.Values - old(nodes.Values))
    {
      hide Valid, WellFormed, NodesKeyed, EdgesKeyed, NodeStates, EdgeStates, Exact, CountOn, EdgesOk;
      ValidParts();
      ipToNodeID := ipToNodeID[ip := nodeID];
      CountPacket(nodeID, ip, host, isGroup, length, now);
      ValidFromParts();
    }

    method AddOrUpdateNode(ip: string, hostname: string, length: int, now: int)
      requires Valid() && IsId(ip) && (EffectiveHost(group, ip, hostname) != "" ==>
        IsId(EffectiveHost(group, ip, hostname)))
      modifies this, nodes.Values, edges.Values
      ensures Valid() && State() == AddNode(old(State()), group, ip, hostname, length, now)
      ensures fresh(nodes.Values - old(nodes.Values)) && fresh(edges.Values - old(edges.Values))
    {
      hide Valid, WellFormed, State, IsId, Settle, NodeFor, CountNode;
      ValidParts();
      AddNodeKeepsWellFormed(State(), group, ip, hostname, length, now);
      var host, isGroup := hostname, false;
      match group(ip) {
        case Some(name) => host, isGroup := name, true;
        case None =>
      }
      var nodeID := SettleAddress(ip, host);
      CountAddress(nodeID, ip, host, isGroup, length, now);
    }

    // ---- recordMACLocked, promoteNodeIDToMAC, demoteMACIdentity ----

    /** The first address that is not a group address, or "". */
    method FindHost(ips: seq<string>) returns (host: string)
      ensures host == FirstHost(group, ips)
    {
      host := "";
      var i := 0;
      while i < |ips| && group(ips[i]).Some?
        invariant i <= |ips| && FirstHost(group, ips) == FirstHost(group, ips[i..])
      {
        i := i + 1;
      }
      if i < |ips| {
        host := ips[i];
      }
    }

    method NameNode(id: string, mac: string, host: string)
      requires NodesKeyed()
      modifies this`nodes, nodes.Values
      ensures NodesKeyed() && NodeStates() == NamedAfter(old(NodeStates()), id, mac, host)
      ensures nodes == old(nodes)
    {
      if id in nodes {
        var node := nodes[id];
        node.it := node.it.(id := id, hostname := if node.it.hostname == "" || node.it.hostname == mac then host
          else node.it.hostname);
        assert forall k :: k in nodes && k != id ==> nodes[k].it == old(nodes[k].it);
      }
    }

    method ChooseName(nodeID: string) returns (hostname: string)
      requires nodeID in nodes
      ensures hostname == PromotedName(group, nodes[nodeID].it, nodeID)
    {
      hostname := nodes[nodeID].it.hostname;
      if hostname == "" || hostname == nodeID {
        var host := FindHost(nodes[nodeID].it.ips);
        if host != "" {
          hostname := host;
        }
        if hostname == "" {
          hostname := nodeID;
        }
      }
    }

    method AnchorName(nodeID: string, mac: string, hostname: string)
      modifies this`macToNodeID, this`hostnameToNodeID
      ensures macToNodeID == old(macToNodeID)[mac := mac]
      ensures hostnameToNodeID == Named(Unnamed(old(hostnameToNodeID), nodeID), hostname, mac)
    {
      macToNodeID := macToNodeID[mac := mac];
      if nodeID in hostnameToNodeID && hostnameToNodeID[nodeID] == nodeID {
        hostnameToNodeID := hostnameToNodeID - {nodeID};
      }
      if hostname != "" && hostname != mac {
        hostnameToNodeID := hostnameToNodeID[hostname := mac];
      }
    }

    method PromoteNodeIDToMAC(nodeID: string, mac: string)
      requires Valid() && IsId(nodeID) && IsId(mac)
      modifies this, nodes.Values, edges.Values
      ensures Valid() && State() == Promote(old(State()), group, nodeID, mac)
      ensures nodes.Values <= old(nodes.Values) && edges.Values <= old(edges.Values)
    {
      hide Valid, WellFormed, NodesKeyed, EdgesKeyed, NodeStates, EdgeStates, IsId, IsHostMac, Exact, EdgesOk,
           NamedAfter, Named, Unnamed, PromotedName, Merge;
      NodeAt(nodeID);
      if nodeID == "" || mac == "" || nodeID == mac || mac in macShared || !IsHostMac(mac) ||
         nodeID !in nodes || nodes[nodeID].it.isGroup || IsHostMac(nodeID) {
        return;
      }
      PromoteEligible(nodeID, mac);
    }

    method PromoteEligible(nodeID: string, mac: string)
      requires Valid() && IsId(nodeID) && IsId(mac) && Promotable(State(), nodeID, mac)
      modifies this, nodes.Values, edges.Values
      ensures Valid() && State() == Promote(old(State()), group, nodeID, mac)
      ensures nodes.Values <= old(nodes.Values) && edges.Values <= old(edges.Values)
    {
      hide Valid, WellFormed, NodesKeyed, EdgesKeyed, NodeStates, EdgeStates, IsId, Exact, EdgesOk, NamedAfter, Named,
           Unnamed, PromotedName, MergeNodes, MergeEdges, Repointed, IsHostMac;
      NodeAt(nodeID);
      var hostname := ChooseName(nodeID);
      PromoteAs(nodeID, mac, hostname);
    }

    method PromoteAs(nodeID: string, mac: string, hostname: string)
      requires Valid() && IsId(nodeID) && IsId(mac) && Promotable(State(), nodeID, mac)
      requires hostname == PromotedName(group, State().nodes[nodeID], nodeID)
      modifies this, nodes.Values, edges.Values
      ensures Valid() && State() == Promote(old(State()), group, nodeID, mac)
      ensures nodes.Values <= old(nodes.Values) && edges.Values <= old(edges.Values)
    {
      hide Valid, WellFormed, NodesKeyed, EdgesKeyed, NodeStates, EdgeStates, IsId, Exact, EdgesOk, NamedAfter, Named,
           Unnamed, PromotedName, MergeNodes, MergeEdges, Repointed, IsHostMac;
      ValidParts();
      PromoteKeepsWellFormed(State(), group, nodeID, mac);
      Rekey(mac, nodeID, mac, hostname);
      AnchorName(nodeID, mac, hostname);
      ValidFromParts();
    }

    /** Folds a node into another and lets the result answer to its new identifier. */
    method Rekey(newId: string, oldId: string, mac: string, hostname: string)
      requires Valid() && IsId(newId) && IsId(oldId) && newId != oldId
      modifies this, nodes.Values, edges.Values
      ensures NodesKeyed() && EdgesKeyed() && Exact(edgesByNode, EdgeStates()) && EdgesOk(EdgeStates())
      ensures State() == Merge(old(State()), newId, oldId, hostname).(
        nodes := NamedAfter(Merge(old(State()), newId, oldId, hostname).nodes, newId, mac, hostname))
      ensures nodes.Values <= old(nodes.Values) && edges.Values <= old(edges.Values)
    {
      hide Valid, WellFormed, NodesKeyed, EdgesKeyed, NodeStates, EdgeStates, IsId, IsHostMac, Exact, EdgesOk,
           NamedAfter, Merge;
      MergeNodeInto(newId, oldId, hostname);
      ValidParts();
      NameNode(newId, mac, hostname);
    }

    /** The node to demote is the one stored under the MAC, whatever node the anchor was captured as. */
    method DemoteMACIdentity(mac: string)
      requires Valid() && IsId(mac)
      modifies this, nodes.Values, edges.Values
      ensures Valid() && State() == Demote(old(State()), group, mac)
      ensures nodes.Values <= old(nodes.Values) && edges.Values <= old(edges.Values)
    {
      hide Valid, WellFormed, NodesKeyed, EdgesKeyed, NodeStates, EdgeStates, IsId, Exact, EdgesOk, NamedAfter;
      ValidParts();
      NodeAt(mac);
      if mac !in nodes {
        return;
      }
      var newID := FindHost(nodes[mac].it.ips);
      if newID == "" || newID == mac {
        return;
      }
      DemoteKeepsWellFormed(State(), group, mac);
      FirstHostIsId(State(), group, mac);
      var hostname := if nodes[mac].it.hostname == "" || nodes[mac].it.hostname == mac then newID
        else nodes[mac].it.hostname;
      Rekey(newID, mac, mac, hostname);
      ValidFromParts();
    }

    method NoteMAC(nodeID: string, mac: string)
      requires Valid() && nodeID in nodes
      modifies this`nodes, nodes.Values
      ensures Valid() && State() == NoteMac(old(State()), nodeID, mac) && nodes == old(nodes)
    {
      hide Valid, WellFormed, NodesKeyed, EdgesKeyed, EdgeStates, IsId, Exact, EdgesOk;
      ValidParts();
      NoteMacKeepsWellFormed(State(), nodeID, mac);
      AddMAC(nodeID, mac);
      ValidFromParts();
    }

    method AddMAC(nodeID: string, mac: string)
      requires NodesKeyed() && nodeID in nodes
      modifies nodes.Values
      ensures NodesKeyed()
      ensures NodeStates() == if mac in old(NodeStates())[nodeID].macs then old(NodeStates())
                              else old(NodeStates())[nodeID :=
                                old(NodeStates())[nodeID].(macs := old(NodeStates())[nodeID].macs + [mac])]
    {
      var node := nodes[nodeID];
      if mac !in node.it.macs {
        node.it := node.it.(macs := node.it.macs + [mac]);
        assert forall k :: k in nodes && k != nodeID ==> nodes[k].it == old(nodes[k].it);
      }
    }

    method Anchor(mac: string, nodeID: string)
      requires Valid() && IsId(nodeID) && mac !in macShared
      modifies this`macToNodeID
      ensures Valid() && State() == Anchored(old(State()), mac, nodeID)
    {
      hide Valid, WellFormed, NodesKeyed, EdgesKeyed, NodeStates, EdgeStates, IsId, Exact, EdgesOk;
      ValidParts();
      AnchoredKeepsWellFormed(State(), mac, nodeID);
      macToNodeID := macToNodeID[mac := nodeID];
      ValidFromParts();
    }

    method Share(mac: string)
      requires Valid()
      modifies this`macToNodeID, this`macShared
      ensures Valid() && State() == Shared(old(State()), mac)
    {
      hide Valid, WellFormed, NodesKeyed, EdgesKeyed, NodeStates, EdgeStates, IsId, Exact, EdgesOk;
      ValidParts();
      SharedKeepsWellFormed(State(), mac);
      macShared := macShared + {mac};
      macToNodeID := macToNodeID - {mac};
      ValidFromParts();
    }

    method RecordMAC(nodeID: string, mac: string, now: int)
      requires Valid() && (IsHostMac(mac) ==> IsId(mac))
      modifies this, nodes.Values, edges.Values
      ensures Valid() && State() == RecordMac(old(State()), group, nodeID, mac, now)
      ensures nodes.Values <= old(nodes.Values) && edges.Values <= old(edges.Values)
    {
      hide Valid, WellFormed, NodesKeyed, EdgesKeyed, NodeStates, EdgeStates, IsId, IsHostMac, Exact, EdgesOk, NoteMac,
           Promote, Demote, MergeNodes, MergeEdges, Repointed;
      ValidParts();
      NodeAt(nodeID);
      if nodeID == "" || !IsHostMac(mac) || nodeID !in nodes {
        return;
      }
      NoteMacKeepsWellFormed(State(), nodeID, mac);
      NoteMAC(nodeID, mac);
      if mac in macShared {
        return;
      }
      SharedKeepsWellFormed(State(), mac);
      NodeAt(nodeID);
      if mac !in macToNodeID {
        Anchor(mac, nodeID);
        PromoteNodeIDToMAC(nodeID, mac);
        return;
      }
      var anchorID := macToNodeID[mac];
      NodeAt(anchorID);
      if anchorID == nodeID {
        PromoteNodeIDToMAC(nodeID, mac);
      } else if anchorID !in nodes {
        Anchor(mac, nodeID);
        PromoteNodeIDToMAC(nodeID, mac);
      } else if now - nodes[anchorID].it.lastSeen < MAC_ACTIVE_WINDOW {
        Share(mac);
        DemoteMACIdentity(mac);
      } else {
        MergeNodeInto(nodeID, anchorID, nodes[nodeID].it.hostname);
        Anchor(mac, nodeID);
        PromoteNodeIDToMAC(nodeID, mac);
      }
    }

    lemma NodeAt(id: string)
      ensures id in nodes <==> id in State().nodes
      ensures id in nodes ==> nodes[id].it == State().nodes[id]
    {
    }

    // ---- addOrUpdateEdgeLocked ----

    method ChangeEdge(key: string, it: EdgeState)
      requires EdgesKeyed() && key in edges && it.id == key
      modifies edges.Values
      ensures EdgesKeyed() && EdgeStates() == old(EdgeStates())[key := it]
    {
      edges[key].it := it;
      assert forall k :: k in edges && k != key ==> edges[k].it == old(edges[k].it);
    }

    /** Gives the edge under `key` a new content with the same endpoints, in place if it exists. */
    method StoreEdgeState(key: string, it: EdgeState)
      requires EdgesKeyed() && Exact(edgesByNode, EdgeStates()) && it.id == key
      requires key in edges ==> it.from == EdgeStates()[key].from && it.to == EdgeStates()[key].to
      modifies this`edges, this`edgesByNode, edges.Values
      ensures EdgesKeyed() && Exact(edgesByNode, EdgeStates())
      ensures EdgeStates() == old(EdgeStates())[key := it]
      ensures fresh(edges.Values - old(edges.Values))
    {
      hide Exact, Listed;
      ghost var before := EdgeStates();
      if key in edges {
        ChangeEdge(key, it);
        ExactIgnoresCounters(edgesByNode, before, before[key := it]);
      } else {
        var edge := new Edge(it);
        StoreEdge(key, edge);
      }
    }

    method AddOrUpdateEdge(srcIP: string, dstIP: string, protocol: Protocol, length: int, now: int)
      requires Valid() && IsId(srcIP) && IsId(dstIP)
      modifies this`edges, this`edgesByNode, edges.Values
      ensures Valid() && State() == AddEdge(old(State()), srcIP, dstIP, protocol, length, now)
      ensures CountsPacket(old(EdgeStates()), EdgeStates(), Lookup(ipToNodeID, srcIP), Lookup(ipToNodeID, dstIP),
                           protocol, length, now)
      ensures fresh(edges.Values - old(edges.Values))
    {
      hide Valid, WellFormed, NodesKeyed, EdgesKeyed, NodeStates, IsId, Exact, EdgesOk, EdgeId, CanonFrom, CanonTo;
      ValidParts();
      AddEdgeKeepsWellFormed(State(), srcIP, dstIP, protocol, length, now);
      AddEdgeCounts(State(), srcIP, dstIP, protocol, length, now);
      hide CountsPacket;
      var src := if srcIP in ipToNodeID then ipToNodeID[srcIP] else srcIP;
      var dst := if dstIP in ipToNodeID then ipToNodeID[dstIP] else dstIP;
      var key := EdgeId(src, dst);
      var packet := OnePacket(length, src == CanonFrom(src, dst));
      CountEdgeKeepsEnds(State(), srcIP, dstIP, protocol, length, now);
      if key !in edges {
        StoreEdgeState(key, EdgeState(key, CanonFrom(src, dst), CanonTo(src, dst), protocol, packet, now));
      } else {
        var e := edges[key].it;
        StoreEdgeState(key, e.(volume := e.volume.Plus(packet), lastSeen := now, protocol := if protocol.generic
          then e.protocol else protocol));
      }
      ValidFromParts();
    }

    // ---- Ingest ----

    method RecordMACOf(ip: string, mac: string, now: int)
      requires Valid() && (IsHostMac(mac) ==> IsId(mac))
      modifies this, nodes.Values, edges.Values
      ensures Valid() && State() == RecordMacOf(old(State()), group, ip, mac, now)
      ensures nodes.Values <= old(nodes.Values) && edges.Values <= old(edges.Values)
    {
      hide Valid, WellFormed, NodeStates, EdgeStates, RecordMac, IsHostMac, IsId;
      ValidParts();
      if mac != "" && ip in ipToNodeID {
        RecordMAC(ipToNodeID[ip], mac, now);
      }
    }

    lemma Traced(p: Packet, srcHostname: string, dstHostname: string, now: int)
      requires Valid() && PacketOk(group, p, srcHostname, dstHostname)
      ensures WellFormed(State())
      ensures Traces(State(), Ingested(State(), group, p, srcHostname, dstHostname, now), p)
    {
      ValidParts();
      hide Valid, State, WellFormed, Ingested, PacketOk, IsHostMac, Descends, Came;
      var to := IngestLineage(State(), group, p, srcHostname, dstHostname, now);
    }

    /** Both endpoints, then their MACs, then the edge: a merge re-keys edges, so the edge comes last. */
    method Ingest(p: Packet, srcHostname: string, dstHostname: string, now: int)
      requires Valid() && PacketOk(group, p, srcHostname, dstHostname)
      modifies this, nodes.Values, edges.Values
      ensures Valid() && State() == Ingested(old(State()), group, p, srcHostname, dstHostname, now)
      ensures Traces(old(State()), State(), p)
      ensures fresh(nodes.Values - old(nodes.Values)) && fresh(edges.Values - old(edges.Values))
    {
      hide Valid, State, WellFormed, AddNode, RecordMacOf, AddEdge, IsId, IsHostMac, EffectiveHost, Traces,
           CountsPacket,
           Lookup;
      Traced(p, srcHostname, dstHostname, now);
      AddOrUpdateNode(p.srcIp, srcHostname, p.length, now);
      AddOrUpdateNode(p.dstIp, dstHostname, p.length, now);
      RecordMACOf(p.srcIp, p.srcMac, now);
      RecordMACOf(p.dstIp, p.dstMac, now);
      AddOrUpdateEdge(p.srcIp, p.dstIp, p.protocol, p.length, now);
    }

    // ---- decay ----

    method ForgetNode(id: string)
      requires id in nodes
      modifies this`ipToNodeID, this`hostnameToNodeID, this`macToNodeID
      ensures ipToNodeID == DropNode(old(State()), id).ipTo
      ensures hostnameToNodeID == DropNode(old(State()), id).hostTo
      ensures macToNodeID == DropNode(old(State()), id).macTo
    {
      var node := nodes[id];
      ipToNodeID := map ip | ip in ipToNodeID && ip !in node.it.ips :: ipToNodeID[ip];
      hostnameToNodeID := hostnameToNodeID - (if node.it.hostname != "" then {node.it.hostname, id} else {id});
      macToNodeID := map m | m in macToNodeID && !(m in node.it.macs && macToNodeID[m] == id) :: macToNodeID[m];
    }

    method DropStaleNode(id: string)
      requires Valid() && id in nodes
      modifies this`nodes, this`ipToNodeID, this`hostnameToNodeID, this`macToNodeID
      ensures Valid() && State() == DropNode(old(State()), id)
      ensures nodes == old(nodes) - {id}
    {
      hide Valid, WellFormed, EdgesKeyed, EdgeStates, IsId, Exact, EdgesOk;
      ValidParts();
      DropNodeKeepsWellFormed(State(), id);
      ghost var after := DropNode(State(), id);
      ForgetNode(id);
      nodes := nodes - {id};
      assert NodeStates() == after.nodes;
      assert State() == after;
      ValidFromParts();
    }

    /** The sweep sorts the stale candidates and keeps the first few. */
    static method PickStalest(seen: map<string, int>, threshold: int, now: int, limit: nat)
      returns (chosen: seq<string>)
      ensures Stalest(seen, threshold, now, limit, chosen)
    {
      var left := StaleKeys(seen, threshold, now);
      chosen := [];
      while left != {} && |chosen| < limit
        invariant left <= StaleKeys(seen, threshold, now)
        invariant forall k :: k in StaleKeys(seen, threshold, now) <==> k in left || k in chosen
        invariant forall i :: 0 <= i < |chosen| ==> chosen[i] in StaleKeys(seen, threshold, now)
        invariant forall i, j :: 0 <= i < j < |chosen| ==> Staler(seen, chosen[i], chosen[j])
        invariant forall k, i :: k in left && 0 <= i < |chosen| ==> Staler(seen, chosen[i], k)
        invariant |chosen| <= limit
        decreases left
      {
        var k := TheStalest(seen, left);
        chosen := chosen + [k];
        left := left - {k};
      }
    }

    static method TheStalest(seen: map<string, int>, keys: set<string>) returns (k: string)
      requires keys != {} && keys <= seen.Keys
      ensures k in keys && forall j :: j in keys && j != k ==> Staler(seen, k, j)
    {
      k :| k in keys;
      var left := keys - {k};
      while left != {}
        invariant k in keys && left <= keys && k !in left
        invariant forall j :: j in keys && j !in left && j != k ==> Staler(seen, k, j)
        decreases left
      {
        var j :| j in left;
        left := left - {j};
        StalerIsTotal(seen, k, j);
        if Staler(seen, j, k) {
          forall i | i in keys && i !in left && i != j ensures Staler(seen, j, i) {
            if i != k { StalerIsTransitive(seen, j, k, i); }
          }
          k := j;
        }
      }
    }

    method RemoveStaleNodes(threshold: int, now: int) returns (removed: seq<string>)
      requires Valid()
      modifies this`nodes, this`ipToNodeID, this`hostnameToNodeID, this`macToNodeID
      ensures Valid() && State() == DropNodes(old(State()), removed)
      ensures Stalest(map k | k in old(nodes) :: old(nodes[k].it.lastSeen), threshold, now, 50, removed)
      ensures nodes.Keys == old(nodes.Keys) - (set k | k in removed)
    {
      assert MAX_NODE_REMOVALS == 50;
      hide *;
      var seen := map k | k in nodes :: nodes[k].it.lastSeen;
      removed := PickStalest(seen, threshold, now, MAX_NODE_REMOVALS);
      DroppedKeys(State(), removed);
      SameKeys();
      DropStaleNodes(removed);
      SameKeys();
    }

    lemma SameKeys()
      ensures State().nodes.Keys == nodes.Keys && State().edges.Keys == edges.Keys
    {
    }

    method DropStaleNodes(ids: seq<string>)
      requires Valid()
      modifies this`nodes, this`ipToNodeID, this`hostnameToNodeID, this`macToNodeID
      ensures Valid() && State() == DropNodes(old(State()), ids) && nodes.Values <= old(nodes.Values)
    {
      for i := 0 to |ids|
        invariant Valid() && State() == DropNodes(old(State()), ids[..i])
        invariant nodes.Values <= old(nodes.Values)
      {
        hide *;
        NodeAt(ids[i]);
        OneMoreDropped(old(State()), ids, i);
        if ids[i] in nodes {
          DropStaleNode(ids[i]);
        }
      }
      assert ids[..|ids|] == ids;
    }

    method RemoveStaleEdges(threshold: int, now: int) returns (removed: seq<string>)
      requires Valid()
      modifies this`edges, this`edgesByNode
      ensures Valid() && State() == DropEdges(old(State()), removed)
      ensures Stalest(map k | k in old(edges) :: old(edges[k].it.lastSeen), threshold, now, 100, removed)
      ensures edges.Keys == old(edges.Keys) - (set k | k in removed)
    {
      assert MAX_EDGE_REMOVALS == 100;
      hide *;
      var seen := map k | k in edges :: edges[k].it.lastSeen;
      removed := PickStalest(seen, threshold, now, MAX_EDGE_REMOVALS);
      CutKeys(State(), removed);
      SameKeys();
      DropStaleEdges(removed);
      SameKeys();
    }

    method DropStaleEdges(keys: seq<string>)
      requires Valid()
      modifies this`edges, this`edgesByNode
      ensures Valid() && State() == DropEdges(old(State()), keys) && edges.Values <= old(edges.Values)
    {
      for i := 0 to |keys|
        invariant Valid() && State() == DropEdges(old(State()), keys[..i])
        invariant edges.Values <= old(edges.Values)
      {
        hide *;
        OneMoreCut(old(State()), keys, i);
        DropStaleEdge(keys[i]);
      }
      assert keys[..|keys|] == keys;
    }

    method DropStaleEdge(key: string)
      requires Valid()
      modifies this`edges, this`edgesByNode
      ensures Valid() && State() == DropEdge(old(State()), key) && edges == old(edges) - {key}
    {
      hide Valid, WellFormed, NodesKeyed, EdgesKeyed, NodeStates, EdgeStates, IsId, Exact, EdgesOk;
      ValidParts();
      DropEdgeKeepsWellFormed(State(), key);
      ForgetEdge(key);
      ValidFromParts();
    }

    method ForgetEdge(key: string)
      requires EdgesKeyed() && EdgesOk(EdgeStates()) && Exact(edgesByNode, EdgeStates())
      modifies this`edges, this`edgesByNode
      ensures EdgesKeyed() && Exact(edgesByNode, EdgeStates())
      ensures EdgeStates() == old(EdgeStates()) - {key} && edges == old(edges) - {key}
    {
      hide Exact, Unlisted;
      ghost var after := EdgeStates() - {key};
      if key in edges {
        UnlistedTwiceIsExact(edgesByNode, EdgeStates(), key);
        UnindexEdge(edges[key]);
        edges := edges - {key};
      }
      assert EdgeStates() == after;
    }

    /** Clear keeps the MAC maps. */
    method Clear()
      requires Valid()
      modifies this
      ensures Valid() && State() == Cleared(old(State())) && nodes == map[] && edges == map[]
      ensures edgesByNode == map[] && ipToNodeID == map[] && hostnameToNodeID == map[]
      ensures macToNodeID == old(macToNodeID) && macShared == old(macShared)
    {
      nodes, edges, edgesByNode := map[], map[], map[];
      ipToNodeID, hostnameToNodeID := map[], map[];
    }

    // ---- BulkLoad ----

    method LoadNodeRows(rows: seq<StoredNode>, now: int)
      requires Valid() && forall i :: 0 <= i < |rows| ==> RowOk(group, rows[i])
      modifies this, nodes.Values, edges.Values
      ensures Valid() && State() == LoadNodes(old(State()), group, rows, now)
      ensures fresh(nodes.Values - old(nodes.Values)) && fresh(edges.Values - old(edges.Values))
    {
      hide Valid, WellFormed, State, AddNode, IsId, EffectiveHost;
      ghost var g := State();
      ValidParts();
      for i := 0 to |rows|
        invariant Valid() && State() == LoadNodes(g, group, rows[..i], now)
        invariant fresh(nodes.Values - old(nodes.Values)) && fresh(edges.Values - old(edges.Values))
      {
        assert rows[..i + 1][..i] == rows[..i];
        assert RowOk(group, rows[i]);
        AddOrUpdateNode(rows[i].id, rows[i].hostname, 0, now);
      }
      assert rows[..|rows|] == rows;
    }

    method LoadNodeCounter(row: StoredNode, zeroed: set<string>) returns (zeroed': set<string>)
      requires NodesKeyed()
      modifies this`nodes, nodes.Values
      ensures NodesKeyed() && NodeStates() == LoadCounter(old(NodeStates()), ipToNodeID, zeroed, row)
      ensures zeroed' == if Lookup(ipToNodeID, row.id) in old(NodeStates()) then zeroed + {Lookup(ipToNodeID, row.id)}
        else zeroed
      ensures fresh(nodes.Values - old(nodes.Values))
    {
      var id := Lookup(ipToNodeID, row.id);
      zeroed' := zeroed;
      if id in nodes {
        var packets := (if id in zeroed then nodes[id].it.packets else 0) + row.packets;
        var bytes := (if id in zeroed then nodes[id].it.bytes else 0) + row.bytes;
        zeroed' := zeroed + {id};
        StoreNode(id, nodes[id].it.(packets := packets, bytes := bytes));
      }
    }

    /** Overwrites the counters: each target is zeroed once, then accumulates. */
    method LoadNodeCounters(rows: seq<StoredNode>)
      requires NodesKeyed()
      modifies this`nodes, nodes.Values
      ensures NodesKeyed() && NodeStates() == LoadCounters(old(NodeStates()), ipToNodeID, rows)
      ensures fresh(nodes.Values - old(nodes.Values))
    {
      var zeroed: set<string> := {};
      ghost var before := NodeStates();
      assert rows[..0] == [];
      for i := 0 to |rows|
        invariant NodesKeyed() && NodeStates() == LoadCounters(before, ipToNodeID, rows[..i])
        invariant zeroed == Targets(ipToNodeID, rows[..i]) * before.Keys
        invariant fresh(nodes.Values - old(nodes.Values))
      {
        hide NodesKeyed, NodeStates, Targets, LoadCounter, LoadCounters;
        CounterStep(before, ipToNodeID, rows, i);
        zeroed := LoadNodeCounter(rows[i], zeroed);
      }
      assert rows[..|rows|] == rows;
    }

    method LoadEdgeRow(row: StoredEdge, catalog: Catalog, now: int)
      requires EdgesKeyed() && Exact(edgesByNode, EdgeStates()) && EdgesOk(EdgeStates())
      requires IpsOk(ipToNodeID) && StoredEdgeOk(row)
      modifies this`edges, this`edgesByNode, edges.Values
      ensures EdgesKeyed() && Exact(edgesByNode, EdgeStates()) && EdgesOk(EdgeStates())
      ensures EdgeStates() == LoadEdge(old(EdgeStates()), ipToNodeID, catalog, row, now)
      ensures fresh(edges.Values - old(edges.Values))
    {
      hide EdgesKeyed, Exact, EdgesOk, EdgeId, CanonFrom, CanonTo, IpsOk, StoredEdgeOk;
      LoadEdgeKeepsEdgesOk(EdgeStates(), ipToNodeID, catalog, row, now);
      var from, to := Lookup(ipToNodeID, row.from), Lookup(ipToNodeID, row.to);
      if from == to && row.from != row.to {
        return;
      }
      var id := EdgeId(from, to);
      var volume := if CanonFrom(from, to) != from then row.volume.Reversed() else row.volume;
      var protocol := catalog(row.protocol);
      if id in edges {
        StoredEdgeId(EdgeStates(), id);
        var e := edges[id].it;
        StoreEdgeState(id, e.(volume := e.volume.Plus(volume), lastSeen := now, protocol := if protocol.generic
          then e.protocol else protocol));
      } else {
        StoreEdgeState(id, EdgeState(id, CanonFrom(from, to), CanonTo(from, to), protocol, volume, now));
      }
    }

    method LoadEdgeRows(rows: seq<StoredEdge>, catalog: Catalog, now: int)
      requires EdgesKeyed() && Exact(edgesByNode, EdgeStates()) && EdgesOk(EdgeStates())
      requires IpsOk(ipToNodeID) && forall i :: 0 <= i < |rows| ==> StoredEdgeOk(rows[i])
      modifies this`edges, this`edgesByNode, edges.Values
      ensures EdgesKeyed() && Exact(edgesByNode, EdgeStates())
      ensures EdgeStates() == LoadEdges(old(EdgeStates()), ipToNodeID, catalog, rows, now)
      ensures fresh(edges.Values - old(edges.Values))
    {
      hide EdgesKeyed, EdgeStates, Exact, EdgesOk, IpsOk, LoadEdge, StoredEdgeOk;
      ghost var before := EdgeStates();
      for i := 0 to |rows|
        invariant EdgesKeyed() && Exact(edgesByNode, EdgeStates()) && EdgesOk(EdgeStates())
        invariant EdgeStates() == LoadEdges(before, ipToNodeID, catalog, rows[..i], now)
        invariant fresh(edges.Values - old(edges.Values))
      {
        assert rows[..i + 1][..i] == rows[..i];
        LoadEdgeRow(rows[i], catalog, now);
      }
      assert rows[..|rows|] == rows;
    }

    method LoadTotals(rows: seq<StoredNode>, edgeRows: seq<StoredEdge>, catalog: Catalog, now: int)
      requires Valid() && forall i :: 0 <= i < |edgeRows| ==> StoredEdgeOk(edgeRows[i])
      modifies this`nodes, this`edges, this`edgesByNode, nodes.Values, edges.Values
      ensures NodesKeyed() && EdgesKeyed() && Exact(edgesByNode, EdgeStates())
      ensures State() == old(State()).(
        nodes := LoadCounters(old(NodeStates()), ipToNodeID, rows),
        edges := LoadEdges(old(EdgeStates()), ipToNodeID, catalog, edgeRows, now))
      ensures fresh(nodes.Values - old(nodes.Values)) && fresh(edges.Values - old(edges.Values))
    {
      hide Valid, WellFormed, NodesKeyed, EdgesKeyed, NodeStates, EdgeStates, Exact, EdgesOk, IpsOk, StoredEdgeOk,
           LoadCounters, LoadEdges;
      ValidParts();
      WellFormedIps(State());
      LoadNodeCounters(rows);
      LoadEdgeRows(edgeRows, catalog, now);
    }

    method BulkLoad(rows: seq<StoredNode>, edgeRows: seq<StoredEdge>, catalog: Catalog, now: int)
      requires Valid() && forall i :: 0 <= i < |rows| ==> RowOk(group, rows[i])
      requires forall i :: 0 <= i < |edgeRows| ==> StoredEdgeOk(edgeRows[i])
      modifies this, nodes.Values, edges.Values
      ensures Valid() && State() == Loaded(old(State()), group, catalog, rows, edgeRows, now)
      ensures fresh(nodes.Values - old(nodes.Values)) && fresh(edges.Values - old(edges.Values))
    {
      hide Valid, WellFormed, NodesKeyed, EdgesKeyed, NodeStates, EdgeStates, Exact, EdgesOk, RowOk, StoredEdgeOk,
           LoadNodes, LoadCounters, LoadEdges;
      ValidParts();
      LoadedKeepsWellFormed(State(), group, catalog, rows, edgeRows, now);
      LoadNodeRows(rows, now);
      LoadTotals(rows, edgeRows, catalog, now);
      ValidFromParts();
    }

    // ---- GetNodeDetail ----

    /** The node's connections, looked up in the index: each incident edge once, from the node's side. */
    method Connections(id: string) returns (found: seq<Connection>)
      requires Valid()
      ensures |found| == |Incident(EdgeStates(), id)|
      ensures forall k :: k in edges && (edges[k].it.from == id || edges[k].it.to == id) ==>
        exists c :: c in found && c.key == k
      ensures forall c :: c in found ==>
        && c.key in edges && (edges[c.key].it.from == id || edges[c.key].it.to == id)
        && c.peer == (if edges[c.key].it.to == id then edges[c.key].it.from else edges[c.key].it.to)
        && c.outbound == (edges[c.key].it.to != id) && c.protocol == edges[c.key].it.protocol.name
        && c.packets == edges[c.key].it.volume.packets && c.bytes == edges[c.key].it.volume.bytes
    {
      hide WellFormed, NodesKeyed, NodeStates, State;
      ValidParts();
      LookupEqualsScan(edgesByNode, EdgeStates(), id);
      hide Valid, Exact, EdgesKeyed, EdgesOk;
      found := ListConnections(id, if id in edgesByNode then edgesByNode[id] else {});
      hide Touches;
      forall k | k in edges && (edges[k].it.from == id || edges[k].it.to == id)
        ensures exists c :: c in found && c.key == k
      {
        IncidentIs(EdgeStates(), id, k);
      }
      forall c | c in found ensures c.key in edges && (edges[c.key].it.from == id || edges[c.key].it.to == id) {
        IncidentIs(EdgeStates(), id, c.key);
      }
      hide Incident;
    }

    method ListConnections(id: string, keys: set<string>) returns (found: seq<Connection>)
      requires EdgesKeyed() && keys <= edges.Keys
      ensures |found| == |keys| && (forall k :: k in keys ==> exists c :: c in found && c.key == k)
      ensures forall c :: c in found ==> c.key in keys && c == ConnectionOf(edges[c.key].it, id)
    {
      found := [];
      var todo := keys;
      while todo != {}
        invariant todo <= keys && |found| + |todo| == |keys|
        invariant forall k :: k in keys && k !in todo ==> exists c :: c in found && c.key == k
        invariant forall c :: c in found ==> c.key in keys && c == ConnectionOf(edges[c.key].it, id)
        decreases todo
      {
        var key :| key in todo;
        todo := todo - {key};
        ghost var before := found;
        found := found + [ConnectionOf(edges[key].it, id)];
        assert found[|before|].key == key;
      }
    }
  }

  lemma IncidentIs(edges: map<string, EdgeState>, id: string, k: string)
    ensures k in Incident(edges, id) <==> k in edges && (edges[k].from == id || edges[k].to == id)
  {
  }

  /** One connection of a node, as the detail panel shows it. */
  datatype Connection = Connection(key: string, peer: string, protocol: string, packets: int, bytes: int,
    outbound: bool)

  function ConnectionOf(e: EdgeState, id: string): Connection {
    if e.to == id then Connection(e.id, e.from, e.protocol.name, e.volume.packets, e.volume.bytes, false)
    else Connection(e.id, e.to, e.protocol.name, e.volume.packets, e.volume.bytes, true)
  }

  lemma OnlyNodesAreZeroed(nodes: map<string, NodeState>, ipTo: map<string, string>, targets: set<string>,
                           row: StoredNode)
    ensures LoadCounter(nodes, ipTo, targets * nodes.Keys, row) == LoadCounter(nodes, ipTo, targets, row)
  {
  }

  /** The sweep takes stale keys only, at most `limit`, and leaves no staler one behind. */
  lemma StalestExactly(seen: map<string, int>, threshold: int, now: int, limit: nat, chosen: seq<string>)
    requires Stalest(seen, threshold, now, limit, chosen)
    ensures |chosen| <= limit && forall k :: k in chosen ==> k in seen && now - seen[k] > threshold
    ensures forall k :: k in seen && k !in chosen && now - seen[k] > threshold ==>
      |chosen| == limit && forall r :: r in chosen ==> seen[r] <= seen[k]
  {
    hide Less;
    forall k | k in seen && k !in chosen && now - seen[k] > threshold
      ensures |chosen| == limit && forall r :: r in chosen ==> seen[r] <= seen[k]
    {
      assert k in StaleKeys(seen, threshold, now);
      forall r | r in chosen ensures seen[r] <= seen[k] {
        var i :| 0 <= i < |chosen| && chosen[i] == r;
        assert Staler(seen, chosen[i], k);
      }
    }
  }

  lemma {:induction false} DroppedKeys(g: GraphState, ids: seq<string>)
    ensures DropNodes(g, ids).nodes.Keys == g.nodes.Keys - (set k | k in ids)
  {
    if ids != [] {
      DroppedKeys(g, ids[..|ids| - 1]);
      assert ids == ids[..|ids| - 1] + [ids[|ids| - 1]];
    }
  }

  lemma {:induction false} CutKeys(g: GraphState, keys: seq<string>)
    ensures DropEdges(g, keys).edges.Keys == g.edges.Keys - (set k | k in keys)
  {
    if keys != [] {
      CutKeys(g, keys[..|keys| - 1]);
      assert keys == keys[..|keys| - 1] + [keys[|keys| - 1]];
    }
  }

  lemma OneMoreDropped(g: GraphState, ids: seq<string>, i: nat)
    requires i < |ids|
    ensures var before := DropNodes(g, ids[..i]);
      DropNodes(g, ids[..i + 1]) == if ids[i] in before.nodes then DropNode(before, ids[i]) else before
  {
    hide DropNode;
    assert ids[..i + 1][..i] == ids[..i];
  }

  lemma OneMoreCut(g: GraphState, keys: seq<string>, i: nat)
    requires i < |keys|
    ensures DropEdges(g, keys[..i + 1]) == DropEdge(DropEdges(g, keys[..i]), keys[i])
  {
    assert keys[..i + 1][..i] == keys[..i];
  }

  /** One more row's counters, zeroed only where a node is. */
  lemma CounterStep(before: map<string, NodeState>, ipTo: map<string, string>, rows: seq<StoredNode>, i: nat)
    requires i < |rows|
    ensures var loaded, zeroed := LoadCounters(before, ipTo, rows[..i]), Targets(ipTo, rows[..i]) * before.Keys;
      && loaded.Keys == before.Keys
      && LoadCounter(loaded, ipTo, zeroed, rows[i]) == LoadCounters(before, ipTo, rows[..i + 1])
      && Targets(ipTo, rows[..i + 1]) * before.Keys ==
         zeroed + if Lookup(ipTo, rows[i].id) in before then {Lookup(ipTo, rows[i].id)} else {}
  {
    hide Targets, LoadCounter;
    assert rows[..i + 1][..i] == rows[..i];
    MoreTargets(ipTo, rows, i);
    LoadCountersKeepsIdentity(before, ipTo, rows[..i]);
    OnlyNodesAreZeroed(LoadCounters(before, ipTo, rows[..i]), ipTo, Targets(ipTo, rows[..i]), rows[i]);
  }

  lemma MoreTargets(ipTo: map<string, string>, rows: seq<StoredNode>, i: nat)
    requires i < |rows|
    ensures Targets(ipTo, rows[..i + 1]) == Targets(ipTo, rows[..i]) + {Lookup(ipTo, rows[i].id)}
  {
  }

  lemma WellFormedIps(g: GraphState)
    requires WellFormed(g)
    ensures IpsOk(g.ipTo)
  {
  }

  lemma StoredEdgeId(edges: map<string, EdgeState>, key: string)
    requires EdgesOk(edges) && key in edges
    ensures edges[key].id == key
  {
  }

  lemma StalerIsTotal(seen: map<string, int>, a: string, b: string)
    requires a in seen && b in seen && a != b
    ensures Staler(seen, a, b) <==> !Staler(seen, b, a)
  {
    LessIsTotal(a, b);
  }

  lemma StalerIsTransitive(seen: map<string, int>, a: string, b: string, c: string)
    requires a in seen && b in seen && c in seen && Staler(seen, a, b) && Staler(seen, b, c)
    ensures Staler(seen, a, c)
  {
    if seen[a] == seen[b] == seen[c] {
      LessIsTransitive(a, b, c);
    }
  }

  lemma CountEdgeKeepsEnds(g: GraphState, srcIp: string, dstIp: string, protocol: Protocol, length: int, now: int)
    requires WellFormed(g) && IsId(srcIp) && IsId(dstIp)
    ensures var src, dst := Lookup(g.ipTo, srcIp), Lookup(g.ipTo, dstIp);
      var key, e := EdgeId(src, dst), CountEdge(g.edges, src, dst, protocol, length, now);
      e.id == key && (key in g.edges ==> e.from == g.edges[key].from && e.to == g.edges[key].to)
  {
  }

  lemma FirstHostIsId(g: GraphState, group: Labeller, mac: string)
    requires WellFormed(g) && mac in g.nodes
    ensures var ip := FirstHost(group, g.nodes[mac].ips); ip != "" ==> IsId(ip)
  {
    FirstHostIsListed(group, g.nodes[mac].ips);
  }

  lemma StageKeepsKeys(before: map<string, EdgeState>, now: map<string, EdgeState>, newId: string, oldId: string)
    requires EdgesOk(before) && IsId(newId) && IsId(oldId) && newId != oldId
    requires Stage(before, before.Keys, newId, oldId, now)
    ensures forall k :: k in before && !Touches(before[k], oldId) ==> now[k].id == k
  {
    hide IsId, Moved, Rekeyed, NewKey;
  }

  /** The objects that wait to be stored under a new key once the edges in `done` are visited. */
  ghost predicate Waiting(before: map<string, EdgeState>, done: set<string>, toAdd: map<string, Edge>,
                          edges: map<string, Edge>, newId: string, oldId: string)
    requires EdgesOk(before) && IsId(newId) && IsId(oldId) && newId != oldId && edges.Keys == before.Keys
  {
    && toAdd.Keys == Moved(before, done, newId, oldId).Keys - before.Keys
    && forall i {:trigger before[i]} :: i in before && i in done && Renames(before, newId, oldId, i)
          ==> NewKey(before[i], newId, oldId) in toAdd && toAdd[NewKey(before[i], newId, oldId)] == edges[i]
  }

  /** Visiting the edge under `key` gives its object a new key. */
  predicate Renames(before: map<string, EdgeState>, newId: string, oldId: string, key: string)
    requires key in before
  {
    Moves(before[key], newId, oldId) && NewKey(before[key], newId, oldId) !in before
  }

  lemma WaitingAdvances(before: map<string, EdgeState>, done: set<string>, toAdd: map<string, Edge>,
                        edges: map<string, Edge>, newId: string, oldId: string, key: string)
    requires EdgesOk(before) && IsId(newId) && IsId(oldId) && newId != oldId && edges.Keys == before.Keys
    requires Waiting(before, done, toAdd, edges, newId, oldId)
    requires key in before && key !in done && Touches(before[key], oldId)
    ensures Renames(before, newId, oldId, key) ==> NewKey(before[key], newId, oldId) !in toAdd
    ensures Waiting(before, done + {key},
                    if Renames(before, newId, oldId, key) then toAdd[NewKey(before[key], newId, oldId) := edges[key]]
                      else toAdd,
                    edges, newId, oldId)
  {
    hide EdgesOk, IsId, Moved, NewKey, Rekeyed, Touches, Moves;
    MovedStep(before, done, newId, oldId, key);
  }

  /** What waits after the loop: the moved edges whose new key is free, each under its key. */
  lemma ReadyToStore(before: map<string, EdgeState>, now: map<string, EdgeState>, index: map<string, set<string>>,
                     toDelete: set<string>, toAdd: map<string, Edge>, edges: map<string, Edge>, newId: string,
                       oldId: string)
    requires EdgesOk(before) && IsId(newId) && IsId(oldId) && newId != oldId && edges.Keys == before.Keys
    requires Stage(before, before.Keys, newId, oldId, now) && Waiting(before, before.Keys, toAdd, edges, newId, oldId)
    requires forall k {:trigger edges[k]} :: k in edges ==> edges[k].it == now[k]
    requires toDelete == set k | k in before && Touches(before[k], oldId)
    requires Exact(index, Remaining(before, before.Keys, oldId))
    ensures toAdd.Keys == Moved(before, before.Keys, newId, oldId).Keys - before.Keys
    ensures forall k {:trigger toAdd[k]} :: k in toAdd ==>
      toAdd[k].it.id == k && k !in edges && toAdd[k] in edges.Values
        && toAdd[k].it == Moved(before, before.Keys, newId, oldId)[k]
    ensures Exact(index, now - toDelete)
  {
    hide EdgesOk, IsId, Exact, NewKey, Moved, Rekeyed;
    forall k | k in toAdd
      ensures toAdd[k].it.id == k && toAdd[k] in edges.Values
        && toAdd[k].it == Moved(before, before.Keys, newId, oldId)[k]
    {
      var i := MovedSource(before, before.Keys, newId, oldId, k);
      MovedAt(before, before.Keys, newId, oldId, i);
      assert Renames(before, newId, oldId, i);
      RekeyedKeepsCounters(before[i], newId, oldId);
    }
    ExactIgnoresCounters(index, Remaining(before, before.Keys, oldId), now - toDelete);
  }

  lemma Stored(before: map<string, EdgeState>, now: map<string, EdgeState>, after: map<string, EdgeState>,
               toDelete: set<string>, toAdd: map<string, Edge>, newId: string, oldId: string)
    requires EdgesOk(before) && IsId(newId) && IsId(oldId) && newId != oldId
    requires Stage(before, before.Keys, newId, oldId, now)
    requires toDelete == set k | k in before && Touches(before[k], oldId)
    requires toAdd.Keys == Moved(before, before.Keys, newId, oldId).Keys - before.Keys
    requires forall k {:trigger toAdd[k]} :: k in toAdd ==> toAdd[k].it == Moved(before, before.Keys, newId, oldId)[k]
    requires after.Keys == (before.Keys - toDelete) + toAdd.Keys
    requires forall k :: k in after ==> after[k] == if k in toAdd then toAdd[k].it else now[k]
    ensures after == MergeEdges(before, newId, oldId)
  {
    hide EdgesOk, IsId, Moved, MergeEdges;
    AllVisited(before, newId, oldId, now);
  }

  lemma MoreStored<T>(kept: map<string, T>, toAdd: map<string, T>, todo: set<string>, key: string)
    requires key in todo && todo <= toAdd.Keys
    ensures (kept + (toAdd - todo))[key := toAdd[key]] == kept + (toAdd - (todo - {key}))
    ensures key in kept + (toAdd - todo) <==> key in kept
  {
  }

  lemma NothingVisited(before: map<string, EdgeState>, edges: map<string, Edge>, newId: string, oldId: string)
    requires EdgesOk(before) && IsId(newId) && IsId(oldId) && newId != oldId && edges.Keys == before.Keys
    ensures edges.Keys - edges.Keys == {}
    ensures Stage(before, {}, newId, oldId, before) && Waiting(before, {}, map[], edges, newId, oldId)
    ensures Remaining(before, {}, oldId) == before
  {
    assert Moved(before, {}, newId, oldId) == map[];
  }

  lemma WaitingIgnoresOthers(before: map<string, EdgeState>, done: set<string>, toAdd: map<string, Edge>,
                             edges: map<string, Edge>, newId: string, oldId: string, key: string)
    requires EdgesOk(before) && IsId(newId) && IsId(oldId) && newId != oldId && edges.Keys == before.Keys
    requires Waiting(before, done, toAdd, edges, newId, oldId)
    requires key in before && key !in done && !Touches(before[key], oldId)
    ensures Waiting(before, done + {key}, toAdd, edges, newId, oldId)
  {
    hide EdgesOk, IsId, Moved, NewKey, Rekeyed;
    MovedStep(before, done, newId, oldId, key);
  }

  /** An edge that touches the node merged away never keeps its key. */
  lemma NeverSameKey(edges: map<string, EdgeState>, key: string, newId: string, oldId: string)
    requires EdgesOk(edges) && IsId(newId) && IsId(oldId) && newId != oldId && key in edges
      && Touches(edges[key], oldId)
    ensures NewKey(edges[key], newId, oldId) != key
    ensures edges[key].id == key
  {
    var e := edges[key];
    if NewKey(e, newId, oldId) == key {
      EdgeIdIsInjective(NewFrom(e, newId, oldId), NewTo(e, newId, oldId), e.from, e.to);
    }
  }
}
