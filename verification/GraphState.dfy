/** What graph.Manager's locked methods compute (graph/graph.go), as functions on values.

    A GraphState is the content of the manager's maps. Each function here gives the state after one
    method; module GraphManager proves the methods, which update objects in place, against them, and
    module GraphInvariants proves what holds in every state they can reach. */
module GraphState {
  import opened Ids

  datatype Option<+T> = None | Some(value: T)

  /** A protocol of the catalog: what matters here is its name and whether it is a generic transport. */
  datatype Protocol = Protocol(name: string, generic: bool)

  /** Traffic counters, split by direction. */
  datatype Volume = Volume(packets: int, bytes: int, forwardPackets: int, reversePackets: int,
                           forwardBytes: int, reverseBytes: int)
  {
    function Plus(that: Volume): Volume {
      Volume(packets + that.packets, bytes + that.bytes,
             forwardPackets + that.forwardPackets, reversePackets + that.reversePackets,
             forwardBytes + that.forwardBytes, reverseBytes + that.reverseBytes)
    }

    /** The same traffic, seen from the other end. */
    function Reversed(): Volume {
      Volume(packets, bytes, reversePackets, forwardPackets, reverseBytes, forwardBytes)
    }

    predicate Balanced() {
      packets == forwardPackets + reversePackets && bytes == forwardBytes + reverseBytes
    }
  }

  const NOTHING := Volume(0, 0, 0, 0, 0, 0)

  lemma PlusLaws(a: Volume, b: Volume, c: Volume)
    ensures a.Plus(b) == b.Plus(a) && a.Plus(NOTHING) == a && NOTHING.Plus(a) == a
    ensures a.Plus(b).Plus(c) == a.Plus(b.Plus(c))
  {
  }

  /** One packet more: forward or in reverse, and nothing else. */
  ghost predicate OneMore(was: Volume, now: Volume, forward: bool, length: int) {
    && now.packets == was.packets + 1 && now.bytes == was.bytes + length
    && now.forwardPackets == was.forwardPackets + (if forward then 1 else 0)
    && now.forwardBytes == was.forwardBytes + (if forward then length else 0)
    && now.reversePackets == was.reversePackets + (if forward then 0 else 1)
    && now.reverseBytes == was.reverseBytes + (if forward then 0 else length)
  }

  function OnePacket(length: int, forward: bool): Volume {
    if forward then Volume(1, length, 1, 0, length, 0) else Volume(1, length, 0, 1, 0, length)
  }

  datatype NodeState = NodeState(id: string, hostname: string, ips: seq<string>, macs: seq<string>,
                                 packets: int, bytes: int, lastSeen: int, isGroup: bool)

  datatype EdgeState = EdgeState(id: string, from: string, to: string, protocol: Protocol,
                                 volume: Volume, lastSeen: int)

  datatype GraphState = GraphState(
    nodes: map<string, NodeState>,
    edges: map<string, EdgeState>,
    ipTo: map<string, string>,        // IP -> node
    hostTo: map<string, string>,      // hostname -> node
    macTo: map<string, string>,       // MAC -> the node it anchors
    sharedMacs: set<string>)          // MACs seen on two hosts at once

  const EMPTY := GraphState(map[], map[], map[], map[], map[], {})

  /** groupAddressLabel: the label of a multicast or broadcast address, if it is one. */
  type Labeller = string -> Option<string>

  /** A MAC whose anchor was seen within this many nanoseconds is shared when another host shows it. */
  const MAC_ACTIVE_WINDOW := 90_000_000_000

  /** The identifiers the server hands out are not empty and do not contain the separator. */
  ghost predicate IsId(s: string) { s != "" && Plain(s) }

  function Lookup(m: map<string, string>, key: string): string {
    if key in m then m[key] else key
  }

  // ---- mergeNodeInto -------------------------------------------------------------------------

  /** The entries of `extra` that are not in `base`. */
  function Missing(base: seq<string>, extra: seq<string>): seq<string> {
    if extra == [] then []
    else if extra[|extra| - 1] in base then Missing(base, extra[..|extra| - 1])
    else Missing(base, extra[..|extra| - 1]) + [extra[|extra| - 1]]
  }

  function Absorb(n: NodeState, gone: NodeState): NodeState {
    n.(packets := n.packets + gone.packets, bytes := n.bytes + gone.bytes,
       ips := n.ips + Missing(n.ips, gone.ips), macs := n.macs + Missing(n.macs, gone.macs))
  }

  function MergeNodes(nodes: map<string, NodeState>, newId: string, oldId: string, hostname: string)
    : map<string, NodeState>
  {
    if oldId !in nodes then nodes
    else if newId !in nodes then
      (nodes - {oldId})[newId := nodes[oldId].(id := newId, hostname := hostname)]
    else
      (nodes - {oldId})[newId := Absorb(nodes[newId], nodes[oldId])]
  }

  /** An edge is stored under its own canonical key, between two identifiers, with balanced counters. */
  ghost predicate EdgeOk(key: string, e: EdgeState) {
    && IsId(e.from) && IsId(e.to)
    && e.id == key == EdgeId(e.from, e.to)
    && e.from == CanonFrom(e.from, e.to)
    && e.to == CanonTo(e.from, e.to)
    && e.volume.Balanced()
  }

  ghost predicate EdgesOk(edges: map<string, EdgeState>) {
    forall k {:trigger k in edges} :: k in edges ==> EdgeOk(k, edges[k])
  }

  predicate Touches(e: EdgeState, id: string) { e.from == id || e.to == id }

  function Renamed(x: string, newId: string, oldId: string): string { if x == oldId then newId else x }

  function NewFrom(e: EdgeState, newId: string, oldId: string): string { Renamed(e.from, newId, oldId) }

  function NewTo(e: EdgeState, newId: string, oldId: string): string { Renamed(e.to, newId, oldId) }

  function NewKey(e: EdgeState, newId: string, oldId: string): string {
    EdgeId(NewFrom(e, newId, oldId), NewTo(e, newId, oldId))
  }

  /** Merging `oldId` into `newId` makes this edge a loop, which is dropped. */
  predicate BecomesLoop(e: EdgeState, newId: string, oldId: string) {
    Touches(e, oldId) && NewFrom(e, newId, oldId) == NewTo(e, newId, oldId)
  }

  /** Merging `oldId` into `newId` gives this edge a new key. */
  predicate Moves(e: EdgeState, newId: string, oldId: string) {
    Touches(e, oldId) && NewFrom(e, newId, oldId) != NewTo(e, newId, oldId)
  }

  function Rekeyed(e: EdgeState, newId: string, oldId: string): EdgeState {
    e.(id := NewKey(e, newId, oldId),
       from := CanonFrom(NewFrom(e, newId, oldId), NewTo(e, newId, oldId)),
       to := CanonTo(NewFrom(e, newId, oldId), NewTo(e, newId, oldId)))
  }

  /** Adds the counters of an edge that landed on this edge's key. */
  function Combined(e: EdgeState, that: EdgeState): EdgeState {
    e.(volume := e.volume.Plus(that.volume),
       lastSeen := if that.lastSeen > e.lastSeen then that.lastSeen else e.lastSeen)
  }

  lemma MovesApart(e: EdgeState, i: string, f: EdgeState, j: string, newId: string, oldId: string)
    requires EdgeOk(i, e) && EdgeOk(j, f) && IsId(newId) && IsId(oldId) && newId != oldId
    requires Moves(e, newId, oldId) && Moves(f, newId, oldId)
    requires NewKey(e, newId, oldId) == NewKey(f, newId, oldId)
    ensures i == j
  {
    EdgeIdIsInjective(NewFrom(e, newId, oldId), NewTo(e, newId, oldId), NewFrom(f, newId, oldId),
      NewTo(f, newId, oldId));
    CanonicalOrder(e.from, e.to);
  }

  /** Distinct edges never move to the same key. */
  lemma MovesAreInjective(edges: map<string, EdgeState>, newId: string, oldId: string)
    requires EdgesOk(edges) && IsId(newId) && IsId(oldId) && newId != oldId
    ensures forall i, j ::
      (i in edges && j in edges && Moves(edges[i], newId, oldId) && Moves(edges[j], newId, oldId) &&
       NewKey(edges[i], newId, oldId) == NewKey(edges[j], newId, oldId)) ==> i == j
  {
    forall i, j | i in edges && j in edges && Moves(edges[i], newId, oldId) && Moves(edges[j], newId, oldId) &&
      NewKey(edges[i], newId, oldId) == NewKey(edges[j], newId, oldId)
      ensures i == j
    {
      MovesApart(edges[i], i, edges[j], j, newId, oldId);
    }
  }

  /** The edges with keys in `which` that move, under their new keys. */
  ghost function Moved(edges: map<string, EdgeState>, which: set<string>, newId: string, oldId: string)
    : map<string, EdgeState>
    requires EdgesOk(edges) && IsId(newId) && IsId(oldId) && newId != oldId
  {
    MovesAreInjective(edges, newId, oldId);
    map i | i in edges && i in which && Moves(edges[i], newId, oldId) ::
      NewKey(edges[i], newId, oldId) := Rekeyed(edges[i], newId, oldId)
  }

  function Staying(edges: map<string, EdgeState>, oldId: string): map<string, EdgeState> {
    map i | i in edges && !Touches(edges[i], oldId) :: edges[i]
  }

  /** Two edge maps laid over each other; edges with the same key are combined. */
  function Overlay(base: map<string, EdgeState>, extra: map<string, EdgeState>): map<string, EdgeState> {
    base + map k | k in extra :: if k in base then Combined(base[k], extra[k]) else extra[k]
  }

  ghost function MergeEdges(edges: map<string, EdgeState>, newId: string, oldId: string): map<string, EdgeState>
    requires EdgesOk(edges) && IsId(newId) && IsId(oldId) && newId != oldId
  {
    Overlay(Staying(edges, oldId), Moved(edges, edges.Keys, newId, oldId))
  }

  // ---- the loop of mergeNodeInto over the edges, part of the way ----

  /** The record under key `i` once the edges in `done` have been visited, in whatever order. */
  ghost function Midway(edges: map<string, EdgeState>, done: set<string>, newId: string, oldId: string,
                        i: string): EdgeState
    requires EdgesOk(edges) && IsId(newId) && IsId(oldId) && newId != oldId && i in edges
  {
    var e := edges[i];
    if Moves(e, newId, oldId) && i in done && NewKey(e, newId, oldId) !in edges then Rekeyed(e, newId, oldId)
    else if !Touches(e, oldId) && i in Moved(edges, done, newId, oldId)
      then Combined(e, Moved(edges, done, newId, oldId)[i])
    else e
  }

  /** Visiting one more edge that moves gives it a key no visited edge has moved to. */
  lemma MovedStep(edges: map<string, EdgeState>, done: set<string>, newId: string, oldId: string, i: string)
    requires EdgesOk(edges) && IsId(newId) && IsId(oldId) && newId != oldId && i in edges && i !in done
    ensures Moved(edges, done + {i}, newId, oldId) ==
            if Moves(edges[i], newId, oldId)
            then Moved(edges, done, newId, oldId)[NewKey(edges[i], newId, oldId) := Rekeyed(edges[i], newId, oldId)]
            else Moved(edges, done, newId, oldId)
    ensures Moves(edges[i], newId, oldId) ==> NewKey(edges[i], newId, oldId) !in Moved(edges, done, newId, oldId)
  {
    hide EdgesOk, IsId, Moves, NewKey, Rekeyed;
    MovesAreInjective(edges, newId, oldId);
  }

  /** The edges of `edges` that are not visited yet or do not touch the node merged away. */
  function Remaining(edges: map<string, EdgeState>, done: set<string>, oldId: string): map<string, EdgeState> {
    map i | i in edges && !(i in done && Touches(edges[i], oldId)) :: edges[i]
  }

  /** An edge moves to a key whose current holder, if any, stays. */
  lemma TargetStays(edges: map<string, EdgeState>, newId: string, oldId: string, i: string)
    requires EdgesOk(edges) && IsId(newId) && IsId(oldId) && newId != oldId
    requires i in edges && Moves(edges[i], newId, oldId) && NewKey(edges[i], newId, oldId) in edges
    ensures !Touches(edges[NewKey(edges[i], newId, oldId)], oldId)
    ensures NewKey(edges[i], newId, oldId) != i
  {
    var k := NewKey(edges[i], newId, oldId);
    var r := Rekeyed(edges[i], newId, oldId);
    RekeyedIsOk(edges[i], i, newId, oldId);
    EdgeIdIsInjective(r.from, r.to, edges[k].from, edges[k].to);
  }

  /** What visiting the edge under `key` changes: nothing if it does not move; the edge it lands on, if
      there is one; otherwise its own key and endpoints. */
  lemma MidwayStep(edges: map<string, EdgeState>, done: set<string>, newId: string, oldId: string, key: string)
    requires EdgesOk(edges) && IsId(newId) && IsId(oldId) && newId != oldId
    requires key in edges && key !in done && Touches(edges[key], oldId)
    ensures Midway(edges, done, newId, oldId, key) == edges[key]
    ensures var newKey := NewKey(edges[key], newId, oldId);
      var done' := done + {key};
      if !Moves(edges[key], newId, oldId) then
        && Moved(edges, done', newId, oldId) == Moved(edges, done, newId, oldId)
        && (forall i :: i in edges ==> Midway(edges, done', newId, oldId, i) == Midway(edges, done, newId, oldId, i))
      else
        && Moved(edges, done', newId, oldId).Keys == Moved(edges, done, newId, oldId).Keys + {newKey}
        && newKey !in Moved(edges, done, newId, oldId)
        && (forall i :: i in edges && i != newKey && i != key ==>
              Midway(edges, done', newId, oldId, i) == Midway(edges, done, newId, oldId, i))
        && (if newKey in edges then
              && newKey != key
              && Midway(edges, done', newId, oldId, key) == edges[key]
              && Midway(edges, done', newId, oldId, newKey)
                == Combined(Midway(edges, done, newId, oldId, newKey), edges[key])
            else Midway(edges, done', newId, oldId, key) == Rekeyed(edges[key], newId, oldId))
  {
    hide EdgesOk, IsId, Moved, Rekeyed, NewKey;
    MovedStep(edges, done, newId, oldId, key);
    RekeyedKeepsCounters(edges[key], newId, oldId);
    if Moves(edges[key], newId, oldId) && NewKey(edges[key], newId, oldId) in edges {
      TargetStays(edges, newId, oldId, key);
    }
  }

  /** The records are as the loop leaves them after visiting `done`. */
  ghost predicate Stage(edges: map<string, EdgeState>, done: set<string>, newId: string, oldId: string,
                        now: map<string, EdgeState>)
    requires EdgesOk(edges) && IsId(newId) && IsId(oldId) && newId != oldId
  {
    now.Keys == edges.Keys && forall i {:trigger now[i]} :: i in edges ==>
      now[i] == Midway(edges, done, newId, oldId, i)
  }

  /** What visiting the edge under `key` does to the records. */
  ghost function Visit(edges: map<string, EdgeState>, newId: string, oldId: string, key: string): map<string, EdgeState>
    requires key in edges
  {
    var e := edges[key];
    if !Moves(e, newId, oldId) then edges
    else if NewKey(e, newId, oldId) in edges then
      edges[NewKey(e, newId, oldId) := Combined(edges[NewKey(e, newId, oldId)], e)]
    else edges[key := Rekeyed(e, newId, oldId)]
  }

  lemma VisitAdvances(edges: map<string, EdgeState>, done: set<string>, newId: string, oldId: string,
                      now: map<string, EdgeState>, key: string)
    requires EdgesOk(edges) && IsId(newId) && IsId(oldId) && newId != oldId
    requires Stage(edges, done, newId, oldId, now)
    requires key in edges && key !in done && Touches(edges[key], oldId)
    ensures now[key] == edges[key]
    ensures Stage(edges, done + {key}, newId, oldId, Visit(now, newId, oldId, key))
  {
    hide EdgesOk, IsId, Midway, Moved, Rekeyed, NewKey;
    MidwayStep(edges, done, newId, oldId, key);
  }

  /** Visiting an edge that does not touch `oldId` changes nothing. */
  lemma SkipAdvances(edges: map<string, EdgeState>, done: set<string>, newId: string, oldId: string,
                     now: map<string, EdgeState>, key: string)
    requires EdgesOk(edges) && IsId(newId) && IsId(oldId) && newId != oldId
    requires Stage(edges, done, newId, oldId, now) && key in edges && key !in done
    ensures Touches(now[key], oldId) == Touches(edges[key], oldId)
    ensures !Touches(edges[key], oldId) ==>
      && Stage(edges, done + {key}, newId, oldId, now)
      && Moved(edges, done + {key}, newId, oldId) == Moved(edges, done, newId, oldId)
      && Remaining(edges, done + {key}, oldId) == Remaining(edges, done, oldId)
  {
    hide EdgesOk, IsId, Moved, Rekeyed, NewKey;
    MovedStep(edges, done, newId, oldId, key);
  }

  /** Once every edge is visited: drop those that touched `oldId`, add those that moved to a free key. */
  lemma AllVisited(edges: map<string, EdgeState>, newId: string, oldId: string, now: map<string, EdgeState>)
    requires EdgesOk(edges) && IsId(newId) && IsId(oldId) && newId != oldId
    requires Stage(edges, edges.Keys, newId, oldId, now)
    ensures var moved := Moved(edges, edges.Keys, newId, oldId);
      forall k {:trigger k in MergeEdges(edges, newId, oldId)} :: k in MergeEdges(edges, newId, oldId) <==>
        (k in edges && !Touches(edges[k], oldId)) || k in moved
    ensures forall k :: k in edges && !Touches(edges[k], oldId) ==> MergeEdges(edges, newId, oldId)[k] == now[k]
    ensures forall k :: k in Moved(edges, edges.Keys, newId, oldId) && k !in edges ==>
      MergeEdges(edges, newId, oldId)[k] == Moved(edges, edges.Keys, newId, oldId)[k]
    ensures forall k :: k in Moved(edges, edges.Keys, newId, oldId) && k in edges ==> !Touches(edges[k], oldId)
  {
    hide EdgesOk, IsId, Moved, Rekeyed, NewKey, Combined;
    forall k | k in Moved(edges, edges.Keys, newId, oldId) && k in edges ensures !Touches(edges[k], oldId) {
      var i := MovedSource(edges, edges.Keys, newId, oldId, k);
      TargetStays(edges, newId, oldId, i);
    }
  }

  lemma RekeyedKeepsCounters(e: EdgeState, newId: string, oldId: string)
    ensures Rekeyed(e, newId, oldId).volume == e.volume && Rekeyed(e, newId, oldId).lastSeen == e.lastSeen
    ensures Rekeyed(e, newId, oldId).id == NewKey(e, newId, oldId)
  {
  }

  function Repointed(m: map<string, string>, newId: string, oldId: string): map<string, string> {
    map k | k in m :: Renamed(m[k], newId, oldId)
  }

  ghost function Merge(g: GraphState, newId: string, oldId: string, hostname: string): GraphState
    requires EdgesOk(g.edges) && IsId(newId) && IsId(oldId) && newId != oldId
  {
    g.(nodes := MergeNodes(g.nodes, newId, oldId, hostname),
       edges := MergeEdges(g.edges, newId, oldId),
       ipTo := Repointed(g.ipTo, newId, oldId),
       macTo := Repointed(g.macTo, newId, oldId))
  }

  // ---- addOrUpdateNodeLocked -----------------------------------------------------------------

  function EffectiveHost(group: Labeller, ip: string, hostname: string): string {
    match group(ip)
    case Some(name) => name
    case None => hostname
  }

  predicate UsesHost(ip: string, host: string) { host != "" && host != ip }

  /** The node that traffic of `ip`, called `host`, is counted on. */
  function NodeFor(g: GraphState, ip: string, host: string): string {
    if UsesHost(ip, host) then Lookup(g.hostTo, host) else ip
  }

  function CountOn(nodes: map<string, NodeState>, id: string, ip: string, host: string, isGroup: bool,
                   length: int, now: int): NodeState
  {
    if id !in nodes then NodeState(id, host, [ip], [], 1, length, now, isGroup)
    else
      var n := nodes[id];
      n.(packets := n.packets + 1, bytes := n.bytes + length, lastSeen := now,
         hostname := if UsesHost(ip, host) && n.hostname == n.id then host else n.hostname,
         isGroup := n.isGroup || isGroup)
  }

  /** Traffic of `ip` is counted on `id` from now on; what it had under another node moves there. */
  ghost function Settle(g: GraphState, ip: string, host: string): GraphState
    requires WellFormed(g) && IsId(ip) && (host != "" ==> IsId(host))
  {
    var id := NodeFor(g, ip, host);
    assert IsId(id) by { NodeForIsId(g, ip, host); }
    var g1 := if UsesHost(ip, host) && host !in g.hostTo then g.(hostTo := g.hostTo[host := host]) else g;
    if ip in g.ipTo && g.ipTo[ip] != "" && g.ipTo[ip] != id then Merge(g1, id, g.ipTo[ip], host) else g1
  }

  function CountNode(g: GraphState, id: string, ip: string, host: string, isGroup: bool, length: int,
                     now: int): GraphState {
    g.(ipTo := g.ipTo[ip := id], nodes := g.nodes[id := CountOn(g.nodes, id, ip, host, isGroup, length, now)])
  }

  ghost function AddNode(g: GraphState, group: Labeller, ip: string, hostname: string, length: int, now: int)
    : GraphState
    requires WellFormed(g) && IsId(ip)
      && (EffectiveHost(group, ip, hostname) != "" ==> IsId(EffectiveHost(group, ip, hostname)))
  {
    var host := EffectiveHost(group, ip, hostname);
    CountNode(Settle(g, ip, host), NodeFor(g, ip, host), ip, host, group(ip).Some?, length, now)
  }

  lemma NodeForIsId(g: GraphState, ip: string, host: string)
    requires HostsOk(g.hostTo) && IsId(ip) && (host != "" ==> IsId(host))
    ensures IsId(NodeFor(g, ip, host))
  {
  }

  // ---- recordMACLocked, promoteNodeIDToMAC, demoteMACIdentity --------------------------------

  predicate IsHexDigit(c: char) { '0' <= c <= '9' || 'a' <= c <= 'f' || 'A' <= c <= 'F' }

  function HexValue(c: char): int
    requires IsHexDigit(c)
  {
    if '0' <= c <= '9' then c as int - '0' as int
    else if 'a' <= c <= 'f' then c as int - 'a' as int + 10
    else c as int - 'A' as int + 10
  }

  /** A unicast hardware address: long enough, its first byte hexadecimal and even, not all zero. */
  predicate IsHostMac(mac: string) {
    && |mac| >= 17 && IsHexDigit(mac[0]) && IsHexDigit(mac[1])
    && HexValue(mac[1]) % 2 == 0
    && mac != "00:00:00:00:00:00"
  }

  /** The first address in the list that is not a group address. */
  function FirstHost(group: Labeller, ips: seq<string>): string {
    if ips == [] then "" else if group(ips[0]).None? then ips[0] else FirstHost(group, ips[1..])
  }

  function PromotedName(group: Labeller, n: NodeState, nodeId: string): string {
    if n.hostname != "" && n.hostname != nodeId then n.hostname
    else if FirstHost(group, n.ips) != "" then FirstHost(group, n.ips)
    else if n.hostname != "" then n.hostname
    else nodeId
  }

  /** The node under `id` is called `id`, and `host` if it had no name of its own. */
  function NamedAfter(nodes: map<string, NodeState>, id: string, mac: string, host: string): map<string, NodeState> {
    if id !in nodes then nodes
    else
      var n := nodes[id];
      nodes[id := n.(id := id, hostname := if n.hostname == "" || n.hostname == mac then host else n.hostname)]
  }

  predicate Promotable(g: GraphState, nodeId: string, mac: string) {
    && nodeId != "" && mac != "" && nodeId != mac && mac !in g.sharedMacs && IsHostMac(mac)
    && nodeId in g.nodes && !g.nodes[nodeId].isGroup && !IsHostMac(nodeId)
  }

  function Unnamed(hostTo: map<string, string>, nodeId: string): map<string, string> {
    if nodeId in hostTo && hostTo[nodeId] == nodeId then hostTo - {nodeId} else hostTo
  }

  function Named(hostTo: map<string, string>, host: string, mac: string): map<string, string> {
    if host != "" && host != mac then hostTo[host := mac] else hostTo
  }

  ghost function Promote(g: GraphState, group: Labeller, nodeId: string, mac: string): GraphState
    requires WellFormed(g) && IsId(nodeId) && IsId(mac)
  {
    if !Promotable(g, nodeId, mac) then g
    else
      var host := PromotedName(group, g.nodes[nodeId], nodeId);
      var merged := Merge(g, mac, nodeId, host);
      merged.(nodes := NamedAfter(merged.nodes, mac, mac, host),
              macTo := merged.macTo[mac := mac],
              hostTo := Named(Unnamed(merged.hostTo, nodeId), host, mac))
  }

  ghost function Demote(g: GraphState, group: Labeller, mac: string): GraphState
    requires WellFormed(g) && IsId(mac)
  {
    if mac !in g.nodes then g
    else
      var n := g.nodes[mac];
      var ip := FirstHost(group, n.ips);
      if ip == "" || ip == mac then g
      else
        var host := if n.hostname == "" || n.hostname == mac then ip else n.hostname;
        assert IsId(ip) by { FirstHostIsListed(group, n.ips); }
        var merged := Merge(g, ip, mac, host);
        merged.(nodes := NamedAfter(merged.nodes, ip, mac, host))
  }

  lemma {:induction false} FirstHostIsListed(group: Labeller, ips: seq<string>)
    ensures FirstHost(group, ips) != "" ==> FirstHost(group, ips) in ips
  {
    if ips != [] {
      FirstHostIsListed(group, ips[1..]);
    }
  }

  function NoteMac(g: GraphState, nodeId: string, mac: string): GraphState
    requires nodeId in g.nodes
  {
    var n := g.nodes[nodeId];
    if mac in n.macs then g else g.(nodes := g.nodes[nodeId := n.(macs := n.macs + [mac])])
  }

  function Anchored(g: GraphState, mac: string, nodeId: string): GraphState { g.(macTo := g.macTo[mac := nodeId]) }

  function Shared(g: GraphState, mac: string): GraphState {
    g.(sharedMacs := g.sharedMacs + {mac}, macTo := g.macTo - {mac})
  }

  ghost function RecordMac(g: GraphState, group: Labeller, nodeId: string, mac: string, now: int): GraphState
    requires WellFormed(g) && (IsHostMac(mac) ==> IsId(mac))
  {
    if nodeId == "" || !IsHostMac(mac) || nodeId !in g.nodes then g
    else
      var g1 := NoteMac(g, nodeId, mac);
      assert WellFormed(g1) && IsId(nodeId) by { NoteMacKeepsWellFormed(g, nodeId, mac); }
      if mac in g1.sharedMacs then g1
      else if mac !in g1.macTo || (g1.macTo[mac] != nodeId && g1.macTo[mac] !in g1.nodes) then
        assert WellFormed(Anchored(g1, mac, nodeId)) by { AnchoredKeepsWellFormed(g1, mac, nodeId); }
        Promote(Anchored(g1, mac, nodeId), group, nodeId, mac)
      else if g1.macTo[mac] == nodeId then
        Promote(g1, group, nodeId, mac)
      else if now - g1.nodes[g1.macTo[mac]].lastSeen < MAC_ACTIVE_WINDOW then
        assert WellFormed(Shared(g1, mac)) by { SharedKeepsWellFormed(g1, mac); }
        Demote(Shared(g1, mac), group, mac)
      else
        assert IsId(g1.macTo[mac]) by { SharedKeepsWellFormed(g1, mac); }
        var merged := Merge(g1, nodeId, g1.macTo[mac], g1.nodes[nodeId].hostname);
        assert WellFormed(Anchored(merged, mac, nodeId)) by {
          MergeKeepsWellFormed(g1, nodeId, g1.macTo[mac], g1.nodes[nodeId].hostname);
          AnchoredKeepsWellFormed(merged, mac, nodeId);
        }
        Promote(Anchored(merged, mac, nodeId), group, nodeId, mac)
  }

  // ---- addOrUpdateEdgeLocked -----------------------------------------------------------------

  function CountEdge(edges: map<string, EdgeState>, src: string, dst: string, protocol: Protocol, length: int, now: int)
    : EdgeState
  {
    var id := EdgeId(src, dst);
    var packet := OnePacket(length, src == CanonFrom(src, dst));
    if id !in edges then EdgeState(id, CanonFrom(src, dst), CanonTo(src, dst), protocol, packet, now)
    else
      var e := edges[id];
      e.(volume := e.volume.Plus(packet), lastSeen := now, protocol := if protocol.generic then e.protocol
        else protocol)
  }

  function AddEdge(g: GraphState, srcIp: string, dstIp: string, protocol: Protocol, length: int, now: int): GraphState {
    var src, dst := Lookup(g.ipTo, srcIp), Lookup(g.ipTo, dstIp);
    g.(edges := g.edges[EdgeId(src, dst) := CountEdge(g.edges, src, dst, protocol, length, now)])
  }

  /** A packet from `src` to `dst` counts on the one edge between them, forward exactly if the edge leads from `src`;
      a generic protocol does not displace the edge's. */
  ghost predicate CountsPacket(before: map<string, EdgeState>, after: map<string, EdgeState>, src: string, dst: string,
                               protocol: Protocol, length: int, now: int) {
    var id := EdgeId(src, dst);
    && after.Keys == before.Keys + {id} && (forall k :: k in before && k != id ==> after[k] == before[k])
    && (if after[id].from == src then after[id].to == dst else after[id].from == dst && after[id].to == src)
    && (id in before ==> after[id].from == before[id].from)
    && OneMore(if id in before then before[id].volume else NOTHING, after[id].volume, src == after[id].from, length)
    && after[id].protocol == (if id in before && protocol.generic then before[id].protocol else protocol)
    && after[id].lastSeen == now
  }

  lemma AddEdgeCounts(g: GraphState, srcIp: string, dstIp: string, protocol: Protocol, length: int, now: int)
    requires WellFormed(g) && IsId(srcIp) && IsId(dstIp)
    ensures CountsPacket(g.edges, AddEdge(g, srcIp, dstIp, protocol, length, now).edges, Lookup(g.ipTo, srcIp),
                         Lookup(g.ipTo, dstIp), protocol, length, now)
  {
    var src, dst := Lookup(g.ipTo, srcIp), Lookup(g.ipTo, dstIp);
    LookupIsId(g.ipTo, srcIp);
    LookupIsId(g.ipTo, dstIp);
    hide EdgesOk, NodesOk, IpsOk, HostsOk, AnchorsOk, Lookup, IsId, CountEdge, EdgeId, OneMore;
    PacketLands(g.edges, src, dst, protocol, length, now);
  }

  lemma PacketLands(edges: map<string, EdgeState>, src: string, dst: string, protocol: Protocol, length: int, now: int)
    requires EdgesOk(edges) && IsId(src) && IsId(dst)
    ensures CountsPacket(edges, edges[EdgeId(src, dst) := CountEdge(edges, src, dst, protocol, length, now)], src, dst,
                         protocol, length, now)
  {
    var id := EdgeId(src, dst);
    var known := id in edges;
    if known {
      assert EdgeOk(id, edges[id]);
      EdgeIdIsInjective(edges[id].from, edges[id].to, src, dst);
    }
    hide EdgesOk, EdgeId, Plain;
    CanonicalOrder(src, dst);
    hide Less;
  }

  // ---- Ingest --------------------------------------------------------------------------------

  datatype Packet = Packet(srcIp: string, dstIp: string, srcMac: string, dstMac: string, protocol: Protocol,
    length: int)

  /** What Ingest's callers provide: identifiers without the separator. */
  ghost predicate PacketOk(group: Labeller, p: Packet, srcHost: string, dstHost: string) {
    && IsId(p.srcIp) && IsId(p.dstIp)
    && (EffectiveHost(group, p.srcIp, srcHost) != "" ==> IsId(EffectiveHost(group, p.srcIp, srcHost)))
    && (EffectiveHost(group, p.dstIp, dstHost) != "" ==> IsId(EffectiveHost(group, p.dstIp, dstHost)))
    && (IsHostMac(p.srcMac) ==> IsId(p.srcMac))
    && (IsHostMac(p.dstMac) ==> IsId(p.dstMac))
  }

  ghost function RecordMacOf(g: GraphState, group: Labeller, ip: string, mac: string, now: int): GraphState
    requires WellFormed(g) && (IsHostMac(mac) ==> IsId(mac))
  {
    if mac != "" && ip in g.ipTo then RecordMac(g, group, g.ipTo[ip], mac, now) else g
  }

  ghost function Ingested(g: GraphState, group: Labeller, p: Packet, srcHost: string, dstHost: string,
                          now: int): GraphState
    requires WellFormed(g) && PacketOk(group, p, srcHost, dstHost)
  {
    var g1 := AddNode(g, group, p.srcIp, srcHost, p.length, now);
    assert WellFormed(g1) by { AddNodeKeepsWellFormed(g, group, p.srcIp, srcHost, p.length, now); }
    var g2 := AddNode(g1, group, p.dstIp, dstHost, p.length, now);
    assert WellFormed(g2) by { AddNodeKeepsWellFormed(g1, group, p.dstIp, dstHost, p.length, now); }
    var g3 := RecordMacOf(g2, group, p.srcIp, p.srcMac, now);
    assert WellFormed(g3) by { RecordMacOfKeepsWellFormed(g2, group, p.srcIp, p.srcMac, now); }
    var g4 := RecordMacOf(g3, group, p.dstIp, p.dstMac, now);
    AddEdge(g4, p.srcIp, p.dstIp, p.protocol, p.length, now)
  }

  // ---- RemoveStaleNodes, RemoveStaleEdges, Clear ---------------------------------------------

  function WithoutAnchors(macTo: map<string, string>, macs: seq<string>, nodeId: string): map<string, string> {
    map m | m in macTo && !(m in macs && macTo[m] == nodeId) :: macTo[m]
  }

  function DropNode(g: GraphState, nodeId: string): GraphState
    requires nodeId in g.nodes
  {
    var n := g.nodes[nodeId];
    g.(nodes := g.nodes - {nodeId},
       ipTo := map ip | ip in g.ipTo && ip !in n.ips :: g.ipTo[ip],
       hostTo := g.hostTo - (if n.hostname != "" then {n.hostname, nodeId} else {nodeId}),
       macTo := WithoutAnchors(g.macTo, n.macs, nodeId))
  }

  function DropNodes(g: GraphState, ids: seq<string>): GraphState
    decreases |ids|
  {
    if ids == [] then g
    else
      var before := DropNodes(g, ids[..|ids| - 1]);
      var last := ids[|ids| - 1];
      if last in before.nodes then DropNode(before, last) else before
  }

  function DropEdges(g: GraphState, keys: seq<string>): GraphState
    decreases |keys|
  {
    if keys == [] then g else DropEdge(DropEdges(g, keys[..|keys| - 1]), keys[|keys| - 1])
  }

  /** `a`, last seen at `seen[a]`, goes before `b`. */
  predicate Staler(seen: map<string, int>, a: string, b: string)
    requires a in seen && b in seen
  {
    seen[a] < seen[b] || (seen[a] == seen[b] && Less(a, b))
  }

  function StaleKeys(seen: map<string, int>, threshold: int, now: int): set<string> {
    set k | k in seen && now - seen[k] > threshold
  }

  /** At most `limit` keys, the stalest ones, stalest first: ties go by key. */
  ghost predicate Stalest(seen: map<string, int>, threshold: int, now: int, limit: nat, chosen: seq<string>) {
    && (forall i :: 0 <= i < |chosen| ==> chosen[i] in StaleKeys(seen, threshold, now))
    && (forall i, j :: 0 <= i < j < |chosen| ==> Staler(seen, chosen[i], chosen[j]))
    && |chosen| <= limit
    && (forall k :: k in StaleKeys(seen, threshold, now) && k !in chosen ==>
          |chosen| == limit && forall i :: 0 <= i < |chosen| ==> Staler(seen, chosen[i], k))
  }

  const MAX_NODE_REMOVALS := 50
  const MAX_EDGE_REMOVALS := 100

  function DropEdge(g: GraphState, key: string): GraphState { g.(edges := g.edges - {key}) }

  function Cleared(g: GraphState): GraphState { EMPTY.(macTo := g.macTo, sharedMacs := g.sharedMacs) }

  // ---- BulkLoad ------------------------------------------------------------------------------

  /** Aggregates as the store keeps them: identifiers as captured, before any hostname merging. */
  datatype StoredNode = StoredNode(id: string, hostname: string, packets: int, bytes: int)

  datatype StoredEdge = StoredEdge(from: string, to: string, protocol: string, volume: Volume)

  /** The protocol known under a name; a name the catalog does not know is not generic. */
  type Catalog = string -> Protocol

  ghost predicate RowOk(group: Labeller, n: StoredNode) {
    IsId(n.id) && (EffectiveHost(group, n.id, n.hostname) != "" ==> IsId(EffectiveHost(group, n.id, n.hostname)))
  }

  ghost predicate StoredEdgeOk(e: StoredEdge) { IsId(e.from) && IsId(e.to) && e.volume.Balanced() }

  ghost function LoadNodes(g: GraphState, group: Labeller, rows: seq<StoredNode>, now: int): (r: GraphState)
    requires WellFormed(g) && forall i :: 0 <= i < |rows| ==> RowOk(group, rows[i])
    ensures WellFormed(r)
  {
    if rows == [] then g
    else
      var last := rows[|rows| - 1];
      assert RowOk(group, last);
      var before := LoadNodes(g, group, rows[..|rows| - 1], now);
      assert WellFormed(AddNode(before, group, last.id, last.hostname, 0, now)) by {
        hide WellFormed, AddNode;
        AddNodeKeepsWellFormed(before, group, last.id, last.hostname, 0, now);
      }
      AddNode(before, group, last.id, last.hostname, 0, now)
  }

  /** The nodes whose counters the rows overwrite. */
  function Targets(ipTo: map<string, string>, rows: seq<StoredNode>): set<string> {
    set i | 0 <= i < |rows| :: Lookup(ipTo, rows[i].id)
  }

  function LoadCounter(nodes: map<string, NodeState>, ipTo: map<string, string>, zeroed: set<string>, row: StoredNode)
    : map<string, NodeState>
  {
    var id := Lookup(ipTo, row.id);
    if id !in nodes then nodes
    else if id in zeroed then
      nodes[id := nodes[id].(packets := nodes[id].packets + row.packets, bytes := nodes[id].bytes + row.bytes)]
    else nodes[id := nodes[id].(packets := row.packets, bytes := row.bytes)]
  }

  /** Several addresses may share a node: the first row overwrites its counters, the others add to them. */
  function LoadCounters(nodes: map<string, NodeState>, ipTo: map<string, string>,
                        rows: seq<StoredNode>): map<string, NodeState> {
    if rows == [] then nodes
    else
      var rest := rows[..|rows| - 1];
      LoadCounter(LoadCounters(nodes, ipTo, rest), ipTo, Targets(ipTo, rest), rows[|rows| - 1])
  }

  function LoadEdge(edges: map<string, EdgeState>, ipTo: map<string, string>, catalog: Catalog, row: StoredEdge,
                    now: int)
    : map<string, EdgeState>
  {
    var from, to := Lookup(ipTo, row.from), Lookup(ipTo, row.to);
    if from == to && row.from != row.to then edges
    else edges[EdgeId(from, to) := LoadedEdge(edges, from, to, catalog(row.protocol), row.volume, now)]
  }

  /** Stored counters are relative to the stored order: if merging flips the endpoints, the directions swap. */
  function LoadedEdge(edges: map<string, EdgeState>, from: string, to: string, protocol: Protocol, stored: Volume,
                      now: int): EdgeState {
    var id := EdgeId(from, to);
    var volume := if CanonFrom(from, to) != from then stored.Reversed() else stored;
    if id !in edges then EdgeState(id, CanonFrom(from, to), CanonTo(from, to), protocol, volume, now)
    else
      var e := edges[id];
      e.(volume := e.volume.Plus(volume), lastSeen := now, protocol := if protocol.generic then e.protocol
        else protocol)
  }

  function LoadEdges(edges: map<string, EdgeState>, ipTo: map<string, string>, catalog: Catalog, rows: seq<StoredEdge>,
                     now: int)
    : map<string, EdgeState>
  {
    if rows == [] then edges
    else LoadEdge(LoadEdges(edges, ipTo, catalog, rows[..|rows| - 1], now), ipTo, catalog, rows[|rows| - 1], now)
  }

  ghost function Loaded(g: GraphState, group: Labeller, catalog: Catalog, rows: seq<StoredNode>,
                        edgeRows: seq<StoredEdge>, now: int)
    : GraphState
    requires WellFormed(g) && forall i :: 0 <= i < |rows| ==> RowOk(group, rows[i])
  {
    var loaded := LoadNodes(g, group, rows, now);
    loaded.(nodes := LoadCounters(loaded.nodes, loaded.ipTo, rows),
            edges := LoadEdges(loaded.edges, loaded.ipTo, catalog, edgeRows, now))
  }

  // ---- the structural invariant --------------------------------------------------------------

  /** Holds in every reachable state: see the lemmas below and GraphInvariants. */
  ghost predicate WellFormed(g: GraphState) {
    EdgesOk(g.edges) && NodesOk(g.nodes, g.ipTo) && IpsOk(g.ipTo) && HostsOk(g.hostTo)
      && AnchorsOk(g.macTo, g.sharedMacs)
  }

  ghost predicate IpsOk(ipTo: map<string, string>) {
    forall ip {:trigger ip in ipTo} :: ip in ipTo ==> IsId(ip) && IsId(ipTo[ip])
  }

  ghost predicate HostsOk(hostTo: map<string, string>) {
    forall h {:trigger h in hostTo} :: h in hostTo ==> IsId(hostTo[h])
  }

  /** A shared MAC anchors no node. */
  ghost predicate AnchorsOk(macTo: map<string, string>, sharedMacs: set<string>) {
    forall m {:trigger m in macTo} :: m in macTo ==> IsId(macTo[m]) && m !in sharedMacs
  }

  /** A node is stored under its own identifier, and owns every address it lists. */
  ghost predicate NodesOk(nodes: map<string, NodeState>, ipTo: map<string, string>) {
    && (forall k {:trigger k in nodes} :: k in nodes ==> nodes[k].id == k && IsId(k))
    && (forall k, ip {:trigger ip in nodes[k].ips} :: k in nodes && ip in nodes[k].ips ==> ip in ipTo && ipTo[ip] == k)
  }

  lemma {:induction false} MissingMembers(base: seq<string>, extra: seq<string>, x: string)
    ensures x in Missing(base, extra) <==> x in extra && x !in base
  {
    if extra != [] {
      MissingMembers(base, extra[..|extra| - 1], x);
    }
  }

  lemma RekeyedIsOk(e: EdgeState, key: string, newId: string, oldId: string)
    requires EdgeOk(key, e) && IsId(newId) && newId != oldId && Moves(e, newId, oldId)
    ensures EdgeOk(NewKey(e, newId, oldId), Rekeyed(e, newId, oldId))
    ensures !Touches(Rekeyed(e, newId, oldId), oldId)
  {
    CanonicalOrder(NewFrom(e, newId, oldId), NewTo(e, newId, oldId));
  }

  lemma MovedAt(edges: map<string, EdgeState>, which: set<string>, newId: string, oldId: string, i: string)
    requires EdgesOk(edges) && IsId(newId) && IsId(oldId) && newId != oldId
    requires i in edges && i in which && Moves(edges[i], newId, oldId)
    ensures NewKey(edges[i], newId, oldId) in Moved(edges, which, newId, oldId)
    ensures Moved(edges, which, newId, oldId)[NewKey(edges[i], newId, oldId)] == Rekeyed(edges[i], newId, oldId)
  {
    MovesAreInjective(edges, newId, oldId);
  }

  lemma MovedSource(edges: map<string, EdgeState>, which: set<string>, newId: string, oldId: string, k: string)
    returns (i: string)
    requires EdgesOk(edges) && IsId(newId) && IsId(oldId) && newId != oldId
    requires k in Moved(edges, which, newId, oldId)
    ensures i in edges && i in which && Moves(edges[i], newId, oldId) && NewKey(edges[i], newId, oldId) == k
  {
    hide EdgesOk, IsId, Moves, NewKey, Rekeyed;
    i :| i in edges && i in which && Moves(edges[i], newId, oldId) && NewKey(edges[i], newId, oldId) == k;
  }

  lemma MovedIsOk(edges: map<string, EdgeState>, which: set<string>, newId: string, oldId: string, k: string)
    requires EdgesOk(edges) && IsId(newId) && IsId(oldId) && newId != oldId
    requires k in Moved(edges, which, newId, oldId)
    ensures EdgeOk(k, Moved(edges, which, newId, oldId)[k])
    ensures !Touches(Moved(edges, which, newId, oldId)[k], oldId)
  {
    var i := MovedSource(edges, which, newId, oldId, k);
    MovedAt(edges, which, newId, oldId, i);
    RekeyedIsOk(edges[i], i, newId, oldId);
  }

  lemma CombinedIsOk(k: string, e: EdgeState, f: EdgeState)
    requires EdgeOk(k, e) && EdgeOk(k, f)
    ensures EdgeOk(k, Combined(e, f))
    ensures forall id :: Touches(Combined(e, f), id) == Touches(e, id)
  {
  }

  lemma MergeKeepsEdgesOk(edges: map<string, EdgeState>, newId: string, oldId: string)
    requires EdgesOk(edges) && IsId(newId) && IsId(oldId) && newId != oldId
    ensures EdgesOk(MergeEdges(edges, newId, oldId))
    ensures forall k :: k in MergeEdges(edges, newId, oldId) ==> !Touches(MergeEdges(edges, newId, oldId)[k], oldId)
  {
    var moved := Moved(edges, edges.Keys, newId, oldId);
    var staying := Staying(edges, oldId);
    var merged := MergeEdges(edges, newId, oldId);
    forall k | k in merged ensures EdgeOk(k, merged[k]) && !Touches(merged[k], oldId) {
      if k in moved {
        MovedIsOk(edges, edges.Keys, newId, oldId, k);
        if k in staying {
          CombinedIsOk(k, staying[k], moved[k]);
        }
      }
    }
  }

  lemma MergeKeepsNodesOk(g: GraphState, newId: string, oldId: string, hostname: string)
    requires NodesOk(g.nodes, g.ipTo) && IsId(newId) && newId != oldId
    ensures NodesOk(MergeNodes(g.nodes, newId, oldId, hostname), Repointed(g.ipTo, newId, oldId))
  {
    if oldId in g.nodes && newId in g.nodes {
      forall ip | ip in Absorb(g.nodes[newId], g.nodes[oldId]).ips
        ensures ip in g.nodes[newId].ips || ip in g.nodes[oldId].ips
      {
        MissingMembers(g.nodes[newId].ips, g.nodes[oldId].ips, ip);
      }
    }
  }

  lemma MergeKeepsWellFormed(g: GraphState, newId: string, oldId: string, hostname: string)
    requires WellFormed(g) && IsId(newId) && IsId(oldId) && newId != oldId
    ensures WellFormed(Merge(g, newId, oldId, hostname))
  {
    hide EdgesOk, NodesOk, IpsOk, AnchorsOk, HostsOk, MergeEdges, MergeNodes, Repointed;
    MergeKeepsEdgesOk(g.edges, newId, oldId);
    MergeKeepsNodesOk(g, newId, oldId, hostname);
    RepointedIsOk(g.ipTo, newId, oldId);
    RepointedAnchorsAreOk(g.macTo, g.sharedMacs, newId, oldId);
  }

  lemma CountOnKeepsNodesOk(nodes: map<string, NodeState>, ipTo: map<string, string>, id: string, ip: string,
                            host: string, isGroup: bool, length: int, now: int)
    requires NodesOk(nodes, ipTo) && IsId(id)
    requires ip in ipTo ==> ipTo[ip] == id || ipTo[ip] !in nodes
    ensures NodesOk(nodes[id := CountOn(nodes, id, ip, host, isGroup, length, now)], ipTo[ip := id])
  {
    var counted := CountOn(nodes, id, ip, host, isGroup, length, now);
    assert forall k :: k in nodes && ip in nodes[k].ips ==> k == id;
    assert id in nodes ==> counted.ips == nodes[id].ips;
  }

  lemma RepointedIsOk(m: map<string, string>, newId: string, oldId: string)
    requires IpsOk(m) && IsId(newId)
    ensures IpsOk(Repointed(m, newId, oldId))
  {
  }

  lemma RepointedAnchorsAreOk(m: map<string, string>, sharedMacs: set<string>, newId: string, oldId: string)
    requires AnchorsOk(m, sharedMacs) && IsId(newId)
    ensures AnchorsOk(Repointed(m, newId, oldId), sharedMacs)
  {
  }

  lemma SettleKeepsWellFormed(g: GraphState, ip: string, host: string)
    requires WellFormed(g) && IsId(ip) && (host != "" ==> IsId(host))
    ensures WellFormed(Settle(g, ip, host))
    ensures ip in Settle(g, ip, host).ipTo ==> Settle(g, ip, host).ipTo[ip] == NodeFor(g, ip, host)
  {
    hide EdgesOk, NodesOk, AnchorsOk, MergeEdges, MergeNodes;
    var id := NodeFor(g, ip, host);
    NodeForIsId(g, ip, host);
    var g1 := if UsesHost(ip, host) && host !in g.hostTo then g.(hostTo := g.hostTo[host := host]) else g;
    if ip in g.ipTo && g.ipTo[ip] != id {
      MergeKeepsWellFormed(g1, id, g.ipTo[ip], host);
    }
  }

  lemma AddNodeKeepsWellFormed(g: GraphState, group: Labeller, ip: string, hostname: string, length: int, now: int)
    requires WellFormed(g) && IsId(ip)
      && (EffectiveHost(group, ip, hostname) != "" ==> IsId(EffectiveHost(group, ip, hostname)))
    ensures WellFormed(AddNode(g, group, ip, hostname, length, now))
  {
    hide EdgesOk, NodesOk, AnchorsOk, HostsOk, Settle, CountOn, NodeFor, Plain;
    var host := EffectiveHost(group, ip, hostname);
    var id := NodeFor(g, ip, host);
    NodeForIsId(g, ip, host);
    SettleKeepsWellFormed(g, ip, host);
    var g2 := Settle(g, ip, host);
    CountOnKeepsNodesOk(g2.nodes, g2.ipTo, id, ip, host, group(ip).Some?, length, now);
  }

  lemma NamedAfterKeepsNodesOk(nodes: map<string, NodeState>, ipTo: map<string, string>, id: string, mac: string,
                               host: string)
    requires NodesOk(nodes, ipTo)
    ensures NodesOk(NamedAfter(nodes, id, mac, host), ipTo)
  {
  }

  lemma NamesAreOk(hostTo: map<string, string>, nodeId: string, host: string, mac: string)
    requires HostsOk(hostTo) && IsId(mac)
    ensures HostsOk(Named(Unnamed(hostTo, nodeId), host, mac))
  {
  }

  lemma PromoteKeepsWellFormed(g: GraphState, group: Labeller, nodeId: string, mac: string)
    requires WellFormed(g) && IsId(nodeId) && IsId(mac)
    ensures WellFormed(Promote(g, group, nodeId, mac))
  {
    hide EdgesOk, NodesOk, IpsOk, HostsOk, MergeEdges, MergeNodes, Repointed, NamedAfter, PromotedName, Named, Unnamed,
         IsHostMac;
    if Promotable(g, nodeId, mac) {
      var host := PromotedName(group, g.nodes[nodeId], nodeId);
      MergeKeepsWellFormed(g, mac, nodeId, host);
      var merged := Merge(g, mac, nodeId, host);
      NamedAfterKeepsNodesOk(merged.nodes, merged.ipTo, mac, mac, host);
      NamesAreOk(merged.hostTo, nodeId, host, mac);
    }
  }

  lemma DemoteKeepsWellFormed(g: GraphState, group: Labeller, mac: string)
    requires WellFormed(g) && IsId(mac)
    ensures WellFormed(Demote(g, group, mac))
  {
    hide EdgesOk, HostsOk, AnchorsOk, MergeEdges, MergeNodes, Repointed, NamedAfter;
    if mac in g.nodes {
      var n := g.nodes[mac];
      var ip := FirstHost(group, n.ips);
      if ip != "" && ip != mac {
        FirstHostIsListed(group, n.ips);
        var host := if n.hostname == "" || n.hostname == mac then ip else n.hostname;
        MergeKeepsWellFormed(g, ip, mac, host);
        var merged := Merge(g, ip, mac, host);
        NamedAfterKeepsNodesOk(merged.nodes, merged.ipTo, ip, mac, host);
      }
    }
  }

  lemma NoteMacKeepsWellFormed(g: GraphState, nodeId: string, mac: string)
    requires WellFormed(g) && nodeId in g.nodes
    ensures WellFormed(NoteMac(g, nodeId, mac)) && IsId(nodeId)
  {
    hide EdgesOk, IpsOk, HostsOk, AnchorsOk, Plain;
    assert NoteMac(g, nodeId, mac).nodes[nodeId].ips == g.nodes[nodeId].ips;
  }

  lemma AnchoredKeepsWellFormed(g: GraphState, mac: string, nodeId: string)
    requires WellFormed(g) && IsId(nodeId) && mac !in g.sharedMacs
    ensures WellFormed(Anchored(g, mac, nodeId))
  {
    hide EdgesOk, IpsOk, HostsOk, NodesOk, Plain;
  }

  lemma SharedKeepsWellFormed(g: GraphState, mac: string)
    requires WellFormed(g)
    ensures WellFormed(Shared(g, mac))
    ensures mac in g.macTo ==> IsId(g.macTo[mac])
  {
  }

  lemma RecordMacKeepsWellFormed(g: GraphState, group: Labeller, nodeId: string, mac: string, now: int)
    requires WellFormed(g) && (IsHostMac(mac) ==> IsId(mac))
    ensures WellFormed(RecordMac(g, group, nodeId, mac, now))
  {
    hide EdgesOk, NodesOk, IpsOk, HostsOk, AnchorsOk, IsId, Promote, Demote, MergeEdges, MergeNodes, Repointed,
         IsHostMac;
    if nodeId != "" && IsHostMac(mac) && nodeId in g.nodes {
      var g1 := NoteMac(g, nodeId, mac);
      NoteMacKeepsWellFormed(g, nodeId, mac);
      if mac in g1.sharedMacs {
      } else if mac !in g1.macTo || (g1.macTo[mac] != nodeId && g1.macTo[mac] !in g1.nodes) {
        AnchoredKeepsWellFormed(g1, mac, nodeId);
        PromoteKeepsWellFormed(Anchored(g1, mac, nodeId), group, nodeId, mac);
      } else if g1.macTo[mac] == nodeId {
        PromoteKeepsWellFormed(g1, group, nodeId, mac);
      } else {
        SharedKeepsWellFormed(g1, mac);
        if now - g1.nodes[g1.macTo[mac]].lastSeen < MAC_ACTIVE_WINDOW {
          DemoteKeepsWellFormed(Shared(g1, mac), group, mac);
        } else {
          MergeKeepsWellFormed(g1, nodeId, g1.macTo[mac], g1.nodes[nodeId].hostname);
          var merged := Merge(g1, nodeId, g1.macTo[mac], g1.nodes[nodeId].hostname);
          AnchoredKeepsWellFormed(merged, mac, nodeId);
          PromoteKeepsWellFormed(Anchored(merged, mac, nodeId), group, nodeId, mac);
        }
      }
    }
  }

  lemma RecordMacOfKeepsWellFormed(g: GraphState, group: Labeller, ip: string, mac: string, now: int)
    requires WellFormed(g) && (IsHostMac(mac) ==> IsId(mac))
    ensures WellFormed(RecordMacOf(g, group, ip, mac, now))
  {
    hide WellFormed, RecordMac;
    if mac != "" && ip in g.ipTo {
      RecordMacKeepsWellFormed(g, group, g.ipTo[ip], mac, now);
    }
  }

  lemma LookupIsId(ipTo: map<string, string>, ip: string)
    requires IpsOk(ipTo) && IsId(ip)
    ensures IsId(Lookup(ipTo, ip))
  {
  }

  lemma CountEdgeIsOk(edges: map<string, EdgeState>, src: string, dst: string, protocol: Protocol, length: int,
                      now: int)
    requires EdgesOk(edges) && IsId(src) && IsId(dst)
    ensures EdgeOk(EdgeId(src, dst), CountEdge(edges, src, dst, protocol, length, now))
  {
    CanonicalOrder(src, dst);
  }

  lemma AddEdgeKeepsWellFormed(g: GraphState, srcIp: string, dstIp: string, protocol: Protocol, length: int, now: int)
    requires WellFormed(g) && IsId(srcIp) && IsId(dstIp)
    ensures WellFormed(AddEdge(g, srcIp, dstIp, protocol, length, now))
  {
    hide IpsOk, HostsOk, NodesOk, AnchorsOk, EdgeOk, CountEdge, IsId, EdgeId;
    LookupIsId(g.ipTo, srcIp);
    LookupIsId(g.ipTo, dstIp);
    CountEdgeIsOk(g.edges, Lookup(g.ipTo, srcIp), Lookup(g.ipTo, dstIp), protocol, length, now);
  }

  lemma IngestKeepsWellFormed(g: GraphState, group: Labeller, p: Packet, srcHost: string, dstHost: string, now: int)
    requires WellFormed(g) && PacketOk(group, p, srcHost, dstHost)
    ensures WellFormed(Ingested(g, group, p, srcHost, dstHost, now))
  {
    hide WellFormed, AddNode, RecordMacOf, AddEdge, IsId, IsHostMac, EffectiveHost;
    var g1 := AddNode(g, group, p.srcIp, srcHost, p.length, now);
    AddNodeKeepsWellFormed(g, group, p.srcIp, srcHost, p.length, now);
    var g2 := AddNode(g1, group, p.dstIp, dstHost, p.length, now);
    AddNodeKeepsWellFormed(g1, group, p.dstIp, dstHost, p.length, now);
    var g3 := RecordMacOf(g2, group, p.srcIp, p.srcMac, now);
    RecordMacOfKeepsWellFormed(g2, group, p.srcIp, p.srcMac, now);
    var g4 := RecordMacOf(g3, group, p.dstIp, p.dstMac, now);
    RecordMacOfKeepsWellFormed(g3, group, p.dstIp, p.dstMac, now);
    AddEdgeKeepsWellFormed(g4, p.srcIp, p.dstIp, p.protocol, p.length, now);
  }

  lemma DropEdgeKeepsWellFormed(g: GraphState, key: string)
    requires WellFormed(g)
    ensures WellFormed(DropEdge(g, key))
  {
  }

  lemma DropNodeKeepsWellFormed(g: GraphState, nodeId: string)
    requires WellFormed(g) && nodeId in g.nodes
    ensures WellFormed(DropNode(g, nodeId))
  {
    var n := g.nodes[nodeId];
    assert forall k, ip :: k in g.nodes && k != nodeId && ip in g.nodes[k].ips ==> ip !in n.ips;
  }

  lemma {:induction false} LoadCountersKeepsIdentity(nodes: map<string, NodeState>, ipTo: map<string, string>,
                                                     rows: seq<StoredNode>)
    ensures var r := LoadCounters(nodes, ipTo, rows);
      r.Keys == nodes.Keys && forall k :: k in nodes ==>
        r[k] == nodes[k].(packets := r[k].packets, bytes := r[k].bytes)
  {
    if rows != [] {
      LoadCountersKeepsIdentity(nodes, ipTo, rows[..|rows| - 1]);
    }
  }

  lemma LoadedEdgeIsOk(edges: map<string, EdgeState>, from: string, to: string, protocol: Protocol, stored: Volume,
                       now: int)
    requires EdgesOk(edges) && IsId(from) && IsId(to) && stored.Balanced()
    ensures EdgeOk(EdgeId(from, to), LoadedEdge(edges, from, to, protocol, stored, now))
  {
    CanonicalOrder(from, to);
  }

  lemma LoadEdgeKeepsEdgesOk(edges: map<string, EdgeState>, ipTo: map<string, string>, catalog: Catalog,
                             row: StoredEdge, now: int)
    requires EdgesOk(edges) && IpsOk(ipTo) && StoredEdgeOk(row)
    ensures EdgesOk(LoadEdge(edges, ipTo, catalog, row, now))
  {
    hide EdgeOk, LoadedEdge, EdgeId, Plain;
    LoadedEdgeIsOk(edges, Lookup(ipTo, row.from), Lookup(ipTo, row.to), catalog(row.protocol), row.volume, now);
  }

  lemma {:induction false} LoadEdgesKeepsEdgesOk(edges: map<string, EdgeState>, ipTo: map<string, string>,
                                                 catalog: Catalog,
                                                 rows: seq<StoredEdge>, now: int)
    requires EdgesOk(edges) && IpsOk(ipTo) && forall i :: 0 <= i < |rows| ==> StoredEdgeOk(rows[i])
    ensures EdgesOk(LoadEdges(edges, ipTo, catalog, rows, now))
  {
    hide EdgesOk, IpsOk, LoadEdge, StoredEdgeOk;
    if rows != [] {
      LoadEdgesKeepsEdgesOk(edges, ipTo, catalog, rows[..|rows| - 1], now);
      LoadEdgeKeepsEdgesOk(LoadEdges(edges, ipTo, catalog, rows[..|rows| - 1], now), ipTo, catalog, rows[|rows| - 1],
        now);
    }
  }

  lemma LoadedKeepsWellFormed(g: GraphState, group: Labeller, catalog: Catalog, rows: seq<StoredNode>,
                              edgeRows: seq<StoredEdge>, now: int)
    requires WellFormed(g) && forall i :: 0 <= i < |rows| ==> RowOk(group, rows[i])
    requires forall i :: 0 <= i < |edgeRows| ==> StoredEdgeOk(edgeRows[i])
    ensures WellFormed(Loaded(g, group, catalog, rows, edgeRows, now))
  {
    hide EdgesOk, IpsOk, HostsOk, AnchorsOk, LoadNodes, LoadCounters, LoadEdges, StoredEdgeOk;
    var loaded := LoadNodes(g, group, rows, now);
    LoadCountersKeepsIdentity(loaded.nodes, loaded.ipTo, rows);
    LoadEdgesKeepsEdgesOk(loaded.edges, loaded.ipTo, catalog, edgeRows, now);
  }
}
