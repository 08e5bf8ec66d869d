/** The last part of BuildView (graph/view.go): choosing nodes and edges, and handing the view to a client. */
module ViewAssembly {
  import opened GraphState
  import opened Ids
  import opened Views
  import opened ViewEdges
  import opened SubnetView
  import opened FoldedSubnets
  import opened ViewRuns
  import opened ViewSession
  import F = SubnetFold

  // ---- candidate edges ----

  /** Without aggregation: the edges that are not hidden, between two nodes shown, as they are. */
  function Unmerged(hidden: set<string>, kept: set<string>, edges: seq<RawEdge>): seq<ViewEdge> {
    if edges == [] then []
    else
      var past, e := Unmerged(hidden, kept, edges[..|edges| - 1]), edges[|edges| - 1];
      if IsHidden(hidden, e) || e.from !in kept || e.to !in kept then past
      else past + [ViewEdge(EdgeId(e.from, e.to), e.from, e.to, e.protocol, e.volume)]
  }

  /** The graph stores every edge once, under its canonical key. */
  ghost predicate StoredOnce(edges: seq<RawEdge>) {
    && (forall i :: 0 <= i < |edges| ==> edges[i].from == CanonFrom(edges[i].from, edges[i].to))
    && forall i, j :: 0 <= i < j < |edges| ==> EdgeId(edges[i].from, edges[i].to) != EdgeId(edges[j].from, edges[j].to)
  }

  ghost predicate Within(e: ViewEdge, kept: set<string>) { e.from in kept && e.to in kept }

  lemma {:induction false} UnmergedAre(hidden: set<string>, kept: set<string>, edges: seq<RawEdge>)
    ensures forall e :: e in Unmerged(hidden, kept, edges) ==>
      Within(e, kept) && exists i :: 0 <= i < |edges| && e.id == EdgeId(edges[i].from, edges[i].to)
  {
    hide EdgeId;
    if edges != [] {
      var past := edges[..|edges| - 1];
      UnmergedAre(hidden, kept, past);
      forall e | e in Unmerged(hidden, kept, edges)
        ensures Within(e, kept) && exists i :: 0 <= i < |edges| && e.id == EdgeId(edges[i].from, edges[i].to)
      {
        if e in Unmerged(hidden, kept, past) {
          var i :| 0 <= i < |past| && e.id == EdgeId(past[i].from, past[i].to);
          assert edges[i] == past[i];
        }
      }
    }
  }

  lemma {:induction false} UnmergedAreDistinct(hidden: set<string>, kept: set<string>, edges: seq<RawEdge>)
    requires StoredOnce(edges)
    ensures Distinct(EdgeKey, Unmerged(hidden, kept, edges))
  {
    hide EdgeId, CanonFrom;
    if edges != [] {
      UnmergedAreDistinct(hidden, kept, edges[..|edges| - 1]);
      UnmergedAre(hidden, kept, edges[..|edges| - 1]);
    }
  }

  /** Under aggregation: the merged edges, in some order. */
  ghost predicate ListsMerged(cands: seq<ViewEdge>, merged: map<string, Merged>) {
    && Distinct(EdgeKey, cands)
    && (forall i :: 0 <= i < |cands| ==> cands[i].id in merged && cands[i] == Drawn(cands[i].id, merged[cands[i].id]))
    && forall k :: k in merged ==> exists i :: 0 <= i < |cands| && cands[i].id == k
  }

  function Drawn(id: string, m: Merged): ViewEdge { ViewEdge(id, m.from, m.to, m.protocol, m.volume) }

  lemma ListsAreBetween(hidden: set<string>, remap: Remap, kept: set<string>, edges: seq<RawEdge>,
                        cands: seq<ViewEdge>, merged: map<string, Merged>)
    requires ListsMerged(cands, merged) && MergesTo(hidden, remap, kept, edges, merged)
    ensures forall e :: e in cands ==> Within(e, kept)
  {
    hide EdgeId, CanonFrom, CanonTo, TrafficBetween, KeysOf;
    forall e | e in cands ensures Within(e, kept) {
      assert MergedOk(hidden, remap, kept, edges, e.id, merged[e.id]);
    }
  }

  method ListMerged(merged: map<string, Merged>) returns (cands: seq<ViewEdge>)
    ensures ListsMerged(cands, merged)
  {
    cands := [];
    var todo := merged.Keys;
    while todo != {}
      invariant todo <= merged.Keys && Distinct(EdgeKey, cands)
      invariant forall i :: 0 <= i < |cands| ==>
        cands[i].id in merged && cands[i].id !in todo && cands[i] == Drawn(cands[i].id, merged[cands[i].id])
      invariant forall k :: k in merged && k !in todo ==> exists i :: 0 <= i < |cands| && cands[i].id == k
      decreases todo
    {
      var k :| k in todo;
      ghost var before := cands;
      todo, cands := todo - {k}, cands + [Drawn(k, merged[k])];
      forall id | id in merged && id !in todo ensures exists i :: 0 <= i < |cands| && cands[i].id == id {
        if id == k {
          assert cands[|before|].id == id;
        } else {
          var i :| 0 <= i < |before| && before[i].id == id;
          assert cands[i].id == id;
        }
      }
    }
  }

  /** The edges the view may show: merged under aggregation, else as the graph holds them. */
  method CandidateEdges(edges: seq<RawEdge>, hidden: set<string>, hostToSuper: Option<map<string, string>>,
                        kept: set<string>)
    returns (cands: seq<ViewEdge>, ghost merged: map<string, Merged>)
    requires (forall k :: k in kept ==> Plain(k)) && StoredOnce(edges)
    ensures Distinct(EdgeKey, cands) && forall e :: e in cands ==> Within(e, kept)
    ensures hostToSuper == None ==> cands == Unmerged(hidden, kept, edges)
    ensures hostToSuper.Some? ==>
      ListsMerged(cands, merged) && MergesTo(hidden, (id: string) => Remapped(hostToSuper, id), kept, edges, merged)
  {
    hide Plain, MergesTo, StoredOnce, Within, EdgeId;
    merged := map[];
    if hostToSuper == None {
      cands := [];
      for i := 0 to |edges|
        invariant cands == Unmerged(hidden, kept, edges[..i])
      {
        assert edges[..i + 1][..i] == edges[..i];
        var e := edges[i];
        if IsHidden(hidden, e) || e.from !in kept || e.to !in kept {
          continue;
        }
        cands := cands + [ViewEdge(EdgeId(e.from, e.to), e.from, e.to, e.protocol, e.volume)];
      }
      assert edges[..|edges|] == edges;
      UnmergedAre(hidden, kept, edges);
      UnmergedAreDistinct(hidden, kept, edges);
    } else {
      var all := ViewEdges.MergeEdges(edges, hidden, (id: string) => Remapped(hostToSuper, id), kept);
      merged := all;
      cands := ListMerged(all);
      ListsAreBetween(hidden, (id: string) => Remapped(hostToSuper, id), kept, edges, cands, all);
    }
  }

  // ---- the cap on edges ----

  /** Busier edges first, equally busy ones by their key. */
  predicate Precedes(a: ViewEdge, b: ViewEdge) {
    a.volume.packets > b.volume.packets || (a.volume.packets == b.volume.packets && Less(a.id, b.id))
  }

  ghost predicate Ranked(edges: seq<ViewEdge>) { forall i, j :: 0 <= i < j < |edges| ==> Precedes(edges[i], edges[j]) }

  lemma PrecedesIsTransitive(a: ViewEdge, b: ViewEdge, c: ViewEdge)
    requires Precedes(a, b) && Precedes(b, c)
    ensures Precedes(a, c)
  {
    hide Less;
    if a.volume.packets == b.volume.packets == c.volume.packets { LessIsTransitive(a.id, b.id, c.id); }
  }

  method InsertRanked(ranked: seq<ViewEdge>, e: ViewEdge) returns (r: seq<ViewEdge>)
    requires Ranked(ranked) && forall i :: 0 <= i < |ranked| ==> ranked[i].id != e.id
    ensures Ranked(r) && multiset(r) == multiset(ranked) + multiset{e} && |r| == |ranked| + 1
    ensures Distinct(EdgeKey, ranked) ==> Distinct(EdgeKey, r)
  {
    var k := 0;
    while k < |ranked| && Precedes(ranked[k], e)
      invariant k <= |ranked| && forall i :: 0 <= i < k ==> Precedes(ranked[i], e)
    {
      k := k + 1;
    }
    hide Less;
    forall i | k <= i < |ranked| ensures Precedes(e, ranked[i]) {
      LessIsTotal(ranked[k].id, e.id);
      if i > k { PrecedesIsTransitive(e, ranked[k], ranked[i]); }
    }
    r := ranked[..k] + [e] + ranked[k..];
    SplicedRanks(ranked, k, e);
    SplicedOnce(ranked, k, e);
    hide Ranked, Distinct;
    assert ranked == ranked[..k] + ranked[k..];
  }

  lemma SplicedRanks(ranked: seq<ViewEdge>, k: nat, e: ViewEdge)
    requires k <= |ranked| && Ranked(ranked)
    requires (forall i :: 0 <= i < k ==> Precedes(ranked[i], e)) && forall i :: k <= i < |ranked| ==>
      Precedes(e, ranked[i])
    ensures Ranked(ranked[..k] + [e] + ranked[k..])
  {
    hide Precedes;
  }

  lemma SplicedOnce(ranked: seq<ViewEdge>, k: nat, e: ViewEdge)
    requires k <= |ranked| && forall i :: 0 <= i < |ranked| ==> ranked[i].id != e.id
    ensures Distinct(EdgeKey, ranked) ==> Distinct(EdgeKey, ranked[..k] + [e] + ranked[k..])
  {
  }

  method RankEdges(cands: seq<ViewEdge>) returns (ranked: seq<ViewEdge>)
    requires Distinct(EdgeKey, cands)
    ensures Ranked(ranked) && multiset(ranked) == multiset(cands) && |ranked| == |cands| && Distinct(EdgeKey, ranked)
  {
    hide Ranked;
    ranked := [];
    assert Ranked(ranked) by { NothingIsRanked(); }
    for i := 0 to |cands|
      invariant Ranked(ranked) && multiset(ranked) == multiset(cands[..i]) && |ranked| == i && Distinct(EdgeKey, ranked)
    {
      forall j | 0 <= j < |ranked| ensures ranked[j].id != cands[i].id {
        assert ranked[j] in multiset(cands[..i]);
        var k :| 0 <= k < i && cands[k] == ranked[j];
        assert EdgeKey(cands[k]) != EdgeKey(cands[i]);
      }
      assert cands[..i + 1] == cands[..i] + [cands[i]];
      ranked := InsertRanked(ranked, cands[i]);
    }
    assert cands[..|cands|] == cands;
  }

  lemma NothingIsRanked()
    ensures Ranked([])
  {
  }

  /** At most `max` of the candidates, in rank order, and every one left out ranks behind every one shown. */
  ghost predicate Foremost(cands: seq<ViewEdge>, max: nat, top: seq<ViewEdge>) {
    && Ranked(top) && |top| == (if |cands| > max then max else |cands|) && (forall e :: e in top ==> e in cands)
    && forall e, f :: e in top && f in cands && f !in top ==> Precedes(e, f)
  }

  method TopEdges(cands: seq<ViewEdge>, max: nat) returns (top: seq<ViewEdge>)
    requires Distinct(EdgeKey, cands)
    ensures Foremost(cands, max, top) && Distinct(EdgeKey, top)
  {
    var ranked := RankEdges(cands);
    top := if |ranked| > max then ranked[..max] else ranked;
    hide Precedes;
    forall e | e in top ensures e in cands {
      assert e in ranked;
      assert e in multiset(cands);
    }
    forall e, f | e in top && f in cands && f !in top ensures Precedes(e, f) {
      assert f in multiset(ranked);
      var i, j :| 0 <= i < |top| && top[i] == e && 0 <= j < |ranked| && ranked[j] == f;
      assert ranked[i] == e && j >= |top|;
    }
  }

  // ---- the nodes chosen are distinct ----

  ghost predicate NoTwice(ids: seq<string>) { forall i, j :: 0 <= i < j < |ids| ==> ids[i] != ids[j] }

  lemma {:induction false} ProtectedOnce(ranked: seq<string>, protect: set<string>)
    requires NoTwice(ranked)
    ensures NoTwice(Protected(ranked, protect))
  {
    if ranked != [] {
      ProtectedOnce(ranked[..|ranked| - 1], protect);
      ProtectedAre(ranked[..|ranked| - 1], protect);
    }
  }

  lemma {:induction false} OthersOnce(ranked: seq<string>, protect: set<string>)
    requires NoTwice(ranked)
    ensures NoTwice(Others(ranked, protect)) && forall x :: x in Others(ranked, protect) ==>
      x in ranked && x !in protect
  {
    if ranked != [] {
      OthersOnce(ranked[..|ranked| - 1], protect);
      assert ranked == ranked[..|ranked| - 1] + [ranked[|ranked| - 1]];
    }
  }

  lemma ChosenOnce(ranked: seq<string>, protect: set<string>, max: nat, out: seq<string>)
    requires NoTwice(ranked) && (out == ranked || Chosen(ranked, protect, max, out))
    ensures NoTwice(out) && forall x :: x in out ==> x in ranked
  {
    if out != ranked && 0 < |Protected(ranked, protect)| < max {
      var n :| 0 <= n <= |ranked| && out == Protected(ranked, protect) + Others(ranked[..n], protect);
      ProtectedOnce(ranked, protect);
      ProtectedAre(ranked, protect);
      OthersOnce(ranked[..n], protect);
      var first, rest := Protected(ranked, protect), Others(ranked[..n], protect);
      forall i, j | 0 <= i < |first| && 0 <= j < |rest| ensures first[i] != rest[j] {
        assert first[i] in first && rest[j] in rest;
      }
    }
  }

  // ---- the view ----

  /** Styling may do anything to a node but rename it. */
  type Style = string -> ViewNode

  ghost predicate KeepsIds(style: Style) { forall id :: style(id).id == id }

  method StyleNodes(ids: seq<string>, style: Style) returns (nodes: seq<ViewNode>)
    requires KeepsIds(style) && NoTwice(ids)
    ensures |nodes| == |ids| && (forall i :: 0 <= i < |ids| ==> nodes[i] == style(ids[i]))
    ensures Distinct(NodeKey, nodes) && forall x :: x in ids ==> x in Keys(NodeKey, nodes)
  {
    nodes := [];
    for i := 0 to |ids|
      invariant |nodes| == i && forall j :: 0 <= j < i ==> nodes[j] == style(ids[j])
    {
      nodes := nodes + [style(ids[i])];
    }
    forall x | x in ids ensures x in Keys(NodeKey, nodes) {
      var i :| 0 <= i < |ids| && ids[i] == x;
      assert NodeKey(nodes[i]) == x;
    }
  }

  /** The nodes chosen and styled, and the foremost edges between them: a view fit to be sent. */
  method AssembleView(ranked: seq<string>, protect: set<string>, maxNodes: nat, edges: seq<RawEdge>,
                      hidden: set<string>, hostToSuper: Option<map<string, string>>, maxEdges: nat, style: Style)
    returns (v: View, ghost out: seq<string>, ghost cands: seq<ViewEdge>, ghost merged: map<string, Merged>)
    requires NoTwice(ranked) && (forall k :: k in ranked ==> Plain(k)) && StoredOnce(edges) && KeepsIds(style)
    ensures WellShaped(v)
    ensures |v.nodes| == |out| && forall i :: 0 <= i < |out| ==> v.nodes[i] == style(out[i])
    ensures if |ranked| <= maxNodes then out == ranked else |out| == maxNodes && Chosen(ranked, protect, maxNodes, out)
    ensures hostToSuper == None ==> cands == Unmerged(hidden, SetOf(out), edges)
    ensures hostToSuper.Some? ==>
      && ListsMerged(cands, merged)
      && MergesTo(hidden, (id: string) => Remapped(hostToSuper, id), SetOf(out), edges, merged)
    ensures Foremost(cands, maxEdges, v.edges)
  {
    hide Chosen, Plain, StoredOnce, MergesTo, ListsMerged, KeepsIds, Distinct, Keys, Ranked;
    var ids := SelectNodes(ranked, protect, maxNodes);
    out := ids;
    ChosenOnce(ranked, protect, maxNodes, ids);
    var nodes := StyleNodes(ids, style);
    var es;
    es, merged := CandidateEdges(edges, hidden, hostToSuper, SetOf(ids));
    cands := es;
    var top := TopEdges(es, maxEdges);
    v := View(nodes, top);
    forall i | 0 <= i < |top|
      ensures top[i].from in Keys(NodeKey, nodes) && top[i].to in Keys(NodeKey, nodes)
    {
      assert top[i] in es && Within(top[i], SetOf(ids));
    }
  }

  function SetOf(ids: seq<string>): set<string> { set x | x in ids }

  // ---- both halves together ----

  /** Ranking lists some of the nodes, each once. */
  type Ranking = seq<F.Node> -> seq<string>

  ghost predicate RanksNodes(rank: Ranking) {
    forall nodes :: F.DistinctIds(nodes) ==> NoTwice(rank(nodes)) && forall k :: k in rank(nodes) ==>
      k in F.IdsOf(nodes)
  }

  /** From the graph's hosts and edges to the page: aggregate, choose, merge, cut, and one tick of a session. */
  method ServeView(session: Session, hosts: seq<F.Node>, visible: map<string, int>, edges: seq<RawEdge>,
                   hidden: set<string>, o: F.Opened, overrides: set<string>, threshold: int, far: bool,
                   wasAggregated: bool, rank: Ranking, protect: set<string>, maxNodes: nat, maxEdges: nat, style: Style,
                   flows: seq<Flow>, full: bool, now: int)
    returns (ghost t: ViewRuns.Tick, ghost kept: seq<F.Node>, ghost remap: Option<map<string, string>>,
             ghost first: F.Books, ghost mid: seq<F.Node>, ghost b: F.Books)
    requires F.DistinctIds(hosts) && (forall id :: id in visible ==> !F.HasSlash(id))
    requires forall i :: 0 <= i < |hosts| ==>
      !F.HasSlash(hosts[i].id) && Plain(hosts[i].id) && NoAngle(hosts[i].subnet)
    requires StoredOnce(edges) && KeepsIds(style) && RanksNodes(rank)
    modifies session, session.client, session.page
    ensures Sends(session.client.q, old(session.State()), t)
    ensures session.State() == Next(session.client.q, session.page.sigs, old(session.State()), t)
    ensures WellShaped(t.view) && t.full == full
    ensures Aggregation(o, |hidden| > 0, visible, hosts, overrides, threshold, far, wasAggregated, first, mid, b, kept,
      remap)
    ensures NoneLeft(o, hosts, overrides, threshold, far, wasAggregated, remap, kept)
    ensures forall n :: n in t.view.nodes ==> exists k :: k in kept && k.id == n.id
  {
    hide *;
    var nodes, hostToSuper, books, active;
    nodes, hostToSuper, books, active, first, mid :=
      Aggregate(hosts, visible, o, |hidden| > 0, overrides, threshold, far, wasAggregated);
    kept, remap, b := nodes, hostToSuper, books;
    var ranked := rank(nodes);
    RankedIsPlain(books, nodes, rank);
    var view, out, cands, merged :=
      AssembleView(ranked, protect, maxNodes, edges, hidden, hostToSuper, maxEdges, style);
    ShownAreKept(view, out, ranked, protect, maxNodes, style, kept);
    t := session.Tick(view, flows, full, now);
  }

  lemma RankedIsPlain(b: F.Books, kept: seq<F.Node>, rank: Ranking)
    requires RanksNodes(rank) && F.DistinctIds(kept) && Clean(b, kept)
    ensures NoTwice(rank(kept)) && forall k :: k in rank(kept) ==> Plain(k)
    ensures forall k :: k in rank(kept) ==> exists n :: n in kept && n.id == k
  {
    hide Clean, Plain, NoTwice, F.DistinctIds;
    CleanIds(b, kept);
    forall k | k in rank(kept) ensures exists n :: n in kept && n.id == k {
      var i :| 0 <= i < |kept| && kept[i].id == k;
      assert kept[i] in kept;
    }
  }

  lemma ShownAreKept(v: View, out: seq<string>, ranked: seq<string>, protect: set<string>, max: nat, style: Style,
                     kept: seq<F.Node>)
    requires KeepsIds(style) && NoTwice(ranked) && (forall k :: k in ranked ==> exists n :: n in kept && n.id == k)
    requires |v.nodes| == |out| && forall i :: 0 <= i < |out| ==> v.nodes[i] == style(out[i])
    requires if |ranked| <= max then out == ranked else |out| == max && Chosen(ranked, protect, max, out)
    ensures forall n :: n in v.nodes ==> exists k :: k in kept && k.id == n.id
  {
    ChosenOnce(ranked, protect, max, out);
    hide Chosen, NoTwice;
    forall n | n in v.nodes ensures exists k :: k in kept && k.id == n.id {
      var i :| 0 <= i < |v.nodes| && v.nodes[i] == n;
      assert out[i] in out;
    }
  }
}
