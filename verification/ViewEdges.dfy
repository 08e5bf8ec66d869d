/** The edges and the nodes a view shows (graph/view.go BuildView): merging under aggregation, and the cap on nodes. */
module ViewEdges {
  import opened GraphState
  import opened Ids
  import opened VolumeSums
  import opened SubnetView
  import opened FoldedSubnets
  import F = SubnetFold

  datatype RawEdge = RawEdge(from: string, to: string, protocol: Protocol, volume: Volume)

  datatype Merged = Merged(from: string, to: string, protocol: Protocol, volume: Volume)

  /** Where traffic goes once hosts are remapped. */
  type Remap = string -> string

  predicate IsHidden(hidden: set<string>, e: RawEdge) { e.protocol.name in hidden }

  /** Does this edge run between these two shown nodes, either way? */
  predicate Joins(remap: Remap, a: string, b: string, e: RawEdge) {
    (remap(e.from) == a && remap(e.to) == b) || (remap(e.from) == b && remap(e.to) == a)
  }

  /** What an edge adds to the traffic from group `a` to group `b`: what members of `a` sent counts as forward. */
  function Share(hidden: set<string>, remap: Remap, a: string, b: string, e: RawEdge): Volume {
    if IsHidden(hidden, e) then NOTHING
    else if remap(e.from) == a && remap(e.to) == b then e.volume
    else if remap(e.from) == b && remap(e.to) == a then e.volume.Reversed()
    else NOTHING
  }

  function TrafficBetween(hidden: set<string>, remap: Remap, a: string, b: string, edges: seq<RawEdge>): Volume {
    if edges == [] then NOTHING
    else TrafficBetween(hidden, remap, a, b, edges[..|edges| - 1]).Plus(Share(hidden, remap, a, b, edges[|edges| - 1]))
  }

  /** An edge the aggregated view shows: not hidden, between two different shown nodes. */
  predicate IsShown(hidden: set<string>, remap: Remap, kept: set<string>, e: RawEdge) {
    !IsHidden(hidden, e) && remap(e.from) != remap(e.to) && remap(e.from) in kept && remap(e.to) in kept
  }

  function KeyOf(remap: Remap, e: RawEdge): string { EdgeId(remap(e.from), remap(e.to)) }

  /** The keys of the edges shown. */
  function KeysOf(hidden: set<string>, remap: Remap, kept: set<string>, edges: seq<RawEdge>): set<string> {
    if edges == [] then {}
    else
      var past, e := KeysOf(hidden, remap, kept, edges[..|edges| - 1]), edges[|edges| - 1];
      if IsShown(hidden, remap, kept, e) then past + {KeyOf(remap, e)} else past
  }

  /** A merged edge: canonical, between two shown nodes, with the traffic sent each way. */
  ghost predicate MergedOk(hidden: set<string>, remap: Remap, kept: set<string>, edges: seq<RawEdge>, key: string,
                           m: Merged) {
    && m.from in kept && m.to in kept && m.from != m.to
    && key == EdgeId(m.from, m.to) && m.from == CanonFrom(m.from, m.to) && m.to == CanonTo(m.from, m.to)
    && m.volume == TrafficBetween(hidden, remap, m.from, m.to, edges)
  }

  /** The protocol is a busiest contributor's, which carried `most` packets. */
  ghost predicate ProtocolOk(hidden: set<string>, remap: Remap, edges: seq<RawEdge>, m: Merged, most: int) {
    && (exists i :: Picks(hidden, remap, edges, m, most, i))
    && most >= 0 && forall j :: Contributes(hidden, remap, edges, m, j) ==> edges[j].volume.packets <= most
  }

  predicate Picks(hidden: set<string>, remap: Remap, edges: seq<RawEdge>, m: Merged, most: int, i: int) {
    Contributes(hidden, remap, edges, m, i) && edges[i].protocol == m.protocol
      && (most > 0 ==> edges[i].volume.packets == most)
  }

  predicate Contributes(hidden: set<string>, remap: Remap, edges: seq<RawEdge>, m: Merged, i: int) {
    0 <= i < |edges| && !IsHidden(hidden, edges[i]) && Joins(remap, m.from, m.to, edges[i])
  }

  ghost predicate MergesTo(hidden: set<string>, remap: Remap, kept: set<string>, edges: seq<RawEdge>,
                           merged: map<string, Merged>) {
    && merged.Keys == KeysOf(hidden, remap, kept, edges)
    && forall k {:trigger k in merged} :: k in merged ==> MergedOk(hidden, remap, kept, edges, k, merged[k])
  }

  // ---- one more edge ----

  function Added(m: Merged, remap: Remap, e: RawEdge): Merged {
    m.(volume := m.volume.Plus(if remap(e.from) == m.from then e.volume else e.volume.Reversed()))
  }

  function Started(remap: Remap, e: RawEdge): Merged {
    Merged(CanonFrom(remap(e.from), remap(e.to)), CanonTo(remap(e.from), remap(e.to)), e.protocol, NOTHING)
  }

  lemma NothingBetween(hidden: set<string>, remap: Remap, kept: set<string>, edges: seq<RawEdge>, a: string, b: string)
    requires (forall k :: k in kept ==> Plain(k)) && a in kept && b in kept && a != b
    requires EdgeId(a, b) !in KeysOf(hidden, remap, kept, edges)
    ensures TrafficBetween(hidden, remap, a, b, edges) == NOTHING
  {
    hide EdgeId, Plain, Volume.Plus;
    PlusLaws(NOTHING, NOTHING, NOTHING);
    if edges != [] {
      var past, e := edges[..|edges| - 1], edges[|edges| - 1];
      NothingBetween(hidden, remap, kept, past, a, b);
      KeyIsPair(remap, e, a, b);
    }
  }

  lemma KeyIsPair(remap: Remap, e: RawEdge, a: string, b: string)
    ensures Joins(remap, a, b, e) ==> KeyOf(remap, e) == EdgeId(a, b)
  {
    CanonicalOrder(a, b);
  }

  lemma PairIsKey(remap: Remap, kept: set<string>, e: RawEdge, a: string, b: string)
    requires (forall k :: k in kept ==> Plain(k)) && a in kept && b in kept && remap(e.from) in kept
      && remap(e.to) in kept
    requires KeyOf(remap, e) == EdgeId(a, b)
    ensures Joins(remap, a, b, e)
  {
    EdgeIdIsInjective(remap(e.from), remap(e.to), a, b);
  }

  /** An edge merged into its pair. */
  lemma EdgeJoins(hidden: set<string>, remap: Remap, kept: set<string>, edges: seq<RawEdge>, e: RawEdge, m: Merged)
    requires (forall k :: k in kept ==> Plain(k)) && IsShown(hidden, remap, kept, e)
      && KeyOf(remap, e) == EdgeId(m.from, m.to)
    requires MergedOk(hidden, remap, kept, edges, EdgeId(m.from, m.to), m)
    ensures MergedOk(hidden, remap, kept, edges + [e], EdgeId(m.from, m.to), Added(m, remap, e))
  {
    hide EdgeId, CanonFrom, CanonTo, Plain, Volume.Plus;
    assert (edges + [e])[..|edges|] == edges;
    PairIsKey(remap, kept, e, m.from, m.to);
  }

  /** An edge that is hidden, or runs elsewhere, leaves a pair alone. */
  lemma EdgeElsewhere(hidden: set<string>, remap: Remap, kept: set<string>, edges: seq<RawEdge>, e: RawEdge,
                      key: string, m: Merged)
    requires MergedOk(hidden, remap, kept, edges, key, m)
      && !(IsShown(hidden, remap, kept, e) && KeyOf(remap, e) == key)
    ensures MergedOk(hidden, remap, kept, edges + [e], key, m)
  {
    hide EdgeId, CanonFrom, CanonTo, Volume.Plus;
    assert (edges + [e])[..|edges|] == edges;
    KeyIsPair(remap, e, m.from, m.to);
    PlusLaws(m.volume, NOTHING, NOTHING);
  }

  lemma FirstOfPair(hidden: set<string>, remap: Remap, kept: set<string>, edges: seq<RawEdge>, e: RawEdge)
    requires (forall k :: k in kept ==> Plain(k)) && IsShown(hidden, remap, kept, e)
      && KeyOf(remap, e) !in KeysOf(hidden, remap, kept, edges)
    ensures MergedOk(hidden, remap, kept, edges, KeyOf(remap, e), Started(remap, e))
  {
    hide Plain, KeysOf, TrafficBetween;
    CanonicalOrder(remap(e.from), remap(e.to));
    NothingBetween(hidden, remap, kept, edges, CanonFrom(remap(e.from), remap(e.to)),
      CanonTo(remap(e.from), remap(e.to)));
  }

  function Most(most: map<string, int>, key: string): int { if key in most then most[key] else 0 }

  function Named(m: Merged, most: int, e: RawEdge): (Merged, int) {
    if e.volume.packets > most then (m.(protocol := e.protocol), e.volume.packets) else (m, most)
  }

  lemma ProtocolElsewhere(hidden: set<string>, remap: Remap, edges: seq<RawEdge>, e: RawEdge, m: Merged, most: int)
    requires ProtocolOk(hidden, remap, edges, m, most) && (IsHidden(hidden, e) || !Joins(remap, m.from, m.to, e))
    ensures ProtocolOk(hidden, remap, edges + [e], m, most)
  {
    hide Joins;
    var i :| Picks(hidden, remap, edges, m, most, i);
    assert Picks(hidden, remap, edges + [e], m, most, i);
    forall j | Contributes(hidden, remap, edges + [e], m, j) ensures (edges + [e])[j].volume.packets <= most {
      assert Contributes(hidden, remap, edges, m, j);
    }
  }

  lemma ProtocolJoins(hidden: set<string>, remap: Remap, edges: seq<RawEdge>, e: RawEdge, m: Merged, most: int)
    requires ProtocolOk(hidden, remap, edges, m, most) && !IsHidden(hidden, e) && Joins(remap, m.from, m.to, e)
    ensures var (m1, most1) := Named(Added(m, remap, e), most, e); ProtocolOk(hidden, remap, edges + [e], m1, most1)
  {
    hide Joins;
    var (m1, most1) := Named(Added(m, remap, e), most, e);
    var i :| Picks(hidden, remap, edges, m, most, i);
    assert Picks(hidden, remap, edges + [e], m1, most1, if e.volume.packets > most then |edges| else i);
    forall j | Contributes(hidden, remap, edges + [e], m1, j) ensures (edges + [e])[j].volume.packets <= most1 {
      if j < |edges| { assert Contributes(hidden, remap, edges, m, j); }
    }
  }

  /** Nothing has contributed to a pair whose key has not been seen. */
  lemma {:induction false} NoContributor(hidden: set<string>, remap: Remap, kept: set<string>, edges: seq<RawEdge>,
                                         m: Merged, j: int)
    requires m.from in kept && m.to in kept && m.from != m.to
      && EdgeId(m.from, m.to) !in KeysOf(hidden, remap, kept, edges)
    ensures !Contributes(hidden, remap, edges, m, j)
  {
    hide EdgeId;
    if edges != [] {
      var past, e := edges[..|edges| - 1], edges[|edges| - 1];
      NoContributor(hidden, remap, kept, past, m, j);
      KeyIsPair(remap, e, m.from, m.to);
    }
  }

  lemma ProtocolStarts(hidden: set<string>, remap: Remap, kept: set<string>, edges: seq<RawEdge>, e: RawEdge, m: Merged)
    requires m.from in kept && m.to in kept && m.from != m.to
      && EdgeId(m.from, m.to) !in KeysOf(hidden, remap, kept, edges)
    requires !IsHidden(hidden, e) && Joins(remap, m.from, m.to, e) && m.protocol == e.protocol
    ensures var (m1, most1) := Named(Added(m, remap, e), 0, e); ProtocolOk(hidden, remap, edges + [e], m1, most1)
  {
    hide Joins, EdgeId, KeysOf;
    var (m1, most1) := Named(Added(m, remap, e), 0, e);
    assert Picks(hidden, remap, edges + [e], m1, most1, |edges|);
    forall j | Contributes(hidden, remap, edges + [e], m1, j) ensures (edges + [e])[j].volume.packets <= most1 {
      NoContributor(hidden, remap, kept, edges, m1, j);
    }
  }

  // ---- totals ----

  function TotalsOf(v: Volume): Volume { Volume(v.packets, v.bytes, 0, 0, 0, 0) }

  function MergedTotals(merged: map<string, Merged>): map<string, Volume> {
    map k | k in merged :: TotalsOf(merged[k].volume)
  }

  /** The packets and bytes of the edges shown. */
  function ShownTotal(hidden: set<string>, remap: Remap, kept: set<string>, edges: seq<RawEdge>): Volume {
    if edges == [] then NOTHING
    else
      var past, e := ShownTotal(hidden, remap, kept, edges[..|edges| - 1]), edges[|edges| - 1];
      if IsShown(hidden, remap, kept, e) then past.Plus(TotalsOf(e.volume)) else past
  }

  lemma TotalsGrow(merged: map<string, Merged>, key: string, m: Merged, before: Volume, e: RawEdge)
    requires before == (if key in merged then merged[key].volume else NOTHING)
    requires m.volume == before.Plus(e.volume) || m.volume == before.Plus(e.volume.Reversed())
    ensures Gathered(MergedTotals(merged[key := m])) == Gathered(MergedTotals(merged)).Plus(TotalsOf(e.volume))
  {
    var totals := MergedTotals(merged);
    assert MergedTotals(merged[key := m]) == totals[key := TotalsOf(m.volume)];
    GatheredPut(totals, key, TotalsOf(m.volume));
    if key in merged {
      GatheredRemove(totals, key);
    } else {
      assert totals - {key} == totals;
    }
    hide Gathered;
    assert TotalsOf(m.volume) == TotalsOf(before).Plus(TotalsOf(e.volume));
  }

  /** Edges landing on the same pair of shown nodes merge; what happens inside one supernode disappears. Each merged
      edge carries what members of each end sent to the other, and together they carry all packets and bytes of
      the edges shown. */
  method MergeEdges(edges: seq<RawEdge>, hidden: set<string>, remap: Remap, kept: set<string>)
    returns (merged: map<string, Merged>)
    requires forall k :: k in kept ==> Plain(k)
    ensures MergesTo(hidden, remap, kept, edges, merged)
    ensures Gathered(MergedTotals(merged)) == ShownTotal(hidden, remap, kept, edges)
    ensures forall k :: k in merged ==> exists most :: ProtocolOk(hidden, remap, edges, merged[k], most)
  {
    hide MergedOk, ProtocolOk, Plain, EdgeId, CanonFrom, CanonTo, Volume.Plus, Gathered, MergedTotals, Joins;
    merged := map[];
    var most: map<string, int> := map[];
    assert MergedTotals(merged) == map[] && Gathered(MergedTotals(merged)) == NOTHING by { NoTotals(); }
    for i := 0 to |edges|
      invariant MergesTo(hidden, remap, kept, edges[..i], merged)
      invariant forall k {:trigger k in merged} :: k in merged ==>
        ProtocolOk(hidden, remap, edges[..i], merged[k], Most(most, k))
      invariant most.Keys <= merged.Keys
        && Gathered(MergedTotals(merged)) == ShownTotal(hidden, remap, kept, edges[..i])
    {
      var e := edges[i];
      ghost var past := edges[..i];
      assert edges[..i + 1] == past + [e] && (past + [e])[..i] == past;
      forall k | k in merged && !(IsShown(hidden, remap, kept, e) && KeyOf(remap, e) == k)
        ensures MergedOk(hidden, remap, kept, past + [e], k, merged[k])
          && ProtocolOk(hidden, remap, past + [e], merged[k], Most(most, k))
      {
        EdgeElsewhere(hidden, remap, kept, past, e, k, merged[k]);
        NotJoined(hidden, remap, kept, past, e, k, merged[k]);
        ProtocolElsewhere(hidden, remap, past, e, merged[k], Most(most, k));
      }
      if IsHidden(hidden, e) {
        continue;
      }
      var f, t := remap(e.from), remap(e.to);
      if f == t || f !in kept || t !in kept {
        continue;
      }
      var id := EdgeId(f, t);
      var m := if id in merged then merged[id] else Started(remap, e);
      if id !in merged {
        FirstOfPair(hidden, remap, kept, past, e);
      }
      MergedParts(hidden, remap, kept, past, id, m);
      EdgeJoins(hidden, remap, kept, past, e, m);
      PairIsKey(remap, kept, e, m.from, m.to);
      if id in merged {
        ProtocolJoins(hidden, remap, past, e, m, Most(most, id));
      } else {
        ProtocolStarts(hidden, remap, kept, past, e, m);
      }
      TotalsGrow(merged, id, Added(m, remap, e), m.volume, e);
      var (m1, most1) := Named(Added(m, remap, e), Most(most, id), e);
      SameTotals(merged, id, Added(m, remap, e), m1);
      SameMerged(hidden, remap, kept, past + [e], id, Added(m, remap, e), m1);
      merged, most := merged[id := m1], most[id := most1];
    }
    assert edges[..|edges|] == edges;
    forall k | k in merged ensures exists most :: ProtocolOk(hidden, remap, edges, merged[k], most) {
      assert ProtocolOk(hidden, remap, edges, merged[k], Most(most, k));
    }
  }

  lemma NoTotals()
    ensures MergedTotals(map[]) == map[] && Gathered<string>(map[]) == NOTHING
  {
  }

  lemma NotJoined(hidden: set<string>, remap: Remap, kept: set<string>, edges: seq<RawEdge>, e: RawEdge, key: string,
                  m: Merged)
    requires MergedOk(hidden, remap, kept, edges, key, m)
      && !(IsShown(hidden, remap, kept, e) && KeyOf(remap, e) == key)
    ensures IsHidden(hidden, e) || !Joins(remap, m.from, m.to, e)
  {
    hide EdgeId, TrafficBetween;
    KeyIsPair(remap, e, m.from, m.to);
  }

  lemma SameTotals(merged: map<string, Merged>, key: string, m: Merged, m1: Merged)
    requires m1.volume == m.volume
    ensures MergedTotals(merged[key := m1]) == MergedTotals(merged[key := m])
  {
  }

  lemma SameMerged(hidden: set<string>, remap: Remap, kept: set<string>, edges: seq<RawEdge>, key: string, m: Merged,
                   m1: Merged)
    requires MergedOk(hidden, remap, kept, edges, EdgeId(m.from, m.to), m) && key == EdgeId(m.from, m.to)
      && m1.(protocol := m.protocol) == m
    ensures MergedOk(hidden, remap, kept, edges, key, m1)
  {
  }

  lemma MergedParts(hidden: set<string>, remap: Remap, kept: set<string>, edges: seq<RawEdge>, key: string, m: Merged)
    requires MergedOk(hidden, remap, kept, edges, key, m)
    ensures key == EdgeId(m.from, m.to) && m.from in kept && m.to in kept && m.from != m.to
  {
  }

  // ---- under aggregation ----

  /** Every edge between two of these hosts that is not hidden, unless both stand for the same node. */
  predicate Crosses(hidden: set<string>, remap: Remap, e: RawEdge) {
    !IsHidden(hidden, e) && remap(e.from) != remap(e.to)
  }

  function CrossingTotal(hidden: set<string>, remap: Remap, edges: seq<RawEdge>): Volume {
    if edges == [] then NOTHING
    else
      var past, e := CrossingTotal(hidden, remap, edges[..|edges| - 1]), edges[|edges| - 1];
      if Crosses(hidden, remap, e) then past.Plus(TotalsOf(e.volume)) else past
  }

  lemma {:induction false} AllCrossingShown(hidden: set<string>, remap: Remap, kept: set<string>, edges: seq<RawEdge>)
    requires forall i :: 0 <= i < |edges| ==> remap(edges[i].from) in kept && remap(edges[i].to) in kept
    ensures ShownTotal(hidden, remap, kept, edges) == CrossingTotal(hidden, remap, edges)
  {
    hide Volume.Plus;
    if edges != [] { AllCrossingShown(hidden, remap, kept, edges[..|edges| - 1]); }
  }

  lemma {:induction false} LiveIsRemapped(hosts: seq<F.Node>, hostToSuper: Option<map<string, string>>,
                                          after: seq<F.Node>, id: string)
    requires Represented(hosts, hostToSuper, after) && id in F.IdsOf(hosts)
    ensures Remapped(hostToSuper, id) in F.IdsOf(after)
  {
  }

  /** Aggregation and merging together: the nodes shown stand for all hosts, and the merged edges carry exactly the
      traffic between hosts that no single supernode contains. */
  method AggregatedView(hosts: seq<F.Node>, visible: map<string, int>, edges: seq<RawEdge>, hidden: set<string>,
                        o: F.Opened,
                        overrides: set<string>, threshold: int, far: bool, wasAggregated: bool)
    returns (kept: seq<F.Node>, hostToSuper: Option<map<string, string>>, merged: map<string, Merged>, ghost b: F.Books,
             ghost first: F.Books, ghost mid: seq<F.Node>)
    requires F.DistinctIds(hosts) && (forall id :: id in visible ==> !F.HasSlash(id))
    requires forall i :: 0 <= i < |hosts| ==> !F.HasSlash(hosts[i].id) && Plain(hosts[i].id) && NoAngle(hosts[i].subnet)
    requires forall i :: 0 <= i < |edges| ==> edges[i].from in F.IdsOf(hosts) && edges[i].to in F.IdsOf(hosts)
    ensures Aggregation(o, |hidden| > 0, visible, hosts, overrides, threshold, far, wasAggregated, first, mid, b, kept,
      hostToSuper)
    ensures NoneLeft(o, hosts, overrides, threshold, far, wasAggregated, hostToSuper, kept)
    ensures F.Sum(b, kept) == F.Sum(F.Books(map[], map[], visible, {}), hosts) && Represented(hosts, hostToSuper, kept)
    ensures MergesTo(hidden, (id: string) => Remapped(hostToSuper, id), F.IdsOf(kept), edges, merged)
    ensures Gathered(MergedTotals(merged)) == CrossingTotal(hidden, (id: string) => Remapped(hostToSuper, id), edges)
  {
    hide F.Sum, F.HasSlash, Represented, Plain, NoAngle, Gathered, MergedTotals, F.DistinctIds, F.IdsOf, Remapped,
         MergesTo, Clean, Aggregation, NoneLeft;
    var books, active;
    kept, hostToSuper, books, active, first, mid :=
      Aggregate(hosts, visible, o, |hidden| > 0, overrides, threshold, far, wasAggregated);
    b := books;
    var remap := (id: string) => Remapped(hostToSuper, id);
    CleanIds(b, kept);
    merged := MergeEdges(edges, hidden, remap, F.IdsOf(kept));
    forall i | 0 <= i < |edges| ensures remap(edges[i].from) in F.IdsOf(kept) && remap(edges[i].to) in F.IdsOf(kept) {
      LiveIsRemapped(hosts, hostToSuper, kept, edges[i].from);
      LiveIsRemapped(hosts, hostToSuper, kept, edges[i].to);
    }
    AllCrossingShown(hidden, remap, F.IdsOf(kept), edges);
  }

  lemma CleanIds(b: F.Books, kept: seq<F.Node>)
    requires Clean(b, kept)
    ensures forall k :: k in F.IdsOf(kept) ==> Plain(k)
  {
  }

  // ---- the cap on nodes ----

  /** At most `max` of the nodes, which come by falling rank: protected ones first if they fit, then the best ranked. */
  method SelectNodes(ranked: seq<string>, protect: set<string>, max: nat) returns (out: seq<string>)
    requires forall i, j :: 0 <= i < j < |ranked| ==> ranked[i] != ranked[j]
    ensures |ranked| <= max ==> out == ranked
    ensures |ranked| > max ==> |out| == max && Chosen(ranked, protect, max, out)
  {
    if |ranked| <= max {
      return ranked;
    }
    var count := 0;
    for i := 0 to |ranked|
      invariant count == |Protected(ranked[..i], protect)| <= i
    {
      assert ranked[..i + 1][..i] == ranked[..i];
      if ranked[i] in protect { count := count + 1; }
    }
    assert ranked[..|ranked|] == ranked;
    if count == 0 || count >= max {
      return ranked[..max];
    }
    out := TakeProtected(ranked, protect, max);
    out := FillUp(ranked, protect, max, out);
  }

  method TakeProtected(ranked: seq<string>, protect: set<string>, max: nat) returns (out: seq<string>)
    requires |Protected(ranked, protect)| < max
    ensures out == Protected(ranked, protect)
  {
    out := [];
    for i := 0 to |ranked|
      invariant out == Protected(ranked[..i], protect)
    {
      assert ranked[..i + 1][..i] == ranked[..i];
      ProtectedGrows(ranked, protect, i);
      if ranked[i] in protect && |out| < max {
        out := out + [ranked[i]];
      }
    }
    assert ranked[..|ranked|] == ranked;
  }

  method FillUp(ranked: seq<string>, protect: set<string>, max: nat, first: seq<string>) returns (out: seq<string>)
    requires (forall i, j :: 0 <= i < j < |ranked| ==> ranked[i] != ranked[j]) && |ranked| > max
    requires first == Protected(ranked, protect) && 0 < |first| < max
    ensures |out| == max && Chosen(ranked, protect, max, out)
  {
    hide Protected;
    out := first;
    var seen := set x | x in first;
    ProtectedAre(ranked, protect);
    var i := 0;
    while i < |ranked| && |out| < max
      invariant i <= |ranked| && |first| <= |out| <= max && out == first + Others(ranked[..i], protect)
      invariant forall x :: x in seen ==> x in first || x in ranked[..i]
      invariant forall x :: x in first ==> x in seen
      decreases |ranked| - i
    {
      assert ranked[..i + 1][..i] == ranked[..i];
      assert ranked[i] !in ranked[..i];
      assert ranked[i] in seen <==> ranked[i] in protect;
      if ranked[i] !in seen {
        out, seen := out + [ranked[i]], seen + {ranked[i]};
      }
      i := i + 1;
    }
    if i == |ranked| {
      assert ranked[..i] == ranked;
      SplitCount(ranked, protect);
    }
  }

  function Protected(ranked: seq<string>, protect: set<string>): seq<string> {
    if ranked == [] then []
    else
      var past, x := Protected(ranked[..|ranked| - 1], protect), ranked[|ranked| - 1];
      if x in protect then past + [x] else past
  }

  function Others(ranked: seq<string>, protect: set<string>): seq<string> {
    if ranked == [] then []
    else
      var past, x := Others(ranked[..|ranked| - 1], protect), ranked[|ranked| - 1];
      if x in protect then past else past + [x]
  }

  /** All protected nodes and the best of the others, if some but not too many are protected; else the best of all. */
  ghost predicate Chosen(ranked: seq<string>, protect: set<string>, max: nat, out: seq<string>) {
    if 0 < |Protected(ranked, protect)| < max then
      exists n :: 0 <= n <= |ranked| && out == Protected(ranked, protect) + Others(ranked[..n], protect)
    else |ranked| >= max && out == ranked[..max]
  }

  lemma {:induction false} ProtectedGrows(ranked: seq<string>, protect: set<string>, n: nat)
    requires n <= |ranked|
    ensures |Protected(ranked[..n], protect)| <= |Protected(ranked, protect)|
    decreases |ranked| - n
  {
    if n < |ranked| {
      assert ranked[..n + 1][..n] == ranked[..n];
      ProtectedGrows(ranked, protect, n + 1);
    } else {
      assert ranked[..n] == ranked;
    }
  }

  lemma {:induction false} ProtectedAre(ranked: seq<string>, protect: set<string>)
    ensures forall x :: x in Protected(ranked, protect) <==> x in ranked && x in protect
  {
    if ranked != [] {
      ProtectedAre(ranked[..|ranked| - 1], protect);
      assert ranked == ranked[..|ranked| - 1] + [ranked[|ranked| - 1]];
    }
  }

  lemma {:induction false} SplitCount(ranked: seq<string>, protect: set<string>)
    ensures |Protected(ranked, protect)| + |Others(ranked, protect)| == |ranked|
  {
    if ranked != [] { SplitCount(ranked[..|ranked| - 1], protect); }
  }
}
