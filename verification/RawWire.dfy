/** Writing and reading raw frames in place (server/rawstream.go, static/app.js), and the whole
    way of a raw topology. */
module RawWire {
  import opened GraphState
  import opened RawTopology
  import opened RawFrame

  function Size(f: Frame): nat
    requires Typed(f)
  {
    |Encode(f)|
  }

  method PutUint16(buf: array<Byte>, off: nat, n: nat)
    requires off + 2 <= buf.Length
    modifies buf
    ensures buf[..off] == old(buf[..off]) && buf[off..off + 2] == U16(n) && buf[..off + 2] == old(buf[..off]) + U16(n)
  {
    buf[off], buf[off + 1] := n % 256, n / 256 % 256;
  }

  method PutUint32(buf: array<Byte>, off: nat, n: nat)
    requires off + 4 <= buf.Length
    modifies buf
    ensures buf[..off + 4] == old(buf[..off]) + U32(n)
  {
    buf[off], buf[off + 1], buf[off + 2], buf[off + 3] := n % 256, n / 256 % 256, n / 65536 % 256, n / 16777216 % 256;
  }

  method PutText(buf: array<Byte>, off: nat, s: string)
    requires IsText(s) && off + |s| <= buf.Length
    modifies buf
    ensures buf[..off + |s|] == old(buf[..off]) + Text(s)
  {
    for i := 0 to |s|
      invariant buf[..off + i] == old(buf[..off]) + Text(s)[..i]
    {
      buf[off + i] := s[i] as int;
      assert buf[..off + i + 1] == buf[..off + i] + [Text(s)[i]];
    }
  }

  method PutBytes(buf: array<Byte>, off: nat, a: Byte, b: Byte)
    requires off + 2 <= buf.Length
    modifies buf
    ensures buf[..off + 2] == old(buf[..off]) + [a, b]
  {
    buf[off], buf[off + 1] := a, b;
  }

  lemma {:induction false} MoreNodes(nodes: seq<NodeRecord>, i: nat)
    requires i < |nodes| && forall j :: 0 <= j < |nodes| ==> IsText(nodes[j].id)
    ensures NodesBytes(nodes[..i + 1]) == NodesBytes(nodes[..i]) + NodeBytes(nodes[i])
    decreases |nodes|
  {
    hide NodeBytes, IsText;
    if i > 0 {
      assert nodes[..i + 1][1..] == nodes[1..][..i] && nodes[..i][1..] == nodes[1..][..i - 1];
      MoreNodes(nodes[1..], i - 1);
    } else {
      assert nodes[..1][1..] == [] && nodes[..0] == [];
    }
  }

  lemma {:induction false} MoreEdges(edges: seq<EdgeRecord>, i: nat)
    requires i < |edges| && forall j :: 0 <= j < |edges| ==> edges[j].a >= 0 && edges[j].b >= 0
    ensures EdgesBytes(edges[..i + 1]) == EdgesBytes(edges[..i]) + EdgeBytes(edges[i])
    decreases |edges|
  {
    hide EdgeBytes;
    if i > 0 {
      assert edges[..i + 1][1..] == edges[1..][..i] && edges[..i][1..] == edges[1..][..i - 1];
      MoreEdges(edges[1..], i - 1);
    } else {
      assert edges[..1][1..] == [] && edges[..0] == [];
    }
  }

  lemma {:induction false} NodesPrefix(nodes: seq<NodeRecord>, i: nat)
    requires i <= |nodes| && forall j :: 0 <= j < |nodes| ==> IsText(nodes[j].id)
    ensures |NodesBytes(nodes[..i])| <= |NodesBytes(nodes)|
    decreases |nodes| - i
  {
    if i < |nodes| {
      MoreNodes(nodes, i);
      NodesPrefix(nodes, i + 1);
    } else {
      assert nodes[..i] == nodes;
    }
  }

  lemma {:induction false} EdgeSizes(edges: seq<EdgeRecord>)
    requires forall j :: 0 <= j < |edges| ==> edges[j].a >= 0 && edges[j].b >= 0
    ensures |EdgesBytes(edges)| == 9 * |edges|
  {
    if edges != [] {
      assert |EdgeBytes(edges[0])| == 9;
      EdgeSizes(edges[1..]);
    }
  }

  /** The size computed up front: a fixed part, nine bytes an edge, and per node its text and four more. */
  method FrameSize(f: Frame) returns (size: nat)
    requires Typed(f)
    ensures size == Size(f)
  {
    hide EdgesBytes;
    size := 1 + 4 + 4 + |f.edges| * 9;
    for i := 0 to |f.nodes|
      invariant size == 9 + |f.edges| * 9 + |NodesBytes(f.nodes[..i])|
    {
      MoreNodes(f.nodes, i);
      assert |NodeBytes(f.nodes[i])| == 2 + |f.nodes[i].id| + 2;
      size := size + 2 + |f.nodes[i].id| + 2;
    }
    assert f.nodes[..|f.nodes|] == f.nodes;
    EdgeSizes(f.edges);
  }

  method PutNode(buf: array<Byte>, off: nat, n: NodeRecord) returns (next: nat)
    requires IsText(n.id) && off + |n.id| + 4 <= buf.Length
    modifies buf
    ensures next == off + |NodeBytes(n)| <= buf.Length && buf[..next] == old(buf[..off]) + NodeBytes(n)
  {
    hide U16;
    PutUint16(buf, off, |n.id|);
    TwoBytes(|n.id|);
    next := off + 2;
    PutText(buf, next, n.id);
    next := next + |n.id|;
    PutBytes(buf, next, n.tier, n.flags);
    next := next + 2;
  }

  lemma TwoBytes(n: nat)
    ensures |U16(n)| == 2
  {
  }

  method PutEdge(buf: array<Byte>, off: nat, e: EdgeRecord) returns (next: nat)
    requires e.a >= 0 && e.b >= 0 && off + 9 <= buf.Length
    modifies buf
    ensures next == off + |EdgeBytes(e)| <= buf.Length && buf[..next] == old(buf[..off]) + EdgeBytes(e)
  {
    hide U32;
    FourBytes(e.a);
    FourBytes(e.b);
    PutUint32(buf, off, e.a);
    PutUint32(buf, off + 4, e.b);
    ghost var before := buf[..off + 8];
    buf[off + 8] := e.proto;
    next := off + 9;
    assert buf[..next] == before + [e.proto];
  }

  /** Writes the frame; the buffer is filled exactly. */
  method EncodeRawFrame(f: Frame) returns (buf: array<Byte>)
    requires Typed(f)
    ensures fresh(buf) && buf[..] == Encode(f)
  {
    hide U32, IsText, NodesBytes, EdgesBytes;
    var size := FrameSize(f);
    buf := new Byte[size](_ => 0);
    SizeParts(f);
    buf[0] := 2;
    PutUint32(buf, 1, |f.nodes|);
    ghost var head := [2] + U32(|f.nodes|);
    assert buf[..5] == head;
    var off := PutNodes(buf, f.nodes, head);
    PutUint32(buf, off, |f.edges|);
    off := off + 4;
    off := PutEdges(buf, off, f.edges, head + NodesBytes(f.nodes) + U32(|f.edges|));
    assert buf[..off] == buf[..];
  }

  lemma SizeParts(f: Frame)
    requires Typed(f)
    ensures Size(f) == 5 + |NodesBytes(f.nodes)| + 4 + |EdgesBytes(f.edges)|
    ensures |U32(|f.nodes|)| == 4 && |U32(|f.edges|)| == 4
  {
  }

  method PutNodes(buf: array<Byte>, nodes: seq<NodeRecord>, ghost head: seq<Byte>) returns (off: nat)
    requires (forall i :: 0 <= i < |nodes| ==> IsText(nodes[i].id)) && |head| == 5
    requires buf.Length >= 5 + |NodesBytes(nodes)| && buf[..5] == head
    modifies buf
    ensures off == 5 + |NodesBytes(nodes)| <= buf.Length && buf[..off] == head + NodesBytes(nodes)
  {
    hide NodesBytes, IsText;
    off := 5;
    NoBytes();
    assert nodes[..0] == [];
    for i := 0 to |nodes|
      invariant off == 5 + |NodesBytes(nodes[..i])| <= buf.Length && buf[..off] == head + NodesBytes(nodes[..i])
    {
      MoreNodes(nodes, i);
      NodesPrefix(nodes, i + 1);
      NodeSize(nodes[i]);
      off := PutNode(buf, off, nodes[i]);
    }
    assert nodes[..|nodes|] == nodes;
  }

  lemma NodeSize(n: NodeRecord)
    requires IsText(n.id)
    ensures |NodeBytes(n)| == |n.id| + 4
  {
  }

  lemma NoBytes()
    ensures NodesBytes([]) == [] && EdgesBytes([]) == []
  {
  }

  method PutEdges(buf: array<Byte>, start: nat, edges: seq<EdgeRecord>, ghost head: seq<Byte>) returns (off: nat)
    requires (forall i :: 0 <= i < |edges| ==> edges[i].a >= 0 && edges[i].b >= 0) && |head| == start
    requires buf.Length >= start + |EdgesBytes(edges)| && buf[..start] == head
    modifies buf
    ensures off == start + |EdgesBytes(edges)| <= buf.Length && buf[..off] == head + EdgesBytes(edges)
  {
    hide EdgesBytes;
    off := start;
    NoBytes();
    EdgeSizes(edges);
    assert edges[..0] == [];
    for i := 0 to |edges|
      invariant off == start + |EdgesBytes(edges[..i])| <= buf.Length && buf[..off] == head + EdgesBytes(edges[..i])
    {
      MoreEdges(edges, i);
      EdgeSizes(edges[..i + 1]);
      off := PutEdge(buf, off, edges[i]);
    }
    assert edges[..|edges|] == edges;
  }

  // ---- the browser ----

  /** A non-negative integer stored as a 32-bit float: 24 significant bits, halves rounded to even. */
  function Single(n: nat): nat { Rounded(n, 1) }

  function Rounded(n: nat, unit: nat): nat
    requires unit > 0
    decreases if n / unit < 0x100_0000 then 0 else n - unit
  {
    if n / unit < 0x100_0000 then RoundTo(n, unit) else Rounded(n, 2 * unit)
  }

  function RoundTo(n: nat, unit: nat): nat
    requires unit > 0
  {
    var low, rest := n / unit * unit, n % unit;
    if 2 * rest < unit || (2 * rest == unit && n / unit % 2 == 0) then low else low + unit
  }

  lemma SmallIsExact(n: nat)
    requires n < 0x100_0000
    ensures Single(n) == n
  {
  }

  /** Beyond 24 bits indices would run into each other. */
  lemma LargeIsNot()
    ensures Single(16777217) == Single(16777216) == 16777216
  {
  }

  /** What the renderer is handed: links are pairs of indices held as floats. */
  datatype Drawn = Drawn(ids: seq<string>, tiers: seq<int>, flags: seq<int>, links: seq<nat>, protoIdx: seq<int>)

  function DrawnNodes(d: Drawn, nodes: seq<NodeRecord>): Drawn {
    d.(ids := seq(|nodes|, i requires 0 <= i < |nodes| => nodes[i].id),
       tiers := seq(|nodes|, i requires 0 <= i < |nodes| => nodes[i].tier as int),
       flags := seq(|nodes|, i requires 0 <= i < |nodes| => nodes[i].flags as int))
  }

  /** The reader's arrays agree with the records read. */
  ghost predicate Draws(d: Drawn, f: Frame) {
    && |d.ids| == |d.tiers| == |d.flags| == |f.nodes| && |d.protoIdx| == |f.edges| && |d.links| == 2 * |f.edges|
    && (forall i :: 0 <= i < |f.nodes| ==>
      d.ids[i] == f.nodes[i].id && d.tiers[i] == f.nodes[i].tier && d.flags[i] == f.nodes[i].flags)
    && (forall j :: 0 <= j < |f.edges| ==> f.edges[j].a >= 0 && f.edges[j].b >= 0 && d.protoIdx[j] == f.edges[j].proto)
    && (forall j :: 0 <= j < |f.edges| ==>
      d.links[2 * j] == Single(f.edges[j].a) && d.links[2 * j + 1] == Single(f.edges[j].b))
  }

  function Prepended<T>(xs: seq<T>, rest: Read<seq<T>>): Read<seq<T>> {
    match rest
    case OutOfRange => OutOfRange
    case Read(ys, next) => Read(xs + ys, next)
  }

  /** Reads `n` records one by one. */
  method ReadRecords<T>(buf: seq<Byte>, read: (seq<Byte>, nat) -> Read<T>, start: nat, n: nat) returns (r: Read<seq<T>>)
    ensures r == ReadAll(buf, read, start, n)
  {
    var off, xs: seq<T> := start, [];
    ghost var all := ReadAll(buf, read, start, n);
    assert all.Read? ==> [] + all.value == all.value;
    for i := 0 to n
      invariant ReadAll(buf, read, start, n) == Prepended(xs, ReadAll(buf, read, off, n - i))
    {
      match read(buf, off)
      case OutOfRange => return OutOfRange;
      case Read(x, next) =>
        ghost var rest := ReadAll(buf, read, next, n - i - 1);
        assert rest.Read? ==> xs + ([x] + rest.value) == xs + [x] + rest.value;
        xs, off := xs + [x], next;
    }
    assert xs + [] == xs;
    r := Read(xs, off);
  }

  method ApplyRawTopologyFrame(buf: seq<Byte>) returns (d: Option<Drawn>)
    ensures d.Some? <==> Decode(buf).Some?
    ensures d.Some? ==> Draws(d.value, Decode(buf).value)
  {
    hide ReadAll, ReadNode;
    var n := ReadU32(buf, 1);
    if n.None? { return None; }
    var nodes := ReadRecords(buf, ReadNode, 5, n.value);
    if nodes.OutOfRange? { return None; }
    var m := ReadU32(buf, nodes.next);
    if m.None? { return None; }
    var edges := ReadRecords(buf, ReadEdge, nodes.next + 4, m.value);
    if edges.OutOfRange? { return None; }
    EdgesAreNatural(buf, nodes.next + 4, m.value);
    var drawn := Draw(Frame(nodes.value, edges.value));
    d := Some(drawn);
  }

  lemma {:induction false} EdgesAreNatural(buf: seq<Byte>, off: nat, n: nat)
    requires ReadAll(buf, ReadEdge, off, n).Read?
    ensures forall j :: 0 <= j < |ReadAll(buf, ReadEdge, off, n).value| ==>
      ReadAll(buf, ReadEdge, off, n).value[j].a >= 0 && ReadAll(buf, ReadEdge, off, n).value[j].b >= 0
    decreases n
  {
    hide Number;
    if n > 0 {
      EdgesAreNatural(buf, ReadEdge(buf, off).next, n - 1);
    }
  }

  method Draw(f: Frame) returns (d: Drawn)
    requires forall j :: 0 <= j < |f.edges| ==> f.edges[j].a >= 0 && f.edges[j].b >= 0
    ensures Draws(d, f)
  {
    hide Single;
    d := DrawnNodes(Drawn([], [], [], [], []), f.nodes);
    for j := 0 to |f.edges|
      invariant Draws(d, Frame(f.nodes, f.edges[..j]))
    {
      var e := f.edges[j];
      d := d.(links := d.links + [Single(e.a), Single(e.b)], protoIdx := d.protoIdx + [e.proto as int]);
    }
    assert f.edges[..|f.edges|] == f.edges;
  }

  // ---- the whole way ----

  ghost predicate Bytes(t: Topology) {
    && |t.tiers| == |t.flags| == |t.ids| && |t.edgeA| == |t.edgeB| == |t.edgeProto|
    && (forall i :: 0 <= i < |t.ids| ==> 0 <= t.tiers[i] < 256 && 0 <= t.flags[i] < 256)
    && forall j :: 0 <= j < |t.edgeA| ==> 0 <= t.edgeProto[j] < 256
  }

  function FrameOf(t: Topology): Frame
    requires Bytes(t)
  {
    Frame(seq(|t.ids|, i requires 0 <= i < |t.ids| => NodeRecord(t.ids[i], t.tiers[i], t.flags[i])),
          seq(|t.edgeA|, j requires 0 <= j < |t.edgeA| => EdgeRecord(t.edgeA[j], t.edgeB[j], t.edgeProto[j])))
  }

  lemma {:induction false} DistinctCount(ids: seq<string>)
    requires forall i, j :: 0 <= i < j < |ids| ==> ids[i] != ids[j]
    ensures |IdSet(ids)| == |ids|
  {
    if ids != [] {
      var past, last := ids[..|ids| - 1], ids[|ids| - 1];
      DistinctCount(past);
      assert IdSet(ids) == IdSet(past) + {last};
      assert last !in past;
    }
  }

  lemma {:induction false} FewerKept(visible: seq<RawEdge>, keep: set<string>)
    ensures |KeptEdges(visible, keep)| <= |visible|
  {
    if visible != [] { FewerKept(visible[..|visible| - 1], keep); }
  }

  lemma {:induction false} FewerVisible(hidden: map<string, bool>, live: set<string>, edges: seq<RawEdge>)
    ensures |Visible(hidden, live, edges)| <= |edges|
  {
    if edges != [] { FewerVisible(hidden, live, edges[..|edges| - 1]); }
  }

  /** The flattened graph of a snapshot of byte-string identifiers fits the frame's fields, and its
      indices a float's 24 bits. */
  lemma FlattenedFits(nodes: seq<RawNode>, edges: seq<RawEdge>, hidden: map<string, bool>, tier: Tiering, t: Topology)
    requires Flattens(nodes, edges, hidden, 0, tier, t) && FiveTiers(tier) && |edges| < U32_LIMIT
    requires forall i :: 0 <= i < |nodes| ==> IsText(nodes[i].id) && |nodes[i].id| < U16_LIMIT
    ensures Bytes(t) && Typed(FrameOf(t)) && Fits(FrameOf(t)) && |t.ids| <= DEFAULT_RAW_MAX_NODES < 0x100_0000
  {
    NodesFit(nodes, edges, hidden, tier, t);
    ArraysFit(nodes, edges, hidden, tier, t);
    EdgesFit(nodes, edges, hidden, tier, t);
    hide Flattens, IsText, FiveTiers, Typed, Fits;
    FrameFits(t);
  }

  lemma FrameFits(t: Topology)
    requires Bytes(t) && |t.ids| < U32_LIMIT && |t.edgeA| < U32_LIMIT
    requires forall i :: 0 <= i < |t.ids| ==> IsText(t.ids[i]) && |t.ids[i]| < U16_LIMIT
    requires forall j :: 0 <= j < |t.edgeA| ==> 0 <= t.edgeA[j] < |t.ids| && 0 <= t.edgeB[j] < |t.ids|
    ensures Typed(FrameOf(t)) && Fits(FrameOf(t))
  {
  }

  lemma ArraysFit(nodes: seq<RawNode>, edges: seq<RawEdge>, hidden: map<string, bool>, tier: Tiering, t: Topology)
    requires Flattens(nodes, edges, hidden, 0, tier, t) && FiveTiers(tier)
    ensures |t.tiers| == |t.flags| == |t.ids| && forall i :: 0 <= i < |t.ids| ==>
      0 <= t.tiers[i] < 256 && 0 <= t.flags[i] < 256
  {
    hide Visible, Candidates, KeptEdges, ProtocolTable, Groups, IsMax, PacketTotal, EdgesNamed, TopSet, LiveIds, IdSet;
    var kept, max :| Ranks(t, Candidates(nodes, edges, hidden), kept, max, tier);
  }

  lemma EdgesFit(nodes: seq<RawNode>, edges: seq<RawEdge>, hidden: map<string, bool>, tier: Tiering, t: Topology)
    requires Flattens(nodes, edges, hidden, 0, tier, t)
    ensures |t.edgeA| == |t.edgeB| == |t.edgeProto| <= |edges|
    ensures forall j :: 0 <= j < |t.edgeA| ==>
      0 <= t.edgeProto[j] < 255 && 0 <= t.edgeA[j] < |t.ids| && 0 <= t.edgeB[j] < |t.ids|
  {
    hide Visible, Candidates, KeptEdges, ProtocolTable, Groups, IsMax, PacketTotal, TopSet, LiveIds, IdSet, InTable,
         Ranks;
    FewerKept(Visible(hidden, LiveIds(nodes), edges), IdSet(t.ids));
    FewerVisible(hidden, LiveIds(nodes), edges);
  }

  lemma NodesFit(nodes: seq<RawNode>, edges: seq<RawEdge>, hidden: map<string, bool>, tier: Tiering, t: Topology)
    requires Flattens(nodes, edges, hidden, 0, tier, t)
    requires forall i :: 0 <= i < |nodes| ==> IsText(nodes[i].id) && |nodes[i].id| < U16_LIMIT
    ensures |t.ids| <= DEFAULT_RAW_MAX_NODES && forall i :: 0 <= i < |t.ids| ==>
      IsText(t.ids[i]) && |t.ids[i]| < U16_LIMIT
  {
    hide Visible, Candidates, KeptEdges, ProtocolTable, IsText, Groups, IsMax, PacketTotal, EdgesNamed, Ranks;
    DistinctCount(t.ids);
    GroupsOf(nodes);
    forall i | 0 <= i < |t.ids| ensures IsText(t.ids[i]) && |t.ids[i]| < U16_LIMIT {
      assert t.ids[i] in IdSet(t.ids);
      var k :| 0 <= k < |nodes| && nodes[k].id == t.ids[i];
    }
  }

  /** Build, encode, decode: the browser draws the very arrays that were built. */
  method SendRawTopology(nodes: seq<RawNode>, edges: seq<RawEdge>, hidden: map<string, bool>, tier: Tiering)
    returns (t: Topology, d: Drawn)
    requires FiveTiers(tier) && |edges| < U32_LIMIT
    requires forall i :: 0 <= i < |nodes| ==> IsText(nodes[i].id) && |nodes[i].id| < U16_LIMIT
    ensures Flattens(nodes, edges, hidden, 0, tier, t)
    ensures d.ids == t.ids && d.tiers == t.tiers && d.flags == t.flags && d.protoIdx == t.edgeProto
      && |d.links| == 2 * |t.edgeA|
    ensures forall j :: 0 <= j < |t.edgeA| ==> d.links[2 * j] == t.edgeA[j] && d.links[2 * j + 1] == t.edgeB[j]
  {
    hide Flattens, Typed, Fits, IsText, Decode, Encode, Single, LiveIds;
    t := BuildRawTopology(nodes, edges, hidden, 0, tier);
    FlattenedFits(nodes, edges, hidden, tier, t);
    var buf := EncodeRawFrame(FrameOf(t));
    FittingFrameBack(FrameOf(t));
    var drawn := ApplyRawTopologyFrame(buf[..]);
    d := drawn.value;
    EdgesFit(nodes, edges, hidden, tier, t);
    forall j | 0 <= j < |t.edgeA| ensures d.links[2 * j] == t.edgeA[j] && d.links[2 * j + 1] == t.edgeB[j] {
      SmallIsExact(t.edgeA[j]);
      SmallIsExact(t.edgeB[j]);
      assert FrameOf(t).edges[j] == EdgeRecord(t.edgeA[j], t.edgeB[j], t.edgeProto[j]);
    }
  }
}
