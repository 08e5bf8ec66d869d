/** The binary frame that carries a raw topology (server/rawstream.go encodeRawFrame, static/app.js
    applyRawTopologyFrame).

    Identifiers are strings of bytes, little-endian integers wrap as in the source. */
module RawFrame {
  import opened GraphState

  type Byte = b: int | 0 <= b < 256

  const U16_LIMIT := 0x1_0000
  const U32_LIMIT := 0x1_0000_0000

  datatype NodeRecord = NodeRecord(id: string, tier: Byte, flags: Byte)

  datatype EdgeRecord = EdgeRecord(a: int, b: int, proto: Byte)

  datatype Frame = Frame(nodes: seq<NodeRecord>, edges: seq<EdgeRecord>)

  predicate IsText(s: string) { forall i :: 0 <= i < |s| ==> s[i] as int < 256 }

  /** What the arrays of a topology can hold: byte strings, and unsigned 32-bit indices. */
  ghost predicate Typed(f: Frame) {
    && (forall i :: 0 <= i < |f.nodes| ==> IsText(f.nodes[i].id))
    && (forall i :: 0 <= i < |f.edges| ==> 0 <= f.edges[i].a < U32_LIMIT && 0 <= f.edges[i].b < U32_LIMIT)
  }

  // ---- writing ----

  function U16(n: nat): seq<Byte> { [n % 256, n / 256 % 256] }

  function U32(n: nat): seq<Byte> { [n % 256, n / 256 % 256, n / 65536 % 256, n / 16777216 % 256] }

  function Text(s: string): seq<Byte>
    requires IsText(s)
  {
    seq(|s|, i requires 0 <= i < |s| => s[i] as int)
  }

  function NodeBytes(n: NodeRecord): seq<Byte>
    requires IsText(n.id)
  {
    U16(|n.id|) + Text(n.id) + [n.tier, n.flags]
  }

  function EdgeBytes(e: EdgeRecord): seq<Byte>
    requires e.a >= 0 && e.b >= 0
  {
    U32(e.a) + U32(e.b) + [e.proto]
  }

  function NodesBytes(nodes: seq<NodeRecord>): seq<Byte>
    requires forall i :: 0 <= i < |nodes| ==> IsText(nodes[i].id)
  {
    if nodes == [] then [] else NodeBytes(nodes[0]) + NodesBytes(nodes[1..])
  }

  function EdgesBytes(edges: seq<EdgeRecord>): seq<Byte>
    requires forall i :: 0 <= i < |edges| ==> edges[i].a >= 0 && edges[i].b >= 0
  {
    if edges == [] then [] else EdgeBytes(edges[0]) + EdgesBytes(edges[1..])
  }

  function Encode(f: Frame): seq<Byte>
    requires Typed(f)
  {
    [2] + U32(|f.nodes|) + NodesBytes(f.nodes) + U32(|f.edges|) + EdgesBytes(f.edges)
  }

  /** Two and four bytes from `i` on, the lowest first. */
  ghost predicate LittleEndian16(bytes: seq<Byte>, i: nat, n: int) {
    i + 2 <= |bytes| && n == bytes[i] as int + 256 * (bytes[i + 1] as int)
  }

  ghost predicate LittleEndian32(bytes: seq<Byte>, i: nat, n: int) {
    && i + 4 <= |bytes|
    && n == bytes[i] as int + 256 * (bytes[i + 1] as int) + 65536 * (bytes[i + 2] as int)
              + 16777216 * (bytes[i + 3] as int)
  }

  /** A node on the wire: the length of its identifier, the identifier, its tier and its flags. */
  lemma NodeLayout(n: NodeRecord)
    requires IsText(n.id) && |n.id| < 65536
    ensures var bytes := NodeBytes(n);
      && |bytes| == |n.id| + 4 && LittleEndian16(bytes, 0, |n.id|)
      && (forall i :: 0 <= i < |n.id| ==> bytes[2 + i] == n.id[i] as int)
      && bytes[|n.id| + 2] == n.tier && bytes[|n.id| + 3] == n.flags
  {
  }

  /** An edge on the wire: its ends' indices and its protocol's. */
  lemma EdgeLayout(e: EdgeRecord)
    requires 0 <= e.a < 4294967296 && 0 <= e.b < 4294967296
    ensures var bytes := EdgeBytes(e);
      |bytes| == 9 && LittleEndian32(bytes, 0, e.a) && LittleEndian32(bytes, 4, e.b) && bytes[8] == e.proto
  {
    LowestFirst(e.a);
    LowestFirst(e.b);
    hide U32;
  }

  lemma LowestFirst(n: nat)
    requires n < 4294967296
    ensures |U32(n)| == 4 && LittleEndian32(U32(n), 0, n)
  {
    Digits(n);
    LowPart(n, n, 0);
  }

  /** A frame begins with its type, 2, and the number of its nodes; the nodes and the number of edges follow. */
  lemma FrameLayout(f: Frame)
    requires Typed(f) && |f.nodes| < 4294967296 && |f.edges| < 4294967296
    ensures var bytes := Encode(f);
      && |bytes| >= 5 && bytes[0] == 2 && LittleEndian32(bytes, 1, |f.nodes|)
      && NodesBytes(f.nodes) <= bytes[5..]
      && LittleEndian32(bytes, 5 + |NodesBytes(f.nodes)|, |f.edges|)
      && bytes[9 + |NodesBytes(f.nodes)|..] == EdgesBytes(f.edges)
  {
    var a, b, c, d := U32(|f.nodes|), NodesBytes(f.nodes), U32(|f.edges|), EdgesBytes(f.edges);
    hide *;
    LowestFirst(|f.nodes|);
    LowestFirst(|f.edges|);
    FourParts(a, b, c, d);
    EncodeIs(f);
    Shifted(a, Encode(f), 1, |f.nodes|);
    Shifted(c, Encode(f), 5 + |b|, |f.edges|);
  }

  lemma EncodeIs(f: Frame)
    requires Typed(f)
    ensures Encode(f) == [2] + U32(|f.nodes|) + NodesBytes(f.nodes) + U32(|f.edges|) + EdgesBytes(f.edges)
  {
  }

  lemma FourParts(a: seq<Byte>, b: seq<Byte>, c: seq<Byte>, d: seq<Byte>)
    requires |a| == |c| == 4
    ensures var s := [2] + a + b + c + d;
      && s[0] == 2 && s[1..5] == a && b <= s[5..] && s[5 + |b|..9 + |b|] == c && s[9 + |b|..] == d
  {
    var s := [2] + a + b + c + d;
    assert s[5..] == b + (c + d);
  }

  lemma Shifted(part: seq<Byte>, bytes: seq<Byte>, j: nat, n: int)
    requires |part| == 4 && j + 4 <= |bytes| && bytes[j..j + 4] == part && LittleEndian32(part, 0, n)
    ensures LittleEndian32(bytes, j, n)
  {
    assert bytes[j] == part[0] && bytes[j + 1] == part[1] && bytes[j + 2] == part[2] && bytes[j + 3] == part[3];
  }

  // ---- reading ----

  /** A little-endian number. */
  function Number(bytes: seq<Byte>): nat { if bytes == [] then 0 else (bytes[0] as int) + 256 * Number(bytes[1..]) }

  function ReadU16(buf: seq<Byte>, off: nat): Option<int> {
    if off + 2 > |buf| then None else Some(Number(buf[off..off + 2]))
  }

  function ReadU32(buf: seq<Byte>, off: nat): Option<int> {
    if off + 4 > |buf| then None else Some(Number(buf[off..off + 4]))
  }

  function Chars(bytes: seq<Byte>): string { seq(|bytes|, i requires 0 <= i < |bytes| => bytes[i] as char) }

  datatype Read<T> = Read(value: T, next: nat) | OutOfRange

  function ReadNode(buf: seq<Byte>, off: nat): Read<NodeRecord> {
    match ReadU16(buf, off)
    case None => OutOfRange
    case Some(len) =>
      if off + 2 + len + 2 > |buf| then OutOfRange
      else Read(NodeRecord(Chars(buf[off + 2..off + 2 + len]), buf[off + 2 + len], buf[off + 2 + len + 1]),
        off + 2 + len + 2)
  }

  function ReadEdge(buf: seq<Byte>, off: nat): Read<EdgeRecord> {
    if off + 9 > |buf| then OutOfRange
    else Read(EdgeRecord(ReadU32(buf, off).value, ReadU32(buf, off + 4).value, buf[off + 8]), off + 9)
  }

  function ReadAll<T>(buf: seq<Byte>, read: (seq<Byte>, nat) -> Read<T>, off: nat, n: nat): Read<seq<T>>
    decreases n
  {
    if n == 0 then Read([], off)
    else
      match read(buf, off)
      case OutOfRange => OutOfRange
      case Read(x, next) =>
        match ReadAll(buf, read, next, n - 1)
        case OutOfRange => OutOfRange
        case Read(xs, end) => Read([x] + xs, end)
  }

  function Decode(buf: seq<Byte>): Option<Frame> {
    match ReadU32(buf, 1)
    case None => None
    case Some(n) =>
      match ReadAll(buf, ReadNode, 5, n)
      case OutOfRange => None
      case Read(nodes, off) =>
        match ReadU32(buf, off)
        case None => None
        case Some(m) =>
          match ReadAll(buf, ReadEdge, off + 4, m)
          case OutOfRange => None
          case Read(edges, _) => Some(Frame(nodes, edges))
  }

  // ---- round trip ----

  lemma U16Back(n: nat, buf: seq<Byte>, off: nat)
    requires off + 2 <= |buf| && buf[off..off + 2] == U16(n)
    ensures ReadU16(buf, off) == Some(n % U16_LIMIT)
  {
    var two := U16(n);
    assert two[1..][1..] == [] && two[1..][0] == two[1];
    assert Number(two) == two[0] + 256 * Number(two[1..]) && Number(two[1..]) == two[1] + 256 * Number(two[1..][1..]);
  }

  lemma U32Back(n: nat, buf: seq<Byte>, off: nat)
    requires off + 4 <= |buf| && buf[off..off + 4] == U32(n)
    ensures ReadU32(buf, off) == Some(n % U32_LIMIT)
  {
    var four := U32(n);
    var three, two, one := four[1..], four[2..], four[3..];
    assert three[1..] == two && two[1..] == one && one[1..] == [];
    assert Number(four) == four[0] as int + 256 * Number(three) && Number(three) == four[1] as int + 256 * Number(two);
    assert Number(two) == four[2] as int + 256 * Number(one) && Number(one) == four[3] as int + 256 * Number([]);
    Digits(n);
  }

  lemma Digits(n: nat)
    ensures n % 256 + 256 * (n / 256 % 256) + 65536 * (n / 65536 % 256) + 16777216 * (n / 16777216 % 256)
      == n % U32_LIMIT
  {
    var a, b, c := n / 256, n / 65536, n / 16777216;
    Quotients(n);
    var low := n % 256 + 256 * (a % 256) + 65536 * (b % 256) + 16777216 * (c % 256);
    assert n == low + U32_LIMIT * (c / 256) by {
      assert n == 256 * a + n % 256 && a == 256 * b + a % 256 && b == 256 * c + b % 256
        && c == 256 * (c / 256) + c % 256;
    }
    LowPart(n, low, c / 256);
  }

  lemma Quotients(n: nat)
    ensures n / 65536 == n / 256 / 256 && n / 16777216 == n / 65536 / 256
  {
  }

  lemma LowPart(n: nat, low: nat, high: nat)
    requires low < U32_LIMIT && n == low + U32_LIMIT * high
    ensures n % U32_LIMIT == low
  {
  }

  lemma {:induction false} NumberIsSmall(bytes: seq<Byte>)
    ensures |bytes| == 2 ==> Number(bytes) < U16_LIMIT
    ensures |bytes| == 4 ==> Number(bytes) < U32_LIMIT
  {
    if |bytes| == 2 || |bytes| == 4 {
      var b := bytes[1..];
      var c := b[1..];
      assert Number(bytes) == bytes[0] as int + 256 * Number(b) && Number(b) == b[0] as int + 256 * Number(c);
      if |bytes| == 4 {
        NumberIsSmall(c);
      }
    }
  }

  /** `part` stands in the buffer at `off`. */
  ghost predicate At(buf: seq<Byte>, off: nat, part: seq<Byte>) {
    off + |part| <= |buf| && buf[off..off + |part|] == part
  }

  lemma AtParts(buf: seq<Byte>, off: nat, a: seq<Byte>, b: seq<Byte>)
    requires At(buf, off, a + b)
    ensures At(buf, off, a) && At(buf, off + |a|, b)
  {
    var whole := buf[off..off + |a + b|];
    assert buf[off..off + |a|] == whole[..|a|] && buf[off + |a|..off + |a| + |b|] == whole[|a|..];
  }

  lemma NodeBack(buf: seq<Byte>, off: nat, n: NodeRecord)
    requires IsText(n.id) && |n.id| < U16_LIMIT && At(buf, off, NodeBytes(n))
    ensures ReadNode(buf, off) == Read(n, off + |NodeBytes(n)|)
  {
    var len := |n.id|;
    TextBack(n.id);
    TwoBytes(len);
    hide U16, Text, Chars, Number, IsText;
    AtParts(buf, off, U16(len) + Text(n.id), [n.tier, n.flags]);
    AtParts(buf, off, U16(len), Text(n.id));
    U16Back(len, buf, off);
    var tail := buf[off + 2 + len..off + 2 + len + 2];
    assert buf[off + 2 + len] == tail[0] && buf[off + 2 + len + 1] == tail[1];
  }

  lemma TextBack(s: string)
    requires IsText(s)
    ensures |Text(s)| == |s| && Chars(Text(s)) == s
  {
  }

  lemma TwoBytes(n: nat)
    ensures |U16(n)| == 2
  {
  }

  lemma EdgeBack(buf: seq<Byte>, off: nat, e: EdgeRecord)
    requires 0 <= e.a < U32_LIMIT && 0 <= e.b < U32_LIMIT && At(buf, off, EdgeBytes(e))
    ensures ReadEdge(buf, off) == Read(e, off + |EdgeBytes(e)|)
  {
    hide U32;
    AtParts(buf, off, U32(e.a) + U32(e.b), [e.proto]);
    AtParts(buf, off, U32(e.a), U32(e.b));
    FourBytes(e.a);
    FourBytes(e.b);
    U32Back(e.a, buf, off);
    U32Back(e.b, buf, off + 4);
    assert buf[off + 8] == buf[off + 8..off + 9][0];
  }

  lemma FourBytes(n: nat)
    ensures |U32(n)| == 4
  {
  }

  lemma {:induction false} NodesBack(buf: seq<Byte>, off: nat, nodes: seq<NodeRecord>)
    requires forall i :: 0 <= i < |nodes| ==> IsText(nodes[i].id) && |nodes[i].id| < U16_LIMIT
    requires At(buf, off, NodesBytes(nodes))
    ensures ReadAll(buf, ReadNode, off, |nodes|) == Read(nodes, off + |NodesBytes(nodes)|)
    decreases |nodes|
  {
    hide NodeBytes, ReadNode, IsText, At;
    if nodes != [] {
      AtParts(buf, off, NodeBytes(nodes[0]), NodesBytes(nodes[1..]));
      NodeBack(buf, off, nodes[0]);
      NodesBack(buf, off + |NodeBytes(nodes[0])|, nodes[1..]);
      assert [nodes[0]] + nodes[1..] == nodes;
    }
  }

  lemma {:induction false} EdgesBack(buf: seq<Byte>, off: nat, edges: seq<EdgeRecord>)
    requires forall i :: 0 <= i < |edges| ==> 0 <= edges[i].a < U32_LIMIT && 0 <= edges[i].b < U32_LIMIT
    requires At(buf, off, EdgesBytes(edges))
    ensures ReadAll(buf, ReadEdge, off, |edges|) == Read(edges, off + |EdgesBytes(edges)|)
    decreases |edges|
  {
    hide EdgeBytes, ReadEdge, At;
    if edges != [] {
      AtParts(buf, off, EdgeBytes(edges[0]), EdgesBytes(edges[1..]));
      EdgeBack(buf, off, edges[0]);
      EdgesBack(buf, off + |EdgeBytes(edges[0])|, edges[1..]);
      assert [edges[0]] + edges[1..] == edges;
    }
  }

  /** The lengths fit the fields that carry them. */
  ghost predicate Fits(f: Frame) {
    && |f.nodes| < U32_LIMIT && |f.edges| < U32_LIMIT
    && forall i :: 0 <= i < |f.nodes| ==> |f.nodes[i].id| < U16_LIMIT
  }

  lemma FittingFrameBack(f: Frame)
    requires Typed(f) && Fits(f)
    ensures Decode(Encode(f)) == Some(f)
  {
    hide NodesBytes, EdgesBytes, ReadNode, ReadEdge, ReadAll, U32, IsText, At, ReadU32;
    var buf := Encode(f);
    var head, nodes, mid, edges := U32(|f.nodes|), NodesBytes(f.nodes), U32(|f.edges|), EdgesBytes(f.edges);
    FourBytes(|f.nodes|);
    FourBytes(|f.edges|);
    assert buf == [2] + (head + (nodes + (mid + edges)));
    WholeAt(buf);
    AtParts(buf, 0, [2], head + (nodes + (mid + edges)));
    AtParts(buf, 1, head, nodes + (mid + edges));
    AtParts(buf, 5, nodes, mid + edges);
    AtParts(buf, 5 + |nodes|, mid, edges);
    AtIs(buf, 1, head);
    AtIs(buf, 5 + |nodes|, mid);
    U32Back(|f.nodes|, buf, 1);
    NodesBack(buf, 5, f.nodes);
    U32Back(|f.edges|, buf, 5 + |nodes|);
    EdgesBack(buf, 5 + |nodes| + 4, f.edges);
  }

  lemma WholeAt(buf: seq<Byte>)
    ensures At(buf, 0, buf)
  {
  }

  lemma AtIs(buf: seq<Byte>, off: nat, part: seq<Byte>)
    requires At(buf, off, part)
    ensures off + |part| <= |buf| && buf[off..off + |part|] == part
  {
  }

  lemma {:induction false} ReadIdsAreShort(buf: seq<Byte>, off: nat, n: nat)
    requires ReadAll(buf, ReadNode, off, n).Read?
    ensures n > 0 ==> ReadNode(buf, off).Read? && |ReadNode(buf, off).value.id| < U16_LIMIT
    ensures var nodes := ReadAll(buf, ReadNode, off, n).value;
      |nodes| == n && forall i :: 0 <= i < |nodes| ==> |nodes[i].id| < U16_LIMIT
    decreases n
  {
    if n > 0 {
      NumberIsSmall(buf[off..off + 2]);
      ReadIdsAreShort(buf, ReadNode(buf, off).next, n - 1);
    }
  }

  lemma {:induction false} ReadCount<T>(buf: seq<Byte>, read: (seq<Byte>, nat) -> Read<T>, off: nat, n: nat)
    requires ReadAll(buf, read, off, n).Read?
    ensures |ReadAll(buf, read, off, n).value| == n
    decreases n
  {
    if n > 0 {
      ReadCount(buf, read, read(buf, off).next, n - 1);
    }
  }

  lemma DecodedFits(buf: seq<Byte>)
    requires Decode(buf).Some?
    ensures Fits(Decode(buf).value)
  {
    hide ReadAll, ReadNode, ReadEdge, Number;
    NumberIsSmall(buf[1..5]);
    var n := ReadU32(buf, 1).value;
    ReadIdsAreShort(buf, 5, n);
    var off := ReadAll(buf, ReadNode, 5, n).next;
    NumberIsSmall(buf[off..off + 4]);
    ReadCount(buf, ReadEdge, off + 4, ReadU32(buf, off).value);
  }

  /** Decoding what was encoded gives the frame back exactly if its counts fit 32 bits and its identifiers 16. */
  lemma RoundTrip(f: Frame)
    requires Typed(f)
    ensures Decode(Encode(f)) == Some(f) <==> Fits(f)
  {
    hide Decode, Encode, Typed, Fits;
    if Fits(f) {
      FittingFrameBack(f);
    }
    if Decode(Encode(f)) == Some(f) {
      DecodedFits(Encode(f));
    }
  }
}
