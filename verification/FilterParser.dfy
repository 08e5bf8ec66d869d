/** The display filter's parser and the meaning of filters (graph/filter.go). */
module FilterParser {
  import opened GraphState
  import opened FilterLexer

  // ---- nodes, and what is true of them ----

  /** A node as a filter sees it: its id and addresses, and the protocols of its edges. */
  datatype NodeCtx = NodeCtx(id: string, ips: seq<string>, macs: seq<string>, hostname: string, ports: set<int>,
    protos: set<string>)

  type Predicate = NodeCtx -> bool

  /** Address arithmetic: which texts are network prefixes, and which addresses they contain. */
  datatype Net = Net(isCidr: string -> bool, contains: (string, string) -> bool)

  const IP_FIELDS := {"ip.addr", "ip.src", "ip.dst", "ip", "ip.host"}
  const MAC_FIELDS := {"eth.addr", "eth.src", "eth.dst", "eth", "mac"}
  const HOST_FIELDS := {"host", "hostname", "dns", "dns.qry.name", "http.host"}
  const PORT_FIELDS := {"port", "tcp.port", "udp.port", "tcp.srcport", "tcp.dstport", "udp.srcport", "udp.dstport"}
  const PAYLOAD_FIELDS := {"frame", "data", "payload"}

  const KNOWN_PROTOCOLS := {
    "tcp", "udp", "icmp", "icmpv6", "arp", "dns", "mdns", "http", "https", "tls", "ssl", "quic", "dhcp", "ntp", "snmp",
    "ssh", "ftp", "smtp", "ntlm", "smb", "lldp", "cdp", "stp", "ospf", "bgp"}

  predicate KnownField(field: string) {
    Lower(field) in IP_FIELDS + MAC_FIELDS + HOST_FIELDS + PORT_FIELDS + PAYLOAD_FIELDS
  }

  predicate Occurs(s: string, sub: string) { exists i :: 0 <= i <= |s| - |sub| && OccursAt(s, sub, i) }

  predicate OccursAt(s: string, sub: string, i: int)
    requires 0 <= i <= |s| - |sub|
  {
    s[i..i + |sub|] == sub
  }

  predicate Negates(op: string) { op == "!=" || op == "ne" }

  /** Does one text of the node match? */
  predicate TextMatches(op: string, text: string, value: string) {
    if op == "contains" then Occurs(Lower(text), Lower(value)) else Lower(text) == Lower(value)
  }

  predicate IpHit(net: Net, op: string, value: string, c: NodeCtx) {
    exists i :: 0 <= i < |[c.id] + c.ips| && IpMatches(net, op, ([c.id] + c.ips)[i], value)
  }

  predicate IpMatches(net: Net, op: string, text: string, value: string) {
    if net.isCidr(value) then net.contains(value, text) else TextMatches(op, text, value)
  }

  predicate MacHit(op: string, value: string, c: NodeCtx) {
    exists i :: 0 <= i < |c.macs| && TextMatches(op, c.macs[i], value)
  }

  /** A decimal number with an optional sign. */
  function Atoi(s: string): Option<int> {
    if s == "" then None
    else if s[0] == '-' then (if |s| == 1 || !AllDigits(s[1..]) then None else Some(-Digits(s[1..])))
    else if s[0] == '+' then (if |s| == 1 || !AllDigits(s[1..]) then None else Some(Digits(s[1..])))
    else if AllDigits(s) then Some(Digits(s)) else None
  }

  predicate AllDigits(s: string) { forall i :: 0 <= i < |s| ==> '0' <= s[i] <= '9' }

  function Digits(s: string): int
    requires AllDigits(s)
  {
    if s == "" then 0 else 10 * Digits(s[..|s| - 1]) + (s[|s| - 1] as int - '0' as int)
  }

  predicate ValidPort(value: string) { Atoi(value).Some? && 0 <= Atoi(value).value <= 65535 }

  // ---- filters ----

  datatype Filter =
    | Either(left: Filter, right: Filter)
    | Both(left: Filter, right: Filter)
    | Neither(inner: Filter)
    | Compare(field: string, op: string, value: string)
    | Keyword(word: string)

  predicate CompareHolds(net: Net, field: string, op: string, value: string, c: NodeCtx) {
    var f := Lower(field);
    if f in IP_FIELDS then IpHit(net, op, value, c) != Negates(op)
    else if f in MAC_FIELDS then MacHit(op, value, c) != Negates(op)
    else if f in HOST_FIELDS then TextMatches(op, c.hostname, value) != Negates(op)
    else if f in PORT_FIELDS then ValidPort(value) && (Atoi(value).value in c.ports) != Negates(op)
    else false
  }

  /** The boolean meaning of a filter. */
  predicate Holds(net: Net, f: Filter, c: NodeCtx) {
    match f
    case Either(l, r) => Holds(net, l, c) || Holds(net, r, c)
    case Both(l, r) => Holds(net, l, c) && Holds(net, r, c)
    case Neither(g) => !Holds(net, g, c)
    case Compare(field, op, value) => CompareHolds(net, field, op, value, c)
    case Keyword(word) => Lower(word) in KNOWN_PROTOCOLS && Lower(word) in c.protos
  }

  /** Can a comparison of this field with this value ever hold? */
  predicate Comparable(field: string, value: string) {
    var f := Lower(field);
    f in IP_FIELDS || f in MAC_FIELDS || f in HOST_FIELDS || (f in PORT_FIELDS && ValidPort(value))
  }

  /** Not-equal is the negation of equal, except where a comparison never holds at all. */
  lemma NotEqualNegates(net: Net, field: string, value: string)
    ensures (forall c :: CompareHolds(net, field, "!=", value, c) == !CompareHolds(net, field, "==", value, c)) <==>
      Comparable(field, value)
  {
    hide IpHit, MacHit, TextMatches, ValidPort, Lower;
    if Comparable(field, value) {
      forall c ensures CompareHolds(net, field, "!=", value, c) == !CompareHolds(net, field, "==", value, c) {
        SameHits(net, value, c);
      }
    } else {
      var c := NodeCtx("", [], [], "", {}, {});
      assert !CompareHolds(net, field, "!=", value, c) && !CompareHolds(net, field, "==", value, c);
    }
  }

  lemma SameHits(net: Net, value: string, c: NodeCtx)
    ensures IpHit(net, "!=", value, c) == IpHit(net, "==", value, c) && MacHit("!=", value, c) == MacHit("==", value, c)
    ensures TextMatches("!=", c.hostname, value) == TextMatches("==", c.hostname, value)
  {
  }

  // ---- parsing ----

  datatype Parsed = Parsed(f: Filter, pos: nat, saw: bool) | Bad

  predicate IsValue(t: Token) { t.Word? || t.Quoted? }

  predicate KnownWord(w: string) { Lower(w) in KNOWN_PROTOCOLS }

  /** A parse that has not seen anything structured has read a single unknown word. */
  ghost predicate Fair(toks: seq<Token>, pos: nat, saw: bool, r: Parsed) {
    r.Parsed? ==>
      && pos < r.pos <= |toks| && (saw ==> r.saw)
      && (!saw ==> (r.saw <==> !(r.pos == pos + 1 && toks[pos].Word? && !KnownWord(toks[pos].val))))
  }

  function ParseOr(toks: seq<Token>, pos: nat, saw: bool): (r: Parsed)
    requires pos <= |toks|
    ensures Fair(toks, pos, saw, r)
    decreases |toks| - pos, 4
  {
    match ParseAnd(toks, pos, saw)
    case Bad => Bad
    case Parsed(left, p, s) => OrRest(toks, p, s, left)
  }

  function OrRest(toks: seq<Token>, pos: nat, saw: bool, left: Filter): (r: Parsed)
    requires pos <= |toks|
    ensures r.Parsed? ==>
      pos <= r.pos <= |toks| && (saw ==> r.saw) && (r.pos > pos ==> r.saw) && (r.pos == pos ==> r.saw == saw)
    decreases |toks| - pos, 3
  {
    if pos < |toks| && toks[pos] == Or then
      match ParseAnd(toks, pos + 1, true)
      case Bad => Bad
      case Parsed(right, p, s) => OrRest(toks, p, s, Either(left, right))
    else Parsed(left, pos, saw)
  }

  function ParseAnd(toks: seq<Token>, pos: nat, saw: bool): (r: Parsed)
    requires pos <= |toks|
    ensures Fair(toks, pos, saw, r)
    decreases |toks| - pos, 2
  {
    match ParseNot(toks, pos, saw)
    case Bad => Bad
    case Parsed(left, p, s) => AndRest(toks, p, s, left)
  }

  function AndRest(toks: seq<Token>, pos: nat, saw: bool, left: Filter): (r: Parsed)
    requires pos <= |toks|
    ensures r.Parsed? ==>
      pos <= r.pos <= |toks| && (saw ==> r.saw) && (r.pos > pos ==> r.saw) && (r.pos == pos ==> r.saw == saw)
    decreases |toks| - pos, 2
  {
    if pos < |toks| && toks[pos] == And then
      match ParseNot(toks, pos + 1, true)
      case Bad => Bad
      case Parsed(right, p, s) => AndRest(toks, p, s, Both(left, right))
    else Parsed(left, pos, saw)
  }

  function ParseNot(toks: seq<Token>, pos: nat, saw: bool): (r: Parsed)
    requires pos <= |toks|
    ensures Fair(toks, pos, saw, r)
    decreases |toks| - pos, 1
  {
    if pos < |toks| && toks[pos] == Not then
      match ParseNot(toks, pos + 1, true)
      case Bad => Bad
      case Parsed(inner, p, s) => Parsed(Neither(inner), p, s)
    else ParsePrimary(toks, pos, saw)
  }

  function ParsePrimary(toks: seq<Token>, pos: nat, saw: bool): (r: Parsed)
    requires pos <= |toks|
    ensures Fair(toks, pos, saw, r)
    decreases |toks| - pos, 0
  {
    if pos == |toks| then Bad
    else if toks[pos] == LParen then
      match ParseOr(toks, pos + 1, true)
      case Bad => Bad
      case Parsed(inner, p, s) => if p < |toks| && toks[p] == RParen then Parsed(inner, p + 1, s) else Bad
    else if !toks[pos].Word? then Bad
    else
      var field := toks[pos].val;
      if pos + 1 < |toks| && toks[pos + 1].Op? then
        if pos + 2 < |toks| && IsValue(toks[pos + 2]) && KnownField(field) then
          Parsed(Compare(field, toks[pos + 1].val, toks[pos + 2].val), pos + 3, true)
        else Bad
      else Parsed(Keyword(field), pos + 1, saw || KnownWord(field))
  }

  /** A full parse is unstructured exactly if the query is one word that is not a known protocol. */
  lemma UnstructuredIsOneUnknownWord(toks: seq<Token>)
    ensures var r := ParseOr(toks, 0, false);
      r.Parsed? && r.pos == |toks| && !r.saw <==> |toks| == 1 && toks[0].Word? && !KnownWord(toks[0].val)
  {
    if |toks| == 1 && toks[0].Word? && !KnownWord(toks[0].val) {
      assert ParsePrimary(toks, 0, false) == Parsed(Keyword(toks[0].val), 1, false);
      assert ParseNot(toks, 0, false) == Parsed(Keyword(toks[0].val), 1, false);
      assert ParseAnd(toks, 0, false) == Parsed(Keyword(toks[0].val), 1, false);
    }
  }

  // ---- the parser object ----

  datatype Outcome = Ok(pred: Predicate) | ParseError

  /** The predicate built agrees with the filter parsed, on every node. */
  ghost predicate Builds(net: Net, o: Outcome, r: Parsed) {
    match o
    case Ok(pred) => r.Parsed? && forall c :: pred(c) == Holds(net, r.f, c)
    case ParseError => r.Bad?
  }

  class Parser {
    const net: Net
    const toks: seq<Token>
    var pos: nat
    var sawStructured: bool

    constructor (net: Net, toks: seq<Token>)
      ensures this.net == net && this.toks == toks && pos == 0 && !sawStructured
    {
      this.net, this.toks, pos, sawStructured := net, toks, 0, false;
    }

    /** How a method leaves the parser, against the function that specifies it. */
    ghost predicate Left(o: Outcome, r: Parsed)
      reads this
    {
      Builds(net, o, r) && (r.Parsed? ==> pos == r.pos && sawStructured == r.saw)
    }

    method OrExpr() returns (o: Outcome)
      requires pos <= |toks|
      modifies this
      ensures old(pos) <= pos <= |toks| && Left(o, ParseOr(toks, old(pos), old(sawStructured)))
      decreases |toks| - pos, 4
    {
      hide Holds, ParseAnd, ParseNot, ParsePrimary, AndRest;
      ghost var start, saw := pos, sawStructured;
      ghost var r := ParseAnd(toks, pos, sawStructured);
      o := AndExpr();
      while o.Ok? && pos < |toks| && toks[pos] == Or
        invariant Left(o, r) && start <= pos <= |toks|
        invariant o.Ok? ==> start < pos && ParseOr(toks, start, saw) == OrRest(toks, pos, sawStructured, r.f)
        invariant o.ParseError? ==> ParseOr(toks, start, saw).Bad?
        decreases |toks| - pos, o.Ok?
      {
        var left, l := o.pred, r.f;
        pos, sawStructured := pos + 1, true;
        r := ParseAnd(toks, pos, true);
        o := AndExpr();
        if o.Ok? {
          o := Disjunction(net, left, o.pred, l, r.f);
          r := r.(f := Either(l, r.f));
        }
      }
    }

    method AndExpr() returns (o: Outcome)
      requires pos <= |toks|
      modifies this
      ensures old(pos) <= pos <= |toks| && Left(o, ParseAnd(toks, old(pos), old(sawStructured)))
      decreases |toks| - pos, 2
    {
      hide Holds, ParseNot, ParsePrimary;
      ghost var start, saw := pos, sawStructured;
      ghost var r := ParseNot(toks, pos, sawStructured);
      o := NotExpr();
      while o.Ok? && pos < |toks| && toks[pos] == And
        invariant Left(o, r) && start <= pos <= |toks|
        invariant o.Ok? ==> start < pos && ParseAnd(toks, start, saw) == AndRest(toks, pos, sawStructured, r.f)
        invariant o.ParseError? ==> ParseAnd(toks, start, saw).Bad?
        decreases |toks| - pos, o.Ok?
      {
        var left, l := o.pred, r.f;
        pos, sawStructured := pos + 1, true;
        r := ParseNot(toks, pos, true);
        o := NotExpr();
        if o.Ok? {
          o := Conjunction(net, left, o.pred, l, r.f);
          r := r.(f := Both(l, r.f));
        }
      }
    }

    method NotExpr() returns (o: Outcome)
      requires pos <= |toks|
      modifies this
      ensures old(pos) <= pos <= |toks| && Left(o, ParseNot(toks, old(pos), old(sawStructured)))
      decreases |toks| - pos, 1
    {
      hide Holds, ParsePrimary;
      if pos < |toks| && toks[pos] == Not {
        pos, sawStructured := pos + 1, true;
        ghost var r := ParseNot(toks, pos, true);
        o := NotExpr();
        if o.Ok? {
          var inner := o.pred;
          NeitherHolds(net, r.f);
          o := Ok((c: NodeCtx) => !inner(c));
        }
      } else {
        o := Primary();
      }
    }

    method Primary() returns (o: Outcome)
      requires pos <= |toks|
      modifies this
      ensures old(pos) <= pos <= |toks| && Left(o, ParsePrimary(toks, old(pos), old(sawStructured)))
      decreases |toks| - pos, 0
    {
      hide Holds, CompareHolds, ParseOr;
      if pos == |toks| {
        return ParseError;
      }
      var t := toks[pos];
      if t == LParen {
        pos, sawStructured := pos + 1, true;
        o := OrExpr();
        if o.ParseError? {
          return;
        }
        if pos == |toks| || toks[pos] != RParen {
          return ParseError;
        }
        pos := pos + 1;
        return;
      }
      if !t.Word? {
        return ParseError;
      }
      var field := t.val;
      pos := pos + 1;
      if pos < |toks| && toks[pos].Op? {
        var op := toks[pos].val;
        pos := pos + 1;
        if pos == |toks| || !IsValue(toks[pos]) {
          return ParseError;
        }
        var value := toks[pos].val;
        pos, sawStructured := pos + 1, true;
        o := BuildComparison(net, field, op, value);
        return;
      }
      var want := Lower(field);
      KeywordHolds(net, field);
      if want in KNOWN_PROTOCOLS {
        sawStructured := true;
        return Ok((c: NodeCtx) => want in c.protos);
      }
      o := Ok((c: NodeCtx) => false);
    }
  }

  method Disjunction(net: Net, left: Predicate, right: Predicate, ghost l: Filter, ghost r: Filter) returns (o: Outcome)
    requires forall c :: left(c) == Holds(net, l, c) && right(c) == Holds(net, r, c)
    ensures o.Ok? && forall c :: o.pred(c) == Holds(net, Either(l, r), c)
  {
    o := Ok((c: NodeCtx) => left(c) || right(c));
  }

  method Conjunction(net: Net, left: Predicate, right: Predicate, ghost l: Filter, ghost r: Filter) returns (o: Outcome)
    requires forall c :: left(c) == Holds(net, l, c) && right(c) == Holds(net, r, c)
    ensures o.Ok? && forall c :: o.pred(c) == Holds(net, Both(l, r), c)
  {
    o := Ok((c: NodeCtx) => left(c) && right(c));
  }

  lemma NeitherHolds(net: Net, f: Filter)
    ensures forall c {:trigger Holds(net, Neither(f), c)} :: Holds(net, Neither(f), c) == !Holds(net, f, c)
  {
  }

  lemma KeywordHolds(net: Net, word: string)
    ensures forall c {:trigger Holds(net, Keyword(word), c)} ::
      Holds(net, Keyword(word), c) == (Lower(word) in KNOWN_PROTOCOLS && Lower(word) in c.protos)
  {
  }

  lemma CompareIs(net: Net, field: string, op: string, value: string)
    ensures forall c {:trigger Holds(net, Compare(field, op, value), c)} ::
      Holds(net, Compare(field, op, value), c) == CompareHolds(net, field, op, value, c)
  {
  }

  /** Turns "field op value" into a predicate; an unknown field is an error. */
  method BuildComparison(net: Net, field: string, op: string, value: string) returns (o: Outcome)
    ensures o.Ok? <==> KnownField(field)
    ensures o.Ok? ==> forall c :: o.pred(c) == Holds(net, Compare(field, op, value), c)
  {
    hide Holds, IpHit, MacHit, TextMatches, Atoi;
    CompareIs(net, field, op, value);
    var f := Lower(field);
    if f in IP_FIELDS {
      o := Ok((c: NodeCtx) => IpHit(net, op, value, c) != Negates(op));
    } else if f in MAC_FIELDS {
      o := Ok((c: NodeCtx) => MacHit(op, value, c) != Negates(op));
    } else if f in HOST_FIELDS {
      o := Ok((c: NodeCtx) => TextMatches(op, c.hostname, value) != Negates(op));
    } else if f in PORT_FIELDS {
      if !ValidPort(value) {
        return Ok((c: NodeCtx) => false);
      }
      var port := Atoi(value).value;
      o := Ok((c: NodeCtx) => (port in c.ports) != Negates(op));
    } else if f in PAYLOAD_FIELDS {
      o := Ok((c: NodeCtx) => false);
    } else {
      o := ParseError;
    }
  }

  /** The query as a filter: none if it does not parse to its end, or if nothing in it is structured. */
  function FilterOf(toks: seq<Token>): Option<Filter> {
    var r := ParseOr(toks, 0, false);
    if toks != [] && r.Parsed? && r.pos == |toks| && r.saw then Some(r.f) else None
  }

  method ParseFilter(net: Net, query: string) returns (o: Outcome)
    requires Halts(query, 0)
    ensures o.Ok? <==> FilterOf(Tokens(query, 0)).Some?
    ensures o.Ok? ==> forall c :: o.pred(c) == Holds(net, FilterOf(Tokens(query, 0)).value, c)
  {
    hide Holds, Turn;
    var toks := TokenizeFilter(query);
    if toks == [] {
      return ParseError;
    }
    var p := new Parser(net, toks);
    o := p.OrExpr();
    if o.Ok? && (p.pos < |toks| || !p.sawStructured) {
      o := ParseError;
    }
  }
}
