/** What a comparison of the display filter means, on the text and the node (graph/filter.go buildComparison). */
module FilterMeaning {
  import opened GraphState
  import opened FilterLexer
  import opened FilterParser

  // ---- text ----

  /** Lower case changes the ASCII capitals and nothing else. */
  lemma LowerExactly(s: string)
    ensures |Lower(s)| == |s|
    ensures forall i :: 0 <= i < |s| ==>
      Lower(s)[i] as int == (if 65 <= s[i] as int <= 90 then s[i] as int + 32 else s[i] as int)
  {
  }

  /** A text occurs in another exactly if that has it between a beginning and an end. */
  lemma OccursExactly(s: string, sub: string)
    ensures Occurs(s, sub) <==> exists a, b :: s == a + sub + b
  {
    if Occurs(s, sub) {
      var i :| 0 <= i <= |s| - |sub| && OccursAt(s, sub, i);
      assert s == s[..i] + sub + s[i + |sub|..];
    }
    if a, b :| s == a + sub + b {
      assert s[|a|..|a| + |sub|] == sub;
      assert OccursAt(s, sub, |a|);
    }
  }

  // ---- numbers ----

  function Power10(n: nat): int { if n == 0 then 1 else 10 * Power10(n - 1) }

  /** The value of digits, each times its power of ten. */
  function PlaceValue(s: string): int {
    if s == "" then 0 else (s[0] as int - 48) * Power10(|s| - 1) + PlaceValue(s[1..])
  }

  lemma {:induction false} PlaceValueAppend(s: string, c: char)
    ensures PlaceValue(s + [c]) == 10 * PlaceValue(s) + (c as int - 48)
  {
    if s == "" {
      assert (s + [c])[1..] == "";
    } else {
      assert (s + [c])[1..] == s[1..] + [c];
      PlaceValueAppend(s[1..], c);
    }
  }

  lemma {:induction false} DigitsAreDecimal(s: string)
    requires AllDigits(s)
    ensures Digits(s) == PlaceValue(s)
  {
    if s != "" {
      DigitsAreDecimal(s[..|s| - 1]);
      PlaceValueAppend(s[..|s| - 1], s[|s| - 1]);
      assert s == s[..|s| - 1] + [s[|s| - 1]];
    }
  }

  ghost predicate Decimal(s: string) { s != "" && forall i :: 0 <= i < |s| ==> 48 <= s[i] as int <= 57 }

  /** What reads as a number: digits, perhaps after a sign, with their decimal value. */
  lemma NumberExactly(s: string, v: int)
    ensures Atoi(s) == Some(v) <==>
      || (Decimal(s) && v == PlaceValue(s))
      || (s != "" && s[0] == '+' && Decimal(s[1..]) && v == PlaceValue(s[1..]))
      || (s != "" && s[0] == '-' && Decimal(s[1..]) && v == -PlaceValue(s[1..]))
  {
    hide Digits, PlaceValue;
    if s != "" {
      if AllDigits(s) { DigitsAreDecimal(s); }
      if AllDigits(s[1..]) { DigitsAreDecimal(s[1..]); }
      if s[0] == '+' || s[0] == '-' { assert !Decimal(s); }
    }
  }

  // ---- comparisons ----

  /** The node's text matches, whatever its case: as a part of it under "contains", else as the whole. */
  ghost predicate Same(op: string, text: string, value: string) {
    if op == "contains" then exists a, b :: Lower(text) == a + Lower(value) + b else Lower(text) == Lower(value)
  }

  /** An address of the node is in the network, or is the same. */
  ghost predicate HasAddress(net: Net, op: string, value: string, c: NodeCtx) {
    exists text :: (text == c.id || text in c.ips)
      && if net.isCidr(value) then net.contains(value, text) else Same(op, text, value)
  }

  /** What each field's comparison says of a node; "!=" and "ne" say the opposite. A port that is no number, or none
      there can be, and the payload fields, hold of no node. */
  lemma ComparisonMeans(net: Net, field: string, op: string, value: string, c: NodeCtx)
    ensures var f, negated := Lower(field), op == "!=" || op == "ne";
      CompareHolds(net, field, op, value, c) <==>
      || (f in {"ip", "ip.addr", "ip.src", "ip.dst", "ip.host"} && HasAddress(net, op, value, c) != negated)
      || (f in {"eth", "eth.addr", "eth.src", "eth.dst", "mac"}
          && (exists mac :: mac in c.macs && Same(op, mac, value)) != negated)
      || (f in {"host", "hostname", "dns", "dns.qry.name", "http.host"} && Same(op, c.hostname, value) != negated)
      || (f in {"port", "tcp.port", "udp.port", "tcp.srcport", "tcp.dstport", "udp.srcport", "udp.dstport"}
          && exists port :: Atoi(value) == Some(port) && 0 <= port <= 65535 && (port in c.ports) != negated)
  {
    TextsAreSame(op, value);
    hide Atoi, Lower, TextMatches, IpHit, MacHit, Same, HasAddress;
    AddressesHit(net, op, value, c);
    MacsHit(op, value, c);
    PortsHit(value, op == "!=" || op == "ne", c);
  }

  lemma TextsAreSame(op: string, value: string)
    ensures forall text :: TextMatches(op, text, value) == Same(op, text, value)
  {
    hide Lower, Occurs;
    forall text ensures TextMatches(op, text, value) == Same(op, text, value) {
      OccursExactly(Lower(text), Lower(value));
    }
  }

  lemma PortsHit(value: string, negated: bool, c: NodeCtx)
    ensures (ValidPort(value) && (Atoi(value).value in c.ports) != negated) <==>
      exists port :: Atoi(value) == Some(port) && 0 <= port <= 65535 && (port in c.ports) != negated
  {
    hide Atoi;
  }

  lemma AddressesHit(net: Net, op: string, value: string, c: NodeCtx)
    requires forall text :: TextMatches(op, text, value) == Same(op, text, value)
    ensures IpHit(net, op, value, c) == HasAddress(net, op, value, c)
  {
    hide TextMatches, Same;
    var texts := [c.id] + c.ips;
    if HasAddress(net, op, value, c) {
      var text :| (text == c.id || text in c.ips)
        && if net.isCidr(value) then net.contains(value, text) else Same(op, text, value);
      assert text in texts;
      var i :| 0 <= i < |texts| && texts[i] == text;
      assert IpMatches(net, op, texts[i], value);
    }
    if IpHit(net, op, value, c) {
      var i :| 0 <= i < |texts| && IpMatches(net, op, texts[i], value);
      assert texts[i] == c.id || texts[i] in c.ips;
    }
  }

  lemma MacsHit(op: string, value: string, c: NodeCtx)
    requires forall text :: TextMatches(op, text, value) == Same(op, text, value)
    ensures MacHit(op, value, c) == exists mac :: mac in c.macs && Same(op, mac, value)
  {
    hide TextMatches, Same;
    if mac :| mac in c.macs && Same(op, mac, value) {
      var i :| 0 <= i < |c.macs| && c.macs[i] == mac;
      assert TextMatches(op, c.macs[i], value);
    }
  }

  /** How words read, whatever their case. */
  lemma WordsRead(w: string)
    ensures Lower(w) == "and" ==> WordToken(w) == And
    ensures Lower(w) == "or" ==> WordToken(w) == Or
    ensures Lower(w) == "not" ==> WordToken(w) == Not
    ensures Lower(w) == "contains" ==> WordToken(w) == Op("contains")
    ensures Lower(w) == "eq" ==> WordToken(w) == Op("eq")
    ensures Lower(w) == "ne" ==> WordToken(w) == Op("ne")
    ensures Lower(w) !in {"and", "or", "not", "contains", "eq", "ne"} ==> WordToken(w) == Word(w)
  {
    hide Lower;
  }
}
