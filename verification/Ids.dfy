/** Node and edge identifiers (graph/graph.go).

    An edge between two nodes is stored under one canonical key whichever way a
    packet travels: the lexicographically smaller endpoint, the separator, the
    other endpoint. Strings are sequences of bytes, compared byte by byte. */
module Ids {
  const SEPARATOR := "<->"

  /** Go's `<` on strings. */
  predicate Less(a: string, b: string) {
    if b == "" then false
    else if a == "" then true
    else a[0] < b[0] || (a[0] == b[0] && Less(a[1..], b[1..]))
  }

  /** The texts differ first at `k`, where `a` has the smaller byte. */
  ghost predicate SmallerAt(a: string, b: string, k: int) {
    0 <= k < |a| && k < |b| && a[k] < b[k] && forall i :: 0 <= i < k ==> a[i] == b[i]
  }

  /** The order of dictionaries: a proper beginning comes first, else the first difference decides. */
  lemma {:induction false} LessExactly(a: string, b: string)
    ensures Less(a, b) <==> (|a| < |b| && b[..|a|] == a) || exists k :: SmallerAt(a, b, k)
    decreases |a|
  {
    if a != "" && b != "" && a[0] == b[0] {
      var c, d := a[1..], b[1..];
      LessExactly(c, d);
      if |a| <= |b| { assert b[..|a|] == [b[0]] + d[..|c|] && a == [a[0]] + c; }
      forall k ensures SmallerAt(a, b, k + 1) <==> SmallerAt(c, d, k) { }
      if k :| SmallerAt(a, b, k) { assert SmallerAt(c, d, k - 1); }
    } else if a != "" && b != "" {
      assert a[0] < b[0] <==> SmallerAt(a, b, 0);
    }
  }

  function CanonFrom(a: string, b: string): string { if Less(a, b) then a else b }

  function CanonTo(a: string, b: string): string { if Less(a, b) then b else a }

  function EdgeId(a: string, b: string): string { CanonFrom(a, b) + SEPARATOR + CanonTo(a, b) }

  /** Does the separator occur in `s` at position `i`? */
  predicate SeparatorAt(s: string, i: nat) {
    i + 3 <= |s| && s[i] == '<' && s[i + 1] == '-' && s[i + 2] == '>'
  }

  /** An identifier the server hands out: the separator does not occur in it. */
  ghost predicate Plain(s: string) {
    forall i: nat :: !SeparatorAt(s, i)
  }

  lemma {:induction false} LessIsTotal(a: string, b: string)
    ensures a == b || Less(a, b) || Less(b, a)
    ensures !(Less(a, b) && Less(b, a))
    ensures !Less(a, a)
    decreases |a|
  {
    if a != "" && b != "" {
      LessIsTotal(a[1..], b[1..]);
      assert a == [a[0]] + a[1..] && b == [b[0]] + b[1..];
    } else if a != "" {
      LessIsTotal(a[1..], a[1..]);
    }
  }

  lemma {:induction false} LessIsTransitive(a: string, b: string, c: string)
    requires Less(a, b) && Less(b, c)
    ensures Less(a, c)
    decreases |a|
  {
    if a != "" && a[0] == b[0] && b[0] == c[0] {
      LessIsTransitive(a[1..], b[1..], c[1..]);
    }
  }

  /** The key does not depend on the direction, and its two halves are the two endpoints in order. */
  lemma CanonicalOrder(a: string, b: string)
    ensures CanonFrom(a, b) == CanonFrom(b, a) && CanonTo(a, b) == CanonTo(b, a) && EdgeId(a, b) == EdgeId(b, a)
    ensures !Less(CanonTo(a, b), CanonFrom(a, b))
    ensures CanonFrom(CanonFrom(a, b), CanonTo(a, b)) == CanonFrom(a, b)
    ensures CanonTo(CanonFrom(a, b), CanonTo(a, b)) == CanonTo(a, b)
  {
    LessIsTotal(a, b);
  }

  /** The separator's first occurrence in `a + "<->" + b` is right after `a`, when `a` is plain. */
  lemma FirstSeparator(a: string, b: string)
    requires Plain(a)
    ensures SeparatorAt(a + SEPARATOR + b, |a|)
    ensures forall i: nat :: i < |a| ==> !SeparatorAt(a + SEPARATOR + b, i)
  {
    var s := a + SEPARATOR + b;
    assert s[|a|] == '<' && s[|a| + 1] == '-' && s[|a| + 2] == '>';
    forall i: nat | i < |a| ensures !SeparatorAt(s, i) {
      assert !SeparatorAt(a, i);
      assert s[..|a|] == a;
      if i + 3 <= |a| {
        assert s[i] == a[i] && s[i + 1] == a[i + 1] && s[i + 2] == a[i + 2];
      }
    }
  }

  lemma JoinIsInjective(a: string, b: string, c: string, d: string)
    requires Plain(a) && Plain(c)
    requires a + SEPARATOR + b == c + SEPARATOR + d
    ensures a == c && b == d
  {
    FirstSeparator(a, b);
    FirstSeparator(c, d);
    var s := a + SEPARATOR + b;
    assert |a| == |c|;
    assert a == s[..|a|] && c == s[..|c|];
    assert b == s[|a| + 3..] && d == s[|c| + 3..];
  }

  /** Distinct pairs of plain identifiers have distinct edge keys. */
  lemma EdgeIdIsInjective(a: string, b: string, c: string, d: string)
    requires Plain(a) && Plain(b) && Plain(c) && Plain(d)
    requires EdgeId(a, b) == EdgeId(c, d)
    ensures (a == c && b == d) || (a == d && b == c)
    ensures CanonFrom(a, b) == CanonFrom(c, d) && CanonTo(a, b) == CanonTo(c, d)
  {
    JoinIsInjective(CanonFrom(a, b), CanonTo(a, b), CanonFrom(c, d), CanonTo(c, d));
  }

  datatype Endpoints = NotAnEdge | Endpoints(from: string, to: string)

  function FirstSeparatorFrom(s: string, i: nat): (r: int)
    requires i <= |s|
    ensures r == -1 || (i <= r && SeparatorAt(s, r))
    ensures forall k: nat :: i <= k && (r == -1 || k < r) ==> !SeparatorAt(s, k)
    decreases |s| - i
  {
    if SeparatorAt(s, i) then i
    else if i == |s| then -1
    else FirstSeparatorFrom(s, i + 1)
  }

  /** SplitEdgeID: cut at the first separator; both halves must be non-empty. */
  function SplitEdgeId(id: string): Endpoints {
    var i := FirstSeparatorFrom(id, 0);
    if i > 0 && i + 3 < |id| then Endpoints(id[..i], id[i + 3..]) else NotAnEdge
  }

  /** Splitting undoes joining exactly when both halves are non-empty and no separator begins before
      the join: the first half must be plain, the second may contain anything. */
  lemma SplitUndoesJoin(from: string, to: string)
    ensures SplitEdgeId(from + SEPARATOR + to) == Endpoints(from, to) <==> from != "" && to != "" && Plain(from)
  {
    var s := from + SEPARATOR + to;
    var i := FirstSeparatorFrom(s, 0);
    forall k: nat ensures SeparatorAt(from, k) ==> SeparatorAt(s, k) {
      if SeparatorAt(from, k) {
        assert s[k] == from[k] && s[k + 1] == from[k + 1] && s[k + 2] == from[k + 2];
      }
    }
    if from != "" && to != "" && Plain(from) {
      FirstSeparator(from, to);
      assert s[..|from|] == from && s[|from| + 3..] == to;
    }
    if SplitEdgeId(s) == Endpoints(from, to) {
      assert s[..i] == from;
    }
  }

  /** What is split is always rejoined to the same key. */
  lemma JoinUndoesSplit(id: string)
    requires SplitEdgeId(id).Endpoints?
    ensures SplitEdgeId(id).from + SEPARATOR + SplitEdgeId(id).to == id
  {
  }
}
