/** The busiest flows of a tick (server/websocket.go topKFlows). */
module TopFlows {
  import opened Views

  /** Where a flow goes in a list sorted by falling packets: after everything at least as busy. */
  function Place(top: seq<Flow>, f: Flow): nat {
    if top == [] || top[0].packets < f.packets then 0 else 1 + Place(top[1..], f)
  }

  lemma {:induction false} PlaceIsFirst(top: seq<Flow>, f: Flow)
    ensures Place(top, f) <= |top|
    ensures forall i :: 0 <= i < Place(top, f) ==> top[i].packets >= f.packets
    ensures Place(top, f) < |top| ==> top[Place(top, f)].packets < f.packets
  {
    if top != [] && top[0].packets >= f.packets {
      PlaceIsFirst(top[1..], f);
    }
  }

  function Inserted(top: seq<Flow>, f: Flow): seq<Flow> {
    PlaceIsFirst(top, f);
    top[..Place(top, f)] + [f] + top[Place(top, f)..]
  }

  /** The flows sorted by falling packets, ties in the order they came. */
  function Sorted(flows: seq<Flow>): seq<Flow> {
    if flows == [] then [] else Inserted(Sorted(flows[..|flows| - 1]), flows[|flows| - 1])
  }

  predicate Falling(flows: seq<Flow>) { forall i, j :: 0 <= i < j < |flows| ==> flows[i].packets >= flows[j].packets }

  /** The flows with exactly these many packets, in order. */
  function With(flows: seq<Flow>, packets: int): seq<Flow> {
    if flows == [] then []
    else
      var past := With(flows[..|flows| - 1], packets);
      if flows[|flows| - 1].packets == packets then past + [flows[|flows| - 1]] else past
  }

  lemma {:induction false} WithAppend(a: seq<Flow>, b: seq<Flow>, packets: int)
    ensures With(a + b, packets) == With(a, packets) + With(b, packets)
  {
    if b == [] {
      assert a + b == a;
    } else {
      assert (a + b)[..|a + b| - 1] == a + b[..|b| - 1];
      WithAppend(a, b[..|b| - 1], packets);
    }
  }

  lemma {:induction false} WithNone(flows: seq<Flow>, packets: int)
    requires forall i :: 0 <= i < |flows| ==> flows[i].packets != packets
    ensures With(flows, packets) == []
  {
    if flows != [] {
      WithNone(flows[..|flows| - 1], packets);
    }
  }

  /** A stable descending sort: falling, and among equals the flows as they came. */
  ghost predicate IsStableSort(flows: seq<Flow>, r: seq<Flow>) {
    Falling(r) && forall p :: With(r, p) == With(flows, p)
  }

  lemma InsertedFalls(top: seq<Flow>, f: Flow)
    requires Falling(top)
    ensures Falling(Inserted(top, f)) && |Inserted(top, f)| == |top| + 1
  {
    PlaceIsFirst(top, f);
  }

  lemma WithAround(low: seq<Flow>, f: Flow, high: seq<Flow>, p: int)
    requires f.packets == p ==> With(high, p) == []
    ensures With(low + [f] + high, p) == With(low + high, p) + if f.packets == p then [f] else []
  {
    hide With;
    WithAppend(low + [f], high, p);
    WithAppend(low, [f], p);
    WithAppend(low, high, p);
    OneWith(f, p);
  }

  lemma InsertedWith(top: seq<Flow>, f: Flow, p: int)
    requires Falling(top)
    ensures With(Inserted(top, f), p) == With(top, p) + if f.packets == p then [f] else []
  {
    hide With, Place;
    PlaceIsFirst(top, f);
    var low, high := top[..Place(top, f)], top[Place(top, f)..];
    assert top == low + high;
    if f.packets == p {
      WithNone(high, p);
    }
    WithAround(low, f, high, p);
  }

  lemma OneWith(f: Flow, p: int)
    ensures With([f], p) == if f.packets == p then [f] else []
  {
  }

  lemma {:induction false} SortedIsStable(flows: seq<Flow>)
    ensures IsStableSort(flows, Sorted(flows)) && |Sorted(flows)| == |flows|
  {
    if flows != [] {
      var past, f := flows[..|flows| - 1], flows[|flows| - 1];
      SortedIsStable(past);
      InsertedFalls(Sorted(past), f);
      forall p ensures With(Sorted(flows), p) == With(flows, p) {
        InsertedWith(Sorted(past), f, p);
      }
    }
  }

  lemma WithLast(r: seq<Flow>)
    requires r != []
    ensures With(r, r[|r| - 1].packets) != []
      && With(r, r[|r| - 1].packets)[|With(r, r[|r| - 1].packets)| - 1] == r[|r| - 1]
  {
  }

  lemma {:induction false} WithHas(r: seq<Flow>, p: int)
    ensures With(r, p) != [] <==> exists i :: 0 <= i < |r| && r[i].packets == p
  {
    if r != [] {
      WithHas(r[..|r| - 1], p);
      if With(r, p) != [] && r[|r| - 1].packets != p {
        var i :| 0 <= i < |r| - 1 && r[..|r| - 1][i].packets == p;
        assert r[i].packets == p;
      }
      if i :| 0 <= i < |r| && r[i].packets == p {
        if i < |r| - 1 { assert r[..|r| - 1][i].packets == p; }
      }
    }
  }

  lemma WithoutLast(r: seq<Flow>, s: seq<Flow>, p: int)
    requires r != [] && s != [] && r[|r| - 1] == s[|s| - 1] && With(r, p) == With(s, p)
    ensures With(r[..|r| - 1], p) == With(s[..|s| - 1], p)
  {
    var a, x, y := r[|r| - 1], With(r[..|r| - 1], p), With(s[..|s| - 1], p);
    if a.packets == p {
      assert x == (x + [a])[..|x|] && y == (y + [a])[..|y|];
    }
  }

  lemma SameLast(r: seq<Flow>, s: seq<Flow>)
    requires r != [] && s != [] && Falling(r) && Falling(s) && forall p :: With(r, p) == With(s, p)
    ensures r[|r| - 1] == s[|s| - 1]
  {
    SameLastAt(r, s, r[|r| - 1].packets, s[|s| - 1].packets);
  }

  lemma SameLastAt(r: seq<Flow>, s: seq<Flow>, p: int, q: int)
    requires r != [] && s != [] && Falling(r) && Falling(s) && p == r[|r| - 1].packets && q == s[|s| - 1].packets
    requires With(r, p) == With(s, p) && With(r, q) == With(s, q)
    ensures r[|r| - 1] == s[|s| - 1]
  {
    hide With, Falling;
    WithLast(r);
    WithLast(s);
    LastIsLeast(r, q);
    LastIsLeast(s, p);
  }

  lemma LastIsLeast(r: seq<Flow>, p: int)
    requires Falling(r) && With(r, p) != []
    ensures r != [] && p >= r[|r| - 1].packets
  {
    hide With;
    WithHas(r, p);
  }

  lemma EmptyTogether(r: seq<Flow>, s: seq<Flow>)
    requires r == [] && forall p :: With(r, p) == With(s, p)
    ensures s == []
  {
    if s != [] { WithLast(s); }
  }

  /** There is only one stable descending sort. */
  lemma {:induction false} StableSortIsUnique(r: seq<Flow>, s: seq<Flow>)
    requires Falling(r) && Falling(s) && forall p :: With(r, p) == With(s, p)
    ensures r == s
    decreases |r|
  {
    if r == [] {
      EmptyTogether(r, s);
    } else if s == [] {
      EmptyTogether(s, r);
    } else {
      hide With;
      SameLast(r, s);
      var r', s' := r[..|r| - 1], s[..|s| - 1];
      forall p ensures With(r', p) == With(s', p) { WithoutLast(r, s, p); }
      StableSortIsUnique(r', s');
      assert r == r' + [r[|r| - 1]] && s == s' + [s[|s| - 1]];
    }
  }

  function First(flows: seq<Flow>, k: nat): seq<Flow> { if |flows| <= k then flows else flows[..k] }

  /** Inserting into the first k and cutting again is cutting after inserting. */
  lemma CutCommutes(top: seq<Flow>, f: Flow, k: nat)
    requires Falling(top)
    ensures First(Inserted(First(top, k), f), k) == First(Inserted(top, f), k)
  {
    if |top| > k {
      var p := Place(top, f);
      PlaceCut(top, f, k);
      PlaceIsFirst(top, f);
      if p < k {
        CutInside(top, f, p, k);
      } else {
        assert Inserted(top[..k], f)[..k] == top[..k];
        assert Inserted(top, f)[..k] == top[..k];
      }
    }
  }

  lemma CutInside(top: seq<Flow>, f: Flow, p: nat, k: nat)
    requires p < k < |top|
    ensures (top[..k][..p] + [f] + top[..k][p..])[..k] == (top[..p] + [f] + top[p..])[..k]
  {
  }

  lemma {:induction false} PlaceCut(top: seq<Flow>, f: Flow, k: nat)
    requires k <= |top|
    ensures Place(top[..k], f) == if Place(top, f) <= k then Place(top, f) else k
  {
    if k > 0 && top[0].packets >= f.packets {
      PlaceCut(top[1..], f, k - 1);
      assert top[..k][1..] == top[1..][..k - 1];
    }
  }

  method InsertTop(top: seq<Flow>, f: Flow, k: nat) returns (r: seq<Flow>)
    requires Falling(top) && |top| <= k
    ensures r == First(Inserted(top, f), k)
  {
    var i := 0;
    while i < |top| && top[i].packets >= f.packets
      invariant i <= |top| && forall j :: 0 <= j < i ==> top[j].packets >= f.packets
    {
      i := i + 1;
    }
    PlaceIsFirst(top, f);
    if i == k {
      return top;
    }
    r := top[..i] + [f] + top[i..];
    if |r| > k {
      r := r[..k];
    }
  }

  /** With more flows than fit, exactly the first k of the stable descending sort; otherwise the flows as they are. */
  method TopKFlows(flows: seq<Flow>, k: nat) returns (top: seq<Flow>)
    ensures |flows| <= k ==> top == flows
    ensures |flows| > k ==> |top| == k && forall r :: IsStableSort(flows, r) ==> |r| == |flows| && top == r[..k]
  {
    if |flows| <= k {
      return flows;
    }
    hide Falling, With, Inserted;
    top := [];
    SortedIsStable([]);
    for n := 0 to |flows|
      invariant top == First(Sorted(flows[..n]), k)
    {
      assert flows[..n + 1][..n] == flows[..n];
      SortedIsStable(flows[..n]);
      CutCommutes(Sorted(flows[..n]), flows[n], k);
      CutFalls(Sorted(flows[..n]), k);
      top := InsertTop(top, flows[n], k);
    }
    assert flows[..|flows|] == flows;
    SortedIsStable(flows);
    forall r | IsStableSort(flows, r) ensures r == Sorted(flows) {
      StableSortIsUnique(r, Sorted(flows));
    }
  }

  lemma CutFalls(top: seq<Flow>, k: nat)
    requires Falling(top)
    ensures Falling(First(top, k))
  {
  }
}
