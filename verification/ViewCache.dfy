/** The views one tick shares among clients of the same configuration, and the key it finds them by
    (server/viewcache.go, server/websocket.go). */
module ViewCache {
  import opened Ids
  import opened Hub

  // ---- numbers ----

  function Digit(d: nat): char
    requires d < 10
  {
    ('0' as int + d) as char
  }

  function Decimal(n: nat): string { if n < 10 then [Digit(n)] else Decimal(n / 10) + [Digit(n % 10)] }

  function Number(n: int): string { if n < 0 then "-" + Decimal(-n) else Decimal(n) }

  predicate Barless(s: string) { forall i :: 0 <= i < |s| ==> s[i] != '|' }

  lemma {:induction false} DecimalIsDigits(n: nat)
    ensures |Decimal(n)| > 0 && forall i :: 0 <= i < |Decimal(n)| ==> '0' <= Decimal(n)[i] <= '9'
  {
    if n >= 10 { DecimalIsDigits(n / 10); }
  }

  lemma {:induction false} DecimalIsInjective(a: nat, b: nat)
    requires Decimal(a) == Decimal(b)
    ensures a == b
  {
    var s := Decimal(a);
    DecimalIsDigits(a / 10);
    DecimalIsDigits(b / 10);
    if a < 10 || b < 10 {
      assert |s| == 1;
    } else {
      assert s[..|s| - 1] == Decimal(a / 10) && s[..|s| - 1] == Decimal(b / 10);
      DecimalIsInjective(a / 10, b / 10);
    }
  }

  lemma NumberIsInjective(a: int, b: int)
    requires Number(a) == Number(b)
    ensures a == b
  {
    hide Decimal;
    DecimalIsDigits(if a < 0 then -a else a);
    DecimalIsDigits(if b < 0 then -b else b);
    assert (a < 0 <==> Number(a)[0] == '-') && (b < 0 <==> Number(b)[0] == '-');
    if a < 0 {
      assert Decimal(-a) == Number(a)[1..] && Decimal(-b) == Number(b)[1..];
      DecimalIsInjective(-a, -b);
    } else {
      DecimalIsInjective(a, b);
    }
  }

  lemma NumberIsBarless(n: int)
    ensures Barless(Number(n))
  {
    hide Decimal;
    DecimalIsDigits(if n < 0 then -n else n);
  }

  // ---- sorted names ----

  ghost predicate Ascending(keys: seq<string>) { forall i, j :: 0 <= i < j < |keys| ==> Less(keys[i], keys[j]) }

  ghost predicate Sorts(keys: seq<string>, names: set<string>) {
    Ascending(keys) && forall k :: k in keys <==> k in names
  }

  ghost predicate IsLeast(k: string, names: set<string>) {
    k in names && forall other :: other in names && other != k ==> Less(k, other)
  }

  lemma {:induction false} HasLeast(names: set<string>)
    requires names != {}
    ensures exists k :: IsLeast(k, names)
    decreases |names|
  {
    hide Less;
    var k :| k in names;
    if names == {k} {
      assert IsLeast(k, names);
    } else {
      HasLeast(names - {k});
      var least :| IsLeast(least, names - {k});
      LessIsTotal(k, least);
      if Less(k, least) {
        forall other | other in names && other != k ensures Less(k, other) {
          if other != least { LessIsTransitive(k, least, other); }
        }
        assert IsLeast(k, names);
      } else {
        assert IsLeast(least, names);
      }
    }
  }

  ghost function Sorted(names: set<string>): (keys: seq<string>)
    ensures Sorts(keys, names)
    decreases |names|
  {
    if names == {} then []
    else
      HasLeast(names);
      var k :| IsLeast(k, names);
      LeastFirst(k, names, Sorted(names - {k}));
      [k] + Sorted(names - {k})
  }

  lemma LeastFirst(k: string, names: set<string>, rest: seq<string>)
    requires IsLeast(k, names) && Sorts(rest, names - {k})
    ensures Sorts([k] + rest, names)
  {
    hide Less;
    assert forall i :: 0 <= i < |rest| ==> rest[i] in rest;
  }

  /** There is one way to sort a set. */
  lemma {:induction false} SortsOnce(a: seq<string>, b: seq<string>, names: set<string>)
    requires Sorts(a, names) && Sorts(b, names)
    ensures a == b
    decreases |a|
  {
    hide Less;
    if a == [] {
      assert names == {};
      NothingToSort(b);
    } else {
      assert a[0] in names && a[0] in b;
      assert b[0] in names && b[0] in a;
      SameLeast(a, b);
      Rest(a, names);
      Rest(b, names);
      SortsOnce(a[1..], b[1..], names - {a[0]});
      assert a == [a[0]] + a[1..] && b == [b[0]] + b[1..];
    }
  }

  lemma NothingToSort(keys: seq<string>)
    requires Sorts(keys, {})
    ensures keys == []
  {
    if keys != [] { HasFirst(keys); }
  }

  lemma HasFirst(keys: seq<string>)
    requires keys != []
    ensures exists k :: k in keys
  {
    assert keys[0] in keys;
  }

  lemma SameLeast(a: seq<string>, b: seq<string>)
    requires a != [] && b != [] && Ascending(a) && Ascending(b) && a[0] in b && b[0] in a
    ensures a[0] == b[0]
  {
    hide Less;
    LessIsTotal(a[0], b[0]);
  }

  lemma Rest(a: seq<string>, names: set<string>)
    requires a != [] && Sorts(a, names)
    ensures Sorts(a[1..], names - {a[0]})
  {
    hide Less;
    forall i | 0 < i < |a| ensures a[i] != a[0] { LessIsTotal(a[0], a[i]); }
    forall k ensures k in a[1..] <==> k in names - {a[0]} {
      if k in names && k != a[0] {
        var i :| 0 <= i < |a| && a[i] == k;
        assert a[1..][i - 1] == k;
      }
    }
  }

  method SortNames(names: set<string>) returns (keys: seq<string>)
    ensures keys == Sorted(names)
  {
    hide Less, Sorted;
    keys := [];
    var todo := names;
    while todo != {}
      invariant todo <= names && Sorts(keys, names - todo)
      decreases todo
    {
      var k :| k in todo;
      todo := todo - {k};
      keys := InsertName(keys, k, names - todo - {k});
      assert names - todo - {k} + {k} == names - todo;
    }
    assert names - todo == names;
    SortsOnce(keys, Sorted(names), names);
  }

  method InsertName(keys: seq<string>, k: string, ghost names: set<string>) returns (r: seq<string>)
    requires Sorts(keys, names) && k !in names
    ensures Sorts(r, names + {k})
  {
    hide Less;
    var n := 0;
    while n < |keys| && Less(keys[n], k)
      invariant n <= |keys| && forall i :: 0 <= i < n ==> Less(keys[i], k)
    {
      n := n + 1;
    }
    forall i | n <= i < |keys| ensures Less(k, keys[i]) {
      assert keys[n] in names;
      LessIsTotal(keys[n], k);
      if i > n { LessIsTransitive(k, keys[n], keys[i]); }
    }
    r := keys[..n] + [k] + keys[n..];
    assert keys == keys[..n] + keys[n..];
  }

  // ---- the key ----

  /** The parts of a key, between bars. */
  function Joined(parts: seq<string>): string {
    if parts == [] then ""
    else if |parts| == 1 then parts[0]
    else Joined(parts[..|parts| - 1]) + "|" + parts[|parts| - 1]
  }

  ghost function ListedNames(cfg: ViewConfig): seq<string> {
    Sorted(cfg.hidden) + Sorted(cfg.expanded) + Sorted(cfg.fullExpand)
  }

  function Scalars(cfg: ViewConfig): seq<string> {
    [cfg.layout, Number(cfg.maxNodes), Number(cfg.maxEdges), Number(cfg.threshold), Number(cfg.budget), cfg.focus,
      cfg.zoom]
  }

  ghost function CacheKey(cfg: ViewConfig): string { Joined(Scalars(cfg) + ListedNames(cfg)) }

  method ViewConfigKey(cfg: ViewConfig) returns (b: string)
    ensures b == CacheKey(cfg)
  {
    hide Joined, Sorted;
    b := WriteScalars(cfg);
    ghost var parts := Scalars(cfg);
    b := WriteSortedKeys(b, cfg.hidden, parts);
    b := WriteSortedKeys(b, cfg.expanded, parts + Sorted(cfg.hidden));
    b := WriteSortedKeys(b, cfg.fullExpand, parts + Sorted(cfg.hidden) + Sorted(cfg.expanded));
    assert parts + Sorted(cfg.hidden) + Sorted(cfg.expanded) + Sorted(cfg.fullExpand) == parts + ListedNames(cfg);
  }

  method WriteScalars(cfg: ViewConfig) returns (b: string)
    ensures b == Joined(Scalars(cfg))
  {
    hide Joined, Number;
    var parts := Scalars(cfg);
    b := cfg.layout;
    assert b == Joined(parts[..1]) by { JoinedOne(parts[..1]); }
    for n := 1 to |parts|
      invariant b == Joined(parts[..n])
    {
      JoinedMore(parts[..n], parts[n]);
      assert parts[..n] + [parts[n]] == parts[..n + 1];
      b := b + "|" + parts[n];
    }
    assert parts[..|parts|] == parts;
  }

  method WriteSortedKeys(b: string, names: set<string>, ghost parts: seq<string>) returns (r: string)
    requires parts != [] && b == Joined(parts)
    ensures r == Joined(parts + Sorted(names))
  {
    hide Joined, Sorted;
    var keys := SortNames(names);
    r := b;
    assert parts + keys[..0] == parts;
    for i := 0 to |keys|
      invariant r == Joined(parts + keys[..i])
    {
      JoinedMore(parts + keys[..i], keys[i]);
      assert parts + keys[..i] + [keys[i]] == parts + keys[..i + 1];
      r := r + "|" + keys[i];
    }
    assert keys[..|keys|] == keys;
  }

  lemma JoinedOne(parts: seq<string>)
    requires |parts| == 1
    ensures Joined(parts) == parts[0]
  {
  }

  lemma JoinedMore(parts: seq<string>, part: string)
    requires parts != []
    ensures Joined(parts + [part]) == Joined(parts) + "|" + part
  {
    assert (parts + [part])[..|parts|] == parts;
  }

  // ---- what the key determines ----

  ghost predicate AllBarless(parts: seq<string>) { forall i :: 0 <= i < |parts| ==> Barless(parts[i]) }

  lemma {:induction false} JoinedIsInjective(ps: seq<string>, qs: seq<string>)
    requires ps != [] && qs != [] && AllBarless(ps) && AllBarless(qs) && Joined(ps) == Joined(qs)
    ensures ps == qs
    decreases |ps|
  {
    var p, q := ps[|ps| - 1], qs[|qs| - 1];
    if |ps| == 1 || |qs| == 1 {
      if |ps| > 1 { HasBar(ps, p); }
      if |qs| > 1 { HasBar(qs, q); }
    } else {
      LastPart(Joined(ps[..|ps| - 1]), p, Joined(qs[..|qs| - 1]), q);
      JoinedIsInjective(ps[..|ps| - 1], qs[..|qs| - 1]);
      assert ps == ps[..|ps| - 1] + [p] && qs == qs[..|qs| - 1] + [q];
    }
  }

  lemma HasBar(ps: seq<string>, p: string)
    requires |ps| > 1 && p == ps[|ps| - 1]
    ensures !Barless(Joined(ps))
  {
    var front := Joined(ps[..|ps| - 1]);
    assert Joined(ps)[|front|] == '|';
  }

  lemma LastBar(a: string, p: string, n: nat)
    requires Barless(p) && n <= |a| + |p| && (a + "|" + p)[n] == '|'
    ensures n <= |a|
  {
    assert forall i :: 0 <= i < |p| ==> (a + "|" + p)[|a| + 1 + i] == p[i];
  }

  lemma LastPart(a: string, p: string, b: string, q: string)
    requires a + "|" + p == b + "|" + q && Barless(p) && Barless(q)
    ensures a == b && p == q
  {
    var s := a + "|" + p;
    assert s[|a|] == '|' && s[|b|] == '|';
    LastBar(a, p, |b|);
    LastBar(b, q, |a|);
    assert a == s[..|a|] && b == s[..|b|] && p == s[|a| + 1..] && q == s[|b| + 1..];
  }

  /** No text of the configuration contains the key's delimiter. */
  ghost predicate Delimited(cfg: ViewConfig) {
    && Barless(cfg.layout) && Barless(cfg.focus) && Barless(cfg.zoom)
    && forall k :: k in cfg.hidden || k in cfg.expanded || k in cfg.fullExpand ==> Barless(k)
  }

  ghost predicate SameScalars(a: ViewConfig, b: ViewConfig) {
    && a.layout == b.layout && a.focus == b.focus && a.zoom == b.zoom && a.threshold == b.threshold
    && a.maxNodes == b.maxNodes && a.maxEdges == b.maxEdges && a.budget == b.budget
  }

  /** All that affects the view, which raw mode does not have. */
  ghost predicate SameView(a: ViewConfig, b: ViewConfig) {
    SameScalars(a, b) && a.hidden == b.hidden && a.expanded == b.expanded && a.fullExpand == b.fullExpand
  }

  lemma PartsAreBarless(cfg: ViewConfig)
    requires Delimited(cfg)
    ensures AllBarless(Scalars(cfg) + ListedNames(cfg))
  {
    hide Sorted, Barless, Ascending, Number;
    NumberIsBarless(cfg.maxNodes);
    NumberIsBarless(cfg.maxEdges);
    NumberIsBarless(cfg.threshold);
    NumberIsBarless(cfg.budget);
    var names := ListedNames(cfg);
    forall i | 0 <= i < |names| ensures Barless(names[i]) {
      assert names[i] in Sorted(cfg.hidden) || names[i] in Sorted(cfg.expanded) || names[i] in Sorted(cfg.fullExpand);
    }
  }

  lemma ScalarsAreInjective(a: ViewConfig, b: ViewConfig)
    requires Scalars(a) == Scalars(b)
    ensures SameScalars(a, b)
  {
    hide Number;
    var p, q := Scalars(a), Scalars(b);
    assert p[0] == q[0] && p[1] == q[1] && p[2] == q[2] && p[3] == q[3] && p[4] == q[4] && p[5] == q[5] && p[6] == q[6];
    NumberIsInjective(a.maxNodes, b.maxNodes);
    NumberIsInjective(a.maxEdges, b.maxEdges);
    NumberIsInjective(a.threshold, b.threshold);
    NumberIsInjective(a.budget, b.budget);
  }

  /** Two configurations share a key exactly if they agree but for how one list of names is divided among the
      hidden protocols, the opened subnets and the fully opened ones. */
  lemma SameKeyExactly(a: ViewConfig, b: ViewConfig)
    requires Delimited(a) && Delimited(b)
    ensures CacheKey(a) == CacheKey(b) <==> SameScalars(a, b) && ListedNames(a) == ListedNames(b)
  {
    PartsAreBarless(a);
    PartsAreBarless(b);
    hide ListedNames, Joined, AllBarless, Delimited;
    if CacheKey(a) == CacheKey(b) {
      var p, q := Scalars(a) + ListedNames(a), Scalars(b) + ListedNames(b);
      JoinedIsInjective(p, q);
      assert p[..7] == Scalars(a) && q[..7] == Scalars(b) && p[7..] == ListedNames(a) && q[7..] == ListedNames(b);
      ScalarsAreInjective(a, b);
    }
  }

  /** Hidden names are no subnets, and only opened subnets are fully opened. */
  ghost predicate Separable(cfg: ViewConfig) {
    && (forall k :: k in cfg.hidden ==> '/' !in k) && (forall k :: k in cfg.expanded ==> '/' in k)
    && cfg.fullExpand <= cfg.expanded
  }

  /** Such configurations share a key only if they show the same view. */
  lemma KeyDetermines(a: ViewConfig, b: ViewConfig)
    requires Delimited(a) && Delimited(b) && Separable(a) && Separable(b)
    ensures CacheKey(a) == CacheKey(b) <==> SameView(a, b)
  {
    hide Sorted, CacheKey;
    SameKeyExactly(a, b);
    if CacheKey(a) == CacheKey(b) {
      HiddenFirst(Sorted(a.hidden), Sorted(a.expanded), Sorted(a.fullExpand), Sorted(b.hidden), Sorted(b.expanded),
                  Sorted(b.fullExpand));
      FirstDescent(Sorted(a.expanded), Sorted(a.fullExpand), Sorted(b.expanded), Sorted(b.fullExpand));
      SameNames(a.hidden, b.hidden);
      SameNames(a.expanded, b.expanded);
      SameNames(a.fullExpand, b.fullExpand);
    }
  }

  lemma SameNames(a: set<string>, b: set<string>)
    requires Sorted(a) == Sorted(b)
    ensures a == b
  {
    hide Sorted;
    assert forall k :: k in a <==> k in Sorted(a);
    assert forall k :: k in b <==> k in Sorted(b);
  }

  /** The hidden names end where the first subnet begins. */
  lemma HiddenFirst(h: seq<string>, e: seq<string>, f: seq<string>, h': seq<string>, e': seq<string>, f': seq<string>)
    requires h + e + f == h' + e' + f'
    requires (forall k :: k in h ==> '/' !in k) && (forall k :: k in h' ==> '/' !in k)
    requires (forall k :: k in e || k in f ==> '/' in k) && (forall k :: k in e' || k in f' ==> '/' in k)
    ensures h == h' && e + f == e' + f'
  {
    var s := h + e + f;
    assert s == h + (e + f) && s == h' + (e' + f');
    NoLonger(h, e + f, h', e' + f');
    NoLonger(h', e' + f', h, e + f);
    assert h == s[..|h|] && h' == s[..|h'|] && e + f == s[|h|..] && e' + f' == s[|h'|..];
  }

  lemma NoLonger(h: seq<string>, t: seq<string>, h': seq<string>, t': seq<string>)
    requires h + t == h' + t' && (forall k :: k in h' ==> '/' !in k) && forall k :: k in t ==> '/' in k
    ensures |h'| <= |h|
  {
    if |h| < |h'| { Overlap(h, t, h', t'); }
  }

  lemma Overlap(h: seq<string>, t: seq<string>, h': seq<string>, t': seq<string>)
    requires h + t == h' + t' && |h| < |h'|
    ensures exists k :: k in h' && k in t
  {
    var k := (h + t)[|h|];
    assert k == (h' + t')[|h|] == h'[|h|] && k == t[0];
    assert k in h' && k in t;
  }

  /** Both lists ascend and the second repeats names of the first, so it begins at the first descent. */
  lemma FirstDescent(e: seq<string>, f: seq<string>, e': seq<string>, f': seq<string>)
    requires e + f == e' + f' && Ascending(e) && Ascending(e')
    requires (forall k :: k in f ==> k in e) && forall k :: k in f' ==> k in e'
    ensures e == e' && f == f'
  {
    var s := e + f;
    if |e| < |e'| { NoDescent(e, f, e', f'); }
    if |e'| < |e| { NoDescent(e', f', e, f); }
    assert e == s[..|e|] && e' == s[..|e'|] && f == s[|e|..] && f' == s[|e'|..];
  }

  lemma NoDescent(e: seq<string>, f: seq<string>, e': seq<string>, f': seq<string>)
    requires e + f == e' + f' && Ascending(e) && Ascending(e') && |e| < |e'|
    ensures exists k :: k in f && k !in e
  {
    hide Less;
    var s := e + f;
    var k := s[|e|];
    assert k == f[0] == e'[|e|] && s == e' + f';
    if k in e {
      var i :| 0 <= i < |e| && e[i] == k;
      assert s[i] == k && e'[i] == k;
      LessIsTotal(e'[i], e'[|e|]);
    }
  }

  /** A subnet opened, and one only fully opened, which no page asks for but the server accepts: one key, two views. */
  lemma KeysCollide(cfg: ViewConfig, subnet: string)
    ensures var a, b := cfg.(expanded := {subnet}, fullExpand := {}), cfg.(expanded := {}, fullExpand := {subnet});
      CacheKey(a) == CacheKey(b) && !SameView(a, b)
  {
    hide Joined;
    var a, b := cfg.(expanded := {subnet}, fullExpand := {}), cfg.(expanded := {}, fullExpand := {subnet});
    SortsOnce(Sorted({}), [], {});
    SortsOnce(Sorted({subnet}), [subnet], {subnet});
    assert ListedNames(a) == Sorted(cfg.hidden) + [subnet] && ListedNames(b) == Sorted(cfg.hidden) + [subnet];
  }

  /** Messages that keep a configuration so, as those of the bundled page do. */
  ghost predicate KeepsSeparable(m: Control) {
    match m
    case SetFilters(hidden) => forall k :: k in hidden ==> Barless(k) && '/' !in k
    case SetLayout(mode) => Barless(mode)
    case SetAggregation(expanded, fullExpand, focus, _, _) =>
      fullExpand <= expanded && Barless(focus) && forall k :: k in expanded ==> Barless(k) && '/' in k
    case _ => true
  }

  lemma StaysSeparable(cfg: ViewConfig, m: Control)
    requires Delimited(cfg) && Separable(cfg) && KeepsSeparable(m)
    ensures Delimited(Configured(cfg, m)) && Separable(Configured(cfg, m))
  {
  }

  // ---- one tick ----

  /** The views of the live clients: each key is built once, from the first client that has it. */
  method LiveViews<V(!new)>(cfgs: seq<ViewConfig>, build: ViewConfig -> V) returns (views: seq<V>)
    ensures |views| == |cfgs|
    ensures forall i :: 0 <= i < |cfgs| ==> SharedFrom(cfgs, build, views, i)
    ensures (forall i :: 0 <= i < |cfgs| ==> Delimited(cfgs[i]) && Separable(cfgs[i]) && !cfgs[i].raw) ==>
      forall i :: 0 <= i < |cfgs| ==> views[i] == build(cfgs[i])
  {
    hide CacheKey, Delimited, Separable;
    views := [];
    var cache: map<string, V> := map[];
    for n := 0 to |cfgs|
      invariant |views| == n && forall i :: 0 <= i < n ==> SharedFrom(cfgs, build, views, i)
      invariant forall k :: k in cache ==>
        exists j :: 0 <= j < n && CacheKey(cfgs[j]) == k && cache[k] == build(cfgs[j])
    {
      var key := ViewConfigKey(cfgs[n]);
      ghost var before, past := cache, views;
      if key !in cache {
        cache := cache[key := build(cfgs[n])];
      }
      views := views + [cache[key]];
      forall k | k in cache ensures exists j :: 0 <= j <= n && CacheKey(cfgs[j]) == k && cache[k] == build(cfgs[j]) {
        if k in before {
          var j :| 0 <= j < n && CacheKey(cfgs[j]) == k && before[k] == build(cfgs[j]);
          assert CacheKey(cfgs[j]) == k && cache[k] == build(cfgs[j]);
        } else {
          assert CacheKey(cfgs[n]) == k;
        }
      }
      forall i | 0 <= i <= n ensures SharedFrom(cfgs, build, views, i) {
        if i < n {
          assert SharedFrom(cfgs, build, past, i);
          var j :| 0 <= j < |cfgs| && CacheKey(cfgs[j]) == CacheKey(cfgs[i]) && past[i] == build(cfgs[j]);
          assert views[i] == build(cfgs[j]);
        }
      }
    }
    if forall i :: 0 <= i < |cfgs| ==> Delimited(cfgs[i]) && Separable(cfgs[i]) && !cfgs[i].raw {
      forall i | 0 <= i < |cfgs| ensures views[i] == build(cfgs[i]) {
        assert SharedFrom(cfgs, build, views, i);
        var j :| 0 <= j < |cfgs| && CacheKey(cfgs[j]) == CacheKey(cfgs[i]) && views[i] == build(cfgs[j]);
        KeyDetermines(cfgs[i], cfgs[j]);
        assert cfgs[i] == cfgs[j];
      }
    }
  }

  ghost predicate SharedFrom<V(!new)>(cfgs: seq<ViewConfig>, build: ViewConfig -> V, views: seq<V>, i: int)
    requires 0 <= i < |cfgs| && i < |views|
  {
    exists j :: 0 <= j < |cfgs| && CacheKey(cfgs[j]) == CacheKey(cfgs[i]) && views[i] == build(cfgs[j])
  }
}
