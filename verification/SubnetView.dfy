/** Two levels of subnet aggregation, and where every host ends up (graph/view.go BuildView). */
module SubnetView {
  import opened GraphState
  import opened Ids
  import opened SubnetFold
  import opened FoldedSubnets

  // ---- the keys of the two levels ----

  function TrimSuffix(s: string, suffix: string): string {
    if |s| >= |suffix| && s[|s| - |suffix|..] == suffix then s[..|s| - |suffix|] else s
  }

  /** Without a residual tail's mark. */
  function BaseCidr(id: string): string { TrimSuffix(id, "+") }

  function LastDot(s: string): (r: int)
    ensures -1 <= r < |s|
  {
    if s == "" then -1 else if s[|s| - 1] == '.' then |s| - 1 else LastDot(s[..|s| - 1])
  }

  predicate IsSuper(b: Books, id: string) { id in b.superHosts && b.superHosts[id] > 0 }

  const SLASH_24 := ".0/24"
  const SLASH_16 := ".0.0/16"

  /** Hosts go by their /24; supernodes and hosts without an IPv4 address stay. */
  function Key24(b: Books, n: Node): string {
    if IsSuper(b, n.id) || n.subnet == "" then "" else n.subnet + SLASH_24
  }

  function Widened(s: string): string { if LastDot(s) < 0 then "" else s[..LastDot(s)] + SLASH_16 }

  /** /24 supernodes and loose hosts go by their /16, unless their /24 is open. */
  function Key16(b: Books, o: Opened, n: Node): string {
    if IsSuper(b, n.id) then
      var base := BaseCidr(n.id);
      if o.IsExpanded(base) || TrimSuffix(base, SLASH_24) == base then "" else Widened(TrimSuffix(base, SLASH_24))
    else if n.subnet == "" || o.IsExpanded(n.subnet + SLASH_24) then ""
    else Widened(n.subnet)
  }

  predicate EndsWith(s: string, suffix: string) { |s| >= |suffix| && s[|s| - |suffix|..] == suffix }

  predicate Named24(id: string) { EndsWith(id, "/24") || EndsWith(id, "/24+") }

  /** Before aggregation: no supernodes, and no slash in any identifier. */
  ghost predicate NothingFolded(b: Books, kept: seq<Node>) {
    && b.superHosts == map[] && b.hostToSuper == map[] && DistinctIds(kept)
    && (forall i :: 0 <= i < |kept| ==> !HasSlash(kept[i].id))
    && (forall id :: id in b.visible ==> !HasSlash(id))
  }

  /** After the first level: whatever has a slash is a /24 supernode or its tail. */
  ghost predicate FirstLevel(b: Books, kept: seq<Node>) {
    && (forall id :: id in b.superHosts ==> Named24(id))
    && (forall id :: id in b.visible ==> !HasSlash(id) || Named24(id))
    && (forall id :: id in b.hostToSuper ==> !HasSlash(id) || Named24(id))
    && (forall i :: 0 <= i < |kept| ==> !HasSlash(kept[i].id) || Named24(kept[i].id))
  }

  lemma SlashIn(a: string, b: string)
    requires HasSlash(b)
    ensures HasSlash(a + b)
  {
    var i :| 0 <= i < |b| && b[i] == '/';
    assert (a + b)[|a| + i] == '/';
  }

  lemma Level24IsFresh(b: Books, kept: seq<Node>)
    requires NothingFolded(b, kept)
    ensures Fresh(b, kept, (n: Node) => Key24(b, n))
  {
    forall i | 0 <= i < |kept| && Key24(b, kept[i]) != "" ensures FreshKey(b, kept, Key24(b, kept[i])) {
      var cidr := Key24(b, kept[i]);
      assert SLASH_24[2] == '/';
      SlashIn(kept[i].subnet, SLASH_24);
      assert cidr[|cidr| - 1] == '4';
      NewWithSlash(b, kept, cidr);
      SlashTail(cidr);
      NewWithSlash(b, kept, TailId(cidr));
    }
  }

  lemma SlashTail(cidr: string)
    requires HasSlash(cidr)
    ensures HasSlash(TailId(cidr))
  {
    var i :| 0 <= i < |cidr| && cidr[i] == '/';
    assert TailId(cidr)[i] == '/';
  }

  lemma NewWithSlash(b: Books, kept: seq<Node>, id: string)
    requires NothingFolded(b, kept) && HasSlash(id)
    ensures NewId(b, kept, id)
  {
  }

  lemma Level16IsFresh(b: Books, o: Opened, kept: seq<Node>)
    requires FirstLevel(b, kept)
    ensures Fresh(b, kept, (n: Node) => Key16(b, o, n))
  {
    hide LastDot, TrimSuffix;
    forall i | 0 <= i < |kept| && Key16(b, o, kept[i]) != "" ensures FreshKey(b, kept, Key16(b, o, kept[i])) {
      var cidr := Key16(b, o, kept[i]);
      var stem: string :| cidr == stem + SLASH_16 by { WidenedEnds(b, o, kept[i]); }
      WideIsNew(b, kept, stem);
    }
  }

  lemma WidenedEnds(b: Books, o: Opened, n: Node)
    requires Key16(b, o, n) != ""
    ensures exists stem :: Key16(b, o, n) == stem + SLASH_16
  {
  }

  lemma WideIsNew(b: Books, kept: seq<Node>, stem: string)
    requires FirstLevel(b, kept)
    ensures FreshKey(b, kept, stem + SLASH_16)
  {
    var cidr := stem + SLASH_16;
    assert SLASH_16[4] == '/';
    SlashIn(stem, SLASH_16);
    SlashTail(cidr);
    assert cidr[|cidr| - 1] == '6' && TailId(cidr)[|cidr|] == '+' && TailId(cidr)[|cidr| - 1] == '6';
    forall id | id == cidr || id == TailId(cidr) ensures HasSlash(id) && !Named24(id) {
      Ends24(id);
    }
  }

  lemma Ends24(id: string)
    ensures EndsWith(id, "/24") ==> |id| >= 3 && id[|id| - 1] == '4'
    ensures EndsWith(id, "/24+") ==> |id| >= 4 && id[|id| - 1] == '+' && id[|id| - 2] == '4'
  {
  }

  lemma Keys24(b: Books, kept: seq<Node>, c: string)
    requires IsKey(kept, (n: Node) => Key24(b, n), c)
    ensures EndsWith(c, "/24") && EndsWith(TailId(c), "/24+") && c == c[..|c| - |SLASH_24|] + SLASH_24
  {
    var i :| 0 <= i < |kept| && Key24(b, kept[i]) == c;
    var s := kept[i].subnet;
    assert c == s + SLASH_24 && SLASH_24 == ".0" + "/24";
    assert c == (s + ".0") + "/24" && TailId(c) == (s + ".0") + "/24+";
  }

  /** Supernodes of the first level are /24s and their tails. */
  lemma FirstLevelHolds(b0: Books, o: Opened, filtering: bool, kept: seq<Node>, overrides: set<string>, p: Progress,
                        done: set<string>, after: seq<Node>)
    requires NothingFolded(b0, kept) && LevelDone(o, filtering, b0, kept, (n: Node) => Key24(b0, n), overrides, done, p)
    requires (forall c :: c in done ==> IsKey(kept, (n: Node) => Key24(b0, n), c))
      && after == p.supers + Stay(kept, p.gone, |kept|)
    ensures FirstLevel(p.books, after)
  {
    hide LoadsBalance, Sum, Stay, HasSlash, EndsWith, GroupDecided, IsGroup, Key24, NewId, Named24;
    Supers24(b0, o, filtering, kept, overrides, p, done);
    StayIs(kept, p.gone, |kept|);
    hide Decided, SupersOk;
    forall i | 0 <= i < |after| ensures !HasSlash(after[i].id) || Named24(after[i].id) {
      if i < |p.supers| {
        assert p.supers[i].id in SubnetFold.IdsOf(p.supers);
      } else {
        assert after[i] in Stay(kept, p.gone, |kept|);
      }
    }
    forall id | id in p.books.superHosts ensures Named24(id) {
      assert id in SubnetFold.IdsOf(p.supers);
    }
    forall id | id in p.books.visible ensures !HasSlash(id) || Named24(id) {
      if id !in SubnetFold.IdsOf(p.supers) { assert id in b0.visible; }
    }
    forall id | id in p.books.hostToSuper ensures !HasSlash(id) || Named24(id) {
      var i :| i in p.gone && kept[i].id == id;
    }
  }

  lemma Supers24(b0: Books, o: Opened, filtering: bool, kept: seq<Node>, overrides: set<string>, p: Progress,
                 done: set<string>)
    requires Decided(o, filtering, b0, kept, (n: Node) => Key24(b0, n), overrides, done, p)
    requires forall c :: c in done ==> IsKey(kept, (n: Node) => Key24(b0, n), c)
    ensures forall id :: id in SubnetFold.IdsOf(p.supers) ==> Named24(id)
  {
    hide EndsWith, GroupDecided, IsGroup, Key24, IsKey;
    forall id | id in SubnetFold.IdsOf(p.supers) ensures Named24(id) {
      assert SuperOf(done, id);
      if id in done {
        Keys24(b0, kept, id);
      } else {
        var c :| c in done && id == TailId(c);
        Keys24(b0, kept, c);
      }
    }
  }

  // ---- identifiers fit for edge keys ----

  predicate NoAngle(s: string) { forall i :: 0 <= i < |s| ==> s[i] != '<' }

  /** Identifiers without the edge separator; those of supernodes, and subnets, without its first character. */
  ghost predicate Clean(b: Books, kept: seq<Node>) {
    forall i :: 0 <= i < |kept| ==> CleanNode(b, kept[i])
  }

  ghost predicate CleanNode(b: Books, n: Node) {
    Plain(n.id) && (if IsSuper(b, n.id) then NoAngle(n.id) else NoAngle(n.subnet))
  }

  lemma CleanKey24(b: Books, n: Node)
    requires CleanNode(b, n)
    ensures NoAngle(Key24(b, n))
  {
  }

  lemma CleanKey16(b: Books, o: Opened, n: Node)
    requires CleanNode(b, n)
    ensures NoAngle(Key16(b, o, n))
  {
    CleanParts(b, n);
    hide CleanNode, IsSuper, NoAngle, Widened, TrimSuffix;
    if IsSuper(b, n.id) {
      Trimmed(n.id, "+");
      Trimmed(BaseCidr(n.id), SLASH_24);
      WidenedHasNoAngle(TrimSuffix(BaseCidr(n.id), SLASH_24));
    } else {
      WidenedHasNoAngle(n.subnet);
    }
    NothingHasNoAngle();
  }

  lemma CleanParts(b: Books, n: Node)
    requires CleanNode(b, n)
    ensures if IsSuper(b, n.id) then NoAngle(n.id) else NoAngle(n.subnet)
  {
  }

  lemma Trimmed(s: string, suffix: string)
    requires NoAngle(s)
    ensures NoAngle(TrimSuffix(s, suffix))
  {
  }

  lemma WidenedHasNoAngle(s: string)
    requires NoAngle(s)
    ensures NoAngle(Widened(s))
  {
  }

  lemma NothingHasNoAngle()
    ensures NoAngle("")
  {
  }

  /** A level whose keys are clean makes clean supernodes. */
  lemma LevelIsClean(o: Opened, filtering: bool, b0: Books, kept: seq<Node>, keyOf: Node -> string,
                     overrides: set<string>, p: Progress,
                     done: set<string>, after: seq<Node>)
    requires LevelDone(o, filtering, b0, kept, keyOf, overrides, done, p)
      && after == p.supers + Stay(kept, p.gone, |kept|)
    requires Clean(b0, kept) && (forall c :: c in done ==> IsKey(kept, keyOf, c)) && forall i :: 0 <= i < |kept| ==>
      NoAngle(keyOf(kept[i]))
    ensures Clean(p.books, after)
  {
    hide LoadsBalance, Sum, Stay, HasSlash, GroupDecided, IsGroup, NewId, Plain, NoAngle, CleanNode,
         SubnetFold.MovedOut, SubnetFold.DistinctIds, TailId;
    StayIs(kept, p.gone, |kept|);
    SupersAreNew(b0, kept, p);
    forall i | 0 <= i < |after| ensures CleanNode(p.books, after[i]) {
      if i < |p.supers| {
        assert p.supers[i].id in SubnetFold.IdsOf(p.supers);
        CleanSuper(p.books, done, kept, keyOf, p.supers[i]);
      } else {
        assert after[i] in Stay(kept, p.gone, |kept|);
        var k :| 0 <= k < |kept| && kept[k] == after[i];
        OldNodeStaysClean(b0, kept, p, k);
      }
    }
  }

  lemma Level24IsClean(o: Opened, filtering: bool, b: Books, kept: seq<Node>, overrides: set<string>, p: Progress,
                       done: set<string>, after: seq<Node>)
    requires LevelDone(o, filtering, b, kept, (n: Node) => Key24(b, n), overrides, done, p)
      && after == p.supers + Stay(kept, p.gone, |kept|)
    requires Clean(b, kept) && forall c :: c in done ==> IsKey(kept, (n: Node) => Key24(b, n), c)
    ensures Clean(p.books, after)
  {
    hide LevelDone, Stay, IsKey, CleanNode, Key24, NoAngle;
    forall i | 0 <= i < |kept| ensures NoAngle(Key24(b, kept[i])) { CleanKey24(b, kept[i]); }
    LevelIsClean(o, filtering, b, kept, (n: Node) => Key24(b, n), overrides, p, done, after);
  }

  lemma Level16IsClean(o: Opened, filtering: bool, b: Books, kept: seq<Node>, overrides: set<string>, p: Progress,
                       done: set<string>, after: seq<Node>)
    requires LevelDone(o, filtering, b, kept, (n: Node) => Key16(b, o, n), overrides, done, p)
      && after == p.supers + Stay(kept, p.gone, |kept|)
    requires Clean(b, kept) && forall c :: c in done ==> IsKey(kept, (n: Node) => Key16(b, o, n), c)
    ensures Clean(p.books, after)
  {
    hide LevelDone, Stay, IsKey, CleanNode, Key16, NoAngle;
    forall i | 0 <= i < |kept| ensures NoAngle(Key16(b, o, kept[i])) { CleanKey16(b, o, kept[i]); }
    LevelIsClean(o, filtering, b, kept, (n: Node) => Key16(b, o, n), overrides, p, done, after);
  }

  lemma CleanSuper(b: Books, done: set<string>, kept: seq<Node>, keyOf: Node -> string, n: Node)
    requires SuperOf(done, n.id) && IsSuper(b, n.id)
    requires (forall c :: c in done ==> IsKey(kept, keyOf, c)) && forall i :: 0 <= i < |kept| ==>
      NoAngle(keyOf(kept[i]))
    ensures CleanNode(b, n)
  {
  }

  lemma OldNodeStaysClean(b0: Books, kept: seq<Node>, p: Progress, k: int)
    requires SubnetFold.InProgress(b0, kept, p) && 0 <= k < |kept| && CleanNode(b0, kept[k])
    ensures CleanNode(p.books, kept[k])
  {
    hide LoadsBalance, Sum, Stay, SubnetFold.MovedOut, Plain, NoAngle;
    OldNode(b0, kept, p, k);
  }

  // ---- one hop ----

  /** A host's chain over two levels, as one hop. */
  function Flat(m: map<string, string>): map<string, string> {
    map h | h in m :: if m[h] in m then m[m[h]] else m[h]
  }

  ghost predicate TwoLevels(m: map<string, string>) {
    forall h {:trigger m[h]} :: h in m && m[h] in m ==> m[m[h]] !in m
  }

  /** Flattening in place gives the same map whatever order the entries are visited in. */
  method Flatten(m: map<string, string>) returns (r: map<string, string>)
    requires TwoLevels(m)
    ensures r == Flat(m)
  {
    r := m;
    var todo := m.Keys;
    while todo != {}
      invariant todo <= m.Keys && r.Keys == m.Keys
      invariant forall h :: h in m ==> r[h] == if h in todo then m[h] else Flat(m)[h]
      decreases todo
    {
      var id :| id in todo;
      todo := todo - {id};
      var s := r[id];
      if s in r {
        r := r[id := r[s]];
      }
    }
  }

  function Remapped(hostToSuper: Option<map<string, string>>, id: string): string {
    if hostToSuper.Some? && id in hostToSuper.value then hostToSuper.value[id] else id
  }

  lemma OneHopIsEnough(m: map<string, string>, id: string)
    requires TwoLevels(m)
    ensures var h := Some(Flat(m));
      Remapped(h, Remapped(h, id)) == Remapped(h, id)
  {
  }

  // ---- both levels ----

  const REEXPAND_DIVISOR := 6

  /** Aggregation starts above the threshold, or at far zoom; once on it stays until well below. */
  predicate Aggregates(count: int, threshold: int, far: bool, wasAggregated: bool) {
    count > threshold || (far && count > MIN_HOSTS_TO_COLLAPSE)
      || (wasAggregated && count > threshold * (REEXPAND_DIVISOR - 1) / REEXPAND_DIVISOR)
  }

  /** Every host is represented: what it remaps to, in one hop, is shown. */
  ghost predicate Represented(hosts: seq<Node>, hostToSuper: Option<map<string, string>>, after: seq<Node>) {
    && (forall i :: 0 <= i < |hosts| ==> Remapped(hostToSuper, hosts[i].id) in SubnetFold.IdsOf(after))
    && (forall id {:trigger Remapped(hostToSuper, id)} ::
      Remapped(hostToSuper, Remapped(hostToSuper, id)) == Remapped(hostToSuper, id))
    && (hostToSuper.Some? ==> forall i :: 0 <= i < |after| ==> after[i].id !in hostToSuper.value)
  }

  /** Two levels leave every host represented. */
  lemma TwoFolds(b0: Books, kept0: seq<Node>, b1: Books, kept1: seq<Node>, b2: Books, kept2: seq<Node>)
    requires NothingFolded(b0, kept0) && Folds(b0, kept0, b1, kept1) && Folds(b1, kept1, b2, kept2)
    ensures TwoLevels(b2.hostToSuper) && Represented(kept0, Some(Flat(b2.hostToSuper)), kept2)
      && Sum(b2, kept2) == Sum(b0, kept0)
  {
    hide Sum, HasSlash, NewSuperNode;
    var m := b2.hostToSuper;
    forall id | id in SubnetFold.IdsOf(kept2) ensures id !in m {
      var i :| 0 <= i < |kept2| && kept2[i].id == id;
    }
    forall h | h in m && m[h] in m ensures m[m[h]] in SubnetFold.IdsOf(kept2) {
      if m[h] in b1.hostToSuper { NotFoldedTwice(b0, kept0, b1, kept1, b2, kept2, h); }
    }
    forall i | 0 <= i < |kept0| ensures Remapped(Some(Flat(m)), kept0[i].id) in SubnetFold.IdsOf(kept2) {
      HostLands(b0, kept0, b1, kept1, b2, kept2, i);
    }
    forall id ensures Remapped(Some(Flat(m)), Remapped(Some(Flat(m)), id))
      == Remapped(Some(Flat(m)), id) { OneHopIsEnough(m, id); }
  }

  /** What the first level folded is not folded again; only its supernode may be. */
  lemma NotFoldedTwice(b0: Books, kept0: seq<Node>, b1: Books, kept1: seq<Node>, b2: Books, kept2: seq<Node>, h: string)
    requires NothingFolded(b0, kept0) && Folds(b0, kept0, b1, kept1) && Folds(b1, kept1, b2, kept2)
    requires h in b2.hostToSuper
    ensures b2.hostToSuper[h] !in b1.hostToSuper
  {
    hide Sum, HasSlash, NewSuperNode;
    if h in b1.hostToSuper {
      var i :| 0 <= i < |kept1| && kept1[i].id == b1.hostToSuper[h];
    } else {
      var i :| 0 <= i < |kept2| && kept2[i].id == b2.hostToSuper[h];
      assert kept2[i].id !in b2.hostToSuper;
    }
  }

  lemma HostLands(b0: Books, kept0: seq<Node>, b1: Books, kept1: seq<Node>, b2: Books, kept2: seq<Node>, i: int)
    requires NothingFolded(b0, kept0) && Folds(b0, kept0, b1, kept1) && Folds(b1, kept1, b2, kept2) && 0 <= i < |kept0|
    ensures Remapped(Some(Flat(b2.hostToSuper)), kept0[i].id) in SubnetFold.IdsOf(kept2)
  {
    hide Sum, HasSlash, NewSuperNode;
    var id := kept0[i].id;
    if kept0[i] in kept1 {
      NodeLands(b1, kept1, b2, kept2, kept0[i]);
    } else {
      var k :| 0 <= k < |kept1| && kept1[k].id == b1.hostToSuper[id];
      assert b2.hostToSuper[id] == kept1[k].id;
      NodeLands(b1, kept1, b2, kept2, kept1[k]);
    }
  }

  /** A node of one level is shown after the next, or has gone to one that is. */
  lemma NodeLands(b1: Books, kept1: seq<Node>, b2: Books, kept2: seq<Node>, n: Node)
    requires Folds(b1, kept1, b2, kept2) && n in kept1
    ensures n.id in SubnetFold.IdsOf(kept2) ==> n.id !in b2.hostToSuper
    ensures n.id !in SubnetFold.IdsOf(kept2) ==>
      n.id in b2.hostToSuper && b2.hostToSuper[n.id] in SubnetFold.IdsOf(kept2)
        && b2.hostToSuper[n.id] !in b2.hostToSuper
  {
  }

  lemma OneFold(b0: Books, kept0: seq<Node>, b1: Books, kept1: seq<Node>)
    requires NothingFolded(b0, kept0) && Folds(b0, kept0, b1, kept1)
    ensures Folds(b1, kept1, b1, kept1)
  {
  }

  /** Without a supernode nobody has gone anywhere. */
  lemma NobodyMoved(b0: Books, kept0: seq<Node>, b1: Books, kept1: seq<Node>, b2: Books, kept2: seq<Node>)
    requires NothingFolded(b0, kept0) && Folds(b0, kept0, b1, kept1) && Folds(b1, kept1, b2, kept2)
      && b2.superHosts == map[]
    ensures b2.hostToSuper == map[]
  {
  }

  // ---- what is folded, by the names of subnets ----

  lemma {:induction false} LastDotIs(s: string)
    ensures var r := LastDot(s);
      if r < 0 then '.' !in s else s[r] == '.' && '.' !in s[r + 1..]
  {
    if s != "" && s[|s| - 1] != '.' {
      var t := s[..|s| - 1];
      LastDotIs(t);
      assert s == t + [s[|s| - 1]];
      var r := LastDot(t);
      if r >= 0 {
        assert s[r + 1..] == t[r + 1..] + [s[|s| - 1]];
      }
    }
  }

  lemma SplitsAtLastDot(s: string, w: string, x: string)
    requires s == w + "." + x && '.' !in x
    ensures LastDot(s) == |w|
  {
    LastDotIs(s);
    var r := LastDot(s);
    hide LastDot;
    assert s[|w|] == '.';
    forall k | |w| < k < |s| ensures s[k] != '.' { assert s[k] == x[k - |w| - 1]; }
    forall k | r < k < |s| ensures s[k] != '.' {
      if r >= 0 { assert s[k] == s[r + 1..][k - r - 1]; }
    }
  }

  lemma UnderIs(s: string, w: string)
    ensures Under(s, w) <==> LastDot(s) >= 0 && s[..LastDot(s)] == w
  {
    LastDotIs(s);
    var r := LastDot(s);
    hide LastDot;
    if r >= 0 && s[..r] == w {
      assert s == w + "." + s[r + 1..];
    }
    if x :| s == w + "." + x && '.' !in x {
      SplitsAtLastDot(s, w, x);
      assert s[..|w|] == w;
    }
  }

  /** The /16 of "a.b.c" is named after what comes before its last dot. */
  lemma WidenedIs(s: string, w: string)
    ensures Widened(s) == w + SLASH_16 <==> Under(s, w)
  {
    UnderIs(s, w);
    hide LastDot, Under;
    if LastDot(s) >= 0 { SameStem(s[..LastDot(s)], w, SLASH_16); }
  }

  lemma Level24(b: Books, kept: seq<Node>, overrides: set<string>, s: string)
    requires b.superHosts == map[] && s != ""
    ensures Group(kept, (n: Node) => Key24(b, n), overrides, s + ".0/24") == Hosts24(kept, overrides, s)
  {
    forall i | 0 <= i < |kept| ensures Key24(b, kept[i]) == s + ".0/24" <==> kept[i].subnet == s {
      SameStem(kept[i].subnet, s, SLASH_24);
    }
  }

  lemma SameStem(a: string, b: string, suffix: string)
    ensures a + suffix == b + suffix <==> a == b
  {
    if a + suffix == b + suffix {
      assert |a| == |b| && a == (a + suffix)[..|a|] && b == (b + suffix)[..|b|];
    }
  }

  lemma BaseIs(id: string, s: string)
    ensures BaseCidr(id) == s + SLASH_24 <==> id == s + SLASH_24 || id == s + SLASH_24 + "+"
  {
    var cidr := s + SLASH_24;
    assert cidr[|cidr| - 1] == '4';
    if id == cidr + "+" {
      assert id[|id| - 1..] == "+" && id[..|id| - 1] == cidr;
    }
    if id == cidr {
      assert id[|id| - 1..] == "4";
    }
    if BaseCidr(id) == cidr && id != cidr {
      assert id == id[..|id| - 1] + id[|id| - 1..];
    }
  }

  lemma StemIs(base: string, s: string)
    ensures base == s + SLASH_24 <==> TrimSuffix(base, SLASH_24) != base && TrimSuffix(base, SLASH_24) == s
  {
    if base == s + SLASH_24 {
      assert base[|base| - 5..] == SLASH_24 && base[..|base| - 5] == s;
    }
    if TrimSuffix(base, SLASH_24) != base {
      assert base == base[..|base| - 5] + base[|base| - 5..];
    }
  }

  /** The key of the second level, by the names of subnets. */
  lemma Key16Is(b: Books, o: Opened, n: Node, w: string)
    ensures Key16(b, o, n) == w + SLASH_16 <==> In16(o, b, n, w)
  {
    if IsSuper(b, n.id) {
      SuperKey16(b, o, n, w);
    } else {
      HostKey16(b, o, n, w);
    }
  }

  lemma SuperKey16(b: Books, o: Opened, n: Node, w: string)
    requires IsSuper(b, n.id)
    ensures Key16(b, o, n) == w + SLASH_16 <==> In16(o, b, n, w)
  {
    var base := BaseCidr(n.id);
    var s := TrimSuffix(base, SLASH_24);
    BaseIs(n.id, s);
    StemIs(base, s);
    WidenedIs(s, w);
    hide TrimSuffix, Widened, Under, BaseCidr;
    if t :| Of24(o, b, n, t) && Under(t, w) {
      BaseIs(n.id, t);
      StemIs(base, t);
    }
  }

  lemma HostKey16(b: Books, o: Opened, n: Node, w: string)
    requires !IsSuper(b, n.id)
    ensures Key16(b, o, n) == w + SLASH_16 <==> In16(o, b, n, w)
  {
    WidenedIs(n.subnet, w);
    assert !Under("", w);
    hide TrimSuffix, Widened, Under, BaseCidr;
    assert Of24(o, b, n, n.subnet) <==> Unopened(o, n.subnet);
  }

  lemma FirstIsFolded(o: Opened, filtering: bool, b0: Books, kept: seq<Node>, overrides: set<string>,
                      done: set<string>, p: Progress, after: seq<Node>)
    requires Led(o, filtering, b0, kept, (n: Node) => Key24(b0, n), overrides, done, p, after)
      && b0.superHosts == map[]
    ensures FirstFolded(o, filtering, b0.visible, kept, overrides, p.books.hostToSuper, after)
  {
    hide Led, Stays, Folded, Group, Hosts24;
    var keyOf := (n: Node) => Key24(b0, n);
    forall s | s != ""
      ensures Folded(o, filtering, b0.visible, kept, Hosts24(kept, overrides, s), s + ".0/24", p.books.hostToSuper,
        after)
    {
      Level24(b0, kept, overrides, s);
      GroupIsFolded(o, filtering, b0, kept, keyOf, overrides, done, p, after, s + ".0/24");
    }
    forall i | 0 <= i < |kept| && (kept[i].isGroup || kept[i].id in overrides || kept[i].subnet == "")
      ensures Stays(kept, i, p.books.hostToSuper, after)
    {
      KeylessStays(o, filtering, b0, kept, keyOf, overrides, done, p, after, i);
    }
  }

  lemma Level16(b: Books, o: Opened, kept: seq<Node>, overrides: set<string>, w: string)
    ensures Group(kept, (n: Node) => Key16(b, o, n), overrides, w + ".0.0/16") == Nodes16(o, b, kept, overrides, w)
  {
    hide Key16, In16;
    forall i | 0 <= i < |kept| ensures Key16(b, o, kept[i]) == w + ".0.0/16" <==> In16(o, b, kept[i], w) {
      Key16Is(b, o, kept[i], w);
    }
  }

  lemma SecondIsFolded(o: Opened, filtering: bool, b: Books, kept: seq<Node>, overrides: set<string>,
                       done: set<string>, p: Progress, after: seq<Node>)
    requires Led(o, filtering, b, kept, (n: Node) => Key16(b, o, n), overrides, done, p, after)
    ensures SecondFolded(o, filtering, b, kept, overrides, p.books.hostToSuper, after)
  {
    hide Led, Stays, Folded, Group, Nodes16, In16, Key16;
    var keyOf := (n: Node) => Key16(b, o, n);
    forall w
      ensures Folded(o, filtering, b.visible, kept, Nodes16(o, b, kept, overrides, w), w + ".0.0/16",
        p.books.hostToSuper, after)
    {
      Level16(b, o, kept, overrides, w);
      GroupIsFolded(o, filtering, b, kept, keyOf, overrides, done, p, after, w + ".0.0/16");
    }
    forall i | 0 <= i < |kept| && Apart(o, b, kept[i], overrides) ensures Stays(kept, i, p.books.hostToSuper, after) {
      if !IsGroup(overrides, kept[i]) { ApartHasNoKey(o, b, kept[i], overrides); }
      KeylessStays(o, filtering, b, kept, keyOf, overrides, done, p, after, i);
    }
  }

  lemma ApartHasNoKey(o: Opened, b: Books, n: Node, overrides: set<string>)
    requires Apart(o, b, n, overrides) && !IsGroup(overrides, n)
    ensures Key16(b, o, n) == ""
  {
    hide Key16, In16;
    if Key16(b, o, n) != "" {
      WidenedEnds(b, o, n);
      var w :| Key16(b, o, n) == w + SLASH_16;
      Key16Is(b, o, n, w);
      assert false;
    }
  }

  /** Flattened, the map takes every identifier where the two levels take it. */
  lemma FlatHops(b0: Books, kept0: seq<Node>, b1: Books, kept1: seq<Node>, b2: Books, kept2: seq<Node>)
    requires NothingFolded(b0, kept0) && Folds(b0, kept0, b1, kept1) && Folds(b1, kept1, b2, kept2)
    ensures forall id :: Hop(Flat(b2.hostToSuper), id) == Hop(b2.hostToSuper, Hop(b1.hostToSuper, id))
  {
    hide Sum, HasSlash, NewSuperNode;
    var m := b2.hostToSuper;
    forall id | id in m && id !in b1.hostToSuper ensures m[id] !in m {
      assert m[id] in SubnetFold.IdsOf(kept2);
      var i :| 0 <= i < |kept2| && kept2[i].id == m[id];
    }
  }

  lemma NotFolded(o: Opened, hosts: seq<Node>, overrides: set<string>, threshold: int, far: bool, wasAggregated: bool)
    requires !Aggregates(|hosts|, threshold, far, wasAggregated)
    ensures NoneLeft(o, hosts, overrides, threshold, far, wasAggregated, None, hosts)
  {
    hide Hosts24, Unopened, Inside;
  }

  lemma HostsAreFolded(o: Opened, filtering: bool, b0: Books, hosts: seq<Node>, overrides: set<string>,
                       threshold: int, far: bool, wasAggregated: bool, b1: Books, mid: seq<Node>, b: Books,
                       kept: seq<Node>, hostToSuper: Option<map<string, string>>)
    requires NothingFolded(b0, hosts) && Folds(b0, hosts, b1, mid) && Folds(b1, mid, b, kept)
    requires Aggregation(o, filtering, b0.visible, hosts, overrides, threshold, far, wasAggregated, b1, mid, b, kept,
      hostToSuper)
    ensures NoneLeft(o, hosts, overrides, threshold, far, wasAggregated, hostToSuper, kept)
  {
    if |hosts| > threshold || (far && |hosts| > 3) || (wasAggregated && |hosts| > threshold * 5 / 6) {
      hide Folds, NothingFolded, SecondFolded, Inside, Folded, Under;
      forall s, i | s != "" && Unopened(o, s) && |Hosts24(hosts, overrides, s)| >= 3
        && i in Hosts24(hosts, overrides, s)
        ensures Inside(o, hosts[i].id, s, hostToSuper, kept)
      {
        HostGoes(o, filtering, b0, hosts, overrides, b1, mid, s, i);
        HostInside(o, filtering, b0, hosts, overrides, threshold, far, b1, mid, b, kept, hostToSuper, s, i);
      }
    }
  }

  lemma HostGoes(o: Opened, filtering: bool, b0: Books, hosts: seq<Node>, overrides: set<string>, b1: Books,
                 mid: seq<Node>, s: string, i: int)
    requires FirstFolded(o, filtering, b0.visible, hosts, overrides, b1.hostToSuper, mid)
    requires s != "" && Unopened(o, s) && i in Hosts24(hosts, overrides, s) && |Hosts24(hosts, overrides, s)| >= 3
    ensures Goes(hosts, i, b1.hostToSuper, mid, s + ".0/24")
  {
    hide Hosts24, Stays, Goes, BusiestStay;
  }

  /** The supernode of an unopened /24 is shown after the second level, or has gone to its /16. */
  lemma SuperGoes(o: Opened, filtering: bool, b0: Books, hosts: seq<Node>, overrides: set<string>, b1: Books,
                  mid: seq<Node>, m: map<string, string>, kept: seq<Node>, s: string, k: int)
    requires NothingFolded(b0, hosts) && Folds(b0, hosts, b1, mid)
    requires SecondFolded(o, filtering, b1, mid, overrides, m, kept)
    requires 0 <= k < |mid| && mid[k].id == s + ".0/24"
    ensures var to := Hop(m, s + ".0/24");
      || to == s + ".0/24"
      || exists w :: Under(s, w)
           && (to == w + ".0.0/16" || (w + ".0.0/16" in o.expanded && to == w + ".0.0/16" + "+"))
  {
    SuperIsNew(b0, hosts, b1, mid, k, s);
    hide NothingFolded, Folds, Under, Nodes16, HasSlash;
    if !Apart(o, b1, mid[k], overrides) {
      var w :| In16(o, b1, mid[k], w);
      assert Under(s, w) by {
        var t :| Of24(o, b1, mid[k], t) && Under(t, w);
        OneStem(s, t);
      }
      InNodes16(o, b1, mid, overrides, w, k);
      assert Folded(o, filtering, b1.visible, mid, Nodes16(o, b1, mid, overrides, w), w + ".0.0/16", m, kept);
      FoldedGoes(o, filtering, b1.visible, mid, Nodes16(o, b1, mid, overrides, w), w + ".0.0/16", m, kept, k);
    }
  }

  lemma OneStem(s: string, t: string)
    requires s + ".0/24" == t + ".0/24" || s + ".0/24" == t + ".0/24+"
    ensures s == t
  {
    assert (s + ".0/24")[|s + ".0/24"| - 1] == '4' && (t + ".0/24+")[|t + ".0/24+"| - 1] == '+';
    SameStem(s, t, ".0/24");
  }

  lemma InNodes16(o: Opened, b: Books, mid: seq<Node>, overrides: set<string>, w: string, k: int)
    requires 0 <= k < |mid| && !Apart(o, b, mid[k], overrides) && In16(o, b, mid[k], w)
    ensures k in Nodes16(o, b, mid, overrides, w)
  {
  }

  lemma FoldedGoes(o: Opened, filtering: bool, visible: map<string, int>, nodes: seq<Node>, members: set<int>,
                   cidr: string, m: map<string, string>, after: seq<Node>, k: int)
    requires Folded(o, filtering, visible, nodes, members, cidr, m, after) && k in members && 0 <= k < |nodes|
    ensures Hop(m, nodes[k].id) == nodes[k].id || Hop(m, nodes[k].id) == cidr
      || (cidr in o.expanded && Hop(m, nodes[k].id) == cidr + "+")
  {
    hide Busy;
    if cidr in o.expanded {
      if busiest :| BusiestStay(o, filtering, visible, nodes, members, cidr, m, after, busiest) {
        if k !in busiest { assert k in members - busiest; }
      }
    }
  }

  lemma SuperIsNew(b0: Books, hosts: seq<Node>, b1: Books, mid: seq<Node>, k: int, s: string)
    requires NothingFolded(b0, hosts) && Folds(b0, hosts, b1, mid)
    requires 0 <= k < |mid| && mid[k].id == s + ".0/24"
    ensures mid[k].id in b1.superHosts && b1.superHosts[mid[k].id] > 0
  {
    hide Sum, AllShown, NewId;
    assert ".0/24"[2] == '/';
    SlashIn(s, ".0/24");
    assert mid[k] in mid;
  }

  lemma HostInside(o: Opened, filtering: bool, b0: Books, hosts: seq<Node>, overrides: set<string>, threshold: int,
                   far: bool, b1: Books, mid: seq<Node>, b: Books, kept: seq<Node>,
                   hostToSuper: Option<map<string, string>>, s: string, i: int)
    requires NothingFolded(b0, hosts) && Folds(b0, hosts, b1, mid) && Folds(b1, mid, b, kept)
    requires Goes(hosts, i, b1.hostToSuper, mid, s + ".0/24")
    requires if |mid| > threshold || far then SecondFolded(o, filtering, b1, mid, overrides, b.hostToSuper, kept)
      else kept == mid && b == b1
    requires var final := if hostToSuper.Some? then hostToSuper.value else map[];
      forall id :: Hop(final, id) == Hop(b.hostToSuper, Hop(b1.hostToSuper, id))
    ensures Inside(o, hosts[i].id, s, hostToSuper, kept)
  {
    hide SecondFolded, Under, HasSlash;
    var n :| n in mid && n.id == s + ".0/24";
    var k :| 0 <= k < |mid| && mid[k] == n;
    NeverShown(b0, hosts, b1, mid, b, kept, i);
    LandsShown(b1, mid, b, kept, n);
    if |mid| > threshold || far {
      SuperGoes(o, filtering, b0, hosts, overrides, b1, mid, b.hostToSuper, kept, s, k);
    } else {
      StaysPut(b1, mid, n);
    }
    hide Folds, NothingFolded;
    var id, to := hosts[i].id, Hop(b.hostToSuper, s + ".0/24");
    var final := if hostToSuper.Some? then hostToSuper.value else map[];
    assert Hop(b1.hostToSuper, id) == s + ".0/24" && Hop(final, id) == to;
    assert to != id;
    assert id in final && final[id] == to;
  }

  lemma NeverShown(b0: Books, hosts: seq<Node>, b1: Books, mid: seq<Node>, b: Books, kept: seq<Node>, i: int)
    requires NothingFolded(b0, hosts) && Folds(b1, mid, b, kept) && 0 <= i < |hosts|
    requires forall n :: n in mid ==> n.id != hosts[i].id
    ensures forall n :: n in kept ==> n.id != hosts[i].id
  {
    hide Sum, AllShown, NewId;
  }

  lemma StaysPut(b1: Books, mid: seq<Node>, n: Node)
    requires AllShown(b1, mid) && n in mid
    ensures Hop(b1.hostToSuper, n.id) == n.id
  {
  }

  lemma LandsShown(b1: Books, mid: seq<Node>, b: Books, kept: seq<Node>, n: Node)
    requires Folds(b1, mid, b, kept) && n in mid
    ensures exists x :: x in kept && x.id == Hop(b.hostToSuper, n.id)
  {
    NodeLands(b1, mid, b, kept, n);
    var k :| 0 <= k < |mid| && mid[k] == n;
    hide Sum, NewSuperNode;
    if n in kept {
      assert n.id in SubnetFold.IdsOf(kept);
    } else {
      var j :| 0 <= j < |kept| && kept[j].id == b.hostToSuper[n.id];
      assert kept[j] in kept;
    }
  }

  /** Aggregates if it should; then isolates nothing, so that every host shown before is still represented, and the
      nodes shown stand for the same packets, bytes, visible traffic and number of hosts. */
  method Aggregate(kept0: seq<Node>, visible: map<string, int>, o: Opened, filtering: bool, overrides: set<string>,
                   threshold: int, far: bool, wasAggregated: bool)
    returns (kept: seq<Node>, hostToSuper: Option<map<string, string>>, b: Books, active: bool, ghost first: Books,
             ghost mid: seq<Node>)
    requires DistinctIds(kept0) && (forall i :: 0 <= i < |kept0| ==> !HasSlash(kept0[i].id))
      && forall id :: id in visible ==> !HasSlash(id)
    requires forall i :: 0 <= i < |kept0| ==> Plain(kept0[i].id) && NoAngle(kept0[i].subnet)
    ensures Clean(b, kept)
    ensures active == Aggregates(|kept0|, threshold, far, wasAggregated)
      && (!active ==> kept == kept0 && hostToSuper == None)
    ensures Aggregation(o, filtering, visible, kept0, overrides, threshold, far, wasAggregated, first, mid, b, kept,
      hostToSuper)
    ensures NoneLeft(o, kept0, overrides, threshold, far, wasAggregated, hostToSuper, kept)
    ensures Sum(b, kept) == Sum(Books(map[], map[], visible, {}), kept0)
    ensures DistinctIds(kept) && Represented(kept0, hostToSuper, kept)
  {
    hide Sum, HasSlash, Folds, FirstLevel, Fresh, Key24, Key16, CleanNode, LevelDone, FirstFolded, SecondFolded,
         NoneLeft, Represented, Clean, Plain, NoAngle, IsKey;
    var b0 := Books(map[], map[], visible, {});
    b, kept, hostToSuper := b0, kept0, None;
    first, mid := b0, kept0;
    StartsClean(visible, kept0);
    active := |kept0| > threshold || (far && |kept0| > MIN_HOSTS_TO_COLLAPSE);
    if !active && wasAggregated && |kept0| > threshold * (REEXPAND_DIVISOR - 1) / REEXPAND_DIVISOR {
      active := true;
    }
    if !active {
      StillThere(kept0);
      NotFolded(o, kept0, overrides, threshold, far, wasAggregated);
      return;
    }
    Level24IsFresh(b0, kept0);
    ghost var p, done;
    kept, b, p, done := CollapseLevel(kept0, b0, o, filtering, (n: Node) => Key24(b0, n), overrides);
    FirstLevelHolds(b0, o, filtering, kept0, overrides, p, done, kept);
    Level24IsClean(o, filtering, b0, kept0, overrides, p, done, kept);
    var b1 := b;
    first, mid := b, kept;
    FoldsShown(b0, kept0, b1, mid);
    FirstIsFolded(o, filtering, b0, kept0, overrides, done, p, mid);
    OneFold(b0, kept0, b1, mid);
    if |kept| > threshold || far {
      Level16IsFresh(b1, o, kept);
      ghost var p2, done2;
      kept, b, p2, done2 := CollapseLevel(kept, b1, o, filtering, (n: Node) => Key16(b1, o, n), overrides);
      Level16IsClean(o, filtering, b1, mid, overrides, p2, done2, kept);
      FoldsShown(b1, mid, b, kept);
      SecondIsFolded(o, filtering, b1, mid, overrides, done2, p2, kept);
    }
    TwoFolds(b0, kept0, b1, mid, b, kept);
    FlatHops(b0, kept0, b1, mid, b, kept);
    FoldsShown(b1, mid, b, kept);
    var flat := Flatten(b.hostToSuper);
    hostToSuper := Some(flat);
    if b.superHosts == map[] {
      NobodyMoved(b0, kept0, b1, mid, b, kept);
      NothingToRemap(kept0, kept);
      hostToSuper := None;
    }
    HostsAreFolded(o, filtering, b0, kept0, overrides, threshold, far, wasAggregated, b1, mid, b, kept, hostToSuper);
  }

  lemma StartsClean(visible: map<string, int>, kept: seq<Node>)
    requires forall i :: 0 <= i < |kept| ==> Plain(kept[i].id) && NoAngle(kept[i].subnet)
    ensures Clean(Books(map[], map[], visible, {}), kept)
  {
  }

  lemma StillThere(kept: seq<Node>)
    ensures Represented(kept, None, kept)
  {
  }

  lemma FoldsShown(b0: Books, kept0: seq<Node>, b: Books, kept: seq<Node>)
    requires Folds(b0, kept0, b, kept)
    ensures AllShown(b, kept) && DistinctIds(kept) && Sum(b, kept) == Sum(b0, kept0)
  {
  }

  lemma NothingToRemap(kept0: seq<Node>, kept: seq<Node>)
    requires Represented(kept0, Some(Flat(map[])), kept)
    ensures Represented(kept0, None, kept)
  {
  }

  /** Before aggregation every node stands for one host, so afterwards the supernodes and hosts
      shown stand for as many. */
  lemma {:induction false} EveryHostCounts(visible: map<string, int>, kept: seq<Node>)
    ensures Sum(Books(map[], map[], visible, {}), kept).hosts == |kept|
  {
    if kept != [] { EveryHostCounts(visible, kept[..|kept| - 1]); }
  }
}
